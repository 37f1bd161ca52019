/** The timing wheel's memory: nodes on index-linked bucket chains, one chain that a tick may
    have detached, and a free stack. */
module WheelShape {
  import opened Machine
  import opened IntrusiveLists

  datatype Node = Node(prev: int, next: int, slot: nat, gen: nat, cb: Option<nat>)

  function First(c: seq<nat>): int {
    if c == [] then NULL else c[0]
  }

  function NextIn(c: seq<nat>, k: nat): int
    requires k < |c|
  {
    if k + 1 < |c| then c[k + 1] else NULL
  }

  function PrevIn(c: seq<nat>, k: nat): int
    requires k < |c|
  {
    if k > 0 then c[k - 1] else NULL
  }

  /** The nodes of c are linked forwards, ending in null. */
  ghost predicate Forward(nodes: seq<Node>, c: seq<nat>) {
    forall k :: 0 <= k < |c| ==> c[k] < |nodes| && nodes[c[k]].next == NextIn(c, k)
  }

  /** c is the bucket chain of a slot, linked both ways. */
  ghost predicate Bucket(nodes: seq<Node>, head: int, c: seq<nat>, slot: nat) {
    && head == First(c) && Forward(nodes, c)
    && forall k :: 0 <= k < |c| ==> c[k] < |nodes| && nodes[c[k]].prev == PrevIn(c, k) && nodes[c[k]].slot == slot
  }

  ghost predicate Buckets(nodes: seq<Node>, heads: seq<int>, chains: seq<seq<nat>>) {
    && |heads| == |chains|
    && forall s :: 0 <= s < |chains| ==> Bucket(nodes, heads[s], chains[s], s)
  }

  /** Linking and unlinking leave everything but the links alone. */
  ghost predicate OnlyLinks(a: seq<Node>, b: seq<Node>) {
    |a| == |b| && forall i :: 0 <= i < |a| ==> b[i] == a[i].(prev := b[i].prev, next := b[i].next)
  }

  ghost predicate SameLinks(a: seq<Node>, b: seq<Node>, c: seq<nat>) {
    |a| == |b| &&
    forall k :: 0 <= k < |c| && c[k] < |a| ==>
      b[c[k]].prev == a[c[k]].prev && b[c[k]].next == a[c[k]].next && b[c[k]].slot == a[c[k]].slot
  }

  lemma {:induction false} BucketUntouched(a: seq<Node>, b: seq<Node>, head: int, c: seq<nat>, slot: nat)
    requires Bucket(a, head, c, slot) && SameLinks(a, b, c)
    ensures Bucket(b, head, c, slot)
  {
  }

  function PushNodes(nodes: seq<Node>, head: int, idx: nat): seq<Node>
    requires idx < |nodes| && (head == NULL || 0 <= head < |nodes|)
  {
    var ns := nodes[idx := nodes[idx].(prev := NULL, next := head)];
    if head == NULL then ns else ns[head := ns[head].(prev := idx)]
  }

  lemma {:induction false} PushBucket(nodes: seq<Node>, head: int, c: seq<nat>, slot: nat, idx: nat)
    requires Bucket(nodes, head, c, slot) && NoRepeat(c)
    requires idx < |nodes| && idx !in c && nodes[idx].slot == slot
    ensures head == NULL || 0 <= head < |nodes|
    ensures Bucket(PushNodes(nodes, head, idx), idx, [idx] + c, slot) && OnlyLinks(nodes, PushNodes(nodes, head, idx))
  {
    var ns := PushNodes(nodes, head, idx);
    var d := [idx] + c;
    forall k | 0 <= k < |d|
      ensures d[k] < |nodes| && ns[d[k]].next == NextIn(d, k) && ns[d[k]].prev == PrevIn(d, k) && ns[d[k]].slot == slot
    {
      if k > 0 {
        assert d[k] == c[k - 1];
      }
    }
  }

  function UnlinkNodes(nodes: seq<Node>, idx: nat): seq<Node>
    requires idx < |nodes|
    requires nodes[idx].prev == NULL || 0 <= nodes[idx].prev < |nodes|
    requires nodes[idx].next == NULL || 0 <= nodes[idx].next < |nodes|
  {
    var node := nodes[idx];
    var a := if node.prev == NULL then nodes else nodes[node.prev := nodes[node.prev].(next := node.next)];
    var b := if node.next == NULL then a else a[node.next := a[node.next].(prev := node.prev)];
    b[idx := b[idx].(prev := NULL, next := NULL)]
  }

  /** The links that unlinking cell k of a chain leaves at another cell m. */
  lemma {:induction false} UnlinkCell(nodes: seq<Node>, c: seq<nat>, slot: nat, k: nat, m: nat)
    requires Bucket(nodes, First(c), c, slot) && NoRepeat(c) && k < |c| && m < |c| && m != k
    requires nodes[c[k]].prev == PrevIn(c, k) && nodes[c[k]].next == NextIn(c, k)
    requires PrevIn(c, k) < |nodes| && NextIn(c, k) < |nodes|
    ensures var ns := UnlinkNodes(nodes, c[k]);
            && ns[c[m]].next == (if m + 1 == k then NextIn(c, k) else NextIn(c, m))
            && ns[c[m]].prev == (if m == k + 1 then PrevIn(c, k) else PrevIn(c, m))
            && ns[c[m]].slot == slot
  {
    assert nodes[c[m]].next == NextIn(c, m) && nodes[c[m]].prev == PrevIn(c, m);
  }

  lemma {:induction false} UnlinkFrame(nodes: seq<Node>, c: seq<nat>, k: nat)
    requires k < |c| && c[k] < |nodes| && nodes[c[k]].prev == PrevIn(c, k) && nodes[c[k]].next == NextIn(c, k)
    requires PrevIn(c, k) < |nodes| && NextIn(c, k) < |nodes|
    ensures var ns := UnlinkNodes(nodes, c[k]);
            OnlyLinks(nodes, ns) && forall i :: 0 <= i < |nodes| && i !in c ==> ns[i] == nodes[i]
  {
    assert k > 0 ==> c[k - 1] in c;
  }

  lemma {:induction false} RemovedLinks(c: seq<nat>, k: nat, m: nat)
    requires k < |c| && m < |c| && m != k
    ensures var d, n := RemoveAt(c, k), if m < k then m else m - 1;
            && d[n] == c[m]
            && NextIn(d, n) == (if m + 1 == k then NextIn(c, k) else NextIn(c, m))
            && PrevIn(d, n) == (if m == k + 1 then PrevIn(c, k) else PrevIn(c, m))
  {
  }

  /** Cell n of the chain that is left has the links of that chain. */
  lemma {:induction false} UnlinkedCell(nodes: seq<Node>, c: seq<nat>, slot: nat, k: nat, n: nat)
    requires Bucket(nodes, First(c), c, slot) && NoRepeat(c) && k < |c| && n < |c| - 1
    requires nodes[c[k]].prev == PrevIn(c, k) && nodes[c[k]].next == NextIn(c, k)
    requires PrevIn(c, k) < |nodes| && NextIn(c, k) < |nodes|
    ensures var ns, d := UnlinkNodes(nodes, c[k]), RemoveAt(c, k);
            d[n] < |nodes| && ns[d[n]].next == NextIn(d, n) && ns[d[n]].prev == PrevIn(d, n) && ns[d[n]].slot == slot
  {
    hide UnlinkNodes, NextIn, PrevIn;
    var m := if n < k then n else n + 1;
    UnlinkCell(nodes, c, slot, k, m);
    RemovedLinks(c, k, m);
  }

  lemma {:induction false} UnlinkBucket(nodes: seq<Node>, head: int, c: seq<nat>, slot: nat, k: nat)
    requires Bucket(nodes, head, c, slot) && NoRepeat(c) && k < |c|
    ensures c[k] < |nodes|
    ensures nodes[c[k]].prev == NULL || 0 <= nodes[c[k]].prev < |nodes|
    ensures nodes[c[k]].next == NULL || 0 <= nodes[c[k]].next < |nodes|
    ensures var ns := UnlinkNodes(nodes, c[k]);
            var head' := if nodes[c[k]].prev == NULL then nodes[c[k]].next else head;
            && Bucket(ns, head', RemoveAt(c, k), slot) && OnlyLinks(nodes, ns)
            && forall i :: 0 <= i < |nodes| && i !in c ==> ns[i] == nodes[i]
  {
    var d := RemoveAt(c, k);
    assert nodes[c[k]].next == NextIn(c, k) && nodes[c[k]].prev == PrevIn(c, k);
    UnlinkFrame(nodes, c, k);
    assert First(d) == if k == 0 then NextIn(c, 0) else First(c);
    var ns := UnlinkNodes(nodes, c[k]);
    forall n | 0 <= n < |d|
      ensures d[n] < |nodes| && ns[d[n]].next == NextIn(d, n) && ns[d[n]].prev == PrevIn(d, n) && ns[d[n]].slot == slot
    {
      UnlinkedCell(nodes, c, slot, k, n);
    }
    hide UnlinkNodes, OnlyLinks, NextIn, PrevIn;
  }

  // ---------------------------------------------------------------------------
  // Where every node is
  // ---------------------------------------------------------------------------

  const FREE := -1

  /** Every node is free, on exactly one bucket chain, on the detached chain (home W, one past
      the last slot) or in its callback (home W + 1). */
  ghost predicate Homes(chains: seq<seq<nat>>, walk: seq<nat>, run: int, home: seq<int>, free: set<nat>) {
    && (forall s, k :: 0 <= s < |chains| && 0 <= k < |chains[s]| ==> chains[s][k] < |home| && home[chains[s][k]] == s)
    && (forall s :: 0 <= s < |chains| ==> NoRepeat(chains[s]))
    && (forall k :: 0 <= k < |walk| ==> walk[k] < |home| && home[walk[k]] == |chains|)
    && NoRepeat(walk)
    && (forall i :: 0 <= i < |home| ==> Home(chains, walk, run, home[i], free, i))
    && (run == NULL || (0 <= run < |home| && home[run] == |chains| + 1))
    && (forall i :: i in free ==> i < |home| && home[i] == FREE)
  }

  ghost predicate Home(chains: seq<seq<nat>>, walk: seq<nat>, run: int, h: int, free: set<nat>, i: nat) {
    || (h == FREE && i in free)
    || (0 <= h < |chains| && i in chains[h])
    || (h == |chains| && i in walk)
    || (h == |chains| + 1 && i == run)
  }

  lemma {:induction false} HomesPush(chains: seq<seq<nat>>, walk: seq<nat>, run: int, home: seq<int>, free: set<nat>,
                                     idx: nat, slot: nat)
    requires Homes(chains, walk, run, home, free) && idx in free && slot < |chains|
    ensures idx < |home| && forall s :: 0 <= s < |chains| ==> idx !in chains[s]
    ensures idx !in walk
    ensures Homes(chains[slot := [idx] + chains[slot]], walk, run, home[idx := slot], free - {idx})
  {
    var chains', home' := chains[slot := [idx] + chains[slot]], home[idx := slot];
    forall s, k | 0 <= s < |chains'| && 0 <= k < |chains'[s]|
      ensures chains'[s][k] < |home| && home'[chains'[s][k]] == s
    {
      if s == slot && k > 0 {
        assert chains'[s][k] == chains[s][k - 1];
      }
    }
    forall i | 0 <= i < |home|
      ensures Home(chains', walk, run, home'[i], free - {idx}, i)
    {
      assert Home(chains, walk, run, home[i], free, i);
    }
  }

  lemma {:induction false} HomesUnlink(chains: seq<seq<nat>>, walk: seq<nat>, run: int, home: seq<int>, free: set<nat>,
                                       slot: nat, k: nat)
    requires Homes(chains, walk, run, home, free) && slot < |chains| && k < |chains[slot]|
    ensures var idx := chains[slot][k];
            idx < |home| && idx !in free &&
            Homes(chains[slot := RemoveAt(chains[slot], k)], walk, run, home[idx := FREE], free + {idx})
  {
    var idx := chains[slot][k];
    var chains', home' := chains[slot := RemoveAt(chains[slot], k)], home[idx := FREE];
    RemoveNoRepeat(chains[slot], k);
    RemoveMembers(chains[slot], k);
    forall s, n | 0 <= s < |chains'| && 0 <= n < |chains'[s]|
      ensures chains'[s][n] < |home| && home'[chains'[s][n]] == s
    {
      if s == slot {
        assert chains'[s][n] in chains[s] && chains'[s][n] != idx;
      }
    }
    forall i | 0 <= i < |home|
      ensures Home(chains', walk, run, home'[i], free + {idx}, i)
    {
      assert Home(chains, walk, run, home[i], free, i);
    }
  }

  /** Homes once the nodes of one slot have moved to the detached chain. */
  function Detached(home: seq<int>, slot: nat, w: nat): seq<int> {
    seq(|home|, i requires 0 <= i < |home| => if home[i] == slot then w else home[i])
  }

  lemma {:induction false} HomesDetach(chains: seq<seq<nat>>, run: int, home: seq<int>, free: set<nat>, slot: nat)
    requires Homes(chains, [], run, home, free) && slot < |chains|
    ensures Homes(chains[slot := []], chains[slot], run, Detached(home, slot, |chains|), free)
  {
    var chains', home' := chains[slot := []], Detached(home, slot, |chains|);
    forall i | 0 <= i < |home|
      ensures Home(chains', chains[slot], run, home'[i], free, i)
    {
      assert Home(chains, [], run, home[i], free, i);
    }
  }

  /** The first detached node goes to its callback. */
  lemma {:induction false} HomesRun(chains: seq<seq<nat>>, walk: seq<nat>, home: seq<int>, free: set<nat>)
    requires Homes(chains, walk, NULL, home, free) && walk != []
    ensures walk[0] < |home| && walk[0] !in free
    ensures Homes(chains, walk[1..], walk[0], home[walk[0] := |chains| + 1], free)
  {
    var home' := home[walk[0] := |chains| + 1];
    assert walk == [walk[0]] + walk[1..];
    forall i | 0 <= i < |home|
      ensures Home(chains, walk[1..], walk[0], home'[i], free, i)
    {
      assert Home(chains, walk, NULL, home[i], free, i);
    }
  }

  lemma {:induction false} HomesFreeRun(chains: seq<seq<nat>>, walk: seq<nat>, run: nat, home: seq<int>, free: set<nat>)
    requires Homes(chains, walk, run, home, free)
    ensures run < |home| && run !in free && Homes(chains, walk, NULL, home[run := FREE], free + {run})
  {
    var home' := home[run := FREE];
    forall i | 0 <= i < |home'|
      ensures Home(chains, walk, NULL, home'[i], free + {run}, i)
    {
      assert Home(chains, walk, run, home[i], free, i);
    }
  }

  // ---------------------------------------------------------------------------
  // All chains at once
  // ---------------------------------------------------------------------------

  lemma {:induction false} BucketsPush(nodes: seq<Node>, heads: seq<int>, chains: seq<seq<nat>>, walk: seq<nat>, run: int,
                                       home: seq<int>, free: set<nat>, idx: nat, slot: nat)
    requires Buckets(nodes, heads, chains) && Forward(nodes, walk) && |nodes| == |home|
    requires Homes(chains, walk, run, home, free) && idx in free && slot < |chains| && nodes[idx].slot == slot
    ensures heads[slot] == NULL || 0 <= heads[slot] < |nodes|
    ensures var ns := PushNodes(nodes, heads[slot], idx);
            && Buckets(ns, heads[slot := idx], chains[slot := [idx] + chains[slot]]) && Forward(ns, walk)
            && OnlyLinks(nodes, ns)
  {
    HomesPush(chains, walk, run, home, free, idx, slot);
    PushBucket(nodes, heads[slot], chains[slot], slot, idx);
    var ns := PushNodes(nodes, heads[slot], idx);
    forall s | 0 <= s < |chains| && s != slot
      ensures Bucket(ns, heads[s], chains[s], s)
    {
      BucketUntouched(nodes, ns, heads[s], chains[s], s);
    }
  }

  /** Changes confined to one chain leave the other chains and the detached one alone. */
  lemma {:induction false} OtherChains(nodes: seq<Node>, ns: seq<Node>, heads: seq<int>, chains: seq<seq<nat>>, walk: seq<nat>,
                                       run: int, home: seq<int>, free: set<nat>, slot: nat)
    requires Buckets(nodes, heads, chains) && Forward(nodes, walk) && |nodes| == |home| == |ns|
    requires Homes(chains, walk, run, home, free) && slot < |chains|
    requires forall i :: 0 <= i < |nodes| && i !in chains[slot] ==> ns[i] == nodes[i]
    ensures Forward(ns, walk) && forall s :: 0 <= s < |chains| && s != slot ==> Bucket(ns, heads[s], chains[s], s)
  {
    forall i | i in chains[slot]
      ensures i < |home| && home[i] == slot
    {
    }
    forall s | 0 <= s < |chains| && s != slot
      ensures Bucket(ns, heads[s], chains[s], s)
    {
      BucketUntouched(nodes, ns, heads[s], chains[s], s);
    }
  }

  lemma {:induction false} BucketsUnlink(nodes: seq<Node>, heads: seq<int>, chains: seq<seq<nat>>, walk: seq<nat>, run: int,
                                         home: seq<int>, free: set<nat>, slot: nat, k: nat)
    requires Buckets(nodes, heads, chains) && Forward(nodes, walk) && |nodes| == |home|
    requires Homes(chains, walk, run, home, free) && slot < |chains| && k < |chains[slot]|
    ensures var idx := chains[slot][k];
            && idx < |nodes|
            && (nodes[idx].prev == NULL || 0 <= nodes[idx].prev < |nodes|)
            && (nodes[idx].next == NULL || 0 <= nodes[idx].next < |nodes|)
            && (var ns := UnlinkNodes(nodes, idx);
                var hs := if nodes[idx].prev == NULL then heads[slot := nodes[idx].next] else heads;
                Buckets(ns, hs, chains[slot := RemoveAt(chains[slot], k)]) && Forward(ns, walk) && OnlyLinks(nodes, ns))
  {
    hide UnlinkNodes, Bucket, Forward, RemoveAt;
    UnlinkBucket(nodes, heads[slot], chains[slot], slot, k);
    OtherChains(nodes, UnlinkNodes(nodes, chains[slot][k]), heads, chains, walk, run, home, free, slot);
  }
}
