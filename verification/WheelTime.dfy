/** The timing wheel's memory as one value, and how it tracks the timer log. */
module WheelTime {
  import opened Machine
  import opened IntrusiveLists
  import opened TimerLog
  import opened WheelShape

  // ---------------------------------------------------------------------------
  // Generations and handles
  // ---------------------------------------------------------------------------

  /** Generations run through 1, ..., 2^32 - 1; a node's epoch counts its recyclings. */
  const GENERATIONS := U32 - 1

  function GenOf(epoch: nat): nat {
    epoch % GENERATIONS + 1
  }

  function NextGen(gen: nat): nat {
    if Wrap32(gen + 1) == 0 then 1 else Wrap32(gen + 1)
  }

  lemma {:induction false} NextGenIsNextEpoch(epoch: nat)
    ensures NextGen(GenOf(epoch)) == GenOf(epoch + 1) && 0 < GenOf(epoch) < U32
  {
    var q, r := epoch / GENERATIONS, epoch % GENERATIONS;
    if r == GENERATIONS - 1 {
      ModUnique(epoch + 1, GENERATIONS, q + 1, 0);
    } else {
      ModUnique(epoch + 1, GENERATIONS, q, r + 1);
    }
  }

  function Pack(idx: nat, gen: nat): nat {
    gen * U32 + idx
  }

  function Handle(t: Ticket): nat {
    Pack(t.idx, GenOf(t.epoch))
  }

  /** Unpacking a handle gives back node and generation, and a handle is never 0. */
  lemma {:induction false} Unpack(t: Ticket)
    requires t.idx < U32
    ensures Handle(t) % U32 == t.idx && Handle(t) / U32 == GenOf(t.epoch) && Handle(t) != 0
  {
  }

  /** Two timers have the same handle if and only if they had the same node and it was recycled a
      multiple of 2^32 - 1 times in between. */
  lemma {:induction false} HandlesAgree(t: Ticket, u: Ticket)
    requires t.idx < U32 && u.idx < U32 && t.epoch <= u.epoch
    ensures Handle(t) == Handle(u) <==> t.idx == u.idx && (u.epoch - t.epoch) % GENERATIONS == 0
  {
    Unpack(t);
    Unpack(u);
    var q, r := t.epoch / GENERATIONS, t.epoch % GENERATIONS;
    if u.epoch % GENERATIONS == r {
      ModUnique(u.epoch - t.epoch, GENERATIONS, u.epoch / GENERATIONS - q, 0);
    }
    if (u.epoch - t.epoch) % GENERATIONS == 0 {
      ModUnique(u.epoch, GENERATIONS, q + (u.epoch - t.epoch) / GENERATIONS, r);
    }
  }

  /** So a handle names its own ticket until its node has been recycled 2^32 - 1 times. */
  lemma {:induction false} HandleNamesTicket(t: Ticket, u: Ticket)
    requires t.idx < U32 && u.idx < U32 && t.epoch <= u.epoch < t.epoch + GENERATIONS
    ensures Handle(t) == Handle(u) <==> t == u
  {
    HandlesAgree(t, u);
  }

  // ---------------------------------------------------------------------------
  // The whole memory
  // ---------------------------------------------------------------------------

  /** Bucket heads, nodes and free indices are the program's; the rest is bookkeeping: the
      chains, the detached chain, the node in its callback, each node's home, due tick and
      epoch. */
  datatype Wheel = Wheel(heads: seq<int>, nodes: seq<Node>, free: set<nat>,
                         chains: seq<seq<nat>>, walk: seq<nat>, run: int,
                         home: seq<int>, due: seq<nat>, epoch: seq<nat>)

  ghost predicate Shaped(w: Wheel) {
    && |w.heads| == |w.chains| > 1 && |w.nodes| == |w.home| == |w.due| == |w.epoch| <= U32
    && Buckets(w.nodes, w.heads, w.chains) && Forward(w.nodes, w.walk)
    && Homes(w.chains, w.walk, w.run, w.home, w.free)
    && (forall i :: 0 <= i < |w.nodes| ==> w.nodes[i].gen == GenOf(w.epoch[i]))
  }

  /** Armed nodes are exactly the pending tickets, with their due tick and callback. */
  ghost predicate ArmedOk(armed: map<Ticket, Pending>, nodes: seq<Node>, due: seq<nat>, epoch: seq<nat>)
    requires |nodes| == |due| == |epoch|
  {
    && (forall t :: t in armed ==> t.idx < |nodes| && t.epoch == epoch[t.idx] && nodes[t.idx].cb.Some?)
    && (forall i :: 0 <= i < |nodes| && nodes[i].cb.Some? ==>
          Ticket(i, epoch[i]) in armed && armed[Ticket(i, epoch[i])] == Pending(due[i], nodes[i].cb.value))
  }

  /** Node due ticks: within one turn of the wheel and in the right slot, or now. */
  ghost predicate DueOk(now: nat, w: nat, nodes: seq<Node>, home: seq<int>, due: seq<nat>)
    requires |nodes| == |home| == |due| && w > 0
  {
    forall i :: 0 <= i < |nodes| ==> DueAt(now, w, home[i], due[i], nodes[i].cb)
  }

  ghost predicate DueAt(now: nat, w: nat, h: int, due: nat, cb: Option<nat>)
    requires w > 0
  {
    && (0 <= h < w ==> now < due < now + w && due % w == h)
    && (h == w ==> due == now)
    && (cb.Some? ==> 0 <= h <= w)
  }

  /** Tickets once issued belong to an earlier epoch or to a node in use. */
  ghost predicate UsedOk(m: Monitor, epoch: seq<nat>, free: set<nat>) {
    forall t :: t in m.used ==>
      t.idx < |epoch| && (t.epoch < epoch[t.idx] || (t.epoch == epoch[t.idx] && t.idx !in free))
  }

  ghost predicate Tracks(w: Wheel, m: Monitor)
    requires Shaped(w)
  {
    && ArmedOk(m.armed, w.nodes, w.due, w.epoch)
    && DueOk(m.now, |w.heads|, w.nodes, w.home, w.due)
    && UsedOk(m, w.epoch, w.free)
  }

  /** Only node idx changed its callback. */
  ghost predicate OtherCallbacks(a: seq<Node>, b: seq<Node>, idx: nat) {
    |a| == |b| && idx < |a| && forall i :: 0 <= i < |a| && i != idx ==> b[i].cb == a[i].cb
  }

  lemma {:induction false} ArmedAdd(armed: map<Ticket, Pending>, nodes: seq<Node>, due: seq<nat>, epoch: seq<nat>,
                                    nodes': seq<Node>, idx: nat, d: nat)
    requires |nodes| == |due| == |epoch| && ArmedOk(armed, nodes, due, epoch)
    requires OtherCallbacks(nodes, nodes', idx) && nodes[idx].cb.None? && nodes'[idx].cb.Some?
    ensures Ticket(idx, epoch[idx]) !in armed
    ensures ArmedOk(armed[Ticket(idx, epoch[idx]) := Pending(d, nodes'[idx].cb.value)], nodes', due[idx := d], epoch)
  {
  }

  lemma {:induction false} ArmedDrop(armed: map<Ticket, Pending>, nodes: seq<Node>, due: seq<nat>, epoch: seq<nat>,
                                     nodes': seq<Node>, idx: nat, e: nat)
    requires |nodes| == |due| == |epoch| && ArmedOk(armed, nodes, due, epoch)
    requires OtherCallbacks(nodes, nodes', idx) && nodes'[idx].cb.None?
    ensures ArmedOk(armed - {Ticket(idx, epoch[idx])}, nodes', due, epoch[idx := e])
    ensures nodes[idx].cb.None? ==> armed - {Ticket(idx, epoch[idx])} == armed
  {
  }

  // ---------------------------------------------------------------------------
  // Scheduling
  // ---------------------------------------------------------------------------

  function Arm(w: Wheel, idx: nat, slot: nat, due: nat, cb: nat): Wheel
    requires idx < |w.nodes| == |w.home| == |w.due| && slot < |w.heads| == |w.chains|
    requires w.heads[slot] == NULL || 0 <= w.heads[slot] < |w.nodes|
  {
    var ns := w.nodes[idx := w.nodes[idx].(cb := Some(cb), slot := slot)];
    w.(heads := w.heads[slot := idx], nodes := PushNodes(ns, w.heads[slot], idx), free := w.free - {idx},
       chains := w.chains[slot := [idx] + w.chains[slot]], home := w.home[idx := slot], due := w.due[idx := due])
  }

  lemma {:induction false} FreeNodeUnlinked(w: Wheel, idx: nat, node: Node)
    requires Shaped(w) && idx in w.free
    ensures idx < |w.nodes| && w.home[idx] == FREE
    ensures var ns := w.nodes[idx := node];
            Buckets(ns, w.heads, w.chains) && Forward(ns, w.walk)
  {
    var ns := w.nodes[idx := node];
    forall s | 0 <= s < |w.chains|
      ensures Bucket(ns, w.heads[s], w.chains[s], s)
    {
      BucketUntouched(w.nodes, ns, w.heads[s], w.chains[s], s);
    }
  }

  lemma {:induction false} ArmShaped(w: Wheel, idx: nat, slot: nat, due: nat, cb: nat)
    requires Shaped(w) && idx in w.free && slot < |w.heads|
    ensures idx < |w.nodes| && (w.heads[slot] == NULL || 0 <= w.heads[slot] < |w.nodes|)
    ensures Shaped(Arm(w, idx, slot, due, cb))
    ensures OnlyLinks(w.nodes[idx := w.nodes[idx].(cb := Some(cb), slot := slot)], Arm(w, idx, slot, due, cb).nodes)
  {
    FreeNodeUnlinked(w, idx, w.nodes[idx].(cb := Some(cb), slot := slot));
    var ns := w.nodes[idx := w.nodes[idx].(cb := Some(cb), slot := slot)];
    BucketsPush(ns, w.heads, w.chains, w.walk, w.run, w.home, w.free, idx, slot);
    HomesPush(w.chains, w.walk, w.run, w.home, w.free, idx, slot);
    hide Homes, Buckets, Forward, PushNodes;
    var w' := Arm(w, idx, slot, due, cb);
    forall i | 0 <= i < |w'.nodes|
      ensures w'.nodes[i].gen == GenOf(w'.epoch[i])
    {
      assert w'.nodes[i].gen == ns[i].gen == w.nodes[i].gen;
    }
  }

  /** Scheduling on a free node issues a ticket never issued before and arms it. */
  lemma {:induction false} ArmTracks(w: Wheel, m: Monitor, idx: nat, delay: nat, cb: nat)
    requires Shaped(w) && Tracks(w, m) && idx in w.free && idx < |w.nodes| && 0 < delay < |w.heads|
    requires var slot := (m.now + delay) % |w.heads|;
             && w.home[idx] == FREE && (w.heads[slot] == NULL || 0 <= w.heads[slot] < |w.nodes|)
             && Shaped(Arm(w, idx, slot, m.now + delay, cb))
             && OnlyLinks(w.nodes[idx := w.nodes[idx].(cb := Some(cb), slot := slot)],
                          Arm(w, idx, slot, m.now + delay, cb).nodes)
    ensures var e := Scheduled(Ticket(idx, w.epoch[idx]), delay, cb);
            Allowed(m, e) && Tracks(Arm(w, idx, (m.now + delay) % |w.heads|, m.now + delay, cb), Next(m, e))
  {
    hide Buckets, Forward, Homes, PushNodes, ArmedOk;
    var slot := (m.now + delay) % |w.heads|;
    var t := Ticket(idx, w.epoch[idx]);
    var w', m' := Arm(w, idx, slot, m.now + delay, cb), Next(m, Scheduled(t, delay, cb));
    assert DueAt(m.now, |w.heads|, w.home[idx], w.due[idx], w.nodes[idx].cb);
    forall i | 0 <= i < |w.nodes|
      ensures w'.nodes[i].cb == if i == idx then Some(cb) else w.nodes[i].cb
      ensures DueAt(m.now, |w.heads|, w'.home[i], w'.due[i], w'.nodes[i].cb)
    {
      assert DueAt(m.now, |w.heads|, w.home[i], w.due[i], w.nodes[i].cb);
    }
    ArmedAdd(m.armed, w.nodes, w.due, w.epoch, w'.nodes, idx, m.now + delay);
  }
  // ---------------------------------------------------------------------------
  // Cancelling
  // ---------------------------------------------------------------------------

  /** What freeing does to a node. */
  function Recycled(node: Node): Node {
    node.(gen := NextGen(node.gen), cb := None)
  }

  /** A node goes back to the free stack in its next epoch. */
  function Release(w: Wheel, idx: nat): Wheel
    requires idx < |w.nodes| == |w.home| == |w.epoch|
  {
    w.(nodes := w.nodes[idx := Recycled(w.nodes[idx])], free := w.free + {idx}, home := w.home[idx := FREE],
       epoch := w.epoch[idx := w.epoch[idx] + 1])
  }

  /** Cell k of a bucket chain is taken out. */
  function Unchain(w: Wheel, slot: nat, k: nat): Wheel
    requires slot < |w.heads| == |w.chains| && k < |w.chains[slot]| && w.chains[slot][k] < |w.nodes|
    requires var node := w.nodes[w.chains[slot][k]];
             (node.prev == NULL || 0 <= node.prev < |w.nodes|) && (node.next == NULL || 0 <= node.next < |w.nodes|)
  {
    var idx := w.chains[slot][k];
    w.(heads := if w.nodes[idx].prev == NULL then w.heads[slot := w.nodes[idx].next] else w.heads,
       nodes := UnlinkNodes(w.nodes, idx), chains := w.chains[slot := RemoveAt(w.chains[slot], k)])
  }

  ghost predicate Unchains(w: Wheel, slot: nat, k: nat) {
    && slot < |w.heads| == |w.chains| && k < |w.chains[slot]| && w.chains[slot][k] < |w.nodes|
    && (var node := w.nodes[w.chains[slot][k]];
        (node.prev == NULL || 0 <= node.prev < |w.nodes|) && (node.next == NULL || 0 <= node.next < |w.nodes|))
  }

  lemma {:induction false} UnlinkedNode(w: Wheel, nodes: seq<Node>, chains: seq<seq<nat>>, heads: seq<int>, idx: nat, node: Node)
    requires Buckets(nodes, heads, chains) && Forward(nodes, w.walk) && idx < |nodes|
    requires forall s :: 0 <= s < |chains| ==> idx !in chains[s]
    requires idx !in w.walk
    ensures Buckets(nodes[idx := node], heads, chains) && Forward(nodes[idx := node], w.walk)
  {
    forall s | 0 <= s < |chains|
      ensures Bucket(nodes[idx := node], heads[s], chains[s], s)
    {
      BucketUntouched(nodes, nodes[idx := node], heads[s], chains[s], s);
    }
  }

  lemma {:induction false} NotOnChains(chains: seq<seq<nat>>, walk: seq<nat>, run: int, home: seq<int>, free: set<nat>, idx: nat)
    requires Homes(chains, walk, run, home, free) && idx < |home| && !(0 <= home[idx] <= |chains|)
    ensures idx !in walk && forall s :: 0 <= s < |chains| ==> idx !in chains[s]
  {
  }

  lemma {:induction false} RemoveShaped(w: Wheel, slot: nat, k: nat)
    requires Shaped(w) && slot < |w.heads| && k < |w.chains[slot]|
    ensures Unchains(w, slot, k)
    ensures Shaped(Release(Unchain(w, slot, k), w.chains[slot][k])) && OnlyLinks(w.nodes, Unchain(w, slot, k).nodes)
  {
    hide Homes, Buckets, Forward, UnlinkNodes;
    var idx := w.chains[slot][k];
    BucketsUnlink(w.nodes, w.heads, w.chains, w.walk, w.run, w.home, w.free, slot, k);
    HomesUnlink(w.chains, w.walk, w.run, w.home, w.free, slot, k);
    var u := Unchain(w, slot, k);
    var r := Release(u, idx);
    NotOnChains(r.chains, r.walk, r.run, r.home, r.free, idx);
    UnlinkedNode(r, u.nodes, r.chains, r.heads, idx, Recycled(u.nodes[idx]));
    NextGenIsNextEpoch(w.epoch[idx]);
    forall i | 0 <= i < |r.nodes|
      ensures r.nodes[i].gen == GenOf(r.epoch[i])
    {
      assert u.nodes[i].gen == w.nodes[i].gen;
    }
  }

  lemma {:induction false} ReleaseUsed(m: Monitor, epoch: seq<nat>, free: set<nat>, idx: nat)
    requires UsedOk(m, epoch, free) && idx < |epoch|
    ensures UsedOk(m, epoch[idx := epoch[idx] + 1], free + {idx})
  {
  }

  lemma {:induction false} RemoveDue(w: Wheel, m: Monitor, slot: nat, k: nat)
    requires Shaped(w) && Tracks(w, m) && Unchains(w, slot, k) && w.nodes[w.chains[slot][k]].cb.Some?
    requires OnlyLinks(w.nodes, Unchain(w, slot, k).nodes)
    requires Shaped(Release(Unchain(w, slot, k), w.chains[slot][k]))
    ensures var idx := w.chains[slot][k];
            var r := Release(Unchain(w, slot, k), idx);
            && OtherCallbacks(w.nodes, r.nodes, idx) && r.nodes[idx].cb.None? && Ticket(idx, w.epoch[idx]) in m.armed
            && DueOk(m.now, |r.heads|, r.nodes, r.home, r.due)
  {
    hide Buckets, Forward, Homes, UnlinkNodes, UsedOk;
    var idx := w.chains[slot][k];
    var u := Unchain(w, slot, k);
    var r := Release(u, idx);
    forall i | 0 <= i < |w.nodes|
      ensures r.nodes[i].cb == if i == idx then None else w.nodes[i].cb
      ensures DueAt(m.now, |w.heads|, r.home[i], r.due[i], r.nodes[i].cb)
    {
      assert u.nodes[i].cb == w.nodes[i].cb;
      assert DueAt(m.now, |w.heads|, w.home[i], w.due[i], w.nodes[i].cb);
    }
  }

  /** Cancelling between ticks frees the node and ends its ticket. */
  lemma {:induction false} RemoveTracks(w: Wheel, m: Monitor, slot: nat, k: nat)
    requires Shaped(w) && Tracks(w, m) && Unchains(w, slot, k) && w.nodes[w.chains[slot][k]].cb.Some?
    requires OnlyLinks(w.nodes, Unchain(w, slot, k).nodes)
    requires Shaped(Release(Unchain(w, slot, k), w.chains[slot][k]))
    ensures var idx := w.chains[slot][k];
            var e := Cancelled(Ticket(idx, w.epoch[idx]));
            Allowed(m, e) && Tracks(Release(Unchain(w, slot, k), idx), Next(m, e))
  {
    hide Buckets, Forward, Homes, UnlinkNodes, DueOk, ArmedOk;
    var idx := w.chains[slot][k];
    var r := Release(Unchain(w, slot, k), idx);
    RemoveDue(w, m, slot, k);
    ArmedDrop(m.armed, w.nodes, w.due, w.epoch, r.nodes, idx, w.epoch[idx] + 1);
    ReleaseUsed(m, w.epoch, w.free, idx);
  }

  /** Cancelling during a walk only takes the callback away. */
  function Mute(w: Wheel, idx: nat): Wheel
    requires idx < |w.nodes|
  {
    w.(nodes := w.nodes[idx := w.nodes[idx].(cb := None)])
  }

  lemma {:induction false} MuteShaped(w: Wheel, idx: nat)
    requires Shaped(w) && idx < |w.nodes|
    ensures Shaped(Mute(w, idx))
  {
    var ns := Mute(w, idx).nodes;
    forall s | 0 <= s < |w.chains|
      ensures Bucket(ns, w.heads[s], w.chains[s], s)
    {
      BucketUntouched(w.nodes, ns, w.heads[s], w.chains[s], s);
    }
  }

  lemma {:induction false} MuteTracks(w: Wheel, m: Monitor, idx: nat)
    requires Shaped(w) && Tracks(w, m) && idx < |w.nodes| && w.nodes[idx].cb.Some? && Shaped(Mute(w, idx))
    ensures var e := Cancelled(Ticket(idx, w.epoch[idx])); Allowed(m, e) && Tracks(Mute(w, idx), Next(m, e))
  {
    hide Buckets, Forward, Homes;
    var r := Mute(w, idx);
    forall i | 0 <= i < |w.nodes|
      ensures DueAt(m.now, |w.heads|, r.home[i], r.due[i], r.nodes[i].cb)
    {
      assert DueAt(m.now, |w.heads|, w.home[i], w.due[i], w.nodes[i].cb);
    }
    assert w.epoch[idx := w.epoch[idx]] == w.epoch;
    ArmedDrop(m.armed, w.nodes, w.due, w.epoch, r.nodes, idx, w.epoch[idx]);
  }
  // ---------------------------------------------------------------------------
  // Ticking
  // ---------------------------------------------------------------------------

  /** The bucket of a slot is detached for walking. */
  function Detach(w: Wheel, slot: nat): Wheel
    requires slot < |w.heads| == |w.chains|
  {
    w.(heads := w.heads[slot := NULL], chains := w.chains[slot := []], walk := w.chains[slot],
       home := Detached(w.home, slot, |w.chains|))
  }

  lemma {:induction false} DetachShaped(w: Wheel, slot: nat)
    requires Shaped(w) && w.walk == [] && slot < |w.heads|
    ensures Shaped(Detach(w, slot)) && w.heads[slot] == First(w.chains[slot])
  {
    hide Homes;
    HomesDetach(w.chains, w.run, w.home, w.free, slot);
  }

  /** Within one turn of the wheel only one tick lands on a slot. */
  lemma {:induction false} OneTurn(a: nat, b: nat, w: nat)
    requires w > 0 && a < b + w && b < a + w && a % w == b % w
    ensures a == b
  {
    assert a == w * (a / w) + a % w && b == w * (b / w) + b % w;
    assert a - b == w * (a / w - b / w);
    if a / w > b / w {
      MulMonotone(w, 1, a / w - b / w);
    } else if a / w < b / w {
      MulMonotone(w, 1, b / w - a / w);
    }
  }

  /** When the tick begins, the detached nodes are exactly those due now. */
  lemma {:induction false} DetachTracks(w: Wheel, m: Monitor)
    requires Shaped(w) && Tracks(w, m) && w.walk == [] && !m.walking
    requires Shaped(Detach(w, (m.now + 1) % |w.heads|))
    requires forall i :: 0 <= i < |w.nodes| ==> w.home[i] != |w.heads|
    ensures Allowed(m, TickBegin) && Tracks(Detach(w, (m.now + 1) % |w.heads|), Next(m, TickBegin))
  {
    hide Buckets, Forward, Homes, ArmedOk;
    var slot := (m.now + 1) % |w.heads|;
    var d := Detach(w, slot);
    forall i | 0 <= i < |w.nodes|
      ensures DueAt(m.now + 1, |w.heads|, d.home[i], d.due[i], d.nodes[i].cb)
    {
      assert DueAt(m.now, |w.heads|, w.home[i], w.due[i], w.nodes[i].cb);
      if w.home[i] == slot {
        OneTurn(w.due[i], m.now + 1, |w.heads|);
      }
    }
  }

  lemma {:induction false} NobodyWalks(w: Wheel)
    requires Shaped(w) && w.walk == []
    ensures forall i :: 0 <= i < |w.nodes| ==> w.home[i] != |w.heads|
  {
    forall i | 0 <= i < |w.nodes|
      ensures w.home[i] != |w.heads|
    {
      assert Home(w.chains, w.walk, w.run, w.home[i], w.free, i);
    }
  }

  /** The first detached node is cut loose and loses its callback, which is about to run. */
  function TakeFirst(w: Wheel): Wheel
    requires w.walk != [] && w.walk[0] < |w.nodes| == |w.home|
  {
    var cur := w.walk[0];
    w.(nodes := w.nodes[cur := w.nodes[cur].(prev := NULL, next := NULL, cb := None)],
       walk := w.walk[1..], run := cur, home := w.home[cur := |w.chains| + 1])
  }

  lemma {:induction false} FirstWalks(w: Wheel)
    requires Shaped(w) && w.walk != []
    ensures w.walk[0] < |w.nodes| && w.nodes[w.walk[0]].next == First(w.walk[1..]) && w.home[w.walk[0]] == |w.heads|
    ensures Forward(w.nodes, w.walk[1..])
  {
    var tail := w.walk[1..];
    assert forall k :: 0 <= k < |tail| ==> tail[k] == w.walk[k + 1];
  }

  lemma {:induction false} TakeFirstShaped(w: Wheel)
    requires Shaped(w) && w.walk != [] && w.run == NULL
    ensures w.walk[0] < |w.nodes| && w.walk[0] !in w.free && w.nodes[w.walk[0]].next == First(w.walk[1..])
    ensures w.home[w.walk[0]] == |w.heads| && Shaped(TakeFirst(w))
  {
    hide Homes, Buckets, Forward;
    var cur := w.walk[0];
    HomesRun(w.chains, w.walk, w.home, w.free);
    FirstWalks(w);
    var t := TakeFirst(w);
    NotOnChains(t.chains, t.walk, t.run, t.home, t.free, cur);
    UnlinkedNode(t, w.nodes, w.chains, w.heads, cur, t.nodes[cur]);
  }

  /** An armed node whose turn comes fires now. */
  lemma {:induction false} TakeFirstTracks(w: Wheel, m: Monitor)
    requires Shaped(w) && Tracks(w, m) && m.walking && w.walk != [] && w.walk[0] < |w.nodes|
    requires w.home[w.walk[0]] == |w.heads| && Shaped(TakeFirst(w))
    ensures var cur := w.walk[0];
            if w.nodes[cur].cb.None? then Tracks(TakeFirst(w), m)
            else
              var e := Fired(Ticket(cur, w.epoch[cur]), w.nodes[cur].cb.value);
              Allowed(m, e) && Tracks(TakeFirst(w), Next(m, e))
  {
    hide Buckets, Forward, Homes;
    var cur := w.walk[0];
    var r := TakeFirst(w);
    assert DueAt(m.now, |w.heads|, w.home[cur], w.due[cur], w.nodes[cur].cb);
    forall i | 0 <= i < |w.nodes|
      ensures DueAt(m.now, |w.heads|, r.home[i], r.due[i], r.nodes[i].cb)
    {
      assert DueAt(m.now, |w.heads|, w.home[i], w.due[i], w.nodes[i].cb);
    }
    assert w.epoch[cur := w.epoch[cur]] == w.epoch;
    ArmedDrop(m.armed, w.nodes, w.due, w.epoch, r.nodes, cur, w.epoch[cur]);
  }

  /** The node whose callback ran, or that had been cancelled, goes back to the free stack. */
  function Finish(w: Wheel): Wheel
    requires 0 <= w.run < |w.nodes| == |w.home| == |w.epoch|
  {
    Release(w, w.run).(run := NULL)
  }

  lemma {:induction false} FinishShaped(w: Wheel)
    requires Shaped(w) && w.run != NULL
    ensures 0 <= w.run < |w.nodes| && w.run !in w.free && Shaped(Finish(w))
    ensures !(0 <= w.home[w.run] <= |w.heads|)
  {
    assert 0 <= w.run < |w.home|;
    HomesFreeRun(w.chains, w.walk, w.run, w.home, w.free);
    NotOnChains(w.chains, w.walk, w.run, w.home, w.free, w.run);
    UnlinkedNode(w, w.nodes, w.chains, w.heads, w.run, Recycled(w.nodes[w.run]));
    hide Homes, Buckets, Forward;
    NextGenIsNextEpoch(w.epoch[w.run]);
  }

  lemma {:induction false} FinishTracks(w: Wheel, m: Monitor)
    requires Shaped(w) && Tracks(w, m) && 0 <= w.run < |w.nodes| && Shaped(Finish(w))
    requires !(0 <= w.home[w.run] <= |w.heads|)
    ensures Tracks(Finish(w), m)
  {
    hide Buckets, Forward, Homes;
    var idx := w.run;
    var r := Finish(w);
    assert DueAt(m.now, |w.heads|, w.home[idx], w.due[idx], w.nodes[idx].cb);
    forall i | 0 <= i < |w.nodes|
      ensures DueAt(m.now, |w.heads|, r.home[i], r.due[i], r.nodes[i].cb)
    {
      assert DueAt(m.now, |w.heads|, w.home[i], w.due[i], w.nodes[i].cb);
    }
    ArmedDrop(m.armed, w.nodes, w.due, w.epoch, r.nodes, idx, w.epoch[idx] + 1);
    ReleaseUsed(m, w.epoch, w.free, idx);
  }

  /** When the walk is over no pending timer is due. */
  lemma {:induction false} WalkOver(w: Wheel, m: Monitor)
    requires Shaped(w) && Tracks(w, m) && w.walk == [] && m.walking
    ensures Allowed(m, TickEnd(m.fired)) && Tracks(w, Next(m, TickEnd(m.fired)))
  {
    NobodyWalks(w);
    hide Buckets, Forward, Homes;
    forall t | t in m.armed
      ensures m.armed[t].due != m.now
    {
      assert DueAt(m.now, |w.heads|, w.home[t.idx], w.due[t.idx], w.nodes[t.idx].cb);
      assert t == Ticket(t.idx, w.epoch[t.idx]);
    }
  }
}
