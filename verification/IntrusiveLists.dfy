/** Circular doubly linked lists with a sentinel, threaded through hooks that live in a
    shared arena. An address is an index into the arena; nodes and sentinels alike own
    one hook, and a node belongs to at most one list. */
module IntrusiveLists {
  import opened FreeStack

  const NULL: int := -1

  datatype Hook = Hook(prev: int, next: int)

  type Lists = map<nat, seq<nat>>

  function InsertAt(ns: seq<nat>, k: nat, n: nat): seq<nat>
    requires k <= |ns|
  {
    ns[..k] + [n] + ns[k..]
  }

  function RemoveAt(ns: seq<nat>, k: nat): seq<nat>
    requires k < |ns|
  {
    ns[..k] + ns[k + 1..]
  }

  ghost predicate NoRepeat(s: seq<nat>) {
    forall i, k :: 0 <= i < k < |s| ==> s[i] != s[k]
  }

  lemma {:induction false} InsertNoRepeat(s: seq<nat>, k: nat, n: nat)
    requires NoRepeat(s) && k <= |s| && n !in s
    ensures NoRepeat(InsertAt(s, k, n))
  {
    var t := InsertAt(s, k, n);
    forall a, b | 0 <= a < b < |t|
      ensures t[a] != t[b]
    {
      assert a != k ==> t[a] == s[if a < k then a else a - 1];
      assert b != k ==> t[b] == s[if b < k then b else b - 1];
    }
  }

  lemma {:induction false} RemoveNoRepeat(s: seq<nat>, k: nat)
    requires NoRepeat(s) && k < |s|
    ensures NoRepeat(RemoveAt(s, k)) && s[k] !in RemoveAt(s, k)
  {
    var t := RemoveAt(s, k);
    forall a | 0 <= a < |t|
      ensures t[a] == s[if a < k then a else a + 1]
    {
    }
  }

  /** The k-th node, or the sentinel just past either end. */
  function Cell(s: nat, ns: seq<nat>, k: int): nat
    requires -1 <= k <= |ns|
  {
    if 0 <= k < |ns| then ns[k] else s
  }

  /** Cells k and k + 1 point at each other. */
  ghost predicate Edge(h: seq<Hook>, s: nat, ns: seq<nat>, k: int)
    requires -1 <= k < |ns|
  {
    && Cell(s, ns, k) < |h| && Cell(s, ns, k + 1) < |h|
    && h[Cell(s, ns, k)].next == Cell(s, ns, k + 1)
    && h[Cell(s, ns, k + 1)].prev == Cell(s, ns, k)
  }

  /** The hooks of sentinel s and of the nodes ns form one closed chain in that order. */
  ghost predicate Ring(h: seq<Hook>, s: nat, ns: seq<nat>) {
    forall k :: -1 <= k < |ns| ==> Edge(h, s, ns, k)
  }

  /** No node is a sentinel, and no node occurs twice. */
  ghost predicate Apart(L: Lists) {
    && (forall s, t, i :: s in L && t in L && 0 <= i < |L[t]| ==> L[t][i] != s)
    && (forall s, t, i, j :: s in L && t in L && 0 <= i < |L[s]| && 0 <= j < |L[t]| && L[s][i] == L[t][j]
                             ==> s == t && i == j)
  }

  /** Address a is neither a sentinel nor linked. */
  ghost predicate Loose(L: Lists, a: nat) {
    a !in L && forall s :: s in L ==> a !in L[s]
  }

  ghost predicate Rings(h: seq<Hook>, L: Lists) {
    && (forall s :: s in L ==> Ring(h, s, L[s]))
    && Apart(L)
    && (forall a :: 0 <= a < |h| && Loose(L, a) ==> h[a] == Hook(NULL, NULL))
  }

  /** The four writes that put node in front of pos. */
  function LinkBefore(h: seq<Hook>, pos: nat, node: nat): (r: seq<Hook>)
    requires pos < |h| && node < |h| && 0 <= h[pos].prev < |h|
  {
    var h1 := h[node := Hook(h[pos].prev, pos)];
    var h2 := h1[h[pos].prev := h1[h[pos].prev].(next := node)];
    h2[pos := h2[pos].(prev := node)]
  }

  /** The four writes that take node out. */
  function Unlink(h: seq<Hook>, node: nat): (r: seq<Hook>)
    requires node < |h| && 0 <= h[node].prev < |h| && 0 <= h[node].next < |h|
  {
    var h1 := h[h[node].prev := h[h[node].prev].(next := h[node].next)];
    var h2 := h1[h[node].next := h1[h[node].next].(prev := h[node].prev)];
    h2[node := Hook(NULL, NULL)]
  }

  ghost predicate Distinct(s: nat, ns: seq<nat>) {
    && (forall i :: 0 <= i < |ns| ==> ns[i] != s)
    && (forall i, j :: 0 <= i < j < |ns| ==> ns[i] != ns[j])
  }

  lemma {:induction false} LinkEdge(h: seq<Hook>, s: nat, ns: seq<nat>, k: nat, node: nat, i: int)
    requires Ring(h, s, ns) && Distinct(s, ns) && k <= |ns| && -1 <= i <= |ns|
    requires node < |h| && node != s && node !in ns
    requires Cell(s, ns, k) < |h| && h[Cell(s, ns, k)].prev == Cell(s, ns, k - 1) && Cell(s, ns, k - 1) < |h|
    ensures Edge(LinkBefore(h, Cell(s, ns, k), node), s, InsertAt(ns, k, node), i)
  {
    var ms := InsertAt(ns, k, node);
    if i < k - 1 {
      assert Edge(h, s, ns, i);
      assert Cell(s, ms, i) == Cell(s, ns, i) && Cell(s, ms, i + 1) == Cell(s, ns, i + 1);
    } else if i > k {
      assert Edge(h, s, ns, i - 1);
      assert Cell(s, ms, i) == Cell(s, ns, i - 1) && Cell(s, ms, i + 1) == Cell(s, ns, i);
    } else {
      assert Edge(h, s, ns, k - 1);
      assert ms[k] == node;
    }
  }

  lemma {:induction false} LinkRing(h: seq<Hook>, s: nat, ns: seq<nat>, k: nat, node: nat)
    requires Ring(h, s, ns) && Distinct(s, ns) && k <= |ns|
    requires node < |h| && node != s && node !in ns
    ensures Cell(s, ns, k) < |h| && 0 <= h[Cell(s, ns, k)].prev < |h|
    ensures Ring(LinkBefore(h, Cell(s, ns, k), node), s, InsertAt(ns, k, node))
  {
    assert Edge(h, s, ns, k - 1);
    forall i | -1 <= i < |InsertAt(ns, k, node)|
      ensures Edge(LinkBefore(h, Cell(s, ns, k), node), s, InsertAt(ns, k, node), i)
    {
      LinkEdge(h, s, ns, k, node, i);
    }
  }

  lemma {:induction false} UnlinkEdge(h: seq<Hook>, s: nat, ns: seq<nat>, k: nat, i: int)
    requires Ring(h, s, ns) && Distinct(s, ns) && k < |ns| && -1 <= i < |ns| - 1
    requires ns[k] < |h| && h[ns[k]].prev == Cell(s, ns, k - 1) && h[ns[k]].next == Cell(s, ns, k + 1)
    requires Cell(s, ns, k - 1) < |h| && Cell(s, ns, k + 1) < |h|
    ensures Edge(Unlink(h, ns[k]), s, RemoveAt(ns, k), i)
  {
    var ms := RemoveAt(ns, k);
    if i < k - 1 {
      assert Edge(h, s, ns, i);
      assert Cell(s, ms, i) == Cell(s, ns, i) && Cell(s, ms, i + 1) == Cell(s, ns, i + 1);
    } else if i >= k {
      assert Edge(h, s, ns, i + 1);
      assert Cell(s, ms, i) == Cell(s, ns, i + 1) && Cell(s, ms, i + 1) == Cell(s, ns, i + 2);
    } else {
      assert Cell(s, ms, i) == Cell(s, ns, k - 1) && Cell(s, ms, i + 1) == Cell(s, ns, k + 1);
    }
  }

  lemma {:induction false} UnlinkRing(h: seq<Hook>, s: nat, ns: seq<nat>, k: nat)
    requires Ring(h, s, ns) && Distinct(s, ns) && k < |ns|
    ensures ns[k] < |h| && 0 <= h[ns[k]].prev < |h| && 0 <= h[ns[k]].next < |h|
    ensures Ring(Unlink(h, ns[k]), s, RemoveAt(ns, k))
  {
    assert Edge(h, s, ns, k - 1) && Edge(h, s, ns, k);
    forall i | -1 <= i < |RemoveAt(ns, k)|
      ensures Edge(Unlink(h, ns[k]), s, RemoveAt(ns, k), i)
    {
      UnlinkEdge(h, s, ns, k, i);
    }
  }

  /** A ring does not notice writes to hooks it does not own. */
  lemma {:induction false} RingUntouched(h: seq<Hook>, r: seq<Hook>, s: nat, ns: seq<nat>)
    requires Ring(h, s, ns) && |r| == |h|
    requires forall a :: 0 <= a < |h| && h[a] != r[a] ==> a != s && a !in ns
    ensures Ring(r, s, ns)
  {
    forall i | -1 <= i < |ns|
      ensures Edge(r, s, ns, i)
    {
      assert Edge(h, s, ns, i);
    }
  }

  lemma {:induction false} ApartGivesDistinct(L: Lists, s: nat)
    requires Apart(L) && s in L
    ensures Distinct(s, L[s])
  {
  }

  lemma {:induction false} ApartAfterLink(L: Lists, s: nat, k: nat, node: nat)
    requires Apart(L) && s in L && k <= |L[s]| && Loose(L, node)
    ensures Apart(L[s := InsertAt(L[s], k, node)])
  {
    var M := L[s := InsertAt(L[s], k, node)];
    forall t, i | t in M && 0 <= i < |M[t]|
      ensures M[t][i] == node || (M[t][i] in L[t] && M[t][i] !in M)
    {
      assert t == s && i != k ==> M[t][i] == L[t][if i < k then i else i - 1];
    }
    forall t, u, i, j | t in M && u in M && 0 <= i < |M[t]| && 0 <= j < |M[u]| && M[t][i] == M[u][j]
      ensures t == u && i == j
    {
      var i' := if t == s && i > k then i - 1 else i;
      var j' := if u == s && j > k then j - 1 else j;
      if M[t][i] != node {
        assert M[t][i] == L[t][i'] && M[u][j] == L[u][j'];
      }
    }
  }

  lemma {:induction false} ApartAfterUnlink(L: Lists, s: nat, k: nat)
    requires Apart(L) && s in L && k < |L[s]|
    ensures Apart(L[s := RemoveAt(L[s], k)])
    ensures Loose(L[s := RemoveAt(L[s], k)], L[s][k])
  {
    var M := L[s := RemoveAt(L[s], k)];
    forall t, i | t in M && 0 <= i < |M[t]|
      ensures M[t][i] == L[t][if t == s && i >= k then i + 1 else i]
    {
    }
    forall t, u, i, j | t in M && u in M && 0 <= i < |M[t]| && 0 <= j < |M[u]| && M[t][i] == M[u][j]
      ensures t == u && i == j
    {
      var i' := if t == s && i >= k then i + 1 else i;
      var j' := if u == s && j >= k then j + 1 else j;
      assert M[t][i] == L[t][i'] && M[u][j] == L[u][j'];
    }
  }

  lemma {:induction false} InsertMembers(ns: seq<nat>, k: nat, n: nat)
    requires k <= |ns|
    ensures forall x :: x in InsertAt(ns, k, n) <==> x == n || x in ns
  {
    assert ns == ns[..k] + ns[k..];
  }

  lemma {:induction false} RemoveMembers(ns: seq<nat>, k: nat)
    requires k < |ns|
    ensures forall x :: x in ns <==> x == ns[k] || x in RemoveAt(ns, k)
  {
    assert ns == ns[..k] + [ns[k]] + ns[k + 1..];
  }

  lemma {:induction false} LooseBeforeLink(L: Lists, s: nat, k: nat, node: nat, a: nat)
    requires s in L && k <= |L[s]|
    ensures Loose(L[s := InsertAt(L[s], k, node)], a) <==> Loose(L, a) && a != node
  {
    InsertMembers(L[s], k, node);
    var M := L[s := InsertAt(L[s], k, node)];
    assert M[s] == InsertAt(L[s], k, node);
    assert forall t :: t in L && t != s ==> M[t] == L[t];
    assert a in M[s] <==> a == node || a in L[s];
  }

  lemma {:induction false} LooseBeforeUnlink(L: Lists, s: nat, k: nat, a: nat)
    requires Apart(L) && s in L && k < |L[s]|
    ensures Loose(L[s := RemoveAt(L[s], k)], a) <==> Loose(L, a) || a == L[s][k]
  {
    RemoveMembers(L[s], k);
    ApartGivesDistinct(L, s);
    var M := L[s := RemoveAt(L[s], k)];
    assert M[s] == RemoveAt(L[s], k);
    assert forall t :: t in L && t != s ==> M[t] == L[t];
    assert a in L[s] <==> a == L[s][k] || a in M[s];
    if a == L[s][k] {
      assert forall t :: t in L && t != s ==> a !in L[t];
      assert Loose(M, a);
    }
  }

  /** Putting a loose node in front of cell k of one list leaves every other list as it was. */
  lemma {:induction false} LinkRings(h: seq<Hook>, L: Lists, s: nat, k: nat, node: nat)
    requires Rings(h, L) && s in L && k <= |L[s]| && node < |h| && Loose(L, node)
    ensures Cell(s, L[s], k) < |h| && 0 <= h[Cell(s, L[s], k)].prev < |h|
    ensures Rings(LinkBefore(h, Cell(s, L[s], k), node), L[s := InsertAt(L[s], k, node)])
  {
    ApartGivesDistinct(L, s);
    LinkRing(h, s, L[s], k, node);
    ApartAfterLink(L, s, k, node);
    var r, M := LinkBefore(h, Cell(s, L[s], k), node), L[s := InsertAt(L[s], k, node)];
    var pos, prev := Cell(s, L[s], k), Cell(s, L[s], k - 1);
    assert Edge(h, s, L[s], k - 1);
    forall t | t in M
      ensures Ring(r, t, M[t])
    {
      if t != s {
        RingUntouched(h, r, t, L[t]);
      }
    }
    forall a | 0 <= a < |r| && Loose(M, a)
      ensures r[a] == Hook(NULL, NULL)
    {
      LooseBeforeLink(L, s, k, node, a);
    }
  }

  /** Taking a node out of its list leaves it loose and every other list as it was. */
  lemma {:induction false} UnlinkRings(h: seq<Hook>, L: Lists, s: nat, k: nat)
    requires Rings(h, L) && s in L && k < |L[s]|
    ensures L[s][k] < |h| && 0 <= h[L[s][k]].prev < |h| && 0 <= h[L[s][k]].next < |h|
    ensures Rings(Unlink(h, L[s][k]), L[s := RemoveAt(L[s], k)])
  {
    ApartGivesDistinct(L, s);
    UnlinkRing(h, s, L[s], k);
    ApartAfterUnlink(L, s, k);
    var r, M := Unlink(h, L[s][k]), L[s := RemoveAt(L[s], k)];
    assert Edge(h, s, L[s], k - 1) && Edge(h, s, L[s], k);
    forall t | t in M
      ensures Ring(r, t, M[t])
    {
      if t != s {
        RingUntouched(h, r, t, L[t]);
      }
    }
    forall a | 0 <= a < |r| && Loose(M, a) && a != L[s][k]
      ensures r[a] == Hook(NULL, NULL)
    {
      LooseBeforeUnlink(L, s, k, a);
    }
  }

  /** A family of lists over one arena. lists maps each sentinel to its nodes in order. */
  class ListArena {
    const hooks: array<Hook>
    /** Length of the list whose sentinel sits at an address. */
    const sizes: array<nat>
    ghost var lists: Lists

    ghost predicate Valid()
      reads this, hooks, sizes
    {
      && hooks.Length == sizes.Length
      && Rings(hooks[..], lists)
      && (forall s :: s in lists ==> s < sizes.Length && sizes[s] == |lists[s]|)
    }

    /** All hooks null, except the sentinels in [first, n), which start as empty lists. */
    constructor (n: nat, first: nat)
      requires first <= n
      ensures Valid() && fresh(hooks) && fresh(sizes)
      ensures hooks.Length == n
      ensures lists == map s | s in Below(n) && first <= s :: []
    {
      hooks := new Hook[n](i => if i < first then Hook(NULL, NULL) else Hook(i, i));
      sizes := new nat[n](_ => 0);
      lists := map s | s in Below(n) && first <= s :: [];
      new;
      forall s | s in lists
        ensures Ring(hooks[..], s, [])
      {
        assert Edge(hooks[..], s, [], -1);
      }
    }

    predicate IsEmpty(s: nat)
      requires Valid() && s in lists
      reads this, hooks, sizes
      ensures IsEmpty(s) <==> lists[s] == []
    {
      sizes[s] == 0
    }

    function Front(s: nat): (n: nat)
      requires Valid() && s in lists && lists[s] != []
      reads this, hooks, sizes
      ensures n == lists[s][0]
    {
      assert Edge(hooks[..], s, lists[s], -1);
      hooks[s].next
    }

    /** Cell after the i-th node: the iterator's step, ending on the sentinel. */
    function Next(n: nat, ghost s: nat, ghost i: nat): (r: nat)
      requires Valid() && s in lists && i < |lists[s]| && lists[s][i] == n
      reads this, hooks, sizes
      ensures r == Cell(s, lists[s], i + 1)
    {
      assert Edge(hooks[..], s, lists[s], i);
      hooks[n].next
    }

    /** Links node in front of pos, which is cell k of the list at s. */
    method LinkBeforeCell(s: nat, pos: nat, node: nat, ghost k: nat)
      requires Valid() && s in lists && k <= |lists[s]| && pos == Cell(s, lists[s], k)
      requires node < hooks.Length && Loose(lists, node)
      modifies this, hooks, sizes
      ensures Valid() && lists == old(lists)[s := InsertAt(old(lists)[s], k, node)]
    {
      LinkRings(hooks[..], lists, s, k, node);
      hooks[node] := Hook(hooks[pos].prev, pos);
      var prev := hooks[node].prev;
      hooks[prev] := hooks[prev].(next := node);
      hooks[pos] := hooks[pos].(prev := node);
      sizes[s] := sizes[s] + 1;
      lists := lists[s := InsertAt(lists[s], k, node)];
      assert hooks[..] == LinkBefore(old(hooks[..]), pos, node);
    }

    method PushBack(s: nat, node: nat)
      requires Valid() && s in lists && node < hooks.Length && Loose(lists, node)
      modifies this, hooks, sizes
      ensures Valid() && lists == old(lists)[s := old(lists)[s] + [node]]
    {
      assert InsertAt(lists[s], |lists[s]|, node) == lists[s] + [node];
      LinkBeforeCell(s, s, node, |lists[s]|);
    }

    method InsertBefore(s: nat, pos: nat, node: nat, ghost k: nat)
      requires Valid() && s in lists && k < |lists[s]| && pos == lists[s][k]
      requires node < hooks.Length && Loose(lists, node)
      modifies this, hooks, sizes
      ensures Valid() && lists == old(lists)[s := InsertAt(old(lists)[s], k, node)]
    {
      LinkBeforeCell(s, pos, node, k);
    }

    /** Removes the k-th node of the list at s, given only by its address. */
    method Erase(s: nat, node: nat, ghost k: nat)
      requires Valid() && s in lists && k < |lists[s]| && node == lists[s][k]
      modifies this, hooks, sizes
      ensures Valid() && lists == old(lists)[s := RemoveAt(old(lists)[s], k)]
      ensures Loose(lists, node)
    {
      UnlinkRings(hooks[..], lists, s, k);
      ApartAfterUnlink(lists, s, k);
      var prev, next := hooks[node].prev, hooks[node].next;
      hooks[prev] := hooks[prev].(next := next);
      hooks[next] := hooks[next].(prev := prev);
      hooks[node] := Hook(NULL, NULL);
      sizes[s] := sizes[s] - 1;
      lists := lists[s := RemoveAt(lists[s], k)];
      assert hooks[..] == Unlink(old(hooks[..]), node);
    }

    method PopFront(s: nat) returns (node: nat)
      requires Valid() && s in lists && lists[s] != []
      modifies this, hooks, sizes
      ensures Valid() && lists == old(lists)[s := old(lists)[s][1..]]
      ensures node == old(lists)[s][0] && Loose(lists, node)
    {
      node := Front(s);
      assert RemoveAt(lists[s], 0) == lists[s][1..];
      Erase(s, node, 0);
    }
  }
}
