/** How queues and ladders are laid out in one hook arena: order hooks, then level hooks,
    then one queue sentinel per level, then the two ladder sentinels. */
module Wiring {
  import opened Books
  import opened FreeStack
  import opened IntrusiveLists
  import opened BookRep

  function LevelAddr(nO: nat, j: nat): nat { nO + j }

  function QueueAddr(nO: nat, nL: nat, j: nat): nat { nO + nL + j }

  function SideAddr(nO: nat, nL: nat, side: Side): nat {
    nO + nL + nL + (if side.Bid? then 0 else 1)
  }

  /** The ladder list of addresses spells out the given level slots. */
  ghost predicate Spells(nO: nat, list: seq<nat>, ladder: seq<nat>) {
    |list| == |ladder| && forall i :: 0 <= i < |ladder| ==> list[i] == nO + ladder[i]
  }

  ghost predicate Wired(lists: Lists, nO: nat, nL: nat, queue: seq<seq<nat>>, bids: seq<nat>, asks: seq<nat>) {
    && |queue| == nL
    && (forall s :: s in lists <==> nO + nL <= s < nO + nL + nL + 2)
    && (forall j :: 0 <= j < nL ==> lists[QueueAddr(nO, nL, j)] == queue[j])
    && Spells(nO, lists[SideAddr(nO, nL, Bid)], bids)
    && Spells(nO, lists[SideAddr(nO, nL, Ask)], asks)
  }

  lemma {:induction false} WireQueue(lists: Lists, nO: nat, nL: nat, queue: seq<seq<nat>>, bids: seq<nat>, asks: seq<nat>,
                                     j: nat, q: seq<nat>)
    requires Wired(lists, nO, nL, queue, bids, asks) && j < nL
    ensures Wired(lists[QueueAddr(nO, nL, j) := q], nO, nL, queue[j := q], bids, asks)
  {
  }

  lemma {:induction false} WireSide(lists: Lists, nO: nat, nL: nat, queue: seq<seq<nat>>, bids: seq<nat>, asks: seq<nat>,
                                    side: Side, list: seq<nat>, ladder: seq<nat>)
    requires Wired(lists, nO, nL, queue, bids, asks) && Spells(nO, list, ladder)
    ensures Wired(lists[SideAddr(nO, nL, side) := list], nO, nL, queue,
                  if side.Bid? then ladder else bids, if side.Bid? then asks else ladder)
  {
  }

  ghost predicate AllBelow(s: seq<nat>, n: nat) {
    forall i :: 0 <= i < |s| ==> s[i] < n
  }

  lemma {:induction false} BelowInsert(s: seq<nat>, n: nat, k: nat, j: nat)
    requires AllBelow(s, n) && k <= |s| && j < n
    ensures AllBelow(InsertAt(s, k, j), n)
  {
  }

  lemma {:induction false} WiredEmpty(lists: Lists, nO: nat, nL: nat, first: nat, n: nat)
    requires first == nO + nL && n == nO + nL + nL + 2 && lists == map s | s in Below(n) && first <= s :: []
    ensures Wired(lists, nO, nL, seq(nL, _ => []), [], [])
  {
  }

  lemma {:induction false} SpellsInsert(nO: nat, list: seq<nat>, ladder: seq<nat>, k: nat, j: nat)
    requires Spells(nO, list, ladder) && k <= |ladder|
    ensures Spells(nO, InsertAt(list, k, nO + j), InsertAt(ladder, k, j))
  {
  }

  lemma {:induction false} SpellsRemove(nO: nat, list: seq<nat>, ladder: seq<nat>, k: nat)
    requires Spells(nO, list, ladder) && k < |ladder|
    ensures Spells(nO, RemoveAt(list, k), RemoveAt(ladder, k))
  {
  }

  /** Orders live below nO, so a ladder never holds one, and a queue never holds a level. */
  lemma {:induction false} LooseOrder(lists: Lists, nO: nat, nL: nat, queue: seq<seq<nat>>, bids: seq<nat>, asks: seq<nat>, o: nat)
    requires Wired(lists, nO, nL, queue, bids, asks) && o < nO
    requires forall j :: 0 <= j < nL ==> o !in queue[j]
    ensures Loose(lists, o)
  {
    forall s | s in lists
      ensures o !in lists[s]
    {
      if s < nO + nL + nL {
        assert lists[s] == lists[QueueAddr(nO, nL, s - nO - nL)] == queue[s - nO - nL];
      }
    }
  }

  lemma {:induction false} LooseLevel(lists: Lists, nO: nat, nL: nat, queue: seq<seq<nat>>, bids: seq<nat>, asks: seq<nat>, j: nat)
    requires Wired(lists, nO, nL, queue, bids, asks) && j < nL
    requires forall i :: 0 <= i < nL ==> AllBelow(queue[i], nO)
    requires j !in bids && j !in asks
    ensures Loose(lists, LevelAddr(nO, j))
  {
    forall s | s in lists
      ensures LevelAddr(nO, j) !in lists[s]
    {
      if s < nO + nL + nL {
        assert lists[s] == lists[QueueAddr(nO, nL, s - nO - nL)] == queue[s - nO - nL];
      }
    }
  }

  /** What linking level j at cell k of a ladder will do. */
  lemma {:induction false} LevelInsertion(lists: Lists, nO: nat, nL: nat, queue: seq<seq<nat>>, bids: seq<nat>, asks: seq<nat>,
                                          side: Side, j: nat, k: nat)
    requires Wired(lists, nO, nL, queue, bids, asks) && j < nL
    requires forall i :: 0 <= i < nL ==> AllBelow(queue[i], nO)
    requires AllBelow(bids, nL) && AllBelow(asks, nL)
    requires j !in bids && j !in asks && k <= |if side.Bid? then bids else asks|
    ensures Loose(lists, LevelAddr(nO, j))
    ensures var s, ladder := SideAddr(nO, nL, side), if side.Bid? then bids else asks;
            && k <= |lists[s]|
            && Cell(s, lists[s], k) == (if k < |ladder| then LevelAddr(nO, ladder[k]) else s)
            && AllBelow(InsertAt(ladder, k, j), nL)
            && Wired(lists[s := InsertAt(lists[s], k, LevelAddr(nO, j))], nO, nL, queue,
                     if side.Bid? then InsertAt(bids, k, j) else bids, if side.Bid? then asks else InsertAt(asks, k, j))
  {
    var s, ladder := SideAddr(nO, nL, side), if side.Bid? then bids else asks;
    LooseLevel(lists, nO, nL, queue, bids, asks, j);
    SpellsInsert(nO, lists[s], ladder, k, j);
    BelowInsert(ladder, nL, k, j);
    WireSide(lists, nO, nL, queue, bids, asks, side, InsertAt(lists[s], k, LevelAddr(nO, j)), InsertAt(ladder, k, j));
  }

  /** The queues and ladders of a book: queue[j] is the FIFO of level slot j, bids and asks
      the level slots of each side in ladder order. */
  class Chains {
    const nO: nat
    const nL: nat
    const arena: ListArena
    ghost var queue: seq<seq<nat>>
    ghost var bids: seq<nat>
    ghost var asks: seq<nat>

    ghost const Repr: set<object>

    ghost predicate Owns() {
      Repr == {this, arena, arena.hooks, arena.sizes}
    }

    ghost predicate Valid()
      reads Repr
    {
      && Owns() && arena.Valid() && arena.hooks.Length == nO + nL + nL + 2 && |queue| == nL
      && Wired(arena.lists, nO, nL, queue, bids, asks)
      && (forall j :: 0 <= j < nL ==> AllBelow(queue[j], nO))
      && AllBelow(bids, nL) && AllBelow(asks, nL)
    }

    ghost function Ladder(side: Side): seq<nat>
      reads this
    {
      if side.Bid? then bids else asks
    }

    constructor (orders: nat, levels: nat)
      ensures Valid() && fresh(Repr)
      ensures nO == orders && nL == levels
      ensures queue == seq(levels, _ => []) && bids == [] && asks == []
    {
      hide ListArena.Valid, Wired;
      nO, nL := orders, levels;
      var a := new ListArena(orders + levels + levels + 2, orders + levels);
      arena := a;
      Repr := {this, a, a.hooks, a.sizes};
      queue := seq(levels, _ => []);
      bids, asks := [], [];
      new;
      WiredEmpty(arena.lists, orders, levels, orders + levels, orders + levels + levels + 2);
    }

    method PushOrder(j: nat, o: nat)
      requires Valid() && j < nL && o < nO
      requires forall i :: 0 <= i < nL ==> o !in queue[i]
      modifies Repr
      ensures Valid() && queue == old(queue)[j := old(queue)[j] + [o]]
      ensures bids == old(bids) && asks == old(asks)
    {
      LooseOrder(arena.lists, nO, nL, queue, bids, asks, o);
      WireQueue(arena.lists, nO, nL, queue, bids, asks, j, queue[j] + [o]);
      arena.PushBack(QueueAddr(nO, nL, j), o);
      queue := queue[j := queue[j] + [o]];
    }

    method EraseOrder(j: nat, o: nat, ghost k: nat)
      requires Valid() && j < nL && k < |queue[j]| && queue[j][k] == o
      modifies Repr
      ensures Valid() && queue == old(queue)[j := RemoveAt(old(queue)[j], k)]
      ensures bids == old(bids) && asks == old(asks)
    {
      WireQueue(arena.lists, nO, nL, queue, bids, asks, j, RemoveAt(queue[j], k));
      arena.Erase(QueueAddr(nO, nL, j), o, k);
      queue := queue[j := RemoveAt(queue[j], k)];
    }

    method EraseLevel(side: Side, j: nat, ghost i: nat)
      requires Valid() && i < |Ladder(side)| && Ladder(side)[i] == j
      modifies Repr
      ensures Valid() && queue == old(queue)
      ensures Ladder(side) == RemoveAt(old(Ladder(side)), i)
      ensures Ladder(Opposite(side)) == old(Ladder(Opposite(side)))
    {
      ghost var list := arena.lists[SideAddr(nO, nL, side)];
      SpellsRemove(nO, list, Ladder(side), i);
      ghost var ladder := RemoveAt(Ladder(side), i);
      WireSide(arena.lists, nO, nL, queue, bids, asks, side, RemoveAt(list, i), ladder);
      arena.Erase(SideAddr(nO, nL, side), LevelAddr(nO, j), i);
      bids, asks := if side.Bid? then ladder else bids, if side.Bid? then asks else ladder;
    }

    /** Links level j at cell k of a ladder, in front of hook pos. */
    method InsertLevel(side: Side, j: nat, pos: nat, ghost k: nat)
      requires Valid() && j < nL && j !in bids && j !in asks
      requires k <= |Ladder(side)|
      requires pos == if k < |Ladder(side)| then LevelAddr(nO, Ladder(side)[k]) else SideAddr(nO, nL, side)
      modifies Repr
      ensures Valid() && queue == old(queue)
      ensures Ladder(side) == InsertAt(old(Ladder(side)), k, j)
      ensures Ladder(Opposite(side)) == old(Ladder(Opposite(side)))
    {
      ghost var ladder := InsertAt(Ladder(side), k, j);
      LevelInsertion(arena.lists, nO, nL, queue, bids, asks, side, j, k);
      arena.LinkBeforeCell(SideAddr(nO, nL, side), pos, LevelAddr(nO, j), k);
      bids, asks := if side.Bid? then ladder else bids, if side.Bid? then asks else ladder;
    }

    predicate LadderEmpty(side: Side)
      requires Valid()
      reads Repr
      ensures LadderEmpty(side) <==> Ladder(side) == []
    {
      arena.IsEmpty(SideAddr(nO, nL, side))
    }

    predicate QueueEmpty(j: nat)
      requires Valid() && j < nL
      reads Repr
      ensures QueueEmpty(j) <==> queue[j] == []
    {
      arena.IsEmpty(QueueAddr(nO, nL, j))
    }

    /** Hook of the first level of a side, or the side's sentinel. */
    function FirstHook(side: Side): (h: nat)
      requires Valid()
      reads Repr
      ensures h == if Ladder(side) != [] then LevelAddr(nO, Ladder(side)[0]) else SideAddr(nO, nL, side)
    {
      var s := SideAddr(nO, nL, side);
      assert Edge(arena.hooks[..], s, arena.lists[s], -1);
      arena.hooks[s].next
    }

    function NextHook(side: Side, j: nat, ghost i: nat): (h: nat)
      requires Valid() && i < |Ladder(side)| && Ladder(side)[i] == j
      reads Repr
      ensures h == if i + 1 < |Ladder(side)| then LevelAddr(nO, Ladder(side)[i + 1]) else SideAddr(nO, nL, side)
    {
      arena.Next(LevelAddr(nO, j), SideAddr(nO, nL, side), i)
    }

    function FirstOrder(j: nat): (o: nat)
      requires Valid() && j < nL && queue[j] != []
      reads Repr
      ensures o == queue[j][0]
    {
      arena.Front(QueueAddr(nO, nL, j))
    }
  }
}
