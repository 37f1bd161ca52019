/** The memory of a book while it is being cleared: levels come off their ladder one by one
    and are emptied before their slot is returned. */
module Draining {
  import opened Machine
  import opened Books
  import opened FreeStack
  import opened IntrusiveLists
  import opened BookRep

  const NONE := -1

  /** Orders in use are exactly the queued ones, and free levels have no queue. */
  ghost predicate QueuesDraining(owner: seq<int>, orderFree: set<nat>, queue: seq<seq<nat>>, levelFree: set<nat>) {
    && (forall p :: 0 <= p < |owner| && p !in orderFree ==> 0 <= owner[p] < |queue| && p in queue[owner[p]])
    && (forall i, n :: 0 <= i < |queue| && 0 <= n < |queue[i]| ==>
          queue[i][n] < |owner| && queue[i][n] !in orderFree && owner[queue[i][n]] == i)
    && (forall i :: 0 <= i < |queue| ==> NoRepeat(queue[i]))
    && (forall i :: 0 <= i < |queue| && i in levelFree ==> queue[i] == [])
  }

  /** A ladder lists the levels in use on its side, except the one being emptied. */
  ghost predicate LadderDraining(levels: seq<LevelKey>, levelFree: set<nat>, side: Side, ladder: seq<nat>, j: int) {
    && (forall i :: 0 <= i < |ladder| ==>
          ladder[i] < |levels| && ladder[i] !in levelFree && levels[ladder[i]].side == side && ladder[i] != j)
    && (forall n :: 0 <= n < |levels| && n !in levelFree && levels[n].side == side && n != j ==> n in ladder)
    && NoRepeat(ladder)
  }

  ghost predicate Drains(v: View, j: int) {
    && v.Sizes()
    && QueuesDraining(v.owner, v.orderFree, v.queue, v.levelFree)
    && LadderDraining(v.levels, v.levelFree, Bid, v.bids, j) && LadderDraining(v.levels, v.levelFree, Ask, v.asks, j)
    && (j != NONE ==> 0 <= j < |v.levels| && j !in v.levelFree)
  }

  lemma {:induction false} DrainStart(v: View)
    requires v.Inv()
    ensures Drains(v, NONE)
  {
  }

  function PopLevel(v: View, side: Side): View
    requires v.Ladder(side) != []
  {
    v.WithLadder(side, RemoveAt(v.Ladder(side), 0))
  }

  lemma {:induction false} PopLadder(levels: seq<LevelKey>, free: set<nat>, side: Side, ladder: seq<nat>)
    requires LadderDraining(levels, free, side, ladder, NONE) && ladder != []
    ensures LadderDraining(levels, free, side, RemoveAt(ladder, 0), ladder[0])
  {
    RemoveNoRepeat(ladder, 0);
    assert RemoveAt(ladder, 0) == ladder[1..];
  }

  lemma {:induction false} PopLevelDrains(v: View, side: Side)
    requires Drains(v, NONE) && v.Ladder(side) != []
    ensures v.Ladder(side)[0] < |v.levels| && Drains(PopLevel(v, side), v.Ladder(side)[0])
  {
    hide QueuesDraining;
    PopLadder(v.levels, v.levelFree, side, v.Ladder(side));
  }

  function PopOrder(v: View, j: nat): View
    requires v.Sizes() && j < |v.levels| && v.queue[j] != [] && v.queue[j][0] < |v.orders|
  {
    v.(queue := v.queue[j := RemoveAt(v.queue[j], 0)], orderFree := v.orderFree + {v.queue[j][0]},
       owner := v.owner[v.queue[j][0] := NULL])
  }

  lemma {:induction false} PopQueue(owner: seq<int>, free: set<nat>, queue: seq<seq<nat>>, levelFree: set<nat>, j: nat)
    requires QueuesDraining(owner, free, queue, levelFree) && j < |queue| && queue[j] != []
    ensures queue[j][0] < |owner| && queue[j][0] !in free
    ensures var o, q := queue[j][0], RemoveAt(queue[j], 0);
            QueuesDraining(owner[o := NULL], free + {o}, queue[j := q], levelFree)
  {
    var o, q := queue[j][0], queue[j][1..];
    assert RemoveAt(queue[j], 0) == q;
    RemoveNoRepeat(queue[j], 0);
    var queue', owner' := queue[j := q], owner[o := NULL];
    forall i, n | 0 <= i < |queue'| && 0 <= n < |queue'[i]|
      ensures queue'[i][n] < |owner| && queue'[i][n] !in free + {o} && owner'[queue'[i][n]] == i
    {
      assert queue'[i][n] == queue[i][if i == j then n + 1 else n];
    }
    forall p | 0 <= p < |owner| && p !in free + {o}
      ensures 0 <= owner'[p] < |queue| && p in queue'[owner'[p]]
    {
      assert p in queue[owner[p]];
    }
  }

  lemma {:induction false} PopOrderDrains(v: View, j: nat)
    requires Drains(v, j) && v.queue[j] != []
    ensures v.queue[j][0] < |v.orders| && v.queue[j][0] !in v.orderFree && Drains(PopOrder(v, j), j)
  {
    hide LadderDraining;
    PopQueue(v.owner, v.orderFree, v.queue, v.levelFree, j);
  }

  lemma {:induction false} FreeLevelDrains(v: View, j: nat)
    requires Drains(v, j) && v.queue[j] == []
    ensures Drains(v.(levelFree := v.levelFree + {j}), NONE)
  {
  }

  lemma {:induction false} Drained(v: View)
    requires Drains(v, NONE) && v.bids == v.asks == []
    requires v.levelFree <= Below(|v.levels|) && v.orderFree <= Below(|v.orders|)
    ensures v.levelFree == Below(|v.levels|) && v.orderFree == Below(|v.orders|)
    ensures v.queue == seq(|v.levels|, _ => [])
  {
    forall n | 0 <= n < |v.levels|
      ensures n in v.levelFree && v.queue[n] == []
    {
      assert v.levels[n].side == Bid || v.levels[n].side == Ask;
    }
    forall o | 0 <= o < |v.orders|
      ensures o in v.orderFree
    {
    }
  }
}
