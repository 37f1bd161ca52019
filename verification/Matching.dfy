/** What the matching engine does to a book, and what every run of it keeps. */
module Matching {
  import opened Machine
  import opened Books
  import opened Ladders

  datatype MatchResult = MatchResult(fills: seq<Fill>, remaining: nat, rested: bool)

  /** The best resting price on a ladder is within the taker's limit. */
  predicate StillCrosses(side: Side, limit: int, opposite: seq<Level>) {
    opposite != [] && Crosses(side, limit, opposite[0].price)
  }

  /** Submitting a limit order: sweep the other side, then rest the remainder unless it would
      cross. accept says whether the book has room for one more resting order. */
  function Submit(b: Book, id: nat, side: Side, price: int, qty: nat, room: nat, accept: bool): (MatchResult, Book) {
    if qty == 0 then (MatchResult([], 0, false), b)
    else if id in BookIds(b) then (MatchResult([], qty, false), b)
    else
      var s := Sweep(b.Ladder(Opposite(side)), id, side, price, qty, room);
      var swept := b.WithLadder(Opposite(side), s.left);
      if s.remaining > 0 && !StillCrosses(side, price, s.left) && accept then
        (MatchResult(s.fills, s.remaining, true),
         swept.WithLadder(side, Rest(side, swept.Ladder(side), price, Order(id, s.remaining))))
      else
        (MatchResult(s.fills, s.remaining, false), swept)
  }

  /** Modify is cancel then submit under a new id. */
  function Modify(b: Book, oldId: nat, side: Side, price: int, qty: nat, newId: nat, room: nat, accept: bool)
    : (MatchResult, Book)
  {
    if oldId !in BookIds(b) then (MatchResult([], 0, false), b)
    else Submit(CancelBook(b, oldId), newId, side, price, qty, room, accept)
  }

  // ---------------------------------------------------------------------------
  // One submission
  // ---------------------------------------------------------------------------

  lemma {:induction false} FlattenPositive(side: Side, levels: seq<Level>)
    requires GoodLadder(side, levels)
    ensures forall i :: 0 <= i < |Flatten(levels)| ==> Flatten(levels)[i].qty > 0
  {
    if levels != [] {
      GoodTail(side, levels);
      FlattenPositive(side, levels[1..]);
      assert forall k :: 0 <= k < |levels[0].orders| ==> GoodOrder(levels[0].orders[k]);
    }
  }

  /** The fills of an accepted submission are exactly price-time matching over the flattened
      other side; a side that is not rested on is left alone. */
  lemma {:induction false} SubmitIsPriceTime(b: Book, id: nat, side: Side, price: int, qty: nat, room: nat, accept: bool)
    requires WellFormed(b) && qty > 0 && id !in BookIds(b)
    ensures var (r, b') := Submit(b, id, side, price, qty, room, accept);
            && PriceTime(Flatten(b.Ladder(Opposite(side))), id, side, price, qty, room,
                         Outcome(r.fills, Flatten(b'.Ladder(Opposite(side))), r.remaining))
            && b'.Ladder(side) ==
               (if r.rested then Rest(side, b.Ladder(side), price, Order(id, r.remaining)) else b.Ladder(side))
  {
    var opp := b.Ladder(Opposite(side));
    SweepIsGreedy(opp, id, side, price, qty, room);
    FlattenPositive(Opposite(side), opp);
    GreedyIsPriceTime(Flatten(opp), id, side, price, qty, room);
  }

  /** A remainder that does not rest has one of three causes. */
  lemma {:induction false} UnrestedRemainder(b: Book, id: nat, side: Side, price: int, qty: nat, room: nat, accept: bool)
    requires WellFormed(b)
    ensures var (r, b') := Submit(b, id, side, price, qty, room, accept);
            r.remaining > 0 && !r.rested <==>
            qty > 0 && (id in BookIds(b) ||
                        (r.remaining > 0 && |r.fills| == room && StillCrosses(side, price, b'.Ladder(Opposite(side)))) ||
                        (r.remaining > 0 && !StillCrosses(side, price, b'.Ladder(Opposite(side))) && !accept))
  {
    if qty > 0 && id !in BookIds(b) {
      SweepStops(b.Ladder(Opposite(side)), id, side, price, qty, room);
    }
  }

  lemma {:induction false} SweepStops(levels: seq<Level>, taker: nat, side: Side, limit: int, qty: nat, room: nat)
    requires GoodLadder(Opposite(side), levels)
    ensures var s := Sweep(levels, taker, side, limit, qty, room);
            s.remaining > 0 && StillCrosses(side, limit, s.left) ==> |s.fills| == room
    decreases room
  {
    if levels == [] || qty == 0 || room == 0 || !Crosses(side, limit, levels[0].price) {
      return;
    }
    assert GoodLevel(levels[0]);
    var f := Min(qty, levels[0].orders[0].qty);
    FillFrontGood(Opposite(side), levels, f);
    SweepStops(FillFront(levels, f), taker, side, limit, qty - f, room - 1);
  }

  // ---------------------------------------------------------------------------
  // What every operation keeps
  // ---------------------------------------------------------------------------

  lemma {:induction false} SweepRemaining(levels: seq<Level>, taker: nat, side: Side, limit: int, qty: nat, room: nat)
    requires GoodLadder(Opposite(side), levels)
    ensures Sweep(levels, taker, side, limit, qty, room).remaining <= qty
  {
    SweepIsGreedy(levels, taker, side, limit, qty, room);
    FlattenPositive(Opposite(side), levels);
    GreedyIsPriceTime(Flatten(levels), taker, side, limit, qty, room);
  }

  lemma {:induction false} UniqueSmaller(a: multiset<nat>, b: multiset<nat>)
    requires Unique(b) && a <= b
    ensures Unique(a)
  {
    forall x
      ensures a[x] <= 1
    {
      assert a[x] <= b[x];
    }
  }

  lemma {:induction false} UniqueMore(a: multiset<nat>, id: nat)
    requires Unique(a) && id !in a
    ensures Unique(a + multiset{id})
  {
    forall x
      ensures (a + multiset{id})[x] <= 1
    {
      assert (a + multiset{id})[x] == a[x] + (if x == id then 1 else 0);
    }
  }

  lemma {:induction false} SweptWellFormed(b: Book, id: nat, side: Side, price: int, qty: nat, room: nat)
    requires WellFormed(b)
    ensures var s := Sweep(b.Ladder(Opposite(side)), id, side, price, qty, room);
            WellFormed(b.WithLadder(Opposite(side), s.left)) &&
            BookIds(b.WithLadder(Opposite(side), s.left)) <= BookIds(b)
  {
    var opp := b.Ladder(Opposite(side));
    SweepIsGreedy(opp, id, side, price, qty, room);
    SweepIds(opp, id, side, price, qty, room);
    var b' := b.WithLadder(Opposite(side), Sweep(opp, id, side, price, qty, room).left);
    assert BookIds(b') <= BookIds(b);
    UniqueSmaller(BookIds(b'), BookIds(b));
  }

  lemma {:induction false} RestWellFormed(b: Book, side: Side, price: int, o: Order)
    requires WellFormed(b) && GoodOrder(o) && o.id !in BookIds(b)
    ensures var b' := b.WithLadder(side, Rest(side, b.Ladder(side), price, o));
            WellFormed(b') && BookIds(b') == BookIds(b) + multiset{o.id}
  {
    RestGood(side, b.Ladder(side), price, o, 0);
    RestIds(side, b.Ladder(side), price, o);
    var b' := b.WithLadder(side, Rest(side, b.Ladder(side), price, o));
    assert BookIds(b') == BookIds(b) + multiset{o.id};
    UniqueMore(BookIds(b), o.id);
  }

  lemma {:induction false} SubmitWellFormed(b: Book, id: nat, side: Side, price: int, qty: nat, room: nat, accept: bool)
    requires WellFormed(b) && qty < U32
    ensures var (r, b') := Submit(b, id, side, price, qty, room, accept);
            && WellFormed(b')
            && (if r.rested then BookIds(b') <= BookIds(b) + multiset{id} && id in BookIds(b') && id !in BookIds(b)
                else BookIds(b') <= BookIds(b))
  {
    if qty == 0 || id in BookIds(b) {
      return;
    }
    var s := Sweep(b.Ladder(Opposite(side)), id, side, price, qty, room);
    var swept := b.WithLadder(Opposite(side), s.left);
    SweptWellFormed(b, id, side, price, qty, room);
    SweepRemaining(b.Ladder(Opposite(side)), id, side, price, qty, room);
    if s.remaining > 0 {
      RestWellFormed(swept, side, price, Order(id, s.remaining));
    }
  }

  lemma {:induction false} RestFront(side: Side, levels: seq<Level>, price: int, o: Order)
    ensures Rest(side, levels, price, o) != []
    ensures Rest(side, levels, price, o)[0].price == price ||
            (levels != [] && Rest(side, levels, price, o)[0].price == levels[0].price)
  {
  }

  /** Even when matching stops on a full fill buffer, bids stay below asks. */
  lemma {:induction false} SubmitUncrossed(b: Book, id: nat, side: Side, price: int, qty: nat, room: nat, accept: bool)
    requires WellFormed(b) && Uncrossed(b)
    ensures Uncrossed(Submit(b, id, side, price, qty, room, accept).1)
  {
    if qty == 0 || id in BookIds(b) {
      return;
    }
    var s := Sweep(b.Ladder(Opposite(side)), id, side, price, qty, room);
    SweepFront(b.Ladder(Opposite(side)), id, side, price, qty, room);
    RestFront(side, b.Ladder(side), price, Order(id, s.remaining));
  }

  lemma {:induction false} ZeroSum(a: multiset<nat>, b: multiset<nat>, id: nat)
    ensures a[id := 0] + b[id := 0] == (a + b)[id := 0] <= a + b
  {
  }

  lemma {:induction false} CancelWellFormed(b: Book, id: nat)
    requires WellFormed(b)
    ensures WellFormed(CancelBook(b, id)) && BookIds(CancelBook(b, id)) == BookIds(b)[id := 0]
  {
    CancelGood(Bid, b.bids, id, 0);
    CancelGood(Ask, b.asks, id, 0);
    CancelIds(b.bids, id);
    CancelIds(b.asks, id);
    ZeroSum(Ids(b.bids), Ids(b.asks), id);
    UniqueSmaller(BookIds(CancelBook(b, id)), BookIds(b));
  }

  lemma {:induction false} GoodHasOrders(side: Side, levels: seq<Level>)
    requires GoodLadder(side, levels)
    ensures forall i :: 0 <= i < |levels| ==> levels[i].orders != []
  {
    forall i | 0 <= i < |levels|
      ensures levels[i].orders != []
    {
      assert GoodLevel(levels[i]);
    }
  }

  lemma {:induction false} CancelAbsentBook(b: Book, id: nat)
    requires WellFormed(b) && id !in BookIds(b)
    ensures CancelBook(b, id) == b
  {
    GoodHasOrders(Bid, b.bids);
    GoodHasOrders(Ask, b.asks);
    CancelAbsent(b.bids, id);
    CancelAbsent(b.asks, id);
  }

  lemma {:induction false} CancelFront(side: Side, levels: seq<Level>, id: nat)
    requires GoodLadder(side, levels)
    ensures Cancel(levels, id) != [] ==> levels != [] && !Better(side, Cancel(levels, id)[0].price, levels[0].price)
  {
    if levels != [] {
      GoodTail(side, levels);
      CancelGood(side, levels[1..], id, levels[0].price);
    }
  }

  lemma {:induction false} CancelUncrossed(b: Book, id: nat)
    requires WellFormed(b) && Uncrossed(b)
    ensures Uncrossed(CancelBook(b, id))
  {
    CancelFront(Bid, b.bids, id);
    CancelFront(Ask, b.asks, id);
  }

  // ---------------------------------------------------------------------------
  // Runs
  // ---------------------------------------------------------------------------

  datatype Op =
    | SubmitOp(id: nat, side: Side, price: int, qty: nat, accept: bool)
    | CancelOp(id: nat)
    | ModifyOp(oldId: nat, side: Side, price: int, qty: nat, newId: nat, accept: bool)

  ghost predicate Qty32(op: Op) {
    op.CancelOp? || op.qty < U32
  }

  function Step(b: Book, op: Op, room: nat): Book {
    match op
    case SubmitOp(id, side, price, qty, accept) => Submit(b, id, side, price, qty, room, accept).1
    case CancelOp(id) => CancelBook(b, id)
    case ModifyOp(oldId, side, price, qty, newId, accept) =>
      Modify(b, oldId, side, price, qty, newId, room, accept).1
  }

  function Run(b: Book, ops: seq<Op>, room: nat): Book
    decreases |ops|
  {
    if ops == [] then b else Run(Step(b, ops[0], room), ops[1..], room)
  }

  lemma {:induction false} StepKeeps(b: Book, op: Op, room: nat)
    requires WellFormed(b) && Uncrossed(b) && Qty32(op)
    ensures WellFormed(Step(b, op, room)) && Uncrossed(Step(b, op, room))
  {
    match op
    case SubmitOp(id, side, price, qty, accept) =>
      SubmitWellFormed(b, id, side, price, qty, room, accept);
      SubmitUncrossed(b, id, side, price, qty, room, accept);
    case CancelOp(id) =>
      CancelWellFormed(b, id);
      CancelUncrossed(b, id);
    case ModifyOp(oldId, side, price, qty, newId, accept) =>
      CancelWellFormed(b, oldId);
      CancelUncrossed(b, oldId);
      SubmitWellFormed(CancelBook(b, oldId), newId, side, price, qty, room, accept);
      SubmitUncrossed(CancelBook(b, oldId), newId, side, price, qty, room, accept);
  }

  /** Every run of submissions, cancels and modifies, whatever the book refuses, keeps both
      ladders strictly sorted with no empty level and no duplicate id, and never crosses. */
  lemma {:induction false} RunKeeps(b: Book, ops: seq<Op>, room: nat)
    requires WellFormed(b) && Uncrossed(b)
    requires forall i :: 0 <= i < |ops| ==> Qty32(ops[i])
    ensures WellFormed(Run(b, ops, room)) && Uncrossed(Run(b, ops, room))
    ensures var b' := Run(b, ops, room);
            && (forall i, j :: 0 <= i < j < |b'.bids| ==> b'.bids[i].price > b'.bids[j].price)
            && (forall i, j :: 0 <= i < j < |b'.asks| ==> b'.asks[i].price < b'.asks[j].price)
            && (forall i, j :: 0 <= i < |b'.bids| && 0 <= j < |b'.asks| ==> b'.bids[i].price < b'.asks[j].price)
    decreases |ops|
  {
    if ops != [] {
      StepKeeps(b, ops[0], room);
      RunKeeps(Step(b, ops[0], room), ops[1..], room);
    }
  }
}
