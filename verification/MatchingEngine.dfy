/** The matching engine: the crossing loops over the order book's own memory. */
module Engines {
  import opened Machine
  import opened Books
  import opened Ladders
  import opened Matching
  import opened Quantities
  import opened FreeStack
  import opened HashTable
  import opened IntrusiveLists
  import opened BookRep
  import opened Wiring
  import opened BookParts
  import opened OrderBooks

  /** What is still to come of a sweep that has already recorded some fills. */
  ghost predicate Continues(levels: seq<Level>, taker: nat, side: Side, limit: int, qty: nat, room: nat,
                            done: seq<Fill>, now: seq<Level>, remaining: nat)
  {
    && |done| <= room
    && (var rest := Sweep(now, taker, side, limit, remaining, room - |done|);
        Sweep(levels, taker, side, limit, qty, room) == Outcome(done + rest.fills, rest.left, rest.remaining))
  }

  lemma {:induction false} ContinuesStart(levels: seq<Level>, taker: nat, side: Side, limit: int, qty: nat, room: nat)
    ensures Continues(levels, taker, side, limit, qty, room, [], levels, qty)
  {
    var rest := Sweep(levels, taker, side, limit, qty, room);
    assert [] + rest.fills == rest.fills;
  }

  /** One trade of a sweep. */
  lemma {:induction false} SweepStep(now: seq<Level>, taker: nat, side: Side, limit: int, remaining: nat, room: nat)
    requires remaining > 0 && room > 0 && now != [] && now[0].orders != [] && Crosses(side, limit, now[0].price)
    ensures var o := now[0].orders[0];
            var f := Min(remaining, o.qty);
            var rest := Sweep(FillFront(now, f), taker, side, limit, remaining - f, room - 1);
            Sweep(now, taker, side, limit, remaining, room) ==
              Outcome([Fill(o.id, taker, now[0].price, f)] + rest.fills, rest.left, rest.remaining)
  {
    hide FillFront;
  }

  lemma {:induction false} ContinuesStep(levels: seq<Level>, taker: nat, side: Side, limit: int, qty: nat, room: nat,
                                         done: seq<Fill>, now: seq<Level>, remaining: nat)
    requires Continues(levels, taker, side, limit, qty, room, done, now, remaining)
    requires remaining > 0 && |done| < room && now != [] && now[0].orders != [] && Crosses(side, limit, now[0].price)
    ensures var o := now[0].orders[0];
            var f := Min(remaining, o.qty);
            Continues(levels, taker, side, limit, qty, room, done + [Fill(o.id, taker, now[0].price, f)],
                      FillFront(now, f), remaining - f)
  {
    hide Sweep, FillFront;
    SweepStep(now, taker, side, limit, remaining, room - |done|);
    var o := now[0].orders[0];
    var f := Min(remaining, o.qty);
    var fill := Fill(o.id, taker, now[0].price, f);
    var rest := Sweep(FillFront(now, f), taker, side, limit, remaining - f, room - |done| - 1);
    assert done + ([fill] + rest.fills) == (done + [fill]) + rest.fills;
  }

  lemma {:induction false} ContinuesStop(levels: seq<Level>, taker: nat, side: Side, limit: int, qty: nat, room: nat,
                                         done: seq<Fill>, now: seq<Level>, remaining: nat)
    requires Continues(levels, taker, side, limit, qty, room, done, now, remaining)
    requires remaining == 0 || |done| == room || !StillCrosses(side, limit, now)
    ensures Sweep(levels, taker, side, limit, qty, room) == Outcome(done, now, remaining)
  {
    assert done + [] == done;
  }

  /** Sweeping adds no id. */
  lemma {:induction false} SweptIds(b: Book, id: nat, side: Side, price: int, qty: nat, room: nat)
    requires WellFormed(b) && id !in BookIds(b)
    ensures id !in BookIds(b.WithLadder(Opposite(side), Sweep(b.Ladder(Opposite(side)), id, side, price, qty, room).left))
  {
    SweptWellFormed(b, id, side, price, qty, room);
  }

  class MatchingEngine {
    const book: OrderBook
    const fills: array<Fill>
    var fillCount: nat

    ghost const Repr: set<object>

    ghost predicate Valid()
      reads Repr
    {
      && Repr == {this, fills} + book.Repr && this !in book.Repr && fills !in book.Repr && fills.Length > 0
      && book.Valid() && Uncrossed(book.Value()) && fillCount <= fills.Length
    }

    ghost function Value(): Book
      requires Valid()
      reads Repr
    {
      book.Value()
    }

    ghost function Wear(): BookWear
      requires Valid()
      reads Repr
    {
      book.Wear()
    }

    constructor (b: OrderBook, maxFills: nat)
      requires b.Valid() && b.Value() == EMPTY_BOOK && maxFills > 0
      ensures Valid() && Value() == EMPTY_BOOK && book == b && fresh(Repr - b.Repr) && fills.Length == maxFills
    {
      hide OrderBook.Plumbing, OrderBook.Assembled, View.Inv, WellFormed, View.Abs;
      book := b;
      fills := new Fill[maxFills](_ => Fill(0, 0, 0, 0));
      fillCount := 0;
      Repr := {this, fills} + b.Repr;
    }

    /** The engine between trades: the book is sound and apart from the fill buffer. */
    ghost predicate Sound()
      reads Repr
    {
      && Repr == {this, fills} + book.Repr && this !in book.Repr && fills !in book.Repr
      && book.Valid() && fillCount <= fills.Length
    }

    method Record(fill: Fill)
      requires Sound() && fillCount < fills.Length
      modifies this, fills
      ensures Sound() && book.Memory() == old(book.Memory())
      ensures fillCount == old(fillCount) + 1 && fills[..fillCount] == old(fills[..fillCount]) + [fill]
    {
      hide OrderBook.Plumbing, OrderBook.Assembled, View.Inv, WellFormed, View.Abs;
      fills[fillCount] := fill;
      fillCount := fillCount + 1;
    }

    /** One trade with the front order of level j. */
    method FillOne(taker: nat, j: nat, left: nat, ghost side: Side, ghost price: int) returns (f: nat, emptied: bool)
      requires Sound() && fillCount < fills.Length && book.Facing(j, side, price)
      modifies Repr
      ensures Sound() && fillCount == old(fillCount) + 1
      ensures fills[..old(fillCount)] == old(fills[..fillCount])
      ensures var fill := fills[fillCount - 1];
              fill.taker == taker && fill.qty == f && fill.price == price &&
              Traded(old(book.Value()), book.Value(), side, left, fill.maker, price, f)
      ensures !emptied ==> book.Facing(j, side, price)
      ensures book.Wear() == old(book.Wear())
    {
      hide OrderBook.Valid, OrderBook.Value, OrderBook.Facing, OrderBook.Wear, Traded;
      var maker, execPrice;
      maker, execPrice, f, emptied := book.TradeFront(j, left, side, price);
      Record(Fill(maker, taker, execPrice, f));
    }

    /** How far a sweep has come: fills recorded, one side being swept, the other untouched. */
    ghost predicate Sweeping(b: Book, taker: nat, side: Side, limit: int, qty: nat, remaining: nat)
      reads Repr
    {
      && Sound() && remaining <= qty && book.Value().Ladder(side) == b.Ladder(side)
      && Continues(b.Ladder(Opposite(side)), taker, side, limit, qty, fills.Length,
                   fills[..fillCount], book.Value().Ladder(Opposite(side)), remaining)
    }

    /** Inner loop: trades down the queue of the best level, until the taker is filled, the
        fill buffer is full or the level is gone. */
    method CrossLevel(taker: nat, side: Side, limit: int, j: nat, left: nat, ghost price: int, ghost b: Book, ghost qty: nat)
      returns (remaining: nat)
      requires Sweeping(b, taker, side, limit, qty, left) && left > 0 && fillCount < fills.Length
      requires book.Facing(j, Opposite(side), price) && Crosses(side, limit, price)
      modifies Repr
      ensures Sweeping(b, taker, side, limit, qty, remaining) && fillCount > old(fillCount)
      ensures book.Wear() == old(book.Wear())
    {
      hide OrderBook.Valid, OrderBook.Value, OrderBook.Facing, OrderBook.Wear, Continues, FillFront;
      remaining := left;
      while remaining > 0 && fillCount < fills.Length
        invariant Sweeping(b, taker, side, limit, qty, remaining)
        invariant fillCount > old(fillCount) || (remaining == left && fillCount == old(fillCount))
        invariant book.Facing(j, Opposite(side), price) && book.Wear() == old(book.Wear())
        decreases fills.Length - fillCount
      {
        ghost var done, now := fills[..fillCount], book.Value().Ladder(Opposite(side));
        var f, emptied := FillOne(taker, j, remaining, Opposite(side), price);
        ContinuesStep(b.Ladder(Opposite(side)), taker, side, limit, qty, fills.Length, done, now, remaining);
        assert fills[..fillCount] == done + [fills[fillCount - 1]];
        remaining := remaining - f;
        if emptied {
          break;
        }
      }
    }

    /** Outer loop: level after level while the limit still reaches the best one. */
    method Cross(taker: nat, side: Side, limit: int, qty: nat) returns (remaining: nat)
      requires Sound() && fills.Length > 0
      modifies Repr
      ensures Sound() && remaining <= qty
      ensures book.Value().Ladder(side) == old(book.Value()).Ladder(side)
      ensures Sweep(old(book.Value()).Ladder(Opposite(side)), taker, side, limit, qty, fills.Length) ==
              Outcome(fills[..fillCount], book.Value().Ladder(Opposite(side)), remaining)
      ensures book.Wear() == old(book.Wear())
    {
      hide OrderBook.Valid, OrderBook.Value, OrderBook.Facing, OrderBook.Wear, Continues, Sweep;
      ghost var b := book.Value();
      ghost var levels := b.Ladder(Opposite(side));
      fillCount := 0;
      remaining := qty;
      ContinuesStart(levels, taker, side, limit, qty, fills.Length);
      assert fills[..0] == [];
      while remaining > 0 && fillCount < fills.Length
        invariant Sweeping(b, taker, side, limit, qty, remaining) && book.Wear() == old(book.Wear())
        decreases fills.Length - fillCount
      {
        var empty := book.SideEmpty(Opposite(side));
        if empty {
          break;
        }
        var j, price := book.BestLevel(Opposite(side));
        if !Crosses(side, limit, price) {
          break;
        }
        remaining := CrossLevel(taker, side, limit, j, remaining, price, b, qty);
      }
      ContinuesStop(levels, taker, side, limit, qty, fills.Length, fills[..fillCount],
                    book.Value().Ladder(Opposite(side)), remaining);
    }

    /** The best price of a side is within the taker's limit. */
    method Reaches(side: Side, limit: int) returns (r: bool)
      requires book.Valid()
      ensures book.Valid() && r == StillCrosses(side, limit, book.Value().Ladder(Opposite(side)))
    {
      hide OrderBook.Plumbing, OrderBook.Assembled, View.Inv, WellFormed, View.Abs;
      var empty := book.SideEmpty(Opposite(side));
      if empty {
        return false;
      }
      var _, price := book.BestLevel(Opposite(side));
      r := Crosses(side, limit, price);
    }

    /** A remainder that neither traded nor rested, though its id is new and nothing crosses it, was
        refused by a book that has no room for it. */
    ghost predicate Justified(r: MatchResult, id: nat, side: Side, price: int)
      requires Valid()
      reads Repr
    {
      r.remaining > 0 && !r.rested && id !in BookIds(Value()) && !StillCrosses(side, price, Value().Ladder(Opposite(side))) ==>
        !book.CanRest(id, side, price)
    }

    /** Submits a limit order: refuses a zero quantity or an id that rests, crosses the other
        side, then rests the remainder unless that would cross the book. */
    method Submit(id: nat, side: Side, price: int, qty: nat) returns (r: MatchResult)
      requires Valid() && qty < U32
      modifies Repr
      ensures Valid()
      ensures (r, Value()) == Matching.Submit(old(Value()), id, side, price, qty, fills.Length, r.rested)
      ensures Justified(r, id, side, price)
      ensures Adds(old(Wear()), Wear(), side)
    {
      hide OrderBook.Wear, Adds, TakesHome, OrderBook.Plumbing, OrderBook.Assembled, View.Inv, WellFormed, View.Abs;
      hide Sweep, Rest, BookIds;
      AddsNone(book.Wear(), side);
      if qty == 0 {
        return MatchResult([], 0, false);
      }
      var found, _, _, _ := book.FindOrder(id);
      if found.Some? {
        return MatchResult([], qty, false);
      }
      ghost var b := book.Value();
      var remaining := Cross(id, side, price, qty);
      SweptIds(b, id, side, price, qty, fills.Length);
      var rested := false;
      if remaining > 0 {
        var crossing := Reaches(side, price);
        if !crossing {
          rested := book.AddOrder(id, side, price, remaining);
        }
      }
      r := MatchResult(fills[..fillCount], remaining, rested);
      SubmitUncrossed(b, id, side, price, qty, fills.Length, rested);
    }

    method CancelOrder(id: nat) returns (ok: bool)
      requires Valid()
      modifies Repr
      ensures Valid()
      ensures ok == (id in BookIds(old(Value())))
      ensures Value() == CancelBook(old(Value()), id)
      ensures Wear() == old(Wear())
    {
      hide OrderBook.Wear, OrderBook.Plumbing, OrderBook.Assembled, View.Inv, View.Abs, BookIds, WellFormed;
      CancelUncrossed(Value(), id);
      ok := book.CancelOrder(id);
    }

    /** Cancels one order and submits another under a new id; fails only when the first does
        not rest. */
    method ModifyOrder(oldId: nat, side: Side, price: int, qty: nat, newId: nat) returns (ok: bool, r: MatchResult)
      requires Valid() && qty < U32
      modifies Repr
      ensures Valid()
      ensures ok == (oldId in BookIds(old(Value())))
      ensures (r, Value()) == Matching.Modify(old(Value()), oldId, side, price, qty, newId, fills.Length, r.rested)
      ensures ok ==> Justified(r, newId, side, price)
      ensures Adds(old(Wear()), Wear(), side)
    {
      hide OrderBook.Wear, Adds, OrderBook.Plumbing, OrderBook.Assembled, View.Inv, View.Abs, BookIds, WellFormed;
      hide Matching.Submit;
      ok := CancelOrder(oldId);
      AddsNone(book.Wear(), side);
      if !ok {
        CancelAbsentBook(old(Value()), oldId);
        return false, MatchResult([], 0, false);
      }
      r := Submit(newId, side, price, qty);
    }

    // -------------------------------------------------------------------------
    // Queries
    // -------------------------------------------------------------------------

    method OrderQty(id: nat) returns (q: nat)
      requires Valid()
      ensures Valid() && q == BookQty(Value(), id)
    {
      q := book.OrderQty(id);
    }

    method HasOrder(id: nat) returns (r: bool)
      requires Valid()
      ensures Valid() && r == (id in BookIds(Value()))
    {
      var found, _, _, _ := book.FindOrder(id);
      r := found.Some?;
    }

    method BestQuote(side: Side) returns (r: Option<(int, nat)>)
      requires Valid()
      ensures Valid()
      ensures var L := Value().Ladder(side);
              r == if L == [] then None else Some((L[0].price, SumQty(L[0].orders) % U32))
    {
      r := book.BestQuote(side);
    }

    /** A book whose maps are little worn has rested what it could: where nothing rests, nothing was
        left, or the id rests already, or the book crosses. */
    lemma {:induction false} Rested(r: MatchResult, id: nat, side: Side, price: int)
      requires Valid() && Justified(r, id, side, price) && book.Assembled() && book.Ample(side)
      requires r.remaining > 0 && id !in BookIds(Value()) && !StillCrosses(side, price, Value().Ladder(Opposite(side)))
      ensures r.rested
    {
      hide OrderBook.Valid, OrderBook.Value, OrderBook.Ample, OrderBook.CanRest, OrderBook.Assembled;
      book.RoomRests(id, side, price);
    }

    lemma {:induction false} BookSound()
      requires Valid()
      ensures WellFormed(Value()) && Uncrossed(Value())
    {
    }
  }
}
