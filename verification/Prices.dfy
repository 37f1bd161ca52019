/** Limits and price priority with the comparisons written out side by side. */
module Prices {
  import opened Machine
  import opened Books
  import opened Ladders
  import opened Matching
  import opened Accounting

  /** Every fill is at the limit or better for the taker. */
  ghost predicate WithinLimit(fills: seq<Fill>, side: Side, price: int) {
    forall k :: 0 <= k < |fills| ==> if side.Bid? then fills[k].price <= price else fills[k].price >= price
  }

  /** Nothing on the other side is within the limit. */
  ghost predicate OutOfReach(b: Book, side: Side, price: int) {
    if side.Bid? then forall i :: 0 <= i < |b.asks| ==> b.asks[i].price > price
    else forall i :: 0 <= i < |b.bids| ==> b.bids[i].price < price
  }

  /** Every fill is within the limit. A remainder that neither ran out of room for fills nor came
      with an id in use leaves nothing within the limit on the other side; with an id in use
      nothing happens at all. */
  lemma {:induction false} SubmitWithinLimit(b: Book, id: nat, side: Side, price: int, qty: nat, room: nat, accept: bool)
    requires WellFormed(b)
    ensures var (r, b') := Submit(b, id, side, price, qty, room, accept);
            && WithinLimit(r.fills, side, price)
            && (id !in BookIds(b) && r.remaining > 0 && |r.fills| < room ==> OutOfReach(b', side, price))
            && (id in BookIds(b) ==> r.fills == [] && r.remaining == qty && b' == b)
  {
    if qty == 0 || id in BookIds(b) {
      return;
    }
    var (r, b') := Submit(b, id, side, price, qty, room, accept);
    SubmitIsPriceTime(b, id, side, price, qty, room, accept);
    var L := b.Ladder(Opposite(side));
    forall k | 0 <= k < |r.fills|
      ensures if side.Bid? then r.fills[k].price <= price else r.fills[k].price >= price
    {
      assert Trades(Flatten(L)[k], r.fills[k], id, side, price);
    }
    SweepStops(L, id, side, price, qty, room);
    SweepIsGreedy(L, id, side, price, qty, room);
  }

  lemma {:induction false} FlattenSorted(side: Side, levels: seq<Level>, i: nat, j: nat)
    requires Sorted(side, levels) && i <= j < |Flatten(levels)|
    ensures if side.Bid? then Flatten(levels)[i].price >= Flatten(levels)[j].price
            else Flatten(levels)[i].price <= Flatten(levels)[j].price
  {
    var n := |levels[0].orders|;
    if i >= n {
      FlattenSorted(side, levels[1..], i - n, j - n);
    } else if j >= n {
      FlattenAfter(side, levels[1..], levels[0].price);
    }
  }

  /** Better prices trade first, and what is left on the other side is no better than any trade. */
  lemma {:induction false} SubmitBestFirst(b: Book, id: nat, side: Side, price: int, qty: nat, room: nat, accept: bool,
                                           i: nat, j: nat)
    requires WellFormed(b)
    requires i < |Submit(b, id, side, price, qty, room, accept).0.fills|
    ensures var (r, b') := Submit(b, id, side, price, qty, room, accept);
            && (i <= j < |r.fills| ==>
                  if side.Bid? then r.fills[i].price <= r.fills[j].price else r.fills[i].price >= r.fills[j].price)
            && (side.Bid? && j < |Flatten(b'.asks)| ==> r.fills[i].price <= Flatten(b'.asks)[j].price)
            && (side.Ask? && j < |Flatten(b'.bids)| ==> r.fills[i].price >= Flatten(b'.bids)[j].price)
  {
    var (r, b') := Submit(b, id, side, price, qty, room, accept);
    var ms := Flatten(b.Ladder(Opposite(side)));
    SubmitIsPriceTime(b, id, side, price, qty, room, accept);
    assert Trades(ms[i], r.fills[i], id, side, price);
    if i <= j < |r.fills| {
      assert Trades(ms[j], r.fills[j], id, side, price);
      FlattenSorted(Opposite(side), b.Ladder(Opposite(side)), i, j);
    }
    var left := Flatten(b'.Ladder(Opposite(side)));
    if j < |left| {
      var k := LeftOverFrom(ms, r.fills, j);
      FlattenSorted(Opposite(side), b.Ladder(Opposite(side)), i, k);
    }
  }

  lemma {:induction false} LeftOverFrom(ms: seq<Maker>, fills: seq<Fill>, j: nat) returns (k: nat)
    requires |fills| <= |ms| && forall i :: 0 <= i < |fills| ==> fills[i].qty <= ms[i].qty
    requires j < |LeftOver(ms, fills)|
    ensures |fills| - 1 <= k < |ms| && LeftOver(ms, fills)[j].price == ms[k].price
  {
    var n := |fills|;
    k := if n > 0 && fills[n - 1].qty < ms[n - 1].qty then n - 1 + j else n + j;
  }

  /** A remainder that rests goes behind everything at its price or better on its own side and
      before everything worse; nothing else on that side moves. */
  lemma {:induction false} SubmitRestsBehind(b: Book, id: nat, side: Side, price: int, qty: nat, room: nat, accept: bool)
    returns (before: seq<Maker>, after: seq<Maker>)
    requires WellFormed(b) && Submit(b, id, side, price, qty, room, accept).0.rested
    ensures var (r, b') := Submit(b, id, side, price, qty, room, accept);
            && Flatten(b.Ladder(side)) == before + after
            && Flatten(b'.Ladder(side)) == before + [Maker(id, price, r.remaining)] + after
    ensures forall i :: 0 <= i < |before| ==> if side.Bid? then before[i].price >= price else before[i].price <= price
    ensures forall i :: 0 <= i < |after| ==> if side.Bid? then after[i].price < price else after[i].price > price
  {
    var r := Submit(b, id, side, price, qty, room, accept).0;
    SubmitIsPriceTime(b, id, side, price, qty, room, accept);
    before, after := RestRanks(side, b.Ladder(side), price, Order(id, r.remaining));
  }

  lemma {:induction false} SideInBook(b: Book, side: Side, x: nat)
    requires x in Ids(b.Ladder(side))
    ensures x in BookIds(b)
  {
  }

  lemma {:induction false} ReplacedTradesNot(b: Book, oldId: nat, side: Side, price: int, qty: nat, newId: nat, room: nat, accept: bool)
    requires WellFormed(b) && 0 < qty < U32 && newId !in BookIds(b)
    ensures var (r, b') := Submit(CancelBook(b, oldId), newId, side, price, qty, room, accept);
            && SumFills(r.fills) + r.remaining == qty && (oldId != newId ==> oldId !in BookIds(b'))
            && (forall k :: 0 <= k < |r.fills| ==> r.fills[k].maker != oldId && r.fills[k].taker == newId)
  {
    hide Submit, CancelBook, WellFormed, BookIds, Ids, SumFills;
    var c := CancelBook(b, oldId);
    CancelWellFormed(b, oldId);
    SubmitWellFormed(c, newId, side, price, qty, room, accept);
    SubmitAccounts(c, newId, side, price, qty, room, accept, 0);
    var r := Submit(c, newId, side, price, qty, room, accept).0;
    forall k | 0 <= k < |r.fills|
      ensures r.fills[k].maker != oldId && r.fills[k].taker == newId
    {
      SubmitMakers(c, newId, side, price, qty, room, accept, k);
      SideInBook(c, Opposite(side), r.fills[k].maker);
    }
  }

  /** A modify of an order that does not rest does nothing. Otherwise the old order is gone and did
      not trade, and the new one keeps to its limit like any submission. */
  lemma {:induction false} ModifyWithinLimit(b: Book, oldId: nat, side: Side, price: int, qty: nat, newId: nat, room: nat, accept: bool)
    requires WellFormed(b) && qty < U32
    ensures var (r, b') := Modify(b, oldId, side, price, qty, newId, room, accept);
            && (oldId !in BookIds(b) ==> r.fills == [] && r.remaining == 0 && !r.rested && b' == b)
            && (oldId in BookIds(b) && newId !in BookIds(b) ==>
                  && oldId !in BookIds(b') && SumFills(r.fills) + r.remaining == qty
                  && (forall k :: 0 <= k < |r.fills| ==> r.fills[k].maker != oldId && r.fills[k].taker == newId)
                  && WithinLimit(r.fills, side, price)
                  && (r.remaining > 0 && |r.fills| < room ==> OutOfReach(b', side, price)))
  {
    if oldId !in BookIds(b) || newId in BookIds(b) {
      return;
    }
    CancelWellFormed(b, oldId);
    if qty == 0 {
      NothingAsked(CancelBook(b, oldId), newId, side, price, room, accept);
      return;
    }
    hide Submit, CancelBook, WellFormed, BookIds, WithinLimit, OutOfReach;
    ReplacedTradesNot(b, oldId, side, price, qty, newId, room, accept);
    SubmitWithinLimit(CancelBook(b, oldId), newId, side, price, qty, room, accept);
  }

  lemma {:induction false} NothingAsked(b: Book, id: nat, side: Side, price: int, room: nat, accept: bool)
    ensures Submit(b, id, side, price, 0, room, accept) == (MatchResult([], 0, false), b)
  {
  }
}
