/** The two id maps stay inverse, and name exactly the resting orders. */
module ExchangeIds {
  import opened Machine
  import opened Books
  import opened Ladders
  import opened Matching
  import opened Quantities
  import opened Accounting
  import opened Exchange

  /** The maps are inverse to each other. */
  ghost predicate Inverse(m: IdMaps) {
    && (forall k :: k in m.fwd ==>
          m.fwd[k].xid in m.rev && KeyOf(m.rev[m.fwd[k].xid]) == k && m.rev[m.fwd[k].xid].symbol == m.fwd[k].symbol)
    && (forall x :: x in m.rev ==>
          m.rev[x].session < U16 && m.rev[x].cid < CLIENT_IDS && KeyOf(m.rev[x]) in m.fwd && m.fwd[KeyOf(m.rev[x])].xid == x)
  }

  /** The maps without some exchange ids. */
  function Clean(m: IdMaps, gone: set<nat>): IdMaps {
    IdMaps(map k | k in m.fwd && m.fwd[k].xid !in gone :: m.fwd[k], m.rev - gone)
  }

  lemma {:induction false} CleanInverse(m: IdMaps, gone: set<nat>)
    requires Inverse(m)
    ensures Inverse(Clean(m, gone))
  {
  }

  lemma {:induction false} CleanTwice(m: IdMaps, a: set<nat>, b: set<nat>)
    ensures Clean(Clean(m, a), b) == Clean(m, a + b)
  {
  }

  /** Erasing one order from both maps, as the code does it, is cleaning its id. */
  lemma {:induction false} EraseIsClean(m: IdMaps, x: nat)
    requires Inverse(m) && x in m.rev
    ensures IdMaps(m.fwd - {KeyOf(m.rev[x])}, m.rev - {x}) == Clean(m, {x})
  {
  }

  lemma {:induction false} CleanAbsent(m: IdMaps, x: nat)
    requires Inverse(m) && x !in m.rev
    ensures Clean(m, {x}) == m
  {
    assert m.rev - {x} == m.rev;
  }

  /** Makers that have nothing left in b. */
  function Gone(fills: seq<Fill>, b: Book): set<nat> {
    if fills == [] then {}
    else (if fills[0].maker in BookIds(b) then {} else {fills[0].maker}) + Gone(fills[1..], b)
  }

  lemma {:induction false} GoneIs(fills: seq<Fill>, b: Book, x: nat)
    ensures x in Gone(fills, b) <==> x !in BookIds(b) && exists i :: 0 <= i < |fills| && fills[i].maker == x
  {
    if fills != [] {
      GoneIs(fills[1..], b, x);
      if x in Gone(fills[1..], b) {
        var i :| 0 <= i < |fills[1..]| && fills[1..][i].maker == x;
        assert fills[i + 1].maker == x;
      }
      if i :| 0 <= i < |fills| && fills[i].maker == x {
        assert i > 0 ==> fills[1..][i - 1].maker == x;
      }
    }
  }

  /** m' has nothing that m has not. */
  ghost predicate Within(m': IdMaps, m: IdMaps) {
    && (forall k :: k in m'.fwd ==> k in m.fwd && m'.fwd[k] == m.fwd[k])
    && (forall x :: x in m'.rev ==> x in m.rev && m'.rev[x] == m.rev[x])
  }

  /** Reporting only takes entries away. */
  lemma {:induction false} ReportShrinks(m: IdMaps, b: Book, t: Taker, fills: seq<Fill>, qty: nat)
    ensures Within(Report(m, b, t, fills, qty).0, m)
    decreases |fills|
  {
    if fills != [] {
      var m1 := ReportMaker(m, b, fills[0], t.side).0;
      ReportShrinks(m1, b, t, fills[1..], Sub32(qty, fills[0].qty));
    }
  }

  /** Reporting trades leaves the maps without exactly the makers that are gone. */
  lemma {:induction false} ReportCleans(m: IdMaps, b: Book, t: Taker, fills: seq<Fill>, qty: nat)
    requires Inverse(m)
    ensures Report(m, b, t, fills, qty).0 == Clean(m, Gone(fills, b))
    decreases |fills|
  {
    if fills == [] {
      assert Clean(m, {}) == m;
      return;
    }
    var x := fills[0].maker;
    var one := if x in BookIds(b) then {} else {x};
    var (m1, _) := ReportMaker(m, b, fills[0], t.side);
    assert m1 == Clean(m, one) by {
      if x !in BookIds(b) {
        if x in m.rev {
          EraseIsClean(m, x);
        } else {
          CleanAbsent(m, x);
        }
      }
    }
    CleanInverse(m, one);
    ReportCleans(m1, b, t, fills[1..], Sub32(qty, fills[0].qty));
    CleanTwice(m, one, Gone(fills[1..], b));
  }

  /** A new order joins both maps. */
  lemma {:induction false} EnterInverse(m: IdMaps, xid: nat, side: Side, w: Owner, o: Oracle)
    requires Inverse(m) && xid !in m.rev && KeyOf(w) !in m.fwd && w.session < U16 && w.cid < CLIENT_IDS && o.fwd && o.rev
    ensures Inverse(Enter(m, xid, side, w, o))
  {
  }

  // ---------------------------------------------------------------------------
  // Ids before and after a submission
  // ---------------------------------------------------------------------------

  lemma {:induction false} LadderQtyPositive(side: Side, levels: seq<Level>, x: nat)
    requires GoodLadder(side, levels) && Unique(Ids(levels))
    ensures x in Ids(levels) <==> LadderQty(levels, x) > 0
  {
    if x in Ids(levels) {
      var i, k := WhereIsId(levels, x);
      assert GoodLevel(levels[i]);
      LadderQtyAt(levels, i, k);
    } else {
      LadderQtyAbsent(levels, x);
    }
  }

  lemma {:induction false} UniqueSide(b: Book, side: Side)
    requires WellFormed(b)
    ensures Unique(Ids(b.Ladder(side))) && Ids(b.bids) !! Ids(b.asks)
  {
    assert Ids(b.Ladder(side)) <= BookIds(b);
    UniqueSmaller(Ids(b.Ladder(side)), BookIds(b));
    forall x | x in Ids(b.bids)
      ensures x !in Ids(b.asks)
    {
      assert BookIds(b)[x] == Ids(b.bids)[x] + Ids(b.asks)[x];
    }
  }

  lemma {:induction false} FilledMaker(fills: seq<Fill>, x: nat)
    requires FilledQty(fills, x) > 0
    ensures exists i :: 0 <= i < |fills| && fills[i].maker == x
  {
    if forall i :: 0 <= i < |fills| ==> fills[i].maker != x {
      FilledQtyAbsent(fills, x);
    }
  }

  /** On the side that was swept an id stays unless it traded everything it had. */
  lemma {:induction false} SweptSide(b: Book, id: nat, side: Side, price: int, qty: nat, accept: bool, x: nat)
    requires WellFormed(b) && 0 < qty < U32 && id !in BookIds(b)
    ensures var (r, b') := Submit(b, id, side, price, qty, MAX_FILLS, accept);
            var L, L' := b.Ladder(Opposite(side)), b'.Ladder(Opposite(side));
            && (x in Ids(L') ==> x in Ids(L))
            && (x in Ids(L) && x !in Ids(L') ==> exists i :: 0 <= i < |r.fills| && r.fills[i].maker == x)
  {
    var (r, b') := Submit(b, id, side, price, qty, MAX_FILLS, accept);
    SubmitWellFormed(b, id, side, price, qty, MAX_FILLS, accept);
    UniqueSide(b, Opposite(side));
    UniqueSide(b', Opposite(side));
    LadderQtyPositive(Opposite(side), b.Ladder(Opposite(side)), x);
    LadderQtyPositive(Opposite(side), b'.Ladder(Opposite(side)), x);
    SubmitAccounts(b, id, side, price, qty, MAX_FILLS, accept, x);
    if x in Ids(b.Ladder(Opposite(side))) && x !in Ids(b'.Ladder(Opposite(side))) {
      FilledMaker(r.fills, x);
    }
  }

  /** On the taker's own side only the taker itself can be new. */
  lemma {:induction false} OwnSide(b: Book, id: nat, side: Side, price: int, qty: nat, accept: bool, x: nat)
    requires WellFormed(b) && 0 < qty < U32 && id !in BookIds(b)
    ensures var (r, b') := Submit(b, id, side, price, qty, MAX_FILLS, accept);
            x in Ids(b'.Ladder(side)) <==> x in Ids(b.Ladder(side)) || (r.rested && x == id)
  {
    var (r, b') := Submit(b, id, side, price, qty, MAX_FILLS, accept);
    SubmitIsPriceTime(b, id, side, price, qty, MAX_FILLS, accept);
    RestIds(side, b.Ladder(side), price, Order(id, r.remaining));
  }

  /** Where every id is after a submission, whatever side it is on. */
  lemma {:induction false} IdsAfter(b: Book, id: nat, side: Side, price: int, qty: nat, accept: bool, x: nat, s: Side)
    requires WellFormed(b) && qty < U32 && id !in BookIds(b)
    ensures var (r, b') := Submit(b, id, side, price, qty, MAX_FILLS, accept);
            && (x in Ids(b'.Ladder(s)) ==> x in Ids(b.Ladder(s)) || (r.rested && x == id && s == side))
            && (x in Ids(b.Ladder(s)) && x !in Gone(r.fills, b') ==> x in Ids(b'.Ladder(s)))
            && (r.rested ==> id in Ids(b'.Ladder(side)))
            && (x in Gone(r.fills, b') ==> x !in BookIds(b'))
  {
    var (r, b') := Submit(b, id, side, price, qty, MAX_FILLS, accept);
    GoneIs(r.fills, b', x);
    if qty == 0 {
      return;
    }
    OwnSide(b, id, side, price, qty, accept, x);
    OwnSide(b, id, side, price, qty, accept, id);
    SweptSide(b, id, side, price, qty, accept, x);
    UniqueSide(b, side);
    hide Submit, Gone;
    assert x in BookIds(b') <==> x in Ids(b'.Ladder(side)) || x in Ids(b'.Ladder(Opposite(side)));
    assert x in BookIds(b) <==> x in Ids(b.Ladder(side)) || x in Ids(b.Ladder(Opposite(side)));
  }
}
