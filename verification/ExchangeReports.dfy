/** What the events of one request say about its trades. */
module ExchangeReports {
  import opened Machine
  import opened Books
  import opened Ladders
  import opened Matching
  import opened Quantities
  import opened Accounting
  import opened Exchange
  import opened ExchangeIds
  import opened ExchangeRuns

  /** Fill events under one exchange id, and the other fill events. */
  function FillsOf(es: seq<Event>, xid: nat): seq<Event> {
    if es == [] then []
    else if es[0].Filled? && es[0].xid == xid then [es[0]] + FillsOf(es[1..], xid)
    else FillsOf(es[1..], xid)
  }

  function OtherFills(es: seq<Event>, xid: nat): seq<Event> {
    if es == [] then []
    else if es[0].Filled? && es[0].xid != xid then [es[0]] + OtherFills(es[1..], xid)
    else OtherFills(es[1..], xid)
  }

  lemma {:induction false} FillsOfConcat(a: seq<Event>, b: seq<Event>, xid: nat)
    ensures FillsOf(a + b, xid) == FillsOf(a, xid) + FillsOf(b, xid)
  {
    if a == [] {
      assert a + b == b;
      return;
    }
    FillsOfConcat(a[1..], b, xid);
    assert (a + b)[1..] == a[1..] + b && (a + b)[0] == a[0];
    if a[0].Filled? && a[0].xid == xid {
      assert [a[0]] + (FillsOf(a[1..], xid) + FillsOf(b, xid)) == ([a[0]] + FillsOf(a[1..], xid)) + FillsOf(b, xid);
    }
  }

  lemma {:induction false} OtherFillsConcat(a: seq<Event>, b: seq<Event>, xid: nat)
    ensures OtherFills(a + b, xid) == OtherFills(a, xid) + OtherFills(b, xid)
  {
    if a == [] {
      assert a + b == b;
      return;
    }
    OtherFillsConcat(a[1..], b, xid);
    assert (a + b)[1..] == a[1..] + b && (a + b)[0] == a[0];
    if a[0].Filled? && a[0].xid != xid {
      assert [a[0]] + (OtherFills(a[1..], xid) + OtherFills(b, xid)) == ([a[0]] + OtherFills(a[1..], xid)) + OtherFills(b, xid);
    }
  }

  lemma {:induction false} FillsConcat(a: seq<Event>, b: seq<Event>, xid: nat)
    ensures FillsOf(a + b, xid) == FillsOf(a, xid) + FillsOf(b, xid)
    ensures OtherFills(a + b, xid) == OtherFills(a, xid) + OtherFills(b, xid)
  {
    FillsOfConcat(a, b, xid);
    OtherFillsConcat(a, b, xid);
  }

  lemma {:induction false} NoFillsIn(es: seq<Event>, xid: nat)
    requires forall i :: 0 <= i < |es| ==> !es[i].Filled?
    ensures FillsOf(es, xid) == [] && OtherFills(es, xid) == []
  {
    if es != [] {
      NoFillsIn(es[1..], xid);
    }
  }

  /** The taker's side of the trades: each at its price and quantity, with what is then left. */
  function TakerFills(t: Taker, fills: seq<Fill>, qty: int): seq<Event>
    requires SumFills(fills) <= qty
  {
    if fills == [] then []
    else [TakerFill(t, fills[0], qty - fills[0].qty)] + TakerFills(t, fills[1..], qty - fills[0].qty)
  }

  /** The makers' side: the same trades, each to the owner of the resting order, with what is
      left of that order in b. */
  function MakerFills(rev: map<nat, Owner>, b: Book, side: Side, fills: seq<Fill>): seq<Event>
    requires forall i :: 0 <= i < |fills| ==> fills[i].maker in rev
  {
    seq(|fills|, i requires 0 <= i < |fills| => MakerFill(rev[fills[i].maker], fills[i], side, BookQty(b, fills[i].maker)))
  }

  /** The events of one trade: the taker's fill, the maker's fill, no other fill. */
  lemma {:induction false} OneTrade(w: Owner, f: Fill, t: Taker, left: nat, q: nat, b: Book)
    requires f.maker != t.xid
    ensures var es := [TakerFill(t, f, left)] + [MakerFill(w, f, Opposite(t.side), q)] + Bbos(t.symbol, b);
            && FillsOf(es, t.xid) == [TakerFill(t, f, left)]
            && OtherFills(es, t.xid) == [MakerFill(w, f, Opposite(t.side), q)]
  {
    var a, m, z := [TakerFill(t, f, left)], [MakerFill(w, f, Opposite(t.side), q)], Bbos(t.symbol, b);
    NoFillsIn(z, t.xid);
    FillsConcat(a + m, z, t.xid);
    FillsConcat(a, m, t.xid);
    assert FillsOf(a, t.xid) == a && OtherFills(a, t.xid) == [];
    assert FillsOf(m, t.xid) == [] && OtherFills(m, t.xid) == m;
  }

  /** What reporting one maker leaves for the makers after it. */
  lemma {:induction false} OthersKept(m: IdMaps, b: Book, fills: seq<Fill>, side: Side)
    requires fills != [] && DistinctMakers(fills) && forall i :: 0 <= i < |fills| ==> fills[i].maker in m.rev
    ensures var m1 := ReportMaker(m, b, fills[0], side).0;
            && forall i :: 0 <= i < |fills[1..]| ==>
                 fills[1..][i].maker in m1.rev && m1.rev[fills[1..][i].maker] == m.rev[fills[1..][i].maker]
    ensures DistinctMakers(fills[1..])
  {
  }

  /** A report says each trade exactly twice, once to each side, whatever is cleaned up on the
      way. */
  lemma {:induction false} ReportSays(m: IdMaps, b: Book, t: Taker, fills: seq<Fill>, qty: nat)
    requires DistinctMakers(fills) && SumFills(fills) <= qty < U32
    requires forall i :: 0 <= i < |fills| ==> fills[i].maker in m.rev && fills[i].maker != t.xid
    ensures FillsOf(Report(m, b, t, fills, qty).1, t.xid) == TakerFills(t, fills, qty)
    ensures OtherFills(Report(m, b, t, fills, qty).1, t.xid) == MakerFills(m.rev, b, Opposite(t.side), fills)
    decreases |fills|
  {
    if fills == [] {
      return;
    }
    var f, left := fills[0], qty - fills[0].qty;
    assert Sub32(qty, f.qty) == left;
    var (m1, made) := ReportMaker(m, b, f, t.side);
    OthersKept(m, b, fills, t.side);
    ReportSays(m1, b, t, fills[1..], left);
    var e := MakerFill(m.rev[f.maker], f, Opposite(t.side), BookQty(b, f.maker));
    assert made == [e];
    OneTrade(m.rev[f.maker], f, t, left, BookQty(b, f.maker), b);
    var rest := Report(m1, b, t, fills[1..], left).1;
    FillsConcat([TakerFill(t, f, left)] + [e] + Bbos(t.symbol, b), rest, t.xid);
    assert MakerFills(m.rev, b, Opposite(t.side), fills) == [e] + MakerFills(m1.rev, b, Opposite(t.side), fills[1..]);
  }

  /** The k-th trade as the taker hears of it; after the last one its remaining quantity is
      what was not filled. */
  lemma {:induction false} TakerFillsAt(t: Taker, fills: seq<Fill>, qty: nat, k: nat)
    requires k < |fills| && SumFills(fills) <= qty
    ensures |TakerFills(t, fills, qty)| == |fills| && SumFills(fills[..k + 1]) <= qty
    ensures TakerFills(t, fills, qty)[k] == TakerFill(t, fills[k], qty - SumFills(fills[..k + 1]))
    decreases |fills|
  {
    var left := qty - fills[0].qty;
    assert fills[..k + 1][1..] == fills[1..][..k];
    if |fills| == 1 {
      assert TakerFills(t, fills[1..], left) == [];
    } else if k == 0 {
      TakerFillsAt(t, fills[1..], left, 0);
      assert fills[1..][..0] == [];
    } else {
      TakerFillsAt(t, fills[1..], left, k - 1);
      assert fills[1..][..k] == fills[1..][..(k - 1) + 1];
    }
  }

  /** Each maker trades once, and what the report says it has left is what it had less the
      trade. */
  lemma {:induction false} MakerLeft(b: Book, id: nat, side: Side, price: int, qty: nat, accept: bool, k: nat)
    requires WellFormed(b) && 0 < qty < U32 && id !in BookIds(b)
    requires k < |Submit(b, id, side, price, qty, MAX_FILLS, accept).0.fills|
    ensures var (r, b') := Submit(b, id, side, price, qty, MAX_FILLS, accept);
            var x := r.fills[k].maker;
            x != id && BookQty(b', x) + r.fills[k].qty == BookQty(b, x)
  {
    var (r, b') := Submit(b, id, side, price, qty, MAX_FILLS, accept);
    var x := r.fills[k].maker;
    SubmitMakers(b, id, side, price, qty, MAX_FILLS, accept, k);
    SubmitAccounts(b, id, side, price, qty, MAX_FILLS, accept, x);
    FilledQtyAt(r.fills, k);
    UniqueSide(b, side);
    OwnSide(b, id, side, price, qty, accept, x);
    hide Submit;
    LadderQtyAbsent(b.Ladder(side), x);
    LadderQtyAbsent(b'.Ladder(side), x);
  }

  lemma {:induction false} DropIdQty(os: seq<Order>, x: nat, y: nat)
    requires x != y
    ensures QueueQty(DropId(os, x), y) == QueueQty(os, y)
  {
    if os != [] {
      DropIdQty(os[1..], x, y);
      assert os[0].id != x ==> DropId(os, x)[1..] == DropId(os[1..], x);
    }
  }

  lemma {:induction false} CancelQty(levels: seq<Level>, x: nat, y: nat)
    requires x != y
    ensures LadderQty(Cancel(levels, x), y) == LadderQty(levels, y)
  {
    if levels != [] {
      var os := DropId(levels[0].orders, x);
      DropIdQty(levels[0].orders, x, y);
      CancelQty(levels[1..], x, y);
      if os != [] {
        assert Cancel(levels, x)[1..] == Cancel(levels[1..], x);
      }
    }
  }

  /** The same for a modify, against the book before it: the old order trades with nobody, and what a
      maker has left is what it had less the trade. */
  lemma {:induction false} ModifyMakerLeft(b: Book, gone: nat, id: nat, side: Side, price: int, qty: nat, accept: bool, k: nat)
    requires WellFormed(b) && 0 < qty < U32 && id !in BookIds(b) && gone in BookIds(b)
    requires k < |Modify(b, gone, side, price, qty, id, MAX_FILLS, accept).0.fills|
    ensures var (r, b') := Modify(b, gone, side, price, qty, id, MAX_FILLS, accept);
            var x := r.fills[k].maker;
            x != id && x != gone && BookQty(b', x) + r.fills[k].qty == BookQty(b, x)
  {
    hide Submit, BookQty, CancelBook, WellFormed;
    CancelWellFormed(b, gone);
    var c := CancelBook(b, gone);
    MakerLeft(c, id, side, price, qty, accept, k);
    var x := Submit(c, id, side, price, qty, MAX_FILLS, accept).0.fills[k].maker;
    MakerRests(c, id, side, price, qty, accept, k);
    CancelBookQty(b, gone, x);
  }

  lemma {:induction false} MakerRests(b: Book, id: nat, side: Side, price: int, qty: nat, accept: bool, k: nat)
    requires WellFormed(b) && 0 < qty < U32 && id !in BookIds(b)
    requires k < |Submit(b, id, side, price, qty, MAX_FILLS, accept).0.fills|
    ensures Submit(b, id, side, price, qty, MAX_FILLS, accept).0.fills[k].maker in BookIds(b)
  {
    hide Submit;
    SubmitMakers(b, id, side, price, qty, MAX_FILLS, accept, k);
  }

  lemma {:induction false} CancelBookQty(b: Book, x: nat, y: nat)
    requires x != y
    ensures BookQty(CancelBook(b, x), y) == BookQty(b, y)
  {
    CancelQty(b.bids, x, y);
    CancelQty(b.asks, x, y);
  }

  /** Each maker has left what it had before less its trade. */
  ghost predicate Settled(before: Book, after: Book, fills: seq<Fill>) {
    forall k :: 0 <= k < |fills| ==> BookQty(after, fills[k].maker) + fills[k].qty == BookQty(before, fills[k].maker)
  }

  lemma {:induction false} SubmitSettles(b: Book, id: nat, side: Side, price: int, qty: nat, accept: bool)
    requires WellFormed(b) && qty < U32 && id !in BookIds(b)
    ensures var (r, b') := Submit(b, id, side, price, qty, MAX_FILLS, accept); Settled(b, b', r.fills)
  {
    var (r, b') := Submit(b, id, side, price, qty, MAX_FILLS, accept);
    assert r.fills != [] ==> qty > 0;
    hide Submit, BookQty;
    forall k | 0 <= k < |r.fills|
      ensures BookQty(b', r.fills[k].maker) + r.fills[k].qty == BookQty(b, r.fills[k].maker)
    {
      MakerLeft(b, id, side, price, qty, accept, k);
    }
  }

  lemma {:induction false} ModifySettles(b: Book, gone: nat, id: nat, side: Side, price: int, qty: nat, accept: bool)
    requires WellFormed(b) && qty < U32 && id !in BookIds(b) && gone in BookIds(b)
    ensures var (r, b') := Submit(CancelBook(b, gone), id, side, price, qty, MAX_FILLS, accept); Settled(b, b', r.fills)
  {
    var (r, b') := Submit(CancelBook(b, gone), id, side, price, qty, MAX_FILLS, accept);
    assert r.fills != [] ==> qty > 0;
    hide Submit, BookQty, CancelBook, BookIds;
    forall k | 0 <= k < |r.fills|
      ensures BookQty(b', r.fills[k].maker) + r.fills[k].qty == BookQty(b, r.fills[k].maker)
    {
      ModifyMakerLeft(b, gone, id, side, price, qty, accept, k);
    }
  }

  /** Everything a submission's events say of its trades: one taker fill and one maker fill per
      trade, no maker twice, quantities that add up. */
  lemma {:induction false} SubmitReport(c: Core, session: nat, q: NewOrder, o: Oracle)
    requires Linked(c) && q.qty < U32
    ensures var es := SubmitOrder(c, session, q, o).1;
            es[0].Accepted? ==>
              Listed(c, q.symbol) &&
              var xid, t := c.nextId, Taker(session, q.cid, c.nextId, q.symbol, q.side, q.ts);
              var (r, b) := Submit(c.books[q.symbol - 1], xid, q.side, q.price, q.qty, MAX_FILLS, o.rests);
              && DistinctMakers(r.fills) && SumFills(r.fills) + r.remaining == q.qty
              && (forall k :: 0 <= k < |r.fills| ==> r.fills[k].maker in c.ids.rev)
              && FillsOf(es, xid) == TakerFills(t, r.fills, q.qty)
              && OtherFills(es, xid) == MakerFills(c.ids.rev, b, Opposite(q.side), r.fills)
              && Settled(c.books[q.symbol - 1], b, r.fills)
  {
    hide Submit, Report, Coherent, Key, Settled;
    if q.cid >= CLIENT_IDS || !Listed(c, q.symbol) || Key(session, q.cid) in c.seen || !o.seen {
      return;
    }
    var xid, i := c.nextId, q.symbol - 1;
    var (r, b) := Submit(c.books[i], xid, q.side, q.price, q.qty, MAX_FILLS, o.rests);
    if !r.rested && r.fills == [] {
      return;
    }
    CoherentParts(c.ids, c.books, i, xid);
    TradesNamed(c, i, xid, q.side, q.price, q.qty, o.rests);
    SubmitSettles(c.books[i], xid, q.side, q.price, q.qty, o.rests);
    var t := Taker(session, q.cid, xid, q.symbol, q.side, q.ts);
    ReportSays(c.ids, b, t, r.fills, q.qty);
    var ack, trades := [Accepted(session, q.cid, xid, q.symbol, q.ts)], Report(c.ids, b, t, r.fills, q.qty).1;
    FillsConcat(ack, trades, xid);
    NoFillsIn(ack, xid);
  }

  lemma {:induction false} TradesNamed(c: Core, i: nat, xid: nat, side: Side, price: int, qty: nat, accept: bool)
    requires Coherent(c.ids, c.books) && i < |c.books| && xid !in c.ids.rev && qty < U32
    requires WellFormed(c.books[i]) && xid !in BookIds(c.books[i])
    requires var r := Submit(c.books[i], xid, side, price, qty, MAX_FILLS, accept).0; r.rested || r.fills != []
    ensures var r := Submit(c.books[i], xid, side, price, qty, MAX_FILLS, accept).0;
            && qty > 0 && DistinctMakers(r.fills) && SumFills(r.fills) + r.remaining == qty
            && (forall k :: 0 <= k < |r.fills| ==> r.fills[k].maker in c.ids.rev && r.fills[k].maker != xid)
  {
    var r := Submit(c.books[i], xid, side, price, qty, MAX_FILLS, accept).0;
    assert qty > 0;
    hide Submit;
    SubmitAccounts(c.books[i], xid, side, price, qty, MAX_FILLS, accept, 0);
    forall k | 0 <= k < |r.fills|
      ensures r.fills[k].maker in c.ids.rev && r.fills[k].maker != xid
    {
      SubmitMakers(c.books[i], xid, side, price, qty, MAX_FILLS, accept, k);
      assert RestsAt(c.books, i, Opposite(side), r.fills[k].maker);
    }
  }

  lemma {:induction false} SameOwners(rev: map<nat, Owner>, rev': map<nat, Owner>, b: Book, side: Side, fills: seq<Fill>)
    requires forall i :: 0 <= i < |fills| ==>
               fills[i].maker in rev && fills[i].maker in rev' && rev'[fills[i].maker] == rev[fills[i].maker]
    ensures MakerFills(rev', b, side, fills) == MakerFills(rev, b, side, fills)
  {
  }

  /** The id maps when the trades of a modify are reported. */
  ghost function MapsToReport(c: Core, session: nat, q: ModifyRequest, o: Oracle, rested: bool): IdMaps
    requires Key(session, q.cid) in c.ids.fwd
  {
    var e := c.ids.fwd[Key(session, q.cid)];
    var m := IdMaps(c.ids.fwd - {Key(session, q.cid)}, c.ids.rev - {e.xid});
    if rested then Enter(m, c.nextId, e.side, Owner(session, q.cid, e.symbol, q.ts), o) else m
  }

  lemma {:induction false} ModifyAnswers(c: Core, session: nat, q: ModifyRequest, o: Oracle)
    ensures !Modifiable(c, session, q) ==> !ModifyOrder(c, session, q, o).1[0].ModifyAck?
    ensures Modifiable(c, session, q) ==>
              var e, xid := c.ids.fwd[Key(session, q.cid)], c.nextId;
              var (r, b) := Submit(CancelBook(c.books[q.symbol - 1], e.xid), xid, e.side, q.price, q.qty, MAX_FILLS, o.rests);
              ModifyOrder(c, session, q, o).1 ==
                [ModifyAck(session, q.cid, xid, q.symbol, q.ts)] +
                Report(MapsToReport(c, session, q, o, r.rested), b, Taker(session, q.cid, xid, q.symbol, e.side, q.ts), r.fills, q.qty).1
  {
    hide Submit, Report, Key, BookIds, CancelBook;
  }

  /** Unless it is for nothing, a modify trades like a submission to the book without the old
      order. */
  lemma {:induction false} ModifyTrades(c: Core, i: nat, x: nat, xid: nat, side: Side, price: int, qty: nat, accept: bool)
    requires Coherent(c.ids, c.books) && i < |c.books| && x in BookIds(c.books[i]) && xid !in c.ids.rev && qty < U32
    ensures var r := Submit(CancelBook(c.books[i], x), xid, side, price, qty, MAX_FILLS, accept).0;
            && DistinctMakers(r.fills) && SumFills(r.fills) + r.remaining == qty
            && (forall k :: 0 <= k < |r.fills| ==>
                  r.fills[k].maker in c.ids.rev && r.fills[k].maker != xid && r.fills[k].maker != x)
  {
    var c1 := c.(ids := Clean(c.ids, {x}), books := c.books[i := CancelBook(c.books[i], x)]);
    var r := Submit(c1.books[i], xid, side, price, qty, MAX_FILLS, accept).0;
    CancelCoherent(c.ids, c.books, i, x);
    CoherentParts(c1.ids, c1.books, i, xid);
    if qty == 0 {
      assert SumFills([]) == 0;
      return;
    }
    SubmitAccounts(c1.books[i], xid, side, price, qty, MAX_FILLS, accept, 0);
    if r.fills != [] {
      TradesNamed(c1, i, xid, side, price, qty, accept);
    }
  }

  lemma {:induction false} ModifyReport(c: Core, session: nat, q: ModifyRequest, o: Oracle)
    requires Linked(c) && q.qty < U32
    ensures var es := ModifyOrder(c, session, q, o).1;
            es[0].ModifyAck? ==>
              Listed(c, q.symbol) && Key(session, q.cid) in c.ids.fwd &&
              var e, xid := c.ids.fwd[Key(session, q.cid)], c.nextId;
              var t := Taker(session, q.cid, xid, q.symbol, e.side, q.ts);
              var (r, b) := Submit(CancelBook(c.books[q.symbol - 1], e.xid), xid, e.side, q.price, q.qty, MAX_FILLS, o.rests);
              && DistinctMakers(r.fills) && SumFills(r.fills) + r.remaining == q.qty
              && (forall k :: 0 <= k < |r.fills| ==> r.fills[k].maker in c.ids.rev)
              && FillsOf(es, xid) == TakerFills(t, r.fills, q.qty)
              && OtherFills(es, xid) == MakerFills(c.ids.rev, b, Opposite(e.side), r.fills)
              && Settled(c.books[q.symbol - 1], b, r.fills)
  {
    ModifyAnswers(c, session, q, o);
    hide ModifyOrder, Submit, Report, Coherent, Key, BookIds, CancelBook, Settled;
    if !Modifiable(c, session, q) {
      return;
    }
    var e, xid, i := c.ids.fwd[Key(session, q.cid)], c.nextId, q.symbol - 1;
    var (r, b) := Submit(CancelBook(c.books[i], e.xid), xid, e.side, q.price, q.qty, MAX_FILLS, o.rests);
    ModifyTrades(c, i, e.xid, xid, e.side, q.price, q.qty, o.rests);
    CoherentParts(c.ids, c.books, i, xid);
    ModifySettles(c.books[i], e.xid, xid, e.side, q.price, q.qty, o.rests);
    var t := Taker(session, q.cid, xid, q.symbol, e.side, q.ts);
    var m1 := MapsToReport(c, session, q, o, r.rested);
    ReportSays(m1, b, t, r.fills, q.qty);
    SameOwners(c.ids.rev, m1.rev, b, Opposite(e.side), r.fills);
    var ack := [ModifyAck(session, q.cid, xid, q.symbol, q.ts)];
    FillsConcat(ack, Report(m1, b, t, r.fills, q.qty).1, xid);
    NoFillsIn(ack, xid);
  }
}
