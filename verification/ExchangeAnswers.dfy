/** What the events of a request say, field by field, and when each answer is given. */
module ExchangeAnswers {
  import opened Machine
  import opened Books
  import opened Ladders
  import opened Matching
  import opened Quantities
  import opened Accounting
  import opened Exchange
  import opened ExchangeIds
  import opened ExchangeRuns
  import opened ExchangeReports

  // ---------------------------------------------------------------------------
  // Fills
  // ---------------------------------------------------------------------------

  /** A fill event of trade f, to this client, about this order of theirs. */
  ghost predicate Tells(e: Event, session: nat, cid: nat, xid: nat, symbol: nat, side: Side, ts: int, f: Fill, left: int) {
    && e.Filled? && e.session == session && e.cid == cid && e.xid == xid && e.symbol == symbol && e.side == side
    && e.price == f.price && e.qty == f.qty && e.remaining == left && e.ts == ts
  }

  /** The taker's fills: every trade in turn, each with what is then left of qty. */
  ghost predicate TellsTaker(es: seq<Event>, session: nat, cid: nat, xid: nat, symbol: nat, side: Side, ts: int,
                             fills: seq<Fill>, qty: nat)
  {
    && |es| == |fills|
    && forall k :: 0 <= k < |fills| ==>
         Tells(es[k], session, cid, xid, symbol, side, ts, fills[k], qty - SumFills(fills[..k + 1]))
  }

  /** The makers' fills: every trade in turn, to the owner of the order that rested, with what the
      book still holds of it. */
  ghost predicate TellsMakers(es: seq<Event>, rev: map<nat, Owner>, b: Book, side: Side, fills: seq<Fill>) {
    && |es| == |fills|
    && forall k :: 0 <= k < |fills| ==>
         var x := fills[k].maker;
         && x in rev
         && Tells(es[k], rev[x].session, rev[x].cid, x, rev[x].symbol, side, rev[x].ts, fills[k], BookQty(b, x))
  }

  /** Quantity of a list of fill events. */
  function Told(es: seq<Event>): nat {
    if es == [] then 0 else (if es[0].Filled? then es[0].qty else 0) + Told(es[1..])
  }

  lemma {:induction false} ToldFills(es: seq<Event>, fills: seq<Fill>)
    requires |es| == |fills| && forall k :: 0 <= k < |fills| ==> es[k].Filled? && es[k].qty == fills[k].qty
    ensures Told(es) == SumFills(fills)
  {
    if es != [] {
      ToldFills(es[1..], fills[1..]);
    }
  }

  lemma {:induction false} TakerTold(t: Taker, fills: seq<Fill>, qty: nat)
    requires SumFills(fills) <= qty
    ensures TellsTaker(TakerFills(t, fills, qty), t.session, t.cid, t.xid, t.symbol, t.side, t.ts, fills, qty)
    ensures Told(TakerFills(t, fills, qty)) == SumFills(fills)
  {
    var es := TakerFills(t, fills, qty);
    if fills != [] {
      TakerFillsAt(t, fills, qty, 0);
    }
    forall k | 0 <= k < |fills|
      ensures Tells(es[k], t.session, t.cid, t.xid, t.symbol, t.side, t.ts, fills[k], qty - SumFills(fills[..k + 1]))
    {
      TakerFillsAt(t, fills, qty, k);
    }
    hide TakerFills;
    ToldFills(es, fills);
  }

  lemma {:induction false} MakersTold(rev: map<nat, Owner>, b: Book, side: Side, fills: seq<Fill>)
    requires forall i :: 0 <= i < |fills| ==> fills[i].maker in rev
    ensures TellsMakers(MakerFills(rev, b, side, fills), rev, b, side, fills)
    ensures Told(MakerFills(rev, b, side, fills)) == SumFills(fills)
  {
    hide BookQty;
    ToldFills(MakerFills(rev, b, side, fills), fills);
  }

  lemma {:induction false} SubmitBook(c: Core, session: nat, q: NewOrder, o: Oracle)
    requires SubmitOrder(c, session, q, o).1[0].Accepted?
    ensures Listed(c, q.symbol)
    ensures var c', b := SubmitOrder(c, session, q, o).0, Submit(c.books[q.symbol - 1], c.nextId, q.side, q.price, q.qty, MAX_FILLS, o.rests).1;
            |c'.books| == |c.books| && c'.books[q.symbol - 1] == b
  {
    hide Submit, Report, Key, Enter;
  }

  lemma {:induction false} ModifyBook(c: Core, session: nat, q: ModifyRequest, o: Oracle)
    requires ModifyOrder(c, session, q, o).1[0].ModifyAck?
    ensures Listed(c, q.symbol) && Key(session, q.cid) in c.ids.fwd
    ensures var c', e := ModifyOrder(c, session, q, o).0, c.ids.fwd[Key(session, q.cid)];
            var b := Submit(CancelBook(c.books[q.symbol - 1], e.xid), c.nextId, e.side, q.price, q.qty, MAX_FILLS, o.rests).1;
            |c'.books| == |c.books| && c'.books[q.symbol - 1] == b
  {
    hide Submit, Report, Key, Enter, BookIds, CancelBook;
  }

  /** An accepted order: its own fills and those of the orders it met, by the fields of the events,
      against the book it leaves behind. Both sides hear of the same quantity, which is what is
      filled. */
  lemma {:induction false} SubmitTells(c: Core, session: nat, q: NewOrder, o: Oracle)
    requires Linked(c) && q.qty < U32
    ensures var (c', es) := SubmitOrder(c, session, q, o);
            es[0].Accepted? ==>
              && Listed(c, q.symbol) && |c'.books| == |c.books|
              && var r := Submit(c.books[q.symbol - 1], c.nextId, q.side, q.price, q.qty, MAX_FILLS, o.rests).0;
                 && TellsTaker(FillsOf(es, c.nextId), session, q.cid, c.nextId, q.symbol, q.side, q.ts, r.fills, q.qty)
                 && TellsMakers(OtherFills(es, c.nextId), c.ids.rev, c'.books[q.symbol - 1],
                                if q.side.Bid? then Ask else Bid, r.fills)
                 && Told(FillsOf(es, c.nextId)) == Told(OtherFills(es, c.nextId)) == q.qty - r.remaining
  {
    var es := SubmitOrder(c, session, q, o).1;
    assert es != [];
    hide SubmitOrder, Submit, Linked, Settled, FillsOf, OtherFills, TakerFills, MakerFills, TellsTaker, TellsMakers, Told, SumFills;
    if es[0].Accepted? {
      SubmitReport(c, session, q, o);
      SubmitBook(c, session, q, o);
      var (r, b) := Submit(c.books[q.symbol - 1], c.nextId, q.side, q.price, q.qty, MAX_FILLS, o.rests);
      TakerTold(Taker(session, q.cid, c.nextId, q.symbol, q.side, q.ts), r.fills, q.qty);
      MakersTold(c.ids.rev, b, Opposite(q.side), r.fills);
    }
  }

  /** The same of an acknowledged modify, under its new exchange id. */
  lemma {:induction false} ModifyTells(c: Core, session: nat, q: ModifyRequest, o: Oracle)
    requires Linked(c) && q.qty < U32
    ensures var (c', es) := ModifyOrder(c, session, q, o);
            es[0].ModifyAck? ==>
              && Listed(c, q.symbol) && Key(session, q.cid) in c.ids.fwd && |c'.books| == |c.books|
              && var e := c.ids.fwd[Key(session, q.cid)];
                 var r := Submit(CancelBook(c.books[q.symbol - 1], e.xid), c.nextId, e.side, q.price, q.qty, MAX_FILLS, o.rests).0;
                 && TellsTaker(FillsOf(es, c.nextId), session, q.cid, c.nextId, q.symbol, e.side, q.ts, r.fills, q.qty)
                 && TellsMakers(OtherFills(es, c.nextId), c.ids.rev, c'.books[q.symbol - 1],
                                if e.side.Bid? then Ask else Bid, r.fills)
                 && Told(FillsOf(es, c.nextId)) == Told(OtherFills(es, c.nextId)) == q.qty - r.remaining
  {
    var es := ModifyOrder(c, session, q, o).1;
    assert es != [];
    hide ModifyOrder, Submit, CancelBook, Key, Linked, Settled, FillsOf, OtherFills, TakerFills, MakerFills, TellsTaker, TellsMakers, Told,
         SumFills;
    if es[0].ModifyAck? {
      ModifyReport(c, session, q, o);
      ModifyBook(c, session, q, o);
      var e := c.ids.fwd[Key(session, q.cid)];
      var (r, b) := Submit(CancelBook(c.books[q.symbol - 1], e.xid), c.nextId, e.side, q.price, q.qty, MAX_FILLS, o.rests);
      TakerTold(Taker(session, q.cid, c.nextId, q.symbol, e.side, q.ts), r.fills, q.qty);
      MakersTold(c.ids.rev, b, Opposite(e.side), r.fills);
    }
  }

  // ---------------------------------------------------------------------------
  // Best prices
  // ---------------------------------------------------------------------------

  /** Events of one trade: two fills, and the best price of each side that is not empty. */
  function PerTrade(b: Book): nat {
    2 + (if b.bids == [] then 0 else 1) + (if b.asks == [] then 0 else 1)
  }

  /** Of one trade: the taker's fill, the maker's, then for each side of the book that is not empty
      its first price and the total quantity there. */
  ghost predicate OneTradeTold(es: seq<Event>, b: Book, symbol: nat, xid: nat, maker: nat) {
    && |es| == PerTrade(b)
    && es[0].Filled? && es[0].xid == xid
    && es[1].Filled? && es[1].xid == maker
    && (b.bids != [] ==>
          es[2].Bbo? && es[2].symbol == symbol && es[2].side == Bid && es[2].price == b.bids[0].price &&
          es[2].qty == SumQty(b.bids[0].orders) % 0x1_0000_0000)
    && (b.asks != [] ==>
          var z := es[|es| - 1];
          z.Bbo? && z.symbol == symbol && z.side == Ask && z.price == b.asks[0].price &&
          z.qty == SumQty(b.asks[0].orders) % 0x1_0000_0000)
  }

  /** One trade after the other and nothing else. */
  ghost predicate TradesTold(es: seq<Event>, b: Book, symbol: nat, xid: nat, fills: seq<Fill>)
    decreases |fills|
  {
    if fills == [] then es == []
    else
      var w := PerTrade(b);
      w <= |es| && OneTradeTold(es[..w], b, symbol, xid, fills[0].maker) && TradesTold(es[w..], b, symbol, xid, fills[1..])
  }

  lemma {:induction false} ReportTold(m: IdMaps, b: Book, t: Taker, fills: seq<Fill>, qty: nat)
    requires DistinctMakers(fills) && forall i :: 0 <= i < |fills| ==> fills[i].maker in m.rev
    ensures TradesTold(Report(m, b, t, fills, qty).1, b, t.symbol, t.xid, fills)
    decreases |fills|
  {
    if fills == [] {
      return;
    }
    var f, left, w := fills[0], Sub32(qty, fills[0].qty), PerTrade(b);
    var (m1, made) := ReportMaker(m, b, f, t.side);
    var rest := Report(m1, b, t, fills[1..], left).1;
    var head := [TakerFill(t, f, left)] + made + Bbos(t.symbol, b);
    var es := Report(m, b, t, fills, qty).1;
    assert es == head + rest;
    assert OneTradeTold(head, b, t.symbol, t.xid, f.maker);
    OthersKept(m, b, fills, t.side);
    hide ReportMaker, Bbos, Report, OneTradeTold;
    ReportTold(m1, b, t, fills[1..], left);
    assert es[..w] == head && es[w..] == rest;
  }

  /** After the acceptance come the trades one after the other and nothing else, each with the best
      prices of the book the order leaves behind. */
  lemma {:induction false} SubmitQuotes(c: Core, session: nat, q: NewOrder, o: Oracle)
    requires Linked(c) && q.qty < U32
    ensures var (c', es) := SubmitOrder(c, session, q, o);
            es[0].Accepted? ==>
              && Listed(c, q.symbol) && |c'.books| == |c.books|
              && var r := Submit(c.books[q.symbol - 1], c.nextId, q.side, q.price, q.qty, MAX_FILLS, o.rests).0;
                 TradesTold(es[1..], c'.books[q.symbol - 1], q.symbol, c.nextId, r.fills)
  {
    var es := SubmitOrder(c, session, q, o).1;
    assert es != [];
    if es[0].Accepted? {
      SubmitReport(c, session, q, o);
      SubmitBook(c, session, q, o);
      SubmitEventsAre(c, session, q, o);
      hide SubmitOrder, Submit, Linked, Report, FillsOf, OtherFills, Settled, TradesTold;
      var (r, b) := Submit(c.books[q.symbol - 1], c.nextId, q.side, q.price, q.qty, MAX_FILLS, o.rests);
      ReportTold(c.ids, b, Taker(session, q.cid, c.nextId, q.symbol, q.side, q.ts), r.fills, q.qty);
    }
  }

  lemma {:induction false} SubmitEventsAre(c: Core, session: nat, q: NewOrder, o: Oracle)
    requires SubmitOrder(c, session, q, o).1[0].Accepted?
    ensures Listed(c, q.symbol)
    ensures var es := SubmitOrder(c, session, q, o).1;
            var (r, b) := Submit(c.books[q.symbol - 1], c.nextId, q.side, q.price, q.qty, MAX_FILLS, o.rests);
            es[1..] == Report(c.ids, b, Taker(session, q.cid, c.nextId, q.symbol, q.side, q.ts), r.fills, q.qty).1
  {
    hide Submit, Report, Key, Enter;
  }

  /** The same after the acknowledgement of a modify. */
  lemma {:induction false} ModifyQuotes(c: Core, session: nat, q: ModifyRequest, o: Oracle)
    requires Linked(c) && q.qty < U32
    ensures var (c', es) := ModifyOrder(c, session, q, o);
            es[0].ModifyAck? ==>
              && Listed(c, q.symbol) && Key(session, q.cid) in c.ids.fwd && |c'.books| == |c.books|
              && var e := c.ids.fwd[Key(session, q.cid)];
                 var r := Submit(CancelBook(c.books[q.symbol - 1], e.xid), c.nextId, e.side, q.price, q.qty, MAX_FILLS, o.rests).0;
                 TradesTold(es[1..], c'.books[q.symbol - 1], q.symbol, c.nextId, r.fills)
  {
    var es := ModifyOrder(c, session, q, o).1;
    assert es != [];
    if es[0].ModifyAck? {
      ModifyAnswers(c, session, q, o);
      hide ModifyOrder, Submit, CancelBook, Linked, Key, BookIds, Report, TradesTold, MapsToReport;
      ModifyBook(c, session, q, o);
      ModifyReportTold(c, session, q, o);
      var e := c.ids.fwd[Key(session, q.cid)];
      var (r, b) := Submit(CancelBook(c.books[q.symbol - 1], e.xid), c.nextId, e.side, q.price, q.qty, MAX_FILLS, o.rests);
      var t := Taker(session, q.cid, c.nextId, q.symbol, e.side, q.ts);
      assert es[1..] == Report(MapsToReport(c, session, q, o, r.rested), b, t, r.fills, q.qty).1;
    }
  }

  lemma {:induction false} ModifyReportTold(c: Core, session: nat, q: ModifyRequest, o: Oracle)
    requires Linked(c) && q.qty < U32 && Modifiable(c, session, q)
    ensures var e := c.ids.fwd[Key(session, q.cid)];
            var (r, b) := Submit(CancelBook(c.books[q.symbol - 1], e.xid), c.nextId, e.side, q.price, q.qty, MAX_FILLS, o.rests);
            var t := Taker(session, q.cid, c.nextId, q.symbol, e.side, q.ts);
            TradesTold(Report(MapsToReport(c, session, q, o, r.rested), b, t, r.fills, q.qty).1, b, q.symbol, c.nextId, r.fills)
  {
    hide Submit, CancelBook, Linked, Coherent, Key, BookIds, Report, TradesTold;
    var e, i := c.ids.fwd[Key(session, q.cid)], q.symbol - 1;
    var (r, b) := Submit(CancelBook(c.books[i], e.xid), c.nextId, e.side, q.price, q.qty, MAX_FILLS, o.rests);
    LinkedCoherent(c);
    ModifyTrades(c, i, e.xid, c.nextId, e.side, q.price, q.qty, o.rests);
    var m1 := MapsToReport(c, session, q, o, r.rested);
    ReportTold(m1, b, Taker(session, q.cid, c.nextId, q.symbol, e.side, q.ts), r.fills, q.qty);
  }

  lemma {:induction false} LinkedCoherent(c: Core)
    requires Linked(c)
    ensures Coherent(c.ids, c.books) && c.nextId !in c.ids.rev
  {
  }

  // ---------------------------------------------------------------------------
  // Answers
  // ---------------------------------------------------------------------------

  /** Nothing of the core changes but the id maps and one book. */
  ghost predicate Elsewhere(c: Core, d: Core, i: nat) {
    && |d.books| == |c.books| && (forall j :: 0 <= j < |c.books| && j != i ==> d.books[j] == c.books[j])
    && d.live == c.live && d.sessions == c.sessions && d.nextSession == c.nextSession
  }

  /** Order x leaves book b and nothing else does. */
  ghost predicate Leaves(b: Book, b': Book, x: nat) {
    BookIds(b') == BookIds(b)[x := 0] && forall y :: y != x ==> BookQty(b', y) == BookQty(b, y)
  }

  /** The entries of one client id and one order go, all others stay as they are. */
  ghost predicate Forgets(m: IdMaps, m': IdMaps, key: nat, x: nat) {
    && m'.fwd.Keys == m.fwd.Keys - {key} && (forall k :: k in m'.fwd ==> m'.fwd[k] == m.fwd[k])
    && m'.rev.Keys == m.rev.Keys - {x} && (forall y :: y in m'.rev ==> m'.rev[y] == m.rev[y])
  }

  /** The one answer to a cancel, with its reason, and what an acknowledged one takes away: the
      order and its two map entries, nothing else. */
  ghost predicate CancelAnswered(c: Core, c': Core, es: seq<Event>, session: nat, cid: nat, symbol: nat, ts: int) {
    var named := cid < 0x1_0000_0000_0000;
    var listed := 0 < symbol <= |c.books| == |c.live| && c.live[symbol - 1];
    var key := session * 0x1_0000_0000_0000 + cid;
    && |es| == 1 && (es[0].CancelAck? || es[0].CancelRejected?)
    && es[0].session == session && es[0].cid == cid && es[0].ts == ts
    && (es[0].CancelAck? <==>
          named && listed && key in c.ids.fwd && c.ids.fwd[key].xid in BookIds(c.books[symbol - 1]))
    && (es[0].CancelRejected? ==>
          && c' == c
          && es[0].reason == if !named then InvalidOrderId else if !listed then UnknownSymbol else OrderNotFound)
    && (es[0].CancelAck? ==>
          var x, i := c.ids.fwd[key].xid, symbol - 1;
          && Elsewhere(c, c', i) && c'.nextId == c.nextId && c'.seen == c.seen
          && Leaves(c.books[i], c'.books[i], x) && Forgets(c.ids, c'.ids, key, x))
  }

  lemma {:induction false} CancelAnswers(c: Core, session: nat, cid: nat, symbol: nat, ts: int)
    ensures var (c', es) := CancelOrder(c, session, cid, symbol, ts); CancelAnswered(c, c', es, session, cid, symbol, ts)
  {
    hide BookIds, BookQty, CancelBook;
    assert Key(session, cid) == session * 0x1_0000_0000_0000 + cid;
    if CancelOrder(c, session, cid, symbol, ts).1[0].CancelAck? {
      var x, b := c.ids.fwd[Key(session, cid)].xid, c.books[symbol - 1];
      CancelledIds(b, x);
      forall y | y != x
        ensures BookQty(CancelBook(b, x), y) == BookQty(b, y)
      {
        CancelBookQty(b, x, y);
      }
    }
  }

  lemma {:induction false} CancelledIds(b: Book, x: nat)
    ensures BookIds(CancelBook(b, x)) == BookIds(b)[x := 0]
  {
    CancelIds(b.bids, x);
    CancelIds(b.asks, x);
  }

  lemma {:induction false} Untouched(b: Book, id: nat, side: Side, price: int, qty: nat, accept: bool)
    ensures var (r, b') := Submit(b, id, side, price, qty, MAX_FILLS, accept); !r.rested && r.fills == [] ==> b' == b
  {
    hide BookIds, FillFront, Rest;
  }

  /** What comes of matching: an order rests exactly when the result says so, and one that does
      nothing leaves the book alone. */
  lemma {:induction false} SubmitOutcome(b: Book, id: nat, side: Side, price: int, qty: nat, accept: bool)
    requires WellFormed(b) && qty < U32 && id !in BookIds(b)
    ensures var (r, b') := Submit(b, id, side, price, qty, MAX_FILLS, accept);
            && (r.rested <==> id in BookIds(b'))
            && (!r.rested && r.fills == [] ==> b' == b)
  {
    hide Submit, BookIds, WellFormed;
    SubmitWellFormed(b, id, side, price, qty, MAX_FILLS, accept);
    Untouched(b, id, side, price, qty, accept);
  }

  lemma {:induction false} ReportSome(m: IdMaps, b: Book, t: Taker, fills: seq<Fill>, qty: nat)
    requires fills != []
    ensures Report(m, b, t, fills, qty).1 != []
  {
  }

  /** The entries of a new order under these ids, as far as the maps take them. */
  ghost predicate Enters(m: IdMaps, key: nat, xid: nat, side: Side, w: Owner, o: Oracle) {
    && (o.fwd ==> key in m.fwd && m.fwd[key].xid == xid && m.fwd[key].side == side && m.fwd[key].symbol == w.symbol)
    && (o.rev ==> xid in m.rev && m.rev[xid] == w)
  }

  /** The first answer to an order: turned away before it reaches the book, without any effect; or
      matched and, if neither a trade nor a resting order comes of it, turned away after all. An
      order that comes to rest enters the id maps. */
  lemma {:induction false} SubmitAnswers(c: Core, session: nat, q: NewOrder, o: Oracle)
    requires Linked(c) && q.qty < U32
    ensures var (c', es) := SubmitOrder(c, session, q, o);
            var named := q.cid < 0x1_0000_0000_0000;
            var listed := 0 < q.symbol <= |c.books| == |c.live| && c.live[q.symbol - 1];
            var key := session * 0x1_0000_0000_0000 + q.cid;
            var matched := named && listed && key !in c.seen && o.seen;
            && es != [] && (es[0].Accepted? || es[0].Rejected?)
            && es[0].session == session && es[0].cid == q.cid && es[0].ts == q.ts
            && es[0].symbol == (if named then q.symbol else 0)
            && (es[0].Rejected? ==>
                  && |es| == 1 && c'.books == c.books && c'.ids == c.ids
                  && es[0].reason == if !named then InvalidOrderId else if !listed then UnknownSymbol
                                     else if key in c.seen then DuplicateOrderId else BookFull)
            && (!matched ==> es[0].Rejected? && c' == c)
            && (matched ==>
                  && c'.nextId == c.nextId + 1 && c'.seen == c.seen + {key} && Elsewhere(c, c', q.symbol - 1)
                  && var rests := c.nextId in BookIds(c'.books[q.symbol - 1]);
                     && (es[0].Accepted? <==> rests || |es| > 1)
                     && (es[0].Accepted? ==> es[0].xid == c.nextId)
                     && (rests ==> Enters(c'.ids, key, c.nextId, q.side, Owner(session, q.cid, q.symbol, q.ts), o)))
  {
    hide Submit, Report, BookIds, Coherent;
    assert Key(session, q.cid) == session * 0x1_0000_0000_0000 + q.cid;
    if q.cid < CLIENT_IDS && Listed(c, q.symbol) && Key(session, q.cid) !in c.seen && o.seen {
      var i := q.symbol - 1;
      CoherentParts(c.ids, c.books, i, c.nextId);
      SubmitOutcome(c.books[i], c.nextId, q.side, q.price, q.qty, o.rests);
      var (r, b) := Submit(c.books[i], c.nextId, q.side, q.price, q.qty, MAX_FILLS, o.rests);
      if r.fills != [] {
        ReportSome(c.ids, b, Taker(session, q.cid, c.nextId, q.symbol, q.side, q.ts), r.fills, q.qty);
      }
    }
  }

  lemma {:induction false} ReportSpares(m: IdMaps, b: Book, t: Taker, fills: seq<Fill>, qty: nat, x: nat, key: nat)
    requires forall i :: 0 <= i < |fills| ==> fills[i].maker != x
    requires forall y :: y in m.rev && y != x ==> KeyOf(m.rev[y]) != key
    ensures var m' := Report(m, b, t, fills, qty).0;
            && (x in m.rev ==> x in m'.rev && m'.rev[x] == m.rev[x])
            && (key in m.fwd ==> key in m'.fwd && m'.fwd[key] == m.fwd[key])
    decreases |fills|
  {
    hide KeyOf, BookIds;
    if fills != [] {
      var m1 := ReportMaker(m, b, fills[0], t.side).0;
      ReportSpares(m1, b, t, fills[1..], Sub32(qty, fills[0].qty), x, key);
    }
  }

  /** The first answer to a modify, with its reason. A refused one changes nothing, except that one
      of an order the maps still know uses up an exchange id; an acknowledged one has a new id. */
  lemma {:induction false} ModifyAnswered(c: Core, session: nat, q: ModifyRequest, o: Oracle)
    ensures var (c', es) := ModifyOrder(c, session, q, o);
            var named := q.cid < 0x1_0000_0000_0000;
            var listed := 0 < q.symbol <= |c.books| == |c.live| && c.live[q.symbol - 1];
            var key := session * 0x1_0000_0000_0000 + q.cid;
            var known := named && listed && key in c.ids.fwd;
            && es != [] && (es[0].ModifyAck? || es[0].ModifyRejected?)
            && es[0].session == session && es[0].cid == q.cid && es[0].ts == q.ts
            && (es[0].ModifyAck? <==> known && c.ids.fwd[key].xid in BookIds(c.books[q.symbol - 1]))
            && (es[0].ModifyRejected? ==>
                  && |es| == 1 && c' == c.(nextId := if known then c.nextId + 1 else c.nextId)
                  && es[0].reason == if !named then InvalidOrderId else if !listed then UnknownSymbol else OrderNotFound)
            && (es[0].ModifyAck? ==>
                  && es[0].xid == c.nextId && es[0].symbol == q.symbol
                  && c'.nextId == c.nextId + 1 && c'.seen == c.seen && Elsewhere(c, c', q.symbol - 1))
  {
    hide Submit, Report, BookIds, CancelBook, Enter;
    assert Key(session, q.cid) == session * 0x1_0000_0000_0000 + q.cid;
  }

  lemma {:induction false} ModifyState(c: Core, session: nat, q: ModifyRequest, o: Oracle)
    requires Modifiable(c, session, q)
    ensures var c', e := ModifyOrder(c, session, q, o).0, c.ids.fwd[Key(session, q.cid)];
            var (r, b) := Submit(CancelBook(c.books[q.symbol - 1], e.xid), c.nextId, e.side, q.price, q.qty, MAX_FILLS, o.rests);
            && c'.books == c.books[q.symbol - 1 := b]
            && c'.ids == Report(MapsToReport(c, session, q, o, r.rested), b,
                                Taker(session, q.cid, c.nextId, q.symbol, e.side, q.ts), r.fills, q.qty).0
  {
    hide Submit, Report, Key, BookIds, CancelBook;
  }

  lemma {:induction false} ReplacedGone(b: Book, gone: nat, id: nat, side: Side, price: int, qty: nat, accept: bool)
    requires WellFormed(b) && qty < U32 && id !in BookIds(b) && gone != id
    ensures var (r, b') := Submit(CancelBook(b, gone), id, side, price, qty, MAX_FILLS, accept);
            gone !in BookIds(b') && (r.rested <==> id in BookIds(b'))
  {
    hide Submit;
    CancelWellFormed(b, gone);
    CancelledIds(b, gone);
    hide BookIds, CancelBook, WellFormed;
    SubmitWellFormed(CancelBook(b, gone), id, side, price, qty, MAX_FILLS, accept);
    SubmitOutcome(CancelBook(b, gone), id, side, price, qty, accept);
  }

  lemma {:induction false} OnlyKey(m: IdMaps, key: nat, y: nat)
    requires Inverse(m) && key in m.fwd
    ensures m.fwd[key].xid in m.rev
    ensures y in m.rev && y != m.fwd[key].xid ==> KeyOf(m.rev[y]) != key
  {
  }

  lemma {:induction false} ReplacementEnters(c: Core, session: nat, q: ModifyRequest, o: Oracle, b: Book, t: Taker, fills: seq<Fill>)
    requires Inverse(c.ids) && Key(session, q.cid) in c.ids.fwd
    requires forall i :: 0 <= i < |fills| ==> fills[i].maker != c.nextId
    ensures var e := c.ids.fwd[Key(session, q.cid)];
            Enters(Report(MapsToReport(c, session, q, o, true), b, t, fills, q.qty).0, Key(session, q.cid), c.nextId, e.side,
                   Owner(session, q.cid, e.symbol, q.ts), o)
  {
    hide Report, Key, Inverse;
    var k, m1 := Key(session, q.cid), MapsToReport(c, session, q, o, true);
    forall y | y in m1.rev && y != c.nextId
      ensures KeyOf(m1.rev[y]) != k
    {
      OnlyKey(c.ids, k, y);
    }
    ReportSpares(m1, b, t, fills, q.qty, c.nextId, k);
  }

  lemma {:induction false} ReplacedUnmapped(c: Core, session: nat, q: ModifyRequest, o: Oracle, rested: bool, b: Book, t: Taker,
                                            fills: seq<Fill>)
    requires Key(session, q.cid) in c.ids.fwd && c.ids.fwd[Key(session, q.cid)].xid != c.nextId
    ensures c.ids.fwd[Key(session, q.cid)].xid !in Report(MapsToReport(c, session, q, o, rested), b, t, fills, q.qty).0.rev
  {
    hide Report, Key;
    ReportShrinks(MapsToReport(c, session, q, o, rested), b, t, fills, q.qty);
  }

  /** What a modify brings to rest enters the id maps under its old client id; the order it
      replaces is in neither the book nor the reverse map any more. */
  lemma {:induction false} ModifyEnters(c: Core, session: nat, q: ModifyRequest, o: Oracle)
    requires Linked(c) && q.qty < U32 && Modifiable(c, session, q)
    ensures var c', e := ModifyOrder(c, session, q, o).0, c.ids.fwd[Key(session, q.cid)];
            && |c'.books| == |c.books| && e.xid !in BookIds(c'.books[q.symbol - 1]) && e.xid !in c'.ids.rev
            && (c.nextId in BookIds(c'.books[q.symbol - 1]) ==>
                  Enters(c'.ids, Key(session, q.cid), c.nextId, e.side, Owner(session, q.cid, e.symbol, q.ts), o))
  {
    ModifyState(c, session, q, o);
    LinkedCoherent(c);
    hide ModifyOrder, Submit, Report, Linked, Coherent, BookIds, CancelBook, Key, Inverse, WellFormed, MapsToReport, Enters;
    var k, xid, i := Key(session, q.cid), c.nextId, q.symbol - 1;
    var e := c.ids.fwd[k];
    CoherentParts(c.ids, c.books, i, xid);
    OnlyKey(c.ids, k, xid);
    ReplacedGone(c.books[i], e.xid, xid, e.side, q.price, q.qty, o.rests);
    var (r, b) := Submit(CancelBook(c.books[i], e.xid), xid, e.side, q.price, q.qty, MAX_FILLS, o.rests);
    var t := Taker(session, q.cid, xid, q.symbol, e.side, q.ts);
    ReplacedUnmapped(c, session, q, o, r.rested, b, t, r.fills);
    if r.rested {
      ModifyTrades(c, i, e.xid, xid, e.side, q.price, q.qty, o.rests);
      ReplacementEnters(c, session, q, o, b, t, r.fills);
    }
  }
}
