/** The exchange core as values: sessions, client order ids, the two id maps, one book per
    symbol, and the events each request emits. */
module Exchange {
  import opened Machine
  import opened Books
  import opened Ladders
  import opened Matching
  import opened Quantities
  import opened Accounting

  const MAX_FILLS := 64
  const CLIENT_IDS := 0x1_0000_0000_0000

  /** Sixteen bits of session above forty-eight bits of client order id. */
  function Key(session: nat, cid: nat): nat {
    session * CLIENT_IDS + cid
  }

  function SessionOf(key: nat): nat {
    key / CLIENT_IDS % U16
  }

  lemma {:induction false} KeyParts(session: nat, cid: nat)
    requires session < U16 && cid < CLIENT_IDS
    ensures SessionOf(Key(session, cid)) == session && Key(session, cid) % CLIENT_IDS == cid && Key(session, cid) < U64
  {
  }

  datatype IdEntry = IdEntry(xid: nat, side: Side, symbol: nat)

  datatype Owner = Owner(session: nat, cid: nat, symbol: nat, ts: int)

  function KeyOf(w: Owner): nat {
    Key(w.session, w.cid)
  }

  datatype Reason = InvalidOrderId | UnknownSymbol | DuplicateOrderId | BookFull | OrderNotFound

  datatype Event =
    | Accepted(session: nat, cid: nat, xid: nat, symbol: nat, ts: int)
    | Rejected(session: nat, cid: nat, symbol: nat, ts: int, reason: Reason)
    | CancelAck(session: nat, cid: nat, ts: int)
    | CancelRejected(session: nat, cid: nat, ts: int, reason: Reason)
    | ModifyAck(session: nat, cid: nat, xid: nat, symbol: nat, ts: int)
    | ModifyRejected(session: nat, cid: nat, ts: int, reason: Reason)
    | Filled(session: nat, cid: nat, xid: nat, symbol: nat, side: Side, price: int, qty: nat, remaining: nat, ts: int)
    | Bbo(symbol: nat, side: Side, price: int, qty: nat)

  /** Client ids to resting orders and back. */
  datatype IdMaps = IdMaps(fwd: map<nat, IdEntry>, rev: map<nat, Owner>)

  datatype Core = Core(books: seq<Book>, live: seq<bool>, nextId: nat, sessions: set<nat>, nextSession: nat,
                       seen: set<nat>, ids: IdMaps)

  predicate Listed(c: Core, symbol: nat) {
    0 < symbol <= |c.books| == |c.live| && c.live[symbol - 1]
  }

  // ---------------------------------------------------------------------------
  // Reporting trades
  // ---------------------------------------------------------------------------

  /** Who takes: the session and client id of the request and the id it trades under. */
  datatype Taker = Taker(session: nat, cid: nat, xid: nat, symbol: nat, side: Side, ts: int)

  function BestOf(symbol: nat, side: Side, levels: seq<Level>): seq<Event> {
    if levels == [] then [] else [Bbo(symbol, side, levels[0].price, SumQty(levels[0].orders) % U32)]
  }

  function Bbos(symbol: nat, b: Book): seq<Event> {
    BestOf(symbol, Bid, b.bids) + BestOf(symbol, Ask, b.asks)
  }

  function TakerFill(t: Taker, f: Fill, left: nat): Event {
    Filled(t.session, t.cid, t.xid, t.symbol, t.side, f.price, f.qty, left, t.ts)
  }

  function MakerFill(w: Owner, f: Fill, side: Side, left: nat): Event {
    Filled(w.session, w.cid, f.maker, w.symbol, side, f.price, f.qty, left, w.ts)
  }

  /** The maker's own fill, and the maps without a maker that has nothing left in b. */
  function ReportMaker(m: IdMaps, b: Book, f: Fill, takerSide: Side): (IdMaps, seq<Event>) {
    if f.maker !in m.rev then (m, [])
    else
      var w := m.rev[f.maker];
      var e := MakerFill(w, f, Opposite(takerSide), BookQty(b, f.maker));
      if f.maker in BookIds(b) then (m, [e])
      else (IdMaps(m.fwd - {KeyOf(w)}, m.rev - {f.maker}), [e])
  }

  /** One trade after the other; b is the book after all of them. */
  function Report(m: IdMaps, b: Book, t: Taker, fills: seq<Fill>, qty: nat): (IdMaps, seq<Event>)
    decreases |fills|
  {
    if fills == [] then (m, [])
    else
      var left := Sub32(qty, fills[0].qty);
      var (m1, made) := ReportMaker(m, b, fills[0], t.side);
      var (m2, rest) := Report(m1, b, t, fills[1..], left);
      (m2, [TakerFill(t, fills[0], left)] + made + Bbos(t.symbol, b) + rest)
  }

  /** At most four events a trade. */
  lemma {:induction false} ReportLength(m: IdMaps, b: Book, t: Taker, fills: seq<Fill>, qty: nat)
    ensures |Report(m, b, t, fills, qty).1| <= 4 * |fills|
    decreases |fills|
  {
    if fills != [] {
      var (m1, _) := ReportMaker(m, b, fills[0], t.side);
      ReportLength(m1, b, t, fills[1..], Sub32(qty, fills[0].qty));
    }
  }

  // ---------------------------------------------------------------------------
  // Requests
  // ---------------------------------------------------------------------------

  /** What the tables answered: whether the seen set, the book and the two id maps had room. */
  datatype Oracle = Oracle(seen: bool, rests: bool, fwd: bool, rev: bool)

  datatype NewOrder = NewOrder(cid: nat, symbol: nat, side: Side, price: int, qty: nat, ts: int)

  /** A resting order enters the id maps, as far as they have room. */
  function Enter(m: IdMaps, xid: nat, side: Side, w: Owner, o: Oracle): IdMaps {
    IdMaps(if o.fwd then m.fwd[KeyOf(w) := IdEntry(xid, side, w.symbol)] else m.fwd,
           if o.rev then m.rev[xid := w] else m.rev)
  }

  function SubmitOrder(c: Core, session: nat, q: NewOrder, o: Oracle): (Core, seq<Event>) {
    if q.cid >= CLIENT_IDS then (c, [Rejected(session, q.cid, 0, q.ts, InvalidOrderId)])
    else if !Listed(c, q.symbol) then (c, [Rejected(session, q.cid, q.symbol, q.ts, UnknownSymbol)])
    else if Key(session, q.cid) in c.seen then (c, [Rejected(session, q.cid, q.symbol, q.ts, DuplicateOrderId)])
    else if !o.seen then (c, [Rejected(session, q.cid, q.symbol, q.ts, BookFull)])
    else
      var xid, i := c.nextId, q.symbol - 1;
      var (r, b) := Submit(c.books[i], xid, q.side, q.price, q.qty, MAX_FILLS, o.rests);
      var c1 := c.(seen := c.seen + {Key(session, q.cid)}, nextId := xid + 1, books := c.books[i := b]);
      if !r.rested && r.fills == [] then (c1, [Rejected(session, q.cid, q.symbol, q.ts, BookFull)])
      else
        var t := Taker(session, q.cid, xid, q.symbol, q.side, q.ts);
        var (m, trades) := Report(c.ids, b, t, r.fills, q.qty);
        var m' := if r.rested then Enter(m, xid, q.side, Owner(session, q.cid, q.symbol, q.ts), o) else m;
        (c1.(ids := m'), [Accepted(session, q.cid, xid, q.symbol, q.ts)] + trades)
  }

  function CancelOrder(c: Core, session: nat, cid: nat, symbol: nat, ts: int): (Core, seq<Event>) {
    if cid >= CLIENT_IDS then (c, [CancelRejected(session, cid, ts, InvalidOrderId)])
    else if !Listed(c, symbol) then (c, [CancelRejected(session, cid, ts, UnknownSymbol)])
    else if Key(session, cid) !in c.ids.fwd then (c, [CancelRejected(session, cid, ts, OrderNotFound)])
    else
      var xid := c.ids.fwd[Key(session, cid)].xid;
      var b := c.books[symbol - 1];
      if xid !in BookIds(b) then (c, [CancelRejected(session, cid, ts, OrderNotFound)])
      else
        (c.(books := c.books[symbol - 1 := CancelBook(b, xid)],
            ids := IdMaps(c.ids.fwd - {Key(session, cid)}, c.ids.rev - {xid})),
         [CancelAck(session, cid, ts)])
  }

  datatype ModifyRequest = ModifyRequest(cid: nat, symbol: nat, price: int, qty: nat, ts: int)

  function ModifyOrder(c: Core, session: nat, q: ModifyRequest, o: Oracle): (Core, seq<Event>) {
    if q.cid >= CLIENT_IDS then (c, [ModifyRejected(session, q.cid, q.ts, InvalidOrderId)])
    else if !Listed(c, q.symbol) then (c, [ModifyRejected(session, q.cid, q.ts, UnknownSymbol)])
    else if Key(session, q.cid) !in c.ids.fwd then (c, [ModifyRejected(session, q.cid, q.ts, OrderNotFound)])
    else
      var e := c.ids.fwd[Key(session, q.cid)];
      var xid, i := c.nextId, q.symbol - 1;
      if e.xid !in BookIds(c.books[i]) then
        (c.(nextId := xid + 1), [ModifyRejected(session, q.cid, q.ts, OrderNotFound)])
      else
        var (r, b) := Modify(c.books[i], e.xid, e.side, q.price, q.qty, xid, MAX_FILLS, o.rests);
        var m := IdMaps(c.ids.fwd - {Key(session, q.cid)}, c.ids.rev - {e.xid});
        var m1 := if r.rested then Enter(m, xid, e.side, Owner(session, q.cid, e.symbol, q.ts), o) else m;
        var t := Taker(session, q.cid, xid, q.symbol, e.side, q.ts);
        var (m2, trades) := Report(m1, b, t, r.fills, q.qty);
        (c.(nextId := xid + 1, books := c.books[i := b], ids := m2),
         [ModifyAck(session, q.cid, xid, q.symbol, q.ts)] + trades)
  }

  lemma {:induction false} FillsBounded(b: Book, id: nat, side: Side, price: int, qty: nat, accept: bool)
    requires WellFormed(b)
    ensures |Submit(b, id, side, price, qty, MAX_FILLS, accept).0.fills| <= MAX_FILLS
  {
    if qty > 0 && id !in BookIds(b) {
      SubmitAccounts(b, id, side, price, qty, MAX_FILLS, accept, 0);
    }
  }

  /** No request emits more than 1 + 4 * 64 events. */
  lemma {:induction false} SubmitEvents(c: Core, session: nat, q: NewOrder, o: Oracle)
    requires Listed(c, q.symbol) ==> WellFormed(c.books[q.symbol - 1])
    ensures |SubmitOrder(c, session, q, o).1| <= 1 + 4 * MAX_FILLS
  {
    hide Submit, Report, BookIds, WellFormed;
    if Listed(c, q.symbol) {
      var xid, i := c.nextId, q.symbol - 1;
      var (r, b) := Submit(c.books[i], xid, q.side, q.price, q.qty, MAX_FILLS, o.rests);
      FillsBounded(c.books[i], xid, q.side, q.price, q.qty, o.rests);
      ReportLength(c.ids, b, Taker(session, q.cid, xid, q.symbol, q.side, q.ts), r.fills, q.qty);
    }
  }

  lemma {:induction false} ModifyEvents(c: Core, session: nat, q: ModifyRequest, o: Oracle)
    requires Listed(c, q.symbol) ==> WellFormed(c.books[q.symbol - 1])
    ensures |ModifyOrder(c, session, q, o).1| <= 1 + 4 * MAX_FILLS
  {
    hide Submit, Report, BookIds, WellFormed, CancelBook, Enter;
    if Listed(c, q.symbol) && Key(session, q.cid) in c.ids.fwd {
      var e := c.ids.fwd[Key(session, q.cid)];
      var xid, i := c.nextId, q.symbol - 1;
      var (r, b) := Modify(c.books[i], e.xid, e.side, q.price, q.qty, xid, MAX_FILLS, o.rests);
      CancelWellFormed(c.books[i], e.xid);
      FillsBounded(CancelBook(c.books[i], e.xid), xid, e.side, q.price, q.qty, o.rests);
      var m := IdMaps(c.ids.fwd - {Key(session, q.cid)}, c.ids.rev - {e.xid});
      var m1 := if r.rested then Enter(m, xid, e.side, Owner(session, q.cid, e.symbol, q.ts), o) else m;
      ReportLength(m1, b, Taker(session, q.cid, xid, q.symbol, e.side, q.ts), r.fills, q.qty);
    }
  }
}
