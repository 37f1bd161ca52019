/** A run of the engine, from nothing, in which every gateway uses only sessions of its own and one
    of them, which never placed an order, is sent another's fill. */
module StrayRuns {
  import opened Machine
  import opened Books
  import opened Ladders
  import opened Matching
  import opened HashTable
  import opened BookParts
  import OrderBooks
  import Engines
  import opened Venues
  import opened Exchange
  import opened ExchangeRuns
  import opened ExchangeSessions
  import opened ExchangeRouting
  import opened ExchangeTables
  import opened ExchangeCores
  import opened ExchangeEngines
  import opened ExchangeStrays

  /** Four slots under the identity hash. */
  ghost predicate FourSlots<V>(m: HashMap<nat, V>) {
    m.capacity == 4 && m.maxLoad == 2 && forall k: nat :: m.Home(k) == k % 4
  }

  /** One symbol, id maps of four slots, and room for ten orders in everything else. */
  ghost predicate Fitted(c: ExchangeCore) {
    && c.live == [true] && |c.venue.engines| == 1 && c.venue.Holding(0, Bid, 10) && c.venue.Holding(0, Ask, 10)
    && c.tables.seen.capacity != 0 && 10 < c.tables.seen.maxLoad && FourSlots(c.tables.fwd) && FourSlots(c.tables.rev)
  }

  /** No more than n orders have worn the seen set and the book. */
  ghost predicate Light(c: ExchangeCore, n: nat)
    requires c.Owns()
    reads c.tables.Repr, c.venue
  {
    && c.tables.Wear().seen.load <= n && |c.venue.wear| == 1
    && c.venue.wear[0].orders.load <= n && c.venue.wear[0].bids.load <= n && c.venue.wear[0].asks.load <= n
  }

  ghost predicate Stage(e: ExchangeEngine, v: Server, n: nat)
    reads e.Repr
  {
    && e.Owns() && e.Valid() && e.State() == v && e.gateways == 3 && e.capacity == 64
    && e.core.Owns() && Fitted(e.core) && Light(e.core, n)
  }

  /** The session was given to that gateway, which has not ended it. */
  ghost predicate Own(v: Server, g: nat, s: nat) {
    s in v.creator && v.creator[s] == g
  }

  lemma {:induction false} LightAfter(c: ExchangeCore, seen: Wear, books: seq<BookWear>, n: nat, i: int, side: Side)
    requires c.Owns() && i == 0 && |books| == 1 && seen.load <= n
    requires books[0].orders.load <= n && books[0].bids.load <= n && books[0].asks.load <= n
    requires Spends(seen, c.tables.Wear().seen) && BooksWorn(books, c.venue.wear, i, side)
    ensures Light(c, n + 1)
  {
  }

  /** What an order comes to does not depend on what its book would have answered. */
  lemma {:induction false} SameOrder(c: Core, s: nat, q: NewOrder, o: Oracle)
    requires Listed(c, q.symbol)
    requires Submit(c.books[q.symbol - 1], c.nextId, q.side, q.price, q.qty, MAX_FILLS, o.rests) ==
             Submit(c.books[q.symbol - 1], c.nextId, q.side, q.price, q.qty, MAX_FILLS, true)
    ensures var p := o.(rests := true);
            && SubmitOrder(c, s, q, o) == SubmitOrder(c, s, q, p) && (Rests(c, s, q, o) <==> Rests(c, s, q, p))
            && Reported(c, s, q, o) == Reported(c, s, q, p)
  {
    hide Submit, Report, Key;
  }

  // ---------------------------------------------------------------------------
  // The history of the run
  // ---------------------------------------------------------------------------

  /** The request leads from v to v'. A connect is given the first unused id, every other request is
      for a session of its own gateway, and gateway 1 places no order. */
  ghost predicate Leads(v: Server, r: Request, v': Server) {
    && Typed(r) && |v.route| == U16 && v' == Process(v, r).0
    && (if r.ClientConnect? then FirstUnused(v.core, r.given) else Own(v, r.gateway, r.session))
    && (r.gateway == 1 ==> r.ClientConnect? || r.ClientDisconnect?)
  }

  datatype Past = Past(states: seq<Server>, requests: seq<Request>)

  ghost predicate LeadsTo(h: Past, v: Server) {
    && |h.states| == |h.requests| + 1 && h.states[|h.requests|] == v
    && (forall i :: 0 <= i < |h.requests| ==> Leads(h.states[i], h.requests[i], h.states[i + 1]))
  }

  ghost function Then(h: Past, r: Request, v: Server): Past {
    Past(h.states + [v], h.requests + [r])
  }

  lemma {:induction false} OneMore(h: Past, v: Server, r: Request, v': Server)
    requires LeadsTo(h, v) && Leads(v, r, v')
    ensures LeadsTo(Then(h, r, v'), v') && Then(h, r, v').states[0] == h.states[0]
  {
    hide Leads;
  }

  // ---------------------------------------------------------------------------
  // An order
  // ---------------------------------------------------------------------------

  method Transmit(e: ExchangeEngine, g: nat, s: nat, q: NewOrder, ghost v: Server) returns (ghost o: Oracle)
    requires e.Owns() && e.Valid() && e.State() == v && g < e.gateways && s < U16 && q.qty < U32
    modifies e.Repr
    ensures e.Valid() && e.State() == v.(core := SubmitOrder(v.core, s, q, o).0) && e.core.SubmitGrounds(s, q, o)
    ensures e.queues == Deliver(old(e.queues), Dispatch(SubmitOrder(v.core, s, q, o).1, v.route), e.gateways, e.capacity)
  {
    hide ExchangeCore.Parts, ExchangeCore.State, ExchangeCore.SubmitGrounds, Bounded, Deliver, Dispatch, SubmitOrder;
    var ok, r := e.ProcessRequest(Message.Order(g, s, q));
    o := r.o;
  }

  /** The book of the order had room for it. */
  lemma {:induction false} BookTook(core: ExchangeCore, c: Core, s: nat, q: NewOrder, o: Oracle, n: nat)
    requires core.Valid() && core.Owns() && Fitted(core) && Light(core, n) && n <= 10
    requires |c.books| == |core.live| && c.live == core.live && core.State() == SubmitOrder(c, s, q, o).0
    requires forall i :: 0 <= i < |c.books| ==> WellFormed(c.books[i])
    requires q.symbol == 1 && q.cid < CLIENT_IDS && Key(s, q.cid) !in c.seen && o.seen && core.RestsFairly(c, q, o)
    ensures var p := o.(rests := true);
            && SubmitOrder(c, s, q, o) == SubmitOrder(c, s, q, p) && (Rests(c, s, q, o) <==> Rests(c, s, q, p))
            && Reported(c, s, q, o) == Reported(c, s, q, p)
  {
    hide ExchangeCore.Parts, ExchangeCore.RestsFairly, Bounded, Key, Submit, Rests, Reported, Report;
    core.Sound();
    core.venue.Lightly(0, q.side, 10);
    core.Unhindered(c, q, o);
    SameOrder(c, s, q, o);
  }

  /** An order of a gateway for its own session. Nothing but the id maps stands in its way. */
  method Send(e: ExchangeEngine, g: nat, s: nat, q: NewOrder, ghost v: Server, ghost n: nat) returns (ghost o: Oracle)
    requires Stage(e, v, n) && n < 10 && Own(v, g, s) && g < 3 && g != 1 && s < U16 && q.qty < U32
    requires q.symbol == 1 && q.cid < CLIENT_IDS && Key(s, q.cid) !in v.core.seen
    modifies e.Repr
    ensures Stage(e, v.(core := SubmitOrder(v.core, s, q, o).0), n + 1) && o.seen && o.rests
    ensures e.core.IdGrounds(v.core, s, q, o) && Leads(v, New(g, s, q, o), v.(core := SubmitOrder(v.core, s, q, o).0))
    ensures e.queues == Deliver(old(e.queues), Dispatch(SubmitOrder(v.core, s, q, o).1, v.route), 3, 64)
  {
    hide ExchangeCore.Parts, ExchangeCore.RestsFairly, Bounded, Deliver, Dispatch, SubmitOrder, Key, Submit, Rests;
    hide Reported, Fitted;
    hide HashMap.Valid, HashMap.Refuses, HashMap.RefusesBeside, Tables.Wear, Erased, Enters, BooksWorn, Spends, Tables.Roomy;
    e.core.Sound();
    SeenTakes(e.core, Key(s, q.cid), n);
    assert e.core.Listing(1) by {
      Lists(e.core);
    }
    o := Transmit(e, g, s, q, v);
    LightAfter(e.core, old(e.core.tables.Wear()).seen, old(e.core.venue.wear), n, 0, q.side);
    BookTook(e.core, v.core, s, q, o, n + 1);
    o := o.(rests := true);
  }

  lemma {:induction false} Lists(core: ExchangeCore)
    requires Fitted(core)
    ensures core.live == [true]
  {
  }

  lemma {:induction false} SeenTakes(core: ExchangeCore, k: nat, n: nat)
    requires core.Owns() && core.tables.seen.Valid() && Fitted(core) && Light(core, n) && n <= 10
    ensures !core.tables.seen.Refuses(k)
  {
    hide HashMap.Valid, HashMap.Refuses;
    core.tables.WearTells();
    core.tables.seen.RoomRefusesNothing(k);
  }

  // ---------------------------------------------------------------------------
  // The other requests
  // ---------------------------------------------------------------------------

  lemma {:induction false} StillLight(core: ExchangeCore, before: Condition, n: nat)
    requires core.Owns() && Unworn(before, core.Condition()) && |before.books| == 1 && before.wear.seen.load <= n
    requires before.books[0].orders.load <= n && before.books[0].bids.load <= n && before.books[0].asks.load <= n
    ensures Light(core, n)
  {
  }

  lemma {:induction false} OnlyFirst(c: Core, s: nat, t: nat)
    requires FirstUnused(c, s) && FirstUnused(c, t)
    ensures s == t
  {
    assert Before(c.nextSession, s, t) || Before(c.nextSession, t, s) || s == t;
  }

  /** The server when a gateway has been given a session. */
  ghost function Joined(v: Server, g: nat, s: nat): Server
    requires s < |v.route|
  {
    v.(core := Connect(v.core, s), route := v.route[s := g], creator := v.creator[s := g])
  }

  method Join(e: ExchangeEngine, g: nat, ghost s: nat, ghost v: Server, ghost n: nat) returns (ghost r: Request)
    requires Stage(e, v, n) && g < 3 && FirstUnused(v.core, s) && |e.queues[g]| < 64
    modifies e.Repr
    ensures r == ClientConnect(g, 0, s, true) && |v.route| == U16 && Leads(v, r, Joined(v, g, s)) && Stage(e, Joined(v, g, s), n)
    ensures e.queues == Deliver(old(e.queues), [Assigned(g, s, 0)], 3, 64)
    ensures Unworn(old(e.core.Condition()), e.core.Condition())
  {
    hide ExchangeCore.Parts, ExchangeCore.State, Bounded, Deliver, Connect, FirstUnused, Fitted, Unworn, Light;
    Lightness(e.core, n);
    ghost var before := e.core.Condition();
    var ok, r0 := e.ProcessRequest(Hello(g, 0));
    FreeId(v.core, s);
    r := r0;
    OnlyFirst(v.core, s, r.given);
    StillLight(e.core, before, n);
  }

  lemma {:induction false} FreeId(c: Core, s: nat)
    requires FirstUnused(c, s)
    ensures 0 < s < U16 && s !in c.sessions
  {
  }

  lemma {:induction false} Lightness(core: ExchangeCore, n: nat)
    requires core.Owns() && Light(core, n)
    ensures var b := core.Condition();
            && |b.books| == 1 && b.wear.seen.load <= n
            && b.books[0].orders.load <= n && b.books[0].bids.load <= n && b.books[0].asks.load <= n
  {
  }

  method Leave(e: ExchangeEngine, g: nat, s: nat, ghost v: Server, ghost n: nat)
    requires Stage(e, v, n) && g < 3 && s < U16 && Own(v, g, s)
    modifies e.Repr
    ensures var v' := v.(core := Disconnect(v.core, s), creator := v.creator - {s});
            Leads(v, ClientDisconnect(g, s), v') && Stage(e, v', n)
    ensures e.queues == old(e.queues) && Unworn(old(e.core.Condition()), e.core.Condition())
  {
    hide ExchangeCore.Parts, ExchangeCore.State, Bounded, Deliver, Disconnect, Fitted, Unworn, Light;
    Lightness(e.core, n);
    ghost var before := e.core.Condition();
    var ok, r := e.ProcessRequest(Bye(g, s));
    StillLight(e.core, before, n);
    e.DeliverNone(old(e.queues));
  }

  method CancelOne(e: ExchangeEngine, ghost v: Server, ghost n: nat)
    requires Stage(e, v, n) && Own(v, 0, 1)
    modifies e.Repr
    ensures var v' := v.(core := CancelOrder(v.core, 1, 1, 1, 0).0);
            Leads(v, Request.Cancel(0, 1, 1, 1, 0), v') && Stage(e, v', n)
    ensures Unworn(old(e.core.Condition()), e.core.Condition())
  {
    hide ExchangeCore.Parts, ExchangeCore.State, Bounded, Deliver, Dispatch, CancelOrder, Fitted, Unworn, Light;
    Lightness(e.core, n);
    ghost var before := e.core.Condition();
    var ok, r := e.ProcessRequest(Message.Withdraw(0, 1, 1, 1, 0));
    StillLight(e.core, before, n);
  }

  /** A gateway reads everything that has been sent to it. */
  method ReadAll(e: ExchangeEngine, g: nat, ghost v: Server, ghost n: nat)
    requires Stage(e, v, n) && g < 3
    modifies e.Repr
    ensures Stage(e, v, n) && e.queues[g] == []
  {
    hide ExchangeCore.Parts, ExchangeCore.State, Bounded, Fitted, Light;
    while true
      invariant Stage(e, v, n)
      decreases |e.queues[g]|
    {
      var p := e.Pop(g);
      if p.None? {
        break;
      }
    }
  }

  // ---------------------------------------------------------------------------
  // The orders of session 1
  // ---------------------------------------------------------------------------

  /** The server when an ask of session 1 has come to rest. */
  ghost function Asked(v: Server, asks: seq<Level>, cid: nat, price: int, o: Oracle): Server {
    v.(core := WithAsks(v.core, Rest(Ask, asks, price, Books.Order.Order(v.core.nextId, 5)))
               .(nextId := v.core.nextId + 1, seen := v.core.seen + {Key(1, cid)},
                 ids := Enter(v.core.ids, v.core.nextId, Ask, Asker(cid), o)))
  }

  /** An ask that comes to rest: each id map answers on its own account. */
  method AskOf(e: ExchangeEngine, cid: nat, price: int, ghost v: Server, ghost n: nat, ghost asks: seq<Level>)
    returns (ghost o: Oracle)
    requires Stage(e, v, n) && n < 10 && Own(v, 0, 1) && OnlyAsks(v.core, asks)
    requires cid < CLIENT_IDS && Key(1, cid) !in v.core.seen && v.core.nextId !in Ids(asks)
    modifies e.Repr
    ensures o.seen && o.rests && Stage(e, Asked(v, asks, cid, price, o), n + 1)
    ensures Leads(v, New(0, 1, AskFor(cid, price, 5), o), Asked(v, asks, cid, price, o))
    ensures var t := e.core.tables;
            && old(t.Valid()) && o.fwd == !old(t.fwd.Refuses(Key(1, cid))) && o.rev == !old(t.rev.Refuses(v.core.nextId))
            && Enters(old(t.Wear()).fwd, t.Wear().fwd, o.fwd, t.fwd.Home(Key(1, cid)))
            && Enters(old(t.Wear()).rev, t.Wear().rev, o.rev, t.rev.Home(v.core.nextId))
  {
    hide ExchangeCore.Parts, Bounded, Deliver, Dispatch, SubmitOrder, Key, Rests, Reported, Fitted, Light, Ids, Rest, Leads;
    hide HashMap.Valid, HashMap.Refuses, HashMap.RefusesBeside, HashMap.Home, Tables.Wear, Erased, Enters, Enter;
    e.core.Sound();
    e.core.tables.fwd.KeepAll(Key(1, cid));
    e.core.tables.rev.KeepAll(v.core.nextId);
    o := Send(e, 0, 1, AskFor(cid, price, 5), v, n);
    AskRests(v.core, asks, cid, price, o);
  }

  /** Both id maps have used load slots, and those of the given set are empty. */
  ghost predicate Used(t: Tables, load: nat, free: set<nat>)
    requires t.Owns()
    reads t.Repr
  {
    && t.Wear().fwd.load == load && free <= t.Wear().fwd.vacant
    && t.Wear().rev.load == load && free <= t.Wear().rev.vacant
  }

  /** An ask for which the id maps have room, under a client id equal to its exchange id. */
  method AskInTime(e: ExchangeEngine, cid: nat, price: int, ghost v: Server, ghost n: nat, ghost asks: seq<Level>,
                   ghost load: nat, ghost free: set<nat>)
    returns (ghost o: Oracle)
    requires Stage(e, v, n) && n < 10 && Own(v, 0, 1) && OnlyAsks(v.core, asks)
    requires cid < 4 && Key(1, cid) !in v.core.seen && v.core.nextId == cid && cid !in Ids(asks)
    requires Used(e.core.tables, load, free) && load < 2 && cid in free
    modifies e.Repr
    ensures o == Oracle(true, true, true, true) && Stage(e, Asked(v, asks, cid, price, o), n + 1)
    ensures Leads(v, New(0, 1, AskFor(cid, price, 5), o), Asked(v, asks, cid, price, o))
    ensures Used(e.core.tables, load + 1, free - {cid})
  {
    hide ExchangeCore.Parts, Bounded, Key, Ids, Rest, Leads, Light;
    hide HashMap.Valid, HashMap.Refuses, HashMap.Home, Tables.Wear, Enter, Asked;
    e.core.Sound();
    Spare(e.core, Key(1, cid), cid, load, free);
    Homes(e.core, cid);
    o := AskOf(e, cid, price, v, n, asks);
  }

  lemma {:induction false} Spare(core: ExchangeCore, k: nat, x: nat, load: nat, free: set<nat>)
    requires core.Valid() && core.Owns() && Fitted(core) && Used(core.tables, load, free) && load < 2
    ensures core.tables.Valid() && !core.tables.fwd.Refuses(k) && !core.tables.rev.Refuses(x)
  {
    hide HashMap.Valid, HashMap.Refuses, HashMap.Home, ExchangeCore.Parts, Bounded;
    core.Sound();
    core.tables.WearTells();
    core.tables.fwd.RoomRefusesNothing(k);
    core.tables.rev.RoomRefusesNothing(x);
  }

  lemma {:induction false} Homes(core: ExchangeCore, cid: nat)
    requires Fitted(core) && cid < 4
    ensures core.tables.fwd.Home(Key(1, cid)) == cid && core.tables.rev.Home(cid) == cid
  {
    KeysDiffer();
  }

  /** Exchange id 1 has left a tombstone in the reverse map. */
  ghost predicate Buried(t: Tables)
    requires t.Owns()
    reads t.Repr
  {
    Used(t, 2, {3}) && t.Valid() && !t.rev.Refuses(1)
  }

  const BOTH_IDS := IdMaps(map[Key(1, 1) := Entry(1), Key(1, 2) := Entry(2)], map[1 := Asker(1), 2 := Asker(2)])
  const ONE_ID := IdMaps(map[Key(1, 2) := Entry(2)], map[2 := Asker(2)])

  /** The cancel of the first order leaves a tombstone where its exchange id was. */
  method CancelFirstOrder(e: ExchangeEngine, ghost v: Server, ghost n: nat)
    requires Stage(e, v, n) && Own(v, 0, 1) && OnlyAsks(v.core, [ONE, TWO]) && v.core.ids == BOTH_IDS
    requires Used(e.core.tables, 2, {3})
    modifies e.Repr
    ensures var v' := v.(core := WithAsks(v.core, [TWO]).(ids := ONE_ID));
            Leads(v, Request.Cancel(0, 1, 1, 1, 0), v') && Stage(e, v', n)
    ensures Buried(e.core.tables)
  {
    hide ExchangeCore.Parts, Bounded, Fitted, Light, CancelOrder, Key, Leads;
    hide HashMap.Valid, HashMap.Refuses, HashMap.RefusesBeside, Tables.Wear, Tables.Image, Erased;
    e.core.Sound();
    Cancelled(v.core);
    e.core.tables.rev.ComesBack({2}, 1);
    CancelOne(e, v, n);
    e.core.Sound();
    e.core.tables.ErasedThins();
    assert e.core.tables.Ids().rev.Keys == {2};
  }

  /** An order for nothing of session 1: only the counters move. */
  method AskForNothing(e: ExchangeEngine, cid: nat, ghost v: Server, ghost n: nat, ghost asks: seq<Level>) returns (ghost o: Oracle)
    requires Stage(e, v, n) && n < 10 && Own(v, 0, 1) && OnlyAsks(v.core, asks)
    requires cid < CLIENT_IDS && Key(1, cid) !in v.core.seen && Buried(e.core.tables)
    modifies e.Repr
    ensures var v' := v.(core := v.core.(nextId := v.core.nextId + 1, seen := v.core.seen + {Key(1, cid)}));
            Stage(e, v', n + 1) && Leads(v, New(0, 1, AskFor(cid, 10, 0), o), v')
    ensures Buried(e.core.tables)
  {
    hide ExchangeCore.Parts, Bounded, Deliver, Dispatch, SubmitOrder, Key, Rests, Reported, Fitted, Light, Leads;
    hide HashMap.Valid, HashMap.Refuses, HashMap.RefusesBeside, HashMap.Home, HashMap.Wear, Tables.Image, Erased, Enters;
    e.core.Sound();
    e.core.tables.rev.KeepAll(1);
    e.core.tables.ImageWear();
    o := Send(e, 0, 1, AskFor(cid, 10, 0), v, n);
    AskNothing(v.core, asks, cid, o);
    e.core.Sound();
    e.core.tables.ErasedThins();
    ErasedWear(old(e.core.tables.Image()), e.core.tables.Image());
    e.core.tables.ImageWear();
  }

  lemma {:induction false} ErasedWear(a: IdImage, b: IdImage)
    requires Erased(a, b)
    ensures a.fwdWear == b.fwdWear && a.revWear == b.revWear
  {
  }

  /** The last order of session 1: the forward map is at its load cap and the slot the path begins
      with is empty; in the reverse map the path begins with a tombstone. */
  method AskTooLate(e: ExchangeEngine, ghost v: Server, ghost n: nat) returns (ghost o: Oracle)
    requires Stage(e, v, n) && n < 10 && Own(v, 0, 1) && OnlyAsks(v.core, [TWO])
    requires Key(1, 3) !in v.core.seen && v.core.nextId == 5 && Buried(e.core.tables)
    modifies e.Repr
    ensures o == Oracle(true, true, false, true) && Stage(e, Asked(v, [TWO], 3, 10, o), n + 1)
    ensures Leads(v, New(0, 1, AskFor(3, 10, 5), o), Asked(v, [TWO], 3, 10, o))
  {
    hide ExchangeCore.Parts, Bounded, Key, Ids, Rest, Leads, Light, Fitted;
    hide HashMap.Valid, HashMap.Refuses, HashMap.Home, Tables.Wear, Enter, Asked, Enters;
    e.core.Sound();
    Full(e.core);
    Resting();
    o := AskOf(e, 3, 10, v, n, [TWO]);
  }

  lemma {:induction false} Full(core: ExchangeCore)
    requires core.Owns() && Fitted(core) && Buried(core.tables)
    ensures core.tables.fwd.Refuses(Key(1, 3)) && !core.tables.rev.Refuses(5)
  {
    hide HashMap.Valid, HashMap.Refuses, HashMap.Home;
    KeysDiffer();
    hide Key;
    core.tables.fwd.EmptyBucketRefused(Key(1, 3));
    core.tables.rev.SameBucket(1, 5);
  }

  // ---------------------------------------------------------------------------
  // The run
  // ---------------------------------------------------------------------------

  /** Where the run begins: nobody is connected and nothing was ever entered. */
  const START := Server(Core([EMPTY_BOOK], [true], 1, {}, 1, {}, IdMaps(map[], map[])), seq(U16, _ => 0), 3, map[])

  /** A book with room for ten orders and ten levels on each side, never used. */
  ghost predicate BlankBook(b: OrderBooks.OrderBook)
    reads b.Repr
  {
    && b.Valid() && b.Value() == EMPTY_BOOK && b.chains.nO == 64 && b.chains.nL == 64
    && b.index.orderMap.capacity == 64 && b.index.bidMap.capacity == 64 && b.index.askMap.capacity == 64
    && b.index.orderMap.maxLoad == 44 && b.index.bidMap.maxLoad == 44 && b.index.askMap.maxLoad == 44
    && b.Wear().orders.load == 0 && b.Wear().bids.load == 0 && b.Wear().asks.load == 0
  }

  method NewBook() returns (b: OrderBooks.OrderBook)
    ensures fresh(b.Repr) && BlankBook(b)
  {
    hide HashMap.Valid, OrderBooks.OrderBook.Valid, OrderBooks.OrderBook.Value;
    assert IsPow2(64);
    b := OrderBooks.CreateBook(64, 64, 64, 64, (k: nat) => k, (p: int) => if p < 0 then 0 else p);
    b.Whole();
  }

  /** A venue of one symbol, never used. */
  ghost predicate BlankVenue(v: Venue)
    reads v.Repr
  {
    && v.Apart() && v.Valid() && |v.engines| == 1 && v.maxFills == MAX_FILLS && v.books == [EMPTY_BOOK] && |v.wear| == 1
    && v.Holding(0, Bid, 10) && v.Holding(0, Ask, 10)
    && v.wear[0].orders.load == 0 && v.wear[0].bids.load == 0 && v.wear[0].asks.load == 0
  }

  method NewVenue() returns (v: Venue)
    ensures fresh(v.Repr) && BlankVenue(v)
  {
    hide OrderBooks.OrderBook.Valid, OrderBooks.OrderBook.Value;
    var b := NewBook();
    var m := new Engines.MatchingEngine(b, MAX_FILLS);
    v := WithEngine(m);
  }

  method WithEngine(m: Engines.MatchingEngine) returns (v: Venue)
    requires m.Valid() && m.Value() == EMPTY_BOOK && m.fills.Length == MAX_FILLS && BlankBook(m.book)
    ensures fresh(v.Repr - m.Repr) && BlankVenue(v)
  {
    hide Engines.MatchingEngine.Valid, Engines.MatchingEngine.Value, OrderBooks.OrderBook.Valid;
    v := new Venue([m], MAX_FILLS, [m.Wear()]);
    assert Footprint([m]) == m.Repr + Footprint([m][1..]);
    assert v.books == [EMPTY_BOOK];
  }

  method NewTables() returns (t: Tables)
    ensures fresh(t.Repr) && t.Owns() && t.Valid() && t.Seen() == {} && t.Ids() == IdMaps(map[], map[])
    ensures t.Wear().seen.load == 0 && t.seen.capacity == 64 && t.seen.maxLoad == 44
    ensures FourSlots(t.fwd) && FourSlots(t.rev) && Used(t, 0, {1, 2, 3})
  {
    hide HashMap.Valid;
    assert IsPow2(64);
    assert IsPow2(4);
    t := new Tables(64, 4, (k: nat) => k);
  }

  method NewCore() returns (c: ExchangeCore)
    ensures fresh(c.Repr) && c.Owns() && c.Valid() && c.State() == START.core && Consistent(c.State()) && c.buffer.count == 0
    ensures Fitted(c) && Light(c, 0) && Used(c.tables, 0, {1, 2, 3})
  {
    hide HashMap.Valid, HashMap.Home, Venue.Valid, Tables.Valid, ExchangeCore.Parts, Bounded, Consistent, FourSlots;
    var v := NewVenue();
    var t := NewTables();
    c := new ExchangeCore(v, t, [true]);
  }

  method NewEngine() returns (e: ExchangeEngine)
    ensures fresh(e.Repr) && Stage(e, START, 0) && Used(e.core.tables, 0, {1, 2, 3})
    ensures forall q :: 0 <= q <= 3 ==> e.queues[q] == []
  {
    hide ExchangeCore.Parts, ExchangeCore.State, Bounded, Consistent, Fitted, HashMap.Wear, Routed;
    var c := NewCore();
    e := new ExchangeEngine(c, 3, 64);
  }

  /** The server when gateway 0 has session 1 and gateway 2 has session 2, and orders have come to
      asks, an exchange id, maps and a seen set. */
  ghost predicate Trading(v: Server, asks: seq<Level>, nextId: nat, ids: IdMaps, seen: set<nat>) {
    && OnlyAsks(v.core, asks) && v.core.nextId == nextId && v.core.ids == ids && v.core.seen == seen
    && v.core.sessions == {1, 2} && v.core.nextSession == 3 && v.creator == map[1 := 0, 2 := 2] && |v.route| == U16
  }

  lemma {:induction false} FirstTwo(c: Core)
    ensures c.sessions == {} && c.nextSession == 1 ==> FirstUnused(c, 1)
    ensures c.sessions == {1} && c.nextSession == 2 ==> FirstUnused(c, 2)
  {
  }

  lemma {:induction false} OneAssigned(queues: seq<seq<Push>>, g: nat, s: nat)
    requires |queues| == 4 && g < 3 && |queues[g]| < 64
    ensures Deliver(queues, [Assigned(g, s, 0)], 3, 64) == queues[g := queues[g] + [Assigned(g, s, 0)]]
  {
    assert [Assigned(g, s, 0)][1..] == [];
  }

  lemma {:induction false} UnwornUsed(core: ExchangeCore, before: Condition, load: nat, free: set<nat>)
    requires core.Owns() && Unworn(before, core.Condition())
    requires before.wear.fwd.load == load && free <= before.wear.fwd.vacant
    requires before.wear.rev.load == load && free <= before.wear.rev.vacant
    ensures Used(core.tables, load, free)
  {
  }

  lemma {:induction false} Beginning()
    ensures LeadsTo(Past([START], []), START)
  {
  }

  lemma {:induction false} UsedTells(core: ExchangeCore, load: nat, free: set<nat>)
    requires core.Owns() && Used(core.tables, load, free)
    ensures var b := core.Condition();
            && b.wear.fwd.load == load && free <= b.wear.fwd.vacant && b.wear.rev.load == load && free <= b.wear.rev.vacant
  {
  }

  /** A connect that leaves the id maps unused. */
  method JoinUnused(e: ExchangeEngine, g: nat, ghost s: nat, ghost h: Past, ghost v: Server) returns (ghost h': Past, ghost v': Server)
    requires Stage(e, v, 0) && g < 3 && FirstUnused(v.core, s) && e.queues[g] == [] && Used(e.core.tables, 0, {1, 2, 3})
    requires LeadsTo(h, v)
    modifies e.Repr
    ensures |v.route| == U16 && v' == Joined(v, g, s) && Stage(e, v', 0) && Used(e.core.tables, 0, {1, 2, 3})
    ensures LeadsTo(h', v') && h'.states[0] == h.states[0] && e.queues == old(e.queues)[g := [Assigned(g, s, 0)]]
  {
    hide ExchangeCore.Parts, Bounded, Fitted, Leads, Unworn, Deliver, FirstUnused, Light, Used, LeadsTo;
    UsedTells(e.core, 0, {1, 2, 3});
    ghost var before := e.core.Condition();
    OneAssigned(e.queues, g, s);
    assert [] + [Assigned(g, s, 0)] == [Assigned(g, s, 0)];
    ghost var r := Join(e, g, s, v, 0);
    v' := Joined(v, g, s);
    OneMore(h, v, r, v');
    h' := Then(h, r, v');
    UnwornUsed(e.core, before, 0, {1, 2, 3});
  }

  /** Two gateways connect. */
  method Open() returns (e: ExchangeEngine, ghost h: Past, ghost v: Server)
    ensures fresh(e.Repr) && Stage(e, v, 0) && Trading(v, [], 1, IdMaps(map[], map[]), {}) && Used(e.core.tables, 0, {1, 2, 3})
    ensures LeadsTo(h, v) && h.states[0] == START
  {
    hide Stage, Used, LeadsTo, FirstUnused;
    e := NewEngine();
    h := Past([START], []);
    Beginning();
    FirstTwo(START.core);
    StageQueues(e, START, 0);
    h, v := JoinUnused(e, 0, 1, h, START);
    FirstTwo(v.core);
    h, v := JoinUnused(e, 2, 2, h, v);
  }

  lemma {:induction false} StageQueues(e: ExchangeEngine, v: Server, n: nat)
    requires Stage(e, v, n)
    ensures e.Owns() && |e.queues| == 4 && e.core.Owns()
  {
  }

  /** Two orders of session 1 come to rest, and both id maps are at their load cap. */
  method PlaceTwo(e: ExchangeEngine, ghost h: Past, ghost v: Server) returns (ghost h': Past, ghost v': Server)
    requires Stage(e, v, 0) && Trading(v, [], 1, IdMaps(map[], map[]), {}) && Used(e.core.tables, 0, {1, 2, 3}) && LeadsTo(h, v)
    modifies e.Repr
    ensures Stage(e, v', 2) && Trading(v', [ONE, TWO], 3, BOTH_IDS, {Key(1, 1), Key(1, 2)}) && Used(e.core.tables, 2, {3})
    ensures LeadsTo(h', v') && h'.states[0] == h.states[0]
  {
    hide Stage, Used, LeadsTo, Leads, Key, Rest, Ids;
    Resting();
    KeysDiffer();
    StageQueues(e, v, 0);
    ghost var o := AskInTime(e, 1, 10, v, 0, [], 0, {1, 2, 3});
    v' := Asked(v, [], 1, 10, o);
    h' := Then(h, New(0, 1, AskFor(1, 10, 5), o), v');
    OneMore(h, v, New(0, 1, AskFor(1, 10, 5), o), v');
    assert {1, 2, 3} - {1} == {2, 3} && {2, 3} - {2} == {3};
    ghost var v1, h1 := v', h';
    o := AskInTime(e, 2, 11, v1, 1, [ONE], 1, {2, 3});
    v' := Asked(v1, [ONE], 2, 11, o);
    h' := Then(h1, New(0, 1, AskFor(2, 11, 5), o), v');
    OneMore(h1, v1, New(0, 1, AskFor(2, 11, 5), o), v');
  }

  /** The first of them is cancelled, and two orders for nothing use up exchange ids 3 and 4. */
  method WearOut(e: ExchangeEngine, ghost h: Past, ghost v: Server) returns (ghost h': Past, ghost v': Server)
    requires Stage(e, v, 2) && Trading(v, [ONE, TWO], 3, BOTH_IDS, {Key(1, 1), Key(1, 2)}) && Used(e.core.tables, 2, {3})
    requires LeadsTo(h, v)
    modifies e.Repr
    ensures Stage(e, v', 4) && Trading(v', [TWO], 5, ONE_ID, {Key(1, 1), Key(1, 2), Key(1, 5), Key(1, 6)})
    ensures Buried(e.core.tables) && LeadsTo(h', v') && h'.states[0] == h.states[0]
  {
    hide Stage, Used, Buried, LeadsTo, Leads, Key;
    KeysDiffer();
    StageQueues(e, v, 2);
    CancelFirstOrder(e, v, 2);
    ghost var v1 := v.(core := WithAsks(v.core, [TWO]).(ids := ONE_ID));
    OneMore(h, v, Request.Cancel(0, 1, 1, 1, 0), v1);
    ghost var h1 := Then(h, Request.Cancel(0, 1, 1, 1, 0), v1);
    ghost var o := AskForNothing(e, 5, v1, 2, [TWO]);
    ghost var v2 := v1.(core := v1.core.(nextId := 4, seen := v1.core.seen + {Key(1, 5)}));
    OneMore(h1, v1, New(0, 1, AskFor(5, 10, 0), o), v2);
    ghost var h2 := Then(h1, New(0, 1, AskFor(5, 10, 0), o), v2);
    o := AskForNothing(e, 6, v2, 3, [TWO]);
    v' := v2.(core := v2.core.(nextId := 5, seen := v2.core.seen + {Key(1, 6)}));
    OneMore(h2, v2, New(0, 1, AskFor(6, 10, 0), o), v');
    h' := Then(h2, New(0, 1, AskFor(6, 10, 0), o), v');
  }

  const STRAY_IDS := IdMaps(map[Key(1, 2) := Entry(2)], map[2 := Asker(2), 5 := Asker(3)])

  /** Session 1 is over; its last order is in the book, and its owner in the reverse map. */
  ghost predicate Over(v: Server, counter: nat) {
    && OnlyAsks(v.core, [FIVE]) && v.core.nextId == 6 && v.core.ids == IdMaps(map[], map[5 := Asker(3)]) && v.core.seen == {}
    && v.core.sessions == {2} && v.core.nextSession == counter && v.creator == map[2 := 2] && |v.route| == U16
  }

  /** The server when the forward map alone has refused an order. */
  lemma {:induction false} StrayCore(v: Server, o: Oracle)
    requires Trading(v, [TWO], 5, ONE_ID, {Key(1, 1), Key(1, 2), Key(1, 5), Key(1, 6)}) && o == Oracle(true, true, false, true)
    ensures var v' := Asked(v, [TWO], 3, 10, o);
            Trading(v', [FIVE, TWO], 6, STRAY_IDS, {Key(1, 1), Key(1, 2), Key(1, 3), Key(1, 5), Key(1, 6)})
  {
    Resting();
    hide Key, Rest;
    assert v.core.seen + {Key(1, 3)} == {Key(1, 1), Key(1, 2), Key(1, 3), Key(1, 5), Key(1, 6)};
  }

  lemma {:induction false} SessionOver(v: Server)
    requires Trading(v, [FIVE, TWO], 6, STRAY_IDS, {Key(1, 1), Key(1, 2), Key(1, 3), Key(1, 5), Key(1, 6)})
    ensures Over(v.(core := Disconnect(v.core, 1), creator := v.creator - {1}), 3)
  {
    Left(v.core);
    hide Key, Disconnect;
    assert {1, 2} - {1} == {2};
    assert map[1 := 0, 2 := 2] - {1} == map[2 := 2];
  }

  /** The order the forward map refuses. */
  method GoAstray(e: ExchangeEngine, ghost h: Past, ghost v: Server) returns (ghost h': Past, ghost v': Server)
    requires Stage(e, v, 4) && Trading(v, [TWO], 5, ONE_ID, {Key(1, 1), Key(1, 2), Key(1, 5), Key(1, 6)})
    requires Buried(e.core.tables) && LeadsTo(h, v)
    modifies e.Repr
    ensures Stage(e, v', 5) && LeadsTo(h', v') && h'.states[0] == h.states[0]
    ensures Trading(v', [FIVE, TWO], 6, STRAY_IDS, {Key(1, 1), Key(1, 2), Key(1, 3), Key(1, 5), Key(1, 6)})
  {
    hide Stage, Buried, LeadsTo, Leads, Key, Asked;
    KeysDiffer();
    StageQueues(e, v, 4);
    ghost var o := AskTooLate(e, v, 4);
    StrayCore(v, o);
    v' := Asked(v, [TWO], 3, 10, o);
    OneMore(h, v, New(0, 1, AskFor(3, 10, 5), o), v');
    h' := Then(h, New(0, 1, AskFor(3, 10, 5), o), v');
  }

  /** And the end of the session. */
  method StrayAndLeave(e: ExchangeEngine, ghost h: Past, ghost v: Server) returns (ghost h': Past, ghost v': Server)
    requires Stage(e, v, 4) && Trading(v, [TWO], 5, ONE_ID, {Key(1, 1), Key(1, 2), Key(1, 5), Key(1, 6)})
    requires Buried(e.core.tables) && LeadsTo(h, v)
    modifies e.Repr
    ensures Stage(e, v', 5) && Over(v', 3) && LeadsTo(h', v') && h'.states[0] == h.states[0]
  {
    hide Stage, Buried, LeadsTo, Leads, Key, Disconnect, Over;
    ghost var h1, v1 := GoAstray(e, h, v);
    SessionOver(v1);
    Leave(e, 0, 1, v1, 5);
    v' := v1.(core := Disconnect(v1.core, 1), creator := v1.creator - {1});
    OneMore(h1, v1, ClientDisconnect(0, 1), v');
    h' := Then(h1, ClientDisconnect(0, 1), v');
  }

  lemma {:induction false} NextFirst(c: Core, s: nat)
    requires c.sessions == {2} && 0 < s < U16 && s != 2 && c.nextSession == (if s == 1 then 0 else s)
    ensures FirstUnused(c, s)
  {
  }

  /** Gateway 1 connects under the next id and leaves again. */
  method ComeAndGo(e: ExchangeEngine, s: nat, ghost h: Past, ghost v: Server) returns (ghost h': Past, ghost v': Server)
    requires Stage(e, v, 5) && Over(v, s) && 2 < s < U16 && LeadsTo(h, v)
    modifies e.Repr
    ensures Stage(e, v', 5) && Over(v', (s + 1) % U16) && LeadsTo(h', v') && h'.states[0] == h.states[0]
  {
    hide Stage, LeadsTo, Leads, FirstUnused, Disconnect, Unworn, Deliver;
    NextFirst(v.core, s);
    ReadAll(e, 1, v, 5);
    StageQueues(e, v, 5);
    ghost var r := Join(e, 1, s, v, 5);
    ghost var v1 := Joined(v, 1, s);
    OneMore(h, v, r, v1);
    ghost var h1 := Then(h, r, v1);
    CameAndWent(v.core, s);
    Leave(e, 1, s, v1, 5);
    v' := v1.(core := Disconnect(v1.core, s), creator := v1.creator - {s});
    OneMore(h1, v1, ClientDisconnect(1, s), v');
    h' := Then(h1, ClientDisconnect(1, s), v');
    assert map[2 := 2][s := 1] - {s} == map[2 := 2];
  }

  /** The counter wraps: every other id is given out and returned once. */
  method Wrap(e: ExchangeEngine, ghost h: Past, ghost v: Server) returns (ghost h': Past, ghost v': Server)
    requires Stage(e, v, 5) && Over(v, 3) && LeadsTo(h, v)
    modifies e.Repr
    ensures Stage(e, v', 5) && Over(v', 0) && LeadsTo(h', v') && h'.states[0] == h.states[0]
  {
    hide Stage, Leads, OnlyAsks;
    h', v' := h, v;
    for s := 3 to U16
      invariant Stage(e, v', 5) && Over(v', s % U16) && LeadsTo(h', v') && h'.states[0] == h.states[0]
    {
      h', v' := ComeAndGo(e, s, h', v');
    }
  }

  const TAKE := NewOrder(1, 1, Bid, 10, 5, 0)
  const STRAY_FILL := Filled(1, 3, 5, 1, Ask, 10, 5, 0, 0)

  lemma {:induction false} Dispatched(es: seq<Event>, route: seq<nat>, i: nat) returns (k: nat)
    requires |route| == U16 && i < |es| && !es[i].Bbo? && es[i].session < U16
    ensures k < |Dispatch(es, route)| && Dispatch(es, route)[k] == Response(route[es[i].session], es[i])
    decreases |es|
  {
    DispatchCons(es, route);
    if i == 0 {
      return 0;
    }
    k := Dispatched(es[1..], route, i - 1);
    k := k + |Route(es[0], route)|;
  }

  lemma {:induction false} FewPushes(es: seq<Event>, route: seq<nat>)
    requires |route| == U16
    ensures |Dispatch(es, route)| <= 2 * |es|
    decreases |es|
  {
    if es != [] {
      DispatchCons(es, route);
      FewPushes(es[1..], route);
    }
  }

  /** The events of an order that include the stray fill put it on the queue of gateway 1. */
  lemma {:induction false} Delivered(queues: seq<seq<Push>>, es: seq<Event>, route: seq<nat>)
    requires |queues| == 4 && queues[1] == [] && |route| == U16 && route[1] == 1 && |es| == 3 && es[2] == STRAY_FILL
    ensures Response(1, STRAY_FILL) in Dispatch(es, route)
    ensures Response(1, STRAY_FILL) in Deliver(queues, Dispatch(es, route), 3, 64)[1]
  {
    hide Dispatch, Deliver;
    FewPushes(es, route);
    var k := Dispatched(es, route, 2);
    Arrives(queues, Dispatch(es, route), 3, 64, k);
  }

  /** Serving the request sends p on its way. */
  ghost predicate Pushes(v: Server, r: Request, p: Push) {
    |v.route| == U16 && Typed(r) && p in Process(v, r).1
  }

  /** Gateway 2 takes what the stray order offers. */
  method Take(e: ExchangeEngine, ghost v: Server) returns (ghost o: Oracle)
    requires Stage(e, v, 5) && OnlyAsks(v.core, [FIVE]) && v.core.nextId == 6 && v.core.seen == {}
    requires v.core.ids == IdMaps(map[], map[5 := Asker(3)]) && Own(v, 2, 2) && |v.route| == U16 && v.route[1] == 1
    requires e.queues[1] == []
    modifies e.Repr
    ensures Leads(v, New(2, 2, TAKE, o), v.(core := SubmitOrder(v.core, 2, TAKE, o).0))
    ensures Pushes(v, New(2, 2, TAKE, o), Response(1, STRAY_FILL))
    ensures |e.queues| == 4 && Response(1, STRAY_FILL) in e.queues[1]
  {
    hide Fitted, Light, Leads, SubmitOrder, Dispatch, Deliver, Key, Bounded, ExchangeCore.Parts, ExchangeCore.IdGrounds;
    ghost var queues := e.queues;
    o := Send(e, 2, 2, TAKE, v, 5);
    Taken(v.core, o);
    Delivered(queues, SubmitOrder(v.core, 2, TAKE, o).1, v.route);
  }

  /** Session 1 belongs to gateway 1 now, and gateway 0's last order of that session still rests. */
  ghost predicate Inherited(v: Server) {
    && OnlyAsks(v.core, [FIVE]) && v.core.nextId == 6 && v.core.seen == {} && v.core.ids == IdMaps(map[], map[5 := Asker(3)])
    && v.creator == map[2 := 2, 1 := 1] && |v.route| == U16 && v.route[1] == 1
  }

  method Inherit(e: ExchangeEngine, ghost h: Past, ghost v: Server) returns (ghost h': Past, ghost v': Server)
    requires Stage(e, v, 5) && Over(v, 0) && LeadsTo(h, v)
    modifies e.Repr
    ensures Stage(e, v', 5) && Inherited(v') && LeadsTo(h', v') && h'.states[0] == h.states[0]
  {
    hide Stage, Leads, LeadsTo, FirstUnused, Unworn, Deliver;
    NextFirst(v.core, 1);
    ReadAll(e, 1, v, 5);
    StageQueues(e, v, 5);
    ghost var r := Join(e, 1, 1, v, 5);
    v' := Joined(v, 1, 1);
    OneMore(h, v, r, v');
    h' := Then(h, r, v');
  }

  /** Gateway 0's order for client id 3 outlives session 1, and when the session counter has wrapped
      gateway 1 is given that session. */
  method PassOn() returns (e: ExchangeEngine, ghost h: Past, ghost v: Server)
    ensures fresh(e.Repr) && Stage(e, v, 5) && Inherited(v) && LeadsTo(h, v) && h.states[0] == START
  {
    hide Stage, LeadsTo, Used, Buried, Trading, Over, Inherited;
    e, h, v := Open();
    StageQueues(e, v, 0);
    h, v := PlaceTwo(e, h, v);
    h, v := WearOut(e, h, v);
    h, v := StrayAndLeave(e, h, v);
    h, v := Wrap(e, h, v);
    h, v := Inherit(e, h, v);
  }

  /** A run of a new engine in which every connect is given the first unused id, every other request is
      for a session of its own gateway, and gateway 1 never places an order. The last request puts the
      fill of gateway 0's order on the queue of gateway 1, to which the session has passed. */
  method StrayFill() returns (e: ExchangeEngine, ghost h: Past, ghost v: Server, ghost last: Request, ghost end: Server)
    ensures LeadsTo(h, v) && h.states[0] == START && Inherited(v) && Leads(v, last, end)
    ensures last.New? && last.gateway == 2 && Pushes(v, last, Response(1, STRAY_FILL))
    ensures |e.queues| == 4 && Response(1, STRAY_FILL) in e.queues[1]
  {
    hide Stage, Leads, LeadsTo, Pushes, SubmitOrder;
    e, h, v := PassOn();
    ReadAll(e, 1, v, 5);
    StageQueues(e, v, 5);
    ghost var o := Take(e, v);
    last, end := New(2, 2, TAKE, o), v.(core := SubmitOrder(v.core, 2, TAKE, o).0);
  }
}
