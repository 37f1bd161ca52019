/** The engine's request step: one core, a table from session to gateway, and the responses it
    sends; whole runs of it. */
module ExchangeRouting {
  import opened Machine
  import opened Books
  import opened Ladders
  import opened Matching
  import opened Exchange
  import opened ExchangeIds
  import opened ExchangeRuns
  import opened ExchangeSessions

  /** A request as a gateway queues it. What the engine finds out on the way is part of it: the
      session id a connect is given, whether its answer fits the gateway's queue, and which
      tables had room. */
  datatype Request =
    | ClientConnect(gateway: nat, tag: nat, given: nat, answered: bool)
    | ClientDisconnect(gateway: nat, session: nat)
    | New(gateway: nat, session: nat, order: NewOrder, o: Oracle)
    | Cancel(gateway: nat, session: nat, cid: nat, symbol: nat, ts: int)
    | Replace(gateway: nat, session: nat, change: ModifyRequest, o: Oracle)

  /** A push to a gateway's response queue or to the market data queue; either may be dropped. */
  datatype Push =
    | Assigned(gateway: nat, session: nat, tag: nat)
    | Response(gateway: nat, event: Event)
    | MarketData(event: Event)

  /** creator remembers, for each session in use, the gateway whose connect made it. */
  datatype Server = Server(core: Core, route: seq<nat>, gateways: nat, creator: map<nat, nat>)

  function Dispatch(es: seq<Event>, route: seq<nat>): seq<Push>
    requires |route| == U16
  {
    if es == [] then []
    else
      var e, rest := es[0], Dispatch(es[1..], route);
      if e.Bbo? then [MarketData(e)] + rest
      else
        var gw := if e.session < U16 then route[e.session] else 0;
        if e.Filled? then [Response(gw, e), MarketData(e)] + rest else [Response(gw, e)] + rest
  }

  function Process(v: Server, r: Request): (Server, seq<Push>)
    requires |v.route| == U16 && (r.ClientConnect? ==> r.given < U16)
  {
    if r.gateway >= v.gateways then (v, [])
    else match r
      case ClientConnect(gw, tag, s, answered) =>
        var core := Connect(v.core, s);
        if answered then (v.(core := core, route := v.route[s := gw], creator := v.creator[s := gw]), [Assigned(gw, s, tag)])
        else (v.(core := Disconnect(core, s), route := v.route[s := 0]), [Assigned(gw, s, tag)])
      case ClientDisconnect(gw, s) =>
        (v.(core := Disconnect(v.core, s), creator := v.creator - {s}), [])
      case New(gw, s, q, o) =>
        var (core, es) := SubmitOrder(v.core, s, q, o);
        (v.(core := core), Dispatch(es, v.route))
      case Cancel(gw, s, cid, symbol, ts) =>
        var (core, es) := CancelOrder(v.core, s, cid, symbol, ts);
        (v.(core := core), Dispatch(es, v.route))
      case Replace(gw, s, q, o) =>
        var (core, es) := ModifyOrder(v.core, s, q, o);
        (v.(core := core), Dispatch(es, v.route))
  }

  /** Neither id map refuses an order that this request brings to rest. */
  ghost predicate Unrefused(v: Server, r: Request) {
    r.gateway < v.gateways ==>
      match r
      case New(_, s, q, o) => Rests(v.core, s, q, o) ==> o.fwd && o.rev
      case Replace(_, s, q, o) => Resettles(v.core, s, q, o) ==> o.fwd && o.rev
      case _ => true
  }

  /** The numbers of a request fit their machine types. */
  ghost predicate Typed(r: Request) {
    match r
    case ClientConnect(_, _, s, _) => s < U16
    case ClientDisconnect(_, s) => s < U16
    case New(_, s, q, _) => s < U16 && q.qty < U32
    case Cancel(_, s, _, _, _) => s < U16
    case Replace(_, s, q, _) => s < U16 && q.qty < U32
  }

  /** What gateways and tables are assumed to do: a gateway names only sessions it was given
      and has not ended, session ids given out are not in use, and no id map refuses an entry. */
  ghost predicate Proper(v: Server, r: Request) {
    && Typed(r) && Unrefused(v, r)
    && (r.ClientConnect? ==> r.given != 0 && r.given !in v.core.sessions)
    && (!r.ClientConnect? ==> r.session in v.creator && v.creator[r.session] == r.gateway)
  }

  ghost predicate Routed(v: Server) {
    && Consistent(v.core) && |v.route| == U16
    && v.creator.Keys == v.core.sessions
    && (forall s :: s in v.creator ==> v.route[s] == v.creator[s])
  }

  // ---------------------------------------------------------------------------
  // Whose events a request emits
  // ---------------------------------------------------------------------------

  /** Every event but a market data update is for the given session or for an owner in rev. */
  ghost predicate For(es: seq<Event>, session: nat, rev: map<nat, Owner>) {
    forall i :: 0 <= i < |es| && !es[i].Bbo? ==> es[i].session == session || exists x :: x in rev && rev[x].session == es[i].session
  }

  lemma {:induction false} ForConcat(a: seq<Event>, b: seq<Event>, session: nat, rev: map<nat, Owner>)
    requires For(a, session, rev) && For(b, session, rev)
    ensures For(a + b, session, rev)
  {
    forall i | 0 <= i < |a + b| && !(a + b)[i].Bbo?
      ensures (a + b)[i].session == session || exists x :: x in rev && rev[x].session == (a + b)[i].session
    {
      assert (a + b)[i] == if i < |a| then a[i] else b[i - |a|];
    }
  }

  lemma {:induction false} ReportFor(m: IdMaps, b: Book, t: Taker, fills: seq<Fill>, qty: nat, rev: map<nat, Owner>)
    requires forall x :: x in m.rev ==> m.rev[x].session == t.session || (x in rev && rev[x] == m.rev[x])
    ensures For(Report(m, b, t, fills, qty).1, t.session, rev)
    decreases |fills|
  {
    if fills == [] {
      return;
    }
    var (m1, made) := ReportMaker(m, b, fills[0], t.side);
    var left := Sub32(qty, fills[0].qty);
    ReportFor(m1, b, t, fills[1..], left, rev);
    var head := [TakerFill(t, fills[0], left)];
    assert For(head, t.session, rev);
    assert For(made, t.session, rev);
    assert For(Bbos(t.symbol, b), t.session, rev);
    ForConcat(head, made, t.session, rev);
    ForConcat(head + made, Bbos(t.symbol, b), t.session, rev);
    ForConcat(head + made + Bbos(t.symbol, b), Report(m1, b, t, fills[1..], left).1, t.session, rev);
  }

  lemma {:induction false} SubmitFor(c: Core, session: nat, q: NewOrder, o: Oracle)
    ensures For(SubmitOrder(c, session, q, o).1, session, c.ids.rev)
  {
    hide Submit, Report, Key;
    if q.cid >= CLIENT_IDS || !Listed(c, q.symbol) || Key(session, q.cid) in c.seen || !o.seen {
      return;
    }
    var xid, i := c.nextId, q.symbol - 1;
    var (r, b) := Submit(c.books[i], xid, q.side, q.price, q.qty, MAX_FILLS, o.rests);
    var t := Taker(session, q.cid, xid, q.symbol, q.side, q.ts);
    ReportFor(c.ids, b, t, r.fills, q.qty, c.ids.rev);
    ForConcat([Accepted(session, q.cid, xid, q.symbol, q.ts)], Report(c.ids, b, t, r.fills, q.qty).1, session, c.ids.rev);
  }

  lemma {:induction false} ModifyFor(c: Core, session: nat, q: ModifyRequest, o: Oracle)
    ensures For(ModifyOrder(c, session, q, o).1, session, c.ids.rev)
  {
    hide Submit, Report, Key, BookIds, Matching.Modify;
    if q.cid >= CLIENT_IDS || !Listed(c, q.symbol) || Key(session, q.cid) !in c.ids.fwd {
      return;
    }
    var e, xid, i := c.ids.fwd[Key(session, q.cid)], c.nextId, q.symbol - 1;
    if e.xid !in BookIds(c.books[i]) {
      return;
    }
    var (r, b) := Matching.Modify(c.books[i], e.xid, e.side, q.price, q.qty, xid, MAX_FILLS, o.rests);
    var m := IdMaps(c.ids.fwd - {Key(session, q.cid)}, c.ids.rev - {e.xid});
    var m1 := if r.rested then Enter(m, xid, e.side, Owner(session, q.cid, e.symbol, q.ts), o) else m;
    var t := Taker(session, q.cid, xid, q.symbol, e.side, q.ts);
    ReportFor(m1, b, t, r.fills, q.qty, c.ids.rev);
    ForConcat([ModifyAck(session, q.cid, xid, q.symbol, q.ts)], Report(m1, b, t, r.fills, q.qty).1, session, c.ids.rev);
  }

  // ---------------------------------------------------------------------------
  // Where responses go
  // ---------------------------------------------------------------------------

  /** Every response goes to the gateway that created the session it is for. */
  ghost predicate ToCreators(ps: seq<Push>, creator: map<nat, nat>) {
    forall i :: 0 <= i < |ps| && ps[i].Response? ==>
      !ps[i].event.Bbo? && ps[i].event.session in creator && creator[ps[i].event.session] == ps[i].gateway
  }

  lemma {:induction false} DispatchRight(es: seq<Event>, route: seq<nat>, creator: map<nat, nat>)
    requires |route| == U16 && forall s :: s in creator ==> s < U16 && route[s] == creator[s]
    requires forall i :: 0 <= i < |es| && !es[i].Bbo? ==> es[i].session in creator
    ensures ToCreators(Dispatch(es, route), creator)
  {
    if es != [] {
      DispatchRight(es[1..], route, creator);
    }
  }

  lemma {:induction false} OwnersActive(c: Core)
    requires Consistent(c)
    ensures forall x :: x in c.ids.rev ==> c.ids.rev[x].session in c.sessions
  {
    forall x | x in c.ids.rev
      ensures c.ids.rev[x].session in c.sessions
    {
      KeyParts(c.ids.rev[x].session, c.ids.rev[x].cid);
      assert KeyOf(c.ids.rev[x]) in c.ids.fwd.Keys;
    }
  }

  /** The events of a request for a live session reach the right gateways. */
  lemma {:induction false} EventsRight(v: Server, es: seq<Event>, session: nat)
    requires Routed(v) && session in v.creator && For(es, session, v.core.ids.rev)
    ensures ToCreators(Dispatch(es, v.route), v.creator)
  {
    OwnersActive(v.core);
    DispatchRight(es, v.route, v.creator);
  }

  lemma {:induction false} SubmitSessions(c: Core, session: nat, q: NewOrder, o: Oracle)
    ensures SubmitOrder(c, session, q, o).0.sessions == c.sessions
  {
  }

  lemma {:induction false} ModifySessions(c: Core, session: nat, q: ModifyRequest, o: Oracle)
    ensures ModifyOrder(c, session, q, o).0.sessions == c.sessions
  {
  }

  lemma {:induction false} ConnectKeeps(c: Core, s: nat)
    requires Linked(c)
    ensures Linked(Connect(c, s))
  {
  }

  lemma {:induction false} SubmitManned(c: Core, session: nat, q: NewOrder, o: Oracle)
    requires Manned(c) && session in c.sessions
    ensures Manned(SubmitOrder(c, session, q, o).0)
  {
    hide Submit, Report, Key;
    if q.cid < CLIENT_IDS {
      KeyParts(session, q.cid);
    }
  }

  lemma {:induction false} ModifyManned(c: Core, session: nat, q: ModifyRequest, o: Oracle)
    requires Manned(c)
    ensures Manned(ModifyOrder(c, session, q, o).0)
  {
    hide Submit, Report, Key, BookIds, Matching.Modify;
  }

  lemma {:induction false} CancelManned(c: Core, session: nat, cid: nat, symbol: nat, ts: int)
    requires Manned(c)
    ensures Manned(CancelOrder(c, session, cid, symbol, ts).0)
  {
  }

  lemma {:induction false} SessionsManned(c: Core, session: nat)
    requires Manned(c)
    ensures Manned(Disconnect(c, session)) && (0 < session < U16 ==> Manned(Connect(c, session)))
  {
  }

  // ---------------------------------------------------------------------------
  // Maps and books
  // ---------------------------------------------------------------------------

  /** One request, from whichever gateway and for whichever session, keeps maps and books linked
      if and only if the id maps refuse nothing that it brings to rest. */
  lemma {:induction false} ProcessLinked(v: Server, r: Request)
    requires |v.route| == U16 && Typed(r) && Linked(v.core)
    ensures Linked(Process(v, r).0.core) <==> Unrefused(v, r)
  {
    hide Linked, SubmitOrder, ModifyOrder, CancelOrder, Dispatch, Rests, Resettles, Connect, Disconnect;
    if r.gateway >= v.gateways {
      return;
    }
    match r
    case ClientConnect(gw, tag, s, answered) =>
      ConnectKeeps(v.core, s);
      DisconnectKeeps(Connect(v.core, s), s);
    case ClientDisconnect(gw, s) => DisconnectKeeps(v.core, s);
    case New(gw, s, q, o) => SubmitKeepsExactly(v.core, s, q, o);
    case Cancel(gw, s, cid, symbol, ts) => CancelKeeps(v.core, s, cid, symbol, ts);
    case Replace(gw, s, q, o) => ModifyKeepsExactly(v.core, s, q, o);
  }

  /** One step keeps the invariant and sends every response to its session's own gateway. */
  lemma {:induction false} ProcessRoutes(v: Server, r: Request)
    requires Routed(v) && Proper(v, r)
    ensures Routed(Process(v, r).0)
    ensures ToCreators(Process(v, r).1, v.creator)
  {
    ProcessLinked(v, r);
    ProcessManned(v, r);
    hide Linked, Manned, SubmitOrder, ModifyOrder, CancelOrder, For, Dispatch;
    if r.gateway >= v.gateways {
      return;
    }
    match r
    case ClientConnect(gw, tag, s, answered) => SessionsPositive(v.core);
    case ClientDisconnect(gw, s) => SessionsPositive(v.core);
    case New(gw, s, q, o) =>
      SubmitSessions(v.core, s, q, o);
      SubmitFor(v.core, s, q, o);
      EventsRight(v, SubmitOrder(v.core, s, q, o).1, s);
    case Cancel(gw, s, cid, symbol, ts) =>
      CancelSessions(v.core, s, cid, symbol, ts);
      CancelFor(v.core, s, cid, symbol, ts);
      EventsRight(v, CancelOrder(v.core, s, cid, symbol, ts).1, s);
    case Replace(gw, s, q, o) =>
      ModifySessions(v.core, s, q, o);
      ModifyFor(v.core, s, q, o);
      EventsRight(v, ModifyOrder(v.core, s, q, o).1, s);
  }

  lemma {:induction false} ProcessManned(v: Server, r: Request)
    requires Routed(v) && Proper(v, r)
    ensures Manned(Process(v, r).0.core)
  {
    hide Linked, Manned, SubmitOrder, ModifyOrder, CancelOrder, Dispatch, Unrefused, Connect, Disconnect;
    if r.gateway >= v.gateways {
      return;
    }
    match r
    case ClientConnect(gw, tag, s, answered) =>
      SessionsManned(v.core, s);
      SessionsManned(Connect(v.core, s), s);
    case ClientDisconnect(gw, s) => SessionsManned(v.core, s);
    case New(gw, s, q, o) => SubmitManned(v.core, s, q, o);
    case Cancel(gw, s, cid, symbol, ts) => CancelManned(v.core, s, cid, symbol, ts);
    case Replace(gw, s, q, o) => ModifyManned(v.core, s, q, o);
  }

  lemma {:induction false} SessionsPositive(c: Core)
    requires Consistent(c)
    ensures forall s :: s in c.sessions ==> 0 < s < U16
  {
  }

  lemma {:induction false} CancelSessions(c: Core, session: nat, cid: nat, symbol: nat, ts: int)
    ensures CancelOrder(c, session, cid, symbol, ts).0.sessions == c.sessions
  {
  }

  lemma {:induction false} CancelFor(c: Core, session: nat, cid: nat, symbol: nat, ts: int)
    ensures For(CancelOrder(c, session, cid, symbol, ts).1, session, c.ids.rev)
  {
  }

  // ---------------------------------------------------------------------------
  // Whole runs
  // ---------------------------------------------------------------------------

  /** The states of a run: rs[i] leads from states[i] to states[i + 1]. Nothing is assumed of the
      gateways, of the sessions they name or of the room in the tables. */
  ghost predicate Run(states: seq<Server>, rs: seq<Request>) {
    && |states| == |rs| + 1
    && (forall i :: 0 <= i < |rs| ==>
          Typed(rs[i]) && |states[i].route| == U16 && states[i + 1] == Process(states[i], rs[i]).0)
  }

  /** In every run in which the id maps refuse nothing that comes to rest, whatever sessions the
      gateways name: the two maps are inverse, they name exactly the resting orders, each with its
      symbol and side, and every key is in the seen set. */
  lemma {:induction false} RunLinked(states: seq<Server>, rs: seq<Request>, n: nat)
    requires Run(states, rs) && n <= |rs| && Linked(states[0].core)
    requires forall i :: 0 <= i < n ==> Unrefused(states[i], rs[i])
    ensures Linked(states[n].core)
  {
    hide Linked, Process, Unrefused, Typed;
    if n > 0 {
      RunLinked(states, rs, n - 1);
      ProcessLinked(states[n - 1], rs[n - 1]);
    }
  }

  /** A run of gateways that name only sessions of their own. */
  ghost predicate ProperRun(states: seq<Server>, rs: seq<Request>) {
    Run(states, rs) && Routed(states[0]) && forall i :: 0 <= i < |rs| ==> Proper(states[i], rs[i])
  }

  /** In every such run every state is consistent, and every response of every request goes to the
      gateway whose connect created the session, across reuse of session ids and rollback. */
  lemma {:induction false} RunRoutes(states: seq<Server>, rs: seq<Request>, n: nat)
    requires ProperRun(states, rs) && n <= |rs|
    ensures Routed(states[n])
    ensures n < |rs| ==> ToCreators(Process(states[n], rs[n]).1, states[n].creator)
  {
    hide Routed, Proper, ToCreators, Process, Typed;
    if n > 0 {
      RunRoutes(states, rs, n - 1);
      ProcessRoutes(states[n - 1], rs[n - 1]);
    }
    if n < |rs| {
      ProcessRoutes(states[n], rs[n]);
    }
  }

  // ---------------------------------------------------------------------------
  // One order per client id
  // ---------------------------------------------------------------------------

  /** The request is accepted as a new order under a key. */
  ghost predicate Accepts(v: Server, r: Request, session: nat, cid: nat) {
    && r.New? && r.gateway < v.gateways && r.session == session && r.order.cid == cid
    && SubmitOrder(v.core, session, r.order, r.o).1[0].Accepted?
  }

  /** The request ends the session: a disconnect, or a connect to it that is rolled back. */
  ghost predicate EndsSession(v: Server, r: Request, session: nat) {
    r.gateway < v.gateways &&
    ((r.ClientDisconnect? && r.session == session) || (r.ClientConnect? && r.given == session && !r.answered))
  }

  lemma {:induction false} AcceptMarks(v: Server, r: Request, session: nat, cid: nat)
    requires |v.route| == U16 && Accepts(v, r, session, cid)
    ensures Key(session, cid) !in v.core.seen && Key(session, cid) in Process(v, r).0.core.seen && cid < CLIENT_IDS
  {
    hide Submit, Report, Key;
  }

  lemma {:induction false} SeenStays(v: Server, r: Request, session: nat, cid: nat)
    requires |v.route| == U16 && Typed(r) && session < U16 && cid < CLIENT_IDS && !EndsSession(v, r, session)
    requires Key(session, cid) in v.core.seen
    ensures Key(session, cid) in Process(v, r).0.core.seen
  {
    KeyParts(session, cid);
    hide Submit, Report, Key;
  }

  /** In every run, within the lifetime of a session at most one order is accepted under a client order id:
      between two such acceptances the session ended. */
  lemma {:induction false} AcceptedOnce(states: seq<Server>, rs: seq<Request>, a: nat, b: nat, session: nat, cid: nat)
    requires Run(states, rs) && a < b < |rs| && session < U16
    requires Accepts(states[a], rs[a], session, cid) && Accepts(states[b], rs[b], session, cid)
    ensures exists i :: a < i < b && EndsSession(states[i], rs[i], session)
  {
    AcceptMarks(states[a], rs[a], session, cid);
    AcceptMarks(states[b], rs[b], session, cid);
    if forall i :: a < i < b ==> !EndsSession(states[i], rs[i], session) {
      SeenUntil(states, rs, a, b, session, cid);
    }
  }

  lemma {:induction false} SeenUntil(states: seq<Server>, rs: seq<Request>, a: nat, b: nat, session: nat, cid: nat)
    requires Run(states, rs) && a < b <= |rs| && session < U16 && cid < CLIENT_IDS
    requires Key(session, cid) in states[a + 1].core.seen
    requires forall i :: a < i < b ==> !EndsSession(states[i], rs[i], session)
    ensures Key(session, cid) in states[b].core.seen
    decreases b
  {
    hide Process, EndsSession, Key, Typed;
    if b > a + 1 {
      SeenUntil(states, rs, a, b - 1, session, cid);
      SeenStays(states[b - 1], rs[b - 1], session, cid);
    }
  }
}
