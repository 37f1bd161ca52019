/** The engine process: requests from gateways, the core, the routing table and the queues. */
module ExchangeEngines {
  import opened Machine
  import opened Venues
  import opened Exchange
  import opened ExchangeRuns
  import opened ExchangeSessions
  import opened ExchangeRouting
  import opened ExchangeTables
  import opened ExchangeCores

  /** A request as it arrives. */
  datatype Message =
    | Hello(gateway: nat, tag: nat)
    | Bye(gateway: nat, session: nat)
    | Order(gateway: nat, session: nat, order: NewOrder)
    | Withdraw(gateway: nat, session: nat, cid: nat, symbol: nat, ts: int)
    | Change(gateway: nat, session: nat, change: ModifyRequest)

  /** r is the message together with what the engine found out while serving it. */
  ghost predicate Serves(msg: Message, r: Request) {
    match msg
    case Hello(g, tag) => r.ClientConnect? && r.gateway == g && r.tag == tag
    case Bye(g, s) => r == ClientDisconnect(g, s)
    case Order(g, s, q) => r.New? && r.gateway == g && r.session == s && r.order == q
    case Withdraw(g, s, cid, symbol, ts) => r == Cancel(g, s, cid, symbol, ts)
    case Change(g, s, q) => r.Replace? && r.gateway == g && r.session == s && r.change == q
  }

  predicate Fits(msg: Message) {
    match msg
    case Hello(_, _) => true
    case Bye(_, s) => s < U16
    case Order(_, s, q) => s < U16 && q.qty < U32
    case Withdraw(_, s, _, _, _) => s < U16
    case Change(_, s, q) => s < U16 && q.qty < U32
  }

  /** The queue a push goes to: one per gateway, and market data after the last. */
  function QueueOf(p: Push, gateways: nat): nat {
    if p.MarketData? then gateways else p.gateway
  }

  predicate HasQueue(p: Push, gateways: nat) {
    p.MarketData? || p.gateway < gateways
  }

  /** Pushing to bounded queues one after the other; a full queue drops. */
  function Deliver(queues: seq<seq<Push>>, ps: seq<Push>, gateways: nat, cap: nat): (r: seq<seq<Push>>)
    requires |queues| == gateways + 1
    ensures |r| == gateways + 1
    decreases |ps|
  {
    if ps == [] then queues
    else
      var g := QueueOf(ps[0], gateways);
      var queues' := if HasQueue(ps[0], gateways) && |queues[g]| < cap then queues[g := queues[g] + [ps[0]]] else queues;
      Deliver(queues', ps[1..], gateways, cap)
  }

  lemma {:induction false} DeliverConcat(queues: seq<seq<Push>>, a: seq<Push>, b: seq<Push>, gateways: nat, cap: nat)
    requires |queues| == gateways + 1
    ensures Deliver(queues, a + b, gateways, cap) == Deliver(Deliver(queues, a, gateways, cap), b, gateways, cap)
    decreases |a|
  {
    if a == [] {
      assert a + b == b;
    } else {
      var g := QueueOf(a[0], gateways);
      var queues' := if HasQueue(a[0], gateways) && |queues[g]| < cap then queues[g := queues[g] + [a[0]]] else queues;
      assert (a + b)[1..] == a[1..] + b && (a + b)[0] == a[0];
      DeliverConcat(queues', a[1..], b, gateways, cap);
    }
  }

  /** A push for a queue that has room for every push arrives. */
  lemma {:induction false} Arrives(queues: seq<seq<Push>>, ps: seq<Push>, gateways: nat, cap: nat, k: nat)
    requires |queues| == gateways + 1 && k < |ps| && HasQueue(ps[k], gateways)
    requires |queues[QueueOf(ps[k], gateways)]| + |ps| <= cap
    ensures ps[k] in Deliver(queues, ps, gateways, cap)[QueueOf(ps[k], gateways)]
    decreases |ps|
  {
    var g := QueueOf(ps[0], gateways);
    var queues' := if HasQueue(ps[0], gateways) && |queues[g]| < cap then queues[g := queues[g] + [ps[0]]] else queues;
    if k == 0 {
      Remains(queues', ps[1..], gateways, cap, g, ps[0]);
    } else {
      Arrives(queues', ps[1..], gateways, cap, k - 1);
    }
  }

  lemma {:induction false} Remains(queues: seq<seq<Push>>, ps: seq<Push>, gateways: nat, cap: nat, g: nat, p: Push)
    requires |queues| == gateways + 1 && g <= gateways && p in queues[g]
    ensures p in Deliver(queues, ps, gateways, cap)[g]
    decreases |ps|
  {
    if ps != [] {
      var h := QueueOf(ps[0], gateways);
      var queues' := if HasQueue(ps[0], gateways) && |queues[h]| < cap then queues[h := queues[h] + [ps[0]]] else queues;
      Remains(queues', ps[1..], gateways, cap, g, p);
    }
  }

  /** Where one event goes. */
  function Route(e: Event, route: seq<nat>): seq<Push>
    requires |route| == U16
  {
    if e.Bbo? then [MarketData(e)]
    else
      var gw := if e.session < U16 then route[e.session] else 0;
      if e.Filled? then [Response(gw, e), MarketData(e)] else [Response(gw, e)]
  }

  lemma {:induction false} DispatchSnoc(es: seq<Event>, route: seq<nat>, e: Event)
    requires |route| == U16
    ensures Dispatch(es + [e], route) == Dispatch(es, route) + Route(e, route)
  {
    hide Route;
    if es == [] {
      DispatchCons([e], route);
      assert es + [e] == [e] && [e][1..] == [];
      return;
    }
    DispatchSnoc(es[1..], route, e);
    DispatchCons(es, route);
    DispatchCons(es + [e], route);
    assert (es + [e])[1..] == es[1..] + [e];
  }

  lemma {:induction false} DispatchCons(es: seq<Event>, route: seq<nat>)
    requires |route| == U16 && es != []
    ensures Dispatch(es, route) == Route(es[0], route) + Dispatch(es[1..], route)
  {
  }

  lemma {:induction false} NobodyRouted(v: Server)
    requires Consistent(v.core) && v.core.sessions == {} && |v.route| == U16 && v.creator == map[]
    ensures Routed(v)
  {
  }

  class ExchangeEngine {
    const core: ExchangeCore
    const gateways: nat
    const capacity: nat
    const route: array<nat>
    var queues: seq<seq<Push>>
    ghost var creator: map<nat, nat>
    ghost const Repr: set<object>

    ghost predicate Owns() {
      && Repr == {this, route} + core.Repr && this !in core.Repr && route !in core.Repr
      && core.Owns() && route.Length == U16
    }

    ghost function State(): Server
      requires Owns()
      reads Repr
    {
      Server(core.State(), route[..], gateways, creator)
    }

    /** Between requests the core's event buffer is drained. */
    ghost predicate Valid()
      reads Repr
    {
      Owns() && core.Valid() && core.buffer.count == 0 && |queues| == gateways + 1
    }

    constructor (c: ExchangeCore, g: nat, cap: nat)
      requires c.Owns() && c.Valid() && c.buffer.count == 0 && c.State().sessions == {} && Consistent(c.State())
      ensures Valid() && core == c && gateways == g && capacity == cap && creator == map[]
      ensures Routed(State()) && State() == Server(c.State(), seq(U16, _ => 0), g, map[]) && fresh(Repr - c.Repr)
      ensures forall q :: 0 <= q <= g ==> queues[q] == []
    {
      hide ExchangeCore.Parts, Consistent;
      core, gateways, capacity := c, g, cap;
      route := new nat[U16](_ => 0);
      queues := seq(g + 1, _ => []);
      creator := map[];
      Repr := {this, route} + c.Repr;
      new;
      NobodyRouted(State());
    }

    method TryPush(p: Push) returns (ok: bool)
      requires |queues| == gateways + 1
      modifies this`queues
      ensures |queues| == gateways + 1 && queues == Deliver(old(queues), [p], gateways, capacity)
      ensures ok == (HasQueue(p, gateways) && |old(queues)[QueueOf(p, gateways)]| < capacity)
    {
      var g := QueueOf(p, gateways);
      ok := HasQueue(p, gateways) && |queues[g]| < capacity;
      if ok {
        queues := queues[g := queues[g] + [p]];
      }
    }

    method Push(e: Event)
      requires |queues| == gateways + 1 && route.Length == U16
      modifies this`queues
      ensures |queues| == gateways + 1 && queues == Deliver(old(queues), Route(e, route[..]), gateways, capacity)
    {
      hide Deliver;
      ghost var before := queues;
      if e.Bbo? {
        var _ := TryPush(MarketData(e));
        return;
      }
      var gw := if e.session < U16 then route[e.session] else 0;
      var _ := TryPush(Response(gw, e));
      if e.Filled? {
        var _ := TryPush(MarketData(e));
        DeliverConcat(before, [Response(gw, e)], [MarketData(e)], gateways, capacity);
        assert [Response(gw, e)] + [MarketData(e)] == [Response(gw, e), MarketData(e)];
      }
    }

    lemma {:induction false} DeliverNone(qs: seq<seq<Push>>)
      requires |qs| == gateways + 1
      ensures Deliver(qs, [], gateways, capacity) == qs
    {
    }

    /** A gateway takes the oldest push off its queue, if there is one. */
    method Pop(g: nat) returns (r: Option<Push>)
      requires Valid() && g <= gateways
      modifies this`queues
      ensures Valid() && State() == old(State())
      ensures r == if old(queues)[g] == [] then None else Some(old(queues)[g][0])
      ensures queues == if old(queues)[g] == [] then old(queues) else old(queues)[g := old(queues)[g][1..]]
    {
      hide ExchangeCore.Parts, ExchangeCore.State, Bounded;
      if queues[g] == [] {
        return None;
      }
      r := Some(queues[g][0]);
      queues := queues[g := queues[g][1..]];
    }

    /** Pushes events where they belong, in order. */
    method PushAll(es: seq<Event>)
      requires |queues| == gateways + 1 && route.Length == U16
      modifies this`queues
      ensures |queues| == gateways + 1 && queues == Deliver(old(queues), Dispatch(es, route[..]), gateways, capacity)
    {
      hide Deliver, Dispatch, Route;
      DeliverNone(queues);
      ghost var before, table := queues, route[..];
      NothingToDispatch(table);
      assert es[..0] == [];
      for k := 0 to |es|
        invariant |queues| == gateways + 1 && queues == Deliver(before, Dispatch(es[..k], table), gateways, capacity)
      {
        DispatchSnoc(es[..k], table, es[k]);
        assert es[..k + 1] == es[..k] + [es[k]];
        Push(es[k]);
        DeliverConcat(before, Dispatch(es[..k], table), Route(es[k], table), gateways, capacity);
      }
      assert es[..|es|] == es;
    }

    lemma {:induction false} NothingToDispatch(table: seq<nat>)
      requires |table| == U16
      ensures Dispatch([], table) == []
    {
    }

    /** Drains the core's events and pushes each where it belongs. */
    method DrainAndDispatch()
      requires Owns() && core.Valid() && |queues| == gateways + 1
      modifies this`queues, core.buffer
      ensures core.Valid() && core.State() == old(core.State()) && core.buffer.count == 0 && |queues| == gateways + 1
      ensures queues == Deliver(old(queues), Dispatch(old(core.buffer.Events()), route[..]), gateways, capacity)
    {
      hide ExchangeCore.Parts, ExchangeCore.State, Deliver, Dispatch;
      var es := core.Drain();
      PushAll(es);
    }

    /** Why a request came out as r says. A connect is given the first session id from the counter on
        that is not in use, and it is answered exactly when the gateway's queue had room; otherwise it
        is rolled back. What the core's tables and books answered has the core's own grounds, and only
        orders wear them. */
    twostate predicate Grounds(r: Request)
      requires old(Valid()) && Valid()
      reads Repr
    {
      r.gateway < gateways ==>
        match r
        case ClientConnect(g, _, given, answered) =>
          && FirstUnused(old(core.State()), given) && answered == (|old(queues)[g]| < capacity)
          && Unworn(old(core.Condition()), core.Condition())
        case New(_, s, q, o) => core.SubmitGrounds(s, q, o)
        case Replace(_, s, q, o) => core.ModifyGrounds(s, q, o)
        case _ => Unworn(old(core.Condition()), core.Condition())
    }

    /** One request. State and pushes are those of the model's step, on the grounds above. The
        request fails, standing for the abort, only when no session id is left. */
    method ProcessRequest(msg: Message) returns (ok: bool, ghost r: Request)
      requires Valid() && Fits(msg)
      modifies Repr
      ensures ok ==> Valid() && Serves(msg, r) && Grounds(r) && (r.ClientConnect? ==> r.given < U16)
      ensures ok ==> State() == Process(old(State()), r).0
      ensures ok ==> queues == Deliver(old(queues), Process(old(State()), r).1, gateways, capacity)
      ensures !ok ==> msg.Hello? && forall s :: 0 < s < U16 ==> s in old(State()).core.sessions
    {
      hide ExchangeCore.Parts, ExchangeCore.State, ExchangeCore.SubmitGrounds, ExchangeCore.ModifyGrounds;
      hide ExchangeCore.Condition, Unworn;
      hide Bounded, Deliver, Dispatch, SubmitOrder, ModifyOrder, CancelOrder, Disconnect, Connect, FirstUnused;
      ok := true;
      match msg
      case Hello(g, tag) =>
        r := ClientConnect(g, tag, 0, true);
        if g < gateways {
          ok, r := Welcome(g, tag);
        } else {
          DeliverNone(queues);
        }
      case Bye(g, s) =>
        r := ClientDisconnect(g, s);
        DeliverNone(queues);
        if g < gateways {
          core.Disconnect(s);
          creator := creator - {s};
        }
      case Order(g, s, q) =>
        r := New(g, s, q, Oracle(true, true, true, true));
        DeliverNone(queues);
        if g < gateways {
          ghost var o := PlaceOrder(s, q);
          r := New(g, s, q, o);
        }
      case Withdraw(g, s, cid, symbol, ts) =>
        r := Cancel(g, s, cid, symbol, ts);
        DeliverNone(queues);
        if g < gateways {
          core.CancelOrder(s, cid, symbol, ts);
          DrainAndDispatch();
        }
      case Change(g, s, q) =>
        r := Replace(g, s, q, Oracle(true, true, true, true));
        DeliverNone(queues);
        if g < gateways {
          ghost var o := ChangeOrder(s, q);
          r := Replace(g, s, q, o);
        }
    }

    method PlaceOrder(s: nat, q: NewOrder) returns (ghost o: Oracle)
      requires Valid() && s < U16 && q.qty < U32
      modifies Repr - {route}
      ensures Valid() && creator == old(creator) && core.SubmitGrounds(s, q, o)
      ensures core.State() == SubmitOrder(old(core.State()), s, q, o).0
      ensures queues == Deliver(old(queues), Dispatch(SubmitOrder(old(core.State()), s, q, o).1, route[..]), gateways, capacity)
    {
      hide ExchangeCore.State, ExchangeCore.SubmitGrounds, Venue.Valid, Tables.Valid, Bounded, Deliver, Dispatch, SubmitOrder;
      o := core.SubmitOrder(s, q);
      DrainAndDispatch();
    }

    method ChangeOrder(s: nat, q: ModifyRequest) returns (ghost o: Oracle)
      requires Valid() && s < U16 && q.qty < U32
      modifies Repr - {route}
      ensures Valid() && creator == old(creator) && core.ModifyGrounds(s, q, o)
      ensures core.State() == ModifyOrder(old(core.State()), s, q, o).0
      ensures queues == Deliver(old(queues), Dispatch(ModifyOrder(old(core.State()), s, q, o).1, route[..]), gateways, capacity)
    {
      hide ExchangeCore.State, ExchangeCore.ModifyGrounds, Venue.Valid, Tables.Valid, Bounded, Deliver, Dispatch, ModifyOrder;
      o := core.ModifyOrder(s, q);
      DrainAndDispatch();
    }

    /** Takes back a session whose answer did not fit. */
    method RollBack(s: nat)
      requires Owns() && core.Valid() && core.buffer.count == 0 && s < U16
      modifies core.Repr, route
      ensures core.Valid() && core.buffer.count == 0 && core.State() == Disconnect(old(core.State()), s)
      ensures route[..] == old(route[..])[s := 0] && Unworn(old(core.Condition()), core.Condition())
    {
      hide ExchangeCore.Parts, ExchangeCore.State, ExchangeCore.Condition, Unworn, Bounded, Disconnect;
      core.Disconnect(s);
      route[s] := 0;
    }

    /** Gives out a session id and routes it to the gateway. */
    method Assign(g: nat) returns (id: Option<nat>)
      requires Owns() && core.Valid() && core.buffer.count == 0
      modifies core.Repr, route
      ensures id.None? ==> forall s :: 0 < s < U16 ==> s in old(core.State()).sessions
      ensures id.Some? ==> core.Valid() && core.buffer.count == 0 && FirstUnused(old(core.State()), id.value)
      ensures id.Some? ==> id.value < U16 && core.State() == Connect(old(core.State()), id.value)
      ensures id.Some? ==> route[..] == old(route[..])[id.value := g] && Unworn(old(core.Condition()), core.Condition())
    {
      hide ExchangeCore.Parts, ExchangeCore.State, ExchangeCore.Condition, Unworn, Bounded, Connect, FirstUnused;
      id := core.Connect();
      if id.Some? {
        route[id.value] := g;
      }
    }

    /** A connect: a session id, its route, and the answer to the gateway. */
    method Welcome(g: nat, tag: nat) returns (ok: bool, ghost r: Request)
      requires Valid() && g < gateways
      modifies Repr
      ensures ok ==> Valid() && r.ClientConnect? && r.gateway == g && r.tag == tag && r.given < U16
      ensures ok ==> State() == Process(old(State()), r).0
      ensures ok ==> queues == Deliver(old(queues), Process(old(State()), r).1, gateways, capacity)
      ensures ok ==> FirstUnused(old(core.State()), r.given) && r.answered == (|old(queues)[g]| < capacity)
      ensures ok ==> Unworn(old(core.Condition()), core.Condition())
      ensures !ok ==> forall s :: 0 < s < U16 ==> s in old(State()).core.sessions
    {
      hide ExchangeCore.Parts, ExchangeCore.State, ExchangeCore.Condition, Unworn, Bounded, Deliver, Disconnect, Connect;
      hide FirstUnused;
      var id := Assign(g);
      r := ClientConnect(g, tag, 0, true);
      if id.None? {
        return false, r;
      }
      var s := id.value;
      ok := TryPush(Assigned(g, s, tag));
      r := ClientConnect(g, tag, s, ok);
      if ok {
        creator := creator[s := g];
      } else {
        ghost var between := core.Condition();
        RollBack(s);
        UnwornMore(old(core.Condition()), between, core.Condition());
      }
      ok := true;
    }
  }
}
