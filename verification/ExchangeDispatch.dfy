/** Where the engine's events end up: which queue gets which of them, and in what order. */
module ExchangeDispatch {
  import opened Machine
  import opened Exchange
  import opened ExchangeSessions
  import opened ExchangeRouting
  import opened ExchangeEngines

  /** The events everybody hears: trades and best prices. */
  function Public(es: seq<Event>): seq<Event> {
    if es == [] then []
    else if es[0].Filled? || es[0].Bbo? then [es[0]] + Public(es[1..])
    else Public(es[1..])
  }

  /** The events for a client: all but best prices. */
  function Private(es: seq<Event>): seq<Event> {
    if es == [] then [] else if es[0].Bbo? then Private(es[1..]) else [es[0]] + Private(es[1..])
  }

  /** The events pushed to market data, in order. */
  function Published(ps: seq<Push>): seq<Event> {
    if ps == [] then [] else if ps[0].MarketData? then [ps[0].event] + Published(ps[1..]) else Published(ps[1..])
  }

  /** The pushes to gateways, in order. */
  function Answers(ps: seq<Push>): seq<Push> {
    if ps == [] then [] else if ps[0].MarketData? then Answers(ps[1..]) else [ps[0]] + Answers(ps[1..])
  }

  /** Each event as a response to the gateway its session is routed to; session numbers beyond the
      table go to gateway 0. */
  ghost predicate Routes(ps: seq<Push>, es: seq<Event>, route: seq<nat>)
    requires |route| == U16
  {
    && |ps| == |es|
    && forall k :: 0 <= k < |es| ==>
         && ps[k].Response? && ps[k].event == es[k] && !es[k].Bbo?
         && ps[k].gateway == if es[k].session < U16 then route[es[k].session] else 0
  }

  lemma {:induction false} SplitCons(p: Push, ps: seq<Push>)
    ensures Published([p] + ps) == if p.MarketData? then [p.event] + Published(ps) else Published(ps)
    ensures Answers([p] + ps) == if p.MarketData? then Answers(ps) else [p] + Answers(ps)
  {
    assert ([p] + ps)[1..] == ps;
  }

  lemma {:induction false} DispatchFirst(es: seq<Event>, route: seq<nat>)
    requires |route| == U16 && es != []
    ensures var e, rest := es[0], Dispatch(es[1..], route);
            && Published(Dispatch(es, route)) == (if e.Filled? || e.Bbo? then [e] + Published(rest) else Published(rest))
            && (e.Bbo? ==> Answers(Dispatch(es, route)) == Answers(rest))
            && (!e.Bbo? ==> Answers(Dispatch(es, route)) ==
                            [Response(if e.session < U16 then route[e.session] else 0, e)] + Answers(rest))
  {
    DispatchCons(es, route);
    var head, rest := Route(es[0], route), Dispatch(es[1..], route);
    hide Dispatch, Published, Answers;
    SplitCons(head[|head| - 1], rest);
    if es[0].Filled? {
      SplitCons(head[0], [head[1]] + rest);
      assert head + rest == [head[0]] + ([head[1]] + rest);
    }
  }

  /** Market data is exactly the trades and best prices, and the responses are exactly the rest and
      the trades: each in order, once, and to the gateway of its session. */
  lemma {:induction false} DispatchSplits(es: seq<Event>, route: seq<nat>)
    requires |route| == U16
    ensures Published(Dispatch(es, route)) == Public(es)
    ensures Routes(Answers(Dispatch(es, route)), Private(es), route)
  {
    if es != [] {
      DispatchFirst(es, route);
      hide Dispatch, Published, Answers;
      DispatchSplits(es[1..], route);
    }
  }

  // ---------------------------------------------------------------------------
  // Queues
  // ---------------------------------------------------------------------------

  /** The pushes for one queue: market data after the gateways' own. */
  function Own(ps: seq<Push>, g: nat, gateways: nat): seq<Push> {
    if ps == [] then []
    else if (if ps[0].MarketData? then g == gateways else g == ps[0].gateway && g < gateways)
    then [ps[0]] + Own(ps[1..], g, gateways)
    else Own(ps[1..], g, gateways)
  }

  /** A queue ends up with what it had and then its own pushes, in order, as far as it has room. */
  lemma {:induction false} DeliverOwn(queues: seq<seq<Push>>, ps: seq<Push>, gateways: nat, cap: nat, g: nat)
    requires |queues| == gateways + 1 && g <= gateways
    ensures var own, had := Own(ps, g, gateways), queues[g];
            && (|had| + |own| <= cap ==> Deliver(queues, ps, gateways, cap)[g] == had + own)
            && (|had| <= cap < |had| + |own| ==> Deliver(queues, ps, gateways, cap)[g] == had + own[..cap - |had|])
            && (cap <= |had| ==> Deliver(queues, ps, gateways, cap)[g] == had)
    decreases |ps|
  {
    if ps == [] {
      return;
    }
    var h := QueueOf(ps[0], gateways);
    var queues' := if HasQueue(ps[0], gateways) && |queues[h]| < cap then queues[h := queues[h] + [ps[0]]] else queues;
    DeliverOwn(queues', ps[1..], gateways, cap, g);
    var had, rest := queues[g], Own(ps[1..], g, gateways);
    hide Deliver, Own;
    if queues'[g] != had {
      assert (had + [ps[0]]) + rest == had + ([ps[0]] + rest);
      if cap < |had| + 1 + |rest| {
        assert (had + [ps[0]]) + rest[..cap - |had| - 1] == had + ([ps[0]] + rest)[..cap - |had|];
      }
    }
  }

  // ---------------------------------------------------------------------------
  // A whole request
  // ---------------------------------------------------------------------------

  /** A connect: the session and its route if the answer arrives, neither if not; the next connect
      starts looking behind this id either way. */
  ghost predicate Connected(v: Server, v': Server, g: nat, given: nat, answered: bool)
    requires |v.route| == U16 && given < U16
  {
    && v'.core.nextSession == (if given == 0xFFFF then 0 else given + 1) && |v'.route| == U16
    && (forall s :: 0 <= s < U16 && s != given ==> v'.route[s] == v.route[s])
    && (forall s :: s != given ==> (s in v'.core.sessions <==> s in v.core.sessions))
    && (answered ==> given in v'.core.sessions && v'.route[given] == g)
    && (!answered ==> (given > 0 ==> given !in v'.core.sessions) && v'.route[given] == 0)
  }

  /** What one request pushes. A gateway the engine does not know is ignored; a connect is answered
      with the session id it is given and the tag it came with; a disconnect has no answer. */
  lemma {:induction false} ProcessPushes(v: Server, r: Request)
    requires |v.route| == U16 && (r.ClientConnect? ==> r.given < U16)
    ensures var (v', ps) := Process(v, r);
            if r.gateway >= v.gateways then v' == v && ps == []
            else match r
              case ClientConnect(g, tag, given, answered) =>
                && |ps| == 1 && ps[0].Assigned? && ps[0].gateway == g && ps[0].session == given && ps[0].tag == tag
                && Connected(v, v', g, given, answered)
              case ClientDisconnect(_, s) =>
                && ps == [] && v'.route == v.route && (s == 0 ==> v'.core == v.core)
                && (forall u :: u in v'.core.sessions <==> u in v.core.sessions && (u != s || s == 0))
              case New(_, s, q, o) =>
                && Published(ps) == Public(SubmitOrder(v.core, s, q, o).1)
                && Routes(Answers(ps), Private(SubmitOrder(v.core, s, q, o).1), v.route)
              case Cancel(_, s, cid, symbol, ts) =>
                Published(ps) == [] && Routes(Answers(ps), CancelOrder(v.core, s, cid, symbol, ts).1, v.route)
              case Replace(_, s, q, o) =>
                && Published(ps) == Public(ModifyOrder(v.core, s, q, o).1)
                && Routes(Answers(ps), Private(ModifyOrder(v.core, s, q, o).1), v.route)
  {
    hide SubmitOrder, ModifyOrder, Dispatch, Routes, Purged;
    match r
    case New(_, s, q, o) => DispatchSplits(SubmitOrder(v.core, s, q, o).1, v.route);
    case Cancel(_, s, cid, symbol, ts) =>
      var es := CancelOrder(v.core, s, cid, symbol, ts).1;
      DispatchSplits(es, v.route);
      assert Private(es) == es && Public(es) == [];
    case Replace(_, s, q, o) => DispatchSplits(ModifyOrder(v.core, s, q, o).1, v.route);
    case _ =>
  }
}
