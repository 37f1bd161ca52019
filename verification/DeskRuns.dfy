/** What every run of the order manager keeps: the kill switch, the counters, the timers. */
module DeskRuns {
  import opened Machine
  import opened Books
  import opened Desks

  /** A call, with what the timer wheel and the order table answer. */
  datatype Call =
    | SignalCall(s: Signal, now: int, h: nat, inserted: bool)
    | ModifyCall(s: Signal)
    | Ack(id: nat)
    | Reject(id: nat, rebuild: bool)
    | FillCall(id: nat, qty: nat, remaining: nat, rebuild: bool)
    | ModifyAck(id: nat)
    | ModifyReject(id: nat)
    | CancelAck(id: nat, rebuild: bool)
    | CancelReject(id: nat, rebuild: bool)
    | TimeoutCall(fired: seq<nat>, ids: seq<nat>, rebuild: bool)
    | TriggerCall(ids: seq<nat>)

  /** What a call sends. */
  datatype Output = Nothing | Sends(o: Outgoing) | Changes(c: Change) | Cancels(ids: seq<nat>)

  /** Holds in every run: sizes, symbols, and counters on the right side of the table. */
  ghost predicate Loose(d: Desk, l: Limits) {
    && Sized(d, l) && l.interval > 0
    && (forall id :: id in d.orders ==> Listed(d.orders[id].symbol, l) && id < d.nextId)
    && d.count <= |d.orders|
    && (forall s :: 0 <= s < l.symbols ==> SymbolCount(d.orders, s + 1) <= d.perSymbol[s])
  }

  function OfSymbol(orders: map<nat, OrderInfo>, symbol: nat): set<nat> {
    set id | id in orders && orders[id].symbol == symbol
  }

  function SymbolCount(orders: map<nat, OrderInfo>, symbol: nat): nat {
    |OfSymbol(orders, symbol)|
  }

  ghost predicate Sensible(d: Desk, l: Limits, c: Call) {
    match c
    case SignalCall(s, _, _, _) => Listed(s.symbol, l)
    case ModifyCall(s) => Listed(s.symbol, l)
    case _ => true
  }

  function Step(d: Desk, l: Limits, c: Call): (Desk, Output)
    requires Loose(d, l) && Sensible(d, l, c)
  {
    match c
    case SignalCall(s, now, h, inserted) =>
      var (d', o) := OnSignal(d, l, s, now, h, inserted);
      (d', if o.Some? then Sends(o.value) else Nothing)
    case ModifyCall(s) =>
      var (d', m) := CheckModify(d, l, s);
      (d', if m.Some? then Changes(m.value) else Nothing)
    case Ack(_) => (d, Nothing)
    case Reject(id, rebuild) => (OnReject(d, l, id, rebuild), Nothing)
    case FillCall(id, qty, remaining, rebuild) => (OnFill(d, l, id, qty, remaining, rebuild), Nothing)
    case ModifyAck(_) => (d, Nothing)
    case ModifyReject(id) => (OnModifyReject(d, l, id), Nothing)
    case CancelAck(id, rebuild) => (OnCancelAck(d, l, id, rebuild), Nothing)
    case CancelReject(id, rebuild) => (OnCancelReject(d, l, id, rebuild), Nothing)
    case TimeoutCall(fired, ids, rebuild) =>
      var (d', batch) := Timeouts(d, l, fired, ids, rebuild);
      (d', if batch == [] then Nothing else Cancels(batch))
    case TriggerCall(ids) =>
      var (d', batch) := Trigger(d, l, ids);
      (d', if batch == [] then Nothing else Cancels(batch))
  }

  // ---------------------------------------------------------------------------
  // Counting
  // ---------------------------------------------------------------------------

  lemma {:induction false} RemoveCounts(orders: map<nat, OrderInfo>, id: nat, symbol: nat)
    requires id in orders
    ensures |orders - {id}| == |orders| - 1
    ensures SymbolCount(orders - {id}, symbol) == SymbolCount(orders, symbol) - (if orders[id].symbol == symbol then 1 else 0)
  {
    assert (orders - {id}).Keys == orders.Keys - {id};
    if orders[id].symbol == symbol {
      assert OfSymbol(orders - {id}, symbol) == OfSymbol(orders, symbol) - {id};
    } else {
      assert OfSymbol(orders - {id}, symbol) == OfSymbol(orders, symbol);
    }
  }

  lemma {:induction false} AddSymbol(orders: map<nat, OrderInfo>, id: nat, o: OrderInfo, symbol: nat)
    requires id !in orders
    ensures SymbolCount(orders[id := o], symbol) == SymbolCount(orders, symbol) + (if o.symbol == symbol then 1 else 0)
  {
    if o.symbol == symbol {
      assert OfSymbol(orders[id := o], symbol) == OfSymbol(orders, symbol) + {id};
    } else {
      assert OfSymbol(orders[id := o], symbol) == OfSymbol(orders, symbol);
    }
  }

  lemma {:induction false} AddCounts(orders: map<nat, OrderInfo>, id: nat, o: OrderInfo, symbol: nat)
    requires id !in orders
    ensures |orders[id := o]| == |orders| + 1
    ensures SymbolCount(orders[id := o], symbol) == SymbolCount(orders, symbol) + (if o.symbol == symbol then 1 else 0)
  {
    AddSymbol(orders, id, o, symbol);
    hide SymbolCount;
    assert orders[id := o].Keys == orders.Keys + {id};
  }

  lemma {:induction false} NoOrders(symbol: nat)
    ensures SymbolCount(map[], symbol) == 0
  {
    assert OfSymbol(map[], symbol) == {};
  }

  /** An order that is known has been counted for its symbol. */
  lemma {:induction false} KnownIsCounted(d: Desk, l: Limits, id: nat)
    requires Loose(d, l) && id in d.orders
    ensures Listed(d.orders[id].symbol, l) && d.perSymbol[d.orders[id].symbol - 1] > 0
  {
    var symbol := d.orders[id].symbol;
    assert id in OfSymbol(d.orders, symbol);
    assert SymbolCount(d.orders, (symbol - 1) + 1) > 0;
  }

  // ---------------------------------------------------------------------------
  // In every run
  // ---------------------------------------------------------------------------

  lemma {:induction false} RemoveLoose(d: Desk, l: Limits, id: nat)
    requires Loose(d, l)
    ensures Loose(Remove(d, l, id), l)
  {
    if id in d.orders {
      forall s | 0 <= s < l.symbols
        ensures SymbolCount(d.orders - {id}, s + 1) <= Remove(d, l, id).perSymbol[s]
      {
        RemoveCounts(d.orders, id, s + 1);
      }
      RemoveCounts(d.orders, id, 1);
    }
  }

  lemma {:induction false} CompactLoose(d: Desk, l: Limits, rebuild: bool)
    requires Loose(d, l)
    ensures Loose(Compact(d, rebuild), l)
  {
    forall s | 0 <= s < l.symbols
      ensures SymbolCount(map[], s + 1) <= d.perSymbol[s]
    {
      NoOrders(s + 1);
    }
  }

  lemma {:induction false} SignalLoose(d: Desk, l: Limits, s: Signal, now: int, h: nat, inserted: bool)
    requires Loose(d, l) && Listed(s.symbol, l)
    ensures Loose(OnSignal(d, l, s, now, h, inserted).0, l)
  {
    var (d', o) := OnSignal(d, l, s, now, h, inserted);
    var info := OrderInfo(s.side, s.price, s.qty, s.symbol, h);
    hide Refill, Abs;
    if o.Some? {
      forall k | 0 <= k < l.symbols
        ensures SymbolCount(d'.orders, k + 1) <= d'.perSymbol[k]
      {
        AddCounts(d.orders, d.nextId, info, k + 1);
      }
      AddCounts(d.orders, d.nextId, info, 1);
    }
  }

  lemma {:induction false} ExpireLoose(d: Desk, l: Limits, ids: seq<nat>, room: nat)
    requires Loose(d, l)
    ensures Loose(Expire(d, l, ids, room).0, l) && Expire(d, l, ids, room).0.kill == d.kill
    ensures |Expire(d, l, ids, room).1| <= room
    decreases |ids|
  {
    if ids == [] {
      return;
    }
    var id := ids[0];
    if id !in d.orders {
      ExpireLoose(d, l, ids[1..], room);
      return;
    }
    RemoveLoose(d, l, id);
    var d1 := Remove(d, l, id).(timers := d.timers);
    ExpireLoose(d1, l, ids[1..], Less(room));
  }

  lemma {:induction false} FillLoose(d: Desk, l: Limits, id: nat, qty: nat, remaining: nat, rebuild: bool)
    requires Loose(d, l)
    ensures Loose(OnFill(d, l, id, qty, remaining, rebuild), l)
  {
    var d1 := OnFill(d, l, id, qty, 1, rebuild);
    RemoveLoose(d1, l, id);
    CompactLoose(Remove(d1, l, id), l, rebuild);
  }

  lemma {:induction false} SameLoose(d: Desk, d': Desk, l: Limits)
    requires Loose(d, l) && Sized(d', l)
    requires d'.orders == d.orders && d'.perSymbol == d.perSymbol && d'.count == d.count && d'.nextId == d.nextId
    ensures Loose(d', l)
  {
  }

  lemma {:induction false} RemovedLoose(d: Desk, l: Limits, id: nat, rebuild: bool)
    requires Loose(d, l)
    ensures Loose(Compact(Remove(d, l, id), rebuild), l)
  {
    LooseSized(d, l);
    hide Remove, Compact, Loose;
    RemoveLoose(d, l, id);
    CompactLoose(Remove(d, l, id), l, rebuild);
  }

  lemma {:induction false} DrainLoose(d: Desk, l: Limits)
    requires Loose(d, l)
    ensures Loose(Drain(d), l)
  {
    SameLoose(d, Drain(d), l);
  }

  lemma {:induction false} TimeoutsLoose(d: Desk, l: Limits, fired: seq<nat>, ids: seq<nat>, rebuild: bool)
    requires Loose(d, l)
    ensures Loose(Timeouts(d, l, fired, ids, rebuild).0, l)
  {
    hide Expire, Compact;
    var d0 := d.(timers := d.timers - Elements(fired));
    SameLoose(d, d0, l);
    ExpireLoose(d0, l, ids, l.maxOutstanding);
    CompactLoose(Expire(d0, l, ids, l.maxOutstanding).0, l, rebuild);
  }

  /** Whatever the exchange answers, the order count never exceeds the table and no per-symbol
      count falls below it, so that no counter can go below zero. */
  lemma {:induction false} StepLoose(d: Desk, l: Limits, c: Call)
    requires Loose(d, l) && Sensible(d, l, c)
    ensures Loose(Step(d, l, c).0, l)
  {
    LooseSized(d, l);
    hide Compact, Remove, OnSignal, Timeouts, OnFill, Drain, Loose;
    match c
    case SignalCall(s, now, h, inserted) => SignalLoose(d, l, s, now, h, inserted);
    case ModifyCall(s) => SameLoose(d, CheckModify(d, l, s).0, l);
    case Ack(_) =>
    case Reject(id, rebuild) => RemovedLoose(d, l, id, rebuild);
    case FillCall(id, qty, remaining, rebuild) => FillLoose(d, l, id, qty, remaining, rebuild);
    case ModifyAck(_) =>
    case ModifyReject(id) => SameLoose(d, OnModifyReject(d, l, id), l);
    case CancelAck(id, rebuild) =>
      RemovedLoose(d, l, id, rebuild);
      DrainLoose(Compact(Remove(d, l, id), rebuild), l);
    case CancelReject(id, rebuild) =>
      RemovedLoose(d, l, id, rebuild);
      DrainLoose(Compact(Remove(d, l, id), rebuild), l);
      DrainLoose(d, l);
    case TimeoutCall(fired, ids, rebuild) => TimeoutsLoose(d, l, fired, ids, rebuild);
    case TriggerCall(ids) => SameLoose(d, Trigger(d, l, ids).0, l);
  }

  lemma {:induction false} LooseSized(d: Desk, l: Limits)
    requires Loose(d, l)
    ensures Sized(d, l) && l.interval > 0 && forall id :: id in d.orders ==> Listed(d.orders[id].symbol, l)
  {
  }

  // ---------------------------------------------------------------------------
  // The kill switch
  // ---------------------------------------------------------------------------

  /** calls[i] leads from states[i] to states[i + 1]. */
  ghost predicate Leads(states: seq<Desk>, calls: seq<Call>, l: Limits, i: nat)
    requires |states| == |calls| + 1 && i < |calls|
  {
    Loose(states[i], l) && Sensible(states[i], l, calls[i]) && states[i + 1] == Step(states[i], l, calls[i]).0
  }

  /** A run as its states. Only the first is assumed to be loose: a step is defined on loose states,
      and nothing is known of what follows a state that is not. */
  ghost predicate Run(states: seq<Desk>, calls: seq<Call>, l: Limits) {
    && |states| == |calls| + 1 && Loose(states[0], l)
    && (forall i :: 0 <= i < |calls| ==> Sensible(states[i], l, calls[i]))
    && (forall i :: 0 <= i < |calls| && Loose(states[i], l) ==> Leads(states, calls, l, i))
  }

  /** In every run, whatever the exchange answers, every state is loose. */
  lemma {:induction false} RunLoose(states: seq<Desk>, calls: seq<Call>, l: Limits, i: nat)
    requires Run(states, calls, l) && i <= |calls|
    ensures Loose(states[i], l)
  {
    hide Loose, Step, Sensible;
    if i > 0 {
      RunLoose(states, calls, l, i - 1);
      assert Leads(states, calls, l, i - 1);
      StepLoose(states[i - 1], l, calls[i - 1]);
    }
  }

  /** So every call of a run has its effect. */
  lemma {:induction false} CallLeads(states: seq<Desk>, calls: seq<Call>, l: Limits, i: nat)
    requires Run(states, calls, l) && i < |calls|
    ensures |states| == |calls| + 1 && Loose(states[i], l) && Sensible(states[i], l, calls[i])
    ensures states[i + 1] == Step(states[i], l, calls[i]).0
  {
    RunLoose(states, calls, l, i);
  }

  lemma {:induction false} RunLeads(states: seq<Desk>, calls: seq<Call>, l: Limits)
    requires Run(states, calls, l)
    ensures forall i :: 0 <= i < |calls| ==> Leads(states, calls, l, i)
  {
    hide Loose, Leads, Sensible;
    forall i | 0 <= i < |calls|
      ensures Leads(states, calls, l, i)
    {
      RunLoose(states, calls, l, i);
    }
  }

  predicate CancelResponse(c: Call) {
    c.CancelAck? || c.CancelReject?
  }

  /** Cancel acknowledgements and rejections among the calls a, ..., b - 1. */
  function Responses(calls: seq<Call>, a: nat, b: nat): nat
    requires a <= b <= |calls|
    decreases b
  {
    if a == b then 0 else Responses(calls, a, b - 1) + (if CancelResponse(calls[b - 1]) then 1 else 0)
  }

  lemma {:induction false} RemoveKill(d: Desk, l: Limits, id: nat, rebuild: bool)
    requires Sized(d, l) && (id in d.orders ==> Listed(d.orders[id].symbol, l))
    ensures var e := Compact(Remove(d, l, id), rebuild); e.kill == d.kill && e.pending == d.pending
  {
  }

  /** While killed, only a cancel response moves the switch, and nothing is sent. */
  lemma {:induction false} KilledStep(d: Desk, l: Limits, c: Call)
    requires Loose(d, l) && Sensible(d, l, c) && d.kill != Normal
    ensures Step(d, l, c).1 == Nothing && Step(d, l, c).0.kill != Normal
    ensures var d' := Step(d, l, c).0;
            if CancelResponse(c) then d'.kill == Drain(d).kill && d'.pending == Drain(d).pending
            else d'.kill == d.kill && d'.pending == d.pending
  {
    hide Compact, Remove;
    match c
    case Reject(id, rebuild) => RemoveKill(d, l, id, rebuild);
    case FillCall(id, qty, remaining, rebuild) =>
      hide Compact, Remove;
      RemoveKill(OnFill(d, l, id, qty, 1, rebuild), l, id, rebuild);
    case CancelAck(id, rebuild) => RemoveKill(d, l, id, rebuild);
    case CancelReject(id, rebuild) => RemoveKill(d, l, id, rebuild);
    case _ =>
  }

  /** After a trigger that returned n > 0 cancels the switch completes with exactly the n-th
      cancel response, whatever else arrives in between, and never goes back to normal. */
  lemma {:induction false} KillSwitchDrains(states: seq<Desk>, calls: seq<Call>, l: Limits, a: nat, b: nat)
    requires Run(states, calls, l) && a < b <= |calls| && states[a].kill == Normal && calls[a].TriggerCall?
    ensures var n := Min(|calls[a].ids|, l.maxOutstanding);
            var k := Responses(calls, a + 1, b);
            && states[b].kill == (if k >= n then Complete else Draining)
            && states[b].pending == (if k >= n then 0 else n - k)
    decreases b
  {
    hide Step, Loose, Sensible, Run;
    CallLeads(states, calls, l, b - 1);
    if b == a + 1 {
      TriggerStep(states[a], l, calls[a].ids);
    } else {
      KillSwitchDrains(states, calls, l, a, b - 1);
      KilledStep(states[b - 1], l, calls[b - 1]);
    }
  }

  /** The trigger: a cancel for each order of the visit, as many as the buffer takes, no timer left,
      and every other table as it was. */
  lemma {:induction false} TriggerStep(d: Desk, l: Limits, ids: seq<nat>)
    requires Loose(d, l) && d.kill == Normal
    ensures var (d', out) := Step(d, l, TriggerCall(ids));
            var n := Min(|ids|, l.maxOutstanding);
            && d'.kill == (if n == 0 then Complete else Draining) && d'.pending == n
            && out == (if n == 0 then Nothing else Cancels(ids[..n]))
            && (forall h :: h !in d'.timers) && d' == d.(kill := d'.kill, pending := d'.pending, timers := d'.timers)
  {
  }

  /** Once killed, a run sends nothing more: no order, no modify, no timeout cancel. */
  lemma {:induction false} KilledSendsNothing(states: seq<Desk>, calls: seq<Call>, l: Limits, a: nat, b: nat)
    requires Run(states, calls, l) && a <= b < |calls| && states[a].kill != Normal
    ensures Loose(states[b], l) && Sensible(states[b], l, calls[b])
    ensures states[b].kill != Normal && Step(states[b], l, calls[b]).1 == Nothing
    decreases b
  {
    hide Step, Loose, Sensible, Run;
    CallLeads(states, calls, l, b);
    if b > a {
      CallLeads(states, calls, l, b - 1);
      KilledSendsNothing(states, calls, l, a, b - 1);
      KilledStep(states[b - 1], l, calls[b - 1]);
    }
    KilledStep(states[b], l, calls[b]);
  }
}
