/** When the exchange answers only for orders that are outstanding, every table of the order
    manager agrees with every other. */
module DeskBooks {
  import opened Machine
  import opened Books
  import opened Desks
  import opened DeskRuns

  /** Armed timers correspond one to one with outstanding orders. */
  ghost predicate TimersMatch(timers: map<nat, nat>, orders: map<nat, OrderInfo>) {
    && (forall id :: id in orders ==> orders[id].handle in timers && timers[orders[id].handle] == id)
    && (forall h :: h in timers ==> timers[h] in orders && orders[timers[h]].handle == h)
  }

  /** A resting slot names an outstanding order of its own symbol and side. */
  ghost predicate SlotsMatch(active: seq<ActiveOrder>, orders: map<nat, OrderInfo>) {
    forall j :: 0 <= j < |active| && active[j].resting ==>
      active[j].id in orders && SlotIndex(orders[active[j].id].symbol, orders[active[j].id].side) == j
  }

  ghost predicate CountsMatch(d: Desk, l: Limits)
    requires Sized(d, l)
  {
    && d.count == |d.orders| <= l.maxOutstanding
    && (forall s :: 0 <= s < l.symbols ==> SymbolCount(d.orders, s + 1) == d.perSymbol[s])
  }

  ghost predicate InStep(d: Desk, l: Limits) {
    && Sized(d, l) && l.interval > 0
    && (forall id :: id in d.orders ==> Listed(d.orders[id].symbol, l) && id < d.nextId)
    && CountsMatch(d, l) && SlotsMatch(d.active, d.orders)
    && (d.kill == Normal ==> TimersMatch(d.timers, d.orders))
  }

  /** The timer wheel hands out unused handles and fires armed ones, each once; the exchange
      answers for outstanding orders. That leaves out a reply the exchange does send: a timeout
      takes its order off the tables before the cancel goes out, so that the acknowledgement of
      that cancel names an order no longer known. LateCancelAck says what such a reply does. */
  ghost predicate Proper(d: Desk, l: Limits, c: Call) {
    match c
    case SignalCall(s, _, h, _) => Listed(s.symbol, l) && h != 0 && h !in d.timers
    case ModifyCall(s) => Listed(s.symbol, l)
    case Reject(id, _) => id in d.orders
    case FillCall(id, _, remaining, _) => remaining == 0 ==> id in d.orders
    case CancelAck(id, _) => id in d.orders
    case TimeoutCall(fired, ids, _) => Fires(d.timers, fired, ids)
    case _ => true
  }

  /** The timers with handles fired, each named once, are those of the orders ids. */
  ghost predicate Fires(timers: map<nat, nat>, fired: seq<nat>, ids: seq<nat>) {
    |fired| == |ids| && Distinct(fired) && forall i :: 0 <= i < |fired| ==> fired[i] in timers && timers[fired[i]] == ids[i]
  }

  lemma {:induction false} InStepIsLoose(d: Desk, l: Limits)
    requires InStep(d, l)
    ensures Loose(d, l)
  {
  }

  // ---------------------------------------------------------------------------
  // Removing one order
  // ---------------------------------------------------------------------------

  lemma {:induction false} RemoveTimers(timers: map<nat, nat>, orders: map<nat, OrderInfo>, id: nat)
    requires TimersMatch(timers, orders) && id in orders
    ensures TimersMatch(timers - {orders[id].handle}, orders - {id})
  {
  }

  lemma {:induction false} RemoveSlots(active: seq<ActiveOrder>, orders: map<nat, OrderInfo>, id: nat, l: Limits)
    requires |active| == 2 * l.symbols && SlotsMatch(active, orders) && id in orders && Listed(orders[id].symbol, l)
    ensures SlotsMatch(ClearActive(active, orders[id].symbol, orders[id].side, id, l), orders - {id})
  {
    var o := orders[id];
    var active' := ClearActive(active, o.symbol, o.side, id, l);
    forall j | 0 <= j < |active| && active'[j].resting
      ensures active'[j].id in orders - {id}
      ensures SlotIndex(orders[active'[j].id].symbol, orders[active'[j].id].side) == j
    {
      assert active'[j] == active[j];
      assert active[j].id == id ==> j == SlotIndex(o.symbol, o.side);
    }
  }

  lemma {:induction false} RemoveCountsMatch(d: Desk, l: Limits, id: nat)
    requires Sized(d, l) && CountsMatch(d, l) && id in d.orders && Listed(d.orders[id].symbol, l)
    ensures CountsMatch(Remove(d, l, id), l)
  {
    RemoveCounts(d.orders, id, 1);
    forall s | 0 <= s < l.symbols
      ensures SymbolCount(d.orders - {id}, s + 1) == Remove(d, l, id).perSymbol[s]
    {
      RemoveCounts(d.orders, id, s + 1);
    }
  }

  lemma {:induction false} RemoveInStep(d: Desk, l: Limits, id: nat)
    requires InStep(d, l) && id in d.orders
    ensures InStep(Remove(d, l, id), l)
  {
    RemoveCountsMatch(d, l, id);
    RemoveSlots(d.active, d.orders, id, l);
    hide CountsMatch, ClearActive, SlotsMatch;
    if d.kill == Normal {
      RemoveTimers(d.timers, d.orders, id);
    }
  }

  lemma {:induction false} CompactInStep(d: Desk, l: Limits, rebuild: bool)
    requires InStep(d, l)
    ensures Compact(d, rebuild) == d
  {
    if d.count == 0 {
      assert |d.orders.Keys| == 0;
      assert d.orders == map[];
    }
  }

  // ---------------------------------------------------------------------------
  // Sending
  // ---------------------------------------------------------------------------

  lemma {:induction false} AddSlots(active: seq<ActiveOrder>, orders: map<nat, OrderInfo>, id: nat, o: OrderInfo, l: Limits)
    requires |active| == 2 * l.symbols && SlotsMatch(active, orders) && id !in orders && Listed(o.symbol, l)
    ensures SlotsMatch(active[SlotIndex(o.symbol, o.side) := ActiveOrder(id, o.price, o.qty, true)], orders[id := o])
  {
  }

  lemma {:induction false} AddTimers(timers: map<nat, nat>, orders: map<nat, OrderInfo>, id: nat, o: OrderInfo)
    requires TimersMatch(timers, orders) && id !in orders && o.handle !in timers
    ensures TimersMatch(timers[o.handle := id], orders[id := o])
  {
  }

  lemma {:induction false} AddCountsMatch(d: Desk, d': Desk, l: Limits, id: nat, o: OrderInfo)
    requires Sized(d, l) && Sized(d', l) && CountsMatch(d, l) && d.count < l.maxOutstanding
    requires id !in d.orders && Listed(o.symbol, l) && d'.orders == d.orders[id := o] && d'.count == d.count + 1
    requires d'.perSymbol == d.perSymbol[o.symbol - 1 := d.perSymbol[o.symbol - 1] + 1]
    ensures CountsMatch(d', l)
  {
    AddCounts(d.orders, id, o, 1);
    forall k | 0 <= k < l.symbols
      ensures SymbolCount(d'.orders, k + 1) == d'.perSymbol[k]
    {
      AddCounts(d.orders, id, o, k + 1);
    }
  }

  lemma {:induction false} AdmitInStep(d: Desk, l: Limits, s: Signal, now: int)
    requires InStep(d, l) && Listed(s.symbol, l)
    ensures InStep(Admit(d, l, s, now).0, l)
    ensures Admit(d, l, s, now).1 ==> Admit(d, l, s, now).0.tokens > 0 && d.count < l.maxOutstanding
    ensures var d' := Admit(d, l, s, now).0; d'.count == d.count && d'.timers == d.timers
  {
    hide Refill, Abs, CountsMatch, SlotsMatch, TimersMatch;
    ModifyCounts(d, Admit(d, l, s, now).0, l);
  }

  lemma {:induction false} SkipInStep(d: Desk, l: Limits, s: Signal, h: nat)
    requires InStep(d, l) && Listed(s.symbol, l) && d.tokens > 0 && h !in d.timers
    ensures InStep(Send(d, l, s, h, false).0, l)
  {
    hide CountsMatch, SlotsMatch, TimersMatch;
    assert d.timers - {h} == d.timers;
    ModifyCounts(d, Send(d, l, s, h, false).0, l);
  }

  lemma {:induction false} SendInStep(d: Desk, l: Limits, s: Signal, h: nat)
    requires InStep(d, l) && Listed(s.symbol, l) && d.tokens > 0 && d.count < l.maxOutstanding && h != 0 && h !in d.timers
    ensures InStep(Send(d, l, s, h, true).0, l)
  {
    hide CountsMatch, SlotsMatch, TimersMatch;
    var info := OrderInfo(s.side, s.price, s.qty, s.symbol, h);
    AddSlots(d.active, d.orders, d.nextId, info, l);
    if d.kill == Normal {
      AddTimers(d.timers, d.orders, d.nextId, info);
    }
    AddCountsMatch(d, Send(d, l, s, h, true).0, l, d.nextId, info);
  }

  lemma {:induction false} SignalInStep(d: Desk, l: Limits, s: Signal, now: int, h: nat, inserted: bool)
    requires InStep(d, l) && Listed(s.symbol, l) && h != 0 && h !in d.timers
    ensures InStep(OnSignal(d, l, s, now, h, inserted).0, l)
  {
    AdmitInStep(d, l, s, now);
    hide Admit, Send;
    var (d1, ok) := Admit(d, l, s, now);
    if ok && inserted {
      SendInStep(d1, l, s, h);
    } else if ok {
      SkipInStep(d1, l, s, h);
    }
  }

  lemma {:induction false} ModifyInStep(d: Desk, l: Limits, s: Signal)
    requires InStep(d, l) && Listed(s.symbol, l)
    ensures InStep(CheckModify(d, l, s).0, l)
  {
    hide CountsMatch, TimersMatch;
    ModifyCounts(d, CheckModify(d, l, s).0, l);
  }

  lemma {:induction false} ModifyCounts(d: Desk, d': Desk, l: Limits)
    requires Sized(d, l) && Sized(d', l) && CountsMatch(d, l)
    requires d'.orders == d.orders && d'.perSymbol == d.perSymbol && d'.count == d.count
    ensures CountsMatch(d', l)
  {
  }

  // ---------------------------------------------------------------------------
  // Timeouts
  // ---------------------------------------------------------------------------

  /** Every armed timer is an order's, and every order has a timer or is about to expire. */
  ghost predicate Expiring(d: Desk, ids: seq<nat>) {
    && (forall h :: h in d.timers ==> d.timers[h] in d.orders && d.orders[d.timers[h]].handle == h && d.timers[h] !in ids)
    && (forall id :: id in d.orders && id !in ids ==> d.orders[id].handle in d.timers && d.timers[d.orders[id].handle] == id)
  }

  ghost predicate AllBut(d: Desk, l: Limits) {
    && Sized(d, l) && l.interval > 0
    && (forall id :: id in d.orders ==> Listed(d.orders[id].symbol, l) && id < d.nextId)
    && CountsMatch(d, l) && SlotsMatch(d.active, d.orders)
  }

  lemma {:induction false} RemoveAllBut(d: Desk, l: Limits, id: nat)
    requires AllBut(d, l) && id in d.orders
    ensures AllBut(Remove(d, l, id).(timers := d.timers), l)
  {
    RemoveCountsMatch(d, l, id);
    RemoveSlots(d.active, d.orders, id, l);
    ModifyCounts(Remove(d, l, id), Remove(d, l, id).(timers := d.timers), l);
    hide CountsMatch, ClearActive, SlotsMatch;
  }

  lemma {:induction false} RemoveExpiring(d: Desk, l: Limits, ids: seq<nat>)
    requires Sized(d, l) && ids != [] && ids[0] in d.orders && Listed(d.orders[ids[0]].symbol, l) && Expiring(d, ids)
    ensures Expiring(Remove(d, l, ids[0]).(timers := d.timers), ids[1..])
  {
    hide ClearActive;
    assert ids == [ids[0]] + ids[1..];
  }

  lemma {:induction false} ExpireOne(d: Desk, l: Limits, ids: seq<nat>)
    requires AllBut(d, l) && ids != [] && ids[0] in d.orders && Expiring(d, ids)
    ensures var d1 := Remove(d, l, ids[0]).(timers := d.timers); AllBut(d1, l) && Expiring(d1, ids[1..])
  {
    hide CountsMatch, SlotsMatch, Expiring;
    RemoveAllBut(d, l, ids[0]);
    RemoveExpiring(d, l, ids);
  }

  lemma {:induction false} ExpireUnfold(d: Desk, l: Limits, ids: seq<nat>, room: nat)
    requires Sized(d, l) && (forall id :: id in d.orders ==> Listed(d.orders[id].symbol, l)) && ids != [] && ids[0] in d.orders
    ensures var d1 := Remove(d, l, ids[0]).(timers := d.timers);
            && Sized(d1, l) && (forall id :: id in d1.orders ==> Listed(d1.orders[id].symbol, l))
            && Expire(d, l, ids, room).0 == Expire(d1, l, ids[1..], Less(room)).0
            && (room > 0 ==> Expire(d, l, ids, room).1 == [ids[0]] + Expire(d1, l, ids[1..], Less(room)).1)
  {
  }

  lemma {:induction false} NoneExpiring(d: Desk, l: Limits)
    requires AllBut(d, l) && Expiring(d, [])
    ensures InStep(d, l)
  {
    hide CountsMatch, SlotsMatch;
  }

  lemma {:induction false} ExpireNone(d: Desk, l: Limits, room: nat)
    requires Sized(d, l) && forall id :: id in d.orders ==> Listed(d.orders[id].symbol, l)
    ensures Expire(d, l, [], room) == (d, [])
  {
  }

  ghost predicate Distinct(ids: seq<nat>) {
    forall i, j :: 0 <= i < j < |ids| ==> ids[i] != ids[j]
  }

  ghost predicate Known(ids: seq<nat>, orders: map<nat, OrderInfo>) {
    forall i :: 0 <= i < |ids| ==> ids[i] in orders
  }

  lemma {:induction false} KnownTail(ids: seq<nat>, orders: map<nat, OrderInfo>)
    requires Distinct(ids) && Known(ids, orders) && ids != []
    ensures ids[0] in orders && Distinct(ids[1..]) && Known(ids[1..], orders - {ids[0]}) && ids == [ids[0]] + ids[1..]
  {
  }

  lemma {:induction false} ExpireInStep(d: Desk, l: Limits, ids: seq<nat>, room: nat)
    requires Sized(d, l) && (forall id :: id in d.orders ==> Listed(d.orders[id].symbol, l))
    requires AllBut(d, l) && Expiring(d, ids) && Distinct(ids) && Known(ids, d.orders)
    ensures InStep(Expire(d, l, ids, room).0, l)
    ensures room >= |ids| ==> Expire(d, l, ids, room).1 == ids
    decreases |ids|
  {
    hide AllBut, Expiring, InStep, Expire, Distinct, Known;
    if ids == [] {
      ExpireNone(d, l, room);
      NoneExpiring(d, l);
      return;
    }
    KnownTail(ids, d.orders);
    ExpireOne(d, l, ids);
    ExpireUnfold(d, l, ids, room);
    var d1 := Remove(d, l, ids[0]).(timers := d.timers);
    ExpireInStep(d1, l, ids[1..], Less(room));
  }

  lemma {:induction false} FiredExpiring(d: Desk, fired: seq<nat>, ids: seq<nat>)
    requires TimersMatch(d.timers, d.orders) && Fires(d.timers, fired, ids)
    ensures Expiring(d.(timers := d.timers - Elements(fired)), ids) && Known(ids, d.orders) && Distinct(ids)
  {
    forall i | 0 <= i < |ids|
      ensures ids[i] in d.orders && d.orders[ids[i]].handle == fired[i]
    {
    }
  }

  lemma {:induction false} DistinctWithin(ids: seq<nat>, all: set<nat>)
    requires Distinct(ids) && forall i :: 0 <= i < |ids| ==> ids[i] in all
    ensures |ids| <= |all|
  {
    if ids != [] {
      DistinctWithin(ids[1..], all - {ids[0]});
    }
  }

  lemma {:induction false} InStepAllBut(d: Desk, d': Desk, l: Limits)
    requires InStep(d, l) && d.kill == Normal && d' == d.(timers := d'.timers)
    ensures AllBut(d', l) && TimersMatch(d.timers, d.orders) && Sized(d', l) && |d.orders| <= l.maxOutstanding
    ensures forall id :: id in d.orders ==> Listed(d.orders[id].symbol, l)
  {
    ModifyCounts(d, d', l);
  }

  /** Every order whose timer expired is cancelled, exactly once, and the tables still agree. */
  lemma {:induction false} TimeoutsInStep(d: Desk, l: Limits, fired: seq<nat>, ids: seq<nat>, rebuild: bool)
    requires InStep(d, l) && d.kill == Normal && Fires(d.timers, fired, ids)
    ensures InStep(Timeouts(d, l, fired, ids, rebuild).0, l)
    ensures Timeouts(d, l, fired, ids, rebuild).1 == ids
  {
    hide InStep, AllBut, Elements, Compact, Expire, Expiring, TimersMatch, Fires, Distinct;
    var d0 := d.(timers := d.timers - Elements(fired));
    InStepAllBut(d, d0, l);
    FiredExpiring(d, fired, ids);
    ExpireInStep(d0, l, ids, l.maxOutstanding);
    DistinctWithin(ids, d.orders.Keys);
    CompactInStep(Expire(d0, l, ids, l.maxOutstanding).0, l, rebuild);
  }

  // ---------------------------------------------------------------------------
  // Runs
  // ---------------------------------------------------------------------------

  lemma {:induction false} RemovedInStep(d: Desk, l: Limits, id: nat, rebuild: bool)
    requires InStep(d, l) && id in d.orders
    ensures InStep(Compact(Remove(d, l, id), rebuild), l)
  {
    RemoveInStep(d, l, id);
    CompactInStep(Remove(d, l, id), l, rebuild);
  }

  lemma {:induction false} DrainInStep(d: Desk, l: Limits)
    requires InStep(d, l)
    ensures InStep(Drain(d), l)
  {
  }

  lemma {:induction false} FillInStep(d: Desk, l: Limits, id: nat, qty: nat, remaining: nat, rebuild: bool)
    requires InStep(d, l) && (remaining == 0 ==> id in d.orders)
    ensures InStep(OnFill(d, l, id, qty, remaining, rebuild), l)
  {
    var d1 := OnFill(d, l, id, qty, 1, rebuild);
    ModifyCounts(d, d1, l);
    if remaining == 0 {
      RemovedInStep(d1, l, id, rebuild);
    }
  }

  lemma {:induction false} ModifyRejectInStep(d: Desk, l: Limits, id: nat)
    requires InStep(d, l)
    ensures InStep(OnModifyReject(d, l, id), l)
  {
    ModifyCounts(d, OnModifyReject(d, l, id), l);
    hide CountsMatch, TimersMatch;
  }

  /** A rejection keeps the tables in step if and only if it names an outstanding order, or there is
      none: for an unknown order the total goes down alone. */
  lemma {:induction false} RejectKeepsExactly(d: Desk, l: Limits, id: nat, rebuild: bool)
    requires InStep(d, l)
    ensures InStep(OnReject(d, l, id, rebuild), l) <==> id in d.orders || d.orders == map[]
  {
    if id in d.orders {
      RemovedInStep(d, l, id, rebuild);
    } else if d.orders == map[] {
      CompactInStep(d, l, rebuild);
    } else {
      var k :| k in d.orders;
      InStepIsLoose(d, l);
      KnownIsCounted(d, l, k);
      NoOrders(d.orders[k].symbol);
      assert d.count > 0 by {
        assert |d.orders.Keys| > 0;
      }
    }
  }

  /** The same for a cancel acknowledgement, whatever the kill switch. */
  lemma {:induction false} CancelAckKeepsExactly(d: Desk, l: Limits, id: nat, rebuild: bool)
    requires InStep(d, l)
    ensures InStep(OnCancelAck(d, l, id, rebuild), l) <==> id in d.orders || d.orders == map[]
  {
    RejectKeepsExactly(d, l, id, rebuild);
    hide InStep, Compact, Remove, Drain;
    var e := Compact(Remove(d, l, id), rebuild);
    if InStep(e, l) {
      DrainInStep(e, l);
    }
    if InStep(Drain(e), l) {
      DrainChanges(e, l);
    }
  }

  /** Counting down the kill switch leaves the tables as they are. */
  lemma {:induction false} DrainChanges(d: Desk, l: Limits)
    ensures InStep(Drain(d), l) ==> InStep(d, l)
  {
  }

  /** And for the fill that completes an order. A fill that leaves some of it keeps the tables in
      step for every order, known or not. */
  lemma {:induction false} FillKeepsExactly(d: Desk, l: Limits, id: nat, qty: nat, remaining: nat, rebuild: bool)
    requires InStep(d, l)
    ensures InStep(OnFill(d, l, id, qty, remaining, rebuild), l) <==> remaining != 0 || id in d.orders || d.orders == map[]
  {
    if remaining != 0 {
      FillInStep(d, l, id, qty, remaining, rebuild);
    } else {
      var d1 := OnFill(d, l, id, qty, 1, rebuild);
      FillInStep(d, l, id, qty, 1, rebuild);
      RejectKeepsExactly(d1, l, id, rebuild);
    }
  }

  /** Expired orders are off the table. */
  lemma {:induction false} ExpiredGone(d: Desk, l: Limits, ids: seq<nat>, room: nat, id: nat)
    requires Sized(d, l) && (forall x :: x in d.orders ==> Listed(d.orders[x].symbol, l)) && (id in ids || id !in d.orders)
    ensures id !in Expire(d, l, ids, room).0.orders
    decreases |ids|
  {
    if ids != [] {
      if ids[0] in d.orders {
        var d1 := Remove(d, l, ids[0]).(timers := d.timers);
        ExpireUnfold(d, l, ids, room);
        ExpiredGone(d1, l, ids[1..], Less(room), id);
      } else {
        ExpiredGone(d, l, ids[1..], room, id);
      }
    }
  }

  /** From a desk in step, timeouts send their cancels, and the exchange acknowledges one of them:
      the tables stay in step if and only if no order is left outstanding. */
  lemma {:induction false} LateCancelAck(d: Desk, l: Limits, fired: seq<nat>, ids: seq<nat>, rebuild: bool, id: nat, rebuild': bool)
    requires InStep(d, l) && d.kill == Normal && Fires(d.timers, fired, ids) && id in ids
    ensures var d1 := Timeouts(d, l, fired, ids, rebuild).0;
            && id in Timeouts(d, l, fired, ids, rebuild).1 && InStep(d1, l) && id !in d1.orders
            && (InStep(OnCancelAck(d1, l, id, rebuild'), l) <==> d1.orders == map[])
  {
    TimeoutsInStep(d, l, fired, ids, rebuild);
    hide InStep, Expire, Elements, Fires, OnCancelAck;
    var d1 := Timeouts(d, l, fired, ids, rebuild).0;
    InStepIsLoose(d, l);
    ExpiredGone(d.(timers := d.timers - Elements(fired)), l, ids, l.maxOutstanding, id);
    InStepIsLoose(d1, l);
    CancelAckKeepsExactly(d1, l, id, rebuild');
  }

  /** One call keeps every table in step. */
  lemma {:induction false} StepInStep(d: Desk, l: Limits, c: Call)
    requires InStep(d, l) && Proper(d, l, c)
    ensures Loose(d, l) && Sensible(d, l, c) && InStep(Step(d, l, c).0, l)
  {
    InStepIsLoose(d, l);
    hide InStep, Loose, Compact, Remove, OnSignal, CheckModify, Timeouts, OnFill, Drain, OnModifyReject;
    match c
    case SignalCall(s, now, h, inserted) => SignalInStep(d, l, s, now, h, inserted);
    case ModifyCall(s) => ModifyInStep(d, l, s);
    case Ack(_) =>
    case Reject(id, rebuild) => RemovedInStep(d, l, id, rebuild);
    case FillCall(id, qty, remaining, rebuild) => FillInStep(d, l, id, qty, remaining, rebuild);
    case ModifyAck(_) =>
    case ModifyReject(id) => ModifyRejectInStep(d, l, id);
    case CancelAck(id, rebuild) =>
      RemovedInStep(d, l, id, rebuild);
      DrainInStep(Compact(Remove(d, l, id), rebuild), l);
    case CancelReject(id, rebuild) =>
      if id in d.orders {
        RemovedInStep(d, l, id, rebuild);
        DrainInStep(Compact(Remove(d, l, id), rebuild), l);
      } else {
        DrainInStep(d, l);
      }
    case TimeoutCall(fired, ids, rebuild) =>
      if d.kill == Normal {
        TimeoutsInStep(d, l, fired, ids, rebuild);
      } else {
        TimeoutsKilled(d, l, fired, ids, rebuild);
      }
    case TriggerCall(ids) => TriggerInStep(d, l, ids);
  }

  lemma {:induction false} TimeoutsKilled(d: Desk, l: Limits, fired: seq<nat>, ids: seq<nat>, rebuild: bool)
    requires InStep(d, l) && d.kill != Normal
    ensures Timeouts(d, l, fired, ids, rebuild).0 == d
  {
  }

  lemma {:induction false} TriggerInStep(d: Desk, l: Limits, ids: seq<nat>)
    requires InStep(d, l)
    ensures InStep(Trigger(d, l, ids).0, l)
  {
    ModifyCounts(d, Trigger(d, l, ids).0, l);
  }

  lemma {:induction false} RunInStep(states: seq<Desk>, calls: seq<Call>, l: Limits, n: nat)
    requires Run(states, calls, l) && n <= |calls| && InStep(states[0], l)
    requires forall i :: 0 <= i < |calls| ==> Proper(states[i], l, calls[i])
    ensures InStep(states[n], l)
  {
    hide InStep, Proper, Step, Loose, Sensible;
    if n > 0 {
      RunInStep(states, calls, l, n - 1);
      RunLoose(states, calls, l, n - 1);
      StepInStep(states[n - 1], l, calls[n - 1]);
    }
  }

  // ---------------------------------------------------------------------------
  // The sum of the per-symbol counts
  // ---------------------------------------------------------------------------

  function Sum(xs: seq<nat>): nat {
    if xs == [] then 0 else xs[|xs| - 1] + Sum(xs[..|xs| - 1])
  }

  /** Orders of the first n symbols. */
  function UpTo(orders: map<nat, OrderInfo>, n: nat): set<nat> {
    set id | id in orders && 0 < orders[id].symbol <= n
  }

  lemma {:induction false} SumUpTo(d: Desk, l: Limits, n: nat)
    requires Sized(d, l) && CountsMatch(d, l) && n <= l.symbols
    ensures Sum(d.perSymbol[..n]) == |UpTo(d.orders, n)|
  {
    if n == 0 {
      assert UpTo(d.orders, 0) == {};
    } else {
      SumUpTo(d, l, n - 1);
      assert d.perSymbol[..n][..n - 1] == d.perSymbol[..n - 1];
      assert d.perSymbol[..n][n - 1] == SymbolCount(d.orders, (n - 1) + 1);
      assert UpTo(d.orders, n) == UpTo(d.orders, n - 1) + OfSymbol(d.orders, n);
      assert UpTo(d.orders, n - 1) !! OfSymbol(d.orders, n);
    }
  }

  /** The outstanding count is the size of the table and the sum of the per-symbol counts. */
  lemma {:induction false} CountsAddUp(d: Desk, l: Limits)
    requires InStep(d, l)
    ensures d.count == |d.orders| == Sum(d.perSymbol)
  {
    SumUpTo(d, l, l.symbols);
    assert d.perSymbol[..l.symbols] == d.perSymbol;
    assert UpTo(d.orders, l.symbols) == d.orders.Keys;
  }
}
