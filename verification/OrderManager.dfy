/** The order manager: risk checks, outstanding orders, timeouts and the kill switch, updated in
    place. */
module OrderManagers {
  import opened Machine
  import opened Books
  import opened HashTable
  import TimerLog
  import opened OrderTimers
  import opened Desks
  import opened DeskRuns
  import opened DeskBooks

  /** One tick of the timer wheel in nanoseconds. */
  const TICK := 1_000_000

  datatype CancelRequest = CancelRequest(id: nat, symbol: nat)

  function IdsOf(batch: seq<CancelRequest>): seq<nat> {
    seq(|batch|, i requires 0 <= i < |batch| => batch[i].id)
  }

  /** Each cancel carries the symbol its order was recorded with. */
  ghost predicate SymbolsOf(batch: seq<CancelRequest>, orders: map<nat, OrderInfo>) {
    forall i :: 0 <= i < |batch| ==> batch[i].id in orders && batch[i].symbol == orders[batch[i].id].symbol
  }

  /** A visit of the order table: every order once. */
  ghost predicate Visits(ids: seq<nat>, orders: map<nat, OrderInfo>) {
    Distinct(ids) && forall id :: id in ids <==> id in orders
  }

  ghost function OrdersOf(timers: map<nat, TimerLog.Pending>): map<nat, nat> {
    map h | h in timers :: timers[h].cb
  }

  /** With every table in step there are as many timers as orders. */
  lemma {:induction false} TimersCounted(timers: map<nat, nat>, orders: map<nat, OrderInfo>)
    requires TimersMatch(timers, orders)
    ensures |timers| == |orders|
  {
    if timers == map[] {
      assert forall id :: id in orders ==> orders[id].handle in timers;
      assert orders == map[];
    } else {
      var h :| h in timers;
      var id := timers[h];
      RemoveTimers(timers, orders, id);
      TimersCounted(timers - {h}, orders - {id});
      assert (timers - {h}).Keys == timers.Keys - {h} && (orders - {id}).Keys == orders.Keys - {id};
    }
  }

  /** With the tables in step the buffer of timed-out order ids, which holds as many as may be
      outstanding, is never overrun, however late the timers are advanced. */
  lemma {:induction false} TimeoutsFit(d: Desk, l: Limits, timers: map<nat, TimerLog.Pending>, now: nat)
    requires InStep(d, l) && d.kill == Normal && d.timers == OrdersOf(timers)
    ensures |DueBy(timers, now)| <= l.maxOutstanding
  {
    TimersCounted(d.timers, d.orders);
    assert timers.Keys == d.timers.Keys;
    SubsetCount(DueBy(timers, now), timers.Keys);
  }

  lemma {:induction false} AdmittedRoom(d: Desk, l: Limits, s: Signal, now: int)
    requires Sized(d, l) && Listed(s.symbol, l) && l.interval > 0 && Admit(d, l, s, now).1
    ensures var d' := Admit(d, l, s, now).0; d'.tokens > 0 && d'.nextId == d.nextId && d'.orders == d.orders
    ensures d.kill == Normal && d.count < l.maxOutstanding
  {
    hide Refill, Abs;
  }

  lemma {:induction false} TimersRoom(d: Desk, l: Limits, timers: map<nat, TimerLog.Pending>)
    requires InStep(d, l) && d.kill == Normal && d.count < l.maxOutstanding && d.timers == OrdersOf(timers)
    ensures |timers| < l.maxOutstanding
  {
    TimersCounted(d.timers, d.orders);
    assert timers.Keys == d.timers.Keys;
  }

  lemma {:induction false} NextUnknown(d: Desk, l: Limits)
    requires Loose(d, l)
    ensures d.nextId !in d.orders
  {
  }

  /** Some handle is in no table. */
  lemma {:induction false} UnusedHandle(keys: set<nat>) returns (h: nat)
    ensures h != 0 && forall k :: k in keys ==> k < h
  {
    if keys == {} {
      return 1;
    }
    var k :| k in keys;
    var h0 := UnusedHandle(keys - {k});
    h := if k < h0 then h0 else k + 1;
    forall j | j in keys
      ensures j < h
    {
      assert j == k || j in keys - {k};
    }
  }

  lemma {:induction false} NothingInStep(d: Desk, l: Limits)
    requires Sized(d, l) && l.interval > 0 && d.orders == map[] && d.timers == map[] && d.count == 0
    requires forall s :: 0 <= s < l.symbols ==> d.perSymbol[s] == 0
    requires forall j :: 0 <= j < |d.active| ==> !d.active[j].resting
    ensures InStep(d, l) && Loose(d, l)
  {
    forall s | 0 <= s < l.symbols
      ensures SymbolCount(d.orders, s + 1) == d.perSymbol[s]
    {
      NoOrders(s + 1);
    }
  }

  lemma {:induction false} EntriesVisit(es: seq<(nat, OrderInfo)>, orders: map<nat, OrderInfo>, visit: seq<nat>)
    requires DistinctKeys(es) && forall k, v :: (k, v) in es <==> k in orders && orders[k] == v
    requires |visit| == |es| && forall i :: 0 <= i < |es| ==> visit[i] == es[i].0
    ensures Visits(visit, orders)
  {
    forall id
      ensures id in visit <==> id in orders
    {
      if id in orders {
        var i :| 0 <= i < |es| && es[i] == (id, orders[id]);
        assert visit[i] == id;
      }
      if i :| 0 <= i < |visit| && visit[i] == id {
        assert (es[i].0, es[i].1) in es;
      }
    }
  }

  lemma {:induction false} FiredOrders(timers: map<nat, TimerLog.Pending>, fired: seq<nat>, ids: seq<nat>)
    requires |fired| == |ids| && (forall i :: 0 <= i < |fired| ==> fired[i] in timers && timers[fired[i]].cb == ids[i])
    requires forall i, j :: 0 <= i < j < |fired| ==> fired[i] != fired[j]
    ensures Fires(OrdersOf(timers), fired, ids) && OrdersOf(timers - Elements(fired)) == OrdersOf(timers) - Elements(fired)
  {
  }

  lemma {:induction false} NoOrdersTimed()
    ensures OrdersOf(map[]) == map[]
  {
  }

  lemma {:induction false} StopOrders(timers: map<nat, TimerLog.Pending>, h: nat)
    ensures OrdersOf(timers - {h}) == OrdersOf(timers) - {h}
  {
  }

  lemma {:induction false} StopAbsent(timers: map<nat, TimerLog.Pending>, h: nat)
    requires h !in timers
    ensures OrdersOf(timers) - {h} == OrdersOf(timers)
  {
  }

  lemma {:induction false} StartOrders(timers: map<nat, TimerLog.Pending>, h: nat, p: TimerLog.Pending)
    ensures OrdersOf(timers[h := p]) == OrdersOf(timers)[h := p.cb]
  {
  }

  /** Timers that are left have the deadline they had. */
  ghost predicate Undisturbed(before: map<nat, TimerLog.Pending>, after: map<nat, TimerLog.Pending>) {
    forall h :: h in after ==> h in before && before[h] == after[h]
  }

  lemma {:induction false} RemoveSplit(d: Desk, l: Limits, id: nat)
    requires Sized(d, l) && id in d.orders && Listed(d.orders[id].symbol, l)
    ensures var d1 := d.(timers := d.timers - {d.orders[id].handle});
            Remove(d, l, id) == Remove(d1, l, id).(timers := d1.timers)
  {
  }

  // ---------------------------------------------------------------------------
  // Expiring orders one after the other
  // ---------------------------------------------------------------------------

  ghost predicate Placed(d: Desk, l: Limits) {
    Sized(d, l) && forall id :: id in d.orders ==> Listed(d.orders[id].symbol, l)
  }

  /** What is still to come of expiring all ids when batch has been collected. */
  ghost predicate ExpiringTo(d0: Desk, l: Limits, ids: seq<nat>, room: nat, batch: seq<nat>, d: Desk, rest: seq<nat>)
    requires Placed(d0, l) && Placed(d, l) && |batch| <= room
  {
    var (end, more) := Expire(d, l, rest, room - |batch|);
    Expire(d0, l, ids, room) == (end, batch + more)
  }

  lemma {:induction false} ExpiringStart(d: Desk, l: Limits, ids: seq<nat>, room: nat)
    requires Placed(d, l)
    ensures ExpiringTo(d, l, ids, room, [], d, ids)
  {
    assert [] + Expire(d, l, ids, room).1 == Expire(d, l, ids, room).1;
  }

  lemma {:induction false} ExpiringSkip(d0: Desk, l: Limits, ids: seq<nat>, room: nat, batch: seq<nat>, d: Desk, rest: seq<nat>)
    requires Placed(d0, l) && Placed(d, l) && |batch| <= room && ExpiringTo(d0, l, ids, room, batch, d, rest)
    requires rest != [] && rest[0] !in d.orders
    ensures ExpiringTo(d0, l, ids, room, batch, d, rest[1..])
  {
  }

  lemma {:induction false} ExpiringStep(d0: Desk, l: Limits, ids: seq<nat>, room: nat, batch: seq<nat>, d: Desk, rest: seq<nat>)
    requires Placed(d0, l) && Placed(d, l) && |batch| <= room && ExpiringTo(d0, l, ids, room, batch, d, rest)
    requires rest != [] && rest[0] in d.orders
    ensures var d1 := Remove(d, l, rest[0]).(timers := d.timers);
            Placed(d1, l) && ExpiringTo(d0, l, ids, room, if |batch| < room then batch + [rest[0]] else batch, d1, rest[1..])
  {
    var d1 := Remove(d, l, rest[0]).(timers := d.timers);
    ExpireUnfold(d, l, rest, room - |batch|);
    var more := Expire(d1, l, rest[1..], Less(room - |batch|)).1;
    assert batch + ([rest[0]] + more) == (batch + [rest[0]]) + more;
  }

  lemma {:induction false} ExpiringEnd(d0: Desk, l: Limits, ids: seq<nat>, room: nat, batch: seq<nat>, d: Desk)
    requires Placed(d0, l) && Placed(d, l) && |batch| <= room && ExpiringTo(d0, l, ids, room, batch, d, [])
    ensures Expire(d0, l, ids, room) == (d, batch)
  {
    assert batch + [] == batch;
  }

  /** Orders that are left are as they were. */
  ghost predicate Among(orders: map<nat, OrderInfo>, before: map<nat, OrderInfo>) {
    forall id :: id in orders ==> id in before && orders[id] == before[id]
  }

  lemma {:induction false} AmongAmong(a: map<nat, OrderInfo>, b: map<nat, OrderInfo>, c: map<nat, OrderInfo>)
    requires Among(a, b) && Among(b, c)
    ensures Among(a, c)
  {
  }

  lemma {:induction false} NoCancels(orders: map<nat, OrderInfo>)
    ensures SymbolsOf([], orders) && IdsOf([]) == [] && Among(orders, orders)
  {
  }

  lemma {:induction false} OneMoreCancel(batch: seq<CancelRequest>, c: CancelRequest, orders: map<nat, OrderInfo>,
                                         before: map<nat, OrderInfo>)
    requires SymbolsOf(batch, before) && Among(orders, before) && c.id in orders && c.symbol == orders[c.id].symbol
    ensures SymbolsOf(batch + [c], before) && IdsOf(batch + [c]) == IdsOf(batch) + [c.id]
  {
  }

  /** The orders left when those that timed out are gone. */
  ghost function Left(d: Desk, l: Limits, fired: seq<nat>, ids: seq<nat>): map<nat, OrderInfo>
    requires Placed(d, l)
  {
    Expire(d.(timers := d.timers - Elements(fired)), l, ids, l.maxOutstanding).0.orders
  }

  /** Counts and positions by symbol, and the order resting on each side of each symbol. */
  class Ledger {
    const perSymbol: array<nat>
    const position: array<int>
    const active: array<ActiveOrder>
    ghost const Repr: set<object>

    ghost predicate Owns(l: Limits) {
      && Repr == {perSymbol, position, active}
      && perSymbol as object != position && perSymbol as object != active && position as object != active
      && perSymbol.Length == position.Length == l.symbols && active.Length == 2 * l.symbols
    }

    constructor (l: Limits)
      ensures Owns(l) && fresh(Repr)
      ensures perSymbol[..] == seq(l.symbols, _ => 0) && position[..] == seq(l.symbols, _ => 0)
      ensures active[..] == seq(2 * l.symbols, _ => ActiveOrder(0, 0, 0, false))
    {
      var s := new nat[l.symbols](_ => 0);
      var p := new int[l.symbols](_ => 0);
      var a := new ActiveOrder[2 * l.symbols](_ => ActiveOrder(0, 0, 0, false));
      perSymbol, position, active := s, p, a;
      Repr := {s, p, a};
    }

    /** A new order is counted and becomes the resting order of its side. */
    method Record(id: nat, s: Signal, l: Limits)
      requires Owns(l) && Listed(s.symbol, l)
      modifies perSymbol, active
      ensures perSymbol[..] == old(perSymbol[..])[s.symbol - 1 := old(perSymbol[s.symbol - 1]) + 1]
      ensures active[..] == old(active[..])[SlotIndex(s.symbol, s.side) := ActiveOrder(id, s.price, s.qty, true)]
    {
      perSymbol[s.symbol - 1] := perSymbol[s.symbol - 1] + 1;
      active[SlotIndex(s.symbol, s.side)] := ActiveOrder(id, s.price, s.qty, true);
    }

    /** The resting order of a side is forgotten if it is the one named. */
    method ClearIfMatch(symbol: nat, side: Side, id: nat, l: Limits)
      requires Owns(l)
      modifies active
      ensures active[..] == ClearActive(old(active[..]), symbol, side, id, l)
    {
      if !Listed(symbol, l) {
        return;
      }
      var j := SlotIndex(symbol, side);
      if active[j].resting && active[j].id == id {
        active[j] := active[j].(resting := false);
      }
    }
  }

  class OrderManager {
    const limits: Limits
    /** Timeout of an order in ticks. */
    const delay: nat
    const table: HashMap<nat, OrderInfo>
    const timers: OrderTimers
    const ledger: Ledger
    var kill: Kill
    var pending: nat
    var count: nat
    var nextId: nat
    var tokens: nat
    var lastRefill: int
    var lastAdvance: int
    ghost const Repr: set<object>

    ghost predicate Owns() {
      && Repr == {this, table, table.slots} + ledger.Repr + timers.Repr
      && {this, table, table.slots} !! ledger.Repr && {this, table, table.slots} + ledger.Repr !! timers.Repr
      && timers in timers.Repr && ledger.Owns(limits) && timers.Owns() && 0 < delay < timers.wheel.wheelSize
      && timers.noted.Length == limits.maxOutstanding
    }

    ghost function State(): Desk
      requires Owns()
      reads Repr
    {
      Desk(kill, pending, count, nextId, table.contents, ledger.perSymbol[..], ledger.position[..], ledger.active[..], tokens,
           lastRefill, OrdersOf(timers.timers))
    }

    ghost predicate Valid()
      reads Repr
    {
      Owns() && table.Valid() && timers.Valid() && Loose(State(), limits)
    }

    constructor (l: Limits, timeoutTicks: nat, tableSize: nat, hash: nat -> nat, wheelSize: nat, maxTimers: nat)
      requires ValidCapacity(tableSize) && l.interval > 0
      requires 2 <= wheelSize < U32 && IsPow2(wheelSize) && 1 <= maxTimers < U32 && IsPow2(maxTimers)
      requires 0 < timeoutTicks < wheelSize
      ensures Valid() && fresh(Repr) && limits == l && delay == timeoutTicks && timers.wheel.maxTimers == maxTimers
      ensures InStep(State(), l) && kill == Normal && table.contents == map[] && tokens == l.bucket
      ensures table.Fresh(tableSize, hash)
      ensures timers.timers == map[] && lastRefill == lastAdvance == 0 && nextId == 1 && count == 0
      ensures ledger.perSymbol[..] == seq(l.symbols, _ => 0) && ledger.position[..] == seq(l.symbols, _ => 0)
    {
      hide HashMap.Valid, OrderTimers.Valid, InStep, Loose, IsPow2;
      limits, delay := l, timeoutTicks;
      var t := new HashMap<nat, OrderInfo>(tableSize, hash);
      var w := new OrderTimers(wheelSize, maxTimers, l.maxOutstanding);
      var g := new Ledger(l);
      table, timers, ledger := t, w, g;
      kill, pending, count, nextId := Normal, 0, 0, 1;
      tokens, lastRefill, lastAdvance := l.bucket, 0, 0;
      Repr := {this, t, t.slots} + g.Repr + w.Repr;
      new;
      NothingInStep(State(), l);
    }

    // -------------------------------------------------------------------------
    // Sending
    // -------------------------------------------------------------------------

    method Admit(s: Signal, now: int) returns (ok: bool)
      requires Owns() && Loose(State(), limits) && Listed(s.symbol, limits)
      modifies this`tokens, this`lastRefill
      ensures (State(), ok) == Desks.Admit(old(State()), limits, s, now)
    {
      hide SymbolCount;
      var i := s.symbol - 1;
      if kill != Normal || count >= limits.maxOutstanding || ledger.perSymbol[i] >= limits.maxPerSymbol {
        return false;
      }
      if s.qty > limits.maxOrderSize || s.price * s.qty > limits.maxNotional {
        return false;
      }
      var elapsed := now - lastRefill;
      if elapsed >= limits.interval {
        var more := Wrap32(elapsed / limits.interval);
        tokens := Min(Wrap32(tokens + more), limits.bucket);
        lastRefill := lastRefill + more * limits.interval;
      }
      if tokens == 0 {
        return false;
      }
      var after := if s.side.Bid? then ledger.position[i] + s.qty else ledger.position[i] - s.qty;
      return Abs(after) <= limits.maxPosition;
    }

    /** A known order is taken off every table but the timers. */
    method Drop(id: nat, info: OrderInfo)
      requires Owns() && table.Valid() && id in table.contents && table.contents[id] == info
      requires Listed(info.symbol, limits) && ledger.perSymbol[info.symbol - 1] > 0
      modifies table, table.slots, ledger.Repr, this`count
      ensures table.Valid() && State() == Remove(old(State()), limits, id).(timers := old(State()).timers)
      ensures table.Wear() == old(table.Wear())
    {
      hide HashMap.Valid, HashMap.Refuses, HashMap.Vacant, Kept, ClearActive, OrdersOf, OrderTimers.Owns;
      ledger.ClearIfMatch(info.symbol, info.side, id, limits);
      ledger.perSymbol[info.symbol - 1] := ledger.perSymbol[info.symbol - 1] - 1;
      var _ := table.Erase(id);
      if count > 0 {
        count := count - 1;
      }
    }

    /** An unknown order is only taken off the total. */
    method Discount(id: nat)
      requires Owns() && table.Valid() && id !in table.contents
      modifies table, table.slots, this`count
      ensures table.Valid() && State() == Remove(old(State()), limits, id)
      ensures table.Wear() == old(table.Wear())
    {
      hide HashMap.Valid, HashMap.Refuses, HashMap.Vacant, Kept, OrdersOf, OrderTimers.Owns;
      var _ := table.Erase(id);
      assert table.contents == old(table.contents);
      if count > 0 {
        count := count - 1;
      }
    }

    /** A known order is taken off every table; the total goes down even for an unknown one. */
    method RemoveOrder(id: nat)
      requires Valid()
      modifies table, table.slots, ledger.Repr, this`count, timers.Repr
      ensures State() == Remove(old(State()), limits, id) && Valid()
      ensures table.Wear() == old(table.Wear())
      ensures timers.Now() == old(timers.Now()) && Undisturbed(old(timers.timers), timers.timers)
    {
      hide HashMap.Valid, HashMap.Refuses, HashMap.Vacant, OrderTimers.Valid, OrderTimers.Owns, Loose, OrdersOf, Remove;
      RemoveLoose(State(), limits, id);
      var found := table.Find(id);
      if found.None? {
        Discount(id);
        return;
      }
      KnownIsCounted(State(), limits, id);
      StopOrders(timers.timers, found.value.handle);
      RemoveSplit(State(), limits, id);
      timers.Stop(found.value.handle);
      Drop(id, found.value);
    }

    /** Many slots of the order table would be tombstones if it held only these orders. */
    ghost predicate Clogged(orders: map<nat, OrderInfo>)
      reads table
    {
      table.Load() - |orders| > table.tombstoneThreshold
    }

    method MaybeCompact() returns (ghost rebuild: bool)
      requires Valid()
      modifies table, table.slots
      ensures State() == Compact(old(State()), rebuild) && Valid() && rebuild == old(Clogged(table.contents))
      ensures if old(count) == 0 && rebuild then table.Load() == 0 else table.Wear() == old(table.Wear())
      ensures timers.Now() == old(timers.Now()) && timers.timers == old(timers.timers)
    {
      hide HashMap.Valid, HashMap.Refuses, OrderTimers.Valid, OrderTimers.Owns, Loose, OrdersOf;
      rebuild := table.NeedsRebuild();
      table.SizeIsCardinality();
      CompactLoose(State(), limits, rebuild);
      if count == 0 && table.NeedsRebuild() {
        table.Clear();
      }
    }

    /** Counts down the cancels a kill switch still waits for. */
    method CheckDrain()
      requires Valid()
      modifies this`pending, this`kill
      ensures State() == Drain(old(State())) && Valid()
      ensures timers.Now() == old(timers.Now()) && timers.timers == old(timers.timers)
    {
      hide HashMap.Valid, OrderTimers.Valid, OrderTimers.Owns, Loose, OrdersOf;
      DrainLoose(State(), limits);
      if kill == Draining {
        if pending > 0 {
          pending := pending - 1;
        }
        if pending == 0 {
          kill := Complete;
        }
      }
    }

    // -------------------------------------------------------------------------
    // Responses
    // -------------------------------------------------------------------------

    method OnReject(id: nat) returns (ghost rebuild: bool)
      requires Valid()
      modifies table, table.slots, ledger.Repr, this`count, timers.Repr
      ensures State() == Desks.OnReject(old(State()), limits, id, rebuild) && Valid()
      ensures rebuild == old(Clogged(Remove(State(), limits, id).orders))
      ensures table.Load() <= old(table.Load())
      ensures count > 0 ==> table.Wear() == old(table.Wear())
      ensures timers.Now() == old(timers.Now()) && Undisturbed(old(timers.timers), timers.timers)
    {
      hide HashMap.Valid, OrderTimers.Valid, OrderTimers.Owns, Loose, OrdersOf, Remove, Compact;
      LooseSized(State(), limits);
      RemoveOrder(id);
      rebuild := MaybeCompact();
    }

    /** The position of the order's symbol moves by the quantity filled. */
    method Book(id: nat, qty: nat)
      requires Valid()
      modifies ledger.position
      ensures State() == Desks.OnFill(old(State()), limits, id, qty, 1, false) && Valid()
      ensures timers.Now() == old(timers.Now()) && timers.timers == old(timers.timers)
    {
      hide HashMap.Valid, OrderTimers.Valid, OrderTimers.Owns, Loose, OrdersOf;
      LooseSized(State(), limits);
      FillLoose(State(), limits, id, qty, 1, false);
      var found := table.Find(id);
      if found.None? {
        return;
      }
      var i := found.value.symbol - 1;
      if i < limits.symbols {
        ledger.position[i] := if found.value.side.Bid? then ledger.position[i] + qty else ledger.position[i] - qty;
      }
    }

    method OnFill(id: nat, qty: nat, remaining: nat) returns (ghost rebuild: bool)
      requires Valid()
      modifies table, table.slots, ledger.Repr, this`count, timers.Repr
      ensures State() == Desks.OnFill(old(State()), limits, id, qty, remaining, rebuild) && Valid()
      ensures remaining == 0 ==> rebuild == old(Clogged(Remove(State(), limits, id).orders))
      ensures timers.Now() == old(timers.Now()) && Undisturbed(old(timers.timers), timers.timers)
    {
      hide HashMap.Valid, OrderTimers.Valid, OrderTimers.Owns, Loose, OrdersOf, Compact;
      LooseSized(State(), limits);
      Book(id, qty);
      rebuild := false;
      if remaining == 0 {
        RemoveOrder(id);
        rebuild := MaybeCompact();
      }
    }

    method OnModifyReject(id: nat)
      requires Valid()
      modifies ledger.active
      ensures State() == Desks.OnModifyReject(old(State()), limits, id) && Valid()
      ensures timers.Now() == old(timers.Now()) && timers.timers == old(timers.timers)
    {
      hide HashMap.Valid, OrderTimers.Valid, OrderTimers.Owns, Loose, OrdersOf, ClearActive;
      LooseSized(State(), limits);
      SameLoose(State(), Desks.OnModifyReject(State(), limits, id), limits);
      var found := table.Find(id);
      if found.Some? {
        ledger.ClearIfMatch(found.value.symbol, found.value.side, id, limits);
      }
    }

    method OnCancelAck(id: nat) returns (ghost rebuild: bool)
      requires Valid()
      modifies table, table.slots, ledger.Repr, this`count, timers.Repr, this`pending, this`kill
      ensures State() == Desks.OnCancelAck(old(State()), limits, id, rebuild) && Valid()
      ensures rebuild == old(Clogged(Remove(State(), limits, id).orders))
      ensures timers.Now() == old(timers.Now()) && Undisturbed(old(timers.timers), timers.timers)
    {
      hide HashMap.Valid, OrderTimers.Valid, OrderTimers.Owns, Loose, OrdersOf, Remove, Compact;
      LooseSized(State(), limits);
      RemoveOrder(id);
      rebuild := MaybeCompact();
      CheckDrain();
    }

    method OnCancelReject(id: nat) returns (ghost rebuild: bool)
      requires Valid()
      modifies table, table.slots, ledger.Repr, this`count, timers.Repr, this`pending, this`kill
      ensures State() == Desks.OnCancelReject(old(State()), limits, id, rebuild) && Valid()
      ensures id in old(State()).orders ==> rebuild == old(Clogged(Remove(State(), limits, id).orders))
      ensures timers.Now() == old(timers.Now()) && Undisturbed(old(timers.timers), timers.timers)
    {
      hide HashMap.Valid, OrderTimers.Valid, OrderTimers.Owns, Loose, OrdersOf, Remove, Compact;
      LooseSized(State(), limits);
      rebuild := false;
      var found := table.Find(id);
      if found.Some? {
        RemoveOrder(id);
        rebuild := MaybeCompact();
      }
      CheckDrain();
    }

    // -------------------------------------------------------------------------
    // Signals
    // -------------------------------------------------------------------------

    method CheckModify(s: Signal) returns (r: Option<Change>)
      requires Valid() && Listed(s.symbol, limits)
      modifies ledger.active
      ensures (State(), r) == Desks.CheckModify(old(State()), limits, s) && Valid()
      ensures timers.Now() == old(timers.Now()) && timers.timers == old(timers.timers)
    {
      hide HashMap.Valid, OrderTimers.Valid, OrderTimers.Owns, Loose, OrdersOf;
      LooseSized(State(), limits);
      SameLoose(State(), Desks.CheckModify(State(), limits, s).0, limits);
      if kill != Normal {
        return None;
      }
      var j := SlotIndex(s.symbol, s.side);
      var a := ledger.active[j];
      if !a.resting || a.price == s.price {
        return None;
      }
      ledger.active[j] := a.(price := s.price, qty := s.qty);
      return Some(Change(a.id, s.symbol, s.price, s.qty));
    }

    /** Starts the timer of the next order and enters the order in the table; the timer is
        stopped again when the table refuses. */
    method Enter(s: Signal) returns (ok: bool, h: nat)
      requires Owns() && table.Valid() && timers.Valid() && nextId !in table.contents
      modifies table, table.slots, timers.Repr
      ensures table.Valid() && timers.Valid() && timers.Now() == old(timers.Now())
      ensures ok == !old(table.Refuses(nextId)) && Spends(old(table.Wear()), table.Wear())
      ensures ok ==> TakesHome(old(table.Wear()), table.Wear(), table.Home(nextId))
      ensures table.contents == if ok then old(table.contents)[nextId := OrderInfo(s.side, s.price, s.qty, s.symbol, h)]
                                else old(table.contents)
      ensures h !in old(timers.timers) && (h == 0 <==> |old(timers.timers)| == timers.wheel.maxTimers)
      ensures Started(old(timers.timers), timers.timers, ok && h != 0, h, timers.Now(), delay, nextId)
    {
      hide HashMap.Valid, HashMap.Refuses, HashMap.Vacant, HashMap.Home, TakesHome, OrderTimers.Valid, OrderTimers.Owns;
      hide OrdersOf, Started;
      timers.NeverZero();
      h := timers.Start(nextId, delay);
      ghost var started := timers.timers;
      ok := table.Insert(nextId, OrderInfo(s.side, s.price, s.qty, s.symbol, h));
      if !ok {
        timers.Stop(h);
        StopStarted(old(timers.timers), started, h != 0, h, timers.Now(), delay, nextId);
        NoneStarted(timers.timers, h, timers.Now(), delay, nextId);
      }
    }

    /** An admitted signal becomes an order, unless the order table refuses it. */
    method Send(s: Signal) returns (r: Option<Outgoing>, ghost h: nat, ghost inserted: bool)
      requires Owns() && table.Valid() && timers.Valid() && Listed(s.symbol, limits) && tokens > 0 && nextId !in table.contents
      modifies table, table.slots, ledger.Repr, this`count, timers.Repr, this`nextId, this`tokens
      ensures table.Valid() && timers.Valid() && (State(), r) == Desks.Send(old(State()), limits, s, h, inserted)
      ensures inserted == !old(table.Refuses(nextId)) && Spends(old(table.Wear()), table.Wear())
      ensures r.Some? == inserted
      ensures inserted ==> TakesHome(old(table.Wear()), table.Wear(), table.Home(old(nextId)))
      ensures h !in old(timers.timers) && (h == 0 <==> |old(timers.timers)| == timers.wheel.maxTimers)
      ensures timers.Now() == old(timers.Now())
      ensures Started(old(timers.timers), timers.timers, r.Some? && h != 0, h, timers.Now(), delay, old(nextId))
    {
      hide HashMap.Valid, HashMap.Refuses, HashMap.Vacant, HashMap.Home, TakesHome, OrderTimers.Valid, OrderTimers.Owns, OrdersOf;
      var id := nextId;
      var ok, handle := Enter(s);
      h, inserted := handle, ok;
      nextId := nextId + 1;
      if !ok {
        StopAbsent(timers.timers, h);
        return None, h, inserted;
      }
      StartOrders(old(timers.timers), h, TimerLog.Pending(timers.Now() + delay, id));
      count := count + 1;
      ledger.Record(id, s, limits);
      tokens := tokens - 1;
      r := Some(Outgoing(id, s.symbol, s.side, s.price, s.qty));
    }

    /** A signal becomes an order if every risk check passes and the order table has room. It gets a
        timer unless every timer node is taken; with the tables in step and a node for every order
        that does not happen. */
    method OnSignal(s: Signal, now: int) returns (r: Option<Outgoing>, ghost h: nat, ghost inserted: bool)
      requires Valid() && Listed(s.symbol, limits)
      modifies table, table.slots, ledger.Repr, this`count, timers.Repr, this`nextId, this`tokens, this`lastRefill
      ensures (State(), r) == Desks.OnSignal(old(State()), limits, s, now, h, inserted) && Valid()
      ensures inserted == !old(table.Refuses(nextId)) && Spends(old(table.Wear()), table.Wear())
      ensures r.Some? ==> TakesHome(old(table.Wear()), table.Wear(), table.Home(old(nextId)))
      ensures h !in old(timers.timers) && timers.Now() == old(timers.Now())
      ensures r.Some? ==> (h == 0 <==> |old(timers.timers)| == timers.wheel.maxTimers)
      ensures old(InStep(State(), limits)) && limits.maxOutstanding <= timers.wheel.maxTimers ==> h != 0
      ensures Started(old(timers.timers), timers.timers, r.Some? && h != 0, h, timers.Now(), delay, old(nextId))
    {
      hide HashMap.Valid, HashMap.Refuses, HashMap.Vacant, HashMap.Home, TakesHome, OrderTimers.Valid, OrderTimers.Owns;
      hide OrdersOf, Loose, InStep, Started, Desks.Admit, Desks.Send;
      LooseSized(State(), limits);
      inserted := !table.Refuses(nextId);
      var ok := Admit(s, now);
      if !ok {
        h := UnusedHandle(timers.timers.Keys);
        SignalLoose(old(State()), limits, s, now, h, inserted);
        NoneStarted(timers.timers, h, timers.Now(), delay, nextId);
        return None, h, inserted;
      }
      AdmittedRoom(old(State()), limits, s, now);
      if old(InStep(State(), limits)) {
        TimersRoom(old(State()), limits, timers.timers);
      }
      NextUnknown(old(State()), limits);
      r, h, inserted := Send(s);
      SignalLoose(old(State()), limits, s, now, h, inserted);
    }

    // -------------------------------------------------------------------------
    // Kill switch and timeouts
    // -------------------------------------------------------------------------

    /** Visits the order table and collects a cancel for each order while there is room. */
    method CollectCancels() returns (batch: seq<CancelRequest>, ghost visit: seq<nat>)
      requires table.Valid()
      ensures Visits(visit, table.contents) && SymbolsOf(batch, table.contents)
      ensures IdsOf(batch) == visit[..Min(|visit|, limits.maxOutstanding)]
    {
      hide HashMap.Valid;
      var es := table.Entries();
      visit := seq(|es|, i requires 0 <= i < |es| => es[i].0);
      EntriesVisit(es, table.contents, visit);
      batch := [];
      for i := 0 to |es|
        invariant |batch| == Min(i, limits.maxOutstanding)
        invariant forall k :: 0 <= k < |batch| ==> batch[k] == CancelRequest(es[k].0, es[k].1.symbol)
      {
        if |batch| < limits.maxOutstanding {
          batch := batch + [CancelRequest(es[i].0, es[i].1.symbol)];
        }
      }
      forall k | 0 <= k < |batch|
        ensures batch[k].id in table.contents && batch[k].symbol == table.contents[batch[k].id].symbol
      {
        assert (es[k].0, es[k].1) in es;
      }
      assert IdsOf(batch) == visit[..|batch|];
    }

    /** Stops all trading: a cancel for every order that the batch takes, and no timer left. */
    method TriggerKillSwitch() returns (batch: seq<CancelRequest>, ghost visit: seq<nat>)
      requires Valid()
      modifies timers.Repr, this`kill, this`pending
      ensures (State(), IdsOf(batch)) == Trigger(old(State()), limits, visit) && Valid()
      ensures old(kill) == Normal ==> Visits(visit, old(table.contents))
      ensures SymbolsOf(batch, old(table.contents))
    {
      hide HashMap.Valid, OrderTimers.Valid, OrderTimers.Owns, Loose, OrdersOf, Visits;
      LooseSized(State(), limits);
      if kill != Normal {
        assert IdsOf([]) == [];
        return [], [];
      }
      batch, visit := CollectCancels();
      SameLoose(State(), Trigger(State(), limits, visit).0, limits);
      timers.Clear();
      NoOrdersTimed();
      pending := |batch|;
      kill := if pending == 0 then Complete else Draining;
    }

    /** An order that timed out, if still known, is taken off every table but the timers. */
    method ExpireNext(id: nat) returns (symbol: Option<nat>)
      requires Valid()
      modifies table, table.slots, ledger.Repr, this`count
      ensures symbol == if id in old(table.contents) then Some(old(table.contents)[id].symbol) else None
      ensures State() == if symbol.Some? then Remove(old(State()), limits, id).(timers := old(State()).timers) else old(State())
      ensures Valid() && table.Load() == old(table.Load()) && Among(table.contents, old(table.contents))
      ensures timers.Now() == old(timers.Now()) && timers.timers == old(timers.timers)
    {
      hide HashMap.Valid, HashMap.Refuses, OrderTimers.Valid, OrderTimers.Owns, Loose, OrdersOf, ClearActive;
      var found := table.Find(id);
      if found.None? {
        return None;
      }
      KnownIsCounted(State(), limits, id);
      RemoveLoose(State(), limits, id);
      SameLoose(Remove(State(), limits, id), Remove(State(), limits, id).(timers := State().timers), limits);
      Drop(id, found.value);
      return Some(found.value.symbol);
    }

    /** Cancels the orders that timed out, those still known, as many as the batch takes. */
    method ExpireAll(ids: seq<nat>) returns (batch: seq<CancelRequest>)
      requires Valid()
      modifies table, table.slots, ledger.Repr, this`count
      ensures (State(), IdsOf(batch)) == Expire(old(State()), limits, ids, limits.maxOutstanding) && Valid()
      ensures table.Load() == old(table.Load()) && SymbolsOf(batch, old(table.contents))
      ensures timers.Now() == old(timers.Now()) && timers.timers == old(timers.timers)
    {
      hide HashMap.Valid, HashMap.Refuses, OrderTimers.Valid, OrderTimers.Owns, Loose, OrdersOf, Remove, ExpiringTo;
      hide SymbolsOf, Among;
      LooseSized(State(), limits);
      batch := [];
      NoCancels(table.contents);
      ExpiringStart(State(), limits, ids, limits.maxOutstanding);
      assert ids[0..] == ids;
      for i := 0 to |ids|
        invariant Valid() && Placed(State(), limits) && |batch| <= limits.maxOutstanding
        invariant table.Load() == old(table.Load()) && SymbolsOf(batch, old(table.contents))
        invariant Among(table.contents, old(table.contents))
        invariant timers.Now() == old(timers.Now()) && timers.timers == old(timers.timers)
        invariant ExpiringTo(old(State()), limits, ids, limits.maxOutstanding, IdsOf(batch), State(), ids[i..])
      {
        ghost var d, orders := State(), table.contents;
        assert ids[i..][0] == ids[i] && ids[i..][1..] == ids[i + 1..];
        var symbol := ExpireNext(ids[i]);
        if symbol.None? {
          ExpiringSkip(old(State()), limits, ids, limits.maxOutstanding, IdsOf(batch), d, ids[i..]);
          continue;
        }
        ExpiringStep(old(State()), limits, ids, limits.maxOutstanding, IdsOf(batch), d, ids[i..]);
        AmongAmong(table.contents, orders, old(table.contents));
        if |batch| < limits.maxOutstanding {
          OneMoreCancel(batch, CancelRequest(ids[i], symbol.value), orders, old(table.contents));
          batch := batch + [CancelRequest(ids[i], symbol.value)];
        }
      }
      ExpiringEnd(old(State()), limits, ids, limits.maxOutstanding, IdsOf(batch), State());
    }

    /** Lets ticks pass and cancels the orders whose timers fired: exactly those due by then. It
        fails if and only if they are more than the buffer for them holds. */
    method PassTicks(ticks: nat)
      returns (ok: bool, batch: seq<CancelRequest>, ghost fired: seq<nat>, ghost ids: seq<nat>, ghost rebuild: bool)
      requires Valid() && kill == Normal
      modifies table, table.slots, ledger.Repr, this`count, timers.Repr
      ensures ok <==> |DueBy(old(timers.timers), old(timers.Now()) + ticks)| <= limits.maxOutstanding
      ensures ok ==> (State(), IdsOf(batch)) == Timeouts(old(State()), limits, fired, ids, rebuild) && Valid()
      ensures ok ==> Fires(old(State()).timers, fired, ids) && SymbolsOf(batch, old(table.contents))
      ensures ok ==> timers.Now() == old(timers.Now()) + ticks && timers.timers == old(timers.timers) - Elements(fired)
      ensures ok ==> Elements(fired) == DueBy(old(timers.timers), timers.Now())
      ensures ok ==> rebuild == old(Clogged(Left(State(), limits, fired, ids)))
    {
      hide HashMap.Valid, HashMap.Refuses, OrderTimers.Valid, OrderTimers.Owns, Loose, OrdersOf, Compact, Expire;
      hide SymbolsOf, Elements, DueBy;
      LooseSized(State(), limits);
      ghost var d := State();
      batch, ids, rebuild := [], [], false;
      ok, fired := timers.Advance(ticks);
      if !ok {
        return;
      }
      timers.NotesFit();
      var names := timers.noted[..timers.notes];
      ids := names;
      FiredOrders(old(timers.timers), fired, ids);
      SameLoose(d, d.(timers := d.timers - Elements(fired)), limits);
      batch := ExpireAll(names);
      rebuild := MaybeCompact();
    }

    /** Advances the timers to the given time, in whole ticks. It fails, standing for a write past
        the end of the buffer of timed-out ids, if and only if more timers are due than orders may
        be outstanding. That never happens with the tables in step, nor with no more timer nodes
        than orders may be outstanding. */
    method AdvanceTimeouts(now: int)
      returns (ok: bool, batch: seq<CancelRequest>, ghost fired: seq<nat>, ghost ids: seq<nat>, ghost rebuild: bool)
      requires Valid()
      modifies Repr
      ensures ok <==> old(kill) != Normal || now - old(lastAdvance) < TICK ||
                      |DueBy(old(timers.timers), old(timers.Now()) + Wrap32((now - old(lastAdvance)) / TICK))| <= limits.maxOutstanding
      ensures old(InStep(State(), limits)) || timers.wheel.maxTimers <= limits.maxOutstanding ==> ok
      ensures ok ==> Valid() && SymbolsOf(batch, old(table.contents))
      ensures old(kill) != Normal || now - old(lastAdvance) < TICK ==>
                State() == old(State()) && batch == [] && lastAdvance == old(lastAdvance) &&
                timers.timers == old(timers.timers) && timers.Now() == old(timers.Now())
      ensures ok && old(kill) == Normal && now - old(lastAdvance) >= TICK ==>
                var ticks := Wrap32((now - old(lastAdvance)) / TICK);
                && (State(), IdsOf(batch)) == Timeouts(old(State()), limits, fired, ids, rebuild)
                && Fires(old(State()).timers, fired, ids)
                && Elements(fired) == DueBy(old(timers.timers), timers.Now())
                && rebuild == old(Clogged(Left(State(), limits, fired, ids)))
                && timers.Now() == old(timers.Now()) + ticks && lastAdvance == old(lastAdvance) + ticks * TICK
    {
      hide HashMap.Valid, OrderTimers.Valid, OrderTimers.Owns, Loose, OrdersOf, Timeouts, Fires, SymbolsOf, Elements;
      hide DueBy, InStep;
      ok, batch, fired, ids, rebuild := true, [], [], [], false;
      NoCancels(table.contents);
      if kill != Normal {
        return;
      }
      var elapsed := now - lastAdvance;
      if elapsed < TICK {
        return;
      }
      var ticks := Wrap32(elapsed / TICK);
      LooseSized(State(), limits);
      FewDue(timers.Now() + ticks);
      ok, batch, fired, ids, rebuild := PassTicks(ticks);
      if ok {
        lastAdvance := lastAdvance + ticks * TICK;
      }
    }

    /** No more timers can be due than there are orders in step, or timer nodes. */
    lemma {:induction false} FewDue(now: nat)
      requires Valid() && kill == Normal
      ensures InStep(State(), limits) || timers.wheel.maxTimers <= limits.maxOutstanding ==>
                |DueBy(timers.timers, now)| <= limits.maxOutstanding
    {
      hide HashMap.Valid, OrderTimers.Valid, OrderTimers.Owns, Loose, OrdersOf, InStep;
      timers.PoolCount();
      SubsetCount(DueBy(timers.timers, now), timers.timers.Keys);
      if InStep(State(), limits) {
        TimeoutsFit(State(), limits, timers.timers, now);
      }
    }
  }
}
