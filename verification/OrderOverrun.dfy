/** How the buffer of timed-out order ids is overrun: four timers fire at once for a manager that
    allows three outstanding orders. */
module OrderOverruns {
  import opened Machine
  import opened Books
  import opened HashTable
  import TimerLog
  import opened OrderTimers
  import opened Desks
  import opened DeskRuns
  import opened DeskBooks
  import opened OrderManagers

  const THREE := Limits(1, 3, 10, 10, 1000, 100, 10, 1)
  const BUY := Signal(1, Bid, 1, 1)
  const DELAY := 2

  /** n orders have been sent at time 0, all their timers are running, and c orders are counted. */
  ghost predicate Sent(m: OrderManager, n: nat, c: nat)
    reads m.Repr
  {
    && m.Owns() && m.Valid() && m.limits == THREE && m.delay == DELAY && m.timers.wheel.maxTimers == 4
    && m.table.capacity == 16 && m.table.maxLoad == 11 && m.table.Load() <= n
    && m.kill == Normal && m.count == c && m.nextId == n + 1 && m.tokens == 10 - n && m.lastRefill == m.lastAdvance == 0
    && m.ledger.perSymbol[..] == [n] && m.ledger.position[..] == [0]
    && |m.timers.timers| == n && AllDue(m.timers.timers, m.timers.Now() + DELAY)
  }

  ghost predicate AllDue(timers: map<nat, TimerLog.Pending>, at: nat) {
    forall h :: h in timers ==> timers[h].due == at
  }

  lemma {:induction false} OneMoreDue(before: map<nat, TimerLog.Pending>, after: map<nat, TimerLog.Pending>, h: nat, now: nat, id: nat)
    requires AllDue(before, now + DELAY) && h !in before && Started(before, after, true, h, now, DELAY, id)
    ensures AllDue(after, now + DELAY) && |after| == |before| + 1
  {
    assert after.Keys == before.Keys + {h};
  }

  /** An admitted order of one at a price of one. */
  lemma {:induction false} Bought(d: Desk, n: nat, c: nat, h: nat)
    requires Sized(d, THREE) && d.kill == Normal && d.count == c < 3 && n < 4 && d.tokens == 10 - n && d.lastRefill == 0
    requires d.perSymbol == [n] && d.position == [0] && d.nextId == n + 1
    ensures var (e, r) := OnSignal(d, THREE, BUY, 0, h, true);
            && r.Some? && e.kill == Normal && e.count == c + 1 && e.nextId == n + 2 && e.tokens == 10 - (n + 1) && e.lastRefill == 0
            && e.perSymbol == [n + 1] && e.position == [0]
  {
  }

  method Buy(m: OrderManager, ghost n: nat, ghost c: nat)
    requires Sent(m, n, c) && n < 4 && c < 3
    modifies m.Repr
    ensures Sent(m, n + 1, c + 1)
  {
    hide OrderTimers.Valid, OrderTimers.Owns, Loose, OrdersOf, HashMap.Valid, HashMap.Refuses, OnSignal, Started, AllDue, InStep;
    LooseSized(m.State(), THREE);
    ghost var d, before := m.State(), m.timers.timers;
    m.table.RoomRefusesNothing(m.nextId);
    var _, h, _ := m.OnSignal(BUY, 0);
    Bought(d, n, c, h);
    OneMoreDue(before, m.timers.timers, h, m.timers.Now(), n + 1);
  }

  /** A rejection of an unknown order is taken off the count alone. */
  lemma {:induction false} Discounted(d: Desk, id: nat, rebuild: bool)
    requires Sized(d, THREE) && id !in d.orders && d.count > 1
    ensures OnReject(d, THREE, id, rebuild) == d.(count := d.count - 1)
  {
  }

  lemma {:induction false} SameTimers(before: map<nat, TimerLog.Pending>, after: map<nat, TimerLog.Pending>)
    requires Undisturbed(before, after) && OrdersOf(after) == OrdersOf(before)
    ensures after == before
  {
    assert forall h :: h in OrdersOf(after) <==> h in after;
    assert forall h :: h in OrdersOf(before) <==> h in before;
  }

  method RejectUnknown(m: OrderManager, id: nat, ghost n: nat, ghost c: nat)
    requires Sent(m, n, c) && c > 1 && id > n
    modifies m.Repr
    ensures Sent(m, n, c - 1)
  {
    hide OrderTimers.Valid, OrderTimers.Owns, OrdersOf, HashMap.Valid, HashMap.Refuses, OnReject, AllDue, Undisturbed, Remove;
    ghost var d, before := m.State(), m.timers.timers;
    ghost var rebuild := m.OnReject(id);
    Discounted(d, id, rebuild);
    SameTimers(before, m.timers.timers);
  }

  method NewManager() returns (m: OrderManager)
    ensures fresh(m.Repr) && Sent(m, 0, 0)
  {
    hide OrderTimers.Valid, OrderTimers.Owns, OrdersOf, HashMap.Valid, Loose, InStep;
    assert IsPow2(4);
    assert IsPow2(16);
    m := new OrderManager(THREE, DELAY, 16, (k: nat) => k, 4, 4);
  }

  /** Three orders are sent, a rejection names an unknown order and a fourth order is sent: four
      timers run, all due two ticks later. */
  method Overdue() returns (m: OrderManager)
    ensures fresh(m.Repr) && Sent(m, 4, 3)
  {
    hide Sent;
    m := NewManager();
    Buy(m, 0, 0);
    Buy(m, 1, 1);
    Buy(m, 2, 2);
    RejectUnknown(m, 9, 3, 3);
    Buy(m, 3, 2);
  }

  /** Two ticks later one more id is written than the buffer of three holds. */
  method Overrun(m: OrderManager) returns (ok: bool)
    requires Sent(m, 4, 3)
    modifies m.Repr
    ensures !ok && m.timers.noted.Length == 3
  {
    hide OrderTimers.Valid, OrderTimers.Owns, OrdersOf, HashMap.Valid, Loose, InStep, Timeouts, Fires, SymbolsOf, Elements, Left;
    assert DueBy(m.timers.timers, m.timers.Now() + DELAY) == m.timers.timers.Keys;
    hide DueBy, AllDue;
    assert Wrap32((2 * TICK - 0) / TICK) == DELAY;
    var fits, _, _, _, _ := m.AdvanceTimeouts(2 * TICK);
    ok := fits;
  }
}
