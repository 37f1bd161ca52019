/** How the order table comes to refuse an order that passes every risk check while a single order
    is outstanding. */
module OrderRefusals {
  import opened Machine
  import opened Books
  import opened HashTable
  import opened OrderTimers
  import opened Desks
  import opened DeskRuns
  import opened DeskBooks
  import opened OrderManagers

  const TWO := Limits(1, 2, 10, 10, 1000, 100, 10, 1)
  const BUY := Signal(1, Bid, 1, 1)

  /** Of the n orders sent so far, order 1 is outstanding, and the last one if two are. Every order
      has used up the slot of its own id, and the slots after that are empty. */
  ghost predicate Worn(m: OrderManager, n: nat, outstanding: nat)
    reads m.Repr
  {
    && m.Owns() && m.Valid() && m.limits == TWO && m.table.capacity == 8 && m.table.maxLoad == 5
    && (forall k: nat :: k < 8 ==> m.table.Home(k) == k)
    && m.table.Load() == n && (forall p: nat :: n < p < 8 ==> p in m.table.Vacant())
    && m.kill == Normal && m.count == outstanding && m.nextId == n + 1 && m.tokens == 10 - n && m.lastRefill == 0
    && m.ledger.perSymbol[..] == [outstanding] && m.ledger.position[..] == [0]
    && m.table.contents.Keys == (if outstanding == 2 then {1, n} else if outstanding == 1 then {1} else {})
  }

  /** An order of one at a price of one passes every risk check. */
  lemma {:induction false} Admitted(d: Desk)
    requires Sized(d, TWO) && d.kill == Normal && d.count < 2 && d.perSymbol == [d.count] && d.position == [0]
    requires d.tokens > 0 && d.lastRefill == 0
    ensures Admit(d, TWO, BUY, 0) == (d, true)
  {
  }

  lemma {:induction false} Bought(d: Desk, h: nat)
    requires Sized(d, TWO) && d.tokens > 0 && |d.perSymbol| == 1 && Admit(d, TWO, BUY, 0) == (d, true)
    ensures var (e, r) := OnSignal(d, TWO, BUY, 0, h, true);
            && r.Some? && e.kill == d.kill && e.count == d.count + 1 && e.nextId == d.nextId + 1 && e.tokens == d.tokens - 1
            && e.lastRefill == d.lastRefill && e.perSymbol == [d.perSymbol[0] + 1] && e.position == d.position
            && e.orders.Keys == d.orders.Keys + {d.nextId}
  {
    hide Admit;
  }

  method Buy(m: OrderManager, ghost n: nat, ghost c: nat)
    requires Worn(m, n, c) && n < 5 && c < 2 && (c == 0 ==> n == 0)
    modifies m.Repr
    ensures Worn(m, n + 1, c + 1)
  {
    hide OrderTimers.Valid, OrderTimers.Owns, Loose, OrdersOf, HashMap.Valid, HashMap.Refuses, HashMap.Vacant, HashMap.Home;
    hide OnSignal, Admit, Started, InStep;
    LooseSized(m.State(), TWO);
    ghost var d := m.State();
    m.table.RoomRefusesNothing(m.nextId);
    var _, h, _ := m.OnSignal(BUY, 0);
    Admitted(d);
    Bought(d, h);
  }

  /** A known order is rejected while another one is outstanding. */
  lemma {:induction false} Rejected(d: Desk, id: nat, rebuild: bool)
    requires Sized(d, TWO) && id in d.orders && d.orders[id].symbol == 1 && d.count == 2 && d.perSymbol == [2]
    ensures OnReject(d, TWO, id, rebuild) ==
            d.(timers := d.timers - {d.orders[id].handle}, active := ClearActive(d.active, 1, d.orders[id].side, id, TWO),
               perSymbol := [1], orders := d.orders - {id}, count := 1)
  {
    hide ClearActive;
  }

  method RejectLast(m: OrderManager, n: nat)
    requires Worn(m, n, 2) && 1 < n
    modifies m.Repr
    ensures Worn(m, n, 1)
  {
    hide OrderTimers.Valid, OrderTimers.Owns, OrdersOf, HashMap.Valid, HashMap.Refuses, HashMap.Vacant, HashMap.Home, OnReject;
    hide Remove, SymbolCount, ClearActive;
    ghost var d := m.State();
    ghost var rebuild := m.OnReject(n);
    Rejected(d, n, rebuild);
    assert {1, n} - {n} == {1};
  }

  method NewManager() returns (m: OrderManager)
    ensures fresh(m.Repr) && Worn(m, 0, 0)
  {
    hide OrderTimers.Valid, OrderTimers.Owns, OrdersOf, HashMap.Valid, HashMap.Vacant, Loose, InStep;
    assert IsPow2(8);
    assert IsPow2(2);
    assert IsPow2(4);
    m := new OrderManager(TWO, 2, 8, (k: nat) => k, 4, 2);
  }

  /** A new manager for two orders sends one, which stays, and four that come and go. Nothing is
      cleared, since something is always outstanding. */
  method Wear() returns (m: OrderManager)
    ensures fresh(m.Repr) && Worn(m, 5, 1)
  {
    hide Worn;
    m := NewManager();
    Buy(m, 0, 0);
    for n := 1 to 5
      invariant fresh(m.Repr) && Worn(m, n, 1)
    {
      Buy(m, n, 1);
      RejectLast(m, n + 1);
    }
  }

  /** The next order passes every risk check and is lost: the table refuses it, with one order of
      two outstanding. */
  method Refused(m: OrderManager) returns (r: Option<Outgoing>)
    requires Worn(m, 5, 1)
    modifies m.Repr
    ensures r.None? && m.count == 1 && m.limits.maxOutstanding == 2 && old(Admit(m.State(), TWO, BUY, 0)).1
  {
    hide OrderTimers.Valid, OrderTimers.Owns, Loose, OrdersOf, HashMap.Valid, HashMap.Refuses, HashMap.Vacant, HashMap.Home;
    hide Admit, Started, InStep;
    LooseSized(m.State(), TWO);
    Admitted(m.State());
    m.table.EmptyBucketRefused(6);
    var o, _, _ := m.OnSignal(BUY, 0);
    r := o;
  }
}
