/** The order manager's tables as history: positions are the fills so far, the order table the orders
    sent and not yet closed. */
module DeskHistory {
  import opened Machine
  import opened Books
  import opened Desks
  import opened DeskRuns
  import opened DeskAnswers

  // ---------------------------------------------------------------------------
  // Positions
  // ---------------------------------------------------------------------------

  /** What a call does to the position in a symbol: a fill of an order that is known buys or sells,
      nothing else does anything. */
  function Moves(d: Desk, c: Call, symbol: nat): int {
    if c.FillCall? && c.id in d.orders && d.orders[c.id].symbol == symbol
    then (if d.orders[c.id].side == Bid then c.qty else 0 - c.qty)
    else 0
  }

  lemma {:induction false} RemovedPosition(d: Desk, l: Limits, id: nat, rebuild: bool)
    requires Sized(d, l) && (id in d.orders ==> Listed(d.orders[id].symbol, l))
    ensures Compact(Remove(d, l, id), rebuild).position == d.position
  {
  }

  lemma {:induction false} ExpirePosition(d: Desk, l: Limits, ids: seq<nat>, room: nat)
    requires Sized(d, l) && forall id :: id in d.orders ==> Listed(d.orders[id].symbol, l)
    ensures Expire(d, l, ids, room).0.position == d.position
    decreases |ids|
  {
    if ids != [] {
      if ids[0] in d.orders {
        assert Listed(d.orders[ids[0]].symbol, l);
        ExpirePosition(Remove(d, l, ids[0]).(timers := d.timers), l, ids[1..], Less(room));
      } else {
        ExpirePosition(d, l, ids[1..], room);
      }
    }
  }

  lemma {:induction false} SignalPosition(d: Desk, l: Limits, c: Call)
    requires Loose(d, l) && Sensible(d, l, c) && c.SignalCall?
    ensures Step(d, l, c).0.position == d.position
  {
    LooseSized(d, l);
    hide Loose, OnSignal;
    SignalSends(d, l, c.s, c.now, c.h, c.inserted);
  }

  lemma {:induction false} TimeoutPosition(d: Desk, l: Limits, fired: seq<nat>, ids: seq<nat>, rebuild: bool)
    requires Sized(d, l) && forall id :: id in d.orders ==> Listed(d.orders[id].symbol, l)
    ensures Timeouts(d, l, fired, ids, rebuild).0.position == d.position
  {
    hide Expire, Elements;
    ExpirePosition(d.(timers := d.timers - Elements(fired)), l, ids, l.maxOutstanding);
  }

  lemma {:induction false} FillPosition(d: Desk, l: Limits, id: nat, qty: nat, remaining: nat, rebuild: bool, symbol: nat)
    requires Sized(d, l) && (id in d.orders ==> Listed(d.orders[id].symbol, l)) && 0 < symbol <= l.symbols
    ensures var d' := OnFill(d, l, id, qty, remaining, rebuild);
            |d'.position| == |d.position| &&
            d'.position[symbol - 1] == d.position[symbol - 1] + Moves(d, FillCall(id, qty, remaining, rebuild), symbol)
  {
    hide Remove, Compact;
    RemovedPosition(OnFill(d, l, id, qty, 1, rebuild), l, id, rebuild);
  }

  lemma {:induction false} StepPosition(d: Desk, l: Limits, c: Call, symbol: nat)
    requires Loose(d, l) && Sensible(d, l, c) && 0 < symbol <= l.symbols
    ensures |Step(d, l, c).0.position| == |d.position| == l.symbols
    ensures Step(d, l, c).0.position[symbol - 1] == d.position[symbol - 1] + Moves(d, c, symbol)
  {
    LooseSized(d, l);
    if c.SignalCall? {
      SignalPosition(d, l, c);
      return;
    }
    hide Loose, Timeouts, Remove, Compact, OnSignal, OnFill;
    match c
    case TimeoutCall(fired, ids, rebuild) => TimeoutPosition(d, l, fired, ids, rebuild);
    case Reject(id, rebuild) => RemovedPosition(d, l, id, rebuild);
    case FillCall(id, qty, remaining, rebuild) => FillPosition(d, l, id, qty, remaining, rebuild, symbol);
    case CancelAck(id, rebuild) => RemovedPosition(d, l, id, rebuild);
    case CancelReject(id, rebuild) => RemovedPosition(d, l, id, rebuild);
    case _ =>
  }

  /** What the first n calls do to the position in a symbol. */
  function Net(states: seq<Desk>, calls: seq<Call>, symbol: nat, n: nat): int
    requires n <= |calls| <= |states|
  {
    if n == 0 then 0 else Net(states, calls, symbol, n - 1) + Moves(states[n - 1], calls[n - 1], symbol)
  }

  lemma {:induction false} FirstPosition(states: seq<Desk>, calls: seq<Call>, l: Limits)
    requires Run(states, calls, l)
    ensures |states| == |calls| + 1 && |states[0].position| == l.symbols
  {
  }

  /** In every run the position in each symbol is the first one plus what the fills of known buy
      orders bought less what those of known sell orders sold. */
  lemma {:induction false} PositionsAddUp(states: seq<Desk>, calls: seq<Call>, l: Limits, symbol: nat, n: nat)
    requires Run(states, calls, l) && n <= |calls| && 0 < symbol <= l.symbols
    ensures |states| == |calls| + 1 && |states[0].position| == |states[n].position| == l.symbols
    ensures states[n].position[symbol - 1] == states[0].position[symbol - 1] + Net(states, calls, symbol, n)
    decreases n
  {
    hide Step, Loose, Sensible, Run, Moves;
    FirstPosition(states, calls, l);
    if n > 0 {
      PositionsAddUp(states, calls, l, symbol, n - 1);
      CallLeads(states, calls, l, n - 1);
      StepPosition(states[n - 1], l, calls[n - 1], symbol);
    }
  }

  // ---------------------------------------------------------------------------
  // The order table
  // ---------------------------------------------------------------------------

  /** The table is rebuilt empty: it wants to be, and nothing is counted any more. */
  ghost predicate Clears(d: Desk, c: Call, d': Desk) {
    && d'.count == 0
    && match c
       case Reject(_, rebuild) => rebuild
       case FillCall(_, _, remaining, rebuild) => rebuild && remaining == 0
       case CancelAck(_, rebuild) => rebuild
       case CancelReject(id, rebuild) => rebuild && id in d.orders
       case TimeoutCall(_, _, rebuild) => rebuild && d.kill == Normal
       case _ => false
  }

  /** The call is the end of order id: it is rejected, filled, cancelled or timed out. */
  predicate Ends(d: Desk, c: Call, id: nat) {
    match c
    case Reject(x, _) => x == id
    case FillCall(x, _, remaining, _) => x == id && remaining == 0
    case CancelAck(x, _) => x == id
    case CancelReject(x, _) => x == id
    case TimeoutCall(_, ids, _) => d.kill == Normal && id in ids
    case _ => false
  }

  lemma {:induction false} RemovedOrders(d: Desk, l: Limits, id: nat, rebuild: bool, x: nat)
    requires Sized(d, l) && (id in d.orders ==> Listed(d.orders[id].symbol, l))
    ensures var d' := Compact(Remove(d, l, id), rebuild);
            && (x in d'.orders <==> x in d.orders && x != id && !(rebuild && d'.count == 0))
            && (x in d'.orders ==> d'.orders[x] == d.orders[x])
  {
  }

  lemma {:induction false} ExpireOrders(d: Desk, l: Limits, ids: seq<nat>, room: nat, x: nat)
    requires Sized(d, l) && forall id :: id in d.orders ==> Listed(d.orders[id].symbol, l)
    ensures var d' := Expire(d, l, ids, room).0;
            (x in d'.orders <==> x in d.orders && x !in ids) && (x in d'.orders ==> d'.orders[x] == d.orders[x])
    decreases |ids|
  {
    if ids != [] {
      if ids[0] in d.orders {
        assert Listed(d.orders[ids[0]].symbol, l);
        ExpireOrders(Remove(d, l, ids[0]).(timers := d.timers), l, ids[1..], Less(room), x);
      } else {
        ExpireOrders(d, l, ids[1..], room, x);
      }
    }
  }

  lemma {:induction false} SignalOrders(d: Desk, l: Limits, c: Call, x: nat)
    requires Loose(d, l) && Sensible(d, l, c) && c.SignalCall?
    ensures var (d', out) := Step(d, l, c);
            && (x in d'.orders <==> x in d.orders || (out.Sends? && out.o.id == x))
            && (x in d.orders ==> d'.orders[x] == d.orders[x])
  {
    LooseSized(d, l);
    BelowNext(d, l, x);
    hide Loose, OnSignal, Occupies, Clear;
    SignalSends(d, l, c.s, c.now, c.h, c.inserted);
  }

  lemma {:induction false} TimeoutOrders(d: Desk, l: Limits, fired: seq<nat>, ids: seq<nat>, rebuild: bool, x: nat)
    requires Sized(d, l) && forall id :: id in d.orders ==> Listed(d.orders[id].symbol, l)
    ensures var d', c := Timeouts(d, l, fired, ids, rebuild).0, TimeoutCall(fired, ids, rebuild);
            && (x in d'.orders <==> x in d.orders && !Ends(d, c, x) && !Clears(d, c, d'))
            && (x in d'.orders ==> d'.orders[x] == d.orders[x])
  {
    hide Expire, Elements, Compact;
    var d0 := d.(timers := d.timers - Elements(fired));
    ExpireOrders(d0, l, ids, l.maxOutstanding, x);
    CompactOrders(Expire(d0, l, ids, l.maxOutstanding).0, rebuild, x);
  }

  lemma {:induction false} FillOrders(d: Desk, l: Limits, id: nat, qty: nat, remaining: nat, rebuild: bool, x: nat)
    requires Sized(d, l) && (id in d.orders ==> Listed(d.orders[id].symbol, l))
    ensures var d', c := OnFill(d, l, id, qty, remaining, rebuild), FillCall(id, qty, remaining, rebuild);
            && (x in d'.orders <==> x in d.orders && !Ends(d, c, x) && !Clears(d, c, d'))
            && (x in d'.orders ==> d'.orders[x] == d.orders[x])
  {
    hide Remove, Compact;
    RemovedOrders(OnFill(d, l, id, qty, 1, rebuild), l, id, rebuild, x);
  }

  lemma {:induction false} CancelOrders(d: Desk, l: Limits, c: Call, x: nat)
    requires Sized(d, l) && (c.CancelAck? || c.CancelReject?) && (c.id in d.orders ==> Listed(d.orders[c.id].symbol, l))
    ensures var d' := if c.CancelAck? then OnCancelAck(d, l, c.id, c.rebuild) else OnCancelReject(d, l, c.id, c.rebuild);
            && (x in d'.orders <==> x in d.orders && !Ends(d, c, x) && !Clears(d, c, d'))
            && (x in d'.orders ==> d'.orders[x] == d.orders[x])
  {
    hide Remove, Compact;
    RemovedOrders(d, l, c.id, c.rebuild, x);
  }

  /** One call: an order is in the table afterwards if it was before and this is not its end, or if
      this call sent it; and what the table says of it does not change. */
  lemma {:induction false} StepOrders(d: Desk, l: Limits, c: Call, x: nat)
    requires Loose(d, l) && Sensible(d, l, c)
    ensures var (d', out) := Step(d, l, c);
            && (x in d'.orders <==>
                  (x in d.orders && !Ends(d, c, x) && !Clears(d, c, d')) || (out.Sends? && out.o.id == x))
            && (x in d.orders && x in d'.orders ==> d'.orders[x] == d.orders[x])
  {
    LooseSized(d, l);
    if c.SignalCall? {
      SignalOrders(d, l, c, x);
      return;
    }
    hide Loose, Timeouts, Remove, Compact, OnSignal, OnFill, OnCancelAck, OnCancelReject;
    match c
    case TimeoutCall(fired, ids, rebuild) => TimeoutOrders(d, l, fired, ids, rebuild, x);
    case Reject(id, rebuild) => RemovedOrders(d, l, id, rebuild, x);
    case FillCall(id, qty, remaining, rebuild) => FillOrders(d, l, id, qty, remaining, rebuild, x);
    case CancelAck(_, _) => CancelOrders(d, l, c, x);
    case CancelReject(_, _) => CancelOrders(d, l, c, x);
    case _ =>
  }

  lemma {:induction false} CompactOrders(d: Desk, rebuild: bool, x: nat)
    ensures var d' := Compact(d, rebuild);
            && (x in d'.orders <==> x in d.orders && !(rebuild && d'.count == 0))
            && (x in d'.orders ==> d'.orders[x] == d.orders[x])
  {
  }

  lemma {:induction false} BelowNext(d: Desk, l: Limits, x: nat)
    requires Loose(d, l)
    ensures x in d.orders ==> x < d.nextId
  {
  }

  /** Call k sends order id, for this signal. */
  ghost predicate SentAt(states: seq<Desk>, calls: seq<Call>, l: Limits, id: nat, k: nat)
    requires |states| == |calls| + 1 && k < |calls|
  {
    && calls[k].SignalCall? && Leads(states, calls, l, k)
    && Step(states[k], l, calls[k]).1.Sends? && Step(states[k], l, calls[k]).1.o.id == id
  }

  /** From state a to state n no call ends order id or clears the table. */
  ghost predicate Lasts(states: seq<Desk>, calls: seq<Call>, id: nat, a: nat, n: nat)
    requires |states| == |calls| + 1 && n <= |calls|
  {
    forall k :: a <= k < n ==> !Ends(states[k], calls[k], id) && !Clears(states[k], calls[k], states[k + 1])
  }

  /** State a is where order id begins: it was there from the start, or the call before sent it. */
  ghost predicate Begins(states: seq<Desk>, calls: seq<Call>, l: Limits, id: nat, a: nat)
    requires |states| == |calls| + 1 && a <= |calls|
  {
    if a == 0 then id in states[0].orders else SentAt(states, calls, l, id, a - 1)
  }

  /** In every run the order table holds exactly the orders that were sent, or there from the start,
      and have not ended since. */
  lemma {:induction false} TableIsHistory(states: seq<Desk>, calls: seq<Call>, l: Limits, id: nat, n: nat)
    requires Run(states, calls, l) && n <= |calls|
    ensures id in states[n].orders <==>
            exists a :: 0 <= a <= n && Begins(states, calls, l, id, a) && Lasts(states, calls, id, a, n)
    decreases n
  {
    hide Step, Loose, Sensible, Ends, Clears, SentAt;
    if n == 0 {
      assert id in states[0].orders ==> Begins(states, calls, l, id, 0) && Lasts(states, calls, id, 0, 0);
      return;
    }
    TableIsHistory(states, calls, l, id, n - 1);
    CallHistory(states, calls, l, id, n - 1);
    hide Run, Begins;
    if id in states[n].orders {
      if SentAt(states, calls, l, id, n - 1) {
        StartsHere(states, calls, l, id, n);
      } else {
        var a :| 0 <= a <= n - 1 && Begins(states, calls, l, id, a) && Lasts(states, calls, id, a, n - 1);
        assert Lasts(states, calls, id, a, n);
      }
    }
    if a :| 0 <= a <= n && Begins(states, calls, l, id, a) && Lasts(states, calls, id, a, n) {
      if a < n {
        assert Lasts(states, calls, id, a, n - 1);
      } else {
        StartsHere(states, calls, l, id, n);
      }
    }
  }

  lemma {:induction false} StartsHere(states: seq<Desk>, calls: seq<Call>, l: Limits, id: nat, n: nat)
    requires |states| == |calls| + 1 && 0 < n <= |calls|
    ensures Begins(states, calls, l, id, n) == SentAt(states, calls, l, id, n - 1) && Lasts(states, calls, id, n, n)
  {
  }

  /** What call k does to the table, told by the history. */
  lemma {:induction false} CallHistory(states: seq<Desk>, calls: seq<Call>, l: Limits, id: nat, k: nat)
    requires Run(states, calls, l) && k < |calls|
    ensures id in states[k + 1].orders <==>
            (id in states[k].orders && !Ends(states[k], calls[k], id) && !Clears(states[k], calls[k], states[k + 1])) ||
            SentAt(states, calls, l, id, k)
  {
    hide Step, Loose, Sensible, Ends, Clears;
    CallLeads(states, calls, l, k);
    StepOrders(states[k], l, calls[k], id);
    SendsOnSignal(states[k], l, calls[k]);
  }

  lemma {:induction false} SendsOnSignal(d: Desk, l: Limits, c: Call)
    requires Loose(d, l) && Sensible(d, l, c)
    ensures Step(d, l, c).1.Sends? ==> c.SignalCall?
  {
  }

  /** And it says of an order, for as long as it lasts, what the signal it was sent for asked. */
  lemma {:induction false} RecordLasts(states: seq<Desk>, calls: seq<Call>, l: Limits, id: nat, k: nat, n: nat)
    requires Run(states, calls, l) && k < n <= |calls| && SentAt(states, calls, l, id, k) && Lasts(states, calls, id, k + 1, n)
    ensures id in states[n].orders
    ensures var o, s := states[n].orders[id], calls[k].s;
            o.symbol == s.symbol && o.side == s.side && o.price == s.price && o.qty == s.qty
    decreases n
  {
    hide Loose, Ends, Clears, Step;
    CallLeads(states, calls, l, n - 1);
    if n == k + 1 {
      SentRecord(states[k], l, calls[k]);
    } else {
      RecordLasts(states, calls, l, id, k, n - 1);
      StepOrders(states[n - 1], l, calls[n - 1], id);
    }
  }

  lemma {:induction false} SentRecord(d: Desk, l: Limits, c: Call)
    requires Loose(d, l) && Sensible(d, l, c) && c.SignalCall? && Step(d, l, c).1.Sends?
    ensures var (d', out) := Step(d, l, c);
            out.o.id in d'.orders &&
            var o := d'.orders[out.o.id];
            o.symbol == c.s.symbol && o.side == c.s.side && o.price == c.s.price && o.qty == c.s.qty
  {
    LooseSized(d, l);
    hide Loose, OnSignal;
    SignalSends(d, l, c.s, c.now, c.h, c.inserted);
  }

  // ---------------------------------------------------------------------------
  // Timeouts
  // ---------------------------------------------------------------------------

  /** The ids that are known, each where it first occurs. */
  function StillKnown(ids: seq<nat>, known: set<nat>): seq<nat> {
    if ids == [] then []
    else if ids[0] in known then [ids[0]] + StillKnown(ids[1..], known - {ids[0]})
    else StillKnown(ids[1..], known)
  }

  lemma {:induction false} ExpireCancels(d: Desk, l: Limits, ids: seq<nat>, room: nat)
    requires Sized(d, l) && forall id :: id in d.orders ==> Listed(d.orders[id].symbol, l)
    ensures var due := StillKnown(ids, d.orders.Keys);
            Expire(d, l, ids, room).1 == if |due| <= room then due else due[..room]
    decreases |ids|
  {
    if ids == [] {
      return;
    }
    if ids[0] in d.orders {
      assert Listed(d.orders[ids[0]].symbol, l);
      var d1 := Remove(d, l, ids[0]).(timers := d.timers);
      assert d1.orders.Keys == d.orders.Keys - {ids[0]};
      ExpireCancels(d1, l, ids[1..], Less(room));
    } else {
      ExpireCancels(d, l, ids[1..], room);
    }
  }

  /** Unless the switch is thrown, a timeout cancels exactly the orders whose timers fired and that are
      still known, once each and in order, as many as the buffer takes. */
  lemma {:induction false} TimeoutCancels(d: Desk, l: Limits, fired: seq<nat>, ids: seq<nat>, rebuild: bool)
    requires Loose(d, l)
    ensures var out, due := Step(d, l, TimeoutCall(fired, ids, rebuild)).1, StillKnown(ids, d.orders.Keys);
            if d.kill != Normal || due == [] || l.maxOutstanding == 0 then out == Nothing
            else out == Cancels(if |due| <= l.maxOutstanding then due else due[..l.maxOutstanding])
  {
    LooseSized(d, l);
    hide Loose, Expire, Elements;
    var d0 := d.(timers := d.timers - Elements(fired));
    ExpireCancels(d0, l, ids, l.maxOutstanding);
  }

  // ---------------------------------------------------------------------------
  // Modifies
  // ---------------------------------------------------------------------------

  /** The order in slot j is the one with this id, and the table still knows it is for that slot. */
  predicate Holds(d: Desk, j: nat, id: nat)
    requires j < |d.active|
  {
    d.active[j].id == id && id in d.orders && SlotFor(d.orders[id].symbol, d.orders[id].side) == j
  }

  /** Slot j holds the same order as before, unless it is given up. */
  ghost predicate Keeps(d: Desk, d': Desk, j: nat, gives: bool)
    requires j < |d.active|
  {
    && |d'.active| == |d.active| && d'.active[j].id == d.active[j].id
    && d'.active[j].resting == (d.active[j].resting && !gives)
  }

  lemma {:induction false} ClearedSlots(d: Desk, l: Limits, id: nat, rebuild: bool, j: nat)
    requires Sized(d, l) && (id in d.orders ==> Listed(d.orders[id].symbol, l)) && j < |d.active|
    ensures Keeps(d, Compact(Remove(d, l, id), rebuild), j, Holds(d, j, id))
  {
  }

  lemma {:induction false} ExpireSlots(d: Desk, l: Limits, ids: seq<nat>, room: nat, j: nat)
    requires Sized(d, l) && (forall id :: id in d.orders ==> Listed(d.orders[id].symbol, l)) && j < |d.active|
    ensures Keeps(d, Expire(d, l, ids, room).0, j, d.active[j].id in ids && Holds(d, j, d.active[j].id))
    decreases |ids|
  {
    if ids == [] {
      return;
    }
    if ids[0] in d.orders {
      assert Listed(d.orders[ids[0]].symbol, l);
      var d1 := Remove(d, l, ids[0]).(timers := d.timers);
      ClearedSlots(d, l, ids[0], false, j);
      ExpireSlots(d1, l, ids[1..], Less(room), j);
    } else {
      ExpireSlots(d, l, ids[1..], room, j);
    }
  }

  lemma {:induction false} SignalSlots(d: Desk, l: Limits, c: Call, j: nat)
    requires Loose(d, l) && Sensible(d, l, c) && c.SignalCall? && j < |d.active|
    ensures var (d', out) := Step(d, l, c);
            if out.Sends? && j == SlotFor(c.s.symbol, c.s.side)
            then |d'.active| == |d.active| && d'.active[j].resting && d'.active[j].id == out.o.id
            else Keeps(d, d', j, false)
  {
    LooseSized(d, l);
    hide Loose, OnSignal, Records, Clear;
    SignalSends(d, l, c.s, c.now, c.h, c.inserted);
  }

  lemma {:induction false} TimeoutSlots(d: Desk, l: Limits, fired: seq<nat>, ids: seq<nat>, rebuild: bool, j: nat)
    requires Sized(d, l) && (forall id :: id in d.orders ==> Listed(d.orders[id].symbol, l)) && j < |d.active|
    ensures Keeps(d, Timeouts(d, l, fired, ids, rebuild).0, j,
                  d.kill == Normal && d.active[j].id in ids && Holds(d, j, d.active[j].id))
  {
    hide Expire, Elements;
    ExpireSlots(d.(timers := d.timers - Elements(fired)), l, ids, l.maxOutstanding, j);
  }

  lemma {:induction false} ModifySlots(d: Desk, l: Limits, c: Call, j: nat)
    requires Loose(d, l) && Sensible(d, l, c) && (c.ModifyCall? || c.ModifyReject?) && j < |d.active|
    ensures Keeps(d, Step(d, l, c).0, j, c.ModifyReject? && Holds(d, j, c.id))
  {
    hide SymbolCount;
  }

  lemma {:induction false} CancelSlots(d: Desk, l: Limits, c: Call, j: nat)
    requires Sized(d, l) && (c.CancelAck? || c.CancelReject?) && (c.id in d.orders ==> Listed(d.orders[c.id].symbol, l))
    requires j < |d.active|
    ensures var d' := if c.CancelAck? then OnCancelAck(d, l, c.id, c.rebuild) else OnCancelReject(d, l, c.id, c.rebuild);
            Keeps(d, d', j, Holds(d, j, c.id))
  {
    hide Remove, Compact;
    ClearedSlots(d, l, c.id, c.rebuild, j);
  }

  lemma {:induction false} FillSlots(d: Desk, l: Limits, id: nat, qty: nat, remaining: nat, rebuild: bool, j: nat)
    requires Sized(d, l) && (id in d.orders ==> Listed(d.orders[id].symbol, l)) && j < |d.active|
    ensures Keeps(d, OnFill(d, l, id, qty, remaining, rebuild), j, remaining == 0 && Holds(d, j, id))
  {
    hide Remove, Compact;
    ClearedSlots(OnFill(d, l, id, qty, 1, rebuild), l, id, rebuild, j);
  }

  /** A slot shows an order from the call that sends it, for the slot's symbol and side, until the
      next one sent for it, or until the order ends or may not be modified while the table knows it. */
  lemma {:induction false} StepSlots(d: Desk, l: Limits, c: Call, j: nat)
    requires Loose(d, l) && Sensible(d, l, c) && j < |d.active|
    ensures var (d', out) := Step(d, l, c);
            if c.SignalCall? && out.Sends? && j == SlotFor(c.s.symbol, c.s.side)
            then |d'.active| == |d.active| && d'.active[j].resting && d'.active[j].id == out.o.id
            else
              var id := d.active[j].id;
              Keeps(d, d', j, Holds(d, j, id) && (Ends(d, c, id) || (c.ModifyReject? && c.id == id)))
  {
    LooseSized(d, l);
    if c.SignalCall? {
      SignalSlots(d, l, c, j);
      return;
    }
    if c.ModifyCall? || c.ModifyReject? {
      ModifySlots(d, l, c, j);
      return;
    }
    hide Loose, Remove, Compact, OnSignal, Timeouts, CheckModify, OnModifyReject, OnCancelAck, OnCancelReject, OnFill;
    match c
    case TimeoutCall(fired, ids, rebuild) => TimeoutSlots(d, l, fired, ids, rebuild, j);
    case Reject(id, rebuild) => ClearedSlots(d, l, id, rebuild, j);
    case FillCall(id, qty, remaining, rebuild) => FillSlots(d, l, id, qty, remaining, rebuild, j);
    case CancelAck(_, _) => CancelSlots(d, l, c, j);
    case CancelReject(_, _) => CancelSlots(d, l, c, j);
    case _ =>
  }

  /** Some call before n sends order id for this slot. */
  ghost predicate SentFor(states: seq<Desk>, calls: seq<Call>, l: Limits, id: nat, j: nat, n: nat)
    requires |states| == |calls| + 1 && n <= |calls|
  {
    exists k :: 0 <= k < n && SentAt(states, calls, l, id, k) &&
                j == SlotFor(calls[k].s.symbol, calls[k].s.side)
  }

  lemma {:induction false} SlotsAreHistory(states: seq<Desk>, calls: seq<Call>, l: Limits, j: nat, n: nat)
    requires Run(states, calls, l) && n <= |calls| && j < |states[0].active| && !states[0].active[j].resting
    ensures |states| == |calls| + 1 && |states[n].active| == |states[0].active|
    ensures states[n].active[j].resting ==> SentFor(states, calls, l, states[n].active[j].id, j, n)
    decreases n
  {
    hide Step, Loose, Sensible;
    if n > 0 {
      SlotsAreHistory(states, calls, l, j, n - 1);
      CallLeads(states, calls, l, n - 1);
      StepSlots(states[n - 1], l, calls[n - 1], j);
      var id := states[n].active[j].id;
      if states[n].active[j].resting {
        if SentFor(states, calls, l, id, j, n - 1) {
          var k :| 0 <= k < n - 1 && SentAt(states, calls, l, id, k) &&
                   j == SlotFor(calls[k].s.symbol, calls[k].s.side);
          assert SentAt(states, calls, l, id, k);
        } else {
          assert SentAt(states, calls, l, id, n - 1);
        }
      }
    }
  }

  lemma {:induction false} ChangeIs(d: Desk, l: Limits, c: Call)
    requires Loose(d, l) && Sensible(d, l, c) && c.ModifyCall? && Step(d, l, c).1.Changes?
    ensures var m, j := Step(d, l, c).1.c, SlotFor(c.s.symbol, c.s.side);
            && m.symbol == c.s.symbol && m.price == c.s.price && m.qty == c.s.qty
            && 0 <= j < |d.active| && d.active[j].resting && d.active[j].id == m.id
  {
    LooseSized(d, l);
    hide Loose, CheckModify;
    ModifySends(d, l, c.s);
  }

  /** In every run that starts with empty slots, whatever a modify names was sent before, for the
      symbol and the side of the signal that changes it. */
  lemma {:induction false} ModifiesOwnOrders(states: seq<Desk>, calls: seq<Call>, l: Limits, n: nat)
    requires Run(states, calls, l) && n < |calls| && calls[n].ModifyCall?
    requires forall j :: 0 <= j < |states[0].active| ==> !states[0].active[j].resting
    ensures |states| == |calls| + 1 && Loose(states[n], l) && Sensible(states[n], l, calls[n])
    ensures var out := Step(states[n], l, calls[n]).1;
            out.Changes? ==>
              && out.c.symbol == calls[n].s.symbol && out.c.price == calls[n].s.price && out.c.qty == calls[n].s.qty
              && exists k :: 0 <= k < n && SentAt(states, calls, l, out.c.id, k) &&
                             calls[k].s.symbol == calls[n].s.symbol && calls[k].s.side == calls[n].s.side
  {
    hide Loose, Leads, Step, Sensible;
    CallLeads(states, calls, l, n);
    var s, out := calls[n].s, Step(states[n], l, calls[n]).1;
    if out.Changes? {
      ChangeIs(states[n], l, calls[n]);
      RunSized(states, calls, l, n);
      var j := SlotFor(s.symbol, s.side);
      SlotsAreHistory(states, calls, l, j, n);
      var k :| 0 <= k < n && SentAt(states, calls, l, out.c.id, k) &&
               j == SlotFor(calls[k].s.symbol, calls[k].s.side);
      assert calls[k].s.symbol == s.symbol && calls[k].s.side == s.side;
    }
  }

  lemma {:induction false} RunSized(states: seq<Desk>, calls: seq<Call>, l: Limits, n: nat)
    requires Run(states, calls, l) && n <= |calls|
    ensures |states[n].active| == |states[0].active|
  {
    RunLoose(states, calls, l, n);
    RunLoose(states, calls, l, 0);
  }
}
