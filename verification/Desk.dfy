/** The order manager as values: risk checks, outstanding orders, timers, the kill switch. */
module Desks {
  import opened Machine
  import opened Books

  datatype Kill = Normal | Draining | Complete

  datatype OrderInfo = OrderInfo(side: Side, price: int, qty: nat, symbol: nat, handle: nat)

  /** The order resting on one side of one symbol, as far as the manager knows. */
  datatype ActiveOrder = ActiveOrder(id: nat, price: int, qty: nat, resting: bool)

  datatype Limits = Limits(symbols: nat, maxOutstanding: nat, maxPerSymbol: nat, maxOrderSize: nat, maxNotional: int,
                           maxPosition: int, bucket: nat, interval: int)

  /** timers maps the handle of each armed timer to the order it is for. */
  datatype Desk = Desk(kill: Kill, pending: nat, count: nat, nextId: nat, orders: map<nat, OrderInfo>, perSymbol: seq<nat>,
                       position: seq<int>, active: seq<ActiveOrder>, tokens: nat, lastRefill: int, timers: map<nat, nat>)

  datatype Signal = Signal(symbol: nat, side: Side, price: int, qty: nat)

  datatype Outgoing = Outgoing(id: nat, symbol: nat, side: Side, price: int, qty: nat)

  datatype Change = Change(id: nat, symbol: nat, price: int, qty: nat)

  function SlotIndex(symbol: nat, side: Side): int {
    (symbol - 1) * 2 + (if side.Bid? then 0 else 1)
  }

  ghost predicate Sized(d: Desk, l: Limits) {
    |d.perSymbol| == |d.position| == l.symbols && |d.active| == 2 * l.symbols
  }

  predicate Listed(symbol: nat, l: Limits) {
    0 < symbol <= l.symbols
  }

  // ---------------------------------------------------------------------------
  // The token bucket
  // ---------------------------------------------------------------------------

  /** Tokens and refill time after a refill at time now; all in 32 bits as the code has it. */
  function Refill(tokens: nat, last: int, now: int, bucket: nat, interval: int): (nat, int)
    requires interval > 0
  {
    if now - last < interval then (tokens, last)
    else
      var more := Wrap32((now - last) / interval);
      (Min(Wrap32(tokens + more), bucket), last + more * interval)
  }

  // ---------------------------------------------------------------------------
  // Sending
  // ---------------------------------------------------------------------------

  function Abs(x: int): nat {
    if x < 0 then -x else x
  }

  /** The risk checks on a signal, in order; the token bucket is refilled on the way. */
  function Admit(d: Desk, l: Limits, s: Signal, now: int): (Desk, bool)
    requires Sized(d, l) && Listed(s.symbol, l) && l.interval > 0
  {
    var i := s.symbol - 1;
    if d.kill != Normal || d.count >= l.maxOutstanding || d.perSymbol[i] >= l.maxPerSymbol ||
       s.qty > l.maxOrderSize || s.price * s.qty > l.maxNotional then (d, false)
    else
      var (tokens, last) := Refill(d.tokens, d.lastRefill, now, l.bucket, l.interval);
      var after := if s.side.Bid? then d.position[i] + s.qty else d.position[i] - s.qty;
      (d.(tokens := tokens, lastRefill := last), tokens > 0 && Abs(after) <= l.maxPosition)
  }

  /** A new order for an admitted signal. h is the handle the timer wheel gives, 0 for none;
      inserted says whether the order table had room. */
  function Send(d: Desk, l: Limits, s: Signal, h: nat, inserted: bool): (Desk, Option<Outgoing>)
    requires Sized(d, l) && Listed(s.symbol, l) && d.tokens > 0
  {
    var i, id := s.symbol - 1, d.nextId;
    if !inserted then (d.(nextId := id + 1, timers := d.timers - {h}), None)
    else
      (d.(nextId := id + 1,
          timers := if h == 0 then d.timers else d.timers[h := id],
          orders := d.orders[id := OrderInfo(s.side, s.price, s.qty, s.symbol, h)],
          count := d.count + 1,
          perSymbol := d.perSymbol[i := d.perSymbol[i] + 1],
          active := d.active[SlotIndex(s.symbol, s.side) := ActiveOrder(id, s.price, s.qty, true)],
          tokens := d.tokens - 1),
       Some(Outgoing(id, s.symbol, s.side, s.price, s.qty)))
  }

  function OnSignal(d: Desk, l: Limits, s: Signal, now: int, h: nat, inserted: bool): (Desk, Option<Outgoing>)
    requires Sized(d, l) && Listed(s.symbol, l) && l.interval > 0
  {
    var (d1, ok) := Admit(d, l, s, now);
    if ok then Send(d1, l, s, h, inserted) else (d1, None)
  }

  /** Reprices the resting order on the signal's side instead, if there is one. */
  function CheckModify(d: Desk, l: Limits, s: Signal): (Desk, Option<Change>)
    requires Sized(d, l) && Listed(s.symbol, l)
  {
    var j := SlotIndex(s.symbol, s.side);
    if d.kill != Normal || !d.active[j].resting || d.active[j].price == s.price then (d, None)
    else (d.(active := d.active[j := d.active[j].(price := s.price, qty := s.qty)]),
          Some(Change(d.active[j].id, s.symbol, s.price, s.qty)))
  }

  // ---------------------------------------------------------------------------
  // Responses
  // ---------------------------------------------------------------------------

  function ClearActive(active: seq<ActiveOrder>, symbol: nat, side: Side, id: nat, l: Limits): (r: seq<ActiveOrder>)
    requires |active| == 2 * l.symbols
    ensures |r| == |active|
  {
    var j := SlotIndex(symbol, side);
    if !Listed(symbol, l) || !active[j].resting || active[j].id != id then active
    else active[j := active[j].(resting := false)]
  }

  function Less(count: nat): nat {
    if count > 0 then count - 1 else 0
  }

  /** An order that is known is taken off every table; the total goes down either way. */
  function Remove(d: Desk, l: Limits, id: nat): Desk
    requires Sized(d, l) && (id in d.orders ==> Listed(d.orders[id].symbol, l))
  {
    if id !in d.orders then d.(count := Less(d.count))
    else
      var o := d.orders[id];
      var i := o.symbol - 1;
      d.(timers := d.timers - {o.handle}, active := ClearActive(d.active, o.symbol, o.side, id, l),
         perSymbol := d.perSymbol[i := Less(d.perSymbol[i])], orders := d.orders - {id}, count := Less(d.count))
  }

  /** The order table is cleared when the manager counts nothing and the table wants a rebuild. */
  function Compact(d: Desk, rebuild: bool): Desk {
    if d.count == 0 && rebuild then d.(orders := map[]) else d
  }

  function OnReject(d: Desk, l: Limits, id: nat, rebuild: bool): Desk
    requires Sized(d, l) && (id in d.orders ==> Listed(d.orders[id].symbol, l))
  {
    Compact(Remove(d, l, id), rebuild)
  }

  function OnFill(d: Desk, l: Limits, id: nat, qty: nat, remaining: nat, rebuild: bool): Desk
    requires Sized(d, l) && (id in d.orders ==> Listed(d.orders[id].symbol, l))
  {
    var d1 :=
      if id !in d.orders then d
      else
        var i := d.orders[id].symbol - 1;
        d.(position := d.position[i := if d.orders[id].side.Bid? then d.position[i] + qty else d.position[i] - qty]);
    if remaining == 0 then Compact(Remove(d1, l, id), rebuild) else d1
  }

  function OnModifyReject(d: Desk, l: Limits, id: nat): Desk
    requires Sized(d, l)
  {
    if id !in d.orders then d
    else d.(active := ClearActive(d.active, d.orders[id].symbol, d.orders[id].side, id, l))
  }

  function Drain(d: Desk): Desk {
    if d.kill != Draining then d
    else if d.pending <= 1 then d.(pending := 0, kill := Complete)
    else d.(pending := d.pending - 1)
  }

  function OnCancelAck(d: Desk, l: Limits, id: nat, rebuild: bool): Desk
    requires Sized(d, l) && (id in d.orders ==> Listed(d.orders[id].symbol, l))
  {
    Drain(Compact(Remove(d, l, id), rebuild))
  }

  function OnCancelReject(d: Desk, l: Limits, id: nat, rebuild: bool): Desk
    requires Sized(d, l) && (id in d.orders ==> Listed(d.orders[id].symbol, l))
  {
    Drain(if id in d.orders then Compact(Remove(d, l, id), rebuild) else d)
  }

  // ---------------------------------------------------------------------------
  // Kill switch and timeouts
  // ---------------------------------------------------------------------------

  /** Triggering with a visit of the order table in the given order: one cancel per order, as
      many as the buffer takes. */
  function Trigger(d: Desk, l: Limits, ids: seq<nat>): (Desk, seq<nat>) {
    if d.kill != Normal then (d, [])
    else
      var batch := ids[..Min(|ids|, l.maxOutstanding)];
      (d.(kill := if batch == [] then Complete else Draining, pending := |batch|, timers := map[]), batch)
  }

  /** One order after the other that timed out: cancelled if it is still known. */
  function Expire(d: Desk, l: Limits, ids: seq<nat>, room: nat): (Desk, seq<nat>)
    requires Sized(d, l) && forall id :: id in d.orders ==> Listed(d.orders[id].symbol, l)
    decreases |ids|
  {
    if ids == [] then (d, [])
    else if ids[0] !in d.orders then Expire(d, l, ids[1..], room)
    else
      var o := d.orders[ids[0]];
      assert Listed(o.symbol, l);
      var i := o.symbol - 1;
      var d1 := d.(active := ClearActive(d.active, o.symbol, o.side, ids[0], l),
                   perSymbol := d.perSymbol[i := Less(d.perSymbol[i])],
                   orders := d.orders - {ids[0]}, count := Less(d.count));
      var (d2, batch) := Expire(d1, l, ids[1..], Less(room));
      (d2, if room > 0 then [ids[0]] + batch else batch)
  }

  /** The timers with handles fired have expired, for the orders ids. */
  function Timeouts(d: Desk, l: Limits, fired: seq<nat>, ids: seq<nat>, rebuild: bool): (Desk, seq<nat>)
    requires Sized(d, l) && forall id :: id in d.orders ==> Listed(d.orders[id].symbol, l)
  {
    if d.kill != Normal then (d, [])
    else
      var (d1, batch) := Expire(d.(timers := d.timers - Elements(fired)), l, ids, l.maxOutstanding);
      (Compact(d1, rebuild), batch)
  }
}
