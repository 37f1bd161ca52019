/** What the order manager sends and what each call does to its tables, field by field. */
module DeskAnswers {
  import opened Machine
  import opened Books
  import opened Desks
  import opened DeskRuns

  // ---------------------------------------------------------------------------
  // Sending
  // ---------------------------------------------------------------------------

  /** Tokens after a refill: one per whole interval that has passed, in 32 bits, up to the bucket. */
  function TokensAt(d: Desk, l: Limits, now: int): int
    requires l.interval > 0
  {
    if now - d.lastRefill < l.interval then d.tokens
    else
      var sum := (d.tokens + (now - d.lastRefill) / l.interval % 0x1_0000_0000) % 0x1_0000_0000;
      if sum <= l.bucket then sum else l.bucket
  }

  /** When the bucket then was last filled: the last whole interval. */
  function FilledAt(d: Desk, l: Limits, now: int): int
    requires l.interval > 0
  {
    if now - d.lastRefill < l.interval then d.lastRefill
    else d.lastRefill + (now - d.lastRefill) / l.interval % 0x1_0000_0000 * l.interval
  }

  /** The checks before the bucket is looked at. */
  ghost predicate Within(d: Desk, l: Limits, s: Signal)
    requires Sized(d, l) && 0 < s.symbol <= l.symbols
  {
    && d.kill == Normal
    && d.count < l.maxOutstanding && d.perSymbol[s.symbol - 1] < l.maxPerSymbol
    && s.qty <= l.maxOrderSize && s.price * s.qty <= l.maxNotional
  }

  /** Every risk check on a signal. */
  ghost predicate Clear(d: Desk, l: Limits, s: Signal, now: int)
    requires Sized(d, l) && 0 < s.symbol <= l.symbols && l.interval > 0
  {
    var i := s.symbol - 1;
    && Within(d, l, s) && 0 < TokensAt(d, l, now)
    && (s.side == Bid ==> -l.maxPosition <= d.position[i] + s.qty <= l.maxPosition)
    && (s.side == Ask ==> -l.maxPosition <= d.position[i] - s.qty <= l.maxPosition)
  }

  /** The table has one more order, with what the signal asks for. */
  ghost predicate Records(d: Desk, d': Desk, s: Signal, h: nat) {
    && d.nextId in d'.orders
    && (var o := d'.orders[d.nextId];
        o.symbol == s.symbol && o.side == s.side && o.price == s.price && o.qty == s.qty && o.handle == h)
    && d'.orders.Keys == d.orders.Keys + {d.nextId}
    && (forall id :: id in d.orders && id != d.nextId ==> d'.orders[id] == d.orders[id])
  }

  /** The slot of an order's side. */
  function SlotFor(symbol: nat, side: Side): int {
    2 * (symbol - 1) + (if side == Ask then 1 else 0)
  }

  /** The slot of the signal's side, and only that, holds the new order. */
  ghost predicate Occupies(d: Desk, d': Desk, s: Signal)
    requires |d'.active| == |d.active| && 0 < s.symbol
  {
    forall j :: 0 <= j < |d.active| ==>
      if j == SlotFor(s.symbol, s.side)
      then d'.active[j].id == d.nextId && d'.active[j].price == s.price && d'.active[j].qty == s.qty && d'.active[j].resting
      else d'.active[j] == d.active[j]
  }

  /** An order is sent if and only if the table takes it and every risk check holds. It carries the
      next id and what the signal asks for, and the tables record exactly that; without one, no table
      changes. The bucket is refilled exactly when the checks before it hold. */
  lemma {:induction false} SignalSends(d: Desk, l: Limits, s: Signal, now: int, h: nat, inserted: bool)
    requires Sized(d, l) && 0 < s.symbol <= l.symbols && l.interval > 0
    ensures var (d', o) := OnSignal(d, l, s, now, h, inserted);
            && (o.Some? <==> inserted && Clear(d, l, s, now))
            && Sized(d', l) && d'.kill == d.kill && d'.pending == d.pending && d'.position == d.position
            && d'.lastRefill == (if Within(d, l, s) then FilledAt(d, l, now) else d.lastRefill)
            && (o.Some? ==>
                  && o.value.id == d.nextId && o.value.symbol == s.symbol && o.value.side == s.side
                  && o.value.price == s.price && o.value.qty == s.qty
                  && Records(d, d', s, h) && Occupies(d, d', s)
                  && d'.nextId == d.nextId + 1 && d'.count == d.count + 1 && d'.tokens == TokensAt(d, l, now) - 1
                  && d'.perSymbol == d.perSymbol[s.symbol - 1 := d.perSymbol[s.symbol - 1] + 1]
                  && (h != 0 ==> h in d'.timers && d'.timers[h] == d.nextId))
            && (o.None? ==>
                  && d'.orders == d.orders && d'.active == d.active && d'.perSymbol == d.perSymbol && d'.count == d.count
                  && d'.tokens == (if Within(d, l, s) then TokensAt(d, l, now) else d.tokens)
                  && d'.nextId == (if Clear(d, l, s, now) then d.nextId + 1 else d.nextId))
  {
    hide Refill, Min;
    RefillIs(d, l, now);
  }

  lemma {:induction false} RefillIs(d: Desk, l: Limits, now: int)
    requires l.interval > 0
    ensures TokensAt(d, l, now) >= 0 && Refill(d.tokens, d.lastRefill, now, l.bucket, l.interval) == (TokensAt(d, l, now), FilledAt(d, l, now))
  {
  }

  /** A modify is sent if and only if the switch is in its normal place and the slot of the signal's
      side holds an order at another price. It is for that order, at the signal's price and quantity,
      which the slot then shows; nothing else changes. */
  lemma {:induction false} ModifySends(d: Desk, l: Limits, s: Signal)
    requires Sized(d, l) && 0 < s.symbol <= l.symbols
    ensures var (d', m) := CheckModify(d, l, s);
            var j := SlotFor(s.symbol, s.side);
            var a := d.active[j];
            && (m.Some? <==> d.kill == Normal && a.resting && a.price != s.price)
            && (m.None? ==> d' == d)
            && (m.Some? ==>
                  && m.value.id == a.id && m.value.symbol == s.symbol && m.value.price == s.price && m.value.qty == s.qty
                  && d' == d.(active := d'.active) && |d'.active| == |d.active|
                  && (forall k :: 0 <= k < |d.active| && k != j ==> d'.active[k] == d.active[k])
                  && d'.active[j].id == a.id && d'.active[j].price == s.price && d'.active[j].qty == s.qty && d'.active[j].resting)
  {
  }
}
