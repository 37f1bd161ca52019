/** The rate limit of the order manager over whole runs. */
module DeskRate {
  import opened Machine
  import opened Books
  import opened Desks
  import opened DeskRuns
  import opened TokenBucket

  /** The call gets as far as the rate check. */
  predicate Reaches(d: Desk, l: Limits, c: Call)
    requires Sized(d, l)
  {
    c.SignalCall? && Listed(c.s.symbol, l) && d.kill == Normal && d.count < l.maxOutstanding &&
    d.perSymbol[c.s.symbol - 1] < l.maxPerSymbol && c.s.qty <= l.maxOrderSize && c.s.price * c.s.qty <= l.maxNotional
  }

  function BucketOf(d: Desk): Bucket {
    Bucket(d.tokens, d.lastRefill)
  }

  /** How a call looks to the bucket. */
  function LookOf(d: Desk, l: Limits, c: Call, now: int): Look
    requires Loose(d, l) && Sensible(d, l, c)
  {
    Look(now, Reaches(d, l, c), Step(d, l, c).1.Sends?)
  }

  lemma {:induction false} ExpireBucket(d: Desk, l: Limits, ids: seq<nat>, room: nat)
    requires Sized(d, l) && forall id :: id in d.orders ==> Listed(d.orders[id].symbol, l)
    ensures BucketOf(Expire(d, l, ids, room).0) == BucketOf(d)
    decreases |ids|
  {
    if ids != [] {
      if ids[0] in d.orders {
        assert Listed(d.orders[ids[0]].symbol, l);
        var o := d.orders[ids[0]];
        var d1 := Remove(d, l, ids[0]).(timers := d.timers);
        ExpireBucket(d1, l, ids[1..], Less(room));
      } else {
        ExpireBucket(d, l, ids[1..], room);
      }
    }
  }

  lemma {:induction false} SignalLooks(d: Desk, l: Limits, c: Call)
    requires Loose(d, l) && Sensible(d, l, c) && c.SignalCall?
    ensures var k := LookOf(d, l, c, c.now);
            && Honest(BucketOf(d), l.bucket, l.interval, k)
            && BucketOf(Step(d, l, c).0) == After(BucketOf(d), l.bucket, l.interval, k)
  {
    hide Refill, Abs, SymbolCount;
  }

  lemma {:induction false} RemovedBucket(d: Desk, l: Limits, id: nat, rebuild: bool)
    requires Sized(d, l) && (id in d.orders ==> Listed(d.orders[id].symbol, l))
    ensures BucketOf(Compact(Remove(d, l, id), rebuild)) == BucketOf(d)
  {
  }

  lemma {:induction false} OtherLooks(d: Desk, l: Limits, c: Call)
    requires Loose(d, l) && Sensible(d, l, c) && !c.SignalCall?
    ensures BucketOf(Step(d, l, c).0) == BucketOf(d) && !Step(d, l, c).1.Sends?
  {
    LooseSized(d, l);
    hide SymbolCount, Loose, Expire, Elements, Remove, Compact;
    match c
    case TimeoutCall(fired, ids, rebuild) =>
      ExpireBucket(d.(timers := d.timers - Elements(fired)), l, ids, l.maxOutstanding);
      CompactBucket(Expire(d.(timers := d.timers - Elements(fired)), l, ids, l.maxOutstanding).0, rebuild);
    case Reject(id, rebuild) => RemovedBucket(d, l, id, rebuild);
    case FillCall(id, qty, remaining, rebuild) => RemovedBucket(OnFill(d, l, id, qty, 1, rebuild), l, id, rebuild);
    case CancelAck(id, rebuild) => RemovedBucket(d, l, id, rebuild);
    case CancelReject(id, rebuild) => RemovedBucket(d, l, id, rebuild);
    case _ =>
  }

  lemma {:induction false} CompactBucket(d: Desk, rebuild: bool)
    ensures BucketOf(Compact(d, rebuild)) == BucketOf(d)
  {
  }

  /** The clock readings of a run: they never go back, and a signal reads its own. */
  ghost predicate Clock(calls: seq<Call>, clock: seq<int>) {
    && |clock| == |calls|
    && (forall i, j :: 0 <= i < j < |clock| ==> clock[i] <= clock[j])
    && (forall i :: 0 <= i < |calls| && calls[i].SignalCall? ==> calls[i].now == clock[i])
  }

  /** Every call of a sequence of states has its effect. */
  ghost predicate Effective(states: seq<Desk>, calls: seq<Call>, l: Limits) {
    |states| == |calls| + 1 && forall i :: 0 <= i < |calls| ==> Leads(states, calls, l, i)
  }

  function Looks(states: seq<Desk>, calls: seq<Call>, l: Limits, clock: seq<int>): seq<Look>
    requires Effective(states, calls, l) && |clock| == |calls|
  {
    assert forall i :: 0 <= i < |calls| ==> Leads(states, calls, l, i);
    seq(|calls|, i requires 0 <= i < |calls| && Leads(states, calls, l, i) => LookOf(states[i], l, calls[i], clock[i]))
  }

  function Buckets(states: seq<Desk>): seq<Bucket> {
    seq(|states|, i requires 0 <= i < |states| => BucketOf(states[i]))
  }

  lemma {:induction false} RunLooks(states: seq<Desk>, calls: seq<Call>, l: Limits, clock: seq<int>)
    requires Effective(states, calls, l) && Loose(states[0], l) && Clock(calls, clock)
    requires states[0].tokens <= l.bucket < U32 && (calls != [] ==> states[0].lastRefill <= clock[0])
    ensures TokenBucket.Run(Buckets(states), Looks(states, calls, l, clock), l.bucket, l.interval)
  {
    LooseSized(states[0], l);
    hide Step, Loose, Sensible, LookOf, After, Honest;
    forall i | 0 <= i < |calls|
      ensures Honest(Buckets(states)[i], l.bucket, l.interval, Looks(states, calls, l, clock)[i])
      ensures Buckets(states)[i + 1] == After(Buckets(states)[i], l.bucket, l.interval, Looks(states, calls, l, clock)[i])
    {
      assert Leads(states, calls, l, i);
      CallLooks(states[i], l, calls[i], clock[i]);
    }
    LookTimes(states, calls, l, clock);
  }

  lemma {:induction false} CallLooks(d: Desk, l: Limits, c: Call, now: int)
    requires Loose(d, l) && Sensible(d, l, c) && (c.SignalCall? ==> c.now == now)
    ensures Honest(BucketOf(d), l.bucket, l.interval, LookOf(d, l, c, now))
    ensures BucketOf(Step(d, l, c).0) == After(BucketOf(d), l.bucket, l.interval, LookOf(d, l, c, now))
  {
    hide Step, Loose;
    if c.SignalCall? {
      SignalLooks(d, l, c);
    } else {
      OtherLooks(d, l, c);
    }
  }

  lemma {:induction false} LookTimes(states: seq<Desk>, calls: seq<Call>, l: Limits, clock: seq<int>)
    requires Effective(states, calls, l) && |clock| == |calls|
    ensures forall i :: 0 <= i < |calls| ==> Looks(states, calls, l, clock)[i].now == clock[i]
  {
    hide Step, Loose, Sensible;
  }

  /** Orders sent by the calls a, ..., b - 1. */
  function Sent(states: seq<Desk>, calls: seq<Call>, l: Limits, clock: seq<int>, a: nat, b: nat): nat
    requires Effective(states, calls, l) && |clock| == |calls| && a <= b <= |calls|
  {
    Taken(Looks(states, calls, l, clock)[a..b])
  }

  /** In every run with a clock that does not go back, from any call at t1 up to a call at t2 at
      most a full bucket plus (t2 - t1) / interval + 1 orders are sent. */
  lemma {:induction false} OrdersBounded(states: seq<Desk>, calls: seq<Call>, l: Limits, clock: seq<int>, a: nat, b: nat)
    requires DeskRuns.Run(states, calls, l) && Clock(calls, clock)
    requires a < b <= |calls| && states[0].tokens <= l.bucket < U32 && states[0].lastRefill <= clock[0]
    ensures l.interval > 0 && Effective(states, calls, l)
    ensures Sent(states, calls, l, clock, a, b) <= l.bucket + (clock[b - 1] - clock[a]) / l.interval + 1
  {
    hide Step, Loose, Sensible, TokenBucket.Run;
    RunLeads(states, calls, l);
    LooseSized(states[0], l);
    RunLooks(states, calls, l, clock);
    LookTimes(states, calls, l, clock);
    RateBound(Buckets(states), Looks(states, calls, l, clock), l.bucket, l.interval, a, b);
  }
}
