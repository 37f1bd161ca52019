/** What a timer service promises, as a condition on the log of everything it did. */
module TimerLog {
  /** One arming of one timer node: tickets are never issued twice. */
  datatype Ticket = Ticket(idx: nat, epoch: nat)

  datatype Pending = Pending(due: nat, cb: nat)

  datatype Event =
    | Scheduled(t: Ticket, delay: nat, cb: nat)
    | Cancelled(t: Ticket)
    | TickBegin
    | Fired(t: Ticket, cb: nat)
    | TickEnd(count: nat)
    | Reset

  datatype Monitor = Monitor(now: nat, walking: bool, fired: nat, armed: map<Ticket, Pending>, used: set<Ticket>)

  /** The next event keeps the promise. */
  ghost predicate Allowed(m: Monitor, e: Event) {
    match e
    case Scheduled(t, delay, _) => t !in m.used && delay > 0
    case Cancelled(t) => t in m.armed
    case TickBegin => !m.walking
    case Fired(t, cb) => m.walking && t in m.armed && m.armed[t] == Pending(m.now, cb)
    case TickEnd(count) => m.walking && count == m.fired && forall t :: t in m.armed ==> m.armed[t].due != m.now
    case Reset => !m.walking
  }

  function Next(m: Monitor, e: Event): Monitor {
    match e
    case Scheduled(t, delay, cb) => m.(armed := m.armed[t := Pending(m.now + delay, cb)], used := m.used + {t})
    case Cancelled(t) => m.(armed := m.armed - {t})
    case TickBegin => m.(now := m.now + 1, walking := true, fired := 0)
    case Fired(t, _) => m.(armed := m.armed - {t}, fired := m.fired + 1)
    case TickEnd(_) => m.(walking := false)
    case Reset => m.(now := 0, armed := map[])
  }

  function Replay(log: seq<Event>): Monitor {
    if log == [] then Monitor(0, false, 0, map[], {})
    else Next(Replay(log[..|log| - 1]), log[|log| - 1])
  }

  /** Every event was allowed when it happened. */
  ghost predicate Legal(log: seq<Event>) {
    log == [] || (Legal(log[..|log| - 1]) && Allowed(Replay(log[..|log| - 1]), log[|log| - 1]))
  }

  lemma {:induction false} Extend(log: seq<Event>, e: Event)
    requires Legal(log) && Allowed(Replay(log), e)
    ensures Legal(log + [e]) && Replay(log + [e]) == Next(Replay(log), e)
  {
    assert (log + [e])[..|log|] == log;
  }

  lemma {:induction false} At(log: seq<Event>, j: nat)
    requires Legal(log) && j < |log|
    ensures Legal(log[..j]) && Allowed(Replay(log[..j]), log[j])
    ensures Legal(log[..j + 1]) && Replay(log[..j + 1]) == Next(Replay(log[..j]), log[j])
  {
    var n := |log| - 1;
    if j < n {
      At(log[..n], j);
      assert log[..n][..j] == log[..j] && log[..n][..j + 1] == log[..j + 1];
    } else {
      assert log[..j + 1] == log;
    }
  }

  /** Ticks begun among the events i, ..., j - 1. */
  function Ticks(log: seq<Event>, i: nat, j: nat): nat
    requires i <= j <= |log|
    decreases j
  {
    if i == j then 0 else Ticks(log, i, j - 1) + (if log[j - 1].TickBegin? then 1 else 0)
  }

  /** The event ends the life of ticket t if it is armed. */
  predicate Ends(e: Event, t: Ticket) {
    e.Reset? || ((e.Fired? || e.Cancelled?) && e.t == t)
  }

  lemma {:induction false} UsedGrows(log: seq<Event>, i: nat, j: nat)
    requires Legal(log) && i <= j <= |log|
    ensures Replay(log[..i]).used <= Replay(log[..j]).used
    decreases j
  {
    if i < j {
      UsedGrows(log, i, j - 1);
      At(log, j - 1);
    }
  }

  lemma {:induction false} ArmedIsUsed(log: seq<Event>)
    requires Legal(log)
    ensures forall t :: t in Replay(log).armed ==> t in Replay(log).used
  {
    if log != [] {
      ArmedIsUsed(log[..|log| - 1]);
    }
  }

  lemma {:induction false} LifeStep(m: Monitor, e: Event, t: Ticket)
    requires Allowed(m, e) && t in m.used
    ensures var m' := Next(m, e);
            && t in m'.used && (t in m'.armed <==> t in m.armed && !Ends(e, t))
            && (t in m'.armed ==> m'.armed[t] == m.armed[t] && m'.now == m.now + (if e.TickBegin? then 1 else 0))
  {
  }

  /** Nothing that ends ticket t happened strictly between i and j. */
  ghost predicate Spared(log: seq<Event>, i: nat, j: nat, t: Ticket)
    requires j <= |log|
  {
    forall p :: i < p < j ==> !Ends(log[p], t)
  }

  /** From its scheduling until its end a timer is pending, with the due tick it was given. */
  lemma {:induction false} Life(log: seq<Event>, i: nat, j: nat)
    requires Legal(log) && i < j <= |log| && log[i].Scheduled?
    ensures var t, m := log[i].t, Replay(log[..j]);
            && t in m.used && (t in m.armed <==> Spared(log, i, j, t))
            && (t in m.armed ==> m.armed[t] == Pending(Replay(log[..i]).now + log[i].delay, log[i].cb) &&
                                 m.now == Replay(log[..i]).now + Ticks(log, i, j))
    decreases j
  {
    hide Allowed, Replay, Legal;
    At(log, j - 1);
    if j == i + 1 {
      assert Ticks(log, i, i) == 0;
    } else {
      Life(log, i, j - 1);
      LifeStep(Replay(log[..j - 1]), log[j - 1], log[i].t);
    }
  }

  /** Pending timers are due later, or in the tick under way. */
  ghost predicate Later(m: Monitor) {
    forall t :: t in m.armed ==> m.now <= m.armed[t].due && (m.walking || m.now != m.armed[t].due)
  }

  lemma {:induction false} LaterStep(m: Monitor, e: Event)
    requires Later(m) && Allowed(m, e)
    ensures Later(Next(m, e))
  {
    var m' := Next(m, e);
    forall t | t in m'.armed
      ensures m'.now <= m'.armed[t].due && (m'.walking || m'.now != m'.armed[t].due)
    {
      if t in m.armed && !(e.Scheduled? && e.t == t) {
        assert m'.armed[t] == m.armed[t];
      }
    }
  }

  lemma {:induction false} DueLater(log: seq<Event>)
    requires Legal(log)
    ensures Later(Replay(log))
  {
    if log != [] {
      DueLater(log[..|log| - 1]);
      LaterStep(Replay(log[..|log| - 1]), log[|log| - 1]);
    }
  }

  /** A timer fires only after it was scheduled, in exactly the tick its delay names, with its
      own callback, and with no cancel, reset or earlier firing in between. */
  lemma {:induction false} FiresOnTime(log: seq<Event>, i: nat, p: nat)
    requires Legal(log) && i < |log| && p < |log|
    requires log[i].Scheduled? && log[p].Fired? && log[p].t == log[i].t
    ensures i < p && Ticks(log, i, p) == log[i].delay && log[p].cb == log[i].cb
    ensures forall q :: i < q < p ==> !Ends(log[q], log[i].t)
  {
    At(log, i);
    At(log, p);
    if p < i {
      ArmedIsUsed(log[..p]);
      UsedGrows(log, p, i);
      assert false;
    }
    Life(log, i, p);
  }

  lemma {:induction false} ArmedWasScheduled(log: seq<Event>, j: nat, t: Ticket) returns (i: nat)
    requires Legal(log) && j <= |log| && t in Replay(log[..j]).armed
    ensures i < j && log[i].Scheduled? && log[i].t == t
    decreases j
  {
    hide Legal, Allowed;
    At(log, j - 1);
    i := j - 1;
    if t in Replay(log[..j - 1]).armed {
      i := ArmedWasScheduled(log, j - 1, t);
    }
  }

  /** A ticket is issued once. */
  lemma {:induction false} ScheduledOnce(log: seq<Event>, i: nat, k: nat)
    requires Legal(log) && i < |log| && k < |log| && log[i].Scheduled? && log[k].Scheduled? && log[i].t == log[k].t
    ensures i == k
  {
    At(log, i);
    At(log, k);
    if i < k {
      UsedGrows(log, i + 1, k);
    } else if k < i {
      UsedGrows(log, k + 1, i);
    }
  }

  /** Every firing and every cancel is of a timer that was scheduled before, exactly once; a firing
      comes in exactly the tick the delay names, with its own callback, and with no cancel, reset
      or earlier firing in between. */
  lemma {:induction false} WasScheduled(log: seq<Event>, p: nat) returns (i: nat)
    requires Legal(log) && p < |log| && (log[p].Fired? || log[p].Cancelled?)
    ensures i < p && log[i].Scheduled? && log[i].t == log[p].t
    ensures forall k :: 0 <= k < |log| && log[k].Scheduled? && log[k].t == log[p].t ==> k == i
    ensures log[p].Fired? ==> Ticks(log, i, p) == log[i].delay && log[p].cb == log[i].cb && Spared(log, i, p, log[p].t)
  {
    At(log, p);
    i := ArmedWasScheduled(log, p, log[p].t);
    forall k | 0 <= k < |log| && log[k].Scheduled? && log[k].t == log[p].t
      ensures k == i
    {
      ScheduledOnce(log, i, k);
    }
    if log[p].Fired? {
      FiresOnTime(log, i, p);
    }
  }

  /** Once a timer has fired or was cancelled nothing more happens to it. */
  lemma {:induction false} EndsOnce(log: seq<Event>, i: nat, p: nat, q: nat)
    requires Legal(log) && i < p < q < |log| && log[i].Scheduled?
    requires Ends(log[p], log[i].t)
    ensures !((log[q].Fired? || log[q].Cancelled?) && log[q].t == log[i].t)
  {
    Life(log, i, q);
    At(log, q);
  }

  /** By the end of the tick its delay names, a timer has fired unless it was cancelled or the
      wheel was reset. */
  lemma {:induction false} FiresUnlessCancelled(log: seq<Event>, i: nat, e: nat)
    requires Legal(log) && i < e < |log| && log[i].Scheduled? && log[e].TickEnd?
    requires Ticks(log, i, e) >= log[i].delay
    requires forall p :: i < p < e ==> !log[p].Reset? && log[p] != Cancelled(log[i].t)
    ensures exists p :: i < p < e && log[p] == Fired(log[i].t, log[i].cb)
  {
    var t := log[i].t;
    At(log, e);
    Life(log, i, e + 1);
    DueLater(log[..e + 1]);
    assert Ticks(log, i, e + 1) == Ticks(log, i, e);
    var p :| i < p < e + 1 && Ends(log[p], t);
    FiresOnTime(log, i, p);
  }

  function Firings(log: seq<Event>, i: nat, j: nat): nat
    requires i <= j <= |log|
    decreases j
  {
    if i == j then 0 else Firings(log, i, j - 1) + (if log[j - 1].Fired? then 1 else 0)
  }

  lemma {:induction false} FiredSoFar(log: seq<Event>, b: nat, j: nat)
    requires Legal(log) && b < j <= |log| && log[b].TickBegin?
    requires forall q :: b < q < j ==> !log[q].TickBegin?
    ensures Replay(log[..j]).fired == Firings(log, b + 1, j)
    decreases j
  {
    At(log, j - 1);
    if j > b + 1 {
      FiredSoFar(log, b, j - 1);
    }
  }

  /** The count a tick returns is the number of callbacks it ran. */
  lemma {:induction false} TickCounts(log: seq<Event>, b: nat, e: nat)
    requires Legal(log) && b < e < |log| && log[b].TickBegin? && log[e].TickEnd?
    requires forall q :: b < q < e ==> !log[q].TickBegin?
    ensures log[e].count == Firings(log, b + 1, e)
  {
    FiredSoFar(log, b, e);
    At(log, e);
  }
}
