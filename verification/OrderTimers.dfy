/** The timeout timers of the order manager: one wheel whose callbacks only note an order id in a
    bounded buffer. */
module OrderTimers {
  import opened Machine
  import opened FreeStack
  import opened TimerLog
  import opened WheelTime
  import opened TimingWheels

  /** timers maps the handle of every pending ticket to its due tick and order, and nothing else. */
  ghost predicate TimersAre(timers: map<nat, Pending>, armed: map<Ticket, Pending>) {
    && (forall t :: t in armed ==> Handle(t) in timers && timers[Handle(t)] == armed[t])
    && (forall h :: h in timers ==> Names(h, armed))
  }

  ghost predicate Injective(armed: map<Ticket, Pending>) {
    forall t, u :: t in armed && u in armed && Handle(t) == Handle(u) ==> t == u
  }

  lemma {:induction false} ArmedInjective(w: Wheel, log: seq<Event>)
    requires Agrees(w, log)
    ensures Injective(Replay(log).armed)
  {
    hide Agrees, Replay, Handle;
    forall t, u | t in Replay(log).armed && u in Replay(log).armed && Handle(t) == Handle(u)
      ensures t == u
    {
      ArmedHandles(w, log, t, u);
    }
  }

  lemma {:induction false} StartTimers(timers: map<nat, Pending>, armed: map<Ticket, Pending>, t: Ticket, p: Pending)
    requires TimersAre(timers, armed) && t !in armed && Injective(armed[t := p])
    ensures TimersAre(timers[Handle(t) := p], armed[t := p]) && Handle(t) !in timers
  {
    hide Handle;
    var armed' := armed[t := p];
    assert t in armed';
    forall h | h in timers
      ensures h != Handle(t) && Names(h, armed')
    {
      var u :| u in armed && Handle(u) == h;
      assert u in armed';
    }
  }

  lemma {:induction false} StopTimers(timers: map<nat, Pending>, armed: map<Ticket, Pending>, t: Ticket)
    requires TimersAre(timers, armed) && t in armed && Injective(armed)
    ensures TimersAre(timers - {Handle(t)}, armed - {t})
  {
    hide Handle;
    forall h | h in timers && h != Handle(t)
      ensures Names(h, armed - {t})
    {
      var u :| u in armed && Handle(u) == h;
      assert u in armed - {t};
    }
  }

  lemma {:induction false} HandleCount(timers: map<nat, Pending>, armed: map<Ticket, Pending>)
    requires TimersAre(timers, armed) && Injective(armed)
    ensures |timers| == |armed|
  {
    hide Handle;
    if armed == map[] {
      assert forall h :: h in timers ==> Names(h, armed);
      assert timers == map[];
    } else {
      var t :| t in armed;
      StopTimers(timers, armed, t);
      HandleCount(timers - {Handle(t)}, armed - {t});
      DropCount(timers, Handle(t));
      DropCount(armed, t);
    }
  }

  /** A timer for an order was started, or none was. */
  ghost predicate Started(before: map<nat, Pending>, after: map<nat, Pending>, ok: bool, h: nat,
                          now: nat, delay: nat, id: nat)
  {
    after == if ok then before[h := Pending(now + delay, id)] else before
  }

  lemma {:induction false} NoneStarted(timers: map<nat, Pending>, h: nat, now: nat, delay: nat, id: nat)
    ensures Started(timers, timers, false, h, now, delay, id)
  {
  }

  lemma {:induction false} StopStarted(before: map<nat, Pending>, after: map<nat, Pending>, ok: bool, h: nat,
                                       now: nat, delay: nat, id: nat)
    requires Started(before, after, ok, h, now, delay, id) && h !in before
    ensures after - {h} == before
  {
  }

  // ---------------------------------------------------------------------------
  // Firing
  // ---------------------------------------------------------------------------

  /** The tickets ts were pending and due now, for the callbacks ran; each is named once. */
  ghost predicate Due(m: Monitor, ts: seq<Ticket>, ran: seq<nat>) {
    && |ts| == |ran|
    && (forall i :: 0 <= i < |ts| ==> ts[i] in m.armed && m.armed[ts[i]] == Pending(m.now, ran[i]))
    && (forall i, j :: 0 <= i < j < |ts| ==> ts[i] != ts[j])
  }

  lemma {:induction false} FiresReplay(log: seq<Event>, ts: seq<Ticket>, ran: seq<nat>, log': seq<Event>)
    requires OnlyFires(log, ts, ran, log') && Legal(log')
    ensures Due(Replay(log), ts, ran)
    ensures Replay(log').armed == Replay(log).armed - Elements(ts) && Replay(log').now == Replay(log).now
  {
    hide Legal, Replay;
    if ran == [] {
      assert log' == log;
      return;
    }
    var n := |ran| - 1;
    var mid := OneFewer(log, ts, ran, log');
    At(log', |mid|);
    assert log'[..|mid| + 1] == log';
    hide OnlyFires;
    FiresReplay(log, ts[..n], ran[..n], mid);
    assert Elements(ts) == Elements(ts[..n]) + {ts[n]};
  }

  lemma {:induction false} OneFewer(log: seq<Event>, ts: seq<Ticket>, ran: seq<nat>, log': seq<Event>) returns (mid: seq<Event>)
    requires OnlyFires(log, ts, ran, log') && ran != []
    ensures var n := |ran| - 1;
            && |log'| > 0 && mid == log'[..|log'| - 1] && log'[|log'| - 1] == Fired(ts[n], ran[n])
            && OnlyFires(log, ts[..n], ran[..n], mid)
  {
    mid := log'[..|log'| - 1];
  }

  /** A tick whose callbacks leave the wheel alone: what it fired was due, and is gone. */
  lemma {:induction false} IdleTick(log: seq<Event>, free: set<nat>, ran: seq<nat>, log': seq<Event>, free': set<nat>)
    returns (ts: seq<Ticket>)
    requires Legal(log) && Legal(log') && |log'| > |log| && log'[|log'| - 1].TickEnd?
    requires Walks(Scene(log + [TickBegin], free), [], ran, Scene(log'[..|log'| - 1], free'))
    ensures var m, m' := Replay(log), Replay(log');
            Due(m.(now := m.now + 1), ts, ran) && m'.armed == m.armed - Elements(ts) && m'.now == m.now + 1
  {
    hide Walks;
    var body := log'[..|log'| - 1];
    ts := IdleWalk(Scene(log + [TickBegin], free), ran, Scene(body, free'));
    FiresReplay(log + [TickBegin], ts, ran, body);
    assert (log + [TickBegin])[..|log|] == log;
  }

  /** Of the timers, those with handles hs have fired by now, for the orders ids, each in its own
      tick; armed is what is left. */
  ghost predicate Elapsed(timers: map<nat, Pending>, hs: seq<nat>, ids: seq<nat>, armed: map<Ticket, Pending>, now: nat) {
    && |hs| == |ids|
    && (forall i, j :: 0 <= i < j < |hs| ==> hs[i] != hs[j])
    && (forall i :: 0 <= i < |hs| ==> hs[i] in timers && timers[hs[i]].cb == ids[i] && timers[hs[i]].due <= now)
    && TimersAre(timers - Elements(hs), armed)
  }

  lemma {:induction false} ElapsedNone(timers: map<nat, Pending>, armed: map<Ticket, Pending>, now: nat)
    requires TimersAre(timers, armed)
    ensures Elapsed(timers, [], [], armed, now)
  {
    assert timers - Elements([]) == timers;
  }

  /** One more timer fires. */
  lemma {:induction false} ElapsedOne(timers: map<nat, Pending>, hs: seq<nat>, ids: seq<nat>, armed: map<Ticket, Pending>,
                                      now: nat, t: Ticket)
    requires Injective(armed) && Elapsed(timers, hs, ids, armed, now) && t in armed && armed[t].due <= now
    ensures Elapsed(timers, hs + [Handle(t)], ids + [armed[t].cb], armed - {t}, now)
  {
    StopTimers(timers - Elements(hs), armed, t);
    hide Handle;
    assert timers - Elements(hs + [Handle(t)]) == timers - Elements(hs) - {Handle(t)};
  }

  lemma {:induction false} ElapsedTick(timers: map<nat, Pending>, hs: seq<nat>, ids: seq<nat>, m: Monitor,
                                       ts: seq<Ticket>, ran: seq<nat>) returns (hs': seq<nat>)
    requires Injective(m.armed) && Elapsed(timers, hs, ids, m.armed, m.now) && Due(m, ts, ran)
    ensures Elapsed(timers, hs', ids + ran, m.armed - Elements(ts), m.now)
  {
    hide Injective, Elapsed, Handle;
    if ts == [] {
      hs' := hs;
      assert ids + ran == ids && m.armed - Elements(ts) == m.armed;
      return;
    }
    var n := |ts| - 1;
    hs' := ElapsedTick(timers, hs, ids, m, ts[..n], ran[..n]);
    InjectiveWithin(m.armed, Elements(ts[..n]));
    ElapsedOne(timers, hs', ids + ran[..n], m.armed - Elements(ts[..n]), m.now, ts[n]);
    hs' := hs' + [Handle(ts[n])];
    assert ids + ran == ids + ran[..n] + [ran[n]];
    assert m.armed - Elements(ts) == m.armed - Elements(ts[..n]) - {ts[n]};
  }

  lemma {:induction false} InjectiveWithin(armed: map<Ticket, Pending>, gone: set<Ticket>)
    requires Injective(armed)
    ensures Injective(armed - gone)
  {
  }

  lemma {:induction false} ElapsedLater(timers: map<nat, Pending>, hs: seq<nat>, ids: seq<nat>, armed: map<Ticket, Pending>, now: nat)
    requires Elapsed(timers, hs, ids, armed, now)
    ensures Elapsed(timers, hs, ids, armed, now + 1)
  {
  }

  /** The handles of the timers due by a given time. */
  ghost function DueBy(timers: map<nat, Pending>, now: nat): set<nat> {
    set h | h in timers && timers[h].due <= now
  }

  /** At the end of a tick the timers that fired are exactly those whose time has come. */
  lemma {:induction false} ElapsedExactly(timers: map<nat, Pending>, hs: seq<nat>, ids: seq<nat>, m: Monitor)
    requires Elapsed(timers, hs, ids, m.armed, m.now) && Later(m) && !m.walking
    ensures Elements(hs) == DueBy(timers, m.now)
  {
    hide Handle;
    forall h | h in timers - Elements(hs)
      ensures timers[h].due > m.now
    {
      var u :| u in m.armed && Handle(u) == h;
      assert (timers - Elements(hs))[h] == m.armed[u];
    }
  }

  lemma {:induction false} ElementsCount(hs: seq<nat>)
    requires forall i, j :: 0 <= i < j < |hs| ==> hs[i] != hs[j]
    ensures |Elements(hs)| == |hs|
  {
    if hs != [] {
      var n := |hs| - 1;
      ElementsCount(hs[..n]);
      assert Elements(hs) == Elements(hs[..n]) + {hs[n]};
    }
  }

  /** Every timer that has fired is among those due by any later time. */
  lemma {:induction false} ElapsedAmong(timers: map<nat, Pending>, hs: seq<nat>, ids: seq<nat>, armed: map<Ticket, Pending>,
                                        now: nat, later: nat)
    requires Elapsed(timers, hs, ids, armed, now) && now <= later
    ensures |ids| == |hs| <= |DueBy(timers, later)|
  {
    hide TimersAre;
    ElementsCount(hs);
    SubsetCount(Elements(hs), DueBy(timers, later));
  }

  lemma {:induction false} SubsetCount<T>(a: set<T>, b: set<T>)
    requires a <= b
    ensures |a| <= |b|
  {
    assert b == a + (b - a);
  }

  // ---------------------------------------------------------------------------
  // What the last entry of the log did
  // ---------------------------------------------------------------------------

  lemma {:induction false} LastScheduled(log: seq<Event>, t: Ticket, delay: nat, cb: nat, log': seq<Event>)
    requires Legal(log') && log' == log + [Scheduled(t, delay, cb)]
    ensures t !in Replay(log).armed && Replay(log').now == Replay(log).now
    ensures Replay(log').armed == Replay(log).armed[t := Pending(Replay(log).now + delay, cb)]
  {
    assert log'[..|log|] == log;
    ArmedIsUsed(log);
  }

  lemma {:induction false} LastCancelled(log: seq<Event>, t: Ticket, log': seq<Event>)
    requires log' == log + [Cancelled(t)]
    ensures Replay(log').armed == Replay(log).armed - {t} && Replay(log').now == Replay(log).now
  {
    assert log'[..|log|] == log;
  }

  lemma {:induction false} LastReset(log: seq<Event>, log': seq<Event>)
    requires log' == log + [Reset]
    ensures Replay(log').armed == map[]
  {
  }

  lemma {:induction false} NamesTimers(timers: map<nat, Pending>, armed: map<Ticket, Pending>, h: nat)
    requires TimersAre(timers, armed)
    ensures Names(h, armed) <==> h in timers
  {
  }

  class OrderTimers {
    const wheel: TimingWheel
    /** The orders whose timers have fired since the last advance began. */
    const noted: array<nat>
    var notes: nat
    /** Due tick and order of each pending timer, by handle. */
    ghost var timers: map<nat, Pending>
    ghost const Repr: set<object>

    ghost predicate Owns() {
      && Repr == {this, noted} + wheel.Repr && this !in wheel.Repr && noted !in wheel.Repr
      && {wheel, wheel.heads, wheel.nodes, wheel.freeList} <= wheel.Repr
    }

    ghost predicate Valid()
      reads Repr
    {
      Owns() && wheel.Valid() && wheel.Clean() && TimersAre(timers, wheel.Armed()) && notes <= noted.Length
    }

    ghost function Now(): nat
      requires Owns()
      reads Repr
    {
      wheel.Now()
    }

    constructor (wheelSize: nat, maxTimers: nat, room: nat)
      requires 2 <= wheelSize < U32 && IsPow2(wheelSize) && 1 <= maxTimers < U32 && IsPow2(maxTimers)
      ensures Owns() && Valid() && fresh(Repr) && timers == map[] && wheel.wheelSize == wheelSize && wheel.maxTimers == maxTimers
      ensures noted.Length == room
    {
      hide TimingWheel.Valid, TimingWheel.Clean, Handle, IsPow2, Below;
      var w := new TimingWheel(wheelSize, maxTimers);
      wheel, timers, notes := w, map[], 0;
      noted := new nat[room](_ => 0);
      Repr := {this, noted} + w.Repr;
    }

    lemma {:induction false} HandlesDiffer()
      requires wheel.Valid()
      ensures Injective(wheel.Armed())
    {
      hide Agrees, Replay, Injective;
      ArmedInjective(wheel.Memory(), wheel.log);
    }

    lemma {:induction false} NotesFit()
      requires Valid()
      ensures notes <= noted.Length
    {
    }

    lemma {:induction false} NeverZero()
      requires Valid()
      ensures 0 !in timers
    {
      hide Agrees, Replay, Names;
      HandleIsArmed(wheel.Memory(), wheel.log, 0);
    }

    /** Starts a timer for an order: 0 exactly when every node is taken, otherwise a handle no
        pending timer has. */
    method Start(id: nat, delay: nat) returns (h: nat)
      requires Valid() && 0 < delay < wheel.wheelSize
      modifies Repr
      ensures Valid() && Now() == old(Now())
      ensures h == 0 <==> |old(timers)| == wheel.maxTimers
      ensures h != 0 ==> h !in old(timers)
      ensures Started(old(timers), timers, h != 0, h, Now(), delay, id)
    {
      hide Agrees, Handle, Replay, TimersAre, Injective, AllLive;
      PoolCount();
      ghost var log, armed := wheel.log, wheel.Armed();
      ghost var t;
      h, t := wheel.Schedule(id, delay);
      if h == 0 {
        return;
      }
      HandlesDiffer();
      wheel.LogLegal();
      LastScheduled(log, t, delay, id, wheel.log);
      StartTimers(timers, armed, t, Pending(Now() + delay, id));
      timers := timers[h := Pending(Now() + delay, id)];
    }

    /** Stops a timer if it is still pending. */
    method Stop(h: nat)
      requires Valid()
      modifies Repr
      ensures Valid() && Now() == old(Now()) && timers == old(timers) - {h}
    {
      hide Agrees, Handle, Replay, TimersAre, Injective, AllLive;
      ghost var log, armed := wheel.log, wheel.Armed();
      HandlesDiffer();
      NamesTimers(timers, armed, h);
      var ok;
      ghost var t;
      ok, t := wheel.Cancel(h);
      if !ok {
        return;
      }
      LastCancelled(log, t, wheel.log);
      StopTimers(timers, armed, t);
      timers := timers - {h};
    }

    /** What the callbacks of a tick do: each appends its order to the buffer. Failing stands for
        running past the end of the buffer, which only an assertion guards. */
    method NoteAll(ran: seq<nat>) returns (ok: bool)
      requires notes <= noted.Length
      modifies this`notes, noted
      ensures notes <= noted.Length && ok == (old(notes) + |ran| <= noted.Length)
      ensures ok ==> noted[..notes] == old(noted[..notes]) + ran
    {
      for k := 0 to |ran|
        invariant notes == old(notes) + k <= noted.Length && noted[..notes] == old(noted[..notes]) + ran[..k]
      {
        if notes == noted.Length {
          return false;
        }
        noted[notes] := ran[k];
        notes := notes + 1;
      }
      ok := true;
    }

    /** One tick; what has fired grows by what fires now. */
    method PassTick(ghost hs: seq<nat>) returns (ok: bool, ghost hs': seq<nat>, ghost ids: seq<nat>)
      requires Owns() && wheel.Valid() && wheel.Clean() && notes <= noted.Length
      requires Elapsed(timers, hs, noted[..notes], wheel.Armed(), wheel.Now())
      modifies wheel.Repr, this`notes, noted
      ensures wheel.Valid() && wheel.Clean() && wheel.Now() == old(wheel.Now()) + 1 && notes <= noted.Length
      ensures Elapsed(timers, hs', ids, wheel.Armed(), wheel.Now())
      ensures ok == (|ids| <= noted.Length) && (ok ==> noted[..notes] == ids)
    {
      hide TimingWheel.Valid, TimingWheel.Sound, TimingWheel.Clean, Legal, Replay, Walks, TimersAre, Injective, Elapsed;
      hide Due, Elements;
      ghost var log, before, free := wheel.log, noted[..notes], wheel.freeList.free;
      wheel.LogLegal();
      HandlesDiffer();
      var _, ran := wheel.Tick([]);
      wheel.LogLegal();
      ghost var ts := IdleTick(log, free, ran, wheel.log, wheel.freeList.free);
      ghost var m := Replay(log);
      ElapsedLater(timers, hs, before, m.armed, m.now);
      hs' := ElapsedTick(timers, hs, before, m.(now := m.now + 1), ts, ran);
      ids := before + ran;
      ok := NoteAll(ran);
    }

    /** Lets n ticks pass, noting the orders whose timers fire, in turn: exactly the timers due by
        then, with the handles hs. It fails if and only if they are more than the buffer holds. */
    method Advance(n: nat) returns (ok: bool, ghost hs: seq<nat>)
      requires Valid()
      modifies Repr
      ensures ok <==> |DueBy(old(timers), old(Now()) + n)| <= noted.Length
      ensures ok ==> Valid() && Now() == old(Now()) + n && timers == old(timers) - Elements(hs) && notes == |hs|
      ensures ok ==> forall i :: 0 <= i < |hs| ==> hs[i] in old(timers) && old(timers)[hs[i]].cb == noted[i]
      ensures ok ==> forall i, j :: 0 <= i < j < |hs| ==> hs[i] != hs[j]
      ensures ok ==> Elements(hs) == DueBy(old(timers), Now())
    {
      hide TimingWheel.Valid, TimingWheel.Sound, TimingWheel.Clean, Legal, Replay, TimersAre, Elements, DueBy, Later, Elapsed;
      notes, hs := 0, [];
      ElapsedNone(timers, wheel.Armed(), wheel.Now());
      assert noted[..0] == [];
      for i := 0 to n
        invariant wheel.Valid() && wheel.Clean() && timers == old(timers) && wheel.Now() == old(wheel.Now()) + i
        invariant notes <= noted.Length && Elapsed(timers, hs, noted[..notes], wheel.Armed(), wheel.Now())
      {
        ghost var ids;
        ok, hs, ids := PassTick(hs);
        if !ok {
          ElapsedAmong(timers, hs, ids, wheel.Armed(), wheel.Now(), old(wheel.Now()) + n);
          return;
        }
      }
      ok := true;
      Settle(hs);
      timers := timers - Elements(hs);
    }

    /** What has fired when the last tick is over. */
    lemma {:induction false} Settle(hs: seq<nat>)
      requires wheel.Valid() && notes <= noted.Length && Elapsed(timers, hs, noted[..notes], wheel.Armed(), wheel.Now())
      ensures Elements(hs) == DueBy(timers, wheel.Now()) && |DueBy(timers, wheel.Now())| == |hs| == notes
      ensures forall i :: 0 <= i < |hs| ==> hs[i] in timers && timers[hs[i]].cb == noted[i]
      ensures forall i, j :: 0 <= i < j < |hs| ==> hs[i] != hs[j]
      ensures TimersAre(timers - Elements(hs), wheel.Armed())
    {
      hide TimingWheel.Valid, TimingWheel.Sound, TimingWheel.Clean, Legal, Replay, TimersAre, Elements, DueBy, Later;
      wheel.LogLegal();
      DueLater(wheel.log);
      ElapsedExactly(timers, hs, noted[..notes], Replay(wheel.log));
      ElementsCount(hs);
    }

    /** Stops every timer. As many nodes come back as timers were counted: no cancelled node is
        ever left linked, because the callbacks leave the wheel alone. */
    method Clear()
      requires Valid()
      modifies Repr
      ensures Valid() && timers == map[]
    {
      hide Agrees, Handle, Replay, AllLive, Below, IndexFreeStack.Valid;
      ghost var log := wheel.log;
      PoolCount();
      var count := wheel.activeCount;
      var freed := wheel.Reset();
      assert freed == count;
      LastReset(log, wheel.log);
      timers := map[];
    }

    /** Pending timers and free nodes make up the pool. */
    lemma {:induction false} PoolCount()
      requires Valid()
      ensures |timers| == wheel.activeCount == wheel.maxTimers - |wheel.freeList.free|
    {
      hide Agrees, Handle, Replay, TimersAre, Injective;
      HandlesDiffer();
      HandleCount(timers, wheel.Armed());
      ResetCount(wheel.Memory(), wheel.log);
    }
  }
}
