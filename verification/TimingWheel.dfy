/** The timing wheel: every call, whatever callbacks do inside a tick, extends a legal log. */
module TimingWheels {
  import opened Machine
  import opened FreeStack
  import opened IntrusiveLists
  import opened TimerLog
  import opened WheelShape
  import opened WheelTime

  /** What a callback may do to the wheel while it runs. */
  datatype Action = Schedule(delay: nat, cb: nat) | Cancel(handle: nat)

  ghost predicate ValidAction(a: Action, w: nat) {
    a.Schedule? ==> 0 < a.delay < w
  }

  lemma {:induction false} EmptyWheel(w: Wheel, n: nat)
    requires |w.heads| == |w.chains| > 1 && |w.nodes| == |w.home| == |w.due| == |w.epoch| == n <= U32
    requires forall s :: 0 <= s < |w.heads| ==> w.heads[s] == NULL && w.chains[s] == []
    requires forall i :: 0 <= i < n ==> w.nodes[i].gen == 1 && w.nodes[i].cb == None && w.home[i] == FREE && w.epoch[i] == 0
    requires w.walk == [] && w.run == NULL && w.free == Below(n)
    ensures Shaped(w) && Tracks(w, Replay([]))
  {
    forall i | 0 <= i < n
      ensures Home(w.chains, w.walk, w.run, w.home[i], w.free, i)
    {
    }
  }

  lemma {:induction false} DropCount<K, V>(m: map<K, V>, k: K)
    requires k in m
    ensures |m - {k}| == |m| - 1
  {
    assert (m - {k}).Keys == m.Keys - {k};
  }

  lemma {:induction false} AddCount<K, V>(m: map<K, V>, k: K, v: V)
    requires k !in m
    ensures |m[k := v]| == |m| + 1
  {
    assert m[k := v].Keys == m.Keys + {k};
  }

  /** A wrapped 64-bit tick still selects the right slot. */
  lemma {:induction false} SlotOf(now: nat, delay: nat, w: nat)
    requires IsPow2(w) && w <= U64
    ensures ((now % U64) + delay) % U64 == (now + delay) % U64
    ensures ((now % U64) + delay) % U64 % w == (now + delay) % w
  {
    WordsArePow2();
    Pow2Divides(w, U64);
    ModOfWrapped(now + delay, w, U64);
  }

  /** The memory is well shaped and agrees with a legal log. */
  ghost predicate Agrees(w: Wheel, log: seq<Event>) {
    Shaped(w) && Legal(log) && Tracks(w, Replay(log))
  }

  /** Timers counted as active: the pending ones and, in a tick, those already fired in it. */
  function Active(m: Monitor): nat {
    |m.armed| + (if m.walking then m.fired else 0)
  }

  lemma {:induction false} FreshTicket(w: Wheel, m: Monitor, t: Ticket)
    requires Shaped(w) && Tracks(w, m) && t.idx < |w.nodes| && w.home[t.idx] == FREE
    ensures t !in m.armed
  {
    assert DueAt(m.now, |w.heads|, w.home[t.idx], w.due[t.idx], w.nodes[t.idx].cb);
  }

  lemma {:induction false} ScheduleAgrees(w: Wheel, log: seq<Event>, idx: nat, slot: nat, delay: nat, cb: nat)
    requires Agrees(w, log) && idx in w.free && 0 < delay < |w.heads|
    requires slot == (Replay(log).now + delay) % |w.heads|
    ensures idx < |w.nodes| == |w.home| == |w.due| == |w.epoch| && |w.heads| == |w.chains|
    ensures w.heads[slot] == NULL || 0 <= w.heads[slot] < |w.nodes|
    ensures var m, e := Replay(log), Scheduled(Ticket(idx, w.epoch[idx]), delay, cb);
            var w' := Arm(w, idx, slot, m.now + delay, cb);
            && Agrees(w', log + [e]) && w'.nodes[idx].gen == GenOf(w.epoch[idx])
            && Replay(log + [e]) == Next(m, e) && Active(Next(m, e)) == Active(m) + 1
  {
    hide Buckets, Forward, Homes, ArmedOk, DueOk, UsedOk, PushNodes, Legal, Replay;
    var m := Replay(log);
    FreeNodeUnlinked(w, idx, Node(NULL, NULL, 0, 1, None));
    ArmShaped(w, idx, slot, m.now + delay, cb);
    ArmTracks(w, m, idx, delay, cb);
    var t := Ticket(idx, w.epoch[idx]);
    Extend(log, Scheduled(t, delay, cb));
    FreshTicket(w, m, t);
    AddCount(m.armed, t, Pending(m.now + delay, cb));
  }

  // ---------------------------------------------------------------------------
  // Wheels without cancelled nodes still linked
  // ---------------------------------------------------------------------------

  /** Every node that is not free, nor in its callback, is armed. */
  ghost predicate AllLive(w: Wheel) {
    forall i :: 0 <= i < |w.nodes| && i !in w.free && i != w.run ==> w.nodes[i].cb.Some?
  }

  lemma {:induction false} ArmLive(w: Wheel, idx: nat, slot: nat, d: nat, cb: nat)
    requires Shaped(w) && AllLive(w) && idx in w.free && slot < |w.heads|
    ensures idx < |w.nodes| && (w.heads[slot] == NULL || 0 <= w.heads[slot] < |w.nodes|)
    ensures AllLive(Arm(w, idx, slot, d, cb))
  {
    hide Buckets, Forward, Homes, PushNodes;
    ArmShaped(w, idx, slot, d, cb);
    var ns, w' := w.nodes[idx := w.nodes[idx].(cb := Some(cb), slot := slot)], Arm(w, idx, slot, d, cb);
    forall i | 0 <= i < |w'.nodes| && i !in w'.free && i != w'.run
      ensures w'.nodes[i].cb.Some?
    {
      assert w'.nodes[i].cb == ns[i].cb;
    }
  }

  lemma {:induction false} DetachLive(w: Wheel, slot: nat)
    requires Shaped(w) && slot < |w.heads|
    ensures |w.heads| == |w.chains| && AllLive(w) == AllLive(Detach(w, slot))
  {
  }

  lemma {:induction false} RemoveLive(w: Wheel, slot: nat, k: nat)
    requires Shaped(w) && AllLive(w) && slot < |w.heads| && k < |w.chains[slot]| && Unchains(w, slot, k)
    ensures AllLive(Release(Unchain(w, slot, k), w.chains[slot][k]))
  {
    hide Buckets, Forward, Homes, UnlinkNodes;
    RemoveShaped(w, slot, k);
    var u := Unchain(w, slot, k);
    var r := Release(u, w.chains[slot][k]);
    forall i | 0 <= i < |r.nodes| && i !in r.free && i != r.run
      ensures r.nodes[i].cb.Some?
    {
      assert u.nodes[i].cb == w.nodes[i].cb;
    }
  }

  /** Some pending ticket has this handle. */
  ghost predicate Names(h: nat, armed: map<Ticket, Pending>) {
    exists t :: t in armed && Handle(t) == h
  }

  /** What cancel checks is whether the handle names a pending ticket. */
  lemma {:induction false} HandleIsArmed(w: Wheel, log: seq<Event>, h: nat)
    requires Agrees(w, log)
    ensures var idx := h % U32;
            Names(h, Replay(log).armed) <==>
            idx < |w.nodes| && w.nodes[idx].gen == h / U32 && w.nodes[idx].cb.Some?
    ensures var idx := h % U32;
            Names(h, Replay(log).armed) ==>
            idx < |w.epoch| && Ticket(idx, w.epoch[idx]) in Replay(log).armed && Handle(Ticket(idx, w.epoch[idx])) == h
    ensures !Names(0, Replay(log).armed)
  {
    hide Buckets, Forward, Homes, DueOk, UsedOk, Legal, Replay;
    var idx := h % U32;
    if idx < |w.nodes| && w.nodes[idx].gen == h / U32 && w.nodes[idx].cb.Some? {
      var t := Ticket(idx, w.epoch[idx]);
      assert t in Replay(log).armed && Handle(t) == h;
    }
    forall t | t in Replay(log).armed && Handle(t) == h
      ensures t == Ticket(idx, w.epoch[idx]) && w.nodes[idx].gen == h / U32 && w.nodes[idx].cb.Some?
    {
      Unpack(t);
    }
    forall t | t in Replay(log).armed
      ensures Handle(t) != 0
    {
      Unpack(t);
    }
  }

  /** Between ticks an armed node is on the chain of its own slot. */
  lemma {:induction false} ChainCell(w: Wheel, log: seq<Event>, idx: nat) returns (k: nat)
    requires Agrees(w, log) && w.walk == [] && idx < |w.nodes| && w.nodes[idx].cb.Some?
    ensures w.nodes[idx].slot < |w.heads| && k < |w.chains[w.nodes[idx].slot]| && w.chains[w.nodes[idx].slot][k] == idx
  {
    hide ArmedOk, UsedOk, Legal;
    assert DueAt(Replay(log).now, |w.heads|, w.home[idx], w.due[idx], w.nodes[idx].cb);
    assert Home(w.chains, w.walk, w.run, w.home[idx], w.free, idx);
    k :| 0 <= k < |w.chains[w.home[idx]]| && w.chains[w.home[idx]][k] == idx;
    assert Bucket(w.nodes, w.heads[w.home[idx]], w.chains[w.home[idx]], w.home[idx]);
  }

  lemma {:induction false} RemoveAgrees(w: Wheel, log: seq<Event>, slot: nat, k: nat)
    requires Agrees(w, log) && !Replay(log).walking && slot < |w.heads| && k < |w.chains[slot]|
    requires w.chains[slot][k] < |w.nodes| && w.nodes[w.chains[slot][k]].cb.Some?
    ensures Unchains(w, slot, k) && |w.nodes| == |w.home| == |w.epoch| && w.chains[slot][k] !in w.free
    ensures var idx, m := w.chains[slot][k], Replay(log);
            var e := Cancelled(Ticket(idx, w.epoch[idx]));
            && Agrees(Release(Unchain(w, slot, k), idx), log + [e])
            && Replay(log + [e]) == Next(m, e) && Active(Next(m, e)) == Active(m) - 1
  {
    hide Buckets, Forward, ArmedOk, DueOk, UsedOk, UnlinkNodes, Legal, Replay;
    var idx := w.chains[slot][k];
    var e := Cancelled(Ticket(idx, w.epoch[idx]));
    RemoveShaped(w, slot, k);
    RemoveTracks(w, Replay(log), slot, k);
    Extend(log, e);
    DropCount(Replay(log).armed, e.t);
  }

  lemma {:induction false} MuteAgrees(w: Wheel, log: seq<Event>, idx: nat)
    requires Agrees(w, log) && idx < |w.nodes| && w.nodes[idx].cb.Some?
    ensures |w.nodes| == |w.epoch|
    ensures var m, e := Replay(log), Cancelled(Ticket(idx, w.epoch[idx]));
            && Agrees(Mute(w, idx), log + [e])
            && Replay(log + [e]) == Next(m, e) && Active(Next(m, e)) == Active(m) - 1
  {
    hide Buckets, Forward, Homes, ArmedOk, DueOk, UsedOk, Legal, Replay;
    var e := Cancelled(Ticket(idx, w.epoch[idx]));
    MuteShaped(w, idx);
    MuteTracks(w, Replay(log), idx);
    Extend(log, e);
    DropCount(Replay(log).armed, e.t);
  }

  lemma {:induction false} BeginAgrees(w: Wheel, log: seq<Event>, slot: nat)
    requires Agrees(w, log) && w.walk == [] && !Replay(log).walking && slot == (Replay(log).now + 1) % |w.heads|
    ensures |w.heads| == |w.chains| && w.heads[slot] == First(w.chains[slot])
    ensures var m := Replay(log);
            && Agrees(Detach(w, slot), log + [TickBegin])
            && Replay(log + [TickBegin]) == Next(m, TickBegin) && Active(Next(m, TickBegin)) == Active(m)
  {
    hide Buckets, Forward, Homes, ArmedOk, DueOk, UsedOk, Legal, Replay;
    DetachShaped(w, slot);
    NobodyWalks(w);
    DetachTracks(w, Replay(log));
    Extend(log, TickBegin);
  }

  /** The log entry when the first detached node's turn comes. */
  ghost function Turn(w: Wheel): seq<Event>
    requires w.walk != [] && w.walk[0] < |w.nodes| == |w.epoch|
  {
    var cur := w.walk[0];
    if w.nodes[cur].cb.None? then [] else [Fired(Ticket(cur, w.epoch[cur]), w.nodes[cur].cb.value)]
  }

  lemma {:induction false} TurnAgrees(w: Wheel, log: seq<Event>)
    requires Agrees(w, log) && w.walk != [] && w.run == NULL && Replay(log).walking
    ensures w.walk[0] < |w.nodes| == |w.home| == |w.epoch| && w.nodes[w.walk[0]].next == First(w.walk[1..])
    ensures var m, m' := Replay(log), Replay(log + Turn(w));
            && Agrees(TakeFirst(w), log + Turn(w))
            && m'.walking && m'.now == m.now && m'.fired == m.fired + |Turn(w)| && Active(m') == Active(m)
  {
    hide Buckets, Forward, Homes, ArmedOk, DueOk, UsedOk, Legal, Replay;
    TakeFirstShaped(w);
    TakeFirstTracks(w, Replay(log));
    if w.nodes[w.walk[0]].cb.None? {
      assert log + [] == log;
    } else {
      Extend(log, Turn(w)[0]);
      DropCount(Replay(log).armed, Turn(w)[0].t);
    }
  }

  lemma {:induction false} FinishAgrees(w: Wheel, log: seq<Event>)
    requires Agrees(w, log) && w.run != NULL
    ensures 0 <= w.run < |w.nodes| == |w.home| == |w.epoch| && w.run !in w.free
    ensures w.nodes[w.run].gen == GenOf(w.epoch[w.run]) && Agrees(Finish(w), log)
  {
    hide Buckets, Forward, Homes, ArmedOk, DueOk, UsedOk, Legal;
    FinishShaped(w);
    FinishTracks(w, Replay(log));
  }

  lemma {:induction false} EndAgrees(w: Wheel, log: seq<Event>)
    requires Agrees(w, log) && w.walk == [] && Replay(log).walking
    ensures var m := Replay(log);
            var e := TickEnd(m.fired);
            && Agrees(w, log + [e])
            && Replay(log + [e]) == Next(m, e) && Active(Next(m, e)) == Active(m) - m.fired
  {
    hide Buckets, Forward, Homes, ArmedOk, DueOk, UsedOk, Legal, Replay;
    WalkOver(w, Replay(log));
    Extend(log, TickEnd(Replay(log).fired));
  }

  /** What is logged, and which nodes are free. */
  datatype Scene = Scene(log: seq<Event>, free: set<nat>)

  /** One action of a callback was carried out: a timer set on a free node, exactly when there is one;
      a timer cancelled exactly when the handle named a pending one. */
  ghost predicate Carried(s: Scene, a: Action, s': Scene) {
    match a
    case Schedule(delay, cb) =>
      if s.free == {} then s' == s
      else exists t: Ticket :: t.idx in s.free && s' == Scene(s.log + [Scheduled(t, delay, cb)], s.free - {t.idx})
    case Cancel(h) =>
      if Names(h, Replay(s.log).armed) then
        exists t :: t in Replay(s.log).armed && Handle(t) == h && s' == Scene(s.log + [Cancelled(t)], s.free)
      else s' == s
  }

  /** All actions of a callback were carried out, in order. */
  ghost predicate Carries(s: Scene, actions: seq<Action>, s': Scene) {
    if actions == [] then s' == s
    else
      var n := |actions| - 1;
      exists mid :: Carries(s, actions[..n], mid) && Carried(mid, actions[n], s')
  }

  /** One timer fired and its callback carried out its actions; its node is not free yet. */
  ghost predicate Runs(s: Scene, t: Ticket, cb: nat, actions: seq<Action>, s': Scene) {
    Carries(Scene(s.log + [Fired(t, cb)], s.free), actions, s')
  }

  /** Nodes were returned, none of them with a pending timer. */
  ghost predicate Returned(s: Scene, s': Scene) {
    && s'.log == s.log && s.free <= s'.free
    && (forall t :: t in Replay(s.log).armed ==> t.idx !in s'.free - s.free)
  }

  /** The callbacks ran were run, in order, each carrying out its entry of the script, and the node of
      each returned before the next. */
  ghost predicate Walks(s: Scene, script: seq<seq<Action>>, ran: seq<nat>, s': Scene) {
    if ran == [] then Returned(s, s')
    else
      var n := |ran| - 1;
      exists mid, t: Ticket, end ::
        Walks(s, script, ran[..n], mid) && Runs(mid, t, ran[n], Entry(script, n), end) && Returned(end, s') && t.idx in s'.free
  }

  function Entry(script: seq<seq<Action>>, n: nat): seq<Action> {
    if n < |script| then script[n] else []
  }

  lemma {:induction false} CarriesNone(s: Scene)
    ensures Carries(s, [], s)
  {
  }

  lemma {:induction false} CarriesMore(s: Scene, actions: seq<Action>, i: nat, mid: Scene, s': Scene)
    requires i < |actions| && Carries(s, actions[..i], mid) && Carried(mid, actions[i], s')
    ensures Carries(s, actions[..i + 1], s')
  {
    assert actions[..i + 1][..i] == actions[..i];
  }

  lemma {:induction false} WalksNone(s: Scene, script: seq<seq<Action>>)
    ensures Walks(s, script, [], s)
  {
  }

  lemma {:induction false} WalksMore(s: Scene, script: seq<seq<Action>>, ran: seq<nat>, mid: Scene, t: Ticket, cb: nat,
                                     end: Scene, s': Scene)
    requires Walks(s, script, ran, mid) && Carries(Scene(mid.log + [Fired(t, cb)], mid.free), Entry(script, |ran|), end)
    requires Returned(end, s') && t.idx in s'.free
    ensures Walks(s, script, ran + [cb], s')
  {
    var ran' := ran + [cb];
    var n := |ran'| - 1;
    assert ran'[..n] == ran && ran'[n] == cb;
    assert Walks(s, script, ran'[..n], mid) && Runs(mid, t, ran'[n], Entry(script, n), end);
  }

  /** A node whose timer was cancelled is passed over and returned. */
  lemma {:induction false} WalksOn(s: Scene, script: seq<seq<Action>>, ran: seq<nat>, mid: Scene, s': Scene)
    requires Walks(s, script, ran, mid) && Returned(mid, s')
    ensures Walks(s, script, ran, s')
  {
    if ran != [] {
      var n := |ran| - 1;
      var before, t, end :|
        Walks(s, script, ran[..n], before) && Runs(before, t, ran[n], Entry(script, n), end) && Returned(end, mid) && t.idx in mid.free;
      assert Returned(end, s') && t.idx in s'.free;
    }
  }

  /** A free node has no pending timer. */
  lemma {:induction false} FreeIsIdle(w: Wheel, log: seq<Event>, i: nat)
    requires Agrees(w, log) && i in w.free
    ensures forall t :: t in Replay(log).armed ==> t.idx != i
  {
    FreeNodesQuiet(w, log);
  }

  /** Everything logged since position n is timers set, cancelled and fired. */
  ghost predicate Busy(log: seq<Event>, n: nat) {
    n <= |log| && forall i :: n <= i < |log| ==> log[i].Scheduled? || log[i].Cancelled? || log[i].Fired?
  }

  // ---------------------------------------------------------------------------
  // Resetting
  // ---------------------------------------------------------------------------

  /** Nodes on the free stack have no callback. */
  ghost predicate FreeQuiet(nodes: seq<Node>, home: seq<int>) {
    |nodes| == |home| && forall i :: 0 <= i < |nodes| && home[i] == FREE ==> nodes[i].cb.None?
  }

  /** What clearing keeps while chains are being returned: shape, quiet free nodes, and
      epochs past every ticket issued. */
  ghost predicate Clearing(w: Wheel, m: Monitor) {
    Shaped(w) && w.run == NULL && FreeQuiet(w.nodes, w.home) && UsedOk(m, w.epoch, w.free)
  }

  lemma {:induction false} ClearStart(w: Wheel, log: seq<Event>)
    requires Agrees(w, log) && w.run == NULL
    ensures Clearing(w, Replay(log)) && |w.heads| == |w.chains|
  {
    hide Buckets, Forward, Homes, ArmedOk, Legal, Replay;
    forall i | 0 <= i < |w.nodes| && w.home[i] == FREE
      ensures w.nodes[i].cb.None?
    {
      assert DueAt(Replay(log).now, |w.heads|, w.home[i], w.due[i], w.nodes[i].cb);
    }
  }

  lemma {:induction false} ClearDetach(w: Wheel, m: Monitor, slot: nat)
    requires Clearing(w, m) && w.walk == [] && slot < |w.heads|
    ensures |w.heads| == |w.chains| && Clearing(Detach(w, slot), m) && w.heads[slot] == First(w.chains[slot])
  {
    hide Buckets, Forward, Homes;
    DetachShaped(w, slot);
  }

  lemma {:induction false} ClearNode(w: Wheel, m: Monitor)
    requires Clearing(w, m) && w.walk != []
    ensures w.walk[0] < |w.nodes| == |w.home| == |w.epoch| && w.walk[0] !in w.free
    ensures w.nodes[w.walk[0]].next == First(w.walk[1..]) && Clearing(Finish(TakeFirst(w)), m)
  {
    hide Buckets, Forward, Homes;
    TakeFirstShaped(w);
    FinishShaped(TakeFirst(w));
    ReleaseUsed(m, w.epoch, w.free, w.walk[0]);
  }

  lemma {:induction false} ClearedAllFree(w: Wheel)
    requires Shaped(w) && w.walk == [] && w.run == NULL && forall s :: 0 <= s < |w.chains| ==> w.chains[s] == []
    ensures forall i :: 0 <= i < |w.nodes| ==> i in w.free && w.home[i] == FREE
    ensures forall i :: i in w.free ==> i < |w.nodes|
  {
    forall i | 0 <= i < |w.nodes|
      ensures i in w.free && w.home[i] == FREE
    {
      assert Home(w.chains, w.walk, w.run, w.home[i], w.free, i);
    }
  }

  lemma {:induction false} ClearEnd(w: Wheel, log: seq<Event>)
    requires Legal(log) && !Replay(log).walking && Clearing(w, Replay(log))
    requires w.walk == [] && forall s :: 0 <= s < |w.chains| ==> w.chains[s] == []
    ensures Agrees(w, log + [Reset]) && Replay(log + [Reset]) == Next(Replay(log), Reset)
    ensures w.free == Below(|w.nodes|)
  {
    ClearedAllFree(w);
    Extend(log, Reset);
    hide Buckets, Forward, Homes, Legal, Replay;
    forall i | 0 <= i < |w.nodes|
      ensures DueAt(0, |w.heads|, w.home[i], w.due[i], w.nodes[i].cb)
    {
    }
  }

  // ---------------------------------------------------------------------------
  // What the invariant says to a caller
  // ---------------------------------------------------------------------------

  /** Between calls linked and free nodes partition the pool, each linked node once. */
  lemma {:induction false} PoolPartition(w: Wheel, i: nat)
    requires Shaped(w) && w.walk == [] && w.run == NULL && i < |w.nodes|
    ensures i in w.free <==> forall s :: 0 <= s < |w.chains| ==> i !in w.chains[s]
    ensures forall s, s' :: 0 <= s < |w.chains| && 0 <= s' < |w.chains| && i in w.chains[s] && i in w.chains[s'] ==> s == s'
    ensures forall s :: 0 <= s < |w.chains| ==> NoRepeat(w.chains[s])
  {
    assert Home(w.chains, w.walk, w.run, w.home[i], w.free, i);
  }

  /** A handle cancels its own timer, or nothing, until its node has been recycled 2^32 - 1
      times. */
  lemma {:induction false} OwnHandle(w: Wheel, log: seq<Event>, t: Ticket)
    requires Agrees(w, log) && t in Replay(log).used && t.idx < |w.epoch| && w.epoch[t.idx] < t.epoch + GENERATIONS
    ensures Names(Handle(t), Replay(log).armed) <==> t in Replay(log).armed
  {
    hide Buckets, Forward, Homes, DueOk, Legal, Replay;
    forall u | u in Replay(log).armed && Handle(u) == Handle(t)
      ensures u == t
    {
      Unpack(t);
      Unpack(u);
      HandleNamesTicket(t, u);
    }
  }

  /** Pending tickets have different handles. */
  lemma {:induction false} ArmedHandles(w: Wheel, log: seq<Event>, t: Ticket, u: Ticket)
    requires Agrees(w, log) && t in Replay(log).armed && u in Replay(log).armed && Handle(t) == Handle(u)
    ensures t == u
  {
    hide Buckets, Forward, Homes, DueOk, UsedOk, Legal, Replay;
    Unpack(t);
    Unpack(u);
  }

  /** When callbacks do nothing to the wheel, a walk only fires. */
  ghost predicate OnlyFires(log: seq<Event>, ts: seq<Ticket>, ran: seq<nat>, log': seq<Event>) {
    |ts| == |ran| && log' == log + seq(|ran|, i requires 0 <= i < |ran| => Fired(ts[i], ran[i]))
  }

  /** The last callback of a walk whose callbacks do nothing. */
  lemma {:induction false} LastIdle(s: Scene, ran: seq<nat>, s': Scene) returns (mid: Scene, t: Ticket)
    requires Walks(s, [], ran, s') && ran != []
    ensures Walks(s, [], ran[..|ran| - 1], mid) && s'.log == mid.log + [Fired(t, ran[|ran| - 1])]
  {
    hide Replay;
    var n := |ran| - 1;
    var before, u: Ticket, end :|
      Walks(s, [], ran[..n], before) && Runs(before, u, ran[n], Entry([], n), end) && Returned(end, s') && u.idx in s'.free;
    mid, t := before, u;
  }

  lemma {:induction false} FiresOneMore(log: seq<Event>, ts: seq<Ticket>, ran: seq<nat>, mid: seq<Event>, t: Ticket, log': seq<Event>)
    requires ran != [] && OnlyFires(log, ts, ran[..|ran| - 1], mid) && log' == mid + [Fired(t, ran[|ran| - 1])]
    ensures OnlyFires(log, ts + [t], ran, log')
  {
    var n := |ran| - 1;
    var a := seq(n, i requires 0 <= i < n => Fired(ts[i], ran[..n][i]));
    var b := seq(|ran|, i requires 0 <= i < |ran| => Fired((ts + [t])[i], ran[i]));
    assert b == a + [Fired(t, ran[n])];
    assert log + (a + [Fired(t, ran[n])]) == (log + a) + [Fired(t, ran[n])];
  }

  lemma {:induction false} IdleWalk(s: Scene, ran: seq<nat>, s': Scene) returns (ts: seq<Ticket>)
    requires Walks(s, [], ran, s')
    ensures OnlyFires(s.log, ts, ran, s'.log)
  {
    if ran == [] {
      ts := [];
      return;
    }
    hide Walks, OnlyFires;
    var mid, t := LastIdle(s, ran, s');
    ts := IdleWalk(s, ran[..|ran| - 1], mid);
    FiresOneMore(s.log, ts, ran, mid.log, t, s'.log);
    ts := ts + [t];
  }

  lemma {:induction false} IndexCount(ts: set<Ticket>)
    requires forall t, u :: t in ts && u in ts && t.idx == u.idx ==> t == u
    ensures |set t | t in ts :: t.idx| == |ts|
  {
    if ts != {} {
      var t :| t in ts;
      IndexCount(ts - {t});
      assert (set u | u in ts :: u.idx) == (set u | u in ts - {t} :: u.idx) + {t.idx};
    }
  }

  ghost function ArmedNodes(nodes: seq<Node>): set<nat> {
    set i | i in Below(|nodes|) && nodes[i].cb.Some?
  }

  lemma {:induction false} ArmedCount(armed: map<Ticket, Pending>, nodes: seq<Node>, due: seq<nat>, epoch: seq<nat>)
    requires |nodes| == |due| == |epoch| && ArmedOk(armed, nodes, due, epoch)
    ensures |armed| == |ArmedNodes(nodes)|
  {
    hide Below;
    IndexCount(armed.Keys);
    var A := set t | t in armed.Keys :: t.idx;
    forall i | i in ArmedNodes(nodes)
      ensures i in A
    {
      assert Ticket(i, epoch[i]) in armed.Keys;
    }
    assert A == ArmedNodes(nodes);
  }

  lemma {:induction false} Complement(a: set<nat>, free: set<nat>, n: nat)
    requires free <= Below(n) && a <= Below(n) - free
    ensures |a| <= n - |free| && (|a| == n - |free| <==> a == Below(n) - free)
  {
    hide Below;
    BelowCount(n);
    var linked := Below(n) - free;
    assert Below(n) == linked + free;
    assert linked == a + (linked - a);
    assert linked - a == {} ==> linked == a;
  }

  lemma {:induction false} AllArmed(nodes: seq<Node>, free: set<nat>)
    requires forall i :: i in free ==> i < |nodes| && nodes[i].cb.None?
    ensures free <= Below(|nodes|) && ArmedNodes(nodes) <= Below(|nodes|) - free
    ensures ArmedNodes(nodes) == Below(|nodes|) - free <==>
            forall i :: 0 <= i < |nodes| && i !in free ==> nodes[i].cb.Some?
  {
    hide Below;
    if ArmedNodes(nodes) == Below(|nodes|) - free {
      forall i | 0 <= i < |nodes| && i !in free
        ensures nodes[i].cb.Some?
      {
        assert i in Below(|nodes|) - free;
      }
    }
  }

  /** Reset returns at least as many nodes as there are active timers, and exactly as many
      when no linked node has been cancelled: this is when its own assertion holds. */
  lemma {:induction false} ResetCount(w: Wheel, log: seq<Event>)
    requires Agrees(w, log) && !Replay(log).walking
    ensures Active(Replay(log)) <= |w.nodes| - |w.free|
    ensures Active(Replay(log)) == |w.nodes| - |w.free| <==>
            forall i :: 0 <= i < |w.nodes| && i !in w.free ==> w.nodes[i].cb.Some?
  {
    FreeNodesQuiet(w, log);
    hide Agrees, Replay, ArmedOk, Below, ArmedNodes;
    ArmedCount(Replay(log).armed, w.nodes, w.due, w.epoch);
    AllArmed(w.nodes, w.free);
    Complement(ArmedNodes(w.nodes), w.free, |w.nodes|);
  }

  lemma {:induction false} FreeNodesQuiet(w: Wheel, log: seq<Event>)
    requires Agrees(w, log)
    ensures forall i :: i in w.free ==> i < |w.nodes| && w.nodes[i].cb.None?
    ensures |w.nodes| == |w.due| == |w.epoch| && ArmedOk(Replay(log).armed, w.nodes, w.due, w.epoch)
  {
    forall i | i in w.free
      ensures i < |w.nodes| && w.nodes[i].cb.None?
    {
      assert w.home[i] == FREE;
      assert DueAt(Replay(log).now, |w.heads|, w.home[i], w.due[i], w.nodes[i].cb);
    }
  }

  /** A wheel of four slots and two nodes, with timers due in one and in two ticks. */
  ghost predicate TwoTimers(w: Wheel, log: seq<Event>) {
    && Agrees(w, log) && !Replay(log).walking && Replay(log).now == 0 && |w.heads| == 4 && |w.nodes| == 2
    && w.chains == [[], [0], [1], []] && w.walk == [] && w.run == NULL && w.free == {} && w.epoch == [0, 0]
    && w.nodes[0].cb == Some(7) && w.nodes[1].cb == Some(8)
  }

  ghost predicate NoTimers(w: Wheel, log: seq<Event>) {
    && Agrees(w, log) && !Replay(log).walking && Replay(log).now == 0 && |w.heads| == 4 && |w.nodes| == 2
    && w.chains == [[], [], [], []] && w.walk == [] && w.run == NULL && w.free == {0, 1} && w.epoch == [0, 0]
    && w.heads == [NULL, NULL, NULL, NULL]
  }

  lemma {:induction false} NoTimersReachable() returns (w: Wheel, log: seq<Event>)
    ensures NoTimers(w, log)
  {
    var blank := Node(NULL, NULL, 0, 1, None);
    w := Wheel([NULL, NULL, NULL, NULL], [blank, blank], Below(2), [[], [], [], []], [], NULL, [FREE, FREE], [0, 0], [0, 0]);
    log := [];
    EmptyWheel(w, 2);
  }

  ghost predicate OneTimer(w: Wheel, log: seq<Event>) {
    && Agrees(w, log) && !Replay(log).walking && Replay(log).now == 0 && |w.heads| == 4 && |w.nodes| == 2
    && w.chains == [[], [0], [], []] && w.walk == [] && w.run == NULL && w.free == {1} && w.epoch == [0, 0]
    && w.heads[2] == NULL && w.nodes[0].cb == Some(7)
  }

  lemma {:induction false} OneTimerReachable(w: Wheel, log: seq<Event>) returns (w': Wheel, log': seq<Event>)
    requires NoTimers(w, log)
    ensures OneTimer(w', log')
  {
    hide Agrees, Replay;
    ScheduleAgrees(w, log, 0, 1, 1, 7);
    w', log' := Arm(w, 0, 1, 1, 7), log + [Scheduled(Ticket(0, 0), 1, 7)];
    assert [0] + w.chains[1] == [0];
  }

  lemma {:induction false} TwoTimersReachable(w: Wheel, log: seq<Event>) returns (w': Wheel, log': seq<Event>)
    requires OneTimer(w, log)
    ensures TwoTimers(w', log')
  {
    hide Agrees, Replay;
    ScheduleAgrees(w, log, 1, 2, 2, 8);
    w', log' := Arm(w, 1, 2, 2, 8), log + [Scheduled(Ticket(1, 0), 2, 8)];
    assert [1] + w.chains[2] == [1];
  }

  /** The first timer's callback cancels the second, whose node stays linked. */
  lemma {:induction false} CancelledLinked(w: Wheel, log: seq<Event>) returns (w': Wheel, log': seq<Event>)
    requires TwoTimers(w, log)
    ensures Agrees(w', log') && !Replay(log').walking && w'.walk == [] && w'.run == NULL
    ensures Active(Replay(log')) < |w'.nodes| - |w'.free|
  {
    hide Agrees, Replay;
    BeginAgrees(w, log, 1);
    var w1, log1 := Detach(w, 1), log + [TickBegin];
    TurnAgrees(w1, log1);
    var w2, log2 := TakeFirst(w1), log1 + Turn(w1);
    MuteAgrees(w2, log2, 1);
    var w3, log3 := Mute(w2, 1), log2 + [Cancelled(Ticket(1, 0))];
    FinishAgrees(w3, log3);
    w' := Finish(w3);
    EndAgrees(w', log3);
    log' := log3 + [TickEnd(Replay(log3).fired)];
    assert 1 !in w'.free && w'.nodes[1].cb.None?;
    ResetCount(w', log');
  }

  /** That can fail: from a new wheel, two timers are scheduled and the callback of the first
      cancels the second. */
  lemma {:induction false} ResetMiscounts() returns (w: Wheel, log: seq<Event>)
    ensures Agrees(w, log) && !Replay(log).walking && w.walk == [] && w.run == NULL
    ensures Active(Replay(log)) < |w.nodes| - |w.free|
  {
    hide Agrees, Replay, NoTimers, OneTimer, TwoTimers;
    w, log := NoTimersReachable();
    w, log := OneTimerReachable(w, log);
    w, log := TwoTimersReachable(w, log);
    w, log := CancelledLinked(w, log);
  }

  class TimingWheel {
    const wheelSize: nat
    const maxTimers: nat
    const heads: array<int>
    const nodes: array<Node>
    const freeList: IndexFreeStack
    var currentTick: nat
    var activeCount: nat
    var inTickWalk: bool
    ghost var chains: seq<seq<nat>>
    ghost var walk: seq<nat>
    ghost var run: int
    ghost var home: seq<int>
    ghost var due: seq<nat>
    ghost var epoch: seq<nat>
    ghost var log: seq<Event>
    ghost const Repr: set<object>

    ghost function Memory(): Wheel
      reads this, heads, nodes, freeList
    {
      Wheel(heads[..], nodes[..], freeList.free, chains, walk, run, home, due, epoch)
    }

    ghost predicate Owns() {
      && Repr == {this, heads, nodes, freeList, freeList.indices}
      && heads as object != freeList.indices
      && wheelSize == heads.Length && maxTimers == nodes.Length == freeList.capacity < U32
      && 2 <= wheelSize < U32 && IsPow2(wheelSize)
    }

    /** Holds at every moment, in a tick or between calls. */
    ghost predicate Sound()
      reads Repr
    {
      && Owns() && freeList.Valid() && Agrees(Memory(), log)
      && inTickWalk == Replay(log).walking && activeCount == Active(Replay(log))
      && currentTick == Replay(log).now % U64
      && (!inTickWalk ==> walk == [] && run == NULL)
    }

    ghost predicate Clean()
      reads this, heads, nodes, freeList
    {
      AllLive(Memory())
    }

    /** Holds between calls. */
    ghost predicate Valid()
      reads Repr
    {
      Sound() && !inTickWalk
    }

    constructor (w: nat, n: nat)
      requires 2 <= w < U32 && IsPow2(w) && 1 <= n < U32 && IsPow2(n)
      ensures Valid() && fresh(Repr) && log == [] && wheelSize == w && maxTimers == n && freeList.free == Below(n)
      ensures Clean() && {this, heads, nodes, freeList} <= Repr
    {
      hide IndexFreeStack.Valid, Shaped, Tracks;
      wheelSize, maxTimers := w, n;
      heads := new int[w](_ => NULL);
      nodes := new Node[n](_ => Node(NULL, NULL, 0, 1, None));
      var f := new IndexFreeStack(n);
      freeList := f;
      currentTick, activeCount, inTickWalk := 0, 0, false;
      chains, walk, run := seq(w, _ => []), [], NULL;
      home, due, epoch := seq(n, _ => FREE), seq(n, _ => 0), seq(n, _ => 0);
      log := [];
      Repr := {this, heads, nodes, f, f.indices};
      new;
      EmptyWheel(Memory(), n);
    }

    // -------------------------------------------------------------------------
    // Chains and the free stack
    // -------------------------------------------------------------------------

    method PushFront(slot: nat, idx: nat)
      requires slot < heads.Length && idx < nodes.Length
      requires heads[slot] == NULL || 0 <= heads[slot] < nodes.Length
      modifies heads, nodes
      ensures nodes[..] == PushNodes(old(nodes[..]), old(heads[slot]), idx)
      ensures heads[..] == old(heads[..])[slot := idx]
    {
      var oldHead := heads[slot];
      nodes[idx] := nodes[idx].(prev := NULL, next := oldHead);
      if oldHead != NULL {
        nodes[oldHead] := nodes[oldHead].(prev := idx);
      }
      heads[slot] := idx;
    }

    method Unlink(idx: nat)
      requires idx < nodes.Length && nodes[idx].slot < heads.Length
      requires nodes[idx].prev == NULL || 0 <= nodes[idx].prev < nodes.Length
      requires nodes[idx].next == NULL || 0 <= nodes[idx].next < nodes.Length
      modifies heads, nodes
      ensures nodes[..] == UnlinkNodes(old(nodes[..]), idx)
      ensures heads[..] == if old(nodes[idx].prev) == NULL then old(heads[..])[old(nodes[idx].slot) := old(nodes[idx].next)]
                           else old(heads[..])
    {
      var node := nodes[idx];
      if node.prev != NULL {
        nodes[node.prev] := nodes[node.prev].(next := node.next);
      } else {
        heads[node.slot] := node.next;
      }
      if node.next != NULL {
        nodes[node.next] := nodes[node.next].(prev := node.prev);
      }
      nodes[idx] := nodes[idx].(prev := NULL, next := NULL);
    }

    method FreeNode(idx: nat)
      requires freeList.Valid() && idx < nodes.Length == freeList.capacity && idx !in freeList.free
      requires heads as object != freeList.indices
      modifies nodes, freeList, freeList.indices
      ensures freeList.Valid() && freeList.free == old(freeList.free) + {idx}
      ensures nodes[..] == old(nodes[..])[idx := Recycled(old(nodes[idx]))]
      ensures heads[..] == old(heads[..])
    {
      nodes[idx] := nodes[idx].(gen := NextGen(nodes[idx].gen), cb := None);
      freeList.Push(idx);
    }

    /** The slot a number of ticks from now. */
    method SlotAfter(delay: nat) returns (slot: nat)
      requires Owns() && currentTick == Replay(log).now % U64
      ensures slot == (Replay(log).now + delay) % wheelSize && slot < wheelSize
      ensures (currentTick + delay) % U64 == (Replay(log).now + delay) % U64
    {
      hide Replay;
      SlotOf(Replay(log).now, delay, wheelSize);
      slot := Mask((currentTick + delay) % U64, wheelSize);
    }

    /** Takes a node off the free stack and puts it in front of a bucket. */
    method ArmNode(slot: nat, ghost d: nat, cb: nat) returns (ok: bool, idx: nat)
      requires Owns() && freeList.Valid() && Shaped(Memory()) && slot < wheelSize
      modifies heads, nodes, freeList, this`chains, this`home, this`due
      ensures freeList.Valid() && ok == (old(freeList.free) != {})
      ensures !ok ==> Memory() == old(Memory()) && freeList.free == old(freeList.free)
      ensures ok ==> idx in old(freeList.free) && idx < maxTimers && old(home)[idx] == FREE
      ensures ok ==> old(heads[slot]) == NULL || 0 <= old(heads[slot]) < maxTimers
      ensures ok ==> Memory() == Arm(old(Memory()), idx, slot, d, cb) && freeList.free == old(freeList.free) - {idx}
    {
      hide Buckets, Forward, Homes, PushNodes;
      ok, idx := freeList.Pop();
      if !ok {
        return;
      }
      FreeNodeUnlinked(old(Memory()), idx, nodes[idx]);
      ArmShaped(old(Memory()), idx, slot, d, cb);
      nodes[idx] := nodes[idx].(cb := Some(cb), slot := slot);
      PushFront(slot, idx);
      chains, home, due := chains[slot := [idx] + chains[slot]], home[idx := slot], due[idx := d];
    }

    /** Takes an armed node off its chain and frees it. */
    method RemoveNode(idx: nat, ghost k: nat)
      requires Owns() && freeList.Valid() && idx < maxTimers && nodes[idx].slot < wheelSize
      requires Unchains(Memory(), nodes[idx].slot, k) && chains[nodes[idx].slot][k] == idx
      requires |home| == |epoch| == maxTimers && idx !in freeList.free
      modifies heads, nodes, freeList, freeList.indices, this`chains, this`home, this`epoch
      ensures freeList.Valid()
      ensures Memory() == Release(Unchain(old(Memory()), old(nodes[idx].slot), k), idx)
    {
      hide IndexFreeStack.Valid, UnlinkNodes;
      ghost var slot := nodes[idx].slot;
      Unlink(idx);
      FreeNode(idx);
      chains := chains[slot := RemoveAt(chains[slot], k)];
      home, epoch := home[idx := FREE], epoch[idx := epoch[idx] + 1];
    }

    // -------------------------------------------------------------------------
    // Calls
    // -------------------------------------------------------------------------

    ghost function Armed(): map<Ticket, Pending>
      reads this
    {
      Replay(log).armed
    }

    ghost function Now(): nat
      reads this
    {
      Replay(log).now
    }

    /** Between calls the log is that of a service that keeps its promises, and no tick is open. */
    lemma {:induction false} LogLegal()
      requires Valid()
      ensures Legal(log) && !Replay(log).walking
    {
      hide Legal, Replay;
    }

    /** Arms a timer. Returns 0 exactly when no node is free; otherwise the handle of a ticket
        never issued before. Allowed between calls and from callbacks. */
    method Schedule(cb: nat, delay: nat) returns (h: nat, ghost t: Ticket)
      requires Sound() && 0 < delay < wheelSize
      modifies Repr
      ensures Sound() && inTickWalk == old(inTickWalk) && walk == old(walk) && run == old(run) && epoch == old(epoch)
      ensures h == 0 <==> old(freeList.free) == {}
      ensures h != 0 ==> h == Handle(t) && log == old(log) + [Scheduled(t, delay, cb)]
      ensures h != 0 ==> t.idx in old(freeList.free) && freeList.free == old(freeList.free) - {t.idx}
      ensures h == 0 ==> log == old(log) && freeList.free == old(freeList.free)
      ensures Replay(log).fired == old(Replay(log).fired)
      ensures old(Clean()) ==> Clean()
    {
      hide IndexFreeStack.Valid, Shaped, Tracks, Legal, Replay, Arm, AllLive, Mask, IsPow2;
      ghost var v, m := Memory(), Replay(log);
      var slot := SlotAfter(delay);
      var ok, idx := ArmNode(slot, m.now + delay, cb);
      if !ok {
        return 0, Ticket(0, 0);
      }
      ScheduleAgrees(v, log, idx, slot, delay, cb);
      if AllLive(v) {
        ArmLive(v, idx, slot, m.now + delay, cb);
      }
      t := Ticket(idx, v.epoch[idx]);
      log := log + [Scheduled(t, delay, cb)];
      activeCount := activeCount + 1;
      Unpack(t);
      h := Pack(idx, nodes[idx].gen);
    }

    /** Cancels a timer: true exactly when the handle names a pending one. During a walk the
        node stays linked and only loses its callback. */
    method Cancel(h: nat) returns (ok: bool, ghost t: Ticket)
      requires Sound()
      modifies Repr
      ensures Sound() && inTickWalk == old(inTickWalk) && walk == old(walk) && run == old(run)
      ensures inTickWalk ==> epoch == old(epoch) && freeList.free == old(freeList.free)
      ensures ok == Names(h, old(Armed()))
      ensures ok ==> t in old(Armed()) && Handle(t) == h && log == old(log) + [Cancelled(t)]
      ensures !ok ==> log == old(log)
      ensures Replay(log).fired == old(Replay(log).fired)
      ensures !inTickWalk && old(Clean()) ==> Clean()
    {
      hide IndexFreeStack.Valid, Shaped, Tracks, Legal, Replay, Unchain, Release, Names, AllLive;
      t := Ticket(0, 0);
      HandleIsArmed(Memory(), log, h);
      if h == 0 {
        return false, t;
      }
      var idx, gen := h % U32, h / U32;
      if idx >= maxTimers || nodes[idx].gen != gen || nodes[idx].cb.None? {
        return false, t;
      }
      t := Ticket(idx, epoch[idx]);
      if inTickWalk {
        MuteAgrees(Memory(), log, idx);
        nodes[idx] := nodes[idx].(cb := None);
      } else {
        ghost var k := ChainCell(Memory(), log, idx);
        RemoveAgrees(Memory(), log, nodes[idx].slot, k);
        if Clean() {
          RemoveLive(Memory(), nodes[idx].slot, k);
        }
        RemoveNode(idx, k);
      }
      log := log + [Cancelled(t)];
      activeCount := activeCount - 1;
      ok := true;
    }

    // -------------------------------------------------------------------------
    // Ticking
    // -------------------------------------------------------------------------

    /** What one callback does. */
    method Perform(actions: seq<Action>, ghost n: nat)
      requires Sound() && inTickWalk && Busy(log, n)
      requires forall i :: 0 <= i < |actions| ==> ValidAction(actions[i], wheelSize)
      modifies Repr
      ensures Sound() && inTickWalk && walk == old(walk) && run == old(run) && epoch == old(epoch)
      ensures old(log) <= log && Busy(log, n) && Replay(log).fired == old(Replay(log).fired)
      ensures Carries(old(Scene(log, freeList.free)), actions, Scene(log, freeList.free))
      ensures actions == [] && old(Clean()) ==> Clean()
    {
      hide IndexFreeStack.Valid, Agrees, Replay, Active, Names, Carries;
      CarriesNone(Scene(log, freeList.free));
      assert actions[..0] == [];
      for i := 0 to |actions|
        invariant Sound() && inTickWalk && walk == old(walk) && run == old(run) && epoch == old(epoch)
        invariant old(log) <= log && Busy(log, n) && Replay(log).fired == old(Replay(log).fired)
        invariant Carries(old(Scene(log, freeList.free)), actions[..i], Scene(log, freeList.free))
        invariant i == 0 && old(Clean()) ==> Clean()
      {
        ghost var mid := Scene(log, freeList.free);
        match actions[i] {
          case Schedule(delay, cb) =>
            var _, _ := Schedule(cb, delay);
          case Cancel(h) =>
            var _, _ := Cancel(h);
        }
        CarriesMore(old(Scene(log, freeList.free)), actions, i, mid, Scene(log, freeList.free));
      }
      assert actions[..|actions|] == actions;
    }

    method DetachSlot(slot: nat) returns (head: int)
      requires Owns() && slot < wheelSize == |chains|
      modifies heads, this`chains, this`walk, this`home
      ensures Memory() == Detach(old(Memory()), slot) && head == old(heads[slot])
      ensures walk == old(chains)[slot] && run == old(run)
      ensures freeList.indices[..] == old(freeList.indices[..])
    {
      hide Detached;
      head := heads[slot];
      heads[slot] := NULL;
      home, walk := Detached(home, slot, |chains|), chains[slot];
      chains := chains[slot := []];
    }

    /** Advances the clock and detaches the bucket that is now due. */
    method BeginTick() returns (head: int)
      requires Valid()
      modifies Repr
      ensures Sound() && inTickWalk && run == NULL && head == First(walk)
      ensures log == old(log) + [TickBegin] && Replay(log).fired == 0 && freeList.free == old(freeList.free)
      ensures old(Clean()) ==> Clean()
    {
      hide IndexFreeStack.Valid, Shaped, Tracks, Legal, Replay, Mask, IsPow2, Detach, AllLive;
      var slot := SlotAfter(1);
      currentTick := (currentTick + 1) % U64;
      BeginAgrees(Memory(), log, slot);
      DetachLive(Memory(), slot);
      head := DetachSlot(slot);
      inTickWalk := true;
      log := log + [TickBegin];
    }

    /** The node whose turn it is leaves the detached chain; its callback, if it still has
        one, is about to run. */
    method TakeTurn(cur: nat) returns (next: int, cb: Option<nat>)
      requires Sound() && inTickWalk && run == NULL && walk != [] && walk[0] == cur
      modifies Repr
      ensures Sound() && inTickWalk && run == cur && walk == old(walk)[1..] && next == First(walk) && epoch == old(epoch)
      ensures old(log) <= log && cb == old(nodes[cur].cb) && freeList.free == old(freeList.free)
      ensures if cb.None? then log == old(log)
              else log == old(log) + [Fired(Ticket(cur, epoch[cur]), cb.value)]
      ensures Replay(log).fired == old(Replay(log).fired) + (if cb.Some? then 1 else 0)
      ensures old(Clean()) ==> Clean()
    {
      hide IndexFreeStack.Valid, Shaped, Tracks, Legal, Replay;
      ghost var v := Memory();
      TurnAgrees(v, log);
      next, cb := nodes[cur].next, nodes[cur].cb;
      nodes[cur] := nodes[cur].(prev := NULL, next := NULL, cb := None);
      walk, run, home := walk[1..], cur, home[cur := |chains| + 1];
      log := log + Turn(v);
    }

    method FinishTurn(cur: nat)
      requires Sound() && inTickWalk && run == cur
      modifies Repr
      ensures Sound() && inTickWalk && run == NULL && walk == old(walk) && log == old(log)
      ensures old(Clean()) ==> Clean()
      ensures cur in freeList.free && Returned(old(Scene(log, freeList.free)), Scene(log, freeList.free))
    {
      hide IndexFreeStack.Valid, Shaped, Tracks, Legal, Replay;
      FinishAgrees(Memory(), log);
      FreeNode(cur);
      home, epoch, run := home[cur := FREE], epoch[cur := epoch[cur] + 1], NULL;
      FreeIsIdle(Memory(), log, cur);
    }

    method EndTick(fired: nat)
      requires Sound() && inTickWalk && walk == [] && run == NULL && fired == Replay(log).fired
      modifies Repr
      ensures Valid() && log == old(log) + [TickEnd(fired)] && freeList.free == old(freeList.free)
      ensures old(Clean()) ==> Clean()
    {
      hide IndexFreeStack.Valid, Shaped, Tracks, Legal, Replay;
      EndAgrees(Memory(), log);
      inTickWalk := false;
      activeCount := activeCount - fired;
      log := log + [TickEnd(fired)];
    }

    /** One tick. Each timer due fires in turn unless cancelled before its turn; its callback
        performs the next entry of the script. The result counts the callbacks run. */
    method Tick(script: seq<seq<Action>>) returns (fired: nat, ran: seq<nat>)
      requires Valid()
      requires forall k, i :: 0 <= k < |script| && 0 <= i < |script[k]| ==> ValidAction(script[k][i], wheelSize)
      modifies Repr
      ensures Valid() && fired == |ran|
      ensures |old(log)| + 2 <= |log| && log[..|old(log)|] == old(log)
      ensures log[|old(log)|] == TickBegin && log[|log| - 1] == TickEnd(fired)
      ensures forall i :: |old(log)| < i < |log| - 1 ==> log[i].Scheduled? || log[i].Cancelled? || log[i].Fired?
      ensures Walks(Scene(old(log) + [TickBegin], old(freeList.free)), script, ran, Scene(log[..|log| - 1], freeList.free))
      ensures script == [] && old(Clean()) ==> Clean()
    {
      hide IndexFreeStack.Valid, Agrees, Replay, Active, Carries, Walks, AllLive, Returned;
      ghost var n := |log| + 1;
      var head := BeginTick();
      ghost var started := Scene(log, freeList.free);
      fired, ran := 0, [];
      WalksNone(started, script);
      while head != NULL
        invariant Sound() && inTickWalk && run == NULL && head == First(walk) && fired == |ran| == Replay(log).fired
        invariant started.log <= log && Busy(log, n) && Walks(started, script, ran, Scene(log, freeList.free))
        invariant script == [] && old(Clean()) ==> Clean()
        decreases |walk|
      {
        var cur := head;
        var cb;
        ghost var mid := Scene(log, freeList.free);
        head, cb := TakeTurn(cur);
        if cb.None? {
          FinishTurn(cur);
          WalksOn(started, script, ran, mid, Scene(log, freeList.free));
          continue;
        }
        FinishAgrees(Memory(), log);
        var savedGen := nodes[cur].gen;
        ghost var t := Ticket(cur, epoch[cur]);
        Perform(Entry(script, fired), n);
        FinishAgrees(Memory(), log);
        ghost var end := Scene(log, freeList.free);
        if nodes[cur].gen == savedGen {
          FinishTurn(cur);
        }
        WalksMore(started, script, ran, mid, t, cb.value, end, Scene(log, freeList.free));
        fired, ran := fired + 1, ran + [cb.value];
      }
      ghost var body := log;
      EndTick(fired);
      assert log[..|log| - 1] == body;
    }

    // -------------------------------------------------------------------------
    // Resetting
    // -------------------------------------------------------------------------

    /** The memory as if the bucket being cleared had already been unhooked. */
    ghost function Unhooked(slot: nat): Wheel
      requires slot < heads.Length
      reads this, heads, nodes, freeList
    {
      Memory().(heads := heads[..][slot := NULL])
    }

    /** Returns the first node of the bucket being cleared to the free stack. */
    method ReturnNode(slot: nat, idx: nat, ghost m: Monitor) returns (next: int)
      requires Owns() && freeList.Valid() && slot < wheelSize && walk != [] && walk[0] == idx && run == NULL
      requires Clearing(Unhooked(slot), m)
      modifies nodes, freeList, freeList.indices, this`walk, this`home, this`epoch
      ensures freeList.Valid() && Clearing(Unhooked(slot), m) && walk == old(walk)[1..] && next == First(walk)
      ensures |freeList.free| == old(|freeList.free|) + 1 && heads[..] == old(heads[..])
    {
      hide IndexFreeStack.Valid, Clearing;
      ghost var w := Unhooked(slot);
      ClearNode(w, m);
      next := nodes[idx].next;
      nodes[idx] := nodes[idx].(prev := NULL, next := NULL);
      FreeNode(idx);
      walk, home, epoch := walk[1..], home[idx := FREE], epoch[idx := epoch[idx] + 1];
      assert Unhooked(slot) == Finish(TakeFirst(w));
    }

    /** Returns every node of one bucket to the free stack. */
    method ClearSlot(slot: nat, ghost m: Monitor) returns (freed: nat)
      requires Owns() && freeList.Valid() && slot < wheelSize && walk == [] && run == NULL && Clearing(Memory(), m)
      modifies heads, nodes, freeList, freeList.indices, this`chains, this`walk, this`home, this`epoch
      ensures freeList.Valid() && walk == [] && Clearing(Memory(), m)
      ensures |old(chains)| == wheelSize && chains == old(chains)[slot := []]
      ensures |freeList.free| == old(|freeList.free|) + freed
    {
      hide IndexFreeStack.Valid, Clearing;
      ClearDetach(Memory(), m, slot);
      var idx := heads[slot];
      home, walk := Detached(home, slot, |chains|), chains[slot];
      chains := chains[slot := []];
      freed := 0;
      while idx != NULL
        invariant freeList.Valid() && Clearing(Unhooked(slot), m) && idx == First(walk)
        invariant |old(chains)| == wheelSize && chains == old(chains)[slot := []] && heads[..] == old(heads[..])
        invariant |freeList.free| == old(|freeList.free|) + freed
        decreases |walk|
      {
        idx := ReturnNode(slot, idx, m);
        freed := freed + 1;
      }
      heads[slot] := NULL;
      assert Memory() == Unhooked(slot);
    }

    method ClearAll(ghost m: Monitor) returns (freed: nat)
      requires Owns() && freeList.Valid() && walk == [] && run == NULL && Clearing(Memory(), m) && |chains| == wheelSize
      modifies heads, nodes, freeList, freeList.indices, this`chains, this`walk, this`home, this`epoch
      ensures freeList.Valid() && walk == [] && Clearing(Memory(), m)
      ensures |chains| == wheelSize && forall s :: 0 <= s < |chains| ==> chains[s] == []
      ensures |freeList.free| == old(|freeList.free|) + freed
    {
      hide IndexFreeStack.Valid, Clearing;
      freed := 0;
      for slot := 0 to wheelSize
        invariant freeList.Valid() && walk == [] && Clearing(Memory(), m)
        invariant |chains| == wheelSize && forall s :: 0 <= s < slot ==> chains[s] == []
        invariant |freeList.free| == old(|freeList.free|) + freed
      {
        var n := ClearSlot(slot, m);
        freed := freed + n;
      }
    }

    /** Returns every node to the free stack and starts the clock again. The count returned
        is that of the nodes returned. */
    method Reset() returns (freed: nat)
      requires Valid()
      modifies Repr
      ensures Valid() && log == old(log) + [TimerLog.Reset]
      ensures freeList.free == Below(maxTimers) && freed == maxTimers - |old(freeList.free)| && Clean()
    {
      hide IndexFreeStack.Valid, Shaped, Tracks, Legal, Replay, Clearing, IsPow2, Below;
      ClearStart(Memory(), log);
      freed := ClearAll(Replay(log));
      ClearEnd(Memory(), log);
      BelowCount(maxTimers);
      log := log + [TimerLog.Reset];
      activeCount, currentTick := 0, 0;
    }
  }
}
