/** What every run of kernel entries keeps with more than one domain,
    and which runs lose track of a thread (thread.c). */
module DomainRuns {
  import opened LinkedQueue
  import opened PriorityBitmap
  import opened ReadyQueues
  import opened SchedulerState
  import opened SchedulerRuns

  // ---- The invariant with several domains ----

  /** The current thread can run, is in no queue and, unless idle, belongs to the current domain. */
  ghost predicate AtHome(s: Sched)
    requires s.cur in s.state && s.cur in s.queued && s.cur in s.key
  {
    && (Runnable(s.state[s.cur]) || s.cur == s.idle) && !s.queued[s.cur]
    && (s.cur == s.idle || s.key[s.cur].dom == s.curDomain)
  }

  /** Queued threads are runnable, and nothing is ever to be switched to directly. */
  ghost predicate Steady(p: Params, s: Sched) {
    && p.cfg.numDomains > 1 && Known(p, s) && IdleOk(s) && !s.action.SwitchTo?
    && (s.action.ResumeCurrentThread? ==> AtHome(s))
    && forall t: Tcb :: QueuedRuns(s, t)
  }

  ghost predicate QueuedRuns(s: Sched, t: Tcb) {
    t in s.state && t in s.queued && s.queued[t] ==> Runnable(s.state[t])
  }

  lemma SteadyBlock(p: Params, s: Sched, t: Tcb, ts: ThreadState)
    requires Steady(p, s) && t in s.state && t != s.idle && (Runnable(ts) || !s.queued[t])
    ensures Steady(p, SetThreadState(s, t, ts))
  {
    forall u: Tcb ensures QueuedRuns(SetThreadState(s, t, ts), u) {
      assert QueuedRuns(s, u);
    }
  }

  lemma SteadyReschedule(p: Params, s: Sched)
    requires Steady(p, s)
    ensures Steady(p, RescheduleRequired(s))
  {
    forall u: Tcb ensures QueuedRuns(RescheduleRequired(s), u) {
      assert QueuedRuns(s, u);
    }
  }

  lemma SteadyEnqueue(p: Params, s: Sched, t: Tcb)
    requires Steady(p, s) && t in s.state && Runnable(s.state[t]) && (s.action.ResumeCurrentThread? ==> t != s.cur)
    ensures Steady(p, Enqueue(s, t)) && Steady(p, Append(s, t))
  {
    forall u: Tcb ensures QueuedRuns(Enqueue(s, t), u) && QueuedRuns(Append(s, t), u) {
      assert QueuedRuns(s, u);
    }
  }

  lemma SteadySwitch(p: Params, s: Sched, t: Tcb, onSame: bool)
    requires Steady(p, s) && t in s.state && t != s.idle && Runnable(s.state[t])
    ensures Steady(p, PossibleSwitchTo(p, s, t, onSame))
  {
    if s.key[t].dom != s.curDomain {
      SteadyEnqueue(p, s, t);
    }
  }

  lemma SteadyDequeue(p: Params, s: Sched, t: Tcb)
    requires Steady(p, s) && t in s.state
    ensures Steady(p, Dequeue(s, t))
  {
    forall u: Tcb ensures QueuedRuns(Dequeue(s, t), u) {
      assert QueuedRuns(s, u);
    }
  }

  lemma SteadySuspend(p: Params, s: Sched, t: Tcb)
    requires Steady(p, s) && t in s.state && t != s.idle
    ensures Steady(p, Suspended(s, t))
  {
    forall u: Tcb ensures QueuedRuns(Suspended(s, t), u) {
      assert QueuedRuns(s, u);
    }
  }

  lemma SteadyRekey(p: Params, s: Sched, t: Tcb, k: Key)
    requires Steady(p, s) && t in s.state && t != s.idle && (s.action.ResumeCurrentThread? ==> t != s.cur)
    ensures Steady(p, s.(key := s.key[t := k]))
  {
    var s' := s.(key := s.key[t := k]);
    forall u: Tcb ensures QueuedRuns(s', u) {
      assert QueuedRuns(s, u);
    }
  }

  lemma SteadySetKey(p: Params, s: Sched, t: Tcb, k: Key)
    requires Steady(p, s) && t in s.state && t != s.idle
    ensures Steady(p, SetKey(s, t, k))
  {
    var s0 := if t == s.cur then RescheduleRequired(s) else s;
    SteadyReschedule(p, s);
    SteadyDequeue(p, s0, t);
    SteadyRekey(p, Dequeue(s0, t), t, k);
    var s2 := Dequeue(s0, t).(key := s.key[t := k]);
    if Runnable(s.state[t]) {
      SteadyEnqueue(p, s2, t);
    }
  }

  lemma SteadyYield(p: Params, s: Sched)
    requires Steady(p, s) && Runnable(s.state[s.cur])
    ensures Steady(p, Yielded(s))
  {
    SteadyReschedule(p, s);
    SteadyDequeue(p, RescheduleRequired(s), s.cur);
    SteadyEnqueue(p, Dequeue(RescheduleRequired(s), s.cur), s.cur);
  }

  lemma SteadyTick(p: Params, s: Sched)
    requires Steady(p, s)
    ensures Steady(p, TimerTick(p, s))
  {
    SteadySlice(p, s);
    var s1 := TickSlice(p, s);
    forall u: Tcb ensures QueuedRuns(TimerTick(p, s), u) {
      assert QueuedRuns(s1, u);
    }
  }

  lemma SteadySlice(p: Params, s: Sched)
    requires Steady(p, s)
    ensures Steady(p, TickSlice(p, s))
  {
    forall u: Tcb ensures QueuedRuns(TickSlice(p, s), u) {
      assert QueuedRuns(s, u);
    }
  }

  lemma SteadyWakeOne(p: Params, s: Sched, t: Tcb)
    requires Steady(p, RescheduleRequired(s)) && Known(p, s) && t in s.state && t != s.idle
    ensures Steady(p, RescheduleRequired(WakeOne(s, t)))
  {
    WakeOneIs(p, s, t);
    forall u: Tcb ensures QueuedRuns(RescheduleRequired(WakeOne(s, t)), u) {
      assert QueuedRuns(RescheduleRequired(s), u);
    }
  }

  lemma {:induction false} SteadyWakeEach(p: Params, s: Sched, ts: seq<Tcb>)
    requires Steady(p, RescheduleRequired(s)) && Known(p, s) && s.idle !in ts
    requires forall t: Tcb :: t in ts ==> t in s.state
    ensures Known(p, WakeEach(s, ts)) && Steady(p, RescheduleRequired(WakeEach(s, ts)))
    decreases |ts|
  {
    if ts != [] {
      assert ts[0] in ts;
      WakeOneKnown(p, s, ts[0]);
      SteadyWakeOne(p, s, ts[0]);
      SteadyWakeEach(p, WakeOne(s, ts[0]), ts[1..]);
    }
  }

  lemma SteadyRestart(p: Params, s: Sched, t: Tcb)
    requires Steady(p, s) && t in s.state && t != s.idle && !Runnable(s.state[t])
    ensures Steady(p, Restarted(p, s, t))
  {
    SteadyBlock(p, s, t, Restart);
    SteadyEnqueue(p, SetThreadState(s, t, Restart), t);
    SteadySwitch(p, WakeOne(s, t), t, false);
  }

  // ---- One or several domains ----

  datatype Setting = OneDomain | SeveralDomains

  ghost predicate OrderedIn(w: Setting, p: Params, s: Sched) {
    match w
    case OneDomain => p.cfg.numDomains == 1 ==> Inv(p, s, {})
    case SeveralDomains => p.cfg.numDomains != 1 ==> Steady(p, s)
  }

  /** What the scheduler keeps inside a kernel entry, however many domains there are. */
  ghost predicate Ordered(p: Params, s: Sched) {
    forall w: Setting :: OrderedIn(w, p, s)
  }

  /** And at its end. */
  ghost predicate AtRest(p: Params, s: Sched) {
    Ordered(p, s) && s.action == ResumeCurrentThread
  }

  lemma OrderedMeans(p: Params, s: Sched)
    requires Ordered(p, s)
    ensures Known(p, s) && IdleOk(s) && if p.cfg.numDomains == 1 then Inv(p, s, {}) else Steady(p, s)
  {
    assert OrderedIn(OneDomain, p, s) && OrderedIn(SeveralDomains, p, s);
  }

  lemma OrderedKnown(p: Params, s: Sched)
    requires Ordered(p, s)
    ensures Known(p, s) && IdleOk(s)
  {
    OrderedMeans(p, s);
  }

  lemma BlockedUnqueued(p: Params, s: Sched, t: Tcb)
    requires Known(p, s) && Ordered(p, s) && t in s.state && !Runnable(s.state[t])
    ensures !s.queued[t] && s.action != SwitchTo(t)
  {
    OrderedMeans(p, s);
    if p.cfg.numDomains == 1 {
      BlockedIsUnqueued(p, s, t);
    } else {
      assert QueuedRuns(s, t);
    }
  }

  lemma OrderedBlock(p: Params, s: Sched, t: Tcb, ts: ThreadState)
    requires Known(p, s) && Ordered(p, s) && t in s.state && t != s.idle && !Runnable(ts) && !s.queued[t]
    requires s.action != SwitchTo(t)
    ensures Ordered(p, SetThreadState(s, t, ts))
  {
    OrderedMeans(p, s);
    if p.cfg.numDomains == 1 {
      BlockKeeps(p, s, t, ts, {});
      assert {} - {t} == {};
    } else {
      SteadyBlock(p, s, t, ts);
    }
  }

  /** The current thread cannot be asleep while the scheduler means to resume it. */
  lemma WakeBlockedKeeps(p: Params, s: Sched, t: Tcb, ts: ThreadState, onSame: bool)
    requires Inv(p, s, {}) && t in s.state && t != s.idle && !Runnable(s.state[t]) && Runnable(ts)
    ensures Inv(p, PossibleSwitchTo(p, SetThreadState(s, t, ts), t, onSame), {})
  {
    if t == s.cur {
      SetStateKeeps(p, s, t, ts, {});
      var s1 := SetThreadState(s, t, ts);
      assert {} + {t} - {t} == {};
      if s.action.SwitchTo? {
        EnqueueAndReschedule(p, s1, t, {} + {t});
      } else {
        EnqueueKeeps(p, s1, t, {} + {t});
      }
    } else {
      WakeKeeps(p, s, t, ts, onSame);
    }
  }

  lemma OrderedWake(p: Params, s: Sched, t: Tcb, ts: ThreadState, onSame: bool)
    requires Known(p, s) && Ordered(p, s) && t in s.state && t != s.idle && Runnable(ts)
    requires (!Runnable(s.state[t]) || onSame || t != s.cur)
    ensures t in s.key && s.cur in s.key && Ordered(p, PossibleSwitchTo(p, SetThreadState(s, t, ts), t, onSame))
  {
    OrderedMeans(p, s);
    if p.cfg.numDomains > 1 {
      SteadyBlock(p, s, t, ts);
      SteadySwitch(p, SetThreadState(s, t, ts), t, onSame);
    } else if Runnable(s.state[t]) {
      WakeKeeps(p, s, t, ts, onSame);
    } else {
      WakeBlockedKeeps(p, s, t, ts, onSame);
    }
  }

  lemma OrderedReschedule(p: Params, s: Sched)
    requires Ordered(p, s)
    ensures Ordered(p, RescheduleRequired(s))
  {
    OrderedMeans(p, s);
    if p.cfg.numDomains == 1 { RescheduleKeeps(p, s, {}); } else { SteadyReschedule(p, s); }
  }

  lemma OrderedWakeOne(p: Params, s: Sched, t: Tcb)
    requires Ordered(p, RescheduleRequired(s)) && Known(p, s) && t in s.state && t != s.idle
    ensures Ordered(p, RescheduleRequired(WakeOne(s, t)))
  {
    OrderedMeans(p, RescheduleRequired(s));
    if p.cfg.numDomains == 1 { WakeOneKeeps(p, s, t); } else { SteadyWakeOne(p, s, t); }
  }

  lemma OrderedWakeEach(p: Params, s: Sched, ts: seq<Tcb>)
    requires Ordered(p, s) && s.idle !in ts && forall t: Tcb :: t in ts ==> t in s.state
    ensures Ordered(p, RescheduleRequired(WakeEach(s, ts)))
  {
    OrderedMeans(p, s);
    OrderedReschedule(p, s);
    OrderedMeans(p, RescheduleRequired(s));
    if p.cfg.numDomains == 1 { WakeEachKeeps(p, s, ts); } else { SteadyWakeEach(p, s, ts); }
  }

  lemma OrderedSuspend(p: Params, s: Sched, t: Tcb)
    requires Known(p, s) && Ordered(p, s) && t in s.state && t != s.idle && s.action != SwitchTo(t)
    ensures Ordered(p, Suspended(s, t))
  {
    OrderedMeans(p, s);
    if p.cfg.numDomains == 1 { SuspendKeeps(p, s, t); } else { SteadySuspend(p, s, t); }
  }

  lemma OrderedRestart(p: Params, s: Sched, t: Tcb)
    requires Known(p, s) && Ordered(p, s) && t in s.state && t != s.idle && !Runnable(s.state[t])
    ensures t in s.key && s.cur in s.key && Ordered(p, Restarted(p, s, t))
  {
    OrderedMeans(p, s);
    if p.cfg.numDomains == 1 { RestartKeeps(p, s, t); } else { SteadyRestart(p, s, t); }
  }

  lemma OrderedMark(p: Params, s: Sched, t: Tcb, ts: ThreadState)
    requires Known(p, s) && Ordered(p, s) && t in s.state && t != s.idle && Runnable(s.state[t]) && Runnable(ts)
    ensures Ordered(p, SetThreadState(s, t, ts))
  {
    OrderedMeans(p, s);
    if p.cfg.numDomains == 1 { MarkKeeps(p, s, t, ts); } else { SteadyBlock(p, s, t, ts); }
  }

  lemma OrderedSetKey(p: Params, s: Sched, t: Tcb, k: Key)
    requires Known(p, s) && Ordered(p, s) && t in s.state && t != s.idle && !s.action.SwitchTo?
    requires p.cfg.numDomains == 1 && s.action.ResumeCurrentThread? && t != s.cur && Runnable(s.state[t]) ==>
      k.prio <= s.key[s.cur].prio
    ensures Ordered(p, SetKey(s, t, k))
  {
    OrderedMeans(p, s);
    if p.cfg.numDomains == 1 { SetKeyKeeps(p, s, t, k); } else { SteadySetKey(p, s, t, k); }
  }

  lemma OrderedYield(p: Params, s: Sched)
    requires Known(p, s) && Ordered(p, s) && Runnable(s.state[s.cur])
    ensures Ordered(p, Yielded(s))
  {
    OrderedMeans(p, s);
    if p.cfg.numDomains == 1 { YieldKeeps(p, s); } else { SteadyYield(p, s); }
  }

  lemma OrderedTick(p: Params, s: Sched)
    requires Known(p, s) && Ordered(p, s)
    ensures Ordered(p, TimerTick(p, s))
  {
    OrderedMeans(p, s);
    if p.cfg.numDomains == 1 { TickKeeps(p, s); } else { SteadyTick(p, s); }
  }

  lemma StepOrders(p: Params, s: Sched, op: Op)
    requires Ordered(p, s) && Known(p, s) && Allowed(p, s, op)
    ensures Ordered(p, Apply(p, s, op))
  {
    match op
    case Stop(t, ts) => OrderedBlock(p, s, t, ts);
    case Wake(t, ts, onSame) => OrderedWake(p, s, t, ts, onSame);
    case WakeAll(ts) => OrderedWakeEach(p, s, ts);
    case Suspend(t) => OrderedSuspend(p, s, t);
    case RestartThread(t) => OrderedRestart(p, s, t);
    case Mark(t, ts) => OrderedMark(p, s, t, ts);
    case Reschedule => OrderedReschedule(p, s);
    case SetPriority(t, prio) => OrderedSetKey(p, s, t, Key(s.key[t].dom, prio));
    case SetDomain(t, dom) =>
      OwnPriority(p, s, t);
      OrderedSetKey(p, s, t, Key(dom, s.key[t].prio));
    case Yield => OrderedYield(p, s);
    case Tick => OrderedTick(p, s);
  }

  /** A ready thread's own priority never exceeds the current one's while that is to be resumed, with one domain. */
  lemma OwnPriority(p: Params, s: Sched, t: Tcb)
    requires Known(p, s) && Ordered(p, s) && t in s.state
    ensures p.cfg.numDomains == 1 && s.action.ResumeCurrentThread? && t != s.cur && Runnable(s.state[t]) ==>
      s.key[t].prio <= s.key[s.cur].prio
  {
    OrderedMeans(p, s);
    if p.cfg.numDomains == 1 { assert Settled(s, t); }
  }

  // ---- schedule() and activateThread() ----

  lemma SteadySchedule(p: Params, s: Sched)
    requires Steady(p, s) && Filed(p, s)
    ensures Steady(p, Schedule(p, s)) && Schedule(p, s).action == ResumeCurrentThread
  {
    if s.action.ChooseNewThread? {
      var s1 := Requeued(s);
      if Runnable(s.state[s.cur]) { SteadyEnqueue(p, s, s.cur); }
      FiledAfter(p, s, s.cur);
      var s2 := if s1.domainTime == 0 then NextDomain(p, s1) else s1;
      forall u: Tcb ensures QueuedRuns(s2, u) {
        assert QueuedRuns(s1, u);
      }
      SteadyChoose(p, s2);
    }
  }

  lemma SteadyChoose(p: Params, s: Sched)
    requires Steady(p, s) && Filed(p, s) && s.action.ChooseNewThread?
    ensures Steady(p, ChooseThread(p, s).(action := ResumeCurrentThread))
  {
    FirstReadyKnown(p, s, s.curDomain);
    var t := FirstReady(s.ready, s.curDomain);
    var s' := ChooseThread(p, s).(action := ResumeCurrentThread);
    assert QueuedRuns(s, t) && QueuedRuns(s, s.idle);
    forall u: Tcb ensures QueuedRuns(s', u) {
      assert QueuedRuns(s, u);
    }
  }

  lemma OrderedSchedule(p: Params, s: Sched)
    requires Known(p, s) && Ordered(p, s) && Filed(p, s)
    ensures s.cur in s.state && AtRest(p, Schedule(p, s))
  {
    OrderedMeans(p, s);
    if p.cfg.numDomains == 1 { ScheduleRests(p, s); } else { SteadySchedule(p, s); }
  }

  /** At rest the current thread can run, so activateThread never finds it blocked. */
  lemma ActivateRests(p: Params, s: Sched)
    requires Known(p, s) && AtRest(p, s)
    ensures s.cur in s.state && s.state[s.cur] in {Running, RunningVM, Restart, IdleThreadState}
    ensures AtRest(p, Activated(s)) && Activated(s).state[s.cur] in {Running, RunningVM, IdleThreadState}
  {
    OrderedMeans(p, s);
    if p.cfg.numDomains == 1 {
      CurrentCanRun(p, s);
    } else if s.state[s.cur].Restart? {
      SteadyBlock(p, s, s.cur, Running);
    }
  }

  /** Over all runs, with any number of domains: the scheduler is in order inside every entry and at rest after it. */
  lemma {:induction false} RunOrders(p: Params, s: Sched, entries: seq<seq<Op>>)
    requires AtRest(p, s) && Filed(p, s) && RunAllowed(p, s, entries)
    ensures AtRest(p, Run(p, s, entries)) && Filed(p, Run(p, s, entries))
    decreases |entries|
  {
    if entries != [] {
      StepsOrder(p, s, entries[0]);
      EntryEnds(p, Steps(p, s, entries[0]));
      RunOrders(p, Entry(p, s, entries[0]), entries[1..]);
    }
  }

  lemma {:induction false} StepsOrder(p: Params, s: Sched, ops: seq<Op>)
    requires Ordered(p, s) && Filed(p, s) && AllAllowed(p, s, ops)
    ensures Ordered(p, Steps(p, s, ops)) && Filed(p, Steps(p, s, ops))
    decreases |ops|
  {
    if ops != [] {
      StepOrders(p, s, ops[0]);
      StepFiles(p, s, ops[0]);
      StepsOrder(p, Apply(p, s, ops[0]), ops[1..]);
    }
  }

  lemma EntryEnds(p: Params, s: Sched)
    requires Ordered(p, s) && Filed(p, s)
    ensures Known(p, s) && AtRest(p, Activated(Schedule(p, s))) && Filed(p, Activated(Schedule(p, s)))
  {
    OrderedKnown(p, s);
    OrderedSchedule(p, s);
    ScheduleFiles(p, s);
    RestActivates(p, Schedule(p, s));
  }

  lemma RestActivates(p: Params, s: Sched)
    requires AtRest(p, s) && Filed(p, s)
    ensures AtRest(p, Activated(s)) && Filed(p, Activated(s))
  {
    OrderedKnown(p, s);
    ActivateRests(p, s);
    FiledState(p, s, Activated(s));
  }

  // ---- Threads lost track of ----

  /** Every runnable thread is current or queued. */
  ghost predicate Tracked(s: Sched) {
    forall t: Tcb :: TrackedAt(s, t)
  }

  ghost predicate TrackedAt(s: Sched, t: Tcb) {
    t in s.state && Runnable(s.state[t]) ==> Placeable(s, t)
  }

  /** A woken thread belongs to another domain, or something keeps track of it already. */
  ghost predicate Guarded(s: Sched, op: Op) {
    op.Wake? && op.t in s.key ==> s.key[op.t].dom != s.curDomain || Placeable(s, op.t)
  }

  /** A thread of the current domain that is woken while another one runs is lost: it could run, but schedule() neither
      switches to it nor finds it in a queue. */
  lemma SleeperLost(p: Params, s: Sched, t: Tcb, ts: ThreadState, onSame: bool)
    requires AtRest(p, s) && Known(p, s) && p.cfg.numDomains > 1 && t in s.state && t != s.cur && !Runnable(s.state[t])
    requires Runnable(ts) && s.key[t].dom == s.curDomain
    ensures var s' := Entry(p, s, [Wake(t, ts, onSame)]);
      t in s'.state && Runnable(s'.state[t]) && s'.cur != t && t in s'.queued && !s'.queued[t]
      && s'.action == ResumeCurrentThread
  {
    OrderedMeans(p, s);
    assert QueuedRuns(s, t);
    var op := Wake(t, ts, onSame);
    assert [op][1..] == [];
    var s1 := Apply(p, s, op);
    assert Steps(p, s, [op]) == Steps(p, s1, []) == s1;
    assert s1 == SetThreadState(s, t, ts) && Known(p, s1);
  }

  lemma TrackedAfter(s: Sched, s': Sched, t: Tcb)
    requires Tracked(s) && s'.cur == s.cur && s'.state.Keys == s.state.Keys
    requires forall u: Tcb :: u in s.queued && s.queued[u] && u != t ==> u in s'.queued && s'.queued[u]
    requires forall u: Tcb :: u in s'.state && u != t && Runnable(s'.state[u]) ==> Runnable(s.state[u])
    requires !s.action.SwitchTo? && TrackedAt(s', t)
    ensures Tracked(s')
  {
    forall u: Tcb ensures TrackedAt(s', u) {
      assert TrackedAt(s, u);
    }
  }

  lemma SetKeyTracks(p: Params, s: Sched, t: Tcb, k: Key)
    requires Steady(p, s) && Tracked(s) && t in s.state
    ensures Tracked(SetKey(s, t, k))
  {
    TrackedAfter(s, SetKey(s, t, k), t);
  }

  lemma StopTracks(p: Params, s: Sched, t: Tcb, ts: ThreadState)
    requires Steady(p, s) && Tracked(s) && t in s.state && (Runnable(ts) ==> Runnable(s.state[t]))
    ensures Tracked(SetThreadState(s, t, ts))
  {
    assert TrackedAt(s, t);
    TrackedAfter(s, SetThreadState(s, t, ts), t);
  }

  lemma SuspendTracks(p: Params, s: Sched, t: Tcb)
    requires Steady(p, s) && Tracked(s) && t in s.state
    ensures Tracked(Suspended(s, t))
  {
    TrackedAfter(s, Suspended(s, t), t);
  }

  lemma RestartTracks(p: Params, s: Sched, t: Tcb)
    requires Steady(p, s) && Tracked(s) && t in s.state && !Runnable(s.state[t])
    ensures Tracked(Restarted(p, s, t))
  {
    TrackedAfter(s, Restarted(p, s, t), t);
  }

  lemma YieldTracks(p: Params, s: Sched)
    requires Steady(p, s) && Tracked(s)
    ensures Tracked(Yielded(s))
  {
    TrackedAfter(s, Yielded(s), s.cur);
  }

  lemma TickTracks(p: Params, s: Sched)
    requires Steady(p, s) && Tracked(s)
    ensures Tracked(TimerTick(p, s))
  {
    TrackedAfter(s, TimerTick(p, s), s.cur);
  }

  lemma {:induction false} WakeEachTracks(p: Params, s: Sched, ts: seq<Tcb>)
    requires Known(p, s) && Tracked(s) && !s.action.SwitchTo? && forall t: Tcb :: t in ts ==> t in s.state
    ensures Known(p, WakeEach(s, ts)) && Tracked(WakeEach(s, ts)) && !WakeEach(s, ts).action.SwitchTo?
    decreases |ts|
  {
    if ts != [] {
      assert ts[0] in ts;
      WakeOneKnown(p, s, ts[0]);
      TrackedAfter(s, WakeOne(s, ts[0]), ts[0]);
      WakeEachTracks(p, WakeOne(s, ts[0]), ts[1..]);
    }
  }

  lemma WakeStays(p: Params, s: Sched, t: Tcb, ts: ThreadState, onSame: bool)
    requires Steady(p, s) && Tracked(s) && t in s.state && Runnable(ts)
    ensures Tracked(PossibleSwitchTo(p, SetThreadState(s, t, ts), t, onSame)) <==>
      s.key[t].dom != s.curDomain || Placeable(s, t)
  {
    var s1 := SetThreadState(s, t, ts);
    var s' := PossibleSwitchTo(p, s1, t, onSame);
    WakeTracks(p, s1, t, onSame);
    if Placeable(s', t) {
      TrackedAfter(s, s', t);
    } else {
      assert !TrackedAt(s', t);
    }
  }

  /** A step keeps track of all threads exactly when it is guarded. */
  lemma StepTracks(p: Params, s: Sched, op: Op)
    requires Steady(p, s) && Tracked(s) && Allowed(p, s, op)
    ensures Tracked(Apply(p, s, op)) <==> Guarded(s, op)
  {
    match op
    case Stop(t, ts) => StopTracks(p, s, t, ts);
    case Wake(t, ts, onSame) => WakeStays(p, s, t, ts, onSame);
    case WakeAll(ts) =>
      WakeEachTracks(p, s, ts);
      RescheduleTracks(WakeEach(s, ts));
    case Suspend(t) => SuspendTracks(p, s, t);
    case RestartThread(t) => RestartTracks(p, s, t);
    case Mark(t, ts) => StopTracks(p, s, t, ts);
    case Reschedule => RescheduleTracks(s);
    case SetPriority(t, prio) => SetKeyTracks(p, s, t, Key(s.key[t].dom, prio));
    case SetDomain(t, dom) => SetKeyTracks(p, s, t, Key(dom, s.key[t].prio));
    case Yield => YieldTracks(p, s);
    case Tick => TickTracks(p, s);
  }

  lemma RescheduleTracks(s: Sched)
    requires Tracked(s) && !s.action.SwitchTo?
    ensures Tracked(RescheduleRequired(s))
  {
    assert TrackedAt(s, s.cur);
    TrackedAfter(s, RescheduleRequired(s), s.cur);
  }

  /** Choosing a thread loses nobody, once a runnable current thread is queued. */
  lemma ChooseTracks(p: Params, s: Sched)
    requires Steady(p, s) && Filed(p, s) && Tracked(s) && s.action.ChooseNewThread?
    requires Runnable(s.state[s.cur]) ==> s.queued[s.cur]
    ensures Tracked(ChooseThread(p, s).(action := ResumeCurrentThread))
  {
    FirstReadyKnown(p, s, s.curDomain);
    var s' := ChooseThread(p, s).(action := ResumeCurrentThread);
    forall u: Tcb ensures TrackedAt(s', u) {
      assert TrackedAt(s, u);
    }
  }

  lemma ScheduleTracks(p: Params, s: Sched)
    requires Steady(p, s) && Filed(p, s) && Tracked(s)
    ensures Tracked(Schedule(p, s))
  {
    if s.action.ChooseNewThread? {
      var s1 := Requeued(s);
      if Runnable(s.state[s.cur]) { SteadyEnqueue(p, s, s.cur); }
      FiledAfter(p, s, s.cur);
      var s2 := if s1.domainTime == 0 then NextDomain(p, s1) else s1;
      NewDomainTracks(p, s, s1, s2);
      ChooseTracks(p, s2);
    }
  }

  lemma NewDomainTracks(p: Params, s: Sched, s1: Sched, s2: Sched)
    requires Steady(p, s1) && Tracked(s) && Known(p, s) && s1 == Requeued(s)
    requires s2 == if s1.domainTime == 0 then NextDomain(p, s1) else s1
    ensures Tracked(s2) && (s1.action.ChooseNewThread? ==> Steady(p, s2))
  {
    forall u: Tcb ensures TrackedAt(s2, u) && QueuedRuns(s2, u) {
      assert TrackedAt(s, u) && QueuedRuns(s1, u);
    }
  }

  lemma ActivateTracks(s: Sched)
    requires Tracked(s)
    ensures Tracked(Activated(s))
  {
    forall u: Tcb ensures TrackedAt(Activated(s), u) {
      assert TrackedAt(s, u);
    }
  }

  /** Every state the steps go through. */
  ghost predicate StepsTracked(p: Params, s: Sched, ops: seq<Op>)
    decreases |ops|
  {
    Tracked(s) && (ops != [] ==> StepsTracked(p, Apply(p, s, ops[0]), ops[1..]))
  }

  ghost predicate StepsGuarded(p: Params, s: Sched, ops: seq<Op>)
    decreases |ops|
  {
    ops != [] ==> Guarded(s, ops[0]) && StepsGuarded(p, Apply(p, s, ops[0]), ops[1..])
  }

  ghost predicate RunTracked(p: Params, s: Sched, entries: seq<seq<Op>>)
    decreases |entries|
  {
    Tracked(s) && (entries != [] ==>
                   StepsTracked(p, s, entries[0]) && RunTracked(p, Entry(p, s, entries[0]), entries[1..]))
  }

  ghost predicate RunGuarded(p: Params, s: Sched, entries: seq<seq<Op>>)
    decreases |entries|
  {
    entries != [] ==> StepsGuarded(p, s, entries[0]) && RunGuarded(p, Entry(p, s, entries[0]), entries[1..])
  }

  lemma {:induction false} StepsTrack(p: Params, s: Sched, ops: seq<Op>)
    requires p.cfg.numDomains > 1 && Ordered(p, s) && Filed(p, s) && Tracked(s) && AllAllowed(p, s, ops)
    ensures StepsTracked(p, s, ops) <==> StepsGuarded(p, s, ops)
    ensures StepsTracked(p, s, ops) ==> Tracked(Steps(p, s, ops))
    decreases |ops|
  {
    if ops != [] {
      OrderedMeans(p, s);
      StepTracks(p, s, ops[0]);
      if Guarded(s, ops[0]) {
        StepOrders(p, s, ops[0]);
        StepFiles(p, s, ops[0]);
        StepsTrack(p, Apply(p, s, ops[0]), ops[1..]);
      }
    }
  }

  lemma EntryTracks(p: Params, s: Sched)
    requires p.cfg.numDomains > 1 && Ordered(p, s) && Filed(p, s) && Tracked(s)
    ensures Known(p, s) && Tracked(Activated(Schedule(p, s)))
  {
    OrderedMeans(p, s);
    ScheduleTracks(p, s);
    ActivateTracks(Schedule(p, s));
  }

  /** With several domains, a run never loses track of a runnable thread exactly when every thread it wakes belongs to
      another than the current domain or is current or queued already. */
  lemma {:induction false} RunTracks(p: Params, s: Sched, entries: seq<seq<Op>>)
    requires p.cfg.numDomains > 1 && AtRest(p, s) && Filed(p, s) && Tracked(s) && RunAllowed(p, s, entries)
    ensures RunTracked(p, s, entries) <==> RunGuarded(p, s, entries)
    decreases |entries|
  {
    if entries != [] {
      StepsTrack(p, s, entries[0]);
      if StepsGuarded(p, s, entries[0]) {
        StepsOrder(p, s, entries[0]);
        EntryEnds(p, Steps(p, s, entries[0]));
        EntryTracks(p, Steps(p, s, entries[0]));
        RunTracks(p, Entry(p, s, entries[0]), entries[1..]);
      }
    }
  }
}
