/** What every run of kernel entries keeps of the scheduler's state. */
module SchedulerRuns {
  import opened LinkedQueue
  import opened PriorityBitmap
  import opened ReadyQueues
  import opened SchedulerState

  // ---- The invariant with one domain ----

  /** A queued thread is runnable, and a runnable thread is current, queued or about to be switched to. */
  ghost predicate Settled(s: Sched, t: Tcb)
    requires t in s.state && t in s.queued
  {
    && (s.queued[t] ==> Runnable(s.state[t]))
    && (Runnable(s.state[t]) ==> t == s.cur || s.queued[t] || s.action == SwitchTo(t))
  }

  ghost predicate NoneAbove(s: Sched, prio: nat) {
    forall t: Tcb :: t in s.queued && t in s.key && s.queued[t] ==> s.key[t].prio <= prio
  }

  /** What the pending scheduler action relies on. */
  ghost predicate ActionOk(s: Sched)
    requires s.cur in s.key && s.cur in s.state && s.cur in s.queued
  {
    match s.action
    case ResumeCurrentThread =>
      && (Runnable(s.state[s.cur]) || s.cur == s.idle) && !s.queued[s.cur] && NoneAbove(s, s.key[s.cur].prio)
    case ChooseNewThread => true
    case SwitchTo(t) =>
      && t in s.state && t in s.key && Runnable(s.state[t])
      && s.key[s.cur].prio <= s.key[t].prio && NoneAbove(s, s.key[t].prio)
  }

  ghost predicate IdleOk(s: Sched) {
    s.idle in s.state && s.state[s.idle] == IdleThreadState
  }

  /** The invariant inside a kernel entry; the threads in `loose` are being made ready or stopped. */
  ghost predicate Inv(p: Params, s: Sched, loose: set<Tcb>) {
    && p.cfg.numDomains == 1 && Known(p, s) && IdleOk(s) && ActionOk(s)
    && forall t: Tcb :: t in s.state && t !in loose ==> Settled(s, t)
  }

  /** At the end of a kernel entry: every runnable thread is current or queued, the current thread is runnable or
      idle, and no queued thread has a strictly higher priority. */
  ghost predicate Rested(p: Params, s: Sched) {
    Inv(p, s, {}) && s.action == ResumeCurrentThread
  }

  lemma RestedMeans(p: Params, s: Sched)
    requires Rested(p, s)
    ensures forall t: Tcb :: t in s.state && Runnable(s.state[t]) ==> t == s.cur || s.queued[t]
    ensures forall t: Tcb :: t in s.state && s.queued[t] ==> Runnable(s.state[t]) && s.key[t].prio <= s.key[s.cur].prio
    ensures Runnable(s.state[s.cur]) || s.cur == s.idle
  {
  }

  lemma EnqueueKeeps(p: Params, s: Sched, t: Tcb, loose: set<Tcb>)
    requires Inv(p, s, loose) && t in s.state && Runnable(s.state[t])
    requires s.action.ResumeCurrentThread? ==> t != s.cur && s.key[t].prio <= s.key[s.cur].prio
    requires s.action.SwitchTo? ==> s.key[t].prio <= s.key[s.action.target].prio
    ensures Inv(p, Enqueue(s, t), loose - {t})
  {
  }

  lemma RescheduleKeeps(p: Params, s: Sched, loose: set<Tcb>)
    requires Inv(p, s, loose)
    ensures Inv(p, RescheduleRequired(s), loose)
  {
  }

  lemma MarkedKeeps(p: Params, s: Sched, s': Sched, t: Tcb, loose: set<Tcb>)
    requires Inv(p, s, loose) && t in s.state && Runnable(s.state[t])
    requires s' == s.(queued := s'.queued, ready := s'.ready, action := ChooseNewThread)
    requires s'.queued.Keys == s.queued.Keys
    requires forall u: Tcb :: u in s.queued ==> (s'.queued[u] <==> s.queued[u] || u == t || s.action == SwitchTo(u))
    ensures Inv(p, s', loose - {t})
  {
  }

  /** Enqueueing at any priority, as the cancelling functions do, is safe once the action is ChooseNewThread. */
  lemma EnqueueAndReschedule(p: Params, s: Sched, t: Tcb, loose: set<Tcb>)
    requires Inv(p, s, loose) && t in s.state && Runnable(s.state[t])
    ensures Inv(p, RescheduleRequired(Enqueue(s, t)), loose - {t})
  {
    MarkedKeeps(p, s, RescheduleRequired(Enqueue(s, t)), t, loose);
  }

  lemma AppendAndReschedule(p: Params, s: Sched, t: Tcb, loose: set<Tcb>)
    requires Inv(p, s, loose) && t in s.state && Runnable(s.state[t])
    ensures Inv(p, RescheduleRequired(Append(s, t)), loose - {t})
  {
    MarkedKeeps(p, s, RescheduleRequired(Append(s, t)), t, loose);
  }

  /** A thread may change state freely as long as it counts as loose; the target of a pending switch must stay
      runnable. */
  lemma SetStateKeeps(p: Params, s: Sched, t: Tcb, ts: ThreadState, loose: set<Tcb>)
    requires Inv(p, s, loose) && t in s.state && t != s.idle
    requires !Runnable(ts) ==> s.action != SwitchTo(t)
    ensures Inv(p, SetThreadState(s, t, ts), loose + {t})
  {
  }

  /** A thread that is in no queue may block. */
  lemma BlockKeeps(p: Params, s: Sched, t: Tcb, ts: ThreadState, loose: set<Tcb>)
    requires Inv(p, s, loose) && t in s.state && t != s.idle && !Runnable(ts) && s.action != SwitchTo(t)
    requires !s.queued[t]
    ensures Inv(p, SetThreadState(s, t, ts), loose - {t})
  {
    SetStateKeeps(p, s, t, ts, loose);
    var s' := SetThreadState(s, t, ts);
    assert Settled(s', t);
    forall u: Tcb | u in s'.state && u !in loose - {t} ensures Settled(s', u) {
      assert u == t || u !in loose + {t};
    }
  }

  lemma PossibleSwitchKeeps(p: Params, s: Sched, t: Tcb, onSame: bool, loose: set<Tcb>)
    requires Inv(p, s, loose) && t in s.state && Runnable(s.state[t]) && (t == s.cur ==> onSame)
    ensures t in s.key && s.cur in s.key && Inv(p, PossibleSwitchTo(p, s, t, onSame), loose - {t})
  {
    if s.action.SwitchTo? {
      EnqueueAndReschedule(p, s, t, loose);
    } else if s.action.ChooseNewThread? || s.key[t].prio < s.key[s.cur].prio
           || (s.key[t].prio == s.key[s.cur].prio && !onSame) {
      EnqueueKeeps(p, s, t, loose);
    }
  }

  lemma DequeueKeeps(p: Params, s: Sched, t: Tcb, loose: set<Tcb>)
    requires Inv(p, s, loose) && t in s.state
    ensures Inv(p, Dequeue(s, t), loose + {t})
    ensures !Runnable(s.state[t]) ==> Inv(p, Dequeue(s, t), loose - {t})
  {
  }

  lemma SuspendKeeps(p: Params, s: Sched, t: Tcb)
    requires Inv(p, s, {}) && t in s.state && t != s.idle && s.action != SwitchTo(t)
    ensures Inv(p, Suspended(s, t), {})
  {
    SetStateKeeps(p, s, t, Inactive, {});
    DequeueKeeps(p, SetThreadState(s, t, Inactive), t, {t});
    assert {t} - {t} == {};
  }

  lemma RekeyKeeps(p: Params, s: Sched, t: Tcb, k: Key)
    requires Inv(p, s, {t}) && t in s.state && !s.queued[t]
    requires !s.action.SwitchTo? && (s.action.ResumeCurrentThread? ==> t != s.cur)
    ensures Inv(p, s.(key := s.key[t := k]), {t})
  {
  }

  /** The priority cap of decodeSetPriority is what makes setPriority safe. */
  lemma SetKeyKeeps(p: Params, s: Sched, t: Tcb, k: Key)
    requires Inv(p, s, {}) && t in s.state && t != s.idle
    requires !s.action.SwitchTo?
    requires s.action.ResumeCurrentThread? && t != s.cur && Runnable(s.state[t]) ==> k.prio <= s.key[s.cur].prio
    ensures Inv(p, SetKey(s, t, k), {})
  {
    if t == s.cur {
      RescheduleKeeps(p, s, {});
      SetOwnKey(p, s.(action := ChooseNewThread), t, k);
    } else {
      SetOwnKey(p, s, t, k);
    }
  }

  /** Nothing weaker than the cap would do: re-prioritising another ready thread leaves the scheduler at rest exactly
      when the new priority is at most that of the current thread. */
  lemma PriorityCap(p: Params, s: Sched, t: Tcb, k: Key)
    requires Rested(p, s) && t in s.state && t != s.cur && Runnable(s.state[t])
    ensures Rested(p, SetKey(s, t, k)) <==> k.prio <= s.key[s.cur].prio
  {
    if k.prio <= s.key[s.cur].prio {
      SetKeyKeeps(p, s, t, k);
    } else {
      var s' := SetKey(s, t, k);
      assert s'.queued[t] && s'.key[t].prio > s'.key[s'.cur].prio;
    }
  }

  lemma SetOwnKey(p: Params, s: Sched, t: Tcb, k: Key)
    requires Inv(p, s, {}) && t in s.state
    requires s.action.ChooseNewThread? || (s.action.ResumeCurrentThread? && t != s.cur)
    requires s.action.ResumeCurrentThread? && Runnable(s.state[t]) ==> k.prio <= s.key[s.cur].prio
    ensures var s2 := Dequeue(s, t).(key := s.key[t := k]);
      Inv(p, if Runnable(s2.state[t]) then Enqueue(s2, t) else s2, {})
  {
    var s2 := Dequeue(s, t).(key := s.key[t := k]);
    DequeueKeeps(p, s, t, {});
    assert {} + {t} == {t} && {t} - {t} == {};
    RekeyKeeps(p, Dequeue(s, t), t, k);
    if Runnable(s2.state[t]) {
      EnqueueKeeps(p, s2, t, {t});
    }
  }

  lemma TickKeeps(p: Params, s: Sched)
    requires Inv(p, s, {})
    ensures Inv(p, TimerTick(p, s), {})
  {
    var s1 := s.(slice := s.slice[s.cur := p.timeSlice]);
    if Runnable(s.state[s.cur]) && s.slice[s.cur] <= 1 {
      assert Inv(p, s1, {});
      AppendAndReschedule(p, s1, s.cur, {});
      assert {} - {s.cur} == {};
    }
  }

  lemma YieldKeeps(p: Params, s: Sched)
    requires Inv(p, s, {}) && Runnable(s.state[s.cur])
    ensures Inv(p, Yielded(s), {})
  {
    DequeueKeeps(p, s, s.cur, {});
    assert {} + {s.cur} - {s.cur} == {};
    AppendAndReschedule(p, Dequeue(s, s.cur), s.cur, {} + {s.cur});
  }

  ghost function Requeued(s: Sched): Sched
    requires s.cur in s.state
  {
    if Runnable(s.state[s.cur]) then Enqueue(s, s.cur) else s
  }

  lemma RequeueKeeps(p: Params, s: Sched)
    requires Inv(p, s, {}) && !s.action.ResumeCurrentThread?
    ensures Inv(p, Requeued(s), {}) && (Runnable(s.state[s.cur]) ==> Requeued(s).queued[s.cur])
  {
    if Runnable(s.state[s.cur]) {
      EnqueueKeeps(p, s, s.cur, {});
    }
    assert {} - {s.cur} == {};
  }

  lemma ScheduleRestsWith(p: Params, s: Sched, t: Tcb)
    requires Inv(p, s, {}) && t == FirstReady(Requeued(s).ready, 0)
    requires (s.action.ChooseNewThread? ==> IsTop(Requeued(s), t))
    ensures Rested(p, Schedule(p, s))
  {
    if !s.action.ResumeCurrentThread? {
      RequeueKeeps(p, s);
      if s.action.ChooseNewThread? {
        ChosenRests(p, Requeued(s), t);
      } else {
        SwitchRests(p, Requeued(s));
      }
    }
  }

  lemma FoundTop(p: Params, s: Sched)
    requires p.cfg.numDomains == 1 && Known(p, s) && Filed(p, s)
    ensures IsTop(Requeued(s), FirstReady(Requeued(s).ready, 0))
  {
    FiledAfter(p, s, s.cur);
    FoundInOnlyDomain(p, Requeued(s));
  }

  /** schedule() ends every kernel entry in a state of rest. */
  lemma ScheduleRests(p: Params, s: Sched)
    requires Inv(p, s, {}) && Filed(p, s)
    ensures Rested(p, Schedule(p, s))
  {
    FoundTop(p, s);
    ScheduleRestsWith(p, s, FirstReady(Requeued(s).ready, 0));
  }

  lemma ScheduleFiles(p: Params, s: Sched)
    requires ParamsOk(p) && s.cur in s.state && Filed(p, s)
    ensures Filed(p, Schedule(p, s))
  {
    FiledAfter(p, s, s.cur);
    if s.action.SwitchTo? {
      FiledAfter(p, Requeued(s), s.action.target);
    } else if s.action.ChooseNewThread? {
      var s2 := if p.cfg.numDomains > 1 && Requeued(s).domainTime == 0 then NextDomain(p, Requeued(s)) else Requeued(s);
      ChooseFiles(p, s2);
    }
  }

  lemma ChooseFiles(p: Params, s: Sched)
    requires Filed(p, s)
    ensures Filed(p, ChooseThread(p, s))
  {
    FiledAfter(p, s, FirstReady(s.ready, DomainOf(p, s)));
  }

  lemma SwitchRests(p: Params, s: Sched)
    requires Inv(p, s, {}) && s.action.SwitchTo? && (Runnable(s.state[s.cur]) ==> s.queued[s.cur])
    ensures Rested(p, Dequeue(s, s.action.target).(cur := s.action.target, action := ResumeCurrentThread))
  {
  }

  ghost predicate IsTop(s: Sched, t: Tcb) {
    if t == NULL then forall u: Tcb :: u in s.queued ==> !s.queued[u]
    else t in s.state && t in s.queued && t in s.key && s.queued[t] && NoneAbove(s, s.key[t].prio)
  }

  lemma FoundInOnlyDomain(p: Params, s: Sched)
    requires p.cfg.numDomains == 1 && Known(p, s) && Filed(p, s)
    ensures IsTop(s, FirstReady(s.ready, 0))
  {
    FirstReadyKnown(p, s, 0);
    forall u: Tcb | u in s.key ensures s.key[u].dom == 0 {
      OneThread(p.cfg, s.queued, s.key, s.ready, u);
    }
  }

  lemma ChosenRests(p: Params, s: Sched, t: Tcb)
    requires Inv(p, s, {}) && s.action.ChooseNewThread? && (Runnable(s.state[s.cur]) ==> s.queued[s.cur])
    requires IsTop(s, t)
    ensures Rested(p,
      (if t == NULL then s.(cur := s.idle) else Dequeue(s, t).(cur := t)).(action := ResumeCurrentThread))
  {
  }

  // ---- Runs ----

  /** The steps the kernel takes between entry and schedule(), as far as the scheduler sees them. */
  datatype Op =
    | Stop(t: Tcb, ts: ThreadState)                // setThreadState of a thread in no queue
    | Wake(t: Tcb, ts: ThreadState, onSame: bool)  // setThreadState, then attemptSwitchTo or switchIfRequiredTo
    | WakeAll(threads: seq<Tcb>)                   // epCancelAll, aepCancelAll
    | Suspend(t: Tcb)
    | RestartThread(t: Tcb)                        // restart of a blocked thread
    | Mark(t: Tcb, ts: ThreadState)                // setThreadState of a runnable thread, as invocations do
    | Reschedule                                   // rescheduleRequired
    | SetPriority(t: Tcb, prio: nat)
    | SetDomain(t: Tcb, dom: nat)
    | Yield
    | Tick

  ghost function WakeOne(s: Sched, t: Tcb): Sched {
    Enqueue(SetThreadState(s, t, Restart), t)
  }

  ghost function WakeEach(s: Sched, ts: seq<Tcb>): Sched
    decreases |ts|
  {
    if ts == [] then s else WakeEach(WakeOne(s, ts[0]), ts[1..])
  }

  /** restart, once the thread waits for nothing: it is queued even if it is also switched to. */
  ghost function Restarted(p: Params, s: Sched, t: Tcb): Sched
    requires t in s.key && s.cur in s.key
  {
    PossibleSwitchTo(p, WakeOne(s, t), t, false)
  }

  ghost function Apply(p: Params, s: Sched, op: Op): Sched {
    if !Known(p, s) || !Names(s, op) then s
    else
      match op
      case Stop(t, ts) => SetThreadState(s, t, ts)
      case Wake(t, ts, onSame) => PossibleSwitchTo(p, SetThreadState(s, t, ts), t, onSame)
      case WakeAll(ts) => RescheduleRequired(WakeEach(s, ts))
      case Suspend(t) => Suspended(s, t)
      case RestartThread(t) => Restarted(p, s, t)
      case Mark(t, ts) => SetThreadState(s, t, ts)
      case Reschedule => RescheduleRequired(s)
      case SetPriority(t, prio) => SetKey(s, t, Key(s.key[t].dom, prio))
      case SetDomain(t, dom) => SetKey(s, t, Key(dom, s.key[t].prio))
      case Yield => Yielded(s)
      case Tick => TimerTick(p, s)
  }

  /** The threads an operation names exist. */
  ghost predicate Names(s: Sched, op: Op) {
    match op
    case WakeAll(ts) => forall t: Tcb :: t in ts ==> t in s.state
    case Yield => true
    case Tick => true
    case Reschedule => true
    case _ => op.t in s.state
  }

  /** What the kernel's own checks and queue discipline guarantee of a step. */
  ghost predicate Allowed(p: Params, s: Sched, op: Op)
    requires Known(p, s)
  {
    && Names(s, op)
    && match op
       case Stop(t, ts) => t != s.idle && !Runnable(ts) && !s.queued[t] && s.action != SwitchTo(t)
       case Wake(t, ts, onSame) => t != s.idle && Runnable(ts) && (t == s.cur ==> onSame)
       case WakeAll(ts) => s.idle !in ts
       case Suspend(t) => t != s.idle && s.action != SwitchTo(t)
       case RestartThread(t) => t != s.idle && Blocked(s.state[t])
       case Mark(t, ts) => t != s.idle && Runnable(s.state[t]) && Runnable(ts)
       case Reschedule => true
       case SetPriority(t, prio) =>
         t != s.idle && prio < p.cfg.numPrios && prio <= s.key[s.cur].prio && !s.action.SwitchTo?
       case SetDomain(t, dom) =>
         t != s.idle && dom < p.cfg.numDomains && !s.action.SwitchTo?
       case Yield => Runnable(s.state[s.cur])
       case Tick => true
  }

  ghost function Steps(p: Params, s: Sched, ops: seq<Op>): Sched
    decreases |ops|
  {
    if ops == [] then s else Steps(p, Apply(p, s, ops[0]), ops[1..])
  }

  ghost predicate AllAllowed(p: Params, s: Sched, ops: seq<Op>)
    decreases |ops|
  {
    ops != [] ==> Known(p, s) && Allowed(p, s, ops[0]) && AllAllowed(p, Apply(p, s, ops[0]), ops[1..])
  }

  /** activateThread: a thread that is to restart runs. */
  ghost function Activated(s: Sched): Sched {
    if s.cur in s.state && s.state[s.cur].Restart? then SetThreadState(s, s.cur, Running) else s
  }

  ghost function Scheduled(p: Params, s: Sched): Sched {
    if Known(p, s) then Schedule(p, s) else s
  }

  /** A kernel entry is a series of steps ended by schedule() and activateThread(). */
  ghost function Entry(p: Params, s: Sched, ops: seq<Op>): Sched {
    var s' := Steps(p, s, ops);
    if Known(p, s') then Activated(Schedule(p, s')) else s'
  }

  ghost function Run(p: Params, s: Sched, entries: seq<seq<Op>>): Sched
    decreases |entries|
  {
    if entries == [] then s else Run(p, Entry(p, s, entries[0]), entries[1..])
  }

  ghost predicate RunAllowed(p: Params, s: Sched, entries: seq<seq<Op>>)
    decreases |entries|
  {
    entries != [] ==> AllAllowed(p, s, entries[0]) && RunAllowed(p, Entry(p, s, entries[0]), entries[1..])
  }

  lemma WakeOneKnown(p: Params, s: Sched, t: Tcb)
    requires Known(p, s) && t in s.state
    ensures Known(p, WakeOne(s, t)) && WakeOne(s, t).idle == s.idle && WakeOne(s, t).state.Keys == s.state.Keys
  {
  }

  lemma WakeOneIs(p: Params, s: Sched, t: Tcb)
    requires Known(p, s) && t in s.state
    ensures var s1 := SetThreadState(RescheduleRequired(s), t, Restart);
      var s2 := RescheduleRequired(WakeOne(s, t));
      && s2 == s1.(queued := s2.queued, ready := s2.ready, action := ChooseNewThread)
      && s2.queued.Keys == s1.queued.Keys
      && forall u: Tcb :: u in s1.queued ==> (s2.queued[u] <==> s1.queued[u] || u == t)
  {
    var s0 := SetThreadState(s, t, Restart);
    RescheduleIs(p, s);
    EnqueueIs(s0, t);
    RescheduleIs(p, WakeOne(s, t));
    assert s0.queued == s.queued || s0 == RescheduleRequired(s).(state := s0.state);
  }

  lemma RescheduleIs(p: Params, s: Sched)
    requires s.action.SwitchTo? ==> s.action.target in s.queued && s.action.target in s.key
    ensures var s' := RescheduleRequired(s);
      && s' == s.(queued := s'.queued, ready := s'.ready, action := ChooseNewThread)
      && s'.queued == if s.action.SwitchTo? then s.queued[s.action.target := true] else s.queued
  {
    if s.action.SwitchTo? { EnqueueIs(s, s.action.target); }
  }

  lemma EnqueueIs(s: Sched, t: Tcb)
    requires t in s.queued && t in s.key
    ensures var s' := Enqueue(s, t);
      s' == s.(queued := s'.queued, ready := s'.ready) && s'.queued == s.queued[t := true]
  {
  }

  lemma WakeOneKeeps(p: Params, s: Sched, t: Tcb)
    requires Inv(p, RescheduleRequired(s), {}) && Known(p, s) && t in s.state && t != s.idle
    ensures Inv(p, RescheduleRequired(WakeOne(s, t)), {})
  {
    var s0 := RescheduleRequired(s);
    WakeOneIs(p, s, t);
    SetStateKeeps(p, s0, t, Restart, {});
    MarkedKeeps(p, SetThreadState(s0, t, Restart), RescheduleRequired(WakeOne(s, t)), t, {} + {t});
    assert {} + {t} - {t} == {};
  }

  lemma {:induction false} WakeEachKeeps(p: Params, s: Sched, ts: seq<Tcb>)
    requires Inv(p, RescheduleRequired(s), {}) && Known(p, s) && s.idle !in ts
    requires forall t: Tcb :: t in ts ==> t in s.state
    ensures Known(p, WakeEach(s, ts)) && Inv(p, RescheduleRequired(WakeEach(s, ts)), {})
    decreases |ts|
  {
    if ts != [] {
      assert ts[0] in ts;
      WakeOneKnown(p, s, ts[0]);
      WakeOneKeeps(p, s, ts[0]);
      WakeEachKeeps(p, WakeOne(s, ts[0]), ts[1..]);
    }
  }

  lemma WakeKeeps(p: Params, s: Sched, t: Tcb, ts: ThreadState, onSame: bool)
    requires Inv(p, s, {}) && t in s.state && t != s.idle && Runnable(ts) && (t == s.cur ==> onSame)
    ensures Inv(p, PossibleSwitchTo(p, SetThreadState(s, t, ts), t, onSame), {})
  {
    SetStateKeeps(p, s, t, ts, {});
    PossibleSwitchKeeps(p, SetThreadState(s, t, ts), t, onSame, {} + {t});
    assert {} + {t} - {t} == {};
  }

  /** A runnable thread stays runnable. */
  lemma MarkKeeps(p: Params, s: Sched, t: Tcb, ts: ThreadState)
    requires Inv(p, s, {}) && t in s.state && t != s.idle && Runnable(s.state[t]) && Runnable(ts)
    ensures Inv(p, SetThreadState(s, t, ts), {}) && SetThreadState(s, t, ts).action == s.action
  {
    SetStateKeeps(p, s, t, ts, {});
    var s' := SetThreadState(s, t, ts);
    assert Settled(s, t);
    forall u: Tcb | u in s'.state ensures Settled(s', u) {
      assert u == t || u !in {} + {t};
    }
  }

  /** A thread that waits, or waits for a reply, is in no ready queue. */
  lemma BlockedIsUnqueued(p: Params, s: Sched, t: Tcb)
    requires Inv(p, s, {}) && t in s.state && !Runnable(s.state[t])
    ensures !s.queued[t] && s.action != SwitchTo(t)
  {
    assert Settled(s, t);
  }

  lemma RestartKeeps(p: Params, s: Sched, t: Tcb)
    requires Inv(p, s, {}) && t in s.state && t != s.idle && !Runnable(s.state[t])
    ensures Inv(p, Restarted(p, s, t), {})
  {
    SetStateKeeps(p, s, t, Restart, {});
    var s1 := SetThreadState(s, t, Restart);
    assert {} + {t} - {t} == {};
    BlockedIsUnqueued(p, s, t);
    if s.action.SwitchTo? {
      EnqueueAndReschedule(p, s1, t, {} + {t});
    } else if s.action.ChooseNewThread? || s.key[t].prio <= s.key[s.cur].prio {
      EnqueueKeeps(p, s1, t, {} + {t});
    }
  }

  /** At rest the current thread can run, so activateThread never finds it blocked. */
  lemma CurrentCanRun(p: Params, s: Sched)
    requires Rested(p, s)
    ensures s.state[s.cur] in {Running, RunningVM, Restart, IdleThreadState}
    ensures Rested(p, Activated(s)) && Activated(s).state[s.cur] in {Running, RunningVM, IdleThreadState}
  {
    if s.state[s.cur].Restart? {
      MarkKeeps(p, s, s.cur, Running);
    }
  }

  lemma StepKeeps(p: Params, s: Sched, op: Op)
    requires Inv(p, s, {}) && Allowed(p, s, op)
    ensures Inv(p, Apply(p, s, op), {})
  {
    match op
    case Stop(t, ts) =>
      BlockKeeps(p, s, t, ts, {});
      assert {} - {t} == {};
    case Wake(t, ts, onSame) => WakeKeeps(p, s, t, ts, onSame);
    case WakeAll(ts) =>
      RescheduleKeeps(p, s, {});
      WakeEachKeeps(p, s, ts);
    case Suspend(t) => SuspendKeeps(p, s, t);
    case RestartThread(t) => RestartKeeps(p, s, t);
    case Mark(t, ts) => MarkKeeps(p, s, t, ts);
    case Reschedule => RescheduleKeeps(p, s, {});
    case SetPriority(t, prio) =>
      SetKeyKeeps(p, s, t, Key(s.key[t].dom, prio));
    case SetDomain(t, dom) =>
      SetKeyKeeps(p, s, t, Key(dom, s.key[t].prio));
    case Yield => YieldKeeps(p, s);
    case Tick => TickKeeps(p, s);
  }

  // ---- The ready queues keep filing every queued thread ----

  lemma FiledState(p: Params, s: Sched, s': Sched)
    requires Filed(p, s) && s'.queued == s.queued && s'.key == s.key && s'.ready == s.ready
    ensures Filed(p, s')
  {
  }

  lemma {:induction false} WakeEachFiles(p: Params, s: Sched, ts: seq<Tcb>)
    requires Filed(p, s)
    ensures Filed(p, WakeEach(s, ts))
    decreases |ts|
  {
    if ts != [] {
      FiledState(p, s, SetThreadState(s, ts[0], Restart));
      FiledAfter(p, SetThreadState(s, ts[0], Restart), ts[0]);
      WakeEachFiles(p, WakeOne(s, ts[0]), ts[1..]);
    }
  }

  lemma RescheduleFiles(p: Params, s: Sched)
    requires Filed(p, s)
    ensures Filed(p, RescheduleRequired(s))
  {
    if s.action.SwitchTo? {
      FiledAfter(p, s, s.action.target);
    }
  }

  lemma SetKeyFiles(p: Params, s: Sched, t: Tcb, k: Key)
    requires Filed(p, s) && t in s.state && t in s.queued && Legal(p.cfg, k)
    ensures Filed(p, SetKey(s, t, k))
  {
    FiledAfter(p, s, t);
    Refiled(p, Dequeue(s, t), t, k);
    RejoinFiles(p, Dequeue(s, t).(key := Dequeue(s, t).key[t := k]), t);
  }

  lemma RejoinFiles(p: Params, s: Sched, t: Tcb)
    requires Filed(p, s) && t in s.state
    ensures var s' := if Runnable(s.state[t]) then Enqueue(s, t) else s;
      Filed(p, s') && Filed(p, RescheduleRequired(s'))
  {
    FiledAfter(p, s, t);
    RescheduleFiles(p, if Runnable(s.state[t]) then Enqueue(s, t) else s);
  }

  lemma TickFiles(p: Params, s: Sched)
    requires Filed(p, s) && s.cur in s.state && s.cur in s.slice
    ensures Filed(p, TimerTick(p, s))
  {
    TickSliceFiles(p, s);
    var s2 := TickSlice(p, s);
    var s3 := s2.(domainTime := if s2.domainTime == 0 then 0xFFFF_FFFF else s2.domainTime - 1);
    FiledState(p, s2, s3);
    RescheduleFiles(p, s3);
  }

  lemma TickSliceFiles(p: Params, s: Sched)
    requires Filed(p, s) && s.cur in s.state && s.cur in s.slice
    ensures Filed(p, TickSlice(p, s))
  {
    var s1 := s.(slice := s.slice[s.cur := p.timeSlice]);
    FiledState(p, s, s1);
    FiledAfter(p, s1, s.cur);
    RescheduleFiles(p, Append(s1, s.cur));
  }

  lemma PossibleSwitchFiles(p: Params, s: Sched, t: Tcb, onSame: bool)
    requires Filed(p, s) && t in s.key && s.cur in s.key
    ensures Filed(p, PossibleSwitchTo(p, s, t, onSame))
  {
    FiledAfter(p, s, t);
    RescheduleFiles(p, Enqueue(s, t));
  }

  lemma RestartFiles(p: Params, s: Sched, t: Tcb)
    requires Known(p, s) && Filed(p, s) && t in s.state && !Runnable(s.state[t])
    ensures Filed(p, Restarted(p, s, t))
  {
    FiledState(p, s, SetThreadState(s, t, Restart));
    FiledAfter(p, SetThreadState(s, t, Restart), t);
    PossibleSwitchFiles(p, WakeOne(s, t), t, false);
  }

  lemma StepFiles(p: Params, s: Sched, op: Op)
    requires Known(p, s) && Filed(p, s) && Allowed(p, s, op)
    ensures Filed(p, Apply(p, s, op))
  {
    match op
    case Stop(t, ts) =>
    case Wake(t, ts, onSame) =>
      FiledState(p, s, SetThreadState(s, t, ts));
      PossibleSwitchFiles(p, SetThreadState(s, t, ts), t, onSame);
    case WakeAll(ts) =>
      WakeEachFiles(p, s, ts);
      RescheduleFiles(p, WakeEach(s, ts));
    case Suspend(t) =>
      FiledAfter(p, SetThreadState(s, t, Inactive), t);
    case RestartThread(t) => RestartFiles(p, s, t);
    case Mark(t, ts) => FiledState(p, s, SetThreadState(s, t, ts));
    case Reschedule => RescheduleFiles(p, s);
    case SetPriority(t, prio) =>
      OneThread(p.cfg, s.queued, s.key, s.ready, t);
      SetKeyFiles(p, s, t, Key(s.key[t].dom, prio));
    case SetDomain(t, dom) =>
      OneThread(p.cfg, s.queued, s.key, s.ready, t);
      SetKeyFiles(p, s, t, Key(dom, s.key[t].prio));
    case Yield =>
      FiledAfter(p, s, s.cur);
      FiledAfter(p, Dequeue(s, s.cur), s.cur);
      RescheduleFiles(p, Append(Dequeue(s, s.cur), s.cur));
    case Tick => TickFiles(p, s);
  }

  lemma {:induction false} StepsKeep(p: Params, s: Sched, ops: seq<Op>)
    requires Inv(p, s, {}) && Filed(p, s) && AllAllowed(p, s, ops)
    ensures Inv(p, Steps(p, s, ops), {}) && Filed(p, Steps(p, s, ops))
    decreases |ops|
  {
    if ops != [] {
      StepKeeps(p, s, ops[0]);
      StepFiles(p, s, ops[0]);
      StepsKeep(p, Apply(p, s, ops[0]), ops[1..]);
    }
  }

  /** Over all runs of kernel entries, with one domain, the scheduler comes to rest after every entry. */
  lemma {:induction false} RunRests(p: Params, s: Sched, entries: seq<seq<Op>>)
    requires Rested(p, s) && Filed(p, s) && RunAllowed(p, s, entries)
    ensures Rested(p, Run(p, s, entries)) && Filed(p, Run(p, s, entries))
    decreases |entries|
  {
    if entries != [] {
      StepsKeep(p, s, entries[0]);
      ScheduleRests(p, Steps(p, s, entries[0]));
      ScheduleFiles(p, Steps(p, s, entries[0]));
      CurrentCanRun(p, Schedule(p, Steps(p, s, entries[0])));
      RunRests(p, Entry(p, s, entries[0]), entries[1..]);
    }
  }

  // ---- More than one domain ----

  /** The thread will be found by schedule(): it is current, queued or about to be switched to. */
  ghost predicate Placeable(s: Sched, t: Tcb) {
    t == s.cur || (t in s.queued && s.queued[t]) || s.action == SwitchTo(t)
  }

  /** With more than one domain, possibleSwitchTo keeps track of a woken thread exactly when the thread belongs to
      another domain, or something else keeps track of it already. */
  lemma WakeTracks(p: Params, s: Sched, t: Tcb, onSame: bool)
    requires Known(p, s) && t in s.state && p.cfg.numDomains > 1
    ensures Placeable(PossibleSwitchTo(p, s, t, onSame), t) <==> s.key[t].dom != s.curDomain || Placeable(s, t)
  {
  }

  /** The single-domain branch always does. */
  lemma WakeTracksAlone(p: Params, s: Sched, t: Tcb, onSame: bool)
    requires Known(p, s) && t in s.state && p.cfg.numDomains == 1
    ensures Placeable(PossibleSwitchTo(p, s, t, onSame), t)
  {
  }
}
