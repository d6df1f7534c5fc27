/** What one thread's blocking, waking or stopping does to all invariants at once. */
module IpcSteps {
  import opened LinkedQueue
  import opened PriorityBitmap
  import opened SchedulerState
  import opened SchedulerRuns
  import opened DomainRuns
  import opened IpcState

  datatype Aspect = Scheduling | EndpointQueues | ReplyLinks

  ghost predicate AspectOk(a: Aspect, p: Params, s: Sched, q: Queues, r: Replies) {
    match a
    case Scheduling => Known(p, s) && IdleOk(s) && Ordered(p, s)
    case EndpointQueues => Consistent(q, s.state)
    case ReplyLinks => Paired(r, s.state)
  }

  /** The scheduler's state is in order, and the queues and the reply links agree with the thread states. */
  ghost predicate AllOk(p: Params, s: Sched, q: Queues, r: Replies) {
    forall a: Aspect :: AspectOk(a, p, s, q, r)
  }

  lemma AllAspects(p: Params, s: Sched, q: Queues, r: Replies)
    requires AllOk(p, s, q, r)
    ensures Known(p, s) && IdleOk(s) && Consistent(q, s.state) && Paired(r, s.state) && Ordered(p, s)
  {
    assert AspectOk(Scheduling, p, s, q, r) && AspectOk(EndpointQueues, p, s, q, r) && AspectOk(ReplyLinks, p, s, q, r);
  }

  /** A running thread the kernel is working for: it is in no queue and is not what the kernel will switch to. */
  ghost predicate Engaged(s: Sched, t: Tcb) {
    && t in s.state && t in s.queued && Runnable(s.state[t]) && !s.queued[t] && s.action != SwitchTo(t)
  }

  lemma BlockOk(p: Params, s: Sched, q: Queues, r: Replies, t: Tcb, o: Obj, ts: ThreadState)
    requires AllOk(p, s, q, r) && Engaged(s, t) && Waits(ts)
    requires o in q.waiting && o in q.queues && o in q.state && (q.state[o] == Idle || q.state[o] == WaitState(ts))
    requires Fits(o, WaitState(ts)) && (ts == BlockedOnReceive ==> CallerSlot(t) !in r.caps)
    ensures AllOk(p, SetThreadState(s, t, ts), Joined(q, t, o, WaitState(ts)), r)
  {
    AllAspects(p, s, q, r);
    Joins(q, s.state, t, o, ts);
    assert LinkAt(r, s.state, t);
    StateKeepsPairs(r, s.state, t, ts);
    OrderedBlock(p, s, t, ts);
  }

  /** A waiting thread leaves its queue and becomes ready. */
  lemma WakeOk(p: Params, s: Sched, q: Queues, r: Replies, t: Tcb, ts: ThreadState, onSame: bool)
    requires AllOk(p, s, q, r) && t in s.state && Waits(s.state[t]) && Runnable(ts)
    ensures t in q.at && t in q.next && t in q.prev && q.at[t] in q.queues && q.at[t] in q.waiting && q.at[t] in q.state
    ensures t in s.key && s.cur in s.key
    ensures AllOk(p, PossibleSwitchTo(p, SetThreadState(s, t, ts), t, onSame), Left(q, t, q.at[t]), r)
  {
    AllAspects(p, s, q, r);
    Leaves(q, s.state, t, ts);
    assert LinkAt(r, s.state, t);
    StateKeepsPairs(r, s.state, t, ts);
    SwitchKnown(p, SetThreadState(s, t, ts), t, onSame);
    OrderedWake(p, s, t, ts, onSame);
  }

  ghost predicate SameThreads(s: Sched, s': Sched) {
    s'.state == s.state && s'.cur == s.cur && s'.idle == s.idle
  }

  lemma EnqueueKnown(p: Params, s: Sched, t: Tcb)
    requires Known(p, s)
    ensures Known(p, Enqueue(s, t)) && SameThreads(s, Enqueue(s, t))
  {
  }

  lemma RescheduleKnown(p: Params, s: Sched)
    requires Known(p, s)
    ensures Known(p, RescheduleRequired(s)) && SameThreads(s, RescheduleRequired(s))
  {
  }

  lemma SwitchKnown(p: Params, s: Sched, t: Tcb, onSame: bool)
    requires Known(p, s) && IdleOk(s) && t in s.state
    ensures var s' := PossibleSwitchTo(p, s, t, onSame); Known(p, s') && IdleOk(s') && s'.state == s.state
  {
    EnqueueKnown(p, s, t);
    RescheduleKnown(p, Enqueue(s, t));
  }

  lemma SwitchState(p: Params, s: Sched, t: Tcb, onSame: bool)
    requires t in s.key && s.cur in s.key
    ensures PossibleSwitchTo(p, s, t, onSame).state == s.state
  {
  }

  /** Waking one thread leaves the engaged one alone. */
  lemma SwitchSpares(p: Params, s: Sched, t: Tcb, onSame: bool, u: Tcb)
    requires Known(p, s) && t in s.state && u != t && Engaged(s, u)
    ensures Engaged(PossibleSwitchTo(p, s, t, onSame), u)
  {
  }

  lemma StateSpares(p: Params, s: Sched, t: Tcb, ts: ThreadState, u: Tcb)
    requires Known(p, s) && t in s.state && u != t && Engaged(s, u)
    ensures Engaged(SetThreadState(s, t, ts), u)
  {
  }

  /** A waiting thread leaves its queue and stops. */
  lemma CancelOk(p: Params, s: Sched, q: Queues, r: Replies, t: Tcb)
    requires AllOk(p, s, q, r) && t in s.state && Waits(s.state[t])
    ensures t in q.at && t in q.next && t in q.prev && q.at[t] in q.queues && q.at[t] in q.waiting && q.at[t] in q.state
    ensures AllOk(p, SetThreadState(s, t, Inactive), Left(q, t, q.at[t]), r)
  {
    AllAspects(p, s, q, r);
    Leaves(q, s.state, t, Inactive);
    assert LinkAt(r, s.state, t);
    StateKeepsPairs(r, s.state, t, Inactive);
    BlockedUnqueued(p, s, t);
    OrderedBlock(p, s, t, Inactive);
  }

  /** A thread that waits in no queue stops, or starts to wait for a reply it is not owed yet. */
  lemma StopOk(p: Params, s: Sched, q: Queues, r: Replies, t: Tcb, ts: ThreadState)
    requires AllOk(p, s, q, r) && Engaged(s, t) && !Runnable(ts) && !Waits(ts) && ts != IdleThreadState
    ensures AllOk(p, SetThreadState(s, t, ts), q, r)
  {
    AllAspects(p, s, q, r);
    Frees(q, s.state, t, ts);
    assert LinkAt(r, s.state, t);
    StateKeepsPairs(r, s.state, t, ts);
    OrderedBlock(p, s, t, ts);
  }

  /** The caller of a running thread blocks on its reply. */
  lemma OweOk(p: Params, s: Sched, q: Queues, r: Replies, sender: Tcb, receiver: Tcb)
    requires AllOk(p, s, q, r) && Engaged(s, sender) && receiver in s.state && sender != receiver
    requires CallerSlot(receiver) !in r.caps && s.state[receiver] != BlockedOnReceive
    ensures sender in r.master && sender !in r.caller
    ensures AllOk(p, SetThreadState(s, sender, BlockedOnReply), q, Owed(r, sender, receiver))
  {
    AllAspects(p, s, q, r);
    Frees(q, s.state, sender, BlockedOnReply);
    OwedKeeps(r, s.state, sender, receiver);
    assert LinkAt(r, s.state, sender);
    OrderedBlock(p, s, sender, BlockedOnReply);
  }

  /** A waiting sender leaves its queue and blocks on the reply instead. */
  lemma OweWaitingOk(p: Params, s: Sched, q: Queues, r: Replies, sender: Tcb, receiver: Tcb)
    requires AllOk(p, s, q, r) && sender in s.state && Waits(s.state[sender])
    requires receiver in s.state && sender != receiver
    requires CallerSlot(receiver) !in r.caps && s.state[receiver] != BlockedOnReceive
    ensures sender in r.master && sender !in r.caller
    ensures sender in q.at && sender in q.next && sender in q.prev
    ensures q.at[sender] in q.queues && q.at[sender] in q.waiting && q.at[sender] in q.state
    ensures AllOk(p, SetThreadState(s, sender, BlockedOnReply),
                  Left(q, sender, q.at[sender]), Owed(r, sender, receiver))
  {
    AllAspects(p, s, q, r);
    Leaves(q, s.state, sender, BlockedOnReply);
    OwedKeeps(r, s.state, sender, receiver);
    BlockedUnqueued(p, s, sender);
    OrderedBlock(p, s, sender, BlockedOnReply);
  }

  /** A reply link goes. */
  lemma SettleOk(p: Params, s: Sched, q: Queues, r: Replies, c: Cte)
    requires AllOk(p, s, q, r) && c in r.caps
    ensures AllOk(p, s, q, Paid(r, c))
    ensures r.caps[c] in s.state && s.state[r.caps[c]] == BlockedOnReply
    ensures r.caps[c] in r.caller && r.caller[r.caps[c]] == c && r.caps[c] !in Paid(r, c).caller
  {
    AllAspects(p, s, q, r);
    PaidKeeps(r, s.state, c);
    assert CapAt(r, c);
  }

  /** A thread that waits for nothing is made ready. */
  lemma ReadyOk(p: Params, s: Sched, q: Queues, r: Replies, t: Tcb, ts: ThreadState, onSame: bool)
    requires AllOk(p, s, q, r) && t in s.state && t != s.idle && t in r.master && t !in r.caller && Runnable(ts)
    requires !Waits(s.state[t]) && (!Runnable(s.state[t]) || onSame)
    ensures t in s.key && s.cur in s.key && AllOk(p, PossibleSwitchTo(p, SetThreadState(s, t, ts), t, onSame), q, r)
  {
    AllAspects(p, s, q, r);
    Frees(q, s.state, t, ts);
    StateKeepsPairs(r, s.state, t, ts);
    SwitchKnown(p, SetThreadState(s, t, ts), t, onSame);
    OrderedWake(p, s, t, ts, onSame);
  }

  /** All waiting threads of an object are made ready at once. */
  lemma WakeAllOk(p: Params, s: Sched, q: Queues, r: Replies, o: Obj)
    requires AllOk(p, s, q, r) && o in q.waiting
    ensures AllOk(p, RescheduleRequired(WakeEach(s, q.waiting[o])), Emptied(q, o), r)
  {
    AllAspects(p, s, q, r);
    var ts := q.waiting[o];
    forall t: Tcb | t in ts
      ensures t in s.state && Waits(s.state[t]) && t !in r.caller && t in r.master && t != s.idle {
      assert TcbAt(q, s.state, t) && LinkAt(r, s.state, t);
    }
    WakeEachState(p, s, ts);
    RescheduleKnown(p, WakeEach(s, ts));
    Empties(q, s.state, o, WakeEach(s, ts).state);
    ManyRestart(r, s.state, ts, WakeEach(s, ts).state);
    OrderedWakeEach(p, s, ts);
  }

  lemma {:induction false} WakeEachState(p: Params, s: Sched, ts: seq<Tcb>)
    requires Known(p, s) && IdleOk(s) && s.idle !in ts && forall t: Tcb :: t in ts ==> t in s.state
    ensures var s' := WakeEach(s, ts);
      Known(p, s') && IdleOk(s') && s'.state.Keys == s.state.Keys
      && forall t: Tcb :: t in s.state ==> s'.state[t] == if t in ts then Restart else s.state[t]
    decreases |ts|
  {
    if ts != [] {
      assert ts[0] in ts;
      WakeOneKnown(p, s, ts[0]);
      WakeEachState(p, WakeOne(s, ts[0]), ts[1..]);
    }
  }

  lemma ManyRestart(r: Replies, st: States, ts: seq<Tcb>, st': States)
    requires Paired(r, st) && st'.Keys == st.Keys
    requires forall t: Tcb :: t in ts ==> t !in r.caller && t in r.master
    requires forall t: Tcb :: t in st ==> st'[t] == if t in ts then Restart else st[t]
    ensures Paired(r, st')
  {
    forall t: Tcb ensures LinkAt(r, st', t) {
      assert LinkAt(r, st, t);
    }
    forall c ensures CapAt(r, c) {
    }
  }

  lemma SwitchesOk(p: Params, s: Sched, q: Queues, r: Replies, o: Obj, os: ObjState)
    requires AllOk(p, s, q, r) && o in q.state && !Queueing(q.state[o]) && !Queueing(os) && Fits(o, os)
    ensures AllOk(p, s, q.(state := q.state[o := os]), r)
  {
    AllAspects(p, s, q, r);
    Switches(q, s.state, o, os);
  }

  lemma MasterOk(p: Params, s: Sched, q: Queues, r: Replies, t: Tcb)
    requires AllOk(p, s, q, r)
    ensures AllOk(p, s, q, r.(master := r.master + {t}))
  {
    AllAspects(p, s, q, r);
    MasterKeeps(r, s.state, t);
  }

  lemma UnmasterOk(p: Params, s: Sched, q: Queues, r: Replies, t: Tcb)
    requires AllOk(p, s, q, r) && t in s.state && s.state[t] == Inactive && t !in r.caller
    ensures AllOk(p, s, q, r.(master := r.master - {t}))
  {
    AllAspects(p, s, q, r);
    var r' := r.(master := r.master - {t});
    forall u: Tcb ensures LinkAt(r', s.state, u) {
      assert LinkAt(r, s.state, u);
    }
    forall c ensures CapAt(r', c) {
      assert CapAt(r, c);
    }
  }

  lemma MoveOk(p: Params, s: Sched, q: Queues, r: Replies, src: Cte, dest: Cte)
    requires AllOk(p, s, q, r) && src in r.caps && dest !in r.caps && dest.CNodeSlot?
    ensures AllOk(p, s, q, Moved(r, src, dest)) && r.caps[src] in r.caller
  {
    AllAspects(p, s, q, r);
    assert CapAt(r, src);
    MovedKeeps(r, s.state, src, dest);
  }

  lemma ReplyStopOk(p: Params, s: Sched, q: Queues, r: Replies, t: Tcb)
    requires AllOk(p, s, q, r) && t in s.state && s.state[t] == BlockedOnReply && t !in r.caller
    ensures AllOk(p, SetThreadState(s, t, Inactive), q, r)
  {
    AllAspects(p, s, q, r);
    Frees(q, s.state, t, Inactive);
    StateKeepsPairs(r, s.state, t, Inactive);
    BlockedUnqueued(p, s, t);
    OrderedBlock(p, s, t, Inactive);
  }

  /** suspend, once the thread waits for nothing. */
  lemma SuspendOk(p: Params, s: Sched, q: Queues, r: Replies, t: Tcb)
    requires AllOk(p, s, q, r) && t in s.state && t != s.idle && !Waits(s.state[t]) && t !in r.caller
    requires s.action != SwitchTo(t)
    ensures AllOk(p, Suspended(s, t), q, r)
  {
    AllAspects(p, s, q, r);
    Frees(q, s.state, t, Inactive);
    StateKeepsPairs(r, s.state, t, Inactive);
    OrderedSuspend(p, s, t);
  }

  lemma RestartOk(p: Params, s: Sched, q: Queues, r: Replies, t: Tcb)
    requires AllOk(p, s, q, r) && t in s.state && t != s.idle && !Waits(s.state[t]) && !Runnable(s.state[t])
    requires t !in r.caller && t in r.master
    ensures t in s.key && s.cur in s.key && AllOk(p, Restarted(p, s, t), q, r)
  {
    AllAspects(p, s, q, r);
    Frees(q, s.state, t, Restart);
    StateKeepsPairs(r, s.state, t, Restart);
    SwitchKnown(p, WakeOne(s, t), t, false);
    OrderedRestart(p, s, t);
  }

  // ---- Steps that leave threads where they are ----

  /** The scheduler's own steps change no thread state. */
  lemma SameStatesOk(p: Params, s: Sched, s': Sched, q: Queues, r: Replies)
    requires AllOk(p, s, q, r) && Ordered(p, s') && s'.state == s.state
    ensures AllOk(p, s', q, r)
  {
    AllAspects(p, s, q, r);
    OrderedKnown(p, s');
  }

  lemma ScheduleStates(p: Params, s: Sched)
    requires Known(p, s)
    ensures Schedule(p, s).state == s.state
  {
    var s1 := Requeued(s);
    assert s1.state == s.state;
    var s2 := if p.cfg.numDomains > 1 && s1.domainTime == 0 then NextDomain(p, s1) else s1;
    assert ChooseThread(p, s2).state == s2.state;
  }

  lemma TickStates(p: Params, s: Sched)
    requires Known(p, s)
    ensures TimerTick(p, s).state == s.state
  {
    SliceStates(p, s);
    TickDomainStates(p, TickSlice(p, s));
  }

  lemma SliceStates(p: Params, s: Sched)
    requires Known(p, s)
    ensures TickSlice(p, s).state == s.state
  {
  }

  lemma TickDomainStates(p: Params, s: Sched)
    ensures TickDomain(p, s).state == s.state
  {
  }

  lemma RestActivated(p: Params, s: Sched, q: Queues, r: Replies)
    requires AllOk(p, s, q, r) && AtRest(p, s)
    ensures AllOk(p, Activated(s), q, r)
  {
    AllAspects(p, s, q, r);
    if s.state[s.cur].Restart? {
      MarkOk(p, s, q, r, s.cur, Running);
    }
  }

  /** A runnable thread stays runnable. */
  lemma MarkOk(p: Params, s: Sched, q: Queues, r: Replies, t: Tcb, ts: ThreadState)
    requires AllOk(p, s, q, r) && t in s.state && t != s.idle && Runnable(s.state[t]) && Runnable(ts)
    ensures AllOk(p, SetThreadState(s, t, ts), q, r)
  {
    AllAspects(p, s, q, r);
    Frees(q, s.state, t, ts);
    assert LinkAt(r, s.state, t);
    StateKeepsPairs(r, s.state, t, ts);
    OrderedMark(p, s, t, ts);
  }

  /** At rest, a running current thread is one the kernel may work for. */
  lemma RestEngages(p: Params, s: Sched)
    requires AtRest(p, s) && Known(p, s) && Runnable(s.state[s.cur])
    ensures Engaged(s, s.cur) && s.cur != s.idle
  {
    OrderedMeans(p, s);
  }

  // ---- Sweeping one queue ----

  datatype SweepAspect = SweptThreads | SweptQueues | SweptLinks

  /** What holds while senders are being picked out of a queue: the scheduler is in order once it reschedules. */
  ghost predicate Sweeping(p: Params, s: Sched, q: Queues, r: Replies) {
    forall a: SweepAspect :: SweepingAt(a, p, s, q, r)
  }

  ghost predicate SweepingAt(a: SweepAspect, p: Params, s: Sched, q: Queues, r: Replies) {
    match a
    case SweptThreads => Known(p, s) && IdleOk(s) && Ordered(p, RescheduleRequired(s))
    case SweptQueues => Consistent(q, s.state)
    case SweptLinks => Paired(r, s.state)
  }

  lemma SweepAspects(p: Params, s: Sched, q: Queues, r: Replies)
    requires Sweeping(p, s, q, r)
    ensures Known(p, s) && IdleOk(s) && Consistent(q, s.state) && Paired(r, s.state)
    ensures Ordered(p, RescheduleRequired(s))
  {
    assert SweepingAt(SweptThreads, p, s, q, r) && SweepingAt(SweptQueues, p, s, q, r)
      && SweepingAt(SweptLinks, p, s, q, r);
  }

  lemma SweepStarts(p: Params, s: Sched, q: Queues, r: Replies)
    requires AllOk(p, s, q, r)
    ensures Sweeping(p, s, q, r)
  {
    AllAspects(p, s, q, r);
    OrderedReschedule(p, s);
  }

  lemma SweepEnds(p: Params, s: Sched, q: Queues, r: Replies)
    requires Sweeping(p, s, q, r)
    ensures AllOk(p, RescheduleRequired(s), q, r)
  {
    SweepAspects(p, s, q, r);
    RescheduleKnown(p, s);
  }

  lemma SweepOne(p: Params, s: Sched, q: Queues, r: Replies, t: Tcb)
    requires Sweeping(p, s, q, r) && t in s.state && Waits(s.state[t])
    ensures t in q.at && t in q.next && t in q.prev && q.at[t] in q.queues && q.at[t] in q.waiting && q.at[t] in q.state
    ensures Sweeping(p, WakeOne(s, t), Left(q, t, q.at[t]), r)
    ensures WakeOne(s, t).state == s.state[t := Restart]
  {
    SweepAspects(p, s, q, r);
    Leaves(q, s.state, t, Restart);
    assert LinkAt(r, s.state, t);
    StateKeepsPairs(r, s.state, t, Restart);
    WakeOneState(p, s, t);
    OrderedWakeOne(p, s, t);
  }

  lemma WakeOneState(p: Params, s: Sched, t: Tcb)
    requires Known(p, s) && IdleOk(s) && t in s.state && t != s.idle
    ensures Known(p, WakeOne(s, t)) && IdleOk(WakeOne(s, t)) && WakeOne(s, t).state == s.state[t := Restart]
  {
    WakeOneKnown(p, s, t);
  }

  lemma {:induction false} WakeEachMore(s: Sched, ts: seq<Tcb>, t: Tcb)
    ensures WakeEach(s, ts + [t]) == WakeOne(WakeEach(s, ts), t)
    decreases |ts|
  {
    if ts == [] {
      assert [] + [t] == [t];
    } else {
      assert (ts + [t])[1..] == ts[1..] + [t];
      WakeEachMore(WakeOne(s, ts[0]), ts[1..], t);
    }
  }
}
