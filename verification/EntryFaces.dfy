/** Each operation of Ipc leaves what EntryMeaning says: the links of queues and the scheduler's own state are all that
    is left out. */
module EntryFaces {
  import opened LinkedQueue
  import opened PriorityBitmap
  import opened SchedulerState
  import opened SchedulerRuns
  import opened IpcState
  import opened IpcSteps
  import opened EntrySteps
  import opened EntryMeaning
  import I = Ipc
  import R = ReadyQueues

  /** The scheduler has gone on, but no thread has changed its state, priority or domain except as told. */
  ghost predicate Goes(s: Sched, s': Sched, state: States) {
    s'.state == state && s'.key == s.key && s'.idle == s.idle
  }

  lemma RescheduleGoes(p: Params, s: Sched)
    ensures Goes(s, RescheduleRequired(s), s.state)
  {
  }

  lemma StopGoes(s: Sched, t: Tcb, ts: ThreadState)
    ensures Goes(s, SetThreadState(s, t, ts), s.state[t := ts])
  {
  }

  lemma ReadyGoes(p: Params, s: Sched, t: Tcb, ts: ThreadState, onSame: bool)
    requires Known(p, s) && t in s.state
    ensures Goes(s, I.Readied(p, s, t, ts, onSame), s.state[t := ts])
  {
    StopGoes(s, t, ts);
    SwitchGoes(p, SetThreadState(s, t, ts), t, onSame);
  }

  lemma SwitchGoes(p: Params, s: Sched, t: Tcb, onSame: bool)
    requires t in s.key && s.cur in s.key
    ensures Goes(s, PossibleSwitchTo(p, s, t, onSame), s.state)
  {
  }

  // ---- Queues ----

  lemma Heading(w: Scene, o: Obj)
    requires Sound(w) && Has(w, o) && Queueing(w.q.state[o])
    ensures var t := w.q.waiting[o][0];
      && t in w.s.state && Waits(w.s.state[t]) && t in w.q.next && t in w.q.prev && o in w.q.queues
      && Without(w.q.waiting[o], t) == w.q.waiting[o][1..]
  {
    HeadWaits(w, o);
    AllAspects(w.p, w.s, w.q, w.r);
    ConsistentMeans(w.q, w.s.state, o);
    var t := w.q.waiting[o][0];
    assert t in w.q.waiting[o] && TcbAt(w.q, w.s.state, t);
    Leaves(w.q, w.s.state, t, Inactive);
    WithoutAt(w.q.waiting[o], 0);
  }

  /** The first thread of a queue leaves it. */
  lemma FirstLeft(w: Scene, o: Obj, ts: ThreadState, w': Scene)
    requires Sound(w) && Has(w, o) && Queueing(w.q.state[o])
    requires w' == w.(s := w'.s, q := Left(w.q, w.q.waiting[o][0], o))
    requires Goes(w.s, w'.s, w.s.state[w.q.waiting[o][0] := ts])
    ensures Facing(w') == FirstOut(Facing(w), o, ts)
  {
    Heading(w, o);
  }

  lemma LastJoined(w: Scene, t: Tcb, o: Obj, ts: ThreadState, w': Scene)
    requires Sound(w) && Has(w, o) && w' == w.(s := w'.s, q := Joined(w.q, t, o, WaitState(ts)))
    requires Goes(w.s, w'.s, w.s.state[t := ts])
    ensures Facing(w') == LastIn(Facing(w), t, o, ts)
  {
    AllAspects(w.p, w.s, w.q, w.r);
    assert ObjAt(w.q, o);
  }

  lemma WaitsOnce(w: Scene, t: Tcb)
    requires Sound(w) && t in w.s.state
    ensures Waits(w.s.state[t]) ==>
      && t in w.q.at && t in w.q.next && t in w.q.prev
      && var o := w.q.at[t]; o in w.q.queues && o in w.q.waiting && o in w.q.state && t in w.q.waiting[o]
    ensures forall o :: o in w.q.waiting && t in w.q.waiting[o] ==> Waits(w.s.state[t]) && t in w.q.at && o == w.q.at[t]
    ensures forall o :: o in w.q.state <==> o in w.q.waiting
  {
    AllAspects(w.p, w.s, w.q, w.r);
    assert TcbAt(w.q, w.s.state, t);
    if Waits(w.s.state[t]) { Leaves(w.q, w.s.state, t, Inactive); }
    forall o ensures o in w.q.state <==> o in w.q.waiting {
      assert ObjAt(w.q, o);
    }
  }

  /** The thread leaves the queue it waits in. */
  lemma TakenOut(w: Scene, t: Tcb)
    requires Sound(w) && t in w.s.state
    ensures var q := Withdrawn(w.q, w.s.state, t);
      Facing(w.(q := q)) == Out(Facing(w), t)
  {
    WaitsOnce(w, t);
    var q, f := Withdrawn(w.q, w.s.state, t), Facing(w);
    var g := Out(f, t);
    assert q.waiting == g.waiting;
    assert q.state == g.objects;
  }

  // ---- Sending ----

  lemma WokenGoes(w: Scene, t: Tcb, onSame: bool)
    requires Sound(w) && t in w.s.state
    ensures Goes(w.s, I.Woken(w.p, w.s, t, onSame), w.s.state[t := Running])
  {
    AllAspects(w.p, w.s, w.q, w.r);
    ReadyGoes(w.p, w.s, t, Running, onSame);
  }

  lemma SentFace(w: Scene, w': Scene, blocking: bool, doCall: bool, badge: Word, grant: bool, thread: Tcb, ep: Obj)
    requires Sound(w) && ep.Endpoint? && Sends(w, w', blocking, doCall, badge, grant, thread, ep)
    ensures Facing(w') == AfterSend(Facing(w), blocking, doCall, badge, grant, thread, ep)
  {
    if w.q.state[ep] == Recv {
      DeliveredFace(w, w', blocking, doCall, badge, grant, thread, ep);
    } else if blocking {
      LastJoined(w, thread, ep, BlockedOnSend, w.(s := w'.s, q := w'.q));
    }
  }

  /** A message that meets a receiver. */
  lemma DeliveredFace(w: Scene, w': Scene, blocking: bool, doCall: bool, badge: Word, grant: bool, thread: Tcb, ep: Obj)
    requires Sound(w) && ep.Endpoint? && Sends(w, w', blocking, doCall, badge, grant, thread, ep)
    requires w.q.state[ep] == Recv
    ensures Facing(w') == AfterSend(Facing(w), blocking, doCall, badge, grant, thread, ep)
  {
    var dest := w.q.waiting[ep][0];
    var s1 := I.Woken(w.p, w.s, dest, true);
    Heading(w, ep);
    WokenGoes(w, dest, true);
    FirstLeft(w, ep, Running, w.(s := s1, q := w'.q));
    if doCall || thread in w.fault {
      StopGoes(s1, thread, if grant && !I.Flag(w.diminishCaps, dest) then BlockedOnReply else Inactive);
    }
    DeliveredIs(Facing(w), Facing(w'), blocking, doCall, badge, grant, thread, ep);
  }

  lemma DeliveredIs(f: Face, f': Face, blocking: bool, doCall: bool, badge: Word, grant: bool, thread: Tcb, ep: Obj)
    requires There(f, ep) && ep.Endpoint? && f.objects[ep] == Recv
    requires var dest := f.waiting[ep][0];
      var g := FirstOut(f, ep, Running).(register := f.register[dest := badge]);
      var mayReply := grant && !I.Flag(f.diminishCaps, dest);
      f' == if !doCall && thread !in f.fault then g
            else g.(state := g.state[thread := if mayReply then BlockedOnReply else Inactive],
                    r := if mayReply then Owed(f.r, thread, dest) else f.r)
    ensures f' == AfterSend(f, blocking, doCall, badge, grant, thread, ep)
  {
  }

  // ---- Receiving ----

  lemma ReceivedFace(w: Scene, w': Scene, v: I.View, thread: Tcb, ep: Obj, diminish: bool)
    requires Sound(w) && Receives(w, w', v, thread, ep, diminish)
    ensures Facing(w') == AfterReceive(Facing(w), thread, ep, diminish)
  {
    if thread in w.b.aep && w.q.state[w.b.aep[thread]].Active? {
      BoundFace(w, w', thread, ep, diminish);
    } else if w.q.state[ep] == IpcState.Send {
      CollectedParts(w, v, thread, ep, diminish);
      CollectedFace(w, w', thread, ep, diminish);
    } else {
      BlockedFace(w, w', thread, ep, diminish);
    }
  }

  /** What becomes of a sender whose message has come in. */
  function Outcome(w: Scene, sender: Tcb, diminish: bool): ThreadState {
    if !I.Flag(w.isCall, sender) && sender !in w.fault then Running
    else if I.Flag(w.canGrant, sender) && !diminish then BlockedOnReply
    else Inactive
  }

  lemma CollectedParts(w: Scene, v: I.View, thread: Tcb, ep: Obj, diminish: bool)
    requires Has(w, ep) && w.q.state[ep] == IpcState.Send && Sights(w, v)
    ensures var v', sender := I.Collected(w.p, v, thread, ep, diminish), w.q.waiting[ep][0];
      v' == v.(s := FirstCollected(w, ep, diminish), q := Left(v.q, sender, ep),
               register := v.register[thread := I.BadgeOf(w.badge, sender)],
               r := if Outcome(w, sender, diminish) == BlockedOnReply then Owed(v.r, sender, thread) else v.r)
  {
    match Outcome(w, w.q.waiting[ep][0], diminish)
    case Running =>
    case BlockedOnReply =>
    case Inactive =>
  }

  lemma BoundFace(w: Scene, w': Scene, thread: Tcb, ep: Obj, diminish: bool)
    requires Receivable(w, thread, ep) && thread in w.b.aep && w.q.state[w.b.aep[thread]].Active?
    requires var aep := w.b.aep[thread];
      w' == w.(q := I.Took(w.q, aep), r := Dropped(w.r, CallerSlot(thread)),
               register := w.register[thread := Pending(w.q.state, aep)])
    ensures Facing(w') == AfterReceive(Facing(w), thread, ep, diminish)
  {
  }

  lemma BlockedFace(w: Scene, w': Scene, thread: Tcb, ep: Obj, diminish: bool)
    requires Sound(w) && Receivable(w, thread, ep) && w.q.state[ep] != IpcState.Send
    requires !(thread in w.b.aep && w.q.state[w.b.aep[thread]].Active?)
    requires w' == w.(s := SetThreadState(w.s, thread, BlockedOnReceive), q := Joined(w.q, thread, ep, Recv),
                      r := Dropped(w.r, CallerSlot(thread)), diminishCaps := w.diminishCaps[thread := diminish])
    ensures Facing(w') == AfterReceive(Facing(w), thread, ep, diminish)
  {
    LastJoined(w, thread, ep, BlockedOnReceive, w.(s := w'.s, q := w'.q));
  }

  lemma CollectedFace(w: Scene, w': Scene, thread: Tcb, ep: Obj, diminish: bool)
    requires Sound(w) && Receivable(w, thread, ep) && w.q.state[ep] == IpcState.Send
    requires !(thread in w.b.aep && w.q.state[w.b.aep[thread]].Active?)
    requires var sender, r := w.q.waiting[ep][0], Dropped(w.r, CallerSlot(thread));
      w' == w.(s := FirstCollected(w, ep, diminish), q := Left(w.q, sender, ep),
               register := w.register[thread := I.BadgeOf(w.badge, sender)],
               r := if Outcome(w, sender, diminish) == BlockedOnReply then Owed(r, sender, thread) else r)
    ensures Facing(w') == AfterReceive(Facing(w), thread, ep, diminish)
  {
    var ts := Outcome(w, w.q.waiting[ep][0], diminish);
    CollectedGoes(w, ep, diminish);
    FirstLeft(w, ep, ts, w.(s := w'.s, q := w'.q));
    CollectedIs(Facing(w), Facing(w'), thread, ep, diminish, ts);
  }

  lemma CollectedGoes(w: Scene, ep: Obj, diminish: bool)
    requires Sound(w) && Has(w, ep) && w.q.state[ep] == IpcState.Send
    ensures var sender := w.q.waiting[ep][0];
      Goes(w.s, FirstCollected(w, ep, diminish), w.s.state[sender := Outcome(w, sender, diminish)])
  {
    var sender := w.q.waiting[ep][0];
    Heading(w, ep);
    if Outcome(w, sender, diminish) == Running {
      WokenGoes(w, sender, false);
    } else {
      StopGoes(w.s, sender, Outcome(w, sender, diminish));
    }
  }

  lemma CollectedIs(f: Face, f': Face, thread: Tcb, ep: Obj, diminish: bool, ts: ThreadState)
    requires There(f, ep) && ep.Endpoint? && f.objects[ep] == IpcState.Send
    requires !(thread in f.b.aep && (f.b.aep[thread] !in f.objects || f.objects[f.b.aep[thread]].Active?))
    requires var sender, r := f.waiting[ep][0], Dropped(f.r, CallerSlot(thread));
      && f' == FirstOut(f, ep, ts).(
           register := f.register[thread := I.BadgeOf(f.badge, sender)],
           r := if ts == BlockedOnReply then Owed(r, sender, thread) else r)
      && ts == if !I.Flag(f.isCall, sender) && sender !in f.fault then Running
               else if I.Flag(f.canGrant, sender) && !diminish then BlockedOnReply else Inactive
    ensures f' == AfterReceive(f, thread, ep, diminish)
  {
  }

  // ---- Asynchronous endpoints ----

  lemma PolledFace(w: Scene, w': Scene, thread: Tcb, aep: Obj, isBlocking: bool)
    requires Sound(w) && Polls(w, w', thread, aep, isBlocking)
    ensures Facing(w') == AfterPoll(Facing(w), thread, aep, isBlocking)
  {
    if !w.q.state[aep].Active? && isBlocking {
      AwaitedFace(w, w', thread, aep);
    }
  }

  lemma AwaitedFace(w: Scene, w': Scene, thread: Tcb, aep: Obj)
    requires Sound(w) && Has(w, aep) && aep.AsyncEndpoint? && !w.q.state[aep].Active?
    requires w' ==
      w.(s := SetThreadState(w.s, thread, BlockedOnAsyncEvent), q := Joined(w.q, thread, aep, IpcState.Waiting))
    ensures Facing(w') == AfterPoll(Facing(w), thread, aep, true)
  {
    LastJoined(w, thread, aep, BlockedOnAsyncEvent, w');
  }

  lemma InterruptedGoes(w: Scene, t: Tcb)
    requires Sound(w) && t in w.s.state
    ensures Goes(w.s, I.Interrupted(w.p, w.s, t), w.s.state[t := Running])
  {
    AllAspects(w.p, w.s, w.q, w.r);
    if Waits(w.s.state[t]) {
      ReadyGoes(w.p, SetThreadState(w.s, t, Inactive), t, Running, true);
    } else {
      ReadyGoes(w.p, w.s, t, Running, true);
    }
  }

  lemma SignalledFace(w: Scene, aep: Obj, badge: Word)
    requires Sound(w) && Usable(w, aep)
    ensures Facing(Signalled(w, aep, badge)) == AfterBadge(Facing(w), aep, badge)
  {
    var w' := Signalled(w, aep, badge);
    if w.q.state[aep] == IpcState.Waiting {
      WaiterFace(w, w', aep, badge);
    } else if WakesBound(w, aep) {
      WokenFace(w, w', aep, badge);
    } else {
      HeldFace(w, w', aep, badge);
    }
  }

  lemma WaiterFace(w: Scene, w': Scene, aep: Obj, badge: Word)
    requires Sound(w) && Usable(w, aep) && w.q.state[aep] == IpcState.Waiting
    requires var dest := w.q.waiting[aep][0];
      w' == w.(s := I.Woken(w.p, w.s, dest, false), q := Left(w.q, dest, aep), register := w.register[dest := badge])
    ensures Facing(w') == AfterBadge(Facing(w), aep, badge)
  {
    Heading(w, aep);
    WokenGoes(w, w.q.waiting[aep][0], false);
    FirstLeft(w, aep, Running, w.(s := w'.s, q := w'.q));
  }

  lemma WokenFace(w: Scene, w': Scene, aep: Obj, badge: Word)
    requires Sound(w) && Usable(w, aep) && WakesBound(w, aep)
    requires var t := w.b.tcb[aep];
      w' == w.(s := I.Interrupted(w.p, w.s, t), q := Withdrawn(w.q, w.s.state, t), register := w.register[t := badge])
    ensures Facing(w') == AfterBadge(Facing(w), aep, badge)
  {
    InterruptedGoes(w, w.b.tcb[aep]);
    TakenOut(w, w.b.tcb[aep]);
  }

  lemma HeldFace(w: Scene, w': Scene, aep: Obj, badge: Word)
    requires Usable(w, aep) && w.q.state[aep] != IpcState.Waiting && !WakesBound(w, aep)
    requires w' == w.(q := w.q.(state := w.q.state[aep := Active(Pending(w.q.state, aep) + badge)]))
    ensures Facing(w') == AfterBadge(Facing(w), aep, badge)
  {
  }

  // ---- Replies ----

  lemma RepliedFace(w: Scene, slot: Cte, restart: bool)
    requires Sound(w) && (slot in w.r.caps ==> w.r.caps[slot] in w.s.state)
    ensures Facing(ReplyUsed(w, slot, restart)) == AfterReply(Facing(w), slot, restart)
  {
    if slot in w.r.caps {
      var t := w.r.caps[slot];
      AllAspects(w.p, w.s, w.q, w.r);
      if t !in w.fault {
        ReadyGoes(w.p, w.s, t, Running, true);
      } else if restart {
        ReadyGoes(w.p, w.s, t, Restart, true);
      } else {
        StopGoes(w.s, t, Inactive);
      }
    }
  }

  // ---- Stopping and restarting ----

  lemma SuspendedGoes(s: Sched, t: Tcb)
    ensures Goes(s, Suspended(I.Unblocked(s, t), t), s.state[t := Inactive])
  {
    var s1 := I.Unblocked(s, t);
    StopGoes(s, t, Inactive);
    StopGoes(s1, t, Inactive);
    DequeueGoes(SetThreadState(s1, t, Inactive), t);
  }

  lemma DequeueGoes(s: Sched, t: Tcb)
    ensures Goes(s, Dequeue(s, t), s.state)
  {
  }

  lemma StoppedFace(w: Scene, t: Tcb)
    requires Sound(w) && t in w.s.state
    ensures Facing(Halted(w, t)) == AfterSuspend(Facing(w), t)
  {
    SuspendedGoes(w.s, t);
    TakenOut(w, t);
  }

  lemma RestartedGoes(p: Params, s: Sched, t: Tcb)
    requires Known(p, s) && t in s.state
    ensures var s1 := I.Unblocked(s, t);
      t in s1.key && s1.cur in s1.key && Goes(s, Restarted(p, s1, t), s.state[t := Restart])
  {
    var s1 := I.Unblocked(s, t);
    WakeOneGoes(s1, t);
    SwitchGoes(p, WakeOne(s1, t), t, false);
  }

  lemma WakeOneGoes(s: Sched, t: Tcb)
    ensures Goes(s, WakeOne(s, t), s.state[t := Restart]) && WakeOne(s, t).cur == s.cur
  {
  }

  lemma RestartedFace(w: Scene, w': Scene, t: Tcb)
    requires Sound(w) && Revives(w, w', t)
    ensures Facing(w') == AfterResume(Facing(w), t)
  {
    AllAspects(w.p, w.s, w.q, w.r);
    RestartedGoes(w.p, w.s, t);
    TakenOut(w, t);
  }

  // ---- Many at once ----

  lemma {:induction false} WakeEachGoes(s: Sched, ts: seq<Tcb>)
    requires forall t: Tcb :: t in ts ==> t in s.state
    ensures WakeEach(s, ts).key == s.key && WakeEach(s, ts).idle == s.idle
    ensures WakeEach(s, ts).state == map t | t in s.state :: if t in ts then Restart else s.state[t]
    decreases |ts|
  {
    if ts != [] {
      assert ts[0] in ts;
      WakeOneGoes(s, ts[0]);
      WakeEachGoes(WakeOne(s, ts[0]), ts[1..]);
    }
  }

  lemma AllWoken(w: Scene, ts: seq<Tcb>)
    requires forall t: Tcb :: t in ts ==> t in w.s.state
    ensures Goes(w.s, RescheduleRequired(WakeEach(w.s, ts)), EntryMeaning.Woken(Facing(w), set t | t in ts))
  {
    WakeEachGoes(w.s, ts);
    RescheduleGoes(w.p, WakeEach(w.s, ts));
  }

  lemma CancelledFace(w: Scene, w': Scene, ep: Obj, badge: Word)
    requires Sound(w) && Cancels(w, w', ep, badge)
    ensures Facing(w') == AfterCancel(Facing(w), ep, badge)
  {
    if w.q.state[ep] == IpcState.Send {
      AllAspects(w.p, w.s, w.q, w.r);
      ConsistentMeans(w.q, w.s.state, ep);
      I.FilterMembers(w.q.waiting[ep], w.badge, badge, true);
      AllWoken(w, I.Filter(w.q.waiting[ep], w.badge, badge, true));
    }
  }

  // ---- Deletion ----

  lemma EndpointGoneFace(w: Scene, o: Obj)
    requires Sound(w) && Has(w, o)
    ensures Facing(EndpointGone(w, o)) == AfterFinal(Facing(w), LastEndpoint(o))
  {
    var w1 := if o.AsyncEndpoint? && o in w.b.tcb then w.(b := Unbind(w.b, w.b.tcb[o])) else w;
    if Queueing(w.q.state[o]) {
      var s' := RescheduleRequired(WakeEach(w.s, w.q.waiting[o]));
      assert EndpointGone(w, o) == w1.(q := Emptied(w.q, o), s := s');
      EmptiedFace(w1, o, s');
    } else {
      assert EndpointGone(w, o) == w1;
    }
  }

  lemma EmptiedFace(w: Scene, o: Obj, s': Sched)
    requires Sound(w) && Has(w, o) && Queueing(w.q.state[o])
    requires s' == RescheduleRequired(WakeEach(w.s, w.q.waiting[o]))
    ensures Facing(w.(q := Emptied(w.q, o), s := s')) == Deserted(Facing(w), o)
  {
    AllAspects(w.p, w.s, w.q, w.r);
    ConsistentMeans(w.q, w.s.state, o);
    AllWoken(w, w.q.waiting[o]);
  }

  lemma ThreadGoneFace(w: Scene, t: Tcb)
    requires Sound(w) && Ordinary(w, t)
    ensures Facing(ThreadGone(w, t)) == AfterFinal(Facing(w), LastThread(t))
  {
    StoppedFace(w, t);
    GoneIs(w, Halted(w, t), t);
  }

  lemma GoneIs(w: Scene, w1: Scene, t: Tcb)
    requires Ordinary(w, t) && Facing(w1) == AfterSuspend(Facing(w), t)
    requires w1.b == w.b && w1.r.master == w.r.master
    ensures Facing(w1.(b := Unbind(w.b, t), r := w1.r.(master := w.r.master - {t}))) ==
      AfterFinal(Facing(w), LastThread(t))
  {
  }

  lemma FinalFace(w: Scene, final: Final)
    requires Sound(w)
    ensures Facing(After(w, final)) == AfterFinal(Facing(w), final)
  {
    match final
    case LastEndpoint(o) =>
      assert Has(w, o) <==> There(Facing(w), o);
      if Has(w, o) { EndpointGoneFace(w, o); }
    case LastThread(t) => if Ordinary(w, t) { ThreadGoneFace(w, t); }
    case ReplyCap(slot) =>
  }

  lemma {:induction false} FinalsFace(w: Scene, finals: seq<Final>)
    requires finals != []
    requires Facing(After(w, finals[0])) == AfterFinal(Facing(w), finals[0])
    requires Facing(AfterAll(After(w, finals[0]), finals[1..])) ==
      AfterFinals(Facing(After(w, finals[0])), finals[1..])
    ensures Facing(AfterAll(w, finals)) == AfterFinals(Facing(w), finals)
  {
  }

  // ---- Priorities and domains, ticks and yields ----

  lemma KeyGoes(s: Sched, t: Tcb, k: Key)
    requires t in s.state
    ensures var s' := SetKey(s, t, k); s'.state == s.state && s'.key == s.key[t := k] && s'.idle == s.idle
  {
    DequeueGoes(s, t);
    var s2 := Dequeue(s, t).(key := s.key[t := k]);
    EnqueueGoes(s2, t);
  }

  lemma EnqueueGoes(s: Sched, t: Tcb)
    ensures Goes(s, Enqueue(s, t), s.state) && Goes(s, Append(s, t), s.state)
  {
  }

  lemma YieldGoes(s: Sched)
    ensures Goes(s, Yielded(s), s.state)
  {
    DequeueGoes(s, s.cur);
    EnqueueGoes(Dequeue(s, s.cur), s.cur);
  }

  lemma TickGoes(p: Params, s: Sched)
    requires s.cur in s.state && s.cur in s.slice
    ensures Goes(s, TimerTick(p, s), s.state)
  {
    EnqueueGoes(s.(slice := s.slice[s.cur := p.timeSlice]), s.cur);
  }

  lemma ScheduleGoes(p: Params, s: Sched)
    requires ParamsOk(p) && s.cur in s.state
    ensures Goes(s, Schedule(p, s), s.state)
  {
    var s1 := if Runnable(s.state[s.cur]) then Enqueue(s, s.cur) else s;
    EnqueueGoes(s, s.cur);
    match s.action
    case ResumeCurrentThread =>
    case ChooseNewThread => ChooseGoes(p, if p.cfg.numDomains > 1 && s1.domainTime == 0 then NextDomain(p, s1) else s1);
    case SwitchTo(t) => DequeueGoes(s1, t);
  }

  lemma ChooseGoes(p: Params, s: Sched)
    ensures Goes(s, ChooseThread(p, s), s.state)
  {
    DequeueGoes(s, R.FirstReady(s.ready, DomainOf(p, s)));
  }
}
