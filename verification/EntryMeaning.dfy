/** What an entry leaves of threads, endpoints, replies and badge registers, whatever the scheduler and the links of the
    queues look like: the events of syscall.c as steps of a smaller machine. */
module EntryMeaning {
  import opened LinkedQueue
  import opened PriorityBitmap
  import opened SchedulerState
  import opened IpcState
  import opened EntrySteps
  import I = Ipc

  /** Who is in which state and waits where, who is owed a reply, and what was handed over. */
  datatype Face = Face(cfg: Config, idle: Tcb, state: States, key: map<Tcb, Key>, waiting: map<Obj, seq<Tcb>>,
                       objects: map<Obj, ObjState>, r: Replies, fault: set<Tcb>, badge: map<Tcb, Word>,
                       canGrant: map<Tcb, bool>, isCall: map<Tcb, bool>, diminishCaps: map<Tcb, bool>, b: Bindings,
                       register: map<Tcb, Word>)

  ghost function Facing(w: Scene): Face {
    Face(w.p.cfg, w.s.idle, w.s.state, w.s.key, w.q.waiting, w.q.state, w.r, w.fault, w.badge, w.canGrant, w.isCall,
         w.diminishCaps, w.b, w.register)
  }

  predicate There(f: Face, o: Obj) {
    o in f.objects && o in f.waiting && (Queueing(f.objects[o]) ==> f.waiting[o] != [])
  }

  /** Threads other than the idle thread. */
  predicate Common(f: Face, t: Tcb) {
    t in f.state && t != f.idle
  }

  // ---- Four things that happen to threads ----

  ghost function Turned(f: Face, t: Tcb, ts: ThreadState): Face {
    f.(state := f.state[t := ts])
  }

  /** The thread waits at the end of the queue. */
  ghost function LastIn(f: Face, t: Tcb, o: Obj, ts: ThreadState): Face
    requires There(f, o)
  {
    f.(state := f.state[t := ts], waiting := f.waiting[o := f.waiting[o] + [t]],
       objects := f.objects[o := WaitState(ts)])
  }

  /** The first thread of a queue has waited long enough. */
  ghost function FirstOut(f: Face, o: Obj, ts: ThreadState): Face
    requires There(f, o) && Queueing(f.objects[o])
  {
    f.(state := f.state[f.waiting[o][0] := ts], waiting := f.waiting[o := f.waiting[o][1..]],
       objects := if |f.waiting[o]| == 1 then f.objects[o := Idle] else f.objects)
  }

  /** The thread waits nowhere any more. */
  ghost function Out(f: Face, t: Tcb): Face {
    f.(waiting := map o | o in f.waiting :: Without(f.waiting[o], t),
       objects := map o | o in f.objects ::
         if o in f.waiting && t in f.waiting[o] && Without(f.waiting[o], t) == [] then Idle else f.objects[o])
  }

  ghost function Woken(f: Face, ts: set<Tcb>): States {
    map t | t in f.state :: if t in ts then Restart else f.state[t]
  }

  // ---- Sending and receiving ----

  /** The sender waits for the reply if the receiver may give one, and stops otherwise. */
  ghost function Asked(f: Face, sender: Tcb, receiver: Tcb, mayReply: bool): Face {
    if mayReply then Turned(f, sender, BlockedOnReply).(r := Owed(f.r, sender, receiver))
    else Turned(f, sender, Inactive)
  }

  ghost function AfterSend(f: Face, blocking: bool, doCall: bool, badge: Word, grant: bool, thread: Tcb, ep: Obj): Face
  {
    if !There(f, ep) || !ep.Endpoint? then f
    else if f.objects[ep] == Recv then
      var dest := f.waiting[ep][0];
      var g := FirstOut(f, ep, Running).(register := f.register[dest := badge]);
      if doCall || thread in f.fault then Asked(g, thread, dest, grant && !I.Flag(f.diminishCaps, dest)) else g
    else if blocking then
      LastIn(f, thread, ep, BlockedOnSend).(badge := f.badge[thread := badge], canGrant := f.canGrant[thread := grant],
                                             isCall := f.isCall[thread := doCall])
    else f
  }

  /** The badges an asynchronous endpoint holds go to the thread. */
  ghost function Handed(f: Face, thread: Tcb, aep: Obj): Face
    requires aep in f.objects && f.objects[aep].Active?
  {
    f.(objects := f.objects[aep := Idle], register := f.register[thread := f.objects[aep].msgIdentifier])
  }

  ghost function AfterReceive(f: Face, thread: Tcb, ep: Obj, diminish: bool): Face {
    if !There(f, ep) || !ep.Endpoint? || (thread in f.b.aep && f.b.aep[thread] !in f.objects) then f
    else
      var g := f.(r := Dropped(f.r, CallerSlot(thread)));
      if thread in f.b.aep && f.objects[f.b.aep[thread]].Active? then Handed(g, thread, f.b.aep[thread])
      else if f.objects[ep] == Send then
        var sender := f.waiting[ep][0];
        var h := FirstOut(g, ep, Running).(register := f.register[thread := I.BadgeOf(f.badge, sender)]);
        if I.Flag(f.isCall, sender) || sender in f.fault then
          Asked(h, sender, thread, I.Flag(f.canGrant, sender) && !diminish)
        else h
      else LastIn(g, thread, ep, BlockedOnReceive).(diminishCaps := f.diminishCaps[thread := diminish])
  }

  ghost function AfterPoll(f: Face, thread: Tcb, aep: Obj, isBlocking: bool): Face {
    if !There(f, aep) || !aep.AsyncEndpoint? then f
    else if f.objects[aep].Active? then Handed(f, thread, aep)
    else if isBlocking then LastIn(f, thread, aep, BlockedOnAsyncEvent)
    else f.(register := f.register[thread := {}])
  }

  /** The badge reaches the first waiter or the bound thread, or joins the badges held. */
  ghost function AfterBadge(f: Face, aep: Obj, badge: Word): Face {
    if !There(f, aep) || !aep.AsyncEndpoint? || (aep in f.b.tcb && f.b.tcb[aep] !in f.state) then f
    else if f.objects[aep].Waiting? then
      FirstOut(f, aep, Running).(register := f.register[f.waiting[aep][0] := badge])
    else if f.objects[aep] == Idle && aep in f.b.tcb && I.Awaits(f.state[f.b.tcb[aep]]) then
      Turned(Out(f, f.b.tcb[aep]), f.b.tcb[aep], Running).(register := f.register[f.b.tcb[aep] := badge])
    else f.(objects := f.objects[aep := Active(Pending(f.objects, aep) + badge)])
  }

  ghost function AfterReply(f: Face, slot: Cte, restart: bool): Face {
    if slot !in f.r.caps then f
    else
      var caller := f.r.caps[slot];
      Turned(f, caller, if caller !in f.fault then Running else if restart then Restart else Inactive)
        .(r := Paid(f.r, slot), fault := f.fault - {caller},
          register := if caller in f.fault then f.register else f.register[caller := {}])
  }

  ghost function AfterFault(f: Face, thread: Tcb, handler: Handler): Face {
    match handler
    case NoHandler => Turned(f, thread, Inactive)
    case HandledAt(ep, badge) =>
      if There(f, ep) && ep.Endpoint? then
        AfterSend(f.(fault := f.fault + {thread}), true, false, badge, true, thread, ep)
      else f
  }

  ghost function AfterWait(f: Face, thread: Tcb, from: Source): Face {
    match from
    case FromEndpoint(ep, diminish) => AfterReceive(f, thread, ep, diminish)
    case FromAsyncEndpoint(aep, isBlocking, otherwise) =>
      if aep in f.b.tcb && f.b.tcb[aep] != thread then AfterFault(f, thread, otherwise)
      else AfterPoll(f, thread, aep, isBlocking)
    case FromNothing(handler) => AfterFault(f, thread, handler)
  }

  // ---- Stopping, restarting and deleting ----

  /** Nobody owes the thread a reply any more. */
  ghost function Forsaken(f: Face, t: Tcb): Face {
    f.(r := Forgiven(f.r, t), fault := if t in f.state && f.state[t] == BlockedOnReply then f.fault - {t} else f.fault)
  }

  ghost function AfterSuspend(f: Face, t: Tcb): Face {
    var g := Forsaken(Out(f, t), t);
    Turned(g, t, Inactive).(r := Dropped(g.r, CallerSlot(t)))
  }

  ghost function AfterResume(f: Face, t: Tcb): Face
    requires t in f.state
  {
    if !Blocked(f.state[t]) then f
    else
      var g := Forsaken(Out(f, t), t);
      Turned(g, t, Restart).(r := g.r.(master := f.r.master + {t}))
  }

  /** Of the senders those with the badge are restarted. */
  ghost function AfterCancel(f: Face, ep: Obj, badge: Word): Face {
    if !There(f, ep) || f.objects[ep] != Send then f
    else
      var rest := I.Filter(f.waiting[ep], f.badge, badge, false);
      f.(state := Woken(f, set t | t in I.Filter(f.waiting[ep], f.badge, badge, true)),
         waiting := f.waiting[ep := rest],
         objects := f.objects[ep := if rest == [] then Idle else Send])
  }

  /** Everybody who waits is restarted. */
  ghost function Deserted(f: Face, o: Obj): Face
    requires There(f, o)
  {
    f.(state := Woken(f, set t | t in f.waiting[o]), waiting := f.waiting[o := []], objects := f.objects[o := Idle])
  }

  ghost function AfterFinal(f: Face, final: Final): Face {
    match final
    case LastEndpoint(o) =>
      if !There(f, o) then f
      else
        var g := if o.AsyncEndpoint? && o in f.b.tcb then f.(b := Unbind(f.b, f.b.tcb[o])) else f;
        if Queueing(f.objects[o]) then Deserted(g, o) else g
    case LastThread(t) =>
      if !Common(f, t) then f
      else
        var g := AfterSuspend(f, t);
        g.(b := Unbind(f.b, t), r := g.r.(master := f.r.master - {t}))
    case ReplyCap(slot) => f.(r := Dropped(f.r, slot))
  }

  ghost function AfterFinals(f: Face, finals: seq<Final>): Face
    decreases |finals|
  {
    if finals == [] then f else AfterFinals(AfterFinal(f, finals[0]), finals[1..])
  }

  // ---- Events ----

  ghost function AfterCall(f: Face, call: Call, thread: Tcb): Face {
    match call
    case SendMessage(blocking, doCall, badge, grant, ep) => AfterSend(f, blocking, doCall, badge, grant, thread, ep)
    case SendBadge(aep, badge) => AfterBadge(f, aep, badge)
    case SuspendThread(t) => if Common(f, t) then AfterSuspend(f, t) else f
    case ResumeThread(t) => if Common(f, t) then AfterResume(f, t) else f
    case ChangePriority(t, prio) =>
      if Common(f, t) && t in f.key && thread in f.key && prio < f.cfg.numPrios && prio <= f.key[thread].prio then
        f.(key := f.key[t := Key(f.key[t].dom, prio)])
      else f
    case ChangeDomain(t, dom) =>
      if Common(f, t) && t in f.key && dom < f.cfg.numDomains then f.(key := f.key[t := Key(dom, f.key[t].prio)]) else f
    case BindThread(t, aep) =>
      if Common(f, t) && t !in f.b.aep && There(f, aep) && aep.AsyncEndpoint? && f.waiting[aep] == [] then
        f.(b := Bind(f.b, t, aep))
      else f
    case UnbindThread(t) => f.(b := Unbind(f.b, t))
    case SaveCaller(dest) =>
      if CallerSlot(thread) in f.r.caps && dest.CNodeSlot? && dest !in f.r.caps then
        f.(r := Moved(f.r, CallerSlot(thread), dest))
      else f
    case MoveReply(src, dest) =>
      if src.CNodeSlot? && src in f.r.caps && dest.CNodeSlot? && dest !in f.r.caps then f.(r := Moved(f.r, src, dest))
      else f
    case ReplyThrough(slot, restart) => if slot.CNodeSlot? then AfterReply(f, slot, restart) else f
    case CancelSends(ep, badge) => AfterCancel(f, ep, badge)
    case Delete(finals) => AfterFinals(f, finals)
    case Otherwise => f
  }

  ghost function AfterIrq(f: Face, irq: Irq): Face {
    match irq
    case SignalIrq(aep, badge) => AfterBadge(f, aep, badge)
    case _ => f
  }

  /** A thread that is still restarting when its invocation is done runs on. */
  ghost function Resumed(f: Face, t: Tcb): Face {
    if t in f.state && f.state[t].Restart? then Turned(f, t, Running) else f
  }

  ghost function AfterEvent(f: Face, thread: Tcb, e: Event): Face {
    match e
    case Invocation(call) => Resumed(AfterCall(Turned(f, thread, Restart), call, thread), thread)
    case Preempted(finals, irq) => AfterIrq(AfterFinals(Turned(f, thread, Restart), finals), irq)
    case Wait(from) => AfterWait(f, thread, from)
    case Reply(restart) => AfterReply(f, CallerSlot(thread), restart)
    case ReplyWait(restart, from) => AfterWait(AfterReply(f, CallerSlot(thread), restart), thread, from)
    case YieldCall => f
    case Fault(handler) => AfterFault(f, thread, handler)
    case Interrupt(irq) => AfterIrq(f, irq)
  }

  /** Everything but an interrupt needs a current thread that runs. */
  ghost function AfterHandling(f: Face, thread: Tcb, e: Event): Face {
    if e.Interrupt? || (thread in f.state && Runnable(f.state[thread])) then AfterEvent(f, thread, e) else f
  }
}
