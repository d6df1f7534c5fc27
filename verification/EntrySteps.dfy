/** Which scheduler steps a kernel entry comes down to, read off the state it starts in: the link between the calls and
    interrupts of syscall.c and the runs of SchedulerRuns. */
module EntrySteps {
  import opened LinkedQueue
  import opened PriorityBitmap
  import opened SchedulerState
  import opened SchedulerRuns
  import opened DomainRuns
  import opened DomainClock
  import opened IpcState
  import opened IpcSteps
  import I = Ipc

  /** What an invocation asks for. */
  datatype Call =
    | SendMessage(blocking: bool, doCall: bool, badge: Word, grant: bool, ep: Obj)
    | SendBadge(aep: Obj, badge: Word)
    | SuspendThread(t: Tcb)
    | ResumeThread(t: Tcb)
    | ChangePriority(t: Tcb, prio: nat)
    | ChangeDomain(t: Tcb, dom: nat)
    | BindThread(t: Tcb, aep: Obj)
    | UnbindThread(t: Tcb)
    | SaveCaller(dest: Cte)
    | MoveReply(src: Cte, dest: Cte)
    | ReplyThrough(slot: Cte, restart: bool)
    | CancelSends(ep: Obj, badge: Word)
    | Delete(finals: seq<Final>)
    | Otherwise

  /** What finaliseCap finds behind the last cap a deletion comes across. */
  datatype Final =
    | LastEndpoint(o: Obj)
    | LastThread(t: Tcb)
    | ReplyCap(slot: Cte)

  datatype Irq =
    | TimerIrq
    | SignalIrq(aep: Obj, badge: Word)
    | OtherIrq

  /** The endpoint a fault is sent to, if the thread has one. */
  datatype Handler = NoHandler | HandledAt(ep: Obj, badge: Word)

  /** What a wait names: an endpoint, an asynchronous endpoint, or something that makes it a fault. */
  datatype Source =
    | FromEndpoint(ep: Obj, diminish: bool)
    | FromAsyncEndpoint(aep: Obj, isBlocking: bool, otherwise: Handler)
    | FromNothing(handler: Handler)

  /** What makes the kernel run. A deletion that is preempted has finalised some objects, and the interrupt that
      preempted it is handled at once. */
  datatype Event =
    | Invocation(call: Call)
    | Preempted(finals: seq<Final>, irq: Irq)
    | Wait(from: Source)
    | Reply(restart: bool)
    | ReplyWait(restart: bool, from: Source)
    | YieldCall
    | Fault(handler: Handler)
    | Interrupt(irq: Irq)

  /** All that decides about the scheduler. */
  datatype Scene = Scene(p: Params, s: Sched, q: Queues, r: Replies, fault: set<Tcb>, badge: map<Tcb, Word>,
                         canGrant: map<Tcb, bool>, isCall: map<Tcb, bool>, diminishCaps: map<Tcb, bool>,
                         b: Bindings, register: map<Tcb, Word>)

  ghost predicate Sound(w: Scene) {
    AllOk(w.p, w.s, w.q, w.r)
  }

  predicate Ordinary(w: Scene, t: Tcb) {
    t in w.s.state && t != w.s.idle
  }

  /** An object with its queue. */
  predicate Has(w: Scene, o: Obj) {
    o in w.q.state && o in w.q.waiting && (Queueing(w.q.state[o]) ==> w.q.waiting[o] != [])
  }

  /** Bindings lead to threads and endpoints that exist; an event naming others cannot happen. */
  predicate Usable(w: Scene, aep: Obj) {
    Has(w, aep) && aep.AsyncEndpoint? && (aep in w.b.tcb ==> w.b.tcb[aep] in w.s.state)
  }

  predicate Receivable(w: Scene, t: Tcb, ep: Obj) {
    Has(w, ep) && ep.Endpoint? && (t in w.b.aep ==> w.b.aep[t] in w.q.state)
  }

  // ---- The steps of every call ----

  function Unblock(w: Scene, t: Tcb): seq<Op> {
    if t in w.s.state && Waits(w.s.state[t]) then [Stop(t, Inactive)] else []
  }

  /** What a caller whose message was delivered has to wait for. */
  function CallerStops(caller: Tcb, mayReply: bool): seq<Op> {
    [Stop(caller, if mayReply then BlockedOnReply else Inactive)]
  }

  function SendSteps(w: Scene, blocking: bool, doCall: bool, grant: bool, thread: Tcb, ep: Obj): seq<Op> {
    if !Has(w, ep) || !ep.Endpoint? then []
    else if w.q.state[ep] == Recv then
      var dest := w.q.waiting[ep][0];
      [Wake(dest, Running, true)]
      + if doCall || thread in w.fault then CallerStops(thread, grant && !I.Flag(w.diminishCaps, dest)) else []
    else if blocking then [Stop(thread, BlockedOnSend)]
    else []
  }

  function BadgeSteps(w: Scene, aep: Obj): seq<Op> {
    if !Usable(w, aep) then []
    else if w.q.state[aep] == Waiting then [Wake(w.q.waiting[aep][0], Running, false)]
    else if w.q.state[aep] == Idle && aep in w.b.tcb && I.Awaits(w.s.state[w.b.tcb[aep]]) then
      Unblock(w, w.b.tcb[aep]) + [Wake(w.b.tcb[aep], Running, true)]
    else []
  }

  function ThreadSteps(w: Scene, call: Call, thread: Tcb): seq<Op> {
    match call
    case SuspendThread(t) => if Ordinary(w, t) then Unblock(w, t) + [Suspend(t)] else []
    case ResumeThread(t) =>
      if Ordinary(w, t) && Blocked(w.s.state[t]) then Unblock(w, t) + [RestartThread(t)] else []
    case ChangePriority(t, prio) =>
      if Ordinary(w, t) && prio < w.p.cfg.numPrios && thread in w.s.key && prio <= w.s.key[thread].prio then
        [SetPriority(t, prio)]
      else []
    case ChangeDomain(t, dom) => if Ordinary(w, t) && dom < w.p.cfg.numDomains then [SetDomain(t, dom)] else []
    case _ => []
  }

  ghost function CancelSteps(w: Scene, ep: Obj, badge: Word): seq<Op> {
    if Has(w, ep) && w.q.state[ep] == Send then [WakeAll(I.Filter(w.q.waiting[ep], w.badge, badge, true))] else []
  }

  // ---- Deletion: one object after another ----

  function FinalSteps(w: Scene, f: Final): seq<Op> {
    match f
    case LastEndpoint(o) => if Has(w, o) && Queueing(w.q.state[o]) then [WakeAll(w.q.waiting[o])] else []
    case LastThread(t) => if Ordinary(w, t) then Unblock(w, t) + [Suspend(t)] else []
    case ReplyCap(_) => []
  }

  ghost function EndpointGone(w: Scene, o: Obj): Scene
    requires Has(w, o)
  {
    var w' := if o.AsyncEndpoint? && o in w.b.tcb then w.(b := Unbind(w.b, w.b.tcb[o])) else w;
    if Queueing(w.q.state[o]) then
      w'.(q := Emptied(w.q, o), s := RescheduleRequired(WakeEach(w.s, w.q.waiting[o])))
    else w'
  }

  /** suspend */
  ghost function Halted(w: Scene, t: Tcb): Scene {
    w.(s := Suspended(I.Unblocked(w.s, t), t), q := Withdrawn(w.q, w.s.state, t),
       r := Dropped(Forgiven(w.r, t), CallerSlot(t)),
       fault := if t in w.s.state && w.s.state[t] == BlockedOnReply then w.fault - {t} else w.fault)
  }

  ghost function ThreadGone(w: Scene, t: Tcb): Scene {
    var w' := Halted(w, t);
    w'.(b := Unbind(w.b, t), r := w'.r.(master := w.r.master - {t}))
  }

  /** The state once the object is finalised. */
  ghost function After(w: Scene, f: Final): Scene {
    match f
    case LastEndpoint(o) => if Has(w, o) then EndpointGone(w, o) else w
    case LastThread(t) => if Ordinary(w, t) then ThreadGone(w, t) else w
    case ReplyCap(slot) => w.(r := Dropped(w.r, slot))
  }

  ghost function AfterAll(w: Scene, finals: seq<Final>): Scene
    decreases |finals|
  {
    if finals == [] then w else AfterAll(After(w, finals[0]), finals[1..])
  }

  ghost function DeleteSteps(w: Scene, finals: seq<Final>): seq<Op>
    decreases |finals|
  {
    if finals == [] then [] else FinalSteps(w, finals[0]) + DeleteSteps(After(w, finals[0]), finals[1..])
  }

  /** Using the reply cap in a slot, if there is one. */
  function ReplySteps(w: Scene, slot: Cte, restart: bool): seq<Op> {
    if slot !in w.r.caps then []
    else if w.r.caps[slot] !in w.fault then [Wake(w.r.caps[slot], Running, true)]
    else if restart then [Wake(w.r.caps[slot], Restart, true)]
    else [Stop(w.r.caps[slot], Inactive)]
  }

  ghost function CallSteps(w: Scene, call: Call, thread: Tcb): seq<Op> {
    match call
    case SendMessage(blocking, doCall, _, grant, ep) => SendSteps(w, blocking, doCall, grant, thread, ep)
    case SendBadge(aep, _) => BadgeSteps(w, aep)
    case CancelSends(ep, badge) => CancelSteps(w, ep, badge)
    case Delete(finals) => DeleteSteps(w, finals)
    case ReplyThrough(slot, restart) => if slot.CNodeSlot? then ReplySteps(w, slot, restart) else []
    case _ => ThreadSteps(w, call, thread)
  }

  // ---- The steps of every event ----

  function FaultSteps(w: Scene, thread: Tcb, handler: Handler): seq<Op> {
    match handler
    case NoHandler => [Stop(thread, Inactive)]
    case HandledAt(ep, _) => SendSteps(w.(fault := w.fault + {thread}), true, false, true, thread, ep)
  }

  function ReceiveSteps(w: Scene, thread: Tcb, ep: Obj, diminish: bool): seq<Op> {
    if !Receivable(w, thread, ep) || (thread in w.b.aep && w.q.state[w.b.aep[thread]].Active?) then []
    else if w.q.state[ep] == Send then
      var sender := w.q.waiting[ep][0];
      if I.Flag(w.isCall, sender) || sender in w.fault then
        CallerStops(sender, I.Flag(w.canGrant, sender) && !diminish)
      else [Wake(sender, Running, false)]
    else [Stop(thread, BlockedOnReceive)]
  }

  /** A thread may not wait for an asynchronous endpoint that is bound to another one. */
  predicate BoundElsewhere(w: Scene, thread: Tcb, aep: Obj) {
    aep in w.b.tcb && w.b.tcb[aep] != thread
  }

  function PollSteps(w: Scene, thread: Tcb, aep: Obj, isBlocking: bool): seq<Op> {
    if Has(w, aep) && aep.AsyncEndpoint? && !w.q.state[aep].Active? && isBlocking then
      [Stop(thread, BlockedOnAsyncEvent)]
    else []
  }

  function WaitSteps(w: Scene, thread: Tcb, from: Source): seq<Op> {
    match from
    case FromEndpoint(ep, diminish) => ReceiveSteps(w, thread, ep, diminish)
    case FromAsyncEndpoint(aep, isBlocking, otherwise) =>
      if BoundElsewhere(w, thread, aep) then FaultSteps(w, thread, otherwise)
      else PollSteps(w, thread, aep, isBlocking)
    case FromNothing(handler) => FaultSteps(w, thread, handler)
  }

  function Answered(w: Scene, thread: Tcb): set<Tcb> {
    if CallerSlot(thread) in w.r.caps then w.fault - {w.r.caps[CallerSlot(thread)]} else w.fault
  }

  /** The caller of an invocation counts as restarting meanwhile. */
  ghost function InvocationSteps(w: Scene, call: Call, thread: Tcb): seq<Op> {
    var w' := w.(s := SetThreadState(w.s, thread, Restart));
    var ops := CallSteps(w', call, thread);
    var s' := Steps(w.p, w'.s, ops);
    [Mark(thread, Restart)] + ops
    + if thread in s'.state && s'.state[thread].Restart? then [Mark(thread, Running)] else []
  }

  function IrqSteps(w: Scene, irq: Irq): seq<Op> {
    match irq
    case TimerIrq => [Tick]
    case SignalIrq(aep, _) => BadgeSteps(w, aep)
    case OtherIrq => []
  }

  ghost function PreemptedSteps(w: Scene, finals: seq<Final>, irq: Irq, thread: Tcb): seq<Op> {
    var w' := w.(s := SetThreadState(w.s, thread, Restart));
    [Mark(thread, Restart)] + DeleteSteps(w', finals) + IrqSteps(AfterAll(w', finals), irq)
  }

  ghost function SyscallSteps(w: Scene, e: Event): seq<Op> {
    var thread := w.s.cur;
    match e
    case Invocation(call) => InvocationSteps(w, call, thread)
    case Preempted(finals, irq) => PreemptedSteps(w, finals, irq, thread)
    case Wait(from) => WaitSteps(w, thread, from)
    case Reply(restart) => ReplySteps(w, CallerSlot(thread), restart)
    case ReplyWait(restart, from) =>
      ReplySteps(w, CallerSlot(thread), restart) + WaitSteps(w.(fault := Answered(w, thread)), thread, from)
    case YieldCall => [Yield]
    case Fault(handler) => FaultSteps(w, thread, handler)
    case Interrupt(_) => []
  }

  /** Everything but an interrupt needs a thread that runs; an interrupt may find the processor idle. */
  ghost function EventSteps(w: Scene, e: Event): seq<Op> {
    match e
    case Interrupt(irq) => IrqSteps(w, irq)
    case _ => if w.s.cur in w.s.state && Runnable(w.s.state[w.s.cur]) then SyscallSteps(w, e) else []
  }

  // ---- Series of steps ----

  /** The steps are allowed where they are taken, and lead from `s` to `s'`. */
  ghost predicate Does(p: Params, s: Sched, s': Sched, ops: seq<Op>) {
    AllAllowed(p, s, ops) && s' == Steps(p, s, ops)
  }

  lemma {:induction false} NoStep(p: Params, s: Sched)
    ensures Does(p, s, s, [])
  {
  }

  lemma {:induction false} OneStep(p: Params, s: Sched, op: Op)
    requires Known(p, s) && Allowed(p, s, op)
    ensures Does(p, s, Apply(p, s, op), [op])
  {
    assert [op][1..] == [];
  }

  lemma {:induction false} Then(p: Params, s: Sched, s1: Sched, s2: Sched, a: seq<Op>, b: seq<Op>)
    requires Does(p, s, s1, a) && Does(p, s1, s2, b)
    ensures Does(p, s, s2, a + b)
    decreases |a|
  {
    if a == [] {
      assert a + b == b;
    } else {
      assert (a + b)[0] == a[0] && (a + b)[1..] == a[1..] + b;
      Then(p, Apply(p, s, a[0]), s1, s2, a[1..], b);
    }
  }

  // ---- What Ipc leaves, as a scene ----

  /** sendIPC */
  ghost predicate Sends(w: Scene, w': Scene, blocking: bool, doCall: bool, badge: Word, grant: bool, thread: Tcb,
                        ep: Obj)
  {
    && Has(w, ep)
    && if w.q.state[ep] == Recv then
         var dest := w.q.waiting[ep][0];
         var wantsReply, mayReply := doCall || thread in w.fault, grant && !I.Flag(w.diminishCaps, dest);
         w' == w.(q := Left(w.q, dest, ep), register := w.register[dest := badge],
                  s := I.AfterCall(I.Woken(w.p, w.s, dest, true), thread, wantsReply, mayReply),
                  r := if wantsReply && mayReply then Owed(w.r, thread, dest) else w.r)
       else if blocking then
         w' == w.(s := SetThreadState(w.s, thread, BlockedOnSend), q := Joined(w.q, thread, ep, Send),
                  badge := w.badge[thread := badge], canGrant := w.canGrant[thread := grant],
                  isCall := w.isCall[thread := doCall])
       else w' == w
  }

  predicate WakesBound(w: Scene, aep: Obj)
    requires Usable(w, aep)
  {
    w.q.state[aep] == Idle && aep in w.b.tcb && I.Awaits(w.s.state[w.b.tcb[aep]])
  }

  /** sendAsyncIPC */
  ghost function Signalled(w: Scene, aep: Obj, badge: Word): Scene
    requires Usable(w, aep)
  {
    if w.q.state[aep] == Waiting then
      var dest := w.q.waiting[aep][0];
      w.(s := I.Woken(w.p, w.s, dest, false), q := Left(w.q, dest, aep), register := w.register[dest := badge])
    else if WakesBound(w, aep) then
      var t := w.b.tcb[aep];
      w.(s := I.Interrupted(w.p, w.s, t), q := Withdrawn(w.q, w.s.state, t), register := w.register[t := badge])
    else w.(q := w.q.(state := w.q.state[aep := Active(Pending(w.q.state, aep) + badge)]))
  }

  lemma SignalIs(w: Scene, s': Sched, q': Queues, register': map<Tcb, Word>, aep: Obj, badge: Word)
    requires Usable(w, aep)
    requires w.q.state[aep] == Waiting ==>
      var dest := w.q.waiting[aep][0];
      (q', s', register') == (Left(w.q, dest, aep), I.Woken(w.p, w.s, dest, false), w.register[dest := badge])
    requires WakesBound(w, aep) ==>
      var t := w.b.tcb[aep];
      (q', s', register') == (Withdrawn(w.q, w.s.state, t), I.Interrupted(w.p, w.s, t), w.register[t := badge])
    requires !WakesBound(w, aep) && w.q.state[aep] != Waiting ==>
      (q', s', register') == (w.q.(state := w.q.state[aep := Active(Pending(w.q.state, aep) + badge)]), w.s, w.register)
    ensures w.(s := s', q := q', register := register') == Signalled(w, aep, badge)
  {
  }

  /** receiveAsyncIPC */
  ghost predicate Polls(w: Scene, w': Scene, thread: Tcb, aep: Obj, isBlocking: bool) {
    && Has(w, aep) && aep.AsyncEndpoint?
    && if w.q.state[aep].Active? then
         w' == w.(q := I.Took(w.q, aep), register := w.register[thread := w.q.state[aep].msgIdentifier])
       else if isBlocking then
         w' == w.(s := SetThreadState(w.s, thread, BlockedOnAsyncEvent), q := Joined(w.q, thread, aep, Waiting))
       else w' == w.(register := w.register[thread := {}])
  }

  /** handleWait of an endpoint capability, from the sight of it to what receiving makes of that. */
  ghost predicate Receives(w: Scene, w': Scene, v: I.View, thread: Tcb, ep: Obj, diminish: bool) {
    && Receivable(w, thread, ep) && Sights(w, v) && v.r == Dropped(w.r, CallerSlot(thread))
    && v.diminishCaps == w.diminishCaps && v.register == w.register
    && w' == Shown(w, I.Received(w.p, v, w.b, thread, ep, diminish))
  }

  ghost function Shown(w: Scene, v: I.View): Scene {
    w.(s := v.s, q := v.q, r := v.r, diminishCaps := v.diminishCaps, register := v.register)
  }

  /** doReplyTransfer */
  ghost function ReplyUsed(w: Scene, slot: Cte, restart: bool): Scene {
    if slot !in w.r.caps then w
    else
      var t := w.r.caps[slot];
      w.(s := I.Replied(w.p, w.s, t, t in w.fault, restart), r := Paid(w.r, slot), fault := w.fault - {t},
         register := if t in w.fault then w.register else w.register[t := {}])
  }

  /** restart of a blocked thread */
  ghost predicate Revives(w: Scene, w': Scene, t: Tcb) {
    var s1 := I.Unblocked(w.s, t);
    && t in w.s.state && Blocked(w.s.state[t]) && t in s1.key && s1.cur in s1.key
    && w' == w.(s := Restarted(w.p, s1, t), q := Withdrawn(w.q, w.s.state, t),
                r := Forgiven(w.r, t).(master := w.r.master + {t}),
                fault := if w.s.state[t] == BlockedOnReply then w.fault - {t} else w.fault)
  }

  /** epCancelBadgedSends */
  ghost predicate Cancels(w: Scene, w': Scene, ep: Obj, badge: Word) {
    && Has(w, ep)
    && if w.q.state[ep] == Send then
         && w' == w.(s := RescheduleRequired(WakeEach(w.s, I.Filter(w.q.waiting[ep], w.badge, badge, true))), q := w'.q)
         && w'.q.waiting == w.q.waiting[ep := I.Filter(w.q.waiting[ep], w.badge, badge, false)]
         && w'.q.state == w.q.state[ep := if w'.q.waiting[ep] == [] then Idle else Send]
       else w' == w
  }

  // ---- Each result is what its steps lead to ----

  /** A thread that waits, or waits for its reply, is in no ready queue. */
  lemma Asleep(w: Scene, t: Tcb)
    requires Sound(w) && t in w.s.state && !Runnable(w.s.state[t])
    ensures Known(w.p, w.s) && !w.s.queued[t] && w.s.action != SwitchTo(t)
  {
    AllAspects(w.p, w.s, w.q, w.r);
    BlockedUnqueued(w.p, w.s, t);
  }

  lemma HeadWaits(w: Scene, o: Obj)
    requires Sound(w) && Has(w, o) && Queueing(w.q.state[o])
    ensures var t := w.q.waiting[o][0];
      t in w.s.state && t != w.s.idle && Waits(w.s.state[t]) && !Runnable(w.s.state[t])
  {
    AllAspects(w.p, w.s, w.q, w.r);
    ConsistentMeans(w.q, w.s.state, o);
    assert w.q.waiting[o][0] in w.q.waiting[o];
  }

  lemma Stops(w: Scene, t: Tcb, ts: ThreadState)
    requires Sound(w) && t in w.s.state && t != w.s.idle && !Runnable(ts)
    requires Engaged(w.s, t) || !Runnable(w.s.state[t])
    ensures Does(w.p, w.s, SetThreadState(w.s, t, ts), [Stop(t, ts)])
  {
    AllAspects(w.p, w.s, w.q, w.r);
    if !Runnable(w.s.state[t]) { Asleep(w, t); }
    OneStep(w.p, w.s, Stop(t, ts));
  }

  lemma Wakes(w: Scene, t: Tcb, ts: ThreadState, onSame: bool)
    requires Sound(w) && t in w.s.state && t != w.s.idle && Runnable(ts) && (t == w.s.cur ==> onSame)
    ensures Does(w.p, w.s, I.Readied(w.p, w.s, t, ts, onSame), [Wake(t, ts, onSame)])
  {
    AllAspects(w.p, w.s, w.q, w.r);
    OneStep(w.p, w.s, Wake(t, ts, onSame));
  }

  lemma Unblocks(w: Scene, t: Tcb)
    requires Sound(w) && t != w.s.idle
    ensures Does(w.p, w.s, I.Unblocked(w.s, t), Unblock(w, t))
  {
    if t in w.s.state && Waits(w.s.state[t]) { Stops(w, t, Inactive); } else { NoStep(w.p, w.s); }
  }

  lemma SendDone(w: Scene, w': Scene, blocking: bool, doCall: bool, badge: Word, grant: bool, thread: Tcb, ep: Obj)
    requires Sound(w) && Engaged(w.s, thread) && thread != w.s.idle && ep.Endpoint?
    requires Sends(w, w', blocking, doCall, badge, grant, thread, ep)
    ensures Does(w.p, w.s, w'.s, SendSteps(w, blocking, doCall, grant, thread, ep))
  {
    if w.q.state[ep] == Recv {
      HeadWaits(w, ep);
      Delivered(w, thread, w.q.waiting[ep][0], doCall || thread in w.fault,
                grant && !I.Flag(w.diminishCaps, w.q.waiting[ep][0]));
    } else if blocking {
      Stops(w, thread, BlockedOnSend);
    } else {
      NoStep(w.p, w.s);
    }
  }

  lemma Delivered(w: Scene, thread: Tcb, dest: Tcb, wantsReply: bool, mayReply: bool)
    requires Sound(w) && Engaged(w.s, thread) && thread != w.s.idle && thread != dest
    requires dest in w.s.state && dest != w.s.idle
    ensures Does(w.p, w.s, I.AfterCall(I.Woken(w.p, w.s, dest, true), thread, wantsReply, mayReply),
                 [Wake(dest, Running, true)] + if wantsReply then CallerStops(thread, mayReply) else [])
  {
    AllAspects(w.p, w.s, w.q, w.r);
    var s1 := I.Woken(w.p, w.s, dest, true);
    Wakes(w, dest, Running, true);
    if wantsReply {
      I.WakeSpares(w.p, w.s, dest, true, thread);
      SwitchKnown(w.p, SetThreadState(w.s, dest, Running), dest, true);
      OneStep(w.p, s1, Stop(thread, if mayReply then BlockedOnReply else Inactive));
      Then(w.p, w.s, s1, I.AfterCall(s1, thread, true, mayReply),
           [Wake(dest, Running, true)], CallerStops(thread, mayReply));
    }
  }

  /** Nobody asleep is current. */
  ghost predicate Awake(w: Scene) {
    w.s.cur in w.s.state && !Waits(w.s.state[w.s.cur])
  }

  lemma BadgeDone(w: Scene, aep: Obj, badge: Word)
    requires Sound(w) && Awake(w) && Usable(w, aep)
    ensures Does(w.p, w.s, Signalled(w, aep, badge).s, BadgeSteps(w, aep))
  {
    if w.q.state[aep] == Waiting {
      HeadWaits(w, aep);
      Wakes(w, w.q.waiting[aep][0], Running, false);
    } else if WakesBound(w, aep) {
      BoundWoken(w, w.b.tcb[aep]);
    } else {
      NoStep(w.p, w.s);
    }
  }

  lemma BoundWoken(w: Scene, t: Tcb)
    requires Sound(w) && t in w.s.state && I.Awaits(w.s.state[t])
    ensures Does(w.p, w.s, I.Interrupted(w.p, w.s, t), Unblock(w, t) + [Wake(t, Running, true)])
  {
    AllAspects(w.p, w.s, w.q, w.r);
    Unblocks(w, t);
    var s1 := I.Unblocked(w.s, t);
    OneStep(w.p, s1, Wake(t, Running, true));
    Then(w.p, w.s, s1, I.Interrupted(w.p, w.s, t), Unblock(w, t), [Wake(t, Running, true)]);
  }

  lemma SuspendDone(w: Scene, t: Tcb)
    requires Sound(w) && Ordinary(w, t) && !w.s.action.SwitchTo?
    ensures Does(w.p, w.s, Halted(w, t).s, Unblock(w, t) + [Suspend(t)])
  {
    AllAspects(w.p, w.s, w.q, w.r);
    Unblocks(w, t);
    var s1 := I.Unblocked(w.s, t);
    OneStep(w.p, s1, Suspend(t));
    Then(w.p, w.s, s1, Suspended(s1, t), Unblock(w, t), [Suspend(t)]);
  }

  lemma UnblockedKnown(p: Params, s: Sched, t: Tcb)
    requires Known(p, s) && t in s.state && Blocked(s.state[t])
    ensures var s1 := I.Unblocked(s, t);
      Known(p, s1) && s1.idle == s.idle && t in s1.state && Blocked(s1.state[t])
  {
  }

  lemma RestartDone(w: Scene, w': Scene, t: Tcb)
    requires Sound(w) && Ordinary(w, t) && Revives(w, w', t)
    ensures Does(w.p, w.s, w'.s, Unblock(w, t) + [RestartThread(t)])
  {
    var s1, s' := I.Unblocked(w.s, t), w'.s;
    AllAspects(w.p, w.s, w.q, w.r);
    Unblocks(w, t);
    UnblockedKnown(w.p, w.s, t);
    RestartStep(w.p, s1, s', t);
    Then(w.p, w.s, s1, s', Unblock(w, t), [RestartThread(t)]);
  }

  lemma RestartStep(p: Params, s: Sched, s': Sched, t: Tcb)
    requires Known(p, s) && t in s.state && t != s.idle && Blocked(s.state[t]) && s' == Restarted(p, s, t)
    ensures Does(p, s, s', [RestartThread(t)])
  {
    OneStep(p, s, RestartThread(t));
  }

  lemma KeyDone(w: Scene, op: Op)
    requires Sound(w) && Known(w.p, w.s) && Allowed(w.p, w.s, op)
    ensures Does(w.p, w.s, Apply(w.p, w.s, op), [op])
  {
    OneStep(w.p, w.s, op);
  }

  lemma WakeAllDone(w: Scene, o: Obj, ts: seq<Tcb>)
    requires Sound(w) && o in w.q.waiting && forall t: Tcb :: t in ts ==> t in w.q.waiting[o]
    ensures Does(w.p, w.s, RescheduleRequired(WakeEach(w.s, ts)), [WakeAll(ts)])
  {
    AllAspects(w.p, w.s, w.q, w.r);
    ConsistentMeans(w.q, w.s.state, o);
    OneStep(w.p, w.s, WakeAll(ts));
  }

  lemma CancelDone(w: Scene, w': Scene, ep: Obj, badge: Word)
    requires Sound(w) && Cancels(w, w', ep, badge)
    ensures Does(w.p, w.s, w'.s, CancelSteps(w, ep, badge))
  {
    if w.q.state[ep] == Send {
      I.FilterMembers(w.q.waiting[ep], w.badge, badge, true);
      WakeAllDone(w, ep, I.Filter(w.q.waiting[ep], w.badge, badge, true));
    } else {
      NoStep(w.p, w.s);
    }
  }

  lemma ReplyDone(w: Scene, slot: Cte, restart: bool)
    requires Sound(w) && slot in w.r.caps
    ensures var t := w.r.caps[slot];
      t in w.s.state && Does(w.p, w.s, I.Replied(w.p, w.s, t, t in w.fault, restart), ReplySteps(w, slot, restart))
  {
    AllAspects(w.p, w.s, w.q, w.r);
    SettleOk(w.p, w.s, w.q, w.r, slot);
    var t := w.r.caps[slot];
    if t !in w.fault {
      Wakes(w, t, Running, true);
    } else if restart {
      Wakes(w, t, Restart, true);
    } else {
      Stops(w, t, Inactive);
    }
  }

  /** Replying to another thread leaves the engaged one alone. */
  lemma ReplySpares(p: Params, s: Sched, t: Tcb, hasFault: bool, restart: bool, u: Tcb)
    requires Known(p, s) && t in s.state && u != t && Engaged(s, u)
    ensures var s' := I.Replied(p, s, t, hasFault, restart);
      Engaged(s', u) && s'.cur == s.cur && s'.idle == s.idle
  {
    var ts := if !hasFault then Running else if restart then Restart else Inactive;
    StateSpares(p, s, t, ts, u);
    if !hasFault || restart {
      SwitchSpares(p, SetThreadState(s, t, ts), t, true, u);
      SwitchCur(p, SetThreadState(s, t, ts), t);
    }
  }

  lemma {:induction false} SwitchCur(p: Params, s: Sched, t: Tcb)
    requires t in s.key && s.cur in s.key
    ensures PossibleSwitchTo(p, s, t, true).cur == s.cur && PossibleSwitchTo(p, s, t, true).idle == s.idle
  {
  }

  /** The reply leaves the thread that replies at work. */
  lemma Answers(w: Scene, thread: Tcb, slot: Cte, restart: bool)
    requires Sound(w) && Engaged(w.s, thread)
    ensures var s' := ReplyUsed(w, slot, restart).s;
      && Does(w.p, w.s, s', ReplySteps(w, slot, restart))
      && Engaged(s', thread) && s'.cur == w.s.cur && s'.idle == w.s.idle
  {
    AllAspects(w.p, w.s, w.q, w.r);
    if slot in w.r.caps {
      var caller := w.r.caps[slot];
      ReplyDone(w, slot, restart);
      SettleOk(w.p, w.s, w.q, w.r, slot);
      ReplySpares(w.p, w.s, caller, caller in w.fault, restart, thread);
    } else {
      NoStep(w.p, w.s);
    }
  }

  /** The part of the scene that receiving looks at, and does not find changed by giving up a reply. */
  ghost predicate Sights(w: Scene, v: I.View) {
    && v.s == w.s && v.q == w.q && v.fault == w.fault
    && v.badge == w.badge && v.canGrant == w.canGrant && v.isCall == w.isCall
  }

  lemma ReceivedIs(w: Scene, v: I.View, thread: Tcb, ep: Obj, diminish: bool)
    requires Receivable(w, thread, ep) && Sights(w, v)
    requires !(thread in w.b.aep && w.q.state[w.b.aep[thread]].Active?)
    ensures var s' := I.Received(w.p, v, w.b, thread, ep, diminish).s;
      s' == if w.q.state[ep] == Send then FirstCollected(w, ep, diminish)
            else SetThreadState(w.s, thread, BlockedOnReceive)
  {
  }

  ghost function FirstCollected(w: Scene, ep: Obj, diminish: bool): Sched
    requires Has(w, ep) && w.q.state[ep] == Send
  {
    var sender := w.q.waiting[ep][0];
    if !I.Flag(w.isCall, sender) && sender !in w.fault then I.Woken(w.p, w.s, sender, false)
    else SetThreadState(w.s, sender, if I.Flag(w.canGrant, sender) && !diminish then BlockedOnReply else Inactive)
  }

  lemma ReceiveDone(w: Scene, w': Scene, v: I.View, thread: Tcb, ep: Obj, diminish: bool)
    requires Sound(w) && Engaged(w.s, thread) && thread == w.s.cur != w.s.idle
    requires Receives(w, w', v, thread, ep, diminish)
    ensures Does(w.p, w.s, w'.s, ReceiveSteps(w, thread, ep, diminish))
  {
    if thread in w.b.aep && w.q.state[w.b.aep[thread]].Active? {
      NoStep(w.p, w.s);
    } else if w.q.state[ep] == Send {
      ReceivedIs(w, v, thread, ep, diminish);
      CollectDone(w, thread, ep, diminish);
    } else {
      ReceivedIs(w, v, thread, ep, diminish);
      Stops(w, thread, BlockedOnReceive);
    }
  }

  lemma CollectDone(w: Scene, thread: Tcb, ep: Obj, diminish: bool)
    requires Sound(w) && thread == w.s.cur && Receivable(w, thread, ep) && Awake(w) && w.q.state[ep] == Send
    requires !(thread in w.b.aep && w.q.state[w.b.aep[thread]].Active?)
    ensures Does(w.p, w.s, FirstCollected(w, ep, diminish), ReceiveSteps(w, thread, ep, diminish))
  {
    HeadWaits(w, ep);
    var sender := w.q.waiting[ep][0];
    if I.Flag(w.isCall, sender) || sender in w.fault {
      Stops(w, sender, if I.Flag(w.canGrant, sender) && !diminish then BlockedOnReply else Inactive);
    } else {
      Wakes(w, sender, Running, false);
    }
  }

  /** Waiting does not depend on the scheduler or the replies. */
  lemma SameWaits(w: Scene, w1: Scene, thread: Tcb, from: Source)
    requires w1 == w.(s := w1.s, r := w1.r, register := w1.register)
    ensures WaitSteps(w1, thread, from) == WaitSteps(w, thread, from)
  {
    assert forall o :: Has(w1, o) <==> Has(w, o);
    match from
    case FromEndpoint(ep, diminish) => SameReceives(w, w1, thread, ep, diminish);
    case FromAsyncEndpoint(aep, isBlocking, otherwise) => SameFaults(w, w1, thread, otherwise);
    case FromNothing(handler) => SameFaults(w, w1, thread, handler);
  }

  lemma SameReceives(w: Scene, w1: Scene, thread: Tcb, ep: Obj, diminish: bool)
    requires w1 == w.(s := w1.s, r := w1.r, register := w1.register)
    ensures ReceiveSteps(w1, thread, ep, diminish) == ReceiveSteps(w, thread, ep, diminish)
  {
    assert Receivable(w1, thread, ep) <==> Receivable(w, thread, ep);
  }

  lemma SameFaults(w: Scene, w1: Scene, thread: Tcb, handler: Handler)
    requires w1 == w.(s := w1.s, r := w1.r, register := w1.register)
    ensures FaultSteps(w1, thread, handler) == FaultSteps(w, thread, handler)
  {
    if handler.HandledAt? { assert Has(w1, handler.ep) <==> Has(w, handler.ep); }
  }

  lemma {:induction false} ReplyWaitDone(w: Scene, w1: Scene, s': Sched, restart: bool, from: Source)
    requires w1 == ReplyUsed(w, CallerSlot(w.s.cur), restart)
    requires Does(w.p, w.s, w1.s, ReplySteps(w, CallerSlot(w.s.cur), restart))
    requires Does(w.p, w1.s, s', WaitSteps(w1, w.s.cur, from))
    ensures Does(w.p, w.s, s', SyscallSteps(w, ReplyWait(restart, from)))
  {
    var w0 := w.(fault := Answered(w, w.s.cur));
    SameWaits(w0, w1, w.s.cur, from);
    Then(w.p, w.s, w1.s, s', ReplySteps(w, CallerSlot(w.s.cur), restart), WaitSteps(w0, w.s.cur, from));
  }

  // ---- Between the objects of a deletion ----

  /** A state in which objects may be finalised: no thread is about to be switched to, and nobody asleep is current. */
  ghost predicate Calm(w: Scene) {
    Sound(w) && Awake(w) && !w.s.action.SwitchTo?
  }

  lemma GoneSettles(w: Scene, t: Tcb)
    requires Calm(w) && Ordinary(w, t)
    ensures Awake(ThreadGone(w, t)) && !ThreadGone(w, t).s.action.SwitchTo?
  {
  }

  lemma EndpointSettles(w: Scene, o: Obj)
    requires Calm(w) && Has(w, o) && Queueing(w.q.state[o])
    ensures Awake(EndpointGone(w, o)) && !EndpointGone(w, o).s.action.SwitchTo?
  {
    AllAspects(w.p, w.s, w.q, w.r);
    ConsistentMeans(w.q, w.s.state, o);
    WakeEachState(w.p, w.s, w.q.waiting[o]);
    WakeEachCur(w.s, w.q.waiting[o]);
  }

  lemma {:induction false} WakeEachCur(s: Sched, ts: seq<Tcb>)
    ensures WakeEach(s, ts).cur == s.cur
    decreases |ts|
  {
    if ts != [] { WakeEachCur(WakeOne(s, ts[0]), ts[1..]); }
  }

  // ---- The clock ----

  ghost predicate NoTick(ops: seq<Op>) {
    forall op :: op in ops ==> !op.Tick?
  }

  lemma {:induction false} DeletesNoTick(w: Scene, finals: seq<Final>)
    ensures NoTick(DeleteSteps(w, finals))
    decreases |finals|
  {
    if finals != [] { DeletesNoTick(After(w, finals[0]), finals[1..]); }
  }

  lemma {:induction false} CallsNoTick(w: Scene, call: Call, thread: Tcb)
    ensures NoTick(CallSteps(w, call, thread))
  {
    if call.Delete? { DeletesNoTick(w, call.finals); }
  }

  lemma {:induction false} WaitsNoTick(w: Scene, thread: Tcb, from: Source)
    ensures NoTick(WaitSteps(w, thread, from))
  {
  }

  lemma {:induction false} TickComesLast(w: Scene, ops: seq<Op>, irq: Irq)
    requires NoTick(ops)
    ensures TickLast(ops + IrqSteps(w, irq))
  {
  }

  lemma {:induction false} InvocationNoTick(w: Scene, call: Call, thread: Tcb)
    ensures NoTick(InvocationSteps(w, call, thread))
  {
    CallsNoTick(w.(s := SetThreadState(w.s, thread, Restart)), call, thread);
  }

  lemma {:induction false} PreemptedTickLast(w: Scene, finals: seq<Final>, irq: Irq, thread: Tcb)
    ensures TickLast(PreemptedSteps(w, finals, irq, thread))
  {
    var w' := w.(s := SetThreadState(w.s, thread, Restart));
    DeletesNoTick(w', finals);
    TickComesLast(AfterAll(w', finals), [Mark(thread, Restart)] + DeleteSteps(w', finals), irq);
  }

  /** An entry takes at most one tick, and takes it last. */
  lemma {:induction false} TicksAtMostOnce(w: Scene, e: Event)
    ensures TickLast(EventSteps(w, e))
  {
    match e
    case Invocation(call) => InvocationNoTick(w, call, w.s.cur);
    case Preempted(finals, irq) => PreemptedTickLast(w, finals, irq, w.s.cur);
    case Wait(from) => WaitsNoTick(w, w.s.cur, from);
    case ReplyWait(_, from) => WaitsNoTick(w.(fault := Answered(w, w.s.cur)), w.s.cur, from);
    case Fault(handler) => WaitsNoTick(w, w.s.cur, FromNothing(handler));
    case Interrupt(irq) => TickComesLast(w, [], irq);
    case _ =>
  }

  lemma {:induction false} AllowedKnown(p: Params, s: Sched, ops: seq<Op>)
    requires Ordered(p, s) && AllAllowed(p, s, ops)
    ensures StepsKnown(p, s, ops)
    decreases |ops|
  {
    OrderedKnown(p, s);
    if ops != [] {
      StepOrders(p, s, ops[0]);
      AllowedKnown(p, Apply(p, s, ops[0]), ops[1..]);
    }
  }

  /** From `s` to `s'` the clock goes on by so many ticks. */
  ghost predicate Passed(p: Params, s: Sched, s': Sched, more: nat) {
    forall ticks: nat :: OnTime(p, s, ticks) ==> OnTime(p, s', ticks + more)
  }

  lemma {:induction false} EntryPasses(p: Params, s0: Sched, s: Sched, ops: seq<Op>, n: nat)
    requires AtRest(p, s) && AllAllowed(p, s, ops) && TickLast(ops) && Passed(p, s0, s, n)
    ensures Passed(p, s0, Entry(p, s, ops), n + TicksOf(ops))
  {
    AllowedKnown(p, s, ops);
    forall ticks: nat | OnTime(p, s0, ticks) ensures OnTime(p, Entry(p, s, ops), ticks + (n + TicksOf(ops))) {
      EntryKeepsTime(p, s, ops, ticks + n);
    }
  }

  lemma {:induction false} CountFurther(entries: seq<seq<Op>>, ops: seq<Op>)
    ensures TickCount(entries + [ops]) == TickCount(entries) + TicksOf(ops)
    decreases |entries|
  {
    if entries == [] {
      assert (entries + [ops])[1..] == [];
    } else {
      CountFurther(entries[1..], ops);
      assert (entries + [ops])[1..] == entries[1..] + [ops];
    }
  }

  // ---- Runs of entries ----

  /** The entries are allowed where they are made, lead from `s0` to `s`, and move the clock by their ticks. */
  ghost predicate IsRun(p: Params, s0: Sched, s: Sched, entries: seq<seq<Op>>) {
    && RunAllowed(p, s0, entries) && s == Run(p, s0, entries)
    && Passed(p, s0, s, TickCount(entries))
  }

  lemma {:induction false} RunFurther(p: Params, s: Sched, entries: seq<seq<Op>>, ops: seq<Op>)
    requires RunAllowed(p, s, entries) && AllAllowed(p, Run(p, s, entries), ops)
    ensures RunAllowed(p, s, entries + [ops])
    ensures Run(p, s, entries + [ops]) == Entry(p, Run(p, s, entries), ops)
    decreases |entries|
  {
    if entries == [] {
      assert (entries + [ops])[1..] == [];
    } else {
      RunFurther(p, Entry(p, s, entries[0]), entries[1..], ops);
      assert (entries + [ops])[1..] == entries[1..] + [ops];
    }
  }

  lemma {:induction false} RunOn(p: Params, s0: Sched, s: Sched, entries: seq<seq<Op>>, ops: seq<Op>)
    requires IsRun(p, s0, s, entries) && AtRest(p, s) && AllAllowed(p, s, ops) && TickLast(ops)
    ensures IsRun(p, s0, Entry(p, s, ops), entries + [ops])
  {
    RunFurther(p, s0, entries, ops);
    CountFurther(entries, ops);
    EntryPasses(p, s0, s, ops, TickCount(entries));
  }
}
