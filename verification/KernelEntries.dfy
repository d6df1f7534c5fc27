/** Whole kernel entries, one after the other: system calls, invocations and interrupts, each ended by schedule() and
    activateThread() (syscall.c). */
module KernelEntries {
  import opened LinkedQueue
  import opened PriorityBitmap
  import opened SchedulerState
  import opened SchedulerRuns
  import Q = ReadyQueues
  import opened DomainRuns
  import opened DomainClock
  import opened IpcState
  import opened IpcSteps
  import opened EntrySteps
  import opened EntryMeaning
  import opened EntryFaces
  import L = EntryLaws
  import R = RoundRobin
  import S = Scheduler
  import I = Ipc

  lemma MarkEngages(p: Params, s: Sched, t: Tcb, ts: ThreadState)
    requires Known(p, s) && Engaged(s, t) && Runnable(ts)
    ensures Engaged(SetThreadState(s, t, ts), t) && SetThreadState(s, t, ts).action == s.action
  {
  }

  class Kernel {
    const ipc: I.Ipc

    /** Between entries. */
    ghost predicate Valid()
      reads ipc, ipc.sched, ipc.sched.rq
    {
      ipc.Valid() && AtRest(ipc.sched.p, ipc.sched.St())
    }

    constructor (ipc: I.Ipc)
      requires ipc.Valid() && AtRest(ipc.sched.p, ipc.sched.St())
      ensures Valid() && this.ipc == ipc
    {
      this.ipc := ipc;
    }

    /** The kernel is working for a thread that just trapped into it. */
    ghost predicate Serving(t: Tcb)
      reads ipc, ipc.sched, ipc.sched.rq
    {
      && ipc.Valid() && t in ipc.sched.state && t != ipc.sched.idle && t == ipc.sched.cur
      && Engaged(ipc.sched.St(), t) && ipc.sched.action == ResumeCurrentThread
    }

    /** The state as the next event finds it. */
    ghost function Now(): Scene
      reads ipc, ipc.sched, ipc.sched.rq
    {
      Scene(ipc.sched.p, ipc.sched.St(), ipc.Q(), ipc.R(), ipc.fault, ipc.badge, ipc.canGrant, ipc.isCall,
            ipc.diminishCaps, ipc.B(), ipc.badgeRegister)
    }

    ghost function St(): Sched
      reads ipc, ipc.sched, ipc.sched.rq
    {
      ipc.sched.St()
    }

    lemma Here()
      requires ipc.Valid()
      ensures Sound(Now()) && Known(ipc.sched.p, St())
      ensures forall o :: Has(Now(), o) <==> o in ipc.ostate
    {
      ipc.Meaning();
      AllAspects(ipc.sched.p, St(), ipc.Q(), ipc.R());
      forall o ensures Has(Now(), o) <==> o in ipc.ostate {
        ipc.HasObject(o);
        if o in ipc.waiting { ipc.HasQueue(o); }
      }
    }

    lemma Trapped()
      requires Valid() && ipc.sched.cur in ipc.sched.state && Runnable(ipc.sched.state[ipc.sched.cur])
      ensures Serving(ipc.sched.cur)
    {
      ipc.Meaning();
      RestEngages(ipc.sched.p, ipc.sched.St());
    }

    predicate Ordinary(t: Tcb)
      reads ipc.sched
    {
      t in ipc.sched.state && t != ipc.sched.idle
    }

    predicate CanSave(thread: Tcb, dest: Cte)
      reads ipc
    {
      CallerSlot(thread) in ipc.caps && dest.CNodeSlot? && dest !in ipc.caps
    }

    /** cteMove between two CNode slots. */
    predicate CanMove(src: Cte, dest: Cte)
      reads ipc
    {
      src.CNodeSlot? && src in ipc.caps && dest.CNodeSlot? && dest !in ipc.caps
    }

    predicate CanBind(t: Tcb, aep: Obj)
      reads ipc, ipc.sched
    {
      && Ordinary(t) && t !in ipc.boundAEP && aep.AsyncEndpoint? && aep in ipc.ostate
      && (aep in ipc.queues ==> ipc.queues[aep].head == NULL)
    }

    lemma Unwaited(o: Obj)
      requires ipc.Valid() && o in ipc.ostate
      ensures o in ipc.queues && o in ipc.waiting && Has(Now(), o)
      ensures ipc.queues[o].head == NULL <==> ipc.waiting[o] == []
    {
      Here();
      ipc.HasObject(o);
      ipc.HeadTells(o);
    }

    // ---- Invocations ----

    /** performInvocation, by what is invoked. A call that names objects which do not exist cannot happen, and does
        nothing here. */
    method Perform(call: Call, thread: Tcb)
      requires Serving(thread)
      modifies ipc, ipc.sched, ipc.sched.rq
      ensures ipc.Valid() && Does(ipc.sched.p, old(St()), St(), old(CallSteps(Now(), call, thread)))
      ensures Facing(Now()) == old(AfterCall(Facing(Now()), call, thread))
    {
      match call
      case SendMessage(blocking, doCall, badge, grant, ep) => Send(blocking, doCall, badge, grant, thread, ep);
      case SendBadge(aep, badge) => SendToAep(aep, badge);
      case CancelSends(ep, badge) => Cancel(ep, badge);
      case Delete(finals) => DeleteAll(finals, thread);
      case ReplyThrough(slot, restart) => ReplyBySlot(slot, restart, thread);
      case _ =>
        assert CallSteps(Now(), call, thread) == ThreadSteps(Now(), call, thread);
        PerformOnThread(call, thread);
    }

    method DeleteAll(finals: seq<Final>, thread: Tcb)
      requires Serving(thread)
      modifies ipc, ipc.sched, ipc.sched.rq
      ensures ipc.Valid() && Does(ipc.sched.p, old(St()), St(), old(CallSteps(Now(), Delete(finals), thread)))
      ensures Facing(Now()) == old(AfterCall(Facing(Now()), Delete(finals), thread))
    {
      Here();
      FinaliseAll(finals);
    }

    method Send(blocking: bool, doCall: bool, badge: Word, grant: bool, thread: Tcb, ep: Obj)
      requires Serving(thread)
      modifies ipc, ipc.sched, ipc.sched.rq
      ensures ipc.Valid()
      ensures Does(ipc.sched.p, old(St()), St(), old(SendSteps(Now(), blocking, doCall, grant, thread, ep)))
      ensures Facing(Now()) == old(AfterSend(Facing(Now()), blocking, doCall, badge, grant, thread, ep))
    {
      Here();
      ghost var w := Now();
      if ep in ipc.ostate && ep.Endpoint? {
        ipc.HasObject(ep);
        SendNow(blocking, doCall, badge, grant, thread, ep);
        SendDone(w, Now(), blocking, doCall, badge, grant, thread, ep);
        SentFace(w, Now(), blocking, doCall, badge, grant, thread, ep);
      } else {
        NoStep(w.p, w.s);
      }
    }

    method SendNow(blocking: bool, doCall: bool, badge: Word, grant: bool, thread: Tcb, ep: Obj)
      requires ipc.Valid() && Engaged(St(), thread) && ep in ipc.waiting && ep.Endpoint? && Has(Now(), ep)
      modifies ipc, ipc.sched, ipc.sched.rq
      ensures ipc.Valid() && Sends(old(Now()), Now(), blocking, doCall, badge, grant, thread, ep)
    {
      ipc.SendIPC(blocking, doCall, badge, grant, thread, ep);
    }

    method SendToAep(aep: Obj, badge: Word)
      requires ipc.Valid() && Awake(Now())
      modifies ipc, ipc.sched, ipc.sched.rq
      ensures ipc.Valid() && Does(ipc.sched.p, old(St()), St(), old(BadgeSteps(Now(), aep)))
      ensures Facing(Now()) == old(AfterBadge(Facing(Now()), aep, badge))
    {
      Here();
      ghost var w := Now();
      if aep in ipc.ostate && aep.AsyncEndpoint? && (aep in ipc.boundTCB ==> ipc.boundTCB[aep] in ipc.sched.state) {
        ipc.HasObject(aep);
        BadgeDone(w, aep, badge);
        SignalledFace(w, aep, badge);
        SignalNow(aep, badge);
      } else {
        NoStep(w.p, w.s);
      }
    }

    method SignalNow(aep: Obj, badge: Word)
      requires ipc.Valid() && Usable(Now(), aep)
      modifies ipc, ipc.sched, ipc.sched.rq
      ensures ipc.Valid() && Now() == old(Signalled(Now(), aep, badge))
    {
      SignalMore(aep, badge);
    }

    method SignalMore(aep: Obj, badge: Word)
      requires ipc.Valid() && Usable(Now(), aep)
      modifies ipc`next, ipc`prev, ipc`queues, ipc`ostate, ipc`waiting, ipc`caller, ipc`caps, ipc`fault
      modifies ipc`badgeRegister, ipc`sent, ipc`delivered, ipc.sched, ipc.sched.rq
      ensures ipc.Valid()
      ensures Now() == old(Signalled(Now(), aep, badge)).(badge := ipc.badge, canGrant := ipc.canGrant)
    {
      SignalPart(aep, badge);
    }

    method SignalPart(aep: Obj, badge: Word)
      requires ipc.Valid() && Usable(Now(), aep)
      modifies ipc`next, ipc`prev, ipc`queues, ipc`ostate, ipc`waiting, ipc`caller, ipc`caps, ipc`fault
      modifies ipc`badgeRegister, ipc`sent, ipc`delivered, ipc.sched, ipc.sched.rq
      ensures ipc.Valid() && St() == old(Signalled(Now(), aep, badge)).s
      ensures ipc.Q() == old(Signalled(Now(), aep, badge)).q
      ensures ipc.badgeRegister == old(Signalled(Now(), aep, badge)).register
      ensures ipc.R() == old(ipc.R()) && ipc.fault == old(ipc.fault) && ipc.B() == old(ipc.B())
    {
      ipc.SendAsyncIPC(aep, badge);
    }

    /** Invoking a reply cap saved in a CNode slot: doReplyTransfer with that slot. */
    method ReplyBySlot(slot: Cte, restart: bool, thread: Tcb)
      requires Serving(thread)
      modifies ipc, ipc.sched, ipc.sched.rq
      ensures ipc.Valid()
      ensures Does(ipc.sched.p, old(St()), St(), old(CallSteps(Now(), ReplyThrough(slot, restart), thread)))
      ensures Facing(Now()) == old(AfterCall(Facing(Now()), ReplyThrough(slot, restart), thread))
    {
      if slot.CNodeSlot? {
        ReplyFrom(slot, restart, thread);
      } else {
        NoStep(ipc.sched.p, St());
      }
    }

    method ReplyFrom(slot: Cte, restart: bool, thread: Tcb)
      requires Serving(thread) && slot.CNodeSlot?
      modifies ipc, ipc.sched, ipc.sched.rq
      ensures ipc.Valid() && Does(ipc.sched.p, old(St()), St(), old(ReplySteps(Now(), slot, restart)))
      ensures Facing(Now()) == old(AfterReply(Facing(Now()), slot, restart))
    {
      Here();
      ghost var w := Now();
      if slot in ipc.caps {
        Answers(w, thread, slot, restart);
        RepliedFace(w, slot, restart);
        ReplyNow(slot, restart);
      } else {
        NoStep(w.p, w.s);
      }
    }

    method ReplyNow(slot: Cte, restart: bool)
      requires ipc.Valid() && slot in ipc.caps && slot.CNodeSlot?
      modifies ipc, ipc.sched, ipc.sched.rq
      ensures ipc.Valid() && Now() == old(ReplyUsed(Now(), slot, restart))
    {
      ipc.DoReplyTransfer(ipc.caps[slot], slot, restart);
    }

    method PerformOnThread(call: Call, thread: Tcb)
      requires Serving(thread)
      requires !call.SendMessage? && !call.SendBadge? && !call.CancelSends? && !call.Delete? && !call.ReplyThrough?
      modifies ipc, ipc.sched, ipc.sched.rq
      ensures ipc.Valid() && Does(ipc.sched.p, old(St()), St(), old(ThreadSteps(Now(), call, thread)))
      ensures Facing(Now()) == old(AfterCall(Facing(Now()), call, thread))
    {
      match call
      case SuspendThread(t) => StopThread(t);
      case ResumeThread(t) => Resume(t);
      case ChangePriority(t, prio) => ChangePriority(t, prio, thread);
      case ChangeDomain(t, dom) => ChangeDomain(t, dom);
      case BindThread(_, _) => PerformElsewhere(call, thread);
      case UnbindThread(_) => PerformElsewhere(call, thread);
      case SaveCaller(_) => PerformElsewhere(call, thread);
      case MoveReply(_, _) => PerformElsewhere(call, thread);
      case Otherwise => PerformElsewhere(call, thread);
    }

    method StopThread(t: Tcb)
      requires Serving(ipc.sched.cur)
      modifies ipc, ipc.sched, ipc.sched.rq
      ensures ipc.Valid()
      ensures Does(ipc.sched.p, old(St()), St(), old(ThreadSteps(Now(), SuspendThread(t), ipc.sched.cur)))
      ensures Facing(Now()) == old(AfterCall(Facing(Now()), SuspendThread(t), ipc.sched.cur))
    {
      Here();
      ghost var w := Now();
      if Ordinary(t) {
        SuspendDone(w, t);
        StoppedFace(w, t);
        StopNow(t);
      } else {
        NoStep(w.p, w.s);
      }
    }

    method StopNow(t: Tcb)
      requires ipc.Valid() && Ordinary(t) && ipc.sched.action != SwitchTo(t)
      modifies ipc, ipc.sched, ipc.sched.rq
      ensures ipc.Valid() && Now() == old(Halted(Now(), t))
    {
      ipc.Suspend(t);
    }

    method Resume(t: Tcb)
      requires Serving(ipc.sched.cur)
      modifies ipc, ipc.sched, ipc.sched.rq
      ensures ipc.Valid()
      ensures Does(ipc.sched.p, old(St()), St(), old(ThreadSteps(Now(), ResumeThread(t), ipc.sched.cur)))
      ensures Facing(Now()) == old(AfterCall(Facing(Now()), ResumeThread(t), ipc.sched.cur))
    {
      Here();
      ghost var w := Now();
      if Ordinary(t) && Blocked(ipc.sched.state[t]) {
        ResumeNow(t);
        RestartDone(w, Now(), t);
        RestartedFace(w, Now(), t);
      } else {
        NoStep(w.p, w.s);
      }
    }

    method ResumeNow(t: Tcb)
      requires ipc.Valid() && Ordinary(t) && Blocked(ipc.sched.state[t])
      modifies ipc, ipc.sched, ipc.sched.rq
      ensures ipc.Valid() && Revives(old(Now()), Now(), t)
    {
      ipc.RestartThread(t);
    }

    /** decodeSetPriority refuses a priority above the caller's own. */
    method ChangePriority(t: Tcb, prio: nat, thread: Tcb)
      requires Serving(thread)
      modifies ipc, ipc.sched, ipc.sched.rq
      ensures ipc.Valid()
      ensures Does(ipc.sched.p, old(St()), St(), old(ThreadSteps(Now(), EntrySteps.ChangePriority(t, prio), thread)))
      ensures Facing(Now()) == old(AfterCall(Facing(Now()), EntrySteps.ChangePriority(t, prio), thread))
    {
      Here();
      ghost var w := Now();
      if Ordinary(t) && prio < ipc.sched.p.cfg.numPrios && prio <= ipc.sched.rq.key[thread].prio {
        KeyDone(w, Op.SetPriority(t, prio));
        KeyGoes(w.s, t, Key(w.s.key[t].dom, prio));
        ipc.SetPriority(t, prio);
      } else {
        NoStep(w.p, w.s);
      }
    }

    method ChangeDomain(t: Tcb, dom: nat)
      requires Serving(ipc.sched.cur)
      modifies ipc, ipc.sched, ipc.sched.rq
      ensures ipc.Valid()
      ensures Does(ipc.sched.p, old(St()), St(),
                   old(ThreadSteps(Now(), EntrySteps.ChangeDomain(t, dom), ipc.sched.cur)))
      ensures Facing(Now()) == old(AfterCall(Facing(Now()), EntrySteps.ChangeDomain(t, dom), ipc.sched.cur))
    {
      Here();
      ghost var w := Now();
      if Ordinary(t) && dom < ipc.sched.p.cfg.numDomains {
        KeyDone(w, Op.SetDomain(t, dom));
        KeyGoes(w.s, t, Key(dom, w.s.key[t].prio));
        ipc.SetDomain(t, dom);
      } else {
        NoStep(w.p, w.s);
      }
    }

    /** What is left leaves the scheduler alone. decodeBindAEP refuses a thread that is bound and an endpoint with
        waiters. */
    method PerformElsewhere(call: Call, thread: Tcb)
      requires Serving(thread)
      requires call.BindThread? || call.UnbindThread? || call.SaveCaller? || call.MoveReply? || call.Otherwise?
      modifies ipc
      ensures ipc.Valid() && Does(ipc.sched.p, old(St()), St(), [])
      ensures Facing(Now()) == old(AfterCall(Facing(Now()), call, thread))
    {
      NoStep(ipc.sched.p, St());
      match call
      case BindThread(t, aep) => BindNow(t, aep, thread);
      case UnbindThread(t) => ipc.UnbindAsyncEndpoint(t);
      case SaveCaller(dest) => SaveNow(dest, thread);
      case MoveReply(src, dest) => MoveNow(src, dest, thread);
      case Otherwise =>
    }

    method MoveNow(src: Cte, dest: Cte, thread: Tcb)
      requires ipc.Valid()
      modifies ipc
      ensures ipc.Valid() && St() == old(St())
      ensures Facing(Now()) == old(AfterCall(Facing(Now()), MoveReply(src, dest), thread))
    {
      ghost var w := Now();
      if CanMove(src, dest) {
        ipc.MoveReplyCap(src, dest);
        assert Now() == w.(r := ipc.R());
      }
    }

    method SaveNow(dest: Cte, thread: Tcb)
      requires Serving(thread)
      modifies ipc
      ensures ipc.Valid() && St() == old(St())
      ensures Facing(Now()) == old(AfterCall(Facing(Now()), SaveCaller(dest), thread))
    {
      if CanSave(thread, dest) { ipc.MoveReplyCap(CallerSlot(thread), dest); }
    }

    method BindNow(t: Tcb, aep: Obj, thread: Tcb)
      requires ipc.Valid()
      modifies ipc
      ensures ipc.Valid() && St() == old(St())
      ensures Facing(Now()) == old(AfterCall(Facing(Now()), BindThread(t, aep), thread))
    {
      if aep in ipc.ostate { Unwaited(aep); }
      if CanBind(t, aep) { ipc.BindAsyncEndpoint(t, aep); }
    }

    method Cancel(ep: Obj, badge: Word)
      requires ipc.Valid()
      modifies ipc, ipc.sched, ipc.sched.rq
      ensures ipc.Valid() && Does(ipc.sched.p, old(St()), St(), old(CancelSteps(Now(), ep, badge)))
      ensures Facing(Now()) == old(AfterCancel(Facing(Now()), ep, badge))
    {
      Here();
      ghost var w := Now();
      if ep in ipc.ostate {
        ipc.HasObject(ep);
        CancelNow(ep, badge);
        CancelDone(w, Now(), ep, badge);
        CancelledFace(w, Now(), ep, badge);
      } else {
        NoStep(w.p, w.s);
      }
    }

    method CancelNow(ep: Obj, badge: Word)
      requires ipc.Valid() && ep in ipc.waiting && Has(Now(), ep)
      modifies ipc, ipc.sched, ipc.sched.rq
      ensures ipc.Valid() && Cancels(old(Now()), Now(), ep, badge)
    {
      ipc.EpCancelBadgedSends(ep, badge);
    }

    // ---- Deletion ----

    /** epCancelAll, or unbinding and aepCancelAll. */
    method EndEndpoint(o: Obj)
      requires ipc.Valid() && o in ipc.waiting && Has(Now(), o)
      modifies ipc, ipc.sched, ipc.sched.rq
      ensures ipc.Valid() && Now() == old(EndpointGone(Now(), o))
    {
      if o.AsyncEndpoint? { ipc.FinaliseAsyncEndpoint(o); } else { ipc.CancelAll(o); }
    }

    lemma EndDone(o: Obj)
      requires Calm(Now()) && Has(Now(), o)
      ensures Does(ipc.sched.p, St(), EndpointGone(Now(), o).s, FinalSteps(Now(), LastEndpoint(o)))
      ensures Awake(EndpointGone(Now(), o)) && !EndpointGone(Now(), o).s.action.SwitchTo?
    {
      var w := Now();
      if Queueing(w.q.state[o]) {
        WakeAllDone(w, o, w.q.waiting[o]);
        EndpointSettles(w, o);
      } else {
        NoStep(w.p, w.s);
      }
    }

    method FinaliseEndpoint(o: Obj)
      requires Calm(Now()) && ipc.Valid()
      modifies ipc, ipc.sched, ipc.sched.rq
      ensures ipc.Valid() && Calm(Now()) && Now() == old(After(Now(), LastEndpoint(o)))
      ensures Does(ipc.sched.p, old(St()), St(), old(FinalSteps(Now(), LastEndpoint(o))))
    {
      Here();
      if o in ipc.ostate {
        ipc.HasObject(o);
        EndDone(o);
        EndEndpoint(o);
      } else {
        NoStep(ipc.sched.p, St());
      }
      Here();
    }

    method EndThread(t: Tcb)
      requires ipc.Valid() && Ordinary(t) && !ipc.sched.action.SwitchTo?
      modifies ipc, ipc.sched, ipc.sched.rq
      ensures ipc.Valid() && Now() == old(ThreadGone(Now(), t))
    {
      ipc.FinaliseThread(t);
    }

    method FinaliseThread(t: Tcb)
      requires Calm(Now()) && ipc.Valid()
      modifies ipc, ipc.sched, ipc.sched.rq
      ensures ipc.Valid() && Calm(Now()) && Now() == old(After(Now(), LastThread(t)))
      ensures Does(ipc.sched.p, old(St()), St(), old(FinalSteps(Now(), LastThread(t))))
    {
      if Ordinary(t) {
        SuspendDone(Now(), t);
        GoneSettles(Now(), t);
        EndThread(t);
      } else {
        NoStep(ipc.sched.p, St());
      }
      Here();
    }

    method FinaliseReply(slot: Cte)
      requires Calm(Now()) && ipc.Valid()
      modifies ipc
      ensures ipc.Valid() && Calm(Now()) && Now() == old(After(Now(), ReplyCap(slot)))
      ensures Does(ipc.sched.p, old(St()), St(), [])
    {
      NoStep(ipc.sched.p, St());
      if slot in ipc.caps { ipc.DropLink(slot); }
      Here();
    }

    /** finaliseCap, as far as the object behind the cap is concerned. */
    method FinaliseOne(f: Final)
      requires Calm(Now()) && ipc.Valid()
      modifies ipc, ipc.sched, ipc.sched.rq
      ensures ipc.Valid() && Calm(Now()) && Now() == old(After(Now(), f))
      ensures Does(ipc.sched.p, old(St()), St(), old(FinalSteps(Now(), f)))
    {
      match f
      case LastEndpoint(o) => FinaliseEndpoint(o);
      case LastThread(t) => FinaliseThread(t);
      case ReplyCap(slot) => FinaliseReply(slot);
    }

    /** The objects a deletion or revocation comes across, one after the other. */
    method FinaliseAll(finals: seq<Final>)
      requires Calm(Now()) && ipc.Valid()
      modifies ipc, ipc.sched, ipc.sched.rq
      ensures ipc.Valid() && Calm(Now()) && Now() == old(AfterAll(Now(), finals))
      ensures Facing(Now()) == old(AfterFinals(Facing(Now()), finals))
      ensures Does(ipc.sched.p, old(St()), St(), old(DeleteSteps(Now(), finals)))
      decreases |finals|
    {
      ghost var w := Now();
      if finals == [] {
        NoStep(w.p, w.s);
      } else {
        FinalFace(w, finals[0]);
        FinaliseOne(finals[0]);
        ghost var w1 := Now();
        FinaliseAll(finals[1..]);
        Then(w.p, w.s, w1.s, St(), FinalSteps(w, finals[0]), DeleteSteps(w1, finals[1..]));
        FinalsFace(w, finals);
      }
    }

    /** The caller counts as restarting while its invocation is carried out. */
    method Begin(thread: Tcb)
      requires Serving(thread)
      modifies ipc.sched, ipc.sched.rq
      ensures Serving(thread) && Now() == old(Now()).(s := SetThreadState(old(St()), thread, Restart))
      ensures Does(ipc.sched.p, old(St()), St(), [Mark(thread, Restart)])
      ensures Facing(Now()) == old(Turned(Facing(Now()), thread, Restart))
    {
      Here();
      MarkEngages(ipc.sched.p, ipc.sched.St(), thread, Restart);
      OneStep(ipc.sched.p, St(), Mark(thread, Restart));
      StopGoes(St(), thread, Restart);
      ipc.MarkRunnable(thread, Restart);
    }

    /** A caller that is still restarting runs on. */
    ghost function Resumes(s: Sched, thread: Tcb): seq<Op> {
      if thread in s.state && s.state[thread].Restart? then [Mark(thread, Running)] else []
    }

    method Finish(thread: Tcb)
      requires ipc.Valid()
      modifies ipc.sched, ipc.sched.rq
      ensures ipc.Valid() && Does(ipc.sched.p, old(St()), St(), Resumes(old(St()), thread))
      ensures Facing(Now()) == old(Resumed(Facing(Now()), thread))
    {
      Here();
      if thread in ipc.sched.state && ipc.sched.state[thread].Restart? {
        ipc.OwedMaster(thread);
        OneStep(ipc.sched.p, St(), Mark(thread, Running));
        StopGoes(St(), thread, Running);
        ipc.MarkRunnable(thread, Running);
      } else {
        NoStep(ipc.sched.p, St());
      }
    }

    /** handleInvocation */
    method HandleInvocation(call: Call)
      requires Serving(ipc.sched.cur)
      modifies ipc, ipc.sched, ipc.sched.rq
      ensures ipc.Valid()
      ensures Does(ipc.sched.p, old(St()), St(), old(InvocationSteps(Now(), call, ipc.sched.cur)))
      ensures Facing(Now()) == old(AfterEvent(Facing(Now()), ipc.sched.cur, Invocation(call)))
    {
      ghost var p, w := ipc.sched.p, Now();
      var thread := ipc.sched.cur;
      Begin(thread);
      ghost var s1, ops := St(), CallSteps(Now(), call, thread);
      Perform(call, thread);
      ghost var s2 := St();
      Finish(thread);
      Then(p, w.s, s1, s2, [Mark(thread, Restart)], ops);
      Then(p, w.s, s2, St(), [Mark(thread, Restart)] + ops, Resumes(s2, thread));
    }

    // ---- System calls and interrupts ----

    /** The kernel is working for the current thread, which it has not put to sleep. */
    ghost predicate Working()
      reads ipc, ipc.sched, ipc.sched.rq
    {
      ipc.Valid() && Ordinary(ipc.sched.cur) && Engaged(St(), ipc.sched.cur)
    }

    method Receive(ep: Obj, diminish: bool)
      requires Working()
      modifies ipc, ipc.sched, ipc.sched.rq
      ensures ipc.Valid()
      ensures Does(ipc.sched.p, old(St()), St(), old(ReceiveSteps(Now(), ipc.sched.cur, ep, diminish)))
      ensures Facing(Now()) == old(AfterReceive(Facing(Now()), ipc.sched.cur, ep, diminish))
    {
      Here();
      ghost var w, thread := Now(), ipc.sched.cur;
      if ep in ipc.ostate && ep.Endpoint? && CanReceive(ipc.sched.cur) {
        ipc.HasObject(ep);
        ghost var v := ReceiveNow(ep, diminish);
        ReceiveDone(w, Now(), v, thread, ep, diminish);
        ReceivedFace(w, Now(), v, thread, ep, diminish);
      } else {
        NoStep(w.p, w.s);
      }
    }

    predicate CanReceive(t: Tcb)
      reads ipc
    {
      t in ipc.boundAEP ==> ipc.boundAEP[t] in ipc.ostate
    }

    method ReceiveNow(ep: Obj, diminish: bool) returns (ghost v: I.View)
      requires Working() && ep in ipc.waiting && Receivable(Now(), ipc.sched.cur, ep)
      modifies ipc, ipc.sched, ipc.sched.rq
      ensures ipc.Valid() && Receives(old(Now()), Now(), v, old(ipc.sched.cur), ep, diminish)
    {
      v := ipc.Look().(r := Dropped(ipc.R(), CallerSlot(ipc.sched.cur)));
      WaitNow(ep, diminish, Now(), v);
    }

    method WaitNow(ep: Obj, diminish: bool, ghost w: Scene, ghost v: I.View)
      requires Working() && ep in ipc.waiting && w == Now() && Receivable(w, w.s.cur, ep)
      requires v == ipc.Look().(r := Dropped(w.r, CallerSlot(w.s.cur)))
      modifies ipc, ipc.sched, ipc.sched.rq
      ensures ipc.Valid() && Now() == Shown(w, I.Received(w.p, v, w.b, w.s.cur, ep, diminish))
    {
      WaitPart(ep, diminish, w, v);
    }

    method WaitPart(ep: Obj, diminish: bool, ghost w: Scene, ghost v: I.View)
      requires Working() && ep in ipc.waiting && w == Now() && Receivable(w, w.s.cur, ep)
      requires v == ipc.Look().(r := Dropped(w.r, CallerSlot(w.s.cur)))
      modifies ipc`next, ipc`prev, ipc`at, ipc`queues, ipc`ostate, ipc`waiting, ipc`diminishCaps
      modifies ipc`badgeRegister, ipc`delivered, ipc`caller, ipc`caps, ipc.sched, ipc.sched.rq
      ensures ipc.Valid()
      ensures Now() == Shown(w, I.Received(w.p, v, w.b, w.s.cur, ep, diminish))
                         .(badge := ipc.badge, fault := ipc.fault, canGrant := ipc.canGrant, isCall := ipc.isCall,
                           b := ipc.B())
    {
      ipc.HandleWait(ep, diminish);
    }

    method Poll(aep: Obj, isBlocking: bool)
      requires Working()
      modifies ipc, ipc.sched, ipc.sched.rq
      ensures ipc.Valid()
      ensures Does(ipc.sched.p, old(St()), St(), old(PollSteps(Now(), ipc.sched.cur, aep, isBlocking)))
      ensures Facing(Now()) == old(AfterPoll(Facing(Now()), ipc.sched.cur, aep, isBlocking))
    {
      Here();
      ghost var w, thread := Now(), ipc.sched.cur;
      NoStep(w.p, w.s);
      if aep in ipc.ostate && aep.AsyncEndpoint? {
        Stops(w, thread, BlockedOnAsyncEvent);
        ipc.HasObject(aep);
        PollNow(ipc.sched.cur, aep, isBlocking);
        PolledFace(w, Now(), thread, aep, isBlocking);
      }
    }

    method PollNow(thread: Tcb, aep: Obj, isBlocking: bool)
      requires ipc.Valid() && Engaged(St(), thread) && aep in ipc.waiting && Has(Now(), aep) && aep.AsyncEndpoint?
      modifies ipc, ipc.sched, ipc.sched.rq
      ensures ipc.Valid() && Polls(old(Now()), Now(), thread, aep, isBlocking)
    {
      ipc.ReceiveAsyncIPC(thread, aep, isBlocking);
    }

    /** handleFault */
    method HandleFault(handler: Handler)
      requires Working()
      modifies ipc, ipc.sched, ipc.sched.rq
      ensures ipc.Valid()
      ensures Does(ipc.sched.p, old(St()), St(), old(FaultSteps(Now(), ipc.sched.cur, handler)))
      ensures Facing(Now()) == old(AfterFault(Facing(Now()), ipc.sched.cur, handler))
    {
      Here();
      ghost var w := Now();
      match handler
      case NoHandler =>
        Stops(w, ipc.sched.cur, Inactive);
        StopGoes(w.s, ipc.sched.cur, Inactive);
        ipc.HandleDoubleFault(ipc.sched.cur);
      case HandledAt(ep, badge) =>
        if ep in ipc.ostate && ep.Endpoint? {
          ipc.HasObject(ep);
          ghost var w1, thread := w.(fault := w.fault + {ipc.sched.cur}), ipc.sched.cur;
          FaultNow(ipc.sched.cur, ep, badge);
          SendDone(w1, Now(), true, false, badge, true, thread, ep);
          SentFace(w1, Now(), true, false, badge, true, thread, ep);
        } else {
          NoStep(w.p, w.s);
        }
    }

    method FaultNow(thread: Tcb, ep: Obj, badge: Word)
      requires ipc.Valid() && Engaged(St(), thread) && ep in ipc.waiting && ep.Endpoint? && Has(Now(), ep)
      modifies ipc, ipc.sched, ipc.sched.rq
      ensures ipc.Valid()
      ensures var w := old(Now());
        Sends(w.(fault := w.fault + {thread}), Now(), true, false, badge, true, thread, ep)
    {
      ipc.SendFaultIPC(thread, ep, badge);
    }

    method HandleWait(from: Source)
      requires Working()
      modifies ipc, ipc.sched, ipc.sched.rq
      ensures ipc.Valid()
      ensures Does(ipc.sched.p, old(St()), St(), old(WaitSteps(Now(), ipc.sched.cur, from)))
      ensures Facing(Now()) == old(AfterWait(Facing(Now()), ipc.sched.cur, from))
    {
      match from
      case FromEndpoint(ep, diminish) => Receive(ep, diminish);
      case FromAsyncEndpoint(aep, isBlocking, otherwise) =>
        if aep in ipc.boundTCB && ipc.boundTCB[aep] != ipc.sched.cur {
          HandleFault(otherwise);
        } else {
          Poll(aep, isBlocking);
        }
      case FromNothing(handler) => HandleFault(handler);
    }

    method HandleReply(restart: bool)
      requires Serving(ipc.sched.cur)
      modifies ipc, ipc.sched, ipc.sched.rq
      ensures ipc.Valid()
      ensures Does(ipc.sched.p, old(St()), St(), old(ReplySteps(Now(), CallerSlot(ipc.sched.cur), restart)))
      ensures ipc.sched.cur == old(ipc.sched.cur) && Working()
      ensures Now() == old(ReplyUsed(Now(), CallerSlot(ipc.sched.cur), restart))
      ensures Facing(Now()) == old(AfterReply(Facing(Now()), CallerSlot(ipc.sched.cur), restart))
    {
      Here();
      ghost var w, thread := Now(), ipc.sched.cur;
      Answers(w, thread, CallerSlot(thread), restart);
      RepliedFace(w, CallerSlot(thread), restart);
      ReplyBack(restart);
    }

    method ReplyBack(restart: bool)
      requires Working()
      modifies ipc, ipc.sched, ipc.sched.rq
      ensures ipc.Valid() && Now() == old(ReplyUsed(Now(), CallerSlot(ipc.sched.cur), restart))
    {
      ipc.HandleReply(restart);
    }

    method HandleReplyWait(restart: bool, from: Source)
      requires Serving(ipc.sched.cur)
      modifies ipc, ipc.sched, ipc.sched.rq
      ensures ipc.Valid()
      ensures Does(ipc.sched.p, old(St()), St(), old(SyscallSteps(Now(), ReplyWait(restart, from))))
      ensures Facing(Now()) == old(AfterEvent(Facing(Now()), ipc.sched.cur, ReplyWait(restart, from)))
    {
      ghost var w := Now();
      HandleReply(restart);
      ghost var w1 := Now();
      HandleWait(from);
      ReplyWaitDone(w, w1, St(), restart, from);
    }

    /** An invocation that deletes and is preempted: the interrupt is handled before schedule(). */
    method HandlePreempted(finals: seq<Final>, irq: Irq)
      requires Serving(ipc.sched.cur)
      modifies ipc, ipc.sched, ipc.sched.rq
      ensures ipc.Valid()
      ensures Does(ipc.sched.p, old(St()), St(), old(PreemptedSteps(Now(), finals, irq, ipc.sched.cur)))
      ensures Facing(Now()) == old(AfterEvent(Facing(Now()), ipc.sched.cur, Preempted(finals, irq)))
    {
      ghost var p, w := ipc.sched.p, Now();
      var thread := ipc.sched.cur;
      Begin(thread);
      Here();
      ghost var w1 := Now();
      FinaliseAll(finals);
      ghost var w2 := Now();
      HandleInterrupt(irq);
      Then(p, w.s, w1.s, w2.s, [Mark(thread, Restart)], DeleteSteps(w1, finals));
      Then(p, w.s, w2.s, St(), [Mark(thread, Restart)] + DeleteSteps(w1, finals), IrqSteps(w2, irq));
    }

    /** handleSyscall and the entries for faults, up to schedule(). A wait on an asynchronous endpoint that holds no
        badge blocks the thread behind those that wait; a poll does not, and clears its badge register. */
    method HandleSyscall(e: Event)
      requires Serving(ipc.sched.cur) && !e.Interrupt?
      modifies ipc, ipc.sched, ipc.sched.rq
      ensures ipc.Valid() && Does(ipc.sched.p, old(St()), St(), old(SyscallSteps(Now(), e)))
      ensures Facing(Now()) == old(AfterEvent(Facing(Now()), ipc.sched.cur, e))
      ensures forall aep, isBlocking, h, thread ::
        e == Wait(FromAsyncEndpoint(aep, isBlocking, h)) && thread == old(ipc.sched.cur)
        && aep in old(ipc.ostate) && aep.AsyncEndpoint? && !old(ipc.ostate)[aep].Active?
        && (aep in old(ipc.boundTCB) ==> old(ipc.boundTCB)[aep] == thread) ==>
          if isBlocking then
            && ipc.sched.state == old(ipc.sched.state)[thread := BlockedOnAsyncEvent]
            && aep in old(ipc.waiting) && ipc.waiting == old(ipc.waiting)[aep := old(ipc.waiting)[aep] + [thread]]
            && ipc.badgeRegister == old(ipc.badgeRegister)
          else
            && ipc.sched.state == old(ipc.sched.state) && ipc.waiting == old(ipc.waiting)
            && ipc.ostate == old(ipc.ostate) && ipc.badgeRegister == old(ipc.badgeRegister)[thread := {}]
    {
      Here();
      ghost var w, thread := Now(), ipc.sched.cur;
      Handled(e);
      match e
      case Wait(FromAsyncEndpoint(aep, isBlocking, h)) =>
        if Has(w, aep) && aep.AsyncEndpoint? && !w.q.state[aep].Active? && (aep in w.b.tcb ==> w.b.tcb[aep] == thread) {
          L.WaitBlocksPollDoesNot(Facing(w), thread, aep, isBlocking, h);
        }
      case _ =>
    }

    method Handled(e: Event)
      requires Serving(ipc.sched.cur) && !e.Interrupt?
      modifies ipc, ipc.sched, ipc.sched.rq
      ensures ipc.Valid() && Does(ipc.sched.p, old(St()), St(), old(SyscallSteps(Now(), e)))
      ensures Facing(Now()) == old(AfterEvent(Facing(Now()), ipc.sched.cur, e))
    {
      match e
      case Invocation(call) => HandleInvocation(call);
      case Preempted(finals, irq) => HandlePreempted(finals, irq);
      case Wait(from) => HandleWait(from);
      case Reply(restart) => HandleReply(restart);
      case ReplyWait(restart, from) => HandleReplyWait(restart, from);
      case Fault(handler) => HandleFault(handler);
      case YieldCall =>
        Here();
        OneStep(ipc.sched.p, St(), Yield);
        YieldGoes(St());
        ipc.HandleYield();
    }

    /** handleInterrupt: a timer interrupt, one some endpoint is told of, or one that does not concern threads. */
    method HandleInterrupt(irq: Irq)
      requires ipc.Valid() && Awake(Now())
      modifies ipc, ipc.sched, ipc.sched.rq
      ensures ipc.Valid() && Does(ipc.sched.p, old(St()), St(), old(IrqSteps(Now(), irq)))
      ensures Facing(Now()) == old(AfterIrq(Facing(Now()), irq))
    {
      match irq
      case TimerIrq =>
        Here();
        OneStep(ipc.sched.p, St(), Tick);
        TickGoes(ipc.sched.p, St());
        ipc.TimerTick();
      case SignalIrq(aep, badge) => SendToAep(aep, badge);
      case OtherIrq => NoStep(ipc.sched.p, St());
    }

    /** What an event makes the kernel do before schedule(). */
    method Handle(e: Event)
      requires Valid()
      modifies ipc, ipc.sched, ipc.sched.rq
      ensures ipc.Valid() && Does(ipc.sched.p, old(St()), St(), old(EventSteps(Now(), e)))
      ensures Facing(Now()) == old(AfterHandling(Facing(Now()), ipc.sched.cur, e))
    {
      ipc.Meaning();
      Here();
      OrderedKnown(ipc.sched.p, St());
      ActivateRests(ipc.sched.p, St());
      if e.Interrupt? {
        HandleInterrupt(e.irq);
      } else if Runnable(ipc.sched.state[ipc.sched.cur]) {
        Trapped();
        HandleSyscall(e);
      } else {
        NoStep(ipc.sched.p, St());
      }
    }

    /** A thread that runs yields, or a tick ends its slice. */
    ghost predicate TurnEnds(e: Event)
      reads ipc.sched
    {
      && ipc.sched.cur in ipc.sched.state && Runnable(ipc.sched.state[ipc.sched.cur])
      && ipc.sched.cur in ipc.sched.slice
      && (e.YieldCall? || (e.Interrupt? && e.irq.TimerIrq? && ipc.sched.slice[ipc.sched.cur] <= 1))
    }

    /** The threads ready at the current thread's domain and priority. */
    ghost function Equals(): seq<Tcb>
      reads ipc.sched, ipc.sched.rq
    {
      var s := ipc.sched.St();
      if s.cur in s.key && s.key[s.cur] in s.ready then s.ready[s.key[s.cur]] else []
    }

    lemma TurnOf(e: Event)
      requires Valid() && ipc.sched.p.cfg.numDomains == 1 && TurnEnds(e)
      ensures var s, s' := St(), Entry(ipc.sched.p, St(), EventSteps(Now(), e));
        && s.cur in s.key && s.key[s.cur] in s.ready
        && if Equals() == [] then s'.cur == s.cur && s'.ready == s.ready
           else s'.cur == Equals()[0] && s'.ready == s.ready[s.key[s.cur] := Equals()[1..] + [s.cur]]
    {
      ipc.Meaning();
      var p, s := ipc.sched.p, St();
      OrderedMeans(p, s);
      ipc.sched.IsFiled();
      Q.OneThread(p.cfg, s.queued, s.key, s.ready, s.cur);
      ipc.sched.Once(s.key[s.cur]);
      if Equals() == [] {
        R.TurnReturns(p, s, EventSteps(Now(), e));
      } else {
        assert Equals() == [Equals()[0]] + Equals()[1..];
        R.TurnPasses(p, s, EventSteps(Now(), e), Equals()[0], Equals()[1..]);
      }
    }

    /** One entry: the steps the event comes down to, schedule() and activateThread(). With one domain, a thread that
        yields or whose slice runs out goes behind those of its priority, and the first of them runs. */
    method Enter(e: Event)
      requires Valid()
      modifies ipc, ipc.sched, ipc.sched.rq
      ensures ipc.sched.p.cfg.numDomains == 1 && old(TurnEnds(e)) ==>
        var cur, key, ready := old(ipc.sched.cur), old(ipc.sched.rq.key), old(ipc.sched.rq.ready);
        && cur in key && key[cur] in ready && var q := ready[key[cur]];
        if q == [] then ipc.sched.cur == cur && ipc.sched.rq.ready == ready
        else ipc.sched.cur == q[0] && ipc.sched.rq.ready == ready[key[cur] := q[1..] + [cur]]
      ensures Valid() && AllAllowed(ipc.sched.p, old(St()), old(EventSteps(Now(), e)))
      ensures St() == Entry(ipc.sched.p, old(St()), old(EventSteps(Now(), e)))
      ensures Facing(Now()) == Resumed(old(AfterHandling(Facing(Now()), ipc.sched.cur, e)), ipc.sched.cur)
    {
      if ipc.sched.p.cfg.numDomains == 1 && TurnEnds(e) { TurnOf(e); }
      EnterOnce(e);
    }

    method EnterOnce(e: Event)
      requires Valid()
      modifies ipc, ipc.sched, ipc.sched.rq
      ensures Valid() && AllAllowed(ipc.sched.p, old(St()), old(EventSteps(Now(), e)))
      ensures St() == Entry(ipc.sched.p, old(St()), old(EventSteps(Now(), e)))
      ensures Facing(Now()) == Resumed(old(AfterHandling(Facing(Now()), ipc.sched.cur, e)), ipc.sched.cur)
    {
      Handle(e);
      Here();
      PickThread();
      ActivateNow();
    }

    method PickThread()
      requires ipc.Valid()
      modifies ipc.sched, ipc.sched.rq
      ensures Valid() && St() == Scheduled(ipc.sched.p, old(St())) && Facing(Now()) == old(Facing(Now()))
    {
      Here();
      ScheduleGoes(ipc.sched.p, St());
      ipc.Schedule();
    }

    method ActivateNow()
      requires Valid()
      modifies ipc.sched, ipc.sched.rq
      ensures Valid() && St() == Activated(old(St())) && ipc.sched.cur == old(ipc.sched.cur)
      ensures Facing(Now()) == old(Resumed(Facing(Now()), ipc.sched.cur))
    {
      StopGoes(St(), ipc.sched.cur, Running);
      ipc.ActivateThread();
    }

    /** Whatever happens, in whatever order: a run of the scheduler as SchedulerRuns has it, one entry an event. With
        several domains the clock goes by the ticks among the events, and all threads are kept track of exactly when
        every step is guarded. */
    method Run(events: seq<Event>) returns (ghost entries: seq<seq<Op>>)
      requires Valid()
      modifies ipc, ipc.sched, ipc.sched.rq
      ensures Valid() && |entries| == |events| && IsRun(ipc.sched.p, old(St()), St(), entries)
      ensures ipc.sched.p.cfg.numDomains > 1 && Tracked(old(St())) ==>
        (RunTracked(ipc.sched.p, old(St()), entries) <==> RunGuarded(ipc.sched.p, old(St()), entries))
    {
      ghost var p, s0 := ipc.sched.p, St();
      entries := [];
      ipc.Meaning();
      ipc.sched.IsFiled();
      for i := 0 to |events|
        invariant Valid() && |entries| == i && IsRun(p, s0, St(), entries)
      {
        ghost var s, ops := St(), EventSteps(Now(), events[i]);
        TicksAtMostOnce(Now(), events[i]);
        Enter(events[i]);
        RunOn(p, s0, s, entries, ops);
        entries := entries + [ops];
      }
      if p.cfg.numDomains > 1 && Tracked(s0) { RunTracks(p, s0, entries); }
    }

    /** What that means: reply links pair up, every queue holds exactly the threads blocked on its endpoint, no badge is
        lost, and the current thread can run; with one domain nobody ready outranks it or is forgotten. */
    lemma Everywhere()
      requires Valid()
      ensures forall c, t: Tcb :: (c in ipc.caps && ipc.caps[c] == t) <==> (t in ipc.caller && ipc.caller[t] == c)
      ensures forall o :: o in ipc.waiting ==> o in ipc.ostate && (ipc.waiting[o] == [] <==> !Queueing(ipc.ostate[o]))
      ensures forall o, t: Tcb :: o in ipc.waiting ==>
        (t in ipc.waiting[o] <==> t in ipc.sched.state && Waits(ipc.sched.state[t]) && t in ipc.at && ipc.at[t] == o)
      ensures forall o :: IpcState.Total(ipc.sent, o) == IpcState.Total(ipc.delivered, o) + Pending(ipc.ostate, o)
      ensures var s := ipc.sched.St();
        s.cur in s.state && (Runnable(s.state[s.cur]) || s.cur == s.idle)
        && (ipc.sched.p.cfg.numDomains == 1 ==>
              forall t: Tcb :: t in s.state && t in s.queued && t in s.key && s.cur in s.key ==>
                && (Runnable(s.state[t]) ==> t == s.cur || s.queued[t])
                && (s.queued[t] ==> Runnable(s.state[t]) && s.key[t].prio <= s.key[s.cur].prio))
    {
      ipc.Meaning();
      var p, s := ipc.sched.p, ipc.sched.St();
      AllAspects(p, s, ipc.Q(), ipc.R());
      Bijection(ipc.R(), s.state);
      OrderedMeans(p, s);
      if p.cfg.numDomains == 1 { RestedMeans(p, s); }
      QueuesExact();
      BadgesExact();
    }

    lemma QueuesExact()
      requires ipc.Valid()
      ensures forall o :: o in ipc.waiting ==> o in ipc.ostate && (ipc.waiting[o] == [] <==> !Queueing(ipc.ostate[o]))
      ensures forall o, t: Tcb :: o in ipc.waiting ==>
        (t in ipc.waiting[o] <==> t in ipc.sched.state && Waits(ipc.sched.state[t]) && t in ipc.at && ipc.at[t] == o)
    {
      ipc.Meaning();
      AllAspects(ipc.sched.p, ipc.sched.St(), ipc.Q(), ipc.R());
      forall o | o in ipc.waiting
        ensures o in ipc.ostate && (ipc.waiting[o] == [] <==> !Queueing(ipc.ostate[o]))
        ensures forall t: Tcb ::
          t in ipc.waiting[o] <==> t in ipc.sched.state && Waits(ipc.sched.state[t]) && t in ipc.at && ipc.at[t] == o
      {
        ConsistentMeans(ipc.Q(), ipc.sched.state, o);
        forall t: Tcb
          ensures t in ipc.waiting[o] <==>
            t in ipc.sched.state && Waits(ipc.sched.state[t]) && t in ipc.at && ipc.at[t] == o
        {
          assert TcbAt(ipc.Q(), ipc.sched.state, t);
        }
      }
    }

    lemma BadgesExact()
      requires ipc.Valid()
      ensures forall o :: IpcState.Total(ipc.sent, o) == IpcState.Total(ipc.delivered, o) + Pending(ipc.ostate, o)
    {
      ipc.Meaning();
      forall o ensures IpcState.Total(ipc.sent, o) == IpcState.Total(ipc.delivered, o) + Pending(ipc.ostate, o) {
        assert ConservedAt(ipc.ostate, ipc.sent, ipc.delivered, o);
      }
    }
  }
}
