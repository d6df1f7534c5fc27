/** The scheduler's functions as they change the kernel's variables, each against its effect on the state (thread.c). */
module Scheduler {
  import opened LinkedQueue
  import opened PriorityBitmap
  import opened ReadyQueues
  import opened SchedulerState
  import opened SchedulerRuns
  import DomainClock
  import DomainRuns

  class Scheduler {
    const p: Params
    const idle: Tcb
    const rq: ReadyQueues
    /** tsType and tcbTimeSlice of every thread */
    var state: map<Tcb, ThreadState>
    var slice: map<Tcb, nat>
    /** ksCurThread, ksSchedulerAction, ksCurDomain, ksDomainTime, ksDomScheduleIdx */
    var cur: Tcb
    var action: Action
    var curDomain: nat
    var domainTime: nat
    var domainIdx: nat

    /** The state create_idle_thread and create_initial_thread leave behind: the initial thread runs at the highest
        priority, and the idle thread stands by at the lowest. Blocks start out zeroed, so both are in domain 0,
        whichever domain the schedule begins with. */
    constructor (p: Params, idle: Tcb, root: Tcb)
      requires ParamsOk(p) && idle != NULL && root != NULL && idle != root
      ensures Valid() && this.p == p && cur == root && action == ResumeCurrentThread
      ensures p.cfg.numDomains == 1 ==> Rested(p, St())
      ensures p.cfg.numDomains > 1 ==> DomainClock.OnTime(p, St(), 0)
      ensures DomainRuns.AtRest(p, St()) <==> p.domains[0].domain == 0
      ensures DomainRuns.Tracked(St())
    {
      this.p, this.idle := p, idle;
      var key := map[idle := Key(0, 0), root := Key(0, p.cfg.numPrios - 1)];
      rq := new ReadyQueues(p.cfg, key);
      state := map[idle := IdleThreadState, root := Running];
      slice := map[idle := 0, root := p.timeSlice];
      cur, action := root, ResumeCurrentThread;
      domainIdx, curDomain, domainTime := 0, p.domains[0].domain, p.domains[0].length;
      new;
      BootRests();
    }

    /** The first state is one of rest exactly when the schedule begins with the initial thread's domain. */
    lemma BootRests()
      requires Valid() && cur != idle && cur in state && state == map[idle := IdleThreadState, cur := Running]
      requires rq.key == map[idle := Key(0, 0), cur := Key(0, p.cfg.numPrios - 1)] && action == ResumeCurrentThread
      requires (forall t: Tcb :: t in rq.queued ==> !rq.queued[t]) && curDomain == p.domains[0].domain
      ensures DomainRuns.AtRest(p, St()) <==> p.domains[0].domain == 0
      ensures DomainRuns.Tracked(St()) && (p.cfg.numDomains == 1 ==> Rested(p, St()))
    {
      if DomainRuns.AtRest(p, St()) {
        DomainRuns.OrderedMeans(p, St());
      }
    }

    ghost function St(): Sched
      reads this, rq
    {
      Sched(state, rq.key, rq.queued, slice, rq.ready, cur, idle, action, curDomain, domainTime, domainIdx)
    }

    ghost predicate Valid()
      reads this, rq
    {
      rq.Valid() && rq.cfg == p.cfg && Known(p, St())
    }

    lemma IsFiled()
      requires Valid()
      ensures Filed(p, St())
    {
      BothParts(rq.cfg, rq.L(), rq.l1, rq.l2, rq.key, rq.ready);
    }

    /** Nobody waits twice in a queue. */
    lemma Once(k: Key)
      requires Valid() && k in rq.ready
      ensures Distinct(rq.ready[k])
    {
      BothParts(rq.cfg, rq.L(), rq.l1, rq.l2, rq.key, rq.ready);
      assert ListedAt(rq.next, rq.prev, rq.queues, rq.ready, k);
    }

    method SchedEnqueue(tcb: Tcb)
      requires Valid() && tcb in state
      modifies rq
      ensures Valid() && St() == Enqueue(old(St()), tcb)
    {
      rq.SchedEnqueue(tcb);
    }

    method SchedAppend(tcb: Tcb)
      requires Valid() && tcb in state
      modifies rq
      ensures Valid() && St() == Append(old(St()), tcb)
    {
      rq.SchedAppend(tcb);
    }

    method SchedDequeue(tcb: Tcb)
      requires Valid() && tcb in state
      modifies rq
      ensures Valid() && St() == Dequeue(old(St()), tcb)
    {
      rq.SchedDequeue(tcb);
    }

    method RescheduleRequired()
      requires Valid()
      modifies this`action, rq
      ensures Valid() && St() == SchedulerState.RescheduleRequired(old(St()))
    {
      if !action.ResumeCurrentThread? && !action.ChooseNewThread? {
        SchedEnqueue(action.target);
      }
      action := ChooseNewThread;
    }

    method ScheduleTCB(tptr: Tcb)
      requires Valid() && tptr in state
      modifies this`action, rq
      ensures Valid()
      ensures St() == if tptr == old(cur) && old(action).ResumeCurrentThread? && !Runnable(old(state)[tptr])
                      then SchedulerState.RescheduleRequired(old(St())) else old(St())
    {
      if tptr == cur && action.ResumeCurrentThread? && !Runnable(state[tptr]) {
        RescheduleRequired();
      }
    }

    method SetThreadState(tptr: Tcb, ts: ThreadState)
      requires Valid() && tptr in state
      modifies this`state, this`action, rq
      ensures Valid() && St() == SchedulerState.SetThreadState(old(St()), tptr, ts)
    {
      state := state[tptr := ts];
      ScheduleTCB(tptr);
    }

    method PossibleSwitchTo(target: Tcb, onSamePriority: bool)
      requires Valid() && target in state
      modifies this`action, rq
      ensures Valid() && St() == SchedulerState.PossibleSwitchTo(p, old(St()), target, onSamePriority)
    {
      var curPrio := rq.key[cur].prio;
      var targetPrio := rq.key[target].prio;
      var before := action;
      if p.cfg.numDomains > 1 {
        if rq.key[target].dom != curDomain {
          SchedEnqueue(target);
        }
      } else {
        if (targetPrio > curPrio || (targetPrio == curPrio && onSamePriority)) && before.ResumeCurrentThread? {
          action := SwitchTo(target);
        } else {
          SchedEnqueue(target);
        }
        if !before.ResumeCurrentThread? && !before.ChooseNewThread? {
          RescheduleRequired();
        }
      }
    }

    method AttemptSwitchTo(target: Tcb)
      requires Valid() && target in state
      modifies this`action, rq
      ensures Valid() && St() == SchedulerState.PossibleSwitchTo(p, old(St()), target, true)
    {
      PossibleSwitchTo(target, true);
    }

    method SwitchIfRequiredTo(target: Tcb)
      requires Valid() && target in state
      modifies this`action, rq
      ensures Valid() && St() == SchedulerState.PossibleSwitchTo(p, old(St()), target, false)
    {
      PossibleSwitchTo(target, false);
    }

    method SetPriority(tptr: Tcb, prio: nat)
      requires Valid() && tptr in state && prio < p.cfg.numPrios
      modifies this`action, rq
      ensures Valid() && St() == SetKey(old(St()), tptr, Key(old(rq.key)[tptr].dom, prio))
    {
      IsFiled();
      OneThread(p.cfg, rq.queued, rq.key, rq.ready, tptr);
      WriteKey(tptr, Key(rq.key[tptr].dom, prio));
    }

    method SetDomain(tptr: Tcb, dom: nat)
      requires Valid() && tptr in state && dom < p.cfg.numDomains
      modifies this`action, rq
      ensures Valid() && St() == SetKey(old(St()), tptr, Key(dom, old(rq.key)[tptr].prio))
    {
      IsFiled();
      OneThread(p.cfg, rq.queued, rq.key, rq.ready, tptr);
      WriteKey(tptr, Key(dom, rq.key[tptr].prio));
    }

    /** The common body of setPriority and setDomain. */
    method WriteKey(tptr: Tcb, k: Key)
      requires Valid() && tptr in state && Legal(p.cfg, k)
      modifies this`action, rq
      ensures Valid() && St() == SetKey(old(St()), tptr, k)
    {
      SchedDequeue(tptr);
      rq.WriteKey(tptr, k);
      if Runnable(state[tptr]) {
        SchedEnqueue(tptr);
      }
      if tptr == cur {
        RescheduleRequired();
      }
    }

    /** The scheduler's part of suspend, after ipcCancel and deleteCallerCap. */
    method Suspend(target: Tcb)
      requires Valid() && target in state
      modifies this`state, this`action, rq
      ensures Valid() && St() == Suspended(old(St()), target)
    {
      SetThreadState(target, Inactive);
      SchedDequeue(target);
    }

    method HandleYield()
      requires Valid()
      modifies this`action, rq
      ensures Valid() && St() == Yielded(old(St()))
    {
      SchedDequeue(cur);
      SchedAppend(cur);
      RescheduleRequired();
    }

    method TimerTick()
      requires Valid()
      modifies this`slice, this`action, this`domainTime, rq
      ensures Valid() && St() == SchedulerState.TimerTick(p, old(St()))
    {
      TickSlice();
      if p.cfg.numDomains > 1 {
        domainTime := if domainTime == 0 then 0xFFFF_FFFF else domainTime - 1;
        if domainTime == 0 {
          RescheduleRequired();
        }
      }
    }

    method TickSlice()
      requires Valid()
      modifies this`slice, this`action, rq
      ensures Valid() && St() == SchedulerState.TickSlice(p, old(St()))
    {
      if Runnable(state[cur]) {
        if slice[cur] > 1 {
          slice := slice[cur := slice[cur] - 1];
        } else {
          slice := slice[cur := p.timeSlice];
          SchedAppend(cur);
          RescheduleRequired();
        }
      }
    }

    method NextDomain()
      requires Valid()
      modifies this`domainIdx, this`curDomain, this`domainTime
      ensures Valid() && St() == SchedulerState.NextDomain(p, old(St()))
    {
      domainIdx := domainIdx + 1;
      if domainIdx >= |p.domains| {
        domainIdx := 0;
      }
      curDomain := p.domains[domainIdx].domain;
      domainTime := p.domains[domainIdx].length;
    }

    method SwitchToThread(thread: Tcb)
      requires Valid() && thread in state
      modifies this`cur, rq
      ensures Valid() && St() == Dequeue(old(St()), thread).(cur := thread)
    {
      SchedDequeue(thread);
      cur := thread;
    }

    method SwitchToIdleThread()
      requires Valid()
      modifies this`cur
      ensures Valid() && St() == old(St()).(cur := idle)
    {
      cur := idle;
    }

    method ChooseThread()
      requires Valid()
      modifies this`cur, rq
      ensures Valid() && St() == SchedulerState.ChooseThread(p, old(St()))
    {
      IsFiled();
      var dom := if p.cfg.numDomains > 1 then curDomain else 0;
      FirstReadyKnown(p, St(), dom);
      var thread := rq.HeadOfHighest(dom);
      if thread != NULL {
        SwitchToThread(thread);
      } else {
        SwitchToIdleThread();
      }
    }

    /** activateThread, as far as thread states go. The other cases do nothing here. */
    method ActivateThread()
      requires Valid()
      modifies this`state, this`action, rq
      ensures Valid() && St() == Activated(old(St()))
    {
      if state[cur].Restart? {
        SetThreadState(cur, Running);
      }
    }

    method RequeueCurrent()
      requires Valid()
      modifies rq
      ensures Valid() && St() == Requeued(old(St()))
    {
      if Runnable(state[cur]) {
        SchedEnqueue(cur);
      }
    }

    method SwitchDomainIfDue()
      requires Valid()
      modifies this`domainIdx, this`curDomain, this`domainTime
      ensures Valid()
      ensures St() == if p.cfg.numDomains > 1 && old(domainTime) == 0 then SchedulerState.NextDomain(p, old(St()))
                      else old(St())
    {
      if p.cfg.numDomains > 1 && domainTime == 0 {
        NextDomain();
      }
    }

    method Schedule()
      requires Valid()
      modifies this`cur, this`action, this`curDomain, this`domainTime, this`domainIdx, rq
      ensures Valid() && St() == SchedulerState.Schedule(p, old(St()))
    {
      if action.ChooseNewThread? {
        RequeueCurrent();
        SwitchDomainIfDue();
        ChooseThread();
        action := ResumeCurrentThread;
      } else if !action.ResumeCurrentThread? {
        RequeueCurrent();
        SwitchToThread(action.target);
        action := ResumeCurrentThread;
      }
    }
  }
}
