/** Endpoints, asynchronous endpoints and reply capabilities, as the kernel changes them
    (endpoint.c, asyncendpoint.c, tcb.c, objecttype.c, cnode.c, thread.c, syscall.c). */
module Ipc {
  import opened LinkedQueue
  import opened PriorityBitmap
  import opened SchedulerState
  import opened SchedulerRuns
  import opened DomainRuns
  import opened IpcState
  import opened IpcSteps
  import S = Scheduler

  /** setThreadState, then possibleSwitchTo, of a thread that exists. */
  ghost function Readied(p: Params, s: Sched, t: Tcb, ts: ThreadState, onSame: bool): Sched {
    if t in s.key && s.cur in s.key then PossibleSwitchTo(p, SetThreadState(s, t, ts), t, onSame) else s
  }

  /** The woken thread runs, and may be switched to. */
  ghost function Woken(p: Params, s: Sched, t: Tcb, onSame: bool): Sched {
    Readied(p, s, t, Running, onSame)
  }

  /** A thread that waits stops waiting. */
  ghost function Unblocked(s: Sched, t: Tcb): Sched {
    if t in s.state && Waits(s.state[t]) then SetThreadState(s, t, Inactive) else s
  }

  /** The bound thread gives up receiving, or its virtual machine, and runs. */
  ghost function Interrupted(p: Params, s: Sched, t: Tcb): Sched {
    Woken(p, Unblocked(s, t), t, true)
  }

  lemma WakeSpares(p: Params, s: Sched, t: Tcb, onSame: bool, u: Tcb)
    requires Known(p, s) && t in s.state && u != t && Engaged(s, u)
    ensures Engaged(Woken(p, s, t, onSame), u) && Woken(p, s, t, onSame).state == s.state[t := Running]
  {
    StateSpares(p, s, t, Running, u);
    SwitchSpares(p, SetThreadState(s, t, Running), t, onSame, u);
  }

  /** The threads whose badge is `bdg`, or is not. */
  ghost function Filter(s: seq<Tcb>, badges: map<Tcb, Word>, bdg: Word, equal: bool): seq<Tcb> {
    if s == [] then []
    else
      var rest := Filter(s[..|s| - 1], badges, bdg, equal);
      if (BadgeOf(badges, s[|s| - 1]) == bdg) == equal then rest + [s[|s| - 1]] else rest
  }

  lemma {:induction false} FilterMembers(s: seq<Tcb>, badges: map<Tcb, Word>, bdg: Word, equal: bool)
    ensures forall t: Tcb :: t in Filter(s, badges, bdg, equal) <==> t in s && ((BadgeOf(badges, t) == bdg) == equal)
  {
    if s != [] {
      FilterMembers(s[..|s| - 1], badges, bdg, equal);
      assert s == s[..|s| - 1] + [s[|s| - 1]];
    }
  }

  /** What a reply does to the thread that waited for it. */
  ghost function Replied(p: Params, s: Sched, t: Tcb, hasFault: bool, restart: bool): Sched {
    if !hasFault then Woken(p, s, t, true)
    else if restart then Readied(p, s, t, Restart, true)
    else SetThreadState(s, t, Inactive)
  }

  lemma RepliedOk(p: Params, s: Sched, q: Queues, r: Replies, t: Tcb, hasFault: bool, restart: bool)
    requires Known(p, s) && AllOk(p, s, q, r) && t in s.state && s.state[t] == BlockedOnReply && t in r.master
    requires t !in r.caller
    requires t != s.idle
    ensures AllOk(p, Replied(p, s, t, hasFault, restart), q, r)
  {
    if !hasFault {
      ReadyOk(p, s, q, r, t, Running, true);
    } else if restart {
      ReadyOk(p, s, q, r, t, Restart, true);
    } else {
      ReplyStopOk(p, s, q, r, t);
    }
  }

  /** A thread an asynchronous message may interrupt. */
  predicate Awaits(ts: ThreadState) {
    ts == BlockedOnReceive || ts == RunningVM
  }

  /** The badges an asynchronous endpoint held have been handed over. */
  ghost function Took(q: Queues, aep: Obj): Queues {
    q.(state := q.state[aep := Idle])
  }

  /** A flag in a thread control block; blocks start out zeroed. */
  function Flag(flags: map<Tcb, bool>, t: Tcb): bool {
    t in flags && flags[t]
  }

  function BadgeOf(badges: map<Tcb, Word>, t: Tcb): Word {
    if t in badges then badges[t] else {}
  }

  /** What becomes of a caller whose message was delivered to `receiver`. */
  ghost function AfterCall(s: Sched, thread: Tcb, wantsReply: bool, mayReply: bool): Sched {
    if !wantsReply then s else SetThreadState(s, thread, if mayReply then BlockedOnReply else Inactive)
  }

  /** All that receiving looks at or changes. */
  datatype View = View(s: Sched, q: Queues, r: Replies, fault: set<Tcb>, badge: map<Tcb, Word>,
                       canGrant: map<Tcb, bool>, isCall: map<Tcb, bool>, diminishCaps: map<Tcb, bool>,
                       register: map<Tcb, Word>, delivered: map<Obj, Word>)

  /** What becomes of the first sender: it runs again, or waits for the reply if the receiver may give one, or stops. */
  ghost function Relieved(p: Params, v: View, thread: Tcb, ep: Obj, diminish: bool): View {
    if ep !in v.q.waiting || v.q.waiting[ep] == [] then v
    else
      var sender := v.q.waiting[ep][0];
      var v' := v.(q := Left(v.q, sender, ep));
      if !Flag(v.isCall, sender) && sender !in v.fault then v'.(s := Woken(p, v.s, sender, false))
      else if Flag(v.canGrant, sender) && !diminish then
        v'.(s := SetThreadState(v.s, sender, BlockedOnReply), r := Owed(v.r, sender, thread))
      else v'.(s := SetThreadState(v.s, sender, Inactive))
  }

  /** The first sender's message has come in, and its badge is in the receiver's badge register. */
  ghost function Collected(p: Params, v: View, thread: Tcb, ep: Obj, diminish: bool): View {
    if ep !in v.q.waiting || v.q.waiting[ep] == [] then v
    else
      Relieved(p, v.(register := v.register[thread := BadgeOf(v.badge, v.q.waiting[ep][0])]), thread, ep, diminish)
  }

  ghost function CollectedOrWaiting(p: Params, v: View, thread: Tcb, ep: Obj, diminish: bool): View {
    if ep in v.q.state && v.q.state[ep] == Send then Collected(p, v, thread, ep, diminish)
    else v.(q := Joined(v.q, thread, ep, Recv), s := SetThreadState(v.s, thread, BlockedOnReceive),
            diminishCaps := v.diminishCaps[thread := diminish])
  }

  /** The badges the asynchronous endpoint held are in the thread's badge register. */
  ghost function Told(v: View, thread: Tcb, aep: Obj): View {
    var bdg := Pending(v.q.state, aep);
    v.(q := Took(v.q, aep), register := v.register[thread := bdg],
       delivered := v.delivered[aep := Total(v.delivered, aep) + bdg])
  }

  /** What receiving from an endpoint comes to. */
  ghost function Received(p: Params, v: View, b: Bindings, thread: Tcb, ep: Obj, diminish: bool): View {
    if thread in b.aep && b.aep[thread] in v.q.state && v.q.state[b.aep[thread]].Active? then
      Told(v, thread, b.aep[thread])
    else CollectedOrWaiting(p, v, thread, ep, diminish)
  }

  datatype Facet = Threads | Relations | Badges

  datatype SweepPart = Order | Place | Stayed | Roused

  class Ipc {
    const sched: S.Scheduler

    /** tcbEPNext, tcbEPPrev and the blocking information of thread states */
    var next: Links
    var prev: Links
    var at: map<Tcb, Obj>
    var badge: map<Tcb, Word>
    var canGrant: map<Tcb, bool>
    var isCall: map<Tcb, bool>
    var diminishCaps: map<Tcb, bool>
    var fault: set<Tcb>
    /** queue and state of endpoints and asynchronous endpoints */
    var queues: map<Obj, Queue>
    var ostate: map<Obj, ObjState>
    ghost var waiting: map<Obj, seq<Tcb>>
    /** boundAsyncEndpoint, aepBoundTCB and the badge register of every thread */
    var boundAEP: map<Tcb, Obj>
    var boundTCB: map<Obj, Tcb>
    var badgeRegister: map<Tcb, Word>
    /** what asynchronous endpoints were sent and have passed on */
    ghost var sent: map<Obj, Word>
    ghost var delivered: map<Obj, Word>
    /** reply slots and the reply caps in other slots */
    var master: set<Tcb>
    var caller: map<Tcb, Cte>
    var caps: map<Cte, Tcb>

    ghost function Q(): Queues
      reads `next, `prev, `at, `queues, `ostate, `waiting
    {
      Queues(next, prev, at, queues, ostate, waiting)
    }

    ghost function R(): Replies
      reads `master, `caller, `caps
    {
      Replies(master, caller, caps)
    }

    ghost function B(): Bindings
      reads `boundAEP, `boundTCB
    {
      Bindings(boundAEP, boundTCB)
    }

    ghost function Look(): View
      reads `next, `prev, `at, `queues, `ostate, `waiting, `master, `caller, `caps, `fault, `badge, `canGrant, `isCall
      reads `diminishCaps, `badgeRegister, `delivered, sched, sched.rq
    {
      View(sched.St(), Q(), R(), fault, badge, canGrant, isCall, diminishCaps, badgeRegister, delivered)
    }

    ghost predicate ValidAt(f: Facet)
      reads `next, `prev, `at, `queues, `ostate, `waiting, `master, `caller, `caps, `sent, `delivered, sched, sched.rq
    {
      match f
      case Threads => sched.Valid()
      case Relations => AllOk(sched.p, sched.St(), Q(), R())
      case Badges => Conserved(ostate, sent, delivered)
    }

    ghost predicate Valid()
      reads `next, `prev, `at, `queues, `ostate, `waiting, `master, `caller, `caps, `sent, `delivered, sched, sched.rq
    {
      forall f: Facet :: ValidAt(f)
    }

    lemma Meaning()
      requires Valid()
      ensures sched.Valid() && AllOk(sched.p, sched.St(), Q(), R()) && Conserved(ostate, sent, delivered)
      ensures Known(sched.p, sched.St())
    {
      assert ValidAt(Threads) && ValidAt(Relations) && ValidAt(Badges);
    }

    lemma Restored(s: Sched, q: Queues, r: Replies)
      requires sched.Valid() && sched.St() == s && Q() == q && R() == r
      requires AllOk(sched.p, s, q, r) && Conserved(ostate, sent, delivered)
      ensures Valid()
    {
    }

    /** Before any thread has used IPC. */
    constructor (sched: S.Scheduler, objects: set<Obj>)
      requires sched.Valid() && IdleOk(sched.St()) && Ordered(sched.p, sched.St())
      requires forall t: Tcb :: t in sched.state ==> sched.state[t] in {Running, Inactive, IdleThreadState}
      ensures Valid() && this.sched == sched && waiting.Keys == objects && caller == map[]
    {
      this.sched := sched;
      next, prev, at := map[], map[], map[];
      badge, canGrant, isCall, diminishCaps := map[], map[], map[], map[];
      fault := {};
      boundAEP, boundTCB, badgeRegister, sent, delivered := map[], map[], map[], map[], map[];
      queues := map o | o in objects :: Queue(NULL, NULL);
      ostate := map o | o in objects :: Idle;
      waiting := map o | o in objects :: [];
      master := set t | t in sched.state && sched.state[t] == Running;
      caller, caps := map[], map[];
      new;
      forall o | o in waiting ensures ListedAt(next, prev, queues, waiting, o) {
      }
      forall t: Tcb ensures TcbAt(Q(), sched.state, t) && LinkAt(R(), sched.state, t) {
        assert t in sched.state ==> sched.state[t] in {Running, Inactive, IdleThreadState};
      }
      forall o ensures ConservedAt(ostate, sent, delivered, o) {
      }
    }

    // ---- Queue primitives ----

    method TcbEPAppend(tcb: Tcb, queue: Queue) returns (queue': Queue)
      modifies this`next, this`prev
      ensures next == AppendNext(old(next), queue, tcb) && prev == old(prev)[tcb := queue.end]
      ensures queue' == AppendQueue(queue, tcb)
    {
      queue' := queue;
      if queue.head == NULL {
        queue' := queue'.(head := tcb);
      } else {
        next := next[queue.end := tcb];
      }
      prev := prev[tcb := queue.end];
      next := next[tcb := NULL];
      queue' := queue'.(end := tcb);
    }

    method TcbEPDequeue(tcb: Tcb, queue: Queue) returns (queue': Queue)
      requires tcb in next && tcb in prev && next[tcb] != tcb && prev[tcb] != tcb
      modifies this`next, this`prev
      ensures next == RemoveNext(old(next), old(prev), tcb) && prev == RemovePrev(old(next), old(prev), tcb)
      ensures queue' == RemoveQueue(old(next), old(prev), queue, tcb)
    {
      queue' := queue;
      if prev[tcb] != NULL {
        next := next[prev[tcb] := next[tcb]];
      } else {
        queue' := queue'.(head := next[tcb]);
      }
      if next[tcb] != NULL {
        prev := prev[next[tcb] := prev[tcb]];
      } else {
        queue' := queue'.(end := prev[tcb]);
      }
    }

    /** The thread is put at the end of the object's queue. */
    method AppendTo(t: Tcb, o: Obj, os: ObjState)
      requires o in queues && o in waiting
      modifies this`next, this`prev, this`at, this`queues, this`ostate, this`waiting
      ensures Q() == Joined(old(Q()), t, o, os)
    {
      var queue := TcbEPAppend(t, queues[o]);
      ostate := ostate[o := os];
      queues := queues[o := queue];
      at := at[t := o];
      waiting := waiting[o := waiting[o] + [t]];
    }

    ghost predicate MayLeave(t: Tcb, o: Obj)
      reads this
    {
      && o in queues && o in waiting && o in ostate && t in next && t in prev && next[t] != t && prev[t] != t
      && (Left(Q(), t, o).queues[o].head == NULL <==> Without(waiting[o], t) == [])
    }

    /** The thread is taken out of the object's queue, and the object goes idle when it was the last. */
    method TakeFrom(t: Tcb, o: Obj)
      requires MayLeave(t, o)
      modifies this`next, this`prev, this`queues, this`ostate, this`waiting
      ensures Q() == Left(old(Q()), t, o)
    {
      var queue := TcbEPDequeue(t, queues[o]);
      queues := queues[o := queue];
      waiting := waiting[o := Without(waiting[o], t)];
      if queue.head == NULL {
        ostate := ostate[o := Idle];
      }
    }

    lemma Leavable(t: Tcb)
      requires Valid() && t in sched.state && Waits(sched.state[t])
      ensures t in at && MayLeave(t, at[t]) && t in waiting[at[t]] && ostate[at[t]] == WaitState(sched.state[t])
    {
      Meaning();
      AllAspects(sched.p, sched.St(), Q(), R());
      assert TcbAt(Q(), sched.state, t);
      LeftLists(Q(), sched.state, t, at[t]);
    }

    lemma HasQueue(o: Obj)
      requires Valid() && o in waiting
      ensures o in queues && o in ostate && Fits(o, ostate[o]) && (waiting[o] == [] <==> !Queueing(ostate[o]))
    {
      Meaning();
      AllAspects(sched.p, sched.St(), Q(), R());
      assert ObjAt(Q(), o);
    }

    lemma HasObject(o: Obj)
      requires Valid()
      ensures o in ostate <==> o in waiting
    {
      Meaning();
      AllAspects(sched.p, sched.St(), Q(), R());
      assert ObjAt(Q(), o);
    }

    /** The head of a queue that is not empty, which is what the source asserts. */
    lemma Head(o: Obj)
      requires Valid() && o in waiting && o in ostate && Queueing(ostate[o])
      ensures waiting[o] != [] && o in queues && queues[o].head == waiting[o][0] && queues[o].head != NULL
      ensures var t := waiting[o][0];
        t in sched.state && WaitState(sched.state[t]) == ostate[o] && t in at && at[t] == o
    {
      Meaning();
      AllAspects(sched.p, sched.St(), Q(), R());
      assert ObjAt(Q(), o) && ListedAt(next, prev, queues, waiting, o);
      Ends(next, prev, queues[o], waiting[o]);
      var t := waiting[o][0];
      assert t in waiting[o];
      assert TcbAt(Q(), sched.state, t);
    }

    /** A queue has a head exactly when somebody waits in it. */
    lemma HeadTells(o: Obj)
      requires Valid() && o in waiting
      ensures o in queues && (queues[o].head == NULL <==> waiting[o] == [])
    {
      Meaning();
      AllAspects(sched.p, sched.St(), Q(), R());
      assert ListedAt(next, prev, queues, waiting, o);
      Ends(next, prev, queues[o], waiting[o]);
    }

    /** The head of the queue leaves it and the thread is made ready: the delivery half of every transfer. */
    method WakeHead(o: Obj, onSame: bool) returns (t: Tcb)
      requires Valid() && o in waiting && o in ostate && Queueing(ostate[o])
      modifies this`next, this`prev, this`queues, this`ostate, this`waiting, sched, sched.rq
      ensures Valid()
      ensures old(waiting)[o] != [] && t == old(waiting)[o][0] && t in old(sched.state)
      ensures WaitState(old(sched.state)[t]) == old(ostate)[o]
      ensures t in old(next) && t in old(prev) && o in old(queues)
      ensures Q() == Left(old(Q()), t, o) && sched.St() == Woken(sched.p, old(sched.St()), t, onSame)
    {
      Meaning();
      ghost var s, q := sched.St(), Q();
      Head(o);
      t := queues[o].head;
      Leavable(t);
      TakeFrom(t, o);
      QueuesConserve(q, Q(), o, sent, delivered);
      MakeReady(t, onSame);
      WakeOk(sched.p, s, q, R(), t, Running, onSame);
    }

    /** setThreadState(t, Running), then attemptSwitchTo or switchIfRequiredTo. */
    method MakeReady(t: Tcb, onSame: bool)
      requires sched.Valid() && t in sched.state
      modifies sched, sched.rq
      ensures sched.Valid() && sched.St() == Woken(sched.p, old(sched.St()), t, onSame)
      ensures sched.state.Keys == old(sched.state.Keys)
    {
      sched.SetThreadState(t, Running);
      sched.PossibleSwitchTo(t, onSame);
    }

    /** The thread blocks at the end of the object's queue. */
    method BlockOn(thread: Tcb, o: Obj, ts: ThreadState)
      requires Valid() && Engaged(sched.St(), thread) && Waits(ts)
      requires o in waiting && o in ostate && (ostate[o] == Idle || ostate[o] == WaitState(ts))
      requires Fits(o, WaitState(ts)) && (ts == BlockedOnReceive ==> CallerSlot(thread) !in caps)
      modifies this`next, this`prev, this`at, this`queues, this`ostate, this`waiting, sched, sched.rq
      ensures Valid() && o in old(queues)
      ensures Q() == Joined(old(Q()), thread, o, WaitState(ts))
      ensures sched.St() == SetThreadState(old(sched.St()), thread, ts)
    {
      Meaning();
      ghost var s, q := sched.St(), Q();
      HasQueue(o);
      sched.SetThreadState(thread, ts);
      AppendTo(thread, o, WaitState(ts));
      QueuesConserve(q, Q(), o, sent, delivered);
      BlockOk(sched.p, s, q, R(), thread, o, ts);
    }

    // ---- Synchronous endpoints ----

    /** setupCallerCap: the caller blocks on its reply, and the reply cap appears in the receiver's caller slot. */
    method SetupCallerCap(sender: Tcb, receiver: Tcb)
      requires Valid() && Engaged(sched.St(), sender) && receiver in sched.state && sender != receiver
      requires CallerSlot(receiver) !in caps && sched.state[receiver] != BlockedOnReceive
      modifies this`caller, this`caps, sched, sched.rq
      ensures Valid() && sender in master
      ensures R() == Owed(old(R()), sender, receiver)
      ensures sched.St() == SetThreadState(old(sched.St()), sender, BlockedOnReply)
    {
      Meaning();
      ghost var s, r := sched.St(), R();
      sched.SetThreadState(sender, BlockedOnReply);
      RecordReply(sender, receiver);
      OweOk(sched.p, s, Q(), r, sender, receiver);
    }

    /** The master reply cap records the caller slot, and the caller slot gets the reply cap. */
    method RecordReply(sender: Tcb, receiver: Tcb)
      modifies this`caller, this`caps
      ensures R() == Owed(old(R()), sender, receiver)
    {
      caller := caller[sender := CallerSlot(receiver)];
      caps := caps[CallerSlot(receiver) := sender];
    }

    lemma RoomForReply(t: Tcb)
      requires Valid() && t in sched.state && sched.state[t] == BlockedOnReceive
      ensures CallerSlot(t) !in caps
    {
      Meaning();
      AllAspects(sched.p, sched.St(), Q(), R());
      assert LinkAt(R(), sched.state, t);
    }

    /** sendIPC */
    method SendIPC(blocking: bool, doCall: bool, bdg: Word, grant: bool, thread: Tcb, ep: Obj)
      requires Valid() && Engaged(sched.St(), thread) && ep in waiting && ep.Endpoint?
      modifies this`next, this`prev, this`at, this`queues, this`ostate, this`waiting, this`badge
      modifies this`canGrant, this`isCall, this`badgeRegister
      modifies this`caller, this`caps, sched, sched.rq
      ensures Valid() && ep in old(ostate) && ep in old(queues)
      ensures old(ostate)[ep] != Recv ==> badgeRegister == old(badgeRegister)
      ensures old(ostate)[ep] != Recv && blocking ==>
        Q() == Joined(old(Q()), thread, ep, Send) && R() == old(R())
        && sched.St() == SetThreadState(old(sched.St()), thread, BlockedOnSend)
        && badge == old(badge)[thread := bdg] && canGrant == old(canGrant)[thread := grant]
        && isCall == old(isCall)[thread := doCall]
      ensures old(ostate)[ep] != Recv && !blocking ==>
        Q() == old(Q()) && R() == old(R()) && sched.St() == old(sched.St())
      ensures old(ostate)[ep] == Recv || !blocking ==>
        badge == old(badge) && canGrant == old(canGrant) && isCall == old(isCall)
      ensures old(ostate)[ep] == Recv ==>
        old(waiting)[ep] != [] && var dest := old(waiting)[ep][0];
        Q() == Left(old(Q()), dest, ep) && badgeRegister == old(badgeRegister)[dest := bdg]
        && var wantsReply, mayReply := doCall || thread in fault, grant && !Flag(diminishCaps, dest);
        sched.St() == AfterCall(Woken(sched.p, old(sched.St()), dest, true), thread, wantsReply, mayReply)
        && R() == if wantsReply && mayReply then Owed(old(R()), thread, dest) else old(R())
    {
      HasQueue(ep);
      match ostate[ep] {
        case Idle | Send =>
          if blocking { BlockOnSend(thread, ep, bdg, grant, doCall); }
        case Recv =>
          Deliver(doCall || thread in fault, bdg, grant, thread, ep);
        case _ =>
      }
    }

    /** The message goes to the first receiver, and the badge to its badge register. */
    method Deliver(wantsReply: bool, bdg: Word, grant: bool, thread: Tcb, ep: Obj)
      requires Valid() && Engaged(sched.St(), thread) && ep in waiting && ep in ostate && ostate[ep] == Recv
      modifies this`next, this`prev, this`queues, this`ostate, this`waiting, this`caller, this`caps, sched, sched.rq
      modifies this`badgeRegister
      ensures Valid() && ep in old(queues) && old(waiting)[ep] != []
      ensures var dest := old(waiting)[ep][0];
        Q() == Left(old(Q()), dest, ep) && badgeRegister == old(badgeRegister)[dest := bdg]
        && var mayReply := grant && !Flag(diminishCaps, dest);
        sched.St() == AfterCall(Woken(sched.p, old(sched.St()), dest, true), thread, wantsReply, mayReply)
        && R() == if wantsReply && mayReply then Owed(old(R()), thread, dest) else old(R())
    {
      Head(ep);
      WriteBadge(queues[ep].head, bdg);
      WakeReceiver(wantsReply, grant, thread, ep);
    }

    method WakeReceiver(wantsReply: bool, grant: bool, thread: Tcb, ep: Obj)
      requires Valid() && Engaged(sched.St(), thread) && ep in waiting && ep in ostate && ostate[ep] == Recv
      modifies this`next, this`prev, this`queues, this`ostate, this`waiting, this`caller, this`caps, sched, sched.rq
      ensures Valid() && ep in old(queues) && old(waiting)[ep] != []
      ensures var dest := old(waiting)[ep][0];
        Q() == Left(old(Q()), dest, ep)
        && var mayReply := grant && !Flag(diminishCaps, dest);
        sched.St() == AfterCall(Woken(sched.p, old(sched.St()), dest, true), thread, wantsReply, mayReply)
        && R() == if wantsReply && mayReply then Owed(old(R()), thread, dest) else old(R())
    {
      Meaning();
      Head(ep);
      RoomForReply(waiting[ep][0]);
      ghost var s := sched.St();
      var dest := WakeHead(ep, true);
      var diminish := Flag(diminishCaps, dest);
      WakeSpares(sched.p, s, dest, true, thread);
      Reply(wantsReply, grant && !diminish, thread, dest);
    }

    /** setRegister(t, badgeRegister, bdg) */
    method WriteBadge(t: Tcb, bdg: Word)
      requires Valid()
      modifies this`badgeRegister
      ensures Valid() && badgeRegister == old(badgeRegister)[t := bdg]
    {
      badgeRegister := badgeRegister[t := bdg];
    }

    method BlockOnSend(thread: Tcb, ep: Obj, bdg: Word, grant: bool, doCall: bool)
      requires Valid() && Engaged(sched.St(), thread) && ep in waiting && ep.Endpoint? && ep in ostate
      requires (ostate[ep] == Idle || ostate[ep] == Send)
      modifies this`next, this`prev, this`at, this`queues, this`ostate, this`waiting, sched, sched.rq
      modifies this`badge, this`canGrant, this`isCall
      ensures Valid() && ep in old(queues) && Q() == Joined(old(Q()), thread, ep, Send) && R() == old(R())
      ensures sched.St() == SetThreadState(old(sched.St()), thread, BlockedOnSend)
      ensures badge == old(badge)[thread := bdg] && canGrant == old(canGrant)[thread := grant]
      ensures isCall == old(isCall)[thread := doCall]
    {
      SetBlockingInfo(thread, bdg, grant, doCall);
      BlockOn(thread, ep, BlockedOnSend);
    }

    method SetBlockingInfo(thread: Tcb, bdg: Word, grant: bool, doCall: bool)
      requires Valid()
      modifies this`badge, this`canGrant, this`isCall
      ensures Valid() && Q() == old(Q()) && R() == old(R()) && sched.St() == old(sched.St())
      ensures badge == old(badge)[thread := bdg] && canGrant == old(canGrant)[thread := grant]
      ensures isCall == old(isCall)[thread := doCall]
    {
      badge := badge[thread := bdg];
      canGrant := canGrant[thread := grant];
      isCall := isCall[thread := doCall];
    }

    /** The end of a call: a reply cap for the receiver if it may have one, else the caller stops. */
    method Reply(wantsReply: bool, mayReply: bool, thread: Tcb, dest: Tcb)
      requires Valid() && Engaged(sched.St(), thread) && dest in sched.state && thread != dest
      requires CallerSlot(dest) !in caps && sched.state[dest] != BlockedOnReceive
      modifies this`caller, this`caps, sched, sched.rq
      ensures Valid() && sched.St() == AfterCall(old(sched.St()), thread, wantsReply, mayReply)
      ensures R() == if wantsReply && mayReply then Owed(old(R()), thread, dest) else old(R())
    {
      Meaning();
      if wantsReply {
        if mayReply {
          SetupCallerCap(thread, dest);
        } else {
          ghost var s := sched.St();
          sched.SetThreadState(thread, Inactive);
          StopOk(sched.p, s, Q(), R(), thread, Inactive);
        }
      }
    }

    /** sendFaultIPC, once the handler's endpoint is found: the fault is recorded and sent like a message. */
    method SendFaultIPC(tptr: Tcb, ep: Obj, bdg: Word)
      requires Valid() && Engaged(sched.St(), tptr) && ep in waiting && ep.Endpoint?
      modifies this`next, this`prev, this`at, this`queues, this`ostate, this`waiting, this`badge
      modifies this`canGrant, this`isCall, this`fault, this`badgeRegister
      modifies this`caller, this`caps, sched, sched.rq
      ensures Valid() && ep in old(ostate) && ep in old(queues) && fault == old(fault) + {tptr}
      ensures old(ostate)[ep] != Recv ==>
        Q() == Joined(old(Q()), tptr, ep, Send) && R() == old(R()) && badgeRegister == old(badgeRegister)
        && sched.St() == SetThreadState(old(sched.St()), tptr, BlockedOnSend)
        && badge == old(badge)[tptr := bdg] && canGrant == old(canGrant)[tptr := true]
        && isCall == old(isCall)[tptr := false]
      ensures old(ostate)[ep] == Recv ==>
        old(waiting)[ep] != [] && var dest := old(waiting)[ep][0];
        Q() == Left(old(Q()), dest, ep) && badge == old(badge) && canGrant == old(canGrant) && isCall == old(isCall)
        && badgeRegister == old(badgeRegister)[dest := bdg]
        && var mayReply := !Flag(diminishCaps, dest);
        sched.St() == AfterCall(Woken(sched.p, old(sched.St()), dest, true), tptr, true, mayReply)
        && R() == if mayReply then Owed(old(R()), tptr, dest) else old(R())
    {
      fault := fault + {tptr};
      SendIPC(true, false, bdg, true, tptr, ep);
    }

    /** handleDoubleFault: without a handler the thread stops. */
    method HandleDoubleFault(tptr: Tcb)
      requires Valid() && Engaged(sched.St(), tptr)
      modifies sched, sched.rq
      ensures Valid() && sched.St() == SetThreadState(old(sched.St()), tptr, Inactive)
    {
      Meaning();
      StopOk(sched.p, sched.St(), Q(), R(), tptr, Inactive);
      sched.SetThreadState(tptr, Inactive);
    }

    /** No sender waits at the endpoint, and the asynchronous endpoint bound to the thread holds no badge. */
    predicate NothingFor(thread: Tcb, ep: Obj)
      reads `boundAEP, `ostate
    {
      && ep in ostate && ostate[ep] != Send
      && !(thread in boundAEP && boundAEP[thread] in ostate && ostate[boundAEP[thread]].Active?)
    }

    /** receiveIPC: a message held by the bound asynchronous endpoint goes first. */
    method ReceiveIPC(thread: Tcb, ep: Obj, diminish: bool)
      requires Valid() && Engaged(sched.St(), thread) && ep in waiting && ep.Endpoint? && CallerSlot(thread) !in caps
      requires thread in boundAEP ==> boundAEP[thread] in ostate
      modifies this`next, this`prev, this`at, this`queues, this`ostate, this`waiting, this`diminishCaps
      modifies this`badgeRegister, this`delivered, this`caller, this`caps, sched, sched.rq
      ensures Valid() && Look() == Received(sched.p, old(Look()), B(), thread, ep, diminish)
      ensures old(NothingFor(thread, ep)) ==>
        && thread in sched.state && sched.state[thread] == BlockedOnReceive
        && thread in diminishCaps && diminishCaps[thread] == diminish
        && waiting == old(waiting)[ep := old(waiting)[ep] + [thread]]
    {
      if thread in boundAEP && ostate[boundAEP[thread]].Active? {
        TakeBadges(thread, boundAEP[thread]);
      } else {
        ReceiveOrBlock(thread, ep, diminish);
      }
    }

    /** completeAsyncIPC in the course of a receive. */
    method TakeBadges(thread: Tcb, aep: Obj)
      requires Valid() && aep in ostate && ostate[aep].Active?
      modifies this`ostate, this`badgeRegister, this`delivered
      ensures Valid() && Look() == Told(old(Look()), thread, aep)
    {
      CompleteAsyncIPC(aep, thread);
    }

    method ReceiveOrBlock(thread: Tcb, ep: Obj, diminish: bool)
      requires Valid() && Engaged(sched.St(), thread) && ep in waiting && ep.Endpoint? && CallerSlot(thread) !in caps
      modifies this`next, this`prev, this`at, this`queues, this`ostate, this`waiting, this`diminishCaps
      modifies this`badgeRegister, this`caller, this`caps, sched, sched.rq
      ensures Valid() && Look() == CollectedOrWaiting(sched.p, old(Look()), thread, ep, diminish)
      ensures ep in old(ostate) && old(ostate)[ep] != Send ==>
        && thread in sched.state && sched.state[thread] == BlockedOnReceive
        && thread in diminishCaps && diminishCaps[thread] == diminish
        && waiting == old(waiting)[ep := old(waiting)[ep] + [thread]]
    {
      HasQueue(ep);
      match ostate[ep] {
        case Idle => BlockOnReceive(thread, ep, diminish);
        case Recv => BlockOnReceive(thread, ep, diminish);
        case Send => Collect(thread, ep, diminish);
        case _ =>
      }
    }

    method BlockOnReceive(thread: Tcb, ep: Obj, diminish: bool)
      requires Valid() && Engaged(sched.St(), thread) && ep in waiting && ep.Endpoint? && CallerSlot(thread) !in caps
      requires ep in ostate && (ostate[ep] == Idle || ostate[ep] == Recv)
      modifies this`next, this`prev, this`at, this`queues, this`ostate, this`waiting, this`diminishCaps, sched, sched.rq
      ensures Valid() && ep in old(queues) && Q() == Joined(old(Q()), thread, ep, Recv) && R() == old(R())
      ensures sched.St() == SetThreadState(old(sched.St()), thread, BlockedOnReceive)
      ensures diminishCaps == old(diminishCaps)[thread := diminish]
    {
      SetDiminish(thread, diminish);
      BlockOn(thread, ep, BlockedOnReceive);
    }

    method SetDiminish(thread: Tcb, diminish: bool)
      requires Valid()
      modifies this`diminishCaps
      ensures Valid() && Q() == old(Q()) && R() == old(R()) && sched.St() == old(sched.St())
      ensures diminishCaps == old(diminishCaps)[thread := diminish]
    {
      diminishCaps := diminishCaps[thread := diminish];
    }

    /** The first sender's message comes in. */
    method Collect(thread: Tcb, ep: Obj, diminish: bool)
      requires Valid() && Engaged(sched.St(), thread) && ep in waiting && ep.Endpoint? && CallerSlot(thread) !in caps
      requires ep in ostate && ostate[ep] == Send
      modifies this`next, this`prev, this`queues, this`ostate, this`waiting, this`caller, this`caps, sched, sched.rq
      modifies this`badgeRegister
      ensures Valid() && Look() == Collected(sched.p, old(Look()), thread, ep, diminish)
    {
      Head(ep);
      TellReceiver(thread, BadgeOf(badge, queues[ep].head));
      Relieve(thread, ep, diminish);
    }

    method TellReceiver(thread: Tcb, bdg: Word)
      requires Valid()
      modifies this`badgeRegister
      ensures Valid() && Look() == old(Look()).(register := old(badgeRegister)[thread := bdg])
    {
      WriteBadge(thread, bdg);
    }

    method Relieve(thread: Tcb, ep: Obj, diminish: bool)
      requires Valid() && Engaged(sched.St(), thread) && ep in waiting && ep.Endpoint? && CallerSlot(thread) !in caps
      requires ep in ostate && ostate[ep] == Send
      modifies this`next, this`prev, this`queues, this`ostate, this`waiting, this`caller, this`caps, sched, sched.rq
      ensures Valid() && Look() == Relieved(sched.p, old(Look()), thread, ep, diminish)
    {
      Head(ep);
      var sender := queues[ep].head;
      if Flag(isCall, sender) || sender in fault {
        CollectCall(sender, thread, ep, diminish);
      } else {
        sender := WakeHead(ep, false);
      }
    }

    /** It is a call, or a fault: the sender waits for the reply, or stops if there is to be none. */
    method CollectCall(sender: Tcb, thread: Tcb, ep: Obj, diminish: bool)
      requires Valid() && Engaged(sched.St(), thread) && ep in waiting && ep.Endpoint? && CallerSlot(thread) !in caps
      requires ep in ostate && ostate[ep] == Send && waiting[ep] != [] && sender == waiting[ep][0]
      requires Flag(isCall, sender) || sender in fault
      modifies this`next, this`prev, this`queues, this`ostate, this`waiting, this`caller, this`caps, sched, sched.rq
      ensures Valid() && Look() == Relieved(sched.p, old(Look()), thread, ep, diminish)
    {
      if Flag(canGrant, sender) && !diminish {
        OweFirst(sender, thread, ep);
      } else {
        StopFirst(sender, ep);
      }
    }

    method OweFirst(sender: Tcb, receiver: Tcb, ep: Obj)
      requires Valid() && Engaged(sched.St(), receiver) && CallerSlot(receiver) !in caps
      requires ep in waiting && ep.Endpoint?
      requires ep in ostate && ostate[ep] == Send && waiting[ep] != [] && sender == waiting[ep][0]
      modifies this`next, this`prev, this`queues, this`ostate, this`waiting, this`caller, this`caps, sched, sched.rq
      ensures Valid()
      ensures var v := old(Look());
        Look() == v.(q := Left(v.q, sender, ep), s := SetThreadState(v.s, sender, BlockedOnReply),
                     r := Owed(v.r, sender, receiver))
    {
      Head(ep);
      OweHead(sender, receiver);
    }

    method StopFirst(sender: Tcb, ep: Obj)
      requires Valid() && ep in waiting && ep.Endpoint? && ep in ostate && ostate[ep] == Send
      requires waiting[ep] != [] && sender == waiting[ep][0]
      modifies this`next, this`prev, this`queues, this`ostate, this`waiting, sched, sched.rq
      ensures Valid()
      ensures var v := old(Look()); Look() == v.(q := Left(v.q, sender, ep), s := SetThreadState(v.s, sender, Inactive))
    {
      Head(ep);
      CancelWait(sender);
    }

    /** A waiting sender leaves its queue and blocks on the reply, whose cap the receiver gets. */
    method OweHead(sender: Tcb, receiver: Tcb)
      requires Valid() && sender in sched.state && Waits(sched.state[sender]) && receiver in sched.state
      requires sender != receiver && CallerSlot(receiver) !in caps && sched.state[receiver] != BlockedOnReceive
      modifies this`next, this`prev, this`queues, this`ostate, this`waiting, this`caller, this`caps, sched, sched.rq
      ensures Valid() && sender in old(at) && sender in old(next) && sender in old(prev)
      ensures old(at)[sender] in old(queues) && old(at)[sender] in old(waiting) && old(at)[sender] in old(ostate)
      ensures Q() == Left(old(Q()), sender, old(at)[sender]) && R() == Owed(old(R()), sender, receiver)
      ensures sched.St() == SetThreadState(old(sched.St()), sender, BlockedOnReply)
    {
      Meaning();
      ghost var s, q, r := sched.St(), Q(), R();
      Leavable(sender);
      Unqueue(sender, BlockedOnReply);
      RecordReply(sender, receiver);
      OweWaitingOk(sched.p, s, q, r, sender, receiver);
      Restored(SetThreadState(s, sender, BlockedOnReply), Left(q, sender, q.at[sender]), Owed(r, sender, receiver));
    }

    /** The thread leaves its queue and changes its state. */
    method Unqueue(t: Tcb, ts: ThreadState)
      requires sched.Valid() && t in sched.state && t in at && MayLeave(t, at[t]) && !ostate[at[t]].Active?
      requires Conserved(ostate, sent, delivered)
      modifies this`next, this`prev, this`queues, this`ostate, this`waiting, sched, sched.rq
      ensures sched.Valid() && Conserved(ostate, sent, delivered) && Q() == Left(old(Q()), t, old(at)[t])
      ensures sched.St() == SetThreadState(old(sched.St()), t, ts)
    {
      ghost var q := Q();
      TakeFrom(t, at[t]);
      QueuesConserve(q, Q(), at[t], sent, delivered);
      sched.SetThreadState(t, ts);
    }

    /** A waiting thread leaves its queue and stops. */
    method CancelWait(t: Tcb)
      requires Valid() && t in sched.state && Waits(sched.state[t])
      modifies this`next, this`prev, this`queues, this`ostate, this`waiting, sched, sched.rq
      ensures Valid() && t in old(at) && t in old(next) && t in old(prev)
      ensures old(at)[t] in old(queues) && old(at)[t] in old(waiting) && old(at)[t] in old(ostate)
      ensures Q() == Left(old(Q()), t, old(at)[t])
      ensures sched.St() == SetThreadState(old(sched.St()), t, Inactive)
    {
      Meaning();
      ghost var s, q := sched.St(), Q();
      Leavable(t);
      Unqueue(t, Inactive);
      CancelOk(sched.p, s, q, R(), t);
    }

    // ---- Asynchronous endpoints ----

    /** completeAsyncIPC */
    method CompleteAsyncIPC(aep: Obj, tcb: Tcb)
      requires Valid() && aep in ostate && ostate[aep].Active?
      modifies this`ostate, this`badgeRegister, this`delivered
      ensures Valid() && Q() == Took(old(Q()), aep)
      ensures badgeRegister == old(badgeRegister)[tcb := old(ostate)[aep].msgIdentifier]
      ensures delivered == old(delivered)[aep := Total(old(delivered), aep) + old(ostate)[aep].msgIdentifier]
    {
      Meaning();
      SwitchesOk(sched.p, sched.St(), Q(), R(), aep, Idle);
      var bdg := ostate[aep].msgIdentifier;
      HandOver(ostate, sent, delivered, aep);
      ostate := ostate[aep := Idle];
      badgeRegister := badgeRegister[tcb := bdg];
      delivered := delivered[aep := Total(delivered, aep) + bdg];
    }

    /** A badge arrives and is passed on at once. */
    static lemma PassOn(state: map<Obj, ObjState>, sent: map<Obj, Word>, delivered: map<Obj, Word>, o: Obj, bdg: Word)
      requires Conserved(state, sent, delivered)
      ensures Conserved(state, sent[o := Total(sent, o) + bdg], delivered[o := Total(delivered, o) + bdg])
    {
      var sent', delivered' := sent[o := Total(sent, o) + bdg], delivered[o := Total(delivered, o) + bdg];
      forall k ensures ConservedAt(state, sent', delivered', k) {
        assert ConservedAt(state, sent, delivered, k);
      }
    }

    /** A badge arrives and is kept. */
    static lemma KeepBadge(state: map<Obj, ObjState>, sent: map<Obj, Word>, delivered: map<Obj, Word>, o: Obj,
                           bdg: Word)
      requires Conserved(state, sent, delivered)
      ensures Conserved(state[o := Active(Pending(state, o) + bdg)], sent[o := Total(sent, o) + bdg], delivered)
    {
      var state', sent' := state[o := Active(Pending(state, o) + bdg)], sent[o := Total(sent, o) + bdg];
      forall k ensures ConservedAt(state', sent', delivered, k) {
        assert ConservedAt(state, sent, delivered, k);
      }
    }

    /** The badges held are passed on. */
    static lemma HandOver(state: map<Obj, ObjState>, sent: map<Obj, Word>, delivered: map<Obj, Word>, o: Obj)
      requires Conserved(state, sent, delivered) && o in state && state[o].Active?
      ensures Conserved(state[o := Idle], sent, delivered[o := Total(delivered, o) + state[o].msgIdentifier])
    {
      var state', delivered' := state[o := Idle], delivered[o := Total(delivered, o) + state[o].msgIdentifier];
      forall k ensures ConservedAt(state', sent, delivered', k) {
        assert ConservedAt(state, sent, delivered, k);
      }
    }

    /** sendAsyncIPC: the badge goes to a waiting thread, wakes the bound one, or joins the badges held. */
    method SendAsyncIPC(aep: Obj, bdg: Word)
      requires Valid() && aep in waiting && aep.AsyncEndpoint? && (aep in boundTCB ==> boundTCB[aep] in sched.state)
      modifies this`next, this`prev, this`queues, this`ostate, this`waiting, this`caller, this`caps, this`fault
      modifies this`badgeRegister, this`sent, this`delivered, sched, sched.rq
      ensures Valid() && aep in old(ostate) && R() == old(R()) && fault == old(fault)
      ensures sent == old(sent)[aep := Total(old(sent), aep) + bdg]
      ensures var wakes := old(ostate)[aep] == Idle && aep in boundTCB && Awaits(old(sched.state)[boundTCB[aep]]);
        && (wakes ==>
              Q() == Withdrawn(old(Q()), old(sched.state), boundTCB[aep])
              && sched.St() == Interrupted(sched.p, old(sched.St()), boundTCB[aep])
              && badgeRegister == old(badgeRegister)[boundTCB[aep] := bdg])
        && (wakes || old(ostate)[aep] == Waiting ==>
              delivered == old(delivered)[aep := Total(old(delivered), aep) + bdg])
        && (old(ostate)[aep] == Waiting ==>
              old(waiting)[aep] != [] && var dest := old(waiting)[aep][0];
              Q() == Left(old(Q()), dest, aep) && sched.St() == Woken(sched.p, old(sched.St()), dest, false)
              && badgeRegister == old(badgeRegister)[dest := bdg])
        && (!wakes && old(ostate)[aep] != Waiting ==>
              Q() == old(Q()).(state := old(ostate)[aep := Active(Pending(old(ostate), aep) + bdg)])
              && sched.St() == old(sched.St()) && badgeRegister == old(badgeRegister) && delivered == old(delivered))
    {
      HasQueue(aep);
      match ostate[aep] {
        case Idle => SendToIdle(aep, bdg);
        case Waiting => SendToWaiter(aep, bdg);
        case Active(msgIdentifier) => SetActive(aep, msgIdentifier + bdg, bdg);
        case _ =>
      }
    }

    method SendToIdle(aep: Obj, bdg: Word)
      requires Valid() && aep in ostate && ostate[aep] == Idle && aep.AsyncEndpoint?
      requires aep in boundTCB ==> boundTCB[aep] in sched.state
      modifies this`next, this`prev, this`queues, this`ostate, this`waiting, this`caller, this`caps, this`fault
      modifies this`badgeRegister, this`sent, this`delivered, sched, sched.rq
      ensures Valid() && R() == old(R()) && fault == old(fault)
      ensures sent == old(sent)[aep := Total(old(sent), aep) + bdg]
      ensures if aep in boundTCB && Awaits(old(sched.state)[boundTCB[aep]]) then
          Q() == Withdrawn(old(Q()), old(sched.state), boundTCB[aep])
          && sched.St() == Interrupted(sched.p, old(sched.St()), boundTCB[aep])
          && badgeRegister == old(badgeRegister)[boundTCB[aep] := bdg]
          && delivered == old(delivered)[aep := Total(old(delivered), aep) + bdg]
        else
          Q() == old(Q()).(state := old(ostate)[aep := Active(Pending(old(ostate), aep) + bdg)])
          && delivered == old(delivered) && sched.St() == old(sched.St()) && badgeRegister == old(badgeRegister)
    {
      if aep in boundTCB && Awaits(sched.state[boundTCB[aep]]) {
        SendToBound(aep, bdg);
      } else {
        assert Pending(ostate, aep) + bdg == bdg;
        SetActive(aep, bdg, bdg);
      }
    }

    method SetActive(aep: Obj, msgIdentifier: Word, ghost bdg: Word)
      requires Valid() && aep in ostate && aep.AsyncEndpoint? && !Queueing(ostate[aep])
      requires msgIdentifier == Pending(ostate, aep) + bdg
      modifies this`ostate, this`sent
      ensures Valid() && ostate == old(ostate)[aep := Active(msgIdentifier)]
      ensures sent == old(sent)[aep := Total(old(sent), aep) + bdg]
    {
      Meaning();
      SwitchesOk(sched.p, sched.St(), Q(), R(), aep, Active(msgIdentifier));
      KeepBadge(ostate, sent, delivered, aep, bdg);
      ostate := ostate[aep := Active(msgIdentifier)];
      sent := sent[aep := Total(sent, aep) + bdg];
    }

    /** The badge register of the thread receives the badge. */
    method GiveBadge(aep: Obj, t: Tcb, bdg: Word)
      requires Valid()
      modifies this`badgeRegister, this`sent, this`delivered
      ensures Valid() && badgeRegister == old(badgeRegister)[t := bdg]
      ensures sent == old(sent)[aep := Total(old(sent), aep) + bdg]
      ensures delivered == old(delivered)[aep := Total(old(delivered), aep) + bdg]
    {
      Meaning();
      PassOn(ostate, sent, delivered, aep, bdg);
      badgeRegister := badgeRegister[t := bdg];
      sent := sent[aep := Total(sent, aep) + bdg];
      delivered := delivered[aep := Total(delivered, aep) + bdg];
    }

    method SendToWaiter(aep: Obj, bdg: Word)
      requires Valid() && aep in waiting && aep in ostate && ostate[aep] == Waiting
      modifies this`next, this`prev, this`queues, this`ostate, this`waiting, sched, sched.rq
      modifies this`badgeRegister, this`sent, this`delivered
      ensures Valid() && old(waiting)[aep] != []
      ensures var dest := old(waiting)[aep][0];
        Q() == Left(old(Q()), dest, aep) && sched.St() == Woken(sched.p, old(sched.St()), dest, false)
        && badgeRegister == old(badgeRegister)[dest := bdg]
      ensures sent == old(sent)[aep := Total(old(sent), aep) + bdg]
      ensures delivered == old(delivered)[aep := Total(old(delivered), aep) + bdg]
    {
      var dest := WakeHead(aep, false);
      GiveBadge(aep, dest, bdg);
    }

    method SendToBound(aep: Obj, bdg: Word)
      requires Valid() && aep in boundTCB && boundTCB[aep] in sched.state && Awaits(sched.state[boundTCB[aep]])
      modifies this`next, this`prev, this`queues, this`ostate, this`waiting, this`caller, this`caps, this`fault
      modifies this`badgeRegister, this`sent, this`delivered, sched, sched.rq
      ensures Valid() && R() == old(R()) && fault == old(fault)
      ensures Q() == Withdrawn(old(Q()), old(sched.state), boundTCB[aep])
      ensures sched.St() == Interrupted(sched.p, old(sched.St()), boundTCB[aep])
      ensures badgeRegister == old(badgeRegister)[boundTCB[aep] := bdg]
      ensures sent == old(sent)[aep := Total(old(sent), aep) + bdg]
      ensures delivered == old(delivered)[aep := Total(old(delivered), aep) + bdg]
    {
      var tcb := boundTCB[aep];
      Interrupt(tcb);
      GiveBadge(aep, tcb, bdg);
    }

    /** The bound thread leaves whatever it does and runs. */
    method Interrupt(tcb: Tcb)
      requires Valid() && tcb in sched.state && Awaits(sched.state[tcb])
      modifies this`next, this`prev, this`queues, this`ostate, this`waiting, this`caller, this`caps, this`fault
      modifies sched, sched.rq
      ensures Valid() && R() == old(R()) && fault == old(fault)
      ensures Q() == Withdrawn(old(Q()), old(sched.state), tcb)
      ensures sched.St() == Interrupted(sched.p, old(sched.St()), tcb)
    {
      NeverIdle(tcb);
      if sched.state[tcb] == BlockedOnReceive {
        IpcCancel(tcb);
      }
      RunNow(tcb);
    }

    /** A thread that waits, or runs a virtual machine, has a master reply cap and is owed no reply. */
    lemma NeverIdle(t: Tcb)
      requires Valid() && t in sched.state && (Waits(sched.state[t]) || Runnable(sched.state[t]))
      ensures t in master && t !in caller && t != sched.idle
    {
      Meaning();
      AllAspects(sched.p, sched.St(), Q(), R());
      assert LinkAt(R(), sched.state, t);
    }

    /** setThreadState(t, Running), then attemptSwitchTo. */
    method RunNow(t: Tcb)
      requires Valid() && t in sched.state && t != sched.idle && t in master && t !in caller && !Waits(sched.state[t])
      modifies sched, sched.rq
      ensures Valid() && sched.St() == Woken(sched.p, old(sched.St()), t, true)
    {
      Meaning();
      ghost var s := sched.St();
      MakeReady(t, true);
      ReadyOk(sched.p, s, Q(), R(), t, Running, true);
    }

    /** receiveAsyncIPC */
    method ReceiveAsyncIPC(thread: Tcb, aep: Obj, isBlocking: bool)
      requires Valid() && Engaged(sched.St(), thread) && aep in waiting && aep.AsyncEndpoint?
      modifies this`next, this`prev, this`at, this`queues, this`ostate, this`waiting, this`badgeRegister, this`delivered
      modifies sched, sched.rq
      ensures Valid() && aep in old(ostate) && aep in old(queues)
      ensures old(ostate)[aep].Active? ==>
        Q() == Took(old(Q()), aep) && sched.St() == old(sched.St())
        && badgeRegister == old(badgeRegister)[thread := old(ostate)[aep].msgIdentifier]
        && delivered == old(delivered)[aep := Total(old(delivered), aep) + old(ostate)[aep].msgIdentifier]
      ensures !old(ostate)[aep].Active? && isBlocking ==>
        Q() == Joined(old(Q()), thread, aep, Waiting)
        && badgeRegister == old(badgeRegister) && delivered == old(delivered)
        && sched.St() == SetThreadState(old(sched.St()), thread, BlockedOnAsyncEvent)
      ensures !old(ostate)[aep].Active? && !isBlocking ==>
        Q() == old(Q()) && sched.St() == old(sched.St()) && delivered == old(delivered)
        && badgeRegister == old(badgeRegister)[thread := {}]
    {
      Meaning();
      HasQueue(aep);
      match ostate[aep] {
        case Active(msgIdentifier) => CompleteAsyncIPC(aep, thread);
        case Idle => WaitOrPoll(thread, aep, isBlocking);
        case Waiting => WaitOrPoll(thread, aep, isBlocking);
        case _ =>
      }
    }

    method WaitOrPoll(thread: Tcb, aep: Obj, isBlocking: bool)
      requires Valid() && Engaged(sched.St(), thread) && aep in waiting && aep.AsyncEndpoint?
      requires aep in ostate && (ostate[aep] == Idle || ostate[aep] == Waiting)
      modifies this`next, this`prev, this`at, this`queues, this`ostate, this`waiting, this`badgeRegister
      modifies sched, sched.rq
      ensures Valid() && aep in old(queues)
      ensures isBlocking ==>
        Q() == Joined(old(Q()), thread, aep, Waiting) && badgeRegister == old(badgeRegister)
        && sched.St() == SetThreadState(old(sched.St()), thread, BlockedOnAsyncEvent)
      ensures !isBlocking ==>
        Q() == old(Q()) && sched.St() == old(sched.St()) && badgeRegister == old(badgeRegister)[thread := {}]
    {
      Meaning();
      HasQueue(aep);
      if isBlocking {
        BlockOn(thread, aep, BlockedOnAsyncEvent);
      } else {
        badgeRegister := badgeRegister[thread := {}];
      }
    }

    // ---- Cancelling ----

    /** ipcCancel: the thread waits for nothing and is owed no reply any more. */
    method IpcCancel(tptr: Tcb)
      requires Valid() && tptr in sched.state
      modifies this`next, this`prev, this`queues, this`ostate, this`waiting, this`caller, this`caps
      modifies this`fault, sched, sched.rq
      ensures Valid() && Q() == Withdrawn(old(Q()), old(sched.state), tptr) && R() == Forgiven(old(R()), tptr)
      ensures sched.St() == Unblocked(old(sched.St()), tptr) && !Waits(sched.state[tptr]) && tptr !in caller
      ensures fault == if old(sched.state)[tptr] == BlockedOnReply then old(fault) - {tptr} else old(fault)
    {
      Meaning();
      OnlyBlockedCall(tptr);
      if Waits(sched.state[tptr]) {
        CancelWait(tptr);
      } else if sched.state[tptr] == BlockedOnReply {
        fault := fault - {tptr};
        if tptr in caller {
          DropLink(caller[tptr]);
        }
      }
    }

    lemma OnlyBlockedCall(t: Tcb)
      requires Valid()
      ensures t in caller ==> t in sched.state && sched.state[t] == BlockedOnReply
      ensures t in caller ==> caller[t] in caps && caps[caller[t]] == t
    {
      Meaning();
      AllAspects(sched.p, sched.St(), Q(), R());
      assert LinkAt(R(), sched.state, t);
    }

    /** finaliseCap of a reply cap, after which its slot is emptied. */
    method DropLink(slot: Cte)
      requires Valid() && slot in caps
      modifies this`caller, this`caps
      ensures Valid() && R() == Paid(old(R()), slot) && old(caps)[slot] !in caller
    {
      Meaning();
      SettleOk(sched.p, sched.St(), Q(), R(), slot);
      var callee := caps[slot];
      caller := caller - {callee};
      caps := caps - {slot};
    }

    /** deleteCallerCap */
    method DeleteCallerCap(receiver: Tcb)
      requires Valid()
      modifies this`caller, this`caps
      ensures Valid() && CallerSlot(receiver) !in caps
      ensures R() == Dropped(old(R()), CallerSlot(receiver))
    {
      if CallerSlot(receiver) in caps {
        DropLink(CallerSlot(receiver));
      }
    }

    /** epCancelAll, and aepCancelAll of a waiting asynchronous endpoint: every thread in the queue is restarted. */
    method CancelAll(o: Obj)
      requires Valid() && o in waiting
      modifies this`queues, this`ostate, this`waiting, sched, sched.rq
      ensures Valid() && o in old(ostate)
      ensures !Queueing(old(ostate)[o]) ==> Q() == old(Q()) && sched.St() == old(sched.St())
      ensures Queueing(old(ostate)[o]) ==>
        Q() == Emptied(old(Q()), o) && sched.St() == RescheduleRequired(WakeEach(old(sched.St()), old(waiting)[o]))
    {
      HasQueue(o);
      if Queueing(ostate[o]) {
        RestartQueue(o);
      }
    }

    method RestartQueue(o: Obj)
      requires Valid() && o in waiting && o in ostate && Queueing(ostate[o])
      modifies this`queues, this`ostate, this`waiting, sched, sched.rq
      ensures Valid() && Q() == Emptied(old(Q()), o)
      ensures sched.St() == RescheduleRequired(WakeEach(old(sched.St()), old(waiting)[o]))
    {
      Meaning();
      ghost var s, q := sched.St(), Q();
      Head(o);
      Chain(o);
      EmptyAndWake(o);
      QueuesConserve(q, Q(), o, sent, delivered);
      WakeAllOk(sched.p, s, q, R(), o);
      Restored(RescheduleRequired(WakeEach(s, q.waiting[o])), Emptied(q, o), R());
    }

    method EmptyAndWake(o: Obj)
      requires sched.Valid() && o in waiting && o in queues && queues[o].head == At(waiting[o], 0)
      requires forall i :: 0 <= i < |waiting[o]| ==> Linked(next, prev, waiting[o], i)
      requires forall t: Tcb :: t in waiting[o] ==> t in sched.state
      modifies this`queues, this`ostate, this`waiting, sched, sched.rq
      ensures sched.Valid() && Q() == Emptied(old(Q()), o)
      ensures sched.St() == RescheduleRequired(WakeEach(old(sched.St()), old(waiting)[o]))
    {
      ghost var s, q := sched.St(), Q();
      var thread := queues[o].head;
      ostate := ostate[o := Idle];
      queues := queues[o := Queue(NULL, NULL)];
      WakeChain(thread, s, q, o);
      sched.RescheduleRequired();
      waiting := waiting[o := []];
    }

    lemma Chain(o: Obj)
      requires Valid() && o in waiting
      ensures forall i :: 0 <= i < |waiting[o]| ==> Linked(next, prev, waiting[o], i)
      ensures forall t: Tcb :: t in waiting[o] ==>
        t in sched.state && WaitState(sched.state[t]) != Idle && t in at && at[t] == o
    {
      Meaning();
      AllAspects(sched.p, sched.St(), Q(), R());
      assert ListedAt(next, prev, queues, waiting, o);
      forall t: Tcb | t in waiting[o]
        ensures t in sched.state && WaitState(sched.state[t]) != Idle && t in at && at[t] == o {
        assert TcbAt(Q(), sched.state, t);
      }
    }

    /** The loop over the chain of waiting threads; their links stay as they are. */
    method WakeChain(head: Tcb, ghost s: Sched, ghost q: Queues, ghost o: Obj)
      requires sched.Valid() && s == sched.St() && next == q.next && o in q.waiting && head == At(q.waiting[o], 0)
      requires forall i :: 0 <= i < |q.waiting[o]| ==> Linked(q.next, q.prev, q.waiting[o], i)
      requires forall t: Tcb :: t in q.waiting[o] ==> t in s.state
      modifies sched, sched.rq
      ensures sched.Valid() && sched.St() == WakeEach(s, q.waiting[o])
    {
      ghost var ts := q.waiting[o];
      assert ts != [] ==> Linked(q.next, q.prev, ts, 0);
      var thread := head;
      ghost var i := 0;
      while thread != NULL
        invariant 0 <= i <= |ts| && thread == At(ts, i) && (thread == NULL <==> i == |ts|)
        invariant sched.Valid() && sched.St() == WakeEach(s, ts[..i]) && sched.state.Keys == s.state.Keys
        decreases |ts| - i
      {
        assert Linked(q.next, q.prev, ts, i) && ts[i] in ts;
        assert i + 1 < |ts| ==> Linked(q.next, q.prev, ts, i + 1);
        assert ts[..i + 1] == ts[..i] + [ts[i]];
        WakeEachMore(s, ts[..i], ts[i]);
        RestartOne(thread);
        thread := next[thread];
        i := i + 1;
      }
      assert ts[..i] == ts;
    }

    /** setThreadState(thread, Restart); tcbSchedEnqueue(thread) */
    method RestartOne(thread: Tcb)
      requires sched.Valid() && thread in sched.state
      modifies sched, sched.rq
      ensures sched.Valid() && sched.St() == WakeOne(old(sched.St()), thread)
      ensures sched.state.Keys == old(sched.state.Keys)
    {
      sched.SetThreadState(thread, Restart);
      sched.SchedEnqueue(thread);
    }

    // ---- Reply capabilities ----

    /** cteMove of a reply cap: out of a caller slot, as saveCaller does, or from one CNode slot to another. */
    method MoveReplyCap(src: Cte, dest: Cte)
      requires Valid() && src in caps && dest.CNodeSlot? && dest !in caps
      modifies this`caller, this`caps
      ensures Valid() && R() == Moved(old(R()), src, dest)
    {
      Meaning();
      MoveOk(sched.p, sched.St(), Q(), R(), src, dest);
      var replyTCB := caps[src];
      caller := caller[replyTCB := dest];
      caps := (caps - {src})[dest := replyTCB];
    }

    /** doReplyTransfer; `restart` is what handleFaultReply decides for a thread with a fault. The source's assertion
        that the receiver is blocked on its reply holds. */
    method DoReplyTransfer(receiver: Tcb, slot: Cte, restart: bool)
      requires Valid() && slot in caps && caps[slot] == receiver
      modifies this`caller, this`caps, this`fault, this`badgeRegister, sched, sched.rq
      ensures Valid() && R() == Paid(old(R()), slot) && Q() == old(Q())
      ensures receiver in old(sched.state) && old(sched.state)[receiver] == BlockedOnReply
      ensures sched.St() == Replied(sched.p, old(sched.St()), receiver, receiver in old(fault), restart)
      ensures fault == old(fault) - {receiver}
      ensures badgeRegister == if receiver in old(fault) then old(badgeRegister) else old(badgeRegister)[receiver := {}]
    {
      if receiver !in fault { WriteBadge(receiver, {}); }
      EndReply(receiver, slot, restart);
    }

    method EndReply(receiver: Tcb, slot: Cte, restart: bool)
      requires Valid() && slot in caps && caps[slot] == receiver
      modifies this`caller, this`caps, this`fault, sched, sched.rq
      ensures Valid() && R() == Paid(old(R()), slot) && Q() == old(Q())
      ensures receiver in old(sched.state) && old(sched.state)[receiver] == BlockedOnReply
      ensures sched.St() == Replied(sched.p, old(sched.St()), receiver, receiver in old(fault), restart)
      ensures fault == old(fault) - {receiver}
    {
      Meaning();
      ghost var s, q, r, faulty := sched.St(), Q(), R(), receiver in fault;
      SettleOk(sched.p, s, q, r, slot);
      OwedMaster(receiver);
      assert sched.state[receiver] == BlockedOnReply;
      RepliedOk(sched.p, s, q, Paid(r, slot), receiver, faulty, restart);
      ResumeCaller(receiver, restart);
      Settle(slot);
      Restored(Replied(sched.p, s, receiver, faulty, restart), q, Paid(r, slot));
    }

    /** The reply capability in `slot` is gone, and nobody waits for it any more. */
    method Settle(slot: Cte)
      requires slot in caps
      modifies this`caller, this`caps
      ensures R() == Paid(old(R()), slot)
    {
      var callee := caps[slot];
      caller := caller - {callee};
      caps := caps - {slot};
    }

    /** What the reply means for the thread that waited for it. */
    method ResumeCaller(receiver: Tcb, restart: bool)
      requires sched.Valid() && receiver in sched.state
      modifies this`fault, sched, sched.rq
      ensures sched.Valid() && fault == old(fault) - {receiver}
      ensures sched.St() == Replied(sched.p, old(sched.St()), receiver, receiver in old(fault), restart)
    {
      if receiver !in fault {
        Rouse(receiver, Running);
      } else {
        fault := fault - {receiver};
        if restart {
          Rouse(receiver, Restart);
        } else {
          sched.SetThreadState(receiver, Inactive);
        }
      }
    }

    method Rouse(t: Tcb, ts: ThreadState)
      requires sched.Valid() && t in sched.state
      modifies sched, sched.rq
      ensures sched.Valid()
      ensures sched.St() == Readied(sched.p, old(sched.St()), t, ts, true)
    {
      sched.SetThreadState(t, ts);
      sched.AttemptSwitchTo(t);
    }

    lemma OwedMaster(t: Tcb)
      requires Valid() && t in sched.state && sched.state[t] != Inactive && sched.state[t] != IdleThreadState
      ensures t in master && t != sched.idle
    {
      Meaning();
      AllAspects(sched.p, sched.St(), Q(), R());
      assert LinkAt(R(), sched.state, t);
    }

    /** handleReply: the source's assertion that nobody replies to itself holds. */
    method HandleReply(restart: bool)
      requires Valid() && sched.cur in sched.state && Runnable(sched.state[sched.cur])
      modifies this`caller, this`caps, this`fault, this`badgeRegister, sched, sched.rq
      ensures Valid() && Q() == old(Q()) && CallerSlot(old(sched.cur)) !in caps
      ensures R() == Dropped(old(R()), CallerSlot(old(sched.cur)))
      ensures CallerSlot(old(sched.cur)) !in old(caps) ==>
        sched.St() == old(sched.St()) && fault == old(fault) && badgeRegister == old(badgeRegister)
      ensures CallerSlot(old(sched.cur)) in old(caps) ==>
        var caller := old(caps)[CallerSlot(old(sched.cur))];
        && caller in old(sched.state) && caller != old(sched.cur) && fault == old(fault) - {caller}
        && sched.St() == Replied(sched.p, old(sched.St()), caller, caller in old(fault), restart)
        && badgeRegister == if caller in old(fault) then old(badgeRegister) else old(badgeRegister)[caller := {}]
    {
      Meaning();
      var callerSlot := CallerSlot(sched.cur);
      if callerSlot in caps {
        SettleOk(sched.p, sched.St(), Q(), R(), callerSlot);
        assert caps[callerSlot] != sched.cur;
        DoReplyTransfer(caps[callerSlot], callerSlot, restart);
      }
    }

    /** handleWait on an endpoint capability: a reply still owed is given up, then receiveIPC. */
    method HandleWait(ep: Obj, diminish: bool)
      requires Valid() && Engaged(sched.St(), sched.cur) && ep in waiting && ep.Endpoint?
      requires sched.cur in boundAEP ==> boundAEP[sched.cur] in ostate
      modifies this`next, this`prev, this`at, this`queues, this`ostate, this`waiting, this`diminishCaps
      modifies this`badgeRegister, this`delivered, this`caller, this`caps, sched, sched.rq
      ensures Valid()
      ensures var thread := old(sched.cur);
        Look() == Received(sched.p, old(Look()).(r := Dropped(old(R()), CallerSlot(thread))), B(), thread, ep, diminish)
      ensures old(NothingFor(sched.cur, ep)) ==>
        && old(sched.cur) in sched.state && sched.state[old(sched.cur)] == BlockedOnReceive
        && old(sched.cur) in diminishCaps && diminishCaps[old(sched.cur)] == diminish
        && waiting == old(waiting)[ep := old(waiting)[ep] + [old(sched.cur)]]
    {
      GiveUpReply(sched.cur);
      ReceiveIPC(sched.cur, ep, diminish);
    }

    method GiveUpReply(thread: Tcb)
      requires Valid()
      modifies this`caller, this`caps
      ensures Valid() && Look() == old(Look()).(r := Dropped(old(R()), CallerSlot(thread)))
      ensures CallerSlot(thread) !in caps
    {
      DeleteCallerCap(thread);
    }

    // ---- Stopping and restarting threads ----

    /** suspend: the thread is left inactive, waits nowhere, and has no reply cap at either end. */
    method Suspend(target: Tcb)
      requires Valid() && target in sched.state && target != sched.idle && sched.action != SwitchTo(target)
      modifies this`next, this`prev, this`queues, this`ostate, this`waiting, this`caller, this`caps
      modifies this`fault, sched, sched.rq
      ensures Valid() && target in sched.state && sched.state[target] == Inactive
      ensures target !in caller && CallerSlot(target) !in caps
      ensures Q() == Withdrawn(old(Q()), old(sched.state), target)
      ensures R() == Dropped(Forgiven(old(R()), target), CallerSlot(target))
      ensures sched.St() == Suspended(Unblocked(old(sched.St()), target), target)
      ensures fault == if old(sched.state)[target] == BlockedOnReply then old(fault) - {target} else old(fault)
    {
      Meaning();
      StillElsewhere(sched.p, sched.St(), target);
      IpcCancel(target);
      DeleteCallerCap(target);
      StopNow(target);
    }

    static lemma StillElsewhere(p: Params, s: Sched, t: Tcb)
      requires Known(p, s) && t in s.state && s.action != SwitchTo(t)
      ensures SetThreadState(s, t, Inactive).action != SwitchTo(t)
    {
    }

    method StopNow(target: Tcb)
      requires Valid() && target in sched.state && target != sched.idle && sched.action != SwitchTo(target)
      requires !Waits(sched.state[target]) && target !in caller
      modifies sched, sched.rq
      ensures Valid() && sched.St() == Suspended(old(sched.St()), target)
      ensures target in sched.state && sched.state[target] == Inactive
    {
      Meaning();
      ghost var s := sched.St();
      sched.Suspend(target);
      SuspendOk(sched.p, s, Q(), R(), target);
    }

    /** restart */
    method RestartThread(target: Tcb)
      requires Valid() && target in sched.state && target != sched.idle
      modifies this`next, this`prev, this`queues, this`ostate, this`waiting, this`caller, this`caps, this`fault
      modifies this`master, sched, sched.rq
      ensures Valid() && target in sched.state
      ensures !Blocked(old(sched.state)[target]) ==>
        Q() == old(Q()) && R() == old(R()) && sched.St() == old(sched.St()) && fault == old(fault)
      ensures Blocked(old(sched.state)[target]) ==>
        sched.state[target] == Restart && target !in caller && target in master
        && Q() == Withdrawn(old(Q()), old(sched.state), target)
        && R() == Forgiven(old(R()), target).(master := old(master) + {target})
        && fault == (if old(sched.state)[target] == BlockedOnReply then old(fault) - {target} else old(fault))
        && var s := Unblocked(old(sched.St()), target);
        target in s.key && s.cur in s.key && sched.St() == Restarted(sched.p, s, target)
    {
      Meaning();
      if Blocked(sched.state[target]) {
        IpcCancel(target);
        GiveMaster(target);
        RestartNow(target);
      }
    }

    /** setupReplyMaster */
    method GiveMaster(t: Tcb)
      requires Valid()
      modifies this`master
      ensures Valid() && R() == old(R()).(master := old(master) + {t})
    {
      Meaning();
      MasterOk(sched.p, sched.St(), Q(), R(), t);
      master := master + {t};
    }

    method RestartNow(target: Tcb)
      requires Valid() && target in sched.state && target != sched.idle && target in master && target !in caller
      requires !Waits(sched.state[target]) && !Runnable(sched.state[target])
      modifies sched, sched.rq
      ensures Valid() && target in old(sched.St()).key && old(sched.cur) in old(sched.St()).key
      ensures sched.St() == Restarted(sched.p, old(sched.St()), target)
      ensures sched.state == old(sched.state)[target := Restart]
    {
      Meaning();
      ghost var s := sched.St();
      RestartOne(target);
      sched.SwitchIfRequiredTo(target);
      RestartOk(sched.p, s, Q(), R(), target);
      SwitchState(sched.p, WakeOne(s, target), target, false);
    }

    /** finaliseCap of the last capability to a thread: it is suspended and its reply slot is emptied. */
    method FinaliseThread(tcb: Tcb)
      requires Valid() && tcb in sched.state && tcb != sched.idle && sched.action != SwitchTo(tcb)
      modifies this`next, this`prev, this`queues, this`ostate, this`waiting, this`caller, this`caps, this`fault
      modifies this`master, this`boundAEP, this`boundTCB, sched, sched.rq
      ensures Valid() && tcb in sched.state && sched.state[tcb] == Inactive && B() == Unbind(old(B()), tcb)
      ensures fault == if old(sched.state)[tcb] == BlockedOnReply then old(fault) - {tcb} else old(fault)
      ensures tcb !in master && tcb !in caller && CallerSlot(tcb) !in caps
      ensures Q() == Withdrawn(old(Q()), old(sched.state), tcb)
      ensures R() == Dropped(Forgiven(old(R()), tcb), CallerSlot(tcb)).(master := old(master) - {tcb})
      ensures sched.St() == Suspended(Unblocked(old(sched.St()), tcb), tcb)
    {
      UnbindAsyncEndpoint(tcb);
      Suspend(tcb);
      TakeMaster(tcb);
    }

    /** The reply slot of a stopped thread is emptied. */
    method TakeMaster(tcb: Tcb)
      requires Valid() && tcb in sched.state && sched.state[tcb] == Inactive && tcb !in caller
      modifies this`master
      ensures Valid() && master == old(master) - {tcb}
    {
      Meaning();
      ghost var r := R();
      master := master - {tcb};
      assert R() == r.(master := r.master - {tcb});
      UnmasterOk(sched.p, sched.St(), Q(), r, tcb);
    }

    /** finaliseCap of the last capability to an asynchronous endpoint. */
    method FinaliseAsyncEndpoint(aep: Obj)
      requires Valid() && aep in waiting && aep.AsyncEndpoint?
      modifies this`queues, this`ostate, this`waiting, this`boundAEP, this`boundTCB, sched, sched.rq
      ensures Valid() && aep in old(ostate)
      ensures B() == if aep in old(boundTCB) then Unbind(old(B()), old(boundTCB)[aep]) else old(B())
      ensures !Queueing(old(ostate)[aep]) ==> Q() == old(Q()) && sched.St() == old(sched.St())
      ensures Queueing(old(ostate)[aep]) ==>
        Q() == Emptied(old(Q()), aep) && sched.St() == RescheduleRequired(WakeEach(old(sched.St()), old(waiting)[aep]))
    {
      if aep in boundTCB {
        UnbindAsyncEndpoint(boundTCB[aep]);
      }
      CancelAll(aep);
    }

    // ---- Binding ----

    /** bindAsyncEndpoint: neither side is checked for an earlier binding. */
    method BindAsyncEndpoint(tcb: Tcb, aep: Obj)
      modifies this`boundAEP, this`boundTCB
      ensures B() == Bind(old(B()), tcb, aep)
    {
      boundTCB := boundTCB[aep := tcb];
      boundAEP := boundAEP[tcb := aep];
    }

    /** unbindAsyncEndpoint */
    method UnbindAsyncEndpoint(tcb: Tcb)
      modifies this`boundAEP, this`boundTCB
      ensures B() == Unbind(old(B()), tcb)
    {
      if tcb in boundAEP {
        boundTCB := boundTCB - {boundAEP[tcb]};
        boundAEP := boundAEP - {tcb};
      }
    }

    // ---- The scheduler's steps ----

    /** schedule() */
    method Schedule()
      requires Valid()
      modifies sched, sched.rq
      ensures Valid() && AtRest(sched.p, sched.St())
      ensures sched.St() == Scheduled(sched.p, old(sched.St()))
    {
      Meaning();
      ghost var s := sched.St();
      AllAspects(sched.p, s, Q(), R());
      sched.IsFiled();
      OrderedSchedule(sched.p, s);
      ScheduleStates(sched.p, s);
      sched.Schedule();
      SameStatesOk(sched.p, s, sched.St(), Q(), R());
    }

    /** activateThread: the thread to run is never blocked. */
    method ActivateThread()
      requires Valid() && AtRest(sched.p, sched.St())
      modifies sched, sched.rq
      ensures Valid() && AtRest(sched.p, sched.St()) && sched.St() == Activated(old(sched.St()))
      ensures sched.cur in sched.state && sched.state[sched.cur] in {Running, RunningVM, IdleThreadState}
    {
      Meaning();
      ghost var s := sched.St();
      ActivateRests(sched.p, s);
      RestActivated(sched.p, s, Q(), R());
      sched.ActivateThread();
    }

    method TimerTick()
      requires Valid()
      modifies sched, sched.rq
      ensures Valid() && sched.St() == Apply(sched.p, old(sched.St()), Tick)
    {
      Meaning();
      ghost var s := sched.St();
      AllAspects(sched.p, s, Q(), R());
      OrderedTick(sched.p, s);
      TickStates(sched.p, s);
      sched.TimerTick();
      SameStatesOk(sched.p, s, sched.St(), Q(), R());
    }

    method HandleYield()
      requires Valid() && sched.cur in sched.state && Runnable(sched.state[sched.cur])
      modifies sched, sched.rq
      ensures Valid() && sched.St() == Yielded(old(sched.St()))
    {
      Meaning();
      ghost var s := sched.St();
      AllAspects(sched.p, s, Q(), R());
      OrderedYield(sched.p, s);
      sched.HandleYield();
      SameStatesOk(sched.p, s, sched.St(), Q(), R());
    }

    /** setPriority, with the cap decodeSetPriority imposes. */
    method SetPriority(tptr: Tcb, prio: nat)
      requires Valid() && tptr in sched.state && tptr != sched.idle && prio < sched.p.cfg.numPrios
      requires sched.cur in sched.rq.key && prio <= sched.rq.key[sched.cur].prio && !sched.action.SwitchTo?
      modifies sched, sched.rq
      ensures Valid() && sched.St() == Apply(sched.p, old(sched.St()), Op.SetPriority(tptr, prio))
    {
      Meaning();
      ghost var s := sched.St();
      AllAspects(sched.p, s, Q(), R());
      OrderedSetKey(sched.p, s, tptr, Key(s.key[tptr].dom, prio));
      sched.SetPriority(tptr, prio);
      SameStatesOk(sched.p, s, sched.St(), Q(), R());
    }

    method SetDomain(tptr: Tcb, dom: nat)
      requires Valid() && tptr in sched.state && tptr != sched.idle && dom < sched.p.cfg.numDomains
      requires !sched.action.SwitchTo?
      modifies sched, sched.rq
      ensures Valid() && sched.St() == Apply(sched.p, old(sched.St()), Op.SetDomain(tptr, dom))
    {
      Meaning();
      ghost var s := sched.St();
      AllAspects(sched.p, s, Q(), R());
      StepOrders(sched.p, s, Op.SetDomain(tptr, dom));
      sched.SetDomain(tptr, dom);
      SameStatesOk(sched.p, s, sched.St(), Q(), R());
    }

    /** setThreadState of a runnable thread, as every invocation does to its caller before and after. */
    method MarkRunnable(tptr: Tcb, ts: ThreadState)
      requires Valid() && tptr in sched.state && tptr != sched.idle && Runnable(sched.state[tptr]) && Runnable(ts)
      modifies sched, sched.rq
      ensures Valid() && sched.St() == SetThreadState(old(sched.St()), tptr, ts)
    {
      Meaning();
      ghost var s := sched.St();
      MarkOk(sched.p, s, Q(), R(), tptr, ts);
      sched.SetThreadState(tptr, ts);
    }

    // ---- epCancelBadgedSends ----

    /** Of the senders waiting on the endpoint, exactly those with the badge are restarted, and the rest keep their
        order. */
    method EpCancelBadgedSends(ep: Obj, bdg: Word)
      requires Valid() && ep in waiting
      modifies this`next, this`prev, this`queues, this`ostate, this`waiting, sched, sched.rq
      ensures Valid() && ep in old(ostate)
      ensures old(ostate)[ep] != Send ==> Q() == old(Q()) && sched.St() == old(sched.St())
      ensures old(ostate)[ep] == Send ==>
        waiting == old(waiting)[ep := Filter(old(waiting)[ep], badge, bdg, false)]
        && sched.St() == RescheduleRequired(WakeEach(old(sched.St()), Filter(old(waiting)[ep], badge, bdg, true)))
        && ostate == old(ostate)[ep := if waiting[ep] == [] then Idle else Send]
    {
      HasQueue(ep);
      if ostate[ep] == Send {
        var queue := ClearSend(ep);
        queue := Sweep(ep, bdg, queue);
        RestoreSend(ep, queue);
      }
    }

    method ClearSend(ep: Obj) returns (queue: Queue)
      requires Valid() && ep in waiting && ep in queues && ep in ostate && ostate[ep] == Send
      modifies this`queues, this`ostate
      ensures InSweep(ep, queue) && ep in waiting && queue == old(queues)[ep] && ostate == old(ostate)[ep := Idle]
    {
      Meaning();
      HasQueue(ep);
      ghost var q := Q();
      SweepStarts(sched.p, sched.St(), q, R());
      queue := queues[ep];
      ostate := ostate[ep := Idle];
      queues := queues[ep := Queue(NULL, NULL)];
      QueuesConserve(q, Q(), ep, sent, delivered);
      assert SweepQ(ep, queue) == q;
    }

    method RestoreSend(ep: Obj, queue: Queue)
      requires InSweep(ep, queue) && ep in waiting && (queue.head == NULL <==> waiting[ep] == []) && ep in ostate
      requires ostate[ep] == Idle
      modifies this`queues, this`ostate, sched, sched.rq
      ensures Valid() && waiting == old(waiting) && sched.St() == RescheduleRequired(old(sched.St()))
      ensures ostate == old(ostate)[ep := if waiting[ep] == [] then Idle else Send]
    {
      SweepMeaning(ep, queue);
      SweptBadges(ep, queue);
      ghost var q := SweepQ(ep, queue);
      queues := queues[ep := queue];
      if queue.head != NULL {
        ostate := ostate[ep := Send];
      }
      assert Q() == q;
      SweepEnds(sched.p, sched.St(), q, R());
      sched.RescheduleRequired();
    }

    /** While the loop runs, the endpoint reads idle and empty; this is what its queue and state stand for. */
    ghost function SweepQ(ep: Obj, queue: Queue): Queues
      reads `next, `prev, `at, `queues, `ostate, `waiting
    {
      Queues(next, prev, at, queues[ep := queue],
             ostate[ep := if ep in waiting && waiting[ep] != [] then Send else Idle], waiting)
    }

    ghost predicate InSweepAt(f: Facet, ep: Obj, queue: Queue)
      reads `next, `prev, `at, `queues, `ostate, `waiting, `master, `caller, `caps, `sent, `delivered, sched, sched.rq
    {
      match f
      case Threads => sched.Valid() && ep in waiting
      case Relations => Sweeping(sched.p, sched.St(), SweepQ(ep, queue), R())
      case Badges => Conserved(ostate, sent, delivered)
    }

    ghost predicate InSweep(ep: Obj, queue: Queue)
      reads `next, `prev, `at, `queues, `ostate, `waiting, `master, `caller, `caps, `sent, `delivered, sched, sched.rq
    {
      forall f: Facet :: InSweepAt(f, ep, queue)
    }

    lemma SweepMeaning(ep: Obj, queue: Queue)
      requires InSweep(ep, queue)
      ensures sched.Valid() && ep in waiting && Sweeping(sched.p, sched.St(), SweepQ(ep, queue), R())
      ensures Conserved(ostate, sent, delivered)
    {
      assert InSweepAt(Threads, ep, queue) && InSweepAt(Relations, ep, queue) && InSweepAt(Badges, ep, queue);
    }

    lemma SweptBadges(ep: Obj, queue: Queue)
      requires InSweep(ep, queue) && ep in ostate && ostate[ep] == Idle
      ensures Conserved(SweepQ(ep, queue).state, sent, delivered)
    {
      SweepMeaning(ep, queue);
      QueuesConserve(Q(), SweepQ(ep, queue), ep, sent, delivered);
    }

    /** Where a member of the queue stands in the sweep. */
    lemma SweptMember(ep: Obj, queue: Queue, k: nat)
      requires InSweep(ep, queue) && ep in waiting && k < |waiting[ep]|
      ensures var t := waiting[ep][k];
        && t != NULL && t in next && t in prev && next[t] != t && prev[t] != t && next[t] == At(waiting[ep], k + 1)
        && t in sched.state && Waits(sched.state[t]) && t in at && at[t] == ep
    {
      SweepMeaning(ep, queue);
      var q := SweepQ(ep, queue);
      SweepAspects(sched.p, sched.St(), q, R());
      var t := waiting[ep][k];
      assert ListedAt(q.next, q.prev, q.queues, q.waiting, ep) && Linked(next, prev, waiting[ep], k);
      assert t in waiting[ep];
      Neighbours(next, prev, q.queues[ep], waiting[ep], t);
      assert TcbAt(q, sched.state, t);
    }

    lemma SweptQueue(ep: Obj, queue: Queue)
      requires InSweep(ep, queue) && ep in waiting
      ensures Holds(next, prev, queue, waiting[ep]) && (queue.head == NULL <==> waiting[ep] == [])
      ensures queue.head == At(waiting[ep], 0) && Distinct(waiting[ep])
    {
      SweepMeaning(ep, queue);
      var q := SweepQ(ep, queue);
      SweepAspects(sched.p, sched.St(), q, R());
      assert ListedAt(q.next, q.prev, q.queues, q.waiting, ep);
      Ends(next, prev, queue, waiting[ep]);
    }

    /** A sender with the badge is restarted and taken out of the queue at hand. */
    method SweepOut(ep: Obj, thread: Tcb, queue: Queue, ghost k: nat) returns (queue': Queue)
      requires InSweep(ep, queue) && ep in waiting && k < |waiting[ep]| && thread == waiting[ep][k]
      modifies this`next, this`prev, this`waiting, sched, sched.rq
      ensures InSweep(ep, queue') && waiting == old(waiting)[ep := Without(old(waiting)[ep], thread)]
      ensures sched.St() == WakeOne(old(sched.St()), thread)
    {
      SweepMeaning(ep, queue);
      ghost var s, q := sched.St(), SweepQ(ep, queue);
      SweptMember(ep, queue, k);
      RestartOne(thread);
      queue' := Unhook(ep, thread, queue);
      SweepOne(sched.p, s, q, R(), thread);
      StillInSweep(ep, queue', WakeOne(s, thread), Left(q, thread, ep));
    }

    /** The thread leaves the queue at hand. */
    method Unhook(ep: Obj, thread: Tcb, queue: Queue) returns (queue': Queue)
      requires ep in waiting && waiting[ep] != [] && thread in next && thread in prev
      requires next[thread] != thread && prev[thread] != thread
      modifies this`next, this`prev, this`waiting
      ensures SweepQ(ep, queue') == Left(old(SweepQ(ep, queue)), thread, ep)
      ensures waiting == old(waiting)[ep := Without(old(waiting)[ep], thread)]
    {
      ghost var q := SweepQ(ep, queue);
      queue' := TcbEPDequeue(thread, queue);
      waiting := waiting[ep := Without(waiting[ep], thread)];
      LeftInSweep(q, ep, queue, thread, queues, ostate);
    }

    lemma StillInSweep(ep: Obj, queue: Queue, s: Sched, q: Queues)
      requires sched.Valid() && sched.St() == s && SweepQ(ep, queue) == q && ep in waiting
      requires Sweeping(sched.p, s, q, R()) && Conserved(ostate, sent, delivered)
      ensures InSweep(ep, queue)
    {
    }

    method Sweep(ep: Obj, bdg: Word, queue0: Queue) returns (queue: Queue)
      requires InSweep(ep, queue0) && ep in waiting
      modifies this`next, this`prev, this`waiting, sched, sched.rq
      ensures InSweep(ep, queue) && ep in waiting && (queue.head == NULL <==> waiting[ep] == [])
      ensures waiting == old(waiting)[ep := Filter(old(waiting)[ep], badge, bdg, false)]
      ensures sched.St() == WakeEach(old(sched.St()), Filter(old(waiting)[ep], badge, bdg, true))
    {
      ghost var s, was := sched.St(), waiting;
      queue := queue0;
      var thread := queue.head;
      ghost var i := 0;
      SweepStart(ep, bdg, queue);
      while thread != NULL
        invariant ep in was && i <= |was[ep]| && (thread == NULL <==> i == |was[ep]|)
        invariant Swept(ep, bdg, queue, thread, s, was, i)
        decreases |was[ep]| - i
      {
        thread, queue := SweepTurn(ep, bdg, thread, queue, s, was, i);
        i := i + 1;
      }
      SweepStop(ep, bdg, queue, thread, s, was, i);
    }

    /** Of the senders that waited, the first `i` have been looked at: those with the badge are restarted, the others
        are still in the queue, before the ones still to be looked at. */
    ghost predicate Swept(ep: Obj, bdg: Word, queue: Queue, thread: Tcb, s: Sched, was: map<Obj, seq<Tcb>>, i: nat)
      requires ep in was && i <= |was[ep]|
      reads `next, `prev, `at, `queues, `ostate, `waiting, `master, `caller, `caps, `sent, `delivered, `badge
      reads sched, sched.rq
    {
      forall a: SweepPart :: SweptPart(a, ep, bdg, queue, thread, s, was, i)
    }

    ghost predicate SweptPart(a: SweepPart, ep: Obj, bdg: Word, queue: Queue, thread: Tcb, s: Sched,
                              was: map<Obj, seq<Tcb>>, i: nat)
      requires ep in was && i <= |was[ep]|
      reads `next, `prev, `at, `queues, `ostate, `waiting, `master, `caller, `caps, `sent, `delivered, `badge
      reads sched, sched.rq
    {
      match a
      case Order => InSweep(ep, queue)
      case Place => thread == At(was[ep], i) && (thread == NULL <==> i == |was[ep]|)
      case Stayed => waiting == was[ep := Filter(was[ep][..i], badge, bdg, false) + was[ep][i..]]
      case Roused => sched.St() == WakeEach(s, Filter(was[ep][..i], badge, bdg, true))
    }

    lemma SweepParts(ep: Obj, bdg: Word, queue: Queue, thread: Tcb, s: Sched, was: map<Obj, seq<Tcb>>, i: nat)
      requires ep in was && i <= |was[ep]| && Swept(ep, bdg, queue, thread, s, was, i)
      ensures InSweep(ep, queue)
      ensures thread == At(was[ep], i) && (thread == NULL <==> i == |was[ep]|)
      ensures waiting == was[ep := Filter(was[ep][..i], badge, bdg, false) + was[ep][i..]]
      ensures sched.St() == WakeEach(s, Filter(was[ep][..i], badge, bdg, true))
    {
      assert SweptPart(Order, ep, bdg, queue, thread, s, was, i) && SweptPart(Place, ep, bdg, queue, thread, s, was, i);
      assert SweptPart(Stayed, ep, bdg, queue, thread, s, was, i)
        && SweptPart(Roused, ep, bdg, queue, thread, s, was, i);
    }

    lemma SweepStart(ep: Obj, bdg: Word, queue: Queue)
      requires InSweep(ep, queue) && ep in waiting
      ensures Swept(ep, bdg, queue, queue.head, sched.St(), waiting, 0) && (queue.head == NULL <==> waiting[ep] == [])
    {
      SweepMeaning(ep, queue);
      SweptQueue(ep, queue);
      var all := waiting[ep];
      assert all[..0] == [] && [] + all[0..] == all;
      forall i: nat | i < |all| ensures all[i] != NULL {
        SweptMember(ep, queue, i);
      }
    }

    lemma SweepStop(ep: Obj, bdg: Word, queue: Queue, thread: Tcb, s: Sched, was: map<Obj, seq<Tcb>>, i: nat)
      requires ep in was && i == |was[ep]| && Swept(ep, bdg, queue, thread, s, was, i)
      ensures InSweep(ep, queue) && ep in waiting && (queue.head == NULL <==> waiting[ep] == [])
      ensures waiting == was[ep := Filter(was[ep], badge, bdg, false)]
      ensures sched.St() == WakeEach(s, Filter(was[ep], badge, bdg, true))
    {
      SweepParts(ep, bdg, queue, thread, s, was, i);
      SweptQueue(ep, queue);
      var all := was[ep];
      assert all[..i] == all && Filter(all, badge, bdg, false) + all[i..] == Filter(all, badge, bdg, false);
    }

    /** One turn of the loop. */
    method SweepTurn(ep: Obj, bdg: Word, thread: Tcb, queue: Queue, ghost s: Sched, ghost was: map<Obj, seq<Tcb>>,
                     ghost i: nat)
      returns (nextThread: Tcb, queue': Queue)
      requires ep in was && i < |was[ep]| && Swept(ep, bdg, queue, thread, s, was, i)
      modifies this`next, this`prev, this`waiting, sched, sched.rq
      ensures Swept(ep, bdg, queue', nextThread, s, was, i + 1) && (nextThread == NULL <==> i + 1 == |was[ep]|)
    {
      SweepParts(ep, bdg, queue, thread, s, was, i);
      FilterStep(was[ep], badge, bdg, i);
      ghost var kept, done := Filter(was[ep][..i], badge, bdg, false), Filter(was[ep][..i], badge, bdg, true);
      ghost var before := kept;
      nextThread, queue', kept, done := SweepOnce(ep, bdg, thread, queue, s, was[ep], i, kept, done);
      Reupdate(was, ep, before + was[ep][i..], kept + was[ep][i + 1..]);
    }

    method SweepOnce(ep: Obj, bdg: Word, thread: Tcb, queue: Queue, ghost s: Sched, ghost all: seq<Tcb>, ghost i: nat,
                     ghost kept: seq<Tcb>, ghost done: seq<Tcb>)
      returns (nextThread: Tcb, queue': Queue, ghost kept': seq<Tcb>, ghost done': seq<Tcb>)
      requires InSweep(ep, queue) && ep in waiting && i < |all| && thread == all[i]
      requires waiting[ep] == kept + all[i..] && sched.St() == WakeEach(s, done)
      modifies this`next, this`prev, this`waiting, sched, sched.rq
      ensures InSweep(ep, queue') && nextThread == At(all, i + 1) && (nextThread == NULL <==> i + 1 == |all|)
      ensures kept' == if BadgeOf(badge, thread) == bdg then kept else kept + [thread]
      ensures done' == if BadgeOf(badge, thread) == bdg then done + [thread] else done
      ensures waiting == old(waiting)[ep := kept' + all[i + 1..]] && sched.St() == WakeEach(s, done')
    {
      SweepMeaning(ep, queue);
      SweepPosition(all, kept, i);
      SweptMember(ep, queue, |kept|);
      if i + 1 < |all| {
        SweptMember(ep, queue, |kept| + 1);
      }
      var b := BadgeOf(badge, thread);
      nextThread := next[thread];
      queue', kept', done' := queue, kept, done;
      if b == bdg {
        SweptQueue(ep, queue);
        SweepTakes(kept, all, i);
        WakeEachMore(s, done, thread);
        queue' := SweepOut(ep, thread, queue, |kept|);
        done' := done + [thread];
      } else {
        kept' := kept + [thread];
      }
    }

    static lemma LeftInSweep(q: Queues, ep: Obj, queue: Queue, t: Tcb, queues: map<Obj, Queue>,
                             state: map<Obj, ObjState>)
      requires ep in q.waiting && q.waiting[ep] != [] && t in q.next && t in q.prev
      requires q.queues == queues[ep := queue] && q.state == state[ep := Send]
      ensures Left(q, t, ep) == Queues(RemoveNext(q.next, q.prev, t), RemovePrev(q.next, q.prev, t), q.at,
                                       queues[ep := RemoveQueue(q.next, q.prev, queue, t)],
                                       state[ep := if Without(q.waiting[ep], t) == [] then Idle else Send],
                                       q.waiting[ep := Without(q.waiting[ep], t)])
    {
    }

    static lemma Reupdate(was: map<Obj, seq<Tcb>>, ep: Obj, a: seq<Tcb>, b: seq<Tcb>)
      ensures was[ep := a][ep := b] == was[ep := b]
    {
    }

    static lemma SweepPosition(all: seq<Tcb>, kept: seq<Tcb>, i: nat)
      requires i < |all|
      ensures var s := kept + all[i..]; |kept| < |s| && s[|kept|] == all[i] && At(s, |kept| + 1) == At(all, i + 1)
      ensures kept + all[i..] == kept + [all[i]] + all[i + 1..]
    {
    }

    static lemma SweepTakes(kept: seq<Tcb>, all: seq<Tcb>, i: nat)
      requires i < |all| && Distinct(kept + all[i..])
      ensures all[i] in kept + all[i..] && Without(kept + all[i..], all[i]) == kept + all[i + 1..]
    {
      var s := kept + all[i..];
      assert s[|kept|] == all[i];
      WithoutAt(s, |kept|);
      assert s[..|kept|] == kept && s[|kept| + 1..] == all[i + 1..];
    }

    static lemma FilterStep(all: seq<Tcb>, badges: map<Tcb, Word>, bdg: Word, i: nat)
      requires i < |all|
      ensures var yes, no := Filter(all[..i], badges, bdg, true), Filter(all[..i], badges, bdg, false);
        && Filter(all[..i + 1], badges, bdg, true) == (if BadgeOf(badges, all[i]) == bdg then yes + [all[i]] else yes)
        && Filter(all[..i + 1], badges, bdg, false) == (if BadgeOf(badges, all[i]) == bdg then no else no + [all[i]])
    {
      assert all[..i + 1][..i] == all[..i];
    }
  }
}
