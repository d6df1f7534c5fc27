/** What the entries of different threads come to together: messages, badges, faults and replies meet whichever comes
    first, and what is undone leaves nothing behind. */
module EntryLaws {
  import opened LinkedQueue
  import opened PriorityBitmap
  import opened SchedulerState
  import opened IpcState
  import opened EntrySteps
  import opened EntryMeaning
  import I = Ipc

  /** A thread that runs and waits nowhere. */
  ghost predicate Free(f: Face, t: Tcb) {
    && t in f.state && f.state[t] == Running && t !in f.r.caller && t !in f.fault
    && forall o :: o in f.waiting ==> t !in f.waiting[o]
  }

  /** An object nobody waits for and that holds nothing. */
  predicate Quiet(f: Face, o: Obj) {
    o in f.objects && o in f.waiting && f.objects[o] == Idle && f.waiting[o] == []
  }

  predicate HoldsBadges(f: Face, o: Obj) {
    o in f.objects && f.objects[o].Active?
  }

  /** The asynchronous endpoint bound to the thread, if any, holds nothing. */
  predicate Unsignalled(f: Face, t: Tcb) {
    t in f.b.aep ==> f.b.aep[t] in f.objects && !HoldsBadges(f, f.b.aep[t])
  }

  // ---- Coming and going ----

  /** Who joins an empty queue is the first to leave it. */
  lemma FirstInFirstOut(f: Face, t: Tcb, o: Obj, ts: ThreadState, ts': ThreadState)
    requires Quiet(f, o) && t in f.state && Waits(ts)
    ensures var g := LastIn(f, t, o, ts);
      && There(g, o) && g.objects[o] == WaitState(ts) && Queueing(g.objects[o]) && g.waiting[o] == [t]
      && FirstOut(g, o, ts') == f.(state := f.state[t := ts'])
  {
    var g := LastIn(f, t, o, ts);
    assert g.waiting[o] == [t];
    assert FirstOut(g, o, ts').waiting == f.waiting;
    assert FirstOut(g, o, ts').objects == f.objects;
    assert FirstOut(g, o, ts').state == f.state[t := ts'];
  }

  lemma {:induction false} WithoutLast(s: seq<Tcb>, t: Tcb)
    requires t !in s
    ensures Without(s, t) == s && Without(s + [t], t) == s
    decreases |s|
  {
    if s == [] {
      assert [] + [t] == [t] && [t][1..] == [];
    } else {
      assert (s + [t])[1..] == s[1..] + [t] && s == [s[0]] + s[1..];
      WithoutLast(s[1..], t);
    }
  }

  /** A thread that joined a queue and leaves it again leaves the queue as it was. */
  lemma OutUndoesIn(f: Face, t: Tcb, o: Obj, ts: ThreadState)
    requires There(f, o) && Waits(ts) && (f.objects[o] == WaitState(ts) || Quiet(f, o))
    requires forall k :: k in f.waiting ==> t !in f.waiting[k]
    ensures Out(LastIn(f, t, o, ts), t) == f.(state := f.state[t := ts])
  {
    var h := Out(LastIn(f, t, o, ts), t);
    forall k | k in f.waiting ensures h.waiting[k] == f.waiting[k] {
      WithoutLast(f.waiting[k], t);
    }
    assert h.waiting == f.waiting;
    assert h.objects == f.objects;
  }

  lemma BadgeHeld(f: Face, aep: Obj, badge: Word)
    requires There(f, aep) && aep.AsyncEndpoint? && !f.objects[aep].Waiting?
    requires aep in f.b.tcb ==> f.b.tcb[aep] in f.state && !I.Awaits(f.state[f.b.tcb[aep]])
    ensures AfterBadge(f, aep, badge) == f.(objects := f.objects[aep := Active(Pending(f.objects, aep) + badge)])
  {
  }

  lemma BadgeTaken(f: Face, aep: Obj, badge: Word)
    requires There(f, aep) && aep.AsyncEndpoint? && f.objects[aep].Waiting?
    requires aep in f.b.tcb ==> f.b.tcb[aep] in f.state
    ensures AfterBadge(f, aep, badge) == FirstOut(f, aep, Running).(register := f.register[f.waiting[aep][0] := badge])
  {
  }

  // ---- Badges ----

  /** A badge reaches a thread that waits for it, whether the wait or the badge came first. */
  lemma SignalMeetsWait(f: Face, t: Tcb, u: Tcb, aep: Obj, badge: Word, otherwise: Handler)
    requires Free(f, t) && Quiet(f, aep) && aep.AsyncEndpoint? && (aep in f.b.tcb ==> f.b.tcb[aep] == t)
    ensures var wait, signal := Wait(FromAsyncEndpoint(aep, true, otherwise)), Interrupt(SignalIrq(aep, badge));
      && AfterEvent(AfterEvent(f, t, wait), u, signal) == f.(register := f.register[t := badge])
      && AfterEvent(AfterEvent(f, u, signal), t, wait) == f.(register := f.register[t := badge])
  {
    WaitPolls(f, t, aep, true, otherwise);
    WaitedFirst(f, t, aep, badge);
    SignalThenWait(f, t, aep, badge, otherwise);
  }

  lemma SignalThenWait(f: Face, t: Tcb, aep: Obj, badge: Word, otherwise: Handler)
    requires t in f.state && f.state[t] == Running && Quiet(f, aep) && aep.AsyncEndpoint?
    requires aep in f.b.tcb ==> f.b.tcb[aep] == t
    ensures AfterEvent(AfterBadge(f, aep, badge), t, Wait(FromAsyncEndpoint(aep, true, otherwise))) ==
            f.(register := f.register[t := badge])
  {
    BadgeHeld(f, aep, badge);
    WaitPolls(AfterBadge(f, aep, badge), t, aep, true, otherwise);
    SignalledFirst(f, t, aep, badge, true);
  }

  lemma WaitPolls(f: Face, t: Tcb, aep: Obj, isBlocking: bool, otherwise: Handler)
    requires aep in f.b.tcb ==> f.b.tcb[aep] == t
    ensures AfterEvent(f, t, Wait(FromAsyncEndpoint(aep, isBlocking, otherwise))) == AfterPoll(f, t, aep, isBlocking)
  {
  }

  lemma WaitedFirst(f: Face, t: Tcb, aep: Obj, badge: Word)
    requires t in f.state && f.state[t] == Running && Quiet(f, aep) && aep.AsyncEndpoint?
    requires aep in f.b.tcb ==> f.b.tcb[aep] == t
    ensures AfterBadge(AfterPoll(f, t, aep, true), aep, badge) == f.(register := f.register[t := badge])
  {
    FirstInFirstOut(f, t, aep, BlockedOnAsyncEvent, Running);
    StateBack(f.state, t, Running);
    BadgeTaken(LastIn(f, t, aep, BlockedOnAsyncEvent), aep, badge);
  }

  lemma SignalledFirst(f: Face, t: Tcb, aep: Obj, badge: Word, isBlocking: bool)
    requires t in f.state && f.state[t] == Running && Quiet(f, aep) && aep.AsyncEndpoint?
    requires aep in f.b.tcb ==> f.b.tcb[aep] == t
    ensures AfterPoll(AfterBadge(f, aep, badge), t, aep, isBlocking) == f.(register := f.register[t := badge])
  {
    BadgeHeld(f, aep, badge);
    assert {} + badge == badge;
    TakesHeld(f, f.objects, t, aep, badge, isBlocking);
  }

  lemma TakesHeld(f: Face, objects: map<Obj, ObjState>, t: Tcb, aep: Obj, badge: Word, isBlocking: bool)
    requires Quiet(f, aep) && aep.AsyncEndpoint? && objects == f.objects
    ensures AfterPoll(f.(objects := objects[aep := Active(badge)]), t, aep, isBlocking) ==
            f.(register := f.register[t := badge])
  {
    assert objects[aep := Active(badge)][aep := Idle] == f.objects;
  }

  /** A wait that finds no badge blocks the thread behind those that wait already; a poll never does, and tells it that
      there was none. */
  lemma WaitBlocksPollDoesNot(f: Face, t: Tcb, aep: Obj, isBlocking: bool, otherwise: Handler)
    requires There(f, aep) && aep.AsyncEndpoint? && !HoldsBadges(f, aep) && (aep in f.b.tcb ==> f.b.tcb[aep] == t)
    ensures var g := AfterEvent(f, t, Wait(FromAsyncEndpoint(aep, isBlocking, otherwise)));
      if isBlocking then
        && g.state == f.state[t := BlockedOnAsyncEvent] && g.waiting == f.waiting[aep := f.waiting[aep] + [t]]
        && g.register == f.register && g.r == f.r
      else
        && g.state == f.state && g.waiting == f.waiting && g.objects == f.objects
        && g.register == f.register[t := {}] && g.r == f.r
  {
  }

  /** Who waited first is told first, and the other one goes on waiting as if it had come alone. */
  lemma ToldInTurn(f: Face, t: Tcb, u: Tcb, aep: Obj, badge: Word, otherwise: Handler)
    requires t != u && Free(f, t) && Free(f, u) && Quiet(f, aep) && aep.AsyncEndpoint? && aep !in f.b.tcb
    ensures var wait, signal := Wait(FromAsyncEndpoint(aep, true, otherwise)), Interrupt(SignalIrq(aep, badge));
      AfterEvent(AfterEvent(AfterEvent(f, t, wait), u, wait), t, signal) ==
      AfterEvent(f.(register := f.register[t := badge]), u, wait)
  {
    WaitJoins(f, t, aep, otherwise);
    WaitJoins(LastIn(f, t, aep, BlockedOnAsyncEvent), u, aep, otherwise);
    FirstTold(f, t, u, aep, badge);
    WaitJoins(f.(register := f.register[t := badge]), u, aep, otherwise);
  }

  lemma WaitJoins(f: Face, t: Tcb, aep: Obj, otherwise: Handler)
    requires There(f, aep) && aep.AsyncEndpoint? && !HoldsBadges(f, aep) && aep !in f.b.tcb
    ensures AfterEvent(f, t, Wait(FromAsyncEndpoint(aep, true, otherwise))) == LastIn(f, t, aep, BlockedOnAsyncEvent)
  {
  }

  lemma FirstTold(f: Face, t: Tcb, u: Tcb, aep: Obj, a: Word)
    requires t != u && t in f.state && f.state[t] == Running && Quiet(f, aep) && aep.AsyncEndpoint? && aep !in f.b.tcb
    ensures There(LastIn(f, t, aep, BlockedOnAsyncEvent), aep)
    ensures AfterBadge(LastIn(LastIn(f, t, aep, BlockedOnAsyncEvent), u, aep, BlockedOnAsyncEvent), aep, a) ==
            LastIn(f.(register := f.register[t := a]), u, aep, BlockedOnAsyncEvent)
  {
    BothWait(f, t, u, aep);
    var g := f.(state := f.state[t := BlockedOnAsyncEvent][u := BlockedOnAsyncEvent],
                waiting := f.waiting[aep := [t, u]], objects := f.objects[aep := IpcState.Waiting]);
    BadgeTaken(g, aep, a);
    assert [t, u][1..] == [u] && f.waiting[aep] + [u] == [u];
    StateBack(f.state, t, Running);
    StatesApart(f.state, t, BlockedOnAsyncEvent, u, BlockedOnAsyncEvent);
    StatesTwice(f.state[u := BlockedOnAsyncEvent], t, BlockedOnAsyncEvent, Running);
    StatesApart(f.state, u, BlockedOnAsyncEvent, t, Running);
  }

  lemma BothWait(f: Face, t: Tcb, u: Tcb, aep: Obj)
    requires Quiet(f, aep)
    ensures There(LastIn(f, t, aep, BlockedOnAsyncEvent), aep)
    ensures LastIn(LastIn(f, t, aep, BlockedOnAsyncEvent), u, aep, BlockedOnAsyncEvent) ==
            f.(state := f.state[t := BlockedOnAsyncEvent][u := BlockedOnAsyncEvent],
               waiting := f.waiting[aep := [t, u]], objects := f.objects[aep := IpcState.Waiting])
  {
    var g := LastIn(f, t, aep, BlockedOnAsyncEvent);
    assert g.waiting[aep] == [t] && [t] + [u] == [t, u];
  }

  /** Badges that find nobody waiting are held together until somebody asks, blocking or not. */
  lemma BadgesJoin(f: Face, t: Tcb, aep: Obj, a: Word, b: Word, isBlocking: bool, otherwise: Handler)
    requires Free(f, t) && Quiet(f, aep) && aep.AsyncEndpoint? && (aep in f.b.tcb ==> f.b.tcb[aep] == t)
    ensures var g := AfterEvent(AfterEvent(f, t, Interrupt(SignalIrq(aep, a))), t, Interrupt(SignalIrq(aep, b)));
      && g == f.(objects := f.objects[aep := Active(a + b)])
      && AfterEvent(g, t, Wait(FromAsyncEndpoint(aep, isBlocking, otherwise))) ==
         f.(register := f.register[t := a + b])
  {
    BadgeHeld(f, aep, a);
    assert {} + a == a;
    BadgeAdded(f, t, aep, a, b);
    TakesHeld(f, f.objects, t, aep, a + b, isBlocking);
  }

  lemma BadgeAdded(f: Face, t: Tcb, aep: Obj, a: Word, b: Word)
    requires t in f.state && f.state[t] == Running && Quiet(f, aep) && aep.AsyncEndpoint?
    requires aep in f.b.tcb ==> f.b.tcb[aep] == t
    ensures AfterBadge(f.(objects := f.objects[aep := Active(a)]), aep, b) ==
            f.(objects := f.objects[aep := Active(a + b)])
  {
    BadgeHeld(f.(objects := f.objects[aep := Active(a)]), aep, b);
    assert f.objects[aep := Active(a)][aep := Active(a + b)] == f.objects[aep := Active(a + b)];
  }

  /** A thread that receives from an endpoint is also told of the badges of the asynchronous endpoint it is bound to,
      whether it was receiving before they came or not; it waits nowhere then. */
  lemma SignalMeetsBoundReceive(f: Face, t: Tcb, u: Tcb, ep: Obj, aep: Obj, badge: Word, diminish: bool)
    requires Free(f, t) && Quiet(f, ep) && ep.Endpoint? && Quiet(f, aep) && aep.AsyncEndpoint?
    requires t in f.b.aep && f.b.aep[t] == aep && aep in f.b.tcb && f.b.tcb[aep] == t
    ensures var receive, signal := Wait(FromEndpoint(ep, diminish)), Interrupt(SignalIrq(aep, badge));
      var g := f.(register := f.register[t := badge], r := Dropped(f.r, CallerSlot(t)));
      && AfterEvent(AfterEvent(f, t, receive), u, signal) == g.(diminishCaps := f.diminishCaps[t := diminish])
      && AfterEvent(AfterEvent(f, u, signal), t, receive) == g
  {
    var g := f.(r := Dropped(f.r, CallerSlot(t)), diminishCaps := f.diminishCaps[t := diminish]);
    ReceiveWaits(f, t, ep, diminish);
    BoundReceiveFirst(g, t, ep, aep, badge);
    BoundReceiveLast(f, t, ep, aep, badge, diminish);
  }

  lemma BoundReceiveFirst(f: Face, t: Tcb, ep: Obj, aep: Obj, badge: Word)
    requires t in f.state && f.state[t] == Running && forall o :: o in f.waiting ==> t !in f.waiting[o]
    requires Quiet(f, ep) && ep.Endpoint? && Quiet(f, aep) && aep.AsyncEndpoint? && aep in f.b.tcb && f.b.tcb[aep] == t
    ensures AfterBadge(LastIn(f, t, ep, BlockedOnReceive), aep, badge) == f.(register := f.register[t := badge])
  {
    OutUndoesIn(f, t, ep, BlockedOnReceive);
    assert f.state[t := BlockedOnReceive][t := Running] == f.state;
  }

  lemma BoundReceiveLast(f: Face, t: Tcb, ep: Obj, aep: Obj, badge: Word, diminish: bool)
    requires Free(f, t) && Quiet(f, ep) && ep.Endpoint? && Quiet(f, aep) && aep.AsyncEndpoint?
    requires t in f.b.aep && f.b.aep[t] == aep && aep in f.b.tcb && f.b.tcb[aep] == t
    ensures AfterReceive(AfterBadge(f, aep, badge), t, ep, diminish) ==
            f.(register := f.register[t := badge], r := Dropped(f.r, CallerSlot(t)))
  {
    BadgeHeld(f, aep, badge);
    assert {} + badge == badge;
    assert f.objects[aep := Active(badge)][aep := Idle] == f.objects;
  }

  // ---- Messages ----

  lemma ReceiveWaits(f: Face, t: Tcb, ep: Obj, diminish: bool)
    requires There(f, ep) && ep.Endpoint? && f.objects[ep] != Send && Unsignalled(f, t)
    ensures AfterReceive(f, t, ep, diminish) ==
            LastIn(f.(r := Dropped(f.r, CallerSlot(t)), diminishCaps := f.diminishCaps[t := diminish]), t, ep,
                   BlockedOnReceive)
  {
    var g := f.(r := Dropped(f.r, CallerSlot(t)));
    assert AfterReceive(f, t, ep, diminish) ==
           LastIn(g, t, ep, BlockedOnReceive).(diminishCaps := f.diminishCaps[t := diminish]);
  }

  lemma DroppedGone(r: Replies, c: Cte)
    ensures c !in Dropped(r, c).caps
  {
  }

  /** A receive that finds neither a sender nor a badge blocks the thread behind those that receive already, gives up
      the reply it owes, and records whether it may be handed a reply cap. */
  lemma ReceiveBlocks(f: Face, t: Tcb, ep: Obj, diminish: bool)
    requires There(f, ep) && ep.Endpoint? && f.objects[ep] != Send && Unsignalled(f, t)
    ensures var g := AfterEvent(f, t, Wait(FromEndpoint(ep, diminish)));
      && g.state == f.state[t := BlockedOnReceive] && g.waiting == f.waiting[ep := f.waiting[ep] + [t]]
      && g.diminishCaps == f.diminishCaps[t := diminish] && CallerSlot(t) !in g.r.caps && g.register == f.register
  {
    ReceiveWaits(f, t, ep, diminish);
    DroppedGone(f.r, CallerSlot(t));
  }

  /** A thread asks another for something: it calls with the right to grant or without, or faults. */
  predicate Asks(e: Event, ep: Obj, badge: Word, grant: bool) {
    match e
    case Invocation(SendMessage(blocking, doCall, b, g, o)) => blocking && doCall && b == badge && g == grant && o == ep
    case Fault(HandledAt(o, b)) => o == ep && b == badge && grant
    case _ => false
  }

  /** What a thread leaves behind that asks at an endpoint where nobody receives. */
  lemma AskBlocks(f: Face, t: Tcb, e: Event, ep: Obj, badge: Word, grant: bool)
    requires t in f.state && There(f, ep) && ep.Endpoint? && f.objects[ep] != Recv && Asks(e, ep, badge, grant)
    ensures var g := AfterEvent(f, t, e);
      && g == LastIn(f.(badge := f.badge[t := badge], canGrant := f.canGrant[t := grant], isCall := g.isCall,
                        fault := g.fault), t, ep, BlockedOnSend)
      && g.fault == (if e.Fault? then f.fault + {t} else f.fault) && (I.Flag(g.isCall, t) || t in g.fault)
  {
    assert f.state[t := Restart][t := BlockedOnSend] == f.state[t := BlockedOnSend];
  }

  /** What becomes of a thread that asks one that is receiving. */
  lemma AskMeets(f: Face, t: Tcb, e: Event, ep: Obj, badge: Word, grant: bool)
    requires There(f, ep) && ep.Endpoint? && f.objects[ep] == Recv && Asks(e, ep, badge, grant)
    requires t in f.state && f.waiting[ep][0] in f.state && f.waiting[ep][0] != t
    ensures var g, receiver := AfterEvent(f, t, e), f.waiting[ep][0];
      var mayReply := grant && !I.Flag(f.diminishCaps, receiver);
      var h := Turned(FirstOut(f, ep, Running), t, if mayReply then BlockedOnReply else Inactive);
      g == h.(register := f.register[receiver := badge], r := if mayReply then Owed(f.r, t, receiver) else f.r,
              fault := if e.Fault? then f.fault + {t} else f.fault)
  {
    var receiver := f.waiting[ep][0];
    match e
    case Invocation(SendMessage(_, _, _, _, _)) =>
      SendAsks(Turned(f, t, Restart), t, true, badge, ep, grant);
      StatesTwice(f.state[receiver := Running], t, Restart,
                  if grant && !I.Flag(f.diminishCaps, receiver) then BlockedOnReply else Inactive);
      StatesApart(f.state, t, Restart, receiver, Running);
    case Fault(HandledAt(_, _)) => SendAsks(f.(fault := f.fault + {t}), t, false, badge, ep, true);
  }

  lemma SendAsks(f: Face, t: Tcb, doCall: bool, badge: Word, ep: Obj, grant: bool)
    requires There(f, ep) && ep.Endpoint? && f.objects[ep] == Recv && (doCall || t in f.fault)
    ensures var receiver := f.waiting[ep][0];
      var mayReply := grant && !I.Flag(f.diminishCaps, receiver);
      AfterSend(f, true, doCall, badge, grant, t, ep) ==
      Turned(FirstOut(f, ep, Running), t, if mayReply then BlockedOnReply else Inactive)
        .(register := f.register[receiver := badge], r := if mayReply then Owed(f.r, t, receiver) else f.r)
  {
  }

  /** A receive that finds a sender that asked. */
  lemma ReceiveAnswers(f: Face, t: Tcb, ep: Obj, diminish: bool)
    requires There(f, ep) && ep.Endpoint? && f.objects[ep] == Send && Unsignalled(f, t)
    requires I.Flag(f.isCall, f.waiting[ep][0]) || f.waiting[ep][0] in f.fault
    ensures var sender, r := f.waiting[ep][0], Dropped(f.r, CallerSlot(t));
      var mayReply := I.Flag(f.canGrant, sender) && !diminish;
      AfterReceive(f, t, ep, diminish) ==
      FirstOut(f, ep, if mayReply then BlockedOnReply else Inactive)
        .(register := f.register[t := I.BadgeOf(f.badge, sender)], r := if mayReply then Owed(r, sender, t) else r)
  {
    var sender := f.waiting[ep][0];
    var g := f.(r := Dropped(f.r, CallerSlot(t)));
    var ts := if I.Flag(f.canGrant, sender) && !diminish then BlockedOnReply else Inactive;
    assert f.state[sender := Running][sender := ts] == f.state[sender := ts];
    assert AfterReceive(f, t, ep, diminish) ==
           Asked(FirstOut(g, ep, Running).(register := f.register[t := I.BadgeOf(f.badge, sender)]), sender, t,
                 I.Flag(f.canGrant, sender) && !diminish);
  }

  /** Two threads at an idle endpoint, one of which asks and the other one receives, in either order. */
  ghost predicate MayMeet(f: Face, caller: Tcb, receiver: Tcb, e: Event, ep: Obj, badge: Word, grant: bool) {
    && caller != receiver && Free(f, caller) && Free(f, receiver) && Quiet(f, ep) && ep.Endpoint?
    && Unsignalled(f, receiver) && Asks(e, ep, badge, grant)
  }

  ghost function Meeting(f: Face, caller: Tcb, receiver: Tcb, e: Event, ep: Obj, diminish: bool,
                         receiveFirst: bool): Face
  {
    var receive := Wait(FromEndpoint(ep, diminish));
    if receiveFirst then AfterEvent(AfterEvent(f, receiver, receive), caller, e)
    else AfterEvent(AfterEvent(f, caller, e), receiver, receive)
  }

  /** A call, or a fault, and a receive that meet on an idle endpoint leave the receiver with the reply cap exactly when
      the one may grant and the other may be granted, whichever came first; the caller waits for its reply then, and
      stops otherwise. The receiver has the badge. */
  lemma AskMeetsReceive(f: Face, caller: Tcb, receiver: Tcb, e: Event, ep: Obj, badge: Word, grant: bool,
                        diminish: bool, first: bool)
    requires MayMeet(f, caller, receiver, e, ep, badge, grant)
    ensures var g, slot := Meeting(f, caller, receiver, e, ep, diminish, first), CallerSlot(receiver);
      && g.state == f.state[caller := if grant && !diminish then BlockedOnReply else Inactive]
      && (slot in g.r.caps <==> grant && !diminish)
      && (slot in g.r.caps ==> g.r.caps[slot] == caller && caller in g.r.caller && g.r.caller[caller] == slot)
      && g.waiting == f.waiting && g.objects == f.objects && g.register == f.register[receiver := badge]
      && g.fault == if e.Fault? then f.fault + {caller} else f.fault
  {
    DroppedGone(f.r, CallerSlot(receiver));
    if first {
      ReceivedFirst(f, caller, receiver, e, ep, badge, grant, diminish);
    } else {
      AskedFirst(f, caller, receiver, e, ep, badge, grant, diminish);
    }
  }

  lemma ReceivedFirst(f: Face, caller: Tcb, receiver: Tcb, e: Event, ep: Obj, badge: Word, grant: bool, diminish: bool)
    requires MayMeet(f, caller, receiver, e, ep, badge, grant)
    ensures var g, r := Meeting(f, caller, receiver, e, ep, diminish, true), Dropped(f.r, CallerSlot(receiver));
      g == f.(state := f.state[caller := if grant && !diminish then BlockedOnReply else Inactive],
              r := if grant && !diminish then Owed(r, caller, receiver) else r,
              fault := if e.Fault? then f.fault + {caller} else f.fault,
              register := f.register[receiver := badge],
              diminishCaps := f.diminishCaps[receiver := diminish])
  {
    var g := f.(r := Dropped(f.r, CallerSlot(receiver)), diminishCaps := f.diminishCaps[receiver := diminish]);
    ReceiveWaits(f, receiver, ep, diminish);
    FirstInFirstOut(g, receiver, ep, BlockedOnReceive, Running);
    assert f.state[receiver := Running] == f.state;
    AskMeets(LastIn(g, receiver, ep, BlockedOnReceive), caller, e, ep, badge, grant);
  }

  lemma AskedFirst(f: Face, caller: Tcb, receiver: Tcb, e: Event, ep: Obj, badge: Word, grant: bool, diminish: bool)
    requires MayMeet(f, caller, receiver, e, ep, badge, grant)
    ensures var g, r := Meeting(f, caller, receiver, e, ep, diminish, false), Dropped(f.r, CallerSlot(receiver));
      g == f.(state := f.state[caller := if grant && !diminish then BlockedOnReply else Inactive],
              r := if grant && !diminish then Owed(r, caller, receiver) else r,
              fault := if e.Fault? then f.fault + {caller} else f.fault,
              register := f.register[receiver := badge],
              badge := g.badge, canGrant := g.canGrant, isCall := g.isCall)
  {
    AskBlocks(f, caller, e, ep, badge, grant);
    var g := AfterEvent(f, caller, e);
    Answered(f.(badge := g.badge, canGrant := g.canGrant, isCall := g.isCall, fault := g.fault), caller, receiver, ep,
             badge, grant, diminish);
  }

  lemma Answered(f: Face, caller: Tcb, receiver: Tcb, ep: Obj, badge: Word, grant: bool, diminish: bool)
    requires caller in f.state && Quiet(f, ep) && ep.Endpoint? && Unsignalled(f, receiver)
    requires (I.Flag(f.isCall, caller) || caller in f.fault) && I.Flag(f.canGrant, caller) == grant
    requires I.BadgeOf(f.badge, caller) == badge
    ensures var r := Dropped(f.r, CallerSlot(receiver));
      AfterReceive(LastIn(f, caller, ep, BlockedOnSend), receiver, ep, diminish) ==
      f.(state := f.state[caller := if grant && !diminish then BlockedOnReply else Inactive],
         register := f.register[receiver := badge], r := if grant && !diminish then Owed(r, caller, receiver) else r)
  {
    FirstInFirstOut(f, caller, ep, BlockedOnSend, if grant && !diminish then BlockedOnReply else Inactive);
    ReceiveAnswers(LastIn(f, caller, ep, BlockedOnSend), receiver, ep, diminish);
  }

  /** A call that is answered leaves the two threads, the endpoint and the replies as they were; a fault leaves its
      thread restarting or stopped, as the reply has it. */
  lemma AskAndReply(f: Face, caller: Tcb, receiver: Tcb, e: Event, ep: Obj, badge: Word, first: bool, restart: bool)
    requires MayMeet(f, caller, receiver, e, ep, badge, true)
    ensures var g := AfterEvent(Meeting(f, caller, receiver, e, ep, false, first), receiver, Reply(restart));
      && g.state == (if !e.Fault? then f.state else f.state[caller := if restart then Restart else Inactive])
      && g.r == Dropped(f.r, CallerSlot(receiver)) && g.fault == f.fault
      && g.waiting == f.waiting && g.objects == f.objects
      && var register := f.register[receiver := badge];
         g.register == if e.Fault? then register else register[caller := {}]
  {
    Met(f, caller, receiver, e, ep, badge, first);
    RepliesTo(f, Meeting(f, caller, receiver, e, ep, false, first), caller, receiver, badge, restart, e.Fault?);
  }

  datatype Record = Record

  ghost predicate AwaitsReplyAt(x: Record, f: Face, g: Face, caller: Tcb, receiver: Tcb, badge: Word, faulted: bool) {
    && Free(f, caller) && g.state == f.state[caller := BlockedOnReply]
    && g.r == Owed(Dropped(f.r, CallerSlot(receiver)), caller, receiver)
    && g.fault == (if faulted then f.fault + {caller} else f.fault)
    && g.waiting == f.waiting && g.objects == f.objects && g.register == f.register[receiver := badge]
  }

  /** All that has changed is that the caller waits for its reply, and the receiver has the badge. */
  ghost predicate AwaitsReply(f: Face, g: Face, caller: Tcb, receiver: Tcb, badge: Word, faulted: bool) {
    forall x: Record :: AwaitsReplyAt(x, f, g, caller, receiver, badge, faulted)
  }

  lemma Met(f: Face, caller: Tcb, receiver: Tcb, e: Event, ep: Obj, badge: Word, first: bool)
    requires MayMeet(f, caller, receiver, e, ep, badge, true)
    ensures AwaitsReply(f, Meeting(f, caller, receiver, e, ep, false, first), caller, receiver, badge, e.Fault?)
  {
    if first {
      ReceivedFirst(f, caller, receiver, e, ep, badge, true, false);
    } else {
      AskedFirst(f, caller, receiver, e, ep, badge, true, false);
    }
  }

  lemma RepliesTo(f: Face, g: Face, caller: Tcb, receiver: Tcb, badge: Word, restart: bool, faulted: bool)
    requires AwaitsReply(f, g, caller, receiver, badge, faulted)
    ensures var h := AfterEvent(g, receiver, Reply(restart));
      && h.state == (if !faulted then f.state else f.state[caller := if restart then Restart else Inactive])
      && h.r == Dropped(f.r, CallerSlot(receiver)) && h.fault == f.fault
      && h.waiting == f.waiting && h.objects == f.objects
      && h.register == if faulted then f.register[receiver := badge] else f.register[receiver := badge][caller := {}]
  {
    assert AwaitsReplyAt(Record.Record, f, g, caller, receiver, badge, faulted);
    Repaid(f, g, caller, receiver, badge, restart, faulted);
  }

  lemma Repaid(f: Face, g: Face, caller: Tcb, receiver: Tcb, badge: Word, restart: bool, faulted: bool)
    requires AwaitsReplyAt(Record.Record, f, g, caller, receiver, badge, faulted)
    ensures var h := AfterReply(g, CallerSlot(receiver), restart);
      && h.state == (if !faulted then f.state else f.state[caller := if restart then Restart else Inactive])
      && h.r == Dropped(f.r, CallerSlot(receiver)) && h.fault == f.fault
      && h == g.(state := h.state, r := h.r, fault := h.fault,
                 register := if faulted then g.register else g.register[caller := {}])
  {
    DroppedGone(f.r, CallerSlot(receiver));
    PaysOwed(Dropped(f.r, CallerSlot(receiver)), caller, receiver);
    ReplyIs(g, CallerSlot(receiver), restart);
    StateBack(f.state, caller, Running);
    if faulted {
      StatesTwice(f.state, caller, BlockedOnReply, if restart then Restart else Inactive);
      assert f.fault + {caller} - {caller} == f.fault;
    } else {
      StatesTwice(f.state, caller, BlockedOnReply, Running);
      assert f.fault - {caller} == f.fault;
    }
  }

  lemma ReplyIs(f: Face, slot: Cte, restart: bool)
    requires slot in f.r.caps
    ensures var t := f.r.caps[slot];
      AfterReply(f, slot, restart) ==
      f.(state := f.state[t := if t !in f.fault then Running else if restart then Restart else Inactive],
         r := Paid(f.r, slot), fault := f.fault - {t},
         register := if t in f.fault then f.register else f.register[t := {}])
  {
  }

  lemma StatesTwice(st: States, t: Tcb, a: ThreadState, b: ThreadState)
    ensures st[t := a][t := b] == st[t := b]
  {
  }

  lemma StateBack(st: States, t: Tcb, a: ThreadState)
    requires t in st && st[t] == a
    ensures st[t := a] == st
  {
  }

  lemma StatesApart(st: States, t: Tcb, a: ThreadState, u: Tcb, b: ThreadState)
    requires t != u
    ensures st[t := a][u := b] == st[u := b][t := a]
  {
  }

  lemma PaysOwed(r: Replies, sender: Tcb, receiver: Tcb)
    requires sender !in r.caller && CallerSlot(receiver) !in r.caps
    ensures Paid(Owed(r, sender, receiver), CallerSlot(receiver)) == r
  {
    var r' := Paid(Owed(r, sender, receiver), CallerSlot(receiver));
    assert r'.caller == r.caller;
    assert r'.caps == r.caps;
  }

  // ---- Messages nobody asks about ----

  /** A plain message and a receive that meet on an idle endpoint leave both threads running, the receiver with the
      badge, and nothing owed. */
  lemma SendMeetsReceive(f: Face, sender: Tcb, receiver: Tcb, ep: Obj, badge: Word, grant: bool, diminish: bool,
                         first: bool)
    requires sender != receiver && Free(f, sender) && Free(f, receiver) && Quiet(f, ep) && ep.Endpoint?
    requires Unsignalled(f, receiver)
    ensures var send := Invocation(SendMessage(true, false, badge, grant, ep));
      var g := Meeting(f, sender, receiver, send, ep, diminish, first);
      && g.state == f.state && g.r == Dropped(f.r, CallerSlot(receiver))
      && g.waiting == f.waiting && g.objects == f.objects && g.fault == f.fault
      && g.register == f.register[receiver := badge]
  {
    if first {
      PassedOn(f, sender, receiver, ep, badge, grant, diminish);
    } else {
      TakenUp(f, sender, receiver, ep, badge, grant, diminish);
    }
  }

  lemma PassedOn(f: Face, sender: Tcb, receiver: Tcb, ep: Obj, badge: Word, grant: bool, diminish: bool)
    requires sender != receiver && Free(f, sender) && Free(f, receiver) && Quiet(f, ep) && ep.Endpoint?
    requires Unsignalled(f, receiver)
    ensures var send := Invocation(SendMessage(true, false, badge, grant, ep));
      Meeting(f, sender, receiver, send, ep, diminish, true) ==
      f.(r := Dropped(f.r, CallerSlot(receiver)), diminishCaps := f.diminishCaps[receiver := diminish],
         register := f.register[receiver := badge])
  {
    var g := f.(r := Dropped(f.r, CallerSlot(receiver)), diminishCaps := f.diminishCaps[receiver := diminish]);
    ReceiveWaits(f, receiver, ep, diminish);
    var h := LastIn(g, receiver, ep, BlockedOnReceive);
    FirstInFirstOut(g, receiver, ep, BlockedOnReceive, Running);
    StateBack(f.state, receiver, Running);
    StatesApart(h.state, sender, Restart, receiver, Running);
    ResumesAs(g.(register := f.register[receiver := badge]), sender,
              AfterSend(Turned(h, sender, Restart), true, false, badge, grant, sender, ep));
  }

  lemma TakenUp(f: Face, sender: Tcb, receiver: Tcb, ep: Obj, badge: Word, grant: bool, diminish: bool)
    requires sender != receiver && Free(f, sender) && Free(f, receiver) && Quiet(f, ep) && ep.Endpoint?
    requires Unsignalled(f, receiver)
    ensures var send := Invocation(SendMessage(true, false, badge, grant, ep));
      Meeting(f, sender, receiver, send, ep, diminish, false) ==
      f.(r := Dropped(f.r, CallerSlot(receiver)), badge := f.badge[sender := badge],
         canGrant := f.canGrant[sender := grant], isCall := f.isCall[sender := false],
         register := f.register[receiver := badge])
  {
    var g := f.(badge := f.badge[sender := badge], canGrant := f.canGrant[sender := grant],
                isCall := f.isCall[sender := false]);
    StatesTwice(f.state, sender, Restart, BlockedOnSend);
    assert AfterEvent(f, sender, Invocation(SendMessage(true, false, badge, grant, ep))) ==
           LastIn(g, sender, ep, BlockedOnSend);
    CollectedPlain(g, sender, receiver, ep, diminish);
  }

  lemma CollectedPlain(f: Face, sender: Tcb, t: Tcb, ep: Obj, diminish: bool)
    requires Quiet(f, ep) && ep.Endpoint? && Unsignalled(f, t) && !I.Flag(f.isCall, sender) && sender !in f.fault
    requires sender in f.state && f.state[sender] == Running
    ensures AfterReceive(LastIn(f, sender, ep, BlockedOnSend), t, ep, diminish) ==
            f.(r := Dropped(f.r, CallerSlot(t)), register := f.register[t := I.BadgeOf(f.badge, sender)])
  {
    FirstInFirstOut(f, sender, ep, BlockedOnSend, Running);
    assert f.state[sender := Running] == f.state;
  }

  /** A message that may not block and finds nobody receiving is lost without a trace. */
  lemma UnheardIsLost(f: Face, t: Tcb, doCall: bool, badge: Word, grant: bool, ep: Obj)
    requires Free(f, t) && There(f, ep) && f.objects[ep] != Recv
    ensures AfterEvent(f, t, Invocation(SendMessage(false, doCall, badge, grant, ep))) == f
  {
    assert f.state[t := Restart][t := Running] == f.state;
  }

  // ---- Faults and replies ----

  /** A fault without a handler stops the thread, and nothing else happens. */
  lemma DoubleFaultStops(f: Face, t: Tcb)
    ensures AfterEvent(f, t, Fault(NoHandler)) == f.(state := f.state[t := Inactive])
  {
  }

  /** A wait that cannot be carried out is a fault: on no endpoint, or on an asynchronous one bound to another. */
  lemma BadWaitFaults(f: Face, t: Tcb, aep: Obj, isBlocking: bool, handler: Handler)
    ensures AfterEvent(f, t, Wait(FromNothing(handler))) == AfterEvent(f, t, Fault(handler))
    ensures aep in f.b.tcb && f.b.tcb[aep] != t ==>
      AfterEvent(f, t, Wait(FromAsyncEndpoint(aep, isBlocking, handler))) == AfterEvent(f, t, Fault(handler))
  {
  }

  /** Replying and waiting in one call is replying, then waiting. */
  lemma ReplyThenWait(f: Face, t: Tcb, restart: bool, from: Source)
    ensures AfterEvent(f, t, ReplyWait(restart, from)) == AfterEvent(AfterEvent(f, t, Reply(restart)), t, Wait(from))
  {
  }

  /** A reply saved in a CNode slot, and moved to another one, is the same as a reply at once. */
  lemma SavedReply(f: Face, t: Tcb, a: Cte, b: Cte, restart: bool)
    requires Free(f, t) && CallerSlot(t) in f.r.caps && f.r.caps[CallerSlot(t)] != t && a != b
    requires a.CNodeSlot? && a !in f.r.caps && b.CNodeSlot? && b !in f.r.caps
    ensures var g := AfterEvent(AfterEvent(f, t, Invocation(SaveCaller(a))), t, Invocation(MoveReply(a, b)));
      && g.r.caps.Keys == f.r.caps.Keys - {CallerSlot(t)} + {b}
      && AfterEvent(g, t, Invocation(ReplyThrough(b, restart))) == AfterEvent(f, t, Reply(restart))
  {
    var r1 := Moved(f.r, CallerSlot(t), a);
    var r2 := Moved(r1, a, b);
    Carried(f, t, SaveCaller(a), f.(r := r1));
    Carried(f.(r := r1), t, MoveReply(a, b), f.(r := r2));
    MovedPaid(f.r, CallerSlot(t), a, b);
    RepliesAlike(f, f.(r := r2), t, b, restart);
  }

  lemma MovedPaid(r: Replies, slot: Cte, a: Cte, b: Cte)
    requires slot in r.caps && a !in r.caps && b !in r.caps && a != b
    ensures var r' := Moved(Moved(r, slot, a), a, b);
      b in r'.caps && r'.caps[b] == r.caps[slot] && Paid(r', b) == Paid(r, slot)
      && r'.caps.Keys == r.caps.Keys - {slot} + {b}
  {
    var r' := Moved(Moved(r, slot, a), a, b);
    assert Paid(r', b).caller == Paid(r, slot).caller;
    assert Paid(r', b).caps == Paid(r, slot).caps;
  }

  lemma RepliesAlike(f: Face, g: Face, t: Tcb, slot: Cte, restart: bool)
    requires Free(f, t) && CallerSlot(t) in f.r.caps && f.r.caps[CallerSlot(t)] != t
    requires g == f.(r := g.r) && slot in g.r.caps && g.r.caps[slot] == f.r.caps[CallerSlot(t)] && slot.CNodeSlot?
    requires Paid(g.r, slot) == Paid(f.r, CallerSlot(t))
    ensures AfterEvent(g, t, Invocation(ReplyThrough(slot, restart))) == AfterEvent(f, t, Reply(restart))
  {
    var x, y := AfterReply(f, CallerSlot(t), restart), AfterReply(Turned(g, t, Restart), slot, restart);
    ThroughSlot(g, t, slot, restart);
    SettledAlike(f, g, t, slot, restart);
    ResumesAs(x, t, y);
    assert AfterEvent(f, t, Reply(restart)) == x;
  }

  lemma SettledAlike(f: Face, g: Face, t: Tcb, slot: Cte, restart: bool)
    requires t in f.state && f.state[t] == Running && CallerSlot(t) in f.r.caps && f.r.caps[CallerSlot(t)] != t
    requires g == f.(r := g.r) && slot in g.r.caps && g.r.caps[slot] == f.r.caps[CallerSlot(t)]
    requires Paid(g.r, slot) == Paid(f.r, CallerSlot(t))
    ensures AfterReply(Turned(g, t, Restart), slot, restart) ==
            Turned(AfterReply(f, CallerSlot(t), restart), t, Restart)
  {
    var u := f.r.caps[CallerSlot(t)];
    var ts := if u !in f.fault then Running else if restart then Restart else Inactive;
    SettledAs(f, g, t, slot, restart, u, ts, Paid(f.r, CallerSlot(t)));
  }

  lemma SettledAs(f: Face, g: Face, t: Tcb, slot: Cte, restart: bool, u: Tcb, ts: ThreadState, r: Replies)
    requires u != t && CallerSlot(t) in f.r.caps && f.r.caps[CallerSlot(t)] == u && Paid(f.r, CallerSlot(t)) == r
    requires slot in g.r.caps && g.r.caps[slot] == u && Paid(g.r, slot) == r && g == f.(r := g.r)
    requires ts == if u !in f.fault then Running else if restart then Restart else Inactive
    ensures AfterReply(Turned(g, t, Restart), slot, restart) ==
            Turned(AfterReply(f, CallerSlot(t), restart), t, Restart)
  {
    ReplyAs(f, CallerSlot(t), restart, u, ts, r);
    var h := Turned(g, t, Restart);
    ReplyAs(h, slot, restart, u, ts, r);
    TurnsAlike(f, AfterReply(f, CallerSlot(t), restart), AfterReply(h, slot, restart), t, u, ts);
  }

  lemma ReplyAs(f: Face, slot: Cte, restart: bool, u: Tcb, ts: ThreadState, r: Replies)
    requires slot in f.r.caps && f.r.caps[slot] == u && Paid(f.r, slot) == r
    requires ts == if u !in f.fault then Running else if restart then Restart else Inactive
    ensures AfterReply(f, slot, restart) ==
            f.(state := f.state[u := ts], r := r, fault := f.fault - {u},
               register := if u in f.fault then f.register else f.register[u := {}])
  {
  }

  lemma TurnsAlike(f: Face, x: Face, y: Face, t: Tcb, u: Tcb, ts: ThreadState)
    requires t != u && x == f.(state := f.state[u := ts], r := x.r, fault := x.fault, register := x.register)
    requires y ==
      f.(state := f.state[t := Restart][u := ts], r := x.r, fault := x.fault, register := x.register)
    ensures y == Turned(x, t, Restart)
  {
    StatesApart(f.state, t, Restart, u, ts);
  }

  lemma ThroughSlot(f: Face, t: Tcb, slot: Cte, restart: bool)
    requires slot.CNodeSlot?
    ensures AfterEvent(f, t, Invocation(ReplyThrough(slot, restart))) ==
            Resumed(AfterReply(Turned(f, t, Restart), slot, restart), t)
  {
    var g := Turned(f, t, Restart);
    assert AfterCall(g, ReplyThrough(slot, restart), t) == AfterReply(g, slot, restart);
  }

  lemma ResumesAs(f: Face, t: Tcb, g: Face)
    requires t in f.state && f.state[t] == Running && g == Turned(f, t, Restart)
    ensures Resumed(g, t) == f
  {
    StatesTwice(f.state, t, Restart, Running);
    StateBack(f.state, t, Running);
  }

  // ---- Stopping and restarting ----

  /** Suspending a thread that waits takes back its waiting: the queue and the endpoint are as they were before, and
      nobody owes it a reply. */
  lemma SuspendUndoesWait(f: Face, t: Tcb, u: Tcb, o: Obj, ts: ThreadState)
    requires Free(f, t) && Free(f, u) && t != u && t != f.idle && There(f, o) && Waits(ts)
    requires f.objects[o] == WaitState(ts) || Quiet(f, o)
    ensures var g := AfterEvent(LastIn(f, t, o, ts), u, Invocation(SuspendThread(t)));
      && g.state == f.state[t := Inactive] && g.waiting == f.waiting && g.objects == f.objects
      && g.r == Dropped(f.r, CallerSlot(t)) && g.fault == f.fault && g.register == f.register
  {
    var h := LastIn(f, t, o, ts);
    OutUndoesIn(f, t, o, ts);
    SuspendsTo(Turned(h, u, Restart), t);
    OutTurned(h, t, u, Restart);
    StatesTwice(f.state, t, ts, Inactive);
    StatesApart(f.state[t := Inactive], u, Restart, t, ts);
    var g := AfterSuspend(Turned(h, u, Restart), t);
    assert g.state == f.state[t := ts][u := Restart][t := Inactive];
    ResumedState(f.state, t, ts, u, Inactive);
  }

  lemma SuspendsTo(f: Face, t: Tcb)
    ensures var g := AfterSuspend(f, t);
      && g.state == f.state[t := Inactive] && g.waiting == Out(f, t).waiting && g.objects == Out(f, t).objects
      && g.r == Dropped(Forgiven(f.r, t), CallerSlot(t)) && g.register == f.register
      && g.fault == if t in f.state && f.state[t] == BlockedOnReply then f.fault - {t} else f.fault
  {
  }

  lemma OutTurned(f: Face, t: Tcb, u: Tcb, ts: ThreadState)
    ensures Out(Turned(f, u, ts), t) == Turned(Out(f, t), u, ts)
  {
  }

  lemma ResumedState(st: States, t: Tcb, ts: ThreadState, u: Tcb, ts': ThreadState)
    requires t != u && u in st && st[u] == Running
    ensures st[t := ts][u := Restart][t := ts'][u := Running] == st[t := ts']
  {
  }

  /** A suspended thread waits nowhere, holds no reply and is owed none, whatever it was doing. */
  lemma SuspendLeavesNothing(f: Face, t: Tcb, u: Tcb)
    requires Common(f, t) && t != u && u in f.state && f.state[u] == Running
    requires forall c, v: Tcb :: (c in f.r.caps && f.r.caps[c] == v) <==> (v in f.r.caller && f.r.caller[v] == c)
    ensures var g := AfterEvent(f, u, Invocation(SuspendThread(t)));
      && g.state == f.state[t := Inactive]
      && (forall o :: o in f.waiting ==>
            o in g.waiting && t !in g.waiting[o] && forall v: Tcb :: v in f.waiting[o] && v != t ==> v in g.waiting[o])
      && CallerSlot(t) !in g.r.caps && t !in g.r.caller && (forall c :: c in g.r.caps ==> g.r.caps[c] != t)
  {
    SuspendsTo(Turned(f, u, Restart), t);
    ForgivenGone(f.r, t);
    DroppedStill(Forgiven(f.r, t), CallerSlot(t), t);
    assert f.state[u := Restart][t := Inactive][u := Running] == f.state[t := Inactive];
    forall o | o in f.waiting
      ensures t !in Without(f.waiting[o], t)
      ensures forall v: Tcb :: v in f.waiting[o] && v != t ==> v in Without(f.waiting[o], t)
    {
    }
  }

  lemma ForgivenGone(r: Replies, t: Tcb)
    requires forall c, v: Tcb :: (c in r.caps && r.caps[c] == v) <==> (v in r.caller && r.caller[v] == c)
    ensures t !in Forgiven(r, t).caller && forall c :: c in Forgiven(r, t).caps ==> Forgiven(r, t).caps[c] != t
  {
  }

  lemma DroppedStill(r: Replies, slot: Cte, t: Tcb)
    requires t !in r.caller && forall c :: c in r.caps ==> r.caps[c] != t
    ensures slot !in Dropped(r, slot).caps && t !in Dropped(r, slot).caller
    ensures forall c :: c in Dropped(r, slot).caps ==> Dropped(r, slot).caps[c] != t
  {
  }

  /** Restarting a thread that can run changes nothing; one that cannot is set to restart, waiting nowhere, owed no
      reply, and with a master reply cap. */
  lemma ResumeRestarts(f: Face, t: Tcb, u: Tcb)
    requires Common(f, t) && t != u && u in f.state && f.state[u] == Running
    requires forall c, v: Tcb :: (c in f.r.caps && f.r.caps[c] == v) <==> (v in f.r.caller && f.r.caller[v] == c)
    ensures var g := AfterEvent(f, u, Invocation(ResumeThread(t)));
      if !Blocked(f.state[t]) then g == f
      else
        && g.state == f.state[t := Restart] && t !in g.r.caller && t in g.r.master
        && forall o :: o in f.waiting ==> o in g.waiting && t !in g.waiting[o]
  {
    var h := Turned(f, u, Restart);
    if Blocked(f.state[t]) {
      ForgivenGone(f.r, t);
      assert f.state[u := Restart][t := Restart][u := Running] == f.state[t := Restart];
      assert AfterResume(h, t).state == f.state[u := Restart][t := Restart];
    } else {
      StatesTwice(f.state, u, Restart, Running);
      StateBack(f.state, u, Running);
    }
  }

  // ---- Cancelling and deleting ----

  /** Filtering a queue is filtering its parts. */
  lemma {:induction false} FilterSplits(a: seq<Tcb>, b: seq<Tcb>, badges: map<Tcb, Word>, badge: Word, equal: bool)
    ensures I.Filter(a + b, badges, badge, equal) ==
            I.Filter(a, badges, badge, equal) + I.Filter(b, badges, badge, equal)
    decreases |b|
  {
    if b == [] {
      assert a + b == a;
    } else {
      var c, x := b[..|b| - 1], b[|b| - 1];
      assert b == c + [x] && a + b == (a + c) + [x] && (a + b)[..|a + b| - 1] == a + c;
      FilterSplits(a, c, badges, badge, equal);
    }
  }

  /** Of the senders exactly those with the badge are restarted, and whoever stays keeps those before and behind it
      that stay. */
  lemma CancelSorts(f: Face, t: Tcb, ep: Obj, badge: Word)
    requires Free(f, t) && There(f, ep) && f.objects[ep] == Send
    requires forall u: Tcb :: u in f.waiting[ep] ==> u in f.state
    ensures var g := AfterEvent(f, t, Invocation(CancelSends(ep, badge)));
      && ep in g.waiting
      && (forall u: Tcb :: u in f.state ==>
            u in g.state
            && g.state[u] == if u in f.waiting[ep] && I.BadgeOf(f.badge, u) == badge then Restart else f.state[u])
      && (forall u: Tcb :: u in g.waiting[ep] <==> u in f.waiting[ep] && I.BadgeOf(f.badge, u) != badge)
      && (ep in g.objects && g.objects[ep] == if g.waiting[ep] == [] then Idle else Send)
      && g.r == f.r && g.register == f.register
  {
    var h := Turned(f, t, Restart);
    I.FilterMembers(f.waiting[ep], f.badge, badge, true);
    I.FilterMembers(f.waiting[ep], f.badge, badge, false);
    CancelsTo(h, ep, badge);
  }

  lemma CancelsTo(f: Face, ep: Obj, badge: Word)
    requires There(f, ep) && f.objects[ep] == Send
    ensures var g, rest := AfterCancel(f, ep, badge), I.Filter(f.waiting[ep], f.badge, badge, false);
      && g.waiting == f.waiting[ep := rest] && g.objects == f.objects[ep := if rest == [] then Idle else Send]
      && g == f.(state := g.state, waiting := g.waiting, objects := g.objects) && g.state.Keys == f.state.Keys
      && forall u: Tcb :: u in f.state ==>
           g.state[u] == if u in I.Filter(f.waiting[ep], f.badge, badge, true) then Restart else f.state[u]
  {
  }

  lemma CancelKeepsOrder(f: Face, t: Tcb, ep: Obj, badge: Word, before: seq<Tcb>, u: Tcb, behind: seq<Tcb>)
    requires Free(f, t) && There(f, ep) && f.objects[ep] == Send && f.waiting[ep] == before + [u] + behind
    requires I.BadgeOf(f.badge, u) != badge
    ensures var kept := s => I.Filter(s, f.badge, badge, false);
      AfterEvent(f, t, Invocation(CancelSends(ep, badge))).waiting[ep] == kept(before) + [u] + kept(behind)
  {
    CancelsTo(Turned(f, t, Restart), ep, badge);
    FilterSplits(before + [u], behind, f.badge, badge, false);
    FilterSplits(before, [u], f.badge, badge, false);
    assert [u][..0] == [];
  }

  /** A sender that waits is restarted when the sends with its badge are cancelled, which leaves the endpoint as it was
      before, and by no other cancelling. */
  lemma CancelsOwnBadge(f: Face, t: Tcb, u: Tcb, ep: Obj, doCall: bool, badge: Word, grant: bool, other: Word)
    requires t != u && Free(f, t) && Free(f, u) && Quiet(f, ep) && ep.Endpoint?
    ensures var g := AfterEvent(f, t, Invocation(SendMessage(true, doCall, badge, grant, ep)));
      var h := AfterEvent(g, u, Invocation(CancelSends(ep, other)));
      && g.state == f.state[t := BlockedOnSend]
      && if other != badge then h == g
         else h.state == f.state[t := Restart] && h.waiting == f.waiting && h.objects == f.objects && h.r == f.r
  {
    StatesTwice(f.state, t, Restart, BlockedOnSend);
    var g := LastIn(f.(badge := f.badge[t := badge], canGrant := f.canGrant[t := grant],
                       isCall := f.isCall[t := doCall]), t, ep, BlockedOnSend);
    assert AfterEvent(f, t, Invocation(SendMessage(true, doCall, badge, grant, ep))) == g;
    CancelsOne(g, f, t, u, ep, other);
  }

  lemma CancelsOne(g: Face, f: Face, t: Tcb, u: Tcb, ep: Obj, other: Word)
    requires t != u && Free(f, t) && Free(f, u) && Quiet(f, ep) && ep.Endpoint? && t in g.badge
    requires g == LastIn(f.(badge := g.badge, canGrant := g.canGrant, isCall := g.isCall), t, ep, BlockedOnSend)
    ensures var h := AfterEvent(g, u, Invocation(CancelSends(ep, other)));
      if other != g.badge[t] then h == g
      else h.state == f.state[t := Restart] && h.waiting == f.waiting && h.objects == f.objects && h.r == f.r
  {
    assert g.waiting[ep] == [t];
    FilterOne(t, g.badge, other);
    if other != g.badge[t] {
      CancelsOther(g, t, u, ep, other);
    } else {
      CancelsSame(g, f, t, u, ep, other);
    }
  }

  lemma CancelsSame(g: Face, f: Face, t: Tcb, u: Tcb, ep: Obj, badge: Word)
    requires t != u && t in f.state && u in f.state && f.state[u] == Running && Quiet(f, ep)
    requires I.BadgeOf(g.badge, t) == badge
    requires g == LastIn(f.(badge := g.badge, canGrant := g.canGrant, isCall := g.isCall), t, ep, BlockedOnSend)
    ensures var h := AfterEvent(g, u, Invocation(CancelSends(ep, badge)));
      h.state == f.state[t := Restart] && h.waiting == f.waiting && h.objects == f.objects && h.r == f.r
  {
    assert g.waiting[ep] == [t];
    assert f.state[t := BlockedOnSend][u := Restart][t := Restart] == f.state[t := Restart][u := Restart];
    CancelsOnly(Turned(g, u, Restart), t, ep, badge);
    StatesTwice(f.state[t := Restart], u, Restart, Running);
    StateBack(f.state[t := Restart], u, Running);
    assert g.waiting[ep := []] == f.waiting;
    assert g.objects[ep := Idle] == f.objects;
  }

  lemma CancelsOnly(f: Face, t: Tcb, ep: Obj, badge: Word)
    requires t in f.state && There(f, ep) && f.objects[ep] == Send && f.waiting[ep] == [t]
    requires I.BadgeOf(f.badge, t) == badge
    ensures var g := AfterCancel(f, ep, badge);
      && g.state == f.state[t := Restart] && g.r == f.r
      && g.waiting == f.waiting[ep := []] && g.objects == f.objects[ep := Idle]
  {
    FilterOne(t, f.badge, badge);
    CancelsTo(f, ep, badge);
  }

  lemma FilterOne(t: Tcb, badges: map<Tcb, Word>, badge: Word)
    ensures I.Filter([t], badges, badge, true) == if I.BadgeOf(badges, t) == badge then [t] else []
    ensures I.Filter([t], badges, badge, false) == if I.BadgeOf(badges, t) == badge then [] else [t]
  {
    assert [t][..0] == [];
  }

  lemma CancelsOther(f: Face, t: Tcb, u: Tcb, ep: Obj, badge: Word)
    requires u in f.state && f.state[u] == Running && There(f, ep) && f.objects[ep] == Send && f.waiting[ep] == [t]
    requires I.BadgeOf(f.badge, t) != badge
    ensures AfterEvent(f, u, Invocation(CancelSends(ep, badge))) == f
  {
    var g := Turned(f, u, Restart);
    FilterOne(t, f.badge, badge);
    CancelsTo(g, ep, badge);
    assert AfterCancel(g, ep, badge).state == g.state;
    assert AfterCancel(g, ep, badge).waiting == g.waiting;
    assert AfterCancel(g, ep, badge).objects == g.objects;
    Carried(f, u, CancelSends(ep, badge), f);
  }

  /** Whoever waits for an endpoint that is deleted is restarted, and nobody else; the endpoint is idle and unbound. */
  lemma DeleteFreesWaiters(f: Face, t: Tcb, o: Obj)
    requires Free(f, t) && There(f, o) && Queueing(f.objects[o])
    requires forall u: Tcb :: u in f.waiting[o] ==> u in f.state
    ensures var g := AfterEvent(f, t, Invocation(Delete([LastEndpoint(o)])));
      && g.waiting == f.waiting[o := []] && g.objects == f.objects[o := Idle]
      && (forall u: Tcb :: u in f.state ==>
            u in g.state && g.state[u] == if u in f.waiting[o] then Restart else f.state[u])
      && (o.AsyncEndpoint? && Mutual(f.b) ==> o !in g.b.tcb) && (o.Endpoint? ==> g.b == f.b)
      && g.r == f.r && g.register == f.register
  {
    var h := Turned(f, t, Restart);
    OneFinal(h, LastEndpoint(o));
    EndpointEnds(h, o);
  }

  lemma EndpointEnds(f: Face, o: Obj)
    requires There(f, o) && Queueing(f.objects[o])
    ensures var g := AfterFinal(f, LastEndpoint(o));
      && g.waiting == f.waiting[o := []] && g.objects == f.objects[o := Idle] && g.state.Keys == f.state.Keys
      && (forall u: Tcb :: u in f.state ==> g.state[u] == if u in f.waiting[o] then Restart else f.state[u])
      && g.b == (if o.AsyncEndpoint? && o in f.b.tcb then Unbind(f.b, f.b.tcb[o]) else f.b)
      && g == f.(state := g.state, waiting := g.waiting, objects := g.objects, b := g.b)
  {
    if o.AsyncEndpoint? && o in f.b.tcb {
      var b := Unbind(f.b, f.b.tcb[o]);
      assert AfterFinal(f, LastEndpoint(o)) == Deserted(f.(b := b), o);
    } else {
      assert AfterFinal(f, LastEndpoint(o)) == Deserted(f, o);
    }
  }

  lemma {:induction false} OneFinal(f: Face, final: Final)
    ensures AfterFinals(f, [final]) == AfterFinal(f, final)
  {
    assert [final][1..] == [];
  }

  /** A deletion in parts is the deletion of the whole. */
  lemma {:induction false} DeletesInParts(f: Face, a: seq<Final>, b: seq<Final>)
    ensures AfterFinals(f, a + b) == AfterFinals(AfterFinals(f, a), b)
    decreases |a|
  {
    if a == [] {
      assert a + b == b;
    } else {
      assert (a + b)[0] == a[0] && (a + b)[1..] == a[1..] + b;
      DeletesInParts(AfterFinal(f, a[0]), a[1..], b);
    }
  }

  /** A thread that is deleted is suspended, bound to nothing and without a master reply cap. */
  lemma DeleteThread(f: Face, t: Tcb, u: Tcb)
    requires Free(f, u) && Common(f, t) && t != u && Mutual(f.b)
    ensures var g, h := AfterEvent(f, u, Invocation(Delete([LastThread(t)]))),
                        AfterEvent(f, u, Invocation(SuspendThread(t)));
      && g.state == h.state && g.waiting == h.waiting && g.objects == h.objects && g.register == h.register
      && g.fault == h.fault && g.r == h.r.(master := f.r.master - {t})
      && t !in g.b.aep && (forall o :: o in g.b.tcb ==> g.b.tcb[o] != t)
      && forall v: Tcb :: v in f.b.aep && v != t ==> v in g.b.aep && g.b.aep[v] == f.b.aep[v]
  {
    OneFinal(Turned(f, u, Restart), LastThread(t));
    var h := Turned(f, u, Restart);
    ThreadEnds(h, t);
    ResumedAlike(AfterSuspend(h, t), AfterFinal(h, LastThread(t)), u);
    OthersStayBound(f.b, t);
  }

  lemma OthersStayBound(b: Bindings, t: Tcb)
    requires Mutual(b)
    ensures t !in Unbind(b, t).aep && forall o :: o in Unbind(b, t).tcb ==> Unbind(b, t).tcb[o] != t
    ensures forall v: Tcb :: v in b.aep && v != t ==> v in Unbind(b, t).aep && Unbind(b, t).aep[v] == b.aep[v]
  {
    UnbindKeeps(b, t);
  }

  lemma ThreadEnds(f: Face, t: Tcb)
    requires Common(f, t)
    ensures var h := AfterSuspend(f, t);
      AfterFinal(f, LastThread(t)) == h.(b := Unbind(f.b, t), r := h.r.(master := f.r.master - {t}))
  {
    SuspendsTo(f, t);
    assert AfterSuspend(f, t).r.master == f.r.master;
  }

  lemma ResumedAlike(f: Face, g: Face, t: Tcb)
    requires g.state == f.state
    ensures Resumed(g, t).state == Resumed(f, t).state
    ensures Resumed(f, t) == f.(state := Resumed(f, t).state) && Resumed(g, t) == g.(state := Resumed(g, t).state)
  {
  }

  /** A deletion that is preempted has done what one of its objects so far does, its caller is left to restart, and the
      interrupt comes on top. */
  lemma PreemptedDeletes(f: Face, t: Tcb, finals: seq<Final>, irq: Irq)
    ensures var g := AfterEvent(f, t, Preempted(finals, OtherIrq));
      && Resumed(g, t) == AfterEvent(f, t, Invocation(Delete(finals)))
      && AfterEvent(f, t, Preempted(finals, irq)) == AfterEvent(g, t, Interrupt(irq))
  {
  }

  // ---- Priorities, domains and bindings ----

  /** A thread may give at most its own priority, and nothing but that priority changes. */
  lemma PriorityGiven(f: Face, t: Tcb, u: Tcb, prio: nat)
    requires Free(f, u) && u in f.key && Common(f, t) && t in f.key && prio < f.cfg.numPrios
    ensures AfterEvent(f, u, Invocation(ChangePriority(t, prio))) ==
            if prio <= f.key[u].prio then f.(key := f.key[t := Key(f.key[t].dom, prio)]) else f
  {
    Carried(f, u, ChangePriority(t, prio),
            if prio <= f.key[u].prio then f.(key := f.key[t := Key(f.key[t].dom, prio)]) else f);
  }

  /** What an invocation that leaves its caller alone comes to. */
  lemma Carried(f: Face, t: Tcb, call: Call, g: Face)
    requires t in g.state && g.state[t] == Running && AfterCall(Turned(f, t, Restart), call, t) == Turned(g, t, Restart)
    ensures AfterEvent(f, t, Invocation(call)) == g
  {
    ResumesAs(g, t, AfterCall(Turned(f, t, Restart), call, t));
  }

  lemma DomainGiven(f: Face, t: Tcb, u: Tcb, dom: nat)
    requires Free(f, u) && Common(f, t) && t in f.key
    ensures AfterEvent(f, u, Invocation(ChangeDomain(t, dom))) ==
            if dom < f.cfg.numDomains then f.(key := f.key[t := Key(dom, f.key[t].prio)]) else f
  {
    Carried(f, u, ChangeDomain(t, dom),
            if dom < f.cfg.numDomains then f.(key := f.key[t := Key(dom, f.key[t].prio)]) else f);
  }

  /** A thread that is bound cannot be bound again, nor to an endpoint somebody waits for; otherwise binding and
      unbinding leaves no trace if the endpoint was not bound. */
  lemma BindAndUnbind(f: Face, t: Tcb, u: Tcb, aep: Obj)
    requires Free(f, u) && Common(f, t) && There(f, aep) && aep.AsyncEndpoint?
    ensures var g := AfterEvent(f, u, Invocation(BindThread(t, aep)));
      if t in f.b.aep || f.waiting[aep] != [] then g == f
      else
        && t in g.b.aep && g.b.aep[t] == aep && aep in g.b.tcb && g.b.tcb[aep] == t
        && (aep !in f.b.tcb ==> AfterEvent(g, u, Invocation(UnbindThread(t))) == f)
  {
    if t in f.b.aep || f.waiting[aep] != [] {
      Carried(f, u, BindThread(t, aep), f);
    } else {
      var g := f.(b := Bind(f.b, t, aep));
      Carried(f, u, BindThread(t, aep), g);
      if aep !in f.b.tcb { UnbindsTo(f, t, u, aep); }
    }
  }

  lemma UnbindsTo(f: Face, t: Tcb, u: Tcb, aep: Obj)
    requires Free(f, u) && t !in f.b.aep && aep !in f.b.tcb
    ensures AfterEvent(f.(b := Bind(f.b, t, aep)), u, Invocation(UnbindThread(t))) == f
  {
    UnbindsBind(f.b, t, aep);
    Carried(f.(b := Bind(f.b, t, aep)), u, UnbindThread(t), f);
  }

  lemma UnbindsBind(b: Bindings, t: Tcb, aep: Obj)
    requires t !in b.aep && aep !in b.tcb
    ensures Unbind(Bind(b, t, aep), t) == b
  {
    assert Unbind(Bind(b, t, aep), t).aep == b.aep;
    assert Unbind(Bind(b, t, aep), t).tcb == b.tcb;
  }

  /** Yielding, the tick and interrupts nobody is told of concern the scheduler only. */
  lemma SchedulerOnly(f: Face, t: Tcb)
    ensures AfterEvent(f, t, YieldCall) == f && AfterEvent(f, t, Interrupt(TimerIrq)) == f
    ensures AfterEvent(f, t, Interrupt(OtherIrq)) == f
  {
  }
}
