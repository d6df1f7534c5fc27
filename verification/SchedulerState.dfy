/** What the scheduler's operations do to its state, and what all of them keep (thread.c). */
module SchedulerState {
  import opened LinkedQueue
  import opened PriorityBitmap
  import opened ReadyQueues

  datatype ThreadState =
    | Inactive | Running | Restart | BlockedOnReceive | BlockedOnSend | BlockedOnReply | BlockedOnAsyncEvent
    | RunningVM | IdleThreadState

  predicate Runnable(ts: ThreadState) {
    ts.Running? || ts.RunningVM? || ts.Restart?
  }

  predicate Blocked(ts: ThreadState) {
    ts.Inactive? || ts.BlockedOnReceive? || ts.BlockedOnSend? || ts.BlockedOnAsyncEvent? || ts.BlockedOnReply?
  }

  datatype Action = ResumeCurrentThread | ChooseNewThread | SwitchTo(target: Tcb)

  /** dschedule_t */
  datatype Slot = Slot(domain: nat, length: nat)

  /** Build-time configuration: domains, priorities, CONFIG_TIME_SLICE and ksDomSchedule. */
  datatype Params = Params(cfg: Config, timeSlice: nat, domains: seq<Slot>)

  /** What create_domain_cap asserts of the domain schedule, and the compile-time assertions. */
  ghost predicate ParamsOk(p: Params) {
    && ConfigOk(p.cfg) && |p.domains| > 0
    && forall i :: 0 <= i < |p.domains| ==>
         p.domains[i].domain < p.cfg.numDomains && 0 < p.domains[i].length <= 0xFFFF_FFFF
  }

  datatype Sched = Sched(
    state: map<Tcb, ThreadState>, key: map<Tcb, Key>, queued: map<Tcb, bool>, slice: map<Tcb, nat>, ready: Ready,
    cur: Tcb, idle: Tcb, action: Action, curDomain: nat, domainTime: nat, domainIdx: nat)

  // ---- Operations ----

  ghost function QueueOf(s: Sched, t: Tcb): seq<Tcb>
    requires t in s.key
  {
    if s.key[t] in s.ready then s.ready[s.key[t]] else []
  }

  ghost function Enqueue(s: Sched, t: Tcb): Sched {
    if t in s.queued && t in s.key && !s.queued[t] then
      s.(queued := s.queued[t := true], ready := s.ready[s.key[t] := [t] + QueueOf(s, t)])
    else s
  }

  ghost function Append(s: Sched, t: Tcb): Sched {
    if t in s.queued && t in s.key && !s.queued[t] then
      s.(queued := s.queued[t := true], ready := s.ready[s.key[t] := QueueOf(s, t) + [t]])
    else s
  }

  ghost function Dequeue(s: Sched, t: Tcb): Sched {
    if t in s.queued && t in s.key && s.queued[t] then
      s.(queued := s.queued[t := false], ready := s.ready[s.key[t] := Without(QueueOf(s, t), t)])
    else s
  }

  ghost function RescheduleRequired(s: Sched): Sched {
    (if s.action.SwitchTo? then Enqueue(s, s.action.target) else s).(action := ChooseNewThread)
  }

  ghost function SetThreadState(s: Sched, t: Tcb, ts: ThreadState): Sched {
    var s' := s.(state := s.state[t := ts]);
    if t == s.cur && s.action.ResumeCurrentThread? && !Runnable(ts) then RescheduleRequired(s') else s'
  }

  ghost function PossibleSwitchTo(p: Params, s: Sched, t: Tcb, onSame: bool): Sched
    requires t in s.key && s.cur in s.key
  {
    if p.cfg.numDomains > 1 then
      if s.key[t].dom != s.curDomain then Enqueue(s, t) else s
    else if s.action.ResumeCurrentThread?
            && (s.key[t].prio > s.key[s.cur].prio || (s.key[t].prio == s.key[s.cur].prio && onSame)) then
      s.(action := SwitchTo(t))
    else if s.action.SwitchTo? then RescheduleRequired(Enqueue(s, t))
    else Enqueue(s, t)
  }

  /** setPriority and setDomain: leave the queue, change the key, rejoin. */
  ghost function SetKey(s: Sched, t: Tcb, k: Key): Sched
    requires t in s.state
  {
    var s1 := Dequeue(s, t);
    var s2 := s1.(key := s1.key[t := k]);
    var s3 := if Runnable(s2.state[t]) then Enqueue(s2, t) else s2;
    if t == s.cur then RescheduleRequired(s3) else s3
  }

  ghost function Suspended(s: Sched, t: Tcb): Sched {
    Dequeue(SetThreadState(s, t, Inactive), t)
  }

  /** handleYield */
  ghost function Yielded(s: Sched): Sched {
    RescheduleRequired(Append(Dequeue(s, s.cur), s.cur))
  }

  ghost function TickSlice(p: Params, s: Sched): Sched
    requires s.cur in s.state && s.cur in s.slice
  {
    if !Runnable(s.state[s.cur]) then s
    else if s.slice[s.cur] > 1 then s.(slice := s.slice[s.cur := s.slice[s.cur] - 1])
    else RescheduleRequired(Append(s.(slice := s.slice[s.cur := p.timeSlice]), s.cur))
  }

  /** The decrement of ksDomainTime, an unsigned word. */
  ghost function TickDomain(p: Params, s: Sched): Sched {
    if p.cfg.numDomains > 1 then
      var s' := s.(domainTime := if s.domainTime == 0 then 0xFFFF_FFFF else s.domainTime - 1);
      if s'.domainTime == 0 then RescheduleRequired(s') else s'
    else s
  }

  ghost function TimerTick(p: Params, s: Sched): Sched
    requires s.cur in s.state && s.cur in s.slice
  {
    TickDomain(p, TickSlice(p, s))
  }

  ghost function NextDomain(p: Params, s: Sched): Sched
    requires ParamsOk(p)
  {
    var i := if s.domainIdx + 1 >= |p.domains| then 0 else s.domainIdx + 1;
    s.(domainIdx := i, curDomain := p.domains[i].domain, domainTime := p.domains[i].length)
  }

  ghost function DomainOf(p: Params, s: Sched): nat {
    if p.cfg.numDomains > 1 then s.curDomain else 0
  }

  ghost function ChooseThread(p: Params, s: Sched): Sched {
    var t := FirstReady(s.ready, DomainOf(p, s));
    if t == NULL then s.(cur := s.idle) else Dequeue(s, t).(cur := t)
  }

  ghost function Schedule(p: Params, s: Sched): Sched
    requires ParamsOk(p) && s.cur in s.state
  {
    var s1 := if Runnable(s.state[s.cur]) then Enqueue(s, s.cur) else s;
    match s.action
    case ResumeCurrentThread => s
    case ChooseNewThread =>
      var s2 := if p.cfg.numDomains > 1 && s1.domainTime == 0 then NextDomain(p, s1) else s1;
      ChooseThread(p, s2).(action := ResumeCurrentThread)
    case SwitchTo(t) => Dequeue(s1, t).(cur := t, action := ResumeCurrentThread)
  }

  // ---- Well-formed states ----

  ghost predicate Known(p: Params, s: Sched) {
    && ParamsOk(p)
    && s.state.Keys == s.key.Keys == s.queued.Keys == s.slice.Keys && NULL !in s.state
    && s.cur in s.state && s.idle in s.state && (s.action.SwitchTo? ==> s.action.target in s.state)
    && s.curDomain < p.cfg.numDomains && s.domainIdx < |p.domains|
  }

  /** The ready queues hold exactly the threads flagged as queued, each under its own key. */
  ghost predicate Filed(p: Params, s: Sched) {
    Placed(s.queued, s.key, s.ready) && AllKeys(p.cfg, s.key, s.ready)
  }

  lemma PutIn(p: Params, s: Sched, t: Tcb, q: seq<Tcb>)
    requires Filed(p, s) && t in s.queued && (forall u: Tcb :: u in q <==> u in QueueOf(s, t) || u == t)
    ensures Filed(p, s.(queued := s.queued[t := true], ready := s.ready[s.key[t] := q]))
  {
    OneThread(p.cfg, s.queued, s.key, s.ready, t);
    KeysAfter(p.cfg, s.key, s.ready, s.key[t], q);
    PlacedIn(s.queued, s.key, s.ready, t, q);
  }

  lemma FiledAfter(p: Params, s: Sched, t: Tcb)
    requires Filed(p, s)
    ensures Filed(p, Enqueue(s, t)) && Filed(p, Append(s, t)) && Filed(p, Dequeue(s, t))
  {
    if t in s.queued && t in s.key {
      OneThread(p.cfg, s.queued, s.key, s.ready, t);
      if s.queued[t] {
        KeysAfter(p.cfg, s.key, s.ready, s.key[t], Without(QueueOf(s, t), t));
        PlacedOut(s.queued, s.key, s.ready, t, Without(QueueOf(s, t), t));
      } else {
        PutIn(p, s, t, [t] + QueueOf(s, t));
        PutIn(p, s, t, QueueOf(s, t) + [t]);
      }
    }
  }

  lemma Refiled(p: Params, s: Sched, t: Tcb, k: Key)
    requires Filed(p, s) && t in s.queued && !s.queued[t] && Legal(p.cfg, k)
    ensures Filed(p, s.(key := s.key[t := k]))
  {
    PlacedRekeyed(s.queued, s.key, s.ready, t, k);
    KeysRekeyed(p.cfg, s.key, s.ready, t, k);
  }

  /** What FirstReady finds: a thread of the domain with no queued thread of the domain above it. */
  lemma FirstReadyKnown(p: Params, s: Sched, dom: nat)
    requires Known(p, s) && Filed(p, s)
    ensures var t := FirstReady(s.ready, dom);
      if t == NULL then forall u: Tcb :: u in s.queued && s.queued[u] ==> s.key[u].dom != dom
      else t in s.state && s.queued[t] && s.key[t].dom == dom
           && forall u: Tcb :: u in s.queued && s.queued[u] && s.key[u].dom == dom ==> s.key[u].prio <= s.key[t].prio
  {
    forall u: Tcb | u in s.queued && s.queued[u] ensures s.key[u] in Full(s.ready) {
      OneThread(p.cfg, s.queued, s.key, s.ready, u);
    }
    if q: nat :| IsHighest(Full(s.ready), dom, q) {
      var t := s.ready[Key(dom, q)][0];
      assert t in s.ready[Key(dom, q)];
      assert PlacedAt(s.queued, s.key, s.ready, t);
      FirstReadyIs(s.ready, dom, q);
    } else {
      HighestExists(Full(s.ready), dom);
    }
  }

  lemma {:induction false} HighestExists(full: set<Key>, dom: nat)
    requires forall q: nat :: !IsHighest(full, dom, q)
    ensures forall k :: k in full ==> k.dom != dom
  {
    if k :| k in full && k.dom == dom {
      var q := k.prio;
      var rest := set j | j in full && j.dom == dom && j.prio > q;
      if rest == {} {
        forall j | j in full && j.dom == dom ensures j.prio <= q {
          assert j !in rest;
        }
        assert IsHighest(full, dom, q);
      } else {
        assert forall n: nat :: IsHighest(rest, dom, n) ==> IsHighest(full, dom, n);
        Shrinks(rest, full, k);
        HighestExists(rest, dom);
      }
    }
  }

  lemma Shrinks(a: set<Key>, b: set<Key>, k: Key)
    requires a <= b && k in b && k !in a
    ensures a < b
  {
  }
}
