/** Who runs after a thread is woken, restarted or given another priority, and where the others stand
    (thread.c: possibleSwitchTo, restart, setPriority, schedule). */
module Preemption {
  import opened LinkedQueue
  import opened PriorityBitmap
  import opened ReadyQueues
  import opened SchedulerState
  import opened SchedulerRuns

  /** At rest with one domain. */
  ghost predicate Resting(p: Params, s: Sched) {
    Rested(p, s) && Filed(p, s)
  }

  /** A thread that is asleep. */
  ghost predicate Asleep(s: Sched, t: Tcb) {
    t in s.state && t != s.idle && !Runnable(s.state[t])
  }

  /** The queue of the thread's domain and priority with the thread at its head. */
  ghost function AtHead(s: Sched, t: Tcb): Ready
    requires t in s.key
  {
    s.ready[s.key[t] := [t] + QueueOf(s, t)]
  }

  lemma SleepsOut(p: Params, s: Sched, t: Tcb)
    requires Resting(p, s) && Asleep(s, t)
    ensures t != s.cur && !s.queued[t] && t in s.key && s.cur in s.key && t in s.queued
    ensures s.key[t] in s.ready && s.key[s.cur] in s.ready && !s.queued[s.cur]
  {
    assert Settled(s, t);
    OneThread(p.cfg, s.queued, s.key, s.ready, t);
    OneThread(p.cfg, s.queued, s.key, s.ready, s.cur);
  }

  ghost predicate Outranks(s: Sched, t: Tcb, u: Tcb, onSame: bool)
    requires t in s.key && u in s.key
  {
    s.key[t].prio > s.key[u].prio || (s.key[t].prio == s.key[u].prio && onSame)
  }

  /** A thread that is woken runs at once exactly when it outranks the current one, which then waits at the head of its
      queue; otherwise the woken thread does. */
  lemma WakeDecides(p: Params, s: Sched, t: Tcb, onSame: bool)
    requires Resting(p, s) && Asleep(s, t)
    ensures var s' := Entry(p, s, [Wake(t, Running, onSame)]);
      && t in s.key && s.cur in s.key
      && s'.cur == (if s.key[t].prio > s.key[s.cur].prio || (s.key[t].prio == s.key[s.cur].prio && onSame) then t
                    else s.cur)
      && s'.ready == if s'.cur == s.cur then s.ready[s.key[t] := [t] + QueueOf(s, t)]
                     else if Runnable(s.state[s.cur]) then s.ready[s.key[s.cur] := [s.cur] + QueueOf(s, s.cur)]
                     else s.ready
  {
    SleepsOut(p, s, t);
    var op := Wake(t, Running, onSame);
    assert [op][1..] == [] && Steps(p, s, [op]) == Apply(p, s, op);
    if Outranks(s, t, s.cur, onSame) {
      WokenSwitches(p, s, t, onSame);
    } else {
      WokenQueues(p, s, t, onSame);
    }
  }

  lemma WokenSwitches(p: Params, s: Sched, t: Tcb, onSame: bool)
    requires Resting(p, s) && Asleep(s, t) && t in s.key && s.cur in s.key && Outranks(s, t, s.cur, onSame)
    ensures var s1 := PossibleSwitchTo(p, SetThreadState(s, t, Running), t, onSame);
      && Known(p, s1) && s1.state == s.state[t := Running]
      && var s2 := Schedule(p, s1);
      && s2.cur == t && s2.state == s1.state
      && s2.ready == if Runnable(s.state[s.cur]) then AtHead(s, s.cur) else s.ready
  {
    SleepsOut(p, s, t);
  }

  lemma WokenQueues(p: Params, s: Sched, t: Tcb, onSame: bool)
    requires Resting(p, s) && Asleep(s, t) && t in s.key && s.cur in s.key && !Outranks(s, t, s.cur, onSame)
    ensures var s1 := PossibleSwitchTo(p, SetThreadState(s, t, Running), t, onSame);
      && Known(p, s1) && s1.state == s.state[t := Running]
      && Schedule(p, s1) == s1 && s1.cur == s.cur && s1.ready == AtHead(s, t)
  {
    SleepsOut(p, s, t);
  }

  /** The same for a thread that is restarted, which is queued first and then switched to; a current thread of its own
      priority goes on. */
  lemma RestartDecides(p: Params, s: Sched, t: Tcb)
    requires Resting(p, s) && Asleep(s, t)
    ensures var s' := Entry(p, s, [RestartThread(t)]);
      && t in s.key && s.cur in s.key
      && s'.cur == (if s.key[t].prio > s.key[s.cur].prio then t else s.cur)
      && t in s'.state && s'.state[t] == (if s'.cur == t then Running else Restart)
      && s'.ready == if s'.cur == s.cur then s.ready[s.key[t] := [t] + QueueOf(s, t)]
                     else if Runnable(s.state[s.cur]) then s.ready[s.key[s.cur] := [s.cur] + QueueOf(s, s.cur)]
                     else s.ready
  {
    SleepsOut(p, s, t);
    var op := RestartThread(t);
    assert [op][1..] == [] && Steps(p, s, [op]) == Apply(p, s, op);
    RestartQueues(p, s, t);
    if Outranks(s, t, s.cur, false) { RestartSwitches(p, s, Restarted(p, s, t), t); }
  }

  lemma RestartQueues(p: Params, s: Sched, t: Tcb)
    requires Resting(p, s) && Asleep(s, t) && t in s.key && s.cur in s.key
    ensures var s1 := Restarted(p, s, t);
      && Known(p, s1)
      && s1 == s.(state := s.state[t := Restart], queued := s.queued[t := true], ready := AtHead(s, t),
                  action := if Outranks(s, t, s.cur, false) then SwitchTo(t) else ResumeCurrentThread)
  {
    SleepsOut(p, s, t);
  }

  lemma RestartSwitches(p: Params, s: Sched, s1: Sched, t: Tcb)
    requires Resting(p, s) && Asleep(s, t) && t in s.key && s.cur in s.key && Outranks(s, t, s.cur, false)
    requires s1 == s.(state := s.state[t := Restart], queued := s.queued[t := true], ready := AtHead(s, t),
                      action := SwitchTo(t))
    ensures ParamsOk(p) && s1.cur in s1.state
    ensures var s2 := Schedule(p, s1);
      && s2.cur == t && s2.state == s1.state
      && s2.ready == if Runnable(s.state[s.cur]) then AtHead(s, s.cur) else s.ready
  {
    SleepsOut(p, s, t);
    var q := QueueOf(s, t);
    assert t !in q by {
      assert PlacedAt(s.queued, s.key, s.ready, t);
    }
    assert ([t] + q)[1..] == q;
    assert Without([t] + q, t) == q;
    assert AtHead(s, t)[s.key[t] := q] == s.ready;
    if Runnable(s.state[s.cur]) {
      assert AtHead(s, t)[s.key[s.cur] := [s.cur] + QueueOf(s, s.cur)][s.key[t] := q] == AtHead(s, s.cur);
    }
  }

  /** Of two threads that are woken one after the other, both above the current one, the higher runs, and the first of
      two equals; the other one is at the head of its queue behind it. */
  lemma TwoWoken(p: Params, s: Sched, t: Tcb, u: Tcb)
    requires Resting(p, s) && Asleep(s, t) && Asleep(s, u) && t != u
    requires t in s.key && u in s.key && s.cur in s.key && Runnable(s.state[s.cur])
    requires s.key[t].prio > s.key[s.cur].prio && s.key[u].prio > s.key[s.cur].prio
    ensures var s' := Entry(p, s, [Wake(t, Running, true), Wake(u, Running, true)]);
      && s'.cur == (if s.key[u].prio > s.key[t].prio then u else t)
      && var other := if s'.cur == t then u else t;
         s'.ready == s.ready[s.key[other] := [other] + QueueOf(s, other)]
                            [s.key[s.cur] := [s.cur] + QueueOf(s, s.cur)]
  {
    TwoSteps(p, s, Wake(t, Running, true), Wake(u, Running, true));
    BothQueued(p, s, t, u);
    var s2 := Apply(p, Apply(p, s, Wake(t, Running, true)), Wake(u, Running, true));
    BothRanked(p, s, s2, t, u);
  }

  lemma BothRanked(p: Params, s: Sched, s2: Sched, t: Tcb, u: Tcb)
    requires Resting(p, s) && Asleep(s, t) && Asleep(s, u) && t != u
    requires t in s.key && u in s.key && s.cur in s.key && Runnable(s.state[s.cur])
    requires s.key[t].prio > s.key[s.cur].prio && s.key[u].prio > s.key[s.cur].prio && Known(p, s2)
    requires s2 == s.(state := s.state[t := Running][u := Running], queued := s.queued[u := true][t := true],
                      ready := AtHead(s.(ready := AtHead(s, u)), t), action := ChooseNewThread)
    ensures var s3, first := Schedule(p, s2), if s.key[u].prio > s.key[t].prio then u else t;
      var other := if first == t then u else t;
      && s3.cur == first && s3.state == s2.state
      && s3.ready == AtHead(s, other)[s.key[s.cur] := [s.cur] + QueueOf(s, s.cur)]
  {
    assert s.queued[u := true][t := true] == s.queued[t := true][u := true];
    if s.key[u].prio > s.key[t].prio {
      BothScheduled(p, s, s2, u, t);
    } else {
      BothScheduled(p, s, s2, t, u);
    }
  }

  lemma {:induction false} TwoSteps(p: Params, s: Sched, a: Op, b: Op)
    ensures Steps(p, s, [a, b]) == Apply(p, Apply(p, s, a), b)
  {
    assert [a, b][1..] == [b] && [b][1..] == [];
    assert Steps(p, Apply(p, s, a), [b]) == Steps(p, Apply(p, Apply(p, s, a), b), []);
  }

  /** schedule() finds the thread, as the first of the queues with the current thread back in its own. */
  lemma Found(p: Params, s: Sched, t: Tcb, rest: seq<Tcb>)
    requires Known(p, s) && p.cfg.numDomains == 1 && s.action.ChooseNewThread? && Runnable(s.state[s.cur])
    requires !s.queued[s.cur] && t != s.cur && t in s.state && s.queued[t] && s.key[t] != s.key[s.cur]
    requires s.key[t] in s.ready && s.ready[s.key[t]] == [t] + rest && t !in rest
    requires FirstReady(AtHead(s, s.cur), 0) == t
    ensures Schedule(p, s) ==
      s.(cur := t, queued := s.queued[s.cur := true][t := false], ready := AtHead(s, s.cur)[s.key[t] := rest],
         action := ResumeCurrentThread)
  {
    var s1 := Enqueue(s, s.cur);
    assert s1 == s.(queued := s.queued[s.cur := true], ready := AtHead(s, s.cur));
    assert ([t] + rest)[1..] == rest;
    assert Without([t] + rest, t) == rest;
    assert Dequeue(s1, t) == s1.(queued := s1.queued[t := false], ready := s1.ready[s.key[t] := rest]);
  }

  /** Nobody outranks the first thread once both are queued. */
  lemma FirstOfBoth(p: Params, s: Sched, ready: Ready, t: Tcb, u: Tcb, rest: seq<Tcb>)
    requires Resting(p, s) && t in s.key && u in s.key && s.cur in s.key
    requires s.key[t].prio > s.key[s.cur].prio && s.key[t].prio >= s.key[u].prio
    requires s.key[t] in ready && ready[s.key[t]] == [t] + rest && t in s.queued
    requires forall k :: k in ready && k != s.key[t] && k != s.key[u] && k != s.key[s.cur] ==>
      k in s.ready && ready[k] == s.ready[k]
    ensures FirstReady(ready, 0) == t
  {
    OneThread(p.cfg, s.queued, s.key, s.ready, t);
    var k := s.key[t];
    forall j | j in Full(ready) && j.dom == 0 ensures j.prio <= k.prio {
      if j != k && j != s.key[u] && j != s.key[s.cur] {
        var v := s.ready[j][0];
        assert v in s.ready[j] && PlacedAt(s.queued, s.key, s.ready, v);
      }
    }
    assert k == Key(0, k.prio) && IsHighest(Full(ready), 0, k.prio);
    FirstReadyIs(ready, 0, k.prio);
  }

  lemma NotWaiting(p: Params, s: Sched, t: Tcb)
    requires Resting(p, s) && t in s.queued && !s.queued[t] && t in s.key
    ensures t !in QueueOf(s, t)
  {
    assert PlacedAt(s.queued, s.key, s.ready, t);
  }

  lemma BothQueued(p: Params, s: Sched, t: Tcb, u: Tcb)
    requires Resting(p, s) && Asleep(s, t) && Asleep(s, u) && t != u
    requires t in s.key && u in s.key && s.cur in s.key && Runnable(s.state[s.cur])
    requires s.key[t].prio > s.key[s.cur].prio && s.key[u].prio > s.key[s.cur].prio
    ensures var s2 := Apply(p, Apply(p, s, Wake(t, Running, true)), Wake(u, Running, true));
      && Known(p, s2)
      && s2 == s.(state := s.state[t := Running][u := Running], queued := s.queued[u := true][t := true],
                  ready := AtHead(s.(ready := AtHead(s, u)), t), action := ChooseNewThread)
  {
    SleepsOut(p, s, t);
    SleepsOut(p, s, u);
    var s1 := Apply(p, s, Wake(t, Running, true));
    assert s1 == s.(state := s.state[t := Running], action := SwitchTo(t));
  }

  /** The first of both ends up current, the second at the head of its queue. */
  lemma BothScheduled(p: Params, s: Sched, s2: Sched, t: Tcb, u: Tcb)
    requires Resting(p, s) && Asleep(s, t) && Asleep(s, u) && t != u
    requires t in s.key && u in s.key && s.cur in s.key && Runnable(s.state[s.cur])
    requires s.key[t].prio > s.key[s.cur].prio && s.key[u].prio > s.key[s.cur].prio && s.key[t].prio >= s.key[u].prio
    requires Known(p, s2)
    requires s2 == s.(state := s2.state, queued := s2.queued, ready := s2.ready, action := ChooseNewThread)
    requires s2.state == s.state[t := Running][u := Running] || s2.state == s.state[u := Running][t := Running]
    requires s2.queued == s.queued[t := true][u := true]
    requires s2.ready == AtHead(s.(ready := AtHead(s, u)), t)
      || (s.key[t] != s.key[u] && s2.ready == AtHead(s.(ready := AtHead(s, t)), u))
    ensures var s3 := Schedule(p, s2);
      s3.cur == t && s3.state == s2.state && s3.ready == AtHead(s, u)[s.key[s.cur] := [s.cur] + QueueOf(s, s.cur)]
  {
    SleepsOut(p, s, t);
    SleepsOut(p, s, u);
    NotWaiting(p, s, t);
    var rest := if s.key[t] == s.key[u] then [u] + QueueOf(s, u) else QueueOf(s, t);
    FirstOfBoth(p, s, AtHead(s2, s.cur), t, u, rest);
    Found(p, s2, t, rest);
    BackInPlace(s, s2, t, u, rest);
  }

  lemma BackInPlace(s: Sched, s2: Sched, t: Tcb, u: Tcb, rest: seq<Tcb>)
    requires t in s.key && u in s.key && s.cur in s.key && s.key[t] in s.ready && s.key[u] in s.ready
    requires s.key[s.cur] in s.ready && s.key[t] != s.key[s.cur] && s.key[u] != s.key[s.cur]
    requires s2.key == s.key && s2.cur == s.cur
    requires s2.ready == AtHead(s.(ready := AtHead(s, u)), t)
      || (s.key[t] != s.key[u] && s2.ready == AtHead(s.(ready := AtHead(s, t)), u))
    requires rest == if s.key[t] == s.key[u] then [u] + QueueOf(s, u) else QueueOf(s, t)
    ensures AtHead(s2, s.cur)[s.key[t] := rest] == AtHead(s, u)[s.key[s.cur] := [s.cur] + QueueOf(s, s.cur)]
  {
  }

  // ---- Another priority or domain ----

  /** The queues with the thread taken out of its own and put at the head of the one for its new key. */
  ghost function Refiled(s: Sched, t: Tcb, k: Key): Ready
    requires t in s.key
  {
    var out := s.ready[s.key[t] := Without(QueueOf(s, t), t)];
    out[k := [t] + if k in out then out[k] else []]
  }

  /** Another ready thread that is given a priority no higher than the current one's goes to the head of its new queue;
      one that is asleep changes its key only. The current thread runs on. */
  lemma PriorityMoves(p: Params, s: Sched, t: Tcb, prio: nat)
    requires Resting(p, s) && t in s.state && t != s.idle && t != s.cur && prio < p.cfg.numPrios
    requires s.cur in s.key && prio <= s.key[s.cur].prio
    ensures var s' := Entry(p, s, [SetPriority(t, prio)]);
      && t in s.key && s'.cur == s.cur && s'.key == s.key[t := Key(s.key[t].dom, prio)]
      && s'.ready == if Runnable(s.state[t]) then Refiled(s, t, Key(s.key[t].dom, prio)) else s.ready
  {
    var s1 := SetKey(s, t, Key(s.key[t].dom, prio));
    KeyMoves(p, s, t, Key(s.key[t].dom, prio));
    PriorityStep(p, s, t, prio);
    OneOp(p, s, SetPriority(t, prio), s1, s1);
  }

  lemma KeyMoves(p: Params, s: Sched, t: Tcb, k: Key)
    requires Resting(p, s) && t in s.state && t != s.cur
    ensures var s1 := SetKey(s, t, k);
      && Known(p, s1) && t in s.key && s1.cur == s.cur && s1.action == ResumeCurrentThread && s1.state == s.state
      && s1.key == s.key[t := k] && s1.ready == if Runnable(s.state[t]) then Refiled(s, t, k) else s.ready
  {
    assert Settled(s, t);
  }

  /** A current thread that changes its own priority runs on exactly when no ready thread has a higher one; it stands
      before its equals. */
  lemma OwnPriorityMoves(p: Params, s: Sched, prio: nat)
    requires Resting(p, s) && Runnable(s.state[s.cur]) && s.cur != s.idle && s.cur in s.key
    requires prio < p.cfg.numPrios && prio <= s.key[s.cur].prio
    ensures var s' := Entry(p, s, [SetPriority(s.cur, prio)]);
      && s'.key == s.key[s.cur := Key(s.key[s.cur].dom, prio)]
      && (s'.cur == s.cur <==> forall u: Tcb :: u in s.queued && s.queued[u] && u in s.key ==> s.key[u].prio <= prio)
  {
    var op, k := SetPriority(s.cur, prio), Key(s.key[s.cur].dom, prio);
    OwnKeyScheduled(p, s, k);
    var s1 := SetKey(s, s.cur, k);
    PriorityStep(p, s, s.cur, prio);
    OneOp(p, s, op, s1, Schedule(p, s1));
  }

  lemma PriorityStep(p: Params, s: Sched, t: Tcb, prio: nat)
    requires Known(p, s) && t in s.state
    ensures t in s.key && Apply(p, s, SetPriority(t, prio)) == SetKey(s, t, Key(s.key[t].dom, prio))
  {
  }

  /** An entry of one step: what the step leaves, as schedule() and activateThread() find it. */
  lemma {:induction false} OneOp(p: Params, s: Sched, op: Op, s1: Sched, s2: Sched)
    requires Apply(p, s, op) == s1 && Known(p, s1) && s2 == Schedule(p, s1)
    ensures var s' := Entry(p, s, [op]);
      && s'.cur == s2.cur && s'.key == s2.key && s'.ready == s2.ready
      && s'.state == if s2.cur in s2.state && s2.state[s2.cur] == Restart then s2.state[s2.cur := Running] else s2.state
  {
    assert [op][1..] == [] && Steps(p, s, [op]) == s1;
  }

  lemma OwnKeyScheduled(p: Params, s: Sched, k: Key)
    requires Resting(p, s) && Runnable(s.state[s.cur]) && s.cur in s.key && k.dom == s.key[s.cur].dom
    requires k.prio < p.cfg.numPrios
    ensures var s1 := SetKey(s, s.cur, k);
      && Known(p, s1) && var s2 := Schedule(p, s1);
      && s2.key == s.key[s.cur := k]
      && (s2.cur == s.cur <==> forall u: Tcb :: u in s.queued && s.queued[u] && u in s.key ==> s.key[u].prio <= k.prio)
  {
    OneThread(p.cfg, s.queued, s.key, s.ready, s.cur);
    OwnKeyQueued(p, s, k);
    OwnKeyPicked(p, s, SetKey(s, s.cur, k), k);
  }

  lemma OwnKeyQueued(p: Params, s: Sched, k: Key)
    requires Resting(p, s) && Runnable(s.state[s.cur]) && s.cur in s.key && Legal(p.cfg, k)
    ensures var s1 := SetKey(s, s.cur, k);
      && Known(p, s1) && Filed(p, s1)
      && s1 == s.(key := s.key[s.cur := k], queued := s.queued[s.cur := true], ready := s1.ready,
                  action := ChooseNewThread)
      && k in s.ready && s1.ready == s.ready[k := [s.cur] + s.ready[k]]
  {
    SetKeyFiles(p, s, s.cur, k);
    assert KeyAt(p.cfg, s.ready, k);
  }

  lemma OwnKeyPicked(p: Params, s: Sched, s1: Sched, k: Key)
    requires Resting(p, s) && Runnable(s.state[s.cur]) && s.cur in s.key && k in s.ready
    requires Known(p, s1) && Filed(p, s1) && s1.ready == s.ready[k := [s.cur] + s.ready[k]]
    requires s1 == s.(key := s.key[s.cur := k], queued := s.queued[s.cur := true], ready := s1.ready,
                      action := ChooseNewThread)
    ensures var s2 := Schedule(p, s1);
      && s2.key == s1.key && s2.cur in s2.state
      && (s2.cur == s.cur <==> forall u: Tcb :: u in s.queued && s.queued[u] && u in s.key ==> s.key[u].prio <= k.prio)
  {
    FoundInOnlyDomain(p, s1);
    var t := FirstReady(s1.ready, 0);
    assert Enqueue(s1, s1.cur) == s1;
    assert s1.queued[s.cur] && t != NULL;
    if forall u: Tcb :: u in s.queued && s.queued[u] && u in s.key ==> s.key[u].prio <= k.prio {
      OneThread(p.cfg, s1.queued, s1.key, s1.ready, s.cur);
      FrontRunner(p, s, s1, k);
    }
  }

  /** The head of the queue for the new key is the first of all if nobody has a higher priority. */
  lemma FrontRunner(p: Params, s: Sched, s1: Sched, k: Key)
    requires k in s.ready && k.dom == 0 && Filed(p, s1) && s1.ready == s.ready[k := [s.cur] + s.ready[k]]
    requires s1.key == s.key[s.cur := k] && s1.queued == s.queued[s.cur := true]
    requires forall u: Tcb :: u in s.queued && s.queued[u] && u in s.key ==> s.key[u].prio <= k.prio
    ensures FirstReady(s1.ready, 0) == s.cur
  {
    forall j | j in Full(s1.ready) && j.dom == 0 ensures j.prio <= k.prio {
      var v := s1.ready[j][0];
      assert v in s1.ready[j] && PlacedAt(s1.queued, s1.key, s1.ready, v);
    }
    assert k == Key(0, k.prio) && IsHighest(Full(s1.ready), 0, k.prio);
    FirstReadyIs(s1.ready, 0, k.prio);
  }

  /** With one domain there is no other domain to move to: giving another thread its domain again only puts it at the
      head of its queue. */
  lemma DomainMoves(p: Params, s: Sched, t: Tcb, dom: nat)
    requires Resting(p, s) && t in s.state && t != s.idle && t != s.cur && dom < p.cfg.numDomains
    ensures var s' := Entry(p, s, [SetDomain(t, dom)]);
      && t in s.key && s'.cur == s.cur && s'.key == s.key
      && s'.ready == if Runnable(s.state[t]) then Refiled(s, t, s.key[t]) else s.ready
  {
    OneThread(p.cfg, s.queued, s.key, s.ready, t);
    var s1 := SetKey(s, t, s.key[t]);
    KeyMoves(p, s, t, s.key[t]);
    assert s.key[t := s.key[t]] == s.key;
    assert Apply(p, s, SetDomain(t, dom)) == s1;
    OneOp(p, s, SetDomain(t, dom), s1, s1);
  }
}
