/** Whose turn it is among the ready threads of the highest priority, when slices run out or threads yield
    (thread.c: timerTick, handleYield, schedule). */
module RoundRobin {
  import opened LinkedQueue
  import opened PriorityBitmap
  import opened ReadyQueues
  import opened SchedulerState
  import opened SchedulerRuns
  import C = DomainClock

  /** At rest with one domain, a thread that runs. */
  ghost predicate Busy(p: Params, s: Sched) {
    Rested(p, s) && Filed(p, s) && Runnable(s.state[s.cur])
  }

  /** The threads that wait for the processor at the priority of the current one, and nobody waits twice. */
  ghost predicate Behind(s: Sched, q: seq<Tcb>) {
    s.cur in s.key && s.key[s.cur] in s.ready && s.ready[s.key[s.cur]] == q && Distinct(q)
  }

  /** The current thread gives up its turn: it yields, or its slice runs out. */
  ghost predicate Passes(s: Sched, ops: seq<Op>) {
    ops == [Yield] || (ops == [Tick] && s.cur in s.slice && s.slice[s.cur] <= 1)
  }

  // ---- One entry ----

  /** The first of the queue that holds the current thread's priority is the first of all. */
  lemma FirstOfAll(p: Params, s: Sched, q: seq<Tcb>)
    requires Busy(p, s) && q != []
    ensures FirstReady(s.ready[s.key[s.cur] := q], 0) == q[0]
  {
    var k := s.key[s.cur];
    var ready := s.ready[k := q];
    OneThread(p.cfg, s.queued, s.key, s.ready, s.cur);
    forall j | j in Full(ready) && j.dom == 0 ensures j.prio <= k.prio {
      if j != k {
        var u := s.ready[j][0];
        assert u in s.ready[j] && PlacedAt(s.queued, s.key, s.ready, u);
      }
    }
    assert k == Key(0, k.prio) && IsHighest(Full(ready), 0, k.prio);
    FirstReadyIs(ready, 0, k.prio);
  }

  /** What giving up the turn leaves for schedule(). */
  lemma Lined(p: Params, s: Sched, ops: seq<Op>, q: seq<Tcb>)
    requires Busy(p, s) && Behind(s, q) && Passes(s, ops)
    ensures Steps(p, s, ops) ==
      s.(slice := if ops == [Tick] then s.slice[s.cur := p.timeSlice] else s.slice, queued := s.queued[s.cur := true],
         ready := s.ready[s.key[s.cur] := q + [s.cur]], action := ChooseNewThread)
  {
    OneThread(p.cfg, s.queued, s.key, s.ready, s.cur);
    assert ops[1..] == [];
    assert Steps(p, s, ops) == Apply(p, s, ops[0]);
  }

  /** schedule() with the turn given up picks the first of the queue. */
  lemma Picked(p: Params, s: Sched, s1: Sched, q: seq<Tcb>)
    requires Busy(p, s) && q != [] && Distinct(q)
    requires s1 == s.(slice := s1.slice, queued := s.queued[s.cur := true], ready := s.ready[s.key[s.cur] := q],
                      action := ChooseNewThread)
    requires s1.slice.Keys == s.slice.Keys && q[0] in s.key && s.key[q[0]] == s.key[s.cur]
    requires q[0] != s.cur ==> s.queued[q[0]]
    ensures Known(p, s1) && Schedule(p, s1) ==
      s.(cur := q[0], slice := s1.slice, queued := s.queued[s.cur := true][q[0] := false],
         ready := s.ready[s.key[s.cur] := q[1..]], action := ResumeCurrentThread)
  {
    FirstOfAll(p, s, q);
    Chooses(p, s1, q[0]);
    WithoutAt(q, 0);
    assert q[..0] + q[1..] == q[1..];
    TakenFromQueue(s1, q[0], s.key[s.cur], q[1..]);
    PutTwice(s.ready, s.key[s.cur], q, q[1..]);
  }

  lemma Chooses(p: Params, s: Sched, t: Tcb)
    requires Known(p, s) && p.cfg.numDomains == 1 && s.action.ChooseNewThread? && s.queued[s.cur]
    requires t == FirstReady(s.ready, 0) && t in s.state
    ensures Schedule(p, s) == Dequeue(s, t).(cur := t, action := ResumeCurrentThread)
  {
    assert Enqueue(s, s.cur) == s;
    assert ChooseThread(p, s) == Dequeue(s, t).(cur := t);
  }

  lemma PutTwice(ready: Ready, k: Key, a: seq<Tcb>, b: seq<Tcb>)
    ensures ready[k := a][k := b] == ready[k := b]
  {
  }

  lemma TakenFromQueue(s: Sched, t: Tcb, k: Key, rest: seq<Tcb>)
    requires t in s.key && s.key[t] == k && k in s.ready && Without(s.ready[k], t) == rest
    requires t in s.queued && s.queued[t]
    ensures Dequeue(s, t) == s.(queued := s.queued[t := false], ready := s.ready[k := rest])
  {
  }

  /** Where everybody stands in the queue: under the key of the current thread, queued, runnable, and not current. */
  lemma Lines(p: Params, s: Sched, q: seq<Tcb>)
    requires Busy(p, s) && Behind(s, q)
    ensures forall u: Tcb :: u in q ==>
      u in s.key && s.key[u] == s.key[s.cur] && u in s.queued && s.queued[u] && u in s.state && Runnable(s.state[u])
    ensures s.cur !in q && !s.queued[s.cur]
  {
    forall u: Tcb | u in q
      ensures u in s.key && s.key[u] == s.key[s.cur] && u in s.queued && s.queued[u] && u in s.state
      ensures Runnable(s.state[u])
    {
      assert PlacedAt(s.queued, s.key, s.ready, u);
      assert Settled(s, u);
    }
  }

  lemma DistinctTail(b: Tcb, rest: seq<Tcb>, t: Tcb)
    requires Distinct([b] + rest) && t !in [b] + rest
    ensures Distinct([b] + rest + [t]) && Distinct(rest + [t])
  {
    var q := [b] + rest + [t];
    assert forall i :: 0 <= i < |rest + [t]| ==> (rest + [t])[i] == q[i + 1];
  }

  /** A thread whose slice runs out, or that yields, goes behind all others of its priority, and the first of them runs;
      no other queue changes. */
  lemma TurnPasses(p: Params, s: Sched, ops: seq<Op>, b: Tcb, rest: seq<Tcb>)
    requires Busy(p, s) && Behind(s, [b] + rest) && Passes(s, ops)
    ensures var s' := Entry(p, s, ops);
      && s'.cur == b && s'.ready == s.ready[s.key[s.cur] := rest + [s.cur]] && s'.key == s.key
      && b in s.state && s'.state == (if s.state[b] == Restart then s.state[b := Running] else s.state)
      && s'.slice == if ops == [Tick] then s.slice[s.cur := p.timeSlice] else s.slice
  {
    assert b in [b] + rest;
    Lines(p, s, [b] + rest);
    DistinctTail(b, rest, s.cur);
    Handed(p, s, ops, b, rest);
  }

  lemma Handed(p: Params, s: Sched, ops: seq<Op>, b: Tcb, rest: seq<Tcb>)
    requires Busy(p, s) && Behind(s, [b] + rest) && Passes(s, ops) && Distinct([b] + rest + [s.cur])
    requires b in s.key && s.key[b] == s.key[s.cur] && b in s.queued && s.queued[b]
    ensures var s1 := Steps(p, s, ops);
      Known(p, s1) && Schedule(p, s1) ==
      s.(cur := b, slice := if ops == [Tick] then s.slice[s.cur := p.timeSlice] else s.slice,
         queued := s.queued[s.cur := true][b := false], ready := s.ready[s.key[s.cur] := rest + [s.cur]],
         action := ResumeCurrentThread)
  {
    var q := [b] + rest + [s.cur];
    Lined(p, s, ops, [b] + rest);
    Picked(p, s, Steps(p, s, ops), q);
    assert q[1..] == rest + [s.cur];
  }

  /** With nobody behind it, the thread gets its turn again. */
  lemma TurnReturns(p: Params, s: Sched, ops: seq<Op>)
    requires Busy(p, s) && Behind(s, []) && Passes(s, ops)
    ensures var s' := Entry(p, s, ops);
      && s'.cur == s.cur && s'.ready == s.ready && s'.key == s.key
      && s'.state == (if s.state[s.cur] == Restart then s.state[s.cur := Running] else s.state)
      && s'.slice == if ops == [Tick] then s.slice[s.cur := p.timeSlice] else s.slice
  {
    Lined(p, s, ops, []);
    assert [] + [s.cur] == [s.cur] && [s.cur][1..] == [];
    Picked(p, s, Steps(p, s, ops), [s.cur]);
    assert s.ready[s.key[s.cur] := []] == s.ready;
  }

  /** A tick within the slice counts it down, and nothing else. */
  lemma SliceCounts(p: Params, s: Sched)
    requires Busy(p, s) && s.slice[s.cur] > 1
    ensures var s' := Entry(p, s, [Tick]);
      && s'.cur == s.cur && s'.ready == s.ready && s'.key == s.key
      && s'.state == (if s.state[s.cur] == Restart then s.state[s.cur := Running] else s.state)
      && s'.slice == s.slice[s.cur := s.slice[s.cur] - 1]
  {
    assert [Tick][1..] == [];
    assert Steps(p, s, [Tick]) == Apply(p, s, Tick);
    TickWithin(p, s);
  }

  lemma TickWithin(p: Params, s: Sched)
    requires Busy(p, s) && s.slice[s.cur] > 1
    ensures TimerTick(p, s) == s.(slice := s.slice[s.cur := s.slice[s.cur] - 1])
  {
  }

  // ---- Runs of entries ----

  /** Entries in which the current thread yields or a tick comes in. */
  ghost predicate TicksAndYields(entries: seq<seq<Op>>) {
    forall ops :: ops in entries ==> ops == [Tick] || ops == [Yield]
  }

  /** How often a turn was given up. */
  ghost function Turns(p: Params, s: Sched, entries: seq<seq<Op>>): nat
    decreases |entries|
  {
    if entries == [] then 0
    else (if Passes(s, entries[0]) then 1 else 0) + Turns(p, Entry(p, s, entries[0]), entries[1..])
  }

  datatype Side = Front | Rear

  ghost predicate RingAt(side: Side, p: Params, s: Sched, ring: seq<Tcb>) {
    match side
    case Front => ring != [] && ring[0] == s.cur && Busy(p, s)
    case Rear => ring != [] && Behind(s, ring[1..])
  }

  /** The current thread and those behind it. */
  ghost predicate Ring(p: Params, s: Sched, ring: seq<Tcb>) {
    ring != [] && forall side: Side :: RingAt(side, p, s, ring)
  }

  lemma RingMeans(p: Params, s: Sched, ring: seq<Tcb>)
    requires Ring(p, s, ring)
    ensures ring[0] == s.cur && Busy(p, s) && Behind(s, ring[1..])
  {
    assert RingAt(Front, p, s, ring) && RingAt(Rear, p, s, ring);
  }

  function Rotated(ring: seq<Tcb>): (r: seq<Tcb>)
    requires ring != []
  {
    ring[1..] + ring[..1]
  }

  lemma {:induction false} StaysBusy(p: Params, s: Sched, ops: seq<Op>)
    requires Busy(p, s) && (ops == [Tick] || ops == [Yield])
    ensures var s' := Entry(p, s, ops); Rested(p, s') && Filed(p, s')
  {
    TurnAllowed(p, s, ops);
    StepsKeep(p, s, ops);
    EntryRests(p, s, ops);
  }

  lemma {:induction false} TurnAllowed(p: Params, s: Sched, ops: seq<Op>)
    requires Busy(p, s) && (ops == [Tick] || ops == [Yield])
    ensures AllAllowed(p, s, ops)
  {
    assert ops[1..] == [];
  }

  lemma {:induction false} EntryRests(p: Params, s: Sched, ops: seq<Op>)
    requires Inv(p, Steps(p, s, ops), {}) && Filed(p, Steps(p, s, ops))
    ensures Rested(p, Entry(p, s, ops)) && Filed(p, Entry(p, s, ops))
  {
    EntryEnds(p, Steps(p, s, ops));
  }

  lemma EntryEnds(p: Params, s: Sched)
    requires Inv(p, s, {}) && Filed(p, s)
    ensures Known(p, s) && Rested(p, Activated(Schedule(p, s))) && Filed(p, Activated(Schedule(p, s)))
  {
    ScheduleRests(p, s);
    CurrentCanRun(p, Schedule(p, s));
    ScheduleFiles(p, s);
    FiledState(p, Schedule(p, s), Activated(Schedule(p, s)));
  }

  /** One entry turns the ring by one thread, or leaves it. */
  lemma Advances(p: Params, s: Sched, ring: seq<Tcb>, ops: seq<Op>)
    requires Ring(p, s, ring) && (ops == [Tick] || ops == [Yield])
    ensures Ring(p, Entry(p, s, ops), if Passes(s, ops) then Rotated(ring) else ring)
  {
    RingMeans(p, s, ring);
    if !Passes(s, ops) {
      GoesOn(p, s, ring, ring[1..]);
    } else {
      Turned(p, s, ring, ops);
    }
  }

  lemma Turned(p: Params, s: Sched, ring: seq<Tcb>, ops: seq<Op>)
    requires ring != [] && ring[0] == s.cur && Busy(p, s) && Behind(s, ring[1..]) && Passes(s, ops)
    ensures Ring(p, Entry(p, s, ops), Rotated(ring))
  {
    if |ring| == 1 {
      assert ring[1..] == [] && Rotated(ring) == ring;
      ComesBack(p, s, ops);
      assert ring == [s.cur];
    } else {
      assert ring[1..] == [ring[1]] + ring[2..];
      assert Rotated(ring) == [ring[1]] + (ring[2..] + [s.cur]);
      PassedOn(p, s, ops, ring[1], ring[2..]);
    }
  }

  lemma RingIs(p: Params, s: Sched, ring: seq<Tcb>, q: seq<Tcb>)
    requires ring == [s.cur] + q && Busy(p, s) && Behind(s, q)
    ensures Ring(p, s, ring)
  {
    assert ring[1..] == q;
  }

  lemma GoesOn(p: Params, s: Sched, ring: seq<Tcb>, q: seq<Tcb>)
    requires Busy(p, s) && Behind(s, q) && ring == [s.cur] + q && !Passes(s, [Tick])
    ensures Ring(p, Entry(p, s, [Tick]), ring)
  {
    StaysBusy(p, s, [Tick]);
    SliceCounts(p, s);
    RingIs(p, Entry(p, s, [Tick]), ring, q);
  }

  lemma ComesBack(p: Params, s: Sched, ops: seq<Op>)
    requires Busy(p, s) && Behind(s, []) && Passes(s, ops)
    ensures Ring(p, Entry(p, s, ops), [s.cur])
  {
    StaysBusy(p, s, ops);
    TurnReturns(p, s, ops);
    RingIs(p, Entry(p, s, ops), [s.cur], []);
  }

  lemma PassedOn(p: Params, s: Sched, ops: seq<Op>, b: Tcb, rest: seq<Tcb>)
    requires Busy(p, s) && Behind(s, [b] + rest) && Passes(s, ops)
    ensures Ring(p, Entry(p, s, ops), [b] + (rest + [s.cur]))
  {
    StaysBusy(p, s, ops);
    Lines(p, s, [b] + rest);
    DistinctTail(b, rest, s.cur);
    TurnPasses(p, s, ops, b, rest);
    assert b in [b] + rest;
    RingIs(p, Entry(p, s, ops), [b] + (rest + [s.cur]), rest + [s.cur]);
  }

  ghost predicate InTurnAt(side: Side, p: Params, s: Sched, ring: seq<Tcb>, entries: seq<seq<Op>>) {
    ring != [] ==> Run(p, s, entries).cur == ring[Turns(p, s, entries) % |ring|]
  }

  ghost predicate InTurn(p: Params, s: Sched, ring: seq<Tcb>, entries: seq<seq<Op>>) {
    forall side: Side :: InTurnAt(side, p, s, ring, entries)
  }

  /** Over any series of ticks and yields the threads of the ring run in turn: after so many turns given up it is the
      thread so many places further round. */
  lemma {:induction false} RunsInTurn(p: Params, s: Sched, ring: seq<Tcb>, entries: seq<seq<Op>>)
    requires Ring(p, s, ring) && TicksAndYields(entries)
    ensures Run(p, s, entries).cur == ring[Turns(p, s, entries) % |ring|]
  {
    AllInTurn(p, s, ring, entries);
    assert InTurnAt(Front, p, s, ring, entries);
  }

  lemma {:induction false} AllInTurn(p: Params, s: Sched, ring: seq<Tcb>, entries: seq<seq<Op>>)
    requires Ring(p, s, ring) && TicksAndYields(entries)
    ensures InTurn(p, s, ring, entries)
    decreases |entries|
  {
    if entries == [] {
      NoneInTurn(p, s, ring);
    } else {
      var s1, ring' := TurnOnce(p, s, ring, entries);
      AllInTurn(p, s1, ring', entries[1..]);
    }
  }

  lemma {:induction false} NoneInTurn(p: Params, s: Sched, ring: seq<Tcb>)
    requires Ring(p, s, ring)
    ensures InTurn(p, s, ring, [])
  {
    RingMeans(p, s, ring);
  }

  lemma {:induction false} TurnOnce(p: Params, s: Sched, ring: seq<Tcb>, entries: seq<seq<Op>>)
    returns (s1: Sched, ring': seq<Tcb>)
    requires Ring(p, s, ring) && TicksAndYields(entries) && entries != []
    ensures Ring(p, s1, ring') && TicksAndYields(entries[1..])
    ensures InTurn(p, s1, ring', entries[1..]) ==> InTurn(p, s, ring, entries)
  {
    assert entries[0] in entries;
    s1, ring' := Entry(p, s, entries[0]), if Passes(s, entries[0]) then Rotated(ring) else ring;
    Advances(p, s, ring, entries[0]);
    TailTicks(entries);
    TurnedAt(ring, Passes(s, entries[0]), Turns(p, s1, entries[1..]));
    if InTurn(p, s1, ring', entries[1..]) {
      assert InTurnAt(Front, p, s1, ring', entries[1..]);
    }
  }

  lemma TailTicks(entries: seq<seq<Op>>)
    requires TicksAndYields(entries) && entries != []
    ensures TicksAndYields(entries[1..])
  {
    forall ops | ops in entries[1..] ensures ops == [Tick] || ops == [Yield] {
      assert ops in entries;
    }
  }

  lemma TurnedAt(ring: seq<Tcb>, passes: bool, m: nat)
    requires ring != []
    ensures var ring' := if passes then Rotated(ring) else ring;
      |ring'| == |ring| && ring'[m % |ring|] == ring[((if passes then 1 else 0) + m) % |ring|]
  {
    if passes {
      C.Wraps(m, |ring|);
      assert 1 + m == m + 1;
    }
  }

  /** Entries each of which gives up the turn. */
  ghost predicate AllPass(p: Params, s: Sched, entries: seq<seq<Op>>)
    decreases |entries|
  {
    entries != [] ==> Passes(s, entries[0]) && AllPass(p, Entry(p, s, entries[0]), entries[1..])
  }

  lemma {:induction false} PassesCount(p: Params, s: Sched, entries: seq<seq<Op>>)
    requires AllPass(p, s, entries)
    ensures TicksAndYields(entries) && Turns(p, s, entries) == |entries|
    decreases |entries|
  {
    if entries != [] {
      PassesCount(p, Entry(p, s, entries[0]), entries[1..]);
      assert entries == [entries[0]] + entries[1..];
    }
  }

  /** So each of the ready threads of the highest priority gets a turn in as many such entries as they are. */
  lemma {:induction false} EverybodyRuns(p: Params, s: Sched, ring: seq<Tcb>, entries: seq<seq<Op>>)
    requires Ring(p, s, ring) && AllPass(p, s, entries)
    ensures Run(p, s, entries).cur == ring[|entries| % |ring|]
  {
    PassesCount(p, s, entries);
    RunsInTurn(p, s, ring, entries);
  }

  // ---- How long a turn may take ----

  ghost predicate Sliced(s: Sched, ring: seq<Tcb>, most: nat) {
    forall t: Tcb :: t in ring ==> t in s.slice && s.slice[t] <= most
  }

  ghost predicate SoonAt(side: Side, p: Params, s: Sched, n: nat) {
    n < p.timeSlice * Turns(p, s, Ticks(n)) + Remaining(s)
  }

  ghost predicate Soon(p: Params, s: Sched, n: nat) {
    forall side: Side :: SoonAt(side, p, s, n)
  }

  /** Of ticks alone, no more than a time slice passes between two turns. */
  lemma {:induction false} TurnsKeepComing(p: Params, s: Sched, ring: seq<Tcb>, n: nat)
    requires Ring(p, s, ring) && p.timeSlice > 0 && Sliced(s, ring, p.timeSlice)
    ensures n < p.timeSlice * Turns(p, s, Ticks(n)) + Remaining(s)
  {
    AllSoon(p, s, ring, n);
    assert SoonAt(Front, p, s, n);
  }

  lemma {:induction false} AllSoon(p: Params, s: Sched, ring: seq<Tcb>, n: nat)
    requires Ring(p, s, ring) && p.timeSlice > 0 && Sliced(s, ring, p.timeSlice)
    ensures Soon(p, s, n)
    decreases n
  {
    if n == 0 {
      assert Ticks(0) == [];
    } else {
      var s1, ring' := TickOnce(p, s, ring, n);
      AllSoon(p, s1, ring', n - 1);
    }
  }

  lemma {:induction false} TickOnce(p: Params, s: Sched, ring: seq<Tcb>, n: nat) returns (s1: Sched, ring': seq<Tcb>)
    requires Ring(p, s, ring) && p.timeSlice > 0 && Sliced(s, ring, p.timeSlice) && n > 0
    ensures Ring(p, s1, ring') && Sliced(s1, ring', p.timeSlice)
    ensures Soon(p, s1, n - 1) ==> Soon(p, s, n)
  {
    s1, ring' := Entry(p, s, [Tick]), if Passes(s, [Tick]) then Rotated(ring) else ring;
    Advances(p, s, ring, [Tick]);
    TurnsOfTicks(p, s, n);
    if Passes(s, [Tick]) { SlicedAfter(p, s, ring); } else { CountsDown(p, s, ring); }
    if Soon(p, s1, n - 1) {
      assert SoonAt(Front, p, s1, n - 1);
      SoonerBy(p, s, s1, n);
    }
  }

  lemma {:induction false} SoonerBy(p: Params, s: Sched, s1: Sched, n: nat)
    requires n > 0 && p.timeSlice > 0 && n - 1 < p.timeSlice * Turns(p, s1, Ticks(n - 1)) + Remaining(s1)
    requires Turns(p, s, Ticks(n)) == (if Passes(s, [Tick]) then 1 else 0) + Turns(p, s1, Ticks(n - 1))
    requires if Passes(s, [Tick]) then Remaining(s) == 1 && Remaining(s1) <= p.timeSlice
             else Remaining(s1) == Remaining(s) - 1
    ensures Soon(p, s, n)
  {
    if Passes(s, [Tick]) {
      OneMore(p.timeSlice, Turns(p, s1, Ticks(n - 1)), n, Remaining(s1));
    }
  }

  lemma {:induction false} TurnsOfTicks(p: Params, s: Sched, n: nat)
    requires n > 0
    ensures Turns(p, s, Ticks(n)) ==
            (if Passes(s, [Tick]) then 1 else 0) + Turns(p, Entry(p, s, [Tick]), Ticks(n - 1))
  {
    assert Ticks(n)[0] == [Tick] && Ticks(n)[1..] == Ticks(n - 1);
  }

  lemma CountsDown(p: Params, s: Sched, ring: seq<Tcb>)
    requires Ring(p, s, ring) && !Passes(s, [Tick]) && Sliced(s, ring, p.timeSlice)
    ensures var s1 := Entry(p, s, [Tick]); Sliced(s1, ring, p.timeSlice) && Remaining(s1) == Remaining(s) - 1
  {
    RingMeans(p, s, ring);
    SliceCounts(p, s);
  }

  lemma OneMore(most: nat, k: nat, n: nat, left: nat)
    requires n < most * k + left + 1 && left <= most
    ensures n < most * (k + 1) + 1
  {
    assert most * (k + 1) == most * k + most;
  }

  function Ticks(n: nat): seq<seq<Op>> {
    seq(n, _ => [Tick])
  }

  /** Ticks until the current thread's turn is over. */
  ghost function Remaining(s: Sched): nat {
    if s.cur in s.slice && s.slice[s.cur] > 1 then s.slice[s.cur] else 1
  }

  lemma SlicedAfter(p: Params, s: Sched, ring: seq<Tcb>)
    requires Ring(p, s, ring) && Passes(s, [Tick]) && Sliced(s, ring, p.timeSlice)
    requires Ring(p, Entry(p, s, [Tick]), Rotated(ring)) && p.timeSlice > 0
    ensures Sliced(Entry(p, s, [Tick]), Rotated(ring), p.timeSlice) && Remaining(s) == 1
    ensures Remaining(Entry(p, s, [Tick])) <= p.timeSlice
  {
    RingMeans(p, s, ring);
    SliceRenewed(p, s, ring[1..]);
    FrontSliced(p, Entry(p, s, [Tick]), Rotated(ring));
  }

  lemma FrontSliced(p: Params, s: Sched, ring: seq<Tcb>)
    requires Ring(p, s, ring) && Sliced(s, ring, p.timeSlice) && p.timeSlice > 0
    ensures Remaining(s) <= p.timeSlice
  {
    assert RingAt(Front, p, s, ring) && ring[0] in ring;
  }

  lemma SliceRenewed(p: Params, s: Sched, q: seq<Tcb>)
    requires Busy(p, s) && Behind(s, q) && Passes(s, [Tick])
    ensures Entry(p, s, [Tick]).slice == s.slice[s.cur := p.timeSlice]
  {
    if q == [] {
      TurnReturns(p, s, [Tick]);
    } else {
      assert q == [q[0]] + q[1..];
      TurnPasses(p, s, [Tick], q[0], q[1..]);
    }
  }
}
