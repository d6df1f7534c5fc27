/** The domain schedule as a clock: domain, table index and remaining time depend on the tick count alone (thread.c). */
module DomainClock {
  import opened LinkedQueue
  import opened PriorityBitmap
  import opened ReadyQueues
  import opened SchedulerState
  import opened SchedulerRuns

  ghost function Total(table: seq<Slot>): nat {
    if table == [] then 0 else table[0].length + Total(table[1..])
  }

  ghost predicate Positive(table: seq<Slot>) {
    forall i :: 0 <= i < |table| ==> table[i].length > 0
  }

  /** The table entry in force after `r` ticks of a round. */
  ghost function IndexAt(table: seq<Slot>, r: nat): (i: nat)
    requires r < Total(table)
    ensures i < |table|
  {
    if r < table[0].length then 0 else 1 + IndexAt(table[1..], r - table[0].length)
  }

  /** The ticks left of that entry. */
  ghost function LeftAt(table: seq<Slot>, r: nat): (left: nat)
    requires r < Total(table)
    ensures 0 < left <= table[IndexAt(table, r)].length
  {
    if r < table[0].length then table[0].length - r else LeftAt(table[1..], r - table[0].length)
  }

  /** One more tick within a round. */
  lemma {:induction false} NextTick(table: seq<Slot>, r: nat)
    requires Positive(table) && r < Total(table)
    ensures LeftAt(table, r) > 1 ==>
      r + 1 < Total(table) && IndexAt(table, r + 1) == IndexAt(table, r) && LeftAt(table, r + 1) == LeftAt(table, r) - 1
    ensures LeftAt(table, r) == 1 && IndexAt(table, r) + 1 < |table| ==>
      r + 1 < Total(table) && IndexAt(table, r + 1) == IndexAt(table, r) + 1
      && LeftAt(table, r + 1) == table[IndexAt(table, r) + 1].length
    ensures LeftAt(table, r) == 1 && IndexAt(table, r) + 1 == |table| ==> r + 1 == Total(table)
  {
    if r < table[0].length {
      if r + 1 == table[0].length && |table| > 1 {
        assert table[1..][0] == table[1];
        assert Total(table[1..]) >= table[1].length;
      }
    } else {
      assert forall i :: 0 <= i < |table[1..]| ==> table[1..][i] == table[i + 1];
      NextTick(table[1..], r - table[0].length);
    }
  }

  /** ksCurDomain, ksDomScheduleIdx and ksDomainTime are those of the tick count. */
  ghost predicate OnTime(p: Params, s: Sched, ticks: nat) {
    && p.cfg.numDomains > 1 && ParamsOk(p) && Total(p.domains) > 0
    && s.domainIdx == IndexAt(p.domains, ticks % Total(p.domains))
    && s.domainTime == LeftAt(p.domains, ticks % Total(p.domains))
    && s.curDomain == p.domains[s.domainIdx].domain
  }

  /** A tick has been taken off the clock, and schedule() is due if that was the last of the entry. */
  ghost predicate Ticked(p: Params, s: Sched, ticks: nat) {
    && p.cfg.numDomains > 1 && ParamsOk(p) && Total(p.domains) > 0
    && s.domainIdx == IndexAt(p.domains, ticks % Total(p.domains))
    && s.domainTime == LeftAt(p.domains, ticks % Total(p.domains)) - 1
    && s.curDomain == p.domains[s.domainIdx].domain
    && (s.domainTime == 0 ==> s.action.ChooseNewThread?)
  }

  lemma Wraps(n: nat, m: nat)
    requires m > 0
    ensures (n + 1) % m == if n % m + 1 == m then 0 else n % m + 1
  {
    var q, r := n / m, n % m;
    assert n == q * m + r;
    if r + 1 == m {
      assert (q + 1) * m == q * m + m;
      Unique((n + 1) / m, (n + 1) % m, q + 1, 0, m);
    } else {
      Unique((n + 1) / m, (n + 1) % m, q, r + 1, m);
    }
  }

  lemma AtLeastOne(d: int, m: int)
    requires m > 0
    ensures d > 0 ==> d * m >= m
  {
  }

  /** Quotient and remainder are unique. */
  lemma Unique(q: nat, r: nat, q': nat, r': nat, m: nat)
    requires r < m && r' < m && q * m + r == q' * m + r'
    ensures r == r'
  {
    var d := q - q';
    assert d * m == q * m - q' * m;
    AtLeastOne(d, m);
    AtLeastOne(-d, m);
  }

  /** The tick never takes ksDomainTime below zero. */
  lemma TickCountsDown(p: Params, s: Sched, ticks: nat)
    requires OnTime(p, s, ticks) && Known(p, s)
    ensures Ticked(p, TimerTick(p, s), ticks)
  {
  }

  ghost predicate SameClock(s: Sched, s': Sched) {
    s'.domainIdx == s.domainIdx && s'.domainTime == s.domainTime && s'.curDomain == s.curDomain
  }

  lemma SetKeyLeavesClock(s: Sched, t: Tcb, k: Key)
    requires t in s.state
    ensures SameClock(s, SetKey(s, t, k))
  {
  }

  lemma WakeLeavesClock(p: Params, s: Sched, t: Tcb, onSame: bool)
    requires t in s.key && s.cur in s.key
    ensures SameClock(s, PossibleSwitchTo(p, s, t, onSame))
  {
  }

  lemma {:induction false} WakeEachLeavesClock(s: Sched, ts: seq<Tcb>)
    ensures SameClock(s, WakeEach(s, ts))
    decreases |ts|
  {
    if ts != [] {
      WakeEachLeavesClock(WakeOne(s, ts[0]), ts[1..]);
    }
  }

  /** No step but the tick touches the clock. */
  lemma StepLeavesClock(p: Params, s: Sched, op: Op)
    requires !op.Tick?
    ensures SameClock(s, Apply(p, s, op))
  {
    if Known(p, s) && Names(s, op) {
      match op
      case Stop(t, ts) =>
      case Wake(t, ts, onSame) => WakeLeavesClock(p, SetThreadState(s, t, ts), t, onSame);
      case WakeAll(ts) => WakeEachLeavesClock(s, ts);
      case Suspend(t) =>
      case RestartThread(t) => WakeLeavesClock(p, WakeOne(s, t), t, false);
      case Mark(t, ts) =>
      case Reschedule =>
      case SetPriority(t, prio) => SetKeyLeavesClock(s, t, Key(s.key[t].dom, prio));
      case SetDomain(t, dom) => SetKeyLeavesClock(s, t, Key(dom, s.key[t].prio));
      case Yield =>
    }
  }

  lemma ScheduleClock(p: Params, s: Sched)
    requires ParamsOk(p) && s.cur in s.state && p.cfg.numDomains > 1
    ensures SameClock(if s.action.ChooseNewThread? && s.domainTime == 0 then NextDomain(p, s) else s, Schedule(p, s))
  {
    assert SameClock(s, Requeued(s));
  }

  /** schedule() brings the clock on to the next entry of the table when the current one is used up. */
  lemma ScheduleKeepsTime(p: Params, s: Sched, ticks: nat)
    requires s.cur in s.state && Ticked(p, s, ticks)
    ensures OnTime(p, Schedule(p, s), ticks + 1)
  {
    ScheduleClock(p, s);
    NextTick(p.domains, ticks % Total(p.domains));
    Wraps(ticks, Total(p.domains));
  }

  lemma ScheduleLeavesClock(p: Params, s: Sched, ticks: nat)
    requires s.cur in s.state && OnTime(p, s, ticks)
    ensures OnTime(p, Schedule(p, s), ticks)
  {
    ScheduleClock(p, s);
  }

  /** A timer interrupt is the last step of its kernel entry. */
  ghost predicate TickLast(ops: seq<Op>) {
    forall i :: 0 <= i < |ops| - 1 ==> !ops[i].Tick?
  }

  ghost function TicksOf(ops: seq<Op>): nat {
    if ops != [] && ops[|ops| - 1].Tick? then 1 else 0
  }

  ghost function TickCount(entries: seq<seq<Op>>): nat {
    if entries == [] then 0 else TicksOf(entries[0]) + TickCount(entries[1..])
  }

  lemma {:induction false} StepsKeepTime(p: Params, s: Sched, ops: seq<Op>, ticks: nat)
    requires OnTime(p, s, ticks) && TickLast(ops) && StepsKnown(p, s, ops)
    ensures if TicksOf(ops) == 1 then Ticked(p, Steps(p, s, ops), ticks) else OnTime(p, Steps(p, s, ops), ticks)
    decreases |ops|
  {
    if ops != [] {
      if ops[0].Tick? {
        TickCountsDown(p, s, ticks);
        assert ops[1..] == [];
      } else {
        StepLeavesClock(p, s, ops[0]);
        StepsKeepTime(p, Apply(p, s, ops[0]), ops[1..], ticks);
      }
    }
  }

  /** The threads the steps name exist throughout. */
  ghost predicate StepsKnown(p: Params, s: Sched, ops: seq<Op>)
    decreases |ops|
  {
    Known(p, s) && (ops != [] ==> StepsKnown(p, Apply(p, s, ops[0]), ops[1..]))
  }

  ghost predicate RunKnown(p: Params, s: Sched, entries: seq<seq<Op>>)
    decreases |entries|
  {
    entries != [] ==>
      TickLast(entries[0]) && StepsKnown(p, s, entries[0]) && RunKnown(p, Entry(p, s, entries[0]), entries[1..])
  }

  lemma {:induction false} StepsEndKnown(p: Params, s: Sched, ops: seq<Op>)
    requires StepsKnown(p, s, ops)
    ensures Known(p, Steps(p, s, ops))
    decreases |ops|
  {
    if ops != [] {
      StepsEndKnown(p, Apply(p, s, ops[0]), ops[1..]);
    }
  }

  lemma {:induction false} EntryKeepsTime(p: Params, s: Sched, ops: seq<Op>, ticks: nat)
    requires OnTime(p, s, ticks) && TickLast(ops) && StepsKnown(p, s, ops)
    ensures OnTime(p, Entry(p, s, ops), ticks + TicksOf(ops))
  {
    StepsKeepTime(p, s, ops, ticks);
    StepsEndKnown(p, s, ops);
    if TicksOf(ops) == 1 {
      ScheduleKeepsTime(p, Steps(p, s, ops), ticks);
    } else {
      ScheduleLeavesClock(p, Steps(p, s, ops), ticks);
    }
  }

  /** Whatever the kernel does between ticks, at every return from schedule() the domain, the table index and the
      remaining time are those of the number of ticks so far. */
  lemma {:induction false} RunKeepsTime(p: Params, s: Sched, entries: seq<seq<Op>>, ticks: nat)
    requires OnTime(p, s, ticks) && RunKnown(p, s, entries)
    ensures OnTime(p, Run(p, s, entries), ticks + TickCount(entries))
    decreases |entries|
  {
    if entries != [] {
      EntryKeepsTime(p, s, entries[0], ticks);
      RunKeepsTime(p, Entry(p, s, entries[0]), entries[1..], ticks + TicksOf(entries[0]));
    }
  }

  /** The state create_initial_thread leaves behind is on time with no tick taken. */
  lemma BootIsOnTime(p: Params, s: Sched)
    requires ParamsOk(p) && p.cfg.numDomains > 1
    requires s.domainIdx == 0 && s.curDomain == p.domains[0].domain && s.domainTime == p.domains[0].length
    ensures OnTime(p, s, 0)
  {
  }
}
