/** The profiler's double-hashed table of sampled addresses (profiler.c, the version without checkpoints). */
module Probing {

  // ---- Arithmetic of the probe sequence ----

  ghost predicate IsPrime(p: nat) {
    p >= 2 && forall d: nat :: 2 <= d < p ==> p % d != 0
  }

  lemma DividesDifference(p: nat, a: int, b: int)
    requires p > 0 && a % p == 0 && b % p == 0
    ensures (a - b) % p == 0
  {
    var x, y := a / p, b / p;
    assert a - b == (x - y) * p;
    MultipleDivides(x - y, p);
  }

  lemma MultipleDivides(k: int, p: nat)
    requires p > 0
    ensures (k * p) % p == 0
  {
    var q, r := (k * p) / p, (k * p) % p;
    assert (k - q) * p == r;
    SmallMultiple(k - q, p);
  }

  lemma SmallMultiple(d: int, p: nat)
    requires p > 0 && 0 <= d * p < p
    ensures d == 0
  {
  }

  /** A prime divides no product of two smaller positive numbers. */
  lemma {:induction false} Euclid(p: nat, a: nat, b: nat)
    requires IsPrime(p) && 0 < a < p && 0 < b < p
    ensures (a * b) % p != 0
    decreases a
  {
    if a > 1 && (a * b) % p == 0 {
      var q, r := p / a, p % a;
      assert p == q * a + r && 0 < r < a;
      assert r * b == b * p - q * (a * b);
      MultipleDivides(b, p);
      MultipleOf(q, a * b, p);
      DividesDifference(p, b * p, q * (a * b));
      Euclid(p, r, b);
      assert false;
    }
  }

  lemma MultipleOf(q: int, n: int, p: nat)
    requires p > 0 && n % p == 0
    ensures (q * n) % p == 0
  {
    var x := n / p;
    assert q * n == (q * x) * p;
    MultipleDivides(q * x, p);
  }

  /** The k-th slot looked at. */
  function Probe(n: nat, start: nat, step: nat, k: nat): (h: nat)
    requires n > 0
    ensures h < n
  {
    if k == 0 then start % n else (Probe(n, start, step, k - 1) + step) % n
  }

  lemma RemainderOff(a: int, n: nat)
    requires n > 0
    ensures (a - a % n) % n == 0
  {
    MultipleDivides(a / n, n);
    assert a - a % n == (a / n) * n;
  }

  lemma {:induction false} ProbeIs(n: nat, start: nat, step: nat, k: nat)
    requires n > 0
    ensures (start + k * step - Probe(n, start, step, k)) % n == 0
  {
    if k == 0 {
      RemainderOff(start, n);
    } else {
      ProbeIs(n, start, step, k - 1);
      NextProbe(n, start, step, k, Probe(n, start, step, k - 1));
    }
  }

  lemma NextProbe(n: nat, start: int, step: int, k: int, h: int)
    requires n > 0 && (start + (k - 1) * step - h) % n == 0
    ensures (start + k * step - (h + step) % n) % n == 0
  {
    var x, q := (start + (k - 1) * step - h) / n, (h + step) / n;
    assert k * step == (k - 1) * step + step;
    assert start + k * step - (h + step) % n == x * n + q * n;
    assert x * n + q * n == (x + q) * n;
    MultipleDivides(x + q, n);
  }

  /** With a prime table size, the first n probes look at different slots. */
  lemma ProbesDiffer(n: nat, start: nat, step: nat, j: nat, k: nat)
    requires IsPrime(n) && 0 < step < n && j < k < n
    ensures Probe(n, start, step, j) != Probe(n, start, step, k)
  {
    if Probe(n, start, step, j) == Probe(n, start, step, k) {
      ProbeIs(n, start, step, j);
      ProbeIs(n, start, step, k);
      var h := Probe(n, start, step, j);
      DividesDifference(n, start + k * step - h, start + j * step - h);
      assert (k - j) * step == k * step - j * step;
      Euclid(n, k - j, step);
      assert false;
    }
  }

  // ---- The size of the table ----

  const MAX_UNIQUE_INSTRUCTIONS: nat := 94349

  const HASH_VAL: nat := 1024

  predicate NoDivisorBelow(p: nat, n: nat) {
    forall d: nat :: 2 <= d < n ==> p % d != 0
  }

  /** None of ten numbers divides `p`. */
  predicate FreeOf(p: nat, d: nat)
    requires d > 0
  {
    && p % d != 0 && p % (d + 1) != 0 && p % (d + 2) != 0 && p % (d + 3) != 0 && p % (d + 4) != 0
    && p % (d + 5) != 0 && p % (d + 6) != 0 && p % (d + 7) != 0 && p % (d + 8) != 0 && p % (d + 9) != 0
  }

  lemma TenMore(p: nat, n: nat)
    requires 2 <= n && NoDivisorBelow(p, n) && FreeOf(p, n)
    ensures NoDivisorBelow(p, n + 10)
  {
    forall d: nat | 2 <= d < n + 10 ensures p % d != 0 {
      assert d < n || d == n || d == n + 1 || d == n + 2 || d == n + 3 || d == n + 4 || d == n + 5 || d == n + 6
        || d == n + 7 || d == n + 8 || d == n + 9;
    }
  }

  lemma HundredMore(p: nat, n: nat)
    requires 2 <= n && NoDivisorBelow(p, n)
    requires FreeOf(p, n) && FreeOf(p, n + 10) && FreeOf(p, n + 20) && FreeOf(p, n + 30) && FreeOf(p, n + 40)
    requires FreeOf(p, n + 50) && FreeOf(p, n + 60) && FreeOf(p, n + 70) && FreeOf(p, n + 80) && FreeOf(p, n + 90)
    ensures NoDivisorBelow(p, n + 100)
  {
    TenMore(p, n);
    TenMore(p, n + 10);
    TenMore(p, n + 20);
    TenMore(p, n + 30);
    TenMore(p, n + 40);
    TenMore(p, n + 50);
    TenMore(p, n + 60);
    TenMore(p, n + 70);
    TenMore(p, n + 80);
    TenMore(p, n + 90);
  }

  /** A composite number has a divisor no greater than its root. */
  lemma TrialDivision(p: nat, n: nat)
    requires 2 <= n <= p && NoDivisorBelow(p, n) && p < n * n
    ensures IsPrime(p)
  {
    forall d: nat | 2 <= d < p ensures p % d != 0 {
      if p % d == 0 {
        Cofactor(d, p / d, n, p);
        MultipleDivides(d, p / d);
      }
    }
  }

  lemma Cofactor(d: nat, e: nat, n: nat, p: nat)
    requires p == d * e && 2 <= d < p && p < n * n && p >= 2
    ensures d < n || 2 <= e < n
  {
    Monotone(d, e, n);
  }

  lemma Monotone(d: nat, e: nat, n: nat)
    ensures d >= n && e >= n ==> d * e >= n * n
  {
    if d >= n && e >= n {
      assert d * e >= n * e >= n * n;
    }
  }

  lemma UpTo102()
    ensures NoDivisorBelow(94349, 102)
  {
    HundredMore(94349, 2);
  }

  lemma UpTo202()
    ensures NoDivisorBelow(94349, 202)
  {
    UpTo102();
    HundredMore(94349, 102);
  }

  lemma UpTo302()
    ensures NoDivisorBelow(94349, 302)
  {
    UpTo202();
    HundredMore(94349, 202);
  }

  lemma TableSizeIsPrime()
    ensures IsPrime(MAX_UNIQUE_INSTRUCTIONS) && HASH_VAL < MAX_UNIQUE_INSTRUCTIONS
  {
    UpTo302();
    TenMore(94349, 302);
    TrialDivision(94349, 312);
  }
}

module Profiler {
  import opened Basics
  import opened Probing

  const WORD: nat := 0x1_0000_0000

  /** profiler_entry_t; the count is a word and wraps around. */
  datatype Entry = Entry(pc: nat, count: nat)

  /** A call with a non-zero address while profiling is enabled, and whether it was counted or dropped. */
  datatype Sample = Sample(pc: nat, kept: bool)

  type Table = seq<Entry>

  function Hash(n: nat, pc: nat): nat
    requires n > 0
  {
    (pc / 4) % n
  }

  function Hash2(pc: nat): nat {
    (pc / 4) % HASH_VAL + 1
  }

  ghost function ProbeOf(n: nat, pc: nat, k: nat): nat
    requires n > 0
  {
    Probe(n, pc / 4, Hash2(pc), k)
  }

  // ---- What the table says about the samples ----

  ghost function Times(log: seq<Sample>, pc: nat): nat {
    if log == [] then 0
    else Times(log[..|log| - 1], pc) + if log[|log| - 1] == Sample(pc, true) then 1 else 0
  }

  ghost function Kept(log: seq<Sample>): nat {
    if log == [] then 0 else Kept(log[..|log| - 1]) + if log[|log| - 1].kept then 1 else 0
  }

  ghost function Value(e: Entry): nat {
    if e.pc != 0 then e.count else 0
  }

  /** The sum profiler_list prints. */
  ghost function Listed(t: Table): nat {
    if t == [] then 0 else Listed(t[..|t| - 1]) + Value(t[|t| - 1])
  }

  ghost function Full(t: Table): set<nat> {
    set i: nat | i < |t| && t[i].pc != 0
  }

  ghost predicate Stored(t: Table, pc: nat) {
    exists i: nat :: i < |t| && t[i].pc == pc
  }

  ghost predicate Passed(t: Table, pc: nat, k: nat)
    requires |t| > 0
  {
    t[ProbeOf(|t|, pc, k)].pc != 0 && t[ProbeOf(|t|, pc, k)].pc != pc
  }

  /** The search for `pc` ends at slot `i` after `k` steps. */
  ghost predicate FoundAt(t: Table, pc: nat, i: nat, k: nat)
    requires |t| > 0
  {
    i < |t| && k < |t| && ProbeOf(|t|, pc, k) == i && forall j: nat :: j < k ==> Passed(t, pc, j)
  }

  ghost predicate EntryOk(t: Table, log: seq<Sample>, i: nat)
    requires i < |t|
  {
    t[i].pc != 0 ==>
      && t[i].count == Times(log, t[i].pc) % WORD
      && exists k: nat :: FoundAt(t, t[i].pc, i, k)
  }

  /** No address is stored twice. */
  ghost predicate Apart(t: Table) {
    forall i: nat, j: nat :: i < j < |t| && t[i].pc != 0 ==> t[i].pc != t[j].pc
  }

  /** No address is stored twice; every stored address is where the search looks for it, with the number of its
      samples; every counted address is stored; and the counts add up. */
  ghost predicate Faithful(t: Table, log: seq<Sample>) {
    && |t| > 0
    && (forall i: nat :: i < |t| ==> EntryOk(t, log, i))
    && Apart(t) && Times(log, 0) == 0 && (forall pc: nat :: pc != 0 && Times(log, pc) > 0 ==> Stored(t, pc))
    && Listed(t) <= Kept(log) && (Kept(log) - Listed(t)) % WORD == 0
  }

  // ---- What one more sample changes ----

  lemma {:induction false} ListedUpdate(t: Table, i: nat, e: Entry)
    requires i < |t|
    ensures Listed(t[i := e]) == Listed(t) - Value(t[i]) + Value(e)
  {
    var l := |t| - 1;
    if i == l {
      assert t[i := e][..l] == t[..l];
    } else {
      assert t[i := e][..l] == t[..l][i := e];
      ListedUpdate(t[..l], i, e);
    }
  }

  lemma OneMore(log: seq<Sample>, s: Sample, pc: nat)
    ensures Times(log + [s], pc) == Times(log, pc) + if s == Sample(pc, true) then 1 else 0
    ensures Kept(log + [s]) == Kept(log) + if s.kept then 1 else 0
  {
    assert (log + [s])[..|log|] == log;
  }

  lemma Wraps(c: nat)
    ensures (c + 1) % WORD == (c % WORD + 1) % WORD
  {
  }

  lemma BumpedEntry(t: Table, log: seq<Sample>, pc: nat, i: nat, j: nat)
    requires Faithful(t, log) && pc != 0 && i < |t| && t[i].pc == pc && j < |t|
    ensures EntryOk(t[i := Entry(pc, (t[i].count + 1) % WORD)], log + [Sample(pc, true)], j)
  {
    assert EntryOk(t, log, i) && EntryOk(t, log, j);
    OneMore(log, Sample(pc, true), pc);
    Wraps(Times(log, pc));
    OneMore(log, Sample(pc, true), t[j].pc);
    if t[j].pc != 0 {
      var k: nat :| FoundAt(t, t[j].pc, j, k);
      SamePcs(t, t[i := Entry(pc, (t[i].count + 1) % WORD)], t[j].pc, j, k);
    }
  }

  /** The sample's entry is there: its count goes up by one, modulo the word size. */
  lemma BumpKeeps(t: Table, log: seq<Sample>, pc: nat, i: nat)
    requires Faithful(t, log) && pc != 0 && i < |t| && t[i].pc == pc
    ensures Faithful(t[i := Entry(pc, (t[i].count + 1) % WORD)], log + [Sample(pc, true)])
  {
    var t', log' := t[i := Entry(pc, (t[i].count + 1) % WORD)], log + [Sample(pc, true)];
    assert EntryOk(t, log, i);
    OneMore(log, Sample(pc, true), 0);
    forall j: nat | j < |t'| ensures EntryOk(t', log', j) {
      BumpedEntry(t, log, pc, i, j);
    }
    forall q: nat | q != 0 && Times(log', q) > 0 ensures Stored(t', q) {
      OneMore(log, Sample(pc, true), q);
      if q != pc {
        assert Stored(t, q);
        var j: nat :| j < |t| && t[j].pc == q;
        assert t'[j].pc == q;
      } else {
        assert t'[i].pc == q;
      }
    }
    ListedUpdate(t, i, t'[i]);
    SumWraps(Listed(t), Kept(log), t[i].count);
  }

  lemma SamePcs(t: Table, t': Table, pc: nat, i: nat, k: nat)
    requires |t| > 0 && |t'| == |t| && FoundAt(t, pc, i, k)
    requires forall j: nat :: j < |t| && t[j].pc != 0 ==> t'[j].pc == t[j].pc
    ensures FoundAt(t', pc, i, k)
  {
    forall j: nat | j < k ensures Passed(t', pc, j) {
      assert Passed(t, pc, j);
    }
  }

  lemma SumWraps(listed: int, kept: int, count: int)
    requires (kept - listed) % WORD == 0 && count >= 0
    ensures (kept + 1 - (listed - count + (count + 1) % WORD)) % WORD == 0
    ensures (count + 1) % WORD <= count + 1
  {
  }

  /** A new entry in the empty slot where the search ended. */
  lemma InsertKeeps(t: Table, log: seq<Sample>, pc: nat, i: nat, k: nat)
    requires Faithful(t, log) && pc != 0 && i < |t| && t[i].pc == 0 && FoundAt(t, pc, i, k)
    ensures Faithful(t[i := Entry(pc, 1)], log + [Sample(pc, true)])
    ensures Full(t[i := Entry(pc, 1)]) == Full(t) + {i} && i !in Full(t)
  {
    var t', log' := t[i := Entry(pc, 1)], log + [Sample(pc, true)];
    NotStored(t, log, pc, i, k);
    OneMore(log, Sample(pc, true), pc);
    OneMore(log, Sample(pc, true), 0);
    forall j: nat | j < |t'| ensures EntryOk(t', log', j) {
      if j == i {
        SamePcs(t, t', pc, i, k);
      } else {
        assert EntryOk(t, log, j);
        OneMore(log, Sample(pc, true), t[j].pc);
        if t[j].pc != 0 {
          var m: nat :| FoundAt(t, t[j].pc, j, m);
          SamePcs(t, t', t[j].pc, j, m);
        }
      }
    }
    forall q: nat | q != 0 && Times(log', q) > 0 ensures Stored(t', q) {
      OneMore(log, Sample(pc, true), q);
      if q != pc {
        assert Stored(t, q);
        var j: nat :| j < |t| && t[j].pc == q;
        assert t'[j].pc == q;
      } else {
        assert t'[i].pc == q;
      }
    }
    ListedUpdate(t, i, t'[i]);
  }

  /** When the search ends at an empty slot the address is stored nowhere. */
  lemma NotStored(t: Table, log: seq<Sample>, pc: nat, i: nat, k: nat)
    requires Faithful(t, log) && pc != 0 && i < |t| && t[i].pc == 0 && FoundAt(t, pc, i, k)
    ensures !Stored(t, pc) && Times(log, pc) == 0
  {
    if Stored(t, pc) {
      var j: nat :| j < |t| && t[j].pc == pc;
      assert EntryOk(t, log, j);
      var m: nat :| FoundAt(t, pc, j, m);
      FoundOnce(t, pc, i, k, j, m);
    }
  }

  lemma FoundOnce(t: Table, pc: nat, i: nat, k: nat, j: nat, m: nat)
    requires |t| > 0 && FoundAt(t, pc, i, k) && FoundAt(t, pc, j, m)
    requires (t[i].pc == 0 || t[i].pc == pc) && (t[j].pc == 0 || t[j].pc == pc)
    ensures i == j
  {
    assert m < k ==> Passed(t, pc, m);
    assert k < m ==> Passed(t, pc, k);
  }

  lemma DropKeeps(t: Table, log: seq<Sample>, pc: nat)
    requires Faithful(t, log)
    ensures Faithful(t, log + [Sample(pc, false)])
  {
    var log' := log + [Sample(pc, false)];
    OneMore(log, Sample(pc, false), 0);
    forall j: nat | j < |t| ensures EntryOk(t, log', j) {
      assert EntryOk(t, log, j);
      OneMore(log, Sample(pc, false), t[j].pc);
    }
    forall q: nat | q != 0 && Times(log', q) > 0 ensures Stored(t, q) {
      OneMore(log, Sample(pc, false), q);
    }
  }

  /** A call with address zero may write a count into an empty slot, where nothing reads it. */
  lemma ZeroKeeps(t: Table, log: seq<Sample>, i: nat, count: nat)
    requires Faithful(t, log) && i < |t| && t[i].pc == 0
    ensures Faithful(t[i := Entry(0, count)], log) && Full(t[i := Entry(0, count)]) == Full(t)
    ensures Listed(t[i := Entry(0, count)]) == Listed(t)
  {
    var t' := t[i := Entry(0, count)];
    forall j: nat | j < |t'| ensures EntryOk(t', log, j) {
      assert EntryOk(t, log, j);
      if t[j].pc != 0 {
        var k: nat :| FoundAt(t, t[j].pc, j, k);
        SamePcs(t, t', t[j].pc, j, k);
      }
    }
    forall q: nat | q != 0 && Times(log, q) > 0 ensures Stored(t', q) {
      assert Stored(t, q);
      var j: nat :| j < |t| && t[j].pc == q;
      assert t'[j].pc == q;
    }
    ListedUpdate(t, i, t'[i]);
  }

  /** The first `k` probes passed `k` different full slots. */
  datatype Hunt = Hunt

  /** A search that has seen `k` slots. */
  ghost predicate Searched(t: Table, pc: nat, k: nat, seen: set<nat>) {
    forall h: Hunt :: SearchedAt(h, t, pc, k, seen)
  }

  ghost predicate SearchedAt(h: Hunt, t: Table, pc: nat, k: nat, seen: set<nat>) {
    SeenAll(t, pc, k, seen)
  }

  lemma SearchMeans(t: Table, pc: nat, k: nat, seen: set<nat>)
    requires Searched(t, pc, k, seen)
    ensures k < |t| && forall j: nat :: j < k ==> Passed(t, pc, j)
  {
    assert SearchedAt(Hunt.Hunt, t, pc, k, seen);
  }

  lemma SearchStarts(t: Table, pc: nat)
    requires |t| > 0
    ensures Searched(t, pc, 0, {}) && ProbeOf(|t|, pc, 0) == Hash(|t|, pc)
  {
  }

  lemma SearchGoesOn(t: Table, pc: nat, k: nat, seen: set<nat>, hash: nat)
    requires IsPrime(|t|) && HASH_VAL < |t| && |Full(t)| < |t| && Searched(t, pc, k, seen)
    requires hash == ProbeOf(|t|, pc, k) && t[hash].pc != pc && t[hash].pc != 0
    ensures k + 1 < |t| && Searched(t, pc, k + 1, seen + {hash})
    ensures ProbeOf(|t|, pc, k + 1) == (hash + Hash2(pc)) % |t|
  {
    assert SearchedAt(Hunt.Hunt, t, pc, k, seen);
    OneMoreSeen(t, pc, k, seen);
  }

  ghost predicate SeenAll(t: Table, pc: nat, k: nat, seen: set<nat>) {
    && k < |t| && (forall j: nat :: j < k ==> Passed(t, pc, j))
    && seen <= Full(t) && |seen| == k && (forall x: nat :: x in seen ==> SeenBefore(|t|, pc, k, x))
  }

  ghost predicate SeenBefore(n: nat, pc: nat, k: nat, x: nat)
    requires n > 0
  {
    exists j: nat :: j < k && ProbeOf(n, pc, j) == x
  }

  /** The table is never so full that the search could go round. */
  lemma OneMoreSeen(t: Table, pc: nat, k: nat, seen: set<nat>)
    requires IsPrime(|t|) && HASH_VAL < |t| && |Full(t)| < |t| && SeenAll(t, pc, k, seen)
    requires t[ProbeOf(|t|, pc, k)].pc != pc && t[ProbeOf(|t|, pc, k)].pc != 0
    ensures SeenAll(t, pc, k + 1, seen + {ProbeOf(|t|, pc, k)})
  {
    var h, seen' := ProbeOf(|t|, pc, k), seen + {ProbeOf(|t|, pc, k)};
    forall j: nat | j < k ensures ProbeOf(|t|, pc, j) != h {
      ProbesDiffer(|t|, pc / 4, Hash2(pc), j, k);
    }
    assert SeenBefore(|t|, pc, k + 1, h);
    forall x: nat | x in seen ensures x != h && SeenBefore(|t|, pc, k + 1, x) {
      assert SeenBefore(|t|, pc, k, x);
    }
    assert Passed(t, pc, k);
    SubsetSize(seen', Full(t));
  }

  class Profiler {
    /** profiler_entries, of MAX_UNIQUE_INSTRUCTIONS entries */
    const entries: array<Entry>
    var numEntries: nat
    var dropped: nat
    var enabled: bool
    ghost var log: seq<Sample>

    ghost predicate Valid()
      reads this, entries
    {
      && IsPrime(entries.Length) && HASH_VAL < entries.Length
      && Faithful(entries[..], log)
      && numEntries == |Full(entries[..])| <= (entries.Length / 4) * 3
      && dropped == |log| - Kept(log)
    }

    constructor (size: nat)
      requires IsPrime(size) && HASH_VAL < size
      ensures Valid() && log == [] && enabled && numEntries == 0 && entries.Length == size && fresh(entries)
    {
      entries := new Entry[size](i => Entry(0, 0));
      numEntries, dropped, enabled, log := 0, 0, true, [];
      new;
      Blank(entries[..]);
    }

    static lemma {:induction false} Blank(t: Table)
      requires forall i: nat :: i < |t| ==> t[i] == Entry(0, 0)
      ensures Listed(t) == 0 && Full(t) == {} && (|t| > 0 ==> Faithful(t, []))
    {
      if t != [] {
        Blank(t[..|t| - 1]);
      }
    }

    /** profiler_reset */
    method Reset()
      requires Valid()
      modifies this`numEntries, this`dropped, this`log, entries
      ensures Valid() && log == [] && dropped == 0 && numEntries == 0
    {
      for i := 0 to entries.Length
        invariant forall j: nat :: j < i ==> entries[j] == Entry(0, 0)
      {
        entries[i] := Entry(0, 0);
      }
      numEntries, dropped, log := 0, 0, [];
      Blank(entries[..]);
    }

    /** The search loop: it stops at the entry of `pc` or at an empty slot. */
    method Find(pc: nat) returns (hash: nat, ghost k: nat)
      requires Valid()
      ensures FoundAt(entries[..], pc, hash, k) && (entries[hash].pc == pc || entries[hash].pc == 0)
    {
      var n := entries.Length;
      hash := Hash(n, pc);
      var hash2 := Hash2(pc);
      k := 0;
      ghost var t, seen: set<nat> := entries[..], {};
      SearchStarts(t, pc);
      while entries[hash].pc != pc && entries[hash].pc != 0
        invariant k < n && hash == ProbeOf(n, pc, k) && Searched(t, pc, k, seen)
        decreases n - k
      {
        SearchGoesOn(t, pc, k, seen, hash);
        seen := seen + {hash};
        hash := hash + hash2;
        hash := hash % n;
        k := k + 1;
      }
      SearchMeans(t, pc, k, seen);
    }

    /** profiler_record_sample */
    method RecordSample(pc: nat)
      requires Valid()
      modifies this, entries
      ensures Valid() && enabled == old(enabled)
      ensures !enabled || pc == 0 ==>
        log == old(log) && dropped == old(dropped) && numEntries == old(numEntries)
        && Listed(entries[..]) == Listed(old(entries[..]))
      ensures enabled && pc != 0 ==>
        var full := !Stored(old(entries[..]), pc) && old(numEntries) >= (entries.Length / 4) * 3;
        log == old(log) + [Sample(pc, !full)] && dropped == old(dropped) + (if full then 1 else 0)
        && (Stored(entries[..], pc) <==> !full)
    {
      if !enabled {
        return;
      }
      var hash, k := Find(pc);
      if entries[hash].pc == pc {
        Count(hash, pc);
      } else if numEntries < (entries.Length / 4) * 3 {
        Insert(hash, pc, k);
      } else {
        Drop(hash, pc, k);
      }
    }

    method Insert(hash: nat, pc: nat, ghost k: nat)
      requires Valid() && pc != 0 && FoundAt(entries[..], pc, hash, k) && entries[hash].pc == 0
      requires numEntries < (entries.Length / 4) * 3
      modifies this`numEntries, this`log, entries
      ensures Valid() && log == old(log) + [Sample(pc, true)]
      ensures !Stored(old(entries[..]), pc) && Stored(entries[..], pc)
    {
      ghost var t := entries[..];
      InsertKeeps(t, log, pc, hash, k);
      NotStored(t, log, pc, hash, k);
      OneMore(log, Sample(pc, true), pc);
      entries[hash] := Entry(pc, 1);
      numEntries := numEntries + 1;
      log := log + [Sample(pc, true)];
      assert entries[..] == t[hash := Entry(pc, 1)];
      assert entries[..][hash].pc == pc;
    }

    method Drop(hash: nat, pc: nat, ghost k: nat)
      requires Valid() && pc != 0 && FoundAt(entries[..], pc, hash, k) && entries[hash].pc == 0
      modifies this`dropped, this`log
      ensures Valid() && log == old(log) + [Sample(pc, false)] && dropped == old(dropped) + 1
      ensures !Stored(entries[..], pc)
    {
      NotStored(entries[..], log, pc, hash, k);
      DropKeeps(entries[..], log, pc);
      OneMore(log, Sample(pc, false), pc);
      dropped := dropped + 1;
      log := log + [Sample(pc, false)];
    }

    /** The entry of the address, or for address zero an empty slot, is counted up. */
    method Count(hash: nat, pc: nat)
      requires Valid() && hash < entries.Length && entries[hash].pc == pc
      modifies this`log, entries
      ensures Valid() && log == (if pc == 0 then old(log) else old(log) + [Sample(pc, true)])
      ensures pc == 0 ==> Listed(entries[..]) == Listed(old(entries[..]))
      ensures pc != 0 ==> Stored(old(entries[..]), pc) && Stored(entries[..], pc)
    {
      ghost var t := entries[..];
      var e := Entry(pc, (entries[hash].count + 1) % WORD);
      if pc == 0 {
        ZeroKeeps(t, log, hash, e.count);
      } else {
        BumpKeeps(t, log, pc, hash);
        OneMore(log, Sample(pc, true), pc);
        assert t[hash].pc == pc && t[hash := e][hash].pc == pc;
        log := log + [Sample(pc, true)];
      }
      entries[hash] := e;
      assert entries[..] == t[hash := e];
      assert Full(t[hash := e]) == Full(t);
    }

    /** Listed and dropped samples add up to the calls exactly if no address was counted 2^32 times. */
    lemma Accounted()
      requires Valid()
      ensures |log| == Listed(entries[..]) + dropped <==> forall pc: nat :: Times(log, pc) < WORD
    {
      AllAccounted(entries[..], log);
    }
  }

  // ---- Whether the listing accounts for every sample ----

  /** The sum profiler_list would print if counts did not wrap around. */
  ghost function Calls(t: Table, log: seq<Sample>): nat {
    if t == [] then 0
    else Calls(t[..|t| - 1], log) + if t[|t| - 1].pc != 0 then Times(log, t[|t| - 1].pc) else 0
  }

  lemma {:induction false} CallsAppend(t: Table, log: seq<Sample>, s: Sample)
    requires Apart(t) && s.pc != 0
    ensures Calls(t, log + [s]) == Calls(t, log) + if s.kept && Stored(t, s.pc) then 1 else 0
  {
    if t == [] {
      assert !Stored(t, s.pc);
    } else {
      var u, e := t[..|t| - 1], t[|t| - 1];
      CallsAppend(u, log, s);
      OneMore(log, s, e.pc);
      assert Stored(t, s.pc) <==> Stored(u, s.pc) || e.pc == s.pc by {
        if i: nat :| i < |t| && t[i].pc == s.pc { assert i < |u| ==> u[i].pc == s.pc; }
        if i: nat :| i < |u| && u[i].pc == s.pc { assert t[i].pc == s.pc; }
      }
    }
  }

  lemma {:induction false} CallsAreKept(t: Table, log: seq<Sample>)
    requires Apart(t) && Times(log, 0) == 0 && forall pc: nat :: pc != 0 && Times(log, pc) > 0 ==> Stored(t, pc)
    ensures Calls(t, log) == Kept(log)
  {
    if log == [] {
      NoCalls(t);
    } else {
      var l, s := log[..|log| - 1], log[|log| - 1];
      assert log == l + [s];
      forall pc: nat ensures Times(l, pc) <= Times(log, pc) {
        OneMore(l, s, pc);
      }
      CallsAreKept(t, l);
      OneMore(l, s, s.pc);
      if s.kept { CallsAppend(t, l, s); } else { CallsDropped(t, l, s); }
    }
  }

  lemma {:induction false} NoCalls(t: Table)
    ensures Calls(t, []) == 0
  {
    if t != [] { NoCalls(t[..|t| - 1]); }
  }

  lemma {:induction false} CallsDropped(t: Table, log: seq<Sample>, s: Sample)
    requires !s.kept
    ensures Calls(t, log + [s]) == Calls(t, log)
  {
    if t != [] {
      CallsDropped(t[..|t| - 1], log, s);
      OneMore(log, s, t[|t| - 1].pc);
    }
  }

  /** Each count that wrapped around is missing from the sum. */
  lemma {:induction false} ListedBelow(t: Table, log: seq<Sample>)
    requires forall i: nat :: i < |t| && t[i].pc != 0 ==> t[i].count == Times(log, t[i].pc) % WORD
    ensures Listed(t) <= Calls(t, log)
    ensures Listed(t) == Calls(t, log) <==> forall i: nat :: i < |t| && t[i].pc != 0 ==> Times(log, t[i].pc) < WORD
  {
    if t != [] {
      var u := t[..|t| - 1];
      ListedBelow(u, log);
      assert forall i: nat :: i < |u| ==> u[i] == t[i];
    }
  }

  /** The listing accounts for every sample that was counted exactly if no address was counted 2^32 times. */
  lemma AllAccounted(t: Table, log: seq<Sample>)
    requires Faithful(t, log)
    ensures Listed(t) == Kept(log) <==> forall pc: nat :: Times(log, pc) < WORD
  {
    CallsAreKept(t, log);
    forall i: nat | i < |t| && t[i].pc != 0 ensures t[i].count == Times(log, t[i].pc) % WORD {
      assert EntryOk(t, log, i);
    }
    ListedBelow(t, log);
    if forall i: nat :: i < |t| && t[i].pc != 0 ==> Times(log, t[i].pc) < WORD {
      forall pc: nat ensures Times(log, pc) < WORD {
        if pc != 0 && Times(log, pc) > 0 { assert Stored(t, pc); }
      }
    }
  }

  // ---- A count that wraps around ----

  ghost function Repeated(pc: nat, n: nat): seq<Sample> {
    if n == 0 then [] else Repeated(pc, n - 1) + [Sample(pc, true)]
  }

  lemma {:induction false} RepeatedTimes(pc: nat, n: nat)
    ensures Times(Repeated(pc, n), pc) == Kept(Repeated(pc, n)) == |Repeated(pc, n)| == n
  {
    if n > 0 {
      RepeatedTimes(pc, n - 1);
      OneMore(Repeated(pc, n - 1), Sample(pc, true), pc);
    }
  }

  /** One address sampled 2^32 times is listed with count 0, and nothing is reported as dropped. */
  method CountWraps(size: nat, pc: nat) returns (p: Profiler)
    requires IsPrime(size) && HASH_VAL < size && pc != 0
    ensures p.Valid() && |p.log| == WORD && p.dropped == 0 && Listed(p.entries[..]) == 0
  {
    p := new Profiler(size);
    for i := 0 to WORD
      invariant p.Valid() && fresh(p) && fresh(p.entries) && p.enabled && p.entries.Length == size
      invariant p.log == Repeated(pc, i) && p.dropped == 0
      invariant if i == 0 then p.numEntries == 0 else Stored(p.entries[..], pc)
    {
      RepeatedTimes(pc, i);
      p.RecordSample(pc);
    }
    RepeatedTimes(pc, WORD);
    AllAccounted(p.entries[..], p.log);
  }
}
