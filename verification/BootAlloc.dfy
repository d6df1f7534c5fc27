/** The boot-time allocator: best fit with alignment over a few free regions (boot.c). */
module BootAlloc {
  import opened Basics
  import opened Untypeds

  /** Machine words. */
  const WORD: nat := 0x1_0000_0000

  datatype Region = Region(start: nat, end: nat)

  const EMPTY := Region(0, 0)

  predicate IsEmpty(r: Region) {
    r.start == r.end
  }

  ghost predicate Proper(r: Region) {
    r.start <= r.end < WORD
  }

  function Size(r: Region): int {
    r.end - r.start
  }

  /** Unsigned subtraction and addition. */
  function Sub(a: int, b: int): nat {
    (a - b) % WORD
  }

  function Add(a: int, b: int): nat {
    (a + b) % WORD
  }

  /** ROUND_DOWN and ROUND_UP, on words. */
  function RoundDown(n: nat, bits: nat): nat {
    ShiftRight(n, Pow2(bits)) * Pow2(bits)
  }

  function RoundUp(n: nat, bits: nat): nat {
    ((ShiftRight(Sub(n, 1), Pow2(bits)) + 1) * Pow2(bits)) % WORD
  }

  /** `n >> b`, with p the b-th power of two. */
  function ShiftRight(n: nat, p: nat): (q: nat)
    requires p > 0
    ensures 0 <= q * p <= n < q * p + p
  {
    DivBounds(n, p);
    n / p
  }

  lemma DivBounds(n: nat, p: nat)
    requires p > 0
    ensures n / p >= 0 && 0 <= (n / p) * p <= n < (n / p) * p + p
  {
    assert n == (n / p) * p + n % p;
  }

  // ---- One placement ----

  /** Where the allocation would go in a region: at the end that leaves less beyond it. */
  function Placement(r: Region, bits: nat): Region {
    if Sub(RoundUp(r.start, bits), r.start) < Sub(r.end, RoundDown(r.end, bits)) then
      Region(RoundUp(r.start, bits), Add(RoundUp(r.start, bits), Pow2(bits)))
    else
      Region(Sub(RoundDown(r.end, bits), Pow2(bits)), RoundDown(r.end, bits))
  }

  predicate Fits(r: Region, n: Region) {
    n.end > n.start && n.start >= r.start && n.end <= r.end
  }

  function Before(r: Region, n: Region): Region {
    Region(r.start, n.start)
  }

  function After(r: Region, n: Region): Region {
    Region(n.end, r.end)
  }

  function Small(r: Region, n: Region): Region {
    if n.start - r.start < r.end - n.end then Before(r, n) else After(r, n)
  }

  function Large(r: Region, n: Region): Region {
    if n.start - r.start < r.end - n.end then After(r, n) else Before(r, n)
  }

  /** A naturally aligned block of the size, within the region. */
  ghost predicate IsBlock(n: Region, r: Region, bits: nat) {
    r.start <= n.start && n.end == n.start + Pow2(bits) <= r.end && exists q: nat :: n.start == q * Pow2(bits)
  }

  lemma {:induction false} WordIsMultiple(bits: nat)
    requires bits <= 32
    ensures WORD == Pow2(32 - bits) * Pow2(bits)
    decreases 32 - bits
  {
    if bits == 32 {
      assert Pow2(8) == 0x100;
      Pow2Sum(8, 8);
      Pow2Sum(16, 16);
    } else {
      WordIsMultiple(bits + 1);
      assert Pow2(bits + 1) == 2 * Pow2(bits) && Pow2(32 - bits) == 2 * Pow2(31 - bits);
      Twice(Pow2(31 - bits), Pow2(bits));
    }
  }

  lemma Twice(x: nat, y: nat)
    ensures x * (2 * y) == (2 * x) * y
  {
  }

  lemma {:induction false} Pow2Sum(a: nat, b: nat)
    ensures Pow2(a + b) == Pow2(a) * Pow2(b)
  {
    if b > 0 {
      Pow2Sum(a, b - 1);
      Twice(Pow2(a), Pow2(b - 1));
    }
  }

  lemma Scaled(a: nat, b: nat, p: nat)
    requires a >= b
    ensures a * p >= b * p
  {
  }

  lemma MoreMultiples(d: nat, p: nat)
    ensures (d + 1) * p == d * p + p && (d + 2) * p == d * p + 2 * p
  {
  }

  /** Multiples of p, compared by their factors. */
  lemma Compare(a: nat, b: nat, p: nat)
    requires p > 0
    ensures a * p <= b * p <==> a <= b
    ensures a * p + p <= b * p <==> a < b
  {
    MoreMultiples(a, p);
    if a <= b {
      Scaled(b, a, p);
    } else {
      MoreMultiples(b, p);
      Scaled(a, b + 1, p);
    }
    if a < b {
      Scaled(b, a + 1, p);
    } else {
      Scaled(a, b, p);
    }
  }

  /** ROUND_DOWN is the greatest multiple not above. */
  lemma DownIsGreatest(n: nat, p: nat, q: nat)
    requires p > 0 && q * p <= n
    ensures q * p <= ShiftRight(n, p) * p
  {
    Compare(ShiftRight(n, p), q, p);
    Compare(q, ShiftRight(n, p), p);
  }

  lemma ModSmall(u: nat)
    requires u <= WORD
    ensures u % WORD == if u == WORD then 0 else u
  {
  }

  /** ROUND_UP is the least multiple not below, unless that is the size of the address space: then it wraps to 0. */
  lemma UpIs(n: nat, bits: nat) returns (d: nat)
    requires 0 < n < WORD && bits < 32
    ensures n <= d * Pow2(bits) < n + Pow2(bits) && d * Pow2(bits) <= WORD
    ensures RoundUp(n, bits) == if d * Pow2(bits) == WORD then 0 else d * Pow2(bits)
  {
    var p := Pow2(bits);
    assert Sub(n, 1) == n - 1;
    var c := ShiftRight(n - 1, p);
    d := c + 1;
    MoreMultiples(c, p);
    WordIsMultiple(bits);
    Compare(c, Pow2(32 - bits), p);
    Compare(d, Pow2(32 - bits), p);
    ModSmall(d * p);
  }

  lemma UpZero(bits: nat)
    requires bits < 32
    ensures RoundUp(0, bits) == 0
  {
    var p, k := Pow2(bits), Pow2(32 - bits);
    assert Sub(0, 1) == WORD - 1;
    var c := ShiftRight(WORD - 1, p);
    MoreMultiples(c, p);
    WordIsMultiple(bits);
    Compare(c, k, p);
    Compare(c + 1, k, p);
    Compare(k, c + 1, p);
    ModSmall((c + 1) * p);
  }

  // ---- A placement is found exactly when there is one ----

  lemma AddUp(u: nat, p: nat)
    requires u < WORD && 0 < p <= WORD && Add(u, p) > u
    ensures Add(u, p) == u + p
  {
  }

  lemma SubDown(d: nat, p: nat)
    requires d < WORD && 0 < p <= WORD && Sub(d, p) < d
    ensures Sub(d, p) == d - p
  {
  }

  lemma UpMultiple(n: nat, bits: nat) returns (q: nat)
    requires n < WORD && bits < 32
    ensures q * Pow2(bits) == RoundUp(n, bits)
  {
    if n == 0 {
      UpZero(bits);
      q := 0;
    } else {
      q := UpIs(n, bits);
      if q * Pow2(bits) == WORD {
        q := 0;
      }
    }
  }

  lemma OneLess(q: nat, p: nat)
    requires p > 0 && q * p >= p
    ensures q > 0 && (q - 1) * p == q * p - p
  {
    if q > 0 {
      MoreMultiples(q - 1, p);
    }
  }

  lemma PageFits(bits: nat)
    requires bits < 32
    ensures Pow2(bits) <= WORD
  {
    WordIsMultiple(bits);
    Scaled(Pow2(32 - bits), 1, Pow2(bits));
  }

  lemma FitsIsBlock(r: Region, bits: nat)
    requires Proper(r) && bits < 32 && Fits(r, Placement(r, bits))
    ensures IsBlock(Placement(r, bits), r, bits)
  {
    var p := Pow2(bits);
    PageFits(bits);
    if Sub(RoundUp(r.start, bits), r.start) < Sub(r.end, RoundDown(r.end, bits)) {
      var q := UpMultiple(r.start, bits);
      AddUp(RoundUp(r.start, bits), p);
      assert Placement(r, bits).start == q * p;
    } else {
      var q := ShiftRight(r.end, p);
      SubDown(RoundDown(r.end, bits), p);
      OneLess(q, p);
      assert Placement(r, bits).start == (q - 1) * p;
    }
  }

  lemma UpIsLeast(n: nat, bits: nat, q: nat)
    requires n <= q * Pow2(bits) < WORD && bits < 32
    ensures n <= RoundUp(n, bits) <= q * Pow2(bits)
  {
    if n == 0 {
      UpZero(bits);
    } else {
      var d := UpIs(n, bits);
      MoreMultiples(if d > 0 then d - 1 else 0, Pow2(bits));
      Compare(if d > 0 then d - 1 else 0, q, Pow2(bits));
      Compare(d, q, Pow2(bits));
      Compare(q, if d > 0 then d - 1 else 0, Pow2(bits));
    }
  }

  lemma BlockFits(r: Region, bits: nat, b: Region)
    requires Proper(r) && bits < 32 && IsBlock(b, r, bits)
    ensures Fits(r, Placement(r, bits))
  {
    var p := Pow2(bits);
    var q: nat :| b.start == q * p;
    MoreMultiples(q, p);
    DownIsGreatest(r.end, p, q + 1);
    UpIsLeast(r.start, bits, q);
    EitherEnd(r, RoundUp(r.start, bits), RoundDown(r.end, bits), p);
  }

  lemma EitherEnd(r: Region, up: nat, down: nat, p: nat)
    requires Proper(r) && p > 0 && r.start <= up && up + p <= r.end && r.start + p <= down <= r.end
    ensures Fits(r, if Sub(up, r.start) < Sub(r.end, down) then Region(up, Add(up, p)) else Region(Sub(down, p), down))
  {
    assert Add(up, p) == up + p && Sub(down, p) == down - p;
  }

  /** The region has room exactly when the placement the code computes is one. */
  lemma PlacementFound(r: Region, bits: nat)
    requires Proper(r) && bits < 32
    ensures Fits(r, Placement(r, bits)) <==> exists b: Region :: IsBlock(b, r, bits)
    ensures Fits(r, Placement(r, bits)) ==> IsBlock(Placement(r, bits), r, bits)
  {
    if Fits(r, Placement(r, bits)) {
      FitsIsBlock(r, bits);
    }
    forall b: Region | IsBlock(b, r, bits) ensures Fits(r, Placement(r, bits)) {
      BlockFits(r, bits, b);
    }
  }

  // ---- What is left over ----

  ghost function Least(r: Region, n: Region): int {
    Min(n.start - r.start, r.end - n.end)
  }

  ghost function Greatest(r: Region, n: Region): int {
    Max(n.start - r.start, r.end - n.end)
  }

  /** Taking `n` from `r` leaves a smaller least remainder than taking `n'` from `r'`, or the same and a smaller other
      one. */
  ghost predicate Tighter(r: Region, n: Region, r': Region, n': Region) {
    Least(r, n) < Least(r', n') || (Least(r, n) == Least(r', n') && Greatest(r, n) < Greatest(r', n'))
  }

  /** The two aligned blocks at the ends of a region; every other one lies between. */
  lemma BlockBetween(r: Region, bits: nat, b: Region)
    requires Proper(r) && bits < 32 && IsBlock(b, r, bits)
    ensures r.start <= RoundUp(r.start, bits) <= b.start && b.end <= RoundDown(r.end, bits) <= r.end
  {
    var p := Pow2(bits);
    var q: nat :| b.start == q * p;
    MoreMultiples(q, p);
    DownIsGreatest(r.end, p, q + 1);
    UpIsLeast(r.start, bits, q);
  }

  /** Of the blocks between two ends, the one at the nearer end leaves least over. */
  lemma EndsTightest(r: Region, up: nat, down: nat, p: nat, b: Region)
    requires r.start <= up <= b.start && b.end == b.start + p <= down <= r.end
    ensures var n := if up - r.start < r.end - down then Region(up, up + p) else Region(down - p, down);
      !Tighter(r, b, r, n) && (Least(r, b) == Least(r, n) ==> b.start <= n.start)
  {
  }

  lemma PlacementIs(r: Region, up: nat, down: nat, p: nat)
    requires Proper(r) && r.start <= up && up + p <= down <= r.end
    ensures Sub(up, r.start) == up - r.start && Sub(r.end, down) == r.end - down
    ensures Add(up, p) == up + p && Sub(down, p) == down - p
  {
  }

  /** No aligned block of the region leaves less over than the placement does, and of those that leave as much it is the
      last. */
  lemma PlacementTightest(r: Region, bits: nat, b: Region)
    requires Proper(r) && bits < 32 && IsBlock(b, r, bits)
    ensures var n := Placement(r, bits);
      !Tighter(r, b, r, n) && (Least(r, b) == Least(r, n) ==> b.start <= n.start)
  {
    var up, down, p := RoundUp(r.start, bits), RoundDown(r.end, bits), Pow2(bits);
    BlockBetween(r, bits, b);
    PlacementIs(r, up, down, p);
    EndsTightest(r, up, down, p, b);
  }

  // ---- The free list ----

  ghost predicate Covers(r: Region, a: nat) {
    r.start <= a < r.end
  }

  ghost predicate Free(f: seq<Region>, a: nat) {
    exists i :: 0 <= i < |f| && Covers(f[i], a)
  }

  ghost predicate Apart(r: Region, s: Region) {
    forall a: nat :: !(Covers(r, a) && Covers(s, a))
  }

  ghost predicate Disjoint(f: seq<Region>) {
    forall i, j :: 0 <= i < j < |f| ==> Apart(f[i], f[j])
  }

  ghost predicate AllProper(f: seq<Region>) {
    forall i :: 0 <= i < |f| ==> Proper(f[i])
  }

  ghost predicate HasRoom(f: seq<Region>) {
    exists i :: 0 <= i < |f| && IsEmpty(f[i])
  }

  ghost function Total(f: seq<Region>): int {
    if f == [] then 0 else Size(f[0]) + Total(f[1..])
  }

  /** insert_region: into the first empty entry, if there is one. */
  ghost function Inserted(f: seq<Region>, r: Region): seq<Region> {
    if IsEmpty(r) || f == [] then f
    else if IsEmpty(f[0]) then [r] + f[1..]
    else [f[0]] + Inserted(f[1..], r)
  }

  lemma {:induction false} InsertedAt(f: seq<Region>, r: Region, i: nat)
    requires !IsEmpty(r) && i <= |f| && (i < |f| ==> IsEmpty(f[i])) && forall j :: 0 <= j < i ==> !IsEmpty(f[j])
    ensures Inserted(f, r) == if i < |f| then f[i := r] else f
  {
    if f != [] && i > 0 {
      InsertedAt(f[1..], r, i - 1);
    }
  }

  lemma RoomInRest(f: seq<Region>)
    requires f != [] && !IsEmpty(f[0])
    ensures HasRoom(f) <==> HasRoom(f[1..])
  {
    if HasRoom(f) {
      var i :| 0 <= i < |f| && IsEmpty(f[i]);
      assert IsEmpty(f[1..][i - 1]);
    }
    if HasRoom(f[1..]) {
      var i :| 0 <= i < |f[1..]| && IsEmpty(f[1..][i]);
      assert IsEmpty(f[i + 1]);
    }
  }

  lemma FreeInRest(f: seq<Region>, a: nat)
    requires f != []
    ensures Free(f, a) <==> Covers(f[0], a) || Free(f[1..], a)
  {
    if Free(f, a) && !Covers(f[0], a) {
      var i :| 0 <= i < |f| && Covers(f[i], a);
      assert Covers(f[1..][i - 1], a);
    }
    if Free(f[1..], a) {
      var i :| 0 <= i < |f[1..]| && Covers(f[1..][i], a);
      assert Covers(f[i + 1], a);
    }
  }

  /** Inserting adds the region's addresses and bytes, or, without room, nothing. */
  lemma {:induction false} InsertAdds(f: seq<Region>, r: Region, a: nat)
    requires !IsEmpty(r)
    ensures Free(Inserted(f, r), a) <==> Free(f, a) || (HasRoom(f) && Covers(r, a))
    ensures Total(Inserted(f, r)) == Total(f) + if HasRoom(f) then Size(r) else 0
  {
    if f != [] {
      FreeInRest(f, a);
      FreeInRest(Inserted(f, r), a);
      if IsEmpty(f[0]) {
        assert ([r] + f[1..])[1..] == f[1..];
      } else {
        RoomInRest(f);
        InsertAdds(f[1..], r, a);
        assert ([f[0]] + Inserted(f[1..], r))[1..] == Inserted(f[1..], r);
      }
    }
  }

  lemma {:induction false} InsertKeeps(f: seq<Region>, r: Region)
    requires AllProper(f) && Disjoint(f) && Proper(r) && forall i :: 0 <= i < |f| ==> Apart(f[i], r)
    ensures AllProper(Inserted(f, r)) && Disjoint(Inserted(f, r)) && |Inserted(f, r)| == |f|
    ensures forall s: Region :: Apart(s, r) && (forall i :: 0 <= i < |f| ==> Apart(f[i], s)) ==>
      forall i :: 0 <= i < |f| ==> Apart(Inserted(f, r)[i], s)
  {
    if i: nat :| i < |f| && IsEmpty(f[i]) && (forall j :: 0 <= j < i ==> !IsEmpty(f[j])) && !IsEmpty(r) {
      InsertedAt(f, r, i);
    } else if !IsEmpty(r) {
      NoFirst(f);
      InsertedAt(f, r, |f|);
    }
  }

  lemma {:induction false} NoFirst(f: seq<Region>)
    requires !exists i: nat :: i < |f| && IsEmpty(f[i]) && (forall j :: 0 <= j < i ==> !IsEmpty(f[j]))
    ensures forall j :: 0 <= j < |f| ==> !IsEmpty(f[j])
  {
    for i := 0 to |f|
      invariant forall j :: 0 <= j < i ==> !IsEmpty(f[j])
    {
    }
  }

  // ---- Allocation ----

  ghost predicate AnyBlock(f: seq<Region>, bits: nat) {
    exists j: nat, b: Region :: j < |f| && IsBlock(b, f[j], bits)
  }

  /** `n` is the best fit: no aligned block of any region is tighter, no earlier region has one as tight, and in its own
      region it is the last of the tightest. */
  ghost predicate BestFit(f: seq<Region>, bits: nat, i: nat, n: Region) {
    && i < |f| && IsBlock(n, f[i], bits)
    && (forall j: nat, b: Region :: j < |f| && IsBlock(b, f[j], bits) ==> !Tighter(f[j], b, f[i], n))
    && (forall j: nat, b: Region :: j < i && IsBlock(b, f[j], bits) ==> Tighter(f[i], n, f[j], b))
    && (forall b: Region :: IsBlock(b, f[i], bits) && Least(f[i], b) == Least(f[i], n) ==> b.start <= n.start)
  }

  /** The block is out, and the two remainders are put back, the larger one first. */
  ghost function Carved(f: seq<Region>, i: nat, n: Region): seq<Region>
    requires i < |f|
  {
    Inserted(Inserted(f[i := EMPTY], Large(f[i], n)), Small(f[i], n))
  }

  /** Bytes lost to alignment when the smaller remainder finds no entry. */
  ghost function Lost(f: seq<Region>, i: nat, n: Region): Region
    requires i < |f|
  {
    if HasRoom(Inserted(f[i := EMPTY], Large(f[i], n))) then EMPTY else Small(f[i], n)
  }

  lemma {:induction false} TotalUpdate(f: seq<Region>, i: nat, r: Region)
    requires i < |f|
    ensures Total(f[i := r]) == Total(f) - Size(f[i]) + Size(r)
  {
    if i == 0 {
      assert f[i := r][1..] == f[1..];
    } else {
      assert f[i := r][1..] == f[1..][i - 1 := r];
      TotalUpdate(f[1..], i - 1, r);
    }
  }

  lemma FreeUpdate(f: seq<Region>, i: nat, a: nat)
    requires i < |f| && Disjoint(f)
    ensures Free(f[i := EMPTY], a) <==> Free(f, a) && !Covers(f[i], a)
  {
    if Free(f, a) && !Covers(f[i], a) {
      var j :| 0 <= j < |f| && Covers(f[j], a);
      assert Covers(f[i := EMPTY][j], a);
    }
    if Free(f[i := EMPTY], a) {
      var j :| 0 <= j < |f| && Covers(f[i := EMPTY][j], a);
      assert j != i && Covers(f[j], a);
      assert i < j ==> Apart(f[i], f[j]);
      assert j < i ==> Apart(f[j], f[i]);
    }
  }

  lemma InsertFree(f: seq<Region>, r: Region, a: nat)
    ensures Free(Inserted(f, r), a) <==> Free(f, a) || (HasRoom(f) && Covers(r, a))
  {
    if !IsEmpty(r) {
      InsertAdds(f, r, a);
    }
  }

  lemma InsertTotal(f: seq<Region>, r: Region)
    ensures Total(Inserted(f, r)) == Total(f) + if HasRoom(f) then Size(r) else 0
  {
    if !IsEmpty(r) {
      InsertAdds(f, r, 0);
    }
  }

  /** The block was free and is free no more; every other free byte stays free unless it is lost. */
  lemma AllocationFrees(f: seq<Region>, bits: nat, i: nat, n: Region, a: nat)
    requires AllProper(f) && Disjoint(f) && i < |f| && IsBlock(n, f[i], bits)
    ensures var g, lost := Carved(f, i, n), Lost(f, i, n);
      && (Covers(n, a) ==> Free(f, a))
      && (Free(g, a) <==> Free(f, a) && !Covers(n, a) && !Covers(lost, a))
  {
    var f1 := f[i := EMPTY];
    FreeUpdate(f, i, a);
    assert IsEmpty(f1[i]) && HasRoom(f1);
    InsertFree(f1, Large(f[i], n), a);
    InsertFree(Inserted(f1, Large(f[i], n)), Small(f[i], n), a);
    ThreeParts(f[i], n, a);
    assert Covers(f[i], a) ==> Free(f, a);
  }

  lemma ThreeParts(r: Region, n: Region, a: nat)
    requires Fits(r, n)
    ensures Covers(r, a) <==> Covers(Small(r, n), a) || Covers(n, a) || Covers(Large(r, n), a)
    ensures !(Covers(n, a) && (Covers(Small(r, n), a) || Covers(Large(r, n), a)))
    ensures !(Covers(Small(r, n), a) && Covers(Large(r, n), a))
  {
  }

  lemma ThreeSizes(r: Region, n: Region)
    ensures Size(r) == Size(Small(r, n)) + Size(n) + Size(Large(r, n))
  {
  }

  /** No byte appears or disappears but the allocated and the lost ones. */
  lemma AllocationConserves(f: seq<Region>, bits: nat, i: nat, n: Region)
    requires AllProper(f) && Disjoint(f) && i < |f| && IsBlock(n, f[i], bits)
    ensures Total(f) == Total(Carved(f, i, n)) + Pow2(bits) + Size(Lost(f, i, n))
  {
    TotalUpdate(f, i, EMPTY);
    assert IsEmpty(f[i := EMPTY][i]);
    SplitConserves(f[i := EMPTY], f[i], n);
  }

  lemma SplitConserves(f: seq<Region>, r: Region, n: Region)
    requires HasRoom(f)
    ensures var f1 := Inserted(f, Large(r, n)); var lost := if HasRoom(f1) then EMPTY else Small(r, n);
      Total(f) + Size(r) == Total(Inserted(f1, Small(r, n))) + Size(n) + Size(lost)
  {
    InsertTotal(f, Large(r, n));
    InsertTotal(Inserted(f, Large(r, n)), Small(r, n));
    ThreeSizes(r, n);
  }

  lemma AllocationKeeps(f: seq<Region>, bits: nat, i: nat, n: Region)
    requires AllProper(f) && Disjoint(f) && i < |f| && IsBlock(n, f[i], bits)
    ensures AllProper(Carved(f, i, n)) && Disjoint(Carved(f, i, n)) && |Carved(f, i, n)| == |f|
  {
    var f1, large, small := f[i := EMPTY], Large(f[i], n), Small(f[i], n);
    forall j | 0 <= j < |f1| ensures Apart(f1[j], large) && Apart(f1[j], small) {
      assert j < i ==> Apart(f[j], f[i]);
      assert i < j ==> Apart(f[i], f[j]);
    }
    InsertKeeps(f1, large);
    assert Apart(small, large);
    InsertKeeps(Inserted(f1, large), small);
  }

  class Boot {
    /** ndks_boot.freemem */
    const freemem: array<Region>

    ghost predicate Valid()
      reads freemem
    {
      AllProper(freemem[..]) && Disjoint(freemem[..])
    }

    /** MAX_NUM_FREEMEM_REG entries, all empty. */
    constructor (maxNumFreememReg: nat)
      ensures Valid() && freemem.Length == maxNumFreememReg && fresh(freemem)
    {
      freemem := new Region[maxNumFreememReg](i => EMPTY);
    }

    method InsertRegion(reg: Region) returns (ok: bool)
      requires Proper(reg)
      modifies freemem
      ensures freemem[..] == Inserted(old(freemem[..]), reg)
      ensures ok <==> IsEmpty(reg) || HasRoom(old(freemem[..]))
    {
      if IsEmpty(reg) {
        return true;
      }
      ghost var f := freemem[..];
      for i := 0 to freemem.Length
        invariant freemem[..] == f && forall j :: 0 <= j < i ==> !IsEmpty(f[j])
      {
        if IsEmpty(freemem[i]) {
          InsertedAt(f, reg, i);
          freemem[i] := reg;
          return true;
        }
      }
      InsertedAt(f, reg, |f|);
      ok := false;
    }

    /** alloc_region; `index` is the region it took the block from. */
    method AllocRegion(bits: nat) returns (start: nat, ghost index: nat)
      requires Valid() && bits < 32
      modifies freemem
      ensures Valid()
      ensures AnyBlock(old(freemem[..]), bits) ==>
        var n := Region(start, start + Pow2(bits));
        BestFit(old(freemem[..]), bits, index, n) && freemem[..] == Carved(old(freemem[..]), index, n)
      ensures !AnyBlock(old(freemem[..]), bits) ==> start == 0 && freemem[..] == old(freemem[..])
    {
      var reg, remSmall, remLarge, regIndex := Search(bits);
      index := regIndex;
      if IsEmpty(reg) {
        return 0, index;
      }
      TakeOut(reg, remSmall, remLarge, regIndex, bits);
      start := reg.start;
    }

    /** The end of alloc_region: the region in question goes, and what remains of it comes back. */
    method TakeOut(reg: Region, remSmall: Region, remLarge: Region, regIndex: nat, ghost bits: nat)
      requires Valid() && regIndex < freemem.Length && IsBlock(reg, freemem[regIndex], bits)
      requires remSmall == Small(freemem[regIndex], reg) && remLarge == Large(freemem[regIndex], reg)
      modifies freemem
      ensures Valid() && freemem[..] == Carved(old(freemem[..]), regIndex, reg)
    {
      ghost var f := freemem[..];
      AllocationKeeps(f, bits, regIndex, reg);
      freemem[regIndex] := EMPTY;
      assert freemem[..] == f[regIndex := EMPTY];
      var inserted := InsertRegion(remLarge);
      inserted := InsertRegion(remSmall);
    }

    /** The loop of alloc_region. */
    method Search(bits: nat) returns (reg: Region, remSmall: Region, remLarge: Region, regIndex: nat)
      requires Valid() && bits < 32
      ensures Chosen(freemem[..], bits, reg, remSmall, remLarge, regIndex)
    {
      ghost var f := freemem[..];
      reg, remSmall, remLarge, regIndex := EMPTY, EMPTY, EMPTY, 0;
      for i := 0 to freemem.Length
        invariant Chosen(f[..i], bits, reg, remSmall, remLarge, regIndex)
      {
        var newReg := Placement(freemem[i], bits);
        NextChoice(f[..i], f[i], bits, reg, remSmall, remLarge, regIndex);
        assert f[..i + 1] == f[..i] + [f[i]];
        if Fits(freemem[i], newReg) {
          var newSmall, newLarge := Small(freemem[i], newReg), Large(freemem[i], newReg);
          if IsEmpty(reg) || Size(newSmall) < Size(remSmall)
             || (Size(newSmall) == Size(remSmall) && Size(newLarge) < Size(remLarge)) {
            reg, remSmall, remLarge, regIndex := newReg, newSmall, newLarge, i;
          }
        }
      }
      assert f[..freemem.Length] == f;
    }

    /** The best fit, or none. */
    static ghost predicate Chosen(f: seq<Region>, bits: nat, reg: Region, small: Region, large: Region, index: nat) {
      if IsEmpty(reg) then !AnyBlock(f, bits)
      else BestFit(f, bits, index, reg) && small == Small(f[index], reg) && large == Large(f[index], reg)
    }

    static lemma NextChoice(f: seq<Region>, r: Region, bits: nat, reg: Region, small: Region, large: Region, index: nat)
      requires Proper(r) && bits < 32 && Chosen(f, bits, reg, small, large, index)
      ensures var n, g := Placement(r, bits), f + [r];
        if Fits(r, n) && (IsEmpty(reg) || Size(Small(r, n)) < Size(small)
                          || (Size(Small(r, n)) == Size(small) && Size(Large(r, n)) < Size(large)))
        then Chosen(g, bits, n, Small(r, n), Large(r, n), |f|)
        else Chosen(g, bits, reg, small, large, index)
    {
      var n := Placement(r, bits);
      PlacementFound(r, bits);
      if Fits(r, n) { Remainders(r, n); }
      if !IsEmpty(reg) { Remainders(f[index], reg); }
      if Fits(r, n) && (IsEmpty(reg) || Tighter(r, n, f[index], reg)) {
        TakesNext(f, r, bits, reg, index);
      } else {
        PassesNext(f, r, bits, reg, index);
      }
    }

    static lemma Remainders(r: Region, n: Region)
      requires Fits(r, n)
      ensures Size(Small(r, n)) == Least(r, n) && Size(Large(r, n)) == Greatest(r, n) && !IsEmpty(n)
    {
    }

    static lemma TakesNext(f: seq<Region>, r: Region, bits: nat, reg: Region, index: nat)
      requires Proper(r) && bits < 32 && IsBlock(Placement(r, bits), r, bits)
      requires if IsEmpty(reg) then !AnyBlock(f, bits)
               else BestFit(f, bits, index, reg) && Tighter(r, Placement(r, bits), f[index], reg)
      ensures BestFit(f + [r], bits, |f|, Placement(r, bits))
    {
      var n, g := Placement(r, bits), f + [r];
      forall j: nat, b: Region | j < |g| && IsBlock(b, g[j], bits)
        ensures !Tighter(g[j], b, r, n) && (j < |f| ==> Tighter(r, n, g[j], b))
        ensures j == |f| && Least(r, b) == Least(r, n) ==> b.start <= n.start
      {
        if j < |f| { assert g[j] == f[j]; } else { PlacementTightest(r, bits, b); }
      }
    }

    static lemma PassesNext(f: seq<Region>, r: Region, bits: nat, reg: Region, index: nat)
      requires Proper(r) && bits < 32
      requires if IsEmpty(reg) then !AnyBlock(f, bits) && !Fits(r, Placement(r, bits))
               else BestFit(f, bits, index, reg)
                    && !(Fits(r, Placement(r, bits)) && Tighter(r, Placement(r, bits), f[index], reg))
      ensures if IsEmpty(reg) then !AnyBlock(f + [r], bits) else BestFit(f + [r], bits, index, reg)
    {
      var g := f + [r];
      PlacementFound(r, bits);
      forall b: Region | IsBlock(b, r, bits) ensures !IsEmpty(reg) && !Tighter(r, b, f[index], reg) {
        PlacementTightest(r, bits, b);
      }
      assert forall j :: 0 <= j < |f| ==> g[j] == f[j];
    }
  }

  /** The allocation fails only when no free region contains an aligned block of the size. */
  lemma FailsOnlyWithoutBlock(f: seq<Region>, bits: nat)
    requires AllProper(f) && bits < 32 && forall i :: 0 <= i < |f| ==> !Fits(f[i], Placement(f[i], bits))
    ensures forall i, b: Region :: 0 <= i < |f| ==> !IsBlock(b, f[i], bits)
  {
    forall i, b: Region | 0 <= i < |f| ensures !IsBlock(b, f[i], bits) {
      PlacementFound(f[i], bits);
    }
  }
}
