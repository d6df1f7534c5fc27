/** Cutting a region into aligned power-of-two untyped objects (create_untypeds_for_region, boot.c). */
module Untypeds {
  import opened Basics

  const WORD_BITS: nat := 32

  const PAGE_BITS: nat := 12

  /** `WORD_BITS - 1 - CLZ(x)`: the position of the highest one bit. */
  function HighBit(x: nat): nat
    requires x > 0
  {
    if x == 1 then 0 else 1 + HighBit(x / 2)
  }

  lemma {:induction false} HighBitBounds(x: nat)
    requires x > 0
    ensures Pow2(HighBit(x)) <= x < Pow2(HighBit(x) + 1)
  {
    if x > 1 {
      HighBitBounds(x / 2);
    }
  }

  lemma HighBitMonotone(x: nat, y: nat)
    requires 0 < x <= y
    ensures HighBit(x) <= HighBit(y)
  {
    HighBitBounds(x);
    HighBitBounds(y);
    if HighBit(y) < HighBit(x) {
      Pow2Grows(HighBit(y) + 1, HighBit(x));
    }
  }

  lemma HighBitBelow(x: nat, n: nat)
    requires 0 < x < Pow2(n)
    ensures HighBit(x) < n
  {
    HighBitBounds(x);
    if n <= HighBit(x) {
      Pow2Grows(n, HighBit(x));
    }
  }

  /** __builtin_clz and __builtin_ctz; both undefined for zero, as there. */
  function CLZ(x: nat): nat
    requires 0 < x < Pow2(WORD_BITS)
  {
    HighBitBelow(x, WORD_BITS);
    WORD_BITS - 1 - HighBit(x)
  }

  function CTZ(x: nat): nat
    requires x > 0
  {
    if x % 2 == 1 then 0 else 1 + CTZ(x / 2)
  }

  lemma {:induction false} CtzDivides(x: nat, k: nat)
    requires x > 0 && k <= CTZ(x)
    ensures exists q: nat :: x == q * Pow2(k)
  {
    if k == 0 {
      assert x == x * Pow2(0);
    } else {
      CtzDivides(x / 2, k - 1);
      var q: nat :| x / 2 == q * Pow2(k - 1);
      assert x == q * Pow2(k);
    }
  }

  lemma {:induction false} CtzOfMultiple(x: nat, k: nat, q: nat)
    requires x > 0 && x == q * Pow2(k)
    ensures CTZ(x) >= k
    decreases k
  {
    if k > 0 {
      assert x == 2 * (q * Pow2(k - 1));
      CtzOfMultiple(x / 2, k - 1, q);
    }
  }

  /** Adding the lowest one bit carries. */
  lemma {:induction false} CtzCarries(x: nat)
    requires x > 0
    ensures CTZ(x + Pow2(CTZ(x))) > CTZ(x)
  {
    if x % 2 == 0 {
      CtzCarries(x / 2);
      assert (x + Pow2(CTZ(x))) / 2 == x / 2 + Pow2(CTZ(x / 2));
    }
  }

  /** Adding a bit below the lowest one bit makes it the lowest. */
  lemma {:induction false} CtzReplaced(x: nat, s: nat)
    requires x > 0 && s < CTZ(x)
    ensures CTZ(x + Pow2(s)) == s
    decreases s
  {
    if s > 0 {
      CtzReplaced(x / 2, s - 1);
      assert (x + Pow2(s)) / 2 == x / 2 + Pow2(s - 1);
    }
  }

  // ---- Blocks ----

  datatype Block = Block(start: nat, sizeBits: nat)

  function End(b: Block): nat {
    b.start + Pow2(b.sizeBits)
  }

  /** Naturally aligned, and at least 16 bytes. */
  ghost predicate WellSized(b: Block) {
    4 <= b.sizeBits < WORD_BITS && exists q: nat :: b.start == q * Pow2(b.sizeBits)
  }

  /** The blocks follow each other without gap from `from` to `to`. */
  ghost predicate Tile(blocks: seq<Block>, from: nat, to: nat) {
    if blocks == [] then from == to
    else
      var last := blocks[|blocks| - 1];
      End(last) == to && WellSized(last) && Tile(blocks[..|blocks| - 1], from, last.start)
  }

  ghost predicate Holds(b: Block, a: nat) {
    b.start <= a < End(b)
  }

  /** Tiles cover exactly the region, each address once. */
  lemma {:induction false} TileCovers(blocks: seq<Block>, from: nat, to: nat, a: nat)
    requires Tile(blocks, from, to)
    ensures from <= to
    ensures from <= a < to <==> exists i :: 0 <= i < |blocks| && Holds(blocks[i], a)
    ensures forall i, j ::
      0 <= i < |blocks| && 0 <= j < |blocks| && Holds(blocks[i], a) && Holds(blocks[j], a) ==> i == j
  {
    if blocks != [] {
      var l := |blocks| - 1;
      TileCovers(blocks[..l], from, blocks[l].start, a);
      forall i | 0 <= i < l ensures blocks[..l][i] == blocks[i] {
      }
      if Holds(blocks[l], a) {
        assert forall i :: 0 <= i < l ==> !Holds(blocks[..l][i], a);
      } else if from <= a < to {
        var i :| 0 <= i < l && Holds(blocks[..l][i], a);
        assert Holds(blocks[i], a);
      }
    }
  }

  lemma TileMore(blocks: seq<Block>, from: nat, b: Block)
    requires Tile(blocks, from, b.start) && WellSized(b)
    ensures Tile(blocks + [b], from, End(b))
  {
    assert (blocks + [b])[..|blocks|] == blocks;
  }

  // ---- One step ----

  function SizeBits(start: nat, end: nat): nat
    requires 0 < start < end < Pow2(WORD_BITS)
  {
    var sizeBits := WORD_BITS - 1 - CLZ(end - start);
    var alignBits := CTZ(start);
    if alignBits < sizeBits then alignBits else sizeBits
  }

  ghost predicate Multiple16(x: nat) {
    x % 16 == 0
  }

  /** How many blocks are still to come, at most: sizes first rise with the alignment, then fall with what is left. */
  ghost function StepsLeft(start: nat, end: nat): nat
    requires 0 < start <= end
  {
    if start == end then 0
    else
      var s, a := HighBit(end - start), CTZ(start);
      if a < s then (s - a) + s + 1 else s + 1
  }

  lemma Multiples16(x: nat)
    requires x > 0 && Multiple16(x)
    ensures CTZ(x) >= 4 && HighBit(x) >= 4
  {
    assert Pow2(4) == 16;
    CtzOfMultiple(x, 4, x / 16);
    HighBitBounds(x);
    if HighBit(x) < 4 {
      Pow2Grows(HighBit(x) + 1, 4);
    }
  }

  lemma {:induction false} Pow2Multiple16(n: nat)
    requires n >= 4
    ensures Multiple16(Pow2(n))
  {
    if n == 4 {
      assert Pow2(4) == 16;
    } else {
      Pow2Multiple16(n - 1);
    }
  }

  lemma Sum16(x: nat, y: nat)
    requires Multiple16(x) && Multiple16(y)
    ensures Multiple16(x + y) && (x >= y ==> Multiple16(x - y))
  {
  }

  lemma StepSize(start: nat, end: nat)
    requires 0 < start < end < Pow2(WORD_BITS) && Multiple16(start) && Multiple16(end)
    ensures var n := SizeBits(start, end);
      4 <= n < WORD_BITS && n <= CTZ(start) && n <= HighBit(end - start) && Pow2(n) <= end - start
  {
    var n, rem := SizeBits(start, end), end - start;
    Sum16(end, start);
    HighBitBounds(rem);
    HighBitBelow(rem, WORD_BITS);
    Multiples16(start);
    Multiples16(rem);
    Pow2Grows(n, HighBit(rem));
  }

  lemma NextAligned(start: nat, n: nat)
    requires start > 0 && Multiple16(start) && 4 <= n < WORD_BITS && n <= CTZ(start)
    ensures WellSized(Block(start, n)) && Multiple16(start + Pow2(n))
  {
    Pow2Multiple16(n);
    Sum16(start, Pow2(n));
    CtzDivides(start, n);
  }

  /** The block fits, is aligned and big enough, and what remains needs fewer blocks. */
  lemma Step(start: nat, end: nat)
    requires 0 < start < end < Pow2(WORD_BITS) && Multiple16(start) && Multiple16(end)
    ensures var n := SizeBits(start, end);
      && WellSized(Block(start, n)) && start + Pow2(n) <= end && Multiple16(start + Pow2(n))
      && StepsLeft(start + Pow2(n), end) < StepsLeft(start, end)
  {
    var n := SizeBits(start, end);
    StepSize(start, end);
    NextAligned(start, n);
    if start + Pow2(n) < end {
      Fewer(start, end);
    }
  }

  lemma Fewer(start: nat, end: nat)
    requires 0 < start < end < Pow2(WORD_BITS) && start + Pow2(SizeBits(start, end)) < end
    ensures StepsLeft(start + Pow2(SizeBits(start, end)), end) < StepsLeft(start, end)
  {
    var a, s := CTZ(start), HighBit(end - start);
    if a < s {
      Rising(start, end, a, s);
    } else {
      Falling(start, end, a, s);
    }
  }

  lemma Rising(start: nat, end: nat, a: nat, s: nat)
    requires 0 < start && start + Pow2(a) < end && a == CTZ(start) && s == HighBit(end - start) && a < s
    ensures StepsLeft(start + Pow2(a), end) < (s - a) + s + 1
  {
    CtzCarries(start);
    HighBitMonotone(end - (start + Pow2(a)), end - start);
  }

  lemma Falling(start: nat, end: nat, a: nat, s: nat)
    requires 0 < start && start + Pow2(s) < end && a == CTZ(start) && s == HighBit(end - start) && s <= a
    ensures StepsLeft(start + Pow2(s), end) < s + 1
  {
    HighBitBounds(end - start);
    HighBitBelow(end - (start + Pow2(s)), s);
    if a == s {
      CtzCarries(start);
    } else {
      CtzReplaced(start, s);
    }
  }

  lemma StepsBounded(start: nat, end: nat)
    requires 0 < start <= end < Pow2(WORD_BITS)
    ensures StepsLeft(start, end) <= 2 * WORD_BITS
  {
    if start < end {
      HighBitBelow(end - start, WORD_BITS);
    }
  }

  // ---- The loop ----

  datatype Aspect = Position | Tiling | Budget

  const MAX_NUM_BOOTINFO_UNTYPED_CAPS: nat := 800

  /** How many of `count` more blocks find room in the boot info frame behind the first `used`. */
  function Listable(used: nat, count: nat): nat {
    if used >= MAX_NUM_BOOTINFO_UNTYPED_CAPS then 0 else Min(count, MAX_NUM_BOOTINFO_UNTYPED_CAPS - used)
  }

  /** The first blocks of a tiling tile the region up to where the next one starts. */
  lemma {:induction false} TilesUpTo(blocks: seq<Block>, from: nat, to: nat, k: nat)
    requires Tile(blocks, from, to) && k < |blocks|
    ensures Tile(blocks[..k], from, blocks[k].start)
  {
    var l := |blocks| - 1;
    if k < l {
      TilesUpTo(blocks[..l], from, blocks[l].start, k);
      assert blocks[..l][..k] == blocks[..k];
    }
  }

  /** With room in the boot info frame for the first `k` blocks only, an address of the region is given out, and
      then once, exactly when it lies below the first block that was left out. */
  lemma GivenOut(blocks: seq<Block>, from: nat, to: nat, k: nat, a: nat)
    requires Tile(blocks, from, to) && k <= |blocks|
    ensures (exists i :: 0 <= i < k && Holds(blocks[i], a)) <==>
      from <= a < if k < |blocks| then blocks[k].start else to
    ensures forall i, j :: 0 <= i < k && 0 <= j < k && Holds(blocks[i], a) && Holds(blocks[j], a) ==> i == j
  {
    var some := blocks[..k];
    if k < |blocks| {
      TilesUpTo(blocks, from, to, k);
      TileCovers(some, from, blocks[k].start, a);
    } else {
      assert some == blocks;
      TileCovers(some, from, to, a);
    }
    assert forall i :: 0 <= i < k ==> some[i] == blocks[i];
  }

  /** What cutting up a region leaves: all of it in blocks or, when the slots ran out, a part of it. */
  ghost predicate CutUp(blocks: seq<Block>, from: nat, end: nat, ok: bool) {
    if ok then Tile(blocks, from, end) else exists to: nat :: to < end && Tile(blocks, from, to)
  }

  class RootCNode {
    /** The next free slot of the root CNode, the first slot past it, and the first one given to untyped memory. */
    var slotPosCur: nat
    const slotPosMax: nat
    const firstUntypedSlot: nat

    /** The untyped caps written to the slots, and the boot info frame's lists of them. */
    var provided: seq<Block>
    var listed: map<nat, Block>

    constructor (slotPosCur: nat, slotPosMax: nat)
      requires slotPosCur <= slotPosMax
      ensures Valid() && this.slotPosCur == slotPosCur == firstUntypedSlot && this.slotPosMax == slotPosMax
      ensures provided == []
    {
      this.slotPosCur, this.slotPosMax, firstUntypedSlot := slotPosCur, slotPosMax, slotPosCur;
      provided, listed := [], map[];
    }

    /** The boot info frame lists exactly the caps provided, in the order of their slots. */
    ghost predicate Valid()
      reads this
    {
      && slotPosCur == firstUntypedSlot + |provided| <= slotPosMax
      && |provided| <= MAX_NUM_BOOTINFO_UNTYPED_CAPS
      && forall i :: 0 <= i < |provided| ==> i in listed && listed[i] == provided[i]
    }

    /** provide_untyped_cap: without room in the boot info frame the block is lost, and that is no failure. */
    method ProvideUntypedCap(start: nat, sizeBits: nat) returns (ok: bool)
      requires Valid()
      modifies this
      ensures Valid()
      ensures var k := Listable(old(|provided|), 1);
        && (ok <==> k == 0 || old(slotPosCur) < slotPosMax)
        && provided == old(provided) + if ok then [Block(start, sizeBits)][..k] else []
    {
      var i := slotPosCur - firstUntypedSlot;
      if i < MAX_NUM_BOOTINFO_UNTYPED_CAPS {
        listed := listed[i := Block(start, sizeBits)];
        ok := ProvideCap(Block(start, sizeBits));
      } else {
        ok := true;
      }
    }

    /** provide_cap fails when the slots run out. */
    method ProvideCap(cap: Block) returns (ok: bool)
      modifies this`slotPosCur, this`provided
      ensures ok <==> old(slotPosCur) < slotPosMax
      ensures if ok then slotPosCur == old(slotPosCur) + 1 && provided == old(provided) + [cap]
              else slotPosCur == old(slotPosCur) && provided == old(provided)
    {
      if slotPosCur >= slotPosMax { return false; }
      provided := provided + [cap];
      slotPosCur := slotPosCur + 1;
      ok := true;
    }

    /** Where the first block starts: the bottom kernel page is never given out. */
    static function FirstStart(deviceMemory: bool, start: nat, kernelBase: nat): nat {
      if !deviceMemory && start == kernelBase then start + Pow2(PAGE_BITS) else start
    }

    /** create_untypeds_for_region. The region is cut into blocks, and the blocks become caps as far as the boot info
        frame has room for them. It fails only when the slots run out before that. A region of one page at
        kernelBase is excluded: the source would take the leading zeros of zero, which C leaves undefined. */
    method CreateUntypedsForRegion(deviceMemory: bool, start: nat, end: nat, kernelBase: nat)
      returns (ok: bool, ghost blocks: seq<Block>)
      requires Valid()
      requires 0 < start <= end < Pow2(WORD_BITS) && Multiple16(start) && Multiple16(end)
      requires !deviceMemory ==> kernelBase <= start  // memory of the kernel window
      requires start < end && !deviceMemory && start == kernelBase ==> start + Pow2(PAGE_BITS) < end
      modifies this
      ensures Valid()
      ensures start == end ==> ok && blocks == []
      ensures start < end ==> CutUp(blocks, FirstStart(deviceMemory, start, kernelBase), end, ok)
      ensures |blocks| <= 2 * WORD_BITS
      ensures provided == old(provided) + blocks[..Listable(old(|provided|), |blocks|)]
      ensures !ok ==> slotPosCur == slotPosMax && |provided| < MAX_NUM_BOOTINFO_UNTYPED_CAPS
    {
      var regStart := start;
      ghost var provided0 := provided;
      blocks := [];
      Begin(deviceMemory, start, end, kernelBase);
      while regStart != end
        invariant Valid() && start <= regStart <= end
        invariant provided == old(provided) + blocks[..Listable(old(|provided|), |blocks|)]
        invariant start == end ==> blocks == []
        invariant start < end ==> InProgress(blocks, deviceMemory, start, regStart, end, kernelBase)
        decreases end - regStart
      {
        ghost var before := regStart;
        if !deviceMemory && regStart == kernelBase {
          regStart := regStart + Pow2(PAGE_BITS);
        }
        assert regStart == FirstStart(deviceMemory, before, kernelBase);
        Progress(blocks, deviceMemory, start, before, end, kernelBase);
        Partly(blocks, deviceMemory, start, before, end, kernelBase);
        var sizeBits := BlockSize(regStart, end);
        ghost var block := Block(regStart, sizeBits);
        assert InProgress(blocks + [block], deviceMemory, start, End(block), end, kernelBase);
        OneMore(provided0, blocks, block);
        ok := ProvideUntypedCap(regStart, sizeBits);
        if !ok { return; }
        blocks := blocks + [block];
        regStart := regStart + Pow2(sizeBits);
        assert regStart == End(block);
      }
      if start < end { Wholly(blocks, deviceMemory, start, end, kernelBase); }
      ok := true;
    }

    /** The largest power of two that fits what is left and the alignment; at least 16 bytes, as the source asserts. */
    static method BlockSize(start: nat, end: nat) returns (sizeBits: nat)
      requires 0 < start < end < Pow2(WORD_BITS) && Multiple16(start) && Multiple16(end)
      ensures sizeBits == SizeBits(start, end)
    {
      sizeBits := WORD_BITS - 1 - CLZ(end - start);
      var alignBits := CTZ(start);
      if alignBits < sizeBits {
        sizeBits := alignBits;
      }
      StepSize(start, end);
      assert sizeBits >= WORD_BITS / 8;
    }

    /** The blocks so far reach up to where the next one starts, and few enough are still to come. */
    static ghost predicate InProgress(blocks: seq<Block>, deviceMemory: bool, start: nat, regStart: nat, end: nat,
                                      kernelBase: nat) {
      forall a: Aspect ::
        InProgressAt(a, blocks, start, regStart, FirstStart(deviceMemory, start, kernelBase),
                     FirstStart(deviceMemory, regStart, kernelBase), end)
    }

    static ghost predicate InProgressAt(a: Aspect, blocks: seq<Block>, start: nat, regStart: nat, first: nat,
                                        next: nat, end: nat) {
      match a
      case Position =>
        0 < start <= regStart && 0 < next <= end < Pow2(WORD_BITS)
        && (regStart < end ==> next < end) && Multiple16(next)
      case Tiling => Tile(blocks, first, next)
      case Budget => 0 < next <= end && |blocks| + StepsLeft(next, end) <= 2 * WORD_BITS
    }

    static lemma AllAspects(blocks: seq<Block>, deviceMemory: bool, start: nat, regStart: nat, end: nat,
                            kernelBase: nat)
      requires InProgress(blocks, deviceMemory, start, regStart, end, kernelBase)
      ensures var first, next := FirstStart(deviceMemory, start, kernelBase),
                 FirstStart(deviceMemory, regStart, kernelBase);
        && 0 < start <= regStart && 0 < next <= end < Pow2(WORD_BITS) && (regStart < end ==> next < end)
        && Multiple16(next) && Tile(blocks, first, next) && |blocks| + StepsLeft(next, end) <= 2 * WORD_BITS
    {
      var first, next := FirstStart(deviceMemory, start, kernelBase), FirstStart(deviceMemory, regStart, kernelBase);
      assert InProgressAt(Position, blocks, start, regStart, first, next, end);
      assert InProgressAt(Tiling, blocks, start, regStart, first, next, end);
      assert InProgressAt(Budget, blocks, start, regStart, first, next, end);
    }

    static lemma Wholly(blocks: seq<Block>, deviceMemory: bool, start: nat, end: nat, kernelBase: nat)
      requires InProgress(blocks, deviceMemory, start, end, end, kernelBase) && start < end
      requires !deviceMemory ==> kernelBase <= start
      ensures CutUp(blocks, FirstStart(deviceMemory, start, kernelBase), end, true) && |blocks| <= 2 * WORD_BITS
    {
      AllAspects(blocks, deviceMemory, start, end, end, kernelBase);
    }

    static lemma Partly(blocks: seq<Block>, deviceMemory: bool, start: nat, regStart: nat, end: nat, kernelBase: nat)
      requires InProgress(blocks, deviceMemory, start, regStart, end, kernelBase) && regStart < end
      ensures CutUp(blocks, FirstStart(deviceMemory, start, kernelBase), end, false) && |blocks| <= 2 * WORD_BITS
    {
      AllAspects(blocks, deviceMemory, start, regStart, end, kernelBase);
    }

    /** The block after a list cut short, or not, by the room there is. */
    static lemma OneMore(before: seq<Block>, blocks: seq<Block>, block: Block)
      ensures before + (blocks + [block])[..Listable(|before|, |blocks| + 1)] ==
        var was := before + blocks[..Listable(|before|, |blocks|)]; was + [block][..Listable(|was|, 1)]
    {
    }

    static lemma Begin(deviceMemory: bool, start: nat, end: nat, kernelBase: nat)
      requires 0 < start <= end < Pow2(WORD_BITS) && Multiple16(start)
      requires start < end && !deviceMemory && start == kernelBase ==> start + Pow2(PAGE_BITS) < end
      ensures start < end ==> InProgress([], deviceMemory, start, start, end, kernelBase)
    {
      if start < end {
        Pow2Multiple16(PAGE_BITS);
        Sum16(start, Pow2(PAGE_BITS));
        StepsBounded(FirstStart(deviceMemory, start, kernelBase), end);
      }
    }

    static lemma Progress(blocks: seq<Block>, deviceMemory: bool, start: nat, regStart: nat, end: nat, kernelBase: nat)
      requires InProgress(blocks, deviceMemory, start, regStart, end, kernelBase) && regStart < end && Multiple16(end)
      requires end < Pow2(WORD_BITS)
      requires !deviceMemory ==> kernelBase <= start
      ensures var next := FirstStart(deviceMemory, regStart, kernelBase);
        0 < next < end && Multiple16(next) && var b := Block(next, SizeBits(next, end));
        End(b) <= end && InProgress(blocks + [b], deviceMemory, start, End(b), end, kernelBase)
    {
      AllAspects(blocks, deviceMemory, start, regStart, end, kernelBase);
      var next := FirstStart(deviceMemory, regStart, kernelBase);
      Step(next, end);
      TileMore(blocks, FirstStart(deviceMemory, start, kernelBase), Block(next, SizeBits(next, end)));
    }
  }
}
