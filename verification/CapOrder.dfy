/** Capabilities and the comparators of cdt.c: the multi-level comparison that orders the derivation
    tree, and the tests of objecttype.c for two caps naming the same object. */
module CapOrder {
  import AATree
  import opened Basics

  // ---- Constants (kernel/include/arch/x86/arch/object, kernel/include/object/structures.h) ----

  const SPACE_NONE := 0
  const SPACE_UNTYPED := 1
  const SPACE_TYPED := 2
  const SPACE_IRQ := 3
  const SPACE_DOMAIN := 6

  const CTE_SIZE := 16
  const EP_SIZE_BITS := 4
  const CTE_SIZE_BITS := 4
  const TCB_BLOCK_SIZE_BITS := 10
  const TCB_CNODE_RADIX := 4
  const TCB_CNODE_ENTRIES := 6
  const MAX_BADGE := 0x0FFF_FFFF
  const MAX_DEPTH := 32

  const EQ := 0
  const GT := 1
  const LT := -1

  type Addr = nat

  // ---- Capabilities ----

  datatype ZombieType = ZombieTCB | ZombieCNode(radix: nat)

  /** `rights` and `guard` stand for the fields no comparator looks at.
      A zombie packs the slots left and the object's address into the one word `id`. */
  datatype Cap =
    | Null
    | Untyped(ptr: nat, blockSize: nat)
    | Endpoint(epPtr: nat, badge: nat, rights: nat)
    | AsyncEndpoint(aepPtr: nat, badge: nat, rights: nat)
    | CNode(cnodePtr: nat, radix: nat, guard: nat)
    | Thread(tcbPtr: nat)
    | Zombie(id: nat, ztype: ZombieType)
    | IRQControl
    | IRQHandler(irq: nat)
    | Domain

  /** A cap as it sits in memory: what every comparator gets to see. */
  datatype Slot = Slot(cap: Cap, depth: nat, addr: Addr)

  // ---- Zombies: one word for two fields ----

  function ZombieBits(z: ZombieType): nat {
    match z
    case ZombieTCB => TCB_CNODE_RADIX
    case ZombieCNode(r) => r
  }

  /** `x & MASK(k)`. */
  function LowBits(x: nat, k: nat): nat {
    if k == 0 then 0 else x % 2 + 2 * LowBits(x / 2, k - 1)
  }

  /** `x & ~MASK(k)`. */
  function HighBits(x: nat, k: nat): nat {
    if k == 0 then x else 2 * HighBits(x / 2, k - 1)
  }

  /** The two parts have no common bit, so the bitwise or of the source is a sum. */
  function ZombieNew(number: nat, z: ZombieType, ptr: nat): Cap {
    Zombie(HighBits(ptr, ZombieBits(z) + 1) + LowBits(number, ZombieBits(z) + 1), z)
  }

  function ZombieNumber(c: Cap): nat
    requires c.Zombie?
  {
    LowBits(c.id, ZombieBits(c.ztype) + 1)
  }

  function ZombiePtr(c: Cap): nat
    requires c.Zombie?
  {
    HighBits(c.id, ZombieBits(c.ztype) + 1)
  }

  function ZombieSetNumber(c: Cap, n: nat): Cap
    requires c.Zombie?
  {
    c.(id := HighBits(c.id, ZombieBits(c.ztype) + 1) + LowBits(n, ZombieBits(c.ztype) + 1))
  }

  /** Packing loses nothing when the object's address is aligned and the number fits its slots. */
  lemma ZombieRoundTrip(number: nat, z: ZombieType, ptr: nat)
    requires number <= Pow2(ZombieBits(z))
    requires HighBits(ptr, ZombieBits(z) + 1) == ptr
    ensures ZombieNumber(ZombieNew(number, z, ptr)) == number
    ensures ZombiePtr(ZombieNew(number, z, ptr)) == ptr
  {
    LowFits(number, ZombieBits(z) + 1);
    Pack(ptr, number, ZombieBits(z) + 1);
  }

  /** Lowering the number leaves the object's address alone. */
  lemma ZombieCountDown(c: Cap, n: nat)
    requires c.Zombie? && n <= Pow2(ZombieBits(c.ztype))
    ensures ZombieNumber(ZombieSetNumber(c, n)) == n
    ensures ZombiePtr(ZombieSetNumber(c, n)) == ZombiePtr(c)
    ensures ZombieSetNumber(c, n).ztype == c.ztype
  {
    LowFits(n, ZombieBits(c.ztype) + 1);
    Pack(c.id, n, ZombieBits(c.ztype) + 1);
  }

  lemma {:induction false} LowFits(n: nat, k: nat)
    requires n < Pow2(k)
    ensures LowBits(n, k) == n
  {
    if k > 0 { LowFits(n / 2, k - 1); }
  }

  lemma {:induction false} Pack(x: nat, n: nat, k: nat)
    requires n < Pow2(k)
    ensures LowBits(HighBits(x, k) + n, k) == n
    ensures HighBits(HighBits(x, k) + n, k) == HighBits(x, k)
  {
    if k > 0 {
      Pack(x / 2, n / 2, k - 1);
      assert (HighBits(x, k) + n) / 2 == HighBits(x / 2, k - 1) + n / 2;
    }
  }

  // ---- Cap fields ----

  function SpaceType(c: Cap): int {
    match c
    case Null => SPACE_NONE
    case Untyped(_, _) => SPACE_UNTYPED
    case IRQControl => SPACE_IRQ
    case IRQHandler(_) => SPACE_IRQ
    case Domain => SPACE_DOMAIN
    case _ => SPACE_TYPED
  }

  function CapPtr(c: Cap): nat {
    match c
    case Untyped(p, _) => p
    case Endpoint(p, _, _) => p
    case AsyncEndpoint(p, _, _) => p
    case CNode(p, _, _) => p
    case Thread(t) => HighBits(t, TCB_BLOCK_SIZE_BITS)
    case Zombie(_, _) => ZombiePtr(c)
    case _ => 0
  }

  function SizeBits(c: Cap): nat {
    match c
    case Untyped(_, n) => n
    case Endpoint(_, _, _) => EP_SIZE_BITS
    case AsyncEndpoint(_, _, _) => EP_SIZE_BITS
    case CNode(_, r, _) => r + CTE_SIZE_BITS
    case Thread(_) => TCB_BLOCK_SIZE_BITS
    case Zombie(_, ZombieTCB) => TCB_BLOCK_SIZE_BITS
    case Zombie(_, ZombieCNode(r)) => r + CTE_SIZE_BITS
    case _ => 0
  }

  function Badge(c: Cap): nat {
    match c
    case Endpoint(_, b, _) => b
    case AsyncEndpoint(_, b, _) => b
    case _ => 0
  }

  function SpacePtr(c: Cap): nat {
    if c.IRQHandler? then c.irq else CapPtr(c)
  }

  function SpaceSize(c: Cap): nat {
    match c
    case IRQControl => 0xff
    case IRQHandler(_) => 1
    case Domain => 1
    case _ => Pow2(SizeBits(c))
  }

  /** Equal in every field a comparator or a finality test looks at. */
  predicate CapsEqual(a: Cap, b: Cap) {
    && SpaceType(a) == SpaceType(b)
    && SpacePtr(a) == SpacePtr(b)
    && SpaceSize(a) == SpaceSize(b)
    && Badge(a) == Badge(b)
  }

  // ---- Comparators ----

  function Compare(a: int, b: int): int {
    if a == b then EQ else if a > b then GT else LT
  }

  /** The tie-break comparators of cdt.c:47-64, 388-404, 533-555, for caps without an extra component. */
  datatype TieBreak = BySlot | SlotEqual | SlotBelow | AlwaysBelow

  function Tie(tie: TieBreak, a: Slot, b: Slot): int {
    if tie.AlwaysBelow? then LT
    else if Compare(a.depth, b.depth) != EQ then Compare(a.depth, b.depth)
    else match tie
      case BySlot => Compare(a.addr, b.addr)
      case SlotEqual => EQ
      case _ => LT
  }

  function UntypedComparator(a: Slot, b: Slot, tie: TieBreak): int
    requires a.cap.Untyped? && b.cap.Untyped?
  {
    if Compare(a.cap.ptr, b.cap.ptr) != EQ then Compare(a.cap.ptr, b.cap.ptr)
    else if Compare(a.cap.blockSize, b.cap.blockSize) != EQ then -Compare(a.cap.blockSize, b.cap.blockSize)
    else Tie(tie, a, b)
  }

  function TypedComparator(a: Slot, b: Slot, tie: TieBreak): int {
    if Compare(CapPtr(a.cap), CapPtr(b.cap)) != EQ then Compare(CapPtr(a.cap), CapPtr(b.cap))
    else if (a.cap.Endpoint? || a.cap.AsyncEndpoint?) && Compare(Badge(a.cap), Badge(b.cap)) != EQ then
      Compare(Badge(a.cap), Badge(b.cap))
    else Tie(tie, a, b)
  }

  function IrqComparator(a: Slot, b: Slot, tie: TieBreak): int {
    if a.cap.IRQControl? && b.cap.IRQControl? then Tie(tie, a, b)
    else if a.cap.IRQHandler? && b.cap.IRQHandler? then
      if Compare(a.cap.irq, b.cap.irq) != EQ then Compare(a.cap.irq, b.cap.irq) else Tie(tie, a, b)
    else if a.cap.IRQControl? then LT
    else GT
  }

  function CompSlotWith(a: Slot, b: Slot, tie: TieBreak): int {
    if Compare(SpaceType(a.cap), SpaceType(b.cap)) != EQ then Compare(SpaceType(a.cap), SpaceType(b.cap))
    else match a.cap
      case Untyped(_, _) => UntypedComparator(a, b, tie)
      case IRQControl => IrqComparator(a, b, tie)
      case IRQHandler(_) => IrqComparator(a, b, tie)
      case Domain => Tie(tie, a, b)
      case _ => TypedComparator(a, b, tie)
  }

  function CompSlot(a: Slot, b: Slot): int {
    CompSlotWith(a, b, BySlot)
  }

  // ---- The order behind the comparators ----

  /** Everything the comparators look at, as one lexicographic key. */
  datatype Key = Key(space: int, hi: int, lo: int, depth: nat, addr: Addr)

  function HiOf(c: Cap): int {
    match c
    case IRQControl => -1
    case IRQHandler(i) => i
    case _ => CapPtr(c)
  }

  function LoOf(c: Cap): int {
    match c
    case Untyped(_, n) => -(n as int)
    case _ => Badge(c)
  }

  function KeyOf(s: Slot): Key {
    Key(SpaceType(s.cap), HiOf(s.cap), LoOf(s.cap), s.depth, s.addr)
  }

  /** Order on the part of a key that says which object and which badge or size. */
  function CapCompare(a: Key, b: Key): int {
    if a.space != b.space then Compare(a.space, b.space)
    else if a.hi != b.hi then Compare(a.hi, b.hi)
    else Compare(a.lo, b.lo)
  }

  function DepthCompare(a: Key, b: Key): int {
    if CapCompare(a, b) != EQ then CapCompare(a, b) else Compare(a.depth, b.depth)
  }

  function KeyCompare(a: Key, b: Key): int {
    if DepthCompare(a, b) != EQ then DepthCompare(a, b) else Compare(a.addr, b.addr)
  }

  predicate KeyLess(a: Key, b: Key) {
    KeyCompare(a, b) == LT
  }

  /** Two typed caps for one address name the same kind and size of object: typed objects do not overlap. */
  predicate Agree(a: Cap, b: Cap) {
    SpaceType(a) == SPACE_TYPED && SpaceType(b) == SPACE_TYPED && CapPtr(a) == CapPtr(b) ==>
      match a
      case Endpoint(_, _, _) => b.Endpoint?
      case AsyncEndpoint(_, _, _) => b.AsyncEndpoint?
      case CNode(_, r, _) => b.CNode? && b.radix == r
      case Thread(t) => b.Thread? && b.tcbPtr == t
      case Zombie(_, z) => b.Zombie? && b.ztype == z
      case _ => false
  }

  /** `compSlot` is the lexicographic order on keys. */
  lemma CompSlotIsKeyOrder(a: Slot, b: Slot)
    requires !a.cap.Null? && !b.cap.Null? && Agree(a.cap, b.cap)
    ensures CompSlot(a, b) == KeyCompare(KeyOf(a), KeyOf(b))
    ensures CompSlotWith(a, b, SlotEqual) == DepthCompare(KeyOf(a), KeyOf(b))
    ensures CompSlotWith(a, b, SlotBelow) == GT <==> DepthCompare(KeyOf(a), KeyOf(b)) == GT
    ensures CompSlotWith(a, b, AlwaysBelow) == LT <==> CapCompare(KeyOf(a), KeyOf(b)) != GT
  {
  }

  lemma KeyOrderTotal()
    ensures AATree.TotalOrder(KeyLess)
  {
  }

  /** Hence `compSlot` is a strict total order on slots whose caps agree: antisymmetric, transitive,
      and equal only for one and the same slot address with the same cap position. */
  lemma CompSlotTotal(a: Slot, b: Slot, c: Slot)
    requires !a.cap.Null? && !b.cap.Null? && !c.cap.Null?
    requires Agree(a.cap, b.cap) && Agree(b.cap, c.cap) && Agree(a.cap, c.cap)
    ensures CompSlot(a, b) == -CompSlot(b, a)
    ensures CompSlot(a, b) == LT && CompSlot(b, c) == LT ==> CompSlot(a, c) == LT
    ensures CompSlot(a, b) == EQ <==> a.addr == b.addr && a.depth == b.depth && CapsEqual(a.cap, b.cap)
  {
    assert Agree(b.cap, a.cap);
    CompSlotIsKeyOrder(a, b);
    CompSlotIsKeyOrder(b, a);
    CompSlotIsKeyOrder(b, c);
    CompSlotIsKeyOrder(a, c);
    if a.cap.Untyped? && b.cap.Untyped? { Pow2Injective(a.cap.blockSize, b.cap.blockSize); }
  }

  // ---- Caps that name the same object (objecttype.c) ----

  predicate SameRegionAs(a: Cap, b: Cap) {
    match a
    case Untyped(aBase, n) =>
      var bBase := CapPtr(b);
      var aTop := aBase + Pow2(n) - 1;
      var bTop := bBase + Pow2(SizeBits(b)) - 1;
      bBase != 0 && aBase <= bBase && bTop <= aTop && bBase <= bTop
    case Endpoint(p, _, _) => b.Endpoint? && b.epPtr == p
    case AsyncEndpoint(p, _, _) => b.AsyncEndpoint? && b.aepPtr == p
    case CNode(p, r, _) => b.CNode? && b.cnodePtr == p && b.radix == r
    case Thread(t) => b.Thread? && b.tcbPtr == t
    case Domain => b.Domain?
    case IRQControl => b.IRQControl? || b.IRQHandler?
    case IRQHandler(i) => b.IRQHandler? && b.irq == i
    case _ => false
  }

  /** The byte at `x` is one of the `1 << bits` bytes at `base`. */
  predicate Byte(base: nat, bits: nat, x: nat) {
    base <= x < base + Pow2(bits)
  }

  /** All bytes of the one are bytes of the other. */
  ghost predicate BytesIn(a: nat, m: nat, b: nat, n: nat) {
    forall x: nat :: Byte(a, m, x) ==> Byte(b, n, x)
  }

  lemma BytesInBounds(a: nat, m: nat, b: nat, n: nat)
    ensures BytesIn(a, m, b, n) <==> b <= a && a + Pow2(m) <= b + Pow2(n)
  {
    if BytesIn(a, m, b, n) {
      assert Byte(a, m, a) && Byte(a, m, a + Pow2(m) - 1);
    }
  }

  /** The cap is to memory, all of it among the `1 << bits` bytes at `base`. */
  ghost predicate Inside(c: Cap, base: nat, bits: nat) {
    CapPtr(c) != 0 && BytesIn(CapPtr(c), SizeBits(c), base, bits)
  }

  /** For untyped memory sameRegionAs asks whether the object lies in it, byte for byte. */
  lemma RegionIsBytes(base: nat, n: nat, c: Cap)
    ensures SameRegionAs(Untyped(base, n), c) <==> Inside(c, base, n)
  {
    BytesInBounds(CapPtr(c), SizeBits(c), base, n);
  }

  predicate SameObjectAs(a: Cap, b: Cap) {
    if a.Untyped? then false
    else if a.IRQControl? && b.IRQHandler? then false
    else SameRegionAs(a, b)
  }

  /** Among agreeing caps, naming the same object means standing in one contiguous stretch of the order. */
  lemma SameObjectIsStretch(a: Cap, b: Cap)
    requires Agree(a, b) && !a.Null? && !b.Null?
    ensures SameObjectAs(a, b) <==>
      !a.Untyped? && !a.Zombie? && SpaceType(a) == SpaceType(b) && HiOf(a) == HiOf(b)
  {
  }

  // ---- Children in the derivation order (cdt.c) ----

  /** The greatest cap that can still be a child of `c`. */
  function BuildLargestChild(c: Cap): Cap
    requires c.Untyped? ==> c.blockSize >= 4
  {
    match c
    case IRQControl => IRQHandler(0xff)
    case Untyped(p, n) =>
      Pow2Grows(4, n);
      Untyped(p + (Pow2(n) - Pow2(4)), 4)
    case Endpoint(p, b, _) => if b == 0 then Endpoint(p, MAX_BADGE, 0) else c
    case AsyncEndpoint(p, b, _) => if b == 0 then AsyncEndpoint(p, MAX_BADGE, 0) else c
    case _ => c
  }

  /** `a` lies above `p` in the order, slot addresses aside, and not above the greatest possible child. */
  predicate IsChild(p: Slot, a: Slot)
    requires p.cap.Untyped? ==> p.cap.blockSize >= 4
  {
    && DepthCompare(KeyOf(a), KeyOf(p)) == GT
    && CapCompare(KeyOf(a), KeyOf(Slot(BuildLargestChild(p.cap), 0, 0))) != GT
  }

  /** What that means for the objects: outside untyped memory a child is a badged or deeper cap to the
      parent's object, or an interrupt handler under interrupt control. */
  lemma ChildMeaning(p: Slot, a: Slot)
    requires p.cap != Null && a.cap != Null && !p.cap.Untyped? && Agree(a.cap, p.cap)
    requires Badge(a.cap) <= MAX_BADGE && (a.cap.IRQHandler? ==> a.cap.irq <= 0xff)
    ensures IsChild(p, a) <==>
      || (p.cap.IRQControl? && a.cap.IRQHandler?)
      || (SpaceType(a.cap) == SpaceType(p.cap) && HiOf(a.cap) == HiOf(p.cap)
          && (if Badge(a.cap) == Badge(p.cap) then a.depth > p.depth else Badge(p.cap) == 0))
  {
  }

  /** Regions of untyped memory are nested or have no byte in common. */
  ghost predicate Nested(p: Cap, a: Cap)
    requires p.Untyped? && a.Untyped?
  {
    || BytesIn(a.ptr, a.blockSize, p.ptr, p.blockSize) || BytesIn(p.ptr, p.blockSize, a.ptr, a.blockSize)
    || (forall x: nat :: !(Byte(p.ptr, p.blockSize, x) && Byte(a.ptr, a.blockSize, x)))
  }

  lemma NestedBounds(p: Cap, a: Cap)
    requires p.Untyped? && a.Untyped? && Nested(p, a)
    ensures BytesIn(a.ptr, a.blockSize, p.ptr, p.blockSize) || BytesIn(p.ptr, p.blockSize, a.ptr, a.blockSize)
            || a.ptr + Pow2(a.blockSize) <= p.ptr || p.ptr + Pow2(p.blockSize) <= a.ptr
  {
    assert Byte(a.ptr, a.blockSize, a.ptr) && Byte(p.ptr, p.blockSize, p.ptr);
  }

  /** Within untyped memory a child by order is a part of the parent's region, or the same region at greater depth. */
  lemma UntypedChildMeaning(p: Slot, a: Slot)
    requires p.cap.Untyped? && a.cap.Untyped? && p.cap.blockSize >= 4 && a.cap.blockSize >= 4 && Nested(p.cap, a.cap)
    ensures IsChild(p, a) <==>
      && BytesIn(a.cap.ptr, a.cap.blockSize, p.cap.ptr, p.cap.blockSize)
      && (a.cap == p.cap ==> a.depth > p.depth)
  {
    Pow2Grows(4, p.cap.blockSize);
    Pow2Grows(4, a.cap.blockSize);
    Pow2Order(p.cap.blockSize, a.cap.blockSize);
    Pow2Order(a.cap.blockSize, p.cap.blockSize);
    NestedBounds(p.cap, a.cap);
    BytesInBounds(a.cap.ptr, a.cap.blockSize, p.cap.ptr, p.cap.blockSize);
    BytesInBounds(p.cap.ptr, p.cap.blockSize, a.cap.ptr, a.cap.blockSize);
  }

  lemma Pow2Order(m: nat, n: nat)
    ensures Pow2(m) <= Pow2(n) <==> m <= n
  {
    if m <= n { Pow2Grows(m, n); } else { Pow2Grows(n, m); }
  }

  /** A child of a cap that is neither untyped memory nor a zombie is no zombie itself, and naming the
      parent's object it can never be that object's last cap. */
  lemma ChildNotLast(p: Slot, a: Slot)
    requires p.cap != Null && a.cap != Null && !p.cap.Untyped? && !p.cap.Zombie? && Agree(a.cap, p.cap)
    requires Agree(p.cap, a.cap)
    requires IsChild(p, a)
    ensures !a.cap.Zombie? && (SameObjectAs(p.cap, a.cap) || a.cap.IRQHandler?)
  {
  }

  // ---- Typed objects in a region of memory (cdt.c) ----

  /** What cdtFindTypedInRange searches for: the least typed cap to an object at the top of the region. */
  function RangeTop(base: nat, sizeBits: nat): Slot
    requires sizeBits >= EP_SIZE_BITS
  {
    Pow2Grows(EP_SIZE_BITS, sizeBits);
    Slot(Endpoint(base + (Pow2(sizeBits) - Pow2(EP_SIZE_BITS)), 0, 0), 0, 0)
  }

  /** A typed cap to an object in the region, other than a badged cap to an endpoint in its last sixteen bytes. */
  ghost predicate Findable(base: nat, sizeBits: nat, c: Cap) {
    && SpaceType(c) == SPACE_TYPED && Inside(c, base, sizeBits)
    && !(Badge(c) != 0 && CapPtr(c) + Pow2(EP_SIZE_BITS) == base + Pow2(sizeBits))
  }

  /** The search from below sees the slots up to that cap in the order, and no others. */
  lemma BelowRangeTop(a: Slot, base: nat, sizeBits: nat)
    requires sizeBits >= EP_SIZE_BITS
    ensures CompSlotWith(a, RangeTop(base, sizeBits), AlwaysBelow) == LT <==>
      CapCompare(KeyOf(a), KeyOf(RangeTop(base, sizeBits))) != GT
  {
  }

  /** Of the typed caps to objects in the region it sees exactly the findable ones. */
  lemma FindableIsSeen(a: Slot, base: nat, sizeBits: nat)
    requires sizeBits >= EP_SIZE_BITS
    requires SpaceType(a.cap) == SPACE_TYPED && Inside(a.cap, base, sizeBits)
    ensures Findable(base, sizeBits, a.cap) <==> CompSlotWith(a, RangeTop(base, sizeBits), AlwaysBelow) == LT
  {
    BytesInBounds(CapPtr(a.cap), SizeBits(a.cap), base, sizeBits);
    Pow2Grows(EP_SIZE_BITS, SizeBits(a.cap));
    Pow2Grows(EP_SIZE_BITS, sizeBits);
  }
}
