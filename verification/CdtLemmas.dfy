/** What inserting, removing and relabelling do to the derivation tree and its view of the capabilities (cdt.c). */
module CdtLemmas {
  import opened AATree
  import opened AASearch
  import opened Basics
  import opened CapOrder
  import opened CdtMemory

  /** The depth cdtInsert gives a slot derived from `parentSlot`: one more, up to what the bit field holds. */
  function ChildDepth(m: Memory, parentSlot: Addr, newSlot: Addr): nat
    requires newSlot in m && (parentSlot == 0 || parentSlot in m)
  {
    if parentSlot == 0 || SpaceType(m[parentSlot].cap) != SpaceType(m[newSlot].cap) then 0
    else if m[parentSlot].depth + 1 == MAX_DEPTH then m[parentSlot].depth
    else m[parentSlot].depth + 1
  }

  /** Memory once two slots hold each other's (possibly updated) caps and depths. */
  ghost function Swapped(m: Memory, cap1: Cap, slot1: Addr, cap2: Cap, slot2: Addr): Memory
    requires slot1 in m && slot2 in m
  {
    m[slot1 := m[slot1].(cap := cap2, depth := m[slot2].depth)]
     [slot2 := m[slot2].(cap := cap1, depth := m[slot1].depth)]
  }

  ghost function SwappedSlots(s: set<Addr>, cap1: Cap, slot1: Addr, cap2: Cap, slot2: Addr): set<Addr> {
    set a | a in s + {slot1, slot2} &&
            (if a == slot1 then cap2 != Null else if a == slot2 then cap1 != Null else true)
  }

  lemma SwappedInSteps(s: set<Addr>, s0: set<Addr>, s1: set<Addr>, s2: set<Addr>,
                       cap1: Cap, slot1: Addr, cap2: Cap, slot2: Addr)
    requires slot1 != slot2 && s0 == s - {slot1, slot2}
    requires s1 == if cap2 == Null then s0 else s0 + {slot1}
    requires s2 == if cap1 == Null then s1 else s1 + {slot2}
    ensures s2 == SwappedSlots(s, cap1, slot1, cap2, slot2)
  {
  }

  /** The address of a tree in memory. */
  function RootOf(t: Tree<Addr>): Addr {
    if t.Leaf? then 0 else t.elem
  }

  lemma {:induction false} SubAtRep(m: Memory, p: Addr, less: (Addr, Addr) -> bool, t: Tree<Addr>, e: Addr)
    requires Rep(m, p, t) && TotalOrder(less) && Sorted(less, Flatten(t)) && e in Flatten(t)
    ensures Rep(m, e, SubAt(less, t, e))
    decreases t
  {
    SortedParts(less, Flatten(t.left), t.elem, Flatten(t.right));
    if t.elem == e {
    } else if less(t.elem, e) {
      SubAtRep(m, m[p].right, less, t.right, e);
    } else {
      SubAtRep(m, m[p].left, less, t.left, e);
    }
  }

  /** One step up in memory, from `cur` to its parent `r`. */
  lemma {:induction false} Climb(m: Memory, p: Addr, less: (Addr, Addr) -> bool, t: Tree<Addr>, cur: Addr, r: Addr)
    requires Rep(m, p, t) && TotalOrder(less) && Sorted(less, Flatten(t)) && cur in Slots(t)
    requires r == RootOf(ParentOf(less, t, cur))
    ensures r == 0 ==> Before(less, t, cur) == 0 && UpTo(less, t, cur) == |Flatten(t)|
    ensures r != 0 ==>
      && r in Slots(t) && r in m && (m[r].left == cur || m[r].right == cur) && m[r].left != m[r].right
      && |Flatten(SubAt(less, t, cur))| < |Flatten(SubAt(less, t, r))| <= |Flatten(t)|
    ensures r != 0 && m[r].right == cur ==>
      && UpTo(less, t, r) == UpTo(less, t, cur)
      && 0 < Before(less, t, cur) <= |Flatten(t)| && Flatten(t)[Before(less, t, cur) - 1] == r
    ensures r != 0 && m[r].left == cur ==>
      && Before(less, t, r) == Before(less, t, cur)
      && UpTo(less, t, cur) < |Flatten(t)| && Flatten(t)[UpTo(less, t, cur)] == r
  {
    RepSlots(m, p, t);
    SlotsListed(t);
    if cur != t.elem {
      ParentPlace(less, t, cur);
      SubAtRep(m, p, less, t, r);
      var q := SubAt(less, t, r);
      SubtreeSorted(less, t, r);
      SortedApart(less, q);
      SubAtListed(less, t, cur);
    }
  }

  lemma {:induction false} AroundSlot(m: Memory, p: Addr, less: (Addr, Addr) -> bool, t: Tree<Addr>, e: Addr)
    requires Rep(m, p, t) && TotalOrder(less) && Sorted(less, Flatten(t)) && e in Slots(t)
    ensures e in m && Rep(m, e, SubAt(less, t, e)) && Position(less, t, e) < |Flatten(t)|
    ensures var u, i := SubAt(less, t, e), Position(less, t, e);
      && u.Node?
      && (if u.right.Node? then i + 1 < |Flatten(t)| && Flatten(t)[i + 1] == Least(u.right)
          else UpTo(less, t, e) == i + 1)
      && (if u.left.Node? then 0 < i && Flatten(t)[i - 1] == Greatest(u.left)
          else Before(less, t, e) == i)
  {
    SlotsListed(t);
    SubAtListed(less, t, e);
    SubAtRep(m, p, less, t, e);
    AroundElement(less, t, e);
  }

  lemma {:induction false} SubtreeSorted(less: (Addr, Addr) -> bool, t: Tree<Addr>, e: Addr)
    requires TotalOrder(less) && Sorted(less, Flatten(t)) && e in Flatten(t)
    ensures Sorted(less, Flatten(SubAt(less, t, e)))
  {
    SortedParts(less, Flatten(t.left), t.elem, Flatten(t.right));
    if t.elem == e {
    } else if less(t.elem, e) {
      SubtreeSorted(less, t.right, e);
    } else {
      SubtreeSorted(less, t.left, e);
    }
  }

  /** A copy derived from a parent counts as its child exactly while the parent's depth leaves room for one more:
      past that the copy becomes a sibling, which revoking the parent does not find. */
  lemma DerivedCopyIsChild(m: Memory, parentSlot: Addr, newSlot: Addr)
    requires parentSlot != 0 && parentSlot in m && newSlot in m && m[parentSlot].depth < MAX_DEPTH
    requires m[newSlot].cap != Null && CapsEqual(m[parentSlot].cap, m[newSlot].cap)
    requires m[parentSlot].cap.Untyped? ==> m[parentSlot].cap.blockSize >= 4
    requires Badge(m[newSlot].cap) <= MAX_BADGE
    ensures IsChild(SlotAt(m, parentSlot), Slot(m[newSlot].cap, ChildDepth(m, parentSlot, newSlot), newSlot)) <==>
      m[parentSlot].depth + 1 < MAX_DEPTH
  {
    var c := m[parentSlot].cap;
    EqualCapsSameKey(Slot(c, 0, 0), Slot(m[newSlot].cap, 0, 0));
    if c.Untyped? { Pow2Grows(4, c.blockSize); assert Pow2(4) == 16 by { assert Pow2(2) == 4; } }
  }

  // ---- Finality ----

  /** No other slot in `s` holds a cap to the same object. */
  ghost predicate NoOtherNames(m: Memory, s: set<Addr>, slot: Addr)
    requires s <= m.Keys && slot in m
  {
    forall a :: a in s && a != slot ==> !SameObjectAs(m[a].cap, m[slot].cap)
  }

  /** If any listed slot names the object of `s[i]`, so does the neighbour in its direction. */
  lemma SameObjectNearby(m: Memory, c: set<Addr>, s: seq<Addr>, i: nat, j: nat)
    requires Comparable(m, c) && Sorted(Order(ViewOf(m)), s) && (forall a :: a in s ==> a in c)
    requires i < |s| && j < |s| && i != j && SameObjectAs(m[s[j]].cap, m[s[i]].cap)
    ensures var n := if i < j then i + 1 else i - 1; SameObjectAs(m[s[n]].cap, m[s[i]].cap)
  {
    var n := if i < j then i + 1 else i - 1;
    var v := ViewOf(m);
    assert Pair(s[j], s[i]) && Pair(s[n], s[i]);
    assert Order(v)(s[i], s[n]) || Order(v)(s[n], s[i]);
    assert n == j || Order(v)(s[n], s[j]) || Order(v)(s[j], s[n]);
    SameObjectIsStretch(m[s[j]].cap, m[s[i]].cap);
    SameObjectIsStretch(m[s[n]].cap, m[s[i]].cap);
  }

  /** Neither neighbour in the listing names the same object. */
  ghost predicate NeighboursDiffer(m: Memory, s: seq<Addr>, i: nat)
    requires i < |s| && forall a :: a in s ==> a in m
  {
    && (i + 1 < |s| ==> !SameObjectAs(m[s[i + 1]].cap, m[s[i]].cap))
    && (0 < i ==> !SameObjectAs(m[s[i - 1]].cap, m[s[i]].cap))
  }

  lemma FinalByNeighbours(m: Memory, c: set<Addr>, s: seq<Addr>, i: nat)
    requires Comparable(m, c) && Sorted(Order(ViewOf(m)), s) && (forall a :: a in s <==> a in c)
    requires i < |s|
    ensures NoOtherNames(m, c, s[i]) <==> NeighboursDiffer(m, s, i)
  {
    if i + 1 < |s| { assert Order(ViewOf(m))(s[i], s[i + 1]); }
    if 0 < i { assert Order(ViewOf(m))(s[i - 1], s[i]); }
    forall a | a in c && a != s[i] && SameObjectAs(m[a].cap, m[s[i]].cap)
      ensures var n := if Order(ViewOf(m))(s[i], a) then i + 1 else i - 1;
        0 <= n < |s| && SameObjectAs(m[s[n]].cap, m[s[i]].cap)
    {
      var j :| 0 <= j < |s| && s[j] == a;
      if i < j { assert Order(ViewOf(m))(s[i], s[j]); } else { assert Order(ViewOf(m))(s[j], s[i]); }
      SameObjectNearby(m, c, s, i, j);
    }
  }

  // ---- Searching from below ----

  ghost function IsBelow(m: Memory, hypothetical: Slot, tie: TieBreak): Addr -> bool {
    (a: Addr) => a in m && CompSlotWith(SlotAt(m, a), hypothetical, tie) == LT
  }

  /** The state of the search: the listing is `a + rest + b`, with `p` true on `a` and false on `b`. */
  ghost predicate Narrowed(s: seq<Addr>, p: Addr -> bool, a: seq<Addr>, rest: seq<Addr>, b: seq<Addr>) {
    && s == a + rest + b
    && (forall i :: 0 <= i < |a| ==> p(a[i]))
    && (forall i :: 0 <= i < |b| ==> !p(b[i]))
  }

  lemma NarrowRight(s: seq<Addr>, p: Addr -> bool, a: seq<Addr>, l: seq<Addr>, x: Addr, r: seq<Addr>, b: seq<Addr>)
    requires Prefix(s, p) && Narrowed(s, p, a, l + [x] + r, b) && p(x)
    ensures Narrowed(s, p, a + l + [x], r, b)
  {
    assert s == (a + l + [x]) + r + b;
    assert s[|a| + |l|] == x;
    forall i | 0 <= i < |a + l + [x]| ensures p((a + l + [x])[i]) {
      assert s[i] == (a + l + [x])[i];
    }
  }

  lemma NarrowLeft(s: seq<Addr>, p: Addr -> bool, a: seq<Addr>, l: seq<Addr>, x: Addr, r: seq<Addr>, b: seq<Addr>)
    requires Prefix(s, p) && Narrowed(s, p, a, l + [x] + r, b) && !p(x)
    ensures Narrowed(s, p, a, l, [x] + r + b)
  {
    assert s == a + l + ([x] + r + b);
    assert s[|a| + |l|] == x;
    forall i | 0 <= i < |[x] + r + b| ensures !p(([x] + r + b)[i]) {
      assert s[|a| + |l| + i] == ([x] + r + b)[i];
    }
  }

  /** The comparison of aaFindFromBelow with the best slot so far always finds the new one greater. */
  lemma {:induction false} LastIsLess(m: Memory, t: Tree<Addr>, a: seq<Addr>, l: seq<Addr>, x: Addr, r: seq<Addr>,
                                      b: seq<Addr>)
    requires Comparable(m, Slots(t)) && Sorted(Order(ViewOf(m)), Flatten(t))
    requires Flatten(t) == a + (l + [x] + r) + b && a != []
    ensures a[|a| - 1] in m && x in m && CompSlot(SlotAt(m, x), SlotAt(m, a[|a| - 1])) == GT
  {
    var s := Flatten(t);
    SlotsListed(t);
    assert s[|a| - 1] == a[|a| - 1] && s[|a| + |l|] == x;
    assert s[|a| - 1] in s && s[|a| + |l|] in s;
    CompSlotOrders(m, Slots(t), x, a[|a| - 1]);
  }

  lemma NarrowedOut(less: (Addr, Addr) -> bool, s: seq<Addr>, p: Addr -> bool, a: seq<Addr>, b: seq<Addr>)
    requires Sorted(less, s) && Narrowed(s, p, a, [], b)
    ensures a == [] ==> forall x :: x in s ==> !p(x)
    ensures a != [] ==> var z := a[|a| - 1];
      z in s && p(z) && forall x :: x in s && p(x) ==> x == z || less(x, z)
  {
    assert s == a + b;
    if a != [] {
      assert s[|a| - 1] == a[|a| - 1];
      assert forall i :: |a| <= i < |s| ==> s[i] == b[i - |a|];
      forall x | x in s && p(x) ensures x == a[|a| - 1] || less(x, a[|a| - 1]) {
        var i :| 0 <= i < |s| && s[i] == x;
      }
    }
  }

  /** The hypothetical slot _cdtFindChild searches for. */
  function LargestChild(p: Slot): Slot
    requires p.cap.Untyped? ==> p.cap.blockSize >= 4
  {
    Slot(BuildLargestChild(p.cap), 0, 0)
  }

  lemma BelowLargestChild(m: Memory, s: set<Addr>, parentSlot: Addr, a: Addr)
    requires Comparable(m, s) && parentSlot in s && a in s
    requires m[parentSlot].cap.Untyped? ==> m[parentSlot].cap.blockSize >= 4
    ensures IsBelow(m, LargestChild(SlotAt(m, parentSlot)), AlwaysBelow)(a) <==>
      CapCompare(KeyOf(SlotAt(m, a)), KeyOf(LargestChild(SlotAt(m, parentSlot)))) != GT
  {
    assert Pair(a, parentSlot);
    CompSlotIsKeyOrder(SlotAt(m, a), LargestChild(SlotAt(m, parentSlot)));
  }

  /** The search sees a prefix of the listing: everything up to the greatest possible child. */
  lemma {:induction false} UpToLargestChild(m: Memory, t: Tree<Addr>, parentSlot: Addr)
    requires Comparable(m, Slots(t)) && Sorted(Order(ViewOf(m)), Flatten(t)) && parentSlot in Slots(t)
    requires m[parentSlot].cap.Untyped? ==> m[parentSlot].cap.blockSize >= 4
    ensures Prefix(Flatten(t), IsBelow(m, LargestChild(SlotAt(m, parentSlot)), AlwaysBelow))
  {
    var s, below := Flatten(t), IsBelow(m, LargestChild(SlotAt(m, parentSlot)), AlwaysBelow);
    SlotsListed(t);
    forall i, j | 0 <= i < j < |s| && below(s[j]) ensures below(s[i]) {
      assert s[i] in s && s[j] in s;
      BelowDownwards(m, Slots(t), parentSlot, s[i], s[j]);
    }
  }

  lemma BelowDownwards(m: Memory, s: set<Addr>, parentSlot: Addr, a: Addr, b: Addr)
    requires Comparable(m, s) && parentSlot in s && a in s && b in s && Order(ViewOf(m))(a, b)
    requires m[parentSlot].cap.Untyped? ==> m[parentSlot].cap.blockSize >= 4
    requires IsBelow(m, LargestChild(SlotAt(m, parentSlot)), AlwaysBelow)(b)
    ensures IsBelow(m, LargestChild(SlotAt(m, parentSlot)), AlwaysBelow)(a)
  {
    BelowLargestChild(m, s, parentSlot, a);
    BelowLargestChild(m, s, parentSlot, b);
  }

  /** When the greatest slot below the bound is no child, nothing is. */
  lemma NoneAbove(m: Memory, s: set<Addr>, parentSlot: Addr, child: Addr, a: Addr)
    requires Comparable(m, s) && parentSlot in s && a in s && child in s
    requires m[parentSlot].cap.Untyped? ==> m[parentSlot].cap.blockSize >= 4
    requires a == child || Order(ViewOf(m))(a, child)
    requires DepthCompare(KeyOf(SlotAt(m, child)), KeyOf(SlotAt(m, parentSlot))) != GT
    ensures !IsChild(SlotAt(m, parentSlot), SlotAt(m, a))
  {
  }

  lemma ChildTest(m: Memory, s: set<Addr>, parentSlot: Addr, a: Addr)
    requires Comparable(m, s) && a in s && parentSlot in s
    ensures CompSlotWith(SlotAt(m, a), SlotAt(m, parentSlot), SlotBelow) == GT <==>
      DepthCompare(KeyOf(SlotAt(m, a)), KeyOf(SlotAt(m, parentSlot))) == GT
  {
    assert Pair(a, parentSlot);
    CompSlotIsKeyOrder(SlotAt(m, a), SlotAt(m, parentSlot));
  }

  // ---- Searching a region ----

  lemma {:induction false} UpToRangeTop(m: Memory, t: Tree<Addr>, base: nat, sizeBits: nat)
    requires sizeBits >= EP_SIZE_BITS
    requires Slots(t) <= m.Keys && Sorted(Order(ViewOf(m)), Flatten(t))
    ensures Prefix(Flatten(t), IsBelow(m, RangeTop(base, sizeBits), AlwaysBelow))
  {
    var s, below := Flatten(t), IsBelow(m, RangeTop(base, sizeBits), AlwaysBelow);
    SlotsListed(t);
    forall i, j | 0 <= i < j < |s| && below(s[j]) ensures below(s[i]) {
      assert s[i] in s && s[j] in s;
      RangeDownwards(m, s[i], s[j], base, sizeBits);
    }
  }

  lemma RangeDownwards(m: Memory, a: Addr, b: Addr, base: nat, sizeBits: nat)
    requires sizeBits >= EP_SIZE_BITS && a in m && b in m && Order(ViewOf(m))(a, b)
    requires IsBelow(m, RangeTop(base, sizeBits), AlwaysBelow)(b)
    ensures IsBelow(m, RangeTop(base, sizeBits), AlwaysBelow)(a)
  {
    BelowRangeTop(SlotAt(m, a), base, sizeBits);
    BelowRangeTop(SlotAt(m, b), base, sizeBits);
  }

  /** A typed object that starts in the region lies in it. */
  ghost predicate Whole(m: Memory, s: set<Addr>, base: nat, sizeBits: nat) {
    forall a :: a in s && a in m && SpaceType(m[a].cap) == SPACE_TYPED ==>
      Byte(base, sizeBits, CapPtr(m[a].cap)) ==> Inside(m[a].cap, base, sizeBits)
  }

  ghost predicate AnyFindable(m: Memory, s: set<Addr>, base: nat, sizeBits: nat) {
    exists a :: a in s && a in m && Findable(base, sizeBits, m[a].cap)
  }

  /** The greatest slot the search for typed objects in a region gets to see. */
  ghost predicate GreatestSeen(m: Memory, s: set<Addr>, base: nat, sizeBits: nat, z: Addr)
    requires sizeBits >= EP_SIZE_BITS
  {
    && z in s && z in m && IsBelow(m, RangeTop(base, sizeBits), AlwaysBelow)(z)
    && forall a :: a in s && IsBelow(m, RangeTop(base, sizeBits), AlwaysBelow)(a) ==> a == z || Order(ViewOf(m))(a, z)
  }

  /** The greatest slot seen is typed and in the region as soon as one slot seen is. */
  lemma GreatestInRange(m: Memory, s: set<Addr>, base: nat, sizeBits: nat, a: Addr, largest: Addr)
    requires sizeBits >= EP_SIZE_BITS && a in m && largest in s && largest in m
    requires Findable(base, sizeBits, m[a].cap) && (a == largest || Order(ViewOf(m))(a, largest))
    requires IsBelow(m, RangeTop(base, sizeBits), AlwaysBelow)(largest) && Whole(m, s, base, sizeBits)
    ensures SpaceType(m[largest].cap) == SPACE_TYPED && Inside(m[largest].cap, base, sizeBits)
  {
    BelowRangeTop(SlotAt(m, largest), base, sizeBits);
    Pow2Grows(EP_SIZE_BITS, sizeBits);
    BytesInBounds(CapPtr(m[a].cap), SizeBits(m[a].cap), base, sizeBits);
  }

  /** cdtFindTypedInRange is right about a region in which every object lies whole. */
  lemma RangeSearched(m: Memory, s: set<Addr>, base: nat, sizeBits: nat, largest: Addr)
    requires sizeBits >= EP_SIZE_BITS && s <= m.Keys && Whole(m, s, base, sizeBits)
    requires GreatestSeen(m, s, base, sizeBits, largest)
    ensures AnyFindable(m, s, base, sizeBits) <==>
      SpaceType(m[largest].cap) == SPACE_TYPED && Inside(m[largest].cap, base, sizeBits)
  {
    if AnyFindable(m, s, base, sizeBits) {
      var a :| a in s && a in m && Findable(base, sizeBits, m[a].cap);
      FindableIsSeen(SlotAt(m, a), base, sizeBits);
      GreatestInRange(m, s, base, sizeBits, a, largest);
    }
    if SpaceType(m[largest].cap) == SPACE_TYPED && Inside(m[largest].cap, base, sizeBits) {
      FindableIsSeen(SlotAt(m, largest), base, sizeBits);
    }
  }

  /** Nothing is seen, or the greatest slot seen is not in the region. */
  ghost predicate NoneInRange(m: Memory, s: set<Addr>, base: nat, sizeBits: nat)
    requires sizeBits >= EP_SIZE_BITS
  {
    || (forall a :: a in s ==> !IsBelow(m, RangeTop(base, sizeBits), AlwaysBelow)(a))
    || (exists z: Addr :: GreatestSeen(m, s, base, sizeBits, z) && !Inside(m[z].cap, base, sizeBits))
  }

  /** What cdtFindTypedInRange returns: the greatest slot seen if it lies in the region, and 0 otherwise. */
  ghost predicate InRange(m: Memory, s: set<Addr>, base: nat, sizeBits: nat, child: Addr)
    requires sizeBits >= EP_SIZE_BITS
  {
    && (child != 0 ==>
          GreatestSeen(m, s, base, sizeBits, child) && Inside(m[child].cap, base, sizeBits))
    && (child == 0 ==> NoneInRange(m, s, base, sizeBits))
    && (Whole(m, s, base, sizeBits) ==>
          (AnyFindable(m, s, base, sizeBits) <==> child != 0 && SpaceType(m[child].cap) == SPACE_TYPED))
  }

  lemma NoneSeen(m: Memory, s: set<Addr>, base: nat, sizeBits: nat)
    requires sizeBits >= EP_SIZE_BITS && s <= m.Keys
    requires forall a :: a in s ==> !IsBelow(m, RangeTop(base, sizeBits), AlwaysBelow)(a)
    ensures InRange(m, s, base, sizeBits, 0)
  {
    if AnyFindable(m, s, base, sizeBits) {
      var a :| a in s && a in m && Findable(base, sizeBits, m[a].cap);
      FindableIsSeen(SlotAt(m, a), base, sizeBits);
    }
  }

  lemma RangeOutcome(m: Memory, s: set<Addr>, base: nat, sizeBits: nat, largest: Addr)
    requires sizeBits >= EP_SIZE_BITS && s <= m.Keys
    requires largest == 0 ==> forall a :: a in s ==> !IsBelow(m, RangeTop(base, sizeBits), AlwaysBelow)(a)
    requires largest != 0 ==> GreatestSeen(m, s, base, sizeBits, largest)
    ensures InRange(m, s, base, sizeBits,
                    if largest == 0 || !Inside(m[largest].cap, base, sizeBits) then 0 else largest)
  {
    if largest == 0 {
      NoneSeen(m, s, base, sizeBits);
    } else {
      if Whole(m, s, base, sizeBits) { RangeSearched(m, s, base, sizeBits, largest); }
    }
  }

  // ---- Searching for a cap ----

  /** The same place in the order, slot addresses aside. */
  predicate SamePlace(a: Slot, b: Slot) {
    DepthCompare(KeyOf(a), KeyOf(b)) == EQ
  }

  /** The comparison at the root says which subtree may hold the slot searched for. */
  lemma {:induction false} SearchStep(m: Memory, s: set<Addr>, u: Tree<Addr>, slot: Slot)
    requires u.Node? && Slots(u) <= s && Comparable(m, s) && Sorted(Order(ViewOf(m)), Flatten(u)) && slot.cap != Null
    requires forall a :: a in s ==> Agree(m[a].cap, slot.cap)
    ensures Sorted(Order(ViewOf(m)), Flatten(u.left)) && Sorted(Order(ViewOf(m)), Flatten(u.right))
    ensures var cmp := CompSlotWith(SlotAt(m, u.elem), slot, SlotEqual);
      && (cmp == EQ <==> SamePlace(SlotAt(m, u.elem), slot))
      && (cmp == LT ==> forall a :: a in Slots(u) && SamePlace(SlotAt(m, a), slot) ==> a in Slots(u.right))
      && (cmp == GT ==> forall a :: a in Slots(u) && SamePlace(SlotAt(m, a), slot) ==> a in Slots(u.left))
  {
    var less := Order(ViewOf(m));
    OrderTotal(ViewOf(m));
    SortedParts(less, Flatten(u.left), u.elem, Flatten(u.right));
    assert Pair(u.elem, u.elem);
    CompSlotIsKeyOrder(SlotAt(m, u.elem), slot);
    forall a | a in Slots(u) && SamePlace(SlotAt(m, a), slot)
      ensures CompSlotWith(SlotAt(m, u.elem), slot, SlotEqual) == LT ==> a in Slots(u.right)
      ensures CompSlotWith(SlotAt(m, u.elem), slot, SlotEqual) == GT ==> a in Slots(u.left)
    {
      InSubtree(less, u, a);
    }
  }

  datatype Seeker = Seeker

  ghost predicate SeekingAt(w: Seeker, m: Memory, s: set<Addr>, p: Addr, u: Tree<Addr>, slot: Slot) {
    && Rep(m, p, u) && Slots(u) <= s && Sorted(Order(ViewOf(m)), Flatten(u))
    && forall a :: a in s ==> a in m && (SamePlace(SlotAt(m, a), slot) ==> a in Slots(u))
  }

  /** The search has come down to the subtree, and whatever is searched for is in there. */
  ghost predicate Seeking(m: Memory, s: set<Addr>, p: Addr, u: Tree<Addr>, slot: Slot) {
    forall w: Seeker :: SeekingAt(w, m, s, p, u, slot)
  }

  lemma {:induction false} SeekEnds(m: Memory, s: set<Addr>, u: Tree<Addr>, slot: Slot)
    requires Seeking(m, s, 0, u, slot)
    ensures forall a :: a in s ==> a in m && !SamePlace(SlotAt(m, a), slot)
  {
    assert SeekingAt(Seeker.Seeker, m, s, 0, u, slot);
  }

  lemma {:induction false} SeekDown(m: Memory, s: set<Addr>, p: Addr, u: Tree<Addr>, slot: Slot)
    requires Seeking(m, s, p, u, slot) && p != 0 && Comparable(m, s) && slot.cap != Null
    requires forall a :: a in s ==> Agree(m[a].cap, slot.cap)
    ensures p in m && p in s && u.Node?
    ensures var cmp := CompSlotWith(SlotAt(m, p), slot, SlotEqual);
      && (cmp == EQ <==> SamePlace(SlotAt(m, p), slot))
      && (cmp == LT ==> Seeking(m, s, m[p].right, u.right, slot))
      && (cmp == GT ==> Seeking(m, s, m[p].left, u.left, slot))
  {
    assert SeekingAt(Seeker.Seeker, m, s, p, u, slot);
    SearchStep(m, s, u, slot);
  }

  /** Caps equal in the sense of capsEqual take the same place in the order. */
  lemma EqualCapsSameKey(a: Slot, b: Slot)
    requires CapsEqual(a.cap, b.cap) && a.depth == b.depth && a.addr == b.addr && b.cap != Null
    ensures KeyOf(a) == KeyOf(b)
  {
    if a.cap.Untyped? && b.cap.Untyped? { Pow2Injective(a.cap.blockSize, b.cap.blockSize); }
  }

  /** A valid tree stays valid under aaInsert and gains exactly the new slot. */
  lemma {:induction false} InsertKeeps(v: View, t: Tree<Addr>, a: Addr)
    requires AA(t) && Sorted(Order(v), Flatten(t)) && a !in Slots(t)
    ensures var t' := Insert(Order(v), t, a);
      AA(t') && Sorted(Order(v), Flatten(t')) && Slots(t') == Slots(t) + {a} && Apart(t) && Apart(t')
  {
    OrderTotal(v);
    SlotsListed(t);
    SortedApart(Order(v), t);
    InsertSlots(Order(v), t, a);
    InsertSorted(Order(v), t, a);
    InsertAA(Order(v), t, a);
  }

  /** A valid tree stays valid under aaRemove and loses exactly the target. */
  lemma {:induction false} RemoveKeeps(v: View, t: Tree<Addr>, a: Addr)
    requires AA(t) && Sorted(Order(v), Flatten(t)) && a in Slots(t)
    ensures var t' := Remove(Order(v), t, a);
      AA(t') && Sorted(Order(v), Flatten(t')) && Slots(t') == Slots(t) - {a}
  {
    OrderTotal(v);
    RemoveSlots(Order(v), t, a);
    RemoveAA(Order(v), t, a);
  }

  lemma {:induction false} SortedFits(v: View, t: Tree<Addr>, slots: set<Addr>)
    requires AA(t) && Sorted(Order(v), Flatten(t)) && Slots(t) <= slots && |slots| <= MAX_SLOTS
    ensures LevelsFit(t)
  {
    OrderTotal(v);
    SortedApart(Order(v), t);
    LevelFits(t, slots);
  }
}
