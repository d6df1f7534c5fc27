/** Capability table entries in memory, and what it means for memory to hold a tree of slots (cdt.c). */
module CdtMemory {
  import opened AATree
  import opened Basics
  import opened CapOrder

  /** struct cte: the cap and the mdb node. Links are addresses, 0 is NULL. */
  datatype Cte = Cte(cap: Cap, depth: nat, level: nat, left: Addr, right: Addr)

  type Memory = map<Addr, Cte>

  /** The level is a field of five bits, and addresses are 32 bits wide. */
  const LEVELS := 32
  const MAX_SLOTS := 0x1000_0000

  /** The level of the tree fits the field, as does that of its right subtree. */
  ghost predicate LevelsFit(t: Tree<Addr>) {
    Level(t) < LEVELS && (t.Node? ==> Level(t.right) < LEVELS)
  }

  // ---- What it means for memory to hold a tree of slots ----

  ghost predicate Rep(m: Memory, p: Addr, t: Tree<Addr>)
    decreases t
  {
    match t
    case Leaf => p == 0
    case Node(k, l, e, r) =>
      && p != 0 && p in m && e == p
      && m[p].level == k
      && Rep(m, m[p].left, l) && Rep(m, m[p].right, r)
  }

  ghost function Slots(t: Tree<Addr>): set<Addr> {
    match t
    case Leaf => {}
    case Node(_, l, e, r) => Slots(l) + {e} + Slots(r)
  }

  /** No slot occurs twice. */
  ghost predicate Apart(t: Tree<Addr>) {
    match t
    case Leaf => true
    case Node(_, l, e, r) =>
      && Apart(l) && Apart(r)
      && e !in Slots(l) && e !in Slots(r)
      && (forall a :: a in Slots(l) ==> a !in Slots(r))
  }

  /** Only links and levels of the slots in `s` differ. */
  ghost predicate Relinked(m: Memory, m': Memory, s: set<Addr>) {
    && m'.Keys == m.Keys
    && (forall a :: a in m ==> m'[a].cap == m[a].cap && m'[a].depth == m[a].depth)
    && (forall a :: a in m && a !in s ==> m'[a] == m[a])
  }

  lemma {:induction false} RepSlots(m: Memory, p: Addr, t: Tree<Addr>)
    requires Rep(m, p, t)
    ensures Slots(t) <= m.Keys && 0 !in Slots(t)
    decreases t
  {
    if t.Node? {
      RepSlots(m, m[p].left, t.left);
      RepSlots(m, m[p].right, t.right);
    }
  }

  /** A tree is where it was as long as its own slots keep their links and levels. */
  lemma {:induction false} RepFrame(m: Memory, m': Memory, p: Addr, t: Tree<Addr>)
    requires Rep(m, p, t)
    requires forall a :: a in Slots(t) && a in m ==>
      a in m' && m'[a].level == m[a].level && m'[a].left == m[a].left && m'[a].right == m[a].right
    ensures Rep(m', p, t)
    decreases t
  {
    if t.Node? {
      RepFrame(m, m', m[p].left, t.left);
      RepFrame(m, m', m[p].right, t.right);
    }
  }

  lemma SkewSlots(t: Tree<Addr>)
    ensures Slots(Skew(t)) == Slots(t) && (Apart(t) ==> Apart(Skew(t)))
  {
    if Skew(t) != t {
      var t' := t.(left := t.left.right);
      assert Skew(t) == t.left.(right := t');
      assert Slots(t') == Slots(t.left.right) + {t.elem} + Slots(t.right);
      assert Apart(t) ==> Apart(t.left) && Apart(t');
    }
  }

  lemma SplitSlots(t: Tree<Addr>)
    ensures Slots(Split(t)) == Slots(t) && (Apart(t) ==> Apart(Split(t)))
  {
    if Split(t) != t {
      var t' := t.(right := t.right.left);
      assert Split(t) == Node(t.right.level + 1, t', t.right.elem, t.right.right);
      assert Slots(t') == Slots(t.left) + {t.elem} + Slots(t.right.left);
      assert Apart(t) ==> Apart(t.right) && Apart(t');
    }
  }

  lemma DecLevelSlots(t: Tree<Addr>)
    ensures Slots(DecLevel(t)) == Slots(t) && (Apart(t) ==> Apart(DecLevel(t)))
  {
    if t.Node? && t.right.Node? {
      var r := DecLevel(t).right;
      assert Slots(r) == Slots(t.right) && (Apart(t.right) ==> Apart(r));
    }
  }

  // ---- The order of the slots in memory ----

  type View = map<Addr, Slot>

  function SlotAt(m: Memory, p: Addr): Slot
    requires p in m
  {
    Slot(m[p].cap, m[p].depth, p)
  }

  ghost function ViewOf(m: Memory): View {
    map p | p in m :: SlotAt(m, p)
  }

  ghost function ViewKey(v: View, p: Addr): Key {
    if p in v then KeyOf(v[p]).(addr := p) else Key(0, 0, 0, 0, p)
  }

  /** One slot before another in derivation order. */
  ghost function Order(v: View): (Addr, Addr) -> bool {
    (a: Addr, b: Addr) => KeyLess(ViewKey(v, a), ViewKey(v, b))
  }

  lemma OrderTotal(v: View)
    ensures TotalOrder(Order(v))
  {
  }

  /** Every slot in `s` holds a cap, and every cap in `s` may be compared with every other. */
  ghost predicate Comparable(m: Memory, s: set<Addr>) {
    && s <= m.Keys
    && (forall a, b {:trigger Pair(a, b)} :: a in s && b in s ==>
          m[a].cap != Null && m[b].cap != Null && Agree(m[a].cap, m[b].cap))
  }

  lemma ComparablePlus(m: Memory, s: set<Addr>, slot: Addr)
    requires Comparable(m, s) && slot in m && m[slot].cap != Null && Agree(m[slot].cap, m[slot].cap)
    requires forall a :: a in s ==> Agree(m[a].cap, m[slot].cap) && Agree(m[slot].cap, m[a].cap)
    ensures Comparable(m, s + {slot})
  {
    forall a, b | a in s + {slot} && b in s + {slot}
      ensures m[a].cap != Null && m[b].cap != Null && Agree(m[a].cap, m[b].cap)
    {
      assert Pair(a, b) && Pair(a, a) && Pair(b, b);
    }
  }

  lemma ComparableSub(m: Memory, m': Memory, s: set<Addr>, s': set<Addr>)
    requires Comparable(m, s) && s' <= s && s' <= m'.Keys
    requires forall a :: a in s' ==> m'[a].cap == m[a].cap
    ensures Comparable(m', s')
  {
    forall a, b | a in s' && b in s'
      ensures m'[a].cap != Null && m'[b].cap != Null && Agree(m'[a].cap, m'[b].cap)
    {
      assert Pair(a, b);
    }
  }

  lemma CompSlotOrders(m: Memory, s: set<Addr>, a: Addr, b: Addr)
    requires Comparable(m, s) && a in s && b in s
    ensures CompSlot(SlotAt(m, a), SlotAt(m, b)) == LT <==> Order(ViewOf(m))(a, b)
    ensures CompSlot(SlotAt(m, a), SlotAt(m, b)) == GT <==> Order(ViewOf(m))(b, a)
    ensures CompSlot(SlotAt(m, a), SlotAt(m, b)) == EQ <==> a == b
  {
    assert Pair(a, b);
    CompSlotIsKeyOrder(SlotAt(m, a), SlotAt(m, b));
  }

  lemma RelinkedView(m: Memory, m': Memory, s: set<Addr>)
    requires Relinked(m, m', s)
    ensures ViewOf(m') == ViewOf(m)
  {
  }

  /** Caps and depths differ in `s` at most. */
  ghost predicate SameBut(m: Memory, m': Memory, s: set<Addr>) {
    && m'.Keys == m.Keys
    && (forall a :: a in m && a !in s ==> m'[a].cap == m[a].cap && m'[a].depth == m[a].depth)
  }

  /** The listing stays sorted as long as its slots keep their keys. */
  lemma {:induction false} SortedView(v: View, v': View, t: Tree<Addr>)
    requires Sorted(Order(v), Flatten(t))
    requires forall a :: a in Slots(t) ==> ViewKey(v', a) == ViewKey(v, a)
    ensures Sorted(Order(v'), Flatten(t))
  {
    SlotsListed(t);
    var s := Flatten(t);
    forall i, j | 0 <= i < j < |s|
      ensures Order(v')(s[i], s[j])
    {
      assert s[i] in Slots(t) && s[j] in Slots(t);
      assert Order(v)(s[i], s[j]);
    }
  }

  // ---- Slots of a tree and its listing ----

  lemma {:induction false} SlotsListed(t: Tree<Addr>)
    ensures forall a :: a in Slots(t) <==> a in Flatten(t)
  {
    if t.Node? {
      SlotsListed(t.left);
      SlotsListed(t.right);
    }
  }

  lemma {:induction false} SortedApart(less: (Addr, Addr) -> bool, t: Tree<Addr>)
    requires TotalOrder(less) && Sorted(less, Flatten(t))
    ensures Apart(t)
  {
    if t.Node? {
      SortedParts(less, Flatten(t.left), t.elem, Flatten(t.right));
      SortedApart(less, t.left);
      SortedApart(less, t.right);
      SlotsListed(t.left);
      SlotsListed(t.right);
    }
  }

  lemma {:induction false} RootParts(less: (Addr, Addr) -> bool, t: Tree<Addr>)
    requires TotalOrder(less) && t.Node? && Sorted(less, Flatten(t))
    ensures Sorted(less, Flatten(t.left)) && Sorted(less, Flatten(t.right)) && Apart(t)
  {
    SortedParts(less, Flatten(t.left), t.elem, Flatten(t.right));
    SortedApart(less, t);
  }

  lemma {:induction false} RemoveNodeSlots(less: (Addr, Addr) -> bool, t: Tree<Addr>)
    requires TotalOrder(less) && t.Node? && Sorted(less, Flatten(t))
    ensures Slots(RemoveNode(less, t)) <= Slots(t) && Apart(RemoveNode(less, t))
  {
    RootParts(less, t);
    if t.left.Node? {
      GreatestIn(t.left);
      RemoveSlots(less, t.left, Greatest(t.left));
    } else if t.right.Node? {
      LeastIn(t.right);
      RemoveSlots(less, t.right, Least(t.right));
    }
  }

  /** The order says in which subtree a slot is. */
  lemma {:induction false} InSubtree(less: (Addr, Addr) -> bool, t: Tree<Addr>, e: Addr)
    requires TotalOrder(less) && t.Node? && Sorted(less, Flatten(t)) && e in Slots(t)
    ensures less(t.elem, e) <==> e in Slots(t.right)
    ensures less(e, t.elem) <==> e in Slots(t.left)
    ensures e in Flatten(t)
  {
    SortedParts(less, Flatten(t.left), t.elem, Flatten(t.right));
    SlotsListed(t);
    SlotsListed(t.left);
    SlotsListed(t.right);
  }

  lemma {:induction false} GreatestIn(t: Tree<Addr>)
    requires t.Node?
    ensures Greatest(t) in Slots(t) && Greatest(t) in Flatten(t)
  {
    GreatestLast(t);
    SlotsListed(t);
  }

  lemma {:induction false} LeastIn(t: Tree<Addr>)
    requires t.Node?
    ensures Least(t) in Slots(t) && Least(t) in Flatten(t)
  {
    LeastFirst(t);
    SlotsListed(t);
  }

  lemma {:induction false} InsertSlots(less: (Addr, Addr) -> bool, t: Tree<Addr>, e: Addr)
    requires TotalOrder(less) && Apart(t) && e !in Slots(t)
    ensures Slots(Insert(less, t, e)) == Slots(t) + {e} && Apart(Insert(less, t, e))
  {
    if t.Node? {
      var t';
      if less(t.elem, e) {
        InsertSlots(less, t.right, e);
        t' := t.(right := Insert(less, t.right, e));
      } else {
        InsertSlots(less, t.left, e);
        t' := t.(left := Insert(less, t.left, e));
      }
      SkewSlots(t');
      SplitSlots(Skew(t'));
    }
  }

  lemma {:induction false} SlotsMinus(t: Tree<Addr>, t': Tree<Addr>, e: Addr)
    requires forall a :: a in Flatten(t') <==> a in Flatten(t) && a != e
    ensures Slots(t') == Slots(t) - {e}
  {
    SlotsListed(t);
    SlotsListed(t');
  }

  lemma {:induction false} RemoveSlots(less: (Addr, Addr) -> bool, t: Tree<Addr>, e: Addr)
    requires TotalOrder(less) && Sorted(less, Flatten(t)) && e in Slots(t)
    ensures Slots(Remove(less, t, e)) == Slots(t) - {e}
    ensures Sorted(less, Flatten(Remove(less, t, e))) && Apart(Remove(less, t, e))
  {
    SlotsListed(t);
    RemoveSorted(less, t, e);
    SlotsMinus(t, Remove(less, t, e), e);
    SortedApart(less, Remove(less, t, e));
  }

  // ---- Levels and the number of slots ----

  lemma {:induction false} ListedOnce(t: Tree<Addr>)
    requires Apart(t)
    ensures |Slots(t)| == |Flatten(t)|
  {
    if t.Node? {
      ListedOnce(t.left);
      ListedOnce(t.right);
      assert Slots(t) == Slots(t.left) + {t.elem} + Slots(t.right);
    }
  }

  /** No tree over the slots there can be has a level that does not fit its field. */
  lemma LevelFits(t: Tree<Addr>, slots: set<Addr>)
    requires AA(t) && Apart(t) && Slots(t) <= slots && |slots| <= MAX_SLOTS
    ensures LevelsFit(t)
  {
    LevelBound(t);
    ListedOnce(t);
    SubsetSize(Slots(t), slots);
    if Level(t) >= LEVELS {
      Pow2Grows(LEVELS, Level(t));
      assert Pow2(32) == 0x1_0000_0000 by { PowersFar(); }
    }
  }

  lemma PowersFar()
    ensures Pow2(32) == 0x1_0000_0000
  {
    assert Pow2(8) == 256 by { assert Pow2(4) == 16; }
    assert Pow2(16) == 65536 by { assert Pow2(12) == 4096; }
    assert Pow2(24) == 0x100_0000 by { assert Pow2(20) == 0x10_0000; }
    assert Pow2(28) == 0x1000_0000;
  }
}
