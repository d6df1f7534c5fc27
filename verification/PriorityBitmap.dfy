/** The two-level bitmap that indexes the non-empty ready queues (tcb.c, thread.c). */
module PriorityBitmap {

  /** A ready queue is named by domain and priority. */
  datatype Key = Key(dom: nat, prio: nat)

  /** CONFIG_NUM_DOMAINS and CONFIG_NUM_PRIORITIES. */
  datatype Config = Config(numDomains: nat, numPrios: nat)

  ghost predicate ConfigOk(c: Config) {
    1 <= c.numDomains <= 256 && 1 <= c.numPrios <= 256
  }

  predicate Legal(c: Config, k: Key) {
    k.dom < c.numDomains && k.prio < c.numPrios
  }

  const WORD_BITS := 32

  /** A 32-bit word, as the set of the positions of its one bits. */
  type Word = w: set<nat> | forall i :: i in w ==> i < WORD_BITS

  /** `w | BIT(i)` */
  function OrBit(w: Word, i: nat): Word
    requires i < WORD_BITS
  {
    w + {i}
  }

  /** `w & ~BIT(i)` */
  function ClearBit(w: Word, i: nat): Word {
    w - {i}
  }

  /** __builtin_clz; undefined for 0, as there. */
  function CLZ(w: Word): (r: nat)
    requires w != {}
    ensures r < WORD_BITS && WORD_BITS - 1 - r in w && forall j :: j in w ==> j <= WORD_BITS - 1 - r
  {
    LeadingZeros(w, 0)
  }

  function LeadingZeros(w: Word, n: nat): (r: nat)
    requires w != {} && n < WORD_BITS && forall j :: j in w ==> j <= WORD_BITS - 1 - n
    ensures n <= r < WORD_BITS && WORD_BITS - 1 - r in w && forall j :: j in w ==> j <= WORD_BITS - 1 - r
    decreases WORD_BITS - n
  {
    if WORD_BITS - 1 - n in w then n else assert exists j :: j in w; LeadingZeros(w, n + 1)
  }

  /** prio_to_l1index: `prio >> 5` */
  function L1Index(prio: nat): nat {
    prio / 32
  }

  /** `prio & MASK(5)` */
  function L2Index(prio: nat): nat {
    prio % 32
  }

  /** l1index_to_prio, `l1index << 5`; its low bits are free for the second index. */
  function L1IndexToPrio(l1index: nat): nat {
    l1index * 32
  }

  type L1 = map<nat, Word>
  type L2 = map<(nat, nat), Word>

  ghost predicate Sized(c: Config, l1: L1, l2: L2) {
    && (forall d: nat :: d < c.numDomains ==> d in l1)
    && (forall d: nat, i: nat :: d < c.numDomains && i <= L1Index(c.numPrios) ==> (d, i) in l2)
  }

  /** The bitmaps mark exactly the queues in `full`, and the first level exactly the non-zero rows. */
  ghost predicate Marks(c: Config, l1: L1, l2: L2, full: set<Key>) {
    && Sized(c, l1, l2)
    && (forall k :: k in full ==> Legal(c, k))
    && (forall d: nat, i: nat :: d < c.numDomains && i < 32 ==> Summary(c, l1, l2, d, i))
    && (forall d: nat, i: nat, b: nat :: d < c.numDomains && i <= L1Index(c.numPrios) && b < 32 ==>
          Marked(l2, full, d, i, b))
  }

  ghost predicate Summary(c: Config, l1: L1, l2: L2, d: nat, i: nat) {
    d in l1 && (i in l1[d] <==> i <= L1Index(c.numPrios) && (d, i) in l2 && l2[(d, i)] != {})
  }

  ghost predicate Marked(l2: L2, full: set<Key>, d: nat, i: nat, b: nat) {
    (d, i) in l2 && (b in l2[(d, i)] <==> Key(d, L1IndexToPrio(i) + b) in full)
  }

  ghost function AddL1(l1: L1, k: Key): L1
    requires k.dom in l1 && k.prio < 256
  {
    l1[k.dom := OrBit(l1[k.dom], L1Index(k.prio))]
  }

  ghost function AddL2(l2: L2, k: Key): L2
    requires (k.dom, L1Index(k.prio)) in l2
  {
    l2[(k.dom, L1Index(k.prio)) := OrBit(l2[(k.dom, L1Index(k.prio))], L2Index(k.prio))]
  }

  lemma AddKeeps(c: Config, l1: L1, l2: L2, full: set<Key>, k: Key)
    requires ConfigOk(c) && Marks(c, l1, l2, full) && Legal(c, k)
    ensures k.dom in l1 && (k.dom, L1Index(k.prio)) in l2
    ensures Marks(c, AddL1(l1, k), AddL2(l2, k), full + {k})
  {
    assert (k.dom, L1Index(k.prio)) in l2;
    var l1', l2', full' := AddL1(l1, k), AddL2(l2, k), full + {k};
    forall d: nat, i: nat | d < c.numDomains && i < 32 ensures Summary(c, l1', l2', d, i) {
      assert Summary(c, l1, l2, d, i);
      assert L2Index(k.prio) in l2'[(k.dom, L1Index(k.prio))];
    }
    forall d: nat, i: nat, b: nat | d < c.numDomains && i <= L1Index(c.numPrios) && b < 32
      ensures Marked(l2', full', d, i, b)
    {
      assert Marked(l2, full, d, i, b);
    }
  }

  ghost function RemoveL2(l2: L2, k: Key): L2
    requires (k.dom, L1Index(k.prio)) in l2
  {
    l2[(k.dom, L1Index(k.prio)) := ClearBit(l2[(k.dom, L1Index(k.prio))], L2Index(k.prio))]
  }

  ghost function RemoveL1(l1: L1, l2: L2, k: Key): L1
    requires k.dom in l1 && (k.dom, L1Index(k.prio)) in l2
  {
    if RemoveL2(l2, k)[(k.dom, L1Index(k.prio))] == {} then l1[k.dom := ClearBit(l1[k.dom], L1Index(k.prio))] else l1
  }

  lemma RemoveKeeps(c: Config, l1: L1, l2: L2, full: set<Key>, k: Key)
    requires ConfigOk(c) && Marks(c, l1, l2, full) && k in full
    ensures k.dom in l1 && (k.dom, L1Index(k.prio)) in l2
    ensures Marks(c, RemoveL1(l1, l2, k), RemoveL2(l2, k), full - {k})
  {
    Filled(c, l1, l2, full, k);
    var l1', l2', full' := RemoveL1(l1, l2, k), RemoveL2(l2, k), full - {k};
    forall d: nat, i: nat | d < c.numDomains && i < 32 ensures Summary(c, l1', l2', d, i) {
      assert Summary(c, l1, l2, d, i);
    }
    forall d: nat, i: nat, b: nat | d < c.numDomains && i <= L1Index(c.numPrios) && b < 32
      ensures Marked(l2', full', d, i, b)
    {
      assert Marked(l2, full, d, i, b);
    }
  }

  lemma Filled(c: Config, l1: L1, l2: L2, full: set<Key>, k: Key)
    requires ConfigOk(c) && Marks(c, l1, l2, full) && k in full
    ensures k.dom in l1 && L1Index(k.prio) in l1[k.dom]
    ensures (k.dom, L1Index(k.prio)) in l2 && L2Index(k.prio) in l2[(k.dom, L1Index(k.prio))]
  {
    assert Marked(l2, full, k.dom, L1Index(k.prio), L2Index(k.prio));
    assert Summary(c, l1, l2, k.dom, L1Index(k.prio));
  }

  ghost predicate IsHighest(full: set<Key>, d: nat, p: nat) {
    Key(d, p) in full && forall k :: k in full && k.dom == d ==> k.prio <= p
  }

  /** The search of chooseThread: the first level is zero exactly when the domain has nothing ready, and otherwise
      the two highest bits name the highest priority that has. */
  lemma HighestIsHighest(c: Config, l1: L1, l2: L2, full: set<Key>, d: nat)
    requires ConfigOk(c) && Marks(c, l1, l2, full) && d < c.numDomains
    ensures d in l1 && (l1[d] == {} <==> forall k :: k in full ==> k.dom != d)
    ensures l1[d] != {} ==>
      var i := WORD_BITS - 1 - CLZ(l1[d]);
      && (d, i) in l2 && l2[(d, i)] != {}
      && IsHighest(full, d, L1IndexToPrio(i) + (WORD_BITS - 1 - CLZ(l2[(d, i)])))
  {
    forall k | k in full && k.dom == d ensures d in l1 && l1[d] != {} {
      Filled(c, l1, l2, full, k);
    }
    assert d in l1;
    if l1[d] != {} {
      var i := WORD_BITS - 1 - CLZ(l1[d]);
      assert Summary(c, l1, l2, d, i);
      var b := WORD_BITS - 1 - CLZ(l2[(d, i)]);
      assert Marked(l2, full, d, i, b);
      forall k | k in full && k.dom == d ensures k.prio <= L1IndexToPrio(i) + b {
        Filled(c, l1, l2, full, k);
        RowMajor(i, b, k.prio);
      }
    }
  }

  lemma RowMajor(i: nat, b: nat, p: nat)
    requires b < 32
    ensures p <= L1IndexToPrio(i) + b <==> L1Index(p) < i || (L1Index(p) == i && L2Index(p) <= b)
  {
  }
}
