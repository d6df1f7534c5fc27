/** Variable-width type tags: the checks that accept a layout, and the generated readers (bitfield_gen.py). */
module TagClasses {
  import opened Basics

  // ---- Numbers as sets of one bits ----

  /** A non-negative number, as the set of the positions of its one bits. */
  type Bits = set<nat>

  /** `v << k` */
  function ShiftLeft(v: Bits, k: nat): (r: Bits)
    ensures forall b: nat :: b in r <==> b >= k && b - k in v
  {
    set b: nat | b in v :: b + k
  }

  /** `(v >> k) & (2 ** width - 1)` */
  function Field(v: Bits, k: nat, width: nat): (r: Bits)
    ensures forall b: nat :: b in r <==> b < width && b + k in v
  {
    set b: nat | b in v && k <= b < k + width :: b - k
  }

  /** `(2 ** width - 1) << k` */
  function FieldMask(k: nat, width: nat): (r: Bits)
    ensures forall b: nat :: b in r <==> k <= b < k + width
  {
    if width == 0 then {} else FieldMask(k, width - 1) + {k + width - 1}
  }

  // ---- Layouts ----

  /** An element of the union: its tag value, and the offset and size of its tag field. */
  datatype Tag = Tag(value: Bits, offset: nat, size: nat)

  /** `self.tag_offset`: the last tag of a size decides. */
  function TagOffsets(tags: seq<Tag>): (m: map<nat, nat>)
    ensures forall w: nat :: w in m <==> exists i :: 0 <= i < |tags| && tags[i].size == w
  {
    if tags == [] then map[]
    else TagOffsets(tags[..|tags| - 1])[tags[|tags| - 1].size := tags[|tags| - 1].offset]
  }

  ghost predicate IsMinOffset(offsets: map<nat, nat>, c: nat) {
    (exists w: nat :: w in offsets && offsets[w] == c) && forall w: nat :: w in offsets ==> c <= offsets[w]
  }

  ghost predicate Ascending(s: seq<nat>) {
    forall i, j :: 0 <= i < j < |s| ==> s[i] < s[j]
  }

  /** A union whose classes have been worked out: masks relative to `classOffset`, offsets absolute. */
  datatype Layout = Layout(offsets: map<nat, nat>, classes: map<nat, Bits>, widths: seq<nat>, classOffset: nat)

  ghost predicate WellFormed(l: Layout) {
    && |l.widths| > 0 && Ascending(l.widths) && (forall w: nat :: w in l.widths <==> w in l.classes)
    && l.classes.Keys == l.offsets.Keys && IsMinOffset(l.offsets, l.classOffset)
  }

  /** The mask of a width stays within the field of that width. */
  ghost predicate InField(l: Layout, w: nat)
    requires w in l.classes && w in l.offsets
  {
    ShiftLeft(l.classes[w], l.classOffset) <= FieldMask(l.offsets[w], w)
  }

  /** The sanity checks of make_classes. */
  ghost predicate Sane(l: Layout) {
    && WellFormed(l)
    && (forall w: nat :: w in l.widths ==> InField(l, w))
    && (|l.widths| > 1 ==> l.classes[l.widths[0]] != {})
    && (forall i :: 1 <= i < |l.widths| - 1 ==> l.classes[l.widths[i - 1]] != l.classes[l.widths[i]])
    && (forall i :: 1 <= i < |l.widths| ==> l.classes[l.widths[i - 1]] <= l.classes[l.widths[i]])
  }

  /** assert_value_in_class */
  ghost predicate ValueInClass(l: Layout, value: Bits, i: nat)
    requires WellFormed(l) && i < |l.widths|
  {
    var w := l.widths[i];
    var cvalue := ShiftLeft(value, l.offsets[w] - l.classOffset);
    && ShiftLeft(value, l.offsets[w]) <= FieldMask(l.offsets[w], w)
    && (forall j :: 0 <= j < i ==> l.classes[l.widths[j]] <= cvalue)
    && (i + 1 < |l.widths| ==> !(l.classes[w] <= cvalue))
  }

  // ---- What the checks are for ----

  ghost predicate Nesting(l: Layout)
    requires WellFormed(l)
  {
    && (forall w: nat :: w in l.widths ==> InField(l, w))
    && (forall i :: 1 <= i < |l.widths| ==> l.classes[l.widths[i - 1]] <= l.classes[l.widths[i]])
  }

  /** Some tag value of the i-th width is accepted. */
  ghost predicate Usable(l: Layout, i: nat)
    requires WellFormed(l) && i < |l.widths|
  {
    exists v: Bits :: ValueInClass(l, v, i)
  }

  /** What every value of the i-th width must have. */
  ghost function Prefix(l: Layout, i: nat): Bits
    requires WellFormed(l) && i < |l.widths|
  {
    if i == 0 then {} else l.classes[l.widths[i - 1]]
  }

  lemma {:induction false} EarlierNested(l: Layout, i: nat, j: nat)
    requires WellFormed(l) && Nesting(l) && j < i < |l.widths|
    ensures l.classes[l.widths[j]] <= Prefix(l, i)
  {
    if j + 1 < i { EarlierNested(l, i - 1, j); }
  }

  lemma PrefixValue(l: Layout, i: nat) returns (v: Bits)
    requires WellFormed(l) && Nesting(l) && i < |l.widths|
    ensures var w := l.widths[i];
      && w in l.offsets && l.offsets[w] >= l.classOffset && ShiftLeft(v, l.offsets[w]) <= FieldMask(l.offsets[w], w)
      && ShiftLeft(v, l.offsets[w] - l.classOffset) == Prefix(l, i)
  {
    var w := l.widths[i];
    assert w in l.widths && w in l.offsets && InField(l, w);
    var d := l.offsets[w] - l.classOffset;
    v := Field(Prefix(l, i), d, w);
    forall b: nat | b in Prefix(l, i) ensures d <= b < d + w {
      assert b in l.classes[w] && b + l.classOffset in ShiftLeft(l.classes[w], l.classOffset);
      assert b + l.classOffset in FieldMask(l.offsets[w], w);
    }
    forall b: nat ensures b in ShiftLeft(v, d) <==> b in Prefix(l, i) {
    }
  }

  ghost predicate AsksMore(l: Layout, i: nat)
    requires WellFormed(l) && i < |l.widths|
  {
    i + 1 == |l.widths| || l.classes[l.widths[i]] != Prefix(l, i)
  }

  /** A width can be used exactly if it is the last, or its mask asks for more than the one before. */
  lemma UsableExactly(l: Layout, i: nat)
    requires WellFormed(l) && Nesting(l) && i < |l.widths|
    ensures Usable(l, i) <==> AsksMore(l, i)
  {
    var v := PrefixValue(l, i);
    forall j | 0 <= j < i ensures l.classes[l.widths[j]] <= Prefix(l, i) {
      EarlierNested(l, i, j);
    }
    if AsksMore(l, i) {
      assert ValueInClass(l, v, i);
    }
  }

  lemma SaneAsks(l: Layout)
    requires WellFormed(l) && Nesting(l)
    ensures Sane(l) <==> forall i: nat :: i < |l.widths| ==> AsksMore(l, i)
  {
    if forall i: nat :: i < |l.widths| ==> AsksMore(l, i) {
      assert AsksMore(l, 0);
      forall i | 1 <= i < |l.widths| - 1 ensures l.classes[l.widths[i - 1]] != l.classes[l.widths[i]] {
        assert AsksMore(l, i);
      }
    }
  }

  /** Of nested masks within their fields the other checks accept exactly those that leave every width a value. */
  lemma SaneExactly(l: Layout)
    requires WellFormed(l) && Nesting(l)
    ensures Sane(l) <==> forall i: nat :: i < |l.widths| ==> Usable(l, i)
  {
    SaneAsks(l);
    forall i: nat | i < |l.widths| ensures Usable(l, i) <==> AsksMore(l, i) {
      UsableExactly(l, i);
    }
  }

  // ---- The generated readers ----

  /** word_classmask, and the position of the tag field of width `w` within its word. */
  function WordClassMask(l: Layout, base: nat, w: nat): Bits
    requires w in l.classes && base > 0
  {
    ShiftLeft(l.classes[w], l.classOffset % base)
  }

  /** The tag reader from the i-th width on: a chain of tests ended by an unconditional return. */
  function ReadFrom(l: Layout, base: nat, word: Bits, i: nat): Bits
    requires base > 0 && i < |l.widths|
    requires forall w: nat :: w in l.widths ==> w in l.classes && w in l.offsets
    decreases |l.widths| - i
  {
    var w := l.widths[i];
    if i + 1 == |l.widths| || word * WordClassMask(l, base, w) != WordClassMask(l, base, w)
    then Field(word, l.offsets[w] % base, w)
    else ReadFrom(l, base, word, i + 1)
  }

  /** The equality reader: the same chain, driven by the tag asked for. */
  function EqualsFrom(l: Layout, base: nat, word: Bits, tag: Bits, i: nat): bool
    requires base > 0 && i < |l.widths|
    requires forall w: nat :: w in l.widths ==> w in l.classes && w in l.offsets
    decreases |l.widths| - i
  {
    var w := l.widths[i];
    if i + 1 == |l.widths| || tag * WordClassMask(l, base, w) != WordClassMask(l, base, w)
    then Field(word, l.offsets[w] % base, w) == tag
    else EqualsFrom(l, base, word, tag, i + 1)
  }

  /** set_base: all tag fields lie in the same word. */
  ghost predicate SameWord(l: Layout, base: nat) {
    base > 0 && forall v: nat, w: nat :: v in l.offsets && w in l.offsets ==> l.offsets[v] / base == l.offsets[w] / base
  }

  lemma Relative(l: Layout, base: nat, w: nat)
    requires WellFormed(l) && SameWord(l, base) && w in l.offsets
    ensures l.offsets[w] % base - l.classOffset % base == l.offsets[w] - l.classOffset >= 0
  {
    var m: nat :| m in l.offsets && l.offsets[m] == l.classOffset;
    SameQuotient(l.offsets[w], l.offsets[m], base);
  }

  lemma SameQuotient(a: nat, b: nat, base: nat)
    requires base > 0 && a / base == b / base
    ensures a % base - b % base == a - b
  {
    assert a == (a / base) * base + a % base;
    assert b == (b / base) * base + b % base;
  }

  /** The word's tag field of the i-th width holds `value`, whatever its other bits are. */
  ghost predicate Carries(l: Layout, base: nat, word: Bits, value: Bits, i: nat)
    requires base > 0 && i < |l.widths| && l.widths[i] in l.offsets
  {
    Field(word, l.offsets[l.widths[i]] % base, l.widths[i]) == value
  }

  /** A mask below the tag's own width is part of the word, so the reader passes it. */
  lemma EarlierMask(l: Layout, base: nat, word: Bits, value: Bits, i: nat, j: nat)
    requires Sane(l) && SameWord(l, base) && i < |l.widths| && ValueInClass(l, value, i) && j < i
    requires Carries(l, base, word, value, i)
    ensures WordClassMask(l, base, l.widths[j]) <= word
  {
    var w := l.widths[i];
    Relative(l, base, w);
    MaskInWord(l.classes[l.widths[j]], value, word, l.classOffset % base, l.offsets[w] % base, w);
  }

  lemma MaskInWord(mask: Bits, value: Bits, word: Bits, c: nat, k: nat, w: nat)
    requires c <= k && mask <= ShiftLeft(value, k - c) && Field(word, k, w) == value
    ensures ShiftLeft(mask, c) <= word
  {
    forall b: nat | b in ShiftLeft(mask, c) ensures b in word {
      assert b - c in ShiftLeft(value, k - c);
      assert b - k in Field(word, k, w);
    }
  }

  /** The mask of the tag's own width is not, so the reader stops there. */
  lemma OwnMask(l: Layout, base: nat, word: Bits, value: Bits, i: nat)
    requires Sane(l) && SameWord(l, base) && i + 1 < |l.widths| && ValueInClass(l, value, i)
    requires Carries(l, base, word, value, i)
    ensures !(WordClassMask(l, base, l.widths[i]) <= word)
  {
    var w := l.widths[i];
    Relative(l, base, w);
    assert w in l.widths && InField(l, w);
    var b: nat :| b in l.classes[w] && b !in ShiftLeft(value, l.offsets[w] - l.classOffset);
    assert b + l.classOffset in ShiftLeft(l.classes[w], l.classOffset);
    assert b + l.classOffset in FieldMask(l.offsets[w], w);
    var p := b + l.classOffset % base;
    assert p in WordClassMask(l, base, w);
    assert p - l.offsets[w] % base !in Field(word, l.offsets[w] % base, w);
  }

  lemma {:induction false} ReadsFrom(l: Layout, base: nat, word: Bits, value: Bits, i: nat, j: nat)
    requires Sane(l) && SameWord(l, base) && i < |l.widths| && ValueInClass(l, value, i) && j <= i
    requires Carries(l, base, word, value, i)
    ensures ReadFrom(l, base, word, j) == value
    decreases i - j
  {
    var m := WordClassMask(l, base, l.widths[j]);
    assert m <= word <==> word * m == m;
    if j < i {
      EarlierMask(l, base, word, value, i, j);
      ReadsFrom(l, base, word, value, i, j + 1);
    } else if i + 1 < |l.widths| {
      OwnMask(l, base, word, value, i);
    }
  }

  /** For every accepted layout and every accepted tag value, the reader returns the value whatever the word's other
      bits are. */
  lemma ReaderReturnsTag(l: Layout, base: nat, word: Bits, value: Bits, i: nat)
    requires Sane(l) && SameWord(l, base) && i < |l.widths| && ValueInClass(l, value, i)
    requires Carries(l, base, word, value, i)
    ensures ReadFrom(l, base, word, 0) == value
  {
    ReadsFrom(l, base, word, value, i, 0);
  }

  /** Two accepted values of different widths never share a word. */
  lemma WidthsDisjoint(l: Layout, base: nat, word: Bits, v1: Bits, i: nat, v2: Bits, j: nat)
    requires Sane(l) && SameWord(l, base) && i < j < |l.widths| && ValueInClass(l, v1, i) && ValueInClass(l, v2, j)
    ensures !(Carries(l, base, word, v1, i) && Carries(l, base, word, v2, j))
  {
    if Carries(l, base, word, v1, i) && Carries(l, base, word, v2, j) {
      OwnMask(l, base, word, v1, i);
      EarlierMask(l, base, word, v2, j, i);
    }
  }

  /** The writer: the field is cleared and the tag put in. */
  function WriteTag(l: Layout, base: nat, word: Bits, value: Bits, w: nat): Bits
    requires base > 0 && w in l.offsets
  {
    (word - FieldMask(l.offsets[w] % base, w))
    + ShiftLeft(value, l.offsets[w] % base) * FieldMask(l.offsets[w] % base, w)
  }

  /** What is written is read back. */
  lemma WriteThenRead(l: Layout, base: nat, word: Bits, value: Bits, i: nat)
    requires Sane(l) && SameWord(l, base) && i < |l.widths| && ValueInClass(l, value, i)
    ensures ReadFrom(l, base, WriteTag(l, base, word, value, l.widths[i]), 0) == value
  {
    var w := l.widths[i];
    var k := l.offsets[w] % base;
    forall b: nat | b in value ensures b < w {
      assert b + l.offsets[w] in ShiftLeft(value, l.offsets[w]);
    }
    FieldOfWritten(word, value, k, w);
    ReaderReturnsTag(l, base, WriteTag(l, base, word, value, w), value, i);
  }

  lemma FieldOfWritten(word: Bits, value: Bits, k: nat, w: nat)
    requires forall b: nat :: b in value ==> b < w
    ensures Field((word - FieldMask(k, w)) + ShiftLeft(value, k) * FieldMask(k, w), k, w) == value
  {
    var word' := (word - FieldMask(k, w)) + ShiftLeft(value, k) * FieldMask(k, w);
    forall b: nat ensures b in Field(word', k, w) <==> b in value {
      assert b < w ==> (b + k in word' <==> b + k in ShiftLeft(value, k));
    }
  }

  /** The bits outside the field stay. */
  lemma WriteKeepsRest(l: Layout, base: nat, word: Bits, value: Bits, w: nat, b: nat)
    requires base > 0 && w in l.offsets && !(l.offsets[w] % base <= b < l.offsets[w] % base + w)
    ensures b in WriteTag(l, base, word, value, w) <==> b in word
  {
  }

  // ---- make_classes and resolve ----

  /** The layout the tags and the declared masks determine; masks are declared relative to their fields. */
  ghost predicate Derived(tags: seq<Tag>, declared: map<nat, Bits>, l: Layout) {
    && l.offsets == TagOffsets(tags) && IsMinOffset(l.offsets, l.classOffset)
    && Ascending(l.widths) && (forall w: nat :: w in l.widths <==> w in l.classes)
    && if declared == map[] then OneClass(l.offsets, l.classes) else Related(declared, l)
  }

  ghost predicate OneClass(offsets: map<nat, nat>, classes: map<nat, Bits>) {
    |classes| == 1 && forall w: nat :: w in classes ==> LeastWidth(offsets, w) && classes[w] == {}
  }

  ghost predicate Related(declared: map<nat, Bits>, l: Layout) {
    && l.classes.Keys == declared.Keys
    && forall w: nat :: w in declared ==>
         w in l.offsets && l.offsets[w] >= l.classOffset
         && l.classes[w] == ShiftLeft(declared[w], l.offsets[w] - l.classOffset)
  }

  ghost predicate LeastWidth(offsets: map<nat, nat>, w: nat) {
    w in offsets && forall v: nat :: v in offsets ==> w <= v
  }

  /** What make_classes accepts. */
  ghost predicate Accepted(tags: seq<Tag>, declared: map<nat, Bits>, l: Layout) {
    Derived(tags, declared, l) && Sane(l)
  }

  /** The layout is unique, so a rejection is final. */
  lemma DerivedOnce(tags: seq<Tag>, declared: map<nat, Bits>, l: Layout, l': Layout)
    requires Derived(tags, declared, l) && Derived(tags, declared, l')
    ensures l == l'
  {
    MinOnce(l.offsets, l.classOffset, l'.classOffset);
    if declared == map[] {
      OneKey(l.classes, l'.classes, l.offsets);
    } else {
      RelatedOnce(declared, l, l');
    }
    SameMembers(l.widths, l'.widths);
  }

  lemma MinOnce(offsets: map<nat, nat>, c: nat, c': nat)
    requires IsMinOffset(offsets, c) && IsMinOffset(offsets, c')
    ensures c == c'
  {
  }

  lemma RelatedOnce(declared: map<nat, Bits>, l: Layout, l': Layout)
    requires Related(declared, l) && Related(declared, l') && l.offsets == l'.offsets && l.classOffset == l'.classOffset
    ensures l.classes == l'.classes
  {
  }

  lemma OneKey(a: map<nat, Bits>, b: map<nat, Bits>, offsets: map<nat, nat>)
    requires OneClass(offsets, a) && OneClass(offsets, b)
    ensures a == b
  {
    assert |a.Keys| == 1 && |b.Keys| == 1;
    var x: nat :| x in a.Keys;
    var y: nat :| y in b.Keys;
    assert LeastWidth(offsets, x) && LeastWidth(offsets, y) && x == y;
    OneMember(a.Keys, x);
    OneMember(b.Keys, x);
  }

  lemma OneMember(s: set<nat>, x: nat)
    requires |s| == 1 && x in s
    ensures s == {x}
  {
    assert |s - {x}| == 0;
  }

  lemma HasMember(t: seq<nat>)
    ensures t != [] ==> exists w: nat :: w in t
  {
    assert t != [] ==> t[0] in t;
  }

  lemma {:induction false} SameMembers(s: seq<nat>, t: seq<nat>)
    requires Ascending(s) && Ascending(t) && forall w: nat :: w in s <==> w in t
    ensures s == t
  {
    HasMember(t);
    if s != [] {
      assert s[0] in t && t != [] && t[0] in s;
      assert s[0] == t[0];
      forall w: nat ensures w in s[1..] <==> w in t[1..] {
        assert w in s[1..] <==> w in s && w != s[0];
        assert w in t[1..] <==> w in t && w != t[0];
      }
      SameMembers(s[1..], t[1..]);
    }
  }

  class TaggedUnion {
    const tags: seq<Tag>
    var classes: map<nat, Bits>
    var tagOffset: map<nat, nat>
    var classOffset: nat
    var widths: seq<nat>

    constructor (tags: seq<Tag>, classes: map<nat, Bits>)
      ensures this.tags == tags && this.classes == classes
    {
      this.tags, this.classes := tags, classes;
      tagOffset, classOffset, widths := map[], 0, [];
    }

    ghost function L(): Layout
      reads this
    {
      Layout(tagOffset, classes, widths, classOffset)
    }

    /** make_classes: accepts exactly the sane layouts. */
    method MakeClasses() returns (ok: bool)
      modifies this
      ensures ok ==> Accepted(tags, old(classes), L())
      ensures !ok ==> forall l: Layout :: !Accepted(tags, old(classes), l)
    {
      ghost var declared := classes;
      tagOffset := map[];
      for i := 0 to |tags|
        invariant tagOffset == TagOffsets(tags[..i]) && classes == declared
      {
        assert tags[..i + 1][..i] == tags[..i];
        tagOffset := tagOffset[tags[i].size := tags[i].offset];
      }
      assert tags[..|tags|] == tags;
      if tagOffset == map[] {
        return false;
      }
      classOffset := MinValue(tagOffset);
      if classes.Keys <= tagOffset.Keys {
        var usedWidths := Sorted(tagOffset.Keys);
        Relate(usedWidths);
        var sorted := Sorted(classes.Keys);
        ghost var l := Layout(tagOffset, classes, sorted, classOffset);
        NowDerived(declared, l, usedWidths);
        ok := SanityChecks(sorted);
        forall l': Layout | Accepted(tags, declared, l') ensures ok {
          DerivedOnce(tags, declared, l, l');
        }
        widths := sorted;
      } else {
        ok := false;
      }
    }

    lemma NowDerived(declared: map<nat, Bits>, l: Layout, used: seq<nat>)
      requires tagOffset == TagOffsets(tags) && IsMinOffset(tagOffset, classOffset) && declared.Keys <= tagOffset.Keys
      requires l.offsets == tagOffset && l.classOffset == classOffset
      requires Ascending(used) && used != [] && forall w: nat :: w in used <==> w in tagOffset
      requires l.classes == (if declared == map[] then map[used[0] := {}] else
        map w | w in declared && w in tagOffset :: ShiftLeft(declared[w], tagOffset[w] - classOffset))
      requires Ascending(l.widths) && forall w: nat :: w in l.widths <==> w in l.classes
      ensures Derived(tags, declared, l)
    {
      if declared == map[] {
        EmptyClass(l, used);
      } else {
        MovedMasks(declared, l);
      }
    }

    static lemma MovedMasks(declared: map<nat, Bits>, l: Layout)
      requires IsMinOffset(l.offsets, l.classOffset) && declared.Keys <= l.offsets.Keys
      requires l.classes == map w | w in declared && w in l.offsets ::
        ShiftLeft(declared[w], l.offsets[w] - l.classOffset)
      ensures Related(declared, l)
    {
    }

    static lemma EmptyClass(l: Layout, used: seq<nat>)
      requires Ascending(used) && used != [] && forall w: nat :: w in used <==> w in l.offsets
      requires l.classes == map[used[0] := {}]
      ensures OneClass(l.offsets, l.classes)
    {
      FirstIsLeast(l.offsets, used);
      assert l.classes.Keys == {used[0]};
    }

    static lemma FirstIsLeast(offsets: map<nat, nat>, used: seq<nat>)
      requires Ascending(used) && used != [] && forall w: nat :: w in used <==> w in offsets
      ensures LeastWidth(offsets, used[0])
    {
      assert used[0] in used;
      forall v: nat | v in offsets ensures used[0] <= v {
        assert v in used;
      }
    }

    /** The masks are moved from their fields to the class offset;
        without any, the narrowest width gets an empty one. */
    method Relate(usedWidths: seq<nat>)
      requires classes.Keys <= tagOffset.Keys && IsMinOffset(tagOffset, classOffset)
      requires forall w: nat :: w in usedWidths <==> w in tagOffset
      modifies this`classes
      ensures usedWidths != []
      ensures classes == if old(classes) == map[] then map[usedWidths[0] := {}] else
        map w | w in old(classes) && w in tagOffset :: ShiftLeft(old(classes)[w], tagOffset[w] - classOffset)
    {
      ghost var m: nat :| m in tagOffset && tagOffset[m] == classOffset;
      assert m in usedWidths;
      var declared := classes;
      var todo, moved: map<nat, Bits> := classes.Keys, map[];
      while todo != {}
        invariant todo <= declared.Keys && classes == declared
        invariant moved == map w | w in declared && w !in todo && w in tagOffset ::
          ShiftLeft(declared[w], tagOffset[w] - classOffset)
        decreases |todo|
      {
        var w: nat :| w in todo;
        moved := moved[w := ShiftLeft(declared[w], tagOffset[w] - classOffset)];
        todo := todo - {w};
      }
      classes := if declared == map[] then map[usedWidths[0] := {}] else moved;
    }

    /** The checks, in the source's order; each one that fails raises an error there. */
    method SanityChecks(sorted: seq<nat>) returns (ok: bool)
      requires IsMinOffset(tagOffset, classOffset) && classes.Keys <= tagOffset.Keys
      requires Ascending(sorted) && forall w: nat :: w in sorted <==> w in classes
      ensures ok <==> Sane(Layout(tagOffset, classes, sorted, classOffset))
    {
      if !(tagOffset.Keys <= classes.Keys) {
        return false;
      }
      NotEmpty(sorted);
      ok := MasksInFields(sorted);
      if !ok || (|sorted| > 1 && classes[sorted[0]] == {}) {
        return false;
      }
      ok := NoEarlyDuplicate(sorted);
      if ok {
        ok := Nested(sorted);
      }
    }

    method MasksInFields(sorted: seq<nat>) returns (ok: bool)
      requires forall w: nat :: w in sorted <==> w in classes
      requires classes.Keys == tagOffset.Keys
      ensures ok <==> forall w: nat :: w in sorted ==> InField(Layout(tagOffset, classes, sorted, classOffset), w)
    {
      ghost var l := Layout(tagOffset, classes, sorted, classOffset);
      for i := 0 to |sorted|
        invariant forall j :: 0 <= j < i ==> InField(l, sorted[j])
      {
        var mask := FieldMask(tagOffset[sorted[i]], sorted[i]);
        if ShiftLeft(classes[sorted[i]], classOffset) + mask != mask {
          assert sorted[i] in sorted && !InField(l, sorted[i]);
          return false;
        }
      }
      ok := true;
    }

    method NoEarlyDuplicate(sorted: seq<nat>) returns (ok: bool)
      requires forall w: nat :: w in sorted <==> w in classes
      ensures ok <==> forall i :: 1 <= i < |sorted| - 1 ==> classes[sorted[i - 1]] != classes[sorted[i]]
    {
      if |sorted| < 2 {
        return true;
      }
      for i := 1 to |sorted| - 1
        invariant forall j :: 1 <= j < i ==> classes[sorted[j - 1]] != classes[sorted[j]]
      {
        if classes[sorted[i - 1]] == classes[sorted[i]] {
          return false;
        }
      }
      ok := true;
    }

    method Nested(sorted: seq<nat>) returns (ok: bool)
      requires sorted != [] && forall w: nat :: w in sorted <==> w in classes
      ensures ok <==> forall i :: 1 <= i < |sorted| ==> classes[sorted[i - 1]] <= classes[sorted[i]]
    {
      for i := 1 to |sorted|
        invariant forall j :: 1 <= j < i ==> classes[sorted[j - 1]] <= classes[sorted[j]]
      {
        if classes[sorted[i]] * classes[sorted[i - 1]] != classes[sorted[i - 1]] {
          assert !(classes[sorted[i - 1]] <= classes[sorted[i]]);
          return false;
        }
      }
      ok := true;
    }

    lemma NotEmpty(sorted: seq<nat>)
      requires IsMinOffset(tagOffset, classOffset) && tagOffset.Keys <= classes.Keys
      requires forall w: nat :: w in sorted <==> w in classes
      ensures sorted != []
    {
      var m: nat :| m in tagOffset && tagOffset[m] == classOffset;
      assert m in sorted;
    }

    /** assert_value_in_class */
    method AssertValueInClass(value: Bits, i: nat) returns (ok: bool)
      requires Sane(L()) && i < |widths|
      ensures ok <==> ValueInClass(L(), value, i)
    {
      var w := widths[i];
      assert w in widths;
      var ovalue := ShiftLeft(value, tagOffset[w]);
      var cvalue := ShiftLeft(value, tagOffset[w] - classOffset);
      var offsetField := FieldMask(tagOffset[w], w);
      if ovalue + offsetField != offsetField {
        return false;
      }
      for j := 0 to i
        invariant forall k :: 0 <= k < j ==> classes[widths[k]] <= cvalue
      {
        assert widths[j] in widths;
        if cvalue * classes[widths[j]] != classes[widths[j]] {
          assert !(classes[widths[j]] <= cvalue);
          return false;
        }
      }
      ok := i + 1 >= |widths| || cvalue * classes[w] != classes[w];
      assert cvalue * classes[w] == classes[w] <==> classes[w] <= cvalue;
    }

    /** resolve, as far as tags are concerned: every element's tag must sit where its width says and pass its class. */
    method Resolve() returns (ok: bool)
      modifies this
      ensures ok ==> Accepted(tags, old(classes), L()) && AllTagsOk(L(), tags, |tags|)
      ensures !ok ==> forall l: Layout :: !(Accepted(tags, old(classes), l) && AllTagsOk(l, tags, |tags|))
    {
      ghost var declared := classes;
      ok := MakeClasses();
      if !ok {
        return;
      }
      ok := CheckTags();
      forall l: Layout | Accepted(tags, declared, l) ensures l == L() {
        DerivedOnce(tags, declared, l, L());
      }
    }

    method CheckTags() returns (ok: bool)
      requires Sane(L()) && tagOffset == TagOffsets(tags)
      ensures ok <==> AllTagsOk(L(), tags, |tags|)
    {
      ghost var l := L();
      for t := 0 to |tags|
        invariant AllTagsOk(l, tags, t)
      {
        HasOffset(tags, t);
        OneMoreTag(l, tags, t);
        ok := CheckTag(tags[t]);
        if !ok {
          return;
        }
      }
      ok := true;
    }

    static ghost predicate AllTagsOk(l: Layout, tags: seq<Tag>, n: nat)
      requires n <= |tags|
    {
      forall t: nat :: t < n ==> TagOk(l, tags[t])
    }

    static lemma OneMoreTag(l: Layout, tags: seq<Tag>, t: nat)
      requires t < |tags| && AllTagsOk(l, tags, t)
      ensures if TagOk(l, tags[t]) then AllTagsOk(l, tags, t + 1) else !AllTagsOk(l, tags, |tags|)
    {
    }

    static lemma {:induction false} HasOffset(tags: seq<Tag>, t: nat)
      requires t < |tags|
      ensures tags[t].size in TagOffsets(tags)
    {
    }

    method CheckTag(tag: Tag) returns (ok: bool)
      requires Sane(L()) && tag.size in tagOffset
      ensures ok == TagOk(L(), tag)
    {
      var i := IndexOf(tag.size);
      IndexOnce(L(), tag, i);
      if tag.offset != tagOffset[tag.size] {
        return false;
      }
      ok := AssertValueInClass(tag.value, i);
    }

    method IndexOf(w: nat) returns (i: nat)
      requires Sane(L()) && w in tagOffset
      ensures i < |widths| && widths[i] == w
    {
      assert w in widths;
      i := 0;
      while widths[i] != w
        invariant i < |widths| && forall j :: 0 <= j < i ==> widths[j] != w
        decreases |widths| - i
      {
        i := i + 1;
      }
    }

    static lemma IndexOnce(l: Layout, tag: Tag, i: nat)
      requires Sane(l) && i < |l.widths| && l.widths[i] == tag.size
      ensures TagOk(l, tag) <==> tag.offset == l.offsets[tag.size] && ValueInClass(l, tag.value, i)
    {
      assert tag.size in l.widths;
      if TagOk(l, tag) {
        var k: nat :| k < |l.widths| && l.widths[k] == tag.size && ValueInClass(l, tag.value, k);
        assert k == i;
      }
    }

    /** min() of a dictionary's values */
    static method MinValue(m: map<nat, nat>) returns (c: nat)
      requires m != map[]
      ensures IsMinOffset(m, c)
    {
      assert m.Keys != {};
      var w: nat :| w in m.Keys;
      c := m[w];
      var todo := m.Keys - {w};
      while todo != {}
        invariant todo <= m.Keys && (exists v: nat :: v in m && m[v] == c)
        invariant forall v: nat :: v in m && v !in todo ==> c <= m[v]
        decreases |todo|
      {
        var v: nat :| v in todo;
        c := Min(c, m[v]);
        todo := todo - {v};
      }
    }

    /** sorted() of a set of widths */
    static method Sorted(keys: set<nat>) returns (s: seq<nat>)
      ensures Ascending(s) && forall w: nat :: w in s <==> w in keys
    {
      s := [];
      var todo := keys;
      while todo != {}
        invariant todo <= keys && Ascending(s) && (forall w: nat :: w in s <==> w in keys && w !in todo)
        invariant forall v: nat, w: nat :: v in s && w in todo ==> v < w
        decreases |todo|
      {
        var w := Least(todo);
        assert forall i :: 0 <= i < |s| ==> s[i] in s;
        s := s + [w];
        todo := todo - {w};
      }
    }

    static method Least(keys: set<nat>) returns (m: nat)
      requires keys != {}
      ensures m in keys && forall w: nat :: w in keys ==> m <= w
    {
      m :| m in keys;
      var todo := keys - {m};
      while todo != {}
        invariant todo <= keys && m in keys && forall w: nat :: w in keys && w !in todo ==> m <= w
        decreases |todo|
      {
        var w: nat :| w in todo;
        m := Min(m, w);
        todo := todo - {w};
      }
    }
  }

  /** The tag of one element is where its width says and belongs to the width's class. */
  ghost predicate TagOk(l: Layout, tag: Tag) {
    && WellFormed(l) && tag.size in l.offsets && tag.offset == l.offsets[tag.size]
    && exists i: nat :: i < |l.widths| && l.widths[i] == tag.size && ValueInClass(l, tag.value, i)
  }

  /** In a union that resolved, every element's tag is read back from every word that carries it. */
  lemma ResolvedTagsRead(l: Layout, base: nat, tag: Tag, word: Bits)
    requires Sane(l) && SameWord(l, base) && TagOk(l, tag) && Field(word, tag.offset % base, tag.size) == tag.value
    ensures ReadFrom(l, base, word, 0) == tag.value
  {
    var i: nat :| i < |l.widths| && l.widths[i] == tag.size && ValueInClass(l, tag.value, i);
    ReaderReturnsTag(l, base, word, tag.value, i);
  }
}
