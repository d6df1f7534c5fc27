/** When the generated equality reader says the same as the tag reader (bitfield_gen.py). */
module TagEquality {
  import opened TagClasses

  /** Where the i-th width has its tag field in the word. */
  function Position(l: Layout, base: nat, i: nat): nat
    requires base > 0 && i < |l.widths| && l.widths[i] in l.offsets
  {
    l.offsets[l.widths[i]] % base
  }

  /** No tag field crosses the end of its word, as set_base of every block checks. */
  ghost predicate InOneWord(l: Layout, base: nat) {
    base > 0 && forall w: nat :: w in l.offsets ==> l.offsets[w] % base + w <= base
  }

  ghost predicate Settled(l: Layout, base: nat) {
    Sane(l) && SameWord(l, base) && InOneWord(l, base)
  }

  /** The two readers agree on the tag, for every word. */
  ghost predicate Agrees(l: Layout, base: nat, value: Bits)
    requires Settled(l, base)
  {
    forall word: Bits :: AgreesOn(l, base, value, word)
  }

  ghost predicate AgreesOn(l: Layout, base: nat, value: Bits, word: Bits)
    requires Settled(l, base)
  {
    word <= FieldMask(0, base) ==> (EqualsFrom(l, base, word, value, 0) <==> ReadFrom(l, base, word, 0) == value)
  }

  /** The equality reader, asked for the tag, looks at the field of the k-th width. */
  ghost predicate LooksAt(l: Layout, base: nat, value: Bits, j: nat, k: nat)
    requires WellFormed(l) && base > 0 && j < |l.widths| && k < |l.widths|
  {
    forall word: Bits :: LooksOn(l, base, value, j, k, word)
  }

  ghost predicate LooksOn(l: Layout, base: nat, value: Bits, j: nat, k: nat, word: Bits)
    requires WellFormed(l) && base > 0 && j < |l.widths| && k < |l.widths|
  {
    EqualsFrom(l, base, word, value, j) <==> Carries(l, base, word, value, k)
  }

  /** The unshifted tag passes the masks of all narrower widths and not its own: the equality reader looks at the
      field of the i-th width. */
  ghost predicate Selects(l: Layout, base: nat, value: Bits, i: nat)
    requires WellFormed(l) && base > 0 && i < |l.widths|
  {
    && (forall j :: 0 <= j < i ==> WordClassMask(l, base, l.widths[j]) <= value)
    && (i + 1 < |l.widths| ==> !(WordClassMask(l, base, l.widths[i]) <= value))
  }

  ghost predicate InNoOtherClass(l: Layout, value: Bits, i: nat)
    requires WellFormed(l)
  {
    forall k: nat :: k < |l.widths| && k != i ==> !ValueInClass(l, value, k)
  }

  // ---- Where the readers stop ----

  /** Where the reader of an arbitrary word stops. */
  lemma {:induction false} ReadStops(l: Layout, base: nat, word: Bits, j: nat) returns (k: nat)
    requires WellFormed(l) && base > 0 && j < |l.widths|
    ensures j <= k < |l.widths| && ReadFrom(l, base, word, j) == Field(word, l.offsets[l.widths[k]] % base, l.widths[k])
    ensures k + 1 < |l.widths| ==> !(WordClassMask(l, base, l.widths[k]) <= word)
    ensures forall i :: j <= i < k ==> WordClassMask(l, base, l.widths[i]) <= word
    decreases |l.widths| - j
  {
    var m := WordClassMask(l, base, l.widths[j]);
    assert m <= word <==> word * m == m;
    if j + 1 == |l.widths| || !(m <= word) {
      k := j;
    } else {
      k := ReadStops(l, base, word, j + 1);
    }
  }

  lemma {:induction false} EqualsStops(l: Layout, base: nat, value: Bits, j: nat) returns (k: nat)
    requires WellFormed(l) && base > 0 && j < |l.widths|
    requires forall i :: 0 <= i < j ==> WordClassMask(l, base, l.widths[i]) <= value
    ensures j <= k < |l.widths| && Selects(l, base, value, k)
    ensures LooksAt(l, base, value, j, k)
    decreases |l.widths| - j
  {
    var m := WordClassMask(l, base, l.widths[j]);
    assert m <= value <==> value * m == m;
    if j + 1 == |l.widths| || !(m <= value) {
      k := j;
    } else {
      k := EqualsStops(l, base, value, j + 1);
      forall word: Bits ensures LooksOn(l, base, value, j, k, word) {
        assert LooksOn(l, base, value, j + 1, k, word);
      }
    }
  }

  lemma SelectsOnce(l: Layout, base: nat, value: Bits, i: nat, k: nat)
    requires WellFormed(l) && base > 0 && i < |l.widths| && k < |l.widths|
    requires Selects(l, base, value, i) && Selects(l, base, value, k)
    ensures i == k
  {
  }

  // ---- Words that carry a value ----

  /** The word whose field at `p` holds the value and whose other bits are zero. */
  lemma Alone(value: Bits, p: nat, w: nat, base: nat)
    requires (forall b: nat :: b in value ==> b < w) && p + w <= base
    ensures ShiftLeft(value, p) <= FieldMask(0, base) && Field(ShiftLeft(value, p), p, w) == value
  {
  }

  lemma Outside(value: Bits, p: nat, w: nat, q: nat)
    requires (forall b: nat :: b in value ==> b < w) && !(p <= q < p + w)
    ensures q !in ShiftLeft(value, p)
  {
  }

  /** A bit outside the field does not matter to it. */
  lemma OneMoreBit(value: Bits, p: nat, w: nat, base: nat, q: nat)
    requires (forall b: nat :: b in value ==> b < w) && p + w <= base && q < base && !(p <= q < p + w)
    ensures ShiftLeft(value, p) + {q} <= FieldMask(0, base)
    ensures Field(ShiftLeft(value, p) + {q}, p, w) == value
  {
    Alone(value, p, w, base);
    Besides(ShiftLeft(value, p), p, w, q);
  }

  lemma Besides(word: Bits, p: nat, w: nat, q: nat)
    requires !(p <= q < p + w)
    ensures Field(word + {q}, p, w) == Field(word, p, w)
  {
  }

  lemma BitRead(word: Bits, p: nat, w: nat, b: nat)
    requires b < w
    ensures b in Field(word, p, w) <==> p + b in word
  {
    assert b in Field(word, p, w) <==> b + p in word;
  }

  lemma NotRead(word: Bits, p: nat, w: nat, b: nat, value: Bits)
    requires b < w && (p + b in word <==> b !in value)
    ensures Field(word, p, w) != value
  {
    BitRead(word, p, w, b);
  }

  /** A word with the value in one field and not in another, a bit of which lies outside the first. */
  lemma Contrary(value: Bits, p: nat, w: nat, base: nat, q: nat, v: nat, b: nat) returns (word: Bits)
    requires (forall c: nat :: c in value ==> c < w) && p + w <= base && q + v <= base
    requires b < v && !(p <= q + b < p + w)
    ensures word <= FieldMask(0, base) && Field(word, p, w) == value && Field(word, q, v) != value
  {
    Outside(value, p, w, q + b);
    if b in value {
      word := ShiftLeft(value, p);
      NotRead(word, q, v, b, value);
      Alone(value, p, w, base);
    } else {
      word := ShiftLeft(value, p) + {q + b};
      NotRead(word, q, v, b, value);
      OneMoreBit(value, p, w, base, q + b);
    }
  }

  // ---- When one field holding a value makes another hold it ----

  ghost predicate Forces(value: Bits, p: nat, w: nat, base: nat, q: nat, v: nat) {
    forall word: Bits :: ForcesOn(value, p, w, base, q, v, word)
  }

  ghost predicate ForcesOn(value: Bits, p: nat, w: nat, base: nat, q: nat, v: nat, word: Bits) {
    word <= FieldMask(0, base) && Field(word, p, w) == value ==> Field(word, q, v) == value
  }

  /** The other field lies inside the first. */
  lemma ForcedInside(value: Bits, p: nat, w: nat, base: nat, q: nat, v: nat, b: nat)
    requires (forall c: nat :: c in value ==> c < w) && p + w <= base && q + v <= base && b < v
    requires Forces(value, p, w, base, q, v)
    ensures p <= q + b < p + w
  {
    if !(p <= q + b < p + w) {
      var word := Contrary(value, p, w, base, q, v, b);
      NotForced(value, p, w, base, q, v, word);
    }
  }

  lemma NotForced(value: Bits, p: nat, w: nat, base: nat, q: nat, v: nat, word: Bits)
    requires word <= FieldMask(0, base) && Field(word, p, w) == value && Field(word, q, v) != value
    ensures !Forces(value, p, w, base, q, v)
  {
    assert !ForcesOn(value, p, w, base, q, v, word);
  }

  ghost predicate Repeats(value: Bits, d: nat, w: nat, b: nat) {
    b in value ==> b < w && b + d in value
  }

  lemma {:induction false} NoClimb(value: Bits, d: nat, w: nat, m: nat)
    requires d > 0 && forall b: nat :: Repeats(value, d, w, b)
    ensures m !in value
    decreases w - m
  {
    assert Repeats(value, d, w, m);
    if m in value {
      NoClimb(value, d, w, m + d);
    }
  }

  lemma ShiftedBit(value: Bits, p: nat, q: nat)
    ensures p + q in ShiftLeft(value, p) <==> q in value
  {
    assert p + q - p == q;
  }

  ghost predicate ReadsBit(value: Bits, f: Bits, d: nat, v: nat, b: nat) {
    b in f ==> b < v && b + d in value
  }

  lemma FieldReads(value: Bits, p: nat, d: nat, v: nat, f: Bits)
    requires f == Field(ShiftLeft(value, p), p + d, v)
    ensures forall b: nat :: ReadsBit(value, f, d, v, b)
  {
    forall b: nat ensures ReadsBit(value, f, d, v, b) {
      if b < v {
        BitRead(ShiftLeft(value, p), p + d, v, b);
        ShiftedBit(value, p, d + b);
      }
    }
  }

  lemma FieldHolds(value: Bits, p: nat, w: nat, base: nat, d: nat, v: nat)
    requires (forall c: nat :: c in value ==> c < w) && p + w <= base && Forces(value, p, w, base, p + d, v)
    ensures value <= Field(ShiftLeft(value, p), p + d, v)
  {
    Alone(value, p, w, base);
    assert ForcesOn(value, p, w, base, p + d, v, ShiftLeft(value, p));
  }

  /** What the other field reads when the value stands alone. */
  lemma OtherField(value: Bits, p: nat, w: nat, base: nat, d: nat, v: nat) returns (f: Bits)
    requires (forall c: nat :: c in value ==> c < w) && p + w <= base && Forces(value, p, w, base, p + d, v)
    ensures value <= f && forall b: nat :: ReadsBit(value, f, d, v, b)
  {
    f := Field(ShiftLeft(value, p), p + d, v);
    FieldReads(value, p, d, v, f);
    FieldHolds(value, p, w, base, d, v);
  }

  /** And unless the value is zero, it begins where the first begins and has room for the value. */
  lemma ForcedTogether(value: Bits, p: nat, w: nat, base: nat, d: nat, v: nat)
    requires (forall c: nat :: c in value ==> c < w) && p + w <= base && value != {}
    requires Forces(value, p, w, base, p + d, v)
    ensures d == 0 && forall b: nat :: b in value ==> b < v
  {
    var f := OtherField(value, p, w, base, d, v);
    forall b: nat ensures Repeats(value, d, v, b) {
      assert ReadsBit(value, f, d, v, b);
    }
    NotMoved(value, d, v);
  }

  /** A number that is not zero is not what another field further up reads of it. */
  lemma NotMoved(value: Bits, d: nat, v: nat)
    requires value != {} && forall b: nat :: Repeats(value, d, v, b)
    ensures d == 0 && forall b: nat :: b in value ==> b < v
  {
    forall b: nat | b in value ensures b < v {
      assert Repeats(value, d, v, b);
    }
    if d > 0 {
      var m: nat :| m in value;
      NoClimb(value, d, v, m);
    }
  }

  // ---- Agreement needs the tag to select its own width ----

  lemma ValueFits(l: Layout, value: Bits, i: nat)
    requires WellFormed(l) && i < |l.widths| && ValueInClass(l, value, i)
    ensures forall b: nat :: b in value ==> b < l.widths[i]
  {
    forall b: nat | b in value ensures b < l.widths[i] {
      assert b + l.offsets[l.widths[i]] in ShiftLeft(value, l.offsets[l.widths[i]]);
    }
  }

  lemma InWord(l: Layout, base: nat, i: nat)
    requires Settled(l, base) && i < |l.widths|
    ensures l.widths[i] in l.offsets && Position(l, base, i) + l.widths[i] <= base
  {
    assert l.widths[i] in l.widths;
  }

  lemma PlacedAlone(l: Layout, base: nat, value: Bits, i: nat)
    requires Settled(l, base) && i < |l.widths| && ValueInClass(l, value, i)
    ensures var p := Position(l, base, i);
      ShiftLeft(value, p) <= FieldMask(0, base) && Carries(l, base, ShiftLeft(value, p), value, i)
  {
    ValueFits(l, value, i);
    InWord(l, base, i);
    Alone(value, Position(l, base, i), l.widths[i], base);
  }

  /** A word that carries the tag carries it where the equality reader looks, too. */
  lemma CarriedThere(l: Layout, base: nat, word: Bits, value: Bits, i: nat, k: nat)
    requires Settled(l, base) && i < |l.widths| && ValueInClass(l, value, i) && Agrees(l, base, value)
    requires k < |l.widths| && LooksAt(l, base, value, 0, k)
    requires word <= FieldMask(0, base) && Carries(l, base, word, value, i)
    ensures l.widths[k] in l.offsets && Carries(l, base, word, value, k)
  {
    ReaderReturnsTag(l, base, word, value, i);
    assert l.widths[k] in l.widths;
    assert LooksOn(l, base, value, 0, k, word) && AgreesOn(l, base, value, word);
  }

  lemma AgreementForces(l: Layout, base: nat, value: Bits, i: nat, k: nat)
    requires Settled(l, base) && i < |l.widths| && ValueInClass(l, value, i) && Agrees(l, base, value)
    requires k < |l.widths| && l.widths[k] in l.offsets && LooksAt(l, base, value, 0, k)
    ensures Forces(value, Position(l, base, i), l.widths[i], base, Position(l, base, k), l.widths[k])
  {
    var p, w, q, v := Position(l, base, i), l.widths[i], Position(l, base, k), l.widths[k];
    forall word: Bits ensures ForcesOn(value, p, w, base, q, v, word) {
      if word <= FieldMask(0, base) && Field(word, p, w) == value {
        CarriedThere(l, base, word, value, i, k);
      }
    }
  }

  /** If the equality reader looked elsewhere, it would be at a narrower field in the same place. */
  lemma NarrowerField(l: Layout, base: nat, value: Bits, i: nat, k: nat)
    requires Settled(l, base) && i < |l.widths| && ValueInClass(l, value, i) && Agrees(l, base, value)
    requires k < |l.widths| && k != i && LooksAt(l, base, value, 0, k)
    ensures k < i && Position(l, base, k) == Position(l, base, i)
    ensures forall b: nat :: b in value ==> b < l.widths[k]
  {
    InWord(l, base, i);
    InWord(l, base, k);
    ValueFits(l, value, i);
    HasWidth(l, k, i);
    AgreementForces(l, base, value, i, k);
    NarrowerByForce(l, base, value, i, k, Position(l, base, i), l.widths[i], Position(l, base, k), l.widths[k]);
  }

  lemma NarrowerByForce(l: Layout, base: nat, value: Bits, i: nat, k: nat, p: nat, w: nat, q: nat, v: nat)
    requires Sane(l) && i < |l.widths| && k < |l.widths| && k != i && w == l.widths[i] && v == l.widths[k] > 0
    requires ValueInClass(l, value, i) && (forall c: nat :: c in value ==> c < w)
    requires p + w <= base && q + v <= base && Forces(value, p, w, base, q, v)
    ensures k < i && q == p && forall b: nat :: b in value ==> b < v
  {
    ForcedNarrow(value, p, w, base, q, v);
    EarlierWidth(l, k, i);
    NotZero(l, value, i);
    ForcedTogether(value, p, w, base, q - p, v);
  }

  lemma ForcedNarrow(value: Bits, p: nat, w: nat, base: nat, q: nat, v: nat)
    requires (forall c: nat :: c in value ==> c < w) && p + w <= base && q + v <= base && 0 < v
    requires Forces(value, p, w, base, q, v)
    ensures p <= q && v <= w
  {
    ForcedInside(value, p, w, base, q, v, 0);
    ForcedInside(value, p, w, base, q, v, v - 1);
  }

  lemma EarlierWidth(l: Layout, k: nat, i: nat)
    requires Sane(l) && k < |l.widths| && i < |l.widths| && k != i && l.widths[k] <= l.widths[i]
    ensures k < i
  {
  }

  /** Only a layout with a single width may have an empty field. */
  lemma HasWidth(l: Layout, k: nat, i: nat)
    requires Sane(l) && k < |l.widths| && i < |l.widths| && k != i
    ensures l.widths[k] > 0
  {
    assert l.widths[0] in l.widths && InField(l, l.widths[0]);
    var b: nat :| b in l.classes[l.widths[0]];
    assert b + l.classOffset in ShiftLeft(l.classes[l.widths[0]], l.classOffset);
    assert l.widths[0] > 0;
  }

  /** A tag of any width but the first is not zero. */
  lemma NotZero(l: Layout, value: Bits, i: nat)
    requires Sane(l) && i < |l.widths| && ValueInClass(l, value, i)
    ensures i > 0 ==> value != {}
  {
    if i > 0 {
      var b: nat :| b in l.classes[l.widths[0]];
      assert b in ShiftLeft(value, l.offsets[l.widths[i]] - l.classOffset);
    }
  }

  /** The value in the field and ones everywhere else. */
  ghost function Flooded(value: Bits, p: nat, w: nat, base: nat): Bits {
    ShiftLeft(value, p) + (FieldMask(0, base) - FieldMask(p, w))
  }

  lemma FloodedCarries(value: Bits, p: nat, w: nat, base: nat)
    requires (forall b: nat :: b in value ==> b < w) && p + w <= base
    ensures Flooded(value, p, w, base) <= FieldMask(0, base) && Field(Flooded(value, p, w, base), p, w) == value
  {
  }

  /** Were the value also what a wider field reads, all its bits would be one. */
  lemma {:induction false} AllOnes(value: Bits, p: nat, w: nat, base: nat, p': nat, w': nat, b: nat)
    requires (forall c: nat :: c in value ==> c < w) && b < w' && p' + w' <= base
    requires p' < p < p' + w' <= p + w && Field(Flooded(value, p, w, base), p', w') == value
    ensures b in value
    decreases b
  {
    assert b in Field(Flooded(value, p, w, base), p', w') <==> b + p' in Flooded(value, p, w, base);
    if b + p' >= p {
      AllOnes(value, p, w, base, p', w', b + p' - p);
    }
  }

  lemma FloodedElsewhere(value: Bits, p: nat, w: nat, base: nat, p': nat, w': nat)
    requires (forall b: nat :: b in value ==> b < w) && p + w <= base && p' + w' <= base && w < w'
    ensures Field(Flooded(value, p, w, base), p', w') != value
  {
    var word, top := Flooded(value, p, w, base), w' - 1;
    if Field(word, p', w') == value {
      assert top !in Field(word, p', w');
      assert top + p' !in word;
      assert p <= top + p' < p + w;
      AllOnes(value, p, w, base, p', w', top);
    }
  }

  /** The reader goes on past the narrower field, since the masks up to there lie within it. */
  lemma FloodedPasses(l: Layout, base: nat, value: Bits, i: nat, k: nat, j: nat)
    requires Settled(l, base) && k < i < |l.widths| && ValueInClass(l, value, i) && j <= k
    requires Position(l, base, k) == Position(l, base, i) && forall b: nat :: b in value ==> b < l.widths[k]
    ensures WordClassMask(l, base, l.widths[j]) <= Flooded(value, Position(l, base, k), l.widths[k], base)
  {
    var p, w := Position(l, base, k), l.widths[k];
    InWord(l, base, k);
    FloodedCarries(value, p, w, base);
    assert l.widths[i] in l.widths;
    Relative(l, base, l.widths[i]);
    MaskInWord(l.classes[l.widths[j]], value, Flooded(value, p, w, base), l.classOffset % base, p, w);
  }

  /** So on that word the readers differ. */
  lemma FloodedReads(l: Layout, base: nat, value: Bits, i: nat, k: nat)
    requires Settled(l, base) && k < i < |l.widths| && ValueInClass(l, value, i)
    requires Position(l, base, k) == Position(l, base, i) && forall b: nat :: b in value ==> b < l.widths[k]
    ensures ReadFrom(l, base, Flooded(value, Position(l, base, k), l.widths[k], base), 0) != value
  {
    var word := Flooded(value, Position(l, base, k), l.widths[k], base);
    var k' := ReadStops(l, base, word, 0);
    if k' <= k { FloodedPasses(l, base, value, i, k, k'); }
    assert k < k';
    InWord(l, base, k);
    InWord(l, base, k');
    FloodedElsewhere(value, Position(l, base, k), l.widths[k], base, Position(l, base, k'), l.widths[k']);
  }

  lemma AgreementSelects(l: Layout, base: nat, value: Bits, i: nat)
    requires Settled(l, base) && i < |l.widths| && ValueInClass(l, value, i) && Agrees(l, base, value)
    ensures Selects(l, base, value, i)
  {
    var k := EqualsStops(l, base, value, 0);
    if k != i {
      NarrowerField(l, base, value, i, k);
      InWord(l, base, k);
      var word := Flooded(value, Position(l, base, k), l.widths[k], base);
      FloodedCarries(value, Position(l, base, k), l.widths[k], base);
      assert LooksOn(l, base, value, 0, k, word) && AgreesOn(l, base, value, word);
      FloodedReads(l, base, value, i, k);
    }
  }

  // ---- and to belong to no other class ----

  lemma AgreementSeparates(l: Layout, base: nat, value: Bits, i: nat, k: nat)
    requires Settled(l, base) && i < |l.widths| && ValueInClass(l, value, i) && Agrees(l, base, value)
    requires k < |l.widths| && k != i
    ensures !ValueInClass(l, value, k)
  {
    AgreementSelects(l, base, value, i);
    var s := EqualsStops(l, base, value, 0);
    SelectsOnce(l, base, value, i, s);
    if ValueInClass(l, value, k) { ReadTwice(l, base, value, i, k); }
  }

  /** The word with the tag in the other field carries it in both, which no word can. */
  lemma ReadTwice(l: Layout, base: nat, value: Bits, i: nat, k: nat)
    requires Settled(l, base) && i < |l.widths| && k < |l.widths| && i != k && Agrees(l, base, value)
    requires ValueInClass(l, value, k) && LooksAt(l, base, value, 0, i)
    ensures !ValueInClass(l, value, i)
  {
    var word := ShiftLeft(value, Position(l, base, k));
    PlacedAlone(l, base, value, k);
    CarriedThere(l, base, word, value, k, i);
    if ValueInClass(l, value, i) {
      if i < k {
        WidthsDisjoint(l, base, word, value, i, value, k);
      } else {
        WidthsDisjoint(l, base, word, value, k, value, i);
      }
    }
  }

  // ---- That is enough ----

  /** A value the reader returns belongs to the class of the width it was read with. */
  lemma ReadInClass(l: Layout, base: nat, word: Bits, value: Bits, k: nat)
    requires Sane(l) && SameWord(l, base) && k < |l.widths| && Carries(l, base, word, value, k)
    requires k + 1 < |l.widths| ==> !(WordClassMask(l, base, l.widths[k]) <= word)
    requires forall j :: 0 <= j < k ==> WordClassMask(l, base, l.widths[j]) <= word
    ensures ValueInClass(l, value, k)
  {
    var w := l.widths[k];
    assert w in l.widths;
    Relative(l, base, w);
    var c, o := l.classOffset % base, l.offsets[w] - l.classOffset;
    ReadFits(word, c + o, w, value, l.offsets[w]);
    OwnNotIn(l.classes[w], value, word, c, o, w);
    assert k + 1 < |l.widths| ==> !(l.classes[w] <= ShiftLeft(value, o));
    InClass(l, base, word, value, k);
  }

  lemma InClass(l: Layout, base: nat, word: Bits, value: Bits, k: nat)
    requires Sane(l) && SameWord(l, base) && k < |l.widths| && Carries(l, base, word, value, k)
    requires forall j :: 0 <= j < k ==> WordClassMask(l, base, l.widths[j]) <= word
    requires var w := l.widths[k];
      && ShiftLeft(value, l.offsets[w]) <= FieldMask(l.offsets[w], w) && l.offsets[w] >= l.classOffset
      && (k + 1 < |l.widths| ==> !(l.classes[w] <= ShiftLeft(value, l.offsets[w] - l.classOffset)))
    ensures ValueInClass(l, value, k)
  {
    var o := l.offsets[l.widths[k]] - l.classOffset;
    forall j | 0 <= j < k ensures l.classes[l.widths[j]] <= ShiftLeft(value, o) {
      EarlierInValue(l, base, word, value, k, j);
    }
  }

  lemma ReadFits(word: Bits, p: nat, w: nat, value: Bits, o: nat)
    requires Field(word, p, w) == value
    ensures ShiftLeft(value, o) <= FieldMask(o, w)
  {
  }

  lemma OwnNotIn(mask: Bits, value: Bits, word: Bits, c: nat, o: nat, w: nat)
    requires Field(word, c + o, w) == value
    ensures mask <= ShiftLeft(value, o) ==> ShiftLeft(mask, c) <= word
  {
    if mask <= ShiftLeft(value, o) {
      MaskInWord(mask, value, word, c, c + o, w);
    }
  }

  lemma EarlierInValue(l: Layout, base: nat, word: Bits, value: Bits, k: nat, j: nat)
    requires Sane(l) && SameWord(l, base) && j < k < |l.widths| && Carries(l, base, word, value, k)
    requires WordClassMask(l, base, l.widths[j]) <= word
    ensures l.classes[l.widths[j]] <= ShiftLeft(value, l.offsets[l.widths[k]] - l.classOffset)
  {
    var w := l.widths[k];
    assert w in l.widths && l.widths[j] in l.widths;
    Relative(l, base, w);
    MasksNest(l, j, k);
    forall b: nat | b in l.classes[l.widths[j]]
      ensures l.offsets[w] - l.classOffset <= b < l.offsets[w] - l.classOffset + w
    {
      MaskWithin(l, k, b);
    }
    InsideRead(l.classes[l.widths[j]], value, word, l.classOffset % base, l.offsets[w] - l.classOffset, w);
  }

  lemma InsideRead(mask: Bits, value: Bits, word: Bits, c: nat, o: nat, w: nat)
    requires Field(word, c + o, w) == value && ShiftLeft(mask, c) <= word
    requires forall b: nat :: b in mask ==> o <= b < o + w
    ensures mask <= ShiftLeft(value, o)
  {
    forall b: nat | b in mask ensures b in ShiftLeft(value, o) {
      ShiftedBit(mask, c, b);
      BitRead(word, c + o, w, b - o);
      ShiftedBit(value, o, b - o);
    }
  }

  lemma {:induction false} MasksNest(l: Layout, j: nat, k: nat)
    requires Sane(l) && j <= k < |l.widths|
    ensures l.classes[l.widths[j]] <= l.classes[l.widths[k]]
    decreases k - j
  {
    if j < k { MasksNest(l, j, k - 1); }
  }

  lemma MaskWithin(l: Layout, k: nat, b: nat)
    requires Sane(l) && k < |l.widths| && b in l.classes[l.widths[k]]
    ensures l.offsets[l.widths[k]] <= b + l.classOffset < l.offsets[l.widths[k]] + l.widths[k]
  {
    assert l.widths[k] in l.widths && InField(l, l.widths[k]);
    assert b + l.classOffset in ShiftLeft(l.classes[l.widths[k]], l.classOffset);
  }

  lemma SelectedAgrees(l: Layout, base: nat, word: Bits, value: Bits, i: nat)
    requires Sane(l) && SameWord(l, base) && i < |l.widths| && ValueInClass(l, value, i)
    requires Selects(l, base, value, i) && InNoOtherClass(l, value, i)
    ensures EqualsFrom(l, base, word, value, 0) <==> ReadFrom(l, base, word, 0) == value
  {
    var s := EqualsStops(l, base, value, 0);
    SelectsOnce(l, base, value, i, s);
    assert LooksOn(l, base, value, 0, i, word);
    if Carries(l, base, word, value, i) {
      ReaderReturnsTag(l, base, word, value, i);
    } else if ReadFrom(l, base, word, 0) == value {
      var k := ReadStops(l, base, word, 0);
      ReadInClass(l, base, word, value, k);
    }
  }

  /** For an accepted tag the equality reader agrees with the tag reader on every word exactly when the unshifted tag
      selects its own width and the tag's number is accepted for no other width. Both are checks on the layout. */
  lemma EqualsAgreesExactly(l: Layout, base: nat, value: Bits, i: nat)
    requires Settled(l, base) && i < |l.widths| && ValueInClass(l, value, i)
    ensures Agrees(l, base, value) <==> Selects(l, base, value, i) && InNoOtherClass(l, value, i)
  {
    if Agrees(l, base, value) {
      AgreementSelects(l, base, value, i);
      forall k: nat | k < |l.widths| && k != i ensures !ValueInClass(l, value, k) {
        AgreementSeparates(l, base, value, i, k);
      }
    }
    if Selects(l, base, value, i) && InNoOtherClass(l, value, i) {
      forall word: Bits ensures AgreesOn(l, base, value, word) {
        SelectedAgrees(l, base, word, value, i);
      }
    }
  }

  // ---- Tag fields at bit 0 ----

  ghost predicate AtBitZero(l: Layout, base: nat) {
    base > 0 && forall w: nat :: w in l.offsets ==> l.offsets[w] % base == 0
  }

  /** With fields at bit 0, the masks of the words are the masks of the tags. */
  lemma ZeroMask(l: Layout, base: nat, w: nat)
    requires WellFormed(l) && SameWord(l, base) && AtBitZero(l, base) && w in l.classes
    ensures WordClassMask(l, base, w) == l.classes[w] && l.classOffset % base == 0 && l.offsets[w] == l.classOffset
  {
    Relative(l, base, w);
    assert l.offsets[w] % base == 0;
    var m: nat :| m in l.offsets && l.offsets[m] == l.classOffset;
    assert l.offsets[m] % base == 0;
    assert forall b: nat :: b in ShiftLeft(l.classes[w], 0) <==> b in l.classes[w];
  }

  lemma ZeroShift(value: Bits)
    ensures ShiftLeft(value, 0) == value
  {
  }

  lemma ZeroMasks(l: Layout, base: nat, j: nat)
    requires WellFormed(l) && SameWord(l, base) && AtBitZero(l, base) && j < |l.widths|
    ensures l.widths[j] in l.classes && l.widths[j] in l.offsets && l.offsets[l.widths[j]] == l.classOffset
    ensures WordClassMask(l, base, l.widths[j]) == l.classes[l.widths[j]]
  {
    assert l.widths[j] in l.widths;
    ZeroMask(l, base, l.widths[j]);
  }

  /** There every accepted tag meets the condition. */
  lemma ZeroSelects(l: Layout, base: nat, value: Bits, i: nat)
    requires Sane(l) && SameWord(l, base) && AtBitZero(l, base) && i < |l.widths| && ValueInClass(l, value, i)
    ensures Selects(l, base, value, i)
  {
    ZeroMasks(l, base, i);
    ZeroValue(l, value, i);
    forall j: nat | j < i ensures WordClassMask(l, base, l.widths[j]) == l.classes[l.widths[j]] {
      ZeroMasks(l, base, j);
    }
  }

  lemma ZeroValue(l: Layout, value: Bits, i: nat)
    requires WellFormed(l) && i < |l.widths| && ValueInClass(l, value, i) && l.offsets[l.widths[i]] == l.classOffset
    ensures forall j :: 0 <= j < i ==> l.classes[l.widths[j]] <= value
    ensures i + 1 < |l.widths| ==> !(l.classes[l.widths[i]] <= value)
  {
    ZeroShift(value);
  }

  lemma ZeroSeparates(l: Layout, base: nat, value: Bits, i: nat, k: nat)
    requires Sane(l) && SameWord(l, base) && AtBitZero(l, base) && i < |l.widths| && ValueInClass(l, value, i)
    requires k < |l.widths| && k != i
    ensures !ValueInClass(l, value, k)
  {
    if ValueInClass(l, value, k) {
      ZeroSelects(l, base, value, i);
      ZeroSelects(l, base, value, k);
    }
  }

  lemma EqualsAgrees(l: Layout, base: nat, word: Bits, value: Bits, i: nat)
    requires Sane(l) && SameWord(l, base) && AtBitZero(l, base) && i < |l.widths| && ValueInClass(l, value, i)
    ensures EqualsFrom(l, base, word, value, 0) <==> ReadFrom(l, base, word, 0) == value
  {
    ZeroSelects(l, base, value, i);
    forall k: nat | k < |l.widths| && k != i ensures !ValueInClass(l, value, k) {
      ZeroSeparates(l, base, value, i, k);
    }
    SelectedAgrees(l, base, word, value, i);
  }

  /** Away from bit 0 it need not: with fields of one and three bits at bit 1 and tag 5 of the wider class, the
      equality reader tests the mask against the unshifted tag, and denies a tag that is there. */
  lemma EqualsDisagreesOffZero()
    ensures var l := Layout(map[1 := 1, 3 := 1], map[1 := {0}, 3 := {0}], [1, 3], 1);
      && Sane(l) && SameWord(l, 32) && ValueInClass(l, {0, 2}, 1)
      && ReadFrom(l, 32, {1, 3}, 0) == {0, 2} && !EqualsFrom(l, 32, {1, 3}, {0, 2}, 0)
  {
    OffZeroIsSane();
    OffZeroReaders();
  }

  lemma OffZeroIsSane()
    ensures var l := Layout(map[1 := 1, 3 := 1], map[1 := {0}, 3 := {0}], [1, 3], 1);
      Sane(l) && SameWord(l, 32) && ValueInClass(l, {0, 2}, 1)
  {
    var l := Layout(map[1 := 1, 3 := 1], map[1 := {0}, 3 := {0}], [1, 3], 1);
    assert WellFormed(l) && InField(l, 1) && InField(l, 3);
    assert l.widths[0] == 1 && l.widths[1] == 3;
  }

  lemma OffZeroReaders()
    ensures var l := Layout(map[1 := 1, 3 := 1], map[1 := {0}, 3 := {0}], [1, 3], 1);
      ReadFrom(l, 32, {1, 3}, 0) == {0, 2} && !EqualsFrom(l, 32, {1, 3}, {0, 2}, 0)
  {
    var l := Layout(map[1 := 1, 3 := 1], map[1 := {0}, 3 := {0}], [1, 3], 1);
    var tag, word: Bits := {0, 2}, {1, 3};
    assert 1 in WordClassMask(l, 32, 1) && 1 !in tag;
    assert 1 in tag * WordClassMask(l, 32, 1) <==> false;
    assert 2 !in Field(word, 1, 1) && 2 in tag;
    assert Field(word, 1, 3) == tag;
    assert word * WordClassMask(l, 32, 1) == WordClassMask(l, 32, 1);
  }
}
