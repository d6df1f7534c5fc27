/** FIRST, FOLLOW and the nullable nonterminals as fixpoints, against derivations (yacc.py). */
module GrammarSets {

  datatype Sym = Term(id: nat) | End | Non(id: nat)

  /** An entry of a FIRST set: a token or `<empty>`. */
  datatype Mark = Tok(t: Sym) | Empty

  datatype Production = Production(name: Sym, rhs: seq<Sym>)

  type Word = seq<Sym>

  /** The grammar without its augmented first production. */
  datatype Grammar = Grammar(terminals: set<Sym>, nonterminals: set<Sym>, prods: seq<Production>)

  ghost predicate Known(g: Grammar, s: Sym) {
    s in g.terminals || s in g.nonterminals || s == End
  }

  ghost predicate KnownWord(g: Grammar, w: Word) {
    forall i :: 0 <= i < |w| ==> Known(g, w[i])
  }

  ghost predicate WellFormed(g: Grammar) {
    && (forall s :: s in g.terminals ==> s.Term?) && (forall s :: s in g.nonterminals ==> s.Non?)
    && (forall i :: 0 <= i < |g.prods| ==> g.prods[i].name in g.nonterminals && KnownWord(g, g.prods[i].rhs))
  }

  // ---- Derivations ----

  ghost predicate StepAt(g: Grammar, w: Word, i: nat, k: nat, w': Word) {
    i < |w| && k < |g.prods| && w[i] == g.prods[k].name && w' == w[..i] + g.prods[k].rhs + w[i + 1..]
  }

  ghost predicate Step(g: Grammar, w: Word, w': Word) {
    exists i: nat, k: nat :: StepAt(g, w, i, k, w')
  }

  ghost predicate DerivesIn(g: Grammar, w: Word, w': Word, n: nat)
    decreases n
  {
    if n == 0 then w == w' else exists m: Word :: Step(g, w, m) && DerivesIn(g, m, w', n - 1)
  }

  ghost predicate Derives(g: Grammar, w: Word, w': Word) {
    exists n: nat :: DerivesIn(g, w, w', n)
  }

  lemma DerivesSelf(g: Grammar, w: Word)
    ensures Derives(g, w, w)
  {
    assert DerivesIn(g, w, w, 0);
  }

  lemma StepDerives(g: Grammar, w: Word, w': Word)
    requires Step(g, w, w')
    ensures DerivesIn(g, w, w', 1) && Derives(g, w, w')
  {
    assert DerivesIn(g, w', w', 0);
  }

  lemma {:induction false} DerivesInTrans(g: Grammar, u: Word, v: Word, w: Word, m: nat, n: nat)
    requires DerivesIn(g, u, v, m) && DerivesIn(g, v, w, n)
    ensures DerivesIn(g, u, w, m + n)
    decreases m
  {
    if m > 0 {
      var x: Word :| Step(g, u, x) && DerivesIn(g, x, v, m - 1);
      DerivesInTrans(g, x, v, w, m - 1, n);
    }
  }

  lemma DerivesTrans(g: Grammar, u: Word, v: Word, w: Word)
    requires Derives(g, u, v) && Derives(g, v, w)
    ensures Derives(g, u, w)
  {
    var m: nat :| DerivesIn(g, u, v, m);
    var n: nat :| DerivesIn(g, v, w, n);
    DerivesInTrans(g, u, v, w, m, n);
  }

  lemma StepInContext(g: Grammar, a: Word, u: Word, v: Word, b: Word)
    requires Step(g, u, v)
    ensures Step(g, a + u + b, a + v + b)
  {
    var i: nat, k: nat :| StepAt(g, u, i, k, v);
    var w := a + u + b;
    assert w[..|a| + i] == a + u[..i] && w[|a| + i + 1..] == u[i + 1..] + b;
    assert a + v + b == w[..|a| + i] + g.prods[k].rhs + w[|a| + i + 1..];
    assert StepAt(g, w, |a| + i, k, a + v + b);
  }

  lemma {:induction false} InContext(g: Grammar, a: Word, u: Word, v: Word, b: Word, n: nat)
    requires DerivesIn(g, u, v, n)
    ensures Derives(g, a + u + b, a + v + b)
    decreases n
  {
    if n == 0 {
      DerivesSelf(g, a + u + b);
    } else {
      var x: Word :| Step(g, u, x) && DerivesIn(g, x, v, n - 1);
      StepInContext(g, a, u, x, b);
      StepDerives(g, a + u + b, a + x + b);
      InContext(g, a, x, v, b, n - 1);
      DerivesTrans(g, a + u + b, a + x + b, a + v + b);
    }
  }

  lemma Context(g: Grammar, a: Word, u: Word, v: Word, b: Word)
    requires Derives(g, u, v)
    ensures Derives(g, a + u + b, a + v + b)
  {
    var n: nat :| DerivesIn(g, u, v, n);
    InContext(g, a, u, v, b, n);
  }

  lemma OneStep(g: Grammar, k: nat)
    requires k < |g.prods|
    ensures Step(g, [g.prods[k].name], g.prods[k].rhs) && Derives(g, [g.prods[k].name], g.prods[k].rhs)
  {
    var w := [g.prods[k].name];
    assert w[..0] + g.prods[k].rhs + w[1..] == g.prods[k].rhs;
    assert StepAt(g, w, 0, k, g.prods[k].rhs);
    StepDerives(g, w, g.prods[k].rhs);
  }

  // ---- FIRST ----

  type First = map<Sym, set<Mark>>

  ghost predicate Defined(first: First, w: Word) {
    forall i :: 0 <= i < |w| ==> w[i] in first
  }

  /** What _first computes. */
  ghost function FirstOf(first: First, w: Word): set<Mark>
    requires Defined(first, w)
  {
    if w == [] then {Empty}
    else if Empty in first[w[0]] then (first[w[0]] - {Empty}) + FirstOf(first, w[1..])
    else first[w[0]]
  }

  lemma {:induction false} FirstOfConcat(first: First, u: Word, v: Word)
    requires Defined(first, u) && Defined(first, v)
    ensures Defined(first, u + v)
    ensures FirstOf(first, u + v) ==
      if Empty in FirstOf(first, u) then (FirstOf(first, u) - {Empty}) + FirstOf(first, v) else FirstOf(first, u)
  {
    if u == [] {
      assert u + v == v;
    } else {
      assert (u + v)[1..] == u[1..] + v;
      FirstOfConcat(first, u[1..], v);
    }
  }

  /** A word starts with what the mark says. */
  ghost predicate Begins(g: Grammar, w: Word, m: Mark) {
    match m
    case Empty => Derives(g, w, [])
    case Tok(t) => exists b: Word :: Derives(g, w, [t] + b)
  }

  ghost predicate SoundFirst(g: Grammar, first: First) {
    forall s, m :: s in first && m in first[s] ==> Begins(g, [s], m)
  }

  lemma {:induction false} FirstOfSound(g: Grammar, first: First, w: Word, m: Mark)
    requires SoundFirst(g, first) && Defined(first, w) && m in FirstOf(first, w)
    ensures Begins(g, w, m)
  {
    if w == [] {
      DerivesSelf(g, []);
    } else {
      var rest := w[1..];
      assert w == [] + [w[0]] + rest;
      if m in first[w[0]] && m != Empty {
        var b: Word :| Derives(g, [w[0]], [m.t] + b);
        Context(g, [], [w[0]], [m.t] + b, rest);
        assert [] + ([m.t] + b) + rest == [m.t] + (b + rest);
      } else {
        assert Begins(g, [w[0]], Empty);
        Context(g, [], [w[0]], [], rest);
        assert [] + [] + rest == rest;
        FirstOfSound(g, first, rest, m);
        if m == Empty {
          DerivesTrans(g, w, rest, []);
        } else {
          var b: Word :| Derives(g, rest, [m.t] + b);
          DerivesTrans(g, w, rest, [m.t] + b);
        }
      }
    }
  }

  /** FIRST is closed under the productions and knows every terminal as itself. */
  ghost predicate ClosedFirst(g: Grammar, first: First) {
    && (forall s :: Known(g, s) ==> s in first)
    && (forall s :: s in first && !s.Non? ==> first[s] == {Tok(s)})
    && (forall k: nat :: k < |g.prods| ==> ClosedAt(g, first, k))
  }

  ghost predicate ClosedAt(g: Grammar, first: First, k: nat)
    requires k < |g.prods|
  {
    var p := g.prods[k];
    p.name in first && Defined(first, p.rhs) && FirstOf(first, p.rhs) <= first[p.name]
  }

  /** Replacing a symbol by a word that begins no differently loses nothing. */
  lemma ReplaceShrinks(first: First, a: Word, s: Sym, r: Word, b: Word)
    requires Defined(first, a) && s in first && Defined(first, r) && Defined(first, b) && FirstOf(first, r) <= first[s]
    ensures Defined(first, a + ([s] + b)) && Defined(first, a + (r + b))
    ensures FirstOf(first, a + (r + b)) <= FirstOf(first, a + ([s] + b))
  {
    FirstOfConcat(first, r, b);
    SymbolFirst(first, s, b);
    FirstOfConcat(first, a, [s] + b);
    FirstOfConcat(first, a, r + b);
  }

  lemma SymbolFirst(first: First, s: Sym, b: Word)
    requires s in first && Defined(first, b)
    ensures Defined(first, [s] + b)
    ensures FirstOf(first, [s] + b) == if Empty in first[s] then (first[s] - {Empty}) + FirstOf(first, b) else first[s]
  {
    assert ([s] + b)[1..] == b;
  }

  /** Deriving loses no beginnings. */
  lemma StepShrinks(g: Grammar, first: First, w: Word, w': Word)
    requires ClosedFirst(g, first) && Defined(first, w) && Step(g, w, w')
    ensures Defined(first, w') && FirstOf(first, w') <= FirstOf(first, w)
  {
    var i: nat, k: nat :| StepAt(g, w, i, k, w');
    assert ClosedAt(g, first, k);
    var a, b := w[..i], w[i + 1..];
    ReplaceShrinks(first, a, w[i], g.prods[k].rhs, b);
    StepParts(g, w, i, k, w');
  }

  lemma StepParts(g: Grammar, w: Word, i: nat, k: nat, w': Word)
    requires StepAt(g, w, i, k, w')
    ensures w == w[..i] + ([w[i]] + w[i + 1..]) && w' == w[..i] + (g.prods[k].rhs + w[i + 1..])
  {
  }

  lemma {:induction false} DerivesShrinks(g: Grammar, first: First, w: Word, w': Word, n: nat)
    requires ClosedFirst(g, first) && Defined(first, w) && DerivesIn(g, w, w', n)
    ensures Defined(first, w') && FirstOf(first, w') <= FirstOf(first, w)
    decreases n
  {
    if n > 0 {
      var m: Word :| Step(g, w, m) && DerivesIn(g, m, w', n - 1);
      StepShrinks(g, first, w, m);
      DerivesShrinks(g, first, m, w', n - 1);
    }
  }

  /** The sets are exactly right: a token is in FIRST of a word exactly when the word derives one that starts with it,
      and `<empty>` exactly when it derives the empty word. */
  lemma FirstExact(g: Grammar, first: First, w: Word, t: Sym)
    requires WellFormed(g) && SoundFirst(g, first) && ClosedFirst(g, first) && Defined(first, w) && !t.Non?
    ensures Empty in FirstOf(first, w) <==> Derives(g, w, [])
    ensures Tok(t) in FirstOf(first, w) <==> exists b: Word :: Derives(g, w, [t] + b)
  {
    if Empty in FirstOf(first, w) {
      FirstOfSound(g, first, w, Empty);
    }
    if Derives(g, w, []) {
      var n: nat :| DerivesIn(g, w, [], n);
      DerivesShrinks(g, first, w, [], n);
    }
    if Tok(t) in FirstOf(first, w) {
      FirstOfSound(g, first, w, Tok(t));
    }
    if b: Word :| Derives(g, w, [t] + b) {
      var n: nat :| DerivesIn(g, w, [t] + b, n);
      DerivesShrinks(g, first, w, [t] + b, n);
      assert ([t] + b)[0] == t;
    }
  }

  // ---- Nullable ----

  ghost predicate ClosedNullable(g: Grammar, nullable: set<Sym>) {
    forall k: nat :: k < |g.prods| && AllIn(g.prods[k].rhs, nullable) ==> g.prods[k].name in nullable
  }

  predicate AllIn(w: Word, nullable: set<Sym>) {
    forall i :: 0 <= i < |w| ==> w[i] in nullable
  }

  ghost predicate SoundNullable(g: Grammar, nullable: set<Sym>) {
    forall s :: s in nullable ==> Derives(g, [s], [])
  }

  lemma {:induction false} AllInDerives(g: Grammar, nullable: set<Sym>, w: Word)
    requires SoundNullable(g, nullable) && AllIn(w, nullable)
    ensures Derives(g, w, [])
  {
    if w == [] {
      DerivesSelf(g, []);
    } else {
      Context(g, [], [w[0]], [], w[1..]);
      assert [] + [w[0]] + w[1..] == w && [] + [] + w[1..] == w[1..];
      AllInDerives(g, nullable, w[1..]);
      DerivesTrans(g, w, w[1..], []);
    }
  }

  lemma {:induction false} DerivesAllIn(g: Grammar, nullable: set<Sym>, w: Word, n: nat)
    requires ClosedNullable(g, nullable) && DerivesIn(g, w, [], n)
    ensures AllIn(w, nullable)
    decreases n
  {
    if n > 0 {
      var m: Word :| Step(g, w, m) && DerivesIn(g, m, [], n - 1);
      DerivesAllIn(g, nullable, m, n - 1);
      StepAllIn(g, nullable, w, m);
    }
  }

  lemma StepAllIn(g: Grammar, nullable: set<Sym>, w: Word, m: Word)
    requires ClosedNullable(g, nullable) && Step(g, w, m) && AllIn(m, nullable)
    ensures AllIn(w, nullable)
  {
    var i: nat, k: nat :| StepAt(g, w, i, k, m);
    var r := g.prods[k].rhs;
    assert forall j :: 0 <= j < |r| ==> r[j] == m[i + j];
    forall j | 0 <= j < |w| ensures w[j] in nullable {
      assert j < i ==> w[j] == m[j];
      assert j > i ==> w[j] == m[j - 1 + |r|];
    }
  }

  /** The nullable symbols are those that derive the empty word, and so agree with FIRST. */
  lemma NullableExact(g: Grammar, first: First, nullable: set<Sym>, s: Sym)
    requires WellFormed(g) && SoundFirst(g, first) && ClosedFirst(g, first) && s in first
    requires SoundNullable(g, nullable) && ClosedNullable(g, nullable)
    ensures s in nullable <==> Derives(g, [s], [])
    ensures s in nullable <==> Empty in first[s]
  {
    if Derives(g, [s], []) {
      var n: nat :| DerivesIn(g, [s], [], n);
      DerivesAllIn(g, nullable, [s], n);
      assert [s][0] in nullable;
    }
    FirstExact(g, first, [s], End);
    assert FirstOf(first, [s][1..]) == {Empty};
  }

  // ---- FOLLOW ----

  type Follow = map<Sym, set<Sym>>

  function Tokens(marks: set<Mark>): (r: set<Sym>)
    ensures forall t :: t in r <==> Tok(t) in marks
  {
    set m | m in marks && m.Tok? :: m.t
  }

  ghost predicate ClosedFollowAt(g: Grammar, first: First, follow: Follow, k: nat, i: nat)
    requires k < |g.prods| && i < |g.prods[k].rhs|
  {
    var p := g.prods[k];
    p.rhs[i] in g.nonterminals ==>
      && p.rhs[i] in follow && p.name in follow && Defined(first, p.rhs[i + 1..])
      && Tokens(FirstOf(first, p.rhs[i + 1..])) <= follow[p.rhs[i]]
      && (Empty in FirstOf(first, p.rhs[i + 1..]) ==> follow[p.name] <= follow[p.rhs[i]])
  }

  /** The constraints compute_follow solves. */
  ghost predicate ClosedFollow(g: Grammar, first: First, start: Sym, follow: Follow) {
    && start in follow && End in follow[start]
    && follow.Keys == g.nonterminals
    && forall k: nat, i: nat :: k < |g.prods| && i < |g.prods[k].rhs| ==> ClosedFollowAt(g, first, follow, k, i)
  }

  /** `t` can come right after `b` in something some nonterminal derives, or `b` can end what the start derives. */
  ghost predicate CanFollow(g: Grammar, start: Sym, b: Sym, t: Sym) {
    || (exists n: Sym, u: Word, v: Word :: n in g.nonterminals && Derives(g, [n], u + [b, t] + v))
    || (t == End && exists u: Word :: Derives(g, [start], u + [b]))
  }

  ghost predicate SoundFollow(g: Grammar, start: Sym, follow: Follow) {
    forall b, t :: b in follow && t in follow[b] ==> CanFollow(g, start, b, t)
  }

  /** Whatever stands after a nonterminal of a derived word is in its FOLLOW set, and if it may end the word, what may
      follow the origin is too. */
  ghost predicate Followed(g: Grammar, first: First, follow: Follow, origin: Sym, w: Word)
    requires Defined(first, w) && origin in follow
  {
    forall i :: 0 <= i < |w| && w[i] in g.nonterminals ==> FollowedAt(first, follow, origin, w, i)
  }

  ghost predicate FollowedAt(first: First, follow: Follow, origin: Sym, w: Word, i: int)
    requires Defined(first, w) && 0 <= i < |w| && origin in follow
  {
    && w[i] in follow
    && Tokens(FirstOf(first, w[i + 1..])) <= follow[w[i]]
    && (Empty in FirstOf(first, w[i + 1..]) ==> follow[origin] <= follow[w[i]])
  }

  lemma FollowedStep(g: Grammar, first: First, start: Sym, follow: Follow, origin: Sym, w: Word, i: nat, k: nat,
                     w': Word)
    requires WellFormed(g) && ClosedFirst(g, first) && ClosedFollow(g, first, start, follow)
    requires origin in follow && Defined(first, w) && Followed(g, first, follow, origin, w) && StepAt(g, w, i, k, w')
    ensures Defined(first, w') && Followed(g, first, follow, origin, w')
  {
    assert Step(g, w, w');
    StepShrinks(g, first, w, w');
    forall j | 0 <= j < |w'| && w'[j] in g.nonterminals ensures FollowedAt(first, follow, origin, w', j) {
      if j < i {
        FollowedBefore(g, first, follow, origin, w, i, k, w', j);
      } else if j < i + |g.prods[k].rhs| {
        FollowedInside(g, first, start, follow, origin, w, i, k, w', j);
      } else {
        var o := j - |g.prods[k].rhs| + 1;
        assert w'[j] == w[o] && w'[j + 1..] == w[o + 1..];
        assert FollowedAt(first, follow, origin, w, o);
      }
    }
  }

  lemma FollowedBefore(g: Grammar, first: First, follow: Follow, origin: Sym, w: Word, i: nat, k: nat, w': Word, j: nat)
    requires WellFormed(g) && ClosedFirst(g, first) && origin in follow && Defined(first, w) && Defined(first, w')
    requires Followed(g, first, follow, origin, w) && StepAt(g, w, i, k, w') && j < i && w[j] in g.nonterminals
    ensures FollowedAt(first, follow, origin, w', j)
  {
    assert FollowedAt(first, follow, origin, w, j) && w'[j] == w[j];
    var v, v' := w[j + 1..], w'[j + 1..];
    assert v[..i - j - 1] == w[j + 1..i] && v[i - j - 1 + 1..] == w[i + 1..];
    assert v' == w[j + 1..i] + g.prods[k].rhs + w[i + 1..];
    assert StepAt(g, v, i - j - 1, k, v');
    StepShrinks(g, first, v, v');
  }

  lemma FollowedInside(g: Grammar, first: First, start: Sym, follow: Follow, origin: Sym, w: Word, i: nat, k: nat,
                       w': Word, j: nat)
    requires WellFormed(g) && ClosedFollow(g, first, start, follow) && origin in follow
    requires Defined(first, w) && Defined(first, w')
    requires Followed(g, first, follow, origin, w) && StepAt(g, w, i, k, w')
    requires i <= j < i + |g.prods[k].rhs| && w'[j] in g.nonterminals
    ensures FollowedAt(first, follow, origin, w', j)
  {
    var r, b := g.prods[k].rhs, w[i + 1..];
    assert FollowedAt(first, follow, origin, w, i);
    assert ClosedFollowAt(g, first, follow, k, j - i) && w'[j] == r[j - i];
    assert w'[j + 1..] == r[j - i + 1..] + b;
    FirstOfConcat(first, r[j - i + 1..], b);
  }

  lemma {:induction false} FollowedDerives(g: Grammar, first: First, start: Sym, follow: Follow, origin: Sym,
                                           w: Word, w': Word, n: nat)
    requires WellFormed(g) && ClosedFirst(g, first) && ClosedFollow(g, first, start, follow)
    requires origin in follow && Defined(first, w) && Followed(g, first, follow, origin, w) && DerivesIn(g, w, w', n)
    ensures Defined(first, w') && Followed(g, first, follow, origin, w')
    decreases n
  {
    if n > 0 {
      var m: Word :| Step(g, w, m) && DerivesIn(g, m, w', n - 1);
      var i: nat, k: nat :| StepAt(g, w, i, k, m);
      FollowedStep(g, first, start, follow, origin, w, i, k, m);
      FollowedDerives(g, first, start, follow, origin, m, w', n - 1);
    }
  }

  lemma OriginFollowed(g: Grammar, first: First, follow: Follow, n: Sym)
    requires n in first && n in follow
    ensures Defined(first, [n]) && Followed(g, first, follow, n, [n])
  {
    assert [n][1..] == [];
    assert FirstOf(first, [n][1..]) == {Empty};
    assert Tokens({Empty}) == {};
  }

  lemma FollowComplete(g: Grammar, first: First, start: Sym, follow: Follow, b: Sym, t: Sym)
    requires WellFormed(g) && ClosedFirst(g, first) && ClosedFollow(g, first, start, follow) && start in g.nonterminals
    requires b in g.nonterminals && !t.Non? && CanFollow(g, start, b, t)
    ensures t in follow[b]
  {
    if n: Sym, u: Word, v: Word :| n in g.nonterminals && Derives(g, [n], u + [b, t] + v) {
      var k: nat :| DerivesIn(g, [n], u + [b, t] + v, k);
      OriginFollowed(g, first, follow, n);
      FollowedDerives(g, first, start, follow, n, [n], u + [b, t] + v, k);
      var w := u + [b, t] + v;
      assert w[|u|] == b && FollowedAt(first, follow, n, w, |u|);
      assert w[|u| + 1..][0] == t;
    } else {
      var u: Word :| Derives(g, [start], u + [b]);
      var k: nat :| DerivesIn(g, [start], u + [b], k);
      OriginFollowed(g, first, follow, start);
      FollowedDerives(g, first, start, follow, start, [start], u + [b], k);
      var w := u + [b];
      assert w[|u|] == b && FollowedAt(first, follow, start, w, |u|);
      assert w[|u| + 1..] == [];
    }
  }

  /** FOLLOW is exactly what can follow. */
  lemma FollowExact(g: Grammar, first: First, start: Sym, follow: Follow, b: Sym, t: Sym)
    requires WellFormed(g) && ClosedFirst(g, first) && ClosedFollow(g, first, start, follow) && start in g.nonterminals
    requires SoundFollow(g, start, follow) && b in g.nonterminals && !t.Non?
    ensures t in follow[b] <==> CanFollow(g, start, b, t)
  {
    if CanFollow(g, start, b, t) {
      FollowComplete(g, first, start, follow, b, t);
    }
  }

  /** A token the rest of a production can begin with may follow the nonterminal before it. */
  lemma FollowFromFirst(g: Grammar, first: First, start: Sym, k: nat, i: nat, t: Sym)
    requires WellFormed(g) && SoundFirst(g, first) && k < |g.prods| && i < |g.prods[k].rhs|
    requires Defined(first, g.prods[k].rhs[i + 1..]) && Tok(t) in FirstOf(first, g.prods[k].rhs[i + 1..])
    ensures CanFollow(g, start, g.prods[k].rhs[i], t)
  {
    var n, r := g.prods[k].name, g.prods[k].rhs;
    FirstOfSound(g, first, r[i + 1..], Tok(t));
    var v: Word :| Derives(g, r[i + 1..], [t] + v);
    OneStep(g, k);
    BeginsAfter(g, r, i, t, v);
    DerivesTrans(g, [n], r, r[..i] + [r[i], t] + v);
  }

  lemma BeginsAfter(g: Grammar, r: Word, i: nat, t: Sym, v: Word)
    requires i < |r| && Derives(g, r[i + 1..], [t] + v)
    ensures Derives(g, r, r[..i] + [r[i], t] + v)
  {
    Context(g, r[..i + 1], r[i + 1..], [t] + v, []);
    assert r[..i + 1] + r[i + 1..] + [] == r;
    assert r[..i + 1] + ([t] + v) + [] == r[..i] + [r[i], t] + v;
  }

  /** When the rest may be empty, what follows the production's name may follow the nonterminal. */
  lemma FollowFromName(g: Grammar, first: First, start: Sym, k: nat, i: nat, t: Sym)
    requires WellFormed(g) && SoundFirst(g, first) && k < |g.prods| && i < |g.prods[k].rhs|
    requires Defined(first, g.prods[k].rhs[i + 1..]) && Empty in FirstOf(first, g.prods[k].rhs[i + 1..])
    requires CanFollow(g, start, g.prods[k].name, t)
    ensures CanFollow(g, start, g.prods[k].rhs[i], t)
  {
    var n, b := g.prods[k].name, g.prods[k].rhs[i];
    EndsWith(g, first, k, i);
    var a := g.prods[k].rhs[..i];
    if m: Sym, u: Word, v: Word :| m in g.nonterminals && Derives(g, [m], u + [n, t] + v) {
      Context(g, u, [n], a + [b], [t] + v);
      assert u + [n] + ([t] + v) == u + [n, t] + v && u + (a + [b]) + ([t] + v) == (u + a) + [b, t] + v;
      DerivesTrans(g, [m], u + [n, t] + v, (u + a) + [b, t] + v);
    } else {
      var u: Word :| Derives(g, [start], u + [n]);
      Context(g, u, [n], a + [b], []);
      assert u + [n] + [] == u + [n] && u + (a + [b]) + [] == (u + a) + [b];
      DerivesTrans(g, [start], u + [n], (u + a) + [b]);
    }
  }

  lemma EndsWith(g: Grammar, first: First, k: nat, i: nat)
    requires WellFormed(g) && SoundFirst(g, first) && k < |g.prods| && i < |g.prods[k].rhs|
    requires Defined(first, g.prods[k].rhs[i + 1..]) && Empty in FirstOf(first, g.prods[k].rhs[i + 1..])
    ensures Derives(g, [g.prods[k].name], g.prods[k].rhs[..i] + [g.prods[k].rhs[i]])
  {
    var r, rest := g.prods[k].rhs, g.prods[k].rhs[i + 1..];
    FirstOfSound(g, first, rest, Empty);
    OneStep(g, k);
    Context(g, r[..i + 1], rest, [], []);
    assert r[..i + 1] + rest + [] == r && r[..i + 1] + [] + [] == r[..i] + [r[i]];
    DerivesTrans(g, [g.prods[k].name], r, r[..i] + [r[i]]);
  }

  // ---- FOLLOW in words derived from the start symbol ----

  /** `t` can come right after `b` in a word the start symbol derives, or `b` can end one. */
  ghost predicate FollowsFromStart(g: Grammar, start: Sym, b: Sym, t: Sym) {
    || (exists u: Word, v: Word :: Derives(g, [start], u + [b, t] + v))
    || (t == End && exists u: Word :: Derives(g, [start], u + [b]))
  }

  ghost predicate Reached(g: Grammar, start: Sym, n: Sym) {
    exists u: Word, v: Word :: Derives(g, [start], u + [n] + v)
  }

  ghost predicate AddsNothing(g: Grammar, first: First, start: Sym, k: nat, i: nat)
    requires k < |g.prods| && i < |g.prods[k].rhs|
  {
    var r := g.prods[k].rhs;
    Defined(first, r[i + 1..]) && r[i] in g.nonterminals ==>
      forall t :: Tok(t) in FirstOf(first, r[i + 1..]) ==> FollowsFromStart(g, start, r[i], t)
  }

  /** What the productions of unreached nonterminals put after a nonterminal can also follow it from the start. */
  ghost predicate NothingAdded(g: Grammar, first: First, start: Sym) {
    forall k: nat, i: nat :: k < |g.prods| && i < |g.prods[k].rhs| && !Reached(g, start, g.prods[k].name) ==>
      AddsNothing(g, first, start, k, i)
  }

  ghost function FromStart(g: Grammar, start: Sym): Follow {
    map b | b in g.nonterminals :: set t | t in g.terminals + {End} && FollowsFromStart(g, start, b, t)
  }

  lemma FollowsInReached(g: Grammar, start: Sym, n: Sym, a: Word, b: Sym, t: Sym, w: Word)
    requires Reached(g, start, n) && Derives(g, [n], a + [b, t] + w)
    ensures FollowsFromStart(g, start, b, t)
  {
    var u: Word, v: Word :| Derives(g, [start], u + [n] + v);
    Context(g, u, [n], a + [b, t] + w, v);
    DerivesTrans(g, [start], u + [n] + v, u + (a + [b, t] + w) + v);
    assert u + (a + [b, t] + w) + v == (u + a) + [b, t] + (w + v);
  }

  lemma StartFromFirst(g: Grammar, first: First, start: Sym, k: nat, i: nat, t: Sym)
    requires WellFormed(g) && SoundFirst(g, first) && k < |g.prods| && i < |g.prods[k].rhs|
    requires Defined(first, g.prods[k].rhs[i + 1..]) && Tok(t) in FirstOf(first, g.prods[k].rhs[i + 1..])
    requires Reached(g, start, g.prods[k].name)
    ensures FollowsFromStart(g, start, g.prods[k].rhs[i], t)
  {
    var n, r := g.prods[k].name, g.prods[k].rhs;
    FirstOfSound(g, first, r[i + 1..], Tok(t));
    var w: Word :| Derives(g, r[i + 1..], [t] + w);
    OneStep(g, k);
    BeginsAfter(g, r, i, t, w);
    DerivesTrans(g, [n], r, r[..i] + [r[i], t] + w);
    FollowsInReached(g, start, n, r[..i], r[i], t, w);
  }

  lemma StartFromName(g: Grammar, first: First, start: Sym, k: nat, i: nat, t: Sym)
    requires WellFormed(g) && SoundFirst(g, first) && k < |g.prods| && i < |g.prods[k].rhs|
    requires Defined(first, g.prods[k].rhs[i + 1..]) && Empty in FirstOf(first, g.prods[k].rhs[i + 1..])
    requires FollowsFromStart(g, start, g.prods[k].name, t)
    ensures FollowsFromStart(g, start, g.prods[k].rhs[i], t)
  {
    var n, b, a := g.prods[k].name, g.prods[k].rhs[i], g.prods[k].rhs[..i];
    EndsWith(g, first, k, i);
    if u: Word, v: Word :| Derives(g, [start], u + [n, t] + v) {
      Context(g, u, [n], a + [b], [t] + v);
      assert u + [n] + ([t] + v) == u + [n, t] + v && u + (a + [b]) + ([t] + v) == (u + a) + [b, t] + v;
      DerivesTrans(g, [start], u + [n, t] + v, (u + a) + [b, t] + v);
    } else {
      var u: Word :| Derives(g, [start], u + [n]);
      Context(g, u, [n], a + [b], []);
      assert u + [n] + [] == u + [n] && u + (a + [b]) + [] == (u + a) + [b];
      DerivesTrans(g, [start], u + [n], (u + a) + [b]);
    }
  }

  lemma StartClosesAt(g: Grammar, first: First, start: Sym, k: nat, i: nat)
    requires WellFormed(g) && FirstSoFar(g, first) && NothingAdded(g, first, start)
    requires k < |g.prods| && i < |g.prods[k].rhs|
    ensures ClosedFollowAt(g, first, FromStart(g, start), k, i)
  {
    AllDefined(g, first, k);
    var n, r, follow := g.prods[k].name, g.prods[k].rhs, FromStart(g, start);
    var rest := r[i + 1..];
    FirstOfMarks(g, first, rest);
    if r[i] in g.nonterminals {
      forall t | Tok(t) in FirstOf(first, rest) ensures t in follow[r[i]] {
        assert Tok(t) in Marks(g);
        if Reached(g, start, n) {
          StartFromFirst(g, first, start, k, i, t);
        } else {
          assert AddsNothing(g, first, start, k, i);
        }
      }
      if Empty in FirstOf(first, rest) {
        forall t | t in follow[n] ensures t in follow[r[i]] {
          StartFromName(g, first, start, k, i, t);
        }
      }
    }
  }

  lemma StartCloses(g: Grammar, first: First, start: Sym)
    requires WellFormed(g) && FirstSoFar(g, first) && NothingAdded(g, first, start) && start in g.nonterminals
    ensures ClosedFollow(g, first, start, FromStart(g, start))
  {
    DerivesSelf(g, [start]);
    assert [] + [start] == [start];
    forall k: nat, i: nat | k < |g.prods| && i < |g.prods[k].rhs|
      ensures ClosedFollowAt(g, first, FromStart(g, start), k, i)
    {
      StartClosesAt(g, first, start, k, i);
    }
  }

  /** FOLLOW holds, for every nonterminal, exactly the tokens that can follow it from the start. */
  ghost predicate RightFromStart(g: Grammar, start: Sym, follow: Follow) {
    forall b, t: Sym :: b in g.nonterminals && b in follow && !t.Non? ==>
      (t in follow[b] <==> FollowsFromStart(g, start, b, t))
  }

  /** It does so exactly if unreached nonterminals add nothing. */
  lemma FollowFromStartExact(g: Grammar, first: First, start: Sym, follow: Follow)
    requires WellFormed(g) && FirstSoFar(g, first) && ClosedFirst(g, first) && start in g.nonterminals
    requires ClosedFollow(g, first, start, follow) && SoundFollow(g, start, follow)
    ensures RightFromStart(g, start, follow) <==> NothingAdded(g, first, start)
  {
    if NothingAdded(g, first, start) {
      StartCloses(g, first, start);
      forall b, t: Sym | b in g.nonterminals && !t.Non? ensures t in follow[b] <==> FollowsFromStart(g, start, b, t) {
        FollowExact(g, first, start, follow, b, t);
        if CanFollow(g, start, b, t) { FollowComplete(g, first, start, FromStart(g, start), b, t); }
      }
    }
    if RightFromStart(g, start, follow) {
      forall k: nat, i: nat | k < |g.prods| && i < |g.prods[k].rhs| ensures AddsNothing(g, first, start, k, i) {
        AllDefined(g, first, k);
        FirstOfMarks(g, first, g.prods[k].rhs[i + 1..]);
        assert ClosedFollowAt(g, first, follow, k, i);
      }
    }
  }

  /** So it does if every nonterminal with a production is reached. */
  lemma ReachedGrammarExact(g: Grammar, first: First, start: Sym, follow: Follow)
    requires WellFormed(g) && FirstSoFar(g, first) && ClosedFirst(g, first) && start in g.nonterminals
    requires ClosedFollow(g, first, start, follow) && SoundFollow(g, start, follow)
    requires forall k: nat :: k < |g.prods| ==> Reached(g, start, g.prods[k].name)
    ensures RightFromStart(g, start, follow)
  {
    FollowFromStartExact(g, first, start, follow);
  }

  // ---- A grammar for which it does not ----

  /** S -> a, and N -> S b, which the start symbol S does not reach. */
  const UNREACHED := Grammar({Term(0), Term(1)}, {Non(0), Non(1)},
                             [Production(Non(0), [Term(0)]), Production(Non(1), [Non(0), Term(1)])])

  lemma {:induction false} UnreachedDerives(w: Word, w': Word, n: nat)
    requires (w == [Non(0)] || w == [Term(0)]) && DerivesIn(UNREACHED, w, w', n)
    ensures w' == [Non(0)] || w' == [Term(0)]
    decreases n
  {
    if n > 0 {
      var m: Word :| Step(UNREACHED, w, m) && DerivesIn(UNREACHED, m, w', n - 1);
      var i: nat, k: nat :| StepAt(UNREACHED, w, i, k, m);
      UnreachedDerives(m, w', n - 1);
    }
  }

  /** b is in FOLLOW of S, and no word derived from S has it after S. */
  lemma UnreachedAdds(first: First, follow: Follow)
    requires ClosedFirst(UNREACHED, first) && ClosedFollow(UNREACHED, first, Non(0), follow)
    ensures WellFormed(UNREACHED) && Term(1) in follow[Non(0)]
    ensures !FollowsFromStart(UNREACHED, Non(0), Non(0), Term(1))
  {
    var g := UNREACHED;
    assert ClosedFollowAt(g, first, follow, 1, 0);
    assert g.prods[1].rhs[1..] == [Term(1)];
    assert FirstOf(first, [Term(1)]) == {Tok(Term(1))};
    forall u: Word, v: Word ensures !Derives(g, [Non(0)], u + [Non(0), Term(1)] + v) {
      var w := u + [Non(0), Term(1)] + v;
      forall n: nat ensures !DerivesIn(g, [Non(0)], w, n) {
        if DerivesIn(g, [Non(0)], w, n) { UnreachedDerives([Non(0)], w, n); }
      }
    }
  }

  // ---- Growth of the tables ----

  ghost predicate Below<V>(a: map<Sym, set<V>>, b: map<Sym, set<V>>) {
    a.Keys == b.Keys && forall s :: s in a ==> a[s] <= b[s]
  }

  lemma BelowTwice<V>(a: map<Sym, set<V>>, b: map<Sym, set<V>>, c: map<Sym, set<V>>)
    requires Below(a, b) && Below(b, c)
    ensures Below(a, c) && (a == c ==> a == b && b == c)
  {
    if a == c {
      assert forall s :: s in a ==> a[s] == b[s];
    }
  }

  ghost function Pairs<V>(table: map<Sym, set<V>>): set<(Sym, V)> {
    set s, v | s in table && v in table[s] :: (s, v)
  }

  ghost function Bound<V>(keys: set<Sym>, values: set<V>): set<(Sym, V)> {
    set s, v | s in keys && v in values :: (s, v)
  }

  /** A table that grows has fewer pairs left to gain. */
  lemma Grows<V>(a: map<Sym, set<V>>, b: map<Sym, set<V>>, values: set<V>)
    requires Below(a, b) && a != b && forall s :: s in b ==> b[s] <= values
    ensures Bound(a.Keys, values) - Pairs(b) < Bound(a.Keys, values) - Pairs(a)
  {
    assert Pairs(a) <= Pairs(b);
    var s :| s in a && a[s] != b[s];
    var v :| v in b[s] && v !in a[s];
    assert (s, v) in Pairs(b) && (s, v) !in Pairs(a) && (s, v) in Bound(a.Keys, values);
  }

  ghost function Marks(g: Grammar): set<Mark> {
    (set t | t in g.terminals :: Tok(t)) + {Tok(End), Empty}
  }

  lemma {:induction false} FirstOfMarks(g: Grammar, first: First, w: Word)
    requires Defined(first, w) && forall s :: s in first ==> first[s] <= Marks(g)
    ensures FirstOf(first, w) <= Marks(g)
  {
    if w != [] {
      FirstOfMarks(g, first, w[1..]);
    }
  }

  // ---- The computations ----

  /** What compute_first keeps: the table is sound and right about terminals. */
  ghost predicate FirstSoFar(g: Grammar, first: First) {
    && (forall s :: s in first <==> Known(g, s))
    && (forall s :: s in first && !s.Non? ==> first[s] == {Tok(s)})
    && (forall s :: s in first ==> first[s] <= Marks(g))
    && SoundFirst(g, first)
  }

  lemma AllDefined(g: Grammar, first: First, k: nat)
    requires WellFormed(g) && FirstSoFar(g, first) && k < |g.prods|
    ensures g.prods[k].name in first && Defined(first, g.prods[k].rhs)
  {
    assert g.prods[k].name in g.nonterminals && KnownWord(g, g.prods[k].rhs);
  }

  /** One production's contribution. */
  lemma PropagateKeeps(g: Grammar, first: First, k: nat)
    requires WellFormed(g) && FirstSoFar(g, first) && k < |g.prods|
    ensures g.prods[k].name in first && Defined(first, g.prods[k].rhs)
    ensures var first' := first[g.prods[k].name := first[g.prods[k].name] + FirstOf(first, g.prods[k].rhs)];
      FirstSoFar(g, first') && Below(first, first')
  {
    AllDefined(g, first, k);
    var n, r := g.prods[k].name, g.prods[k].rhs;
    var first' := first[n := first[n] + FirstOf(first, r)];
    FirstOfMarks(g, first, r);
    forall s, m | s in first' && m in first'[s] ensures Begins(g, [s], m) {
      if !(m in first[s]) {
        FirstOfSound(g, first, r, m);
        OneStep(g, k);
        if m == Empty {
          DerivesTrans(g, [n], r, []);
        } else {
          var b: Word :| Derives(g, r, [m.t] + b);
          DerivesTrans(g, [n], r, [m.t] + b);
        }
      }
    }
  }

  class LRGrammar {
    const g: Grammar
    /** The nonterminals in the order of the dictionary. */
    const order: seq<Sym>
    var first: First
    var follow: Follow

    constructor (g: Grammar, order: seq<Sym>)
      ensures this.g == g && this.order == order && first == map[] && follow == map[]
    {
      this.g, this.order := g, order;
      first, follow := map[], map[];
    }

    ghost predicate Usable() {
      WellFormed(g) && forall s :: s in order <==> s in g.nonterminals
    }

    /** _first */
    method FirstOfWord(beta: Word) returns (result: set<Mark>)
      requires Defined(first, beta)
      ensures result == FirstOf(first, beta)
    {
      result := {};
      for i := 0 to |beta|
        invariant Empty !in result && FirstOf(first, beta) == result + FirstOf(first, beta[i..])
      {
        assert beta[i..][1..] == beta[i + 1..];
        result := result + (first[beta[i]] - {Empty});
        if Empty !in first[beta[i]] {
          return;
        }
      }
      result := result + {Empty};
    }

    /** compute_first */
    method ComputeFirst()
      requires Usable() && (first == map[] || (FirstSoFar(g, first) && ClosedFirst(g, first)))
      modifies this`first
      ensures FirstSoFar(g, first) && ClosedFirst(g, first)
    {
      if first != map[] {
        return;
      }
      InitFirst();
      var someChange := true;
      while someChange
        invariant FirstSoFar(g, first) && (!someChange ==> AllClosed(first))
        decreases Bound(first.Keys, Marks(g)) - Pairs(first), someChange
      {
        ghost var before := first;
        someChange := Pass();
        if someChange {
          Grows(before, first, Marks(g));
        }
      }
    }

    ghost predicate AllClosed(f: First) {
      forall k: nat :: k < |g.prods| ==> ClosedAt(g, f, k)
    }

    method InitFirst()
      requires Usable()
      modifies this`first
      ensures FirstSoFar(g, first)
    {
      var terminals := map t | t in g.terminals :: {Tok(t)};
      var nonterminals := map n | n in g.nonterminals :: {};
      first := nonterminals + terminals + map[End := {Tok(End)}];
      forall s, m | s in first && m in first[s] ensures Begins(g, [s], m) {
        DerivesSelf(g, [s]);
        assert [s] == [s] + [];
      }
    }

    /** One pass over all nonterminals and their productions. */
    method Pass() returns (someChange: bool)
      requires Usable() && FirstSoFar(g, first)
      modifies this`first
      ensures FirstSoFar(g, first) && Below(old(first), first) && (someChange <==> first != old(first))
      ensures !someChange ==> AllClosed(first)
    {
      someChange := false;
      for i := 0 to |order|
        invariant FirstSoFar(g, first) && Below(old(first), first) && (someChange <==> first != old(first))
        invariant !someChange ==>
          forall k: nat :: k < |g.prods| && g.prods[k].name in order[..i] ==> ClosedAt(g, first, k)
      {
        ghost var before := first;
        var changed := PassFor(order[i]);
        BelowTwice(old(first), before, first);
        someChange := someChange || changed;
      }
      assert order[..|order|] == order;
    }

    method PassFor(n: Sym) returns (someChange: bool)
      requires Usable() && FirstSoFar(g, first)
      modifies this`first
      ensures FirstSoFar(g, first) && Below(old(first), first) && (someChange <==> first != old(first))
      ensures !someChange ==> forall k: nat :: k < |g.prods| && g.prods[k].name == n ==> ClosedAt(g, first, k)
    {
      someChange := false;
      for k := 0 to |g.prods|
        invariant FirstSoFar(g, first) && Below(old(first), first) && (someChange <==> first != old(first))
        invariant !someChange ==> forall j: nat :: j < k && g.prods[j].name == n ==> ClosedAt(g, first, j)
      {
        if g.prods[k].name == n {
          ghost var before := first;
          var changed := Propagate(k);
          BelowTwice(old(first), before, first);
          someChange := someChange || changed;
        }
      }
    }

    method Propagate(k: nat) returns (changed: bool)
      requires Usable() && FirstSoFar(g, first) && k < |g.prods|
      modifies this`first
      ensures FirstSoFar(g, first) && Below(old(first), first) && (changed <==> first != old(first))
      ensures !changed ==> ClosedAt(g, first, k)
    {
      PropagateKeeps(g, first, k);
      var n := g.prods[k].name;
      var found := FirstOfWord(g.prods[k].rhs);
      changed := !(found <= first[n]);
      if changed {
        assert first[n] + found != first[n];
        first := first[n := first[n] + found];
      }
    }

    // ---- FOLLOW ----

    ghost function Tokens0(): set<Sym> {
      g.terminals + {End}
    }

    /** What compute_follow keeps. */
    ghost predicate FollowSoFar(start: Sym, f: Follow) {
      && f.Keys == g.nonterminals && start in f && End in f[start]
      && (forall s :: s in f ==> f[s] <= Tokens0())
      && SoundFollow(g, start, f)
    }

    ghost predicate FollowClosedAt(f: Follow, k: nat, i: nat)
      reads this`first
    {
      FirstSoFar(g, first) && (k < |g.prods| && i < |g.prods[k].rhs| ==> ClosedFollowAt(g, first, f, k, i))
    }

    /** compute_follow; `start` defaults to the name of the first production. */
    method ComputeFollow(start: Sym)
      requires Usable() && start in g.nonterminals && follow == map[]
      requires first == map[] || (FirstSoFar(g, first) && ClosedFirst(g, first))
      modifies this`first, this`follow
      ensures FirstSoFar(g, first) && ClosedFirst(g, first)
      ensures ClosedFollow(g, first, start, follow) && SoundFollow(g, start, follow)
    {
      if first == map[] {
        ComputeFirst();
      }
      InitFollow(start);
      ghost var fixed := first;
      var didAdd := true;
      while didAdd
        invariant first == fixed && FollowSoFar(start, follow)
        invariant !didAdd ==> forall k: nat, i: nat :: FollowClosedAt(follow, k, i)
        decreases Bound(follow.Keys, Tokens0()) - Pairs(follow), didAdd
      {
        ghost var before := follow;
        didAdd := FollowPass(start);
        if didAdd {
          Grows(before, follow, Tokens0());
        }
      }
      forall k: nat, i: nat | k < |g.prods| && i < |g.prods[k].rhs| ensures ClosedFollowAt(g, first, follow, k, i) {
        assert FollowClosedAt(follow, k, i);
      }
    }

    method InitFollow(start: Sym)
      requires Usable() && start in g.nonterminals
      modifies this`follow
      ensures FollowSoFar(start, follow)
    {
      follow := (map k | k in g.nonterminals :: {})[start := {End}];
      DerivesSelf(g, [start]);
      assert [start] == [] + [start];
      forall b, t | b in follow && t in follow[b] ensures CanFollow(g, start, b, t) {
      }
    }

    /** One pass over all productions. */
    method FollowPass(start: Sym) returns (didAdd: bool)
      requires Usable() && FirstSoFar(g, first) && FollowSoFar(start, follow)
      modifies this`follow
      ensures FollowSoFar(start, follow) && Below(old(follow), follow) && (didAdd <==> follow != old(follow))
      ensures !didAdd ==> forall k: nat, i: nat :: FollowClosedAt(follow, k, i)
    {
      didAdd := false;
      for k := 0 to |g.prods|
        invariant FollowSoFar(start, follow) && Below(old(follow), follow) && (didAdd <==> follow != old(follow))
        invariant !didAdd ==> forall j: nat, i: nat :: j < k ==> FollowClosedAt(follow, j, i)
      {
        ghost var before := follow;
        var added := FollowOf(start, k);
        BelowTwice(old(follow), before, follow);
        didAdd := didAdd || added;
      }
    }

    method FollowOf(start: Sym, k: nat) returns (didAdd: bool)
      requires Usable() && FirstSoFar(g, first) && FollowSoFar(start, follow) && k < |g.prods|
      modifies this`follow
      ensures FollowSoFar(start, follow) && Below(old(follow), follow) && (didAdd <==> follow != old(follow))
      ensures !didAdd ==> forall i: nat :: FollowClosedAt(follow, k, i)
    {
      didAdd := false;
      for i := 0 to |g.prods[k].rhs|
        invariant FollowSoFar(start, follow) && Below(old(follow), follow) && (didAdd <==> follow != old(follow))
        invariant !didAdd ==> forall j: nat :: j < i ==> FollowClosedAt(follow, k, j)
      {
        ghost var before := follow;
        AllDefined(g, first, k);
        if g.prods[k].rhs[i] in g.nonterminals {
          var added := FollowAt(start, k, i);
          BelowTwice(old(follow), before, follow);
          didAdd := didAdd || added;
        }
      }
    }

    /** One nonterminal of one production. */
    method FollowAt(start: Sym, k: nat, i: nat) returns (didAdd: bool)
      requires Usable() && FirstSoFar(g, first) && FollowSoFar(start, follow)
      requires k < |g.prods| && i < |g.prods[k].rhs| && g.prods[k].rhs[i] in g.nonterminals
      modifies this`follow
      ensures FollowSoFar(start, follow) && Below(old(follow), follow) && (didAdd <==> follow != old(follow))
      ensures !didAdd ==> FollowClosedAt(follow, k, i)
    {
      AllDefined(g, first, k);
      var p := g.prods[k];
      var b := p.rhs[i];
      var fst := FirstOfWord(p.rhs[i + 1..]);
      FirstOfMarks(g, first, p.rhs[i + 1..]);
      ghost var before := follow;
      var added := AddFollow(start, b, Tokens(fst), k, i);
      didAdd := added;
      if Empty in fst || i == |p.rhs| - 1 {
        ghost var middle := follow;
        added := AddName(start, k, i);
        BelowTwice(before, middle, follow);
        didAdd := didAdd || added;
      }
    }

    method AddFollow(start: Sym, b: Sym, more: set<Sym>, ghost k: nat, ghost i: nat) returns (added: bool)
      requires Usable() && FirstSoFar(g, first) && FollowSoFar(start, follow) && b in follow
      requires k < |g.prods| && i < |g.prods[k].rhs| && b == g.prods[k].rhs[i]
      requires Defined(first, g.prods[k].rhs[i + 1..])
      requires more == Tokens(FirstOf(first, g.prods[k].rhs[i + 1..])) && more <= Tokens0()
      modifies this`follow
      ensures FollowSoFar(start, follow) && Below(old(follow), follow) && (added <==> follow != old(follow))
      ensures more <= follow[b] && (!added ==> more <= old(follow)[b])
    {
      added := !(more <= follow[b]);
      if added {
        assert follow[b] + more != follow[b];
        forall t | t in more ensures CanFollow(g, start, b, t) {
          FollowFromFirst(g, first, start, k, i, t);
        }
        follow := follow[b := follow[b] + more];
      }
    }

    method AddName(start: Sym, k: nat, i: nat) returns (added: bool)
      requires Usable() && FirstSoFar(g, first) && FollowSoFar(start, follow)
      requires k < |g.prods| && i < |g.prods[k].rhs| && g.prods[k].rhs[i] in follow && g.prods[k].name in follow
      requires Defined(first, g.prods[k].rhs[i + 1..]) && Empty in FirstOf(first, g.prods[k].rhs[i + 1..])
      modifies this`follow
      ensures FollowSoFar(start, follow) && Below(old(follow), follow) && (added <==> follow != old(follow))
      ensures !added ==> follow[g.prods[k].name] <= follow[g.prods[k].rhs[i]]
    {
      var b, n := g.prods[k].rhs[i], g.prods[k].name;
      added := !(follow[n] <= follow[b]);
      if added {
        assert follow[b] + follow[n] != follow[b];
        forall t | t in follow[n] ensures CanFollow(g, start, b, t) {
          FollowFromName(g, first, start, k, i, t);
        }
        follow := follow[b := follow[b] + follow[n]];
      }
    }

    // ---- Nullable nonterminals ----

    /** compute_nullable_nonterminals */
    method ComputeNullableNonterminals() returns (nullable: set<Sym>)
      requires Usable()
      ensures SoundNullable(g, nullable) && ClosedNullable(g, nullable) && nullable <= g.nonterminals
    {
      nullable := {};
      var numNullable := 0;
      while true
        invariant SoundNullable(g, nullable) && nullable <= g.nonterminals && numNullable == |nullable|
        decreases g.nonterminals - nullable
      {
        ghost var before := nullable;
        nullable := NullablePass(nullable);
        if |nullable| == numNullable {
          SameSize(before, nullable);
          break;
        }
        assert nullable != before;
        numNullable := |nullable|;
      }
    }

    static lemma SameSize(a: set<Sym>, b: set<Sym>)
      requires a <= b && |b| <= |a|
      ensures a == b
    {
      assert b == a + (b - a) && |a + (b - a)| == |a| + |b - a|;
    }

    method NullablePass(nullable0: set<Sym>) returns (nullable: set<Sym>)
      requires Usable() && SoundNullable(g, nullable0) && nullable0 <= g.nonterminals
      ensures SoundNullable(g, nullable) && nullable0 <= nullable <= g.nonterminals
      ensures nullable == nullable0 ==> ClosedNullable(g, nullable)
    {
      nullable := nullable0;
      for k := 0 to |g.prods|
        invariant SoundNullable(g, nullable) && nullable0 <= nullable <= g.nonterminals
        invariant nullable == nullable0 ==>
          forall j: nat :: j < k && AllIn(g.prods[j].rhs, nullable) ==> g.prods[j].name in nullable
      {
        if AllIn(g.prods[k].rhs, nullable) {
          AllInDerives(g, nullable, g.prods[k].rhs);
          OneStep(g, k);
          DerivesTrans(g, [g.prods[k].name], g.prods[k].rhs, []);
          nullable := nullable + {g.prods[k].name};
        }
      }
    }
  }
}
