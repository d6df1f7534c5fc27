/** The AA tree of cdt.c as a value: what each rebalancing step builds, and what the steps keep.
    The class in Cdt.dfy performs the same steps in memory and is proved to follow these functions. */
module AATree {
  import opened Basics

  datatype Tree<E> = Leaf | Node(level: nat, left: Tree<E>, elem: E, right: Tree<E>)

  // ---- Orders and in-order listings ----

  ghost predicate TotalOrder<E(!new)>(less: (E, E) -> bool) {
    && (forall a :: !less(a, a))
    && (forall a, b :: a == b || less(a, b) || less(b, a))
    && (forall a, b, c :: less(a, b) && less(b, c) ==> less(a, c))
  }

  ghost predicate Sorted<E>(less: (E, E) -> bool, s: seq<E>) {
    forall i, j :: 0 <= i < j < |s| ==> less(s[i], s[j])
  }

  function Flatten<E>(t: Tree<E>): seq<E> {
    match t
    case Leaf => []
    case Node(_, l, e, r) => Flatten(l) + [e] + Flatten(r)
  }

  function Level<E>(t: Tree<E>): nat {
    if t.Leaf? then 0 else t.level
  }

  // ---- The level rules ----

  /** A node whose right child sits on the same level. */
  predicate Horizontal<E>(t: Tree<E>) {
    t.Node? && Level(t.right) == t.level
  }

  predicate AA<E>(t: Tree<E>) {
    match t
    case Leaf => true
    case Node(k, l, _, r) =>
      && AA(l) && AA(r)
      && k == Level(l) + 1
      && (Level(r) == k || Level(r) == k - 1)
      && (Level(r) == k ==> !Horizontal(r))
  }

  // ---- The steps ----

  function Skew<E>(t: Tree<E>): Tree<E> {
    if t.Node? && t.left.Node? && t.left.level == t.level then
      t.left.(right := t.(left := t.left.right))
    else t
  }

  function Split<E>(t: Tree<E>): Tree<E> {
    if t.Node? && t.right.Node? && t.right.right.Node? && t.level == t.right.right.level then
      Node(t.right.level + 1, t.(right := t.right.left), t.right.elem, t.right.right)
    else t
  }

  function DecLevel<E>(t: Tree<E>): Tree<E> {
    if t.Leaf? then t else
      var shouldBe := Min(Level(t.left), Level(t.right)) + 1;
      if shouldBe < t.level then
        if t.right.Node? && shouldBe < t.right.level then
          t.(level := shouldBe, right := t.right.(level := shouldBe))
        else t.(level := shouldBe)
      else t
  }

  function SkewRights<E>(t: Tree<E>): Tree<E> {
    if t.Leaf? then t else
      var r := Skew(t.right);
      if r.Leaf? then t.(right := r) else t.(right := r.(right := Skew(r.right)))
  }

  function SplitRight<E>(t: Tree<E>): Tree<E> {
    if t.Leaf? then t else t.(right := Split(t.right))
  }

  function Rebalance<E>(t: Tree<E>): Tree<E> {
    SplitRight(Split(SkewRights(Skew(DecLevel(t)))))
  }

  function Insert<E>(less: (E, E) -> bool, t: Tree<E>, e: E): Tree<E> {
    match t
    case Leaf => Node(1, Leaf, e, Leaf)
    case Node(_, l, x, r) =>
      if less(x, e) then Split(Skew(t.(right := Insert(less, r, e))))
      else if less(e, x) then Split(Skew(t.(left := Insert(less, l, e))))
      else t
  }

  function Greatest<E>(t: Tree<E>): E
    requires t.Node?
  {
    if t.right.Leaf? then t.elem else Greatest(t.right)
  }

  function Least<E>(t: Tree<E>): E
    requires t.Node?
  {
    if t.left.Leaf? then t.elem else Least(t.left)
  }

  function Remove<E>(less: (E, E) -> bool, t: Tree<E>, e: E): Tree<E>
    decreases t, 1
  {
    match t
    case Leaf => Leaf
    case Node(_, l, x, r) =>
      if less(x, e) then Rebalance(t.(right := Remove(less, r, e)))
      else if less(e, x) then Rebalance(t.(left := Remove(less, l, e)))
      else Rebalance(RemoveNode(less, t))
  }

  function RemoveNode<E>(less: (E, E) -> bool, t: Tree<E>): Tree<E>
    requires t.Node?
    decreases t, 0
  {
    if t.left.Node? then
      t.(elem := Greatest(t.left), left := Remove(less, t.left, Greatest(t.left)))
    else if t.right.Node? then
      t.(elem := Least(t.right), right := Remove(less, t.right, Least(t.right)))
    else Leaf
  }

  // ---- Rotations keep the listing ----

  lemma SkewListing<E>(t: Tree<E>)
    ensures Flatten(Skew(t)) == Flatten(t)
  {
    if t.Node? && t.left.Node? && t.left.level == t.level {
      var l := t.left;
      calc {
        Flatten(Skew(t));
        Flatten(l.left) + [l.elem] + (Flatten(l.right) + [t.elem] + Flatten(t.right));
        (Flatten(l.left) + [l.elem] + Flatten(l.right)) + [t.elem] + Flatten(t.right);
        Flatten(t);
      }
    }
  }

  lemma SplitListing<E>(t: Tree<E>)
    ensures Flatten(Split(t)) == Flatten(t)
  {
    if t.Node? && t.right.Node? && t.right.right.Node? && t.level == t.right.right.level {
      var r := t.right;
      calc {
        Flatten(Split(t));
        (Flatten(t.left) + [t.elem] + Flatten(r.left)) + [r.elem] + Flatten(r.right);
        Flatten(t.left) + [t.elem] + (Flatten(r.left) + [r.elem] + Flatten(r.right));
        Flatten(t);
      }
    }
  }

  lemma RebalanceListing<E>(t: Tree<E>)
    ensures Flatten(Rebalance(t)) == Flatten(t)
  {
    var d := DecLevel(t);
    assert Flatten(d) == Flatten(t);
    SkewListing(d);
    var k := Skew(d);
    if k.Node? {
      SkewListing(k.right);
      var r := Skew(k.right);
      if r.Node? { SkewListing(r.right); }
    }
    var s := SkewRights(k);
    assert Flatten(s) == Flatten(k);
    SplitListing(s);
    if Split(s).Node? { SplitListing(Split(s).right); }
  }

  // ---- Sorted listings ----

  lemma SortedParts<E>(less: (E, E) -> bool, a: seq<E>, x: E, b: seq<E>)
    requires Sorted(less, a + [x] + b)
    ensures Sorted(less, a) && Sorted(less, b)
    ensures forall y :: y in a ==> less(y, x)
    ensures forall y :: y in b ==> less(x, y)
    ensures forall y, z :: y in a && z in b ==> less(y, z)
  {
    var s := a + [x] + b;
    assert forall i :: 0 <= i < |a| ==> s[i] == a[i];
    assert s[|a|] == x;
    assert forall i :: 0 <= i < |b| ==> s[|a| + 1 + i] == b[i];
  }

  lemma SortedJoin<E>(less: (E, E) -> bool, a: seq<E>, x: E, b: seq<E>)
    requires Sorted(less, a) && Sorted(less, b)
    requires forall y :: y in a ==> less(y, x)
    requires forall y :: y in b ==> less(x, y)
    requires forall y, z :: y in a && z in b ==> less(y, z)
    ensures Sorted(less, a + [x] + b)
  {
  }

  // ---- Cutting a listing open ----

  /** `s` with `skip` elements at position `k` replaced by `mid`. */
  function Splice<E>(s: seq<E>, k: nat, skip: nat, mid: seq<E>): seq<E>
    requires k + skip <= |s|
  {
    s[..k] + mid + s[k + skip..]
  }

  lemma SpliceSuffix<E>(a: seq<E>, b: seq<E>, j: nat, skip: nat, mid: seq<E>)
    requires j + skip <= |b|
    ensures Splice(a + b, |a| + j, skip, mid) == a + Splice(b, j, skip, mid)
  {
    assert (a + b)[..|a| + j] == a + b[..j];
    assert (a + b)[|a| + j + skip..] == b[j + skip..];
  }

  lemma SpliceRight<E>(t: Tree<E>, r': Tree<E>, j: nat, skip: nat, mid: seq<E>)
    requires t.Node? && j + skip <= |Flatten(t.right)|
    requires Flatten(r') == Splice(Flatten(t.right), j, skip, mid)
    ensures Flatten(t.(right := r')) == Splice(Flatten(t), |Flatten(t.left)| + 1 + j, skip, mid)
  {
    SpliceSuffix(Flatten(t.left) + [t.elem], Flatten(t.right), j, skip, mid);
  }

  lemma SpliceLeft<E>(t: Tree<E>, l': Tree<E>, j: nat, skip: nat, mid: seq<E>)
    requires t.Node? && j + skip <= |Flatten(t.left)|
    requires Flatten(l') == Splice(Flatten(t.left), j, skip, mid)
    ensures Flatten(t.(left := l')) == Splice(Flatten(t), j, skip, mid)
  {
    var a, x, b := Flatten(t.left), t.elem, Flatten(t.right);
    var s := a + [x] + b;
    assert s[..j] == a[..j];
    assert s[j + skip..] == a[j + skip..] + [x] + b;
  }

  // ---- Insertion ----

  /** `e` belongs at position `k` of `s`. */
  ghost predicate Fits<E>(less: (E, E) -> bool, s: seq<E>, k: nat, e: E) {
    && k <= |s|
    && (forall i :: 0 <= i < k ==> less(s[i], e))
    && (forall i :: k <= i < |s| ==> less(e, s[i]))
  }

  lemma FitsRight<E(!new)>(less: (E, E) -> bool, a: seq<E>, x: E, b: seq<E>, j: nat, e: E)
    requires TotalOrder(less) && Sorted(less, a + [x] + b)
    requires less(x, e) && Fits(less, b, j, e)
    ensures Fits(less, a + [x] + b, |a| + 1 + j, e)
  {
    SortedParts(less, a, x, b);
    assert forall i :: 0 <= i < |a| ==> a[i] in a && less(a[i], x);
  }

  lemma FitsLeft<E(!new)>(less: (E, E) -> bool, a: seq<E>, x: E, b: seq<E>, j: nat, e: E)
    requires TotalOrder(less) && Sorted(less, a + [x] + b)
    requires less(e, x) && Fits(less, a, j, e)
    ensures Fits(less, a + [x] + b, j, e)
  {
    SortedParts(less, a, x, b);
    assert forall i :: 0 <= i < |b| ==> b[i] in b && less(x, b[i]);
  }

  /** Insertion puts the new element at the one position the order allows and moves nothing else. */
  lemma {:induction false} InsertListing<E(!new)>(less: (E, E) -> bool, t: Tree<E>, e: E) returns (k: nat)
    requires TotalOrder(less)
    requires Sorted(less, Flatten(t)) && e !in Flatten(t)
    ensures Fits(less, Flatten(t), k, e)
    ensures Flatten(Insert(less, t, e)) == Splice(Flatten(t), k, 0, [e])
  {
    match t
    case Leaf => k := 0;
    case Node(_, l, x, r) =>
      SortedParts(less, Flatten(l), x, Flatten(r));
      var t';
      if less(x, e) {
        var j := InsertListing(less, r, e);
        t' := t.(right := Insert(less, r, e));
        k := |Flatten(l)| + 1 + j;
        SpliceRight(t, Insert(less, r, e), j, 0, [e]);
        FitsRight(less, Flatten(l), x, Flatten(r), j, e);
      } else {
        k := InsertListing(less, l, e);
        t' := t.(left := Insert(less, l, e));
        SpliceLeft(t, Insert(less, l, e), k, 0, [e]);
        FitsLeft(less, Flatten(l), x, Flatten(r), k, e);
      }
      SkewListing(t');
      SplitListing(Skew(t'));
  }

  lemma InsertSorted<E(!new)>(less: (E, E) -> bool, t: Tree<E>, e: E)
    requires TotalOrder(less)
    requires Sorted(less, Flatten(t)) && e !in Flatten(t)
    ensures Sorted(less, Flatten(Insert(less, t, e)))
    ensures multiset(Flatten(Insert(less, t, e))) == multiset(Flatten(t)) + multiset{e}
  {
    var k := InsertListing(less, t, e);
    var s := Flatten(t);
    assert s == s[..k] + s[k..];
    SortedJoin(less, s[..k], e, s[k..]);
  }

  /** Insertion keeps the level rules; the root rises by at most one level, and only from a horizontal root. */
  lemma {:induction false} InsertAA<E>(less: (E, E) -> bool, t: Tree<E>, e: E)
    requires AA(t)
    ensures AA(Insert(less, t, e))
    ensures t.Node? ==> Insert(less, t, e).Node?
    ensures t.Node? && !Horizontal(t) ==> Level(Insert(less, t, e)) == Level(t)
    ensures Level(t) <= Level(Insert(less, t, e)) <= Level(t) + 1
    ensures Level(Insert(less, t, e)) == Level(t) + 1 ==> !Horizontal(Insert(less, t, e))
  {
    match t
    case Leaf =>
    case Node(_, l, x, r) =>
      if less(x, e) {
        InsertAA(less, r, e);
      } else if less(e, x) {
        InsertAA(less, l, e);
      }
  }

  // ---- Removal ----

  lemma {:induction false} GreatestLast<E>(t: Tree<E>)
    requires t.Node?
    ensures Flatten(t) != [] && Flatten(t)[|Flatten(t)| - 1] == Greatest(t)
  {
    if t.right.Node? { GreatestLast(t.right); }
  }

  lemma {:induction false} LeastFirst<E>(t: Tree<E>)
    requires t.Node?
    ensures Flatten(t) != [] && Flatten(t)[0] == Least(t)
  {
    if t.left.Node? { LeastFirst(t.left); }
  }

  /** Removal drops exactly the target from the listing and moves nothing else. */
  lemma {:induction false} RemoveListing<E(!new)>(less: (E, E) -> bool, t: Tree<E>, e: E) returns (k: nat)
    requires TotalOrder(less)
    requires Sorted(less, Flatten(t)) && e in Flatten(t)
    ensures k < |Flatten(t)| && Flatten(t)[k] == e
    ensures Flatten(Remove(less, t, e)) == Splice(Flatten(t), k, 1, [])
    decreases t, 2
  {
    match t
    case Node(_, l, x, r) =>
      SortedParts(less, Flatten(l), x, Flatten(r));
      var t';
      if less(x, e) {
        var j := RemoveListing(less, r, e);
        t' := t.(right := Remove(less, r, e));
        k := |Flatten(l)| + 1 + j;
        SpliceRight(t, Remove(less, r, e), j, 1, []);
      } else if less(e, x) {
        k := RemoveListing(less, l, e);
        t' := t.(left := Remove(less, l, e));
        SpliceLeft(t, Remove(less, l, e), k, 1, []);
      } else {
        t' := RemoveNode(less, t);
        k := |Flatten(l)|;
        RemoveRootListing(less, t);
      }
      assert Remove(less, t, e) == Rebalance(t');
      RebalanceListing(t');
  }

  lemma {:induction false} RemoveRootListing<E(!new)>(less: (E, E) -> bool, t: Tree<E>)
    requires TotalOrder(less)
    requires t.Node? && Sorted(less, Flatten(t))
    ensures Flatten(t)[|Flatten(t.left)|] == t.elem
    ensures Flatten(RemoveNode(less, t)) == Splice(Flatten(t), |Flatten(t.left)|, 1, [])
    decreases t, 1
  {
    var k := |Flatten(t.left)|;
    RemoveNodeListing(less, t);
    assert Flatten(t)[..k] == Flatten(t.left) && Flatten(t)[k + 1..] == Flatten(t.right);
  }

  lemma {:induction false} RemoveNodeListing<E(!new)>(less: (E, E) -> bool, t: Tree<E>)
    requires TotalOrder(less)
    requires t.Node? && Sorted(less, Flatten(t))
    ensures Flatten(RemoveNode(less, t)) == Flatten(t.left) + Flatten(t.right)
    decreases t, 0
  {
    var a, b := Flatten(t.left), Flatten(t.right);
    SortedParts(less, a, t.elem, b);
    if t.left.Node? {
      GreatestLast(t.left);
      var j := RemoveListing(less, t.left, Greatest(t.left));
      assert j == |a| - 1;
      assert a[..j] + a[j + 1..] + [a[j]] == a;
    } else if t.right.Node? {
      LeastFirst(t.right);
      var j := RemoveListing(less, t.right, Least(t.right));
      assert j == 0;
      assert [b[j]] + (b[..j] + b[j + 1..]) == b;
    }
  }

  /** A tree that meets the level rules gives the rotations nothing to do. */
  lemma StepsIdle<E>(t: Tree<E>)
    requires AA(t)
    ensures Skew(t) == t && Split(t) == t
  {
    if t.Node? && t.right.Node? { assert AA(t.right); }
  }

  /** Left lost a level, right is not horizontal. */
  lemma RebalanceShortLeft<E>(t: Tree<E>, k: nat)
    requires t.Node? && t.level == k && AA(t.left) && AA(t.right)
    requires Level(t.left) == k - 2 && Level(t.right) == k - 1
    ensures AA(Rebalance(t)) && Rebalance(t).Node?
    ensures k - 1 <= Level(Rebalance(t)) <= k
    ensures Level(Rebalance(t)) == k ==> !Horizontal(Rebalance(t))
  {
    var d := DecLevel(t);
    assert d == t.(level := k - 1);
    assert Skew(d) == d;
    assert SkewRights(d) == d;
    var r := t.right;
    if Level(r.right) == k - 1 {
      assert Split(d) == Node(k, d.(right := r.left), r.elem, r.right);
      StepsIdle(r.right);
    } else {
      assert Split(d) == d;
      assert Split(r) == r;
    }
  }

  /** Left lost a level and right is horizontal: both drop, and up to two skews and two splits follow. */
  lemma RebalanceShortLeftHorizontal<E>(t: Tree<E>, k: nat)
    requires t.Node? && t.level == k && AA(t.left) && AA(t.right)
    requires Level(t.left) == k - 2 && Level(t.right) == k && !Horizontal(t.right)
    ensures AA(Rebalance(t)) && Rebalance(t).Node?
    ensures k - 1 <= Level(Rebalance(t)) <= k
  {
    var r := t.right;
    var r' := r.(level := k - 1);
    var d := DecLevel(t);
    assert d == t.(level := k - 1, right := r');
    assert Skew(d) == d;
    var m := r.left;
    assert Level(m) == k - 1 && Level(r.right) == k - 1;
    assert Skew(r') == m.(right := r'.(left := m.right));
    if Level(m.right) == k - 1 {
      var n := m.right;
      assert Skew(r'.(left := n)) == n.(right := r'.(left := n.right));
      var s := SkewRights(d);
      assert s == d.(right := m.(right := n.(right := r'.(left := n.right))));
      assert Split(s) == Node(k, d.(right := m.left), m.elem, n.(right := r'.(left := n.right)));
    } else {
      assert Skew(r'.(left := m.right)) == r'.(left := m.right);
      var s := SkewRights(d);
      assert s == d.(right := m.(right := r'.(left := m.right)));
      assert Split(s) == Node(k, d.(right := m.left), m.elem, r'.(left := m.right));
    }
  }

  /** Right lost a level. */
  lemma RebalanceShortRight<E>(t: Tree<E>, k: nat)
    requires t.Node? && t.level == k && AA(t.left) && AA(t.right)
    requires Level(t.left) == k - 1 && Level(t.right) == k - 2
    ensures AA(Rebalance(t)) && Rebalance(t).Node?
    ensures k - 1 <= Level(Rebalance(t)) <= k
    ensures Level(Rebalance(t)) == k ==> !Horizontal(Rebalance(t))
  {
    var l := t.left;
    var d := DecLevel(t);
    assert d == t.(level := k - 1);
    var d' := d.(left := l.right);
    assert Skew(d) == l.(right := d');
    if Level(l.right) == k - 1 {
      var n := l.right;
      assert Skew(d') == n.(right := d'.(left := n.right));
      assert SkewRights(Skew(d)) == l.(right := n.(right := d'.(left := n.right)));
      assert Split(SkewRights(Skew(d))) == Node(k, l.(right := n.left), n.elem, d'.(left := n.right));
    } else {
      assert Skew(d') == d';
      assert SkewRights(Skew(d)) == Skew(d);
    }
  }

  lemma RebalanceUnchanged<E>(t: Tree<E>)
    requires AA(t)
    ensures Rebalance(t) == t
  {
    if t.Node? {
      assert DecLevel(t) == t;
      StepsIdle(t);
      StepsIdle(t.right);
      if t.right.Node? { StepsIdle(t.right.right); }
      assert SkewRights(t) == t;
    }
  }

  /** What removal promises its caller: the level rules, a root at most one level lower, and no new horizontal link. */
  ghost predicate Shrunk<E>(t: Tree<E>, t': Tree<E>) {
    && AA(t')
    && Level(t) - 1 <= Level(t') <= Level(t)
    && (!Horizontal(t) && Level(t') == Level(t) ==> !Horizontal(t'))
  }

  lemma ShrinkLeft<E>(t: Tree<E>, l': Tree<E>, e: E)
    requires t.Node? && AA(t) && Shrunk(t.left, l')
    ensures Shrunk(t, Rebalance(t.(left := l', elem := e)))
  {
    var t' := t.(left := l', elem := e);
    if Level(l') == t.level - 1 {
      RebalanceUnchanged(t');
    } else if Horizontal(t) {
      RebalanceShortLeftHorizontal(t', t.level);
    } else {
      RebalanceShortLeft(t', t.level);
    }
  }

  lemma ShrinkRight<E>(t: Tree<E>, r': Tree<E>, e: E)
    requires t.Node? && AA(t) && Shrunk(t.right, r')
    ensures Shrunk(t, Rebalance(t.(right := r', elem := e)))
  {
    var t' := t.(right := r', elem := e);
    if Level(r') == t.level - 2 {
      RebalanceShortRight(t', t.level);
    } else {
      RebalanceUnchanged(t');
    }
  }

  /** Removal keeps the level rules. */
  lemma {:induction false} RemoveAA<E>(less: (E, E) -> bool, t: Tree<E>, e: E)
    requires AA(t)
    ensures Shrunk(t, Remove(less, t, e))
    decreases t, 1
  {
    match t
    case Leaf =>
    case Node(_, l, x, r) =>
      if less(x, e) {
        RemoveAA(less, r, e);
        ShrinkRight(t, Remove(less, r, e), x);
      } else if less(e, x) {
        RemoveAA(less, l, e);
        ShrinkLeft(t, Remove(less, l, e), x);
      } else if l.Node? {
        RemoveAA(less, l, Greatest(l));
        ShrinkLeft(t, Remove(less, l, Greatest(l)), Greatest(l));
      } else if r.Node? {
        RemoveAA(less, r, Least(r));
        ShrinkRight(t, Remove(less, r, Least(r)), Least(r));
      }
  }

  /** Dropping one element of a sorted listing. */
  lemma DropSorted<E(!new)>(less: (E, E) -> bool, s: seq<E>, k: nat)
    requires TotalOrder(less) && Sorted(less, s) && k < |s|
    ensures Sorted(less, Splice(s, k, 1, []))
    ensures forall x :: x in Splice(s, k, 1, []) <==> x in s && x != s[k]
  {
    var a, b := s[..k], s[k + 1..];
    assert s == a + [s[k]] + b;
    assert Splice(s, k, 1, []) == a + b;
    SortedParts(less, a, s[k], b);
    assert forall x :: x in s <==> x in a || x == s[k] || x in b;
    assert s[k] !in a && s[k] !in b;
  }

  lemma RemoveSorted<E(!new)>(less: (E, E) -> bool, t: Tree<E>, e: E)
    requires TotalOrder(less)
    requires Sorted(less, Flatten(t)) && e in Flatten(t)
    ensures Sorted(less, Flatten(Remove(less, t, e)))
    ensures forall x :: x in Flatten(Remove(less, t, e)) <==> x in Flatten(t) && x != e
  {
    var k := RemoveListing(less, t, e);
    DropSorted(less, Flatten(t), k);
  }

  // ---- Size and level ----

  /** A node on level `k` roots at least `2^k - 1` nodes. */
  lemma {:induction false} LevelBound<E>(t: Tree<E>)
    requires AA(t)
    ensures |Flatten(t)| >= Pow2(Level(t)) - 1
  {
    if t.Node? {
      LevelBound(t.left);
      LevelBound(t.right);
      if Level(t.right) == t.level { assert Pow2(t.level) == 2 * Pow2(t.level - 1); }
    }
  }
}
