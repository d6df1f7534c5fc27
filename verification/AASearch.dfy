/** Where a slot sits in an AA search tree: its subtree, its parent and its place in the listing. */
module AASearch {
  import opened AATree

  /** The subtree whose root is `e`. */
  ghost function SubAt<E>(less: (E, E) -> bool, t: Tree<E>, e: E): Tree<E> {
    if t.Leaf? || t.elem == e then t
    else if less(t.elem, e) then SubAt(less, t.right, e)
    else SubAt(less, t.left, e)
  }

  /** How many elements are listed before that subtree. */
  ghost function Before<E>(less: (E, E) -> bool, t: Tree<E>, e: E): nat {
    if t.Leaf? || t.elem == e then 0
    else if less(t.elem, e) then |Flatten(t.left)| + 1 + Before(less, t.right, e)
    else Before(less, t.left, e)
  }

  /** How many elements are listed up to the end of that subtree. */
  ghost function UpTo<E>(less: (E, E) -> bool, t: Tree<E>, e: E): nat {
    Before(less, t, e) + |Flatten(SubAt(less, t, e))|
  }

  /** The subtree whose root is the parent of `e`; Leaf when `e` is the root. */
  ghost function ParentOf<E>(less: (E, E) -> bool, t: Tree<E>, e: E): Tree<E> {
    if t.Leaf? || t.elem == e then Leaf
    else
      var c := if less(t.elem, e) then t.right else t.left;
      if c.Node? && c.elem == e then t else ParentOf(less, c, e)
  }

  /** The place of `e` in the listing. */
  ghost function Position<E>(less: (E, E) -> bool, t: Tree<E>, e: E): nat {
    if t.Leaf? then 0
    else if t.elem == e then |Flatten(t.left)|
    else if less(t.elem, e) then |Flatten(t.left)| + 1 + Position(less, t.right, e)
    else Position(less, t.left, e)
  }

  lemma {:induction false} PositionListed<E(!new)>(less: (E, E) -> bool, t: Tree<E>, e: E)
    requires TotalOrder(less) && Sorted(less, Flatten(t)) && e in Flatten(t)
    ensures Position(less, t, e) < |Flatten(t)| && Flatten(t)[Position(less, t, e)] == e
  {
    SortedParts(less, Flatten(t.left), t.elem, Flatten(t.right));
    if t.elem == e {
    } else if less(t.elem, e) {
      PositionListed(less, t.right, e);
    } else {
      PositionListed(less, t.left, e);
    }
  }

  lemma {:induction false} SubAtListed<E(!new)>(less: (E, E) -> bool, t: Tree<E>, e: E)
    requires TotalOrder(less) && Sorted(less, Flatten(t)) && e in Flatten(t)
    ensures var u := SubAt(less, t, e);
      && u.Node? && u.elem == e
      && Before(less, t, e) + |Flatten(u)| <= |Flatten(t)|
      && Position(less, t, e) == Before(less, t, e) + |Flatten(u.left)|
  {
    SortedParts(less, Flatten(t.left), t.elem, Flatten(t.right));
    if t.elem == e {
    } else if less(t.elem, e) {
      SubAtListed(less, t.right, e);
    } else {
      SubAtListed(less, t.left, e);
    }
  }

  /** The listing of a subtree is a stretch of the whole listing. */
  lemma {:induction false} SubAtStretch<E(!new)>(less: (E, E) -> bool, t: Tree<E>, e: E, i: nat)
    requires TotalOrder(less) && Sorted(less, Flatten(t)) && e in Flatten(t)
    requires i < |Flatten(SubAt(less, t, e))|
    ensures Before(less, t, e) + i < |Flatten(t)|
    ensures Flatten(t)[Before(less, t, e) + i] == Flatten(SubAt(less, t, e))[i]
  {
    SortedParts(less, Flatten(t.left), t.elem, Flatten(t.right));
    if t.elem == e {
    } else if less(t.elem, e) {
      SubAtStretch(less, t.right, e, i);
    } else {
      SubAtStretch(less, t.left, e, i);
    }
  }

  /** A parent's subtree has its child's subtree as its left or its right one. */
  lemma {:induction false} ParentLinks<E(!new)>(less: (E, E) -> bool, t: Tree<E>, e: E)
    requires TotalOrder(less) && Sorted(less, Flatten(t)) && e in Flatten(t) && t.elem != e
    ensures var p := ParentOf(less, t, e);
      && p.Node? && p.elem in Flatten(t) && p == SubAt(less, t, p.elem)
      && (if less(p.elem, e) then
            p.right == SubAt(less, t, e)
            && Before(less, t, e) == Before(less, t, p.elem) + |Flatten(p.left)| + 1
          else
            p.left == SubAt(less, t, e) && Before(less, t, e) == Before(less, t, p.elem))
  {
    SortedParts(less, Flatten(t.left), t.elem, Flatten(t.right));
    var c := if less(t.elem, e) then t.right else t.left;
    if c.elem != e {
      ParentLinks(less, c, e);
    }
  }

  /** From the right the subtrees of child and parent end together, from the left they begin together, and the
      parent is listed right before or right after its child's subtree. */
  lemma {:induction false} ParentPlace<E(!new)>(less: (E, E) -> bool, t: Tree<E>, e: E)
    requires TotalOrder(less) && Sorted(less, Flatten(t)) && e in Flatten(t) && t.elem != e
    ensures var p := ParentOf(less, t, e);
      && p.Node? && p.elem in Flatten(t) && p == SubAt(less, t, p.elem)
      && |Flatten(SubAt(less, t, e))| < |Flatten(p)| <= |Flatten(t)|
      && (if less(p.elem, e) then
            && p.right == SubAt(less, t, e) && UpTo(less, t, p.elem) == UpTo(less, t, e)
            && 0 < Before(less, t, e) <= |Flatten(t)| && Flatten(t)[Before(less, t, e) - 1] == p.elem
          else
            && p.left == SubAt(less, t, e) && Before(less, t, p.elem) == Before(less, t, e)
            && UpTo(less, t, e) < |Flatten(t)| && Flatten(t)[UpTo(less, t, e)] == p.elem)
  {
    ParentLinks(less, t, e);
    var p := ParentOf(less, t, e);
    SubAtListed(less, t, p.elem);
    SubAtStretch(less, t, p.elem, |Flatten(p.left)|);
  }

  /** Where the listing goes on from an element: into its subtree, or to the edge of it. */
  lemma {:induction false} AroundElement<E(!new)>(less: (E, E) -> bool, t: Tree<E>, e: E)
    requires TotalOrder(less) && Sorted(less, Flatten(t)) && e in Flatten(t)
    ensures var u, i := SubAt(less, t, e), Position(less, t, e);
      && u.Node? && i < |Flatten(t)|
      && (if u.right.Node? then i + 1 < |Flatten(t)| && Flatten(t)[i + 1] == Least(u.right)
          else UpTo(less, t, e) == i + 1)
      && (if u.left.Node? then 0 < i && Flatten(t)[i - 1] == Greatest(u.left)
          else Before(less, t, e) == i)
  {
    SubAtListed(less, t, e);
    var u := SubAt(less, t, e);
    if u.right.Node? {
      LeastFirst(u.right);
      SubAtStretch(less, t, e, |Flatten(u.left)| + 1);
    }
    if u.left.Node? {
      GreatestLast(u.left);
      SubAtStretch(less, t, e, |Flatten(u.left)| - 1);
    }
  }

  // ---- Searching from below ----

  /** `p` holds of a prefix of the listing. */
  ghost predicate Prefix<E>(s: seq<E>, p: E -> bool) {
    forall i, j :: 0 <= i < j < |s| && p(s[j]) ==> p(s[i])
  }
}
