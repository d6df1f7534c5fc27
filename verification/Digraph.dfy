/** Set propagation over a relation with cycles (digraph and traverse of yacc.py). */
module Digraph {
  import opened Basics

  // ---- What is computed ----

  ghost predicate IsPath<V>(r: V -> seq<V>, p: seq<V>) {
    && |p| > 0
    && forall i :: 0 <= i < |p| - 1 ==> p[i + 1] in r(p[i])
  }

  ghost predicate Reaches<V(!new)>(r: V -> seq<V>, x: V, y: V) {
    exists p :: IsPath(r, p) && p[0] == x && p[|p| - 1] == y
  }

  /** `t` belongs to the initial set of something `x` reaches. */
  ghost predicate InClosure<V(!new), T>(r: V -> seq<V>, fp: V -> seq<T>, x: V, t: T) {
    exists y :: Reaches(r, x, y) && t in fp(y)
  }

  lemma ReachSelf<V(!new)>(r: V -> seq<V>, x: V)
    ensures Reaches(r, x, x)
  {
    assert IsPath(r, [x]);
  }

  lemma ReachStep<V(!new)>(r: V -> seq<V>, x: V, y: V)
    requires y in r(x)
    ensures Reaches(r, x, y)
  {
    assert IsPath(r, [x, y]);
  }

  lemma ReachTrans<V(!new)>(r: V -> seq<V>, x: V, y: V, z: V)
    requires Reaches(r, x, y) && Reaches(r, y, z)
    ensures Reaches(r, x, z)
  {
    var p :| IsPath(r, p) && p[0] == x && p[|p| - 1] == y;
    var q :| IsPath(r, q) && q[0] == y && q[|q| - 1] == z;
    var pq := p + q[1..];
    assert pq[|p| - 1] == q[0];
    assert forall i :: |p| <= i < |pq| ==> pq[i] == q[i - |p| + 1];
    assert IsPath(r, pq);
  }

  lemma ClosureStep<V(!new), T(!new)>(r: V -> seq<V>, fp: V -> seq<T>, x: V, y: V)
    requires Reaches(r, x, y)
    ensures forall t :: InClosure(r, fp, y, t) ==> InClosure(r, fp, x, t)
  {
    forall t | InClosure(r, fp, y, t) ensures InClosure(r, fp, x, t) {
      var z :| Reaches(r, y, z) && t in fp(z);
      ReachTrans(r, x, y, z);
    }
  }

  /** Members of a strongly connected component have equal closures. */
  lemma ComponentShares<V(!new), T(!new)>(r: V -> seq<V>, fp: V -> seq<T>, x: V, y: V)
    requires Reaches(r, x, y) && Reaches(r, y, x)
    ensures forall t :: InClosure(r, fp, x, t) <==> InClosure(r, fp, y, t)
  {
    ClosureStep(r, fp, x, y);
    ClosureStep(r, fp, y, x);
  }

  // ---- The state of the traversal ----

  /** A list object: FP and F name lists, and lists are appended to in place. */
  type ListId = nat

  /** N, F, the lists and the stack; `maxint` marks a finished node. */
  datatype State<V(==), T> = State(n: map<V, nat>, f: map<V, ListId>, lists: map<ListId, seq<T>>, stack: seq<V>)

  /** `init` is what the list `fp` gives for a node holds at the start. */
  datatype Problem<!V(!new), !T(!new)> =
    Problem(nodes: set<V>, r: V -> seq<V>, fp: V -> ListId, init: V -> seq<T>, maxint: nat, exact: bool)

  ghost predicate SameClosure<V(!new), T(!new)>(r: V -> seq<V>, init: V -> seq<T>, x: V, y: V) {
    forall t :: InClosure(r, init, x, t) <==> InClosure(r, init, y, t)
  }

  /** Nodes that are given the same list have the same closure. */
  ghost predicate SharersAgree<V(!new), T(!new)>(nodes: set<V>, r: V -> seq<V>, fp: V -> ListId, init: V -> seq<T>) {
    forall x, y :: x in nodes && y in nodes && fp(x) == fp(y) ==> SameClosure(r, init, x, y)
  }

  ghost predicate WellPosed<V(!new), T(!new)>(g: Problem<V, T>) {
    && |g.nodes| + 1 < g.maxint
    && (forall x, y :: x in g.nodes && y in g.r(x) ==> y in g.nodes)
    && (g.exact ==> SharersAgree(g.nodes, g.r, g.fp, g.init))
  }

  /** The elements of the list F has for a node. */
  function Content<V, T>(s: State<V, T>, v: V): seq<T> {
    if v in s.f && s.f[v] in s.lists then s.lists[s.f[v]] else []
  }

  ghost predicate Done<V(!new), T(!new)>(g: Problem<V, T>, s: State<V, T>, v: V) {
    v in s.n && s.n[v] == g.maxint
  }

  ghost predicate OnStack<V(!new), T(!new)>(g: Problem<V, T>, s: State<V, T>, v: V) {
    v in s.n && 0 < s.n[v] < g.maxint
  }

  /** N and F speak of the same nodes, and the stack holds exactly the unfinished ones. */
  ghost predicate Shape<V(!new), T(!new)>(g: Problem<V, T>, s: State<V, T>) {
    && s.n.Keys == g.nodes && s.f.Keys <= g.nodes
    && (forall v :: v in s.n ==> s.n[v] <= g.maxint && (s.n[v] != 0 <==> v in s.f))
    && (forall i :: 0 <= i < |s.stack| ==> OnStack(g, s, s.stack[i]) && s.n[s.stack[i]] <= i + 1)
    && (forall i, j :: 0 <= i < j < |s.stack| ==> s.stack[i] != s.stack[j])
    && (forall v :: OnStack(g, s, v) ==> v in s.stack)
    && (forall v :: v in s.f ==> s.f[v] in s.lists)
  }

  /** Every node's own list exists, and a waiting node still has its own. */
  ghost predicate Own<V(!new), T(!new)>(g: Problem<V, T>, s: State<V, T>) {
    && (forall v :: v in g.nodes ==> g.fp(v) in s.lists && forall t :: t in g.init(v) ==> t in s.lists[g.fp(v)])
    && (forall v :: OnStack(g, s, v) && v in s.f ==> s.f[v] == g.fp(v))
  }

  /** A waiting node reaches the stack node its N points at. */
  ghost predicate Low<V(!new), T(!new)>(g: Problem<V, T>, s: State<V, T>) {
    forall i :: 0 <= i < |s.stack| && s.stack[i] in s.n && 0 < s.n[s.stack[i]] <= |s.stack| ==>
      Reaches(g.r, s.stack[i], s.stack[s.n[s.stack[i]] - 1])
  }

  /** Finished nodes lead to finished nodes only, and their lists are complete. */
  ghost predicate Finished<V(!new), T(!new)>(g: Problem<V, T>, s: State<V, T>) {
    && (forall v, w :: Done(g, s, v) && w in g.r(v) ==> Done(g, s, w))
    && (g.exact ==> forall v, t :: Done(g, s, v) && InClosure(g.r, g.init, v, t) ==> t in Content(s, v))
  }

  /** No node's own list holds too much, and F has for a node the list of one with the same closure. */
  ghost predicate Sound<V(!new), T(!new)>(g: Problem<V, T>, s: State<V, T>) {
    g.exact ==>
      && (forall v, t :: v in g.nodes && g.fp(v) in s.lists && t in s.lists[g.fp(v)] ==> InClosure(g.r, g.init, v, t))
      && (forall v :: v in s.f ==> HasMate(g, s, v))
  }

  ghost predicate HasMate<V(!new), T(!new)>(g: Problem<V, T>, s: State<V, T>, v: V)
    requires v in s.f
  {
    exists u :: u in g.nodes && g.fp(u) == s.f[v] && SameClosure(g.r, g.init, u, v)
  }

  datatype Part = Posed | Shaped | Owning | Lowest | Complete | NotTooMuch

  ghost predicate PartOk<V(!new), T(!new)>(part: Part, g: Problem<V, T>, s: State<V, T>) {
    match part
    case Posed => WellPosed(g)
    case Shaped => Shape(g, s)
    case Owning => Own(g, s)
    case Lowest => Low(g, s)
    case Complete => Finished(g, s)
    case NotTooMuch => Sound(g, s)
  }

  /** What the traversal keeps. */
  ghost predicate Inv<V(!new), T(!new)>(g: Problem<V, T>, s: State<V, T>) {
    forall part: Part :: PartOk(part, g, s)
  }

  lemma InvMeans<V(!new), T(!new)>(g: Problem<V, T>, s: State<V, T>)
    requires Inv(g, s)
    ensures WellPosed(g) && Shape(g, s) && Own(g, s) && Low(g, s) && Finished(g, s) && Sound(g, s)
  {
    assert PartOk(Posed, g, s) && PartOk(Shaped, g, s) && PartOk(Owning, g, s);
    assert PartOk(Lowest, g, s) && PartOk(Complete, g, s) && PartOk(NotTooMuch, g, s);
  }

  lemma ContentSound<V(!new), T(!new)>(g: Problem<V, T>, s: State<V, T>, v: V)
    requires g.exact && Shape(g, s) && Sound(g, s) && v in s.f
    ensures forall t :: t in Content(s, v) ==> InClosure(g.r, g.init, v, t)
  {
    assert HasMate(g, s, v);
  }

  /** Lists only grow. */
  ghost predicate Grown<V(!new), T(!new)>(s0: State<V, T>, s1: State<V, T>) {
    && s1.lists.Keys == s0.lists.Keys
    && forall i: ListId, t :: i in s0.lists && t in s0.lists[i] ==> t in s1.lists[i]
  }

  /** Nodes already seen keep their N and their list, and the stack only grows. */
  ghost predicate Extends<V(!new), T(!new)>(s0: State<V, T>, s1: State<V, T>) {
    && s0.stack <= s1.stack
    && s1.n.Keys == s0.n.Keys && Grown(s0, s1)
    && (forall v :: v in s0.n && s0.n[v] != 0 && v in s0.f ==>
          s1.n[v] == s0.n[v] && v in s1.f && s1.f[v] == s0.f[v])
  }

  /** What has been seen since is reached from `x`. */
  ghost predicate Explored<V(!new), T(!new)>(g: Problem<V, T>, s0: State<V, T>, s1: State<V, T>, x: V) {
    forall v :: v in s0.n && v in s1.n && s0.n[v] == 0 && s1.n[v] != 0 ==> Reaches(g.r, x, v)
  }

  /** Of the successors `l` of `v`: all have been seen, none waits below position `m`, and `f` covers the
      initial list of `v` and the closures of the finished ones. */
  ghost predicate Covered<V(!new), T(!new)>(g: Problem<V, T>, s: State<V, T>, v: V, l: seq<V>, m: nat, f: seq<T>) {
    && (forall w :: w in l ==> w in s.n && s.n[w] != 0 && w in s.f)
    && (forall j :: 0 <= j < |s.stack| && s.stack[j] in l ==> m <= j + 1)
    && (g.exact ==> Includes(g, s, v, l, f))
  }

  ghost predicate Includes<V(!new), T(!new)>(g: Problem<V, T>, s: State<V, T>, v: V, l: seq<V>, f: seq<T>) {
    && (forall t :: t in g.init(v) ==> t in f)
    && (forall u, t :: u in l && Done(g, s, u) && InClosure(g.r, g.init, u, t) ==> t in f)
  }

  /** What is known of the stack segment from `d` up to `e` while the frame at `d` has handled the successors `h`:
      the frame's N and set cover it, every node above the frame reaches one further down, and the frame
      reaches them all. */
  ghost predicate FrameUpTo<V(!new), T(!new)>(g: Problem<V, T>, s: State<V, T>, d: nat, h: seq<V>, e: nat) {
    && d < e <= |s.stack| && s.stack[d] in s.n && s.stack[d] in s.f
    && Covered(g, s, s.stack[d], h, s.n[s.stack[d]], Content(s, s.stack[d]))
    && (forall i :: d < i < e ==>
          Covered(g, s, s.stack[i], g.r(s.stack[i]), s.n[s.stack[d]], Content(s, s.stack[d])))
    && (forall j :: d < j < e ==> ReachesBelow(g, s, j))
    && (forall i :: d <= i < e ==> Reaches(g.r, s.stack[d], s.stack[i]))
  }

  ghost predicate Frame<V(!new), T(!new)>(g: Problem<V, T>, s: State<V, T>, d: nat, h: seq<V>) {
    FrameUpTo(g, s, d, h, |s.stack|)
  }

  ghost predicate ReachesBelow<V(!new), T(!new)>(g: Problem<V, T>, s: State<V, T>, j: nat)
    requires j < |s.stack|
  {
    exists i :: 0 <= i < j && Reaches(g.r, s.stack[j], s.stack[i])
  }

  /** What traverse(x) promises: x is finished and the stack is as before, or x waits on the stack for a
      node further down. Either way x still has its own list. */
  ghost predicate Traversed<V(!new), T(!new)>(g: Problem<V, T>, s0: State<V, T>, s1: State<V, T>, x: V) {
    && Inv(g, s1) && Extends(s0, s1) && Explored(g, s0, s1, x) && x in s1.f && s1.f[x] == g.fp(x)
    && ((Done(g, s1, x) && s1.stack == s0.stack)
        || (|s0.stack| < |s1.stack| && s1.stack[|s0.stack|] == x
            && Frame(g, s1, |s0.stack|, g.r(x)) && s1.n[x] <= |s0.stack|))
  }

  ghost function White<V(!new), T(!new)>(s: State<V, T>): set<V> {
    set v | v in s.n && s.n[v] == 0
  }

  // ---- Entering a node ----

  ghost function Pushed<V(!new), T(!new)>(g: Problem<V, T>, s: State<V, T>, x: V): State<V, T> {
    State(s.n[x := |s.stack| + 1], s.f[x := g.fp(x)], s.lists, s.stack + [x])
  }

  lemma StackFits<V(!new), T(!new)>(g: Problem<V, T>, s: State<V, T>)
    requires Inv(g, s)
    ensures |s.stack| <= |g.nodes|
  {
    InvMeans(g, s);
    var members := set v | v in s.stack;
    Distinct(s.stack, members);
    assert members <= g.nodes;
    SubsetSize(members, g.nodes);
  }

  lemma {:induction false} Distinct<V>(q: seq<V>, members: set<V>)
    requires forall i, j :: 0 <= i < j < |q| ==> q[i] != q[j]
    requires forall v :: v in members <==> v in q
    ensures |members| == |q|
  {
    if q != [] {
      var l := q[|q| - 1];
      assert forall v :: v in q <==> v in q[..|q| - 1] || v == l;
      Distinct(q[..|q| - 1], members - {l});
    }
  }

  lemma PushKeeps<V(!new), T(!new)>(g: Problem<V, T>, s: State<V, T>, x: V)
    requires Inv(g, s) && x in s.n && s.n[x] == 0
    ensures Inv(g, Pushed(g, s, x)) && Frame(g, Pushed(g, s, x), |s.stack|, [])
    ensures Extends(s, Pushed(g, s, x)) && White(Pushed(g, s, x)) == White(s) - {x}
    ensures Explored(g, s, Pushed(g, s, x), x)
  {
    InvMeans(g, s);
    StackFits(g, s);
    PushShape(g, s, x);
    PushLow(g, s, x);
    PushSets(g, s, x);
    ReachSelf(g.r, x);
  }

  lemma PushShape<V(!new), T(!new)>(g: Problem<V, T>, s: State<V, T>, x: V)
    requires WellPosed(g) && Shape(g, s) && Own(g, s) && |s.stack| <= |g.nodes| && x in s.n && s.n[x] == 0
    ensures Shape(g, Pushed(g, s, x)) && Own(g, Pushed(g, s, x))
  {
    var s' := Pushed(g, s, x);
    assert s'.stack[|s.stack|] == x;
    forall v | OnStack(g, s', v) ensures v in s'.stack {
      if v != x { assert OnStack(g, s, v); }
    }
  }

  lemma PushLow<V(!new), T(!new)>(g: Problem<V, T>, s: State<V, T>, x: V)
    requires Shape(g, s) && Low(g, s) && x in s.n && s.n[x] == 0
    ensures Low(g, Pushed(g, s, x))
  {
    ReachSelf(g.r, x);
    var s' := Pushed(g, s, x);
    forall i | 0 <= i < |s.stack|
      ensures s.stack[i] != x && Reaches(g.r, s'.stack[i], s'.stack[s'.n[s'.stack[i]] - 1])
    {
      assert OnStack(g, s, s.stack[i]);
    }
  }

  lemma PushSets<V(!new), T(!new)>(g: Problem<V, T>, s: State<V, T>, x: V)
    requires WellPosed(g) && Shape(g, s) && Finished(g, s) && Sound(g, s) && x in s.n && s.n[x] == 0
    requires |s.stack| <= |g.nodes|
    ensures Finished(g, Pushed(g, s, x)) && Sound(g, Pushed(g, s, x))
  {
    var s' := Pushed(g, s, x);
    ReachSelf(g.r, x);
    assert !Done(g, s', x);
    assert forall v :: Done(g, s', v) <==> Done(g, s, v);
    assert forall v :: Done(g, s, v) ==> Content(s', v) == Content(s, v);
    if g.exact {
      forall v | v in s'.f ensures HasMate(g, s', v) {
        if v != x { assert HasMate(g, s, v); }
      }
    }
  }

  // ---- Taking over a successor's N and set ----

  /** A seen list stays covered while the traversal of a new node goes on above it. */
  lemma CoveredAcross<V(!new), T(!new)>(g: Problem<V, T>, s0: State<V, T>, s1: State<V, T>, v: V, l: seq<V>, m: nat,
                                        f: seq<T>, f': seq<T>)
    requires Extends(s0, s1) && Covered(g, s0, v, l, m, f) && m <= |s0.stack| && (forall t :: t in f ==> t in f')
    ensures Covered(g, s1, v, l, m, f')
  {
    assert forall j :: 0 <= j < |s0.stack| ==> s1.stack[j] == s0.stack[j];
  }

  lemma FrameAcross<V(!new), T(!new)>(g: Problem<V, T>, s0: State<V, T>, s1: State<V, T>, d: nat, h: seq<V>)
    requires Frame(g, s0, d, h) && Extends(s0, s1) && s0.n[s0.stack[d]] != 0 && s0.n[s0.stack[d]] <= d + 1
    ensures FrameUpTo(g, s1, d, h, |s0.stack|)
  {
    var e := |s0.stack|;
    var m, f, f' := s0.n[s0.stack[d]], Content(s0, s0.stack[d]), Content(s1, s0.stack[d]);
    assert forall i :: 0 <= i < e ==> s1.stack[i] == s0.stack[i];
    CoveredAcross(g, s0, s1, s0.stack[d], h, m, f, f');
    forall i | d < i < e ensures Covered(g, s1, s1.stack[i], g.r(s1.stack[i]), m, f') {
      CoveredAcross(g, s0, s1, s0.stack[i], g.r(s0.stack[i]), m, f, f');
    }
    forall j | d < j < e ensures ReachesBelow(g, s1, j) {
      assert ReachesBelow(g, s0, j);
      var i :| 0 <= i < j && Reaches(g.r, s0.stack[j], s0.stack[i]);
      assert Reaches(g.r, s1.stack[j], s1.stack[i]);
    }
  }

  ghost predicate IsUnion<T(!new)>(u: seq<T>, a: seq<T>, b: seq<T>) {
    forall t :: t in u <==> t in a || t in b
  }

  ghost function Merged<V(!new), T(!new)>(s: State<V, T>, x: V, y: V, u: seq<T>): State<V, T>
    requires x in s.n && y in s.n && x in s.f
  {
    State(s.n[x := if s.n[y] < s.n[x] then s.n[y] else s.n[x]], s.f, s.lists[s.f[x] := u], s.stack)
  }

  lemma CoveredMore<V(!new), T(!new)>(g: Problem<V, T>, s: State<V, T>, x: V, y: V, u: seq<T>,
                                      v: V, l: seq<V>, m: nat, f: seq<T>, m': nat, f': seq<T>)
    requires OnStack(g, s, x) && x in s.f && y in s.n && s.n[y] != 0 && Covered(g, s, v, l, m, f)
    requires m' <= m && (forall t :: t in f ==> t in f')
    ensures Covered(g, Merged(s, x, y, u), v, l, m', f')
  {
    var s' := Merged(s, x, y, u);
    assert forall w :: Done(g, s', w) ==> Done(g, s, w) && w != x;
  }

  /** Before the merge: the frame is in order below `e`, and above it is at most the segment of `y`. */
  ghost predicate BeforeMerge<V(!new), T(!new)>(g: Problem<V, T>, s: State<V, T>, d: nat, h: seq<V>, e: nat, y: V) {
    && FrameUpTo(g, s, d, h, e)
    && y in g.r(s.stack[d]) && y in s.f && y in s.n && s.n[y] != 0
    && (e == |s.stack| || (s.stack[e] == y && Frame(g, s, e, g.r(y)) && s.n[y] <= e))
  }

  lemma MergeShape<V(!new), T(!new)>(g: Problem<V, T>, s: State<V, T>, x: V, y: V, u: seq<T>)
    requires Shape(g, s) && Own(g, s) && OnStack(g, s, x) && y in s.f && y in s.n
    requires x in s.f && IsUnion(u, Content(s, x), Content(s, y))
    ensures Shape(g, Merged(s, x, y, u)) && Own(g, Merged(s, x, y, u)) && Grown(s, Merged(s, x, y, u))
    ensures White(Merged(s, x, y, u)) == White(s)
  {
    var s' := Merged(s, x, y, u);
    forall v | OnStack(g, s', v) ensures v in s'.stack {
      assert OnStack(g, s, v);
    }
  }

  lemma MergeLow<V(!new), T(!new)>(g: Problem<V, T>, s: State<V, T>, x: V, y: V, u: seq<T>)
    requires Shape(g, s) && Low(g, s) && OnStack(g, s, x) && x in s.f && y in s.f && y in s.n && y in g.r(x)
    ensures Low(g, Merged(s, x, y, u))
  {
    var s' := Merged(s, x, y, u);
    ReachStep(g.r, x, y);
    forall i | 0 <= i < |s'.stack|
      ensures Reaches(g.r, s'.stack[i], s'.stack[s'.n[s'.stack[i]] - 1])
    {
      assert OnStack(g, s, s.stack[i]);
      if s.stack[i] == x && s.n[y] < s.n[x] {
        assert OnStack(g, s, y);
        var b :| 0 <= b < |s.stack| && s.stack[b] == y;
        ReachTrans(g.r, x, y, s.stack[s.n[y] - 1]);
      }
    }
  }

  lemma MergeSound<V(!new), T(!new)>(g: Problem<V, T>, s: State<V, T>, x: V, y: V, u: seq<T>, v: V)
    requires WellPosed(g) && Shape(g, s) && Own(g, s) && Sound(g, s) && OnStack(g, s, x) && y in s.f && y in g.r(x)
    requires g.exact && x in s.f && IsUnion(u, Content(s, x), Content(s, y)) && v in g.nodes && g.fp(v) == s.f[x]
    ensures forall t :: t in u ==> InClosure(g.r, g.init, v, t)
  {
    ContentSound(g, s, x);
    ContentSound(g, s, y);
    ReachStep(g.r, x, y);
    ClosureStep(g.r, g.init, x, y);
    assert SameClosure(g.r, g.init, x, v);
  }

  lemma MergeSets<V(!new), T(!new)>(g: Problem<V, T>, s: State<V, T>, x: V, y: V, u: seq<T>)
    requires WellPosed(g) && Shape(g, s) && Own(g, s) && Finished(g, s) && Sound(g, s)
    requires OnStack(g, s, x) && y in s.f && y in s.n && x in s.f && y in g.r(x)
    requires s.n[y] != 0 && IsUnion(u, Content(s, x), Content(s, y))
    ensures Finished(g, Merged(s, x, y, u)) && Sound(g, Merged(s, x, y, u))
  {
    var s' := Merged(s, x, y, u);
    assert forall v :: Done(g, s', v) <==> Done(g, s, v);
    assert forall v, t :: v in s.f && t in Content(s, v) ==> t in Content(s', v);
    if g.exact {
      forall v | v in g.nodes && g.fp(v) == s.f[x] ensures forall t :: t in u ==> InClosure(g.r, g.init, v, t) {
        MergeSound(g, s, x, y, u, v);
      }
      forall v | v in s'.f ensures HasMate(g, s', v) {
        assert HasMate(g, s, v);
      }
    }
  }

  lemma MergeInv<V(!new), T(!new)>(g: Problem<V, T>, s: State<V, T>, d: nat, y: V, u: seq<T>)
    requires Inv(g, s) && d < |s.stack| && s.stack[d] in s.n && s.stack[d] in s.f
    requires y in g.r(s.stack[d]) && y in s.f && y in s.n && IsUnion(u, Content(s, s.stack[d]), Content(s, y))
    ensures Inv(g, Merged(s, s.stack[d], y, u)) && White(Merged(s, s.stack[d], y, u)) == White(s)
  {
    InvMeans(g, s);
    assert OnStack(g, s, s.stack[d]);
    MergeShape(g, s, s.stack[d], y, u);
    MergeLow(g, s, s.stack[d], y, u);
    MergeSets(g, s, s.stack[d], y, u);
  }

  lemma MergeTies<V(!new), T(!new)>(g: Problem<V, T>, s: State<V, T>, d: nat, h: seq<V>, e: nat, y: V, u: seq<T>)
    requires Shape(g, s) && Low(g, s) && BeforeMerge(g, s, d, h, e, y)
    ensures var s' := Merged(s, s.stack[d], y, u);
      && (forall j :: d < j < |s.stack| ==> ReachesBelow(g, s', j))
      && (forall i :: d <= i < |s.stack| ==> Reaches(g.r, s'.stack[d], s'.stack[i]))
  {
    var x := s.stack[d];
    var s' := Merged(s, x, y, u);
    ReachStep(g.r, x, y);
    forall j | d < j < |s.stack| ensures ReachesBelow(g, s', j) {
      if j == e {
        assert OnStack(g, s, s.stack[e]);
        assert Reaches(g.r, s.stack[e], s.stack[s.n[y] - 1]);
      } else {
        assert ReachesBelow(g, s, j);
        var i :| 0 <= i < j && Reaches(g.r, s.stack[j], s.stack[i]);
        assert Reaches(g.r, s'.stack[j], s'.stack[i]);
      }
    }
    forall i | d <= i < |s.stack| ensures Reaches(g.r, s'.stack[d], s'.stack[i]) {
      if e <= i { ReachTrans(g.r, x, y, s.stack[i]); }
    }
  }

  lemma MergeCovered<V(!new), T(!new)>(g: Problem<V, T>, s: State<V, T>, d: nat, h: seq<V>, e: nat, y: V, u: seq<T>)
    requires Shape(g, s) && Finished(g, s) && BeforeMerge(g, s, d, h, e, y)
    requires IsUnion(u, Content(s, s.stack[d]), Content(s, y))
    ensures var x, s' := s.stack[d], Merged(s, s.stack[d], y, u);
      && Covered(g, s', x, h + [y], s'.n[x], u)
      && (forall i :: d < i < |s.stack| ==> Covered(g, s', s.stack[i], g.r(s.stack[i]), s'.n[x], u))
  {
    var x := s.stack[d];
    var s' := Merged(s, x, y, u);
    assert OnStack(g, s, x);
    CoveredMore(g, s, x, y, u, x, h, s.n[x], Content(s, x), s'.n[x], u);
    forall j | 0 <= j < |s.stack| && s.stack[j] == y ensures s.n[y] <= j + 1 {
      assert OnStack(g, s, s.stack[j]);
    }
    forall i | d < i < |s.stack| ensures Covered(g, s', s.stack[i], g.r(s.stack[i]), s'.n[x], u) {
      if i < e {
        CoveredMore(g, s, x, y, u, s.stack[i], g.r(s.stack[i]), s.n[x], Content(s, x), s'.n[x], u);
      } else {
        assert Covered(g, s, s.stack[i], g.r(s.stack[i]), s.n[y], Content(s, y));
        CoveredMore(g, s, x, y, u, s.stack[i], g.r(s.stack[i]), s.n[y], Content(s, y), s'.n[x], u);
      }
    }
  }

  lemma MergeFrame<V(!new), T(!new)>(g: Problem<V, T>, s: State<V, T>, d: nat, h: seq<V>, e: nat, y: V, u: seq<T>)
    requires Shape(g, s) && Low(g, s) && Finished(g, s) && BeforeMerge(g, s, d, h, e, y)
    requires IsUnion(u, Content(s, s.stack[d]), Content(s, y))
    ensures Frame(g, Merged(s, s.stack[d], y, u), d, h + [y])
  {
    MergeCovered(g, s, d, h, e, y, u);
    MergeTies(g, s, d, h, e, y, u);
  }

  // ---- Closing a component ----

  /** The frame at `d` has handled everything and nothing in its segment leads below it. */
  ghost predicate Root<V(!new), T(!new)>(g: Problem<V, T>, s: State<V, T>, d: nat) {
    && Inv(g, s) && d < |s.stack| && Frame(g, s, d, g.r(s.stack[d])) && s.n[s.stack[d]] == d + 1
  }

  ghost predicate InSegment<V(!new), T(!new)>(s: State<V, T>, d: nat, v: V) {
    exists a :: d <= a < |s.stack| && s.stack[a] == v
  }

  /** Inside the segment, or finished with a set the frame's set covers. */
  ghost predicate Swept<V(!new), T(!new)>(g: Problem<V, T>, s: State<V, T>, d: nat, v: V)
    requires d < |s.stack| && s.stack[d] in s.f
  {
    InSegment(s, d, v)
    || (Done(g, s, v) && (g.exact ==> forall t :: InClosure(g.r, g.init, v, t) ==> t in Content(s, s.stack[d])))
  }

  lemma SegmentStep<V(!new), T(!new)>(g: Problem<V, T>, s: State<V, T>, d: nat, a: nat, w: V)
    requires Shape(g, s) && d <= a < |s.stack| && s.stack[d] in s.n && s.stack[d] in s.f && s.n[s.stack[d]] == d + 1
    requires Covered(g, s, s.stack[a], g.r(s.stack[a]), d + 1, Content(s, s.stack[d])) && w in g.r(s.stack[a])
    ensures Swept(g, s, d, w)
  {
    if OnStack(g, s, w) {
      var j :| 0 <= j < |s.stack| && s.stack[j] == w;
      assert d + 1 <= j + 1;
      assert InSegment(s, d, w);
    }
  }

  lemma FinishedStep<V(!new), T(!new)>(g: Problem<V, T>, s: State<V, T>, d: nat, v: V, w: V)
    requires Finished(g, s) && d < |s.stack| && s.stack[d] in s.f && Done(g, s, v) && w in g.r(v)
    requires g.exact ==> forall t :: InClosure(g.r, g.init, v, t) ==> t in Content(s, s.stack[d])
    ensures Swept(g, s, d, w)
  {
    ReachStep(g.r, v, w);
    ClosureStep(g.r, g.init, v, w);
  }

  lemma SweptStep<V(!new), T(!new)>(g: Problem<V, T>, s: State<V, T>, d: nat, v: V, w: V)
    requires Root(g, s, d) && Swept(g, s, d, v) && w in g.r(v)
    ensures Swept(g, s, d, w)
  {
    InvMeans(g, s);
    if InSegment(s, d, v) {
      var a :| d <= a < |s.stack| && s.stack[a] == v;
      assert Covered(g, s, s.stack[a], g.r(s.stack[a]), s.n[s.stack[d]], Content(s, s.stack[d]));
      SegmentStep(g, s, d, a, w);
    } else {
      FinishedStep(g, s, d, v, w);
    }
  }

  lemma {:induction false} SweptPath<V(!new), T(!new)>(g: Problem<V, T>, s: State<V, T>, d: nat, p: seq<V>)
    requires Root(g, s, d) && IsPath(g.r, p) && Swept(g, s, d, p[0])
    ensures Swept(g, s, d, p[|p| - 1])
    decreases |p|
  {
    if |p| > 1 {
      SweptStep(g, s, d, p[0], p[1]);
      SweptPath(g, s, d, p[1..]);
    }
  }

  lemma RootHolds<V(!new), T(!new)>(g: Problem<V, T>, s: State<V, T>, d: nat, z: V, t: T)
    requires Root(g, s, d) && Swept(g, s, d, z) && g.exact && t in g.init(z)
    ensures t in Content(s, s.stack[d])
  {
    if InSegment(s, d, z) {
      var a :| d <= a < |s.stack| && s.stack[a] == z;
      assert Covered(g, s, s.stack[a], g.r(s.stack[a]), s.n[s.stack[d]], Content(s, s.stack[d]));
    } else {
      ReachSelf(g.r, z);
    }
  }

  /** All the root reaches is swept, so its list holds its whole closure. */
  lemma RootSweeps<V(!new), T(!new)>(g: Problem<V, T>, s: State<V, T>, d: nat)
    requires Root(g, s, d)
    ensures forall z :: Reaches(g.r, s.stack[d], z) ==> Swept(g, s, d, z)
    ensures g.exact ==> forall t :: InClosure(g.r, g.init, s.stack[d], t) ==> t in Content(s, s.stack[d])
  {
    InvMeans(g, s);
    var x := s.stack[d];
    assert InSegment(s, d, x);
    forall z | Reaches(g.r, x, z) ensures Swept(g, s, d, z) {
      var p :| IsPath(g.r, p) && p[0] == x && p[|p| - 1] == z;
      SweptPath(g, s, d, p);
    }
    if g.exact {
      forall t | InClosure(g.r, g.init, x, t) ensures t in Content(s, x) {
        var z :| Reaches(g.r, x, z) && t in g.init(z);
        RootHolds(g, s, d, z, t);
      }
    }
  }

  /** Every node of the segment leads back to the root: the segment is a strongly connected component. */
  lemma {:induction false} LeadsHome<V(!new), T(!new)>(g: Problem<V, T>, s: State<V, T>, d: nat, a: nat)
    requires Root(g, s, d) && d <= a < |s.stack|
    ensures Reaches(g.r, s.stack[a], s.stack[d])
    decreases a
  {
    InvMeans(g, s);
    if a == d {
      ReachSelf(g.r, s.stack[d]);
    } else {
      assert ReachesBelow(g, s, a);
      var i :| 0 <= i < a && Reaches(g.r, s.stack[a], s.stack[i]);
      ReachTrans(g.r, s.stack[d], s.stack[a], s.stack[i]);
      RootSweeps(g, s, d);
      assert OnStack(g, s, s.stack[i]) && Swept(g, s, d, s.stack[i]);
      LeadsHome(g, s, d, i);
      ReachTrans(g.r, s.stack[a], s.stack[i], s.stack[d]);
    }
  }

  /** Hence all members have the root's closure, and the root's list holds it. */
  lemma SegmentShares<V(!new), T(!new)>(g: Problem<V, T>, s: State<V, T>, d: nat, a: nat)
    requires Root(g, s, d) && d <= a < |s.stack|
    ensures SameClosure(g.r, g.init, s.stack[d], s.stack[a])
    ensures g.exact ==> forall t :: InClosure(g.r, g.init, s.stack[a], t) ==> t in Content(s, s.stack[d])
  {
    LeadsHome(g, s, d, a);
    ComponentShares(g.r, g.init, s.stack[d], s.stack[a]);
    RootSweeps(g, s, d);
  }

  /** Everything from position `c` upwards finished with the list `f`. */
  ghost predicate PoppedTo<V(!new), T(!new)>(g: Problem<V, T>, s: State<V, T>, s': State<V, T>, c: nat, f: ListId)
    requires c <= |s.stack|
  {
    && s'.stack == s.stack[..c]
    && s'.n.Keys == s.n.Keys && s'.f.Keys == s.f.Keys && s'.lists == s.lists
    && (forall v :: v in s.n ==> s'.n[v] == if InSegment(s, c, v) then g.maxint else s.n[v])
    && (forall v :: v in s.f ==> s'.f[v] == if InSegment(s, c, v) then f else s.f[v])
  }

  lemma PopShape<V(!new), T(!new)>(g: Problem<V, T>, s: State<V, T>, s': State<V, T>, c: nat, f: ListId)
    requires WellPosed(g) && Shape(g, s) && c <= |s.stack| && PoppedTo(g, s, s', c, f) && f in s.lists
    ensures Shape(g, s')
  {
    forall i | 0 <= i < c ensures !InSegment(s, c, s.stack[i]) && OnStack(g, s, s.stack[i]) {
    }
    forall v | OnStack(g, s', v) ensures v in s'.stack {
      assert OnStack(g, s, v) && !InSegment(s, c, v);
      var i :| 0 <= i < |s.stack| && s.stack[i] == v;
      assert s'.stack[i] == v;
    }
  }

  lemma PopLow<V(!new), T(!new)>(g: Problem<V, T>, s: State<V, T>, s': State<V, T>, c: nat, f: ListId)
    requires Shape(g, s) && Own(g, s) && Low(g, s) && c <= |s.stack| && PoppedTo(g, s, s', c, f)
    ensures Own(g, s') && Low(g, s')
  {
    forall i | 0 <= i < c
      ensures s'.stack[i] in s'.n && 0 < s'.n[s'.stack[i]] <= |s'.stack|
      ensures Reaches(g.r, s'.stack[i], s'.stack[s'.n[s'.stack[i]] - 1])
    {
      assert OnStack(g, s, s.stack[i]) && !InSegment(s, c, s.stack[i]);
      assert Reaches(g.r, s.stack[i], s.stack[s.n[s.stack[i]] - 1]);
    }
  }

  lemma PopSets<V(!new), T(!new)>(g: Problem<V, T>, s: State<V, T>, s': State<V, T>, d: nat)
    requires Root(g, s, d) && PoppedTo(g, s, s', d, s.f[s.stack[d]])
    ensures Finished(g, s') && Sound(g, s')
  {
    InvMeans(g, s);
    assert forall v :: Done(g, s', v) <==> Done(g, s, v) || InSegment(s, d, v);
    forall v, w | Done(g, s', v) && w in g.r(v) ensures Done(g, s', w) {
      if InSegment(s, d, v) { SweptStep(g, s, d, v, w); }
    }
    if g.exact {
      forall v, t | Done(g, s', v) && InClosure(g.r, g.init, v, t) ensures t in Content(s', v) {
        if InSegment(s, d, v) {
          var a :| d <= a < |s.stack| && s.stack[a] == v;
          SegmentShares(g, s, d, a);
        }
      }
      forall v | v in s'.f ensures HasMate(g, s', v) {
        PopMate(g, s, s', d, v);
      }
    }
  }

  /** Every member of the component is given the root's own list. */
  lemma PopMate<V(!new), T(!new)>(g: Problem<V, T>, s: State<V, T>, s': State<V, T>, d: nat, v: V)
    requires Root(g, s, d) && PoppedTo(g, s, s', d, s.f[s.stack[d]]) && g.exact && v in s'.f
    ensures HasMate(g, s', v)
  {
    InvMeans(g, s);
    if InSegment(s, d, v) {
      var a :| d <= a < |s.stack| && s.stack[a] == v;
      SegmentShares(g, s, d, a);
      assert OnStack(g, s, s.stack[d]);
    } else {
      assert HasMate(g, s, v);
    }
  }

  lemma PopExtends<V(!new), T(!new)>(g: Problem<V, T>, s0: State<V, T>, s: State<V, T>, s': State<V, T>, f: ListId)
    requires Shape(g, s0) && Shape(g, s) && Extends(s0, s) && |s0.stack| <= |s.stack|
    requires PoppedTo(g, s, s', |s0.stack|, f)
    ensures Extends(s0, s') && s'.stack == s0.stack
  {
    var d := |s0.stack|;
    assert s.stack[..d] == s0.stack;
    forall v | v in s0.n && s0.n[v] != 0 && v in s0.f ensures !InSegment(s, d, v) {
      if InSegment(s, d, v) {
        var a :| d <= a < |s.stack| && s.stack[a] == v;
        assert OnStack(g, s, s.stack[a]);
        assert OnStack(g, s0, v);
      }
    }
  }

  lemma PopKeeps<V(!new), T(!new)>(g: Problem<V, T>, s0: State<V, T>, s: State<V, T>, s': State<V, T>, x: V)
    requires Inv(g, s0) && Extends(s0, s) && |s0.stack| < |s.stack| && s.stack[|s0.stack|] == x
    requires Root(g, s, |s0.stack|) && PoppedTo(g, s, s', |s0.stack|, s.f[x]) && Explored(g, s0, s, x)
    ensures Traversed(g, s0, s', x)
  {
    InvMeans(g, s0);
    InvMeans(g, s);
    var d := |s0.stack|;
    PopShape(g, s, s', d, s.f[x]);
    PopLow(g, s, s', d, s.f[x]);
    PopSets(g, s, s', d);
    PopExtends(g, s0, s, s', s.f[x]);
    assert OnStack(g, s, s.stack[d]) && InSegment(s, d, x);
  }

  // ---- Steps of the methods ----

  lemma ExtendsMerge<V(!new), T(!new)>(s0: State<V, T>, s: State<V, T>, x: V, y: V, u: seq<T>)
    requires Extends(s0, s) && x in s0.n && s0.n[x] == 0 && x in s.n && y in s.n && x in s.f
    requires s.f[x] in s.lists && IsUnion(u, Content(s, x), Content(s, y))
    ensures Extends(s0, Merged(s, x, y, u))
  {
  }

  lemma ExtendsTwice<V(!new), T(!new)>(s0: State<V, T>, s1: State<V, T>, s2: State<V, T>)
    requires Extends(s0, s1) && Extends(s1, s2)
    ensures Extends(s0, s2)
  {
  }

  lemma FewerWhite<V(!new), T(!new)>(g: Problem<V, T>, s0: State<V, T>, s1: State<V, T>)
    requires Inv(g, s0) && Extends(s0, s1)
    ensures |White(s1)| <= |White(s0)|
  {
    InvMeans(g, s0);
    SubsetSize(White(s1), White(s0));
  }

  lemma SeenNow<V(!new), T(!new)>(g: Problem<V, T>, s: State<V, T>, s1: State<V, T>, y: V)
    requires Traversed(g, s, s1, y) && y in s.n && s.n[y] == 0
    ensures s1 != s
  {
    InvMeans(g, s1);
  }

  lemma Related<V(!new), T(!new)>(g: Problem<V, T>, s: State<V, T>, d: nat, y: V)
    requires Inv(g, s) && d < |s.stack| && y in g.r(s.stack[d])
    ensures y in s.n
  {
    InvMeans(g, s);
    assert OnStack(g, s, s.stack[d]);
  }

  lemma Seen<V(!new), T(!new)>(g: Problem<V, T>, s: State<V, T>, s1: State<V, T>, d: nat, h: seq<V>, x: V, y: V)
    requires Inv(g, s) && Frame(g, s, d, h) && s.stack[d] == x && y in s.n
    requires s1 == s || Traversed(g, s, s1, y)
    requires s1 == s ==> s.n[y] != 0
    ensures x in s1.n && x in s1.f && y in s1.n && y in s1.f && d < |s1.stack| && s1.stack[d] == x
    ensures s1.f[x] in s1.lists && s1.f[y] in s1.lists
  {
    InvMeans(g, s);
    if s1 != s { InvMeans(g, s1); }
    assert OnStack(g, s, x);
    if s1 != s && !Done(g, s1, y) {
      assert OnStack(g, s1, s1.stack[|s.stack|]);
    }
  }

  lemma ExploredMerge<V(!new), T(!new)>(g: Problem<V, T>, s0: State<V, T>, s: State<V, T>, x: V, y: V, u: seq<T>)
    requires Explored(g, s0, s, x) && x in s.n && s.n[x] != 0 && y in s.n && x in s.f
    ensures Explored(g, s0, Merged(s, x, y, u), x)
  {
  }

  lemma ExploredFurther<V(!new), T(!new)>(g: Problem<V, T>, s0: State<V, T>, s: State<V, T>, s1: State<V, T>, x: V,
                          y: V)
    requires Extends(s0, s) && Extends(s, s1) && Explored(g, s0, s, x) && Explored(g, s, s1, y) && y in g.r(x)
    ensures Explored(g, s0, s1, x)
  {
    ReachStep(g.r, x, y);
    forall v | v in s0.n && v in s1.n && s0.n[v] == 0 && s1.n[v] != 0 ensures Reaches(g.r, x, v) {
      if s.n[v] == 0 { ReachTrans(g.r, x, y, v); }
    }
  }

  /** Handling one more successor. */
  lemma HandledOne<V(!new), T(!new)>(g: Problem<V, T>, s0: State<V, T>, s: State<V, T>, s1: State<V, T>,
                                     d: nat, h: seq<V>, y: V, u: seq<T>)
    requires Inv(g, s) && Frame(g, s, d, h) && Extends(s0, s) && d == |s0.stack|
    requires s.stack[d] in s0.n && s0.n[s.stack[d]] == 0 && y in g.r(s.stack[d]) && y in s.n
    requires s1 == s || Traversed(g, s, s1, y)
    requires s1 == s ==> s.n[y] != 0
    requires y in s1.f && s.stack[d] in s1.f && IsUnion(u, Content(s1, s.stack[d]), Content(s1, y))
    requires Explored(g, s0, s, s.stack[d])
    ensures s.stack[d] in s1.n && y in s1.n
    ensures var s2 := Merged(s1, s.stack[d], y, u);
      Inv(g, s2) && Frame(g, s2, d, h + [y]) && Extends(s0, s2)
      && White(s2) == White(s1) && Explored(g, s0, s2, s.stack[d])
  {
    InvMeans(g, s);
    if s1 != s { InvMeans(g, s1); }
    var x := s.stack[d];
    assert OnStack(g, s, x) && s.n[x] <= d + 1;
    if s1 != s {
      FrameAcross(g, s, s1, d, h);
      ExtendsTwice(s0, s, s1);
      ExploredFurther(g, s0, s, s1, x, y);
    }
    assert s1.stack[d] == x;
    MergeInv(g, s1, d, y, u);
    MergeFrame(g, s1, d, h, |s.stack|, y, u);
    ExtendsMerge(s0, s1, x, y, u);
    ExploredMerge(g, s0, s1, x, y, u);
  }

  /** The stack holds distinct nodes with entries in N and F. */
  ghost predicate Lined<V(!new), T(!new)>(s: State<V, T>) {
    && (forall i :: 0 <= i < |s.stack| ==> s.stack[i] in s.n && s.stack[i] in s.f)
    && (forall i, j :: 0 <= i < j < |s.stack| ==> s.stack[i] != s.stack[j])
  }

  lemma StackLined<V(!new), T(!new)>(g: Problem<V, T>, s: State<V, T>)
    requires Inv(g, s)
    ensures Lined(s)
  {
    InvMeans(g, s);
    forall i | 0 <= i < |s.stack| ensures s.stack[i] in s.n && s.stack[i] in s.f {
      assert OnStack(g, s, s.stack[i]);
    }
  }

  lemma PoppedOne<V(!new), T(!new)>(g: Problem<V, T>, s: State<V, T>, s1: State<V, T>, c: nat, f: ListId)
    requires Lined(s) && 0 < c <= |s.stack| && PoppedTo(g, s, s1, c, f)
    ensures var v := s.stack[c - 1];
      v in s.n && v in s.f && s1.stack[c - 1] == v
      && PoppedTo(g, s, State(s1.n[v := g.maxint], s1.f[v := f], s1.lists, s1.stack[..c - 1]), c - 1, f)
  {
    var v := s.stack[c - 1];
    assert forall w :: InSegment(s, c - 1, w) <==> InSegment(s, c, w) || w == v;
  }

  lemma StillRoot<V(!new), T(!new)>(g: Problem<V, T>, s: State<V, T>, s1: State<V, T>, c: nat, d: nat)
    requires Lined(s) && d < c <= |s.stack| && s.stack[d] in s.f && PoppedTo(g, s, s1, c, s.f[s.stack[d]])
    ensures s.stack[d] in s1.f && s1.f[s.stack[d]] == s.f[s.stack[d]]
  {
  }

  lemma PoppedNone<V(!new), T(!new)>(g: Problem<V, T>, s: State<V, T>, f: ListId)
    ensures PoppedTo(g, s, s, |s.stack|, f)
  {
    assert s.stack[..|s.stack|] == s.stack;
  }

  lemma AtRoot<V(!new), T(!new)>(s: State<V, T>, c: nat, d: nat)
    requires Lined(s) && c < |s.stack| && d < |s.stack|
    ensures s.stack[c] == s.stack[d] <==> c == d
  {
  }

  /** When all successors are handled, x's N decides whether it is the root of its component. */
  lemma StillWaiting<V(!new), T(!new)>(g: Problem<V, T>, s0: State<V, T>, s: State<V, T>, x: V)
    requires Inv(g, s) && Frame(g, s, |s0.stack|, g.r(x)) && Extends(s0, s) && s.stack[|s0.stack|] == x
    requires Explored(g, s0, s, x)
    ensures x in s.n && x in s.f
    ensures if s.n[x] == |s0.stack| + 1 then Root(g, s, |s0.stack|) else Traversed(g, s0, s, x)
  {
    InvMeans(g, s);
    assert OnStack(g, s, s.stack[|s0.stack|]);
  }

  /** Every list a node is given exists and holds the node's initial elements. */
  ghost predicate Given<V(!new), T(!new)>(g: Problem<V, T>, lists: map<ListId, seq<T>>) {
    forall v :: v in g.nodes ==> g.fp(v) in lists && lists[g.fp(v)] == g.init(v)
  }

  lemma StartKeeps<V(!new), T(!new)>(g: Problem<V, T>, n: map<V, nat>, lists: map<ListId, seq<T>>)
    requires WellPosed(g) && n.Keys == g.nodes && (forall v :: v in n ==> n[v] == 0) && Given(g, lists)
    ensures Inv(g, State(n, map[], lists, []))
  {
    var s := State<V, T>.State(n, map[], lists, []);
    assert forall v :: !OnStack(g, s, v);
    forall v, t | v in g.nodes && t in lists[g.fp(v)] ensures InClosure(g.r, g.init, v, t) {
      ReachSelf(g.r, v);
    }
  }

  // ---- The outer loop ----

  /** A node no earlier one reaches is the root of its component, and keeps the list it was given. */
  ghost predicate RootsOwn<V(!new)>(xs: seq<V>, r: V -> seq<V>, fp: V -> ListId, f: map<V, ListId>) {
    forall i :: 0 <= i < |xs| && Fresh(xs, r, i) ==> xs[i] in f && f[xs[i]] == fp(xs[i])
  }

  ghost predicate Fresh<V(!new)>(xs: seq<V>, r: V -> seq<V>, i: nat)
    requires i < |xs|
  {
    forall j :: 0 <= j < i ==> !Reaches(r, xs[j], xs[i])
  }

  datatype Progress = Standing | Closed | Reached | Rooted

  /** What holds when the first `i` nodes have been traversed from. */
  ghost predicate Through<V(!new), T(!new)>(g: Problem<V, T>, xs: seq<V>, s: State<V, T>, i: nat) {
    forall part: Progress :: ThroughAt(part, g, xs, s, i)
  }

  ghost predicate ThroughAt<V(!new), T(!new)>(part: Progress, g: Problem<V, T>, xs: seq<V>, s: State<V, T>, i: nat) {
    i <= |xs| &&
    match part
    case Standing => Inv(g, s) && s.stack == [] && s.n.Keys == g.nodes
    case Closed => forall j :: 0 <= j < i ==> Done(g, s, xs[j])
    case Reached => forall v :: v in s.n && s.n[v] != 0 ==> SeenFrom(g, xs, i, v)
    case Rooted => forall j :: 0 <= j < i && Fresh(xs, g.r, j) ==> xs[j] in s.f && s.f[xs[j]] == g.fp(xs[j])
  }

  ghost predicate SeenFrom<V(!new), T(!new)>(g: Problem<V, T>, xs: seq<V>, i: nat, v: V)
    requires i <= |xs|
  {
    exists j :: 0 <= j < i && Reaches(g.r, xs[j], v)
  }

  lemma NotYetSeen<V(!new), T(!new)>(g: Problem<V, T>, xs: seq<V>, s: State<V, T>, i: nat)
    requires i < |xs| && ThroughAt(Reached, g, xs, s, i) && xs[i] in s.n && Fresh(xs, g.r, i)
    ensures s.n[xs[i]] == 0
  {
    assert s.n[xs[i]] != 0 ==> SeenFrom(g, xs, i, xs[i]);
  }

  lemma SeenStill<V(!new), T(!new)>(g: Problem<V, T>, xs: seq<V>, i: nat, v: V)
    requires i < |xs| && (SeenFrom(g, xs, i, v) || Reaches(g.r, xs[i], v))
    ensures SeenFrom(g, xs, i + 1, v)
  {
    if SeenFrom(g, xs, i, v) {
      var j :| 0 <= j < i && Reaches(g.r, xs[j], v);
      assert Reaches(g.r, xs[j], v);
    }
  }

  lemma StartThrough<V(!new), T(!new)>(g: Problem<V, T>, xs: seq<V>, s: State<V, T>)
    requires Inv(g, s) && s.stack == [] && s.n.Keys == g.nodes && forall v :: v in s.n ==> s.n[v] == 0
    ensures Through(g, xs, s, 0)
  {
  }

  /** A turn of the outer loop. */
  ghost predicate Turned<V(!new), T(!new)>(g: Problem<V, T>, s: State<V, T>, s1: State<V, T>, x: V) {
    x in s.n && if s.n[x] == 0 then Traversed(g, s, s1, x) else s1 == s
  }

  /** It leaves the node finished and the stack empty. */
  lemma OneFinished<V(!new), T(!new)>(g: Problem<V, T>, xs: seq<V>, s: State<V, T>, s1: State<V, T>, i: nat)
    requires i < |xs| && ThroughAt(Standing, g, xs, s, i) && Turned(g, s, s1, xs[i])
    ensures ThroughAt(Standing, g, xs, s1, i + 1) && s1.n.Keys == s.n.Keys && Done(g, s1, xs[i])
    ensures forall v :: Done(g, s, v) ==> Done(g, s1, v) && v in s.f && v in s1.f && s1.f[v] == s.f[v]
  {
    InvMeans(g, s);
    if s1 != s { InvMeans(g, s1); }
    assert !OnStack(g, s, xs[i]);
  }

  /** The node has its own list when nothing before reached it. */
  lemma OneThrough<V(!new), T(!new)>(g: Problem<V, T>, xs: seq<V>, s: State<V, T>, s1: State<V, T>, i: nat)
    requires i < |xs| && Through(g, xs, s, i) && Turned(g, s, s1, xs[i])
    ensures Through(g, xs, s1, i + 1)
  {
    assert ThroughAt(Standing, g, xs, s, i) && ThroughAt(Closed, g, xs, s, i);
    assert ThroughAt(Rooted, g, xs, s, i) && ThroughAt(Reached, g, xs, s, i);
    OneFinished(g, xs, s, s1, i);
    StillClosed(g, xs, s, s1, i);
    StillSeen(g, xs, s, s1, i);
    OwnList(g, xs, s, s1, i);
    StillRooted(g, xs, s, s1, i);
    AllProgress(g, xs, s1, i + 1);
  }

  lemma AllProgress<V(!new), T(!new)>(g: Problem<V, T>, xs: seq<V>, s: State<V, T>, i: nat)
    requires ThroughAt(Standing, g, xs, s, i) && ThroughAt(Closed, g, xs, s, i)
    requires ThroughAt(Reached, g, xs, s, i) && ThroughAt(Rooted, g, xs, s, i)
    ensures Through(g, xs, s, i)
  {
  }

  lemma OwnList<V(!new), T(!new)>(g: Problem<V, T>, xs: seq<V>, s: State<V, T>, s1: State<V, T>, i: nat)
    requires i < |xs| && ThroughAt(Reached, g, xs, s, i) && Turned(g, s, s1, xs[i])
    ensures Fresh(xs, g.r, i) ==> xs[i] in s1.f && s1.f[xs[i]] == g.fp(xs[i])
  {
    if Fresh(xs, g.r, i) { NotYetSeen(g, xs, s, i); }
  }

  lemma StillClosed<V(!new), T(!new)>(g: Problem<V, T>, xs: seq<V>, s: State<V, T>, s1: State<V, T>, i: nat)
    requires i < |xs| && ThroughAt(Closed, g, xs, s, i) && Done(g, s1, xs[i])
    requires forall v :: Done(g, s, v) ==> Done(g, s1, v)
    ensures ThroughAt(Closed, g, xs, s1, i + 1)
  {
  }

  lemma StillRooted<V(!new), T(!new)>(g: Problem<V, T>, xs: seq<V>, s: State<V, T>, s1: State<V, T>, i: nat)
    requires i < |xs| && ThroughAt(Closed, g, xs, s, i) && ThroughAt(Rooted, g, xs, s, i)
    requires forall v :: Done(g, s, v) ==> v in s.f && v in s1.f && s1.f[v] == s.f[v]
    requires Fresh(xs, g.r, i) ==> xs[i] in s1.f && s1.f[xs[i]] == g.fp(xs[i])
    ensures ThroughAt(Rooted, g, xs, s1, i + 1)
  {
    forall j | 0 <= j < i + 1 && Fresh(xs, g.r, j) ensures xs[j] in s1.f && s1.f[xs[j]] == g.fp(xs[j]) {
      if j < i { assert Done(g, s, xs[j]); }
    }
  }

  lemma StillSeen<V(!new), T(!new)>(g: Problem<V, T>, xs: seq<V>, s: State<V, T>, s1: State<V, T>, i: nat)
    requires i < |xs| && s1.n.Keys == s.n.Keys && ThroughAt(Reached, g, xs, s, i)
    requires Turned(g, s, s1, xs[i])
    ensures ThroughAt(Reached, g, xs, s1, i + 1)
  {
    forall v | v in s1.n && s1.n[v] != 0 ensures SeenFrom(g, xs, i + 1, v) {
      if s.n[v] != 0 { assert SeenFrom(g, xs, i, v); }
      SeenStill(g, xs, i, v);
    }
  }

  /** Every list holds exactly the closure. */
  ghost predicate Exact<V(!new), T(!new)>(xs: seq<V>, r: V -> seq<V>, init: V -> seq<T>, f: map<V, ListId>,
                                         lists: map<ListId, seq<T>>) {
    forall x :: x in xs ==> x in f && f[x] in lists && forall t :: t in lists[f[x]] <==> InClosure(r, init, x, t)
  }

  lemma AllExact<V(!new), T(!new)>(g: Problem<V, T>, xs: seq<V>, s: State<V, T>)
    requires Through(g, xs, s, |xs|)
    ensures g.exact ==> Exact(xs, g.r, g.init, s.f, s.lists)
    ensures RootsOwn(xs, g.r, g.fp, s.f)
    ensures forall x :: x in xs ==> x in s.f && s.f[x] in s.lists
  {
    assert ThroughAt(Standing, g, xs, s, |xs|) && ThroughAt(Closed, g, xs, s, |xs|)
      && ThroughAt(Rooted, g, xs, s, |xs|);
    InvMeans(g, s);
    forall x | x in xs ensures x in s.f && s.f[x] in s.lists {
      assert Done(g, s, x);
    }
    if g.exact {
      forall x | x in xs ensures forall t :: t in s.lists[s.f[x]] <==> InClosure(g.r, g.init, x, t) {
        assert Done(g, s, x) && Content(s, x) == s.lists[s.f[x]];
        ContentSound(g, s, x);
      }
    }
  }

  // ---- When lists are shared ----

  /** What digraph guarantees of its result, whatever lists FP gives out. */
  ghost predicate Outcome<V(!new), T(!new)>(xs: seq<V>, r: V -> seq<V>, fp: V -> ListId, init: V -> seq<T>,
                                           f: map<V, ListId>, lists: map<ListId, seq<T>>) {
    && (SharersAgree((set x | x in xs), r, fp, init) ==> Exact(xs, r, init, f, lists))
    && RootsOwn(xs, r, fp, f)
  }

  /** Lists of their own, as the first of the two call sites gives them, are never a problem. */
  lemma FreshListsAgree<V(!new), T(!new)>(nodes: set<V>, r: V -> seq<V>, fp: V -> ListId, init: V -> seq<T>)
    requires forall x, y :: x in nodes && y in nodes && fp(x) == fp(y) ==> x == y
    ensures SharersAgree(nodes, r, fp, init)
  {
  }

  function Others<V(==,!new)>(xs: seq<V>, a: V, b: V): (ys: seq<V>)
    ensures forall v :: v in ys <==> v in xs && v != a && v != b
  {
    if xs == [] then [] else (if xs[0] == a || xs[0] == b then [] else [xs[0]]) + Others(xs[1..], a, b)
  }

  /** Of two nodes that do not lie in one component, one may come first without reaching the other. */
  lemma Ordered<V(!new), T(!new)>(xs: seq<V>, r: V -> seq<V>, init: V -> seq<T>, a: V, b: V) returns (ys: seq<V>)
    requires a in xs && b in xs && !SameClosure(r, init, a, b)
    ensures |ys| >= 2 && ((ys[0] == a && ys[1] == b) || (ys[0] == b && ys[1] == a)) && !Reaches(r, ys[0], ys[1])
    ensures forall v :: v in ys <==> v in xs
  {
    if Reaches(r, a, b) && Reaches(r, b, a) {
      ComponentShares(r, init, a, b);
    }
    ys := (if Reaches(r, a, b) then [b, a] else [a, b]) + Others(xs, a, b);
  }

  lemma FirstTwoOwn<V(!new)>(ys: seq<V>, r: V -> seq<V>, fp: V -> ListId, f: map<V, ListId>)
    requires |ys| >= 2 && !Reaches(r, ys[0], ys[1]) && RootsOwn(ys, r, fp, f)
    ensures ys[0] in f && f[ys[0]] == fp(ys[0]) && ys[1] in f && f[ys[1]] == fp(ys[1])
  {
    assert Fresh(ys, r, 0) && Fresh(ys, r, 1);
  }

  /** If two nodes with different closures are given the same list, there is an order of the nodes on which every
      result is wrong. */
  lemma SharingFails<V(!new), T(!new)>(xs: seq<V>, r: V -> seq<V>, fp: V -> ListId, init: V -> seq<T>, a: V, b: V)
    returns (ys: seq<V>)
    requires a in xs && b in xs && fp(a) == fp(b) && !SameClosure(r, init, a, b)
    ensures forall v :: v in ys <==> v in xs
    ensures forall f, lists :: Outcome(ys, r, fp, init, f, lists) ==> !Exact(ys, r, init, f, lists)
  {
    ys := Ordered(xs, r, init, a, b);
    forall f, lists | Outcome(ys, r, fp, init, f, lists) ensures !Exact(ys, r, init, f, lists) {
      FirstTwoOwn(ys, r, fp, f);
      if Exact(ys, r, init, f, lists) {
        assert ys[0] in ys && ys[1] in ys;
        assert SameClosure(r, init, a, b);
      }
    }
  }

  ghost predicate SameNodes<V(!new)>(xs: seq<V>, ys: seq<V>) {
    forall v :: v in ys <==> v in xs
  }

  ghost predicate AlwaysRight<V(!new), T(!new)>(ys: seq<V>, r: V -> seq<V>, fp: V -> ListId, init: V -> seq<T>) {
    forall f, lists :: Outcome(ys, r, fp, init, f, lists) ==> Exact(ys, r, init, f, lists)
  }

  ghost predicate AlwaysWrong<V(!new), T(!new)>(ys: seq<V>, r: V -> seq<V>, fp: V -> ListId, init: V -> seq<T>) {
    forall f, lists :: Outcome(ys, r, fp, init, f, lists) ==> !Exact(ys, r, init, f, lists)
  }

  /** digraph is right for every order of the nodes exactly when nodes given the same list have the same closure:
      otherwise there is an order for which it is wrong. */
  lemma RightForAllOrders<V(!new), T(!new)>(xs: seq<V>, r: V -> seq<V>, fp: V -> ListId, init: V -> seq<T>)
    ensures SharersAgree((set x | x in xs), r, fp, init) ==>
      forall ys :: SameNodes(xs, ys) ==> AlwaysRight(ys, r, fp, init)
    ensures !SharersAgree((set x | x in xs), r, fp, init) ==>
      exists ys :: SameNodes(xs, ys) && AlwaysWrong(ys, r, fp, init)
  {
    if SharersAgree((set x | x in xs), r, fp, init) {
      forall ys: seq<V> | SameNodes(xs, ys) ensures AlwaysRight(ys, r, fp, init) {
        assert (set x | x in ys) == (set x | x in xs);
      }
    } else {
      var a, b :| a in xs && b in xs && fp(a) == fp(b) && !SameClosure(r, init, a, b);
      var ys := SharingFails(xs, r, fp, init, a, b);
      assert SameNodes(xs, ys) && AlwaysWrong(ys, r, fp, init);
    }
  }

  // ---- A case that fails ----

  function ThreeR(v: nat): seq<nat> {
    if v == 0 then [2] else []
  }

  /** As the second call site does, two nodes are given one list. */
  function ThreeFp(v: nat): ListId {
    if v == 2 then 1 else 0
  }

  function ThreeInit(v: nat): seq<nat> {
    if v == 2 then [7] else []
  }

  lemma {:induction false} NowhereFrom(p: seq<nat>)
    requires IsPath(ThreeR, p) && p[0] != 0
    ensures |p| == 1
  {
    assert |p| > 1 ==> p[1] in ThreeR(p[0]);
  }

  /** Node 0 leads to node 2 and takes over its element; node 1 leads nowhere, but shares the list. */
  lemma SharedListGrows(f: map<nat, ListId>, lists: map<ListId, seq<nat>>)
    requires Outcome([0, 1, 2], ThreeR, ThreeFp, ThreeInit, f, lists)
    ensures !InClosure(ThreeR, ThreeInit, 1, 7) && InClosure(ThreeR, ThreeInit, 0, 7)
    ensures 0 in f && 1 in f && f[0] == f[1] && !Exact([0, 1, 2], ThreeR, ThreeInit, f, lists)
  {
    ReachStep(ThreeR, 0, 2);
    assert 7 in ThreeInit(2);
    if InClosure(ThreeR, ThreeInit, 1, 7) {
      var y :| Reaches(ThreeR, 1, y) && 7 in ThreeInit(y);
      var p :| IsPath(ThreeR, p) && p[0] == 1 && p[|p| - 1] == y;
      NowhereFrom(p);
    }
    if Reaches(ThreeR, 0, 1) {
      var p :| IsPath(ThreeR, p) && p[0] == 0 && p[|p| - 1] == 1;
      assert p[1] in ThreeR(p[0]) && p[1] == 2;
      assert IsPath(ThreeR, p[1..]);
      NowhereFrom(p[1..]);
    }
    FirstTwoOwn([0, 1, 2], ThreeR, ThreeFp, f);
    assert 0 in [0, 1, 2] && 1 in [0, 1, 2];
    assert 0 in f && 1 in f && f[0] == f[1];
    assert f[0] in lists ==> (7 in lists[f[0]] <==> 7 in lists[f[1]]);
  }

  lemma PrefixStep<V>(q: seq<V>, k: nat)
    requires k < |q|
    ensures q[..k] + [q[k]] == q[..k + 1]
  {
  }

  lemma PrefixAll<V>(q: seq<V>)
    ensures q[..|q|] == q
  {
  }

  class Traversal<V(==,!new), T(==,!new)> {
    const xs: seq<V>
    const r: V -> seq<V>
    const fp: V -> ListId
    /** what the lists FP gives out hold before the traversal */
    ghost const init: V -> seq<T>
    const maxint: nat
    var n: map<V, nat>
    var f: map<V, ListId>
    var lists: map<ListId, seq<T>>
    var stack: seq<V>

    ghost function Prob(): Problem<V, T> {
      var nodes := set x | x in xs;
      Problem(nodes, r, fp, init, maxint, SharersAgree(nodes, r, fp, init))
    }

    ghost function St(): State<V, T>
      reads this
    {
      State(n, f, lists, stack)
    }

    constructor (xs: seq<V>, r: V -> seq<V>, fp: V -> ListId, lists: map<ListId, seq<T>>, maxint: nat)
      requires forall x :: x in xs ==> fp(x) in lists
      ensures this.xs == xs && this.r == r && this.fp == fp && this.lists == lists && this.maxint == maxint
      ensures Given(Prob(), lists)
    {
      this.xs, this.r, this.fp, this.lists, this.maxint := xs, r, fp, lists, maxint;
      this.init := v => if fp(v) in lists then lists[fp(v)] else [];
      n, f, stack := map[], map[], [];
    }

    /** digraph: the list of x holds the union of the initial lists of all y that x reaches, x included, provided that
        nodes which are given the same list have the same closure. In any case a root keeps its own list. */
    method Digraph() returns (result: map<V, ListId>)
      requires WellPosed(Prob()) && Given(Prob(), lists)
      modifies this
      ensures forall x :: x in xs ==> x in result && result[x] in lists
      ensures Outcome(xs, r, fp, init, result, lists)
    {
      ghost var g := Prob();
      Reset();
      StartKeeps(g, n, lists);
      StartThrough(g, xs, St());
      for i := 0 to |xs|
        invariant Through(g, xs, St(), i)
      {
        TraverseFrom(i);
      }
      result := f;
      AllExact(g, xs, St());
    }

    /** `for x in X: N[x] = 0` */
    method Reset()
      modifies this`n, this`f, this`stack
      ensures f == map[] && stack == [] && n.Keys == Prob().nodes && forall v :: v in n ==> n[v] == 0
    {
      n, f, stack := map[], map[], [];
      for i := 0 to |xs|
        invariant f == map[] && stack == []
        invariant forall v :: v in n <==> v in xs[..i]
        invariant forall v :: v in n ==> n[v] == 0
      {
        n := n[xs[i] := 0];
      }
      PrefixAll(xs);
    }

    /** `if N[x] == 0: traverse(x,N,stack,F,X,R,FP)` */
    method TraverseFrom(i: nat)
      requires i < |xs| && Through(Prob(), xs, St(), i)
      modifies this`n, this`f, this`lists, this`stack
      ensures Through(Prob(), xs, St(), i + 1)
    {
      ghost var g, s := Prob(), St();
      assert ThroughAt(Standing, g, xs, s, i);
      if n[xs[i]] == 0 {
        Traverse(xs[i]);
      }
      OneThrough(g, xs, s, St(), i);
    }

    method Traverse(x: V)
      requires Inv(Prob(), St()) && x in n && n[x] == 0
      modifies this`n, this`f, this`lists, this`stack
      ensures Traversed(Prob(), old(St()), St(), x)
      decreases |White(St())|, 0
    {
      ghost var g, s0 := Prob(), St();
      PushKeeps(g, s0, x);
      Enter(x);
      var d := |stack|;
      SubsetSize(White(s0) - {x}, White(s0));
      VisitAll(x, s0);
      ghost var s := St();
      StillWaiting(g, s0, s, x);
      if n[x] == d {
        StackLined(g, s);
        Pop(x, d - 1);
        PopKeeps(g, s0, s, St(), x);
      }
    }

    method Enter(x: V)
      modifies this`n, this`f, this`stack
      ensures St() == Pushed(Prob(), old(St()), x)
    {
      stack := stack + [x];
      n := n[x := |stack|];
      f := f[x := fp(x)];
    }

    method VisitAll(x: V, ghost s0: State<V, T>)
      requires Inv(Prob(), St()) && Frame(Prob(), St(), |s0.stack|, []) && Extends(s0, St())
      requires Explored(Prob(), s0, St(), x)
      requires stack[|s0.stack|] == x && x in s0.n && s0.n[x] == 0
      modifies this`n, this`f, this`lists, this`stack
      ensures Inv(Prob(), St()) && Frame(Prob(), St(), |s0.stack|, r(x)) && Extends(s0, St())
      ensures Explored(Prob(), s0, St(), x)
      ensures stack[|s0.stack|] == x
      decreases |White(St())|, 2
    {
      ghost var white := |White(St())|;
      var rel := r(x);
      for k := 0 to |rel|
        invariant Inv(Prob(), St()) && Frame(Prob(), St(), |s0.stack|, rel[..k]) && Extends(s0, St())
        invariant Explored(Prob(), s0, St(), x)
        invariant stack[|s0.stack|] == x && |White(St())| <= white
      {
        Visit(x, rel[k], s0, rel[..k]);
        PrefixStep(rel, k);
      }
      PrefixAll(rel);
    }

    /** One turn of the loop over the related nodes. */
    method Visit(x: V, y: V, ghost s0: State<V, T>, ghost h: seq<V>)
      requires Inv(Prob(), St()) && Frame(Prob(), St(), |s0.stack|, h) && Extends(s0, St())
      requires Explored(Prob(), s0, St(), x)
      requires stack[|s0.stack|] == x && x in s0.n && s0.n[x] == 0 && y in r(x)
      modifies this`n, this`f, this`lists, this`stack
      ensures Inv(Prob(), St()) && Frame(Prob(), St(), |s0.stack|, h + [y]) && Extends(s0, St())
      ensures Explored(Prob(), s0, St(), x)
      ensures stack[|s0.stack|] == x && |White(St())| <= |White(old(St()))|
      decreases |White(St())|, 1
    {
      ghost var g, s := Prob(), St();
      Related(g, s, |s0.stack|, y);
      if n[y] == 0 {
        Traverse(y);
        SeenNow(g, s, St(), y);
        FewerWhite(g, s, St());
      }
      ghost var s1 := St();
      Seen(g, s, s1, |s0.stack|, h, x, y);
      ghost var merged := Merge(x, y);
      HandledOne(g, s0, s, s1, |s0.stack|, h, y, merged);
    }

    /** `N[x] = min(N[x],N[y])`, and what F(x) lacks of F(y) is appended to it in place. */
    method Merge(x: V, y: V) returns (ghost u: seq<T>)
      requires x in n && y in n && x in f && y in f && f[x] in lists && f[y] in lists
      modifies this`n, this`lists
      ensures IsUnion(u, Content(old(St()), x), Content(old(St()), y)) && St() == Merged(old(St()), x, y, u)
    {
      var union := AppendAbsent(lists[f[x]], lists[f[y]]);
      n := n[x := if n[y] < n[x] then n[y] else n[x]];
      lists := lists[f[x] := union];
      u := union;
    }

    /** The end of traverse: everything from position `d` upwards leaves the stack with x's list. */
    method Pop(x: V, ghost d: nat)
      requires Lined(St()) && d < |stack| && stack[d] == x
      modifies this`n, this`f, this`stack
      ensures PoppedTo(Prob(), old(St()), St(), d, old(f[x]))
    {
      ghost var g, s := Prob(), St();
      PoppedNone(g, s, s.f[x]);
      var element := PopOne(s, d, x);
      AtRoot(s, |stack|, d);
      while element != x
        invariant d <= |stack| < |s.stack|
        invariant element == x <==> |stack| == d
        invariant PoppedTo(g, s, St(), |stack|, s.f[x])
        decreases |stack|
      {
        element := PopOne(s, d, x);
        AtRoot(s, |stack|, d);
      }
    }

    /** `N[stack[-1]] = MAXINT; F[stack[-1]] = F[x]; element = stack.pop()` */
    method PopOne(ghost s: State<V, T>, ghost d: nat, x: V) returns (element: V)
      requires Lined(s) && d < |stack| <= |s.stack| && s.stack[d] == x
      requires PoppedTo(Prob(), s, St(), |stack|, s.f[x])
      modifies this`n, this`f, this`stack
      ensures |stack| == old(|stack|) - 1 && element == s.stack[|stack|]
      ensures PoppedTo(Prob(), s, St(), |stack|, s.f[x])
    {
      ghost var s1, c := St(), |stack|;
      StillRoot(Prob(), s, s1, c, d);
      PoppedOne(Prob(), s, s1, c, s.f[x]);
      ghost var v := s.stack[c - 1];
      ghost var s2 := State(s1.n[v := maxint], s1.f[v := s.f[x]], s1.lists, s1.stack[..c - 1]);
      n := n[stack[|stack| - 1] := maxint];
      f := f[stack[|stack| - 1] := f[x]];
      element := stack[|stack| - 1];
      stack := stack[..|stack| - 1];
      assert St() == s2;
    }

    /** `for a in ys: if a not in xs: xs.append(a)` */
    static method AppendAbsent(xs: seq<T>, ys: seq<T>) returns (u: seq<T>)
      ensures IsUnion(u, xs, ys)
      ensures (forall i, j :: 0 <= i < j < |xs| ==> xs[i] != xs[j]) ==> forall i, j :: 0 <= i < j < |u| ==> u[i] != u[j]
    {
      u := xs;
      for i := 0 to |ys|
        invariant forall t :: t in u <==> t in xs || t in ys[..i]
        invariant (forall i, j :: 0 <= i < j < |xs| ==> xs[i] != xs[j]) ==>
          forall i, j :: 0 <= i < j < |u| ==> u[i] != u[j]
      {
        if ys[i] !in u {
          u := u + [ys[i]];
        }
      }
    }
  }
}
