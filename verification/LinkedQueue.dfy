/** Doubly linked queues threaded through the thread control blocks: the links of tcb.c against sequences. */
module LinkedQueue {

  /** Address of a thread control block. */
  type Tcb = nat

  const NULL: Tcb := 0

  /** tcb_queue_t */
  datatype Queue = Queue(head: Tcb, end: Tcb)

  type Links = map<Tcb, Tcb>

  function At(s: seq<Tcb>, i: int): Tcb {
    if 0 <= i < |s| then s[i] else NULL
  }

  ghost predicate Distinct(s: seq<Tcb>) {
    forall i, j :: 0 <= i < j < |s| ==> s[i] != s[j]
  }

  /** The i-th member is linked to its neighbours in `s`. */
  ghost predicate Linked(next: Links, prev: Links, s: seq<Tcb>, i: nat) {
    && i < |s| && s[i] != NULL && s[i] in next && s[i] in prev
    && next[s[i]] == At(s, i + 1) && prev[s[i]] == At(s, i - 1)
  }

  /** The queue's pointers and the links of its members spell out `s` in both directions. */
  ghost predicate Holds(next: Links, prev: Links, q: Queue, s: seq<Tcb>) {
    && q.head == At(s, 0) && q.end == At(s, |s| - 1)
    && (forall i :: 0 <= i < |s| ==> Linked(next, prev, s, i))
    && Distinct(s)
  }

  /** `s` without `t`. */
  function Without(s: seq<Tcb>, t: Tcb): (r: seq<Tcb>)
    ensures forall u: Tcb :: u in r <==> u in s && u != t
    ensures t !in s ==> r == s
  {
    if s == [] then [] else if s[0] == t then Without(s[1..], t) else [s[0]] + Without(s[1..], t)
  }

  lemma {:induction false} WithoutAt(s: seq<Tcb>, i: nat)
    requires i < |s| && Distinct(s)
    ensures Without(s, s[i]) == s[..i] + s[i + 1..]
  {
    var rest := s[1..];
    if i == 0 {
      forall j | 0 <= j < |rest| ensures rest[j] != s[0] {
        assert rest[j] == s[j + 1];
      }
      assert s[0] !in rest;
    } else {
      assert rest[i - 1] == s[i] && s[0] != s[i];
      forall j, k | 0 <= j < k < |rest| ensures rest[j] != rest[k] {
        assert rest[j] == s[j + 1] && rest[k] == s[k + 1];
      }
      WithoutAt(rest, i - 1);
      TailSplit(s, i);
    }
  }

  lemma TailSplit(s: seq<Tcb>, i: nat)
    requires 0 < i < |s|
    ensures [s[0]] + (s[1..][..i - 1] + s[1..][i - 1 + 1..]) == s[..i] + s[i + 1..]
  {
  }

  lemma {:induction false} WithoutKeepsDistinct(s: seq<Tcb>, t: Tcb)
    requires Distinct(s)
    ensures Distinct(Without(s, t))
  {
    if t in s {
      var i :| 0 <= i < |s| && s[i] == t;
      WithoutAt(s, i);
    }
  }

  ghost predicate SameLinks(next: Links, prev: Links, next': Links, prev': Links, t: Tcb) {
    t in next && t in prev ==> t in next' && t in prev' && next'[t] == next[t] && prev'[t] == prev[t]
  }

  /** A queue whose members' links are untouched still holds the same threads. */
  lemma Untouched(next: Links, prev: Links, next': Links, prev': Links, q: Queue, s: seq<Tcb>)
    requires Holds(next, prev, q, s)
    requires forall t: Tcb :: t in s ==> SameLinks(next, prev, next', prev', t)
    ensures Holds(next', prev', q, s)
  {
    forall i | 0 <= i < |s| ensures Linked(next', prev', s, i) {
      assert Linked(next, prev, s, i);
      assert s[i] in s;
    }
  }

  // ---- Appending, pushing and taking out ----

  function AppendNext(next: Links, q: Queue, t: Tcb): Links {
    (if q.head == NULL then next else next[q.end := t])[t := NULL]
  }

  function AppendQueue(q: Queue, t: Tcb): Queue {
    Queue(if q.head == NULL then t else q.head, t)
  }

  lemma Appended(next: Links, prev: Links, q: Queue, s: seq<Tcb>, t: Tcb)
    requires Holds(next, prev, q, s) && t !in s && t != NULL
    ensures Holds(AppendNext(next, q, t), prev[t := q.end], AppendQueue(q, t), s + [t])
  {
    var s', next', prev' := s + [t], AppendNext(next, q, t), prev[t := q.end];
    assert s != [] ==> Linked(next, prev, s, 0);
    forall i | 0 <= i < |s'| ensures Linked(next', prev', s', i) {
      if i < |s| {
        assert Linked(next, prev, s, i);
        assert s[i] in s && (i == |s| - 1 || s[i] != s[|s| - 1]);
      }
    }
    forall i, j | 0 <= i < j < |s'| ensures s'[i] != s'[j] {
      assert s[i] in s;
    }
  }

  function PushPrev(prev: Links, q: Queue, t: Tcb): Links {
    (if q.end == NULL then prev else prev[q.head := t])[t := NULL]
  }

  function PushQueue(q: Queue, t: Tcb): Queue {
    Queue(t, if q.end == NULL then t else q.end)
  }

  lemma Pushed(next: Links, prev: Links, q: Queue, s: seq<Tcb>, t: Tcb)
    requires Holds(next, prev, q, s) && t !in s && t != NULL
    ensures Holds(next[t := q.head], PushPrev(prev, q, t), PushQueue(q, t), [t] + s)
  {
    var s', next', prev' := [t] + s, next[t := q.head], PushPrev(prev, q, t);
    assert s != [] ==> Linked(next, prev, s, |s| - 1);
    forall i | 0 <= i < |s'| ensures Linked(next', prev', s', i) {
      if i > 0 {
        assert Linked(next, prev, s, i - 1);
        assert s'[i] == s[i - 1] && s[i - 1] in s && (i == 1 || s[i - 1] != s[0]);
      }
    }
    forall i, j | 0 <= i < j < |s'| ensures s'[i] != s'[j] {
      assert s'[j] == s[j - 1] && s[j - 1] in s;
    }
  }

  function RemoveNext(next: Links, prev: Links, t: Tcb): Links
    requires t in next && t in prev
  {
    if prev[t] != NULL then next[prev[t] := next[t]] else next
  }

  function RemovePrev(next: Links, prev: Links, t: Tcb): Links
    requires t in next && t in prev
  {
    if next[t] != NULL then prev[next[t] := prev[t]] else prev
  }

  function RemoveQueue(next: Links, prev: Links, q: Queue, t: Tcb): Queue
    requires t in next && t in prev
  {
    Queue(if prev[t] != NULL then q.head else next[t], if next[t] != NULL then q.end else prev[t])
  }

  lemma Removed(next: Links, prev: Links, q: Queue, s: seq<Tcb>, t: Tcb)
    requires Holds(next, prev, q, s) && t in s
    ensures t in next && t in prev
    ensures Holds(RemoveNext(next, prev, t), RemovePrev(next, prev, t), RemoveQueue(next, prev, q, t), Without(s, t))
    ensures prev[t] == NULL && next[t] == NULL <==> Without(s, t) == []
  {
    var i :| 0 <= i < |s| && s[i] == t;
    Ties(next, prev, q, s, i);
    WithoutAt(s, i);
    WithoutKeepsDistinct(s, t);
    RemovedEnds(s, i);
    RemovedLinks(next, prev, q, s, i);
  }

  /** Where the i-th member's links lead. */
  lemma Ties(next: Links, prev: Links, q: Queue, s: seq<Tcb>, i: nat)
    requires Holds(next, prev, q, s) && i < |s|
    ensures s[i] in next && s[i] in prev && next[s[i]] == At(s, i + 1) && prev[s[i]] == At(s, i - 1)
    ensures At(s, i - 1) == NULL <==> i == 0
    ensures At(s, i + 1) == NULL <==> i == |s| - 1
  {
    assert Linked(next, prev, s, i);
    assert i > 0 ==> Linked(next, prev, s, i - 1);
    assert i < |s| - 1 ==> Linked(next, prev, s, i + 1);
  }

  lemma RemovedLinks(next: Links, prev: Links, q: Queue, s: seq<Tcb>, i: nat)
    requires Holds(next, prev, q, s) && i < |s| && s[i] in next && s[i] in prev
    ensures var r, next', prev' := s[..i] + s[i + 1..], RemoveNext(next, prev, s[i]), RemovePrev(next, prev, s[i]);
      forall k :: 0 <= k < |r| ==> Linked(next', prev', r, k)
  {
    var r, next', prev' := s[..i] + s[i + 1..], RemoveNext(next, prev, s[i]), RemovePrev(next, prev, s[i]);
    forall k | 0 <= k < |r| ensures Linked(next', prev', r, k) {
      assert Linked(next, prev, s, i) && Linked(next, prev, s, if k < i then k else k + 1);
      RemovedAt(next, prev, s, i, k);
    }
  }

  lemma RemovedEnds(s: seq<Tcb>, i: nat)
    requires i < |s|
    ensures var r := s[..i] + s[i + 1..];
      && At(r, 0) == (if i == 0 then At(s, 1) else At(s, 0))
      && At(r, |r| - 1) == (if i == |s| - 1 then At(s, i - 1) else At(s, |s| - 1))
  {
  }

  lemma RemovedAt(next: Links, prev: Links, s: seq<Tcb>, i: nat, k: nat)
    requires Distinct(s) && i < |s| && k < |s| - 1
    requires Linked(next, prev, s, i) && Linked(next, prev, s, if k < i then k else k + 1)
    ensures Linked(RemoveNext(next, prev, s[i]), RemovePrev(next, prev, s[i]), s[..i] + s[i + 1..], k)
  {
    var r := s[..i] + s[i + 1..];
    var j := if k < i then k else k + 1;
    assert r[k] == s[j];
    assert At(r, k + 1) == At(s, if k + 1 < i then k + 1 else k + 2);
    assert At(r, k - 1) == At(s, if k - 1 < i then k - 1 else k);
    assert i == 0 || (s[i - 1] == s[j] <==> i - 1 == j);
    assert i == |s| - 1 || (s[i + 1] == s[j] <==> i + 1 == j);
  }

  lemma Neighbours(next: Links, prev: Links, q: Queue, s: seq<Tcb>, t: Tcb)
    requires Holds(next, prev, q, s) && t in s
    ensures t in next && t in prev && next[t] != t && prev[t] != t
    ensures prev[t] != NULL ==> prev[t] in s && prev[t] in next
    ensures next[t] != NULL ==> next[t] in s && next[t] in prev
  {
    var i :| 0 <= i < |s| && s[i] == t;
    assert Linked(next, prev, s, i);
    assert i > 0 ==> Linked(next, prev, s, i - 1);
    assert i < |s| - 1 ==> Linked(next, prev, s, i + 1);
  }

  lemma Ends(next: Links, prev: Links, q: Queue, s: seq<Tcb>)
    requires Holds(next, prev, q, s)
    ensures q.head == NULL <==> s == []
    ensures q.end == NULL <==> s == []
    ensures s != [] ==> q.head == s[0] && q.head in prev && q.head in s && q.end in next && q.end in s
  {
    if s != [] {
      assert Linked(next, prev, s, 0) && Linked(next, prev, s, |s| - 1);
    }
  }

  // ---- Many queues over the same links ----

  ghost predicate ListedAt<K>(next: Links, prev: Links, queues: map<K, Queue>, held: map<K, seq<Tcb>>, k: K) {
    k in held && k in queues && Holds(next, prev, queues[k], held[k])
  }

  ghost predicate Listed<K(!new)>(next: Links, prev: Links, queues: map<K, Queue>, held: map<K, seq<Tcb>>) {
    forall k :: k in held ==> ListedAt(next, prev, queues, held, k)
  }

  ghost predicate Apart(s: seq<Tcb>, r: seq<Tcb>, t: Tcb) {
    forall u: Tcb :: u in s ==> u != t && u !in r
  }

  /** One queue changes and the others keep their threads. */
  lemma OthersHold<K(!new)>(next: Links, prev: Links, queues: map<K, Queue>, held: map<K, seq<Tcb>>,
                            next': Links, prev': Links, k0: K, q: Queue, s: seq<Tcb>, t: Tcb)
    requires Listed(next, prev, queues, held) && k0 in held && Holds(next', prev', q, s)
    requires forall k :: k in held && k != k0 ==> Apart(held[k], held[k0], t)
    requires forall u: Tcb :: u != t && u !in held[k0] ==> SameLinks(next, prev, next', prev', u)
    ensures Listed(next', prev', queues[k0 := q], held[k0 := s])
  {
    var queues', held' := queues[k0 := q], held[k0 := s];
    forall k | k in held' ensures ListedAt(next', prev', queues', held', k) {
      if k != k0 {
        assert ListedAt(next, prev, queues, held, k);
        assert Apart(held[k], held[k0], t);
        Untouched(next, prev, next', prev', queues[k], held[k]);
      }
    }
  }

  /** What each of the three operations leaves alone. */
  lemma AppendLeaves(next: Links, prev: Links, q: Queue, s: seq<Tcb>, t: Tcb)
    requires Holds(next, prev, q, s)
    ensures forall u: Tcb :: u != t && u !in s ==> SameLinks(next, prev, AppendNext(next, q, t), prev[t := q.end], u)
  {
    Ends(next, prev, q, s);
  }

  lemma RemoveLeaves(next: Links, prev: Links, q: Queue, s: seq<Tcb>, t: Tcb)
    requires Holds(next, prev, q, s) && t in s
    ensures t in next && t in prev
    ensures forall u: Tcb :: u != t && u !in s ==>
      SameLinks(next, prev, RemoveNext(next, prev, t), RemovePrev(next, prev, t), u)
  {
    Neighbours(next, prev, q, s, t);
  }
}
