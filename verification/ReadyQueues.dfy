/** The scheduler's ready queues: linked lists, queued flags and bitmaps against a map to sequences (tcb.c). */
module ReadyQueues {
  import opened LinkedQueue
  import opened PriorityBitmap

  /** The abstract ready queues. */
  type Ready = map<Key, seq<Tcb>>

  /** The lists in memory: links, queued flags and ksReadyQueues. */
  datatype Lists = Lists(next: Links, prev: Links, queued: map<Tcb, bool>, queues: map<Key, Queue>)

  /** Every queued thread is in the queue its domain and priority name, and in no other. */
  ghost predicate Placed(queued: map<Tcb, bool>, key: map<Tcb, Key>, ready: Ready) {
    queued.Keys == key.Keys && forall t: Tcb :: PlacedAt(queued, key, ready, t)
  }

  ghost predicate PlacedAt(queued: map<Tcb, bool>, key: map<Tcb, Key>, ready: Ready, t: Tcb) {
    && (t in queued && t in key && queued[t] ==> key[t] in ready && t in ready[key[t]])
    && (forall k :: k in ready && t in ready[k] ==> t in queued && t in key && queued[t] && key[t] == k)
  }

  ghost predicate AllKeys(c: Config, key: map<Tcb, Key>, ready: Ready) {
    && (forall k :: KeyAt(c, ready, k))
    && (forall t: Tcb :: LegalAt(c, key, t))
  }

  ghost predicate KeyAt(c: Config, ready: Ready, k: Key) {
    k in ready <==> Legal(c, k)
  }

  ghost predicate LegalAt(c: Config, key: map<Tcb, Key>, t: Tcb) {
    t in key ==> Legal(c, key[t])
  }

  ghost predicate IsListed(l: Lists, ready: Ready) {
    Listed(l.next, l.prev, l.queues, ready)
  }

  /** The lists in memory represent `ready`. */
  ghost predicate Represent(c: Config, l: Lists, key: map<Tcb, Key>, ready: Ready) {
    && l.next.Keys == l.prev.Keys == l.queued.Keys && NULL !in l.queued
    && IsListed(l, ready) && Placed(l.queued, key, ready) && AllKeys(c, key, ready)
  }

  ghost function Full(ready: Ready): set<Key> {
    set k | k in ready && ready[k] != []
  }

  datatype Part = QueueLists | Bitmaps

  ghost predicate PartOk(part: Part, c: Config, l: Lists, l1: L1, l2: L2, key: map<Tcb, Key>, ready: Ready) {
    match part
    case QueueLists => ConfigOk(c) && Represent(c, l, key, ready)
    case Bitmaps => Marks(c, l1, l2, Full(ready))
  }

  /** The lists represent `ready`, and the bitmaps mark its non-empty queues. */
  ghost predicate Sound(c: Config, l: Lists, l1: L1, l2: L2, key: map<Tcb, Key>, ready: Ready) {
    forall part: Part :: PartOk(part, c, l, l1, l2, key, ready)
  }

  lemma BothParts(c: Config, l: Lists, l1: L1, l2: L2, key: map<Tcb, Key>, ready: Ready)
    requires Sound(c, l, l1, l2, key, ready)
    ensures ConfigOk(c) && Represent(c, l, key, ready) && Marks(c, l1, l2, Full(ready))
  {
    assert PartOk(QueueLists, c, l, l1, l2, key, ready) && PartOk(Bitmaps, c, l, l1, l2, key, ready);
  }

  // ---- One queue changes, the others keep their threads ----

  lemma OneChanges(l: Lists, key: map<Tcb, Key>, ready: Ready, l': Lists, k0: Key, q: Queue, s: seq<Tcb>, t: Tcb)
    requires IsListed(l, ready) && Placed(l.queued, key, ready) && k0 in ready && t in key && key[t] == k0
    requires l'.queues == l.queues[k0 := q] && Holds(l'.next, l'.prev, q, s)
    requires forall u: Tcb :: u != t && u !in ready[k0] ==> SameLinks(l.next, l.prev, l'.next, l'.prev, u)
    ensures IsListed(l', ready[k0 := s])
  {
    forall k | k in ready && k != k0 ensures Apart(ready[k], ready[k0], t) {
      Elsewhere(l.queued, key, ready, k, k0, t);
    }
    OthersHold(l.next, l.prev, l.queues, ready, l'.next, l'.prev, k0, q, s, t);
  }

  lemma Elsewhere(queued: map<Tcb, bool>, key: map<Tcb, Key>, ready: Ready, k: Key, k0: Key, t: Tcb)
    requires Placed(queued, key, ready) && k in ready && k0 in ready && k != k0 && t in key && key[t] == k0
    ensures forall u: Tcb :: u in ready[k] ==> u != t && u !in ready[k0]
  {
    forall u: Tcb | u in ready[k] ensures u != t && u !in ready[k0] {
      assert PlacedAt(queued, key, ready, u);
    }
  }

  lemma PlacedIn(queued: map<Tcb, bool>, key: map<Tcb, Key>, ready: Ready, t: Tcb, s: seq<Tcb>)
    requires Placed(queued, key, ready) && t in queued && key[t] in ready
    requires forall u: Tcb :: u in s <==> u in ready[key[t]] || u == t
    ensures Placed(queued[t := true], key, ready[key[t] := s])
  {
    var queued', ready' := queued[t := true], ready[key[t] := s];
    forall u: Tcb ensures PlacedAt(queued', key, ready', u) {
      assert PlacedAt(queued, key, ready, u);
    }
  }

  lemma PlacedOut(queued: map<Tcb, bool>, key: map<Tcb, Key>, ready: Ready, t: Tcb, s: seq<Tcb>)
    requires Placed(queued, key, ready) && t in queued && key[t] in ready
    requires forall u: Tcb :: u in s <==> u in ready[key[t]] && u != t
    ensures Placed(queued[t := false], key, ready[key[t] := s])
  {
    var queued', ready' := queued[t := false], ready[key[t] := s];
    forall u: Tcb ensures PlacedAt(queued', key, ready', u) {
      assert PlacedAt(queued, key, ready, u);
    }
  }

  lemma PlacedRekeyed(queued: map<Tcb, bool>, key: map<Tcb, Key>, ready: Ready, t: Tcb, k: Key)
    requires Placed(queued, key, ready) && t in queued && !queued[t]
    ensures Placed(queued, key[t := k], ready)
  {
    var key' := key[t := k];
    forall u: Tcb ensures PlacedAt(queued, key', ready, u) {
      assert PlacedAt(queued, key, ready, u);
    }
  }

  lemma KeysAfter(c: Config, key: map<Tcb, Key>, ready: Ready, k: Key, s: seq<Tcb>)
    requires AllKeys(c, key, ready) && Legal(c, k)
    ensures AllKeys(c, key, ready[k := s])
  {
    var ready' := ready[k := s];
    forall j ensures KeyAt(c, ready', j) {
      assert KeyAt(c, ready, j);
    }
  }

  lemma KeysRekeyed(c: Config, key: map<Tcb, Key>, ready: Ready, t: Tcb, k: Key)
    requires AllKeys(c, key, ready) && Legal(c, k)
    ensures AllKeys(c, key[t := k], ready)
  {
    var key' := key[t := k];
    forall u: Tcb ensures LegalAt(c, key', u) {
      assert LegalAt(c, key, u);
    }
  }

  /** What the filing says of one thread. */
  lemma OneThread(c: Config, queued: map<Tcb, bool>, key: map<Tcb, Key>, ready: Ready, t: Tcb)
    requires Placed(queued, key, ready) && AllKeys(c, key, ready) && t in queued
    ensures t in key && Legal(c, key[t]) && key[t] in ready && (queued[t] <==> t in ready[key[t]])
  {
    assert LegalAt(c, key, t) && KeyAt(c, ready, key[t]) && PlacedAt(queued, key, ready, t);
  }

  lemma FullAfter(ready: Ready, k: Key, s: seq<Tcb>)
    requires k in ready
    ensures Full(ready[k := s]) == if s == [] then Full(ready) - {k} else Full(ready) + {k}
  {
  }

  // ---- The three list operations ----

  ghost function PushFront(l: Lists, k: Key, t: Tcb): Lists
    requires k in l.queues
  {
    var q := l.queues[k];
    Lists(l.next[t := q.head], PushPrev(l.prev, q, t), l.queued[t := true], l.queues[k := PushQueue(q, t)])
  }

  ghost function PushBack(l: Lists, k: Key, t: Tcb): Lists
    requires k in l.queues
  {
    var q := l.queues[k];
    Lists(AppendNext(l.next, q, t), l.prev[t := q.end], l.queued[t := true], l.queues[k := AppendQueue(q, t)])
  }

  ghost function TakeOut(l: Lists, k: Key, t: Tcb): Lists
    requires k in l.queues && t in l.next && t in l.prev
  {
    Lists(RemoveNext(l.next, l.prev, t), RemovePrev(l.next, l.prev, t), l.queued[t := false],
          l.queues[k := RemoveQueue(l.next, l.prev, l.queues[k], t)])
  }

  lemma EmptyEnds(c: Config, l: Lists, key: map<Tcb, Key>, ready: Ready, k: Key)
    requires Represent(c, l, key, ready) && k in ready
    ensures k in l.queues && (l.queues[k].head == NULL <==> ready[k] == []) && l.queues[k].head == At(ready[k], 0)
    ensures l.queues[k].end == NULL <==> ready[k] == []
    ensures ready[k] != [] ==> l.queues[k].head in l.prev && l.queues[k].end in l.next
    ensures ready[k] != [] ==> l.queues[k].head in ready[k] && l.queues[k].end in ready[k]
  {
    assert ListedAt(l.next, l.prev, l.queues, ready, k);
    Ends(l.next, l.prev, l.queues[k], ready[k]);
  }

  lemma PushFrontListed(c: Config, l: Lists, key: map<Tcb, Key>, ready: Ready, t: Tcb)
    requires Represent(c, l, key, ready) && t in l.queued && !l.queued[t]
    ensures key[t] in ready && key[t] in l.queues
    ensures PushFront(l, key[t], t).next.Keys == l.next.Keys && PushFront(l, key[t], t).prev.Keys == l.prev.Keys
    ensures IsListed(PushFront(l, key[t], t), ready[key[t] := [t] + ready[key[t]]])
  {
    OneThread(c, l.queued, key, ready, t);
    var k := key[t];
    EmptyEnds(c, l, key, ready, k);
    assert ListedAt(l.next, l.prev, l.queues, ready, k);
    Pushed(l.next, l.prev, l.queues[k], ready[k], t);
    OneChanges(l, key, ready, PushFront(l, k, t), k, PushQueue(l.queues[k], t), [t] + ready[k], t);
  }

  lemma PushFrontKeeps(c: Config, l: Lists, key: map<Tcb, Key>, ready: Ready, t: Tcb)
    requires Represent(c, l, key, ready) && t in l.queued && !l.queued[t]
    ensures key[t] in ready && key[t] in l.queues
    ensures Represent(c, PushFront(l, key[t], t), key, ready[key[t] := [t] + ready[key[t]]])
  {
    OneThread(c, l.queued, key, ready, t);
    KeysAfter(c, key, ready, key[t], [t] + ready[key[t]]);
    PlacedIn(l.queued, key, ready, t, [t] + ready[key[t]]);
    PushFrontListed(c, l, key, ready, t);
  }

  lemma PushBackListed(c: Config, l: Lists, key: map<Tcb, Key>, ready: Ready, t: Tcb)
    requires Represent(c, l, key, ready) && t in l.queued && !l.queued[t]
    ensures key[t] in ready && key[t] in l.queues
    ensures PushBack(l, key[t], t).next.Keys == l.next.Keys && PushBack(l, key[t], t).prev.Keys == l.prev.Keys
    ensures IsListed(PushBack(l, key[t], t), ready[key[t] := ready[key[t]] + [t]])
  {
    OneThread(c, l.queued, key, ready, t);
    var k := key[t];
    EmptyEnds(c, l, key, ready, k);
    assert ListedAt(l.next, l.prev, l.queues, ready, k);
    Appended(l.next, l.prev, l.queues[k], ready[k], t);
    OneChanges(l, key, ready, PushBack(l, k, t), k, AppendQueue(l.queues[k], t), ready[k] + [t], t);
  }

  lemma PushBackKeeps(c: Config, l: Lists, key: map<Tcb, Key>, ready: Ready, t: Tcb)
    requires Represent(c, l, key, ready) && t in l.queued && !l.queued[t]
    ensures key[t] in ready && key[t] in l.queues
    ensures Represent(c, PushBack(l, key[t], t), key, ready[key[t] := ready[key[t]] + [t]])
  {
    OneThread(c, l.queued, key, ready, t);
    KeysAfter(c, key, ready, key[t], ready[key[t]] + [t]);
    PlacedIn(l.queued, key, ready, t, ready[key[t]] + [t]);
    PushBackListed(c, l, key, ready, t);
  }

  lemma TakeOutListed(c: Config, l: Lists, key: map<Tcb, Key>, ready: Ready, t: Tcb)
    requires Represent(c, l, key, ready) && t in l.queued && l.queued[t]
    ensures key[t] in ready && key[t] in l.queues && t in l.next && t in l.prev
    ensures IsListed(TakeOut(l, key[t], t), ready[key[t] := Without(ready[key[t]], t)])
    ensures TakeOut(l, key[t], t).next.Keys == l.next.Keys && TakeOut(l, key[t], t).prev.Keys == l.prev.Keys
    ensures l.prev[t] == NULL && l.next[t] == NULL <==> Without(ready[key[t]], t) == []
  {
    OneThread(c, l.queued, key, ready, t);
    var k, s := key[t], Without(ready[key[t]], t);
    assert ListedAt(l.next, l.prev, l.queues, ready, k);
    Neighbours(l.next, l.prev, l.queues[k], ready[k], t);
    Removed(l.next, l.prev, l.queues[k], ready[k], t);
    OneChanges(l, key, ready, TakeOut(l, k, t), k, RemoveQueue(l.next, l.prev, l.queues[k], t), s, t);
  }

  lemma TakeOutKeeps(c: Config, l: Lists, key: map<Tcb, Key>, ready: Ready, t: Tcb)
    requires Represent(c, l, key, ready) && t in l.queued && l.queued[t]
    ensures key[t] in ready && key[t] in l.queues && t in ready[key[t]]
    ensures Represent(c, TakeOut(l, key[t], t), key, ready[key[t] := Without(ready[key[t]], t)])
    ensures l.prev[t] == NULL && l.next[t] == NULL <==> Without(ready[key[t]], t) == []
  {
    OneThread(c, l.queued, key, ready, t);
    KeysAfter(c, key, ready, key[t], Without(ready[key[t]], t));
    PlacedOut(l.queued, key, ready, t, Without(ready[key[t]], t));
    TakeOutListed(c, l, key, ready, t);
  }

  ghost predicate CanLink(c: Config, l: Lists, l1: L1, l2: L2, k: Key, full: set<Key>) {
    ConfigOk(c) && Legal(c, k) && Marks(c, l1, l2, full) && k in l.queues
  }

  lemma BeforeLink(c: Config, l: Lists, l1: L1, l2: L2, key: map<Tcb, Key>, ready: Ready, t: Tcb)
    requires Sound(c, l, l1, l2, key, ready) && t in l.queued
    ensures t in key && key[t] in ready && CanLink(c, l, l1, l2, key[t], Full(ready))
    ensures l.queued[t] ==> CanUnlink(l, key[t], t) && key[t] in Full(ready)
  {
    BothParts(c, l, l1, l2, key, ready);
    OneThread(c, l.queued, key, ready, t);
    var k := key[t];
    assert ListedAt(l.next, l.prev, l.queues, ready, k);
    if l.queued[t] {
      Neighbours(l.next, l.prev, l.queues[k], ready[k], t);
    }
  }

  lemma KeyKnown(c: Config, l: Lists, key: map<Tcb, Key>, ready: Ready, t: Tcb)
    requires Represent(c, l, key, ready) && t in l.queued
    ensures t in key && key[t] in ready && key[t] in l.queues && t in l.next && t in l.prev
  {
    OneThread(c, l.queued, key, ready, t);
    assert ListedAt(l.next, l.prev, l.queues, ready, key[t]);
  }

  ghost predicate CanUnlink(l: Lists, k: Key, t: Tcb) {
    k in l.queues && t in l.next && t in l.prev && l.next[t] != t && l.prev[t] != t
  }

  lemma PushFrontSound(c: Config, l: Lists, l1: L1, l2: L2, key: map<Tcb, Key>, ready: Ready, t: Tcb, l1': L1, l2': L2)
    requires Sound(c, l, l1, l2, key, ready) && t in l.queued && !l.queued[t] && t in key && key[t] in l.queues
    requires Marks(c, l1', l2', if l.queues[key[t]].end == NULL then Full(ready) + {key[t]} else Full(ready))
    ensures key[t] in ready
    ensures Sound(c, PushFront(l, key[t], t), l1', l2', key, ready[key[t] := [t] + ready[key[t]]])
  {
    BothParts(c, l, l1, l2, key, ready);
    PushFrontKeeps(c, l, key, ready, t);
    EmptyEnds(c, l, key, ready, key[t]);
    FullAfter(ready, key[t], [t] + ready[key[t]]);
    FullGrows(ready, key[t]);
  }

  lemma PushBackSound(c: Config, l: Lists, l1: L1, l2: L2, key: map<Tcb, Key>, ready: Ready, t: Tcb, l1': L1, l2': L2)
    requires Sound(c, l, l1, l2, key, ready) && t in l.queued && !l.queued[t] && t in key && key[t] in l.queues
    requires Marks(c, l1', l2', if l.queues[key[t]].head == NULL then Full(ready) + {key[t]} else Full(ready))
    ensures key[t] in ready
    ensures Sound(c, PushBack(l, key[t], t), l1', l2', key, ready[key[t] := ready[key[t]] + [t]])
  {
    BothParts(c, l, l1, l2, key, ready);
    PushBackKeeps(c, l, key, ready, t);
    EmptyEnds(c, l, key, ready, key[t]);
    FullAfter(ready, key[t], ready[key[t]] + [t]);
    FullGrows(ready, key[t]);
  }

  lemma TakeOutSound(c: Config, l: Lists, l1: L1, l2: L2, key: map<Tcb, Key>, ready: Ready, t: Tcb, l1': L1, l2': L2)
    requires Sound(c, l, l1, l2, key, ready) && t in l.queued && l.queued[t] && t in key && CanUnlink(l, key[t], t)
    requires Marks(c, l1', l2', if l.prev[t] == NULL && l.next[t] == NULL then Full(ready) - {key[t]} else Full(ready))
    ensures key[t] in ready
    ensures Sound(c, TakeOut(l, key[t], t), l1', l2', key, ready[key[t] := Without(ready[key[t]], t)])
  {
    BothParts(c, l, l1, l2, key, ready);
    TakeOutKeeps(c, l, key, ready, t);
    FullAfter(ready, key[t], Without(ready[key[t]], t));
    FullGrows(ready, key[t]);
  }

  lemma FullGrows(ready: Ready, k: Key)
    requires k in ready
    ensures if ready[k] == [] then k !in Full(ready) else Full(ready) + {k} == Full(ready)
  {
  }

  lemma Rekeyed(c: Config, l: Lists, key: map<Tcb, Key>, ready: Ready, t: Tcb, k: Key)
    requires Represent(c, l, key, ready) && t in l.queued && !l.queued[t] && Legal(c, k)
    ensures Represent(c, l, key[t := k], ready)
  {
    PlacedRekeyed(l.queued, key, ready, t, k);
    KeysRekeyed(c, key, ready, t, k);
    forall j | j in ready ensures ListedAt(l.next, l.prev, l.queues, ready, j) {
    }
  }

  /** The head of the highest non-empty priority of the domain; NULL when nothing there is ready. */
  ghost function FirstReady(ready: Ready, dom: nat): Tcb {
    if exists p: nat :: IsHighest(Full(ready), dom, p) then
      var p: nat :| IsHighest(Full(ready), dom, p);
      ready[Key(dom, p)][0]
    else NULL
  }

  lemma FirstReadyIs(ready: Ready, dom: nat, p: nat)
    requires IsHighest(Full(ready), dom, p)
    ensures FirstReady(ready, dom) == ready[Key(dom, p)][0]
  {
  }

  function LegalKeys(c: Config): (ks: set<Key>)
    ensures forall k :: k in ks <==> Legal(c, k)
  {
    set d: nat, p: nat | d < c.numDomains && p < c.numPrios :: Key(d, p)
  }

  function DomainsOf(c: Config): (ds: set<nat>)
    requires c.numPrios > 0
    ensures forall d: nat :: d in ds <==> d < c.numDomains
  {
    set d: nat | d < c.numDomains && Legal(c, Key(d, 0))
  }

  function RowsOf(c: Config): set<(nat, nat)> {
    set d: nat, i: nat | d < c.numDomains && i <= L1Index(c.numPrios) :: (d, i)
  }

  lemma NoneFull(c: Config, l1: L1, l2: L2, ready: Ready)
    requires c.numPrios > 0
    requires l1 == (map d | d in DomainsOf(c) :: {}) && l2 == (map r | r in RowsOf(c) :: {})
    requires forall k :: k in ready ==> ready[k] == []
    ensures Marks(c, l1, l2, Full(ready))
  {
    assert Full(ready) == {};
  }

  lemma NothingQueued(c: Config, l: Lists, l1: L1, l2: L2, key: map<Tcb, Key>, ready: Ready)
    requires ConfigOk(c) && NULL !in key && forall t: Tcb :: t in key ==> Legal(c, key[t])
    requires l.next.Keys == key.Keys && l.prev.Keys == key.Keys && l.queued == map t | t in key :: false
    requires l.queues == (map k | k in LegalKeys(c) :: Queue(NULL, NULL)) && ready == map k | k in LegalKeys(c) :: []
    requires l1 == (map d | d in DomainsOf(c) :: {}) && l2 == map r | r in RowsOf(c) :: {}
    ensures Sound(c, l, l1, l2, key, ready)
  {
    NoneFull(c, l1, l2, ready);
    forall k | k in ready ensures ListedAt(l.next, l.prev, l.queues, ready, k) {
    }
  }

  class ReadyQueues {
    const cfg: Config
    var next: Links
    var prev: Links
    var queued: map<Tcb, bool>
    /** tcbDomain and tcbPriority */
    var key: map<Tcb, Key>
    /** ksReadyQueues, ksReadyQueuesL1Bitmap, ksReadyQueuesL2Bitmap */
    var queues: map<Key, Queue>
    var l1: L1
    var l2: L2
    ghost var ready: Ready

    /** No thread is queued at boot. */
    constructor (cfg: Config, key: map<Tcb, Key>)
      requires ConfigOk(cfg) && NULL !in key && forall t: Tcb :: t in key ==> Legal(cfg, key[t])
      ensures Valid() && this.cfg == cfg && this.key == key && queued == map t | t in key :: false
    {
      this.cfg, this.key := cfg, key;
      next, prev := map t | t in key :: NULL, map t | t in key :: NULL;
      queued := map t | t in key :: false;
      queues := map k | k in LegalKeys(cfg) :: Queue(NULL, NULL);
      ready := map k | k in LegalKeys(cfg) :: [];
      l1 := map d | d in DomainsOf(cfg) :: {};
      l2 := map r | r in RowsOf(cfg) :: {};
      new;
      NothingQueued(cfg, L(), l1, l2, key, ready);
    }

    ghost function L(): Lists
      reads this
    {
      Lists(next, prev, queued, queues)
    }

    ghost predicate Valid()
      reads this
    {
      Sound(cfg, L(), l1, l2, key, ready)
    }

    /** addToBitmap */
    method AddToBitmap(dom: nat, prio: nat, ghost full: set<Key>)
      requires ConfigOk(cfg) && Marks(cfg, l1, l2, full) && Legal(cfg, Key(dom, prio))
      modifies this`l1, this`l2
      ensures Marks(cfg, l1, l2, full + {Key(dom, prio)})
    {
      AddKeeps(cfg, l1, l2, full, Key(dom, prio));
      var l1index := L1Index(prio);
      l1 := l1[dom := OrBit(l1[dom], l1index)];
      l2 := l2[(dom, l1index) := OrBit(l2[(dom, l1index)], L2Index(prio))];
    }

    /** removeFromBitmap */
    method RemoveFromBitmap(dom: nat, prio: nat, ghost full: set<Key>)
      requires ConfigOk(cfg) && Marks(cfg, l1, l2, full) && Key(dom, prio) in full
      modifies this`l1, this`l2
      ensures Marks(cfg, l1, l2, full - {Key(dom, prio)})
    {
      RemoveKeeps(cfg, l1, l2, full, Key(dom, prio));
      var l1index := L1Index(prio);
      l2 := l2[(dom, l1index) := ClearBit(l2[(dom, l1index)], L2Index(prio))];
      if l2[(dom, l1index)] == {} {
        l1 := l1[dom := ClearBit(l1[dom], l1index)];
      }
    }

    /** tcbSchedEnqueue: to the head of the queue its domain and priority name. */
    method SchedEnqueue(tcb: Tcb)
      requires Valid() && tcb in queued
      modifies this
      ensures Valid() && key == old(key) && queued == old(queued)[tcb := true] && tcb in key && key[tcb] in old(ready)
      ensures ready == if !old(queued)[tcb] then old(ready)[key[tcb] := [tcb] + old(ready)[key[tcb]]] else old(ready)
    {
      BothParts(cfg, L(), l1, l2, key, ready);
      KeyKnown(cfg, L(), key, ready, tcb);
      if !queued[tcb] {
        EnqueueFirst(tcb);
      }
    }

    method EnqueueFirst(tcb: Tcb)
      requires Valid() && tcb in queued && !queued[tcb] && tcb in key && key[tcb] in ready && key[tcb] in queues
      modifies this
      ensures Valid() && key == old(key) && L() == PushFront(old(L()), key[tcb], tcb)
      ensures ready == old(ready)[key[tcb] := [tcb] + old(ready)[key[tcb]]]
    {
      ghost var l, r, b1, b2 := L(), ready, l1, l2;
      BeforeLink(cfg, l, b1, b2, key, r, tcb);
      LinkFirst(tcb, key[tcb], Full(ready));
      ready := ready[key[tcb] := [tcb] + ready[key[tcb]]];
      assert L() == PushFront(l, key[tcb], tcb);
      assert ready == r[key[tcb] := [tcb] + r[key[tcb]]];
      PushFrontSound(cfg, l, b1, b2, key, r, tcb, l1, l2);
    }

    method LinkFirst(tcb: Tcb, idx: Key, ghost full: set<Key>)
      requires CanLink(cfg, L(), l1, l2, idx, full)
      modifies this`next, this`prev, this`queues, this`queued, this`l1, this`l2
      ensures L() == PushFront(old(L()), idx, tcb)
      ensures Marks(cfg, l1, l2, if old(queues)[idx].end == NULL then full + {idx} else full)
    {
      var queue := queues[idx];
      if queue.end == NULL {
        queue := queue.(end := tcb);
        AddToBitmap(idx.dom, idx.prio, full);
      } else {
        prev := prev[queue.head := tcb];
      }
      prev := prev[tcb := NULL];
      next := next[tcb := queue.head];
      queue := queue.(head := tcb);
      queues := queues[idx := queue];
      queued := queued[tcb := true];
    }

    /** tcbSchedAppend: to the end of that queue. */
    method SchedAppend(tcb: Tcb)
      requires Valid() && tcb in queued
      modifies this
      ensures Valid() && key == old(key) && queued == old(queued)[tcb := true] && tcb in key && key[tcb] in old(ready)
      ensures ready == if !old(queued)[tcb] then old(ready)[key[tcb] := old(ready)[key[tcb]] + [tcb]] else old(ready)
    {
      BothParts(cfg, L(), l1, l2, key, ready);
      KeyKnown(cfg, L(), key, ready, tcb);
      if !queued[tcb] {
        EnqueueLast(tcb);
      }
    }

    method EnqueueLast(tcb: Tcb)
      requires Valid() && tcb in queued && !queued[tcb] && tcb in key && key[tcb] in ready && key[tcb] in queues
      modifies this
      ensures Valid() && key == old(key) && L() == PushBack(old(L()), key[tcb], tcb)
      ensures ready == old(ready)[key[tcb] := old(ready)[key[tcb]] + [tcb]]
    {
      ghost var l, r, b1, b2 := L(), ready, l1, l2;
      BeforeLink(cfg, l, b1, b2, key, r, tcb);
      LinkLast(tcb, key[tcb], Full(ready));
      ready := ready[key[tcb] := ready[key[tcb]] + [tcb]];
      assert L() == PushBack(l, key[tcb], tcb);
      assert ready == r[key[tcb] := r[key[tcb]] + [tcb]];
      PushBackSound(cfg, l, b1, b2, key, r, tcb, l1, l2);
    }

    method LinkLast(tcb: Tcb, idx: Key, ghost full: set<Key>)
      requires CanLink(cfg, L(), l1, l2, idx, full)
      modifies this`next, this`prev, this`queues, this`queued, this`l1, this`l2
      ensures L() == PushBack(old(L()), idx, tcb)
      ensures Marks(cfg, l1, l2, if old(queues)[idx].head == NULL then full + {idx} else full)
    {
      var queue := queues[idx];
      if queue.head == NULL {
        queue := queue.(head := tcb);
        AddToBitmap(idx.dom, idx.prio, full);
      } else {
        next := next[queue.end := tcb];
      }
      prev := prev[tcb := queue.end];
      next := next[tcb := NULL];
      queue := queue.(end := tcb);
      queues := queues[idx := queue];
      queued := queued[tcb := true];
    }

    /** tcbSchedDequeue */
    method SchedDequeue(tcb: Tcb)
      requires Valid() && tcb in queued
      modifies this
      ensures Valid() && key == old(key) && queued == old(queued)[tcb := false] && tcb in key && key[tcb] in old(ready)
      ensures ready == if old(queued)[tcb] then old(ready)[key[tcb] := Without(old(ready)[key[tcb]], tcb)]
                       else old(ready)
    {
      BothParts(cfg, L(), l1, l2, key, ready);
      KeyKnown(cfg, L(), key, ready, tcb);
      if queued[tcb] {
        Take(tcb);
      }
    }

    method Take(tcb: Tcb)
      requires Valid() && tcb in queued && queued[tcb] && tcb in key && key[tcb] in ready && key[tcb] in queues
      requires tcb in next && tcb in prev
      modifies this
      ensures Valid() && key == old(key) && L() == TakeOut(old(L()), key[tcb], tcb)
      ensures ready == old(ready)[key[tcb] := Without(old(ready)[key[tcb]], tcb)]
    {
      ghost var l, r, b1, b2 := L(), ready, l1, l2;
      BeforeLink(cfg, l, b1, b2, key, r, tcb);
      Unlink(tcb, key[tcb], Full(ready));
      ready := ready[key[tcb] := Without(ready[key[tcb]], tcb)];
      assert L() == TakeOut(l, key[tcb], tcb);
      assert ready == r[key[tcb] := Without(r[key[tcb]], tcb)];
      TakeOutSound(cfg, l, b1, b2, key, r, tcb, l1, l2);
    }

    method Unlink(tcb: Tcb, idx: Key, ghost full: set<Key>)
      requires CanLink(cfg, L(), l1, l2, idx, full) && idx in full && CanUnlink(L(), idx, tcb)
      modifies this`next, this`prev, this`queues, this`queued, this`l1, this`l2
      ensures L() == TakeOut(old(L()), idx, tcb)
      ensures Marks(cfg, l1, l2, if old(prev)[tcb] == NULL && old(next)[tcb] == NULL then full - {idx} else full)
    {
      var queue := queues[idx];
      if prev[tcb] != NULL {
        next := next[prev[tcb] := next[tcb]];
      } else {
        queue := queue.(head := next[tcb]);
        if next[tcb] == NULL {
          RemoveFromBitmap(idx.dom, idx.prio, full);
        }
      }
      if next[tcb] != NULL {
        prev := prev[next[tcb] := prev[tcb]];
      } else {
        queue := queue.(end := prev[tcb]);
      }
      queues := queues[idx := queue];
      queued := queued[tcb := false];
    }

    /** The search of chooseThread: the head of the highest non-empty priority, or NULL when the domain has none. */
    method HeadOfHighest(dom: nat) returns (thread: Tcb)
      requires Valid() && dom < cfg.numDomains
      ensures thread == FirstReady(ready, dom)
    {
      BothParts(cfg, L(), l1, l2, key, ready);
      HighestIsHighest(cfg, l1, l2, Full(ready), dom);
      if l1[dom] != {} {
        var l1index := WORD_BITS - 1 - CLZ(l1[dom]);
        var l2index := WORD_BITS - 1 - CLZ(l2[(dom, l1index)]);
        var prio := L1IndexToPrio(l1index) + l2index;
        EmptyEnds(cfg, L(), key, ready, Key(dom, prio));
        FirstReadyIs(ready, dom, prio);
        thread := queues[Key(dom, prio)].head;
      } else {
        thread := NULL;
      }
    }

    /** The write of tcbDomain and tcbPriority, made while the thread is in no queue. */
    method WriteKey(tcb: Tcb, k: Key)
      requires Valid() && tcb in queued && !queued[tcb] && Legal(cfg, k)
      modifies this`key
      ensures Valid() && key == old(key)[tcb := k]
    {
      BothParts(cfg, L(), l1, l2, key, ready);
      Rekeyed(cfg, L(), key, ready, tcb, k);
      key := key[tcb := k];
    }
  }
}
