/** Who waits where, and who owes whom a reply: the invariants of the IPC objects
    (endpoint.c, asyncendpoint.c, tcb.c). */
module IpcState {
  import opened LinkedQueue
  import opened PriorityBitmap
  import opened SchedulerState

  type States = map<Tcb, ThreadState>

  // ---- Queues of waiting threads ----

  datatype Obj = Endpoint(address: nat) | AsyncEndpoint(address: nat)

  /** EPState and AEPState; an active asynchronous endpoint holds the badges that arrived. */
  datatype ObjState = Idle | Send | Recv | Waiting | Active(msgIdentifier: Word)

  /** Endpoints queue senders or receivers; asynchronous endpoints queue waiters or hold badges. */
  predicate Fits(o: Obj, os: ObjState) {
    match os
    case Idle => true
    case Send => o.Endpoint?
    case Recv => o.Endpoint?
    case Waiting => o.AsyncEndpoint?
    case Active(_) => o.AsyncEndpoint?
  }

  predicate Queueing(os: ObjState) {
    os.Send? || os.Recv? || os.Waiting?
  }

  /** The state of the object a thread in state `ts` waits for; Idle when it waits for none. */
  function WaitState(ts: ThreadState): ObjState {
    match ts
    case BlockedOnSend => Send
    case BlockedOnReceive => Recv
    case BlockedOnAsyncEvent => Waiting
    case _ => Idle
  }

  predicate Waits(ts: ThreadState) {
    WaitState(ts) != Idle
  }

  /** tcbEPNext, tcbEPPrev and blockingIPCEndpoint of the threads; queue and state of the objects; `waiting` is what
      the queues hold. */
  datatype Queues = Queues(next: Links, prev: Links, at: map<Tcb, Obj>,
                           queues: map<Obj, Queue>, state: map<Obj, ObjState>, waiting: map<Obj, seq<Tcb>>)

  ghost predicate TcbAt(q: Queues, st: States, t: Tcb) {
    && (t in st && Waits(st[t]) ==>
          t in q.at && q.at[t] in q.waiting && t in q.waiting[q.at[t]]
          && q.at[t] in q.state && q.state[q.at[t]] == WaitState(st[t]))
    && (forall o :: o in q.waiting && t in q.waiting[o] ==> t in st && Waits(st[t]) && t in q.at && q.at[t] == o)
  }

  ghost predicate ObjAt(q: Queues, o: Obj) {
    && (o in q.state <==> o in q.waiting)
    && (o in q.state ==> o in q.queues && Fits(o, q.state[o]) && (q.waiting[o] == [] <==> !Queueing(q.state[o])))
  }

  /** An object is idle exactly when its queue is empty, and otherwise holds exactly the threads blocked on it. */
  ghost predicate Consistent(q: Queues, st: States) {
    && Listed(q.next, q.prev, q.queues, q.waiting)
    && (forall t: Tcb :: TcbAt(q, st, t))
    && (forall o :: ObjAt(q, o))
    && NULL !in st
  }

  lemma ConsistentMeans(q: Queues, st: States, o: Obj)
    requires Consistent(q, st) && o in q.waiting
    ensures o in q.state && (q.waiting[o] == [] <==> !Queueing(q.state[o])) && Distinct(q.waiting[o])
    ensures forall t: Tcb ::
      t in q.waiting[o] <==> t in st && Waits(st[t]) && t in q.at && q.at[t] == o && WaitState(st[t]) == q.state[o]
  {
    assert ObjAt(q, o) && ListedAt(q.next, q.prev, q.queues, q.waiting, o);
    forall t: Tcb
      ensures t in q.waiting[o] <==>
        t in st && Waits(st[t]) && t in q.at && q.at[t] == o && WaitState(st[t]) == q.state[o]
    {
      assert TcbAt(q, st, t);
    }
  }

  lemma QueuesApart(q: Queues, st: States, o: Obj, t: Tcb)
    requires Consistent(q, st) && o in q.waiting && (t in q.waiting[o] || (t in st && !Waits(st[t])))
    ensures forall k :: k in q.waiting && k != o ==> Apart(q.waiting[k], q.waiting[o], t)
  {
    forall k | k in q.waiting && k != o ensures Apart(q.waiting[k], q.waiting[o], t) {
      forall u: Tcb | u in q.waiting[k] ensures u != t && u !in q.waiting[o] {
        assert TcbAt(q, st, u);
      }
    }
  }

  // ---- Joining and leaving a queue ----

  /** The thread at the end of the object's queue; nothing happens at an object without one. */
  ghost function Joined(q: Queues, t: Tcb, o: Obj, os: ObjState): Queues {
    if o !in q.queues || o !in q.waiting then q
    else
      Queues(AppendNext(q.next, q.queues[o], t), q.prev[t := q.queues[o].end], q.at[t := o],
             q.queues[o := AppendQueue(q.queues[o], t)], q.state[o := os], q.waiting[o := q.waiting[o] + [t]])
  }

  lemma JoinedLists(q: Queues, st: States, t: Tcb, o: Obj, os: ObjState)
    requires Consistent(q, st) && t in st && !Waits(st[t]) && o in q.waiting && o in q.queues
    ensures var q' := Joined(q, t, o, os); Listed(q'.next, q'.prev, q'.queues, q'.waiting)
  {
    assert ListedAt(q.next, q.prev, q.queues, q.waiting, o);
    assert TcbAt(q, st, t);
    var s := q.waiting[o];
    Appended(q.next, q.prev, q.queues[o], s, t);
    AppendLeaves(q.next, q.prev, q.queues[o], s, t);
    QueuesApart(q, st, o, t);
    OthersHold(q.next, q.prev, q.queues, q.waiting, AppendNext(q.next, q.queues[o], t), q.prev[t := q.queues[o].end],
               o, AppendQueue(q.queues[o], t), s + [t], t);
  }

  /** A thread blocks at the end of the object's queue. */
  lemma Joins(q: Queues, st: States, t: Tcb, o: Obj, ts: ThreadState)
    requires Consistent(q, st) && t in st && !Waits(st[t]) && o in q.waiting && Waits(ts)
    requires o in q.state && (q.state[o] == Idle || q.state[o] == WaitState(ts)) && Fits(o, WaitState(ts))
    ensures o in q.queues && Consistent(Joined(q, t, o, WaitState(ts)), st[t := ts])
  {
    assert ObjAt(q, o);
    JoinedLists(q, st, t, o, WaitState(ts));
    var q', st' := Joined(q, t, o, WaitState(ts)), st[t := ts];
    forall u: Tcb ensures TcbAt(q', st', u) {
      assert TcbAt(q, st, u) && TcbAt(q, st, t);
      if u in st && Waits(st[u]) && q.at[u] == o {
        assert q.waiting[o] != [];
      }
    }
    forall k ensures ObjAt(q', k) {
      assert ObjAt(q, k);
    }
  }

  /** The thread out of the object's queue; nothing happens to a thread without links. */
  ghost function Left(q: Queues, t: Tcb, o: Obj): Queues {
    if o !in q.queues || o !in q.waiting || o !in q.state || t !in q.next || t !in q.prev then q
    else
      var rest := Without(q.waiting[o], t);
      Queues(RemoveNext(q.next, q.prev, t), RemovePrev(q.next, q.prev, t), q.at,
             q.queues[o := RemoveQueue(q.next, q.prev, q.queues[o], t)],
             if rest == [] then q.state[o := Idle] else q.state, q.waiting[o := rest])
  }

  lemma LeftLists(q: Queues, st: States, t: Tcb, o: Obj)
    requires Consistent(q, st) && o in q.waiting && t in q.waiting[o]
    ensures t in q.next && t in q.prev && o in q.queues && o in q.state
    ensures q.next[t] != t && q.prev[t] != t
    ensures var q' := Left(q, t, o); Listed(q'.next, q'.prev, q'.queues, q'.waiting)
    ensures o in Left(q, t, o).queues && (Left(q, t, o).queues[o].head == NULL <==> Without(q.waiting[o], t) == [])
  {
    assert ObjAt(q, o) && ListedAt(q.next, q.prev, q.queues, q.waiting, o);
    var s := q.waiting[o];
    Neighbours(q.next, q.prev, q.queues[o], s, t);
    Removed(q.next, q.prev, q.queues[o], s, t);
    RemoveLeaves(q.next, q.prev, q.queues[o], s, t);
    QueuesApart(q, st, o, t);
    var n, p, r := RemoveNext(q.next, q.prev, t), RemovePrev(q.next, q.prev, t),
      RemoveQueue(q.next, q.prev, q.queues[o], t);
    Ends(n, p, r, Without(s, t));
    OthersHold(q.next, q.prev, q.queues, q.waiting, n, p, o, r, Without(s, t), t);
  }

  /** A thread that waits leaves its queue. */
  ghost function Withdrawn(q: Queues, st: States, t: Tcb): Queues {
    if t in st && Waits(st[t]) && t in q.at then Left(q, t, q.at[t]) else q
  }

  /** A thread leaves the queue it waits in, and the object goes idle with its last one. */
  lemma Leaves(q: Queues, st: States, t: Tcb, ts: ThreadState)
    requires Consistent(q, st) && t in st && Waits(st[t]) && !Waits(ts)
    ensures t in q.at && t in q.next && t in q.prev
    ensures var o := q.at[t]; o in q.queues && o in q.waiting && o in q.state && Consistent(Left(q, t, o), st[t := ts])
  {
    assert TcbAt(q, st, t);
    var o := q.at[t];
    LeftLists(q, st, t, o);
    var q', st' := Left(q, t, o), st[t := ts];
    forall u: Tcb ensures TcbAt(q', st', u) {
      assert TcbAt(q, st, u);
      if u != t && u in st && Waits(st[u]) && q.at[u] == o {
        assert u in Without(q.waiting[o], t);
      }
    }
    forall k ensures ObjAt(q', k) {
      assert ObjAt(q, k);
    }
  }

  /** Threads that wait for nothing may change state freely. */
  lemma Frees(q: Queues, st: States, t: Tcb, ts: ThreadState)
    requires Consistent(q, st) && t in st && !Waits(st[t]) && !Waits(ts)
    ensures Consistent(q, st[t := ts])
  {
    var st' := st[t := ts];
    forall u: Tcb ensures TcbAt(q, st', u) {
      assert TcbAt(q, st, u);
    }
  }

  ghost function Emptied(q: Queues, o: Obj): Queues {
    q.(queues := q.queues[o := Queue(NULL, NULL)], state := q.state[o := Idle], waiting := q.waiting[o := []])
  }

  /** All threads waiting for the object are set free at once. */
  lemma Empties(q: Queues, st: States, o: Obj, st': States)
    requires Consistent(q, st) && o in q.waiting && st'.Keys == st.Keys
    requires forall t: Tcb :: t in st ==> if t in q.waiting[o] then !Waits(st'[t]) else st'[t] == st[t]
    ensures Consistent(Emptied(q, o), st')
  {
    var q' := Emptied(q, o);
    forall k | k in q'.waiting ensures ListedAt(q'.next, q'.prev, q'.queues, q'.waiting, k) {
      assert k != o ==> ListedAt(q.next, q.prev, q.queues, q.waiting, k);
    }
    forall u: Tcb ensures TcbAt(q', st', u) {
      assert TcbAt(q, st, u);
    }
    forall k ensures ObjAt(q', k) {
      assert ObjAt(q, k);
    }
  }

  /** Badges arrive at, or are taken from, an object nobody waits for. */
  lemma Switches(q: Queues, st: States, o: Obj, os: ObjState)
    requires Consistent(q, st) && o in q.state && !Queueing(q.state[o]) && !Queueing(os) && Fits(o, os)
    ensures Consistent(q.(state := q.state[o := os]), st)
  {
    var q' := q.(state := q.state[o := os]);
    forall u: Tcb ensures TcbAt(q', st, u) {
      assert TcbAt(q, st, u) && ObjAt(q, o);
    }
    forall k ensures ObjAt(q', k) {
      assert ObjAt(q, k);
    }
  }

  // ---- Badges ----

  /** The badges an object holds for whoever asks next. */
  ghost function Pending(state: map<Obj, ObjState>, o: Obj): Word {
    if o in state && state[o].Active? then state[o].msgIdentifier else {}
  }

  ghost function Total(badges: map<Obj, Word>, o: Obj): Word {
    if o in badges then badges[o] else {}
  }

  /** Nothing sent is lost and nothing is made up: what was sent is what was delivered or is still held. */
  ghost predicate Conserved(state: map<Obj, ObjState>, sent: map<Obj, Word>, delivered: map<Obj, Word>) {
    forall o :: ConservedAt(state, sent, delivered, o)
  }

  ghost predicate ConservedAt(state: map<Obj, ObjState>, sent: map<Obj, Word>, delivered: map<Obj, Word>, o: Obj) {
    Total(sent, o) == Total(delivered, o) + Pending(state, o)
  }

  /** Queues may change as long as no object starts or stops holding badges. */
  lemma StillConserved(state: map<Obj, ObjState>, state': map<Obj, ObjState>, sent: map<Obj, Word>,
                       delivered: map<Obj, Word>)
    requires Conserved(state, sent, delivered)
    requires forall o :: Pending(state', o) == Pending(state, o)
    ensures Conserved(state', sent, delivered)
  {
    forall o ensures ConservedAt(state', sent, delivered, o) {
      assert ConservedAt(state, sent, delivered, o) && Pending(state', o) == Pending(state, o);
    }
  }

  /** Joining, leaving and emptying a queue neither lose nor make up a badge. */
  lemma QueuesConserve(q: Queues, q': Queues, o: Obj, sent: map<Obj, Word>, delivered: map<Obj, Word>)
    requires Conserved(q.state, sent, delivered) && o in q.state && !q.state[o].Active?
    requires q'.state == q.state || (o in q'.state && !q'.state[o].Active? && q'.state == q.state[o := q'.state[o]])
    ensures Conserved(q'.state, sent, delivered)
  {
    forall k ensures Pending(q'.state, k) == Pending(q.state, k) {
    }
    StillConserved(q.state, q'.state, sent, delivered);
  }

  // ---- Reply links ----

  /** A place for a capability: the caller slot of a thread, or a slot of some CNode. */
  datatype Cte = CallerSlot(tcb: Tcb) | CNodeSlot(address: nat)

  /** `master`: the reply slot holds a master reply cap; `caller`: it records this caller slot;
      `caps`: the slots that hold a reply cap, with its thread. */
  datatype Replies = Replies(master: set<Tcb>, caller: map<Tcb, Cte>, caps: map<Cte, Tcb>)

  ghost predicate LinkAt(r: Replies, st: States, t: Tcb) {
    && (t in r.caller ==>
          t in r.master && r.caller[t] in r.caps && r.caps[r.caller[t]] == t && t in st && st[t] == BlockedOnReply)
    && (t in st && st[t] != Inactive && st[t] != IdleThreadState ==> t in r.master)
    && (t in st && st[t] == BlockedOnReceive ==> CallerSlot(t) !in r.caps)
  }

  ghost predicate CapAt(r: Replies, c: Cte) {
    c in r.caps ==> r.caps[c] in r.caller && r.caller[r.caps[c]] == c
  }

  /** A slot holds a reply cap to a thread exactly when the thread's reply slot records it; only a thread blocked on
      its reply has one, and whoever waits to receive has room for one. */
  ghost predicate Paired(r: Replies, st: States) {
    && (forall t: Tcb :: LinkAt(r, st, t))
    && (forall c :: CapAt(r, c))
  }

  lemma Bijection(r: Replies, st: States)
    requires Paired(r, st)
    ensures forall c, t: Tcb :: (c in r.caps && r.caps[c] == t) <==> (t in r.caller && r.caller[t] == c)
  {
    forall c, t: Tcb ensures (c in r.caps && r.caps[c] == t) <==> (t in r.caller && r.caller[t] == c) {
      assert LinkAt(r, st, t) && CapAt(r, c);
    }
  }

  /** setupCallerCap */
  ghost function Owed(r: Replies, sender: Tcb, receiver: Tcb): Replies {
    r.(caller := r.caller[sender := CallerSlot(receiver)], caps := r.caps[CallerSlot(receiver) := sender])
  }

  lemma OwedKeeps(r: Replies, st: States, sender: Tcb, receiver: Tcb)
    requires Paired(r, st) && sender in st && receiver in st && sender != receiver
    requires st[sender] != BlockedOnReply && st[sender] != Inactive && st[sender] != IdleThreadState
    requires CallerSlot(receiver) !in r.caps && st[receiver] != BlockedOnReceive
    ensures sender in r.master && sender !in r.caller
    ensures Paired(Owed(r, sender, receiver), st[sender := BlockedOnReply])
  {
    var r', st' := Owed(r, sender, receiver), st[sender := BlockedOnReply];
    assert LinkAt(r, st, sender);
    forall t: Tcb ensures LinkAt(r', st', t) {
      assert LinkAt(r, st, t);
    }
    forall c ensures CapAt(r', c) {
      assert CapAt(r, c);
    }
  }

  /** The reply cap in the slot goes, and with it the record of the slot. */
  ghost function Paid(r: Replies, c: Cte): Replies
    requires c in r.caps
  {
    r.(caller := r.caller - {r.caps[c]}, caps := r.caps - {c})
  }

  lemma PaidKeeps(r: Replies, st: States, c: Cte)
    requires Paired(r, st) && c in r.caps
    ensures Paired(Paid(r, c), st) && r.caps[c] in st && st[r.caps[c]] == BlockedOnReply
  {
    var r', t := Paid(r, c), r.caps[c];
    assert CapAt(r, c) && LinkAt(r, st, t);
    forall u: Tcb ensures LinkAt(r', st, u) {
      assert LinkAt(r, st, u);
    }
    forall d ensures CapAt(r', d) {
      assert CapAt(r, d);
    }
  }

  /** The reply cap in the slot goes, if there is one. */
  ghost function Dropped(r: Replies, c: Cte): Replies {
    if c in r.caps then Paid(r, c) else r
  }

  /** The reply cap to the thread goes, wherever it is. */
  ghost function Forgiven(r: Replies, t: Tcb): Replies {
    if t in r.caller then Dropped(r, r.caller[t]) else r
  }

  /** cteMove of a reply cap. */
  ghost function Moved(r: Replies, src: Cte, dest: Cte): Replies
    requires src in r.caps
  {
    r.(caller := r.caller[r.caps[src] := dest], caps := (r.caps - {src})[dest := r.caps[src]])
  }

  lemma MovedKeeps(r: Replies, st: States, src: Cte, dest: Cte)
    requires Paired(r, st) && src in r.caps && dest !in r.caps
    requires dest.CallerSlot? ==> !(dest.tcb in st && st[dest.tcb] == BlockedOnReceive)
    ensures Paired(Moved(r, src, dest), st)
  {
    var r', t := Moved(r, src, dest), r.caps[src];
    assert CapAt(r, src) && LinkAt(r, st, t);
    forall u: Tcb ensures LinkAt(r', st, u) {
      assert LinkAt(r, st, u);
    }
    forall d ensures CapAt(r', d) {
      assert CapAt(r, d);
    }
  }

  /** A thread without a reply outstanding changes state. */
  lemma StateKeepsPairs(r: Replies, st: States, t: Tcb, ts: ThreadState)
    requires Paired(r, st) && t in st && t !in r.caller
    requires ts != Inactive && ts != IdleThreadState ==> t in r.master
    requires ts == BlockedOnReceive ==> CallerSlot(t) !in r.caps
    ensures Paired(r, st[t := ts])
  {
    var st' := st[t := ts];
    forall u: Tcb ensures LinkAt(r, st', u) {
      assert LinkAt(r, st, u);
    }
    forall c ensures CapAt(r, c) {
    }
  }

  /** setupReplyMaster */
  lemma MasterKeeps(r: Replies, st: States, t: Tcb)
    requires Paired(r, st)
    ensures Paired(r.(master := r.master + {t}), st)
  {
    var r' := r.(master := r.master + {t});
    forall u: Tcb ensures LinkAt(r', st, u) {
      assert LinkAt(r, st, u);
    }
    forall c ensures CapAt(r', c) {
      assert CapAt(r, c);
    }
  }

  // ---- Bindings ----

  /** boundAsyncEndpoint of the threads and aepBoundTCB of the asynchronous endpoints. */
  datatype Bindings = Bindings(aep: map<Tcb, Obj>, tcb: map<Obj, Tcb>)

  function Bind(b: Bindings, t: Tcb, o: Obj): Bindings {
    Bindings(b.aep[t := o], b.tcb[o := t])
  }

  function Unbind(b: Bindings, t: Tcb): Bindings {
    if t in b.aep then Bindings(b.aep - {t}, b.tcb - {b.aep[t]}) else b
  }

  /** What each side says the other side confirms. */
  ghost predicate Mutual(b: Bindings) {
    && (forall t: Tcb :: t in b.aep ==> b.aep[t] in b.tcb && b.tcb[b.aep[t]] == t)
    && (forall o :: o in b.tcb ==> b.tcb[o] in b.aep && b.aep[b.tcb[o]] == o)
  }

  /** decodeBindAEP refuses a thread that is bound; what it would also have to refuse is an endpoint that is. */
  lemma BindKeeps(b: Bindings, t: Tcb, o: Obj)
    requires Mutual(b) && t !in b.aep
    ensures Mutual(Bind(b, t, o)) <==> o !in b.tcb
  {
    if o in b.tcb {
      assert b.tcb[o] in Bind(b, t, o).aep && b.tcb[o] != t;
    }
  }

  lemma UnbindKeeps(b: Bindings, t: Tcb)
    requires Mutual(b)
    ensures Mutual(Unbind(b, t)) && t !in Unbind(b, t).aep
    ensures forall o :: o in Unbind(b, t).tcb ==> Unbind(b, t).tcb[o] != t
  {
  }
}
