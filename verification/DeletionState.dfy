/** What recursive deletion keeps: caps in slots, the objects the slots belong to, and zombies that
    count down an object's remaining slots. All of it on values; Deletion.dfy runs the code on it. */
module DeletionState {
  import opened Basics
  import opened CapOrder

  type Caps = map<Addr, Cap>

  /** The CNodes and TCBs, by base address. */
  type Objects = map<Addr, ZombieType>

  // ---- Objects and their slots ----

  function SlotCount(z: ZombieType): nat {
    match z
    case ZombieTCB => TCB_CNODE_ENTRIES
    case ZombieCNode(r) => Pow2(r)
  }

  /** `&base[i]` */
  function SlotOf(base: Addr, i: nat): Addr {
    base + CTE_SIZE * i
  }

  /** Objects are aligned, do not overlap, and all their slots exist. */
  ghost predicate LaidOut(objs: Objects, slots: set<Addr>) {
    && 0 !in objs && 0 !in slots
    && (forall p :: p in objs ==> HighBits(p, ZombieBits(objs[p]) + 1) == p)
    && (forall p, i: nat {:trigger SlotOf(p, i)} :: p in objs && i < SlotCount(objs[p]) ==> SlotOf(p, i) in slots)
    && (forall p, i: nat, q, j: nat {:trigger SlotOf(p, i), SlotOf(q, j)} ::
          p in objs && i < SlotCount(objs[p]) && q in objs && j < SlotCount(objs[q]) && SlotOf(p, i) == SlotOf(q, j)
          ==> p == q && i == j)
  }

  /** A cap whose finalisation may leave a zombie behind. */
  predicate IsContainer(c: Cap) {
    c.CNode? || c.Thread? || c.Zombie?
  }

  /** The object kind a container cap claims. */
  function ContainerType(c: Cap): ZombieType
    requires IsContainer(c)
  {
    match c
    case CNode(_, r, _) => ZombieCNode(r)
    case Thread(_) => ZombieTCB
    case Zombie(_, z) => z
  }

  ghost predicate RefersRightly(objs: Objects, c: Cap) {
    && (IsContainer(c) ==> CapPtr(c) in objs && objs[CapPtr(c)] == ContainerType(c))
    && (c.Zombie? ==> ZombieNumber(c) <= SlotCount(c.ztype))
    && (c.Untyped? ==> c.blockSize >= 4)
  }

  // ---- The invariant ----

  ghost predicate AllAgree(caps: Caps) {
    forall a, b {:trigger Pair(a, b)} :: a in caps && b in caps && caps[a] != Null && caps[b] != Null ==>
      Agree(caps[a], caps[b])
  }

  /** A zombie is its object's only cap. */
  ghost predicate ZombiesAlone(caps: Caps) {
    forall a, b {:trigger Pair(a, b)} ::
      a in caps && b in caps && a != b && caps[a].Zombie? && SpaceType(caps[b]) == SPACE_TYPED ==>
        CapPtr(caps[b]) != ZombiePtr(caps[a])
  }

  /** Everything past a zombie's number is empty. */
  ghost predicate TailsEmpty(caps: Caps, objs: Objects) {
    forall a, i: nat {:trigger SlotOf(ZombiePtr(caps[a]), i)} ::
      a in caps && caps[a].Zombie? && ZombieNumber(caps[a]) <= i < SlotCount(caps[a].ztype) ==>
        SlotOf(ZombiePtr(caps[a]), i) in caps && caps[SlotOf(ZombiePtr(caps[a]), i)] == Null
  }

  /** Nothing is left in a reclaimed object and nothing points to it. */
  ghost predicate ReclaimedGone(caps: Caps, objs: Objects, reclaimed: set<Addr>) {
    forall p :: p in reclaimed ==>
      && p in objs
      && (forall i: nat :: i < SlotCount(objs[p]) ==> SlotOf(p, i) in caps && caps[SlotOf(p, i)] == Null)
      && (forall a :: a in caps && IsContainer(caps[a]) ==> CapPtr(caps[a]) != p)
  }

  datatype Aspect = Layout | Capabilities | Contents

  ghost predicate InvAt(a: Aspect, caps: Caps, objs: Objects, reclaimed: set<Addr>) {
    match a
    case Layout => LaidOut(objs, caps.Keys) && forall a :: a in caps ==> RefersRightly(objs, caps[a])
    case Capabilities => AllAgree(caps) && ZombiesAlone(caps)
    case Contents => TailsEmpty(caps, objs) && ReclaimedGone(caps, objs, reclaimed)
  }

  /** What every step of deletion keeps. */
  ghost predicate Inv(caps: Caps, objs: Objects, reclaimed: set<Addr>) {
    forall a: Aspect :: InvAt(a, caps, objs, reclaimed)
  }

  lemma InvMeans(caps: Caps, objs: Objects, reclaimed: set<Addr>)
    requires Inv(caps, objs, reclaimed)
    ensures LaidOut(objs, caps.Keys) && (forall a :: a in caps ==> RefersRightly(objs, caps[a]))
    ensures AllAgree(caps) && ZombiesAlone(caps)
    ensures TailsEmpty(caps, objs) && ReclaimedGone(caps, objs, reclaimed)
  {
    assert InvAt(Layout, caps, objs, reclaimed) && InvAt(Capabilities, caps, objs, reclaimed);
    assert InvAt(Contents, caps, objs, reclaimed);
  }

  lemma Agreeing(caps: Caps, objs: Objects, reclaimed: set<Addr>)
    requires Inv(caps, objs, reclaimed)
    ensures AllAgree(caps)
  {
    InvMeans(caps, objs, reclaimed);
  }

  /** No other slot names the object: what cdtIsFinal decides. */
  ghost predicate IsFinal(caps: Caps, slot: Addr)
    requires slot in caps
  {
    forall a :: a in caps && a != slot && caps[a] != Null ==> !SameObjectAs(caps[a], caps[slot])
  }

  // ---- finaliseCap, capRemovable, capCyclicZombie ----

  /** The remainder finaliseCap leaves of a cap. */
  function Remainder(c: Cap, final: bool): Cap {
    match c
    case CNode(p, r, _) => if final then ZombieNew(Pow2(r), ZombieCNode(r), p) else Null
    case Thread(t) => if final then ZombieNew(TCB_CNODE_ENTRIES, ZombieTCB, CapPtr(c)) else Null
    case Zombie(_, _) => c
    case _ => Null
  }

  predicate CapRemovable(c: Cap, slot: Addr)
    requires c.Null? || c.Zombie?
  {
    match c
    case Null => true
    case Zombie(_, _) => ZombieNumber(c) == 0 || (ZombieNumber(c) == 1 && slot == ZombiePtr(c))
  }

  predicate CapCyclicZombie(c: Cap, slot: Addr) {
    c.Zombie? && ZombiePtr(c) == slot
  }

  // ---- The termination measure ----

  /** Container caps that are not zombies sitting in their own object. */
  ghost function Unsettled(caps: Caps): set<Addr> {
    set a | a in caps && IsContainer(caps[a]) && !CapCyclicZombie(caps[a], a)
  }

  ghost function Occupied(caps: Caps): set<Addr> {
    set a | a in caps && caps[a] != Null
  }

  /** What every completed deletion makes smaller. */
  ghost function Weight(caps: Caps): nat {
    |Unsettled(caps)| + |Occupied(caps)|
  }

  /** Steps left before the cap in a slot is an empty zombie, as long as nothing else happens. */
  ghost function StepsLeft(c: Cap): nat {
    if c.Zombie? then ZombieNumber(c) else if IsContainer(c) then SlotCount(ContainerType(c)) + 1 else 0
  }

  // ---- The four steps deletion is made of ----

  lemma NewZombie(c: Cap, objs: Objects)
    requires c.CNode? || c.Thread?
    requires RefersRightly(objs, c) && (forall p :: p in objs ==> HighBits(p, ZombieBits(objs[p]) + 1) == p)
    ensures var z := Remainder(c, true);
      && z.Zombie? && z.ztype == ContainerType(c) && ZombiePtr(z) == CapPtr(c)
      && ZombieNumber(z) == SlotCount(ContainerType(c)) > 0
  {
    var p, t := CapPtr(c), ContainerType(c);
    assert Pow2(4) == 16 by { assert Pow2(2) == 4; }
    ZombieRoundTrip(SlotCount(t), t, p);
  }

  /** A last container cap becomes a zombie for all of its object's slots. */
  lemma ToZombie(caps: Caps, objs: Objects, reclaimed: set<Addr>, slot: Addr)
    requires Inv(caps, objs, reclaimed) && slot in caps && (caps[slot].CNode? || caps[slot].Thread?)
    requires IsFinal(caps, slot)
    ensures var caps' := caps[slot := Remainder(caps[slot], true)];
      && Inv(caps', objs, reclaimed)
      && Unsettled(caps') <= Unsettled(caps) && Occupied(caps') == Occupied(caps)
  {
    InvMeans(caps, objs, reclaimed);
    NewZombie(caps[slot], objs);
    ToZombiePairs(caps, objs, reclaimed, slot);
  }

  lemma ToZombiePairs(caps: Caps, objs: Objects, reclaimed: set<Addr>, slot: Addr)
    requires Inv(caps, objs, reclaimed) && slot in caps && (caps[slot].CNode? || caps[slot].Thread?)
    requires IsFinal(caps, slot)
    ensures InvAt(Capabilities, caps[slot := Remainder(caps[slot], true)], objs, reclaimed)
  {
    InvMeans(caps, objs, reclaimed);
    var c, z := caps[slot], Remainder(caps[slot], true);
    var caps' := caps[slot := z];
    NewZombie(c, objs);
    forall b | b in caps && b != slot && caps[b] != Null && SpaceType(caps[b]) == SPACE_TYPED
      ensures CapPtr(caps[b]) != CapPtr(c)
    {
      assert Pair(b, slot);
    }
    forall a, b | a in caps' && b in caps' && caps'[a] != Null && caps'[b] != Null
      ensures Agree(caps'[a], caps'[b])
    {
      assert Pair(a, b);
    }
    forall a, b | a in caps' && b in caps' && a != b && caps'[a].Zombie? && SpaceType(caps'[b]) == SPACE_TYPED
      ensures CapPtr(caps'[b]) != ZombiePtr(caps'[a])
    {
      assert Pair(a, b);
    }
  }

  ghost function SwapCaps(caps: Caps, a: Addr, b: Addr): Caps
    requires a in caps && b in caps
  {
    caps[a := caps[b]][b := caps[a]]
  }

  /** Moving a zombie into the first slot of its own object settles it. */
  lemma SettleZombie(caps: Caps, objs: Objects, reclaimed: set<Addr>, slot: Addr)
    requires Inv(caps, objs, reclaimed) && slot in caps && caps[slot].Zombie?
    requires !CapRemovable(caps[slot], slot) && !CapCyclicZombie(caps[slot], slot)
    ensures var ptr := ZombiePtr(caps[slot]);
      && ptr in caps && !CapCyclicZombie(caps[ptr], ptr)
      && Inv(SwapCaps(caps, slot, ptr), objs, reclaimed)
      && |Unsettled(SwapCaps(caps, slot, ptr))| < |Unsettled(caps)|
      && |Occupied(SwapCaps(caps, slot, ptr))| == |Occupied(caps)|
  {
    InvMeans(caps, objs, reclaimed);
    var c, ptr := caps[slot], ZombiePtr(caps[slot]);
    assert SlotCount(c.ztype) > 0 && SlotOf(ptr, 0) == ptr;
    assert Pair(slot, ptr) && Pair(ptr, slot);
    var caps' := SwapCaps(caps, slot, ptr);
    SwapKeepsPairs(caps, slot, ptr);
    SwapKeepsTails(caps, objs, reclaimed, slot);
    UnsettledAfterSwap(caps, slot);
    OccupiedAfterSwap(caps, slot);
  }

  lemma SwapKeepsPairs(caps: Caps, x: Addr, y: Addr)
    requires x in caps && y in caps && AllAgree(caps) && ZombiesAlone(caps)
    ensures AllAgree(SwapCaps(caps, x, y)) && ZombiesAlone(SwapCaps(caps, x, y))
  {
    var caps' := SwapCaps(caps, x, y);
    forall a, b | a in caps' && b in caps' && caps'[a] != Null && caps'[b] != Null
      ensures Agree(caps'[a], caps'[b])
    {
      assert Pair(Other(a, x, y), Other(b, x, y));
    }
    forall a, b | a in caps' && b in caps' && a != b && caps'[a].Zombie? && SpaceType(caps'[b]) == SPACE_TYPED
      ensures CapPtr(caps'[b]) != ZombiePtr(caps'[a])
    {
      assert Pair(Other(a, x, y), Other(b, x, y));
    }
  }

  ghost function Other(a: Addr, x: Addr, y: Addr): Addr {
    if a == x then y else if a == y then x else a
  }

  lemma SwapKeepsTails(caps: Caps, objs: Objects, reclaimed: set<Addr>, slot: Addr)
    requires Inv(caps, objs, reclaimed) && slot in caps && caps[slot].Zombie?
    requires ZombieNumber(caps[slot]) > 0 && ZombiePtr(caps[slot]) in caps && ZombiePtr(caps[slot]) != slot
    ensures var caps' := SwapCaps(caps, slot, ZombiePtr(caps[slot]));
      TailsEmpty(caps', objs) && ReclaimedGone(caps', objs, reclaimed)
  {
    InvMeans(caps, objs, reclaimed);
    var c, ptr := caps[slot], ZombiePtr(caps[slot]);
    var caps' := SwapCaps(caps, slot, ptr);
    assert SlotOf(ptr, 0) == ptr;
    forall a, i: nat | a in caps' && caps'[a].Zombie? && ZombieNumber(caps'[a]) <= i < SlotCount(caps'[a].ztype)
      ensures SlotOf(ZombiePtr(caps'[a]), i) in caps' && caps'[SlotOf(ZombiePtr(caps'[a]), i)] == Null
    {
      var o := Other(a, slot, ptr);
      var p := ZombiePtr(caps[o]);
      assert caps[o] == caps'[a] && caps[SlotOf(p, i)] == Null;
      assert Pair(o, slot);
      assert SlotOf(p, i) != SlotOf(ptr, 0);
    }
    forall p, i: nat | p in reclaimed && i < SlotCount(objs[p])
      ensures SlotOf(p, i) in caps' && caps'[SlotOf(p, i)] == Null
    {
      assert SlotOf(p, i) != slot && p != ptr;
      assert SlotOf(p, i) != SlotOf(ptr, 0);
    }
  }

  lemma UnsettledAfterSwap(caps: Caps, slot: Addr)
    requires slot in caps && caps[slot].Zombie? && ZombiePtr(caps[slot]) in caps
    requires ZombiePtr(caps[slot]) != slot && !CapCyclicZombie(caps[ZombiePtr(caps[slot])], ZombiePtr(caps[slot]))
    ensures |Unsettled(SwapCaps(caps, slot, ZombiePtr(caps[slot])))| < |Unsettled(caps)|
  {
    var ptr: Addr := ZombiePtr(caps[slot]);
    var u, u' := Unsettled(caps), Unsettled(SwapCaps(caps, slot, ptr));
    var gone: Addr := if IsContainer(caps[ptr]) then ptr else slot;
    assert gone in u && u' <= u - {gone};
    SubsetSize(u', u - {gone});
  }

  lemma OccupiedAfterSwap(caps: Caps, slot: Addr)
    requires slot in caps && caps[slot].Zombie? && ZombiePtr(caps[slot]) in caps && ZombiePtr(caps[slot]) != slot
    ensures |Occupied(SwapCaps(caps, slot, ZombiePtr(caps[slot])))| == |Occupied(caps)|
  {
    var ptr: Addr := ZombiePtr(caps[slot]);
    var o, o' := Occupied(caps), Occupied(SwapCaps(caps, slot, ptr));
    if caps[ptr] == Null {
      assert o' == o - {slot} + {ptr};
    } else {
      assert o' == o;
    }
  }

  /** A zombie whose last counted slot is empty counts one slot less. */
  lemma CountDown(caps: Caps, objs: Objects, reclaimed: set<Addr>, slot: Addr)
    requires Inv(caps, objs, reclaimed) && slot in caps && caps[slot].Zombie? && ZombieNumber(caps[slot]) > 0
    requires SlotOf(ZombiePtr(caps[slot]), ZombieNumber(caps[slot]) - 1) in caps
    requires caps[SlotOf(ZombiePtr(caps[slot]), ZombieNumber(caps[slot]) - 1)] == Null
    ensures var z := ZombieSetNumber(caps[slot], ZombieNumber(caps[slot]) - 1);
      && z.ztype == caps[slot].ztype && ZombiePtr(z) == ZombiePtr(caps[slot])
      && ZombieNumber(z) == ZombieNumber(caps[slot]) - 1 && CapsEqual(caps[slot], z)
      && Inv(caps[slot := z], objs, reclaimed)
      && Unsettled(caps[slot := z]) == Unsettled(caps) && Occupied(caps[slot := z]) == Occupied(caps)
  {
    InvMeans(caps, objs, reclaimed);
    var c, n := caps[slot], ZombieNumber(caps[slot]) - 1;
    var z := ZombieSetNumber(c, n);
    assert Pow2(4) == 16 by { assert Pow2(2) == 4; }
    ZombieCountDown(c, n);
    var caps' := caps[slot := z];
    forall a, b | a in caps' && b in caps' && caps'[a] != Null && caps'[b] != Null
      ensures Agree(caps'[a], caps'[b])
    {
      assert Pair(a, b);
    }
    forall a, b | a in caps' && b in caps' && a != b && caps'[a].Zombie? && SpaceType(caps'[b]) == SPACE_TYPED
      ensures CapPtr(caps'[b]) != ZombiePtr(caps'[a])
    {
      assert Pair(a, b);
    }
    forall a, i: nat | a in caps' && caps'[a].Zombie? && ZombieNumber(caps'[a]) <= i < SlotCount(caps'[a].ztype)
      ensures SlotOf(ZombiePtr(caps'[a]), i) in caps' && caps'[SlotOf(ZombiePtr(caps'[a]), i)] == Null
    {
      assert SlotOf(ZombiePtr(caps[a]), i) in caps;
    }
  }

  /** What finaliseCap would leave of the cap in a slot may be dropped. */
  ghost predicate MayDrop(caps: Caps, slot: Addr)
    requires slot in caps
  {
    CapRemovable(Remainder(caps[slot], caps[slot].Zombie? || IsFinal(caps, slot)), slot)
  }

  /** The object reclaimed by emptying a slot: a zombie's, or that of a CNode whose only slot holds its last cap. */
  ghost function Reclaims(caps: Caps, slot: Addr): set<Addr>
    requires slot in caps
  {
    if caps[slot].Zombie? || (IsContainer(caps[slot]) && IsFinal(caps, slot) && MayDrop(caps, slot)) then
      {CapPtr(caps[slot])}
    else {}
  }

  /** A reclaimed object has no other cap and no slot that is in use but the one being emptied. */
  lemma ReclaimedAlone(caps: Caps, objs: Objects, reclaimed: set<Addr>, slot: Addr, p: Addr)
    requires Inv(caps, objs, reclaimed) && slot in caps && p in Reclaims(caps, slot)
    requires caps[slot].Zombie? ==> CapRemovable(caps[slot], slot)
    ensures p in objs && p == CapPtr(caps[slot]) && IsContainer(caps[slot])
    ensures forall i: nat :: i < SlotCount(objs[p]) ==>
      SlotOf(p, i) in caps && (SlotOf(p, i) == slot || caps[SlotOf(p, i)] == Null)
    ensures forall a :: a in caps && a != slot && IsContainer(caps[a]) ==> CapPtr(caps[a]) != p
  {
    InvMeans(caps, objs, reclaimed);
    var c := caps[slot];
    assert RefersRightly(objs, c);
    assert SlotOf(p, 0) == p;
    if !c.Zombie? { NewZombie(c, objs); }
    forall i: nat | i < SlotCount(objs[p])
      ensures SlotOf(p, i) in caps && (SlotOf(p, i) == slot || caps[SlotOf(p, i)] == Null)
    {
    }
    forall a | a in caps && a != slot && IsContainer(caps[a]) ensures CapPtr(caps[a]) != p {
      assert Pair(slot, a) && Pair(a, slot);
    }
  }

  /** Emptying a slot; a zombie goes only when nothing else is left in its object. */
  lemma Emptied(caps: Caps, objs: Objects, reclaimed: set<Addr>, slot: Addr)
    requires Inv(caps, objs, reclaimed) && slot in caps
    requires caps[slot].Zombie? ==> CapRemovable(caps[slot], slot)
    ensures Inv(caps[slot := Null], objs, reclaimed + Reclaims(caps, slot))
    ensures Unsettled(caps[slot := Null]) <= Unsettled(caps)
    ensures Occupied(caps[slot := Null]) == Occupied(caps) - {slot}
  {
    InvMeans(caps, objs, reclaimed);
    var c := caps[slot];
    var caps' := caps[slot := Null];
    forall a, b | a in caps' && b in caps' && caps'[a] != Null && caps'[b] != Null
      ensures Agree(caps'[a], caps'[b])
    {
      assert Pair(a, b);
    }
    forall a, b | a in caps' && b in caps' && a != b && caps'[a].Zombie? && SpaceType(caps'[b]) == SPACE_TYPED
      ensures CapPtr(caps'[b]) != ZombiePtr(caps'[a])
    {
      assert Pair(a, b);
    }
    if Reclaims(caps, slot) != {} {
      ReclaimedAlone(caps, objs, reclaimed, slot, CapPtr(c));
    }
  }
}
