/** What a deletion leaves alone: slots nobody can reach any more through the objects that are taken apart (cnode.c). */
module Shelter {
  import opened Basics
  import opened CapOrder
  import opened DeletionState

  predicate Names(c: Cap, p: Addr) {
    IsContainer(c) && CapPtr(c) == p
  }

  /** A cap that cannot go without leaving a zombie, or a zombie that still counts a slot. */
  predicate Lasting(c: Cap) {
    IsContainer(c) && (c.Zombie? ==> ZombieNumber(c) > 0)
  }

  /** A zombie in the first slot of its own object, with slots left to count. */
  predicate Home(c: Cap, z: Addr) {
    CapCyclicZombie(c, z) && Lasting(c)
  }

  /** Every slot as it was, emptied, or with a zombie come home. */
  ghost predicate Steady(c0: Caps, c1: Caps) {
    c1.Keys == c0.Keys && forall z :: z in c0 ==> c1[z] == c0[z] || c1[z] == Null || Home(c1[z], z)
  }

  ghost predicate NamedAt(caps: Caps, p: Addr) {
    exists y :: y in caps && Names(caps[y], p)
  }

  ghost predicate LastingAt(caps: Caps, p: Addr) {
    exists y :: y in caps && Names(caps[y], p) && Lasting(caps[y])
  }

  /** One of the slots holds a cap to the object. */
  ghost predicate HeldBy(caps: Caps, keep: set<Addr>, p: Addr) {
    exists y :: y in keep && y in caps && Names(caps[y], p)
  }

  // ---- Guarded slots and objects ----

  /** Slots whose caps are to stay, and the objects that must not be taken apart for that. */
  datatype Guard = Guard(keep: set<Addr>, objects: set<Addr>)

  ghost predicate SlotIn(objs: Objects, p: Addr, e: Addr) {
    p in objs && exists i: nat :: i < SlotCount(objs[p]) && SlotOf(p, i) == e
  }

  /** The object of every slot to be kept is guarded, and where the slot is the object's first one, a slot to be kept
      holds a cap to it: no zombie will be moved into it. */
  ghost predicate Guards(g: Guard, caps: Caps, objs: Objects) {
    && g.keep <= caps.Keys
    && (forall p, k :: k in g.keep && SlotIn(objs, p, k) ==> p in g.objects)
    && (forall p :: p in g.objects && p in g.keep ==> HeldBy(caps, g.keep, p))
  }

  /** Where an unexposed deletion may start: outside all that is guarded. */
  ghost predicate Outside(g: Guard, objs: Objects, e: Addr) {
    e !in g.keep && forall p :: p in g.objects ==> !SlotIn(objs, p, e)
  }

  /** Where an exposed one may: it takes the object apart that the cap names, and may end up doing the same to the
      object whose first slot it is. */
  ghost predicate Expendable(g: Guard, caps: Caps, c: Addr) {
    && c in caps && c !in g.keep
    && (IsContainer(caps[c]) ==> CapPtr(caps[c]) !in g.objects && (c in g.objects ==> HeldBy(caps, g.keep, c)))
  }

  ghost predicate MayStart(g: Guard, caps: Caps, objs: Objects, slot: Addr, exposed: bool) {
    slot in caps && if exposed then Expendable(g, caps, slot) else Outside(g, objs, slot)
  }

  /** Guarded slots keep their caps, and guarded objects a cap. */
  ghost predicate Spared(g: Guard, c0: Caps, c1: Caps) {
    && c1.Keys == c0.Keys
    && (forall k :: k in g.keep && k in c0 ==> c1[k] == c0[k])
    && (forall p :: p in g.objects && LastingAt(c0, p) ==> LastingAt(c1, p))
  }

  ghost predicate Ready(g: Guard, caps: Caps, objs: Objects, slot: Addr, exposed: bool) {
    Guards(g, caps, objs) && MayStart(g, caps, objs, slot, exposed)
  }

  lemma GuardsStay(g: Guard, c0: Caps, c1: Caps, objs: Objects)
    requires Guards(g, c0, objs) && Spared(g, c0, c1)
    ensures Guards(g, c1, objs)
    ensures forall p :: HeldBy(c0, g.keep, p) ==> HeldBy(c1, g.keep, p)
  {
    forall p | HeldBy(c0, g.keep, p) ensures HeldBy(c1, g.keep, p) {
      var y :| y in g.keep && y in c0 && Names(c0[y], p);
      assert c1[y] == c0[y];
    }
  }

  lemma SparedTwice(g: Guard, c0: Caps, c1: Caps, c2: Caps)
    requires Spared(g, c0, c1) && Spared(g, c1, c2)
    ensures Spared(g, c0, c2)
  {
  }

  /** An unexposed deletion starts in the same place throughout. */
  lemma OutsideStays(g: Guard, c0: Caps, c1: Caps, objs: Objects, e: Addr)
    requires Ready(g, c0, objs, e, false) && Spared(g, c0, c1)
    ensures Ready(g, c1, objs, e, false)
  {
    GuardsStay(g, c0, c1, objs);
  }

  lemma OneObject(objs: Objects, slots: set<Addr>, p: Addr, x: Addr, e: Addr)
    requires LaidOut(objs, slots) && SlotIn(objs, p, e) && SlotIn(objs, x, e)
    ensures p == x
  {
    var i: nat :| i < SlotCount(objs[p]) && SlotOf(p, i) == e;
    var j: nat :| j < SlotCount(objs[x]) && SlotOf(x, j) == e;
    assert SlotOf(p, i) == SlotOf(x, j);
  }

  /** The slots of an unguarded object are outside all that is guarded. */
  lemma EndSlotOutside(g: Guard, caps: Caps, objs: Objects, slots: set<Addr>, x: Addr, i: nat)
    requires LaidOut(objs, slots) && Guards(g, caps, objs) && x in objs && x !in g.objects && i < SlotCount(objs[x])
    ensures Outside(g, objs, SlotOf(x, i))
  {
    var e := SlotOf(x, i);
    assert SlotIn(objs, x, e);
    forall p | SlotIn(objs, p, e) ensures p == x {
      OneObject(objs, slots, p, x, e);
    }
  }

  // ---- What no step of a deletion does ----

  ghost predicate NoNewLasting(c0: Caps, c1: Caps) {
    forall p :: LastingAt(c1, p) ==> LastingAt(c0, p)
  }

  /** Every object has a cap to it, or has been reclaimed. */
  ghost predicate AllNamed(caps: Caps, objs: Objects, reclaimed: set<Addr>) {
    forall p :: p in objs ==> p in reclaimed || NamedAt(caps, p)
  }

  // ---- The four steps ----

  /** Writing another cap to the same object. */
  lemma RelabelNames(c0: Caps, slot: Addr, z: Cap)
    requires slot in c0 && IsContainer(c0[slot]) && IsContainer(z) && CapPtr(z) == CapPtr(c0[slot]) && Lasting(c0[slot])
    ensures NoNewLasting(c0, c0[slot := z])
    ensures forall p :: NamedAt(c0, p) ==> NamedAt(c0[slot := z], p)
    ensures forall p :: LastingAt(c0, p) && (Lasting(z) || p != CapPtr(z)) ==> LastingAt(c0[slot := z], p)
  {
    var c1 := c0[slot := z];
    forall p | LastingAt(c1, p) ensures LastingAt(c0, p) {
      var y :| y in c1 && Names(c1[y], p) && Lasting(c1[y]);
      assert y in c0 && Names(c0[y], p) && Lasting(c0[y]);
    }
    forall p | NamedAt(c0, p) ensures NamedAt(c1, p) {
      var y :| y in c0 && Names(c0[y], p);
      assert Names(c1[y], p);
    }
    forall p | LastingAt(c0, p) && (Lasting(z) || p != CapPtr(z)) ensures LastingAt(c1, p) {
      var y :| y in c0 && Names(c0[y], p) && Lasting(c0[y]);
      assert Names(c1[y], p) && Lasting(c1[y]);
    }
  }

  lemma SwapNames(c0: Caps, a: Addr, b: Addr)
    requires a in c0 && b in c0
    ensures NoNewLasting(c0, SwapCaps(c0, a, b))
    ensures forall p :: NamedAt(c0, p) ==> NamedAt(SwapCaps(c0, a, b), p)
    ensures forall p :: LastingAt(c0, p) ==> LastingAt(SwapCaps(c0, a, b), p)
  {
    var c1 := SwapCaps(c0, a, b);
    forall p | LastingAt(c1, p) ensures LastingAt(c0, p) {
      var y :| y in c1 && Names(c1[y], p) && Lasting(c1[y]);
      assert c0[Other(y, a, b)] == c1[y];
    }
    forall p | NamedAt(c0, p) ensures NamedAt(c1, p) {
      var y :| y in c0 && Names(c0[y], p);
      assert c1[Other(y, a, b)] == c0[y];
    }
    forall p | LastingAt(c0, p) ensures LastingAt(c1, p) {
      var y :| y in c0 && Names(c0[y], p) && Lasting(c0[y]);
      assert c1[Other(y, a, b)] == c0[y];
    }
  }

  lemma OnlyZombie(caps: Caps, objs: Objects, reclaimed: set<Addr>, slot: Addr, y: Addr)
    requires Inv(caps, objs, reclaimed) && slot in caps && caps[slot].Zombie? && y in caps && y != slot
    ensures !Names(caps[y], ZombiePtr(caps[slot]))
  {
    InvMeans(caps, objs, reclaimed);
    assert Pair(slot, y);
  }

  /** No slot to be kept is the home of a zombie found elsewhere. */
  lemma HomeNotKept(g: Guard, caps: Caps, objs: Objects, reclaimed: set<Addr>, slot: Addr)
    requires Inv(caps, objs, reclaimed) && Guards(g, caps, objs)
    requires slot in caps && slot !in g.keep && caps[slot].Zombie?
    ensures ZombiePtr(caps[slot]) in objs && ZombiePtr(caps[slot]) !in g.keep
    ensures !HeldBy(caps, g.keep, ZombiePtr(caps[slot]))
  {
    InvMeans(caps, objs, reclaimed);
    var x := ZombiePtr(caps[slot]);
    assert RefersRightly(objs, caps[slot]);
    forall y | y in g.keep && y in caps ensures !Names(caps[y], x) {
      OnlyZombie(caps, objs, reclaimed, slot, y);
    }
    assert SlotOf(x, 0) == x && SlotCount(objs[x]) > 0;
    assert SlotIn(objs, x, x);
  }

  lemma SettleSpares(g: Guard, caps: Caps, objs: Objects, reclaimed: set<Addr>, slot: Addr)
    requires Inv(caps, objs, reclaimed) && slot in caps && caps[slot].Zombie? && ZombiePtr(caps[slot]) in caps
    requires Ready(g, caps, objs, slot, false)
    ensures Spared(g, caps, SwapCaps(caps, slot, ZombiePtr(caps[slot])))
  {
    HomeNotKept(g, caps, objs, reclaimed, slot);
    SwapNames(caps, slot, ZombiePtr(caps[slot]));
  }

  /** What is left when a cap is dropped: another cap to the same object, unless the object is reclaimed. */
  lemma DropNames(caps: Caps, objs: Objects, reclaimed: set<Addr>, slot: Addr, p: Addr)
    requires Inv(caps, objs, reclaimed) && slot in caps && MayDrop(caps, slot) && p !in Reclaims(caps, slot)
    ensures NamedAt(caps, p) ==> NamedAt(caps[slot := Null], p)
    ensures LastingAt(caps, p) ==> LastingAt(caps[slot := Null], p)
  {
    if NamedAt(caps, p) {
      var y :| y in caps && Names(caps[y], p) && (LastingAt(caps, p) ==> Lasting(caps[y]));
      if y != slot {
        assert caps[slot := Null][y] == caps[y];
      } else {
        var a :| a in caps && a != slot && caps[a] != Null && SameObjectAs(caps[a], caps[slot]);
        assert Names(caps[a], p) && Lasting(caps[a]);
        assert caps[slot := Null][a] == caps[a];
      }
    }
  }

  lemma DropLasting(caps: Caps, slot: Addr)
    requires slot in caps
    ensures NoNewLasting(caps, caps[slot := Null])
  {
    var c1 := caps[slot := Null];
    forall p | LastingAt(c1, p) ensures LastingAt(caps, p) {
      var y :| y in c1 && Names(c1[y], p) && Lasting(c1[y]);
      assert y in caps && Names(caps[y], p) && Lasting(caps[y]);
    }
  }

  lemma DropNamed(caps: Caps, objs: Objects, reclaimed: set<Addr>, slot: Addr)
    requires Inv(caps, objs, reclaimed) && slot in caps && MayDrop(caps, slot) && AllNamed(caps, objs, reclaimed)
    ensures AllNamed(caps[slot := Null], objs, reclaimed + Reclaims(caps, slot))
  {
    forall p | p in objs ensures p in reclaimed + Reclaims(caps, slot) || NamedAt(caps[slot := Null], p) {
      if p !in reclaimed && p !in Reclaims(caps, slot) { DropNames(caps, objs, reclaimed, slot, p); }
    }
  }

  /** An object reclaimed with a lasting cap is one whose first slot holds that cap, and no other. */
  lemma ReclaimedHome(caps: Caps, objs: Objects, reclaimed: set<Addr>, slot: Addr, p: Addr)
    requires Inv(caps, objs, reclaimed) && slot in caps && MayDrop(caps, slot)
    requires p in Reclaims(caps, slot) && LastingAt(caps, p)
    ensures Names(caps[slot], p) && SlotIn(objs, p, slot)
  {
    InvMeans(caps, objs, reclaimed);
    ReclaimedAlone(caps, objs, reclaimed, slot, p);
    var y :| y in caps && Names(caps[y], p) && Lasting(caps[y]);
    assert y == slot && SlotOf(p, 0) == p && RefersRightly(objs, caps[slot]);
    if !caps[slot].Zombie? { NewZombie(caps[slot], objs); }
    assert slot == p && SlotCount(objs[p]) > 0;
  }

  /** A guarded object is not reclaimed. */
  lemma ReclaimsUnguarded(g: Guard, caps: Caps, objs: Objects, reclaimed: set<Addr>, slot: Addr, exposed: bool, p: Addr)
    requires Inv(caps, objs, reclaimed) && Ready(g, caps, objs, slot, exposed) && MayDrop(caps, slot)
    requires p in g.objects && p in Reclaims(caps, slot)
    ensures !LastingAt(caps, p)
  {
    if LastingAt(caps, p) { ReclaimedHome(caps, objs, reclaimed, slot, p); }
  }

  lemma DropSpares(g: Guard, caps: Caps, objs: Objects, reclaimed: set<Addr>, slot: Addr, exposed: bool)
    requires Inv(caps, objs, reclaimed) && Ready(g, caps, objs, slot, exposed) && MayDrop(caps, slot)
    ensures Spared(g, caps, caps[slot := Null])
  {
    forall p | p in g.objects && LastingAt(caps, p) ensures LastingAt(caps[slot := Null], p) {
      if p in Reclaims(caps, slot) { ReclaimsUnguarded(g, caps, objs, reclaimed, slot, exposed, p); }
      DropNames(caps, objs, reclaimed, slot, p);
    }
  }
}
