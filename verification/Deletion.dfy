/** Recursive deletion (cnode.c), run over the derivation tree in memory. */
module Deletion {
  import opened Basics
  import opened CapOrder
  import opened CdtMemory
  import opened CdtTree
  import opened CdtLemmas
  import opened Shelter
  import opened RevokeSupport
  import D = DeletionState

  datatype Irq = NoIrq | Irq(number: nat)

  /** How cteRevoke ends: `Halted` where the source calls `fail`. */
  datatype Outcome = Finished | Preempted | Halted

  ghost function CapsOf(m: Memory): D.Caps {
    map a | a in m :: m[a].cap
  }

  /** A deletion that is not exposed touches other slots only to move zombies home: a slot keeps its cap
      or comes to hold the zombie of the object it is the first slot of. */
  ghost predicate MovedAside(caps: D.Caps, caps': D.Caps, slot: Addr) {
    && caps'.Keys == caps.Keys
    && (forall z :: z in caps && z != slot ==>
          caps'[z] == caps[z] || (Home(caps'[z], z) && !D.CapCyclicZombie(caps[z], z)))
    && ((forall z :: z in caps && z != slot ==> caps'[z] == caps[z]) || |D.Unsettled(caps')| < |D.Unsettled(caps)|)
  }

  ghost predicate NotHeavier(caps: D.Caps, caps': D.Caps) {
    && caps'.Keys == caps.Keys
    && |D.Unsettled(caps')| <= |D.Unsettled(caps)|
    && |D.Occupied(caps')| <= |D.Occupied(caps)|
  }

  /** A container's last cap is dropped only when every other slot of its object is empty. */
  lemma DroppedObjectIsEmpty(caps: D.Caps, objs: D.Objects, reclaimed: set<Addr>, slot: Addr, i: nat)
    requires D.Inv(caps, objs, reclaimed) && slot in caps && D.IsContainer(caps[slot])
    requires caps[slot].Zombie? || D.IsFinal(caps, slot)
    requires D.MayDrop(caps, slot) && i < D.SlotCount(D.ContainerType(caps[slot]))
    ensures D.SlotOf(CapPtr(caps[slot]), i) in caps
    ensures D.SlotOf(CapPtr(caps[slot]), i) == slot || caps[D.SlotOf(CapPtr(caps[slot]), i)] == Null
  {
    D.InvMeans(caps, objs, reclaimed);
    var c := caps[slot];
    assert D.RefersRightly(objs, c);
    assert D.SlotOf(CapPtr(c), 0) == CapPtr(c);
    if !c.Zombie? { D.NewZombie(c, objs); }
  }

  /** Nothing has to be taken apart: finaliseCap leaves nothing of the cap. */
  ghost predicate Simple(caps: D.Caps, slot: Addr)
    requires slot in caps
  {
    D.Remainder(caps[slot], caps[slot].Zombie? || D.IsFinal(caps, slot)) == Null
  }

  lemma AgreeingComparable(m: Memory, s: set<Addr>)
    requires D.AllAgree(CapsOf(m)) && s <= m.Keys && forall a :: a in s ==> m[a].cap != Null
    ensures Comparable(m, s)
  {
    forall a, b | a in s && b in s
      ensures m[a].cap != Null && m[b].cap != Null && Agree(m[a].cap, m[b].cap)
    {
      assert Pair(a, b);
    }
  }

  /** Reading the caps off a memory in which at most one or two slots changed. */
  lemma CapsAfterWrite(m: Memory, m': Memory, slot: Addr, cap: Cap)
    requires SameBut(m, m', {slot}) && slot in m && m'[slot].cap == cap
    ensures CapsOf(m') == CapsOf(m)[slot := cap]
  {
  }

  lemma CapsAfterSwap(m: Memory, m': Memory, slot1: Addr, slot2: Addr)
    requires SameBut(m, m', {slot1, slot2}) && slot1 in m && slot2 in m
    requires m'[slot1].cap == m[slot2].cap && m'[slot2].cap == m[slot1].cap
    ensures CapsOf(m') == D.SwapCaps(CapsOf(m), slot1, slot2)
  {
  }

  lemma SwapComparable(m: Memory, s: set<Addr>, slot1: Addr, slot2: Addr)
    requires slot1 in m && slot2 in m && slot1 != slot2 && s <= m.Keys
    requires forall a :: a in m ==> (a in s <==> m[a].cap != Null)
    requires D.AllAgree(D.SwapCaps(CapsOf(m), slot1, slot2))
    ensures Comparable(Swapped(m, m[slot1].cap, slot1, m[slot2].cap, slot2),
                       SwappedSlots(s, m[slot1].cap, slot1, m[slot2].cap, slot2))
  {
    var m' := Swapped(m, m[slot1].cap, slot1, m[slot2].cap, slot2);
    CapsAfterSwap(m, m', slot1, slot2);
    AgreeingComparable(m', SwappedSlots(s, m[slot1].cap, slot1, m[slot2].cap, slot2));
  }

  /** One step nearer to the end of deleting `slot`: the measure of the loop in finaliseSlot. */
  ghost predicate Nearer(c0: D.Caps, c1: D.Caps, slot: Addr) {
    && slot in c0 && slot in c1 && |D.Unsettled(c1)| <= |D.Unsettled(c0)|
    && (|D.Unsettled(c1)| < |D.Unsettled(c0)| || D.StepsLeft(c1[slot]) < D.StepsLeft(c0[slot]))
  }

  lemma MovedTwice(c0: D.Caps, c1: D.Caps, c2: D.Caps, slot: Addr)
    requires MovedAside(c0, c1, slot) && MovedAside(c1, c2, slot)
    requires |D.Unsettled(c1)| <= |D.Unsettled(c0)| && |D.Unsettled(c2)| <= |D.Unsettled(c1)|
    ensures MovedAside(c0, c2, slot)
  {
  }

  /** What any stage of deleting `slot` does to the other slots and to the measure. */
  ghost predicate Stage(c0: D.Caps, c1: D.Caps, slot: Addr, exposed: bool) {
    && slot in c0 && NotHeavier(c0, c1)
    && (!exposed ==> MovedAside(c0, c1, slot))
    && (c0[slot] != Null && c1[slot] == Null ==> D.Weight(c1) < D.Weight(c0))
  }

  lemma StageTwice(c0: D.Caps, c1: D.Caps, c2: D.Caps, slot: Addr, exposed: bool)
    requires Stage(c0, c1, slot, exposed) && Stage(c1, c2, slot, exposed)
    ensures Stage(c0, c2, slot, exposed)
  {
    if !exposed { MovedTwice(c0, c1, c2, slot); }
  }

  lemma StageClear(caps: D.Caps, objs: D.Objects, reclaimed: set<Addr>, slot: Addr, exposed: bool)
    requires D.Inv(caps, objs, reclaimed) && slot in caps && (caps[slot].Zombie? ==> D.CapRemovable(caps[slot], slot))
    ensures Stage(caps, caps[slot := Null], slot, exposed)
  {
    D.Emptied(caps, objs, reclaimed, slot);
    SubsetSize(D.Unsettled(caps[slot := Null]), D.Unsettled(caps));
  }

  lemma StageZombie(caps: D.Caps, objs: D.Objects, reclaimed: set<Addr>, slot: Addr, exposed: bool)
    requires D.Inv(caps, objs, reclaimed) && slot in caps && (caps[slot].CNode? || caps[slot].Thread?)
    requires D.IsFinal(caps, slot)
    ensures Stage(caps, caps[slot := D.Remainder(caps[slot], true)], slot, exposed)
  {
    D.InvMeans(caps, objs, reclaimed);
    D.NewZombie(caps[slot], objs);
    D.ToZombie(caps, objs, reclaimed, slot);
    SubsetSize(D.Unsettled(caps[slot := D.Remainder(caps[slot], true)]), D.Unsettled(caps));
  }

  /** What is left of a container's last cap: a zombie, with one step less to go. */
  lemma MakesZombie(caps: D.Caps, objs: D.Objects, reclaimed: set<Addr>, slot: Addr)
    requires D.Inv(caps, objs, reclaimed) && slot in caps && (caps[slot].CNode? || caps[slot].Thread?)
    requires D.IsFinal(caps, slot)
    ensures var z := D.Remainder(caps[slot], true);
      && z.Zombie? && Nearer(caps, caps[slot := z], slot)
      && D.Inv(caps[slot := z], objs, reclaimed) && D.AllAgree(caps[slot := z])
  {
    D.InvMeans(caps, objs, reclaimed);
    D.NewZombie(caps[slot], objs);
    D.ToZombie(caps, objs, reclaimed, slot);
    SubsetSize(D.Unsettled(caps[slot := D.Remainder(caps[slot], true)]), D.Unsettled(caps));
    D.InvMeans(caps[slot := D.Remainder(caps[slot], true)], objs, reclaimed);
  }

  lemma StageSettle(caps: D.Caps, objs: D.Objects, reclaimed: set<Addr>, slot: Addr)
    requires D.Inv(caps, objs, reclaimed) && slot in caps && caps[slot].Zombie?
    requires !D.CapRemovable(caps[slot], slot) && !D.CapCyclicZombie(caps[slot], slot)
    ensures ZombiePtr(caps[slot]) in caps
    ensures var caps' := D.SwapCaps(caps, slot, ZombiePtr(caps[slot]));
      Stage(caps, caps', slot, false) && |D.Unsettled(caps')| < |D.Unsettled(caps)|
  {
    D.InvMeans(caps, objs, reclaimed);
    D.SettleZombie(caps, objs, reclaimed, slot);
  }

  lemma StageStepDown(caps: D.Caps, objs: D.Objects, reclaimed: set<Addr>, slot: Addr)
    requires D.Inv(caps, objs, reclaimed) && slot in caps && caps[slot].Zombie? && ZombieNumber(caps[slot]) > 0
    requires D.SlotOf(ZombiePtr(caps[slot]), ZombieNumber(caps[slot]) - 1) in caps
    requires caps[D.SlotOf(ZombiePtr(caps[slot]), ZombieNumber(caps[slot]) - 1)] == Null
    ensures Stage(caps, caps[slot := ZombieSetNumber(caps[slot], ZombieNumber(caps[slot]) - 1)], slot, true)
  {
    D.InvMeans(caps, objs, reclaimed);
    D.CountDown(caps, objs, reclaimed, slot);
  }

  lemma FinalAgrees(m: Memory, s: set<Addr>, slot: Addr)
    requires slot in m && s <= m.Keys && forall a :: a in m ==> (a in s <==> m[a].cap != Null)
    ensures NoOtherNames(m, s, slot) <==> D.IsFinal(CapsOf(m), slot)
  {
    var caps := CapsOf(m);
    assert caps[slot] == m[slot].cap;
    if NoOtherNames(m, s, slot) {
      forall a | a in caps && a != slot && caps[a] != Null ensures !SameObjectAs(caps[a], caps[slot]) {
        assert a in s && caps[a] == m[a].cap;
      }
    }
    if D.IsFinal(caps, slot) {
      forall a | a in s && a != slot ensures !SameObjectAs(m[a].cap, m[slot].cap) {
        assert caps[a] == m[a].cap;
      }
    }
  }

  lemma SwapEitherWay(caps: D.Caps, a: Addr, b: Addr)
    requires a in caps && b in caps
    ensures D.SwapCaps(caps, a, b) == D.SwapCaps(caps, b, a)
  {
  }

  lemma EndSlotExists(caps: D.Caps, objs: D.Objects, reclaimed: set<Addr>, slot: Addr)
    requires D.Inv(caps, objs, reclaimed) && slot in caps && caps[slot].Zombie? && ZombieNumber(caps[slot]) > 0
    ensures D.SlotOf(ZombiePtr(caps[slot]), ZombieNumber(caps[slot]) - 1) in caps
    ensures ZombiePtr(caps[slot]) in objs && D.SlotOf(ZombiePtr(caps[slot]), 0) == ZombiePtr(caps[slot])
    ensures 0 < ZombieNumber(caps[slot]) <= D.SlotCount(objs[ZombiePtr(caps[slot])])
  {
    D.InvMeans(caps, objs, reclaimed);
    assert D.RefersRightly(objs, caps[slot]);
  }

  // ---- A cap in its own object ----

  /** An object's only cap, or its zombie, in the last slot still counted of that object, with the first slot empty. */
  ghost predicate SelfHeld(caps: D.Caps, slot: Addr) {
    && slot in caps && D.IsContainer(caps[slot]) && (caps[slot].Zombie? || D.IsFinal(caps, slot))
    && var z := D.Remainder(caps[slot], true);
       && z.Zombie? && ZombieNumber(z) >= 2 && slot == D.SlotOf(ZombiePtr(z), ZombieNumber(z) - 1)
       && ZombiePtr(z) in caps && caps[ZombiePtr(z)] == Null
  }

  /** Its zombie has gone to the first slot and stays there. */
  ghost function Aside(caps: D.Caps, slot: Addr): D.Caps
    requires SelfHeld(caps, slot)
  {
    caps[slot := Null][ZombiePtr(D.Remainder(caps[slot], true)) := D.Remainder(caps[slot], true)]
  }

  /** Quantified over in the two relations below, so that what carries them need not look inside. */
  datatype Whence = FromItself

  ghost predicate LeavesAt(w: Whence, c0: D.Caps, c1: D.Caps, slot: Addr) {
    w.FromItself? && SelfHeld(c0, slot) ==> c1 == Aside(c0, slot)
  }

  ghost predicate Leaves(c0: D.Caps, c1: D.Caps, slot: Addr) {
    forall w: Whence :: LeavesAt(w, c0, c1, slot)
  }

  lemma LeavesMeans(c0: D.Caps, c1: D.Caps, slot: Addr)
    requires Leaves(c0, c1, slot) && SelfHeld(c0, slot)
    ensures c1 == Aside(c0, slot)
  {
    assert LeavesAt(FromItself, c0, c1, slot);
  }

  /** After that the slot is empty, and there is nothing left to do. */
  lemma LeavesThen(c0: D.Caps, c1: D.Caps, c2: D.Caps, slot: Addr)
    requires Leaves(c0, c1, slot) && slot in c1
    requires c1[slot] != Null || c2 == c1[slot := Null]
    ensures Leaves(c0, c2, slot)
  {
    if SelfHeld(c0, slot) {
      LeavesMeans(c0, c1, slot);
      assert c2 == Aside(c0, slot);
    }
  }

  ghost predicate StaysAt(w: Whence, c0: D.Caps, c1: D.Caps, slot: Addr) {
    w.FromItself? && SelfHeld(c0, slot) ==> SelfHeld(c1, slot) && Aside(c1, slot) == Aside(c0, slot)
  }

  /** The zombie made of the cap goes the same way. */
  ghost predicate Stays(c0: D.Caps, c1: D.Caps, slot: Addr) {
    forall w: Whence :: StaysAt(w, c0, c1, slot)
  }

  lemma LeavesAfter(c0: D.Caps, c1: D.Caps, c2: D.Caps, slot: Addr)
    requires Stays(c0, c1, slot) && Leaves(c1, c2, slot)
    ensures Leaves(c0, c2, slot)
  {
    assert StaysAt(FromItself, c0, c1, slot);
    if SelfHeld(c0, slot) { LeavesMeans(c1, c2, slot); }
  }

  lemma SelfHeldZombie(caps: D.Caps, slot: Addr)
    requires slot in caps && (caps[slot].CNode? || caps[slot].Thread?) && D.IsFinal(caps, slot)
    ensures Stays(caps, caps[slot := D.Remainder(caps[slot], true)], slot)
  {
  }

  lemma LeavesNothing(caps: D.Caps, slot: Addr)
    requires slot in caps && (D.MayDrop(caps, slot) || D.CapCyclicZombie(caps[slot], slot))
    ensures Leaves(caps, caps, slot)
  {
  }

  lemma LeavesSettled(caps: D.Caps, slot: Addr)
    requires slot in caps && caps[slot].Zombie? && ZombiePtr(caps[slot]) in caps && ZombiePtr(caps[slot]) != slot
    ensures Leaves(caps, D.SwapCaps(caps, slot, ZombiePtr(caps[slot])), slot)
  {
  }

  lemma LeavesAnyhow(caps: D.Caps, slot: Addr, endSlot: Addr)
    requires slot in caps && caps[slot].Zombie? && ZombieNumber(caps[slot]) > 0
    requires endSlot == D.SlotOf(ZombiePtr(caps[slot]), ZombieNumber(caps[slot]) - 1) && slot != endSlot
    ensures forall c1 :: Leaves(caps, c1, slot)
  {
  }

  /** A CNode's only cap in its own last slot. */
  lemma LastSlotSelfHeld(caps: D.Caps, objs: D.Objects, reclaimed: set<Addr>, slot: Addr)
    requires D.Inv(caps, objs, reclaimed) && slot in caps && caps[slot].CNode? && D.IsFinal(caps, slot)
    requires caps[slot].radix >= 1 && slot == D.SlotOf(caps[slot].cnodePtr, Pow2(caps[slot].radix) - 1)
    requires caps[slot].cnodePtr in caps && caps[caps[slot].cnodePtr] == Null
    ensures SelfHeld(caps, slot)
    ensures var c := caps[slot];
      Aside(caps, slot) == caps[slot := Null][c.cnodePtr := ZombieNew(Pow2(c.radix), ZombieCNode(c.radix), c.cnodePtr)]
  {
    D.InvMeans(caps, objs, reclaimed);
    D.NewZombie(caps[slot], objs);
    Pow2Grows(1, caps[slot].radix);
    assert Pow2(1) == 2;
  }

  /** As many slots are in use as before; it is the weight that falls. */
  lemma AsideLighter(caps: D.Caps, objs: D.Objects, reclaimed: set<Addr>, slot: Addr)
    requires D.Inv(caps, objs, reclaimed) && SelfHeld(caps, slot)
    ensures |D.Occupied(Aside(caps, slot))| == |D.Occupied(caps)| && D.Weight(Aside(caps, slot)) < D.Weight(caps)
  {
    var z := D.Remainder(caps[slot], true);
    var ptr := ZombiePtr(z);
    var c1 := Aside(caps, slot);
    assert D.Occupied(c1) == D.Occupied(caps) - {slot} + {ptr};
    assert D.Unsettled(c1) == D.Unsettled(caps) - {slot};
    assert slot in D.Unsettled(caps);
  }

  // ---- The course of a deletion ----

  datatype Aspect = Measure | Sheltered | NothingNew | Naming

  ghost predicate CourseAt(a: Aspect, g: Guard, objs: D.Objects, c0: D.Caps, r0: set<Addr>, c1: D.Caps, r1: set<Addr>,
                           slot: Addr, exposed: bool)
  {
    match a
    case Measure => Stage(c0, c1, slot, exposed)
    case Sheltered => Ready(g, c0, objs, slot, exposed) ==> Spared(g, c0, c1)
    case NothingNew => NoNewLasting(c0, c1)
    case Naming => r0 <= r1 && (AllNamed(c0, objs, r0) ==> AllNamed(c1, objs, r1))
  }

  /** What holds between any two points of deleting `slot`, preempted or not: the measure does not rise, what is guarded
      is spared, and every object keeps a cap or is reclaimed. */
  ghost predicate Course(g: Guard, objs: D.Objects, c0: D.Caps, r0: set<Addr>, c1: D.Caps, r1: set<Addr>,
                         slot: Addr, exposed: bool)
  {
    c1.Keys == c0.Keys && forall a: Aspect :: CourseAt(a, g, objs, c0, r0, c1, r1, slot, exposed)
  }

  lemma CourseMeans(g: Guard, objs: D.Objects, c0: D.Caps, r0: set<Addr>, c1: D.Caps, r1: set<Addr>,
                    slot: Addr, exposed: bool)
    requires Course(g, objs, c0, r0, c1, r1, slot, exposed)
    ensures Stage(c0, c1, slot, exposed) && NoNewLasting(c0, c1) && r0 <= r1
    ensures Ready(g, c0, objs, slot, exposed) ==> Spared(g, c0, c1)
    ensures AllNamed(c0, objs, r0) ==> AllNamed(c1, objs, r1)
  {
    assert CourseAt(Measure, g, objs, c0, r0, c1, r1, slot, exposed);
    assert CourseAt(Sheltered, g, objs, c0, r0, c1, r1, slot, exposed);
    assert CourseAt(NothingNew, g, objs, c0, r0, c1, r1, slot, exposed);
    assert CourseAt(Naming, g, objs, c0, r0, c1, r1, slot, exposed);
  }

  /** What a stage that is not preempted leaves: every other slot as it was, emptied, or with a zombie come home. */
  ghost predicate Tidy(c0: D.Caps, c1: D.Caps, slot: Addr) {
    forall z :: z in c0 && z in c1 && z != slot ==> c1[z] == c0[z] || c1[z] == Null || Home(c1[z], z)
  }

  ghost predicate Onward(g: Guard, objs: D.Objects, c0: D.Caps, c1: D.Caps, slot: Addr, exposed: bool) {
    Ready(g, c0, objs, slot, exposed) ==> Ready(g, c1, objs, slot, exposed)
  }

  lemma CourseTwice(g: Guard, objs: D.Objects, c0: D.Caps, r0: set<Addr>, c1: D.Caps, r1: set<Addr>,
                    c2: D.Caps, r2: set<Addr>, slot: Addr, exposed: bool)
    requires Course(g, objs, c0, r0, c1, r1, slot, exposed) && Onward(g, objs, c0, c1, slot, exposed)
    requires Course(g, objs, c1, r1, c2, r2, slot, exposed)
    ensures Course(g, objs, c0, r0, c2, r2, slot, exposed)
  {
    CourseMeans(g, objs, c0, r0, c1, r1, slot, exposed);
    CourseMeans(g, objs, c1, r1, c2, r2, slot, exposed);
    StageTwice(c0, c1, c2, slot, exposed);
  }

  lemma OnwardTwice(g: Guard, objs: D.Objects, c0: D.Caps, c1: D.Caps, c2: D.Caps, slot: Addr, exposed: bool)
    requires Onward(g, objs, c0, c1, slot, exposed) && Onward(g, objs, c1, c2, slot, exposed)
    requires c0.Keys == c1.Keys == c2.Keys && Tidy(c0, c1, slot) && Tidy(c1, c2, slot)
    ensures Onward(g, objs, c0, c2, slot, exposed) && Tidy(c0, c2, slot)
  {
  }

  lemma FurtherOn(g: Guard, objs: D.Objects, c0: D.Caps, r0: set<Addr>, c1: D.Caps, r1: set<Addr>,
                  c2: D.Caps, r2: set<Addr>, slot: Addr, exposed: bool, onward: bool)
    requires Course(g, objs, c0, r0, c1, r1, slot, exposed) && Onward(g, objs, c0, c1, slot, exposed)
    requires Course(g, objs, c1, r1, c2, r2, slot, exposed) && Tidy(c0, c1, slot)
    requires onward ==> Onward(g, objs, c1, c2, slot, exposed) && Tidy(c1, c2, slot)
    ensures Course(g, objs, c0, r0, c2, r2, slot, exposed)
    ensures onward ==> Onward(g, objs, c0, c2, slot, exposed) && Tidy(c0, c2, slot)
  {
    CourseTwice(g, objs, c0, r0, c1, r1, c2, r2, slot, exposed);
    if onward { OnwardTwice(g, objs, c0, c1, c2, slot, exposed); }
  }

  lemma RoundEnds(g: Guard, objs: D.Objects, c0: D.Caps, r0: set<Addr>, c1: D.Caps, r1: set<Addr>,
                  c2: D.Caps, r2: set<Addr>, slot: Addr, exposed: bool, onward: bool)
    requires Course(g, objs, c0, r0, c1, r1, slot, exposed) && Onward(g, objs, c0, c1, slot, exposed)
    requires Course(g, objs, c1, r1, c2, r2, slot, exposed) && Tidy(c0, c1, slot) && Stays(c0, c1, slot)
    requires onward ==> Onward(g, objs, c1, c2, slot, exposed) && Tidy(c1, c2, slot) && Leaves(c1, c2, slot)
    ensures Course(g, objs, c0, r0, c2, r2, slot, exposed)
    ensures onward ==> Onward(g, objs, c0, c2, slot, exposed) && Tidy(c0, c2, slot) && Leaves(c0, c2, slot)
  {
    FurtherOn(g, objs, c0, r0, c1, r1, c2, r2, slot, exposed, onward);
    if onward { LeavesAfter(c0, c1, c2, slot); }
  }

  lemma NoCourse(g: Guard, objs: D.Objects, c: D.Caps, r: set<Addr>, slot: Addr, exposed: bool)
    requires slot in c
    ensures Course(g, objs, c, r, c, r, slot, exposed) && Onward(g, objs, c, c, slot, exposed) && Tidy(c, c, slot)
  {
  }

  lemma CourseClear(g: Guard, caps: D.Caps, objs: D.Objects, reclaimed: set<Addr>, slot: Addr, exposed: bool)
    requires D.Inv(caps, objs, reclaimed) && slot in caps && D.MayDrop(caps, slot)
    ensures Course(g, objs, caps, reclaimed, caps[slot := Null], reclaimed + D.Reclaims(caps, slot), slot, exposed)
  {
    StageClear(caps, objs, reclaimed, slot, exposed);
    DropLasting(caps, slot);
    if AllNamed(caps, objs, reclaimed) { DropNamed(caps, objs, reclaimed, slot); }
    if Ready(g, caps, objs, slot, exposed) { DropSpares(g, caps, objs, reclaimed, slot, exposed); }
  }

  lemma CourseZombie(g: Guard, caps: D.Caps, objs: D.Objects, reclaimed: set<Addr>, slot: Addr, exposed: bool)
    requires D.Inv(caps, objs, reclaimed) && slot in caps && (caps[slot].CNode? || caps[slot].Thread?)
    requires D.IsFinal(caps, slot)
    ensures var c1 := caps[slot := D.Remainder(caps[slot], true)];
      && Course(g, objs, caps, reclaimed, c1, reclaimed, slot, exposed)
      && Onward(g, objs, caps, c1, slot, exposed) && Tidy(caps, c1, slot)
  {
    var z := D.Remainder(caps[slot], true);
    var c1 := caps[slot := z];
    D.InvMeans(caps, objs, reclaimed);
    D.NewZombie(caps[slot], objs);
    StageZombie(caps, objs, reclaimed, slot, exposed);
    RelabelNames(caps, slot, z);
    if Ready(g, caps, objs, slot, exposed) { GuardsStay(g, caps, c1, objs); }
  }

  lemma CourseSettle(g: Guard, caps: D.Caps, objs: D.Objects, reclaimed: set<Addr>, slot: Addr)
    requires D.Inv(caps, objs, reclaimed) && slot in caps && caps[slot].Zombie?
    requires !D.CapRemovable(caps[slot], slot) && !D.CapCyclicZombie(caps[slot], slot)
    ensures ZombiePtr(caps[slot]) in caps
    ensures var c1 := D.SwapCaps(caps, slot, ZombiePtr(caps[slot]));
      && Course(g, objs, caps, reclaimed, c1, reclaimed, slot, false)
      && Onward(g, objs, caps, c1, slot, false) && Tidy(caps, c1, slot)
      && |D.Unsettled(c1)| < |D.Unsettled(caps)|
  {
    StageSettle(caps, objs, reclaimed, slot);
    var c1 := D.SwapCaps(caps, slot, ZombiePtr(caps[slot]));
    SwapNames(caps, slot, ZombiePtr(caps[slot]));
    if Ready(g, caps, objs, slot, false) {
      SettleSpares(g, caps, objs, reclaimed, slot);
      OutsideStays(g, caps, c1, objs, slot);
    }
  }

  lemma CourseStepDown(g: Guard, caps: D.Caps, objs: D.Objects, reclaimed: set<Addr>, slot: Addr)
    requires D.Inv(caps, objs, reclaimed) && slot in caps && caps[slot].Zombie? && ZombieNumber(caps[slot]) > 0
    requires D.SlotOf(ZombiePtr(caps[slot]), ZombieNumber(caps[slot]) - 1) in caps
    requires caps[D.SlotOf(ZombiePtr(caps[slot]), ZombieNumber(caps[slot]) - 1)] == Null
    ensures var c1 := caps[slot := ZombieSetNumber(caps[slot], ZombieNumber(caps[slot]) - 1)];
      && Course(g, objs, caps, reclaimed, c1, reclaimed, slot, true)
      && Onward(g, objs, caps, c1, slot, true) && Tidy(caps, c1, slot) && Nearer(caps, c1, slot)
  {
    var z := ZombieSetNumber(caps[slot], ZombieNumber(caps[slot]) - 1);
    var c1 := caps[slot := z];
    D.CountDown(caps, objs, reclaimed, slot);
    StageStepDown(caps, objs, reclaimed, slot);
    RelabelNames(caps, slot, z);
    if Ready(g, caps, objs, slot, true) { GuardsStay(g, caps, c1, objs); }
  }

  /** Deleting the end slot of a zombie's object is part of deleting the zombie's slot too. */
  lemma CourseElsewhere(g: Guard, c0: D.Caps, r0: set<Addr>, c1: D.Caps, r1: set<Addr>, objs: D.Objects,
                        slot: Addr, endSlot: Addr)
    requires D.Inv(c0, objs, r0) && slot in c0 && c0[slot].Zombie? && ZombieNumber(c0[slot]) > 0
    requires endSlot == D.SlotOf(ZombiePtr(c0[slot]), ZombieNumber(c0[slot]) - 1) && endSlot in c0
    requires Course(g, objs, c0, r0, c1, r1, endSlot, false)
    ensures Course(g, objs, c0, r0, c1, r1, slot, true)
    ensures Ready(g, c0, objs, slot, true) ==> Spared(g, c0, c1) && Guards(g, c1, objs)
  {
    CourseMeans(g, objs, c0, r0, c1, r1, endSlot, false);
    ElsewhereStage(c0, c1, objs, r0, slot, endSlot);
    if Ready(g, c0, objs, slot, true) {
      D.InvMeans(c0, objs, r0);
      EndSlotExists(c0, objs, r0, slot);
      EndSlotOutside(g, c0, objs, c0.Keys, ZombiePtr(c0[slot]), ZombieNumber(c0[slot]) - 1);
      GuardsStay(g, c0, c1, objs);
    }
  }

  /** After that the deletion goes on, be it with the zombie of another object whose first slot this is. */
  lemma OnwardElsewhere(g: Guard, c0: D.Caps, c1: D.Caps, r1: set<Addr>, objs: D.Objects, slot: Addr)
    requires D.Inv(c1, objs, r1) && slot in c0 && c0[slot].Zombie? && c1.Keys == c0.Keys
    requires Ready(g, c0, objs, slot, true) ==> Spared(g, c0, c1) && Guards(g, c1, objs)
    requires c1[slot] == Null || c1[slot] == c0[slot] || D.CapCyclicZombie(c1[slot], slot)
    ensures Onward(g, objs, c0, c1, slot, true)
  {
    if Ready(g, c0, objs, slot, true) {
      GuardsStay(g, c0, c1, objs);
      if c1[slot].Zombie? { HomeNotKept(g, c1, objs, r1, slot); }
    }
  }

  /** What reduceZombie finds after it has deleted the last slot its zombie counts, as it asserts. */
  lemma AfterEndSlot(c0: D.Caps, c1: D.Caps, objs: D.Objects, r0: set<Addr>, r1: set<Addr>, slot: Addr, endSlot: Addr)
    requires D.Inv(c0, objs, r0) && D.Inv(c1, objs, r1)
    requires slot in c0 && c0[slot].Zombie? && !D.CapRemovable(c0[slot], slot)
    requires endSlot == D.SlotOf(ZombiePtr(c0[slot]), ZombieNumber(c0[slot]) - 1) && endSlot in c0
    requires MovedAside(c0, c1, endSlot)
    requires c1[endSlot] == Null || D.CapCyclicZombie(c1[endSlot], endSlot)
    ensures
      || (c1[slot] == Null && slot == endSlot)
      || (c1[slot] == c0[slot] && c1[endSlot] == Null && slot != endSlot)
      || (D.CapCyclicZombie(c1[slot], slot) && ZombiePtr(c0[slot]) != slot && |D.Unsettled(c1)| < |D.Unsettled(c0)|)
    ensures |D.Unsettled(c1)| <= |D.Unsettled(c0)| ==> c1[slot] == c0[slot] || Nearer(c0, c1, slot)
  {
    D.InvMeans(c0, objs, r0);
    D.InvMeans(c1, objs, r1);
    var ptr, n := ZombiePtr(c0[slot]), ZombieNumber(c0[slot]);
    EndSlotExists(c0, objs, r0, slot);
    if c1[endSlot] != Null {
      // The zombie found there is for the object that has this as its first slot, hence for `ptr`.
      assert D.RefersRightly(objs, c1[endSlot]);
      assert D.SlotOf(endSlot, 0) == D.SlotOf(ptr, n - 1);
      assert endSlot == ptr && n == 1;
      assert Pair(endSlot, slot);
    }
  }

  /** Deleting the end slot is a stage of deleting the zombie's slot too. */
  lemma ElsewhereStage(c0: D.Caps, c1: D.Caps, objs: D.Objects, r0: set<Addr>, slot: Addr, endSlot: Addr)
    requires D.Inv(c0, objs, r0) && slot in c0 && c0[slot].Zombie?
    requires Stage(c0, c1, endSlot, false)
    ensures Stage(c0, c1, slot, true)
  {
    D.InvMeans(c0, objs, r0);
  }

  // ---- Revocation ----

  ghost function Children(m: Memory, slot: Addr): set<Addr>
    requires slot in m && !m[slot].cap.Untyped?
  {
    set a | a in m && m[a].cap != Null && IsChild(SlotAt(m, slot), SlotAt(m, a))
  }

  /** Only children of `slot` changed, and those only by being emptied. */
  ghost predicate Revoked(m0: Memory, m: Memory, slot: Addr)
    requires slot in m0 && !m0[slot].cap.Untyped?
  {
    && m.Keys == m0.Keys
    && (forall a :: a in m0 ==>
          || (m[a].cap == m0[a].cap && m[a].depth == m0[a].depth)
          || (m[a].cap == Null && a in Children(m0, slot)))
    && m[slot].cap == m0[slot].cap && m[slot].depth == m0[slot].depth
  }

  /** A child found by order goes in one round; a zombie has none, being its object's only cap. */
  lemma ChildIsSimple(m: Memory, objs: D.Objects, reclaimed: set<Addr>, slot: Addr, child: Addr)
    requires slot in m && m[slot].cap != Null && !m[slot].cap.Untyped?
    requires D.Inv(CapsOf(m), objs, reclaimed) && child in Children(m, slot)
    ensures child != slot && Simple(CapsOf(m), child)
  {
    var caps := CapsOf(m);
    D.InvMeans(caps, objs, reclaimed);
    assert Pair(child, slot) && Pair(slot, child);
    assert caps[child] == m[child].cap && caps[slot] == m[slot].cap;
    ChildNotLast(SlotAt(m, slot), SlotAt(m, child));
  }

  lemma ChildRemoved(m0: Memory, m: Memory, m': Memory, slot: Addr, child: Addr)
    requires slot in m0 && !m0[slot].cap.Untyped? && Revoked(m0, m, slot)
    requires child in Children(m, slot) && SameBut(m, m', {child}) && m'[child].cap == Null
    ensures Revoked(m0, m', slot) && Children(m', slot) == Children(m, slot) - {child}
    ensures |Children(m', slot)| < |Children(m, slot)|
  {
    assert SlotAt(m', slot) == SlotAt(m, slot) == SlotAt(m0, slot);
    assert forall a :: a in m && a != child ==> SlotAt(m', a) == SlotAt(m, a);
    assert SlotAt(m, child) == SlotAt(m0, child);
  }

  lemma ChildrenGone(m0: Memory, m: Memory, slot: Addr)
    requires slot in m0 && !m0[slot].cap.Untyped? && Revoked(m0, m, slot) && Children(m, slot) == {}
    ensures forall a :: a in Children(m0, slot) ==> m[a].cap == Null
  {
    forall a | a in Children(m0, slot) ensures m[a].cap == Null {
      assert a !in Children(m, slot);
    }
  }

  /** What the searches of cdtFindChild say of the caps alone. */
  lemma SightedHere(m: Memory, slot: Addr, a: Addr)
    requires slot in m && IsRegion(m[slot].cap) && a in m
    ensures var u := m[slot].cap;
      Sighted(u, m[a].cap) <==> m[a].cap != Null && IsBelow(m, RangeTop(u.ptr, u.blockSize), AlwaysBelow)(a)
  {
    BelowRangeTop(SlotAt(m, a), m[slot].cap.ptr, m[slot].cap.blockSize);
  }

  lemma GreatestHere(m: Memory, s: set<Addr>, slot: Addr, z: Addr)
    requires slot in m && IsRegion(m[slot].cap) && forall a :: a in m ==> (a in s <==> m[a].cap != Null)
    requires GreatestSeen(m, s, m[slot].cap.ptr, m[slot].cap.blockSize, z)
    ensures z in m && Sighted(m[slot].cap, m[z].cap)
    ensures forall a :: a in m && Sighted(m[slot].cap, m[a].cap) ==>
      CapCompare(Place(m[a].cap), Place(m[z].cap)) != GT
  {
    SightedHere(m, slot, z);
    forall a | a in m && Sighted(m[slot].cap, m[a].cap) ensures CapCompare(Place(m[a].cap), Place(m[z].cap)) != GT {
      SightedHere(m, slot, a);
    }
  }

  /** What cdtFindChild may return of untyped memory. */
  ghost predicate Found(caps: D.Caps, u: Cap, slot: Addr, child: Addr)
    requires IsRegion(u) && child in caps
  {
    TopSighted(caps, u, child) || (child != slot && MayFollow(u, caps[child]))
  }

  lemma FoundHere(m: Memory, s: set<Addr>, slot: Addr, child: Addr)
    requires slot in m && IsRegion(m[slot].cap) && forall a :: a in m ==> (a in s <==> m[a].cap != Null)
    requires child != 0 && child in m
    requires InRange(m, s, m[slot].cap.ptr, m[slot].cap.blockSize, child) || IsChild(SlotAt(m, slot), SlotAt(m, child))
    ensures Found(CapsOf(m), m[slot].cap, slot, child)
  {
    if InRange(m, s, m[slot].cap.ptr, m[slot].cap.blockSize, child) { GreatestHere(m, s, slot, child); }
  }

  lemma FreedHere(m: Memory, s: set<Addr>, slot: Addr)
    requires slot in m && IsRegion(m[slot].cap) && s <= m.Keys
    requires forall a :: a in m ==> (a in s <==> m[a].cap != Null)
    requires InRange(m, s, m[slot].cap.ptr, m[slot].cap.blockSize, 0) && Undivided(CapsOf(m), m[slot].cap)
    ensures Freed(CapsOf(m), m[slot].cap)
  {
    var caps, u := CapsOf(m), m[slot].cap;
    assert forall a :: a in s ==> caps[a] == m[a].cap;
    assert Whole(m, s, u.ptr, u.blockSize);
    forall a | a in caps ensures !Findable(u.ptr, u.blockSize, caps[a]) {
      assert a in s || SpaceType(caps[a]) == SPACE_NONE;
    }
  }

  lemma NoFollower(u: Slot, a: Slot)
    requires IsRegion(u.cap) && !IsChild(u, a) && MayFollow(u.cap, a.cap)
    ensures CapCompare(Place(a.cap), Place(u.cap)) == EQ
  {
  }

  lemma ExhaustedHere(m: Memory, s: set<Addr>, slot: Addr)
    requires slot in m && IsRegion(m[slot].cap) && forall a :: a in m ==> (a in s <==> m[a].cap != Null)
    requires forall a :: a in s && a in m ==> !IsChild(SlotAt(m, slot), SlotAt(m, a))
    requires NoneInRange(m, s, m[slot].cap.ptr, m[slot].cap.blockSize)
    ensures Exhausted(CapsOf(m), m[slot].cap)
  {
    SightedHere(m, slot, slot);
    Pow2Grows(EP_SIZE_BITS, m[slot].cap.blockSize);
    var z: Addr :| GreatestSeen(m, s, m[slot].cap.ptr, m[slot].cap.blockSize, z)
      && !Inside(m[z].cap, m[slot].cap.ptr, m[slot].cap.blockSize);
    GreatestHere(m, s, slot, z);
    assert Stops(CapsOf(m), m[slot].cap, z);
    forall a | a in m && MayFollow(m[slot].cap, m[a].cap)
      ensures CapCompare(Place(m[a].cap), Place(m[slot].cap)) == EQ
    {
      NoFollower(SlotAt(m, slot), SlotAt(m, a));
    }
  }

  /** The next round of a revocation may delete what was found. */
  lemma RoundReady(c0: D.Caps, c1: D.Caps, objs: D.Objects, r0: set<Addr>, r1: set<Addr>, slot: Addr, child: Addr)
    requires Underway(c0, c1, objs, r0, r1, slot) && slot in c0 && child in c1
    requires IsRegion(c0[slot]) && c1[slot] == c0[slot] ==> Found(c1, c0[slot], slot, child)
    ensures Ready(SecureGuard(c0, objs, slot), c1, objs, child, true)
  {
    if slot !in Secure(c0, objs, slot) {
      NothingSecure(c0, c1, objs, slot, child);
    } else if TopSighted(c1, c0[slot], child) {
      FoundExpendable(c0, c1, objs, r0, r1, slot, child);
    } else {
      FollowerExpendable(c0, c1, objs, r0, r1, slot, child);
    }
  }

  /** How far revocation has come from `c0`. */
  ghost predicate Progress(c0: D.Caps, c1: D.Caps, objs: D.Objects, r0: set<Addr>, r1: set<Addr>, slot: Addr) {
    && r0 <= r1 && NotHeavier(c0, c1) && Underway(c0, c1, objs, r0, r1, slot)
    && (AllNamed(c0, objs, r0) ==> AllNamed(c1, objs, r1))
  }

  /** And it leaves the revocation under way. */
  lemma RoundOn(c0: D.Caps, c1: D.Caps, c2: D.Caps, objs: D.Objects, r0: set<Addr>, r1: set<Addr>, r2: set<Addr>,
                slot: Addr, child: Addr)
    requires Progress(c0, c1, objs, r0, r1, slot) && D.Inv(c2, objs, r2)
    requires Ready(SecureGuard(c0, objs, slot), c1, objs, child, true)
    requires Course(SecureGuard(c0, objs, slot), objs, c1, r1, c2, r2, child, true)
    ensures r0 <= r2 && NotHeavier(c0, c2) && Spared(SecureGuard(c0, objs, slot), c0, c2)
    ensures Tidy(c1, c2, child) && child in c1 && c1[child] != Null && c2[child] == Null ==>
      Progress(c0, c2, objs, r0, r2, slot) && D.Weight(c2) < D.Weight(c1)
  {
    var g := SecureGuard(c0, objs, slot);
    CourseMeans(g, objs, c1, r1, c2, r2, child, true);
    SparedTwice(g, c0, c1, c2);
  }

  /** Every object has a cap, or has been reclaimed; a typed object that starts in the region lies in it; and no object
      outside holds a cap to one inside in its first slot. */
  ghost predicate Decided(caps: D.Caps, objs: D.Objects, reclaimed: set<Addr>, slot: Addr) {
    && slot in caps && IsRegion(caps[slot]) && AllNamed(caps, objs, reclaimed)
    && Undivided(caps, caps[slot]) && FirstSlotsClear(caps, objs, caps[slot])
  }

  class CSpace {
    const cdt: Cdt
    ghost var objs: D.Objects
    ghost var reclaimed: set<Addr>

    ghost function Caps(): D.Caps
      reads this, cdt
    {
      CapsOf(cdt.mem)
    }

    ghost predicate Valid()
      reads this, cdt
    {
      cdt.Valid() && D.Inv(Caps(), objs, reclaimed)
    }

    constructor (cdt: Cdt, ghost objs: D.Objects)
      requires cdt.Valid() && D.Inv(CapsOf(cdt.mem), objs, {})
      ensures Valid() && this.cdt == cdt && this.objs == objs && reclaimed == {}
    {
      this.cdt, this.objs, reclaimed := cdt, objs, {};
    }

    /** preemptionPoint: whether an interrupt is pending is up to the hardware. */
    method PreemptionPoint() returns (preempted: bool) {
      preempted := *;
    }

    /** finaliseCap as far as the cap is concerned; what it does to endpoints and threads is not modelled here. */
    method FinaliseCap(cap: Cap, final: bool) returns (remainder: Cap, irq: Irq)
      ensures remainder == D.Remainder(cap, final)
      ensures irq == if cap.IRQHandler? && final then Irq(cap.irq) else NoIrq
    {
      remainder := D.Remainder(cap, final);
      irq := NoIrq;
      if cap.IRQHandler? && final { irq := Irq(cap.irq); }
    }

    // ---- The four steps, performed on the tree ----

    method Update(slot: Addr, newCap: Cap)
      requires cdt.Valid() && slot in cdt.mem && cdt.mem[slot].cap != Null && newCap != Null
      requires D.AllAgree(Caps()[slot := newCap])
      modifies cdt
      ensures cdt.Valid() && Caps() == old(Caps())[slot := newCap]
    {
      ghost var m := cdt.mem[slot := cdt.mem[slot].(cap := newCap)];
      CapsAfterWrite(cdt.mem, m, slot, newCap);
      AgreeingComparable(m, Slots(cdt.tree));
      cdt.CdtUpdate(slot, newCap);
      CapsAfterWrite(old(cdt.mem), cdt.mem, slot, newCap);
    }

    /** capSwapForDelete */
    method CapSwapForDelete(slot1: Addr, slot2: Addr)
      requires cdt.Valid() && slot1 in cdt.mem && slot2 in cdt.mem
      requires D.AllAgree(D.SwapCaps(Caps(), slot1, slot2))
      modifies cdt
      ensures cdt.Valid() && Caps() == D.SwapCaps(old(Caps()), slot1, slot2)
    {
      if slot1 == slot2 {
        CapsAfterSwap(cdt.mem, cdt.mem, slot1, slot2);
        return;
      }
      var cap1, cap2 := cdt.mem[slot1].cap, cdt.mem[slot2].cap;
      SwapComparable(cdt.mem, Slots(cdt.tree), slot1, slot2);
      cdt.CdtSwap(cap1, slot1, cap2, slot2);
      CapsAfterSwap(old(cdt.mem), cdt.mem, slot1, slot2);
    }

    method EmptySlot(slot: Addr, irq: Irq)
      requires Valid() && slot in cdt.mem && (cdt.mem[slot].cap.Zombie? ==> D.CapRemovable(cdt.mem[slot].cap, slot))
      modifies this`reclaimed, cdt
      ensures Valid() && Caps() == old(Caps())[slot := Null] && SameBut(old(cdt.mem), cdt.mem, {slot})
      ensures reclaimed == old(reclaimed) + D.Reclaims(old(Caps()), slot)
    {
      D.Emptied(Caps(), objs, reclaimed, slot);
      reclaimed := reclaimed + D.Reclaims(Caps(), slot);
      ClearSlot(slot);
    }

    /** cdtRemove and the null cap, for a slot that is not empty already. */
    method ClearSlot(slot: Addr)
      requires cdt.Valid() && slot in cdt.mem
      modifies cdt
      ensures cdt.Valid() && Caps() == old(Caps())[slot := Null] && SameBut(old(cdt.mem), cdt.mem, {slot})
    {
      if cdt.mem[slot].cap != Null {
        cdt.CdtRemove(slot);
        cdt.WriteCte(slot, Null, cdt.mem[slot].depth);
      }
      CapsAfterWrite(old(cdt.mem), cdt.mem, slot, Null);
    }

    // ---- cteDelete, finaliseSlot, reduceZombie ----

    /** cteDelete. `g` is what the caller wants spared: it may be anything, and is spared if it keeps clear of the
        objects this deletion takes apart. */
    method CteDelete(slot: Addr, exposed: bool, ghost g: Guard) returns (preempted: bool)
      requires Valid() && slot in cdt.mem
      modifies this`reclaimed, cdt
      ensures Valid() && Course(g, objs, old(Caps()), old(reclaimed), Caps(), reclaimed, slot, exposed)
      ensures !preempted ==> Tidy(old(Caps()), Caps(), slot)
      ensures !preempted && exposed ==> Caps()[slot] == Null
      ensures !preempted && !exposed ==> Caps()[slot] == Null || Home(Caps()[slot], slot)
      ensures old(Simple(Caps(), slot)) ==> !preempted && SameBut(old(cdt.mem), cdt.mem, {slot}) && Caps()[slot] == Null
      ensures !preempted ==> Leaves(old(Caps()), Caps(), slot)
      decreases exposed, 2, 0
    {
      var success, irq;
      preempted, success, irq := FinaliseSlot(slot, exposed, g);
      if preempted { return; }
      if exposed || success {
        ghost var caps, r := Caps(), reclaimed;
        DropCap(slot, irq, exposed, g);
        LeavesThen(old(Caps()), caps, Caps(), slot);
        CourseTwice(g, objs, old(Caps()), old(reclaimed), caps, r, Caps(), reclaimed, slot, exposed);
      }
    }

    /** emptySlot as the last step of a deletion. */
    method DropCap(slot: Addr, irq: Irq, ghost exposed: bool, ghost g: Guard)
      requires Valid() && slot in cdt.mem && D.MayDrop(Caps(), slot)
      modifies this`reclaimed, cdt
      ensures Valid() && Caps() == old(Caps())[slot := Null] && SameBut(old(cdt.mem), cdt.mem, {slot})
      ensures Course(g, objs, old(Caps()), old(reclaimed), Caps(), reclaimed, slot, exposed)
    {
      assert Caps()[slot] == cdt.mem[slot].cap;
      CourseClear(g, Caps(), objs, reclaimed, slot, exposed);
      EmptySlot(slot, irq);
    }

    method FinaliseSlot(slot: Addr, immediate: bool, ghost g: Guard)
      returns (preempted: bool, success: bool, irq: Irq)
      requires Valid() && slot in cdt.mem
      modifies this`reclaimed, cdt
      ensures Valid() && Course(g, objs, old(Caps()), old(reclaimed), Caps(), reclaimed, slot, immediate)
      ensures !preempted ==> Onward(g, objs, old(Caps()), Caps(), slot, immediate) && Tidy(old(Caps()), Caps(), slot)
      ensures !preempted && immediate ==> success
      ensures !preempted && success ==> D.MayDrop(Caps(), slot)
      ensures !preempted && !success ==> Home(Caps()[slot], slot)
      ensures !preempted ==> Leaves(old(Caps()), Caps(), slot)
      ensures old(Simple(Caps(), slot)) ==> !preempted && success && cdt.mem == old(cdt.mem)
      decreases immediate, 1, 1
    {
      NoCourse(g, objs, Caps(), reclaimed, slot, immediate);
      while cdt.mem[slot].cap != Null
        invariant Valid() && Course(g, objs, old(Caps()), old(reclaimed), Caps(), reclaimed, slot, immediate)
        invariant Onward(g, objs, old(Caps()), Caps(), slot, immediate) && Tidy(old(Caps()), Caps(), slot)
        invariant old(Simple(Caps(), slot)) ==> cdt.mem == old(cdt.mem)
        invariant Caps() == old(Caps()) || Leaves(old(Caps()), Caps(), slot)
        decreases |D.Unsettled(Caps())|, D.StepsLeft(Caps()[slot])
      {
        ghost var caps, r := Caps(), reclaimed;
        var finished;
        finished, preempted, success, irq := FinaliseRound(slot, immediate, g);
        if caps != old(Caps()) && !preempted { LeavesThen(old(Caps()), caps, Caps(), slot); }
        FurtherOn(g, objs, old(Caps()), old(reclaimed), caps, r, Caps(), reclaimed, slot, immediate, !preempted);
        if finished { return; }
      }
      assert Caps()[slot] == Null;
      return false, true, NoIrq;
    }

    /** One turn of the loop in finaliseSlot; `finished` when it returns from within. */
    method FinaliseRound(slot: Addr, immediate: bool, ghost g: Guard)
      returns (finished: bool, preempted: bool, success: bool, irq: Irq)
      requires Valid() && slot in cdt.mem && cdt.mem[slot].cap != Null
      modifies this`reclaimed, cdt
      ensures Valid() && Course(g, objs, old(Caps()), old(reclaimed), Caps(), reclaimed, slot, immediate)
      ensures !preempted ==> Onward(g, objs, old(Caps()), Caps(), slot, immediate) && Tidy(old(Caps()), Caps(), slot)
      ensures preempted ==> finished
      ensures finished && !preempted && immediate ==> success
      ensures finished && !preempted && success ==> D.MayDrop(Caps(), slot)
      ensures finished && !preempted && !success ==> Home(Caps()[slot], slot)
      ensures !preempted ==> Leaves(old(Caps()), Caps(), slot)
      ensures finished || Nearer(old(Caps()), Caps(), slot)
      ensures old(Simple(Caps(), slot)) ==> finished && !preempted && success && cdt.mem == old(cdt.mem)
      decreases immediate, 1, 0
    {
      var remainder;
      remainder, irq := FinaliseCapIn(slot);
      NoCourse(g, objs, Caps(), reclaimed, slot, immediate);
      if D.CapRemovable(remainder, slot) {
        LeavesNothing(Caps(), slot);
        return true, false, true, irq;
      }
      if !cdt.mem[slot].cap.Zombie? {
        Zombify(slot, remainder, immediate, g);
      }
      ghost var caps, r := Caps(), reclaimed;
      assert caps[slot] == cdt.mem[slot].cap == remainder;
      if !immediate && D.CapCyclicZombie(remainder, slot) {
        LeavesNothing(Caps(), slot);
        LeavesAfter(old(Caps()), caps, Caps(), slot);
        return true, false, false, irq;
      }
      preempted := ReduceZombie(slot, immediate, g);
      RoundEnds(g, objs, old(Caps()), old(reclaimed), caps, r, Caps(), reclaimed, slot, immediate, !preempted);
      if !preempted { preempted := PreemptionPoint(); }
      return preempted, preempted, false, NoIrq;
    }

    /** The finality test of finaliseSlot, which a zombie passes without a search, and finaliseCap. */
    method FinaliseCapIn(slot: Addr) returns (remainder: Cap, irq: Irq)
      requires Valid() && slot in cdt.mem && cdt.mem[slot].cap != Null
      ensures Caps()[slot] == cdt.mem[slot].cap
      ensures remainder == D.Remainder(cdt.mem[slot].cap, cdt.mem[slot].cap.Zombie? || D.IsFinal(Caps(), slot))
    {
      assert Caps()[slot] == cdt.mem[slot].cap;
      var final := cdt.mem[slot].cap.Zombie?;
      if !final {
        final := cdt.CdtIsFinal(slot);
        FinalAgrees(cdt.mem, Slots(cdt.tree), slot);
      }
      remainder, irq := FinaliseCap(cdt.mem[slot].cap, final);
    }

    /** The cdtUpdate of finaliseSlot: the last cap to a container becomes its zombie. */
    method Zombify(slot: Addr, remainder: Cap, ghost immediate: bool, ghost g: Guard)
      requires Valid() && slot in cdt.mem && (cdt.mem[slot].cap.CNode? || cdt.mem[slot].cap.Thread?)
      requires D.IsFinal(Caps(), slot) && remainder == D.Remainder(cdt.mem[slot].cap, true)
      modifies cdt
      ensures Valid() && Caps() == old(Caps())[slot := remainder] && remainder.Zombie?
      ensures Course(g, objs, old(Caps()), reclaimed, Caps(), reclaimed, slot, immediate)
      ensures Onward(g, objs, old(Caps()), Caps(), slot, immediate) && Tidy(old(Caps()), Caps(), slot)
      ensures Nearer(old(Caps()), Caps(), slot)
      ensures Stays(old(Caps()), Caps(), slot)
    {
      assert Caps()[slot] == cdt.mem[slot].cap;
      MakesZombie(Caps(), objs, reclaimed, slot);
      CourseZombie(g, Caps(), objs, reclaimed, slot, immediate);
      SelfHeldZombie(Caps(), slot);
      Update(slot, remainder);
    }

    /** The unexposed case of reduceZombie: the zombie goes to the first slot of its own object. */
    method MoveAside(slot: Addr, ghost g: Guard)
      requires Valid() && slot in cdt.mem && cdt.mem[slot].cap.Zombie?
      requires !D.CapRemovable(cdt.mem[slot].cap, slot) && !D.CapCyclicZombie(cdt.mem[slot].cap, slot)
      modifies cdt
      ensures Valid() && Course(g, objs, old(Caps()), reclaimed, Caps(), reclaimed, slot, false)
      ensures Onward(g, objs, old(Caps()), Caps(), slot, false) && Tidy(old(Caps()), Caps(), slot)
      ensures |D.Unsettled(Caps())| < |D.Unsettled(old(Caps()))| && Leaves(old(Caps()), Caps(), slot)
    {
      var ptr := ZombiePtr(cdt.mem[slot].cap);
      assert Caps()[slot] == cdt.mem[slot].cap;
      // "Cyclic zombie passed to unexposed reduceZombie"
      assert ptr != slot;
      D.SettleZombie(Caps(), objs, reclaimed, slot);
      CourseSettle(g, Caps(), objs, reclaimed, slot);
      LeavesSettled(Caps(), slot);
      if cdt.mem[ptr].cap.Zombie? {
        // "Moving self-referential Zombie aside."
        assert Caps()[ptr] == cdt.mem[ptr].cap;
        assert ptr != ZombiePtr(cdt.mem[ptr].cap);
      }
      SwapEitherWay(Caps(), ptr, slot);
      D.Agreeing(D.SwapCaps(Caps(), slot, ptr), objs, reclaimed);
      CapSwapForDelete(ptr, slot);
    }

    method ReduceZombie(slot: Addr, immediate: bool, ghost g: Guard) returns (preempted: bool)
      requires Valid() && slot in cdt.mem && cdt.mem[slot].cap.Zombie?
      requires !D.CapRemovable(cdt.mem[slot].cap, slot)
      requires !immediate ==> !D.CapCyclicZombie(cdt.mem[slot].cap, slot)
      modifies this`reclaimed, cdt
      ensures Valid() && Course(g, objs, old(Caps()), old(reclaimed), Caps(), reclaimed, slot, immediate)
      ensures !preempted ==> Onward(g, objs, old(Caps()), Caps(), slot, immediate) && Tidy(old(Caps()), Caps(), slot)
      ensures preempted || Nearer(old(Caps()), Caps(), slot)
      ensures preempted || Leaves(old(Caps()), Caps(), slot)
      decreases immediate, 0, 1
    {
      assert Caps()[slot] == cdt.mem[slot].cap;
      assert ZombieNumber(cdt.mem[slot].cap) > 0;
      if immediate {
        preempted := ReduceEndSlot(slot, g);
      } else {
        preempted := false;
        MoveAside(slot, g);
      }
    }

    /** The exposed case: the last slot the zombie counts is deleted, and if the zombie is still there it counts one
        slot less. */
    method ReduceEndSlot(slot: Addr, ghost g: Guard) returns (preempted: bool)
      requires Valid() && slot in cdt.mem && cdt.mem[slot].cap.Zombie?
      requires !D.CapRemovable(cdt.mem[slot].cap, slot)
      modifies this`reclaimed, cdt
      ensures Valid() && Course(g, objs, old(Caps()), old(reclaimed), Caps(), reclaimed, slot, true)
      ensures !preempted ==> Onward(g, objs, old(Caps()), Caps(), slot, true) && Tidy(old(Caps()), Caps(), slot)
      ensures preempted || Nearer(old(Caps()), Caps(), slot)
      ensures preempted || Leaves(old(Caps()), Caps(), slot)
      decreases true, 0, 0
    {
      var ptr, n, ztype := ZombiePtr(cdt.mem[slot].cap), ZombieNumber(cdt.mem[slot].cap), cdt.mem[slot].cap.ztype;
      ghost var c0, r0 := Caps(), reclaimed;
      assert c0[slot] == cdt.mem[slot].cap;
      var endSlot := D.SlotOf(ptr, n - 1);
      EndSlotExists(c0, objs, reclaimed, slot);
      preempted := CteDelete(endSlot, false, g);
      ghost var c1, r1 := Caps(), reclaimed;
      assert c1[slot] == cdt.mem[slot].cap && c1[endSlot] == cdt.mem[endSlot].cap;
      CourseElsewhere(g, c0, r0, c1, r1, objs, slot, endSlot);
      if preempted { return; }
      if endSlot != slot { LeavesAnyhow(c0, slot, endSlot); }
      CourseMeans(g, objs, c0, r0, c1, r1, endSlot, false);
      AfterEndSlot(c0, c1, objs, r0, r1, slot, endSlot);
      OnwardElsewhere(g, c0, c1, r1, objs, slot);
      if cdt.mem[slot].cap != Null {
        // "Expected recursion to result in Zombie."
        assert cdt.mem[slot].cap.Zombie?;
        var ptr2 := ZombiePtr(cdt.mem[slot].cap);
        if ptr == ptr2 && ZombieNumber(cdt.mem[slot].cap) == n && cdt.mem[slot].cap.ztype == ztype {
          assert cdt.mem[endSlot].cap == Null;
          StepDown(slot, n, g);
          CourseTwice(g, objs, c0, r0, c1, r1, Caps(), reclaimed, slot, true);
          OnwardTwice(g, objs, c0, c1, Caps(), slot, true);
        } else {
          // "Expected new Zombie to be self-referential."
          assert ptr2 == slot && ptr != slot;
        }
      }
    }

    /** Writing the lower number in place: the tree does not order zombies by it. */
    method StepDown(slot: Addr, n: nat, ghost g: Guard)
      requires Valid() && slot in cdt.mem && cdt.mem[slot].cap.Zombie? && 0 < n == ZombieNumber(cdt.mem[slot].cap)
      requires D.SlotOf(ZombiePtr(cdt.mem[slot].cap), n - 1) in cdt.mem
      requires cdt.mem[D.SlotOf(ZombiePtr(cdt.mem[slot].cap), n - 1)].cap == Null
      modifies cdt
      ensures Valid() && Caps() == old(Caps())[slot := ZombieSetNumber(old(Caps())[slot], n - 1)]
      ensures Course(g, objs, old(Caps()), reclaimed, Caps(), reclaimed, slot, true)
      ensures Onward(g, objs, old(Caps()), Caps(), slot, true) && Tidy(old(Caps()), Caps(), slot)
      ensures Nearer(old(Caps()), Caps(), slot)
    {
      assert Caps()[slot] == cdt.mem[slot].cap;
      D.CountDown(Caps(), objs, reclaimed, slot);
      CourseStepDown(g, Caps(), objs, reclaimed, slot);
      var z := ZombieSetNumber(cdt.mem[slot].cap, n - 1);
      ghost var m := cdt.mem[slot := cdt.mem[slot].(cap := z)];
      CapsAfterWrite(cdt.mem, m, slot, z);
      D.Agreeing(CapsOf(m), objs, reclaimed);
      AgreeingComparable(m, Slots(cdt.tree));
      cdt.SetCap(slot, z);
    }

    // ---- cteRevoke ----

    /** cdtFindChild, which has no answer for a slot that was emptied meanwhile. */
    method FindChild(slot: Addr) returns (halted: bool, child: Addr)
      requires Valid() && slot in cdt.mem
      ensures halted <==> cdt.mem[slot].cap == Null
      ensures !halted && child != 0 ==> child in cdt.mem && cdt.mem[child].cap != Null
      ensures !halted && child == 0 ==> Childless(slot)
      ensures !halted && !cdt.mem[slot].cap.Untyped? ==>
        if child == 0 then Children(cdt.mem, slot) == {} else child in Children(cdt.mem, slot)
      ensures !halted && IsRegion(cdt.mem[slot].cap) ==>
        if child == 0 then Exhausted(Caps(), cdt.mem[slot].cap) else Found(Caps(), cdt.mem[slot].cap, slot, child)
    {
      D.InvMeans(Caps(), objs, reclaimed);
      assert Caps()[slot] == cdt.mem[slot].cap && D.RefersRightly(objs, Caps()[slot]);
      if cdt.mem[slot].cap == Null { return true, 0; }
      child := cdt.CdtFindChild(slot);
      halted := false;
      if IsRegion(cdt.mem[slot].cap) {
        if child == 0 {
          ExhaustedHere(cdt.mem, Slots(cdt.tree), slot);
        } else {
          FoundHere(cdt.mem, Slots(cdt.tree), slot, child);
        }
      }
    }

    /** Nothing that cteRevoke would still delete. */
    ghost predicate Childless(slot: Addr)
      requires cdt.Valid()
      reads this, cdt
    {
      && slot in cdt.mem && (cdt.mem[slot].cap.Untyped? ==> cdt.mem[slot].cap.blockSize >= 4)
      && cdt.NoChildren(slot)
    }

    /** One round of cteRevoke. A child found by order goes and nothing else changes; whatever is deleted, every
        completed round makes the state lighter, and no round touches what is secure. */
    method RevokeRound(ghost m0: Memory, ghost r0: set<Addr>, slot: Addr, child: Addr) returns (preempted: bool)
      requires Valid() && slot in cdt.mem && slot in m0 && cdt.mem[slot].cap != Null
      requires child in cdt.mem && cdt.mem[child].cap != Null && SoFar(m0, r0, slot) && MayRevoke(m0, slot, child)
      modifies this`reclaimed, cdt
      ensures Valid() && r0 <= reclaimed && NotHeavier(CapsOf(m0), Caps())
      ensures old(Revoking(m0, slot, child)) ==> Revoked(m0, cdt.mem, slot) && cdt.mem[slot].cap == m0[slot].cap
      ensures Spared(SecureGuard(CapsOf(m0), objs, slot), CapsOf(m0), Caps())
      ensures !preempted ==> SoFar(m0, r0, slot) && D.Weight(Caps()) < D.Weight(old(Caps()))
    {
      ghost var m, ordered := cdt.mem, Revoking(m0, slot, child);
      if ordered { ChildIsSimple(m, objs, reclaimed, slot, child); }
      preempted := DeleteChild(m0, r0, slot, child);
      if ordered { ChildRemoved(m0, m, cdt.mem, slot, child); }
      if !preempted { preempted := PreemptionPoint(); }
    }

    method DeleteChild(ghost m0: Memory, ghost r0: set<Addr>, slot: Addr, child: Addr) returns (preempted: bool)
      requires Valid() && slot in m0 && child in cdt.mem && cdt.mem[child].cap != Null
      requires SoFar(m0, r0, slot) && MayRevoke(m0, slot, child)
      modifies this`reclaimed, cdt
      ensures Valid() && r0 <= reclaimed && NotHeavier(CapsOf(m0), Caps())
      ensures Spared(SecureGuard(CapsOf(m0), objs, slot), CapsOf(m0), Caps())
      ensures !preempted ==> SoFar(m0, r0, slot) && D.Weight(Caps()) < D.Weight(old(Caps()))
      ensures old(Simple(Caps(), child)) ==>
        !preempted && SameBut(old(cdt.mem), cdt.mem, {child}) && cdt.mem[child].cap == Null
    {
      ghost var c0, caps, r := CapsOf(m0), Caps(), reclaimed;
      assert caps[child] == cdt.mem[child].cap;
      RoundReady(c0, caps, objs, r0, r, slot, child);
      preempted := CteDelete(child, true, SecureGuard(c0, objs, slot));
      assert Caps()[child] == cdt.mem[child].cap;
      RoundOn(c0, caps, Caps(), objs, r0, r, reclaimed, slot, child);
    }

    /** Revocation by order, begun in memory `m0`, is at this child. */
    ghost predicate Revoking(m0: Memory, slot: Addr, child: Addr)
      reads cdt
    {
      && slot in m0 && m0[slot].cap != Null && !m0[slot].cap.Untyped? && Revoked(m0, cdt.mem, slot)
      && child in Children(cdt.mem, slot)
    }

    /** As long as the untyped cap being revoked is there, the child was found for it. */
    ghost predicate MayRevoke(m0: Memory, slot: Addr, child: Addr)
      requires slot in m0
      reads this, cdt
    {
      IsRegion(m0[slot].cap) && slot in cdt.mem && cdt.mem[slot].cap == m0[slot].cap ==>
        child in cdt.mem && Found(Caps(), m0[slot].cap, slot, child)
    }

    /** Where cteRevoke stands between two rounds. */
    ghost predicate Between(m0: Memory, r0: set<Addr>, slot: Addr, halted: bool, child: Addr)
      requires cdt.Valid() && slot in m0
      reads this, cdt
    {
      && slot in cdt.mem && (halted <==> cdt.mem[slot].cap == Null) && SoFar(m0, r0, slot)
      && (!halted ==> if child == 0 then Childless(slot) else child in cdt.mem && cdt.mem[child].cap != Null)
      && (!m0[slot].cap.Untyped? ==>
            && !halted && Revoked(m0, cdt.mem, slot)
            && if child == 0 then Children(cdt.mem, slot) == {} else child in Children(cdt.mem, slot))
      && (!halted && IsRegion(cdt.mem[slot].cap) ==>
            if child == 0 then Exhausted(Caps(), cdt.mem[slot].cap)
            else Found(Caps(), cdt.mem[slot].cap, slot, child))
    }

    ghost predicate SoFar(m0: Memory, r0: set<Addr>, slot: Addr)
      reads this, cdt
    {
      Progress(CapsOf(m0), Caps(), objs, r0, reclaimed, slot)
    }

    /** What revoking untyped memory leaves. Preempted or not, what is secure keeps its cap. Otherwise every slot is as
        it was, emptied or with a zombie come home; the revocation halts if the cap revoked has gone, unless the zombie
        of the object whose first slot this is has taken its place; and the cap is left only if it was supported, and
        exactly then where no object outside the region comes between. Where it is left and every object lies whole, no
        typed cap to an object in the region is left but badged ones to an endpoint in its last sixteen bytes. */
    ghost predicate Outlived(m0: Memory, r0: set<Addr>, slot: Addr, outcome: Outcome)
      requires slot in m0
      reads this, cdt
    {
      var c0 := CapsOf(m0);
      && (forall k :: k in Secure(c0, objs, slot) ==> k in Caps() && Caps()[k] == c0[k])
      && (outcome != Preempted ==>
            && Steady(c0, Caps())
            && (slot in objs || (outcome == Halted <==> Caps()[slot] != c0[slot]))
            && (IsRegion(c0[slot]) && Undivided(c0, c0[slot]) && Caps()[slot] == c0[slot] ==> Freed(Caps(), c0[slot]))
            && (IsRegion(c0[slot]) && AllNamed(c0, objs, r0) && Caps()[slot] == c0[slot] ==>
                  Supportable(c0, objs, slot))
            && (Decided(c0, objs, r0, slot) ==> (Caps()[slot] == c0[slot] <==> Supportable(c0, objs, slot))))
    }

    lemma NothingLeft(m0: Memory, r0: set<Addr>, slot: Addr, halted: bool)
      requires Valid() && slot in m0 && m0[slot].cap != Null && Between(m0, r0, slot, halted, 0)
      ensures Outlived(m0, r0, slot, if halted then Halted else Finished)
      ensures !m0[slot].cap.Untyped? ==> forall a :: a in Children(m0, slot) && a in cdt.mem ==> cdt.mem[a].cap == Null
    {
      RegionLeft(m0, r0, slot, halted);
      D.InvMeans(Caps(), objs, reclaimed);
      assert Caps()[slot] == cdt.mem[slot].cap && D.RefersRightly(objs, Caps()[slot]);
      if Decided(CapsOf(m0), objs, r0, slot) { SupportIsSecure(CapsOf(m0), objs, r0, slot); }
      if !m0[slot].cap.Untyped? { ChildrenGone(m0, cdt.mem, slot); }
    }

    /** What a cap to untyped memory that is left means for the region. */
    lemma RegionLeft(m0: Memory, r0: set<Addr>, slot: Addr, halted: bool)
      requires Valid() && slot in m0 && m0[slot].cap != Null && Between(m0, r0, slot, halted, 0)
      ensures slot in Caps() && var c0 := CapsOf(m0);
        && (IsRegion(c0[slot]) && Undivided(c0, c0[slot]) && Caps()[slot] == c0[slot] ==> Freed(Caps(), c0[slot]))
        && (IsRegion(c0[slot]) && AllNamed(c0, objs, r0) && Caps()[slot] == c0[slot] ==> Supportable(c0, objs, slot))
    {
      var c0 := CapsOf(m0);
      D.InvMeans(Caps(), objs, reclaimed);
      assert Caps()[slot] == cdt.mem[slot].cap && D.RefersRightly(objs, Caps()[slot]);
      if IsRegion(c0[slot]) && AllNamed(c0, objs, r0) && Caps()[slot] == c0[slot] {
        LeftIsSupported(c0, Caps(), objs, r0, reclaimed, slot);
      }
      if IsRegion(c0[slot]) && Undivided(c0, c0[slot]) && Caps()[slot] == c0[slot] {
        UndividedStays(c0, Caps(), objs, r0, reclaimed, c0[slot]);
        FreedHere(cdt.mem, Slots(cdt.tree), slot);
      }
    }

    lemma NothingToRevoke(slot: Addr)
      requires Valid() && slot in cdt.mem && cdt.mem[slot].cap == Null
      ensures Outlived(cdt.mem, reclaimed, slot, Finished)
    {
      assert Caps()[slot] == Null;
    }

    /** One turn of the loop in cteRevoke. */
    method RevokeTurn(ghost m0: Memory, ghost r0: set<Addr>, slot: Addr, child: Addr)
      returns (preempted: bool, halted: bool, next: Addr)
      requires Valid() && slot in m0 && m0[slot].cap != Null && child != 0 && Between(m0, r0, slot, false, child)
      modifies this`reclaimed, cdt
      ensures Valid() && r0 <= reclaimed && NotHeavier(CapsOf(m0), Caps())
      ensures !m0[slot].cap.Untyped? ==> Revoked(m0, cdt.mem, slot)
      ensures preempted ==> Outlived(m0, r0, slot, Preempted)
      ensures !preempted ==> D.Weight(Caps()) < D.Weight(old(Caps())) && Between(m0, r0, slot, halted, next)
    {
      assert m0[slot].cap.Untyped? || Revoking(m0, slot, child);
      preempted := RevokeRound(m0, r0, slot, child);
      assert slot in Caps();
      halted, next := false, 0;
      if !preempted { halted, next := FindChild(slot); }
    }

    /** Revocation ends for every cap, each round making the state lighter. It ends preempted, or with no child
        left, or halted because a round emptied the slot being revoked. The children of a cap to anything but untyped
        memory are found by order: exactly they go and nothing else changes. */
    method CteRevoke(slot: Addr) returns (outcome: Outcome)
      requires Valid() && slot in cdt.mem
      modifies this`reclaimed, cdt
      ensures Valid() && old(reclaimed) <= reclaimed && NotHeavier(old(Caps()), Caps())
      ensures outcome == Halted ==> old(cdt.mem[slot].cap).Untyped? && cdt.mem[slot].cap == Null
      ensures outcome == Finished && old(cdt.mem[slot].cap) != Null ==> cdt.mem[slot].cap != Null && Childless(slot)
      ensures !old(cdt.mem[slot].cap).Untyped? ==> Revoked(old(cdt.mem), cdt.mem, slot)
      ensures !old(cdt.mem[slot].cap).Untyped? && outcome == Finished ==>
        forall a :: a in old(Children(cdt.mem, slot)) ==> cdt.mem[a].cap == Null
      ensures Outlived(old(cdt.mem), old(reclaimed), slot, outcome)
    {
      if cdt.mem[slot].cap == Null {
        NothingToRevoke(slot);
        return Finished;
      }
      ghost var m0, r0 := cdt.mem, reclaimed;
      var halted, child := FindChild(slot);
      while !halted && child != 0
        invariant Valid() && Between(m0, r0, slot, halted, child)
        decreases D.Weight(Caps())
      {
        var preempted;
        preempted, halted, child := RevokeTurn(m0, r0, slot, child);
        if preempted { return Preempted; }
      }
      NothingLeft(m0, r0, slot, halted);
      return if halted then Halted else Finished;
    }
  }
}
