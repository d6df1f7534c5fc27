/** Two states from which deletion does not end as one might expect. */
module DeletionExamples {
  import opened Basics
  import opened CapOrder
  import opened CdtMemory
  import opened CdtTree
  import opened Deletion
  import opened DeletionState
  import opened RevokeSupport
  import opened Shelter

  // ---- Revoking untyped memory from within ----

  /** A CNode of two slots, made from the untyped memory whose cap lies in the second of them. */
  const OWN_OBJECTS: Objects := map[64 := ZombieCNode(1)]

  const OWN_CAPS: Caps := map[16 := CNode(64, 1, 0), 64 := Null, 80 := Untyped(64, 6)]

  lemma OwnSizes()
    ensures HighBits(64, 2) == 64 && Pow2(1) == 2 && Pow2(5) == 32 && Pow2(6) == 64
    ensures SlotCount(ZombieCNode(1)) == 2 && SlotOf(64, 0) == 64 && SlotOf(64, 1) == 80
  {
    assert Pow2(3) == 8;
  }

  lemma OwnLayout()
    ensures InvAt(Layout, OWN_CAPS, OWN_OBJECTS, {}) && InvAt(Contents, OWN_CAPS, OWN_OBJECTS, {})
  {
    OwnSizes();
  }

  lemma OwnCapsAgree()
    ensures InvAt(Capabilities, OWN_CAPS, OWN_OBJECTS, {})
  {
    var u, c := OWN_CAPS[80], OWN_CAPS[16];
    assert Agree(u, u) && Agree(u, c) && Agree(c, u) && Agree(c, c);
    forall a, b | a in OWN_CAPS && b in OWN_CAPS && OWN_CAPS[a] != Null && OWN_CAPS[b] != Null
      ensures Agree(OWN_CAPS[a], OWN_CAPS[b])
    {
      assert (a == 16 || a == 80) && (b == 16 || b == 80);
    }
  }

  lemma OwnCapsKept()
    ensures Inv(OWN_CAPS, OWN_OBJECTS, {}) && AllNamed(OWN_CAPS, OWN_OBJECTS, {})
  {
    OwnLayout();
    OwnCapsAgree();
    assert Names(OWN_CAPS[16], 64);
  }

  /** A CNode at the start of a region that is large enough for it. */
  lemma StartsRegion(base: nat, n: nat, r: nat)
    requires 0 < base && r + CTE_SIZE_BITS <= n && HighBits(base, r + 1) == base
    ensures Inside(CapTo(base, ZombieCNode(r)), base, n)
    ensures Inside(CNode(base, r, 0), base, n)
  {
    ZombieRoundTrip(0, ZombieCNode(r), base);
    Pow2Grows(r + CTE_SIZE_BITS, n);
    BytesInBounds(base, r + CTE_SIZE_BITS, base, n);
  }

  lemma OwnCapsLost()
    ensures !Supportable(OWN_CAPS, OWN_OBJECTS, 80)
  {
    OwnSizes();
    StartsRegion(64, 6, 1);
    OwnCapsKept();
    assert SlotIn(OWN_OBJECTS, 64, 80);
    OwnObjectLost(OWN_CAPS, OWN_OBJECTS, {}, 80, 64);
  }

  /** Untyped memory whose cap nothing supports. */
  method RevokeUnsupported(cspace: CSpace, slot: Addr) returns (outcome: Outcome)
    requires cspace.Valid() && slot in cspace.cdt.mem && slot !in cspace.objs && IsRegion(cspace.cdt.mem[slot].cap)
    requires AllNamed(cspace.Caps(), cspace.objs, cspace.reclaimed) && !Supportable(cspace.Caps(), cspace.objs, slot)
    modifies cspace`reclaimed, cspace.cdt
    ensures outcome == Preempted || outcome == Halted
  {
    assert cspace.Caps()[slot] == cspace.cdt.mem[slot].cap;
    outcome := cspace.CteRevoke(slot);
  }

  /** Two caps put into empty slots, the second derived from the first. */
  method TwoCaps(slots: set<Addr>, a: Addr, capA: Cap, b: Addr, capB: Cap) returns (cdt: Cdt)
    requires 0 !in slots && |slots| <= MAX_SLOTS && a in slots && b in slots && a != b && capA != Null && capB != Null
    requires Agree(capA, capA) && Agree(capA, capB) && Agree(capB, capA) && Agree(capB, capB)
    ensures cdt.Valid() && fresh(cdt) && cdt.mem.Keys == slots
    ensures forall x :: x in slots ==> cdt.mem[x].cap == if x == a then capA else if x == b then capB else Null
  {
    cdt := new Cdt(slots);
    cdt.InsertNewCap(0, a, capA);
    cdt.InsertNewCap(a, b, capB);
  }

  /** The state of that name: a CNode of two slots made from untyped memory whose cap lies in the second of them. */
  method OwnNode() returns (cspace: CSpace)
    ensures cspace.Valid() && cspace.Caps() == OWN_CAPS && cspace.objs == OWN_OBJECTS && cspace.reclaimed == {}
    ensures fresh(cspace) && fresh(cspace.cdt) && 80 in cspace.cdt.mem && IsRegion(cspace.cdt.mem[80].cap)
    ensures AllNamed(cspace.Caps(), cspace.objs, {}) && !Supportable(cspace.Caps(), cspace.objs, 80)
  {
    OwnCapsKept();
    OwnCapsLost();
    var cdt := TwoCaps({16, 64, 80}, 80, OWN_CAPS[80], 16, OWN_CAPS[16]);
    assert CapsOf(cdt.mem) == OWN_CAPS;
    cspace := new CSpace(cdt, OWN_OBJECTS);
  }

  /** Untyped memory whose cap lies in a CNode made from it: revoking it ends in `fail`, if it is not preempted. */
  method RevokeFromWithin() returns (outcome: Outcome)
    ensures outcome == Preempted || outcome == Halted
  {
    var cspace := OwnNode();
    outcome := RevokeUnsupported(cspace, 80);
  }

  // ---- Deleting a CNode from within ----

  /** A CNode of two slots whose only cap lies in the second of them. */
  const SELF_CAPS: Caps := map[64 := Null, 80 := CNode(64, 1, 0)]

  lemma SelfCapsKept()
    ensures Inv(SELF_CAPS, OWN_OBJECTS, {})
  {
    OwnSizes();
    var c := SELF_CAPS[80];
    assert Agree(c, c);
    assert InvAt(Layout, SELF_CAPS, OWN_OBJECTS, {}) && InvAt(Capabilities, SELF_CAPS, OWN_OBJECTS, {});
    assert InvAt(Contents, SELF_CAPS, OWN_OBJECTS, {});
  }

  lemma SelfCapsHeld()
    ensures SelfHeld(SELF_CAPS, 80) && Aside(SELF_CAPS, 80) == map[64 := ZombieNew(2, ZombieCNode(1), 64), 80 := Null]
    ensures |Occupied(SELF_CAPS)| == |Occupied(Aside(SELF_CAPS, 80))| == 1
    ensures Weight(Aside(SELF_CAPS, 80)) < Weight(SELF_CAPS)
  {
    SelfCapsAside();
    SelfCapsKept();
    AsideLighter(SELF_CAPS, OWN_OBJECTS, {}, 80);
    assert Occupied(SELF_CAPS) == {80};
  }

  lemma SelfCapsAside()
    ensures SelfHeld(SELF_CAPS, 80) && Aside(SELF_CAPS, 80) == map[64 := ZombieNew(2, ZombieCNode(1), 64), 80 := Null]
  {
    OwnSizes();
    SelfCapsKept();
    LastSlotSelfHeld(SELF_CAPS, OWN_OBJECTS, {}, 80);
  }

  method SelfNode() returns (cspace: CSpace)
    ensures cspace.Valid() && cspace.Caps() == SELF_CAPS && fresh(cspace) && fresh(cspace.cdt)
  {
    SelfCapsKept();
    var cdt := new Cdt({64, 80});
    cdt.InsertNewCap(0, 80, SELF_CAPS[80]);
    assert CapsOf(cdt.mem) == SELF_CAPS;
    cspace := new CSpace(cdt, OWN_OBJECTS);
  }

  /** Deleting the CNode leaves its zombie in its first slot. */
  method DeleteFromWithin() returns (preempted: bool, cspace: CSpace)
    ensures cspace.Valid()
    ensures !preempted ==> cspace.Caps() == map[64 := ZombieNew(2, ZombieCNode(1), 64), 80 := Null]
  {
    cspace := SelfNode();
    SelfCapsAside();
    ghost var c0 := cspace.Caps();
    preempted := cspace.CteDelete(80, true, Guard({}, {}));
    if !preempted { LeavesMeans(c0, cspace.Caps(), 80); }
  }
}
