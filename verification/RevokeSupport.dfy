/** When the cap to untyped memory outlives its own revocation: what the searches of cdtFindChild cannot return, and
    what taking apart the objects they do return cannot reach (cdt.c, cnode.c). */
module RevokeSupport {
  import opened Basics
  import opened CapOrder
  import opened DeletionState
  import opened Shelter

  predicate IsRegion(c: Cap) {
    c.Untyped? && c.blockSize >= EP_SIZE_BITS
  }

  /** Where a cap stands in the order, depths and slots aside. */
  function Place(c: Cap): Key {
    KeyOf(Slot(c, 0, 0))
  }

  /** The object lies in the region, byte for byte. */
  ghost predicate Within(u: Cap, c: Cap)
    requires IsRegion(u)
  {
    Inside(c, u.ptr, u.blockSize)
  }

  /** Up to the top of the region: what the search of it looks at. */
  predicate Sighted(u: Cap, c: Cap)
    requires IsRegion(u)
  {
    c != Null && CapCompare(Place(c), KeyOf(RangeTop(u.ptr, u.blockSize))) != GT
  }

  /** What the search may come to return, as long as a cap stands in the shield's place. */
  ghost predicate Reached(u: Cap, shield: Cap, c: Cap)
    requires IsRegion(u)
  {
    Sighted(u, c) && Within(u, c) && CapCompare(Place(shield), Place(c)) != GT
  }

  /** What may follow a cap in child order, were it deep enough. */
  predicate MayFollow(u: Cap, c: Cap)
    requires IsRegion(u)
  {
    c.Untyped? && CapCompare(Place(c), Place(u)) != LT && CapCompare(Place(c), Place(BuildLargestChild(u))) != GT
  }

  /** Some cap to the object; all of them have the same place and the same extent. */
  function CapTo(p: Addr, z: ZombieType): Cap {
    ZombieNew(0, z, p)
  }

  // ---- Support ----

  ghost predicate Shields(caps: Caps, slot: Addr, keep: set<Addr>, shield: Addr)
    requires slot in caps && IsRegion(caps[slot])
  {
    && shield in caps && Sighted(caps[slot], caps[shield]) && !Within(caps[slot], caps[shield])
    && (shield in keep || Lasting(caps[shield]))
  }

  /** The object a slot to be kept belongs to: no search returns a cap to it, and a cap to it is kept where its zombie
      would come to that slot. */
  ghost predicate ObjectStays(caps: Caps, objs: Objects, slot: Addr, keep: set<Addr>, shield: Addr, p: Addr, k: Addr)
    requires slot in caps && IsRegion(caps[slot]) && shield in caps && p in objs
  {
    && !Reached(caps[slot], caps[shield], CapTo(p, objs[p]))
    && (k == p ==> HeldBy(caps, keep, p))
  }

  /** A set of slots that holds itself up: a cap out of the region stands above all that the search might return of it,
      none of its caps can follow in child order, and the objects its slots belong to stay. */
  ghost predicate Supported(caps: Caps, objs: Objects, slot: Addr, keep: set<Addr>, shield: Addr)
    requires slot in caps && IsRegion(caps[slot])
  {
    && slot in keep && keep <= Occupied(caps) && Shields(caps, slot, keep, shield)
    && (forall k :: k in keep ==>
          !Reached(caps[slot], caps[shield], caps[k]) && (k == slot || !MayFollow(caps[slot], caps[k])))
    && (forall p, k :: k in keep && SlotIn(objs, p, k) ==> ObjectStays(caps, objs, slot, keep, shield, p, k))
  }

  /** The objects a supported set depends on. */
  ghost function Stake(caps: Caps, objs: Objects, keep: set<Addr>, shield: Addr): set<Addr>
    requires shield in caps
  {
    set p | p in objs && ((exists k :: k in keep && SlotIn(objs, p, k)) || (shield !in keep && Names(caps[shield], p)))
  }

  /** The first slots of those objects, unless a cap to the object is kept: no cap to an object that may yet be returned
      lies there, to be deleted with whatever zombie has come home meanwhile. */
  ghost predicate Unhazarded(caps: Caps, objs: Objects, slot: Addr, keep: set<Addr>, shield: Addr)
    requires slot in caps && IsRegion(caps[slot]) && shield in caps
  {
    forall p :: p in Stake(caps, objs, keep, shield) && p in caps ==>
      HeldBy(caps, keep, p) || !(IsContainer(caps[p]) && Reached(caps[slot], caps[shield], caps[p]))
  }

  ghost predicate Secured(caps: Caps, objs: Objects, slot: Addr, keep: set<Addr>, shield: Addr) {
    && slot in caps && IsRegion(caps[slot]) && Supported(caps, objs, slot, keep, shield)
    && Unhazarded(caps, objs, slot, keep, shield)
  }

  /** Revocation may leave the cap where it is. */
  ghost predicate Supportable(caps: Caps, objs: Objects, slot: Addr) {
    slot in caps && IsRegion(caps[slot]) && exists keep, shield :: Supported(caps, objs, slot, keep, shield)
  }

  /** The slots revocation leaves alone. */
  ghost function Secure(caps: Caps, objs: Objects, slot: Addr): set<Addr> {
    set k | k in caps && exists keep, shield :: k in keep && Secured(caps, objs, slot, keep, shield)
  }

  ghost predicate StakeOf(caps: Caps, objs: Objects, slot: Addr, p: Addr) {
    exists keep, shield :: Secured(caps, objs, slot, keep, shield) && p in Stake(caps, objs, keep, shield)
  }

  ghost function SecureGuard(caps: Caps, objs: Objects, slot: Addr): Guard {
    Guard(Secure(caps, objs, slot), set p | p in objs && StakeOf(caps, objs, slot, p))
  }

  // ---- Places ----

  /** A place says whether the cap is in the region. */
  lemma PlaceDecides(u: Cap, a: Cap, b: Cap)
    requires IsRegion(u) && Sighted(u, a) && b != Null && Agree(a, b) && CapCompare(Place(a), Place(b)) == EQ
    ensures Within(u, a) <==> Within(u, b)
  {
  }

  /** All caps to an object stand in one place and have one extent. */
  lemma NamedPlace(objs: Objects, slots: set<Addr>, c: Cap, p: Addr)
    requires LaidOut(objs, slots) && RefersRightly(objs, c) && Names(c, p)
    ensures p in objs && CapTo(p, objs[p]).Zombie? && ZombiePtr(CapTo(p, objs[p])) == p
    ensures Place(c) == Place(CapTo(p, objs[p])) && SizeBits(c) == SizeBits(CapTo(p, objs[p]))
    ensures forall u :: IsRegion(u) ==> (Within(u, c) <==> Within(u, CapTo(p, objs[p])))
  {
    ZombieRoundTrip(0, objs[p], p);
  }

  lemma FirstSlot(objs: Objects, p: Addr)
    requires p in objs
    ensures SlotIn(objs, p, p)
  {
    assert SlotOf(p, 0) == p && SlotCount(objs[p]) > 0;
  }

  // ---- A secured slot keeps its cap ----

  lemma SecureGuards(caps: Caps, objs: Objects, slot: Addr)
    ensures Guards(SecureGuard(caps, objs, slot), caps, objs)
  {
    var g := SecureGuard(caps, objs, slot);
    forall p, k | k in g.keep && SlotIn(objs, p, k) ensures p in g.objects {
      var keep, shield :| k in keep && Secured(caps, objs, slot, keep, shield);
      assert p in Stake(caps, objs, keep, shield);
    }
    forall p | p in g.objects && p in g.keep ensures HeldBy(caps, g.keep, p) {
      var keep, shield :| p in keep && Secured(caps, objs, slot, keep, shield);
      FirstSlot(objs, p);
      assert ObjectStays(caps, objs, slot, keep, shield, p, p);
      HeldInSecure(caps, objs, slot, keep, shield, p);
    }
  }

  lemma HeldInSecure(caps: Caps, objs: Objects, slot: Addr, keep: set<Addr>, shield: Addr, p: Addr)
    requires Secured(caps, objs, slot, keep, shield) && HeldBy(caps, keep, p)
    ensures HeldBy(caps, Secure(caps, objs, slot), p)
  {
    var y :| y in keep && y in caps && Names(caps[y], p);
    assert y in Secure(caps, objs, slot);
  }

  /** How far revocation has come, with nothing guarded lost. */
  ghost predicate Underway(c0: Caps, c1: Caps, objs: Objects, r0: set<Addr>, r1: set<Addr>, slot: Addr) {
    && Inv(c0, objs, r0) && Inv(c1, objs, r1) && Steady(c0, c1) && NoNewLasting(c0, c1)
    && Spared(SecureGuard(c0, objs, slot), c0, c1)
  }

  /** A cap stands in the shield's place throughout. */
  lemma ShieldStands(c0: Caps, c1: Caps, objs: Objects, r0: set<Addr>, r1: set<Addr>, slot: Addr,
                     keep: set<Addr>, shield: Addr) returns (y: Addr)
    requires Underway(c0, c1, objs, r0, r1, slot) && Secured(c0, objs, slot, keep, shield)
    ensures y in c1 && Sighted(c0[slot], c1[y]) && Place(c1[y]) == Place(c0[shield])
  {
    InvMeans(c0, objs, r0);
    InvMeans(c1, objs, r1);
    if shield in keep {
      y := shield;
      assert y in Secure(c0, objs, slot);
    } else {
      var p := CapPtr(c0[shield]);
      assert RefersRightly(objs, c0[shield]) && Names(c0[shield], p);
      assert p in Stake(c0, objs, keep, shield);
      assert p in SecureGuard(c0, objs, slot).objects && LastingAt(c0, p);
      y :| y in c1 && Names(c1[y], p) && Lasting(c1[y]);
      NamedPlace(objs, c0.Keys, c0[shield], p);
      NamedPlace(objs, c1.Keys, c1[y], p);
    }
  }

  /** What cdtFindTypedInRange returns. */
  ghost predicate TopSighted(caps: Caps, u: Cap, child: Addr)
    requires IsRegion(u)
  {
    && child in caps && Sighted(u, caps[child]) && Within(u, caps[child])
    && forall a :: a in caps && Sighted(u, caps[a]) ==> CapCompare(Place(caps[a]), Place(caps[child])) != GT
  }

  lemma FoundReached(c0: Caps, c1: Caps, objs: Objects, r0: set<Addr>, r1: set<Addr>, slot: Addr, child: Addr,
                     keep: set<Addr>, shield: Addr)
    requires Underway(c0, c1, objs, r0, r1, slot) && Secured(c0, objs, slot, keep, shield)
    requires TopSighted(c1, c0[slot], child)
    ensures Reached(c0[slot], c0[shield], c1[child])
  {
    var y := ShieldStands(c0, c1, objs, r0, r1, slot, keep, shield);
  }

  /** It is neither a cap to be kept nor one to an object they depend on. */
  lemma FoundApart(c0: Caps, c1: Caps, objs: Objects, r0: set<Addr>, r1: set<Addr>, slot: Addr, child: Addr,
                   keep: set<Addr>, shield: Addr)
    requires Underway(c0, c1, objs, r0, r1, slot) && Secured(c0, objs, slot, keep, shield)
    requires TopSighted(c1, c0[slot], child)
    ensures child !in keep
    ensures IsContainer(c1[child]) ==> CapPtr(c1[child]) !in Stake(c0, objs, keep, shield)
  {
    FoundReached(c0, c1, objs, r0, r1, slot, child, keep, shield);
    forall k | k in keep && k in c1 ensures !Reached(c0[slot], c0[shield], c1[k]) {
      assert k in Secure(c0, objs, slot);
    }
    if IsContainer(c1[child]) && CapPtr(c1[child]) in Stake(c0, objs, keep, shield) {
      StakeUnfound(c0, c1, objs, r0, r1, slot, child, keep, shield);
      assert false;
    }
  }

  lemma StakeUnfound(c0: Caps, c1: Caps, objs: Objects, r0: set<Addr>, r1: set<Addr>, slot: Addr, child: Addr,
                     keep: set<Addr>, shield: Addr)
    requires Inv(c0, objs, r0) && Inv(c1, objs, r1) && Secured(c0, objs, slot, keep, shield)
    requires child in c1 && IsContainer(c1[child]) && CapPtr(c1[child]) in Stake(c0, objs, keep, shield)
    ensures !Reached(c0[slot], c0[shield], c1[child])
  {
    InvMeans(c0, objs, r0);
    InvMeans(c1, objs, r1);
    var p := CapPtr(c1[child]);
    NamedPlace(objs, c1.Keys, c1[child], p);
    if shield !in keep && Names(c0[shield], p) {
      NamedPlace(objs, c0.Keys, c0[shield], p);
    } else {
      var k :| k in keep && SlotIn(objs, p, k);
      assert ObjectStays(c0, objs, slot, keep, shield, p, k);
    }
  }

  /** Where it lies in the first slot of an object they depend on, a cap to that object is kept. */
  lemma FoundHeld(c0: Caps, c1: Caps, objs: Objects, r0: set<Addr>, r1: set<Addr>, slot: Addr, child: Addr,
                  keep: set<Addr>, shield: Addr)
    requires Underway(c0, c1, objs, r0, r1, slot) && Secured(c0, objs, slot, keep, shield)
    requires TopSighted(c1, c0[slot], child) && IsContainer(c1[child]) && child in Stake(c0, objs, keep, shield)
    ensures HeldBy(c0, keep, child)
  {
    FoundReached(c0, c1, objs, r0, r1, slot, child, keep, shield);
    FoundApart(c0, c1, objs, r0, r1, slot, child, keep, shield);
    assert c1[child] == c0[child];
  }

  /** What the search of the region returns may be deleted. */
  lemma FoundExpendable(c0: Caps, c1: Caps, objs: Objects, r0: set<Addr>, r1: set<Addr>, slot: Addr, child: Addr)
    requires Underway(c0, c1, objs, r0, r1, slot) && slot in c0 && IsRegion(c0[slot])
    requires TopSighted(c1, c0[slot], child)
    ensures Ready(SecureGuard(c0, objs, slot), c1, objs, child, true)
  {
    var g := SecureGuard(c0, objs, slot);
    SecureGuards(c0, objs, slot);
    GuardsStay(g, c0, c1, objs);
    forall keep, shield | Secured(c0, objs, slot, keep, shield) ensures child !in keep {
      FoundApart(c0, c1, objs, r0, r1, slot, child, keep, shield);
    }
    if IsContainer(c1[child]) {
      var p := CapPtr(c1[child]);
      if p in g.objects {
        var keep, shield :| Secured(c0, objs, slot, keep, shield) && p in Stake(c0, objs, keep, shield);
        FoundApart(c0, c1, objs, r0, r1, slot, child, keep, shield);
        assert false;
      }
      if child in g.objects {
        var keep, shield :| Secured(c0, objs, slot, keep, shield) && child in Stake(c0, objs, keep, shield);
        FoundHeld(c0, c1, objs, r0, r1, slot, child, keep, shield);
        HeldInSecure(c0, objs, slot, keep, shield, child);
      }
    }
  }

  /** So may a child by order. */
  lemma FollowerExpendable(c0: Caps, c1: Caps, objs: Objects, r0: set<Addr>, r1: set<Addr>, slot: Addr, child: Addr)
    requires Underway(c0, c1, objs, r0, r1, slot) && slot in c0 && IsRegion(c0[slot])
    requires child in c1 && child != slot && MayFollow(c0[slot], c1[child])
    ensures Ready(SecureGuard(c0, objs, slot), c1, objs, child, true)
  {
    var g := SecureGuard(c0, objs, slot);
    SecureGuards(c0, objs, slot);
    GuardsStay(g, c0, c1, objs);
    forall k | k in g.keep && k != slot ensures k in c1 && !MayFollow(c0[slot], c1[k]) {
      var keep, shield :| k in keep && Secured(c0, objs, slot, keep, shield);
      assert c1[k] == c0[k];
    }
  }

  /** A supported set contains the slot being revoked. */
  lemma RevokedSecure(caps: Caps, objs: Objects, slot: Addr)
    ensures SecureGuard(caps, objs, slot) == Guard({}, {}) || slot in Secure(caps, objs, slot)
  {
    var g := SecureGuard(caps, objs, slot);
    if k :| k in g.keep {
      var keep, shield :| k in keep && Secured(caps, objs, slot, keep, shield);
    }
    if p :| p in g.objects {
      var keep, shield :| Secured(caps, objs, slot, keep, shield) && p in Stake(caps, objs, keep, shield);
    }
  }

  /** Where nothing is secure, anything may. */
  lemma NothingSecure(c0: Caps, c1: Caps, objs: Objects, slot: Addr, child: Addr)
    requires slot !in Secure(c0, objs, slot) && child in c1
    ensures Ready(SecureGuard(c0, objs, slot), c1, objs, child, true)
  {
    RevokedSecure(c0, objs, slot);
  }

  // ---- A cap that was left is supported ----

  /** What stops the search of the region: the greatest cap sighted is not in it. */
  ghost predicate Stops(caps: Caps, u: Cap, z: Addr)
    requires IsRegion(u)
  {
    && z in caps && Sighted(u, caps[z]) && !Within(u, caps[z])
    && forall a :: a in caps && Sighted(u, caps[a]) ==> CapCompare(Place(caps[a]), Place(caps[z])) != GT
  }

  /** Neither search of cdtFindChild returns anything. */
  ghost predicate Exhausted(caps: Caps, u: Cap)
    requires IsRegion(u)
  {
    && (exists z :: Stops(caps, u, z))
    && (forall a :: a in caps && MayFollow(u, caps[a]) ==> CapCompare(Place(caps[a]), Place(u)) == EQ)
  }

  /** Where revocation has ended with the cap in place. */
  ghost predicate Left(c0: Caps, c1: Caps, objs: Objects, r0: set<Addr>, r1: set<Addr>, slot: Addr) {
    && Underway(c0, c1, objs, r0, r1, slot) && AllNamed(c1, objs, r1)
    && slot in c0 && IsRegion(c0[slot]) && c1[slot] == c0[slot] && Exhausted(c1, c0[slot])
  }

  /** The caps that were left, but for copies of the one revoked. */
  ghost function Remaining(c0: Caps, c1: Caps, slot: Addr): set<Addr>
    requires slot in c0 && c1.Keys == c0.Keys
  {
    set k | k in c0 && c0[k] != Null && c1[k] == c0[k]
            && (k == slot || !(c0[k].Untyped? && CapCompare(Place(c0[k]), Place(c0[slot])) == EQ))
  }

  /** What stopped the search stood in its place from the start. */
  lemma StopWas(c0: Caps, c1: Caps, objs: Objects, r0: set<Addr>, r1: set<Addr>, slot: Addr, z: Addr)
      returns (shield: Addr)
    requires Left(c0, c1, objs, r0, r1, slot) && Stops(c1, c0[slot], z)
    ensures Shields(c0, slot, Remaining(c0, c1, slot), shield)
    ensures CapCompare(Place(c0[shield]), Place(c1[z])) == EQ
  {
    InvMeans(c0, objs, r0);
    InvMeans(c1, objs, r1);
    if z in Remaining(c0, c1, slot) {
      shield := z;
    } else if c1[z] == c0[z] {
      shield := slot;
    } else {
      assert RefersRightly(objs, c1[z]);
      assert Names(c1[z], z) && LastingAt(c1, z);
      shield :| shield in c0 && Names(c0[shield], z) && Lasting(c0[shield]);
      NamedPlace(objs, c1.Keys, c1[z], z);
      NamedPlace(objs, c0.Keys, c0[shield], z);
    }
  }

  lemma LeftUnreached(c0: Caps, c1: Caps, objs: Objects, r0: set<Addr>, r1: set<Addr>, slot: Addr, z: Addr,
                      shield: Addr, a: Addr)
    requires Left(c0, c1, objs, r0, r1, slot) && Stops(c1, c0[slot], z) && a in c1
    requires shield in c0 && CapCompare(Place(c0[shield]), Place(c1[z])) == EQ
    ensures !Reached(c0[slot], c0[shield], c1[a])
  {
    if c1[a] != Null {
      Agreeing(c1, objs, r1);
      assert Pair(a, z);
      if Sighted(c0[slot], c1[a]) && CapCompare(Place(c1[a]), Place(c1[z])) == EQ {
        PlaceDecides(c0[slot], c1[a], c1[z]);
      }
    }
  }

  lemma LeftObject(c0: Caps, c1: Caps, objs: Objects, r0: set<Addr>, r1: set<Addr>, slot: Addr, z: Addr,
                   shield: Addr, p: Addr, k: Addr)
    requires Left(c0, c1, objs, r0, r1, slot) && Stops(c1, c0[slot], z)
    requires shield in c0 && CapCompare(Place(c0[shield]), Place(c1[z])) == EQ
    requires k in Remaining(c0, c1, slot) && SlotIn(objs, p, k)
    ensures ObjectStays(c0, objs, slot, Remaining(c0, c1, slot), shield, p, k)
  {
    InvMeans(c1, objs, r1);
    var i: nat :| i < SlotCount(objs[p]) && SlotOf(p, i) == k;
    assert p !in r1;
    var y :| y in c1 && Names(c1[y], p);
    LeftUnreached(c0, c1, objs, r0, r1, slot, z, shield, y);
    NamedPlace(objs, c1.Keys, c1[y], p);
    if k == p {
      assert c1[y] == c0[y];
      assert y in Remaining(c0, c1, slot);
    }
  }

  /** Whatever the run, an untyped cap left in its slot with no child was supported from the start. */
  lemma LeftIsSupported(c0: Caps, c1: Caps, objs: Objects, r0: set<Addr>, r1: set<Addr>, slot: Addr)
    requires Left(c0, c1, objs, r0, r1, slot)
    ensures Supportable(c0, objs, slot)
  {
    var keep := Remaining(c0, c1, slot);
    var z :| Stops(c1, c0[slot], z);
    var shield := StopWas(c0, c1, objs, r0, r1, slot, z);
    forall k | k in keep
      ensures !Reached(c0[slot], c0[shield], c0[k]) && (k == slot || !MayFollow(c0[slot], c0[k]))
    {
      LeftUnreached(c0, c1, objs, r0, r1, slot, z, shield, k);
    }
    forall p, k | k in keep && SlotIn(objs, p, k) ensures ObjectStays(c0, objs, slot, keep, shield, p, k) {
      LeftObject(c0, c1, objs, r0, r1, slot, z, shield, p, k);
    }
    assert Supported(c0, objs, slot, keep, shield);
  }

  // ---- Where the two meet ----

  /** A typed object that starts in the region lies in it. */
  ghost predicate Undivided(caps: Caps, u: Cap)
    requires IsRegion(u)
  {
    forall a :: a in caps && SpaceType(caps[a]) == SPACE_TYPED && Byte(u.ptr, u.blockSize, CapPtr(caps[a]))
      ==> Within(u, caps[a])
  }

  /** Deletion makes no caps to new objects, so objects go on lying whole. */
  lemma UndividedStays(c0: Caps, c1: Caps, objs: Objects, r0: set<Addr>, r1: set<Addr>, u: Cap)
    requires Inv(c0, objs, r0) && Inv(c1, objs, r1) && Steady(c0, c1) && NoNewLasting(c0, c1)
    requires IsRegion(u) && Undivided(c0, u)
    ensures Undivided(c1, u)
  {
    InvMeans(c0, objs, r0);
    InvMeans(c1, objs, r1);
    forall a | a in c1 && SpaceType(c1[a]) == SPACE_TYPED && Byte(u.ptr, u.blockSize, CapPtr(c1[a]))
      ensures Within(u, c1[a])
    {
      if c1[a] != c0[a] {
        assert RefersRightly(objs, c1[a]) && Names(c1[a], a) && LastingAt(c1, a);
        var y :| y in c0 && Names(c0[y], a) && Lasting(c0[y]);
        NamedPlace(objs, c1.Keys, c1[a], a);
        NamedPlace(objs, c0.Keys, c0[y], a);
      }
    }
  }

  /** Nothing typed is left in the region but what the search cannot see. */
  ghost predicate Freed(caps: Caps, u: Cap)
    requires IsRegion(u)
  {
    forall a :: a in caps ==> !Findable(u.ptr, u.blockSize, caps[a])
  }

  /** No object outside the region holds a cap to an object inside in its first slot. */
  ghost predicate FirstSlotsClear(caps: Caps, objs: Objects, u: Cap)
    requires IsRegion(u)
  {
    forall p :: p in objs && p in caps && !Within(u, CapTo(p, objs[p])) ==>
      !(IsContainer(caps[p]) && Within(u, caps[p]))
  }

  /** Nothing shields a CNode or TCB in the region. */
  lemma NoShieldInside(caps: Caps, objs: Objects, slots: set<Addr>, slot: Addr, keep: set<Addr>, shield: Addr, p: Addr)
    requires slot in caps && IsRegion(caps[slot]) && Undivided(caps, caps[slot]) && LaidOut(objs, slots)
    requires Shields(caps, slot, keep, shield) && p in objs && Within(caps[slot], CapTo(p, objs[p]))
    ensures Reached(caps[slot], caps[shield], CapTo(p, objs[p]))
  {
    var u, c := caps[slot], CapTo(p, objs[p]);
    ZombieRoundTrip(0, objs[p], p);
    Pow2Grows(EP_SIZE_BITS, SizeBits(c));
    Pow2Grows(EP_SIZE_BITS, u.blockSize);
    BytesInBounds(CapPtr(c), SizeBits(c), u.ptr, u.blockSize);
    assert Sighted(u, c);
  }

  lemma StakeOutside(caps: Caps, objs: Objects, reclaimed: set<Addr>, slot: Addr,
                     keep: set<Addr>, shield: Addr, p: Addr)
    requires Inv(caps, objs, reclaimed) && slot in caps && IsRegion(caps[slot]) && Undivided(caps, caps[slot])
    requires Supported(caps, objs, slot, keep, shield) && p in Stake(caps, objs, keep, shield)
    ensures !Within(caps[slot], CapTo(p, objs[p]))
  {
    InvMeans(caps, objs, reclaimed);
    if shield !in keep && Names(caps[shield], p) {
      NamedPlace(objs, caps.Keys, caps[shield], p);
    } else {
      var k :| k in keep && SlotIn(objs, p, k);
      assert ObjectStays(caps, objs, slot, keep, shield, p, k);
      if Within(caps[slot], CapTo(p, objs[p])) {
        NoShieldInside(caps, objs, caps.Keys, slot, keep, shield, p);
      }
    }
  }

  /** Then what may be left is exactly what is. */
  lemma SupportIsSecure(caps: Caps, objs: Objects, reclaimed: set<Addr>, slot: Addr)
    requires Inv(caps, objs, reclaimed) && slot in caps && IsRegion(caps[slot])
    requires Undivided(caps, caps[slot]) && FirstSlotsClear(caps, objs, caps[slot])
    ensures Supportable(caps, objs, slot) <==> slot in Secure(caps, objs, slot)
  {
    if Supportable(caps, objs, slot) {
      var keep, shield :| Supported(caps, objs, slot, keep, shield);
      forall p | p in Stake(caps, objs, keep, shield) && p in caps
        ensures !(IsContainer(caps[p]) && Reached(caps[slot], caps[shield], caps[p]))
      {
        StakeOutside(caps, objs, reclaimed, slot, keep, shield, p);
      }
      assert Secured(caps, objs, slot, keep, shield);
    }
  }

  // ---- A slot that cannot be supported ----

  /** The cap to a region does not outlive its revocation in an object made from that region. */
  lemma OwnObjectLost(caps: Caps, objs: Objects, reclaimed: set<Addr>, slot: Addr, p: Addr)
    requires Inv(caps, objs, reclaimed) && slot in caps && IsRegion(caps[slot]) && Undivided(caps, caps[slot])
    requires SlotIn(objs, p, slot) && Within(caps[slot], CapTo(p, objs[p]))
    ensures !Supportable(caps, objs, slot)
  {
    InvMeans(caps, objs, reclaimed);
    forall keep, shield | shield in caps && Shields(caps, slot, keep, shield)
      ensures !Supported(caps, objs, slot, keep, shield)
    {
      NoShieldInside(caps, objs, caps.Keys, slot, keep, shield, p);
      assert !Supported(caps, objs, slot, keep, shield) || ObjectStays(caps, objs, slot, keep, shield, p, slot);
    }
  }

  // ---- Slots that are ----

  /** In a CNode below the region that also holds a cap to itself, as the first one set up does, the cap is secure. */
  lemma RootCNodeSecures(caps: Caps, objs: Objects, reclaimed: set<Addr>, slot: Addr, root: Addr, p: Addr)
    requires Inv(caps, objs, reclaimed) && slot in caps && IsRegion(caps[slot]) && p < caps[slot].ptr
    requires SlotIn(objs, p, slot) && root in caps && SlotIn(objs, p, root) && Names(caps[root], p)
    ensures slot in Secure(caps, objs, slot)
  {
    InvMeans(caps, objs, reclaimed);
    var u := caps[slot];
    NamedPlace(objs, caps.Keys, caps[root], p);
    Pow2Grows(EP_SIZE_BITS, u.blockSize);
    BytesInBounds(p, SizeBits(caps[root]), u.ptr, u.blockSize);
    forall q, k | k in {slot, root} && SlotIn(objs, q, k) ensures q == p {
      OneObject(objs, caps.Keys, q, p, k);
    }
    assert HeldBy(caps, {slot, root}, p);
    assert Secured(caps, objs, slot, {slot, root}, root);
  }
}
