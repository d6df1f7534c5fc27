/** The capability derivation tree: cdt.c's in-place AA tree over capability table entries, each step proved to
    perform the step of the same name in AATree. */
module CdtTree {
  import opened AATree
  import opened AASearch
  import opened Basics
  import opened CapOrder
  import opened CdtMemory
  import opened CdtLemmas

  class Cdt {
    var mem: Memory
    var root: Addr
    ghost var tree: Tree<Addr>

    // ---- mdb_node_ptr_set_cdtLeft and mdb_node_ptr_set_cdtRight ----

    method SetLeft(p: Addr, v: Addr, ghost t: Tree<Addr>, ghost l: Tree<Addr>)
      requires t.Node? && t.elem == p && p != 0 && p in mem && mem[p].level == t.level
      requires Rep(mem, mem[p].right, t.right) && Rep(mem, v, l)
      requires p !in Slots(t.right) && p !in Slots(l)
      modifies this`mem
      ensures Rep(mem, p, t.(left := l)) && Relinked(old(mem), mem, {p})
    {
      mem := mem[p := mem[p].(left := v)];
      RepFrame(old(mem), mem, mem[p].right, t.right);
      RepFrame(old(mem), mem, v, l);
    }

    method SetRight(p: Addr, v: Addr, ghost t: Tree<Addr>, ghost r: Tree<Addr>)
      requires t.Node? && t.elem == p && p != 0 && p in mem && mem[p].level == t.level
      requires Rep(mem, mem[p].left, t.left) && Rep(mem, v, r)
      requires p !in Slots(t.left) && p !in Slots(r)
      modifies this`mem
      ensures Rep(mem, p, t.(right := r)) && Relinked(old(mem), mem, {p}) && mem[p].right == v
    {
      mem := mem[p := mem[p].(right := v)];
      RepFrame(old(mem), mem, mem[p].left, t.left);
      RepFrame(old(mem), mem, v, r);
    }

    /** All three at once, as aaRemoveNode does for the slot that takes a removed one's place. */
    method SetNode(p: Addr, level: nat, left: Addr, right: Addr, ghost l: Tree<Addr>, ghost r: Tree<Addr>)
      requires p != 0 && p in mem && Rep(mem, left, l) && Rep(mem, right, r)
      requires p !in Slots(l) && p !in Slots(r)
      modifies this`mem
      ensures Rep(mem, p, Node(level, l, p, r)) && Relinked(old(mem), mem, {p})
    {
      mem := mem[p := mem[p].(level := level, right := right, left := left)];
      RepFrame(old(mem), mem, left, l);
      RepFrame(old(mem), mem, right, r);
    }

    // ---- Rotations ----

    method AaSkew(slot: Addr, ghost t: Tree<Addr>) returns (r: Addr)
      requires Rep(mem, slot, t) && Apart(t)
      modifies this`mem
      ensures Rep(mem, r, Skew(t)) && Relinked(old(mem), mem, Slots(t))
    {
      RepSlots(mem, slot, t);
      if slot == 0 { return 0; }
      var left := mem[slot].left;
      if left != 0 && mem[left].level == mem[slot].level {
        mem := mem[slot := mem[slot].(left := mem[left].right)];
        mem := mem[left := mem[left].(right := slot)];
        RepFrame(old(mem), mem, mem[left].left, t.left.left);
        RepFrame(old(mem), mem, mem[slot].left, t.left.right);
        RepFrame(old(mem), mem, mem[slot].right, t.right);
        return left;
      }
      return slot;
    }

    /** The source's assertion that the lifted level fits its field holds. */
    method AaSplit(slot: Addr, ghost t: Tree<Addr>) returns (r: Addr)
      requires Rep(mem, slot, t) && Apart(t) && Level(Split(t)) < LEVELS
      modifies this`mem
      ensures Rep(mem, r, Split(t)) && Relinked(old(mem), mem, Slots(t))
    {
      RepSlots(mem, slot, t);
      if slot == 0 { return 0; }
      var right := mem[slot].right;
      if right != 0 {
        var rightRight := mem[right].right;
        assert Rep(mem, rightRight, t.right.right);
        if rightRight != 0 && mem[slot].level == mem[rightRight].level {
          mem := mem[slot := mem[slot].(right := mem[right].left)];
          var level := mem[right].level + 1;
          mem := mem[right := mem[right].(level := level % LEVELS)];
          // "check level doesn't overflow"
          assert mem[right].level == level;
          mem := mem[right := mem[right].(left := slot)];
          RepFrame(old(mem), mem, mem[slot].left, t.left);
          RepFrame(old(mem), mem, mem[slot].right, t.right.left);
          RepFrame(old(mem), mem, mem[right].right, t.right.right);
          return right;
        }
      }
      return slot;
    }

    method AaDecLevel(slot: Addr, ghost t: Tree<Addr>) returns (r: Addr)
      requires Rep(mem, slot, t) && Apart(t)
      modifies this`mem
      ensures Rep(mem, r, DecLevel(t)) && Relinked(old(mem), mem, Slots(t))
    {
      RepSlots(mem, slot, t);
      if slot == 0 { return 0; }
      var left, right := mem[slot].left, mem[slot].right;
      var leftLevel := if left == 0 then 0 else mem[left].level;
      var rightLevel := if right == 0 then 0 else mem[right].level;
      var shouldBe := Min(leftLevel, rightLevel) + 1;
      if shouldBe < mem[slot].level {
        SetLevel(slot, shouldBe, t);
        if right != 0 && shouldBe < mem[right].level {
          SetLevel(right, shouldBe, t.right);
          RepFrame(old(mem), mem, left, t.left);
        }
      }
      return slot;
    }

    method SetLevel(p: Addr, k: nat, ghost t: Tree<Addr>)
      requires p != 0 && Rep(mem, p, t) && Apart(t)
      modifies this`mem
      ensures Rep(mem, p, t.(level := k)) && Relinked(old(mem), mem, {p})
      ensures mem[p] == old(mem)[p].(level := k)
      ensures Rep(mem, mem[p].left, t.left) && Rep(mem, mem[p].right, t.right)
    {
      RepSlots(mem, p, t);
      mem := mem[p := mem[p].(level := k)];
      RepFrame(old(mem), mem, mem[p].left, t.left);
      RepFrame(old(mem), mem, mem[p].right, t.right);
    }

    /** slot.right := aaSkew(slot.right) */
    method SkewRightOf(slot: Addr, ghost t: Tree<Addr>) returns (right: Addr)
      requires slot != 0 && Rep(mem, slot, t) && Apart(t)
      modifies this`mem
      ensures Rep(mem, slot, t.(right := Skew(t.right))) && Relinked(old(mem), mem, Slots(t))
      ensures mem[slot].right == right
      ensures Slots(t.(right := Skew(t.right))) == Slots(t) && Apart(t.(right := Skew(t.right)))
    {
      RepSlots(mem, slot, t);
      SkewSlots(t.right);
      right := AaSkew(mem[slot].right, t.right);
      RepFrame(old(mem), mem, mem[slot].left, t.left);
      SetRight(slot, right, t, Skew(t.right));
    }

    /** slot.right := aaSplit(slot.right) */
    method SplitRightOf(slot: Addr, ghost t: Tree<Addr>)
      requires slot != 0 && Rep(mem, slot, t) && Apart(t) && Level(Split(t.right)) < LEVELS
      modifies this`mem
      ensures Rep(mem, slot, SplitRight(t)) && Relinked(old(mem), mem, Slots(t))
    {
      RepSlots(mem, slot, t);
      SplitSlots(t.right);
      var right := AaSplit(mem[slot].right, t.right);
      RepFrame(old(mem), mem, mem[slot].left, t.left);
      SetRight(slot, right, t, Split(t.right));
    }

    /** The two skews down the right spine in the middle of aaRebalance. */
    method AaSkewRights(slot: Addr, ghost t: Tree<Addr>)
      requires slot != 0 && Rep(mem, slot, t) && Apart(t)
      modifies this`mem
      ensures Rep(mem, slot, SkewRights(t)) && Relinked(old(mem), mem, Slots(t))
      ensures Slots(SkewRights(t)) == Slots(t) && Apart(SkewRights(t))
    {
      var right := SkewRightOf(slot, t);
      if right != 0 {
        ghost var m, u := mem, t.(right := Skew(t.right));
        RepSlots(mem, slot, u);
        var _ := SkewRightOf(right, u.right);
        RepFrame(m, mem, mem[slot].left, u.left);
        assert mem[slot] == m[slot];
      }
    }

    method AaRebalance(slot: Addr, ghost t: Tree<Addr>) returns (r: Addr)
      requires Rep(mem, slot, t) && Apart(t) && LevelsFit(Rebalance(t))
      modifies this`mem
      ensures Rep(mem, r, Rebalance(t)) && Relinked(old(mem), mem, Slots(t))
    {
      if slot == 0 { return 0; }
      ghost var u := DecLevel(t);
      DecLevelSlots(t);
      SkewSlots(u);
      r := AaDecLevel(slot, t);
      r := AaSkew(r, u);
      AaSkewRights(r, Skew(u));
      ghost var w := SkewRights(Skew(u));
      SplitSlots(w);
      r := AaSplit(r, w);
      SplitRightOf(r, Split(w));
    }

    // ---- Insertion ----

    method AaInsert(rootSlot: Addr, newSlot: Addr, ghost t: Tree<Addr>) returns (r: Addr)
      requires Rep(mem, rootSlot, t) && Apart(t)
      requires newSlot != 0 && newSlot !in Slots(t) && Comparable(mem, Slots(t) + {newSlot})
      requires mem[newSlot].left == 0 && mem[newSlot].right == 0
      requires AA(t) && Level(Insert(Order(ViewOf(mem)), t, newSlot)) < LEVELS
      modifies this`mem
      ensures Rep(mem, r, Insert(Order(ViewOf(old(mem))), t, newSlot))
      ensures Relinked(old(mem), mem, Slots(t) + {newSlot})
      decreases t, 1
    {
      ghost var less := Order(ViewOf(mem));
      if rootSlot == 0 {
        mem := mem[newSlot := mem[newSlot].(level := 1)];
        return newSlot;
      }
      OrderTotal(ViewOf(mem));
      RepSlots(mem, rootSlot, t);
      InsertAA(less, t, newSlot);
      CompSlotOrders(mem, Slots(t) + {newSlot}, newSlot, rootSlot);
      ghost var t' := t;
      var cmp := CompSlot(SlotAt(mem, newSlot), SlotAt(mem, rootSlot));
      if cmp == GT {
        t' := InsertRightOf(rootSlot, newSlot, t);
      } else if cmp == LT {
        t' := InsertLeftOf(rootSlot, newSlot, t);
      } else {
        assert false;
      }
      r := AaSkewSplit(rootSlot, t');
    }

    /** slot.right := aaInsert(slot.right, newSlot) */
    method InsertRightOf(slot: Addr, newSlot: Addr, ghost t: Tree<Addr>) returns (ghost t': Tree<Addr>)
      requires slot != 0 && Rep(mem, slot, t) && Apart(t)
      requires newSlot != 0 && newSlot !in Slots(t) && Comparable(mem, Slots(t) + {newSlot})
      requires mem[newSlot].left == 0 && mem[newSlot].right == 0
      requires AA(t) && t.level < LEVELS
      modifies this`mem
      ensures t' == t.(right := Insert(Order(ViewOf(old(mem))), t.right, newSlot))
      ensures Rep(mem, slot, t') && Apart(t') && Slots(t') == Slots(t) + {newSlot}
      ensures Relinked(old(mem), mem, Slots(t) + {newSlot})
      decreases t, 0
    {
      ghost var less := Order(ViewOf(mem));
      OrderTotal(ViewOf(mem));
      RepSlots(mem, slot, t);
      ComparableSub(mem, mem, Slots(t) + {newSlot}, Slots(t.right) + {newSlot});
      InsertAA(less, t.right, newSlot);
      var right := AaInsert(mem[slot].right, newSlot, t.right);
      RepFrame(old(mem), mem, mem[slot].left, t.left);
      InsertSlots(less, t.right, newSlot);
      t' := t.(right := Insert(less, t.right, newSlot));
      SetRight(slot, right, t, Insert(less, t.right, newSlot));
    }

    /** slot.left := aaInsert(slot.left, newSlot) */
    method InsertLeftOf(slot: Addr, newSlot: Addr, ghost t: Tree<Addr>) returns (ghost t': Tree<Addr>)
      requires slot != 0 && Rep(mem, slot, t) && Apart(t)
      requires newSlot != 0 && newSlot !in Slots(t) && Comparable(mem, Slots(t) + {newSlot})
      requires mem[newSlot].left == 0 && mem[newSlot].right == 0
      requires AA(t) && t.level < LEVELS
      modifies this`mem
      ensures t' == t.(left := Insert(Order(ViewOf(old(mem))), t.left, newSlot))
      ensures Rep(mem, slot, t') && Apart(t') && Slots(t') == Slots(t) + {newSlot}
      ensures Relinked(old(mem), mem, Slots(t) + {newSlot})
      decreases t, 0
    {
      ghost var less := Order(ViewOf(mem));
      OrderTotal(ViewOf(mem));
      RepSlots(mem, slot, t);
      ComparableSub(mem, mem, Slots(t) + {newSlot}, Slots(t.left) + {newSlot});
      InsertAA(less, t.left, newSlot);
      var left := AaInsert(mem[slot].left, newSlot, t.left);
      RepFrame(old(mem), mem, mem[slot].right, t.right);
      InsertSlots(less, t.left, newSlot);
      t' := t.(left := Insert(less, t.left, newSlot));
      SetLeft(slot, left, t, Insert(less, t.left, newSlot));
    }

    /** The skew and the split that end every level of the insertion. */
    method AaSkewSplit(slot: Addr, ghost t: Tree<Addr>) returns (r: Addr)
      requires Rep(mem, slot, t) && Apart(t) && Level(Split(Skew(t))) < LEVELS
      modifies this`mem
      ensures Rep(mem, r, Split(Skew(t))) && Relinked(old(mem), mem, Slots(t))
    {
      SkewSlots(t);
      r := AaSkew(slot, t);
      r := AaSplit(r, Skew(t));
    }

    // ---- Removal ----

    method AaPred(slot: Addr, ghost t: Tree<Addr>) returns (r: Addr)
      requires slot != 0 && Rep(mem, slot, t)
      ensures t.Node? && r == Greatest(t)
    {
      r := slot;
      ghost var u := t;
      var right := mem[r].right;
      while right != 0
        invariant u.Node? && Rep(mem, r, u) && Greatest(u) == Greatest(t) && right == mem[r].right
        decreases u
      {
        u := u.right;
        r := right;
        right := mem[r].right;
      }
    }

    method AaSucc(slot: Addr, ghost t: Tree<Addr>) returns (r: Addr)
      requires slot != 0 && Rep(mem, slot, t)
      ensures t.Node? && r == Least(t)
    {
      r := slot;
      ghost var u := t;
      var left := mem[r].left;
      while left != 0
        invariant u.Node? && Rep(mem, r, u) && Least(u) == Least(t) && left == mem[r].left
        decreases u
      {
        u := u.left;
        r := left;
        left := mem[r].left;
      }
    }

    method AaRemove(isSwapped: bool, rootSlot: Addr, targetSlot: Addr, ghost t: Tree<Addr>) returns (r: Addr)
      requires Rep(mem, rootSlot, t) && Comparable(mem, Slots(t))
      requires Sorted(Order(ViewOf(mem)), Flatten(t)) && targetSlot in Slots(t) && AA(t) && Level(t) < LEVELS
      modifies this`mem
      ensures Rep(mem, r, Remove(Order(ViewOf(old(mem))), t, targetSlot))
      ensures Relinked(old(mem), mem, Slots(t))
      decreases t, 1
    {
      ghost var less := Order(ViewOf(mem));
      OrderTotal(ViewOf(mem));
      RepSlots(mem, rootSlot, t);
      RootParts(less, t);
      CompSlotOrders(mem, Slots(t), targetSlot, rootSlot);
      ghost var t';
      var cmp := CompSlot(SlotAt(mem, targetSlot), SlotAt(mem, rootSlot));
      r := rootSlot;
      if cmp == GT {
        InSubtree(less, t, targetSlot);
        RemoveFromRight(isSwapped, rootSlot, targetSlot, t);
        RemoveSlots(less, t.right, targetSlot);
        t' := t.(right := Remove(less, t.right, targetSlot));
      } else if cmp == LT {
        InSubtree(less, t, targetSlot);
        RemoveFromLeft(isSwapped, rootSlot, targetSlot, t);
        RemoveSlots(less, t.left, targetSlot);
        t' := t.(left := Remove(less, t.left, targetSlot));
      } else {
        r := AaRemoveNode(isSwapped, rootSlot, t);
        t' := RemoveNode(less, t);
        RemoveNodeSlots(less, t);
      }
      RemoveAA(less, t, targetSlot);
      r := AaRebalance(r, t');
    }

    /** root.right := aaRemove(isSwapped, root.right, target) */
    method RemoveFromRight(isSwapped: bool, rootSlot: Addr, targetSlot: Addr, ghost t: Tree<Addr>)
      requires rootSlot != 0 && Rep(mem, rootSlot, t) && Comparable(mem, Slots(t)) && targetSlot in Slots(t.right)
      requires Sorted(Order(ViewOf(mem)), Flatten(t)) && AA(t) && Level(t) < LEVELS
      modifies this`mem
      ensures Rep(mem, rootSlot, t.(right := Remove(Order(ViewOf(old(mem))), t.right, targetSlot)))
      ensures Relinked(old(mem), mem, Slots(t))
      decreases t, 0
    {
      ghost var less := Order(ViewOf(mem));
      OrderTotal(ViewOf(mem));
      RepSlots(mem, rootSlot, t);
      RootParts(less, t);
      ComparableSub(mem, mem, Slots(t), Slots(t.right));
      var right := AaRemove(isSwapped, mem[rootSlot].right, targetSlot, t.right);
      RepFrame(old(mem), mem, mem[rootSlot].left, t.left);
      RemoveSlots(less, t.right, targetSlot);
      SetRight(rootSlot, right, t, Remove(less, t.right, targetSlot));
    }

    /** root.left := aaRemove(isSwapped, root.left, target) */
    method RemoveFromLeft(isSwapped: bool, rootSlot: Addr, targetSlot: Addr, ghost t: Tree<Addr>)
      requires rootSlot != 0 && Rep(mem, rootSlot, t) && Comparable(mem, Slots(t)) && targetSlot in Slots(t.left)
      requires Sorted(Order(ViewOf(mem)), Flatten(t)) && AA(t) && Level(t) < LEVELS
      modifies this`mem
      ensures Rep(mem, rootSlot, t.(left := Remove(Order(ViewOf(old(mem))), t.left, targetSlot)))
      ensures Relinked(old(mem), mem, Slots(t))
      decreases t, 0
    {
      ghost var less := Order(ViewOf(mem));
      OrderTotal(ViewOf(mem));
      RepSlots(mem, rootSlot, t);
      RootParts(less, t);
      ComparableSub(mem, mem, Slots(t), Slots(t.left));
      var left := AaRemove(isSwapped, mem[rootSlot].left, targetSlot, t.left);
      RepFrame(old(mem), mem, mem[rootSlot].right, t.right);
      RemoveSlots(less, t.left, targetSlot);
      SetLeft(rootSlot, left, t, Remove(less, t.left, targetSlot));
    }

    method AaRemoveNode(isSwapped: bool, rootSlot: Addr, ghost t: Tree<Addr>) returns (r: Addr)
      requires rootSlot != 0 && Rep(mem, rootSlot, t) && Comparable(mem, Slots(t))
      requires Sorted(Order(ViewOf(mem)), Flatten(t)) && AA(t) && Level(t) < LEVELS
      modifies this`mem
      ensures Rep(mem, r, RemoveNode(Order(ViewOf(old(mem))), t))
      ensures Relinked(old(mem), mem, Slots(t))
      decreases t, 0
    {
      ghost var less := Order(ViewOf(mem));
      OrderTotal(ViewOf(mem));
      RepSlots(mem, rootSlot, t);
      RootParts(less, t);
      var mdb := mem[rootSlot];
      var left, right := mdb.left, mdb.right;
      if left != 0 {
        var pred := AaPred(left, t.left);
        GreatestIn(t.left);
        RemoveSlots(less, t.left, pred);
        ComparableSub(mem, mem, Slots(t), Slots(t.left));
        left := AaRemove(true, left, pred, t.left);
        RepFrame(old(mem), mem, right, t.right);
        SetNode(pred, mdb.level, left, right, Remove(less, t.left, pred), t.right);
        return pred;
      } else if right != 0 {
        var succ := AaSucc(right, t.right);
        LeastIn(t.right);
        RemoveSlots(less, t.right, succ);
        ComparableSub(mem, mem, Slots(t), Slots(t.right));
        right := AaRemove(true, right, succ, t.right);
        SetNode(succ, mdb.level, 0, right, Leaf, Remove(less, t.right, succ));
        return succ;
      } else {
        return 0;
      }
    }

    // ---- The derivation tree as a whole ----

    /** The root leads to an AA search tree over `Slots(tree)` in derivation order. */
    ghost predicate TreeOk()
      reads this
    {
      && Rep(mem, root, tree) && AA(tree) && |mem.Keys| <= MAX_SLOTS
      && Sorted(Order(ViewOf(mem)), Flatten(tree))
      && Comparable(mem, Slots(tree))
    }

    /** Between kernel operations the tree holds exactly the slots that hold a cap. */
    ghost predicate Valid()
      reads this
    {
      && TreeOk() && 0 !in mem
      && (forall a :: a in mem ==> (a in Slots(tree) <==> mem[a].cap != Null))
    }

    /** Empty slots, and no tree yet. */
    constructor (slots: set<Addr>)
      requires 0 !in slots && |slots| <= MAX_SLOTS
      ensures Valid() && mem == map a | a in slots :: Cte(Null, 0, 0, 0, 0)
    {
      mem := map a | a in slots :: Cte(Null, 0, 0, 0, 0);
      root, tree := 0, Leaf;
      new;
      assert mem.Keys == slots;
    }

    /** insertNewCap */
    method InsertNewCap(parentSlot: Addr, slot: Addr, cap: Cap)
      requires Valid() && slot in mem && mem[slot].cap == Null && cap != Null
      requires parentSlot == 0 || (parentSlot in mem && mem[parentSlot].cap != Null)
      requires forall a :: a in mem && mem[a].cap != Null ==> Agree(mem[a].cap, cap) && Agree(cap, mem[a].cap)
      modifies this
      ensures Valid() && SameBut(old(mem), mem, {slot}) && mem[slot].cap == cap
      ensures mem[slot].depth == ChildDepth(old(mem)[slot := mem[slot]], parentSlot, slot)
    {
      WriteCte(slot, cap, mem[slot].depth);
      ComparablePlus(mem, Slots(tree), slot);
      CdtInsert(parentSlot, slot);
    }

    /** Writing a slot the tree does not hold leaves the tree alone. */
    method WriteCte(slot: Addr, cap: Cap, depth: nat)
      requires TreeOk() && slot in mem && slot !in Slots(tree)
      modifies this`mem
      ensures TreeOk()
      ensures mem == old(mem)[slot := Cte(cap, depth, 0, 0, 0)]
    {
      mem := mem[slot := Cte(cap, depth, 0, 0, 0)];
      RepFrame(old(mem), mem, root, tree);
      SortedView(ViewOf(old(mem)), ViewOf(mem), tree);
      ComparableSub(old(mem), mem, Slots(tree), Slots(tree));
    }

    /** aaInsert at the root. */
    method TreeInsert(newSlot: Addr)
      requires TreeOk()
      requires newSlot != 0 && newSlot !in Slots(tree) && Comparable(mem, Slots(tree) + {newSlot})
      requires mem[newSlot].left == 0 && mem[newSlot].right == 0
      modifies this
      ensures TreeOk() && Slots(tree) == old(Slots(tree)) + {newSlot}
      ensures SameBut(old(mem), mem, {})
      ensures forall a :: a in mem && a !in Slots(tree) ==> mem[a] == old(mem)[a]
    {
      ghost var t := Insert(Order(ViewOf(mem)), tree, newSlot);
      InsertKeeps(ViewOf(mem), tree, newSlot);
      RepSlots(mem, root, tree);
      LevelFits(t, mem.Keys);
      root := AaInsert(root, newSlot, tree);
      RelinkedView(old(mem), mem, Slots(tree) + {newSlot});
      ComparableSub(old(mem), mem, Slots(tree) + {newSlot}, Slots(tree) + {newSlot});
      tree := t;
    }

    lemma TreeFits()
      requires TreeOk()
      ensures LevelsFit(tree)
    {
      RepSlots(mem, root, tree);
      SortedFits(ViewOf(mem), tree, mem.Keys);
    }

    /** aaRemove at the root. */
    method TreeRemove(slot: Addr)
      requires TreeOk() && slot in Slots(tree)
      modifies this
      ensures TreeOk() && Slots(tree) == old(Slots(tree)) - {slot}
      ensures SameBut(old(mem), mem, {})
    {
      ghost var t := Remove(Order(ViewOf(mem)), tree, slot);
      RemoveKeeps(ViewOf(mem), tree, slot);
      TreeFits();
      root := AaRemove(false, root, slot, tree);
      RelinkedView(old(mem), mem, Slots(tree));
      ComparableSub(old(mem), mem, Slots(tree), Slots(t));
      tree := t;
    }

    // ---- cdtInsert, cdtRemove, cdtMove, cdtUpdate, cdtSwap ----

    method CdtInsert(parentSlot: Addr, newSlot: Addr)
      requires TreeOk()
      requires newSlot != 0 && newSlot !in Slots(tree) && Comparable(mem, Slots(tree) + {newSlot})
      requires parentSlot == 0 || (parentSlot in mem && mem[parentSlot].cap != Null)
      modifies this
      ensures TreeOk() && Slots(tree) == old(Slots(tree)) + {newSlot}
      ensures SameBut(old(mem), mem, {newSlot}) && mem[newSlot].cap == old(mem)[newSlot].cap
      ensures mem[newSlot].depth == ChildDepth(old(mem), parentSlot, newSlot)
    {
      var depth;
      if parentSlot == 0 || SpaceType(mem[parentSlot].cap) != SpaceType(mem[newSlot].cap) {
        depth := 0;
      } else {
        depth := mem[parentSlot].depth + 1;
        if depth == MAX_DEPTH {
          depth := depth - 1;
        }
      }
      ghost var m := mem;
      WriteCte(newSlot, mem[newSlot].cap, depth);
      ComparableSub(m, mem, Slots(tree) + {newSlot}, Slots(tree) + {newSlot});
      TreeInsert(newSlot);
    }

    method CdtRemove(slot: Addr)
      requires TreeOk() && slot in Slots(tree)
      modifies this
      ensures TreeOk() && Slots(tree) == old(Slots(tree)) - {slot}
      ensures SameBut(old(mem), mem, {slot})
      ensures mem[slot] == Cte(old(mem)[slot].cap, 0, 0, 0, 0)
    {
      TreeRemove(slot);
      WriteCte(slot, mem[slot].cap, 0);
    }

    method CdtMove(oldSlot: Addr, newSlot: Addr)
      requires TreeOk() && oldSlot in Slots(tree)
      requires newSlot != 0 && newSlot !in Slots(tree)
      requires Comparable(mem, Slots(tree) - {oldSlot} + {newSlot})
      modifies this
      ensures TreeOk() && Slots(tree) == old(Slots(tree)) - {oldSlot} + {newSlot}
      ensures SameBut(old(mem), mem, {oldSlot, newSlot})
      ensures mem[newSlot].cap == old(mem)[newSlot].cap && mem[newSlot].depth == old(mem)[oldSlot].depth
      ensures mem[oldSlot] == Cte(old(mem)[oldSlot].cap, 0, 0, 0, 0)
    {
      ghost var m := mem;
      TreeRemove(oldSlot);
      WriteCte(newSlot, mem[newSlot].cap, mem[oldSlot].depth);
      WriteCte(oldSlot, mem[oldSlot].cap, 0);
      ComparableSub(m, mem, Slots(tree) + {newSlot}, Slots(tree) + {newSlot});
      TreeInsert(newSlot);
    }

    /** slot->cap = newCap, for a cap that takes the same place in the order. */
    method SetCap(slot: Addr, newCap: Cap)
      requires TreeOk() && slot in Slots(tree) && CapsEqual(mem[slot].cap, newCap)
      requires Comparable(mem[slot := mem[slot].(cap := newCap)], Slots(tree))
      modifies this`mem
      ensures TreeOk() && mem == old(mem)[slot := old(mem)[slot].(cap := newCap)]
    {
      ghost var m := mem[slot := mem[slot].(cap := newCap)];
      assert Pair(slot, slot);
      EqualCapsSameKey(SlotAt(mem, slot), SlotAt(m, slot));
      SortedView(ViewOf(mem), ViewOf(m), tree);
      RepFrame(mem, m, root, tree);
      mem := mem[slot := mem[slot].(cap := newCap)];
    }

    method CdtUpdate(slot: Addr, newCap: Cap)
      requires TreeOk() && slot in Slots(tree)
      requires Comparable(mem[slot := mem[slot].(cap := newCap)], Slots(tree))
      modifies this
      ensures TreeOk() && Slots(tree) == old(Slots(tree))
      ensures SameBut(old(mem), mem, {slot})
      ensures mem[slot].cap == newCap && mem[slot].depth == old(mem)[slot].depth
    {
      ghost var m := mem[slot := mem[slot].(cap := newCap)];
      if CapsEqual(mem[slot].cap, newCap) {
        SetCap(slot, newCap);
      } else {
        RepSlots(mem, root, tree);
        ghost var s := Slots(tree);
        TreeRemove(slot);
        WriteCte(slot, newCap, mem[slot].depth);
        assert Slots(tree) + {slot} == s;
        ComparableSub(m, mem, s, s);
        TreeInsert(slot);
      }
    }

    /** Exchanges two slots' caps, taking the depths along. The caps may be new versions of the old ones. */
    method CdtSwap(cap1: Cap, slot1: Addr, cap2: Cap, slot2: Addr)
      requires TreeOk() && slot1 != slot2 && slot1 in mem && slot2 in mem && slot1 != 0 && slot2 != 0
      requires slot1 in Slots(tree) <==> mem[slot1].cap != Null
      requires slot2 in Slots(tree) <==> mem[slot2].cap != Null
      requires Comparable(Swapped(mem, cap1, slot1, cap2, slot2), SwappedSlots(Slots(tree), cap1, slot1, cap2, slot2))
      modifies this
      ensures TreeOk() && Slots(tree) == SwappedSlots(old(Slots(tree)), cap1, slot1, cap2, slot2)
      ensures SameBut(old(mem), mem, {slot1, slot2})
      ensures mem[slot1].cap == cap2 && mem[slot1].depth == old(mem)[slot2].depth
      ensures mem[slot2].cap == cap1 && mem[slot2].depth == old(mem)[slot1].depth
    {
      ghost var fin, all := Swapped(mem, cap1, slot1, cap2, slot2), SwappedSlots(Slots(tree), cap1, slot1, cap2, slot2);
      ExchangeOutside(cap1, slot1, cap2, slot2);
      ComparableSub(fin, mem, all, all);
      ghost var s0 := Slots(tree);
      InsertUnlessNull(slot1, all);
      ghost var s1 := Slots(tree);
      InsertUnlessNull(slot2, all);
      SwappedInSteps(old(Slots(tree)), s0, s1, Slots(tree), cap1, slot1, cap2, slot2);
    }

    /** The first half of cdtSwap: both slots leave the tree and are rewritten. */
    method ExchangeOutside(cap1: Cap, slot1: Addr, cap2: Cap, slot2: Addr)
      requires TreeOk() && slot1 != slot2 && slot1 in mem && slot2 in mem
      requires slot1 in Slots(tree) <==> mem[slot1].cap != Null
      requires slot2 in Slots(tree) <==> mem[slot2].cap != Null
      modifies this
      ensures TreeOk() && Slots(tree) == old(Slots(tree)) - {slot1, slot2}
      ensures SameBut(old(mem), mem, {slot1, slot2})
      ensures mem[slot1] == Cte(cap2, old(mem)[slot2].depth, 0, 0, 0)
      ensures mem[slot2] == Cte(cap1, old(mem)[slot1].depth, 0, 0, 0)
    {
      RemoveUnlessNull(slot1);
      RemoveUnlessNull(slot2);
      var depth1, depth2 := mem[slot1].depth, mem[slot2].depth;
      WriteCte(slot1, cap2, depth2);
      WriteCte(slot2, cap1, depth1);
    }

    method RemoveUnlessNull(slot: Addr)
      requires TreeOk() && slot in mem && (slot in Slots(tree) <==> mem[slot].cap != Null)
      modifies this
      ensures TreeOk() && Slots(tree) == old(Slots(tree)) - {slot} && SameBut(old(mem), mem, {})
    {
      if mem[slot].cap != Null {
        TreeRemove(slot);
      }
    }

    method InsertUnlessNull(slot: Addr, ghost all: set<Addr>)
      requires TreeOk() && slot in mem && slot != 0 && slot !in Slots(tree)
      requires mem[slot].left == 0 && mem[slot].right == 0
      requires Comparable(mem, all) && Slots(tree) <= all && (mem[slot].cap != Null ==> slot in all)
      modifies this
      ensures TreeOk() && SameBut(old(mem), mem, {}) && Comparable(mem, all)
      ensures old(mem)[slot].cap == Null ==> Slots(tree) == old(Slots(tree))
      ensures old(mem)[slot].cap != Null ==> Slots(tree) == old(Slots(tree)) + {slot}
      ensures forall a :: a in mem && a !in Slots(tree) ==> mem[a] == old(mem)[a]
    {
      if mem[slot].cap != Null {
        ComparableSub(mem, mem, all, Slots(tree) + {slot});
        TreeInsert(slot);
      }
      ComparableSub(old(mem), mem, all, all);
    }

    // ---- Neighbours ----

    /** The listing of the tree: all its slots, in derivation order. */
    ghost function Listing(): seq<Addr>
      reads this
    {
      Flatten(tree)
    }

    ghost function Less(): (Addr, Addr) -> bool
      reads this
    {
      Order(ViewOf(mem))
    }

    method AaParent(slot: Addr) returns (current: Addr)
      requires TreeOk() && slot in Slots(tree)
      ensures current == RootOf(ParentOf(Less(), tree, slot)) && (current == 0 || current in mem)
    {
      ghost var less := Less();
      OrderTotal(ViewOf(mem));
      SlotsListed(tree);
      current := 0;
      var next := root;
      ghost var u: Tree<Addr>, p: Tree<Addr> := tree, Leaf;
      while next != slot
        invariant Rep(mem, next, u) && Sorted(less, Flatten(u)) && slot in Slots(u) && Slots(u) <= Slots(tree)
        invariant current == RootOf(p) && (current == 0 || current in mem)
        invariant ParentOf(less, tree, slot) == if u.elem == slot then p else ParentOf(less, u, slot)
        decreases u
      {
        current := next;
        p := u;
        RootParts(less, u);
        InSubtree(less, u, slot);
        RepSlots(mem, current, u);
        CompSlotOrders(mem, Slots(tree), current, slot);
        var cmp := CompSlot(SlotAt(mem, current), SlotAt(mem, slot));
        if cmp == LT {
          next := mem[current].right;
          u := u.right;
        } else if cmp == GT {
          next := mem[current].left;
          u := u.left;
        } else {
          assert false;
        }
      }
    }

    /** The next slot in derivation order, 0 after the last. */
    method AaTraverseForward(slot: Addr) returns (r: Addr)
      requires TreeOk() && slot in Slots(tree)
      ensures var i := Position(Less(), tree, slot);
        r == if i + 1 < |Listing()| then Listing()[i + 1] else 0
    {
      OrderTotal(ViewOf(mem));
      AroundSlot(mem, root, Less(), tree, slot);
      var right := mem[slot].right;
      if right != 0 {
        r := AaSucc(right, SubAt(Less(), tree, slot).right);
      } else {
        r := ClimbFromLeft(slot);
      }
    }

    /** Upwards until the link followed was a left one. */
    method ClimbFromLeft(slot: Addr) returns (parent: Addr)
      requires TreeOk() && slot in Slots(tree)
      ensures var end := UpTo(Less(), tree, slot);
        parent == if end < |Listing()| then Listing()[end] else 0
    {
      ghost var less := Less();
      OrderTotal(ViewOf(mem));
      ghost var end := UpTo(less, tree, slot);
      var cur := slot;
      parent := AaParent(cur);
      while parent != 0 && mem[parent].left != cur
        invariant cur in Slots(tree) && parent == RootOf(ParentOf(less, tree, cur)) && (parent == 0 || parent in mem)
        invariant UpTo(less, tree, cur) == end
        decreases |Flatten(tree)| - |Flatten(SubAt(less, tree, cur))|
      {
        Climb(mem, root, less, tree, cur, parent);
        cur := parent;
        parent := AaParent(cur);
      }
      Climb(mem, root, less, tree, cur, parent);
    }

    /** The previous slot in derivation order, 0 before the first. */
    method AaTraverseBackward(slot: Addr) returns (r: Addr)
      requires TreeOk() && slot in Slots(tree)
      ensures var i := Position(Less(), tree, slot);
        r == if 0 < i <= |Listing()| then Listing()[i - 1] else 0
    {
      OrderTotal(ViewOf(mem));
      AroundSlot(mem, root, Less(), tree, slot);
      var left := mem[slot].left;
      if left != 0 {
        r := AaPred(left, SubAt(Less(), tree, slot).left);
      } else {
        r := ClimbFromRight(slot);
      }
    }

    /** Upwards until the link followed was a right one. */
    method ClimbFromRight(slot: Addr) returns (parent: Addr)
      requires TreeOk() && slot in Slots(tree)
      ensures var begin := Before(Less(), tree, slot);
        parent == if 0 < begin <= |Listing()| then Listing()[begin - 1] else 0
    {
      ghost var less := Less();
      OrderTotal(ViewOf(mem));
      ghost var begin := Before(less, tree, slot);
      var cur := slot;
      parent := AaParent(cur);
      while parent != 0 && mem[parent].right != cur
        invariant cur in Slots(tree) && parent == RootOf(ParentOf(less, tree, cur)) && (parent == 0 || parent in mem)
        invariant Before(less, tree, cur) == begin
        decreases |Flatten(tree)| - |Flatten(SubAt(less, tree, cur))|
      {
        Climb(mem, root, less, tree, cur, parent);
        cur := parent;
        parent := AaParent(cur);
      }
      Climb(mem, root, less, tree, cur, parent);
    }

    /** Looking at the two neighbours decides whether any other slot of the whole tree names the same object. */
    method CdtIsFinal(slot: Addr) returns (final: bool)
      requires TreeOk() && slot in Slots(tree)
      ensures final <==> NoOtherNames(mem, Slots(tree), slot)
    {
      FinalHere(slot);
      var closest := AaTraverseForward(slot);
      if closest != 0 {
        if SameObjectAs(mem[closest].cap, mem[slot].cap) { return false; }
      }
      closest := AaTraverseBackward(slot);
      if closest != 0 {
        if SameObjectAs(mem[closest].cap, mem[slot].cap) { return false; }
      }
      return true;
    }

    lemma Listed(slot: Addr)
      requires TreeOk() && slot in Slots(tree)
      ensures forall a :: a in Listing() <==> a in Slots(tree)
      ensures Slots(tree) <= mem.Keys && 0 !in Slots(tree)
      ensures Position(Less(), tree, slot) < |Listing()| && Listing()[Position(Less(), tree, slot)] == slot
    {
      OrderTotal(ViewOf(mem));
      RepSlots(mem, root, tree);
      SlotsListed(tree);
      PositionListed(Less(), tree, slot);
    }

    lemma FinalHere(slot: Addr)
      requires TreeOk() && slot in Slots(tree)
      ensures forall a :: a in Listing() ==> a in mem && a != 0
      ensures slot in mem
      ensures var s, i := Listing(), Position(Less(), tree, slot);
        i < |s| && s[i] == slot && (NoOtherNames(mem, Slots(tree), slot) <==> NeighboursDiffer(mem, s, i))
    {
      Listed(slot);
      FinalByNeighbours(mem, Slots(tree), Listing(), Position(Less(), tree, slot));
    }

    // ---- Searching for children ----

    /** The greatest slot the comparator puts below `hypothetical`, 0 if there is none. */
    method AaFindFromBelow(hypothetical: Slot, tie: TieBreak) returns (largest: Addr)
      requires TreeOk() && root != 0
      requires Prefix(Listing(), IsBelow(mem, hypothetical, tie))
      ensures largest == 0 ==> forall a :: a in Slots(tree) ==> !IsBelow(mem, hypothetical, tie)(a)
      ensures largest != 0 ==> largest in Slots(tree) && IsBelow(mem, hypothetical, tie)(largest)
      ensures largest != 0 ==> forall a :: a in Slots(tree) && IsBelow(mem, hypothetical, tie)(a) ==>
        a == largest || Less()(a, largest)
    {
      ghost var below := IsBelow(mem, hypothetical, tie);
      ghost var a: seq<Addr>, u: Tree<Addr>, b: seq<Addr> := [], tree, [];
      OrderTotal(ViewOf(mem));
      SlotsListed(tree);
      assert Listing() == [] + Listing() + [];
      var next := root;
      largest := 0;
      while next != 0
        invariant Rep(mem, next, u) && Narrowed(Listing(), below, a, Flatten(u), b)
        invariant largest == if a == [] then 0 else a[|a| - 1]
        decreases u
      {
        var current := next;
        ghost var l, r := Flatten(u.left), Flatten(u.right);
        var cmp := CompSlotWith(SlotAt(mem, current), hypothetical, tie);
        if cmp == LT {
          next := mem[current].right;
          NarrowRight(Listing(), below, a, l, current, r, b);
          if a != [] { LastIsLess(mem, tree, a, l, current, r, b); }
          if largest == 0 || CompSlot(SlotAt(mem, current), SlotAt(mem, largest)) == GT {
            largest := current;
          }
          a := a + l + [current];
          u := u.right;
        } else {
          next := mem[current].left;
          NarrowLeft(Listing(), below, a, l, current, r, b);
          b := [current] + r + b;
          u := u.left;
        }
      }
      NarrowedOut(Less(), Listing(), below, a, b);
      RepSlots(mem, root, tree);
    }

    /** _cdtFindChild: the greatest child in derivation order, 0 when there is none. */
    method CdtFindChildByOrder(parentSlot: Addr) returns (child: Addr)
      requires TreeOk() && parentSlot in Slots(tree)
      requires mem[parentSlot].cap.Untyped? ==> mem[parentSlot].cap.blockSize >= 4
      ensures child == 0 ==> forall a :: a in Slots(tree) ==> !IsChild(SlotAt(mem, parentSlot), SlotAt(mem, a))
      ensures child != 0 ==> child in Slots(tree) && IsChild(SlotAt(mem, parentSlot), SlotAt(mem, child))
      ensures child != 0 ==> forall a :: a in Slots(tree) && IsChild(SlotAt(mem, parentSlot), SlotAt(mem, a)) ==>
        a == child || Less()(a, child)
    {
      ghost var s, p := Slots(tree), SlotAt(mem, parentSlot);
      UpToLargestChild(mem, tree, parentSlot);
      child := AaFindFromBelow(LargestChild(SlotAt(mem, parentSlot)), AlwaysBelow);
      forall a | a in s
        ensures IsBelow(mem, LargestChild(p), AlwaysBelow)(a) <==>
          CapCompare(KeyOf(SlotAt(mem, a)), KeyOf(LargestChild(p))) != GT
      {
        BelowLargestChild(mem, s, parentSlot, a);
      }
      if child != 0 {
        ChildTest(mem, s, parentSlot, child);
        if CompSlotWith(SlotAt(mem, child), SlotAt(mem, parentSlot), SlotBelow) != GT {
          forall a | a in s && IsBelow(mem, LargestChild(p), AlwaysBelow)(a) ensures !IsChild(p, SlotAt(mem, a)) {
            NoneAbove(mem, s, parentSlot, child, a);
          }
          child := 0;
        }
      }
    }

    /** cdtFindTypedInRange. Where every object lies whole, it finds a typed slot in the region exactly when
        there is one other than a badged cap to an endpoint in the last sixteen bytes. It looks at no slot but the
        greatest one up to the top of the region, which may be untyped, and may be the region itself. */
    method CdtFindTypedInRange(base: nat, sizeBits: nat) returns (child: Addr)
      requires TreeOk() && root != 0 && sizeBits >= EP_SIZE_BITS
      ensures InRange(mem, Slots(tree), base, sizeBits, child)
    {
      UpToRangeTop(mem, tree, base, sizeBits);
      child := AaFindFromBelow(RangeTop(base, sizeBits), AlwaysBelow);
      RangeOutcome(mem, Slots(tree), base, sizeBits, child);
      if child != 0 { RegionIsBytes(base, sizeBits, mem[child].cap); }
      if child == 0 || !SameRegionAs(Untyped(base, sizeBits), mem[child].cap) {
        child := 0;
      }
    }

    /** cdtFindChild: for untyped memory anything typed in its region first, and then by order. */
    method CdtFindChild(parentSlot: Addr) returns (child: Addr)
      requires TreeOk() && parentSlot in Slots(tree)
      requires mem[parentSlot].cap.Untyped? ==> mem[parentSlot].cap.blockSize >= 4
      ensures child != 0 ==> child in Slots(tree)
      ensures child == 0 ==> NoChildren(parentSlot)
      ensures child != 0 && !mem[parentSlot].cap.Untyped? ==> IsChild(SlotAt(mem, parentSlot), SlotAt(mem, child))
      ensures child != 0 && mem[parentSlot].cap.Untyped? ==>
        || InRange(mem, Slots(tree), mem[parentSlot].cap.ptr, mem[parentSlot].cap.blockSize, child)
        || IsChild(SlotAt(mem, parentSlot), SlotAt(mem, child))
    {
      if SpaceType(mem[parentSlot].cap) == SPACE_UNTYPED {
        child := CdtFindTypedInRange(mem[parentSlot].cap.ptr, mem[parentSlot].cap.blockSize);
        if child != 0 { return; }
      }
      child := CdtFindChildByOrder(parentSlot);
    }

    /** No child by the order, and for untyped memory nothing the search of its region returns. */
    ghost predicate NoChildren(slot: Addr)
      requires slot in mem && Slots(tree) <= mem.Keys && (mem[slot].cap.Untyped? ==> mem[slot].cap.blockSize >= 4)
      reads this
    {
      && (forall a :: a in Slots(tree) ==> !IsChild(SlotAt(mem, slot), SlotAt(mem, a)))
      && (mem[slot].cap.Untyped? ==> InRange(mem, Slots(tree), mem[slot].cap.ptr, mem[slot].cap.blockSize, 0))
    }

    // ---- Searching for a cap ----

    /** cdtFindAtDepth: the slot that is the given cap's equal in the order, slot addresses aside, if there is one. */
    method CdtFindAtDepth(hypothetical: Cap, depth: nat) returns (r: Addr)
      requires TreeOk() && root != 0 && hypothetical != Null
      requires forall a :: a in Slots(tree) ==> Agree(mem[a].cap, hypothetical)
      ensures r != 0 ==> r in Slots(tree) && SamePlace(SlotAt(mem, r), Slot(hypothetical, depth, 0))
      ensures r == 0 ==> forall a :: a in Slots(tree) ==> !SamePlace(SlotAt(mem, a), Slot(hypothetical, depth, 0))
    {
      ghost var slot, u := Slot(hypothetical, depth, 0), tree;
      OrderTotal(ViewOf(mem));
      var next := root;
      while next != 0
        invariant Seeking(mem, Slots(tree), next, u, slot)
        decreases u
      {
        var current := next;
        SeekDown(mem, Slots(tree), next, u, slot);
        var cmp := CompSlotWith(SlotAt(mem, current), Slot(hypothetical, depth, 0), SlotEqual);
        if cmp == LT {
          next := mem[current].right;
          u := u.right;
        } else if cmp == GT {
          next := mem[current].left;
          u := u.left;
        } else {
          return current;
        }
      }
      SeekEnds(mem, Slots(tree), u, slot);
      return 0;
    }
  }
}
