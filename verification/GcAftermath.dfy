/** The counts after a collection attempt, and after the objects it destroyed are deleted. */
module GcAftermath {
  import opened Wrappers
  import opened AvmHeap
  import opened GcSearch
  import opened GcSearchInvariant
  import opened RefCounting
  import opened Conservation
  import opened GcCollect
  import opened GcTheorems

  /** Destroyed by the collector, waiting in its list to be deleted. */
  predicate Doomed(h: Heap, d: Obj) {
    d in h && h[d].constant && h[d].deletedInGc && !h[d].freed && !h[d].cached && !h[d].inDestruction && h[d].cyclic
    && h[d].inList && h[d].marked && forall k :: 0 <= k < |h[d].members| ==> h[d].members[k].target == None
  }

  // ----- destruction keeps the counts -----

  /** The fields of a constant object are not part of the bargain. */
  lemma ConstantKeeps(h: Heap, out: Outside, d: Obj, r: Rec)
    requires Conserved(h, out) && d in h && !h[d].freed && r.constant && !r.freed && !r.inDestruction && r.members == h[d].members
    ensures Conserved(h[d := r], out)
  {
    assert Balanced(h, out, d);
    RecountKeeps(h, out, h[d := r], out, d);
  }

  lemma {:induction false} SetConstantsKeeps(h: Heap, out: Outside, ds: seq<Obj>)
    requires Conserved(h, out) && forall d :: d in ds ==> d in h && !h[d].freed && !h[d].inDestruction
    ensures Conserved(SetConstants(h, ds), out)
    decreases |ds|
  {
    if ds != [] {
      ConstantKeeps(h, out, ds[0], h[ds[0]].(constant := true));
      SetConstantsKeeps(h[ds[0] := h[ds[0]].(constant := true)], out, ds[1..]);
    }
  }

  /** Ready to be destroyed, or destroyed already. */
  predicate Sentenced(h: Heap, d: Obj) {
    d in h && h[d].constant && !h[d].freed && !h[d].cached && !h[d].inDestruction && h[d].cyclic
  }

  lemma DestructOneKeeps(h: Heap, out: Outside, d: Obj)
    requires Conserved(h, out) && Sentenced(h, d)
    ensures var h' := DestructOne(h, d); Conserved(h', out) && Doomed(h', d) && OnlyErases(h, h')
    ensures forall p :: Sentenced(h, p) ==> Sentenced(DestructOne(h, d), p)
    ensures forall p :: Doomed(h, p) ==> Doomed(DestructOne(h, d), p)
  {
    var h1 := h[d := h[d].(deletedInGc := true)];
    ConstantKeeps(h, out, d, h[d].(deletedInGc := true));
    DestructKeeps(h1, out, d, 0, 0);
    var h2 := Destruct(h1, d, 0, 0);
    ConstantKeeps(h2, out, d, h2[d].(marked := true, inList := true));
    var h' := DestructOne(h, d);
    EvolvesErases(h, h', {d});
    forall p | Sentenced(h, p) ensures Sentenced(h', p) && (Doomed(h, p) ==> Doomed(h', p)) {
      assert p != d ==> EvolvesAt(h, h', p);
    }
  }

  lemma {:induction false} DestructAllKeeps(h: Heap, out: Outside, ds: seq<Obj>)
    requires Conserved(h, out) && (forall d :: d in ds ==> Sentenced(h, d))
    requires forall d :: d in ds ==> d in h && h[d].constant
    ensures var h' := DestructAll(h, ds); Conserved(h', out) && OnlyErases(h, h')
    ensures forall d :: d in ds || Doomed(h, d) ==> Doomed(DestructAll(h, ds), d)
    decreases |ds|
  {
    if ds != [] {
      var h1 := DestructOne(h, ds[0]);
      DestructOneKeeps(h, out, ds[0]);
      forall d | d in ds[1..] ensures Sentenced(h1, d) { assert Sentenced(h, d); }
      DestructAllKeeps(h1, out, ds[1..]);
    }
  }

  lemma DestroyKeeps(h: Heap, out: Outside, ds: seq<Obj>)
    requires Conserved(h, out)
    requires forall d :: d in ds ==> d in h && !Locked(h[d]) && h[d].cyclic
    ensures var h' := Destroy(h, ds); Conserved(h', out) && OnlyErases(h, h') && forall d :: d in ds ==> Doomed(h', d)
  {
    SetConstantsKeeps(h, out, ds);
    DestructAllKeeps(SetConstants(h, ds), out, ds);
  }

  lemma {:induction false} DestructAllEvolves(h: Heap, ds: seq<Obj>, p: Obj)
    requires WellFormed(h) && p in h && p !in ds && (forall d :: d in ds ==> d in h && h[d].constant)
    ensures EvolvesAt(h, DestructAll(h, ds), p)
    decreases |ds|
  {
    if ds == [] {
      assert EvolvesAt(h, Same(h), p);
    } else {
      var h1 := DestructOne(h, ds[0]);
      forall d | d in ds[1..] ensures d in h1 && h1[d].constant {
        assert d in ds && (d != ds[0] ==> EvolvesAt(h, h1, d));
      }
      DestructAllEvolves(h1, ds[1..], p);
      assert EvolvesAt(h, h1, p);
    }
  }

  /** An object that is not condemned and still held outside keeps all its members. */
  lemma HeldSurvivorKeepsMembers(h: Heap, out: Outside, ds: seq<Obj>, p: Obj)
    requires Conserved(h, out) && p in h && p !in ds && !Locked(h[p])
    requires forall d :: d in ds ==> d in h && !Locked(h[d]) && h[d].cyclic
    requires out[p] > 0 || Slots(Destroy(h, ds), p) != {}
    ensures Destroy(h, ds)[p].members == h[p].members && !Destroy(h, ds)[p].freed
  {
    DestroyKeeps(h, out, ds);
    DestructAllEvolves(SetConstants(h, ds), ds, p);
    assert Balanced(Destroy(h, ds), out, p);
  }

  lemma UnmarkKeeps(h: Heap, out: Outside, o: Obj)
    requires Conserved(h, out) && o in h
    ensures Conserved(Unmark(h, o), out)
  {
    assert Balanced(h, out, o);
    RecountKeeps(h, out, Unmark(h, o), out, o);
  }

  lemma CondemnedUnlocked(h: Heap, out: Outside, o: Obj)
    requires Conserved(h, out) && Eligible(h, o) && !h[o].inList && Condemns(h, Searched(h, o))
    ensures var st := Searched(h, o);
      forall d :: d in Sentence(h, st) <==> d in h && Condemned(h, st, d)
    ensures forall d :: d in Sentence(h, Searched(h, o)) ==> !Locked(h[d]) && h[d].cyclic
  {
    var st := Searched(h, o);
    forall d | d in Sentence(h, st) ensures d in h && Condemned(h, st, d) && !Locked(h[d]) && h[d].cyclic {
      CondemnedOnlyFromVisited(h, out, o, d);
    }
  }

  lemma AfterSearchKeeps(h: Heap, out: Outside, o: Obj)
    requires Conserved(h, out) && Eligible(h, o) && !h[o].inList && out[o] >= 1
    ensures var r := HandleGarbageCollection(h, o);
      Conserved(r.heap, if r.collected then out else out[o := out[o] - 1])
  {
    UnmarkKeeps(h, out, o);
    var h1 := Unmark(h, o);
    var st := Searched(h, o);
    if !st.stopped && NeedsNewCheck(h, st) {
      assert Balanced(h1, out, o);
      RecountKeeps(h1, out, h1[o := h1[o].(inList := true)], out[o := out[o] - 1], o);
    } else if Condemns(h, st) {
      CondemnedUnlocked(h, out, o);
      DestroyKeeps(h1, out, Sentence(h, st));
    } else {
      DecRefKeeps(h1, out, o);
    }
  }

  /** Whatever a collection attempt decides, the counts of every surviving object stay exact; the
      list's reference to the object is spent, kept by the list again, or gone with the object. */
  lemma HandleKeeps(h: Heap, out: Outside, o: Obj)
    requires Conserved(h, out) && o in h && !h[o].inList && out[o] >= 1
    ensures var r := HandleGarbageCollection(h, o);
      Conserved(r.heap, if r.collected then out else out[o := out[o] - 1])
  {
    assert Balanced(h, out, o);
    if h[o].constant || h[o].cached || h[o].inDestruction {
      RecountKeeps(h, out, h, out[o := out[o] - 1], o);
    } else if h[o].storedStatic != 0 {
      UnmarkKeeps(h, out, o);
      DecRefKeeps(Unmark(h, o), out, o);
    } else if Eligible(h, o) {
      AfterSearchKeeps(h, out, o);
    } else {
      DecRefKeeps(h, out, o);
    }
  }

  // ----- deletion -----

  lemma {:induction false} DestructEmptied(h: Heap, o: Obj, pass: nat, k: nat)
    requires WellFormed(h) && o in h && Locked(h[o]) && pass < 3 && k <= |h[o].members|
    requires forall j :: 0 <= j < |h[o].members| ==> h[o].members[j].target == None
    ensures Destruct(h, o, pass, k) == h
    decreases 3 - pass, |h[o].members| - k
  {
    if k == |h[o].members| {
      if pass != 2 { DestructEmptied(h, o, pass + 1, 0); }
    } else {
      DestructEmptied(h, o, pass, k + 1);
      if ClearPass(h[o].members[k]) == pass {
        assert h[o].members[k := Erased(h[o].members[k])] == h[o].members;
        assert DropMember(h, o, k) == h;
      }
    }
  }

  /** Deleting a doomed object changes no other. */
  lemma {:induction false} FinishOne(h: Heap, d: Obj)
    requires WellFormed(h) && Doomed(h, d)
    ensures var h1 := h[d := h[d].(deletedInGc := false, inList := false, marked := false,
                                   refCount := 1, stored := 0, storedStatic := 0, constant := false)];
      WellFormed(h1) && DecRef(h1, d) == h[d := Freed(h1[d])]
  {
    var h1 := h[d := h[d].(deletedInGc := false, inList := false, marked := false,
                           refCount := 1, stored := 0, storedStatic := 0, constant := false)];
    var h2 := h1[d := h1[d].(inDestruction := true, refCount := 1)];
    DestructEmptied(h2, d, 0, 0);
    assert HandleDestruction(h1, d) == h2[d := Freed(h2[d])];
  }

  function Forgotten(out: Outside, ds: seq<Obj>): Outside {
    map o | o in out :: if o in ds then 0 else out[o]
  }

  ghost predicate Deleted(h: Heap, d: Obj) { d in h && h[d].freed && !h[d].deletedInGc }

  /** Each object of the list is doomed or deleted already. */
  ghost predicate Ending(h: Heap, ds: seq<Obj>) {
    forall d :: d in ds ==> d in h && (h[d].deletedInGc ==> Doomed(h, d)) && (!h[d].deletedInGc ==> h[d].freed)
  }

  /** The collector's last loop frees exactly the doomed objects of the list and touches no other. */
  lemma {:induction false} FinishFrees(h: Heap, ds: seq<Obj>)
    requires WellFormed(h) && Ending(h, ds)
    ensures var f := Finish(h, ds);
      && (forall d {:trigger d in ds} :: d in ds ==> Deleted(f, d) && f[d].members == h[d].members)
      && (forall p :: p in h && p !in ds ==> f[p] == h[p])
      && (forall d {:trigger d in ds} :: d in ds && Doomed(h, d) ==> !f[d].constant && !f[d].cached && !f[d].inList && f[d].refCount < 0)
      && (forall d :: Deleted(h, d) ==> f[d] == h[d])
    decreases |ds|
  {
    if ds != [] {
      var d := ds[0];
      assert forall p :: p in ds <==> p == d || p in ds[1..];
      if h[d].deletedInGc {
        FinishOne(h, d);
        var h1 := h[d := h[d].(deletedInGc := false, inList := false, marked := false,
                               refCount := 1, stored := 0, storedStatic := 0, constant := false)];
        FinishFrees(DecRef(h1, d), ds[1..]);
      } else {
        FinishFrees(h, ds[1..]);
      }
    }
  }

  /** Deleting the destroyed objects leaves every count exact if and only if no slot of the
      remaining heap still stores one of them. */
  lemma {:induction false} DeletionSafeIff(h: Heap, out: Outside, ds: seq<Obj>)
    requires Conserved(h, out) && forall d :: d in ds ==> d in h && h[d].deletedInGc && Doomed(h, d)
    ensures Conserved(Finish(h, ds), Forgotten(out, ds)) <==> (forall d :: d in ds ==> Slots(h, d) == {})
  {
    if forall d :: d in ds ==> Slots(h, d) == {} {
      UnstoredDeletionKeeps(h, out, ds);
    }
    if Conserved(Finish(h, ds), Forgotten(out, ds)) {
      FinishFrees(h, ds);
      FinishKeepsMembers(h, ds);
      hide Finish, Forgotten, Conserved;
      forall d | d in ds ensures Slots(h, d) == {} {
        assert Doomed(h, d);
        SlotsSame(h, Finish(h, ds), d);
        FreedHasNoSlots(Finish(h, ds), Forgotten(out, ds), d);
      }
    }
  }

  lemma {:induction false} FinishKeepsMembers(h: Heap, ds: seq<Obj>)
    requires WellFormed(h) && Ending(h, ds)
    ensures forall x :: x in h ==> Finish(h, ds)[x].members == h[x].members
  {
    FinishFrees(h, ds);
    hide Finish;
  }

  lemma {:induction false} UnstoredDeletionKeeps(h: Heap, out: Outside, ds: seq<Obj>)
    requires Conserved(h, out) && forall d :: d in ds ==> d in h && h[d].deletedInGc && Doomed(h, d)
    requires forall d :: d in ds ==> Slots(h, d) == {}
    ensures Conserved(Finish(h, ds), Forgotten(out, ds))
  {
    hide Finish, Balanced, Doomed, Deleted;
    var f := Finish(h, ds);
    forall d | d in ds ensures d in h && (h[d].deletedInGc ==> Doomed(h, d)) && (!h[d].deletedInGc ==> h[d].freed) { }
    FinishFrees(h, ds);
    FinishKeepsMembers(h, ds);
    forall p | p in h ensures Balanced(f, Forgotten(out, ds), p) {
      assert Balanced(h, out, p);
      SlotsSame(h, f, p);
      DeletedBalanced(h, out, f, ds, p);
    }
  }

  lemma DeletedBalanced(h: Heap, out: Outside, f: Heap, ds: seq<Obj>, p: Obj)
    requires Balanced(h, out, p) && p in f && Slots(f, p) == Slots(h, p) && f[p].members == h[p].members
    requires p !in ds ==> f[p] == h[p]
    requires p in ds ==> Doomed(h, p) && Deleted(f, p) && Slots(h, p) == {}
    requires p in ds ==> !f[p].constant && !f[p].cached && !f[p].inList && f[p].refCount < 0
    ensures Balanced(f, Forgotten(out, ds), p)
  {
  }

  lemma FreedHasNoSlots(h: Heap, out: Outside, d: Obj)
    requires Conserved(h, out) && d in h && h[d].freed
    ensures Slots(h, d) == {}
  {
    assert Balanced(h, out, d);
  }

  /** After a collection the condemned objects, and no others, are doomed. */
  lemma CollectedAreDoomed(h: Heap, out: Outside, o: Obj)
    requires Conserved(h, out) && Eligible(h, o) && !h[o].inList
    requires HandleGarbageCollection(h, o).collected
    ensures Condemns(h, Searched(h, o))
    ensures var r := HandleGarbageCollection(h, o);
      && Conserved(r.heap, out) && OnlyErases(h, r.heap)
      && (forall d :: d in r.destroyed ==> Doomed(r.heap, d))
      && (forall d :: d in r.destroyed <==> d in h && Condemned(h, Searched(h, o), d))
  {
    CondemnedUnlocked(h, out, o);
    DecidedDestroys(h, out, Searched(h, o));
  }

  lemma DecidedDestroys(h: Heap, out: Outside, st: Search)
    requires Conserved(h, out) && Fits(h, st) && Decide(h, st).collected
    requires forall d :: d in Sentence(h, st) ==> !Locked(h[d]) && h[d].cyclic
    ensures var r := Decide(h, st);
      && r.destroyed == Sentence(h, st) && Conserved(r.heap, out) && OnlyErases(h, r.heap)
      && (forall d :: d in r.destroyed ==> Doomed(r.heap, d))
  {
    hide Conserved, OnlyErases, Destroy, Sentence, Doomed;
    UnmarkedDestroy(h, out, st.start, Sentence(h, st));
  }

  lemma UnmarkedDestroy(h: Heap, out: Outside, o: Obj, ds: seq<Obj>)
    requires Conserved(h, out) && o in h
    requires forall d :: d in ds ==> d in h && !Locked(h[d]) && h[d].cyclic
    ensures var h' := Destroy(Unmark(h, o), ds);
      Conserved(h', out) && OnlyErases(h, h') && forall d :: d in ds ==> Doomed(h', d)
  {
    UnmarkKeeps(h, out, o);
    UnmarkChangesMark(h, o, ds);
    var h1 := Unmark(h, o);
    DestroyKeeps(h1, out, ds);
    SameMembersErases(h, h1, Destroy(h1, ds));
  }

  lemma UnmarkChangesMark(h: Heap, o: Obj, ds: seq<Obj>)
    requires WellFormed(h) && o in h
    requires forall d :: d in ds ==> d in h && !Locked(h[d]) && h[d].cyclic
    ensures forall d :: d in ds ==> d in Unmark(h, o) && !Locked(Unmark(h, o)[d]) && Unmark(h, o)[d].cyclic
    ensures forall x :: x in h ==> Unmark(h, o)[x].members == h[x].members
  {
  }

  lemma SameMembersErases(h: Heap, h1: Heap, h': Heap)
    requires OnlyErases(h1, h') && h1.Keys == h.Keys && forall x :: x in h ==> h1[x].members == h[x].members
    ensures OnlyErases(h, h')
  {
  }

  lemma NoSlotLeft(h: Heap, h': Heap, ds: seq<Obj>, d: Obj)
    requires OnlyErases(h, h') && (forall p :: p in ds ==> Doomed(h', p))
    requires forall s :: Holds(h, s, d) ==> s.0 in ds
    ensures Slots(h', d) == {}
  {
    forall s | Holds(h, s, d) ensures !Holds(h', s, d) {
      assert Doomed(h', s.0);
    }
    ErasingShrinksSlots(h, h', d);
  }

  /** A collection whose flags are closed is safe to the end: with the destroyed objects deleted,
      the counts of all others are exact and nothing stores a deleted object. */
  lemma ClosedCollectionIsSafe(h: Heap, out: Outside, o: Obj)
    requires Conserved(h, out) && Eligible(h, o) && !h[o].inList
    requires HandleGarbageCollection(h, o).collected && FlagsClosed(h, Searched(h, o))
    ensures var r := HandleGarbageCollection(h, o);
      Conserved(Finish(r.heap, r.destroyed), Forgotten(out, r.destroyed))
  {
    var st := Searched(h, o);
    var r := HandleGarbageCollection(h, o);
    CollectedAreDoomed(h, out, o);
    ClosedIffFlagsClosed(h, out, o);
    forall d | d in r.destroyed ensures Slots(r.heap, d) == {} && Doomed(r.heap, d) {
      assert Condemned(h, st, d);
      NoSlotLeft(h, r.heap, r.destroyed, d);
    }
    DeletionSafeIff(r.heap, out, r.destroyed);
  }

  /** If an object in use outside stores `x`, and `x` is spared but stores a condemned object, then
      the collection ends with `x` alive and storing a deleted object. */
  lemma {:induction false} SparedHolderDangles(h: Heap, out: Outside, ds: seq<Obj>, z: Slot, x: Slot, d: Obj)
    requires Conserved(h, out) && z.0 in h && x.0 in h && d in ds
    requires forall d :: d in ds ==> d in h && !Locked(h[d]) && h[d].cyclic
    requires out[z.0] > 0 && z.0 !in ds && !Locked(h[z.0]) && Holds(h, z, x.0)
    requires x.0 !in ds && !Locked(h[x.0]) && Holds(h, x, d)
    ensures var h' := Destroy(h, ds);
      && Holds(h', z, x.0) && !h'[x.0].freed && Holds(h', x, d)
      && !Conserved(Finish(h', ds), Forgotten(out, ds))
  {
    DestroyKeeps(h, out, ds);
    var h' := Destroy(h, ds);
    HeldSurvivorKeepsMembers(h, out, ds, z.0);
    assert z in Slots(h', x.0);
    HeldSurvivorKeepsMembers(h, out, ds, x.0);
    assert x in Slots(h', d);
    DeletionSafeIff(h', out, ds);
  }
}
