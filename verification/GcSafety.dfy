/** Exactly which objects a collection frees beside those it condemns, and when it is safe to the end. */
module GcSafety {
  import opened Wrappers
  import opened AvmHeap
  import opened GcSearch
  import opened GcSearchInvariant
  import opened RefCounting
  import opened Conservation
  import opened Releases
  import opened GcCollect
  import opened GcTheorems
  import opened GcAftermath

  /** A survivor of a collection that is not freed keeps what it stores. */
  lemma SurvivorKeepsSlot(h: Heap, out: Outside, o: Obj, s: Slot, d: Obj)
    requires Conserved(h, out) && Eligible(h, o) && !h[o].inList && HandleGarbageCollection(h, o).collected
    requires Holds(h, s, d) && s.0 !in HandleGarbageCollection(h, o).destroyed
    requires s.0 in HandleGarbageCollection(h, o).heap && !HandleGarbageCollection(h, o).heap[s.0].freed
    ensures Holds(HandleGarbageCollection(h, o).heap, s, d)
  {
    var ds := HandleGarbageCollection(h, o).destroyed;
    CollectedAreDoomed(h, out, o);
    CondemnedUnlocked(h, out, o);
    var h1 := SetConstants(Unmark(h, o), ds);
    DestructAllEvolves(h1, ds, s.0);
    assert Balanced(h, out, s.0);
    assert h1[s.0].members == h[s.0].members && h1[s.0].freed == h[s.0].freed;
  }

  /** The objects that store a condemned object and are not condemned with it: all of them the search
      has checked and not flagged. */
  ghost predicate Spared(h: Heap, st: Search, s: Slot)
    requires Fits(h, st)
  {
    s.0 in st.checked && !st.counters[s.0].hasMember && exists d :: d in h && Condemned(h, st, d) && Holds(h, s, d)
  }

  /** A collection is safe exactly if every spared holder is freed on the way. */
  lemma SafeIffSparedFreed(h: Heap, out: Outside, o: Obj)
    requires Conserved(h, out) && Eligible(h, o) && !h[o].inList && HandleGarbageCollection(h, o).collected
    ensures var r := HandleGarbageCollection(h, o);
      Conserved(Finish(r.heap, r.destroyed), Forgotten(out, r.destroyed))
      <==> forall s :: Spared(h, Searched(h, o), s) ==> s.0 in r.heap && r.heap[s.0].freed
  {
    var st := Searched(h, o);
    var r := HandleGarbageCollection(h, o);
    CollectedAreDoomed(h, out, o);
    SearchedSound(h, o);
    DeletionSafeIff(r.heap, out, r.destroyed);
    if forall s :: Spared(h, st, s) ==> s.0 in r.heap && r.heap[s.0].freed {
      forall d | d in r.destroyed ensures Slots(r.heap, d) == {} { SparedFreed(h, out, o, d); }
    }
    if forall d :: d in r.destroyed ==> Slots(r.heap, d) == {} {
      forall s | Spared(h, st, s) ensures s.0 in r.heap && r.heap[s.0].freed {
        var d :| d in h && Condemned(h, st, d) && Holds(h, s, d);
        SparedIsNotCondemned(h, st, s.0);
        if !r.heap[s.0].freed {
          SurvivorKeepsSlot(h, out, o, s, d);
        }
      }
    }
  }

  ghost function CondemnedSet(h: Heap, st: Search): (r: set<Obj>)
    requires Fits(h, st)
    ensures forall d :: d in r <==> d in h && Condemned(h, st, d)
  {
    set d | d in h && Condemned(h, st, d)
  }

  /** A collection followed by the deletion of what it destroyed leaves all counts exact, and nothing
      that stores a deleted object, if and only if every checked, unflagged holder of a condemned object
      goes with the condemned ones, which the heap before the collection tells. */
  lemma {:induction false} CollectionSafeIff(h: Heap, out: Outside, o: Obj)
    requires Conserved(h, out) && Eligible(h, o) && !h[o].inList && HandleGarbageCollection(h, o).collected
    ensures var r, st := HandleGarbageCollection(h, o), Searched(h, o);
      Conserved(Finish(r.heap, r.destroyed), Forgotten(out, r.destroyed))
      <==> forall s :: Spared(h, st, s) ==> s.0 in Cascade(h, out, CondemnedSet(h, st))
  {
    var st := Searched(h, o);
    var r := HandleGarbageCollection(h, o);
    SafeIffSparedFreed(h, out, o);
    CollectionFrees(h, out, o);
    SearchedSound(h, o);
    forall s | Spared(h, st, s)
      ensures s.0 in r.heap && r.heap[s.0].freed <==> s.0 in Cascade(h, out, CondemnedSet(h, st))
    {
      SparedIsNotCondemned(h, st, s.0);
      assert Balanced(h, out, s.0);
    }
  }

  /** Beside the condemned objects, which wait for their deletion, a collection frees exactly what goes
      with them. */
  lemma {:induction false} CollectionFrees(h: Heap, out: Outside, o: Obj)
    requires Conserved(h, out) && Eligible(h, o) && !h[o].inList && HandleGarbageCollection(h, o).collected
    ensures var h', c := HandleGarbageCollection(h, o).heap, CondemnedSet(h, Searched(h, o));
      forall x :: x in h && x !in c ==> x in h' && (h'[x].freed <==> h[x].freed || x in Cascade(h, out, c))
  {
    var st := Searched(h, o);
    CollectedAreDoomed(h, out, o);
    CondemnedUnlocked(h, out, o);
    CollectedHeap(h, o);
    hide HandleGarbageCollection, Condemns, Eligible, Searched, Conserved, Doomed, Condemned, Destroy, Sentence;
    UnmarkedFrees(h, out, o, Sentence(h, st), CondemnedSet(h, st));
  }

  lemma CollectedHeap(h: Heap, o: Obj)
    requires WellFormed(h) && Eligible(h, o) && HandleGarbageCollection(h, o).collected
    ensures forall d :: d in Sentence(h, Searched(h, o)) ==> d in Unmark(h, o)
    ensures HandleGarbageCollection(h, o).heap == Destroy(Unmark(h, o), Sentence(h, Searched(h, o)))
  {
    hide DecRef, Destroy, Searched, Sentence, NeedsNewCheck, Condemns;
  }

  /** The mark keeps nothing alive. */
  lemma {:induction false} UnmarkedFrees(h: Heap, out: Outside, o: Obj, ds: seq<Obj>, c: set<Obj>)
    requires Conserved(h, out) && o in h && forall d :: d in ds ==> d in h && !Locked(h[d]) && h[d].cyclic
    requires forall d :: d in c <==> d in ds
    ensures forall d :: d in ds ==> d in Unmark(h, o)
    ensures var h' := Destroy(Unmark(h, o), ds);
      forall x :: x in h && x !in c ==> (h'[x].freed <==> h[x].freed || x in Cascade(h, out, c))
  {
    var h1 := Unmark(h, o);
    UnmarkKeeps(h, out, o);
    UnmarkChangesMark(h, o, ds);
    DestroyFrees(h1, out, ds, c);
    forall x | x in h ensures Slots(h1, x) == Slots(h, x) { SlotsSame(h, h1, x); }
    SameCascade(h, h1, out, c);
  }

  lemma {:induction false} DestroyFrees(h: Heap, out: Outside, ds: seq<Obj>, c: set<Obj>)
    requires Conserved(h, out) && forall d :: d in ds ==> d in h && !Locked(h[d]) && h[d].cyclic
    requires forall d :: d in c <==> d in ds
    ensures var h' := Destroy(h, ds);
      forall x :: x in h && x !in c ==> (h'[x].freed <==> h[x].freed || x in Cascade(h, out, c))
  {
    var h1, h', all := SetConstants(h, ds), Destroy(h, ds), Cascade(h, out, c);
    SetConstantsKeeps(h, out, ds);
    DestroyKeeps(h, out, ds);
    CascadeIsStable(h, out, c);
    ConstantsAnchor(h, h1, out, c, all);
    DestructAllAnchors(h1, out, ds, all);
    var f := set x | x in h && (x in c || (h'[x].freed && !h[x].freed));
    OthersEvolve(h, ds, c);
    forall x, j | x in h && x in f && 0 <= j < |h'[x].members| ensures h'[x].members[j].target == None {
      if x in c { assert Doomed(h', x); } else { assert EvolvesAt(h, h', x); }
    }
    forall x | x in h && x !in f ensures Balanced(h, out, x) && Balanced(h', out, x) { }
    SurvivorsAnchored(h, h', out, c, f);
    CascadeIsLeast(h, out, c, f);
    forall x | x in h && x !in c && h[x].freed ensures h'[x].freed { assert EvolvesAt(h, h', x); }
  }

  lemma OthersEvolve(h: Heap, ds: seq<Obj>, c: set<Obj>)
    requires WellFormed(h) && (forall d :: d in ds ==> d in h) && forall d :: d in c <==> d in ds
    ensures Evolves(h, Destroy(h, ds), c)
  {
    var h1 := SetConstants(h, ds);
    forall x | x in h && x !in c ensures EvolvesAt(h, Destroy(h, ds), x) {
      DestructAllEvolves(h1, ds, x);
    }
  }

  lemma ConstantsAnchor(h: Heap, h1: Heap, out: Outside, c: set<Obj>, d: set<Obj>)
    requires c <= d && Stable(h, out, d) && h1.Keys == h.Keys
    requires forall x :: x in h ==> h1[x].members == h[x].members && (x !in c ==> h1[x] == h[x])
    ensures Stable(h1, out, d)
  {
    forall x | x in h1 && x !in d ensures Anchored(h1, out, d, x) {
      assert Anchored(h, out, d, x);
      SlotsSame(h, h1, x);
    }
  }

  lemma DestructOneAnchors(h: Heap, out: Outside, d: Obj, all: set<Obj>)
    requires Conserved(h, out) && Sentenced(h, d) && d in all && Stable(h, out, all)
    ensures Stable(DestructOne(h, d), out, all) && NoneFreed(h, DestructOne(h, d), all)
  {
    var h1 := h[d := h[d].(deletedInGc := true)];
    ConstantKeeps(h, out, d, h1[d]);
    ConservedIsButNone(h1, out);
    RecountAnchors(h, h1, out, all, d);
    DestructAnchors(h1, out, {}, all, d, 0, 0);
    RecountAnchors(Destruct(h1, d, 0, 0), DestructOne(h, d), out, all, d);
  }

  lemma {:induction false} DestructAllAnchors(h: Heap, out: Outside, ds: seq<Obj>, all: set<Obj>)
    requires Conserved(h, out) && (forall d :: d in ds ==> Sentenced(h, d) && d in all)
    requires forall d :: d in ds ==> d in h && h[d].constant
    requires Stable(h, out, all)
    ensures Stable(DestructAll(h, ds), out, all) && NoneFreed(h, DestructAll(h, ds), all)
    decreases |ds|
  {
    if ds != [] {
      var h1 := DestructOne(h, ds[0]);
      DestructOneKeeps(h, out, ds[0]);
      DestructOneAnchors(h, out, ds[0], all);
      forall d | d in ds[1..] ensures Sentenced(h1, d) { assert Sentenced(h, d); }
      DestructAllAnchors(h1, out, ds[1..], all);
    }
  }

  lemma SparedIsNotCondemned(h: Heap, st: Search, x: Obj)
    requires Inv(h, st) && x in st.checked && !st.counters[x].hasMember
    ensures !Condemned(h, st, x)
  {
    assert Sound(h, st, x);
  }

  lemma SparedFreed(h: Heap, out: Outside, o: Obj, d: Obj)
    requires Conserved(h, out) && Eligible(h, o) && !h[o].inList && HandleGarbageCollection(h, o).collected
    requires var r := HandleGarbageCollection(h, o);
      d in r.destroyed && forall s :: Spared(h, Searched(h, o), s) ==> s.0 in r.heap && r.heap[s.0].freed
    ensures Slots(HandleGarbageCollection(h, o).heap, d) == {}
  {
    var st := Searched(h, o);
    var r := HandleGarbageCollection(h, o);
    CollectedAreDoomed(h, out, o);
    CondemnedOnlyFromVisited(h, out, o, d);
    ErasingShrinksSlots(h, r.heap, d);
    hide HandleGarbageCollection, Condemns, Eligible, Searched, Conserved, Doomed, Condemned;
    forall s | s in Slots(h, d) ensures s !in Slots(r.heap, d) {
      HolderEmptied(h, out, o, d, s);
    }
  }

  lemma HolderEmptied(h: Heap, out: Outside, o: Obj, d: Obj, s: Slot)
    requires Conserved(h, out) && Eligible(h, o) && !h[o].inList && HandleGarbageCollection(h, o).collected
    requires d in HandleGarbageCollection(h, o).destroyed && s in Slots(h, d)
    requires s.0 == o || s.0 in Searched(h, o).checked
    requires Spared(h, Searched(h, o), s) ==>
      s.0 in HandleGarbageCollection(h, o).heap && HandleGarbageCollection(h, o).heap[s.0].freed
    ensures s !in Slots(HandleGarbageCollection(h, o).heap, d)
  {
    var st := Searched(h, o);
    var r := HandleGarbageCollection(h, o);
    CollectedAreDoomed(h, out, o);
    hide HandleGarbageCollection, Condemns, Eligible, Searched, OnlyErases, WellFormed;
    if s.0 == o || st.counters[s.0].hasMember {
      HolderIsDoomed(h, out, o, s.0);
    } else {
      assert Balanced(r.heap, out, s.0);
    }
  }

  lemma HolderIsDoomed(h: Heap, out: Outside, o: Obj, x: Obj)
    requires Conserved(h, out) && Eligible(h, o) && !h[o].inList && HandleGarbageCollection(h, o).collected
    requires x in h && (x == o || (x in Searched(h, o).checked && Searched(h, o).counters[x].hasMember))
    ensures Doomed(HandleGarbageCollection(h, o).heap, x)
  {
    CollectedAreDoomed(h, out, o);
    SearchedSound(h, o);
    assert Sound(h, Searched(h, o), x);
    FlaggedIsCondemned(h, Searched(h, o), x);
  }
}
