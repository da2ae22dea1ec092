/** What a release destroys: exactly the objects that nothing keeps once the reference is gone, a set
    the heap before the release determines.
 */
module Releases {
  import opened Wrappers
  import opened AvmHeap
  import opened RefCounting
  import opened Conservation

  ghost predicate StoredBeyond(h: Heap, d: set<Obj>, x: Obj) {
    exists s :: s in Slots(h, x) && s.0 !in d
  }

  /** Of two stored references the first to go leaves the object to the collector's list. */
  ghost predicate StoredTwice(h: Heap, x: Obj)
    requires x in h
  {
    h[x].cyclic && h[x].storedStatic == 0 && |Slots(h, x)| >= 2
  }

  /** `x` outlives the objects of `d`: it is never destroyed, somebody outside or the collector's list
      holds it or will, or an object not in `d` stores it. */
  ghost predicate Anchored(h: Heap, out: Outside, d: set<Obj>, x: Obj) {
    x in h && x in out &&
    (Locked(h[x]) || out[x] > 0 || h[x].inList || StoredTwice(h, x) || StoredBeyond(h, d, x))
  }

  /** Nothing outside `d` goes with it. */
  ghost predicate Stable(h: Heap, out: Outside, d: set<Obj>) {
    forall x {:trigger Anchored(h, out, d, x)} :: x in h && x !in d ==> Anchored(h, out, d, x)
  }

  /** `d` and all that goes with it, one after another. */
  ghost function Cascade(h: Heap, out: Outside, d: set<Obj>): (r: set<Obj>)
    ensures d <= r <= d + h.Keys
    decreases |h.Keys - d|
  {
    if Stable(h, out, d) then d
    else
      var x :| x in h && x !in d && !Anchored(h, out, d, x);
      assert h.Keys - (d + {x}) < h.Keys - d;
      SubsetCard(h.Keys - (d + {x}), h.Keys - d);
      Cascade(h, out, d + {x})
  }

  lemma {:induction false} CascadeIsStable(h: Heap, out: Outside, d: set<Obj>)
    ensures Stable(h, out, Cascade(h, out, d))
    decreases |h.Keys - d|
  {
    if !Stable(h, out, d) {
      var x :| x in h && x !in d && !Anchored(h, out, d, x) && Cascade(h, out, d) == Cascade(h, out, d + {x});
      assert h.Keys - (d + {x}) < h.Keys - d;
      SubsetCard(h.Keys - (d + {x}), h.Keys - d);
      CascadeIsStable(h, out, d + {x});
    }
  }

  /** It is the least such set. */
  lemma {:induction false} CascadeIsLeast(h: Heap, out: Outside, d: set<Obj>, e: set<Obj>)
    requires d <= e && Stable(h, out, e)
    ensures Cascade(h, out, d) <= e
    decreases |h.Keys - d|
  {
    if !Stable(h, out, d) {
      var x :| x in h && x !in d && !Anchored(h, out, d, x) && Cascade(h, out, d) == Cascade(h, out, d + {x});
      assert h.Keys - (d + {x}) < h.Keys - d;
      SubsetCard(h.Keys - (d + {x}), h.Keys - d);
      assert x in e || Anchored(h, out, e, x);
      CascadeIsLeast(h, out, d + {x}, e);
    }
  }

  // ----- nothing else is destroyed -----

  predicate NoneFreed(h: Heap, h': Heap, d: set<Obj>) {
    forall x :: x in h && x !in d ==> x in h' && h'[x].freed == h[x].freed
  }

  /** A change to the record of one object that does not free it from its anchor. */
  lemma RecountAnchors(h: Heap, h': Heap, out: Outside, d: set<Obj>, o: Obj)
    requires Stable(h, out, d) && o in h && o in h' && h' == h[o := h'[o]] && h'[o].members == h[o].members
    requires o in d || KeptAlike(h[o], h'[o])
    ensures Stable(h', out, d)
  {
    forall x | x in h' && x !in d ensures Anchored(h', out, d, x) {
      assert Anchored(h, out, d, x);
      SlotsSame(h, h', x);
    }
  }

  lemma {:induction false} DecRefAnchors(h: Heap, out: Outside, s: set<Obj>, d: set<Obj>, o: Obj)
    requires ConservedBut(h, out, s) && o in h && o !in s && out[o] >= 1 && Stable(h, out[o := out[o] - 1], d)
    ensures Stable(DecRef(h, o), out[o := out[o] - 1], d) && NoneFreed(h, DecRef(h, o), d)
    decreases Pristine(h), 2
  {
    var r := h[o];
    var out' := out[o := out[o] - 1];
    assert Balanced(h, out, o);
    if !r.constant && !r.cached {
      if r.refCount == 1 {
        assert o in d || Anchored(h, out', d, o);
        forall p | p in h && p !in s && p != o ensures Balanced(h, out', p) { assert Balanced(h, out, p); }
        HandleDestructionAnchors(h, out', s, d, o);
      } else {
        RecountAnchors(h, DecRef(h, o), out', d, o);
      }
    }
  }

  lemma {:induction false} HandleDestructionAnchors(h: Heap, out: Outside, s: set<Obj>, d: set<Obj>, o: Obj)
    requires WellFormed(h) && out.Keys == h.Keys && o in h && !Locked(h[o])
    requires forall p :: p in s ==> p in h && Locked(h[p])
    requires forall p {:trigger Balanced(h, out, p)} :: p in h && p !in s && p != o ==> Balanced(h, out, p)
    requires o in d && Stable(h, out, d)
    ensures Stable(HandleDestruction(h, o), out, d) && NoneFreed(h, HandleDestruction(h, o), d)
    decreases Pristine(h), 1
  {
    var h1 := h[o := h[o].(inDestruction := true, refCount := 1)];
    RecountKeepsBut(h, out, h1, out, s + {o}, o);
    RecountAnchors(h, h1, out, d, o);
    assert o in Pristine(h) && o !in Pristine(h1);
    DestructAnchors(h1, out, s + {o}, d, o, 0, 0);
    RecountAnchors(Destruct(h1, o, 0, 0), HandleDestruction(h, o), out, d, o);
  }

  lemma {:induction false} DestructAnchors(h: Heap, out: Outside, s: set<Obj>, d: set<Obj>, o: Obj, pass: nat, k: nat)
    requires ConservedBut(h, out, s) && o in h && Locked(h[o]) && !h[o].freed && pass < 3 && k <= |h[o].members|
    requires o in d && Stable(h, out, d)
    ensures Stable(Destruct(h, o, pass, k), out, d) && NoneFreed(h, Destruct(h, o, pass, k), d)
    decreases Pristine(h), 5, 3 - pass, |h[o].members| - k
  {
    if k == |h[o].members| {
      if pass != 2 { DestructAnchors(h, out, s, d, o, pass + 1, 0); }
    } else if ClearPass(h[o].members[k]) != pass {
      DestructAnchors(h, out, s, d, o, pass, k + 1);
    } else {
      DropMemberKeepsBut(h, out, s, o, k);
      DropMemberAnchors(h, out, s, d, o, k);
      DestructAnchors(DropMember(h, o, k), out, s, d, o, pass, k + 1);
    }
  }

  /** What is left to `x` once a slot of an object of `d` has been erased and before it is released. */
  ghost predicate NearlyAnchored(h: Heap, out: Outside, d: set<Obj>, x: Obj) {
    Anchored(h, out, d, x)
    || (x in h && x in out && h[x].cyclic && h[x].storedStatic == 0 && |Slots(h, x)| >= 1)
  }

  lemma EraseAnchors(h: Heap, out: Outside, d: set<Obj>, o: Obj, k: nat, x: Obj)
    requires WellFormed(h) && o in h && o in d && k < |h[o].members| && Anchored(h, out, d, x) && x !in d
    ensures if Holds(h, (o, k), x) then NearlyAnchored(Erase(h, o, k), out, d, x)
            else Anchored(Erase(h, o, k), out, d, x)
  {
    var h1 := Erase(h, o, k);
    EraseSlots(h, o, k, x);
    if StoredBeyond(h, d, x) {
      var s :| s in Slots(h, x) && s.0 !in d;
      assert s in Slots(h1, x);
    }
    if !Holds(h, (o, k), x) { assert Slots(h1, x) == Slots(h, x); }
    SubsetCard(Slots(h1, x) + {(o, k)}, Slots(h, x) + {(o, k)});
    assert Slots(h1, x) + {(o, k)} == Slots(h, x) + {(o, k)};
  }

  lemma {:induction false} DropMemberAnchors(h: Heap, out: Outside, s: set<Obj>, d: set<Obj>, o: Obj, k: nat)
    requires ConservedBut(h, out, s) && o in h && Locked(h[o]) && !h[o].freed && k < |h[o].members|
    requires o in d && Stable(h, out, d)
    ensures Stable(DropMember(h, o, k), out, d) && NoneFreed(h, DropMember(h, o, k), d)
    decreases Pristine(h), 4
  {
    EraseOwes(h, out, s, o, k);
    var m := h[o].members[k];
    var h1 := Erase(h, o, k);
    forall x | x in h1 && x !in d
      ensures if Holds(h, (o, k), x) then NearlyAnchored(h1, out, d, x) else Anchored(h1, out, d, x)
    {
      assert Anchored(h, out, d, x);
      EraseAnchors(h, out, d, o, k, x);
    }
    if m.counted && m.target.Some? {
      RemoveStoredAnchors(h1, out, s, d, m.target.value);
    }
  }

  lemma {:induction false} RemoveStoredAnchors(h: Heap, out: Outside, s: set<Obj>, d: set<Obj>, t: Obj)
    requires Owing(h, out, s, t) && (t in d || NearlyAnchored(h, out, d, t))
    requires forall x {:trigger Anchored(h, out, d, x)} :: x in h && x !in d && x != t ==> Anchored(h, out, d, x)
    ensures Stable(RemoveStored(h, t), out, d) && NoneFreed(h, RemoveStored(h, t), d)
    decreases Pristine(h), 3
  {
    var r := h[t];
    if !Locked(r) && r.cyclic && Suspect(r) {
      ListedAnchors(h, out, d, t);
    } else {
      assert Stable(h, out, d);
      if !Locked(r) {
        var out1 := out[t := out[t] + 1];
        assert out1[t := out1[t] - 1] == out;
        if !r.cyclic {
          BecomesOutside(h, out, s, t, h);
          DecRefAnchors(h, out1, s, d, t);
        } else {
          var h1 := Unstore(h, t);
          EvolvesPristine(h, h1);
          BecomesOutside(h, out, s, t, h1);
          RecountAnchors(h, h1, out, d, t);
          DecRefAnchors(h1, out1, s, d, t);
        }
      }
    }
  }

  lemma ListedAnchors(h: Heap, out: Outside, d: set<Obj>, t: Obj)
    requires WellFormed(h) && out.Keys == h.Keys && t in h && !Locked(h[t]) && h[t].cyclic && Suspect(h[t])
    requires forall x {:trigger Anchored(h, out, d, x)} :: x in h && x !in d && x != t ==> Anchored(h, out, d, x)
    ensures Stable(UnstoreToCollector(h, t), out, d)
  {
    var h' := UnstoreToCollector(h, t);
    forall x | x in h' && x !in d ensures Anchored(h', out, d, x) {
      SlotsSame(h, h', x);
      if x != t { assert Anchored(h, out, d, x); }
    }
  }

  // ----- all of it is -----

  /** Every object left after the release is anchored before it, beyond those the release destroyed:
      what only those stored would have no reference left. */
  lemma SurvivorsAnchored(h: Heap, h': Heap, out: Outside, d: set<Obj>, f: set<Obj>)
    requires WellFormed(h) && out.Keys == h.Keys && Evolves(h, h', d)
    requires forall x :: x in h ==> (x in f <==> x in d || (h'[x].freed && !h[x].freed))
    requires forall x, j :: x in h && x in f && 0 <= j < |h'[x].members| ==> h'[x].members[j].target == None
    requires forall x {:trigger Balanced(h, out, x)} {:trigger Balanced(h', out, x)} ::
      x in h && x !in f ==> Balanced(h, out, x) && Balanced(h', out, x)
    requires forall x :: x in h && x in d ==> |h'[x].members| == |h[x].members|
    ensures Stable(h, out, f)
  {
    forall x | x in h && x !in f ensures Anchored(h, out, f, x) {
      assert EvolvesAt(h, h', x) && Balanced(h, out, x) && Balanced(h', out, x);
      if !Locked(h[x]) && Slots(h', x) != {} {
        var s :| s in Slots(h', x);
        if s.0 !in d { assert EvolvesAt(h, h', s.0); }
        assert Holds(h, s, x) && s.0 !in f;
      }
    }
  }

  /** The destruction of `o` destroys exactly its cascade. */
  lemma {:induction false} HandleDestructionFrees(h: Heap, out: Outside, o: Obj)
    requires WellFormed(h) && out.Keys == h.Keys && o in h && !Locked(h[o])
    requires forall p {:trigger Balanced(h, out, p)} :: p in h && p != o ==> Balanced(h, out, p)
    ensures var h' := HandleDestruction(h, o);
      forall x :: x in h ==> (h'[x].freed <==> h[x].freed || x in Cascade(h, out, {o}))
  {
    var h', c := HandleDestruction(h, o), Cascade(h, out, {o});
    CascadeIsStable(h, out, {o});
    HandleDestructionAnchors(h, out, {}, c, o);
    HandleDestructionKeepsBut(h, out, {}, o);
    var f := set x | x in h && h'[x].freed && !h[x].freed;
    forall x, j | x in h && x in f && 0 <= j < |h'[x].members| ensures h'[x].members[j].target == None {
      assert EvolvesAt(h, h', x);
    }
    SurvivorsAnchored(h, h', out, {}, f);
    CascadeIsLeast(h, out, {o}, f);
    forall x | x in h && h[x].freed ensures h'[x].freed { assert EvolvesAt(h, h', x); }
  }

  /** An object with exact counts is kept by something. */
  lemma BalancedIsAnchored(h: Heap, out: Outside, x: Obj)
    requires Balanced(h, out, x)
    ensures Anchored(h, out, {}, x)
  {
    if !Locked(h[x]) && Slots(h, x) != {} {
      var s :| s in Slots(h, x);
      assert StoredBeyond(h, {}, x);
    }
  }

  /** If nothing keeps `o`, all that goes with nothing goes with `o`. */
  lemma {:induction false} CascadeFrom(h: Heap, out: Outside, o: Obj)
    requires o in h && !Anchored(h, out, {}, o)
    ensures Cascade(h, out, {}) == Cascade(h, out, {o})
  {
    CascadeIsStable(h, out, {});
    CascadeIsStable(h, out, {o});
    CascadeIsLeast(h, out, {}, Cascade(h, out, {o}));
    assert o in Cascade(h, out, {}) || Anchored(h, out, Cascade(h, out, {}), o);
    CascadeIsLeast(h, out, {o}, Cascade(h, out, {}));
  }

  lemma {:induction false} NothingGoes(h: Heap, out: Outside)
    requires forall x :: x in h ==> Anchored(h, out, {}, x)
    ensures Cascade(h, out, {}) == {}
  {
  }

  /** Giving up an outside reference destroys exactly the objects that nothing keeps without it. */
  lemma {:induction false} DecRefFrees(h: Heap, out: Outside, o: Obj)
    requires Conserved(h, out) && o in h && out[o] >= 1
    ensures var h', out' := DecRef(h, o), out[o := out[o] - 1];
      forall x :: x in h ==> (h'[x].freed <==> h[x].freed || x in Cascade(h, out', {}))
  {
    var out' := out[o := out[o] - 1];
    assert Balanced(h, out, o);
    OthersKept(h, out, o);
    StillKept(h, out', o);
    if !Locked(h[o]) && h[o].refCount == 1 { assert DecRef(h, o) == HandleDestruction(h, o); } else { CountedDown(h, o); }
    hide DecRef, Evolves, HandleDestruction, Stable;
    if !Locked(h[o]) && h[o].refCount == 1 {
      HandleDestructionFrees(h, out', o);
      CascadeFrom(h, out', o);
    } else {
      NothingGoes(h, out');
    }
  }

  lemma OthersKept(h: Heap, out: Outside, o: Obj)
    requires Conserved(h, out) && o in h && out[o] >= 1
    ensures forall p {:trigger Balanced(h, out[o := out[o] - 1], p)} :: p in h && p != o ==> Balanced(h, out[o := out[o] - 1], p)
    ensures forall p {:trigger Anchored(h, out[o := out[o] - 1], {}, p)} ::
      p in h && p != o ==> Anchored(h, out[o := out[o] - 1], {}, p)
  {
    var out' := out[o := out[o] - 1];
    forall p | p in h && p != o ensures Balanced(h, out', p) && Anchored(h, out', {}, p) {
      assert Balanced(h, out, p);
      BalancedIsAnchored(h, out', p);
    }
  }

  lemma {:induction false} CountedDown(h: Heap, o: Obj)
    requires WellFormed(h) && o in h && !h[o].inDestruction && (h[o].refCount != 1 || Locked(h[o]))
    ensures forall x :: x in h ==> x in DecRef(h, o) && DecRef(h, o)[x].freed == h[x].freed
  {
  }

  lemma StillKept(h: Heap, out: Outside, o: Obj)
    requires o in h && o in out
    ensures Anchored(h, out, {}, o) <==> Locked(h[o]) || h[o].inList || out[o] > 0 || Slots(h, o) != {}
  {
    if Slots(h, o) != {} {
      var s :| s in Slots(h, o);
      assert StoredBeyond(h, {}, o);
    }
  }

  // ----- releasing a stored member -----

  /** The record of an object whose one reference is about to be released. */
  function ReadyToGo(h: Heap, t: Obj): (u: Heap)
    requires WellFormed(h) && t in h && !Locked(h[t])
    ensures WellFormed(u) && u.Keys == h.Keys && !Locked(u[t]) && u[t].inList == h[t].inList && !u[t].freed
  {
    if h[t].cyclic then Unstore(h, t) else h
  }

  /** The last release of a stored member is the object's destruction. */
  lemma {:induction false} LastReleaseDestroys(h: Heap, t: Obj)
    requires WellFormed(h) && t in h && !Locked(h[t]) && !h[t].deletedInGc && h[t].refCount == 1
    ensures RemoveStored(h, t) == HandleDestruction(ReadyToGo(h, t), t)
  {
    hide WellFormed, Evolves, EvolvesAt, HandleDestruction;
    if h[t].cyclic {
      assert RemoveStored(h, t) == DecRef(Unstore(h, t), t);
    } else {
      assert RemoveStored(h, t) == DecRef(h, t);
    }
  }

  /** A release that destroys nothing takes one from the stored count or, for an object that cannot be
      part of a cycle, from the reference count. */
  lemma {:induction false} ReleasedCounts(h: Heap, t: Obj)
    requires WellFormed(h) && t in h && !Locked(h[t]) && !h[t].deletedInGc && h[t].refCount > 1
    ensures t in RemoveStored(h, t)
    ensures var r, r2 := h[t], RemoveStored(h, t)[t];
      && RemoveStored(h, t) == h[t := r2] && r2.members == r.members && !Locked(r2) && r2.cyclic == r.cyclic
      && (if r.cyclic then r2.stored == r.stored - 1 else r2.refCount == r.refCount - 1 && r2.inList == r.inList)
  {
    hide WellFormed, Evolves, EvolvesAt;
    var r := h[t];
    if !r.cyclic {
      assert RemoveStored(h, t) == DecRef(h, t) == h[t := r.(refCount := r.refCount - 1)];
    } else if Suspect(r) {
      assert RemoveStored(h, t) == UnstoreToCollector(h, t);
    } else {
      var u := Unstore(h, t);
      assert RemoveStored(h, t) == DecRef(u, t) == u[t := u[t].(refCount := r.refCount - 1)];
    }
  }

  predicate KeptAlike(r: Rec, r': Rec) {
    && Locked(r) == Locked(r') && r.inList == r'.inList
    && r.cyclic == r'.cyclic && r.storedStatic == r'.storedStatic
  }

  /** What is anchored depends on slots, outside references and five fields only. */
  lemma {:induction false} SameCascade(h: Heap, h': Heap, out: Outside, d: set<Obj>)
    requires h'.Keys == h.Keys == out.Keys && forall x :: x in h ==> Slots(h', x) == Slots(h, x)
    requires forall x :: x in h ==> KeptAlike(h[x], h'[x])
    ensures Cascade(h', out, d) == Cascade(h, out, d)
  {
    SameStable(h, h', out, Cascade(h, out, d));
    SameStable(h, h', out, Cascade(h', out, d));
    CascadeIsStable(h, out, d);
    CascadeIsStable(h', out, d);
    CascadeIsLeast(h, out, d, Cascade(h', out, d));
    CascadeIsLeast(h', out, d, Cascade(h, out, d));
  }

  lemma SameStable(h: Heap, h': Heap, out: Outside, d: set<Obj>)
    requires h'.Keys == h.Keys == out.Keys && forall x :: x in h ==> Slots(h', x) == Slots(h, x)
    requires forall x :: x in h ==> KeptAlike(h[x], h'[x])
    ensures Stable(h', out, d) <==> Stable(h, out, d)
  {
    forall x | x in h ensures Anchored(h', out, d, x) <==> Anchored(h, out, d, x) { }
  }

  lemma {:induction false} ReadyCascade(h: Heap, out: Outside, t: Obj, d: set<Obj>)
    requires WellFormed(h) && out.Keys == h.Keys && t in h && !Locked(h[t])
    ensures Cascade(ReadyToGo(h, t), out, d) == Cascade(h, out, d)
  {
    var u := ReadyToGo(h, t);
    forall x | x in h ensures Slots(u, x) == Slots(h, x) { SlotsSame(h, u, x); }
    SameCascade(h, u, out, d);
  }

  /** Releasing the reference of a slot that has just been erased destroys exactly the objects that
      nothing keeps without it. */
  lemma {:induction false} RemoveStoredFrees(h: Heap, out: Outside, t: Obj)
    requires Owing(h, out, {}, t)
    ensures var h' := RemoveStored(h, t);
      forall x :: x in h ==> (h'[x].freed <==> h[x].freed || x in Cascade(h, out, {}))
  {
    forall p | p in h && p != t ensures Anchored(h, out, {}, p) {
      assert Balanced(h, out, p);
      BalancedIsAnchored(h, out, p);
    }
    if !Locked(h[t]) && h[t].refCount == 1 {
      LastRemoveFrees(h, out, t);
      CascadeFrom(h, out, t);
    } else {
      StillKept(h, out, t);
      hide RemoveStored, Evolves, WellFormed;
      NothingGoes(h, out);
      if !Locked(h[t]) { ReleasedCounts(h, t); } else { LockedStays(h, t); }
    }
  }

  lemma {:induction false} LockedStays(h: Heap, t: Obj)
    requires WellFormed(h) && t in h && Locked(h[t])
    ensures RemoveStored(h, t) == h
  {
  }

  lemma {:induction false} LastRemoveFrees(h: Heap, out: Outside, t: Obj)
    requires Owing(h, out, {}, t) && !Locked(h[t]) && h[t].refCount == 1
    ensures var h' := RemoveStored(h, t);
      forall x :: x in h ==> (h'[x].freed <==> h[x].freed || x in Cascade(h, out, {t}))
  {
    var u := ReadyToGo(h, t);
    LastReleaseDestroys(h, t);
    forall p | p in u && p != t ensures Balanced(u, out, p) {
      assert Balanced(h, out, p);
      SlotsSame(h, u, p);
    }
    HandleDestructionFrees(u, out, t);
    ReadyCascade(h, out, t, {t});
  }

  // ----- what goes to the collector -----

  /** Only slots are left of what keeps `x` alive, so that it may be part of a cycle. */
  ghost predicate MayBeCycle(h: Heap, out: Outside, x: Obj) {
    x in h && x in out && h[x].cyclic && out[x] == 0 && Slots(h, x) != {}
  }

  /** The reference of an erased slot is released: the object goes to the collector's list, and is marked,
      exactly if nothing but other slots keeps it then; an object stored statically never goes there. */
  lemma {:induction false} RemoveStoredLists(h: Heap, out: Outside, t: Obj)
    requires Owing(h, out, {}, t) && !Locked(h[t])
    ensures var r, r' := h[t], RemoveStored(h, t)[t];
      && (r'.inList <==> r.inList || (MayBeCycle(h, out, t) && r.storedStatic == 0))
      && (r'.marked <==> r.marked || (!r.inList && MayBeCycle(h, out, t) && r.storedStatic == 0))
  {
    if h[t].refCount == 1 {
      LastReleaseDestroys(h, t);
      DestructionKeepsList(ReadyToGo(h, t), t);
    } else {
      hide HandleDestruction, Evolves, WellFormed;
      StillListed(h, t);
    }
  }

  lemma {:induction false} DestructionKeepsList(h: Heap, t: Obj)
    requires WellFormed(h) && t in h && !Locked(h[t])
    ensures var h' := HandleDestruction(h, t); h'[t].inList == h[t].inList && h'[t].marked == h[t].marked
  {
  }

  lemma {:induction false} StillListed(h: Heap, t: Obj)
    requires WellFormed(h) && t in h && !Locked(h[t]) && !h[t].deletedInGc && h[t].refCount > 1
    ensures var r, r' := h[t], RemoveStored(h, t)[t];
      if r.cyclic && Suspect(r) then r'.inList && r'.marked else r'.inList == r.inList && r'.marked == r.marked
  {
    hide HandleDestruction, Evolves, WellFormed;
  }
}
