/** Every operation on counts and variables keeps them conserved. */
module HeapOperations {
  import opened Wrappers
  import opened AvmHeap
  import opened RefCounting
  import opened Conservation
  import opened Releases
  import opened ReleaseOrder

  /** Somebody outside holds `o`, or it is a constant that is never released. */
  predicate Held(h: Heap, out: Outside, o: Obj) {
    o in h && o in out && (out[o] >= 1 || h[o].constant) && !h[o].freed && !h[o].inDestruction
  }

  function Spent(out: Outside, v: Obj): Outside
    requires v in out
  {
    out[v := if out[v] == 0 then 0 else out[v] - 1]
  }

  /** What addStoredMember makes of a record while somebody still holds the object. */
  function StoredOnce(r: Rec): Rec {
    if r.constant || !r.cyclic then r
    else if !r.marked then r.(stored := r.stored + 1)
    else r.(stored := r.stored + 1, inList := false, marked := false, deletedInGc := false,
            refCount := if r.cached then r.refCount else r.refCount - 1)
  }

  lemma AddStoredIs(h: Heap, v: Obj)
    requires WellFormed(h) && v in h && !h[v].freed && (h[v].marked && !Locked(h[v]) ==> h[v].refCount >= 2)
    requires !h[v].inDestruction
    ensures AddStored(h, v) == h[v := StoredOnce(h[v])]
  {
  }

  function Fill(h: Heap, x: Obj, k: nat, m: Member): Heap
    requires x in h && k < |h[x].members|
  {
    h[x := h[x].(members := h[x].members[k := m])]
  }

  lemma FillShape(h: Heap, x: Obj, k: nat, m: Member)
    requires WellFormed(h) && IsSlot(h, x, k, m.target) && (m.kind != Property ==> m.counted)
    ensures WellFormed(Fill(h, x, k, m)) && Fill(h, x, k, m).Keys == h.Keys
  {
  }

  lemma FillSlots(h: Heap, x: Obj, k: nat, m: Member, p: Obj)
    requires x in h && k < |h[x].members| && h[x].members[k].target == None
    ensures (x, k) !in Slots(h, p)
    ensures Slots(Fill(h, x, k, m), p) == Slots(h, p) + if m.counted && m.target == Some(p) then {(x, k)} else {}
  {
    forall s: Slot
      ensures Holds(Fill(h, x, k, m), s, p) <==> Holds(h, s, p) || (s == (x, k) && m.counted && m.target == Some(p))
    { }
  }

  /** Filling an empty member leaves every object it does not store as balanced as before. */
  lemma FillElsewhere(h: Heap, out: Outside, x: Obj, k: nat, m: Member, p: Obj)
    requires x in h && k < |h[x].members| && h[x].members[k].target == None && !h[x].freed
    requires Balanced(h, out, p) && !(m.counted && m.target == Some(p))
    ensures Balanced(Fill(h, x, k, m), out, p)
  {
    FillSlots(h, x, k, m, p);
    assert Slots(Fill(h, x, k, m), p) == Slots(h, p);
  }

  lemma StoreAt(h: Heap, out: Outside, x: Obj, k: nat, v: Obj, kind: Kind)
    requires Balanced(h, out, v) && Held(h, out, v)
    requires x in h && k < |h[x].members| && h[x].members[k].target == None && !h[x].freed
    ensures var h' := Fill(h[v := StoredOnce(h[v])], x, k, Member(kind, Some(v), true));
      Balanced(h', Spent(out, v), v)
  {
    hide StoredOnce, Balanced, CountsAgree;
    StoredOnceKeepsMembers(h[v], h[v].members);
    var h1 := h[v := StoredOnce(h[v])];
    var h' := Fill(h1, x, k, Member(kind, Some(v), true));
    SlotsSame(h, h1, v);
    FillSlots(h1, x, k, Member(kind, Some(v), true), v);
    assert |Slots(h', v)| == |Slots(h, v)| + 1;
    StoredOnceBalanced(h, h', out, v);
  }

  /** One more slot, and the counts addStoredMember leaves. */
  lemma StoredOnceBalanced(h: Heap, h': Heap, out: Outside, v: Obj)
    requires Balanced(h, out, v) && Held(h, out, v) && v in h' && |Slots(h', v)| == |Slots(h, v)| + 1
    requires h'[v] == StoredOnce(h[v]).(members := h'[v].members)
    ensures Balanced(h', Spent(out, v), v)
  {
  }

  lemma StoreElsewhere(h: Heap, out: Outside, x: Obj, k: nat, v: Obj, kind: Kind, p: Obj)
    requires Balanced(h, out, p) && p != v && v in h && v in out
    requires x in h && k < |h[x].members| && h[x].members[k].target == None && !h[x].freed
    ensures Balanced(Fill(h[v := StoredOnce(h[v])], x, k, Member(kind, Some(v), true)), Spent(out, v), p)
  {
    var h1 := h[v := StoredOnce(h[v])];
    SlotsSame(h, h1, p);
    assert Balanced(h1, Spent(out, v), p);
    FillElsewhere(h1, Spent(out, v), x, k, Member(kind, Some(v), true), p);
  }

  lemma StoreShape(h: Heap, x: Obj, k: nat, v: Obj, kind: Kind)
    requires WellFormed(h) && IsSlot(h, x, k, Some(v))
    ensures var h' := Fill(h[v := StoredOnce(h[v])], x, k, Member(kind, Some(v), true));
      WellFormed(h') && h'.Keys == h.Keys
  {
    FillShape(h[v := StoredOnce(h[v])], x, k, Member(kind, Some(v), true));
  }

  /** A reference held outside becomes the one stored in the empty member k of `x`. */
  lemma StoreKeeps(h: Heap, out: Outside, x: Obj, k: nat, v: Obj, kind: Kind)
    requires Conserved(h, out) && IsSlot(h, x, k, Some(v)) && h[x].members[k].target == None && !h[x].freed
    requires Held(h, out, v)
    ensures Conserved(Fill(h[v := StoredOnce(h[v])], x, k, Member(kind, Some(v), true)), Spent(out, v))
  {
    hide Balanced, WellFormed, StoredOnce;
    StoredOnceKeepsMembers(h[v], h[v].members);
    var h' := Fill(h[v := StoredOnce(h[v])], x, k, Member(kind, Some(v), true));
    StoreShape(h, x, k, v, kind);
    assert Balanced(h, out, v);
    StoreAt(h, out, x, k, v, kind);
    forall p | p in h && p != v ensures Balanced(h', Spent(out, v), p) {
      assert Balanced(h, out, p);
      StoreElsewhere(h, out, x, k, v, kind, p);
    }
  }

  lemma StoreUncountedKeeps(h: Heap, out: Outside, x: Obj, k: nat, m: Member)
    requires Conserved(h, out) && IsSlot(h, x, k, m.target) && h[x].members[k].target == None && !h[x].freed
    requires m.kind == Property && (!m.counted || m.target == None)
    ensures Conserved(Fill(h, x, k, m), out)
  {
    FillShape(h, x, k, m);
    forall p | p in h ensures Balanced(Fill(h, x, k, m), out, p) {
      assert Balanced(h, out, p);
      FillElsewhere(h, out, x, k, m, p);
    }
  }

  lemma IncRefKeeps(h: Heap, out: Outside, o: Obj)
    requires Conserved(h, out) && o in h && !h[o].freed && !h[o].inDestruction
    ensures Conserved(IncRef(h, o), out[o := out[o] + 1])
  {
    assert Balanced(h, out, o);
    RecountKeeps(h, out, IncRef(h, o), out[o := out[o] + 1], o);
  }

  lemma DecRefAndGCCheckKeeps(h: Heap, out: Outside, o: Obj)
    requires Conserved(h, out) && o in h && out[o] >= 1
    ensures Conserved(DecRefAndGCCheck(h, o), out[o := out[o] - 1])
  {
    assert Balanced(h, out, o);
    var r := h[o];
    if r.stored != 0 && r.refCount == r.stored + 1 && r.cyclic && !r.marked {
      RecountKeeps(h, out, DecRefAndGCCheck(h, o), out[o := out[o] - 1], o);
    } else {
      DecRefKeeps(h, out, o);
    }
  }

  /** The outside reference given up was the last one: the object goes to the collector's list, and is
      marked, exactly if slots still keep it. */
  lemma DecRefAndGCCheckLists(h: Heap, out: Outside, o: Obj)
    requires Conserved(h, out) && o in h && out[o] >= 1 && !Locked(h[o])
    ensures var r, r' := h[o], DecRefAndGCCheck(h, o)[o];
      var last := MayBeCycle(h, out[o := out[o] - 1], o);
      && (r'.inList <==> r.inList || last) && (r'.marked <==> r.marked || (!r.inList && last))
  {
    assert Balanced(h, out, o);
    if h[o].refCount == 1 { DestructionKeepsList(h, o); }
  }

  /** The old value's slot is gone and its reference released. */
  lemma ReleaseKeeps(h: Heap, out: Outside, x: Obj, k: nat)
    requires Conserved(h, out) && x in h && k < |h[x].members|
    ensures Conserved(ReleaseOld(Erase(h, x, k), h[x].members[k]), out)
  {
    ConservedIsButNone(h, out);
    EraseOwes(h, out, {}, x, k);
    ConservedIsButNone(Erase(h, x, k), out);
    var was := h[x].members[k];
    if was.counted && was.target.Some? {
      RemoveStoredKeeps(Erase(h, x, k), out, was.target.value);
    }
  }

  /** An object somebody holds survives every release. */
  lemma HeldSurvives(h: Heap, h': Heap, out: Outside, x: Obj)
    requires Held(h, out, x) && Evolves(h, h', {}) && Conserved(h', out)
    ensures !h'[x].freed && !h'[x].inDestruction && Held(h', out, x)
  {
    assert EvolvesAt(h, h', x) && Balanced(h', out, x);
  }

  /** Overwriting the variable before the release, as the code does, comes to the same heap as
      emptying it, releasing, and filling it. */
  lemma OverwriteIsErase(h: Heap, out: Outside, x: Obj, k: nat, m: Member)
    requires Conserved(h, out) && Held(h, out, x) && IsSlot(h, x, k, m.target)
    requires m.kind == Property == h[x].members[k].kind
    ensures var was := h[x].members[k];
      var e := ReleaseOld(Erase(h, x, k), was);
      && Conserved(e, out) && Held(e, out, x) && |e[x].members| == |h[x].members| && e[x].members[k] == Erased(was)
      && Twins(e, ReleaseOld(Write(h, x, k, m.target, m.counted), was), x, k, m)
  {
    var was := h[x].members[k];
    var e0 := Erase(h, x, k);
    var e := ReleaseOld(e0, was);
    ReleaseKeeps(h, out, x, k);
    HeldSurvives(e0, e, out, x);
    SurvivorKeepsShape(e0, e, x);
    WriteTwin(h, x, k, m);
    if was.counted && was.target.Some? {
      RemoveStoredBlind(e0, Write(h, x, k, m.target, m.counted), x, k, m, was.target.value);
    }
  }

  lemma WriteTwin(h: Heap, x: Obj, k: nat, m: Member)
    requires WellFormed(h) && IsSlot(h, x, k, m.target) && !h[x].inDestruction
    requires m.kind == Property == h[x].members[k].kind
    ensures Twins(Erase(h, x, k), Write(h, x, k, m.target, m.counted), x, k, m)
  {
  }

  lemma TwinIsFill(e: Heap, p: Heap, x: Obj, k: nat, m: Member)
    requires Twins(e, p, x, k, m)
    ensures p == Fill(e, x, k, m)
  {
    forall y | y in e ensures p[y] == Fill(e, x, k, m)[y] { }
  }

  lemma Refill(e: Heap, x: Obj, k: nat, m: Member, m': Member)
    requires x in e && k < |e[x].members|
    ensures Fill(Fill(e, x, k, m), x, k, m') == Fill(e, x, k, m')
  {
    RefillRecord(e[x], k, m, m');
  }

  lemma RefillRecord(r: Rec, k: nat, m: Member, m': Member)
    requires k < |r.members|
    ensures var f := r.(members := r.members[k := m]); f.(members := f.members[k := m']) == r.(members := r.members[k := m'])
  {
    assert r.members[k := m][k := m'] == r.members[k := m'];
  }

  lemma FillStore(e: Heap, x: Obj, k: nat, m: Member, v: Obj)
    requires x in e && k < |e[x].members| && v in e
    ensures var p := Fill(e, x, k, m); p[v := StoredOnce(p[v])] == Fill(e[v := StoredOnce(e[v])], x, k, m)
  {
    var p := Fill(e, x, k, m);
    StoredOnceKeepsMembers(e[v], p[v].members);
    hide StoredOnce;
    forall y | y in e ensures p[v := StoredOnce(p[v])][y] == Fill(e[v := StoredOnce(e[v])], x, k, m)[y] { }
  }

  lemma StoredOnceKeepsMembers(r: Rec, ms: seq<Member>)
    ensures StoredOnce(r.(members := ms)) == StoredOnce(r).(members := ms) && StoredOnce(r).members == r.members
  {
  }

  lemma FillMarked(e: Heap, x: Obj, k: nat, m: Member, v: Obj)
    requires x in e && k < |e[x].members| && v in e
    ensures Fill(e, x, k, m)[v] == e[v].(members := Fill(e, x, k, m)[v].members)
  {
  }

  /** Storing `v` and then correcting the flag of the overwritten variable fills the emptied one. */
  lemma StoreTwin(e: Heap, p: Heap, x: Obj, k: nat, m: Member, v: Obj)
    requires Twins(e, p, x, k, m) && m.target == Some(v) && m.kind == Property && v in e
    requires !e[v].freed && !e[v].inDestruction && (e[v].marked && !Locked(e[v]) ==> e[v].refCount >= 2)
    ensures AddStored(p, v) == Fill(e[v := StoredOnce(e[v])], x, k, m)
  {
    TwinIsFill(e, p, x, k, m);
    FillMarked(e, x, k, m, v);
    AddStoredIs(p, v);
    FillStore(e, x, k, m, v);
  }

  lemma StoreAndFlagKeeps(e: Heap, out: Outside, p: Heap, x: Obj, k: nat, m: Member, v: Obj)
    requires Conserved(e, out) && Held(e, out, v) && Twins(e, p, x, k, m) && !e[x].freed
    requires m.kind == Property && m.target == Some(v) && e[x].members[k].target == None
    ensures AddStored(p, v)[x].members[k] == m
    ensures Conserved(Write(AddStored(p, v), x, k, Some(v), true), Spent(out, v))
  {
    assert Balanced(e, out, v);
    StoreTwin(e, p, x, k, m, v);
    Refill(e[v := StoredOnce(e[v])], x, k, m, Member(Property, Some(v), true));
    StoreKeeps(e, out, x, k, v, Property);
  }

  /** setVar keeps the counts when its caller holds the variable's object and, for a counted value,
      hands over a reference to the value. */
  lemma SetVarKeeps(h: Heap, out: Outside, x: Obj, k: nat, v: Option<Obj>, isRefCounted: bool)
    requires Conserved(h, out) && Held(h, out, x) && IsSlot(h, x, k, v) && h[x].members[k].kind == Property
    requires v.Some? && isRefCounted ==> Held(h, out, v.value)
    ensures Conserved(SetVar(h, x, k, v, isRefCounted), if v.Some? && isRefCounted then Spent(out, v.value) else out)
  {
    var was := h[x].members[k];
    var m := Member(Property, v, was.counted);
    OverwriteIsErase(h, out, x, k, m);
    var e0 := Erase(h, x, k);
    var e := ReleaseOld(e0, was);
    var p := ReleaseOld(Write(h, x, k, v, was.counted), was);
    TwinIsFill(e, p, x, k, m);
    if v.Some? && isRefCounted {
      HeldSurvives(e0, e, out, v.value);
      StoreAndFlagKeeps(e, out, p, x, k, m, v.value);
    } else {
      Refill(e, x, k, m, Member(Property, v, isRefCounted));
      StoreUncountedKeeps(e, out, x, k, Member(Property, v, isRefCounted));
    }
  }

  /** setVarNoCoerce takes its own reference: the caller must hold the value, and still does. */
  lemma SetVarNoCoerceKeeps(h: Heap, out: Outside, x: Obj, k: nat, v: Option<Obj>)
    requires Conserved(h, out) && Held(h, out, x) && IsSlot(h, x, k, v) && h[x].members[k].kind == Property
    requires v.Some? ==> Held(h, out, v.value)
    ensures Conserved(SetVarNoCoerce(h, x, k, v), out)
  {
    var was := h[x].members[k];
    var m := Member(Property, v, v.Some?);
    OverwriteIsErase(h, out, x, k, m);
    var e := ReleaseOld(Erase(h, x, k), was);
    var p := ReleaseOld(Write(h, x, k, v, v.Some?), was);
    TwinIsFill(e, p, x, k, m);
    if v.Some? {
      HeldSurvives(Erase(h, x, k), e, out, v.value);
      IncRefAndStoreKeeps(e, out, p, x, k, m, v.value);
    } else {
      StoreUncountedKeeps(e, out, x, k, m);
    }
  }

  lemma IncRefAndStoreKeeps(e: Heap, out: Outside, p: Heap, x: Obj, k: nat, m: Member, v: Obj)
    requires Conserved(e, out) && Held(e, out, v) && Twins(e, p, x, k, m) && !e[x].freed
    requires m == Member(Property, Some(v), true) && e[x].members[k].target == None
    ensures Conserved(AddStored(IncRef(p, v), v), out)
  {
    IncRefKeeps(e, out, v);
    IncRefTwin(e, p, x, k, m, v);
    var e1, out1 := IncRef(e, v), out[v := out[v] + 1];
    assert Balanced(e1, out1, v);
    StoreTwin(e1, IncRef(p, v), x, k, m, v);
    StoreKeeps(e1, out1, x, k, v, Property);
    assert Spent(out1, v) == out;
  }

  lemma IncRefTwin(e: Heap, p: Heap, x: Obj, k: nat, m: Member, v: Obj)
    requires Twins(e, p, x, k, m) && v in e
    ensures Twins(IncRef(e, v), IncRef(p, v), x, k, m)
  {
    if !e[v].constant {
      if v == x {
        CountTwin(e, p, x, k, m);
      } else {
        assert p[v] == e[v];
        PutTwins(e, p, x, k, m, v, e[v].(refCount := e[v].refCount + 1));
      }
    } else {
      assert v == x ==> p[x].constant;
    }
  }

  lemma CountTwin(e: Heap, p: Heap, x: Obj, k: nat, m: Member)
    requires Twins(e, p, x, k, m)
    ensures Twins(e[x := e[x].(refCount := e[x].refCount + 1)], p[x := p[x].(refCount := p[x].refCount + 1)], x, k, m)
    ensures p[x].constant == e[x].constant
  {
  }

  // ----- what is written is there -----

  /** The variable holds `m`, and no other member of a survivor has changed. */
  predicate Assigned(h: Heap, h': Heap, x: Obj, k: nat, m: Member) {
    && h'.Keys == h.Keys && x in h && k < |h[x].members|
    && !h'[x].freed && h'[x].members == h[x].members[k := m]
    && forall y :: y in h && y != x && !h'[y].freed ==> h'[y].members == h[y].members
  }

  lemma ReleaseKeepsMembers(h: Heap, out: Outside, x: Obj, k: nat)
    requires Conserved(h, out) && Held(h, out, x) && k < |h[x].members|
    ensures var e := ReleaseOld(Erase(h, x, k), h[x].members[k]); Assigned(h, e, x, k, Erased(h[x].members[k]))
  {
    var e0, was := Erase(h, x, k), h[x].members[k];
    var e := ReleaseOld(e0, was);
    ReleaseKeeps(h, out, x, k);
    HeldSurvives(e0, e, out, x);
    SurvivorKeepsShape(e0, e, x);
    forall y | y in h && y != x && !e[y].freed ensures e[y].members == h[y].members {
      assert EvolvesAt(e0, e, y);
      assert Balanced(h, out, y);
    }
  }

  lemma FillAssigns(h: Heap, e: Heap, e1: Heap, x: Obj, k: nat, was: Member, m: Member)
    requires Assigned(h, e, x, k, was) && SameMembers(e, e1)
    ensures Assigned(h, Fill(e1, x, k, m), x, k, m)
  {
    assert h[x].members[k := was][k := m] == h[x].members[k := m];
  }

  predicate SameMembers(e: Heap, e1: Heap) {
    e1.Keys == e.Keys && forall y :: y in e ==> e1[y].members == e[y].members && e1[y].freed == e[y].freed
  }

  lemma StoredOnceSameMembers(e: Heap, v: Obj)
    requires v in e
    ensures SameMembers(e, e[v := StoredOnce(e[v])])
  {
  }

  lemma HeldAndStoredSameMembers(e: Heap, v: Obj)
    requires WellFormed(e) && v in e
    ensures var e1 := IncRef(e, v); SameMembers(e, e1[v := StoredOnce(e1[v])])
  {
    StoredOnceSameMembers(IncRef(e, v), v);
  }

  lemma SetVarIs(h: Heap, out: Outside, x: Obj, k: nat, v: Option<Obj>, isRefCounted: bool)
    requires Conserved(h, out) && Held(h, out, x) && IsSlot(h, x, k, v) && h[x].members[k].kind == Property
    requires v.Some? && isRefCounted ==> Held(h, out, v.value)
    ensures var e := ReleaseOld(Erase(h, x, k), h[x].members[k]);
      SetVar(h, x, k, v, isRefCounted)
        == Fill(if v.Some? && isRefCounted then e[v.value := StoredOnce(e[v.value])] else e, x, k, Member(Property, v, isRefCounted))
  {
    hide Evolves, StoredOnce, AddStored, ReleaseOld;
    var was := h[x].members[k];
    var m := Member(Property, v, was.counted);
    OverwriteIsErase(h, out, x, k, m);
    var e := ReleaseOld(Erase(h, x, k), was);
    TwinIsFill(e, ReleaseOld(Write(h, x, k, v, was.counted), was), x, k, m);
    if v.Some? && isRefCounted {
      CountedSetVarIs(h, out, x, k, v.value, e);
    } else {
      Refill(e, x, k, m, Member(Property, v, isRefCounted));
    }
  }

  lemma CountedSetVarIs(h: Heap, out: Outside, x: Obj, k: nat, v: Obj, e: Heap)
    requires WellFormed(h) && IsSlot(h, x, k, Some(v)) && h[x].members[k].kind == Property && Held(h, out, v)
    requires e == ReleaseOld(Erase(h, x, k), h[x].members[k]) && Conserved(e, out)
    requires var was := h[x].members[k];
      Twins(e, ReleaseOld(Write(h, x, k, Some(v), was.counted), was), x, k, Member(Property, Some(v), was.counted))
    ensures SetVar(h, x, k, Some(v), true)
      == Fill(e[v := StoredOnce(e[v])], x, k, Member(Property, Some(v), true))
  {
    hide Evolves, StoredOnce, AddStored, ReleaseOld, HandleDestruction;
    var was := h[x].members[k];
    var m := Member(Property, Some(v), was.counted);
    HeldSurvives(Erase(h, x, k), e, out, v);
    HeldIsReleasable(e, out, v);
    StoreTwin(e, ReleaseOld(Write(h, x, k, Some(v), was.counted), was), x, k, m, v);
    StoredOnceSameMembers(e, v);
    Refill(e[v := StoredOnce(e[v])], x, k, m, Member(Property, Some(v), true));
  }

  lemma HeldIsReleasable(e: Heap, out: Outside, v: Obj)
    requires Conserved(e, out) && Held(e, out, v)
    ensures e[v].marked && !Locked(e[v]) ==> e[v].refCount >= 2
  {
    assert Balanced(e, out, v);
  }

  /** After setVar the variable holds the value, counted as asked for. */
  lemma SetVarStores(h: Heap, out: Outside, x: Obj, k: nat, v: Option<Obj>, isRefCounted: bool)
    requires Conserved(h, out) && Held(h, out, x) && IsSlot(h, x, k, v) && h[x].members[k].kind == Property
    requires v.Some? && isRefCounted ==> Held(h, out, v.value)
    ensures Assigned(h, SetVar(h, x, k, v, isRefCounted), x, k, Member(Property, v, isRefCounted))
  {
    hide Assigned, SetVar, StoredOnce, ReleaseOld, Evolves, Fill, SameShape, SameMembers;
    var was := h[x].members[k];
    var e := ReleaseOld(Erase(h, x, k), was);
    SetVarIs(h, out, x, k, v, isRefCounted);
    ReleaseKeepsMembers(h, out, x, k);
    if v.Some? && isRefCounted {
      StoredOnceSameMembers(e, v.value);
      FillAssigns(h, e, e[v.value := StoredOnce(e[v.value])], x, k, Erased(was), Member(Property, v, isRefCounted));
    } else {
      FillAssigns(h, e, e, x, k, Erased(was), Member(Property, v, isRefCounted));
    }
  }

  lemma SetVarNoCoerceIs(h: Heap, out: Outside, x: Obj, k: nat, v: Obj)
    requires Conserved(h, out) && Held(h, out, x) && IsSlot(h, x, k, Some(v)) && h[x].members[k].kind == Property
    requires Held(h, out, v)
    ensures var e := ReleaseOld(Erase(h, x, k), h[x].members[k]);
      var e1 := IncRef(e, v);
      SetVarNoCoerce(h, x, k, Some(v)) == Fill(e1[v := StoredOnce(e1[v])], x, k, Member(Property, Some(v), true))
  {
    hide Evolves, StoredOnce, AddStored, ReleaseOld, IncRef;
    var was := h[x].members[k];
    var m := Member(Property, Some(v), true);
    OverwriteIsErase(h, out, x, k, m);
    var e := ReleaseOld(Erase(h, x, k), was);
    var p := ReleaseOld(Write(h, x, k, Some(v), true), was);
    HeldSurvives(Erase(h, x, k), e, out, v);
    IncRefKeeps(e, out, v);
    IncRefTwin(e, p, x, k, m, v);
    HeldAfterIncRef(e, out, v);
    StoreTwin(IncRef(e, v), IncRef(p, v), x, k, m, v);
  }

  lemma HeldAfterIncRef(e: Heap, out: Outside, v: Obj)
    requires Conserved(e, out) && Held(e, out, v) && Conserved(IncRef(e, v), out[v := out[v] + 1])
    ensures var e1 := IncRef(e, v);
      v in e1 && !e1[v].freed && !e1[v].inDestruction && (e1[v].marked && !Locked(e1[v]) ==> e1[v].refCount >= 2)
  {
    assert Balanced(IncRef(e, v), out[v := out[v] + 1], v);
  }

  lemma SetVarNoCoerceStores(h: Heap, out: Outside, x: Obj, k: nat, v: Option<Obj>)
    requires Conserved(h, out) && Held(h, out, x) && IsSlot(h, x, k, v) && h[x].members[k].kind == Property
    requires v.Some? ==> Held(h, out, v.value)
    ensures Assigned(h, SetVarNoCoerce(h, x, k, v), x, k, Member(Property, v, v.Some?))
  {
    var was := h[x].members[k];
    var e := ReleaseOld(Erase(h, x, k), was);
    ReleaseKeepsMembers(h, out, x, k);
    if v.Some? {
      hide Assigned, SetVarNoCoerce, StoredOnce, ReleaseOld, Evolves, Fill, IncRef;
      SetVarNoCoerceIs(h, out, x, k, v.value);
      HeldAndStoredSameMembers(e, v.value);
      FillAssigns(h, e, IncRef(e, v.value)[v.value := StoredOnce(IncRef(e, v.value)[v.value])], x, k, Erased(was),
                  Member(Property, v, true));
    } else {
      ClearedVarIs(h, out, x, k);
      hide Assigned, SetVarNoCoerce, ReleaseOld, Evolves, Fill;
      FillAssigns(h, e, e, x, k, Erased(was), Member(Property, v, false));
    }
  }

  lemma ClearedVarIs(h: Heap, out: Outside, x: Obj, k: nat)
    requires Conserved(h, out) && Held(h, out, x) && IsSlot(h, x, k, None) && h[x].members[k].kind == Property
    ensures SetVarNoCoerce(h, x, k, None)
      == Fill(ReleaseOld(Erase(h, x, k), h[x].members[k]), x, k, Member(Property, None, false))
  {
    hide Evolves, ReleaseOld;
    var was := h[x].members[k];
    var m := Member(Property, None, false);
    OverwriteIsErase(h, out, x, k, m);
    TwinIsFill(ReleaseOld(Erase(h, x, k), was), ReleaseOld(Write(h, x, k, None, false), was), x, k, m);
  }

  /** A stored object that was marked for the collector leaves its list, and nothing else changes but its
      own counts. */
  lemma AddStoredUnlists(h: Heap, out: Outside, v: Obj)
    requires Conserved(h, out) && Held(h, out, v) && out[v] >= 1
    ensures var r, h' := h[v], AddStored(h, v);
      && h' == h[v := h'[v]] && h'[v].members == r.members
      && (if r.constant || !r.cyclic then h' == h else
            && h'[v].stored == r.stored + 1 && !h'[v].marked
            && (h'[v].inList <==> r.inList && !r.marked))
  {
    assert Balanced(h, out, v);
    AddStoredIs(h, v);
  }

  /** After the deletion a surviving object's variable is empty, and no other member of a survivor has
      changed. */
  lemma DeleteVarErases(h: Heap, out: Outside, x: Obj, k: nat, y: Obj)
    requires Conserved(h, out) && x in h && k < |h[x].members| && h[x].members[k].kind == Property && y in h
    ensures var h' := DeleteVar(h, x, k);
      y in h' && (!h'[y].freed ==> h'[y].members == if y == x then h[x].members[k := Erased(h[x].members[k])] else h[y].members)
  {
    var e := Erase(h, x, k);
    assert EvolvesAt(e, DeleteVar(h, x, k), y);
    assert Balanced(h, out, y);
  }

  /** What a variable may hold when it is deleted: a counted value, or one that is never released. */
  predicate DeletableVar(h: Heap, m: Member) {
    m.counted || m.target.None? || (m.target.value in h && Locked(h[m.target.value]))
  }

  /** A deleted variable's value loses the reference the variable had counted; an uncounted value must
      be one that is never released, such as a constant. */
  lemma DeleteVarKeeps(h: Heap, out: Outside, x: Obj, k: nat)
    requires Conserved(h, out) && x in h && k < |h[x].members| && h[x].members[k].kind == Property
    requires DeletableVar(h, h[x].members[k])
    ensures Conserved(DeleteVar(h, x, k), out)
  {
    var m := h[x].members[k];
    if m.counted || m.target.None? {
      assert m.target.Some? ==> m.(counted := true) == m;
      ReleaseKeeps(h, out, x, k);
    } else {
      EraseUncounted(h, out, x, k);
      assert RemoveStored(Erase(h, x, k), m.target.value) == Erase(h, x, k);
    }
  }

  lemma EraseUncounted(h: Heap, out: Outside, x: Obj, k: nat)
    requires Conserved(h, out) && x in h && k < |h[x].members| && !h[x].members[k].counted
    ensures Conserved(Erase(h, x, k), out)
    ensures forall o :: Slots(Erase(h, x, k), o) == Slots(h, o)
  {
    ConservedIsButNone(h, out);
    EraseOwes(h, out, {}, x, k);
    ConservedIsButNone(Erase(h, x, k), out);
    forall o ensures Slots(Erase(h, x, k), o) == Slots(h, o) { EraseSlots(h, x, k, o); }
  }

  /** The one reference to the value is a member of the value itself, or of an object that goes with it. */
  ghost predicate HeldWithin(h: Heap, out: Outside, t: Obj) {
    && t in h && t in out && h[t].refCount == 1 && out[t] == 0 && !h[t].inList
    && forall s :: s in Slots(h, t) ==> s.0 in Cascade(h, out, {t})
  }

  /** The deletion releases the value whether or not the variable had counted it. It keeps the counts
      exact if and only if the variable is deletable, or nobody but the value itself, or what goes with
      it, has a reference to the value. */
  lemma DeleteVarKeepsIff(h: Heap, out: Outside, x: Obj, k: nat)
    requires Conserved(h, out) && x in h && k < |h[x].members| && h[x].members[k].kind == Property
    ensures var m := h[x].members[k];
      Conserved(DeleteVar(h, x, k), out)
      <==> DeletableVar(h, m) || HeldWithin(h, out, m.target.value)
  {
    var m := h[x].members[k];
    if DeletableVar(h, m) {
      DeleteVarKeeps(h, out, x, k);
    } else {
      var t := m.target.value;
      var h1 := Erase(h, x, k);
      EraseUncounted(h, out, x, k);
      assert Balanced(h1, out, t) && h1[t] == h[t].(members := h1[t].members);
      if h[t].refCount > 1 {
        OverReleased(h1, out, t);
      } else {
        LastReleased(h1, out, t);
        forall o ensures Slots(h1, o) == Slots(h, o) { }
        ErasedCascade(h, out, x, k, {t});
      }
    }
  }

  /** A variable that has not counted its value keeps nothing. */
  lemma {:induction false} ErasedCascade(h: Heap, out: Outside, x: Obj, k: nat, d: set<Obj>)
    requires WellFormed(h) && out.Keys == h.Keys && x in h && k < |h[x].members|
    requires forall o :: Slots(Erase(h, x, k), o) == Slots(h, o)
    ensures Cascade(Erase(h, x, k), out, d) == Cascade(h, out, d)
  {
    var h1 := Erase(h, x, k);
    SameCascade(h, h1, out, d);
  }

  /** Releasing the only reference of an object destroys it, even if that reference is another's. */
  lemma {:induction false} LastReleased(h: Heap, out: Outside, t: Obj)
    requires Conserved(h, out) && t in h && !Locked(h[t]) && h[t].refCount == 1
    ensures var h' := RemoveStored(h, t);
      Conserved(h', out)
      <==> out[t] == 0 && !h[t].inList && forall s :: s in Slots(h, t) ==> s.0 in Cascade(h, out, {t})
  {
    assert Balanced(h, out, t);
    LastReleaseDestroys(h, t);
    OthersBalanced(h, out, t);
    HandleDestructionFrees(ReadyToGo(h, t), out, t);
    ReadyCascade(h, out, t, {t});
    hide RemoveStored, HandleDestruction, Balanced, CountsAgree, Evolves;
    var u, h' := ReadyToGo(h, t), RemoveStored(h, t);
    HandleDestructionKeepsBut(u, out, {}, t);
    assert Conserved(h', out) <==> Balanced(h', out, t);
    SlotsAfter(u, h', t);
  }

  lemma OthersBalanced(h: Heap, out: Outside, t: Obj)
    requires Conserved(h, out) && t in h && !Locked(h[t])
    ensures var u := ReadyToGo(h, t);
      && Slots(u, t) == Slots(h, t) && (forall s :: s in Slots(u, t) ==> s.0 in u && !u[s.0].freed)
      && (forall p {:trigger Balanced(u, out, p)} :: p in u && p != t ==> Balanced(u, out, p))
  {
    var u := ReadyToGo(h, t);
    forall p | p in u && p != t ensures Balanced(u, out, p) {
      assert Balanced(h, out, p);
      SlotsSame(h, u, p);
    }
    SlotsSame(h, u, t);
    forall s | s in Slots(u, t) ensures s.0 in u && !u[s.0].freed { assert Balanced(h, out, s.0); }
  }

  /** Which slots of a destroyed object are left: those of the objects that were not destroyed. */
  lemma SlotsAfter(h: Heap, h': Heap, t: Obj)
    requires Evolves(h, h', {}) && t in h && !h[t].freed && h'[t].freed
    requires forall s :: s in Slots(h, t) ==> s.0 in h && !h[s.0].freed
    ensures Slots(h', t) == {} <==> forall s :: s in Slots(h, t) ==> s.0 == t || h'[s.0].freed
  {
    EvolvesErases(h, h', {});
    ErasingShrinksSlots(h, h', t);
    assert EvolvesAt(h, h', t);
    if s :| s in Slots(h', t) {
      assert EvolvesAt(h, h', s.0) && s in Slots(h, t);
    }
    forall s | s in Slots(h, t) && s.0 != t && !h'[s.0].freed ensures s in Slots(h', t) {
      assert EvolvesAt(h, h', s.0);
    }
  }

  lemma {:induction false} OverReleased(h: Heap, out: Outside, t: Obj)
    requires WellFormed(h) && t in h && Balanced(h, out, t) && !Locked(h[t]) && h[t].refCount > 1
    ensures !Conserved(RemoveStored(h, t), out)
  {
    ReleasedCounts(h, t);
    hide RemoveStored, WellFormed;
    SlotsSame(h, RemoveStored(h, t), t);
    assert !Balanced(RemoveStored(h, t), out, t);
  }

  // ----- the first value of a variable -----

  /** An object in use that the collector does not list. */
  predicate Plain(r: Rec) { r == Live(r.refCount, r.stored, r.members) }

  function Filled(h: Heap, o: Obj, k: nat, v: Obj): Heap
    requires o in h && v in h && k < |h[o].members|
  {
    var h1 := h[v := h[v].(refCount := h[v].refCount + 1, stored := h[v].stored + 1)];
    h1[o := h1[o].(members := h1[o].members[k := Member(Property, Some(v), true)])]
  }

  lemma StoreFills(h: Heap, o: Obj, k: nat, v: Obj)
    requires WellFormed(h) && o in h && v in h && k < |h[o].members| && h[o].members[k] == NO_VALUE
    requires Plain(h[o]) && Plain(h[v])
    ensures IsSlot(h, o, k, Some(v)) && h[o].members[k].kind == Property
    ensures SetVarNoCoerce(h, o, k, Some(v)) == Filled(h, o, k, v)
  {
    var h1 := Write(h, o, k, Some(v), true);
    hide SetVarNoCoerce, Filled, AddStored, IncRef, Write, Evolves;
    FirstStore(h, o, k, v);
    HeldAndStored(h1, v);
    WrittenIsFilled(h, o, k, v);
  }

  lemma FirstStore(h: Heap, o: Obj, k: nat, v: Obj)
    requires WellFormed(h) && o in h && v in h && k < |h[o].members| && h[o].members[k] == NO_VALUE && Plain(h[v])
    ensures var h1 := Write(h, o, k, Some(v), true);
      && WellFormed(h1) && v in h1 && Plain(h1[v])
      && SetVarNoCoerce(h, o, k, Some(v)) == AddStored(IncRef(h1, v), v)
  {
    NothingToRelease(Write(h, o, k, Some(v), true));
    hide AddStored, IncRef, ReleaseOld, Evolves;
  }

  lemma WrittenIsFilled(h: Heap, o: Obj, k: nat, v: Obj)
    requires WellFormed(h) && o in h && v in h && k < |h[o].members| && h[o].members[k] == NO_VALUE
    ensures var h1 := Write(h, o, k, Some(v), true);
      h1[v := h1[v].(refCount := h1[v].refCount + 1, stored := h1[v].stored + 1)] == Filled(h, o, k, v)
  {
  }

  lemma HeldAndStored(h: Heap, v: Obj)
    requires WellFormed(h) && v in h && Plain(h[v])
    ensures AddStored(IncRef(h, v), v) == h[v := h[v].(refCount := h[v].refCount + 1, stored := h[v].stored + 1)]
  {
    hide SameShape, Evolves, DecRef;
    assert IncRef(h, v) == h[v := h[v].(refCount := h[v].refCount + 1)];
  }

  lemma NothingToRelease(h: Heap)
    requires WellFormed(h)
    ensures ReleaseOld(h, NO_VALUE) == h
  {
  }
}
