/** The counts kept in the objects agree with the references that exist, and keep agreeing through
    every release, however far the destruction it starts reaches.
 */
module Conservation {
  import opened Wrappers
  import opened AvmHeap
  import opened RefCounting

  /** References held outside the object graph: by the interpreter's stack, by native code. */
  type Outside = map<Obj, nat>

  /** `owed` references to `o` have lost their slot but are still in its counts. */
  ghost predicate CountsAgree(h: Heap, out: Outside, o: Obj, owed: nat)
    requires o in h && o in out
  {
    var r := h[o];
    && r.refCount > 0 && !r.deletedInGc
    && (r.marked ==> r.inList)
    && (if r.cyclic
        then r.stored == |Slots(h, o)| + owed && r.refCount == r.stored + out[o] + B2N(r.inList)
        else r.refCount == |Slots(h, o)| + owed + out[o] && r.stored == 0 && !r.inList)
  }

  ghost predicate Balanced(h: Heap, out: Outside, o: Obj) {
    && o in h && o in out
    && (!Locked(h[o]) ==> CountsAgree(h, out, o, 0))
    && (h[o].inDestruction || h[o].freed ==>
          !h[o].constant && !h[o].cached && !h[o].inList && out[o] == 0 && Slots(h, o) == {})
    && (h[o].freed ==> h[o].refCount < 0 && forall j :: 0 <= j < |h[o].members| ==> h[o].members[j].target == None)
  }

  ghost predicate Conserved(h: Heap, out: Outside) {
    && WellFormed(h) && out.Keys == h.Keys
    && forall o {:trigger Balanced(h, out, o)} :: o in h ==> Balanced(h, out, o)
  }

  /** Conserved but for the objects of `s`, which are never released. */
  ghost predicate ConservedBut(h: Heap, out: Outside, s: set<Obj>) {
    && WellFormed(h) && out.Keys == h.Keys
    && (forall o :: o in s ==> o in h && Locked(h[o]))
    && forall o {:trigger Balanced(h, out, o)} :: o in h && o !in s ==> Balanced(h, out, o)
  }

  /** The same, but for one reference to `t` whose slot has just been erased. */
  ghost predicate Owing(h: Heap, out: Outside, s: set<Obj>, t: Obj) {
    && WellFormed(h) && out.Keys == h.Keys && t in h
    && (forall o :: o in s ==> o in h && Locked(h[o]))
    && (if Locked(h[t]) then t in s || Balanced(h, out, t) else CountsAgree(h, out, t, 1))
    && forall o {:trigger Balanced(h, out, o)} :: o in h && o !in s && o != t ==> Balanced(h, out, o)
  }

  lemma ConservedIsButNone(h: Heap, out: Outside)
    ensures Conserved(h, out) <==> ConservedBut(h, out, {})
  {
    if ConservedBut(h, out, {}) {
      forall o | o in h ensures Balanced(h, out, o) { }
    }
    if Conserved(h, out) {
      forall o | o in h ensures Balanced(h, out, o) { }
    }
  }

  lemma SlotsSame(h: Heap, h': Heap, o: Obj)
    requires h'.Keys == h.Keys && forall x :: x in h ==> h'[x].members == h[x].members
    ensures Slots(h', o) == Slots(h, o)
  {
    forall s ensures Holds(h', s, o) <==> Holds(h, s, o) { }
  }

  /** Only the counts of `o` and its outside references change. */
  lemma RecountKeeps(h: Heap, out: Outside, h': Heap, out': Outside, o: Obj)
    requires WellFormed(h) && out.Keys == h.Keys == h'.Keys == out'.Keys && o in h
    requires forall p {:trigger Balanced(h, out, p)} :: p in h && p != o ==> Balanced(h, out, p)
    requires h' == h[o := h'[o]] && out' == out[o := out'[o]] && h'[o].members == h[o].members
    requires Slots(h', o) == Slots(h, o) ==> Balanced(h', out', o)
    ensures Conserved(h', out')
  {
    RecountKeepsBut(h, out, h', out', {}, o);
    ConservedIsButNone(h', out');
  }

  lemma RecountKeepsBut(h: Heap, out: Outside, h': Heap, out': Outside, s: set<Obj>, o: Obj)
    requires WellFormed(h) && out.Keys == h.Keys == h'.Keys == out'.Keys && o in h
    requires forall p :: p in s ==> p in h && (p == o || Locked(h[p]))
    requires forall p {:trigger Balanced(h, out, p)} :: p in h && p !in s && p != o ==> Balanced(h, out, p)
    requires h' == h[o := h'[o]] && out' == out[o := out'[o]] && h'[o].members == h[o].members
    requires if o in s then Locked(h'[o]) else Slots(h', o) == Slots(h, o) ==> Balanced(h', out', o)
    ensures ConservedBut(h', out', s)
  {
    forall p | p in h && p !in s ensures Balanced(h', out', p) {
      SlotsSame(h, h', p);
      assert p != o ==> Balanced(h, out, p);
    }
  }

  lemma {:induction false} DecRefKeeps(h: Heap, out: Outside, o: Obj)
    requires Conserved(h, out) && o in h && out[o] >= 1
    ensures Conserved(DecRef(h, o), out[o := out[o] - 1])
  {
    ConservedIsButNone(h, out);
    DecRefKeepsBut(h, out, {}, o);
    ConservedIsButNone(DecRef(h, o), out[o := out[o] - 1]);
  }

  lemma {:induction false} DecRefKeepsBut(h: Heap, out: Outside, s: set<Obj>, o: Obj)
    requires ConservedBut(h, out, s) && o in h && o !in s && out[o] >= 1
    ensures ConservedBut(DecRef(h, o), out[o := out[o] - 1], s)
    decreases Pristine(h), 2
  {
    var r := h[o];
    var out' := out[o := out[o] - 1];
    assert Balanced(h, out, o);
    if r.constant || r.cached {
      RecountKeepsBut(h, out, h, out', s, o);
    } else if r.refCount == 1 {
      forall p | p in h && p !in s && p != o ensures Balanced(h, out', p) { assert Balanced(h, out, p); }
      HandleDestructionKeepsBut(h, out', s, o);
    } else {
      RecountKeepsBut(h, out, DecRef(h, o), out', s, o);
    }
  }

  /** Destruction starts only when nothing stores the object, nothing else holds it and it is not
      in the collector's list. */
  lemma DestructionStartsUnstored(h: Heap, out: Outside, o: Obj)
    requires Conserved(h, out) && o in h && !Locked(h[o]) && out[o] >= 1 && h[o].refCount == 1
    ensures Slots(h, o) == {} && out[o] == 1 && !h[o].inList && h[o].stored == 0
  {
    assert Balanced(h, out, o);
  }

  /** The object may still be stored, as long as the destruction it starts erases those slots. */
  lemma {:induction false} HandleDestructionKeepsBut(h: Heap, out: Outside, s: set<Obj>, o: Obj)
    requires WellFormed(h) && out.Keys == h.Keys && o in h && !Locked(h[o])
    requires forall p :: p in s ==> p in h && Locked(h[p])
    requires forall p {:trigger Balanced(h, out, p)} :: p in h && p !in s && p != o ==> Balanced(h, out, p)
    ensures var h' := HandleDestruction(h, o);
      && h'[o].freed && h'[o].inList == h[o].inList && ConservedBut(h', out, s + {o})
      && (out[o] == 0 && !h[o].inList && Slots(h', o) == {} <==> Balanced(h', out, o))
    ensures Slots(h, o) == {} && out[o] == 0 && !h[o].inList ==> ConservedBut(HandleDestruction(h, o), out, s)
    decreases Pristine(h), 1
  {
    var h1 := h[o := h[o].(inDestruction := true, refCount := 1)];
    RecountKeepsBut(h, out, h1, out, s + {o}, o);
    assert o in Pristine(h) && o !in Pristine(h1);
    DestructKeepsBut(h1, out, s + {o}, o, 0, 0);
    var h2 := Destruct(h1, o, 0, 0);
    var h' := HandleDestruction(h, o);
    RecountKeepsBut(h2, out, h', out, s + {o}, o);
    EvolvesErases(h, h', {});
    ErasingShrinksSlots(h, h', o);
    forall p | p in s ensures Locked(h'[p]) { assert EvolvesAt(h, h', p); }
  }

  /** Members only disappear. */
  ghost predicate OnlyErases(h: Heap, h': Heap) {
    && h'.Keys == h.Keys
    && (forall x :: x in h ==> |h'[x].members| == |h[x].members|)
    && (forall x, k :: x in h && 0 <= k < |h[x].members| ==>
          h'[x].members[k] == h[x].members[k] || h'[x].members[k].target == None)
  }

  lemma ErasingShrinksSlots(h: Heap, h': Heap, o: Obj)
    requires OnlyErases(h, h')
    ensures Slots(h', o) <= Slots(h, o)
  {
    forall s | Holds(h', s, o) ensures Holds(h, s, o) { }
  }

  /** A release erases members and never fills any. */
  lemma EvolvesErases(h: Heap, h': Heap, s: set<Obj>)
    requires Evolves(h, h', s) && forall d :: d in s && d in h ==> AllErased(h[d].members, h'[d].members)
    ensures OnlyErases(h, h')
  {
    forall x | x in h ensures |h'[x].members| == |h[x].members| {
      assert x !in s ==> EvolvesAt(h, h', x);
    }
    forall x, k | x in h && 0 <= k < |h[x].members|
      ensures h'[x].members[k] == h[x].members[k] || h'[x].members[k].target == None
    {
      assert x !in s ==> EvolvesAt(h, h', x);
    }
  }

  lemma {:induction false} DestructKeeps(h: Heap, out: Outside, o: Obj, pass: nat, k: nat)
    requires Conserved(h, out) && o in h && Locked(h[o]) && !h[o].freed && pass < 3 && k <= |h[o].members|
    ensures Conserved(Destruct(h, o, pass, k), out)
  {
    ConservedIsButNone(h, out);
    DestructKeepsBut(h, out, {}, o, pass, k);
    ConservedIsButNone(Destruct(h, o, pass, k), out);
  }

  lemma {:induction false} DestructKeepsBut(h: Heap, out: Outside, s: set<Obj>, o: Obj, pass: nat, k: nat)
    requires ConservedBut(h, out, s) && o in h && Locked(h[o]) && !h[o].freed && pass < 3 && k <= |h[o].members|
    ensures ConservedBut(Destruct(h, o, pass, k), out, s)
    decreases Pristine(h), 5, 3 - pass, |h[o].members| - k
  {
    if k == |h[o].members| {
      if pass != 2 { DestructKeepsBut(h, out, s, o, pass + 1, 0); }
    } else if ClearPass(h[o].members[k]) != pass {
      DestructKeepsBut(h, out, s, o, pass, k + 1);
    } else {
      DropMemberKeepsBut(h, out, s, o, k);
      DestructKeepsBut(DropMember(h, o, k), out, s, o, pass, k + 1);
    }
  }

  /** Erasing a slot takes it, and nothing else, out of the slots of what it held. */
  lemma EraseSlots(h: Heap, o: Obj, k: nat, p: Obj)
    requires WellFormed(h) && o in h && k < |h[o].members|
    ensures Slots(Erase(h, o, k), p) == Slots(h, p) - {(o, k)}
  {
    var h1 := Erase(h, o, k);
    forall s: Slot ensures Holds(h1, s, p) <==> Holds(h, s, p) && s != (o, k) { }
  }

  lemma EraseOwesAt(h: Heap, out: Outside, o: Obj, k: nat, p: Obj)
    requires WellFormed(h) && Balanced(h, out, p) && o in h && k < |h[o].members|
    requires Holds(h, (o, k), p) && !Locked(h[p])
    ensures CountsAgree(Erase(h, o, k), out, p, 1)
  {
    EraseSlots(h, o, k, p);
    assert (o, k) in Slots(h, p);
    assert |Slots(h, p) - {(o, k)}| == |Slots(h, p)| - 1;
  }

  lemma EraseElsewhere(h: Heap, out: Outside, o: Obj, k: nat, p: Obj)
    requires WellFormed(h) && Balanced(h, out, p) && o in h && k < |h[o].members|
    requires !Holds(h, (o, k), p) || Locked(h[p])
    ensures Balanced(Erase(h, o, k), out, p)
  {
    EraseSlots(h, o, k, p);
    if !Holds(h, (o, k), p) {
      assert Slots(h, p) - {(o, k)} == Slots(h, p);
    }
  }

  lemma EraseOwes(h: Heap, out: Outside, s: set<Obj>, o: Obj, k: nat)
    requires ConservedBut(h, out, s) && o in h && k < |h[o].members|
    ensures var m := h[o].members[k];
      if m.counted && m.target.Some? then Owing(Erase(h, o, k), out, s, m.target.value)
      else ConservedBut(Erase(h, o, k), out, s)
  {
    var m := h[o].members[k];
    var h1 := Erase(h, o, k);
    forall p | p in h && p !in s && (!Holds(h, (o, k), p) || Locked(h[p])) ensures Balanced(h1, out, p) {
      assert Balanced(h, out, p);
      EraseElsewhere(h, out, o, k, p);
    }
    if m.counted && m.target.Some? && !Locked(h[m.target.value]) {
      assert Balanced(h, out, m.target.value);
      EraseOwesAt(h, out, o, k, m.target.value);
    }
  }

  lemma {:induction false} DropMemberKeeps(h: Heap, out: Outside, o: Obj, k: nat)
    requires Conserved(h, out) && o in h && Locked(h[o]) && !h[o].freed && k < |h[o].members|
    ensures Conserved(DropMember(h, o, k), out)
  {
    ConservedIsButNone(h, out);
    DropMemberKeepsBut(h, out, {}, o, k);
    ConservedIsButNone(DropMember(h, o, k), out);
  }

  lemma {:induction false} DropMemberKeepsBut(h: Heap, out: Outside, s: set<Obj>, o: Obj, k: nat)
    requires ConservedBut(h, out, s) && o in h && Locked(h[o]) && !h[o].freed && k < |h[o].members|
    ensures ConservedBut(DropMember(h, o, k), out, s)
    decreases Pristine(h), 4
  {
    EraseOwes(h, out, s, o, k);
    var m := h[o].members[k];
    if m.counted && m.target.Some? {
      RemoveStoredKeepsBut(Erase(h, o, k), out, s, m.target.value);
    }
  }

  lemma {:induction false} RemoveStoredKeeps(h: Heap, out: Outside, t: Obj)
    requires Owing(h, out, {}, t)
    ensures Conserved(RemoveStored(h, t), out)
  {
    RemoveStoredKeepsBut(h, out, {}, t);
    ConservedIsButNone(RemoveStored(h, t), out);
  }

  lemma {:induction false} RemoveStoredKeepsBut(h: Heap, out: Outside, s: set<Obj>, t: Obj)
    requires Owing(h, out, s, t)
    ensures ConservedBut(RemoveStored(h, t), out, s)
    decreases Pristine(h), 3
  {
    var r := h[t];
    if !Locked(r) {
      var out1 := out[t := out[t] + 1];
      assert out1[t := out1[t] - 1] == out;
      if !r.cyclic {
        BecomesOutside(h, out, s, t, h);
        DecRefKeepsBut(h, out1, s, t);
      } else {
        if Suspect(r) {
          RecountKeepsBut(h, out, UnstoreToCollector(h, t), out, s, t);
        } else {
          EvolvesPristine(h, Unstore(h, t));
          BecomesOutside(h, out, s, t, Unstore(h, t));
          DecRefKeepsBut(Unstore(h, t), out1, s, t);
        }
      }
    } else {
      forall p | p in h && p !in s ensures Balanced(h, out, p) { }
    }
  }

  /** Once its stored count is settled, the reference that lost its slot is one held outside. */
  lemma BecomesOutside(h: Heap, out: Outside, s: set<Obj>, t: Obj, h1: Heap)
    requires Owing(h, out, s, t) && !Locked(h[t])
    requires h1 == if h[t].cyclic then h[t := h[t].(stored := h[t].stored - 1)] else h
    ensures ConservedBut(h1, out[t := out[t] + 1], s)
  {
    RecountKeepsBut(h, out, h1, out[t := out[t] + 1], s, t);
  }
}
