/** The invariant survives the whole mutually recursive search. */
module GcSearchProof {
  import opened AvmHeap
  import opened GcSearch
  import opened GcSearchInvariant

  /** What a call entered in `st` and finished in `st'` has kept. */
  ghost predicate Kept(h: Heap, st: Search, st': Search, allowed: set<Slot>) {
    Inv(h, st') && HoldersFlagged(h, st', {}) && Grows(h, st, st') && NewSlots(st, st', allowed)
  }

  lemma KeptTrans(h: Heap, a: Search, b: Search, c: Search, s: set<Slot>, t: set<Slot>)
    requires Kept(h, a, b, s) && Kept(h, b, c, t) && Shrinks(h, a, b)
    ensures Kept(h, a, c, s + t)
  {
    GrowsTrans(h, a, b, c);
  }

  lemma KeptSame(h: Heap, st: Search, st': Search)
    requires Inv(h, st) && HoldersFlagged(h, st, {}) && Inv(h, st') && Grows(h, st, st') && st'.ledger == st.ledger
    ensures Kept(h, st, st', {})
  {
    HoldersGrow(h, st, st', {});
  }

  lemma Reflexive(h: Heap, st: Search)
    requires Inv(h, st)
    ensures Grows(h, st, st)
  {
    forall p | p in h ensures GrowsAt(st, st, p) { }
  }

  lemma InvFits(h: Heap, st: Search)
    requires Inv(h, st)
    ensures Fits(h, st)
  {
  }

  lemma {:induction false} CountAllKeeps(h: Heap, st: Search, s: Slot, o: Obj)
    requires WellFormed(h) && Inv(h, st) && HoldersFlagged(h, st, {})
    requires Followed(h, st.start, s, o) && o in h && s !in st.ledger && AtTop(st, s.0)
    ensures var r := CountAll(h, st, s, o); Kept(h, st, r.st, {s}) && (r.ret ==> Visited(r.st, o))
    decreases Fresh(st), 1
  {
    Reflexive(h, st);
    assert Sound(h, st, o);
    var n := h[o];
    if n.cyclic && (HasStatic(h, o) && st.counters[o].hasMember) {
      TouchKeeps(h, st, st.(stopped := true), o);
      KeptSame(h, st, st.(stopped := true));
    } else if n.cyclic && !st.stopped {
      if n.constant || HasStatic(h, o) {
        IgnoreKeeps(h, st, o);
        var st2 := IgnoreCount(h, st, o);
        KeptSame(h, st, st2);
        assert Sound(h, st2, o);
      } else {
        VisitKeeps(h, st, s, o);
        var r := Visit(h, st, s, o);
        if r.ret { PropagateTail(h, st, s, o, r.st); }
      }
    } else {
      KeptSame(h, st, st);
    }
  }

  lemma {:induction false} PropagateTail(h: Heap, st: Search, s: Slot, o: Obj, r: Search)
    requires Inv(h, st) && o in h && Holds(h, s, o) && AtTop(st, s.0)
    requires Inv(h, r) && HoldersFlagged(h, r, if o == st.start then {s} else {})
    requires Grows(h, st, r) && NewSlots(st, r, {s}) && Visited(r, o)
    ensures var st' := Propagate(h, r, o, |r.stack|); Kept(h, st, st', {s}) && Visited(st', o)
  {
    InvFits(h, r);
    hide Inv, Propagate;
    var st' := Propagate(h, r, o, |r.stack|);
    PropagateKeeps(h, r, o, |r.stack|);
    HoldersGrow(h, r, st', if o == st.start then {s} else {});
    assert HolderFlagged(h, st', s);
    GrowsTrans(h, st, r, st');
    assert GrowsAt(r, st', o);
  }

  lemma {:induction false} VisitKeeps(h: Heap, st: Search, s: Slot, o: Obj)
    requires WellFormed(h) && Inv(h, st) && HoldersFlagged(h, st, {})
    requires Followed(h, st.start, s, o) && o in h && s !in st.ledger && AtTop(st, s.0)
    requires h[o].cyclic && !h[o].constant && !HasStatic(h, o)
    ensures var r := Visit(h, st, s, o);
      && Inv(h, r.st) && HoldersFlagged(h, r.st, if o == st.start then {s} else {})
      && Grows(h, st, r.st) && NewSlots(st, r.st, {s}) && (r.ret ==> Visited(r.st, o))
      && (o == st.start ==> r.ret)
    decreases Fresh(st), 0
  {
    Reflexive(h, st);
    assert Sound(h, st, o);
    assert Visited(st, s.0) by { assert s.0 in h && Sound(h, st, s.0); }
    var c := st.counters[o];
    if Visited(st, o) && (o == st.start || c.inChecking || Scannable(h, o)) {
      var st1 := Counted(st, s, o);
      CountedKeeps(h, st, s, o);
      forall t | t in st1.ledger && (o == st.start ==> t != s) ensures HolderFlagged(h, st1, t) {
        if t != s {
          assert HolderFlagged(h, st, t) && SlotSound(h, st, t);
          assert GrowsAt(st, st1, t.0);
        }
      }
    } else if Scannable(h, o) {
      var entered := Enter(Counted(st, s, o), o);
      EnterKeeps(h, st, s, o);
      EnterGrows(h, st, s, o);
      assert !IsFresh(entered, o) && IsFresh(st, o);
      CountMembersKeeps(h, entered, o);
      var r := CountMembers(h, entered, o);
      LeaveKeeps(h, r.st, o, r.ret);
      var left := Leave(h, r.st, o, r.ret);
      LeaveGrows(h, st, s, o, r);
    }
  }

  ghost function MemberSlots(h: Heap, x: Obj): (r: set<Slot>)
    requires x in h
    ensures forall s :: s in r <==> s.0 == x && s.1 < |h[x].members|
  {
    set k: nat | k < |h[x].members| :: (x, k)
  }

  lemma EnterGrows(h: Heap, st: Search, s: Slot, o: Obj)
    requires Inv(h, st) && HoldersFlagged(h, st, {})
    requires Holds(h, s, o) && o in h && Visited(st, s.0)
    requires o != st.start && IsFresh(st, o)
    ensures var entered := Enter(Counted(st, s, o), o);
      HoldersFlagged(h, entered, {}) && MemberSlots(h, o) !! entered.ledger
  {
    var entered := Enter(Counted(st, s, o), o);
    forall t | t in entered.ledger ensures HolderFlagged(h, entered, t) && t.0 != o {
      if t != s { assert HolderFlagged(h, st, t) && SlotSound(h, st, t); }
    }
  }

  lemma LeaveGrows(h: Heap, st: Search, s: Slot, o: Obj, r: Step)
    requires Inv(h, st) && o in h && o != st.start && IsFresh(st, o)
    requires Inv(h, r.st) && HoldersFlagged(h, r.st, {})
    requires var entered := Enter(Counted(st, s, o), o);
      && Grows(h, entered, r.st) && NewSlots(entered, r.st, MemberSlots(h, o)) && Shrinks(h, entered, r.st)
    ensures var left := Leave(h, r.st, o, r.ret);
      HoldersFlagged(h, left, {}) && Grows(h, st, left) && NewSlots(st, left, {s})
  {
    var entered := Enter(Counted(st, s, o), o);
    var left := Leave(h, r.st, o, r.ret);
    LeaveKeeps(h, r.st, o, r.ret);
    LeaveGrowsAt(h, st, s, o, r.st, left);
    forall t | t in left.ledger ensures HolderFlagged(h, left, t) {
      assert HolderFlagged(h, r.st, t);
    }
  }

  lemma LeaveGrowsAt(h: Heap, st: Search, s: Slot, o: Obj, r: Search, left: Search)
    requires st.counters.Keys == h.Keys == left.counters.Keys && o in h && o != st.start && IsFresh(st, o)
    requires Grows(h, Enter(Counted(st, s, o), o), r) && r.counters.Keys == h.Keys
    requires forall p :: p in h && p != o ==> left.counters[p] == r.counters[p]
    requires var c, c' := r.counters[o], left.counters[o];
      c'.count == c.count && (c.hasMember ==> c'.hasMember) && c'.ignore == c.ignore && !c'.inChecking
    ensures forall p {:trigger GrowsAt(st, left, p)} :: p in h ==> GrowsAt(st, left, p)
  {
    forall p | p in h ensures GrowsAt(st, left, p) {
      assert GrowsAt(Enter(Counted(st, s, o), o), r, p);
    }
  }

  /** The slots of `x` followed by the passes before pass n. */
  ghost function Before(h: Heap, x: Obj, n: nat): (r: set<Slot>)
    requires WellFormed(h) && x in h
    ensures forall s :: s in r <==> s.0 == x && s.1 < |h[x].members| && PhaseOf(h, x, s.1) < n
  {
    set k: nat | k < |h[x].members| && PhaseOf(h, x, k) < n :: (x, k)
  }

  lemma {:induction false} CountMembersKeeps(h: Heap, st: Search, x: Obj)
    requires WellFormed(h) && Inv(h, st) && HoldersFlagged(h, st, {})
    requires x in h && AtTop(st, x) && MemberSlots(h, x) !! st.ledger
    ensures var r := CountMembers(h, st, x); Kept(h, st, r.st, MemberSlots(h, x))
    decreases Fresh(st), 4
  {
    Reflexive(h, st);
    PassKeeps(h, st, st, x, 0, false);
    var a := Scan(h, st, x, 0, 0, false);
    if !a.st.stopped {
      PassKeeps(h, st, a.st, x, 1, a.ret);
      var b := Scan(h, a.st, x, 1, 0, a.ret);
      if !b.st.stopped {
        MarkHolderKeeps(h, st, b.st, x);
        var b1 := MarkHolder(h, b.st, x);
        PassKeeps(h, st, b1, x, 2, false);
        var c := Scan(h, b1, x, 2, 0, false);
        PassKeeps(h, st, c.st, x, 3, c.ret);
      }
    }
  }

  lemma {:induction false} PassKeeps(h: Heap, st: Search, b: Search, x: Obj, n: nat, ret: bool)
    requires WellFormed(h) && x in h && n < 4 && AtTop(st, x) && Inv(h, st)
    requires Kept(h, st, b, Before(h, x, n)) && Shrinks(h, st, b)
    requires MemberSlots(h, x) !! st.ledger
    ensures Kept(h, st, Scan(h, b, x, n, 0, ret).st, Before(h, x, n + 1))
    decreases Fresh(b), 3, |h[x].members| + 1
  {
    NextPassDisjoint(h, st, b, x, n);
    ScanKeeps(h, b, x, n, 0, ret);
    KeptTrans(h, st, b, Scan(h, b, x, n, 0, ret).st, Before(h, x, n), PhaseSlots(h, x, n, 0));
    assert Before(h, x, n) + PhaseSlots(h, x, n, 0) == Before(h, x, n + 1);
  }

  lemma NextPassDisjoint(h: Heap, st: Search, b: Search, x: Obj, n: nat)
    requires WellFormed(h) && x in h && AtTop(st, x) && Inv(h, st)
    requires NewSlots(st, b, Before(h, x, n)) && MemberSlots(h, x) !! st.ledger
    ensures PhaseSlots(h, x, n, 0) !! b.ledger
  {
    assert Sound(h, st, x);
  }

  lemma MarkHolderKeeps(h: Heap, st: Search, b: Search, x: Obj)
    requires WellFormed(h) && x in h && AtTop(st, x) && Inv(h, st)
    requires Kept(h, st, b, Before(h, x, 2)) && Shrinks(h, st, b)
    ensures Kept(h, st, MarkHolder(h, b, x), Before(h, x, 2))
  {
    var b1 := MarkHolder(h, b, x);
    if b1 != b {
      assert Sound(h, st, x) && GrowsAt(st, b, x);
      FlagKeeps(h, b, x);
      KeptSame(h, b, b1);
      GrowsTrans(h, st, b, b1);
    }
  }

  lemma RestDisjoint(h: Heap, st: Search, st': Search, x: Obj, phase: nat, i: nat)
    requires WellFormed(h) && x in h && i < |h[x].members| && PhaseOf(h, x, i) == phase
    requires Inv(h, st) && AtTop(st, x) && NewSlots(st, st', {(x, i)})
    requires PhaseSlots(h, x, phase, i) !! st.ledger
    ensures PhaseSlots(h, x, phase, i + 1) !! st'.ledger
  {
    assert !Unentered(st, x) by { assert Sound(h, st, x); }
  }

  lemma {:induction false} ScanKeeps(h: Heap, st: Search, x: Obj, phase: nat, i: nat, ret: bool)
    requires WellFormed(h) && Inv(h, st) && HoldersFlagged(h, st, {})
    requires x in h && AtTop(st, x) && phase < 4 && i <= |h[x].members|
    requires PhaseSlots(h, x, phase, i) !! st.ledger
    ensures var r := Scan(h, st, x, phase, i, ret); Kept(h, st, r.st, PhaseSlots(h, x, phase, i))
    decreases Fresh(st), 3, |h[x].members| - i
  {
    Reflexive(h, st);
    hide HoldersFlagged, CountAll, Follow, NewSlots;
    if st.stopped || i == |h[x].members| {
      KeptSame(h, st, st);
    } else if PhaseOf(h, x, i) != phase {
      ScanKeeps(h, st, x, phase, i + 1, ret);
    } else {
      var o := h[x].members[i].target.value;
      assert Holds(h, (x, i), o) && (x, i) in PhaseSlots(h, x, phase, i);
      var r := if phase < 2 then CountAll(h, st, (x, i), o) else Follow(h, st, x, i, o);
      if phase < 2 { CountAllKeeps(h, st, (x, i), o); } else { FollowKeeps(h, st, x, i, o); }
      RestDisjoint(h, st, r.st, x, phase, i);
      hide Inv, Grows, Shrinks;
      assert AtTop(r.st, x) && Fits(h, r.st) by { InvFits(h, r.st); }
      ScanKeeps(h, r.st, x, phase, i + 1, r.ret || ret);
      var z := Scan(h, r.st, x, phase, i + 1, r.ret || ret);
      KeptTrans(h, st, r.st, z.st, {(x, i)}, PhaseSlots(h, x, phase, i + 1));
      assert {(x, i)} + PhaseSlots(h, x, phase, i + 1) == PhaseSlots(h, x, phase, i);
    }
  }

  lemma {:induction false} FollowKeeps(h: Heap, st: Search, x: Obj, i: nat, o: Obj)
    requires WellFormed(h) && Inv(h, st) && HoldersFlagged(h, st, {})
    requires x in h && o in h && AtTop(st, x) && Holds(h, (x, i), o) && h[x].members[i].kind.Property? && (x, i) !in st.ledger
    ensures var r := Follow(h, st, x, i, o); Kept(h, st, r.st, {(x, i)})
    decreases Fresh(st), 2
  {
    Reflexive(h, st);
    KeptSame(h, st, st);
    if h[o].refCount == h[o].stored || o == st.start {
      CountAllKeeps(h, st, (x, i), o);
      var r := CountAll(h, st, (x, i), o);
      if r.ret {
        SetCheckedKeeps(h, r.st, o);
        var st1 := SetChecked(h, r.st, o);
        FlagKeeps(h, st1, o);
        var st2 := st1.Put(o, st1.counters[o].(hasMember := true));
        GrowsTrans(h, r.st, st1, st2);
        KeptSame(h, r.st, st2);
        KeptTrans(h, st, r.st, st2, {(x, i)}, {});
        assert Sound(h, st, x) && Sound(h, st2, x);
        assert !st2.counters[x].ignore;
      }
    }
  }
}
