/** What the search answers about an object, and how the answer reaches the object's holder. */
module GcAnswers {
  import opened AvmHeap
  import opened GcSearch
  import opened GcSearchInvariant
  import opened GcSearchProof

  /** The start object, or flagged: a reference to it leads back to the start object. */
  predicate Leads(st: Search, o: Obj) {
    o == st.start || (o in st.counters && st.counters[o].hasMember)
  }

  /** If `y` led back before, it does after. */
  predicate Stays(st: Search, st': Search, y: Obj) { Leads(st, y) ==> Leads(st', y) }

  lemma LeadsGrows(h: Heap, st: Search, st': Search, y: Obj)
    requires Grows(h, st, st') && y in h
    ensures Stays(st, st', y)
  {
    assert GrowsAt(st, st', y);
  }

  /** The search answers, unless it is stopped, whether the object leads back; if so its holder does too. */
  lemma {:induction false} CountAllAnswers(h: Heap, st: Search, s: Slot, o: Obj)
    requires WellFormed(h) && Inv(h, st) && HoldersFlagged(h, st, {})
    requires Followed(h, st.start, s, o) && o in h && s !in st.ledger && AtTop(st, s.0)
    ensures var r := CountAll(h, st, s, o);
      !r.st.stopped ==> (r.ret <==> Leads(r.st, o)) && (r.ret ==> Leads(r.st, s.0))
  {
    assert Sound(h, st, o);
    if h[o].cyclic && !st.stopped && !h[o].constant && !HasStatic(h, o) {
      VisitKeeps(h, st, s, o);
      VisitAnswers(h, st, s, o);
      PropagateAnswers(h, st, Visit(h, st, s, o).st, s, o);
      VisitedAnswer(h, st, s, o);
    } else {
      IgnoredAnswers(h, st, s, o);
    }
  }

  /** An object that is not entered. */
  lemma {:induction false} IgnoredAnswers(h: Heap, st: Search, s: Slot, o: Obj)
    requires WellFormed(h) && Inv(h, st) && o in h && Sound(h, st, o)
    requires !h[o].cyclic || st.stopped || h[o].constant || HasStatic(h, o)
    ensures var r := CountAll(h, st, s, o); !r.st.stopped ==> !r.ret && !Leads(r.st, o)
  {
    hide Visit, Propagate;
  }

  lemma {:induction false} VisitedAnswer(h: Heap, st: Search, s: Slot, o: Obj)
    requires WellFormed(h) && Fits(h, st) && o in h && h[o].cyclic && !st.stopped
    requires !h[o].constant && !HasStatic(h, o) && !st.counters[o].ignore
    requires var r := Visit(h, st, s, o);
      && (r.ret <==> Leads(r.st, o))
      && (Leads(r.st, o) ==> Leads(Propagate(h, r.st, o, |r.st.stack|), o))
      && Leads(Propagate(h, r.st, o, |r.st.stack|), s.0)
    ensures var r := CountAll(h, st, s, o); (r.ret <==> Leads(r.st, o)) && (r.ret ==> Leads(r.st, s.0))
  {
    hide Visit, Propagate, Leads, IgnoreCount;
  }

  lemma {:induction false} VisitAnswers(h: Heap, st: Search, s: Slot, o: Obj)
    requires WellFormed(h) && Fits(h, st) && o in h
    ensures var r := Visit(h, st, s, o); r.ret <==> Leads(r.st, o)
  {
    hide CountMembers;
  }

  lemma {:induction false} PropagateAnswers(h: Heap, st: Search, r: Search, s: Slot, o: Obj)
    requires Inv(h, st) && Inv(h, r) && o in h && Grows(h, st, r) && AtTop(st, s.0)
    ensures var st' := Propagate(h, r, o, |r.stack|); Stays(r, st', o) && Leads(st', s.0)
  {
    PropagateKeeps(h, r, o, |r.stack|);
    LeadsGrows(h, r, Propagate(h, r, o, |r.stack|), o);
  }

  lemma {:induction false} FollowAnswers(h: Heap, st: Search, x: Obj, i: nat, o: Obj)
    requires WellFormed(h) && Inv(h, st) && HoldersFlagged(h, st, {})
    requires x in h && o in h && AtTop(st, x) && Holds(h, (x, i), o) && h[x].members[i].kind.Property? && (x, i) !in st.ledger
    ensures var r := Follow(h, st, x, i, o); !r.st.stopped ==> (r.ret <==> Leads(r.st, o))
  {
    if h[o].refCount == h[o].stored || o == st.start {
      CountAllAnswers(h, st, (x, i), o);
    }
  }

  /** The k-th member of `x` is one that pass `phase` follows, to an object that leads back. */
  predicate MemberLeads(h: Heap, st: Search, x: Obj, phase: nat, k: nat)
    requires WellFormed(h) && x in h
  {
    k < |h[x].members| && PhaseOf(h, x, k) == phase && h[x].members[k].target.Some? && Leads(st, h[x].members[k].target.value)
  }

  /** Besides what it was given, a pass answers true if a member it follows led back before, and only if one
      does afterwards. */
  ghost predicate Answers(h: Heap, st: Search, r: Step, x: Obj, phase: nat, i: nat, ret: bool)
    requires WellFormed(h) && x in h
  {
    !r.st.stopped ==>
      && (ret || (exists k: nat :: i <= k && MemberLeads(h, st, x, phase, k)) ==> r.ret)
      && (r.ret ==> ret || exists k: nat :: i <= k && MemberLeads(h, r.st, x, phase, k))
  }

  lemma {:induction false} ScanAnswers(h: Heap, st: Search, x: Obj, phase: nat, i: nat, ret: bool)
    requires WellFormed(h) && Inv(h, st) && HoldersFlagged(h, st, {})
    requires x in h && AtTop(st, x) && phase < 4 && i <= |h[x].members|
    requires PhaseSlots(h, x, phase, i) !! st.ledger
    ensures Answers(h, st, Scan(h, st, x, phase, i, ret), x, phase, i, ret)
    decreases |h[x].members| - i
  {
    if st.stopped || i == |h[x].members| {
    } else if PhaseOf(h, x, i) != phase {
      ScanAnswers(h, st, x, phase, i + 1, ret);
    } else {
      ScanEntryAnswers(h, st, x, phase, i, ret);
    }
  }

  lemma {:induction false} ScanEntryAnswers(h: Heap, st: Search, x: Obj, phase: nat, i: nat, ret: bool)
    requires WellFormed(h) && Inv(h, st) && HoldersFlagged(h, st, {}) && !st.stopped
    requires x in h && AtTop(st, x) && phase < 4 && i < |h[x].members| && PhaseOf(h, x, i) == phase
    requires PhaseSlots(h, x, phase, i) !! st.ledger && h[x].members[i].target.Some?
    ensures Answers(h, st, Scan(h, st, x, phase, i, ret), x, phase, i, ret)
    decreases |h[x].members| - i, 0
  {
    hide *;
    InvFits(h, st);
    TargetIsIn(h, x, i);
    var o := h[x].members[i].target.value;
    var r := if phase < 2 then CountAll(h, st, (x, i), o) else Follow(h, st, x, i, o);
    EntryAnswers(h, st, x, phase, i);
    var z := Scan(h, r.st, x, phase, i + 1, r.ret || ret);
    ScanAnswers(h, r.st, x, phase, i + 1, r.ret || ret);
    ScanKeeps(h, r.st, x, phase, i + 1, r.ret || ret);
    KeptGrows(h, r.st, z.st, PhaseSlots(h, x, phase, i + 1));
    JoinAnswers(h, st, r, z, x, phase, i, ret);
  }

  lemma TargetIsIn(h: Heap, x: Obj, i: nat)
    requires WellFormed(h) && x in h && i < |h[x].members| && h[x].members[i].target.Some?
    ensures h[x].members[i].target.value in h
  {
  }

  /** One member has been dealt with. */
  lemma EntryAnswers(h: Heap, st: Search, x: Obj, phase: nat, i: nat)
    requires WellFormed(h) && Inv(h, st) && HoldersFlagged(h, st, {}) && !st.stopped
    requires x in h && AtTop(st, x) && phase < 4 && i < |h[x].members| && PhaseOf(h, x, i) == phase
    requires PhaseSlots(h, x, phase, i) !! st.ledger
    ensures var o := h[x].members[i].target.value;
      var r := if phase < 2 then CountAll(h, st, (x, i), o) else Follow(h, st, x, i, o);
      && WellFormed(h) && Fits(h, r.st) && Inv(h, r.st) && HoldersFlagged(h, r.st, {}) && Grows(h, st, r.st) && AtTop(r.st, x)
      && (forall ret :: Scan(h, st, x, phase, i, ret) == Scan(h, r.st, x, phase, i + 1, r.ret || ret))
      && PhaseSlots(h, x, phase, i + 1) !! r.st.ledger && (!r.st.stopped ==> (r.ret <==> Leads(r.st, o)))
  {
    var o := h[x].members[i].target.value;
    var r := if phase < 2 then CountAll(h, st, (x, i), o) else Follow(h, st, x, i, o);
    assert Holds(h, (x, i), o) && (x, i) in PhaseSlots(h, x, phase, i);
    if phase < 2 {
      CountAllKeeps(h, st, (x, i), o);
      CountAllAnswers(h, st, (x, i), o);
    } else {
      FollowKeeps(h, st, x, i, o);
      FollowAnswers(h, st, x, i, o);
    }
    RestDisjoint(h, st, r.st, x, phase, i);
  }

  /** One member and then the rest. */
  lemma JoinAnswers(h: Heap, st: Search, r: Step, z: Step, x: Obj, phase: nat, i: nat, ret: bool)
    requires WellFormed(h) && x in h && i < |h[x].members| && PhaseOf(h, x, i) == phase && h[x].members[i].target.Some?
    requires Grows(h, st, r.st) && Grows(h, r.st, z.st) && Answers(h, r.st, z, x, phase, i + 1, r.ret || ret)
    requires !r.st.stopped ==> (r.ret <==> Leads(r.st, h[x].members[i].target.value))
    ensures Answers(h, st, z, x, phase, i, ret)
  {
    hide Grows;
    GrowsStops(h, r.st, z.st);
    GrowsMembers(h, st, r.st, x);
    GrowsMembers(h, r.st, z.st, x);
    if !z.st.stopped {
      if k: nat :| i <= k && MemberLeads(h, st, x, phase, k) {
        assert MemberLeads(h, r.st, x, phase, k);
        assert k == i || i + 1 <= k;
      }
      if r.ret { assert MemberLeads(h, r.st, x, phase, i) && MemberLeads(h, z.st, x, phase, i); }
    }
  }

  lemma GrowsStops(h: Heap, st: Search, st': Search)
    requires Grows(h, st, st')
    ensures st.stopped ==> st'.stopped
  {
  }

  lemma GrowsMembers(h: Heap, st: Search, st': Search, x: Obj)
    requires WellFormed(h) && x in h && Grows(h, st, st')
    ensures forall phase: nat, k: nat :: MemberLeads(h, st, x, phase, k) ==> MemberLeads(h, st', x, phase, k)
  {
    forall phase: nat, k: nat | MemberLeads(h, st, x, phase, k) ensures MemberLeads(h, st', x, phase, k) {
      LeadsGrows(h, st, st', h[x].members[k].target.value);
    }
  }

  /** Some member that the search follows, in any pass, leads back. */
  ghost predicate SomeLeads(h: Heap, st: Search, x: Obj)
    requires WellFormed(h) && x in h
  {
    exists phase: nat, k: nat :: phase < 4 && MemberLeads(h, st, x, phase, k)
  }

  lemma {:induction false} PassAnswers(h: Heap, st: Search, b: Search, x: Obj, n: nat, ret: bool)
    requires WellFormed(h) && x in h && n < 4 && AtTop(st, x) && Inv(h, st)
    requires Kept(h, st, b, Before(h, x, n)) && Shrinks(h, st, b) && MemberSlots(h, x) !! st.ledger
    ensures var r := Scan(h, b, x, n, 0, ret);
      && Kept(h, st, r.st, Before(h, x, n + 1)) && Shrinks(h, st, r.st) && Grows(h, b, r.st)
      && Answers(h, b, r, x, n, 0, ret)
  {
    PassKeeps(h, st, b, x, n, ret);
    NextPassDisjoint(h, st, b, x, n);
    ScanKeeps(h, b, x, n, 0, ret);
    ScanAnswers(h, b, x, n, 0, ret);
  }

  lemma KeptGrows(h: Heap, st: Search, st': Search, allowed: set<Slot>)
    requires Kept(h, st, st', allowed)
    ensures Grows(h, st, st')
  {
  }

  /** Over all passes: the members of an object answer true if one that is followed led back when the object
      was entered, and only if one does when it is left. */
  lemma {:induction false} CountMembersAnswers(h: Heap, st: Search, x: Obj)
    requires WellFormed(h) && Inv(h, st) && HoldersFlagged(h, st, {})
    requires x in h && AtTop(st, x) && MemberSlots(h, x) !! st.ledger
    ensures var r := CountMembers(h, st, x);
      !r.st.stopped ==> (SomeLeads(h, st, x) ==> r.ret) && (r.ret ==> SomeLeads(h, r.st, x))
  {
    Reflexive(h, st);
    assert Kept(h, st, st, Before(h, x, 0));
    hide Inv, HoldersFlagged, Kept, Grows, Scan, Shrinks;
    PassAnswers(h, st, st, x, 0, false);
    var a := Scan(h, st, x, 0, 0, false);
    PassAnswers(h, st, a.st, x, 1, a.ret);
    var b := Scan(h, a.st, x, 1, 0, a.ret);
    MarkedHolder(h, st, b.st, x);
    var b1 := MarkHolder(h, b.st, x);
    PassAnswers(h, st, b1, x, 2, false);
    var c := Scan(h, b1, x, 2, 0, false);
    PassAnswers(h, st, c.st, x, 3, c.ret);
    var d := Scan(h, c.st, x, 3, 0, c.ret);
    if !CountMembers(h, st, x).st.stopped {
      GrowsStops(h, c.st, d.st);
      GrowsStops(h, b1, c.st);
      JoinPasses(h, st, a, b, b1, c, d, x);
    }
  }

  lemma MarkedHolder(h: Heap, st: Search, b: Search, x: Obj)
    requires WellFormed(h) && x in h && AtTop(st, x) && Inv(h, st)
    requires Kept(h, st, b, Before(h, x, 2)) && Shrinks(h, st, b)
    ensures var b1 := MarkHolder(h, b, x);
      Kept(h, st, b1, Before(h, x, 2)) && Shrinks(h, st, b1) && Grows(h, b, b1) && b1.stopped == b.stopped
  {
    MarkHolderKeeps(h, st, b, x);
    Reflexive(h, b);
    assert Sound(h, st, x) && GrowsAt(st, b, x);
    if MarkHolder(h, b, x) != b { FlagKeeps(h, b, x); }
  }

  lemma JoinPasses(h: Heap, st: Search, a: Step, b: Step, b1: Search, c: Step, d: Step, x: Obj)
    requires WellFormed(h) && x in h && !d.st.stopped && !c.st.stopped && !b.st.stopped && !a.st.stopped
    requires Grows(h, st, a.st) && Grows(h, a.st, b.st) && Grows(h, b.st, b1) && Grows(h, b1, c.st) && Grows(h, c.st, d.st)
    requires Answers(h, st, a, x, 0, 0, false) && Answers(h, a.st, b, x, 1, 0, a.ret)
    requires Answers(h, b1, c, x, 2, 0, false) && Answers(h, c.st, d, x, 3, 0, c.ret)
    ensures SomeLeads(h, st, x) ==> d.ret || b.ret
    ensures d.ret || b.ret ==> SomeLeads(h, d.st, x)
  {
    hide Grows;
    GrowsMembers(h, st, a.st, x);
    GrowsMembers(h, a.st, b.st, x);
    GrowsMembers(h, b.st, b1, x);
    GrowsMembers(h, b1, c.st, x);
    GrowsMembers(h, c.st, d.st, x);
    hide MemberLeads;
    if phase: nat, k: nat :| phase < 4 && MemberLeads(h, st, x, phase, k) {
      assert phase == 0 || phase == 1 || phase == 2 || phase == 3;
    }
  }

  /** So an object entered is flagged when it is left if a member it follows led back already. */
  lemma {:induction false} VisitFlags(h: Heap, st: Search, s: Slot, o: Obj)
    requires WellFormed(h) && Inv(h, st) && HoldersFlagged(h, st, {})
    requires Followed(h, st.start, s, o) && o in h && s !in st.ledger && AtTop(st, s.0)
    requires o != st.start && IsFresh(st, o) && Scannable(h, o) && SomeLeads(h, st, o)
    ensures var r := Visit(h, st, s, o); !r.st.stopped ==> r.ret && Leads(r.st, o)
  {
    assert Visited(st, s.0) by { assert s.0 in h && Sound(h, st, s.0); }
    var entered := Enter(Counted(st, s, o), o);
    EnterKeeps(h, st, s, o);
    EnterGrows(h, st, s, o);
    var phase: nat, k: nat :| phase < 4 && MemberLeads(h, st, o, phase, k);
    assert MemberLeads(h, entered, o, phase, k);
    CountMembersAnswers(h, entered, o);
    CountMembersKeeps(h, entered, o);
    LeaveKeeps(h, CountMembers(h, entered, o).st, o, CountMembers(h, entered, o).ret);
  }
}
