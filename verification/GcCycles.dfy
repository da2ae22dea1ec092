/** Where every stored cycle goes through the start object, the collector's flags are closed. */
module GcCycles {
  import opened Wrappers
  import opened AvmHeap
  import opened GcSearch
  import opened GcSearchInvariant
  import opened GcSearchProof
  import opened Conservation
  import opened GcCollect
  import opened GcTheorems
  import opened GcAftermath
  import opened Reachability
  import opened GcFlags

  predicate Stores(h: Heap, x: Obj, y: Obj) {
    x in h && exists k :: 0 <= k < |h[x].members| && h[x].members[k].counted && h[x].members[k].target == Some(y)
  }

  /** The counted references between objects other than the start object. */
  ghost function Away(h: Heap, start: Obj): (r: set<(Obj, Obj)>)
    ensures forall x: Obj, y: Obj :: (x, y) in r <==> x != start && y != start && Stores(h, x, y)
  {
    set x, k: nat | x in h && k < |h[x].members| && h[x].members[k].counted && h[x].members[k].target.Some?
        && x != start && h[x].members[k].target.value != start :: (x, h[x].members[k].target.value)
  }

  /** No reference of what the start object reaches can be followed back but through the start object. */
  ghost predicate NoOtherCycle(h: Heap, start: Obj) {
    forall x: Obj, y: Obj :: (x, y) in Away(h, start) && Reach(Refs(h), start, y) ==> !Reach(Away(h, start), y, x)
  }

  /** Once an object is off the stack, whoever stores it is flagged if it is. */
  predicate SlotSettled(h: Heap, st: Search, s: Slot, d: Obj) {
    Holds(h, s, d) && s.0 in st.counters && d in st.counters && s.0 != st.start && d != st.start ==>
      (!st.counters[d].inChecking && st.counters[d].hasMember ==> st.counters[s.0].hasMember)
  }

  ghost predicate Settled(h: Heap, st: Search, except: set<Slot>) {
    forall s: Slot, d: Obj {:trigger SlotSettled(h, st, s, d)} ::
      s in st.ledger && s !in except ==> SlotSettled(h, st, s, d)
  }

  /** The objects on the stack lead to the top. */
  ghost predicate StackLeads(h: Heap, st: Search, x: Obj) {
    forall a :: a in st.stack ==> Reach(Away(h, st.start), a, x)
  }

  /** What was counted between st and st' are members of objects that `x` leads to. */
  ghost predicate Under(h: Heap, st: Search, st': Search, x: Obj) {
    forall t :: t in st'.ledger && t !in st.ledger ==> x == st.start || Reach(Away(h, st.start), x, t.0)
  }

  /** The same while the members of `o` are counted for slot `s`. */
  ghost predicate UnderSlot(h: Heap, st: Search, st': Search, s: Slot, o: Obj) {
    forall t :: t in st'.ledger && t !in st.ledger ==> t == s || (o != st.start && Reach(Away(h, st.start), o, t.0))
  }

  lemma SettledGrows(h: Heap, st: Search, st': Search, except: set<Slot>)
    requires WellFormed(h) && Inv(h, st) && Fits(h, st') && Settled(h, st, except) && Grows(h, st, st')
    requires st'.ledger == st.ledger && FlagsOnStack(h, st, st')
    ensures Settled(h, st', except)
  {
    forall s: Slot, d: Obj | s in st'.ledger && s !in except ensures SlotSettled(h, st', s, d) {
      assert SlotSettled(h, st, s, d) && SlotSound(h, st, s);
      if Holds(h, s, d) {
        assert GrowsAt(st, st', s.0) && GrowsAt(st, st', d);
      }
    }
  }

  /** A reference from the top to an object on the stack would close a cycle. */
  lemma NoBackReference(h: Heap, st: Search, s: Slot, o: Obj)
    requires NoOtherCycle(h, st.start) && Inv(h, st) && StackLeads(h, st, s.0) && AtTop(st, s.0) && Holds(h, s, o)
    requires o in h && Reach(Refs(h), st.start, o)
    ensures o !in st.stack
  {
    assert Sound(h, st, o);
    if st.stack != [] && o != st.start {
      assert s.0 in st.stack && Sound(h, st, s.0);
      assert (s.0, o) in Away(h, st.start);
    }
  }

  lemma ReachedNext(h: Heap, start: Obj, s: Slot, o: Obj)
    requires Reach(Refs(h), start, s.0) && Holds(h, s, o)
    ensures Reach(Refs(h), start, o)
  {
    assert Refers(h, s.0, o);
    ReachAfter(Refs(h), start, s.0, o);
  }

  // ----- the search -----

  lemma {:induction false} CountAllSettles(h: Heap, st: Search, s: Slot, o: Obj)
    requires WellFormed(h) && Inv(h, st) && HoldersFlagged(h, st, {})
    requires Followed(h, st.start, s, o) && o in h && s !in st.ledger && AtTop(st, s.0)
    requires NoOtherCycle(h, st.start) && Reach(Refs(h), st.start, s.0) && StackLeads(h, st, s.0) && Settled(h, st, {})
    ensures var r := CountAll(h, st, s, o);
      && Settled(h, r.st, {}) && UnderSlot(h, st, r.st, s, o)
      && (r.ret ==> o == st.start || r.st.counters[o].hasMember)
    decreases Fresh(st), 1
  {
    NothingNew(h, st, s, o);
    StopSettles(h, st);
    hide UnderSlot, Settled, NoOtherCycle, StackLeads, Reach, Refs, HoldersFlagged, Inv, Propagate, Grows;
    var n := h[o];
    if n.cyclic && !(HasStatic(h, o) && st.counters[o].hasMember) && !st.stopped {
      if n.constant || HasStatic(h, o) {
        IgnoreSettles(h, st, o);
      } else {
        VisitKeeps(h, st, s, o);
        VisitSettles(h, st, s, o);
        var r := Visit(h, st, s, o);
        if r.ret { PropagateSettles(h, st, s, o, r.st); }
      }
    }
  }

  lemma StopSettles(h: Heap, st: Search)
    requires Settled(h, st, {})
    ensures Settled(h, st.(stopped := true), {})
  {
    forall s: Slot, d: Obj | s in st.ledger ensures SlotSettled(h, st.(stopped := true), s, d) {
      assert SlotSettled(h, st, s, d);
    }
  }

  lemma IgnoreSettles(h: Heap, st: Search, o: Obj)
    requires WellFormed(h) && Inv(h, st) && Settled(h, st, {}) && o in h && h[o].cyclic && (h[o].constant || HasStatic(h, o))
    ensures Settled(h, IgnoreCount(h, st, o), {}) && IgnoreCount(h, st, o).ledger == st.ledger
  {
    IgnoreKeeps(h, st, o);
    SettledGrows(h, st, IgnoreCount(h, st, o), {});
  }

  /** A step that counts nothing. */
  lemma NothingNew(h: Heap, st: Search, s: Slot, o: Obj)
    ensures forall st': Search {:trigger UnderSlot(h, st, st', s, o)} :: st'.ledger == st.ledger ==> UnderSlot(h, st, st', s, o)
  {
  }

  lemma {:induction false} PropagateSettles(h: Heap, was: Search, s: Slot, o: Obj, st: Search)
    requires WellFormed(h) && Inv(h, st) && AtTop(st, s.0) && o in h && Settled(h, st, {s})
    requires o == st.start || st.counters[o].hasMember
    requires UnderSlot(h, was, st, s, o)
    ensures var st' := Propagate(h, st, o, |st.stack|);
      Settled(h, st', {}) && UnderSlot(h, was, st', s, o) && (o == st.start || st'.counters[o].hasMember)
  {
    var st' := Propagate(h, st, o, |st.stack|);
    PropagateKeeps(h, st, o, |st.stack|);
    SettledGrows(h, st, st', {s});
    assert GrowsAt(st, st', o);
    forall t: Slot, d: Obj | t in st'.ledger ensures SlotSettled(h, st', t, d) { }
  }

  lemma {:induction false} VisitSettles(h: Heap, st: Search, s: Slot, o: Obj)
    requires WellFormed(h) && Inv(h, st) && HoldersFlagged(h, st, {})
    requires Followed(h, st.start, s, o) && o in h && s !in st.ledger && AtTop(st, s.0)
    requires h[o].cyclic && !h[o].constant && !HasStatic(h, o)
    requires NoOtherCycle(h, st.start) && Reach(Refs(h), st.start, s.0) && StackLeads(h, st, s.0) && Settled(h, st, {})
    ensures var r := Visit(h, st, s, o);
      && Settled(h, r.st, if r.ret then {s} else {}) && UnderSlot(h, st, r.st, s, o)
      && (r.ret ==> o == st.start || r.st.counters[o].hasMember)
    decreases Fresh(st), 0
  {
    assert Sound(h, st, o);
    ReachedNext(h, st.start, s, o);
    NoBackReference(h, st, s, o);
    CountedSettles(h, st, s, o);
    if o != st.start && IsFresh(st, o) && Scannable(h, o) {
      assert Visited(st, s.0) by { assert s.0 in h && Sound(h, st, s.0); }
      var entered := Enter(Counted(st, s, o), o);
      EnterKeeps(h, st, s, o);
      EnterGrows(h, st, s, o);
      EnterSettles(h, st, s, o);
      assert !IsFresh(entered, o) && IsFresh(st, o);
      CountMembersKeeps(h, entered, o);
      CountMembersSettles(h, entered, o);
      LeaveSettles(h, st, s, o, CountMembers(h, entered, o));
    }
  }

  lemma CountedSettles(h: Heap, st: Search, s: Slot, o: Obj)
    requires Fits(h, st) && Holds(h, s, o) && o in h && s !in st.ledger && Settled(h, st, {})
    ensures var st' := Counted(st, s, o);
      && UnderSlot(h, st, st', s, o)
      && Settled(h, st', if o == st.start || st.counters[o].hasMember then {s} else {})
  {
    var st' := Counted(st, s, o);
    forall t: Slot, d: Obj | t in st'.ledger && (t == s ==> o != st.start && !st.counters[o].hasMember)
      ensures SlotSettled(h, st', t, d)
    {
      if t != s { assert SlotSettled(h, st, t, d); }
    }
  }

  lemma EnterSettles(h: Heap, st: Search, s: Slot, o: Obj)
    requires Inv(h, st) && Holds(h, s, o) && o in h && AtTop(st, s.0) && o != st.start
    requires StackLeads(h, st, s.0) && Settled(h, st, {})
    ensures var st' := Enter(Counted(st, s, o), o); Settled(h, st', {}) && StackLeads(h, st', o)
  {
    var st' := Enter(Counted(st, s, o), o);
    forall t: Slot, d: Obj | t in st'.ledger ensures SlotSettled(h, st', t, d) {
      if t != s { assert SlotSettled(h, st, t, d); }
    }
    ReachSelf(Away(h, st.start), o);
    forall a | a in st'.stack ensures Reach(Away(h, st.start), a, o) {
      if a in st.stack {
        assert s.0 in st.stack && Sound(h, st, s.0);
        ReachAfter(Away(h, st.start), a, s.0, o);
      }
    }
  }

  /** Off the stack, the object is stored by the slot it was entered through and by no other counted. */
  lemma LeaveSettles(h: Heap, st: Search, s: Slot, o: Obj, r: Step)
    requires Inv(h, st) && o in h && o != st.start && IsFresh(st, o) && Holds(h, s, o)
    requires NoOtherCycle(h, st.start) && Reach(Refs(h), st.start, o)
    requires var entered := Enter(Counted(st, s, o), o);
      && Inv(h, r.st) && Settled(h, r.st, {}) && Under(h, entered, r.st, o) && Shrinks(h, entered, r.st)
    ensures var left := Leave(h, r.st, o, r.ret);
      && Settled(h, left, if left.counters[o].hasMember then {s} else {}) && UnderSlot(h, st, left, s, o)
  {
    var left := Leave(h, r.st, o, r.ret);
    LeaveKeeps(h, r.st, o, r.ret);
    OnlyOneSlot(h, st, s, o, r.st);
    forall t: Slot, d: Obj | t in left.ledger && (t == s ==> !left.counters[o].hasMember)
      ensures SlotSettled(h, left, t, d)
    {
      assert SlotSettled(h, r.st, t, d) && SlotSound(h, r.st, t);
    }
  }

  lemma OnlyOneSlot(h: Heap, st: Search, s: Slot, o: Obj, st': Search)
    requires Inv(h, st) && o in h && o != st.start && IsFresh(st, o)
    requires NoOtherCycle(h, st.start) && Reach(Refs(h), st.start, o)
    requires Under(h, Enter(Counted(st, s, o), o), st', o)
    ensures forall t :: t in st'.ledger && t != s && Holds(h, t, o) ==> t.0 == st.start
  {
    assert LedgerOf(h, st.ledger, o) == {} by { assert Sound(h, st, o); }
    forall t | t in st'.ledger && t != s && Holds(h, t, o) ensures t.0 == st.start {
      assert t !in LedgerOf(h, st.ledger, o);
      assert t.0 != st.start ==> (t.0, o) in Away(h, st.start);
    }
  }

  lemma {:induction false} CountMembersSettles(h: Heap, st: Search, x: Obj)
    requires WellFormed(h) && Inv(h, st) && HoldersFlagged(h, st, {})
    requires x in h && AtTop(st, x) && MemberSlots(h, x) !! st.ledger
    requires NoOtherCycle(h, st.start) && Reach(Refs(h), st.start, x) && StackLeads(h, st, x) && Settled(h, st, {})
    ensures var r := CountMembers(h, st, x); Settled(h, r.st, {}) && Under(h, st, r.st, x)
    decreases Fresh(st), 4
  {
    Reflexive(h, st);
    PassSettles(h, st, st, x, 0, false);
    var a := Scan(h, st, x, 0, 0, false);
    if !a.st.stopped {
      PassSettles(h, st, a.st, x, 1, a.ret);
      var b := Scan(h, a.st, x, 1, 0, a.ret);
      if !b.st.stopped {
        MarkHolderSettles(h, st, b.st, x);
        var b1 := MarkHolder(h, b.st, x);
        PassSettles(h, st, b1, x, 2, false);
        var c := Scan(h, b1, x, 2, 0, false);
        PassSettles(h, st, c.st, x, 3, c.ret);
      }
    }
  }

  lemma {:induction false} PassSettles(h: Heap, st: Search, b: Search, x: Obj, n: nat, ret: bool)
    requires WellFormed(h) && x in h && n < 4 && AtTop(st, x) && Inv(h, st)
    requires Kept(h, st, b, Before(h, x, n)) && Shrinks(h, st, b)
    requires MemberSlots(h, x) !! st.ledger
    requires NoOtherCycle(h, st.start) && Reach(Refs(h), st.start, x) && StackLeads(h, st, x)
    requires Settled(h, b, {}) && Under(h, st, b, x)
    ensures var r := Scan(h, b, x, n, 0, ret);
      Kept(h, st, r.st, Before(h, x, n + 1)) && Settled(h, r.st, {}) && Under(h, st, r.st, x)
    decreases Fresh(b), 3, |h[x].members| + 1
  {
    PassKeeps(h, st, b, x, n, ret);
    NextPassDisjoint(h, st, b, x, n);
    ScanSettles(h, b, x, n, 0, ret);
  }

  lemma MarkHolderSettles(h: Heap, st: Search, b: Search, x: Obj)
    requires WellFormed(h) && x in h && AtTop(st, x) && Inv(h, st) && Settled(h, b, {})
    requires Kept(h, st, b, Before(h, x, 2)) && Shrinks(h, st, b)
    ensures var b1 := MarkHolder(h, b, x); Kept(h, st, b1, Before(h, x, 2)) && Settled(h, b1, {})
  {
    MarkHolderKeeps(h, st, b, x);
    var b1 := MarkHolder(h, b, x);
    if b1 != b {
      assert Sound(h, b, x) && Sound(h, st, x) && GrowsAt(st, b, x);
      FlagKeeps(h, b, x);
      SettledGrows(h, b, b1, {});
    }
  }

  lemma {:induction false} ScanSettles(h: Heap, st: Search, x: Obj, phase: nat, i: nat, ret: bool)
    requires WellFormed(h) && Inv(h, st) && HoldersFlagged(h, st, {})
    requires x in h && AtTop(st, x) && phase < 4 && i <= |h[x].members|
    requires PhaseSlots(h, x, phase, i) !! st.ledger
    requires NoOtherCycle(h, st.start) && Reach(Refs(h), st.start, x) && StackLeads(h, st, x) && Settled(h, st, {})
    ensures var r := Scan(h, st, x, phase, i, ret); Settled(h, r.st, {}) && Under(h, st, r.st, x)
    decreases Fresh(st), 3, |h[x].members| - i
  {
    hide HoldersFlagged, CountAll, Follow, NewSlots, Settled, NoOtherCycle, Reach, Refs, Away, UnderSlot, Sound, SlotSound;
    if st.stopped || i == |h[x].members| {
    } else if PhaseOf(h, x, i) != phase {
      ScanSettles(h, st, x, phase, i + 1, ret);
    } else {
      var o := h[x].members[i].target.value;
      assert Holds(h, (x, i), o) && (x, i) in PhaseSlots(h, x, phase, i);
      var r := if phase < 2 then CountAll(h, st, (x, i), o) else Follow(h, st, x, i, o);
      if phase < 2 {
        CountAllKeeps(h, st, (x, i), o);
        CountAllSettles(h, st, (x, i), o);
      } else {
        FollowKeeps(h, st, x, i, o);
        FollowSettles(h, st, x, i, o);
      }
      RestDisjoint(h, st, r.st, x, phase, i);
      UnderNext(h, st, r.st, x, i, o);
      LeadsOn(h, st, r.st, x);
      hide Inv, Grows, Under, StackLeads;
      ScanSettles(h, r.st, x, phase, i + 1, r.ret || ret);
      UnderTwice(h, st, r.st, Scan(h, r.st, x, phase, i + 1, r.ret || ret).st, x);
    }
  }

  lemma LeadsOn(h: Heap, st: Search, st': Search, x: Obj)
    requires StackLeads(h, st, x) && st'.start == st.start && st'.stack == st.stack
    ensures StackLeads(h, st', x)
  {
  }

  lemma UnderTwice(h: Heap, a: Search, b: Search, c: Search, x: Obj)
    requires Under(h, a, b, x) && Under(h, b, c, x) && a.start == b.start == c.start
    ensures Under(h, a, c, x)
  {
  }

  lemma UnderNext(h: Heap, st: Search, st': Search, x: Obj, i: nat, o: Obj)
    requires Holds(h, (x, i), o) && UnderSlot(h, st, st', (x, i), o)
    ensures Under(h, st, st', x)
  {
    forall t | t in st'.ledger && t !in st.ledger ensures x == st.start || Reach(Away(h, st.start), x, t.0) {
      if x != st.start {
        if t == (x, i) {
          ReachSelf(Away(h, st.start), x);
        } else {
          ReachBefore(Away(h, st.start), x, o, t.0);
        }
      }
    }
  }

  lemma {:induction false} FollowSettles(h: Heap, st: Search, x: Obj, i: nat, o: Obj)
    requires WellFormed(h) && Inv(h, st) && HoldersFlagged(h, st, {})
    requires x in h && o in h && AtTop(st, x) && Holds(h, (x, i), o) && h[x].members[i].kind.Property? && (x, i) !in st.ledger
    requires NoOtherCycle(h, st.start) && Reach(Refs(h), st.start, x) && StackLeads(h, st, x) && Settled(h, st, {})
    ensures var r := Follow(h, st, x, i, o); Settled(h, r.st, {}) && UnderSlot(h, st, r.st, (x, i), o)
    decreases Fresh(st), 2
  {
    if h[o].refCount == h[o].stored || o == st.start {
      CountAllKeeps(h, st, (x, i), o);
      CountAllSettles(h, st, (x, i), o);
      var r := CountAll(h, st, (x, i), o);
      if r.ret { FlagFollowedSettles(h, r.st, x, o); }
    }
  }

  lemma FlagFollowedSettles(h: Heap, st: Search, x: Obj, o: Obj)
    requires WellFormed(h) && Inv(h, st) && x in h && o in h && Settled(h, st, {})
    requires o == st.start || st.counters[o].hasMember
    ensures var r := FlagFollowed(h, st, x, o); Settled(h, r.st, {}) && r.st.ledger == st.ledger
  {
    var r := FlagFollowed(h, st, x, o);
    forall s: Slot, d: Obj | s in r.st.ledger ensures SlotSettled(h, r.st, s, d) {
      assert SlotSettled(h, st, s, d);
    }
  }

  // ----- the whole search -----

  lemma SearchedSettled(h: Heap, start: Obj)
    requires WellFormed(h) && start in h && Scannable(h, start) && NoOtherCycle(h, start)
    ensures Settled(h, Searched(h, start), {})
  {
    BeginSound(h, start);
    ReachSelf(Refs(h), start);
    CountMembersSettles(h, Begin(h, start), start);
  }

  /** Then no object checked but not flagged stores one that is destroyed ... */
  lemma NoOtherCycleCloses(h: Heap, out: Outside, start: Obj)
    requires Conserved(h, out) && Eligible(h, start) && !h[start].inList && Condemns(h, Searched(h, start))
    requires NoOtherCycle(h, start)
    ensures FlagsClosed(h, Searched(h, start))
  {
    var st := Searched(h, start);
    SearchedSound(h, start);
    SearchedSettled(h, start);
    forall x, k: nat, d | x in st.checked && !st.counters[x].hasMember && d in h && Condemned(h, st, d)
      ensures !Holds(h, (x, k), d)
    {
      if Holds(h, (x, k), d) { CheckedHolderIsFlagged(h, out, start, (x, k), d); }
    }
  }

  lemma CheckedHolderIsFlagged(h: Heap, out: Outside, start: Obj, s: Slot, d: Obj)
    requires Conserved(h, out) && Eligible(h, start) && Condemns(h, Searched(h, start))
    requires Inv(h, Searched(h, start)) && Settled(h, Searched(h, start), {})
    requires d in h && Condemned(h, Searched(h, start), d) && Holds(h, s, d) && s.0 in Searched(h, start).checked
    ensures Searched(h, start).counters[s.0].hasMember
  {
    var st := Searched(h, start);
    assert Sound(h, st, d) && Sound(h, st, s.0);
    if d == start {
      HoldersOfStartCondemned(h, out, start, s);
    } else {
      assert !Blocks(h, st, d);
      NotFreed(h, out, st, d);
      CountAtMostSlots(h, st, d);
      assert Balanced(h, out, d) && s in Slots(h, d);
      assert SlotSettled(h, st, s, d);
    }
  }

  /** ... and the collection is safe to the end. */
  lemma NoOtherCycleIsSafe(h: Heap, out: Outside, o: Obj)
    requires Conserved(h, out) && Eligible(h, o) && !h[o].inList && HandleGarbageCollection(h, o).collected
    requires NoOtherCycle(h, o)
    ensures var r := HandleGarbageCollection(h, o); Conserved(Finish(r.heap, r.destroyed), Forgotten(out, r.destroyed))
  {
    CollectedAreDoomed(h, out, o);
    NoOtherCycleCloses(h, out, o);
    ClosedCollectionIsSafe(h, out, o);
  }
}
