/** What is garbage is collected: from a start object that nothing but the collector holds, the search sees
    every reference to what the garbage encloses.
 */
module GcComplete {
  import opened Wrappers
  import opened AvmHeap
  import opened GcSearch
  import opened GcSearchInvariant
  import opened GcSearchProof
  import opened RefCounting
  import opened Conservation
  import opened GcCollect
  import opened GcTheorems
  import opened GcAftermath
  import opened Reachability
  import opened GcFlags
  import opened GcCycles

  /** Every reference to an object of `g` is a counted member of another, in a place the search follows:
      a property is followed only to the start object and to objects that only members refer to. */
  predicate RefersWithin(h: Heap, start: Obj, g: set<Obj>, y: Obj, k: nat) {
    y in h && k < |h[y].members| && h[y].members[k].target.Some? && h[y].members[k].target.value in g ==>
      && y in g && h[y].members[k].counted && !h[y].members[k].kind.Accessor?
      && var x := h[y].members[k].target.value;
         (h[y].members[k].kind.Property? ==> x == start || (x in h && h[x].refCount == h[x].stored))
  }

  /** The objects of `g` refer to each other, and no other refers to them. */
  ghost predicate Enclosed(h: Heap, start: Obj, g: set<Obj>) {
    && start in g
    && (forall x :: x in g ==> x in h && Scannable(h, x))
    && (forall y, k: nat {:trigger RefersWithin(h, start, g, y, k)} :: RefersWithin(h, start, g, y, k))
  }

  predicate Finished(st: Search, y: Obj) {
    y in st.counters && st.counters[y].isChecked && !st.counters[y].inChecking
  }

  predicate InLedger(h: Heap, st: Search, g: set<Obj>, s: Slot) {
    s.0 in h && s.1 < |h[s.0].members| && h[s.0].members[s.1].target.Some? && h[s.0].members[s.1].target.value in g ==>
      s in st.ledger
  }

  /** Every reference that `y` has to an object of `g` has been counted. */
  ghost predicate Scanned(h: Heap, st: Search, g: set<Obj>, y: Obj) {
    forall k: nat {:trigger InLedger(h, st, g, (y, k))} :: InLedger(h, st, g, (y, k))
  }

  /** The search has not been stopped, and has scanned what it has finished. */
  ghost predicate Covers(h: Heap, st: Search, g: set<Obj>) {
    && !st.stopped
    && forall y {:trigger Scanned(h, st, g, y)} :: y in g && y != st.start && Finished(st, y) ==> Scanned(h, st, g, y)
  }

  ghost predicate Ready(h: Heap, st: Search, g: set<Obj>) {
    && WellFormed(h) && Inv(h, st) && HoldersFlagged(h, st, {}) && Means(h, st) && Chain(h, st.start, st.stack)
    && Enclosed(h, st.start, g) && Covers(h, st, g)
  }

  lemma {:induction false} WhatReachesIsWithin(h: Heap, start: Obj, g: set<Obj>, p: seq<Obj>, x: Obj, y: Obj)
    requires Path(Refs(h), p, x, y) && y in g
    requires forall z, k: nat {:trigger RefersWithin(h, start, g, z, k)} :: RefersWithin(h, start, g, z, k)
    ensures x in g
    decreases |p|
  {
    if |p| > 1 {
      assert (p[0], p[1]) in Refs(h);
      assert Path(Refs(h), p[1..], p[1], y);
      WhatReachesIsWithin(h, start, g, p[1..], p[1], y);
      var k: nat :| k < |h[x].members| && h[x].members[k].target == Some(p[1]);
      assert RefersWithin(h, start, g, x, k);
    }
  }

  /** Hence whatever the search flags is an object of `g`. */
  lemma FlaggedIsWithin(h: Heap, st: Search, g: set<Obj>, o: Obj)
    requires Means(h, st) && Enclosed(h, st.start, g) && o in h && o in st.counters && st.counters[o].hasMember
    ensures o in g && Scannable(h, o)
  {
    assert ObjMeans(h, st, o);
    var p :| Path(Refs(h), p, o, st.start);
    WhatReachesIsWithin(h, st.start, g, p, o, st.start);
  }

  lemma CoversMore(h: Heap, st: Search, st': Search, g: set<Obj>)
    requires Covers(h, st, g) && !st'.stopped && st'.start == st.start && st.ledger <= st'.ledger
    requires forall y :: y in g && y != st.start && Finished(st', y) ==> Finished(st, y)
    ensures Covers(h, st', g)
  {
    forall y | y in g && y != st.start && Finished(st', y) ensures Scanned(h, st', g, y) {
      assert Scanned(h, st, g, y);
      forall k: nat ensures InLedger(h, st', g, (y, k)) { assert InLedger(h, st, g, (y, k)); }
    }
  }

  // ----- the search -----

  lemma {:induction false} CountAllCovers(h: Heap, st: Search, s: Slot, o: Obj, g: set<Obj>)
    requires Ready(h, st, g) && Followed(h, st.start, s, o) && o in h && s !in st.ledger && AtTop(st, s.0)
    ensures var r := CountAll(h, st, s, o); Ready(h, r.st, g) && (o in g ==> s in r.st.ledger)
    decreases Fresh(st), 1
  {
    assert Refers(h, s.0, o);
    CountAllKeeps(h, st, s, o);
    CountAllMeans(h, st, s, o);
    if st.counters[o].hasMember { FlaggedIsWithin(h, st, g, o); }
    var n := h[o];
    if n.cyclic {
      if n.constant || HasStatic(h, o) {
        CoversMore(h, st, IgnoreCount(h, st, o), g);
      } else {
        assert Sound(h, st, o);
        VisitKeeps(h, st, s, o);
        VisitCovers(h, st, s, o, g);
        var r := Visit(h, st, s, o);
        if r.ret { PropagateCovers(h, r.st, o, |r.st.stack|, g); }
      }
    }
  }

  lemma {:induction false} PropagateCovers(h: Heap, st: Search, o: Obj, n: nat, g: set<Obj>)
    requires Inv(h, st) && Covers(h, st, g) && Enclosed(h, st.start, g) && o in h && n <= |st.stack|
    ensures Covers(h, Propagate(h, st, o, n), g) && Propagate(h, st, o, n).ledger == st.ledger
  {
    var st' := Propagate(h, st, o, n);
    PropagateKeeps(h, st, o, n);
    hide Propagate, Covers;
    forall y | y in g && y != st.start && Finished(st', y) ensures Finished(st, y) {
      assert GrowsAt(st, st', y);
    }
    CoversNotStopped(h, st, g);
    CoversMore(h, st, st', g);
  }

  lemma CoversNotStopped(h: Heap, st: Search, g: set<Obj>)
    requires Covers(h, st, g)
    ensures !st.stopped
  {
  }

  lemma {:induction false} VisitCovers(h: Heap, st: Search, s: Slot, o: Obj, g: set<Obj>)
    requires Ready(h, st, g) && Followed(h, st.start, s, o) && o in h && s !in st.ledger && AtTop(st, s.0)
    requires h[o].cyclic && !h[o].constant && !HasStatic(h, o)
    ensures var r := Visit(h, st, s, o); Covers(h, r.st, g) && (o in g ==> s in r.st.ledger)
    decreases Fresh(st), 0
  {
    assert Sound(h, st, o) && Refers(h, s.0, o);
    assert Visited(st, s.0) by { assert s.0 in h && Sound(h, st, s.0); }
    CoversMore(h, st, Counted(st, s, o), g);
    if o != st.start && IsFresh(st, o) && Scannable(h, o) {
      TopIsReached(h, st, s.0);
      ReachAfter(Refs(h), st.start, s.0, o);
      var entered := Enter(Counted(st, s, o), o);
      EnterKeeps(h, st, s, o);
      EnterGrows(h, st, s, o);
      EnterMeans(h, st, s, o);
      CoversMore(h, st, entered, g);
      assert !IsFresh(entered, o) && IsFresh(st, o);
      CountMembersCovers(h, entered, o, g);
      LeaveCovers(h, CountMembers(h, entered, o), o, g);
      LeaveKeeps(h, CountMembers(h, entered, o).st, o, CountMembers(h, entered, o).ret);
      CountMembersKeeps(h, entered, o);
    }
  }

  lemma LeaveCovers(h: Heap, r: Step, o: Obj, g: set<Obj>)
    requires Fits(h, r.st) && o in h && r.st.stack != [] && Covers(h, r.st, g) && Scanned(h, r.st, g, o)
    ensures Covers(h, Leave(h, r.st, o, r.ret), g) && Leave(h, r.st, o, r.ret).ledger == r.st.ledger
  {
    var left := Leave(h, r.st, o, r.ret);
    forall y | y in g && y != left.start && Finished(left, y) ensures Scanned(h, left, g, y) {
      assert y != o ==> Scanned(h, r.st, g, y);
      forall k: nat ensures InLedger(h, left, g, (y, k)) { assert InLedger(h, r.st, g, (y, k)); }
    }
  }

  /** The references of `x` that the passes before pass n follow have been counted. */
  ghost predicate PassedTo(h: Heap, st: Search, g: set<Obj>, x: Obj, n: nat)
    requires WellFormed(h) && x in h
  {
    forall k: nat {:trigger InLedger(h, st, g, (x, k))} ::
      k < |h[x].members| && PhaseOf(h, x, k) < n ==> InLedger(h, st, g, (x, k))
  }

  lemma PassedStays(h: Heap, st: Search, st': Search, g: set<Obj>, x: Obj, n: nat)
    requires WellFormed(h) && x in h && PassedTo(h, st, g, x, n) && st.ledger <= st'.ledger
    ensures PassedTo(h, st', g, x, n)
  {
    forall k: nat | k < |h[x].members| && PhaseOf(h, x, k) < n ensures InLedger(h, st', g, (x, k)) {
      assert InLedger(h, st, g, (x, k));
    }
  }

  lemma AllPassed(h: Heap, start: Obj, st: Search, g: set<Obj>, x: Obj)
    requires WellFormed(h) && x in h && PassedTo(h, st, g, x, 4) && Enclosed(h, start, g)
    ensures Scanned(h, st, g, x)
  {
    forall k: nat ensures InLedger(h, st, g, (x, k)) {
      assert RefersWithin(h, start, g, x, k);
    }
  }

  lemma {:induction false} CountMembersCovers(h: Heap, st: Search, x: Obj, g: set<Obj>)
    requires Ready(h, st, g) && x in h && AtTop(st, x) && MemberSlots(h, x) !! st.ledger
    ensures var r := CountMembers(h, st, x); Ready(h, r.st, g) && Scanned(h, r.st, g, x)
    decreases Fresh(st), 4
  {
    Reflexive(h, st);
    PassCovers(h, st, st, x, 0, false, g);
    var a := Scan(h, st, x, 0, 0, false);
    PassCovers(h, st, a.st, x, 1, a.ret, g);
    var b := Scan(h, a.st, x, 1, 0, a.ret);
    MarkHolderCovers(h, st, b.st, x, g);
    var b1 := MarkHolder(h, b.st, x);
    PassCovers(h, st, b1, x, 2, false, g);
    var c := Scan(h, b1, x, 2, 0, false);
    PassCovers(h, st, c.st, x, 3, c.ret, g);
    AllPassed(h, st.start, Scan(h, c.st, x, 3, 0, c.ret).st, g, x);
  }

  lemma {:induction false} PassCovers(h: Heap, st: Search, b: Search, x: Obj, n: nat, ret: bool, g: set<Obj>)
    requires Ready(h, b, g) && x in h && n < 4 && AtTop(st, x) && Inv(h, st)
    requires Kept(h, st, b, Before(h, x, n)) && Shrinks(h, st, b) && MemberSlots(h, x) !! st.ledger
    requires PassedTo(h, b, g, x, n)
    ensures var r := Scan(h, b, x, n, 0, ret);
      && Kept(h, st, r.st, Before(h, x, n + 1)) && Shrinks(h, st, r.st)
      && Ready(h, r.st, g) && PassedTo(h, r.st, g, x, n + 1)
    decreases Fresh(b), 3, |h[x].members| + 1
  {
    PassKeeps(h, st, b, x, n, ret);
    NextPassDisjoint(h, st, b, x, n);
    ScanKeeps(h, b, x, n, 0, ret);
    ScanCovers(h, b, x, n, 0, ret, g);
    PassedStays(h, b, Scan(h, b, x, n, 0, ret).st, g, x, n);
  }

  lemma MarkHolderCovers(h: Heap, st: Search, b: Search, x: Obj, g: set<Obj>)
    requires Ready(h, b, g) && x in h && AtTop(st, x) && Inv(h, st) && PassedTo(h, b, g, x, 2)
    requires Kept(h, st, b, Before(h, x, 2)) && Shrinks(h, st, b)
    ensures var b1 := MarkHolder(h, b, x);
      && Kept(h, st, b1, Before(h, x, 2)) && Shrinks(h, st, b1) && Ready(h, b1, g) && PassedTo(h, b1, g, x, 2)
  {
    MarkHolderKeeps(h, st, b, x);
    MarkHolderMeans(h, b, x);
    CoversMore(h, b, MarkHolder(h, b, x), g);
    PassedStays(h, b, MarkHolder(h, b, x), g, x, 2);
  }

  /** The references that pass `phase` follows from position i on have been counted. */
  ghost predicate CountedFrom(h: Heap, st: Search, g: set<Obj>, x: Obj, phase: nat, i: nat)
    requires WellFormed(h) && x in h
  {
    forall k: nat {:trigger InLedger(h, st, g, (x, k))} ::
      i <= k < |h[x].members| && PhaseOf(h, x, k) == phase ==> InLedger(h, st, g, (x, k))
  }

  lemma CountedAlso(h: Heap, st: Search, z: Search, g: set<Obj>, x: Obj, phase: nat, i: nat)
    requires WellFormed(h) && x in h && i < |h[x].members| && CountedFrom(h, z, g, x, phase, i + 1)
    requires PhaseOf(h, x, i) == phase ==> InLedger(h, st, g, (x, i)) && st.ledger <= z.ledger
    ensures CountedFrom(h, z, g, x, phase, i)
  {
    forall k: nat | i <= k < |h[x].members| && PhaseOf(h, x, k) == phase ensures InLedger(h, z, g, (x, k)) {
      assert k == i ==> InLedger(h, st, g, (x, i));
    }
  }

  lemma {:induction false} ScanCovers(h: Heap, st: Search, x: Obj, phase: nat, i: nat, ret: bool, g: set<Obj>)
    requires Ready(h, st, g) && x in h && AtTop(st, x) && phase < 4 && i <= |h[x].members|
    requires PhaseSlots(h, x, phase, i) !! st.ledger
    ensures var r := Scan(h, st, x, phase, i, ret); Ready(h, r.st, g) && CountedFrom(h, r.st, g, x, phase, i)
    decreases Fresh(st), 3, |h[x].members| - i, 1
  {
    if i == |h[x].members| {
    } else if PhaseOf(h, x, i) != phase {
      hide Ready, CountedFrom, InLedger, CountAll, Follow;
      ScanCovers(h, st, x, phase, i + 1, ret, g);
      CountedAlso(h, st, Scan(h, st, x, phase, i + 1, ret).st, g, x, phase, i);
    } else {
      ScanEntryCovers(h, st, x, phase, i, ret, g);
    }
  }

  lemma {:induction false} ScanEntryCovers(h: Heap, st: Search, x: Obj, phase: nat, i: nat, ret: bool, g: set<Obj>)
    requires Ready(h, st, g) && x in h && AtTop(st, x) && phase < 4 && i < |h[x].members| && PhaseOf(h, x, i) == phase
    requires PhaseSlots(h, x, phase, i) !! st.ledger && h[x].members[i].target.Some?
    ensures var r := Scan(h, st, x, phase, i, ret); Ready(h, r.st, g) && CountedFrom(h, r.st, g, x, phase, i)
    decreases Fresh(st), 3, |h[x].members| - i, 0
  {
    hide *;
    ReadyIs(h, st, g);
    var o := h[x].members[i].target.value;
    var r := if phase < 2 then CountAll(h, st, (x, i), o) else Follow(h, st, x, i, o);
    EntryCovers(h, st, x, phase, i, g);
    ScanCovers(h, r.st, x, phase, i + 1, r.ret || ret, g);
    ScanGrows(h, r.st, x, phase, i + 1, r.ret || ret);
    CountedAlso(h, r.st, Scan(h, r.st, x, phase, i + 1, r.ret || ret).st, g, x, phase, i);
  }

  lemma EntryCovers(h: Heap, st: Search, x: Obj, phase: nat, i: nat, g: set<Obj>)
    requires Ready(h, st, g) && x in h && AtTop(st, x) && phase < 4 && i < |h[x].members| && PhaseOf(h, x, i) == phase
    requires PhaseSlots(h, x, phase, i) !! st.ledger
    ensures var o := h[x].members[i].target.value;
      var r := if phase < 2 then CountAll(h, st, (x, i), o) else Follow(h, st, x, i, o);
      && Ready(h, r.st, g) && InLedger(h, r.st, g, (x, i)) && Inv(h, r.st) && HoldersFlagged(h, r.st, {})
      && PhaseSlots(h, x, phase, i + 1) !! r.st.ledger && AtTop(r.st, x) && Fresh(r.st) <= Fresh(st)
      && (forall ret :: Scan(h, st, x, phase, i, ret) == Scan(h, r.st, x, phase, i + 1, r.ret || ret))
    decreases Fresh(st), 3, 0
  {
    var o := h[x].members[i].target.value;
    assert Holds(h, (x, i), o) && (x, i) in PhaseSlots(h, x, phase, i);
    var r := if phase < 2 then CountAll(h, st, (x, i), o) else Follow(h, st, x, i, o);
    if phase < 2 {
      CountAllKeeps(h, st, (x, i), o);
      CountAllCovers(h, st, (x, i), o, g);
    } else {
      FollowKeeps(h, st, x, i, o);
      FollowCovers(h, st, x, i, o, g);
    }
    RestDisjoint(h, st, r.st, x, phase, i);
    ReadyIs(h, r.st, g);
  }

  lemma ReadyIs(h: Heap, st: Search, g: set<Obj>)
    requires Ready(h, st, g)
    ensures WellFormed(h) && Fits(h, st) && Inv(h, st) && HoldersFlagged(h, st, {}) && !st.stopped
  {
  }

  lemma {:induction false} ScanGrows(h: Heap, st: Search, x: Obj, phase: nat, i: nat, ret: bool)
    requires WellFormed(h) && Inv(h, st) && HoldersFlagged(h, st, {})
    requires x in h && AtTop(st, x) && phase < 4 && i <= |h[x].members|
    requires PhaseSlots(h, x, phase, i) !! st.ledger
    ensures st.ledger <= Scan(h, st, x, phase, i, ret).st.ledger
  {
    ScanKeeps(h, st, x, phase, i, ret);
  }

  lemma {:induction false} FollowCovers(h: Heap, st: Search, x: Obj, i: nat, o: Obj, g: set<Obj>)
    requires Ready(h, st, g) && x in h && o in h && AtTop(st, x) && Holds(h, (x, i), o) && (x, i) !in st.ledger
    requires h[x].members[i].kind.Property?
    ensures var r := Follow(h, st, x, i, o); Ready(h, r.st, g) && (o in g ==> (x, i) in r.st.ledger)
    decreases Fresh(st), 2
  {
    assert Refers(h, x, o) && RefersWithin(h, st.start, g, x, i);
    FollowKeeps(h, st, x, i, o);
    FollowMeans(h, st, x, i, o);
    if h[o].refCount == h[o].stored || o == st.start {
      CountAllKeeps(h, st, (x, i), o);
      CountAllCovers(h, st, (x, i), o, g);
      var r := CountAll(h, st, (x, i), o);
      if r.ret {
        assert Sound(h, r.st, x) && Sound(h, r.st, o);
        hide Inv, Means, Chain, HoldersFlagged, Covers, CountAll, Scannable;
        FlagFollowedCovers(h, r.st, x, o, g);
      }
    }
  }

  /** The object followed has been entered already. */
  lemma FlagFollowedCovers(h: Heap, st: Search, x: Obj, o: Obj, g: set<Obj>)
    requires Fits(h, st) && Covers(h, st, g) && x in h && o in h && Visited(st, o)
    requires !st.counters[x].ignore
    ensures var r := FlagFollowed(h, st, x, o); Covers(h, r.st, g) && r.st.ledger == st.ledger
  {
    CoversMore(h, st, FlagFollowed(h, st, x, o).st, g);
  }

  // ----- the verdict -----

  /** The search from `start` has gone through `g`. */
  lemma SearchCovers(h: Heap, start: Obj, g: set<Obj>)
    requires WellFormed(h) && start in h && Scannable(h, start) && Enclosed(h, start, g)
    ensures var st := Searched(h, start);
      Inv(h, st) && Means(h, st) && Covers(h, st, g) && Scanned(h, st, g, start)
  {
    BeginSound(h, start);
    var b := Begin(h, start);
    forall o | o in h ensures ObjMeans(h, b, o) { }
    CountMembersCovers(h, b, start, g);
  }

  /** Along a path within `g` every object has been visited, and so scanned. */
  lemma {:induction false} PathIsScanned(h: Heap, st: Search, g: set<Obj>, p: seq<Obj>, x: Obj)
    requires Inv(h, st) && st.stack == [] && Covers(h, st, g) && Scanned(h, st, g, st.start) && Enclosed(h, st.start, g)
    requires Path(Refs(h), p, st.start, x) && x in g
    ensures Visited(st, x) && Scanned(h, st, g, x)
    decreases |p|
  {
    if |p| > 1 {
      var y := p[|p| - 2];
      assert (y, x) in Refs(h);
      var k: nat :| k < |h[y].members| && h[y].members[k].target == Some(x);
      assert RefersWithin(h, st.start, g, y, k);
      assert Path(Refs(h), p[..|p| - 1], st.start, y);
      PathIsScanned(h, st, g, p[..|p| - 1], y);
      assert InLedger(h, st, g, (y, k));
      CountedIsVisited(h, st, (y, k), x);
    }
  }

  lemma CountedIsVisited(h: Heap, st: Search, s: Slot, x: Obj)
    requires Inv(h, st) && st.stack == [] && s in st.ledger && x in h
    requires s.0 in h && s.1 < |h[s.0].members| && h[s.0].members[s.1].target == Some(x)
    ensures x == st.start || Finished(st, x)
  {
    assert Sound(h, st, x) && SlotSound(h, st, s);
    assert s in LedgerOf(h, st.ledger, x);
  }

  /** Enclosed objects that `start` reaches. */
  ghost predicate Within(h: Heap, start: Obj, g: set<Obj>) {
    Enclosed(h, start, g) && forall x :: x in g ==> Reach(Refs(h), start, x) && !h[x].freed
  }

  /** Every slot that stores an object of `g` has been counted. */
  lemma SlotsAreCounted(h: Heap, out: Outside, start: Obj, g: set<Obj>, x: Obj)
    requires Conserved(h, out) && Within(h, start, g) && x in g
    ensures var st := Searched(h, start);
      && Inv(h, st) && Visited(st, x) && Slots(h, x) <= st.ledger
      && st.counters[x].count == |Slots(h, x)| == h[x].stored
  {
    SearchCovers(h, start, g);
    var st := Searched(h, start);
    var p :| Path(Refs(h), p, start, x);
    PathIsScanned(h, st, g, p, x);
    forall s | s in Slots(h, x) ensures s in st.ledger {
      assert RefersWithin(h, start, g, s.0, s.1);
      var q :| Path(Refs(h), q, start, s.0);
      PathIsScanned(h, st, g, q, s.0);
      assert InLedger(h, st, g, (s.0, s.1));
      assert s == (s.0, s.1);
    }
    assert Sound(h, st, x) && Balanced(h, out, x);
    assert LedgerOf(h, st.ledger, x) == Slots(h, x);
  }

  /** Garbage: besides, nothing outside the heap holds them, but for the reference to `start` that the worker
      took off the collector's list. */
  ghost predicate Garbage(h: Heap, out: Outside, start: Obj, g: set<Obj>) {
    && Within(h, start, g) && out.Keys == h.Keys
    && (forall x :: x in g ==> x in out && out[x] == (if x == start then 1 else 0) && !h[x].inList)
  }

  /** Nothing speaks against the destruction of the start object. */
  lemma GarbageIsCondemned(h: Heap, out: Outside, start: Obj, g: set<Obj>)
    requires Conserved(h, out) && Eligible(h, start) && Garbage(h, out, start, g)
    ensures Condemns(h, Searched(h, start)) && !NeedsNewCheck(h, Searched(h, start))
  {
    SearchCovers(h, start, g);
    var st := Searched(h, start);
    SlotsAreCounted(h, out, start, g, start);
    forall o | o in st.checked ensures !Blocks(h, st, o) {
      assert Sound(h, st, o);
      if st.counters[o].hasMember {
        FlaggedIsWithin(h, st, g, o);
        SlotsAreCounted(h, out, start, g, o);
        assert Balanced(h, out, o);
      }
    }
  }

  /** When the worker comes to a start object that nothing but garbage refers to, it is collected. */
  lemma GarbageIsCollected(h: Heap, out: Outside, start: Obj, g: set<Obj>)
    requires Conserved(h, out) && Eligible(h, start) && Garbage(h, out, start, g)
    ensures HandleGarbageCollection(h, start).collected
  {
    GarbageIsCondemned(h, out, start, g);
    hide Searched, Condemns, NeedsNewCheck;
  }

  // ----- the whole cycle goes -----

  /** Without other cycles every object of the garbage that leads to the start object is flagged. */
  lemma {:induction false} PathIsFlagged(h: Heap, out: Outside, start: Obj, g: set<Obj>, p: seq<Obj>, x: Obj)
    requires Conserved(h, out) && Within(h, start, g) && Settled(h, Searched(h, start), {})
    requires start in h && HoldersFlagged(h, Searched(h, start), {}) && Path(Refs(h), p, x, start) && x in g
    ensures x == start || (x in Searched(h, start).counters && Searched(h, start).counters[x].hasMember)
    decreases |p|
  {
    hide *;
    if x != start {
      PathNext(Refs(h), p, x, start);
      var y := p[1];
      LeadsWithin(h, start, g, p[1..], y);
      PathIsFlagged(h, out, start, g, p[1..], y);
      StepFlags(h, out, start, g, x, y);
    }
  }

  lemma PathNext(e: set<(Obj, Obj)>, p: seq<Obj>, x: Obj, y: Obj)
    requires Path(e, p, x, y) && x != y
    ensures |p| > 1 && (x, p[1]) in e && Path(e, p[1..], p[1], y)
  {
  }

  lemma LeadsWithin(h: Heap, start: Obj, g: set<Obj>, p: seq<Obj>, y: Obj)
    requires Within(h, start, g) && Path(Refs(h), p, y, start)
    ensures y in g
  {
    WhatReachesIsWithin(h, start, g, p, y, start);
  }

  lemma StepFlags(h: Heap, out: Outside, start: Obj, g: set<Obj>, x: Obj, y: Obj)
    requires Conserved(h, out) && Within(h, start, g) && start in h && Settled(h, Searched(h, start), {})
    requires HoldersFlagged(h, Searched(h, start), {}) && (x, y) in Refs(h) && y in g && x != start
    requires y == start || (y in Searched(h, start).counters && Searched(h, start).counters[y].hasMember)
    ensures x in Searched(h, start).counters && Searched(h, start).counters[x].hasMember
  {
    var k: nat :| k < |h[x].members| && h[x].members[k].target == Some(y);
    assert RefersWithin(h, start, g, x, k);
    SlotsAreCounted(h, out, start, g, y);
    assert (x, k) in Slots(h, y);
    hide Searched, Scannable, Conserved;
    HolderIsFlagged(h, Searched(h, start), x, k, y);
  }

  lemma HolderIsFlagged(h: Heap, st: Search, x: Obj, k: nat, y: Obj)
    requires Inv(h, st) && st.stack == [] && Settled(h, st, {}) && HoldersFlagged(h, st, {})
    requires Holds(h, (x, k), y) && (x, k) in st.ledger && x != st.start && y in h
    requires y == st.start || st.counters[y].hasMember
    ensures x in st.counters && st.counters[x].hasMember
  {
    assert Sound(h, st, y) && SlotSound(h, st, (x, k));
    assert SlotSettled(h, st, (x, k), y) && HolderFlagged(h, st, (x, k));
  }

  /** If besides every cycle of the heap goes through the start object, all of the garbage that lies on one
      is destroyed with it, and the counts stay exact to the end. */
  lemma GarbageCycleIsDestroyed(h: Heap, out: Outside, start: Obj, g: set<Obj>)
    requires Conserved(h, out) && Eligible(h, start) && Garbage(h, out, start, g) && NoOtherCycle(h, start)
    ensures var r := HandleGarbageCollection(h, start);
      && r.collected && (forall x :: x in g && Reach(Refs(h), x, start) ==> x in r.destroyed)
      && Conserved(Finish(r.heap, r.destroyed), Forgotten(out, r.destroyed))
  {
    GarbageIsCollected(h, out, start, g);
    CollectedAreDoomed(h, out, start);
    NoOtherCycleIsSafe(h, out, start);
    SearchedSound(h, start);
    SearchedSettled(h, start);
    var st := Searched(h, start);
    forall x | x in g && Reach(Refs(h), x, start) ensures Condemned(h, st, x) {
      var p :| Path(Refs(h), p, x, start);
      PathIsFlagged(h, out, start, g, p, x);
      SlotsAreCounted(h, out, start, g, x);
      FlaggedIsCondemned(h, st, x);
    }
  }

  // ----- when something in use is on the cycle -----

  /** On a cycle through `start`, beside it. */
  ghost predicate OnCycle(h: Heap, start: Obj, g: set<Obj>, x: Obj) {
    x in g && x != start && Reach(Refs(h), x, start)
  }

  lemma FlaggedIffOnCycle(h: Heap, out: Outside, start: Obj, g: set<Obj>, x: Obj)
    requires Conserved(h, out) && Eligible(h, start) && Within(h, start, g) && NoOtherCycle(h, start)
    requires x in h && x != start
    ensures x in Searched(h, start).counters && (Searched(h, start).counters[x].hasMember <==> OnCycle(h, start, g, x))
    ensures OnCycle(h, start, g, x) ==> x in Searched(h, start).checked
  {
    SearchCovers(h, start, g);
    SearchedSound(h, start);
    SearchedSettled(h, start);
    var st := Searched(h, start);
    assert Sound(h, st, x);
    if st.counters[x].hasMember {
      FlaggedIsWithin(h, st, g, x);
      assert ObjMeans(h, st, x);
    }
    if OnCycle(h, start, g, x) {
      var p :| Path(Refs(h), p, x, start);
      PathIsFlagged(h, out, start, g, p, x);
      SlotsAreCounted(h, out, start, g, x);
    }
  }

  lemma BlocksIff(h: Heap, out: Outside, start: Obj, g: set<Obj>, x: Obj)
    requires Conserved(h, out) && Eligible(h, start) && Within(h, start, g) && NoOtherCycle(h, start)
    requires x in h && x != start
    ensures x in Searched(h, start).checked && Blocks(h, Searched(h, start), x)
      <==> OnCycle(h, start, g, x) && h[x].refCount != h[x].stored
    ensures OnCycle(h, start, g, x) ==> !Searched(h, start).counters[x].ignore
    ensures OnCycle(h, start, g, x) && h[x].marked ==> h[x].refCount != h[x].stored
  {
    FlaggedIffOnCycle(h, out, start, g, x);
    SearchedSound(h, start);
    assert Sound(h, Searched(h, start), x) && Balanced(h, out, x);
    if OnCycle(h, start, g, x) { SlotsAreCounted(h, out, start, g, x); }
  }

  /** Only members refer to the objects on the cycles. */
  ghost predicate CyclesUnheld(h: Heap, start: Obj, g: set<Obj>) {
    forall x :: OnCycle(h, start, g, x) ==> x in h && h[x].refCount == h[x].stored
  }

  ghost predicate SomeMarked(h: Heap, start: Obj, g: set<Obj>) {
    exists x :: OnCycle(h, start, g, x) && x in h && h[x].marked
  }

  lemma CondemnsIff(h: Heap, out: Outside, start: Obj, g: set<Obj>)
    requires Conserved(h, out) && Eligible(h, start) && Within(h, start, g) && NoOtherCycle(h, start)
    ensures var st := Searched(h, start);
      !st.stopped && (Condemns(h, st) <==> CyclesUnheld(h, start, g))
  {
    var st := Searched(h, start);
    SearchCovers(h, start, g);
    SlotsAreCounted(h, out, start, g, start);
    assert start !in st.checked by { assert Sound(h, st, start); }
    hide Searched, Inv, Means, Covers, Scanned, Within, NoOtherCycle, Conserved, Blocks;
    CoversNotStopped(h, st, g);
    forall x | OnCycle(h, start, g, x) ensures x in h { OnCycleIsIn(h, start, g, x); }
    forall x | x in h && x != start
      ensures x in st.checked && Blocks(h, st, x) <==> OnCycle(h, start, g, x) && h[x].refCount != h[x].stored
    {
      BlocksIff(h, out, start, g, x);
    }
    CheckedIsIn(h, st);
  }

  lemma OnCycleIsIn(h: Heap, start: Obj, g: set<Obj>, x: Obj)
    requires Within(h, start, g) && OnCycle(h, start, g, x)
    ensures x in h && x != start
  {
  }

  lemma CheckedIsIn(h: Heap, st: Search)
    requires Fits(h, st)
    ensures forall x :: x in st.checked ==> x in h
  {
  }

  lemma NeedsNewCheckIff(h: Heap, out: Outside, start: Obj, g: set<Obj>)
    requires Conserved(h, out) && Eligible(h, start) && Within(h, start, g) && NoOtherCycle(h, start)
    ensures NeedsNewCheck(h, Searched(h, start)) <==> SomeMarked(h, start, g)
  {
    var st := Searched(h, start);
    SearchedSound(h, start);
    assert start !in st.checked by { assert Sound(h, st, start); }
    assert !h[start].deletedInGc;
    hide Searched, Inv, Within, NoOtherCycle, Conserved, Blocks, Scannable;
    forall x | OnCycle(h, start, g, x) ensures x in h && x != start { OnCycleIsIn(h, start, g, x); }
    forall x | x in h && x != start
      ensures x in st.checked && Blocks(h, st, x) <==> OnCycle(h, start, g, x) && h[x].refCount != h[x].stored
      ensures OnCycle(h, start, g, x) ==> x in st.counters && !st.counters[x].ignore
      ensures OnCycle(h, start, g, x) && h[x].marked ==> h[x].refCount != h[x].stored
    {
      BlocksIff(h, out, start, g, x);
    }
    CheckedIsIn(h, st);
  }

  /** Enclosed objects all of whose cycles go through the start object: it is collected if and only if only
      members refer to the others on its cycles; if not, it waits in the list again exactly if one of those
      waits there, marked, and otherwise has lost the list's reference. */
  lemma VerdictIff(h: Heap, out: Outside, start: Obj, g: set<Obj>)
    requires Conserved(h, out) && Eligible(h, start) && !h[start].inList
    requires Within(h, start, g) && NoOtherCycle(h, start)
    ensures var r := HandleGarbageCollection(h, start);
      && (r.collected <==> CyclesUnheld(h, start, g))
      && (!r.collected ==>
            && (r.heap[start].inList <==> SomeMarked(h, start, g))
            && !r.heap[start].marked && r.heap[start].refCount == h[start].refCount - if r.heap[start].inList then 0 else 1)
  {
    hide NoOtherCycle, Within, CyclesUnheld, SomeMarked, Searched;
    CondemnsIff(h, out, start, g);
    NeedsNewCheckIff(h, out, start, g);
    HandleIsDecide(h, start);
    StartIsPlain(h, out, start);
    if !HandleGarbageCollection(h, start).collected { NotCollected(h, Searched(h, start)); }
    CondemnsIsCollected(h, Searched(h, start));
  }

  lemma HandleIsDecide(h: Heap, start: Obj)
    requires WellFormed(h) && Eligible(h, start)
    ensures HandleGarbageCollection(h, start) == Decide(h, Searched(h, start))
  {
  }

  lemma StartIsPlain(h: Heap, out: Outside, start: Obj)
    requires Conserved(h, out) && Eligible(h, start)
    ensures !Locked(h[start]) && h[start].refCount > 1
  {
    assert Balanced(h, out, start);
  }

  lemma CondemnsIsCollected(h: Heap, st: Search)
    requires WellFormed(h) && Fits(h, st)
    ensures Decide(h, st).collected <==> Condemns(h, st) && !NeedsNewCheck(h, st)
    ensures NeedsNewCheck(h, st) ==> !Condemns(h, st)
  {
  }

  /** What becomes of a start object that is not collected. */
  lemma NotCollected(h: Heap, st: Search)
    requires WellFormed(h) && Fits(h, st) && !h[st.start].inList && !Locked(h[st.start]) && h[st.start].refCount > 1
    requires !Decide(h, st).collected
    ensures st.start in Decide(h, st).heap
    ensures var r := Decide(h, st).heap[st.start];
      && (r.inList <==> !st.stopped && NeedsNewCheck(h, st))
      && !r.marked && r.refCount == h[st.start].refCount - if r.inList then 0 else 1
  {
  }

  /** Where no other object is marked, a start object that is not collected has left the list for good. */
  lemma NotListedAgain(h: Heap, out: Outside, o: Obj)
    requires Conserved(h, out) && o in h && !h[o].inList && out[o] >= 1
    requires forall x :: x in h && x != o ==> !h[x].marked
    requires !HandleGarbageCollection(h, o).collected
    ensures o in HandleGarbageCollection(h, o).heap && !HandleGarbageCollection(h, o).heap[o].inList
  {
    assert Balanced(h, out, o);
    if Eligible(h, o) {
      SearchedSound(h, o);
      assert Sound(h, Searched(h, o), o);
      StartIsPlain(h, out, o);
      NotCollected(h, Searched(h, o));
      HandleIsDecide(h, o);
    } else {
      ReleasedStaysUnlisted(h, o);
      ReleasedStaysUnlisted(Unmark(h, o), o);
    }
  }

  lemma {:induction false} ReleasedStaysUnlisted(h: Heap, o: Obj)
    requires WellFormed(h) && o in h && !h[o].inList && !h[o].inDestruction
    ensures o in DecRef(h, o) && !DecRef(h, o)[o].inList
  {
  }

  function Pair(a: Obj, b: Obj): Heap {
    map[a := Live(2, 1, [Member(Property, Some(b), true)]), b := Live(1, 1, [Member(Property, Some(a), true)])]
  }

  lemma PairConserved(a: Obj, b: Obj)
    requires a != b
    ensures Conserved(Pair(a, b), map[a := 1, b := 0]) && Eligible(Pair(a, b), a)
  {
    var h := Pair(a, b);
    assert Slots(h, a) == {(b, 0)} && Slots(h, b) == {(a, 0)};
    forall o | o in h ensures Balanced(h, map[a := 1, b := 0], o) { }
  }

  /** Two objects that store each other, of which the worker has taken one off its list, are such garbage. */
  lemma PairIsGarbage(a: Obj, b: Obj)
    requires a != b
    ensures Conserved(Pair(a, b), map[a := 1, b := 0]) && Eligible(Pair(a, b), a)
    ensures Garbage(Pair(a, b), map[a := 1, b := 0], a, {a, b}) && NoOtherCycle(Pair(a, b), a)
  {
    var h := Pair(a, b);
    PairConserved(a, b);
    hide Conserved, Eligible;
    assert h[a].members[0].target == Some(b);
    assert Refers(h, a, b);
    ReachSelf(Refs(h), a);
    ReachAfter(Refs(h), a, a, b);
    assert Away(h, a) == {};
  }
}
