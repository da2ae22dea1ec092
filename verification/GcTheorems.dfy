/** What a collection may and may not destroy. */
module GcTheorems {
  import opened AvmHeap
  import opened GcSearch
  import opened GcSearchInvariant
  import opened GcSearchProof
  import opened RefCounting
  import opened Conservation
  import opened GcCollect

  /** The checks handleGarbageCollection makes before it searches. */
  predicate Eligible(h: Heap, o: Obj) {
    o in h && Scannable(h, o) && !h[o].freed && h[o].stored != 0 && h[o].refCount == h[o].stored + 1
  }

  lemma BeginSound(h: Heap, start: Obj)
    requires start in h && Scannable(h, start)
    ensures Inv(h, Begin(h, start)) && HoldersFlagged(h, Begin(h, start), {})
  {
    var st := Begin(h, start);
    forall o | o in h ensures Sound(h, st, o) {
      assert LedgerOf(h, st.ledger, o) == {};
    }
  }

  lemma SearchedSound(h: Heap, start: Obj)
    requires WellFormed(h) && start in h && Scannable(h, start)
    ensures Inv(h, Searched(h, start)) && HoldersFlagged(h, Searched(h, start), {})
  {
    BeginSound(h, start);
    CountMembersKeeps(h, Begin(h, start), start);
  }

  // ----- counters -----

  lemma {:induction false} ResetAllAt(counters: map<Obj, Counter>, objs: seq<Obj>, o: Obj)
    requires o in counters
    ensures o in ResetAll(counters, objs)
    ensures ResetAll(counters, objs)[o] == if o in objs then ZERO else counters[o]
    decreases |objs|
  {
    if objs != [] { ResetAllAt(counters[objs[0] := ZERO], objs[1..], o); }
  }

  /** However the search ended, early stops included, reset() clears every counter it touched. */
  lemma ResetClearsAll(h: Heap, start: Obj, o: Obj)
    requires WellFormed(h) && start in h && Scannable(h, start) && o in h
    ensures o in Reset(Searched(h, start)).counters && Reset(Searched(h, start)).counters[o] == ZERO
  {
    SearchedSound(h, start);
    var st := Searched(h, start);
    assert Sound(h, st, o);
    ResetAllAt(st.counters[start := ZERO], st.checked, o);
  }

  /** When a reference is about to be counted, the count is still below the reference count: the
      three assertions of countAllCylicMemberReferences hold. */
  lemma CountBelowRefCount(h: Heap, out: Outside, st: Search, s: Slot, o: Obj)
    requires Conserved(h, out) && Inv(h, st) && Holds(h, s, o) && s !in st.ledger
    requires o in h && !Locked(h[o])
    ensures st.counters[o].count < h[o].refCount
    ensures h[o].cyclic ==> st.counters[o].count < h[o].stored
  {
    assert Sound(h, st, o) && Balanced(h, out, o);
    var l := LedgerOf(h, st.ledger, o);
    assert s in Slots(h, o);
    SubsetCard(l + {s}, Slots(h, o));
  }

  /** A count never exceeds the number of slots that store the object. */
  lemma CountAtMostSlots(h: Heap, st: Search, o: Obj)
    requires Inv(h, st) && o in h
    ensures st.counters[o].count <= |Slots(h, o)|
    ensures st.counters[o].count == |Slots(h, o)| ==> Slots(h, o) <= st.ledger
  {
    assert Sound(h, st, o);
    SubsetCard(LedgerOf(h, st.ledger, o), Slots(h, o));
  }

  /** What is in use outside is not entered through a property: its references are not counted. */
  lemma HeldIsNotCounted(h: Heap, out: Outside, start: Obj, x: Obj)
    requires Conserved(h, out) && start in h && Scannable(h, start) && x in h && x != start
    requires !Locked(h[x]) && h[x].cyclic && (out[x] > 0 || h[x].inList)
    requires forall s :: s in Slots(h, x) ==> h[s.0].members[s.1].kind.Property? || h[s.0].members[s.1].kind.Accessor?
    ensures x in Searched(h, start).counters && Searched(h, start).counters[x].count == 0
  {
    SearchedSound(h, start);
    var st := Searched(h, start);
    assert Sound(h, st, x) && Balanced(h, out, x);
    forall s | s in LedgerOf(h, st.ledger, x) ensures false {
      NotFollowed(h, st, x, s);
    }
    assert LedgerOf(h, st.ledger, x) == {};
  }

  lemma NotFollowed(h: Heap, st: Search, x: Obj, s: Slot)
    requires Inv(h, st) && x in h && x != st.start && h[x].refCount != h[x].stored && Holds(h, s, x)
    requires h[s.0].members[s.1].kind.Property? || h[s.0].members[s.1].kind.Accessor?
    ensures s !in st.ledger
  {
    assert s in st.ledger ==> SlotSound(h, st, s);
  }

  // ----- the verdict -----

  ghost predicate Condemned(h: Heap, st: Search, d: Obj)
    requires Fits(h, st)
  {
    d == st.start || (d in st.checked && IsDeletable(h, st, d))
  }

  /** Every reference to a condemned object is a member of an object the search visited; nothing
      outside the heap and no static object holds it, but for the collector's own reference to the start
      object. */
  lemma CondemnedOnlyFromVisited(h: Heap, out: Outside, start: Obj, d: Obj)
    requires Conserved(h, out) && Eligible(h, start) && !h[start].inList
    requires Condemns(h, Searched(h, start)) && Condemned(h, Searched(h, start), d)
    ensures d in h && d in out
    ensures forall s :: s in Slots(h, d) ==> s.0 == start || s.0 in Searched(h, start).checked
    ensures out[d] == (if d == start then 1 else 0) && !h[d].inList && !Locked(h[d]) && h[d].cyclic
    ensures h[d].storedStatic == 0
  {
    SearchedSound(h, start);
    var st := Searched(h, start);
    assert Sound(h, st, d) && Balanced(h, out, d);
    CountAtMostSlots(h, st, d);
    if d != start {
      assert !Blocks(h, st, d);
      assert !Locked(h[d]) by { NotFreed(h, out, st, d); }
    }
    forall s | s in Slots(h, d) ensures s.0 == start || s.0 in st.checked {
      assert SlotSound(h, st, s);
      assert Sound(h, st, s.0);
    }
  }

  lemma NotFreed(h: Heap, out: Outside, st: Search, d: Obj)
    requires Conserved(h, out) && Inv(h, st) && d in st.checked && d != st.start && IsDeletable(h, st, d)
    requires !h[d].constant
    ensures !h[d].freed
  {
    assert Sound(h, st, d) && Balanced(h, out, d);
  }

  /** A flagged object that does not block is deletable. */
  lemma FlaggedIsCondemned(h: Heap, st: Search, x: Obj)
    requires Inv(h, st) && st.stack == [] && !Blocked(h, st) && x in h && Visited(st, x)
    requires x == st.start || st.counters[x].hasMember
    ensures Condemned(h, st, x)
  {
    assert Sound(h, st, x);
    if x != st.start {
      assert x in st.checked && !Blocks(h, st, x);
    }
  }

  /** Every object that stores the start object is condemned with it. */
  lemma HoldersOfStartCondemned(h: Heap, out: Outside, start: Obj, s: Slot)
    requires Conserved(h, out) && Eligible(h, start) && Condemns(h, Searched(h, start))
    requires Holds(h, s, start)
    ensures Condemned(h, Searched(h, start), s.0)
  {
    SearchedSound(h, start);
    var st := Searched(h, start);
    assert Sound(h, st, start) && Balanced(h, out, start);
    CountAtMostSlots(h, st, start);
    assert s in Slots(h, start);
    assert SlotSound(h, st, s) && HolderFlagged(h, st, s);
    FlaggedIsCondemned(h, st, s.0);
  }

  /** No object that survives stores a condemned one. */
  ghost predicate Closed(h: Heap, st: Search)
    requires Fits(h, st)
  {
    forall s, d :: d in h && Condemned(h, st, d) && Holds(h, s, d) ==> Condemned(h, st, s.0)
  }

  /** What the collector could check between its search and the destruction: none of the objects it
      checked without flagging stores one of those it is about to destroy. */
  ghost predicate FlagsClosed(h: Heap, st: Search)
    requires Fits(h, st)
  {
    forall x, k: nat, d :: x in st.checked && !st.counters[x].hasMember && d in h && Condemned(h, st, d)
      ==> !Holds(h, (x, k), d)
  }

  /** The condemned set is closed exactly when the flags are. */
  lemma ClosedIffFlagsClosed(h: Heap, out: Outside, start: Obj)
    requires Conserved(h, out) && Eligible(h, start) && !h[start].inList && Condemns(h, Searched(h, start))
    ensures Closed(h, Searched(h, start)) <==> FlagsClosed(h, Searched(h, start))
  {
    SearchedSound(h, start);
    var st := Searched(h, start);
    if FlagsClosed(h, st) {
      forall s, d | d in h && Condemned(h, st, d) && Holds(h, s, d) ensures Condemned(h, st, s.0) {
        CondemnedOnlyFromVisited(h, out, start, d);
        assert s in Slots(h, d);
        assert s == (s.0, s.1);
        assert Sound(h, st, s.0);
        FlaggedIsCondemned(h, st, s.0);
      }
    }
    if Closed(h, st) {
      forall x, k: nat, d | x in st.checked && !st.counters[x].hasMember && d in h && Condemned(h, st, d)
        ensures !Holds(h, (x, k), d)
      {
        assert Sound(h, st, x);
        assert !Condemned(h, st, x);
        assert (x, k).0 == x;
      }
    }
  }
}
