/** What the search's flags say about the heap: the object lies on a cycle through the start object. */
module GcFlags {
  import opened Wrappers
  import opened AvmHeap
  import opened GcSearch
  import opened GcSearchInvariant
  import opened GcCollect
  import opened GcTheorems
  import opened Reachability

  predicate Refers(h: Heap, x: Obj, y: Obj) {
    x in h && exists k :: 0 <= k < |h[x].members| && h[x].members[k].target == Some(y)
  }

  /** Every reference of the heap, counted or not. */
  ghost function Refs(h: Heap): (r: set<(Obj, Obj)>)
    ensures forall x: Obj, y: Obj :: (x, y) in r <==> Refers(h, x, y)
  {
    set x, k: nat | x in h && 0 <= k < |h[x].members| && h[x].members[k].target.Some? :: (x, h[x].members[k].target.value)
  }

  /** A flagged object reaches the start object, which reaches every object on the stack or checked. */
  ghost predicate ObjMeans(h: Heap, st: Search, o: Obj) {
    o in st.counters
    && (st.counters[o].hasMember ==> Reach(Refs(h), o, st.start))
    && (o in st.stack || o in st.checked ==> Reach(Refs(h), st.start, o))
  }

  ghost predicate Means(h: Heap, st: Search) {
    forall o {:trigger ObjMeans(h, st, o)} :: o in h ==> ObjMeans(h, st, o)
  }

  /** Each object on the stack is stored in the one below it. */
  predicate Linked(h: Heap, start: Obj, stack: seq<Obj>, i: nat) {
    i < |stack| && Refers(h, if i == 0 then start else stack[i - 1], stack[i])
  }

  ghost predicate Chain(h: Heap, start: Obj, stack: seq<Obj>) {
    forall i: nat {:trigger Linked(h, start, stack, i)} :: i < |stack| ==> Linked(h, start, stack, i)
  }

  lemma TopIsReached(h: Heap, st: Search, x: Obj)
    requires Fits(h, st) && Means(h, st) && AtTop(st, x)
    ensures Reach(Refs(h), st.start, x)
  {
    if st.stack == [] { ReachSelf(Refs(h), x); } else { assert x in st.stack && ObjMeans(h, st, x); }
  }

  /** A step that changes only o's counter, or the lists by o. */
  lemma TouchMeans(h: Heap, st: Search, st': Search, o: Obj)
    requires Fits(h, st) && Fits(h, st') && Means(h, st) && o in h
    requires st'.start == st.start
    requires forall p :: p in h && p != o ==> st'.counters[p] == st.counters[p]
    requires st'.checked == st.checked || st'.checked == st.checked + [o]
    requires forall p :: p in st'.stack ==> p in st.stack || p == o
    requires st'.counters[o].hasMember ==> st.counters[o].hasMember || Reach(Refs(h), o, st.start)
    requires st'.checked != st.checked || (o in st'.stack && o !in st.stack) ==> Reach(Refs(h), st.start, o)
    ensures Means(h, st')
  {
    forall p | p in h ensures ObjMeans(h, st', p) {
      assert ObjMeans(h, st, p);
    }
  }

  lemma SetCheckedMeans(h: Heap, st: Search, o: Obj)
    requires Fits(h, st) && Means(h, st) && o in h && Reach(Refs(h), st.start, o)
    ensures Means(h, SetChecked(h, st, o))
  {
    TouchMeans(h, st, SetChecked(h, st, o), o);
  }

  lemma IgnoreMeans(h: Heap, st: Search, o: Obj)
    requires Fits(h, st) && Means(h, st) && o in h && Reach(Refs(h), st.start, o)
    ensures Means(h, IgnoreCount(h, st, o))
  {
    TouchMeans(h, st, IgnoreCount(h, st, o), o);
  }

  lemma FlagMeans(h: Heap, st: Search, o: Obj)
    requires Fits(h, st) && Means(h, st) && o in h && Reach(Refs(h), o, st.start)
    ensures Means(h, st.Put(o, st.counters[o].(hasMember := true)))
  {
    TouchMeans(h, st, st.Put(o, st.counters[o].(hasMember := true)), o);
  }

  lemma {:induction false} PropagateMeans(h: Heap, st: Search, o: Obj, n: nat)
    requires Fits(h, st) && Means(h, st) && Chain(h, st.start, st.stack) && o in h && n <= |st.stack|
    requires Reach(Refs(h), st.start, o) && (n > 0 ==> Reach(Refs(h), st.stack[n - 1], st.start))
    ensures Means(h, Propagate(h, st, o, n))
    decreases n
  {
    if n > 0 {
      var a := st.stack[n - 1];
      assert a in st.stack;
      HolderMeans(h, st, a, o);
      var st1 := SetChecked(h, st.Put(a, st.counters[a].(hasMember := true)), a);
      if n > 1 {
        assert Linked(h, st.start, st.stack, n - 1);
        ReachBefore(Refs(h), st.stack[n - 2], a, st.start);
      }
      hide Means, Chain, Reach, Refs, SetChecked, IgnoreCount;
      PropagateMeans(h, st1, o, n - 1);
    }
  }

  lemma HolderMeans(h: Heap, st: Search, a: Obj, o: Obj)
    requires Fits(h, st) && Means(h, st) && o in h && a in st.stack
    requires Reach(Refs(h), st.start, o) && Reach(Refs(h), a, st.start)
    ensures var st1 := SetChecked(h, st.Put(a, st.counters[a].(hasMember := true)), a);
      Means(h, st1) && Means(h, IgnoreCount(h, st1, o).(stopped := true))
  {
    assert ObjMeans(h, st, a);
    FlagMeans(h, st, a);
    var st0 := st.Put(a, st.counters[a].(hasMember := true));
    hide Means;
    SetCheckedMeans(h, st0, a);
    var st1 := SetChecked(h, st0, a);
    IgnoreMeans(h, st1, o);
    MeansStopped(h, IgnoreCount(h, st1, o));
  }

  lemma MeansStopped(h: Heap, st: Search)
    requires Means(h, st)
    ensures Means(h, st.(stopped := true))
  {
    forall p | p in h ensures ObjMeans(h, st.(stopped := true), p) { assert ObjMeans(h, st, p); }
  }

  /** An answer of true means that the object reaches the start object. */
  lemma {:induction false} CountAllMeans(h: Heap, st: Search, s: Slot, o: Obj)
    requires WellFormed(h) && Fits(h, st) && Means(h, st) && Chain(h, st.start, st.stack)
    requires o in h && AtTop(st, s.0) && Refers(h, s.0, o)
    ensures var r := CountAll(h, st, s, o); Means(h, r.st) && (r.ret ==> Reach(Refs(h), o, st.start))
    decreases Fresh(st), 1
  {
    TopIsReached(h, st, s.0);
    ReachAfter(Refs(h), st.start, s.0, o);
    MeansStopped(h, st);
    var n := h[o];
    if n.cyclic && !st.stopped && !(HasStatic(h, o) && st.counters[o].hasMember) {
      if n.constant || HasStatic(h, o) {
        IgnoreMeans(h, st, o);
        assert ObjMeans(h, st, o);
      } else {
        assert ObjMeans(h, st, o);
        VisitMeans(h, st, s, o);
        var r := Visit(h, st, s, o);
        if r.ret {
          ReachBefore(Refs(h), s.0, o, st.start);
          PropagateMeans(h, r.st, o, |r.st.stack|);
        }
      }
    }
  }

  lemma CountedMeans(h: Heap, st: Search, s: Slot, o: Obj)
    requires Fits(h, st) && Means(h, st) && o in h
    ensures Means(h, Counted(st, s, o))
  {
    TouchMeans(h, st, Counted(st, s, o), o);
  }

  lemma EnterMeans(h: Heap, st: Search, s: Slot, o: Obj)
    requires Fits(h, st) && Means(h, st) && Chain(h, st.start, st.stack) && o in h && Reach(Refs(h), st.start, o)
    requires AtTop(st, s.0) && Refers(h, s.0, o)
    ensures var st' := Enter(Counted(st, s, o), o); Means(h, st') && Chain(h, st'.start, st'.stack) && AtTop(st', o)
  {
    var st' := Enter(Counted(st, s, o), o);
    TouchMeans(h, st, st', o);
    forall i: nat | i < |st'.stack| ensures Linked(h, st'.start, st'.stack, i) {
      if i < |st.stack| { assert Linked(h, st.start, st.stack, i); }
    }
  }

  lemma LeaveMeans(h: Heap, st: Search, o: Obj, ret: bool)
    requires Fits(h, st) && Means(h, st) && st.stack != [] && AtTop(st, o)
    requires ret ==> Reach(Refs(h), o, st.start)
    ensures Means(h, Leave(h, st, o, ret))
  {
    assert o in st.stack && ObjMeans(h, st, o);
    TouchMeans(h, st, Leave(h, st, o, ret), o);
  }

  lemma {:induction false} VisitMeans(h: Heap, st: Search, s: Slot, o: Obj)
    requires WellFormed(h) && Fits(h, st) && Means(h, st) && Chain(h, st.start, st.stack)
    requires o in h && AtTop(st, s.0) && Refers(h, s.0, o)
    ensures var r := Visit(h, st, s, o); Means(h, r.st) && (r.ret ==> Reach(Refs(h), o, st.start))
    decreases Fresh(st), 0
  {
    TopIsReached(h, st, s.0);
    ReachAfter(Refs(h), st.start, s.0, o);
    assert ObjMeans(h, st, o);
    CountedMeans(h, st, s, o);
    if o == st.start {
      ReachSelf(Refs(h), o);
    } else if IsFresh(st, o) && !h[o].inDestruction && !h[o].cached && !h[o].deletedInGc {
      var entered := Enter(Counted(st, s, o), o);
      EnterMeans(h, st, s, o);
      assert !IsFresh(entered, o) && IsFresh(st, o);
      CountMembersMeans(h, entered, o);
      var r := CountMembers(h, entered, o);
      LeaveMeans(h, r.st, o, r.ret);
      assert ObjMeans(h, Leave(h, r.st, o, r.ret), o);
    }
  }

  lemma MarkHolderMeans(h: Heap, st: Search, x: Obj)
    requires WellFormed(h) && Fits(h, st) && Means(h, st) && x in h
    ensures Means(h, MarkHolder(h, st, x))
  {
    if StoresStart(h, x, st.start) {
      ReachSelf(Refs(h), st.start);
      ReachBefore(Refs(h), x, st.start, st.start);
      FlagMeans(h, st, x);
    }
  }

  lemma {:induction false} CountMembersMeans(h: Heap, st: Search, x: Obj)
    requires WellFormed(h) && Fits(h, st) && Means(h, st) && Chain(h, st.start, st.stack) && x in h && AtTop(st, x)
    ensures var r := CountMembers(h, st, x); Means(h, r.st) && (r.ret ==> Reach(Refs(h), x, st.start))
    decreases Fresh(st), 4
  {
    var a := Scan(h, st, x, 0, 0, false);
    ScanMeans(h, st, x, 0, 0, false);
    if !a.st.stopped {
      ScanMeans(h, a.st, x, 1, 0, a.ret);
      var b := Scan(h, a.st, x, 1, 0, a.ret);
      if !b.st.stopped {
        MarkHolderMeans(h, b.st, x);
        var b1 := MarkHolder(h, b.st, x);
        ScanMeans(h, b1, x, 2, 0, false);
        var c := Scan(h, b1, x, 2, 0, false);
        ScanMeans(h, c.st, x, 3, 0, c.ret);
      }
    }
  }

  lemma {:induction false} ScanMeans(h: Heap, st: Search, x: Obj, phase: nat, i: nat, ret: bool)
    requires WellFormed(h) && Fits(h, st) && Means(h, st) && Chain(h, st.start, st.stack) && x in h && AtTop(st, x)
    requires phase < 4 && i <= |h[x].members| && (ret ==> Reach(Refs(h), x, st.start))
    ensures var r := Scan(h, st, x, phase, i, ret); Means(h, r.st) && (r.ret ==> Reach(Refs(h), x, st.start))
    decreases Fresh(st), 3, |h[x].members| - i
  {
    hide Means, CountAll, Follow;
    if st.stopped || i == |h[x].members| {
    } else if PhaseOf(h, x, i) != phase {
      ScanMeans(h, st, x, phase, i + 1, ret);
    } else {
      var o := h[x].members[i].target.value;
      assert Refers(h, x, o);
      var r := if phase < 2 then CountAll(h, st, (x, i), o) else Follow(h, st, x, i, o);
      if phase < 2 { CountAllMeans(h, st, (x, i), o); } else { FollowMeans(h, st, x, i, o); }
      if r.ret { ReachBefore(Refs(h), x, o, st.start); }
      ScanMeans(h, r.st, x, phase, i + 1, r.ret || ret);
    }
  }

  lemma {:induction false} FollowMeans(h: Heap, st: Search, x: Obj, i: nat, o: Obj)
    requires WellFormed(h) && Fits(h, st) && Means(h, st) && Chain(h, st.start, st.stack) && x in h && AtTop(st, x)
    requires o in h && Refers(h, x, o)
    ensures var r := Follow(h, st, x, i, o); Means(h, r.st) && (r.ret ==> Reach(Refs(h), o, st.start))
    decreases Fresh(st), 2
  {
    assert ObjMeans(h, st, o);
    if h[o].refCount == h[o].stored || o == st.start {
      CountAllMeans(h, st, (x, i), o);
      var r := CountAll(h, st, (x, i), o);
      assert ObjMeans(h, r.st, o);
      if r.ret {
        TopIsReached(h, st, x);
        ReachAfter(Refs(h), st.start, x, o);
        FlagFollowedMeans(h, r.st, x, o);
      }
    }
  }

  lemma FlagFollowedMeans(h: Heap, st: Search, x: Obj, o: Obj)
    requires Fits(h, st) && Means(h, st) && x in h && o in h
    requires Reach(Refs(h), st.start, o) && Reach(Refs(h), o, st.start)
    ensures Means(h, FlagFollowed(h, st, x, o).st)
  {
    SetCheckedMeans(h, st, o);
    var st1 := SetChecked(h, st, o);
    FlagMeans(h, st1, o);
    var st2 := st1.Put(o, st1.counters[o].(hasMember := true));
    TouchMeans(h, st2, st2.Put(o, st2.counters[o].(ignore := true)).(stopped := true), o);
  }

  // ----- the whole search -----

  lemma SearchedMeans(h: Heap, start: Obj)
    requires WellFormed(h) && start in h
    ensures Means(h, Searched(h, start))
  {
    var st := Begin(h, start);
    forall o | o in h ensures ObjMeans(h, st, o) { }
    CountMembersMeans(h, st, start);
  }

  /** Whatever is destroyed lies on a cycle of references through the start object. */
  lemma CondemnedOnCycle(h: Heap, start: Obj, d: Obj)
    requires WellFormed(h) && start in h && Condemned(h, Searched(h, start), d)
    ensures Reach(Refs(h), start, d) && Reach(Refs(h), d, start)
  {
    SearchedMeans(h, start);
    if d == start { ReachSelf(Refs(h), start); } else { assert ObjMeans(h, Searched(h, start), d); }
  }
}
