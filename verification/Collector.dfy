/** The collector's search as it runs, updating its counters, lists and stop flag in place. */
module Collector {
  import opened Wrappers
  import opened AvmHeap
  import opened GcSearch
  import opened GcSearchInvariant
  import opened GcSearchProof
  import GcCollect
  import opened GcTheorems
  import opened Conservation

  /** One entry of an owned-object or watcher pass. */
  lemma ScanEntry(h: Heap, st: Search, x: Obj, phase: nat, i: nat, was: bool)
    requires WellFormed(h) && Fits(h, st) && x in h && i < |h[x].members| && phase < 2 && PhaseOf(h, x, i) == phase
    ensures var r := CountAll(h, st, (x, i), h[x].members[i].target.value);
      st.stopped || Scan(h, st, x, phase, i, was)
        == (if r.st.stopped then Step(r.st, false) else Scan(h, r.st, x, phase, i + 1, r.ret || was))
  {
  }

  /** The ends and the steps of a scan. */
  lemma ScanNext(h: Heap, st: Search, x: Obj, phase: nat, i: nat, was: bool)
    requires WellFormed(h) && Fits(h, st) && x in h && i <= |h[x].members| && 2 <= phase < 4
    ensures i == |h[x].members| && !st.stopped ==> Scan(h, st, x, phase, i, was) == Step(st, was)
    ensures i < |h[x].members| && !st.stopped && PhaseOf(h, x, i) != phase ==>
      Scan(h, st, x, phase, i, was) == Scan(h, st, x, phase, i + 1, was)
    ensures i < |h[x].members| && !st.stopped && PhaseOf(h, x, i) == phase ==>
      var r := Follow(h, st, x, i, h[x].members[i].target.value);
      Scan(h, st, x, phase, i, was) == if r.st.stopped then Step(r.st, false) else Scan(h, r.st, x, phase, i + 1, r.ret || was)
  {
  }

  lemma {:induction false} PropagateNone(h: Heap, st: Search, o: Obj)
    requires Fits(h, st) && o in h
    ensures GcSearch.Propagate(h, st, o, 0) == st
  {
  }

  class GarbageCollectorState {
    /** The objects' own fields, which the search only reads. */
    const heap: Heap
    const startobj: Obj
    /** The gccounter of every object. */
    var gccounters: map<Obj, Counter>
    var checkedobjects: seq<Obj>
    var objectstack: seq<Obj>
    var stopped: bool
    /** The slots counted so far. */
    ghost var ledger: set<Slot>

    constructor (heap: Heap, startobj: Obj)
      requires startobj in heap
      ensures this.heap == heap && View() == GcCollect.Begin(heap, startobj)
    {
      this.heap := heap;
      this.startobj := startobj;
      gccounters := map o | o in heap :: ZERO;
      checkedobjects, objectstack, stopped := [], [], false;
      ledger := {};
    }

    ghost function View(): Search
      reads this
    {
      Search(startobj, gccounters, checkedobjects, objectstack, stopped, ledger)
    }

    ghost predicate Valid()
      reads this
    {
      WellFormed(heap) && Fits(heap, View())
    }

    method SetChecked(o: Obj)
      requires Valid() && o in heap
      modifies this
      ensures View() == GcSearch.SetChecked(heap, old(View()), o)
    {
      if o != startobj && !gccounters[o].isChecked {
        checkedobjects := checkedobjects + [o];
        gccounters := gccounters[o := gccounters[o].(isChecked := true)];
      }
    }

    method IgnoreCount(o: Obj)
      requires Valid() && o in heap
      modifies this
      ensures View() == GcSearch.IgnoreCount(heap, old(View()), o)
    {
      SetChecked(o);
      gccounters := gccounters[o := gccounters[o].(ignore := true)];
      if gccounters[o].hasMember {
        stopped := true;
      }
    }

    /** Every counter the search touched goes back to zero. */
    method Reset()
      requires Valid()
      modifies this
      ensures View() == GcSearch.Reset(old(View()))
    {
      ghost var st := View();
      gccounters := gccounters[startobj := ZERO];
      var i := 0;
      while i < |checkedobjects|
        invariant 0 <= i <= |checkedobjects| && View() == st.(counters := gccounters)
        invariant GcSearch.Reset(st).counters == ResetAll(gccounters, checkedobjects[i..])
      {
        assert checkedobjects[i..][1..] == checkedobjects[i + 1..];
        gccounters := gccounters[checkedobjects[i] := ZERO];
        i := i + 1;
      }
    }

    method Propagate(o: Obj)
      requires Valid() && o in heap
      modifies this
      ensures View() == GcSearch.Propagate(heap, old(View()), o, |old(objectstack)|)
    {
      hide GcSearch.Propagate;
      ghost var goal := GcSearch.Propagate(heap, View(), o, |objectstack|);
      var n := |objectstack|;
      while n > 0
        invariant 0 <= n <= |objectstack| && objectstack == old(objectstack) && Valid()
        invariant goal == GcSearch.Propagate(heap, View(), o, n)
      {
        var done := FlagHolder(o, n);
        if done { return; }
        n := n - 1;
      }
      PropagateNone(heap, View(), o);
    }

    /** The n-th object from the bottom of the stack reaches the start object through `o`. */
    method FlagHolder(o: Obj, n: nat) returns (done: bool)
      requires Valid() && o in heap && 0 < n <= |objectstack|
      modifies this
      ensures Valid() && objectstack == old(objectstack)
      ensures GcSearch.Propagate(heap, old(View()), o, n)
        == if done then View() else GcSearch.Propagate(heap, View(), o, n - 1)
    {
      var a := objectstack[n - 1];
      assert a in View().stack;
      if gccounters[a].hasMember || heap[a].deletedInGc { return true; }
      Flag(a);
      if heap[a].storedStatic != 0 || heap[a].constant {
        IgnoreCount(o);
        stopped := true;
        return true;
      }
      done := false;
    }

    method Flag(a: Obj)
      requires Valid() && a in heap
      modifies this
      ensures Valid() && objectstack == old(objectstack)
      ensures View() == GcSearch.SetChecked(heap, old(View()).Put(a, old(View()).counters[a].(hasMember := true)), a)
    {
      gccounters := gccounters[a := gccounters[a].(hasMember := true)];
      SetChecked(a);
    }

    // ----- the search -----

    /** The search may count the references of a heap whose counts are exact. */
    ghost predicate Ready(out: Outside)
      reads this
    {
      Valid() && Conserved(heap, out) && Inv(heap, View()) && HoldersFlagged(heap, View(), {})
    }

    method CountAllCyclicMemberReferences(ghost s: Slot, o: Obj, ghost out: Outside) returns (ret: bool)
      requires Ready(out) && o in heap && Followed(heap, startobj, s, o) && s !in ledger && AtTop(View(), s.0)
      modifies this
      ensures Valid() && Step(View(), ret) == CountAll(heap, old(View()), s, o)
      decreases Fresh(View()), 2
    {
      var p := heap[o];
      if !p.cyclic { return false; }
      if p.storedStatic != 0 && gccounters[o].hasMember {
        stopped := true;
      }
      if stopped { return false; }
      if p.constant || p.storedStatic != 0 {
        IgnoreCount(o);
      }
      if gccounters[o].ignore { return gccounters[o].hasMember; }
      ret := Visit(s, o, out);
      if ret {
        Propagate(o);
      }
    }

    method Count(ghost s: Slot, o: Obj, ghost out: Outside)
      requires Valid() && Conserved(heap, out) && Inv(heap, View()) && o in heap
      requires Followed(heap, startobj, s, o) && s !in ledger && Scannable(heap, o)
      modifies this
      ensures View() == Counted(old(View()), s, o)
      ensures old(gccounters[o].count) < heap[o].refCount
    {
      var p := heap[o];
      assert s in Slots(heap, o) && Balanced(heap, out, o);
      CountBelowRefCount(heap, out, View(), s, o);
      assert gccounters[o].count < p.refCount;
      gccounters := gccounters[o := gccounters[o].(count := gccounters[o].count + 1)];
      ledger := ledger + {s};
    }

    /** Counts the reference and, on a first visit, searches the object's own members. */
    method Visit(ghost s: Slot, o: Obj, ghost out: Outside) returns (ret: bool)
      requires Ready(out) && o in heap && Followed(heap, startobj, s, o) && s !in ledger && AtTop(View(), s.0)
      requires heap[o].cyclic && !heap[o].constant && !HasStatic(heap, o)
      modifies this
      ensures Valid() && Step(View(), ret) == GcSearch.Visit(heap, old(View()), s, o)
      decreases Fresh(View()), 1
    {
      assert Sound(heap, View(), o);
      if o == startobj {
        Count(s, o, out);
        return true;
      }
      if gccounters[o].inChecking {
        Count(s, o, out);
        return gccounters[o].hasMember;
      }
      if heap[o].inDestruction || heap[o].cached || heap[o].deletedInGc { return gccounters[o].hasMember; }
      if gccounters[o].isChecked {
        Count(s, o, out);
        return gccounters[o].hasMember;
      }
      ret := EnterFresh(s, o, out);
    }

    /** A counted object that is new to the search stays on the stack while its members are counted. */
    method EnterFresh(ghost s: Slot, o: Obj, ghost out: Outside) returns (ret: bool)
      requires Ready(out) && o in heap && Followed(heap, startobj, s, o) && s !in ledger && AtTop(View(), s.0)
      requires Scannable(heap, o) && IsFresh(View(), o) && o != startobj
      modifies this
      ensures Valid()
      ensures var r := CountMembers(heap, Enter(Counted(old(View()), s, o), o), o);
        View() == Leave(heap, r.st, o, r.ret) && ret == View().counters[o].hasMember
      decreases Fresh(View()), 0
    {
      ghost var st := View();
      assert Visited(st, s.0) by { assert Sound(heap, st, s.0); }
      EnterKeeps(heap, st, s, o);
      EnterGrows(heap, st, s, o);
      Count(s, o, out);
      gccounters := gccounters[o := gccounters[o].(inChecking := true)];
      objectstack := objectstack + [o];
      assert View() == Enter(Counted(st, s, o), o);
      assert !IsFresh(View(), o) && IsFresh(st, o);
      ret := CountMemberReferences(o, out);
      LeaveStack(o, ret);
      ret := gccounters[o].hasMember;
    }

    method LeaveStack(o: Obj, ret: bool)
      requires Valid() && o in heap && objectstack != []
      modifies this
      ensures Valid() && View() == Leave(heap, old(View()), o, ret)
    {
      objectstack := objectstack[..|objectstack| - 1];
      gccounters := gccounters[o := gccounters[o].(hasMember := gccounters[o].hasMember || ret, inChecking := false)];
      SetChecked(o);
    }

    /** ASObject::countCylicMemberReferences */
    method CountMemberReferences(x: Obj, ghost out: Outside) returns (ret: bool)
      requires Ready(out) && x in heap && AtTop(View(), x) && MemberSlots(heap, x) !! ledger
      modifies this
      ensures Valid() && Step(View(), ret) == CountMembers(heap, old(View()), x)
      decreases Fresh(View()), 7
    {
      ghost var st := View();
      Reflexive(heap, st);
      PassKeeps(heap, st, st, x, 0, false);
      NextPassDisjoint(heap, st, st, x, 0);
      ret := CountContainer(x, Owned, 0, false, out);
      if stopped { return false; }
      ghost var ret0 := ret;
      PassKeeps(heap, st, View(), x, 1, ret);
      NextPassDisjoint(heap, st, View(), x, 1);
      ret := CountContainer(x, Watcher, 1, ret, out);
      if stopped { return false; }
      var r := CountVariables(x, st, out);
      ret := r || ret;
    }

    /** The loop over the owned objects, or the one over the watchers. */
    method CountContainer(x: Obj, kind: Kind, ghost phase: nat, was: bool, ghost out: Outside) returns (ret: bool)
      requires Ready(out) && x in heap && AtTop(View(), x) && phase < 2 && kind == (if phase == 0 then Owned else Watcher)
      requires PhaseSlots(heap, x, phase, 0) !! ledger
      modifies this
      ensures Ready(out) && objectstack == old(objectstack)
      ensures Step(View(), !stopped && ret) == Scan(heap, old(View()), x, phase, 0, was)
      decreases Fresh(View()), 5
    {
      ghost var goal := Scan(heap, View(), x, phase, 0, was);
      ret := was;
      var i := 0;
      while i < |heap[x].members|
        invariant 0 <= i <= |heap[x].members|
        invariant Ready(out) && objectstack == old(objectstack) && PhaseSlots(heap, x, phase, i) !! ledger
        invariant Fresh(View()) <= old(Fresh(View()))
        invariant goal == Resumed(View(), x, phase, i, ret)
      {
        ret := CountIfContained(x, kind, phase, i, ret, out);
        i := i + 1;
      }
    }

    method CountIfContained(x: Obj, kind: Kind, ghost phase: nat, i: nat, was: bool, ghost out: Outside)
      returns (ret: bool)
      requires Ready(out) && x in heap && AtTop(View(), x) && phase < 2 && kind == (if phase == 0 then Owned else Watcher)
      requires i < |heap[x].members| && PhaseSlots(heap, x, phase, i) !! ledger
      modifies this
      ensures Ready(out) && objectstack == old(objectstack) && PhaseSlots(heap, x, phase, i + 1) !! ledger
      ensures Fresh(View()) <= old(Fresh(View()))
      ensures old(stopped) ==> View() == old(View())
      ensures !old(stopped) ==> Scan(heap, old(View()), x, phase, i, was) == Resumed(View(), x, phase, i + 1, ret)
      decreases Fresh(View()), 4
    {
      ret := was;
      if InContainer(x, i, kind) {
        ScanEntry(heap, View(), x, phase, i, was);
        var r := CountEntry(x, i, phase, out);
        ret := r || was;
      }
    }

    ghost function Resumed(st: Search, x: Obj, phase: nat, i: nat, ret: bool): Step
      requires WellFormed(heap) && Fits(heap, st) && x in heap && phase < 4 && i <= |heap[x].members|
    {
      if st.stopped then Step(st, false) else Scan(heap, st, x, phase, i, ret)
    }

    predicate InContainer(x: Obj, i: nat, kind: Kind)
      requires WellFormed(heap) && x in heap && i < |heap[x].members| && (kind == Owned || kind == Watcher)
      ensures InContainer(x, i, kind) <==> PhaseOf(heap, x, i) == (if kind == Owned then 0 else 1)
    {
      heap[x].members[i].kind == kind && heap[x].members[i].target.Some?
    }

    method CountEntry(x: Obj, i: nat, ghost phase: nat, ghost out: Outside) returns (ret: bool)
      requires Ready(out) && x in heap && AtTop(View(), x) && i < |heap[x].members|
      requires phase < 2 && PhaseOf(heap, x, i) == phase && PhaseSlots(heap, x, phase, i) !! ledger
      modifies this
      ensures Ready(out) && objectstack == old(objectstack) && PhaseSlots(heap, x, phase, i + 1) !! ledger
      ensures Fresh(View()) <= old(Fresh(View()))
      ensures Step(View(), ret) == CountAll(heap, old(View()), (x, i), heap[x].members[i].target.value)
      ensures old(stopped) ==> View() == old(View())
      decreases Fresh(View()), 3
    {
      var o := heap[x].members[i].target.value;
      assert (x, i) in PhaseSlots(heap, x, phase, i) && Holds(heap, (x, i), o);
      CountAllKeeps(heap, View(), (x, i), o);
      ret := CountAllCyclicMemberReferences((x, i), o, out);
      RestDisjoint(heap, old(View()), View(), x, phase, i);
    }

    /** variables_map::countCylicMemberReferences: step 0 flags a holder of the start object, step 1
        follows the variables whose object is also stored statically, step 2 the others. */
    method CountVariables(x: Obj, ghost entry: Search, ghost out: Outside) returns (ret: bool)
      requires Ready(out) && x in heap && AtTop(View(), x) && !stopped
      requires Inv(heap, entry) && AtTop(entry, x) && Shrinks(heap, entry, View())
      requires Kept(heap, entry, View(), Before(heap, x, 2)) && MemberSlots(heap, x) !! entry.ledger
      modifies this
      ensures Valid()
      ensures var c := Scan(heap, MarkHolder(heap, old(View()), x), x, 2, 0, false);
        Step(View(), ret) == Scan(heap, c.st, x, 3, 0, c.ret)
      decreases Fresh(View()), 6
    {
      FlagIfHolder(x);
      MarkHolderKeeps(heap, entry, old(View()), x);
      NextPassDisjoint(heap, entry, View(), x, 2);
      ghost var b1 := View();
      ret := CountStep(x, 1, false, out);
      PassKeeps(heap, entry, b1, x, 2, false);
      if stopped { return false; }
      NextPassDisjoint(heap, entry, View(), x, 3);
      ret := CountStep(x, 2, ret, out);
    }

    method FlagIfHolder(x: Obj)
      requires Valid() && x in heap
      modifies this
      ensures Valid() && View() == MarkHolder(heap, old(View()), x)
    {
      var i := 0;
      while i < |heap[x].members|
        invariant 0 <= i <= |heap[x].members| && View() == old(View())
        invariant !heap[startobj].cached && !heap[startobj].inDestruction ==>
          (forall k :: 0 <= k < i && heap[x].members[k].kind == Property ==> heap[x].members[k].target != Some(startobj))
      {
        var m := heap[x].members[i];
        if m.kind == Property && m.target.Some? && !heap[m.target.value].cached && !heap[m.target.value].inDestruction
          && m.target.value == startobj {
          gccounters := gccounters[x := gccounters[x].(hasMember := true)];
          return;
        }
        i := i + 1;
      }
    }

    method CountStep(x: Obj, step: nat, was: bool, ghost out: Outside) returns (ret: bool)
      requires Ready(out) && x in heap && AtTop(View(), x) && 1 <= step <= 2 && !stopped
      requires PhaseSlots(heap, x, step + 1, 0) !! ledger
      modifies this
      ensures Ready(out) && objectstack == old(objectstack)
      ensures Step(View(), ret) == Scan(heap, old(View()), x, step + 1, 0, was)
      decreases Fresh(View()), 4
    {
      hide Scan, Follow, Inv, Fits, WellFormed;
      ghost var st := View();
      ret := was;
      var i := 0;
      while i < |heap[x].members|
        invariant 0 <= i <= |heap[x].members| && !stopped
        invariant Ready(out) && objectstack == old(objectstack) && PhaseSlots(heap, x, step + 1, i) !! ledger
        invariant Fresh(View()) <= Fresh(st)
        invariant Scan(heap, st, x, step + 1, 0, was) == Scan(heap, View(), x, step + 1, i, ret)
      {
        ScanNext(heap, View(), x, step + 1, i, ret);
        if InStep(x, i, step) {
          var r := CountVariable(x, i, step + 1, out);
          if stopped { return false; }
          ret := r || ret;
        }
        i := i + 1;
      }
      ScanNext(heap, View(), x, step + 1, i, ret);
    }

    /** Step 1 takes the variables whose object is stored statically, step 2 the others. */
    predicate InStep(x: Obj, i: nat, step: nat)
      requires WellFormed(heap) && x in heap && i < |heap[x].members| && 1 <= step <= 2
      ensures InStep(x, i, step) <==> PhaseOf(heap, x, i) == step + 1
    {
      var m := heap[x].members[i];
      m.kind == Property && m.target.Some? &&
      var n := heap[m.target.value];
      && !n.cached && !n.inDestruction && (n.storedStatic != 0) == (step == 1)
      && m.counted && n.cyclic && !n.deletedInGc
    }

    method CountVariable(x: Obj, i: nat, ghost phase: nat, ghost out: Outside) returns (ret: bool)
      requires Ready(out) && x in heap && AtTop(View(), x) && i < |heap[x].members|
      requires 2 <= phase < 4 && PhaseOf(heap, x, i) == phase && PhaseSlots(heap, x, phase, i) !! ledger
      modifies this
      ensures Ready(out) && objectstack == old(objectstack) && PhaseSlots(heap, x, phase, i + 1) !! ledger
      ensures Fresh(View()) <= old(Fresh(View()))
      ensures Step(View(), ret) == Follow(heap, old(View()), x, i, heap[x].members[i].target.value)
      decreases Fresh(View()), 3
    {
      ghost var st := View();
      var o := heap[x].members[i].target.value;
      assert (x, i) in PhaseSlots(heap, x, phase, i) && Holds(heap, (x, i), o);
      FollowKeeps(heap, st, x, i, o);
      RestDisjoint(heap, st, Follow(heap, st, x, i, o).st, x, phase, i);
      if heap[o].refCount != heap[o].stored && o != startobj { return gccounters[o].hasMember; }
      var r := CountAllCyclicMemberReferences((x, i), o, out);
      if !r { return gccounters[o].hasMember; }
      ret := FlagFollowed(x, o);
    }

    method FlagFollowed(x: Obj, o: Obj) returns (ret: bool)
      requires Valid() && x in heap && o in heap
      modifies this
      ensures Valid() && Step(View(), ret) == GcSearch.FlagFollowed(heap, old(View()), x, o)
    {
      SetChecked(o);
      gccounters := gccounters[o := gccounters[o].(hasMember := true)];
      if !gccounters[o].ignore && gccounters[x].ignore {
        gccounters := gccounters[o := gccounters[o].(ignore := true)];
        stopped := true;
        return false;
      }
      ret := true;
    }
  }
}
