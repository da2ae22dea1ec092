/** ASObject::handleGarbageCollection in memory. */
module GarbageCollection {
  import opened AvmHeap
  import opened GcSearch
  import opened GcSearchInvariant
  import opened GcTheorems
  import opened Conservation
  import opened Runtime
  import opened Collector
  import R = RefCounting
  import C = GcCollect

  /** Searches from `o`; the counters start, and after Reset end, at zero. */
  method Search(mem: Memory, o: Obj, ghost out: Outside) returns (gc: GarbageCollectorState)
    requires mem.Valid() && Conserved(mem.Heap(), out) && Eligible(mem.Heap(), o)
    ensures fresh(gc) && gc.heap == mem.Heap() && gc.Valid() && gc.View() == C.Searched(mem.Heap(), o)
  {
    hide Inv, HoldersFlagged, CountMembers, WellFormed, Scannable;
    gc := new GarbageCollectorState(mem.Heap(), o);
    BeginSound(mem.Heap(), o);
    var _ := gc.CountMemberReferences(o, out);
  }

  predicate AsksAgain(h: Heap, st: GcSearch.Search, d: Obj)
    requires Fits(h, st) && d in h
  {
    C.Blocks(h, st, d) && !st.counters[d].ignore && h[d].marked && !h[st.start].deletedInGc
  }

  /** The loop over checkedobjects that draws the verdict. */
  method Judge(gc: GarbageCollectorState) returns (blocked: bool, newCheck: bool)
    requires gc.Valid()
    ensures blocked == C.Blocked(gc.heap, gc.View()) && newCheck == C.NeedsNewCheck(gc.heap, gc.View())
  {
    blocked, newCheck := false, false;
    var i := 0;
    while i < |gc.checkedobjects|
      invariant 0 <= i <= |gc.checkedobjects|
      invariant blocked == exists k :: 0 <= k < i && C.Blocks(gc.heap, gc.View(), gc.checkedobjects[k])
      invariant newCheck == exists k :: 0 <= k < i && AsksAgain(gc.heap, gc.View(), gc.checkedobjects[k])
    {
      var d := gc.checkedobjects[i];
      var c, p := gc.gccounters[d], gc.heap[d];
      if (c.ignore || p.constant || c.count != p.refCount) && c.hasMember {
        blocked := true;
        if c.hasMember && !c.ignore && p.marked && !gc.heap[gc.startobj].deletedInGc {
          newCheck := true;
        }
      }
      i := i + 1;
    }
  }

  /** Collects the deletable objects and makes them constant, so that they outlive the destruction. */
  method MarkDeletable(mem: Memory, h: Heap, start: Obj, counters: map<Obj, Counter>, checked: seq<Obj>,
                       ghost st: GcSearch.Search)
    returns (ds: seq<Obj>)
    requires mem.Valid() && WellFormed(mem.Heap()) && mem.Heap().Keys == h.Keys
    requires Fits(h, st) && st.start == start && st.counters == counters && st.checked == checked
    modifies mem.objects.Values
    ensures ds == C.Deletable(h, st, checked)
    ensures mem.Heap() == C.SetConstants(old(mem.Heap()), ds)
  {
    ghost var h1 := mem.Heap();
    ghost var goal := C.Deletable(h, st, checked);
    ds := [];
    var i := 0;
    while i < |checked|
      invariant 0 <= i <= |checked| && (forall d :: d in ds ==> d in h1)
      invariant mem.Heap() == C.SetConstants(h1, ds)
      invariant goal == ds + C.Deletable(h, st, checked[i..])
    {
      var d := checked[i];
      DeletableNext(h, st, checked[i..]);
      assert checked[i..][1..] == checked[i + 1..];
      ghost var before := ds;
      ds := MarkIfDeletable(mem, h, start, counters, d, ds, st, h1);
      Regroup(before, if C.IsDeletable(h, st, d) then [d] else [], C.Deletable(h, st, checked[i + 1..]));
      i := i + 1;
    }
  }

  lemma Regroup<T>(a: seq<T>, b: seq<T>, c: seq<T>)
    ensures a + (b + c) == (a + b) + c
  {
  }

  method MarkIfDeletable(mem: Memory, h: Heap, start: Obj, counters: map<Obj, Counter>, d: Obj, ds: seq<Obj>,
                         ghost st: GcSearch.Search, ghost h1: Heap)
    returns (ds': seq<Obj>)
    requires mem.Valid() && WellFormed(h1) && d in mem.objects && h1.Keys == h.Keys && (forall x :: x in ds ==> x in h1)
    requires Fits(h, st) && st.start == start && st.counters == counters && d in h
    requires mem.Heap() == C.SetConstants(h1, ds)
    modifies mem.objects.Values
    ensures ds' == ds + if C.IsDeletable(h, st, d) then [d] else []
    ensures (forall x :: x in ds' ==> x in h1) && mem.Heap() == C.SetConstants(h1, ds')
  {
    ds' := ds;
    if d != start && !counters[d].ignore && counters[d].count == h[d].refCount && counters[d].hasMember {
      MarkOne(mem, h1, ds, d);
      ds' := ds + [d];
    }
  }

  lemma {:induction false} DeletableNext(h: Heap, st: GcSearch.Search, objs: seq<Obj>)
    requires Fits(h, st) && objs != [] && forall o :: o in objs ==> o in h
    ensures C.Deletable(h, st, objs)
      == (if C.IsDeletable(h, st, objs[0]) then [objs[0]] else []) + C.Deletable(h, st, objs[1..])
  {
  }

  method MarkOne(mem: Memory, ghost h1: Heap, ghost ds: seq<Obj>, d: Obj)
    requires mem.Valid() && WellFormed(h1) && d in h1 && d in mem.objects && forall x :: x in ds ==> x in h1
    requires mem.Heap() == C.SetConstants(h1, ds)
    modifies mem.objects.Values
    ensures mem.Heap() == C.SetConstants(h1, ds + [d])
  {
    mem.SetConstant(d);
    SetConstantsAppend(h1, ds, d);
  }

  lemma {:induction false} SetConstantsAppend(h: Heap, ds: seq<Obj>, d: Obj)
    requires WellFormed(h) && d in h && forall x :: x in ds ==> x in h
    ensures C.SetConstants(h, ds + [d])
      == C.SetConstants(h, ds)[d := C.SetConstants(h, ds)[d].(constant := true)]
  {
    var a := C.SetConstants(h, ds + [d]);
    var b := C.SetConstants(h, ds);
    forall x | x in h ensures a[x] == b[d := b[d].(constant := true)][x] {
      assert x in ds + [d] <==> x in ds || x == d;
    }
  }

  method DestructCollected(mem: Memory, d: Obj)
    requires mem.Valid() && WellFormed(mem.Heap()) && d in mem.objects && mem.Heap()[d].constant
    modifies mem.objects.Values
    ensures mem.Heap() == C.DestructOne(old(mem.Heap()), d)
  {
    mem.SetDeletedInGc(d, true);
    mem.Destruct(d);
    mem.SetListed(d, true, true);
  }

  method DestructAll(mem: Memory, ds: seq<Obj>)
    requires mem.Valid() && WellFormed(mem.Heap())
    requires forall d :: d in ds ==> d in mem.Heap() && mem.Heap()[d].constant
    modifies mem.objects.Values
    ensures mem.Heap() == C.DestructAll(old(mem.Heap()), ds)
  {
    hide C.DestructOne;
    ghost var h := mem.Heap();
    var i := 0;
    while i < |ds|
      invariant 0 <= i <= |ds| && WellFormed(mem.Heap())
      invariant forall d :: d in ds ==> d in mem.Heap() && mem.Heap()[d].constant
      invariant C.DestructAll(h, ds) == C.DestructAll(mem.Heap(), ds[i..])
    {
      ConstantsStay(mem.Heap(), ds, ds[i]);
      assert ds[i..][1..] == ds[i + 1..];
      DestructCollected(mem, ds[i]);
      i := i + 1;
    }
  }

  lemma ConstantsStay(h: Heap, ds: seq<Obj>, d: Obj)
    requires WellFormed(h) && d in ds && forall x :: x in ds ==> x in h && h[x].constant
    ensures forall x :: x in ds ==> x in C.DestructOne(h, d) && C.DestructOne(h, d)[x].constant
  {
    var h1 := C.DestructOne(h, d);
    forall x | x in ds ensures x in h1 && h1[x].constant {
      assert x != d ==> R.EvolvesAt(h, h1, x);
    }
  }

  /** Called for an object just taken off the collector's list, whose reference it still carries. */
  method HandleGarbageCollection(mem: Memory, o: Obj, ghost out: Outside) returns (collected: bool)
    requires mem.Valid() && Conserved(mem.Heap(), out) && o in mem.objects && !mem.Heap()[o].freed
    modifies mem.objects.Values
    ensures var r := C.HandleGarbageCollection(old(mem.Heap()), o); mem.Heap() == r.heap && collected == r.collected
  {
    var p := mem.Heap()[o];
    if p.constant || p.cached || p.inDestruction { return false; }
    if p.storedStatic != 0 {
      mem.SetListed(o, p.inList, false);
      mem.DecRef(o);
      return false;
    }
    if p.stored != 0 && p.cyclic && p.refCount == p.stored + 1 {
      assert Balanced(mem.Heap(), out, o);
      collected := SearchAndDecide(mem, o, out);
    } else {
      mem.DecRef(o);
      collected := false;
    }
  }

  /** Whatever the outcome, every counter is back at zero. */
  method SearchAndDecide(mem: Memory, o: Obj, ghost out: Outside) returns (collected: bool)
    requires mem.Valid() && Conserved(mem.Heap(), out) && Eligible(mem.Heap(), o)
    modifies mem.objects.Values
    ensures var r := C.Decide(old(mem.Heap()), C.Searched(old(mem.Heap()), o));
      mem.Heap() == r.heap && collected == r.collected
  {
    ghost var h := mem.Heap();
    var gc := Search(mem, o, out);
    Unmark(mem, o);
    collected := Decide(mem, o, gc);
    assert forall x :: x in h ==> gc.View().counters[x] == ZERO by {
      forall x | x in h ensures x in gc.View().counters && gc.View().counters[x] == ZERO { ResetClearsAll(h, o, x); }
    }
  }

  method Unmark(mem: Memory, o: Obj)
    requires mem.Valid() && WellFormed(mem.Heap()) && o in mem.objects
    modifies mem.objects.Values
    ensures mem.Heap() == C.Unmark(old(mem.Heap()), o)
  {
    var p := mem.Heap()[o];
    mem.SetListed(o, p.inList, false);
  }

  method Decide(mem: Memory, o: Obj, gc: GarbageCollectorState) returns (collected: bool)
    requires mem.Valid() && gc.Valid() && gc.startobj == o && mem.Heap() == C.Unmark(gc.heap, o)
    modifies mem.objects.Values, gc
    ensures var r := C.Decide(gc.heap, old(gc.View())); mem.Heap() == r.heap && collected == r.collected
    ensures gc.View() == Reset(old(gc.View()))
  {
    hide Reset, C.Unmark, R.DecRef, C.Destroy, C.Sentence, C.Blocked, C.NeedsNewCheck;
    if gc.stopped {
      Spare(mem, o, gc);
      return false;
    }
    var blocked, newCheck := Judge(gc);
    collected := Act(mem, o, gc, blocked, newCheck);
  }

  method Act(mem: Memory, o: Obj, gc: GarbageCollectorState, blocked: bool, newCheck: bool) returns (collected: bool)
    requires mem.Valid() && gc.Valid() && gc.startobj == o && mem.Heap() == C.Unmark(gc.heap, o) && !gc.stopped
    requires blocked == C.Blocked(gc.heap, gc.View()) && newCheck == C.NeedsNewCheck(gc.heap, gc.View())
    modifies mem.objects.Values, gc
    ensures var r := C.Decide(gc.heap, old(gc.View())); mem.Heap() == r.heap && collected == r.collected
    ensures gc.View() == Reset(old(gc.View()))
  {
    hide Reset, C.Unmark, R.DecRef, C.Destroy, C.Sentence, C.Blocked, C.NeedsNewCheck;
    var c := gc.gccounters[o].count;
    if newCheck {
      ListAgain(mem, o);
      gc.Reset();
      return false;
    }
    if !blocked && c == gc.heap[o].stored {
      Condemn(mem, o, gc);
      return true;
    }
    Spare(mem, o, gc);
    collected := false;
  }

  method Spare(mem: Memory, o: Obj, gc: GarbageCollectorState)
    requires mem.Valid() && gc.Valid() && WellFormed(mem.Heap()) && o in mem.objects
    modifies mem.objects.Values, gc
    ensures mem.Heap() == R.DecRef(old(mem.Heap()), o) && gc.View() == Reset(old(gc.View()))
  {
    gc.Reset();
    mem.DecRef(o);
  }

  /** addObjectToGarbageCollector without the mark. */
  method ListAgain(mem: Memory, o: Obj)
    requires mem.Valid() && o in mem.objects
    modifies mem.objects.Values
    ensures mem.Heap() == old(mem.Heap())[o := old(mem.Heap())[o].(inList := true)]
  {
    var p := mem.Heap()[o];
    mem.SetListed(o, true, p.marked);
  }

  method Condemn(mem: Memory, o: Obj, gc: GarbageCollectorState)
    requires mem.Valid() && gc.Valid() && gc.startobj == o && WellFormed(mem.Heap()) && mem.Heap().Keys == gc.heap.Keys
    modifies mem.objects.Values, gc
    ensures mem.Heap() == C.Destroy(old(mem.Heap()), C.Sentence(gc.heap, old(gc.View())))
    ensures gc.View() == Reset(old(gc.View()))
  {
    hide Reset, C.Destroy, C.SetConstants, C.Deletable;
    ghost var h1 := mem.Heap();
    ghost var st := gc.View();
    var ds := MarkDeletable(mem, gc.heap, o, gc.gccounters, gc.checkedobjects, st);
    ghost var h2 := mem.Heap();
    gc.Reset();
    assert mem.Heap() == h2 && C.Sentence(gc.heap, st) == ds + [o];
    DestructMarked(mem, h1, ds, o);
  }

  /** Marks the start object as the others are, and destroys them all, the start object last. */
  method DestructMarked(mem: Memory, ghost h1: Heap, ds: seq<Obj>, o: Obj)
    requires mem.Valid() && WellFormed(h1) && o in h1 && o in mem.objects && forall d :: d in ds ==> d in h1
    requires mem.Heap() == C.SetConstants(h1, ds)
    modifies mem.objects.Values
    ensures mem.Heap() == C.Destroy(h1, ds + [o])
  {
    hide C.SetConstants, C.DestructAll;
    MarkOne(mem, h1, ds, o);
    DestructAll(mem, ds + [o]);
  }
}
