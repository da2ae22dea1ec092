/** handleGarbageCollection: the verdict drawn from a search and the destruction that may follow. */
module GcCollect {
  import opened AvmHeap
  import opened GcSearch
  import opened RefCounting

  function Begin(h: Heap, start: Obj): (st: Search)
    requires start in h
    ensures Fits(h, st)
  {
    Search(start, map o | o in h :: ZERO, [], [], false, {})
  }

  /** The search's result for a start object with all counters at zero. */
  function Searched(h: Heap, start: Obj): (st: Search)
    requires WellFormed(h) && start in h
    ensures Fits(h, st) && st.start == start && st.stack == []
  {
    CountMembers(h, Begin(h, start), start).st
  }

  /** An object that reaches back to the start but may not be destroyed with it. */
  predicate Blocks(h: Heap, st: Search, o: Obj)
    requires Fits(h, st) && o in h
  {
    var c := st.counters[o];
    (c.ignore || h[o].constant || c.count != h[o].refCount) && c.hasMember
  }

  predicate Blocked(h: Heap, st: Search)
    requires Fits(h, st)
  {
    exists o :: o in st.checked && Blocks(h, st, o)
  }

  /** A blocking object that waits in the collector's list itself asks for a second look. */
  predicate NeedsNewCheck(h: Heap, st: Search)
    requires Fits(h, st)
  {
    exists o :: o in st.checked && Blocks(h, st, o) && !st.counters[o].ignore && h[o].marked && !h[st.start].deletedInGc
  }

  predicate IsDeletable(h: Heap, st: Search, o: Obj)
    requires Fits(h, st) && o in h
  {
    var c := st.counters[o];
    o != st.start && !c.ignore && c.count == h[o].refCount && c.hasMember
  }

  function Deletable(h: Heap, st: Search, objs: seq<Obj>): (r: seq<Obj>)
    requires Fits(h, st) && forall o :: o in objs ==> o in h
    ensures forall o :: o in r <==> o in objs && IsDeletable(h, st, o)
  {
    if objs == [] then []
    else
      var rest := Deletable(h, st, objs[1..]);
      if IsDeletable(h, st, objs[0]) then [objs[0]] + rest else rest
  }

  predicate Condemns(h: Heap, st: Search)
    requires Fits(h, st)
  {
    !st.stopped && !Blocked(h, st) && st.counters[st.start].count == h[st.start].stored
  }

  // ----- destruction -----

  function SetConstants(h: Heap, ds: seq<Obj>): (h': Heap)
    requires WellFormed(h) && forall d :: d in ds ==> d in h
    ensures WellFormed(h') && h'.Keys == h.Keys
    ensures forall x :: x in h ==> h'[x] == if x in ds then h[x].(constant := true) else h[x]
    decreases |ds|
  {
    if ds == [] then h else SetConstants(h[ds[0] := h[ds[0]].(constant := true)], ds[1..])
  }

  function DestructOne(h: Heap, d: Obj): (h': Heap)
    requires WellFormed(h) && d in h && h[d].constant
    ensures WellFormed(h') && Evolves(h, h', {d})
    ensures h'[d] == h[d].(members := h'[d].members, deletedInGc := true, marked := true, inList := true)
    ensures AllErased(h[d].members, h'[d].members)
  {
    var h1 := h[d := h[d].(deletedInGc := true)];
    assert Evolves(h, h1, {d}) by { assert forall x :: x in h && x != d ==> EvolvesAt(h, h1, x); }
    var h2 := Destruct(h1, d, 0, 0);
    EvolvesTrans(h, h1, h2, {d});
    var h' := h2[d := h2[d].(marked := true, inList := true)];
    assert Evolves(h2, h', {d}) by { assert forall x :: x in h && x != d ==> EvolvesAt(h2, h', x); }
    EvolvesTrans(h, h2, h', {d});
    h'
  }

  function DestructAll(h: Heap, ds: seq<Obj>): (h': Heap)
    requires WellFormed(h) && forall d :: d in ds ==> d in h && h[d].constant
    ensures WellFormed(h') && h'.Keys == h.Keys
    decreases |ds|
  {
    if ds == [] then h
    else
      var h1 := DestructOne(h, ds[0]);
      assert forall d :: d in ds[1..] ==> d in h1 && h1[d].constant by {
        forall d | d in ds[1..] ensures d in h1 && h1[d].constant {
          assert d in ds && (d != ds[0] ==> EvolvesAt(h, h1, d));
        }
      }
      DestructAll(h1, ds[1..])
  }

  function Destroy(h: Heap, ds: seq<Obj>): (h': Heap)
    requires WellFormed(h) && forall d :: d in ds ==> d in h
    ensures WellFormed(h') && h'.Keys == h.Keys
  {
    DestructAll(SetConstants(h, ds), ds)
  }

  /** What the collector's last loop does with each object destroyed: forget its counts, release it. */
  function Finish(h: Heap, ds: seq<Obj>): (h': Heap)
    requires WellFormed(h) && forall d :: d in ds ==> d in h
    ensures WellFormed(h') && h'.Keys == h.Keys
    decreases |ds|
  {
    if ds == [] then h
    else if !h[ds[0]].deletedInGc then Finish(h, ds[1..])
    else
      var d := ds[0];
      var h1 := h[d := h[d].(deletedInGc := false, inList := false, marked := false,
                             refCount := 1, stored := 0, storedStatic := 0, constant := false)];
      Finish(DecRef(h1, d), ds[1..])
  }

  // ----- handleGarbageCollection -----

  datatype Outcome = Outcome(heap: Heap, collected: bool, destroyed: seq<Obj>)

  function Unmark(h: Heap, o: Obj): (h': Heap)
    requires WellFormed(h) && o in h
    ensures WellFormed(h') && h'.Keys == h.Keys
  {
    h[o := h[o].(marked := false)]
  }

  /** The objects a verdict destroys, the start object last. */
  function Sentence(h: Heap, st: Search): (ds: seq<Obj>)
    requires Fits(h, st)
    ensures forall d :: d in ds ==> d in h
  {
    Deletable(h, st, st.checked) + [st.start]
  }

  function Decide(h: Heap, st: Search): (r: Outcome)
    requires WellFormed(h) && Fits(h, st)
    ensures WellFormed(r.heap) && r.heap.Keys == h.Keys
  {
    var o := st.start;
    var h1 := Unmark(h, o);
    if st.stopped then Outcome(DecRef(h1, o), false, [])
    else if NeedsNewCheck(h, st) then Outcome(h1[o := h1[o].(inList := true)], false, [])
    else if Condemns(h, st) then Outcome(Destroy(h1, Sentence(h, st)), true, Sentence(h, st))
    else Outcome(DecRef(h1, o), false, [])
  }

  /** `o` has just been taken off the collector's list, whose reference it still carries. */
  function HandleGarbageCollection(h: Heap, o: Obj): (r: Outcome)
    requires WellFormed(h) && o in h
    ensures WellFormed(r.heap) && r.heap.Keys == h.Keys
  {
    var r := h[o];
    if r.constant || r.cached || r.inDestruction then Outcome(h, false, [])
    else if r.storedStatic != 0 then Outcome(DecRef(Unmark(h, o), o), false, [])
    else if r.stored != 0 && r.cyclic && r.refCount == r.stored + 1 then Decide(h, Searched(h, o))
    else Outcome(DecRef(h, o), false, [])
  }
}
