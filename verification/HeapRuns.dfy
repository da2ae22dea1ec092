/** Whole runs of the reference-counted heap, collections included, starting from nothing. */
module HeapRuns {
  import opened Wrappers
  import opened AvmHeap
  import opened RefCounting
  import opened Conservation
  import opened HeapOperations
  import opened GcCollect
  import opened GcAftermath

  datatype World = World(heap: Heap, outside: Outside)

  /** What the interpreter and native code do to objects and variables, static ones included, and what
      the worker does to its collector list: take an object off it and try to collect it; delete what was
      collected. */
  datatype Op =
    | New(o: Obj, cyclic: bool)
    | NewVar(o: Obj)
    | Hold(o: Obj)
    | Release(o: Obj)
    | ReleaseChecked(o: Obj)
    | Assign(o: Obj, k: nat, v: Option<Obj>, counted: bool)
    | AssignNoCoerce(o: Obj, k: nat, v: Option<Obj>)
    | Delete(o: Obj, k: nat)
    | MakeConstant(o: Obj)
    | CountStatic(o: Obj, n: int)
    | Collect(o: Obj)
    | Bury(ds: seq<Obj>)

  predicate IsVar(h: Heap, o: Obj, k: nat) {
    o in h && k < |h[o].members| && h[o].members[k].kind == Property
  }

  predicate HeldOrNone(w: World, v: Option<Obj>) { v.Some? ==> Held(w.heap, w.outside, v.value) }

  /** The caller's side of the bargain: whoever releases or stores a reference has one, whoever
      writes a variable holds its object, and nobody names an object already freed. The worker collects
      between operations, and deletes what it collected once nothing stores it. A variable that is
      deleted has counted its value, unless that is never released. */
  ghost predicate Allowed(w: World, op: Op) {
    match op
    case New(o, _) => o !in w.heap
    case NewVar(o) => o in w.heap && !w.heap[o].freed
    case Hold(o) => o in w.heap && !w.heap[o].freed && !w.heap[o].inDestruction
    case Release(o) => o in w.heap && o in w.outside && w.outside[o] >= 1
    case ReleaseChecked(o) => o in w.heap && o in w.outside && w.outside[o] >= 1
    case Assign(o, k, v, counted) =>
      IsVar(w.heap, o, k) && Held(w.heap, w.outside, o)
      && (v.Some? ==> v.value in w.heap) && (counted ==> HeldOrNone(w, v))
    case AssignNoCoerce(o, k, v) => IsVar(w.heap, o, k) && Held(w.heap, w.outside, o) && HeldOrNone(w, v)
    case Delete(o, k) => IsVar(w.heap, o, k) && DeletableVar(w.heap, w.heap[o].members[k])
    case MakeConstant(o) => o in w.heap && !w.heap[o].freed && !w.heap[o].inDestruction
    case CountStatic(o, _) => o in w.heap && !w.heap[o].freed
    case Collect(o) => o in w.heap && w.heap[o].inList && !w.heap[o].deletedInGc
    case Bury(ds) => forall d :: d in ds ==> Doomed(w.heap, d) && Slots(w.heap, d) == {}
  }

  /** The list's reference passes to the worker that takes the object off. */
  function Unlist(h: Heap, o: Obj): (h': Heap)
    requires WellFormed(h) && o in h
    ensures WellFormed(h') && h'.Keys == h.Keys
  {
    h[o := h[o].(inList := false, marked := false)]
  }

  function Created(h: Heap, o: Obj, cyclic: bool): (h': Heap)
    requires WellFormed(h) && o !in h
    ensures WellFormed(h') && h'.Keys == h.Keys + {o}
  {
    h[o := Rec(1, 0, 0, false, false, false, false, false, false, cyclic, false, [])]
  }

  /** One more variable, which holds nothing yet. */
  function Widened(h: Heap, o: Obj): (h': Heap)
    requires WellFormed(h) && o in h
    ensures WellFormed(h') && h'.Keys == h.Keys
  {
    h[o := h[o].(members := h[o].members + [NO_VALUE])]
  }

  /** Nothing is counted any more. */
  function SetRefConstant(h: Heap, o: Obj): (h': Heap)
    requires WellFormed(h) && o in h
    ensures WellFormed(h') && h'.Keys == h.Keys
  {
    h[o := h[o].(refCount := 1, stored := 0, storedStatic := 0, constant := true)]
  }

  ghost predicate Good(w: World) { Conserved(w.heap, w.outside) }

  ghost predicate Typed(w: World) { WellFormed(w.heap) && w.outside.Keys == w.heap.Keys }

  function HeapAfter(w: World, op: Op): (h': Heap)
    requires Typed(w) && Allowed(w, op)
    ensures WellFormed(h') && h'.Keys == if op.New? then w.heap.Keys + {op.o} else w.heap.Keys
  {
    var h := w.heap;
    match op
    case New(o, cyclic) => Created(h, o, cyclic)
    case NewVar(o) => Widened(h, o)
    case Hold(o) => IncRef(h, o)
    case Release(o) => DecRef(h, o)
    case ReleaseChecked(o) => DecRefAndGCCheck(h, o)
    case Assign(o, k, v, counted) => SetVar(h, o, k, v, counted)
    case AssignNoCoerce(o, k, v) => SetVarNoCoerce(h, o, k, v)
    case Delete(o, k) => DeleteVar(h, o, k)
    case MakeConstant(o) => SetRefConstant(h, o)
    case CountStatic(o, n) => h[o := h[o].(storedStatic := n)]
    case Collect(o) => HandleGarbageCollection(Unlist(h, o), o).heap
    case Bury(ds) => Finish(h, ds)
  }

  /** The objects of a collection go back to the list, and with them the start object's reference. */
  function OutsideAfter(w: World, op: Op): (out': Outside)
    requires Typed(w) && Allowed(w, op)
    ensures out'.Keys == if op.New? then w.heap.Keys + {op.o} else w.heap.Keys
  {
    var out := w.outside;
    match op
    case New(o, _) => out[o := 1]
    case Hold(o) => out[o := out[o] + 1]
    case Release(o) => out[o := out[o] - 1]
    case ReleaseChecked(o) => out[o := out[o] - 1]
    case Assign(_, _, v, counted) => if v.Some? && counted then Spent(out, v.value) else out
    case Collect(o) =>
      if HandleGarbageCollection(Unlist(w.heap, o), o).collected then out[o := out[o] + 1] else out
    case Bury(ds) => Forgotten(out, ds)
    case _ => out
  }

  function Apply(w: World, op: Op): (w': World)
    requires Typed(w) && Allowed(w, op)
    ensures Typed(w')
  {
    World(HeapAfter(w, op), OutsideAfter(w, op))
  }

  lemma StepKeeps(w: World, op: Op)
    requires Good(w) && Allowed(w, op)
    ensures Good(Apply(w, op))
  {
    hide IncRef, DecRef, DecRefAndGCCheck, SetVar, SetVarNoCoerce, DeleteVar, Unlist, HandleGarbageCollection, Finish;
    var h, out := w.heap, w.outside;
    match op
    case New(o, cyclic) => NewKeeps(h, out, o, cyclic);
    case NewVar(o) => NewVarKeeps(h, out, o);
    case Hold(o) => IncRefKeeps(h, out, o);
    case Release(o) => DecRefKeeps(h, out, o);
    case ReleaseChecked(o) => DecRefAndGCCheckKeeps(h, out, o);
    case Assign(o, k, v, counted) => SetVarKeeps(h, out, o, k, v, counted);
    case AssignNoCoerce(o, k, v) => SetVarNoCoerceKeeps(h, out, o, k, v);
    case Delete(o, k) => DeleteVarKeeps(h, out, o, k);
    case MakeConstant(o) => ConstantKeeps(h, out, o, SetRefConstant(h, o)[o]);
    case CountStatic(o, n) => CountStaticKeeps(h, out, o, n);
    case Collect(o) => CollectKeeps(h, out, o);
    case Bury(ds) => BuryKeeps(h, out, ds);
  }

  /** The count of static members bears on when an object is collected, and on nothing else. */
  lemma CountStaticKeeps(h: Heap, out: Outside, o: Obj, n: int)
    requires Conserved(h, out) && o in h && !h[o].freed
    ensures Conserved(h[o := h[o].(storedStatic := n)], out)
  {
    assert Balanced(h, out, o);
    RecountKeeps(h, out, h[o := h[o].(storedStatic := n)], out, o);
  }

  lemma CollectKeeps(h: Heap, out: Outside, o: Obj)
    requires Conserved(h, out) && o in h && h[o].inList && !h[o].deletedInGc
    ensures var r := HandleGarbageCollection(Unlist(h, o), o);
      Conserved(r.heap, if r.collected then out[o := out[o] + 1] else out)
  {
    hide HandleGarbageCollection;
    assert Balanced(h, out, o);
    RecountKeeps(h, out, Unlist(h, o), out[o := out[o] + 1], o);
    HandleKeeps(Unlist(h, o), out[o := out[o] + 1], o);
    assert out[o := out[o] + 1][o := out[o]] == out;
  }

  lemma {:induction false} BuryKeeps(h: Heap, out: Outside, ds: seq<Obj>)
    requires Conserved(h, out) && forall d :: d in ds ==> d in h && Doomed(h, d) && Slots(h, d) == {}
    ensures Conserved(Finish(h, ds), Forgotten(out, ds))
  {
    DeletionSafeIff(h, out, ds);
  }

  lemma NewKeeps(h: Heap, out: Outside, o: Obj, cyclic: bool)
    requires Conserved(h, out) && o !in h
    ensures Conserved(Created(h, o, cyclic), out[o := 1])
  {
    var h' := Created(h, o, cyclic);
    forall p | p in h' ensures Balanced(h', out[o := 1], p) {
      assert p in h ==> Balanced(h, out, p);
      assert Slots(h', p) == Slots(h, p) by {
        forall s: Slot ensures Holds(h', s, p) <==> Holds(h, s, p) { }
      }
      assert p == o ==> Slots(h, p) == {};
    }
  }

  lemma NewVarKeeps(h: Heap, out: Outside, o: Obj)
    requires Conserved(h, out) && o in h && !h[o].freed
    ensures Conserved(Widened(h, o), out)
  {
    var h' := Widened(h, o);
    forall p | p in h' ensures Balanced(h', out, p) {
      assert Balanced(h, out, p);
      assert Slots(h', p) == Slots(h, p) by {
        forall s: Slot ensures Holds(h', s, p) <==> Holds(h, s, p) { }
      }
    }
  }

  // ----- runs -----

  ghost predicate Runs(w: World, ops: seq<Op>)
    requires Typed(w)
    decreases |ops|
  {
    ops == [] || (Allowed(w, ops[0]) && Runs(Apply(w, ops[0]), ops[1..]))
  }

  function After(w: World, ops: seq<Op>): (w': World)
    requires Typed(w) && Runs(w, ops)
    ensures Typed(w')
    decreases |ops|
  {
    if ops == [] then w else After(Apply(w, ops[0]), ops[1..])
  }

  lemma {:induction false} Unfold(w: World, op: Op, rest: seq<Op>)
    requires Typed(w) && Allowed(w, op)
    ensures Runs(w, [op] + rest) <==> Runs(Apply(w, op), rest)
    ensures Runs(Apply(w, op), rest) ==> After(w, [op] + rest) == After(Apply(w, op), rest)
  {
    assert ([op] + rest)[1..] == rest;
  }

  const EMPTY := World(map[], map[])

  lemma {:induction false} RunKeeps(w: World, ops: seq<Op>)
    requires Good(w) && Runs(w, ops)
    ensures Good(After(w, ops))
    decreases |ops|
  {
    if ops != [] {
      StepKeeps(w, ops[0]);
      RunKeeps(Apply(w, ops[0]), ops[1..]);
    }
  }

  /** After any run: a live object's counts are exactly its slots, its outside references and the
      collector's one; it is freed only once nothing stores or holds it; and it stays alive only
      while something does. */
  lemma {:induction false} CountsAreExact(ops: seq<Op>, o: Obj)
    requires Runs(EMPTY, ops) && o in After(EMPTY, ops).heap
    ensures o in After(EMPTY, ops).outside
    ensures var w := After(EMPTY, ops);
      var r := w.heap[o];
      var stores := |Slots(w.heap, o)|;
      && (!Locked(r) ==>
            r.refCount == stores + w.outside[o] + B2N(r.inList) && r.refCount > 0 && (r.cyclic ==> r.stored == stores))
      && (r.freed ==> stores == 0 && w.outside[o] == 0)
      && (r.inList ==> !r.freed && !r.inDestruction)
  {
    RunKeeps(EMPTY, ops);
    var w := After(EMPTY, ops);
    assert Balanced(w.heap, w.outside, o);
  }
}
