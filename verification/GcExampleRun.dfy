/** How the heap of GcExample comes about: the objects are made, store each other, and are let go one by
    one; the last to go is handed to the collector.
 */
module GcExampleRun {
  import opened Wrappers
  import opened AvmHeap
  import opened RefCounting
  import opened Conservation
  import opened HeapOperations
  import opened HeapRuns
  import opened GcExample

  ghost predicate Reached(ops: seq<Op>, w: World) { Runs(EMPTY, ops) && HeapRuns.After(EMPTY, ops) == w }

  /** Some run from the empty heap leads to `w`. */
  ghost predicate Reachable(w: World) { exists ops :: Reached(ops, w) }

  lemma {:induction false} RunsMore(v: World, ops: seq<Op>, op: Op)
    requires Typed(v) && Runs(v, ops) && Allowed(HeapRuns.After(v, ops), op)
    ensures Runs(v, ops + [op]) && HeapRuns.After(v, ops + [op]) == Apply(HeapRuns.After(v, ops), op)
    decreases |ops|
  {
    hide Apply, Allowed;
    if ops == [] {
      assert ops + [op] == [op] + [];
      Unfold(v, op, []);
    } else {
      RunsMore(Apply(v, ops[0]), ops[1..], op);
      assert ops + [op] == [ops[0]] + (ops[1..] + [op]);
      Unfold(v, ops[0], ops[1..] + [op]);
      assert ops == [ops[0]] + ops[1..];
    }
  }

  lemma Step(w: World, op: Op)
    requires Reachable(w) && Allowed(w, op)
    ensures Typed(w) && Reachable(Apply(w, op))
  {
    var ops :| Reached(ops, w);
    RunsMore(EMPTY, ops, op);
    assert Reached(ops + [op], Apply(w, op));
  }

  // ----- the operations used -----

  lemma NewStep(w: World, o: Obj)
    requires Reachable(w) && o !in w.heap
    ensures Reachable(World(w.heap[o := Live(1, 0, [])], w.outside[o := 1]))
  {
    Step(w, New(o, true));
  }

  lemma NewVarStep(w: World, o: Obj)
    requires Reachable(w) && o in w.heap && !w.heap[o].freed
    ensures Reachable(World(w.heap[o := w.heap[o].(members := w.heap[o].members + [NO_VALUE])], w.outside))
  {
    Step(w, NewVar(o));
  }

  lemma StoreStep(w: World, o: Obj, k: nat, v: Obj)
    requires Reachable(w) && o in w.heap && v in w.heap && k < |w.heap[o].members| && w.heap[o].members[k] == NO_VALUE
    requires Plain(w.heap[o]) && Plain(w.heap[v]) && Held(w.heap, w.outside, o) && Held(w.heap, w.outside, v)
    ensures Reachable(World(Filled(w.heap, o, k, v), w.outside))
  {
    Step(w, AssignNoCoerce(o, k, Some(v)));
    StoreFills(w.heap, o, k, v);
    hide SetVarNoCoerce, Filled;
  }

  lemma ReleaseStep(w: World, o: Obj)
    requires Reachable(w) && o in w.heap && o in w.outside && w.outside[o] >= 1
    requires Plain(w.heap[o]) && w.heap[o].refCount != 1
    ensures Reachable(World(w.heap[o := w.heap[o].(refCount := w.heap[o].refCount - 1)], w.outside[o := w.outside[o] - 1]))
  {
    Step(w, Release(o));
  }

  lemma HandOverStep(w: World, o: Obj)
    requires Reachable(w) && o in w.heap && o in w.outside && w.outside[o] >= 1
    requires Plain(w.heap[o]) && w.heap[o].stored != 0 && w.heap[o].refCount == w.heap[o].stored + 1
    ensures Reachable(World(w.heap[o := w.heap[o].(inList := true, marked := true)], w.outside[o := w.outside[o] - 1]))
  {
    Step(w, ReleaseChecked(o));
  }

  // ----- the run -----

  function Five(s: Rec, d: Rec, x: Rec, y: Rec, z: Rec): Heap {
    map[START := s, D := d, X := x, Y := y, Z := z]
  }

  function HeldBy(s: nat, d: nat, x: nat, y: nat, z: nat): Outside {
    map[START := s, D := d, X := x, Y := y, Z := z]
  }

  const NEW := Live(1, 0, [])
  const EMPTY_VAR := Live(1, 0, [NO_VALUE])
  const EMPTY_VARS := Live(1, 0, [NO_VALUE, NO_VALUE])

  lemma HalfMade()
    ensures Reachable(World(map[START := NEW, D := NEW], map[START := 1, D := 1]))
  {
    assert Reached([], EMPTY) && Reachable(EMPTY);
    hide Reachable;
    NewStep(EMPTY, START);
    var w1 := World(map[START := NEW], map[START := 1]);
    assert Reachable(w1);
    NewStep(w1, D);
  }

  lemma Made()
    ensures Reachable(World(Five(NEW, NEW, NEW, NEW, NEW), HeldBy(1, 1, 1, 1, 1)))
  {
    HalfMade();
    hide Reachable;
    var w2 := World(map[START := NEW, D := NEW], map[START := 1, D := 1]);
    NewStep(w2, X);
    var w3 := World(map[START := NEW, D := NEW, X := NEW], map[START := 1, D := 1, X := 1]);
    assert Reachable(w3);
    NewStep(w3, Y);
    var w4 := World(map[START := NEW, D := NEW, X := NEW, Y := NEW], map[START := 1, D := 1, X := 1, Y := 1]);
    assert Reachable(w4);
    NewStep(w4, Z);
  }

  lemma HalfWidened()
    ensures Reachable(World(Five(EMPTY_VAR, EMPTY_VARS, NEW, NEW, NEW), HeldBy(1, 1, 1, 1, 1)))
  {
    Made();
    hide Reachable;
    var out := HeldBy(1, 1, 1, 1, 1);
    NewVarStep(World(Five(NEW, NEW, NEW, NEW, NEW), out), START);
    assert NEW.members + [NO_VALUE] == [NO_VALUE];
    assert Five(NEW, NEW, NEW, NEW, NEW)[START := EMPTY_VAR] == Five(EMPTY_VAR, NEW, NEW, NEW, NEW);
    NewVarStep(World(Five(EMPTY_VAR, NEW, NEW, NEW, NEW), out), D);
    assert Five(EMPTY_VAR, NEW, NEW, NEW, NEW)[D := EMPTY_VAR] == Five(EMPTY_VAR, EMPTY_VAR, NEW, NEW, NEW);
    NewVarStep(World(Five(EMPTY_VAR, EMPTY_VAR, NEW, NEW, NEW), out), D);
    assert EMPTY_VAR.members + [NO_VALUE] == [NO_VALUE, NO_VALUE];
    assert Five(EMPTY_VAR, EMPTY_VAR, NEW, NEW, NEW)[D := EMPTY_VARS] == Five(EMPTY_VAR, EMPTY_VARS, NEW, NEW, NEW);
  }

  lemma AllWidened()
    ensures Reachable(World(Five(EMPTY_VAR, EMPTY_VARS, EMPTY_VAR, EMPTY_VAR, EMPTY_VAR), HeldBy(1, 1, 1, 1, 1)))
  {
    HalfWidened();
    hide Reachable;
    var out := HeldBy(1, 1, 1, 1, 1);
    assert NEW.members + [NO_VALUE] == [NO_VALUE];
    NewVarStep(World(Five(EMPTY_VAR, EMPTY_VARS, NEW, NEW, NEW), out), X);
    assert Five(EMPTY_VAR, EMPTY_VARS, NEW, NEW, NEW)[X := EMPTY_VAR] == Five(EMPTY_VAR, EMPTY_VARS, EMPTY_VAR, NEW, NEW);
    NewVarStep(World(Five(EMPTY_VAR, EMPTY_VARS, EMPTY_VAR, NEW, NEW), out), Y);
    assert Five(EMPTY_VAR, EMPTY_VARS, EMPTY_VAR, NEW, NEW)[Y := EMPTY_VAR]
      == Five(EMPTY_VAR, EMPTY_VARS, EMPTY_VAR, EMPTY_VAR, NEW);
    NewVarStep(World(Five(EMPTY_VAR, EMPTY_VARS, EMPTY_VAR, EMPTY_VAR, NEW), out), Z);
    assert Five(EMPTY_VAR, EMPTY_VARS, EMPTY_VAR, EMPTY_VAR, NEW)[Z := EMPTY_VAR]
      == Five(EMPTY_VAR, EMPTY_VARS, EMPTY_VAR, EMPTY_VAR, EMPTY_VAR);
  }

  /** What START and D store. */
  lemma HalfStored()
    ensures Reachable(World(
      Five(Live(1, 0, [Holding(D)]), Live(2, 1, [Holding(X), Holding(Y)]), Live(2, 1, [NO_VALUE]), Live(2, 1, [NO_VALUE]), EMPTY_VAR),
      HeldBy(1, 1, 1, 1, 1)))
  {
    AllWidened();
    hide Reachable;
    var out := HeldBy(1, 1, 1, 1, 1);
    var h0 := Five(EMPTY_VAR, EMPTY_VARS, EMPTY_VAR, EMPTY_VAR, EMPTY_VAR);
    StoreStep(World(h0, out), START, 0, D);
    var h1 := Five(Live(1, 0, [Holding(D)]), Live(2, 1, [NO_VALUE, NO_VALUE]), EMPTY_VAR, EMPTY_VAR, EMPTY_VAR);
    assert [NO_VALUE][0 := Holding(D)] == [Holding(D)];
    assert Filled(h0, START, 0, D) == h1;
    StoreStep(World(h1, out), D, 0, X);
    var h2 := Five(Live(1, 0, [Holding(D)]), Live(2, 1, [Holding(X), NO_VALUE]), Live(2, 1, [NO_VALUE]), EMPTY_VAR, EMPTY_VAR);
    assert [NO_VALUE, NO_VALUE][0 := Holding(X)] == [Holding(X), NO_VALUE];
    assert Filled(h1, D, 0, X) == h2;
    StoreStep(World(h2, out), D, 1, Y);
    assert [Holding(X), NO_VALUE][1 := Holding(Y)] == [Holding(X), Holding(Y)];
    assert Filled(h2, D, 1, Y) == Five(Live(1, 0, [Holding(D)]), Live(2, 1, [Holding(X), Holding(Y)]),
                                       Live(2, 1, [NO_VALUE]), Live(2, 1, [NO_VALUE]), EMPTY_VAR);
  }

  const STORES_XY := [Holding(X), Holding(Y)]

  /** What X stores ... */
  lemma NearlyStored()
    ensures Reachable(World(
      Five(Live(1, 0, [Holding(D)]), Live(3, 2, STORES_XY), Live(2, 1, [Holding(D)]), Live(2, 1, [NO_VALUE]), EMPTY_VAR),
      HeldBy(1, 1, 1, 1, 1)))
  {
    HalfStored();
    hide Reachable;
    var h0 := Five(Live(1, 0, [Holding(D)]), Live(2, 1, STORES_XY), Live(2, 1, [NO_VALUE]), Live(2, 1, [NO_VALUE]), EMPTY_VAR);
    StoreStep(World(h0, HeldBy(1, 1, 1, 1, 1)), X, 0, D);
    assert [NO_VALUE][0 := Holding(D)] == [Holding(D)];
    assert Filled(h0, X, 0, D) == Five(Live(1, 0, [Holding(D)]), Live(3, 2, STORES_XY), Live(2, 1, [Holding(D)]),
                                       Live(2, 1, [NO_VALUE]), EMPTY_VAR);
  }

  /** ... and what Y and Z store. */
  lemma Stored()
    ensures Reachable(World(
      Five(Live(2, 1, [Holding(D)]), Live(3, 2, STORES_XY), Live(3, 2, [Holding(D)]), Live(2, 1, [Holding(START)]),
           Live(1, 0, [Holding(X)])),
      HeldBy(1, 1, 1, 1, 1)))
  {
    NearlyStored();
    hide Reachable;
    var out := HeldBy(1, 1, 1, 1, 1);
    var h1 := Five(Live(1, 0, [Holding(D)]), Live(3, 2, STORES_XY), Live(2, 1, [Holding(D)]), Live(2, 1, [NO_VALUE]), EMPTY_VAR);
    StoreStep(World(h1, out), Y, 0, START);
    var h2 := Five(Live(2, 1, [Holding(D)]), Live(3, 2, STORES_XY), Live(2, 1, [Holding(D)]), Live(2, 1, [Holding(START)]), EMPTY_VAR);
    assert [NO_VALUE][0 := Holding(START)] == [Holding(START)];
    assert Filled(h1, Y, 0, START) == h2;
    StoreStep(World(h2, out), Z, 0, X);
    assert [NO_VALUE][0 := Holding(X)] == [Holding(X)];
    assert Filled(h2, Z, 0, X) == Five(Live(2, 1, [Holding(D)]), Live(3, 2, STORES_XY), Live(3, 2, [Holding(D)]),
                                       Live(2, 1, [Holding(START)]), Live(1, 0, [Holding(X)]));
  }

  /** START is in the collector's list, which alone holds it. */
  function Listed(): World {
    World(Example()[START := Example()[START].(inList := true, marked := true)], HeldBy(0, 0, 0, 0, 1))
  }

  /** All but Z and START are let go. */
  lemma LetGo()
    ensures Reachable(World(Example(), HeldBy(1, 0, 0, 0, 1)))
  {
    Stored();
    hide Reachable;
    var s, xs, ys, z := [Holding(D)], [Holding(D)], [Holding(START)], Live(1, 0, [Holding(X)]);
    var h0 := Five(Live(2, 1, s), Live(3, 2, STORES_XY), Live(3, 2, xs), Live(2, 1, ys), z);
    ReleaseStep(World(h0, HeldBy(1, 1, 1, 1, 1)), D);
    var h1 := Five(Live(2, 1, s), Live(2, 2, STORES_XY), Live(3, 2, xs), Live(2, 1, ys), z);
    assert h0[D := Live(2, 2, STORES_XY)] == h1 && HeldBy(1, 1, 1, 1, 1)[D := 0] == HeldBy(1, 0, 1, 1, 1);
    ReleaseStep(World(h1, HeldBy(1, 0, 1, 1, 1)), X);
    var h2 := Five(Live(2, 1, s), Live(2, 2, STORES_XY), Live(2, 2, xs), Live(2, 1, ys), z);
    assert h1[X := Live(2, 2, xs)] == h2 && HeldBy(1, 0, 1, 1, 1)[X := 0] == HeldBy(1, 0, 0, 1, 1);
    ReleaseStep(World(h2, HeldBy(1, 0, 0, 1, 1)), Y);
    assert h2[Y := Live(1, 1, ys)] == Example() && HeldBy(1, 0, 0, 1, 1)[Y := 0] == HeldBy(1, 0, 0, 0, 1);
  }

  /** The heap of the example comes up in a run from the empty heap, as the worker takes START off the
      collector's list. */
  lemma ExampleIsReached()
    ensures Reachable(Listed()) && Typed(Listed()) && Allowed(Listed(), Collect(START))
    ensures Unlist(Listed().heap, START) == Example()
  {
    LetGo();
    ListedIsExample();
    hide Reachable, Listed;
    HandOverStep(World(Example(), HeldBy(1, 0, 0, 0, 1)), START);
    assert HeldBy(1, 0, 0, 0, 1)[START := 0] == HeldBy(0, 0, 0, 0, 1);
  }

  lemma ListedIsExample()
    ensures Listed() == World(Example()[START := Example()[START].(inList := true, marked := true)], HeldBy(0, 0, 0, 0, 1))
    ensures Typed(Listed()) && Allowed(Listed(), Collect(START)) && Unlist(Listed().heap, START) == Example()
  {
    assert IsExample(Example());
  }
}
