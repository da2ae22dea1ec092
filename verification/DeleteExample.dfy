/** A variable deleted without having counted its value: an instance whose `constructor` names a
    function that only a scope object holds. The instruction that creates the instance stores it so.
 */
module DeleteExample {
  import opened Wrappers
  import opened AvmHeap
  import opened RefCounting
  import opened Conservation
  import opened Releases
  import opened HeapOperations
  import opened HeapRuns
  import GcAftermath

  const INSTANCE: Obj := 0
  const FUNCTION: Obj := 1
  const SCOPE: Obj := 2

  function Example(): Heap {
    map[INSTANCE := Live(1, 0, [Member(Property, Some(FUNCTION), false)]),
        FUNCTION := Live(1, 1, []),
        SCOPE := Live(1, 0, [Member(Property, Some(FUNCTION), true)])]
  }

  function Outsiders(): Outside { map[INSTANCE := 1, FUNCTION := 0, SCOPE := 1] }

  lemma ExampleConserved()
    ensures Conserved(Example(), Outsiders())
  {
    var h := Example();
    forall s ensures Holds(h, s, FUNCTION) <==> s == (SCOPE, 0) { }
    assert Slots(h, FUNCTION) == {(SCOPE, 0)} && Slots(h, INSTANCE) == {} && Slots(h, SCOPE) == {};
    forall o | o in h ensures Balanced(h, Outsiders(), o) { }
  }

  /** Deleting the instance's variable frees the function, which the scope object still stores. */
  lemma DeletionFreesStoredValue()
    ensures Conserved(Example(), Outsiders())
    ensures var h' := DeleteVar(Example(), INSTANCE, 0);
      && h'[FUNCTION].freed && Holds(h', (SCOPE, 0), FUNCTION) && !h'[SCOPE].freed
      && !Conserved(h', Outsiders())
  {
    ExampleConserved();
    var h := Example();
    var h1 := Erase(h, INSTANCE, 0);
    var h2 := Unstore(h1, FUNCTION);
    LastReleaseDestroys(h1, FUNCTION);
    assert RemoveStored(h1, FUNCTION) == HandleDestruction(h2, FUNCTION);
    var begun := h2[FUNCTION := h2[FUNCTION].(inDestruction := true, refCount := 1)];
    GcAftermath.DestructEmptied(begun, FUNCTION, 0, 0);
    var h' := DeleteVar(h, INSTANCE, 0);
    assert h' == HandleDestruction(h2, FUNCTION);
    assert (SCOPE, 0) in Slots(h', FUNCTION);
    assert !Balanced(h', Outsiders(), FUNCTION);
  }

  /** How the heap comes about: the scope object stores the function, the new instance names it, and
      the interpreter gives its own reference back. */
  const OPS: seq<Op> :=
    [New(INSTANCE, true), NewVar(INSTANCE), New(FUNCTION, true), New(SCOPE, true), NewVar(SCOPE),
     AssignNoCoerce(SCOPE, 0, Some(FUNCTION)), Assign(INSTANCE, 0, Some(FUNCTION), false), Release(FUNCTION)]

  function AllCreated(): World {
    World(map[INSTANCE := Live(1, 0, [NO_VALUE]), FUNCTION := Live(1, 0, []),
              SCOPE := Live(1, 0, [NO_VALUE])],
          map[INSTANCE := 1, FUNCTION := 1, SCOPE := 1])
  }

  function Instance(): World { World(map[INSTANCE := Live(1, 0, [NO_VALUE])], map[INSTANCE := 1]) }

  function Objects(): World {
    World(map[INSTANCE := Live(1, 0, [NO_VALUE]), FUNCTION := Live(1, 0, []), SCOPE := Live(1, 0, [])],
          map[INSTANCE := 1, FUNCTION := 1, SCOPE := 1])
  }

  lemma {:induction false} InstanceByOps(rest: seq<Op>)
    ensures Runs(EMPTY, [New(INSTANCE, true), NewVar(INSTANCE)] + rest) <==> Runs(Instance(), rest)
    ensures Runs(Instance(), rest) ==>
      HeapRuns.After(EMPTY, [New(INSTANCE, true), NewVar(INSTANCE)] + rest) == HeapRuns.After(Instance(), rest)
  {
    var w := Apply(EMPTY, New(INSTANCE, true));
    assert w.heap[INSTANCE].members + [NO_VALUE] == [NO_VALUE];
    assert Apply(w, NewVar(INSTANCE)) == Instance();
    Unfold(w, NewVar(INSTANCE), rest);
    Unfold(EMPTY, New(INSTANCE, true), [NewVar(INSTANCE)] + rest);
    assert [New(INSTANCE, true), NewVar(INSTANCE)] + rest == [New(INSTANCE, true)] + ([NewVar(INSTANCE)] + rest);
  }

  lemma {:induction false} ObjectsByOps(rest: seq<Op>)
    ensures Runs(Instance(), [New(FUNCTION, true), New(SCOPE, true)] + rest) <==> Runs(Objects(), rest)
    ensures Runs(Objects(), rest) ==>
      HeapRuns.After(Instance(), [New(FUNCTION, true), New(SCOPE, true)] + rest) == HeapRuns.After(Objects(), rest)
  {
    var w := Apply(Instance(), New(FUNCTION, true));
    assert Apply(w, New(SCOPE, true)) == Objects();
    Unfold(w, New(SCOPE, true), rest);
    Unfold(Instance(), New(FUNCTION, true), [New(SCOPE, true)] + rest);
    assert [New(FUNCTION, true), New(SCOPE, true)] + rest == [New(FUNCTION, true)] + ([New(SCOPE, true)] + rest);
  }

  lemma ScopeWidened()
    ensures Typed(Objects()) && Allowed(Objects(), NewVar(SCOPE)) && Apply(Objects(), NewVar(SCOPE)) == AllCreated()
  {
    assert Objects().heap[SCOPE].members + [NO_VALUE] == [NO_VALUE];
  }

  lemma {:induction false} CreatedByOps(rest: seq<Op>)
    ensures Runs(EMPTY, OPS[..5] + rest) <==> Runs(AllCreated(), rest)
    ensures Runs(AllCreated(), rest) ==> HeapRuns.After(EMPTY, OPS[..5] + rest) == HeapRuns.After(AllCreated(), rest)
  {
    ScopeWidened();
    FirstOps(rest);
    hide *;
    Unfold(Objects(), NewVar(SCOPE), rest);
    var rest4 := [NewVar(SCOPE)] + rest;
    ObjectsByOps(rest4);
    InstanceByOps([New(FUNCTION, true), New(SCOPE, true)] + rest4);
  }

  lemma FirstOps(rest: seq<Op>)
    ensures |OPS| >= 5 && OPS[..5] + rest ==
      [New(INSTANCE, true), NewVar(INSTANCE)] + ([New(FUNCTION, true), New(SCOPE, true)] + ([NewVar(SCOPE)] + rest))
  {
  }

  function Stored(): Heap {
    map[INSTANCE := Live(1, 0, [NO_VALUE]), FUNCTION := Live(2, 1, []),
        SCOPE := Live(1, 0, [Member(Property, Some(FUNCTION), true)])]
  }

  lemma ScopeMayStore()
    ensures Typed(AllCreated()) && Allowed(AllCreated(), AssignNoCoerce(SCOPE, 0, Some(FUNCTION)))
  {
  }

  lemma StoredByScope()
    ensures WellFormed(AllCreated().heap) && IsSlot(AllCreated().heap, SCOPE, 0, Some(FUNCTION))
    ensures SetVarNoCoerce(AllCreated().heap, SCOPE, 0, Some(FUNCTION)) == Stored()
  {
    hide SetVarNoCoerce, Filled;
    ScopeMayStore();
    StoreFills(AllCreated().heap, SCOPE, 0, FUNCTION);
    StoredIsFilled();
  }

  lemma StoredIsFilled()
    ensures Filled(AllCreated().heap, SCOPE, 0, FUNCTION) == Stored()
  {
    assert [NO_VALUE][0 := Member(Property, Some(FUNCTION), true)] == [Member(Property, Some(FUNCTION), true)];
  }

  lemma NamedByInstance()
    ensures WellFormed(Stored()) && IsSlot(Stored(), INSTANCE, 0, Some(FUNCTION))
    ensures SetVar(Stored(), INSTANCE, 0, Some(FUNCTION), false) == Example()[FUNCTION := Live(2, 1, [])]
  {
    var h := Stored();
    var h1 := Write(h, INSTANCE, 0, Some(FUNCTION), false);
    var m := Member(Property, Some(FUNCTION), false);
    assert h[INSTANCE].members[0 := m] == [m] && [m][0 := m] == [m];
    assert h1 == h[INSTANCE := Live(1, 0, [Member(Property, Some(FUNCTION), false)])];
    assert ReleaseOld(h1, h[INSTANCE].members[0]) == h1;
    assert Write(h1, INSTANCE, 0, Some(FUNCTION), false) == h1;
  }

  function Scoped(): World { World(Stored(), AllCreated().outside) }
  function Named(): World { World(Example()[FUNCTION := Live(2, 1, [])], AllCreated().outside) }

  lemma ScopedStep()
    ensures Typed(AllCreated()) && Allowed(AllCreated(), AssignNoCoerce(SCOPE, 0, Some(FUNCTION)))
    ensures Apply(AllCreated(), AssignNoCoerce(SCOPE, 0, Some(FUNCTION))) == Scoped()
  {
    ScopeMayStore();
    StoredByScope();
    hide SetVarNoCoerce;
  }

  lemma NamedStep()
    ensures Typed(Scoped()) && Allowed(Scoped(), Assign(INSTANCE, 0, Some(FUNCTION), false))
    ensures Apply(Scoped(), Assign(INSTANCE, 0, Some(FUNCTION), false)) == Named()
  {
    NamedByInstance();
    hide SetVar;
  }

  lemma ReleasedStep()
    ensures Typed(Named()) && Allowed(Named(), Release(FUNCTION))
    ensures Apply(Named(), Release(FUNCTION)) == World(Example(), Outsiders())
  {
    assert DecRef(Named().heap, FUNCTION) == Example();
  }

  lemma ExampleIsReached()
    ensures Runs(EMPTY, OPS) && HeapRuns.After(EMPTY, OPS) == World(Example(), Outsiders())
  {
    ScopedStep();
    NamedStep();
    ReleasedStep();
    hide Apply, Allowed, Named, Scoped, AllCreated, Example, Typed;
    Unfold(Named(), Release(FUNCTION), []);
    Unfold(Scoped(), Assign(INSTANCE, 0, Some(FUNCTION), false), OPS[7..]);
    Unfold(AllCreated(), AssignNoCoerce(SCOPE, 0, Some(FUNCTION)), OPS[6..]);
    CreatedByOps(OPS[5..]);
    assert OPS[..5] + OPS[5..] == OPS;
  }
}
