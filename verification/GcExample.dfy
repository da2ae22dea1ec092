/** A heap on which a collection destroys an object that a surviving object still stores. */
module GcExample {
  import opened Wrappers
  import opened AvmHeap
  import opened GcSearch
  import opened Conservation
  import opened GcCollect
  import opened GcTheorems
  import opened GcAftermath

  function Holding(o: Obj): Member { Member(Property, Some(o), true) }

  const START: Obj := 0
  const D: Obj := 1
  const X: Obj := 2
  const Y: Obj := 3
  const Z: Obj := 4

  /** START -> D; D -> X, Y; X -> D; Y -> START; Z -> X, and Z is in use outside. */
  function Example(): Heap {
    map[
      START := Live(2, 1, [Holding(D)]),
      D := Live(2, 2, [Holding(X), Holding(Y)]),
      X := Live(2, 2, [Holding(D)]),
      Y := Live(1, 1, [Holding(START)]),
      Z := Live(1, 0, [Holding(X)])]
  }

  ghost predicate IsExample(h: Heap) {
    && h.Keys == {START, D, X, Y, Z} && WellFormed(h)
    && h[START] == Live(2, 1, [Holding(D)])
    && h[D] == Live(2, 2, [Holding(X), Holding(Y)])
    && h[X] == Live(2, 2, [Holding(D)])
    && h[Y] == Live(1, 1, [Holding(START)])
    && h[Z] == Live(1, 0, [Holding(X)])
  }

  lemma {:induction false} ScanSkips(h: Heap, st: Search, x: Obj, phase: nat, i: nat)
    requires WellFormed(h) && Fits(h, st) && x in h && phase < 4 && i <= |h[x].members| && !st.stopped
    requires forall k :: i <= k < |h[x].members| ==> PhaseOf(h, x, k) != phase
    ensures Scan(h, st, x, phase, i, false) == Step(st, false)
    decreases |h[x].members| - i
  {
    if i < |h[x].members| { ScanSkips(h, st, x, phase, i + 1); }
  }

  /** With plain properties only, the last pass does all the work. */
  lemma {:induction false} PlainMembers(h: Heap, st: Search, x: Obj)
    requires WellFormed(h) && Fits(h, st) && x in h && !st.stopped
    requires forall k :: 0 <= k < |h[x].members| ==> PhaseOf(h, x, k) == 3
    ensures CountMembers(h, st, x) == Scan(h, MarkHolder(h, st, x), x, 3, 0, false)
  {
    ScanSkips(h, st, x, 0, 0);
    ScanSkips(h, st, x, 1, 0);
    ScanSkips(h, MarkHolder(h, st, x), x, 2, 0);
  }

  lemma {:induction false} OneMember(h: Heap, st: Search, x: Obj, o: Obj)
    requires WellFormed(h) && Fits(h, st) && x in h && !st.stopped && !MarkHolder(h, st, x).stopped
    requires h[x].members == [Holding(o)] && PhaseOf(h, x, 0) == 3
    ensures var r := Follow(h, MarkHolder(h, st, x), x, 0, o);
      CountMembers(h, st, x) == if r.st.stopped then Step(r.st, false) else r
  {
    PlainMembers(h, st, x);
    var r := Follow(h, MarkHolder(h, st, x), x, 0, o);
    assert Scan(h, r.st, x, 3, 1, r.ret) == if r.st.stopped then Step(r.st, false) else r;
  }

  lemma {:induction false} TwoMembers(h: Heap, st: Search, x: Obj, o: Obj, o': Obj)
    requires WellFormed(h) && Fits(h, st) && x in h && o in h && o' in h && !st.stopped
    requires h[x].members == [Holding(o), Holding(o')] && PhaseOf(h, x, 0) == PhaseOf(h, x, 1) == 3
    requires MarkHolder(h, st, x) == st
    requires !Follow(h, st, x, 0, o).st.stopped
    requires !Follow(h, Follow(h, st, x, 0, o).st, x, 1, o').st.stopped
    ensures var a := Follow(h, st, x, 0, o);
      var b := Follow(h, a.st, x, 1, o');
      CountMembers(h, st, x) == Step(b.st, b.ret || a.ret)
  {
    PlainMembers(h, st, x);
    var a := Follow(h, st, x, 0, o);
    var b := Follow(h, a.st, x, 1, o');
    assert Scan(h, b.st, x, 3, 2, b.ret || a.ret) == Step(b.st, b.ret || a.ret);
    assert Scan(h, a.st, x, 3, 1, a.ret) == Step(b.st, b.ret || a.ret);
  }

  /** Following a property into an object not entered yet. */
  lemma {:induction false} EntersFresh(h: Heap, st: Search, x: Obj, k: nat, o: Obj)
    requires WellFormed(h) && Fits(h, st) && x in h && o in h && o != st.start && !st.stopped
    requires st.counters[o] == ZERO && h[o].refCount == h[o].stored && h[o] == Live(h[o].refCount, h[o].stored, h[o].members)
    ensures var r := CountMembers(h, Enter(Counted(st, (x, k), o), o), o);
      var l := Leave(h, r.st, o, r.ret);
      CountAll(h, st, (x, k), o)
        == if l.counters[o].hasMember then Step(Propagate(h, l, o, |l.stack|), true) else Step(l, false)
  {
    var r := CountMembers(h, Enter(Counted(st, (x, k), o), o), o);
    var l := Leave(h, r.st, o, r.ret);
    assert Visit(h, st, (x, k), o) == Step(l, l.counters[o].hasMember);
  }

  /** The search of X finds D still in progress and unflagged, and finishes unflagged itself. */
  lemma {:induction false} VisitX(h: Heap, st: Search)
    requires IsExample(h) && Fits(h, st) && st.start == START && !st.stopped && st.stack == [D]
    requires st.counters[X] == ZERO && st.counters[D] == Counter(1, false, false, false, true)
    ensures var r := Follow(h, st, D, 0, X);
      && !r.ret && !r.st.stopped && r.st.stack == [D]
      && r.st.counters == st.counters[X := Counter(1, false, false, true, false)][D := Counter(2, false, false, false, true)]
      && r.st.checked == st.checked + [X]
  {
    hide CountAll, Visit, CountMembers, Scan, Propagate;
    var e := Enter(Counted(st, (D, 0), X), X);
    OneMember(h, e, X, D);
    MeetD(h, e);
    EntersFresh(h, st, D, 0, X);
    LeaveX(h, st);
  }

  lemma {:induction false} MeetD(h: Heap, e: Search)
    requires IsExample(h) && Fits(h, e) && e.start == START && !e.stopped
    requires e.counters[D] == Counter(1, false, false, false, true)
    ensures Follow(h, e, X, 0, D) == Step(Counted(e, (X, 0), D), false)
  {
    assert Visit(h, e, (X, 0), D) == Step(Counted(e, (X, 0), D), false);
  }

  lemma LeaveX(h: Heap, st: Search)
    requires IsExample(h) && Fits(h, st) && st.start == START && st.stack == [D]
    requires st.counters[X] == ZERO && st.counters[D] == Counter(1, false, false, false, true)
    ensures var l := Leave(h, Counted(Enter(Counted(st, (D, 0), X), X), (X, 0), D), X, false);
      && l.stopped == st.stopped && l.stack == [D]
      && l.counters == st.counters[X := Counter(1, false, false, true, false)][D := Counter(2, false, false, false, true)]
      && l.checked == st.checked + [X]
  {
    var f := Counted(Enter(Counted(st, (D, 0), X), X), (X, 0), D);
    assert f.counters[X] == Counter(1, false, false, false, true);
    assert f.counters[D] == Counter(2, false, false, false, true);
    assert f.stack[..1] == [D];
  }

  /** Y holds START: it is flagged before its member is followed, and so is D on its return. */
  lemma {:induction false} VisitY(h: Heap, st: Search)
    requires IsExample(h) && Fits(h, st) && st.start == START && !st.stopped && st.stack == [D]
    requires st.counters[Y] == ZERO && st.counters[START] == ZERO
    requires st.counters[D] == Counter(2, false, false, false, true)
    ensures var r := Follow(h, st, D, 1, Y);
      && r.ret && !r.st.stopped && r.st.stack == [D]
      && r.st.counters[START] == Counter(1, true, false, false, false)
      && r.st.counters[X] == st.counters[X]
      && r.st.counters[Y] == Counter(1, true, false, true, false)
      && r.st.counters[D] == Counter(2, true, false, true, true)
      && r.st.checked == st.checked + [Y, D]
  {
    hide CountAll, Visit, CountMembers, Scan;
    var e := Enter(Counted(st, (D, 1), Y), Y);
    InsideY(h, e);
    EntersFresh(h, st, D, 1, Y);
    LeaveY(h, st);
    var l := Leave(h, CountMembers(h, e, Y).st, Y, true);
    FlagD(h, l);
    assert Follow(h, st, D, 1, Y) == Step(Propagate(h, l, Y, 1), true);
  }

  function InY(e: Search): Search {
    e.Put(Y, Counter(1, true, false, false, true)).Put(START, Counter(1, true, false, false, false))
     .(ledger := e.ledger + {(Y, 0)})
  }

  lemma {:induction false} InsideY(h: Heap, e: Search)
    requires IsExample(h) && Fits(h, e) && e.start == START && !e.stopped && e.stack == [D, Y]
    requires e.counters[Y] == Counter(1, false, false, false, true) && e.counters[START] == ZERO
    ensures CountMembers(h, e, Y) == Step(InY(e), true)
  {
    MarkY(h, e);
    OneMember(h, e, Y, START);
    MeetStart(h, e.Put(Y, Counter(1, true, false, false, true)));
  }

  /** Y's return flags the object on the stack below it; Y itself is flagged and checked already. */
  lemma {:induction false} FlagD(h: Heap, l: Search)
    requires IsExample(h) && Fits(h, l) && l.start == START && !l.stopped && l.stack == [D]
    requires l.counters[Y] == Counter(1, true, false, true, false) && l.counters[D] == Counter(2, false, false, false, true)
    ensures var g := Propagate(h, l, Y, 1);
      && g.counters[D] == Counter(2, true, false, true, true) && g.checked == l.checked + [D]
      && g.stack == [D] && !g.stopped && g.start == START
      && (forall o :: o in h && o != D ==> g.counters[o] == l.counters[o])
      && SetChecked(h, g, Y) == g && g.Put(Y, g.counters[Y].(hasMember := true)) == g
  {
    var st1 := SetChecked(h, l.Put(D, l.counters[D].(hasMember := true)), D);
    assert Propagate(h, l, Y, 1) == st1;
  }

  lemma MarkY(h: Heap, e: Search)
    requires IsExample(h) && Fits(h, e) && e.start == START && e.counters[Y] == Counter(1, false, false, false, true)
    ensures MarkHolder(h, e, Y) == e.Put(Y, Counter(1, true, false, false, true))
  {
    assert h[Y].members[0].target == Some(START);
  }

  lemma {:induction false} MeetStart(h: Heap, e: Search)
    requires IsExample(h) && Fits(h, e) && e.start == START && !e.stopped
    requires e.stack == [D, Y] && e.counters[Y] == Counter(1, true, false, false, true) && e.counters[START] == ZERO
    ensures var r := Follow(h, e, Y, 0, START);
      r.ret && r.st == e.Put(START, Counter(1, true, false, false, false)).(ledger := e.ledger + {(Y, 0)})
  {
    var c := Counted(e, (Y, 0), START);
    assert Visit(h, e, (Y, 0), START) == Step(c, true);
    assert Propagate(h, c, START, 2) == c;
    assert CountAll(h, e, (Y, 0), START) == Step(c, true);
  }

  lemma LeaveY(h: Heap, st: Search)
    requires IsExample(h) && Fits(h, st) && st.start == START && !st.stopped && st.stack == [D]
    requires st.counters[Y] == ZERO && st.counters[START] == ZERO
    requires st.counters[D] == Counter(2, false, false, false, true)
    ensures var l := Leave(h, InY(Enter(Counted(st, (D, 1), Y), Y)), Y, true);
      && l.stack == [D] && !l.stopped && l.counters[Y] == Counter(1, true, false, true, false)
      && l.counters[D] == st.counters[D] && l.counters[X] == st.counters[X]
      && l.counters[START] == Counter(1, true, false, false, false)
      && l.checked == st.checked + [Y]
  {
  }

  lemma {:induction false} InsideD(h: Heap, e: Search)
    requires IsExample(h) && Fits(h, e) && e.start == START && !e.stopped && e.stack == [D]
    requires e.counters[D] == Counter(1, false, false, false, true)
    requires e.counters[X] == ZERO && e.counters[Y] == ZERO && e.counters[START] == ZERO && e.checked == []
    ensures var r := CountMembers(h, e, D);
      && r.ret && !r.st.stopped && r.st.stack == [D] && r.st.checked == [X, Y, D]
      && r.st.counters[START] == Counter(1, true, false, false, false)
      && r.st.counters[D] == Counter(2, true, false, true, true)
      && r.st.counters[X] == Counter(1, false, false, true, false)
      && r.st.counters[Y] == Counter(1, true, false, true, false)
  {
    VisitX(h, e);
    VisitY(h, Follow(h, e, D, 0, X).st);
    TwoMembers(h, e, D, X, Y);
  }

  lemma SearchStart(h: Heap)
    requires IsExample(h)
    ensures var st := Searched(h, START);
      && !st.stopped && st.checked == [X, Y, D]
      && st.counters[START] == Counter(1, true, false, false, false)
      && st.counters[D] == Counter(2, true, false, true, false)
      && st.counters[X] == Counter(1, false, false, true, false)
      && st.counters[Y] == Counter(1, true, false, true, false)
  {
    var b := Begin(h, START);
    FollowD(h, b);
    OneMember(h, b, START, D);
  }

  lemma {:induction false} FollowD(h: Heap, b: Search)
    requires IsExample(h) && b == Begin(h, START)
    ensures MarkHolder(h, b, START) == b
    ensures var st := Follow(h, b, START, 0, D).st;
      && !st.stopped && st.checked == [X, Y, D]
      && st.counters[START] == Counter(1, true, false, false, false)
      && st.counters[D] == Counter(2, true, false, true, false)
      && st.counters[X] == Counter(1, false, false, true, false)
      && st.counters[Y] == Counter(1, true, false, true, false)
  {
    EntersFresh(h, b, START, 0, D);
    EnterD(h, b);
    var r := CountMembers(h, Enter(Counted(b, (START, 0), D), D), D);
    LeaveD(h, r.st);
    var l := Leave(h, r.st, D, true);
    assert Follow(h, b, START, 0, D) == Step(l, true);
  }

  lemma {:induction false} EnterD(h: Heap, b: Search)
    requires IsExample(h) && b == Begin(h, START)
    ensures var r := CountMembers(h, Enter(Counted(b, (START, 0), D), D), D);
      && r.ret && !r.st.stopped && r.st.stack == [D] && r.st.checked == [X, Y, D]
      && r.st.counters[START] == Counter(1, true, false, false, false)
      && r.st.counters[D] == Counter(2, true, false, true, true)
      && r.st.counters[X] == Counter(1, false, false, true, false)
      && r.st.counters[Y] == Counter(1, true, false, true, false)
  {
    InsideD(h, Enter(Counted(b, (START, 0), D), D));
  }

  lemma {:induction false} LeaveD(h: Heap, s: Search)
    requires IsExample(h) && Fits(h, s) && s.start == START && s.stack == [D]
    requires s.counters[D] == Counter(2, true, false, true, true)
    ensures var l := Leave(h, s, D, true);
      && l == s.(stack := [], counters := s.counters[D := Counter(2, true, false, true, false)])
      && Propagate(h, l, D, 0) == l
      && SetChecked(h, l, D) == l && l.Put(D, l.counters[D].(hasMember := true)) == l
  {
    assert s.stack[..0] == [];
  }

  // ----- the heap is a legitimate one -----

  function Outsiders(): Outside { map[START := 1, D := 0, X := 0, Y := 0, Z := 1] }

  lemma ExampleSlots(h: Heap)
    requires IsExample(h)
    ensures Slots(h, START) == {(Y, 0)} && Slots(h, D) == {(START, 0), (X, 0)}
    ensures Slots(h, X) == {(D, 0), (Z, 0)} && Slots(h, Y) == {(D, 1)} && Slots(h, Z) == {}
  {
  }

  lemma ExampleConserved(h: Heap)
    requires IsExample(h)
    ensures Conserved(h, Outsiders()) && Eligible(h, START)
  {
    ExampleSlots(h);
    assert |{(START, 0), (X, 0)}| == 2 && |{(D, 0), (Z, 0)}| == 2;
    forall o | o in h ensures Balanced(h, Outsiders(), o) { }
  }

  /** The counts are exact and X is stored in an object that is in use; still D is condemned, X is
      not, and X stores D. */
  lemma SurvivorKeepsCondemned(h: Heap)
    requires h == Example()
    ensures Conserved(h, Outsiders()) && Eligible(h, START) && Outsiders()[Z] == 1 && Holds(h, (Z, 0), X)
    ensures var st := Searched(h, START);
      Condemns(h, st) && Condemned(h, st, D) && !Condemned(h, st, X) && Holds(h, (X, 0), D)
  {
    assert IsExample(h);
    ExampleConserved(h);
    SearchStart(h);
  }

  lemma VerdictOf(h: Heap, st: Search)
    requires IsExample(h) && Fits(h, st) && st.start == START && !st.stopped && st.checked == [X, Y, D]
    requires st.counters[START] == Counter(1, true, false, false, false)
    requires st.counters[D] == Counter(2, true, false, true, false)
    requires st.counters[X] == Counter(1, false, false, true, false)
    requires st.counters[Y] == Counter(1, true, false, true, false)
    ensures Condemns(h, st) && !NeedsNewCheck(h, st) && D in Sentence(h, st)
    ensures forall d :: d in Sentence(h, st) ==> d == START || d == D || d == Y
  {
  }

  lemma DecisionOf(h: Heap, st: Search)
    requires IsExample(h) && Fits(h, st) && st.start == START && Condemns(h, st) && !NeedsNewCheck(h, st)
    ensures Decide(h, st) == Outcome(Destroy(h, Sentence(h, st)), true, Sentence(h, st))
  {
    assert Unmark(h, START) == h;
  }

  /** Run to its end on that heap, the collection deletes D while X, in use through Z, stores it. */
  lemma CollectionLeavesDeletedMember(h: Heap)
    requires h == Example()
    ensures Conserved(h, Outsiders())
    ensures var r := HandleGarbageCollection(h, START);
      && r.collected && D in r.destroyed
      && Holds(r.heap, (Z, 0), X) && !r.heap[X].freed && Holds(r.heap, (X, 0), D)
      && !Conserved(Finish(r.heap, r.destroyed), Forgotten(Outsiders(), r.destroyed))
  {
    assert IsExample(h);
    ExampleConserved(h);
    SearchStart(h);
    var st := Searched(h, START);
    VerdictOf(h, st);
    DecisionOf(h, st);
    EndOf(h, Sentence(h, st));
    assert HandleGarbageCollection(h, START) == Decide(h, st);
  }

  lemma {:induction false} EndOf(h: Heap, ds: seq<Obj>)
    requires IsExample(h) && D in ds && forall d :: d in ds ==> d == START || d == D || d == Y
    ensures var h' := Destroy(h, ds);
      && Holds(h', (Z, 0), X) && !h'[X].freed && Holds(h', (X, 0), D)
      && !Conserved(Finish(h', ds), Forgotten(Outsiders(), ds))
  {
    ExampleConserved(h);
    SparedHolderDangles(h, Outsiders(), ds, (Z, 0), (X, 0), D);
  }
}
