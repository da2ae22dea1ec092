/** The cycle collector's depth-first search, as a function from search state to search state. */
module GcSearch {
  import opened Wrappers
  import opened AvmHeap

  /** cyclicmembercount */
  datatype Counter = Counter(count: nat, hasMember: bool, ignore: bool, isChecked: bool, inChecking: bool)

  const ZERO := Counter(0, false, false, false, false)

  /** garbagecollectorstate together with every object's counter. `ledger` is a history variable:
      the slots whose reference has been counted. */
  datatype Search = Search(
    start: Obj,
    counters: map<Obj, Counter>,
    checked: seq<Obj>,
    stack: seq<Obj>,
    stopped: bool,
    ledger: set<Slot>)
  {
    function Put(o: Obj, c: Counter): Search {
      this.(counters := counters[o := c])
    }
  }

  datatype Step = Step(st: Search, ret: bool)

  predicate Fits(h: Heap, st: Search) {
    && st.counters.Keys == h.Keys
    && st.start in h
    && (forall o :: o in st.stack ==> o in h)
    && (forall o :: o in st.checked ==> o in h)
  }

  predicate IsFresh(st: Search, o: Obj) {
    o in st.counters && !st.counters[o].isChecked && !st.counters[o].inChecking
  }

  /** Objects the search has not entered yet: the termination measure. */
  function Fresh(st: Search): (r: set<Obj>)
    ensures forall o :: o in r <==> IsFresh(st, o)
  {
    set o | o in st.counters && IsFresh(st, o)
  }

  predicate Shrinks(h: Heap, st: Search, st': Search) {
    && Fits(h, st')
    && st'.start == st.start
    && st'.stack == st.stack
    && (forall o :: o in h && IsFresh(st', o) ==> IsFresh(st, o))
  }

  predicate HasStatic(h: Heap, o: Obj)
    requires o in h
  {
    h[o].storedStatic != 0
  }

  // ----- garbagecollectorstate -----

  function SetChecked(h: Heap, st: Search, o: Obj): (r: Search)
    requires Fits(h, st) && o in h
    ensures Shrinks(h, st, r)
  {
    if o != st.start && !st.counters[o].isChecked then
      st.(checked := st.checked + [o], counters := st.counters[o := st.counters[o].(isChecked := true)])
    else st
  }

  function IgnoreCount(h: Heap, st: Search, o: Obj): (r: Search)
    requires Fits(h, st) && o in h
    ensures Shrinks(h, st, r)
  {
    var st1 := SetChecked(h, st, o);
    var st2 := st1.Put(o, st1.counters[o].(ignore := true));
    if st2.counters[o].hasMember then st2.(stopped := true) else st2
  }

  function ResetAll(counters: map<Obj, Counter>, objs: seq<Obj>): (r: map<Obj, Counter>)
    decreases |objs|
  {
    if objs == [] then counters else ResetAll(counters[objs[0] := ZERO], objs[1..])
  }

  function Reset(st: Search): Search {
    st.(counters := ResetAll(st.counters[st.start := ZERO], st.checked))
  }

  // ----- which members a pass follows -----

  /** Owned objects first, then watchers, then the properties that hold an object also stored in a
      static object, then all other properties. 4: not followed at all. */
  function PhaseOf(h: Heap, x: Obj, k: nat): nat
    requires WellFormed(h) && x in h && k < |h[x].members|
  {
    var m := h[x].members[k];
    if m.target.None? then 4
    else
      var n := h[m.target.value];
      match m.kind
      case Owned => 0
      case Watcher => 1
      case Accessor => 4
      case Property =>
        if m.counted && !n.cached && !n.inDestruction && n.cyclic && !n.deletedInGc
        then (if HasStatic(h, m.target.value) then 2 else 3)
        else 4
  }

  /** Step 0 of the property scan: is some property equal to the start object? */
  predicate StoresStart(h: Heap, x: Obj, start: Obj)
    requires WellFormed(h) && x in h && start in h
  {
    exists k :: 0 <= k < |h[x].members| && h[x].members[k].kind == Property
      && h[x].members[k].target == Some(start) && !h[start].cached && !h[start].inDestruction
  }

  // ----- the search -----

  function CountAll(h: Heap, st: Search, s: Slot, o: Obj): (r: Step)
    requires WellFormed(h) && Fits(h, st) && o in h
    ensures Shrinks(h, st, r.st)
    decreases Fresh(st), 1
  {
    var n := h[o];
    if !n.cyclic then Step(st, false)
    else
      var st1 := if HasStatic(h, o) && st.counters[o].hasMember then st.(stopped := true) else st;
      if st1.stopped then Step(st1, false)
      else
        var st2 := if n.constant || HasStatic(h, o) then IgnoreCount(h, st1, o) else st1;
        if st2.counters[o].ignore then Step(st2, st2.counters[o].hasMember)
        else
          assert st2 == st;
          var r := Visit(h, st2, s, o);
          if r.ret then Step(Propagate(h, r.st, o, |r.st.stack|), true) else r
  }

  function Counted(st: Search, s: Slot, o: Obj): Search
    requires o in st.counters
  {
    st.Put(o, st.counters[o].(count := st.counters[o].count + 1)).(ledger := st.ledger + {s})
  }

  function Enter(st: Search, o: Obj): Search
    requires o in st.counters
  {
    st.Put(o, st.counters[o].(inChecking := true)).(stack := st.stack + [o])
  }

  function Leave(h: Heap, st: Search, o: Obj, ret: bool): (r: Search)
    requires Fits(h, st) && o in h && st.stack != []
    ensures Fits(h, r) && r.start == st.start && r.stack == st.stack[..|st.stack| - 1]
  {
    var c := st.counters[o];
    SetChecked(h,
      st.Put(o, c.(hasMember := c.hasMember || ret, inChecking := false)).(stack := st.stack[..|st.stack| - 1]), o)
  }

  function Visit(h: Heap, st: Search, s: Slot, o: Obj): (r: Step)
    requires WellFormed(h) && Fits(h, st) && o in h
    ensures Shrinks(h, st, r.st)
    decreases Fresh(st), 0
  {
    var c := st.counters[o];
    if o == st.start then Step(Counted(st, s, o), true)
    else if c.inChecking then Step(Counted(st, s, o), c.hasMember)
    else if !h[o].inDestruction && !h[o].cached && !h[o].deletedInGc then
      if c.isChecked then Step(Counted(st, s, o), c.hasMember)
      else
        var entered := Enter(Counted(st, s, o), o);
        assert !IsFresh(entered, o) && IsFresh(st, o);
        var r := CountMembers(h, entered, o);
        var left := Leave(h, r.st, o, r.ret);
        Step(left, left.counters[o].hasMember)
    else Step(st, c.hasMember)
  }

  function Propagate(h: Heap, st: Search, o: Obj, n: nat): (r: Search)
    requires Fits(h, st) && o in h && n <= |st.stack|
    ensures Shrinks(h, st, r)
    decreases n
  {
    if n == 0 then st
    else
      var a := st.stack[n - 1];
      assert a in st.stack;
      if st.counters[a].hasMember || h[a].deletedInGc then st
      else
        var st1 := SetChecked(h, st.Put(a, st.counters[a].(hasMember := true)), a);
        if HasStatic(h, a) || h[a].constant then IgnoreCount(h, st1, o).(stopped := true)
        else Propagate(h, st1, o, n - 1)
  }

  function CountMembers(h: Heap, st: Search, x: Obj): (r: Step)
    requires WellFormed(h) && Fits(h, st) && x in h
    ensures Shrinks(h, st, r.st)
    decreases Fresh(st), 4
  {
    var a := Scan(h, st, x, 0, 0, false);
    if a.st.stopped then Step(a.st, false)
    else
      var b := Scan(h, a.st, x, 1, 0, a.ret);
      if b.st.stopped then Step(b.st, false)
      else
        var c := Scan(h, MarkHolder(h, b.st, x), x, 2, 0, false);
        var d := Scan(h, c.st, x, 3, 0, c.ret);
        Step(d.st, d.ret || b.ret)
  }

  function MarkHolder(h: Heap, st: Search, x: Obj): (r: Search)
    requires WellFormed(h) && Fits(h, st) && x in h
    ensures Shrinks(h, st, r)
  {
    if StoresStart(h, x, st.start) then st.Put(x, st.counters[x].(hasMember := true)) else st
  }

  function Scan(h: Heap, st: Search, x: Obj, phase: nat, i: nat, ret: bool): (r: Step)
    requires WellFormed(h) && Fits(h, st) && x in h && phase < 4 && i <= |h[x].members|
    ensures Shrinks(h, st, r.st)
    decreases Fresh(st), 3, |h[x].members| - i
  {
    if st.stopped then Step(st, false)
    else if i == |h[x].members| then Step(st, ret)
    else if PhaseOf(h, x, i) != phase then Scan(h, st, x, phase, i + 1, ret)
    else
      var o := h[x].members[i].target.value;
      var r := if phase < 2 then CountAll(h, st, (x, i), o) else Follow(h, st, x, i, o);
      Scan(h, r.st, x, phase, i + 1, r.ret || ret)
  }

  function Follow(h: Heap, st: Search, x: Obj, i: nat, o: Obj): (r: Step)
    requires WellFormed(h) && Fits(h, st) && x in h && o in h
    ensures Shrinks(h, st, r.st)
    decreases Fresh(st), 2
  {
    if h[o].refCount == h[o].stored || o == st.start then
      var r := CountAll(h, st, (x, i), o);
      if r.ret then FlagFollowed(h, r.st, x, o)
      else Step(r.st, r.st.counters[o].hasMember)
    else Step(st, st.counters[o].hasMember)
  }

  /** The object followed reaches the start object. */
  function FlagFollowed(h: Heap, st: Search, x: Obj, o: Obj): (r: Step)
    requires Fits(h, st) && x in h && o in h
    ensures Shrinks(h, st, r.st)
  {
    var st1 := SetChecked(h, st, o);
    var st2 := st1.Put(o, st1.counters[o].(hasMember := true));
    if !st2.counters[o].ignore && st2.counters[x].ignore then
      Step(st2.Put(o, st2.counters[o].(ignore := true)).(stopped := true), false)
    else Step(st2, true)
  }
}
