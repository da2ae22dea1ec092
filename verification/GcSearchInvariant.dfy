/** What every step of the search keeps, whatever the shape of the object graph. */
module GcSearchInvariant {
  import opened AvmHeap
  import opened GcSearch

  /** The slots of the ledger that hold `o`. */
  ghost function LedgerOf(h: Heap, ledger: set<Slot>, o: Obj): (r: set<Slot>)
    ensures forall s :: s in r <==> s in ledger && Holds(h, s, o)
  {
    set s | s in ledger && Holds(h, s, o)
  }

  predicate Visited(st: Search, o: Obj) {
    o in st.counters && (o == st.start || st.counters[o].isChecked || st.counters[o].inChecking)
  }

  /** Neither constant nor stored in a static object, and not on its way out. */
  predicate Scannable(h: Heap, o: Obj)
    requires o in h
  {
    h[o].cyclic && !h[o].constant && !HasStatic(h, o)
    && !h[o].inDestruction && !h[o].cached && !h[o].deletedInGc
  }

  /** The flags of one object agree with the stack and with checkedobjects, its count with the
      ledger, and an object on neither carries nothing in its counter. */
  ghost predicate Sound(h: Heap, st: Search, o: Obj) {
    && o in h && o in st.counters
    && (o in st.stack <==> st.counters[o].inChecking)
    && (o in st.checked <==> st.counters[o].isChecked)
    && (o in st.stack ==> o != st.start && Scannable(h, o))
    && (o in st.checked ==> o != st.start && h[o].cyclic && (st.counters[o].ignore || Scannable(h, o)))
    && (st.counters[o].ignore ==> o in st.checked && (h[o].constant || HasStatic(h, o)))
    && st.counters[o].count == |LedgerOf(h, st.ledger, o)|
    && (!Visited(st, o) ==> st.counters[o] == ZERO)
  }

  /** A reference the search counts: owned objects and watchers always, a property only if it holds the
      start object or one that only members refer to, getters and setters never. */
  predicate Followed(h: Heap, start: Obj, s: Slot, o: Obj) {
    && Holds(h, s, o) && !h[s.0].members[s.1].kind.Accessor?
    && (h[s.0].members[s.1].kind.Property? ==> o == start || (o in h && h[o].refCount == h[o].stored))
  }

  predicate SlotSound(h: Heap, st: Search, s: Slot) {
    Visited(st, s.0) && s.0 in h && s.1 < |h[s.0].members|
    && h[s.0].members[s.1].counted && h[s.0].members[s.1].target.Some?
    && Followed(h, st.start, s, h[s.0].members[s.1].target.value)
  }

  ghost predicate Inv(h: Heap, st: Search) {
    && Fits(h, st)
    && Scannable(h, st.start)
    && (forall o {:trigger Sound(h, st, o)} :: o in h ==> Sound(h, st, o))
    && (forall s {:trigger SlotSound(h, st, s)} :: s in st.ledger ==> SlotSound(h, st, s))
    && (forall i, j :: 0 <= i < j < |st.stack| ==> st.stack[i] != st.stack[j])
  }

  predicate GrowsAt(st: Search, st': Search, o: Obj) {
    o in st.counters && o in st'.counters &&
    var c, c' := st.counters[o], st'.counters[o];
    && c.count <= c'.count
    && (c.hasMember ==> c'.hasMember)
    && (c.ignore ==> c'.ignore)
    && (c.isChecked ==> c'.isChecked)
    && c.inChecking == c'.inChecking
  }

  ghost predicate Grows(h: Heap, st: Search, st': Search) {
    && st'.start == st.start && st'.stack == st.stack
    && st.ledger <= st'.ledger
    && (st.stopped ==> st'.stopped)
    && (forall o {:trigger GrowsAt(st, st', o)} :: o in h ==> GrowsAt(st, st', o))
  }

  /** The object whose members are being scanned: the top of the stack, else the start object. */
  predicate AtTop(st: Search, x: Obj) {
    if st.stack == [] then x == st.start else x == st.stack[|st.stack| - 1]
  }

  lemma GrowsTrans(h: Heap, a: Search, b: Search, c: Search)
    requires Grows(h, a, b) && Grows(h, b, c)
    ensures Grows(h, a, c)
  {
    forall o | o in h ensures GrowsAt(a, c, o) {
      assert GrowsAt(a, b, o) && GrowsAt(b, c, o);
    }
  }

  // ----- elementary steps -----

  /** A step that changes no counter but o's. */
  lemma TouchKeeps(h: Heap, st: Search, st': Search, o: Obj)
    requires Inv(h, st) && Fits(h, st') && o in h && Sound(h, st', o) && GrowsAt(st, st', o)
    requires st'.start == st.start && st'.stack == st.stack && st'.ledger == st.ledger
    requires st.stopped ==> st'.stopped
    requires st'.checked == st.checked || st'.checked == st.checked + [o]
    requires forall p :: p in h && p != o ==> st'.counters[p] == st.counters[p]
    ensures Inv(h, st') && Grows(h, st, st')
  {
    forall p | p in h ensures Sound(h, st', p) && GrowsAt(st, st', p) {
      assert Sound(h, st, p);
    }
    forall s | s in st'.ledger ensures SlotSound(h, st', s) {
      assert SlotSound(h, st, s);
    }
  }

  lemma SetCheckedKeeps(h: Heap, st: Search, o: Obj)
    requires Inv(h, st) && o in h
    requires Visited(st, o) || Scannable(h, o)
    ensures var st' := SetChecked(h, st, o);
      Inv(h, st') && Grows(h, st, st') && Visited(st', o)
  {
    assert Sound(h, st, o);
    TouchKeeps(h, st, SetChecked(h, st, o), o);
  }

  lemma FlagKeeps(h: Heap, st: Search, o: Obj)
    requires Inv(h, st) && o in h && Visited(st, o)
    ensures var st' := st.Put(o, st.counters[o].(hasMember := true)); Inv(h, st') && Grows(h, st, st')
  {
    assert Sound(h, st, o);
    TouchKeeps(h, st, st.Put(o, st.counters[o].(hasMember := true)), o);
  }

  lemma IgnoreKeeps(h: Heap, st: Search, o: Obj)
    requires Inv(h, st) && o in h && h[o].cyclic && (h[o].constant || HasStatic(h, o))
    ensures var st' := IgnoreCount(h, st, o); Inv(h, st') && Grows(h, st, st') && st'.ledger == st.ledger
  {
    assert Sound(h, st, o);
    TouchKeeps(h, st, IgnoreCount(h, st, o), o);
  }

  lemma LedgerAdd(h: Heap, ledger: set<Slot>, s: Slot, o: Obj, p: Obj)
    requires Holds(h, s, o) && s !in ledger
    ensures |LedgerOf(h, ledger + {s}, p)| == |LedgerOf(h, ledger, p)| + if p == o then 1 else 0
  {
    if p == o {
      assert LedgerOf(h, ledger + {s}, p) == LedgerOf(h, ledger, p) + {s};
    } else {
      assert LedgerOf(h, ledger + {s}, p) == LedgerOf(h, ledger, p);
    }
  }

  lemma CountedKeeps(h: Heap, st: Search, s: Slot, o: Obj)
    requires Inv(h, st) && Followed(h, st.start, s, o) && o in h && s !in st.ledger
    requires Visited(st, s.0) && Visited(st, o)
    ensures var st' := Counted(st, s, o); Inv(h, st') && Grows(h, st, st')
  {
    hide Sound, GrowsAt, SlotSound, Visited, Holds;
    var st' := Counted(st, s, o);
    forall t | t in st'.ledger ensures SlotSound(h, st', t) {
      if t != s { assert SlotSound(h, st, t); }
      CountedSlot(h, st, s, o, t);
    }
    forall p | p in h ensures Sound(h, st', p) && GrowsAt(st, st', p) {
      assert Sound(h, st, p);
      CountedSound(h, st, s, o, p);
    }
  }

  lemma CountedSlot(h: Heap, st: Search, s: Slot, o: Obj, t: Slot)
    requires Fits(h, st) && Followed(h, st.start, s, o) && o in h && Visited(st, s.0) && (t != s ==> SlotSound(h, st, t))
    ensures SlotSound(h, Counted(st, s, o), t)
  {
  }

  lemma CountedSound(h: Heap, st: Search, s: Slot, o: Obj, p: Obj)
    requires Fits(h, st) && Holds(h, s, o) && o in h && s !in st.ledger && p in h && Sound(h, st, p)
    requires Visited(st, s.0) && Visited(st, o)
    ensures Sound(h, Counted(st, s, o), p) && GrowsAt(st, Counted(st, s, o), p)
  {
    LedgerAdd(h, st.ledger, s, o, p);
  }

  lemma EnterKeeps(h: Heap, st: Search, s: Slot, o: Obj)
    requires Inv(h, st) && Followed(h, st.start, s, o) && o in h && s !in st.ledger
    requires Visited(st, s.0) && o != st.start && IsFresh(st, o) && Scannable(h, o)
    ensures var st' := Enter(Counted(st, s, o), o); Inv(h, st') && AtTop(st', o)
  {
    var st' := Enter(Counted(st, s, o), o);
    assert o !in st.stack by { assert Sound(h, st, o); }
    EnterShape(h, st, s, o);
    assert st'.ledger == st.ledger + {s} && st'.start == st.start;
    hide Sound, SlotSound, Visited, Holds, Scannable, Enter, Counted, Fits;
    forall p | p in h ensures Sound(h, st', p) {
      assert Sound(h, st, p);
      EnterSound(h, st, s, o, p);
    }
    forall t | t in st'.ledger ensures SlotSound(h, st', t) {
      if t != s { assert SlotSound(h, st, t); }
      EnterSlot(h, st, s, o, t);
    }
  }

  lemma EnterShape(h: Heap, st: Search, s: Slot, o: Obj)
    requires Fits(h, st) && o in h && o !in st.stack
    requires forall i, j :: 0 <= i < j < |st.stack| ==> st.stack[i] != st.stack[j]
    ensures var st' := Enter(Counted(st, s, o), o);
      Fits(h, st') && AtTop(st', o) && forall i, j :: 0 <= i < j < |st'.stack| ==> st'.stack[i] != st'.stack[j]
  {
  }

  lemma EnterSound(h: Heap, st: Search, s: Slot, o: Obj, p: Obj)
    requires Fits(h, st) && Holds(h, s, o) && o in h && s !in st.ledger && p in h && Sound(h, st, p)
    requires Visited(st, s.0) && o != st.start && IsFresh(st, o) && Scannable(h, o)
    ensures Sound(h, Enter(Counted(st, s, o), o), p)
  {
    LedgerAdd(h, st.ledger, s, o, p);
  }

  lemma EnterSlot(h: Heap, st: Search, s: Slot, o: Obj, t: Slot)
    requires Fits(h, st) && Followed(h, st.start, s, o) && o in h && Visited(st, s.0) && (t != s ==> SlotSound(h, st, t))
    ensures SlotSound(h, Enter(Counted(st, s, o), o), t)
  {
  }

  lemma LeaveKeeps(h: Heap, st: Search, o: Obj, ret: bool)
    requires Inv(h, st) && st.stack != [] && AtTop(st, o)
    ensures var st' := Leave(h, st, o, ret);
      && Inv(h, st') && st'.ledger == st.ledger && st'.stopped == st.stopped && Visited(st', o)
      && (forall p :: p in h && p != o ==> st'.counters[p] == st.counters[p])
      && st'.counters[o].count == st.counters[o].count
      && st'.counters[o].hasMember == (st.counters[o].hasMember || ret)
      && st'.counters[o].ignore == st.counters[o].ignore && !st'.counters[o].inChecking
  {
    var st' := Leave(h, st, o, ret);
    var n := |st.stack| - 1;
    assert st.stack == st.stack[..n] + [o];
    assert Sound(h, st, o);
    forall p | p in h ensures Sound(h, st', p) {
      assert Sound(h, st, p);
    }
    forall s | s in st'.ledger ensures SlotSound(h, st', s) {
      LeaveSlot(h, st, o, ret, s);
    }
  }

  lemma LeaveSlot(h: Heap, st: Search, o: Obj, ret: bool, s: Slot)
    requires Inv(h, st) && st.stack != [] && AtTop(st, o) && s in st.ledger
    ensures SlotSound(h, Leave(h, st, o, ret), s)
  {
    assert SlotSound(h, st, s) && Sound(h, st, o);
  }

  // ----- whole search -----

  predicate HolderFlagged(h: Heap, st: Search, s: Slot) {
    Holds(h, s, st.start) && s.0 != st.start ==> s.0 in st.counters && st.counters[s.0].hasMember
  }

  /** Every counted holder of the start object is flagged. */
  ghost predicate HoldersFlagged(h: Heap, st: Search, except: set<Slot>) {
    forall s {:trigger HolderFlagged(h, st, s)} :: s in st.ledger && s !in except ==> HolderFlagged(h, st, s)
  }

  predicate Unentered(st: Search, o: Obj) { o != st.start && IsFresh(st, o) }

  /** Nothing counted between st and st' but the slots allowed and those of objects entered since. */
  ghost predicate NewSlots(st: Search, st': Search, allowed: set<Slot>) {
    forall t :: t in st'.ledger && t !in st.ledger ==> t in allowed || Unentered(st, t.0)
  }

  /** The slots of `x` that pass `phase` follows from position i on. */
  ghost function PhaseSlots(h: Heap, x: Obj, phase: nat, i: nat): (r: set<Slot>)
    requires WellFormed(h) && x in h
    ensures forall s :: s in r <==> s.0 == x && i <= s.1 < |h[x].members| && PhaseOf(h, x, s.1) == phase
  {
    set k: nat | i <= k < |h[x].members| && PhaseOf(h, x, k) == phase :: (x, k)
  }

  lemma HoldersGrow(h: Heap, st: Search, st': Search, except: set<Slot>)
    requires Inv(h, st) && HoldersFlagged(h, st, except) && Grows(h, st, st') && st'.ledger == st.ledger
    ensures HoldersFlagged(h, st', except)
  {
    forall s | s in st'.ledger && s !in except ensures HolderFlagged(h, st', s) {
      assert HolderFlagged(h, st, s) && SlotSound(h, st, s);
      assert GrowsAt(st, st', s.0);
    }
  }

  /** Nothing off the stack is flagged on the way from st to st', but for the start object. */
  predicate FlagsOnStack(h: Heap, st: Search, st': Search) {
    forall p :: p in h && p in st.counters && p in st'.counters && p != st.start && !st.counters[p].inChecking ==>
      (st'.counters[p].hasMember ==> st.counters[p].hasMember)
  }

  /** Nor is anything off the stack finished. */
  predicate ChecksOnStack(h: Heap, st: Search, st': Search) {
    forall p :: p in h && p in st.counters && p in st'.counters && !st.counters[p].inChecking ==>
      (st'.counters[p].isChecked ==> st.counters[p].isChecked)
  }

  lemma GrowsSelf(h: Heap, st: Search)
    requires Inv(h, st)
    ensures Grows(h, st, st) && FlagsOnStack(h, st, st) && ChecksOnStack(h, st, st)
  {
    forall p | p in h ensures GrowsAt(st, st, p) { }
  }

  lemma FlagsOnStackTrans(h: Heap, a: Search, b: Search, c: Search)
    requires FlagsOnStack(h, a, b) && FlagsOnStack(h, b, c) && Grows(h, a, b)
    requires ChecksOnStack(h, a, b) && ChecksOnStack(h, b, c)
    ensures FlagsOnStack(h, a, c) && ChecksOnStack(h, a, c)
  {
    forall p | p in h ensures GrowsAt(a, b, p) { }
  }

  lemma StaysFlagged(h: Heap, st: Search, st': Search, o: Obj)
    requires Grows(h, st, st') && o in h && o in st.counters && st.counters[o].hasMember
    ensures o in st'.counters && st'.counters[o].hasMember && st'.stack == st.stack && st'.ledger >= st.ledger
  {
    assert GrowsAt(st, st', o);
  }

  /** One object of the stack gets its flag. */
  lemma FlagHolderKeeps(h: Heap, st: Search, a: Obj)
    requires Inv(h, st) && a in st.stack && a in h
    ensures var st1 := SetChecked(h, st.Put(a, st.counters[a].(hasMember := true)), a);
      && Inv(h, st1) && Grows(h, st, st1) && FlagsOnStack(h, st, st1) && ChecksOnStack(h, st, st1)
      && st1.ledger == st.ledger && st1.stopped == st.stopped && st1.counters[a].hasMember
  {
    assert Sound(h, st, a);
    var st0 := st.Put(a, st.counters[a].(hasMember := true));
    FlagKeeps(h, st, a);
    SetCheckedKeeps(h, st0, a);
    GrowsTrans(h, st, st0, SetChecked(h, st0, a));
  }

  lemma {:induction false} PropagateKeeps(h: Heap, st: Search, o: Obj, n: nat)
    requires Inv(h, st) && o in h && n <= |st.stack|
    ensures var st' := Propagate(h, st, o, n);
      && Inv(h, st') && Grows(h, st, st') && st'.ledger == st.ledger
      && (n > 0 ==> st'.counters[st.stack[n - 1]].hasMember)
      && FlagsOnStack(h, st, st') && ChecksOnStack(h, st, st') && st'.stopped == st.stopped
    decreases n
  {
    GrowsSelf(h, st);
    if n > 0 {
      var a := st.stack[n - 1];
      assert a in st.stack && Sound(h, st, a);
      FlagHolderKeeps(h, st, a);
      var st1 := SetChecked(h, st.Put(a, st.counters[a].(hasMember := true)), a);
      assert Propagate(h, st, o, n) == if st.counters[a].hasMember then st else Propagate(h, st1, o, n - 1);
      hide Inv, Grows, FlagsOnStack, ChecksOnStack, Propagate;
      if !st.counters[a].hasMember {
        PropagateKeeps(h, st1, o, n - 1);
        var st2 := Propagate(h, st1, o, n - 1);
        GrowsTrans(h, st, st1, st2);
        FlagsOnStackTrans(h, st, st1, st2);
        StaysFlagged(h, st1, st2, a);
      }
    }
  }
}
