/** Reference counting of script objects as functions from heap to heap: RefCountable's incRef and
    decRef, the stored-member counts of ASObject, and the cascade of destructions a release starts.
 */
module RefCounting {
  import opened Wrappers
  import opened AvmHeap

  /** Objects whose destruction has not begun: the termination measure of the cascade. */
  function Pristine(h: Heap): (r: set<Obj>)
    ensures forall o :: o in r <==> o in h && !h[o].inDestruction && !h[o].freed
  {
    set o | o in h && !h[o].inDestruction && !h[o].freed
  }

  function Erased(m: Member): Member { m.(target := None) }

  /** destroyContents empties the properties with their getters and setters; owned objects and
      watchers follow. */
  function ClearPass(m: Member): nat {
    match m.kind
    case Property => 0
    case Accessor => 0
    case Owned => 1
    case Watcher => 2
  }

  predicate ToClear(m: Member, j: nat, pass: nat, k: nat) {
    ClearPass(m) > pass || (ClearPass(m) == pass && j >= k)
  }

  predicate AllErased(ms: seq<Member>, ms': seq<Member>) {
    |ms'| == |ms| && forall j :: 0 <= j < |ms| ==> ms'[j] == Erased(ms[j])
  }

  /** `ms` with everything erased that pass `pass` from position k on, and the later passes, clear. */
  predicate ClearedFrom(ms: seq<Member>, ms': seq<Member>, pass: nat, k: nat) {
    |ms'| == |ms| &&
    forall j :: 0 <= j < |ms| ==> ms'[j] == if ToClear(ms[j], j, pass, k) then Erased(ms[j]) else ms[j]
  }

  /** Releasing a stored member of such an object changes nothing. */
  predicate Locked(r: Rec) { r.constant || r.cached || r.inDestruction || r.freed }

  /** Releases will never put the object into the collector's list. */
  predicate NotListable(r: Rec) {
    !r.inList && (!r.cyclic || r.storedStatic != 0 || (r.refCount >= 1 && r.stored <= 1))
  }

  /** What a release may do to one record: nothing but counts and list flags, or destroy it. */
  predicate EvolvesAt(h: Heap, h': Heap, x: Obj) {
    x in h && x in h' &&
    var r, r' := h[x], h'[x];
    && r'.constant == r.constant && r'.cached == r.cached && r'.cyclic == r.cyclic
    && r'.deletedInGc == r.deletedInGc && r'.storedStatic == r.storedStatic
    && |r'.members| == |r.members|
    && (Locked(r) ==> r' == r)
    && (r.inList ==> r'.inList) && (NotListable(r) && !r'.freed ==> NotListable(r'))
    && (r'.freed == r.freed ==> r'.inDestruction == r.inDestruction && r'.members == r.members)
    && (r'.freed != r.freed ==> !Locked(r) && r'.freed && !r'.inDestruction && AllErased(r.members, r'.members))
  }

  ghost predicate Evolves(h: Heap, h': Heap, except: set<Obj>) {
    h'.Keys == h.Keys && forall x {:trigger EvolvesAt(h, h', x)} :: x in h && x !in except ==> EvolvesAt(h, h', x)
  }

  ghost predicate SameShape(h: Heap, h': Heap) {
    && WellFormed(h') && h'.Keys == h.Keys
    && (forall x :: x in h ==> |h'[x].members| == |h[x].members|)
    && (forall x, j :: x in h && 0 <= j < |h[x].members| ==> h'[x].members[j].kind == h[x].members[j].kind)
  }

  lemma EvolvesTrans(a: Heap, b: Heap, c: Heap, s: set<Obj>)
    requires Evolves(a, b, s) && Evolves(b, c, s)
    ensures Evolves(a, c, s)
  {
    forall x | x in a && x !in s ensures EvolvesAt(a, c, x) {
      assert EvolvesAt(a, b, x) && EvolvesAt(b, c, x);
    }
  }

  lemma EvolvesPristine(h: Heap, h': Heap)
    requires Evolves(h, h', {})
    ensures Pristine(h') <= Pristine(h)
  {
    forall x | x in Pristine(h') ensures x in Pristine(h) {
      assert EvolvesAt(h, h', x);
    }
  }

  lemma EvolvesExcept(h: Heap, h': Heap, s: set<Obj>, t: set<Obj>)
    requires Evolves(h, h', s) && s <= t
    ensures Evolves(h, h', t)
  {
    forall x | x in h && x !in t ensures EvolvesAt(h, h', x) { }
  }

  // ----- RefCountable -----

  function IncRef(h: Heap, o: Obj): (h': Heap)
    requires WellFormed(h) && o in h
    ensures SameShape(h, h')
  {
    if h[o].constant then h else h[o := h[o].(refCount := h[o].refCount + 1)]
  }

  /** Nothing is said about a freed object's counts: Conservation shows none is ever released. */
  function DecRef(h: Heap, o: Obj): (h': Heap)
    requires WellFormed(h) && o in h
    ensures WellFormed(h') && h'.Keys == h.Keys
    ensures if h[o].inDestruction then h' == h[o := h[o].(refCount := h'[o].refCount)] else Evolves(h, h', {})
    decreases Pristine(h), 2
  {
    var r := h[o];
    if r.constant || r.cached || r.freed then Same(h)
    else if r.refCount == 1 then HandleDestruction(h, o)
    else CountDown(h, o)
  }

  function CountDown(h: Heap, o: Obj): (h': Heap)
    requires WellFormed(h) && o in h && !h[o].constant && !h[o].cached && !h[o].freed && h[o].refCount != 1
    ensures h' == h[o := h[o].(refCount := h[o].refCount - 1)] && WellFormed(h') && h'.Keys == h.Keys
    ensures !h[o].inDestruction ==> Evolves(h, h', {})
  {
    var r := h[o].(refCount := h[o].refCount - 1);
    if h[o].inDestruction then h[o := r] else Update(h, o, r)
  }

  function Same(h: Heap): (h': Heap)
    requires WellFormed(h)
    ensures h' == h && Evolves(h, h', {})
  {
    assert forall x :: x in h ==> EvolvesAt(h, h, x);
    h
  }

  /** A change to counts and list flags of one object. */
  function Update(h: Heap, o: Obj, r: Rec): (h': Heap)
    requires WellFormed(h) && o in h
    requires r == h[o].(refCount := r.refCount, stored := r.stored, marked := r.marked, inList := r.inList)
    requires !Locked(h[o]) && (h[o].inList ==> r.inList) && (NotListable(h[o]) ==> NotListable(r))
    ensures h' == h[o := r] && Evolves(h, h', {}) && WellFormed(h')
  {
    assert forall x :: x in h ==> EvolvesAt(h, h[o := r], x);
    h[o := r]
  }

  function Freed(r: Rec): Rec { r.(freed := true, inDestruction := false, refCount := -1024) }

  function HandleDestruction(h: Heap, o: Obj): (h': Heap)
    requires WellFormed(h) && o in h && !h[o].freed && !h[o].constant && !h[o].cached
    ensures Evolves(h, h', {}) && WellFormed(h')
    ensures h[o].inDestruction ==> h' == h
    decreases Pristine(h), 1
  {
    if h[o].inDestruction then Same(h)
    else
      var h1 := h[o := h[o].(inDestruction := true, refCount := 1)];
      assert o in Pristine(h) && o !in Pristine(h1);
      var h2 := Destruct(h1, o, 0, 0);
      var h' := h2[o := Freed(h2[o])];
      assert Evolves(h, h', {}) by {
        forall x | x in h ensures EvolvesAt(h, h', x) {
          assert x != o ==> EvolvesAt(h1, h2, x);
        }
      }
      h'
  }

  /** From position k of pass `pass` on all members of `o` are erased; other objects evolve. */
  ghost predicate Emptied(h: Heap, h': Heap, o: Obj, pass: nat, k: nat) {
    && Evolves(h, h', {o}) && WellFormed(h') && o in h && o in h'
    && h'[o] == h[o].(members := h'[o].members) && ClearedFrom(h[o].members, h'[o].members, pass, k)
  }

  /** Erases the members of `o` pass by pass, releasing what each one held. */
  function Destruct(h: Heap, o: Obj, pass: nat, k: nat): (h': Heap)
    requires WellFormed(h) && o in h && Locked(h[o]) && pass < 3 && k <= |h[o].members|
    ensures Emptied(h, h', o, pass, k)
    decreases Pristine(h), 5, 3 - pass, |h[o].members| - k
  {
    if k == |h[o].members| then
      if pass == 2 then
        DestructDone(h, o);
        h
      else
        DestructSkips(h, Destruct(h, o, pass + 1, 0), o, pass, k);
        Destruct(h, o, pass + 1, 0)
    else if ClearPass(h[o].members[k]) != pass then
      DestructSkips(h, Destruct(h, o, pass, k + 1), o, pass, k);
      Destruct(h, o, pass, k + 1)
    else
      var h1 := DropMember(h, o, k);
      DestructNext(h, h1, Destruct(h1, o, pass, k + 1), o, pass, k);
      Destruct(h1, o, pass, k + 1)
  }

  lemma DestructDone(h: Heap, o: Obj)
    requires WellFormed(h) && o in h
    ensures Emptied(h, h, o, 2, |h[o].members|)
  {
    EvolvesExcept(h, Same(h), {}, {o});
  }

  /** At the end of a pass, and at a member of another pass. */
  lemma DestructSkips(h: Heap, h': Heap, o: Obj, pass: nat, k: nat)
    requires o in h && pass < 3 && k <= |h[o].members|
    requires if k == |h[o].members| then Emptied(h, h', o, pass + 1, 0)
             else ClearPass(h[o].members[k]) != pass && Emptied(h, h', o, pass, k + 1)
    ensures Emptied(h, h', o, pass, k)
  {
  }

  /** One member erased, and then the rest. */
  lemma DestructNext(h: Heap, h1: Heap, h': Heap, o: Obj, pass: nat, k: nat)
    requires Evolves(h, h1, {o}) && o in h && k < |h[o].members| && ClearPass(h[o].members[k]) == pass
    requires o in h1 && h1[o] == h[o].(members := h[o].members[k := Erased(h[o].members[k])])
    requires Emptied(h1, h', o, pass, k + 1)
    ensures Emptied(h, h', o, pass, k)
  {
    EvolvesTrans(h, h1, h', {o});
  }

  lemma SameKeys(h: Heap, h': Heap, s: set<Obj>)
    requires Evolves(h, h', s)
    ensures h'.Keys == h.Keys
  {
  }

  function Erase(h: Heap, o: Obj, k: nat): (h': Heap)
    requires WellFormed(h) && o in h && k < |h[o].members|
    ensures h' == h[o := h[o].(members := h[o].members[k := Erased(h[o].members[k])])]
    ensures WellFormed(h') && Evolves(h, h', {o}) && Pristine(h') == Pristine(h)
  {
    var h' := h[o := h[o].(members := h[o].members[k := Erased(h[o].members[k])])];
    assert forall x :: x in h && x != o ==> EvolvesAt(h, h', x);
    h'
  }

  function DropMember(h: Heap, o: Obj, k: nat): (h': Heap)
    requires WellFormed(h) && o in h && Locked(h[o]) && k < |h[o].members|
    ensures Evolves(h, h', {o}) && WellFormed(h') && Pristine(h') <= Pristine(h)
    ensures h'[o] == h[o].(members := h[o].members[k := Erased(h[o].members[k])])
    decreases Pristine(h), 4
  {
    var m := h[o].members[k];
    var h1 := Erase(h, o, k);
    if m.counted && m.target.Some? then
      var h' := RemoveStored(h1, m.target.value);
      assert EvolvesAt(h1, h', o);
      EvolvesPristine(h1, h');
      EvolvesExcept(h1, h', {}, {o});
      EvolvesTrans(h, h1, h', {o});
      h'
    else h1
  }

  // ----- stored members -----

  /** With one more stored reference gone, only other objects' members would be left. */
  predicate Suspect(r: Rec) {
    r.stored - 1 != 0 && !r.marked && r.refCount == r.stored - 1 + 1 && r.storedStatic == 0
  }

  function Unstore(h: Heap, o: Obj): (h': Heap)
    requires WellFormed(h) && o in h && !Locked(h[o])
    ensures Evolves(h, h', {}) && WellFormed(h')
  {
    Update(h, o, h[o].(stored := h[o].stored - 1))
  }

  /** The reference just removed becomes the collector list's. */
  function UnstoreToCollector(h: Heap, o: Obj): (h': Heap)
    requires WellFormed(h) && o in h && !Locked(h[o]) && h[o].cyclic && Suspect(h[o])
    ensures Evolves(h, h', {}) && WellFormed(h')
  {
    Update(h, o, h[o].(stored := h[o].stored - 1, inList := true, marked := true))
  }

  function RemoveStored(h: Heap, o: Obj): (h': Heap)
    requires WellFormed(h) && o in h
    ensures Evolves(h, h', {}) && WellFormed(h')
    ensures Locked(h[o]) || h[o].deletedInGc ==> h' == h
    decreases Pristine(h), 3
  {
    var r := h[o];
    if Locked(r) || r.deletedInGc then Same(h)
    else if !r.cyclic then DecRef(h, o)
    else if Suspect(r) then UnstoreToCollector(h, o)
    else
      var h1 := Unstore(h, o);
      EvolvesPristine(h, h1);
      var h' := DecRef(h1, o);
      EvolvesTrans(h, h1, h', {});
      h'
  }

  /** removefromGarbageCollection: also clears the mark; true when the object is never listed. */
  function RemoveFromGc(h: Heap, o: Obj): (Heap, bool)
    requires o in h
  {
    var r := h[o];
    if !r.cyclic then (h, true)
    else (h[o := r.(inList := r.inList && !r.marked, marked := false, deletedInGc := false)], false)
  }

  lemma EvolvesShape(h: Heap, h': Heap)
    requires Evolves(h, h', {}) && WellFormed(h')
    ensures SameShape(h, h')
  {
    forall x | x in h ensures |h'[x].members| == |h[x].members| { assert EvolvesAt(h, h', x); }
    forall x, j | x in h && 0 <= j < |h[x].members| ensures h'[x].members[j].kind == h[x].members[j].kind {
      assert EvolvesAt(h, h', x);
    }
  }

  function AddStored(h: Heap, o: Obj): (h': Heap)
    requires WellFormed(h) && o in h
    ensures SameShape(h, h')
  {
    var r := h[o];
    if r.constant || !r.cyclic then h
    else
      var h1 := h[o := r.(stored := r.stored + 1)];
      if r.marked then
        var (h2, never) := RemoveFromGc(h1, o);
        if never then h2
        else
          var h' := DecRef(h2, o);
          assert SameShape(h2, h') by { if !h2[o].inDestruction { EvolvesShape(h2, h'); } }
          h'
      else h1
  }

  /** Gives up an outside reference; the last one to a stored object goes to the collector's list. */
  function DecRefAndGCCheck(h: Heap, o: Obj): (h': Heap)
    requires WellFormed(h) && o in h
    ensures WellFormed(h') && h'.Keys == h.Keys
  {
    var r := h[o];
    if r.stored != 0 && r.refCount == r.stored + 1 && r.cyclic && !r.marked
    then h[o := r.(inList := true, marked := true)]
    else DecRef(h, o)
  }

  // ----- variables -----

  predicate IsSlot(h: Heap, x: Obj, k: nat, v: Option<Obj>) {
    x in h && k < |h[x].members| && (v.Some? ==> v.value in h)
  }

  function Write(h: Heap, x: Obj, k: nat, v: Option<Obj>, counted: bool): (h': Heap)
    requires WellFormed(h) && IsSlot(h, x, k, v) && (h[x].members[k].kind == Property || counted)
    ensures SameShape(h, h')
  {
    h[x := h[x].(members := h[x].members[k := Member(h[x].members[k].kind, v, counted)])]
  }

  /** The release of the value a variable held, after the new one has been written over it. */
  function ReleaseOld(h: Heap, was: Member): (h': Heap)
    requires WellFormed(h) && (was.target.Some? ==> was.target.value in h)
    ensures SameShape(h, h') && Evolves(h, h', {})
  {
    var h' := if was.counted && was.target.Some? then RemoveStored(h, was.target.value) else Same(h);
    EvolvesShape(h, h');
    h'
  }

  /** variable::setVar without coercion: takes over the caller's reference to `v`. */
  function SetVar(h: Heap, x: Obj, k: nat, v: Option<Obj>, isRefCounted: bool): (h': Heap)
    requires WellFormed(h) && IsSlot(h, x, k, v) && h[x].members[k].kind == Property
    ensures SameShape(h, h')
  {
    var was := h[x].members[k];
    var h1 := Write(h, x, k, v, was.counted);
    var h2 := ReleaseOld(h1, was);
    var h3 := if v.Some? && isRefCounted then AddStored(h2, v.value) else h2;
    Write(h3, x, k, h3[x].members[k].target, isRefCounted)
  }

  /** variable::setVarNoCoerce: the caller keeps its own reference to `v`. */
  function SetVarNoCoerce(h: Heap, x: Obj, k: nat, v: Option<Obj>): (h': Heap)
    requires WellFormed(h) && IsSlot(h, x, k, v) && h[x].members[k].kind == Property
    ensures SameShape(h, h')
  {
    var was := h[x].members[k];
    var h1 := Write(h, x, k, v, v.Some?);
    var h2 := ReleaseOld(h1, was);
    if v.Some? then AddStored(IncRef(h2, v.value), v.value) else h2
  }

  /** ASObject::deleteVariableByMultiname: the variable is erased, then its value released, whether or
      not the variable had counted it. */
  function DeleteVar(h: Heap, x: Obj, k: nat): (h': Heap)
    requires WellFormed(h) && x in h && k < |h[x].members| && h[x].members[k].kind == Property
    ensures SameShape(h, h')
  {
    ReleaseOld(Erase(h, x, k), h[x].members[k].(counted := true))
  }
}
