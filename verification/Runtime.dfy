/** Script objects in memory: the fields the runtime updates in place, and the operations that
    update them, each tied to its function on heap values.
 */
module Runtime {
  import opened Wrappers
  import opened AvmHeap
  import R = RefCounting

  lemma Overwrite<K, V>(m: map<K, V>, k: K, a: V, b: V)
    ensures m[k := a][k := b] == m[k := b]
  {
  }

  lemma BegunWellFormed(h: Heap, o: Obj)
    requires WellFormed(h) && o in h
    ensures WellFormed(h[o := h[o].(inDestruction := true, refCount := 1)])
  {
  }

  class ASObject {
    const address: Obj
    var refCount: int
    var storedMemberCount: int
    var storedMemberCountStatic: int
    var isConstant: bool
    var cached: bool
    var inDestruction: bool
    var deletedInGarbageCollection: bool
    var markedForGarbageCollection: bool
    var inCollectorList: bool
    const canHaveCyclicMemberReference: bool
    var deleted: bool
    /** Owned objects, watchers and variables, in the order the containers are walked. */
    var members: seq<Member>

    constructor (address: Obj, cyclic: bool)
      ensures this.address == address
      ensures Record() == Rec(1, 0, 0, false, false, false, false, false, false, cyclic, false, [])
    {
      this.address := address;
      canHaveCyclicMemberReference := cyclic;
      refCount, storedMemberCount, storedMemberCountStatic := 1, 0, 0;
      isConstant, cached, inDestruction, deleted := false, false, false, false;
      deletedInGarbageCollection, markedForGarbageCollection, inCollectorList := false, false, false;
      members := [];
    }

    function Record(): Rec
      reads this
    {
      Rec(refCount, storedMemberCount, storedMemberCountStatic, isConstant, cached, inDestruction,
          deletedInGarbageCollection, markedForGarbageCollection, inCollectorList,
          canHaveCyclicMemberReference, deleted, members)
    }
  }

  /** The objects by address, as the pointers inside atoms name them. */
  class Memory {
    const objects: map<Obj, ASObject>

    constructor (objects: map<Obj, ASObject>)
      requires forall o :: o in objects ==> objects[o].address == o
      ensures Valid() && this.objects == objects
    {
      this.objects := objects;
    }

    ghost predicate Valid() {
      forall o :: o in objects ==> objects[o].address == o
    }

    function Heap(): Heap
      reads objects.Values
    {
      map o | o in objects :: objects[o].Record()
    }

    // ----- single field updates -----

    /** Only the object at `o` has changed. */
    twostate lemma Changed(o: Obj)
      requires Valid() && o in objects
      requires forall x :: x in objects && x != o ==> unchanged(objects[x])
      ensures Heap() == old(Heap())[o := objects[o].Record()]
    {
      forall x | x in objects && x != o ensures objects[x].Record() == old(objects[x].Record()) { }
    }

    method SetRefCount(o: Obj, n: int)
      requires Valid() && o in objects
      modifies objects.Values
      ensures Heap() == old(Heap())[o := old(Heap())[o].(refCount := n)]
    {
      objects[o].refCount := n;
      Changed(o);
    }

    method SetStored(o: Obj, n: int)
      requires Valid() && o in objects
      modifies objects.Values
      ensures Heap() == old(Heap())[o := old(Heap())[o].(stored := n)]
    {
      objects[o].storedMemberCount := n;
      Changed(o);
    }

    method SetInDestruction(o: Obj, b: bool)
      requires Valid() && o in objects
      modifies objects.Values
      ensures Heap() == old(Heap())[o := old(Heap())[o].(inDestruction := b)]
    {
      objects[o].inDestruction := b;
      Changed(o);
    }

    method SetConstant(o: Obj)
      requires Valid() && o in objects
      modifies objects.Values
      ensures Heap() == old(Heap())[o := old(Heap())[o].(constant := true)]
    {
      objects[o].isConstant := true;
      Changed(o);
    }

    method SetDeleted(o: Obj)
      requires Valid() && o in objects
      modifies objects.Values
      ensures Heap() == old(Heap())[o := old(Heap())[o].(freed := true)]
    {
      objects[o].deleted := true;
      Changed(o);
    }

    method SetMember(o: Obj, k: nat, m: Member)
      requires Valid() && o in objects && k < |objects[o].members|
      modifies objects.Values
      ensures Heap() == old(Heap())[o := old(Heap())[o].(members := old(Heap())[o].members[k := m])]
    {
      objects[o].members := objects[o].members[k := m];
      Changed(o);
    }

    method SetListed(o: Obj, inList: bool, marked: bool)
      requires Valid() && o in objects
      modifies objects.Values
      ensures Heap() == old(Heap())[o := old(Heap())[o].(inList := inList, marked := marked)]
    {
      objects[o].inCollectorList := inList;
      objects[o].markedForGarbageCollection := marked;
      Changed(o);
    }

    // ----- RefCountable -----

    method IncRef(o: Obj)
      requires Valid() && WellFormed(Heap()) && o in objects
      modifies objects.Values
      ensures Heap() == R.IncRef(old(Heap()), o)
    {
      if !objects[o].isConstant {
        SetRefCount(o, objects[o].refCount + 1);
      }
    }

    method DecRef(o: Obj)
      requires Valid() && WellFormed(Heap()) && o in objects
      modifies objects.Values
      ensures Heap() == R.DecRef(old(Heap()), o)
      decreases R.Pristine(Heap()), 2
    {
      if !objects[o].isConstant && !objects[o].cached && !objects[o].deleted {
        if objects[o].refCount == 1 {
          HandleDestruction(o);
        } else {
          SetRefCount(o, objects[o].refCount - 1);
        }
      }
    }

    method HandleDestruction(o: Obj)
      requires Valid() && WellFormed(Heap()) && o in objects
      requires !objects[o].deleted && !objects[o].isConstant && !objects[o].cached
      modifies objects.Values
      ensures Heap() == R.HandleDestruction(old(Heap()), o)
      decreases R.Pristine(Heap()), 1
    {
      if objects[o].inDestruction { return; }
      assert o in R.Pristine(Heap());
      EnterDestruction(o);
      assert o !in R.Pristine(Heap());
      Destruct(o);
      Delete(o);
    }

    method EnterDestruction(o: Obj)
      requires Valid() && WellFormed(Heap()) && o in objects
      modifies objects.Values
      ensures Heap() == old(Heap())[o := old(Heap())[o].(inDestruction := true, refCount := 1)]
      ensures WellFormed(Heap())
    {
      ghost var h := Heap();
      BegunWellFormed(h, o);
      hide WellFormed;
      SetInDestruction(o, true);
      SetRefCount(o, 1);
      Overwrite(h, o, h[o].(inDestruction := true), h[o].(inDestruction := true, refCount := 1));
    }

    method Delete(o: Obj)
      requires Valid() && o in objects
      modifies objects.Values
      ensures Heap() == old(Heap())[o := R.Freed(old(Heap())[o])]
    {
      ghost var h := Heap();
      SetRefCount(o, -1024);
      SetInDestruction(o, false);
      Overwrite(h, o, h[o].(refCount := -1024), h[o].(refCount := -1024, inDestruction := false));
      SetDeleted(o);
      Overwrite(h, o, h[o].(refCount := -1024, inDestruction := false), R.Freed(h[o]));
    }

    /** destructIntern: destroyContents, then the owned objects, then the watchers. */
    method Destruct(o: Obj)
      requires Valid() && WellFormed(Heap()) && o in objects && R.Locked(Heap()[o])
      modifies objects.Values
      ensures Heap() == R.Destruct(old(Heap()), o, 0, 0)
      decreases R.Pristine(Heap()), 6
    {
      var pass := 0;
      while pass < 3
        invariant 0 <= pass <= 3 && WellFormed(Heap()) && R.Locked(Heap()[o])
        invariant R.Pristine(Heap()) <= R.Pristine(old(Heap()))
        invariant R.Destruct(old(Heap()), o, 0, 0) == if pass == 3 then Heap() else R.Destruct(Heap(), o, pass, 0)
      {
        ClearContainer(o, pass);
        pass := pass + 1;
      }
    }

    method ClearContainer(o: Obj, pass: nat)
      requires Valid() && WellFormed(Heap()) && o in objects && R.Locked(Heap()[o]) && pass < 3
      modifies objects.Values
      ensures WellFormed(Heap()) && R.Locked(Heap()[o])
      ensures R.Pristine(Heap()) <= old(R.Pristine(Heap()))
      ensures R.Destruct(old(Heap()), o, pass, 0) == if pass == 2 then Heap() else R.Destruct(Heap(), o, pass + 1, 0)
      decreases R.Pristine(Heap()), 5
    {
      ghost var start := Heap();
      var k := 0;
      while k < |objects[o].members|
        invariant 0 <= k <= |Heap()[o].members|
        invariant WellFormed(Heap()) && R.Locked(Heap()[o])
        invariant R.Pristine(Heap()) <= R.Pristine(start)
        invariant R.Destruct(start, o, pass, 0) == R.Destruct(Heap(), o, pass, k)
        decreases |Heap()[o].members| - k
      {
        assert objects[o].members == Heap()[o].members;
        if R.ClearPass(objects[o].members[k]) == pass {
          ClearMember(o, k);
        }
        k := k + 1;
      }
    }

    method ClearMember(o: Obj, k: nat)
      requires Valid() && WellFormed(Heap()) && o in objects && k < |Heap()[o].members| && R.Locked(Heap()[o])
      modifies objects.Values
      ensures Heap() == R.DropMember(old(Heap()), o, k)
      decreases R.Pristine(Heap()), 4
    {
      var m := objects[o].members[k];
      assert m == Heap()[o].members[k];
      SetMember(o, k, R.Erased(m));
      assert Heap() == R.Erase(old(Heap()), o, k);
      if m.counted && m.target.Some? {
        RemoveStoredMember(m.target.value);
      }
    }

    method RemoveStoredMember(o: Obj)
      requires Valid() && WellFormed(Heap()) && o in objects
      modifies objects.Values
      ensures Heap() == R.RemoveStored(old(Heap()), o)
      decreases R.Pristine(Heap()), 3
    {
      ghost var h := Heap();
      var r := objects[o];
      assert r.Record() == h[o];
      if r.isConstant || r.cached || r.inDestruction || r.deletedInGarbageCollection || r.deleted { return; }
      if !r.canHaveCyclicMemberReference {
        DecRef(o);
        return;
      }
      SetStored(o, r.storedMemberCount - 1);
      assert Heap() == R.Unstore(h, o) && r.Record() == Heap()[o];
      if r.storedMemberCount != 0 && !r.markedForGarbageCollection
        && r.refCount == r.storedMemberCount + 1 && r.storedMemberCountStatic == 0 {
        SetListed(o, true, true);
        Overwrite(h, o, h[o].(stored := h[o].stored - 1), h[o].(stored := h[o].stored - 1, inList := true, marked := true));
        assert Heap() == R.UnstoreToCollector(h, o);
        return;
      }
      R.EvolvesPristine(h, Heap());
      DecRef(o);
    }

    // ----- stored members and variables -----

    method SetDeletedInGc(o: Obj, b: bool)
      requires Valid() && o in objects
      modifies objects.Values
      ensures Heap() == old(Heap())[o := old(Heap())[o].(deletedInGc := b)]
    {
      objects[o].deletedInGarbageCollection := b;
      Changed(o);
    }

    method RemoveFromGarbageCollection(o: Obj) returns (never: bool)
      requires Valid() && WellFormed(Heap()) && o in objects
      modifies objects.Values
      ensures (Heap(), never) == R.RemoveFromGc(old(Heap()), o)
    {
      ghost var h := Heap();
      if !objects[o].canHaveCyclicMemberReference { return true; }
      SetListed(o, objects[o].inCollectorList && !objects[o].markedForGarbageCollection, false);
      ghost var h1 := Heap();
      SetDeletedInGc(o, false);
      Overwrite(h, o, h1[o], h1[o].(deletedInGc := false));
      never := false;
    }

    method AddStoredMember(o: Obj)
      requires Valid() && WellFormed(Heap()) && o in objects
      modifies objects.Values
      ensures Heap() == R.AddStored(old(Heap()), o)
    {
      if objects[o].isConstant || !objects[o].canHaveCyclicMemberReference { return; }
      SetStored(o, objects[o].storedMemberCount + 1);
      if objects[o].markedForGarbageCollection {
        var never := RemoveFromGarbageCollection(o);
        if !never {
          DecRef(o);
        }
      }
    }

    method DecRefAndGCCheck(o: Obj)
      requires Valid() && WellFormed(Heap()) && o in objects
      modifies objects.Values
      ensures Heap() == R.DecRefAndGCCheck(old(Heap()), o)
    {
      var r := objects[o];
      assert r.Record() == Heap()[o];
      if r.storedMemberCount != 0 && r.refCount == r.storedMemberCount + 1
        && r.canHaveCyclicMemberReference && !r.markedForGarbageCollection {
        SetListed(o, true, true);
      } else {
        DecRef(o);
      }
    }

    method WriteVar(x: Obj, k: nat, v: Option<Obj>, counted: bool)
      requires Valid() && WellFormed(Heap()) && R.IsSlot(Heap(), x, k, v) && Heap()[x].members[k].kind == Property
      modifies objects.Values
      ensures Heap() == R.Write(old(Heap()), x, k, v, counted)
    {
      assert objects[x].members == Heap()[x].members;
      SetMember(x, k, Member(Property, v, counted));
    }

    method Release(was: Member)
      requires Valid() && WellFormed(Heap()) && (was.target.Some? ==> was.target.value in objects)
      modifies objects.Values
      ensures Heap() == R.ReleaseOld(old(Heap()), was)
    {
      if was.counted && was.target.Some? {
        RemoveStoredMember(was.target.value);
      }
    }

    /** variable::setVar, the coercion being the identity. */
    method SetVar(x: Obj, k: nat, v: Option<Obj>, isRefCounted: bool)
      requires Valid() && WellFormed(Heap()) && R.IsSlot(Heap(), x, k, v) && Heap()[x].members[k].kind == Property
      modifies objects.Values
      ensures Heap() == R.SetVar(old(Heap()), x, k, v, isRefCounted)
    {
      assert objects[x].members == Heap()[x].members;
      var was := objects[x].members[k];
      WriteVar(x, k, v, was.counted);
      Release(was);
      if v.Some? && isRefCounted {
        AddStoredMember(v.value);
      }
      assert objects[x].members == Heap()[x].members;
      WriteVar(x, k, objects[x].members[k].target, isRefCounted);
    }

    method SetVarNoCoerce(x: Obj, k: nat, v: Option<Obj>)
      requires Valid() && WellFormed(Heap()) && R.IsSlot(Heap(), x, k, v) && Heap()[x].members[k].kind == Property
      modifies objects.Values
      ensures Heap() == R.SetVarNoCoerce(old(Heap()), x, k, v)
    {
      assert objects[x].members == Heap()[x].members;
      var was := objects[x].members[k];
      WriteVar(x, k, v, v.Some?);
      Release(was);
      if v.Some? {
        IncRef(v.value);
        AddStoredMember(v.value);
      }
    }
  }
}
