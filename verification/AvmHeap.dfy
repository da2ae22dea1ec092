/** The objects of the script runtime as values: one record per object address, holding the
    fields of RefCountable and ASObject that reference counting and the cycle collector read.
 */
module AvmHeap {
  import opened Wrappers

  type Obj = nat

  /** The container of an ASObject that a reference sits in. */
  datatype Kind = Owned | Watcher | Property | Accessor

  /** One stored reference. `target` is None for a primitive value and for an erased entry;
      `counted` is varIsRefCounted, which owned objects, watchers, getters and setters always are. */
  datatype Member = Member(kind: Kind, target: Option<Obj>, counted: bool)

  /** A variable that holds nothing yet. */
  const NO_VALUE := Member(Property, None, false)

  datatype Rec = Rec(
    refCount: int,
    stored: int,        // storedmembercount
    storedStatic: int,  // storedmembercountstatic
    constant: bool,
    cached: bool,
    inDestruction: bool,
    deletedInGc: bool,  // deletedingarbagecollection
    marked: bool,       // markedforgarbagecollection
    inList: bool,       // linked into the worker's collector list
    cyclic: bool,       // canHaveCyclicMemberReference()
    freed: bool,
    members: seq<Member>)

  /** An object in use, neither marked nor locked in any way. */
  function Live(refCount: int, stored: int, members: seq<Member>): Rec {
    Rec(refCount, stored, 0, false, false, false, false, false, false, true, false, members)
  }

  type Heap = map<Obj, Rec>

  /** A place that can store a reference: the object and the position among its members. */
  type Slot = (Obj, nat)

  ghost predicate WellFormed(h: Heap) {
    forall x, k :: x in h && 0 <= k < |h[x].members| ==>
      && (h[x].members[k].target.Some? ==> h[x].members[k].target.value in h)
      && (h[x].members[k].kind != Property ==> h[x].members[k].counted)
  }

  predicate Holds(h: Heap, s: Slot, o: Obj) {
    && s.0 in h && s.1 < |h[s.0].members|
    && h[s.0].members[s.1].counted && h[s.0].members[s.1].target == Some(o)
  }

  /** Every slot of the heap that stores a counted reference to `o`. */
  ghost function Slots(h: Heap, o: Obj): (r: set<Slot>)
    ensures forall s :: s in r <==> Holds(h, s, o)
  {
    set x, k: nat | x in h && k < |h[x].members| && Holds(h, (x, k), o) :: (x, k)
  }

  lemma SubsetCard<T>(a: set<T>, b: set<T>)
    requires a <= b
    ensures |a| <= |b|
    ensures |a| == |b| ==> a == b
  {
    assert b == a + (b - a);
  }
}
