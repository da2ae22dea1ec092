/** Paths along a set of references between objects. */
module Reachability {
  import opened AvmHeap

  predicate Path(e: set<(Obj, Obj)>, p: seq<Obj>, x: Obj, y: Obj) {
    p != [] && p[0] == x && p[|p| - 1] == y && forall i :: 0 <= i < |p| - 1 ==> (p[i], p[i + 1]) in e
  }

  /** In no step or more. */
  ghost predicate Reach(e: set<(Obj, Obj)>, x: Obj, y: Obj) {
    exists p :: Path(e, p, x, y)
  }

  lemma ReachSelf(e: set<(Obj, Obj)>, x: Obj)
    ensures Reach(e, x, x)
  {
    assert Path(e, [x], x, x);
  }

  lemma ReachBefore(e: set<(Obj, Obj)>, x: Obj, y: Obj, z: Obj)
    requires (x, y) in e && Reach(e, y, z)
    ensures Reach(e, x, z)
  {
    var p :| Path(e, p, y, z);
    assert Path(e, [x] + p, x, z);
  }

  lemma ReachAfter(e: set<(Obj, Obj)>, x: Obj, y: Obj, z: Obj)
    requires Reach(e, x, y) && (y, z) in e
    ensures Reach(e, x, z)
  {
    var p :| Path(e, p, x, y);
    assert Path(e, p + [z], x, z);
  }
}
