/** A variable may be overwritten before or after its old value is released: as long as the object
    it belongs to survives, the release cannot tell the difference.
 */
module ReleaseOrder {
  import opened AvmHeap
  import opened RefCounting

  /** `p` differs from `h` at most in what member k of the surviving object `x` holds. */
  ghost predicate Twins(h: Heap, p: Heap, x: Obj, k: nat, m: Member) {
    && x in h && k < |h[x].members| && !h[x].inDestruction
    && WellFormed(h) && WellFormed(p) && p.Keys == h.Keys
    && p[x] == h[x].(members := h[x].members[k := m])
    && forall y :: y in h && y != x ==> p[y] == h[y]
  }

  lemma SurvivorKeepsShape(h: Heap, h': Heap, x: Obj)
    requires Evolves(h, h', {}) && x in h && !h[x].inDestruction && !h'[x].freed
    ensures h'[x].members == h[x].members && !h'[x].inDestruction && !h[x].freed
  {
    assert EvolvesAt(h, h', x);
  }

  lemma {:induction false} DecRefBlind(h: Heap, p: Heap, x: Obj, k: nat, m: Member, o: Obj)
    requires Twins(h, p, x, k, m) && o in h && !h[o].inDestruction && !DecRef(h, o)[x].freed
    ensures Twins(DecRef(h, o), DecRef(p, o), x, k, m)
    decreases Pristine(h), 2
  {
    hide Evolves, EvolvesAt, Pristine, WellFormed, HandleDestruction;
    SurvivorKeepsShape(h, DecRef(h, o), x);
    var r := h[o];
    if !r.constant && !r.cached && !r.freed {
      if r.refCount == 1 {
        HandleDestructionBlind(h, p, x, k, m, o);
      } else {
        CountDownBlind(h, p, x, k, m, o);
      }
    }
  }

  lemma {:induction false} CountDownBlind(h: Heap, p: Heap, x: Obj, k: nat, m: Member, o: Obj)
    requires Twins(h, p, x, k, m) && o in h && !Locked(h[o]) && h[o].refCount != 1
    ensures o in p && Twins(DecRef(h, o), DecRef(p, o), x, k, m)
  {
    hide Evolves, EvolvesAt, Pristine;
    assert DecRef(h, o) == h[o := h[o].(refCount := h[o].refCount - 1)];
    assert DecRef(p, o) == p[o := p[o].(refCount := p[o].refCount - 1)];
  }

  lemma {:induction false} HandleDestructionBlind(h: Heap, p: Heap, x: Obj, k: nat, m: Member, o: Obj)
    requires Twins(h, p, x, k, m) && o in h && !Locked(h[o]) && !HandleDestruction(h, o)[x].freed
    ensures Twins(HandleDestruction(h, o), HandleDestruction(p, o), x, k, m)
    decreases Pristine(h), 1
  {
    hide Evolves, EvolvesAt, WellFormed, Twins, Destruct, ClearedFrom;
    NotDestroyed(h, p, x, k, m, o);
    if !h[o].inDestruction {
      var begun := h[o].(inDestruction := true, refCount := 1);
      TwinsAt(h, p, x, k, m, o);
      PutTwins(h, p, x, k, m, o, begun);
      assert o in Pristine(h) && o !in Pristine(h[o := begun]);
      TwinsAt(h[o := begun], p[o := begun], x, k, m, o);
      var h2, p2 := Destruct(h[o := begun], o, 0, 0), Destruct(p[o := begun], o, 0, 0);
      SameKeys(h[o := begun], h2, {o});
      DestructBlind(h[o := begun], p[o := begun], x, k, m, o, 0, 0);
      TwinsAt(h2, p2, x, k, m, o);
      PutTwins(h2, p2, x, k, m, o, Freed(h2[o]));
    }
  }

  /** What survives the destruction of `o` is another object. */
  lemma {:induction false} NotDestroyed(h: Heap, p: Heap, x: Obj, k: nat, m: Member, o: Obj)
    requires Twins(h, p, x, k, m) && o in h && !Locked(h[o]) && !HandleDestruction(h, o)[x].freed
    ensures x != o
  {
  }

  /** The same change to the counts and flags of another object on both sides. */
  lemma PutTwins(h: Heap, p: Heap, x: Obj, k: nat, m: Member, o: Obj, r: Rec)
    requires Twins(h, p, x, k, m) && o in h && o != x && r.members == h[o].members
    ensures Twins(h[o := r], p[o := r], x, k, m)
  {
  }

  lemma {:induction false} DestructBlind(h: Heap, p: Heap, x: Obj, k: nat, m: Member, o: Obj, pass: nat, i: nat)
    requires Twins(h, p, x, k, m) && o in h && o != x && Locked(h[o]) && pass < 3 && i <= |h[o].members|
    requires !Destruct(h, o, pass, i)[x].freed
    ensures Twins(Destruct(h, o, pass, i), Destruct(p, o, pass, i), x, k, m)
    decreases Pristine(h), 5, 3 - pass, |h[o].members| - i
  {
    hide WellFormed, Evolves, EvolvesAt, ClearedFrom, Twins, DropMember, Pristine;
    TwinsAt(h, p, x, k, m, o);
    if i == |h[o].members| {
      if pass != 2 { DestructBlind(h, p, x, k, m, o, pass + 1, 0); }
    } else if ClearPass(h[o].members[i]) != pass {
      DestructBlind(h, p, x, k, m, o, pass, i + 1);
    } else {
      var h1 := DropMember(h, o, i);
      SameKeys(h, h1, {o});
      SameKeys(h1, Destruct(h1, o, pass, i + 1), {o});
      NotFreedBefore(h1, Destruct(h1, o, pass, i + 1), x, o);
      DropMemberBlind(h, p, x, k, m, o, i);
      DestructBlind(h1, DropMember(p, o, i), x, k, m, o, pass, i + 1);
    }
  }

  lemma TwinsAt(h: Heap, p: Heap, x: Obj, k: nat, m: Member, o: Obj)
    requires Twins(h, p, x, k, m) && o in h && o != x
    ensures o in p && p[o] == h[o] && WellFormed(h) && WellFormed(p) && x in h && x in p
  {
  }

  lemma NotFreedBefore(h: Heap, h': Heap, x: Obj, o: Obj)
    requires Evolves(h, h', {o}) && x in h && x != o && x in h' && !h'[x].freed
    ensures !h[x].freed
  {
    assert EvolvesAt(h, h', x);
  }

  lemma {:induction false} DropMemberBlind(h: Heap, p: Heap, x: Obj, k: nat, m: Member, o: Obj, i: nat)
    requires Twins(h, p, x, k, m) && o in h && o != x && Locked(h[o]) && i < |h[o].members|
    requires !DropMember(h, o, i)[x].freed
    ensures Twins(DropMember(h, o, i), DropMember(p, o, i), x, k, m)
    decreases Pristine(h), 4
  {
    hide Evolves, EvolvesAt, Pristine, RemoveStored;
    var h1 := Erase(h, o, i);
    var n := h[o].members[i];
    if n.counted && n.target.Some? {
      RemoveStoredBlind(h1, Erase(p, o, i), x, k, m, n.target.value);
    }
  }

  /** Releasing a stored member never looks at the variables of an object that survives it. */
  lemma {:induction false} RemoveStoredBlind(h: Heap, p: Heap, x: Obj, k: nat, m: Member, t: Obj)
    requires Twins(h, p, x, k, m) && t in h && !RemoveStored(h, t)[x].freed
    ensures Twins(RemoveStored(h, t), RemoveStored(p, t), x, k, m)
    decreases Pristine(h), 3
  {
    hide Evolves, EvolvesAt, Pristine, WellFormed;
    var r := h[t];
    assert p[t] == r.(members := p[t].members);
    if Locked(r) || r.deletedInGc {
      assert RemoveStored(h, t) == h && RemoveStored(p, t) == p;
    } else if !r.cyclic {
      DecRefBlind(h, p, x, k, m, t);
      assert RemoveStored(p, t) == DecRef(p, t);
    } else if Suspect(r) {
      UnstoreToCollectorBlind(h, p, x, k, m, t);
      assert RemoveStored(p, t) == UnstoreToCollector(p, t);
    } else {
      UnstoreBlind(h, p, x, k, m, t);
      EvolvesPristine(h, Unstore(h, t));
      DecRefBlind(Unstore(h, t), Unstore(p, t), x, k, m, t);
      assert RemoveStored(p, t) == DecRef(Unstore(p, t), t);
    }
  }

  lemma UnstoreBlind(h: Heap, p: Heap, x: Obj, k: nat, m: Member, t: Obj)
    requires Twins(h, p, x, k, m) && t in h && !Locked(h[t])
    ensures t in p && !Locked(p[t]) && Twins(Unstore(h, t), Unstore(p, t), x, k, m)
  {
  }

  lemma UnstoreToCollectorBlind(h: Heap, p: Heap, x: Obj, k: nat, m: Member, t: Obj)
    requires Twins(h, p, x, k, m) && t in h && !Locked(h[t]) && h[t].cyclic && Suspect(h[t])
    ensures t in p && !Locked(p[t]) && p[t].cyclic && Suspect(p[t])
    ensures Twins(UnstoreToCollector(h, t), UnstoreToCollector(p, t), x, k, m)
  {
  }
}
