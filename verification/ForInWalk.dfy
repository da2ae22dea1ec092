/** The for-in loop as a whole: what it visits, whatever its body deletes from the object and its
    prototypes and adds to the object.
 */
module ForInWalk {
  import opened VariablesMap
  import opened ForIn

  type Vars = seq<Variable?>

  /** What one execution of the loop body does: variables are deleted, others added to the object. */
  datatype Edit = Edit(deleted: set<Variable>, added: seq<Variable>)

  function Nulls(vars: Vars, deleted: set<Variable>): (r: Vars)
    ensures |r| == |vars|
    ensures forall i :: 0 <= i < |vars| ==> r[i] == if vars[i] in deleted then null else vars[i]
  {
    seq(|vars|, i requires 0 <= i < |vars| => if vars[i] in deleted then null else vars[i])
  }

  /** The object's own variables after the body: deleted entries are nulled, added ones come last. */
  function Edited(own: Vars, e: Edit): Vars { Nulls(own, e.deleted) + e.added }

  /** The two edits are those of the property map. */
  lemma MapEditsAreEdits(vars: Vars, v: Variable)
    ensures Nulled(vars, v) == Edited(vars, Edit({v}, []))
    ensures vars + [v] == Edited(vars, Edit({}, [v]))
  {
  }

  function EditAt(script: seq<Edit>, k: nat): Edit {
    if k < |script| then script[k] else Edit({}, [])
  }

  datatype Place = Own(i: nat) | Inherited(i: nat)
  datatype Visit = Visit(at: Place, v: Variable)

  /** What was visited, and the lists at the end. */
  datatype Walked = Walked(visits: seq<Visit>, own: Vars, inherited: Vars)

  function PlaceOf(own: Vars, i: nat): Place {
    if i < |own| then Own(i) else Inherited(i - |own|)
  }

  /** The loop from index cur on; `script[k]` is what the k-th execution of its body does. */
  function Walk(own: Vars, inherited: Vars, cur: nat, script: seq<Edit>, k: nat): Walked
    decreases if k < |script| then |script| - k else 0, |own| + |inherited| - cur
  {
    var r := Next(own + inherited, cur);
    NextIsFirst(own + inherited, cur);
    if r == 0 then Walked([], own, inherited)
    else
      var e := EditAt(script, k);
      var rest := Walk(Edited(own, e), Nulls(inherited, e.deleted), r, script, k + 1);
      rest.(visits := [Visit(PlaceOf(own, r - 1), (own + inherited)[r - 1])] + rest.visits)
  }

  // ----- variables that come and go -----

  /** Everything the bodies from the k-th on add. */
  function Added(script: seq<Edit>, k: nat): seq<Variable>
    decreases |script| - k
  {
    if k >= |script| then [] else script[k].added + Added(script, k + 1)
  }

  predicate DistinctEntries(vars: Vars) {
    forall i, j :: 0 <= i < j < |vars| && vars[i] != null ==> vars[i] != vars[j]
  }

  /** A variable added is a new one: not in the lists, not added twice, not deleted before. */
  ghost predicate NewOnly(own: Vars, inherited: Vars, script: seq<Edit>, k: nat) {
    && DistinctEntries(own + inherited + Added(script, k))
    && forall i :: k <= i < |script| ==> forall v :: v in script[i].deleted ==> v !in Added(script, i)
  }

  /** Index i of the chain is index i of the own list, or i - |own| of the inherited one. */
  lemma NewOnlyNext(own: Vars, inherited: Vars, script: seq<Edit>, k: nat)
    requires NewOnly(own, inherited, script, k)
    ensures var e := EditAt(script, k); NewOnly(Edited(own, e), Nulls(inherited, e.deleted), script, k + 1)
  {
    var e := EditAt(script, k);
    var before := own + inherited + Added(script, k);
    var own1, inherited1 := Edited(own, e), Nulls(inherited, e.deleted);
    var after := own1 + inherited1 + Added(script, k + 1);
    var n, m, a := |own|, |inherited|, |e.added|;
    assert Added(script, k) == e.added + Added(script, k + 1);
    // where an entry was before: the added ones were after the inherited ones
    forall i, j | 0 <= i < j < |after| && after[i] != null ensures after[i] != after[j] {
      var i0 := if n <= i < n + a then i + m else if n + a <= i < n + a + m then i - a else i;
      var j0 := if n <= j < n + a then j + m else if n + a <= j < n + a + m then j - a else j;
      assert i0 != j0 && after[i] == before[i0] && (after[j] == null || after[j] == before[j0]);
    }
  }

  predicate Visited(visits: seq<Visit>, v: Variable) {
    exists i :: 0 <= i < |visits| && visits[i].v == v
  }

  /** Nothing is visited, or left at the end, that was not in the lists or added. */
  lemma {:induction false} NothingElse(own: Vars, inherited: Vars, cur: nat, script: seq<Edit>, k: nat, v: Variable)
    requires v !in own + inherited && v !in Added(script, k)
    ensures var w := Walk(own, inherited, cur, script, k); !Visited(w.visits, v) && v !in w.own + w.inherited
    decreases if k < |script| then |script| - k else 0, |own| + |inherited| - cur
  {
    var r := Next(own + inherited, cur);
    NextIsFirst(own + inherited, cur);
    if r > 0 {
      var e := EditAt(script, k);
      assert v !in Edited(own, e) + Nulls(inherited, e.deleted);
      NothingElse(Edited(own, e), Nulls(inherited, e.deleted), r, script, k + 1, v);
      assert (own + inherited)[r - 1] in own + inherited;
    }
  }

  /** What a body deletes is not visited after it. */
  ghost predicate DeletedSkipped(visits: seq<Visit>, script: seq<Edit>, k: nat)
    decreases |visits|
  {
    visits == [] ||
    ((forall v :: v in EditAt(script, k).deleted ==> !Visited(visits[1..], v)) && DeletedSkipped(visits[1..], script, k + 1))
  }

  /** No variable is visited that was deleted before it was reached. */
  lemma {:induction false} DeletedNotVisited(own: Vars, inherited: Vars, cur: nat, script: seq<Edit>, k: nat)
    requires NewOnly(own, inherited, script, k)
    ensures DeletedSkipped(Walk(own, inherited, cur, script, k).visits, script, k)
    decreases if k < |script| then |script| - k else 0, |own| + |inherited| - cur
  {
    var r := Next(own + inherited, cur);
    NextIsFirst(own + inherited, cur);
    if r > 0 {
      var e := EditAt(script, k);
      var own1, inherited1 := Edited(own, e), Nulls(inherited, e.deleted);
      NewOnlyNext(own, inherited, script, k);
      DeletedNotVisited(own1, inherited1, r, script, k + 1);
      forall v | v in e.deleted ensures !Visited(Walk(own1, inherited1, r, script, k + 1).visits, v) {
        DeletedIsGone(own, inherited, script, k, v);
        NothingElse(own1, inherited1, r, script, k + 1, v);
      }
      var w, rest := Walk(own, inherited, cur, script, k), Walk(own1, inherited1, r, script, k + 1);
      assert w.visits[1..] == rest.visits;
    }
  }

  lemma {:induction false} DeletedIsGone(own: Vars, inherited: Vars, script: seq<Edit>, k: nat, v: Variable)
    requires NewOnly(own, inherited, script, k) && v in EditAt(script, k).deleted
    ensures var e := EditAt(script, k); v !in Edited(own, e) + Nulls(inherited, e.deleted) && v !in Added(script, k + 1)
  {
    assert v !in Added(script, k);
    assert Added(script, k) == script[k].added + Added(script, k + 1);
  }

  // ----- what is visited -----

  /** An entry that lies ahead and is there at the end is visited. */
  lemma {:induction false} AheadIsVisited(own: Vars, inherited: Vars, cur: nat, script: seq<Edit>, k: nat, p: nat)
    requires NewOnly(own, inherited, script, k) && cur <= p < |own| + |inherited| && (own + inherited)[p] != null
    requires var w := Walk(own, inherited, cur, script, k); (own + inherited)[p] in w.own + w.inherited
    ensures Visited(Walk(own, inherited, cur, script, k).visits, (own + inherited)[p])
    decreases if k < |script| then |script| - k else 0, |own| + |inherited| - cur
  {
    var v := (own + inherited)[p];
    var r := Next(own + inherited, cur);
    NextIsFirst(own + inherited, cur);
    var e := EditAt(script, k);
    var own1, inherited1 := Edited(own, e), Nulls(inherited, e.deleted);
    var w, rest := Walk(own, inherited, cur, script, k), Walk(own1, inherited1, r, script, k + 1);
    if p == r - 1 {
      assert w.visits[0].v == v;
    } else {
      NewOnlyNext(own, inherited, script, k);
      if v in e.deleted {
        DeletedIsGone(own, inherited, script, k, v);
        NothingElse(own1, inherited1, r, script, k + 1, v);
        assert false;
      }
      var p1 := if p < |own| then p else p + |e.added|;
      assert (own1 + inherited1)[p1] == v;
      AheadIsVisited(own1, inherited1, r, script, k + 1, p1);
      VisitedLater(w.visits, rest.visits, v);
    }
  }

  lemma VisitedLater(all: seq<Visit>, rest: seq<Visit>, v: Variable)
    requires all != [] && all[1..] == rest
    ensures Visited(all, v) <==> all[0].v == v || Visited(rest, v)
  {
    if i :| 0 <= i < |rest| && rest[i].v == v { assert all[i + 1].v == v; }
    if i :| 0 <= i < |all| && all[i].v == v { assert i > 0 ==> rest[i - 1].v == v; }
  }

  /** An own variable that lies behind is not visited again. */
  lemma {:induction false} BehindIsNotVisited(own: Vars, inherited: Vars, cur: nat, script: seq<Edit>, k: nat, p: nat)
    requires NewOnly(own, inherited, script, k) && p < cur && p < |own| && own[p] != null
    ensures !Visited(Walk(own, inherited, cur, script, k).visits, own[p])
    decreases if k < |script| then |script| - k else 0, |own| + |inherited| - cur
  {
    var r := Next(own + inherited, cur);
    NextIsFirst(own + inherited, cur);
    if r > 0 {
      var e := EditAt(script, k);
      var own1, inherited1 := Edited(own, e), Nulls(inherited, e.deleted);
      NewOnlyNext(own, inherited, script, k);
      if own[p] in e.deleted {
        DeletedIsGone(own, inherited, script, k, own[p]);
        NothingElse(own1, inherited1, r, script, k + 1, own[p]);
      } else {
        BehindIsNotVisited(own1, inherited1, r, script, k + 1, p);
      }
      var before := own + inherited + Added(script, k);
      assert before[p] == own[p] && before[r - 1] == (own + inherited)[r - 1];
      VisitedLater(Walk(own, inherited, cur, script, k).visits, Walk(own1, inherited1, r, script, k + 1).visits, own[p]);
    }
  }

  /** Of the variables added when the walk stands at index r, those that come to lie behind it: the
      walk has left the object's own variables. */
  function Behind(own: Vars, added: seq<Variable>, r: nat): seq<Variable> {
    if r <= |own| then [] else added[..if r - |own| < |added| then r - |own| else |added|]
  }

  function Missed(own: Vars, inherited: Vars, cur: nat, script: seq<Edit>, k: nat): seq<Variable>
    decreases if k < |script| then |script| - k else 0, |own| + |inherited| - cur
  {
    var r := Next(own + inherited, cur);
    NextIsFirst(own + inherited, cur);
    if r == 0 then []
    else
      var e := EditAt(script, k);
      Behind(own, e.added, r) + Missed(Edited(own, e), Nulls(inherited, e.deleted), r, script, k + 1)
  }

  lemma {:induction false} MissedIsNotVisited(own: Vars, inherited: Vars, cur: nat, script: seq<Edit>, k: nat, v: Variable)
    requires NewOnly(own, inherited, script, k) && v in Missed(own, inherited, cur, script, k)
    ensures !Visited(Walk(own, inherited, cur, script, k).visits, v) && v in Added(script, k)
    decreases if k < |script| then |script| - k else 0, |own| + |inherited| - cur
  {
    var r := Next(own + inherited, cur);
    NextIsFirst(own + inherited, cur);
    var e := EditAt(script, k);
    var own1, inherited1 := Edited(own, e), Nulls(inherited, e.deleted);
    NewOnlyNext(own, inherited, script, k);
    assert Added(script, k) == e.added + Added(script, k + 1);
    if v in Behind(own, e.added, r) {
      var i :| 0 <= i < |e.added| && i < r - |own| && e.added[i] == v;
      assert own1[|own| + i] == v;
      BehindIsNotVisited(own1, inherited1, r, script, k + 1, |own| + i);
    } else {
      MissedIsNotVisited(own1, inherited1, r, script, k + 1, v);
    }
    AddedIsNew(own, inherited, script, k, v);
    assert (own + inherited)[r - 1] in own + inherited;
    VisitedLater(Walk(own, inherited, cur, script, k).visits, Walk(own1, inherited1, r, script, k + 1).visits, v);
  }

  lemma {:induction false} AddedIsNew(own: Vars, inherited: Vars, script: seq<Edit>, k: nat, v: Variable)
    requires NewOnly(own, inherited, script, k) && v in Added(script, k)
    ensures v !in own + inherited
  {
    var before := own + inherited + Added(script, k);
    var j :| 0 <= j < |Added(script, k)| && Added(script, k)[j] == v;
    forall i | 0 <= i < |own + inherited| ensures (own + inherited)[i] != v {
      assert before[i] == (own + inherited)[i] && before[|own + inherited| + j] == v;
    }
  }

  /** A variable added by the body is visited if it stays to the end and did not come to lie behind. */
  lemma {:induction false} AddedIsVisited(own: Vars, inherited: Vars, cur: nat, script: seq<Edit>, k: nat, v: Variable)
    requires NewOnly(own, inherited, script, k) && v in Added(script, k) && v !in Missed(own, inherited, cur, script, k)
    requires var w := Walk(own, inherited, cur, script, k); v in w.own + w.inherited
    ensures Visited(Walk(own, inherited, cur, script, k).visits, v)
    decreases if k < |script| then |script| - k else 0, |own| + |inherited| - cur
  {
    var r := Next(own + inherited, cur);
    NextIsFirst(own + inherited, cur);
    AddedIsNew(own, inherited, script, k, v);
    var e := EditAt(script, k);
    var own1, inherited1 := Edited(own, e), Nulls(inherited, e.deleted);
    NewOnlyNext(own, inherited, script, k);
    assert Added(script, k) == e.added + Added(script, k + 1);
    if v in e.added {
      var i :| 0 <= i < |e.added| && e.added[i] == v;
      assert (own1 + inherited1)[|own| + i] == v;
      assert |own| + i < r ==> v in Behind(own, e.added, r);
      AheadIsVisited(own1, inherited1, r, script, k + 1, |own| + i);
    } else {
      AddedIsVisited(own1, inherited1, r, script, k + 1, v);
    }
    VisitedLater(Walk(own, inherited, cur, script, k).visits, Walk(own1, inherited1, r, script, k + 1).visits, v);
  }

  /** The loop visits every variable that is there when it ends, own or inherited, if and only if none
      of them was added behind the walk. */
  lemma {:induction false} SurvivorsVisitedIff(own: Vars, inherited: Vars, script: seq<Edit>)
    requires NewOnly(own, inherited, script, 0)
    ensures var w := Walk(own, inherited, 0, script, 0);
      (forall v: Variable :: v in w.own + w.inherited ==> Visited(w.visits, v))
      <==> (forall v :: v in Missed(own, inherited, 0, script, 0) ==> v !in w.own + w.inherited)
  {
    var w := Walk(own, inherited, 0, script, 0);
    var missed := Missed(own, inherited, 0, script, 0);
    forall v | v in missed ensures !Visited(w.visits, v) { MissedIsNotVisited(own, inherited, 0, script, 0, v); }
    forall v: Variable | v in w.own + w.inherited && v !in missed ensures Visited(w.visits, v) {
      if v in own + inherited {
        var p :| 0 <= p < |own + inherited| && (own + inherited)[p] == v;
        AheadIsVisited(own, inherited, 0, script, 0, p);
      } else {
        if v !in Added(script, 0) { NothingElse(own, inherited, 0, script, 0, v); }
        AddedIsVisited(own, inherited, 0, script, 0, v);
      }
    }
  }

  // ----- each variable once -----

  predicate Once(visits: seq<Visit>) {
    forall i, j :: 0 <= i < j < |visits| ==> visits[i].v != visits[j].v
  }

  /** With n variables added when the walk stands at index r, the inherited entries in
      [r - n, r) come to lie ahead again. The step is safe if none of them is alive. */
  predicate Safe(own: Vars, inherited: Vars, e: Edit, r: nat) {
    forall q :: |own| <= q < r && q < |own| + |inherited| && r <= q + |e.added| ==>
      (own + inherited)[q] == null || (own + inherited)[q] in e.deleted
  }

  /** That is exactly when nothing lies ahead after the step that the walk has passed before it. */
  lemma SafeIff(own: Vars, inherited: Vars, e: Edit, r: nat)
    requires DistinctEntries(own + inherited + e.added) && r <= |own| + |inherited|
    ensures var before, after := own + inherited, Edited(own, e) + Nulls(inherited, e.deleted);
      Safe(own, inherited, e, r) <==> forall p :: r <= p < |after| && after[p] != null ==> after[p] !in before[..r]
  {
    var before, after := own + inherited, Edited(own, e) + Nulls(inherited, e.deleted);
    var n, a := |own|, |e.added|;
    if Safe(own, inherited, e, r) {
      forall p | r <= p < |after| && after[p] != null ensures after[p] !in before[..r] {
        AheadIsUnseen(own, inherited, e, r, p);
      }
    } else {
      var q :| n <= q < r && q < |before| && r <= q + a && before[q] != null && before[q] !in e.deleted;
      assert after[q + a] == before[q] && before[..r][q] == before[q];
    }
  }

  lemma AheadIsUnseen(own: Vars, inherited: Vars, e: Edit, r: nat, p: nat)
    requires DistinctEntries(own + inherited + e.added) && Safe(own, inherited, e, r) && r <= |own| + |inherited|
    requires r <= p < |Edited(own, e) + Nulls(inherited, e.deleted)|
    requires (Edited(own, e) + Nulls(inherited, e.deleted))[p] != null
    ensures (Edited(own, e) + Nulls(inherited, e.deleted))[p] !in (own + inherited)[..r]
    ensures (Edited(own, e) + Nulls(inherited, e.deleted))[p] in (own + inherited)[r..] + e.added
  {
    var before, after := own + inherited, Edited(own, e) + Nulls(inherited, e.deleted);
    var all, n, a := own + inherited + e.added, |own|, |e.added|;
    // the entry's index in all
    var p0 := if p < n then p else if p < n + a then p + |inherited| else p - a;
    assert all[p0] == after[p] && p0 >= r;
    forall i | 0 <= i < r ensures before[..r][i] != after[p] { assert all[i] == before[i]; }
    if p0 < |before| { assert before[r..][p0 - r] == after[p]; } else { assert e.added[p0 - |before|] == after[p]; }
  }

  /** Adding one variable: safe if and only if the walk is still among the object's own variables, or
      the body deleted the inherited one just visited. */
  lemma AddingOneIsSafeIff(own: Vars, inherited: Vars, cur: nat, added: Variable)
    requires DistinctEntries(own + inherited + [added]) && 0 < cur <= |own| + |inherited|
    ensures var before, after := own + inherited, own + [added] + inherited;
      (forall p :: cur <= p < |after| && after[p] != null ==> after[p] !in before[..cur])
      <==> cur <= |own| || before[cur - 1] == null
  {
    var e := Edit({}, [added]);
    assert Edited(own, e) == own + [added] && Nulls(inherited, {}) == inherited;
    SafeIff(own, inherited, e, cur);
  }

  ghost predicate AllSafe(own: Vars, inherited: Vars, cur: nat, script: seq<Edit>, k: nat)
    decreases if k < |script| then |script| - k else 0, |own| + |inherited| - cur
  {
    var r := Next(own + inherited, cur);
    NextIsFirst(own + inherited, cur);
    var e := EditAt(script, k);
    r == 0 || (Safe(own, inherited, e, r) && AllSafe(Edited(own, e), Nulls(inherited, e.deleted), r, script, k + 1))
  }

  /** If every step is safe, only what lies ahead is visited. */
  lemma {:induction false} SafeVisitsAhead(own: Vars, inherited: Vars, cur: nat, script: seq<Edit>, k: nat, v: Variable)
    requires NewOnly(own, inherited, script, k) && AllSafe(own, inherited, cur, script, k)
    requires cur <= |own| + |inherited| && v !in (own + inherited)[cur..] && v !in Added(script, k)
    ensures !Visited(Walk(own, inherited, cur, script, k).visits, v)
    decreases if k < |script| then |script| - k else 0, |own| + |inherited| - cur
  {
    var r := Next(own + inherited, cur);
    NextIsFirst(own + inherited, cur);
    if r > 0 {
      var e := EditAt(script, k);
      var own1, inherited1 := Edited(own, e), Nulls(inherited, e.deleted);
      NewOnlyNext(own, inherited, script, k);
      AddedNow(own, inherited, script, k);
      assert (own + inherited)[r..] == (own + inherited)[cur..][r - cur..];
      forall p | 0 <= p < |(own1 + inherited1)[r..]| ensures (own1 + inherited1)[r..][p] != v {
        if (own1 + inherited1)[r + p] != null {
          AheadIsUnseen(own, inherited, e, r, r + p);
        }
      }
      SafeVisitsAhead(own1, inherited1, r, script, k + 1, v);
      assert (own + inherited)[cur..][r - 1 - cur] == (own + inherited)[r - 1];
      VisitedLater(Walk(own, inherited, cur, script, k).visits, Walk(own1, inherited1, r, script, k + 1).visits, v);
    }
  }

  lemma AddedNow(own: Vars, inherited: Vars, script: seq<Edit>, k: nat)
    requires NewOnly(own, inherited, script, k)
    ensures Added(script, k) == EditAt(script, k).added + Added(script, k + 1)
    ensures DistinctEntries(own + inherited + EditAt(script, k).added)
  {
    var before, now := own + inherited + Added(script, k), own + inherited + EditAt(script, k).added;
    assert forall i :: 0 <= i < |now| ==> now[i] == before[i];
  }

  /** Then no variable is visited twice. */
  lemma {:induction false} SafeWalkVisitsOnce(own: Vars, inherited: Vars, cur: nat, script: seq<Edit>, k: nat)
    requires NewOnly(own, inherited, script, k) && AllSafe(own, inherited, cur, script, k)
    ensures Once(Walk(own, inherited, cur, script, k).visits)
    decreases if k < |script| then |script| - k else 0, |own| + |inherited| - cur
  {
    var r := Next(own + inherited, cur);
    NextIsFirst(own + inherited, cur);
    if r > 0 {
      var e := EditAt(script, k);
      var own1, inherited1 := Edited(own, e), Nulls(inherited, e.deleted);
      NewOnlyNext(own, inherited, script, k);
      AddedNow(own, inherited, script, k);
      SafeWalkVisitsOnce(own1, inherited1, r, script, k + 1);
      var v := (own + inherited)[r - 1];
      SafeIff(own, inherited, e, r);
      assert (own + inherited)[..r][r - 1] == v;
      AddedIsNotHere(own, inherited, script, k, v);
      SafeVisitsAhead(own1, inherited1, r, script, k + 1, v);
      OnceLater(Walk(own, inherited, cur, script, k).visits, Walk(own1, inherited1, r, script, k + 1).visits);
    }
  }

  lemma AddedIsNotHere(own: Vars, inherited: Vars, script: seq<Edit>, k: nat, v: Variable)
    requires NewOnly(own, inherited, script, k) && v in own + inherited
    ensures v !in Added(script, k) && v !in Added(script, k + 1)
  {
    if v in Added(script, k) { AddedIsNew(own, inherited, script, k, v); }
    AddedNow(own, inherited, script, k);
  }

  lemma OnceLater(all: seq<Visit>, rest: seq<Visit>)
    requires all != [] && all[1..] == rest
    ensures Once(all) <==> Once(rest) && !Visited(rest, all[0].v)
  {
    if Once(all) {
      assert forall i :: 0 <= i < |rest| ==> rest[i] == all[i + 1];
    } else {
      var i, j :| 0 <= i < j < |all| && all[i].v == all[j].v;
      assert rest[j - 1] == all[j] && (i > 0 ==> rest[i - 1] == all[i]);
    }
  }

  // ----- loops that only add -----

  predicate DeletesNothing(script: seq<Edit>) { forall e :: e in script ==> e.deleted == {} }

  lemma {:induction false} WithoutDeletionsAllStay(own: Vars, inherited: Vars, cur: nat, script: seq<Edit>, k: nat, v: Variable)
    requires DeletesNothing(script) && v in own + inherited
    ensures var w := Walk(own, inherited, cur, script, k); v in w.own + w.inherited
    decreases if k < |script| then |script| - k else 0, |own| + |inherited| - cur
  {
    var r := Next(own + inherited, cur);
    NextIsFirst(own + inherited, cur);
    if r > 0 {
      var e := EditAt(script, k);
      assert e.deleted == {};
      var i :| 0 <= i < |own + inherited| && (own + inherited)[i] == v;
      var own1, inherited1 := Edited(own, e), Nulls(inherited, e.deleted);
      assert (own1 + inherited1)[if i < |own| then i else i + |e.added|] == v;
      WithoutDeletionsAllStay(own1, inherited1, r, script, k + 1, v);
    }
  }

  lemma UnsafeStepRepeats(own: Vars, inherited: Vars, e: Edit, r: nat)
    requires e.deleted == {} && 0 < r <= |own| + |inherited| && !Safe(own, inherited, e, r)
    ensures var after := Edited(own, e) + Nulls(inherited, {});
      r <= r - 1 + |e.added| < |after| && after[r - 1 + |e.added|] == (own + inherited)[r - 1]
  {
  }

  lemma {:induction false} UnsafeWalkRepeats(own: Vars, inherited: Vars, cur: nat, script: seq<Edit>, k: nat)
    requires NewOnly(own, inherited, script, k) && DeletesNothing(script) && Next(own + inherited, cur) > 0
    requires !Safe(own, inherited, EditAt(script, k), Next(own + inherited, cur))
    ensures !Once(Walk(own, inherited, cur, script, k).visits)
  {
    hide NewOnly, Once, Safe, Visited;
    var r := Next(own + inherited, cur);
    NextIsFirst(own + inherited, cur);
    var e := EditAt(script, k);
    assert e.deleted == {};
    var own1, inherited1 := Edited(own, e), Nulls(inherited, e.deleted);
    NewOnlyNext(own, inherited, script, k);
    UnsafeStepRepeats(own, inherited, e, r);
    WithoutDeletionsAllStay(own1, inherited1, r, script, k + 1, (own + inherited)[r - 1]);
    AheadIsVisited(own1, inherited1, r, script, k + 1, r - 1 + |e.added|);
    OnceLater(Walk(own, inherited, cur, script, k).visits, Walk(own1, inherited1, r, script, k + 1).visits);
  }

  /** A body that deletes nothing: each variable is visited once if and only if every step is safe. */
  lemma {:induction false} AddingOnceIff(own: Vars, inherited: Vars, cur: nat, script: seq<Edit>, k: nat)
    requires NewOnly(own, inherited, script, k) && DeletesNothing(script)
    ensures Once(Walk(own, inherited, cur, script, k).visits) <==> AllSafe(own, inherited, cur, script, k)
    decreases if k < |script| then |script| - k else 0, |own| + |inherited| - cur
  {
    hide Safe, NewOnly, Once, DeletesNothing;
    var r := Next(own + inherited, cur);
    NextIsFirst(own + inherited, cur);
    var e := EditAt(script, k);
    var own1, inherited1 := Edited(own, e), Nulls(inherited, e.deleted);
    if AllSafe(own, inherited, cur, script, k) {
      SafeWalkVisitsOnce(own, inherited, cur, script, k);
    } else if !Safe(own, inherited, e, r) {
      UnsafeWalkRepeats(own, inherited, cur, script, k);
    } else {
      NewOnlyNext(own, inherited, script, k);
      AddingOnceIff(own1, inherited1, r, script, k + 1);
      OnceLater(Walk(own, inherited, cur, script, k).visits, Walk(own1, inherited1, r, script, k + 1).visits);
    }
  }

  lemma SafeWithoutDeletions(own: Vars, inherited: Vars, e: Edit, r: nat)
    requires e.deleted == {} && 0 < r <= |own| + |inherited| && (own + inherited)[r - 1] != null
    ensures Safe(own, inherited, e, r) <==> r <= |own| || e.added == []
  {
    if r > |own| && e.added != [] { assert r <= r - 1 + |e.added|; }
  }

  lemma {:induction false} AllSafeIffEarly(own: Vars, inherited: Vars, cur: nat, script: seq<Edit>, k: nat)
    requires DeletesNothing(script)
    ensures AllSafe(own, inherited, cur, script, k) <==> AddsEarly(own, inherited, cur, script, k)
    decreases if k < |script| then |script| - k else 0, |own| + |inherited| - cur
  {
    var r := Next(own + inherited, cur);
    NextIsFirst(own + inherited, cur);
    if r > 0 {
      var e := EditAt(script, k);
      assert e.deleted == {};
      SafeWithoutDeletions(own, inherited, e, r);
      AllSafeIffEarly(Edited(own, e), Nulls(inherited, e.deleted), r, script, k + 1);
    }
  }

  /** So a loop whose body deletes nothing visits each variable once if and only if nothing is added
      once the walk is among the inherited variables. */
  lemma {:induction false} OnceIffEarly(own: Vars, inherited: Vars, script: seq<Edit>)
    requires NewOnly(own, inherited, script, 0) && DeletesNothing(script)
    ensures Once(Walk(own, inherited, 0, script, 0).visits) <==> AddsEarly(own, inherited, 0, script, 0)
  {
    AddingOnceIff(own, inherited, 0, script, 0);
    AllSafeIffEarly(own, inherited, 0, script, 0);
  }

  // ----- loops that delete as well -----

  /** Where entry p of the chain is after the body. */
  function Shifted(own: Vars, e: Edit, p: nat): nat {
    if p < |own| then p else p + |e.added|
  }

  /** The walk, now at index cur, comes to entry p before a body deletes it. An inherited entry it has
      passed may be shifted ahead of it again by what the bodies add. */
  ghost predicate Reaches(own: Vars, inherited: Vars, cur: nat, script: seq<Edit>, k: nat, p: nat)
    requires p < |own| + |inherited|
    decreases if k < |script| then |script| - k else 0, |own| + |inherited| - cur
  {
    var r := Next(own + inherited, cur);
    NextIsFirst(own + inherited, cur);
    var e := EditAt(script, k);
    r > 0 && (p == r - 1 || ((own + inherited)[p] != null && (own + inherited)[p] !in e.deleted &&
      Reaches(Edited(own, e), Nulls(inherited, e.deleted), r, script, k + 1, Shifted(own, e, p))))
  }

  lemma {:induction false} ReachesIffVisited(own: Vars, inherited: Vars, cur: nat, script: seq<Edit>, k: nat, p: nat)
    requires NewOnly(own, inherited, script, k) && p < |own| + |inherited| && (own + inherited)[p] != null
    ensures Visited(Walk(own, inherited, cur, script, k).visits, (own + inherited)[p])
      <==> Reaches(own, inherited, cur, script, k, p)
    decreases if k < |script| then |script| - k else 0, |own| + |inherited| - cur
  {
    var v := (own + inherited)[p];
    var r := Next(own + inherited, cur);
    NextIsFirst(own + inherited, cur);
    if r > 0 {
      var e := EditAt(script, k);
      var own1, inherited1 := Edited(own, e), Nulls(inherited, e.deleted);
      NewOnlyNext(own, inherited, script, k);
      AddedNow(own, inherited, script, k);
      var before := own + inherited + e.added;
      assert before[p] == v && before[r - 1] == (own + inherited)[r - 1];
      VisitedLater(Walk(own, inherited, cur, script, k).visits, Walk(own1, inherited1, r, script, k + 1).visits, v);
      if v in e.deleted {
        DeletedIsGone(own, inherited, script, k, v);
        NothingElse(own1, inherited1, r, script, k + 1, v);
      } else {
        assert (own1 + inherited1)[Shifted(own, e, p)] == v;
        ReachesIffVisited(own1, inherited1, r, script, k + 1, Shifted(own, e, p));
      }
    }
  }

  /** Each entry the walk visits is deleted, if at all, before the walk would come to it again. */
  ghost predicate NeverAgain(own: Vars, inherited: Vars, cur: nat, script: seq<Edit>, k: nat)
    decreases if k < |script| then |script| - k else 0, |own| + |inherited| - cur
  {
    var r := Next(own + inherited, cur);
    NextIsFirst(own + inherited, cur);
    var e := EditAt(script, k);
    var own1, inherited1 := Edited(own, e), Nulls(inherited, e.deleted);
    r == 0 ||
    (((own + inherited)[r - 1] in e.deleted || !Reaches(own1, inherited1, r, script, k + 1, Shifted(own, e, r - 1)))
     && NeverAgain(own1, inherited1, r, script, k + 1))
  }

  /** Whatever the bodies delete and add, each variable is visited once if and only if every inherited
      one that is shifted ahead again is deleted before the walk reaches it. */
  lemma {:induction false} OnceIffNeverAgain(own: Vars, inherited: Vars, cur: nat, script: seq<Edit>, k: nat)
    requires NewOnly(own, inherited, script, k)
    ensures Once(Walk(own, inherited, cur, script, k).visits) <==> NeverAgain(own, inherited, cur, script, k)
    decreases if k < |script| then |script| - k else 0, |own| + |inherited| - cur
  {
    var r := Next(own + inherited, cur);
    NextIsFirst(own + inherited, cur);
    if r > 0 {
      var e := EditAt(script, k);
      var own1, inherited1 := Edited(own, e), Nulls(inherited, e.deleted);
      NewOnlyNext(own, inherited, script, k);
      AgainIff(own, inherited, script, k, r);
      hide NewOnly, Once, Visited, Reaches;
      OnceIffNeverAgain(own1, inherited1, r, script, k + 1);
      OnceLater(Walk(own, inherited, cur, script, k).visits, Walk(own1, inherited1, r, script, k + 1).visits);
    }
  }

  lemma AgainIff(own: Vars, inherited: Vars, script: seq<Edit>, k: nat, r: nat)
    requires NewOnly(own, inherited, script, k) && 0 < r <= |own| + |inherited| && (own + inherited)[r - 1] != null
    ensures var e, v := EditAt(script, k), (own + inherited)[r - 1];
      var own1, inherited1 := Edited(own, e), Nulls(inherited, e.deleted);
      Visited(Walk(own1, inherited1, r, script, k + 1).visits, v)
      <==> v !in e.deleted && Reaches(own1, inherited1, r, script, k + 1, Shifted(own, e, r - 1))
  {
    var e, v := EditAt(script, k), (own + inherited)[r - 1];
    var own1, inherited1 := Edited(own, e), Nulls(inherited, e.deleted);
    NewOnlyNext(own, inherited, script, k);
    hide NewOnly, Walk, Visited, Reaches;
    if v in e.deleted {
      DeletedIsGone(own, inherited, script, k, v);
      NothingElse(own1, inherited1, r, script, k + 1, v);
    } else {
      assert (own1 + inherited1)[Shifted(own, e, r - 1)] == v;
      ReachesIffVisited(own1, inherited1, r, script, k + 1, Shifted(own, e, r - 1));
    }
  }

  /** One inherited variable and one added to the object during its visit: it is visited twice. */
  lemma AddedRepeatsInherited(v: Variable, a: Variable)
    requires v != a
    ensures !Once(Walk([], [v], 0, [Edit({}, [a])], 0).visits)
  {
    var script := [Edit({}, [a])];
    assert Added(script, 0) == [a] + Added(script, 1) == [a];
    assert [] + [v] + [a] == [v, a];
    OnceIffEarly([], [v], script);
  }

  // ----- names -----

  predicate NamesOnce(visits: seq<Visit>) {
    forall i, j :: 0 <= i < j < |visits| ==> visits[i].v.nameStringID != visits[j].v.nameStringID
  }

  predicate Named(vars: Vars, p: nat, n: NameId) { p < |vars| && vars[p] != null && vars[p].nameStringID == n }

  predicate GivesName(visits: seq<Visit>, n: NameId) {
    exists i :: 0 <= i < |visits| && visits[i].v.nameStringID == n
  }

  ghost predicate HasName(vars: Vars, cur: nat, n: NameId) { exists p: nat :: cur <= p && Named(vars, p, n) }

  ghost predicate DistinctNames(vars: Vars, cur: nat) {
    forall p: nat, q: nat, n :: cur <= p < q && Named(vars, p, n) ==> !Named(vars, q, n)
  }

  lemma QuietEdit(own: Vars, inherited: Vars)
    ensures Edited(own, Edit({}, [])) == own && Nulls(inherited, {}) == inherited
  {
  }

  lemma {:induction false} NameGivenIff(own: Vars, inherited: Vars, cur: nat, k: nat, n: NameId)
    ensures GivesName(Walk(own, inherited, cur, [], k).visits, n) <==> HasName(own + inherited, cur, n)
    decreases |own| + |inherited| - cur
  {
    var all := own + inherited;
    var r := Next(all, cur);
    NextIsFirst(all, cur);
    if r > 0 {
      QuietEdit(own, inherited);
      NameGivenIff(own, inherited, r, k + 1, n);
      GivenLater(Walk(own, inherited, cur, [], k).visits, Walk(own, inherited, r, [], k + 1).visits, n);
      assert Named(all, r - 1, n) <==> all[r - 1].nameStringID == n;
      if HasName(all, cur, n) {
        var p: nat :| cur <= p && Named(all, p, n);
        assert p >= r - 1;
      }
    }
  }

  lemma GivenLater(all: seq<Visit>, rest: seq<Visit>, n: NameId)
    requires all != [] && all[1..] == rest
    ensures GivesName(all, n) <==> all[0].v.nameStringID == n || GivesName(rest, n)
  {
    if i :| 0 <= i < |rest| && rest[i].v.nameStringID == n { assert all[i + 1].v.nameStringID == n; }
    if i :| 0 <= i < |all| && all[i].v.nameStringID == n { assert i > 0 ==> rest[i - 1].v.nameStringID == n; }
  }

  lemma NamesOnceLater(all: seq<Visit>, rest: seq<Visit>)
    requires all != [] && all[1..] == rest
    ensures NamesOnce(all) <==> NamesOnce(rest) && !GivesName(rest, all[0].v.nameStringID)
  {
    if NamesOnce(all) {
      assert forall i :: 0 <= i < |rest| ==> rest[i] == all[i + 1];
    } else {
      var i, j :| 0 <= i < j < |all| && all[i].v.nameStringID == all[j].v.nameStringID;
      assert rest[j - 1] == all[j] && (i > 0 ==> rest[i - 1] == all[i]);
    }
  }

  /** A loop that changes nothing gives each name once if and only if no two live variables of the chain
      have the same name: an inherited variable is not hidden by an own one. */
  lemma {:induction false} NamesOnceIff(own: Vars, inherited: Vars, cur: nat, k: nat)
    ensures NamesOnce(Walk(own, inherited, cur, [], k).visits) <==> DistinctNames(own + inherited, cur)
    decreases |own| + |inherited| - cur
  {
    var all := own + inherited;
    var r := Next(all, cur);
    NextIsFirst(all, cur);
    if r > 0 {
      var n := all[r - 1].nameStringID;
      QuietEdit(own, inherited);
      NamesOnceIff(own, inherited, r, k + 1);
      NameGivenIff(own, inherited, r, k + 1, n);
      NamesOnceLater(Walk(own, inherited, cur, [], k).visits, Walk(own, inherited, r, [], k + 1).visits);
      assert Named(all, r - 1, n);
      forall p: nat, q: nat, m | DistinctNames(all, r) && !HasName(all, r, n) && cur <= p < q && Named(all, p, m)
        ensures !Named(all, q, m)
      {
        assert p >= r - 1;
      }
    }
  }

  // ----- order -----

  predicate Before(p: Place, q: Place) {
    match (p, q)
    case (Own(i), Own(j)) => i < j
    case (Own(_), Inherited(_)) => true
    case (Inherited(_), Own(_)) => false
    case (Inherited(i), Inherited(j)) => i < j
  }

  predicate InOrder(visits: seq<Visit>) {
    forall i, j :: 0 <= i < j < |visits| ==> Before(visits[i].at, visits[j].at)
  }

  /** Variables are added only while the walk is among the object's own ones. */
  ghost predicate AddsEarly(own: Vars, inherited: Vars, cur: nat, script: seq<Edit>, k: nat)
    decreases if k < |script| then |script| - k else 0, |own| + |inherited| - cur
  {
    var r := Next(own + inherited, cur);
    NextIsFirst(own + inherited, cur);
    var e := EditAt(script, k);
    r == 0 || ((r <= |own| || e.added == [])
               && AddsEarly(Edited(own, e), Nulls(inherited, e.deleted), r, script, k + 1))
  }

  predicate FromIndex(visits: seq<Visit>, own: nat, cur: nat) {
    forall i :: 0 <= i < |visits| ==>
      match visits[i].at
      case Own(p) => cur <= p && cur <= own
      case Inherited(q) => cur <= own + q
  }

  /** Then the visits are in insertion order, own variables first. */
  lemma {:induction false} EarlyWalkInOrder(own: Vars, inherited: Vars, cur: nat, script: seq<Edit>, k: nat)
    requires AddsEarly(own, inherited, cur, script, k)
    ensures InOrder(Walk(own, inherited, cur, script, k).visits)
    ensures FromIndex(Walk(own, inherited, cur, script, k).visits, |own|, cur)
    decreases if k < |script| then |script| - k else 0, |own| + |inherited| - cur
  {
    var r := Next(own + inherited, cur);
    NextIsFirst(own + inherited, cur);
    if r > 0 {
      var e := EditAt(script, k);
      var own1, inherited1 := Edited(own, e), Nulls(inherited, e.deleted);
      EarlyWalkInOrder(own1, inherited1, r, script, k + 1);
      var w, rest := Walk(own, inherited, cur, script, k), Walk(own1, inherited1, r, script, k + 1);
      FirstInOrder(w.visits, rest.visits, |own|, |own1|, cur, r);
    }
  }

  lemma FirstInOrder(all: seq<Visit>, rest: seq<Visit>, own: nat, own1: nat, cur: nat, r: nat)
    requires all != [] && all[1..] == rest && InOrder(rest) && FromIndex(rest, own1, r) && cur < r
    requires own <= own1 && (r <= own || own1 == own)
    requires all[0].at == if r - 1 < own then Own(r - 1) else Inherited(r - 1 - own)
    ensures InOrder(all) && FromIndex(all, own, cur)
  {
    assert forall i :: 0 < i < |all| ==> all[i] == rest[i - 1];
  }

  /** Without inherited variables nothing can go wrong: whatever the body deletes and adds, every
      variable that is there at the end is visited, each once, in insertion order. */
  lemma {:induction false} OwnWalkIsRight(own: Vars, script: seq<Edit>)
    requires NewOnly(own, [], script, 0)
    ensures var w := Walk(own, [], 0, script, 0);
      && Once(w.visits) && InOrder(w.visits) && DeletedSkipped(w.visits, script, 0)
      && (forall v: Variable :: v in w.own ==> Visited(w.visits, v))
  {
    OwnWalkStaysOwn(own, 0, script, 0);
    SafeWalkVisitsOnce(own, [], 0, script, 0);
    EarlyWalkInOrder(own, [], 0, script, 0);
    DeletedNotVisited(own, [], 0, script, 0);
    SurvivorsVisitedIff(own, [], script);
  }

  lemma {:induction false} OwnWalkStaysOwn(own: Vars, cur: nat, script: seq<Edit>, k: nat)
    ensures AllSafe(own, [], cur, script, k) && AddsEarly(own, [], cur, script, k)
    ensures Missed(own, [], cur, script, k) == []
    decreases if k < |script| then |script| - k else 0, |own| - cur
  {
    var r := Next(own + [], cur);
    NextIsFirst(own + [], cur);
    if r > 0 {
      var e := EditAt(script, k);
      assert Nulls([], e.deleted) == [];
      OwnWalkStaysOwn(Edited(own, e), r, script, k + 1);
    }
  }
}
