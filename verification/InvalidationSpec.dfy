/** What a flush of the invalidation queue does, on the sequence of queued objects. */
module InvalidationSpec {

  /** One thing an object's invalidate() may do to another: change its flags and queue it. */
  datatype Request<D> = Request(d: D, changed: bool, shown: bool)

  /** `appended` lists what the requests added to the queue, in order. */
  datatype Flags<D(==)> = Flags(changed: set<D>, shown: set<D>)
  datatype Added<D(==)> = Added(queue: seq<D>, flags: Flags<D>, appended: seq<D>)

  function With<D>(s: set<D>, d: D, b: bool): set<D> {
    if b then s + {d} else s - {d}
  }

  function AddAll<D>(queue: seq<D>, f: Flags<D>, rs: seq<Request<D>>): Added<D>
    decreases |rs|
  {
    if rs == [] then Added(queue, f, [])
    else
      var r := rs[0];
      var f1 := Flags(With(f.changed, r.d, r.changed), With(f.shown, r.d, r.shown));
      if r.d in queue then AddAll(queue, f1, rs[1..])
      else
        var rest := AddAll(queue + [r.d], f1, rs[1..]);
        rest.(appended := [r.d] + rest.appended)
  }

  lemma {:induction false} AddAllAppends<D>(queue: seq<D>, f: Flags<D>, rs: seq<Request<D>>)
    ensures var a := AddAll(queue, f, rs); a.queue == queue + a.appended && |a.appended| <= |rs|
    decreases |rs|
  {
    if rs != [] {
      var r := rs[0];
      var f1 := Flags(With(f.changed, r.d, r.changed), With(f.shown, r.d, r.shown));
      if r.d in queue {
        AddAllAppends(queue, f1, rs[1..]);
      } else {
        AddAllAppends(queue + [r.d], f1, rs[1..]);
      }
    }
  }

  /** The requests left from the k-th call of invalidate() on. */
  function Left<D>(script: seq<seq<Request<D>>>, k: nat): nat
    decreases |script| - k
  {
    if k >= |script| then 0 else |script[k]| + Left(script, k + 1)
  }

  function RequestsOf<D>(script: seq<seq<Request<D>>>, k: nat): seq<Request<D>> {
    if k < |script| then script[k] else []
  }

  /** processed: the objects taken off the queue; invalidated: those whose invalidate() was called;
      appended: those queued meanwhile. */
  datatype Flushed<D(==)> = Flushed(processed: seq<D>, invalidated: seq<D>, appended: seq<D>, flags: Flags<D>)

  /** `script[k]` is what the k-th call of invalidate() requests. */
  function Flush<D>(queue: seq<D>, f: Flags<D>, script: seq<seq<Request<D>>>, k: nat): Flushed<D>
    decreases Left(script, k), |queue|
  {
    if queue == [] then Flushed([], [], [], f)
    else
      var cur := queue[0];
      if cur in f.shown && cur in f.changed then
        var a := AddAll(queue, f, RequestsOf(script, k));
        AddAllAppends(queue, f, RequestsOf(script, k));
        var rest := Flush(a.queue[1..], Flags(a.flags.changed - {cur}, a.flags.shown), script, k + 1);
        Flushed([cur] + rest.processed, [cur] + rest.invalidated, a.appended + rest.appended, rest.flags)
      else
        var rest := Flush(queue[1..], f, script, k);
        rest.(processed := [cur] + rest.processed)
  }

  /** `all` is what has been processed and invalidated already, followed by `rest`. */
  predicate Joined<D>(processed: seq<D>, invalidated: seq<D>, rest: Flushed<D>, all: Flushed<D>) {
    all.processed == processed + rest.processed && all.invalidated == invalidated + rest.invalidated
    && all.flags == rest.flags
  }

  lemma NextDone<D>(done: seq<D>, queue: seq<D>)
    requires queue != []
    ensures done + queue == done + [queue[0]] + queue[1..]
  {
  }

  lemma JoinedToNothing<D>(all: Flushed<D>)
    ensures Joined([], [], all, all)
  {
  }

  lemma JoinedToEnd<D>(processed: seq<D>, invalidated: seq<D>, f: Flags<D>, all: Flushed<D>)
    requires Joined(processed, invalidated, Flushed([], [], [], f), all)
    ensures all.processed == processed && all.invalidated == invalidated && all.flags == f
  {
  }

  lemma {:induction false} FlushOfNothing<D>(f: Flags<D>, script: seq<seq<Request<D>>>, k: nat)
    ensures Flush([], f, script, k) == Flushed([], [], [], f)
  {
  }

  lemma JoinedTwice<D>(done: seq<D>, drawn: seq<D>, p: seq<D>, i: seq<D>,
                       rest: Flushed<D>, middle: Flushed<D>, all: Flushed<D>)
    requires Joined(done, drawn, middle, all) && Joined(p, i, rest, middle)
    ensures Joined(done + p, drawn + i, rest, all)
  {
  }

  /** First the objects queued at the start, in list order, then those appended during the flush, in
      the order they were appended, each append once. */
  lemma {:induction false} ProcessesInOrder<D>(queue: seq<D>, f: Flags<D>, script: seq<seq<Request<D>>>, k: nat)
    ensures var r := Flush(queue, f, script, k); r.processed == queue + r.appended
    decreases Left(script, k), |queue|
  {
    if queue != [] {
      var cur := queue[0];
      if cur in f.shown && cur in f.changed {
        var a := AddAll(queue, f, RequestsOf(script, k));
        AddAllAppends(queue, f, RequestsOf(script, k));
        ProcessesInOrder(a.queue[1..], Flags(a.flags.changed - {cur}, a.flags.shown), script, k + 1);
        assert [cur] + a.queue[1..] == a.queue;
      } else {
        ProcessesInOrder(queue[1..], f, script, k);
        assert [cur] + queue[1..] == queue;
      }
    }
  }

  /** Those of `s` that are kept, in the same order. */
  predicate IsSubsequence<D(==)>(t: seq<D>, s: seq<D>)
    decreases |s|
  {
    if t == [] then true
    else s != [] && (if t[0] == s[0] then IsSubsequence(t[1..], s[1..]) else IsSubsequence(t, s[1..]))
  }

  lemma {:induction false} SubsequenceOfMore<D>(t: seq<D>, x: D, s: seq<D>)
    requires IsSubsequence(t, s)
    ensures IsSubsequence(t, [x] + s)
    decreases |s|, 1
  {
    assert ([x] + s)[1..] == s;
    if t != [] && t[0] == x {
      TailIsSubsequence(t, s);
    }
  }

  lemma {:induction false} TailIsSubsequence<D>(t: seq<D>, s: seq<D>)
    requires t != [] && IsSubsequence(t, s)
    ensures IsSubsequence(t[1..], s)
    decreases |s|, 0
  {
    assert s == [s[0]] + s[1..];
    if t[0] == s[0] {
      SubsequenceOfMore(t[1..], s[0], s[1..]);
    } else {
      TailIsSubsequence(t, s[1..]);
      SubsequenceOfMore(t[1..], s[0], s[1..]);
    }
  }

  /** The calls of invalidate() are made in the order in which the objects are taken off the queue, at most
      one for each time. */
  lemma {:induction false} InvalidatesInOrder<D>(queue: seq<D>, f: Flags<D>, script: seq<seq<Request<D>>>, k: nat)
    ensures var r := Flush(queue, f, script, k); IsSubsequence(r.invalidated, r.processed)
    decreases Left(script, k), |queue|
  {
    if queue != [] {
      var cur := queue[0];
      if cur in f.shown && cur in f.changed {
        var a := AddAll(queue, f, RequestsOf(script, k));
        AddAllAppends(queue, f, RequestsOf(script, k));
        var f1 := Flags(a.flags.changed - {cur}, a.flags.shown);
        InvalidatesInOrder(a.queue[1..], f1, script, k + 1);
        var rest := Flush(a.queue[1..], f1, script, k + 1);
        assert ([cur] + rest.processed)[1..] == rest.processed && ([cur] + rest.invalidated)[1..] == rest.invalidated;
      } else {
        InvalidatesInOrder(queue[1..], f, script, k);
        var rest := Flush(queue[1..], f, script, k);
        SubsequenceOfMore(rest.invalidated, cur, rest.processed);
      }
    }
  }

  /** What was requested is processed: a requested object is already queued or gets appended. */
  lemma {:induction false} RequestedIsQueued<D>(queue: seq<D>, f: Flags<D>, rs: seq<Request<D>>, i: nat)
    requires i < |rs|
    ensures rs[i].d in AddAll(queue, f, rs).queue
    decreases |rs|
  {
    var r := rs[0];
    var f1 := Flags(With(f.changed, r.d, r.changed), With(f.shown, r.d, r.shown));
    var q1 := if r.d in queue then queue else queue + [r.d];
    if i > 0 {
      RequestedIsQueued(q1, f1, rs[1..], i - 1);
    } else {
      AddAllAppends(q1, f1, rs[1..]);
    }
  }

  // ----- which requests lead to a call -----

  predicate Distinct<D(==)>(queue: seq<D>) {
    forall i, j :: 0 <= i < j < |queue| ==> queue[i] != queue[j]
  }

  predicate AsksFor<D(==)>(rs: seq<Request<D>>, d: D) {
    exists i :: 0 <= i < |rs| && rs[i].d == d
  }

  lemma {:induction false} AddAllDistinct<D>(queue: seq<D>, f: Flags<D>, rs: seq<Request<D>>)
    requires Distinct(queue)
    ensures Distinct(AddAll(queue, f, rs).queue)
    decreases |rs|
  {
    if rs != [] {
      var r := rs[0];
      var f1 := Flags(With(f.changed, r.d, r.changed), With(f.shown, r.d, r.shown));
      AddAllDistinct(if r.d in queue then queue else queue + [r.d], f1, rs[1..]);
    }
  }

  /** While its invalidate() runs an object is still in the queue: what it requests for itself is
      dropped, and only that. */
  lemma {:induction false} RequestStaysIff<D>(queue: seq<D>, f: Flags<D>, rs: seq<Request<D>>, i: nat)
    requires queue != [] && Distinct(queue) && i < |rs|
    ensures AddAll(queue, f, rs).queue != []
    ensures rs[i].d in AddAll(queue, f, rs).queue[1..] <==> rs[i].d != queue[0]
  {
    var a := AddAll(queue, f, rs);
    AddAllAppends(queue, f, rs);
    AddAllDistinct(queue, f, rs);
    RequestedIsQueued(queue, f, rs, i);
    assert a.queue == [a.queue[0]] + a.queue[1..];
  }

  lemma {:induction false} UnrequestedKeepsFlags<D>(queue: seq<D>, f: Flags<D>, rs: seq<Request<D>>, d: D)
    requires !AsksFor(rs, d)
    ensures var a := AddAll(queue, f, rs);
      && (d in a.flags.changed <==> d in f.changed) && (d in a.flags.shown <==> d in f.shown)
      && (d in a.queue <==> d in queue)
    decreases |rs|
  {
    if rs != [] {
      var r := rs[0];
      assert r.d != d;
      assert forall i :: 0 <= i < |rs[1..]| ==> rs[1..][i] == rs[i + 1];
      var f1 := Flags(With(f.changed, r.d, r.changed), With(f.shown, r.d, r.shown));
      UnrequestedKeepsFlags(if r.d in queue then queue else queue + [r.d], f1, rs[1..], d);
    }
  }

  /** Nobody asks for `d` from the k-th call of invalidate() on. */
  predicate Unrequested<D(==)>(script: seq<seq<Request<D>>>, k: nat, d: D) {
    forall i :: k <= i < |script| ==> !AsksFor(script[i], d)
  }

  /** Then an object in the queue is invalidated if and only if it is changed and shown now, and one
      that is not queued is not invalidated. */
  lemma {:induction false} InvalidatedIff<D>(queue: seq<D>, f: Flags<D>, script: seq<seq<Request<D>>>, k: nat, d: D)
    requires Distinct(queue) && Unrequested(script, k, d)
    ensures d in Flush(queue, f, script, k).invalidated <==> d in queue && d in f.changed && d in f.shown
    decreases Left(script, k), |queue|
  {
    if queue != [] {
      var cur := queue[0];
      assert queue == [cur] + queue[1..];
      if cur in f.shown && cur in f.changed {
        var rs := RequestsOf(script, k);
        var a := AddAll(queue, f, rs);
        AddAllAppends(queue, f, rs);
        AddAllDistinct(queue, f, rs);
        UnrequestedKeepsFlags(queue, f, rs, d);
        assert a.queue == [cur] + a.queue[1..];
        InvalidatedIff(a.queue[1..], Flags(a.flags.changed - {cur}, a.flags.shown), script, k + 1, d);
      } else {
        InvalidatedIff(queue[1..], f, script, k, d);
      }
    }
  }

  /** A request for `d` made inside an invalidate(), and not repeated later, leads to an invalidate() of
      `d` if and only if `d` is another object and is left changed and shown. */
  lemma {:induction false} RequestInvalidatesIff<D>(queue: seq<D>, f: Flags<D>, script: seq<seq<Request<D>>>, k: nat, d: D)
    requires queue != [] && Distinct(queue) && queue[0] in f.shown && queue[0] in f.changed
    requires AsksFor(RequestsOf(script, k), d) && Unrequested(script, k + 1, d)
    ensures Flush(queue, f, script, k).invalidated != []
    ensures var a := AddAll(queue, f, RequestsOf(script, k));
      d in Flush(queue, f, script, k).invalidated[1..] <==>
        d != queue[0] && d in a.flags.changed && d in a.flags.shown
  {
    var rs := RequestsOf(script, k);
    var a := AddAll(queue, f, rs);
    AddAllAppends(queue, f, rs);
    AddAllDistinct(queue, f, rs);
    var i :| 0 <= i < |rs| && rs[i].d == d;
    RequestStaysIff(queue, f, rs, i);
    var rest := Flush(a.queue[1..], Flags(a.flags.changed - {queue[0]}, a.flags.shown), script, k + 1);
    InvalidatedIff(a.queue[1..], Flags(a.flags.changed - {queue[0]}, a.flags.shown), script, k + 1, d);
    assert Flush(queue, f, script, k).invalidated[1..] == rest.invalidated;
  }

  // ----- the flags a flush leaves -----

  /** What an object's flags are after the requests is what the last request for it says. */
  lemma {:induction false} LastRequestDecides<D>(queue: seq<D>, f: Flags<D>, rs: seq<Request<D>>, i: nat)
    requires i < |rs| && forall j :: i < j < |rs| ==> rs[j].d != rs[i].d
    ensures var a := AddAll(queue, f, rs);
      (rs[i].d in a.flags.changed <==> rs[i].changed) && (rs[i].d in a.flags.shown <==> rs[i].shown)
    decreases |rs|
  {
    var r := rs[0];
    var f1 := Flags(With(f.changed, r.d, r.changed), With(f.shown, r.d, r.shown));
    var q1 := if r.d in queue then queue else queue + [r.d];
    if i > 0 {
      LastRequestDecides(q1, f1, rs[1..], i - 1);
    } else {
      assert !AsksFor(rs[1..], r.d);
      UnrequestedKeepsFlags(q1, f1, rs[1..], r.d);
    }
  }

  /** A flush forgets the change of exactly the objects it invalidates, and hides or shows none. */
  lemma {:induction false} FlushLeavesFlags<D>(queue: seq<D>, f: Flags<D>, script: seq<seq<Request<D>>>, k: nat, d: D)
    requires Distinct(queue) && Unrequested(script, k, d)
    ensures var r := Flush(queue, f, script, k);
      && (d in r.flags.changed <==> d in f.changed && d !in r.invalidated)
      && (d in r.flags.shown <==> d in f.shown)
    decreases Left(script, k), |queue|
  {
    if queue != [] {
      var cur := queue[0];
      if cur in f.shown && cur in f.changed {
        var rs := RequestsOf(script, k);
        var a := AddAll(queue, f, rs);
        AddAllAppends(queue, f, rs);
        AddAllDistinct(queue, f, rs);
        UnrequestedKeepsFlags(queue, f, rs, d);
        FlushLeavesFlags(a.queue[1..], Flags(a.flags.changed - {cur}, a.flags.shown), script, k + 1, d);
      } else {
        FlushLeavesFlags(queue[1..], f, script, k, d);
      }
    }
  }

  /** For an object that the k-th invalidate() asks for last of all, request i of it being the last: it is
      left as that request says, but its change is forgotten if it is invalidated later, or is the object
      whose invalidate() asks. */
  lemma {:induction false} RequestLeavesFlags<D>(queue: seq<D>, f: Flags<D>, script: seq<seq<Request<D>>>, k: nat, i: nat)
    requires queue != [] && Distinct(queue) && queue[0] in f.shown && queue[0] in f.changed
    requires k < |script| && i < |script[k]| && forall j :: i < j < |script[k]| ==> script[k][j].d != script[k][i].d
    requires Unrequested(script, k + 1, script[k][i].d)
    ensures var d, q := script[k][i].d, script[k][i];
      var r := Flush(queue, f, script, k);
      && r.invalidated != []
      && (d in r.flags.changed <==> q.changed && d != queue[0] && d !in r.invalidated[1..])
      && (d in r.flags.shown <==> q.shown)
  {
    var rs, d := script[k], script[k][i].d;
    var a := AddAll(queue, f, rs);
    AddAllAppends(queue, f, rs);
    AddAllDistinct(queue, f, rs);
    LastRequestDecides(queue, f, rs, i);
    var f1 := Flags(a.flags.changed - {queue[0]}, a.flags.shown);
    FlushLeavesFlags(a.queue[1..], f1, script, k + 1, d);
    assert Flush(queue, f, script, k).invalidated[1..] == Flush(a.queue[1..], f1, script, k + 1).invalidated;
  }
}
