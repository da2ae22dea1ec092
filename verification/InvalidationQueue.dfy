/** The queue of display objects to redraw: an intrusive list through invalidateQueueNext. */
module InvalidationQueue {
  import opened InvalidationSpec

  class DisplayObject {
    var invalidateQueueNext: DisplayObject?
    var refCount: int
    var hasChanged: bool
    /** isOnStage() || isMask() */
    var shown: bool

    constructor ()
      ensures invalidateQueueNext == null && refCount == 1 && !hasChanged && !shown
    {
      invalidateQueueNext := null;
      refCount, hasChanged, shown := 1, false, false;
    }
  }

  class SystemState {
    var invalidateQueueHead: DisplayObject?
    var invalidateQueueTail: DisplayObject?
    var influshing: bool
    var shuttingDown: bool
    /** All display objects, and those in the queue, in list order. */
    ghost var objects: set<DisplayObject>
    ghost var queue: seq<DisplayObject>

    constructor ()
      ensures Valid() && queue == [] && objects == {} && !influshing && !shuttingDown
    {
      invalidateQueueHead, invalidateQueueTail := null, null;
      influshing, shuttingDown := false, false;
      objects, queue := {}, [];
    }

    /** The links of the queued objects are exactly the queue, without duplicates; all others' are null. */
    ghost predicate Linked()
      reads this, objects
    {
      && (forall d :: d in queue ==> d in objects)
      && (forall i, j :: 0 <= i < j < |queue| ==> queue[i] != queue[j])
      && (forall i :: 0 <= i < |queue| - 1 ==> queue[i].invalidateQueueNext == queue[i + 1])
      && (queue != [] ==> queue[|queue| - 1].invalidateQueueNext == null && invalidateQueueTail == queue[|queue| - 1])
      && (forall d :: d in objects && d !in queue ==> d.invalidateQueueNext == null)
    }

    /** During a flush the head still points to the object the flush began with, and the queue is
        what is left of it. */
    ghost predicate Valid()
      reads this, objects
    {
      && Linked()
      && (if influshing then queue != [] ==> invalidateQueueHead != null
          else if queue == [] then invalidateQueueHead == null && invalidateQueueTail == null
          else invalidateQueueHead == queue[0])
    }

    ghost function FlagsNow(): Flags<DisplayObject>
      reads this`objects, objects
    {
      Flags(set d | d in objects && d.hasChanged, set d | d in objects && d.shown)
    }

    /** The references to each object other than the queue's own. */
    ghost function OtherRefs(): map<DisplayObject, int>
      reads this`queue, this`objects, objects
    {
      map d | d in objects :: d.refCount - if d in queue then 1 else 0
    }

    /** The constant-time test for membership. */
    predicate IsQueued(d: DisplayObject)
      reads this, d
    {
      d.invalidateQueueNext != null || d == invalidateQueueTail
    }

    /** Outside a flush the test is exact; during one it is as long as something is left to process. */
    lemma TestIsMembership(d: DisplayObject)
      requires Valid() && d in objects && (influshing ==> queue != [])
      ensures IsQueued(d) <==> d in queue
    {
      if d in queue {
        var i :| 0 <= i < |queue| && queue[i] == d;
        if i < |queue| - 1 {
          assert queue[i].invalidateQueueNext == queue[i + 1];
        }
      }
    }

    lemma HeadIsFirst()
      requires Valid() && !influshing
      ensures Linked() && invalidateQueueHead == if queue == [] then null else queue[0]
    {
    }

    lemma ValidIsLinked()
      requires Valid()
      ensures Linked()
    {
    }

    method AddToInvalidateQueue(d: DisplayObject)
      requires Valid() && d in objects && (influshing ==> queue != [])
      modifies this, objects
      ensures Valid() && objects == old(objects) && influshing == old(influshing) && shuttingDown == old(shuttingDown)
      ensures queue == if d in old(queue) || shuttingDown then old(queue)
                       else if influshing then old(queue) + [d] else [d] + old(queue)
      ensures FlagsNow() == old(FlagsNow())
      ensures OtherRefs() == old(OtherRefs())
    {
      TestIsMembership(d);
      if d.invalidateQueueNext != null || d == invalidateQueueTail || shuttingDown { return; }
      d.refCount := d.refCount + 1;
      if invalidateQueueHead == null {
        invalidateQueueHead, invalidateQueueTail := d, d;
        queue := [d];
      } else if influshing {
        Append(d);
      } else {
        Prepend(d);
      }
    }

    /** While flushing an object goes behind the last one ... */
    method Append(d: DisplayObject)
      requires Valid() && influshing && invalidateQueueHead != null && d in objects && queue != [] && d !in queue
      modifies this`invalidateQueueTail, this`queue, objects`invalidateQueueNext
      ensures Valid() && queue == old(queue) + [d]
    {
      invalidateQueueTail.invalidateQueueNext := d;
      invalidateQueueTail := d;
      queue := queue + [d];
    }

    /** ... and otherwise before the first. */
    method Prepend(d: DisplayObject)
      requires Valid() && !influshing && invalidateQueueHead != null && d in objects && d !in queue
      modifies this`invalidateQueueHead, this`queue, objects`invalidateQueueNext
      ensures Valid() && queue == [d] + old(queue)
    {
      d.invalidateQueueNext := invalidateQueueHead;
      invalidateQueueHead := d;
      queue := [d] + queue;
    }

    /** What an object's invalidate() may do to others: change their flags and queue them again. */
    method Request(r: Request<DisplayObject>)
      requires Valid() && influshing && !shuttingDown && queue != [] && r.d in objects
      modifies this, objects
      ensures Valid() && objects == old(objects) && influshing && !shuttingDown
      ensures queue == if r.d in old(queue) then old(queue) else old(queue) + [r.d]
      ensures FlagsNow() == Flags(With(old(FlagsNow()).changed, r.d, r.changed), With(old(FlagsNow()).shown, r.d, r.shown))
      ensures OtherRefs() == old(OtherRefs())
    {
      r.d.hasChanged, r.d.shown := r.changed, r.shown;
      AddToInvalidateQueue(r.d);
    }

    method Requests(rs: seq<Request<DisplayObject>>)
      requires Valid() && influshing && !shuttingDown && queue != [] && forall r :: r in rs ==> r.d in objects
      modifies this, objects
      ensures Valid() && objects == old(objects) && influshing && !shuttingDown
      ensures queue == AddAll(old(queue), old(FlagsNow()), rs).queue
      ensures FlagsNow() == AddAll(old(queue), old(FlagsNow()), rs).flags
      ensures OtherRefs() == old(OtherRefs())
      decreases |rs|
    {
      if rs != [] {
        Request(rs[0]);
        Requests(rs[1..]);
      }
    }

    /** Takes the first object off and gives its reference back. */
    method Unlink(cur: DisplayObject) returns (next: DisplayObject?)
      requires Linked() && queue != [] && cur == queue[0]
      modifies this`queue, objects
      ensures Linked() && queue == old(queue)[1..]
      ensures next == if queue == [] then null else queue[0]
      ensures FlagsNow() == old(FlagsNow())
      ensures OtherRefs() == old(OtherRefs())
    {
      next := cur.invalidateQueueNext;
      cur.invalidateQueueNext := null;
      cur.refCount := cur.refCount - 1;
      queue := queue[1..];
      assert forall i :: 0 <= i < |queue| ==> queue[i] == old(queue)[i + 1];
      assert forall o :: o in old(queue) ==> o == cur || o in queue;
    }

    /** script[k] is what the k-th call of invalidate() requests. */
    method FlushInvalidationQueue(script: seq<seq<Request<DisplayObject>>>)
      returns (processed: seq<DisplayObject>, invalidated: seq<DisplayObject>)
      requires Valid() && !influshing
      requires forall rs, r :: rs in script && r in rs ==> r.d in objects
      modifies this, objects
      ensures Valid() && !influshing && queue == [] && objects == old(objects)
      ensures invalidateQueueHead == null && invalidateQueueTail == null
      ensures forall o :: o in objects ==> o.invalidateQueueNext == null
      ensures forall o :: o in objects ==> o.refCount == old(OtherRefs())[o]
      ensures old(shuttingDown) ==> processed == old(queue) && invalidated == [] && FlagsNow() == old(FlagsNow())
      ensures old(queue) <= processed
      ensures !old(shuttingDown) ==>
        var r := Flush(old(queue), old(FlagsNow()), script, 0);
        processed == r.processed && invalidated == r.invalidated && FlagsNow() == r.flags
    {
      hide *;
      if shuttingDown {
        processed := Drain();
        invalidated := [];
      } else {
        ghost var r := Flush(queue, FlagsNow(), script, 0);
        ProcessesInOrder(queue, FlagsNow(), script, 0);
        assert old(queue) <= r.processed;
        Begin();
        processed, invalidated := FlushAll(script);
        JoinedToEnd(processed, invalidated, FlagsNow(), r);
        ValidIsLinked();
        Finish();
      }
    }

    method Begin()
      requires Valid() && !influshing
      modifies this`influshing
      ensures Valid() && influshing && invalidateQueueHead == if queue == [] then null else queue[0]
    {
      influshing := true;
    }

    method FlushAll(script: seq<seq<Request<DisplayObject>>>)
      returns (processed: seq<DisplayObject>, invalidated: seq<DisplayObject>)
      requires Valid() && influshing && !shuttingDown
      requires invalidateQueueHead == if queue == [] then null else queue[0]
      requires forall rs, r :: rs in script && r in rs ==> r.d in objects
      modifies this, objects
      ensures Valid() && queue == [] && objects == old(objects)
      ensures OtherRefs() == old(OtherRefs())
      ensures Joined(processed, invalidated, Flushed([], [], [], FlagsNow()), Flush(old(queue), old(FlagsNow()), script, 0))
    {
      hide *;
      processed, invalidated := [], [];
      var cur := invalidateQueueHead;
      var k := 0;
      ghost var all := Flush(queue, FlagsNow(), script, 0);
      ghost var rest := all;
      JoinedToNothing(all);
      while cur != null
        invariant Valid() && influshing && !shuttingDown && objects == old(objects)
        invariant cur == if queue == [] then null else queue[0]
        invariant OtherRefs() == old(OtherRefs())
        invariant rest == Flush(queue, FlagsNow(), script, k)
        invariant Joined(processed, invalidated, rest, all)
        decreases Left(script, k) + |queue|
      {
        ghost var was := rest;
        var next, drawn := FlushOne(cur, script, k);
        rest := Flush(queue, FlagsNow(), script, if drawn then k + 1 else k);
        assert invalidated + [] == invalidated;
        JoinedTwice(processed, invalidated, [cur], if drawn then [cur] else [], rest, was, all);
        if drawn {
          invalidated, k := invalidated + [cur], k + 1;
        }
        processed := processed + [cur];
        cur := next;
      }
      FlushOfNothing(FlagsNow(), script, k);
    }

    /** One round of the flush loop. */
    method FlushOne(cur: DisplayObject, script: seq<seq<Request<DisplayObject>>>, k: nat)
      returns (next: DisplayObject?, drawn: bool)
      requires Valid() && influshing && !shuttingDown && queue != [] && cur == queue[0]
      requires forall rs, r :: rs in script && r in rs ==> r.d in objects
      modifies this, objects
      ensures Valid() && objects == old(objects) && influshing && !shuttingDown
      ensures next == if queue == [] then null else queue[0]
      ensures OtherRefs() == old(OtherRefs())
      ensures Joined([cur], if drawn then [cur] else [], Flush(queue, FlagsNow(), script, if drawn then k + 1 else k),
                     Flush(old(queue), old(FlagsNow()), script, k))
      ensures if drawn then Left(script, k + 1) + |queue| < Left(script, k) + |old(queue)|
              else |queue| < |old(queue)|
    {
      drawn := cur.shown && cur.hasChanged;
      assert drawn <==> cur in FlagsNow().shown && cur in FlagsNow().changed;
      if drawn {
        AddAllAppends(queue, FlagsNow(), RequestsOf(script, k));
        Invalidate(cur, RequestsOf(script, k));
      }
      next := Unlink(cur);
    }

    method Invalidate(cur: DisplayObject, rs: seq<Request<DisplayObject>>)
      requires Valid() && influshing && !shuttingDown && queue != [] && forall r :: r in rs ==> r.d in objects
      requires cur == queue[0]
      modifies this, objects
      ensures Valid() && objects == old(objects) && influshing && !shuttingDown
      ensures var a := AddAll(old(queue), old(FlagsNow()), rs);
        queue == a.queue && FlagsNow() == Flags(a.flags.changed - {cur}, a.flags.shown)
      ensures OtherRefs() == old(OtherRefs())
    {
      Requests(rs);
      cur.hasChanged := false;
    }

    /** The flush while shutting down: the queue is emptied and nothing is drawn. */
    method Drain() returns (processed: seq<DisplayObject>)
      requires Valid() && !influshing
      modifies this, objects
      ensures Valid() && !influshing && queue == [] && objects == old(objects)
      ensures invalidateQueueHead == null && invalidateQueueTail == null
      ensures processed == old(queue) && FlagsNow() == old(FlagsNow())
      ensures forall o :: o in objects ==> o.invalidateQueueNext == null && o.refCount == old(OtherRefs())[o]
    {
      hide *;
      HeadIsFirst();
      processed := DrainAll();
      Finish();
    }

    method DrainAll() returns (processed: seq<DisplayObject>)
      requires Linked() && !influshing && invalidateQueueHead == if queue == [] then null else queue[0]
      modifies this`queue, objects
      ensures Linked() && queue == [] && processed == old(queue)
      ensures FlagsNow() == old(FlagsNow()) && OtherRefs() == old(OtherRefs())
    {
      hide *;
      processed := [];
      var cur := invalidateQueueHead;
      while cur != null
        invariant Linked() && !influshing && objects == old(objects)
        invariant cur == if queue == [] then null else queue[0]
        invariant OtherRefs() == old(OtherRefs())
        invariant FlagsNow() == old(FlagsNow())
        invariant old(queue) == processed + queue
        decreases |queue|
      {
        NextDone(processed, queue);
        processed := processed + [cur];
        cur := Unlink(cur);
      }
    }

    method Finish()
      requires Linked() && queue == []
      modifies this`influshing, this`invalidateQueueHead, this`invalidateQueueTail
      ensures Valid() && !influshing && invalidateQueueHead == null && invalidateQueueTail == null
      ensures forall o :: o in objects ==> o.invalidateQueueNext == null && o.refCount == OtherRefs()[o]
    {
      influshing := false;
      invalidateQueueHead, invalidateQueueTail := null, null;
    }
  }
}
