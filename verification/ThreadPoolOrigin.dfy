/** Whose jobs a forceStopWorker cancels, read off the calls that were made: those submitted from the worker
    it was called for, and no others.
 */
module ThreadPoolOrigin {
  import opened Wrappers
  import opened ThreadPool
  import opened ThreadPoolProof
  import opened ThreadPoolProgress

  // ----- runs in two parts -----

  lemma {:induction false} RunSplits(p: Pool, actions: seq<Action>, i: nat)
    requires Run(p, actions) && i <= |actions|
    ensures Run(p, actions[..i]) && Run(After(p, actions[..i]), actions[i..])
    ensures After(p, actions) == After(After(p, actions[..i]), actions[i..])
    decreases |actions|
  {
    if i == 0 {
      assert actions[0..] == actions;
    } else {
      RunSplits(Next(p, actions[0]), actions[1..], i - 1);
      assert actions[..i][1..] == actions[1..][..i - 1] && actions[i..] == actions[1..][i - 1..];
    }
  }

  // ----- the worker a job comes from -----

  /** The job is still waiting in the call that brought it, or is recorded as started from `from`. */
  predicate JobFrom(p: Pool, j: Job, from: Origin) {
    j in p.place &&
    if p.place[j].InCall? && p.place[j].c in p.calls && p.calls[p.place[j].c].Adding?
    then p.calls[p.place[j].c] == Adding(j, from)
    else j in p.origin && p.origin[j] == from
  }

  lemma SubmitRecords(p: Pool, c: CallId, j: Job, from: Origin)
    requires Enabled(p, Submit(c, j, from))
    ensures JobFrom(Next(p, Submit(c, j, from)), j, from)
  {
  }

  lemma JobFromNext(p: Pool, a: Action, j: Job, from: Origin)
    requires Inv(p) && Enabled(p, a) && JobFrom(p, j, from)
    ensures JobFrom(Next(p, a), j, from)
  {
    assert a.Take? && p.jobs != [] ==> p.jobs[0] in p.jobs;
    assert JobOk(p, j);
    if WorkerStep(a) {
      assert WorkerOk(p, a.w);
      WorkerKeepsOrigin(p, a, j, from);
    } else {
      if Internal(a) { CallStepShape(p, a); assert CallOk(p, a.c); }
      CallKeepsOrigin(p, a, j, from);
    }
  }

  lemma WorkerKeepsOrigin(p: Pool, a: Action, j: Job, from: Origin)
    requires Enabled(p, a) && WorkerStep(a) && WorkerOk(p, a.w) && QueueOk(p) && JobFrom(p, j, from)
    ensures JobFrom(Next(p, a), j, from)
  {
    if a.Take? {
      TakeKeepsOrigin(p, a, j, from);
    } else {
      hide Bump, QueueOk;
    }
  }

  lemma TakeKeepsOrigin(p: Pool, a: Action, j: Job, from: Origin)
    requires Enabled(p, a) && a.Take? && QueueOk(p) && JobFrom(p, j, from)
    ensures JobFrom(Next(p, a), j, from)
  {
    hide Cancel, KeepOthers, SlotJobs, SlotJobsOf, Without, Bump, SetPc;
    if p.jobs == [] { SetPcKeepsPlaces(p, a.w, Exited); }
  }

  lemma SetPcKeepsPlaces(p: Pool, w: nat, pc: Pc)
    requires w < |p.workers|
    ensures var q := SetPc(p, w, pc); q.place == p.place && q.calls == p.calls && q.origin == p.origin
  {
  }

  lemma CallKeepsOrigin(p: Pool, a: Action, j: Job, from: Origin)
    requires Enabled(p, a) && !WorkerStep(a) && (Internal(a) ==> CallOk(p, a.c)) && JobOk(p, j) && JobFrom(p, j, from)
    requires QueueOk(p)
    ensures JobFrom(Next(p, a), j, from)
  {
    hide KeepOthers, SlotJobs, SlotJobsOf, Bump;
  }

  lemma {:induction false} JobFromStays(p: Pool, actions: seq<Action>, j: Job, from: Origin)
    requires Inv(p) && Run(p, actions) && JobFrom(p, j, from)
    ensures JobFrom(After(p, actions), j, from)
    decreases |actions|
  {
    hide Inv, JobFrom, Next, Enabled;
    if actions != [] {
      JobFromNext(p, actions[0], j, from);
      KeepsAlways(p, actions[0]);
      JobFromStays(Next(p, actions[0]), actions[1..], j, from);
    }
  }

  /** The i-th step of the run submits `j` from `from`. */
  predicate SubmitsAt(actions: seq<Action>, i: nat, j: Job, from: Origin) {
    i < |actions| && actions[i].Submit? && actions[i].j == j && actions[i].from == from
  }

  /** In every run from the start: once addJob has the mutex, the job is recorded as its submitter's. */
  lemma {:induction false} OriginIsSubmitter(n: nat, actions: seq<Action>, i: nat, j: Job, from: Origin)
    requires Run(Init(n), actions) && SubmitsAt(actions, i, j, from)
    ensures var p := After(Init(n), actions);
      && JobFrom(p, j, from)
      && (j in p.jobs || InSlot(p, j) ==> StartedBy(p, j, from))
  {
    InitOk(n);
    RunKeeps(Init(n), actions);
    RunSplits(Init(n), actions, i);
    var p0 := After(Init(n), actions[..i]);
    RunKeeps(Init(n), actions[..i]);
    assert actions[i..][0] == actions[i];
    SubmitRecords(p0, actions[i].c, j, from);
    KeepsAlways(p0, actions[i]);
    JobFromStays(Next(p0, actions[i]), actions[i..][1..], j, from);
    InsideIsRecorded(After(Init(n), actions), j, from);
  }

  lemma InsideIsRecorded(p: Pool, j: Job, from: Origin)
    requires Inv(p) && JobFrom(p, j, from)
    ensures j in p.jobs || InSlot(p, j) ==> StartedBy(p, j, from)
  {
    if w: nat :| w < |p.workers| && p.workers[w].slot == Some(j) { assert WorkerOk(p, w); }
    if j in p.jobs { assert QueueOk(p); }
  }

  // ----- the worker a forceStopWorker is for -----

  predicate DropFrom(p: Pool, c: CallId, from: Origin) {
    c in p.calls && p.calls[c].Dropping? ==> p.calls[c].origin == from
  }

  lemma DropFromNext(p: Pool, a: Action, c: CallId, from: Origin)
    requires Enabled(p, a) && DropFrom(p, c, from) && (a.DropBegin? ==> a.c != c)
    ensures DropFrom(Next(p, a), c, from)
  {
    hide Next, Enabled;
    if WorkerStep(a) { WorkerStepShape(p, a); } else { CallKeepsDropper(p, a, c, from); }
  }

  lemma CallKeepsDropper(p: Pool, a: Action, c: CallId, from: Origin)
    requires Enabled(p, a) && !WorkerStep(a) && DropFrom(p, c, from) && (a.DropBegin? ==> a.c != c)
    ensures DropFrom(Next(p, a), c, from)
  {
    hide KeepOthers, SlotJobs, SlotJobsOf, MoveAll, FenceAll, Bump, SetPc;
  }

  lemma {:induction false} DropFromStays(p: Pool, actions: seq<Action>, c: CallId, from: Origin)
    requires Run(p, actions) && DropFrom(p, c, from) && forall a :: a in actions && a.DropBegin? ==> a.c != c
    ensures DropFrom(After(p, actions), c, from)
    decreases |actions|
  {
    hide DropFrom, Next, Enabled;
    if actions != [] {
      DropFromNext(p, actions[0], c, from);
      DropFromStays(Next(p, actions[0]), actions[1..], c, from);
    }
  }

  /** The last forceStopWorker that call `c` has begun is for `from`. */
  predicate BeginsAt(actions: seq<Action>, i: nat, c: CallId, from: Origin) {
    && i < |actions| && actions[i] == DropBegin(c, from)
    && forall k :: i < k < |actions| && actions[k].DropBegin? ==> actions[k].c != c
  }

  lemma {:induction false} DropperIsCalled(n: nat, actions: seq<Action>, i: nat, c: CallId, from: Origin)
    requires Run(Init(n), actions) && BeginsAt(actions, i, c, from)
    ensures DropFrom(After(Init(n), actions), c, from)
  {
    RunSplits(Init(n), actions, i);
    var p0 := After(Init(n), actions[..i]);
    assert actions[i..][0] == actions[i];
    BeginRecords(p0, c, from);
    DropFromStays(Next(p0, actions[i]), actions[i..][1..], c, from);
  }

  lemma BeginRecords(p: Pool, c: CallId, from: Origin)
    requires Enabled(p, DropBegin(c, from))
    ensures DropFrom(Next(p, DropBegin(c, from)), c, from)
  {
  }

  // ----- what is cancelled -----

  /** forceStopWorker(from) has the mutex, and `j` was submitted from `whose`. If that is the same worker, a
      queued `j` is fenced once and never executed, whatever happens afterwards, and a `j` in a slot has been
      told to abort; if not, `j` stays in the queue, is not fenced and is told nothing. */
  lemma {:induction false} DropCancelsExactlyOwn(n: nat, before: seq<Action>, c: CallId, after: seq<Action>,
                              i: nat, from: Origin, k: nat, j: Job, whose: Origin)
    requires Run(Init(n), before) && Enabled(After(Init(n), before), DropQueued(c))
    requires Run(Next(After(Init(n), before), DropQueued(c)), after)
    requires BeginsAt(before, i, c, from) && SubmitsAt(before, k, j, whose)
    ensures var p := After(Init(n), before);
      var p1 := Next(p, DropQueued(c));
      var q := After(p1, after);
      && (j in p.jobs && whose == from ==> IsFenced(q, j) && q.fenced[j] == 1 && q.executed[j] == 0)
      && (InSlot(p, j) && whose == from ==> j in q.aborted)
      && (whose != from ==>
            && (j in p1.jobs <==> j in p.jobs) && (j in p1.aborted <==> j in p.aborted)
            && j in p.fenced && j in p1.fenced && p1.fenced[j] == p.fenced[j])
  {
    InitOk(n);
    RunKeeps(Init(n), before);
    OriginIsSubmitter(n, before, k, j, whose);
    DropperIsCalled(n, before, i, c, from);
    DropCancelsForEver(n, before, c, after);
    var p := After(Init(n), before);
    DropCancelsOwn(p, c);
    InSlotIsSlotJob(p, j);
    assert JobOk(p, j);
    AbortedForEver(Next(p, DropQueued(c)), after);
  }

  // ----- without cancellation -----

  /** Without cancellation every fenced job has been executed. */
  ghost predicate FencedAreExecuted(p: Pool) {
    !p.stopFlag && !p.dropped ==> forall j {:trigger IsFenced(p, j)} :: IsFenced(p, j) ==> p.executed[j] == 1
  }

  /** A job comes to be fenced in the last step of its worker, or by a pool that is being stopped. */
  lemma NewlyFenced(p: Pool, a: Action, j: Job)
    requires Inv(p) && Enabled(p, a) && !IsFenced(p, j) && IsFenced(Next(p, a), j)
    ensures Next(p, a).executed[j] == 1 || Next(p, a).stopFlag || Next(p, a).dropped
  {
    assert j in p.place ==> JobOk(p, j);
    if WorkerStep(a) {
      assert WorkerOk(p, a.w);
      if a.Take? { TakeFencesNothing(p, a, j); }
      hide QueueOk;
    } else {
      if Internal(a) { CallStepShape(p, a); assert CallOk(p, a.c); }
      CallFences(p, a, j);
    }
  }

  lemma TakeFencesNothing(p: Pool, a: Action, j: Job)
    requires Enabled(p, a) && a.Take? && IsFenced(Next(p, a), j) && QueueOk(p)
    ensures IsFenced(p, j)
  {
  }

  lemma CallFences(p: Pool, a: Action, j: Job)
    requires Enabled(p, a) && !WorkerStep(a) && (Internal(a) ==> CallOk(p, a.c)) && (j in p.place ==> JobOk(p, j))
    requires !IsFenced(p, j) && IsFenced(Next(p, a), j)
    ensures Next(p, a).stopFlag || Next(p, a).dropped
  {
    hide KeepOthers, SlotJobs, SlotJobsOf, Without, SetPc;
  }

  lemma CancellationLasts(p: Pool, a: Action)
    requires Enabled(p, a)
    ensures p.stopFlag ==> Next(p, a).stopFlag
    ensures p.dropped ==> Next(p, a).dropped
  {
    ExitedNext(p, a, 0);
    hide KeepOthers, SlotJobs, SlotJobsOf, MoveAll, FenceAll, Bump, Without;
  }

  lemma FencedAreExecutedNext(p: Pool, a: Action)
    requires Inv(p) && FencedAreExecuted(p) && Enabled(p, a)
    ensures FencedAreExecuted(Next(p, a))
  {
    CancellationLasts(p, a);
    hide Inv, Next, Enabled, IsFenced;
    var q := Next(p, a);
    forall j | !q.stopFlag && !q.dropped && IsFenced(q, j) ensures j in q.executed && q.executed[j] == 1 {
      if IsFenced(p, j) { FencedNext(p, a, j); } else { NewlyFenced(p, a, j); }
      FencedHasCount(q, j);
    }
  }

  lemma FencedHasCount(p: Pool, j: Job)
    requires IsFenced(p, j)
    ensures j in p.executed
  {
  }

  lemma {:induction false} FencedAreExecutedStays(p: Pool, actions: seq<Action>)
    requires Inv(p) && FencedAreExecuted(p) && Run(p, actions)
    ensures FencedAreExecuted(After(p, actions))
    decreases |actions|
  {
    hide Inv, FencedAreExecuted, Next, Enabled;
    if actions != [] {
      KeepsAlways(p, actions[0]);
      FencedAreExecutedNext(p, actions[0]);
      FencedAreExecutedStays(Next(p, actions[0]), actions[1..]);
    }
  }

  /** Without forceStop and forceStopWorker a job is fenced only after it has been executed, once. */
  lemma {:induction false} FencedWasExecuted(n: nat, actions: seq<Action>, j: Job)
    requires Run(Init(n), actions) && !After(Init(n), actions).stopFlag && !After(Init(n), actions).dropped
    requires IsFenced(After(Init(n), actions), j)
    ensures After(Init(n), actions).executed[j] == 1
  {
    InitOk(n);
    FencedAreExecutedStays(Init(n), actions);
  }

  /** A job is given a thread of its own if and only if every slot of the pool is taken; otherwise it is
      queued. */
  lemma {:induction false} OverflowIffFull(n: nat, actions: seq<Action>, c: CallId)
    requires Run(Init(n), actions) && Enabled(After(Init(n), actions), AddPush(c))
    ensures var p := After(Init(n), actions);
      var j, q := p.calls[c].job, Next(p, AddPush(c));
      && j in q.place && (q.place[j].Overflow? || q.place[j].Queued?)
      && (q.place[j].Overflow? <==> forall w: nat {:trigger HasSlot(p, w)} :: w < |p.workers| ==> HasSlot(p, w))
  {
    RuncountIsOccupancy(n, actions);
    var p := After(Init(n), actions);
    AddPushShape(p, c);
    FullIff(p.workers);
    hide Next, Enabled;
    assert forall w: nat :: w < |p.workers| ==> (HasSlot(p, w) <==> w in Occupied(p.workers));
  }

  predicate HasSlot(p: Pool, w: nat) { w < |p.workers| && p.workers[w].slot.Some? }

  lemma {:induction false} FullIff(ws: seq<Worker>)
    ensures |Occupied(ws)| == |ws| <==> forall w: nat :: w < |ws| ==> w in Occupied(ws)
  {
    if ws != [] {
      var n := |ws| - 1;
      FullIff(ws[..n]);
      OccupiedAtMostAll(ws[..n]);
      assert Occupied(ws) == Occupied(ws[..n]) + if ws[n].slot.Some? then {n} else {};
      assert n in Occupied(ws) <==> ws[n].slot.Some?;
      assert |Occupied(ws)| == |Occupied(ws[..n])| + B2N(ws[n].slot.Some?);
      forall w: nat | w < n ensures w in Occupied(ws) <==> w in Occupied(ws[..n]) { }
      if |Occupied(ws)| == |ws| {
        forall w: nat | w < |ws| ensures w in Occupied(ws) { assert w < n ==> w in Occupied(ws[..n]); }
      }
      if forall w: nat :: w < |ws| ==> w in Occupied(ws) {
        forall w: nat | w < n ensures w in Occupied(ws[..n]) { assert w in Occupied(ws); }
      }
    }
  }
}
