/** The pool makes progress: left alone it comes to a standstill, and then no job is left over, unless a
    forceStopWorker has cost it its workers.
 */
module ThreadPoolProgress {
  import opened Wrappers
  import opened ThreadPool
  import opened ThreadPoolProof

  /** A step of a worker, or of a call that is in progress. */
  predicate Internal(a: Action) { !a.Submit? && !a.StopCheck? && !a.DropBegin? }

  predicate WorkerStep(a: Action) { a.Wake? || a.ReadStop? || a.Take? || a.Start? || a.Finish? || a.Fence? }

  ghost predicate Standstill(p: Pool) {
    forall a {:trigger Enabled(p, a)} :: Internal(a) ==> !Enabled(p, a)
  }

  // ----- sums over the calls in progress -----

  ghost function Sum(calls: map<CallId, Call>, f: Call -> nat): nat
    decreases |calls|
  {
    if calls == map[] then 0
    else
      var c :| c in calls;
      WithoutIsSmaller(calls, c);
      f(calls[c]) + Sum(Without(calls, c), f)
  }

  lemma WithoutIsSmaller(calls: map<CallId, Call>, c: CallId)
    requires c in calls
    ensures |Without(calls, c)| == |calls| - 1
  {
    assert Without(calls, c).Keys == calls.Keys - {c};
    assert |Without(calls, c)| == |Without(calls, c).Keys| && |calls| == |calls.Keys|;
  }

  lemma {:induction false} SumTakes(calls: map<CallId, Call>, c: CallId, f: Call -> nat)
    requires c in calls
    ensures Sum(calls, f) == f(calls[c]) + Sum(Without(calls, c), f)
    decreases |calls|
  {
    var d :| d in calls && Sum(calls, f) == f(calls[d]) + Sum(Without(calls, d), f);
    if d != c {
      WithoutIsSmaller(calls, c);
      WithoutIsSmaller(calls, d);
      SumTakes(Without(calls, d), c, f);
      SumTakes(Without(calls, c), d, f);
      assert Without(Without(calls, d), c) == Without(Without(calls, c), d);
    }
  }

  /** A call that begins, or goes on. */
  lemma SumPuts(calls: map<CallId, Call>, c: CallId, v: Call, f: Call -> nat)
    ensures Sum(calls[c := v], f) == f(v) + Sum(Without(calls, c), f)
  {
    SumTakes(calls[c := v], c, f);
    assert Without(calls[c := v], c) == Without(calls, c);
  }

  // ----- every run of internal steps ends -----

  /** More than the steps a call, and the worker it wakes, can still make. */
  function CallEffort(workers: nat): Call -> nat {
    (k: Call) =>
      match k
      case Adding(_, _) => 9
      case Pushing(_) => 8
      case Signalling => 7
      case StopSeen => 7 * workers + 2
      case Stopping(n) => 7 * n + 1
      case Dropping(_, n) => 7 * n + 1
  }

  function WorkerEffort(pc: Pc): nat {
    match pc
    case Waiting => 0
    case Woken => 5
    case Checked => 4
    case Taken(_) => 3
    case Running(_) => 2
    case Fencing(_) => 1
    case Abandoned(_) => 0
    case Exited => 0
  }

  function WorkersEffort(ws: seq<Worker>): nat {
    if ws == [] then 0 else WorkersEffort(ws[..|ws| - 1]) + WorkerEffort(ws[|ws| - 1].pc)
  }

  lemma {:induction false} WorkersEffortChange(ws: seq<Worker>, w: nat, k: Worker)
    requires w < |ws|
    ensures WorkersEffort(ws[w := k]) == WorkersEffort(ws) - WorkerEffort(ws[w].pc) + WorkerEffort(k.pc)
  {
    var n := |ws| - 1;
    if w < n {
      WorkersEffortChange(ws[..n], w, k);
      assert ws[w := k][..n] == ws[..n][w := k];
    } else {
      assert ws[w := k][..n] == ws[..n];
    }
  }

  ghost function Effort(p: Pool): nat {
    Sum(p.calls, CallEffort(|p.workers|)) + 6 * p.semaphore + WorkersEffort(p.workers)
  }

  lemma WorkerStepCosts(p: Pool, a: Action)
    requires Enabled(p, a) && WorkerStep(a)
    ensures Effort(Next(p, a)) < Effort(p)
  {
    hide Sum, CallEffort, Bump, WorkersEffort;
    WorkersEffortChange(p.workers, a.w, Next(p, a).workers[a.w]);
    WorkerStepShape(p, a);
  }

  /** Neither gone nor about to look at stopFlag with a signal in hand. */
  predicate Remains(pc: Pc) { !pc.Exited? && !pc.Abandoned? && !pc.Woken? }

  /** What a worker step does to the pool as the calls see it. */
  predicate Stepped(p: Pool, q: Pool, w: nat, signals: nat) {
    && w < |p.workers| && |q.workers| == |p.workers| && q.workers == p.workers[w := q.workers[w]]
    && q.calls == p.calls && q.semaphore + signals == p.semaphore && q.stopFlag == p.stopFlag && q.drained == p.drained
    && WorkerEffort(q.workers[w].pc) < WorkerEffort(p.workers[w].pc) + 6 * signals
    && (p.stopFlag ==> B2N(Remains(q.workers[w].pc)) + signals <= B2N(Remains(p.workers[w].pc)))
  }

  /** It changes one worker, and takes at most a signal. */
  lemma WorkerStepShape(p: Pool, a: Action)
    requires Enabled(p, a) && WorkerStep(a)
    ensures Stepped(p, Next(p, a), a.w, B2N(a.Wake?))
  {
    hide Next, Enabled;
    match a
    case Wake(_) => QuickStepShape(p, a);
    case ReadStop(_) => QuickStepShape(p, a);
    case Start(_) => StartShape(p, a);
    case Fence(_) => FenceShape(p, a);
    case Take(_) => TakeShape(p, a);
    case Finish(_) => FinishShape(p, a);
    case _ =>
  }

  lemma QuickStepShape(p: Pool, a: Action)
    requires Enabled(p, a) && (a.Wake? || a.ReadStop?)
    ensures Stepped(p, Next(p, a), a.w, B2N(a.Wake?))
  {
  }

  lemma StartShape(p: Pool, a: Action)
    requires Enabled(p, a) && a.Start?
    ensures Stepped(p, Next(p, a), a.w, 0)
  {
    hide Bump;
  }

  lemma FenceShape(p: Pool, a: Action)
    requires Enabled(p, a) && a.Fence?
    ensures Stepped(p, Next(p, a), a.w, 0)
  {
    hide Bump;
  }

  lemma TakeShape(p: Pool, a: Action)
    requires Enabled(p, a) && a.Take?
    ensures Stepped(p, Next(p, a), a.w, 0)
  {
    TakeWorkers(p, a);
    TakeOthers(p, a);
    hide Next, Enabled;
  }

  lemma TakeWorkers(p: Pool, a: Action)
    requires Enabled(p, a) && a.Take?
    ensures p.workers[a.w].pc.Checked? && exists k :: Next(p, a).workers == p.workers[a.w := k] && (k.pc.Exited? || k.pc.Taken?)
  {
    var k := if p.jobs == [] then p.workers[a.w].(pc := Exited) else Worker(Taken(p.jobs[0]), Some(p.jobs[0]));
    assert Next(p, a).workers == p.workers[a.w := k];
  }

  lemma TakeOthers(p: Pool, a: Action)
    requires Enabled(p, a) && a.Take?
    ensures var q := Next(p, a); q.calls == p.calls && q.semaphore == p.semaphore && q.stopFlag == p.stopFlag && q.drained == p.drained
  {
    hide Cancel, KeepOthers, SlotJobs, SlotJobsOf, Without, Bump, SetPc;
    if p.jobs == [] { SetPcOthers(p, a.w, Exited); }
  }

  lemma SetPcOthers(p: Pool, w: nat, pc: Pc)
    requires w < |p.workers|
    ensures var q := SetPc(p, w, pc);
      q.calls == p.calls && q.semaphore == p.semaphore && q.stopFlag == p.stopFlag && q.drained == p.drained
  {
  }

  lemma FinishShape(p: Pool, a: Action)
    requires Enabled(p, a) && a.Finish?
    ensures Stepped(p, Next(p, a), a.w, 0)
  {
  }

  lemma CallStepCosts(p: Pool, a: Action)
    requires Enabled(p, a) && Internal(a) && !WorkerStep(a)
    ensures Effort(Next(p, a)) < Effort(p)
  {
    CallStepShape(p, a);
    hide Next, Enabled;
    var f, q := CallEffort(|p.workers|), Next(p, a);
    SumTakes(p.calls, a.c, f);
    if a.c in q.calls { SumPuts(p.calls, a.c, q.calls[a.c], f); }
    hide Sum, WorkersEffort;
  }

  function StopSignals(): Call -> nat {
    (k: Call) => if k.Stopping? then k.signals else 0
  }

  function IsStop(): Call -> nat {
    (k: Call) => if k.Stopping? then 1 else 0
  }

  /** It is taken in a call that ends or goes on, with less left to do or one signal sent. */
  predicate CallStepped(p: Pool, q: Pool, c: CallId) {
    && c in p.calls && q.workers == p.workers && q.semaphore >= p.semaphore
    && (q.calls == Without(p.calls, c) || (c in q.calls && q.calls == p.calls[c := q.calls[c]]))
    && (if c in q.calls then CallEffort(|p.workers|)(q.calls[c]) else 0) + 6 * q.semaphore
       < CallEffort(|p.workers|)(p.calls[c]) + 6 * p.semaphore
    && (p.stopFlag ==>
          && q.stopFlag && (p.drained ==> q.drained)
          && (if c in q.calls then StopSignals()(q.calls[c]) else 0) + q.semaphore >= StopSignals()(p.calls[c]) + p.semaphore
          && (q.drained || (if c in q.calls then IsStop()(q.calls[c]) else 0) >= IsStop()(p.calls[c])))
  }

  lemma CallStepShape(p: Pool, a: Action)
    requires Enabled(p, a) && Internal(a) && !WorkerStep(a)
    ensures CallStepped(p, Next(p, a), a.c)
  {
    hide Next, Enabled, CallStepped;
    if a.StopDrain? || a.DropQueued? {
      CancelShape(p, a);
    } else if a.AddLock? || a.AddPush? || a.AddSignal? {
      AddShape(p, a);
    } else {
      SignalShape(p, a);
    }
  }

  lemma CancelShape(p: Pool, a: Action)
    requires Enabled(p, a) && (a.StopDrain? || a.DropQueued?)
    ensures CallStepped(p, Next(p, a), a.c)
  {
    hide KeepOthers, SlotJobs, SlotJobsOf, MoveAll, FenceAll, Bump, SetPc;
  }

  lemma AddShape(p: Pool, a: Action)
    requires Enabled(p, a) && (a.AddLock? || a.AddPush? || a.AddSignal?)
    ensures CallStepped(p, Next(p, a), a.c)
  {
    hide Next, Enabled, CallStepped;
    match a
    case AddLock(_) => LockStepShape(p, a);
    case AddPush(_) => PushStepShape(p, a);
    case _ => SignalSentShape(p, a);
  }

  lemma LockStepShape(p: Pool, a: Action)
    requires Enabled(p, a) && a.AddLock?
    ensures CallStepped(p, Next(p, a), a.c)
  {
    hide Bump, Cancel, SetPc;
  }

  lemma PushStepShape(p: Pool, a: Action)
    requires Enabled(p, a) && a.AddPush?
    ensures CallStepped(p, Next(p, a), a.c)
  {
    hide Bump, Cancel, SetPc;
  }

  lemma SignalSentShape(p: Pool, a: Action)
    requires Enabled(p, a) && a.AddSignal?
    ensures CallStepped(p, Next(p, a), a.c)
  {
  }

  lemma SignalShape(p: Pool, a: Action)
    requires Enabled(p, a) && (a.StopSet? || a.StopSignal? || a.DropSignal?)
    ensures CallStepped(p, Next(p, a), a.c)
  {
  }

  lemma StepCosts(p: Pool, a: Action)
    requires Enabled(p, a) && Internal(a)
    ensures Effort(Next(p, a)) < Effort(p)
  {
    if WorkerStep(a) { WorkerStepCosts(p, a); } else { CallStepCosts(p, a); }
  }

  /** Without new calls the pool comes to a standstill, whichever steps it takes. */
  lemma {:induction false} RunsEnd(p: Pool, actions: seq<Action>)
    requires Run(p, actions) && forall a :: a in actions ==> Internal(a)
    ensures |actions| <= Effort(p)
    decreases |actions|
  {
    if actions != [] {
      StepCosts(p, actions[0]);
      RunsEnd(Next(p, actions[0]), actions[1..]);
    }
  }

  // ----- a pool at a standstill -----

  /** No call is in progress, and every worker waits without a signal or has returned. */
  lemma StandstillIsIdle(p: Pool)
    requires Inv(p) && Standstill(p)
    ensures p.calls == map[] && p.mutex == None
    ensures forall w: nat :: w < |p.workers| ==>
      var pc := p.workers[w].pc; (pc.Waiting? && p.semaphore == 0) || pc.Exited? || pc.Abandoned?
    ensures InFlight(p.workers) == {} && Unsignalled(p) == 0
  {
    NobodyHasTheMutex(p);
    forall c | c in p.calls ensures false { CallCanGoOn(p, c); }
    assert p.calls == map[];
    forall w: nat | w < |p.workers|
      ensures var pc := p.workers[w].pc; (pc.Waiting? && p.semaphore == 0) || pc.Exited? || pc.Abandoned?
    {
      WorkerCannotGoOn(p, w);
    }
  }

  lemma NobodyHasTheMutex(p: Pool)
    requires Inv(p) && Standstill(p)
    ensures p.mutex == None
  {
    if p.mutex.Some? { HolderCanGoOn(p, p.mutex.value); }
  }

  lemma HolderCanGoOn(p: Pool, c: CallId)
    requires Inv(p) && p.mutex == Some(c)
    ensures exists a :: Internal(a) && Enabled(p, a)
  {
    assert CallOk(p, c);
    if p.calls[c].Pushing? { assert Enabled(p, AddPush(c)); } else { assert Enabled(p, AddSignal(c)); }
  }

  lemma CallCanGoOn(p: Pool, c: CallId)
    requires Inv(p) && p.mutex == None && c in p.calls
    ensures exists a :: Internal(a) && Enabled(p, a)
  {
    assert CallOk(p, c);
    match p.calls[c]
    case Adding(_, _) => assert Enabled(p, AddLock(c));
    case StopSeen => assert Enabled(p, StopSet(c));
    case Stopping(n) => assert if n > 0 then Enabled(p, StopSignal(c)) else Enabled(p, StopDrain(c));
    case Dropping(_, n) => assert if n > 0 then Enabled(p, DropSignal(c)) else Enabled(p, DropQueued(c));
    case _ =>
  }

  lemma WorkerCannotGoOn(p: Pool, w: nat)
    requires Standstill(p) && p.mutex == None && w < |p.workers|
    ensures var pc := p.workers[w].pc; (pc.Waiting? && p.semaphore == 0) || pc.Exited? || pc.Abandoned?
  {
    assert !Enabled(p, Wake(w)) && !Enabled(p, ReadStop(w)) && !Enabled(p, Take(w));
    assert !Enabled(p, Start(w)) && !Enabled(p, Finish(w)) && !Enabled(p, Fence(w));
  }

  /** Every job has been fenced or has a thread of its own; or every worker has left because it found
      the queue empty, and what was queued later stays there. The latter takes a forceStopWorker. */
  lemma StandstillLeavesNothing(p: Pool, j: Job)
    requires Inv(p) && Standstill(p) && !p.stopFlag && p.workers != [] && j in p.place
    ensures p.place[j].Fenced? || p.place[j].Overflow? || (p.place[j].Queued? && p.dropped)
    ensures p.place[j].Queued? ==> forall w: nat :: w < |p.workers| ==> p.workers[w].pc.Exited?
  {
    StandstillIsIdle(p);
    assert JobOk(p, j);
    forall w: nat | w < |p.workers| ensures !HasJob(p.workers[w].pc) { assert WorkerOk(p, w); }
    assert WorkerOk(p, 0) && |InFlight(p.workers)| == 0 && (p.place[j].Queued? ==> |p.jobs| > 0);
    forall w: nat | w < |p.workers| && p.place[j].Queued? ensures p.workers[w].pc.Exited? {
      assert WorkerOk(p, w);
    }
  }

  // ----- a stop runs its course -----

  /** Workers that may still run, or wait, and have not yet taken the signal that will end them. */
  function Remaining(ws: seq<Worker>): set<nat> {
    set w: nat | w < |ws| && Remains(ws[w].pc)
  }

  /** Once stopFlag is set there is a signal for every worker that remains, sent or still to be sent,
      and a forceStop that has not drained the queue is still in progress. */
  ghost predicate StopOk(p: Pool) {
    p.stopFlag ==>
      |Remaining(p.workers)| <= p.semaphore + Sum(p.calls, StopSignals())
      && (p.drained || Sum(p.calls, IsStop()) >= 1)
  }

  lemma RemainingAtMostAll(ws: seq<Worker>)
    ensures |Remaining(ws)| <= |ws|
  {
    if ws != [] {
      var n := |ws| - 1;
      RemainingAtMostAll(ws[..n]);
      assert Remaining(ws) == Remaining(ws[..n]) + if Remains(ws[n].pc) then {n} else {};
    }
  }

  lemma RemainingChange(ws: seq<Worker>, w: nat, k: Worker)
    requires w < |ws|
    ensures |Remaining(ws[w := k])| == |Remaining(ws)| + B2N(Remains(k.pc)) - B2N(Remains(ws[w].pc))
  {
    assert Remaining(ws[w := k]) == (Remaining(ws) - {w}) + if Remains(k.pc) then {w} else {};
    assert Remains(ws[w].pc) <==> w in Remaining(ws);
  }

  lemma StopOkNext(p: Pool, a: Action)
    requires Enabled(p, a) && StopOk(p)
    ensures StopOk(Next(p, a))
  {
    hide Next, Enabled;
    if WorkerStep(a) {
      WorkerStepShape(p, a);
      RemainingChange(p.workers, a.w, Next(p, a).workers[a.w]);
    } else if !Internal(a) {
      BeginShape(p, a);
      hide StopOk;
      NewCallStopOk(p, Next(p, a), a.c);
    } else {
      CallStepShape(p, a);
      if p.stopFlag {
        CallStepStopOk(p, Next(p, a), a.c);
      } else {
        StopBegins(p, a);
      }
    }
  }

  lemma BeginShape(p: Pool, a: Action)
    requires Enabled(p, a) && !Internal(a)
    ensures var q := Next(p, a);
      && a.c !in p.calls && a.c in q.calls && q.calls == p.calls[a.c := q.calls[a.c]] && !q.calls[a.c].Stopping?
      && q.workers == p.workers && q.semaphore == p.semaphore && q.stopFlag == p.stopFlag && q.drained == p.drained
  {
  }

  lemma NewCallStopOk(p: Pool, q: Pool, c: CallId)
    requires StopOk(p) && c !in p.calls && c in q.calls && q.calls == p.calls[c := q.calls[c]] && !q.calls[c].Stopping?
    requires q.workers == p.workers && q.semaphore == p.semaphore && q.stopFlag == p.stopFlag && q.drained == p.drained
    ensures StopOk(q)
  {
    assert Without(p.calls, c) == p.calls;
    SumPuts(p.calls, c, q.calls[c], StopSignals());
    SumPuts(p.calls, c, q.calls[c], IsStop());
    hide Sum;
  }

  lemma CallStepStopOk(p: Pool, q: Pool, c: CallId)
    requires StopOk(p) && p.stopFlag && CallStepped(p, q, c)
    ensures StopOk(q)
  {
    SumTakes(p.calls, c, StopSignals());
    SumTakes(p.calls, c, IsStop());
    if c in q.calls {
      SumPuts(p.calls, c, q.calls[c], StopSignals());
      SumPuts(p.calls, c, q.calls[c], IsStop());
    }
    hide Sum;
  }

  lemma StopBegins(p: Pool, a: Action)
    requires Enabled(p, a) && Internal(a) && !WorkerStep(a) && !p.stopFlag
    ensures StopOk(Next(p, a))
  {
    StopSetShape(p, a);
    hide Next, Enabled;
    if a.StopSet? {
      RemainingAtMostAll(p.workers);
      SumPuts(p.calls, a.c, Stopping(|p.workers|), StopSignals());
      SumPuts(p.calls, a.c, Stopping(|p.workers|), IsStop());
    }
  }

  lemma StopSetShape(p: Pool, a: Action)
    requires Enabled(p, a) && Internal(a) && !WorkerStep(a) && !p.stopFlag
    ensures if a.StopSet? then Next(p, a).calls == p.calls[a.c := Stopping(|p.workers|)] && Next(p, a).workers == p.workers
            else !Next(p, a).stopFlag
  {
    hide KeepOthers, SlotJobs, SlotJobsOf, MoveAll, FenceAll, Bump, SetPc, Without;
  }

  lemma {:induction false} RunStopOk(p: Pool, actions: seq<Action>)
    requires StopOk(p) && Run(p, actions)
    ensures StopOk(After(p, actions))
    decreases |actions|
  {
    if actions != [] {
      StopOkNext(p, actions[0]);
      RunStopOk(Next(p, actions[0]), actions[1..]);
    }
  }

  /** A stopped pool that comes to a standstill is at rest: every worker has returned, the queue is
      empty, and no call is in progress. */
  lemma {:induction false} StopsAtRest(n: nat, actions: seq<Action>)
    requires Run(Init(n), actions) && After(Init(n), actions).stopFlag && Standstill(After(Init(n), actions))
    ensures AtRest(After(Init(n), actions))
  {
    var p := After(Init(n), actions);
    InitOk(n);
    RunKeeps(Init(n), actions);
    RunStopOk(Init(n), actions);
    StandstillIsIdle(p);
    forall w: nat | w < |p.workers| ensures p.workers[w].pc.Exited? || p.workers[w].pc.Abandoned? {
      assert p.workers[w].pc.Waiting? ==> w in Remaining(p.workers);
    }
  }

  // ----- workers that find the queue empty -----

  /** The branch that ends a worker although nobody stops the pool. */
  predicate Quits(p: Pool, a: Action, w: nat) { a == Take(w) && p.jobs == [] }

  ghost predicate RunQuits(p: Pool, actions: seq<Action>, w: nat)
    requires Run(p, actions)
    decreases |actions|
  {
    actions != [] && (Quits(p, actions[0], w) || RunQuits(Next(p, actions[0]), actions[1..], w))
  }

  predicate HasExited(p: Pool, w: nat) { w < |p.workers| && p.workers[w].pc.Exited? }

  lemma ExitedNext(p: Pool, a: Action, w: nat)
    requires Enabled(p, a)
    ensures HasExited(Next(p, a), w) <==> HasExited(p, w) || Quits(p, a, w) || (a == ReadStop(w) && p.stopFlag)
    ensures Next(p, a).stopFlag <==> p.stopFlag || a.StopSet?
  {
    hide Next, Enabled;
    if WorkerStep(a) {
      WorkerStepShape(p, a);
      if a.Take? || a.ReadStop? { QuitShape(p, a); } else { OtherPc(p, a); }
    } else if Internal(a) {
      CallStepShape(p, a);
      StopFlagShape(p, a);
    } else {
      BeginShape(p, a);
    }
  }

  lemma QuitShape(p: Pool, a: Action)
    requires Enabled(p, a) && (a.Take? || a.ReadStop?)
    ensures a.w < |p.workers| == |Next(p, a).workers| && !p.workers[a.w].pc.Exited?
    ensures Next(p, a).workers[a.w].pc.Exited? <==> if a.Take? then p.jobs == [] else p.stopFlag
  {
    if a.Take? { TakeWorkers(p, a); }
    hide Cancel, KeepOthers, SlotJobs, SlotJobsOf, Without, Bump;
  }

  lemma OtherPc(p: Pool, a: Action)
    requires Enabled(p, a) && (a.Wake? || a.Start? || a.Finish? || a.Fence?)
    ensures a.w < |p.workers| == |Next(p, a).workers|
    ensures !p.workers[a.w].pc.Exited? && !Next(p, a).workers[a.w].pc.Exited?
  {
    hide Cancel, KeepOthers, SlotJobs, SlotJobsOf, Without, Bump;
  }

  lemma StopFlagShape(p: Pool, a: Action)
    requires Enabled(p, a) && Internal(a) && !WorkerStep(a)
    ensures Next(p, a).stopFlag <==> p.stopFlag || a.StopSet?
  {
    hide KeepOthers, SlotJobs, SlotJobsOf, MoveAll, FenceAll, Bump, SetPc, Without;
  }

  /** In a pool that nobody has stopped, the workers gone are those that have taken that branch. */
  lemma {:induction false} ExitedIffQuits(p: Pool, actions: seq<Action>, w: nat)
    requires Run(p, actions) && !After(p, actions).stopFlag
    ensures HasExited(After(p, actions), w) <==> HasExited(p, w) || RunQuits(p, actions, w)
    ensures !p.stopFlag
    decreases |actions|
  {
    if actions != [] {
      ExitedNext(p, actions[0], w);
      ExitedIffQuits(Next(p, actions[0]), actions[1..], w);
    }
  }

  /** A pool that nobody has stopped comes to a standstill with every job fenced or in a thread of its
      own, unless each of its workers has taken that branch; only then can a job be left in the queue. */
  lemma {:induction false} LeftOverOnlyWithoutWorkers(n: nat, actions: seq<Action>, j: Job)
    requires n > 0 && Run(Init(n), actions) && Standstill(After(Init(n), actions)) && !After(Init(n), actions).stopFlag
    requires j in After(Init(n), actions).place
    ensures var p := After(Init(n), actions);
      && (p.place[j].Fenced? || p.place[j].Overflow? || p.place[j].Queued?)
      && (p.place[j].Queued? ==> p.dropped && forall w: nat :: w < n ==> RunQuits(Init(n), actions, w))
  {
    InitOk(n);
    RunKeeps(Init(n), actions);
    RunKeepsSize(Init(n), actions);
    var p := After(Init(n), actions);
    StandstillLeavesNothing(p, j);
    forall w: nat | w < n && p.place[j].Queued? ensures RunQuits(Init(n), actions, w) {
      ExitedIffQuits(Init(n), actions, w);
    }
  }

  lemma SizeNext(p: Pool, a: Action)
    requires Enabled(p, a)
    ensures |Next(p, a).workers| == |p.workers|
  {
    hide Next, Enabled;
    if WorkerStep(a) { WorkerStepShape(p, a); } else if Internal(a) { CallStepShape(p, a); } else { BeginShape(p, a); }
  }

  lemma {:induction false} RunKeepsSize(p: Pool, actions: seq<Action>)
    requires Run(p, actions)
    ensures |After(p, actions).workers| == |p.workers|
    decreases |actions|
  {
    if actions != [] {
      SizeNext(p, actions[0]);
      RunKeepsSize(Next(p, actions[0]), actions[1..]);
    }
  }

  ghost predicate NoWorkerLeft(p: Pool) {
    forall w: nat {:trigger HasExited(p, w)} :: w < |p.workers| ==> HasExited(p, w)
  }

  lemma NoWorkerLeftNext(p: Pool, a: Action)
    requires Enabled(p, a) && NoWorkerLeft(p)
    ensures NoWorkerLeft(Next(p, a)) && Next(p, a).started == p.started
  {
    assert WorkerStep(a) ==> HasExited(p, a.w);
    StartedNext(p, a);
    hide Next, Enabled;
    SizeNext(p, a);
    forall w: nat | w < |p.workers| ensures HasExited(Next(p, a), w) {
      assert HasExited(p, w);
      ExitedNext(p, a, w);
    }
  }

  lemma StartedNext(p: Pool, a: Action)
    requires Enabled(p, a) && !WorkerStep(a)
    ensures Next(p, a).started == p.started
  {
    hide Cancel, KeepOthers, SlotJobs, SlotJobsOf, Bump, SetPc, Without;
    if a.StopDrain? {
      CancelKeepsHistory(p, a.c, SlotJobs(p), []);
    } else if a.DropQueued? {
      var from := p.calls[a.c].origin;
      CancelKeepsHistory(p, a.c, SlotJobsOf(p, from), KeepOthers(p.jobs, p.origin, from));
    }
  }

  /** And then no job is ever started again, whatever is queued. */
  lemma {:induction false} NeverStartsAgain(p: Pool, actions: seq<Action>)
    requires NoWorkerLeft(p) && Run(p, actions)
    ensures NoWorkerLeft(After(p, actions)) && After(p, actions).started == p.started
    decreases |actions|
  {
    if actions != [] {
      NoWorkerLeftNext(p, actions[0]);
      NeverStartsAgain(Next(p, actions[0]), actions[1..]);
    }
  }

  // ----- cancelled jobs -----

  predicate IsFenced(p: Pool, j: Job) { j in p.place && p.place[j].Fenced? && j in p.executed && j in p.fenced }

  predicate StaysFenced(p: Pool, q: Pool, j: Job)
    requires IsFenced(p, j)
  {
    IsFenced(q, j) && q.executed[j] == p.executed[j] && p.aborted <= q.aborted
  }

  /** Nothing moves a fenced job again. */
  lemma FencedNext(p: Pool, a: Action, j: Job)
    requires Inv(p) && Enabled(p, a) && IsFenced(p, j)
    ensures StaysFenced(p, Next(p, a), j)
  {
    assert a.Take? && p.jobs != [] ==> p.jobs[0] in p.jobs;
    if WorkerStep(a) {
      assert WorkerOk(p, a.w);
      hide Inv, JobOk, CallOk, TokensOk;
      WorkerKeepsFenced(p, a, j);
    } else {
      if Internal(a) { CallStepShape(p, a); assert CallOk(p, a.c); }
      hide Inv, JobOk, WorkerOk, TokensOk;
      CallKeepsFenced(p, a, j);
    }
  }

  lemma WorkerKeepsFenced(p: Pool, a: Action, j: Job)
    requires Enabled(p, a) && WorkerStep(a) && IsFenced(p, j) && WorkerOk(p, a.w) && QueueOk(p)
    ensures StaysFenced(p, Next(p, a), j)
  {
    match a
    case Take(_) => TakeKeepsFenced(p, a, j);
    case Start(w) => StartKeepsFenced(p, a, j);
    case _ =>
  }

  lemma TakeKeepsFenced(p: Pool, a: Action, j: Job)
    requires Enabled(p, a) && a.Take? && IsFenced(p, j) && QueueOk(p)
    ensures StaysFenced(p, Next(p, a), j)
  {
  }

  lemma StartKeepsFenced(p: Pool, a: Action, j: Job)
    requires Enabled(p, a) && a.Start? && IsFenced(p, j) && WorkerOk(p, a.w)
    ensures StaysFenced(p, Next(p, a), j)
  {
  }

  lemma CallKeepsFenced(p: Pool, a: Action, j: Job)
    requires Enabled(p, a) && !WorkerStep(a) && IsFenced(p, j) && (Internal(a) ==> CallOk(p, a.c))
    ensures StaysFenced(p, Next(p, a), j)
  {
    hide KeepOthers, SlotJobs, SlotJobsOf, Without, SetPc;
  }

  lemma {:induction false} FencedForEver(p: Pool, actions: seq<Action>, j: Job)
    requires Inv(p) && Run(p, actions) && IsFenced(p, j)
    ensures StaysFenced(p, After(p, actions), j)
    decreases |actions|
  {
    hide Inv, Next, Enabled;
    if actions != [] {
      FencedNext(p, actions[0], j);
      KeepsAlways(p, actions[0]);
      FencedForEver(Next(p, actions[0]), actions[1..], j);
    }
  }

  lemma {:induction false} AbortedForEver(p: Pool, actions: seq<Action>)
    requires Run(p, actions)
    ensures p.aborted <= After(p, actions).aborted
    decreases |actions|
  {
    if actions != [] {
      AbortedNext(p, actions[0]);
      AbortedForEver(Next(p, actions[0]), actions[1..]);
    }
  }

  lemma AbortedNext(p: Pool, a: Action)
    requires Enabled(p, a)
    ensures p.aborted <= Next(p, a).aborted
  {
    hide SetPc, Cancel, KeepOthers, SlotJobs, SlotJobsOf, Without, Bump;
    match a
    case StopDrain(c) => CancelKeepsHistory(p, c, SlotJobs(p), []);
    case DropQueued(c) =>
      var from := p.calls[c].origin;
      CancelKeepsHistory(p, c, SlotJobsOf(p, from), KeepOthers(p.jobs, p.origin, from));
    case Wake(w) => SetPcKeepsHistory(p, w, Woken);
    case ReadStop(w) => SetPcKeepsHistory(p, w, if p.stopFlag then Exited else Checked);
    case Take(w) => SetPcKeepsHistory(p, w, Exited);
    case Start(w) =>
      SetPcKeepsHistory(p, w, Abandoned(p.workers[w].pc.job));
      SetPcKeepsHistory(p, w, Running(p.workers[w].pc.job));
    case Fence(w) => SetPcKeepsHistory(p, w, Waiting);
    case _ =>
  }

  /** Whatever happens afterwards, a job that was queued when forceStop had the mutex has been fenced
      once and is never executed; one that was in a slot has been told to abort; the queue stays empty. */
  lemma {:induction false} StopCancelsForEver(n: nat, before: seq<Action>, c: CallId, after: seq<Action>)
    requires Run(Init(n), before) && Enabled(After(Init(n), before), StopDrain(c))
    requires Run(Next(After(Init(n), before), StopDrain(c)), after)
    ensures var p := After(Init(n), before);
      var q := After(Next(p, StopDrain(c)), after);
      && q.jobs == [] && (forall j :: InSlot(p, j) ==> j in q.aborted)
      && (forall j :: j in Next(p, StopDrain(c)).aborted <==> j in p.aborted || InSlot(p, j))
      && (forall j :: j in p.jobs ==> IsFenced(q, j) && q.fenced[j] == 1 && q.executed[j] == 0)
  {
    InitOk(n);
    RunKeeps(Init(n), before);
    var p := After(Init(n), before);
    KeepsAlways(p, StopDrain(c));
    StopCancelsAll(p, c);
    forall j ensures InSlot(p, j) <==> j in SlotJobs(p) { InSlotIsSlotJob(p, j); }
    var p1 := Next(p, StopDrain(c));
    StaysDrained(p1, after);
    AbortedForEver(p1, after);
    forall j | j in p.jobs
      ensures IsFenced(After(p1, after), j) && After(p1, after).fenced[j] == 1 && After(p1, after).executed[j] == 0
    {
      CancelledForEver(p, StopDrain(c), after, j);
    }
  }

  lemma {:induction false} CancelledForEver(p: Pool, a: Action, after: seq<Action>, j: Job)
    requires Inv(p) && Enabled(p, a) && (a.StopDrain? || a.DropQueued?) && Run(Next(p, a), after)
    requires j in p.jobs && j in Next(p, a).place && Next(p, a).place[j] == Fenced
    ensures var q := After(Next(p, a), after); IsFenced(q, j) && q.fenced[j] == 1 && q.executed[j] == 0
  {
    var q := Next(p, a);
    KeepsAlways(p, a);
    RunKeeps(q, after);
    assert j in p.place && JobOk(p, j) && JobOk(q, j);
    ExecutedSame(p, a);
    FencedForEver(q, after, j);
    assert JobOk(After(q, after), j);
  }

  lemma ExecutedSame(p: Pool, a: Action)
    requires Enabled(p, a) && (a.StopDrain? || a.DropQueued?)
    ensures Next(p, a).executed == p.executed
  {
    hide KeepOthers, SlotJobs, SlotJobsOf, Without, MoveAll, FenceAll;
  }

  /** forceStopWorker does that to the jobs one worker has started, and leaves the others in the queue
      in their order. */
  lemma {:induction false} DropCancelsForEver(n: nat, before: seq<Action>, c: CallId, after: seq<Action>)
    requires Run(Init(n), before) && Enabled(After(Init(n), before), DropQueued(c))
    requires Run(Next(After(Init(n), before), DropQueued(c)), after)
    ensures var p := After(Init(n), before);
      var from, q := p.calls[c].origin, After(Next(p, DropQueued(c)), after);
      && Next(p, DropQueued(c)).jobs == KeepOthers(p.jobs, p.origin, from) && SlotJobsOf(p, from) <= q.aborted
      && (forall j :: j in p.jobs && StartedBy(p, j, from) ==> IsFenced(q, j) && q.fenced[j] == 1 && q.executed[j] == 0)
  {
    InitOk(n);
    RunKeeps(Init(n), before);
    var p := After(Init(n), before);
    var from, p1 := p.calls[c].origin, Next(p, DropQueued(c));
    DropCancelsOwn(p, c);
    AbortedForEver(p1, after);
    forall j | j in p.jobs && StartedBy(p, j, from)
      ensures IsFenced(After(p1, after), j) && After(p1, after).fenced[j] == 1 && After(p1, after).executed[j] == 0
    {
      DroppedIsFenced(p, c, j);
      CancelledForEver(p, DropQueued(c), after, j);
    }
  }

  lemma DroppedIsFenced(p: Pool, c: CallId, j: Job)
    requires Inv(p) && Enabled(p, DropQueued(c)) && j in p.jobs && StartedBy(p, j, p.calls[c].origin)
    ensures var q := Next(p, DropQueued(c)); j in q.place && q.place[j] == Fenced
  {
    assert QueueOk(p) && exists k :: 0 <= k < |p.jobs| && p.jobs[k] == j;
    hide SlotJobs, SlotJobsOf, Without, FenceAll;
  }
}
