/** What holds in every reachable state of the thread pool. */
module ThreadPoolProof {
  import opened Wrappers
  import opened ThreadPool

  predicate HasJob(pc: Pc) { pc.Taken? || pc.Running? || pc.Fencing? || pc.Abandoned? }

  /** The job is where its history says, and has been executed and fenced as that place implies. */
  predicate JobOk(p: Pool, j: Job) {
    j in p.place && j in p.executed && j in p.fenced &&
    match p.place[j]
    case InCall(c) =>
      c in p.calls && (p.calls[c].Adding? || p.calls[c].Pushing?) && p.calls[c].job == j
      && p.executed[j] == 0 && p.fenced[j] == 0
    case Queued => j in p.jobs && p.executed[j] == 0 && p.fenced[j] == 0
    case InWorker(w) =>
      w < |p.workers| && HasJob(p.workers[w].pc) && p.workers[w].pc.job == j && p.fenced[j] == 0
      && p.executed[j] == if p.workers[w].pc.Running? || p.workers[w].pc.Fencing? then 1 else 0
    case Overflow => p.executed[j] == 0 && p.fenced[j] == 0
    case Fenced => p.executed[j] <= 1 && p.fenced[j] == 1
  }

  predicate CallOk(p: Pool, c: CallId) {
    c in p.calls &&
    (p.calls[c].Adding? || p.calls[c].Pushing? ==> p.calls[c].job in p.place && p.place[p.calls[c].job] == InCall(c))
    && (p.calls[c].Pushing? || p.calls[c].Signalling? <==> p.mutex == Some(c))
    && (p.calls[c].Pushing? ==> !p.drained)
    && (p.calls[c].Stopping? ==> p.stopFlag) && (p.calls[c].Dropping? ==> p.dropped)
  }

  predicate WorkerOk(p: Pool, w: nat) {
    w < |p.workers| &&
    var k := p.workers[w];
    && (HasJob(k.pc) ==> k.pc.job in p.place && p.place[k.pc.job] == InWorker(w))
    && k.slot == (if k.pc.Taken? || k.pc.Running? || k.pc.Abandoned? then Some(k.pc.job) else None)
    && (k.pc.Exited? ==> p.stopFlag || p.dropped) && (k.pc.Abandoned? ==> p.stopFlag)
  }

  predicate Distinct(jobs: seq<Job>) {
    forall i, k :: 0 <= i < k < |jobs| ==> jobs[i] != jobs[k]
  }

  predicate QueueOk(p: Pool) {
    && (forall k :: 0 <= k < |p.jobs| ==> p.jobs[k] in p.place && p.place[p.jobs[k]] == Queued)
    && Distinct(p.jobs)
  }

  function Occupied(workers: seq<Worker>): set<nat> {
    set w: nat | w < |workers| && workers[w].slot.Some?
  }

  /** Workers that took a token from the semaphore and have not yet taken the mutex with it. */
  function InFlight(workers: seq<Worker>): set<nat> {
    set w: nat | w < |workers| && (workers[w].pc.Woken? || workers[w].pc.Checked?)
  }

  /** 1 while a job is queued whose signal is still to come. */
  function Unsignalled(p: Pool): nat {
    if p.mutex.Some? && p.mutex.value in p.calls && p.calls[p.mutex.value].Signalling? then 1 else 0
  }

  predicate TokensOk(p: Pool) {
    !p.stopFlag ==>
      var tokens := p.semaphore + |InFlight(p.workers)| + Unsignalled(p);
      tokens >= |p.jobs| && (!p.dropped ==> tokens == |p.jobs|)
  }

  ghost predicate Inv(p: Pool) {
    && (forall j {:trigger JobOk(p, j)} :: j in p.place ==> JobOk(p, j))
    && (forall c {:trigger CallOk(p, c)} :: c in p.calls ==> CallOk(p, c))
    && (forall w: nat {:trigger WorkerOk(p, w)} :: w < |p.workers| ==> WorkerOk(p, w))
    && (p.mutex.Some? ==> p.mutex.value in p.calls)
    && QueueOk(p)
    && p.runcount == |Occupied(p.workers)|
    && TokensOk(p)
    && (p.drained ==> p.stopFlag && p.jobs == [])
    && (!p.dropped && !p.drained ==> p.pushed == p.started + p.jobs)
  }

  lemma InitOk(n: nat)
    ensures Inv(Init(n))
  {
    var p := Init(n);
    assert Occupied(p.workers) == {} && InFlight(p.workers) == {};
  }

  lemma OccupiedChange(ws: seq<Worker>, w: nat, k: Worker)
    requires w < |ws|
    ensures |Occupied(ws[w := k])| == |Occupied(ws)| + B2N(k.slot.Some?) - B2N(ws[w].slot.Some?)
  {
    assert Occupied(ws[w := k]) == (Occupied(ws) - {w}) + if k.slot.Some? then {w} else {};
    assert ws[w].slot.Some? <==> w in Occupied(ws);
  }

  lemma InFlightChange(ws: seq<Worker>, w: nat, k: Worker)
    requires w < |ws|
    ensures |InFlight(ws[w := k])|
      == |InFlight(ws)| + B2N(k.pc.Woken? || k.pc.Checked?) - B2N(ws[w].pc.Woken? || ws[w].pc.Checked?)
  {
    assert InFlight(ws[w := k]) == (InFlight(ws) - {w}) + if k.pc.Woken? || k.pc.Checked? then {w} else {};
    assert ws[w].pc.Woken? || ws[w].pc.Checked? <==> w in InFlight(ws);
  }

  lemma CountsChange(ws: seq<Worker>, w: nat, k: Worker)
    requires w < |ws|
    ensures |Occupied(ws[w := k])| == |Occupied(ws)| + B2N(k.slot.Some?) - B2N(ws[w].slot.Some?)
    ensures |InFlight(ws[w := k])|
      == |InFlight(ws)| + B2N(k.pc.Woken? || k.pc.Checked?) - B2N(ws[w].pc.Woken? || ws[w].pc.Checked?)
  {
    OccupiedChange(ws, w, k);
    InFlightChange(ws, w, k);
  }

  /** runcount never exceeds the pool size. */
  lemma OccupiedAtMostAll(ws: seq<Worker>)
    ensures |Occupied(ws)| <= |ws|
  {
    if ws != [] {
      var n := |ws| - 1;
      OccupiedAtMostAll(ws[..n]);
      assert Occupied(ws) == Occupied(ws[..n]) + if ws[n].slot.Some? then {n} else {};
    }
  }

  // ----- worker steps -----

  lemma WakeKeeps(p: Pool, w: nat)
    requires Inv(p) && Enabled(p, Wake(w))
    ensures Inv(Next(p, Wake(w)))
  {
    var q := Next(p, Wake(w));
    CountsChange(p.workers, w, Worker(Woken, p.workers[w].slot));
    forall j | j in q.place ensures JobOk(q, j) { assert JobOk(p, j); }
    forall c | c in q.calls ensures CallOk(q, c) { assert CallOk(p, c); }
    forall v: nat | v < |q.workers| ensures WorkerOk(q, v) { assert WorkerOk(p, v); }
  }

  lemma ReadStopKeeps(p: Pool, w: nat)
    requires Inv(p) && Enabled(p, ReadStop(w))
    ensures Inv(Next(p, ReadStop(w)))
  {
    var q := Next(p, ReadStop(w));
    CountsChange(p.workers, w, q.workers[w]);
    forall j | j in q.place ensures JobOk(q, j) { assert JobOk(p, j); }
    forall c | c in q.calls ensures CallOk(q, c) { assert CallOk(p, c); }
    forall v: nat | v < |q.workers| ensures WorkerOk(q, v) { assert WorkerOk(p, v); }
  }

  lemma TakeNothingKeeps(p: Pool, w: nat)
    requires Inv(p) && Enabled(p, Take(w)) && p.jobs == []
    ensures Inv(Next(p, Take(w)))
  {
    var q := Next(p, Take(w));
    CountsChange(p.workers, w, q.workers[w]);
    assert WorkerOk(p, w) && w in InFlight(p.workers);
    forall j | j in q.place ensures JobOk(q, j) { assert JobOk(p, j); }
    forall c | c in q.calls ensures CallOk(q, c) { assert CallOk(p, c); }
    forall v: nat | v < |q.workers| ensures WorkerOk(q, v) { assert WorkerOk(p, v); }
  }

  lemma TakeKeeps(p: Pool, w: nat)
    requires Inv(p) && Enabled(p, Take(w)) && p.jobs != []
    ensures Inv(Next(p, Take(w)))
  {
    var q := Next(p, Take(w));
    CountsChange(p.workers, w, q.workers[w]);
    assert WorkerOk(p, w) && JobOk(p, p.jobs[0]);
    TakeKeepsJobs(p, w);
    assert p.started + p.jobs == q.started + q.jobs;
    forall c | c in q.calls ensures CallOk(q, c) { assert CallOk(p, c); }
    forall v: nat | v < |q.workers| ensures WorkerOk(q, v) { assert WorkerOk(p, v); }
  }

  lemma TakeKeepsJobs(p: Pool, w: nat)
    requires Inv(p) && Enabled(p, Take(w)) && p.jobs != []
    ensures var q := Next(p, Take(w));
      QueueOk(q) && forall j {:trigger JobOk(q, j)} :: j in q.place ==> JobOk(q, j)
  {
    var q := Next(p, Take(w));
    assert p.jobs == [p.jobs[0]] + q.jobs;
    assert JobOk(p, p.jobs[0]) && WorkerOk(p, w);
    forall j | j in q.place ensures JobOk(q, j) {
      assert JobOk(p, j);
    }
  }

  lemma StartKeeps(p: Pool, w: nat)
    requires Inv(p) && Enabled(p, Start(w))
    ensures Inv(Next(p, Start(w)))
  {
    var q := Next(p, Start(w));
    CountsChange(p.workers, w, q.workers[w]);
    StartKeepsJobs(p, w);
    forall c | c in q.calls ensures CallOk(q, c) { assert CallOk(p, c); }
    forall v: nat | v < |q.workers| ensures WorkerOk(q, v) { assert WorkerOk(p, v); }
  }

  lemma StartKeepsJobs(p: Pool, w: nat)
    requires Inv(p) && Enabled(p, Start(w))
    ensures var q := Next(p, Start(w)); forall j {:trigger JobOk(q, j)} :: j in q.place ==> JobOk(q, j)
  {
    var q := Next(p, Start(w));
    assert WorkerOk(p, w);
    forall j | j in q.place ensures JobOk(q, j) { assert JobOk(p, j); }
  }

  lemma FinishKeeps(p: Pool, w: nat)
    requires Inv(p) && Enabled(p, Finish(w))
    ensures Inv(Next(p, Finish(w)))
  {
    var q := Next(p, Finish(w));
    CountsChange(p.workers, w, q.workers[w]);
    assert WorkerOk(p, w);
    forall j | j in q.place ensures JobOk(q, j) { assert JobOk(p, j); }
    forall c | c in q.calls ensures CallOk(q, c) { assert CallOk(p, c); }
    forall v: nat | v < |q.workers| ensures WorkerOk(q, v) { assert WorkerOk(p, v); }
  }

  lemma FenceKeeps(p: Pool, w: nat)
    requires Inv(p) && Enabled(p, Fence(w))
    ensures Inv(Next(p, Fence(w)))
  {
    var q := Next(p, Fence(w));
    CountsChange(p.workers, w, q.workers[w]);
    assert WorkerOk(p, w);
    forall j | j in q.place ensures JobOk(q, j) { assert JobOk(p, j); }
    forall c | c in q.calls ensures CallOk(q, c) { assert CallOk(p, c); }
    forall v: nat | v < |q.workers| ensures WorkerOk(q, v) { assert WorkerOk(p, v); }
  }

  // ----- addJob -----

  lemma SubmitKeeps(p: Pool, c: CallId, j: Job, from: Origin)
    requires Inv(p) && Enabled(p, Submit(c, j, from))
    ensures Inv(Next(p, Submit(c, j, from)))
  {
    var q := Next(p, Submit(c, j, from));
    forall i | i in q.place ensures JobOk(q, i) { assert i != j ==> JobOk(p, i); }
    forall d | d in q.calls ensures CallOk(q, d) { assert d != c ==> CallOk(p, d); }
    forall v: nat | v < |q.workers| ensures WorkerOk(q, v) { assert WorkerOk(p, v); }
  }

  lemma AddLockKeeps(p: Pool, c: CallId)
    requires Inv(p) && Enabled(p, AddLock(c))
    ensures Inv(Next(p, AddLock(c)))
  {
    var q := Next(p, AddLock(c));
    assert CallOk(p, c) && JobOk(p, p.calls[c].job);
    forall i | i in q.place ensures JobOk(q, i) { assert JobOk(p, i); }
    forall d | d in q.calls ensures CallOk(q, d) { assert CallOk(p, d); }
    forall v: nat | v < |q.workers| ensures WorkerOk(q, v) { assert WorkerOk(p, v); }
  }

  lemma AddPushKeeps(p: Pool, c: CallId)
    requires Inv(p) && Enabled(p, AddPush(c))
    ensures Inv(Next(p, AddPush(c)))
  {
    var q := Next(p, AddPush(c));
    assert CallOk(p, c) && JobOk(p, p.calls[c].job);
    AddPushKeepsJobs(p, c);
    forall d | d in q.calls ensures CallOk(q, d) { assert CallOk(p, d); }
    forall v: nat | v < |q.workers| ensures WorkerOk(q, v) { assert WorkerOk(p, v); }
    assert p.runcount != |p.workers| ==> q.pushed == p.pushed + [p.calls[c].job];
    assert p.started + (p.jobs + [p.calls[c].job]) == (p.started + p.jobs) + [p.calls[c].job];
  }

  lemma AddPushKeepsJob(p: Pool, c: CallId, i: Job)
    requires Inv(p) && Enabled(p, AddPush(c)) && i in Next(p, AddPush(c)).place
    ensures JobOk(Next(p, AddPush(c)), i)
  {
    assert CallOk(p, c) && JobOk(p, p.calls[c].job) && (i in p.place ==> JobOk(p, i));
    AddPushMovesJob(p, c, i);
  }

  lemma AddPushMovesJob(p: Pool, c: CallId, i: Job)
    requires Enabled(p, AddPush(c)) && CallOk(p, c) && JobOk(p, p.calls[c].job) && (i in p.place ==> JobOk(p, i))
    requires i in Next(p, AddPush(c)).place
    ensures JobOk(Next(p, AddPush(c)), i)
  {
    var q := Next(p, AddPush(c));
    AddPushShape(p, c);
    hide Next, Enabled, CallOk;
    if i != p.calls[c].job { assert i in p.jobs ==> i in q.jobs; }
  }

  lemma AddPushShape(p: Pool, c: CallId)
    requires Enabled(p, AddPush(c))
    ensures var q := Next(p, AddPush(c));
      var j := p.calls[c].job;
      q.executed == p.executed && q.fenced == p.fenced && q.workers == p.workers &&
      if p.runcount == |p.workers| then
        q.calls == Without(p.calls, c) && q.place == p.place[j := Overflow] && q.jobs == p.jobs
      else
        q.calls == p.calls[c := Signalling] && q.place == p.place[j := Queued] && q.jobs == p.jobs + [j]
  {
    hide SetPc, Cancel, Bump, KeepOthers, SlotJobs, SlotJobsOf, Without, MoveAll, FenceAll;
  }

  lemma AddPushKeepsJobs(p: Pool, c: CallId)
    requires Inv(p) && Enabled(p, AddPush(c))
    ensures var q := Next(p, AddPush(c));
      QueueOk(q) && forall j {:trigger JobOk(q, j)} :: j in q.place ==> JobOk(q, j)
  {
    var q := Next(p, AddPush(c));
    var added := p.calls[c].job;
    assert CallOk(p, c) && JobOk(p, added) && added !in p.jobs;
    forall i | i in q.place ensures JobOk(q, i) { AddPushKeepsJob(p, c, i); }
    assert Distinct(p.jobs) && Distinct(q.jobs);
  }

  lemma AddSignalKeeps(p: Pool, c: CallId)
    requires Inv(p) && Enabled(p, AddSignal(c))
    ensures Inv(Next(p, AddSignal(c)))
  {
    var q := Next(p, AddSignal(c));
    assert CallOk(p, c);
    forall i | i in q.place ensures JobOk(q, i) { assert JobOk(p, i); }
    forall d | d in q.calls ensures CallOk(q, d) { assert CallOk(p, d); }
    forall v: nat | v < |q.workers| ensures WorkerOk(q, v) { assert WorkerOk(p, v); }
  }

  // ----- forceStop and forceStopWorker -----

  lemma StopStepKeeps(p: Pool, a: Action)
    requires Inv(p) && Enabled(p, a)
    requires a.StopCheck? || a.StopSet? || a.StopSignal? || a.DropBegin? || a.DropSignal?
    ensures Inv(Next(p, a))
  {
    var q := Next(p, a);
    assert a.c in p.calls ==> CallOk(p, a.c);
    forall i | i in q.place ensures JobOk(q, i) { assert JobOk(p, i); }
    forall d | d in q.calls ensures CallOk(q, d) { assert d != a.c ==> CallOk(p, d); }
    forall v: nat | v < |q.workers| ensures WorkerOk(q, v) { assert WorkerOk(p, v); }
  }

  /** Fencing some of the queue, in order, leaves every other job where it was. */
  lemma CancelKeeps(p: Pool, c: CallId, running: set<Job>, rest: seq<Job>, drained: bool)
    requires Inv(p) && c in p.calls && p.mutex == None
    requires if drained then p.calls[c].Stopping? && rest == [] else p.calls[c].Dropping?
    requires forall j :: j in rest ==> j in p.jobs
    requires Distinct(rest)
    requires |rest| <= |p.jobs|
    ensures Inv(Cancel(p, c, running, rest).(drained := p.drained || drained))
  {
    var q := Cancel(p, c, running, rest).(drained := p.drained || drained);
    assert CallOk(p, c);
    forall j | j in q.place ensures JobOk(q, j) { assert JobOk(p, j); }
    forall d | d in q.calls ensures CallOk(q, d) { assert CallOk(p, d); }
    forall v: nat | v < |q.workers| ensures WorkerOk(q, v) {
      assert WorkerOk(p, v);
      if HasJob(p.workers[v].pc) { assert JobOk(p, p.workers[v].pc.job); }
    }
    forall k | 0 <= k < |q.jobs| ensures q.jobs[k] in q.place && q.place[q.jobs[k]] == Queued {
      assert q.jobs[k] in p.jobs;
    }
  }

  lemma {:induction false} KeepOthersDistinct(jobs: seq<Job>, origin: map<Job, Origin>, from: Origin)
    requires Distinct(jobs)
    ensures Distinct(KeepOthers(jobs, origin, from))
  {
    if jobs != [] {
      KeepOthersDistinct(jobs[1..], origin, from);
    }
  }

  lemma StopDrainKeeps(p: Pool, c: CallId)
    requires Inv(p) && Enabled(p, StopDrain(c))
    ensures Inv(Next(p, StopDrain(c)))
  {
    CancelKeeps(p, c, SlotJobs(p), [], true);
    assert Next(p, StopDrain(c)) == Cancel(p, c, SlotJobs(p), []).(drained := p.drained || true);
  }

  lemma DropQueuedKeeps(p: Pool, c: CallId)
    requires Inv(p) && Enabled(p, DropQueued(c))
    ensures Inv(Next(p, DropQueued(c)))
  {
    var from := p.calls[c].origin;
    var running := SlotJobsOf(p, from);
    var rest := KeepOthers(p.jobs, p.origin, from);
    KeepOthersDistinct(p.jobs, p.origin, from);
    CancelKeeps(p, c, running, rest, false);
    assert Next(p, DropQueued(c)) == Cancel(p, c, running, rest).(drained := p.drained || false);
  }

  lemma {:induction false} KeepsAlways(p: Pool, a: Action)
    requires Inv(p) && Enabled(p, a)
    ensures Inv(Next(p, a))
  {
    hide *;
    match a
    case Submit(c, j, from) => SubmitKeeps(p, c, j, from);
    case AddLock(c) => AddLockKeeps(p, c);
    case AddPush(c) => AddPushKeeps(p, c);
    case AddSignal(c) => AddSignalKeeps(p, c);
    case StopDrain(c) => StopDrainKeeps(p, c);
    case DropQueued(c) => DropQueuedKeeps(p, c);
    case Wake(w) => WakeKeeps(p, w);
    case ReadStop(w) => ReadStopKeeps(p, w);
    case Take(w) => if p.jobs == [] { TakeNothingKeeps(p, w); } else { TakeKeeps(p, w); }
    case Start(w) => StartKeeps(p, w);
    case Finish(w) => FinishKeeps(p, w);
    case Fence(w) => FenceKeeps(p, w);
    case _ => StopStepKeeps(p, a);
  }

  // ----- runs -----

  /** Every action is enabled where it is taken. */
  ghost predicate Run(p: Pool, actions: seq<Action>)
    decreases |actions|
  {
    actions == [] || (Enabled(p, actions[0]) && Run(Next(p, actions[0]), actions[1..]))
  }

  function After(p: Pool, actions: seq<Action>): Pool
    requires Run(p, actions)
    decreases |actions|
  {
    if actions == [] then p else After(Next(p, actions[0]), actions[1..])
  }

  lemma {:induction false} RunKeeps(p: Pool, actions: seq<Action>)
    requires Inv(p) && Run(p, actions)
    ensures Inv(After(p, actions))
    decreases |actions|
  {
    if actions != [] {
      KeepsAlways(p, actions[0]);
      RunKeeps(Next(p, actions[0]), actions[1..]);
    }
  }

  /** The ways a job can be owned. */
  predicate InQueue(p: Pool, j: Job) { j in p.jobs }
  predicate OwnedBy(p: Pool, w: nat, j: Job) { w < |p.workers| && HasJob(p.workers[w].pc) && p.workers[w].pc.job == j }

  /** Not with the pool's own threads: addJob has not let go of it yet, or started a thread for it. */
  predicate Elsewhere(p: Pool, j: Job) { j in p.place && (p.place[j].InCall? || p.place[j].Overflow?) }

  /** Under every interleaving a submitted job has exactly one owner: it is still in the call that
      submits it or has a thread of its own, or it is in the queue, or with a worker, or fenced. It is
      in the queue at most once, with at most one worker, and is executed and fenced at most once. */
  lemma {:induction false} JobsHaveOneOwner(n: nat, actions: seq<Action>, j: Job)
    requires Run(Init(n), actions) && j in After(Init(n), actions).place
    ensures var p := After(Init(n), actions);
      var withWorker := exists w: nat :: OwnedBy(p, w, j);
      && j in p.executed && j in p.fenced && p.executed[j] <= 1 && p.fenced[j] <= 1
      && B2N(Elsewhere(p, j)) + B2N(InQueue(p, j)) + B2N(withWorker) + p.fenced[j] == 1
      && (forall i, k :: 0 <= i < k < |p.jobs| ==> !(p.jobs[i] == p.jobs[k] == j))
      && (forall v: nat, w: nat :: OwnedBy(p, v, j) && OwnedBy(p, w, j) ==> v == w)
  {
    InitOk(n);
    RunKeeps(Init(n), actions);
    OwnerIsPlace(After(Init(n), actions), j);
  }

  /** In every state with the invariant the job's owner is the place its history gives. */
  lemma OwnerIsPlace(p: Pool, j: Job)
    requires Inv(p) && j in p.place
    ensures JobOk(p, j)
    ensures InQueue(p, j) <==> p.place[j].Queued?
    ensures (exists w: nat :: OwnedBy(p, w, j)) <==> p.place[j].InWorker?
    ensures forall w: nat :: OwnedBy(p, w, j) ==> p.place[j] == InWorker(w)
    ensures p.fenced[j] == B2N(p.place[j].Fenced?)
  {
    assert JobOk(p, j);
    forall w: nat | OwnedBy(p, w, j) ensures p.place[j] == InWorker(w) { assert WorkerOk(p, w); }
    if p.place[j].InWorker? {
      assert OwnedBy(p, p.place[j].w, j);
    }
  }

  /** A job that has been put into the queue once is never lost: it is in the queue, with one worker,
      or fenced, and in exactly one of these. */
  lemma {:induction false} PushedJobsAreKept(n: nat, actions: seq<Action>, j: Job)
    requires Run(Init(n), actions) && j in After(Init(n), actions).pushed
    ensures var p := After(Init(n), actions);
      var withWorker := exists w: nat :: OwnedBy(p, w, j);
      j in p.place && j in p.fenced && B2N(InQueue(p, j)) + B2N(withWorker) + p.fenced[j] == 1
  {
    InitOk(n);
    RunKeeps(Init(n), actions);
    PushedStays(Init(n), actions);
    OwnerIsPlace(After(Init(n), actions), j);
  }

  ghost predicate PushedOk(p: Pool) {
    forall j :: j in p.pushed ==> j in p.place && !Elsewhere(p, j)
  }

  lemma PushedNext(p: Pool, a: Action)
    requires Inv(p) && PushedOk(p) && Enabled(p, a)
    ensures PushedOk(Next(p, a))
  {
    PushedGrows(p, a);
    forall j | j in Next(p, a).pushed ensures j in Next(p, a).place && !Elsewhere(Next(p, a), j) {
      if j in p.pushed {
        assert a.AddPush? ==> CallOk(p, a.c);
        StaysInside(p, a, j);
      }
    }
  }

  /** Only addJob puts a job into the queue, and then it is there. */
  lemma PushedGrows(p: Pool, a: Action)
    requires Enabled(p, a)
    ensures forall j :: j in Next(p, a).pushed && j !in p.pushed ==> j in Next(p, a).place && Next(p, a).place[j].Queued?
  {
    hide SetPc, Cancel, KeepOthers, SlotJobs, SlotJobsOf, Without, Bump;
    match a
    case StopDrain(_) => CancelGrowsNothing(p, a);
    case DropQueued(_) => CancelGrowsNothing(p, a);
    case Wake(w) => SetPcKeepsHistory(p, w, Woken);
    case ReadStop(w) => SetPcKeepsHistory(p, w, if p.stopFlag then Exited else Checked);
    case Take(w) => SetPcKeepsHistory(p, w, Exited);
    case Start(w) =>
      SetPcKeepsHistory(p, w, Abandoned(p.workers[w].pc.job));
      SetPcKeepsHistory(p, w, Running(p.workers[w].pc.job));
    case Fence(w) => SetPcKeepsHistory(p, w, Waiting);
    case _ =>
  }

  lemma CancelGrowsNothing(p: Pool, a: Action)
    requires Enabled(p, a) && (a.StopDrain? || a.DropQueued?)
    ensures Next(p, a).pushed == p.pushed
  {
    hide SetPc, KeepOthers, SlotJobs, SlotJobsOf, Without, Bump;
  }

  lemma SetPcKeepsHistory(p: Pool, w: nat, pc: Pc)
    requires w < |p.workers|
    ensures var q := SetPc(p, w, pc); q.pushed == p.pushed && q.place == p.place && q.aborted == p.aborted
  {
  }

  lemma CancelKeepsHistory(p: Pool, c: CallId, running: set<Job>, rest: seq<Job>)
    ensures var q := Cancel(p, c, running, rest); q.pushed == p.pushed && q.started == p.started && q.workers == p.workers
    ensures p.aborted <= Cancel(p, c, running, rest).aborted
    ensures var q := Cancel(p, c, running, rest);
      forall j :: j in p.place ==> j in q.place && (q.place[j] == p.place[j] || q.place[j].Fenced?)
  {
  }

  lemma StaysInside(p: Pool, a: Action, j: Job)
    requires Enabled(p, a) && j in p.place && !Elsewhere(p, j) && (a.AddPush? ==> CallOk(p, a.c))
    ensures j in Next(p, a).place && !Elsewhere(Next(p, a), j)
  {
    hide Next, Enabled, CallOk;
    match a
    case Wake(_) => WorkerKeepsInside(p, a, j);
    case ReadStop(_) => WorkerKeepsInside(p, a, j);
    case Take(_) => WorkerKeepsInside(p, a, j);
    case Start(_) => WorkerKeepsInside(p, a, j);
    case Finish(_) => WorkerKeepsInside(p, a, j);
    case Fence(_) => WorkerKeepsInside(p, a, j);
    case _ => CallKeepsInside(p, a, j);
  }

  lemma CallKeepsInside(p: Pool, a: Action, j: Job)
    requires Enabled(p, a) && !a.Wake? && !a.ReadStop? && !a.Take? && !a.Start? && !a.Finish? && !a.Fence?
    requires j in p.place && !Elsewhere(p, j) && (a.AddPush? ==> CallOk(p, a.c))
    ensures j in Next(p, a).place && !Elsewhere(Next(p, a), j)
  {
    hide Cancel, KeepOthers, SlotJobs, SlotJobsOf, Without, Bump, SetPc, JobOk;
    if a.StopDrain? {
      CancelKeepsHistory(p, a.c, SlotJobs(p), []);
    } else if a.DropQueued? {
      var from := p.calls[a.c].origin;
      CancelKeepsHistory(p, a.c, SlotJobsOf(p, from), KeepOthers(p.jobs, p.origin, from));
    }
  }

  lemma WorkerKeepsInside(p: Pool, a: Action, j: Job)
    requires Enabled(p, a) && (a.Wake? || a.ReadStop? || a.Take? || a.Start? || a.Finish? || a.Fence?)
    requires j in p.place && !Elsewhere(p, j)
    ensures j in Next(p, a).place && !Elsewhere(Next(p, a), j)
  {
    hide SetPc, Bump;
    match a
    case Wake(w) => SetPcKeepsHistory(p, w, Woken);
    case ReadStop(w) => SetPcKeepsHistory(p, w, if p.stopFlag then Exited else Checked);
    case Take(w) => SetPcKeepsHistory(p, w, Exited);
    case Start(w) =>
      SetPcKeepsHistory(p, w, Abandoned(p.workers[w].pc.job));
      SetPcKeepsHistory(p, w, Running(p.workers[w].pc.job));
    case Fence(w) => SetPcKeepsHistory(p, w, Waiting);
    case _ =>
  }

  lemma {:induction false} PushedStays(p: Pool, actions: seq<Action>)
    requires Inv(p) && PushedOk(p) && Run(p, actions)
    ensures PushedOk(After(p, actions))
    decreases |actions|
  {
    if actions != [] {
      KeepsAlways(p, actions[0]);
      PushedNext(p, actions[0]);
      PushedStays(Next(p, actions[0]), actions[1..]);
    }
  }

  /** runcount is the number of occupied slots, which is at most the pool size. */
  lemma {:induction false} RuncountIsOccupancy(n: nat, actions: seq<Action>)
    requires Run(Init(n), actions)
    ensures var p := After(Init(n), actions); p.runcount == |Occupied(p.workers)| && 0 <= p.runcount <= |p.workers|
  {
    InitOk(n);
    RunKeeps(Init(n), actions);
    OccupiedAtMostAll(After(Init(n), actions).workers);
  }

  predicate InSlot(p: Pool, j: Job) { exists w: nat :: w < |p.workers| && p.workers[w].slot == Some(j) }

  lemma InSlotIsSlotJob(p: Pool, j: Job)
    ensures InSlot(p, j) <==> j in SlotJobs(p)
  {
  }

  /** forceStop aborts every job in a slot and fences every queued one, each once more than before. */
  lemma StopCancelsAll(p: Pool, c: CallId)
    requires Inv(p) && Enabled(p, StopDrain(c))
    ensures var q := Next(p, StopDrain(c));
      && q.jobs == [] && q.drained && q.aborted == p.aborted + SlotJobs(p)
      && (forall j :: j in p.fenced ==> j in q.fenced && q.fenced[j] == p.fenced[j] + B2N(j in p.jobs))
      && (forall j :: j in p.jobs ==> j in q.place && q.place[j] == Fenced)
  {
    hide TokensOk, WorkerOk, CallOk;
    assert forall k :: 0 <= k < |p.jobs| ==> p.jobs[k] in p.place;
  }

  /** The job was started by the worker that goes away. */
  predicate StartedBy(p: Pool, j: Job, from: Origin) { j in p.origin && p.origin[j] == from }

  /** forceStopWorker does that to the jobs of one worker, and nothing to the others, which stay in the
      queue. */
  lemma DropCancelsOwn(p: Pool, c: CallId)
    requires Inv(p) && Enabled(p, DropQueued(c))
    ensures var from, q := p.calls[c].origin, Next(p, DropQueued(c));
      && q.jobs == KeepOthers(p.jobs, p.origin, from)
      && (forall j :: j in q.jobs <==> j in p.jobs && !StartedBy(p, j, from))
      && (forall j :: j in q.aborted <==> j in p.aborted || (j in SlotJobs(p) && StartedBy(p, j, from)))
      && (forall j :: j in p.fenced ==>
            j in q.fenced && q.fenced[j] == p.fenced[j] + B2N(j in p.jobs && StartedBy(p, j, from)))
  {
    hide TokensOk, WorkerOk, CallOk, JobOk;
  }

  /** The jobs that stay in the queue keep their order. */
  lemma {:induction false} KeepOthersInOrder(a: seq<Job>, b: seq<Job>, origin: map<Job, Origin>, from: Origin)
    ensures KeepOthers(a + b, origin, from) == KeepOthers(a, origin, from) + KeepOthers(b, origin, from)
    decreases |a|
  {
    if a == [] {
      assert a + b == b;
    } else {
      assert (a + b)[1..] == a[1..] + b;
      KeepOthersInOrder(a[1..], b, origin, from);
    }
  }

  lemma WorkerStepDrained(p: Pool, a: Action)
    requires Enabled(p, a) && (a.Wake? || a.ReadStop? || a.Take? || a.Start? || a.Finish? || a.Fence?)
    ensures Next(p, a).drained == p.drained
  {
    hide Bump, SetPc;
    match a
    case Wake(w) => SetPcDrained(p, w, Woken);
    case ReadStop(w) => SetPcDrained(p, w, if p.stopFlag then Exited else Checked);
    case Take(w) => SetPcDrained(p, w, Exited);
    case Start(w) =>
      SetPcDrained(p, w, Abandoned(p.workers[w].pc.job));
      SetPcDrained(p, w, Running(p.workers[w].pc.job));
    case Fence(w) => SetPcDrained(p, w, Waiting);
    case _ =>
  }

  lemma SetPcDrained(p: Pool, w: nat, pc: Pc)
    requires w < |p.workers|
    ensures SetPc(p, w, pc).drained == p.drained
  {
  }

  lemma CallStepDrained(p: Pool, a: Action)
    requires Enabled(p, a) && !a.Wake? && !a.ReadStop? && !a.Take? && !a.Start? && !a.Finish? && !a.Fence?
    ensures p.drained ==> Next(p, a).drained
  {
    hide KeepOthers, SlotJobs, Without, MoveAll, FenceAll, Bump;
  }

  lemma DrainedStays(p: Pool, a: Action)
    requires p.drained && Enabled(p, a)
    ensures Next(p, a).drained
  {
    hide Next, Enabled;
    match a
    case Wake(_) => WorkerStepDrained(p, a);
    case ReadStop(_) => WorkerStepDrained(p, a);
    case Take(_) => WorkerStepDrained(p, a);
    case Start(_) => WorkerStepDrained(p, a);
    case Finish(_) => WorkerStepDrained(p, a);
    case Fence(_) => WorkerStepDrained(p, a);
    case _ => CallStepDrained(p, a);
  }

  lemma {:induction false} StaysDrained(p: Pool, actions: seq<Action>)
    requires Inv(p) && p.drained && Run(p, actions)
    ensures After(p, actions).drained && After(p, actions).jobs == []
    decreases |actions|
  {
    assert Inv(p) ==> p.jobs == [];
    hide Inv, Next, Enabled;
    if actions != [] {
      KeepsAlways(p, actions[0]);
      DrainedStays(p, actions[0]);
      StaysDrained(Next(p, actions[0]), actions[1..]);
    }
  }

  /** Once a forceStop has left its locked section the queue is empty for ever. */
  lemma {:induction false} DrainedForEver(n: nat, before: seq<Action>, after: seq<Action>)
    requires Run(Init(n), before) && After(Init(n), before).drained && Run(After(Init(n), before), after)
    ensures After(After(Init(n), before), after).jobs == []
  {
    InitOk(n);
    RunKeeps(Init(n), before);
    StaysDrained(After(Init(n), before), after);
  }

  /** Until stopFlag is set, the signals available cover the queue; without forceStopWorker they match
      it, so a worker that has the mutex in hand finds a job: the empty-queue exit is never taken. */
  lemma {:induction false} SignalsMatchQueue(n: nat, actions: seq<Action>, w: nat)
    requires Run(Init(n), actions) && !After(Init(n), actions).stopFlag
    ensures var p := After(Init(n), actions);
      var tokens := p.semaphore + |InFlight(p.workers)|;
      && tokens + Unsignalled(p) >= |p.jobs|
      && (!p.dropped ==> tokens + Unsignalled(p) == |p.jobs|)
      && (!p.dropped && Enabled(p, Take(w)) ==> p.jobs != [])
      && (!p.dropped && w < |p.workers| ==> !p.workers[w].pc.Exited? && !p.workers[w].pc.Abandoned?)
  {
    InitOk(n);
    RunKeeps(Init(n), actions);
    var p := After(Init(n), actions);
    if w < |p.workers| {
      assert WorkerOk(p, w);
      assert p.workers[w].pc.Checked? ==> w in InFlight(p.workers);
    }
  }

  /** Without cancellation, jobs are started in the order in which they were queued. */
  lemma {:induction false} StartedInOrder(n: nat, actions: seq<Action>)
    requires Run(Init(n), actions) && !After(Init(n), actions).dropped && !After(Init(n), actions).drained
    ensures After(Init(n), actions).started <= After(Init(n), actions).pushed
  {
    InitOk(n);
    RunKeeps(Init(n), actions);
  }

  predicate IsAbandoned(p: Pool, w: nat, j: Job) { w < |p.workers| && p.workers[w].pc == Abandoned(j) }

  ghost predicate SomeAbandoned(p: Pool, j: Job) { exists w: nat :: IsAbandoned(p, w, j) }

  /** The branch that loses a job: its worker, about to start it, sees stopFlag set and returns. */
  predicate Abandons(p: Pool, a: Action, j: Job) {
    a.Start? && a.w < |p.workers| && p.stopFlag && p.workers[a.w].pc == Taken(j)
  }

  ghost predicate RunAbandons(p: Pool, actions: seq<Action>, j: Job)
    requires Run(p, actions)
    decreases |actions|
  {
    actions != [] && (Abandons(p, actions[0], j) || RunAbandons(Next(p, actions[0]), actions[1..], j))
  }

  /** A worker comes to hold an abandoned job only by that branch, and then for good. */
  lemma AbandonedNext(p: Pool, a: Action, w: nat, j: Job)
    requires Enabled(p, a)
    ensures IsAbandoned(Next(p, a), w, j) <==> IsAbandoned(p, w, j) || (Abandons(p, a, j) && a.w == w)
  {
    hide Next, Enabled;
    match a
    case Wake(_) => WorkerAbandons(p, a, w, j);
    case ReadStop(_) => WorkerAbandons(p, a, w, j);
    case Take(_) => WorkerAbandons(p, a, w, j);
    case Start(_) => WorkerAbandons(p, a, w, j);
    case Finish(_) => WorkerAbandons(p, a, w, j);
    case Fence(_) => WorkerAbandons(p, a, w, j);
    case _ => CallsKeepWorkers(p, a);
  }

  lemma CallsKeepWorkers(p: Pool, a: Action)
    requires Enabled(p, a) && !a.Wake? && !a.ReadStop? && !a.Take? && !a.Start? && !a.Finish? && !a.Fence?
    ensures Next(p, a).workers == p.workers
  {
    hide KeepOthers, SlotJobs, SlotJobsOf, Without, Cancel, Bump, SetPc;
    if a.StopDrain? {
      CancelKeepsHistory(p, a.c, SlotJobs(p), []);
    } else if a.DropQueued? {
      var from := p.calls[a.c].origin;
      CancelKeepsHistory(p, a.c, SlotJobsOf(p, from), KeepOthers(p.jobs, p.origin, from));
    }
  }

  lemma WorkerAbandons(p: Pool, a: Action, w: nat, j: Job)
    requires Enabled(p, a) && (a.Wake? || a.ReadStop? || a.Take? || a.Start? || a.Finish? || a.Fence?)
    ensures IsAbandoned(Next(p, a), w, j) <==> IsAbandoned(p, w, j) || (Abandons(p, a, j) && a.w == w)
  {
    hide SetPc, Bump;
    match a
    case Wake(v) => SetPcAt(p, v, Woken, w, j);
    case ReadStop(v) => SetPcAt(p, v, if p.stopFlag then Exited else Checked, w, j);
    case Take(v) => SetPcAt(p, v, Exited, w, j);
    case Start(v) =>
      SetPcAt(p, v, Abandoned(p.workers[v].pc.job), w, j);
      SetPcAt(p, v, Running(p.workers[v].pc.job), w, j);
    case Fence(v) => SetPcAt(p, v, Waiting, w, j);
    case _ =>
  }

  lemma SetPcAt(p: Pool, v: nat, pc: Pc, w: nat, j: Job)
    requires v < |p.workers|
    ensures IsAbandoned(SetPc(p, v, pc), w, j) <==> if w == v then pc == Abandoned(j) else IsAbandoned(p, w, j)
  {
  }

  lemma SomeAbandonedNext(p: Pool, a: Action, j: Job)
    requires Enabled(p, a)
    ensures SomeAbandoned(Next(p, a), j) <==> SomeAbandoned(p, j) || Abandons(p, a, j)
  {
    if w: nat :| IsAbandoned(Next(p, a), w, j) { AbandonedNext(p, a, w, j); }
    if w: nat :| IsAbandoned(p, w, j) { AbandonedNext(p, a, w, j); }
    if Abandons(p, a, j) { AbandonedNext(p, a, a.w, j); }
  }

  lemma {:induction false} AbandonedIffRunAbandons(p: Pool, actions: seq<Action>, j: Job)
    requires Run(p, actions)
    ensures SomeAbandoned(After(p, actions), j) <==> SomeAbandoned(p, j) || RunAbandons(p, actions, j)
    decreases |actions|
  {
    if actions != [] {
      var a, q := actions[0], Next(p, actions[0]);
      SomeAbandonedNext(p, a, j);
      assert After(p, actions) == After(q, actions[1..]);
      assert RunAbandons(p, actions, j) <==> Abandons(p, a, j) || RunAbandons(q, actions[1..], j);
      AbandonedIffRunAbandons(q, actions[1..], j);
    }
  }

  /** A stop has run its course: no call is in progress and no worker will move again. */
  predicate AtRest(p: Pool) {
    p.drained && p.calls == map[] && forall w :: 0 <= w < |p.workers| ==> p.workers[w].pc.Exited? || p.workers[w].pc.Abandoned?
  }

  /** Not every job is fenced in the end. Once the pool is at rest, a job that was not given a thread of
      its own has been fenced if and only if no worker took the losing branch with it in hand; and a
      job so lost has not been executed either. */
  lemma {:induction false} FencedIffNotAbandoned(n: nat, actions: seq<Action>, j: Job)
    requires Run(Init(n), actions) && AtRest(After(Init(n), actions))
    requires j in After(Init(n), actions).place && !After(Init(n), actions).place[j].Overflow?
    ensures var p := After(Init(n), actions);
      && j in p.fenced && j in p.executed
      && (p.fenced[j] == 1 <==> !RunAbandons(Init(n), actions, j))
      && (p.fenced[j] == 0 ==> p.executed[j] == 0)
  {
    var p := After(Init(n), actions);
    InitOk(n);
    RunKeeps(Init(n), actions);
    OwnerIsPlace(p, j);
    AbandonedIffRunAbandons(Init(n), actions, j);
    forall w: nat ensures IsAbandoned(p, w, j) <==> OwnedBy(p, w, j) { }
  }

  /** And a job so lost stays lost, whatever happens after. */
  lemma {:induction false} AbandonedNeverFenced(n: nat, before: seq<Action>, after: seq<Action>, j: Job)
    requires Run(Init(n), before) && RunAbandons(Init(n), before, j) && Run(After(Init(n), before), after)
    ensures var p := After(After(Init(n), before), after); j in p.fenced && j in p.executed && p.fenced[j] == 0 == p.executed[j]
  {
    InitOk(n);
    RunKeeps(Init(n), before);
    var p := After(Init(n), before);
    AbandonedIffRunAbandons(Init(n), before, j);
    AbandonedIffRunAbandons(p, after, j);
    RunKeeps(p, after);
    var q := After(p, after);
    var w: nat :| IsAbandoned(q, w, j);
    assert WorkerOk(q, w) && JobOk(q, j);
  }
}
