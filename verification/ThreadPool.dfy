/** The thread pool as a state machine. Each step is what a thread does between two points where
    another may intervene: a semaphore operation, a read of stopFlag, a section under the mutex.
 */
module ThreadPool {
  import opened Wrappers

  type Job = nat
  type CallId = nat
  type Origin = nat  // the ASWorker a job was started from

  /** Where a worker thread is in job_worker. */
  datatype Pc =
    | Waiting            // at num_jobs.wait()
    | Woken              // past wait(), stopFlag not read yet
    | Checked            // stopFlag read as false, mutex not taken yet
    | Taken(job: Job)    // job in its slot, stopFlag not read again yet
    | Running(job: Job)  // in or past execute(), slot still occupied
    | Fencing(job: Job)  // slot free, jobFence() still to come
    | Abandoned(job: Job)  // returned with the job in its slot, because stopFlag was set
    | Exited

  datatype Worker = Worker(pc: Pc, slot: Option<Job>)

  /** A call of addJob, forceStop or forceStopWorker in progress. */
  datatype Call =
    | Adding(job: Job, origin: Origin)  // waits for the mutex
    | Pushing(job: Job)                 // holds it, stopFlag read as false
    | Signalling                        // holds it, job queued
    | StopSeen                          // stopFlag read as false
    | Stopping(signals: nat)            // stopFlag set, signals still to send
    | Dropping(origin: Origin, signals: nat)

  /** History: the one place a submitted job is in. */
  datatype Place = InCall(c: CallId) | Queued | InWorker(w: nat) | Overflow | Fenced

  datatype Pool = Pool(
    workers: seq<Worker>,
    jobs: seq<Job>,
    semaphore: nat,
    mutex: Option<CallId>,
    stopFlag: bool,
    runcount: int,
    calls: map<CallId, Call>,
    origin: map<Job, Origin>,
    aborted: set<Job>,
    // history
    place: map<Job, Place>,
    executed: map<Job, nat>,
    fenced: map<Job, nat>,
    pushed: seq<Job>,
    started: seq<Job>,
    dropped: bool,   // forceStopWorker has been called
    drained: bool)   // a forceStop has left its locked section

  datatype Action =
    | Submit(c: CallId, j: Job, from: Origin)
    | AddLock(c: CallId)
    | AddPush(c: CallId)
    | AddSignal(c: CallId)
    | StopCheck(c: CallId)
    | StopSet(c: CallId)
    | StopSignal(c: CallId)
    | StopDrain(c: CallId)
    | DropBegin(c: CallId, from: Origin)
    | DropSignal(c: CallId)
    | DropQueued(c: CallId)
    | Wake(w: nat)
    | ReadStop(w: nat)
    | Take(w: nat)
    | Start(w: nat)
    | Finish(w: nat)
    | Fence(w: nat)

  function Init(n: nat): Pool {
    Pool(seq(n, _ => Worker(Waiting, None)), [], 0, None, false, 0, map[], map[], {},
         map[], map[], map[], [], [], false, false)
  }

  function Without(calls: map<CallId, Call>, c: CallId): map<CallId, Call> {
    map d | d in calls && d != c :: calls[d]
  }

  function MoveAll(place: map<Job, Place>, js: set<Job>): map<Job, Place> {
    map j | j in place :: if j in js then Fenced else place[j]
  }

  function FenceAll(fenced: map<Job, nat>, js: set<Job>): map<Job, nat> {
    map j | j in fenced :: if j in js then fenced[j] + 1 else fenced[j]
  }

  /** jobs with those started from `from` erased. */
  function KeepOthers(jobs: seq<Job>, origin: map<Job, Origin>, from: Origin): (r: seq<Job>)
    ensures forall j :: j in r <==> j in jobs && !(j in origin && origin[j] == from)
    ensures |r| <= |jobs|
  {
    if jobs == [] then []
    else if jobs[0] in origin && origin[jobs[0]] == from then KeepOthers(jobs[1..], origin, from)
    else [jobs[0]] + KeepOthers(jobs[1..], origin, from)
  }

  function SlotJobs(p: Pool): set<Job> {
    set w | 0 <= w < |p.workers| && p.workers[w].slot.Some? :: p.workers[w].slot.value
  }

  function SlotJobsOf(p: Pool, from: Origin): set<Job> {
    set j | j in SlotJobs(p) && j in p.origin && p.origin[j] == from
  }

  predicate Enabled(p: Pool, a: Action) {
    match a
    case Submit(c, j, _) => c !in p.calls && j !in p.place && j !in p.executed && j !in p.fenced && j !in p.origin
    case AddLock(c) => c in p.calls && p.calls[c].Adding? && p.mutex == None
    case AddPush(c) => c in p.calls && p.calls[c].Pushing?
    case AddSignal(c) => c in p.calls && p.calls[c].Signalling?
    case StopCheck(c) => c !in p.calls && !p.stopFlag
    case StopSet(c) => c in p.calls && p.calls[c].StopSeen?
    case StopSignal(c) => c in p.calls && p.calls[c].Stopping? && p.calls[c].signals > 0
    case StopDrain(c) => c in p.calls && p.calls[c] == Stopping(0) && p.mutex == None
    case DropBegin(c, _) => c !in p.calls
    case DropSignal(c) => c in p.calls && p.calls[c].Dropping? && p.calls[c].signals > 0
    case DropQueued(c) => c in p.calls && p.calls[c].Dropping? && p.calls[c].signals == 0 && p.mutex == None
    case Wake(w) => w < |p.workers| && p.workers[w].pc.Waiting? && p.semaphore > 0
    case ReadStop(w) => w < |p.workers| && p.workers[w].pc.Woken?
    case Take(w) => w < |p.workers| && p.workers[w].pc.Checked? && p.mutex == None
    case Start(w) => w < |p.workers| && p.workers[w].pc.Taken?
    case Finish(w) => w < |p.workers| && p.workers[w].pc.Running? && p.mutex == None
    case Fence(w) => w < |p.workers| && p.workers[w].pc.Fencing?
  }

  function SetPc(p: Pool, w: nat, pc: Pc): Pool
    requires w < |p.workers|
  {
    p.(workers := p.workers[w := p.workers[w].(pc := pc)])
  }

  function Bump(m: map<Job, nat>, j: Job): map<Job, nat> {
    if j in m then m[j := m[j] + 1] else m[j := 1]
  }

  /** The locked part of forceStop and forceStopWorker: abort what runs, fence what is queued. */
  function Cancel(p: Pool, c: CallId, running: set<Job>, rest: seq<Job>): Pool {
    var gone := set j | j in p.jobs && j !in rest;
    p.(aborted := p.aborted + running, jobs := rest, place := MoveAll(p.place, gone),
       fenced := FenceAll(p.fenced, gone), calls := Without(p.calls, c))
  }

  function Next(p: Pool, a: Action): Pool
    requires Enabled(p, a)
  {
    match a
    case Submit(c, j, from) =>
      p.(calls := p.calls[c := Adding(j, from)], place := p.place[j := InCall(c)],
         executed := p.executed[j := 0], fenced := p.fenced[j := 0])
    case AddLock(c) =>
      var j := p.calls[c].job;
      var p1 := p.(origin := p.origin[j := p.calls[c].origin]);
      if p.stopFlag then
        p1.(calls := Without(p.calls, c), place := p.place[j := Fenced], fenced := Bump(p.fenced, j))
      else p1.(mutex := Some(c), calls := p.calls[c := Pushing(j)])
    case AddPush(c) =>
      var j := p.calls[c].job;
      if p.runcount == |p.workers| then
        p.(calls := Without(p.calls, c), mutex := None, place := p.place[j := Overflow])
      else
        p.(calls := p.calls[c := Signalling], jobs := p.jobs + [j], pushed := p.pushed + [j],
           place := p.place[j := Queued])
    case AddSignal(c) => p.(semaphore := p.semaphore + 1, mutex := None, calls := Without(p.calls, c))
    case StopCheck(c) => p.(calls := p.calls[c := StopSeen])
    case StopSet(c) => p.(stopFlag := true, calls := p.calls[c := Stopping(|p.workers|)])
    case StopSignal(c) =>
      p.(semaphore := p.semaphore + 1, calls := p.calls[c := Stopping(p.calls[c].signals - 1)])
    case StopDrain(c) => Cancel(p, c, SlotJobs(p), []).(drained := true)
    case DropBegin(c, from) => p.(calls := p.calls[c := Dropping(from, |p.workers|)], dropped := true)
    case DropSignal(c) =>
      p.(semaphore := p.semaphore + 1, calls := p.calls[c := p.calls[c].(signals := p.calls[c].signals - 1)])
    case DropQueued(c) =>
      var from := p.calls[c].origin;
      Cancel(p, c, SlotJobsOf(p, from), KeepOthers(p.jobs, p.origin, from))
    case Wake(w) => SetPc(p, w, Woken).(semaphore := p.semaphore - 1)
    case ReadStop(w) => SetPc(p, w, if p.stopFlag then Exited else Checked)
    case Take(w) =>
      if p.jobs == [] then SetPc(p, w, Exited)
      else
        var j := p.jobs[0];
        p.(jobs := p.jobs[1..], workers := p.workers[w := Worker(Taken(j), Some(j))],
           runcount := p.runcount + 1, place := p.place[j := InWorker(w)], started := p.started + [j])
    case Start(w) =>
      var j := p.workers[w].pc.job;
      if p.stopFlag then SetPc(p, w, Abandoned(j))
      else SetPc(p, w, Running(j)).(executed := Bump(p.executed, j))
    case Finish(w) =>
      p.(workers := p.workers[w := Worker(Fencing(p.workers[w].pc.job), None)],
         runcount := p.runcount - 1)
    case Fence(w) =>
      var j := p.workers[w].pc.job;
      SetPc(p, w, Waiting).(place := p.place[j := Fenced], fenced := Bump(p.fenced, j))
  }
}
