/** Two runs that lose a job. In one forceStop sets its flag between the worker's taking the job from the
    queue and its starting it. In the other a forceStopWorker ends the only worker of an idle pool.
 */
module ThreadPoolExample {
  import opened Wrappers
  import opened ThreadPool
  import opened ThreadPoolProof
  import opened ThreadPoolProgress

  const JOB: Job := 7
  const ADDER: CallId := 0
  const STOPPER: CallId := 1

  /** The job reaches the only worker's slot. */
  const TAKE_JOB: seq<Action> :=
    [Submit(ADDER, JOB, 0), AddLock(ADDER), AddPush(ADDER), AddSignal(ADDER), Wake(0), ReadStop(0), Take(0)]

  /** forceStop runs from end to end around the worker's last look at stopFlag. */
  const STOP_POOL: seq<Action> :=
    [StopCheck(STOPPER), StopSet(STOPPER), StopSignal(STOPPER), Start(0), StopDrain(STOPPER)]

  function JobTaken(): Pool {
    Pool([Worker(Taken(JOB), Some(JOB))], [], 0, None, false, 1, map[], map[JOB := 0], {},
         map[JOB := InWorker(0)], map[JOB := 0], map[JOB := 0], [JOB], [JOB], false, false)
  }

  lemma {:induction false} Unfold(p: Pool, a: Action, rest: seq<Action>)
    requires Enabled(p, a)
    ensures Run(p, [a] + rest) <==> Run(Next(p, a), rest)
    ensures Run(Next(p, a), rest) ==> After(p, [a] + rest) == After(Next(p, a), rest)
    ensures Run(Next(p, a), rest) ==>
      (RunAbandons(p, [a] + rest, JOB) <==> Abandons(p, a, JOB) || RunAbandons(Next(p, a), rest, JOB))
  {
    assert ([a] + rest)[1..] == rest;
  }

  function JobQueued(): Pool {
    Pool([Worker(Waiting, None)], [JOB], 1, None, false, 0, map[], map[JOB := 0], {},
         map[JOB := Queued], map[JOB := 0], map[JOB := 0], [JOB], [], false, false)
  }

  lemma {:induction false} Submitted(rest: seq<Action>)
    ensures var all := TAKE_JOB[..4] + rest;
      && (Run(Init(1), all) <==> Run(JobQueued(), rest))
      && (Run(JobQueued(), rest) ==> After(Init(1), all) == After(JobQueued(), rest))
  {
    var p0 := Init(1);
    var p1 := Next(p0, Submit(ADDER, JOB, 0));
    var p2 := Next(p1, AddLock(ADDER));
    var p3 := Next(p2, AddPush(ADDER));
    assert Next(p3, AddSignal(ADDER)) == JobQueued();
    Unfold(p3, AddSignal(ADDER), rest);
    Unfold(p2, AddPush(ADDER), [AddSignal(ADDER)] + rest);
    Unfold(p1, AddLock(ADDER), [AddPush(ADDER)] + ([AddSignal(ADDER)] + rest));
    Unfold(p0, Submit(ADDER, JOB, 0), [AddLock(ADDER)] + ([AddPush(ADDER)] + ([AddSignal(ADDER)] + rest)));
    assert TAKE_JOB[..4] + rest ==
      [Submit(ADDER, JOB, 0)] + ([AddLock(ADDER)] + ([AddPush(ADDER)] + ([AddSignal(ADDER)] + rest)));
  }

  lemma JobIsTaken()
    ensures Run(Init(1), TAKE_JOB) && After(Init(1), TAKE_JOB) == JobTaken()
  {
    Submitted(TAKE_JOB[4..]);
    var p4 := JobQueued();
    var p5 := Next(p4, Wake(0));
    var p6 := Next(p5, ReadStop(0));
    assert Next(p6, Take(0)) == JobTaken();
    Unfold(p6, Take(0), []);
    Unfold(p5, ReadStop(0), [Take(0)]);
    Unfold(p4, Wake(0), TAKE_JOB[5..]);
    assert TAKE_JOB[..4] + TAKE_JOB[4..] == TAKE_JOB;
  }

  function StopSignalled(): Pool {
    JobTaken().(stopFlag := true, semaphore := 1, calls := map[STOPPER := Stopping(0)])
  }

  lemma {:induction false} Signalled(rest: seq<Action>)
    ensures var all := STOP_POOL[..3] + rest;
      && (Run(JobTaken(), all) <==> Run(StopSignalled(), rest))
      && (Run(StopSignalled(), rest) ==> After(JobTaken(), all) == After(StopSignalled(), rest))
      && (Run(StopSignalled(), rest) && RunAbandons(StopSignalled(), rest, JOB) ==> RunAbandons(JobTaken(), all, JOB))
  {
    var p0 := JobTaken();
    var p1 := Next(p0, StopCheck(STOPPER));
    var p2 := Next(p1, StopSet(STOPPER));
    assert Next(p2, StopSignal(STOPPER)) == StopSignalled();
    Unfold(p2, StopSignal(STOPPER), rest);
    Unfold(p1, StopSet(STOPPER), [StopSignal(STOPPER)] + rest);
    Unfold(p0, StopCheck(STOPPER), [StopSet(STOPPER)] + ([StopSignal(STOPPER)] + rest));
    assert STOP_POOL[..3] + rest == [StopCheck(STOPPER)] + ([StopSet(STOPPER)] + ([StopSignal(STOPPER)] + rest));
  }

  /** The pool comes to rest, and the job has been neither executed nor fenced. */
  lemma JobIsLost()
    ensures Run(JobTaken(), STOP_POOL) && RunAbandons(JobTaken(), STOP_POOL, JOB)
    ensures var p := After(JobTaken(), STOP_POOL);
      && JOB in p.place && JOB in p.fenced && JOB in p.executed
      && AtRest(p) && p.place[JOB] == InWorker(0) && p.fenced[JOB] == 0 && p.executed[JOB] == 0
  {
    Signalled(STOP_POOL[3..]);
    var p3 := StopSignalled();
    var p4 := Next(p3, Start(0));
    Unfold(p4, StopDrain(STOPPER), []);
    Unfold(p3, Start(0), [StopDrain(STOPPER)]);
    assert STOP_POOL[..3] + STOP_POOL[3..] == STOP_POOL;
  }

  const DROPPER: CallId := 2

  /** The signal of forceStopWorker wakes the worker, which finds the queue empty. */
  const QUIT: seq<Action> :=
    [DropBegin(DROPPER, 0), DropSignal(DROPPER), DropQueued(DROPPER), Wake(0), ReadStop(0), Take(0)]

  const ADD: seq<Action> := [Submit(ADDER, JOB, 0), AddLock(ADDER), AddPush(ADDER), AddSignal(ADDER)]

  function Deserted(): Pool {
    Pool([Worker(Exited, None)], [], 0, None, false, 0, map[], map[], {},
         map[], map[], map[], [], [], true, false)
  }

  function DropSignalled(): Pool {
    Deserted().(workers := [Worker(Waiting, None)], semaphore := 1)
  }

  lemma {:induction false} DropLeavesSignal(rest: seq<Action>)
    ensures var all := QUIT[..3] + rest;
      && (Run(Init(1), all) <==> Run(DropSignalled(), rest))
      && (Run(DropSignalled(), rest) ==> After(Init(1), all) == After(DropSignalled(), rest))
  {
    var p0 := Init(1);
    var p1 := Next(p0, DropBegin(DROPPER, 0));
    var p2 := Next(p1, DropSignal(DROPPER));
    assert Next(p2, DropQueued(DROPPER)) == DropSignalled();
    Unfold(p2, DropQueued(DROPPER), rest);
    Unfold(p1, DropSignal(DROPPER), [DropQueued(DROPPER)] + rest);
    Unfold(p0, DropBegin(DROPPER, 0), [DropSignal(DROPPER)] + ([DropQueued(DROPPER)] + rest));
    assert QUIT[..3] + rest == [DropBegin(DROPPER, 0)] + ([DropSignal(DROPPER)] + ([DropQueued(DROPPER)] + rest));
  }

  lemma WorkerQuits()
    ensures Run(Init(1), QUIT) && After(Init(1), QUIT) == Deserted()
  {
    DropLeavesSignal(QUIT[3..]);
    var p3 := DropSignalled();
    var p4 := Next(p3, Wake(0));
    var p5 := Next(p4, ReadStop(0));
    assert Next(p5, Take(0)) == Deserted();
    Unfold(p5, Take(0), []);
    Unfold(p4, ReadStop(0), [Take(0)]);
    Unfold(p3, Wake(0), QUIT[4..]);
    assert QUIT[..3] + QUIT[3..] == QUIT;
  }

  /** What is added then stays in the queue for ever, though nobody has stopped the pool. */
  lemma JobIsStranded()
    ensures Run(Deserted(), ADD)
    ensures var p := After(Deserted(), ADD);
      && p.jobs == [JOB] && JOB in p.place && p.place[JOB] == Queued && !p.stopFlag && p.calls == map[]
      && Standstill(p) && NoWorkerLeft(p)
  {
    var p0 := Deserted();
    var p1 := Next(p0, Submit(ADDER, JOB, 0));
    var p2 := Next(p1, AddLock(ADDER));
    var p3 := Next(p2, AddPush(ADDER));
    Unfold(p3, AddSignal(ADDER), []);
    Unfold(p2, AddPush(ADDER), [AddSignal(ADDER)]);
    Unfold(p1, AddLock(ADDER), ADD[2..]);
    Unfold(p0, Submit(ADDER, JOB, 0), ADD[1..]);
    var p := Next(p3, AddSignal(ADDER));
    assert p == Deserted().(jobs := [JOB], semaphore := 1, origin := map[JOB := 0], place := map[JOB := Queued],
                            executed := map[JOB := 0], fenced := map[JOB := 0], pushed := [JOB]);
    forall a | Internal(a) ensures !Enabled(p, a) { NothingEnabled(p, a); }
  }

  lemma NothingEnabled(p: Pool, a: Action)
    requires Internal(a) && p.calls == map[] && NoWorkerLeft(p)
    ensures !Enabled(p, a)
  {
    assert WorkerStep(a) && a.w < |p.workers| ==> HasExited(p, a.w);
  }
}
