/** How many frames run per tick: a time accumulator with bounded catch-up. */
module FrameScheduler {
  import opened Wrappers
  import opened TimeSpec

  const MAX_FRAMES_PER_TICK: nat := 5

  function Min(a: nat, b: nat): nat { if a < b then a else b }

  function Clamp(a: nat, lo: nat, hi: nat): (r: nat)
    requires lo <= hi
    ensures lo <= r <= hi && (lo <= a <= hi ==> r == a)
  {
    if Min(hi, a) < lo then lo else Min(hi, a)
  }

  /** Running `limit` frames takes no longer than one frame lasts, and one more would, as far as the
      bounds 1 and 5 allow. */
  predicate Fits(limit: nat, average: nat, frameTime: nat) {
    && (limit > 1 ==> limit * average <= frameTime)
    && (0 < average && limit < MAX_FRAMES_PER_TICK ==> frameTime < (limit + 1) * average)
  }

  lemma LimitFits(quotient: nat, average: nat, frameTime: nat)
    requires average > 0 ==> quotient == frameTime / average
    ensures Fits(Clamp(quotient, 1, MAX_FRAMES_PER_TICK), average, frameTime)
  {
    var r := Clamp(quotient, 1, MAX_FRAMES_PER_TICK);
    if average > 0 {
      Quotient(frameTime, average);
      AtMostProduct(quotient, quotient, average);
      if r > 1 {
        AtMostProduct(r, quotient, average);
      }
      if r < MAX_FRAMES_PER_TICK {
        AtMostProduct(quotient + 1, r + 1, average);
      }
    }
  }

  method LimitFor(average: nat, frameTime: nat) returns (limit: nat)
    ensures 1 <= limit <= MAX_FRAMES_PER_TICK && Fits(limit, average, frameTime)
  {
    var quotient: nat := *;
    if average > 0 {
      quotient := frameTime / average;
    }
    LimitFits(quotient, average, frameTime);
    limit := Clamp(quotient, 1, MAX_FRAMES_PER_TICK);
  }

  function Sum(ts: seq<TimeSpec>): (r: TimeSpec)
    requires forall t :: t in ts ==> t.Normal()
    ensures r.Normal()
  {
    if ts == [] then ZERO else Sum(ts[..|ts| - 1]).Plus(ts[|ts| - 1])
  }

  /** The sum in nanoseconds. */
  function TotalNs(ts: seq<TimeSpec>): nat {
    if ts == [] then 0 else ts[0].Ns() + TotalNs(ts[1..])
  }

  lemma {:induction false} TotalNsLast(ts: seq<TimeSpec>)
    requires ts != []
    ensures TotalNs(ts) == TotalNs(ts[..|ts| - 1]) + ts[|ts| - 1].Ns()
  {
    if |ts| > 1 {
      TotalNsLast(ts[1..]);
      assert ts[..|ts| - 1][1..] == ts[1..][..|ts| - 2];
    }
  }

  lemma {:induction false} SumIsTotal(ts: seq<TimeSpec>)
    requires forall t :: t in ts ==> t.Normal()
    ensures Sum(ts).Ns() == TotalNs(ts)
  {
    if ts != [] {
      SumIsTotal(ts[..|ts| - 1]);
      TotalNsLast(ts);
    }
  }

  /** Within the bounds there is only one such limit: the quotient, cut off at both ends. */
  lemma FitsIsQuotient(limit: nat, average: nat, frameTime: nat)
    requires 0 < average && 1 <= limit <= MAX_FRAMES_PER_TICK
    ensures Fits(limit, average, frameTime) <==>
      limit == if frameTime / average < 1 then 1
               else if frameTime / average > MAX_FRAMES_PER_TICK then MAX_FRAMES_PER_TICK
               else frameTime / average
  {
    var q := frameTime / average;
    Quotient(frameTime, average);
    AtMostProduct(q, q, average);
    LimitFits(q, average, frameTime);
    if Fits(limit, average, frameTime) {
      if limit > 1 { LessOfProducts(limit, q + 1, average); }
      if limit < MAX_FRAMES_PER_TICK { LessOfProducts(q, limit + 1, average); }
    }
  }

  /** The frame time divided by the average of `count` timings, cut off at 1 and 5. */
  predicate IsLimit(limit: nat, total: nat, count: nat, frameTime: nat)
    requires count > 0
  {
    var average := total / count;
    average > 0 ==> limit == Clamp(frameTime / average, 1, MAX_FRAMES_PER_TICK)
  }

  lemma FittingIsLimit(limit: nat, total: nat, count: nat, frameTime: nat)
    requires count > 0 && 1 <= limit <= MAX_FRAMES_PER_TICK && Fits(limit, total / count, frameTime)
    ensures IsLimit(limit, total, count, frameTime)
  {
    if total / count > 0 {
      FitsIsQuotient(limit, total / count, frameTime);
    }
  }

  /** The history keeps nine timings. */
  function LastNine(ts: seq<TimeSpec>): (r: seq<TimeSpec>)
    ensures |r| == Min(9, |ts|) && forall k :: 0 <= k < |r| ==> r[k] == ts[|ts| - |r| + k]
  {
    if |ts| <= 9 then ts else ts[|ts| - 9..]
  }

  lemma LastNineAppend(ts: seq<TimeSpec>, t: TimeSpec)
    ensures LastNine(LastNine(ts) + [t]) == LastNine(ts + [t])
  {
  }

  /** The durations of the first n frames: frame k starts at clock(2 * k) and ends at clock(2 * k + 1). */
  function Durations(clock: nat -> TimeSpec, n: nat): (r: seq<TimeSpec>)
    requires forall k :: clock(k).Normal()
    ensures |r| == n
    ensures forall k :: 0 <= k < n ==>
      var start, end := clock(2 * k).Ns(), clock(2 * k + 1).Ns();
      r[k].Normal() && r[k].Ns() == if end >= start then end - start else start - end
  {
    seq(n, k requires 0 <= k < n => clock(2 * k + 1).AbsDiff(clock(2 * k)))
  }

  lemma NoDuration(ts: seq<TimeSpec>, clock: nat -> TimeSpec)
    requires |ts| <= 9 && forall k :: clock(k).Normal()
    ensures LastNine(ts + Durations(clock, 0)) == ts
  {
    assert ts + Durations(clock, 0) == ts;
  }

  lemma NextDuration(ts: seq<TimeSpec>, clock: nat -> TimeSpec, n: nat)
    requires forall k :: clock(k).Normal()
    ensures LastNine(LastNine(ts + Durations(clock, n)) + [clock(2 * n + 1).AbsDiff(clock(2 * n))])
      == LastNine(ts + Durations(clock, n + 1))
  {
    LastNineAppend(ts + Durations(clock, n), clock(2 * n + 1).AbsDiff(clock(2 * n)));
    assert Durations(clock, n + 1) == Durations(clock, n) + [clock(2 * n + 1).AbsDiff(clock(2 * n))];
    assert ts + Durations(clock, n + 1) == ts + Durations(clock, n) + [clock(2 * n + 1).AbsDiff(clock(2 * n))];
  }

  /** What one tick does, in nanoseconds: `due` frames have accumulated. */
  datatype Ticked = Ticked(frames: nat, accumulator: nat, dropped: nat)

  function Tick(accumulator: nat, delta: nat, frameTime: nat, limit: nat): Ticked
    requires frameTime > 0
  {
    var due := (accumulator + delta) / frameTime;
    if due <= limit then Ticked(due, (accumulator + delta) % frameTime, 0)
    else Ticked(limit, 0, accumulator + delta - limit * frameTime)
  }

  class Scheduler {
    const frameTime: TimeSpec
    var hasMainClip: bool
    var frameAccumulator: TimeSpec
    var recentFrameTimings: seq<TimeSpec>
    var fakeCurrentTime: TimeSpec
    var timeUntilNextTick: Option<TimeSpec>

    constructor (frameTime: TimeSpec)
      requires frameTime.Normal() && frameTime.Ns() > 0
      ensures Valid() && frameAccumulator == ZERO && recentFrameTimings == [] && this.frameTime == frameTime
    {
      this.frameTime := frameTime;
      hasMainClip, frameAccumulator, recentFrameTimings := false, ZERO, [];
      fakeCurrentTime, timeUntilNextTick := ZERO, None;
    }

    ghost predicate Valid()
      reads this
    {
      && frameTime.Normal() && frameTime.Ns() > 0
      && frameAccumulator.Normal() && frameAccumulator.Ns() < frameTime.Ns()
      && |recentFrameTimings| <= 9 && (forall t :: t in recentFrameTimings ==> t.Normal())
      && fakeCurrentTime.Normal() && (timeUntilNextTick.Some? ==> timeUntilNextTick.value.Normal())
    }

    function Average(): (r: nat)
      requires forall t :: t in recentFrameTimings ==> t.Normal()
      reads this`recentFrameTimings
    {
      if recentFrameTimings == [] then 0 else Sum(recentFrameTimings).Div(|recentFrameTimings|).Ns()
    }

    /** As many frames as take no longer, on average, than one frame lasts; between 1 and 5. The
        original divides floats: with an average of zero the quotient is whatever the conversion of
        infinity to an integer gives. */
    method MaxFramesPerTick() returns (limit: nat)
      requires frameTime.Normal() && frameTime.Ns() > 0 && forall t :: t in recentFrameTimings ==> t.Normal()
      ensures 1 <= limit <= MAX_FRAMES_PER_TICK
      ensures recentFrameTimings == [] ==> limit == MAX_FRAMES_PER_TICK
      ensures recentFrameTimings != [] ==> Fits(limit, Average(), frameTime.Ns())
      ensures recentFrameTimings != [] ==>
        IsLimit(limit, TotalNs(recentFrameTimings), |recentFrameTimings|, frameTime.Ns())
    {
      if recentFrameTimings == [] { return MAX_FRAMES_PER_TICK; }
      var average := AverageFrameTiming();
      limit := LimitFor(average, frameTime.Ns());
      SumIsTotal(recentFrameTimings);
      DivIsNs(Sum(recentFrameTimings), |recentFrameTimings|);
      FittingIsLimit(limit, TotalNs(recentFrameTimings), |recentFrameTimings|, frameTime.Ns());
    }

    method AverageFrameTiming() returns (average: nat)
      requires recentFrameTimings != [] && forall t :: t in recentFrameTimings ==> t.Normal()
      ensures average == Average()
    {
      var total := Accumulate();
      average := total.Div(|recentFrameTimings|).Ns();
    }

    method Accumulate() returns (total: TimeSpec)
      requires forall t :: t in recentFrameTimings ==> t.Normal()
      ensures total == Sum(recentFrameTimings)
    {
      total := ZERO;
      var i := 0;
      while i < |recentFrameTimings|
        invariant 0 <= i <= |recentFrameTimings| && total == Sum(recentFrameTimings[..i])
      {
        assert recentFrameTimings[..i + 1][..i] == recentFrameTimings[..i];
        total := total.Plus(recentFrameTimings[i]);
        i := i + 1;
      }
      assert recentFrameTimings[..i] == recentFrameTimings;
    }

    method AddFrameTiming(elapsed: TimeSpec)
      requires |recentFrameTimings| <= 9
      modifies this`recentFrameTimings
      ensures recentFrameTimings == LastNine(old(recentFrameTimings) + [elapsed])
      ensures forall t :: t in recentFrameTimings ==> t in old(recentFrameTimings) || t == elapsed
    {
      recentFrameTimings := recentFrameTimings + [elapsed];
      if |recentFrameTimings| >= 10 {
        recentFrameTimings := recentFrameTimings[1..];
      }
    }

    /** The out-parameters are the number of frames and the limit that was in force. */
    method RunTick(delta: TimeSpec, clock: nat -> TimeSpec) returns (numFrames: nat, limit: nat)
      requires Valid() && delta.Normal() && forall k :: clock(k).Normal()
      modifies this
      ensures Valid() && 1 <= limit <= MAX_FRAMES_PER_TICK
      ensures old(hasMainClip && recentFrameTimings == []) ==> limit == MAX_FRAMES_PER_TICK
      ensures old(hasMainClip && recentFrameTimings != []) ==> Fits(limit, old(Average()), frameTime.Ns())
      ensures !old(hasMainClip) ==> numFrames == 0 && frameAccumulator == old(frameAccumulator)
      ensures old(hasMainClip) ==>
        var t := Tick(old(frameAccumulator).Ns(), delta.Ns(), frameTime.Ns(), limit);
        numFrames == t.frames && frameAccumulator.Ns() == t.accumulator
      ensures recentFrameTimings == LastNine(old(recentFrameTimings) + Durations(clock, numFrames))
      ensures fakeCurrentTime.Ns() == old(fakeCurrentTime).Ns() + numFrames * frameTime.Ns()
    {
      hide LastNine, Durations, Fits, Tick;
      limit, numFrames := MAX_FRAMES_PER_TICK, 0;
      NoDuration(recentFrameTimings, clock);
      if !hasMainClip { return; }
      frameAccumulator := frameAccumulator.Plus(delta);
      limit := MaxFramesPerTick();
      numFrames := RunFrames(limit, clock);
      LoopIsTick(old(frameAccumulator).Ns(), delta.Ns(), numFrames, frameAccumulator.Ns(), limit);
      DropWholeFrames(numFrames);
    }

    /** Frames that did not fit into the tick are lost. */
    method DropWholeFrames(numFrames: nat)
      requires frameTime.Normal() && frameAccumulator.Normal() && fakeCurrentTime.Normal()
      modifies this`frameAccumulator, this`fakeCurrentTime
      ensures frameAccumulator.Normal() && fakeCurrentTime.Normal()
      ensures frameAccumulator.Ns() == if old(frameAccumulator).Ns() < frameTime.Ns() then old(frameAccumulator).Ns() else 0
      ensures fakeCurrentTime.Ns() == old(fakeCurrentTime).Ns() + numFrames * frameTime.Ns()
    {
      OrderIsNs(frameAccumulator, frameTime);
      frameAccumulator := if frameAccumulator.Less(frameTime) then frameAccumulator else ZERO;
      fakeCurrentTime := fakeCurrentTime.Plus(frameTime.Times(numFrames));
    }

    method RunFrames(limit: nat, clock: nat -> TimeSpec) returns (numFrames: nat)
      requires frameTime.Normal() && frameAccumulator.Normal() && |recentFrameTimings| <= 9
      requires (forall t :: t in recentFrameTimings ==> t.Normal()) && forall k :: clock(k).Normal()
      modifies this`frameAccumulator, this`recentFrameTimings
      ensures frameAccumulator.Normal()
      ensures |recentFrameTimings| <= 9 && forall t :: t in recentFrameTimings ==> t.Normal()
      ensures recentFrameTimings == LastNine(old(recentFrameTimings) + Durations(clock, numFrames))
      ensures numFrames <= limit && (numFrames == limit || frameAccumulator.Ns() < frameTime.Ns())
      ensures frameAccumulator.Ns() + numFrames * frameTime.Ns() == old(frameAccumulator.Ns())
    {
      hide LastNine, Durations;
      numFrames := 0;
      NoDuration(recentFrameTimings, clock);
      OrderIsNs(frameAccumulator, frameTime);
      while numFrames < limit && frameAccumulator.AtLeast(frameTime)
        invariant numFrames <= limit && |recentFrameTimings| <= 9 && forall t :: t in recentFrameTimings ==> t.Normal()
        invariant recentFrameTimings == LastNine(old(recentFrameTimings) + Durations(clock, numFrames))
        invariant frameAccumulator.Normal()
        invariant frameAccumulator.AtLeast(frameTime) <==> frameAccumulator.Ns() >= frameTime.Ns()
        invariant frameAccumulator.Ns() + numFrames * frameTime.Ns() == old(frameAccumulator.Ns())
      {
        var startTime := clock(2 * numFrames);
        NextDuration(old(recentFrameTimings), clock, numFrames);
        AddFrameTiming(clock(2 * numFrames + 1).AbsDiff(startTime));
        frameAccumulator := frameAccumulator.Minus(frameTime);
        AtMostProduct(numFrames, numFrames, frameTime.Ns());
        OrderIsNs(frameAccumulator, frameTime);
        numFrames := numFrames + 1;
      }
    }

    /** The loop runs what Tick says: as many frames as are due, up to the limit; what then is left is
        less than a frame, or is dropped. */
    lemma LoopIsTick(accumulator: nat, delta: nat, n: nat, rest: nat, limit: nat)
      requires frameTime.Ns() > 0 && n <= limit && rest + n * frameTime.Ns() == accumulator + delta
      requires n == limit || rest < frameTime.Ns()
      ensures var t := Tick(accumulator, delta, frameTime.Ns(), limit);
        n == t.frames && (if rest < frameTime.Ns() then rest else 0) == t.accumulator
    {
      var total := accumulator + delta;
      Quotient(total, frameTime.Ns());
      if rest < frameTime.Ns() {
        DivUnique(total, frameTime.Ns(), n, rest);
      } else {
        AtMostProduct(n, n, frameTime.Ns());
        AtMostProduct(total / frameTime.Ns(), total / frameTime.Ns(), frameTime.Ns());
        LessOfProducts(n + 1, total / frameTime.Ns() + 1, frameTime.Ns());
      }
    }

    /** How long the event loop may sleep. */
    method TimeUntilNextFrame() returns (r: TimeSpec)
      requires Valid()
      ensures r.Normal()
      ensures r.Ns() == if timeUntilNextTick.Some? then Min(frameTime.Ns() - frameAccumulator.Ns(), timeUntilNextTick.value.Ns())
                        else frameTime.Ns() - frameAccumulator.Ns()
    {
      var delta := if frameAccumulator.Ns() <= 0 then frameTime else frameTime.SaturatingSub(frameAccumulator);
      r := delta;
      if timeUntilNextTick.Some? {
        OrderIsNs(delta, timeUntilNextTick.value);
        r := if delta.Less(timeUntilNextTick.value) then delta else timeUntilNextTick.value;
      }
      if r.Less(ZERO) { r := ZERO; }
    }
  }

  /** At most `limit` frames; less than one frame is carried over; time is dropped only when more than
      the limit were due; no time is lost otherwise. */
  lemma TickConserves(accumulator: nat, delta: nat, frameTime: nat, limit: nat)
    requires frameTime > 0
    ensures var t := Tick(accumulator, delta, frameTime, limit);
      && t.frames == Min(limit, (accumulator + delta) / frameTime)
      && t.accumulator < frameTime
      && accumulator + delta == t.frames * frameTime + t.accumulator + t.dropped
      && (t.dropped > 0 <==> (accumulator + delta) / frameTime > limit)
  {
    var total := accumulator + delta;
    Quotient(total, frameTime);
    if total / frameTime > limit {
      AtMostProduct(limit + 1, total / frameTime, frameTime);
      AtMostProduct(limit, limit, frameTime);
    }
  }

  /** Sleeping exactly as long as TimeUntilNextFrame says makes a frame due, and any less does not. */
  lemma WakesForFrame(accumulator: nat, delta: nat, frameTime: nat, limit: nat)
    requires accumulator < frameTime && limit >= 1
    ensures Tick(accumulator, delta, frameTime, limit).frames > 0 <==> delta >= frameTime - accumulator
  {
    Quotient(accumulator + delta, frameTime);
    if accumulator + delta < frameTime {
      DivUnique(accumulator + delta, frameTime, 0, accumulator + delta);
    } else {
      AtMostProduct((accumulator + delta) / frameTime, (accumulator + delta) / frameTime, frameTime);
      LessOfProducts(1, (accumulator + delta) / frameTime + 1, frameTime);
    }
  }

  /** A call of runTick: the time since the last one, and the limit in force. */
  datatype Call = Call(delta: nat, limit: nat)

  function Run(accumulator: nat, calls: seq<Call>, frameTime: nat): Ticked
    requires frameTime > 0
    decreases |calls|
  {
    if calls == [] then Ticked(0, accumulator, 0)
    else
      var t := Tick(accumulator, calls[0].delta, frameTime, calls[0].limit);
      var rest := Run(t.accumulator, calls[1..], frameTime);
      Ticked(t.frames + rest.frames, rest.accumulator, t.dropped + rest.dropped)
  }

  function Elapsed(calls: seq<Call>): nat {
    if calls == [] then 0 else calls[0].delta + Elapsed(calls[1..])
  }

  lemma QuotientIs(total: nat, k: nat, q: nat, r: nat)
    requires k > 0 && total == q * k + r
    ensures q == total / k <==> r < k
  {
    Quotient(total, k);
    if r < k {
      DivUnique(total, k, q, r);
    }
  }

  lemma SumOfProducts(a: nat, b: nat, k: nat)
    ensures (a + b) * k == a * k + b * k
  {
  }

  /** Over any sequence of calls all time is accounted for. */
  lemma {:induction false} RunConserves(accumulator: nat, calls: seq<Call>, frameTime: nat)
    requires accumulator < frameTime
    ensures var r := Run(accumulator, calls, frameTime);
      && r.accumulator < frameTime
      && accumulator + Elapsed(calls) == r.frames * frameTime + r.accumulator + r.dropped
    decreases |calls|
  {
    if calls != [] {
      var t := Tick(accumulator, calls[0].delta, frameTime, calls[0].limit);
      TickConserves(accumulator, calls[0].delta, frameTime, calls[0].limit);
      RunConserves(t.accumulator, calls[1..], frameTime);
      var rest := Run(t.accumulator, calls[1..], frameTime);
      SumOfProducts(t.frames, rest.frames, frameTime);
    }
  }

  /** No call finds more frames due than its limit allows. */
  predicate Keeps(accumulator: nat, calls: seq<Call>, frameTime: nat)
    requires frameTime > 0
    decreases |calls|
  {
    calls == [] ||
    ((accumulator + calls[0].delta) / frameTime <= calls[0].limit
     && Keeps((accumulator + calls[0].delta) % frameTime, calls[1..], frameTime))
  }

  /** Then nothing is dropped; otherwise the first call that finds too many drops a whole frame or more. */
  lemma {:induction false} DropsWholeFrames(accumulator: nat, calls: seq<Call>, frameTime: nat)
    requires accumulator < frameTime
    ensures var dropped := Run(accumulator, calls, frameTime).dropped;
      if Keeps(accumulator, calls, frameTime) then dropped == 0 else dropped >= frameTime
    decreases |calls|
  {
    if calls != [] {
      var t := Tick(accumulator, calls[0].delta, frameTime, calls[0].limit);
      TickConserves(accumulator, calls[0].delta, frameTime, calls[0].limit);
      DropsWholeFrames(t.accumulator, calls[1..], frameTime);
      if (accumulator + calls[0].delta) / frameTime > calls[0].limit {
        TickDropsFrame(accumulator + calls[0].delta, frameTime, calls[0].limit);
      }
    }
  }

  lemma TickDropsFrame(total: nat, frameTime: nat, limit: nat)
    requires frameTime > 0 && total / frameTime > limit
    ensures total - limit * frameTime >= frameTime
  {
    Quotient(total, frameTime);
    AtMostProduct(limit, limit, frameTime);
    AtMostProduct(limit + 1, total / frameTime, frameTime);
  }

  /** The number of frames is what the elapsed time makes due, however it is cut into ticks, if and
      only if no call finds more frames due than its limit. */
  lemma {:induction false} FramesFollowTime(accumulator: nat, calls: seq<Call>, frameTime: nat)
    requires accumulator < frameTime
    ensures Run(accumulator, calls, frameTime).frames == (accumulator + Elapsed(calls)) / frameTime
      <==> Keeps(accumulator, calls, frameTime)
  {
    RunConserves(accumulator, calls, frameTime);
    DropsWholeFrames(accumulator, calls, frameTime);
    var r := Run(accumulator, calls, frameTime);
    QuotientIs(accumulator + Elapsed(calls), frameTime, r.frames, r.accumulator + r.dropped);
  }
}
