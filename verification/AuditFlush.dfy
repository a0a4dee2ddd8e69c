/** The effect, order and cost of one flush, from the step that starts it to the step that ends it. */
module AuditFlush {
  import opened Common
  import opened Sequences
  import opened AuditQueueMachine
  import opened AuditQueueRuns

  function Since<T>(before: seq<T>, after: seq<T>): seq<T>
    requires before <= after
  {
    after[|before|..]
  }

  /** The most that backing off k times can cost one entry: 100 ms, then 200 ms more. */
  function BackoffBound(k: nat): real {
    if k == 0 then 0.0 else if k == 1 then 100.0 else 300.0
  }

  const ENTRY_SLEEP_MS: real := 300.0

  /** The first entries of a snapshot are a merge of those acknowledged and those pushed back. */
  ghost predicate SettledInOrder(snapshot: seq<AuditEntry>, a: seq<AuditEntry>, r: seq<AuditEntry>) {
    |a| + |r| <= |snapshot| && Interleaves(snapshot[..|a| + |r|], a, r)
  }

  /** Part way through a flush that started from s0: the settled entries are the first of the snapshot, in order
      acknowledged or pushed back; the queue is the new arrivals merged with what was pushed back. */
  ghost predicate InOrder(s0: State, s: State) {
    && Grown(s0, s) && s.flushing && |s.bodies| == 1
    && var a, r, new_ := Since(s0.acked, s.acked), Since(s0.requeued, s.requeued), Since(s0.enqueued, s.enqueued);
    && SettledInOrder(s0.queue, a, r) && s.bodies[0].attempt < MAX_ATTEMPTS
    && s.bodies[0].rest == s0.queue[|a| + |r|..]
    && (s.bodies[0].rest == [] ==> s.bodies[0].attempt == 0)
    && Interleaves(s.queue, new_, r)
  }

  /** The writes and the time slept so far are within the bounds. */
  ghost predicate WithinCost(s0: State, s: State) {
    && Grown(s0, s) && |s.bodies| == 1
    && var a, r, k := |s.acked| - |s0.acked|, |s.requeued| - |s0.requeued|, s.bodies[0].attempt;
    && a + MAX_ATTEMPTS * r + k <= |s.writes| - |s0.writes| <= MAX_ATTEMPTS * (a + r) + k
    && s.sleptMs - s0.sleptMs <= ENTRY_SLEEP_MS * (a + r) as real + BackoffBound(k)
  }

  ghost predicate Flushing(s0: State, s: State) {
    InOrder(s0, s) && WithinCost(s0, s)
  }

  /** A whole flush, from s0 to s1. */
  ghost predicate Flushed(s0: State, s1: State) {
    && Grown(s0, s1) && !s1.flushing && s1.bodies == []
    && var a, r, new_ := Since(s0.acked, s1.acked), Since(s0.requeued, s1.requeued), Since(s0.enqueued, s1.enqueued);
    && Interleaves(s0.queue, a, r)
    && Interleaves(s1.queue, new_, r)
    && |a| + MAX_ATTEMPTS * |r| <= |Since(s0.writes, s1.writes)| <= MAX_ATTEMPTS * |s0.queue|
    && |s0.queue| <= |Since(s0.writes, s1.writes)|
    && s1.sleptMs - s0.sleptMs <= ENTRY_SLEEP_MS * |s0.queue| as real
  }

  predicate Middle(step: Step) {
    !step.StartFlush? && !step.EndFlush?
  }

  /** Between two positions a run neither starts nor ends a flush. */
  ghost predicate AllMiddle(steps: seq<Step>, from: nat, to: nat)
    requires to <= |steps|
  {
    forall i :: from <= i < to ==> Middle(steps[i])
  }

  /** From the given position to its end a run is one flush, with whatever other callers do in between. */
  ghost predicate FlushFrom(run: seq<Step>, from: nat) {
    && from + 2 <= |run|
    && run[from] == StartFlush && run[|run| - 1].EndFlush?
    && AllMiddle(run, from + 1, |run| - 1)
  }

  /** A flush is its start, what happens during it, and its end. */
  lemma FlushParts(run0: seq<Step>, s0: State, run1: seq<Step>, s1: State)
      returns (middle: seq<Step>, s: State, last: Step)
    requires run0 <= run1 && FlushFrom(run1, |run0|)
    requires Exec(Init(), run0) == Reached(s0) && Exec(Init(), run1) == Reached(s1)
    ensures Enabled(s0, StartFlush) && Exec(Next(s0, StartFlush), middle) == Reached(s)
    ensures AllMiddle(middle, 0, |middle|)
    ensures last.EndFlush? && Enabled(s, last) && s1 == Next(s, last)
  {
    var init, start := run1[..|run1| - 1], run0 + [StartFlush];
    middle, last := init[|start|..], run1[|run1| - 1];
    assert start <= init && init == start + middle;
    s := Exec(Init(), init).state;
    ExecPrefix(Init(), start, middle);
    assert start[..|run0|] == run0;
    ExecTwice(Init(), start, middle);
  }

  lemma FlushingStarts(s0: State)
    requires s0.bodies == [] && Enabled(s0, StartFlush)
    ensures Flushing(s0, Next(s0, StartFlush))
  {
  }

  lemma SinceMore<T>(before: seq<T>, after: seq<T>, x: T)
    requires before <= after
    ensures before <= after + [x] && OneMore(Since(before, after), Since(before, after + [x]), x)
  {
  }

  lemma FlushingEnqueue(s0: State, s: State, e: AuditEntry)
    requires Flushing(s0, s)
    ensures Flushing(s0, Next(s, Enqueue(e)))
  {
    var t := Next(s, Enqueue(e));
    SinceMore(s0.enqueued, s.enqueued, e);
    InterleavesAddLeft(s.queue, Since(s0.enqueued, s.enqueued), Since(s0.requeued, s.requeued),
                       t.queue, Since(s0.enqueued, t.enqueued), e);
  }

  lemma SettledLeft(snapshot: seq<AuditEntry>, a: seq<AuditEntry>, r: seq<AuditEntry>, c: seq<AuditEntry>)
    requires SettledInOrder(snapshot, a, r) && |a| + |r| < |snapshot| && OneMore(a, c, snapshot[|a| + |r|])
    ensures SettledInOrder(snapshot, c, r)
  {
    var done := |a| + |r|;
    InterleavesAddLeft(snapshot[..done], a, r, snapshot[..done + 1], c, snapshot[done]);
  }

  lemma SettledRight(snapshot: seq<AuditEntry>, a: seq<AuditEntry>, r: seq<AuditEntry>, c: seq<AuditEntry>)
    requires SettledInOrder(snapshot, a, r) && |a| + |r| < |snapshot| && OneMore(r, c, snapshot[|a| + |r|])
    ensures SettledInOrder(snapshot, a, c)
  {
    var done := |a| + |r|;
    InterleavesAddRight(snapshot[..done], a, r, snapshot[..done + 1], c, snapshot[done]);
  }

  lemma SuccessInOrder(s0: State, s: State, step: Step)
    requires InOrder(s0, s) && Enabled(s, step) && step.AttemptSucceeds?
    ensures InOrder(s0, Next(s, step))
  {
    var t, a, r := Next(s, step), Since(s0.acked, s.acked), Since(s0.requeued, s.requeued);
    SinceMore(s0.acked, s.acked, s0.queue[|a| + |r|]);
    SettledLeft(s0.queue, a, r, Since(s0.acked, t.acked));
  }

  lemma GiveUpInOrder(s0: State, s: State, step: Step)
    requires InOrder(s0, s) && Enabled(s, step) && step.GiveUp?
    ensures InOrder(s0, Next(s, step))
  {
    var t, a, r := Next(s, step), Since(s0.acked, s.acked), Since(s0.requeued, s.requeued);
    var e := s0.queue[|a| + |r|];
    SinceMore(s0.requeued, s.requeued, e);
    SettledRight(s0.queue, a, r, Since(s0.requeued, t.requeued));
    assert OneMore(s.queue, t.queue, e);
    InterleavesAddRight(s.queue, Since(s0.enqueued, s.enqueued), r, t.queue, Since(s0.requeued, t.requeued), e);
  }

  /** Settling an entry costs at most what is allowed for one. */
  lemma SettlingWithinCost(s0: State, s: State, step: Step)
    requires WithinCost(s0, s) && Enabled(s, step) && (step.AttemptSucceeds? || step.GiveUp?)
    requires s.bodies[0].attempt < MAX_ATTEMPTS
    ensures WithinCost(s0, Next(s, step))
  {
  }

  lemma BackoffWithinBound(attempt: nat, jitter: real)
    requires attempt + 1 < MAX_ATTEMPTS && 0.0 <= jitter < 1.0
    ensures BackoffMs(attempt, jitter) <= BackoffBound(attempt + 1) - BackoffBound(attempt)
  {
    assert Pow2(0) == 1 && Pow2(1) == 2;
  }

  lemma RetryInOrder(s0: State, s: State, step: Step)
    requires InOrder(s0, s) && Enabled(s, step) && step.AttemptFails?
    ensures InOrder(s0, Next(s, step))
  {
  }

  lemma RetryWithinCost(s0: State, s: State, step: Step)
    requires WithinCost(s0, s) && Enabled(s, step) && step.AttemptFails?
    ensures WithinCost(s0, Next(s, step))
  {
    BackoffWithinBound(s.bodies[0].attempt, step.jitter);
  }

  lemma FlushingStep(s0: State, s: State, step: Step)
    requires Flushing(s0, s) && Enabled(s, step) && Middle(step)
    ensures Flushing(s0, Next(s, step))
  {
    match step {
      case Enqueue(e) => FlushingEnqueue(s0, s, e);
      case AttemptSucceeds(_) =>
        SuccessInOrder(s0, s, step);
        SettlingWithinCost(s0, s, step);
      case AttemptFails(_, _) =>
        RetryInOrder(s0, s, step);
        RetryWithinCost(s0, s, step);
      case GiveUp(_) =>
        GiveUpInOrder(s0, s, step);
        SettlingWithinCost(s0, s, step);
      case RefusedFlush =>
    }
  }

  lemma {:induction false} FlushProgress(run: seq<Step>, from: nat, s0: State, s: State)
    requires from < |run| && run[from] == StartFlush && AllMiddle(run, from + 1, |run|)
    requires Exec(Init(), run[..from]) == Reached(s0) && s0.bodies == [] && Exec(Init(), run) == Reached(s)
    ensures Flushing(s0, s)
    decreases |run|
  {
    var init, step := run[..|run| - 1], run[|run| - 1];
    var t := Exec(Init(), init).state;
    if |init| == from {
      FlushingStarts(s0);
    } else {
      assert init[..from] == run[..from];
      FlushProgress(init, from, s0, t);
      FlushingStep(s0, t, step);
    }
  }

  lemma FlushingEnds(s0: State, s: State, step: Step)
    requires Flushing(s0, s) && Enabled(s, step) && step.EndFlush?
    ensures Flushed(s0, Next(s, step))
  {
    var a, r := Since(s0.acked, s.acked), Since(s0.requeued, s.requeued);
    assert s0.queue[..|a| + |r|] == s0.queue;
  }

  /** Whatever other callers and the chain do during a flush of n entries: it acknowledges part of its snapshot and
      pushes the rest back, both in snapshot order; what arrived meanwhile keeps its order too; it makes n to 3n
      writes and sleeps at most 300 n milliseconds. */
  lemma FlushEffect(run0: seq<Step>, s0: State, run1: seq<Step>, s1: State)
    requires run0 <= run1 && FlushFrom(run1, |run0|)
    requires Exec(Init(), run0) == Reached(s0) && !s0.flushing && Exec(Init(), run1) == Reached(s1)
    ensures Flushed(s0, s1)
    ensures |s0.queue| <= |s1.writes| - |s0.writes| <= 3 * |s0.queue|
    ensures s1.sleptMs - s0.sleptMs <= 300.0 * |s0.queue| as real
  {
    var init, last := run1[..|run1| - 1], run1[|run1| - 1];
    var s := Exec(Init(), init).state;
    assert init[..|run0|] == run0;
    EveryRunKeepsInv(run0, s0);
    FlushProgress(init, |run0|, s0, s);
    FlushingEnds(s0, s, last);
  }

  /** A flush in which no entry is given up acknowledges its whole snapshot and leaves only what arrived meanwhile. */
  lemma FlushAllAcknowledged(s0: State, s1: State)
    requires Flushed(s0, s1) && s1.requeued == s0.requeued
    ensures s1.acked == s0.acked + s0.queue
    ensures s1.queue == Since(s0.enqueued, s1.enqueued)
  {
    InterleavesNothing(s0.queue, Since(s0.acked, s1.acked));
    InterleavesNothing(s1.queue, Since(s0.enqueued, s1.enqueued));
  }

  /** How many flushes a run starts. */
  function Starts(steps: seq<Step>): nat {
    if steps == [] then 0
    else Starts(steps[..|steps| - 1]) + if steps[|steps| - 1].StartFlush? then 1 else 0
  }

  lemma {:induction false} NoStarts(run: seq<Step>, from: nat)
    requires from <= |run| && AllMiddle(run, from, |run|)
    ensures Starts(run) == Starts(run[..from])
    decreases |run|
  {
    if from < |run| {
      var init := run[..|run| - 1];
      NoStarts(init, from);
      assert init[..from] == run[..from];
    } else {
      assert run[..from] == run;
    }
  }

  lemma FlushIsOneStart(run0: seq<Step>, run1: seq<Step>)
    requires run0 <= run1 && FlushFrom(run1, |run0|)
    ensures Starts(run1) == Starts(run0) + 1
  {
    var init, first := run1[..|run1| - 1], run0 + [StartFlush];
    NoStarts(init, |first|);
    assert init[..|first|] == first && first[..|run0|] == run0;
  }

  /** One flush is one start, however the run goes on after it. */
  lemma FlushStartsOnce(run0: seq<Step>, run1: seq<Step>, run2: seq<Step>)
    requires run0 <= run1 <= run2 && FlushFrom(run1, |run0|) && AllMiddle(run2, |run1|, |run2|)
    ensures Starts(run2) == Starts(run0) + 1
  {
    FlushIsOneStart(run0, run1);
    NoStarts(run2, |run1|);
    assert run2[..|run1|] == run1;
  }

  // ---------------------------------------------------------------- how often a queued entry has failed

  /** No flush is active, in a state with the invariant. */
  ghost predicate AtRest(s: State) {
    Inv(s) && !s.flushing
  }

  /** Everything queued at s0 and still queued has failed three more attempts in each of the rounds since; everything
      else in the queue has arrived since. */
  ghost predicate RoundsFailed(s0: State, s: State, rounds: nat) {
    && s0.enqueued <= s.enqueued
    && forall e <- s.queue ::
         if e in s0.queue then
           RetryCount(s.failed, e.auditId) == RetryCount(s0.failed, e.auditId) + rounds * MAX_ATTEMPTS
         else
           e in Since(s0.enqueued, s.enqueued)
  }

  /** What is queued later and was enqueued by now is queued now: what is acknowledged does not come back. */
  lemma StillQueued(s: State, t: State, e: AuditEntry)
    requires AtRest(s) && Inv(t) && Grown(s, t) && DistinctIds(t.enqueued)
    requires e in s.enqueued && e in t.queue
    ensures e in s.queue
  {
    DistinctMeansOnce(t.enqueued);
    assert e in multiset(s.enqueued) && e in Live(t);
    assert t.acked == s.acked + Since(s.acked, t.acked);
    assert multiset(t.enqueued)[e] == Live(t)[e] + multiset(t.acked)[e];
    assert multiset(s.enqueued)[e] == Live(s)[e] + multiset(s.acked)[e];
  }

  lemma QueuedOrArrived(s: State, t: State, e: AuditEntry)
    requires AtRest(s) && Inv(t) && Grown(s, t) && DistinctIds(t.enqueued) && e in t.queue
    ensures e in s.queue || e in Since(s.enqueued, t.enqueued)
  {
    assert e in Live(t) && e in multiset(t.enqueued);
    assert t.enqueued == s.enqueued + Since(s.enqueued, t.enqueued);
    if e in s.enqueued {
      StillQueued(s, t, e);
    }
  }

  /** An entry that is queued before a flush and after it was pushed back by it, once. */
  lemma LeftIsPushedBack(s0: State, s1: State, e: AuditEntry)
    requires AtRest(s0) && AtRest(s1) && Flushed(s0, s1) && DistinctIds(s1.enqueued)
    requires e in s0.queue && e in s1.queue
    ensures multiset(s1.requeued)[e] == multiset(s0.requeued)[e] + 1
  {
    var r, new_ := Since(s0.requeued, s1.requeued), Since(s0.enqueued, s1.enqueued);
    InterleavesContents(s1.queue, new_, r);
    DistinctMeansOnce(s1.enqueued);
    HeldOnce(s1, e, e);
    assert e in Live(s0) && e in multiset(s0.enqueued);
    assert s1.enqueued == s0.enqueued + new_ && s1.requeued == s0.requeued + r;
    assert multiset(s1.enqueued)[e] == multiset(s0.enqueued)[e] + multiset(new_)[e];
  }

  /** With distinct ids, whatever arrives meanwhile: an entry queued before a flush and still queued after it has
      failed exactly three attempts more. */
  lemma FlushCounts(run0: seq<Step>, s0: State, run1: seq<Step>, s1: State)
    requires Exec(Init(), run0) == Reached(s0) && Exec(Init(), run1) == Reached(s1)
    requires !s0.flushing && Flushed(s0, s1) && DistinctIds(s1.enqueued)
    ensures RoundsFailed(s0, s1, 1)
  {
    assert s0.enqueued == s1.enqueued[..|s0.enqueued|];
    EveryRunKeepsInv(run0, s0);
    EveryRunKeepsInv(run1, s1);
    RetryAccounting(run0, s0);
    RetryAccounting(run1, s1);
    forall e <- s1.queue
      ensures e in s0.queue ==> multiset(s1.requeued)[e] == multiset(s0.requeued)[e] + 1
      ensures e !in s0.queue ==> e in Since(s0.enqueued, s1.enqueued)
    {
      if e in s0.queue {
        LeftIsPushedBack(s0, s1, e);
      } else {
        QueuedOrArrived(s0, s1, e);
      }
    }
  }

  /** While nothing is written, counts stay and the queue only grows by arrivals. */
  lemma NoRoundCounts(s0: State, s1: State)
    requires AtRest(s0) && Inv(s1) && Grown(s0, s1) && DistinctIds(s1.enqueued) && s1.failed == s0.failed
    ensures RoundsFailed(s0, s1, 0)
  {
    forall e <- s1.queue
      ensures e in s0.queue || e in Since(s0.enqueued, s1.enqueued)
    {
      QueuedOrArrived(s0, s1, e);
    }
  }

  /** Rounds add up. */
  lemma RoundsAdd(s0: State, s1: State, s2: State, m: nat, n: nat)
    requires AtRest(s0) && AtRest(s1) && Inv(s2) && Grown(s0, s1) && Grown(s1, s2) && DistinctIds(s2.enqueued)
    requires RoundsFailed(s0, s1, m) && RoundsFailed(s1, s2, n)
    ensures RoundsFailed(s0, s2, m + n)
  {
    forall e <- s2.queue
      ensures e in s0.queue ==>
                RetryCount(s2.failed, e.auditId) == RetryCount(s0.failed, e.auditId) + (m + n) * MAX_ATTEMPTS
      ensures e !in s0.queue ==> e in Since(s0.enqueued, s2.enqueued)
    {
      if e in s0.queue {
        assert e in Live(s0) && e in multiset(s0.enqueued);
        assert e in s1.enqueued;
        StillQueued(s1, s2, e);
      } else {
        QueuedOrArrived(s0, s2, e);
      }
    }
  }
}
