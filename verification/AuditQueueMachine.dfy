/**
 The audit queue as a step machine. A step is one stretch of code between two awaits, which JavaScript runs
 without interruption; a run is any sequence of enabled steps, so it covers every overlap of callers.
 */
module AuditQueueMachine {
  import opened Common

  datatype AuditEntry = AuditEntry(
    auditId: string, agent: string, timestamp: int, encryptedPayload: string,
    payloadHash: string, agentSignature: string, proxySignature: string)

  const MAX_ATTEMPTS: nat := 3
  const BASE_DELAY_MS: real := 100.0

  /** One activation of the flush body: the entries it has still to settle (the head is being written)
      and how many attempts on the head have failed. */
  datatype FlushBody = FlushBody(rest: seq<AuditEntry>, attempt: nat)

  /** The first four fields are the queue's own variables and the locals of its suspended calls. The others
      are its history: everything enqueued, everything whose write returned ok, everything pushed back,
      the result of every write, and the milliseconds spent in backoff. */
  datatype State = State(
    queue: seq<AuditEntry>, flushing: bool, bodies: seq<FlushBody>, failed: map<string, nat>,
    enqueued: seq<AuditEntry>, acked: seq<AuditEntry>, requeued: seq<AuditEntry>, writes: seq<bool>, sleptMs: real)

  datatype Step =
    | Enqueue(entry: AuditEntry)
    | StartFlush
    | RefusedFlush
    | AttemptSucceeds(body: nat)
    | AttemptFails(body: nat, jitter: real)
    | GiveUp(body: nat)
    | EndFlush(body: nat)

  function Init(): State {
    State([], false, [], map[], [], [], [], [], 0.0)
  }

  function RetryCount(failed: map<string, nat>, id: string): nat {
    if id in failed then failed[id] else 0
  }

  /** 2 ^ n, the backoff factor. */
  function Pow2(n: nat): nat {
    if n == 0 then 1 else 2 * Pow2(n - 1)
  }

  /** The pause after the given number of earlier failures, with full jitter. */
  function BackoffMs(failures: nat, jitter: real): real {
    BASE_DELAY_MS * Pow2(failures) as real * jitter
  }

  predicate Writing(s: State, b: nat) {
    b < |s.bodies| && s.bodies[b].rest != []
  }

  predicate Enabled(s: State, step: Step) {
    match step
    case Enqueue(_) => true
    case StartFlush => !s.flushing && s.queue != []
    case RefusedFlush => s.flushing || s.queue == []
    case AttemptSucceeds(b) => Writing(s, b)
    case AttemptFails(b, jitter) => Writing(s, b) && s.bodies[b].attempt + 1 < MAX_ATTEMPTS && 0.0 <= jitter < 1.0
    case GiveUp(b) => Writing(s, b) && s.bodies[b].attempt + 1 >= MAX_ATTEMPTS
    case EndFlush(b) => b < |s.bodies| && s.bodies[b].rest == []
  }

  function Next(s: State, step: Step): State
    requires Enabled(s, step)
  {
    match step
    case Enqueue(e) => s.(queue := s.queue + [e], enqueued := s.enqueued + [e])
    case StartFlush => s.(flushing := true, queue := [], bodies := s.bodies + [FlushBody(s.queue, 0)])
    case RefusedFlush => s
    case AttemptSucceeds(b) =>
      var e := s.bodies[b].rest[0];
      s.(bodies := s.bodies[b := FlushBody(s.bodies[b].rest[1..], 0)],
         failed := s.failed - {e.auditId},
         acked := s.acked + [e],
         writes := s.writes + [true])
    case AttemptFails(b, jitter) =>
      var FlushBody(rest, attempt) := s.bodies[b];
      var id := rest[0].auditId;
      s.(bodies := s.bodies[b := FlushBody(rest, attempt + 1)],
         failed := s.failed[id := RetryCount(s.failed, id) + 1],
         writes := s.writes + [false],
         sleptMs := s.sleptMs + BackoffMs(attempt, jitter))
    case GiveUp(b) =>
      var e := s.bodies[b].rest[0];
      s.(bodies := s.bodies[b := FlushBody(s.bodies[b].rest[1..], 0)],
         failed := s.failed[e.auditId := RetryCount(s.failed, e.auditId) + 1],
         queue := s.queue + [e],
         requeued := s.requeued + [e],
         writes := s.writes + [false])
    case EndFlush(b) => s.(flushing := false, bodies := s.bodies[..b] + s.bodies[b + 1..])
  }

  /** The state after a run, or Stuck when one of its steps was not enabled. */
  function Exec(s: State, steps: seq<Step>): Reach<State>
  {
    if steps == [] then
      Reached(s)
    else
      match Exec(s, steps[..|steps| - 1])
      case Stuck => Stuck
      case Reached(t) =>
        var last := steps[|steps| - 1];
        if Enabled(t, last) then Reached(Next(t, last)) else Stuck
  }

  lemma ExecOneMore(s: State, steps: seq<Step>, step: Step)
    requires Exec(s, steps).Reached? && Enabled(Exec(s, steps).state, step)
    ensures Exec(s, steps + [step]) == Reached(Next(Exec(s, steps).state, step))
  {
    assert (steps + [step])[..|steps|] == steps;
  }

  lemma {:induction false} ExecPrefix(s: State, a: seq<Step>, b: seq<Step>)
    requires Exec(s, a + b).Reached?
    ensures Exec(s, a).Reached?
    decreases |b|
  {
    if b == [] {
      assert a + b == a;
    } else {
      assert (a + b)[..|a + b| - 1] == a + b[..|b| - 1];
      ExecPrefix(s, a, b[..|b| - 1]);
    }
  }

  lemma {:induction false} ExecTwice(s: State, a: seq<Step>, b: seq<Step>)
    requires Exec(s, a).Reached?
    ensures Exec(s, a + b) == Exec(Exec(s, a).state, b)
    decreases |b|
  {
    if b == [] {
      assert a + b == a;
    } else {
      assert (a + b)[..|a + b| - 1] == a + b[..|b| - 1];
      ExecTwice(s, a, b[..|b| - 1]);
    }
  }

  /** What a failed attempt that will be retried changes. */
  lemma RetryChanges(s: State, jitter: real)
    requires |s.bodies| == 1 && s.bodies[0].rest != [] && s.bodies[0].attempt + 1 < MAX_ATTEMPTS && 0.0 <= jitter < 1.0
    ensures Enabled(s, AttemptFails(0, jitter))
    ensures var b, t := s.bodies[0], Next(s, AttemptFails(0, jitter));
            var id := b.rest[0].auditId;
            && t.bodies == [FlushBody(b.rest, b.attempt + 1)]
            && t.failed == s.failed[id := RetryCount(s.failed, id) + 1]
            && t.writes == s.writes + [false] && t.sleptMs == s.sleptMs + BackoffMs(b.attempt, jitter)
            && t.queue == s.queue && t.flushing == s.flushing && t.enqueued == s.enqueued
  {
  }

  lemma FirstBackoffs(first: real, second: real)
    ensures BackoffMs(0, first) == 100.0 * first && BackoffMs(1, second) == 200.0 * second
  {
    assert Pow2(0) == 1 && Pow2(1) == 2;
  }

  /** The state after an entry's first two attempts have failed. */
  lemma TwoFailures(s: State, first: real, second: real) returns (t: State)
    requires |s.bodies| == 1 && s.bodies[0].rest != [] && s.bodies[0].attempt == 0
    requires 0.0 <= first < 1.0 && 0.0 <= second < 1.0
    ensures Exec(s, [AttemptFails(0, first), AttemptFails(0, second)]) == Reached(t)
    ensures t.bodies == [FlushBody(s.bodies[0].rest, 2)] && t.queue == s.queue
    ensures var id := s.bodies[0].rest[0].auditId; RetryCount(t.failed, id) == RetryCount(s.failed, id) + 2
    ensures t.sleptMs == s.sleptMs + 100.0 * first + 200.0 * second
  {
    var a, b := AttemptFails(0, first), AttemptFails(0, second);
    RetryChanges(s, first);
    var u := Next(s, a);
    RetryChanges(u, second);
    t := Next(u, b);
    ExecOneMore(s, [], a);
    assert [] + [a] == [a];
    ExecOneMore(s, [a], b);
    assert [a] + [b] == [a, b];
    FirstBackoffs(first, second);
  }

  /** The retries of one entry: it waits 100 ms after the first failure and 200 ms after the second, each times the
      random factor drawn; it is attempted a third time and no more, and then pushed back without a wait. */
  lemma RetriesOfOneEntry(s: State, first: real, second: real) returns (t: State)
    requires |s.bodies| == 1 && s.bodies[0].rest != [] && s.bodies[0].attempt == 0
    requires 0.0 <= first < 1.0 && 0.0 <= second < 1.0
    ensures Exec(s, [AttemptFails(0, first), AttemptFails(0, second)]) == Reached(t)
    ensures t.sleptMs == s.sleptMs + 100.0 * first + 200.0 * second
    ensures !Enabled(t, AttemptFails(0, first)) && Enabled(t, AttemptSucceeds(0)) && Enabled(t, GiveUp(0))
    ensures var u, e := Next(t, GiveUp(0)), s.bodies[0].rest[0];
            && u.sleptMs == t.sleptMs && u.queue == s.queue + [e]
            && RetryCount(u.failed, e.auditId) == RetryCount(s.failed, e.auditId) + 3
  {
    t := TwoFailures(s, first, second);
  }

  /** The entries held by flush bodies. */
  function InFlight(bodies: seq<FlushBody>): seq<AuditEntry> {
    if |bodies| == 0 then []
    else if |bodies| == 1 then bodies[0].rest
    else InFlight(bodies[..|bodies| - 1]) + bodies[|bodies| - 1].rest
  }

  function Live(s: State): multiset<AuditEntry> {
    multiset(s.queue) + multiset(InFlight(s.bodies))
  }

  // ---------------------------------------------------------------- what every step keeps

  /** At most one flush body runs, and the guard flag tells exactly whether one does. */
  ghost predicate OneBody(s: State) {
    && |s.bodies| <= 1
    && (s.flushing <==> s.bodies != [])
    && (s.bodies != [] ==> s.bodies[0].attempt < MAX_ATTEMPTS && (s.bodies[0].rest == [] ==> s.bodies[0].attempt == 0))
  }

  /** Nothing enqueued is lost or duplicated. */
  ghost predicate Conserved(s: State) {
    multiset(s.enqueued) == Live(s) + multiset(s.acked)
  }

  /** Every id with a retry count belongs to an entry that is still queued or in flight. */
  ghost predicate FailuresLive(s: State) {
    forall id <- s.failed :: s.failed[id] > 0 && exists e <- Live(s) :: e.auditId == id
  }

  ghost predicate Inv(s: State) {
    OneBody(s) && Conserved(s) && FailuresLive(s)
  }

  /** A flush body drops exactly its head when it settles it. */
  lemma HeadAndRest(rest: seq<AuditEntry>)
    requires rest != []
    ensures multiset(rest) == multiset{rest[0]} + multiset(rest[1..])
  {
    assert rest == [rest[0]] + rest[1..];
  }

  /** Retry counts stay with held entries when nothing leaves and at most one held entry gains a count. */
  lemma FailuresFollow(s: State, t: State, e: AuditEntry)
    requires FailuresLive(s) && Live(s) <= Live(t) && e in Live(t)
    requires forall id <- t.failed :: t.failed[id] > 0 && (id in s.failed || id == e.auditId)
    ensures FailuresLive(t)
  {
    forall id <- t.failed
      ensures exists f <- Live(t) :: f.auditId == id
    {
      if id == e.auditId {
        assert e in Live(t);
      } else {
        var f :| f in Live(s) && f.auditId == id;
        assert f in Live(t);
      }
    }
  }

  /** A failed attempt that will be retried leaves its entry at the head of the batch. */
  lemma RetryKeepsInv(s: State, step: Step)
    requires Inv(s) && Enabled(s, step) && step.AttemptFails?
    ensures Inv(Next(s, step)) && Live(Next(s, step)) == Live(s)
  {
    FailuresFollow(s, Next(s, step), s.bodies[0].rest[0]);
  }

  /** The last failed attempt moves its entry from the batch back to the queue. */
  lemma GiveUpKeepsInv(s: State, step: Step)
    requires Inv(s) && Enabled(s, step) && step.GiveUp?
    ensures Inv(Next(s, step)) && Live(Next(s, step)) == Live(s)
  {
    var t, e := Next(s, step), s.bodies[0].rest[0];
    assert Live(t) == Live(s) && e in Live(s) by {
      HeadAndRest(s.bodies[0].rest);
      assert multiset(t.queue) == multiset(s.queue) + multiset{e};
    }
    FailuresFollow(s, t, e);
  }

  /** A successful write moves its entry from the queue's hands to the acknowledged ones. */
  lemma SuccessKeepsInv(s: State, step: Step)
    requires Inv(s) && Enabled(s, step) && step.AttemptSucceeds?
    ensures Inv(Next(s, step)) && Live(Next(s, step)) + multiset{s.bodies[0].rest[0]} == Live(s)
  {
    var t := Next(s, step);
    HeadAndRest(s.bodies[0].rest);
    forall id <- t.failed
      ensures exists e <- Live(t) :: e.auditId == id
    {
      var e :| e in Live(s) && e.auditId == id;
      assert e in Live(t);
    }
  }

  /** Starting, refusing and ending a flush move entries between the queue and the batch at most. */
  lemma FlushKeepsInv(s: State, step: Step)
    requires Inv(s) && Enabled(s, step) && (step.StartFlush? || step.RefusedFlush? || step.EndFlush?)
    ensures Inv(Next(s, step)) && Live(Next(s, step)) == Live(s)
  {
  }

  lemma EnqueueKeepsInv(s: State, step: Step)
    requires Inv(s) && step.Enqueue?
    ensures Inv(Next(s, step)) && Live(Next(s, step)) == Live(s) + multiset{step.entry}
  {
    var t := Next(s, step);
    assert Live(t) == Live(s) + multiset{step.entry};
    FailuresFollow(s, t, step.entry);
  }

  lemma InvStep(s: State, step: Step)
    requires Inv(s) && Enabled(s, step)
    ensures Inv(Next(s, step))
    ensures Live(Next(s, step)) ==
            match step
            case Enqueue(e) => Live(s) + multiset{e}
            case AttemptSucceeds(_) => Live(s) - multiset{s.bodies[0].rest[0]}
            case _ => Live(s)
  {
    match step {
      case Enqueue(_) => EnqueueKeepsInv(s, step);
      case AttemptSucceeds(_) => SuccessKeepsInv(s, step);
      case AttemptFails(_, _) => RetryKeepsInv(s, step);
      case GiveUp(_) => GiveUpKeepsInv(s, step);
      case _ => FlushKeepsInv(s, step);
    }
  }

  /** In every reachable state, whatever the overlap of enqueues, flushes and failing writes: at most one flush
      body is active, exactly the enqueued entries are queued, in flight or acknowledged, and retry counts
      belong to entries still held. */
  lemma {:induction false} EveryRunKeepsInv(steps: seq<Step>, t: State)
    requires Exec(Init(), steps) == Reached(t)
    ensures Inv(t)
    decreases |steps|
  {
    if steps != [] {
      var s := Exec(Init(), steps[..|steps| - 1]).state;
      EveryRunKeepsInv(steps[..|steps| - 1], s);
      InvStep(s, steps[|steps| - 1]);
    }
  }
}
