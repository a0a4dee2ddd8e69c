/** The audit queue as the object of the source, with its loops, run against a world that decides everything the
    queue does not: the result of each write, the jitter of each backoff and what other callers do at each await. */
module AuditStore {
  import opened Common
  import opened AuditQueueMachine
  import opened AuditQueueRuns
  import opened AuditFlush
  import Drains = AuditDrain

  /** A call made by another task while the queue awaits. */
  datatype Call = EnqueueCall(entry: AuditEntry) | FlushCall

  type Jitter = r: real | 0.0 <= r < 1.0

  /** writeOk(i): did the i-th write return ok; jitter(i): the random factor drawn after it; calls(k): what other
      tasks call during the k-th await. */
  datatype World = World(writeOk: nat -> bool, jitter: nat -> Jitter, calls: nat -> seq<Call>)

  /** A sequence of entries continued by those the first n calls enqueue. */
  function After(entries: seq<AuditEntry>, calls: seq<Call>, n: nat): seq<AuditEntry>
    requires n <= |calls|
  {
    if n == 0 then entries
    else
      match calls[n - 1]
      case EnqueueCall(e) => After(entries, calls, n - 1) + [e]
      case FlushCall => After(entries, calls, n - 1)
  }

  /** The state of the queue after another task's call. A flush is refused while one is active. */
  function Received(s: State, call: Call): State {
    match call
    case EnqueueCall(e) => s.(queue := s.queue + [e], enqueued := s.enqueued + [e])
    case FlushCall => s
  }

  function ReceivedAll(s: State, calls: seq<Call>, n: nat): State
    requires n <= |calls|
  {
    if n == 0 then s else Received(ReceivedAll(s, calls, n - 1), calls[n - 1])
  }

  /** Other tasks' calls only append to the queue and the history. */
  lemma {:induction false} ReceivedOnlyAppends(s: State, calls: seq<Call>, n: nat)
    requires n <= |calls|
    ensures ReceivedAll(s, calls, n) == s.(queue := After(s.queue, calls, n), enqueued := After(s.enqueued, calls, n))
  {
    if n != 0 {
      ReceivedOnlyAppends(s, calls, n - 1);
    }
  }

  /** A history continued by what other tasks enqueue from the a-th await up to but not including the b-th. */
  function Continued(history: seq<AuditEntry>, world: World, a: nat, b: nat): seq<AuditEntry>
    requires a <= b
  {
    if a == b then history
    else After(Continued(history, world, a, b - 1), world.calls(b - 1), |world.calls(b - 1)|)
  }

  lemma {:induction false} ContinuedOn(history: seq<AuditEntry>, world: World, a: nat, b: nat, c: nat)
    requires a <= b <= c
    ensures Continued(Continued(history, world, a, b), world, b, c) == Continued(history, world, a, c)
  {
    if b < c {
      ContinuedOn(history, world, a, b, c - 1);
    }
  }

  /** No other task calls flush. */
  ghost predicate NoOtherFlush(world: World) {
    forall k: nat :: FlushCall !in world.calls(k)
  }

  /** No other task calls the queue at all. */
  ghost predicate Quiet(world: World) {
    forall k: nat :: world.calls(k) == []
  }

  /** In a quiet world nothing arrives. */
  lemma {:induction false} QuietNothingArrives(history: seq<AuditEntry>, world: World, a: nat, b: nat)
    requires a <= b && Quiet(world)
    ensures Continued(history, world, a, b) == history
  {
    if a < b {
      QuietNothingArrives(history, world, a, b - 1);
    }
  }

  /** A point in a queue's life. */
  datatype Moment = Moment(trace: seq<Step>, awaits: nat, state: State)

  /** From one moment to another with no flush active at either, the queue made this many flushes: arrivals are kept,
      and everything queued all along failed three more attempts in each. */
  ghost predicate Flushes(world: World, a: Moment, b: Moment, n: nat) {
    && a.trace <= b.trace && Starts(b.trace) == Starts(a.trace) + n
    && a.awaits <= b.awaits && b.state.enqueued == Continued(a.state.enqueued, world, a.awaits, b.awaits)
    && AtRest(a.state) && AtRest(b.state) && Grown(a.state, b.state)
    && (DistinctIds(b.state.enqueued) ==> RoundsFailed(a.state, b.state, n))
  }

  lemma FlushesAdd(world: World, a: Moment, b: Moment, c: Moment, m: nat, n: nat)
    requires Flushes(world, a, b, m) && Flushes(world, b, c, n)
    ensures Flushes(world, a, c, m + n)
  {
    ContinuedOn(a.state.enqueued, world, a.awaits, b.awaits, c.awaits);
    if DistinctIds(c.state.enqueued) {
      assert b.state.enqueued == c.state.enqueued[..|b.state.enqueued|];
      RoundsAdd(a.state, b.state, c.state, m, n);
    }
  }

  /** In between, the run is a run of one drain from one number of rounds to another. */
  ghost predicate Rounds(a: State, b: State, run: seq<Drains.Step>, from: nat, to: nat) {
    Drains.ExecAlone(Drains.State(a, Drains.OneDrain(0, from)), run, 0) ==
    Reached(Drains.State(b, Drains.OneDrain(0, to)))
  }

  lemma RoundsInTurn(
      a: State, b: State, c: State, run: seq<Drains.Step>, round: seq<Drains.Step>, m: nat, n: nat, k: nat)
    requires Rounds(a, b, run, m, n) && Rounds(b, c, round, n, k)
    ensures Rounds(a, c, run + round, m, k)
  {
    Drains.AloneTwice(Drains.State(a, Drains.OneDrain(0, m)), run, round, 0);
  }

  /** Arrivals come after the history there was. */
  lemma {:induction false} AfterGrows(entries: seq<AuditEntry>, calls: seq<Call>, n: nat)
    requires n <= |calls|
    ensures entries <= After(entries, calls, n)
  {
    if n != 0 {
      AfterGrows(entries, calls, n - 1);
    }
  }

  /** The recorded results of the first n writes are the ones the world gave. */
  ghost predicate Wrote(world: World, results: seq<bool>, n: nat) {
    |results| == n && forall i :: 0 <= i < n ==> results[i] == world.writeOk(i)
  }

  lemma WroteMore(world: World, results: seq<bool>, n: nat, ok: bool)
    requires Wrote(world, results, n) && ok == world.writeOk(n)
    ensures Wrote(world, results + [ok], n + 1)
  {
  }

  class AuditQueue {
    var queue: seq<AuditEntry>
    var isFlushing: bool
    var failedEntries: map<string, nat>
    const world: World
    var awaits: nat
    var writes: nat
    var sleptMs: real
    /** The run so far and the state it reaches. */
    ghost var trace: seq<Step>
    ghost var state: State

    /** The fields are those of the state the trace reaches from an empty queue, and the recorded results are
        the ones the world gave. */
    ghost predicate Valid()
      reads this
    {
      && Exec(Init(), trace) == Reached(state)
      && state.queue == queue && state.flushing == isFlushing && state.failed == failedEntries
      && state.sleptMs == sleptMs
      && Wrote(world, state.writes, writes)
    }

    ghost function Now(): Moment
      reads this
    {
      Moment(trace, awaits, state)
    }

    constructor (world: World)
      ensures Valid() && this.world == world
      ensures queue == [] && !isFlushing && failedEntries == map[]
    {
      this.world := world;
      queue, isFlushing, failedEntries := [], false, map[];
      awaits, writes, sleptMs := 0, 0, 0.0;
      trace, state := [], Init();
    }

    ghost method Record(step: Step)
      requires Exec(Init(), trace) == Reached(state) && Enabled(state, step)
      modifies `trace, `state
      ensures trace == old(trace) + [step] && state == Next(old(state), step)
      ensures Exec(Init(), trace) == Reached(state)
    {
      ExecOneMore(Init(), trace, step);
      state := Next(state, step);
      trace := trace + [step];
    }

    method Enqueue(entry: AuditEntry)
      requires Valid()
      modifies `queue, `trace, `state
      ensures Valid()
      ensures queue == old(queue) + [entry]
      ensures trace == old(trace) + [Step.Enqueue(entry)] && state == Next(old(state), Step.Enqueue(entry))
    {
      queue := queue + [entry];
      Record(Step.Enqueue(entry));
    }

    /** Since the given trace the queue has neither started nor ended a flush. */
    ghost predicate NoFlushSince(before: seq<Step>)
      reads `trace
    {
      before <= trace && AllMiddle(trace, |before|, |trace|)
    }

    /** Since the given moment the queue has neither started nor ended a flush, and what was enqueued is what
        other tasks enqueued at the awaits in between. */
    ghost predicate MovedOn(m: Moment)
      reads this
    {
      && NoFlushSince(m.trace)
      && m.awaits <= awaits && state.enqueued == Continued(m.state.enqueued, world, m.awaits, awaits)
    }

    /** Another task's call. */
    method Receive(call: Call, ghost before: seq<Step>)
      requires Valid() && NoFlushSince(before) && (isFlushing || call.EnqueueCall?)
      modifies `queue, `trace, `state
      ensures Valid() && NoFlushSince(before)
      ensures state == Received(old(state), call)
    {
      match call {
        case EnqueueCall(e) => Enqueue(e);
        case FlushCall => Record(RefusedFlush);
      }
    }

    /** The calls of other tasks, one after the other. */
    method ReceiveEach(calls: seq<Call>, ghost before: seq<Step>)
      requires Valid() && NoFlushSince(before) && (isFlushing || FlushCall !in calls)
      modifies `queue, `trace, `state
      ensures Valid() && NoFlushSince(before)
      ensures state == ReceivedAll(old(state), calls, |calls|)
    {
      for i := 0 to |calls|
        invariant Valid() && NoFlushSince(before)
        invariant state == ReceivedAll(old(state), calls, i)
      {
        Receive(calls[i], before);
      }
    }

    /** Giving up control: the other tasks' calls run, each in full, before this one continues. */
    method Await(ghost m: Moment)
      requires Valid() && MovedOn(m)
      requires isFlushing || NoOtherFlush(world)
      modifies `queue, `awaits, `trace, `state
      ensures Valid() && MovedOn(m)
      ensures awaits == old(awaits) + 1
      ensures var calls := world.calls(old(awaits));
              state == old(state).(queue := After(old(queue), calls, |calls|),
                                   enqueued := After(old(state.enqueued), calls, |calls|))
    {
      var calls := world.calls(awaits);
      ReceiveEach(calls, m.trace);
      ReceivedOnlyAppends(old(state), calls, |calls|);
      awaits := awaits + 1;
    }

    /** The write failed and will be retried: count it and choose the backoff. */
    method BackOff(entry: AuditEntry, attempt: nat)
      requires Valid() && |state.bodies| == 1 && !world.writeOk(writes)
      requires 1 <= attempt < MAX_ATTEMPTS && state.bodies[0].attempt == attempt - 1
      requires state.bodies[0].rest != [] && state.bodies[0].rest[0] == entry
      modifies `writes, `failedEntries, `sleptMs, `trace, `state
      ensures Valid()
      ensures var step := AttemptFails(0, world.jitter(writes));
              trace == old(trace) + [step] && Enabled(old(state), step) && state == Next(old(state), step)
      ensures state.bodies == [FlushBody(old(state.bodies[0].rest), attempt)] && state.enqueued == old(state.enqueued)
    {
      WroteMore(world, state.writes, writes, false);
      RetryChanges(state, world.jitter(writes + 1));
      writes := writes + 1;
      failedEntries := failedEntries[entry.auditId := RetryCount(failedEntries, entry.auditId) + 1];
      var jitter := world.jitter(writes);
      sleptMs := sleptMs + BackoffMs(attempt - 1, jitter);
      Record(AttemptFails(0, jitter));
    }

    /** The last attempt failed: count it and push the entry back. */
    method PushBack(entry: AuditEntry)
      requires Valid() && |state.bodies| == 1 && !world.writeOk(writes)
      requires state.bodies[0].attempt == MAX_ATTEMPTS - 1
      requires state.bodies[0].rest != [] && state.bodies[0].rest[0] == entry
      modifies `queue, `writes, `failedEntries, `trace, `state
      ensures Valid()
      ensures trace == old(trace) + [GiveUp(0)] && state == Next(old(state), GiveUp(0))
      ensures state.bodies == [FlushBody(old(state.bodies[0].rest)[1..], 0)] && state.enqueued == old(state.enqueued)
    {
      WroteMore(world, state.writes, writes, false);
      writes := writes + 1;
      failedEntries := failedEntries[entry.auditId := RetryCount(failedEntries, entry.auditId) + 1];
      queue := queue + [entry];
      Record(GiveUp(0));
    }

    /** The write returned ok: forget the entry's failures. */
    method Acknowledge(entry: AuditEntry)
      requires Valid() && |state.bodies| == 1 && world.writeOk(writes)
      requires state.bodies[0].rest != [] && state.bodies[0].rest[0] == entry
      modifies `writes, `failedEntries, `trace, `state
      ensures Valid()
      ensures trace == old(trace) + [AttemptSucceeds(0)] && state == Next(old(state), AttemptSucceeds(0))
      ensures state.bodies == [FlushBody(old(state.bodies[0].rest)[1..], 0)] && state.enqueued == old(state.enqueued)
    {
      WroteMore(world, state.writes, writes, true);
      writes := writes + 1;
      failedEntries := failedEntries - {entry.auditId};
      Record(AttemptSucceeds(0));
    }

    /** Up to three attempts at writing one entry, with exponential backoff; an entry that fails them all is
        pushed back on the queue. */
    method WriteWithRetry(entry: AuditEntry, ghost m: Moment)
      requires Valid() && MovedOn(m) && isFlushing
      requires |state.bodies| == 1 && state.bodies[0].attempt == 0
      requires state.bodies[0].rest != [] && state.bodies[0].rest[0] == entry
      modifies this
      ensures Valid() && MovedOn(m) && isFlushing
      ensures state.bodies == [FlushBody(old(state.bodies[0].rest)[1..], 0)]
    {
      ghost var rest := state.bodies[0].rest;
      var attempt := 0;
      while attempt < MAX_ATTEMPTS
        invariant attempt <= MAX_ATTEMPTS
        invariant Valid() && MovedOn(m) && isFlushing
        invariant state.bodies == [if attempt < MAX_ATTEMPTS then FlushBody(rest, attempt) else FlushBody(rest[1..], 0)]
      {
        Await(m);
        if world.writeOk(writes) {
          Acknowledge(entry);
          return;
        }
        attempt := attempt + 1;
        if attempt < MAX_ATTEMPTS {
          BackOff(entry, attempt);
          Await(m);
        } else {
          PushBack(entry);
        }
      }
    }

    /** The loop of a flush: the snapshot's entries one after the other. */
    method WriteAll(entriesToProcess: seq<AuditEntry>, ghost m: Moment)
      requires Valid() && MovedOn(m) && isFlushing && state.bodies == [FlushBody(entriesToProcess, 0)]
      modifies this
      ensures Valid() && MovedOn(m) && isFlushing && state.bodies == [FlushBody([], 0)]
    {
      for i := 0 to |entriesToProcess|
        invariant Valid() && MovedOn(m) && isFlushing
        invariant state.bodies == [FlushBody(entriesToProcess[i..], 0)]
      {
        WriteWithRetry(entriesToProcess[i], m);
        Await(m);
      }
    }

    /** Flush the queue, unless a flush is active or there is nothing to do. */
    method Flush()
      requires Valid()
      modifies this
      ensures Valid()
      ensures old(isFlushing || queue == []) ==>
                && trace == old(trace) + [RefusedFlush] && state == old(state)
                && unchanged(`queue, `isFlushing, `failedEntries, `awaits, `writes, `sleptMs)
      ensures !old(isFlushing || queue == []) ==>
                && !isFlushing && old(trace) <= trace && FlushFrom(trace, |old(trace)|) && Flushed(old(state), state)
      ensures old(awaits) <= awaits && state.enqueued == Continued(old(state.enqueued), world, old(awaits), awaits)
    {
      if isFlushing || queue == [] {
        Record(RefusedFlush);
        return;
      }
      EveryRunKeepsInv(trace, state);
      isFlushing := true;
      var entriesToProcess := queue;
      queue := [];
      Record(StartFlush);
      ghost var m := Moment(trace, awaits, state);
      WriteAll(entriesToProcess, m);
      isFlushing := false;
      Record(EndFlush(0));
      FlushEffect(old(trace), old(state), trace, state);
    }

    /** How many entries wait, and how many have a retry count. */
    method GetMetrics() returns (pending: nat, failed: nat)
      requires Valid()
      ensures pending == |queue| && failed == |failedEntries|
      ensures !isFlushing ==> failed <= pending
      ensures failed <= pending + |InFlight(state.bodies)|
    {
      FailedWithinHeld(trace, state);
      return |queue|, |failedEntries|;
    }

    /** One round of a drain that finds no flush active: a flush that starts. */
    method FlushOnce(ghost rounds: nat) returns (ghost run: seq<Drains.Step>)
      requires Valid() && !isFlushing && queue != [] && rounds < Drains.MAX_ROUNDS
      modifies this
      ensures Valid() && !isFlushing
      ensures Flushes(world, old(Now()), Now(), 1)
      ensures Rounds(old(state), state, run, rounds, rounds + 1)
    {
      Flush();
      FlushStartsOnce(old(trace), trace, trace);
      EveryRunKeepsInv(old(trace), old(state));
      EveryRunKeepsInv(trace, state);
      if DistinctIds(state.enqueued) {
        FlushCounts(old(trace), old(state), trace, state);
      }
      ghost var middle, s, last := FlushParts(old(trace), old(state), trace, state);
      Drains.RoundIsFlush(old(state), middle, s, last, 0, rounds);
      run := Drains.RoundSteps(0, rounds, middle, last);
    }

    /** The pause between two rounds of a drain. */
    method Pause(ghost rounds: nat) returns (ghost run: seq<Drains.Step>)
      requires Valid() && !isFlushing && NoOtherFlush(world)
      modifies `queue, `awaits, `trace, `state
      ensures Valid()
      ensures Flushes(world, old(Now()), Now(), 0)
      ensures Rounds(old(state), state, run, rounds, rounds)
    {
      Await(Moment(trace, awaits, state));
      NoStarts(trace, |old(trace)|);
      assert trace[..|old(trace)|] == old(trace);
      EveryRunKeepsInv(old(trace), old(state));
      EveryRunKeepsInv(trace, state);
      AfterGrows(old(state.enqueued), world.calls(old(awaits)), |world.calls(old(awaits))|);
      if DistinctIds(state.enqueued) {
        NoRoundCounts(old(state), state);
      }
      ghost var more := trace[|old(trace)|..];
      assert trace == old(trace) + more;
      ExecTwice(Init(), old(trace), more);
      Drains.LiftedMiddle(Drains.State(old(state), Drains.OneDrain(0, rounds)), more, state, 0);
      run := Drains.Lifted(more);
    }

    /** A round of a drain and the pause after it. */
    method Round(ghost rounds: nat) returns (ghost run: seq<Drains.Step>)
      requires Valid() && !isFlushing && queue != [] && rounds < Drains.MAX_ROUNDS && NoOtherFlush(world)
      modifies this
      ensures Valid() && !isFlushing
      ensures Flushes(world, old(Now()), Now(), 1)
      ensures Rounds(old(state), state, run, rounds, rounds + 1)
    {
      run := FlushOnce(rounds);
      ghost var flushed := Now();
      ghost var pause := Pause(rounds + 1);
      FlushesAdd(world, old(Now()), flushed, Now(), 1, 0);
      RoundsInTurn(old(state), flushed.state, state, run, pause, rounds, rounds + 1, rounds + 1);
      run := run + pause;
    }

    /** Flush until the queue is empty, at most ten times. With no other flush at the call or during the drain, what
        it does is a run of one drain. */
    method Drain() returns (ghost run: seq<Drains.Step>, ghost rounds: nat)
      requires Valid() && !isFlushing
      requires NoOtherFlush(world)
      modifies this
      ensures Valid() && !isFlushing && old(trace) <= trace
      ensures rounds <= 10
      ensures Drains.ExecAlone(Drains.State(old(state), map[]), run, 0) ==
              Reached(Drains.State(state, map[0 := Drains.Returned(rounds)]))
      ensures Starts(trace) == old(Starts(trace)) + rounds
      ensures queue != [] ==> rounds == 10
      ensures DistinctIds(state.enqueued) ==> forall e <- queue :: e in old(queue) ==>
                RetryCount(failedEntries, e.auditId) == RetryCount(old(failedEntries), e.auditId) + 30
      ensures queue == [] ==> multiset(state.acked) == multiset(state.enqueued)
      ensures old(awaits) <= awaits && state.enqueued == Continued(old(state.enqueued), world, old(awaits), awaits)
      ensures DistinctIds(state.enqueued) ==> RoundsFailed(old(state), state, rounds)
      ensures Quiet(world) ==> state.enqueued == old(state.enqueued)
    {
      var attempts := 0;
      run := [];
      EveryRunKeepsInv(trace, state);
      while queue != [] && attempts < Drains.MAX_ROUNDS
        invariant attempts <= Drains.MAX_ROUNDS
        invariant Valid() && !isFlushing
        invariant Flushes(world, old(Now()), Now(), attempts)
        invariant Rounds(old(state), state, run, 0, attempts)
        decreases Drains.MAX_ROUNDS - attempts
      {
        ghost var before := Now();
        ghost var round := Round(attempts);
        FlushesAdd(world, old(Now()), before, Now(), attempts, 1);
        RoundsInTurn(old(state), before.state, state, run, round, 0, attempts, attempts + 1);
        run := run + round;
        attempts := attempts + 1;
      }
      EveryRunKeepsInv(trace, state);
      Drains.AloneReturns(Drains.State(old(state), map[]), run, state, 0, attempts);
      if Quiet(world) {
        QuietNothingArrives(old(state.enqueued), world, old(awaits), awaits);
      }
      run, rounds := run + [Drains.Entry(0, attempts)], attempts;
    }
  }
}
