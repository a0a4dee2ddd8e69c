/**
 Drains as part of a run. A drain is a task of its own: it tests the queue, calls flush, waits for it and pauses, while
 other tasks enqueue, flush and drain. What it does between two waits is one step.
 */
module AuditDrain {
  import opened Common
  import Queue = AuditQueueMachine
  import opened AuditFlush

  const MAX_ROUNDS: nat := 10

  /** Where a drain stands: in the pause after some rounds, waiting for the flush that its next round started, or
      done. */
  datatype Drain = Pausing(rounds: nat) | Flushing(rounds: nat) | Returned(rounds: nat)

  datatype State = State(queue: Queue.State, drains: map<nat, Drain>)

  /** QueueStep is a step of the queue or of a task other than a drain; the other two run a drain up to its next
      wait. */
  datatype Step = QueueStep(step: Queue.Step) | Call(id: nat) | Resume(id: nat)

  /** The loop test of a drain and, when it passes, the call of flush, which is refused or starts. */
  function Round(s: State, id: nat, rounds: nat): State {
    if s.queue.queue == [] || rounds >= MAX_ROUNDS then s.(drains := s.drains[id := Returned(rounds)])
    else if s.queue.flushing then s.(drains := s.drains[id := Pausing(rounds + 1)])
    else State(Queue.Next(s.queue, Queue.StartFlush), s.drains[id := Flushing(rounds)])
  }

  /** The end of a flush ends the round of the drain that started it, if a drain did. */
  function FlushEnded(drains: map<nat, Drain>): map<nat, Drain> {
    map id <- drains :: match drains[id] case Flushing(rounds) => Pausing(rounds + 1) case d => d
  }

  predicate Enabled(s: State, step: Step) {
    match step
    case QueueStep(q) => Queue.Enabled(s.queue, q)
    case Call(id) => id !in s.drains
    case Resume(id) => id in s.drains && s.drains[id].Pausing?
  }

  function Next(s: State, step: Step): State
    requires Enabled(s, step)
  {
    match step
    case QueueStep(q) => State(Queue.Next(s.queue, q), if q.EndFlush? then FlushEnded(s.drains) else s.drains)
    case Call(id) => Round(s, id, 0)
    case Resume(id) => Round(s, id, s.drains[id].rounds)
  }

  function Exec(s: State, steps: seq<Step>): Reach<State> {
    if steps == [] then
      Reached(s)
    else
      match Exec(s, steps[..|steps| - 1])
      case Stuck => Stuck
      case Reached(t) =>
        var last := steps[|steps| - 1];
        if Enabled(t, last) then Reached(Next(t, last)) else Stuck
  }

  /** A task other than the given drain starts a flush. */
  predicate OtherStarts(s: State, step: Step, id: nat)
    requires Enabled(s, step)
  {
    !s.queue.flushing && Next(s, step).queue.flushing && step != Call(id) && step != Resume(id)
  }

  /** A run in which no task other than the given drain starts a flush; a flush already active may go on. */
  function ExecAlone(s: State, steps: seq<Step>, id: nat): Reach<State> {
    if steps == [] then
      Reached(s)
    else
      match ExecAlone(s, steps[..|steps| - 1], id)
      case Stuck => Stuck
      case Reached(t) =>
        var last := steps[|steps| - 1];
        if Enabled(t, last) && !OtherStarts(t, last, id) then Reached(Next(t, last)) else Stuck
  }

  lemma {:induction false} AloneIsRun(s: State, steps: seq<Step>, id: nat)
    requires ExecAlone(s, steps, id).Reached?
    ensures Exec(s, steps) == ExecAlone(s, steps, id)
    decreases |steps|
  {
    if steps != [] {
      AloneIsRun(s, steps[..|steps| - 1], id);
    }
  }

  // ---------------------------------------------------------------- what every step keeps

  predicate WithinRounds(d: Drain) {
    if d.Flushing? then d.rounds < MAX_ROUNDS else d.rounds <= MAX_ROUNDS
  }

  /** No drain makes more than ten rounds, and at most one waits for a flush of its own, which is then the active
      one. */
  ghost predicate DrainsOk(drains: map<nat, Drain>, flushing: bool) {
    && (forall id <- drains :: WithinRounds(drains[id]) && (drains[id].Flushing? ==> flushing))
    && (forall i <- drains, j <- drains :: drains[i].Flushing? && drains[j].Flushing? ==> i == j)
  }

  ghost predicate Inv(s: State) {
    Queue.Inv(s.queue) && DrainsOk(s.drains, s.queue.flushing)
  }

  lemma FlushEndedOk(drains: map<nat, Drain>)
    requires DrainsOk(drains, true)
    ensures DrainsOk(FlushEnded(drains), false)
  {
  }

  lemma QueueStepKeepsInv(s: State, q: Queue.Step)
    requires Inv(s) && Queue.Enabled(s.queue, q)
    ensures Inv(Next(s, QueueStep(q)))
  {
    Queue.InvStep(s.queue, q);
    if q.EndFlush? {
      FlushEndedOk(s.drains);
    }
  }

  lemma DrainMoves(drains: map<nat, Drain>, flushing: bool, id: nat, d: Drain)
    requires DrainsOk(drains, flushing) && (id in drains ==> drains[id].Pausing?)
    requires WithinRounds(d) && (d.Flushing? ==> !flushing)
    ensures DrainsOk(drains[id := d], flushing || d.Flushing?)
  {
  }

  lemma RoundKeepsInv(s: State, id: nat, rounds: nat)
    requires Inv(s) && rounds <= MAX_ROUNDS
    requires id in s.drains ==> s.drains[id].Pausing?
    ensures Inv(Round(s, id, rounds))
  {
    var t := Round(s, id, rounds);
    DrainMoves(s.drains, s.queue.flushing, id, t.drains[id]);
    if t.drains[id].Flushing? {
      Queue.FlushKeepsInv(s.queue, Queue.StartFlush);
    }
  }

  lemma InvStep(s: State, step: Step)
    requires Inv(s) && Enabled(s, step)
    ensures Inv(Next(s, step))
  {
    match step {
      case QueueStep(q) => QueueStepKeepsInv(s, q);
      case Call(id) => RoundKeepsInv(s, id, 0);
      case Resume(id) => RoundKeepsInv(s, id, s.drains[id].rounds);
    }
  }

  /** Whatever overlaps, no drain makes more than ten rounds. */
  lemma {:induction false} EveryRunKeepsInv(s: State, steps: seq<Step>, t: State)
    requires Inv(s) && Exec(s, steps) == Reached(t)
    ensures Inv(t)
    ensures forall id <- t.drains :: t.drains[id].rounds <= 10
    decreases |steps|
  {
    if steps != [] {
      var u := Exec(s, steps[..|steps| - 1]).state;
      EveryRunKeepsInv(s, steps[..|steps| - 1], u);
      InvStep(u, steps[|steps| - 1]);
    }
  }

  // ---------------------------------------------------------------- when a drain has drained

  ghost predicate AllAcknowledged(q: Queue.State) {
    multiset(q.acked) == multiset(q.enqueued)
  }

  lemma AcknowledgedIffNothingHeld(q: Queue.State)
    requires Queue.Inv(q)
    ensures AllAcknowledged(q) <==> q.queue == [] && Queue.InFlight(q.bodies) == []
  {
    assert q.queue != [] ==> q.queue[0] in Queue.Live(q);
    assert Queue.InFlight(q.bodies) != [] ==> Queue.InFlight(q.bodies)[0] in Queue.Live(q);
    assert Queue.Live(q) != multiset{} ==> multiset(q.acked) != multiset(q.enqueued);
  }

  /** While the given drain is the only task that starts flushes, a batch can be in flight behind an empty queue only
      during the drain's own flush. */
  ghost predicate Watched(s: State, id: nat) {
    && id in s.drains
    && (s.queue.queue != [] || Queue.InFlight(s.queue.bodies) == [] || s.drains[id].Flushing?)
  }

  lemma WatchedQueueStep(s: State, q: Queue.Step, id: nat)
    requires Inv(s) && Watched(s, id) && Queue.Enabled(s.queue, q) && !q.StartFlush?
    ensures Watched(Next(s, QueueStep(q)), id)
  {
  }

  /** A round of a drain, this one or another that starts no flush. */
  lemma WatchedRound(s: State, i: nat, rounds: nat, id: nat)
    requires Watched(s, id) && (i in s.drains ==> s.drains[i].Pausing?)
    requires i == id || s.queue.flushing || !Round(s, i, rounds).queue.flushing
    ensures Watched(Round(s, i, rounds), id)
  {
  }

  lemma WatchedStep(s: State, step: Step, id: nat)
    requires Inv(s) && Watched(s, id) && Enabled(s, step) && !OtherStarts(s, step, id)
    ensures Watched(Next(s, step), id)
  {
    match step {
      case QueueStep(q) => WatchedQueueStep(s, q, id);
      case Call(i) => WatchedRound(s, i, 0, id);
      case Resume(i) => WatchedRound(s, i, s.drains[i].rounds, id);
    }
  }

  lemma {:induction false} WatchedRun(s: State, steps: seq<Step>, t: State, id: nat)
    requires Inv(s) && Watched(s, id) && ExecAlone(s, steps, id) == Reached(t)
    ensures Inv(t) && Watched(t, id)
    decreases |steps|
  {
    if steps != [] {
      var init, last := steps[..|steps| - 1], steps[|steps| - 1];
      var u := ExecAlone(s, init, id).state;
      WatchedRun(s, init, u, id);
      InvStep(u, last);
      WatchedStep(u, last, id);
    }
  }

  /** However the run goes on, once the drain has returned an empty queue means that everything is acknowledged. */
  ghost predicate Completes(s: State, id: nat) {
    forall steps, t ::
      ExecAlone(s, steps, id) == Reached(t) && id in t.drains && t.drains[id].Returned? && t.queue.queue == [] ==>
        AllAcknowledged(t.queue)
  }

  /** A drain called in any state, also with a flush active and other drains under way, does what it is for, unless
      other tasks start flushes during it, if and only if it is not called on an empty queue with a batch in
      flight. */
  lemma DrainCompletesIff(s: State, id: nat)
    requires Inv(s) && id !in s.drains
    ensures Completes(Next(s, Call(id)), id) <==> !(s.queue.queue == [] && Queue.InFlight(s.queue.bodies) != [])
  {
    var u := Next(s, Call(id));
    InvStep(s, Call(id));
    if s.queue.queue == [] && Queue.InFlight(s.queue.bodies) != [] {
      AcknowledgedIffNothingHeld(u.queue);
      assert ExecAlone(u, [], id) == Reached(u);
    } else {
      forall steps, t | ExecAlone(u, steps, id) == Reached(t)
        ensures id in t.drains && t.drains[id].Returned? && t.queue.queue == [] ==> AllAcknowledged(t.queue)
      {
        WatchedRun(u, steps, t, id);
        AcknowledgedIffNothingHeld(t.queue);
      }
    }
  }

  /** Of two overlapping drains the second returns at once, with the whole batch of the first still unwritten: two
      handlers of one signal each call drain, and the second to be called ends the process when its drain returns. */
  lemma SecondDrainReturnsEarly(s: State, first: nat, second: nat)
    requires Inv(s) && !s.queue.flushing && s.queue.queue != []
    requires first !in s.drains && second !in s.drains && first != second
    ensures match Exec(s, [Call(first), Call(second)])
            case Stuck => false
            case Reached(t) =>
              && t.drains[second] == Returned(0) && t.queue.queue == []
              && Queue.InFlight(t.queue.bodies) == s.queue.queue && t.queue.acked == s.queue.acked
              && !AllAcknowledged(t.queue)
  {
    var run := [Call(first), Call(second)];
    assert run[..1] == [Call(first)] && run[..1][..0] == [];
    var u := Next(s, Call(first));
    assert Exec(s, [Call(first)]) == Reached(u);
    InvStep(s, Call(first));
    AcknowledgedIffNothingHeld(u.queue);
  }

  // ---------------------------------------------------------------- runs of the queue as parts of a drain

  /** The steps of the queue's own run, as steps of a run with drains. */
  function Lifted(steps: seq<Queue.Step>): seq<Step> {
    seq(|steps|, i requires 0 <= i < |steps| => QueueStep(steps[i]))
  }

  lemma {:induction false} LiftedMiddle(s: State, steps: seq<Queue.Step>, q: Queue.State, id: nat)
    requires Queue.Exec(s.queue, steps) == Reached(q) && AllMiddle(steps, 0, |steps|)
    ensures ExecAlone(s, Lifted(steps), id) == Reached(State(q, s.drains))
    decreases |steps|
  {
    if steps != [] {
      var init, last := steps[..|steps| - 1], steps[|steps| - 1];
      LiftedMiddle(s, init, Queue.Exec(s.queue, init).state, id);
      assert Lifted(steps)[..|steps| - 1] == Lifted(init);
      assert Middle(last);
    }
  }

  lemma {:induction false} AloneTwice(s: State, a: seq<Step>, b: seq<Step>, id: nat)
    requires ExecAlone(s, a, id).Reached?
    ensures ExecAlone(s, a + b, id) == ExecAlone(ExecAlone(s, a, id).state, b, id)
    decreases |b|
  {
    if b == [] {
      assert a + b == a;
    } else {
      assert (a + b)[..|a + b| - 1] == a + b[..|b| - 1];
      AloneTwice(s, a, b[..|b| - 1], id);
    }
  }

  /** Entering a round of a drain, from its call or from a pause. */
  function Entry(id: nat, rounds: nat): Step {
    if rounds == 0 then Call(id) else Resume(id)
  }

  /** The only drain, after some rounds. */
  function OneDrain(id: nat, rounds: nat): map<nat, Drain> {
    if rounds == 0 then map[] else map[id := Pausing(rounds)]
  }

  /** The steps of one round: the loop test, which starts a flush, and the flush. */
  function RoundSteps(id: nat, rounds: nat, middle: seq<Queue.Step>, last: Queue.Step): seq<Step> {
    [Entry(id, rounds)] + Lifted(middle) + [QueueStep(last)]
  }

  lemma AloneOnce(s: State, steps: seq<Step>, step: Step, id: nat)
    requires ExecAlone(s, steps, id).Reached?
    requires var t := ExecAlone(s, steps, id).state; Enabled(t, step) && !OtherStarts(t, step, id)
    ensures ExecAlone(s, steps + [step], id) == Reached(Next(ExecAlone(s, steps, id).state, step))
  {
    assert (steps + [step])[..|steps|] == steps;
  }

  lemma RoundStarts(q0: Queue.State, id: nat, rounds: nat)
    requires rounds < MAX_ROUNDS && !q0.flushing && q0.queue != []
    ensures ExecAlone(State(q0, OneDrain(id, rounds)), [Entry(id, rounds)], id) ==
            Reached(State(Queue.Next(q0, Queue.StartFlush), map[id := Flushing(rounds)]))
  {
    assert OneDrain(id, rounds)[id := Flushing(rounds)] == map[id := Flushing(rounds)];
    AloneOnce(State(q0, OneDrain(id, rounds)), [], Entry(id, rounds), id);
    assert [] + [Entry(id, rounds)] == [Entry(id, rounds)];
  }

  lemma RoundEnds(q: Queue.State, last: Queue.Step, id: nat, rounds: nat)
    requires last.EndFlush? && Queue.Enabled(q, last)
    ensures Next(State(q, map[id := Flushing(rounds)]), QueueStep(last)) ==
            State(Queue.Next(q, last), OneDrain(id, rounds + 1))
  {
    assert FlushEnded(map[id := Flushing(rounds)]) == map[id := Pausing(rounds + 1)];
  }

  /** A round whose flush starts is that flush, from its first step to its last. */
  lemma RoundIsFlush(
      q0: Queue.State, middle: seq<Queue.Step>, q: Queue.State, last: Queue.Step, id: nat, rounds: nat)
    requires rounds < MAX_ROUNDS && !q0.flushing && q0.queue != []
    requires Queue.Exec(Queue.Next(q0, Queue.StartFlush), middle) == Reached(q) && AllMiddle(middle, 0, |middle|)
    requires last.EndFlush? && Queue.Enabled(q, last)
    ensures ExecAlone(State(q0, OneDrain(id, rounds)), RoundSteps(id, rounds, middle, last), id) ==
            Reached(State(Queue.Next(q, last), OneDrain(id, rounds + 1)))
  {
    var s, flushing := State(q0, OneDrain(id, rounds)), map[id := Flushing(rounds)];
    var first := [Entry(id, rounds)];
    RoundStarts(q0, id, rounds);
    LiftedMiddle(State(Queue.Next(q0, Queue.StartFlush), flushing), middle, q, id);
    AloneTwice(s, first, Lifted(middle), id);
    assert ExecAlone(s, first + Lifted(middle), id) == Reached(State(q, flushing));
    RoundEnds(q, last, id, rounds);
    AloneOnce(s, first + Lifted(middle), QueueStep(last), id);
  }

  /** A drain that finds the queue empty, or has made its last round, returns. */
  lemma AloneReturns(s: State, run: seq<Step>, q: Queue.State, id: nat, rounds: nat)
    requires ExecAlone(s, run, id) == Reached(State(q, OneDrain(id, rounds)))
    requires q.queue == [] || rounds >= MAX_ROUNDS
    ensures ExecAlone(s, run + [Entry(id, rounds)], id) == Reached(State(q, map[id := Returned(rounds)]))
  {
    assert OneDrain(id, rounds)[id := Returned(rounds)] == map[id := Returned(rounds)];
    AloneOnce(s, run, Entry(id, rounds), id);
  }

  // ---------------------------------------------------------------- drains among other tasks that start flushes

  /** Whenever the drain returns with an empty queue, everything is acknowledged at that moment, whatever other tasks
      did: the state is one in which its call or its last resumption has just returned. */
  ghost predicate ReturnsWithAll(s: State, id: nat) {
    forall steps, t ::
      Exec(s, steps) == Reached(t) && (steps == [] || steps[|steps| - 1] == Resume(id)) &&
      id in t.drains && t.drains[id].Returned? && t.queue.queue == [] ==>
        AllAcknowledged(t.queue)
  }

  lemma {:induction false} ReturnedStays(s: State, steps: seq<Step>, t: State, id: nat)
    requires Exec(s, steps) == Reached(t) && id in s.drains && s.drains[id].Returned?
    ensures id in t.drains && t.drains[id] == s.drains[id]
    ensures steps == [] || steps[|steps| - 1] != Resume(id)
    decreases |steps|
  {
    if steps != [] {
      ReturnedStays(s, steps[..|steps| - 1], Exec(s, steps[..|steps| - 1]).state, id);
    }
  }

  function Successes(n: nat): seq<Queue.Step> {
    seq(n, i => Queue.AttemptSucceeds(0))
  }

  /** A flush whose writes all succeed settles its batch. */
  lemma {:induction false} BatchSettles(q: Queue.State, n: nat) returns (r: Queue.State)
    requires |q.bodies| == 1 && n <= |q.bodies[0].rest|
    ensures Queue.Exec(q, Successes(n)) == Reached(r)
    ensures r.queue == q.queue && r.flushing == q.flushing && |r.bodies| == 1
    ensures r.bodies[0].rest == q.bodies[0].rest[n..]
  {
    if n == 0 {
      return q;
    }
    var before := BatchSettles(q, n - 1);
    assert Successes(n)[..n - 1] == Successes(n - 1);
    r := Queue.Next(before, Queue.AttemptSucceeds(0));
  }

  lemma ExecOnce(s: State, steps: seq<Step>, step: Step)
    requires Exec(s, steps).Reached? && Enabled(Exec(s, steps).state, step)
    ensures Exec(s, steps + [step]) == Reached(Next(Exec(s, steps).state, step))
  {
    assert (steps + [step])[..|steps|] == steps;
  }

  /** An entry arrives during the active flush, and the flush settles its batch. */
  lemma ArrivalDuringFlush(s: State, e: Queue.AuditEntry) returns (steps: seq<Step>, t: State)
    requires |s.queue.bodies| == 1
    ensures Exec(s, steps) == Reached(t) && t.drains == s.drains
    ensures t.queue.queue == s.queue.queue + [e] && |t.queue.bodies| == 1 && t.queue.bodies[0].rest == []
  {
    var arrived, n := Queue.Next(s.queue, Queue.Enqueue(e)), |s.queue.bodies[0].rest|;
    var q := BatchSettles(arrived, n);
    var middle := [Queue.Enqueue(e)] + Successes(n);
    assert [Queue.Enqueue(e)][..0] == [];
    assert Queue.Exec(s.queue, [Queue.Enqueue(e)]) == Reached(arrived);
    Queue.ExecTwice(s.queue, [Queue.Enqueue(e)], Successes(n));
    LiftedMiddle(s, middle, q, 0);
    AloneIsRun(s, Lifted(middle), 0);
    steps, t := Lifted(middle), State(q, s.drains);
  }

  /** The flush ends, and before the drain resumes another task flushes what has arrived. */
  lemma OtherFlushStarts(s: State, e: Queue.AuditEntry, id: nat) returns (steps: seq<Step>, t: State)
    requires Inv(s) && s.queue.flushing && id in s.drains
    requires s.drains[id] == Flushing(0) || s.drains[id] == Pausing(1)
    ensures Exec(s, steps) == Reached(t) && id in t.drains && t.drains[id] == Pausing(1)
    ensures t.queue.queue == [] && t.queue.bodies == [Queue.FlushBody(s.queue.queue + [e], 0)]
  {
    var before, u := ArrivalDuringFlush(s, e);
    var end, start := QueueStep(Queue.EndFlush(0)), QueueStep(Queue.StartFlush);
    ExecOnce(s, before, end);
    var ended := Next(u, end);
    assert ended.drains[id] == Pausing(1) && ended.queue.bodies == [];
    ExecOnce(s, before + [end], start);
    steps, t := before + [end] + [start], Next(ended, start);
  }

  /** The drain then finds the queue empty and returns with that batch in flight. */
  lemma OtherFlushFirst(s: State, e: Queue.AuditEntry, id: nat)
    requires Inv(s) && s.queue.flushing && id in s.drains
    requires s.drains[id] == Flushing(0) || s.drains[id] == Pausing(1)
    ensures !ReturnsWithAll(s, id)
  {
    var steps, t := OtherFlushStarts(s, e, id);
    ExecOnce(s, steps, Resume(id));
    var last := Next(t, Resume(id));
    EveryRunKeepsInv(s, steps + [Resume(id)], last);
    assert last.queue == t.queue;
    AcknowledgedIffNothingHeld(last.queue);
  }

  /** With other tasks free to start flushes at any time, a drain is sure to return with everything acknowledged if and
      only if there was nothing to drain when it was called. */
  lemma UnguardedDrainIff(s: State, id: nat)
    requires Inv(s) && id !in s.drains
    ensures ReturnsWithAll(Next(s, Call(id)), id) <==> s.queue.queue == [] && Queue.InFlight(s.queue.bodies) == []
  {
    var u := Next(s, Call(id));
    InvStep(s, Call(id));
    AcknowledgedIffNothingHeld(u.queue);
    if s.queue.queue != [] {
      OtherFlushFirst(u, s.queue.queue[0], id);
    } else if Queue.InFlight(s.queue.bodies) != [] {
      assert Exec(u, []) == Reached(u);
    } else {
      forall steps, t | Exec(u, steps) == Reached(t) && (steps == [] || steps[|steps| - 1] == Resume(id))
        ensures AllAcknowledged(t.queue)
      {
        ReturnedStays(u, steps, t, id);
      }
    }
  }
}
