/** What whole runs of the audit queue guarantee: acknowledgement, order, retry counts, and the work of a flush. */
module AuditQueueRuns {
  import opened Common
  import opened AuditQueueMachine

  ghost predicate DistinctIds(es: seq<AuditEntry>) {
    forall i, j :: 0 <= i < j < |es| ==> es[i].auditId != es[j].auditId
  }

  lemma {:induction false} DistinctMeansOnce(es: seq<AuditEntry>)
    requires DistinctIds(es)
    ensures forall e :: multiset(es)[e] <= 1
    ensures forall e, f :: e in es && f in es && e.auditId == f.auditId ==> e == f
  {
    if es != [] {
      var init, last := es[..|es| - 1], es[|es| - 1];
      assert es == init + [last];
      DistinctMeansOnce(init);
      assert last !in init;
    }
  }

  /** History only grows. */
  ghost predicate Grown(s: State, t: State) {
    s.acked <= t.acked && s.requeued <= t.requeued && s.enqueued <= t.enqueued && s.writes <= t.writes
  }

  // ---------------------------------------------------------------- acknowledgement

  /** With distinct ids no entry is acknowledged twice, and an acknowledged entry is never held again. */
  lemma AcknowledgedOnce(steps: seq<Step>, t: State)
    requires Exec(Init(), steps) == Reached(t) && DistinctIds(t.enqueued)
    ensures forall e :: multiset(t.acked)[e] <= 1
    ensures forall e <- t.acked :: e !in t.queue && e !in InFlight(t.bodies)
    ensures forall e <- t.enqueued :: (e in t.acked) != (e in Live(t))
  {
    EveryRunKeepsInv(steps, t);
    DistinctMeansOnce(t.enqueued);
    forall e <- t.enqueued
      ensures (e in t.acked) != (e in Live(t))
    {
      assert e in multiset(t.enqueued);
      assert multiset(t.enqueued)[e] == Live(t)[e] + multiset(t.acked)[e];
    }
    forall e <- t.acked
      ensures e !in t.queue && e !in InFlight(t.bodies)
    {
      assert multiset(t.enqueued)[e] == Live(t)[e] + multiset(t.acked)[e];
    }
    forall e
      ensures multiset(t.acked)[e] <= 1
    {
      assert multiset(t.enqueued)[e] == Live(t)[e] + multiset(t.acked)[e];
    }
  }

  // ---------------------------------------------------------------- order

  predicate Failing(step: Step) {
    step.AttemptFails? || step.GiveUp?
  }

  /** The queue seen as one line: acknowledged first, then in flight, then waiting. */
  function Line(s: State): seq<AuditEntry> {
    s.acked + InFlight(s.bodies) + s.queue
  }

  lemma MoveHead(acked: seq<AuditEntry>, rest: seq<AuditEntry>)
    requires rest != []
    ensures acked + [rest[0]] + rest[1..] == acked + rest
  {
  }

  lemma LineSuccess(s: State, step: Step)
    requires Enabled(s, step) && OneBody(s) && step.AttemptSucceeds?
    ensures Line(Next(s, step)) == Line(s)
  {
    MoveHead(s.acked, s.bodies[0].rest);
  }

  lemma LineFlush(s: State, step: Step)
    requires Enabled(s, step) && OneBody(s) && OneBody(Next(s, step)) && (step.StartFlush? || step.EndFlush?)
    ensures Line(Next(s, step)) == Line(s)
  {
    assert s.acked + s.queue + [] == s.acked + [] + s.queue;
  }

  lemma LineStep(s: State, step: Step)
    requires Enabled(s, step) && OneBody(s) && OneBody(Next(s, step)) && !Failing(step)
    ensures Line(Next(s, step)) == if step.Enqueue? then Line(s) + [step.entry] else Line(s)
  {
    match step {
      case Enqueue(e) => assert s.acked + InFlight(s.bodies) + (s.queue + [e]) == Line(s) + [e];
      case AttemptSucceeds(_) => LineSuccess(s, step);
      case RefusedFlush =>
      case _ => LineFlush(s, step);
    }
  }

  /** If no write ever fails, entries are acknowledged in the order in which they were enqueued. */
  lemma {:induction false} OrderWithoutFailures(steps: seq<Step>, t: State)
    requires Exec(Init(), steps) == Reached(t)
    requires forall step <- steps :: !Failing(step)
    ensures t.acked + InFlight(t.bodies) + t.queue == t.enqueued
    decreases |steps|
  {
    if steps != [] {
      var init, step := steps[..|steps| - 1], steps[|steps| - 1];
      var s := Exec(Init(), init).state;
      OrderWithoutFailures(init, s);
      EveryRunKeepsInv(init, s);
      EveryRunKeepsInv(steps, t);
      LineStep(s, step);
    }
  }

  // ---------------------------------------------------------------- retry accounting

  /** The retry count an entry must have: three for each flush that gave it up, plus the attempts of the flush
      that is writing it now. */
  function Expected(s: State, e: AuditEntry): nat {
    MAX_ATTEMPTS * multiset(s.requeued)[e] +
    if Writing(s, 0) && s.bodies[0].rest[0] == e then s.bodies[0].attempt else 0
  }

  ghost predicate RequeuedKnown(s: State) {
    forall e <- s.requeued :: e in s.enqueued
  }

  ghost predicate Accounted(s: State) {
    && (forall e <- Live(s) :: RetryCount(s.failed, e.auditId) == Expected(s, e))
    && RequeuedKnown(s)
  }

  /** A held entry is held once, and no other enqueued entry shares its id. */
  lemma HeldOnce(s: State, e: AuditEntry, f: AuditEntry)
    requires Conserved(s) && DistinctIds(s.enqueued) && e in Live(s)
    ensures Live(s)[e] == 1 && e in s.enqueued
    ensures f in s.enqueued && f.auditId == e.auditId ==> f == e
  {
    DistinctMeansOnce(s.enqueued);
    assert multiset(s.enqueued)[e] == Live(s)[e] + multiset(s.acked)[e];
    assert e in multiset(s.enqueued);
  }

  /** While the head of the batch is being settled, the other held entries keep their counts. */
  lemma AccountedOthers(s: State, step: Step, e: AuditEntry)
    requires Inv(s) && Accounted(s) && Enabled(s, step) && DistinctIds(s.enqueued)
    requires step.AttemptSucceeds? || Failing(step)
    requires e in Live(s) && e != s.bodies[0].rest[0]
    ensures RetryCount(Next(s, step).failed, e.auditId) == RetryCount(s.failed, e.auditId)
    ensures Expected(Next(s, step), e) == Expected(s, e)
  {
    var h := s.bodies[0].rest[0];
    assert h in Live(s);
    HeldOnce(s, h, e);
    HeldOnce(s, e, h);
    assert h.auditId != e.auditId;
  }

  lemma AccountedHead(s: State, step: Step)
    requires Inv(s) && Accounted(s) && Enabled(s, step) && DistinctIds(s.enqueued) && Failing(step)
    ensures var h := s.bodies[0].rest[0];
            RetryCount(Next(s, step).failed, h.auditId) == Expected(Next(s, step), h)
  {
    var h := s.bodies[0].rest[0];
    assert h in Live(s);
    assert RetryCount(s.failed, h.auditId) == MAX_ATTEMPTS * multiset(s.requeued)[h] + s.bodies[0].attempt;
  }

  lemma HeadHeldOnce(s: State)
    requires OneBody(s) && Conserved(s) && DistinctIds(s.enqueued) && Writing(s, 0)
    ensures Live(s)[s.bodies[0].rest[0]] == 1
  {
    var h := s.bodies[0].rest[0];
    assert h in InFlight(s.bodies);
    HeldOnce(s, h, h);
  }

  lemma RequeuedStep(s: State, step: Step)
    requires Conserved(s) && RequeuedKnown(s) && Enabled(s, step) && OneBody(s)
    ensures RequeuedKnown(Next(s, step))
  {
    if Writing(s, 0) {
      assert s.bodies[0].rest[0] in multiset(s.enqueued);
    }
  }

  lemma AccountedSuccess(s: State, step: Step)
    requires Inv(s) && Accounted(s) && Enabled(s, step) && DistinctIds(s.enqueued) && step.AttemptSucceeds?
    ensures Accounted(Next(s, step))
  {
    RequeuedStep(s, step);
    forall e <- Live(Next(s, step))
      ensures RetryCount(Next(s, step).failed, e.auditId) == Expected(Next(s, step), e)
    {
      assert e in Live(s) && e != s.bodies[0].rest[0] by {
        SuccessKeepsInv(s, step);
        HeadHeldOnce(s);
      }
      AccountedOthers(s, step, e);
    }
  }

  lemma AccountedFailing(s: State, step: Step)
    requires Inv(s) && Accounted(s) && Enabled(s, step) && DistinctIds(s.enqueued) && Failing(step)
    ensures Accounted(Next(s, step))
  {
    RequeuedStep(s, step);
    forall e <- Live(Next(s, step))
      ensures RetryCount(Next(s, step).failed, e.auditId) == Expected(Next(s, step), e)
    {
      assert e in Live(s) by {
        InvStep(s, step);
      }
      if e == s.bodies[0].rest[0] {
        AccountedHead(s, step);
      } else {
        AccountedOthers(s, step, e);
      }
    }
  }

  lemma AccountedFlush(s: State, step: Step)
    requires Inv(s) && Accounted(s) && Enabled(s, step)
    requires step.StartFlush? || step.RefusedFlush? || step.EndFlush?
    ensures Accounted(Next(s, step))
  {
    FlushKeepsInv(s, step);
    var t := Next(s, step);
    forall e <- Live(t)
      ensures RetryCount(t.failed, e.auditId) == Expected(t, e)
    {
      assert e in Live(s);
      assert Expected(t, e) == Expected(s, e);
    }
  }

  lemma FreshId(es: seq<AuditEntry>, e: AuditEntry)
    requires DistinctIds(es + [e])
    ensures DistinctIds(es) && forall f <- es :: f.auditId != e.auditId
  {
    var all := es + [e];
    assert forall i :: 0 <= i < |es| ==> es[i] == all[i];
    assert all[|es|] == e;
  }

  /** A new entry starts with no retry count. */
  lemma FreshIdUncounted(s: State, e: AuditEntry)
    requires Conserved(s) && FailuresLive(s) && DistinctIds(s.enqueued + [e])
    ensures e.auditId !in s.failed && e !in s.enqueued
  {
    FreshId(s.enqueued, e);
    assert forall f <- Live(s) :: f in multiset(s.enqueued);
  }

  lemma AccountedEnqueue(s: State, e: AuditEntry)
    requires Inv(s) && Accounted(s) && DistinctIds(s.enqueued + [e])
    ensures Accounted(Next(s, Enqueue(e)))
  {
    var t := Next(s, Enqueue(e));
    FreshIdUncounted(s, e);
    assert Expected(s, e) == 0 by {
      assert Writing(s, 0) ==> s.bodies[0].rest[0] in multiset(s.enqueued);
    }
    assert Live(t) == Live(s) + multiset{e} by {
      EnqueueKeepsInv(s, Enqueue(e));
    }
    forall f <- Live(t)
      ensures RetryCount(t.failed, f.auditId) == Expected(t, f)
    {
      assert f != e ==> f in Live(s);
      assert Expected(t, f) == Expected(s, f);
    }
  }

  lemma DistinctBefore(s: State, step: Step)
    requires Enabled(s, step) && DistinctIds(Next(s, step).enqueued)
    ensures DistinctIds(s.enqueued)
  {
    assert s.enqueued == Next(s, step).enqueued[..|s.enqueued|];
  }

  lemma AccountedStep(s: State, step: Step)
    requires Inv(s) && Accounted(s) && Enabled(s, step) && DistinctIds(Next(s, step).enqueued)
    ensures Accounted(Next(s, step))
  {
    DistinctBefore(s, step);
    match step {
      case Enqueue(e) => AccountedEnqueue(s, e);
      case AttemptSucceeds(_) => AccountedSuccess(s, step);
      case AttemptFails(_, _) => AccountedFailing(s, step);
      case GiveUp(_) => AccountedFailing(s, step);
      case _ => AccountedFlush(s, step);
    }
  }

  lemma {:induction false} EveryRunAccounts(steps: seq<Step>, t: State)
    requires Exec(Init(), steps) == Reached(t) && DistinctIds(t.enqueued)
    ensures Accounted(t)
    decreases |steps|
  {
    if steps != [] {
      var init, step := steps[..|steps| - 1], steps[|steps| - 1];
      var s := Exec(Init(), init).state;
      EveryRunKeepsInv(init, s);
      assert s.enqueued == t.enqueued[..|s.enqueued|];
      EveryRunAccounts(init, s);
      AccountedStep(s, step);
    }
  }

  /** With distinct ids and no flush active, the retry counts belong exactly to the queued entries that have
      failed, and each is three times the number of flushes that gave the entry up. */
  lemma RetryAccounting(steps: seq<Step>, t: State)
    requires Exec(Init(), steps) == Reached(t) && DistinctIds(t.enqueued) && !t.flushing
    ensures forall id :: id in t.failed <==> exists e <- t.queue :: e.auditId == id && e in t.requeued
    ensures forall e <- t.queue :: RetryCount(t.failed, e.auditId) == 3 * multiset(t.requeued)[e]
  {
    EveryRunKeepsInv(steps, t);
    EveryRunAccounts(steps, t);
    assert Live(t) == multiset(t.queue);
    forall id
      ensures id in t.failed <==> exists e <- t.queue :: e.auditId == id && e in t.requeued
    {
      if id in t.failed {
        var e :| e in Live(t) && e.auditId == id;
        assert e in t.queue && RetryCount(t.failed, id) == MAX_ATTEMPTS * multiset(t.requeued)[e];
      }
      if e :| e in t.queue && e.auditId == id && e in t.requeued {
        assert e in Live(t) && multiset(t.requeued)[e] > 0;
      }
    }
  }

  function Ids(es: seq<AuditEntry>): (ids: set<string>)
    ensures |ids| <= |es|
    ensures forall e <- es :: e.auditId in ids
  {
    if es == [] then {} else Ids(es[..|es| - 1]) + {es[|es| - 1].auditId}
  }

  lemma SubsetSize(a: set<string>, b: set<string>)
    requires a <= b
    ensures |a| <= |b|
  {
    assert b == a + (b - a);
  }

  /** The failed metric never exceeds the entries the queue holds; with no flush active these are the pending ones. */
  lemma FailedWithinHeld(steps: seq<Step>, t: State)
    requires Exec(Init(), steps) == Reached(t)
    ensures |t.failed| <= |t.queue| + |InFlight(t.bodies)|
    ensures !t.flushing ==> |t.failed| <= |t.queue|
  {
    EveryRunKeepsInv(steps, t);
    var held := t.queue + InFlight(t.bodies);
    forall id <- t.failed.Keys
      ensures id in Ids(held)
    {
      var e :| e in Live(t) && e.auditId == id;
      assert e in held;
    }
    SubsetSize(t.failed.Keys, Ids(held));
  }
}
