/** The pipeline and the audit queue together: requests finish their audit stage at any moment of a queue run. */
module EndToEnd {
  import opened Common
  import opened Pipeline
  import Queue = AuditQueueMachine
  import QueueRuns = AuditQueueRuns

  type AuditEntry = Queue.AuditEntry

  /** What is encrypted and hashed: a record with its id, the time, the latency and the hashes of the two bodies. */
  datatype AuditPayload = AuditPayload(
    id: string, timestamp: int, record: AuditRecord, latencyMs: int, requestHash: string, responseHash: string)

  /** Foreign code: encryption of a payload with an initialisation vector, its hash, and the proxy's signature. */
  datatype Sealing = Sealing(
    encrypt: (AuditPayload, string) -> string, hash: AuditPayload -> string, sign: string -> string)

  /** What the audit stage adds to a record; it signs if it has a key and signing succeeds. */
  datatype Seal = Seal(
    auditId: string, timestamp: int, latencyMs: int, requestHash: string, responseHash: string, iv: string, signs: bool)

  /** A request that has been answered and whose audit stage has not finished, or one whose audit stage has finished,
      with what it added and the entry it enqueued. */
  datatype Progress =
    | Answered(inputs: Inputs, outcome: Outcome)
    | Finished(inputs: Inputs, outcome: Outcome, seal: Seal, entry: Option<AuditEntry>)

  datatype State = State(
    sealing: Sealing, requests: map<nat, Progress>, queue: Queue.State, queueRun: seq<Queue.Step>)

  datatype Step =
    | Answer(id: nat, inputs: Inputs)
    | FinishAudit(id: nat, seal: Seal)
    | QueueStep(step: Queue.Step)

  function Init(sealing: Sealing): State {
    State(sealing, map[], Queue.Init(), [])
  }

  function PayloadOf(record: AuditRecord, seal: Seal): AuditPayload {
    AuditPayload(seal.auditId, seal.timestamp, record, seal.latencyMs, seal.requestHash, seal.responseHash)
  }

  function EntryFor(sealing: Sealing, record: AuditRecord, agentSignature: string, seal: Seal): AuditEntry {
    var payload := PayloadOf(record, seal);
    var payloadHash := sealing.hash(payload);
    var proxySignature := if seal.signs then sealing.sign(payloadHash) else "0x";
    Queue.AuditEntry(payload.id, record.agent, payload.timestamp, sealing.encrypt(payload, seal.iv), payloadHash,
                     agentSignature, proxySignature)
  }

  /** Audit ids are 32 random bytes: an id drawn is one not drawn before. */
  predicate FreshId(s: State, auditId: string) {
    forall i :: 0 <= i < |s.queue.enqueued| ==> s.queue.enqueued[i].auditId != auditId
  }

  predicate Enabled(s: State, step: Step) {
    match step
    case Answer(id, _) => id !in s.requests
    case FinishAudit(id, seal) => id in s.requests && s.requests[id].Answered? && FreshId(s, seal.auditId)
    case QueueStep(q) => !q.Enqueue? && Queue.Enabled(s.queue, q)
  }

  function Next(s: State, step: Step): State
    requires Enabled(s, step)
  {
    match step
    case Answer(id, inputs) => s.(requests := s.requests[id := Answered(inputs, Handled(inputs))])
    case FinishAudit(id, seal) =>
      var Answered(inputs, outcome) := s.requests[id];
      (match outcome.audited
       case None => s.(requests := s.requests[id := Finished(inputs, outcome, seal, None)])
       case Some(record) =>
         var entry := EntryFor(s.sealing, record, inputs.request.signature, seal);
         State(s.sealing,
               s.requests[id := Finished(inputs, outcome, seal, Some(entry))],
               Queue.Next(s.queue, Queue.Enqueue(entry)),
               s.queueRun + [Queue.Enqueue(entry)]))
    case QueueStep(q) => s.(queue := Queue.Next(s.queue, q), queueRun := s.queueRun + [q])
  }

  function Exec(s: State, steps: seq<Step>): Reach<State> {
    if steps == [] then
      Reached(s)
    else
      match Exec(s, steps[..|steps| - 1])
      case Stuck => Stuck
      case Reached(t) =>
        var last := steps[|steps| - 1];
        if Enabled(t, last) then Reached(Next(t, last)) else Stuck
  }

  // ---------------------------------------------------------------- what every step keeps

  ghost predicate EntryOf(s: State, id: nat, e: AuditEntry) {
    id in s.requests && s.requests[id].Finished? && s.requests[id].entry == Some(e)
  }

  /** Requests carry what the pipeline decided for them; the audited, and no others, have the entry made of their
      record. */
  ghost predicate RequestsOk(s: State) {
    forall id <- s.requests ::
      && s.requests[id].outcome == Handled(s.requests[id].inputs)
      && (s.requests[id].Finished? ==>
            var Finished(inputs, outcome, seal, entry) := s.requests[id];
            && (entry.Some? <==> outcome.audited.Some?)
            && (entry.Some? ==>
                  entry.value == EntryFor(s.sealing, outcome.audited.value, inputs.request.signature, seal)))
  }

  /** Every enqueued entry is some request's, no two requests share one, and ids are distinct. */
  ghost predicate EntriesOk(s: State) {
    && QueueRuns.DistinctIds(s.queue.enqueued)
    && (forall id, e :: EntryOf(s, id, e) ==> e in s.queue.enqueued)
    && (forall e <- s.queue.enqueued :: exists id :: EntryOf(s, id, e))
    && (forall i, j, e :: EntryOf(s, i, e) && EntryOf(s, j, e) ==> i == j)
  }

  ghost predicate Inv(s: State) {
    Queue.Exec(Queue.Init(), s.queueRun) == Reached(s.queue) && RequestsOk(s) && EntriesOk(s)
  }

  /** Steps other than a finishing audit leave entries and enqueue history alone. */
  lemma EntriesSame(s: State, t: State)
    requires EntriesOk(s) && t.queue.enqueued == s.queue.enqueued
    requires forall id, e :: EntryOf(s, id, e) <==> EntryOf(t, id, e)
    ensures EntriesOk(t)
  {
    forall e <- t.queue.enqueued
      ensures exists id :: EntryOf(t, id, e)
    {
      var id :| EntryOf(s, id, e);
      assert EntryOf(t, id, e);
    }
  }

  lemma EntriesFinish(s: State, id: nat, seal: Seal)
    requires Inv(s) && Enabled(s, FinishAudit(id, seal))
    ensures EntriesOk(Next(s, FinishAudit(id, seal)))
  {
    var t := Next(s, FinishAudit(id, seal));
    if s.requests[id].outcome.audited.None? {
      EntriesSame(s, t);
    } else {
      var entry := t.requests[id].entry.value;
      assert t.queue.enqueued == s.queue.enqueued + [entry];
      assert entry !in s.queue.enqueued;
      assert forall i, e :: EntryOf(t, i, e) <==> EntryOf(s, i, e) || (i == id && e == entry);
      forall e <- t.queue.enqueued
        ensures exists i :: EntryOf(t, i, e)
      {
        if e == entry {
          assert EntryOf(t, id, e);
        } else {
          var i :| EntryOf(s, i, e);
          assert EntryOf(t, i, e);
        }
      }
    }
  }

  lemma QueueStepKeepsHistory(q: Queue.State, step: Queue.Step)
    requires Queue.Enabled(q, step) && !step.Enqueue?
    ensures Queue.Next(q, step).enqueued == q.enqueued
  {
  }

  lemma InvStep(s: State, step: Step)
    requires Inv(s) && Enabled(s, step)
    ensures Inv(Next(s, step))
  {
    var t := Next(s, step);
    match step {
      case Answer(id, _) =>
        EntriesSame(s, t);
      case FinishAudit(id, seal) =>
        EntriesFinish(s, id, seal);
        if s.requests[id].outcome.audited.Some? {
          Queue.ExecOneMore(Queue.Init(), s.queueRun, Queue.Enqueue(t.requests[id].entry.value));
        }
      case QueueStep(q) =>
        Queue.ExecOneMore(Queue.Init(), s.queueRun, q);
        QueueStepKeepsHistory(s.queue, q);
        EntriesSame(s, t);
    }
  }

  lemma {:induction false} RunKeepsInv(s: State, steps: seq<Step>, t: State)
    requires Inv(s) && Exec(s, steps) == Reached(t)
    ensures Inv(t) && t.sealing == s.sealing
    decreases |steps|
  {
    if steps != [] {
      var u := Exec(s, steps[..|steps| - 1]).state;
      RunKeepsInv(s, steps[..|steps| - 1], u);
      InvStep(u, steps[|steps| - 1]);
    }
  }

  lemma EveryRunKeepsInv(sealing: Sealing, steps: seq<Step>, t: State)
    requires Exec(Init(sealing), steps) == Reached(t)
    ensures Inv(t) && Queue.Inv(t.queue) && t.sealing == sealing
  {
    RunKeepsInv(Init(sealing), steps, t);
    Queue.EveryRunKeepsInv(t.queueRun, t.queue);
  }

  // ---------------------------------------------------------------- the audit guarantee

  /** How often the queue holds an entry or has written it: queued, in flight or acknowledged. */
  function Copies(q: Queue.State, e: AuditEntry): nat {
    multiset(q.queue)[e] + multiset(Queue.InFlight(q.bodies))[e] + multiset(q.acked)[e]
  }

  /** Whatever reaches the executor is audited under its recovered agent when an entry can be built. */
  lemma CallsAreAudited(inputs: Inputs)
    requires Handled(inputs).call.Some? && Recordable(inputs)
    ensures Handled(inputs).audited.Some? && Some(Handled(inputs).audited.value.agent) == inputs.recovered
  {
  }

  /** Whatever is audited, denials and unknown tools included, is audited under its recovered agent. */
  lemma AuditedUnderAgent(inputs: Inputs)
    requires Handled(inputs).audited.Some?
    ensures Some(Handled(inputs).audited.value.agent) == inputs.recovered
  {
  }

  lemma OneCopy(t: State, e: AuditEntry)
    requires Inv(t) && e in t.queue.enqueued
    ensures Copies(t.queue, e) == 1
  {
    Queue.EveryRunKeepsInv(t.queueRun, t.queue);
    QueueRuns.DistinctMeansOnce(t.queue.enqueued);
    assert e in multiset(t.queue.enqueued);
    assert multiset(t.queue.enqueued)[e] == Queue.Live(t.queue)[e] + multiset(t.queue.acked)[e];
  }

  /** A request whose audit stage has finished stays as it is. */
  lemma {:induction false} FinishedStays(s: State, steps: seq<Step>, t: State, id: nat)
    requires Exec(s, steps) == Reached(t) && id in s.requests && s.requests[id].Finished?
    ensures id in t.requests && t.requests[id] == s.requests[id]
    decreases |steps|
  {
    if steps != [] {
      FinishedStays(s, steps[..|steps| - 1], Exec(s, steps[..|steps| - 1]).state, id);
    }
  }

  /** One entry, queued, in flight or acknowledged exactly once, stands for the request and for no other. */
  ghost predicate StandsFor(t: State, id: nat, e: AuditEntry) {
    EntryOf(t, id, e) && Copies(t.queue, e) == 1 && forall other :: EntryOf(t, other, e) ==> other == id
  }

  lemma StandsForGood(s: State, more: seq<Step>, t: State, id: nat, e: AuditEntry)
    requires Inv(s) && EntryOf(s, id, e) && Exec(s, more) == Reached(t)
    ensures StandsFor(t, id, e)
  {
    RunKeepsInv(s, more, t);
    FinishedStays(s, more, t, id);
    assert EntryOf(t, id, e);
    OneCopy(t, e);
  }

  /** Once the audit stage of an audited request has finished, there is one entry that stands for it now and in every
      later state, whatever the queue and other requests do. So it is for every request that reached the executor, if
      an entry could be built, and for every denial. */
  lemma AuditedForGood(sealing: Sealing, steps: seq<Step>, s: State, id: nat) returns (e: AuditEntry)
    requires Exec(Init(sealing), steps) == Reached(s)
    requires id in s.requests && s.requests[id].Finished?
    requires s.requests[id].outcome.audited.Some? ||
             (s.requests[id].outcome.call.Some? && Recordable(s.requests[id].inputs))
    ensures Some(e.agent) == s.requests[id].inputs.recovered
    ensures forall more, t :: Exec(s, more) == Reached(t) ==> StandsFor(t, id, e)
  {
    EveryRunKeepsInv(sealing, steps, s);
    assert s.requests[id].outcome == Handled(s.requests[id].inputs);
    if s.requests[id].outcome.call.Some? && Recordable(s.requests[id].inputs) {
      CallsAreAudited(s.requests[id].inputs);
    }
    AuditedUnderAgent(s.requests[id].inputs);
    e := s.requests[id].entry.value;
    forall more, t | Exec(s, more) == Reached(t)
      ensures StandsFor(t, id, e)
    {
      StandsForGood(s, more, t, id, e);
    }
  }

  /** What the entry of a request holds: the recovered agent, the agent's own signature, and, encrypted and hashed under
      the entry's id and time, the request's record, with the proxy's signature over that hash or none. */
  lemma EntryHolds(sealing: Sealing, steps: seq<Step>, s: State, id: nat, e: AuditEntry)
    requires Exec(Init(sealing), steps) == Reached(s) && EntryOf(s, id, e)
    ensures var inputs := s.requests[id].inputs;
            && Handled(inputs).audited.Some? && Some(e.agent) == inputs.recovered
            && e.agentSignature == inputs.request.signature
            && exists payload: AuditPayload, iv: string ::
                 && payload.record == Handled(inputs).audited.value
                 && payload.id == e.auditId && payload.timestamp == e.timestamp
                 && e.encryptedPayload == sealing.encrypt(payload, iv) && e.payloadHash == sealing.hash(payload)
                 && (e.proxySignature == sealing.sign(e.payloadHash) || e.proxySignature == "0x")
  {
    EveryRunKeepsInv(sealing, steps, s);
    var Finished(inputs, outcome, seal, entry) := s.requests[id];
    AuditedUnderAgent(inputs);
    var payload := PayloadOf(outcome.audited.value, seal);
    assert e.encryptedPayload == sealing.encrypt(payload, seal.iv);
  }

  /** Nothing is invented either: every entry the queue holds or has written stands for exactly one request, one
      whose audit stage has finished. */
  lemma NoEntryWithoutRequest(sealing: Sealing, steps: seq<Step>, t: State, e: AuditEntry)
    requires Exec(Init(sealing), steps) == Reached(t) && Copies(t.queue, e) > 0
    ensures exists id :: EntryOf(t, id, e) && forall other :: EntryOf(t, other, e) ==> other == id
  {
    EveryRunKeepsInv(sealing, steps, t);
    assert multiset(t.queue.enqueued)[e] == Queue.Live(t.queue)[e] + multiset(t.queue.acked)[e];
    assert e in t.queue.enqueued;
    var id :| EntryOf(t, id, e);
  }
}
