/**
 Signed requests on their way through the pipeline, interleaved: a request is verified in one step and goes through the
 other stages in a later one, while others are verified and cleanups happen in between. No payload takes one signer to
 the executor twice.
 */
module SignedCalls {
  import opened Common
  import opened Pipeline
  import Signed = SignedRequests

  /** A call of the executor, for the request of the acceptance at a position. */
  datatype ExecutorCall = ExecutorCall(acceptance: nat, call: Call)

  /** The requests accepted and not yet answered, under the positions of their acceptances. */
  datatype State = State(signed: Signed.State, pending: map<nat, Request>, calls: seq<ExecutorCall>)

  /** Proceeds takes an accepted request through the stages after the signature check; what it meets there, the role
      lookup and all, is decided at that step. */
  datatype Step =
    | Tick(ms: nat)
    | Cleanup
    | Arrives(claim: Claim, request: Request)
    | Proceeds(acceptance: nat, inputs: Inputs)

  ghost function Init(nowMs: nat): State {
    State(Signed.Init(nowMs), map[], [])
  }

  predicate Enabled(s: State, step: Step) {
    step.Proceeds? ==>
      && step.acceptance in s.pending && step.acceptance < |s.signed.accepted|
      && step.inputs.request == s.pending[step.acceptance]
  }

  /** The outcome of a request for the agent that its verification recovered. */
  ghost function OutcomeOf(s: State, acceptance: nat, inputs: Inputs): Outcome
    requires acceptance < |s.signed.accepted|
  {
    Handled(AfterSignature(inputs, Signed.Accepted(s.signed.accepted[acceptance].agent)))
  }

  ghost function SignedNext(c: Signed.Crypto, s: Signed.State, step: Signed.Step): Signed.State {
    Signed.Next(c, Signed.LIMITS, s, step)
  }

  ghost function Next(c: Signed.Crypto, s: State, step: Step): State
    requires Enabled(s, step)
  {
    match step
    case Tick(ms) => s.(signed := SignedNext(c, s.signed, Signed.Tick(ms)))
    case Cleanup => s.(signed := SignedNext(c, s.signed, Signed.Cleanup))
    case Arrives(claim, request) =>
      var signed := SignedNext(c, s.signed, Signed.Verify(SignedRequestOf(claim, request)));
      var n := |s.signed.accepted|;
      State(signed, if |signed.accepted| > n then s.pending[n := request] else s.pending, s.calls)
    case Proceeds(n, inputs) =>
      var outcome := OutcomeOf(s, n, inputs);
      State(s.signed, s.pending - {n},
            if outcome.call.Some? then s.calls + [ExecutorCall(n, outcome.call.value)] else s.calls)
  }

  ghost function Exec(c: Signed.Crypto, s: State, steps: seq<Step>): Reach<State> {
    if steps == [] then
      Reached(s)
    else
      match Exec(c, s, steps[..|steps| - 1])
      case Stuck => Stuck
      case Reached(t) =>
        var last := steps[|steps| - 1];
        if Enabled(t, last) then Reached(Next(c, t, last)) else Stuck
  }

  // ---------------------------------------------------------------- what every step keeps

  /** A nonce comes in an HTTP header, which holds no newline. */
  predicate HeaderNonce(step: Step) {
    step.Arrives? ==> '\n' !in step.claim.nonce
  }

  /** Accepted requests have no newline in their method and nonce. */
  ghost predicate AcceptedOk(accepted: seq<Signed.Acceptance>) {
    forall i :: 0 <= i < |accepted| ==> '\n' !in accepted[i].req.nonce && '\n' !in accepted[i].req.method_
  }

  /** Each acceptance is pending or has made a call, not both, and made one call at most. */
  ghost predicate CallsOk(calls: seq<ExecutorCall>, pending: set<nat>, accepted: nat) {
    && (forall n <- pending :: n < accepted)
    && (forall i :: 0 <= i < |calls| ==> calls[i].acceptance < accepted && calls[i].acceptance !in pending)
    && (forall i, j :: 0 <= i < j < |calls| ==> calls[i].acceptance != calls[j].acceptance)
  }

  ghost predicate Inv(s: State) {
    CallsOk(s.calls, s.pending.Keys, |s.signed.accepted|) && AcceptedOk(s.signed.accepted)
  }

  /** A verification accepts nothing, or its own request last. */
  lemma VerifyAccepts(c: Signed.Crypto, s: Signed.State, req: Signed.SignedRequest)
    ensures var before, after := s.accepted, SignedNext(c, s, Signed.Verify(req)).accepted;
            after == before || (|after| == |before| + 1 && after[..|before|] == before && after[|before|].req == req)
  {
  }

  lemma OneMoreOk(
      before: seq<Signed.Acceptance>, after: seq<Signed.Acceptance>, claim: Claim, request: Request)
    requires AcceptedOk(before) && '\n' !in claim.nonce
    requires |after| == |before| + 1 && after[..|before|] == before
    requires after[|before|].req == SignedRequestOf(claim, request)
    ensures AcceptedOk(after)
  {
    forall i | 0 <= i < |after|
      ensures '\n' !in after[i].req.nonce && '\n' !in after[i].req.method_
    {
      if i < |before| {
        assert after[..|before|][i] == before[i];
      }
    }
  }

  lemma ArrivalKeepsInv(c: Signed.Crypto, s: State, claim: Claim, request: Request)
    requires Inv(s) && '\n' !in claim.nonce
    ensures Inv(Next(c, s, Arrives(claim, request)))
  {
    var req := SignedRequestOf(claim, request);
    var before, after := s.signed.accepted, SignedNext(c, s.signed, Signed.Verify(req)).accepted;
    VerifyAccepts(c, s.signed, req);
    if after != before {
      OneMoreOk(before, after, claim, request);
    }
  }

  /** A request that proceeds is no longer pending, so it makes no second call. */
  lemma ProceedingKeepsInv(c: Signed.Crypto, s: State, n: nat, inputs: Inputs)
    requires Inv(s) && Enabled(s, Proceeds(n, inputs))
    ensures Inv(Next(c, s, Proceeds(n, inputs)))
  {
  }

  lemma InvStep(c: Signed.Crypto, s: State, step: Step)
    requires Inv(s) && Enabled(s, step) && HeaderNonce(step)
    ensures Inv(Next(c, s, step))
  {
    match step {
      case Arrives(claim, request) => ArrivalKeepsInv(c, s, claim, request);
      case Proceeds(n, inputs) => ProceedingKeepsInv(c, s, n, inputs);
      case _ =>
    }
  }

  lemma {:induction false} EveryRunKeepsInv(c: Signed.Crypto, nowMs: nat, steps: seq<Step>, t: State)
    requires Exec(c, Init(nowMs), steps) == Reached(t) && forall i :: 0 <= i < |steps| ==> HeaderNonce(steps[i])
    ensures Inv(t)
    decreases |steps|
  {
    if steps != [] {
      var s := Exec(c, Init(nowMs), steps[..|steps| - 1]).state;
      EveryRunKeepsInv(c, nowMs, steps[..|steps| - 1], s);
      InvStep(c, s, steps[|steps| - 1]);
    }
  }

  // ---------------------------------------------------------------- the signature check's own run

  /** What the signature check does in a step. */
  function SignedStep(step: Step): Option<Signed.Step> {
    match step
    case Tick(ms) => Some(Signed.Tick(ms))
    case Cleanup => Some(Signed.Cleanup)
    case Arrives(claim, request) => Some(Signed.Verify(SignedRequestOf(claim, request)))
    case Proceeds(_, _) => None
  }

  function SignedSteps(steps: seq<Step>): seq<Signed.Step> {
    if steps == [] then []
    else
      var init, last := SignedSteps(steps[..|steps| - 1]), SignedStep(steps[|steps| - 1]);
      if last.Some? then init + [last.value] else init
  }

  lemma StepIsSigned(c: Signed.Crypto, s: State, step: Step)
    requires Enabled(s, step)
    ensures Next(c, s, step).signed ==
            if SignedStep(step).Some? then SignedNext(c, s.signed, SignedStep(step).value) else s.signed
  {
  }

  lemma {:induction false} SignedRun(c: Signed.Crypto, s: State, steps: seq<Step>, t: State)
    requires Exec(c, s, steps) == Reached(t)
    ensures t.signed == Signed.Exec(c, Signed.LIMITS, s.signed, SignedSteps(steps))
    decreases |steps|
  {
    if steps != [] {
      var init, last := steps[..|steps| - 1], steps[|steps| - 1];
      var u := Exec(c, s, init).state;
      SignedRun(c, s, init, u);
      StepIsSigned(c, u, last);
      if SignedStep(last).Some? {
        Signed.ExecOneMore(c, Signed.LIMITS, s.signed, SignedSteps(init), SignedStep(last).value);
      }
    }
  }

  // ---------------------------------------------------------------- replay safety at the executor

  /** Over every interleaving with cleanups and a moving clock: each acceptance calls the executor at most once, and two
      calls for one signer are for different payloads. So no signature over a payload is forwarded twice, whatever
      address is claimed with it. */
  lemma NoPayloadCallsTwice(c: Signed.Crypto, nowMs: nat, steps: seq<Step>, t: State, i: nat, j: nat)
    requires Exec(c, Init(nowMs), steps) == Reached(t) && forall k :: 0 <= k < |steps| ==> HeaderNonce(steps[k])
    requires i < j < |t.calls| && Signed.Clock(t.signed) <= Signed.MAX_CLOCK_SECONDS
    ensures var accepted, a, b := t.signed.accepted, t.calls[i].acceptance, t.calls[j].acceptance;
            && a < |accepted| && b < |accepted| && a != b
            && (accepted[a].agent == accepted[b].agent ==>
                  Signed.Payload(c, accepted[a].req) != Signed.Payload(c, accepted[b].req))
            && !(Signed.Payload(c, accepted[a].req) == Signed.Payload(c, accepted[b].req) &&
                 accepted[a].req.signature == accepted[b].req.signature)
  {
    EveryRunKeepsInv(c, nowMs, steps, t);
    SignedRun(c, Init(nowMs), steps, t);
    var a, b := t.calls[i].acceptance, t.calls[j].acceptance;
    Signed.NoSignatureTwice(c, nowMs, SignedSteps(steps), if a < b then a else b, if a < b then b else a);
    if t.signed.accepted[a].agent == t.signed.accepted[b].agent {
      Signed.NoPayloadTwice(c, nowMs, SignedSteps(steps), if a < b then a else b, if a < b then b else a);
    }
  }
}
