/** Verification of signed requests, and why none is accepted twice. */
module SignedRequests {
  import opened CanonicalPayload
  import opened Common
  import opened NonceStore

  datatype SignedRequest = SignedRequest(
    agentAddress: string, signature: string, nonce: string, timestamp: Timestamp, method_: string, targetUrl: string)

  datatype AuthError = InvalidSignature | InvalidNonce | TimestampDrift

  datatype Verification = Accepted(agent: string) | Refused(error: AuthError)

  const WINDOW_SECONDS: int := 300

  /** Foreign code: recovery of the signer from a payload and a signature, None when it throws, and the printing
      of numbers beyond the safe integers. */
  datatype Crypto = Crypto(recover: (string, string) -> Option<string>, showLarge: int -> string)

  function Payload(c: Crypto, req: SignedRequest): string {
    if Plain(req.timestamp) then BuildCanonicalPayload(req.method_, req.targetUrl, req.nonce, req.timestamp)
    else req.method_ + "\n" + req.targetUrl + "\n" + req.nonce + "\n" + c.showLarge(req.timestamp.value)
  }

  function LowerChar(ch: char): char {
    if 'A' <= ch <= 'Z' then 'a' + (ch - 'A') else ch
  }

  function ToLower(s: string): string {
    seq(|s|, i requires 0 <= i < |s| => LowerChar(s[i]))
  }

  lemma LowerCharIff(x: char, y: char)
    ensures LowerChar(x) == LowerChar(y) <==> SameLetter(x, y)
  {
  }

  /** Two strings are equal in lower case exactly when they differ at most in the case of letters. */
  lemma ToLowerIff(a: string, b: string)
    ensures ToLower(a) == ToLower(b) <==> SameUpToCase(a, b)
  {
    if SameUpToCase(a, b) {
      forall i | 0 <= i < |a|
        ensures ToLower(a)[i] == ToLower(b)[i]
      {
        LowerCharIff(a[i], b[i]);
      }
    }
    if ToLower(a) == ToLower(b) {
      assert |ToLower(a)| == |a| && |ToLower(b)| == |b|;
      forall i | 0 <= i < |a|
        ensures SameLetter(a[i], b[i])
      {
        assert ToLower(a)[i] == ToLower(b)[i];
        LowerCharIff(a[i], b[i]);
      }
    }
  }

  /** The signature over the request's payload is this agent's, and the request claims its address, up to case. */
  ghost predicate SignedBy(c: Crypto, req: SignedRequest, agent: string) {
    && c.recover(Payload(c, req), req.signature) == Some(agent)
    && IsAgentAddress(agent) && SameUpToCase(agent, req.agentAddress)
  }

  /** The signer of a request, when recovery succeeds and agrees with the claimed address up to letter case. */
  function Signer(c: Crypto, req: SignedRequest): Option<string> {
    match c.recover(Payload(c, req), req.signature)
    case None => None
    case Some(agent) =>
      if IsAgentAddress(agent) && ToLower(agent) == ToLower(req.agentAddress) then Some(agent) else None
  }

  lemma SignerIff(c: Crypto, req: SignedRequest, agent: string)
    ensures Signer(c, req) == Some(agent) <==> SignedBy(c, req, agent)
  {
    ToLowerIff(agent, req.agentAddress);
  }

  /** The timestamp is further than the window from the clock; never so for NaN. */
  predicate Drifted(window: int, now: int, timestamp: Timestamp) {
    timestamp.Seconds? && (now - timestamp.value > window || timestamp.value - now > window)
  }

  /** The decision about a request and the flat nonce store after it. */
  ghost function Verified(c: Crypto, window: int, flat: imap<Key, Timestamp>, req: SignedRequest, now: int)
    : (Verification, imap<Key, Timestamp>)
  {
    match Signer(c, req)
    case None => (Refused(InvalidSignature), flat)
    case Some(agent) =>
      var key := (agent, req.nonce);
      if key in flat then (Refused(InvalidNonce), flat)
      else if Drifted(window, now, req.timestamp) then (Refused(TimestampDrift), flat[key := req.timestamp])
      else (Accepted(agent), flat[key := req.timestamp])
  }

  /** The decision about a request, by its cause: it is accepted for an agent exactly when it is signed by the agent,
      the agent has not used the nonce, and its timestamp is within 300 seconds of the clock, either way, or no
      number. */
  lemma AcceptedIff(c: Crypto, flat: imap<Key, Timestamp>, req: SignedRequest, now: int, agent: string)
    ensures Verified(c, WINDOW_SECONDS, flat, req, now).0 == Accepted(agent) <==>
            && c.recover(Payload(c, req), req.signature) == Some(agent)
            && IsAgentAddress(agent) && SameUpToCase(agent, req.agentAddress)
            && (agent, req.nonce) !in flat
            && (req.timestamp.Seconds? ==> -300 <= now - req.timestamp.value <= 300)
  {
    SignerIff(c, req, agent);
  }

  /** A request that is refused is refused for the first reason that applies, and only a signed request with an unused
      nonce leaves its nonce behind. */
  lemma RefusedFor(c: Crypto, flat: imap<Key, Timestamp>, req: SignedRequest, now: int)
    ensures var (decision, after) := Verified(c, WINDOW_SECONDS, flat, req, now);
            && (decision == Refused(InvalidSignature) <==> forall agent :: !SignedBy(c, req, agent))
            && (forall agent :: SignedBy(c, req, agent) ==>
                  && (decision == Refused(InvalidNonce) <==> (agent, req.nonce) in flat)
                  && after == if (agent, req.nonce) in flat then flat else flat[(agent, req.nonce) := req.timestamp])
            && (decision == Refused(InvalidSignature) ==> after == flat)
  {
    forall agent
      ensures Signer(c, req) == Some(agent) <==> SignedBy(c, req, agent)
    {
      SignerIff(c, req, agent);
    }
    assert Signer(c, req).Some? ==> SignedBy(c, req, Signer(c, req).value);
  }

  /** Recover the signer, check and store the nonce, and only then check the timestamp. */
  method VerifySignedRequest(c: Crypto, req: SignedRequest, nonceValidator: NonceValidator, now: int)
    returns (r: Verification)
    requires nonceValidator.Valid()
    modifies nonceValidator
    ensures nonceValidator.Valid()
    ensures (r, Flat(nonceValidator.nonceStore)) ==
            Verified(c, WINDOW_SECONDS, old(Flat(nonceValidator.nonceStore)), req, now)
    ensures r.Accepted? ==>
              && c.recover(Payload(c, req), req.signature) == Some(r.agent)
              && IsAgentAddress(r.agent) && SameUpToCase(r.agent, req.agentAddress)
  {
    ToLowerIff(match c.recover(Payload(c, req), req.signature) case Some(a) => a case None => "", req.agentAddress);
    var recovered := c.recover(Payload(c, req), req.signature);
    if recovered.None? || !IsAgentAddress(recovered.value) {
      return Refused(InvalidSignature);
    }
    var recoveredSigner := recovered.value;
    if ToLower(recoveredSigner) != ToLower(req.agentAddress) {
      return Refused(InvalidSignature);
    }
    var nonceOk := nonceValidator.ValidateAndStore(recoveredSigner, req.nonce, req.timestamp);
    if !nonceOk {
      return Refused(InvalidNonce);
    }
    if Drifted(WINDOW_SECONDS, now, req.timestamp) {
      return Refused(TimestampDrift);
    }
    return Accepted(recoveredSigner);
  }

  // ---------------------------------------------------------------- runs

  datatype Limits = Limits(expiry: int, window: int)

  const LIMITS := Limits(EXPIRY_SECONDS, WINDOW_SECONDS)

  datatype Acceptance = Acceptance(req: SignedRequest, agent: string, at: nat)

  /** The clock in milliseconds, the nonces stored, and the requests accepted so far. */
  datatype State = State(nowMs: nat, flat: imap<Key, Timestamp>, accepted: seq<Acceptance>)

  datatype Step = Tick(ms: nat) | Verify(req: SignedRequest) | Cleanup

  ghost function Init(nowMs: nat): State {
    State(nowMs, imap[], [])
  }

  function Clock(s: State): nat {
    s.nowMs / 1000
  }

  ghost function Next(c: Crypto, limits: Limits, s: State, step: Step): State {
    match step
    case Tick(ms) => s.(nowMs := s.nowMs + ms)
    case Cleanup => s.(flat := Unexpired(s.flat, limits.expiry, Clock(s)))
    case Verify(req) =>
      var (decision, flat) := Verified(c, limits.window, s.flat, req, Clock(s));
      s.(flat := flat,
         accepted := match decision
                     case Accepted(agent) => s.accepted + [Acceptance(req, agent, Clock(s))]
                     case Refused(_) => s.accepted)
  }

  ghost function Exec(c: Crypto, limits: Limits, s: State, steps: seq<Step>): State {
    if steps == [] then s
    else Next(c, limits, Exec(c, limits, s, steps[..|steps| - 1]), steps[|steps| - 1])
  }

  function KeyOf(a: Acceptance): Key {
    (a.agent, a.req.nonce)
  }

  // ---------------------------------------------------------------- what every step keeps

  /** An accepted nonce is still stored with a timestamp no older than the accepted one, or its timestamp is so old
      that a cleanup may have dropped it; a NaN is stored for ever. */
  ghost predicate Remembered(limits: Limits, s: State, a: Acceptance) {
    match a.req.timestamp
    case NaN => KeyOf(a) in s.flat && s.flat[KeyOf(a)] == NaN
    case Seconds(v) =>
      || (KeyOf(a) in s.flat && (s.flat[KeyOf(a)].Seconds? ==> s.flat[KeyOf(a)].value >= v))
      || Clock(s) - v > limits.expiry
  }

  ghost predicate AcceptedRightly(c: Crypto, limits: Limits, s: State, a: Acceptance) {
    && a.at <= Clock(s) && Signer(c, a.req) == Some(a.agent)
    && !Drifted(limits.window, a.at, a.req.timestamp)
  }

  /** Of two acceptances of one nonce the first has a number for a timestamp, and the second a NaN or a greater one. */
  ghost predicate Ordered(a: Acceptance, b: Acceptance) {
    KeyOf(a) == KeyOf(b) ==>
      a.req.timestamp.Seconds? && (b.req.timestamp.Seconds? ==> a.req.timestamp.value < b.req.timestamp.value)
  }

  ghost predicate Inv(c: Crypto, limits: Limits, s: State) {
    && (forall i :: 0 <= i < |s.accepted| ==>
          AcceptedRightly(c, limits, s, s.accepted[i]) && Remembered(limits, s, s.accepted[i]))
    && (forall i, j :: 0 <= i < j < |s.accepted| ==> Ordered(s.accepted[i], s.accepted[j]))
  }

  lemma RememberedStep(c: Crypto, limits: Limits, s: State, step: Step, a: Acceptance)
    requires Remembered(limits, s, a)
    ensures Remembered(limits, Next(c, limits, s, step), a)
  {
  }

  /** A new acceptance is later than every earlier one of the same nonce, because the expiry covers the window. */
  lemma NewIsOrdered(c: Crypto, limits: Limits, s: State, req: SignedRequest, a: Acceptance)
    requires limits.window <= limits.expiry && Remembered(limits, s, a)
    requires Verified(c, limits.window, s.flat, req, Clock(s)).0.Accepted?
    ensures Ordered(a, Acceptance(req, Verified(c, limits.window, s.flat, req, Clock(s)).0.agent, Clock(s)))
  {
  }

  lemma InvStep(c: Crypto, limits: Limits, s: State, step: Step)
    requires limits.window <= limits.expiry && Inv(c, limits, s)
    ensures Inv(c, limits, Next(c, limits, s, step))
  {
    var t := Next(c, limits, s, step);
    forall i | 0 <= i < |t.accepted|
      ensures AcceptedRightly(c, limits, t, t.accepted[i]) && Remembered(limits, t, t.accepted[i])
    {
      if i < |s.accepted| {
        RememberedStep(c, limits, s, step, s.accepted[i]);
      }
    }
    forall i, j | 0 <= i < j < |t.accepted|
      ensures Ordered(t.accepted[i], t.accepted[j])
    {
      if j == |s.accepted| {
        NewIsOrdered(c, limits, s, step.req, s.accepted[i]);
      } else {
        assert Ordered(s.accepted[i], s.accepted[j]);
      }
    }
  }

  lemma {:induction false} EveryRunKeepsInv(c: Crypto, limits: Limits, nowMs: nat, steps: seq<Step>)
    requires limits.window <= limits.expiry
    ensures Inv(c, limits, Exec(c, limits, Init(nowMs), steps))
    decreases |steps|
  {
    if steps != [] {
      EveryRunKeepsInv(c, limits, nowMs, steps[..|steps| - 1]);
      InvStep(c, limits, Exec(c, limits, Init(nowMs), steps[..|steps| - 1]), steps[|steps| - 1]);
    }
  }

  // ---------------------------------------------------------------- replay safety

  ghost predicate AcceptsTwice(s: State) {
    exists i, j :: 0 <= i < j < |s.accepted| && s.accepted[i].req == s.accepted[j].req
  }

  /** Over every run with cleanups and a moving clock no signed request is accepted twice, and two acceptances of one
      signer and nonce with numeric timestamps have strictly increasing timestamps. */
  lemma ReplaySafety(c: Crypto, nowMs: nat, steps: seq<Step>, i: nat, j: nat)
    requires i < j < |Exec(c, LIMITS, Init(nowMs), steps).accepted|
    ensures var accepted := Exec(c, LIMITS, Init(nowMs), steps).accepted;
            && accepted[i].req != accepted[j].req
            && Ordered(accepted[i], accepted[j])
  {
    EveryRunKeepsInv(c, LIMITS, nowMs, steps);
    var t := Exec(c, LIMITS, Init(nowMs), steps);
    assert Ordered(t.accepted[i], t.accepted[j]);
    assert AcceptedRightly(c, LIMITS, t, t.accepted[i]) && AcceptedRightly(c, LIMITS, t, t.accepted[j]);
  }

  /** The last second a clock can show. */
  const MAX_CLOCK_SECONDS: int := 8640000000000

  /** Over every run no payload is accepted twice for one signer, whatever the signature's bytes and the letter case of
      the claimed address: the payload fixes the nonce and the timestamp. */
  lemma NoPayloadTwice(c: Crypto, nowMs: nat, steps: seq<Step>, i: nat, j: nat)
    requires var t := Exec(c, LIMITS, Init(nowMs), steps);
             && i < j < |t.accepted| && Clock(t) <= MAX_CLOCK_SECONDS
             && t.accepted[i].agent == t.accepted[j].agent
             && '\n' !in t.accepted[i].req.nonce && '\n' !in t.accepted[i].req.method_
             && '\n' !in t.accepted[j].req.nonce && '\n' !in t.accepted[j].req.method_
    ensures var accepted := Exec(c, LIMITS, Init(nowMs), steps).accepted;
            Payload(c, accepted[i].req) != Payload(c, accepted[j].req)
  {
    var t := Exec(c, LIMITS, Init(nowMs), steps);
    var a, b := t.accepted[i].req, t.accepted[j].req;
    EveryRunKeepsInv(c, LIMITS, nowMs, steps);
    assert Ordered(t.accepted[i], t.accepted[j]);
    assert AcceptedRightly(c, LIMITS, t, t.accepted[i]) && AcceptedRightly(c, LIMITS, t, t.accepted[j]);
    if Payload(c, a) == Payload(c, b) {
      assert Plain(a.timestamp) && Plain(b.timestamp);
      PayloadInjective(a.method_, a.targetUrl, a.nonce, a.timestamp, b.method_, b.targetUrl, b.nonce, b.timestamp);
    }
  }

  /** Over every run each acceptance is for the agent whose signature it carries and whose address it claims. */
  lemma AcceptedForSigner(c: Crypto, nowMs: nat, steps: seq<Step>, i: nat)
    requires i < |Exec(c, LIMITS, Init(nowMs), steps).accepted|
    ensures var a := Exec(c, LIMITS, Init(nowMs), steps).accepted[i];
            && c.recover(Payload(c, a.req), a.req.signature) == Some(a.agent)
            && IsAgentAddress(a.agent) && SameUpToCase(a.agent, a.req.agentAddress)
  {
    EveryRunKeepsInv(c, LIMITS, nowMs, steps);
    var t := Exec(c, LIMITS, Init(nowMs), steps);
    assert AcceptedRightly(c, LIMITS, t, t.accepted[i]);
    SignerIff(c, t.accepted[i].req, t.accepted[i].agent);
  }

  /** Over every run no signature over a payload is accepted twice, whatever address is claimed with it. */
  lemma NoSignatureTwice(c: Crypto, nowMs: nat, steps: seq<Step>, i: nat, j: nat)
    requires var t := Exec(c, LIMITS, Init(nowMs), steps);
             && i < j < |t.accepted| && Clock(t) <= MAX_CLOCK_SECONDS
             && '\n' !in t.accepted[i].req.nonce && '\n' !in t.accepted[i].req.method_
             && '\n' !in t.accepted[j].req.nonce && '\n' !in t.accepted[j].req.method_
    ensures var a, b := Exec(c, LIMITS, Init(nowMs), steps).accepted[i].req,
                        Exec(c, LIMITS, Init(nowMs), steps).accepted[j].req;
            Payload(c, a) != Payload(c, b) || a.signature != b.signature
  {
    var t := Exec(c, LIMITS, Init(nowMs), steps);
    AcceptedForSigner(c, nowMs, steps, i);
    AcceptedForSigner(c, nowMs, steps, j);
    if t.accepted[i].agent == t.accepted[j].agent {
      NoPayloadTwice(c, nowMs, steps, i, j);
    }
  }

  lemma ExecOneMore(c: Crypto, limits: Limits, s: State, steps: seq<Step>, step: Step)
    ensures Exec(c, limits, s, steps + [step]) == Next(c, limits, Exec(c, limits, s, steps), step)
  {
    assert (steps + [step])[..|steps|] == steps;
  }

  /** With a window wider than the expiry a cleanup forgets a nonce while its timestamp is still acceptable. */
  lemma WiderWindowReplays(c: Crypto, limits: Limits, req: SignedRequest)
    requires 0 <= limits.expiry < limits.window
    requires Signer(c, req).Some? && req.timestamp.Seconds? && req.timestamp.value >= 0
    ensures exists nowMs, steps :: AcceptsTwice(Exec(c, limits, Init(nowMs), steps))
  {
    var nowMs := req.timestamp.value * 1000;
    var wait := (limits.expiry + 1) * 1000;
    var s0 := Init(nowMs);
    var run := [Verify(req), Tick(wait), Cleanup, Verify(req)];
    ExecOneMore(c, limits, s0, [], Verify(req));
    assert [] + [Verify(req)] == [Verify(req)];
    ExecOneMore(c, limits, s0, [Verify(req)], Tick(wait));
    assert [Verify(req)] + [Tick(wait)] == [Verify(req), Tick(wait)];
    ExecOneMore(c, limits, s0, [Verify(req), Tick(wait)], Cleanup);
    assert [Verify(req), Tick(wait)] + [Cleanup] == [Verify(req), Tick(wait), Cleanup];
    ExecOneMore(c, limits, s0, [Verify(req), Tick(wait), Cleanup], Verify(req));
    assert [Verify(req), Tick(wait), Cleanup] + [Verify(req)] == run;
    var t := Exec(c, limits, s0, run);
    assert t.accepted[0].req == t.accepted[1].req;
    assert AcceptsTwice(t);
  }

  /** The expiry and the window must fit together, and it is enough that they do: no run accepts a request twice
      exactly when the window is no wider than the expiry. */
  lemma ReplaySafeIffExpiryCoversWindow(c: Crypto, limits: Limits, req: SignedRequest)
    requires 0 <= limits.expiry && Signer(c, req).Some? && req.timestamp.Seconds? && req.timestamp.value >= 0
    ensures (forall nowMs, steps :: !AcceptsTwice(Exec(c, limits, Init(nowMs), steps))) <==>
            limits.window <= limits.expiry
  {
    if limits.window <= limits.expiry {
      forall nowMs, steps
        ensures !AcceptsTwice(Exec(c, limits, Init(nowMs), steps))
      {
        EveryRunKeepsInv(c, limits, nowMs, steps);
        var t := Exec(c, limits, Init(nowMs), steps);
        forall i, j | 0 <= i < j < |t.accepted|
          ensures t.accepted[i].req != t.accepted[j].req
        {
          assert Ordered(t.accepted[i], t.accepted[j]);
          assert AcceptedRightly(c, limits, t, t.accepted[i]) && AcceptedRightly(c, limits, t, t.accepted[j]);
        }
      }
    } else {
      WiderWindowReplays(c, limits, req);
    }
  }

  // ---------------------------------------------------------------- freshness and forgetting

  /** The timestamp is a number within the window of a time. */
  predicate WithinWindow(window: int, at: int, timestamp: Timestamp) {
    timestamp.Seconds? && at - window <= timestamp.value <= at + window
  }

  /** An accepted request is within the window of the time at which it was accepted exactly when its timestamp is a
      number. */
  lemma FreshIffNumeric(c: Crypto, nowMs: nat, steps: seq<Step>, i: nat)
    requires i < |Exec(c, LIMITS, Init(nowMs), steps).accepted|
    ensures var a := Exec(c, LIMITS, Init(nowMs), steps).accepted[i];
            WithinWindow(300, a.at, a.req.timestamp) <==> a.req.timestamp.Seconds?
  {
    EveryRunKeepsInv(c, LIMITS, nowMs, steps);
    var t := Exec(c, LIMITS, Init(nowMs), steps);
    assert AcceptedRightly(c, LIMITS, t, t.accepted[i]);
  }

  /** A nonce stored with NaN stays stored in every continuation. */
  lemma {:induction false} NanIsNeverForgotten(c: Crypto, limits: Limits, s: State, steps: seq<Step>, key: Key)
    requires key in s.flat && s.flat[key] == NaN
    ensures var t := Exec(c, limits, s, steps); key in t.flat && t.flat[key] == NaN
    decreases |steps|
  {
    if steps != [] {
      NanIsNeverForgotten(c, limits, s, steps[..|steps| - 1], key);
    }
  }

  /** A request whose timestamp is not a number is accepted at any time, if its nonce is unused, and no request of its
      signer with that nonce is accepted in any continuation. */
  lemma NanAcceptedOnceForEver(
      c: Crypto, limits: Limits, s: State, req: SignedRequest, agent: string, steps: seq<Step>, again: SignedRequest)
    requires Signer(c, req) == Some(agent) && req.timestamp.NaN? && (agent, req.nonce) !in s.flat
    requires Signer(c, again) == Some(agent) && again.nonce == req.nonce
    ensures var t := Next(c, limits, s, Verify(req));
            var u := Exec(c, limits, t, steps);
            && t.accepted == s.accepted + [Acceptance(req, agent, Clock(s))]
            && Verified(c, limits.window, u.flat, again, Clock(u)).0 == Refused(InvalidNonce)
  {
    NanIsNeverForgotten(c, limits, Next(c, limits, s, Verify(req)), steps, (agent, req.nonce));
  }

  /** A nonce stored with a number stays stored until the number is older than the expiry, however far in the future
      it is. */
  lemma {:induction false} StoredUntilExpiry(c: Crypto, limits: Limits, s: State, steps: seq<Step>, key: Key, v: int)
    requires key in s.flat && s.flat[key] == Seconds(v)
    requires Clock(Exec(c, limits, s, steps)) <= v + limits.expiry
    ensures var t := Exec(c, limits, s, steps); key in t.flat && t.flat[key] == Seconds(v)
    decreases |steps|
  {
    if steps != [] {
      StoredUntilExpiry(c, limits, s, steps[..|steps| - 1], key, v);
    }
  }

  /** No cleanup later than a time leaves the key stored with the timestamp. */
  ghost predicate ForgottenAfter(
      c: Crypto, limits: Limits, s: State, key: Key, timestamp: Timestamp, time: int)
  {
    forall steps :: Clock(Exec(c, limits, s, steps)) > time ==>
      var t := Exec(c, limits, s, steps + [Cleanup]);
      !(key in t.flat && t.flat[key] == timestamp)
  }

  /** Past the first second after the time, a cleanup that keeps a timestamp keeps it. */
  lemma KeptPast(c: Crypto, limits: Limits, s: State, key: Key, timestamp: Timestamp, time: nat)
    requires key in s.flat && s.flat[key] == timestamp && time >= Clock(s)
    requires !Expired(limits.expiry, time + 1, timestamp)
    ensures !ForgottenAfter(c, limits, s, key, timestamp, time)
  {
    var wait := Tick((time + 1 - Clock(s)) * 1000);
    ExecOneMore(c, limits, s, [], wait);
    assert [] + [wait] == [wait];
    var t := Exec(c, limits, s, [wait]);
    assert Clock(t) == time + 1;
    ExecOneMore(c, limits, s, [wait], Cleanup);
    assert key in Exec(c, limits, s, [wait] + [Cleanup]).flat;
  }

  /** A verified request that stores its nonce, accepted or refused for its timestamp, is forgotten by every cleanup
      later than expiry plus window after it, if and only if its timestamp is a number no further in the future than
      the window. */
  lemma ForgottenIff(c: Crypto, limits: Limits, s: State, req: SignedRequest, agent: string)
    requires 0 <= limits.expiry && 0 <= limits.window
    requires Signer(c, req) == Some(agent) && (agent, req.nonce) !in s.flat
    ensures ForgottenAfter(c, limits, Next(c, limits, s, Verify(req)), (agent, req.nonce), req.timestamp,
                           Clock(s) + limits.expiry + limits.window)
            <==>
            req.timestamp.Seconds? && req.timestamp.value <= Clock(s) + limits.window
  {
    var t, key, time := Next(c, limits, s, Verify(req)), (agent, req.nonce), Clock(s) + limits.expiry + limits.window;
    if req.timestamp.Seconds? && req.timestamp.value <= Clock(s) + limits.window {
      forall steps | Clock(Exec(c, limits, t, steps)) > time
        ensures var u := Exec(c, limits, t, steps + [Cleanup]); !(key in u.flat && u.flat[key] == req.timestamp)
      {
        ExecOneMore(c, limits, t, steps, Cleanup);
      }
    } else {
      KeptPast(c, limits, t, key, req.timestamp, time);
    }
  }

  /** In particular a cleanup more than 600 seconds after an acceptance with a numeric timestamp leaves nothing stored
      under its nonce with that timestamp. */
  lemma CleanupForgets(c: Crypto, nowMs: nat, steps: seq<Step>, i: nat)
    requires var s := Exec(c, LIMITS, Init(nowMs), steps);
             && i < |s.accepted| && s.accepted[i].req.timestamp.Seconds?
             && Clock(s) > s.accepted[i].at + 600
    ensures var t := Exec(c, LIMITS, Init(nowMs), steps + [Cleanup]);
            var a := Exec(c, LIMITS, Init(nowMs), steps).accepted[i];
            KeyOf(a) in t.flat ==> t.flat[KeyOf(a)] != a.req.timestamp
  {
    EveryRunKeepsInv(c, LIMITS, nowMs, steps);
    ExecOneMore(c, LIMITS, Init(nowMs), steps, Cleanup);
    var s := Exec(c, LIMITS, Init(nowMs), steps);
    assert AcceptedRightly(c, LIMITS, s, s.accepted[i]);
  }
}
