/** Requests, the permission cache and the chain under one clock: when a revoked agent can last reach the executor. */
module RevokedCalls {
  import opened Common
  import opened RbacContract
  import opened RoleCache
  import opened Registry
  import opened Pipeline
  import Staleness = RoleStaleness

  /** A forward request that looks its agent's role up: waiting for the cache, given the i-th result that the cache
      served, or in the executor since a moment. */
  datatype Progress =
    | LookingUp(inputs: Inputs)
    | Decided(inputs: Inputs, result: nat)
    | Called(inputs: Inputs, result: nat, at: nat)

  datatype State = State(cache: Staleness.State, requests: map<nat, Progress>)

  /** CacheStep is a step of the cache, the chain or the clock, LookUp begins a request's get, and CallExecutor takes a
      request from its role to the executor. */
  datatype Step =
    | CacheStep(step: Staleness.Step)
    | LookUp(id: nat, inputs: Inputs)
    | CallExecutor(id: nat)

  function Init(now: nat): State {
    State(Staleness.Init(now), map[])
  }

  /** The id of the get that a step may answer. */
  function GetOf(step: Staleness.Step): Option<nat> {
    match step
    case BeginGet(id, _) => Some(id)
    case Store(id) => Some(id)
    case ReadFails(id) => Some(id)
    case _ => None
  }

  /** What a request makes of a result served. */
  function LookupOf(served: Staleness.Served): Lookup {
    match served
    case ServedRole(_, role, _, _) => Lookup.Ok(role)
    case ServedError(_, error, _) => Lookup.Err(error)
  }

  /** A step of the cache; if it answers the get of a request, the request goes on with the result. */
  function WithCache(env: Staleness.Env, s: State, step: Staleness.Step): State
    requires Staleness.Enabled(env, s.cache, step)
  {
    var cache := Staleness.Next(env, s.cache, step);
    var n := |s.cache.served|;
    match GetOf(step)
    case None => s.(cache := cache)
    case Some(id) =>
      if |cache.served| > n && id in s.requests && s.requests[id].LookingUp? then
        State(cache, s.requests[id := Decided(s.requests[id].inputs.(lookup := LookupOf(cache.served[n])), n)])
      else
        s.(cache := cache)
  }

  /** A request gets as far as the lookup when its signer was recovered and a tool matched. The executor is called when
      the pipeline calls it, at most holdMs after the role was served: between the two the handler awaits the
      request's body. */
  predicate Enabled(env: Staleness.Env, holdMs: nat, s: State, step: Step) {
    match step
    case CacheStep(c) => Staleness.Enabled(env, s.cache, c)
    case LookUp(id, inputs) =>
      && id !in s.requests && id !in s.cache.pending
      && Truthy(inputs.recovered) && Find(inputs.tools, inputs.request.targetUrl).Some?
    case CallExecutor(id) =>
      && id in s.requests && s.requests[id].Decided? && Handled(s.requests[id].inputs).call.Some?
      && s.requests[id].result < |s.cache.served|
      && s.cache.now <= s.cache.served[s.requests[id].result].at + holdMs
  }

  function Next(env: Staleness.Env, holdMs: nat, s: State, step: Step): State
    requires Enabled(env, holdMs, s, step)
  {
    match step
    case CacheStep(c) => WithCache(env, s, c)
    case LookUp(id, inputs) =>
      var looking := s.(requests := s.requests[id := LookingUp(inputs)]);
      WithCache(env, looking, Staleness.BeginGet(id, inputs.recovered.value))
    case CallExecutor(id) =>
      var Decided(inputs, result) := s.requests[id];
      s.(requests := s.requests[id := Called(inputs, result, s.cache.now)])
  }

  function Exec(env: Staleness.Env, holdMs: nat, s: State, steps: seq<Step>): Reach<State> {
    if steps == [] then
      Reached(s)
    else
      match Exec(env, holdMs, s, steps[..|steps| - 1])
      case Stuck => Stuck
      case Reached(t) =>
        var last := steps[|steps| - 1];
        if Enabled(env, holdMs, t, last) then Reached(Next(env, holdMs, t, last)) else Stuck
  }

  // ---------------------------------------------------------------- what every step keeps

  /** The result was served for the request's agent and is the lookup it goes on with. */
  ghost predicate Given(cache: Staleness.State, inputs: Inputs, result: nat) {
    && result < |cache.served| && inputs.recovered == Some(cache.served[result].key)
    && inputs.lookup == LookupOf(cache.served[result])
  }

  /** How a request stands: its get is still pending under its id, or its result was given to it, and the executor was
      called within the bound if it was. */
  ghost predicate RequestOk(cache: Staleness.State, holdMs: nat, id: nat, request: Progress) {
    match request
    case LookingUp(inputs) => id in cache.pending && inputs.recovered == Some(cache.pending[id].key)
    case Decided(inputs, result) => Given(cache, inputs, result)
    case Called(inputs, result, at) =>
      Given(cache, inputs, result) && at <= cache.served[result].at + holdMs && Handled(inputs).call.Some?
  }

  ghost predicate Inv(env: Staleness.Env, holdMs: nat, s: State) {
    && Staleness.Inv(env, s.cache)
    && forall id <- s.requests :: RequestOk(s.cache, holdMs, id, s.requests[id])
  }

  /** The step answers this get. */
  predicate Answers(env: Staleness.Env, s: Staleness.State, step: Staleness.Step, id: nat)
    requires Staleness.Enabled(env, s, step)
  {
    GetOf(step) == Some(id) && |Staleness.Next(env, s, step).served| > |s.served|
  }

  lemma ServedStays(env: Staleness.Env, s: Staleness.State, step: Staleness.Step)
    requires Staleness.Enabled(env, s, step)
    ensures s.served <= Staleness.Next(env, s, step).served
  {
  }

  /** A pending get stays pending under its key until a step answers it. */
  lemma GetStays(env: Staleness.Env, s: Staleness.State, step: Staleness.Step, id: nat)
    requires Staleness.Enabled(env, s, step) && id in s.pending && !Answers(env, s, step, id)
    ensures var t := Staleness.Next(env, s, step); id in t.pending && t.pending[id].key == s.pending[id].key
  {
  }

  /** The step that answers it serves its key. */
  lemma GetServed(env: Staleness.Env, s: Staleness.State, step: Staleness.Step, id: nat)
    requires Staleness.Enabled(env, s, step) && id in s.pending && Answers(env, s, step, id)
    ensures Staleness.Next(env, s, step).served[|s.served|].key == s.pending[id].key
  {
  }

  lemma RequestStays(
      env: Staleness.Env, holdMs: nat, s: Staleness.State, step: Staleness.Step, id: nat, request: Progress)
    requires Staleness.Enabled(env, s, step) && RequestOk(s, holdMs, id, request)
    requires request.LookingUp? ==> !Answers(env, s, step, id)
    ensures RequestOk(Staleness.Next(env, s, step), holdMs, id, request)
  {
    if request.LookingUp? {
      GetStays(env, s, step, id);
    } else {
      ServedStays(env, s, step);
    }
  }

  /** A request waiting for the cache is either still waiting after a step or goes on with what the step served. */
  lemma CacheStepKeepsInv(env: Staleness.Env, holdMs: nat, s: State, step: Staleness.Step)
    requires env.ttlMs > 0 && Inv(env, holdMs, s) && Staleness.Enabled(env, s.cache, step)
    ensures Inv(env, holdMs, WithCache(env, s, step))
  {
    var t := WithCache(env, s, step);
    Staleness.InvStep(env, s.cache, step);
    forall id <- t.requests
      ensures RequestOk(t.cache, holdMs, id, t.requests[id])
    {
      assert RequestOk(s.cache, holdMs, id, s.requests[id]);
      if s.requests[id].LookingUp? && Answers(env, s.cache, step, id) {
        GetServed(env, s.cache, step, id);
      } else {
        RequestStays(env, holdMs, s.cache, step, id, s.requests[id]);
      }
    }
  }

  /** A new request's get is answered at once from the cache, or pending. */
  lemma GetBegins(env: Staleness.Env, holdMs: nat, s: State, id: nat, inputs: Inputs)
    requires Enabled(env, holdMs, s, LookUp(id, inputs))
    ensures var t := Next(env, holdMs, s, LookUp(id, inputs));
            && t.requests == s.requests[id := t.requests[id]] && RequestOk(t.cache, holdMs, id, t.requests[id])
            && t.cache == Staleness.Next(env, s.cache, Staleness.BeginGet(id, inputs.recovered.value))
  {
  }

  lemma LookUpKeepsInv(env: Staleness.Env, holdMs: nat, s: State, id: nat, inputs: Inputs)
    requires env.ttlMs > 0 && Inv(env, holdMs, s) && Enabled(env, holdMs, s, LookUp(id, inputs))
    ensures Inv(env, holdMs, Next(env, holdMs, s, LookUp(id, inputs)))
  {
    var t, get := Next(env, holdMs, s, LookUp(id, inputs)), Staleness.BeginGet(id, inputs.recovered.value);
    Staleness.InvStep(env, s.cache, get);
    GetBegins(env, holdMs, s, id, inputs);
    forall i <- t.requests
      ensures RequestOk(t.cache, holdMs, i, t.requests[i])
    {
      if i != id {
        RequestStays(env, holdMs, s.cache, get, i, s.requests[i]);
      }
    }
  }

  lemma InvStep(env: Staleness.Env, holdMs: nat, s: State, step: Step)
    requires env.ttlMs > 0 && Inv(env, holdMs, s) && Enabled(env, holdMs, s, step)
    ensures Inv(env, holdMs, Next(env, holdMs, s, step))
  {
    match step {
      case CacheStep(c) => CacheStepKeepsInv(env, holdMs, s, c);
      case LookUp(id, inputs) => LookUpKeepsInv(env, holdMs, s, id, inputs);
      case CallExecutor(id) => assert RequestOk(s.cache, holdMs, id, s.requests[id]);
    }
  }

  lemma {:induction false} EveryRunKeepsInv(env: Staleness.Env, holdMs: nat, now: nat, steps: seq<Step>, t: State)
    requires env.ttlMs > 0 && Exec(env, holdMs, Init(now), steps) == Reached(t)
    ensures Inv(env, holdMs, t)
    decreases |steps|
  {
    if steps != [] {
      var s := Exec(env, holdMs, Init(now), steps[..|steps| - 1]).state;
      EveryRunKeepsInv(env, holdMs, now, steps[..|steps| - 1], s);
      InvStep(env, holdMs, s, steps[|steps| - 1]);
    }
  }

  /** Over every interleaving a request goes on with exactly the role, or the error, that the cache served for its
      recovered agent. */
  lemma GoesOnWithServed(
      env: Staleness.Env, holdMs: nat, now: nat, steps: seq<Step>, t: State, id: nat)
    requires env.ttlMs > 0 && Exec(env, holdMs, Init(now), steps) == Reached(t)
    requires id in t.requests && !t.requests[id].LookingUp?
    ensures var inputs, result := t.requests[id].inputs, t.requests[id].result;
            && result < |t.cache.served|
            && match t.cache.served[result]
               case ServedRole(key, role, _, _) =>
                 inputs.recovered == Some(key) && inputs.lookup.Ok? && inputs.lookup.role == role
               case ServedError(key, error, _) =>
                 inputs.recovered == Some(key) && inputs.lookup.Err? && inputs.lookup.error == error
  {
    EveryRunKeepsInv(env, holdMs, now, steps, t);
    assert RequestOk(t.cache, holdMs, id, t.requests[id]);
  }

  // ---------------------------------------------------------------- the revocation guarantee

  /** Over every interleaving of requests, gets, chain calls and time: if the chain has revoked an agent and has set no
      non-zero role for it since, every call of the executor for the agent came less than the delay, the time to live
      and the hold together after the chain applied the revocation. */
  lemma RevokedAgentsStopReachingUpstream(
      env: Staleness.Env, holdMs: nat, now: nat, steps: seq<Step>, t: State, agent: Address, j: nat, id: nat)
    requires env.ttlMs > 0 && Exec(env, holdMs, Init(now), steps) == Reached(t)
    requires Staleness.RevokedSince(t.cache, agent, j)
    requires id in t.requests && t.requests[id].Called? && t.requests[id].inputs.recovered.Some?
    requires env.addressOf(t.requests[id].inputs.recovered.value) == Some(agent)
    ensures t.requests[id].at < t.cache.times[j] + env.delayMs + env.ttlMs + holdMs
  {
    EveryRunKeepsInv(env, holdMs, now, steps, t);
    var Called(inputs, result, at) := t.requests[id];
    assert RequestOk(t.cache, holdMs, id, t.requests[id]);
    assert inputs.lookup.Ok? && inputs.lookup.role.isActive;
    Staleness.ServedBeforeBound(env, t.cache, agent, j, result);
  }
}
