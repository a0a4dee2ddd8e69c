/** The permission cache as the object of the source: a map with expiry times, filled from chain reads with retry. */
module RoleCache {
  import opened Common
  import opened Roles

  datatype ServiceError = ServiceError(code: int, httpStatus: int)

  datatype Lookup = Ok(role: RoleWithPermissions) | Err(error: ServiceError)

  /** How a write to the chain through the driver ends. */
  datatype Written = Wrote(txHash: string) | Failed | Threw

  datatype Revocation = Revoked(txHash: string) | NotRevoked(error: ServiceError)

  const UNAVAILABLE := ServiceError(-32022, 503)
  const INTERNAL := ServiceError(-32603, 500)
  const INVALID := ServiceError(-32600, 400)

  const READ_ATTEMPTS: nat := 3

  datatype CacheEntry = CacheEntry(role: RoleWithPermissions, expiresAt: int)

  type Cache = map<string, CacheEntry>

  /** The entry that answers a get without a chain read. */
  predicate Hit(cache: Cache, agent: string, now: int) {
    agent in cache && cache[agent].expiresAt > now
  }

  /** The cache after a chain read has been stored at the given time. */
  function Stored(cache: Cache, agent: string, role: RoleWithPermissions, now: int, ttlMs: nat): Cache {
    cache[agent := CacheEntry(role, now + ttlMs)]
  }

  /** A stored role answers gets on its own key until exactly its time to live has passed, and changes no other
      entry. */
  lemma StoredAnswers(cache: Cache, agent: string, role: RoleWithPermissions, at: int, ttlMs: nat, now: int)
    ensures var after := Stored(cache, agent, role, at, ttlMs);
            && (Hit(after, agent, now) <==> now < at + ttlMs) && after[agent].role == role
            && (forall other :: other != agent ==>
                  (Hit(after, other, now) <==> Hit(cache, other, now)) &&
                  (Hit(cache, other, now) ==> other in after && after[other] == cache[other]))
  {
  }

  /** What another task does to the cache while a get awaits the chain. */
  datatype CacheCall =
    | StoreCall(key: string, role: RoleWithPermissions, at: int)
    | InvalidateCall(key: string)
    | ClearCall

  function AfterCalls(cache: Cache, calls: seq<CacheCall>, n: nat, ttlMs: nat): Cache
    requires n <= |calls|
  {
    if n == 0 then cache
    else
      var before := AfterCalls(cache, calls, n - 1, ttlMs);
      match calls[n - 1]
      case StoreCall(key, role, at) => Stored(before, key, role, at, ttlMs)
      case InvalidateCall(key) => before - {key}
      case ClearCall => map[]
  }

  /** What the driver answers to the first three reads, None for a read that throws: the first answer counts. */
  function FirstAnswer(answers: nat -> Option<Role>, n: nat): Option<Role> {
    if n == 0 then None
    else if FirstAnswer(answers, n - 1).Some? then FirstAnswer(answers, n - 1)
    else answers(n - 1)
  }

  /** There is an answer exactly when one of the attempts got one. */
  lemma {:induction false} AnswerIffSomeAttempt(answers: nat -> Option<Role>, n: nat)
    ensures FirstAnswer(answers, n).Some? <==> exists i: nat :: i < n && answers(i).Some?
    ensures FirstAnswer(answers, n).Some? ==>
              exists i: nat ::
                i < n && answers(i) == FirstAnswer(answers, n) && forall j: nat :: j < i ==> answers(j).None?
  {
    if n != 0 {
      AnswerIffSomeAttempt(answers, n - 1);
    }
  }

  lemma {:induction false} AnswerStays(answers: nat -> Option<Role>, n: nat, m: nat)
    requires n <= m && FirstAnswer(answers, n).Some?
    ensures FirstAnswer(answers, m) == FirstAnswer(answers, n)
  {
    if n < m {
      AnswerStays(answers, n, m - 1);
    }
  }

  /** The first answer of three reads. */
  lemma FirstOfThree(answers: nat -> Option<Role>)
    ensures FirstAnswer(answers, 3) ==
            if answers(0).Some? then answers(0) else if answers(1).Some? then answers(1) else answers(2)
  {
    assert FirstAnswer(answers, 1) == answers(0);
    assert FirstAnswer(answers, 2) == if answers(0).Some? then answers(0) else answers(1);
  }

  /** Reads answered as given, and those after them failing. */
  function Reads(answers: seq<Option<Role>>): nat -> Option<Role> {
    (i: nat) => if i < |answers| then answers[i] else None
  }

  /** No read of these got an answer. */
  predicate AllFailed(answers: seq<Option<Role>>) {
    forall i :: 0 <= i < |answers| ==> answers[i].None?
  }

  lemma NoAnswer(answers: seq<Option<Role>>, n: nat)
    requires AllFailed(answers)
    ensures FirstAnswer(Reads(answers), n) == None
  {
    AnswerIffSomeAttempt(Reads(answers), n);
  }

  /** A read answered after failed ones is the first answer. */
  lemma AnswerAfterFailures(failed: seq<Option<Role>>, role: Role, n: nat)
    requires AllFailed(failed) && |failed| < n
    ensures FirstAnswer(Reads(failed + [Some(role)]), n) == Some(role)
  {
    var answers := Reads(failed + [Some(role)]);
    AnswerIffSomeAttempt(answers, |failed|);
    assert answers(|failed|) == Some(role);
    AnswerStays(answers, |failed| + 1, n);
  }

  class PermissionCache {
    var cache: Cache
    const ttlSeconds: nat

    constructor (ttlSeconds: nat)
      ensures cache == map[] && this.ttlSeconds == ttlSeconds
    {
      this.ttlSeconds := ttlSeconds;
      cache := map[];
    }

    /** Up to three chain reads; the first that succeeds answers, and none is a 503, never a role. */
    method ReadFromChainWithRetry(answers: nat -> Option<Role>) returns (r: Lookup)
      ensures r == match FirstAnswer(answers, READ_ATTEMPTS)
                   case Some(role) => Ok(ToRuntime(role))
                   case None => Err(UNAVAILABLE)
      ensures r.Err? <==> answers(0).None? && answers(1).None? && answers(2).None?
      ensures r.Err? ==> r.error == ServiceError(-32022, 503)
      ensures r.Ok? ==>
                Represents(r.role, if answers(0).Some? then answers(0).value
                                   else if answers(1).Some? then answers(1).value else answers(2).value)
    {
      FirstOfThree(answers);
      for attempt := 0 to READ_ATTEMPTS
        invariant FirstAnswer(answers, attempt).None?
      {
        var domainRole := answers(attempt);
        assert FirstAnswer(answers, attempt + 1) == domainRole;
        if domainRole.Some? {
          AnswerStays(answers, attempt + 1, READ_ATTEMPTS);
          var cacheRole := ConvertToRoleWithPermissions(domainRole.value);
          return Ok(cacheRole);
        }
      }
      return Err(UNAVAILABLE);
    }

    method Invalidate(agent: string)
      modifies this
      ensures cache == old(cache) - {agent}
    {
      cache := cache - {agent};
    }

    method Clear()
      modifies this
      ensures cache == map[]
    {
      cache := map[];
    }

    /** Other tasks run while a get awaits. */
    method Meanwhile(calls: seq<CacheCall>)
      modifies this
      ensures cache == AfterCalls(old(cache), calls, |calls|, ttlSeconds * 1000)
    {
      for i := 0 to |calls|
        invariant cache == AfterCalls(old(cache), calls, i, ttlSeconds * 1000)
      {
        match calls[i] {
          case StoreCall(key, role, at) => cache := cache[key := CacheEntry(role, at + ttlSeconds * 1000)];
          case InvalidateCall(key) => Invalidate(key);
          case ClearCall => Clear();
        }
      }
    }

    /** The role of an agent: from an unexpired entry, or from the chain and then stored. The get awaits the chain
        from `now` to `later`, and `meanwhile` is what other tasks do to the cache in between. */
    method Get(agent: string, answers: nat -> Option<Role>, now: int, meanwhile: seq<CacheCall>, later: int)
      returns (r: Lookup)
      modifies this
      ensures old(Hit(cache, agent, now)) ==> r == Ok(old(cache[agent].role)) && cache == old(cache)
      ensures !old(Hit(cache, agent, now)) ==>
                var others := AfterCalls(old(cache), meanwhile, |meanwhile|, ttlSeconds * 1000);
                match FirstAnswer(answers, READ_ATTEMPTS)
                case Some(role) =>
                  r == Ok(ToRuntime(role)) && cache == Stored(others, agent, ToRuntime(role), later, ttlSeconds * 1000)
                case None =>
                  r == Err(UNAVAILABLE) && cache == others
      ensures !old(Hit(cache, agent, now)) && r.Ok? ==>
                exists n: nat :: n < 3 && answers(n).Some? && Represents(r.role, answers(n).value)
    {
      if agent in cache && cache[agent].expiresAt > now {
        return Ok(cache[agent].role);
      }
      var result := ReadFromChainWithRetry(answers);
      Meanwhile(meanwhile);
      if result.Err? {
        return result;
      }
      var expiresAt := later + ttlSeconds * 1000;
      cache := cache[agent := CacheEntry(result.role, expiresAt)];
      return result;
    }

    /** The admin handler's revocation: write the chain directly or, failing that, through the driver, and only
        after the write drop the agent's entry, under the key exactly as given. `direct` is what the direct write
        returns, None when it throws; the `during` parameters are what other tasks do to the cache while the handler
        awaits the libraries it imports and the writes. */
    method PerformEmergencyRevoke(
        agentAddress: string, duringImports: seq<CacheCall>, configured: bool,
        direct: Option<string>, duringDirect: seq<CacheCall>,
        fallback: Written, duringFallback: seq<CacheCall>) returns (r: Revocation)
      modifies this
      ensures r == if !IsAgentAddress(agentAddress) then NotRevoked(ServiceError(-32600, 400))
                   else if !configured then NotRevoked(ServiceError(-32603, 500))
                   else if direct.Some? then Revoked(direct.value)
                   else match fallback
                        case Wrote(txHash) => Revoked(txHash)
                        case Failed => NotRevoked(ServiceError(-32022, 503))
                        case Threw => NotRevoked(ServiceError(-32603, 500))
      ensures var imported := AfterCalls(old(cache), duringImports, |duringImports|, ttlSeconds * 1000);
              var first := AfterCalls(imported, duringDirect, |duringDirect|, ttlSeconds * 1000);
              var second := AfterCalls(first, duringFallback, |duringFallback|, ttlSeconds * 1000);
              cache == if !IsAgentAddress(agentAddress) then old(cache)
                       else if !configured then imported
                       else if direct.Some? then first - {agentAddress}
                       else if fallback.Wrote? then second - {agentAddress}
                       else second
    {
      if !IsAgentAddress(agentAddress) {
        return NotRevoked(INVALID);
      }
      Meanwhile(duringImports);
      if !configured {
        return NotRevoked(INTERNAL);
      }
      Meanwhile(duringDirect);
      if direct.Some? {
        Invalidate(agentAddress);
        return Revoked(direct.value);
      }
      Meanwhile(duringFallback);
      match fallback {
        case Threw =>
          return NotRevoked(INTERNAL);
        case Failed =>
          return NotRevoked(UNAVAILABLE);
        case Wrote(txHash) =>
          Invalidate(agentAddress);
          return Revoked(txHash);
      }
    }
  }
}
