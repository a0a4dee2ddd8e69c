/**
 The permission cache against the chain, as a step machine over a clock. A get that misses is answered by the chain
 at one moment and stored at a later one; invalidations, chain writes and other gets come in between in any order.
 */
module RoleStaleness {
  import opened Common
  import opened RbacContract
  import opened Roles
  import opened RoleCache

  /** Fixed surroundings: the configured roles, the hash of role ids, the address a key string denotes for the chain
      (None when the driver rejects it), the time to live, and a bound on the time from a chain read to its store. */
  datatype Env = Env(
    roles: seq<RoleConfig>, hash: string -> Bytes32, show: Bytes32 -> string,
    addressOf: string -> Option<Address>, ttlMs: nat, delayMs: nat)

  /** When the chain evaluated a read: after how many events, and at what time. */
  datatype ChainRead = ChainRead(position: nat, at: nat)

  /** A get that missed: waiting for the chain, or answered and not yet stored. */
  datatype Pending =
    | Waiting(key: string, failures: nat)
    | Answered(key: string, role: RoleWithPermissions, read: ChainRead)

  /** A result handed to a caller, with the read it stems from when it is a role. */
  datatype Served =
    | ServedRole(key: string, role: RoleWithPermissions, at: nat, read: ChainRead)
    | ServedError(key: string, error: ServiceError, at: nat)

  datatype State = State(
    now: nat, log: seq<ChainEvent>, times: seq<nat>,
    cache: Cache, origin: map<string, ChainRead>, pending: map<nat, Pending>, served: seq<Served>)

  datatype Step =
    | Tick(ms: nat)
    | BeginGet(id: nat, key: string)
    | ChainAnswers(id: nat)
    | ReadFails(id: nat)
    | Store(id: nat)
    | Invalidate(key: string)
    | Clear
    | ChainApplies(event: ChainEvent)

  function Init(now: nat): State {
    State(now, [], [], map[], map[], map[], [])
  }

  /** The role the chain and the configuration give a key after some events. */
  function ChainRole(env: Env, log: seq<ChainEvent>, key: string): Role
    requires env.addressOf(key).Some?
  {
    RoleForWord(env.roles, env.hash, env.show, RoleAfter(log, env.addressOf(key).value))
  }

  /** That role as the cache keeps it. */
  function View(env: Env, log: seq<ChainEvent>, key: string): RoleWithPermissions
    requires env.addressOf(key).Some?
  {
    ToRuntime(ChainRole(env, log, key))
  }

  /** The read a cache entry stems from. */
  function OriginOf(s: State, key: string): ChainRead {
    if key in s.origin then s.origin[key] else ChainRead(0, 0)
  }

  predicate Enabled(env: Env, s: State, step: Step) {
    match step
    case BeginGet(id, _) => id !in s.pending
    case ChainAnswers(id) => id in s.pending && s.pending[id].Waiting? && env.addressOf(s.pending[id].key).Some?
    case ReadFails(id) => id in s.pending && s.pending[id].Waiting?
    case Store(id) => id in s.pending && s.pending[id].Answered? && s.now <= s.pending[id].read.at + env.delayMs
    case _ => true
  }

  function Next(env: Env, s: State, step: Step): State
    requires Enabled(env, s, step)
  {
    match step
    case Tick(ms) => s.(now := s.now + ms)
    case BeginGet(id, key) =>
      if Hit(s.cache, key, s.now) then
        s.(served := s.served + [ServedRole(key, s.cache[key].role, s.now, OriginOf(s, key))])
      else
        s.(pending := s.pending[id := Waiting(key, 0)])
    case ChainAnswers(id) =>
      var key := s.pending[id].key;
      s.(pending := s.pending[id := Answered(key, View(env, s.log, key), ChainRead(|s.log|, s.now))])
    case ReadFails(id) =>
      var Waiting(key, failures) := s.pending[id];
      if failures + 1 < READ_ATTEMPTS then
        s.(pending := s.pending[id := Waiting(key, failures + 1)])
      else
        s.(pending := s.pending - {id}, served := s.served + [ServedError(key, UNAVAILABLE, s.now)])
    case Store(id) =>
      var Answered(key, role, read) := s.pending[id];
      s.(cache := Stored(s.cache, key, role, s.now, env.ttlMs),
         origin := s.origin[key := read],
         pending := s.pending - {id},
         served := s.served + [ServedRole(key, role, s.now, read)])
    case Invalidate(key) => s.(cache := s.cache - {key})
    case Clear => s.(cache := map[])
    case ChainApplies(event) => s.(log := s.log + [event], times := s.times + [s.now])
  }

  function Exec(env: Env, s: State, steps: seq<Step>): Reach<State> {
    if steps == [] then
      Reached(s)
    else
      match Exec(env, s, steps[..|steps| - 1])
      case Stuck => Stuck
      case Reached(t) =>
        var last := steps[|steps| - 1];
        if Enabled(env, t, last) then Reached(Next(env, t, last)) else Stuck
  }

  /** A run is its first step and the rest. */
  lemma {:induction false} ExecFirst(env: Env, s: State, steps: seq<Step>)
    requires steps != [] && Enabled(env, s, steps[0])
    ensures Exec(env, s, steps) == Exec(env, Next(env, s, steps[0]), steps[1..])
    decreases |steps|
  {
    var init := steps[..|steps| - 1];
    if init == [] {
      assert Exec(env, s, init) == Reached(s);
    } else {
      ExecFirst(env, s, init);
      assert init[1..] == steps[1..][..|steps| - 2];
    }
  }

  /** A run of one enabled step. */
  lemma ExecOne(env: Env, s: State, step: Step)
    requires Enabled(env, s, step)
    ensures Exec(env, s, [step]) == Reached(Next(env, s, step))
  {
    assert [step][..0] == [];
  }

  // ---------------------------------------------------------------- the machine and the cache object

  /** The call by which a step acts on the cache, if it does. */
  function CallOf(env: Env, s: State, step: Step): seq<CacheCall>
    requires Enabled(env, s, step)
  {
    match step
    case Store(id) => [StoreCall(s.pending[id].key, s.pending[id].role, s.now)]
    case Invalidate(key) => [InvalidateCall(key)]
    case Clear => [ClearCall]
    case _ => []
  }

  function CallsOf(env: Env, s: State, steps: seq<Step>): seq<CacheCall>
    requires Exec(env, s, steps).Reached?
    decreases |steps|
  {
    if steps == [] then []
    else
      var init := steps[..|steps| - 1];
      CallsOf(env, s, init) + CallOf(env, Exec(env, s, init).state, steps[|steps| - 1])
  }

  /** Calls act one after the other. */
  lemma {:induction false} CallsInTurn(cache: Cache, calls: seq<CacheCall>, more: seq<CacheCall>, n: nat, ttlMs: nat)
    requires n <= |more|
    ensures AfterCalls(cache, calls + more, |calls| + n, ttlMs) ==
            AfterCalls(AfterCalls(cache, calls, |calls|, ttlMs), more, n, ttlMs)
    decreases |calls|, n
  {
    if n != 0 {
      CallsInTurn(cache, calls, more, n - 1, ttlMs);
    } else if calls != [] {
      var init, last := calls[..|calls| - 1], calls[|calls| - 1..];
      assert calls + more == init + (last + more) && calls == init + last;
      CallsInTurn(cache, init, last + more, 1, ttlMs);
      CallsInTurn(cache, init, last, 1, ttlMs);
    }
  }

  lemma StepActsByCall(env: Env, s: State, step: Step)
    requires Enabled(env, s, step)
    ensures Next(env, s, step).cache == AfterCalls(s.cache, CallOf(env, s, step), |CallOf(env, s, step)|, env.ttlMs)
  {
  }

  /** A run changes the cache as its calls do. */
  lemma {:induction false} RunActsByCalls(env: Env, s: State, steps: seq<Step>, t: State)
    requires Exec(env, s, steps) == Reached(t)
    ensures t.cache == AfterCalls(s.cache, CallsOf(env, s, steps), |CallsOf(env, s, steps)|, env.ttlMs)
    decreases |steps|
  {
    if steps != [] {
      var init, last := steps[..|steps| - 1], steps[|steps| - 1];
      var u := Exec(env, s, init).state;
      RunActsByCalls(env, s, init, u);
      StepActsByCall(env, u, last);
      CallsInTurn(s.cache, CallsOf(env, s, init), CallOf(env, u, last), |CallOf(env, u, last)|, env.ttlMs);
    }
  }

  /** What the reads of a get were answered during a run, None for a read that failed. */
  function AnswersIn(env: Env, s: State, steps: seq<Step>, id: nat): seq<Option<Role>>
    requires Exec(env, s, steps).Reached?
    decreases |steps|
  {
    if steps == [] then []
    else
      var u, before := Exec(env, s, steps[..|steps| - 1]).state, AnswersIn(env, s, steps[..|steps| - 1], id);
      match steps[|steps| - 1]
      case ChainAnswers(i) => if i == id then before + [Some(ChainRole(env, u.log, u.pending[id].key))] else before
      case ReadFails(i) => if i == id then before + [None] else before
      case _ => before
  }

  /** A get that has been answered so stands so. */
  ghost predicate StandsAt(get: Pending, key: string, answers: seq<Option<Role>>) {
    && get.key == key && |answers| <= READ_ATTEMPTS
    && match get
       case Waiting(_, failures) => failures == |answers| < READ_ATTEMPTS && AllFailed(answers)
       case Answered(_, role, _) =>
         && answers != [] && AllFailed(answers[..|answers| - 1])
         && answers[|answers| - 1].Some? && role == ToRuntime(answers[|answers| - 1].value)
  }

  /** The run starts no second get under this id. */
  predicate NotBegun(steps: seq<Step>, id: nat) {
    forall i :: 0 <= i < |steps| ==> !(steps[i].BeginGet? && steps[i].id == id)
  }

  lemma StandsStep(env: Env, s: State, step: Step, id: nat, key: string, answers: seq<Option<Role>>)
    requires Enabled(env, s, step) && id in s.pending && StandsAt(s.pending[id], key, answers)
    requires id in Next(env, s, step).pending
    ensures StandsAt(Next(env, s, step).pending[id], key,
                     if step == ChainAnswers(id) then answers + [Some(ChainRole(env, s.log, key))]
                     else if step == ReadFails(id) then answers + [None]
                     else answers)
  {
    if step == ChainAnswers(id) {
      assert (answers + [Some(ChainRole(env, s.log, key))])[..|answers|] == answers;
    }
  }

  /** A get stands as the answers to its reads say. */
  lemma {:induction false} GetStands(env: Env, s: State, steps: seq<Step>, t: State, id: nat)
    requires id in s.pending && s.pending[id].Waiting? && s.pending[id].failures == 0
    requires Exec(env, s, steps) == Reached(t) && NotBegun(steps, id) && id in t.pending
    ensures StandsAt(t.pending[id], s.pending[id].key, AnswersIn(env, s, steps, id))
    decreases |steps|
  {
    if steps != [] {
      var init, last := steps[..|steps| - 1], steps[|steps| - 1];
      var u := Exec(env, s, init).state;
      assert id in u.pending;
      GetStands(env, s, init, u, id);
      StandsStep(env, u, last, id, s.pending[id].key, AnswersIn(env, s, init, id));
    }
  }

  /** A get that misses in one state and stores in a later one does what the cache object's get promises, when the calls
      in between and the answers to its reads are those of the run. */
  lemma GetOfRun(env: Env, s: State, steps: seq<Step>, t: State, id: nat)
    requires id in s.pending && s.pending[id].Waiting? && s.pending[id].failures == 0
    requires Exec(env, s, steps) == Reached(t) && NotBegun(steps, id) && Enabled(env, t, Store(id))
    ensures var key, after := s.pending[id].key, Next(env, t, Store(id));
            var calls, answers := CallsOf(env, s, steps), Reads(AnswersIn(env, s, steps, id));
            match FirstAnswer(answers, READ_ATTEMPTS)
            case None => false
            case Some(role) =>
              && after.cache ==
                 Stored(AfterCalls(s.cache, calls, |calls|, env.ttlMs), key, ToRuntime(role), t.now, env.ttlMs)
              && after.served == t.served + [ServedRole(key, ToRuntime(role), t.now, t.pending[id].read)]
  {
    RunActsByCalls(env, s, steps, t);
    GetStands(env, s, steps, t, id);
    var answers := AnswersIn(env, s, steps, id);
    var failed := answers[..|answers| - 1];
    assert answers == failed + [Some(answers[|answers| - 1].value)];
    AnswerAfterFailures(failed, answers[|answers| - 1].value, READ_ATTEMPTS);
  }

  /** A get whose last read fails in a later state does so too: the error is served and nothing is stored. */
  lemma FailedGetOfRun(env: Env, s: State, steps: seq<Step>, t: State, id: nat)
    requires id in s.pending && s.pending[id].Waiting? && s.pending[id].failures == 0
    requires Exec(env, s, steps) == Reached(t) && NotBegun(steps, id)
    requires Enabled(env, t, ReadFails(id)) && id !in Next(env, t, ReadFails(id)).pending
    ensures var after, calls := Next(env, t, ReadFails(id)), CallsOf(env, s, steps);
            && FirstAnswer(Reads(AnswersIn(env, s, steps, id) + [None]), READ_ATTEMPTS) == None
            && |AnswersIn(env, s, steps, id)| + 1 == 3
            && after.cache == AfterCalls(s.cache, calls, |calls|, env.ttlMs)
            && after.served == t.served + [ServedError(s.pending[id].key, UNAVAILABLE, t.now)]
  {
    RunActsByCalls(env, s, steps, t);
    GetStands(env, s, steps, t, id);
    NoAnswer(AnswersIn(env, s, steps, id) + [None], READ_ATTEMPTS);
  }

  // ---------------------------------------------------------------- what every step keeps

  /** The events before a read's position were applied no later than the read, the others no earlier. */
  ghost predicate Consistent(s: State, read: ChainRead) {
    && |s.times| == |s.log| && read.position <= |s.log| && read.at <= s.now
    && (forall i :: 0 <= i < read.position ==> s.times[i] <= read.at)
    && (forall i :: read.position <= i < |s.log| ==> read.at <= s.times[i])
  }

  /** The role is what the chain held for the key at the read. */
  ghost predicate Genuine(env: Env, s: State, key: string, role: RoleWithPermissions, read: ChainRead) {
    && Consistent(s, read) && env.addressOf(key).Some?
    && role == View(env, s.log[..read.position], key)
  }

  ghost predicate ClockOk(s: State) {
    |s.times| == |s.log| && forall i :: 0 <= i < |s.times| ==> s.times[i] <= s.now
  }

  ghost predicate CacheOk(env: Env, s: State) {
    forall key <- s.cache ::
      && Genuine(env, s, key, s.cache[key].role, OriginOf(s, key))
      && s.cache[key].expiresAt <= OriginOf(s, key).at + env.delayMs + env.ttlMs
  }

  ghost predicate PendingOk(env: Env, s: State) {
    forall id <- s.pending :: s.pending[id].Answered? ==>
      Genuine(env, s, s.pending[id].key, s.pending[id].role, s.pending[id].read)
  }

  /** A served role is what the chain held at a moment less than the delay plus the time to live before. */
  ghost predicate Fresh(env: Env, s: State, served: Served)
    requires served.ServedRole?
  {
    && Genuine(env, s, served.key, served.role, served.read)
    && served.read.at <= served.at < served.read.at + env.delayMs + env.ttlMs
  }

  ghost predicate ServedOk(env: Env, s: State) {
    forall i :: 0 <= i < |s.served| && s.served[i].ServedRole? ==> Fresh(env, s, s.served[i])
  }

  ghost predicate Inv(env: Env, s: State) {
    ClockOk(s) && CacheOk(env, s) && PendingOk(env, s) && ServedOk(env, s)
  }

  lemma ConsistentStep(env: Env, s: State, step: Step, read: ChainRead)
    requires ClockOk(s) && Enabled(env, s, step) && Consistent(s, read)
    ensures Consistent(Next(env, s, step), read)
    ensures Next(env, s, step).log[..read.position] == s.log[..read.position]
  {
  }

  lemma GenuineKept(env: Env, s: State, step: Step, key: string, role: RoleWithPermissions, read: ChainRead)
    requires ClockOk(s) && Enabled(env, s, step) && Genuine(env, s, key, role, read)
    ensures Genuine(env, Next(env, s, step), key, role, read)
  {
    ConsistentStep(env, s, step, read);
  }

  /** What was genuine stays genuine as the clock and the log move on. */
  lemma GenuineStep(env: Env, s: State, step: Step)
    requires ClockOk(s) && Enabled(env, s, step)
    ensures ClockOk(Next(env, s, step))
    ensures forall key, role, read ::
              Genuine(env, s, key, role, read) ==> Genuine(env, Next(env, s, step), key, role, read)
  {
    forall key, role, read | Genuine(env, s, key, role, read)
      ensures Genuine(env, Next(env, s, step), key, role, read)
    {
      GenuineKept(env, s, step, key, role, read);
    }
  }

  /** A store puts a genuine role into the cache, with an expiry counted from at most the delay after its read. */
  lemma StoreKeepsCache(env: Env, s: State, id: nat)
    requires CacheOk(env, s) && PendingOk(env, s) && Enabled(env, s, Store(id))
    ensures CacheOk(env, Next(env, s, Store(id)))
  {
    var t, key := Next(env, s, Store(id)), s.pending[id].key;
    forall k <- t.cache
      ensures Genuine(env, t, k, t.cache[k].role, OriginOf(t, k))
      ensures t.cache[k].expiresAt <= OriginOf(t, k).at + env.delayMs + env.ttlMs
    {
      if k != key {
        assert k in s.cache && OriginOf(t, k) == OriginOf(s, k);
      }
    }
  }

  /** A step that is not a store keeps or drops cache entries. */
  lemma CacheShrinks(env: Env, s: State, step: Step)
    requires Enabled(env, s, step) && !step.Store?
    ensures Next(env, s, step).origin == s.origin
    ensures forall key <- Next(env, s, step).cache :: key in s.cache && Next(env, s, step).cache[key] == s.cache[key]
  {
  }

  lemma CacheStep(env: Env, s: State, step: Step)
    requires Inv(env, s) && Enabled(env, s, step)
    ensures CacheOk(env, Next(env, s, step))
  {
    if step.Store? {
      StoreKeepsCache(env, s, step.id);
    } else {
      CacheShrinks(env, s, step);
      var t := Next(env, s, step);
      forall key <- t.cache
        ensures Genuine(env, t, key, t.cache[key].role, OriginOf(t, key))
      {
        GenuineKept(env, s, step, key, s.cache[key].role, OriginOf(s, key));
      }
    }
  }

  lemma PendingStep(env: Env, s: State, step: Step)
    requires Inv(env, s) && Enabled(env, s, step)
    ensures PendingOk(env, Next(env, s, step))
  {
    GenuineStep(env, s, step);
    assert s.log[..|s.log|] == s.log;
  }

  lemma ServedStep(env: Env, s: State, step: Step)
    requires env.ttlMs > 0 && Inv(env, s) && Enabled(env, s, step)
    ensures ServedOk(env, Next(env, s, step))
  {
    GenuineStep(env, s, step);
  }

  lemma InvStep(env: Env, s: State, step: Step)
    requires env.ttlMs > 0 && Inv(env, s) && Enabled(env, s, step)
    ensures Inv(env, Next(env, s, step))
  {
    GenuineStep(env, s, step);
    CacheStep(env, s, step);
    PendingStep(env, s, step);
    ServedStep(env, s, step);
  }

  lemma {:induction false} EveryRunKeepsInv(env: Env, now: nat, steps: seq<Step>, t: State)
    requires env.ttlMs > 0 && Exec(env, Init(now), steps) == Reached(t)
    ensures Inv(env, t)
    decreases |steps|
  {
    if steps != [] {
      var s := Exec(env, Init(now), steps[..|steps| - 1]).state;
      EveryRunKeepsInv(env, now, steps[..|steps| - 1], s);
      InvStep(env, s, steps[|steps| - 1]);
    }
  }

  // ---------------------------------------------------------------- bounded staleness

  /** Time r falls between the first n events and the others. */
  ghost predicate EventsSplit(s: State, n: nat, r: nat) {
    && n <= |s.log| == |s.times|
    && (forall j :: 0 <= j < n ==> s.times[j] <= r)
    && (forall j :: n <= j < |s.log| ==> r <= s.times[j])
  }

  /** At time r the chain held this role for the key. */
  ghost predicate HeldAt(env: Env, s: State, key: string, role: RoleWithPermissions, r: nat) {
    env.addressOf(key).Some? && exists n: nat :: EventsSplit(s, n, r) && role == View(env, s.log[..n], key)
  }

  /** Over every interleaving: a role served at time t is one the chain held at some r with
      r <= t < r + delay + time to live. */
  lemma BoundedStaleness(env: Env, now: nat, steps: seq<Step>, t: State, i: nat)
    requires env.ttlMs > 0 && Exec(env, Init(now), steps) == Reached(t)
    requires i < |t.served| && t.served[i].ServedRole?
    ensures exists r: nat ::
              HeldAt(env, t, t.served[i].key, t.served[i].role, r) && r <= t.served[i].at < r + env.delayMs + env.ttlMs
  {
    EveryRunKeepsInv(env, now, steps, t);
    var read := t.served[i].read;
    assert Fresh(env, t, t.served[i]);
    assert EventsSplit(t, read.position, read.at);
    assert HeldAt(env, t, t.served[i].key, t.served[i].role, read.at);
  }

  /** After its first n events the chain held a word that the role stands for. */
  ghost predicate StoodFor(env: Env, s: State, key: string, role: RoleWithPermissions, n: nat) {
    && n <= |s.log| && env.addressOf(key).Some?
    && exists word ::
         LeavesWord(s.log[..n], env.addressOf(key).value, word) && StandsForWord(role, env.roles, env.hash, word)
  }

  /** A role served at time t is, id, status and permissions, what the configuration makes of the word that the chain's
      last event about the agent had left at some r with r <= t < r + delay + time to live. */
  lemma ServedAsConfigured(env: Env, now: nat, steps: seq<Step>, t: State, i: nat)
    requires env.ttlMs > 0 && Exec(env, Init(now), steps) == Reached(t)
    requires i < |t.served| && t.served[i].ServedRole?
    ensures exists n: nat, r: nat ::
              && EventsSplit(t, n, r) && r <= t.served[i].at < r + env.delayMs + env.ttlMs
              && StoodFor(env, t, t.served[i].key, t.served[i].role, n)
  {
    EveryRunKeepsInv(env, now, steps, t);
    assert Fresh(env, t, t.served[i]);
    var key, n := t.served[i].key, t.served[i].read.position;
    var agent := env.addressOf(key).value;
    var word := RoleAfter(t.log[..n], agent);
    WordIff(t.log[..n], agent, word);
    RuntimeStandsForWord(env.roles, env.hash, env.show, word);
    assert StoodFor(env, t, key, t.served[i].role, n);
    assert EventsSplit(t, n, t.served[i].read.at);
  }

  /** An agent last set to a configured role's hash before a read, and not changed up to it, is served exactly that
      role: active, with its permissions. */
  lemma ConfiguredRoleServed(env: Env, now: nat, steps: seq<Step>, t: State, i: nat, e: nat, k: nat)
    requires env.ttlMs > 0 && Exec(env, Init(now), steps) == Reached(t)
    requires i < |t.served| && t.served[i].ServedRole? && env.addressOf(t.served[i].key).Some?
    requires t.served[i].read.position <= |t.log|
    requires k < |env.roles| && env.hash(env.roles[k].id) != 0
    requires forall m, n :: 0 <= m < n < |env.roles| ==> env.hash(env.roles[m].id) != env.hash(env.roles[n].id)
    requires var agent, seen := env.addressOf(t.served[i].key).value, t.log[..t.served[i].read.position];
             LastAbout(seen, agent, e) && seen[e] == RoleSet(agent, env.hash(env.roles[k].id))
    ensures var role := t.served[i].role;
            && role.isActive && role.roleId == env.roles[k].id
            && forall tool, action ::
                 tool in role.permissions && action in role.permissions[tool] <==>
                 LastMatchAllows(env.roles[k].permissions, tool, action)
  {
    EveryRunKeepsInv(env, now, steps, t);
    assert Fresh(env, t, t.served[i]);
    var agent, seen := env.addressOf(t.served[i].key).value, t.log[..t.served[i].read.position];
    LastEventDecides(seen, agent, e);
    ConfiguredRoleFound(env.roles, env.hash, env.show, k);
    RuntimeRepresents(ChainRole(env, seen, t.served[i].key));
  }

  /** The j-th event revokes an agent, and no later event sets a non-zero role for it. */
  ghost predicate RevokedSince(s: State, agent: Address, j: nat) {
    && j < |s.log| && |s.times| == |s.log| && s.log[j] == AgentRevoked(agent)
    && forall k :: j < k < |s.log| && s.log[k].agent == agent && s.log[k].RoleSet? ==> s.log[k].roleId == 0
  }

  /** In a state with the invariant: an active role served for a revoked agent was served less than the delay plus
      the time to live after the chain applied the revocation. */
  lemma ServedBeforeBound(env: Env, t: State, agent: Address, j: nat, i: nat)
    requires Inv(env, t) && RevokedSince(t, agent, j)
    requires i < |t.served| && t.served[i].ServedRole? && t.served[i].role.isActive
    requires env.addressOf(t.served[i].key) == Some(agent)
    ensures t.served[i].at < t.times[j] + env.delayMs + env.ttlMs
  {
    var read := t.served[i].read;
    assert Fresh(env, t, t.served[i]);
    if j < read.position {
      var seen := t.log[..read.position];
      RevokedUntilSet(seen, agent, j);
      ActiveIffWordSet(env.roles, env.hash, env.show, RoleAfter(seen, agent));
      assert false;
    }
  }

  /** Over every interleaving: if the chain has revoked an agent and has set no non-zero role for it since, a get that
      returns an active role for the agent does so less than the delay plus the time to live after the chain applied
      the revocation. */
  lemma RevocationBound(env: Env, now: nat, steps: seq<Step>, t: State, agent: Address, j: nat, i: nat)
    requires env.ttlMs > 0 && Exec(env, Init(now), steps) == Reached(t) && RevokedSince(t, agent, j)
    requires i < |t.served| && t.served[i].ServedRole? && t.served[i].role.isActive
    requires env.addressOf(t.served[i].key) == Some(agent)
    ensures t.served[i].at < t.times[j] + env.delayMs + env.ttlMs
  {
    EveryRunKeepsInv(env, now, steps, t);
    ServedBeforeBound(env, t, agent, j, i);
  }

  // ---------------------------------------------------------------- prompt revocation

  /** A get for the key was answered with an active role and can still be stored. */
  ghost predicate ActiveInFlight(env: Env, s: State, key: string) {
    exists id <- s.pending ::
      && s.pending[id].Answered? && s.pending[id].key == key && s.pending[id].role.isActive
      && s.now <= s.pending[id].read.at + env.delayMs
  }

  /** The cache answers a get on the key with an active role. */
  predicate ActiveHit(s: State, key: string) {
    Hit(s.cache, key, s.now) && s.cache[key].role.isActive
  }

  /** The chain holds no role for the key, the cache no active unexpired one, and none is in flight. */
  ghost predicate CutOff(env: Env, s: State, key: string) {
    && (env.addressOf(key).Some? ==> RoleAfter(s.log, env.addressOf(key).value) == 0)
    && !ActiveHit(s, key)
    && !ActiveInFlight(env, s, key)
  }

  predicate SetsRole(env: Env, step: Step, key: string) {
    step.ChainApplies? && step.event.RoleSet? && step.event.roleId != 0 && env.addressOf(key) == Some(step.event.agent)
  }

  /** A get for the key was served an active role at or after the given position. */
  ghost predicate ServedActive(s: State, key: string, from: nat) {
    exists i :: from <= i < |s.served| && s.served[i].ServedRole? && s.served[i].key == key && s.served[i].role.isActive
  }

  lemma CutOffFlight(env: Env, s: State, step: Step, key: string)
    requires CutOff(env, s, key) && Enabled(env, s, step)
    ensures !ActiveInFlight(env, Next(env, s, step), key)
  {
    var t := Next(env, s, step);
    forall id <- t.pending
      ensures !(t.pending[id].Answered? && t.pending[id].key == key && t.pending[id].role.isActive
                && t.now <= t.pending[id].read.at + env.delayMs)
    {
      if step == ChainAnswers(id) && s.pending[id].key == key {
        ActiveIffWordSet(env.roles, env.hash, env.show, RoleAfter(s.log, env.addressOf(key).value));
      } else if t.pending[id].Answered? && step != ChainAnswers(id) {
        assert id in s.pending && t.pending[id] == s.pending[id];
      }
    }
  }

  lemma CutOffStep(env: Env, s: State, step: Step, key: string, from: nat)
    requires CutOff(env, s, key) && Enabled(env, s, step) && !SetsRole(env, step, key)
    requires from <= |s.served| && !ServedActive(s, key, from)
    ensures CutOff(env, Next(env, s, step), key)
    ensures from <= |Next(env, s, step).served| && !ServedActive(Next(env, s, step), key, from)
  {
    CutOffFlight(env, s, step, key);
  }

  /** From a state cut off for a key, whatever happens until a role is set again, every later get on the key
      returns an inactive role or the 503 error. */
  lemma {:induction false} CutOffStays(env: Env, s: State, steps: seq<Step>, t: State, key: string)
    requires CutOff(env, s, key) && Exec(env, s, steps) == Reached(t)
    requires forall i :: 0 <= i < |steps| ==> !SetsRole(env, steps[i], key)
    ensures CutOff(env, t, key) && |s.served| <= |t.served| && !ServedActive(t, key, |s.served|)
    decreases |steps|
  {
    if steps != [] {
      var init := steps[..|steps| - 1];
      var u := Exec(env, s, init).state;
      CutOffStays(env, s, init, u, key);
      CutOffStep(env, u, steps[|steps| - 1], key, |s.served|);
    }
  }

  /** An active role in flight can be stored at once, and is then served. */
  lemma InFlightServes(env: Env, s: State, key: string)
    requires ActiveInFlight(env, s, key)
    ensures exists step, t ::
              !SetsRole(env, step, key) && Exec(env, s, [step]) == Reached(t) && ServedActive(t, key, |s.served|)
  {
    var id :| id in s.pending && s.pending[id].Answered? && s.pending[id].key == key && s.pending[id].role.isActive
              && s.now <= s.pending[id].read.at + env.delayMs;
    ExecOne(env, s, Store(id));
    var t := Next(env, s, Store(id));
    assert t.served[|s.served|].key == key;
  }

  /** No continuation that sets no role serves the key an active role. */
  ghost predicate Prompt(env: Env, s: State, key: string) {
    forall steps, t ::
      Exec(env, s, steps) == Reached(t) && (forall i :: 0 <= i < |steps| ==> !SetsRole(env, steps[i], key)) ==>
        !ServedActive(t, key, |s.served|)
  }

  /** Ids for new gets never run out. */
  lemma {:induction false} FreshId(ids: set<nat>) returns (bound: nat)
    ensures forall id <- ids :: id < bound
  {
    if ids == {} {
      return 0;
    }
    var id :| id in ids;
    var rest := FreshId(ids - {id});
    assert forall other <- ids :: other == id || other in ids - {id};
    return if rest <= id then id + 1 else rest;
  }

  lemma ServedMeansNotPrompt(env: Env, s: State, run: seq<Step>, t: State, key: string)
    requires Exec(env, s, run) == Reached(t) && ServedActive(t, key, |s.served|)
    requires forall step <- run :: !step.ChainApplies?
    ensures !Prompt(env, s, key)
  {
    assert forall i :: 0 <= i < |run| ==> !SetsRole(env, run[i], key);
  }

  /** An active role in the cache is served to the next get. */
  lemma HitServes(env: Env, s: State, key: string)
    requires ActiveHit(s, key)
    ensures !Prompt(env, s, key)
  {
    var id := FreshId(s.pending.Keys);
    var t := Next(env, s, BeginGet(id, key));
    ExecOne(env, s, BeginGet(id, key));
    assert t.served[|s.served|].key == key;
    ServedMeansNotPrompt(env, s, [BeginGet(id, key)], t, key);
  }

  /** A get that misses while the chain holds a role is answered with an active role. */
  lemma MissAnswered(env: Env, s: State, key: string, id: nat) returns (t: State)
    requires env.addressOf(key).Some? && RoleAfter(s.log, env.addressOf(key).value) != 0
    requires !Hit(s.cache, key, s.now) && id !in s.pending
    ensures Exec(env, s, [BeginGet(id, key), ChainAnswers(id)]) == Reached(t)
    ensures t == s.(pending := t.pending) && t.pending == s.pending[id := t.pending[id]]
    ensures t.pending[id] == Answered(key, View(env, s.log, key), ChainRead(|s.log|, s.now))
    ensures t.pending[id].role.isActive
  {
    var a, b := BeginGet(id, key), ChainAnswers(id);
    ExecFirst(env, s, [a, b]);
    assert [a, b][1..] == [b];
    var u := Next(env, s, a);
    ExecOne(env, u, b);
    t := Next(env, u, b);
    ActiveIffWordSet(env.roles, env.hash, env.show, RoleAfter(s.log, env.addressOf(key).value));
  }

  /** It can be stored at once, and is then served. */
  lemma MissServes(env: Env, s: State, key: string, id: nat) returns (t: State)
    requires env.addressOf(key).Some? && RoleAfter(s.log, env.addressOf(key).value) != 0
    requires !Hit(s.cache, key, s.now) && id !in s.pending
    ensures Exec(env, s, [BeginGet(id, key), ChainAnswers(id), Store(id)]) == Reached(t)
    ensures ServedActive(t, key, |s.served|) && |t.served| == |s.served| + 1
    ensures t.log == s.log && t.now == s.now && t.pending == s.pending
    ensures key in t.cache && t.cache[key].role.isActive && t.cache[key].expiresAt == s.now + env.ttlMs
  {
    var u := MissAnswered(env, s, key, id);
    t := Next(env, u, Store(id));
    assert [BeginGet(id, key), ChainAnswers(id), Store(id)][..2] == [BeginGet(id, key), ChainAnswers(id)];
    assert t.served[|s.served|].key == key;
  }

  /** How long until a get on the key misses. */
  function UntilMiss(s: State, key: string): nat {
    if Hit(s.cache, key, s.now) then s.cache[key].expiresAt - s.now else 0
  }

  /** While the chain still holds a role, a get on the key reads and serves it once the cached entry has expired. */
  lemma UnrevokedServes(env: Env, s: State, key: string)
    requires env.addressOf(key).Some? && RoleAfter(s.log, env.addressOf(key).value) != 0
    ensures !Prompt(env, s, key)
  {
    var id := FreshId(s.pending.Keys);
    var wait := Tick(UntilMiss(s, key));
    var get := [BeginGet(id, key), ChainAnswers(id), Store(id)];
    ExecFirst(env, s, [wait] + get);
    assert ([wait] + get)[1..] == get;
    var t := MissServes(env, Next(env, s, wait), key, id);
    ServedMeansNotPrompt(env, s, [wait] + get, t, key);
  }

  /** A get on the key can be served an active role before a role is set again, if and only if the key is not cut
      off. */
  lemma PromptIffCutOff(env: Env, s: State, key: string)
    requires env.addressOf(key).Some?
    ensures Prompt(env, s, key) <==> CutOff(env, s, key)
  {
    if RoleAfter(s.log, env.addressOf(key).value) != 0 {
      UnrevokedServes(env, s, key);
    } else if ActiveHit(s, key) {
      HitServes(env, s, key);
    } else if ActiveInFlight(env, s, key) {
      InFlightServes(env, s, key);
      var step, t :|
        !SetsRole(env, step, key) && Exec(env, s, [step]) == Reached(t) && ServedActive(t, key, |s.served|);
      assert forall i :: 0 <= i < |[step]| ==> !SetsRole(env, [step][i], key);
      assert !Prompt(env, s, key);
    } else {
      forall steps, t |
          Exec(env, s, steps) == Reached(t) && (forall i :: 0 <= i < |steps| ==> !SetsRole(env, steps[i], key))
        ensures !ServedActive(t, key, |s.served|)
      {
        CutOffStays(env, s, steps, t, key);
      }
    }
  }

  /** Invalidating a key makes a revocation prompt for that key, whatever happens until a role is set again, exactly
      when the chain has applied the revocation and no get answered before it is still on its way to the cache. */
  lemma PromptRevocationIff(env: Env, s: State, key: string)
    requires env.addressOf(key).Some?
    ensures Prompt(env, Next(env, s, Invalidate(key)), key) <==>
            RoleAfter(s.log, env.addressOf(key).value) == 0 && !ActiveInFlight(env, s, key)
  {
    var u := Next(env, s, Invalidate(key));
    assert ActiveInFlight(env, u, key) == ActiveInFlight(env, s, key);
    PromptIffCutOff(env, u, key);
  }

  /** The keys that denote an agent: its address in every spelling the driver accepts. */
  predicate Spells(env: Env, key: string, agent: Address) {
    env.addressOf(key) == Some(agent)
  }

  /** No continuation that sets the agent no role serves it an active role, under whatever key. */
  ghost predicate PromptForAgent(env: Env, s: State, agent: Address) {
    forall key :: Spells(env, key, agent) ==> Prompt(env, s, key)
  }

  /** Invalidating one spelling of an agent's address makes a revocation prompt for the agent exactly when the chain has
      applied the revocation, no get on any spelling is still on its way to the cache with an active role, and no
      other spelling has an active unexpired entry. */
  lemma AgentPromptIff(env: Env, s: State, key: string, agent: Address)
    requires Spells(env, key, agent)
    ensures PromptForAgent(env, Next(env, s, Invalidate(key)), agent) <==>
            && RoleAfter(s.log, agent) == 0
            && forall k :: Spells(env, k, agent) ==> !ActiveInFlight(env, s, k) && (k != key ==> !ActiveHit(s, k))
  {
    var u := Next(env, s, Invalidate(key));
    forall k | Spells(env, k, agent)
      ensures Prompt(env, u, k) <==>
              RoleAfter(s.log, agent) == 0 && !ActiveInFlight(env, s, k) && (k != key ==> !ActiveHit(s, k))
    {
      assert ActiveInFlight(env, u, k) == ActiveInFlight(env, s, k);
      PromptIffCutOff(env, u, k);
    }
  }

  // ---------------------------------------------------------------- where promptness fails

  /** A role is set, read and stored. */
  lemma StoredWhileActive(env: Env, key: string, agent: Address, word: Bytes32) returns (t: State)
    requires env.ttlMs > 0 && word != 0 && Spells(env, key, agent)
    ensures Exec(env, Init(0), [ChainApplies(RoleSet(agent, word)), BeginGet(0, key), ChainAnswers(0), Store(0)]) ==
            Reached(t)
    ensures ActiveHit(t, key) && |t.served| == 1 && t.pending == map[] && t.log == [RoleSet(agent, word)]
  {
    var set_, get := ChainApplies(RoleSet(agent, word)), [BeginGet(0, key), ChainAnswers(0), Store(0)];
    ExecFirst(env, Init(0), [set_] + get);
    assert ([set_] + get)[1..] == get;
    t := MissServes(env, Next(env, Init(0), set_), key, 0);
    assert [set_] + get == [set_, BeginGet(0, key), ChainAnswers(0), Store(0)];
  }

  lemma {:induction false} ExecTwice(env: Env, s: State, a: seq<Step>, b: seq<Step>)
    requires Exec(env, s, a).Reached?
    ensures Exec(env, s, a + b) == Exec(env, Exec(env, s, a).state, b)
    decreases |b|
  {
    if b == [] {
      assert a + b == a;
    } else {
      assert (a + b)[..|a + b| - 1] == a + b[..|b| - 1];
      ExecTwice(env, s, a, b[..|b| - 1]);
    }
  }

  /** The key that is cached must be the key that is invalidated: if an agent's address can be spelled in two ways,
      a revocation that invalidates one spelling leaves the other serving the old role. */
  lemma OtherSpellingOutlivesRevocation(env: Env, key: string, other: string, agent: Address, word: Bytes32)
    requires env.ttlMs > 0 && word != 0 && key != other
    requires Spells(env, key, agent) && Spells(env, other, agent)
    ensures var before := [ChainApplies(RoleSet(agent, word)), BeginGet(0, key), ChainAnswers(0), Store(0)];
            var after := [ChainApplies(AgentRevoked(agent)), Invalidate(other), BeginGet(1, key)];
            match Exec(env, Init(0), before + after)
            case Reached(t) => RoleAfter(t.log, agent) == 0 && ServedActive(t, key, 1)
            case Stuck => false
  {
    var before := [ChainApplies(RoleSet(agent, word)), BeginGet(0, key), ChainAnswers(0), Store(0)];
    var revoke, drop, get := ChainApplies(AgentRevoked(agent)), Invalidate(other), BeginGet(1, key);
    var s := StoredWhileActive(env, key, agent, word);
    ExecTwice(env, Init(0), before, [revoke, drop, get]);
    ExecFirst(env, s, [revoke, drop, get]);
    var u := Next(env, s, revoke);
    ExecFirst(env, u, [drop, get]);
    assert [revoke, drop, get][1..] == [drop, get] && [drop, get][1..] == [get];
    var v := Next(env, u, drop);
    ExecOne(env, v, get);
    assert Next(env, v, get).served[1].key == key;
  }

  /** An answered get is stored after the revocation and the invalidation, and the next get is served its role. */
  lemma StoredTooLate(env: Env, s: State, key: string, agent: Address)
    requires env.ttlMs > 0 && Spells(env, key, agent) && 0 in s.pending && 1 !in s.pending && |s.served| == 0
    requires s.pending[0].Answered? && s.pending[0].key == key && s.pending[0].role.isActive
    requires s.now <= s.pending[0].read.at + env.delayMs
    ensures match Exec(env, s, [ChainApplies(AgentRevoked(agent)), Invalidate(key), Store(0), BeginGet(1, key)])
            case Reached(t) => RoleAfter(t.log, agent) == 0 && |t.served| == 2 && ServedActive(t, key, 1)
            case Stuck => false
  {
    var d, e, f, g := ChainApplies(AgentRevoked(agent)), Invalidate(key), Store(0), BeginGet(1, key);
    ExecFirst(env, s, [d, e, f, g]);
    assert [d, e, f, g][1..] == [e, f, g] && [e, f, g][1..] == [f, g] && [f, g][1..] == [g];
    var s1 := Next(env, s, d);
    ExecFirst(env, s1, [e, f, g]);
    var s2 := Next(env, s1, e);
    ExecFirst(env, s2, [f, g]);
    var s3 := Next(env, s2, f);
    ExecOne(env, s3, g);
    assert Next(env, s3, g).served[1].key == key;
  }

  /** A get answered before a revocation and stored after the invalidation puts the old role back into the cache, and
      later gets are served it. */
  lemma InFlightOutlivesRevocation(env: Env, key: string, agent: Address, word: Bytes32)
    requires env.ttlMs > 0 && word != 0 && Spells(env, key, agent)
    ensures var before := [ChainApplies(RoleSet(agent, word)), BeginGet(0, key), ChainAnswers(0)];
            var after := [ChainApplies(AgentRevoked(agent)), Invalidate(key), Store(0), BeginGet(1, key)];
            match Exec(env, Init(0), before + after)
            case Reached(t) => RoleAfter(t.log, agent) == 0 && |t.served| == 2 && ServedActive(t, key, 1)
            case Stuck => false
  {
    var set_, get := ChainApplies(RoleSet(agent, word)), [BeginGet(0, key), ChainAnswers(0)];
    ExecFirst(env, Init(0), [set_] + get);
    assert ([set_] + get)[1..] == get;
    var s := MissAnswered(env, Next(env, Init(0), set_), key, 0);
    assert [set_] + get == [set_, BeginGet(0, key), ChainAnswers(0)];
    ExecTwice(env, Init(0), [set_] + get,
              [ChainApplies(AgentRevoked(agent)), Invalidate(key), Store(0), BeginGet(1, key)]);
    StoredTooLate(env, s, key, agent);
  }
}
