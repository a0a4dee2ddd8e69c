/** The forward pipeline behind the signature check: authorisation, audit and forwarding over one shared context. */
module Pipeline {
  import opened Common
  import opened Roles
  import opened RoleCache
  import opened Registry
  import opened KeyVault
  import opened NonceStore
  import opened CanonicalPayload
  import Signed = SignedRequests

  datatype HttpMethod = GET | HEAD | POST | PUT | PATCH | DELETE

  function MethodName(m: HttpMethod): string {
    match m
    case GET => "GET"
    case HEAD => "HEAD"
    case POST => "POST"
    case PUT => "PUT"
    case PATCH => "PATCH"
    case DELETE => "DELETE"
  }

  function InferAction(m: HttpMethod): Action {
    match m
    case GET => Action.Read
    case HEAD => Action.Read
    case POST => Create
    case PUT => Update
    case PATCH => Update
    case DELETE => Delete
  }

  datatype Request = Request(method_: HttpMethod, targetUrl: string, signature: string)

  /** The other signature headers: the claimed address, the nonce, and the timestamp as parsed. */
  datatype Claim = Claim(agentAddress: string, nonce: string, timestamp: Timestamp)

  function SignedRequestOf(claim: Claim, request: Request): Signed.SignedRequest {
    Signed.SignedRequest(claim.agentAddress, request.signature, claim.nonce, claim.timestamp,
                         MethodName(request.method_), request.targetUrl)
  }

  /** Methods are signed under their own names. */
  lemma MethodNames()
    ensures MethodName(GET) == "GET" && MethodName(HEAD) == "HEAD" && MethodName(POST) == "POST"
    ensures MethodName(PUT) == "PUT" && MethodName(PATCH) == "PATCH" && MethodName(DELETE) == "DELETE"
  {
  }

  lemma MethodNamesDiffer(m: HttpMethod, m': HttpMethod)
    requires m != m'
    ensures MethodName(m) != MethodName(m')
  {
    assert "GET"[0] == 'G' && "HEAD"[0] == 'H' && "DELETE"[0] == 'D';
    assert "POST"[1] == 'O' && "PUT"[1] == 'U' && "PATCH"[1] == 'A';
  }

  lemma MethodNameHasNoNewline(m: HttpMethod)
    ensures '\n' !in MethodName(m)
  {
  }

  /** A signature for one method covers no other, whatever the URLs, nonces and timestamps. */
  lemma MethodsHaveOwnPayloads(
      m: HttpMethod, u: string, n: string, t: Timestamp, m': HttpMethod, u': string, n': string, t': Timestamp)
    requires m != m' && Plain(t) && Plain(t')
    ensures BuildCanonicalPayload(MethodName(m), u, n, t) != BuildCanonicalPayload(MethodName(m'), u', n', t')
  {
    MethodNamesDiffer(m, m');
    MethodNameHasNoNewline(m);
    MethodNameHasNoNewline(m');
    MethodFirst(MethodName(m), u, n, t);
    MethodFirst(MethodName(m'), u', n', t');
  }

  /** What an accepted request must have been signed as. */
  lemma SignedAs(c: Signed.Crypto, claim: Claim, request: Request)
    requires Plain(claim.timestamp)
    ensures Signed.Payload(c, SignedRequestOf(claim, request)) ==
            MethodName(request.method_) + "\n" + request.targetUrl + "\n" + claim.nonce + "\n" + Show(claim.timestamp)
    ensures SignedRequestOf(claim, request).signature == request.signature
    ensures SignedRequestOf(claim, request).agentAddress == claim.agentAddress
    ensures SignedRequestOf(claim, request).nonce == claim.nonce
    ensures SignedRequestOf(claim, request).timestamp == claim.timestamp
  {
  }

  /** The agent a verification recovers, if it accepts. */
  function AcceptedAgent(v: Signed.Verification): Option<string> {
    match v case Accepted(agent) => Some(agent) case Refused(_) => None
  }

  /** The variables middleware leave on the request context for each other. */
  datatype Vars = Vars(
    recoveredAddress: Option<string>, signedRequest: Option<Request>, toolKey: Option<string>, action: Option<Action>,
    role: Option<RoleWithPermissions>, unknownTool: bool, agentRevoked: bool, permissionDenied: Option<set<Action>>)

  /** The status and the error type of the response; the latter is empty when the response carries none. */
  datatype Response = Response(status: int, errorType: string)

  /** What an audit entry records before encryption. */
  datatype AuditRecord = AuditRecord(
    agent: string, tool: string, action: Action, endpoint: string, method_: HttpMethod, status: int, errorType: string)

  /** What the upstream does with a request: answer with a status, in a form the handler wraps and returns (JSON or
      events) or in one for which it returns nothing (text or binary), or fail with an error code. */
  datatype Upstream = Responds(status: int, returned: bool) | Fails(code: int)

  const TIMEOUT_CODE: int := -32021

  /** Everything a request meets that the stages after the signature check do not decide: the agent recovered, the
      configured tools, the role lookup's result, the stored API keys, whether its body can be read, the upstream,
      and whether the response's body can be read for the audit entry and the entry encrypted. For a handler that
      returns nothing the web framework decides what status the audit stage reads and what the client is answered. */
  datatype Inputs = Inputs(
    recovered: Option<string>, request: Request, tools: seq<ToolConfig>, lookup: Lookup,
    keys: Vault, bodyReadable: bool, upstream: Upstream, unreturnedStatus: int, unreturnedAnswer: Response,
    responseReadable: bool, encryptOk: bool)

  /** Nothing keeps an audit entry from being built. */
  predicate Recordable(inp: Inputs) {
    inp.responseReadable && inp.encryptOk
  }

  /** A call of the executor for a tool: the key it injected, or None if injection failed and nothing was sent. */
  datatype Call = Call(tool: string, injected: Option<string>)

  datatype Outcome = Outcome(response: Response, call: Option<Call>, audited: Option<AuditRecord>)

  function EmptyVars(): Vars {
    Vars(None, None, None, None, None, false, false, None)
  }

  predicate Truthy(s: Option<string>) {
    s.Some? && s.value != ""
  }

  function PermissionsFor(role: RoleWithPermissions, tool: string): set<Action> {
    if tool in role.permissions then role.permissions[tool] else {}
  }

  function ShowStatus(status: int): string {
    if status < 0 then "-" + Digits(-status) else Digits(status)
  }

  // ---------------------------------------------------------------- specification of the stages

  /** Authorisation answers itself, or passes the request on with what it left on the context. */
  datatype Authorisation = Stops(response: Response) | Passes(vars: Vars)

  function Authorised(inp: Inputs, vars: Vars): Authorisation {
    if !Truthy(vars.recoveredAddress) || vars.signedRequest.None? then
      Stops(Response(500, "service/internal_error"))
    else
      var Request(method_, targetUrl, _) := vars.signedRequest.value;
      var action := InferAction(method_);
      match Find(inp.tools, targetUrl)
      case None => Passes(vars.(toolKey := Some("unknown"), action := Some(action), unknownTool := true))
      case Some(tool) =>
        match inp.lookup
        case Err(_) => Stops(Response(503, "service/unavailable"))
        case Ok(role) =>
          var known := vars.(toolKey := Some(tool.key), action := Some(action), role := Some(role));
          if !role.isActive then Passes(known.(agentRevoked := true))
          else if !Allows(role.permissions, tool.key, action) then
            Passes(known.(permissionDenied := Some(PermissionsFor(role, tool.key))))
          else Passes(known)
  }

  /** What a handler leaves: a response it returns, or nothing. */
  datatype Reply = Returned(response: Response) | Unreturned

  /** What a call of the executor leaves. */
  function Executed(inp: Inputs, injected: Option<string>): Reply {
    match (if injected.None? then Fails(-32603) else inp.upstream)
    case Responds(status, returned) => if returned then Returned(Response(status, "")) else Unreturned
    case Fails(code) => Returned(Response(if code == TIMEOUT_CODE then 504 else 502, "service/upstream_error"))
  }

  /** The status that the audit stage reads. */
  function StatusSeen(inp: Inputs, reply: Reply): int {
    match reply case Returned(response) => response.status case Unreturned => inp.unreturnedStatus
  }

  /** What the client is answered. */
  function ClientAnswer(inp: Inputs, reply: Reply): Response {
    match reply case Returned(response) => response case Unreturned => inp.unreturnedAnswer
  }

  function Forwarded(inp: Inputs, vars: Vars): (Reply, Option<Call>) {
    if !Truthy(vars.recoveredAddress) || vars.signedRequest.None? || !Truthy(vars.toolKey) || vars.action.None? then
      (Returned(Response(500, "service/internal_error")), None)
    else if vars.unknownTool then (Returned(Response(404, "request/unknown_tool")), None)
    else if vars.agentRevoked then (Returned(Response(403, "permission/agent_revoked")), None)
    else if vars.permissionDenied.Some? then (Returned(Response(403, "permission/no_action_access")), None)
    else
      var tool := vars.toolKey.value;
      match GetKey(inp.keys, tool)
      case None => (Returned(Response(500, "service/internal_error")), None)
      case Some(handle) =>
        if !inp.bodyReadable then (Returned(Response(500, "service/internal_error")), None)
        else
          var injected := Inject(inp.keys, handle);
          (Executed(inp, injected), Some(Call(tool, injected)))
  }

  /** The error type that a status alone stands for. */
  function StatusErrorType(status: int): string {
    if 200 <= status < 300 then ""
    else if status >= 500 then "service/upstream_error"
    else "http_" + ShowStatus(status)
  }

  function AuditedErrorType(vars: Vars, status: int): string {
    if 200 <= status < 300 then ""
    else if vars.unknownTool then "request/unknown_tool"
    else if vars.agentRevoked then "permission/agent_revoked"
    else if vars.permissionDenied.Some? then "permission/no_action_access"
    else StatusErrorType(status)
  }

  function Audited(inp: Inputs, vars: Vars, status: int): Option<AuditRecord> {
    if && Truthy(vars.recoveredAddress) && vars.signedRequest.Some? && Truthy(vars.toolKey)
       && vars.action.Some? && Recordable(inp) then
      Some(AuditRecord(vars.recoveredAddress.value, vars.toolKey.value, vars.action.value,
                       vars.signedRequest.value.targetUrl, vars.signedRequest.value.method_,
                       status, AuditedErrorType(vars, status)))
    else None
  }

  /** The three stages together. */
  function Handled(inp: Inputs): Outcome {
    match inp.recovered
    case None => Outcome(Response(401, "auth/invalid_signature"), None, None)
    case Some(agent) =>
      var vars := EmptyVars().(recoveredAddress := Some(agent), signedRequest := Some(inp.request));
      match Authorised(inp, vars)
      case Stops(response) => Outcome(response, None, None)
      case Passes(after) =>
        var (reply, call) := Forwarded(inp, after);
        Outcome(ClientAnswer(inp, reply), call, Audited(inp, after, StatusSeen(inp, reply)))
  }

  // ---------------------------------------------------------------- the stages

  class Context {
    var vars: Vars
    var reply: Reply

    constructor ()
      ensures vars == EmptyVars() && reply == Unreturned
    {
      vars, reply := EmptyVars(), Unreturned;
    }

    method Answer(status: int, errorType: string)
      modifies `reply
      ensures reply == Returned(Response(status, errorType))
    {
      reply := Returned(Response(status, errorType));
    }
  }

  /** Verify the signed request, and attach the recovered address and the request, or answer 401. */
  method SignatureMiddleware(
      context: Context, c: Signed.Crypto, nonceValidator: NonceValidator, now: int, claim: Claim, request: Request)
      returns (next: bool)
    requires nonceValidator.Valid()
    modifies context, nonceValidator
    ensures nonceValidator.Valid()
    ensures var (decision, flat) := Signed.Verified(c, Signed.WINDOW_SECONDS, old(Flat(nonceValidator.nonceStore)),
                                                    SignedRequestOf(claim, request), now);
            && Flat(nonceValidator.nonceStore) == flat
            && next == decision.Accepted?
            && context.vars == (if next then old(context.vars).(recoveredAddress := AcceptedAgent(decision),
                                                               signedRequest := Some(request))
                                else old(context.vars))
            && (!next ==> context.reply == Returned(Response(401, "auth/invalid_signature")))
  {
    var signedRequest := SignedRequestOf(claim, request);
    var verifyResult := Signed.VerifySignedRequest(c, signedRequest, nonceValidator, now);
    if verifyResult.Refused? {
      context.Answer(401, "auth/invalid_signature");
      return false;
    }
    context.vars := context.vars.(recoveredAddress := Some(verifyResult.agent));
    context.vars := context.vars.(signedRequest := Some(request));
    return true;
  }

  /** Record on the context what the request may do; denials are flags, so that the audit stage still runs. */
  method RbacMiddleware(context: Context, registry: ToolRegistry, inp: Inputs) returns (next: bool)
    requires registry.Valid() && registry.config == inp.tools
    modifies context
    ensures next == Authorised(inp, old(context.vars)).Passes?
    ensures next ==> Authorised(inp, old(context.vars)) == Passes(context.vars) && context.reply == old(context.reply)
    ensures !next ==> context.reply.Returned? && Authorised(inp, old(context.vars)) == Stops(context.reply.response)
  {
    if !Truthy(context.vars.recoveredAddress) || context.vars.signedRequest.None? {
      context.Answer(500, "service/internal_error");
      return false;
    }
    var signedRequest := context.vars.signedRequest.value;
    var action := InferAction(signedRequest.method_);
    var toolResult := registry.FindTool(signedRequest.targetUrl);
    if toolResult.None? {
      context.vars := context.vars.(toolKey := Some("unknown"));
      context.vars := context.vars.(action := Some(action));
      context.vars := context.vars.(unknownTool := true);
      return true;
    }
    var toolKey := toolResult.value.key;
    if inp.lookup.Err? {
      context.Answer(503, "service/unavailable");
      return false;
    }
    var role := inp.lookup.role;
    context.vars := context.vars.(toolKey := Some(toolKey));
    context.vars := context.vars.(action := Some(action));
    context.vars := context.vars.(role := Some(role));
    if !role.isActive {
      context.vars := context.vars.(agentRevoked := true);
      return true;
    }
    if toolKey !in role.permissions || action !in role.permissions[toolKey] {
      context.vars := context.vars.(permissionDenied := Some(PermissionsFor(role, toolKey)));
    }
    return true;
  }

  /** Answer a denial, in order of precedence, or call the executor. */
  method ForwardHandler(context: Context, inp: Inputs) returns (call: Option<Call>)
    modifies context
    ensures context.vars == old(context.vars)
    ensures (context.reply, call) == Forwarded(inp, context.vars)
  {
    call := None;
    var vars := context.vars;
    if !Truthy(vars.recoveredAddress) || vars.signedRequest.None? || !Truthy(vars.toolKey) || vars.action.None? {
      context.Answer(500, "service/internal_error");
      return;
    }
    if vars.unknownTool {
      context.Answer(404, "request/unknown_tool");
      return;
    }
    if vars.agentRevoked {
      context.Answer(403, "permission/agent_revoked");
      return;
    }
    if vars.permissionDenied.Some? {
      context.Answer(403, "permission/no_action_access");
      return;
    }
    var keyHandle := GetKey(inp.keys, vars.toolKey.value);
    if keyHandle.None? || !inp.bodyReadable {
      context.Answer(500, "service/internal_error");
      return;
    }
    var injected := Inject(inp.keys, keyHandle.value);
    call := Some(Call(vars.toolKey.value, injected));
    var execResult := if injected.None? then Fails(-32603) else inp.upstream;
    match execResult {
      case Fails(code) =>
        var httpStatus := 502;
        if code == TIMEOUT_CODE {
          httpStatus := 504;
        }
        context.Answer(httpStatus, "service/upstream_error");
      case Responds(status, returned) =>
        if returned {
          context.Answer(status, "");
        } else {
          context.reply := Unreturned;
        }
    }
  }

  /** Run the handler, then record what happened. What identifies the request is read before the handler runs, the
      denial flags after it. */
  method AuditMiddleware(context: Context, inp: Inputs) returns (call: Option<Call>, audited: Option<AuditRecord>)
    modifies context
    ensures context.vars == old(context.vars)
    ensures (context.reply, call) == Forwarded(inp, context.vars)
    ensures audited == Audited(inp, context.vars, StatusSeen(inp, context.reply))
  {
    var recoveredAddress, signedRequest := context.vars.recoveredAddress, context.vars.signedRequest;
    var toolKey, action := context.vars.toolKey, context.vars.action;
    call := ForwardHandler(context, inp);
    audited := None;
    var status := StatusSeen(inp, context.reply);
    var isSuccess := status >= 200 && status < 300;
    if Truthy(recoveredAddress) && signedRequest.Some? && Truthy(toolKey) && action.Some? {
      var errorType := "";
      if !isSuccess {
        if context.vars.unknownTool {
          errorType := "request/unknown_tool";
        } else if context.vars.agentRevoked {
          errorType := "permission/agent_revoked";
        } else if context.vars.permissionDenied.Some? {
          errorType := "permission/no_action_access";
        } else if status >= 400 && status < 500 {
          errorType := "http_" + ShowStatus(status);
        } else if status >= 500 {
          errorType := "service/upstream_error";
        } else {
          errorType := "http_" + ShowStatus(status);
        }
      }
      if inp.responseReadable && inp.encryptOk {
        audited := Some(AuditRecord(recoveredAddress.value, toolKey.value, action.value, signedRequest.value.targetUrl,
                                    signedRequest.value.method_, status, errorType));
      }
    }
  }

  /** What the stages after the signature check meet, once it has decided. */
  function AfterSignature(inp: Inputs, decision: Signed.Verification): Inputs {
    inp.(recovered := AcceptedAgent(decision))
  }

  /** Whatever is audited for an accepted request is audited for its signer. */
  lemma AcceptedIs(
      c: Signed.Crypto, flat: imap<Key, Timestamp>, req: Signed.SignedRequest, now: int, inp: Inputs)
    requires Signed.Verified(c, Signed.WINDOW_SECONDS, flat, req, now).0.Accepted?
    requires inp.recovered == Some(Signed.Verified(c, Signed.WINDOW_SECONDS, flat, req, now).0.agent)
    ensures c.recover(Signed.Payload(c, req), req.signature) == inp.recovered
    ensures IsAgentAddress(inp.recovered.value) && SameUpToCase(inp.recovered.value, req.agentAddress)
    ensures Handled(inp).audited.Some? ==> Some(Handled(inp).audited.value.agent) == inp.recovered
  {
    Signed.AcceptedIff(c, flat, req, now, inp.recovered.value);
  }

  /** The route: each stage runs only if the one before passes the request on. */
  method Handle(
      registry: ToolRegistry, c: Signed.Crypto, nonceValidator: NonceValidator, now: int, claim: Claim, inp: Inputs)
      returns (outcome: Outcome)
    requires registry.Valid() && registry.config == inp.tools && nonceValidator.Valid()
    modifies nonceValidator
    ensures nonceValidator.Valid()
    ensures var (decision, flat) := Signed.Verified(c, Signed.WINDOW_SECONDS, old(Flat(nonceValidator.nonceStore)),
                                                    SignedRequestOf(claim, inp.request), now);
            Flat(nonceValidator.nonceStore) == flat && outcome == Handled(AfterSignature(inp, decision))
    ensures outcome.call.Some? || outcome.audited.Some? ==>
              match c.recover(Signed.Payload(c, SignedRequestOf(claim, inp.request)), inp.request.signature)
              case None => false
              case Some(agent) =>
                && IsAgentAddress(agent) && SameUpToCase(agent, claim.agentAddress)
                && (outcome.audited.Some? ==> outcome.audited.value.agent == agent)
  {
    ghost var flat0 := Flat(nonceValidator.nonceStore);
    var context := new Context();
    var next := SignatureMiddleware(context, c, nonceValidator, now, claim, inp.request);
    if !next {
      return Outcome(context.reply.response, None, None);
    }
    var after := inp.(recovered := context.vars.recoveredAddress);
    AcceptedIs(c, flat0, SignedRequestOf(claim, inp.request), now, after);
    next := RbacMiddleware(context, registry, after);
    if !next {
      return Outcome(context.reply.response, None, None);
    }
    var call, audited := AuditMiddleware(context, after);
    return Outcome(ClientAnswer(after, context.reply), call, audited);
  }

  // ---------------------------------------------------------------- what the stages guarantee together

  /** The role lookup lets this request through: an active role whose actions on the tool include Read for GET and HEAD,
      Create for POST, Update for PUT and PATCH, and Delete for DELETE. */
  predicate Permitted(inp: Inputs, tool: string) {
    && inp.lookup.Ok? && inp.lookup.role.isActive && tool in inp.lookup.role.permissions
    && var actions := inp.lookup.role.permissions[tool];
    && (inp.request.method_ == GET ==> Action.Read in actions)
    && (inp.request.method_ == HEAD ==> Action.Read in actions)
    && (inp.request.method_ == POST ==> Action.Create in actions)
    && (inp.request.method_ == PUT ==> Action.Update in actions)
    && (inp.request.method_ == PATCH ==> Action.Update in actions)
    && (inp.request.method_ == DELETE ==> Action.Delete in actions)
  }

  /** The upstream answers in a form for which the handler returns nothing. */
  predicate ReturnsNothing(inp: Inputs) {
    && Handled(inp).call.Some? && Handled(inp).call.value.injected.Some?
    && inp.upstream.Responds? && !inp.upstream.returned
  }

  /** A tool is registered under no empty key. */
  ghost predicate KeysNamed(tools: seq<ToolConfig>) {
    forall i :: 0 <= i < |tools| ==> tools[i].key != ""
  }

  lemma FoundHasName(inp: Inputs)
    requires KeysNamed(inp.tools) && Find(inp.tools, inp.request.targetUrl).Some?
    ensures Find(inp.tools, inp.request.targetUrl).value.key != ""
  {
    FindIsLongestPrefix(inp.tools, inp.request.targetUrl);
  }

  /** The executor runs exactly when the signer was recovered, a tool matched, the role is active and allows the
      action on the tool, a key is stored for it and the body can be read; and then it runs for that tool. */
  lemma ExecutorRunsIff(inp: Inputs)
    requires KeysNamed(inp.tools)
    ensures var found := Find(inp.tools, inp.request.targetUrl);
            && (Handled(inp).call.Some? <==>
                  Truthy(inp.recovered) && found.Some? && Permitted(inp, found.value.key) &&
                  found.value.key in inp.keys && inp.bodyReadable)
            && (Handled(inp).call.Some? ==> Handled(inp).call.value.tool == found.value.key)
  {
    if Find(inp.tools, inp.request.targetUrl).Some? {
      FoundHasName(inp);
    }
  }

  /** A role that only reads on a tool takes only GET and HEAD to the executor. */
  lemma ReadersOnlyRead(inp: Inputs)
    requires KeysNamed(inp.tools) && Handled(inp).call.Some? && inp.lookup.Ok?
    requires var tool := Handled(inp).call.value.tool;
             tool in inp.lookup.role.permissions ==> inp.lookup.role.permissions[tool] <= {Action.Read}
    ensures inp.request.method_ == GET || inp.request.method_ == HEAD
  {
    ExecutorRunsIff(inp);
  }

  /** What is sent upstream carries the matched tool's own key, if the key is not empty and the tool's key has no
      colon. */
  lemma OwnKeyInjected(inp: Inputs)
    requires KeysNamed(inp.tools) && Handled(inp).call.Some?
    requires var tool := Handled(inp).call.value.tool; tool in inp.keys ==> ':' !in tool && inp.keys[tool] != ""
    ensures var tool := Handled(inp).call.value.tool;
            tool in inp.keys && Handled(inp).call.value.injected == Some(inp.keys[tool])
  {
    ExecutorRunsIff(inp);
    var tool := Handled(inp).call.value.tool;
    FoundHasName(inp);
    HandleRoundTripIff(tool);
  }

  /** A request is audited exactly when its signer was recovered, its role could be looked up unless no tool matched,
      and an entry could be built; whatever reaches the executor is audited, under its agent, tool and final status. */
  lemma AuditedIff(inp: Inputs)
    requires KeysNamed(inp.tools)
    ensures Handled(inp).audited.Some? <==>
              && Truthy(inp.recovered) && Recordable(inp)
              && (Find(inp.tools, inp.request.targetUrl).None? || inp.lookup.Ok?)
    ensures Handled(inp).call.Some? && Recordable(inp) ==>
              match Handled(inp).audited
              case None => false
              case Some(record) =>
                && Some(record.agent) == inp.recovered && record.tool == Handled(inp).call.value.tool
                && record.endpoint == inp.request.targetUrl
                && record.status == if ReturnsNothing(inp) then inp.unreturnedStatus else Handled(inp).response.status
  {
    if Find(inp.tools, inp.request.targetUrl).Some? {
      FoundHasName(inp);
    }
  }

  /** Every denial by authorisation is answered and audited with the same error type, the one of the first reason
      that applies, and never calls the executor. */
  lemma DenialsAgree(inp: Inputs)
    requires KeysNamed(inp.tools) && Truthy(inp.recovered) && Recordable(inp)
    ensures var found := Find(inp.tools, inp.request.targetUrl);
            var expected :=
              if found.None? then Some(Response(404, "request/unknown_tool"))
              else if inp.lookup.Err? then None
              else if !inp.lookup.role.isActive then Some(Response(403, "permission/agent_revoked"))
              else if !Permitted(inp, found.value.key) then Some(Response(403, "permission/no_action_access"))
              else None;
            expected.Some? ==>
              && Handled(inp).response == expected.value && Handled(inp).call.None?
              && Handled(inp).audited.Some? && Handled(inp).audited.value.errorType == expected.value.errorType
  {
    if Find(inp.tools, inp.request.targetUrl).Some? {
      FoundHasName(inp);
    }
  }

  /** Over all audited requests the two error types agree except in three cases: the proxy's own failure to prepare the
      call, answered as an internal error but audited as an upstream one; an upstream answer outside 2xx, passed on
      without an error type but audited with one; and an answer the framework gives for the handler, with another
      type than the status stands for that the audit stage read. */
  lemma ErrorTypesAgreeIff(inp: Inputs)
    requires KeysNamed(inp.tools) && Handled(inp).audited.Some?
    ensures var found := Find(inp.tools, inp.request.targetUrl);
            Handled(inp).response.errorType == Handled(inp).audited.value.errorType <==>
            || found.None? || !Permitted(inp, found.value.key)
            || (&& found.value.key in inp.keys && inp.bodyReadable
                && (Handled(inp).call.value.injected.Some? && inp.upstream.Responds? ==>
                      if inp.upstream.returned then 200 <= inp.upstream.status < 300
                      else inp.unreturnedAnswer.errorType == StatusErrorType(inp.unreturnedStatus)))
  {
    if Find(inp.tools, inp.request.targetUrl).Some? {
      FoundHasName(inp);
    }
    assert "http_"[0] == 'h';
    assert "service/internal_error"[8] != "service/upstream_error"[8];
  }

  /** What the record of an audited request names, denials and unknown tools included: the recovered agent, the URL and
      method requested, the action the method stands for, the tool found, and the status the audit stage read. */
  lemma RecordNames(inp: Inputs)
    requires KeysNamed(inp.tools) && Handled(inp).audited.Some?
    ensures var record, found := Handled(inp).audited.value, Find(inp.tools, inp.request.targetUrl);
            && Some(record.agent) == inp.recovered && record.endpoint == inp.request.targetUrl
            && record.method_ == inp.request.method_
            && record.tool == (if found.Some? then found.value.key else "unknown")
            && record.status == (if ReturnsNothing(inp) then inp.unreturnedStatus else Handled(inp).response.status)
    ensures var action := Handled(inp).audited.value.action;
            match inp.request.method_
            case GET => action == Action.Read
            case HEAD => action == Action.Read
            case POST => action == Action.Create
            case PUT => action == Action.Update
            case PATCH => action == Action.Update
            case DELETE => action == Action.Delete
  {
    if Find(inp.tools, inp.request.targetUrl).Some? {
      FoundHasName(inp);
    }
  }

  /** The error type of an audited request, by its cause. */
  lemma RecordedErrorType(inp: Inputs)
    requires KeysNamed(inp.tools) && Handled(inp).audited.Some?
    ensures var record, found := Handled(inp).audited.value, Find(inp.tools, inp.request.targetUrl);
            record.errorType ==
            if 200 <= record.status < 300 then ""
            else if found.None? then "request/unknown_tool"
            else if inp.lookup.Ok? && !inp.lookup.role.isActive then "permission/agent_revoked"
            else if !Permitted(inp, found.value.key) then "permission/no_action_access"
            else if record.status >= 500 then "service/upstream_error"
            else "http_" + (if record.status < 0 then "-" + Digits(-record.status) else Digits(record.status))
  {
    if Find(inp.tools, inp.request.targetUrl).Some? {
      FoundHasName(inp);
    }
  }

  /** The answer to the client, by its cause. */
  lemma AnsweredFor(inp: Inputs)
    requires KeysNamed(inp.tools)
    ensures var found := Find(inp.tools, inp.request.targetUrl);
            Handled(inp).response ==
            if inp.recovered == None then Response(401, "auth/invalid_signature")
            else if inp.recovered == Some("") then Response(500, "service/internal_error")
            else if found.None? then Response(404, "request/unknown_tool")
            else if inp.lookup.Err? then Response(503, "service/unavailable")
            else if !inp.lookup.role.isActive then Response(403, "permission/agent_revoked")
            else if !Permitted(inp, found.value.key) then Response(403, "permission/no_action_access")
            else if found.value.key !in inp.keys || !inp.bodyReadable then Response(500, "service/internal_error")
            else if Inject(inp.keys, GetKey(inp.keys, found.value.key).value).None? then
              Response(502, "service/upstream_error")
            else if inp.upstream == Fails(-32021) then Response(504, "service/upstream_error")
            else if inp.upstream.Fails? then Response(502, "service/upstream_error")
            else if inp.upstream.returned then Response(inp.upstream.status, "")
            else inp.unreturnedAnswer
  {
    if Find(inp.tools, inp.request.targetUrl).Some? {
      FoundHasName(inp);
    }
    ExecutorRunsIff(inp);
  }
}
