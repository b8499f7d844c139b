// The endpoint handlers, each on its own over the in-memory stores: what one does
// when nothing interferes is exactly its steps of the machine, one after the other.
module Handlers {
  import opened Wrappers
  import opened OAuth
  import TS = TokenStore
  import FlowStore
  import opened Lifecycle
  import opened MemoryTokens
  import opened SessionStores
  import Refresh
  import Gates = OAuthGates
  import Fields = LifecycleFields

  // What an authentication method answers to a request.
  datatype MethodResult = Challenge(saveState: Option<string>) | Success(subject: string) | Denied | Failed

  datatype Reply = Challenged | IssuedCode(code: Id) | WasDenied

  const FAILED := InternalError("method failed")

  ghost function StateOf(sessions: MemorySessionStore, tokens: MemoryTokenStore, now: int): State
    reads sessions, tokens
  {
    State(now, sessions.flows, tokens.codes, tokens.refresh, map[], Initial.hist)
  }

  ghost predicate Holds(sessions: MemorySessionStore, tokens: MemoryTokenStore, s: State)
    reads sessions, tokens
  {
    sessions.flows == s.flows && tokens.codes == s.codes && tokens.refresh == s.tokens
  }

  ghost predicate Live(flows: FlowStore.Flows, id: Id, now: int) {
    id in flows && now < flows[id].expiresAt
  }

  // The code is stored for a minute, sealed under the key, and says what the record
  // says, who signed in, and when, in seconds.
  ghost predicate Stores(codes: TS.Codes, code: Id, kid: string, flow: FlowRecord, subject: string, now: int) {
    && code in codes && codes[code].expiresAt == now + 60000 && codes[code].ciphertext.kid == kid
    && var p := codes[code].ciphertext.payload;
       && p.tenantId == flow.tenantId && p.clientId == flow.clientId && p.redirectUri == flow.redirectUri
       && p.scopes == flow.scopes && p.audience == flow.audience && p.challenge == flow.challenge
       && p.methodId == flow.methodId && p.methodKind == flow.methodKind && p.providerSubject == subject
       && p.appNonce == flow.appNonce && p.claimsRequest == flow.claimsRequest
       && 1000 * p.authTime <= now < 1000 * (p.authTime + 1)
  }

  // ---------- From a flow to a code ----------

  // `kid` is the current encryption key, if there is one.
  method SaveEncryptedCode(tokens: MemoryTokenStore, code: Id, payload: CodePayload, kid: Option<string>, now: int)
    returns (r: Result<(), AuthError>)
    modifies tokens`codes
    ensures r.Ok? <==> kid.Some?
    ensures tokens.codes == if kid.None? then old(tokens.codes)
                            else old(tokens.codes)[code := TS.StoredCode(Sealed(kid.value, payload), now + TS.AUTH_CODE_TTL_MS)]
  {
    if kid.None? {
      return Err(InternalError("no encryption key"));
    }
    r := tokens.SaveCode(code, Sealed(kid.value, payload), TS.AUTH_CODE_TTL_MS, now);
  }

  // Method state is persisted before the response goes out.
  method PersistState(sessions: MemorySessionStore, flowId: Id, m: MethodResult, now: int)
    returns (r: Result<(), AuthError>)
    modifies sessions
    ensures sessions.flows == if m.Challenge? && m.saveState.Some?
                              then FlowStore.UpdateMethodState(old(sessions.flows), flowId, m.saveState.value, now).1
                              else old(sessions.flows)
    ensures r.Err? ==> m.Challenge? && m.saveState.Some?
  {
    if m.Challenge? && m.saveState.Some? {
      r := sessions.UpdateFlowMethodState(flowId, m.saveState.value, now);
    } else {
      r := Ok(());
    }
  }

  // A flow that was saved or read becomes a code: consume it, then save what it says.
  method Complete(ghost s: State, sessions: MemorySessionStore, tokens: MemoryTokenStore, flowId: Id, m: MethodResult,
                  code: Id, kid: Option<string>, now: int)
    returns (r: Result<Reply, AuthError>)
    requires Holds(sessions, tokens, s) && s.now == now && code !in s.hist.issued
    requires 0 in s.procs && s.procs[0] == Peeked(flowId)
    modifies sessions, tokens`codes
    ensures Completes(s, m, code, kid, sessions.flows, tokens.codes, r)
  {
    var persisted := PersistState(sessions, flowId, m, now);
    if persisted.Err? {
      return Err(persisted.error);
    }
    match m {
      case Challenge(_) => return Ok(Challenged);
      case Denied => return Ok(WasDenied);
      case Failed => return Err(FAILED);
      case Success(subject) =>
        var consumed := sessions.ConsumeFlow(flowId, now);
        if consumed.Err? {
          return Err(consumed.error);
        }
        var saved := SaveEncryptedCode(tokens, code, Snapshot(consumed.value, subject, now), kid, now);
        if saved.Err? {
          return Err(saved.error);
        }
        return Ok(IssuedCode(code));
    }
  }

  // Success is TakeFlow then IssueCode; a challenge with state is SaveMethodState;
  // anything else ends the request where it stands.
  ghost predicate Completes(s: State, m: MethodResult, code: Id, kid: Option<string>,
                            flows: FlowStore.Flows, codes: TS.Codes, r: Result<Reply, AuthError>)
    requires 0 in s.procs && s.procs[0].Peeked?
  {
    match m
    case Success(subject) =>
      var taken := DoTakeFlow(s, 0);
      && taken.Some?
      && var s1 := taken.value;
         if 0 in s1.procs && kid.Some? then
           var issued := DoIssueCode(s1, 0, code, kid.value, subject, s.now);
           issued.Some? && r == Ok(IssuedCode(code)) && flows == issued.value.flows && codes == issued.value.codes
         else r.Err? && flows == s1.flows && codes == s1.codes
    case Challenge(state) =>
      && (r.Ok? ==> r.value.Challenged?)
      && codes == s.codes
      && flows == if state.Some? then DoSaveMethodState(s, 0, state.value).value.flows else s.flows
    case _ => (r.Ok? ==> r.value.WasDenied?) && flows == s.flows && codes == s.codes
  }

  // A code for what was asked for if the method signed somebody in, and the flow is
  // gone; otherwise the flow waits for its lifetime, with the state the method keeps.
  ghost predicate Answered(flows: FlowStore.Flows, codes: TS.Codes, cfg: TenantConfig, req: AuthorizeRequest, flowId: Id,
                           d: FlowDetails, expiresAt: int, m: MethodResult, code: Id, kid: Option<string>, now: int,
                           flows': FlowStore.Flows, codes': TS.Codes, r: Result<Reply, AuthError>) {
    && (r == Ok(IssuedCode(code)) <==> m.Success? && kid.Some?)
    && (r.Ok? && r.value.IssuedCode? ==> r.value.code == code)
    && (if r == Ok(IssuedCode(code)) then
          && code in codes' && codes' == codes[code := codes'[code]]
          && codes'[code].expiresAt == now + 60000 && codes'[code].ciphertext.kid == kid.value
          && Fields.Says(codes'[code].ciphertext.payload, cfg, req, d, m.subject, now)
        else codes' == codes)
    && (if m.Success? then flows' == flows - {flowId}
        else
          && flowId in flows' && flows' == flows[flowId := flows'[flowId]]
          && flows'[flowId].expiresAt == expiresAt
          && var record := flows'[flowId].record;
             && Fields.Records(record.(methodState := None), cfg, req, flowId, d)
             && record.methodState == if m.Challenge? then m.saveState else None)
  }

  lemma CompletedAnswers(s: State, cfg: TenantConfig, req: AuthorizeRequest, flowId: Id, d: FlowDetails, ttl: int,
                         m: MethodResult, code: Id, kid: Option<string>, flows: FlowStore.Flows, codes: TS.Codes,
                         r: Result<Reply, AuthError>)
    requires s.procs == map[] && s.hist == Initial.hist
    requires var authorized := DoAuthorize(s, 0, cfg, req, flowId, d, ttl);
             authorized.Some? && Completes(authorized.value, m, code, kid, flows, codes, r)
    ensures Answered(s.flows, s.codes, cfg, req, flowId, d, s.now + ttl, m, code, kid, s.now, flows, codes, r)
  {
    var s1 := DoAuthorize(s, 0, cfg, req, flowId, d, ttl).value;
    assert s1.flows - {flowId} == s.flows - {flowId};
  }

  // `resolved` says whether the tenant has one enabled method for the request; `m`
  // is what the method answers.
  method StartAuthorize(sessions: MemorySessionStore, tokens: MemoryTokenStore, cfg: TenantConfig,
                        req: AuthorizeRequest, flowId: Id, d: FlowDetails, ttl: int, resolved: bool, m: MethodResult,
                        code: Id, kid: Option<string>, now: int)
    returns (r: Result<Reply, AuthError>)
    modifies sessions, tokens`codes
    ensures var s := old(StateOf(sessions, tokens, now));
            var authorized := DoAuthorize(s, 0, cfg, req, flowId, d, ttl);
            if ValidateAuthorize(cfg, req).Err? then
              r == Err(ValidateAuthorize(cfg, req).error) && Holds(sessions, tokens, s)
            else if !resolved || authorized.None? then r.Err? && Holds(sessions, tokens, s)
            else Completes(authorized.value, m, code, kid, sessions.flows, tokens.codes, r)
    ensures var goes := Gates.Acceptable(cfg, req) && resolved && 0 < ttl;
            if goes then Answered(old(sessions.flows), old(tokens.codes), cfg, req, flowId, d, now + ttl, m, code, kid, now,
                                  sessions.flows, tokens.codes, r)
            else r.Err? && sessions.flows == old(sessions.flows) && tokens.codes == old(tokens.codes)
  {
    Gates.AuthorizeGateIff(cfg, req);
    var client := ValidateAuthorize(cfg, req);
    if client.Err? {
      return Err(client.error);
    }
    if !resolved {
      return Err(FAILED);
    }
    var record := NewFlow(cfg, client.value, req, flowId, d, now + ttl);
    var saved := sessions.SaveFlow(flowId, record, ttl, now);
    if saved.Err? {
      return Err(saved.error);
    }
    ghost var s1 := DoAuthorize(old(StateOf(sessions, tokens, now)), 0, cfg, req, flowId, d, ttl).value;
    r := Complete(s1, sessions, tokens, flowId, m, code, kid, now);
    CompletedAnswers(old(StateOf(sessions, tokens, now)), cfg, req, flowId, d, ttl, m, code, kid, sessions.flows, tokens.codes, r);
  }

  method HandleMethodRoute(sessions: MemorySessionStore, tokens: MemoryTokenStore, flowId: Id, tenantId: string,
                           methodId: string, m: MethodResult, code: Id, kid: Option<string>, now: int)
    returns (r: Result<Reply, AuthError>)
    modifies sessions, tokens`codes
    ensures var s := old(StateOf(sessions, tokens, now));
            var s1 := DoReadRoute(s, 0, flowId, tenantId, methodId).value;
            if 0 !in s1.procs then r.Err? && Holds(sessions, tokens, s1)
            else Completes(s1, m, code, kid, sessions.flows, tokens.codes, r)
    ensures Live(old(sessions.flows), flowId, now) && old(sessions.flows)[flowId].record.flowId == flowId ==>
              var flow := old(sessions.flows)[flowId].record;
              && (r == Ok(IssuedCode(code)) <==>
                    tenantId == flow.tenantId && methodId == flow.methodId && m.Success? && kid.Some?)
              && (r == Ok(IssuedCode(code)) ==>
                    && Stores(tokens.codes, code, kid.value, flow, m.subject, now)
                    && sessions.flows == old(sessions.flows) - {flowId})
    ensures !Live(old(sessions.flows), flowId, now) ==> r == Err(UnknownState)
    ensures r.Ok? && r.value.IssuedCode? ==>
              r.value.code == code && tokens.codes == old(tokens.codes)[code := tokens.codes[code]]
    ensures r != Ok(IssuedCode(code)) ==> tokens.codes == old(tokens.codes)
  {
    var read := sessions.ReadFlow(flowId, now);
    if read.Err? {
      return Err(read.error);
    }
    var flow := read.value;
    if flow.tenantId != tenantId {
      return Err(InvalidRequest("flow"));
    }
    if flow.methodId != methodId {
      return Err(InvalidRequest("methodId"));
    }
    ghost var s1 := DoReadRoute(old(StateOf(sessions, tokens, now)), 0, flowId, tenantId, methodId).value;
    r := Complete(s1, sessions, tokens, flow.flowId, m, code, kid, now);
  }

  // The envelope arrives verified. A stored record carries the id it is stored under,
  // and then nothing but the consume touches the flows. The flow is consumed first, and stays consumed
  // if it turns out not to match.
  method HandleCallback(sessions: MemorySessionStore, tokens: MemoryTokenStore, e: Envelope, host: string,
                        path: string, m: MethodResult, code: Id, kid: Option<string>, now: int)
    returns (r: Result<Reply, AuthError>)
    modifies sessions, tokens`codes
    ensures var s := old(StateOf(sessions, tokens, now));
            var s1 := DoCallback(s, 0, e, host, path).value;
            if 0 in s1.procs && m.Success? && kid.Some? then
              var issued := DoIssueCode(s1, 0, code, kid.value, m.subject, now);
              issued.Some? && r == Ok(IssuedCode(code)) && Holds(sessions, tokens, issued.value)
            else
              (r.Ok? ==> !r.value.IssuedCode?) && tokens.codes == s1.codes
              && (0 !in s1.procs || s1.procs[0].flow.flowId == e.flowId ==> sessions.flows == s1.flows)
    ensures r == Ok(IssuedCode(code)) <==>
              && Live(old(sessions.flows), e.flowId, now)
              && var flow := old(sessions.flows)[e.flowId].record;
                 && e.tenantId == flow.tenantId && e.nonce == flow.nonce
                 && host == flow.callbackHost && Fields.SlashesApart(path, flow.callbackPath)
                 && m.Success? && kid.Some?
    ensures r == Ok(IssuedCode(code)) ==>
              && Stores(tokens.codes, code, kid.value, old(sessions.flows)[e.flowId].record, m.subject, now)
              && tokens.codes == old(tokens.codes)[code := tokens.codes[code]]
              && sessions.flows == old(sessions.flows) - {e.flowId}
    ensures r.Ok? && r.value.IssuedCode? ==> r.value.code == code
    ensures e.flowId !in sessions.flows && (r != Ok(IssuedCode(code)) ==> tokens.codes == old(tokens.codes))
  {
    if e.flowId in sessions.flows {
      Fields.PathsAgreeIff(path, sessions.flows[e.flowId].record.callbackPath);
    }
    var consumed := sessions.ConsumeFlow(e.flowId, now);
    if consumed.Err? {
      return Err(InvalidRequest("state"));
    }
    var flow := consumed.value;
    if e.tenantId != flow.tenantId {
      return Err(InvalidRequest("state"));
    }
    if e.nonce != flow.nonce {
      return Err(InvalidRequest("state"));
    }
    if host != flow.callbackHost {
      return Err(InvalidRequest("state"));
    }
    if TrimSlashes(path) != TrimSlashes(flow.callbackPath) {
      return Err(InvalidRequest("state"));
    }
    var persisted := PersistState(sessions, flow.flowId, m, now);
    if persisted.Err? {
      return Err(persisted.error);
    }
    match m {
      case Challenge(_) => return Ok(Challenged);
      case Denied => return Ok(WasDenied);
      case Failed => return Err(FAILED);
      case Success(subject) =>
        var saved := SaveEncryptedCode(tokens, code, Snapshot(flow, subject, now), kid, now);
        if saved.Err? {
          return Err(saved.error);
        }
        return Ok(IssuedCode(code));
    }
  }

  // ---------- From a code to a family ----------

  // `claim` is what the host's success callback makes of the subject, `signs`
  // whether the access token could be signed.
  method ExchangeCode(sessions: MemorySessionStore, tokens: MemoryTokenStore, sha: string -> string,
                      config: map<string, TenantConfig>, keys: set<string>, req: ExchangeRequest,
                      claim: Option<string>, family: Id, token: Id, subjectId: string, signs: bool, ttl: int, now: int)
    returns (r: Result<RefreshPayload, AuthError>)
    modifies tokens`codes, tokens`refresh
    ensures var s := old(StateOf(sessions, tokens, now));
            var s1 := DoRedeem(s, 0, req, keys).value;
            if 0 in s1.procs && s1.procs[0].payload.tenantId in config && claim.Some? then
              var s2 := DoGrantFamily(sha, s1, 0, config[s1.procs[0].payload.tenantId], claim.value, family).value;
              if 0 in s2.procs && signs then
                var s3 := DoSaveToken(s2, 0, token, subjectId, now, ttl);
                s3.Some? && Holds(sessions, tokens, s3.value) && r == Ok(tokens.refresh[token].payload)
              else r.Err? && Holds(sessions, tokens, s2)
            else r.Err? && Holds(sessions, tokens, s1)
    ensures r.Ok? <==>
              && req.code in old(tokens.codes) && now < old(tokens.codes)[req.code].expiresAt
              && var sealed := old(tokens.codes)[req.code].ciphertext;
                 && sealed.kid in keys && sealed.payload.tenantId in config
                 && Gates.MayExchange(sha, config[sealed.payload.tenantId], sealed.payload, req)
                 && claim.Some? && signs
    ensures r.Ok? ==>
              && Fields.Binds(r.value.line, r.value.scopes, old(tokens.codes)[req.code].ciphertext.payload, req.dpopJkt)
              && r.value.line.claim == claim.value && r.value.subjectId == subjectId && r.value.family == family
              && r.value.issuedAt == now && r.value.expiresAt == now + ttl
    ensures tokens.refresh == if r.Ok? then old(tokens.refresh)[token := TS.StoredRefresh(r.value, None)] else old(tokens.refresh)
    ensures tokens.codes == old(tokens.codes) - {req.code}
  {
    assert req.code !in tokens.codes ==> tokens.codes - {req.code} == tokens.codes;
    if req.code in tokens.codes && tokens.codes[req.code].ciphertext.payload.tenantId in config {
      ghost var p := tokens.codes[req.code].ciphertext.payload;
      Gates.ExchangeIff(sha, config[p.tenantId], p, req);
    }
    var consumed := tokens.ConsumeCode(req.code, now);
    if consumed.Err? {
      return Err(consumed.error);
    }
    if consumed.value.kid !in keys {
      return Err(InternalError("exchangeCode: decrypt failed"));
    }
    var payload := consumed.value.payload;
    if payload.tenantId !in config {
      return Err(Refresh.NO_TENANT);
    }
    var client := ValidateExchange(sha, config[payload.tenantId], payload, req);
    if client.Err? {
      return Err(client.error);
    }
    if claim.None? || !signs {
      return Err(Refresh.NOT_SIGNED);
    }
    var minted := RefreshPayload(GrantedLine(payload, claim.value, req.dpopJkt), subjectId, payload.scopes, family,
                                 now, now + ttl);
    tokens.SaveRefresh(token, minted);
    return Ok(minted);
  }

  // ---------- Revocation ----------

  // Whatever becomes of the token, the answer is a success unless the client fails to authenticate.
  method RevokeToken(sessions: MemorySessionStore, tokens: MemoryTokenStore, sha: string -> string,
                     config: map<string, TenantConfig>, req: RevokeRequest, now: int)
    returns (r: Result<(), AuthError>)
    modifies tokens`refresh
    ensures var s := old(StateOf(sessions, tokens, now));
            var peeked := DoPeekRevoke(s, 0, req);
            if peeked.None? || peeked.value.procs[0].peeked.line.tenantId !in config then
              r == Ok(()) && Holds(sessions, tokens, s)
            else
              var cfg := config[peeked.value.procs[0].peeked.line.tenantId];
              var s2 := DoGateRevoke(sha, peeked.value, 0, cfg).value;
              if 0 in s2.procs then r == Ok(()) && Holds(sessions, tokens, DoConsumeAtomically(s2, 0).value)
              else
                Holds(sessions, tokens, s)
                && (r.Err? <==> RevokeGate(sha, cfg, peeked.value.procs[0].peeked, req).Refuse?)
    ensures var known := req.token in old(tokens.refresh) && now < old(tokens.refresh)[req.token].payload.expiresAt
                         && old(tokens.refresh)[req.token].payload.line.tenantId in config;
            if !known then r.Ok? && tokens.refresh == old(tokens.refresh)
            else
              var row := old(tokens.refresh)[req.token];
              var cfg := config[row.payload.line.tenantId];
              && (r.Err? <==> Gates.FailsToAuthenticate(sha, cfg, row.payload, req))
              && (r.Err? ==> r.error == InvalidClient)
              && tokens.refresh ==
                   if !Gates.MayRevoke(sha, cfg, row.payload, req) then old(tokens.refresh)
                   else if row.consumedAt.None? then old(tokens.refresh)[req.token := TS.StoredRefresh(row.payload, Some(now))]
                   else if now <= row.consumedAt.value then
                     map t | t in old(tokens.refresh) && old(tokens.refresh)[t].payload.family != row.payload.family
                       :: old(tokens.refresh)[t]
                   else old(tokens.refresh)
  {
    if req.token in tokens.refresh && tokens.refresh[req.token].payload.line.tenantId in config {
      ghost var p := tokens.refresh[req.token].payload;
      Gates.RevokeGateIff(sha, config[p.line.tenantId], p, req);
      Gates.RevokeRefusalIff(sha, config[p.line.tenantId], p, req);
    }
    var peek := tokens.PeekRefresh(req.token, now);
    if peek.Err? {
      return Ok(());
    }
    var payload := peek.value;
    if payload.line.tenantId !in config {
      return Ok(());
    }
    var client := FindClient(config[payload.line.tenantId].clients, payload.line.clientId);
    if client.None? {
      return Ok(());
    }
    if client.value.kind.Confidential? {
      if !Truthy(req.clientId) || !Truthy(req.secret) {
        return Err(InvalidClient);
      }
    }
    if req.clientId.Some? && req.clientId.value != payload.line.clientId {
      return Ok(());
    }
    if req.clientId.Some? {
      var failed := VerifyCredentials(sha, client.value, req.secret);
      if failed.Some? {
        return Err(failed.value);
      }
    }
    var consumed := tokens.ConsumeRefresh(req.token, 0, now);
    return Ok(());
  }

  method RevokeAllForSubject(tokens: MemoryTokenStore, tenantId: string, subjectId: string)
    modifies tokens`refresh
    ensures forall t :: t in tokens.refresh <==>
              t in old(tokens.refresh)
              && !(old(tokens.refresh)[t].payload.line.tenantId == tenantId && old(tokens.refresh)[t].payload.subjectId == subjectId)
    ensures forall t | t in tokens.refresh :: tokens.refresh[t] == old(tokens.refresh)[t]
  {
    tokens.RevokeBySubject(tenantId, subjectId);
  }

  // ---------- The refresh grant ----------

  // From the gate on: the request holds its token, and the scopes it asks for are granted.
  lemma ConsumeIsItsSteps(s: State, req: RefreshRequest, env: Refresh.Env)
    requires s.procs == map[0 := Consuming(req.token, env.window, Rotate(req.scope))]
    requires s.hist.minted == map[] && s.now == env.consumedAt
    requires req.token in s.tokens
    requires Truthy(req.scope) ==> Subset(Words(req.scope.value), s.tokens[req.token].payload.scopes)
    ensures var (r, tokens) := TS.ConsumeRefresh(s.tokens, req.token, env.window, env.consumedAt);
            var consumed := DoConsumeAtomically(s, 0).value;
            && consumed.tokens == tokens
            && (0 in consumed.procs <==> r.Ok?)
            && (r.Ok? ==>
                  var saved := DoSaveToken(consumed, 0, env.newToken, env.subjectId, env.mintedAt, env.ttl);
                  saved.Some? && saved.value.tokens == TS.SaveRefresh(tokens, env.newToken, Refresh.Successor(r.value, req, env)))
  {
  }

  lemma GateIsItsSteps(sha: string -> string, s: State, req: RefreshRequest, env: Refresh.Env, payload: RefreshPayload)
    requires s.procs == map[] && TS.PeekRefresh(s.tokens, req.token, s.now) == Ok(payload)
    requires payload.line.tenantId in env.config
    ensures var cfg := env.config[payload.line.tenantId];
            var peeked := DoPeek(s, 0, req).value;
            var gated := DoGate(sha, peeked, 0, cfg, env.window).value;
            && peeked.procs == map[0 := Gating(req, payload)]
            && gated.tokens == s.tokens && gated.hist == s.hist
            && if RefreshGate(sha, cfg, payload, req).Some? then gated.procs == map[]
               else gated.procs == map[0 := Consuming(req.token, env.window, Rotate(req.scope))]
  {
    var peeked := DoPeek(s, 0, req).value;
    assert peeked.procs == map[0 := Gating(req, payload)];
    assert peeked.procs - {0} == map[];
  }

  lemma GatedScopes(sha: string -> string, cfg: TenantConfig, payload: RefreshPayload, req: RefreshRequest)
    requires RefreshGate(sha, cfg, payload, req).None? && Truthy(req.scope)
    ensures Subset(Words(req.scope.value), payload.scopes)
  {
  }

  // The refresh grant alone is Peek, Gate, ConsumeAtomically and SaveToken.
  lemma RefreshIsItsSteps(sha: string -> string, s: State, req: RefreshRequest, env: Refresh.Env)
    requires s.procs == map[] && s.hist.minted == map[] && s.now == env.peekedAt
    ensures var (r, tokens) := Refresh.RefreshSpec(sha, s.tokens, req, env);
            var peeked := DoPeek(s, 0, req);
            if peeked.None? || peeked.value.procs[0].peeked.line.tenantId !in env.config then r.Err? && tokens == s.tokens
            else
              var gated := DoGate(sha, peeked.value, 0, env.config[peeked.value.procs[0].peeked.line.tenantId], env.window).value;
              if 0 !in gated.procs then r.Err? && tokens == s.tokens
              else
                var consumed := DoConsumeAtomically(gated.(now := env.consumedAt), 0).value;
                if 0 !in consumed.procs || !env.signs then r.Err? && tokens == consumed.tokens
                else
                  var saved := DoSaveToken(consumed, 0, env.newToken, env.subjectId, env.mintedAt, env.ttl);
                  saved.Some? && r.Ok? && tokens == saved.value.tokens
  {
    var peek := TS.PeekRefresh(s.tokens, req.token, s.now);
    if peek.Ok? && peek.value.line.tenantId in env.config {
      var cfg := env.config[peek.value.line.tenantId];
      GateIsItsSteps(sha, s, req, env, peek.value);
      if RefreshGate(sha, cfg, peek.value, req).None? {
        if Truthy(req.scope) { GatedScopes(sha, cfg, peek.value, req); }
        var gated := DoGate(sha, DoPeek(s, 0, req).value, 0, cfg, env.window).value;
        ConsumeIsItsSteps(gated.(now := env.consumedAt), req, env);
      }
    }
  }
}
