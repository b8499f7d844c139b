// The refresh grant as one sequential call on the in-memory store: peek, gates,
// consume, mint.
module Refresh {
  import opened Wrappers
  import opened OAuth
  import TS = TokenStore
  import opened MemoryTokens
  import Gates = OAuthGates

  // Everything a call takes from outside: configuration, clock readings, the
  // derived subject, a fresh token, and whether signing and the host's hooks succeed.
  datatype Env = Env(
    config: map<string, TenantConfig>, peekedAt: int, consumedAt: int, window: int,
    signs: bool, subjectId: string, mintedAt: int, ttl: int, newToken: Id)

  const NO_TENANT := InternalError("tenant unknown")
  const NOT_SIGNED := InternalError("access token sign failed")

  // The refusal before anything is consumed, if there is one.
  function Refusal(sha: string -> string, tokens: TS.Tokens, req: RefreshRequest, env: Env): Option<AuthError> {
    var peek := TS.PeekRefresh(tokens, req.token, env.peekedAt);
    if peek.Err? then Some(peek.error)
    else
      var tenantId := peek.value.line.tenantId;
      if tenantId !in env.config then Some(NO_TENANT) else RefreshGate(sha, env.config[tenantId], peek.value, req)
  }

  function Successor(p: RefreshPayload, req: RefreshRequest, env: Env): RefreshPayload {
    RefreshPayload(p.line, env.subjectId, RequestedScopes(req.scope, p.scopes), p.family, env.mintedAt,
                   env.mintedAt + env.ttl)
  }

  function RefreshSpec(sha: string -> string, tokens: TS.Tokens, req: RefreshRequest, env: Env)
    : (Result<RefreshPayload, AuthError>, TS.Tokens)
  {
    var refusal := Refusal(sha, tokens, req, env);
    if refusal.Some? then (Err(refusal.value), tokens)
    else
      var (consumed, tokens') := TS.ConsumeRefresh(tokens, req.token, env.window, env.consumedAt);
      if consumed.Err? then (consumed, tokens')
      else if !env.signs then (Err(NOT_SIGNED), tokens')
      else
        var p := Successor(consumed.value, req, env);
        (Ok(p), TS.SaveRefresh(tokens', env.newToken, p))
  }

  // The request is refused: at the gates, or at the consume for a reason other than
  // a replay in the window.
  predicate LeavesAlone(sha: string -> string, tokens: TS.Tokens, req: RefreshRequest, env: Env) {
    || Refusal(sha, tokens, req, env).Some?
    || (var r := TS.ConsumeRefresh(tokens, req.token, env.window, env.consumedAt).0; r.Err? && !r.error.ReuseDetected?)
  }

  // The token is there, unused and in time at both clock readings, its client presents
  // it with the key it is bound to, and asks for no scope outside the grant.
  predicate MayRotate(sha: string -> string, tokens: TS.Tokens, req: RefreshRequest, env: Env) {
    && req.token in tokens && tokens[req.token].consumedAt.None?
    && var p := tokens[req.token].payload;
       && env.peekedAt < p.expiresAt && env.consumedAt < p.expiresAt
       && p.line.tenantId in env.config
       && Gates.MayRefresh(sha, env.config[p.line.tenantId], p, req)
  }

  // One token is spent and one added, for the subject and the time given, of the same
  // family and line, with the granted scopes if none were asked for and else with
  // exactly those that were; every other row is as it was.
  ghost predicate HandsOn(tokens: TS.Tokens, req: RefreshRequest, env: Env, p: RefreshPayload, tokens': TS.Tokens) {
    && req.token in tokens && tokens[req.token].consumedAt.None?
    && var granted := tokens[req.token].payload;
       && tokens' == tokens[req.token := TS.StoredRefresh(granted, Some(env.consumedAt))]
                           [env.newToken := TS.StoredRefresh(p, None)]
       && p.family == granted.family && p.line == granted.line
       && p.subjectId == env.subjectId && p.issuedAt == env.mintedAt && p.expiresAt == env.mintedAt + env.ttl
       && (forall w | w in p.scopes :: w in granted.scopes)
       && (Gates.Blank(req.scope) ==> p.scopes == granted.scopes)
       && (forall ws | ws != [] && (forall w | w in ws :: Gates.Scope(w)) && req.scope == Some(Gates.Spaced(ws)) :: p.scopes == ws)
  }

  method RefreshTokens(store: MemoryTokenStore, sha: string -> string, req: RefreshRequest, env: Env)
    returns (r: Result<RefreshPayload, AuthError>)
    modifies store`refresh
    ensures (r, store.refresh) == RefreshSpec(sha, old(store.refresh), req, env)
    ensures env.newToken !in old(store.refresh) ==>
              (store.refresh == old(store.refresh) <==> LeavesAlone(sha, old(store.refresh), req, env))
    ensures r.Ok? <==> MayRotate(sha, old(store.refresh), req, env) && env.signs
    ensures r.Ok? ==> HandsOn(old(store.refresh), req, env, r.value, store.refresh)
  {
    if env.newToken !in store.refresh {
      UntouchedIff(sha, store.refresh, req, env);
    }
    RotatesIff(sha, store.refresh, req, env);
    if RefreshSpec(sha, store.refresh, req, env).0.Ok? {
      RotationHandsOn(sha, store.refresh, req, env);
    }
    var peek := store.PeekRefresh(req.token, env.peekedAt);
    if peek.Err? {
      return Err(peek.error);
    }
    var peeked := peek.value;
    if peeked.line.tenantId !in env.config {
      return Err(NO_TENANT);
    }
    var tenant := env.config[peeked.line.tenantId];
    var owner := FindClient(tenant.clients, peeked.line.clientId);
    if owner.None? {
      return Err(InvalidGrant(BadPresenter));
    }
    if req.clientId.Some? {
      var presenting := FindClient(tenant.clients, req.clientId.value);
      if presenting.None? {
        return Err(InvalidGrant(BadPresenter));
      }
      if VerifyCredentials(sha, presenting.value, req.secret).Some? || req.clientId.value != peeked.line.clientId {
        return Err(InvalidGrant(BadPresenter));
      }
    } else if owner.value.kind.Confidential? {
      return Err(InvalidGrant(BadPresenter));
    }
    if peeked.line.dpopJkt.Some? {
      if req.dpopJkt.None? || req.dpopJkt.value != peeked.line.dpopJkt.value {
        return Err(InvalidDpopProof);
      }
    }
    if Truthy(req.scope) && !Subset(Words(req.scope.value), peeked.scopes) {
      return Err(InvalidScope);
    }
    var consumed := store.ConsumeRefresh(req.token, env.window, env.consumedAt);
    if consumed.Err? {
      return consumed;
    }
    var payload := consumed.value;
    // The authoritative re-check; the peeked payload was the consumed one.
    if Truthy(req.scope) && !Subset(Words(req.scope.value), payload.scopes) {
      return Err(InvalidScope);
    }
    if !env.signs {
      return Err(NOT_SIGNED);
    }
    var successor := Successor(payload, req, env);
    store.SaveRefresh(env.newToken, successor);
    return Ok(successor);
  }

  // ---------- What it guarantees ----------

  // The store is untouched exactly by the requests that are refused.
  lemma UntouchedIff(sha: string -> string, tokens: TS.Tokens, req: RefreshRequest, env: Env)
    requires env.newToken !in tokens
    ensures RefreshSpec(sha, tokens, req, env).1 == tokens <==> LeavesAlone(sha, tokens, req, env)
  {
    if Refusal(sha, tokens, req, env).None? {
      var (r, tokens') := TS.ConsumeRefresh(tokens, req.token, env.window, env.consumedAt);
      if r.Ok? {
        assert tokens'[req.token] != tokens[req.token];
        assert req.token in RefreshSpec(sha, tokens, req, env).1;
        assert RefreshSpec(sha, tokens, req, env).1[req.token] != tokens[req.token];
      } else if r.error.ReuseDetected? {
        assert req.token !in tokens';
      }
    }
  }

  datatype Attempt = Attempt(req: RefreshRequest, env: Env)

  function Serve(sha: string -> string, tokens: TS.Tokens, attempts: seq<Attempt>): TS.Tokens
    decreases |attempts|
  {
    if attempts == [] then tokens
    else Serve(sha, RefreshSpec(sha, tokens, attempts[0].req, attempts[0].env).1, attempts[1..])
  }

  // Attempts that client authentication, the DPoP key or the scope check refuses.
  predicate AllRefused(sha: string -> string, tokens: TS.Tokens, attempts: seq<Attempt>) {
    forall a | a in attempts :: Refusal(sha, tokens, a.req, a.env).Some?
  }

  // Any number of refused attempts, by anybody and with any configuration, leave the
  // store as it was, so a later request gets the answer it would have got without them.
  lemma {:induction false} RefusalsLeaveNoTrace(sha: string -> string, tokens: TS.Tokens, attempts: seq<Attempt>,
                                                req: RefreshRequest, env: Env)
    requires AllRefused(sha, tokens, attempts)
    ensures Serve(sha, tokens, attempts) == tokens
    ensures RefreshSpec(sha, Serve(sha, tokens, attempts), req, env) == RefreshSpec(sha, tokens, req, env)
    decreases |attempts|
  {
    if attempts == [] {
    } else {
      assert attempts[0] in attempts;
      RefusalsLeaveNoTrace(sha, tokens, attempts[1..], req, env);
    }
  }

  lemma RotatesIff(sha: string -> string, tokens: TS.Tokens, req: RefreshRequest, env: Env)
    ensures RefreshSpec(sha, tokens, req, env).0.Ok? <==> MayRotate(sha, tokens, req, env) && env.signs
  {
    if req.token in tokens && tokens[req.token].payload.line.tenantId in env.config {
      var p := tokens[req.token].payload;
      Gates.RefreshGateIff(sha, env.config[p.line.tenantId], p, req);
    }
  }

  // A refresh that succeeds hands the grant on: the old token is spent and the
  // new one has its family, its line and the scopes that were asked for.
  lemma RotationHandsOn(sha: string -> string, tokens: TS.Tokens, req: RefreshRequest, env: Env)
    requires RefreshSpec(sha, tokens, req, env).0.Ok?
    ensures var (r, tokens') := RefreshSpec(sha, tokens, req, env);
            HandsOn(tokens, req, env, r.value, tokens')
  {
    RotatesIff(sha, tokens, req, env);
    var p := RefreshSpec(sha, tokens, req, env).0.value;
    forall ws | ws != [] && (forall w | w in ws :: Gates.Scope(w)) && req.scope == Some(Gates.Spaced(ws))
      ensures p.scopes == ws
    {
      Gates.RequestedExactly(tokens[req.token].payload.scopes, ws);
    }
  }
}
