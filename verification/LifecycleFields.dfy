// What the records of a run say, field by field: a flow what its /authorize asked
// for, a code what its flow says, a family what its code says and who exchanged it.
module LifecycleFields {
  import opened Wrappers
  import opened OAuth
  import opened TokenStore
  import opened Lifecycle
  import opened LifecycleInvariant
  import opened LifecycleTheorems
  import Gates = OAuthGates

  // ---------- Flows ----------

  // The record says who asked for what, through which method, and where to come back.
  ghost predicate Records(record: FlowRecord, cfg: TenantConfig, req: AuthorizeRequest, flowId: Id, d: FlowDetails) {
    && record.flowId == flowId
    && record.tenantId == cfg.id
    && record.methodId == d.methodId && record.methodKind == d.methodKind
    && record.callbackHost == d.host && record.callbackPath == d.path
    && record.nonce == d.nonce
    && record.clientId == req.clientId && record.redirectUri == req.redirectUri
    && record.scopes == req.scopes && record.audience == req.audience
    && record.appNonce == req.nonce && record.claimsRequest == req.claimsRequest
    && record.challenge == (if Gates.Blank(req.challenge) then None else req.challenge)
    && record.methodState == None
  }

  lemma AuthorizeRecords(s: State, a: Action)
    requires a.Authorize? && FlowStep(s, a).Some?
    ensures var s' := FlowStep(s, a).value;
            a.flowId in s'.hist.authorized
            && Records(s'.hist.authorized[a.flowId].record, a.cfg, a.authorize, a.flowId, a.details)
            && a.flowId in s'.flows && s'.flows[a.flowId].record == s'.hist.authorized[a.flowId].record
            && s'.flows[a.flowId].expiresAt == s.now + a.ttl
  {
  }

  // A flow on record is what one earlier /authorize asked for.
  lemma FlowRecords(sha: string -> string, path: seq<State>, acts: seq<Action>, i: nat, f: Id) returns (j: nat)
    requires Execution(sha, path, acts) && i < |path| && f in path[i].hist.authorized
    ensures j < i && acts[j].Authorize? && acts[j].flowId == f
    ensures Records(path[i].hist.authorized[f].record, acts[j].cfg, acts[j].authorize, f, acts[j].details)
    ensures forall j' | 0 <= j' < |acts| && acts[j'].Authorize? && acts[j'].flowId == f :: j' == j
  {
    j := AuthorizedOnce(sha, path, acts, i, f);
    assert Next(sha, path[j], acts[j], path[j + 1]);
    AuthorizeRecords(path[j], acts[j]);
    HistoryGrows(sha, path, acts, j + 1, i);
  }

  // ---------- Who may take a flow ----------

  // One path is the other with slashes after it.
  predicate SlashesApart(p: string, q: string) {
    (p <= q && forall n | |p| <= n < |q| :: q[n] == '/') || (q <= p && forall n | |q| <= n < |p| :: p[n] == '/')
  }

  lemma {:induction false} TrimmedPath(p: string)
    ensures TrimSlashes(p) <= p && (forall n | |TrimSlashes(p)| <= n < |p| :: p[n] == '/')
    ensures var t := TrimSlashes(p); t != "" ==> t[|t| - 1] != '/'
  {
    if p != "" && p[|p| - 1] == '/' {
      TrimmedPath(p[..|p| - 1]);
    }
  }

  // Paths are compared up to the slashes at their ends.
  lemma PathsAgreeIff(p: string, q: string)
    ensures TrimSlashes(p) == TrimSlashes(q) <==> SlashesApart(p, q)
  {
    TrimmedPath(p);
    TrimmedPath(q);
    var t, u := TrimSlashes(p), TrimSlashes(q);
    if t == u {
      SameTrim(p, q, t);
    } else if SlashesApart(p, q) {
      if p <= q { LongerTrim(p, q, t, u); } else { LongerTrim(q, p, u, t); }
    }
  }

  ghost predicate Trims(p: string, t: string) {
    t <= p && (forall n | |t| <= n < |p| :: p[n] == '/') && (t != "" ==> t[|t| - 1] != '/')
  }

  lemma SameTrim(p: string, q: string, t: string)
    requires Trims(p, t) && Trims(q, t)
    ensures SlashesApart(p, q)
  {
    if |p| <= |q| {
      assert forall n | 0 <= n < |p| :: p[n] == q[n] by {
        forall n | 0 <= n < |p| ensures p[n] == q[n] { if n < |t| { assert p[n] == t[n] == q[n]; } }
      }
    } else {
      assert forall n | 0 <= n < |q| :: p[n] == q[n] by {
        forall n | 0 <= n < |q| ensures p[n] == q[n] { if n < |t| { assert p[n] == t[n] == q[n]; } }
      }
    }
  }

  lemma LongerTrim(p: string, q: string, t: string, u: string)
    requires Trims(p, t) && Trims(q, u) && p <= q && forall n | |p| <= n < |q| :: q[n] == '/'
    ensures t == u
  {
    if u != "" { assert q[|u| - 1] == u[|u| - 1]; }
    if t != "" { assert q[|t| - 1] == p[|t| - 1] == t[|t| - 1]; }
    assert |t| == |u|;
    assert t == p[..|t|] == q[..|t|] && u == q[..|u|];
  }

  // A flow that a callback takes is live, and the callback carries its tenant and
  // nonce and arrives at its host and path.
  lemma CallbackTakes(s: State, a: Action)
    requires a.Callback? && FlowStep(s, a).Some?
    ensures var s' := FlowStep(s, a).value;
            && a.pid !in s.procs
            && (a.pid in s'.procs <==>
                  && a.envelope.flowId in s.flows && s.now < s.flows[a.envelope.flowId].expiresAt
                  && var flow := s.flows[a.envelope.flowId].record;
                     && a.envelope.tenantId == flow.tenantId && a.envelope.nonce == flow.nonce
                     && a.host == flow.callbackHost && SlashesApart(a.path, flow.callbackPath))
            && (a.pid in s'.procs ==> s'.procs[a.pid] == HoldingFlow(s.flows[a.envelope.flowId].record))
            && s'.flows == s.flows - {a.envelope.flowId}
  {
    if a.envelope.flowId in s.flows {
      PathsAgreeIff(a.path, s.flows[a.envelope.flowId].record.callbackPath);
    } else {
      assert s.flows - {a.envelope.flowId} == s.flows;
    }
  }

  lemma RoutePeeks(s: State, a: Action)
    requires a.ReadRoute? && FlowStep(s, a).Some?
    ensures var s' := FlowStep(s, a).value;
            && a.pid !in s.procs
            && (a.pid in s'.procs <==>
                  && a.flowId in s.flows && s.now < s.flows[a.flowId].expiresAt
                  && var flow := s.flows[a.flowId].record;
                     a.tenantId == flow.tenantId && a.methodId == flow.methodId)
            && (a.pid in s'.procs ==> s'.procs[a.pid] == Peeked(s.flows[a.flowId].record.flowId))
  {
  }

  lemma TakeTakes(s: State, a: Action)
    requires a.TakeFlow? && FlowStep(s, a).Some?
    ensures var s' := FlowStep(s, a).value;
            && a.pid in s.procs && s.procs[a.pid].Peeked?
            && var f := s.procs[a.pid].flowId;
               && (a.pid in s'.procs <==> f in s.flows && s.now < s.flows[f].expiresAt)
               && (a.pid in s'.procs ==> s'.procs[a.pid] == HoldingFlow(s.flows[f].record))
               && s'.flows == s.flows - {f}
  {
    var f := s.procs[a.pid].flowId;
    assert f !in s.flows ==> s.flows - {f} == s.flows;
  }

  // In every run, a callback that goes on carries the tenant, nonce, host and path of
  // the one /authorize that saved its flow.
  lemma CallbackMatchesAuthorize(sha: string -> string, path: seq<State>, acts: seq<Action>, i: nat) returns (j: nat)
    requires Execution(sha, path, acts) && i < |acts| && acts[i].Callback? && acts[i].pid in path[i + 1].procs
    ensures var a := acts[i];
            && j < i && acts[j].Authorize? && acts[j].flowId == a.envelope.flowId
            && a.envelope.tenantId == acts[j].cfg.id && a.envelope.nonce == acts[j].details.nonce
            && a.host == acts[j].details.host && SlashesApart(a.path, acts[j].details.path)
            && path[i + 1].procs[a.pid].HoldingFlow?
            && Records(path[i + 1].procs[a.pid].flow.(methodState := None), acts[j].cfg, acts[j].authorize,
                       a.envelope.flowId, acts[j].details.(methodId := path[i + 1].procs[a.pid].flow.methodId))
            && path[i + 1].procs[a.pid].flow.methodId == acts[j].details.methodId
    ensures forall j' | 0 <= j' < |acts| && acts[j'].Authorize? && acts[j'].flowId == acts[i].envelope.flowId :: j' == j
  {
    var a, s := acts[i], path[i];
    assert Next(sha, s, a, path[i + 1]);
    CallbackTakes(s, a);
    var f := a.envelope.flowId;
    assert s.flows[f].record.flowId == f && FaithfulFlow(s.hist, s.flows[f].record) by {
      ExecutionInv(sha, path, acts, i);
    }
    j := FlowRecords(sha, path, acts, i, f);
  }

  // And a method route that goes on names the tenant and method of its flow's /authorize.
  lemma RouteMatchesAuthorize(sha: string -> string, path: seq<State>, acts: seq<Action>, i: nat) returns (j: nat)
    requires Execution(sha, path, acts) && i < |acts| && acts[i].ReadRoute? && acts[i].pid in path[i + 1].procs
    ensures var a := acts[i];
            && j < i && acts[j].Authorize? && acts[j].flowId == a.flowId
            && a.tenantId == acts[j].cfg.id && a.methodId == acts[j].details.methodId
            && path[i + 1].procs[a.pid] == Peeked(a.flowId)
    ensures forall j' | 0 <= j' < |acts| && acts[j'].Authorize? && acts[j'].flowId == acts[i].flowId :: j' == j
  {
    var a, s := acts[i], path[i];
    assert Next(sha, s, a, path[i + 1]);
    RoutePeeks(s, a);
    assert s.flows[a.flowId].record.flowId == a.flowId && FaithfulFlow(s.hist, s.flows[a.flowId].record) by {
      ExecutionInv(sha, path, acts, i);
    }
    j := FlowRecords(sha, path, acts, i, a.flowId);
  }

  // ---------- Codes ----------

  // A code says what its flow's /authorize asked for, who signed in, and when, in seconds.
  ghost predicate Says(p: CodePayload, cfg: TenantConfig, req: AuthorizeRequest, d: FlowDetails, subject: string, at: int) {
    && p.tenantId == cfg.id
    && p.clientId == req.clientId && p.redirectUri == req.redirectUri
    && p.scopes == req.scopes && p.audience == req.audience
    && p.challenge == (if Gates.Blank(req.challenge) then None else req.challenge)
    && p.methodId == d.methodId && p.methodKind == d.methodKind
    && p.providerSubject == subject
    && p.appNonce == req.nonce && p.claimsRequest == req.claimsRequest
    && 1000 * p.authTime <= at < 1000 * (p.authTime + 1)
  }

  lemma IssueSays(s: State, a: Action, au: AuthorizeRequest, cfg: TenantConfig, d: FlowDetails)
    requires a.IssueCode? && FlowStep(s, a).Some?
    requires var flow := s.procs[a.pid].flow;
             flow.flowId in s.hist.authorized && SameFlow(flow, s.hist.authorized[flow.flowId].record)
             && Records(s.hist.authorized[flow.flowId].record, cfg, au, flow.flowId, d)
    ensures var s' := FlowStep(s, a).value;
            a.code in s'.hist.issued && Says(s'.hist.issued[a.code].payload, cfg, au, d, a.subject, a.at)
  {
  }

  // Codes come into being by two steps only.
  lemma IssuedBy(sha: string -> string, s: State, a: Action, s': State, c: Id)
    requires Next(sha, s, a, s') && c in s'.hist.issued && c !in s.hist.issued
    ensures (a.IssueCode? && a.code == c && a.pid in s.procs && s.procs[a.pid].HoldingFlow?
             && s'.hist.issued[c].origin == FromFlow(s.procs[a.pid].flow.flowId))
            || (a.IssueUnsolicited? && s'.hist.issued[c].origin == Unsolicited)
  {
    FlowsIssue(s, a, c);
    GrantsDoNotIssue(sha, s, a);
    GatesDoNotIssue(sha, s, a);
    ConsumesDoNotIssue(s, a);
  }

  lemma FlowsIssue(s: State, a: Action, c: Id)
    requires c !in s.hist.issued
    ensures var s' := FlowStep(s, a); s'.Some? && c in s'.value.hist.issued ==>
              || (a.IssueCode? && a.code == c && a.pid in s.procs && s.procs[a.pid].HoldingFlow?
                  && s'.value.hist.issued[c].origin == FromFlow(s.procs[a.pid].flow.flowId))
              || (a.IssueUnsolicited? && s'.value.hist.issued[c].origin == Unsolicited)
  {
  }

  lemma GrantsDoNotIssue(sha: string -> string, s: State, a: Action)
    ensures var s' := GrantStep(sha, s, a); s'.Some? ==> s'.value.hist.issued == s.hist.issued
  {
  }

  lemma GatesDoNotIssue(sha: string -> string, s: State, a: Action)
    ensures var s' := GateStep(sha, s, a); s'.Some? ==> s'.value.hist.issued == s.hist.issued
  {
  }

  lemma ConsumesDoNotIssue(s: State, a: Action)
    ensures var s' := ConsumeStep(s, a); s'.Some? ==> s'.value.hist.issued == s.hist.issued
    ensures var s' := HouseStep(s, a); s'.Some? ==> s'.value.hist.issued == s.hist.issued
  {
  }

  // A code that came from a flow, the step that issued it, and the /authorize it answers.
  lemma {:induction false} CodeSays(sha: string -> string, path: seq<State>, acts: seq<Action>, i: nat, c: Id)
    returns (j: nat, k: nat)
    requires Execution(sha, path, acts) && i < |path|
    requires c in path[i].hist.issued && path[i].hist.issued[c].origin.FromFlow?
    ensures j < k < i && acts[j].Authorize? && acts[j].flowId == path[i].hist.issued[c].origin.flowId
    ensures acts[k].IssueCode? && acts[k].code == c
    ensures Says(path[i].hist.issued[c].payload, acts[j].cfg, acts[j].authorize, acts[j].details, acts[k].subject, acts[k].at)
  {
    Advance(sha, path, acts, i - 1);
    if c in path[i - 1].hist.issued {
      j, k := CodeSays(sha, path, acts, i - 1, c);
    } else {
      k := i - 1;
      j := CodeIssuedNow(sha, path, acts, k, c);
    }
  }

  lemma CodeIssuedNow(sha: string -> string, path: seq<State>, acts: seq<Action>, k: nat, c: Id)
    returns (j: nat)
    requires Execution(sha, path, acts) && k < |acts| && Next(sha, path[k], acts[k], path[k + 1])
    requires c in path[k + 1].hist.issued && c !in path[k].hist.issued && path[k + 1].hist.issued[c].origin.FromFlow?
    ensures j < k && acts[j].Authorize? && acts[j].flowId == path[k + 1].hist.issued[c].origin.flowId
    ensures acts[k].IssueCode? && acts[k].code == c
    ensures Says(path[k + 1].hist.issued[c].payload, acts[j].cfg, acts[j].authorize, acts[j].details,
                 acts[k].subject, acts[k].at)
  {
    var s, a := path[k], acts[k];
    IssuedBy(sha, s, a, path[k + 1], c);
    assert FaithfulFlow(s.hist, s.procs[a.pid].flow) by {
      ExecutionInv(sha, path, acts, k);
      assert FaithfulHandler(s.hist, s.procs[a.pid]);
    }
    j := FlowRecords(sha, path, acts, k, s.procs[a.pid].flow.flowId);
    IssueSays(s, a, acts[j].authorize, acts[j].cfg, acts[j].details);
  }

  // ---------- Families ----------

  // A family opened by an exchange is bound to the key of that exchange, and says
  // for the rest what its code says.
  ghost predicate Binds(line: Line, scopes: seq<string>, p: CodePayload, dpopJkt: Option<string>) {
    && line.dpopJkt == dpopJkt
    && line.tenantId == p.tenantId && line.clientId == p.clientId
    && line.methodId == p.methodId && line.methodKind == p.methodKind
    && line.audience == p.audience && line.authTime == p.authTime
    && line.claimsRequest == p.claimsRequest
    && scopes == p.scopes
  }

  lemma GrantBinds(sha: string -> string, path: seq<State>, acts: seq<Action>, i: nat, g: Id)
    requires Execution(sha, path, acts) && i < |path|
    requires g in path[i].hist.grants && path[i].hist.grants[g].Exchanged?
    ensures var grant := path[i].hist.grants[g];
            grant.code in path[i].hist.issued
            && Binds(grant.line, grant.scopes, path[i].hist.issued[grant.code].payload, grant.request.dpopJkt)
  {
    ExecutionInv(sha, path, acts, i);
    assert FaithfulGrant(sha, path[i].hist, path[i].hist.grants[g]);
  }

  // From the row of a refresh token, rotated or not, back to the sign-in it stands for.
  lemma RowStandsFor(sha: string -> string, path: seq<State>, acts: seq<Action>, i: nat, t: Id)
    returns (j: nat, k: nat)
    requires Execution(sha, path, acts) && i < |path| && t in path[i].tokens
    requires var g := path[i].tokens[t].payload.family;
             && g in path[i].hist.grants && path[i].hist.grants[g].Exchanged?
             && path[i].hist.grants[g].code in path[i].hist.issued
             && path[i].hist.issued[path[i].hist.grants[g].code].origin.FromFlow?
    ensures j < k < i && acts[j].Authorize? && acts[k].IssueCode?
    ensures var p, grant := path[i].tokens[t].payload, path[i].hist.grants[path[i].tokens[t].payload.family];
            && p.line.tenantId == acts[j].cfg.id && p.line.clientId == acts[j].authorize.clientId
            && p.line.methodId == acts[j].details.methodId && p.line.methodKind == acts[j].details.methodKind
            && p.line.audience == acts[j].authorize.audience && p.line.claimsRequest == acts[j].authorize.claimsRequest
            && 1000 * p.line.authTime <= acts[k].at < 1000 * (p.line.authTime + 1)
            && p.line.dpopJkt == grant.request.dpopJkt
            && forall w | w in p.scopes :: w in acts[j].authorize.scopes
  {
    var g := path[i].tokens[t].payload.family;
    FamiliesKeepTheirLine(sha, path, acts, i);
    GrantBinds(sha, path, acts, i, g);
    j, k := CodeSays(sha, path, acts, i, path[i].hist.grants[g].code);
  }

  // A token of a family bound to a key is refused to every refresh with another key, or none.
  lemma BoundToItsKey(sha: string -> string, path: seq<State>, acts: seq<Action>, i: nat, t: Id,
                      cfg: TenantConfig, req: RefreshRequest)
    requires Execution(sha, path, acts) && i < |path| && t in path[i].tokens
    requires var g := path[i].tokens[t].payload.family;
             g in path[i].hist.grants && path[i].hist.grants[g].Exchanged?
             && path[i].hist.grants[g].request.dpopJkt.Some? && req.dpopJkt != path[i].hist.grants[g].request.dpopJkt
    ensures RefreshGate(sha, cfg, path[i].tokens[t].payload, req).Some?
  {
    FamiliesKeepTheirLine(sha, path, acts, i);
    GrantBinds(sha, path, acts, i, path[i].tokens[t].payload.family);
    Gates.RefreshGateIff(sha, cfg, path[i].tokens[t].payload, req);
  }

  // ---------- Redeeming, rotating, saving ----------

  // A code is redeemed when it is there, in time, and sealed under a key at hand; and it is gone.
  lemma RedeemTakes(sha: string -> string, s: State, a: Action)
    requires a.Redeem? && GrantStep(sha, s, a).Some?
    ensures var s' := GrantStep(sha, s, a).value;
            var c := a.exchange.code;
            && (a.pid in s'.procs <==> c in s.codes && s.now < s.codes[c].expiresAt && s.codes[c].ciphertext.kid in a.keys)
            && (a.pid in s'.procs ==> s'.procs[a.pid] == HoldingCode(c, s.codes[c].ciphertext.payload, a.exchange))
            && s'.codes == s.codes - {c}
  {
    assert a.exchange.code !in s.codes ==> s.codes - {a.exchange.code} == s.codes;
  }

  // A token used up for a rotation leaves a mint under way for the same family and
  // line, with the granted scopes if none were asked for, else exactly those asked
  // for; and none at all if one of them was not granted.
  lemma RotationMints(s: State, a: Action, scope: Option<string>)
    requires (a.Claim? || a.ConsumeAtomically?) && a.pid in s.procs && s.procs[a.pid].Consuming?
    requires s.procs[a.pid].purpose == Rotate(scope) && Claimable(s.tokens, s.procs[a.pid].token, s.now)
    ensures ConsumeStep(s, a).Some?
    ensures var t := s.procs[a.pid].token;
            var p, procs := s.tokens[t].payload, ConsumeStep(s, a).value.procs;
            && (Gates.Blank(scope) ==> procs == s.procs[a.pid := Minting(p.family, Some(t), p.line, p.scopes)])
            && (forall ws | ws != [] && (forall w | w in ws :: Gates.Scope(w)) && scope == Some(Gates.Spaced(ws)) ::
                  procs == if forall w | w in ws :: w in p.scopes
                           then s.procs[a.pid := Minting(p.family, Some(t), p.line, ws)] else s.procs - {a.pid})
  {
    forall ws | ws != [] && (forall w | w in ws :: Gates.Scope(w)) && scope == Some(Gates.Spaced(ws))
      ensures Truthy(scope) && Words(scope.value) == ws
    {
      Gates.RequestedExactly([], ws);
      Gates.ScopesRoundTrip(ws);
      assert ws[0] in ws;
    }
  }

  // What a mint under way writes.
  lemma MintWrites(sha: string -> string, s: State, a: Action)
    requires a.SaveToken? && GrantStep(sha, s, a).Some?
    ensures a.pid in s.procs && s.procs[a.pid].Minting?
    ensures var s', h := GrantStep(sha, s, a).value, s.procs[a.pid];
            && a.token in s'.tokens && s'.tokens[a.token].consumedAt.None? && s'.tokens - {a.token} == s.tokens - {a.token}
            && var p := s'.tokens[a.token].payload;
               && p.line == h.line && p.family == h.family && p.scopes == h.scopes
               && p.subjectId == a.subjectId && p.issuedAt == a.issuedAt && p.expiresAt == a.issuedAt + a.ttl
  {
  }
}
