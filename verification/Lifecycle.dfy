// The authorization and token endpoints as one step machine. Every store call
// is one step; between two of them a request is a handler that remembers what
// it has read or consumed, so any number of requests interleave freely.
module Lifecycle {
  import opened Wrappers
  import opened OAuth
  import opened TokenStore
  import opened FlowStore

  // Why a refresh token is being consumed: to rotate it, or to throw it away.
  datatype Purpose = Rotate(scope: Option<string>) | Discard

  datatype Handler =
    | Peeked(flowId: Id)                       // /authorize after saveFlow, a method route after readFlow
    | HoldingFlow(flow: FlowRecord)            // consumed a flow, owes a code
    | HoldingCode(code: Id, payload: CodePayload, exchange: ExchangeRequest)
    | Gating(refresh: RefreshRequest, peeked: RefreshPayload)
    | GatingRevoke(revoke: RevokeRequest, peeked: RefreshPayload)
    | Consuming(token: Id, window: int, purpose: Purpose)
    | LookingUp(token: Id, window: int, at: int, issued: bool)   // SQL and Dynamo: the claim missed
    | Sweeping(family: Id)                     // a replay was found, the family goes next
    | Deleting(family: Id, items: set<Id>)     // Dynamo: the rows a query found, to be deleted one by one
    | Minting(family: Id, parent: Option<Id>, line: Line, scopes: seq<string>)

  // ---------- What happened, for stating properties of whole runs ----------

  datatype Authorization = Authorization(cfg: TenantConfig, request: AuthorizeRequest, record: FlowRecord)
  datatype Origin = FromFlow(flowId: Id) | Unsolicited
  datatype Issued = Issued(origin: Origin, payload: CodePayload)
  datatype Grant =
    | Exchanged(code: Id, cfg: TenantConfig, request: ExchangeRequest, line: Line, scopes: seq<string>)
    | Foreign(line: Line, scopes: seq<string>)
  datatype Mint = Mint(payload: RefreshPayload, parent: Option<Id>)

  datatype History = History(
    authorized: map<Id, Authorization>,  // by flow
    issued: map<Id, Issued>,             // by code
    grants: map<Id, Grant>,              // by family
    minted: map<Id, Mint>,               // by refresh token
    spent: map<Id, Id>)                  // refresh token -> the request whose consume succeeded

  datatype State = State(
    now: int, flows: Flows, codes: Codes, tokens: Tokens, procs: map<Id, Handler>, hist: History)

  const Initial := State(0, map[], map[], map[], map[], History(map[], map[], map[], map[], map[]))

  datatype FlowDetails = FlowDetails(methodId: string, methodKind: string, nonce: string, host: string, path: string)
  datatype Envelope = Envelope(tenantId: string, flowId: Id, nonce: string)

  datatype Action =
    | Authorize(pid: Id, cfg: TenantConfig, authorize: AuthorizeRequest, flowId: Id, details: FlowDetails, ttl: int)
    | SaveMethodState(pid: Id, methodState: string)
    | TakeFlow(pid: Id)
    | Callback(pid: Id, envelope: Envelope, host: string, path: string)
    | ReadRoute(pid: Id, flowId: Id, tenantId: string, methodId: string)
    | IssueCode(pid: Id, code: Id, kid: string, subject: string, at: int)
    | IssueUnsolicited(code: Id, kid: string, payload: CodePayload)
    | Redeem(pid: Id, exchange: ExchangeRequest, keys: set<string>)
    | GrantFamily(pid: Id, cfg: TenantConfig, claim: string, family: Id)
    | GrantForeign(pid: Id, family: Id, line: Line, scopes: seq<string>)
    | SaveToken(pid: Id, token: Id, subjectId: string, issuedAt: int, ttl: int)
    | Peek(pid: Id, refresh: RefreshRequest)
    | Gate(pid: Id, cfg: TenantConfig, window: int)
    | PeekRevoke(pid: Id, revoke: RevokeRequest)
    | GateRevoke(pid: Id, cfg: TenantConfig)
    | Present(pid: Id, token: Id, window: int)   // a caller of the port itself
    | ConsumeAtomically(pid: Id)
    | Claim(pid: Id)
    | LookUp(pid: Id)
    | Sweep(pid: Id)                             // SQL: one DELETE statement
    | QueryFamily(pid: Id)                       // Dynamo: a query, then a delete for each row it found
    | DeleteItem(pid: Id, token: Id)
    | RevokeSubject(tenantId: string, subjectId: string)
    | Collect(flowIds: set<Id>, codeIds: set<Id>, tokenIds: set<Id>)
    | Tick(elapsed: nat)
    | Abort(pid: Id)

  // ---------- The steps ----------

  function Finish(s: State, pid: Id): State {
    s.(procs := s.procs - {pid})
  }

  function Become(s: State, pid: Id, h: Handler): State {
    s.(procs := s.procs[pid := h])
  }

  function NewFlow(cfg: TenantConfig, client: Client, req: AuthorizeRequest, flowId: Id, d: FlowDetails, expiresAt: int)
    : FlowRecord
  {
    FlowRecord(flowId, cfg.id, d.methodId, d.methodKind, client.id, req.redirectUri, d.host, d.path, req.scopes,
               req.audience, d.nonce, req.nonce, req.claimsRequest,
               if Truthy(req.challenge) then req.challenge else None, None, expiresAt)
  }

  // The flow becomes the payload of a code; method state stays behind.
  function Snapshot(flow: FlowRecord, subject: string, at: int): CodePayload {
    CodePayload(flow.tenantId, flow.clientId, flow.redirectUri, flow.scopes, flow.audience, flow.challenge,
                flow.methodId, flow.methodKind, subject, flow.appNonce, flow.claimsRequest,
                at / 1000)
  }

  function GrantedLine(payload: CodePayload, claim: string, dpopJkt: Option<string>): Line {
    Line(payload.tenantId, payload.clientId, claim, payload.methodId, payload.methodKind, payload.audience,
         payload.authTime, dpopJkt, payload.claimsRequest)
  }

  function TrimSlashes(p: string): string {
    if p != "" && p[|p| - 1] == '/' then TrimSlashes(p[..|p| - 1]) else p
  }

  function DoAuthorize(s: State, pid: Id, cfg: TenantConfig, req: AuthorizeRequest, flowId: Id, d: FlowDetails, ttl: int)
    : Option<State>
  {
    var v := ValidateAuthorize(cfg, req);
    if pid in s.procs || flowId in s.hist.authorized || v.Err? || ttl <= 0 then None
    else
      var record := NewFlow(cfg, v.value, req, flowId, d, s.now + ttl);
      Some(State(s.now, SaveFlow(s.flows, flowId, record, ttl, s.now).1, s.codes, s.tokens,
                 s.procs[pid := Peeked(flowId)],
                 s.hist.(authorized := s.hist.authorized[flowId := Authorization(cfg, req, record)])))
  }

  function DoSaveMethodState(s: State, pid: Id, methodState: string): Option<State> {
    if pid !in s.procs || !(s.procs[pid].Peeked? || s.procs[pid].HoldingFlow?) then None
    else
      var h := s.procs[pid];
      var id := if h.Peeked? then h.flowId else h.flow.flowId;
      Some(Finish(s, pid).(flows := UpdateMethodState(s.flows, id, methodState, s.now).1))
  }

  // A successful consume: the flow leaves the store for the hands of `pid`.
  function Take(s: State, pid: Id, id: Id): State
    requires id in s.flows
  {
    State(s.now, s.flows - {id}, s.codes, s.tokens, s.procs[pid := HoldingFlow(s.flows[id].record)], s.hist)
  }

  function DoTakeFlow(s: State, pid: Id): Option<State> {
    if pid !in s.procs || !s.procs[pid].Peeked? then None
    else
      var id := s.procs[pid].flowId;
      var (r, flows) := ConsumeFlow(s.flows, id, s.now);
      Some(if r.Ok? then Take(s, pid, id) else Finish(s, pid).(flows := flows))
  }

  function DoCallback(s: State, pid: Id, e: Envelope, host: string, path: string): Option<State> {
    if pid in s.procs then None
    else
      var (r, flows) := ConsumeFlow(s.flows, e.flowId, s.now);
      if r.Ok? && e.tenantId == r.value.tenantId && e.nonce == r.value.nonce && host == r.value.callbackHost
         && TrimSlashes(path) == TrimSlashes(r.value.callbackPath)
      then Some(Take(s, pid, e.flowId))
      else Some(s.(flows := flows))
  }

  function DoReadRoute(s: State, pid: Id, flowId: Id, tenantId: string, methodId: string): Option<State> {
    if pid in s.procs then None
    else
      var (r, flows) := ReadFlow(s.flows, flowId, s.now);
      if r.Ok? && r.value.tenantId == tenantId && r.value.methodId == methodId
      then Some(Become(s, pid, Peeked(r.value.flowId)).(flows := flows))
      else Some(s.(flows := flows))
  }

  function SaveIssued(s: State, code: Id, kid: string, i: Issued): State {
    s.(codes := SaveCode(s.codes, code, Sealed(kid, i.payload), AUTH_CODE_TTL_MS, s.now).1,
       hist := s.hist.(issued := s.hist.issued[code := i]))
  }

  function DoIssueCode(s: State, pid: Id, code: Id, kid: string, subject: string, at: int): Option<State> {
    if pid !in s.procs || !s.procs[pid].HoldingFlow? || code in s.hist.issued then None
    else
      var flow := s.procs[pid].flow;
      Some(SaveIssued(Finish(s, pid), code, kid, Issued(FromFlow(flow.flowId), Snapshot(flow, subject, at))))
  }

  function DoIssueUnsolicited(s: State, code: Id, kid: string, payload: CodePayload): Option<State> {
    if code in s.hist.issued then None
    else Some(SaveIssued(s, code, kid, Issued(Unsolicited, payload)))
  }

  function DoRedeem(s: State, pid: Id, req: ExchangeRequest, keys: set<string>): Option<State> {
    if pid in s.procs then None
    else
      var (r, codes) := ConsumeCode(s.codes, req.code, s.now);
      if r.Ok? && r.value.kid in keys
      then Some(Become(s, pid, HoldingCode(req.code, r.value.payload, req)).(codes := codes))
      else Some(s.(codes := codes))
  }

  function OpenFamily(s: State, pid: Id, family: Id, g: Grant): State {
    State(s.now, s.flows, s.codes, s.tokens, s.procs[pid := Minting(family, None, g.line, g.scopes)],
          s.hist.(grants := s.hist.grants[family := g]))
  }

  function DoGrantFamily(sha: string -> string, s: State, pid: Id, cfg: TenantConfig, claim: string, family: Id)
    : Option<State>
  {
    if pid !in s.procs || !s.procs[pid].HoldingCode? || family in s.hist.grants then None
    else
      var h := s.procs[pid];
      if ValidateExchange(sha, cfg, h.payload, h.exchange).Err? then Some(Finish(s, pid))
      else
        var line := GrantedLine(h.payload, claim, h.exchange.dpopJkt);
        Some(OpenFamily(s, pid, family, Exchanged(h.code, cfg, h.exchange, line, h.payload.scopes)))
  }

  function DoGrantForeign(s: State, pid: Id, family: Id, line: Line, scopes: seq<string>): Option<State> {
    if pid in s.procs || family in s.hist.grants then None
    else Some(OpenFamily(s, pid, family, Foreign(line, scopes)))
  }

  function DoSaveToken(s: State, pid: Id, token: Id, subjectId: string, issuedAt: int, ttl: int): Option<State> {
    if pid !in s.procs || !s.procs[pid].Minting? || token in s.hist.minted then None
    else
      var h := s.procs[pid];
      var payload := RefreshPayload(h.line, subjectId, h.scopes, h.family, issuedAt, issuedAt + ttl);
      Some(State(s.now, s.flows, s.codes, SaveRefresh(s.tokens, token, payload), s.procs - {pid},
                 s.hist.(minted := s.hist.minted[token := Mint(payload, h.parent)])))
  }

  function DoPeek(s: State, pid: Id, req: RefreshRequest): Option<State> {
    var r := PeekRefresh(s.tokens, req.token, s.now);
    if pid in s.procs || r.Err? then None else Some(Become(s, pid, Gating(req, r.value)))
  }

  function DoGate(sha: string -> string, s: State, pid: Id, cfg: TenantConfig, window: int): Option<State> {
    if pid !in s.procs || !s.procs[pid].Gating? then None
    else
      var h := s.procs[pid];
      if RefreshGate(sha, cfg, h.peeked, h.refresh).Some? then Some(Finish(s, pid))
      else Some(Become(s, pid, Consuming(h.refresh.token, window, Rotate(h.refresh.scope))))
  }

  function DoPeekRevoke(s: State, pid: Id, req: RevokeRequest): Option<State> {
    var r := PeekRefresh(s.tokens, req.token, s.now);
    if pid in s.procs || r.Err? then None else Some(Become(s, pid, GatingRevoke(req, r.value)))
  }

  function DoGateRevoke(sha: string -> string, s: State, pid: Id, cfg: TenantConfig): Option<State> {
    if pid !in s.procs || !s.procs[pid].GatingRevoke? then None
    else
      var h := s.procs[pid];
      if !RevokeGate(sha, cfg, h.peeked, h.revoke).Proceed? then Some(Finish(s, pid))
      else Some(Become(s, pid, Consuming(h.revoke.token, 0, Discard)))
  }

  function DoPresent(s: State, pid: Id, token: Id, window: int): Option<State> {
    if pid in s.procs then None else Some(Become(s, pid, Consuming(token, window, Discard)))
  }

  // What the request does with the token it has just used up. The scope check
  // is repeated here; it ran on the peeked payload already.
  function Successor(token: Id, purpose: Purpose, payload: RefreshPayload): (h: Option<Handler>)
    ensures h.Some? ==> h.value.Minting? && h.value.parent == Some(token) && h.value.family == payload.family
                        && h.value.line == payload.line && Subset(h.value.scopes, payload.scopes)
  {
    if purpose.Discard? then None
    else if Truthy(purpose.scope) && !Subset(Words(purpose.scope.value), payload.scopes) then None
    else Some(Minting(payload.family, Some(token), payload.line, RequestedScopes(purpose.scope, payload.scopes)))
  }

  // A consume by `pid` succeeded: `tokens` has the mark, and `h` is how the request goes on.
  function Spend(s: State, pid: Id, token: Id, tokens: Tokens, h: Option<Handler>): State {
    State(s.now, s.flows, s.codes, tokens, if h.Some? then s.procs[pid := h.value] else s.procs - {pid},
          s.hist.(spent := s.hist.spent[token := pid]))
  }

  function DoConsumeAtomically(s: State, pid: Id): Option<State> {
    if pid !in s.procs || !s.procs[pid].Consuming? then None
    else
      var h := s.procs[pid];
      var (r, tokens) := ConsumeRefresh(s.tokens, h.token, h.window, s.now);
      Some(if r.Ok? then Spend(s, pid, h.token, tokens, Successor(h.token, h.purpose, r.value))
           else Finish(s, pid).(tokens := tokens))
  }

  function DoClaim(s: State, pid: Id): Option<State> {
    if pid !in s.procs || !s.procs[pid].Consuming? then None
    else
      var h := s.procs[pid];
      if Claimable(s.tokens, h.token, s.now)
      then Some(Spend(s, pid, h.token, Consumed(s.tokens, h.token, s.now),
                      Successor(h.token, h.purpose, s.tokens[h.token].payload)))
      else Some(Become(s, pid, LookingUp(h.token, h.window, s.now, h.token in s.hist.minted)))
  }

  function DoLookUp(s: State, pid: Id): Option<State> {
    if pid !in s.procs || !s.procs[pid].LookingUp? then None
    else
      var h := s.procs[pid];
      var m := Explain(s.tokens, h.token, h.window, h.at);
      Some(if m.Replayed? then Become(s, pid, Sweeping(m.payload.family)) else Finish(s, pid))
  }

  function DoSweep(s: State, pid: Id): Option<State> {
    if pid !in s.procs || !s.procs[pid].Sweeping? then None
    else Some(Finish(s, pid).(tokens := WithoutFamily(s.tokens, s.procs[pid].family)))
  }

  function Remaining(s: State, pid: Id, family: Id, items: set<Id>): State {
    if items == {} then Finish(s, pid) else Become(s, pid, Deleting(family, items))
  }

  function RowsOf(tokens: Tokens, family: Id): set<Id> {
    set t | t in tokens && tokens[t].payload.family == family
  }

  function DoQueryFamily(s: State, pid: Id): Option<State> {
    if pid !in s.procs || !s.procs[pid].Sweeping? then None
    else
      var g := s.procs[pid].family;
      Some(Remaining(s, pid, g, RowsOf(s.tokens, g)))
  }

  function DoDeleteItem(s: State, pid: Id, token: Id): Option<State> {
    if pid !in s.procs || !s.procs[pid].Deleting? || token !in s.procs[pid].items then None
    else
      var h := s.procs[pid];
      Some(Remaining(s, pid, h.family, h.items - {token}).(tokens := s.tokens - {token}))
  }

  // Flows and the codes they turn into.
  function FlowStep(s: State, a: Action): Option<State> {
    match a
    case Authorize(pid, cfg, req, flowId, d, ttl) => DoAuthorize(s, pid, cfg, req, flowId, d, ttl)
    case SaveMethodState(pid, st) => DoSaveMethodState(s, pid, st)
    case TakeFlow(pid) => DoTakeFlow(s, pid)
    case Callback(pid, e, host, path) => DoCallback(s, pid, e, host, path)
    case ReadRoute(pid, flowId, tenantId, methodId) => DoReadRoute(s, pid, flowId, tenantId, methodId)
    case IssueCode(pid, code, kid, subject, at) => DoIssueCode(s, pid, code, kid, subject, at)
    case IssueUnsolicited(code, kid, payload) => DoIssueUnsolicited(s, code, kid, payload)
    case _ => None
  }

  // Codes and the families they turn into.
  function GrantStep(sha: string -> string, s: State, a: Action): Option<State> {
    match a
    case Redeem(pid, req, keys) => DoRedeem(s, pid, req, keys)
    case GrantFamily(pid, cfg, claim, family) => DoGrantFamily(sha, s, pid, cfg, claim, family)
    case GrantForeign(pid, family, line, scopes) => DoGrantForeign(s, pid, family, line, scopes)
    case SaveToken(pid, token, subjectId, at, ttl) => DoSaveToken(s, pid, token, subjectId, at, ttl)
    case _ => None
  }

  // Everything a refresh or revoke request does before it consumes.
  function GateStep(sha: string -> string, s: State, a: Action): Option<State> {
    match a
    case Peek(pid, req) => DoPeek(s, pid, req)
    case Gate(pid, cfg, window) => DoGate(sha, s, pid, cfg, window)
    case PeekRevoke(pid, req) => DoPeekRevoke(s, pid, req)
    case GateRevoke(pid, cfg) => DoGateRevoke(sha, s, pid, cfg)
    case Present(pid, token, window) => DoPresent(s, pid, token, window)
    case _ => None
  }

  function ConsumeStep(s: State, a: Action): Option<State> {
    match a
    case ConsumeAtomically(pid) => DoConsumeAtomically(s, pid)
    case Claim(pid) => DoClaim(s, pid)
    case LookUp(pid) => DoLookUp(s, pid)
    case Sweep(pid) => DoSweep(s, pid)
    case QueryFamily(pid) => DoQueryFamily(s, pid)
    case DeleteItem(pid, token) => DoDeleteItem(s, pid, token)
    case _ => None
  }

  // Revocation by subject, expiry sweeps of any rows, time, and requests that die.
  function HouseStep(s: State, a: Action): Option<State> {
    match a
    case RevokeSubject(tenantId, subjectId) => Some(s.(tokens := WithoutSubject(s.tokens, tenantId, subjectId)))
    case Collect(flowIds, codeIds, tokenIds) =>
      Some(s.(flows := s.flows - flowIds, codes := s.codes - codeIds, tokens := s.tokens - tokenIds))
    case Tick(elapsed) => Some(s.(now := s.now + elapsed))
    case Abort(pid) => Some(Finish(s, pid))
    case _ => None
  }

  predicate OnFlows(a: Action) {
    a.Authorize? || a.SaveMethodState? || a.TakeFlow? || a.Callback? || a.ReadRoute? || a.IssueCode? || a.IssueUnsolicited?
  }

  predicate OnGrants(a: Action) {
    a.Redeem? || a.GrantFamily? || a.GrantForeign? || a.SaveToken?
  }

  predicate OnGates(a: Action) {
    a.Peek? || a.Gate? || a.PeekRevoke? || a.GateRevoke? || a.Present?
  }

  predicate OnConsumption(a: Action) {
    a.ConsumeAtomically? || a.Claim? || a.LookUp? || a.Sweep? || a.QueryFamily? || a.DeleteItem?
  }

  function Step(sha: string -> string, s: State, a: Action): Option<State> {
    if OnFlows(a) then FlowStep(s, a)
    else if OnGrants(a) then GrantStep(sha, s, a)
    else if OnGates(a) then GateStep(sha, s, a)
    else if OnConsumption(a) then ConsumeStep(s, a)
    else HouseStep(s, a)
  }

  ghost predicate Next(sha: string -> string, s: State, a: Action, s': State) {
    Step(sha, s, a) == Some(s')
  }

  // `path` visits one more state than it takes actions, each by a step.
  ghost predicate Run(sha: string -> string, path: seq<State>, acts: seq<Action>) {
    && |path| == |acts| + 1
    && forall i | 0 <= i < |acts| :: Next(sha, path[i], acts[i], path[i + 1])
  }

  // A run from the empty system.
  ghost predicate Execution(sha: string -> string, path: seq<State>, acts: seq<Action>) {
    Run(sha, path, acts) && path[0] == Initial
  }
}
