// The vocabulary of the authorization server: clients, requests, the records
// each store holds, and the checks that several endpoints share.
module OAuth {
  import opened Wrappers

  // Random identifiers: flow ids, codes, refresh tokens, families, requests. All that
  // matters of one is whether it was drawn before.
  type Id = nat

  // A public client always needs PKCE; a confidential one carries a secret hash
  // and chooses.
  datatype ClientKind = Public | Confidential(secretHash: string, pkce: bool)

  datatype Client = Client(
    id: string, kind: ClientKind, redirectUris: seq<string>, codeGrant: bool,
    scopes: seq<string>, dpopRequired: bool)
  {
    predicate PkceRequired() {
      kind.Public? || kind.pkce
    }
  }

  datatype TenantConfig = TenantConfig(id: string, clients: seq<Client>)

  datatype GrantFault =
    | CodeUnknown | CodeExpired | TokenUnknown | TokenExpired | TokenConsumed
    | ClientMismatch | RedirectMismatch | MissingVerifier | PkceFailed | BadPresenter

  datatype AuthError =
    | InvalidClient
    | InvalidRequest(param: string)
    | UnauthorizedClient
    | InvalidScope
    | InvalidGrant(fault: GrantFault)
    | ReuseDetected(family: Id, tenantId: string, subjectId: string)
    | InvalidDpopProof
    | UnknownState
    | InternalError(what: string)

  datatype AuthorizeRequest = AuthorizeRequest(
    clientId: string, redirectUri: string, responseType: string, scopes: seq<string>,
    challenge: Option<string>, challengeMethod: Option<string>,
    audience: Option<string>, nonce: Option<string>, claimsRequest: Option<string>)

  datatype FlowRecord = FlowRecord(
    flowId: Id, tenantId: string, methodId: string, methodKind: string, clientId: string,
    redirectUri: string, callbackHost: string, callbackPath: string, scopes: seq<string>,
    audience: Option<string>, nonce: string, appNonce: Option<string>,
    claimsRequest: Option<string>, challenge: Option<string>, methodState: Option<string>,
    expiresAt: int)

  datatype CodePayload = CodePayload(
    tenantId: string, clientId: string, redirectUri: string, scopes: seq<string>,
    audience: Option<string>, challenge: Option<string>, methodId: string, methodKind: string,
    providerSubject: string, appNonce: Option<string>, claimsRequest: Option<string>,
    authTime: int)

  // Code payloads are encrypted under a key id before they reach a store. The
  // cipher is invertible by whoever holds that key and says nothing otherwise.
  datatype Sealed = Sealed(kid: string, payload: CodePayload)

  // What every refresh token of one family shares.
  datatype Line = Line(
    tenantId: string, clientId: string, claim: string, methodId: string, methodKind: string,
    audience: Option<string>, authTime: int, dpopJkt: Option<string>,
    claimsRequest: Option<string>)

  datatype RefreshPayload = RefreshPayload(
    line: Line, subjectId: string, scopes: seq<string>, family: Id, issuedAt: int, expiresAt: int)

  datatype ExchangeRequest = ExchangeRequest(
    code: Id, redirectUri: string, clientId: string, secret: Option<string>,
    verifier: Option<string>, dpopJkt: Option<string>)

  datatype RefreshRequest = RefreshRequest(
    token: Id, scope: Option<string>, clientId: Option<string>, secret: Option<string>,
    dpopJkt: Option<string>)

  datatype RevokeRequest = RevokeRequest(
    token: Id, clientId: Option<string>, secret: Option<string>)

  // JavaScript truth of an optional string: present and not empty.
  predicate Truthy(s: Option<string>) {
    s.Some? && s.value != ""
  }

  function FindClient(clients: seq<Client>, id: string): (r: Option<Client>)
    ensures r.Some? ==> r.value in clients && r.value.id == id
    ensures r.None? ==> forall c | c in clients :: c.id != id
  {
    if clients == [] then None
    else if clients[0].id == id then Some(clients[0])
    else FindClient(clients[1..], id)
  }

  // `sha` is the base64url SHA-256 digest, uninterpreted.
  function VerifyCredentials(sha: string -> string, client: Client, secret: Option<string>): Option<AuthError>
  {
    match client.kind
    case Public => if Truthy(secret) then Some(InvalidClient) else None
    case Confidential(hash, _) =>
      if !Truthy(secret) || sha(secret.value) != hash then Some(InvalidClient) else None
  }

  predicate ValidPkce(sha: string -> string, verifier: string, challenge: string) {
    43 <= |verifier| <= 128 && sha(verifier) == challenge
  }

  // `scope.split(" ").filter(Boolean)`
  function Words(s: string): (r: seq<string>)
    decreases |s|, 1
  {
    if s == "" then []
    else if s[0] == ' ' then Words(s[1..])
    else WordsFrom(s, 1)
  }

  function WordsFrom(s: string, i: nat): (r: seq<string>)
    requires 0 < i <= |s|
    decreases |s|, 0, |s| - i
  {
    if i == |s| then [s]
    else if s[i] == ' ' then [s[..i]] + Words(s[i + 1..])
    else WordsFrom(s, i + 1)
  }

  // The scopes a refresh asks for: absent or empty means the granted ones again.
  function RequestedScopes(scope: Option<string>, granted: seq<string>): seq<string> {
    if Truthy(scope) then Words(scope.value) else granted
  }

  predicate Subset(xs: seq<string>, ys: seq<string>) {
    forall x | x in xs :: x in ys
  }

  // The request checks of `/authorize`, in the source's order.
  function ValidateAuthorize(cfg: TenantConfig, req: AuthorizeRequest): (r: Result<Client, AuthError>)
  {
    var found := FindClient(cfg.clients, req.clientId);
    if found.None? then Err(InvalidClient)
    else
      var c := found.value;
      if req.redirectUri !in c.redirectUris then Err(InvalidRequest("redirect_uri"))
      else if req.responseType != "code" then Err(InvalidRequest("response_type"))
      else if !c.codeGrant then Err(UnauthorizedClient)
      else if !Subset(req.scopes, c.scopes) then Err(InvalidScope)
      else if c.PkceRequired() && !Truthy(req.challenge) then Err(InvalidRequest("code_challenge"))
      else if c.PkceRequired() && Truthy(req.challengeMethod) && req.challengeMethod.value != "S256" then
        Err(InvalidRequest("code_challenge_method"))
      else Ok(c)
  }

  // The checks of the authorization-code grant after the code was consumed.
  function ValidateExchange(sha: string -> string, cfg: TenantConfig, payload: CodePayload, req: ExchangeRequest)
    : (r: Result<Client, AuthError>)
  {
    var found := FindClient(cfg.clients, payload.clientId);
    if found.None? then Err(InvalidClient)
    else
      var c := found.value;
      if c.id != req.clientId then Err(InvalidGrant(ClientMismatch))
      else if VerifyCredentials(sha, c, req.secret).Some? then Err(InvalidClient)
      else if c.dpopRequired && req.dpopJkt.None? then Err(InvalidDpopProof)
      else if payload.redirectUri != req.redirectUri then Err(InvalidGrant(RedirectMismatch))
      else if payload.challenge.Some? && !Truthy(req.verifier) then Err(InvalidGrant(MissingVerifier))
      else if payload.challenge.Some? && !ValidPkce(sha, req.verifier.value, payload.challenge.value) then
        Err(InvalidGrant(PkceFailed))
      else Ok(c)
  }

  // The refresh grant's gates, all of which run on the peeked payload.
  function RefreshGate(sha: string -> string, cfg: TenantConfig, peeked: RefreshPayload, req: RefreshRequest)
    : (r: Option<AuthError>)
  {
    var owner := FindClient(cfg.clients, peeked.line.clientId);
    if owner.None? then Some(InvalidGrant(BadPresenter))
    else if req.clientId.Some? then
      var presenting := FindClient(cfg.clients, req.clientId.value);
      if presenting.None? || VerifyCredentials(sha, presenting.value, req.secret).Some?
         || req.clientId.value != peeked.line.clientId
      then Some(InvalidGrant(BadPresenter))
      else RefreshBindings(peeked, req)
    else if owner.value.kind.Confidential? then Some(InvalidGrant(BadPresenter))
    else RefreshBindings(peeked, req)
  }

  function RefreshBindings(peeked: RefreshPayload, req: RefreshRequest): (r: Option<AuthError>)
  {
    if peeked.line.dpopJkt.Some? && req.dpopJkt != peeked.line.dpopJkt then Some(InvalidDpopProof)
    else if Truthy(req.scope) && !Subset(Words(req.scope.value), peeked.scopes) then Some(InvalidScope)
    else None
  }

  // `/revoke` after the peek: proceed to consume, or answer without touching the store.
  datatype RevokeDecision = Proceed | NoOp | Refuse(error: AuthError)

  function RevokeGate(sha: string -> string, cfg: TenantConfig, peeked: RefreshPayload, req: RevokeRequest)
    : RevokeDecision
  {
    var owner := FindClient(cfg.clients, peeked.line.clientId);
    if owner.None? then NoOp
    else if owner.value.kind.Confidential? && (!Truthy(req.clientId) || !Truthy(req.secret)) then
      Refuse(InvalidClient)
    else if req.clientId.Some? && req.clientId.value != peeked.line.clientId then NoOp
    else if req.clientId.Some? && VerifyCredentials(sha, owner.value, req.secret).Some? then
      Refuse(InvalidClient)
    else Proceed
  }
}
