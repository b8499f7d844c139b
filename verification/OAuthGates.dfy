// Who gets past the gates of the token endpoints, and how scope strings are read.
module OAuthGates {
  import opened Wrappers
  import opened OAuth

  // A client id names the first client registered under it.
  lemma {:induction false} FirstClientFound(clients: seq<Client>, id: string) returns (i: nat)
    ensures i <= |clients| && forall j | 0 <= j < i :: clients[j].id != id
    ensures if i < |clients| then clients[i].id == id && FindClient(clients, id) == Some(clients[i])
            else FindClient(clients, id) == None
  {
    if clients == [] || clients[0].id == id {
      i := 0;
    } else {
      i := FirstClientFound(clients[1..], id);
      i := i + 1;
    }
  }

  predicate Blank(s: Option<string>) {
    s.None? || s.value == ""
  }

  // The presenter is this client as far as its registration lets anyone tell: a
  // confidential client names itself and proves its secret, a public one has no
  // secret to show.
  predicate PresentedBy(sha: string -> string, c: Client, clientId: Option<string>, secret: Option<string>) {
    match c.kind
    case Confidential(hash, _) => clientId == Some(c.id) && !Blank(secret) && sha(secret.value) == hash
    case Public => clientId.None? || (clientId == Some(c.id) && Blank(secret))
  }

  // The verifier has 43 to 128 characters and its digest is the challenge.
  predicate Answers(sha: string -> string, verifier: Option<string>, challenge: string) {
    verifier.Some? && 43 <= |verifier.value| <= 128 && sha(verifier.value) == challenge
  }

  // The request names a registered client at one of its redirect URIs, asks for a
  // code the client may have, for scopes it is registered for, and brings an S256
  // challenge where the client has to: a public client always, a confidential one
  // if it is registered so.
  predicate Acceptable(cfg: TenantConfig, req: AuthorizeRequest) {
    var c := FindClient(cfg.clients, req.clientId);
    && c.Some?
    && req.redirectUri in c.value.redirectUris
    && req.responseType == "code"
    && c.value.codeGrant
    && (forall w | w in req.scopes :: w in c.value.scopes)
    && (c.value.kind.Public? || c.value.kind.pkce ==>
          && !Blank(req.challenge)
          && (Blank(req.challengeMethod) || req.challengeMethod.value == "S256"))
  }

  lemma AuthorizeGateIff(cfg: TenantConfig, req: AuthorizeRequest)
    ensures ValidateAuthorize(cfg, req).Ok? <==> Acceptable(cfg, req)
    ensures ValidateAuthorize(cfg, req).Ok? ==> Some(ValidateAuthorize(cfg, req).value) == FindClient(cfg.clients, req.clientId)
  {
  }

  // Which refusal /authorize answers, for each check that is the first to fail.
  lemma AuthorizeRefusals(cfg: TenantConfig, req: AuthorizeRequest)
    ensures var r, c := ValidateAuthorize(cfg, req), FindClient(cfg.clients, req.clientId);
            && (r == Err(InvalidClient) <==> c.None?)
            && (r == Err(InvalidRequest("redirect_uri")) <==> c.Some? && req.redirectUri !in c.value.redirectUris)
            && (c.Some? && req.redirectUri in c.value.redirectUris ==>
                  && (r == Err(InvalidRequest("response_type")) <==> req.responseType != "code")
                  && (r == Err(UnauthorizedClient) <==> req.responseType == "code" && !c.value.codeGrant)
                  && (r == Err(InvalidScope) <==>
                        req.responseType == "code" && c.value.codeGrant && exists w :: w in req.scopes && w !in c.value.scopes)
                  && (r == Err(InvalidRequest("code_challenge")) ==> Blank(req.challenge))
                  && (r == Err(InvalidRequest("code_challenge_method")) ==>
                        !Blank(req.challengeMethod) && req.challengeMethod.value != "S256"))
    ensures ValidateAuthorize(cfg, req).Err? ==>
              ValidateAuthorize(cfg, req).error in {InvalidClient, UnauthorizedClient, InvalidScope,
                InvalidRequest("redirect_uri"), InvalidRequest("response_type"), InvalidRequest("code_challenge"),
                InvalidRequest("code_challenge_method")}
  {
    assert "redirect_uri"[0] != "code_challenge"[0] && |"code_challenge"| != |"code_challenge_method"|;
    assert |"redirect_uri"| != |"response_type"| && "response_type"[0] != "code_challenge"[0];
  }

  // A refresh token reaches the consume exactly when its own client presents it,
  // with the key it is bound to, and asks for no scope outside the grant.
  predicate MayRefresh(sha: string -> string, cfg: TenantConfig, p: RefreshPayload, req: RefreshRequest) {
    var owner := FindClient(cfg.clients, p.line.clientId);
    && owner.Some? && PresentedBy(sha, owner.value, req.clientId, req.secret)
    && (p.line.dpopJkt.Some? ==> req.dpopJkt == p.line.dpopJkt)
    && (req.scope.Some? ==> forall w | w in Words(req.scope.value) :: w in p.scopes)
  }

  lemma RefreshGateIff(sha: string -> string, cfg: TenantConfig, peeked: RefreshPayload, req: RefreshRequest)
    ensures RefreshGate(sha, cfg, peeked, req).None? <==> MayRefresh(sha, cfg, peeked, req)
  {
  }

  // Which refusal a refresh gets.
  lemma RefreshRefusals(sha: string -> string, cfg: TenantConfig, peeked: RefreshPayload, req: RefreshRequest)
    ensures var r, owner := RefreshGate(sha, cfg, peeked, req), FindClient(cfg.clients, peeked.line.clientId);
            && (r == Some(InvalidGrant(BadPresenter)) <==>
                  owner.None? || !PresentedBy(sha, owner.value, req.clientId, req.secret))
            && (owner.Some? && PresentedBy(sha, owner.value, req.clientId, req.secret) ==>
                  var bound := peeked.line.dpopJkt.Some? && req.dpopJkt != peeked.line.dpopJkt;
                  && (r == Some(InvalidDpopProof) <==> bound)
                  && (r == Some(InvalidScope) <==>
                        !bound && req.scope.Some? && exists w :: w in Words(req.scope.value) && w !in peeked.scopes))
  {
  }

  // Revocation goes through under the same authentication, except that a
  // confidential client has to name itself with a non-empty id.
  predicate MayRevoke(sha: string -> string, cfg: TenantConfig, p: RefreshPayload, req: RevokeRequest) {
    var owner := FindClient(cfg.clients, p.line.clientId);
    && owner.Some? && PresentedBy(sha, owner.value, req.clientId, req.secret)
    && (owner.value.kind.Confidential? ==> owner.value.id != "")
  }

  lemma RevokeGateIff(sha: string -> string, cfg: TenantConfig, peeked: RefreshPayload, req: RevokeRequest)
    ensures RevokeGate(sha, cfg, peeked, req).Proceed? <==> MayRevoke(sha, cfg, peeked, req)
  {
  }

  // It is refused, and not merely ignored, exactly when the token's client is known
  // and fails to authenticate, in its own name or in none.
  predicate FailsToAuthenticate(sha: string -> string, cfg: TenantConfig, p: RefreshPayload, req: RevokeRequest) {
    var owner := FindClient(cfg.clients, p.line.clientId);
    && owner.Some?
    && match owner.value.kind
       case Public => req.clientId == Some(owner.value.id) && !Blank(req.secret)
       case Confidential(hash, _) =>
         || Blank(req.clientId) || Blank(req.secret)
         || (req.clientId == Some(owner.value.id) && sha(req.secret.value) != hash)
  }

  lemma RevokeRefusalIff(sha: string -> string, cfg: TenantConfig, peeked: RefreshPayload, req: RevokeRequest)
    ensures RevokeGate(sha, cfg, peeked, req).Refuse? <==> FailsToAuthenticate(sha, cfg, peeked, req)
    ensures RevokeGate(sha, cfg, peeked, req).Refuse? ==> RevokeGate(sha, cfg, peeked, req).error == InvalidClient
  {
  }

  // A code turns into tokens exactly for the client it was issued to, at its
  // redirect URI, with the verifier of its challenge.
  predicate MayExchange(sha: string -> string, cfg: TenantConfig, p: CodePayload, req: ExchangeRequest) {
    var c := FindClient(cfg.clients, p.clientId);
    && c.Some? && PresentedBy(sha, c.value, Some(req.clientId), req.secret)
    && (c.value.dpopRequired ==> req.dpopJkt.Some?)
    && req.redirectUri == p.redirectUri
    && (p.challenge.Some? ==> Answers(sha, req.verifier, p.challenge.value))
  }

  lemma ExchangeIff(sha: string -> string, cfg: TenantConfig, p: CodePayload, req: ExchangeRequest)
    ensures ValidateExchange(sha, cfg, p, req).Ok? <==> MayExchange(sha, cfg, p, req)
  {
  }

  // Which refusal the code grant gets.
  lemma ExchangeRefusals(sha: string -> string, cfg: TenantConfig, p: CodePayload, req: ExchangeRequest)
    ensures var r, c := ValidateExchange(sha, cfg, p, req), FindClient(cfg.clients, p.clientId);
            && (r == Err(InvalidGrant(ClientMismatch)) <==> c.Some? && req.clientId != p.clientId)
            && (r == Err(InvalidClient) <==>
                  c.None? || (req.clientId == p.clientId && !PresentedBy(sha, c.value, Some(req.clientId), req.secret)))
            && (r == Err(InvalidDpopProof) ==> c.Some? && c.value.dpopRequired && req.dpopJkt.None?)
            && (r == Err(InvalidGrant(RedirectMismatch)) ==> req.redirectUri != p.redirectUri)
            && (r == Err(InvalidGrant(MissingVerifier)) ==> p.challenge.Some? && Blank(req.verifier))
            && (r == Err(InvalidGrant(PkceFailed)) ==>
                  p.challenge.Some? && req.verifier.Some? && !Answers(sha, req.verifier, p.challenge.value))
            && (r.Err? ==> r.error in {InvalidClient, InvalidDpopProof, InvalidGrant(ClientMismatch),
                             InvalidGrant(RedirectMismatch), InvalidGrant(MissingVerifier), InvalidGrant(PkceFailed)})
  {
  }

  // ---------- Scope strings ----------

  predicate Scope(w: string) {
    w != "" && ' ' !in w
  }

  function Spaced(ws: seq<string>): string {
    if ws == [] then "" else if |ws| == 1 then ws[0] else ws[0] + " " + Spaced(ws[1..])
  }

  lemma {:induction false} WordsAreScopes(s: string)
    ensures forall w | w in Words(s) :: Scope(w)
    decreases |s|, 1, 0
  {
    if s == "" {
    } else if s[0] == ' ' {
      WordsAreScopes(s[1..]);
    } else {
      WordsFromAreScopes(s, 1);
    }
  }

  lemma {:induction false} WordsFromAreScopes(s: string, i: nat)
    requires 0 < i <= |s| && ' ' !in s[..i]
    ensures forall w | w in WordsFrom(s, i) :: Scope(w)
    decreases |s|, 0, |s| - i
  {
    if i == |s| {
      assert s[..i] == s;
    } else if s[i] == ' ' {
      WordsAreScopes(s[i + 1..]);
    } else {
      assert s[..i + 1] == s[..i] + [s[i]];
      WordsFromAreScopes(s, i + 1);
    }
  }

  lemma {:induction false} WordsFromEnds(s: string, i: nat, j: nat)
    requires 0 < i <= j <= |s| && (forall k | i <= k < j :: s[k] != ' ') && (j < |s| ==> s[j] == ' ')
    ensures WordsFrom(s, i) == if j == |s| then [s] else [s[..j]] + Words(s[j + 1..])
    decreases j - i
  {
    if i < j {
      WordsFromEnds(s, i + 1, j);
    }
  }

  // A list of scopes, written with spaces, reads back as itself; reading never
  // gives an empty scope or one with a space, however the string is spaced.
  lemma {:induction false} ScopesRoundTrip(ws: seq<string>)
    requires forall w | w in ws :: Scope(w)
    ensures Words(Spaced(ws)) == ws
  {
    if ws != [] {
      var s, w := Spaced(ws), ws[0];
      assert w in ws && forall k | 0 <= k < |w| :: s[k] == w[k] && w[k] in w;
      WordsFromEnds(s, 1, |w|);
      if |ws| > 1 {
        ScopesRoundTrip(ws[1..]);
        assert s[..|w|] == w && s[|w| + 1..] == Spaced(ws[1..]);
        assert ws == [w] + ws[1..];
      } else {
        assert ws == [s];
      }
    }
  }

  // A space separates, whatever is on its two sides.
  lemma {:induction false} WordsSplit(a: string, b: string)
    ensures Words(a + " " + b) == Words(a) + Words(b)
    decreases |a|
  {
    var s := a + " " + b;
    if a == "" {
      assert s[1..] == b;
    } else if a[0] == ' ' {
      assert s[1..] == a[1..] + " " + b;
      WordsSplit(a[1..], b);
    } else {
      var j := WordEnd(a, 1);
      assert forall k | 1 <= k < j :: s[k] == a[k];
      WordsFromEnds(a, 1, j);
      WordsFromEnds(s, 1, j);
      assert s[..j] == a[..j];
      if j == |a| {
        assert s[j + 1..] == b && a[..j] == a;
      } else {
        assert s[j + 1..] == a[j + 1..] + " " + b;
        WordsSplit(a[j + 1..], b);
        assert [a[..j]] + Words(a[j + 1..]) + Words(b) == [a[..j]] + (Words(a[j + 1..]) + Words(b));
      }
    }
  }

  function WordEnd(s: string, i: nat): (j: nat)
    requires i <= |s|
    ensures i <= j <= |s| && (forall k | i <= k < j :: s[k] != ' ') && (j < |s| ==> s[j] == ' ')
    decreases |s| - i
  {
    if i < |s| && s[i] != ' ' then WordEnd(s, i + 1) else i
  }

  // A request for no scope keeps the granted ones; a list of scopes asked for is
  // the list that is given, in its order.
  lemma RequestedExactly(granted: seq<string>, ws: seq<string>)
    requires ws != [] && forall w | w in ws :: Scope(w)
    ensures RequestedScopes(None, granted) == granted && RequestedScopes(Some(""), granted) == granted
    ensures RequestedScopes(Some(Spaced(ws)), granted) == ws
  {
    ScopesRoundTrip(ws);
    assert ws[0] in ws;
    assert Spaced(ws) != "";
  }
}
