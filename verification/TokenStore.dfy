// The reference semantics of the token store, as functions over maps. The
// adapters are proved against these functions.
module TokenStore {
  import opened Wrappers
  import opened OAuth

  const AUTH_CODE_TTL_MS := 60 * 1000

  datatype StoredCode = StoredCode(ciphertext: Sealed, expiresAt: int)
  datatype StoredRefresh = StoredRefresh(payload: RefreshPayload, consumedAt: Option<int>)

  type Codes = map<Id, StoredCode>
  type Tokens = map<Id, StoredRefresh>

  // ---------- Reference semantics ----------

  function SaveCode(codes: Codes, code: Id, blob: Sealed, ttl: int, now: int): (Result<(), AuthError>, Codes)
  {
    if ttl <= 0 || ttl > AUTH_CODE_TTL_MS then (Err(InternalError("saveCode: ttl")), codes)
    else (Ok(()), codes[code := StoredCode(blob, now + ttl)])
  }

  function ConsumeCode(codes: Codes, code: Id, now: int): (Result<Sealed, AuthError>, Codes)
  {
    if code !in codes then (Err(InvalidGrant(CodeUnknown)), codes)
    else if now >= codes[code].expiresAt then (Err(InvalidGrant(CodeExpired)), codes - {code})
    else (Ok(codes[code].ciphertext), codes - {code})
  }

  function SaveRefresh(tokens: Tokens, token: Id, payload: RefreshPayload): Tokens {
    tokens[token := StoredRefresh(payload, None)]
  }

  function PeekRefresh(tokens: Tokens, token: Id, now: int): Result<RefreshPayload, AuthError> {
    if token !in tokens then Err(InvalidGrant(TokenUnknown))
    else if now >= tokens[token].payload.expiresAt then Err(InvalidGrant(TokenExpired))
    else Ok(tokens[token].payload)
  }

  function WithoutFamily(tokens: Tokens, family: Id): Tokens {
    map t | t in tokens && tokens[t].payload.family != family :: tokens[t]
  }

  function WithoutSubject(tokens: Tokens, tenantId: string, subjectId: string): Tokens {
    map t | t in tokens && !(tokens[t].payload.line.tenantId == tenantId && tokens[t].payload.subjectId == subjectId)
      :: tokens[t]
  }

  function Consumed(tokens: Tokens, token: Id, now: int): Tokens
    requires token in tokens
  {
    tokens[token := tokens[token].(consumedAt := Some(now))]
  }

  function Reuse(p: RefreshPayload): AuthError {
    ReuseDetected(p.family, p.line.tenantId, p.subjectId)
  }

  // `consumeRefresh` as one indivisible step: the only place where a token is
  // used up, and where a replay inside the window takes its family down.
  function ConsumeRefresh(tokens: Tokens, token: Id, window: int, now: int): (Result<RefreshPayload, AuthError>, Tokens)
  {
    if token !in tokens then (Err(InvalidGrant(TokenUnknown)), tokens)
    else
      var row := tokens[token];
      if row.consumedAt.Some? then
        if now - row.consumedAt.value <= window then
          (Err(Reuse(row.payload)), WithoutFamily(tokens, row.payload.family))
        else (Err(InvalidGrant(TokenConsumed)), tokens)
      else if now >= row.payload.expiresAt then (Err(InvalidGrant(TokenExpired)), tokens)
      else (Ok(row.payload), Consumed(tokens, token, now))
  }

  // ---------- The same operation as the SQL stores split it ----------

  // UPDATE … SET consumed_at WHERE token AND consumed_at IS NULL AND expires_at > now RETURNING payload
  predicate Claimable(tokens: Tokens, token: Id, now: int) {
    token in tokens && tokens[token].consumedAt.None? && tokens[token].payload.expiresAt > now
  }

  datatype Miss = NoRow | Replayed(payload: RefreshPayload) | UsedUp | PastExpiry | Unexplained

  // What the lookup after a failed claim concludes. `now` is the claim's clock reading.
  function Explain(tokens: Tokens, token: Id, window: int, now: int): Miss {
    if token !in tokens then NoRow
    else if tokens[token].consumedAt.Some? then
      if now - tokens[token].consumedAt.value <= window then Replayed(tokens[token].payload) else UsedUp
    else if now >= tokens[token].payload.expiresAt then PastExpiry
    else Unexplained
  }

  function MissError(m: Miss): AuthError {
    match m
    case NoRow => InvalidGrant(TokenUnknown)
    case Replayed(p) => Reuse(p)
    case UsedUp => InvalidGrant(TokenConsumed)
    case PastExpiry => InvalidGrant(TokenExpired)
    case Unexplained => InternalError("consumeRefresh: unexplained miss")
  }

  // Run without interference, claim / lookup / delete is the indivisible operation.
  lemma SplitIsAtomic(tokens: Tokens, token: Id, window: int, now: int)
    ensures ConsumeRefresh(tokens, token, window, now)
         == if Claimable(tokens, token, now) then (Ok(tokens[token].payload), Consumed(tokens, token, now))
            else var m := Explain(tokens, token, window, now);
                 (Err(MissError(m)), if m.Replayed? then WithoutFamily(tokens, m.payload.family) else tokens)
  {
  }

  // ---------- The replay record for DPoP proofs ----------

  type Jtis = map<string, int>

  function Swept(jtis: Jtis, now: int): Jtis {
    map k | k in jtis && jtis[k] > now :: jtis[k]
  }

  function RecordJti(jtis: Jtis, jti: string, ttl: int, now: int): (bool, Jtis) {
    var live := Swept(jtis, now);
    if jti in live then (false, live) else (true, live[jti := now + ttl])
  }
}
