// The in-memory token store. Its clock readings are parameters.
module MemoryTokens {
  import opened Wrappers
  import opened OAuth
  import opened TokenStore

  class MemoryTokenStore {
    var codes: Codes
    var refresh: Tokens
    var dpopJtis: Jtis

    constructor ()
      ensures codes == map[] && refresh == map[] && dpopJtis == map[]
    {
      codes, refresh, dpopJtis := map[], map[], map[];
    }

    method SaveCode(code: Id, ciphertext: Sealed, ttl: int, now: int) returns (r: Result<(), AuthError>)
      modifies this`codes
      ensures (r, codes) == TokenStore.SaveCode(old(codes), code, ciphertext, ttl, now)
    {
      if ttl <= 0 || ttl > AUTH_CODE_TTL_MS {
        return Err(InternalError("saveCode: ttl"));
      }
      codes := codes[code := StoredCode(ciphertext, now + ttl)];
      return Ok(());
    }

    method ConsumeCode(code: Id, now: int) returns (r: Result<Sealed, AuthError>)
      modifies this`codes
      ensures (r, codes) == TokenStore.ConsumeCode(old(codes), code, now)
    {
      if code !in codes {
        return Err(InvalidGrant(CodeUnknown));
      }
      var stored := codes[code];
      codes := codes - {code};
      if now >= stored.expiresAt {
        return Err(InvalidGrant(CodeExpired));
      }
      return Ok(stored.ciphertext);
    }

    method SaveRefresh(token: Id, payload: RefreshPayload)
      modifies this`refresh
      ensures refresh == TokenStore.SaveRefresh(old(refresh), token, payload)
    {
      refresh := refresh[token := StoredRefresh(payload, None)];
    }

    method PeekRefresh(token: Id, now: int) returns (r: Result<RefreshPayload, AuthError>)
      ensures r == TokenStore.PeekRefresh(refresh, token, now)
    {
      if token !in refresh {
        return Err(InvalidGrant(TokenUnknown));
      }
      if now >= refresh[token].payload.expiresAt {
        return Err(InvalidGrant(TokenExpired));
      }
      return Ok(refresh[token].payload);
    }

    method ConsumeRefresh(token: Id, window: int, now: int) returns (r: Result<RefreshPayload, AuthError>)
      modifies this`refresh
      ensures (r, refresh) == TokenStore.ConsumeRefresh(old(refresh), token, window, now)
    {
      if token !in refresh {
        return Err(InvalidGrant(TokenUnknown));
      }
      var stored := refresh[token];
      if stored.consumedAt.Some? {
        if now - stored.consumedAt.value <= window {
          RevokeFamily(stored.payload.family);
          return Err(Reuse(stored.payload));
        }
        return Err(InvalidGrant(TokenConsumed));
      }
      if now >= stored.payload.expiresAt {
        return Err(InvalidGrant(TokenExpired));
      }
      refresh := refresh[token := stored.(consumedAt := Some(now))];
      return Ok(stored.payload);
    }

    method RevokeFamily(family: Id)
      modifies this`refresh
      ensures refresh == WithoutFamily(old(refresh), family)
    {
      var todo := refresh.Keys;
      while todo != {}
        invariant todo <= refresh.Keys <= old(refresh).Keys
        invariant forall t | t in refresh :: refresh[t] == old(refresh)[t]
        invariant forall t | t in old(refresh) && t !in todo ::
                    t in refresh <==> old(refresh)[t].payload.family != family
        decreases todo
      {
        var token :| token in todo;
        todo := todo - {token};
        if refresh[token].payload.family == family {
          refresh := refresh - {token};
        }
      }
    }

    method RevokeBySubject(tenantId: string, subjectId: string)
      modifies this`refresh
      ensures refresh == WithoutSubject(old(refresh), tenantId, subjectId)
    {
      var todo := refresh.Keys;
      while todo != {}
        invariant todo <= refresh.Keys <= old(refresh).Keys
        invariant forall t | t in refresh :: refresh[t] == old(refresh)[t]
        invariant forall t | t in old(refresh) && t !in todo :: t in refresh <==>
                    !(old(refresh)[t].payload.line.tenantId == tenantId && old(refresh)[t].payload.subjectId == subjectId)
        decreases todo
      {
        var token :| token in todo;
        todo := todo - {token};
        if refresh[token].payload.line.tenantId == tenantId && refresh[token].payload.subjectId == subjectId {
          refresh := refresh - {token};
        }
      }
    }

    method RecordDpopJti(jti: string, ttlMs: int, now: int) returns (accepted: bool)
      modifies this`dpopJtis
      ensures (accepted, dpopJtis) == RecordJti(old(dpopJtis), jti, ttlMs, now)
    {
      var todo := dpopJtis.Keys;
      while todo != {}
        invariant todo <= dpopJtis.Keys <= old(dpopJtis).Keys
        invariant forall k | k in dpopJtis :: dpopJtis[k] == old(dpopJtis)[k]
        invariant forall k | k in old(dpopJtis) && k !in todo :: k in dpopJtis <==> old(dpopJtis)[k] > now
        decreases todo
      {
        var k :| k in todo;
        todo := todo - {k};
        if dpopJtis[k] <= now {
          dpopJtis := dpopJtis - {k};
        }
      }
      assert dpopJtis == Swept(old(dpopJtis), now);
      if jti in dpopJtis {
        return false;
      }
      dpopJtis := dpopJtis[jti := now + ttlMs];
      return true;
    }
  }
}
