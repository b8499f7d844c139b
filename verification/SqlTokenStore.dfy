// The Postgres and D1 token stores. A row repeats the payload's tenant, client,
// subject, family and expiry in columns of its own, and every WHERE clause reads
// the columns, never the payload.
module SqlTokens {
  import opened Wrappers
  import opened OAuth
  import TS = TokenStore

  datatype Row = Row(tenantId: string, clientId: string, subjectId: string, family: Id, expiresAt: int,
                     consumedAt: Option<int>, payload: RefreshPayload)

  type Rows = map<Id, Row>

  predicate RowAgrees(r: Row) {
    && r.tenantId == r.payload.line.tenantId
    && r.clientId == r.payload.line.clientId
    && r.subjectId == r.payload.subjectId
    && r.family == r.payload.family
    && r.expiresAt == r.payload.expiresAt
  }

  predicate ColumnsAgree(rows: Rows) {
    forall t | t in rows :: RowAgrees(rows[t])
  }

  // The rows as the reference store would hold them.
  function Abstract(rows: Rows): TS.Tokens {
    map t | t in rows :: TS.StoredRefresh(rows[t].payload, rows[t].consumedAt)
  }

  // ---------- Statements ----------

  // UPDATE … SET consumed_at = now WHERE token AND consumed_at IS NULL AND expires_at > now
  predicate Matches(rows: Rows, token: Id, now: int) {
    token in rows && rows[token].consumedAt.None? && rows[token].expiresAt > now
  }

  // DELETE … WHERE family
  function DeleteFamily(rows: Rows, family: Id): Rows {
    map t | t in rows && rows[t].family != family :: rows[t]
  }

  // DELETE … WHERE tenant_id AND subject_id
  function DeleteSubject(rows: Rows, tenantId: string, subjectId: string): Rows {
    map t | t in rows && !(rows[t].tenantId == tenantId && rows[t].subjectId == subjectId) :: rows[t]
  }

  // What the statements do to the tokens, while the columns agree with the payloads.
  lemma InsertRefines(rows: Rows, token: Id, p: RefreshPayload)
    requires ColumnsAgree(rows)
    ensures var rows' := rows[token := Row(p.line.tenantId, p.line.clientId, p.subjectId, p.family, p.expiresAt, None, p)];
            ColumnsAgree(rows') && Abstract(rows') == TS.SaveRefresh(Abstract(rows), token, p)
  {
  }

  lemma ClaimRefines(rows: Rows, token: Id, now: int)
    requires ColumnsAgree(rows)
    ensures Matches(rows, token, now) <==> TS.Claimable(Abstract(rows), token, now)
    ensures Matches(rows, token, now) ==>
              var rows' := rows[token := rows[token].(consumedAt := Some(now))];
              ColumnsAgree(rows') && Abstract(rows') == TS.Consumed(Abstract(rows), token, now)
  {
  }

  lemma DeletesRefine(rows: Rows, family: Id, tenantId: string, subjectId: string)
    requires ColumnsAgree(rows)
    ensures ColumnsAgree(DeleteFamily(rows, family))
    ensures Abstract(DeleteFamily(rows, family)) == TS.WithoutFamily(Abstract(rows), family)
    ensures ColumnsAgree(DeleteSubject(rows, tenantId, subjectId))
    ensures Abstract(DeleteSubject(rows, tenantId, subjectId)) == TS.WithoutSubject(Abstract(rows), tenantId, subjectId)
  {
  }

  // ---------- The store ----------

  // Every operation keeps the columns agreeing, and is told by what it does to
  // the tokens; the operations run without interference.
  class SqlTokenStore {
    var codes: TS.Codes
    var refresh: Rows

    ghost predicate Valid()
      reads this
    {
      ColumnsAgree(refresh)
    }

    ghost function Tokens(): TS.Tokens
      reads this
    {
      Abstract(refresh)
    }

    constructor ()
      ensures Valid() && codes == map[] && Tokens() == map[]
    {
      codes, refresh := map[], map[];
    }

    // INSERT refuses a key that is taken, where the reference overwrites.
    method SaveCode(code: Id, ciphertext: Sealed, ttl: int, now: int) returns (r: Result<(), AuthError>)
      modifies this`codes
      ensures if code in old(codes) && 0 < ttl <= TS.AUTH_CODE_TTL_MS
              then r.Err? && r.error.InternalError? && codes == old(codes)
              else (r, codes) == TS.SaveCode(old(codes), code, ciphertext, ttl, now)
    {
      if ttl <= 0 || ttl > TS.AUTH_CODE_TTL_MS {
        return Err(InternalError("saveCode: ttl"));
      }
      if code in codes {
        return Err(InternalError("saveCode: insert failed"));
      }
      codes := codes[code := TS.StoredCode(ciphertext, now + ttl)];
      return Ok(());
    }

    method ConsumeCode(code: Id, now: int) returns (r: Result<Sealed, AuthError>)
      modifies this`codes
      ensures (r, codes) == TS.ConsumeCode(old(codes), code, now)
    {
      if code !in codes {
        return Err(InvalidGrant(CodeUnknown));
      }
      var row := codes[code];
      codes := codes - {code};
      if now >= row.expiresAt {
        return Err(InvalidGrant(CodeExpired));
      }
      return Ok(row.ciphertext);
    }

    method SaveRefresh(token: Id, payload: RefreshPayload) returns (r: Result<(), AuthError>)
      requires Valid()
      modifies this`refresh
      ensures Valid()
      ensures if token in old(Tokens())
              then r.Err? && r.error.InternalError? && Tokens() == old(Tokens())
              else r == Ok(()) && Tokens() == TS.SaveRefresh(old(Tokens()), token, payload)
    {
      if token in refresh {
        return Err(InternalError("saveRefresh: insert failed"));
      }
      InsertRefines(refresh, token, payload);
      refresh := refresh[token := Row(payload.line.tenantId, payload.line.clientId, payload.subjectId,
                                      payload.family, payload.expiresAt, None, payload)];
      return Ok(());
    }

    method PeekRefresh(token: Id, now: int) returns (r: Result<RefreshPayload, AuthError>)
      requires Valid()
      ensures r == TS.PeekRefresh(Tokens(), token, now)
    {
      if token !in refresh {
        return Err(InvalidGrant(TokenUnknown));
      }
      if now >= refresh[token].expiresAt {
        return Err(InvalidGrant(TokenExpired));
      }
      return Ok(refresh[token].payload);
    }

    // Three statements on columns are the reference's one step on payloads, and the
    // branch for a miss nobody can explain is dead.
    method ConsumeRefresh(token: Id, window: int, now: int) returns (r: Result<RefreshPayload, AuthError>)
      requires Valid()
      modifies this`refresh
      ensures Valid()
      ensures (r, Tokens()) == TS.ConsumeRefresh(old(Tokens()), token, window, now)
    {
      ClaimRefines(refresh, token, now);
      if Matches(refresh, token, now) {
        refresh := refresh[token := refresh[token].(consumedAt := Some(now))];
        return Ok(refresh[token].payload);
      }
      if token !in refresh {
        return Err(InvalidGrant(TokenUnknown));
      }
      var existing := refresh[token];
      if existing.consumedAt.Some? {
        if now - existing.consumedAt.value <= window {
          RevokeFamily(existing.payload.family);
          return Err(TS.Reuse(existing.payload));
        }
        return Err(InvalidGrant(TokenConsumed));
      }
      if now >= existing.expiresAt {
        return Err(InvalidGrant(TokenExpired));
      }
      return Err(InternalError("consumeRefresh: unexplained miss"));
    }

    method RevokeFamily(family: Id)
      requires Valid()
      modifies this`refresh
      ensures Valid()
      ensures Tokens() == TS.WithoutFamily(old(Tokens()), family)
    {
      DeletesRefine(refresh, family, "", "");
      refresh := DeleteFamily(refresh, family);
    }

    method RevokeBySubject(tenantId: string, subjectId: string)
      requires Valid()
      modifies this`refresh
      ensures Valid()
      ensures Tokens() == TS.WithoutSubject(old(Tokens()), tenantId, subjectId)
    {
      DeletesRefine(refresh, 0, tenantId, subjectId);
      refresh := DeleteSubject(refresh, tenantId, subjectId);
    }
  }
}
