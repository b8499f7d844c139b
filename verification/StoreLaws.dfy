// What the operations of the two stores do to each other's answers: save and read,
// consume twice, replay, update and consume, with the times and errors spelled out.
module StoreLaws {
  import opened Wrappers
  import opened OAuth
  import TS = TokenStore
  import FS = FlowStore

  // ---------- Authorization codes ----------

  // A code is saved for more than nothing and at most a minute, reads back as it
  // was saved until that time is over, and is gone once it was read or found expired.
  lemma CodeRoundTrip(codes: TS.Codes, code: Id, blob: Sealed, ttl: int, saved: int, read: int)
    ensures var (r, held) := TS.SaveCode(codes, code, blob, ttl, saved);
            && (r.Ok? <==> 0 < ttl <= 60000)
            && (r.Err? ==> held == codes)
            && (r.Ok? ==>
                  var (q, left) := TS.ConsumeCode(held, code, read);
                  && q == (if read < saved + ttl then Ok(blob) else Err(InvalidGrant(CodeExpired)))
                  && left == codes - {code})
  {
    var (r, held) := TS.SaveCode(codes, code, blob, ttl, saved);
    if r.Ok? {
      assert held - {code} == codes - {code};
    }
  }

  // Whatever became of the first request for a code, there is no second.
  lemma CodeOnce(codes: TS.Codes, code: Id, first: int, second: int)
    ensures var left := TS.ConsumeCode(codes, code, first).1;
            && left == codes - {code}
            && TS.ConsumeCode(left, code, second) == (Err(InvalidGrant(CodeUnknown)), left)
            && (code !in codes ==> TS.ConsumeCode(codes, code, first).0 == Err(InvalidGrant(CodeUnknown)))
  {
    assert code !in codes ==> codes - {code} == codes;
  }

  // ---------- Refresh tokens ----------

  // A token reads back as it was saved until its payload expires, and so does it
  // when it is consumed; consuming marks it and nothing else.
  lemma RefreshRoundTrip(tokens: TS.Tokens, t: Id, p: RefreshPayload, window: int, now: int)
    ensures var held := TS.SaveRefresh(tokens, t, p);
            var answer := if now < p.expiresAt then Ok(p) else Err(InvalidGrant(TokenExpired));
            var (r, left) := TS.ConsumeRefresh(held, t, window, now);
            && TS.PeekRefresh(held, t, now) == answer == r
            && left == (if r.Ok? then tokens[t := TS.StoredRefresh(p, Some(now))] else held)
            && held == tokens[t := TS.StoredRefresh(p, None)]
  {
  }

  lemma UnknownToken(tokens: TS.Tokens, t: Id, window: int, now: int)
    requires t !in tokens
    ensures TS.PeekRefresh(tokens, t, now) == Err(InvalidGrant(TokenUnknown))
    ensures TS.ConsumeRefresh(tokens, t, window, now) == (Err(InvalidGrant(TokenUnknown)), tokens)
  {
  }

  // These and only these are gone; the others are as they were.
  ghost predicate Keeps(tokens: TS.Tokens, left: TS.Tokens, kept: iset<Id>) {
    && (forall t :: t in left <==> t in tokens && t in kept)
    && (forall t | t in left :: left[t] == tokens[t])
  }

  // A token that was consumed once and comes again inside the window takes its whole
  // family down, and no other token, and names the family, tenant and subject;
  // after the window it is refused and nothing changes.
  lemma Replay(tokens: TS.Tokens, t: Id, window: int, first: int, second: int)
    requires t in tokens && tokens[t].consumedAt.None? && first < tokens[t].payload.expiresAt
    ensures var p := tokens[t].payload;
            var (r, left) := TS.ConsumeRefresh(tokens, t, window, first);
            var (q, after) := TS.ConsumeRefresh(left, t, window, second);
            && r == Ok(p)
            && if second - first <= window then
                 q == Err(ReuseDetected(p.family, p.line.tenantId, p.subjectId))
                 && Keeps(left, after, iset x | x in left && left[x].payload.family != p.family)
               else q == Err(InvalidGrant(TokenConsumed)) && after == left
  {
  }

  // A consumed token answers a peek as before, until it expires.
  lemma PeekSeesConsumed(tokens: TS.Tokens, t: Id, window: int, now: int, later: int)
    requires TS.ConsumeRefresh(tokens, t, window, now).0.Ok?
    ensures TS.PeekRefresh(TS.ConsumeRefresh(tokens, t, window, now).1, t, later) == TS.PeekRefresh(tokens, t, later)
  {
  }

  lemma Revocations(tokens: TS.Tokens, family: Id, tenantId: string, subjectId: string)
    ensures Keeps(tokens, TS.WithoutFamily(tokens, family), iset t | t in tokens && tokens[t].payload.family != family)
    ensures Keeps(tokens, TS.WithoutSubject(tokens, tenantId, subjectId),
                  iset t | t in tokens && (tokens[t].payload.line.tenantId != tenantId || tokens[t].payload.subjectId != subjectId))
  {
  }

  // ---------- Identifiers of DPoP proofs ----------

  // An identifier is taken while its record lasts, and free again from then on.
  lemma JtiRoundTrip(jtis: TS.Jtis, jti: string, ttl: int, now: int, later: int)
    ensures var (taken, held) := TS.RecordJti(jtis, jti, ttl, now);
            && (taken <==> jti !in jtis || jtis[jti] <= now)
            && (taken ==> (TS.RecordJti(held, jti, ttl, later).0 <==> now + ttl <= later))
            && (forall k | k != jti :: k in held <==> k in jtis && now < jtis[k])
  {
  }

  // ---------- Flows ----------

  // A flow is saved for more than nothing and reads back as it was saved, or is
  // consumed so, until that time is over; reading leaves it and consuming does not.
  lemma FlowRoundTrip(flows: FS.Flows, id: Id, record: FlowRecord, ttl: int, saved: int, now: int)
    ensures var (r, held) := FS.SaveFlow(flows, id, record, ttl, saved);
            && (r.Ok? <==> 0 < ttl)
            && (r.Err? ==> held == flows)
            && (r.Ok? ==>
                  var answer := if now < saved + ttl then Ok(record) else Err(UnknownState);
                  && FS.ReadFlow(held, id, now) == (answer, if answer.Ok? then held else flows - {id})
                  && FS.ConsumeFlow(held, id, now) == (answer, flows - {id}))
  {
    var (r, held) := FS.SaveFlow(flows, id, record, ttl, saved);
    assert held - {id} == flows - {id};
  }

  // An update of a live flow changes its method state and nothing else, its lifetime
  // included; of any other flow it is refused.
  lemma UpdateThenConsume(flows: FS.Flows, id: Id, st: string, now: int, later: int)
    ensures var (r, held) := FS.UpdateMethodState(flows, id, st, now);
            && (r.Ok? <==> id in flows && now < flows[id].expiresAt)
            && (r.Err? ==> r.error == UnknownState && held == flows - {id})
            && (r.Ok? ==>
                  && held - {id} == flows - {id}
                  && FS.ConsumeFlow(held, id, later).0
                     == if later < flows[id].expiresAt then Ok(flows[id].record.(methodState := Some(st))) else Err(UnknownState))
  {
    assert id !in flows ==> flows - {id} == flows;
  }

  lemma FlowOnce(flows: FS.Flows, id: Id, first: int, second: int)
    ensures var left := FS.ConsumeFlow(flows, id, first).1;
            && left == flows - {id}
            && FS.ConsumeFlow(left, id, second) == (Err(UnknownState), left)
            && FS.ReadFlow(left, id, second) == (Err(UnknownState), left)
  {
    assert id !in flows ==> flows - {id} == flows;
  }
}
