// The DynamoDB token store: puts replace whole items, revocation queries an
// index and deletes what it found one item at a time, and the subject index is
// keyed by one string built from tenant and subject.
module DynamoTokens {
  import opened Wrappers
  import opened OAuth
  import TS = TokenStore

  datatype Item = Item(payload: RefreshPayload, family: Id, subjectKey: string, expiresAt: int, consumedAt: Option<int>)

  type Items = map<Id, Item>

  function SubjectKey(tenantId: string, subjectId: string): string {
    tenantId + "#" + subjectId
  }

  predicate ItemAgrees(i: Item) {
    && i.family == i.payload.family
    && i.subjectKey == SubjectKey(i.payload.line.tenantId, i.payload.subjectId)
    && i.expiresAt == i.payload.expiresAt
  }

  predicate AttributesAgree(items: Items) {
    forall t | t in items :: ItemAgrees(items[t])
  }

  function Abstract(items: Items): TS.Tokens {
    map t | t in items :: TS.StoredRefresh(items[t].payload, items[t].consumedAt)
  }

  // ---------- Requests ----------

  function Put(items: Items, token: Id, p: RefreshPayload): Items {
    items[token := Item(p, p.family, SubjectKey(p.line.tenantId, p.subjectId), p.expiresAt, None)]
  }

  // SET consumed_at, on condition that the item is there, unconsumed and unexpired.
  predicate Matches(items: Items, token: Id, now: int) {
    token in items && items[token].consumedAt.None? && items[token].expiresAt > now
  }

  function QueryFamily(items: Items, family: Id): set<Id> {
    set t | t in items && items[t].family == family
  }

  function QuerySubject(items: Items, tenantId: string, subjectId: string): set<Id> {
    set t | t in items && items[t].subjectKey == SubjectKey(tenantId, subjectId)
  }

  // What the subject index can tell apart: tokens by their key.
  function WithoutKey(tokens: TS.Tokens, key: string): TS.Tokens {
    map t | t in tokens && SubjectKey(tokens[t].payload.line.tenantId, tokens[t].payload.subjectId) != key :: tokens[t]
  }

  // What the requests do to the tokens, while the attributes agree with the payloads.
  lemma PutRefines(items: Items, token: Id, p: RefreshPayload)
    requires AttributesAgree(items)
    ensures AttributesAgree(Put(items, token, p))
    ensures Abstract(Put(items, token, p)) == TS.SaveRefresh(Abstract(items), token, p)
  {
  }

  lemma ClaimRefines(items: Items, token: Id, now: int)
    requires AttributesAgree(items)
    ensures Matches(items, token, now) <==> TS.Claimable(Abstract(items), token, now)
    ensures Matches(items, token, now) ==>
              var items' := items[token := items[token].(consumedAt := Some(now))];
              AttributesAgree(items') && Abstract(items') == TS.Consumed(Abstract(items), token, now)
  {
  }

  lemma DeletesRefine(items: Items, family: Id, tenantId: string, subjectId: string)
    requires AttributesAgree(items)
    ensures Abstract(items - QueryFamily(items, family)) == TS.WithoutFamily(Abstract(items), family)
    ensures Abstract(items - QuerySubject(items, tenantId, subjectId))
         == WithoutKey(Abstract(items), SubjectKey(tenantId, subjectId))
  {
  }

  // ---------- The store ----------

  class DynamoTokenStore {
    var codes: TS.Codes
    var refresh: Items

    ghost predicate Valid()
      reads this
    {
      AttributesAgree(refresh)
    }

    ghost function Tokens(): TS.Tokens
      reads this
    {
      Abstract(refresh)
    }

    constructor ()
      ensures Valid() && codes == map[] && Tokens() == map[]
    {
      codes, refresh := map[], map[];
    }

    method SaveCode(code: Id, ciphertext: Sealed, ttl: int, now: int) returns (r: Result<(), AuthError>)
      modifies this`codes
      ensures (r, codes) == TS.SaveCode(old(codes), code, ciphertext, ttl, now)
    {
      if ttl <= 0 || ttl > TS.AUTH_CODE_TTL_MS {
        return Err(InternalError("saveCode: ttl"));
      }
      codes := codes[code := TS.StoredCode(ciphertext, now + ttl)];
      return Ok(());
    }

    // A delete that returns the old item.
    method ConsumeCode(code: Id, now: int) returns (r: Result<Sealed, AuthError>)
      modifies this`codes
      ensures (r, codes) == TS.ConsumeCode(old(codes), code, now)
    {
      if code !in codes {
        return Err(InvalidGrant(CodeUnknown));
      }
      var row := codes[code];
      codes := codes - {code};
      if now >= row.expiresAt {
        return Err(InvalidGrant(CodeExpired));
      }
      return Ok(row.ciphertext);
    }

    method SaveRefresh(token: Id, p: RefreshPayload)
      requires Valid()
      modifies this`refresh
      ensures Valid()
      ensures Tokens() == TS.SaveRefresh(old(Tokens()), token, p)
    {
      PutRefines(refresh, token, p);
      refresh := Put(refresh, token, p);
    }

    method PeekRefresh(token: Id, now: int) returns (r: Result<RefreshPayload, AuthError>)
      requires Valid()
      ensures r == TS.PeekRefresh(Tokens(), token, now)
    {
      if token !in refresh {
        return Err(InvalidGrant(TokenUnknown));
      }
      if now >= refresh[token].expiresAt {
        return Err(InvalidGrant(TokenExpired));
      }
      return Ok(refresh[token].payload);
    }

    method ConsumeRefresh(token: Id, window: int, now: int) returns (r: Result<RefreshPayload, AuthError>)
      requires Valid()
      modifies this`refresh
      ensures Valid()
      ensures (r, Tokens()) == TS.ConsumeRefresh(old(Tokens()), token, window, now)
    {
      ClaimRefines(refresh, token, now);
      if Matches(refresh, token, now) {
        refresh := refresh[token := refresh[token].(consumedAt := Some(now))];
        return Ok(refresh[token].payload);
      }
      if token !in refresh {
        return Err(InvalidGrant(TokenUnknown));
      }
      var existing := refresh[token];
      if existing.consumedAt.Some? {
        if now - existing.consumedAt.value <= window {
          RevokeFamily(existing.payload.family);
          return Err(TS.Reuse(existing.payload));
        }
        return Err(InvalidGrant(TokenConsumed));
      }
      if now >= existing.expiresAt {
        return Err(InvalidGrant(TokenExpired));
      }
      return Err(InternalError("consumeRefresh: unexplained miss"));
    }

    method RevokeFamily(family: Id)
      requires Valid()
      modifies this`refresh
      ensures Valid()
      ensures Tokens() == TS.WithoutFamily(old(Tokens()), family)
    {
      DeletesRefine(refresh, family, "", "");
      DeleteEach(QueryFamily(refresh, family));
    }

    // Tokens of the same key go, and only they.
    method RevokeBySubject(tenantId: string, subjectId: string)
      requires Valid()
      modifies this`refresh
      ensures Valid()
      ensures Tokens() == WithoutKey(old(Tokens()), SubjectKey(tenantId, subjectId))
    {
      DeletesRefine(refresh, 0, tenantId, subjectId);
      DeleteEach(QuerySubject(refresh, tenantId, subjectId));
    }

    method DeleteEach(keys: set<Id>)
      modifies this`refresh
      ensures refresh == old(refresh) - keys
    {
      var todo := keys;
      while todo != {}
        invariant todo <= keys && refresh == old(refresh) - (keys - todo)
        decreases todo
      {
        var key :| key in todo;
        refresh := refresh - {key};
        todo := todo - {key};
      }
    }
  }

  // ---------- The subject key ----------

  predicate HashFree(s: string) {
    '#' !in s
  }

  // With the separator in neither subject, the key has one reading: what follows its last separator.
  lemma KeyDetermines(t: string, s: string, t': string, s': string)
    requires HashFree(s) && HashFree(s') && SubjectKey(t, s) == SubjectKey(t', s')
    ensures t == t' && s == s'
  {
    var k := SubjectKey(t, s);
    assert k[|t|] == '#' && k[|t'|] == '#';
    forall i | 0 <= i < |k|
      ensures |t| < i ==> k[i] != '#'
      ensures |t'| < i ==> k[i] != '#'
    {
    }
    assert t == k[..|t|] && t' == k[..|t'|];
    assert s == k[|t| + 1..] && s' == k[|t'| + 1..];
  }

  predicate SubjectsHashFree(tokens: TS.Tokens) {
    forall t | t in tokens :: HashFree(tokens[t].payload.subjectId)
  }

  // Over all tokens whose subject ids are free of '#', revoking this subject by
  // its key removes those the reference would remove.
  ghost predicate KeyIsExact(tenantId: string, subjectId: string) {
    forall tokens | SubjectsHashFree(tokens) ::
      WithoutKey(tokens, SubjectKey(tenantId, subjectId)) == TS.WithoutSubject(tokens, tenantId, subjectId)
  }

  lemma KeyRefines(tokens: TS.Tokens, tenantId: string, subjectId: string)
    requires SubjectsHashFree(tokens) && HashFree(subjectId)
    ensures WithoutKey(tokens, SubjectKey(tenantId, subjectId)) == TS.WithoutSubject(tokens, tenantId, subjectId)
  {
    forall t | t in tokens
      ensures SubjectKey(tokens[t].payload.line.tenantId, tokens[t].payload.subjectId) == SubjectKey(tenantId, subjectId)
         <==> tokens[t].payload.line.tenantId == tenantId && tokens[t].payload.subjectId == subjectId
    {
      if SubjectKey(tokens[t].payload.line.tenantId, tokens[t].payload.subjectId) == SubjectKey(tenantId, subjectId) {
        KeyDetermines(tokens[t].payload.line.tenantId, tokens[t].payload.subjectId, tenantId, subjectId);
      }
    }
  }

  lemma {:induction false} LastHash(s: string) returns (front: string, back: string)
    requires !HashFree(s)
    ensures s == front + "#" + back && HashFree(back)
  {
    if s[|s| - 1] == '#' {
      front, back := s[..|s| - 1], "";
    } else {
      front, back := LastHash(s[..|s| - 1]);
      back := back + [s[|s| - 1]];
    }
  }

  // The key is exact for precisely the subjects that contain no '#' themselves:
  // any other is also the key of a different tenant's subject.
  lemma KeyIsExactIff(tenantId: string, subjectId: string)
    ensures KeyIsExact(tenantId, subjectId) <==> HashFree(subjectId)
  {
    if HashFree(subjectId) {
      forall tokens | SubjectsHashFree(tokens)
        ensures WithoutKey(tokens, SubjectKey(tenantId, subjectId)) == TS.WithoutSubject(tokens, tenantId, subjectId)
      {
        KeyRefines(tokens, tenantId, subjectId);
      }
    } else {
      var front, back := LastHash(subjectId);
      var other := Line(tenantId + "#" + front, "", "", "", "", None, 0, None, None);
      var tokens := TS.SaveRefresh(map[], 0, RefreshPayload(other, back, [], 0, 0, 0));
      assert SubjectKey(other.tenantId, back) == SubjectKey(tenantId, subjectId);
      assert 0 !in WithoutKey(tokens, SubjectKey(tenantId, subjectId));
      assert back != subjectId;
      assert 0 in TS.WithoutSubject(tokens, tenantId, subjectId);
    }
  }
}
