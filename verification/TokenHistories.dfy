// Sequential histories of the token store's port, served by the reference store,
// by the SQL stores and by the DynamoDB store.
module TokenHistories {
  import opened Wrappers
  import opened OAuth
  import TS = TokenStore
  import Sql = SqlTokens
  import Dynamo = DynamoTokens

  datatype Op =
    | SaveCode(code: Id, blob: Sealed, ttl: int)
    | ConsumeCode(code: Id)
    | SaveRefresh(token: Id, payload: RefreshPayload)
    | PeekRefresh(token: Id)
    | ConsumeRefresh(token: Id, window: int)
    | RevokeFamily(family: Id)
    | RevokeBySubject(tenantId: string, subjectId: string)

  // A call and the one clock reading it takes. Clocks may go backwards.
  datatype Call = Call(op: Op, now: int)

  datatype Answer =
    | Plain(result: Result<(), AuthError>)
    | Code(code: Result<Sealed, AuthError>)
    | Refresh(refresh: Result<RefreshPayload, AuthError>)

  datatype Memory = Memory(codes: TS.Codes, tokens: TS.Tokens)

  const DONE := Plain(Ok(()))

  function InMemory(m: Memory, c: Call): (Answer, Memory) {
    match c.op
    case SaveCode(code, blob, ttl) =>
      var (r, codes) := TS.SaveCode(m.codes, code, blob, ttl, c.now); (Plain(r), m.(codes := codes))
    case ConsumeCode(code) =>
      var (r, codes) := TS.ConsumeCode(m.codes, code, c.now); (Code(r), m.(codes := codes))
    case SaveRefresh(token, p) => (DONE, m.(tokens := TS.SaveRefresh(m.tokens, token, p)))
    case PeekRefresh(token) => (Refresh(TS.PeekRefresh(m.tokens, token, c.now)), m)
    case ConsumeRefresh(token, window) =>
      var (r, tokens) := TS.ConsumeRefresh(m.tokens, token, window, c.now); (Refresh(r), m.(tokens := tokens))
    case RevokeFamily(family) => (DONE, m.(tokens := TS.WithoutFamily(m.tokens, family)))
    case RevokeBySubject(tenantId, subjectId) =>
      (DONE, m.(tokens := TS.WithoutSubject(m.tokens, tenantId, subjectId)))
  }

  function MemoryAnswers(m: Memory, calls: seq<Call>): (answers: seq<Answer>)
    ensures |answers| == |calls|
    decreases |calls|
  {
    if calls == [] then []
    else var (a, m') := InMemory(m, calls[0]); [a] + MemoryAnswers(m', calls[1..])
  }

  function MemoryAfter(m: Memory, calls: seq<Call>): Memory
    decreases |calls|
  {
    if calls == [] then m else MemoryAfter(InMemory(m, calls[0]).1, calls[1..])
  }

  // The call saves under a key that is taken: memory replaces the record, INSERT fails.
  predicate Overwrites(m: Memory, c: Call) {
    || (c.op.SaveCode? && 0 < c.op.ttl <= TS.AUTH_CODE_TTL_MS && c.op.code in m.codes)
    || (c.op.SaveRefresh? && c.op.token in m.tokens)
  }

  predicate SavesFreshKeys(m: Memory, calls: seq<Call>)
    decreases |calls|
  {
    calls == [] || (!Overwrites(m, calls[0]) && SavesFreshKeys(InMemory(m, calls[0]).1, calls[1..]))
  }

  // The first `i` calls got these answers from memory and left it as `m`.
  ghost predicate Served(m0: Memory, calls: seq<Call>, i: nat, answers: seq<Answer>, m: Memory) {
    && i <= |calls|
    && MemoryAnswers(m0, calls) == answers + MemoryAnswers(m, calls[i..])
    && MemoryAfter(m0, calls) == MemoryAfter(m, calls[i..])
    && SavesFreshKeys(m0, calls) == SavesFreshKeys(m, calls[i..])
  }

  lemma ServesOn(m0: Memory, calls: seq<Call>, i: nat, answers: seq<Answer>, m: Memory)
    requires Served(m0, calls, i, answers, m) && i < |calls| && !Overwrites(m, calls[i])
    ensures Served(m0, calls, i + 1, answers + [InMemory(m, calls[i]).0], InMemory(m, calls[i]).1)
  {
    var (a, m') := InMemory(m, calls[i]);
    assert calls[i..][1..] == calls[i + 1..];
    assert MemoryAnswers(m, calls[i..]) == [a] + MemoryAnswers(m', calls[i + 1..]);
    assert answers + ([a] + MemoryAnswers(m', calls[i + 1..])) == answers + [a] + MemoryAnswers(m', calls[i + 1..]);
  }

  // ---------- Memory against SQL ----------

  ghost function SqlView(store: Sql.SqlTokenStore): Memory
    reads store
  {
    Memory(store.codes, store.Tokens())
  }

  method ServeSql(store: Sql.SqlTokenStore, c: Call) returns (a: Answer)
    requires store.Valid()
    modifies store
    ensures store.Valid()
    ensures a == InMemory(old(SqlView(store)), c).0 <==> !Overwrites(old(SqlView(store)), c)
    ensures !Overwrites(old(SqlView(store)), c) ==> SqlView(store) == InMemory(old(SqlView(store)), c).1
  {
    match c.op {
      case SaveCode(code, blob, ttl) => var r := store.SaveCode(code, blob, ttl, c.now); a := Plain(r);
      case ConsumeCode(code) => var r := store.ConsumeCode(code, c.now); a := Code(r);
      case SaveRefresh(token, p) => var r := store.SaveRefresh(token, p); a := Plain(r);
      case PeekRefresh(token) => var r := store.PeekRefresh(token, c.now); a := Refresh(r);
      case ConsumeRefresh(token, window) => var r := store.ConsumeRefresh(token, window, c.now); a := Refresh(r);
      case RevokeFamily(family) => store.RevokeFamily(family); a := DONE;
      case RevokeBySubject(tenantId, subjectId) => store.RevokeBySubject(tenantId, subjectId); a := DONE;
    }
  }

  // Memory, Postgres and D1 give the same answers to a history exactly when it
  // never saves under a key in use, and then they end with the same tokens, the
  // columns still agreeing with the payloads.
  method ServeAllSql(store: Sql.SqlTokenStore, calls: seq<Call>) returns (answers: seq<Answer>)
    requires store.Valid()
    modifies store
    ensures store.Valid()
    ensures answers == MemoryAnswers(old(SqlView(store)), calls) <==> SavesFreshKeys(old(SqlView(store)), calls)
    ensures SavesFreshKeys(old(SqlView(store)), calls) ==> SqlView(store) == MemoryAfter(old(SqlView(store)), calls)
  {
    ghost var m0 := SqlView(store);
    ghost var expected := MemoryAnswers(m0, calls);
    ghost var apart: Option<nat> := None;    // the first call that was answered otherwise
    answers := [];
    for i := 0 to |calls|
      invariant store.Valid() && |answers| == i
      invariant apart.None? ==> Served(m0, calls, i, answers, SqlView(store))
      invariant apart.Some? ==> !SavesFreshKeys(m0, calls) && apart.value < i && answers[apart.value] != expected[apart.value]
    {
      ghost var m := SqlView(store);
      var a := ServeSql(store, calls[i]);
      if apart.None? {
        if Overwrites(m, calls[i]) {
          apart := Some(i);
          assert expected[i] == MemoryAnswers(m, calls[i..])[0] == InMemory(m, calls[i]).0;
        } else {
          ServesOn(m0, calls, i, answers, m);
        }
      }
      answers := answers + [a];
    }
  }

  // ---------- Memory against DynamoDB ----------

  ghost function DynamoView(store: Dynamo.DynamoTokenStore): Memory
    reads store
  {
    Memory(store.codes, store.Tokens())
  }

  predicate HashFreeCall(c: Call) {
    && (c.op.SaveRefresh? ==> Dynamo.HashFree(c.op.payload.subjectId))
    && (c.op.RevokeBySubject? ==> Dynamo.HashFree(c.op.subjectId))
  }

  method ServeDynamo(store: Dynamo.DynamoTokenStore, c: Call) returns (a: Answer)
    requires store.Valid() && Dynamo.SubjectsHashFree(store.Tokens()) && HashFreeCall(c)
    modifies store
    ensures store.Valid() && Dynamo.SubjectsHashFree(store.Tokens())
    ensures (a, DynamoView(store)) == InMemory(old(DynamoView(store)), c)
  {
    match c.op {
      case SaveCode(code, blob, ttl) => var r := store.SaveCode(code, blob, ttl, c.now); a := Plain(r);
      case ConsumeCode(code) => var r := store.ConsumeCode(code, c.now); a := Code(r);
      case SaveRefresh(token, p) => store.SaveRefresh(token, p); a := DONE;
      case PeekRefresh(token) => var r := store.PeekRefresh(token, c.now); a := Refresh(r);
      case ConsumeRefresh(token, window) => var r := store.ConsumeRefresh(token, window, c.now); a := Refresh(r);
      case RevokeFamily(family) => store.RevokeFamily(family); a := DONE;
      case RevokeBySubject(tenantId, subjectId) =>
        Dynamo.KeyRefines(store.Tokens(), tenantId, subjectId);
        store.RevokeBySubject(tenantId, subjectId);
        a := DONE;
    }
  }

  // With '#'-free subject ids, DynamoDB agrees with memory on every history, overwrites included.
  method ServeAllDynamo(store: Dynamo.DynamoTokenStore, calls: seq<Call>) returns (answers: seq<Answer>)
    requires store.Valid() && Dynamo.SubjectsHashFree(store.Tokens()) && forall c | c in calls :: HashFreeCall(c)
    modifies store
    ensures store.Valid() && Dynamo.SubjectsHashFree(store.Tokens())
    ensures answers == MemoryAnswers(old(DynamoView(store)), calls)
    ensures DynamoView(store) == MemoryAfter(old(DynamoView(store)), calls)
  {
    ghost var m0 := DynamoView(store);
    answers := [];
    for i := 0 to |calls|
      invariant store.Valid() && Dynamo.SubjectsHashFree(store.Tokens()) && |answers| == i
      invariant MemoryAnswers(m0, calls) == answers + MemoryAnswers(DynamoView(store), calls[i..])
      invariant MemoryAfter(m0, calls) == MemoryAfter(DynamoView(store), calls[i..])
    {
      ghost var m := DynamoView(store);
      var a := ServeDynamo(store, calls[i]);
      assert calls[i..][1..] == calls[i + 1..];
      assert MemoryAnswers(m, calls[i..]) == [a] + MemoryAnswers(DynamoView(store), calls[i + 1..]);
      answers := answers + [a];
    }
  }
}
