// What PATCH normalization means: the delta of a whole request is its operations
// applied one at a time, and it does not depend on the record what a request touches.
module ScimPatchTheorems {
  import opened Wrappers
  import opened Text
  import opened Json
  import opened ScimUser
  import opened ScimPatch
  import opened ScimDraft

  // ---------- An edit of a stored record ----------

  function NonEmpty(list: seq<MultiValue>): Option<seq<MultiValue>> {
    if list != [] then Some(list) else None
  }

  function NonEmptyName(names: Name): Option<Name> {
    if names != map[] then Some(names) else None
  }

  function ActList(x: Option<seq<MultiValue>>, l: List, e: Edit): Option<seq<MultiValue>> {
    match e
    case Upsert(l', kind, value) => if l' == l then Some(UpsertByType(OrEmpty(x), kind, value)) else x
    case RemoveKind(l', kind) => if l' == l then NonEmpty(WithoutKind(OrEmpty(x), kind)) else x
    case SetList(l', entries) => if l' == l then NonEmpty(entries) else x
    case ClearList(l') => if l' == l then None else x
    case _ => x
  }

  function ActName(x: Option<Name>, e: Edit): Option<Name> {
    match e
    case MergeName(names) => NonEmptyName(OrNone(x) + names)
    case ReplaceName(names) => NonEmptyName(names)
    case EditName(key, text) => NonEmptyName(Edited(OrNone(x), key, text))
    case ClearName => None
    case _ => x
  }

  function ActEnterprise(x: Option<Enterprise>, e: Edit): Option<Enterprise> {
    match e
    case EditEnterprise(key, extra) => Some(Edited(OrNone(x), key, extra))
    case ClearEnterprise => None
    case _ => x
  }

  function ActActive(x: bool, e: Edit): bool {
    if e.SetActive? then e.active else x
  }

  function ActUserName(x: string, e: Edit): string {
    if e.SetUserName? then e.userName else x
  }

  function ActExternalId(x: Option<string>, e: Edit): Option<string> {
    if e.SetExternalId? then e.externalId else x
  }

  function ActDisplayName(x: Option<string>, e: Edit): Option<string> {
    if e.SetDisplayName? then e.displayName else x
  }

  function Act(u: User, e: Edit): User {
    User(u.id, ActExternalId(u.externalId, e), ActUserName(u.userName, e), ActActive(u.active, e),
         ActName(u.name, e), ActDisplayName(u.displayName, e), ActList(u.emails, OfEmails, e),
         ActList(u.phoneNumbers, OfPhoneNumbers, e), ActEnterprise(u.enterprise, e))
  }

  function ActAll(u: User, edits: seq<Edit>): User
    decreases |edits|
  {
    if edits == [] then u else ActAll(Act(u, edits[0]), edits[1..])
  }

  lemma {:induction false} ActAppends(u: User, xs: seq<Edit>, ys: seq<Edit>)
    ensures ActAll(u, xs + ys) == ActAll(ActAll(u, xs), ys)
    decreases |xs|
  {
    if xs == [] {
      assert xs + ys == ys;
    } else {
      assert (xs + ys)[1..] == xs[1..] + ys;
      ActAppends(Act(u, xs[0]), xs[1..], ys);
    }
  }

  // ---------- The draft stands for the edited record ----------

  // The delta so far turns the record at the start into `u`. The working copies
  // are `u`'s, except that they may be empty where `u` has none.
  ghost predicate StandsFor(d: Draft, start: User, u: User) {
    && Apply(d.patch, start) == u
    && OrEmpty(d.emails) == OrEmpty(u.emails)
    && OrEmpty(d.phoneNumbers) == OrEmpty(u.phoneNumbers)
    && OrNone(d.name) == OrNone(u.name)
    && d.enterprise == u.enterprise
  }

  lemma ListEditStandsFor(d: Draft, start: User, u: User, e: Edit)
    requires StandsFor(d, start, u) && (e.Upsert? || e.RemoveKind? || e.SetList? || e.ClearList?)
    ensures StandsFor(Exec(d, e), start, Act(u, e))
  {
    assert Working(d, e.list) == OrEmpty(if e.list == OfEmails then u.emails else u.phoneNumbers);
  }

  lemma NameEditStandsFor(d: Draft, start: User, u: User, e: Edit)
    requires StandsFor(d, start, u) && (e.MergeName? || e.ReplaceName? || e.EditName? || e.ClearName?)
    ensures StandsFor(Exec(d, e), start, Act(u, e))
  {
  }

  lemma ExecStandsFor(d: Draft, start: User, u: User, e: Edit)
    requires StandsFor(d, start, u)
    ensures StandsFor(Exec(d, e), start, Act(u, e))
  {
    if e.Upsert? || e.RemoveKind? || e.SetList? || e.ClearList? {
      ListEditStandsFor(d, start, u, e);
    } else if e.MergeName? || e.ReplaceName? || e.EditName? || e.ClearName? {
      NameEditStandsFor(d, start, u, e);
    }
  }

  lemma {:induction false} ExecAllStandsFor(d: Draft, start: User, u: User, edits: seq<Edit>)
    requires StandsFor(d, start, u)
    ensures StandsFor(ExecAll(d, edits), start, ActAll(u, edits))
    decreases |edits|
  {
    if edits != [] {
      ExecStandsFor(d, start, u, edits[0]);
      ExecAllStandsFor(Exec(d, edits[0]), start, Act(u, edits[0]), edits[1..]);
    }
  }

  // ---------- Many operations are one at a time ----------

  // What a host ends up with: the record, patched; or unchanged, if there was
  // nothing to change; or the error.
  function Outcome(r: Result<Delta, PatchError>, u: User): Result<User, PatchError> {
    match r
    case Ok(d) => Ok(Apply(d, u))
    case Err(e) => if e == NoChanges then Ok(u) else Err(e)
  }

  function Meaning(c: Compiled, u: User): Result<User, PatchError> {
    if c.error.Some? then Err(Malformed(c.error.value)) else Ok(ActAll(u, c.edits))
  }

  lemma UntouchedIsUnchanged(d: Delta, u: User)
    requires Touched(d) == {}
    ensures Apply(d, u) == u
  {
    assert ExternalId !in Touched(d) && UserName !in Touched(d) && Active !in Touched(d) && Key.Name !in Touched(d);
    assert DisplayName !in Touched(d) && Emails !in Touched(d) && PhoneNumbers !in Touched(d);
    assert Key.Enterprise !in Touched(d);
  }

  lemma NormalizeMeans(ops: seq<Json>, u: User)
    ensures Outcome(NormalizeOps(ops, u), u) == Meaning(CompileAll(ops), u)
  {
    var c := CompileAll(ops);
    if c.error.None? {
      ExecAllStandsFor(StartFrom(u), u, u, c.edits);
      var patch := ExecAll(StartFrom(u), c.edits).patch;
      if Touched(patch) == {} { UntouchedIsUnchanged(patch, u); }
    }
  }

  // A request with this one operation.
  function Single(op: Json): Json {
    Object([Field("Operations", Array([op]))])
  }

  // The operations sent one request each, the record patched after every one.
  function OneByOne(ops: seq<Json>, u: User): Result<User, PatchError>
    decreases |ops|
  {
    if ops == [] then Ok(u)
    else
      var first := Outcome(NormalizeSpec(Single(ops[0]), u), u);
      if first.Err? then first else OneByOne(ops[1..], first.value)
  }

  lemma OneField(key: string, v: Json, other: string)
    requires key != other
    ensures Get([Field(key, v)], key) == v && Get([Field(key, v)], other) == Undefined
  {
    assert [Field(key, v)][1..] == [];
  }

  lemma SingleMeans(op: Json, u: User)
    ensures Outcome(NormalizeSpec(Single(op), u), u) == Meaning(Compile(op), u)
  {
    var body := Single(op);
    assert "Operations"[0] != "schemas"[0];
    OneField("Operations", Array([op]), "schemas");
    NormalizeMeans([op], u);
    assert [op][1..] == [];
    assert Compile(op).edits + [] == Compile(op).edits;
    assert CompileAll([op]) == Compile(op) || CompileAll([op]) == Compiled(Compile(op).edits, None);
  }

  lemma {:induction false} OneByOneMeans(ops: seq<Json>, u: User)
    ensures OneByOne(ops, u) == Meaning(CompileAll(ops), u)
    decreases |ops|
  {
    if ops != [] {
      var c := Compile(ops[0]);
      SingleMeans(ops[0], u);
      if c.error.None? {
        OneByOneMeans(ops[1..], ActAll(u, c.edits));
        ActAppends(u, c.edits, CompileAll(ops[1..]).edits);
      }
    }
  }

  // The body is a PatchOp with operations in it.
  predicate IsPatch(body: Json) {
    && body.Object?
    && (Lookup(body, "schemas").Array? ==> NamesSchema(Lookup(body, "schemas").items))
    && Operations(body).Array? && Operations(body).items != []
  }

  // A request means its operations one at a time: the same record in the end, or
  // the same first error, although the draft keeps empty lists where the delta
  // says `null`, and whichever operations are skipped.
  lemma ManyIsOneByOne(body: Json, u: User)
    requires IsPatch(body)
    ensures Outcome(NormalizeSpec(body, u), u) == OneByOne(Operations(body).items, u)
  {
    NormalizeMeans(Operations(body).items, u);
    OneByOneMeans(Operations(body).items, u);
  }

  // ---------- What is touched depends on the body alone ----------

  function KeyOf(e: Edit): Key {
    match e
    case Upsert(l, _, _) => if l == OfEmails then Emails else PhoneNumbers
    case RemoveKind(l, _) => if l == OfEmails then Emails else PhoneNumbers
    case SetList(l, _) => if l == OfEmails then Emails else PhoneNumbers
    case ClearList(l) => if l == OfEmails then Emails else PhoneNumbers
    case MergeName(_) => Key.Name
    case ReplaceName(_) => Key.Name
    case EditName(_, _) => Key.Name
    case ClearName => Key.Name
    case EditEnterprise(_, _) => Key.Enterprise
    case ClearEnterprise => Key.Enterprise
    case SetActive(_) => Active
    case SetUserName(_) => UserName
    case SetExternalId(_) => ExternalId
    case SetDisplayName(_) => DisplayName
  }

  lemma ExecTouches(d: Draft, e: Edit)
    ensures Touched(Exec(d, e).patch) == Touched(d.patch) + {KeyOf(e)}
  {
  }

  lemma {:induction false} ExecAllTouchesAlike(d: Draft, d': Draft, edits: seq<Edit>)
    requires Touched(d.patch) == Touched(d'.patch)
    ensures Touched(ExecAll(d, edits).patch) == Touched(ExecAll(d', edits).patch)
    decreases |edits|
  {
    if edits != [] {
      ExecTouches(d, edits[0]);
      ExecTouches(d', edits[0]);
      ExecAllTouchesAlike(Exec(d, edits[0]), Exec(d', edits[0]), edits[1..]);
    }
  }

  // Whether a request succeeds, which error it gives and which keys its delta
  // carries: all the same for every record it could be resolved against.
  lemma TouchedByBodyAlone(body: Json, u: User, u': User)
    ensures var r, r' := NormalizeSpec(body, u), NormalizeSpec(body, u');
            && (r.Ok? <==> r'.Ok?)
            && (r.Ok? ==> Touched(r.value) == Touched(r'.value) && Touched(r.value) != {})
            && (r.Err? ==> r.error == r'.error)
  {
    if IsPatch(body) {
      ExecAllTouchesAlike(StartFrom(u), StartFrom(u'), CompileAll(Operations(body).items).edits);
    }
  }
}
