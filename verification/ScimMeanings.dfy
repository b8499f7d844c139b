// What one operation does to a stored record: every attribute the server models, in
// both spellings, for every value, and the error for the values it does not take.
module ScimMeanings {
  import opened Wrappers
  import opened Text
  import opened Json
  import opened ScimUser
  import opened ScimPatch
  import opened ScimPatchTheorems
  import opened ScimShapes
  import F = ScimFilterTheorems
  import P = ScimPaths

  // The record after a request with this one operation, or its error.
  function Sent(raw: Json, u: User): Result<User, PatchError> {
    Outcome(NormalizeSpec(Single(raw), u), u)
  }

  // Both spellings: the attribute in the path, and as the only key of a pathless object.
  predicate Means(op: string, path: string, v: Json, u: User, r: Result<User, PatchError>) {
    Sent(Operation(op, path, v), u) == r && Sent(Pathless(op, Object([Field(path, v)])), u) == r
  }

  lemma OnlyField(op: string, path: string, v: Json, u: User)
    requires Sets(op)
    ensures Sent(Pathless(op, Object([Field(path, v)])), u) == Sent(Operation(op, path, v), u)
  {
    PathlessIsOneByOne(op, [Field(path, v)], u);
    assert [Field(path, v)][1..] == [] && "" + path == path;
    assert PerField(op, "", [Field(path, v)]) == [Operation(op, path, v)];
    assert [Operation(op, path, v)][1..] == [];
  }

  lemma SentMeans(op: string, path: string, v: Json, u: User, c: Compiled)
    requires ParseOp(op).Some? && CompileAs(ParseOp(op).value, Some(path), v) == c
    ensures Sent(Operation(op, path, v), u) == Meaning(c, u)
    ensures Sets(op) ==> Means(op, path, v, u, Meaning(c, u))
  {
    OperationCompiles(op, path, v);
    SingleMeans(Operation(op, path, v), u);
    if Sets(op) { OnlyField(op, path, v, u); }
  }

  lemma OneEdit(u: User, e: Edit)
    ensures Meaning(Only(e), u) == Ok(Act(u, e))
  {
    assert [e][1..] == [] && ActAll(u, [e]) == Act(u, e);
  }

  lemma NoEdit(u: User, e: OpError)
    ensures Meaning(SKIP, u) == Ok(u) && Meaning(Fail(e), u) == Err(Malformed(e))
  {
  }

  // A word that is none of the three operations fails the request, whatever else it says.
  lemma OtherOpsFail(op: string, path: string, v: Json, u: User)
    requires !Adds(op) && !Replaces(op) && !Removes(op)
    ensures Means(op, path, v, u, Err(Malformed(UnsupportedOp)))
  {
    OpWords(op);
    OperationReads(op, path, v);
    PathlessReads(op, Object([Field(path, v)]));
    SingleMeans(Operation(op, path, v), u);
    SingleMeans(Pathless(op, Object([Field(path, v)])), u);
  }

  lemma SameLetters(name: string, key: string)
    requires Lower(name) == key && key != "" && forall i | 0 <= i < |key| :: 'a' <= key[i] <= 'z'
    ensures Word(name)
  {
    assert forall i | 0 <= i < |name| :: LowerChar(name[i]) == key[i];
  }

  lemma WordMeans(op: string, name: string, v: Json, u: User)
    requires (Sets(op) || Removes(op)) && Word(name) && Lower(name) != "name"
    ensures ParseOp(op).Some?
    ensures var r := Meaning(CompileSimple(ParseOp(op).value, Lower(name), v), u);
            Sent(Operation(op, name, v), u) == r && (Sets(op) ==> Means(op, name, v, u, r))
  {
    OpWords(op);
    WordPath(ParseOp(op).value, name, v);
    SentMeans(op, name, v, u, CompileSimple(ParseOp(op).value, Lower(name), v));
  }

  // ---------- Simple attributes ----------

  // Booleans arrive as themselves or as words, in any case.
  predicate Says(v: Json, b: bool) {
    v == Bool(b) || (v.String? && Lower(v.s) == if b then "true" else "false")
  }

  lemma ActiveIff(op: string, name: string, v: Json, u: User)
    requires Sets(op) && Lower(name) == "active"
    ensures forall b :: Means(op, name, v, u, Ok(u.(active := b))) <==> Says(v, b)
    ensures !Says(v, true) && !Says(v, false) ==> Means(op, name, v, u, Err(Malformed(NotBoolean)))
  {
    assert "active"[0] != "name"[0] && "true"[0] != "false"[0];
    SameLetters(name, "active");
    OpWords(op);
    WordMeans(op, name, v, u);
    OneEdit(u, SetActive(true));
    OneEdit(u, SetActive(false));
    assert Act(u, SetActive(true)) == u.(active := true) && Act(u, SetActive(false)) == u.(active := false);
  }

  lemma UserNameMeans(op: string, name: string, v: Json, u: User)
    requires Sets(op) && Lower(name) == "username"
    ensures Means(op, name, v, u, if v.String? && v.s != "" then Ok(u.(userName := v.s)) else Err(Malformed(BadUserName)))
  {
    assert "username"[0] != "name"[0] && "active"[0] != "username"[0];
    SameLetters(name, "username");
    OpWords(op);
    WordMeans(op, name, v, u);
    if v.String? { OneEdit(u, SetUserName(v.s)); }
  }

  lemma TextsCompile(o: Op, v: Json)
    ensures var t := if v.String? && o != Remove then Some(v.s) else None;
            && CompileSimple(o, "externalid", v) == Only(SetExternalId(t))
            && CompileSimple(o, "displayname", v) == Only(SetDisplayName(t))
  {
    assert "active"[0] != "externalid"[0] && "username"[0] != "externalid"[0] && "externalid"[0] != "displayname"[0];
    assert "active"[0] != "displayname"[0] && "username"[0] != "displayname"[0];
  }

  // These two can be cleared: by a removal, and by anything that is no text.
  lemma ExternalIdMeans(op: string, name: string, v: Json, u: User)
    requires (Sets(op) || Removes(op)) && Lower(name) == "externalid"
    ensures var r := Ok(u.(externalId := if v.String? && !Removes(op) then Some(v.s) else None));
            Sent(Operation(op, name, v), u) == r && (Sets(op) ==> Means(op, name, v, u, r))
  {
    assert "externalid"[0] != "name"[0];
    SameLetters(name, "externalid");
    OpWords(op);
    WordMeans(op, name, v, u);
    TextsCompile(ParseOp(op).value, v);
    OneEdit(u, SetExternalId(if v.String? && !Removes(op) then Some(v.s) else None));
  }

  lemma DisplayNameMeans(op: string, name: string, v: Json, u: User)
    requires (Sets(op) || Removes(op)) && Lower(name) == "displayname"
    ensures var r := Ok(u.(displayName := if v.String? && !Removes(op) then Some(v.s) else None));
            Sent(Operation(op, name, v), u) == r && (Sets(op) ==> Means(op, name, v, u, r))
  {
    assert "displayname"[0] != "name"[0];
    SameLetters(name, "displayname");
    OpWords(op);
    WordMeans(op, name, v, u);
    TextsCompile(ParseOp(op).value, v);
    OneEdit(u, SetDisplayName(if v.String? && !Removes(op) then Some(v.s) else None));
  }

  lemma RequiredStay(op: string, name: string, v: Json, u: User)
    requires Removes(op)
    ensures Lower(name) == "active" ==> Sent(Operation(op, name, v), u) == Err(Malformed(ActiveRemoved))
    ensures Lower(name) == "username" ==> Sent(Operation(op, name, v), u) == Err(Malformed(UserNameRemoved))
  {
    assert "active"[0] != "name"[0] && "username"[0] != "name"[0] && "active"[0] != "username"[0];
    if Lower(name) in ["active", "username"] {
      SameLetters(name, Lower(name));
      OpWords(op);
      WordMeans(op, name, v, u);
    }
  }

  // An attribute the server has no place for is passed over.
  lemma OtherWordsAreSkipped(op: string, name: string, v: Json, u: User)
    requires (Sets(op) || Removes(op)) && Word(name)
    requires Lower(name) !in ["active", "username", "externalid", "displayname", "emails", "phonenumbers", "name"]
    ensures Sent(Operation(op, name, v), u) == Ok(u)
    ensures Sets(op) ==> Means(op, name, v, u, Ok(u))
  {
    WordMeans(op, name, v, u);
  }

  // ---------- Lists ----------

  // One entry of a list: an object with a text under `value`, and its `type` and
  // `primary` if they are text and boolean.
  function EntryOf(v: Json): seq<MultiValue> {
    if v.Object? && Get(v.fields, "value").String? then
      var kind, primary := Get(v.fields, "type"), Get(v.fields, "primary");
      [MultiValue(Get(v.fields, "value").s, if kind.String? then Some(kind.s) else None,
                  if primary.Bool? then Some(primary.b) else None)]
    else []
  }

  function Flat(items: seq<Json>): seq<MultiValue> {
    if items == [] then [] else EntryOf(items[0]) + Flat(items[1..])
  }

  lemma {:induction false} FlatAppends(items: seq<Json>, v: Json)
    ensures Flat(items + [v]) == Flat(items) + EntryOf(v)
  {
    if items == [] {
      assert [v][1..] == [] && items + [v] == [v];
    } else {
      assert (items + [v])[1..] == items[1..] + [v];
      FlatAppends(items[1..], v);
      F.Regroup(EntryOf(items[0]), Flat(items[1..]), EntryOf(v));
    }
  }

  lemma {:induction false} EntriesAreFlat(items: seq<Json>)
    ensures Entries(items) == Flat(items)
  {
    if items != [] {
      var front, v := items[..|items| - 1], items[|items| - 1];
      EntriesAreFlat(front);
      FlatAppends(front, v);
      assert items == front + [v];
    }
  }

  function ListIn(u: User, name: string, entries: seq<MultiValue>): User {
    var list := if entries == [] then None else Some(entries);
    if Lower(name) == "emails" then u.(emails := list) else u.(phoneNumbers := list)
  }

  lemma ListsCompile(o: Op, v: Json)
    ensures CompileSimple(o, "emails", v) == CompileList(o, OfEmails, v)
    ensures CompileSimple(o, "phonenumbers", v) == CompileList(o, OfPhoneNumbers, v)
  {
    assert "active"[0] != "emails"[0] && |"username"| != |"emails"| && |"externalid"| != |"emails"| && "displayname"[0] != "emails"[0];
    assert |"active"| != |"phonenumbers"| && |"username"| != |"phonenumbers"| && |"externalid"| != |"phonenumbers"|;
    assert "displayname"[0] != "phonenumbers"[0] && "emails"[0] != "phonenumbers"[0];
  }

  lemma ListActs(o: Op, name: string, v: Json, u: User)
    requires Lower(name) == "emails" || Lower(name) == "phonenumbers"
    ensures Meaning(CompileList(o, if Lower(name) == "emails" then OfEmails else OfPhoneNumbers, v), u)
         == if o == Remove then Ok(ListIn(u, name, []))
            else if v.Array? then Ok(ListIn(u, name, Flat(v.items)))
            else Err(Malformed(NotAnArray))
  {
    var list := if Lower(name) == "emails" then OfEmails else OfPhoneNumbers;
    if o == Remove {
      OneEdit(u, ClearList(list));
    } else if v.Array? {
      EntriesAreFlat(v.items);
      OneEdit(u, SetList(list, Flat(v.items)));
    }
  }

  // A whole list is set to the entries it has, in their order; an empty one is no list.
  lemma ListMeans(op: string, name: string, v: Json, u: User)
    requires Sets(op) || Removes(op)
    requires Lower(name) == "emails" || Lower(name) == "phonenumbers"
    ensures Removes(op) ==> Sent(Operation(op, name, v), u) == Ok(ListIn(u, name, []))
    ensures Sets(op) ==> Means(op, name, v, u, if v.Array? then Ok(ListIn(u, name, Flat(v.items))) else Err(Malformed(NotAnArray)))
  {
    assert "emails"[0] != "name"[0] && "phonenumbers"[0] != "name"[0];
    SameLetters(name, Lower(name));
    OpWords(op);
    WordMeans(op, name, v, u);
    ListsCompile(ParseOp(op).value, v);
    ListActs(ParseOp(op).value, name, v, u);
  }

  // ---------- Entries by type ----------

  function Target(attribute: string, kind: string, sub: string): string {
    attribute + "[type eq \"" + kind + "\"]." + sub
  }

  // The path's layout, by position.
  ghost predicate LaidOut(s: string, a: string, kind: string, sub: string) {
    var d, e := |a| + 10, |a| + 10 + |kind|;
    && |s| == e + 3 + |sub|
    && s[..|a|] == a && s[|a|] == '[' && s[|a| + 1..|a| + 5] == "type" && s[|a| + 5] == ' '
    && s[|a| + 6..|a| + 8] == "eq" && s[|a| + 8] == ' ' && s[|a| + 9] == '\"'
    && s[d..e] == kind && s[e] == '\"' && s[e + 1] == ']' && s[e + 2] == '.' && s[e + 3..] == sub
  }

  lemma TargetIsLaidOut(a: string, kind: string, sub: string)
    ensures LaidOut(Target(a, kind, sub), a, kind, sub)
  {
    var s := Target(a, kind, sub);
    var open := "[type eq \"";
    assert s == a + (open + (kind + ("\"]." + sub)));
    assert s[|a|..] == open + (kind + ("\"]." + sub));
    assert s[|a|..][..10] == open;
    assert forall i | 0 <= i < 10 :: s[|a| + i] == s[|a|..][i] == open[i];
    assert s[|a| + 10..] == kind + ("\"]." + sub);
    var e := |a| + 10 + |kind|;
    assert s[e..] == "\"]." + sub;
    assert forall i | 0 <= i < 3 :: s[e + i] == s[e..][i];
  }

  lemma TargetStarts(s: string, a: string, kind: string, sub: string)
    requires LaidOut(s, a, kind, sub) && Word(a)
    ensures LetterEnd(s, 0) == |a| && QualifierStart(s, |a| + 1, "type") == Some(|a| + 10)
  {
    assert forall k | 0 <= k < |a| :: s[k] == s[..|a|][k];
    F.LettersThen(s, 0, |a|);
    assert Lower("type") == "type";
    P.QualifierRead(s, |a| + 1, "type");
  }

  lemma TargetQuotes(s: string, a: string, kind: string, sub: string)
    requires LaidOut(s, a, kind, sub) && '\"' !in kind
    ensures IndexFrom(s, '\"', |a| + 10) == |a| + 10 + |kind|
  {
    var d, e := |a| + 10, |a| + 10 + |kind|;
    assert forall k | d <= k < e :: s[k] == s[d..e][k - d] && s[d..e][k - d] in kind;
    F.FirstIndex(s, '\"', d, e);
  }

  lemma TargetEnds(s: string, a: string, kind: string, sub: string)
    requires LaidOut(s, a, kind, sub) && Word(sub)
    ensures QualifiedSub(s, |a| + 10 + |kind|) == Some(Lower(sub))
  {
    var e := |a| + 10 + |kind|;
    assert forall k | e + 3 <= k < |s| :: s[k] == s[e + 3..][k - e - 3];
    F.LettersThen(s, e + 3, |s|);
    assert SpaceEnd(s, e + 1) == e + 1;
  }

  lemma LaidOutTrims(s: string, a: string, kind: string, sub: string)
    requires LaidOut(s, a, kind, sub) && Word(a) && Word(sub)
    ensures s != "" && Trim(s) == s
  {
    assert s[0] == s[..|a|][0] && s[|s| - 1] == s[|a| + 13 + |kind|..][|sub| - 1];
    TrimmedStays(s);
  }

  lemma PiecesParse(s: string, a: nat, d: nat, e: nat, attribute: string, kind: string, sub: string)
    requires Trim(s) == s && LetterEnd(s, 0) == a && 0 < a < |s| && s[a] == '['
    requires QualifierStart(s, a + 1, "type") == Some(d) && IndexFrom(s, '\"', d) == e && d < e < |s|
    requires QualifiedSub(s, e) == Some(sub)
    requires s[..a] == attribute && s[d..e] == kind
    ensures ParseMultiValuedPath(s) == Some(MultiValuedPath(Lower(attribute), kind, sub))
  {
  }

  lemma LaidOutPieces(s: string, a: string, kind: string, sub: string)
    requires LaidOut(s, a, kind, sub) && Word(a) && kind != ""
    ensures var d, e := |a| + 10, |a| + 10 + |kind|;
            0 < |a| < d < e < |s| && s[|a|] == '[' && s[..|a|] == a && s[d..e] == kind
  {
  }

  lemma TargetIsNoUrn(s: string, a: string, kind: string, sub: string)
    requires LaidOut(s, a, kind, sub) && Word(a)
    ensures StripEnterprisePrefix(s) == (s, false)
  {
    var k := if |a| < 3 then |a| else 3;
    assert |a| > 3 ==> s[3] == s[..|a|][3];
    assert s[k] == '[' || IsLetter(s[k]);
    OffPrefix(s, Lower(SCIM_ENTERPRISE_SCHEMA), k);
    OffPrefix(s, Lower(SCIM_ENTERPRISE_SCHEMA + ":"), k);
    OffPrefix(s, SCIM_CORE_PREFIX, k);
  }

  lemma OffPrefix(s: string, prefix: string, k: nat)
    requires k < |s| && k < |prefix| && LowerChar(s[k]) != prefix[k]
    ensures !StartsWith(Lower(s), prefix) && Lower(s) != prefix
  {
    assert |prefix| <= |s| ==> Lower(s)[..|prefix|][k] != prefix[k];
  }

  lemma TargetReads(s: string, a: string, kind: string, sub: string)
    requires LaidOut(s, a, kind, sub) && Word(a) && Word(sub) && kind != "" && '\"' !in kind
    ensures ParseMultiValuedPath(s) == Some(MultiValuedPath(Lower(a), kind, Lower(sub)))
  {
    LaidOutTrims(s, a, kind, sub);
    TargetStarts(s, a, kind, sub);
    TargetQuotes(s, a, kind, sub);
    TargetEnds(s, a, kind, sub);
    LaidOutPieces(s, a, kind, sub);
    PiecesParse(s, |a|, |a| + 10, |a| + 10 + |kind|, a, kind, Lower(sub));
  }

  // Types are compared without case; an entry with no type has the empty one.
  lemma KindIs(e: MultiValue, kind: string)
    ensures HasKind(e, kind) <==> if e.kind.Some? then Lower(e.kind.value) == Lower(kind) else kind == ""
  {
    assert |Lower(kind)| == |kind| && |Lower("")| == 0;
  }

  // A list changed in place; an empty one is no list.
  function EntryIn(u: User, attribute: string, change: seq<MultiValue> -> seq<MultiValue>): User {
    var before := if Lower(attribute) == "emails" then u.emails else u.phoneNumbers;
    ListIn(u, attribute, change(if before.Some? then before.value else []))
  }

  lemma TargetCompiles(o: Op, a: string, kind: string, sub: string, v: Json)
    requires Word(a) && Word(sub) && kind != "" && '\"' !in kind
    ensures CompileAs(o, Some(Target(a, kind, sub)), v) == CompileMultiValued(o, MultiValuedPath(Lower(a), kind, Lower(sub)), v)
  {
    var s := Target(a, kind, sub);
    TargetIsLaidOut(a, kind, sub);
    assert s != "" && Trim(s) == s by { LaidOutTrims(s, a, kind, sub); }
    assert StripEnterprisePrefix(s) == (s, false) by { TargetIsNoUrn(s, a, kind, sub); }
    TargetReads(s, a, kind, sub);
  }

  // An address of one type is put in the list, and removing the type takes it out.
  // Any other attribute is passed over, and of an entry only its value can be set.
  function Targeted(op: string, a: string, kind: string, sub: string, v: Json, u: User): Result<User, PatchError> {
    if Lower(a) != "emails" && Lower(a) != "phonenumbers" then Ok(u)
    else if Lower(sub) != "value" then Err(Malformed(OnlyValueSub))
    else if Removes(op) then Ok(EntryIn(u, a, list => WithoutKind(list, kind)))
    else if v.String? then Ok(EntryIn(u, a, list => UpsertByType(list, kind, v.s)))
    else Err(Malformed(NotAString))
  }

  lemma TargetMeans(op: string, a: string, kind: string, sub: string, v: Json, u: User)
    requires (Sets(op) || Removes(op)) && Word(a) && Word(sub) && kind != "" && '\"' !in kind
    ensures Sent(Operation(op, Target(a, kind, sub), v), u) == Targeted(op, a, kind, sub, v, u)
    ensures Sets(op) ==> Means(op, Target(a, kind, sub), v, u, Targeted(op, a, kind, sub, v, u))
  {
    OpWords(op);
    var c := CompileMultiValued(ParseOp(op).value, MultiValuedPath(Lower(a), kind, Lower(sub)), v);
    TargetCompiles(ParseOp(op).value, a, kind, sub, v);
    SentMeans(op, Target(a, kind, sub), v, u, c);
    assert Meaning(c, u) == Targeted(op, a, kind, sub, v, u) by {
      var list := if Lower(a) == "emails" then OfEmails else OfPhoneNumbers;
      OneEdit(u, RemoveKind(list, kind));
      if v.String? { OneEdit(u, Upsert(list, kind, v.s)); }
    }
  }

  // ---------- The name ----------

  const NAME_PARTS := ["formatted", "familyName", "givenName", "middleName", "honorificPrefix", "honorificSuffix"]
  const ENTERPRISE_PARTS := ["employeeNumber", "costCenter", "organization", "division", "department"]

  // A key is the lower case of the part it stands for.
  lemma NameSubIff(key: string, part: string)
    ensures NameSub(key) == Some(part) <==> part in NAME_PARTS && Lower(part) == key
  {
    assert Lower("formatted") == "formatted" && Lower("familyName") == "familyname" && Lower("givenName") == "givenname";
    assert Lower("middleName") == "middlename" && Lower("honorificPrefix") == "honorificprefix";
    assert Lower("honorificSuffix") == "honorificsuffix";
    assert "formatted"[1] != "familyName"[1] && "familyname"[0] != "givenname"[0];
    assert "middlename"[0] != "honorificprefix"[0];
    assert "honorificprefix"[9] != "honorificsuffix"[9];
  }

  lemma NameSubDefined(key: string)
    ensures NameSub(key).Some? <==> exists part :: part in NAME_PARTS && Lower(part) == key
  {
    if NameSub(key).Some? {
      NameSubIff(key, NameSub(key).value);
    } else {
      forall part | part in NAME_PARTS ensures Lower(part) != key { NameSubIff(key, part); }
    }
  }

  lemma EnterpriseSubIff(key: string, part: string)
    requires key != "constructor" && key != "__proto__"
    ensures EnterpriseSub(key) == Some(part) <==> part in ENTERPRISE_PARTS && Lower(part) == key
  {
    assert Lower("employeeNumber") == "employeenumber" && Lower("costCenter") == "costcenter";
    assert Lower("organization") == "organization" && Lower("division") == "division" && Lower("department") == "department";
    assert |"division"| != |"department"|;
  }

  // The field that says what a part is: the last text under its name, in any case.
  predicate Names(f: Field, part: string) {
    && f.val.String?
    && if Lower(f.key) == "constructor" then part == "function Object() { [native code] }"
       else if Lower(f.key) == "__proto__" then part == "[object Object]"
       else part in NAME_PARTS && Lower(part) == Lower(f.key)
  }

  lemma NamesIff(f: Field, part: string)
    ensures f.val.String? && NameCanonical(Lower(f.key)) == Some(part) <==> Names(f, part)
  {
    NameSubIff(Lower(f.key), part);
    NameSubDefined(Lower(f.key));
    if NameSub(Lower(f.key)).Some? { NotInherited(Lower(f.key)); }
    if exists p :: p in NAME_PARTS && Lower(p) == Lower(f.key) {
      var p :| p in NAME_PARTS && Lower(p) == Lower(f.key);
      NameSubIff(Lower(f.key), p);
    }
  }

  lemma NotInherited(key: string)
    requires NameSub(key).Some?
    ensures key != "constructor" && key != "__proto__"
  {
    assert "__proto__"[0] == '_' && "constructor"[0] == 'c';
  }

  // What the last field that names the part says.
  function Given(fields: seq<Field>, part: string): Option<string> {
    if fields == [] then None
    else if Names(fields[|fields| - 1], part) then Some(fields[|fields| - 1].val.s)
    else Given(fields[..|fields| - 1], part)
  }

  function Part(names: Name, part: string): Option<string> {
    if part in names then Some(names[part]) else None
  }

  lemma {:induction false} NameEntriesAre(fields: seq<Field>, part: string)
    ensures Part(NameEntries(fields), part) == Given(fields, part)
  {
    if fields != [] {
      NameEntriesAre(fields[..|fields| - 1], part);
      NamesIff(fields[|fields| - 1], part);
    }
  }

  function NameOr(names: Name): Option<Name> {
    if names == map[] then None else Some(names)
  }

  function NameOf(u: User): Name {
    if u.name.Some? then u.name.value else map[]
  }

  // Adding a name keeps the parts it does not mention; replacing it drops them.
  lemma NameMeans(op: string, name: string, v: Json, u: User)
    requires Sets(op) && Lower(name) == "name"
    ensures Means(op, name, v, u,
                  if !v.Object? then Err(Malformed(NameNeedsObject))
                  else if Adds(op) then Ok(u.(name := NameOr(NameOf(u) + NameEntries(v.fields))))
                  else Ok(u.(name := NameOr(NameEntries(v.fields)))))
  {
    SameLetters(name, "name");
    OpWords(op);
    WordPath(ParseOp(op).value, name, v);
    SentMeans(op, name, v, u, CompileName(ParseOp(op).value, None, v));
    if v.Object? {
      OneEdit(u, MergeName(NameEntries(v.fields)));
      OneEdit(u, ReplaceName(NameEntries(v.fields)));
    }
  }

  // Shown on one part of a name that has another.
  lemma AddKeepsReplaceDrops(name: string, part: string, other: string, text: string, u: User)
    requires Lower(name) == "name" && part in NAME_PARTS && other != part
    requires u.name.Some? && other in u.name.value
    ensures var v := Object([Field(part, String(text))]);
            && Sent(Operation("add", name, v), u) == Ok(u.(name := Some(u.name.value[part := text])))
            && Sent(Operation("replace", name, v), u) == Ok(u.(name := Some(map[part := text])))
  {
    var v := Object([Field(part, String(text))]);
    assert Lower("add") == "add" && Lower("replace") == "replace";
    NameMeans("add", name, v, u);
    NameMeans("replace", name, v, u);
    NameSubIff(Lower(part), part);
    assert v.fields[..0] == [] && NameEntries([]) == map[];
    assert NameEntries(v.fields) == map[part := text];
    assert u.name.value + map[part := text] == u.name.value[part := text];
    assert part in map[part := text] && part in u.name.value[part := text];
  }

  lemma NamePartCompiles(o: Op, a: string, b: string, part: string, v: Json)
    requires Lower(a) == "name" && part in NAME_PARTS && Lower(b) == Lower(part)
    ensures CompileAs(o, Some(a + "." + b), v)
         == if o == Remove then Only(EditName(part, None))
            else if v.String? then Only(EditName(part, Some(v.s))) else Fail(NotAString)
  {
    SameLetters(a, "name");
    assert Word(b) by { NamePartsAreWords(part, b); }
    assert NameSub(Lower(b)) == Some(part) by { NameSubIff(Lower(b), part); }
    DottedPath(o, a, b, v);
  }

  // A part of the name is set under its own spelling, or removed; the others stay.
  lemma NamePartMeans(op: string, a: string, b: string, part: string, v: Json, u: User)
    requires (Sets(op) || Removes(op)) && Lower(a) == "name" && part in NAME_PARTS && Lower(b) == Lower(part)
    ensures var r := if Removes(op) then Ok(u.(name := NameOr(NameOf(u) - {part})))
                     else if v.String? then Ok(u.(name := Some(NameOf(u)[part := v.s])))
                     else Err(Malformed(NotAString));
            Sent(Operation(op, a + "." + b, v), u) == r && (Sets(op) ==> Means(op, a + "." + b, v, u, r))
  {
    OpWords(op);
    var o := ParseOp(op).value;
    NamePartCompiles(o, a, b, part, v);
    var c := CompileAs(o, Some(a + "." + b), v);
    SentMeans(op, a + "." + b, v, u, c);
    if o == Remove {
      OneEdit(u, EditName(part, None));
    } else if v.String? {
      OneEdit(u, EditName(part, Some(v.s)));
      assert part in NameOf(u)[part := v.s];
    }
  }

  lemma NamePartsAreWords(part: string, b: string)
    requires part in NAME_PARTS && Lower(b) == Lower(part)
    ensures Word(b)
  {
    assert Word(part);
    assert forall i | 0 <= i < |b| :: LowerChar(b[i]) == Lower(b)[i] == Lower(part)[i] == LowerChar(part[i]);
  }

  // Other parts are refused.
  lemma OtherPartsFail(op: string, a: string, b: string, v: Json, u: User)
    requires (Sets(op) || Removes(op)) && Lower(a) == "name" && Word(b)
    requires forall part | part in NAME_PARTS :: Lower(part) != Lower(b)
    ensures Sent(Operation(op, a + "." + b, v), u) == Err(Malformed(BadNameSub))
  {
    assert NameSub(Lower(b)) == None by { NameSubDefined(Lower(b)); }
    SameLetters(a, "name");
    OpWords(op);
    DottedPath(ParseOp(op).value, a, b, v);
    SentMeans(op, a + "." + b, v, u, Fail(BadNameSub));
  }

  lemma NameIsRemoved(op: string, a: string, v: Json, u: User)
    requires Removes(op) && Lower(a) == "name"
    ensures Sent(Operation(op, a, v), u) == Ok(u.(name := None))
  {
    SameLetters(a, "name");
    OpWords(op);
    WordPath(Remove, a, v);
    SentMeans(op, a, v, u, Only(ClearName));
    OneEdit(u, ClearName);
  }

  // ---------- The extension ----------

  function EnterpriseOf(u: User): Enterprise {
    if u.enterprise.Some? then u.enterprise.value else map[]
  }

  function ExtraChange(op: string, part: string, extra: Extra, u: User): User {
    u.(enterprise := Some(if Removes(op) then EnterpriseOf(u) - {part} else EnterpriseOf(u)[part := extra]))
  }

  // The extension's URN and a colon, in any case.
  predicate OfExtension(p: string) {
    Lower(p) == Lower("urn:" + "ietf:params:scim:schemas:extension:enterprise:2.0:User" + ":")
  }

  lemma ExtensionCompiles(op: string, p: string, w: string, v: Json, u: User)
    requires (Sets(op) || Removes(op)) && OfExtension(p) && Word(w)
    ensures ParseOp(op).Some?
    ensures var r := Meaning(CompileEnterprise(ParseOp(op).value, Lower(w), v), u);
            Sent(Operation(op, p + w, v), u) == r && (Sets(op) ==> Means(op, p + w, v, u, r))
  {
    OpWords(op);
    ExtensionPath(ParseOp(op).value, p, w, v);
    SentMeans(op, p + w, v, u, CompileEnterprise(ParseOp(op).value, Lower(w), v));
  }

  // An attribute of the extension is set to a text under its own spelling, or removed.
  lemma ExtensionMeans(op: string, p: string, w: string, part: string, v: Json, u: User)
    requires (Sets(op) || Removes(op)) && OfExtension(p) && Word(w)
    requires part in ENTERPRISE_PARTS && Lower(part) == Lower(w)
    ensures var r := if v.String? || Removes(op) then Ok(ExtraChange(op, part, Extra.Text(if v.String? then v.s else ""), u))
                     else Err(Malformed(NotAString));
            Sent(Operation(op, p + w, v), u) == r && (Sets(op) ==> Means(op, p + w, v, u, r))
  {
    OpWords(op);
    assert |part| != |"constructor"| && |part| != |"__proto__"| && |part| != |"manager"|;
    EnterpriseSubIff(Lower(w), part);
    ExtensionCompiles(op, p, w, v, u);
    OneEdit(u, EditEnterprise(part, None));
    if v.String? { OneEdit(u, EditEnterprise(part, Some(Extra.Text(v.s)))); }
  }

  // Any other word there is passed over; but one is a key that every object inherits.
  lemma ExtensionRest(op: string, p: string, w: string, v: Json, u: User)
    requires (Sets(op) || Removes(op)) && OfExtension(p) && Word(w) && Lower(w) != "manager" && Lower(w) != "constructor"
    requires forall part | part in ENTERPRISE_PARTS :: Lower(part) != Lower(w)
    ensures Sent(Operation(op, p + w, v), u) == Ok(u)
    ensures Sets(op) ==> Means(op, p + w, v, u, Ok(u))
  {
    assert Lower(w)[0] == LowerChar(w[0]) != '_';
    if EnterpriseSub(Lower(w)).Some? { EnterpriseSubIff(Lower(w), EnterpriseSub(Lower(w)).value); }
    ExtensionCompiles(op, p, w, v, u);
  }

  lemma ExtensionInherits(op: string, p: string, w: string, text: string, u: User)
    requires Sets(op) && OfExtension(p) && Lower(w) == "constructor"
    ensures Means(op, p + w, String(text), u,
                  Ok(ExtraChange(op, "function Object() { [native code] }", Extra.Text(text), u)))
  {
    SameLetters(w, "constructor");
    assert |"constructor"| != |"manager"| && |"constructor"| != |"employeenumber"| && |"constructor"| != |"costcenter"|;
    ExtensionCompiles(op, p, w, String(text), u);
    OpWords(op);
    OneEdit(u, EditEnterprise("function Object() { [native code] }", Some(Extra.Text(text))));
  }

  // The whole extension is removed by its bare URN, and set only by an object.
  lemma BareExtension(op: string, p: string, v: Json, u: User)
    requires Lower(p) == Lower("urn:" + "ietf:params:scim:schemas:extension:enterprise:2.0:User")
    ensures Removes(op) ==> Sent(Operation(op, p, v), u) == Ok(u.(enterprise := None))
    ensures Sets(op) && !v.Object? ==> Means(op, p, v, u, Err(Malformed(EnterpriseNeedsObject)))
  {
    OpWords(op);
    assert LowerChar(p[0]) == Lower(p)[0] && LowerChar(p[|p| - 1]) == Lower(p)[|p| - 1];
    UrnEnds(p);
    TrimmedStays(p);
    assert ParseMultiValuedPath("") == None && SplitDots("") == [""];
    if Removes(op) {
      SentMeans(op, p, v, u, Only(ClearEnterprise));
      OneEdit(u, ClearEnterprise);
    } else if Sets(op) && !v.Object? {
      SentMeans(op, p, v, u, Fail(EnterpriseNeedsObject));
    }
  }

  lemma UrnEnds(p: string)
    requires Lower(p) == Lower("urn:" + "ietf:params:scim:schemas:extension:enterprise:2.0:User")
    ensures p != "" && !IsSpace(p[0]) && !IsSpace(p[|p| - 1])
  {
    var urn := "urn:" + "ietf:params:scim:schemas:extension:enterprise:2.0:User";
    assert urn[0] == "urn:"[0] && urn[|urn| - 1] == 'r';
    assert LowerChar(p[0]) == Lower(p)[0] == Lower(urn)[0] == LowerChar(urn[0]);
    assert LowerChar(p[|p| - 1]) == Lower(p)[|p| - 1] == Lower(urn)[|urn| - 1] == LowerChar(urn[|urn| - 1]);
  }

  function TextOf(v: Json): Option<string> {
    if v.String? then Some(v.s) else None
  }

  // The manager: an id, or an object with an id and a name.
  lemma ManagerMeans(op: string, p: string, w: string, v: Json, u: User)
    requires (Sets(op) || Removes(op)) && OfExtension(p) && Lower(w) == "manager"
    ensures var m := if v.Object? then Manager(TextOf(Get(v.fields, "value")), TextOf(Get(v.fields, "displayName")))
                     else Manager(TextOf(v), None);
            && Sent(Operation(op, p + w, v), u) == Ok(ExtraChange(op, "manager", m, u))
            && (Sets(op) ==> Means(op, p + w, v, u, Ok(ExtraChange(op, "manager", m, u))))
  {
    SameLetters(w, "manager");
    OpWords(op);
    ExtensionCompiles(op, p, w, v, u);
    OneEdit(u, EditEnterprise("manager", None));
    OneEdit(u, EditEnterprise("manager", Some(ManagerFrom(v))));
  }

  // ---------- Other paths ----------

  lemma CoreStrips(p: string, w: string)
    requires Lower(p) == "urn:" + "ietf:params:scim:schemas:core:2.0:user:" && w != ""
    ensures StripEnterprisePrefix(p + w) == (w, false)
  {
    var path := p + w;
    assert Lower(path)[..|p|] == Lower(p) by {
      assert forall i | 0 <= i < |p| :: Lower(path)[i] == LowerChar(p[i]) == Lower(p)[i];
    }
    assert LowerChar(path[29]) == Lower(p)[29] == "ietf:params:scim:schemas:core:2.0:user:"[25] == 'c';
    assert SCIM_ENTERPRISE_SCHEMA[29] == "ietf:params:scim:schemas:extension:enterprise:2.0:User"[25] == 'e';
    assert Lower(SCIM_ENTERPRISE_SCHEMA)[29] == 'e' && Lower(SCIM_ENTERPRISE_SCHEMA + ":")[29] == 'e';
    OffPrefix(path, Lower(SCIM_ENTERPRISE_SCHEMA), 29);
    OffPrefix(path, Lower(SCIM_ENTERPRISE_SCHEMA + ":"), 29);
    assert path[|p|..] == w;
  }

  // The core URN before a word, in any case, says nothing more than the word.
  lemma CorePath(op: string, p: string, w: string, v: Json, u: User)
    requires Sets(op) || Removes(op)
    requires Lower(p) == "urn:" + "ietf:params:scim:schemas:core:2.0:user:" && Word(w)
    ensures Sent(Operation(op, p + w, v), u) == Sent(Operation(op, w, v), u)
  {
    OpWords(op);
    WordFacts(w);
    SimpleIsNotQualified(w);
    SimpleIsNoUrn(w);
    CoreStrips(p, w);
    assert (p + w)[0] == p[0] && (p + w)[|p + w| - 1] == w[|w| - 1];
    assert LowerChar(p[0]) == Lower(p)[0] == "urn:"[0];
    TrimmedStays(p + w);
    SentMeans(op, w, v, u, CompileAs(ParseOp(op).value, Some(w), v));
    SentMeans(op, p + w, v, u, CompileAs(ParseOp(op).value, Some(w), v));
  }

  // A part of anything but the name is passed over.
  lemma OtherPartsAreSkipped(op: string, a: string, b: string, v: Json, u: User)
    requires (Sets(op) || Removes(op)) && Word(a) && Word(b) && Lower(a) != "name"
    ensures Sent(Operation(op, a + "." + b, v), u) == Ok(u)
    ensures Sets(op) ==> Means(op, a + "." + b, v, u, Ok(u))
  {
    OpWords(op);
    DottedPath(ParseOp(op).value, a, b, v);
    SentMeans(op, a + "." + b, v, u, SKIP);
  }

  lemma DotsAdd(a: string, rest: string)
    requires Word(a)
    ensures SplitDots(a + "." + rest) == [a] + SplitDots(rest)
  {
    var p := a + "." + rest;
    assert forall i | 0 <= i < |a| :: p[i] == a[i];
    F.FirstIndex(p, '.', 0, |a|);
    assert p[..|a|] == a && p[|a| + 1..] == rest;
  }

  lemma SimpleJoins(a: string, rest: string)
    requires Word(a) && Simple(rest) && rest != "" && IsLetter(rest[|rest| - 1])
    ensures var p := a + "." + rest; p != "" && Simple(p) && Trim(p) == p
  {
    var p := a + "." + rest;
    assert p[0] == a[0] && p[|p| - 1] == rest[|rest| - 1];
    TrimmedStays(p);
  }

  lemma ManyDotsFail(op: string, p: string, v: Json, u: User)
    requires Sets(op) || Removes(op)
    requires p != "" && Simple(p) && Trim(p) == p && |SplitDots(p)| > 2
    ensures Sent(Operation(op, p, v), u) == Err(Malformed(TooDeep))
  {
    OpWords(op);
    SimpleIsNoUrn(p);
    SimpleIsNotQualified(p);
    SentMeans(op, p, v, u, Fail(TooDeep));
  }

  // Two dots are one too many.
  lemma DeepPathFails(op: string, a: string, b: string, c: string, v: Json, u: User)
    requires (Sets(op) || Removes(op)) && Word(a) && Word(b) && Word(c)
    ensures Sent(Operation(op, a + "." + (b + "." + c), v), u) == Err(Malformed(TooDeep))
  {
    var rest := b + "." + c;
    DottedSegments(b, c);
    DotsAdd(a, rest);
    assert rest[|rest| - 1] == c[|c| - 1];
    SimpleJoins(a, rest);
    ManyDotsFail(op, a + "." + rest, v, u);
  }

  lemma WordThenBracket(a: string, rest: string)
    requires Word(a)
    ensures var p := a + "[" + rest; p != "" && '[' in p && StripEnterprisePrefix(p) == (p, false)
  {
    var p := a + "[" + rest;
    var k := if |a| < 3 then |a| else 3;
    assert p[|a|] == '[' && (k < |a| ==> p[k] == a[k]);
    assert p[k] == '[' || IsLetter(p[k]);
    OffPrefix(p, Lower(SCIM_ENTERPRISE_SCHEMA), k);
    OffPrefix(p, Lower(SCIM_ENTERPRISE_SCHEMA + ":"), k);
    OffPrefix(p, SCIM_CORE_PREFIX, k);
  }

  lemma UnreadBracketFails(op: string, p: string, v: Json, u: User)
    requires (Sets(op) || Removes(op)) && p != "" && Trim(p) == p && '[' in p && StripEnterprisePrefix(p) == (p, false)
    requires ParseMultiValuedPath(p) == None
    ensures Sent(Operation(op, p, v), u) == Err(Malformed(BadMultiValuedPath))
  {
    OpWords(op);
    SentMeans(op, p, v, u, Fail(BadMultiValuedPath));
  }

  // A path with a bracket after a word is refused unless it has the one shape that is read.
  lemma BracketPathFails(op: string, a: string, rest: string, v: Json, u: User)
    requires (Sets(op) || Removes(op)) && Word(a) && Trim(a + "[" + rest) == a + "[" + rest
    requires forall n, b, c, d, e, f :: !P.Targets(a + "[" + rest, n, b, c, d, e, f)
    ensures Sent(Operation(op, a + "[" + rest, v), u) == Err(Malformed(BadMultiValuedPath))
  {
    var p := a + "[" + rest;
    WordThenBracket(a, rest);
    if ParseMultiValuedPath(p).Some? {
      var n, b, c, d, e, f := P.ParsedTargets(p);
    }
    UnreadBracketFails(op, p, v, u);
  }

  // ---------- The request ----------

  // What is refused before any operation is looked at.
  lemma BodyRefusals(body: Json, u: User)
    ensures var r, schemas := NormalizeSpec(body, u), Lookup(body, "schemas");
            var ops := if Lookup(body, "Operations") in {Undefined, Null} then Lookup(body, "operations") else Lookup(body, "Operations");
            var undeclared := schemas.Array? && forall i | 0 <= i < |schemas.items| ::
                  !(schemas.items[i].String?
                    && Lower(schemas.items[i].s) == Lower("urn:" + "ietf:params:scim:api:messages:2.0:PatchOp"));
            && (r == Err(BodyNotObject) <==> !body.Object?)
            && (r == Err(WrongSchema) <==> body.Object? && undeclared)
            && (r == Err(NoOperations) <==> body.Object? && !undeclared && !(ops.Array? && ops.items != []))
  {
  }

  // And before any is understood: each has to be an object with a text under `op`.
  lemma OperationRefusals(raw: Json, u: User)
    ensures Sent(raw, u) == Err(Malformed(OperationNotObject)) <== !raw.Object?
    ensures Sent(raw, u) == Err(Malformed(OperationWithoutOp)) <== raw.Object? && !Get(raw.fields, "op").String?
  {
    SingleMeans(raw, u);
  }

  // A blank path is none: what is left has to say what it sets, and remove names nothing.
  lemma BlankPath(op: string, path: string, v: Json, u: User)
    requires Trim(path) == ""
    ensures Removes(op) ==> Sent(Operation(op, path, v), u) == Err(Malformed(RemoveNeedsPath)) == Sent(Pathless(op, v), u)
    ensures Sets(op) && !v.Object? ==>
              Sent(Operation(op, path, v), u) == Err(Malformed(PathlessNeedsObject)) == Sent(Pathless(op, v), u)
    ensures Sets(op) ==> Sent(Operation(op, path, v), u) == Sent(Pathless(op, v), u)
  {
    OpWords(op);
    if Sets(op) || Removes(op) {
      OperationCompiles(op, path, v);
      PathlessCompiles(op, v);
      SingleMeans(Operation(op, path, v), u);
      SingleMeans(Pathless(op, v), u);
    }
  }
}
