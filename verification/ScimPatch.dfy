// PATCH normalization: a list of operations over nested JSON becomes one flat
// delta, resolved against the current record. `Compile` says which edits an
// operation stands for, without looking at the record; the draft executes them.
module ScimPatch {
  import opened Wrappers
  import opened Text
  import opened Json
  import opened ScimUser

  const URN := "urn:"
  const SCIM_ENTERPRISE_SCHEMA := URN + "ietf:params:scim:schemas:extension:enterprise:2.0:User"
  const SCIM_CORE_PREFIX := URN + "ietf:params:scim:schemas:core:2.0:user:"
  const SCIM_PATCH_SCHEMA := URN + "ietf:params:scim:api:messages:2.0:PatchOp"

  // What can be wrong with one operation, and with a request.
  datatype OpError =
    | OperationNotObject | OperationWithoutOp | UnsupportedOp | RemoveNeedsPath | PathlessNeedsObject
    | OnlyValueSub | BadMultiValuedPath | TooDeep | NotAString | EnterpriseNeedsObject | NameNeedsObject
    | BadNameSub | ActiveRemoved | NotBoolean | UserNameRemoved | BadUserName | NotAnArray

  datatype PatchError = BodyNotObject | WrongSchema | NoOperations | Malformed(error: OpError) | NoChanges

  datatype Op = Add | Replace | Remove

  datatype List = OfEmails | OfPhoneNumbers

  // One edit of the draft. `None` deletes the key.
  datatype Edit =
    | Upsert(list: List, kind: string, value: string)
    | RemoveKind(list: List, kind: string)
    | SetList(list: List, entries: seq<MultiValue>)
    | ClearList(list: List)
    | MergeName(names: Name)
    | ReplaceName(names: Name)
    | EditName(key: string, text: Option<string>)
    | ClearName
    | EditEnterprise(key: string, extra: Option<Extra>)
    | ClearEnterprise
    | SetActive(active: bool)
    | SetUserName(userName: string)
    | SetExternalId(externalId: Option<string>)
    | SetDisplayName(displayName: Option<string>)

  // The edits made before the first error, if there is one.
  datatype Compiled = Compiled(edits: seq<Edit>, error: Option<OpError>)

  const SKIP := Compiled([], None)

  function Only(e: Edit): Compiled {
    Compiled([e], None)
  }

  function Fail(e: OpError): Compiled {
    Compiled([], Some(e))
  }

  // ---------- Paths and values ----------

  function ParseOp(op: string): Option<Op> {
    var operation := Lower(op);
    if operation == "add" then Some(Add)
    else if operation == "replace" then Some(Replace)
    else if operation == "remove" then Some(Remove)
    else None
  }

  function CoerceBoolean(v: Json): Option<bool> {
    if v.Bool? then Some(v.b)
    else if v.String? && Lower(v.s) == "true" then Some(true)
    else if v.String? && Lower(v.s) == "false" then Some(false)
    else None
  }

  predicate StartsWith(s: string, prefix: string) {
    |prefix| <= |s| && s[..|prefix|] == prefix
  }

  function StripEnterprisePrefix(path: string): (string, bool) {
    var urn := SCIM_ENTERPRISE_SCHEMA;
    if Lower(path) == Lower(urn) then ("", true)
    else if StartsWith(Lower(path), Lower(urn + ":")) then (path[|urn| + 1..], true)
    else if StartsWith(Lower(path), SCIM_CORE_PREFIX) then (path[|SCIM_CORE_PREFIX|..], false)
    else (path, false)
  }

  datatype MultiValuedPath = MultiValuedPath(attribute: string, kind: string, sub: string)

  // Past the word, `eq` and the opening quote, white space and case aside.
  function QualifierStart(s: string, i: nat, word: string): (r: Option<nat>)
    requires i <= |s|
    ensures r.Some? ==> i < r.value <= |s|
  {
    var b := SpaceEnd(s, i);
    if b + |word| > |s| || Lower(s[b..b + |word|]) != word then None
    else
      var c := SpaceEnd(s, b + |word|);
      if c == b + |word| || c + 2 > |s| || Lower(s[c..c + 2]) != "eq" then None
      else
        var d := SpaceEnd(s, c + 2);
        if d == c + 2 || d == |s| || s[d] != '\"' then None else Some(d + 1)
  }

  // From the closing quote: `].` and letters to the end.
  function QualifiedSub(s: string, e: nat): Option<string>
    requires e < |s|
  {
    var f := SpaceEnd(s, e + 1);
    if f + 2 >= |s| || s[f] != ']' || s[f + 1] != '.' || LetterEnd(s, f + 2) != |s| then None
    else Some(Lower(s[f + 2..]))
  }

  // `<letters>[type eq "<kind>"].<letters>`
  function ParseMultiValuedPath(path: string): (r: Option<MultiValuedPath>)
    ensures r.Some? ==> r.value.kind != ""
  {
    var s := Trim(path);
    var a := LetterEnd(s, 0);
    if a == 0 || a == |s| || s[a] != '[' then None
    else
      var d := QualifierStart(s, a + 1, "type");
      if d.None? then None
      else
        var e := IndexFrom(s, '\"', d.value);
        if e == d.value || e == |s| then None
        else
          var sub := QualifiedSub(s, e);
          if sub.None? then None else Some(MultiValuedPath(Lower(s[..a]), s[d.value..e], sub.value))
  }

  function SplitDots(s: string): (r: seq<string>)
    ensures |r| >= 1
    decreases |s|
  {
    var i := IndexFrom(s, '.', 0);
    if i == |s| then [s] else [s[..i]] + SplitDots(s[i + 1..])
  }

  // The tables are plain objects, so two lower-case keys find what every object inherits.
  function Inherited(key: string): Option<string> {
    if key == "constructor" then Some("function Object() { [native code] }")
    else if key == "__proto__" then Some("[object Object]")
    else None
  }

  function NameSub(key: string): Option<string> {
    if key == "formatted" then Some("formatted")
    else if key == "familyname" then Some("familyName")
    else if key == "givenname" then Some("givenName")
    else if key == "middlename" then Some("middleName")
    else if key == "honorificprefix" then Some("honorificPrefix")
    else if key == "honorificsuffix" then Some("honorificSuffix")
    else None
  }

  function NameCanonical(key: string): Option<string> {
    if NameSub(key).Some? then NameSub(key) else Inherited(key)
  }

  function EnterpriseSub(key: string): Option<string> {
    if key == "employeenumber" then Some("employeeNumber")
    else if key == "costcenter" then Some("costCenter")
    else if key == "organization" then Some("organization")
    else if key == "division" then Some("division")
    else if key == "department" then Some("department")
    else Inherited(key)
  }

  // The name parts an object carries; a later field wins.
  function NameEntries(fields: seq<Field>): Name {
    if fields == [] then map[]
    else
      var f := fields[|fields| - 1];
      var front := NameEntries(fields[..|fields| - 1]);
      var key := NameCanonical(Lower(f.key));
      if key.Some? && f.val.String? then front[key.value := f.val.s] else front
  }

  function Entry(v: Json): Option<MultiValue> {
    var value := Lookup(v, "value");
    var kind := Lookup(v, "type");
    var primary := Lookup(v, "primary");
    if !v.Object? || !value.String? then None
    else Some(MultiValue(value.s, AsString(kind), if primary.Bool? then Some(primary.b) else None))
  }

  function Entries(items: seq<Json>): seq<MultiValue> {
    if items == [] then []
    else
      var last := Entry(items[|items| - 1]);
      Entries(items[..|items| - 1]) + if last.Some? then [last.value] else []
  }

  function ManagerFrom(v: Json): Extra {
    if v.Object? then Manager(AsString(Lookup(v, "value")), AsString(Lookup(v, "displayName")))
    else Manager(AsString(v), None)
  }

  // ---------- Compilation ----------

  function CompileMultiValued(o: Op, mv: MultiValuedPath, value: Json): Compiled {
    if mv.attribute != "emails" && mv.attribute != "phonenumbers" then SKIP
    else if mv.sub != "value" then Fail(OnlyValueSub)
    else
      var list := if mv.attribute == "emails" then OfEmails else OfPhoneNumbers;
      if o == Remove then Only(RemoveKind(list, mv.kind))
      else if !value.String? then Fail(NotAString)
      else Only(Upsert(list, mv.kind, value.s))
  }

  function CompileEnterprise(o: Op, head: string, value: Json): Compiled {
    if head == "manager" then Only(EditEnterprise("manager", if o == Remove then None else Some(ManagerFrom(value))))
    else if EnterpriseSub(head).None? then SKIP
    else if o == Remove then Only(EditEnterprise(EnterpriseSub(head).value, None))
    else if !value.String? then Fail(NotAString)
    else Only(EditEnterprise(EnterpriseSub(head).value, Some(Text(value.s))))
  }

  function CompileName(o: Op, sub: Option<string>, value: Json): Compiled {
    if sub.None? then
      if o == Remove then Only(ClearName)
      else if !value.Object? then Fail(NameNeedsObject)
      else Only(if o == Add then MergeName(NameEntries(value.fields)) else ReplaceName(NameEntries(value.fields)))
    else if NameSub(sub.value).None? then Fail(BadNameSub)
    else if o == Remove then Only(EditName(NameSub(sub.value).value, None))
    else if !value.String? then Fail(NotAString)
    else Only(EditName(NameSub(sub.value).value, Some(value.s)))
  }

  function CompileList(o: Op, list: List, value: Json): Compiled {
    if o == Remove then Only(ClearList(list))
    else if !value.Array? then Fail(NotAnArray)
    else Only(SetList(list, Entries(value.items)))
  }

  function CompileSimple(o: Op, head: string, value: Json): Compiled {
    if head == "active" then
      if o == Remove then Fail(ActiveRemoved)
      else if CoerceBoolean(value).None? then Fail(NotBoolean)
      else Only(SetActive(CoerceBoolean(value).value))
    else if head == "username" then
      if o == Remove then Fail(UserNameRemoved)
      else if !value.String? || value.s == "" then Fail(BadUserName)
      else Only(SetUserName(value.s))
    else if head == "externalid" then Only(SetExternalId(if o == Remove then None else AsString(value)))
    else if head == "displayname" then Only(SetDisplayName(if o == Remove then None else AsString(value)))
    else if head == "emails" then CompileList(o, OfEmails, value)
    else if head == "phonenumbers" then CompileList(o, OfPhoneNumbers, value)
    else SKIP
  }

  function CompileSegments(o: Op, segments: seq<string>, enterprise: bool, value: Json): Compiled
    requires |segments| >= 1
  {
    var head := Lower(segments[0]);
    var sub := if |segments| > 1 then Some(Lower(segments[1])) else None;
    if enterprise then CompileEnterprise(o, head, value)
    else if head == "name" then CompileName(o, sub, value)
    else if sub.Some? then SKIP
    else CompileSimple(o, head, value)
  }

  // The recursion goes into the JSON value: a pathless operation and the bare
  // extension URN both fan out over an object's fields.
  function CompileAs(o: Op, rawPath: Option<string>, value: Json): Compiled
    decreases value
  {
    if rawPath.None? || Trim(rawPath.value) == "" then
      if o == Remove then Fail(RemoveNeedsPath)
      else if !value.Object? then Fail(PathlessNeedsObject)
      else CompileFields(o, "", value.fields)
    else
      var (stripped, enterprise) := StripEnterprisePrefix(Trim(rawPath.value));
      var mv := ParseMultiValuedPath(stripped);
      if mv.Some? then CompileMultiValued(o, mv.value, value)
      else if '[' in stripped then Fail(BadMultiValuedPath)
      else if |SplitDots(stripped)| > 2 then Fail(TooDeep)
      else if enterprise && stripped == "" then
        if o == Remove then Only(ClearEnterprise)
        else if !value.Object? then Fail(EnterpriseNeedsObject)
        else CompileFields(o, SCIM_ENTERPRISE_SCHEMA + ":", value.fields)
      else CompileSegments(o, SplitDots(stripped), enterprise, value)
  }

  function CompileFields(o: Op, prefix: string, fields: seq<Field>): Compiled
    decreases fields
  {
    if fields == [] then SKIP
    else
      var first := CompileAs(o, Some(prefix + fields[0].key), fields[0].val);
      if first.error.Some? then first
      else
        var rest := CompileFields(o, prefix, fields[1..]);
        Compiled(first.edits + rest.edits, rest.error)
  }

  function Compile(raw: Json): Compiled {
    if !raw.Object? then Fail(OperationNotObject)
    else if !Lookup(raw, "op").String? then Fail(OperationWithoutOp)
    else
      var o := ParseOp(Lookup(raw, "op").s);
      if o.None? then Fail(UnsupportedOp)
      else CompileAs(o.value, AsString(Lookup(raw, "path")), Lookup(raw, "value"))
  }

  function CompileAll(ops: seq<Json>): Compiled {
    if ops == [] then SKIP
    else
      var first := Compile(ops[0]);
      if first.error.Some? then first
      else
        var rest := CompileAll(ops[1..]);
        Compiled(first.edits + rest.edits, rest.error)
  }

  // ---------- Execution ----------

  datatype Draft = Draft(
    patch: Delta, emails: Option<seq<MultiValue>>, phoneNumbers: Option<seq<MultiValue>>,
    name: Option<Name>, enterprise: Option<Enterprise>)

  function StartFrom(u: User): Draft {
    Draft(NO_CHANGE, u.emails, u.phoneNumbers, u.name, u.enterprise)
  }

  function OrEmpty<T>(s: Option<seq<T>>): seq<T> {
    if s.Some? then s.value else []
  }

  function OrNone<K, V>(m: Option<map<K, V>>): map<K, V> {
    if m.Some? then m.value else map[]
  }

  // An empty list, or an empty name, is announced as cleared.
  function ListChange(list: seq<MultiValue>): Change<seq<MultiValue>> {
    if list != [] then Set(list) else Clear
  }

  function NameChange(names: Name): Change<Name> {
    if names != map[] then Set(names) else Clear
  }

  function PutList(d: Draft, l: List, working: Option<seq<MultiValue>>, change: Change<seq<MultiValue>>): Draft {
    match l
    case OfEmails => d.(emails := working, patch := d.patch.(emails := change))
    case OfPhoneNumbers => d.(phoneNumbers := working, patch := d.patch.(phoneNumbers := change))
  }

  function PutName(d: Draft, names: Name): Draft {
    d.(name := Some(names), patch := d.patch.(name := NameChange(names)))
  }

  function Edited<K, V>(m: map<K, V>, key: K, v: Option<V>): map<K, V> {
    if v.Some? then m[key := v.value] else m - {key}
  }

  function FromOption(s: Option<string>): Change<string> {
    if s.Some? then Set(s.value) else Clear
  }

  function Working(d: Draft, l: List): seq<MultiValue> {
    OrEmpty(if l == OfEmails then d.emails else d.phoneNumbers)
  }

  function Exec(d: Draft, e: Edit): Draft {
    match e
    case Upsert(l, kind, value) =>
      var next := UpsertByType(Working(d, l), kind, value);
      PutList(d, l, Some(next), Set(next))
    case RemoveKind(l, kind) =>
      var kept := WithoutKind(Working(d, l), kind);
      PutList(d, l, Some(kept), ListChange(kept))
    case SetList(l, entries) => PutList(d, l, Some(entries), ListChange(entries))
    case ClearList(l) => PutList(d, l, None, Clear)
    case MergeName(names) => PutName(d, OrNone(d.name) + names)
    case ReplaceName(names) => PutName(d, names)
    case EditName(key, text) => PutName(d, Edited(OrNone(d.name), key, text))
    case ClearName => d.(name := None, patch := d.patch.(name := Clear))
    case EditEnterprise(key, extra) =>
      var current := Edited(OrNone(d.enterprise), key, extra);
      d.(enterprise := Some(current), patch := d.patch.(enterprise := Set(current)))
    case ClearEnterprise => d.(enterprise := None, patch := d.patch.(enterprise := Clear))
    case SetActive(b) => d.(patch := d.patch.(active := Some(b)))
    case SetUserName(s) => d.(patch := d.patch.(userName := Some(s)))
    case SetExternalId(s) => d.(patch := d.patch.(externalId := FromOption(s)))
    case SetDisplayName(s) => d.(patch := d.patch.(displayName := FromOption(s)))
  }

  function ExecAll(d: Draft, edits: seq<Edit>): Draft
    decreases |edits|
  {
    if edits == [] then d else ExecAll(Exec(d, edits[0]), edits[1..])
  }

  // ---------- Normalization ----------

  function NormalizeOps(ops: seq<Json>, current: User): Result<Delta, PatchError> {
    var c := CompileAll(ops);
    if c.error.Some? then Err(Malformed(c.error.value))
    else
      var patch := ExecAll(StartFrom(current), c.edits).patch;
      if Touched(patch) == {} then Err(NoChanges) else Ok(patch)
  }

  predicate NamesSchema(items: seq<Json>) {
    exists i | 0 <= i < |items| :: items[i].String? && Lower(items[i].s) == Lower(SCIM_PATCH_SCHEMA)
  }

  function Operations(body: Json): Json {
    var ops := Lookup(body, "Operations");
    if ops.Undefined? || ops.Null? then Lookup(body, "operations") else ops
  }

  function NormalizeSpec(body: Json, current: User): Result<Delta, PatchError> {
    if !body.Object? then Err(BodyNotObject)
    else
      var schemas := Lookup(body, "schemas");
      if schemas.Array? && !NamesSchema(schemas.items) then Err(WrongSchema)
      else if !Operations(body).Array? || Operations(body).items == [] then Err(NoOperations)
      else NormalizeOps(Operations(body).items, current)
  }
}
