// Group PATCH: membership keeps the client's intent. "Add these" and "remove
// those" stay what they are until a full replacement swallows both.
module ScimGroup {
  import opened Wrappers
  import opened Text
  import opened Json
  import opened ScimUser
  import P = ScimPatch

  datatype Member = Member(value: string, display: Option<string>)

  datatype GroupPatch = GroupPatch(
    displayName: Option<string>, externalId: Change<string>, members: Option<seq<Member>>,
    addMembers: Option<seq<Member>>, removeMembers: Option<seq<string>>)

  datatype OpError =
    | OperationNotObject | OperationWithoutOp | UnsupportedOp | PathlessNeedsObject | OnlyRemoveTargeted
    | BadMembers | BadPath | DisplayNameRemoved | BadDisplayName | NotPatchable

  datatype GroupError = BodyNotObject | WrongSchema | NoOperations | Malformed(error: OpError) | NoChanges

  datatype Edit =
    | AddMembers(members: seq<Member>)
    | RemoveMembers(ids: seq<string>)
    | ReplaceMembers(members: seq<Member>)
    | SetDisplayName(name: string)
    | SetExternalId(externalId: Option<string>)

  datatype Compiled = Compiled(edits: seq<Edit>, error: Option<OpError>)

  function Only(e: Edit): Compiled {
    Compiled([e], None)
  }

  function Fail(e: OpError): Compiled {
    Compiled([], Some(e))
  }

  // ---------- Values and paths ----------

  // A non-empty string.
  function NonEmptyString(v: Json): Option<string> {
    if v.String? && v.s != "" then Some(v.s) else None
  }

  function MemberOf(v: Json): Option<Member> {
    var id := NonEmptyString(Lookup(v, "value"));
    if !v.Object? || id.None? then None else Some(Member(id.value, NonEmptyString(Lookup(v, "display"))))
  }

  function MembersIn(items: seq<Json>): seq<Member> {
    if items == [] then []
    else
      var last := MemberOf(items[|items| - 1]);
      MembersIn(items[..|items| - 1]) + if last.Some? then [last.value] else []
  }

  // An array, or a bare object where the standard wants one.
  function ParseMembers(v: Json): Option<seq<Member>> {
    if v.Array? then Some(MembersIn(v.items)) else if v.Object? then Some(MembersIn([v])) else None
  }

  function Ids(members: seq<Member>): seq<string> {
    seq(|members|, i requires 0 <= i < |members| => members[i].value)
  }

  // `members[value eq "<id>"]`, white space and case aside.
  function ParseMemberFilterPath(path: string): Option<string> {
    var s := Trim(path);
    if |s| < 8 || Lower(s[..7]) != "members" || s[7] != '[' then None
    else
      var d := P.QualifierStart(s, 8, "value");
      if d.None? then None
      else
        var e := IndexFrom(s, '\"', d.value);
        if e == d.value || e == |s| then None
        else
          var f := SpaceEnd(s, e + 1);
          if f + 1 != |s| || s[f] != ']' then None else Some(s[d.value..e])
  }

  // ---------- Compilation ----------

  function CompileMembers(o: P.Op, value: Json): Compiled {
    if o == P.Remove && value == Undefined then Only(ReplaceMembers([]))
    else
      var members := ParseMembers(value);
      if members.None? then Fail(BadMembers)
      else
        match o
        case Add => Only(AddMembers(members.value))
        case Remove => Only(RemoveMembers(Ids(members.value)))
        case Replace => Only(ReplaceMembers(members.value))
  }

  function CompileAttribute(o: P.Op, path: string, value: Json): Compiled {
    if Lower(path) == "members" then CompileMembers(o, value)
    else if '[' in path then Fail(BadPath)
    else if Lower(path) == "displayname" then
      if o == P.Remove then Fail(DisplayNameRemoved)
      else if NonEmptyString(value).None? then Fail(BadDisplayName)
      else Only(SetDisplayName(value.s))
    else if Lower(path) == "externalid" then Only(SetExternalId(if o == P.Remove then None else AsString(value)))
    else Fail(NotPatchable)
  }

  function CompileAs(o: P.Op, rawPath: Option<string>, value: Json): Compiled
    decreases value
  {
    if rawPath.None? || Trim(rawPath.value) == "" then
      if !value.Object? then Fail(PathlessNeedsObject) else CompileFields(o, value.fields)
    else
      var targeted := ParseMemberFilterPath(Trim(rawPath.value));
      if targeted.None? then CompileAttribute(o, Trim(rawPath.value), value)
      else if o != P.Remove then Fail(OnlyRemoveTargeted)
      else Only(RemoveMembers([targeted.value]))
  }

  function CompileFields(o: P.Op, fields: seq<Field>): Compiled
    decreases fields
  {
    if fields == [] then Compiled([], None)
    else
      var first := CompileAs(o, Some(fields[0].key), fields[0].val);
      if first.error.Some? then first
      else
        var rest := CompileFields(o, fields[1..]);
        Compiled(first.edits + rest.edits, rest.error)
  }

  function Compile(raw: Json): Compiled {
    if !raw.Object? then Fail(OperationNotObject)
    else if !Lookup(raw, "op").String? then Fail(OperationWithoutOp)
    else
      var o := P.ParseOp(Lookup(raw, "op").s);
      if o.None? then Fail(UnsupportedOp)
      else CompileAs(o.value, AsString(Lookup(raw, "path")), Lookup(raw, "value"))
  }

  function CompileAll(ops: seq<Json>): Compiled {
    if ops == [] then Compiled([], None)
    else
      var first := Compile(ops[0]);
      if first.error.Some? then first
      else
        var rest := CompileAll(ops[1..]);
        Compiled(first.edits + rest.edits, rest.error)
  }

  // ---------- Execution ----------

  datatype Draft = Draft(
    displayName: Option<string>, externalId: Change<string>, added: seq<Member>, removed: seq<string>,
    replacement: Option<seq<Member>>)

  const BLANK := Draft(None, Leave, [], [], None)

  predicate Lists(members: seq<Member>, id: string) {
    exists m | m in members :: m.value == id
  }

  // Append what is not there yet, by id.
  function Joined(list: seq<Member>, members: seq<Member>): seq<Member> {
    if members == [] then list
    else
      var front, last := Joined(list, members[..|members| - 1]), members[|members| - 1];
      if Lists(front, last.value) then front else front + [last]
  }

  function JoinedIds(list: seq<string>, ids: seq<string>): seq<string> {
    if ids == [] then list
    else
      var front, last := JoinedIds(list, ids[..|ids| - 1]), ids[|ids| - 1];
      if last in front then front else front + [last]
  }

  function Without(list: seq<Member>, ids: seq<string>): seq<Member> {
    if list == [] then []
    else Without(list[..|list| - 1], ids) + if list[|list| - 1].value in ids then [] else [list[|list| - 1]]
  }

  function Exec(d: Draft, e: Edit): Draft {
    match e
    case AddMembers(members) =>
      if d.replacement.Some? then d.(replacement := Some(Joined(d.replacement.value, members)))
      else d.(added := Joined(d.added, members))
    case RemoveMembers(ids) =>
      if d.replacement.Some? then d.(replacement := Some(Without(d.replacement.value, ids)))
      else d.(removed := JoinedIds(d.removed, ids))
    case ReplaceMembers(members) => d.(replacement := Some(members))
    case SetDisplayName(name) => d.(displayName := Some(name))
    case SetExternalId(s) => d.(externalId := P.FromOption(s))
  }

  function ExecAll(d: Draft, edits: seq<Edit>): Draft
    decreases |edits|
  {
    if edits == [] then d else ExecAll(Exec(d, edits[0]), edits[1..])
  }

  function Finish(d: Draft): GroupPatch {
    if d.replacement.Some? then GroupPatch(d.displayName, d.externalId, d.replacement, None, None)
    else GroupPatch(d.displayName, d.externalId, None, if d.added != [] then Some(d.added) else None,
                    if d.removed != [] then Some(d.removed) else None)
  }

  const UNCHANGED := GroupPatch(None, Leave, None, None, None)

  function NormalizeOps(ops: seq<Json>): Result<GroupPatch, GroupError> {
    var c := CompileAll(ops);
    if c.error.Some? then Err(Malformed(c.error.value))
    else
      var patch := Finish(ExecAll(BLANK, c.edits));
      if patch == UNCHANGED then Err(NoChanges) else Ok(patch)
  }

  function NormalizeSpec(body: Json): Result<GroupPatch, GroupError> {
    if !body.Object? then Err(BodyNotObject)
    else
      var schemas := Lookup(body, "schemas");
      if schemas.Array? && !P.NamesSchema(schemas.items) then Err(WrongSchema)
      else if !P.Operations(body).Array? || P.Operations(body).items == [] then Err(NoOperations)
      else NormalizeOps(P.Operations(body).items)
  }
}
