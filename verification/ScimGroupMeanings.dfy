// What one operation on a group asks of the host: the delta it becomes, for every
// value, or the error; and how lists of members are merged.
module ScimGroupMeanings {
  import opened Wrappers
  import opened Text
  import opened Json
  import opened ScimUser
  import opened ScimGroup
  import G = ScimGroupTheorems
  import P = ScimPatch
  import S = ScimShapes
  import T = ScimPatchTheorems
  import F = ScimFilterTheorems
  import M = ScimFilterMeanings
  import Paths = ScimPaths

  // ---------- Members in a request ----------

  // A member is an object with a non-empty id under `value`, and a non-empty name
  // under `display` if it has one.
  function MemberIn(v: Json): seq<Member> {
    if v.Object? && Get(v.fields, "value").String? && Get(v.fields, "value").s != "" then
      var display := Get(v.fields, "display");
      [Member(Get(v.fields, "value").s, if display.String? && display.s != "" then Some(display.s) else None)]
    else []
  }

  function Listed(items: seq<Json>): seq<Member> {
    if items == [] then [] else MemberIn(items[0]) + Listed(items[1..])
  }

  lemma {:induction false} ListedAppends(items: seq<Json>, v: Json)
    ensures Listed(items + [v]) == Listed(items) + MemberIn(v)
  {
    if items == [] {
      assert [v][1..] == [] && items + [v] == [v];
    } else {
      assert (items + [v])[1..] == items[1..] + [v];
      ListedAppends(items[1..], v);
      F.Regroup(MemberIn(items[0]), Listed(items[1..]), MemberIn(v));
    }
  }

  lemma {:induction false} MembersAreListed(items: seq<Json>)
    ensures MembersIn(items) == Listed(items)
  {
    if items != [] {
      var front, v := items[..|items| - 1], items[|items| - 1];
      MembersAreListed(front);
      ListedAppends(front, v);
      assert items == front + [v];
    }
  }

  // A list, or one member by itself.
  lemma MembersOf(v: Json)
    ensures ParseMembers(v) == if v.Array? then Some(Listed(v.items)) else if v.Object? then Some(MemberIn(v)) else None
  {
    if v.Array? {
      MembersAreListed(v.items);
    } else if v.Object? {
      MembersAreListed([v]);
      assert [v][1..] == [] && MemberIn(v) + [] == MemberIn(v);
      assert Listed([v]) == MemberIn(v) + Listed([v][1..]);
    }
  }

  // ---------- Merging ----------

  // Of the members from `i` on, in their order, each that is new by its id.
  function News(list: seq<Member>, members: seq<Member>, i: nat): seq<Member>
    requires i <= |members|
    decreases |members| - i
  {
    if i == |members| then []
    else
      (if !Lists(list, members[i].value) && !Lists(members[..i], members[i].value) then [members[i]] else [])
      + News(list, members, i + 1)
  }

  lemma {:induction false} NewsGrow(list: seq<Member>, members: seq<Member>, m: Member, i: nat)
    requires i <= |members|
    ensures News(list, members + [m], i)
         == News(list, members, i) + if !Lists(list, m.value) && !Lists(members, m.value) then [m] else []
    decreases |members| - i
  {
    var more := members + [m];
    if i == |members| {
      assert more[..i] == members;
      assert News(list, more, i + 1) == [];
    } else {
      assert more[..i] == members[..i] && more[i] == members[i];
      NewsGrow(list, members, m, i + 1);
      var x := if !Lists(list, members[i].value) && !Lists(members[..i], members[i].value) then [members[i]] else [];
      F.Regroup(x, News(list, members, i + 1), if !Lists(list, m.value) && !Lists(members, m.value) then [m] else []);
    }
  }

  lemma JoinedLists(list: seq<Member>, members: seq<Member>, id: string)
    ensures Lists(Joined(list, members), id) <==> Lists(list, id) || Lists(members, id)
  {
    G.JoinedSet(list, members);
    assert id in G.IdSet(Joined(list, members)) <==> Lists(Joined(list, members), id);
    assert id in G.IdSet(list) <==> Lists(list, id);
    assert id in G.IdSet(members) <==> Lists(members, id);
  }

  // Adding members appends the new ones, each once, as it first comes.
  lemma {:induction false} JoinedAppendsNews(list: seq<Member>, members: seq<Member>)
    ensures Joined(list, members) == list + News(list, members, 0)
  {
    if members != [] {
      var front, m := members[..|members| - 1], members[|members| - 1];
      JoinedAppendsNews(list, front);
      JoinedLists(list, front, m.value);
      NewsGrow(list, front, m, 0);
      assert members == front + [m];
      var n := if !Lists(list, m.value) && !Lists(front, m.value) then [m] else [];
      assert (list + News(list, front, 0)) + n == list + (News(list, front, 0) + n);
    }
  }

  function NewIds(list: seq<string>, ids: seq<string>, i: nat): seq<string>
    requires i <= |ids|
    decreases |ids| - i
  {
    if i == |ids| then []
    else (if ids[i] !in list && ids[i] !in ids[..i] then [ids[i]] else []) + NewIds(list, ids, i + 1)
  }

  lemma {:induction false} NewIdsGrow(list: seq<string>, ids: seq<string>, id: string, i: nat)
    requires i <= |ids|
    ensures NewIds(list, ids + [id], i) == NewIds(list, ids, i) + if id !in list && id !in ids then [id] else []
    decreases |ids| - i
  {
    var more := ids + [id];
    if i == |ids| {
      assert more[..i] == ids;
      assert NewIds(list, more, i + 1) == [];
    } else {
      assert more[..i] == ids[..i];
      NewIdsGrow(list, ids, id, i + 1);
    }
  }

  lemma {:induction false} JoinedIdsAppendNews(list: seq<string>, ids: seq<string>)
    ensures JoinedIds(list, ids) == list + NewIds(list, ids, 0)
  {
    if ids != [] {
      var front, id := ids[..|ids| - 1], ids[|ids| - 1];
      JoinedIdsAppendNews(list, front);
      G.JoinedIdsSet(list, front);
      assert id in JoinedIds(list, front) <==> id in G.SetOf(list) + G.SetOf(front);
      NewIdsGrow(list, front, id, 0);
      assert ids == front + [id];
      var n := if id !in list && id !in front then [id] else [];
      assert (list + NewIds(list, front, 0)) + n == list + (NewIds(list, front, 0) + n);
    }
  }

  // Taking ids out leaves the others as they are, in their order.
  function Staying(list: seq<Member>, ids: seq<string>): seq<Member> {
    if list == [] then [] else (if list[0].value in ids then [] else [list[0]]) + Staying(list[1..], ids)
  }

  lemma {:induction false} StayingAppends(list: seq<Member>, m: Member, ids: seq<string>)
    ensures Staying(list + [m], ids) == Staying(list, ids) + if m.value in ids then [] else [m]
  {
    if list == [] {
      assert [m][1..] == [] && list + [m] == [m];
    } else {
      assert (list + [m])[1..] == list[1..] + [m];
      StayingAppends(list[1..], m, ids);
      F.Regroup(if list[0].value in ids then [] else [list[0]], Staying(list[1..], ids), if m.value in ids then [] else [m]);
    }
  }

  lemma {:induction false} WithoutIsStaying(list: seq<Member>, ids: seq<string>)
    ensures Without(list, ids) == Staying(list, ids)
  {
    if list != [] {
      var front, m := list[..|list| - 1], list[|list| - 1];
      WithoutIsStaying(front, ids);
      StayingAppends(front, m, ids);
      assert list == front + [m];
    }
  }

  // ---------- One operation ----------

  function Sent(raw: Json): Result<GroupPatch, GroupError> {
    NormalizeSpec(T.Single(raw))
  }

  // Both spellings: the attribute in the path, and as the only key of a pathless object.
  predicate Means(op: string, path: string, v: Json, r: Result<GroupPatch, GroupError>) {
    Sent(S.Operation(op, path, v)) == r && Sent(S.Pathless(op, Object([Field(path, v)]))) == r
  }

  function Answer(c: Compiled): Result<GroupPatch, GroupError> {
    if c.error.Some? then Err(Malformed(c.error.value))
    else
      var p := Finish(ExecAll(BLANK, c.edits));
      if p == UNCHANGED then Err(NoChanges) else Ok(p)
  }

  lemma SentAnswers(raw: Json)
    ensures Sent(raw) == Answer(Compile(raw))
  {
    assert "Operations"[0] != "schemas"[0];
    T.OneField("Operations", Array([raw]), "schemas");
    assert [raw][1..] == [] && CompileAll([]) == Compiled([], None);
    assert Compile(raw).edits + [] == Compile(raw).edits;
    assert CompileAll([raw]) == Compile(raw) || CompileAll([raw]) == Compiled(Compile(raw).edits, None);
  }

  lemma OneFieldCompiles(o: P.Op, path: string, v: Json)
    ensures CompileFields(o, [Field(path, v)]) == CompileAs(o, Some(path), v)
  {
    var c := CompileAs(o, Some(path), v);
    assert [Field(path, v)][1..] == [] && CompileFields(o, []) == Compiled([], None);
    assert c.edits + [] == c.edits;
    assert c.error.None? ==> c == Compiled(c.edits, None);
  }

  lemma SentMeans(op: string, path: string, v: Json, c: Compiled)
    requires P.ParseOp(op).Some? && CompileAs(P.ParseOp(op).value, Some(path), v) == c
    ensures Means(op, path, v, Answer(c))
  {
    var o, whole := P.ParseOp(op).value, Object([Field(path, v)]);
    S.OperationReads(op, path, v);
    S.PathlessReads(op, whole);
    OneFieldCompiles(o, path, v);
    assert CompileAs(o, None, whole) == c;
    SentAnswers(S.Operation(op, path, v));
    SentAnswers(S.Pathless(op, whole));
  }

  lemma OneEdit(e: Edit)
    ensures ExecAll(BLANK, [e]) == Exec(BLANK, e)
  {
    assert [e][1..] == [];
  }

  function Nobody<T>(list: seq<T>): Option<seq<T>> {
    if list == [] then None else Some(list)
  }

  function OnlyMembers(members: Option<seq<Member>>, added: Option<seq<Member>>, removed: Option<seq<string>>)
    : Result<GroupPatch, GroupError>
  {
    if members.None? && added.None? && removed.None? then Err(NoChanges)
    else Ok(GroupPatch(None, Leave, members, added, removed))
  }

  predicate Known(op: string) {
    S.Adds(op) || S.Replaces(op) || S.Removes(op)
  }

  lemma WordAnswers(op: string, path: string, v: Json)
    requires Known(op) && S.Word(path)
    ensures P.ParseOp(op).Some? && Means(op, path, v, Answer(CompileAttribute(P.ParseOp(op).value, path, v)))
  {
    S.OpWords(op);
    S.WordFacts(path);
    assert Trim(path) == path && '[' !in path;
    assert ParseMemberFilterPath(path) == None;
    SentMeans(op, path, v, CompileAttribute(P.ParseOp(op).value, path, v));
  }

  function Values(members: seq<Member>): seq<string> {
    if members == [] then [] else [members[0].value] + Values(members[1..])
  }

  lemma {:induction false} IdsAreValues(members: seq<Member>)
    ensures Ids(members) == Values(members)
  {
    if members != [] {
      IdsAreValues(members[1..]);
      assert Ids(members) == [members[0].value] + Ids(members[1..]);
    }
  }

  lemma AdditionAnswers(members: seq<Member>)
    ensures Answer(Only(AddMembers(members))) == OnlyMembers(None, Nobody(News([], members, 0)), None)
  {
    OneEdit(AddMembers(members));
    JoinedAppendsNews([], members);
    assert [] + News([], members, 0) == News([], members, 0);
  }

  lemma RemovalAnswers(ids: seq<string>)
    ensures Answer(Only(RemoveMembers(ids))) == OnlyMembers(None, None, Nobody(NewIds([], ids, 0)))
  {
    OneEdit(RemoveMembers(ids));
    JoinedIdsAppendNews([], ids);
    assert [] + NewIds([], ids, 0) == NewIds([], ids, 0);
  }

  lemma ReplacementAnswers(members: seq<Member>)
    ensures Answer(Only(ReplaceMembers(members))) == OnlyMembers(Some(members), None, None)
  {
    OneEdit(ReplaceMembers(members));
  }

  // Members to add, to take out, or to be all there are; without a value, a removal
  // leaves nobody. Names and order are those of the request, and each id comes once.
  lemma MembersMean(op: string, path: string, v: Json)
    requires Known(op) && Lower(path) == "members"
    ensures var listed := if v.Array? then Some(Listed(v.items)) else if v.Object? then Some(MemberIn(v)) else None;
            Means(op, path, v,
                  if S.Removes(op) && v.Undefined? then OnlyMembers(Some([]), None, None)
                  else if listed.None? then Err(Malformed(BadMembers))
                  else if S.Adds(op) then OnlyMembers(None, Nobody(News([], listed.value, 0)), None)
                  else if S.Removes(op) then OnlyMembers(None, None, Nobody(NewIds([], Values(listed.value), 0)))
                  else OnlyMembers(listed, None, None))
  {
    S.OpWords(op);
    MembersOf(v);
    assert forall i | 0 <= i < |path| :: LowerChar(path[i]) == "members"[i];
    WordAnswers(op, path, v);
    ReplacementAnswers([]);
    var members := ParseMembers(v);
    if members.Some? {
      AdditionAnswers(members.value);
      IdsAreValues(members.value);
      RemovalAnswers(Ids(members.value));
      ReplacementAnswers(members.value);
    }
  }

  lemma DisplayNameMeans(op: string, path: string, v: Json)
    requires Known(op) && Lower(path) == "displayname"
    ensures Means(op, path, v,
                  if S.Removes(op) then Err(Malformed(DisplayNameRemoved))
                  else if v.String? && v.s != "" then Ok(GroupPatch(Some(v.s), Leave, None, None, None))
                  else Err(Malformed(BadDisplayName)))
  {
    S.OpWords(op);
    assert "displayname"[0] != "members"[0];
    assert forall i | 0 <= i < |path| :: LowerChar(path[i]) == "displayname"[i];
    WordAnswers(op, path, v);
    if v.String? { OneEdit(SetDisplayName(v.s)); }
  }

  lemma ExternalIdMeans(op: string, path: string, v: Json)
    requires Known(op) && Lower(path) == "externalid"
    ensures Means(op, path, v,
                  Ok(GroupPatch(None, if v.String? && !S.Removes(op) then Set(v.s) else Clear, None, None, None)))
  {
    S.OpWords(op);
    assert "externalid"[0] != "members"[0] && "externalid"[0] != "displayname"[0];
    assert forall i | 0 <= i < |path| :: LowerChar(path[i]) == "externalid"[i];
    WordAnswers(op, path, v);
    OneEdit(SetExternalId(if v.String? && !S.Removes(op) then Some(v.s) else None));
  }

  // Nothing else of a group can be patched, and no other operation exists.
  lemma OtherWordsFail(op: string, path: string, v: Json)
    requires Known(op) && S.Word(path) && Lower(path) !in ["members", "displayname", "externalid"]
    ensures Means(op, path, v, Err(Malformed(NotPatchable)))
  {
    WordAnswers(op, path, v);
    assert '[' !in path;
  }

  lemma OtherOpsFail(op: string, path: string, v: Json)
    requires !Known(op)
    ensures Means(op, path, v, Err(Malformed(UnsupportedOp)))
  {
    S.OpWords(op);
    S.OperationReads(op, path, v);
    S.PathlessReads(op, Object([Field(path, v)]));
    SentAnswers(S.Operation(op, path, v));
    SentAnswers(S.Pathless(op, Object([Field(path, v)])));
  }

  lemma TargetedParses(id: string)
    requires id != "" && '\"' !in id
    ensures var s := G.TargetedPath(id); s != "" && Trim(s) == s && ParseMemberFilterPath(s) == Some(id)
  {
    var s := G.TargetedPath(id);
    G.TargetedLayout(id);
    G.TargetedScans(s, 18 + |id|);
    assert s[0] == s[..7][0] && s[|s| - 1] == ']';
    TrimmedStays(s);
  }

  lemma SentTargeted(op: string, s: string, id: string, v: Json)
    requires Known(op) && s != "" && Trim(s) == s && ParseMemberFilterPath(s) == Some(id)
    ensures Means(op, s, v, if S.Removes(op) then OnlyMembers(None, None, Some([id])) else Err(Malformed(OnlyRemoveTargeted)))
  {
    S.OpWords(op);
    SentMeans(op, s, v, if S.Removes(op) then Only(RemoveMembers([id])) else Fail(OnlyRemoveTargeted));
    OneEdit(RemoveMembers([id]));
    assert JoinedIds([], [id]) == [id] by {
      assert [id][..0] == [] && JoinedIds([], [id][..0]) == [] && [] + [id] == [id];
    }
  }

  // One member named in the path can only be removed.
  lemma TargetedMeans(op: string, id: string, v: Json)
    requires Known(op) && id != "" && '\"' !in id
    ensures Means(op, G.TargetedPath(id), v,
                  if S.Removes(op) then OnlyMembers(None, None, Some([id])) else Err(Malformed(OnlyRemoveTargeted)))
  {
    TargetedParses(id);
    SentTargeted(op, G.TargetedPath(id), id, v);
  }

  // `members[value eq "…"]` with the words in any case and white space between them.
  ghost predicate Targets(s: string, b: nat, c: nat, d: nat, e: nat) {
    && M.Reads(s, 0, "members") && Paths.Qualifies(s, 8, "value", b, c, d) && s[7] == '['
    && d < e < |s| && (forall k | d <= k < e :: s[k] != '\"') && s[e] == '\"'
    && Paths.Spaces(s, e + 1, |s| - 1) && s[|s| - 1] == ']'
  }

  lemma TargetsParse(path: string, b: nat, c: nat, d: nat, e: nat)
    requires Targets(Trim(path), b, c, d, e)
    ensures ParseMemberFilterPath(path) == Some(Trim(path)[d..e])
  {
    var s := Trim(path);
    M.ReadsLower(s, 0, "members");
    assert s[0..7] == s[..7];
    Paths.QualifiesIsStart(s, 8, "value", b, c, d);
    F.FirstIndex(s, '\"', d, e);
    M.SpacesThen(s, e + 1, |s| - 1);
  }

  lemma ParsedTargets(path: string) returns (b: nat, c: nat, d: nat, e: nat)
    requires ParseMemberFilterPath(path).Some?
    ensures Targets(Trim(path), b, c, d, e)
  {
    var s := Trim(path);
    M.ReadsLower(s, 0, "members");
    assert s[0..7] == s[..7];
    b, c := Paths.StartQualifies(s, 8, "value");
    d := P.QualifierStart(s, 8, "value").value;
    e := IndexFrom(s, '\"', d);
    forall k | d <= k < e ensures s[k] != '\"' { assert s[d..e][k - d] == s[k] && s[k] in s[d..e]; }
  }

  lemma NoBracketInWord(p: string)
    requires Lower(p) == "members"
    ensures '[' !in p
  {
    assert forall i | 0 <= i < |p| :: LowerChar(p[i]) == "members"[i];
  }

  lemma UnreadBracketFails(op: string, p: string, v: Json)
    requires Known(op) && p != "" && Trim(p) == p && '[' in p && Lower(p) != "members"
    requires ParseMemberFilterPath(p) == None
    ensures Means(op, p, v, Err(Malformed(BadPath)))
  {
    S.OpWords(op);
    SentMeans(op, p, v, Fail(BadPath));
  }

  // Any other path with a bracket is refused.
  lemma BracketPathFails(op: string, p: string, v: Json)
    requires Known(op) && p != "" && Trim(p) == p && '[' in p && forall b, c, d, e :: !Targets(p, b, c, d, e)
    ensures Means(op, p, v, Err(Malformed(BadPath)))
  {
    if ParseMemberFilterPath(p).Some? {
      var b, c, d, e := ParsedTargets(p);
    }
    if Lower(p) == "members" { NoBracketInWord(p); }
    UnreadBracketFails(op, p, v);
  }

  // A pathless object is one operation per field, in the fields' order, up to the first error.
  lemma {:induction false} FieldsAreOperations(op: string, fields: seq<Field>)
    requires Known(op)
    ensures P.ParseOp(op).Some? && CompileFields(P.ParseOp(op).value, fields) == CompileAll(S.PerField(op, "", fields))
  {
    S.OpWords(op);
    if fields != [] {
      var path := "" + fields[0].key;
      assert path == fields[0].key;
      S.OperationReads(op, path, fields[0].val);
      FieldsAreOperations(op, fields[1..]);
      assert S.PerField(op, "", fields)[1..] == S.PerField(op, "", fields[1..]);
    }
  }

  lemma PathlessIsPerField(op: string, v: Json)
    requires Known(op)
    ensures v.Object? ==> Sent(S.Pathless(op, v)) == Answer(CompileAll(S.PerField(op, "", v.fields)))
    ensures !v.Object? ==> Sent(S.Pathless(op, v)) == Err(Malformed(PathlessNeedsObject))
  {
    S.OpWords(op);
    S.PathlessReads(op, v);
    SentAnswers(S.Pathless(op, v));
    if v.Object? { FieldsAreOperations(op, v.fields); }
  }

  // ---------- A whole request ----------

  lemma BodyRefusals(body: Json)
    ensures var r, schemas := NormalizeSpec(body), Lookup(body, "schemas");
            var ops := if Lookup(body, "Operations") in {Undefined, Null} then Lookup(body, "operations") else Lookup(body, "Operations");
            var undeclared := schemas.Array? && forall i | 0 <= i < |schemas.items| ::
                  !(schemas.items[i].String?
                    && Lower(schemas.items[i].s) == Lower("urn:" + "ietf:params:scim:api:messages:2.0:PatchOp"));
            && (r == Err(BodyNotObject) <==> !body.Object?)
            && (r == Err(WrongSchema) <==> body.Object? && undeclared)
            && (r == Err(NoOperations) <==> body.Object? && !undeclared && !(ops.Array? && ops.items != []))
  {
  }

  // The first operation that fails by itself is the answer, and only that makes the
  // request malformed.
  lemma {:induction false} FirstErrorDecides(ops: seq<Json>, i: nat)
    requires i <= |ops| && forall j | 0 <= j < i :: Compile(ops[j]).error.None?
    ensures CompileAll(ops).error == if i == |ops| then None
                                     else if Compile(ops[i]).error.Some? then Compile(ops[i]).error
                                     else CompileAll(ops[i..]).error
    decreases |ops|
  {
    if i > 0 {
      forall j | 0 <= j < i - 1 ensures Compile(ops[1..][j]).error.None? { assert ops[1..][j] == ops[j + 1]; }
      FirstErrorDecides(ops[1..], i - 1);
      assert i < |ops| ==> ops[1..][i - 1..] == ops[i..];
    } else {
      assert ops[0..] == ops;
    }
  }

  // What the last edit of a name or an external id says, and none of the others.
  function LastName(edits: seq<Edit>, before: Option<string>): Option<string> {
    if edits == [] then before
    else
      var e := edits[|edits| - 1];
      if e.SetDisplayName? then Some(e.name) else LastName(edits[..|edits| - 1], before)
  }

  function LastExternalId(edits: seq<Edit>, before: Change<string>): Change<string> {
    if edits == [] then before
    else
      var e := edits[|edits| - 1];
      if e.SetExternalId? then (if e.externalId.Some? then Set(e.externalId.value) else Clear)
      else LastExternalId(edits[..|edits| - 1], before)
  }

  lemma {:induction false} LastDrop(e: Edit, rest: seq<Edit>, d: Draft)
    ensures LastName([e] + rest, d.displayName) == LastName(rest, Exec(d, e).displayName)
    ensures LastExternalId([e] + rest, d.externalId) == LastExternalId(rest, Exec(d, e).externalId)
  {
    var all := [e] + rest;
    if rest == [] {
      assert all[..0] == [];
    } else {
      assert all[..|all| - 1] == [e] + rest[..|rest| - 1] && all[|all| - 1] == rest[|rest| - 1];
      LastDrop(e, rest[..|rest| - 1], d);
    }
  }

  lemma {:induction false} LastOneStays(d: Draft, edits: seq<Edit>)
    ensures ExecAll(d, edits).displayName == LastName(edits, d.displayName)
    ensures ExecAll(d, edits).externalId == LastExternalId(edits, d.externalId)
    decreases |edits|
  {
    if edits != [] {
      LastOneStays(Exec(d, edits[0]), edits[1..]);
      LastDrop(edits[0], edits[1..], d);
      assert [edits[0]] + edits[1..] == edits;
    }
  }
}
