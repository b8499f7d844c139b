// What a group PATCH means for membership: what its operations do one at a time.
module ScimGroupTheorems {
  import opened Wrappers
  import opened Text
  import opened Json
  import opened ScimUser
  import opened ScimGroup
  import P = ScimPatch
  import F = ScimFilterTheorems
  import Paths = ScimPaths

  function IdSet(members: seq<Member>): set<string> {
    set m | m in members :: m.value
  }

  function SetOf(ids: seq<string>): set<string> {
    set id | id in ids
  }

  // One edit of a membership.
  function Act(group: set<string>, e: Edit): set<string> {
    match e
    case AddMembers(members) => group + IdSet(members)
    case RemoveMembers(ids) => group - SetOf(ids)
    case ReplaceMembers(members) => IdSet(members)
    case _ => group
  }

  function ActAll(group: set<string>, edits: seq<Edit>): set<string>
    decreases |edits|
  {
    if edits == [] then group else ActAll(Act(group, edits[0]), edits[1..])
  }

  predicate Replaces(edits: seq<Edit>) {
    exists e | e in edits :: e.ReplaceMembers?
  }

  lemma IdsOfOneMore(members: seq<Member>, m: Member)
    ensures IdSet(members + [m]) == IdSet(members) + {m.value}
  {
    assert m in members + [m];
    assert forall x | x in members :: x in members + [m];
  }

  lemma {:induction false} JoinedSet(list: seq<Member>, members: seq<Member>)
    ensures IdSet(Joined(list, members)) == IdSet(list) + IdSet(members)
  {
    if members != [] {
      var front, last := members[..|members| - 1], members[|members| - 1];
      JoinedSet(list, front);
      assert members == front + [last];
      IdsOfOneMore(front, last);
      IdsOfOneMore(Joined(list, front), last);
    }
  }

  lemma {:induction false} JoinedIdsSet(list: seq<string>, ids: seq<string>)
    ensures SetOf(JoinedIds(list, ids)) == SetOf(list) + SetOf(ids)
  {
    if ids != [] {
      var front, last := ids[..|ids| - 1], ids[|ids| - 1];
      JoinedIdsSet(list, front);
      assert ids == front + [last];
      assert SetOf(front + [last]) == SetOf(front) + {last};
      assert SetOf(JoinedIds(list, front) + [last]) == SetOf(JoinedIds(list, front)) + {last};
    }
  }

  lemma {:induction false} WithoutSet(list: seq<Member>, ids: seq<string>)
    ensures IdSet(Without(list, ids)) == IdSet(list) - SetOf(ids)
  {
    if list != [] {
      var front, last := list[..|list| - 1], list[|list| - 1];
      WithoutSet(front, ids);
      assert list == front + [last];
      IdsOfOneMore(front, last);
      IdsOfOneMore(Without(front, ids), last);
      assert Without(front, ids) + [] == Without(front, ids);
    }
  }

  // Once there is a replacement, it is the membership.
  lemma {:induction false} ReplacementFollows(d: Draft, edits: seq<Edit>)
    requires d.replacement.Some?
    ensures var d' := ExecAll(d, edits);
            d'.replacement.Some? && IdSet(d'.replacement.value) == ActAll(IdSet(d.replacement.value), edits)
    decreases |edits|
  {
    if edits != [] {
      match edits[0] {
        case AddMembers(members) => JoinedSet(d.replacement.value, members);
        case RemoveMembers(ids) => WithoutSet(d.replacement.value, ids);
        case _ =>
      }
      ReplacementFollows(Exec(d, edits[0]), edits[1..]);
    }
  }

  lemma {:induction false} ReplacedMeans(d: Draft, group: set<string>, edits: seq<Edit>)
    requires d.replacement.None? && Replaces(edits)
    ensures var d' := ExecAll(d, edits);
            d'.replacement.Some? && IdSet(d'.replacement.value) == ActAll(group, edits)
    decreases |edits|
  {
    assert edits == [edits[0]] + edits[1..];
    if edits[0].ReplaceMembers? {
      ReplacementFollows(Exec(d, edits[0]), edits[1..]);
    } else {
      ReplacedMeans(Exec(d, edits[0]), Act(group, edits[0]), edits[1..]);
    }
  }

  // Without one, the draft gathers everything ever added and everything ever removed.
  lemma {:induction false} IncrementsGather(d: Draft, edits: seq<Edit>)
    requires d.replacement.None? && !Replaces(edits)
    ensures var d' := ExecAll(d, edits);
            && d'.replacement.None? && IdSet(d.added) <= IdSet(d'.added) && SetOf(d.removed) <= SetOf(d'.removed)
    decreases |edits|
  {
    if edits != [] {
      assert edits[0] in edits && forall e | e in edits[1..] :: e in edits;
      match edits[0] {
        case AddMembers(members) => JoinedSet(d.added, members);
        case RemoveMembers(ids) => JoinedIdsSet(d.removed, ids);
        case _ =>
      }
      IncrementsGather(Exec(d, edits[0]), edits[1..]);
    }
  }

  // An id that was only ever added, or only ever removed, is where that puts it.
  lemma {:induction false} OneSidedIds(d: Draft, group: set<string>, edits: seq<Edit>, id: string)
    requires d.replacement.None? && !Replaces(edits)
    requires id in IdSet(d.added) ==> id in group
    requires id in SetOf(d.removed) ==> id !in group
    ensures var d' := ExecAll(d, edits);
            && (id !in SetOf(d'.removed) ==> (id in ActAll(group, edits) <==> id in group || id in IdSet(d'.added)))
            && (id !in IdSet(d'.added) ==> (id in ActAll(group, edits) <==> id in group && id !in SetOf(d'.removed)))
    decreases |edits|
  {
    if edits != [] {
      var e := edits[0];
      assert e in edits && forall x | x in edits[1..] :: x in edits;
      match e {
        case AddMembers(members) => JoinedSet(d.added, members);
        case RemoveMembers(ids) => JoinedIdsSet(d.removed, ids);
        case _ =>
      }
      var next := Exec(d, e);
      IncrementsGather(next, edits[1..]);
      var d' := ExecAll(d, edits);
      if id !in SetOf(d'.removed) || id !in IdSet(d'.added) {
        OneSidedIds(next, Act(group, e), edits[1..], id);
      }
    }
  }

  // ---------- Operations one at a time ----------

  function GroupAfter(group: set<string>, ops: seq<Json>): set<string>
    decreases |ops|
  {
    if ops == [] then group else GroupAfter(ActAll(group, Compile(ops[0]).edits), ops[1..])
  }

  predicate SomeReplaces(ops: seq<Json>) {
    exists op | op in ops :: Replaces(Compile(op).edits)
  }

  lemma {:induction false} ActAppends(group: set<string>, xs: seq<Edit>, ys: seq<Edit>)
    ensures ActAll(group, xs + ys) == ActAll(ActAll(group, xs), ys)
    decreases |xs|
  {
    if xs == [] {
      assert xs + ys == ys;
    } else {
      assert (xs + ys)[1..] == xs[1..] + ys;
      ActAppends(Act(group, xs[0]), xs[1..], ys);
    }
  }

  lemma {:induction false} EditsAreOps(group: set<string>, ops: seq<Json>)
    requires CompileAll(ops).error.None?
    ensures ActAll(group, CompileAll(ops).edits) == GroupAfter(group, ops)
    ensures Replaces(CompileAll(ops).edits) <==> SomeReplaces(ops)
    decreases |ops|
  {
    if ops != [] {
      var first, rest := Compile(ops[0]).edits, CompileAll(ops[1..]).edits;
      EditsAreOps(ActAll(group, first), ops[1..]);
      ActAppends(group, first, rest);
      assert ops == [ops[0]] + ops[1..];
      assert CompileAll(ops).edits == first + rest;
      assert forall e :: e in first + rest <==> e in first || e in rest;
    }
  }

  function Added(p: GroupPatch): set<string> {
    if p.addMembers.Some? then IdSet(p.addMembers.value) else {}
  }

  function Removed(p: GroupPatch): set<string> {
    if p.removeMembers.Some? then SetOf(p.removeMembers.value) else {}
  }

  lemma AcceptedCompiles(body: Json)
    requires NormalizeSpec(body).Ok?
    ensures CompileAll(P.Operations(body).items).error.None?
    ensures NormalizeSpec(body).value == Finish(ExecAll(BLANK, CompileAll(P.Operations(body).items).edits))
  {
  }

  // With a full replacement among the operations, the host gets one list, no
  // increments, and the list is the membership the operations lead to from any start.
  lemma ReplacementIsTheMembership(body: Json, group: set<string>)
    requires NormalizeSpec(body).Ok? && SomeReplaces(P.Operations(body).items)
    ensures var p := NormalizeSpec(body).value;
            && p.members.Some? && p.addMembers.None? && p.removeMembers.None?
            && IdSet(p.members.value) == GroupAfter(group, P.Operations(body).items)
  {
    var ops := P.Operations(body).items;
    AcceptedCompiles(body);
    EditsAreOps(group, ops);
    ReplacedMeans(BLANK, group, CompileAll(ops).edits);
  }

  // A host that adds first, and one that removes first.
  function AddsFirst(p: GroupPatch, group: set<string>): set<string> {
    (group + Added(p)) - Removed(p)
  }

  function RemovesFirst(p: GroupPatch, group: set<string>): set<string> {
    (group - Removed(p)) + Added(p)
  }

  ghost predicate EitherOrderWorks(p: GroupPatch, ops: seq<Json>) {
    forall group :: AddsFirst(p, group) == GroupAfter(group, ops) && RemovesFirst(p, group) == GroupAfter(group, ops)
  }

  lemma DisjointIncrements(edits: seq<Edit>, group: set<string>)
    requires !Replaces(edits)
    requires var d := ExecAll(BLANK, edits); IdSet(d.added) !! SetOf(d.removed)
    ensures var p := Finish(ExecAll(BLANK, edits));
            AddsFirst(p, group) == ActAll(group, edits) && RemovesFirst(p, group) == ActAll(group, edits)
  {
    var d := ExecAll(BLANK, edits);
    IncrementsGather(BLANK, edits);
    forall id
      ensures id in ActAll(group, edits) <==> (id in group || id in IdSet(d.added)) && id !in SetOf(d.removed)
    {
      OneSidedIds(BLANK, group, edits, id);
    }
    assert Added(Finish(d)) == IdSet(d.added) && Removed(Finish(d)) == SetOf(d.removed);
  }

  // Without one, the host gets increments only, and they mean what the operations
  // mean in whichever order the host applies them exactly when no id is both
  // added and removed.
  lemma IncrementsMeanOperationsIff(body: Json)
    requires NormalizeSpec(body).Ok? && !SomeReplaces(P.Operations(body).items)
    ensures NormalizeSpec(body).value.members.None?
    ensures EitherOrderWorks(NormalizeSpec(body).value, P.Operations(body).items)
       <==> Added(NormalizeSpec(body).value) !! Removed(NormalizeSpec(body).value)
  {
    var ops, p := P.Operations(body).items, NormalizeSpec(body).value;
    var edits := CompileAll(ops).edits;
    AcceptedCompiles(body);
    EditsAreOps({}, ops);
    IncrementsGather(BLANK, edits);
    if Added(p) !! Removed(p) {
      forall group
        ensures AddsFirst(p, group) == GroupAfter(group, ops) && RemovesFirst(p, group) == GroupAfter(group, ops)
      {
        DisjointIncrements(edits, group);
        EditsAreOps(group, ops);
      }
    } else {
      var id :| id in Added(p) && id in Removed(p);
      assert id !in AddsFirst(p, {}) && id in RemovesFirst(p, {});
    }
  }

  // ---------- The shapes Okta and Entra send ----------

  function TargetedPath(id: string): string {
    "members[value eq \"" + id + "\"]"
  }

  lemma TargetedLayout(id: string)
    ensures var s, e := TargetedPath(id), 18 + |id|;
            && |s| == e + 2 && s[..7] == "members" && s[7] == '[' && s[8..13] == "value" && s[13] == ' '
            && s[14..16] == "eq" && s[16] == ' ' && s[17] == '\"' && s[18..e] == id && s[e] == '\"' && s[e + 1] == ']'
  {
  }

  lemma TargetedScans(s: string, e: nat)
    requires 18 < e && |s| == e + 2 && s[..7] == "members" && s[7] == '[' && s[8..13] == "value" && s[13] == ' '
    requires s[14..16] == "eq" && s[16] == ' ' && s[17] == '\"' && '\"' !in s[18..e] && s[e] == '\"' && s[e + 1] == ']'
    ensures ParseMemberFilterPath(s) == Some(s[18..e])
  {
    assert s[0] == s[..7][0] == 'm';
    TrimmedStays(s);
    assert Lower("members") == "members" && Lower("value") == "value";
    Paths.QualifierRead(s, 8, "value");
    forall k | 18 <= k < e
      ensures s[k] != '\"'
    {
      assert s[18..e][k - 18] != '\"';
    }
    F.FirstIndex(s, '\"', 18, e);
    assert SpaceEnd(s, e + 1) == e + 1;
  }

  // Any id without a quote comes back as it was printed, and is removed.
  lemma TargetedRemoval(id: string, value: Json)
    requires id != "" && '\"' !in id
    ensures CompileAs(P.Remove, Some(TargetedPath(id)), value) == Only(RemoveMembers([id]))
    ensures forall group :: ActAll(group, [RemoveMembers([id])]) == group - {id}
  {
    TargetedLayout(id);
    TargetedScans(TargetedPath(id), 18 + |id|);
    TrimmedStays(TargetedPath(id));
    forall group
      ensures ActAll(group, [RemoveMembers([id])]) == group - {id}
    {
      ActOne(group, RemoveMembers([id]));
      assert SetOf([id]) == {id};
    }
  }

  lemma ActOne(group: set<string>, e: Edit)
    ensures ActAll(group, [e]) == Act(group, e)
  {
    assert [e][1..] == [];
  }

  lemma MembersPath(o: P.Op, path: string, value: Json)
    requires Lower(path) == "members"
    ensures CompileAs(o, Some(path), value) == CompileMembers(o, value)
  {
    assert |path| == 7 && forall i | 0 <= i < 7 :: LowerChar(path[i]) == Lower(path)[i];
    assert Lower(path)[0] == 'm' && Lower(path)[6] == 's';
    TrimmedStays(path);
  }

  lemma {:induction false} IdsOf(members: seq<Member>)
    ensures SetOf(Ids(members)) == IdSet(members)
  {
    forall id
      ensures id in SetOf(Ids(members)) <==> id in IdSet(members)
    {
      if id in SetOf(Ids(members)) {
        var i :| 0 <= i < |members| && Ids(members)[i] == id;
        assert members[i] in members;
      }
      if id in IdSet(members) {
        var m :| m in members && m.value == id;
        var i :| 0 <= i < |members| && members[i] == m;
        assert Ids(members)[i] == id;
      }
    }
  }

  // A list of members, added, removed or put in place of the old ones; and
  // everybody removed when there is no list.
  lemma ListedMembers(path: string, value: Json, group: set<string>)
    requires Lower(path) == "members" && ParseMembers(value).Some?
    ensures var ids := IdSet(ParseMembers(value).value);
            && ActAll(group, CompileAs(P.Add, Some(path), value).edits) == group + ids
            && ActAll(group, CompileAs(P.Remove, Some(path), value).edits) == group - ids
            && ActAll(group, CompileAs(P.Replace, Some(path), value).edits) == ids
            && ActAll(group, CompileAs(P.Remove, Some(path), Undefined).edits) == {}
  {
    var members := ParseMembers(value).value;
    MembersPath(P.Add, path, value);
    MembersPath(P.Remove, path, value);
    MembersPath(P.Replace, path, value);
    MembersPath(P.Remove, path, Undefined);
    IdsOf(members);
    ActOne(group, AddMembers(members));
    ActOne(group, RemoveMembers(Ids(members)));
    ActOne(group, ReplaceMembers(members));
    ActOne(group, ReplaceMembers([]));
  }
}
