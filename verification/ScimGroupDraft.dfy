// The group draft as the handler updates it in place.
module ScimGroupDraft {
  import opened Wrappers
  import opened Text
  import opened Json
  import opened ScimUser
  import opened ScimGroup
  import P = ScimPatch

  lemma {:induction false} ExecAppends(d: Draft, xs: seq<Edit>, ys: seq<Edit>)
    ensures ExecAll(d, xs + ys) == ExecAll(ExecAll(d, xs), ys)
    decreases |xs|
  {
    if xs == [] {
      assert xs + ys == ys;
    } else {
      assert (xs + ys)[1..] == xs[1..] + ys;
      ExecAppends(Exec(d, xs[0]), xs[1..], ys);
    }
  }

  lemma ExecOne(d: Draft, e: Edit)
    ensures ExecAll(d, [e]) == Exec(d, e)
  {
    assert [e][1..] == [];
  }

  ghost predicate Performs(before: Draft, after: Draft, c: Compiled, failure: Option<OpError>) {
    failure == c.error && after == ExecAll(before, c.edits)
  }

  class WorkingGroup {
    var displayName: Option<string>
    var externalId: Change<string>
    var added: seq<Member>
    var removed: seq<string>
    var replacement: Option<seq<Member>>

    ghost function View(): Draft
      reads this
    {
      Draft(displayName, externalId, added, removed, replacement)
    }

    constructor ()
      ensures View() == BLANK
    {
      displayName, externalId := None, Leave;
      added, removed, replacement := [], [], None;
    }

    method ApplyAdd(members: seq<Member>)
      modifies this
      ensures View() == Exec(old(View()), AddMembers(members))
    {
      var list := if replacement.Some? then replacement.value else added;
      ghost var start := list;
      for i := 0 to |members|
        invariant list == Joined(start, members[..i])
      {
        assert members[..i + 1][..i] == members[..i];
        if !(exists e | e in list :: e.value == members[i].value) {
          list := list + [members[i]];
        }
      }
      assert members[..|members|] == members;
      if replacement.Some? {
        replacement := Some(list);
      } else {
        added := list;
      }
    }

    method ApplyRemove(ids: seq<string>)
      modifies this
      ensures View() == Exec(old(View()), RemoveMembers(ids))
    {
      if replacement.Some? {
        replacement := Some(Without(replacement.value, ids));
        return;
      }
      var list := removed;
      for i := 0 to |ids|
        invariant list == JoinedIds(removed, ids[..i])
      {
        assert ids[..i + 1][..i] == ids[..i];
        if ids[i] !in list {
          list := list + [ids[i]];
        }
      }
      assert ids[..|ids|] == ids;
      removed := list;
    }

    method ApplyMembers(o: P.Op, value: Json) returns (failure: Option<OpError>)
      modifies this
      ensures Performs(old(View()), View(), CompileMembers(o, value), failure)
    {
      if o == P.Remove && value == Undefined {
        ExecOne(View(), ReplaceMembers([]));
        replacement := Some([]);
        return None;
      }
      var members := ParseMembers(value);
      if members.None? {
        return Some(BadMembers);
      }
      if o == P.Add {
        ExecOne(View(), AddMembers(members.value));
        ApplyAdd(members.value);
      } else if o == P.Remove {
        ExecOne(View(), RemoveMembers(Ids(members.value)));
        ApplyRemove(Ids(members.value));
      } else {
        ExecOne(View(), ReplaceMembers(members.value));
        replacement := members;
      }
      return None;
    }

    method ApplyAttribute(o: P.Op, path: string, value: Json) returns (failure: Option<OpError>)
      modifies this
      ensures Performs(old(View()), View(), CompileAttribute(o, path, value), failure)
    {
      if Lower(path) == "members" {
        failure := ApplyMembers(o, value);
        return failure;
      }
      if '[' in path {
        return Some(BadPath);
      }
      if Lower(path) == "displayname" {
        if o == P.Remove {
          return Some(DisplayNameRemoved);
        }
        if NonEmptyString(value).None? {
          return Some(BadDisplayName);
        }
        ExecOne(View(), SetDisplayName(value.s));
        displayName := Some(value.s);
        return None;
      }
      if Lower(path) == "externalid" {
        ExecOne(View(), SetExternalId(if o == P.Remove then None else AsString(value)));
        externalId := if o == P.Remove then Clear else P.FromOption(AsString(value));
        return None;
      }
      return Some(NotPatchable);
    }

    method Handle(o: P.Op, rawPath: Option<string>, value: Json) returns (failure: Option<OpError>)
      modifies this
      ensures Performs(old(View()), View(), CompileAs(o, rawPath, value), failure)
      decreases value
    {
      if rawPath.None? || Trim(rawPath.value) == "" {
        if !value.Object? {
          return Some(PathlessNeedsObject);
        }
        failure := HandleFields(o, value.fields);
        return failure;
      }
      var path := Trim(rawPath.value);
      var targeted := ParseMemberFilterPath(path);
      if targeted.Some? {
        if o != P.Remove {
          return Some(OnlyRemoveTargeted);
        }
        ExecOne(View(), RemoveMembers([targeted.value]));
        ApplyRemove([targeted.value]);
        return None;
      }
      failure := ApplyAttribute(o, path, value);
    }

    method HandleFields(o: P.Op, fields: seq<Field>) returns (failure: Option<OpError>)
      modifies this
      ensures Performs(old(View()), View(), CompileFields(o, fields), failure)
      decreases fields
    {
      ghost var whole := CompileFields(o, fields);
      ghost var start := View();
      for i := 0 to |fields|
        invariant var rest := CompileFields(o, fields[i..]);
                  whole.error == rest.error && ExecAll(start, whole.edits) == ExecAll(View(), rest.edits)
      {
        assert fields[i..][0] == fields[i] && fields[i..][1..] == fields[i + 1..];
        ghost var one := CompileAs(o, Some(fields[i].key), fields[i].val);
        ExecAppends(View(), one.edits, CompileFields(o, fields[i + 1..]).edits);
        var nested := Handle(o, Some(fields[i].key), fields[i].val);
        if nested.Some? {
          return nested;
        }
      }
      return None;
    }
  }

  method NormalizeGroupPatch(body: Json) returns (r: Result<GroupPatch, GroupError>)
    ensures r == NormalizeSpec(body)
  {
    if !body.Object? {
      return Err(BodyNotObject);
    }
    var schemas := Lookup(body, "schemas");
    if schemas.Array? && !P.NamesSchema(schemas.items) {
      return Err(WrongSchema);
    }
    var rawOps := P.Operations(body);
    if !rawOps.Array? || rawOps.items == [] {
      return Err(NoOperations);
    }
    var ops := rawOps.items;
    var draft := new WorkingGroup();
    ghost var whole := CompileAll(ops);
    for i := 0 to |ops|
      invariant fresh(draft)
      invariant var rest := CompileAll(ops[i..]);
                whole.error == rest.error && ExecAll(BLANK, whole.edits) == ExecAll(draft.View(), rest.edits)
    {
      assert ops[i..][0] == ops[i] && ops[i..][1..] == ops[i + 1..];
      var raw := ops[i];
      if !raw.Object? {
        return Err(Malformed(OperationNotObject));
      }
      var op := Lookup(raw, "op");
      if !op.String? {
        return Err(Malformed(OperationWithoutOp));
      }
      var operation := P.ParseOp(op.s);
      if operation.None? {
        return Err(Malformed(UnsupportedOp));
      }
      ExecAppends(draft.View(), Compile(raw).edits, CompileAll(ops[i + 1..]).edits);
      var failure := draft.Handle(operation.value, AsString(Lookup(raw, "path")), Lookup(raw, "value"));
      if failure.Some? {
        return Err(Malformed(failure.value));
      }
    }
    var patch := GroupPatch(draft.displayName, draft.externalId, None, None, None);
    if draft.replacement.Some? {
      patch := patch.(members := draft.replacement);
    } else {
      if draft.added != [] {
        patch := patch.(addMembers := Some(draft.added));
      }
      if draft.removed != [] {
        patch := patch.(removeMembers := Some(draft.removed));
      }
    }
    if patch == UNCHANGED {
      return Err(NoChanges);
    }
    return Ok(patch);
  }
}
