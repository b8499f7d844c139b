// The draft as the handler updates it in place, operation by operation.
module ScimDraft {
  import opened Wrappers
  import opened Text
  import opened Json
  import opened ScimUser
  import opened ScimPatch

  lemma {:induction false} ExecAppends(d: Draft, xs: seq<Edit>, ys: seq<Edit>)
    ensures ExecAll(d, xs + ys) == ExecAll(ExecAll(d, xs), ys)
    decreases |xs|
  {
    if xs == [] {
      assert xs + ys == ys;
    } else {
      assert (xs + ys)[1..] == xs[1..] + ys;
      ExecAppends(Exec(d, xs[0]), xs[1..], ys);
    }
  }

  lemma ExecOne(d: Draft, e: Edit)
    ensures ExecAll(d, [e]) == Exec(d, e)
  {
    assert [e][1..] == [];
  }

  // What an operation promises: the edits it compiles to are made, up to its error.
  ghost predicate Performs(before: Draft, after: Draft, c: Compiled, failure: Option<OpError>) {
    failure == c.error && after == ExecAll(before, c.edits)
  }

  class WorkingDraft {
    var patch: Delta
    var emails: Option<seq<MultiValue>>
    var phoneNumbers: Option<seq<MultiValue>>
    var name: Option<Name>
    var enterprise: Option<Enterprise>

    ghost function View(): Draft
      reads this
    {
      Draft(patch, emails, phoneNumbers, name, enterprise)
    }

    constructor (current: User)
      ensures View() == StartFrom(current)
    {
      patch := NO_CHANGE;
      emails, phoneNumbers := current.emails, current.phoneNumbers;
      name, enterprise := current.name, current.enterprise;
    }

    method PutEntries(list: List, working: Option<seq<MultiValue>>, change: Change<seq<MultiValue>>)
      modifies this
      ensures View() == PutList(old(View()), list, working, change)
    {
      if list == OfEmails {
        emails := working;
        patch := patch.(emails := change);
      } else {
        phoneNumbers := working;
        patch := patch.(phoneNumbers := change);
      }
    }

    method ApplyMultiValued(o: Op, mv: MultiValuedPath, value: Json) returns (failure: Option<OpError>)
      modifies this
      ensures Performs(old(View()), View(), CompileMultiValued(o, mv, value), failure)
    {
      if mv.attribute != "emails" && mv.attribute != "phonenumbers" {
        return None;
      }
      if mv.sub != "value" {
        return Some(OnlyValueSub);
      }
      var list := if mv.attribute == "emails" then OfEmails else OfPhoneNumbers;
      var current := OrEmpty(if list == OfEmails then emails else phoneNumbers);
      if o == Remove {
        ExecOne(View(), RemoveKind(list, mv.kind));
        var filtered := WithoutKind(current, mv.kind);
        PutEntries(list, Some(filtered), ListChange(filtered));
        return None;
      }
      if !value.String? {
        return Some(NotAString);
      }
      ExecOne(View(), Upsert(list, mv.kind, value.s));
      var next := UpsertByType(current, mv.kind, value.s);
      PutEntries(list, Some(next), Set(next));
      return None;
    }

    method ApplyEnterprise(o: Op, head: string, value: Json) returns (failure: Option<OpError>)
      modifies this
      ensures Performs(old(View()), View(), CompileEnterprise(o, head, value), failure)
    {
      var canonical := EnterpriseSub(head);
      var current := OrNone(enterprise);
      if head == "manager" {
        ExecOne(View(), EditEnterprise("manager", if o == Remove then None else Some(ManagerFrom(value))));
        current := if o == Remove then current - {"manager"} else current["manager" := ManagerFrom(value)];
      } else if canonical.None? {
        return None;
      } else if o == Remove {
        ExecOne(View(), EditEnterprise(canonical.value, None));
        current := current - {canonical.value};
      } else {
        if !value.String? {
          return Some(NotAString);
        }
        ExecOne(View(), EditEnterprise(canonical.value, Some(Extra.Text(value.s))));
        current := current[canonical.value := Extra.Text(value.s)];
      }
      enterprise := Some(current);
      patch := patch.(enterprise := Set(current));
      return None;
    }

    method PutNames(merged: Name)
      modifies this
      ensures View() == PutName(old(View()), merged)
    {
      name := Some(merged);
      patch := patch.(name := NameChange(merged));
    }

    method ApplyName(o: Op, sub: Option<string>, value: Json) returns (failure: Option<OpError>)
      modifies this
      ensures Performs(old(View()), View(), CompileName(o, sub, value), failure)
    {
      if sub.None? {
        if o == Remove {
          ExecOne(View(), ClearName);
          name := None;
          patch := patch.(name := Clear);
          return None;
        }
        if !value.Object? {
          return Some(NameNeedsObject);
        }
        var names := NameEntries(value.fields);
        ExecOne(View(), if o == Add then MergeName(names) else ReplaceName(names));
        var start: Name := if o == Add then OrNone(name) else map[];
        var merged := MergeEntries(start, value.fields);
        assert o != Add ==> merged == NameEntries(value.fields);
        PutNames(merged);
        return None;
      }
      var canonical := NameSub(sub.value);
      if canonical.None? {
        return Some(BadNameSub);
      }
      var merged := OrNone(name);
      if o == Remove {
        ExecOne(View(), EditName(canonical.value, None));
        merged := merged - {canonical.value};
      } else {
        if !value.String? {
          return Some(NotAString);
        }
        ExecOne(View(), EditName(canonical.value, Some(value.s)));
        merged := merged[canonical.value := value.s];
      }
      PutNames(merged);
      return None;
    }

    method ApplyList(o: Op, list: List, value: Json) returns (failure: Option<OpError>)
      modifies this
      ensures Performs(old(View()), View(), CompileList(o, list, value), failure)
    {
      if o == Remove {
        ExecOne(View(), ClearList(list));
        PutEntries(list, None, Clear);
        return None;
      }
      if !value.Array? {
        return Some(NotAnArray);
      }
      ExecOne(View(), SetList(list, Entries(value.items)));
      var entries := CollectEntries(value.items);
      PutEntries(list, Some(entries), ListChange(entries));
      return None;
    }

    method ApplySimple(o: Op, head: string, value: Json) returns (failure: Option<OpError>)
      modifies this
      ensures Performs(old(View()), View(), CompileSimple(o, head, value), failure)
    {
      if head == "active" {
        if o == Remove {
          return Some(ActiveRemoved);
        }
        var b := CoerceBoolean(value);
        if b.None? {
          return Some(NotBoolean);
        }
        ExecOne(View(), SetActive(b.value));
        patch := patch.(active := b);
      } else if head == "username" {
        if o == Remove {
          return Some(UserNameRemoved);
        }
        if !value.String? || value.s == "" {
          return Some(BadUserName);
        }
        ExecOne(View(), SetUserName(value.s));
        patch := patch.(userName := Some(value.s));
      } else if head == "externalid" {
        ExecOne(View(), SetExternalId(if o == Remove then None else AsString(value)));
        patch := patch.(externalId := if o == Remove then Clear else FromOption(AsString(value)));
      } else if head == "displayname" {
        ExecOne(View(), SetDisplayName(if o == Remove then None else AsString(value)));
        patch := patch.(displayName := if o == Remove then Clear else FromOption(AsString(value)));
      } else if head == "emails" {
        failure := ApplyList(o, OfEmails, value);
        return failure;
      } else if head == "phonenumbers" {
        failure := ApplyList(o, OfPhoneNumbers, value);
        return failure;
      }
      return None;
    }

    method ApplyFields(o: Op, prefix: string, fields: seq<Field>) returns (failure: Option<OpError>)
      modifies this
      ensures Performs(old(View()), View(), CompileFields(o, prefix, fields), failure)
      decreases fields
    {
      ghost var whole := CompileFields(o, prefix, fields);
      ghost var start := View();
      for i := 0 to |fields|
        invariant var rest := CompileFields(o, prefix, fields[i..]);
                  whole.error == rest.error && ExecAll(start, whole.edits) == ExecAll(View(), rest.edits)
      {
        assert fields[i..][0] == fields[i] && fields[i..][1..] == fields[i + 1..];
        ghost var one := CompileAs(o, Some(prefix + fields[i].key), fields[i].val);
        ExecAppends(View(), one.edits, CompileFields(o, prefix, fields[i + 1..]).edits);
        var nested := ApplyOperation(o, Some(prefix + fields[i].key), fields[i].val);
        if nested.Some? {
          return nested;
        }
      }
      return None;
    }

    method ApplyOperation(o: Op, rawPath: Option<string>, value: Json) returns (failure: Option<OpError>)
      modifies this
      ensures Performs(old(View()), View(), CompileAs(o, rawPath, value), failure)
      decreases value
    {
      if rawPath.None? || Trim(rawPath.value) == "" {
        if o == Remove {
          return Some(RemoveNeedsPath);
        }
        if !value.Object? {
          return Some(PathlessNeedsObject);
        }
        failure := ApplyFields(o, "", value.fields);
        return failure;
      }
      var (stripped, isExtension) := StripEnterprisePrefix(Trim(rawPath.value));
      var mv := ParseMultiValuedPath(stripped);
      if mv.Some? {
        failure := ApplyMultiValued(o, mv.value, value);
        return failure;
      }
      if '[' in stripped {
        return Some(BadMultiValuedPath);
      }
      var segments := SplitDots(stripped);
      if |segments| > 2 {
        return Some(TooDeep);
      }
      if isExtension && stripped == "" {
        if o == Remove {
          ExecOne(View(), ClearEnterprise);
          enterprise := None;
          patch := patch.(enterprise := Clear);
          return None;
        }
        if !value.Object? {
          return Some(EnterpriseNeedsObject);
        }
        failure := ApplyFields(o, SCIM_ENTERPRISE_SCHEMA + ":", value.fields);
        return failure;
      }
      failure := ApplySegments(o, segments, isExtension, value);
    }

    method ApplySegments(o: Op, segments: seq<string>, isExtension: bool, value: Json)
      returns (failure: Option<OpError>)
      requires |segments| >= 1
      modifies this
      ensures Performs(old(View()), View(), CompileSegments(o, segments, isExtension, value), failure)
    {
      var head := Lower(segments[0]);
      var sub := if |segments| > 1 then Some(Lower(segments[1])) else None;
      if isExtension {
        failure := ApplyEnterprise(o, head, value);
      } else if head == "name" {
        failure := ApplyName(o, sub, value);
      } else if sub.Some? {
        return None;
      } else {
        failure := ApplySimple(o, head, value);
      }
    }
  }

  method MergeEntries(start: Name, fields: seq<Field>) returns (merged: Name)
    ensures merged == start + NameEntries(fields)
  {
    merged := start;
    for i := 0 to |fields|
      invariant merged == start + NameEntries(fields[..i])
    {
      assert fields[..i + 1][..i] == fields[..i];
      var canonical := NameCanonical(Lower(fields[i].key));
      if canonical.Some? && fields[i].val.String? {
        merged := merged[canonical.value := fields[i].val.s];
      }
    }
    assert fields[..|fields|] == fields;
  }

  method CollectEntries(items: seq<Json>) returns (list: seq<MultiValue>)
    ensures list == Entries(items)
  {
    list := [];
    for i := 0 to |items|
      invariant list == Entries(items[..i])
    {
      assert items[..i + 1][..i] == items[..i];
      var entry := Entry(items[i]);
      if entry.Some? {
        list := list + [entry.value];
      }
    }
    assert items[..|items|] == items;
  }

  method NormalizePatch(body: Json, current: User) returns (r: Result<Delta, PatchError>)
    ensures r == NormalizeSpec(body, current)
  {
    if !body.Object? {
      return Err(BodyNotObject);
    }
    var schemas := Lookup(body, "schemas");
    if schemas.Array? && !NamesSchema(schemas.items) {
      return Err(WrongSchema);
    }
    var rawOps := Operations(body);
    if !rawOps.Array? || rawOps.items == [] {
      return Err(NoOperations);
    }
    var ops := rawOps.items;
    var draft := new WorkingDraft(current);
    ghost var whole := CompileAll(ops);
    ghost var start := draft.View();
    for i := 0 to |ops|
      invariant fresh(draft)
      invariant var rest := CompileAll(ops[i..]);
                whole.error == rest.error && ExecAll(start, whole.edits) == ExecAll(draft.View(), rest.edits)
    {
      assert ops[i..][0] == ops[i] && ops[i..][1..] == ops[i + 1..];
      var raw := ops[i];
      if !raw.Object? {
        return Err(Malformed(OperationNotObject));
      }
      var op := Lookup(raw, "op");
      if !op.String? {
        return Err(Malformed(OperationWithoutOp));
      }
      var operation := ParseOp(op.s);
      if operation.None? {
        return Err(Malformed(UnsupportedOp));
      }
      ExecAppends(draft.View(), Compile(raw).edits, CompileAll(ops[i + 1..]).edits);
      var failure := draft.ApplyOperation(operation.value, AsString(Lookup(raw, "path")), Lookup(raw, "value"));
      if failure.Some? {
        return Err(Malformed(failure.value));
      }
    }
    if Touched(draft.patch) == {} {
      return Err(NoChanges);
    }
    return Ok(draft.patch);
  }
}
