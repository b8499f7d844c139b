// Sending a PATCH twice leaves the record as sending it once does, as long as
// no type of a list is both removed from it and written to it.
module ScimIdempotence {
  import opened Wrappers
  import opened Text
  import opened Json
  import opened ScimUser
  import opened ScimLists
  import opened ScimPatch
  import opened ScimPatchTheorems
  import opened ScimPaths
  import S = ScimShapes

  // ---------- Which edits occur ----------

  predicate IsRemoval(op: Json) {
    op.Object? && Lookup(op, "op").String? && ParseOp(Lookup(op, "op").s) == Some(Remove)
  }

  // Types in paths are not empty, and only `remove` takes a type away.
  predicate Fits(o: Op, e: Edit) {
    && (e.Upsert? || e.RemoveKind? ==> e.kind != "")
    && (e.RemoveKind? ==> o == Remove)
  }

  ghost predicate AllFit(o: Op, edits: seq<Edit>) {
    forall e | e in edits :: Fits(o, e)
  }

  lemma FitTogether(o: Op, xs: seq<Edit>, ys: seq<Edit>)
    requires AllFit(o, xs) && AllFit(o, ys)
    ensures AllFit(o, xs + ys)
  {
  }

  lemma QualifiedFits(o: Op, mv: MultiValuedPath, value: Json)
    requires mv.kind != ""
    ensures AllFit(o, CompileMultiValued(o, mv, value).edits)
  {
  }

  lemma SegmentsFit(o: Op, segments: seq<string>, enterprise: bool, value: Json)
    requires |segments| >= 1
    ensures AllFit(o, CompileSegments(o, segments, enterprise, value).edits)
  {
  }

  lemma {:induction false} CompileFits(o: Op, rawPath: Option<string>, value: Json)
    ensures AllFit(o, CompileAs(o, rawPath, value).edits)
    decreases value
  {
    if value.Object? {
      FieldsFit(o, "", value.fields);
      FieldsFit(o, SCIM_ENTERPRISE_SCHEMA + ":", value.fields);
    }
    if rawPath.Some? && Trim(rawPath.value) != "" {
      var (stripped, enterprise) := StripEnterprisePrefix(Trim(rawPath.value));
      var mv := ParseMultiValuedPath(stripped);
      if mv.Some? {
        QualifiedFits(o, mv.value, value);
      } else {
        SegmentsFit(o, SplitDots(stripped), enterprise, value);
      }
    }
  }

  lemma {:induction false} FieldsFit(o: Op, prefix: string, fields: seq<Field>)
    ensures AllFit(o, CompileFields(o, prefix, fields).edits)
    decreases fields
  {
    if fields != [] {
      CompileFits(o, Some(prefix + fields[0].key), fields[0].val);
      FieldsFit(o, prefix, fields[1..]);
      FitTogether(o, CompileAs(o, Some(prefix + fields[0].key), fields[0].val).edits,
                  CompileFields(o, prefix, fields[1..]).edits);
    }
  }

  ghost predicate Typed(edits: seq<Edit>) {
    AllFit(Remove, edits)
  }

  // An operation that is no removal fits as an `add` does.
  lemma OpFits(raw: Json)
    ensures AllFit(if IsRemoval(raw) then Remove else Add, Compile(raw).edits)
  {
    if raw.Object? && Lookup(raw, "op").String? && ParseOp(Lookup(raw, "op").s).Some? {
      CompileFits(ParseOp(Lookup(raw, "op").s).value, AsString(Lookup(raw, "path")), Lookup(raw, "value"));
    }
  }

  lemma {:induction false} OpsFit(ops: seq<Json>, o: Op)
    requires o == Remove || (o == Add && forall op | op in ops :: !IsRemoval(op))
    ensures AllFit(o, CompileAll(ops).edits)
  {
    if ops != [] {
      assert ops[0] in ops;
      OpFits(ops[0]);
      OpsFit(ops[1..], o);
      FitTogether(o, Compile(ops[0]).edits, CompileAll(ops[1..]).edits);
    }
  }

  // ---------- Simple attributes: the last write wins ----------

  function Fold<X>(f: (X, Edit) -> X, x: X, edits: seq<Edit>): X
    decreases |edits|
  {
    if edits == [] then x else Fold(f, f(x, edits[0]), edits[1..])
  }

  // Every edit writes a value of its own or does nothing.
  ghost predicate Overwrites<X(!new)>(f: (X, Edit) -> X) {
    forall e, x, y :: f(x, e) == f(y, e) || (f(x, e) == x && f(y, e) == y)
  }

  lemma {:induction false} LastWriteWins<X(!new)>(f: (X, Edit) -> X, x: X, y: X, edits: seq<Edit>)
    requires Overwrites(f)
    ensures Fold(f, x, edits) == Fold(f, y, edits) || (Fold(f, x, edits) == x && Fold(f, y, edits) == y)
    decreases |edits|
  {
    if edits != [] {
      LastWriteWins(f, f(x, edits[0]), f(y, edits[0]), edits[1..]);
    }
  }

  lemma WritesAreIdempotent<X(!new)>(f: (X, Edit) -> X, x: X, edits: seq<Edit>)
    requires Overwrites(f)
    ensures Fold(f, Fold(f, x, edits), edits) == Fold(f, x, edits)
  {
    LastWriteWins(f, x, Fold(f, x, edits), edits);
  }

  // ---------- Name and extension: the last write of each part wins ----------

  function PartOf<V>(x: Option<map<string, V>>, key: string): Option<V> {
    if x.Some? && key in x.value then Some(x.value[key]) else None
  }

  // What an edit does to one name part, to one extension attribute, and to the
  // extension's being there at all.
  function ActPart(key: string, v: Option<string>, e: Edit): Option<string> {
    match e
    case MergeName(names) => if key in names then Some(names[key]) else v
    case ReplaceName(names) => PartOf(Some(names), key)
    case EditName(k, text) => if k == key then text else v
    case ClearName => None
    case _ => v
  }

  function ActExtra(key: string, v: Option<Extra>, e: Edit): Option<Extra> {
    match e
    case EditEnterprise(k, extra) => if k == key then extra else v
    case ClearEnterprise => None
    case _ => v
  }

  function ActPresence(v: bool, e: Edit): bool {
    match e
    case EditEnterprise(_, _) => true
    case ClearEnterprise => false
    case _ => v
  }

  lemma ActsOnPart(x: Option<Name>, e: Edit, key: string)
    ensures PartOf(ActName(x, e), key) == ActPart(key, PartOf(x, key), e)
  {
    match e {
      case MergeName(names) => PartOfPlain(OrNone(x) + names, key);
      case ReplaceName(names) => PartOfPlain(names, key);
      case EditName(k, text) => PartOfPlain(Edited(OrNone(x), k, text), key);
      case _ =>
    }
  }

  lemma PartOfPlain(names: Name, key: string)
    ensures PartOf(NonEmptyName(names), key) == PartOf(Some(names), key)
  {
  }

  lemma {:induction false} NameByPart(x: Option<Name>, edits: seq<Edit>, key: string)
    ensures PartOf(Fold(ActName, x, edits), key) == Fold((v, e) => ActPart(key, v, e), PartOf(x, key), edits)
    decreases |edits|
  {
    if edits != [] {
      ActsOnPart(x, edits[0], key);
      NameByPart(ActName(x, edits[0]), edits[1..], key);
    }
  }

  lemma {:induction false} EnterpriseByPart(x: Option<Enterprise>, edits: seq<Edit>, key: string)
    ensures PartOf(Fold(ActEnterprise, x, edits), key) == Fold((v, e) => ActExtra(key, v, e), PartOf(x, key), edits)
    ensures Fold(ActEnterprise, x, edits).Some? == Fold(ActPresence, x.Some?, edits)
    decreases |edits|
  {
    if edits != [] {
      EnterpriseByPart(ActEnterprise(x, edits[0]), edits[1..], key);
    }
  }

  // A name that was touched is never the empty one.
  lemma {:induction false} NameIsPlain(x: Option<Name>, edits: seq<Edit>)
    ensures Fold(ActName, x, edits) == x || Fold(ActName, x, edits) != Some(map[])
    decreases |edits|
  {
    if edits != [] {
      NameIsPlain(ActName(x, edits[0]), edits[1..]);
    }
  }

  lemma SameParts<V>(x: Option<map<string, V>>, y: Option<map<string, V>>)
    requires x.Some? == y.Some? && forall key :: PartOf(x, key) == PartOf(y, key)
    ensures x == y
  {
    if x.Some? {
      assert forall key :: key in x.value <==> PartOf(x, key).Some?;
      assert forall key :: key in y.value <==> PartOf(y, key).Some?;
      assert forall key | key in x.value :: PartOf(x, key) == Some(x.value[key]) && PartOf(y, key) == Some(y.value[key]);
      assert x.value == y.value;
    }
  }

  lemma NamesAreIdempotent(x: Option<Name>, edits: seq<Edit>)
    ensures Fold(ActName, Fold(ActName, x, edits), edits) == Fold(ActName, x, edits)
  {
    var y := Fold(ActName, x, edits);
    var z := Fold(ActName, y, edits);
    forall key
      ensures PartOf(z, key) == PartOf(y, key)
    {
      NameByPart(x, edits, key);
      NameByPart(y, edits, key);
      WritesAreIdempotent((v, e) => ActPart(key, v, e), PartOf(x, key), edits);
    }
    NameIsPlain(x, edits);
    NameIsPlain(y, edits);
    if y != x && z != y {
      SomePart(y);
      SomePart(z);
      SameParts(y, z);
    }
  }

  lemma SomePart(x: Option<Name>)
    requires x != Some(map[])
    ensures x.Some? <==> exists key :: PartOf(x, key).Some?
  {
    if x.Some? {
      var key :| key in x.value;
      assert PartOf(x, key).Some?;
    }
  }

  lemma ExtrasAreIdempotent(x: Option<Enterprise>, edits: seq<Edit>)
    ensures Fold(ActEnterprise, Fold(ActEnterprise, x, edits), edits) == Fold(ActEnterprise, x, edits)
  {
    var y := Fold(ActEnterprise, x, edits);
    var z := Fold(ActEnterprise, y, edits);
    forall key
      ensures PartOf(z, key) == PartOf(y, key)
    {
      EnterpriseByPart(x, edits, key);
      EnterpriseByPart(y, edits, key);
      WritesAreIdempotent((v, e) => ActExtra(key, v, e), PartOf(x, key), edits);
    }
    EnterpriseByPart(x, edits, "");
    EnterpriseByPart(y, edits, "");
    WritesAreIdempotent(ActPresence, x.Some?, edits);
    SameParts(y, z);
  }

  // ---------- Lists ----------

  predicate Touches(l: List, e: Edit) {
    (e.Upsert? || e.RemoveKind? || e.SetList? || e.ClearList?) && e.list == l
  }

  function Do(list: seq<MultiValue>, l: List, e: Edit): seq<MultiValue> {
    if !Touches(l, e) then list
    else
      match e
      case Upsert(_, kind, value) => UpsertByType(list, kind, value)
      case RemoveKind(_, kind) => WithoutKind(list, kind)
      case SetList(_, entries) => entries
      case _ => []
  }

  function DoAll(list: seq<MultiValue>, l: List, edits: seq<Edit>): seq<MultiValue>
    decreases |edits|
  {
    if edits == [] then list else DoAll(Do(list, l, edits[0]), l, edits[1..])
  }

  lemma DoesOnList(l: List, x: Option<seq<MultiValue>>, e: Edit)
    ensures OrEmpty(ActList(x, l, e)) == Do(OrEmpty(x), l, e)
    ensures ActList(x, l, e) == if Touches(l, e) then NonEmpty(Do(OrEmpty(x), l, e)) else x
  {
  }

  ghost predicate Touched(l: List, edits: seq<Edit>) {
    exists e | e in edits :: Touches(l, e)
  }

  // An absent list is an empty one to every edit, and an emptied one is absent.
  lemma {:induction false} FoldsLists(l: List, x: Option<seq<MultiValue>>, edits: seq<Edit>)
    ensures Fold((y, e) => ActList(y, l, e), x, edits)
         == if Touched(l, edits) then NonEmpty(DoAll(OrEmpty(x), l, edits)) else x
    decreases |edits|
  {
    if edits != [] {
      var e, rest := edits[0], edits[1..];
      DoesOnList(l, x, e);
      FoldsLists(l, ActList(x, l, e), rest);
      assert edits == [e] + rest;
      assert Touched(l, edits) <==> Touches(l, e) || Touched(l, rest);
      if !Touched(l, rest) {
        Untouched(Do(OrEmpty(x), l, e), l, rest);
      }
    }
  }

  lemma {:induction false} Untouched(list: seq<MultiValue>, l: List, edits: seq<Edit>)
    requires forall e | e in edits :: !Touches(l, e)
    ensures DoAll(list, l, edits) == list
    decreases |edits|
  {
    if edits != [] {
      assert edits[0] in edits;
      Untouched(list, l, edits[1..]);
    }
  }

  ghost predicate Idempotent(l: List, edits: seq<Edit>) {
    forall list :: DoAll(DoAll(list, l, edits), l, edits) == DoAll(list, l, edits)
  }

  // The list is assigned or cleared as a whole.
  ghost predicate Assigned(l: List, edits: seq<Edit>) {
    exists e | e in edits :: (e.SetList? || e.ClearList?) && e.list == l
  }

  // Some type is removed from the list and written to it.
  ghost predicate Mixed(l: List, edits: seq<Edit>) {
    exists e, e' | e in edits && e' in edits ::
      e.RemoveKind? && e'.Upsert? && e.list == l == e'.list && SameKind(e.kind, e'.kind)
  }

  ghost predicate Separable(edits: seq<Edit>) {
    forall l :: Assigned(l, edits) || !Mixed(l, edits)
  }

  lemma {:induction false} AssignedForgets(l: List, x: seq<MultiValue>, y: seq<MultiValue>, edits: seq<Edit>)
    requires Assigned(l, edits)
    ensures DoAll(x, l, edits) == DoAll(y, l, edits)
    decreases |edits|
  {
    assert edits == [edits[0]] + edits[1..];
    if !((edits[0].SetList? || edits[0].ClearList?) && edits[0].list == l) {
      AssignedForgets(l, Do(x, l, edits[0]), Do(y, l, edits[0]), edits[1..]);
    }
  }

  // The removals and the upserts of a run, each in their order.
  function Drops(l: List, edits: seq<Edit>): seq<string> {
    if edits == [] then []
    else (if edits[0].RemoveKind? && edits[0].list == l then [edits[0].kind] else []) + Drops(l, edits[1..])
  }

  function Puts(l: List, edits: seq<Edit>): seq<Put> {
    if edits == [] then []
    else (if edits[0].Upsert? && edits[0].list == l then [Put(edits[0].kind, edits[0].value)] else [])
         + Puts(l, edits[1..])
  }

  function DropAll(list: seq<MultiValue>, kinds: seq<string>): seq<MultiValue>
    decreases |kinds|
  {
    if kinds == [] then list else DropAll(WithoutKind(list, kinds[0]), kinds[1..])
  }

  // None of the kinds removed is written.
  ghost predicate Apart(kinds: seq<string>, puts: seq<Put>) {
    && (forall k | k in kinds :: k != "")
    && (forall p | p in puts :: p.kind != "")
    && (forall k, p | k in kinds && p in puts :: !SameKind(k, p.kind))
  }

  lemma {:induction false} DropsAndPuts(l: List, edits: seq<Edit>)
    ensures forall k | k in Drops(l, edits) :: RemoveKind(l, k) in edits
    ensures forall p | p in Puts(l, edits) :: Upsert(l, p.kind, p.value) in edits
  {
    if edits != [] {
      DropsAndPuts(l, edits[1..]);
      assert edits == [edits[0]] + edits[1..];
    }
  }

  lemma UnmixedIsApart(l: List, edits: seq<Edit>)
    requires Typed(edits) && !Mixed(l, edits)
    ensures Apart(Drops(l, edits), Puts(l, edits))
  {
    DropsAndPuts(l, edits);
    forall k | k in Drops(l, edits)
      ensures k != "" && forall p | p in Puts(l, edits) :: !SameKind(k, p.kind)
    {
      assert Fits(Remove, RemoveKind(l, k));
    }
    forall p | p in Puts(l, edits)
      ensures p.kind != ""
    {
      assert Fits(Remove, Upsert(l, p.kind, p.value));
    }
  }

  lemma {:induction false} DropsPassPut(list: seq<MultiValue>, kinds: seq<string>, p: Put)
    requires p.kind != "" && forall k | k in kinds :: k != "" && !SameKind(k, p.kind)
    ensures DropAll(UpsertByType(list, p.kind, p.value), kinds) == UpsertByType(DropAll(list, kinds), p.kind, p.value)
    decreases |kinds|
  {
    if kinds != [] {
      assert kinds[0] in kinds && forall k | k in kinds[1..] :: k in kinds;
      RemovalPassesUpsert(list, kinds[0], p.kind, p.value);
      DropsPassPut(WithoutKind(list, kinds[0]), kinds[1..], p);
    }
  }

  // The first edit of a run leads its removals or its upserts.
  lemma FirstLeads(l: List, e: Edit, rest: seq<Edit>)
    ensures Drops(l, [e] + rest) == (if e.RemoveKind? && e.list == l then [e.kind] else []) + Drops(l, rest)
    ensures Puts(l, [e] + rest)
         == (if e.Upsert? && e.list == l then [Put(e.kind, e.value)] else []) + Puts(l, rest)
  {
    assert ([e] + rest)[1..] == rest;
  }

  lemma ApartTail(ks: seq<string>, kinds: seq<string>, ps: seq<Put>, puts: seq<Put>)
    requires Apart(ks + kinds, ps + puts)
    ensures Apart(kinds, puts)
  {
    assert forall k | k in kinds :: k in ks + kinds;
    assert forall p | p in puts :: p in ps + puts;
  }

  // Removals first, upserts after them: the same list.
  lemma {:induction false} Sorted(list: seq<MultiValue>, l: List, edits: seq<Edit>)
    requires !Assigned(l, edits) && Apart(Drops(l, edits), Puts(l, edits))
    ensures DoAll(list, l, edits) == PutAll(DropAll(list, Drops(l, edits)), Puts(l, edits))
    decreases |edits|
  {
    if edits != [] {
      var e, rest := edits[0], edits[1..];
      assert edits == [e] + rest && e in edits;
      FirstLeads(l, e, rest);
      ApartTail(if e.RemoveKind? && e.list == l then [e.kind] else [], Drops(l, rest),
                if e.Upsert? && e.list == l then [Put(e.kind, e.value)] else [], Puts(l, rest));
      Sorted(Do(list, l, e), l, rest);
      FirstSorts(list, l, e, Drops(l, rest), Puts(l, rest));
    }
  }

  lemma FirstSorts(list: seq<MultiValue>, l: List, e: Edit, kinds: seq<string>, puts: seq<Put>)
    requires !((e.SetList? || e.ClearList?) && e.list == l)
    requires Apart((if e.RemoveKind? && e.list == l then [e.kind] else []) + kinds,
                   (if e.Upsert? && e.list == l then [Put(e.kind, e.value)] else []) + puts)
    ensures PutAll(DropAll(Do(list, l, e), kinds), puts)
         == PutAll(DropAll(list, (if e.RemoveKind? && e.list == l then [e.kind] else []) + kinds),
                   (if e.Upsert? && e.list == l then [Put(e.kind, e.value)] else []) + puts)
  {
    if e.Upsert? && e.list == l {
      var p := Put(e.kind, e.value);
      assert p in [p] + puts && ([p] + puts)[1..] == puts && [] + kinds == kinds;
      DropsPassPut(list, kinds, p);
    } else if e.RemoveKind? && e.list == l {
      assert ([e.kind] + kinds)[1..] == kinds && [] + puts == puts;
    } else {
      assert [] + kinds == kinds && [] + puts == puts;
    }
  }

  lemma {:induction false} DropsLeaveNone(list: seq<MultiValue>, kinds: seq<string>, kind: string)
    requires kind in kinds || Lacks(list, kind)
    ensures Lacks(DropAll(list, kinds), kind)
    decreases |kinds|
  {
    if kinds != [] {
      DropsLeaveNone(WithoutKind(list, kinds[0]), kinds[1..], kind);
    }
  }

  lemma {:induction false} PutsKeepLacking(list: seq<MultiValue>, puts: seq<Put>, kind: string)
    requires Lacks(list, kind) && Apart([kind], puts)
    ensures Lacks(PutAll(list, puts), kind)
    decreases |puts|
  {
    if puts != [] {
      var p := puts[0];
      assert kind in [kind] && p in puts;
      var i := UpsertPlaces(list, p.kind, p.value);
      var next := UpsertByType(list, p.kind, p.value);
      OneKindOnly(next[i], p.kind, kind);
      forall e | e in next
        ensures !HasKind(e, kind)
      {
        var j :| 0 <= j < |next| && next[j] == e;
        assert j != i ==> e == list[j];
      }
      PutsKeepLacking(next, puts[1..], kind);
    }
  }

  lemma {:induction false} NothingToDrop(list: seq<MultiValue>, kinds: seq<string>)
    requires forall k | k in kinds :: Lacks(list, k)
    ensures DropAll(list, kinds) == list
    decreases |kinds|
  {
    if kinds != [] {
      NothingToRemove(list, kinds[0]);
      NothingToDrop(list, kinds[1..]);
    }
  }

  lemma UnmixedIsIdempotent(l: List, edits: seq<Edit>, list: seq<MultiValue>)
    requires Typed(edits) && !Assigned(l, edits) && !Mixed(l, edits)
    ensures DoAll(DoAll(list, l, edits), l, edits) == DoAll(list, l, edits)
  {
    var kinds, puts := Drops(l, edits), Puts(l, edits);
    var base := DropAll(list, kinds);
    var y := PutAll(base, puts);
    UnmixedIsApart(l, edits);
    Sorted(list, l, edits);
    Sorted(y, l, edits);
    forall k | k in kinds
      ensures Lacks(y, k)
    {
      DropsLeaveNone(list, kinds, k);
      PutsKeepLacking(base, puts, k);
    }
    NothingToDrop(y, kinds);
    PutsAreIdempotent(base, puts);
  }

  lemma ListsAreIdempotent(l: List, edits: seq<Edit>)
    requires Typed(edits) && (Assigned(l, edits) || !Mixed(l, edits))
    ensures Idempotent(l, edits)
  {
    forall list
      ensures DoAll(DoAll(list, l, edits), l, edits) == DoAll(list, l, edits)
    {
      if Assigned(l, edits) {
        AssignedForgets(l, DoAll(list, l, edits), list, edits);
      } else {
        UnmixedIsIdempotent(l, edits, list);
      }
    }
  }

  lemma ListPart(l: List, x: Option<seq<MultiValue>>, edits: seq<Edit>)
    requires Idempotent(l, edits)
    ensures var f := (y, e) => ActList(y, l, e); Fold(f, Fold(f, x, edits), edits) == Fold(f, x, edits)
  {
    var f := (y, e) => ActList(y, l, e);
    FoldsLists(l, x, edits);
    FoldsLists(l, Fold(f, x, edits), edits);
  }

  // ---------- The record ----------

  lemma {:induction false} ActAllByPart(u: User, edits: seq<Edit>)
    ensures ActAll(u, edits) == User(
      u.id, Fold(ActExternalId, u.externalId, edits), Fold(ActUserName, u.userName, edits),
      Fold(ActActive, u.active, edits), Fold(ActName, u.name, edits), Fold(ActDisplayName, u.displayName, edits),
      Fold((y, e) => ActList(y, OfEmails, e), u.emails, edits),
      Fold((y, e) => ActList(y, OfPhoneNumbers, e), u.phoneNumbers, edits),
      Fold(ActEnterprise, u.enterprise, edits))
    decreases |edits|
  {
    if edits != [] {
      ActAllByPart(Act(u, edits[0]), edits[1..]);
    }
  }

  lemma EditsAreIdempotent(u: User, edits: seq<Edit>)
    requires Idempotent(OfEmails, edits) && Idempotent(OfPhoneNumbers, edits)
    ensures ActAll(ActAll(u, edits), edits) == ActAll(u, edits)
  {
    ActAllByPart(u, edits);
    ActAllByPart(ActAll(u, edits), edits);
    WritesAreIdempotent(ActExternalId, u.externalId, edits);
    WritesAreIdempotent(ActUserName, u.userName, edits);
    WritesAreIdempotent(ActActive, u.active, edits);
    WritesAreIdempotent(ActDisplayName, u.displayName, edits);
    NamesAreIdempotent(u.name, edits);
    ExtrasAreIdempotent(u.enterprise, edits);
    ListPart(OfEmails, u.emails, edits);
    ListPart(OfPhoneNumbers, u.phoneNumbers, edits);
  }

  // Sending a PATCH again changes nothing, for every body and every record, when
  // each list is assigned or cleared as a whole somewhere in it, or no type of it
  // is both removed and written. Name and extension may be edited in any way.
  lemma PatchIsIdempotent(body: Json, u: User)
    requires IsPatch(body) && Separable(CompileAll(Operations(body).items).edits)
    requires NormalizeSpec(body, u).Ok?
    ensures var u' := Apply(NormalizeSpec(body, u).value, u);
            NormalizeSpec(body, u').Ok? && Apply(NormalizeSpec(body, u').value, u') == u'
  {
    var ops := Operations(body).items;
    var u' := Apply(NormalizeSpec(body, u).value, u);
    OpsFit(ops, Remove);
    NormalizeMeans(ops, u);
    NormalizeMeans(ops, u');
    TouchedByBodyAlone(body, u, u');
    ListsAreIdempotent(OfEmails, CompileAll(ops).edits);
    ListsAreIdempotent(OfPhoneNumbers, CompileAll(ops).edits);
    EditsAreIdempotent(u, CompileAll(ops).edits);
  }

  // So it is for every body without `remove` operations.
  lemma WithoutRemovalsSeparable(ops: seq<Json>)
    requires forall op | op in ops :: !IsRemoval(op)
    ensures Separable(CompileAll(ops).edits)
  {
    OpsFit(ops, Add);
  }

  // ---------- A type removed and written ----------

  // Take the work address away, and add one.
  function RemoveThenAdd(address: string): Json {
    Object([Field("Operations", Array([
      S.Operation("remove", Qualified("work"), Null),
      S.Operation("add", Qualified("work"), String(address))]))])
  }

  lemma OpsParse()
    ensures ParseOp("remove") == Some(Remove) && ParseOp("add") == Some(Add)
  {
    assert Lower("remove") == "remove" && Lower("add") == "add";
    assert "add"[0] != "remove"[0] && "replace"[2] != "remove"[2];
  }

  lemma CompilesToTwo(first: Json, second: Json, e: Edit, e': Edit)
    requires Compile(first) == Only(e) && Compile(second) == Only(e')
    ensures CompileAll([first, second]) == Compiled([e, e'], None)
  {
    assert [first, second][1..] == [second] && [second][1..] == [];
    assert CompileAll([second]) == Compiled([e'] + [], None);
    assert CompileAll([first, second]) == Compiled([e] + [e'], None);
  }

  lemma RemoveThenAddCompiles(address: string)
    ensures IsPatch(RemoveThenAdd(address))
    ensures CompileAll(Operations(RemoveThenAdd(address)).items)
         == Compiled([RemoveKind(OfEmails, "work"), Upsert(OfEmails, "work", address)], None)
  {
    var first, second := S.Operation("remove", Qualified("work"), Null), S.Operation("add", Qualified("work"), String(address));
    assert "Operations"[0] != "schemas"[0];
    OneField("Operations", Array([first, second]), "schemas");
    OpsParse();
    QualifiedCompiles(Remove, "work", Null);
    QualifiedCompiles(Add, "work", String(address));
    S.OperationCompiles("remove", Qualified("work"), Null);
    S.OperationCompiles("add", Qualified("work"), String(address));
    CompilesToTwo(first, second, RemoveKind(OfEmails, "work"), Upsert(OfEmails, "work", address));
  }

  lemma RemoveKeepsUntyped(x: MultiValue, w: MultiValue, kind: string)
    requires x.kind.None? && w.kind == Some(kind) && kind != ""
    ensures WithoutKind([x, w], kind) == [x] && WithoutKind([w], kind) == []
  {
    assert |Lower("")| != |Lower(kind)|;
    assert !HasKind(x, kind) && HasKind(w, kind);
    assert [x, w][1..] == [w] && [w][1..] == [];
    assert WithoutKind([w], kind) == [] + [];
    assert WithoutKind([x, w], kind) == [x] + [];
  }

  lemma AddAdopts(x: MultiValue, kind: string, address: string)
    requires x.kind.None? && kind != ""
    ensures UpsertByType([x], kind, address) == [MultiValue(address, Some(kind), x.primary)]
    ensures UpsertByType([], kind, address) == [MultiValue(address, Some(kind), None)]
  {
    assert |Lower("")| != |Lower(kind)|;
    assert [x][1..] == [];
    assert FindKind([x], kind) == 1 && Untyped([x]) == 1 && FirstUntyped([x]) == 0;
  }

  // With a removal it can fail: taking the work address away and adding one adopts
  // an untyped address the first time and makes a fresh one the second, so that a
  // primary address stops being primary.
  lemma RemovalsAreNot(u: User, x: MultiValue, w: MultiValue, address: string)
    requires u.emails == Some([x, w]) && x == MultiValue(x.value, None, Some(true)) && w.kind == Some("work")
    ensures var body := RemoveThenAdd(address);
            var once := Outcome(NormalizeSpec(body, u), u);
            && once.Ok? && once.value.emails == Some([MultiValue(address, Some("work"), Some(true))])
            && var twice := Outcome(NormalizeSpec(body, once.value), once.value);
               twice.Ok? && twice.value.emails == Some([MultiValue(address, Some("work"), None)])
  {
    var body := RemoveThenAdd(address);
    var edits := [RemoveKind(OfEmails, "work"), Upsert(OfEmails, "work", address)];
    var a := MultiValue(address, Some("work"), Some(true));
    RemoveThenAddCompiles(address);
    NormalizeMeans(Operations(body).items, u);
    NormalizeMeans(Operations(body).items, ActAll(u, edits));
    RemoveKeepsUntyped(x, w, "work");
    RemoveKeepsUntyped(x, a, "work");
    AddAdopts(x, "work", address);
    ActTwo(u, edits[0], edits[1]);
    ActTwo(ActAll(u, edits), edits[0], edits[1]);
  }

  lemma ActTwo(u: User, e: Edit, e': Edit)
    ensures ActAll(u, [e, e']) == Act(Act(u, e), e')
  {
    assert [e, e'][1..] == [e'] && [e'][1..] == [];
    assert ActAll(Act(u, e), [e']) == Act(Act(u, e), e');
  }
}
