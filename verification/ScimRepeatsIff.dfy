// Without the condition there is a list that shows the difference; so it is exact,
// for lists and for whole PATCH requests.
module ScimRepeatsIff {
  import opened Wrappers
  import opened Text
  import opened Json
  import opened ScimUser
  import opened ScimLists
  import opened ScimPatch
  import opened ScimPatchTheorems
  import opened ScimIdempotence
  import opened ScimRepeats

  // ---------- Lists that show the difference ----------

  // An entry of each type that is written.
  function Samples(l: List, edits: seq<Edit>): seq<MultiValue> {
    if edits == [] then []
    else (if edits[0].Upsert? && edits[0].list == l then [MultiValue("", Some(edits[0].kind), None)] else [])
         + Samples(l, edits[1..])
  }

  const LONE := MultiValue("", None, Some(true))

  // Every type that is written is there.
  ghost predicate AllThere(list: seq<MultiValue>, l: List, edits: seq<Edit>) {
    forall e | e in edits && e.Upsert? && e.list == l :: !Lacks(list, e.kind)
  }

  // An entry without a type is marked primary.
  predicate LonePrimary(list: seq<MultiValue>) {
    Untyped(list) == 1 && forall e | e in list && e.kind.None? :: e.primary == Some(true)
  }

  lemma {:induction false} SamplesHave(l: List, edits: seq<Edit>)
    ensures forall e | e in Samples(l, edits) :: e.kind.Some?
    ensures Untyped(Samples(l, edits)) == 0
    ensures forall e | e in edits && e.Upsert? && e.list == l :: MultiValue("", Some(e.kind), None) in Samples(l, edits)
  {
    if edits != [] {
      SamplesHave(l, edits[1..]);
      assert edits == [edits[0]] + edits[1..];
      NoneUntyped(Samples(l, edits));
    }
  }

  lemma LoneAndSamples(l: List, edits: seq<Edit>)
    ensures AllThere([LONE] + Samples(l, edits), l, edits) && LonePrimary([LONE] + Samples(l, edits))
  {
    var list := [LONE] + Samples(l, edits);
    SamplesHave(l, edits);
    assert list[1..] == Samples(l, edits);
    forall e | e in edits && e.Upsert? && e.list == l
      ensures !Lacks(list, e.kind)
    {
      var sample := MultiValue("", Some(e.kind), None);
      assert sample in list && HasKind(sample, e.kind);
    }
  }

  lemma NotRewrittenRest(l: List, edits: seq<Edit>)
    requires edits != [] && !Rewritten(l, edits)
    ensures !Rewritten(l, edits[1..])
    ensures edits[0].RemoveKind? && edits[0].list == l ==>
              forall e | e in edits[1..] && e.Upsert? && e.list == l :: !SameKind(edits[0].kind, e.kind)
  {
    var first, rest := edits[0], edits[1..];
    forall q | 0 <= q < |rest| && rest[q].Upsert? && rest[q].list == l
      ensures !Listed(Drops(l, [first]) + Drops(l, rest[..q]), rest[q].kind)
    {
      assert edits[..q + 1] == [first] + rest[..q] && edits[q + 1] == rest[q];
      DropsSplit(l, [first], rest[..q]);
      assert !Rewrites(l, edits, q + 1);
    }
    forall q
      ensures !Rewrites(l, rest, q)
    {
      if 0 <= q < |rest| { ListedSplits(Drops(l, [first]), Drops(l, rest[..q]), if rest[q].Upsert? then rest[q].kind else ""); }
    }
    if first.RemoveKind? && first.list == l {
      assert [first][1..] == [] && Drops(l, [first]) == [first.kind] + [];
      forall e | e in rest && e.Upsert? && e.list == l
        ensures !SameKind(first.kind, e.kind)
      {
        var q :| 0 <= q < |rest| && rest[q] == e;
        assert first.kind in Drops(l, [first]) + Drops(l, rest[..q]);
      }
    }
  }

  // As long as nothing is written again, all that is written is there and nothing is adopted.
  lemma {:induction false} StaysLone(list: seq<MultiValue>, l: List, edits: seq<Edit>)
    requires Plain(l, edits) && !Rewritten(l, edits) && AllThere(list, l, edits) && LonePrimary(list)
    ensures LonePrimary(DoAll(list, l, edits))
    decreases |edits|
  {
    if edits != [] {
      PlainFirst(l, edits);
      NotRewrittenRest(l, edits);
      LoneStep(list, l, edits[0]);
      ThereStep(list, l, edits);
      StaysLone(Do(list, l, edits[0]), l, edits[1..]);
    }
  }

  lemma LoneStep(list: seq<MultiValue>, l: List, e: Edit)
    requires PlainEdit(l, e) && LonePrimary(list) && (e.Upsert? && e.list == l ==> !Lacks(list, e.kind))
    ensures LonePrimary(Do(list, l, e))
  {
    if e.RemoveKind? && e.list == l {
      RemovalKeepsUntyped(list, e.kind);
    } else if e.Upsert? && e.list == l {
      Present(list, e.kind);
      var i := FindKind(list, e.kind);
      var next := list[i := list[i].(value := e.value)];
      SameKindsUntyped(list, next);
      forall x | x in next && x.kind.None?
        ensures x.primary == Some(true)
      {
        var j :| 0 <= j < |next| && next[j] == x;
        assert list[j] in list && list[j].kind == x.kind && list[j].primary == x.primary;
      }
    }
  }

  lemma ThereStep(list: seq<MultiValue>, l: List, edits: seq<Edit>)
    requires edits != [] && Plain(l, edits) && AllThere(list, l, edits)
    requires edits[0].RemoveKind? && edits[0].list == l ==>
               forall e | e in edits[1..] && e.Upsert? && e.list == l :: !SameKind(edits[0].kind, e.kind)
    ensures AllThere(Do(list, l, edits[0]), l, edits[1..])
  {
    var first := edits[0];
    PlainFirst(l, edits);
    forall e | e in edits[1..] && e.Upsert? && e.list == l
      ensures !Lacks(Do(list, l, first), e.kind)
    {
      assert e in edits && PlainEdit(l, e);
      if first.Upsert? && first.list == l && SameKind(first.kind, e.kind) {
        PutShows(list, first.kind, first.value);
        Present(Do(list, l, first), first.kind);
        SameKindHas(first.kind, e.kind);
      } else {
        StillLacks(list, l, first, e.kind);
      }
    }
  }

  lemma {:induction false} StaysLacking(list: seq<MultiValue>, l: List, edits: seq<Edit>, kind: string)
    requires Plain(l, edits) && kind != "" && Lacks(list, kind)
    requires forall e | e in edits && e.Upsert? && e.list == l :: !SameKind(e.kind, kind)
    ensures Lacks(DoAll(list, l, edits), kind)
    decreases |edits|
  {
    if edits != [] {
      var e := edits[0];
      PlainFirst(l, edits);
      assert e in edits && forall x | x in edits[1..] :: x in edits;
      if e.RemoveKind? && e.list == l {
      } else {
        StillLacks(list, l, e, kind);
      }
      StaysLacking(Do(list, l, e), l, edits[1..], kind);
    }
  }

  // What is removed and not written again is gone at the end.
  lemma {:induction false} RemovedIsGone(list: seq<MultiValue>, l: List, edits: seq<Edit>, kind: string)
    requires Plain(l, edits) && kind != "" && !Rewritten(l, edits) && Listed(Drops(l, edits), kind)
    ensures Lacks(DoAll(list, l, edits), kind)
    decreases |edits|
  {
    if edits != [] {
      var e, rest := edits[0], edits[1..];
      PlainFirst(l, edits);
      NotRewrittenRest(l, edits);
      if e.RemoveKind? && e.list == l && SameKind(e.kind, kind) {
        SameKindHas(e.kind, kind);
        StaysLacking(Do(list, l, e), l, rest, kind);
      } else {
        FirstLeads(l, e, rest);
        ListedSplits(if e.RemoveKind? && e.list == l then [e.kind] else [], Drops(l, rest), kind);
        RemovedIsGone(Do(list, l, e), l, rest, kind);
      }
    }
  }

  lemma {:induction false} StaysSteady(list: seq<MultiValue>, l: List, edits: seq<Edit>)
    requires Plain(l, edits) && Steady(list)
    ensures Steady(DoAll(list, l, edits))
    decreases |edits|
  {
    if edits != [] {
      PlainFirst(l, edits);
      SteadyStep(list, l, edits[0]);
      StaysSteady(Do(list, l, edits[0]), l, edits[1..]);
    }
  }

  lemma SteadyStep(list: seq<MultiValue>, l: List, e: Edit)
    requires PlainEdit(l, e) && Steady(list)
    ensures Steady(Do(list, l, e))
  {
    if e.RemoveKind? && e.list == l {
      RemovalKeepsUntyped(list, e.kind);
    } else if e.Upsert? && e.list == l {
      SteadyPut(list, e.kind, e.value);
    }
  }

  // Writing a type that is not there takes the lone untyped entry, if nothing did before.
  lemma {:induction false} AdoptsSomewhere(list: seq<MultiValue>, l: List, edits: seq<Edit>, kind: string)
    requires Plain(l, edits) && kind != "" && Untyped(list) == 1 && Lacks(list, kind)
    requires exists e | e in edits :: e.Upsert? && e.list == l && SameKind(e.kind, kind)
    ensures Steady(DoAll(list, l, edits))
    decreases |edits|
  {
    var e, rest := edits[0], edits[1..];
    PlainFirst(l, edits);
    if e.Upsert? && e.list == l && Lacks(list, e.kind) {
      AdoptionSteadies(list, e.kind, e.value);
      StaysSteady(Do(list, l, e), l, rest);
    } else {
      LoneStays(list, l, e);
      assert !(e.Upsert? && e.list == l && SameKind(e.kind, kind));
      if !(e.RemoveKind? && e.list == l) { StillLacks(list, l, e, kind); }
      AdoptsSomewhere(Do(list, l, e), l, rest, kind);
    }
  }

  lemma LoneStays(list: seq<MultiValue>, l: List, e: Edit)
    requires PlainEdit(l, e) && (e.Upsert? && e.list == l ==> !Lacks(list, e.kind))
    ensures Untyped(Do(list, l, e)) == Untyped(list)
  {
    if e.RemoveKind? && e.list == l {
      RemovalKeepsUntyped(list, e.kind);
    } else if e.Upsert? && e.list == l {
      Present(list, e.kind);
      SameKindsUntyped(list, Do(list, l, e));
    }
  }

  lemma AdoptionSteadies(list: seq<MultiValue>, kind: string, value: string)
    requires Untyped(list) == 1 && Lacks(list, kind)
    ensures Untyped(UpsertByType(list, kind, value)) == 0
    ensures LonePrimary(list) ==> exists e | e in UpsertByType(list, kind, value) :: HasKind(e, kind) && e.primary == Some(true)
  {
    var u := FirstUntyped(list);
    var front, x, back := list[..u], list[u], list[u + 1..];
    var y := x.(value := value, kind := Some(kind));
    assert list == front + [x] + back;
    Present(list, kind);
    UpdateMiddle(front, x, back, y);
    UntypedMiddle(front, [x], back);
    UntypedMiddle(front, [y], back);
    assert [x][1..] == [] && [y][1..] == [];
    assert x in list && HasKind(y, kind) && y in front + [y] + back;
  }

  // Nothing written again, but some type written and then removed: the second time
  // it is not there to be written, and takes the untyped entry with it.
  lemma MixedShows(l: List, edits: seq<Edit>)
    requires Plain(l, edits) && !Rewritten(l, edits) && Mixed(l, edits)
    ensures !Idempotent(l, edits)
  {
    var e, w :| e in edits && w in edits && e.RemoveKind? && w.Upsert? && e.list == l == w.list && SameKind(e.kind, w.kind);
    var list := [LONE] + Samples(l, edits);
    var y := DoAll(list, l, edits);
    LoneAndSamples(l, edits);
    StaysLone(list, l, edits);
    assert PlainEdit(l, w);
    RemovalIsListed(l, edits, e);
    assert Listed(Drops(l, edits), w.kind);
    RemovedIsGone(list, l, edits, w.kind);
    AdoptsSomewhere(y, l, edits, w.kind);
    assert DoAll(y, l, edits) != y;
  }

  lemma {:induction false} RemovalIsListed(l: List, edits: seq<Edit>, e: Edit)
    requires e in edits && e.RemoveKind? && e.list == l
    ensures e.kind in Drops(l, edits)
  {
    assert edits == [edits[0]] + edits[1..];
    if e != edits[0] {
      RemovalIsListed(l, edits[1..], e);
    }
  }

  ghost predicate HasPrimary(list: seq<MultiValue>, kind: string) {
    exists e | e in list :: HasKind(e, kind) && e.primary == Some(true)
  }

  lemma {:induction false} PrimaryStays(list: seq<MultiValue>, l: List, edits: seq<Edit>, kind: string)
    requires Plain(l, edits) && kind != "" && Steady(list) && HasPrimary(list, kind) && !Listed(Drops(l, edits), kind)
    ensures HasPrimary(DoAll(list, l, edits), kind)
    decreases |edits|
  {
    if edits != [] {
      var e, rest := edits[0], edits[1..];
      PlainFirst(l, edits);
      FirstLeads(l, e, rest);
      ListedSplits(if e.RemoveKind? && e.list == l then [e.kind] else [], Drops(l, rest), kind);
      assert e.RemoveKind? && e.list == l ==> e.kind in [e.kind];
      SteadyStep(list, l, e);
      PrimaryStep(list, l, e, kind);
      PrimaryStays(Do(list, l, e), l, rest, kind);
    }
  }

  lemma PrimaryStep(list: seq<MultiValue>, l: List, e: Edit, kind: string)
    requires PlainEdit(l, e) && kind != "" && Steady(list) && HasPrimary(list, kind)
    requires e.RemoveKind? && e.list == l ==> !SameKind(e.kind, kind)
    ensures HasPrimary(Do(list, l, e), kind)
  {
    var x :| x in list && HasKind(x, kind) && x.primary == Some(true);
    var next := Do(list, l, e);
    if e.RemoveKind? && e.list == l {
      if HasKind(x, e.kind) { OneKindOnly(x, e.kind, kind); }
      assert x in next;
    } else if e.Upsert? && e.list == l {
      SteadyPut(list, e.kind, e.value);
      var j :| 0 <= j < |list| && list[j] == x;
      assert next[j] in next && HasKind(next[j], kind);
    }
  }

  lemma NoPrimaryStep(list: seq<MultiValue>, l: List, e: Edit, kind: string)
    requires PlainEdit(l, e) && Steady(list) && !HasPrimary(list, kind)
    ensures !HasPrimary(Do(list, l, e), kind)
  {
    var next := Do(list, l, e);
    if e.Upsert? && e.list == l {
      SteadyPut(list, e.kind, e.value);
      forall x | x in next
        ensures !(HasKind(x, kind) && x.primary == Some(true))
      {
        var j :| 0 <= j < |next| && next[j] == x;
        if j < |list| { assert list[j] in list; }
      }
    }
  }

  lemma {:induction false} NoPrimaryStays(list: seq<MultiValue>, l: List, edits: seq<Edit>, kind: string)
    requires Plain(l, edits) && Steady(list) && !HasPrimary(list, kind)
    ensures !HasPrimary(DoAll(list, l, edits), kind)
    decreases |edits|
  {
    if edits != [] {
      PlainFirst(l, edits);
      SteadyStep(list, l, edits[0]);
      NoPrimaryStep(list, l, edits[0], kind);
      NoPrimaryStays(Do(list, l, edits[0]), l, edits[1..], kind);
    }
  }

  // A removal takes the mark away, and a fresh entry has none.
  lemma {:induction false} PrimaryGoes(list: seq<MultiValue>, l: List, edits: seq<Edit>, kind: string)
    requires Plain(l, edits) && Steady(list) && Listed(Drops(l, edits), kind)
    ensures !HasPrimary(DoAll(list, l, edits), kind)
    decreases |edits|
  {
    if edits != [] {
      var e, rest := edits[0], edits[1..];
      PlainFirst(l, edits);
      SteadyStep(list, l, e);
      if e.RemoveKind? && e.list == l && SameKind(e.kind, kind) {
        SameKindHas(e.kind, kind);
        NoPrimaryStays(Do(list, l, e), l, rest, kind);
      } else {
        FirstLeads(l, e, rest);
        ListedSplits(if e.RemoveKind? && e.list == l then [e.kind] else [], Drops(l, rest), kind);
        PrimaryGoes(Do(list, l, e), l, rest, kind);
      }
    }
  }

  lemma NotRewrittenUpTo(l: List, edits: seq<Edit>, p: int)
    requires FirstRewrite(l, edits, p)
    ensures !Rewritten(l, edits[..p])
  {
    forall q
      ensures !Rewrites(l, edits[..p], q)
    {
      if 0 <= q < p {
        assert edits[..p][..q] == edits[..q];
        assert !Rewrites(l, edits, q);
      }
    }
  }

  // The first type written again stays: it adopts a primary entry the first time,
  // and the second time that entry is removed and a fresh one made.
  lemma UnsettledShows(l: List, edits: seq<Edit>, p: int)
    requires Plain(l, edits) && FirstRewrite(l, edits, p) && !Listed(Drops(l, edits[p + 1..]), edits[p].kind)
    ensures !Idempotent(l, edits)
  {
    var before, e, rest := edits[..p], edits[p], edits[p + 1..];
    var kind := e.kind;
    assert edits == before + ([e] + rest) && e in edits && PlainEdit(l, e);
    PlainParts(l, before, [e] + rest);
    PlainParts(l, [e], rest);
    var list := [LONE] + Samples(l, before);
    var s := DoAll(list, l, before);
    LoneAndSamples(l, before);
    NotRewrittenUpTo(l, edits, p);
    StaysLone(list, l, before);
    RemovedIsGone(list, l, before, kind);
    AdoptionSteadies(s, kind, e.value);
    var y := DoAll(list, l, edits);
    assert y == DoAll(Do(s, l, e), l, rest) by {
      DoAppends(list, l, before, [e] + rest);
      FirstDone(s, l, e, rest);
    }
    PrimaryStays(Do(s, l, e), l, rest, kind);
    StaysSteady(Do(s, l, e), l, rest);
    DropsSplit(l, before, [e] + rest);
    ListedSplits(Drops(l, before), Drops(l, [e] + rest), kind);
    PrimaryGoes(y, l, edits, kind);
    assert DoAll(y, l, edits) != y;
  }

  lemma {:induction false} DoAppends(list: seq<MultiValue>, l: List, xs: seq<Edit>, ys: seq<Edit>)
    ensures DoAll(list, l, xs + ys) == DoAll(DoAll(list, l, xs), l, ys)
    decreases |xs|
  {
    if xs == [] {
      assert xs + ys == ys;
    } else {
      assert (xs + ys)[1..] == xs[1..] + ys;
      DoAppends(Do(list, l, xs[0]), l, xs[1..], ys);
    }
  }

  // A kind that is there keeps its place; one that is not comes later.
  lemma KeepsPlace(list: seq<MultiValue>, puts: seq<Put>, kind: string, other: string)
    requires Steady(list) && !Lacks(list, kind) && Lacks(list, other)
    ensures FindKind(PutAll(list, puts), kind) == FindKind(list, kind) < |list| <= FindKind(PutAll(list, puts), other)
  {
    var next := PutAll(list, puts);
    var i := FindKind(list, kind);
    Present(list, kind);
    SteadyPuts(list, puts);
    assert forall j | 0 <= j < |list| :: HasKind(next[j], kind) == HasKind(list[j], kind);
    FoundAt(next, kind, i);
    forall j | 0 <= j < |list|
      ensures !HasKind(next[j], other)
    {
      assert list[j] in list;
    }
  }

  lemma {:induction false} NotWritten(list: seq<MultiValue>, puts: seq<Put>, kind: string)
    requires AllTyped(puts) && kind != "" && Lacks(list, kind) && !Mentions(puts, kind)
    ensures Lacks(PutAll(list, puts), kind)
    decreases |puts|
  {
    if puts != [] {
      var p := puts[0];
      assert p in puts && forall x | x in puts[1..] :: x in puts;
      UpsertStillLacks(list, p.kind, p.value, kind);
      NotWritten(UpsertByType(list, p.kind, p.value), puts[1..], kind);
    }
  }

  lemma WrittenIsThere(list: seq<MultiValue>, puts: seq<Put>, kind: string)
    requires AllTyped(puts) && kind != "" && Mentions(puts, kind)
    ensures !Lacks(PutAll(list, puts), kind)
  {
    PutsShowLast(list, puts, kind);
    Present(PutAll(list, puts), kind);
  }

  lemma {:induction false} EmptyStaysEmpty(kinds: seq<string>)
    ensures DropAll([], kinds) == []
  {
    if kinds != [] {
      EmptyStaysEmpty(kinds[1..]);
    }
  }

  // Written after one that is removed each time: on an empty list it comes behind
  // it the first time, and before it the second.
  lemma DisorderShows(l: List, edits: seq<Edit>, i: int, j: int)
    requires Plain(l, edits)
    requires var puts, kinds := Live(l, edits), Drops(l, edits);
             && 0 <= i < |puts| && 0 <= j < |puts| && Listed(kinds, puts[i].kind) && !Listed(kinds, puts[j].kind)
             && !Mentions(puts[..i], puts[j].kind)
    ensures !Idempotent(l, edits)
  {
    var puts, kinds := Live(l, edits), Drops(l, edits);
    var moved, kept := puts[i].kind, puts[j].kind;
    DropsTyped(l, edits);
    assert puts[i] in puts && puts[j] in puts;
    EmptyStaysEmpty(kinds);
    SteadySorted([], l, edits);
    var y := PutAll([], puts);
    BehindFirst(puts, i, moved, kept);
    SteadyPuts([], puts);
    SteadySorted(y, l, edits);
    DropsLeaveOthers([], puts, kinds);
    var base := PutAll([], Others(puts, kinds));
    AheadThen(puts, kinds, moved, puts[j]);
    assert DoAll([], l, edits) == y && DoAll(y, l, edits) == PutAll(base, puts);
    assert FindKind(PutAll(base, puts), kept) < FindKind(PutAll(base, puts), moved);
  }

  lemma BehindFirst(puts: seq<Put>, i: int, moved: string, kept: string)
    requires AllTyped(puts) && 0 <= i < |puts| && puts[i].kind == moved && kept != ""
    requires !SameKind(moved, kept) && !Mentions(puts[..i], kept)
    ensures FindKind(PutAll([], puts), moved) < FindKind(PutAll([], puts), kept)
  {
    var first, rest := puts[..i + 1], puts[i + 1..];
    assert puts == first + rest && puts[i] in first;
    assert first == puts[..i] + [puts[i]];
    assert !Mentions(first, kept);
    assert SameKind(moved, moved) && Mentions(first, moved);
    assert AllTyped(first) by { assert forall p | p in first :: p in puts; }
    assert moved != "" by { assert puts[i] in puts; }
    NotWritten([], first, kept);
    WrittenIsThere([], first, moved);
    SteadyPuts([], first);
    PutsAppend([], first, rest);
    KeepsPlace(PutAll([], first), rest, moved, kept);
  }

  lemma AheadThen(puts: seq<Put>, kinds: seq<string>, moved: string, p: Put)
    requires AllTyped(puts) && moved != "" && p in puts && Listed(kinds, moved) && !Listed(kinds, p.kind)
    ensures var next := PutAll(PutAll([], Others(puts, kinds)), puts); FindKind(next, p.kind) < FindKind(next, moved)
  {
    var others := Others(puts, kinds);
    OthersOnly(puts, kinds);
    OthersHas(puts, kinds, p);
    assert AllTyped(others) && p.kind != "";
    assert SameKind(p.kind, p.kind) && Mentions(others, p.kind);
    assert !Mentions(others, moved);
    NotWritten([], others, moved);
    WrittenIsThere([], others, p.kind);
    SteadyPuts([], others);
    KeepsPlace(PutAll([], others), puts, p.kind, moved);
  }

  lemma {:induction false} OthersHas(puts: seq<Put>, kinds: seq<string>, p: Put)
    requires p in puts && !Listed(kinds, p.kind)
    ensures p in Others(puts, kinds)
  {
    assert puts == [puts[0]] + puts[1..];
    if p != puts[0] {
      OthersHas(puts[1..], kinds, p);
    }
  }

  // ---------- The exact condition ----------

  // Edits leave every list alike, sent once or twice, exactly when they are repeatable.
  lemma ListIsIdempotentIff(l: List, edits: seq<Edit>)
    requires Typed(edits)
    ensures Idempotent(l, edits) <==> Repeatable(l, edits)
  {
    if Assigned(l, edits) {
      ListsAreIdempotent(l, edits);
    } else {
      UnassignedIsPlain(l, edits);
      if Repeatable(l, edits) {
        RepeatableIsIdempotent(l, edits);
      } else if !Rewritten(l, edits) {
        MixedShows(l, edits);
      } else if p :| FirstRewrite(l, edits, p) && !Listed(Drops(l, edits[p + 1..]), edits[p].kind) {
        UnsettledShows(l, edits, p);
      } else {
        assert Settled(l, edits) && !Ordered(l, edits);
        var puts, kinds := Live(l, edits), Drops(l, edits);
        var i, j :| 0 <= i < |puts| && 0 <= j < |puts| && Listed(kinds, puts[i].kind) && !Listed(kinds, puts[j].kind)
                    && !Mentions(puts[..i], puts[j].kind);
        DisorderShows(l, edits, i, j);
      }
    }
  }

  lemma UnassignedIsPlain(l: List, edits: seq<Edit>)
    requires Typed(edits) && !Assigned(l, edits)
    ensures Plain(l, edits)
  {
    forall e | e in edits
      ensures PlainEdit(l, e)
    {
      assert Fits(Remove, e);
    }
  }

  // ---------- Whole requests ----------

  // The second sending finds the record as the first left it, and leaves it so.
  ghost predicate SentTwiceIsOnce(body: Json, u: User) {
    var once := Outcome(NormalizeSpec(body, u), u);
    once.Ok? && Outcome(NormalizeSpec(body, once.value), once.value) == once
  }

  ghost predicate ActsOnce(edits: seq<Edit>, u: User) {
    ActAll(ActAll(u, edits), edits) == ActAll(u, edits)
  }

  // The record with this list, and nothing else.
  function Holding(l: List, list: seq<MultiValue>): User {
    var u := User("", None, "", false, None, None, None, None, None);
    match l
    case OfEmails => u.(emails := NonEmpty(list))
    case OfPhoneNumbers => u.(phoneNumbers := NonEmpty(list))
  }

  function ListOf(l: List, u: User): Option<seq<MultiValue>> {
    match l
    case OfEmails => u.emails
    case OfPhoneNumbers => u.phoneNumbers
  }

  lemma ListOfAll(l: List, u: User, edits: seq<Edit>)
    ensures ListOf(l, ActAll(u, edits)) == Fold((y, e) => ActList(y, l, e), ListOf(l, u), edits)
  {
    ActAllByPart(u, edits);
  }

  lemma ListShowsInRecord(l: List, list: seq<MultiValue>, edits: seq<Edit>)
    requires DoAll(DoAll(list, l, edits), l, edits) != DoAll(list, l, edits)
    ensures !ActsOnce(edits, Holding(l, list))
  {
    var u := Holding(l, list);
    ListOfAll(l, u, edits);
    ListOfAll(l, ActAll(u, edits), edits);
    FoldsLists(l, ListOf(l, u), edits);
    FoldsLists(l, ListOf(l, ActAll(u, edits)), edits);
    if forall e | e in edits :: !Touches(l, e) {
      Untouched(list, l, edits);
      Untouched(DoAll(list, l, edits), l, edits);
    }
  }

  lemma RecordIsIdempotentIff(edits: seq<Edit>)
    ensures (forall u :: ActsOnce(edits, u))
       <==> Idempotent(OfEmails, edits) && Idempotent(OfPhoneNumbers, edits)
  {
    if l :| !Idempotent(l, edits) {
      var list :| DoAll(DoAll(list, l, edits), l, edits) != DoAll(list, l, edits);
      ListShowsInRecord(l, list, edits);
      assert l == OfEmails || l == OfPhoneNumbers;
    } else {
      forall u
        ensures ActsOnce(edits, u)
      {
        EditsAreIdempotent(u, edits);
      }
    }
  }

  lemma SentTwiceMeans(body: Json, u: User)
    requires IsPatch(body) && CompileAll(Operations(body).items).error.None?
    ensures SentTwiceIsOnce(body, u) <==> ActsOnce(CompileAll(Operations(body).items).edits, u)
  {
    var edits := CompileAll(Operations(body).items).edits;
    OutcomeIs(body, u);
    OutcomeIs(body, ActAll(u, edits));
  }

  lemma OutcomeIs(body: Json, u: User)
    requires IsPatch(body) && CompileAll(Operations(body).items).error.None?
    ensures Outcome(NormalizeSpec(body, u), u) == Ok(ActAll(u, CompileAll(Operations(body).items).edits))
  {
    NormalizeMeans(Operations(body).items, u);
  }

  lemma AlikeForAll(body: Json, edits: seq<Edit>)
    requires forall u :: SentTwiceIsOnce(body, u) <==> ActsOnce(edits, u)
    ensures (forall u :: SentTwiceIsOnce(body, u)) <==> forall u :: ActsOnce(edits, u)
  {
    if u :| !ActsOnce(edits, u) {
      assert !SentTwiceIsOnce(body, u);
    }
  }

  lemma SentTwiceEverywhere(body: Json)
    requires IsPatch(body) && CompileAll(Operations(body).items).error.None?
    ensures (forall u :: SentTwiceIsOnce(body, u)) <==> forall u :: ActsOnce(CompileAll(Operations(body).items).edits, u)
  {
    forall u
      ensures SentTwiceIsOnce(body, u) <==> ActsOnce(CompileAll(Operations(body).items).edits, u)
    {
      SentTwiceMeans(body, u);
    }
    AlikeForAll(body, CompileAll(Operations(body).items).edits);
  }

  lemma EditsAreIdempotentIff(edits: seq<Edit>)
    requires Typed(edits)
    ensures (forall u :: ActsOnce(edits, u))
       <==> Repeatable(OfEmails, edits) && Repeatable(OfPhoneNumbers, edits)
  {
    RecordIsIdempotentIff(edits);
    ListIsIdempotentIff(OfEmails, edits);
    ListIsIdempotentIff(OfPhoneNumbers, edits);
  }

  // A PATCH that is carried out at all can be sent again, whatever record it meets,
  // exactly when its edits are repeatable on either list. What it does to other
  // attributes, name and extension included, never stands in the way.
  lemma PatchIsIdempotentIff(body: Json)
    requires IsPatch(body) && CompileAll(Operations(body).items).error.None?
    ensures var edits := CompileAll(Operations(body).items).edits;
            (forall u :: SentTwiceIsOnce(body, u)) <==> Repeatable(OfEmails, edits) && Repeatable(OfPhoneNumbers, edits)
  {
    SentTwiceEverywhere(body);
    OpsFit(Operations(body).items, Remove);
    EditsAreIdempotentIff(CompileAll(Operations(body).items).edits);
  }
}
