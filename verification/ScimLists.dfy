// Upserts and removals by type on a multi-valued list: where they land, what
// they leave alone, and which runs of them are idempotent.
module ScimLists {
  import opened Wrappers
  import opened Text
  import opened ScimUser

  predicate SameKind(a: string, b: string) {
    Lower(a) == Lower(b)
  }

  lemma FoundAt(list: seq<MultiValue>, kind: string, i: nat)
    requires i < |list| && HasKind(list[i], kind) && forall j | 0 <= j < i :: !HasKind(list[j], kind)
    ensures FindKind(list, kind) == i
  {
  }

  lemma UntypedFoundAt(list: seq<MultiValue>, i: nat)
    requires i < |list| && list[i].kind.None? && forall j | 0 <= j < i :: list[j].kind.Some?
    ensures FirstUntyped(list) == i
  {
  }

  lemma SameKindFound(list: seq<MultiValue>, a: string, b: string)
    requires SameKind(a, b)
    ensures FindKind(list, a) == FindKind(list, b)
  {
    var i := FindKind(list, b);
    assert forall e: MultiValue :: HasKind(e, a) == HasKind(e, b);
    if i < |list| { FoundAt(list, a, i); }
  }

  // No type, or an empty one, is no other type.
  lemma OneKindOnly(e: MultiValue, kind: string, other: string)
    requires kind != "" && HasKind(e, kind)
    ensures e.kind.Some? && (HasKind(e, other) ==> SameKind(kind, other))
  {
    assert |Lower(kind)| == |kind| && |Lower("")| == 0;
  }

  // ---------- Where an upsert lands ----------

  // Entry `i` has no type, and no other entry lacks one.
  ghost predicate LoneUntyped(list: seq<MultiValue>, i: nat)
    requires i < |list|
  {
    forall j | 0 <= j < |list| :: list[j].kind.None? <==> j == i
  }

  lemma {:induction false} UntypedSplits(xs: seq<MultiValue>, ys: seq<MultiValue>)
    ensures Untyped(xs + ys) == Untyped(xs) + Untyped(ys)
  {
    if xs == [] {
      assert xs + ys == ys;
    } else {
      assert (xs + ys)[1..] == xs[1..] + ys;
      UntypedSplits(xs[1..], ys);
    }
  }

  lemma {:induction false} NoneUntyped(list: seq<MultiValue>)
    ensures Untyped(list) == 0 <==> forall e | e in list :: e.kind.Some?
  {
    if list != [] {
      NoneUntyped(list[1..]);
      assert list == [list[0]] + list[1..];
    }
  }

  lemma {:induction false} UntypedOnce(list: seq<MultiValue>, i: nat)
    requires i < |list| && list[i].kind.None?
    ensures Untyped(list) == 1 <==> LoneUntyped(list, i)
  {
    var front, back := list[..i], list[i + 1..];
    assert list == front + ([list[i]] + back);
    UntypedSplits(front, [list[i]] + back);
    NoneUntyped(front);
    NoneUntyped(back);
    assert Untyped([list[i]] + back) == 1 + Untyped(back) by { assert ([list[i]] + back)[1..] == back; }
    if LoneUntyped(list, i) {
      assert forall e | e in back :: e.kind.Some?;
      assert forall e | e in front :: e.kind.Some?;
    } else {
      var j :| 0 <= j < |list| && list[j].kind.None? && j != i;
      assert if j < i then list[j] in front else back[j - i - 1] == list[j];
    }
  }

  // The one entry an upsert changes or appends; every other stays as it is, where it is.
  lemma UpsertPlaces(list: seq<MultiValue>, kind: string, value: string) returns (i: nat)
    ensures var r := UpsertByType(list, kind, value);
            && i <= |list| && |r| == (if i < |list| then |list| else |list| + 1)
            && (forall j | 0 <= j < |list| && j != i :: r[j] == list[j])
            && (forall j | 0 <= j < i :: !HasKind(list[j], kind))
            && HasKind(r[i], kind) && r[i].value == value
            && (if i == |list| then
                  r[i].primary.None? && r[i].kind == Some(kind) && !exists u: nat | u < |list| :: LoneUntyped(list, u)
                else if HasKind(list[i], kind) then
                  r[i] == list[i].(value := value)
                else
                  LoneUntyped(list, i) && r[i] == list[i].(value := value, kind := Some(kind))
                  && forall j | 0 <= j < |list| :: !HasKind(list[j], kind))
  {
    i := FindKind(list, kind);
    if i == |list| {
      if Untyped(list) == 1 {
        i := FirstUntyped(list);
        UntypedOnce(list, i);
      } else if u: nat :| u < |list| && LoneUntyped(list, u) {
        assert list[u].kind.None?;
        UntypedOnce(list, u);
      }
    }
  }

  // ---------- What a removal leaves ----------

  // Taking a kind out is done entry by entry.
  lemma {:induction false} RemovalSplits(xs: seq<MultiValue>, ys: seq<MultiValue>, kind: string)
    ensures WithoutKind(xs + ys, kind) == WithoutKind(xs, kind) + WithoutKind(ys, kind)
  {
    if xs == [] {
      assert xs + ys == ys;
    } else {
      assert (xs + ys)[1..] == xs[1..] + ys;
      RemovalSplits(xs[1..], ys, kind);
    }
  }

  lemma RemovalOfOne(e: MultiValue, rest: seq<MultiValue>, kind: string)
    ensures WithoutKind([e] + rest, kind) == (if HasKind(e, kind) then [] else [e]) + WithoutKind(rest, kind)
  {
    assert ([e] + rest)[1..] == rest;
  }

  // These are the positions of the entries of other kinds, in order.
  ghost predicate Positions(list: seq<MultiValue>, kind: string, at: seq<nat>) {
    && (forall k | 0 <= k < |at| :: at[k] < |list|)
    && (forall k, k' | 0 <= k < k' < |at| :: at[k] < at[k'])
    && (forall i | 0 <= i < |list| :: i in at <==> !HasKind(list[i], kind))
  }

  // What is left holds these entries, one by one.
  ghost predicate Picked(kept: seq<MultiValue>, list: seq<MultiValue>, at: seq<nat>) {
    |kept| == |at| && forall k | 0 <= k < |at| :: at[k] < |list| && kept[k] == list[at[k]]
  }

  lemma OneMorePosition(front: seq<MultiValue>, last: MultiValue, kind: string, at: seq<nat>)
    requires Positions(front, kind, at)
    ensures Positions(front + [last], kind, if HasKind(last, kind) then at else at + [|front|])
  {
  }

  // Every entry of another kind is kept, once, in its order.
  lemma {:induction false} RemovalKeeps(list: seq<MultiValue>, kind: string) returns (at: seq<nat>)
    ensures Positions(list, kind, at) && Picked(WithoutKind(list, kind), list, at)
  {
    if list == [] {
      at := [];
    } else {
      var front, last := list[..|list| - 1], list[|list| - 1];
      assert list == front + [last];
      at := RemovalKeeps(front, kind);
      OneMorePosition(front, last, kind, at);
      OneMorePick(front, last, kind, at);
      at := if HasKind(last, kind) then at else at + [|front|];
    }
  }

  lemma PicksGrow(kept: seq<MultiValue>, front: seq<MultiValue>, last: MultiValue, at: seq<nat>)
    requires Picked(kept, front, at)
    ensures Picked(kept, front + [last], at) && Picked(kept + [last], front + [last], at + [|front|])
  {
  }

  lemma OneMorePick(front: seq<MultiValue>, last: MultiValue, kind: string, at: seq<nat>)
    requires Picked(WithoutKind(front, kind), front, at)
    ensures Picked(WithoutKind(front + [last], kind), front + [last], if HasKind(last, kind) then at else at + [|front|])
  {
    var kept := WithoutKind(front, kind);
    PicksGrow(kept, front, last, at);
    assert WithoutKind(front + [last], kind) == (if HasKind(last, kind) then kept else kept + [last]) by {
      assert [last] == [last] + [];
      RemovalOfOne(last, [], kind);
      RemovalSplits(front, [last], kind);
    }
  }

  predicate Lacks(list: seq<MultiValue>, kind: string) {
    forall e | e in list :: !HasKind(e, kind)
  }

  lemma {:induction false} NothingToRemove(list: seq<MultiValue>, kind: string)
    requires Lacks(list, kind)
    ensures WithoutKind(list, kind) == list
  {
    if list != [] {
      assert list == [list[0]] + list[1..];
      NothingToRemove(list[1..], kind);
    }
  }

  lemma {:induction false} RemovalKeepsUntyped(list: seq<MultiValue>, kind: string)
    requires kind != ""
    ensures Untyped(WithoutKind(list, kind)) == Untyped(list)
  {
    if list != [] {
      RemovalKeepsUntyped(list[1..], kind);
      if HasKind(list[0], kind) {
        OneKindOnly(list[0], kind, kind);
        assert [] + WithoutKind(list[1..], kind) == WithoutKind(list[1..], kind);
      } else {
        assert ([list[0]] + WithoutKind(list[1..], kind))[1..] == WithoutKind(list[1..], kind);
      }
    }
  }

  lemma RemovalAround(front: seq<MultiValue>, e: MultiValue, back: seq<MultiValue>, kind: string)
    requires !HasKind(e, kind)
    ensures WithoutKind(front + [e] + back, kind) == WithoutKind(front, kind) + [e] + WithoutKind(back, kind)
  {
    assert front + [e] + back == front + ([e] + back);
    RemovalSplits(front, [e] + back, kind);
    RemovalOfOne(e, back, kind);
  }

  lemma UpdateMiddle(front: seq<MultiValue>, x: MultiValue, back: seq<MultiValue>, e: MultiValue)
    ensures (front + [x] + back)[|front| := e] == front + [e] + back
  {
  }

  // An entry that stays, and the one that takes its place.
  lemma Around(list: seq<MultiValue>, i: nat, kind: string, e: MultiValue)
    requires i < |list| && !HasKind(list[i], kind) && !HasKind(e, kind)
    ensures var n := |WithoutKind(list[..i], kind)|;
            && WithoutKind(list[..i], kind) + [list[i]] <= WithoutKind(list, kind)
            && WithoutKind(list[i := e], kind) == WithoutKind(list, kind)[n := e]
  {
    var front, x, back := list[..i], list[i], list[i + 1..];
    assert list == front + [x] + back;
    assert list[i := e] == front + [e] + back by { UpdateMiddle(front, x, back, e); }
    RemovalAround(front, x, back, kind);
    RemovalAround(front, e, back, kind);
    UpdateMiddle(WithoutKind(front, kind), x, WithoutKind(back, kind), e);
  }

  // A removal and an upsert of different kinds commute, adoption included: the
  // entry that would be adopted has no type, and no kind to be removed is empty.
  lemma RemovalPassesUpsert(list: seq<MultiValue>, kind: string, other: string, value: string)
    requires kind != "" && other != "" && !SameKind(kind, other)
    ensures WithoutKind(UpsertByType(list, other, value), kind) == UpsertByType(WithoutKind(list, kind), other, value)
  {
    if FindKind(list, other) < |list| {
      TypedUpsert(list, kind, other, value);
    } else {
      var kept, e := WithoutKind(list, kind), MultiValue(value, Some(other), None);
      assert FindKind(kept, other) == |kept| by { StillMissing(list, kind, other); }
      RemovalKeepsUntyped(list, kind);
      if Untyped(list) == 1 {
        UntypedUpsert(list, kind, other, value);
      } else {
        assert !HasKind(e, kind) by { if HasKind(e, kind) { OneKindOnly(e, kind, other); } }
        assert list + [e] == list + [e] + [];
        RemovalAround(list, e, [], kind);
      }
    }
  }

  lemma StillMissing(list: seq<MultiValue>, kind: string, other: string)
    requires FindKind(list, other) == |list|
    ensures FindKind(WithoutKind(list, kind), other) == |WithoutKind(list, kind)|
  {
    var kept := WithoutKind(list, kind);
    forall k | 0 <= k < |kept|
      ensures !HasKind(kept[k], other)
    {
      assert kept[k] in kept;
    }
  }

  lemma TypedUpsert(list: seq<MultiValue>, kind: string, other: string, value: string)
    requires kind != "" && other != "" && !SameKind(kind, other) && FindKind(list, other) < |list|
    ensures WithoutKind(UpsertByType(list, other, value), kind) == UpsertByType(WithoutKind(list, kind), other, value)
  {
    var i := FindKind(list, other);
    OneKindOnly(list[i], other, kind);
    Around(list, i, kind, list[i].(value := value));
    var n, kept := |WithoutKind(list[..i], kind)|, WithoutKind(list, kind);
    forall j | 0 <= j < n
      ensures !HasKind(kept[j], other)
    {
      assert kept[j] == WithoutKind(list[..i], kind)[j] && kept[j] in WithoutKind(list[..i], kind);
    }
    FoundAt(kept, other, n);
  }

  lemma UntypedUpsert(list: seq<MultiValue>, kind: string, other: string, value: string)
    requires kind != "" && other != "" && !SameKind(kind, other) && Untyped(list) == 1
    ensures var u := FirstUntyped(list);
            var n := FirstUntyped(WithoutKind(list, kind));
            && n < |WithoutKind(list, kind)|
            && WithoutKind(list[u := list[u].(value := value, kind := Some(other))], kind)
               == WithoutKind(list, kind)[n := WithoutKind(list, kind)[n].(value := value, kind := Some(other))]
  {
    var u := FirstUntyped(list);
    var e := list[u].(value := value, kind := Some(other));
    OneKindOnly(e, other, kind);
    if HasKind(list[u], kind) { OneKindOnly(list[u], kind, kind); }
    Around(list, u, kind, e);
    var n, kept := |WithoutKind(list[..u], kind)|, WithoutKind(list, kind);
    forall j | 0 <= j < n
      ensures kept[j].kind.Some?
    {
      assert kept[j] == WithoutKind(list[..u], kind)[j] && kept[j] in WithoutKind(list[..u], kind);
    }
    UntypedFoundAt(kept, n);
  }

  // ---------- Runs of upserts ----------

  datatype Put = Put(kind: string, value: string)

  function PutAll(list: seq<MultiValue>, puts: seq<Put>): seq<MultiValue>
    decreases |puts|
  {
    if puts == [] then list else PutAll(UpsertByType(list, puts[0].kind, puts[0].value), puts[1..])
  }

  predicate Mentions(puts: seq<Put>, kind: string) {
    exists p | p in puts :: SameKind(p.kind, kind)
  }

  // The value the last put of this kind carries.
  function Last(puts: seq<Put>, kind: string): string
    requires Mentions(puts, kind)
    decreases |puts|
  {
    if Mentions(puts[1..], kind) then Last(puts[1..], kind)
    else
      assert puts == [puts[0]] + puts[1..];
      puts[0].value
  }

  // The first entry of this kind is there and has this value.
  predicate Shows(list: seq<MultiValue>, kind: string, value: string) {
    FindKind(list, kind) < |list| && list[FindKind(list, kind)].value == value
  }

  predicate AllTyped(puts: seq<Put>) {
    forall p | p in puts :: p.kind != ""
  }

  lemma PutShows(list: seq<MultiValue>, kind: string, value: string)
    requires kind != ""
    ensures Shows(UpsertByType(list, kind, value), kind, value)
  {
    var i, r := FindKind(list, kind), UpsertByType(list, kind, value);
    if i < |list| {
      FoundAt(r, kind, i);
    } else if Untyped(list) == 1 {
      FoundAt(r, kind, FirstUntyped(list));
    } else {
      FoundAt(r, kind, |list|);
    }
  }

  // A put of another kind does not hide an entry: it may only claim an untyped
  // one, and no type is empty.
  lemma PutKeepsShown(list: seq<MultiValue>, kind: string, value: string, other: string, shown: string)
    requires kind != "" && other != "" && !SameKind(kind, other) && Shows(list, other, shown)
    ensures Shows(UpsertByType(list, kind, value), other, shown)
  {
    var i, j, r := FindKind(list, kind), FindKind(list, other), UpsertByType(list, kind, value);
    assert |Lower(other)| == |other| && |Lower("")| == 0;
    forall k | 0 <= k < j
      ensures !HasKind(r[k], other)
    {
      assert !HasKind(list[k], other);
    }
    FoundAt(r, other, j);
  }

  lemma {:induction false} PutsKeepShown(list: seq<MultiValue>, puts: seq<Put>, other: string, shown: string)
    requires AllTyped(puts) && other != "" && !Mentions(puts, other) && Shows(list, other, shown)
    ensures Shows(PutAll(list, puts), other, shown)
    decreases |puts|
  {
    if puts != [] {
      assert puts[0] in puts;
      PutKeepsShown(list, puts[0].kind, puts[0].value, other, shown);
      PutsKeepShown(UpsertByType(list, puts[0].kind, puts[0].value), puts[1..], other, shown);
    }
  }

  // After a run of puts, every kind it mentions shows its last value.
  lemma {:induction false} PutsShowLast(list: seq<MultiValue>, puts: seq<Put>, kind: string)
    requires AllTyped(puts) && kind != "" && Mentions(puts, kind)
    ensures Shows(PutAll(list, puts), kind, Last(puts, kind))
    decreases |puts|
  {
    var next := UpsertByType(list, puts[0].kind, puts[0].value);
    if Mentions(puts[1..], kind) {
      PutsShowLast(next, puts[1..], kind);
    } else {
      assert puts == [puts[0]] + puts[1..];
      PutShows(list, puts[0].kind, puts[0].value);
      SameKindFound(next, puts[0].kind, kind);
      PutsKeepShown(next, puts[1..], kind, puts[0].value);
    }
  }

  // `z` is `y` but for the values of entries that a put in `puts` is about to overwrite.
  ghost predicate Pending(y: seq<MultiValue>, z: seq<MultiValue>, puts: seq<Put>) {
    && |z| == |y|
    && (forall i | 0 <= i < |y| :: z[i].kind == y[i].kind && z[i].primary == y[i].primary)
    && (forall i | 0 <= i < |y| && z[i].value != y[i].value ::
          exists p | p in puts :: FindKind(y, p.kind) == i)
    && (forall p | p in puts :: Shows(y, p.kind, Last(puts, p.kind)))
  }

  lemma SameShapeFinds(y: seq<MultiValue>, z: seq<MultiValue>, kind: string)
    requires |z| == |y| && forall i | 0 <= i < |y| :: z[i].kind == y[i].kind
    ensures FindKind(z, kind) == FindKind(y, kind)
  {
    var i := FindKind(y, kind);
    if i < |y| {
      FoundAt(z, kind, i);
    } else {
      assert forall j | 0 <= j < |z| :: HasKind(z[j], kind) == HasKind(y[j], kind);
    }
  }

  lemma PendingStep(y: seq<MultiValue>, z: seq<MultiValue>, puts: seq<Put>)
    requires puts != [] && Pending(y, z, puts)
    ensures Pending(y, UpsertByType(z, puts[0].kind, puts[0].value), puts[1..])
  {
    var p, rest := puts[0], puts[1..];
    assert p in puts && puts == [p] + rest;
    var k := FindKind(y, p.kind);
    SameShapeFinds(y, z, p.kind);
    var z' := UpsertByType(z, p.kind, p.value);
    assert z' == z[k := z[k].(value := p.value)];
    forall i | 0 <= i < |y| && z'[i].value != y[i].value
      ensures exists q | q in rest :: FindKind(y, q.kind) == i
    {
      if i == k {
        assert Last(puts, p.kind) != p.value;
        var q :| q in rest && SameKind(q.kind, p.kind);
        SameKindFound(y, q.kind, p.kind);
      }
    }
    forall q | q in rest
      ensures Shows(y, q.kind, Last(rest, q.kind))
    {
      assert q in puts;
      assert SameKind(q.kind, q.kind) && Mentions(rest, q.kind);
    }
  }

  lemma {:induction false} PendingEnds(y: seq<MultiValue>, z: seq<MultiValue>, puts: seq<Put>)
    requires Pending(y, z, puts)
    ensures PutAll(z, puts) == y
    decreases |puts|
  {
    if puts == [] {
      assert forall i | 0 <= i < |y| :: z[i] == y[i];
    } else {
      PendingStep(y, z, puts);
      PendingEnds(y, UpsertByType(z, puts[0].kind, puts[0].value), puts[1..]);
    }
  }

  // Upserts are idempotent as a run, however kinds repeat and entries are adopted.
  lemma PutsAreIdempotent(list: seq<MultiValue>, puts: seq<Put>)
    requires AllTyped(puts)
    ensures PutAll(PutAll(list, puts), puts) == PutAll(list, puts)
  {
    var y := PutAll(list, puts);
    forall p | p in puts
      ensures Shows(y, p.kind, Last(puts, p.kind))
    {
      assert SameKind(p.kind, p.kind) && Mentions(puts, p.kind);
      PutsShowLast(list, puts, p.kind);
    }
    PendingEnds(y, y, puts);
  }
}
