// Which runs of edits leave a list alike, made once or twice: the condition, and
// why it is enough.
module ScimRepeats {
  import opened Wrappers
  import opened Text
  import opened ScimUser
  import opened ScimLists
  import opened ScimPatch
  import opened ScimIdempotence

  // ---------- The condition ----------

  ghost predicate Listed(kinds: seq<string>, kind: string) {
    exists k | k in kinds :: SameKind(k, kind)
  }

  // The upserts that no later removal of their type undoes.
  ghost function Live(l: List, edits: seq<Edit>): seq<Put> {
    if edits == [] then []
    else
      (if edits[0].Upsert? && edits[0].list == l && !Listed(Drops(l, edits[1..]), edits[0].kind)
       then [Put(edits[0].kind, edits[0].value)] else [])
      + Live(l, edits[1..])
  }

  // The upsert at `p` writes a type that an earlier edit removed.
  ghost predicate Rewrites(l: List, edits: seq<Edit>, p: int) {
    0 <= p < |edits| && edits[p].Upsert? && edits[p].list == l && Listed(Drops(l, edits[..p]), edits[p].kind)
  }

  ghost predicate Rewritten(l: List, edits: seq<Edit>) {
    exists p :: Rewrites(l, edits, p)
  }

  ghost predicate FirstRewrite(l: List, edits: seq<Edit>, p: int) {
    Rewrites(l, edits, p) && forall q | q < p :: !Rewrites(l, edits, q)
  }

  // The first type that is written again is removed once more. A lone entry
  // without a type has been adopted by then, and does not survive as that type.
  ghost predicate Settled(l: List, edits: seq<Edit>) {
    forall p | FirstRewrite(l, edits, p) :: Listed(Drops(l, edits[p + 1..]), edits[p].kind)
  }

  // A type that is never removed is written before any that is removed and written
  // for good: the latter move to the end of the list each time.
  ghost predicate Ordered(l: List, edits: seq<Edit>) {
    InOrder(Live(l, edits), Drops(l, edits))
  }

  ghost predicate InOrder(puts: seq<Put>, kinds: seq<string>) {
    forall i, j | 0 <= i < |puts| && 0 <= j < |puts| && Listed(kinds, puts[i].kind) && !Listed(kinds, puts[j].kind) ::
      Mentions(puts[..i], puts[j].kind)
  }

  ghost predicate Repeatable(l: List, edits: seq<Edit>) {
    || Assigned(l, edits)
    || if Rewritten(l, edits) then Settled(l, edits) && Ordered(l, edits) else !Mixed(l, edits)
  }

  // ---------- Runs without whole assignments ----------

  predicate PlainEdit(l: List, e: Edit) {
    Touches(l, e) ==> (e.Upsert? || e.RemoveKind?) && e.kind != ""
  }

  ghost predicate Plain(l: List, edits: seq<Edit>) {
    forall e | e in edits :: PlainEdit(l, e)
  }

  lemma PlainParts(l: List, xs: seq<Edit>, ys: seq<Edit>)
    requires Plain(l, xs + ys)
    ensures Plain(l, xs) && Plain(l, ys)
  {
    assert forall e | e in xs :: e in xs + ys;
    assert forall e | e in ys :: e in xs + ys;
  }

  lemma PlainFirst(l: List, edits: seq<Edit>)
    requires Plain(l, edits) && edits != []
    ensures PlainEdit(l, edits[0]) && Plain(l, edits[1..]) && edits == [edits[0]] + edits[1..]
  {
    assert edits == [edits[0]] + edits[1..];
    PlainParts(l, [edits[0]], edits[1..]);
  }

  lemma SameKindHas(a: string, b: string)
    requires SameKind(a, b)
    ensures forall e: MultiValue :: HasKind(e, a) == HasKind(e, b)
  {
  }

  lemma {:induction false} SameKindGoes(list: seq<MultiValue>, a: string, b: string)
    requires SameKind(a, b)
    ensures WithoutKind(list, a) == WithoutKind(list, b)
  {
    if list != [] {
      SameKindGoes(list[1..], a, b);
    }
  }

  lemma RemovalsCommuteOn(e: MultiValue, rest: seq<MultiValue>, a: string, b: string)
    requires WithoutKind(WithoutKind(rest, a), b) == WithoutKind(WithoutKind(rest, b), a)
    ensures WithoutKind(WithoutKind([e] + rest, a), b) == WithoutKind(WithoutKind([e] + rest, b), a)
  {
    var one: seq<MultiValue> := [];
    RemovalOfOne(e, rest, a);
    RemovalOfOne(e, rest, b);
    RemovalOfOne(e, WithoutKind(rest, a), b);
    RemovalOfOne(e, WithoutKind(rest, b), a);
    assert one + WithoutKind(rest, a) == WithoutKind(rest, a) && one + WithoutKind(rest, b) == WithoutKind(rest, b);
  }

  lemma {:induction false} RemovalsCommute(list: seq<MultiValue>, a: string, b: string)
    ensures WithoutKind(WithoutKind(list, a), b) == WithoutKind(WithoutKind(list, b), a)
  {
    if list != [] {
      RemovalsCommute(list[1..], a, b);
      RemovalsCommuteOn(list[0], list[1..], a, b);
      assert list == [list[0]] + list[1..];
    }
  }

  // An entry replaced by one of the kind goes, wherever it is.
  lemma ReplacedGoes(front: seq<MultiValue>, e: MultiValue, back: seq<MultiValue>, kind: string)
    requires HasKind(e, kind)
    ensures WithoutKind(front + [e] + back, kind) == WithoutKind(front, kind) + WithoutKind(back, kind)
  {
    assert front + [e] + back == front + ([e] + back);
    RemovalSplits(front, [e] + back, kind);
    RemovalOfOne(e, back, kind);
  }

  lemma ReplacedGoesAt(list: seq<MultiValue>, i: nat, e: MultiValue, kind: string)
    requires i < |list| && HasKind(e, kind)
    ensures WithoutKind(list[i := e], kind) == WithoutKind(list[..i], kind) + WithoutKind(list[i + 1..], kind)
  {
    assert list[i := e] == list[..i] + [e] + list[i + 1..];
    ReplacedGoes(list[..i], e, list[i + 1..], kind);
  }

  lemma AppendedGoes(list: seq<MultiValue>, e: MultiValue, kind: string)
    requires HasKind(e, kind)
    ensures WithoutKind(list + [e], kind) == WithoutKind(list, kind)
  {
    assert list + [e] == list + [e] + [];
    ReplacedGoes(list, e, [], kind);
  }

  lemma Present(list: seq<MultiValue>, kind: string)
    ensures FindKind(list, kind) < |list| <==> !Lacks(list, kind)
  {
    if FindKind(list, kind) < |list| {
      assert list[FindKind(list, kind)] in list;
    } else {
      assert forall e | e in list :: !HasKind(e, kind);
    }
  }

  // ---------- Lists no entry of which can be adopted ----------

  predicate Steady(list: seq<MultiValue>) {
    Untyped(list) != 1
  }

  // Entries keep their place, kind and mark; new ones come after them.
  predicate Extends(list: seq<MultiValue>, next: seq<MultiValue>) {
    |list| <= |next| && forall i | 0 <= i < |list| :: next[i].kind == list[i].kind && next[i].primary == list[i].primary
  }

  lemma {:induction false} SameKindsUntyped(list: seq<MultiValue>, next: seq<MultiValue>)
    requires |next| == |list| && forall i | 0 <= i < |list| :: next[i].kind == list[i].kind
    ensures Untyped(next) == Untyped(list)
  {
    if list != [] {
      SameKindsUntyped(list[1..], next[1..]);
    }
  }

  lemma SteadyPut(list: seq<MultiValue>, kind: string, value: string)
    requires Steady(list)
    ensures var next := UpsertByType(list, kind, value);
            && Untyped(next) == Untyped(list)
            && Extends(list, next) && (forall i | |list| <= i < |next| :: next[i].primary.None?)
            && WithoutKind(next, kind) == WithoutKind(list, kind)
  {
    var i := FindKind(list, kind);
    if i < |list| {
      SameKindsUntyped(list, list[i := list[i].(value := value)]);
      ReplacedGoesAt(list, i, list[i], kind);
      ReplacedGoesAt(list, i, list[i].(value := value), kind);
      assert list[i := list[i]] == list;
    } else {
      var e := MultiValue(value, Some(kind), None);
      UntypedSplits(list, [e]);
      assert [e][1..] == [];
      AppendedGoes(list, e, kind);
    }
  }

  lemma {:induction false} SteadyPuts(list: seq<MultiValue>, puts: seq<Put>)
    requires Steady(list)
    ensures Steady(PutAll(list, puts)) && Extends(list, PutAll(list, puts))
    decreases |puts|
  {
    if puts != [] {
      SteadyPut(list, puts[0].kind, puts[0].value);
      SteadyPuts(UpsertByType(list, puts[0].kind, puts[0].value), puts[1..]);
    }
  }

  lemma {:induction false} SteadyDrops(list: seq<MultiValue>, kinds: seq<string>)
    requires Steady(list) && forall k | k in kinds :: k != ""
    ensures Steady(DropAll(list, kinds))
    decreases |kinds|
  {
    if kinds != [] {
      assert kinds[0] in kinds && forall k | k in kinds[1..] :: k in kinds;
      RemovalKeepsUntyped(list, kinds[0]);
      SteadyDrops(WithoutKind(list, kinds[0]), kinds[1..]);
    }
  }

  // An upsert of a type that is removed afterwards leaves no trace.
  lemma {:induction false} DropsUndoPut(list: seq<MultiValue>, kinds: seq<string>, kind: string, value: string)
    requires Steady(list) && kind != "" && (forall k | k in kinds :: k != "") && Listed(kinds, kind)
    ensures DropAll(UpsertByType(list, kind, value), kinds) == DropAll(list, kinds)
    decreases |kinds|
  {
    var k, rest := kinds[0], kinds[1..];
    assert k in kinds && kinds == [k] + rest && forall x | x in rest :: x in kinds;
    if SameKind(k, kind) {
      SteadyPut(list, kind, value);
      SameKindGoes(list, k, kind);
      SameKindGoes(UpsertByType(list, kind, value), k, kind);
    } else {
      RemovalPassesUpsert(list, k, kind, value);
      RemovalKeepsUntyped(list, k);
      DropsUndoPut(WithoutKind(list, k), rest, kind, value);
    }
  }

  lemma {:induction false} DropsTyped(l: List, edits: seq<Edit>)
    requires Plain(l, edits)
    ensures forall k | k in Drops(l, edits) :: k != ""
    ensures forall p | p in Live(l, edits) :: p.kind != ""
  {
    if edits != [] {
      PlainFirst(l, edits);
      DropsTyped(l, edits[1..]);
    }
  }

  // All removals first, then the upserts that last.
  lemma {:induction false} SteadySorted(list: seq<MultiValue>, l: List, edits: seq<Edit>)
    requires Steady(list) && Plain(l, edits)
    ensures DoAll(list, l, edits) == PutAll(DropAll(list, Drops(l, edits)), Live(l, edits))
    decreases |edits|
  {
    if edits != [] {
      var e, rest := edits[0], edits[1..];
      PlainFirst(l, edits);
      DropsTyped(l, rest);
      if e.Upsert? && e.list == l {
        SteadyPut(list, e.kind, e.value);
        SteadySorted(Do(list, l, e), l, rest);
        PutSorts(list, l, e, Drops(l, rest), Live(l, rest));
        assert [] + Drops(l, rest) == Drops(l, rest);
      } else if e.RemoveKind? && e.list == l {
        RemovalKeepsUntyped(list, e.kind);
        SteadySorted(Do(list, l, e), l, rest);
        assert ([e.kind] + Drops(l, rest))[1..] == Drops(l, rest) && [] + Live(l, rest) == Live(l, rest);
      } else {
        SteadySorted(list, l, rest);
        assert [] + Drops(l, rest) == Drops(l, rest) && [] + Live(l, rest) == Live(l, rest);
      }
    }
  }

  lemma PutSorts(list: seq<MultiValue>, l: List, e: Edit, kinds: seq<string>, puts: seq<Put>)
    requires Steady(list) && e.Upsert? && e.list == l && e.kind != "" && forall k | k in kinds :: k != ""
    ensures PutAll(DropAll(Do(list, l, e), kinds), puts)
         == PutAll(DropAll(list, kinds), (if Listed(kinds, e.kind) then [] else [Put(e.kind, e.value)]) + puts)
  {
    if Listed(kinds, e.kind) {
      DropsUndoPut(list, kinds, e.kind, e.value);
      assert [] + puts == puts;
    } else {
      var p := Put(e.kind, e.value);
      DropsPassPut(list, kinds, p);
      assert ([p] + puts)[1..] == puts;
    }
  }

  // ---------- Sent twice to a steady list ----------

  // The upserts of types that are not among these.
  ghost function Others(puts: seq<Put>, kinds: seq<string>): seq<Put> {
    if puts == [] then []
    else (if Listed(kinds, puts[0].kind) then [] else [puts[0]]) + Others(puts[1..], kinds)
  }

  lemma {:induction false} DropsLeaveOthers(base: seq<MultiValue>, puts: seq<Put>, kinds: seq<string>)
    requires Steady(base) && (forall k | k in kinds :: k != "") && forall p | p in puts :: p.kind != ""
    ensures DropAll(PutAll(base, puts), kinds) == PutAll(DropAll(base, kinds), Others(puts, kinds))
    decreases |puts|
  {
    if puts != [] {
      var p, rest := puts[0], puts[1..];
      assert p in puts && forall x | x in rest :: x in puts;
      SteadyPut(base, p.kind, p.value);
      DropsLeaveOthers(UpsertByType(base, p.kind, p.value), rest, kinds);
      if Listed(kinds, p.kind) {
        DropsUndoPut(base, kinds, p.kind, p.value);
        assert [] + Others(rest, kinds) == Others(rest, kinds);
      } else {
        DropsPassPut(base, kinds, p);
        assert ([p] + Others(rest, kinds))[1..] == Others(rest, kinds);
      }
    }
  }

  lemma {:induction false} PutsAppend(list: seq<MultiValue>, xs: seq<Put>, ys: seq<Put>)
    ensures PutAll(list, xs + ys) == PutAll(PutAll(list, xs), ys)
    decreases |xs|
  {
    if xs == [] {
      assert xs + ys == ys;
    } else {
      assert (xs + ys)[1..] == xs[1..] + ys;
      PutsAppend(UpsertByType(list, xs[0].kind, xs[0].value), xs[1..], ys);
    }
  }

  // Writing types that `puts` is about to write changes no more than their values.
  lemma WritesPending(y: seq<MultiValue>, z: seq<MultiValue>, puts: seq<Put>, p: Put)
    requires Pending(y, z, puts) && Mentions(puts, p.kind)
    ensures Pending(y, UpsertByType(z, p.kind, p.value), puts)
  {
    var q :| q in puts && SameKind(q.kind, p.kind);
    SameKindFound(y, p.kind, q.kind);
    SameShapeFinds(y, z, p.kind);
    assert Shows(y, q.kind, Last(puts, q.kind));
    var i := FindKind(y, p.kind);
    var z' := UpsertByType(z, p.kind, p.value);
    assert z' == z[i := z[i].(value := p.value)] && i == FindKind(y, q.kind);
    forall j | 0 <= j < |y| && z'[j].value != y[j].value
      ensures exists x | x in puts :: FindKind(y, x.kind) == j
    {
      if j != i { assert z'[j] == z[j]; }
    }
  }

  lemma {:induction false} StaysPending(y: seq<MultiValue>, z: seq<MultiValue>, puts: seq<Put>, more: seq<Put>)
    requires Pending(y, z, puts) && forall p | p in more :: Mentions(puts, p.kind)
    ensures Pending(y, PutAll(z, more), puts)
    decreases |more|
  {
    if more != [] {
      assert more[0] in more && forall x | x in more[1..] :: x in more;
      WritesPending(y, z, puts, more[0]);
      StaysPending(y, UpsertByType(z, more[0].kind, more[0].value), puts, more[1..]);
    }
  }

  lemma PendingNow(list: seq<MultiValue>, puts: seq<Put>)
    requires AllTyped(puts)
    ensures Pending(PutAll(list, puts), PutAll(list, puts), puts)
  {
    forall p | p in puts
      ensures Shows(PutAll(list, puts), p.kind, Last(puts, p.kind))
    {
      assert SameKind(p.kind, p.kind) && Mentions(puts, p.kind);
      PutsShowLast(list, puts, p.kind);
    }
  }

  lemma {:induction false} OthersSplit(xs: seq<Put>, ys: seq<Put>, kinds: seq<string>)
    ensures Others(xs + ys, kinds) == Others(xs, kinds) + Others(ys, kinds)
  {
    if xs == [] {
      assert xs + ys == ys;
    } else {
      assert (xs + ys)[1..] == xs[1..] + ys;
      OthersSplit(xs[1..], ys, kinds);
    }
  }

  lemma {:induction false} OthersOnly(puts: seq<Put>, kinds: seq<string>)
    ensures forall p | p in Others(puts, kinds) :: p in puts && !Listed(kinds, p.kind)
    ensures (forall p | p in puts :: !Listed(kinds, p.kind)) ==> Others(puts, kinds) == puts
  {
    if puts != [] {
      assert puts == [puts[0]] + puts[1..];
      OthersOnly(puts[1..], kinds);
    }
  }

  // The part before the first upsert of a listed type.
  lemma {:induction false} UpToListed(puts: seq<Put>, kinds: seq<string>) returns (first: seq<Put>, rest: seq<Put>)
    ensures puts == first + rest && forall p | p in first :: !Listed(kinds, p.kind)
    ensures rest != [] ==> Listed(kinds, rest[0].kind)
  {
    if puts == [] || Listed(kinds, puts[0].kind) {
      first, rest := [], puts;
    } else {
      first, rest := UpToListed(puts[1..], kinds);
      assert puts == [puts[0]] + puts[1..];
      first := [puts[0]] + first;
    }
  }

  // In order, all others that come later have been written by then.
  lemma RestMentioned(first: seq<Put>, rest: seq<Put>, kinds: seq<string>, p: Put)
    requires InOrder(first + rest, kinds) && rest != [] && Listed(kinds, rest[0].kind)
    requires p in rest && !Listed(kinds, p.kind)
    ensures Mentions(first, p.kind)
  {
    var puts, i := first + rest, |first|;
    var j :| 0 <= j < |rest| && rest[j] == p;
    assert puts[i] == rest[0] && puts[i + j] == p && puts[..i] == first;
  }

  lemma OthersComeFirst(puts: seq<Put>, kinds: seq<string>) returns (first: seq<Put>, rest: seq<Put>)
    requires InOrder(puts, kinds)
    ensures puts == first + rest && Others(puts, kinds) == first + Others(rest, kinds)
    ensures forall p | p in Others(rest, kinds) :: Mentions(first, p.kind)
  {
    first, rest := UpToListed(puts, kinds);
    OthersSplit(first, rest, kinds);
    OthersOnly(first, kinds);
    OthersOnly(rest, kinds);
    forall p | p in Others(rest, kinds)
      ensures Mentions(first, p.kind)
    {
      RestMentioned(first, rest, kinds, p);
    }
  }

  lemma TwiceInParts(base: seq<MultiValue>, first: seq<Put>, rest: seq<Put>, more: seq<Put>)
    requires AllTyped(first) && forall p | p in more :: Mentions(first, p.kind)
    ensures PutAll(PutAll(base, first + more), first + rest) == PutAll(base, first + rest)
  {
    var y := PutAll(base, first);
    PutsAppend(base, first, more);
    PutsAppend(base, first, rest);
    PutsAppend(PutAll(y, more), first, rest);
    PendingNow(base, first);
    StaysPending(y, y, first, more);
    PendingEnds(y, PutAll(y, more), first);
  }

  // With the others in place already, the whole run leads to the same list.
  lemma OthersFirst(base: seq<MultiValue>, puts: seq<Put>, kinds: seq<string>)
    requires AllTyped(puts) && InOrder(puts, kinds)
    ensures PutAll(PutAll(base, Others(puts, kinds)), puts) == PutAll(base, puts)
  {
    var first, rest := OthersComeFirst(puts, kinds);
    assert forall p | p in first :: p in puts;
    TwiceInParts(base, first, rest, Others(rest, kinds));
  }

  lemma SteadyTwice(list: seq<MultiValue>, l: List, edits: seq<Edit>)
    requires Steady(list) && Plain(l, edits) && Ordered(l, edits)
    ensures DoAll(DoAll(list, l, edits), l, edits) == DoAll(list, l, edits)
  {
    var kinds, puts := Drops(l, edits), Live(l, edits);
    var base := DropAll(list, kinds);
    var y := PutAll(base, puts);
    DropsTyped(l, edits);
    SteadySorted(list, l, edits);
    SteadyDrops(list, kinds);
    SteadyPuts(base, puts);
    SteadySorted(y, l, edits);
    DropsLeaveOthers(base, puts, kinds);
    forall k | k in kinds
      ensures Lacks(base, k)
    {
      DropsLeaveNone(list, kinds, k);
    }
    NothingToDrop(base, kinds);
    OthersFirst(base, puts, kinds);
  }

  // ---------- Lists with a lone untyped entry ----------

  lemma {:induction false} DropsSplit(l: List, xs: seq<Edit>, ys: seq<Edit>)
    ensures Drops(l, xs + ys) == Drops(l, xs) + Drops(l, ys)
  {
    if xs == [] {
      assert xs + ys == ys;
    } else {
      assert (xs + ys)[1..] == xs[1..] + ys;
      DropsSplit(l, xs[1..], ys);
    }
  }

  lemma ListedSplits(xs: seq<string>, ys: seq<string>, kind: string)
    ensures Listed(xs + ys, kind) <==> Listed(xs, kind) || Listed(ys, kind)
  {
  }

  // What comes before, at and after position `i`.
  lemma DropsAround(l: List, edits: seq<Edit>, i: nat, kind: string)
    requires i < |edits|
    ensures Listed(Drops(l, edits[..i + 1]), kind)
       <==> Listed(Drops(l, edits[..i]), kind) || (edits[i].RemoveKind? && edits[i].list == l && SameKind(edits[i].kind, kind))
    ensures Listed(Drops(l, edits), kind) <==> Listed(Drops(l, edits[..i + 1]), kind) || Listed(Drops(l, edits[i + 1..]), kind)
  {
    assert edits[..i + 1] == edits[..i] + [edits[i]] && edits == edits[..i + 1] + edits[i + 1..];
    DropsSplit(l, edits[..i], [edits[i]]);
    DropsSplit(l, edits[..i + 1], edits[i + 1..]);
    assert [edits[i]][1..] == [];
    assert Drops(l, [edits[i]]) == (if edits[i].RemoveKind? && edits[i].list == l then [edits[i].kind] else []) + [];
    ListedSplits(Drops(l, edits[..i]), Drops(l, [edits[i]]), kind);
    ListedSplits(Drops(l, edits[..i + 1]), Drops(l, edits[i + 1..]), kind);
  }

  // Two steady lists that differ in entries of one type only are alike once it is removed.
  lemma {:induction false} RemovalEvens(a: seq<MultiValue>, b: seq<MultiValue>, l: List, kind: string, edits: seq<Edit>)
    requires Steady(a) && Steady(b) && WithoutKind(a, kind) == WithoutKind(b, kind)
    requires Plain(l, edits) && kind != "" && Listed(Drops(l, edits), kind)
    ensures DoAll(a, l, edits) == DoAll(b, l, edits)
    decreases |edits|
  {
    if edits != [] {
      var e, rest := edits[0], edits[1..];
      PlainFirst(l, edits);
      if e.RemoveKind? && e.list == l && SameKind(e.kind, kind) {
        SameKindGoes(a, e.kind, kind);
        SameKindGoes(b, e.kind, kind);
      } else {
        EvensStep(a, b, l, kind, e);
        assert Listed(Drops(l, rest), kind);
        RemovalEvens(Do(a, l, e), Do(b, l, e), l, kind, rest);
      }
    }
  }

  lemma EvensStep(a: seq<MultiValue>, b: seq<MultiValue>, l: List, kind: string, e: Edit)
    requires Steady(a) && Steady(b) && WithoutKind(a, kind) == WithoutKind(b, kind) && PlainEdit(l, e) && kind != ""
    ensures Steady(Do(a, l, e)) && Steady(Do(b, l, e))
    ensures WithoutKind(Do(a, l, e), kind) == WithoutKind(Do(b, l, e), kind)
  {
    if e.RemoveKind? && e.list == l {
      RemovalKeepsUntyped(a, e.kind);
      RemovalKeepsUntyped(b, e.kind);
      RemovalsCommute(a, e.kind, kind);
      RemovalsCommute(b, e.kind, kind);
    } else if e.Upsert? && e.list == l {
      SteadyPut(a, e.kind, e.value);
      SteadyPut(b, e.kind, e.value);
      if SameKind(e.kind, kind) {
        SameKindGoes(a, e.kind, kind);
        SameKindGoes(b, e.kind, kind);
        SameKindGoes(Do(a, l, e), e.kind, kind);
        SameKindGoes(Do(b, l, e), e.kind, kind);
      } else {
        RemovalPassesUpsert(a, kind, e.kind, e.value);
        RemovalPassesUpsert(b, kind, e.kind, e.value);
      }
    }
  }

  // An edit on the two sides of an entry it leaves alone.
  function Before(front: seq<MultiValue>, l: List, e: Edit): seq<MultiValue> {
    if e.Upsert? && e.list == l && FindKind(front, e.kind) == |front| then front else Do(front, l, e)
  }

  function Behind(front: seq<MultiValue>, back: seq<MultiValue>, l: List, e: Edit): seq<MultiValue> {
    if e.Upsert? && e.list == l && FindKind(front, e.kind) < |front| then back else Do(back, l, e)
  }

  // Removals, and upserts of a type that is there, act on the sides.
  lemma ActsOnSides(front: seq<MultiValue>, m: seq<MultiValue>, back: seq<MultiValue>, l: List, e: Edit)
    requires PlainEdit(l, e) && (Touches(l, e) ==> Lacks(m, e.kind))
    requires e.Upsert? && e.list == l ==> !Lacks(front + back, e.kind)
    ensures Do(front + m + back, l, e) == Before(front, l, e) + m + Behind(front, back, l, e)
  {
    if e.RemoveKind? && e.list == l {
      RemovalSplits(front + m, back, e.kind);
      RemovalSplits(front, m, e.kind);
      NothingToRemove(m, e.kind);
    } else if e.Upsert? && e.list == l {
      UpsertOnSide(front, m, back, e.kind, e.value);
    }
  }

  lemma FindLeft(xs: seq<MultiValue>, ys: seq<MultiValue>, kind: string)
    requires FindKind(xs, kind) < |xs|
    ensures FindKind(xs + ys, kind) == FindKind(xs, kind)
  {
    var i := FindKind(xs, kind);
    assert forall j | 0 <= j <= i :: (xs + ys)[j] == xs[j];
    FoundAt(xs + ys, kind, i);
  }

  lemma UpdateLeft(xs: seq<MultiValue>, ys: seq<MultiValue>, i: nat, e: MultiValue)
    requires i < |xs|
    ensures (xs + ys)[i] == xs[i] && (xs + ys)[i := e] == xs[i := e] + ys
  {
  }

  lemma UpsertFound(list: seq<MultiValue>, kind: string, value: string)
    requires FindKind(list, kind) < |list|
    ensures var i := FindKind(list, kind); UpsertByType(list, kind, value) == list[i := list[i].(value := value)]
  {
  }

  lemma UpsertLeft(xs: seq<MultiValue>, ys: seq<MultiValue>, kind: string, value: string)
    requires FindKind(xs, kind) < |xs|
    ensures UpsertByType(xs + ys, kind, value) == UpsertByType(xs, kind, value) + ys
  {
    var i := FindKind(xs, kind);
    FindLeft(xs, ys, kind);
    UpsertFound(xs, kind, value);
    UpsertFound(xs + ys, kind, value);
    UpdateLeft(xs, ys, i, xs[i].(value := value));
  }

  lemma {:induction false} FindRight(xs: seq<MultiValue>, ys: seq<MultiValue>, kind: string)
    requires Lacks(xs, kind)
    ensures FindKind(xs + ys, kind) == |xs| + FindKind(ys, kind)
  {
    if xs == [] {
      assert xs + ys == ys;
    } else {
      assert (xs + ys)[1..] == xs[1..] + ys && (xs + ys)[0] == xs[0] && xs[0] in xs;
      FindRight(xs[1..], ys, kind);
    }
  }

  lemma UpdateRight(xs: seq<MultiValue>, ys: seq<MultiValue>, i: nat, e: MultiValue)
    requires i < |ys|
    ensures (xs + ys)[|xs| + i] == ys[i] && (xs + ys)[|xs| + i := e] == xs + ys[i := e]
  {
  }

  lemma UpsertRight(xs: seq<MultiValue>, ys: seq<MultiValue>, kind: string, value: string)
    requires Lacks(xs, kind) && FindKind(ys, kind) < |ys|
    ensures UpsertByType(xs + ys, kind, value) == xs + UpsertByType(ys, kind, value)
  {
    var i := FindKind(ys, kind);
    FindRight(xs, ys, kind);
    UpsertFound(ys, kind, value);
    UpsertFound(xs + ys, kind, value);
    UpdateRight(xs, ys, i, ys[i].(value := value));
  }

  lemma UpsertOnSide(front: seq<MultiValue>, m: seq<MultiValue>, back: seq<MultiValue>, kind: string, value: string)
    requires Lacks(m, kind) && !Lacks(front + back, kind)
    ensures UpsertByType(front + m + back, kind, value)
         == if FindKind(front, kind) < |front| then UpsertByType(front, kind, value) + m + back
            else front + m + UpsertByType(back, kind, value)
  {
    Present(front, kind);
    Present(back, kind);
    if FindKind(front, kind) < |front| {
      UpsertLeft(front, m, kind, value);
      Present(front + m, kind);
      assert front[FindKind(front, kind)] in front + m;
      UpsertLeft(front + m, back, kind, value);
    } else {
      assert !Lacks(back, kind);
      UpsertRight(front + m, back, kind, value);
    }
  }

  // Edits of one type neither bring nor take entries of another.
  lemma StillLacks(list: seq<MultiValue>, l: List, e: Edit, kind: string)
    requires PlainEdit(l, e) && kind != "" && (Touches(l, e) ==> !SameKind(e.kind, kind))
    ensures Lacks(Do(list, l, e), kind) <==> Lacks(list, kind)
  {
    if e.RemoveKind? && e.list == l {
      forall x | x in list && HasKind(x, kind)
        ensures x in WithoutKind(list, e.kind)
      {
        if HasKind(x, e.kind) { OneKindOnly(x, e.kind, kind); }
      }
    } else if e.Upsert? && e.list == l {
      UpsertStillLacks(list, e.kind, e.value, kind);
    }
  }

  lemma UpsertStillLacks(list: seq<MultiValue>, written: string, value: string, kind: string)
    requires written != "" && kind != "" && !SameKind(written, kind)
    ensures Lacks(UpsertByType(list, written, value), kind) <==> Lacks(list, kind)
  {
    var next := UpsertByType(list, written, value);
    var i := UpsertPlaces(list, written, value);
    OneKindOnly(next[i], written, kind);
    if i < |list| && HasKind(list[i], written) { OneKindOnly(list[i], written, kind); }
    assert |Lower(kind)| != 0 && |Lower("")| == 0;
    forall x | x in list && HasKind(x, kind)
      ensures x in next
    {
      var j :| 0 <= j < |list| && list[j] == x;
      assert j != i && next[j] == x;
    }
    forall x | x in next && HasKind(x, kind)
      ensures x in list
    {
      var j :| 0 <= j < |next| && next[j] == x;
      assert j != i && list[j] == x;
    }
  }

  // What the lone untyped entry can be replaced by from here on: nothing, if the
  // type that adopts it is removed later; else an entry of that type, which no
  // edit ever removes.
  ghost predicate StandsIn(m: seq<MultiValue>, rest: seq<MultiValue>, l: List, edits: seq<Edit>) {
    m == [] || (|m| == 1 && m[0].kind.Some? && m[0].kind.value != ""
                && Lacks(rest, m[0].kind.value) && !Listed(Drops(l, edits), m[0].kind.value))
  }

  ghost predicate GoneBefore(list: seq<MultiValue>, l: List, edits: seq<Edit>, i: nat)
    requires i <= |edits|
  {
    forall k | k != "" && Listed(Drops(l, edits[..i]), k) :: Lacks(list, k)
  }

  // The adopted entry is removed later: it might as well not have been there.
  lemma AdoptedThenGone(front: seq<MultiValue>, x: MultiValue, back: seq<MultiValue>, l: List, e: Edit, rest: seq<Edit>)
    requires Plain(l, rest) && e.Upsert? && e.list == l && e.kind != "" && Listed(Drops(l, rest), e.kind)
    requires x.kind.None? && Untyped(front) == 0 && Untyped(back) == 0 && Lacks(front + back, e.kind)
    ensures DoAll(front + [x] + back, l, [e] + rest) == DoAll(front + back, l, [e] + rest)
  {
    var kind, y := e.kind, x.(value := e.value, kind := Some(e.kind));
    UntypedAround(front, back);
    AdoptsHere(front, x, back, kind, e.value);
    SteadyPut(front + back, kind, e.value);
    UntypedMiddle(front, [y], back);
    assert [y][1..] == [];
    ReplacedGoes(front, y, back, kind);
    RemovalSplits(front, back, kind);
    RemovalEvens(front + [y] + back, UpsertByType(front + back, kind, e.value), l, kind, rest);
    FirstDone(front + [x] + back, l, e, rest);
    FirstDone(front + back, l, e, rest);
  }

  // It is never removed: it might as well have been of the type from the start.
  lemma AdoptedForGood(front: seq<MultiValue>, x: MultiValue, back: seq<MultiValue>, l: List, e: Edit, rest: seq<Edit>)
    requires e.Upsert? && e.list == l && e.kind != ""
    requires x.kind.None? && Untyped(front) == 0 && Untyped(back) == 0 && Lacks(front + back, e.kind)
    ensures DoAll(front + [x] + back, l, [e] + rest) == DoAll(front + [x.(kind := Some(e.kind))] + back, l, [e] + rest)
  {
    AdoptsHere(front, x, back, e.kind, e.value);
    assert Lacks(front, e.kind) by { assert forall y | y in front :: y in front + back; }
    StandsHere(front, x, back, e.kind, e.value);
    FirstDone(front + [x] + back, l, e, rest);
    FirstDone(front + [x.(kind := Some(e.kind))] + back, l, e, rest);
  }

  // The upsert at `i` adopts.
  lemma Adopting(front: seq<MultiValue>, x: MultiValue, back: seq<MultiValue>, l: List, edits: seq<Edit>, i: nat)
    returns (m: seq<MultiValue>)
    requires Plain(l, edits) && i < |edits| && edits[i].Upsert? && edits[i].list == l
    requires x.kind.None? && Untyped(front) == 0 && Untyped(back) == 0 && Lacks(front + back, edits[i].kind)
    requires Rewrites(l, edits, i) ==> Listed(Drops(l, edits[i + 1..]), edits[i].kind)
    ensures Untyped(m) == 0 && StandsIn(m, front + back, l, edits)
    ensures DoAll(front + [x] + back, l, edits[i..]) == DoAll(front + m + back, l, edits[i..])
  {
    var e, rest := edits[i], edits[i + 1..];
    assert e in edits && e.kind != "" && edits[i..] == [e] + rest;
    if Listed(Drops(l, rest), e.kind) {
      m := [];
      assert front + m + back == front + back;
      assert edits == edits[..i + 1] + rest;
      PlainParts(l, edits[..i + 1], rest);
      AdoptedThenGone(front, x, back, l, e, rest);
    } else {
      m := [x.(kind := Some(e.kind))];
      assert m[1..] == [];
      AdoptedForGood(front, x, back, l, e, rest);
      DropsAround(l, edits, i, e.kind);
    }
  }

  lemma FirstDone(list: seq<MultiValue>, l: List, e: Edit, rest: seq<Edit>)
    ensures DoAll(list, l, [e] + rest) == DoAll(Do(list, l, e), l, rest)
  {
    assert ([e] + rest)[1..] == rest;
  }

  lemma UntypedAround(front: seq<MultiValue>, back: seq<MultiValue>)
    requires Untyped(front) == 0 && Untyped(back) == 0
    ensures Untyped(front + back) == 0
  {
    UntypedSplits(front, back);
  }

  lemma UntypedMiddle(front: seq<MultiValue>, m: seq<MultiValue>, back: seq<MultiValue>)
    ensures Untyped(front + m + back) == Untyped(front) + Untyped(m) + Untyped(back)
  {
    UntypedSplits(front + m, back);
    UntypedSplits(front, m);
  }

  lemma AdoptsHere(front: seq<MultiValue>, x: MultiValue, back: seq<MultiValue>, kind: string, value: string)
    requires x.kind.None? && Untyped(front) == 0 && Untyped(back) == 0 && kind != "" && Lacks(front + back, kind)
    ensures UpsertByType(front + [x] + back, kind, value)
         == front + [x.(value := value, kind := Some(kind))] + back
  {
    var list, y := front + [x] + back, x.(value := value, kind := Some(kind));
    assert |Lower(kind)| != 0 && |Lower("")| == 0;
    assert Lacks(list, kind) by {
      assert forall e | e in list :: e in front + back || e == x;
    }
    Present(list, kind);
    UntypedMiddle(front, [x], back);
    assert [x][1..] == [];
    NoneUntyped(front);
    forall j | 0 <= j < |front|
      ensures list[j].kind.Some?
    {
      assert list[j] == front[j] && front[j] in front;
    }
    assert list[|front|] == x;
    UntypedFoundAt(list, |front|);
    UpdateMiddle(front, x, back, y);
  }

  lemma FindMiddle(front: seq<MultiValue>, z: MultiValue, back: seq<MultiValue>, kind: string)
    requires Lacks(front, kind) && HasKind(z, kind)
    ensures FindKind(front + [z] + back, kind) == |front| && (front + [z] + back)[|front|] == z
  {
    forall j | 0 <= j < |front|
      ensures !HasKind((front + [z] + back)[j], kind)
    {
      assert front[j] in front;
    }
    FoundAt(front + [z] + back, kind, |front|);
  }

  lemma StandsHere(front: seq<MultiValue>, x: MultiValue, back: seq<MultiValue>, kind: string, value: string)
    requires Lacks(front, kind)
    ensures UpsertByType(front + [x.(kind := Some(kind))] + back, kind, value)
         == front + [x.(value := value, kind := Some(kind))] + back
  {
    var z := x.(kind := Some(kind));
    FindMiddle(front, z, back, kind);
    UpsertFound(front + [z] + back, kind, value);
    UpdateMiddle(front, z, back, z.(value := value));
  }

  lemma {:induction false} Replaceable(front: seq<MultiValue>, x: MultiValue, back: seq<MultiValue>,
                                       l: List, edits: seq<Edit>, i: nat, p: nat)
    returns (m: seq<MultiValue>)
    requires Plain(l, edits) && i <= p < |edits| && FirstRewrite(l, edits, p) && Settled(l, edits)
    requires x.kind.None? && Untyped(front) == 0 && Untyped(back) == 0 && GoneBefore(front + back, l, edits, i)
    ensures Untyped(m) == 0 && StandsIn(m, front + back, l, edits)
    ensures DoAll(front + [x] + back, l, edits[i..]) == DoAll(front + m + back, l, edits[i..])
    decreases p - i
  {
    var e := edits[i];
    assert e in edits;
    UpToFirst(front + back, l, edits, i, p);
    if e.Upsert? && e.list == l && Lacks(front + back, e.kind) {
      m := Adopting(front, x, back, l, edits, i);
    } else {
      var front', back' := Before(front, l, e), Behind(front, back, l, e);
      SidesStay(front, back, l, edits, i);
      m := Replaceable(front', x, back', l, edits, i + 1, p);
      StepBack(front, x, back, m, l, edits, i);
    }
  }

  lemma StepBack(front: seq<MultiValue>, x: MultiValue, back: seq<MultiValue>, m: seq<MultiValue>,
                 l: List, edits: seq<Edit>, i: nat)
    requires i < |edits| && x.kind.None? && PlainEdit(l, edits[i])
    requires edits[i].Upsert? && edits[i].list == l ==> !Lacks(front + back, edits[i].kind)
    requires var front', back' := Before(front, l, edits[i]), Behind(front, back, l, edits[i]);
             && front' + back' == Do(front + back, l, edits[i])
             && StandsIn(m, front' + back', l, edits)
             && DoAll(front' + [x] + back', l, edits[i + 1..]) == DoAll(front' + m + back', l, edits[i + 1..])
    ensures StandsIn(m, front + back, l, edits)
    ensures DoAll(front + [x] + back, l, edits[i..]) == DoAll(front + m + back, l, edits[i..])
  {
    StandsInBefore(m, front, back, l, edits, i);
    assert edits[i..] == [edits[i]] + edits[i + 1..];
    AlikeBefore(front, x, back, m, l, edits[i], edits[i + 1..]);
  }

  // Up to the first type written again, only that one has been removed before.
  lemma UpToFirst(list: seq<MultiValue>, l: List, edits: seq<Edit>, i: nat, p: nat)
    requires i <= p < |edits| && FirstRewrite(l, edits, p) && Settled(l, edits)
    requires PlainEdit(l, edits[i]) && GoneBefore(list, l, edits, i)
    ensures Rewrites(l, edits, i) ==> Listed(Drops(l, edits[i + 1..]), edits[i].kind)
    ensures !(edits[i].Upsert? && edits[i].list == l && Lacks(list, edits[i].kind)) ==> i < p && !Rewrites(l, edits, i)
  {
  }

  lemma AlikeBefore(front: seq<MultiValue>, x: MultiValue, back: seq<MultiValue>, m: seq<MultiValue>,
                    l: List, e: Edit, rest: seq<Edit>)
    requires x.kind.None? && PlainEdit(l, e) && (Touches(l, e) ==> Lacks(m, e.kind))
    requires e.Upsert? && e.list == l ==> !Lacks(front + back, e.kind)
    requires var front', back' := Before(front, l, e), Behind(front, back, l, e);
             DoAll(front' + [x] + back', l, rest) == DoAll(front' + m + back', l, rest)
    ensures DoAll(front + [x] + back, l, [e] + rest) == DoAll(front + m + back, l, [e] + rest)
  {
    UntypedLacks(x, l, e);
    ActsOnSides(front, [x], back, l, e);
    ActsOnSides(front, m, back, l, e);
    FirstDone(front + [x] + back, l, e, rest);
    FirstDone(front + m + back, l, e, rest);
  }

  lemma UntypedLacks(x: MultiValue, l: List, e: Edit)
    requires x.kind.None? && PlainEdit(l, e)
    ensures Touches(l, e) ==> Lacks([x], e.kind)
  {
    if Touches(l, e) { assert |Lower(e.kind)| != 0 && |Lower("")| == 0; }
  }

  // An edit that adopts nothing leaves the sides as they have to be.
  lemma SidesStay(front: seq<MultiValue>, back: seq<MultiValue>, l: List, edits: seq<Edit>, i: nat)
    requires i < |edits| && PlainEdit(l, edits[i]) && Untyped(front) == 0 && Untyped(back) == 0
    requires GoneBefore(front + back, l, edits, i) && !Rewrites(l, edits, i)
    requires edits[i].Upsert? && edits[i].list == l ==> !Lacks(front + back, edits[i].kind)
    ensures var front', back' := Before(front, l, edits[i]), Behind(front, back, l, edits[i]);
            && Untyped(front') == 0 && Untyped(back') == 0
            && front' + back' == Do(front + back, l, edits[i])
            && GoneBefore(front' + back', l, edits, i + 1)
  {
    var e := edits[i];
    var front', back' := Before(front, l, e), Behind(front, back, l, e);
    assert front + [] + back == front + back && front' + [] + back' == front' + back';
    ActsOnSides(front, [], back, l, e);
    SideUntyped(front, l, e);
    SideUntyped(back, l, e);
    forall k | k != "" && Listed(Drops(l, edits[..i + 1]), k)
      ensures Lacks(front' + back', k)
    {
      DropsAround(l, edits, i, k);
      GoneStays(front + back, l, edits, i, k);
    }
  }

  lemma SideUntyped(side: seq<MultiValue>, l: List, e: Edit)
    requires PlainEdit(l, e) && Untyped(side) == 0
    ensures Untyped(Do(side, l, e)) == 0
  {
    if e.RemoveKind? && e.list == l {
      RemovalKeepsUntyped(side, e.kind);
    } else if e.Upsert? && e.list == l {
      SteadyPut(side, e.kind, e.value);
    }
  }

  lemma GoneStays(list: seq<MultiValue>, l: List, edits: seq<Edit>, i: nat, k: string)
    requires i < |edits| && PlainEdit(l, edits[i]) && GoneBefore(list, l, edits, i) && !Rewrites(l, edits, i) && k != ""
    requires Listed(Drops(l, edits[..i]), k) || (edits[i].RemoveKind? && edits[i].list == l && SameKind(edits[i].kind, k))
    ensures Lacks(Do(list, l, edits[i]), k)
  {
    var e := edits[i];
    if e.RemoveKind? && e.list == l {
      if SameKind(e.kind, k) { SameKindHas(e.kind, k); } else { assert Lacks(list, k); }
    } else if e.Upsert? && e.list == l {
      assert !SameKind(e.kind, k);
      UpsertStillLacks(list, e.kind, e.value, k);
    }
  }

  lemma StandsInBefore(m: seq<MultiValue>, front: seq<MultiValue>, back: seq<MultiValue>, l: List, edits: seq<Edit>, i: nat)
    requires i < |edits| && PlainEdit(l, edits[i])
    requires edits[i].Upsert? && edits[i].list == l ==> !Lacks(front + back, edits[i].kind)
    requires StandsIn(m, Do(front + back, l, edits[i]), l, edits)
    ensures StandsIn(m, front + back, l, edits)
    ensures Touches(l, edits[i]) ==> Lacks(m, edits[i].kind)
  {
    var e, list := edits[i], front + back;
    if m != [] && Touches(l, e) {
      var d := m[0].kind.value;
      DropsAround(l, edits, i, d);
      if e.Upsert? && SameKind(e.kind, d) {
        PutShows(list, e.kind, e.value);
        Present(Do(list, l, e), e.kind);
        SameKindHas(e.kind, d);
      }
      assert !SameKind(e.kind, d);
      StillLacks(list, l, e, d);
      assert HasKind(m[0], d);
      OneKindOnly(m[0], d, e.kind);
    }
  }

  lemma StandInOf(m: seq<MultiValue>, rest: seq<MultiValue>, l: List, edits: seq<Edit>)
    requires StandsIn(m, rest, l, edits)
    ensures |m| <= 1
  {
  }

  lemma LoneTwice(list: seq<MultiValue>, l: List, edits: seq<Edit>, p: int)
    requires Untyped(list) == 1 && Plain(l, edits)
    requires FirstRewrite(l, edits, p) && Settled(l, edits) && Ordered(l, edits)
    ensures DoAll(DoAll(list, l, edits), l, edits) == DoAll(list, l, edits)
  {
    var u := FirstUntyped(list);
    var front, x, back := list[..u], list[u], list[u + 1..];
    assert list == front + [x] + back && edits[0..] == edits;
    assert Untyped(front) == 0 && Untyped(back) == 0 by {
      UntypedMiddle(front, [x], back);
      assert [x][1..] == [];
    }
    assert edits[..0] == [];
    var m := Replaceable(front, x, back, l, edits, 0, p);
    UntypedMiddle(front, m, back);
    SteadyTwice(front + m + back, l, edits);
  }

  lemma RewrittenFirst(l: List, edits: seq<Edit>, n: nat) returns (p: int)
    requires Rewrites(l, edits, n)
    ensures FirstRewrite(l, edits, p)
    decreases n
  {
    if q: nat :| q < n && Rewrites(l, edits, q) {
      p := RewrittenFirst(l, edits, q);
    } else {
      p := n;
    }
  }

  lemma RepeatableIsIdempotent(l: List, edits: seq<Edit>)
    requires Typed(edits) && Plain(l, edits) && Repeatable(l, edits) && !Assigned(l, edits)
    ensures Idempotent(l, edits)
  {
    if n: nat :| Rewrites(l, edits, n) {
      var p := RewrittenFirst(l, edits, n);
      forall list
        ensures DoAll(DoAll(list, l, edits), l, edits) == DoAll(list, l, edits)
      {
        if Untyped(list) == 1 { LoneTwice(list, l, edits, p); } else { SteadyTwice(list, l, edits); }
      }
    } else {
      assert !Rewritten(l, edits);
      ListsAreIdempotent(l, edits);
    }
  }
}
