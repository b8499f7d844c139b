// Canonical subject seeds are injective.
module SubjectTheorems {
  import opened Wrappers
  import opened Json
  import opened Subject

  // ---------- Strings delimit themselves ----------

  lemma EscapesDiffer(c: char, d: char, x: string, y: string)
    requires Escaped(c) + x == Escaped(d) + y
    ensures c == d && x == y
  {
    var s, t := Escaped(c) + x, Escaped(d) + y;
    assert s[0] == Escaped(c)[0] && t[0] == Escaped(d)[0];
    if s[0] == '\\' {
      assert s[1] == Escaped(c)[1] && t[1] == Escaped(d)[1];
      if s[1] == 'u' {
        assert s[4] == Escaped(c)[4] && t[4] == Escaped(d)[4];
        assert s[5] == Escaped(c)[5] && t[5] == Escaped(d)[5];
      }
    }
    assert Escaped(c) == Escaped(d);
    assert x == s[|Escaped(c)|..] && y == t[|Escaped(d)|..];
  }

  lemma BodyStarts(k: string, x: string)
    ensures (EscapedAll(k) + "\"" + x)[0] == '\"' <==> k == ""
  {
    if k != "" {
      assert EscapedAll(k)[0] == Escaped(k[0])[0];
    }
  }

  lemma BodyStep(first: string, rest: string, x: string)
    ensures (first + rest) + "\"" + x == first + (rest + "\"" + x)
  {
  }

  lemma {:induction false} BodiesDiffer(k: string, k': string, x: string, y: string)
    requires EscapedAll(k) + "\"" + x == EscapedAll(k') + "\"" + y
    ensures k == k' && x == y
  {
    BodyStarts(k, x);
    BodyStarts(k', y);
    if k == "" {
      assert x == (EscapedAll(k) + "\"" + x)[1..] && y == (EscapedAll(k') + "\"" + y)[1..];
    } else {
      var u, w := EscapedAll(k[1..]) + "\"" + x, EscapedAll(k'[1..]) + "\"" + y;
      BodyStep(Escaped(k[0]), EscapedAll(k[1..]), x);
      BodyStep(Escaped(k'[0]), EscapedAll(k'[1..]), y);
      EscapesDiffer(k[0], k'[0], u, w);
      BodiesDiffer(k[1..], k'[1..], x, y);
    }
  }

  lemma QuotesDiffer(k: string, k': string, x: string, y: string)
    requires Quoted(k) + x == Quoted(k') + y
    ensures k == k' && x == y
  {
    var s, t := Quoted(k) + x, Quoted(k') + y;
    assert s[1..] == EscapedAll(k) + "\"" + x && t[1..] == EscapedAll(k') + "\"" + y;
    BodiesDiffer(k, k', x, y);
  }

  // ---------- Values delimit themselves before a comma or a closing bracket ----------

  predicate Tail(r: string) {
    r == "" || r[0] == ',' || r[0] == '}' || r[0] == ']'
  }

  lemma NumberIsNotCut(t: string, r: string)
    requires NumberText(t) && Tail(r)
    ensures forall n | 0 <= n < |t| :: !Tail([(t + r)[n]])
    ensures |t| < |t + r| ==> Tail([(t + r)[|t|]])
  {
    forall n | 0 <= n < |t|
      ensures !Tail([(t + r)[n]])
    {
      assert (t + r)[n] == t[n] && t[n] in t;
    }
  }

  lemma NumbersDiffer(t: string, t': string, r: string, r': string)
    requires NumberText(t) && NumberText(t') && Tail(r) && Tail(r') && t + r == t' + r'
    ensures t == t' && r == r'
  {
    NumberIsNotCut(t, r);
    NumberIsNotCut(t', r');
    assert |t| == |t'|;
    assert t == (t + r)[..|t|] && t' == (t' + r')[..|t'|];
    assert r == (t + r)[|t|..] && r' == (t' + r')[|t'|..];
  }

  datatype Kind = NullKind | BoolKind | NumberKind | StringKind | ArrayKind | ObjectKind

  function KindOf(c: char): Kind {
    if c == 'n' then NullKind
    else if c == 't' || c == 'f' then BoolKind
    else if c == '\"' then StringKind
    else if c == '[' then ArrayKind
    else if c == '{' then ObjectKind
    else NumberKind
  }

  // The first character tells what kind of value follows.
  lemma FirstTells(v: Json, sorted: bool)
    requires Parsed(v)
    ensures Text(v, sorted) != "" && Text(v, sorted)[0] != ']'
    ensures var k := KindOf(Text(v, sorted)[0]);
            && (v.Null? <==> k.NullKind?) && (v.Bool? <==> k.BoolKind?) && (v.Number? <==> k.NumberKind?)
            && (v.String? <==> k.StringKind?) && (v.Array? <==> k.ArrayKind?) && (v.Object? <==> k.ObjectKind?)
  {
    if v.Number? {
      assert v.text[0] in v.text;
    }
  }

  // ---------- Sorting ----------

  lemma {:induction false} LessIsStrict(a: string, b: string)
    ensures !(Less(a, b) && Less(b, a)) && !Less(a, a)
    ensures a != b ==> Less(a, b) || Less(b, a)
    decreases |a|
  {
    if a != "" && b != "" {
      LessIsStrict(a[1..], b[1..]);
      assert a == [a[0]] + a[1..] && b == [b[0]] + b[1..];
    }
    if a != "" {
      LessIsStrict(a[1..], a[1..]);
    }
  }

  lemma {:induction false} LessIsTransitive(a: string, b: string, c: string)
    requires Less(a, b) && Less(b, c)
    ensures Less(a, c)
    decreases |a|
  {
    if a != "" && a[0] == b[0] == c[0] {
      LessIsTransitive(a[1..], b[1..], c[1..]);
    }
  }

  predicate StrictlySorted(ps: seq<Pair>) {
    forall i, j | 0 <= i < j < |ps| :: Less(ps[i].key, ps[j].key)
  }

  predicate Distinct(ps: seq<Pair>) {
    forall i, j | 0 <= i < j < |ps| :: ps[i].key != ps[j].key
  }

  lemma {:induction false} InsertKeeps(p: Pair, ps: seq<Pair>)
    ensures |Insert(p, ps)| == |ps| + 1
    ensures forall q :: q in Insert(p, ps) <==> q == p || q in ps
  {
    if ps != [] && !Less(p.key, ps[0].key) {
      InsertKeeps(p, ps[1..]);
      assert ps == [ps[0]] + ps[1..];
    }
  }

  lemma {:induction false} InsertSorts(p: Pair, ps: seq<Pair>)
    requires StrictlySorted(ps) && forall q | q in ps :: q.key != p.key
    ensures StrictlySorted(Insert(p, ps))
  {
    if ps != [] {
      LessIsStrict(p.key, ps[0].key);
      if Less(p.key, ps[0].key) {
        forall j | 0 < j < |ps|
          ensures Less(p.key, ps[j].key)
        {
          LessIsTransitive(p.key, ps[0].key, ps[j].key);
        }
      } else {
        var rest := Insert(p, ps[1..]);
        InsertSorts(p, ps[1..]);
        InsertKeeps(p, ps[1..]);
        assert forall q | q in rest :: Less(ps[0].key, q.key);
      }
    }
  }

  lemma {:induction false} SortSorts(ps: seq<Pair>)
    requires Distinct(ps)
    ensures StrictlySorted(Sort(ps)) && |Sort(ps)| == |ps| && forall q :: q in Sort(ps) <==> q in ps
  {
    if ps != [] {
      SortSorts(ps[1..]);
      InsertKeeps(ps[0], Sort(ps[1..]));
      assert ps == [ps[0]] + ps[1..];
      InsertSorts(ps[0], Sort(ps[1..]));
    }
  }

  lemma FirstIsLeast(x: seq<Pair>, y: seq<Pair>)
    requires StrictlySorted(x) && StrictlySorted(y) && x != [] && y != []
    requires forall q :: q in x <==> q in y
    ensures x[0] == y[0]
  {
    assert x[0] in y && y[0] in x;
    LessIsStrict(x[0].key, y[0].key);
  }

  lemma TailLacksFirst(x: seq<Pair>)
    requires StrictlySorted(x) && x != []
    ensures forall q :: q in x[1..] <==> q in x && q != x[0]
  {
    LessIsStrict(x[0].key, x[0].key);
    assert x == [x[0]] + x[1..];
  }

  lemma {:induction false} SortedAreEqual(x: seq<Pair>, y: seq<Pair>)
    requires StrictlySorted(x) && StrictlySorted(y) && forall q :: q in x <==> q in y
    ensures x == y
  {
    if x != [] { assert x[0] in y; }
    if y != [] { assert y[0] in x; }
    if x != [] {
      FirstIsLeast(x, y);
      TailLacksFirst(x);
      TailLacksFirst(y);
      SortedAreEqual(x[1..], y[1..]);
    }
  }

  // The fields in the order of their keys.
  function InsertField(f: Field, fs: seq<Field>): seq<Field> {
    if fs == [] then [f]
    else if Less(f.key, fs[0].key) then [f] + fs
    else [fs[0]] + InsertField(f, fs[1..])
  }

  function SortFields(fs: seq<Field>): seq<Field> {
    if fs == [] then [] else InsertField(fs[0], SortFields(fs[1..]))
  }

  lemma {:induction false} InsertFieldText(f: Field, fs: seq<Field>)
    ensures Pairs(InsertField(f, fs), true) == Insert(Pair(f.key, Text(f.val, true)), Pairs(fs, true))
    ensures forall g :: g in InsertField(f, fs) <==> g == f || g in fs
  {
    if fs != [] && !Less(f.key, fs[0].key) {
      InsertFieldText(f, fs[1..]);
      assert fs == [fs[0]] + fs[1..];
      assert Pairs(fs, true)[1..] == Pairs(fs[1..], true);
    }
  }

  lemma {:induction false} SortFieldsText(fs: seq<Field>)
    ensures Pairs(SortFields(fs), true) == Sort(Pairs(fs, true))
    ensures forall g :: g in SortFields(fs) <==> g in fs
  {
    if fs != [] {
      SortFieldsText(fs[1..]);
      InsertFieldText(fs[0], SortFields(fs[1..]));
      assert fs == [fs[0]] + fs[1..];
      assert Pairs(fs, true)[1..] == Pairs(fs[1..], true);
    }
  }

  function InOrder(fs: seq<Field>, sorted: bool): seq<Field> {
    if sorted then SortFields(fs) else fs
  }

  lemma ObjectText(v: Json, sorted: bool)
    requires v.Object?
    ensures Text(v, sorted) == "{" + Join(Pairs(InOrder(v.fields, sorted), sorted)) + "}"
    ensures forall f :: f in InOrder(v.fields, sorted) <==> f in v.fields
  {
    SortFieldsText(v.fields);
  }

  // ---------- Equal text, equal values ----------

  lemma {:induction false} GetOfUnique(fields: seq<Field>, f: Field)
    requires UniqueKeys(fields) && f in fields
    ensures Get(fields, f.key) == f.val
  {
    if fields[0] != f {
      assert f in fields[1..];
      GetOfUnique(fields[1..], f);
    }
  }

  // The text after a field's value, up to the brace and past it.
  function Rest(fs: seq<Field>, sorted: bool, r: string): string
    requires fs != []
  {
    (if |fs| == 1 then "" else "," + Join(Pairs(fs[1..], sorted))) + "}" + r
  }

  lemma Regroup(q: string, t: string, u: string, r: string)
    ensures (q + ":" + t + u) + "}" + r == q + (":" + (t + (u + "}" + r)))
  {
  }

  lemma RegroupItem(t: string, u: string, r: string)
    ensures (t + u) + "]" + r == t + (u + "]" + r)
  {
  }

  lemma AfterComma(j: string, close: string, r: string)
    ensures ("," + j) + close + r == "," + (j + close + r)
  {
  }

  lemma FirstField(fs: seq<Field>, sorted: bool, r: string)
    requires fs != []
    ensures Join(Pairs(fs, sorted)) + "}" + r == Quoted(fs[0].key) + (":" + (Text(fs[0].val, sorted) + Rest(fs, sorted, r)))
    ensures |fs| == 1 ==> Rest(fs, sorted, r) == "}" + r
    ensures |fs| > 1 ==> Rest(fs, sorted, r) == "," + (Join(Pairs(fs[1..], sorted)) + "}" + r)
  {
    var ps := Pairs(fs, sorted);
    assert ps[1..] == Pairs(fs[1..], sorted);
    var u := if |fs| == 1 then "" else "," + Join(Pairs(fs[1..], sorted));
    assert Join(ps) == Quoted(fs[0].key) + ":" + Text(fs[0].val, sorted) + u;
    Regroup(Quoted(fs[0].key), Text(fs[0].val, sorted), u, r);
    AfterComma(Join(Pairs(fs[1..], sorted)), "}", r);
    assert "" + "}" + r == "}" + r;
  }

  function ItemsRest(items: seq<Json>, r: string): string
    requires items != []
  {
    (if |items| == 1 then "" else "," + Items(items[1..])) + "]" + r
  }

  lemma FirstItem(items: seq<Json>, r: string)
    requires items != []
    ensures Items(items) + "]" + r == Text(items[0], false) + ItemsRest(items, r)
    ensures |items| == 1 ==> ItemsRest(items, r) == "]" + r
    ensures |items| > 1 ==> ItemsRest(items, r) == "," + (Items(items[1..]) + "]" + r)
  {
    var u := if |items| == 1 then "" else "," + Items(items[1..]);
    assert Items(items) == Text(items[0], false) + u;
    RegroupItem(Text(items[0], false), u, r);
    AfterComma(Items(items[1..]), "]", r);
    assert "" + "]" + r == "]" + r;
  }

  lemma OpenCancels(open: string, close: string, j: string, j': string, r: string, r': string)
    requires |open| == 1 && open + j + close + r == open + j' + close + r'
    ensures j + close + r == j' + close + r'
  {
    assert open + j + close + r == open + (j + close + r);
    assert open + j' + close + r' == open + (j' + close + r');
    assert j + close + r == (open + (j + close + r))[1..];
    assert j' + close + r' == (open + (j' + close + r'))[1..];
  }

  lemma {:induction false} TextsDiffer(v: Json, w: Json, sorted: bool, r: string, r': string)
    requires Parsed(v) && Parsed(w) && Tail(r) && Tail(r') && Text(v, sorted) + r == Text(w, sorted) + r'
    ensures Same(v, w, sorted) && r == r'
    decreases v, 2, 0, 0
  {
    var s, t := Text(v, sorted) + r, Text(w, sorted) + r';
    FirstTells(v, sorted);
    FirstTells(w, sorted);
    assert s[0] == Text(v, sorted)[0] && t[0] == Text(w, sorted)[0];
    if v.Number? {
      NumbersDiffer(v.text, w.text, r, r');
    } else if v.String? {
      QuotesDiffer(v.s, w.s, r, r');
    } else if v.Array? {
      OpenCancels("[", "]", Items(v.items), Items(w.items), r, r');
      ItemsDiffer(v, v.items, w.items, r, r');
    } else if v.Object? {
      ObjectsDiffer(v, w, sorted, r, r');
    } else {
      assert Text(v, sorted) == Text(w, sorted);
      assert r == s[|Text(v, sorted)|..] && r' == t[|Text(w, sorted)|..];
    }
  }

  lemma {:induction false} ItemsDiffer(v: Json, items: seq<Json>, items': seq<Json>, r: string, r': string)
    requires (forall x | x in items :: Parsed(x) && x < v) && (forall x | x in items' :: Parsed(x))
    requires Items(items) + "]" + r == Items(items') + "]" + r'
    ensures items == items' && r == r'
    decreases v, 0, |items|, 1
  {
    var s, t := Items(items) + "]" + r, Items(items') + "]" + r';
    if items != [] { FirstItemTells(items, r); }
    if items' != [] { FirstItemTells(items', r'); }
    if items == [] || items' == [] {
      assert items == [] ==> s[0] == ']';
      assert items' == [] ==> t[0] == ']';
      assert r == s[1..] && r' == t[1..];
    } else {
      assert items[0] in items && items'[0] in items';
      FirstItem(items, r);
      FirstItem(items', r');
      TextsDiffer(items[0], items'[0], false, ItemsRest(items, r), ItemsRest(items', r'));
      LaterItemsDiffer(v, items, items', r, r');
    }
  }

  lemma FirstItemTells(items: seq<Json>, r: string)
    requires items != [] && Parsed(items[0])
    ensures (Items(items) + "]" + r)[0] != ']'
  {
    FirstTells(items[0], false);
  }

  lemma {:induction false} LaterItemsDiffer(v: Json, items: seq<Json>, items': seq<Json>, r: string, r': string)
    requires items != [] && items' != [] && items[0] == items'[0]
    requires (forall x | x in items :: Parsed(x) && x < v) && (forall x | x in items' :: Parsed(x))
    requires ItemsRest(items, r) == ItemsRest(items', r')
    ensures items == items' && r == r'
    decreases v, 0, |items|, 0
  {
    FirstItem(items, r);
    FirstItem(items', r');
    var x, y := ItemsRest(items, r), ItemsRest(items', r');
    assert x[0] == y[0] && x[1..] == y[1..];
    if |items| > 1 && |items'| > 1 {
      assert x[1..] == Items(items[1..]) + "]" + r && y[1..] == Items(items'[1..]) + "]" + r';
      ItemsDiffer(v, items[1..], items'[1..], r, r');
    } else {
      assert |items| == 1 ==> x[1..] == r;
      assert |items'| == 1 ==> y[1..] == r';
    }
    assert items == [items[0]] + items[1..] && items' == [items'[0]] + items'[1..];
  }

  // Fields, one after the other: the same keys, the same values, the same rest.
  ghost predicate Pairwise(fs: seq<Field>, gs: seq<Field>, sorted: bool) {
    |fs| == |gs| && forall i | 0 <= i < |fs| :: fs[i].key == gs[i].key && Same(fs[i].val, gs[i].val, sorted)
  }

  lemma {:induction false} FieldsDiffer(v: Json, fs: seq<Field>, gs: seq<Field>, sorted: bool, r: string, r': string)
    requires (forall f | f in fs :: Parsed(f.val) && f.val < v) && (forall g | g in gs :: Parsed(g.val))
    requires Join(Pairs(fs, sorted)) + "}" + r == Join(Pairs(gs, sorted)) + "}" + r'
    ensures Pairwise(fs, gs, sorted) && r == r'
    decreases v, 0, |fs|, 1
  {
    var s, t := Join(Pairs(fs, sorted)) + "}" + r, Join(Pairs(gs, sorted)) + "}" + r';
    if fs != [] { FirstField(fs, sorted, r); assert s[0] == '\"'; } else { assert s[0] == '}'; }
    if gs != [] { FirstField(gs, sorted, r'); assert t[0] == '\"'; } else { assert t[0] == '}'; }
    if fs == [] || gs == [] {
      assert r == s[1..] && r' == t[1..];
    } else {
      assert fs[0] in fs && gs[0] in gs;
      var x, y := Text(fs[0].val, sorted) + Rest(fs, sorted, r), Text(gs[0].val, sorted) + Rest(gs, sorted, r');
      QuotesDiffer(fs[0].key, gs[0].key, ":" + x, ":" + y);
      assert x == (":" + x)[1..] && y == (":" + y)[1..];
      TextsDiffer(fs[0].val, gs[0].val, sorted, Rest(fs, sorted, r), Rest(gs, sorted, r'));
      LaterFieldsDiffer(v, fs, gs, sorted, r, r');
    }
  }

  lemma PairwiseFrom(fs: seq<Field>, gs: seq<Field>, sorted: bool)
    requires fs != [] && gs != [] && fs[0].key == gs[0].key && Same(fs[0].val, gs[0].val, sorted)
    requires Pairwise(fs[1..], gs[1..], sorted)
    ensures Pairwise(fs, gs, sorted)
  {
    forall i | 0 <= i < |fs|
      ensures fs[i].key == gs[i].key && Same(fs[i].val, gs[i].val, sorted)
    {
      if i > 0 { assert fs[i] == fs[1..][i - 1] && gs[i] == gs[1..][i - 1]; }
    }
  }

  lemma {:induction false} LaterFieldsDiffer(v: Json, fs: seq<Field>, gs: seq<Field>, sorted: bool, r: string, r': string)
    requires fs != [] && gs != [] && fs[0].key == gs[0].key && Same(fs[0].val, gs[0].val, sorted)
    requires (forall f | f in fs :: Parsed(f.val) && f.val < v) && (forall g | g in gs :: Parsed(g.val))
    requires Rest(fs, sorted, r) == Rest(gs, sorted, r')
    ensures Pairwise(fs, gs, sorted) && r == r'
    decreases v, 0, |fs|, 0
  {
    FirstField(fs, sorted, r);
    FirstField(gs, sorted, r');
    var x, y := Rest(fs, sorted, r), Rest(gs, sorted, r');
    assert x[0] == y[0] && x[1..] == y[1..];
    if |fs| > 1 && |gs| > 1 {
      assert x[1..] == Join(Pairs(fs[1..], sorted)) + "}" + r && y[1..] == Join(Pairs(gs[1..], sorted)) + "}" + r';
      FieldsDiffer(v, fs[1..], gs[1..], sorted, r, r');
    } else {
      assert |fs| == 1 ==> x[1..] == r;
      assert |gs| == 1 ==> y[1..] == r';
    }
    PairwiseFrom(fs, gs, sorted);
  }

  lemma {:induction false} ObjectsDiffer(v: Json, w: Json, sorted: bool, r: string, r': string)
    requires v.Object? && w.Object? && Parsed(v) && Parsed(w)
    requires Text(v, sorted) + r == Text(w, sorted) + r'
    ensures Same(v, w, sorted) && r == r'
    decreases v, 1, 0, 0
  {
    var fs, gs := InOrder(v.fields, sorted), InOrder(w.fields, sorted);
    ObjectText(v, sorted);
    ObjectText(w, sorted);
    OpenCancels("{", "}", Join(Pairs(fs, sorted)), Join(Pairs(gs, sorted)), r, r');
    FieldsDiffer(v, fs, gs, sorted, r, r');
    if sorted {
      PairwiseIsSame(v, w, fs, gs);
    } else {
      assert forall i | 0 <= i < |fs| :: fs[i] == gs[i];
    }
  }

  lemma PairwiseIsSame(v: Json, w: Json, fs: seq<Field>, gs: seq<Field>)
    requires v.Object? && w.Object? && UniqueKeys(w.fields) && Pairwise(fs, gs, true)
    requires (forall f :: f in fs <==> f in v.fields) && (forall g :: g in gs <==> g in w.fields)
    ensures Same(v, w, true)
  {
    forall i | 0 <= i < |v.fields|
      ensures HasKey(w.fields, v.fields[i].key) && Same(v.fields[i].val, Get(w.fields, v.fields[i].key), true)
    {
      assert v.fields[i] in fs;
      var k :| 0 <= k < |fs| && fs[k] == v.fields[i];
      assert gs[k] in w.fields;
      GetOfUnique(w.fields, gs[k]);
    }
    forall i | 0 <= i < |w.fields|
      ensures HasKey(v.fields, w.fields[i].key)
    {
      assert w.fields[i] in gs;
      var k :| 0 <= k < |gs| && gs[k] == w.fields[i];
      assert fs[k] in v.fields;
    }
  }

  // ---------- Equal values, equal text ----------

  lemma {:induction false} GetIsField(fields: seq<Field>, key: string) returns (i: nat)
    requires HasKey(fields, key)
    ensures i < |fields| && fields[i].key == key && Get(fields, key) == fields[i].val
  {
    if fields[0].key == key {
      i := 0;
    } else {
      var f :| f in fields && f.key == key;
      assert f in fields[1..];
      i := GetIsField(fields[1..], key);
      i := i + 1;
    }
  }

  lemma PairsMeet(vs: seq<Field>, ws: seq<Field>)
    requires UniqueKeys(vs) && UniqueKeys(ws) && forall j | 0 <= j < |ws| :: HasKey(vs, ws[j].key)
    requires forall i | 0 <= i < |vs| ::
               HasKey(ws, vs[i].key) && Canonicalize(vs[i].val) == Canonicalize(Get(ws, vs[i].key))
    ensures Sort(Pairs(vs, true)) == Sort(Pairs(ws, true))
  {
    var a, b := Pairs(vs, true), Pairs(ws, true);
    forall i | 0 <= i < |a|
      ensures a[i] in b
    {
      var k := GetIsField(ws, vs[i].key);
      assert b[k] == a[i];
    }
    forall j | 0 <= j < |b|
      ensures b[j] in a
    {
      var i := GetIsField(vs, ws[j].key);
      var k := GetIsField(ws, vs[i].key);
      assert k == j && a[i] == b[j];
    }
    SortSorts(a);
    SortSorts(b);
    SortedAreEqual(Sort(a), Sort(b));
  }

  lemma {:induction false} SameTexts(v: Json, w: Json)
    requires Parsed(v) && Parsed(w) && Same(v, w, true)
    ensures Canonicalize(v) == Canonicalize(w)
    decreases v
  {
    if v.Object? && w.Object? {
      forall i | 0 <= i < |v.fields|
        ensures Canonicalize(v.fields[i].val) == Canonicalize(Get(w.fields, v.fields[i].key))
      {
        var k := GetIsField(w.fields, v.fields[i].key);
        SameTexts(v.fields[i].val, w.fields[k].val);
      }
      PairsMeet(v.fields, w.fields);
    }
  }

  // Two parsed values have the same canonical text exactly when they are equal up
  // to the order of keys in objects outside arrays.
  lemma CanonicalIff(v: Json, w: Json)
    requires Parsed(v) && Parsed(w)
    ensures Canonicalize(v) == Canonicalize(w) <==> Same(v, w, true)
  {
    if Canonicalize(v) == Canonicalize(w) {
      assert Canonicalize(v) + "" == Canonicalize(w) + "";
      TextsDiffer(v, w, true, "", "");
    } else if Same(v, w, true) {
      SameTexts(v, w);
    }
  }

  // ---------- Seeds ----------

  predicate NulFree(s: string) {
    NUL[0] !in s
  }

  lemma {:induction false} EscapedHasNoNul(s: string)
    ensures NulFree(EscapedAll(s))
  {
    if s != "" {
      EscapedHasNoNul(s[1..]);
    }
  }

  lemma {:induction false} JoinHasNoNul(ps: seq<Pair>)
    requires forall p | p in ps :: NulFree(p.text)
    ensures NulFree(Join(ps))
  {
    if ps != [] {
      EscapedHasNoNul(ps[0].key);
      assert ps[0] in ps;
      JoinHasNoNul(ps[1..]);
    }
  }

  lemma {:induction false} TextHasNoNul(v: Json, sorted: bool)
    requires Parsed(v)
    ensures NulFree(Text(v, sorted))
    decreases v, 1, 0
  {
    match v {
      case Number(text) =>
      case String(s) => EscapedHasNoNul(s);
      case Array(items) => ItemsHaveNoNul(v, items);
      case Object(fields) =>
        var fs := InOrder(fields, sorted);
        ObjectText(v, sorted);
        forall f | f in fs
          ensures NulFree(Text(f.val, sorted))
        {
          assert f in fields;
          TextHasNoNul(f.val, sorted);
        }
        JoinHasNoNul(Pairs(fs, sorted));
      case _ =>
    }
  }

  lemma {:induction false} ItemsHaveNoNul(v: Json, items: seq<Json>)
    requires forall x | x in items :: Parsed(x) && x < v
    ensures NulFree(Items(items))
    decreases v, 0, |items|
  {
    if items != [] {
      assert items[0] in items;
      TextHasNoNul(items[0], false);
      ItemsHaveNoNul(v, items[1..]);
    }
  }

  lemma NulFreeBefore(a: string, x: string)
    requires NulFree(a)
    ensures forall n | 0 <= n < |a| :: (a + NUL + x)[n] != NUL[0]
    ensures (a + NUL + x)[|a|] == NUL[0]
  {
    assert forall n | 0 <= n < |a| :: (a + NUL + x)[n] == a[n];
  }

  lemma FirstNul(a: string, b: string, x: string, y: string)
    requires NulFree(a) && NulFree(b) && a + NUL + x == b + NUL + y
    ensures a == b && x == y
  {
    var s, t := a + NUL + x, b + NUL + y;
    NulFreeBefore(a, x);
    NulFreeBefore(b, y);
    assert |a| == |b|;
    assert a == s[..|a|] && b == t[..|b|];
    assert x == s[|a| + 1..] && y == t[|b| + 1..];
  }

  predicate Clean(claim: Claim, sector: Option<string>) {
    NulFree(claim.kind) && (sector.Some? ==> NulFree(sector.value))
  }

  lemma HasNul(k: string, p: string)
    ensures !NulFree(k + NUL + p)
  {
    assert (k + NUL + p)[|k|] == NUL[0];
  }

  lemma Regrouped(s: string, k: string, p: string)
    ensures s + NUL + k + NUL + p == s + NUL + (k + NUL + p)
  {
  }

  lemma PairwiseSeeds(s: string, k: string, p: string, s': string, k': string, p': string)
    requires NulFree(s) && NulFree(k) && NulFree(s') && NulFree(k')
    requires s + NUL + k + NUL + p == s' + NUL + k' + NUL + p'
    ensures s == s' && k == k' && p == p'
  {
    Regrouped(s, k, p);
    Regrouped(s', k', p');
    FirstNul(s, s', k + NUL + p, k' + NUL + p');
    FirstNul(k, k', p, p');
  }

  lemma PublicIsNotPairwise(s: string, k: string, p: string, k': string, p': string)
    requires NulFree(s) && NulFree(k') && NulFree(p')
    ensures s + NUL + k + NUL + p != k' + NUL + p'
  {
    Regrouped(s, k, p);
    HasNul(k, p);
    if s + NUL + (k + NUL + p) == k' + NUL + p' {
      FirstNul(s, k', k + NUL + p, p');
    }
  }

  // A seed of any NUL-free identity text determines its three parts.
  lemma SeedParts(c: Claim, sector: Option<string>, key: Option<string>, p: string,
                  c': Claim, sector': Option<string>, key': Option<string>, p': string)
    requires Clean(c, sector) && Clean(c', sector') && NulFree(p) && NulFree(p')
    requires p == if key.Some? then key.value else Canonicalize(c.properties)
    requires p' == if key'.Some? then key'.value else Canonicalize(c'.properties)
    ensures Seed(c, sector, key) == Seed(c', sector', key') <==> sector == sector' && c.kind == c'.kind && p == p'
  {
    if Seed(c, sector, key) == Seed(c', sector', key') {
      match (sector, sector') {
        case (Some(s), Some(s')) => PairwiseSeeds(s, c.kind, p, s', c'.kind, p');
        case (None, None) => FirstNul(c.kind, c'.kind, p, p');
        case (Some(s), None) => PublicIsNotPairwise(s, c.kind, p, c'.kind, p');
        case (None, Some(s')) => PublicIsNotPairwise(s', c'.kind, p', c.kind, p);
      }
    }
  }

  // Seeds are equal exactly for the same sector (or none), the same type and the
  // same properties: a public subject never has the seed of a pairwise one.
  lemma SeedsIff(c: Claim, sector: Option<string>, c': Claim, sector': Option<string>)
    requires Clean(c, sector) && Clean(c', sector') && Parsed(c.properties) && Parsed(c'.properties)
    ensures Seed(c, sector, None) == Seed(c', sector', None)
       <==> sector == sector' && c.kind == c'.kind && Same(c.properties, c'.properties, true)
  {
    CanonicalIff(c.properties, c'.properties);
    TextHasNoNul(c.properties, true);
    TextHasNoNul(c'.properties, true);
    SeedParts(c, sector, None, Canonicalize(c.properties), c', sector', None, Canonicalize(c'.properties));
  }

  // A public subject's key that spells out a pairwise subject's type and key, its
  // type being that subject's sector.
  predicate Absorbs(c: Claim, sector: Option<string>, key: string, c': Claim, sector': Option<string>, key': string) {
    sector.None? && sector'.Some? && c.kind == sector'.value && key == c'.kind + NUL + key'
  }

  lemma PublicIsPairwiseIff(s: string, k: string, p: string, k': string, p': string)
    requires NulFree(s) && NulFree(k')
    ensures s + NUL + k + NUL + p == k' + NUL + p' <==> k' == s && p' == k + NUL + p
  {
    Regrouped(s, k, p);
    if s + NUL + (k + NUL + p) == k' + NUL + p' {
      FirstNul(s, k', k + NUL + p, p');
    }
  }

  // A host's own keys may hold anything, a NUL included. Then a public subject can
  // have a pairwise subject's seed, in exactly one way.
  lemma HostKeySeedsIff(c: Claim, sector: Option<string>, key: string, c': Claim, sector': Option<string>, key': string)
    requires Clean(c, sector) && Clean(c', sector')
    ensures Seed(c, sector, Some(key)) == Seed(c', sector', Some(key'))
       <==> || (sector == sector' && c.kind == c'.kind && key == key')
            || Absorbs(c, sector, key, c', sector', key')
            || Absorbs(c', sector', key', c, sector, key)
  {
    if sector.Some? && sector'.None? {
      PublicIsPairwiseIff(sector.value, c.kind, key, c'.kind, key');
    } else if sector.None? && sector'.Some? {
      PublicIsPairwiseIff(sector'.value, c'.kind, key', c.kind, key);
    } else if Seed(c, sector, Some(key)) == Seed(c', sector', Some(key')) {
      if sector.Some? {
        PairwiseSeeds(sector.value, c.kind, key, sector'.value, c'.kind, key');
      } else {
        FirstNul(c.kind, c'.kind, key, key');
      }
    }
  }
}
