// The canonical text and the seed, spelled out: what a reader with the digest, the
// standard's escapes and a list of fields in key order would write down.
module SubjectMeanings {
  import opened Wrappers
  import opened Json
  import opened Subject
  import T = SubjectTheorems

  // ---------- The order of keys ----------

  // Where `a` first falls short of `b`: a smaller character, or its end.
  predicate FallsShort(a: string, b: string, i: nat) {
    && i <= |a| && i < |b| && (forall k | 0 <= k < i :: a[k] == b[k])
    && (i == |a| || a[i] < b[i])
  }

  ghost predicate Before(a: string, b: string) {
    exists i: nat :: FallsShort(a, b, i)
  }

  lemma {:induction false} LessIff(a: string, b: string)
    ensures Less(a, b) <==> Before(a, b)
    decreases |a|
  {
    if b == "" {
    } else if a == "" || a[0] < b[0] {
      assert FallsShort(a, b, 0);
    } else if a[0] == b[0] {
      LessIff(a[1..], b[1..]);
      if i: nat :| FallsShort(a[1..], b[1..], i) {
        assert FallsShort(a, b, i + 1) by {
          forall k | 0 <= k < i + 1 ensures a[k] == b[k] { if k > 0 { assert a[1..][k - 1] == b[1..][k - 1]; } }
        }
      }
      if i: nat :| FallsShort(a, b, i) {
        assert i > 0;
        assert FallsShort(a[1..], b[1..], i - 1);
      }
    } else {
      assert forall i: nat :: FallsShort(a, b, i) ==> i == 0;
    }
  }

  // ---------- Lists in text ----------

  function Commas(xs: seq<string>): string {
    if xs == [] then ""
    else if |xs| == 1 then xs[0]
    else Commas(xs[..|xs| - 1]) + "," + xs[|xs| - 1]
  }

  lemma {:induction false} CommasFirst(xs: seq<string>)
    requires |xs| > 1
    ensures Commas(xs) == xs[0] + "," + Commas(xs[1..])
  {
    var n := |xs|;
    if n == 2 {
      assert xs[..1] == [xs[0]] && xs[1..] == [xs[1]];
    } else {
      var front := xs[..n - 1];
      CommasFirst(front);
      assert front[1..] == xs[1..][..n - 2] && xs[1..][n - 2] == xs[n - 1];
      Regroup(xs[0] + ",", Commas(front[1..]), "," + xs[n - 1]);
      assert Commas(xs[1..]) == Commas(front[1..]) + "," + xs[n - 1];
      Regroup(Commas(front[1..]), ",", xs[n - 1]);
      Regroup(xs[0] + "," + Commas(front[1..]), ",", xs[n - 1]);
    }
  }

  lemma Regroup(a: string, b: string, c: string)
    ensures (a + b) + c == a + (b + c)
  {
  }

  function FieldText(f: Field, sorted: bool): string {
    Quoted(f.key) + ":" + Text(f.val, sorted)
  }

  function FieldTexts(fs: seq<Field>, sorted: bool): seq<string> {
    seq(|fs|, i requires 0 <= i < |fs| => FieldText(fs[i], sorted))
  }

  function ItemTexts(items: seq<Json>): seq<string> {
    seq(|items|, i requires 0 <= i < |items| => Text(items[i], false))
  }

  lemma JoinStep(fs: seq<Field>, sorted: bool)
    requires |fs| > 1
    ensures Join(Pairs(fs, sorted)) == FieldText(fs[0], sorted) + ("," + Join(Pairs(fs[1..], sorted)))
  {
    var ps := Pairs(fs, sorted);
    assert ps[1..] == Pairs(fs[1..], sorted);
    Regroup(Quoted(fs[0].key) + ":", ps[0].text, "," + Join(ps[1..]));
  }

  lemma {:induction false} JoinIsCommas(fs: seq<Field>, sorted: bool)
    ensures Join(Pairs(fs, sorted)) == Commas(FieldTexts(fs, sorted))
  {
    if fs == [] {
    } else if |fs| == 1 {
      assert FieldTexts(fs, sorted) == [FieldText(fs[0], sorted)];
      assert Join(Pairs(fs, sorted)) == FieldText(fs[0], sorted) + "";
    } else {
      var xs := FieldTexts(fs, sorted);
      JoinIsCommas(fs[1..], sorted);
      assert xs[1..] == FieldTexts(fs[1..], sorted);
      CommasFirst(xs);
      JoinStep(fs, sorted);
      Regroup(xs[0], ",", Commas(xs[1..]));
    }
  }

  lemma {:induction false} ItemsAreCommas(items: seq<Json>)
    ensures Items(items) == Commas(ItemTexts(items))
  {
    if items == [] {
    } else if |items| == 1 {
      assert ItemTexts(items) == [Text(items[0], false)];
      assert Items(items) == Text(items[0], false) + "";
    } else {
      var xs := ItemTexts(items);
      ItemsAreCommas(items[1..]);
      assert xs[1..] == ItemTexts(items[1..]);
      CommasFirst(xs);
      Regroup(xs[0], ",", Commas(xs[1..]));
    }
  }

  // ---------- Canonical text ----------

  ghost predicate InKeyOrder(fs: seq<Field>) {
    forall i, j | 0 <= i < j < |fs| :: Before(fs[i].key, fs[j].key)
  }

  // An object is its fields in the order of their keys, whatever order they came in,
  // with the canonical text of each value.
  lemma CanonicalObject(fields: seq<Field>, gs: seq<Field>)
    requires UniqueKeys(fields) && InKeyOrder(gs) && forall f :: f in gs <==> f in fields
    ensures Canonicalize(Object(fields)) == "{" + Commas(FieldTexts(gs, true)) + "}"
  {
    var ps, qs := Pairs(fields, true), Pairs(gs, true);
    forall i, j | 0 <= i < j < |qs| ensures Less(qs[i].key, qs[j].key) { LessIff(qs[i].key, qs[j].key); }
    forall q ensures q in ps <==> q in qs { SamePairs(fields, gs, q); }
    T.SortSorts(ps);
    T.SortedAreEqual(Sort(ps), qs);
    JoinIsCommas(gs, true);
  }

  lemma SamePairs(fields: seq<Field>, gs: seq<Field>, q: Pair)
    requires forall f :: f in gs <==> f in fields
    ensures q in Pairs(fields, true) <==> q in Pairs(gs, true)
  {
    if i :| 0 <= i < |fields| && Pairs(fields, true)[i] == q {
      assert fields[i] in gs;
      var j :| 0 <= j < |gs| && gs[j] == fields[i];
      assert Pairs(gs, true)[j] == q;
    }
    if j :| 0 <= j < |gs| && Pairs(gs, true)[j] == q {
      assert gs[j] in fields;
      var i :| 0 <= i < |fields| && fields[i] == gs[j];
      assert Pairs(fields, true)[i] == q;
    }
  }

  // There is such an order.
  lemma OrderExists(fields: seq<Field>) returns (gs: seq<Field>)
    requires UniqueKeys(fields)
    ensures InKeyOrder(gs) && |gs| == |fields| && forall f :: f in gs <==> f in fields
  {
    gs := T.SortFields(fields);
    T.SortFieldsText(fields);
    T.SortSorts(Pairs(fields, true));
    forall i, j | 0 <= i < j < |gs| ensures Before(gs[i].key, gs[j].key) {
      assert Pairs(gs, true)[i].key == gs[i].key && Pairs(gs, true)[j].key == gs[j].key;
      LessIff(gs[i].key, gs[j].key);
    }
  }

  // Everything else is its JSON text; in an array that goes for objects too, which
  // keep their fields as they came.
  lemma CanonicalRest(s: string, text: string, items: seq<Json>, fields: seq<Field>)
    ensures Canonicalize(Null) == "null" == Text(Null, false)
    ensures Canonicalize(Bool(true)) == "true" == Text(Bool(true), false)
    ensures Canonicalize(Bool(false)) == "false" == Text(Bool(false), false)
    ensures Canonicalize(Number(text)) == text == Text(Number(text), false)
    ensures Canonicalize(String(s)) == "\"" + EscapedAll(s) + "\"" == Text(String(s), false)
    ensures Canonicalize(Array(items)) == "[" + Commas(ItemTexts(items)) + "]" == Text(Array(items), false)
    ensures Text(Object(fields), false) == "{" + Commas(FieldTexts(fields, false)) + "}"
  {
    ItemsAreCommas(items);
    JoinIsCommas(fields, false);
  }

  // Quotes and backslashes are escaped, five control characters have a letter, and
  // the others are written in hexadecimal; characters one after the other.
  lemma {:induction false} EscapesAppend(a: string, b: string)
    ensures EscapedAll(a + b) == EscapedAll(a) + EscapedAll(b)
  {
    if a == "" {
      assert a + b == b;
    } else {
      assert (a + b)[1..] == a[1..] + b;
      EscapesAppend(a[1..], b);
      Regroup(Escaped(a[0]), EscapedAll(a[1..]), EscapedAll(b));
    }
  }

  const BACKSLASH := "\\"
  const HEX := "0123456789abcdef"

  lemma EscapeOf(c: char)
    ensures EscapedAll([c])
         == if c == '\"' || c == '\\' then BACKSLASH + [c]
            else if '\U{0008}' <= c <= '\r' && c != '\U{000B}' then BACKSLASH + ["btn?fr"[c as int - 8]]
            else if c < ' ' then BACKSLASH + "u00" + ["01"[c as int / 16], HEX[c as int % 16]]
            else [c]
  {
    assert [c][1..] == "" && Escaped(c) + "" == Escaped(c);
    if c < ' ' { HexOf(c as int / 16); HexOf(c as int % 16); }
  }

  lemma HexOf(n: nat)
    requires n < 16
    ensures HexDigit(n) == HEX[n] && (n < 2 ==> HexDigit(n) == "01"[n])
  {
  }

  // ---------- Seeds and ids ----------

  // A pairwise seed begins with its sector; a host's own key takes the place of the
  // properties; the parts are separated by NULs.
  lemma SeedLayout(c: Claim, sector: string, key: string)
    ensures Seed(c, None, None) == c.kind + "\U{0000}" + Canonicalize(c.properties)
    ensures Seed(c, None, Some(key)) == c.kind + "\U{0000}" + key
    ensures Seed(c, Some(sector), None) == sector + "\U{0000}" + c.kind + "\U{0000}" + Canonicalize(c.properties)
    ensures Seed(c, Some(sector), Some(key)) == sector + "\U{0000}" + c.kind + "\U{0000}" + key
  {
  }

  // Two seeds have one id exactly when their digests agree in 22 characters.
  lemma IdsIff(digest: string -> string, seed: string, seed': string)
    requires |digest(seed)| >= 22 && |digest(seed')| >= 22
    ensures |SubjectId(digest, seed)| == 22
    ensures SubjectId(digest, seed) == SubjectId(digest, seed')
       <==> forall i | 0 <= i < 22 :: digest(seed)[i] == digest(seed')[i]
  {
    var a, b := SubjectId(digest, seed), SubjectId(digest, seed');
    if a == b { assert forall i | 0 <= i < 22 :: a[i] == b[i]; }
  }
}
