// What the filter parser guarantees: quoted text never acts as syntax, and
// printed terms parse back, with one exception.
module ScimFilterTheorems {
  import opened Wrappers
  import opened Text
  import opened ScimFilter

  // ---------- Quoted text is inert ----------

  lemma {:induction false} MaskKeepsQuotes(s: string, i: nat)
    requires i <= |s|
    ensures InQuotes(Mask(s), i) == InQuotes(s, i)
    ensures i < |s| ==> Quote(Mask(s), i) == Quote(s, i)
  {
    if i > 0 {
      MaskKeepsQuotes(s, i - 1);
    }
    if i < |s| && s[i] == '\"' && !Quote(s, i) && !InQuotes(s, i) {
      assert !InQuotes(s, i - 1) && !Quote(s, i - 1);
      assert Mask(s)[i - 1] == '\\';
    }
  }

  lemma {:induction false} MaskKeepsDepth(s: string, i: nat)
    requires i <= |s|
    ensures Depth(Mask(s), i) == Depth(s, i)
  {
    if i > 0 {
      MaskKeepsDepth(s, i - 1);
      MaskKeepsQuotes(s, i - 1);
    }
  }

  lemma MaskKeepsAnd(s: string, i: nat)
    requires i < |s|
    ensures AndAt(Mask(s), i) == AndAt(s, i)
  {
    var m := Mask(s);
    MaskKeepsQuotes(s, i);
    MaskKeepsDepth(s, i);
    if Outside(s, i) && i + 3 <= |s| {
      assert m[i] == s[i];
      if AndWord(s, i) || AndWord(m, i) {
        assert !InQuotes(s, i + 1) && m[i + 1] == s[i + 1];
        assert !InQuotes(s, i + 2) && m[i + 2] == s[i + 2];
        assert !InQuotes(s, i + 3);
        assert i > 0 && m[i - 1] == ' ' ==> s[i - 1] == ' ';
      }
    }
  }

  predicate Blank(s: string) {
    forall c | c in s :: IsSpace(c)
  }

  lemma {:induction false} TrimOfBlank(s: string)
    ensures Trim(s) == "" <==> Blank(s)
  {
    if s == "" {
    } else if IsSpace(s[0]) {
      TrimOfBlank(s[1..]);
      assert s == [s[0]] + s[1..];
    } else {
      assert s[0] in s;
      TrimEndKeeps(s, 0);
    }
  }

  lemma {:induction false} NoQuoteNoChange(s: string, a: nat, b: nat)
    requires a <= b <= |s| && forall i | a <= i < b :: !Quote(s, i)
    ensures forall i | a <= i <= b :: InQuotes(s, i) == InQuotes(s, a)
  {
    if a < b {
      NoQuoteNoChange(s, a, b - 1);
    }
  }

  // A piece that starts outside a literal is blank when its mask is.
  lemma MaskKeepsBlank(s: string, a: nat, b: nat)
    requires a <= b <= |s| && !InQuotes(s, a)
    ensures Blank(s[a..b]) == Blank(Mask(s)[a..b])
  {
    var p, q := s[a..b], Mask(s)[a..b];
    if Blank(p) || Blank(q) {
      forall i | a <= i < b
        ensures !Quote(s, i)
      {
        assert p[i - a] in p && q[i - a] in q;
      }
      NoQuoteNoChange(s, a, b);
      assert p == q;
    }
  }

  lemma NonBlankAppends(front: seq<string>, last: string)
    ensures NonBlank(front + [last]) == NonBlank(front) + Kept(last)
  {
    assert (front + [last])[..|front|] == front;
  }

  lemma Regroup<T>(a: seq<T>, b: seq<T>, c: seq<T>)
    ensures (a + b) + c == a + (b + c)
  {
  }

  lemma NonBlankStep(first: string, front: seq<string>, last: string)
    requires NonBlank([first] + front) == Kept(first) + NonBlank(front)
    ensures NonBlank([first] + (front + [last])) == Kept(first) + NonBlank(front + [last])
  {
    Regroup([first], front, [last]);
    NonBlankAppends([first] + front, last);
    NonBlankAppends(front, last);
    Regroup(Kept(first), NonBlank(front), Kept(last));
  }

  lemma {:induction false} NonBlankSplits(first: string, rest: seq<string>)
    ensures NonBlank([first] + rest) == Kept(first) + NonBlank(rest)
    decreases |rest|
  {
    if rest == [] {
      assert [first] + rest == [] + [first];
      NonBlankAppends([], first);
    } else {
      var front, last := rest[..|rest| - 1], rest[|rest| - 1];
      NonBlankSplits(first, front);
      NonBlankStep(first, front, last);
      assert rest == front + [last];
    }
  }

  lemma NonBlankOne(x: string)
    ensures NonBlank([x]) == Kept(x)
  {
    assert [x][..0] == [];
  }

  // Pieces that are blank alike, one by one.
  predicate Alike(xs: seq<string>, ys: seq<string>) {
    |xs| == |ys| && forall k | 0 <= k < |xs| :: Blank(xs[k]) == Blank(ys[k])
  }

  lemma {:induction false} AlikeCount(xs: seq<string>, ys: seq<string>)
    requires Alike(xs, ys)
    ensures |NonBlank(xs)| == |NonBlank(ys)|
  {
    if xs != [] {
      AlikeCount(xs[..|xs| - 1], ys[..|ys| - 1]);
      TrimOfBlank(xs[|xs| - 1]);
      TrimOfBlank(ys[|ys| - 1]);
    }
  }

  lemma {:induction false} MaskKeepsPieces(s: string, start: nat, i: nat)
    requires start <= i <= |s| && !InQuotes(s, start)
    ensures Alike(Pieces(s, start, i), Pieces(Mask(s), start, i))
    decreases |s| - i
  {
    if i == |s| {
      MaskKeepsBlank(s, start, |s|);
      assert s[start..] == s[start..|s|] && Mask(s)[start..] == Mask(s)[start..|s|];
    } else {
      MaskKeepsAnd(s, i);
      if AndAt(s, i) {
        AndIsPlain(s, i);
        MaskKeepsPieces(s, i + 3, i + 3);
        MaskKeepsBlank(s, start, i);
      } else {
        MaskKeepsPieces(s, start, i + 1);
      }
    }
  }

  // The structural checks and the splitting see the mask and nothing else.
  lemma StructureIsOfTheMask(s: string)
    ensures StructuralError(s) == StructuralError(Mask(s))
    ensures |Terms(s)| == |Terms(Mask(s))|
    ensures forall i | 0 <= i < |s| :: AndAt(s, i) == AndAt(Mask(s), i)
  {
    forall i | 0 <= i < |s|
      ensures MaskChar(Mask(s), i) == MaskChar(s, i)
    {
      MaskKeepsQuotes(s, i);
    }
    assert Mask(Mask(s)) == Mask(s);
    MaskKeepsPieces(s, 0, 0);
    AlikeCount(Pieces(s, 0, 0), Pieces(Mask(s), 0, 0));
    forall i | 0 <= i < |s|
      ensures AndAt(s, i) == AndAt(Mask(s), i)
    {
      MaskKeepsAnd(s, i);
    }
  }

  // Two filters that differ in quoted text only pass or fail the structural
  // checks alike and split at the same places.
  lemma QuotedContentIsInert(s: string, s': string)
    requires Mask(s) == Mask(s')
    ensures StructuralError(s) == StructuralError(s')
    ensures |Terms(s)| == |Terms(s')|
    ensures forall i | 0 <= i < |s| :: AndAt(s, i) == AndAt(s', i)
  {
    StructureIsOfTheMask(s);
    StructureIsOfTheMask(s');
  }

  // ---------- Escaping ----------

  function EscapeChar(c: char): string {
    if c == '\\' then "\\\\" else if c == '\"' then "\\\"" else [c]
  }

  function Escape(v: string): string {
    if v == "" then "" else EscapeChar(v[0]) + Escape(v[1..])
  }

  function DoubleBackslashes(v: string): string {
    if v == "" then "" else (if v[0] == '\\' then "\\\\" else [v[0]]) + DoubleBackslashes(v[1..])
  }

  // One step of the first pass: an escaped quote, or any other character.
  lemma QuotesStep(c: char, rest: string)
    ensures UnescapeQuotes("\\\"" + rest) == "\"" + UnescapeQuotes(rest)
    ensures c != '\\' || rest == "" || rest[0] != '\"' ==> UnescapeQuotes([c] + rest) == [c] + UnescapeQuotes(rest)
  {
    assert ("\\\"" + rest)[2..] == rest && ([c] + rest)[1..] == rest;
  }

  lemma {:induction false} QuotesUnescape(v: string)
    ensures UnescapeQuotes(Escape(v)) == DoubleBackslashes(v)
    ensures Escape(v) != "" ==> Escape(v)[0] != '\"'
  {
    if v != "" {
      QuotesUnescape(v[1..]);
      QuotesUnescapeOne(v[0], Escape(v[1..]), DoubleBackslashes(v[1..]));
    }
  }

  lemma QuotesUnescapeOne(c: char, e: string, d: string)
    requires UnescapeQuotes(e) == d && (e != "" ==> e[0] != '\"')
    ensures UnescapeQuotes(EscapeChar(c) + e) == (if c == '\\' then "\\\\" else [c]) + d
  {
    QuotesStep(c, e);
    if c == '\\' {
      QuotesStep(c, "\\" + e);
      Regroup("\\", "\\", e);
      Regroup("\\", "\\", d);
      assert "\\\\" == "\\" + "\\";
    }
  }

  lemma {:induction false} BackslashesUnescape(v: string)
    ensures UnescapeBackslashes(DoubleBackslashes(v)) == v
  {
    if v == "" {
    } else {
      BackslashesUnescape(v[1..]);
      var d := DoubleBackslashes(v);
      assert d[if v[0] == '\\' then 2 else 1..] == DoubleBackslashes(v[1..]);
    }
  }

  // The parser's two passes undo the escaping, whatever mixture of quotes and
  // backslashes the value has.
  lemma UnescapeInverts(v: string)
    ensures Unescape(Escape(v)) == v
  {
    QuotesUnescape(v);
    BackslashesUnescape(v);
  }

  predicate EndsInBackslash(s: string) {
    s != "" && s[|s| - 1] == '\\'
  }

  // No quote in an escaped value opens or closes a literal.
  lemma {:induction false} EscapedIsProtected(v: string)
    ensures forall j | 0 <= j < |Escape(v)| && Escape(v)[j] == '\"' :: j > 0 && Escape(v)[j - 1] == '\\'
    ensures EndsInBackslash(Escape(v)) == EndsInBackslash(v)
    ensures v != "" ==> Escape(v) != ""
  {
    if v != "" {
      EscapedIsProtected(v[1..]);
      QuotesUnescape(v[1..]);
      var c, e := EscapeChar(v[0]), Escape(v[1..]);
      assert Escape(v) == c + e;
      forall j | 0 <= j < |c + e| && (c + e)[j] == '\"'
        ensures j > 0 && (c + e)[j - 1] == '\\'
      {
        if j > |c| {
          assert (c + e)[j] == e[j - |c|] && (c + e)[j - 1] == e[j - |c| - 1];
        }
      }
    }
  }

  // ---------- Printing ----------

  function Spelled(b: bool): string {
    if b then "true" else "false"
  }

  function Literal(v: string): string {
    "\"" + Escape(v) + "\""
  }

  function Printed(t: Term): string {
    if t.EqString? then Literal(t.value) else Spelled(t.active)
  }

  // `name` is any spelling of the attribute, in any case.
  function Print(name: string, t: Term): string {
    name + " eq " + Printed(t)
  }

  function AttributeOf(t: Term): Attribute {
    if t.EqString? then t.attribute else Active
  }

  function NameOf(x: Attribute): string {
    match x
    case Id => "id"
    case UserName => "userName"
    case ExternalId => "externalId"
    case Active => "active"
    case EmailsValue => "emails.value"
    case DisplayName => "displayName"
  }

  // An attribute answers to its name in any case, and to nothing else.
  lemma NamedIff(key: string, x: Attribute)
    ensures AttributeNamed(key) == Some(x) <==> key == Lower(NameOf(x))
  {
    assert Lower("id") == "id" && Lower("userName") == "username" && Lower("externalId") == "externalid";
    assert Lower("active") == "active" && Lower("emails.value") == "emails.value" && Lower("displayName") == "displayname";
    assert "username"[0] != "externalid"[0] && "externalid"[1] != "emails.value"[1] && "displayname"[0] != "emails.value"[0];
  }

  predicate Printable(name: string, t: Term, allowed: set<Attribute>) {
    && Lower(name) == Lower(NameOf(AttributeOf(t)))
    && AttributeOf(t) in allowed
    && (t.EqString? ==> t.attribute != Active && t.value != "")
  }

  predicate Plain(name: string) {
    && |name| >= 2
    && (forall i | 0 <= i < |name| :: IsLetter(name[i]) || name[i] == '.')
    && IsLetter(name[0])
    && LowerChar(name[0]) != 'o' && LowerChar(name[0]) != 'n'
    && (LowerChar(name[0]) == 'a' ==> LowerChar(name[1]) != 'n')
  }

  lemma NamesArePlain(name: string, x: Attribute)
    requires Lower(name) == Lower(NameOf(x))
    ensures Plain(name) && AttributeNamed(Lower(name)) == Some(x)
  {
    var key := Lower(name);
    NamedIff(key, x);
    assert forall i | 0 <= i < |key| :: 'a' <= key[i] <= 'z' || key[i] == '.';
    forall i | 0 <= i < |name|
      ensures IsLetter(name[i]) || name[i] == '.'
    {
      assert key[i] == LowerChar(name[i]);
    }
    assert key[0] == LowerChar(name[0]) && key[1] == LowerChar(name[1]);
  }

  // ---------- Scanning a printed term ----------

  // Text without quotes and brackets changes nothing.
  lemma {:induction false} FlatText(s: string, a: nat, b: nat)
    requires a <= b <= |s| && !InQuotes(s, a)
    requires forall i | a <= i < b :: s[i] != '\"' && s[i] != '[' && s[i] != ']'
    ensures forall i | a <= i <= b :: !InQuotes(s, i) && Depth(s, i) == Depth(s, a)
  {
    if a < b {
      FlatText(s, a, b - 1);
      DepthStep(s, b - 1);
    }
  }

  // Neither does anything in a literal.
  lemma {:induction false} QuotedText(s: string, a: nat, b: nat)
    requires a <= b <= |s| && InQuotes(s, a)
    requires forall i | a <= i < b :: !Quote(s, i)
    ensures forall i | a <= i <= b :: InQuotes(s, i) && Depth(s, i) == Depth(s, a)
  {
    if a < b {
      QuotedText(s, a, b - 1);
      DepthStep(s, b - 1);
    }
  }

  lemma PrintedStarts(t: Term)
    ensures Printed(t) != "" && !IsSpace(Printed(t)[0]) && !IsSpace(Printed(t)[|Printed(t)| - 1])
  {
  }

  // `x` stands at `a` in `s`.
  predicate At(s: string, a: nat, x: string) {
    a + |x| <= |s| && forall i | 0 <= i < |x| :: s[a + i] == x[i]
  }

  predicate HasHead(s: string, name: string) {
    var n := |name|;
    At(s, 0, name) && n + 4 <= |s| && s[n] == ' ' && s[n + 1] == 'e' && s[n + 2] == 'q' && s[n + 3] == ' '
  }

  lemma HeadLayout(name: string, x: string)
    ensures var s := name + " eq " + x; HasHead(s, name) && s[..|name|] == name && s[|name| + 4..] == x
  {
  }

  // Before its value, a printed term is plain text.
  lemma HeadScan(name: string, s: string)
    requires Plain(name) && HasHead(s, name)
    ensures forall i | 0 <= i <= |name| + 4 :: !InQuotes(s, i) && Depth(s, i) == 0
    ensures forall i | 0 <= i < |name| + 4 :: !AndAt(s, i)
  {
    forall i | 0 <= i < |name|
      ensures s[i] == name[i]
    {
      assert s[0 + i] == name[i];
    }
    FlatText(s, 0, |name| + 4);
    forall i | 0 <= i < |name| + 4
      ensures !AndWord(s, i)
    {
      if 0 < i < |name| { assert s[i - 1] == name[i - 1]; }
    }
  }

  // The literal's text is inside; whether its last quote closes it depends on the
  // value's last character.
  lemma LiteralScan(s: string, a: nat, v: string)
    requires 0 < a && At(s, a, Literal(v)) && !InQuotes(s, a) && Depth(s, a) == 0 && s[a - 1] == ' '
    ensures var b := a + |Literal(v)|;
            && Quote(s, a)
            && (forall i | a < i < b :: InQuotes(s, i) && Depth(s, i) == 0)
            && (forall i | a < i < b - 1 :: !Quote(s, i))
            && Quote(s, b - 1) == !EndsInBackslash(v)
            && InQuotes(s, b) == EndsInBackslash(v) && Depth(s, b) == 0
  {
    var e := Escape(v);
    var b := a + |Literal(v)|;
    EscapedIsProtected(v);
    assert s[a + 0] == Literal(v)[0] && s[a + (|e| + 1)] == Literal(v)[|e| + 1];
    DepthStep(s, a);
    forall i | a < i < b - 1
      ensures s[i] == e[i - a - 1] && !Quote(s, i)
    {
      assert s[a + (i - a)] == Literal(v)[i - a];
      if i > a + 1 { assert s[a + (i - 1 - a)] == Literal(v)[i - 1 - a]; }
    }
    QuotedText(s, a + 1, b - 1);
    if e != "" { assert s[b - 2] == e[|e| - 1]; }
    DepthStep(s, b - 1);
  }

  lemma SpelledScan(s: string, a: nat, b: bool)
    requires 0 < a && At(s, a, Spelled(b)) && !InQuotes(s, a) && Depth(s, a) == 0
    ensures forall i | a <= i <= a + |Spelled(b)| :: !InQuotes(s, i) && Depth(s, i) == 0
    ensures forall i | a <= i < a + |Spelled(b)| :: !AndAt(s, i)
  {
    var w := Spelled(b);
    assert s[a + 0] == w[0] && s[a + 1] == w[1] && s[a + 2] == w[2] && s[a + 3] == w[3];
    if !b { assert s[a + 4] == w[4]; }
    FlatText(s, a, a + |w|);
  }

  lemma PrintLayout(name: string, t: Term, s: string)
    requires At(s, 0, Print(name, t))
    ensures HasHead(s, name) && At(s, |name| + 4, Printed(t))
  {
    var p, x := Print(name, t), Printed(t);
    forall i | 0 <= i < |p|
      ensures s[i] == p[i]
    {
      assert s[0 + i] == p[i];
    }
    assert forall i | 0 <= i < |name| :: p[i] == name[i];
    assert forall i | 0 <= i < |x| :: p[|name| + 4 + i] == x[i];
  }

  // A whole term: nothing in it is a top-level `and`, and it ends outside any
  // literal unless its value ends in a backslash.
  lemma TermScan(name: string, t: Term, s: string)
    requires Plain(name) && At(s, 0, Print(name, t))
    ensures var b := |Print(name, t)|;
            && (forall i | 0 <= i < b :: !AndAt(s, i))
            && InQuotes(s, b) == (t.EqString? && EndsInBackslash(t.value))
            && Depth(s, b) == 0
  {
    var a := |name| + 4;
    PrintLayout(name, t, s);
    HeadScan(name, s);
    if t.EqString? {
      LiteralScan(s, a, t.value);
    } else {
      SpelledScan(s, a, t.active);
    }
  }

  // ---------- One term ----------

  lemma {:induction false} SkipTo(s: string, i: nat, k: nat)
    requires i <= k < |s| && forall j | i <= j < k :: s[j] != ' '
    ensures OperatorFrom(s, i) == OperatorFrom(s, k)
    decreases k - i
  {
    if i < k {
      SkipTo(s, i + 1, k);
    }
  }

  lemma EqIsOperator(s: string, n: nat)
    requires n + 4 < |s| && s[n] == ' ' && s[n + 1] == 'e' && s[n + 2] == 'q' && s[n + 3] == ' ' && !IsSpace(s[n + 4])
    ensures OperatorAt(s, n) && FoundAt(s, n) == Found(s[..n], "eq", s[n + 4..])
  {
    assert SpaceEnd(s, n) == n + 1 && LetterEnd(s, n + 1) == n + 3 && SpaceEnd(s, n + 3) == n + 4;
    assert s[n + 1..n + 3] == "eq";
  }

  lemma OperatorOf(name: string, x: string)
    requires Plain(name) && x != "" && !IsSpace(x[0])
    ensures OperatorFrom(name + " eq " + x, 0) == Some(Found(name, "eq", x))
  {
    var s, n := name + " eq " + x, |name|;
    HeadLayout(name, x);
    HeadScan(name, s);
    forall i | 0 <= i < n
      ensures s[i] != ' '
    {
      assert s[0 + i] == name[i];
    }
    SkipTo(s, 0, n);
    assert s[n + 4] == s[n + 4..][0];
    EqIsOperator(s, n);
  }

  lemma NameStands(name: string)
    requires Plain(name)
    ensures NormalizeComplexPath(name) == name
  {
    assert IsLetter(name[|name| - 1]) || name[|name| - 1] == '.';
    assert Trim(name) == name;
  }

  lemma ValueParses(t: Term)
    requires t.EqString? ==> t.attribute != Active && t.value != ""
    ensures ParseValue(AttributeOf(t), Trim(Printed(t))) == Ok(t)
  {
    PrintedStarts(t);
    assert Trim(Printed(t)) == Printed(t);
    if t.EqString? {
      assert Literal(t.value)[1..|Literal(t.value)| - 1] == Escape(t.value);
      UnescapeInverts(t.value);
    } else {
      assert Lower("true") == "true" && Lower("false") == "false";
    }
  }

  lemma TermParses(name: string, t: Term, allowed: set<Attribute>)
    requires Printable(name, t, allowed)
    ensures ParseTermSpec(Print(name, t), allowed) == Ok(t)
  {
    NamesArePlain(name, AttributeOf(t));
    PrintedStarts(t);
    assert Trim(Print(name, t)) == Print(name, t) by { PrintTrims(name, t); }
    OperatorOf(name, Printed(t));
    assert Lower("eq") == "eq";
    NameStands(name);
    ValueParses(t);
  }

  lemma PrintTrims(name: string, t: Term)
    requires Plain(name)
    ensures Trimmed(Print(name, t))
    ensures var p := Print(name, t); Trim(p) == p && Trim(p + " ") == p && Trim(" " + p) == p
  {
    var p := Print(name, t);
    PrintedStarts(t);
    assert p[0] == name[0] && p[|p| - 1] == Printed(t)[|Printed(t)| - 1];
    TrimmedStays(p);
  }

  // ---------- The mask of a printed term ----------

  // No parenthesis, and no word that could be `or` or `not`.
  predicate Calm(m: string) {
    forall i | 0 <= i < |m| :: CalmAt(m, i)
  }

  predicate CalmAt(m: string, i: nat)
    requires i < |m|
  {
    && m[i] != '(' && m[i] != ')'
    && (LowerChar(m[i]) == 'o' || LowerChar(m[i]) == 'n' ==> i > 0 && !IsSpace(m[i - 1]))
  }

  predicate Quiet(c: char) {
    c != '(' && c != ')' && LowerChar(c) != 'o' && LowerChar(c) != 'n'
  }

  lemma CalmPasses(m: string)
    requires Calm(m)
    ensures '(' !in m && ')' !in m && !HasOr(m) && !HasNot(m)
  {
    forall i | 0 <= i < |m|
      ensures m[i] != '(' && m[i] != ')' && !OrAt(m, i) && !NotAt(m, i)
    {
      assert CalmAt(m, i);
      if i + 1 < |m| { assert CalmAt(m, i + 1); }
    }
  }

  lemma CalmTail(name: string, m: string)
    requires Plain(name) && At(m, 0, name) && forall i | |name| <= i < |m| :: Quiet(m[i])
    ensures Calm(m)
  {
    forall i | 0 <= i < |m|
      ensures CalmAt(m, i)
    {
      if i < |name| {
        assert m[0 + i] == name[i];
        if i > 0 { assert m[0 + (i - 1)] == name[i - 1]; }
      }
    }
  }

  lemma LiteralIsQuiet(s: string, a: nat, v: string)
    requires 0 < a && |s| == a + |Literal(v)| && At(s, a, Literal(v)) && s[a - 1] == ' '
    requires !InQuotes(s, a) && Depth(s, a) == 0
    ensures forall i | a <= i < |s| :: Quiet(MaskChar(s, i)) && !AndAt(s, i)
  {
    LiteralScan(s, a, v);
  }

  lemma SpelledIsQuiet(s: string, a: nat, b: bool)
    requires 0 < a && |s| == a + |Spelled(b)| && At(s, a, Spelled(b)) && !InQuotes(s, a) && Depth(s, a) == 0
    ensures forall i | a <= i < |s| :: Quiet(MaskChar(s, i))
  {
    SpelledScan(s, a, b);
    forall i | a <= i < |s|
      ensures Quiet(MaskChar(s, i))
    {
      assert s[a + (i - a)] == Spelled(b)[i - a];
    }
  }

  lemma HeadMask(s: string, name: string)
    requires Plain(name) && HasHead(s, name)
    ensures At(Mask(s), 0, name) && forall i | |name| <= i < |name| + 4 :: Quiet(Mask(s)[i])
  {
    HeadScan(name, s);
    forall i | 0 <= i < |name|
      ensures Mask(s)[0 + i] == name[i]
    {
      assert s[0 + i] == name[i];
    }
  }

  lemma TermIsCalm(s: string, name: string, t: Term)
    requires Plain(name) && HasHead(s, name) && At(s, |name| + 4, Printed(t)) && |s| == |name| + 4 + |Printed(t)|
    ensures Calm(Mask(s))
  {
    var a := |name| + 4;
    assert forall i | a <= i < |s| :: Quiet(MaskChar(s, i)) by {
      HeadScan(name, s);
      if t.EqString? { LiteralIsQuiet(s, a, t.value); } else { SpelledIsQuiet(s, a, t.active); }
    }
    HeadMask(s, name);
    CalmTail(name, Mask(s));
  }

  lemma PrintIsCalm(name: string, t: Term)
    requires Plain(name)
    ensures Calm(Mask(Print(name, t)))
  {
    PrintLayout(name, t, Print(name, t));
    TermIsCalm(Print(name, t), name, t);
  }

  // ---------- A filter of one term ----------

  lemma {:induction false} NothingToSplit(s: string, start: nat, i: nat)
    requires start <= i <= |s| && forall k | i <= k < |s| :: !AndAt(s, k)
    ensures Pieces(s, start, i) == [s[start..]]
    decreases |s| - i
  {
    if i < |s| {
      NothingToSplit(s, start, i + 1);
    }
  }

  lemma {:induction false} SplitAt(s: string, start: nat, i: nat, k: nat)
    requires start <= i <= k < |s| && AndAt(s, k) && forall j | i <= j < k :: !AndAt(s, j)
    ensures Pieces(s, start, i) == [s[start..k]] + Pieces(s, k + 3, k + 3)
    decreases k - i
  {
    if i < k {
      SplitAt(s, start, i + 1, k);
    }
  }

  lemma OneTermTerms(name: string, t: Term)
    requires Plain(name)
    ensures Terms(Print(name, t)) == [Print(name, t)]
  {
    var p := Print(name, t);
    TermScan(name, t, p);
    NothingToSplit(p, 0, 0);
    assert p[0..] == p;
    NonBlankOne(p);
    PrintTrims(name, t);
  }

  lemma OneTermIsSound(name: string, t: Term)
    requires Plain(name)
    ensures StructuralError(Print(name, t)).None?
  {
    OneTermTerms(name, t);
    PrintIsCalm(name, t);
    CalmPasses(Mask(Print(name, t)));
  }

  // Printing a term and parsing it gives the term back: any non-empty string, with
  // any characters, on any string attribute in any case, and `active eq true|false`.
  lemma OneTermRoundTrips(name: string, t: Term, allowed: set<Attribute>)
    requires Printable(name, t, allowed)
    ensures ParseSpec(Print(name, t), allowed) == Ok(Some(One(t)))
  {
    NamesArePlain(name, AttributeOf(t));
    PrintTrims(name, t);
    OneTermTerms(name, t);
    OneTermIsSound(name, t);
    TermParses(name, t, allowed);
  }

  // ---------- Two terms ----------

  // What follows a space, outside literals and brackets, is scanned as if it stood alone.
  lemma {:induction false} Shift(s: string, o: nat, t: string, j: nat)
    requires 0 < o && |s| == o + |t| && s[o - 1] == ' ' && At(s, o, t) && j <= |t|
    requires !InQuotes(s, o) && Depth(s, o) == 0
    ensures InQuotes(s, o + j) == InQuotes(t, j) && Depth(s, o + j) == Depth(t, j)
    ensures j < |t| ==> s[o + j] == t[j] && Quote(s, o + j) == Quote(t, j) && AndAt(s, o + j) == AndAt(t, j)
  {
    if j > 0 {
      Shift(s, o, t, j - 1);
      DepthStep(t, j - 1);
      DepthStep(s, o + j - 1);
    }
    if j + 3 <= |t| {
      assert s[o + j] == t[j] && s[o + (j + 1)] == t[j + 1] && s[o + (j + 2)] == t[j + 2];
      if j + 3 < |t| { assert s[o + (j + 3)] == t[j + 3]; }
    }
  }

  // And what precedes any text is scanned as if nothing followed.
  lemma {:induction false} Prefix(p: string, s: string, i: nat)
    requires At(s, 0, p) && i <= |p|
    ensures InQuotes(s, i) == InQuotes(p, i)
    ensures i < |p| ==> s[i] == p[i] && Quote(s, i) == Quote(p, i)
  {
    if i > 0 {
      Prefix(p, s, i - 1);
      assert s[0 + (i - 1)] == p[i - 1];
    }
    if i < |p| { assert s[0 + i] == p[i]; }
  }

  // Two texts with ` and ` between them.
  predicate IsJoined(s: string, p: string, q: string) {
    var n := |p|;
    && |s| == n + 5 + |q| && At(s, 0, p) && At(s, n + 5, q)
    && s[n] == ' ' && s[n + 1] == 'a' && s[n + 2] == 'n' && s[n + 3] == 'd' && s[n + 4] == ' '
  }

  function Joined(p: string, q: string): (s: string)
    ensures IsJoined(s, p, q)
  {
    p + " and " + q
  }

  lemma JoinedSlices(s: string, p: string, q: string)
    requires IsJoined(s, p, q)
    ensures s[..|p| + 1] == p + " " && s[..|p| + 2] == p + " a" && s[|p| + 4..] == " " + q
  {
    forall i | 0 <= i < |p|
      ensures s[i] == p[i]
    {
      assert s[0 + i] == p[i];
    }
    forall i | 0 <= i < |q| + 1
      ensures s[|p| + 4..][i] == (" " + q)[i]
    {
      if i > 0 { assert s[|p| + 5 + (i - 1)] == q[i - 1]; }
    }
  }

  lemma JoinedScan(s: string, p: string, q: string)
    requires IsJoined(s, p, q) && !InQuotes(s, |p|) && Depth(s, |p|) == 0
    ensures forall i | |p| <= i <= |p| + 5 :: !InQuotes(s, i) && Depth(s, i) == 0
    ensures AndAt(s, |p| + 1)
  {
    FlatText(s, |p|, |p| + 5);
  }

  lemma JoinedMask(s: string, p: string, q: string)
    requires IsJoined(s, p, q) && !InQuotes(s, |p|) && Depth(s, |p|) == 0
    ensures IsJoined(Mask(s), Mask(p), Mask(q))
  {
    JoinedScan(s, p, q);
    JoinedEnds(s, p, q);
  }

  lemma JoinedEnds(s: string, p: string, q: string)
    requires IsJoined(s, p, q) && !InQuotes(s, |p| + 5) && Depth(s, |p| + 5) == 0
    ensures At(Mask(s), 0, Mask(p)) && At(Mask(s), |p| + 5, Mask(q))
  {
    forall i | 0 <= i < |p|
      ensures Mask(s)[0 + i] == Mask(p)[i]
    {
      Prefix(p, s, i);
    }
    forall j | 0 <= j < |q|
      ensures Mask(s)[|p| + 5 + j] == Mask(q)[j]
    {
      Shift(s, |p| + 5, q, j);
    }
  }

  lemma NoAndAfter(s: string, o: nat, q: string)
    requires 0 < o && |s| == o + |q| && s[o - 1] == ' ' && At(s, o, q) && !InQuotes(s, o) && Depth(s, o) == 0
    requires forall i | 0 <= i < |q| :: !AndAt(q, i)
    ensures forall i | o - 1 <= i < |s| :: !AndAt(s, i)
  {
    forall i | o <= i < |s|
      ensures !AndAt(s, i)
    {
      Shift(s, o, q, i - o);
    }
  }

  lemma JoinedPieces(s: string, p: string, q: string)
    requires IsJoined(s, p, q) && !InQuotes(s, |p|) && Depth(s, |p|) == 0
    requires forall i | 0 <= i < |p| :: !AndAt(s, i)
    requires forall i | 0 <= i < |q| :: !AndAt(q, i)
    ensures Pieces(s, 0, 0) == [p + " "] + [" " + q]
  {
    var k := |p| + 1;
    JoinedSlices(s, p, q);
    JoinedScan(s, p, q);
    SplitAt(s, 0, 0, k);
    NoAndAfter(s, k + 4, q);
    NothingToSplit(s, k + 3, k + 3);
  }

  lemma JoinedCalm(m: string, p: string, q: string)
    requires IsJoined(m, p, q) && Calm(p) && Calm(q)
    ensures Calm(m)
  {
    forall i | 0 <= i < |m|
      ensures CalmAt(m, i)
    {
      if i < |p| {
        assert CalmAt(p, i);
        assert m[0 + i] == p[i];
        if i > 0 { assert m[0 + (i - 1)] == p[i - 1]; }
      } else if i >= |p| + 5 {
        var j := i - |p| - 5;
        assert CalmAt(q, j);
        assert m[|p| + 5 + j] == q[j];
        if j > 0 { assert m[|p| + 5 + (j - 1)] == q[j - 1]; }
      }
    }
  }

  lemma TwoPieces(p: string, q: string)
    requires Trimmed(p) && Trimmed(q)
    ensures NonBlank([p + " "] + [" " + q]) == [p, q]
  {
    TrimmedStays(p);
    TrimmedStays(q);
    NonBlankSplits(p + " ", [" " + q]);
    NonBlankOne(" " + q);
  }

  // A first term whose literal closes: one split, two terms, and no structural complaint.
  lemma JoinedTerms(s: string, name: string, t: Term, name': string, t': Term)
    requires Plain(name) && Plain(name') && !(t.EqString? && EndsInBackslash(t.value))
    requires IsJoined(s, Print(name, t), Print(name', t'))
    ensures Terms(s) == [Print(name, t), Print(name', t')]
  {
    var p, q := Print(name, t), Print(name', t');
    assert Pieces(s, 0, 0) == [p + " "] + [" " + q] by {
      TermScan(name, t, s);
      TermScan(name', t', q);
      JoinedPieces(s, p, q);
    }
    PrintTrims(name, t);
    PrintTrims(name', t');
    TwoPieces(p, q);
  }

  lemma JoinedIsSound(s: string, name: string, t: Term, name': string, t': Term)
    requires Plain(name) && Plain(name') && !(t.EqString? && EndsInBackslash(t.value))
    requires IsJoined(s, Print(name, t), Print(name', t')) && |Terms(s)| == 2
    ensures StructuralError(s).None?
  {
    var p, q := Print(name, t), Print(name', t');
    TermScan(name, t, s);
    JoinedMask(s, p, q);
    PrintIsCalm(name, t);
    PrintIsCalm(name', t');
    JoinedCalm(Mask(s), Mask(p), Mask(q));
    CalmPasses(Mask(s));
  }

  lemma JoinedTrims(s: string, p: string, q: string)
    requires IsJoined(s, p, q) && Trimmed(p) && Trimmed(q)
    ensures Trim(s) == s
  {
    assert s[0 + 0] == p[0] && s[|p| + 5 + (|q| - 1)] == q[|q| - 1];
    TrimmedStays(s);
  }

  lemma ParseOfTwo(s: string, p: string, q: string, t: Term, t': Term, allowed: set<Attribute>)
    requires s != "" && Trim(s) == s && StructuralError(s).None? && Terms(s) == [p, q]
    requires ParseTermSpec(p, allowed) == Ok(t) && ParseTermSpec(q, allowed) == Ok(t')
    ensures ParseSpec(s, allowed) == Ok(Some(And(t, t')))
  {
  }

  lemma TwoTermsParse(s: string, name: string, t: Term, name': string, t': Term, allowed: set<Attribute>)
    requires Plain(name) && Plain(name') && !(t.EqString? && EndsInBackslash(t.value))
    requires ParseTermSpec(Print(name, t), allowed) == Ok(t) && ParseTermSpec(Print(name', t'), allowed) == Ok(t')
    requires IsJoined(s, Print(name, t), Print(name', t'))
    ensures ParseSpec(s, allowed) == Ok(Some(And(t, t')))
  {
    assert Trim(s) == s && s != "" by {
      PrintTrims(name, t);
      PrintTrims(name', t');
      JoinedTrims(s, Print(name, t), Print(name', t'));
    }
    JoinedTerms(s, name, t, name', t');
    JoinedIsSound(s, name, t, name', t');
    ParseOfTwo(s, Print(name, t), Print(name', t'), t, t', allowed);
  }

  // ---------- The exception ----------

  // Characters that are no backslashes survive unescaping.
  function Marks(s: string): nat {
    if s == "" then 0 else (if s[0] == '\\' then 0 else 1) + Marks(s[1..])
  }

  lemma {:induction false} MarksAdd(a: string, b: string)
    ensures Marks(a + b) == Marks(a) + Marks(b)
  {
    if a == "" {
      assert a + b == b;
    } else {
      MarksAdd(a[1..], b);
      assert (a + b)[1..] == a[1..] + b;
    }
  }

  lemma {:induction false} MarksSurviveQuotes(s: string)
    ensures Marks(UnescapeQuotes(s)) == Marks(s)
  {
    if |s| >= 2 {
      if s[0] == '\\' && s[1] == '\"' {
        MarksSurviveQuotes(s[2..]);
        assert s[1..][1..] == s[2..];
      } else {
        MarksSurviveQuotes(s[1..]);
      }
    }
  }

  lemma {:induction false} MarksSurviveBackslashes(s: string)
    ensures Marks(UnescapeBackslashes(s)) == Marks(s)
  {
    if |s| >= 2 {
      if s[0] == '\\' && s[1] == '\\' {
        MarksSurviveBackslashes(s[2..]);
        assert s[1..][1..] == s[2..];
      } else {
        MarksSurviveBackslashes(s[1..]);
      }
    }
  }

  // A longer literal is another value: it has more than the marks of this one.
  lemma LongerIsOther(v: string, more: string)
    ensures Unescape(Escape(v) + "\"" + more) != v
  {
    var x := Escape(v) + "\"" + more;
    MarksSurviveQuotes(x);
    MarksSurviveBackslashes(UnescapeQuotes(x));
    MarksSurviveQuotes(Escape(v));
    MarksSurviveBackslashes(UnescapeQuotes(Escape(v)));
    UnescapeInverts(v);
    MarksAdd(Escape(v) + "\"", more);
    MarksAdd(Escape(v), "\"");
  }

  // The first term, if there are two, swallows the `and`.
  lemma {:induction false} FirstPieceReaches(s: string, i: nat, k: nat)
    requires i <= k < |s| && forall j | i <= j <= k :: !AndAt(s, j)
    ensures |Pieces(s, 0, i)| >= 1 && s[..k + 1] <= Pieces(s, 0, i)[0]
    decreases |s| - i
  {
    if i < k {
      FirstPieceReaches(s, i + 1, k);
    } else {
      FirstPieceAtLeast(s, i + 1);
    }
  }

  lemma {:induction false} FirstPieceAtLeast(s: string, i: nat)
    requires i <= |s|
    ensures |Pieces(s, 0, i)| >= 1 && s[..i] <= Pieces(s, 0, i)[0]
    decreases |s| - i
  {
    if i < |s| && !AndAt(s, i) {
      FirstPieceAtLeast(s, i + 1);
      assert s[..i] <= s[..i + 1];
    }
  }

  lemma FirstTermIs(pieces: seq<string>)
    requires pieces != [] && Trim(pieces[0]) != ""
    ensures |NonBlank(pieces)| >= 1 && NonBlank(pieces)[0] == Trim(pieces[0])
  {
    assert pieces == [pieces[0]] + pieces[1..];
    NonBlankSplits(pieces[0], pieces[1..]);
  }

  lemma Unwrapped(v: string, more: string)
    requires more != ""
    ensures var x := "\"" + v + "\"" + more; x[1..|x| - 1] == v + "\"" + more[..|more| - 1]
  {
    var last := [more[|more| - 1]];
    assert more == more[..|more| - 1] + last;
    assert "\"" + v + "\"" + more == "\"" + (v + "\"" + more[..|more| - 1]) + last;
  }

  lemma OverlongValueIsOther(t: Term, more: string)
    requires t.EqString? && t.attribute != Active && more != "" && !IsSpace(more[|more| - 1])
    ensures ParseValue(t.attribute, Trim(Literal(t.value) + more)) != Ok(t)
  {
    var x := Literal(t.value) + more;
    assert Trim(x) == x by {
      assert x[0] == '\"' && x[|x| - 1] == more[|more| - 1];
      TrimmedStays(x);
    }
    Unwrapped(Escape(t.value), more);
    LongerIsOther(t.value, more[..|more| - 1]);
  }

  lemma OverlongFoundIsOther(name: string, t: Term, more: string, allowed: set<Attribute>)
    requires Printable(name, t, allowed) && t.EqString? && more != "" && !IsSpace(more[|more| - 1])
    ensures ParseFound(Some(Found(name, "eq", Literal(t.value) + more)), allowed) != Ok(t)
  {
    NamesArePlain(name, AttributeOf(t));
    NameStands(name);
    assert Lower("eq") == "eq";
    OverlongValueIsOther(t, more);
  }

  // A term that begins like this one and goes on after its literal parses to something else.
  lemma OverlongTermIsOther(name: string, t: Term, more: string, allowed: set<Attribute>)
    requires Printable(name, t, allowed) && t.EqString? && more != "" && !IsSpace(more[|more| - 1])
    ensures ParseTermSpec(Print(name, t) + more, allowed) != Ok(t)
  {
    var x := Literal(t.value) + more;
    var s := name + " eq " + x;
    assert Print(name, t) + more == s;
    assert Trim(s) == s && OperatorFrom(s, 0) == Some(Found(name, "eq", x)) by {
      NamesArePlain(name, AttributeOf(t));
      assert s[0] == name[0] && s[|s| - 1] == more[|more| - 1];
      TrimmedStays(s);
      assert x[0] == '\"';
      OperatorOf(name, x);
    }
    OverlongFoundIsOther(name, t, more, allowed);
  }

  // Where the first piece goes past the literal, the first term is too long.
  lemma FirstTermOverlong(p: string, pieces: seq<string>)
    requires Trimmed(p) && pieces != [] && p + " a" <= pieces[0]
    ensures |NonBlank(pieces)| >= 1 && p < NonBlank(pieces)[0] && Trimmed(NonBlank(pieces)[0])
  {
    var piece := pieces[0];
    assert piece[0] == (p + " a")[0] == p[0] && piece[|p| + 1] == (p + " a")[|p| + 1] == 'a';
    TrimEndKeeps(piece, |p| + 1);
    TrimEndFacts(piece);
    TrimFacts(piece);
    assert p == (p + " a")[..|p|] == piece[..|p|];
    FirstTermIs(pieces);
  }

  lemma UnclosedFirstPiece(name: string, t: Term, s: string, q: string)
    requires Plain(name) && t.EqString? && EndsInBackslash(t.value) && IsJoined(s, Print(name, t), q)
    ensures |Pieces(s, 0, 0)| >= 1 && Print(name, t) + " a" <= Pieces(s, 0, 0)[0]
  {
    var p, k := Print(name, t), |Print(name, t)| + 1;
    TermScan(name, t, s);
    DepthStep(s, |p|);
    FirstPieceReaches(s, 0, k);
    JoinedSlices(s, p, q);
  }

  lemma UnclosedFirstTerm(name: string, t: Term, s: string, q: string, allowed: set<Attribute>)
    requires Printable(name, t, allowed) && t.EqString? && EndsInBackslash(t.value)
    requires IsJoined(s, Print(name, t), q)
    ensures |Terms(s)| >= 1 && ParseTermSpec(Terms(s)[0], allowed) != Ok(t)
  {
    var p := Print(name, t);
    assert |Terms(s)| >= 1 && p < Terms(s)[0] && Trimmed(Terms(s)[0]) by {
      NamesArePlain(name, AttributeOf(t));
      PrintTrims(name, t);
      UnclosedFirstPiece(name, t, s, q);
      FirstTermOverlong(p, Pieces(s, 0, 0));
    }
    var first := Terms(s)[0];
    assert first == p + first[|p|..];
    OverlongTermIsOther(name, t, first[|p|..], allowed);
  }

  lemma FirstTermDecides(s: string, t: Term, t': Term, allowed: set<Attribute>)
    requires Trim(s) == s && |Terms(s)| >= 1 && ParseTermSpec(Terms(s)[0], allowed) != Ok(t)
    ensures ParseSpec(s, allowed) != Ok(Some(And(t, t')))
  {
  }

  lemma UnclosedLiteralLoses(s: string, name: string, t: Term, name': string, t': Term, allowed: set<Attribute>)
    requires Plain(name) && Plain(name') && IsJoined(s, Print(name, t), Print(name', t'))
    requires |Terms(s)| >= 1 && ParseTermSpec(Terms(s)[0], allowed) != Ok(t)
    ensures ParseSpec(s, allowed) != Ok(Some(And(t, t')))
  {
    assert Trim(s) == s by {
      PrintTrims(name, t);
      PrintTrims(name', t');
      JoinedTrims(s, Print(name, t), Print(name', t'));
    }
    FirstTermDecides(s, t, t', allowed);
  }

  // Two terms joined by `and` parse back exactly when the first is not a string
  // that ends in a backslash: then the escaped backslash hides the closing quote.
  lemma TwoTermsRoundTripIff(name: string, t: Term, name': string, t': Term, allowed: set<Attribute>)
    requires Printable(name, t, allowed) && Printable(name', t', allowed)
    ensures ParseSpec(Joined(Print(name, t), Print(name', t')), allowed) == Ok(Some(And(t, t')))
       <==> !(t.EqString? && EndsInBackslash(t.value))
  {
    NamesArePlain(name, AttributeOf(t));
    NamesArePlain(name', AttributeOf(t'));
    TermParses(name, t, allowed);
    TermParses(name', t', allowed);
    var s := Joined(Print(name, t), Print(name', t'));
    if t.EqString? && EndsInBackslash(t.value) {
      UnclosedFirstTerm(name, t, s, Print(name', t'), allowed);
      UnclosedLiteralLoses(s, name, t, name', t', allowed);
    } else {
      TwoTermsParse(s, name, t, name', t', allowed);
    }
  }

  // ---------- Filters without a term ----------

  // One of the three letters of an `and`.
  predicate InAnd(s: string, i: nat)
    requires i < |s|
  {
    AndWord(s, i) || PastA(s, i)
  }

  // The `n` or the `d`.
  predicate PastA(s: string, i: nat)
    requires i <= |s|
  {
    (i >= 1 && AndWord(s, i - 1)) || (i >= 2 && AndWord(s, i - 2))
  }

  // Nothing but white space and `and`s, in any case, each bounded by a space or an end of the text.
  predicate AndsOnly(s: string) {
    Covered(s, 0)
  }

  predicate Covered(s: string, start: nat) {
    forall i | start <= i < |s| :: IsSpace(s[i]) || InAnd(s, i)
  }

  // Such text holds no quote, bracket, parenthesis, `or` or `not`: every `and` of it splits.
  lemma AndsOnlyIsFlat(s: string)
    requires AndsOnly(s)
    ensures Mask(s) == s && EveryAndSplits(s)
    ensures '(' !in s && ')' !in s && !HasOr(s) && !HasNot(s)
  {
    assert forall i | 0 <= i < |s| :: IsSpace(s[i]) || LowerChar(s[i]) in "and";
    FlatText(s, 0, |s|);
  }

  lemma AndEnds(s: string, i: nat)
    requires i < |s| && AndWord(s, i)
    ensures !PastA(s, i + 3) && Blank(s[i + 3..i + 3])
  {
  }

  lemma BlankGrows(s: string, start: nat, i: nat)
    requires start <= i < |s| && Blank(s[start..i]) && IsSpace(s[i])
    ensures Blank(s[start..i + 1])
  {
    forall c | c in s[start..i + 1]
      ensures IsSpace(c)
    {
      if c != s[i] { assert c in s[start..i]; }
    }
  }

  lemma BlankFirst(first: string, rest: seq<string>)
    requires Blank(first) && NonBlank(rest) == []
    ensures NonBlank([first] + rest) == [] && NonBlank([first]) == []
  {
    TrimOfBlank(first);
    NonBlankSplits(first, rest);
    NonBlankOne(first);
  }

  ghost predicate EveryAndSplits(s: string) {
    forall k | 0 <= k < |s| :: AndAt(s, k) == AndWord(s, k)
  }

  lemma {:induction false} AndsOnlyLeavesNothing(s: string, start: nat, i: nat)
    requires AndsOnly(s) && EveryAndSplits(s)
    requires start <= i <= |s| && Blank(s[start..i]) && !PastA(s, i)
    ensures NonBlank(Pieces(s, start, i)) == []
    decreases |s| - i
  {
    if i == |s| {
      assert s[start..] == s[start..i];
      BlankFirst(s[start..i], []);
    } else if AndAt(s, i) {
      AndEnds(s, i);
      AndsOnlyLeavesNothing(s, i + 3, i + 3);
      BlankFirst(s[start..i], Pieces(s, i + 3, i + 3));
    } else {
      assert IsSpace(s[i]) && !PastA(s, i + 1) by { SpaceHere(s, i); }
      BlankGrows(s, start, i);
      AndsOnlyLeavesNothing(s, start, i + 1);
    }
  }

  lemma SpaceHere(s: string, i: nat)
    requires AndsOnly(s) && EveryAndSplits(s) && i < |s| && !PastA(s, i) && !AndAt(s, i)
    ensures IsSpace(s[i]) && !PastA(s, i + 1)
  {
  }

  // Conversely, when every piece is blank, the text is white space and `and`s.
  lemma {:induction false} NothingLeftIsAnds(s: string, start: nat, i: nat)
    requires start <= i <= |s| && NonBlank(Pieces(s, start, i)) == []
    ensures Covered(s, start)
    decreases |s| - i
  {
    if i == |s| {
      assert s[start..] == s[start..i];
      NonBlankOne(s[start..i]);
      BlankPiece(s, start, i);
    } else if AndAt(s, i) {
      NonBlankSplits(s[start..i], Pieces(s, i + 3, i + 3));
      NothingLeftIsAnds(s, i + 3, i + 3);
      CoveredThrough(s, start, i);
    } else {
      NothingLeftIsAnds(s, start, i + 1);
    }
  }

  lemma CoveredThrough(s: string, start: nat, i: nat)
    requires start <= i < |s| && AndWord(s, i) && Kept(s[start..i]) == [] && Covered(s, i + 3)
    ensures Covered(s, start)
  {
    BlankPiece(s, start, i);
    assert InAnd(s, i) && InAnd(s, i + 1) && InAnd(s, i + 2);
  }

  lemma BlankPiece(s: string, a: nat, b: nat)
    requires a <= b <= |s| && Kept(s[a..b]) == []
    ensures forall k | a <= k < b :: IsSpace(s[k])
  {
    TrimOfBlank(s[a..b]);
    forall k | a <= k < b
      ensures IsSpace(s[k])
    {
      assert s[a..b][k - a] in s[a..b];
    }
  }

  lemma AndsOnlyThrows(s: string, allowed: set<Attribute>)
    requires AndsOnly(s) && s != "" && Trim(s) == s
    ensures ParseSpec(s, allowed) == Err(Thrown)
  {
    AndsOnlyIsFlat(s);
    AndsOnlyLeavesNothing(s, 0, 0);
  }

  lemma TermsNeverThrow(raw: string, allowed: set<Attribute>)
    ensures ParseTermSpec(raw, allowed) != Err(Thrown)
  {
  }

  lemma ThrownHasNoTerms(s: string, allowed: set<Attribute>)
    requires Trim(s) == s && ParseSpec(s, allowed) == Err(Thrown)
    ensures Terms(s) == []
  {
    if |Terms(s)| > 0 { TermsNeverThrow(Terms(s)[0], allowed); }
    if |Terms(s)| > 1 { TermsNeverThrow(Terms(s)[1], allowed); }
  }

  lemma ParseReadsTrimmed(raw: string, allowed: set<Attribute>)
    ensures ParseSpec(raw, allowed) == ParseSpec(Trim(raw), allowed)
    ensures Trim(Trim(raw)) == Trim(raw)
  {
    TrimFacts(raw);
    if Trim(raw) != "" {
      TrimmedStays(Trim(raw));
    }
  }

  // The parser trips over a missing first term exactly on filters of nothing but
  // `and`s: some text, all of it white space or standalone `and`s.
  lemma ThrowsIff(raw: string, allowed: set<Attribute>)
    ensures ParseSpec(raw, allowed) == Err(Thrown) <==> Trim(raw) != "" && AndsOnly(Trim(raw))
  {
    var s := Trim(raw);
    ParseReadsTrimmed(raw, allowed);
    if s != "" && AndsOnly(s) {
      AndsOnlyThrows(s, allowed);
    } else if ParseSpec(raw, allowed) == Err(Thrown) {
      ThrownHasNoTerms(s, allowed);
      NothingLeftIsAnds(s, 0, 0);
    }
  }

  // ---------- Qualified paths ----------

  // The shape Entra sends: an operator of its own inside the brackets.
  function Qualified(kind: string): string {
    "emails[type eq \"" + kind + "\"].value"
  }

  predicate PlainKind(kind: string) {
    '\"' !in kind && ']' !in kind && !EndsInBackslash(kind)
  }

  predicate HasQualified(s: string, kind: string) {
    var c := 16 + |kind|;
    && c + 8 <= |s|
    && s[0] == 'e' && s[1] == 'm' && s[2] == 'a' && s[3] == 'i' && s[4] == 'l' && s[5] == 's' && s[6] == '['
    && s[7] == 't' && s[8] == 'y' && s[9] == 'p' && s[10] == 'e' && s[11] == ' ' && s[12] == 'e' && s[13] == 'q'
    && s[14] == ' ' && s[15] == '\"'
    && At(s, 16, kind)
    && s[c] == '\"' && s[c + 1] == ']'
    && s[c + 2] == '.' && s[c + 3] == 'v' && s[c + 4] == 'a' && s[c + 5] == 'l' && s[c + 6] == 'u' && s[c + 7] == 'e'
  }

  // Where the brackets and quotes of the path leave the scan.
  lemma QualifiedState(s: string, kind: string)
    requires PlainKind(kind) && HasQualified(s, kind) && 24 + |kind| < |s| && s[24 + |kind|] == ' '
    ensures var n := 24 + |kind|;
            && (forall i | 0 <= i <= n :: InQuotes(s, i) == (15 < i <= n - 8))
            && (forall i | 0 <= i <= n :: Depth(s, i) == if 6 < i < n - 6 then 1 else 0)
            && Quote(s, 15) && Quote(s, n - 8)
  {
    var c := 16 + |kind|;
    FlatText(s, 0, 6);
    DepthStep(s, 6);
    FlatText(s, 7, 15);
    DepthStep(s, 15);
    forall i | 16 <= i < c
      ensures s[i] == kind[i - 16]
    {
      assert s[16 + (i - 16)] == kind[i - 16];
    }
    QuotedText(s, 16, c);
    DepthStep(s, c);
    DepthStep(s, c + 1);
    FlatText(s, c + 2, c + 8);
  }

  lemma QualifiedScan(s: string, kind: string)
    requires PlainKind(kind) && HasQualified(s, kind) && 24 + |kind| < |s| && s[24 + |kind|] == ' '
    ensures var n := 24 + |kind|;
            && !InQuotes(s, n) && Depth(s, n) == 0
            && (forall i | 0 <= i < n :: !IsOperator(s, i) && !AndAt(s, i))
            && (forall i | 0 <= i < n :: InQuotes(s, i) == (15 < i <= n - 8))
            && Quote(s, 15) && Quote(s, n - 8)
  {
    var n := 24 + |kind|;
    QualifiedState(s, kind);
    forall i | 0 <= i < n
      ensures !IsOperator(s, i) && !AndAt(s, i)
    {
      if TopLevel(s, i) {
        assert i <= 6 || i >= n - 6;
        assert s[i] != ' ' && !AndWord(s, i);
      }
    }
  }

  lemma PathNormalizes(h: string, a: nat, b: nat)
    requires Trimmed(h) && 0 < a < b && b + 2 < |h| && h[a] == '[' && h[b] == ']' && h[b + 1] == '.'
    requires (forall k | 0 <= k < a :: IsLetter(h[k])) && (forall k | b + 2 <= k < |h| :: IsLetter(h[k]))
    requires forall k | a < k < b :: h[k] != ']'
    ensures NormalizeComplexPath(h) == h[..a] + h[b + 1..]
  {
    TrimmedStays(h);
    LettersThen(h, 0, a);
    LettersThen(h, b + 2, |h|);
    FirstIndex(h, ']', a + 1, b);
  }

  lemma QualifiedNormalizes(h: string, kind: string)
    requires PlainKind(kind) && HasQualified(h, kind) && |h| == 24 + |kind|
    ensures NormalizeComplexPath(h) == "emails.value"
  {
    var b := 17 + |kind|;
    forall k | 6 < k < b
      ensures h[k] != ']'
    {
      if 16 <= k < b - 1 { assert h[16 + (k - 16)] == kind[k - 16]; }
    }
    PathNormalizes(h, 6, b);
    QualifiedEnds(h, kind);
  }

  lemma QualifiedEnds(h: string, kind: string)
    requires HasQualified(h, kind) && |h| == 24 + |kind|
    ensures h[..6] + h[18 + |kind|..] == "emails.value"
  {
    assert h[..6] == "emails";
    assert h[18 + |kind|..] == ".value";
  }

  lemma {:induction false} LettersThen(s: string, i: nat, j: nat)
    requires i <= j <= |s| && (forall k | i <= k < j :: IsLetter(s[k])) && (j < |s| ==> !IsLetter(s[j]))
    ensures LetterEnd(s, i) == j
    decreases j - i
  {
    if i < j { LettersThen(s, i + 1, j); }
  }

  lemma {:induction false} FirstIndex(s: string, c: char, i: nat, j: nat)
    requires i <= j < |s| && (forall k | i <= k < j :: s[k] != c) && s[j] == c
    ensures IndexFrom(s, c, i) == j
    decreases j - i
  {
    if i < j { FirstIndex(s, c, i + 1, j); }
  }

  lemma {:induction false} SkipToOperator(s: string, i: nat, k: nat)
    requires i <= k < |s| && (forall j | i <= j < k :: !IsOperator(s, j)) && IsOperator(s, k)
    ensures OperatorFrom(s, i) == Some(FoundAt(s, k))
    decreases k - i
  {
    if i < k { SkipToOperator(s, i + 1, k); }
  }

  lemma QualifiedPath(kind: string)
    ensures HasQualified(Qualified(kind), kind) && |Qualified(kind)| == 24 + |kind|
  {
    assert forall i | 0 <= i < |kind| :: Qualified(kind)[16 + i] == kind[i];
  }

  lemma StartsQualified(h: string, s: string, kind: string)
    requires HasQualified(h, kind) && h <= s
    ensures HasQualified(s, kind)
  {
    forall i | 0 <= i < |kind|
      ensures s[16 + i] == kind[i]
    {
      assert h[16 + i] == kind[i];
    }
  }

  lemma QualifiedLayout(kind: string, v: string)
    ensures var s, n := Qualified(kind) + " eq " + Literal(v), 24 + |kind|;
            && HasQualified(s, kind) && n == |Qualified(kind)|
            && s[n] == ' ' && s[n + 1] == 'e' && s[n + 2] == 'q' && s[n + 3] == ' ' && At(s, n + 4, Literal(v))
            && s[..n] == Qualified(kind) && s[n + 4..] == Literal(v)
            && |s| == n + 4 + |Literal(v)| && Trim(s) == s
  {
    var h, x := Qualified(kind), Literal(v);
    QualifiedPath(kind);
    OperatorLayout(h, x);
    StartsQualified(h, h + " eq " + x, kind);
    TrimmedStays(h + " eq " + x);
  }

  lemma OperatorLayout(h: string, x: string)
    requires x != ""
    ensures var s, n := h + " eq " + x, |h|;
            && h <= s && s[..n] == h && s[n + 4..] == x && At(s, n + 4, x) && s[|s| - 1] == x[|x| - 1]
            && s[n] == ' ' && s[n + 1] == 'e' && s[n + 2] == 'q' && s[n + 3] == ' '
  {
  }

  lemma QualifiedTermParses(s: string, kind: string, v: string, allowed: set<Attribute>)
    requires PlainKind(kind) && v != "" && EmailsValue in allowed && s == Qualified(kind) + " eq " + Literal(v)
    ensures ParseTermSpec(s, allowed) == Ok(EqString(EmailsValue, v))
  {
    var n := 24 + |kind|;
    QualifiedLayout(kind, v);
    QualifiedScan(s, kind);
    assert s[n + 4] == s[n + 4..][0];
    EqIsOperator(s, n);
    SkipToOperator(s, 0, n);
    assert FoundAt(s, n) == Found(Qualified(kind), "eq", Literal(v));
    QualifiedFoundParses(kind, v, allowed);
  }

  lemma EmailsValueNamed()
    ensures AttributeNamed(Lower("emails.value")) == Some(EmailsValue)
  {
    assert Lower("emails.value") == "emails.value";
  }

  lemma QualifiedFoundParses(kind: string, v: string, allowed: set<Attribute>)
    requires PlainKind(kind) && v != "" && EmailsValue in allowed
    ensures ParseFound(Some(Found(Qualified(kind), "eq", Literal(v))), allowed) == Ok(EqString(EmailsValue, v))
  {
    QualifiedPath(kind);
    QualifiedNormalizes(Qualified(kind), kind);
    EmailsValueNamed();
    assert Lower("eq") == "eq";
    ValueParses(EqString(EmailsValue, v));
  }

  lemma QualifiedIsCalm(s: string, kind: string, v: string)
    requires PlainKind(kind) && HasQualified(s, kind)
    requires var n := 24 + |kind|;
             && |s| == n + 4 + |Literal(v)| && At(s, n + 4, Literal(v))
             && s[n] == ' ' && s[n + 1] == 'e' && s[n + 2] == 'q' && s[n + 3] == ' '
    ensures Calm(Mask(s)) && forall i | 0 <= i < |s| :: !AndAt(s, i)
  {
    var n := 24 + |kind|;
    QualifiedScan(s, kind);
    FlatText(s, n, n + 4);
    LiteralScan(s, n + 4, v);
    forall i | 0 <= i < |s|
      ensures Quiet(MaskChar(s, i))
    {
    }
  }

  // Entra's qualified path parses to the plain attribute, whatever the kind and
  // the value: the operator inside the brackets is passed over.
  lemma QualifiedPathParses(kind: string, v: string, allowed: set<Attribute>)
    requires PlainKind(kind) && v != "" && EmailsValue in allowed
    ensures ParseSpec(Qualified(kind) + " eq " + Literal(v), allowed) == Ok(Some(One(EqString(EmailsValue, v))))
  {
    var s := Qualified(kind) + " eq " + Literal(v);
    QualifiedLayout(kind, v);
    QualifiedIsCalm(s, kind, v);
    QualifiedTermParses(s, kind, v, allowed);
    ParseOfOne(s, EqString(EmailsValue, v), allowed);
  }

  lemma ParseOfOne(s: string, t: Term, allowed: set<Attribute>)
    requires s != "" && Trim(s) == s && Calm(Mask(s)) && forall i | 0 <= i < |s| :: !AndAt(s, i)
    requires ParseTermSpec(s, allowed) == Ok(t)
    ensures ParseSpec(s, allowed) == Ok(Some(One(t)))
  {
    NothingToSplit(s, 0, 0);
    assert s[0..] == s;
    NonBlankOne(s);
    CalmPasses(Mask(s));
  }
}
