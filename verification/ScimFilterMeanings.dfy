// What the filter parser answers to any text at all: which term it reads, and which
// error it gives for what it does not read.
module ScimFilterMeanings {
  import opened Wrappers
  import opened Text
  import opened ScimFilter
  import opened ScimFilterTheorems

  // ---------- Which attribute a text denotes ----------

  // The word stands at `i`, in any case.
  predicate Reads(p: string, i: nat, word: string) {
    i + |word| <= |p| && forall k | 0 <= k < |word| :: LowerChar(p[i + k]) == word[k]
  }

  // `emails[…].value`, in any case: the bracket at 6, the next one that closes at `m`.
  predicate Bracketed(p: string, m: nat) {
    && 7 <= m && |p| == m + 7 && Reads(p, 0, "emails") && p[6] == '['
    && (forall i | 7 <= i < m :: p[i] != ']') && p[m] == ']' && Reads(p, m + 1, ".value")
  }

  ghost predicate Denotes(text: string, x: Attribute) {
    Lower(Trim(text)) == Lower(NameOf(x)) || (x == EmailsValue && exists m :: Bracketed(Trim(text), m))
  }

  // The path, when the qualifier collapses.
  predicate Collapses(p: string, a: nat, b: nat) {
    && 0 < a < b < |p| && a == LetterEnd(p, 0) && p[a] == '['
    && b == IndexFrom(p, ']', a + 1) && b + 2 < |p| && p[b + 1] == '.' && LetterEnd(p, b + 2) == |p|
  }

  lemma CollapsedPath(text: string, a: nat, b: nat)
    requires Collapses(Trim(text), a, b)
    ensures NormalizeComplexPath(text) == Trim(text)[..a] + Trim(text)[b + 1..]
  {
  }

  lemma PlainPath(text: string)
    requires forall a: nat, b: nat :: !Collapses(Trim(text), a, b)
    ensures NormalizeComplexPath(text) == Trim(text)
  {
    var p := Trim(text);
    var a := LetterEnd(p, 0);
    if 0 < a < |p| && p[a] == '[' {
      assert !Collapses(p, a, IndexFrom(p, ']', a + 1));
    }
  }

  lemma NameHasNoBracket(p: string, x: Attribute)
    requires Lower(p) == Lower(NameOf(x))
    ensures '[' !in p
  {
    NamesArePlain(p, x);
    assert forall i | 0 <= i < |p| :: p[i] != '[';
  }

  lemma ReadsLower(p: string, i: nat, word: string)
    requires i + |word| <= |p|
    ensures Reads(p, i, word) <==> Lower(p[i..i + |word|]) == word
  {
    var q := p[i..i + |word|];
    assert forall k | 0 <= k < |word| :: q[k] == p[i + k] && Lower(q)[k] == LowerChar(q[k]);
    if Lower(q) == word { assert forall k | 0 <= k < |word| :: LowerChar(p[i + k]) == Lower(q)[k]; }
  }

  lemma LowerAdds(a: string, b: string)
    ensures Lower(a + b) == Lower(a) + Lower(b)
  {
  }

  lemma AddressName()
    ensures Lower(NameOf(EmailsValue)) == "emails" + ".value"
    ensures forall i | 0 <= i < 12 && i != 6 :: ("emails" + ".value")[i] != '.'
  {
    assert Lower("emails.value") == "emails.value" == "emails" + ".value";
  }

  lemma OtherNames(x: Attribute)
    requires x != EmailsValue
    ensures '.' !in Lower(NameOf(x))
  {
    var n := NameOf(x);
    assert forall i | 0 <= i < |n| :: n[i] != '.' && Lower(n)[i] == LowerChar(n[i]);
  }

  lemma SameHalves(a: string, b: string, c: string, d: string)
    requires a + b == c + d && |a| == |c|
    ensures a == c && b == d
  {
    assert (a + b)[..|a|] == a && (c + d)[..|c|] == c && (a + b)[|a|..] == b && (c + d)[|c|..] == d;
  }

  // An address with a qualifier collapses to `emails.value`.
  lemma BracketedCollapses(p: string, m: nat)
    requires Bracketed(p, m)
    ensures Collapses(p, 6, m)
  {
    assert forall k | 0 <= k < 6 :: IsLetter(p[k]) by {
      forall k | 0 <= k < 6 ensures IsLetter(p[k]) { assert LowerChar(p[0 + k]) == "emails"[k]; }
    }
    LettersThen(p, 0, 6);
    FirstIndex(p, ']', 7, m);
    forall k | m + 2 <= k < |p| ensures IsLetter(p[k]) { assert LowerChar(p[m + 1 + (k - m - 1)]) == ".value"[k - m - 1]; }
    assert LowerChar(p[m + 1 + 0]) == ".value"[0];
    LettersThen(p, m + 2, |p|);
  }

  lemma CollapsedReads(p: string, b: nat)
    requires 7 <= b && |p| == b + 7
    ensures Lower(p[..6] + p[b + 1..]) == "emails" + ".value" <==> Reads(p, 0, "emails") && Reads(p, b + 1, ".value")
  {
    assert p[0..6] == p[..6] && p[b + 1..b + 7] == p[b + 1..];
    ReadsLower(p, 0, "emails");
    ReadsLower(p, b + 1, ".value");
    LowerAdds(p[..6], p[b + 1..]);
    if Lower(p[..6] + p[b + 1..]) == "emails" + ".value" {
      SameHalves(Lower(p[..6]), Lower(p[b + 1..]), "emails", ".value");
    }
  }

  lemma CollapsedDot(p: string, a: nat, b: nat, x: Attribute)
    requires Collapses(p, a, b) && Lower(p[..a] + p[b + 1..]) == Lower(NameOf(x))
    ensures x == EmailsValue && a == 6 && |p| == b + 7
  {
    var c := p[..a] + p[b + 1..];
    assert c[a] == p[b + 1] == '.' && Lower(c)[a] == LowerChar(c[a]) == '.';
    if x != EmailsValue { OtherNames(x); }
    AddressName();
    assert |Lower(c)| == |c| == a + |p| - b - 1;
  }

  lemma CollapsedNames(p: string, a: nat, b: nat, x: Attribute)
    requires Collapses(p, a, b)
    ensures Lower(p[..a] + p[b + 1..]) == Lower(NameOf(x)) <==> x == EmailsValue && Bracketed(p, b)
  {
    if Lower(p[..a] + p[b + 1..]) == Lower(NameOf(x)) {
      CollapsedDot(p, a, b, x);
      AddressName();
      CollapsedReads(p, b);
      forall i | 7 <= i < b ensures p[i] != ']' { assert p[7..b][i - 7] == p[i] && p[i] in p[7..b]; }
    } else if Bracketed(p, b) {
      BracketedCollapses(p, b);
      AddressName();
      CollapsedReads(p, b);
    }
  }

  // The text before an operator names an attribute by its name in any case, or, for
  // an address, with a qualifier in brackets; and in no other way.
  lemma DenotesIff(text: string, x: Attribute)
    ensures AttributeNamed(Lower(NormalizeComplexPath(text))) == Some(x) <==> Denotes(text, x)
  {
    var p := Trim(text);
    NamedIff(Lower(NormalizeComplexPath(text)), x);
    if a: nat, b: nat :| Collapses(p, a, b) {
      CollapsedPath(text, a, b);
      CollapsedNames(p, a, b, x);
      if Lower(p) == Lower(NameOf(x)) { NameHasNoBracket(p, x); }
      forall m | Bracketed(p, m) ensures m == b { BracketedCollapses(p, m); }
    } else {
      PlainPath(text);
      forall m ensures !Bracketed(p, m) { if Bracketed(p, m) { BracketedCollapses(p, m); } }
    }
  }

  lemma OneDenoted(text: string, x: Attribute, y: Attribute)
    requires Denotes(text, x) && Denotes(text, y)
    ensures x == y
  {
    DenotesIff(text, x);
    DenotesIff(text, y);
  }

  // ---------- Terms ----------

  // The first operator of a term: a space outside literals and brackets, two or three
  // letters from `a` to `b` with nothing but space around them, and the value from `c`.
  ghost predicate Splits(s: string, i: nat, a: nat, b: nat, c: nat) {
    && i < a && a + 2 <= b <= a + 3 && b <= c <= |s|
    && (c == |s| || !IsSpace(s[c]))
    && (b < c || b == |s|)
    && TopLevel(s, i) && s[i] == ' '
    && (forall k | i <= k < a :: IsSpace(s[k])) && (forall k | a <= k < b :: IsLetter(s[k]))
    && (forall k | b <= k < c :: IsSpace(s[k]))
    && (forall k | 0 <= k < i :: !IsOperator(s, k))
  }

  lemma {:induction false} SpacesThen(s: string, i: nat, j: nat)
    requires i <= j <= |s| && (forall k | i <= k < j :: IsSpace(s[k])) && (j < |s| ==> !IsSpace(s[j]))
    ensures SpaceEnd(s, i) == j
    decreases j - i
  {
    if i < j { SpacesThen(s, i + 1, j); }
  }

  lemma LettersAreNoSpace(s: string, k: nat)
    requires k < |s|
    ensures !(IsLetter(s[k]) && IsSpace(s[k]))
  {
  }

  lemma SplitsIsFound(s: string, i: nat, a: nat, b: nat, c: nat)
    requires Splits(s, i, a, b, c)
    ensures OperatorFrom(s, 0) == Some(Found(s[..i], s[a..b], s[c..]))
  {
    assert IsLetter(s[a]);
    LettersAreNoSpace(s, a);
    SpacesThen(s, i, a);
    if b < |s| { LettersAreNoSpace(s, b); }
    LettersThen(s, a, b);
    SpacesThen(s, b, c);
    SkipToOperator(s, 0, i);
  }

  lemma {:induction false} FoundSplits(s: string, i: nat) returns (j: nat, a: nat, b: nat, c: nat)
    requires i <= |s| && (forall k | 0 <= k < i :: !IsOperator(s, k)) && OperatorFrom(s, i).Some?
    ensures Splits(s, j, a, b, c)
    decreases |s| - i
  {
    if IsOperator(s, i) {
      j, a := i, SpaceEnd(s, i);
      b := LetterEnd(s, a);
      c := SpaceEnd(s, b);
    } else {
      j, a, b, c := FoundSplits(s, i + 1);
    }
  }

  // What a term means, by its operator, the text before it and the text after it.
  lemma TermMeans(raw: string, allowed: set<Attribute>, i: nat, a: nat, b: nat, c: nat)
    requires Splits(Trim(raw), i, a, b, c)
    ensures var s, r := Trim(raw), ParseTermSpec(raw, allowed);
            var v := Trim(s[c..]);
            if Lower(s[a..b]) != "eq" then r == Err(UnsupportedOperator)
            else
              && ((forall x | x in allowed :: !Denotes(s[..i], x)) ==> r == Err(NotFilterable))
              && (forall x | x in allowed && Denotes(s[..i], x) ::
                    if x == Active then
                      && (forall on :: r == Ok(EqActive(on)) <==> Lower(v) == if on then "true" else "false")
                      && (r.Err? ==> r.error == ScimFilter.NotBoolean)
                      && (r.Ok? ==> r.value.EqActive?)
                    else if |v| >= 2 && v[0] == '\"' && v[|v| - 1] == '\"' then
                      var text := Unescape(v[1..|v| - 1]);
                      r == if text == "" then Err(EmptyValue) else Ok(EqString(x, text))
                    else r == Err(NotQuoted))
  {
    var s := Trim(raw);
    SplitsIsFound(s, i, a, b, c);
    assert "true"[0] != "false"[0];
    forall x ensures AttributeNamed(Lower(NormalizeComplexPath(s[..i]))) == Some(x) <==> Denotes(s[..i], x) {
      DenotesIff(s[..i], x);
    }
  }

  // A text without such an operator is no term.
  lemma UnparseableIff(raw: string, allowed: set<Attribute>)
    ensures ParseTermSpec(raw, allowed) == Err(Unparseable) <==> !exists i, a, b, c :: Splits(Trim(raw), i, a, b, c)
  {
    var s := Trim(raw);
    if i, a, b, c :| Splits(s, i, a, b, c) {
      SplitsIsFound(s, i, a, b, c);
    }
    if OperatorFrom(s, 0).Some? {
      var i, a, b, c := FoundSplits(s, 0);
    }
  }

  // So a term that is read compares, with `eq` in some case, an attribute that the
  // text before it denotes and the caller allows.
  lemma ReadTermsAreSound(raw: string, allowed: set<Attribute>) returns (i: nat, a: nat, b: nat, c: nat)
    requires ParseTermSpec(raw, allowed).Ok?
    ensures var s, t := Trim(raw), ParseTermSpec(raw, allowed).value;
            && Splits(s, i, a, b, c) && Lower(s[a..b]) == "eq"
            && Denotes(s[..i], AttributeOf(t)) && AttributeOf(t) in allowed
            && (t.EqString? ==> t.attribute != Active && t.value != "")
  {
    var s := Trim(raw);
    i, a, b, c := FoundSplits(s, 0);
    SplitsIsFound(s, i, a, b, c);
    var x := AttributeNamed(Lower(NormalizeComplexPath(s[..i]))).value;
    DenotesIff(s[..i], x);
  }

  // Terms are parted by an `and` in any case, outside literals and brackets, with a
  // space or an end on both sides.
  lemma AndIsAWord(s: string, i: nat)
    requires i < |s|
    ensures AndAt(s, i) <==>
              && Outside(s, i) && Depth(s, i) == 0 && Reads(s, i, "and")
              && (i == 0 || s[i - 1] == ' ') && (i + 3 == |s| || s[i + 3] == ' ')
  {
    if Reads(s, i, "and") { assert LowerChar(s[i + 0]) == "and"[0] && LowerChar(s[i + 1]) == "and"[1] && LowerChar(s[i + 2]) == "and"[2]; }
  }

  // ---------- Whole filters ----------

  // Outside literals: a bracket; the word `or`; the word `not`.
  ghost predicate Groups(s: string) {
    exists i | 0 <= i < |s| :: !InQuotes(s, i) && (s[i] == '(' || s[i] == ')')
  }

  predicate OrHere(s: string, i: nat) {
    && i + 3 < |s| && IsSpace(s[i]) && IsSpace(s[i + 3]) && !InQuotes(s, i + 1)
    && LowerChar(s[i + 1]) == 'o' && LowerChar(s[i + 2]) == 'r'
  }

  predicate NotHere(s: string, i: nat) {
    && i + 3 < |s| && (i == 0 || IsSpace(s[i - 1])) && IsSpace(s[i + 3]) && !InQuotes(s, i)
    && LowerChar(s[i]) == 'n' && LowerChar(s[i + 1]) == 'o' && LowerChar(s[i + 2]) == 't'
  }

  ghost predicate Disjoins(s: string) {
    exists i: nat :: OrHere(s, i)
  }

  ghost predicate Negates(s: string) {
    exists i: nat :: NotHere(s, i)
  }

  lemma MaskedChar(s: string, i: nat)
    requires i < |s|
    ensures Mask(s)[i] == if InQuotes(s, i) && !Quote(s, i) then ' ' else s[i]
  {
  }

  // Letters outside a literal have what is beside them outside too, quotes apart.
  lemma BesideLetters(s: string, i: nat)
    requires i + 1 < |s|
    ensures !InQuotes(s, i) && s[i] != '\"' ==> !InQuotes(s, i + 1)
    ensures !InQuotes(s, i + 1) && s[i] != '\"' ==> !InQuotes(s, i)
  {
  }

  lemma OrIsHere(s: string, i: nat)
    requires i + 3 < |s|
    ensures OrAt(Mask(s), i) <==> OrHere(s, i)
  {
    MaskedChar(s, i);
    MaskedChar(s, i + 1);
    MaskedChar(s, i + 2);
    MaskedChar(s, i + 3);
    BesideLetters(s, i);
    BesideLetters(s, i + 1);
    BesideLetters(s, i + 2);
  }

  lemma DisjoinsIff(s: string)
    ensures HasOr(Mask(s)) <==> Disjoins(s)
  {
    forall i: nat | i + 3 < |s| ensures OrAt(Mask(s), i) <==> OrHere(s, i) { OrIsHere(s, i); }
    if Disjoins(s) { var i: nat :| OrHere(s, i); }
  }

  lemma NotIsHere(s: string, i: nat)
    requires i + 3 < |s|
    ensures NotAt(Mask(s), i) <==> NotHere(s, i)
  {
    MaskedChar(s, i);
    MaskedChar(s, i + 1);
    MaskedChar(s, i + 2);
    MaskedChar(s, i + 3);
    BesideLetters(s, i);
    BesideLetters(s, i + 1);
    BesideLetters(s, i + 2);
    if i > 0 {
      MaskedChar(s, i - 1);
      BesideLetters(s, i - 1);
    }
  }

  lemma NegatesIff(s: string)
    ensures HasNot(Mask(s)) <==> Negates(s)
  {
    forall i: nat | i + 3 < |s| ensures NotAt(Mask(s), i) <==> NotHere(s, i) { NotIsHere(s, i); }
    if Negates(s) { var i: nat :| NotHere(s, i); }
  }

  lemma GroupsIff(s: string)
    ensures '(' in Mask(s) || ')' in Mask(s) <==> Groups(s)
  {
    if Groups(s) {
      var i :| 0 <= i < |s| && !InQuotes(s, i) && (s[i] == '(' || s[i] == ')');
      MaskedChar(s, i);
    }
    forall i | 0 <= i < |s| && (Mask(s)[i] == '(' || Mask(s)[i] == ')') ensures Groups(s) {
      MaskedChar(s, i);
    }
  }

  // Which filters are refused for their structure, and with which error: by what
  // stands outside their literals, in this order.
  lemma StructureRefusals(raw: string, allowed: set<Attribute>)
    ensures ParseSpec(raw, allowed) == Ok(None) <==> Trim(raw) == ""
    ensures Trim(raw) != "" ==>
            var s, r := Trim(raw), ParseSpec(raw, allowed);
            && (Groups(s) ==> r == Err(Grouped))
            && (!Groups(s) && |Terms(s)| > 2 ==> r == Err(TooManyTerms))
            && (!Groups(s) && |Terms(s)| <= 2 && Disjoins(s) ==> r == Err(Disjunction))
            && (!Groups(s) && |Terms(s)| <= 2 && !Disjoins(s) && Negates(s) ==> r == Err(Negation))
            && (r.Ok? ==> !Groups(s) && 0 < |Terms(s)| <= 2 && !Disjoins(s) && !Negates(s))
  {
    var s := Trim(raw);
    GroupsIff(s);
    DisjoinsIff(s);
    NegatesIff(s);
  }

  // A filter that passes is its terms: one, or two in their order, each read as if
  // it were alone; the first that is not is the answer.
  lemma FilterMeans(raw: string, allowed: set<Attribute>)
    requires var s := Trim(raw);
             s != "" && !Groups(s) && 0 < |Terms(s)| <= 2 && !Disjoins(s) && !Negates(s)
    ensures var ts, r := Terms(Trim(raw)), ParseSpec(raw, allowed);
            var first := ParseTermSpec(ts[0], allowed);
            if first.Err? then r == Err(first.error)
            else if |ts| == 1 then r == Ok(Some(One(first.value)))
            else
              var second := ParseTermSpec(ts[1], allowed);
              r == if second.Err? then Err(second.error) else Ok(Some(And(first.value, second.value)))
  {
    var s := Trim(raw);
    GroupsIff(s);
    DisjoinsIff(s);
    NegatesIff(s);
  }

  // ---------- Two refusals, printed ----------

  // An attribute the caller does not allow, such as a group's user name.
  lemma ForbiddenAttribute(name: string, t: Term, allowed: set<Attribute>)
    requires Printable(name, t, {AttributeOf(t)}) && AttributeOf(t) !in allowed
    ensures ParseSpec(Print(name, t), allowed) == Err(NotFilterable)
  {
    NamesArePlain(name, AttributeOf(t));
    PrintTrims(name, t);
    OneTermTerms(name, t);
    OneTermIsSound(name, t);
    PrintedStarts(t);
    OperatorOf(name, Printed(t));
    NameStands(name);
    assert Lower("eq") == "eq";
  }

  // Such as a group's user name, or a user's display name.
  lemma ForeignUserName(name: string, v: string)
    requires v != "" && Lower(name) == Lower(NameOf(UserName))
    ensures ParseSpec(Print(name, EqString(UserName, v)), USER_FILTER_ATTRIBUTES) == Ok(Some(One(EqString(UserName, v))))
    ensures ParseSpec(Print(name, EqString(UserName, v)), GROUP_FILTER_ATTRIBUTES) == Err(NotFilterable)
  {
    var t := EqString(UserName, v);
    assert UserName in USER_FILTER_ATTRIBUTES && UserName !in GROUP_FILTER_ATTRIBUTES;
    OneTermRoundTrips(name, t, USER_FILTER_ATTRIBUTES);
    ForbiddenAttribute(name, t, GROUP_FILTER_ATTRIBUTES);
  }

  lemma ForeignDisplayName(name: string, v: string)
    requires v != "" && Lower(name) == Lower(NameOf(DisplayName))
    ensures ParseSpec(Print(name, EqString(DisplayName, v)), USER_FILTER_ATTRIBUTES) == Err(NotFilterable)
    ensures ParseSpec(Print(name, EqString(DisplayName, v)), GROUP_FILTER_ATTRIBUTES) == Ok(Some(One(EqString(DisplayName, v))))
  {
    var t := EqString(DisplayName, v);
    assert DisplayName in GROUP_FILTER_ATTRIBUTES && DisplayName !in USER_FILTER_ATTRIBUTES;
    OneTermRoundTrips(name, t, GROUP_FILTER_ATTRIBUTES);
    ForbiddenAttribute(name, t, USER_FILTER_ATTRIBUTES);
  }

  function Compared(name: string, op: string, v: string): string {
    name + " " + op + " " + Literal(v)
  }

  // The layout of a comparison, by position.
  ghost predicate IsCompared(s: string, name: string, op: string, v: string) {
    var n, c := |name|, |name| + |op| + 2;
    && |s| == c + |Literal(v)|
    && At(s, 0, name) && s[n] == ' ' && At(s, n + 1, op) && s[c - 1] == ' ' && At(s, c, Literal(v))
  }

  lemma ComparedLayout(name: string, op: string, v: string)
    ensures IsCompared(Compared(name, op, v), name, op, v)
  {
    var s, x := Compared(name, op, v), Literal(v);
    assert s == name + (" " + (op + (" " + x)));
    assert forall i | 0 <= i < |op| :: s[|name| + 1 + i] == op[i];
    assert forall i | 0 <= i < |x| :: s[|name| + |op| + 2 + i] == x[i];
  }

  predicate Operator(op: string) {
    2 <= |op| <= 3 && forall i | 0 <= i < |op| :: IsLetter(op[i])
  }

  lemma ComparedScan(s: string, name: string, op: string, v: string)
    requires IsCompared(s, name, op, v) && Plain(name) && Operator(op)
    ensures forall i | 0 <= i <= |name| + |op| + 2 :: !InQuotes(s, i) && Depth(s, i) == 0
  {
    var n, c := |name|, |name| + |op| + 2;
    forall i | 0 <= i < c ensures s[i] != '\"' && s[i] != '[' && s[i] != ']' {
      if i < n { assert s[0 + i] == name[i]; } else if n < i < c - 1 { assert s[n + 1 + (i - n - 1)] == op[i - n - 1]; }
    }
    FlatText(s, 0, c);
  }

  lemma ComparedSplits(s: string, name: string, op: string, v: string)
    requires IsCompared(s, name, op, v) && Plain(name) && Operator(op)
    ensures var n, b := |name|, |name| + 1 + |op|; Splits(s, n, n + 1, b, b + 1)
  {
    var n, b := |name|, |name| + 1 + |op|;
    ComparedScan(s, name, op, v);
    assert s[b + 1 + 0] == Literal(v)[0];
    forall k | 0 <= k < n ensures !IsOperator(s, k) { assert s[0 + k] == name[k]; }
    forall k | n + 1 <= k < b ensures IsLetter(s[k]) { assert s[n + 1 + (k - n - 1)] == op[k - n - 1]; }
  }

  lemma ComparedTrims(s: string, name: string, op: string, v: string)
    requires IsCompared(s, name, op, v) && Plain(name)
    ensures s != "" && Trim(s) == s
  {
    var x := Literal(v);
    assert s[0 + 0] == name[0] && s[|name| + |op| + 2 + (|x| - 1)] == x[|x| - 1] == '\"';
    TrimmedStays(s);
  }

  lemma ComparedIsOneTerm(s: string, name: string, op: string, v: string)
    requires IsCompared(s, name, op, v) && Plain(name) && Operator(op) && Lower(op) != "and"
    ensures Terms(s) == [s]
  {
    var n, c := |name|, |name| + |op| + 2;
    ComparedScan(s, name, op, v);
    LiteralScan(s, c, v);
    forall i | 0 <= i < c ensures !AndAt(s, i) { NoAndInHead(s, name, op, v, i); }
    forall i | c <= i < |s| ensures !AndAt(s, i) { assert s[c + (i - c)] == Literal(v)[i - c]; }
    NothingToSplit(s, 0, 0);
    ComparedTrims(s, name, op, v);
    assert s[0..] == s;
    NonBlankOne(s);
  }

  lemma NoAndInHead(s: string, name: string, op: string, v: string, i: nat)
    requires IsCompared(s, name, op, v) && Plain(name) && Operator(op) && Lower(op) != "and"
    requires i < |name| + |op| + 2
    ensures !AndWord(s, i)
  {
    var n := |name|;
    if i == 0 {
      assert s[0 + 0] == name[0] && s[0 + 1] == name[1];
    } else if i < n {
      assert s[0 + (i - 1)] == name[i - 1];
    } else if i == n + 1 {
      assert s[n + 1 + 0] == op[0] && s[n + 1 + 1] == op[1] && (|op| == 3 ==> s[n + 1 + 2] == op[2]);
      assert |op| == 3 && LowerChar(op[0]) == 'a' && LowerChar(op[1]) == 'n' && LowerChar(op[2]) == 'd' ==> Lower(op) == "and";
    } else if n + 1 < i < n + 1 + |op| {
      assert s[n + 1 + (i - n - 2)] == op[i - n - 2];
    }
  }

  lemma OperatorFound(s: string, name: string, op: string, v: string, allowed: set<Attribute>)
    requires IsCompared(s, name, op, v) && Plain(name) && Operator(op) && Lower(op) != "eq" && Trim(s) == s
    ensures ParseTermSpec(s, allowed) == Err(UnsupportedOperator)
  {
    var n, b := |name|, |name| + 1 + |op|;
    assert s[n + 1..b] == op by { assert forall i | 0 <= i < |op| :: s[n + 1 + i] == op[i]; }
    ComparedSplits(s, name, op, v);
    SplitsIsFound(s, n, n + 1, b, b + 1);
  }

  // Any other operator, such as `co`, is refused on any attribute.
  lemma OtherOperator(name: string, x: Attribute, op: string, v: string, allowed: set<Attribute>)
    requires Lower(name) == Lower(NameOf(x)) && Operator(op) && Lower(op) != "eq"
    ensures ParseTermSpec(Compared(name, op, v), allowed) == Err(UnsupportedOperator)
  {
    NamesArePlain(name, x);
    ComparedLayout(name, op, v);
    ComparedTrims(Compared(name, op, v), name, op, v);
    OperatorFound(Compared(name, op, v), name, op, v, allowed);
  }

  // And so is a filter that is such a comparison.
  lemma OtherOperatorFilter(name: string, x: Attribute, op: string, v: string, allowed: set<Attribute>)
    requires Lower(name) == Lower(NameOf(x)) && Operator(op) && Lower(op) != "eq" && Lower(op) != "and"
    ensures ParseSpec(Compared(name, op, v), allowed).Err?
  {
    var s := Compared(name, op, v);
    assert ParseTermSpec(s, allowed).Err? by { OtherOperator(name, x, op, v, allowed); }
    assert s != "" && Trim(s) == s && Terms(s) == [s] by {
      NamesArePlain(name, x);
      ComparedLayout(name, op, v);
      ComparedTrims(s, name, op, v);
      ComparedIsOneTerm(s, name, op, v);
    }
    StructureRefusals(s, allowed);
    if ParseSpec(s, allowed).Ok? { FilterMeans(s, allowed); }
  }
}
