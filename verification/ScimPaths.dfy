// The qualified path of a PATCH operation, printed and parsed.
module ScimPaths {
  import opened Wrappers
  import opened Text
  import opened Json
  import opened ScimPatch
  import F = ScimFilterTheorems
  import M = ScimFilterMeanings

  function Qualified(kind: string): string {
    F.Qualified(kind)
  }

  // A word, `eq` and a quote, with single spaces between them.
  lemma QualifierRead(s: string, i: nat, word: string)
    requires word != "" && !IsSpace(word[0]) && Lower(word) == word
    requires var b := i + |word|;
             && b + 4 < |s| && s[i..b] == word && s[b] == ' ' && s[b + 1..b + 3] == "eq" && s[b + 3] == ' ' && s[b + 4] == '\"'
    ensures QualifierStart(s, i, word) == Some(i + |word| + 5)
  {
    var b := i + |word|;
    assert s[i] == s[i..b][0] && s[b + 1] == s[b + 1..b + 3][0] == 'e';
    assert SpaceEnd(s, i) == i && SpaceEnd(s, b) == b + 1 && SpaceEnd(s, b + 3) == b + 4;
    assert Lower("eq") == "eq";
  }

  lemma QualifiedStarts(s: string, kind: string)
    requires F.HasQualified(s, kind) && |s| == 24 + |kind|
    ensures LetterEnd(s, 0) == 6 && Lower(s[..6]) == "emails"
  {
    F.LettersThen(s, 0, 6);
    assert s[..6] == "emails";
    assert Lower("emails") == "emails";
  }

  lemma QualifiedReads(s: string, kind: string)
    requires F.HasQualified(s, kind) && |s| == 24 + |kind|
    ensures QualifierStart(s, 7, "type") == Some(16)
  {
    assert s[7..11] == "type" && s[12..14] == "eq";
    assert Lower("type") == "type";
    QualifierRead(s, 7, "type");
  }

  lemma QualifiedEnds(s: string, kind: string)
    requires F.HasQualified(s, kind) && |s| == 24 + |kind|
    ensures QualifiedSub(s, 16 + |kind|) == Some("value") && s[16..16 + |kind|] == kind
  {
    F.LettersThen(s, 19 + |kind|, |s|);
    assert SpaceEnd(s, 17 + |kind|) == 17 + |kind|;
    var sub := s[19 + |kind|..];
    assert sub == "value" && Lower(sub) == "value";
    forall i | 0 <= i < |kind|
      ensures s[16..16 + |kind|][i] == kind[i]
    {
      assert s[16 + i] == kind[i];
    }
  }

  lemma QualifiedQuotes(s: string, kind: string)
    requires F.HasQualified(s, kind) && |s| == 24 + |kind| && '\"' !in kind
    ensures IndexFrom(s, '\"', 16) == 16 + |kind|
  {
    forall i | 16 <= i < 16 + |kind|
      ensures s[i] != '\"'
    {
      assert s[16 + (i - 16)] == kind[i - 16];
    }
    F.FirstIndex(s, '\"', 16, 16 + |kind|);
  }

  // Any type without a quote comes back as it was printed.
  lemma QualifiedParses(kind: string)
    requires kind != "" && '\"' !in kind
    ensures ParseMultiValuedPath(Qualified(kind)) == Some(MultiValuedPath("emails", kind, "value"))
  {
    F.QualifiedPath(kind);
    HasQualifiedParses(Qualified(kind), kind);
  }

  lemma HasQualifiedParses(s: string, kind: string)
    requires F.HasQualified(s, kind) && |s| == 24 + |kind| && kind != "" && '\"' !in kind
    ensures ParseMultiValuedPath(s) == Some(MultiValuedPath("emails", kind, "value"))
  {
    TrimmedStays(s);
    QualifiedStarts(s, kind);
    QualifiedReads(s, kind);
    QualifiedQuotes(s, kind);
    QualifiedEnds(s, kind);
  }

  lemma NotAUrn(path: string, prefix: string)
    requires path != "" && path[0] == 'e' && prefix != "" && prefix[0] == 'u'
    ensures !StartsWith(path, prefix) && path != prefix
  {
    assert |prefix| <= |path| ==> path[..|prefix|][0] == 'e';
  }

  lemma NoPrefix(path: string)
    requires path != "" && path[0] == 'e'
    ensures StripEnterprisePrefix(path) == (path, false)
  {
    NotAUrn(Lower(path), SCIM_CORE_PREFIX);
    NotAUrn(Lower(path), Lower(SCIM_ENTERPRISE_SCHEMA));
    NotAUrn(Lower(path), Lower(SCIM_ENTERPRISE_SCHEMA + ":"));
  }

  // And an operation on it is an operation on the entry of that type.
  lemma QualifiedCompiles(o: Op, kind: string, value: Json)
    requires kind != "" && '\"' !in kind
    ensures CompileAs(o, Some(Qualified(kind)), value)
         == CompileMultiValued(o, MultiValuedPath("emails", kind, "value"), value)
  {
    var path := Qualified(kind);
    F.QualifiedPath(kind);
    TrimmedStays(path);
    NoPrefix(path);
    QualifiedParses(kind);
  }

  // ---------- Every path of that shape ----------

  predicate Spaces(s: string, i: nat, j: nat) {
    i <= j <= |s| && forall k | i <= k < j :: IsSpace(s[k])
  }

  // From `i` on: the word at `b`, `eq` at `c`, both in any case, and the quote before
  // `d`, with white space between them.
  predicate Qualifies(s: string, i: nat, word: string, b: nat, c: nat, d: nat) {
    && i <= b && b + |word| < c && c + 3 < d <= |s|
    && Spaces(s, i, b) && M.Reads(s, b, word)
    && Spaces(s, b + |word|, c) && M.Reads(s, c, "eq")
    && Spaces(s, c + 2, d - 1) && s[d - 1] == '\"'
  }

  lemma WordIsNoSpace(s: string, i: nat, word: string)
    requires M.Reads(s, i, word) && word != "" && 'a' <= word[0] <= 'z'
    ensures !IsSpace(s[i])
  {
    assert LowerChar(s[i + 0]) == word[0];
  }

  lemma QualifiesIsStart(s: string, i: nat, word: string, b: nat, c: nat, d: nat)
    requires Qualifies(s, i, word, b, c, d) && word != "" && 'a' <= word[0] <= 'z'
    ensures QualifierStart(s, i, word) == Some(d)
  {
    WordIsNoSpace(s, b, word);
    WordIsNoSpace(s, c, "eq");
    M.SpacesThen(s, i, b);
    M.SpacesThen(s, b + |word|, c);
    M.SpacesThen(s, c + 2, d - 1);
    M.ReadsLower(s, b, word);
    M.ReadsLower(s, c, "eq");
  }

  lemma StartQualifies(s: string, i: nat, word: string) returns (b: nat, c: nat)
    requires i <= |s| && QualifierStart(s, i, word).Some?
    ensures Qualifies(s, i, word, b, c, QualifierStart(s, i, word).value)
  {
    b := SpaceEnd(s, i);
    c := SpaceEnd(s, b + |word|);
    M.ReadsLower(s, b, word);
    M.ReadsLower(s, c, "eq");
  }

  // A path to one entry: letters up to `a`, the qualifier in brackets with the type
  // from `d` to the next quote at `e`, and after the bracket at `f` a dot and letters.
  ghost predicate Targets(s: string, a: nat, b: nat, c: nat, d: nat, e: nat, f: nat) {
    && 0 < a && (forall k | 0 <= k < a && k < |s| :: IsLetter(s[k]))
    && Qualifies(s, a + 1, "type", b, c, d) && s[a] == '['
    && d < e < |s| && (forall k | d <= k < e :: s[k] != '\"') && s[e] == '\"'
    && Spaces(s, e + 1, f) && f + 2 < |s| && s[f] == ']' && s[f + 1] == '.'
    && (forall k | f + 2 <= k < |s| :: IsLetter(s[k]))
  }

  // What the reader looks for, and in which order.
  predicate Pieces(s: string, a: nat, d: nat, e: nat) {
    && LetterEnd(s, 0) == a && 0 < a < d < e < |s| && s[a] == '['
    && QualifierStart(s, a + 1, "type") == Some(d) && IndexFrom(s, '\"', d) == e
  }

  lemma PiecesParse(path: string, a: nat, d: nat, e: nat, sub: string)
    requires Pieces(Trim(path), a, d, e) && QualifiedSub(Trim(path), e) == Some(sub)
    ensures ParseMultiValuedPath(path) == Some(MultiValuedPath(Lower(Trim(path)[..a]), Trim(path)[d..e], sub))
  {
  }

  lemma ParsedPieces(path: string) returns (a: nat, d: nat, e: nat)
    requires ParseMultiValuedPath(path).Some?
    ensures Pieces(Trim(path), a, d, e) && QualifiedSub(Trim(path), e).Some?
  {
    var s := Trim(path);
    a := LetterEnd(s, 0);
    d := QualifierStart(s, a + 1, "type").value;
    e := IndexFrom(s, '\"', d);
  }

  lemma SubEnds(s: string, e: nat, f: nat)
    requires e < f + 1 && Spaces(s, e + 1, f) && f + 2 < |s| && s[f] == ']' && s[f + 1] == '.'
    requires forall k | f + 2 <= k < |s| :: IsLetter(s[k])
    ensures QualifiedSub(s, e) == Some(Lower(s[f + 2..]))
  {
    M.SpacesThen(s, e + 1, f);
    F.LettersThen(s, f + 2, |s|);
  }

  lemma TargetsParse(path: string, a: nat, b: nat, c: nat, d: nat, e: nat, f: nat)
    requires Targets(Trim(path), a, b, c, d, e, f)
    ensures var s := Trim(path);
            ParseMultiValuedPath(path) == Some(MultiValuedPath(Lower(s[..a]), s[d..e], Lower(s[f + 2..])))
  {
    var s := Trim(path);
    assert Pieces(s, a, d, e) by {
      F.LettersThen(s, 0, a);
      QualifiesIsStart(s, a + 1, "type", b, c, d);
      F.FirstIndex(s, '\"', d, e);
    }
    SubEnds(s, e, f);
    PiecesParse(path, a, d, e, Lower(s[f + 2..]));
  }

  // These are the paths that are read, and nothing else is.
  lemma ParsedTargets(path: string) returns (a: nat, b: nat, c: nat, d: nat, e: nat, f: nat)
    requires ParseMultiValuedPath(path).Some?
    ensures Targets(Trim(path), a, b, c, d, e, f)
  {
    a, d, e := ParsedPieces(path);
    b, c, f := PiecesTarget(Trim(path), a, d, e);
  }

  lemma SubStarts(s: string, e: nat) returns (f: nat)
    requires e < |s| && QualifiedSub(s, e).Some?
    ensures Spaces(s, e + 1, f) && f + 2 < |s| && s[f] == ']' && s[f + 1] == '.'
    ensures forall k | f + 2 <= k < |s| :: IsLetter(s[k])
  {
    f := SpaceEnd(s, e + 1);
    assert LetterEnd(s, f + 2) == |s|;
  }

  lemma NoQuoteBetween(s: string, d: nat, e: nat)
    requires d <= |s| && IndexFrom(s, '\"', d) == e
    ensures forall k | d <= k < e :: s[k] != '\"'
  {
    forall k | d <= k < e ensures s[k] != '\"' { assert s[d..e][k - d] == s[k] && s[k] in s[d..e]; }
  }

  lemma PiecesTarget(s: string, a: nat, d: nat, e: nat) returns (b: nat, c: nat, f: nat)
    requires Pieces(s, a, d, e) && QualifiedSub(s, e).Some?
    ensures Targets(s, a, b, c, d, e, f)
  {
    b, c := StartQualifies(s, a + 1, "type");
    f := SubStarts(s, e);
    NoQuoteBetween(s, d, e);
  }
}
