// The SCIM filter subset: `attr eq value`, or two of those joined by `and`.
// Three hand-written scanners respect quotes and brackets; each loop is proved
// against a description of the positions it looks for.
module ScimFilter {
  import opened Wrappers
  import opened Text

  datatype Attribute = Id | UserName | ExternalId | Active | EmailsValue | DisplayName

  datatype Term = EqString(attribute: Attribute, value: string) | EqActive(active: bool)

  datatype Filter = One(term: Term) | And(left: Term, right: Term)

  datatype FilterError =
    | Unparseable | UnsupportedOperator | NotFilterable | NotBoolean | NotQuoted | EmptyValue
    | Grouped | TooManyTerms | Disjunction | Negation
    | Thrown    // a TypeError: there was no first term to parse

  const USER_FILTER_ATTRIBUTES: set<Attribute> := {Id, UserName, ExternalId, Active, EmailsValue}
  const GROUP_FILTER_ATTRIBUTES: set<Attribute> := {Id, DisplayName, ExternalId}

  function AttributeNamed(key: string): Option<Attribute> {
    if key == "id" then Some(Id)
    else if key == "username" then Some(UserName)
    else if key == "externalid" then Some(ExternalId)
    else if key == "active" then Some(Active)
    else if key == "emails.value" then Some(EmailsValue)
    else if key == "displayname" then Some(DisplayName)
    else None
  }

  // ---------- Positions ----------

  // A quote that opens or closes a literal: one not preceded by a backslash.
  predicate Quote(s: string, i: nat)
    requires i < |s|
  {
    s[i] == '\"' && (i == 0 || s[i - 1] != '\\')
  }

  // Whether the scan is inside a literal when it reaches `i`.
  predicate InQuotes(s: string, i: nat)
    requires i <= |s|
  {
    i > 0 && InQuotes(s, i - 1) != Quote(s, i - 1)
  }

  predicate Outside(s: string, i: nat)
    requires i < |s|
  {
    !Quote(s, i) && !InQuotes(s, i)
  }

  // Brackets opened and not closed before `i`, literals apart.
  function Depth(s: string, i: nat): int
    requires i <= |s|
  {
    if i == 0 then 0
    else Depth(s, i - 1)
         + if !Outside(s, i - 1) then 0 else if s[i - 1] == '[' then 1 else if s[i - 1] == ']' then -1 else 0
  }

  predicate TopLevel(s: string, i: nat)
    requires i < |s|
  {
    Outside(s, i) && Depth(s, i) == 0
  }

  datatype Found = Found(attr: string, op: string, value: string)

  // `\s+`, two or three letters, then `\s+` or the end.
  predicate OperatorAt(s: string, i: nat)
    requires i <= |s|
  {
    var a := SpaceEnd(s, i);
    var b := LetterEnd(s, a);
    i < a && 2 <= b - a <= 3 && (b == |s| || IsSpace(s[b]))
  }

  function FoundAt(s: string, i: nat): Found
    requires i <= |s|
  {
    var a := SpaceEnd(s, i);
    var b := LetterEnd(s, a);
    Found(s[..i], s[a..b], s[SpaceEnd(s, b)..])
  }

  predicate IsOperator(s: string, i: nat)
    requires i < |s|
  {
    TopLevel(s, i) && s[i] == ' ' && OperatorAt(s, i)
  }

  // The first operator at or after `i`.
  function OperatorFrom(s: string, i: nat): (r: Option<Found>)
    requires i <= |s|
    decreases |s| - i
  {
    if i == |s| then None
    else if IsOperator(s, i) then Some(FoundAt(s, i))
    else OperatorFrom(s, i + 1)
  }

  // A standalone `and`, in any case.
  predicate AndWord(s: string, i: nat)
    requires i < |s|
  {
    && i + 3 <= |s|
    && LowerChar(s[i]) == 'a' && LowerChar(s[i + 1]) == 'n' && LowerChar(s[i + 2]) == 'd'
    && (i == 0 || s[i - 1] == ' ')
    && (i + 3 == |s| || s[i + 3] == ' ')
  }

  predicate AndAt(s: string, i: nat)
    requires i < |s|
  {
    TopLevel(s, i) && AndWord(s, i)
  }

  // What lies between the `and`s, from `start` on, with nothing to split before `i`.
  function Pieces(s: string, start: nat, i: nat): (r: seq<string>)
    requires start <= i <= |s|
    decreases |s| - i
  {
    if i == |s| then [s[start..]]
    else if AndAt(s, i) then [s[start..i]] + Pieces(s, i + 3, i + 3)
    else Pieces(s, start, i + 1)
  }

  function Kept(piece: string): seq<string> {
    if Trim(piece) == "" then [] else [Trim(piece)]
  }

  function NonBlank(pieces: seq<string>): seq<string> {
    if pieces == [] then [] else NonBlank(pieces[..|pieces| - 1]) + Kept(pieces[|pieces| - 1])
  }

  function Terms(s: string): seq<string> {
    NonBlank(Pieces(s, 0, 0))
  }

  function MaskChar(s: string, i: nat): char
    requires i < |s|
  {
    if Quote(s, i) then '\"' else if InQuotes(s, i) then ' ' else s[i]
  }

  // The text with the contents of its literals blanked out.
  function Mask(s: string): (m: string)
    ensures |m| == |s| && forall i | 0 <= i < |s| :: m[i] == MaskChar(s, i)
  {
    seq(|s|, i requires 0 <= i < |s| => MaskChar(s, i))
  }

  // ---------- The scanners ----------

  // One step of the shared state: brackets count outside literals only.
  lemma DepthStep(s: string, i: nat)
    requires i < |s|
    ensures Depth(s, i + 1) == Depth(s, i)
              + if !Outside(s, i) then 0 else if s[i] == '[' then 1 else if s[i] == ']' then -1 else 0
    ensures InQuotes(s, i + 1) == (InQuotes(s, i) != Quote(s, i))
  {
  }

  method FindOperator(term: string) returns (r: Option<Found>)
    ensures r == OperatorFrom(term, 0)
  {
    var depth := 0;
    var inQuotes := false;
    var i := 0;
    while i < |term|
      invariant 0 <= i <= |term|
      invariant depth == Depth(term, i) && inQuotes == InQuotes(term, i)
      invariant OperatorFrom(term, 0) == OperatorFrom(term, i)
    {
      DepthStep(term, i);
      var ch := term[i];
      if ch == '\"' && (i == 0 || term[i - 1] != '\\') {
        inQuotes := !inQuotes;
      } else if inQuotes {
      } else if ch == '[' {
        depth := depth + 1;
      } else if ch == ']' {
        depth := depth - 1;
      } else if depth == 0 && ch == ' ' {
        if OperatorAt(term, i) {
          return Some(FoundAt(term, i));
        }
      }
      i := i + 1;
    }
    return None;
  }

  method MaskQuoted(input: string) returns (out: string)
    ensures out == Mask(input)
  {
    out := "";
    var inQuotes := false;
    var i := 0;
    while i < |input|
      invariant 0 <= i <= |input|
      invariant inQuotes == InQuotes(input, i)
      invariant out == Mask(input)[..i]
    {
      DepthStep(input, i);
      var ch := input[i];
      if ch == '\"' && (i == 0 || input[i - 1] != '\\') {
        inQuotes := !inQuotes;
        out := out + [ch];
      } else {
        out := out + [if inQuotes then ' ' else ch];
      }
      i := i + 1;
    }
  }

  // The letters of an `and` leave the state alone.
  lemma AndIsPlain(s: string, i: nat)
    requires i < |s| && AndAt(s, i)
    ensures Depth(s, i + 3) == 0 && !InQuotes(s, i + 3)
  {
    DepthStep(s, i);
    DepthStep(s, i + 1);
    DepthStep(s, i + 2);
  }

  method SplitTopLevelAnd(input: string) returns (terms: seq<string>)
    ensures terms == Terms(input)
  {
    var parts: seq<string> := [];
    var depth := 0;
    var inQuotes := false;
    var start := 0;
    var i := 0;
    while i < |input|
      invariant 0 <= start <= i <= |input|
      invariant depth == Depth(input, i) && inQuotes == InQuotes(input, i)
      invariant Pieces(input, 0, 0) == parts + Pieces(input, start, i)
    {
      DepthStep(input, i);
      var ch := input[i];
      var skip := 0;
      if ch == '\"' && (i == 0 || input[i - 1] != '\\') {
        inQuotes := !inQuotes;
      } else if inQuotes {
      } else if ch == '[' {
        depth := depth + 1;
      } else if ch == ']' {
        depth := depth - 1;
      } else if depth == 0 && (ch == 'a' || ch == 'A') {
        if AndWord(input, i) {
          AndIsPlain(input, i);
          parts := parts + [input[start..i]];
          start := i + 3;
          skip := 2;
        }
      }
      i := i + skip + 1;
    }
    parts := parts + [input[start..]];
    terms := TrimParts(parts);
  }

  method TrimParts(parts: seq<string>) returns (terms: seq<string>)
    ensures terms == NonBlank(parts)
  {
    terms := [];
    for i := 0 to |parts|
      invariant terms == NonBlank(parts[..i])
    {
      assert parts[..i + 1][..i] == parts[..i];
      var part := Trim(parts[i]);
      if part != "" {
        terms := terms + [part];
      }
    }
    assert parts[..|parts|] == parts;
  }

  // ---------- Terms ----------

  // `emails[type eq "work"].value` is read as `emails.value`.
  function NormalizeComplexPath(raw: string): string {
    var s := Trim(raw);
    var a := LetterEnd(s, 0);
    if 0 < a < |s| && s[a] == '[' then
      var b := IndexFrom(s, ']', a + 1);
      if b + 2 < |s| && s[b + 1] == '.' && LetterEnd(s, b + 2) == |s| then s[..a] + s[b + 1..] else s
    else s
  }

  // `.replace(/\\"/g, '"')`
  function UnescapeQuotes(s: string): string {
    if |s| < 2 then s
    else if s[0] == '\\' && s[1] == '\"' then "\"" + UnescapeQuotes(s[2..])
    else [s[0]] + UnescapeQuotes(s[1..])
  }

  // `.replace(/\\\\/g, "\\")`
  function UnescapeBackslashes(s: string): string {
    if |s| < 2 then s
    else if s[0] == '\\' && s[1] == '\\' then "\\" + UnescapeBackslashes(s[2..])
    else [s[0]] + UnescapeBackslashes(s[1..])
  }

  function Unescape(s: string): string {
    UnescapeBackslashes(UnescapeQuotes(s))
  }

  function ParseValue(attribute: Attribute, value: string): Result<Term, FilterError> {
    if attribute == Active then
      if Lower(value) == "true" then Ok(EqActive(true))
      else if Lower(value) == "false" then Ok(EqActive(false))
      else Err(NotBoolean)
    else if |value| < 2 || value[0] != '\"' || value[|value| - 1] != '\"' then Err(NotQuoted)
    else
      var unquoted := Unescape(value[1..|value| - 1]);
      if unquoted == "" then Err(EmptyValue) else Ok(EqString(attribute, unquoted))
  }

  function ParseFound(found: Option<Found>, allowed: set<Attribute>): Result<Term, FilterError> {
    if found.None? then Err(Unparseable)
    else if Lower(found.value.op) != "eq" then Err(UnsupportedOperator)
    else
      var attribute := AttributeNamed(Lower(NormalizeComplexPath(found.value.attr)));
      if attribute.None? || attribute.value !in allowed then Err(NotFilterable)
      else ParseValue(attribute.value, Trim(found.value.value))
  }

  function ParseTermSpec(raw: string, allowed: set<Attribute>): Result<Term, FilterError> {
    ParseFound(OperatorFrom(Trim(raw), 0), allowed)
  }

  // ---------- Filters ----------

  // `\sor\s`
  predicate OrAt(m: string, i: nat)
    requires i < |m|
  {
    i + 3 < |m| && IsSpace(m[i]) && LowerChar(m[i + 1]) == 'o' && LowerChar(m[i + 2]) == 'r' && IsSpace(m[i + 3])
  }

  // `(^|\s)not\s`, with `i` at the `n`
  predicate NotAt(m: string, i: nat)
    requires i < |m|
  {
    && (i == 0 || IsSpace(m[i - 1]))
    && i + 3 < |m| && LowerChar(m[i]) == 'n' && LowerChar(m[i + 1]) == 'o' && LowerChar(m[i + 2]) == 't'
    && IsSpace(m[i + 3])
  }

  predicate HasOr(m: string) {
    exists i | 0 <= i < |m| :: OrAt(m, i)
  }

  predicate HasNot(m: string) {
    exists i | 0 <= i < |m| :: NotAt(m, i)
  }

  // The structural checks, in order: none of them sees a quoted character.
  function StructuralError(input: string): Option<FilterError> {
    var masked := Mask(input);
    if '(' in masked || ')' in masked then Some(Grouped)
    else if |Terms(input)| > 2 then Some(TooManyTerms)
    else if HasOr(masked) then Some(Disjunction)
    else if HasNot(masked) then Some(Negation)
    else None
  }

  function ParseTerms(terms: seq<string>, allowed: set<Attribute>): Result<Filter, FilterError>
    requires |terms| <= 2
  {
    if |terms| == 0 then Err(Thrown)
    else
      var first := ParseTermSpec(terms[0], allowed);
      if first.Err? then Err(first.error)
      else if |terms| == 1 then Ok(One(first.value))
      else
        var second := ParseTermSpec(terms[1], allowed);
        if second.Err? then Err(second.error) else Ok(And(first.value, second.value))
  }

  // No filter at all is legal; it selects everything.
  function ParseSpec(raw: string, allowed: set<Attribute>): Result<Option<Filter>, FilterError> {
    var input := Trim(raw);
    if input == "" then Ok(None)
    else
      var structural := StructuralError(input);
      if structural.Some? then Err(structural.value)
      else
        var filter := ParseTerms(Terms(input), allowed);
        if filter.Err? then Err(filter.error) else Ok(Some(filter.value))
  }

  method ParseTerm(raw: string, allowed: set<Attribute>) returns (r: Result<Term, FilterError>)
    ensures r == ParseTermSpec(raw, allowed)
  {
    var found := FindOperator(Trim(raw));
    return ParseFound(found, allowed);
  }

  method ParseParts(parts: seq<string>, allowed: set<Attribute>) returns (r: Result<Filter, FilterError>)
    requires |parts| <= 2
    ensures r == ParseTerms(parts, allowed)
  {
    if |parts| == 0 {
      return Err(Thrown);
    }
    var first := ParseTerm(parts[0], allowed);
    if first.Err? {
      return Err(first.error);
    }
    if |parts| == 1 {
      return Ok(One(first.value));
    }
    var second := ParseTerm(parts[1], allowed);
    if second.Err? {
      return Err(second.error);
    }
    return Ok(And(first.value, second.value));
  }

  method ParseScimFilter(raw: string, allowed: set<Attribute>) returns (r: Result<Option<Filter>, FilterError>)
    ensures r == ParseSpec(raw, allowed)
  {
    var input := Trim(raw);
    if input == "" {
      return Ok(None);
    }
    var masked := MaskQuoted(input);
    if '(' in masked || ')' in masked {
      return Err(Grouped);
    }
    var parts := SplitTopLevelAnd(input);
    if |parts| > 2 {
      return Err(TooManyTerms);
    }
    if HasOr(masked) {
      return Err(Disjunction);
    }
    if HasNot(masked) {
      return Err(Negation);
    }
    var filter := ParseParts(parts, allowed);
    if filter.Err? {
      return Err(filter.error);
    }
    return Ok(Some(filter.value));
  }
}
