// Subject derivation: the seed that is hashed, and the canonical JSON text in it.
module Subject {
  import opened Wrappers
  import opened Json
  import D = DynamoTokens

  // ---------- JSON text ----------

  function HexDigit(n: nat): char
    requires n < 16
  {
    if n < 10 then '0' + n as char else 'a' + (n - 10) as char
  }

  // How `JSON.stringify` writes one character of a string.
  function Escaped(c: char): string {
    if c == '\"' then "\\\""
    else if c == '\\' then "\\\\"
    else if c == '\U{0008}' then "\\b"
    else if c == '\U{000C}' then "\\f"
    else if c == '\n' then "\\n"
    else if c == '\r' then "\\r"
    else if c == '\t' then "\\t"
    else if c < ' ' then "\\u00" + [HexDigit(c as int / 16), HexDigit(c as int % 16)]
    else [c]
  }

  function EscapedAll(s: string): string {
    if s == "" then "" else Escaped(s[0]) + EscapedAll(s[1..])
  }

  function Quoted(s: string): string {
    "\"" + EscapedAll(s) + "\""
  }

  // ---------- Keys in order ----------

  predicate Less(a: string, b: string) {
    b != "" && (a == "" || a[0] < b[0] || (a[0] == b[0] && Less(a[1..], b[1..])))
  }

  // A key and the text of its value.
  datatype Pair = Pair(key: string, text: string)

  function Insert(p: Pair, ps: seq<Pair>): seq<Pair> {
    if ps == [] then [p]
    else if Less(p.key, ps[0].key) then [p] + ps
    else [ps[0]] + Insert(p, ps[1..])
  }

  function Sort(ps: seq<Pair>): seq<Pair> {
    if ps == [] then [] else Insert(ps[0], Sort(ps[1..]))
  }

  // ---------- Canonical text ----------

  function Join(ps: seq<Pair>): string {
    if ps == [] then ""
    else Quoted(ps[0].key) + ":" + ps[0].text + if |ps| == 1 then "" else "," + Join(ps[1..])
  }

  // `canonicalize` sorts the keys of objects, and hands everything else to
  // `JSON.stringify`, which leaves the objects inside an array as they are.
  function Text(v: Json, sorted: bool): string
    decreases v
  {
    match v
    case Undefined => "undefined"
    case Null => "null"
    case Bool(b) => if b then "true" else "false"
    case Number(text) => text
    case String(s) => Quoted(s)
    case Array(items) => "[" + Items(items) + "]"
    case Object(fields) =>
      var ps := Pairs(fields, sorted);
      "{" + Join(if sorted then Sort(ps) else ps) + "}"
  }

  function Items(items: seq<Json>): string
    decreases items
  {
    if items == [] then ""
    else Text(items[0], false) + if |items| == 1 then "" else "," + Items(items[1..])
  }

  function Pairs(fields: seq<Field>, sorted: bool): (ps: seq<Pair>)
    ensures |ps| == |fields|
    ensures forall i | 0 <= i < |fields| :: ps[i] == Pair(fields[i].key, Text(fields[i].val, sorted))
    decreases fields
  {
    if fields == [] then []
    else [Pair(fields[0].key, Text(fields[0].val, sorted))] + Pairs(fields[1..], sorted)
  }

  function Canonicalize(v: Json): string {
    Text(v, true)
  }

  // ---------- Seeds ----------

  datatype Claim = Claim(kind: string, properties: Json)

  const NUL := "\U{0000}"

  function Seed(claim: Claim, sector: Option<string>, subjectKey: Option<string>): string {
    var identity := if subjectKey.Some? then subjectKey.value else Canonicalize(claim.properties);
    if sector.Some? then sector.value + NUL + claim.kind + NUL + identity else claim.kind + NUL + identity
  }

  // The digest's first 22 characters, in the URL-safe base64 alphabet.
  function SubjectId(digest: string -> string, seed: string): string
    requires |digest(seed)| >= 22
  {
    digest(seed)[..22]
  }

  predicate UrlSafe(c: char) {
    'a' <= c <= 'z' || 'A' <= c <= 'Z' || '0' <= c <= '9' || c == '-' || c == '_'
  }

  // Derived subject ids keep the DynamoDB subject key exact.
  lemma DerivedIdsAreHashFree(digest: string -> string, seed: string)
    requires |digest(seed)| >= 22 && forall c | c in digest(seed) :: UrlSafe(c)
    ensures D.HashFree(SubjectId(digest, seed))
    ensures forall tenantId :: D.KeyIsExact(tenantId, SubjectId(digest, seed))
  {
    var id := SubjectId(digest, seed);
    assert forall c | c in id :: c in digest(seed);
    forall tenantId
      ensures D.KeyIsExact(tenantId, id)
    {
      D.KeyIsExactIff(tenantId, id);
    }
  }

  // ---------- What is the same ----------

  predicate HasKey(fields: seq<Field>, key: string) {
    exists f | f in fields :: f.key == key
  }

  predicate UniqueKeys(fields: seq<Field>) {
    forall i, j | 0 <= i < j < |fields| :: fields[i].key != fields[j].key
  }

  predicate NumberText(text: string) {
    text != "" && forall c | c in text :: '0' <= c <= '9' || c in "+-.e"
  }

  // A value `JSON.parse` can give.
  ghost predicate Parsed(v: Json)
    decreases v
  {
    match v
    case Undefined => false
    case Number(text) => NumberText(text)
    case Array(items) => forall i | 0 <= i < |items| :: Parsed(items[i])
    case Object(fields) => UniqueKeys(fields) && forall i | 0 <= i < |fields| :: Parsed(fields[i].val)
    case _ => true
  }

  // Equal up to the order of keys in objects outside arrays.
  ghost predicate Same(v: Json, w: Json, sorted: bool)
    decreases v
  {
    if sorted && v.Object? && w.Object? then
      && (forall i | 0 <= i < |v.fields| ::
            HasKey(w.fields, v.fields[i].key) && Same(v.fields[i].val, Get(w.fields, v.fields[i].key), true))
      && (forall i | 0 <= i < |w.fields| :: HasKey(v.fields, w.fields[i].key))
    else v == w
  }
}
