// What the shapes that Okta and Entra send come down to: how a path is read, and
// what a pathless operation or a whole extension object stands for.
module ScimShapes {
  import opened Wrappers
  import opened Text
  import opened Json
  import opened ScimUser
  import opened ScimPatch
  import opened ScimPatchTheorems
  import opened ScimPaths
  import F = ScimFilterTheorems

  function Operation(op: string, path: string, value: Json): Json {
    Object([Field("op", String(op)), Field("path", String(path)), Field("value", value)])
  }

  function Pathless(op: string, value: Json): Json {
    Object([Field("op", String(op)), Field("value", value)])
  }

  lemma ThreeFields(k: string, v: Json, k': string, v': Json, k'': string, v'': Json)
    requires k != k' && k != k'' && k' != k''
    ensures var f := [Field(k, v), Field(k', v'), Field(k'', v'')]; Get(f, k) == v && Get(f, k') == v' && Get(f, k'') == v''
  {
    var f := [Field(k, v), Field(k', v'), Field(k'', v'')];
    assert f[1..] == [f[1], f[2]] && f[1..][1..] == [f[2]];
    assert Get([f[2]], k'') == v'' && Get([f[1], f[2]], k'') == Get([f[2]], k'');
  }

  lemma TwoFields(k: string, v: Json, k': string, v': Json, other: string)
    requires k != k' && other != k && other != k'
    ensures var f := [Field(k, v), Field(k', v')]; Get(f, k) == v && Get(f, k') == v' && Get(f, other) == Undefined
  {
    var f := [Field(k, v), Field(k', v')];
    assert f[1..] == [f[1]] && [f[1]][1..] == [];
    assert Get([f[1]], k') == v' && Get([f[1]], other) == Undefined;
  }

  // Reading an operation's keys back.
  lemma OperationReads(op: string, path: string, value: Json)
    ensures var raw := Operation(op, path, value);
            Lookup(raw, "op") == String(op) && Lookup(raw, "path") == String(path) && Lookup(raw, "value") == value
  {
    assert "op"[0] != "path"[0] && "op"[0] != "value"[0] && "path"[0] != "value"[0];
    ThreeFields("op", String(op), "path", String(path), "value", value);
  }

  lemma PathlessReads(op: string, value: Json)
    ensures var raw := Pathless(op, value);
            Lookup(raw, "op") == String(op) && Lookup(raw, "path") == Undefined && Lookup(raw, "value") == value
  {
    assert "op"[0] != "path"[0] && "op"[0] != "value"[0] && "path"[0] != "value"[0];
    TwoFields("op", String(op), "value", value, "path");
  }

  lemma OperationCompiles(op: string, path: string, value: Json)
    requires ParseOp(op).Some?
    ensures Compile(Operation(op, path, value)) == CompileAs(ParseOp(op).value, Some(path), value)
  {
    OperationReads(op, path, value);
  }

  lemma PathlessCompiles(op: string, value: Json)
    requires ParseOp(op).Some?
    ensures Compile(Pathless(op, value)) == CompileAs(ParseOp(op).value, None, value)
  {
    PathlessReads(op, value);
  }

  // The three operations, in any case, and no other word.
  predicate Adds(op: string) {
    Lower(op) == "add"
  }

  predicate Replaces(op: string) {
    Lower(op) == "replace"
  }

  predicate Removes(op: string) {
    Lower(op) == "remove"
  }

  predicate Sets(op: string) {
    Adds(op) || Replaces(op)
  }

  lemma OpWords(op: string)
    ensures ParseOp(op) == Some(Add) <==> Adds(op)
    ensures ParseOp(op) == Some(Replace) <==> Replaces(op)
    ensures ParseOp(op) == Some(Remove) <==> Removes(op)
    ensures ParseOp(op) == None <==> !Adds(op) && !Replaces(op) && !Removes(op)
  {
    assert "add"[0] != "replace"[0] && "add"[0] != "remove"[0] && "replace"[2] != "remove"[2];
  }

  // ---------- Objects stand for their fields ----------

  function PerField(op: string, prefix: string, fields: seq<Field>): seq<Json> {
    if fields == [] then []
    else [Operation(op, prefix + fields[0].key, fields[0].val)] + PerField(op, prefix, fields[1..])
  }

  lemma {:induction false} FieldsCompile(op: string, prefix: string, fields: seq<Field>)
    requires ParseOp(op).Some?
    ensures CompileAll(PerField(op, prefix, fields)) == CompileFields(ParseOp(op).value, prefix, fields)
  {
    if fields != [] {
      OperationCompiles(op, prefix + fields[0].key, fields[0].val);
      FieldsCompile(op, prefix, fields[1..]);
      assert PerField(op, prefix, fields)[1..] == PerField(op, prefix, fields[1..]);
    }
  }

  // `{op, value: {…}}` is one operation per field, in the fields' order, with
  // nested objects under blank keys and errors included.
  lemma PathlessIsOneByOne(op: string, fields: seq<Field>, u: User)
    requires Sets(op)
    ensures Outcome(NormalizeSpec(Single(Pathless(op, Object(fields))), u), u) == OneByOne(PerField(op, "", fields), u)
  {
    OpWords(op);
    SingleMeans(Pathless(op, Object(fields)), u);
    PathlessCompiles(op, Object(fields));
    FieldsCompile(op, "", fields);
    OneByOneMeans(PerField(op, "", fields), u);
  }

  lemma BareUrn(o: Op, value: Json)
    requires o != Remove && value.Object?
    ensures CompileAs(o, Some(SCIM_ENTERPRISE_SCHEMA), value) == CompileFields(o, SCIM_ENTERPRISE_SCHEMA + ":", value.fields)
  {
    var urn := SCIM_ENTERPRISE_SCHEMA;
    assert urn[0] == URN[0] == 'u' && urn[|urn| - 1] == 'r';
    TrimmedStays(urn);
    assert StripEnterprisePrefix(urn) == ("", true);
    assert ParseMultiValuedPath("") == None;
    assert SplitDots("") == [""];
  }

  // The bare extension URN with an object is one qualified operation per field.
  lemma ExtensionIsOneByOne(op: string, fields: seq<Field>, u: User)
    requires Sets(op)
    ensures Outcome(NormalizeSpec(Single(Operation(op, SCIM_ENTERPRISE_SCHEMA, Object(fields))), u), u)
         == OneByOne(PerField(op, SCIM_ENTERPRISE_SCHEMA + ":", fields), u)
  {
    OpWords(op);
    SingleMeans(Operation(op, SCIM_ENTERPRISE_SCHEMA, Object(fields)), u);
    OperationCompiles(op, SCIM_ENTERPRISE_SCHEMA, Object(fields));
    BareUrn(ParseOp(op).value, Object(fields));
    FieldsCompile(op, SCIM_ENTERPRISE_SCHEMA + ":", fields);
    OneByOneMeans(PerField(op, SCIM_ENTERPRISE_SCHEMA + ":", fields), u);
  }

  // ---------- Paths ----------

  predicate Word(w: string) {
    w != "" && forall i | 0 <= i < |w| :: IsLetter(w[i])
  }

  // Letters and dots: no URN, and no qualified path.
  predicate Simple(path: string) {
    forall i | 0 <= i < |path| :: IsLetter(path[i]) || path[i] == '.'
  }

  lemma SimpleIsNoUrn(path: string)
    requires Simple(path)
    ensures StripEnterprisePrefix(path) == (path, false)
  {
    var p := Lower(path);
    assert forall i | 0 <= i < |p| :: p[i] != ':';
    ColonInside(p, Lower(SCIM_ENTERPRISE_SCHEMA), 3);
    ColonInside(p, Lower(SCIM_ENTERPRISE_SCHEMA + ":"), 3);
    ColonInside(p, SCIM_CORE_PREFIX, 3);
  }

  lemma ColonInside(p: string, prefix: string, i: nat)
    requires i < |prefix| && prefix[i] == ':' && forall j | 0 <= j < |p| :: p[j] != ':'
    ensures !StartsWith(p, prefix) && p != prefix
  {
    assert |prefix| <= |p| ==> p[..|prefix|][i] != ':';
  }

  lemma SimpleIsNotQualified(path: string)
    requires Simple(path) && Trim(path) == path
    ensures ParseMultiValuedPath(path) == None && '[' !in path
  {
  }

  lemma WordFacts(w: string)
    requires Word(w)
    ensures Simple(w) && Trim(w) == w && SplitDots(w) == [w]
  {
    TrimmedStays(w);
    assert '.' !in w;
    assert IndexFrom(w, '.', 0) == |w|;
  }

  // A plain word, in any case, names a top-level attribute.
  lemma WordPath(o: Op, w: string, value: Json)
    requires Word(w)
    ensures CompileAs(o, Some(w), value)
         == if Lower(w) == "name" then CompileName(o, None, value) else CompileSimple(o, Lower(w), value)
  {
    WordFacts(w);
    SimpleIsNoUrn(w);
    SimpleIsNotQualified(w);
  }

  lemma DottedSegments(a: string, b: string)
    requires Word(a) && Word(b)
    ensures Trim(a + "." + b) == a + "." + b && Simple(a + "." + b) && SplitDots(a + "." + b) == [a, b]
  {
    var p := a + "." + b;
    assert p[0] == a[0] && p[|p| - 1] == b[|b| - 1];
    TrimmedStays(p);
    WordFacts(b);
    assert forall i | 0 <= i < |a| :: p[i] == a[i];
    F.FirstIndex(p, '.', 0, |a|);
    assert p[..|a|] == a && p[|a| + 1..] == b;
    assert [a] + [b] == [a, b];
  }

  // `name.<sub>`, in any case, names a part of the name; other dotted paths are skipped.
  lemma DottedPath(o: Op, a: string, b: string, value: Json)
    requires Word(a) && Word(b)
    ensures CompileAs(o, Some(a + "." + b), value)
         == if Lower(a) == "name" then CompileName(o, Some(Lower(b)), value) else SKIP
  {
    DottedSegments(a, b);
    SimpleIsNoUrn(a + "." + b);
    SimpleIsNotQualified(a + "." + b);
  }

  // The extension's URN and a word, in any case, name an extension attribute.
  lemma ExtensionPath(o: Op, p: string, w: string, value: Json)
    requires Lower(p) == Lower(SCIM_ENTERPRISE_SCHEMA + ":") && Word(w)
    ensures CompileAs(o, Some(p + w), value) == CompileEnterprise(o, Lower(w), value)
  {
    var path := p + w;
    ExtensionPrefix(p, w);
    WordFacts(w);
    SimpleIsNotQualified(w);
    assert path[0] == p[0] && path[|path| - 1] == w[|w| - 1];
    assert LowerChar(p[0]) == Lower(SCIM_ENTERPRISE_SCHEMA + ":")[0] == LowerChar(URN[0]);
    TrimmedStays(path);
  }

  lemma ExtensionPrefix(p: string, w: string)
    requires Lower(p) == Lower(SCIM_ENTERPRISE_SCHEMA + ":") && w != ""
    ensures StripEnterprisePrefix(p + w) == (w, true)
  {
    var path, urn := p + w, SCIM_ENTERPRISE_SCHEMA;
    assert |p| == |urn + ":"| == |urn| + 1;
    assert |Lower(path)| == |path| > |urn| == |Lower(urn)|;
    assert Lower(path)[..|p|] == Lower(p) by {
      assert forall i | 0 <= i < |p| :: Lower(path)[i] == LowerChar(p[i]) == Lower(p)[i];
    }
    assert path[|urn| + 1..] == w;
  }
}
