/**
 * Signed release manifests (internal/release/release.go): the canonical encoding, its
 * strict reader, signing, verification and the install policy. Hashing and Ed25519
 * are parameters; all that is asked of them is that a signature verifies.
 *
 * Texts are byte strings. The manifest reader covers the canonical spelling: any
 * other spelling is refused by the source as well, because the bytes must equal the
 * canonical ones. Envelopes have other spellings; their reader is a parameter.
 */
module Release {
  import opened Sorting
  import opened Text
  import opened Wrappers
  import Base64

  const MAX_ENVELOPE_BYTES := 64 * 1024
  const MAX_MANIFEST_BYTES := 32 * 1024
  const MAX_ARTIFACTS := 16
  const MAX_ARTIFACT_BYTES := 0x4000_0000
  const MAX_SEQUENCE := 0x20_0000_0000_0000
  const MANIFEST_VERSION := 1
  const PRODUCT := "moonlightretail"
  const ENVELOPE_FORMAT := "moonlight-release-envelope-v1"
  const SIGNING_DOMAIN := "moonlight-release-manifest-v1" + [0 as char]

  datatype Code = ManifestInvalid | ManifestUnsupported | KeyUnknown | SignatureInvalid | DowngradeRejected
    | ReleaseConflict | Incompatible

  datatype Artifact = Artifact(os: string, arch: string, package: string, fileName: string, size: nat, sha256: string)

  datatype Manifest = Manifest(
    manifestVersion: nat, product: string, releaseSequence: nat, version: string, buildCommit: string,
    minInstalledSequence: nat, keyId: string, artifacts: seq<Artifact>)

  // ---- Printing and scanning fields ----

  /** A JSON string or number, after everything that comes before its content. */
  datatype Field = TextField(prefix: string) | NumberField(prefix: string)

  datatype Value = TextValue(text: string) | NumberValue(number: nat)

  /** Characters that JSON writes as themselves. */
  predicate IsPlainText(s: string) {
    forall i | 0 <= i < |s| :: ' ' <= s[i] <= '~' && s[i] != '"' && s[i] != '\\'
  }

  predicate Fits(f: Field, v: Value) {
    if f.TextField? then v.TextValue? && IsPlainText(v.text) else v.NumberValue?
  }

  function PrintField(f: Field, v: Value): string
    requires Fits(f, v)
  {
    f.prefix + if f.TextField? then v.text + "\"" else Decimal(v.number)
  }

  predicate AllFit(fs: seq<Field>, vs: seq<Value>) {
    |fs| == |vs| && forall i | 0 <= i < |fs| :: Fits(fs[i], vs[i])
  }

  function Print(fs: seq<Field>, vs: seq<Value>): string
    requires AllFit(fs, vs)
  {
    if fs == [] then "" else PrintField(fs[0], vs[0]) + Print(fs[1..], vs[1..])
  }

  function Strip(prefix: string, s: string): (r: Option<string>)
    ensures r.Some? ==> |r.value| == |s| - |prefix|
  {
    if |prefix| <= |s| && s[..|prefix|] == prefix then Some(s[|prefix|..]) else None
  }

  /** Where the first quote is, or the length. */
  function TextEnd(s: string): (k: nat)
    ensures k <= |s| && (k < |s| ==> s[k] == '"') && forall i | 0 <= i < k :: s[i] != '"'
  {
    if s == "" || s[0] == '"' then 0 else 1 + TextEnd(s[1..])
  }

  function ScanField(f: Field, s: string): (r: Option<(Value, string)>)
    ensures r.Some? ==> Fits(f, r.value.0) && |r.value.1| < |s|
  {
    var content := Strip(f.prefix, s);
    if content.None? then None
    else if f.TextField? then
      var k := TextEnd(content.value);
      if k == |content.value| || !IsPlainText(content.value[..k]) then None
      else Some((TextValue(content.value[..k]), content.value[k + 1..]))
    else
      var k := DigitsEnd(content.value);
      if k == 0 then None else Some((NumberValue(ValueOf(content.value[..k])), content.value[k..]))
  }

  function Scan(fs: seq<Field>, s: string): (r: Option<(seq<Value>, string)>)
    ensures r.Some? ==> AllFit(fs, r.value.0) && |r.value.1| <= |s| && (fs != [] ==> |r.value.1| < |s|)
  {
    if fs == [] then Some(([], s))
    else
      var first := ScanField(fs[0], s);
      if first.None? then None
      else
        var rest := Scan(fs[1..], first.value.1);
        if rest.None? then None else Some(([first.value.0] + rest.value.0, rest.value.1))
  }

  predicate StartsWithDigit(s: string) {
    s != "" && IsDigit(s[0])
  }

  /** After a number comes something that is not a digit. */
  predicate Delimited(fs: seq<Field>, rest: string) {
    forall i | 0 <= i < |fs| :: Ends(fs, rest, i)
  }

  predicate Ends(fs: seq<Field>, rest: string, i: nat)
    requires i < |fs|
  {
    fs[i].NumberField? ==>
      if i + 1 < |fs| then fs[i + 1].prefix != "" && !IsDigit(fs[i + 1].prefix[0]) else !StartsWithDigit(rest)
  }

  lemma DelimitedTail(fs: seq<Field>, rest: string)
    requires fs != [] && Delimited(fs, rest)
    ensures Delimited(fs[1..], rest)
  {
    forall i | 0 <= i < |fs[1..]| ensures Ends(fs[1..], rest, i) {
      assert Ends(fs, rest, i + 1);
    }
  }

  /** What comes after the first field does not continue its number. */
  lemma TailEnds(fs: seq<Field>, vs: seq<Value>, rest: string)
    requires fs != [] && AllFit(fs, vs) && Delimited(fs, rest)
    ensures AllFit(fs[1..], vs[1..])
    ensures fs[0].NumberField? ==> !StartsWithDigit(Print(fs[1..], vs[1..]) + rest)
  {
    assert Ends(fs, rest, 0);
    if |fs| > 1 {
      assert Print(fs[1..], vs[1..]) == PrintField(fs[1], vs[1]) + Print(fs[1..][1..], vs[1..][1..]);
    } else {
      assert Print(fs[1..], vs[1..]) + rest == rest;
    }
  }

  lemma TextEndAt(s: string, k: nat)
    requires k < |s| && s[k] == '"' && forall i | 0 <= i < k :: s[i] != '"'
    ensures TextEnd(s) == k
  {
  }

  lemma DigitsEndAt(s: string, k: nat)
    requires k <= |s| && (k < |s| ==> !IsDigit(s[k])) && forall i | 0 <= i < k :: IsDigit(s[i])
    ensures DigitsEnd(s) == k
  {
  }

  lemma ScanPrintedField(f: Field, v: Value, rest: string)
    requires Fits(f, v) && (f.NumberField? ==> !StartsWithDigit(rest))
    ensures ScanField(f, PrintField(f, v) + rest) == Some((v, rest))
  {
    var content := (if f.TextField? then v.text + "\"" else Decimal(v.number)) + rest;
    assert PrintField(f, v) + rest == f.prefix + content;
    assert Strip(f.prefix, f.prefix + content) == Some(content);
    if f.TextField? {
      TextEndAt(content, |v.text|);
      assert content[..|v.text|] == v.text && content[|v.text| + 1..] == rest;
    } else {
      var k := |Decimal(v.number)|;
      ValueOfDecimal(v.number);
      DigitsEndAt(content, k);
      assert content[..k] == Decimal(v.number) && content[k..] == rest;
    }
  }

  /** Printed fields are read back, whatever follows them. */
  lemma {:induction false} ScanPrinted(fs: seq<Field>, vs: seq<Value>, rest: string)
    requires AllFit(fs, vs) && Delimited(fs, rest)
    ensures Scan(fs, Print(fs, vs) + rest) == Some((vs, rest))
  {
    hide ScanField, PrintField, Delimited, StartsWithDigit;
    if fs == [] {
      assert Print(fs, vs) + rest == rest;
    } else {
      TailEnds(fs, vs, rest);
      DelimitedTail(fs, rest);
      var more := Print(fs[1..], vs[1..]) + rest;
      ScanPrintedField(fs[0], vs[0], more);
      ScanPrinted(fs[1..], vs[1..], rest);
      assert Print(fs, vs) + rest == PrintField(fs[0], vs[0]) + more;
      assert [vs[0]] + vs[1..] == vs;
    }
  }

  /** No field of this model prints more. */
  const FIELD_BOUND := 160

  predicate Short(f: Field, v: Value) {
    |f.prefix| <= 30 && (v.TextValue? ==> |v.text| <= 128) && (v.NumberValue? ==> |Decimal(v.number)| <= 16)
  }

  lemma {:induction false} PrintIsShort(fs: seq<Field>, vs: seq<Value>)
    requires AllFit(fs, vs) && forall i | 0 <= i < |fs| :: Short(fs[i], vs[i])
    ensures |Print(fs, vs)| <= FIELD_BOUND * |fs|
  {
    if fs != [] {
      PrintIsShort(fs[1..], vs[1..]);
      assert Short(fs[0], vs[0]) && Fits(fs[0], vs[0]);
      assert |PrintField(fs[0], vs[0])| <= FIELD_BOUND;
    }
  }

  // ---- Order of artifacts ----

  predicate ArtifactLess(a: Artifact, b: Artifact) {
    if a.os != b.os then TextLess(a.os, b.os)
    else if a.arch != b.arch then TextLess(a.arch, b.arch)
    else TextLess(a.package, b.package)
  }

  lemma LessTransitive(a: Artifact, b: Artifact, c: Artifact)
    requires ArtifactLess(a, b) && ArtifactLess(b, c)
    ensures ArtifactLess(a, c)
  {
    if TextLess(a.os, b.os) && TextLess(b.os, c.os) {
      TextLessTransitive(a.os, b.os, c.os);
    }
    if TextLess(a.arch, b.arch) && TextLess(b.arch, c.arch) {
      TextLessTransitive(a.arch, b.arch, c.arch);
    }
    if TextLess(a.package, b.package) && TextLess(b.package, c.package) {
      TextLessTransitive(a.package, b.package, c.package);
    }
    if a.os != b.os {
      TextLessTotal(a.os, b.os);
    }
    if a.arch != b.arch {
      TextLessTotal(a.arch, b.arch);
    }
  }

  lemma LessAsymmetric(a: Artifact, b: Artifact)
    requires ArtifactLess(a, b)
    ensures !ArtifactLess(b, a) && a != b
  {
    TextLessIrreflexive(a.package);
    if a.os != b.os {
      TextLessTotal(a.os, b.os);
    }
    if a.arch != b.arch {
      TextLessTotal(a.arch, b.arch);
    }
    if a.package != b.package {
      TextLessTotal(a.package, b.package);
    }
  }

  predicate StrictlyOrdered(s: seq<Artifact>) {
    forall i | 0 < i < |s| :: ArtifactLess(s[i - 1], s[i])
  }

  lemma LessIsWeakOrder()
    ensures WeakOrder(ArtifactLess)
  {
    forall a, b | ArtifactLess(a, b) ensures !ArtifactLess(b, a) {
      LessAsymmetric(a, b);
    }
    forall a, b, c | !ArtifactLess(a, b) && !ArtifactLess(b, c) ensures !ArtifactLess(a, c) {
      if ArtifactLess(a, c) {
        LessOrSameKey(a, b);
        LessOrSameKey(b, c);
        if ArtifactLess(b, a) {
          if ArtifactLess(c, b) {
            LessTransitive(c, b, a);
          }
          LessAsymmetric(a, c);
        }
      }
    }
  }

  /** Artifacts for different platforms are ordered. */
  lemma LessOrSameKey(a: Artifact, b: Artifact)
    ensures ArtifactLess(a, b) || ArtifactLess(b, a) || (a.os == b.os && a.arch == b.arch && a.package == b.package)
  {
    if a.os != b.os {
      TextLessTotal(a.os, b.os);
    } else if a.arch != b.arch {
      TextLessTotal(a.arch, b.arch);
    } else if a.package != b.package {
      TextLessTotal(a.package, b.package);
    }
  }

  lemma {:induction false} EarlierIsLess(s: seq<Artifact>, i: nat, j: nat)
    requires StrictlyOrdered(s) && i < j < |s|
    ensures ArtifactLess(s[i], s[j])
    decreases j
  {
    hide ArtifactLess;
    assert ArtifactLess(s[j - 1], s[j]);
    if i < j - 1 {
      EarlierIsLess(s, i, j - 1);
      LessTransitive(s[i], s[j - 1], s[j]);
    }
  }

  /** What validate calls strictly ordered is sorted, for platforms that all differ. */
  lemma StrictlyOrderedIsSorted(s: seq<Artifact>)
    requires StrictlyOrdered(s)
    ensures Sorted(ArtifactLess, s) && NoTies(ArtifactLess, s)
  {
    forall i, j | 0 <= i < j < |s| ensures ArtifactLess(s[i], s[j]) && !ArtifactLess(s[j], s[i]) {
      EarlierIsLess(s, i, j);
      LessAsymmetric(s[i], s[j]);
    }
    hide ArtifactLess;
  }

  // ---- The manifest ----

  const HEADER := [
    NumberField("{\"manifest_version\":"), TextField(",\"product\":\""), NumberField(",\"release_sequence\":"),
    TextField(",\"version\":\""), TextField(",\"build_commit\":\""), NumberField(",\"min_installed_sequence\":"),
    TextField(",\"key_id\":\"")]

  const ARTIFACT := [
    TextField("{\"os\":\""), TextField(",\"arch\":\""), TextField(",\"package\":\""), TextField(",\"file_name\":\""),
    NumberField(",\"size\":"), TextField(",\"sha256\":\"")]

  const ARTIFACTS_OPEN := ",\"artifacts\":["

  function HeaderValues(m: Manifest): seq<Value> {
    [NumberValue(m.manifestVersion), TextValue(m.product), NumberValue(m.releaseSequence), TextValue(m.version),
     TextValue(m.buildCommit), NumberValue(m.minInstalledSequence), TextValue(m.keyId)]
  }

  function ArtifactValues(a: Artifact): seq<Value> {
    [TextValue(a.os), TextValue(a.arch), TextValue(a.package), TextValue(a.fileName), NumberValue(a.size),
      TextValue(a.sha256)]
  }

  predicate PlainArtifact(a: Artifact) {
    IsPlainText(a.os) && IsPlainText(a.arch) && IsPlainText(a.package) && IsPlainText(a.fileName)
      && IsPlainText(a.sha256)
  }

  /** No text of the manifest needs escaping. */
  predicate PlainManifest(m: Manifest) {
    && IsPlainText(m.product) && IsPlainText(m.version) && IsPlainText(m.buildCommit) && IsPlainText(m.keyId)
    && forall i | 0 <= i < |m.artifacts| :: PlainArtifact(m.artifacts[i])
  }

  lemma PlainFits(m: Manifest)
    requires PlainManifest(m)
    ensures AllFit(HEADER, HeaderValues(m))
    ensures forall i | 0 <= i < |m.artifacts| :: AllFit(ARTIFACT, ArtifactValues(m.artifacts[i]))
  {
  }

  function PrintArtifact(a: Artifact): string
    requires PlainArtifact(a)
  {
    Print(ARTIFACT, ArtifactValues(a)) + "}"
  }

  function PrintArtifacts(s: seq<Artifact>): string
    requires forall i | 0 <= i < |s| :: PlainArtifact(s[i])
  {
    if s == [] then "" else PrintArtifact(s[0]) + if |s| == 1 then "" else "," + PrintArtifacts(s[1..])
  }

  function PrintManifest(m: Manifest): string
    requires PlainManifest(m) && m.artifacts != []
  {
    PlainFits(m);
    Print(HEADER, HeaderValues(m)) + ARTIFACTS_OPEN + PrintArtifacts(m.artifacts) + "]}"
  }

  function Join(parts: seq<string>): string {
    if parts == [] then "" else parts[0] + Join(parts[1..])
  }

  lemma {:induction false} PrintedFieldsJoin(fs: seq<Field>, vs: seq<Value>, parts: seq<string>, rest: string)
    requires AllFit(fs, vs) && |parts| == |fs| && forall i | 0 <= i < |fs| :: parts[i] == PrintField(fs[i], vs[i])
    ensures Print(fs, vs) + rest == Join(parts + [rest])
  {
    if fs == [] {
      assert parts + [rest] == [rest] && [rest][1..] == [];
    } else {
      PrintedFieldsJoin(fs[1..], vs[1..], parts[1..], rest);
      assert (parts + [rest])[1..] == parts[1..] + [rest];
      assert Print(fs, vs) + rest == PrintField(fs[0], vs[0]) + (Print(fs[1..], vs[1..]) + rest);
    }
  }

  /** The canonical text of a manifest, spelled out. */
  lemma ManifestReads(m: Manifest)
    requires PlainManifest(m) && m.artifacts != []
    ensures PrintManifest(m) == Join([
      "{\"manifest_version\":" + Decimal(m.manifestVersion), ",\"product\":\"" + m.product + "\"",
      ",\"release_sequence\":" + Decimal(m.releaseSequence), ",\"version\":\"" + m.version + "\"",
      ",\"build_commit\":\"" + m.buildCommit + "\"",
      ",\"min_installed_sequence\":" + Decimal(m.minInstalledSequence), ",\"key_id\":\"" + m.keyId + "\""]
      + [",\"artifacts\":[" + PrintArtifacts(m.artifacts) + "]}"])
  {
    PlainFits(m);
    var rest := ",\"artifacts\":[" + PrintArtifacts(m.artifacts) + "]}";
    var parts := [
      "{\"manifest_version\":" + Decimal(m.manifestVersion), ",\"product\":\"" + m.product + "\"",
      ",\"release_sequence\":" + Decimal(m.releaseSequence), ",\"version\":\"" + m.version + "\"",
      ",\"build_commit\":\"" + m.buildCommit + "\"",
      ",\"min_installed_sequence\":" + Decimal(m.minInstalledSequence), ",\"key_id\":\"" + m.keyId + "\""];
    hide Print, PrintArtifacts, Decimal, Join, IsPlainText, PlainArtifact;
    forall i | 0 <= i < |HEADER| ensures parts[i] == PrintField(HEADER[i], HeaderValues(m)[i]) {
      assert i == 0 || i == 1 || i == 2 || i == 3 || i == 4 || i == 5 || i == 6;
    }
    PrintedFieldsJoin(HEADER, HeaderValues(m), parts, rest);
    assert PrintManifest(m) == Print(HEADER, HeaderValues(m)) + rest;
  }

  /** The text of an artifact, spelled out. */
  lemma ArtifactReads(a: Artifact)
    requires PlainArtifact(a)
    ensures PrintArtifact(a) == Join([
      "{\"os\":\"" + a.os + "\"", ",\"arch\":\"" + a.arch + "\"", ",\"package\":\"" + a.package + "\"",
      ",\"file_name\":\"" + a.fileName + "\"", ",\"size\":" + Decimal(a.size),
      ",\"sha256\":\"" + a.sha256 + "\""] + ["}"])
  {
    var parts := [
      "{\"os\":\"" + a.os + "\"", ",\"arch\":\"" + a.arch + "\"", ",\"package\":\"" + a.package + "\"",
      ",\"file_name\":\"" + a.fileName + "\"", ",\"size\":" + Decimal(a.size),
      ",\"sha256\":\"" + a.sha256 + "\""];
    hide Print, Decimal, Join, IsPlainText;
    forall i | 0 <= i < |ARTIFACT| ensures parts[i] == PrintField(ARTIFACT[i], ArtifactValues(a)[i]) {
      assert i == 0 || i == 1 || i == 2 || i == 3 || i == 4 || i == 5;
    }
    PrintedFieldsJoin(ARTIFACT, ArtifactValues(a), parts, "}");
  }

  function ScanArtifact(s: string): (r: Option<(Artifact, string)>)
    ensures r.Some? ==> PlainArtifact(r.value.0) && |r.value.1| < |s|
  {
    var fields := Scan(ARTIFACT, s);
    if fields.None? then None
    else
      var v := fields.value.0;
      assert forall i | 0 <= i < |ARTIFACT| :: Fits(ARTIFACT[i], v[i]);
      var rest := Strip("}", fields.value.1);
      if rest.None? then None
      else Some((Artifact(v[0].text, v[1].text, v[2].text, v[3].text, v[4].number, v[5].text), rest.value))
  }

  function ScanArtifacts(s: string): (r: Option<(seq<Artifact>, string)>)
    ensures r.Some? ==> r.value.0 != [] && forall i | 0 <= i < |r.value.0| :: PlainArtifact(r.value.0[i])
    decreases |s|
  {
    var first := ScanArtifact(s);
    if first.None? then None
    else
      var more := Strip(",", first.value.1);
      if more.None? then Some(([first.value.0], first.value.1))
      else
        var rest := ScanArtifacts(more.value);
        if rest.None? then None else Some(([first.value.0] + rest.value.0, rest.value.1))
  }

  function ScanManifest(s: string): (r: Option<Manifest>)
    ensures r.Some? ==> PlainManifest(r.value) && r.value.artifacts != []
  {
    var header := Scan(HEADER, s);
    if header.None? then None
    else
      var v := header.value.0;
      assert forall i | 0 <= i < |HEADER| :: Fits(HEADER[i], v[i]);
      var open := Strip(ARTIFACTS_OPEN, header.value.1);
      if open.None? then None
      else
        var artifacts := ScanArtifacts(open.value);
        if artifacts.None? || artifacts.value.1 != "]}" then None
        else Some(Manifest(v[0].number, v[1].text, v[2].number, v[3].text, v[4].text, v[5].number, v[6].text,
          artifacts.value.0))
  }

  lemma FieldsAreDelimited(rest: string)
    ensures Delimited(HEADER, rest) && Delimited(ARTIFACT, rest)
  {
  }

  lemma ArtifactScans(a: Artifact, rest: string)
    requires PlainArtifact(a)
    ensures ScanArtifact(PrintArtifact(a) + rest) == Some((a, rest))
  {
    var fields := Print(ARTIFACT, ArtifactValues(a));
    FieldsAreDelimited("}" + rest);
    ScanPrinted(ARTIFACT, ArtifactValues(a), "}" + rest);
    assert PrintArtifact(a) + rest == fields + ("}" + rest);
    assert Strip("}", "}" + rest) == Some(rest);
  }

  lemma ArtifactScansFirst(a: Artifact, more: string)
    requires PlainArtifact(a)
    ensures var rest := ScanArtifacts(more);
      ScanArtifacts(PrintArtifact(a) + ("," + more)) ==
        if rest.None? then None else Some(([a] + rest.value.0, rest.value.1))
  {
    ArtifactScans(a, "," + more);
    hide ScanArtifact, PrintArtifact;
    assert Strip(",", "," + more) == Some(more);
  }

  lemma {:induction false} ArtifactsScan(s: seq<Artifact>, rest: string)
    requires s != [] && (forall i | 0 <= i < |s| :: PlainArtifact(s[i])) && Strip(",", rest).None?
    ensures ScanArtifacts(PrintArtifacts(s) + rest) == Some((s, rest))
  {
    hide ScanArtifact, PrintArtifact, PlainArtifact;
    if |s| == 1 {
      assert PrintArtifacts(s) + rest == PrintArtifact(s[0]) + rest;
      ArtifactScans(s[0], rest);
      assert s == [s[0]];
    } else {
      hide ScanArtifacts;
      var more := PrintArtifacts(s[1..]) + rest;
      assert PrintArtifacts(s) + rest == PrintArtifact(s[0]) + ("," + more);
      ArtifactScansFirst(s[0], more);
      ArtifactsScan(s[1..], rest);
      assert s == [s[0]] + s[1..];
    }
  }

  /** Every manifest that needs no escaping is read back from its printed form. */
  lemma ManifestScans(m: Manifest)
    requires PlainManifest(m) && m.artifacts != []
    ensures ScanManifest(PrintManifest(m)) == Some(m)
  {
    hide Scan, Print, ScanArtifacts, PrintArtifacts, AllFit, Delimited, PlainArtifact;
    PlainFits(m);
    var artifacts := PrintArtifacts(m.artifacts) + "]}";
    var rest := ARTIFACTS_OPEN + artifacts;
    FieldsAreDelimited(rest);
    ScanPrinted(HEADER, HeaderValues(m), rest);
    assert PrintManifest(m) == Print(HEADER, HeaderValues(m)) + rest;
    assert Strip(ARTIFACTS_OPEN, rest) == Some(artifacts);
    assert "]}"[..1][0] == ']';
    ArtifactsScan(m.artifacts, "]}");
  }

  // ---- Validation ----

  predicate Lower(c: char) { 'a' <= c <= 'z' }

  predicate Alphanumeric(c: char) { 'A' <= c <= 'Z' || Lower(c) || IsDigit(c) }

  predicate LowerHex(c: char) { IsDigit(c) || 'a' <= c <= 'f' }

  predicate IsVersion(s: string) {
    0 < |s| <= 64 && Alphanumeric(s[0]) && forall i | 0 < i < |s| ::
      Alphanumeric(s[i]) || s[i] == '.' || s[i] == '+' || s[i] == '-'
  }

  predicate IsHexOf(s: string, n: nat) {
    |s| == n && forall i | 0 <= i < n :: LowerHex(s[i])
  }

  predicate IsFileName(s: string) {
    0 < |s| <= 128 && Alphanumeric(s[0]) && forall i | 0 < i < |s| ::
      Alphanumeric(s[i]) || s[i] == '.' || s[i] == '_' || s[i] == '-'
  }

  predicate IsPackage(s: string) {
    && 0 < |s| <= 32 && (Lower(s[0]) || IsDigit(s[0]))
    && forall i | 0 < i < |s| :: Lower(s[i]) || IsDigit(s[i]) || s[i] == '.' || s[i] == '-'
  }

  predicate ValidArtifact(a: Artifact) {
    && (a.os == "linux" || a.os == "windows" || a.os == "darwin") && (a.arch == "amd64" || a.arch == "arm64")
    && IsPackage(a.package) && IsFileName(a.fileName) && 0 < a.size <= MAX_ARTIFACT_BYTES && IsHexOf(a.sha256, 64)
  }

  predicate ValidManifest(m: Manifest) {
    && m.manifestVersion == MANIFEST_VERSION && m.product == PRODUCT
    && 0 < m.releaseSequence <= MAX_SEQUENCE && IsVersion(m.version) && IsHexOf(m.buildCommit, 40)
    && m.minInstalledSequence < m.releaseSequence && IsHexOf(m.keyId, 16)
    && 0 < |m.artifacts| <= MAX_ARTIFACTS
    && (forall i | 0 <= i < |m.artifacts| :: ValidArtifact(m.artifacts[i])) && StrictlyOrdered(m.artifacts)
  }

  /** What every artifact of a valid manifest is. */
  lemma ValidArtifactsAre(a: Artifact)
    ensures ValidArtifact(a) <==>
      && a.os in ["linux", "windows", "darwin"] && a.arch in ["amd64", "arm64"]
      && 1 <= |a.package| <= 32 && a.package[0] != '.' && a.package[0] != '-'
      && (forall i | 0 <= i < |a.package| ::
            var c := a.package[i]; 'a' <= c <= 'z' || '0' <= c <= '9' || c == '.' || c == '-')
      && 1 <= |a.fileName| <= 128 && a.fileName[0] != '.' && a.fileName[0] != '_' && a.fileName[0] != '-'
      && (forall i | 0 <= i < |a.fileName| ::
            var c := a.fileName[i];
            'A' <= c <= 'Z' || 'a' <= c <= 'z' || '0' <= c <= '9' || c == '.' || c == '_' || c == '-')
      && 1 <= a.size <= 1024 * 1024 * 1024
      && |a.sha256| == 64 && (forall i | 0 <= i < 64 :: '0' <= a.sha256[i] <= '9' || 'a' <= a.sha256[i] <= 'f')
  {
  }

  /** What every valid manifest is. */
  lemma ValidManifestsAre(m: Manifest)
    ensures ValidManifest(m) <==>
      && m.manifestVersion == 1 && m.product == "moonlightretail"
      && m.minInstalledSequence < m.releaseSequence <= 0x20_0000_0000_0000
      && 1 <= |m.version| <= 64 && m.version[0] != '.' && m.version[0] != '+' && m.version[0] != '-'
      && (forall i | 0 <= i < |m.version| ::
            var c := m.version[i];
            'A' <= c <= 'Z' || 'a' <= c <= 'z' || '0' <= c <= '9' || c == '.' || c == '+' || c == '-')
      && |m.buildCommit| == 40 && |m.keyId| == 16
      && (forall i | 0 <= i < 40 :: '0' <= m.buildCommit[i] <= '9' || 'a' <= m.buildCommit[i] <= 'f')
      && (forall i | 0 <= i < 16 :: '0' <= m.keyId[i] <= '9' || 'a' <= m.keyId[i] <= 'f')
      && 1 <= |m.artifacts| <= 16
      && (forall i | 0 <= i < |m.artifacts| :: ValidArtifact(m.artifacts[i]))
      && forall i | 0 < i < |m.artifacts| ::
           var a, b := m.artifacts[i - 1], m.artifacts[i];
           || TextLess(a.os, b.os)
           || (a.os == b.os && (TextLess(a.arch, b.arch) || (a.arch == b.arch && TextLess(a.package, b.package))))
  {
    hide TextLess, ValidArtifact;
    forall s ensures !TextLess(s, s) {
      TextLessIrreflexive(s);
    }
  }

  /** Nothing but an unknown version is reported as unsupported. */
  method Validate(m: Manifest) returns (error: Option<Code>)
    ensures error.None? <==> ValidManifest(m)
    ensures error == Some(ManifestUnsupported) <==> m.manifestVersion != MANIFEST_VERSION
    ensures error.Some? ==> error.value == ManifestUnsupported || error.value == ManifestInvalid
  {
    if m.manifestVersion != MANIFEST_VERSION {
      return Some(ManifestUnsupported);
    }
    if m.product != PRODUCT || m.releaseSequence == 0 || m.releaseSequence > MAX_SEQUENCE || !IsVersion(m.version)
      || !IsHexOf(m.buildCommit, 40) || m.minInstalledSequence >= m.releaseSequence || !IsHexOf(m.keyId, 16)
      || |m.artifacts| == 0 || |m.artifacts| > MAX_ARTIFACTS {
      return Some(ManifestInvalid);
    }
    for i := 0 to |m.artifacts|
      invariant forall j | 0 <= j < i :: ValidArtifact(m.artifacts[j])
      invariant forall j | 0 < j < i :: ArtifactLess(m.artifacts[j - 1], m.artifacts[j])
    {
      if !ValidArtifact(m.artifacts[i]) {
        return Some(ManifestInvalid);
      }
      if i > 0 && !ArtifactLess(m.artifacts[i - 1], m.artifacts[i]) {
        return Some(ManifestInvalid);
      }
    }
    return None;
  }

  lemma ValidIsPlain(m: Manifest)
    requires ValidManifest(m)
    ensures PlainManifest(m)
  {
    hide StrictlyOrdered;
  }

  /** One encoding for a manifest: artifacts in order, nothing insignificant. */
  function Canonical(m: Manifest): string
    requires PlainManifest(m) && m.artifacts != []
  {
    SortIsPlain(m.artifacts);
    PrintManifest(m.(artifacts := Sort(ArtifactLess, m.artifacts)))
  }

  lemma SortIsPlain(s: seq<Artifact>)
    requires forall i | 0 <= i < |s| :: PlainArtifact(s[i])
    ensures forall i | 0 <= i < |s| :: PlainArtifact(Sort(ArtifactLess, s)[i])
  {
    hide PlainArtifact;
    var r := Sort(ArtifactLess, s);
    forall i | 0 <= i < |s| ensures PlainArtifact(r[i]) {
      assert r[i] in multiset(r);
    }
  }

  predicate Encodable(m: Manifest) {
    PlainManifest(m) && m.artifacts != []
  }

  /** The same manifest, however its artifacts are listed. */
  predicate SameManifest(m: Manifest, n: Manifest) {
    m.(artifacts := []) == n.(artifacts := []) && multiset(m.artifacts) == multiset(n.artifacts)
  }

  function InOrder(m: Manifest): Manifest {
    m.(artifacts := Sort(ArtifactLess, m.artifacts))
  }

  /** An encoding tells everything that is printed. */
  lemma CanonicalTells(m: Manifest, n: Manifest)
    requires Encodable(m) && Encodable(n)
    ensures Canonical(m) == Canonical(n) <==> InOrder(m) == InOrder(n)
  {
    hide PlainArtifact, PrintManifest, ScanManifest;
    SortIsPlain(m.artifacts);
    SortIsPlain(n.artifacts);
    ManifestScans(InOrder(m));
    ManifestScans(InOrder(n));
  }

  /**
   * Exactly the manifests that are the same up to order have the same encoding, unless
   * one platform comes with two artifacts.
   */
  lemma CanonicalIdentifies(m: Manifest, n: Manifest)
    requires Encodable(m) && Encodable(n) && NoTies(ArtifactLess, m.artifacts)
    ensures Canonical(m) == Canonical(n) <==> SameManifest(m, n)
  {
    hide PlainManifest, Canonical, ArtifactLess;
    CanonicalTells(m, n);
    LessIsWeakOrder();
    SortIdentifies(ArtifactLess, m.artifacts, n.artifacts);
    assert InOrder(m).(artifacts := []) == m.(artifacts := []);
    assert InOrder(n).(artifacts := []) == n.(artifacts := []);
  }

  /** Two different artifacts for one platform make the order in which they are listed show. */
  lemma TiedArtifactsShow(m: Manifest) returns (n: Manifest)
    requires Encodable(m) && !NoTies(ArtifactLess, m.artifacts)
    ensures Encodable(n) && SameManifest(m, n) && Canonical(m) != Canonical(n)
  {
    hide ArtifactLess, Canonical, Sort;
    LessIsWeakOrder();
    var s := TiesShow(ArtifactLess, m.artifacts);
    n := m.(artifacts := s);
    forall i | 0 <= i < |s| ensures PlainArtifact(s[i]) {
      assert s[i] in multiset(m.artifacts);
    }
    assert |multiset(s)| == |multiset(m.artifacts)|;
    hide PlainArtifact;
    CanonicalTells(m, n);
  }

  /**
   * The encoding of a manifest identifies it up to the order of its artifacts if and only
   * if no platform comes with two.
   */
  lemma CanonicalIgnoresOrder(m: Manifest)
    requires Encodable(m)
    ensures (forall n | Encodable(n) :: Canonical(m) == Canonical(n) <==> SameManifest(m, n)) <==>
      NoTies(ArtifactLess, m.artifacts)
  {
    hide Canonical, SameManifest, NoTies, PlainManifest;
    if NoTies(ArtifactLess, m.artifacts) {
      forall n | Encodable(n) ensures Canonical(m) == Canonical(n) <==> SameManifest(m, n) {
        CanonicalIdentifies(m, n);
      }
    } else {
      var n := TiedArtifactsShow(m);
    }
  }

  // ---- Reading a manifest ----

  function ParseManifest(bytes: string): Result<Manifest, Code> {
    if |bytes| == 0 || |bytes| > MAX_MANIFEST_BYTES then Failure(ManifestInvalid)
    else
      var m := ScanManifest(bytes);
      if m.None? then Failure(ManifestInvalid)
      else if m.value.manifestVersion != MANIFEST_VERSION then Failure(ManifestUnsupported)
      else if !ValidManifest(m.value) || Canonical(m.value) != bytes then Failure(ManifestInvalid)
      else Success(m.value)
  }

  lemma {:induction false} DecimalLength(n: nat, k: nat)
    requires k > 0 && n < Power10(k)
    ensures |Decimal(n)| <= k
  {
    if n >= 10 {
      DecimalLength(n / 10, k - 1);
    }
  }

  lemma NumbersAreShort(m: Manifest)
    requires ValidManifest(m)
    ensures |Decimal(m.manifestVersion)| == 1 && |Decimal(m.releaseSequence)| <= 16
      && |Decimal(m.minInstalledSequence)| <= 16
    ensures forall i | 0 <= i < |m.artifacts| :: |Decimal(m.artifacts[i].size)| <= 10
  {
    assert Power10(4) == 10_000;
    assert Power10(8) == 10_000 * Power10(4);
    assert Power10(10) == 100 * Power10(8);
    assert Power10(12) == 100 * Power10(10);
    assert Power10(16) == 10_000 * Power10(12);
    DecimalLength(m.releaseSequence, 16);
    DecimalLength(m.minInstalledSequence, 16);
    forall i | 0 <= i < |m.artifacts| ensures |Decimal(m.artifacts[i].size)| <= 10 {
      assert ValidArtifact(m.artifacts[i]);
      DecimalLength(m.artifacts[i].size, 10);
    }
  }

  lemma ArtifactIsShort(a: Artifact)
    requires ValidArtifact(a) && PlainArtifact(a) && |Decimal(a.size)| <= 10
    ensures |PrintArtifact(a)| <= 1000
  {
    PrintIsShort(ARTIFACT, ArtifactValues(a));
  }

  lemma {:induction false} ArtifactsAreShort(s: seq<Artifact>)
    requires forall i | 0 <= i < |s| :: PlainArtifact(s[i]) && ValidArtifact(s[i]) && |Decimal(s[i].size)| <= 10
    ensures |PrintArtifacts(s)| <= 1001 * |s|
  {
    hide PrintArtifact, ValidArtifact, PlainArtifact;
    if s != [] {
      ArtifactIsShort(s[0]);
      ArtifactsAreShort(s[1..]);
    }
  }

  /** A valid manifest is far below the size limit. */
  lemma CanonicalIsSmall(m: Manifest)
    requires ValidManifest(m)
    ensures PlainManifest(m) && Canonical(m) == PrintManifest(m) && 0 < |Canonical(m)| <= 18_000
  {
    ValidIsPlain(m);
    StrictlyOrderedIsSorted(m.artifacts);
    LessIsWeakOrder();
    SortKeepsSorted(ArtifactLess, m.artifacts);
    NumbersAreShort(m);
    PlainFits(m);
    assert m.(artifacts := Sort(ArtifactLess, m.artifacts)) == m;
    assert forall i | 0 <= i < |HEADER| :: Short(HEADER[i], HeaderValues(m)[i]);
    hide StrictlyOrdered, PlainArtifact, ValidArtifact, Short;
    PrintIsShort(HEADER, HeaderValues(m));
    ArtifactsAreShort(m.artifacts);
  }

  /**
   * Reading accepts exactly the canonical encodings of valid manifests, one byte
   * string for each.
   */
  lemma ParseManifestIff(bytes: string, m: Manifest)
    ensures ParseManifest(bytes) == Success(m) <==> ValidManifest(m) && PlainManifest(m) && bytes == Canonical(m)
  {
    if ValidManifest(m) {
      CanonicalIsSmall(m);
      ManifestScans(m);
    }
    hide ScanManifest, ValidManifest, Canonical;
  }

  // ---- Signing and verifying ----

  /** What the model needs of SHA-256 and Ed25519. Keys are their byte strings. */
  datatype Crypto = Crypto(sha256: string -> string, public: string -> string, sign: (string, string) -> string,
    verify: (string, string, string) -> bool)

  ghost predicate Sound(c: Crypto) {
    && (forall s :: IsBytes(c.sha256(s)) && |c.sha256(s)| == 32)
    && (forall priv, s ::
          IsBytes(c.sign(priv, s)) && |c.sign(priv, s)| == 64 && c.verify(c.public(priv), s, c.sign(priv, s)))
  }

  /** The demands on Crypto do not contradict each other. */
  lemma SoundIsPossible() returns (c: Crypto)
    ensures Sound(c)
  {
    var zero := 0 as char;
    c := Crypto(_ => seq(32, _ => zero), priv => priv, (_, _) => seq(64, _ => zero), (_, _, _) => true);
  }

  function HexDigit(n: nat): (c: char)
    requires n < 16
    ensures LowerHex(c)
  {
    if n < 10 then '0' + n as char else 'a' + (n - 10) as char
  }

  function Hex(s: string): (r: string)
    requires IsBytes(s)
    ensures IsHexOf(r, 2 * |s|)
  {
    if s == "" then "" else [HexDigit(s[0] as int / 16), HexDigit(s[0] as int % 16)] + Hex(s[1..])
  }

  function KeyId(c: Crypto, pub: string): (r: string)
    requires Sound(c)
    ensures IsHexOf(r, 16)
  {
    Hex(c.sha256(pub)[..8])
  }

  function Digest(c: Crypto, bytes: string): string
    requires Sound(c)
  {
    Hex(c.sha256(bytes))
  }

  /** The two digits of one byte. */
  predicate SpellsByte(text: string, i: nat, b: char)
    requires 2 * i + 1 < |text| && b as int < 256
  {
    text[2 * i] == "0123456789abcdef"[b as int / 16] && text[2 * i + 1] == "0123456789abcdef"[b as int % 16]
  }

  lemma {:induction false} HexSpells(s: string, i: nat)
    requires IsBytes(s) && i < |s|
    ensures SpellsByte(Hex(s), i, s[i])
  {
    HexDigitIs(s[0] as int / 16);
    HexDigitIs(s[0] as int % 16);
    hide HexDigit;
    if i > 0 {
      hide SpellsByte;
      HexSpells(s[1..], i - 1);
      SpelledLater([HexDigit(s[0] as int / 16), HexDigit(s[0] as int % 16)], Hex(s[1..]), i, s[i]);
    }
  }

  lemma HexDigitIs(n: nat)
    requires n < 16
    ensures HexDigit(n) == "0123456789abcdef"[n]
  {
  }

  lemma SpelledLater(first: string, rest: string, i: nat, b: char)
    requires |first| == 2 && 0 < i && 2 * i - 1 < |rest| && b as int < 256 && SpellsByte(rest, i - 1, b)
    ensures SpellsByte(first + rest, i, b)
  {
    var text := first + rest;
    assert text[2 * i] == rest[2 * (i - 1)] && text[2 * i + 1] == rest[2 * (i - 1) + 1];
  }

  /** A key's id is the first eight bytes of its hash, a digest the whole hash, in small hexadecimal digits. */
  lemma IdsAndDigestsAre(c: Crypto, pub: string, bytes: string)
    requires Sound(c)
    ensures |KeyId(c, pub)| == 16 && forall i | 0 <= i < 8 :: SpellsByte(KeyId(c, pub), i, c.sha256(pub)[i])
    ensures |Digest(c, bytes)| == 64 && forall i | 0 <= i < 32 :: SpellsByte(Digest(c, bytes), i, c.sha256(bytes)[i])
  {
    var short, long := c.sha256(pub)[..8], c.sha256(bytes);
    hide SpellsByte, Hex;
    forall i | 0 <= i < 8 ensures SpellsByte(KeyId(c, pub), i, c.sha256(pub)[i]) {
      HexSpells(short, i);
    }
    forall i | 0 <= i < 32 ensures SpellsByte(Digest(c, bytes), i, c.sha256(bytes)[i]) {
      HexSpells(long, i);
    }
  }

  datatype Verified = Verified(manifest: Manifest, manifestBytes: string, digest: string, keyId: string)

  datatype Envelope = Envelope(format: string, keyId: string, manifest: string, signature: string)

  const ENVELOPE := [TextField("{\"format\":\""), TextField(",\"key_id\":\""), TextField(",\"manifest\":\""),
    TextField(",\"signature\":\"")]

  function EnvelopeValues(e: Envelope): seq<Value> {
    [TextValue(e.format), TextValue(e.keyId), TextValue(e.manifest), TextValue(e.signature)]
  }

  predicate PlainEnvelope(e: Envelope) {
    IsPlainText(e.format) && IsPlainText(e.keyId) && IsPlainText(e.manifest) && IsPlainText(e.signature)
  }

  function PrintEnvelope(e: Envelope): string
    requires PlainEnvelope(e)
  {
    Print(ENVELOPE, EnvelopeValues(e)) + "}"
  }

  function ScanEnvelope(s: string): Option<Envelope> {
    var fields := Scan(ENVELOPE, s);
    if fields.None? || fields.value.1 != "}" then None
    else
      var v := fields.value.0;
      assert forall i | 0 <= i < |ENVELOPE| :: Fits(ENVELOPE[i], v[i]);
      Some(Envelope(v[0].text, v[1].text, v[2].text, v[3].text))
  }

  lemma EnvelopeScans(e: Envelope)
    requires PlainEnvelope(e)
    ensures ScanEnvelope(PrintEnvelope(e)) == Some(e)
  {
    ScanPrinted(ENVELOPE, EnvelopeValues(e), "}");
  }

  /**
   * The envelope reader is a parameter: whichever spellings it accepts, all that is
   * asked of it is that it reads the canonical one.
   */
  type Reader = string -> Option<Envelope>

  ghost predicate ReadsCanonical(read: Reader) {
    forall e | PlainEnvelope(e) :: read(PrintEnvelope(e)) == Some(e)
  }

  /** The reader that accepts nothing else. */
  lemma CanonicalReaderReads()
    ensures ReadsCanonical(ScanEnvelope)
  {
    hide PrintEnvelope, ScanEnvelope, PlainEnvelope;
    forall e | PlainEnvelope(e) ensures ScanEnvelope(PrintEnvelope(e)) == Some(e) {
      EnvelopeScans(e);
    }
  }

  /** Every check in order; nothing of the release is trusted before its signature verifies. */
  function Verify(c: Crypto, read: Reader, trust: map<string, string>, envelope: string): Result<Verified, Code>
    requires Sound(c)
  {
    if |envelope| == 0 || |envelope| > MAX_ENVELOPE_BYTES then Failure(ManifestInvalid)
    else
      var e := read(envelope);
      if e.None? then Failure(ManifestInvalid)
      else if e.value.format != ENVELOPE_FORMAT then Failure(ManifestUnsupported)
      else if !IsHexOf(e.value.keyId, 16) then Failure(ManifestInvalid)
      else if e.value.keyId !in trust then Failure(KeyUnknown)
      else
        var bytes := Base64.Decode(e.value.manifest);
        if bytes.None? || |bytes.value| == 0 || |bytes.value| > MAX_MANIFEST_BYTES then Failure(ManifestInvalid)
        else
          var signature := Base64.Decode(e.value.signature);
          if signature.None? || |signature.value| != 64 then Failure(SignatureInvalid)
          else if !c.verify(trust[e.value.keyId], SIGNING_DOMAIN + bytes.value,
            signature.value) then Failure(SignatureInvalid)
          else
            var m := ParseManifest(bytes.value);
            if m.Failure? then Failure(m.error)
            else if m.value.keyId != e.value.keyId then Failure(ManifestInvalid)
            else Success(Verified(m.value, bytes.value, Digest(c, bytes.value), e.value.keyId))
  }

  /** An envelope that names a well-formed key. */
  predicate NamesKey(read: Reader, envelope: string) {
    && 0 < |envelope| <= 64 * 1024 && read(envelope).Some?
    && read(envelope).value.format == "moonlight-release-envelope-v1" && IsHexOf(read(envelope).value.keyId, 16)
  }

  /** Both parts of the envelope are base64, of a manifest of bounded size and of a signature. */
  predicate HasParts(e: Envelope) {
    && Base64.Decode(e.manifest).Some? && 0 < |Base64.Decode(e.manifest).value| <= 32 * 1024
    && Base64.Decode(e.signature).Some? && |Base64.Decode(e.signature).value| == 64
  }

  predicate IsSigned(c: Crypto, pub: string, e: Envelope)
    requires HasParts(e)
  {
    c.verify(pub, "moonlight-release-manifest-v1" + [0 as char] + Base64.Decode(e.manifest).value,
             Base64.Decode(e.signature).value)
  }

  /** An envelope of an unknown key is refused as such, before anything it says. */
  lemma UnknownKeysAreRefused(c: Crypto, read: Reader, trust: map<string, string>, envelope: string)
    requires Sound(c)
    ensures Verify(c, read, trust, envelope) == Failure(KeyUnknown) <==>
      NamesKey(read, envelope) && read(envelope).value.keyId !in trust
    ensures Verify(c, read, trust, envelope).Success? ==>
      NamesKey(read, envelope) && read(envelope).value.keyId in trust && HasParts(read(envelope).value)
  {
    if NamesKey(read, envelope) && HasParts(read(envelope).value) {
      ParseFailsWith(Base64.Decode(read(envelope).value.manifest).value);
    }
    hide Sound, IsHexOf, ParseManifest, Base64.Decode, Digest;
  }

  /**
   * An envelope of a known key is accepted exactly when its signature verifies and its
   * manifest reads and names the key; the signature is judged first.
   */
  lemma VerifyIff(c: Crypto, read: Reader, trust: map<string, string>, envelope: string, e: Envelope, bytes: string)
    requires Sound(c) && NamesKey(read, envelope) && read(envelope) == Some(e) && e.keyId in trust
    requires HasParts(e) && Base64.Decode(e.manifest) == Some(bytes)
    ensures var r := Verify(c, read, trust, envelope);
      if !IsSigned(c, trust[e.keyId], e) then r == Failure(SignatureInvalid)
      else r.Success? <==> ParseManifest(bytes).Success? && ParseManifest(bytes).value.keyId == e.keyId
  {
    hide Sound, IsHexOf, ParseManifest, Base64.Decode, Digest;
  }

  lemma ParseFailsWith(bytes: string)
    ensures ParseManifest(bytes).Failure? ==>
      ParseManifest(bytes).error == ManifestInvalid || ParseManifest(bytes).error == ManifestUnsupported
  {
    hide ScanManifest, ValidManifest, Canonical;
  }

  /** What is signed: the key's id, defaults for what is unset, artifacts in order. */
  function Prepared(c: Crypto, m: Manifest, priv: string): Manifest
    requires Sound(c)
  {
    m.(keyId := KeyId(c, c.public(priv)),
       manifestVersion := if m.manifestVersion == 0 then MANIFEST_VERSION else m.manifestVersion,
       product := if m.product == "" then PRODUCT else m.product,
       artifacts := Sort(ArtifactLess, m.artifacts))
  }

  /**
   * The given manifest made ready: the same release with the same artifacts, naming
   * the key it is signed with; only an unset product or version is filled in.
   */
  ghost predicate Readies(c: Crypto, m: Manifest, priv: string, v: Manifest)
    requires Sound(c)
  {
    && v.releaseSequence == m.releaseSequence && v.version == m.version && v.buildCommit == m.buildCommit
    && v.minInstalledSequence == m.minInstalledSequence && multiset(v.artifacts) == multiset(m.artifacts)
    && v.product == (if m.product == "" then "moonlightretail" else m.product)
    && v.manifestVersion == (if m.manifestVersion == 0 then 1 else m.manifestVersion)
    && v.keyId == KeyId(c, c.public(priv))
  }

  lemma PreparedReadies(c: Crypto, m: Manifest, priv: string)
    requires Sound(c)
    ensures Readies(c, m, priv, Prepared(c, m, priv))
  {
    hide Sound, KeyId;
  }

  /** Only one valid manifest is the given one made ready, if any is. */
  lemma ReadiesOne(c: Crypto, m: Manifest, priv: string, v: Manifest)
    requires Sound(c) && Readies(c, m, priv, v) && ValidManifest(v)
    ensures v == Prepared(c, m, priv)
  {
    StrictlyOrderedIsSorted(v.artifacts);
    LessIsWeakOrder();
    SortKeepsSorted(ArtifactLess, v.artifacts);
    SortIdentifies(ArtifactLess, v.artifacts, m.artifacts);
    hide Sound, KeyId, ValidManifest, Sort, Sorted, NoTies, ArtifactLess;
  }

  lemma {:induction false} PrintIsBytes(fs: seq<Field>, vs: seq<Value>)
    requires AllFit(fs, vs) && forall i | 0 <= i < |fs| :: IsBytes(fs[i].prefix)
    ensures IsBytes(Print(fs, vs))
  {
    if fs != [] {
      PrintIsBytes(fs[1..], vs[1..]);
      assert Fits(fs[0], vs[0]);
      if vs[0].NumberValue? {
        ValueOfDecimal(vs[0].number);
      }
    }
  }

  lemma {:induction false} ArtifactsAreBytes(s: seq<Artifact>)
    requires forall i | 0 <= i < |s| :: PlainArtifact(s[i])
    ensures IsBytes(PrintArtifacts(s))
  {
    if s != [] {
      PrintIsBytes(ARTIFACT, ArtifactValues(s[0]));
      ArtifactsAreBytes(s[1..]);
      hide Print, PlainArtifact;
    }
  }

  lemma BytesAppend(s: string, t: string)
    requires IsBytes(s) && IsBytes(t)
    ensures IsBytes(s + t)
  {
  }

  lemma PartsAreBytes(m: Manifest)
    requires PlainManifest(m)
    ensures AllFit(HEADER, HeaderValues(m)) && IsBytes(Print(HEADER, HeaderValues(m)))
      && IsBytes(PrintArtifacts(m.artifacts))
    ensures IsBytes(ARTIFACTS_OPEN) && IsBytes("]}")
  {
    hide Print, PrintArtifacts;
    PlainFits(m);
    PrefixesAreBytes();
    PrintIsBytes(HEADER, HeaderValues(m));
    hide AllFit, IsBytes;
    ArtifactsAreBytes(m.artifacts);
  }

  lemma PrefixesAreBytes()
    ensures forall i | 0 <= i < |HEADER| :: IsBytes(HEADER[i].prefix)
    ensures IsBytes(ARTIFACTS_OPEN) && IsBytes("]}")
  {
    forall i | 0 <= i < |HEADER| ensures IsBytes(HEADER[i].prefix) {
      PlainOrQuote(HEADER[i].prefix);
    }
    PlainOrQuote(ARTIFACTS_OPEN);
    PlainOrQuote("]}");
  }

  lemma PlainOrQuote(s: string)
    requires forall i | 0 <= i < |s| :: ' ' <= s[i] <= '~'
    ensures IsBytes(s)
  {
  }

  lemma PrintedIsBytes(m: Manifest)
    requires PlainManifest(m) && m.artifacts != []
    ensures IsBytes(PrintManifest(m))
  {
    hide Print, PrintArtifacts, PlainArtifact, AllFit, IsBytes, IsPlainText, HeaderValues;
    PartsAreBytes(m);
    var header, artifacts := Print(HEADER, HeaderValues(m)), PrintArtifacts(m.artifacts);
    BytesAppend(header, ARTIFACTS_OPEN);
    BytesAppend(header + ARTIFACTS_OPEN, artifacts);
    BytesAppend(header + ARTIFACTS_OPEN + artifacts, "]}");
  }

  lemma SignatureIsShort(c: Crypto, priv: string, bytes: string)
    requires Sound(c)
    ensures var signature := c.sign(priv, bytes);
      && Base64.Decode(Base64.Encode(signature)) == Some(signature)
      && IsPlainText(Base64.Encode(signature)) && |Base64.Encode(signature)| == 88
  {
    SoundSigns(c, priv, bytes);
    hide Sound, IsBytes, IsPlainText, Base64.Encode, Base64.Decode;
    EncodedSignature(c.sign(priv, bytes));
  }

  lemma EncodedSignature(s: string)
    requires IsBytes(s) && |s| == 64
    ensures Base64.Decode(Base64.Encode(s)) == Some(s) && IsPlainText(Base64.Encode(s)) && |Base64.Encode(s)| == 88
  {
    assert Base64.EncodedLength(64) == 88;
    hide *;
    Base64.EncodeDecodes(s);
    Base64IsPlain(Base64.Encode(s));
  }

  lemma Base64IsPlain(s: string)
    requires Base64.IsBase64(s)
    ensures IsPlainText(s)
  {
    forall i | 0 <= i < |s| ensures ' ' <= s[i] <= '~' && s[i] != '"' && s[i] != '\\' {
      assert s[i] == '=' || Base64.Sextet(s[i]).Some?;
    }
  }

  lemma ManifestFitsEnvelope(m: Manifest)
    requires ValidManifest(m)
    ensures PlainManifest(m) && IsBytes(Canonical(m))
    ensures var text := Base64.Encode(Canonical(m));
      Base64.Decode(text) == Some(Canonical(m)) && IsPlainText(text) && |text| <= 25_000
  {
    CanonicalIsSmall(m);
    PrintedIsBytes(m);
    Base64.EncodeDecodes(Canonical(m));
    Base64IsPlain(Base64.Encode(Canonical(m)));
    hide Canonical, PrintManifest, ValidManifest, PlainManifest, Base64.Encode, Base64.Decode;
  }

  lemma EnvelopeIsSmall(e: Envelope)
    requires PlainEnvelope(e) && e.format == ENVELOPE_FORMAT && |e.keyId| == 16 && |e.manifest| <= 25_000
      && |e.signature| == 88
    ensures |PrintEnvelope(e)| <= 26_000
  {
    var f, v := ENVELOPE, EnvelopeValues(e);
    assert Print(f, v) == PrintField(f[0], v[0]) + Print(f[1..], v[1..]);
    assert Print(f[1..], v[1..]) == PrintField(f[1], v[1]) + Print(f[1..][1..], v[1..][1..]);
    assert f[1..][1..] == f[2..] && v[1..][1..] == v[2..];
    assert Print(f[2..], v[2..]) == PrintField(f[2], v[2]) + Print(f[2..][1..], v[2..][1..]);
    assert f[2..][1..] == [f[3]] && v[2..][1..] == [v[3]];
    assert Print([f[3]], [v[3]]) == PrintField(f[3], v[3]) + "";
  }

  lemma SoundSigns(c: Crypto, priv: string, bytes: string)
    requires Sound(c)
    ensures IsBytes(c.sign(priv, bytes)) && |c.sign(priv, bytes)| == 64
  {
  }

  lemma SignedPartsArePlain(c: Crypto, m: Manifest, priv: string)
    requires Sound(c) && ValidManifest(m)
    ensures PlainManifest(m) && IsBytes(Canonical(m)) && IsBytes(c.sign(priv, SIGNING_DOMAIN + Canonical(m)))
    ensures IsPlainText(ENVELOPE_FORMAT) && IsPlainText(m.keyId) && IsPlainText(Base64.Encode(Canonical(m)))
    ensures IsPlainText(Base64.Encode(c.sign(priv, SIGNING_DOMAIN + Canonical(m))))
  {
    assert IsHexOf(m.keyId, 16);
    assert IsPlainText(ENVELOPE_FORMAT);
    hide ValidManifest, Canonical, PlainManifest, Base64.Encode, Base64.Decode, IsHexOf, IsPlainText, IsBytes;
    SoundSigns(c, priv, SIGNING_DOMAIN + Canonical(m));
    ManifestFitsEnvelope(m);
    SignatureIsShort(c, priv, SIGNING_DOMAIN + Canonical(m));
    HexIsPlain(m.keyId, 16);
  }

  function SignedEnvelope(c: Crypto, m: Manifest, priv: string): (e: Envelope)
    requires Sound(c) && ValidManifest(m)
    ensures PlainEnvelope(e)
  {
    SignedPartsArePlain(c, m, priv);
    Envelope(ENVELOPE_FORMAT, m.keyId, Base64.Encode(Canonical(m)),
      Base64.Encode(c.sign(priv, SIGNING_DOMAIN + Canonical(m))))
  }

  lemma HexIsPlain(s: string, n: nat)
    requires IsHexOf(s, n)
    ensures IsPlainText(s)
  {
  }

  /**
   * Signs the given manifest and no other, exactly when it is valid once made ready
   * with its artifacts in order. Nothing but a foreign version is unsupported.
   */
  method Sign(c: Crypto, m: Manifest, priv: string) returns (r: Result<(string, Verified), Code>)
    requires Sound(c)
    ensures r.Success? <==> exists v :: Readies(c, m, priv, v) && ValidManifest(v)
    ensures r.Failure? && (m.manifestVersion == 0 || m.manifestVersion == 1) ==> r.error == ManifestInvalid
    ensures m.manifestVersion > 1 ==> r == Failure(ManifestUnsupported)
    ensures r.Success? ==>
      var (envelope, v) := r.value;
      && Readies(c, m, priv, v.manifest) && ValidManifest(v.manifest) && v.keyId == KeyId(c, c.public(priv))
      && PlainManifest(v.manifest) && v.manifestBytes == Canonical(v.manifest) && v.digest == Digest(c, v.manifestBytes)
      && envelope == PrintEnvelope(SignedEnvelope(c, v.manifest, priv))
  {
    var prepared := m.(keyId := KeyId(c, c.public(priv)));
    if prepared.manifestVersion == 0 {
      prepared := prepared.(manifestVersion := MANIFEST_VERSION);
    }
    if prepared.product == "" {
      prepared := prepared.(product := PRODUCT);
    }
    prepared := prepared.(artifacts := Sort(ArtifactLess, prepared.artifacts));
    assert prepared == Prepared(c, m, priv);
    hide ValidManifest, Prepared, Canonical, PlainManifest, Sound;
    PreparedReadies(c, m, priv);
    var error := Validate(prepared);
    if error.Some? {
      forall v | Readies(c, m, priv, v) ensures !ValidManifest(v) {
        if ValidManifest(v) {
          ReadiesOne(c, m, priv, v);
        }
      }
      return Failure(error.value);
    }
    ManifestFitsEnvelope(prepared);
    CanonicalIsSmall(prepared);
    var bytes := Canonical(prepared);
    var e := SignedEnvelope(c, prepared, priv);
    return Success((PrintEnvelope(e), Verified(prepared, bytes, Digest(c, bytes), prepared.keyId)));
  }

  /** The checks of Verify, one by one. */
  lemma VerifyAccepts(
    c: Crypto, read: Reader, trust: map<string, string>, text: string, e: Envelope, bytes: string, signature: string,
      m: Manifest)
    requires Sound(c) && 0 < |text| <= MAX_ENVELOPE_BYTES && read(text) == Some(e) && e.format == ENVELOPE_FORMAT
    requires IsHexOf(e.keyId, 16) && e.keyId in trust
    requires Base64.Decode(e.manifest) == Some(bytes) && 0 < |bytes| <= MAX_MANIFEST_BYTES
    requires Base64.Decode(e.signature) == Some(signature) && |signature| == 64
    requires c.verify(trust[e.keyId], SIGNING_DOMAIN + bytes, signature)
    requires ParseManifest(bytes) == Success(m) && m.keyId == e.keyId
    ensures Verify(c, read, trust, text) == Success(Verified(m, bytes, Digest(c, bytes), e.keyId))
  {
    hide ParseManifest, Base64.Decode, Digest, Sound, IsHexOf;
  }

  /**
   * What Sign makes, Verify accepts, wherever the key is trusted: the same manifest,
   * the same bytes and digest, far inside both size limits.
   */
  lemma SignedVerifies(c: Crypto, read: Reader, trust: map<string, string>, m: Manifest, priv: string)
    requires Sound(c) && ReadsCanonical(read) && ValidManifest(m) && m.keyId == KeyId(c, c.public(priv))
    requires m.keyId in trust && trust[m.keyId] == c.public(priv)
    ensures PlainManifest(m) && |PrintEnvelope(SignedEnvelope(c, m, priv))| <= 26_000 && |Canonical(m)| <= 18_000
    ensures Verify(c, read, trust, PrintEnvelope(SignedEnvelope(c, m, priv))) ==
      Success(Verified(m, Canonical(m), Digest(c, Canonical(m)), m.keyId))
  {
    assert IsHexOf(m.keyId, 16) && |m.keyId| == 16;
    hide ValidManifest, Canonical, PlainManifest, ParseManifest, PrintEnvelope, Base64.Decode, Base64.Encode, Digest,
      KeyId,
      IsHexOf, PlainEnvelope, Verify;
    CanonicalIsSmall(m);
    ManifestFitsEnvelope(m);
    var signature := c.sign(priv, SIGNING_DOMAIN + Canonical(m));
    SignatureIsShort(c, priv, SIGNING_DOMAIN + Canonical(m));
    var e := SignedEnvelope(c, m, priv);
    EnvelopeIsSmall(e);
    EnvelopeIsNotEmpty(e);
    ParseManifestIff(Canonical(m), m);
    VerifyAccepts(c, read, trust, PrintEnvelope(e), e, Canonical(m), signature, m);
  }

  lemma EnvelopeIsNotEmpty(e: Envelope)
    requires PlainEnvelope(e)
    ensures |PrintEnvelope(e)| > 0
  {
    hide Print;
  }

  /**
   * Whatever Verify accepts is a valid manifest in its one encoding, signed under a
   * trusted key that the manifest itself names; so two accepted releases with the
   * same manifest have the same bytes and the same digest.
   */
  lemma VerifiedIsGenuine(c: Crypto, read: Reader, trust: map<string, string>, envelope: string)
    requires Sound(c) && Verify(c, read, trust, envelope).Success?
    ensures var v := Verify(c, read, trust, envelope).value;
      && ValidManifest(v.manifest) && PlainManifest(v.manifest) && v.manifestBytes == Canonical(v.manifest)
      && v.digest == Digest(c, Canonical(v.manifest)) && v.keyId == v.manifest.keyId && v.keyId in trust
      && exists signature :: c.verify(trust[v.keyId], SIGNING_DOMAIN + v.manifestBytes, signature)
  {
    hide ValidManifest, Canonical, PlainManifest, ParseManifest, Base64.Decode, Digest, Sound;
    var v := Verify(c, read, trust, envelope).value;
    ParseManifestIff(v.manifestBytes, v.manifest);
    var e := read(envelope).value;
    assert c.verify(trust[v.keyId], SIGNING_DOMAIN + v.manifestBytes, Base64.Decode(e.signature).value);
  }

  // ---- Installing ----

  datatype Decision = Install | AlreadyInstalled

  function CheckSequence(installedSequence: nat, installedDigest: string, v: Verified): Result<Decision, Code> {
    var sequence := v.manifest.releaseSequence;
    if sequence < installedSequence then Failure(DowngradeRejected)
    else if sequence == installedSequence then
      if installedDigest != ""
        && installedDigest != v.digest then Failure(ReleaseConflict) else Success(AlreadyInstalled)
    else if v.manifest.minInstalledSequence > installedSequence then Failure(Incompatible)
    else Success(Install)
  }

  /**
   * A device installs what is newer and whose required sequence it has reached; an
   * older release is a downgrade, and the same number stands for the same digest.
   */
  lemma SequenceDecides(installedSequence: nat, installedDigest: string, v: Verified)
    ensures var d, m := CheckSequence(installedSequence, installedDigest, v), v.manifest;
      && (d == Success(Install) <==> m.minInstalledSequence <= installedSequence < m.releaseSequence)
      && (d == Success(AlreadyInstalled) <==>
            m.releaseSequence == installedSequence && (installedDigest == "" || installedDigest == v.digest))
      && (d == Failure(DowngradeRejected) <==> m.releaseSequence < installedSequence)
      && (d == Failure(Incompatible) <==>
            installedSequence < m.releaseSequence && installedSequence < m.minInstalledSequence)
      && (d == Failure(ReleaseConflict) <==>
            m.releaseSequence == installedSequence && installedDigest != "" && installedDigest != v.digest)
  {
  }

  /** What a device has installed, in order, when it follows every decision. */
  function Installs(offers: seq<Verified>): seq<Verified> {
    if offers == [] then []
    else
      var before, offer := Installs(offers[..|offers| - 1]), offers[|offers| - 1];
      if CheckSequence(SequenceOf(before), DigestOf(before), offer) == Success(Install) then before
        + [offer] else before
  }

  function SequenceOf(installed: seq<Verified>): nat {
    if installed == [] then 0 else installed[|installed| - 1].manifest.releaseSequence
  }

  function DigestOf(installed: seq<Verified>): string {
    if installed == [] then "" else installed[|installed| - 1].digest
  }

  /** The release found the sequence it requires installed before it. */
  predicate Follows(s: seq<Verified>, i: nat)
    requires i < |s|
  {
    s[i].manifest.minInstalledSequence <= SequenceOf(s[..i]) < s[i].manifest.releaseSequence
  }

  ghost predicate Forward(s: seq<Verified>) {
    && (forall i | 0 <= i < |s| :: Follows(s, i))
    && (forall i | 0 <= i < |s| :: 0 < s[i].manifest.releaseSequence <= SequenceOf(s))
    && (forall i, j | 0 <= i < j < |s| :: s[i].manifest.releaseSequence < s[j].manifest.releaseSequence)
  }

  lemma ForwardOneMore(s: seq<Verified>, v: Verified)
    requires Forward(s) && v.manifest.minInstalledSequence <= SequenceOf(s) < v.manifest.releaseSequence
    ensures Forward(s + [v])
  {
    var t := s + [v];
    forall i | 0 <= i < |t| ensures Follows(t, i) {
      assert t[..i] == s[..i];
      if i < |s| {
        assert Follows(s, i);
      } else {
        assert s[..i] == s;
      }
    }
  }

  /** Over every run of offers the installed sequence grows strictly, and each release found what it requires. */
  lemma {:induction false} InstallsOnlyForward(offers: seq<Verified>)
    ensures Forward(Installs(offers))
  {
    if offers != [] {
      InstallsOnlyForward(offers[..|offers| - 1]);
      var before, offer := Installs(offers[..|offers| - 1]), offers[|offers| - 1];
      hide Forward;
      if CheckSequence(SequenceOf(before), DigestOf(before), offer) == Success(Install) {
        ForwardOneMore(before, offer);
      }
    }
  }

  /** A release is installed at most once, and a different release never takes its sequence number. */
  lemma SequenceNamesOneRelease(offers: seq<Verified>, i: nat, j: nat)
    requires i < |Installs(offers)| && j < |Installs(offers)|
    requires Installs(offers)[i].manifest.releaseSequence == Installs(offers)[j].manifest.releaseSequence
    ensures i == j
  {
    InstallsOnlyForward(offers);
  }

  /** An offer is installed exactly when it is newer than what is there and finds the sequence it requires. */
  lemma InstallsExactly(offers: seq<Verified>, v: Verified)
    ensures var s, m := Installs(offers), v.manifest;
      Installs(offers + [v]) ==
        if SequenceOf(s) < m.releaseSequence && m.minInstalledSequence <= SequenceOf(s) then s + [v] else s
  {
    assert (offers + [v])[..|offers|] == offers;
  }

  lemma InstalledIsOld(offers: seq<Verified>, v: Verified)
    requires v in Installs(offers)
    ensures v.manifest.releaseSequence <= SequenceOf(Installs(offers))
  {
    InstallsOnlyForward(offers);
  }

  /** Offering again, in any order and number, what was once installed, or anything else as old, changes nothing. */
  lemma {:induction false} ReplayIsHarmless(offers: seq<Verified>, more: seq<Verified>)
    requires forall v | v in more :: v in Installs(offers) || v.manifest.releaseSequence <= SequenceOf(Installs(offers))
    ensures Installs(offers + more) == Installs(offers)
    decreases |more|
  {
    hide Installs;
    if more == [] {
      assert offers + more == offers;
    } else {
      var k := |more| - 1;
      ReplayIsHarmless(offers, more[..k]);
      assert more[k] in more;
      if more[k] in Installs(offers) {
        InstalledIsOld(offers, more[k]);
      }
      InstallsExactly(offers + more[..k], more[k]);
      assert offers + more == offers + more[..k] + [more[k]];
    }
  }

  /**
   * In every run, an offer with the sequence number of an installed release is
   * answered as a downgrade if a later one was installed since, and else as
   * installed exactly for the digest of that release.
   */
  lemma ReplayIsAnswered(offers: seq<Verified>, i: nat, v: Verified)
    requires i < |Installs(offers)| && v.manifest.releaseSequence == Installs(offers)[i].manifest.releaseSequence
    requires DigestOf(Installs(offers)) != ""
    ensures var s := Installs(offers);
      CheckSequence(SequenceOf(s), DigestOf(s), v) ==
        if i < |s| - 1 then Failure(DowngradeRejected)
        else if v.digest == s[i].digest then Success(AlreadyInstalled)
        else Failure(ReleaseConflict)
  {
    hide Installs;
    InstallsOnlyForward(offers);
  }
}
