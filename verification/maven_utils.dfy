/** Constants and dependency/plugin predicates of `project/utils/MavenUtils.java`.

  The two members of that class that consult the test-parent skeleton
  (`isTestModuleProperty` and `finalizePom`) live in `TestModuleProperties`
  and `PomFinalizer`, after `ParentProject`, because Dafny modules cannot
  import each other in a cycle the way the Java classes do.
*/
module MavenUtils {
  import opened Wrappers
  import opened Text
  import opened Seqs
  import opened Pom

  const QUARKUS_COMMUNITY_VERSION := "community.quarkus.version"
  const QUARKUS_CORE_BOM_VERSION := "core.quarkus.version"
  const QUARKUS_PLATFORM_VERSION := "quarkus.platform.version"
  const QUARKUS_PLATFORM_GROUP_ID := "quarkus.platform.group-id"
  const TEST_PARENT_GROUP_ID := "io.quarkus.qe.tests"
  const POM := "pom"
  const TEST_SCOPE := "test"
  const COMPILE_SCOPE := "compile"
  const ANY := "*"
  const JAR := "jar"
  const TEST_JAR := "test-jar"
  const THIS_PROJECT_VERSION := "project.version"
  const CENTRAL_REPOSITORY_ID := "central"

  /** `${core.quarkus.version}`: the version recorded in the extraction summary for core-BOM placeholders. */
  const QUARKUS_CORE_BOM_VERSION_REF := "${" + QUARKUS_CORE_BOM_VERSION + "}"
  const QUARKUS_COMMUNITY_VERSION_REF := "${" + QUARKUS_COMMUNITY_VERSION + "}"

  /** The deferred-property marker: `$USE-EXTRACTED-PROPERTIES{name}` survives the
      model serializer and becomes `${name}` when the POM is finalized. */
  const EXTRACTED_PROPERTY_PREFIX := "$USE-EXTRACTED-PROPERTIES{"
  const PROPERTY_START := "${"

  function ExtractedProperty(name: string): string {
    EXTRACTED_PROPERTY_PREFIX + name + "}"
  }

  const COMMUNITY_DEPENDENCIES: set<string> :=
    {"quarkus-grpc-protoc-plugin", "quarkus-extension-processor", "quarkus-test-grpc"}

  /** Properties never copied because they are noise of the effective model. */
  const IGNORED_PROPERTIES: set<string> := {
    "docker-prune.location", "revapi.buildFailureMessage", "project.build.outputTimestamp",
    "revapi.reportSeverity", "volume.access.modifier", "os.detected.name", "os.detected.arch",
    "os.detected.bitness", "os.detected.classifier", "os.detected.version",
    "os.detected.version.major", "os.detected.version.minor", "os.detected.release",
    "os.detected.release.version", "os.detected.release.like.fedora", "jdk.min.version",
    "minimum-java-version", "native.surefire.skip", "impsort.skip", "gpg.skip",
    "maven.deploy.skip", "maven.compiler.argument.testTarget", "maven.compiler.release",
    "maven.compiler.source", "maven.compiler.testSource", "maven.compiler.argument.target",
    "maven.compiler.target", "maven.compiler.argument.testSource",
    "maven.compiler.argument.source", "maven.compiler.testTarget",
    "failsafe.argLine.additional", "develocity.pts.active", "revapi.newVersion"
  }

  predicate IsNotIgnoredProperty(propertyName: string) {
    propertyName !in IGNORED_PROPERTIES
  }

  /** `$USE-EXTRACTED-PROPERTIES{project.version}` */
  function ThisProjectVersion(): string {
    ExtractedProperty(THIS_PROJECT_VERSION)
  }

  function CoreBomVersionPlaceholder(): string {
    ExtractedProperty(QUARKUS_CORE_BOM_VERSION)
  }

  function CommunityVersionPlaceholder(): string {
    ExtractedProperty(QUARKUS_COMMUNITY_VERSION)
  }

  function SetQuarkusCoreBomVersion(d: Dependency): Dependency {
    d.(version := Some(CoreBomVersionPlaceholder()))
  }

  function SetQuarkusCommunityVersion(d: Dependency): Dependency {
    d.(version := Some(CommunityVersionPlaceholder()))
  }

  /** Java's string conversion of a possibly-null reference. */
  function OrNull(s: Option<string>): string {
    s.GetOr("null")
  }

  /** Maven's `Dependency.getManagementKey()`: groupId:artifactId:type[:classifier]. */
  function FullManagementKey(d: Dependency): string {
    OrNull(d.groupId) + ":" + d.artifactId + ":" + d.dependencyType
    + (if d.classifier.Some? then ":" + d.classifier.value else "")
  }

  lemma {:induction false} LastColon(x: string, tail: string)
    requires ':' !in tail
    ensures LastIndexOfChar(x + ":" + tail, ':') == |x|
    decreases |tail|
  {
    var s := x + ":" + tail;
    if tail == [] {
      assert s[|s| - 1] == ':';
    } else {
      assert s[|s| - 1] == tail[|tail| - 1];
      assert s[..|s| - 1] == x + ":" + tail[..|tail| - 1];
      LastColon(x, tail[..|tail| - 1]);
    }
  }

  lemma FullManagementKeyHasColon(d: Dependency)
    ensures ':' in FullManagementKey(d)
  {
    assert FullManagementKey(d)[|OrNull(d.groupId)|] == ':';
  }

  lemma FullManagementKeyWithoutClassifier(d: Dependency)
    requires d.classifier.None? && ':' !in d.dependencyType
    ensures var k := OrNull(d.groupId) + ":" + d.artifactId;
      LastIndexOfChar(FullManagementKey(d), ':') == |k| && FullManagementKey(d)[..|k|] == k
  {
    var k := OrNull(d.groupId) + ":" + d.artifactId;
    assert FullManagementKey(d) == k + ":" + d.dependencyType;
    LastColon(k, d.dependencyType);
  }

  lemma FullManagementKeyWithClassifier(d: Dependency)
    requires d.classifier.Some? && ':' !in d.classifier.value
    ensures var k := OrNull(d.groupId) + ":" + d.artifactId + ":" + d.dependencyType;
      LastIndexOfChar(FullManagementKey(d), ':') == |k| && FullManagementKey(d)[..|k|] == k
  {
    var k := OrNull(d.groupId) + ":" + d.artifactId + ":" + d.dependencyType;
    assert FullManagementKey(d) == k + ":" + d.classifier.value;
    LastColon(k, d.classifier.value);
  }

  /** The management key with its last segment dropped, so that "jar" and
      "test-jar" dependencies on the same artifact compare equal. */
  function ManagementKey(d: Dependency): (k: string)
    ensures d.classifier.None? && ':' !in d.dependencyType ==> k == OrNull(d.groupId) + ":" + d.artifactId
    ensures d.classifier.Some? && ':' !in d.classifier.value
            ==> k == OrNull(d.groupId) + ":" + d.artifactId + ":" + d.dependencyType
  {
    var full := FullManagementKey(d);
    FullManagementKeyHasColon(d);
    if d.classifier.None? && ':' !in d.dependencyType then
      FullManagementKeyWithoutClassifier(d);
      full[..LastIndexOfChar(full, ':')]
    else if d.classifier.Some? && ':' !in d.classifier.value then
      FullManagementKeyWithClassifier(d);
      full[..LastIndexOfChar(full, ':')]
    else
      full[..LastIndexOfChar(full, ':')]
  }

  predicate IsTestJar(d: Dependency) {
    EqualsIgnoreCase(TEST_JAR, d.dependencyType)
  }

  /** Reads the dependency TYPE, not its scope. */
  predicate HasTestScope(d: Dependency) {
    EqualsIgnoreCase(TEST_SCOPE, d.dependencyType)
  }

  predicate IsPomPackageType(d: Dependency) {
    EqualsIgnoreCase(POM, d.dependencyType)
  }

  predicate HasThisProjectVersion(d: Dependency) {
    d.version.Some? && Contains(d.version.value, THIS_PROJECT_VERSION)
  }

  /** One "../" per directory level of the target path, so the parent POM at the
      root of the generated project is reached. */
  function ComputeRelativePath(targetRelativePath: string): (r: string)
    ensures |r| == 3 * (CountChar(targetRelativePath, '/') + 1)
    ensures CountChar(r, '/') == CountChar(targetRelativePath, '/') + 1
    ensures forall i :: 0 <= i < CountChar(targetRelativePath, '/') + 1 ==> r[3 * i..3 * i + 3] == "../"
  {
    var n := CountChar(targetRelativePath, '/') + 1;
    RepeatParent(n);
    Repeat("../", n)
  }

  lemma {:induction false} RepeatParent(n: nat)
    ensures |Repeat("../", n)| == 3 * n
    ensures CountChar(Repeat("../", n), '/') == n
    ensures forall i :: 0 <= i < n ==> Repeat("../", n)[3 * i..3 * i + 3] == "../"
  {
    if n > 0 {
      RepeatParent(n - 1);
      var rest := Repeat("../", n - 1);
      CountCharAppend("../", rest, '/');
      forall i | 0 <= i < n ensures Repeat("../", n)[3 * i..3 * i + 3] == "../" {
        if i > 0 {
          assert Repeat("../", n)[3 * i..3 * i + 3] == rest[3 * (i - 1)..3 * (i - 1) + 3];
        }
      }
    }
  }

  predicate IsNotCentralRepository(r: Repository) {
    !(r.id.Some? && EqualsIgnoreCase(CENTRAL_REPOSITORY_ID, r.id.value))
  }

  predicate IsNotSurefireOrFailsafePlugin(artifactId: string) {
    !EqualsIgnoreCase("maven-failsafe-plugin", artifactId)
    && !EqualsIgnoreCase("maven-surefire-plugin", artifactId)
  }

  /** No packaging means Maven's default, "jar". */
  predicate HasJarPackaging(packaging: Option<string>) {
    packaging.None? || EqualsIgnoreCase(JAR, packaging.value)
  }

  /** Virtual-thread tests run only on Java 21, in profiles with this postfix. */
  function GetProfilePostfix(targetRelativePath: string): string {
    if Contains(targetRelativePath, "integration-tests/virtual-threads") then "-21" else ""
  }

  /** The first profile whose id equals `x` ignoring case. */
  function GetProfile(profiles: seq<Profile>, x: string): (r: Option<nat>)
    ensures r.None? <==> forall i :: 0 <= i < |profiles| ==> !EqualsIgnoreCase(x, profiles[i].id)
    ensures r.Some? ==> r.value < |profiles| && EqualsIgnoreCase(x, profiles[r.value].id)
    ensures r.Some? ==> forall j :: 0 <= j < r.value ==> !EqualsIgnoreCase(x, profiles[j].id)
  {
    FirstIndex(profiles, (p: Profile) => EqualsIgnoreCase(x, p.id))
  }

  /** Step 1 of POM finalization: every marker prefix becomes `${`. */
  function ReplaceExtractedPropertyPrefix(content: string): (r: string)
    ensures !Contains(content, EXTRACTED_PROPERTY_PREFIX) ==> r == content
  {
    NoMarkerNoChange(content);
    ReplaceAll(content, EXTRACTED_PROPERTY_PREFIX, PROPERTY_START)
  }

  lemma NoMarkerNoChange(content: string)
    ensures !Contains(content, EXTRACTED_PROPERTY_PREFIX)
            ==> ReplaceAll(content, EXTRACTED_PROPERTY_PREFIX, PROPERTY_START) == content
  {
    if !Contains(content, EXTRACTED_PROPERTY_PREFIX) {
      ReplaceAllAbsent(content, EXTRACTED_PROPERTY_PREFIX, PROPERTY_START);
    }
  }

  /** The marker rewrite loses nothing: in text that had no `${` of its own,
      turning every `${` back into the marker restores the original. */
  lemma {:induction false} ReplaceExtractedPropertyPrefixIsReversible(s: string)
    requires !Contains(s, PROPERTY_START)
    ensures ReplaceAll(ReplaceExtractedPropertyPrefix(s), PROPERTY_START, EXTRACTED_PROPERTY_PREFIX) == s
    decreases |s|
  {
    var P, S := EXTRACTED_PROPERTY_PREFIX, PROPERTY_START;
    if s == [] {
    } else if StartsWith(s, P) {
      var rest := s[|P|..];
      assert s[..|P|] + rest == s;
      ContainsPrepend(s[..|P|], rest, S);
      ReplaceExtractedPropertyPrefixIsReversible(rest);
      var x := ReplaceAll(rest, P, S);
      assert ReplaceAll(s, P, S) == S + x;
      assert (S + x)[..|S|] == S && (S + x)[|S|..] == x;
      assert ReplaceAll(S + x, S, P) == P + ReplaceAll(x, S, P);
      assert P + rest == s;
    } else {
      var rest := s[1..];
      assert !Contains(rest, S);
      ReplaceExtractedPropertyPrefixIsReversible(rest);
      var x := ReplaceAll(rest, P, S);
      assert ReplaceAll(s, P, S) == [s[0]] + x;
      FirstOfReplacement(rest);
      assert !StartsWith([s[0]] + x, S);
      assert ([s[0]] + x)[1..] == x;
      assert [s[0]] + rest == s;
    }
  }

  lemma FirstOfReplacement(t: string)
    ensures t == [] <==> ReplaceAll(t, EXTRACTED_PROPERTY_PREFIX, PROPERTY_START) == []
    ensures t != [] ==> ReplaceAll(t, EXTRACTED_PROPERTY_PREFIX, PROPERTY_START)[0]
                        == (if StartsWith(t, EXTRACTED_PROPERTY_PREFIX) then '$' else t[0])
  {
  }

  /** `toDependency(line, previousLine)`: reads an artifactId (and the groupId on
      the line before) from a serialized POM line. The text is taken after
      dropping as many characters as the tag has from the trimmed line, up to
      the next '<'; a missing '<' raises `StringIndexOutOfBoundsException`. */
  function ToDependency(line: Option<string>, previousLine: Option<string>): Result<Option<Dependency>> {
    if line.None? || !Contains(line.value, "<artifactId>") then Success(None)
    else
      var artifactId :- ElementText(line.value, |"<artifactId>"|);
      if previousLine.Some? && Contains(previousLine.value, "<groupId>") then
        var groupId :- ElementText(previousLine.value, |"<groupId>"|);
        Success(Some(NewDependency(Some(groupId), artifactId)))
      else
        Success(Some(NewDependency(None, artifactId)))
  }

  /** `line.trim().substring(tagLength)` up to its first '<'. */
  function ElementText(line: string, tagLength: nat): Result<string> {
    var trimmed := Trim(line);
    if |trimmed| < tagLength then Failure(IndexOutOfBounds("begin " + "tag length, length too short"))
    else
      var rest := trimmed[tagLength..];
      var end := IndexOfChar(rest, '<');
      if end < 0 then Failure(IndexOutOfBounds("begin 0, end -1"))
      else Success(rest[..end])
  }

  predicate AllTrimSpace(s: string) {
    forall i :: 0 <= i < |s| ==> IsTrimSpace(s[i])
  }

  lemma {:induction false} TrimStartSkipsIndent(indent: string, x: string)
    requires AllTrimSpace(indent)
    ensures TrimStart(indent + x) == TrimStart(x)
    decreases |indent|
  {
    if indent != [] {
      assert (indent + x)[0] == indent[0];
      assert (indent + x)[1..] == indent[1..] + x;
      TrimStartSkipsIndent(indent[1..], x);
    } else {
      assert indent + x == x;
    }
  }

  lemma TrimOfIndentedLine(indent: string, body: string)
    requires AllTrimSpace(indent)
    requires body != [] && !IsTrimSpace(body[0]) && !IsTrimSpace(body[|body| - 1])
    ensures Trim(indent + body) == body
  {
    TrimStartSkipsIndent(indent, body);
    assert TrimStart(body) == body;
  }

  lemma IndexOfElementEnd(value: string, closing: string)
    requires '<' !in value
    requires closing != [] && closing[0] == '<'
    ensures IndexOfChar(value + closing, '<') == |value|
  {
    var rest := value + closing;
    assert rest[|value|] == '<';
    var end := IndexOfChar(rest, '<');
    assert forall j :: 0 <= j < |value| ==> rest[j] == value[j];
  }

  lemma IndentedBodyTrims(indent: string, tag: string, value: string, closing: string)
    requires AllTrimSpace(indent)
    requires tag != [] && !IsTrimSpace(tag[0])
    requires closing != [] && !IsTrimSpace(closing[|closing| - 1])
    ensures Trim(indent + tag + value + closing) == tag + value + closing
  {
    var body := tag + value + closing;
    assert indent + tag + value + closing == indent + body;
    assert body[0] == tag[0];
    assert body[|body| - 1] == closing[|closing| - 1];
    TrimOfIndentedLine(indent, body);
  }

  lemma DropFirst<T>(a: seq<T>, b: seq<T>, c: seq<T>)
    ensures (a + b + c)[|a|..] == b + c
  {
  }

  /** `ElementText` of a line whose trimmed text is the tag followed by the
      value and the closing tag. */
  lemma ElementTextOfBody(line: string, tagLength: nat, value: string, closing: string)
    requires |Trim(line)| >= tagLength && Trim(line)[tagLength..] == value + closing
    requires IndexOfChar(value + closing, '<') == |value|
    ensures ElementText(line, tagLength) == Success(value)
  {
    assert (value + closing)[..|value|] == value;
  }

  /** For an element written on its own indented line, the text read back is the element's value. */
  lemma ElementTextOfElementLine(indent: string, tag: string, value: string, closing: string)
    requires AllTrimSpace(indent)
    requires tag != [] && !IsTrimSpace(tag[0])
    requires '<' !in value
    requires closing != [] && closing[0] == '<' && !IsTrimSpace(closing[|closing| - 1])
    ensures ElementText(indent + tag + value + closing, |tag|) == Success(value)
  {
    IndentedBodyTrims(indent, tag, value, closing);
    DropFirst(tag, value, closing);
    IndexOfElementEnd(value, closing);
    ElementTextOfBody(indent + tag + value + closing, |tag|, value, closing);
  }

}
