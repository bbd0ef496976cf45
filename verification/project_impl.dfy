/** `project/builder/ProjectImpl.java`: how one module of the Quarkus repository
    is turned into a test project — which dependencies it keeps, which versions
    they get, its dependency management, repositories, name and properties.

  A Maven project is the `MavenProject` record below; the stores and the shared
  state the Java code reaches through static helpers are the `Context`. Every
  operation that reports to the extraction summary returns the reported
  events next to its value, in the order the Java code reports them.
*/
module ProjectImpl {
  import opened Wrappers
  import opened Text
  import opened Seqs
  import opened Pom
  import opened MavenUtils
  import PluginUtils
  import FileSystemStorage
  import QuarkusBom
  import CoreExtensions
  import IntegrationTestModules
  import QuarkusParentPom
  import QuarkusBuildParent
  import KnownTestJars
  import QuarkusTestFramework
  import ProductizedNotManagedDependencies
  import ParentProject
  import TestModuleProperties
  import ExtractionSummary

  type Event = ExtractionSummary.Event

  /** Helpers the extraction calls whose definitions are not part of this
      model: `hasEmptyVersion`, the version `setQuarkusPlatformVersion`
      writes, and `PluginUtils.isQuarkusMavenPlugin(artifactId, groupId)`. */
  datatype Collaborators = Collaborators(
    hasEmptyVersion: Dependency -> bool,
    quarkusPlatformVersion: string,
    isQuarkusMavenPlugin: (string, string) -> bool)

  /** The state the extraction has built before this module is visited: the
      test-parent POM, the Quarkus BOM's management keys, the metadata store
      (core extensions, integration-test modules), the plugin versions of
      `quarkus-parent` and the keys managed by `quarkus-build-parent`. */
  datatype Context = Context(
    parent: Model,
    bomKeys: set<string>,
    files: FileSystemStorage.Files,
    parentPom: QuarkusParentPom.PluginVersions,
    buildParentKeys: set<string>,
    collaborators: Collaborators)

  /** What the extraction reads from a Maven project: its coordinates, its
      location relative to the repository root and in the generated project,
      its original (declared) model and the effective values Maven resolved. */
  datatype MavenProject = MavenProject(
    groupId: Option<string>,
    artifactId: string,
    version: string,
    name: string,
    packaging: Option<string>,
    relativePath: string,
    targetRelativePath: string,
    containsTests: bool,
    originalModel: Model,
    resolvedDependencies: seq<Dependency>,
    dependencyManagement: Option<seq<Dependency>>,
    buildPlugins: seq<Plugin>,
    pluginManagement: Option<seq<Plugin>>,
    repositories: seq<Repository>,
    pluginRepositories: seq<Repository>,
    properties: Option<map<string, string>>)

  /** A value together with what was reported to the extraction summary while computing it. */
  datatype Outcome<+T> = Outcome(value: T, events: seq<Event>)

  // ---------------------------------------------------------------- module kind

  predicate IsExtensionTestModule(p: MavenProject) {
    PluginUtils.IsExtensionTestModule(p.relativePath)
  }

  /** An extension module whose dependencies are rewritten for a deployment test
      module; supplementary modules are treated like integration tests. */
  predicate IsExtensionDeploymentTests(p: MavenProject) {
    IsExtensionTestModule(p) && !PluginUtils.IsExtensionsSupplementaryModule(p.relativePath)
  }

  predicate IsIntegrationTestModule(p: MavenProject) {
    StartsWith(p.relativePath, PluginUtils.INTEGRATION_TESTS + "/")
  }

  /** Extension modules are test modules when they contain tests; every
      integration-test module is one. */
  function IsTestModule(p: MavenProject): (r: bool)
  {
    if IsExtensionTestModule(p) then p.containsTests else IsIntegrationTestModule(p)
  }

  /** Extension modules always sit directly under the generated parent;
      integration-test modules only when the stored list names them. */
  function IsDirectSubModule(ctx: Context, p: MavenProject): (r: Result<bool>)
  {
    if IsExtensionTestModule(p) then Success(true)
    else IntegrationTestModules.IsDirectItModule(ctx.files, p.relativePath)
  }

  /** A deployment module is named after its runtime extension. */
  function Name(p: MavenProject): (r: string)
    ensures IsExtensionDeploymentTests(p) ==> StartsWith(Trim(p.name), r)
    ensures IsExtensionDeploymentTests(p) && EndsWith(Trim(p.name), PluginUtils.DEPLOYMENT_POSTFIX)
      ==> r + PluginUtils.DEPLOYMENT_POSTFIX == Trim(p.name)
    ensures !IsExtensionDeploymentTests(p) ==> r == p.name
  {
    if IsExtensionDeploymentTests(p) then PluginUtils.DropDeploymentPostfix(p.name) else p.name
  }

  /** Extension modules go to the "extensions" profile, all others to an
      "integration-tests" profile (the Java 21 one for virtual-thread tests). */
  function TargetProfileName(p: MavenProject): (r: string)
    ensures StartsWith(p.relativePath, PluginUtils.EXTENSIONS) ==> r == PluginUtils.EXTENSIONS
    ensures !StartsWith(p.relativePath, PluginUtils.EXTENSIONS) ==>
      StartsWith(r, PluginUtils.INTEGRATION_TESTS)
      && (r == PluginUtils.INTEGRATION_TESTS + "-21" <==> Contains(p.targetRelativePath, "integration-tests/virtual-threads"))
  {
    if StartsWith(p.relativePath, PluginUtils.EXTENSIONS) then PluginUtils.EXTENSIONS
    else
      var r := PluginUtils.INTEGRATION_TESTS + GetProfilePostfix(p.targetRelativePath);
      assert r[..|PluginUtils.INTEGRATION_TESTS|] == PluginUtils.INTEGRATION_TESTS;
      r
  }

  // ---------------------------------------------------------------- properties

  /** A test module keeps the properties the parent does not already define with
      the same value and that are not ignored; any other project keeps them all
      (they are copied once to the parent). A missing map gives an empty one. */
  function GetProperties(parent: Model, properties: Option<map<string, string>>, isTestModule: bool)
    : (r: map<string, string>)
    ensures properties.None? ==> r == map[]
    ensures properties.Some? && !isTestModule ==> r == properties.value
    ensures properties.Some? && isTestModule ==>
      (forall k :: k in r <==> k in properties.value && TestModuleProperties.IsTestModuleProperty(parent, k, properties.value[k]))
      && forall k :: k in r ==> r[k] == properties.value[k]
  {
    if properties.Some? && isTestModule then
      map k | k in properties.value && TestModuleProperties.IsTestModuleProperty(parent, k, properties.value[k])
        :: properties.value[k]
    else if properties.Some? then properties.value
    else map[]
  }

  /** What a test module keeps never repeats a parent property or an ignored one. */
  lemma TestModulePropertiesAreOwn(parent: Model, properties: map<string, string>, k: string)
    requires k in GetProperties(parent, Some(properties), true)
    ensures k !in parent.properties || parent.properties[k] != properties[k]
    ensures k !in IGNORED_PROPERTIES
  {
  }

  function Properties(ctx: Context, p: MavenProject): map<string, string> {
    GetProperties(ctx.parent, p.properties, IsTestModule(p))
  }

  // ---------------------------------------------------------------- dependency predicates

  /** `getVersion() == null || getVersion().isEmpty()` */
  predicate HasNoVersion(d: Dependency) {
    d.version.None? || d.version.value == ""
  }

  /** A Quarkus artifact ("quarkus-…" or "io.quarkus…") declared without a
      version, with a `project.version` reference, or with this module's version. */
  predicate IsQuarkusOwnDependency(d: Dependency, projectVersion: string) {
    (StartsWith(d.artifactId, "quarkus-") || StartsWith(d.artifactId, "io.quarkus"))
    && (HasNoVersion(d) || HasThisProjectVersion(d) || EqualsIgnoreCase(projectVersion, d.version.value))
  }

  /** A Quarkus-own dependency excluding everything (`*:*`) that is in test
      "scope" — or any such dependency of an extension deployment module. */
  predicate IsQuarkusTestScopeDepWithExclusions(p: MavenProject, d: Dependency) {
    (HasTestScope(d) || IsExtensionDeploymentTests(p))
    && IsQuarkusOwnDependency(d, p.version)
    && |d.exclusions| == 1
    && d.exclusions[0].groupId.Some? && EqualsIgnoreCase(ANY, d.exclusions[0].groupId.value)
    && d.exclusions[0].artifactId.Some? && EqualsIgnoreCase(ANY, d.exclusions[0].artifactId.value)
  }

  /** Only there to order the reactor build: a POM-typed Quarkus dependency excluding everything. */
  predicate IsBuildOrderingDependency(p: MavenProject, d: Dependency) {
    IsQuarkusTestScopeDepWithExclusions(p, d) && IsPomPackageType(d)
  }

  /** `org.bouncycastle:bctls-jdk18on` is in the Quarkus BOM but not in the product's platform BOM. */
  predicate IsManagedByQuarkusBomButNotProductPlatformBom(d: Dependency) {
    d.groupId.Some? && EqualsIgnoreCase("org.bouncycastle", d.groupId.value)
    && EqualsIgnoreCase("bctls-jdk18on", d.artifactId)
  }

  /** No declared deployment dependency is the deployment artifact of `d`
      (the declared list is read as it is when the check runs). */
  predicate NotAccompaniedWithDeploymentDep(declared: seq<Dependency>, d: Dependency) {
    forall i :: 0 <= i < |declared| && StartsWith(declared[i].artifactId, d.artifactId)
      && PluginUtils.IsDeploymentArtifact(Some(declared[i].artifactId))
      ==> !EqualsIgnoreCase(d.artifactId, PluginUtils.DropDeploymentPostfix(declared[i].artifactId))
  }

  /** Declaring `x` next to `x-deployment` is evidence that `x` is managed. */
  lemma DeploymentDependencyAccompanies(declared: seq<Dependency>, d: Dependency)
    requires IsTrimmed(d.artifactId)
    requires exists i :: 0 <= i < |declared| && declared[i].artifactId == d.artifactId + PluginUtils.DEPLOYMENT_POSTFIX
    ensures !NotAccompaniedWithDeploymentDep(declared, d)
  {
  }

  // ---------------------------------------------------------------- version resolution

  /** A resolved dependency that can lend its version to `d`. */
  predicate LendsVersion(d: Dependency, resolved: Dependency) {
    resolved.version.Some? && EqualsIgnoreCase(ManagementKey(d), ManagementKey(resolved))
  }

  /** The version of the first resolved dependency with a version and the same
      management key, ignoring case. */
  function FindDependencyVersion(p: MavenProject, d: Dependency): (r: Option<string>)
    ensures r.None? <==> forall i :: 0 <= i < |p.resolvedDependencies| ==> !LendsVersion(d, p.resolvedDependencies[i])
    ensures r.Some? ==> exists i :: (0 <= i < |p.resolvedDependencies|
                                     && LendsVersion(d, p.resolvedDependencies[i]) && p.resolvedDependencies[i].version == r
                                     && forall j :: 0 <= j < i ==> !LendsVersion(d, p.resolvedDependencies[j]))
  {
    match FirstIndex(p.resolvedDependencies, (x: Dependency) => LendsVersion(d, x))
    case None => None
    case Some(i) => p.resolvedDependencies[i].version
  }

  /** What an unmanaged dependency's version becomes. */
  datatype VersionDecision = CommunityVersion | CoreBomVersion | ResolvedVersion(version: string)

  /** The first matching rule wins: test-framework artifacts and the community
      list take the community version, productized-but-unmanaged artifacts and
      artifacts Maven did not resolve the core-BOM version; a resolved version
      equal to this module's own version means the community version, any other
      is pinned. */
  function DecideVersion(p: MavenProject, d: Dependency): (r: VersionDecision)
    ensures QuarkusTestFramework.IsTestFrameworkDependency(d) ==> r == CommunityVersion
    ensures (!QuarkusTestFramework.IsTestFrameworkDependency(d)
             && ProductizedNotManagedDependencies.IsProductizedButNotManaged(d)) ==> r == CoreBomVersion
    ensures r.ResolvedVersion? ==> (FindDependencyVersion(p, d) == Some(r.version)
                                    && !EqualsIgnoreCase(r.version, p.version))
    ensures r.ResolvedVersion? <==>
      !QuarkusTestFramework.IsTestFrameworkDependency(d)
      && !ProductizedNotManagedDependencies.IsProductizedButNotManaged(d)
      && d.artifactId !in COMMUNITY_DEPENDENCIES
      && FindDependencyVersion(p, d).Some? && !EqualsIgnoreCase(FindDependencyVersion(p, d).value, p.version)
    ensures r == CoreBomVersion <==>
      !QuarkusTestFramework.IsTestFrameworkDependency(d)
      && (ProductizedNotManagedDependencies.IsProductizedButNotManaged(d)
          || (d.artifactId !in COMMUNITY_DEPENDENCIES && FindDependencyVersion(p, d).None?))
  {
    var actual := FindDependencyVersion(p, d);
    if QuarkusTestFramework.IsTestFrameworkDependency(d) then CommunityVersion
    else if ProductizedNotManagedDependencies.IsProductizedButNotManaged(d) then CoreBomVersion
    else if d.artifactId in COMMUNITY_DEPENDENCIES then CommunityVersion
    else if actual.None? then CoreBomVersion
    else if EqualsIgnoreCase(actual.value, p.version) then CommunityVersion
    else ResolvedVersion(actual.value)
  }

  /** `resolveAndSetDependencyVersion`: the dependency gets the decided version
      and exactly one unmanaged-dependency entry is reported, under the version
      reference (for the placeholders) or the pinned version. */
  function ResolveAndSetDependencyVersion(p: MavenProject, d: Dependency): (r: (Dependency, Event))
    ensures r.0 == d.(version := r.0.version)
    ensures r.1 == ExtractionSummary.NotManagedDependency(r.0, ReportedVersion(DecideVersion(p, d)))
    ensures DecideVersion(p, d) == CommunityVersion ==> r.0.version == Some(CommunityVersionPlaceholder())
    ensures DecideVersion(p, d) == CoreBomVersion ==> r.0.version == Some(CoreBomVersionPlaceholder())
    ensures DecideVersion(p, d).ResolvedVersion? ==> r.0.version == FindDependencyVersion(p, d)
  {
    match DecideVersion(p, d)
    case CommunityVersion =>
      var x := SetQuarkusCommunityVersion(d);
      (x, ExtractionSummary.NotManagedDependency(x, Some(QUARKUS_COMMUNITY_VERSION_REF)))
    case CoreBomVersion =>
      var x := SetQuarkusCoreBomVersion(d);
      (x, ExtractionSummary.NotManagedDependency(x, Some(QUARKUS_CORE_BOM_VERSION_REF)))
    case ResolvedVersion(v) =>
      var x := d.(version := Some(v));
      (x, ExtractionSummary.NotManagedDependency(x, x.version))
  }

  /** The version an unmanaged-dependency entry is reported under. */
  function ReportedVersion(decision: VersionDecision): Option<string> {
    match decision
    case CommunityVersion => Some(QUARKUS_COMMUNITY_VERSION_REF)
    case CoreBomVersion => Some(QUARKUS_CORE_BOM_VERSION_REF)
    case ResolvedVersion(v) => Some(v)
  }

  /** A resolved dependency never carries this module's own version as a literal:
      it is a version placeholder or a different version. */
  lemma NoSelfVersionLeak(p: MavenProject, d: Dependency)
    ensures var x := ResolveAndSetDependencyVersion(p, d).0;
      x.version == Some(CommunityVersionPlaceholder()) || x.version == Some(CoreBomVersionPlaceholder())
      || (x.version.Some? && !EqualsIgnoreCase(x.version.value, p.version))
  {
  }

  /** `setResolvedDependencyVersion`: the first resolved version (possibly none)
      is taken and reported under the dependency's new version. */
  function SetResolvedDependencyVersion(p: MavenProject, d: Dependency): (r: (Dependency, Event))
  {
    var x := d.(version := FindDependencyVersion(p, d));
    (x, ExtractionSummary.NotManagedDependency(x, x.version))
  }

  /** Neither the Quarkus BOM nor the test parent manages the dependency. The
      test parent is asked only when the BOM does not manage it. */
  function IsUnmanaged(ctx: Context, d: Dependency): (r: Result<bool>)
    ensures r.Failure? <==> (ctx.bomKeys == {}
      || (ManagementKey(d) !in ctx.bomKeys && ParentProject.IsManagedByTestParent(ctx.parent, Some(d)).Failure?))
    ensures r == Success(true) <==>
      QuarkusBom.IsManagedByQuarkusBom(ctx.bomKeys, Some(d)) == Success(false)
      && ParentProject.IsManagedByTestParent(ctx.parent, Some(d)) == Success(false)
  {
    var bom :- QuarkusBom.IsManagedByQuarkusBom(ctx.bomKeys, Some(d));
    if bom then Success(false)
    else
      var testParent :- ParentProject.IsManagedByTestParent(ctx.parent, Some(d));
      Success(!testParent)
  }

  /** One dependency with its version settled and the entry it reported, if any. */
  function Settled(x: (Dependency, Event)): Outcome<Dependency> {
    Outcome(x.0, [x.1])
  }

  /** The version rule of the integration-test modules and of profiles: an
      unversioned non-deployment dependency nobody manages and that is not
      declared next to its deployment artifact is resolved; the bouncycastle
      exception takes the resolved version; all else is left alone. */
  function ResolveVersionIfUnmanaged(ctx: Context, p: MavenProject, declared: seq<Dependency>, d: Dependency)
    : (r: Result<Outcome<Dependency>>)
    ensures PluginUtils.IsDeploymentArtifact(Some(d.artifactId)) || !HasNoVersion(d) ==> r == Success(Outcome(d, []))
    ensures r.Success? ==> r.value.value == d.(version := r.value.value.version) && |r.value.events| <= 1
    ensures r.Success? && r.value.events != [] && !IsManagedByQuarkusBomButNotProductPlatformBom(d) ==>
      (NotAccompaniedWithDeploymentDep(declared, d) && IsUnmanaged(ctx, d) == Success(true)
       && r.value == Settled(ResolveAndSetDependencyVersion(p, d)))
    ensures !PluginUtils.IsDeploymentArtifact(Some(d.artifactId)) && HasNoVersion(d)
      && IsUnmanaged(ctx, d) == Success(true) && NotAccompaniedWithDeploymentDep(declared, d)
      ==> r == Success(Settled(ResolveAndSetDependencyVersion(p, d)))
  {
    if !PluginUtils.IsDeploymentArtifact(Some(d.artifactId)) && HasNoVersion(d) then
      var unmanaged :- IsUnmanaged(ctx, d);
      if unmanaged && NotAccompaniedWithDeploymentDep(declared, d) then
        Success(Settled(ResolveAndSetDependencyVersion(p, d)))
      else if IsManagedByQuarkusBomButNotProductPlatformBom(d) then
        Success(Settled(SetResolvedDependencyVersion(p, d)))
      else Success(Outcome(d, []))
    else Success(Outcome(d, []))
  }

  /** The version rule of extension deployment modules: a deployment test-jar is
      not in any BOM and takes the community version; other unversioned
      dependencies nobody manages are resolved. */
  function ResolveExtensionVersion(ctx: Context, p: MavenProject, d: Dependency): (r: Result<Outcome<Dependency>>)
    ensures !HasNoVersion(d) ==> r == Success(Outcome(d, []))
    ensures r.Success? ==> r.value.value == d.(version := r.value.value.version) && |r.value.events| <= 1
    ensures HasNoVersion(d) && PluginUtils.IsDeploymentArtifact(Some(d.artifactId)) && IsTestJar(d) ==>
      var x := SetQuarkusCommunityVersion(d);
      r == Success(Outcome(x, [ExtractionSummary.NotManagedDependency(x, Some(QUARKUS_COMMUNITY_VERSION_REF))]))
    ensures (HasNoVersion(d) && !(PluginUtils.IsDeploymentArtifact(Some(d.artifactId)) && IsTestJar(d))
             && IsUnmanaged(ctx, d) == Success(true)) ==> r == Success(Settled(ResolveAndSetDependencyVersion(p, d)))
  {
    if !HasNoVersion(d) then Success(Outcome(d, []))
    else if PluginUtils.IsDeploymentArtifact(Some(d.artifactId)) && IsTestJar(d) then
      var x := SetQuarkusCommunityVersion(d);
      Success(Outcome(x, [ExtractionSummary.NotManagedDependency(x, Some(QUARKUS_COMMUNITY_VERSION_REF))]))
    else
      var unmanaged :- IsUnmanaged(ctx, d);
      if unmanaged then Success(Settled(ResolveAndSetDependencyVersion(p, d)))
      else if IsManagedByQuarkusBomButNotProductPlatformBom(d) then Success(Settled(SetResolvedDependencyVersion(p, d)))
      else Success(Outcome(d, []))
  }

  /** The platform artifacts whose `project.version` becomes the platform version. */
  predicate IsPlatformArtifact(artifactId: string) {
    EqualsIgnoreCase("quarkus-maven-plugin", artifactId)
    || EqualsIgnoreCase("quarkus-bom-quarkus-platform-descriptor", artifactId)
  }

  /** A `project.version` reference is dropped; when the BOM does not manage the
      artifact, a version placeholder takes its place (community list first,
      then, where `platform` applies, the platform artifacts, else the core BOM). */
  function ReplaceThisProjectVersion(ctx: Context, d: Dependency, platform: bool): (r: Result<Dependency>)
    ensures !HasThisProjectVersion(d) ==> r == Success(d)
    ensures r.Failure? <==> HasThisProjectVersion(d) && ctx.bomKeys == {}
    ensures r.Success? ==> r.value == d.(version := r.value.version)
    ensures r.Success? && HasThisProjectVersion(d) ==>
      (r.value.version.None? <==> ManagementKey(d) in ctx.bomKeys)
      && (r.value.version.Some? && d.artifactId in COMMUNITY_DEPENDENCIES ==> r.value.version == Some(CommunityVersionPlaceholder()))
      && (r.value.version.Some? && d.artifactId !in COMMUNITY_DEPENDENCIES && !(platform && IsPlatformArtifact(d.artifactId))
          ==> r.value.version == Some(CoreBomVersionPlaceholder()))
      && (r.value.version.Some? && d.artifactId !in COMMUNITY_DEPENDENCIES && platform && IsPlatformArtifact(d.artifactId)
          ==> r.value.version == Some(ctx.collaborators.quarkusPlatformVersion))
  {
    if HasThisProjectVersion(d) then
      var x := d.(version := None);
      assert ManagementKey(x) == ManagementKey(d);
      var managed :- QuarkusBom.IsManagedByQuarkusBom(ctx.bomKeys, Some(x));
      if managed then Success(x)
      else if x.artifactId in COMMUNITY_DEPENDENCIES then Success(SetQuarkusCommunityVersion(x))
      else if platform && IsPlatformArtifact(x.artifactId) then Success(x.(version := Some(ctx.collaborators.quarkusPlatformVersion)))
      else Success(SetQuarkusCoreBomVersion(x))
    else Success(d)
  }

  /** An unversioned test-jar may be a community-only one. */
  function SetTestJarVersion(ctx: Context, d: Dependency): (r: Dependency)
    ensures r == d.(version := r.version)
    ensures !(ctx.collaborators.hasEmptyVersion(d) && IsTestJar(d)) ==> r == d
  {
    if ctx.collaborators.hasEmptyVersion(d) && IsTestJar(d) then KnownTestJars.SetTestJarVersionIfNecessary(d) else d
  }

  // ---------------------------------------------------------------- per-dependency rewriting

  /** One dependency of an extension deployment module. */
  function ExtensionDependency(ctx: Context, p: MavenProject, d: Dependency): (r: Result<Outcome<Dependency>>)
    ensures r.Success? ==> r.value.value == d.(version := r.value.value.version) && |r.value.events| <= 1
    ensures !HasNoVersion(d) && !HasThisProjectVersion(d) && !IsTestJar(d) ==> r == Success(Outcome(d, []))
  {
    var resolved :- ResolveExtensionVersion(ctx, p, d);
    var placed :- ReplaceThisProjectVersion(ctx, resolved.value, false);
    Success(Outcome(SetTestJarVersion(ctx, placed), resolved.events))
  }

  /** The "compile" scope (in any case) is Maven's default and is dropped. */
  function NormalizedScope(scope: Option<string>): (r: Option<string>)
  {
    if scope.Some? && EqualsIgnoreCase(COMPILE_SCOPE, scope.value) then None else scope
  }

  /** One dependency of any other module: the default "compile" scope is left
      implicit, then the version rules apply. */
  function ModuleDependency(ctx: Context, p: MavenProject, declared: seq<Dependency>, d: Dependency)
    : (r: Result<Outcome<Dependency>>)
    ensures r.Success? ==> r.value.value == d.(scope := NormalizedScope(d.scope), version := r.value.value.version)
    ensures r.Success? ==> |r.value.events| <= 1
  {
    var scoped := d.(scope := NormalizedScope(d.scope));
    var resolved :- ResolveVersionIfUnmanaged(ctx, p, declared, scoped);
    var placed :- ReplaceThisProjectVersion(ctx, resolved.value, true);
    Success(Outcome(SetTestJarVersion(ctx, placed), resolved.events))
  }

  /** Runs a rewriting step over a list, in order, collecting what each reports;
      the first failure stops it. */
  function MapSteps<T, U>(xs: seq<T>, step: T -> Result<Outcome<U>>): (r: Result<Outcome<seq<U>>>)
    ensures r.Success? <==> forall i :: 0 <= i < |xs| ==> step(xs[i]).Success?
    ensures r.Success? ==> (|r.value.value| == |xs|
                            && forall i :: 0 <= i < |xs| ==> r.value.value[i] == step(xs[i]).value.value)
    decreases |xs|
  {
    if xs == [] then Success(Outcome([], []))
    else
      match step(xs[0])
      case Failure(e) => Failure(e)
      case Success(first) =>
        match MapSteps(xs[1..], step)
        case Failure(e) =>
          Failure(e)
        case Success(rest) =>
          Success(Outcome([first.value] + rest.value, first.events + rest.events))
  }

  /** `result.forEach(ParentProject::correctGroupIdIfNecessary)` */
  function CorrectGroupIds(parent: Model, deps: seq<Dependency>): (r: Result<seq<Dependency>>)
    ensures r.Success? <==> forall i :: 0 <= i < |deps| ==> ParentProject.CorrectGroupIdIfNecessary(parent, deps[i]).Success?
    ensures r.Success? ==> (|r.value| == |deps|
      && forall i :: 0 <= i < |deps| ==> r.value[i] == ParentProject.CorrectGroupIdIfNecessary(parent, deps[i]).value)
    decreases |deps|
  {
    if deps == [] then Success([])
    else
      match ParentProject.CorrectGroupIdIfNecessary(parent, deps[0])
      case Failure(e) => Failure(e)
      case Success(first) =>
        match CorrectGroupIds(parent, deps[1..])
        case Failure(e) => Failure(e)
        case Success(rest) => Success([first] + rest)
  }

  /** A corrected dependency keeps its artifactId, type, classifier, scope and exclusions. */
  lemma CorrectGroupIdKeepsIdentity(parent: Model, d: Dependency)
    requires ParentProject.CorrectGroupIdIfNecessary(parent, d).Success?
    ensures var x := ParentProject.CorrectGroupIdIfNecessary(parent, d).value;
      x.artifactId == d.artifactId && x.dependencyType == d.dependencyType && x.classifier == d.classifier
      && x.scope == d.scope && x.exclusions == d.exclusions
  {
  }

  // ---------------------------------------------------------------- dependency lists

  /** `originalDependencies.removeIf(…)`: build-ordering dependencies are dropped. */
  function DropBuildOrderingDependencies(p: MavenProject, declared: seq<Dependency>): (r: seq<Dependency>)
    ensures forall x :: x in r <==> x in declared && !IsBuildOrderingDependency(p, x)
  {
    Filter(declared, (x: Dependency) => !IsBuildOrderingDependency(p, x))
  }

  /** Integration-test modules also drop every POM-typed Quarkus-own dependency. */
  function DropOwnPomDependencies(p: MavenProject, declared: seq<Dependency>): (r: seq<Dependency>)
    ensures forall x :: x in r <==> x in declared && !(IsQuarkusOwnDependency(x, p.version) && IsPomPackageType(x))
  {
    Filter(declared, (x: Dependency) => !(IsQuarkusOwnDependency(x, p.version) && IsPomPackageType(x)))
  }

  /** In an extension deployment module the remaining Quarkus dependencies
      excluding everything lose their exclusions. */
  function ClearExclusions(p: MavenProject, d: Dependency): (r: Dependency)
  {
    if IsQuarkusTestScopeDepWithExclusions(p, d) then d.(exclusions := []) else d
  }

  /** The module itself, as a dependency: a deployment test module tests its own
      artifact, with the core-BOM version unless the BOM manages it. */
  function SelfDependency(ctx: Context, p: MavenProject): (r: Result<Dependency>)
    ensures r.Failure? <==> ctx.bomKeys == {}
    ensures r.Success? ==> (r.value.groupId == p.groupId && r.value.artifactId == p.artifactId
      && r.value == NewDependency(p.groupId, p.artifactId).(version := r.value.version))
    ensures r.Success? ==> (r.value.version.None? <==> ManagementKey(NewDependency(p.groupId, p.artifactId)) in ctx.bomKeys)
    ensures r.Success? && r.value.version.Some? ==> r.value.version == Some(CoreBomVersionPlaceholder())
  {
    var self := NewDependency(p.groupId, p.artifactId);
    var managed :- QuarkusBom.IsManagedByQuarkusBom(ctx.bomKeys, Some(self));
    if managed then Success(self) else Success(SetQuarkusCoreBomVersion(self))
  }

  const SPI_MARKER := "-spi"
  const DEVSERVICES_DEPLOYMENT := "quarkus-devservices-deployment"

  /** A deployment dependency that is used at runtime needs its runtime artifact too. */
  predicate NeedsRuntimeCounterpart(d: Dependency) {
    !HasTestScope(d)
    && PluginUtils.IsDeploymentArtifact(Some(d.artifactId))
    && !IsTestJar(d) && !IsPomPackageType(d)
    && !Contains(d.artifactId, SPI_MARKER)
    && d.artifactId != DEVSERVICES_DEPLOYMENT
  }

  /** The runtime counterpart of a deployment dependency: same coordinates
      without the "-deployment" postfix. */
  function RuntimeOf(d: Dependency): (r: Dependency)
  {
    d.(artifactId := PluginUtils.DropDeploymentPostfix(d.artifactId))
  }

  /** Some dependency of the list that is neither a test-jar nor a POM is `artifactId`. */
  predicate DeclaresArtifact(deps: seq<Dependency>, artifactId: string) {
    exists x :: x in deps && !IsTestJar(x) && !IsPomPackageType(x) && EqualsIgnoreCase(x.artifactId, artifactId)
  }

  /** `x` is the runtime form of a deployment dependency of `deps` that needs one. */
  predicate IsCounterpartCandidate(deps: seq<Dependency>, x: Dependency) {
    exists d :: d in deps && NeedsRuntimeCounterpart(d) && x == RuntimeOf(d)
  }

  lemma CandidatesAreCounterparts(deps: seq<Dependency>, needing: seq<Dependency>, r: seq<Dependency>)
    requires forall x :: x in needing <==> x in deps && NeedsRuntimeCounterpart(x)
    requires |r| == |needing| && forall i :: 0 <= i < |r| ==> r[i] == RuntimeOf(needing[i])
    ensures forall x :: x in r ==> IsCounterpartCandidate(deps, x)
  {
    forall x | x in r ensures IsCounterpartCandidate(deps, x) {
      var i :| 0 <= i < |r| && r[i] == x;
      assert needing[i] in needing;
    }
  }

  lemma CounterpartsAreCandidates(deps: seq<Dependency>, needing: seq<Dependency>, r: seq<Dependency>)
    requires forall x :: x in needing <==> x in deps && NeedsRuntimeCounterpart(x)
    requires |r| == |needing| && forall i :: 0 <= i < |r| ==> r[i] == RuntimeOf(needing[i])
    ensures forall x :: IsCounterpartCandidate(deps, x) ==> x in r
  {
    forall x | IsCounterpartCandidate(deps, x) ensures x in r {
      var d :| d in deps && NeedsRuntimeCounterpart(d) && x == RuntimeOf(d);
      var i :| 0 <= i < |needing| && needing[i] == d;
      assert r[i] == x;
    }
  }

  /** The runtime form of every deployment dependency that needs one. */
  function CounterpartCandidates(deps: seq<Dependency>): (r: seq<Dependency>)
    ensures forall x :: x in r <==> IsCounterpartCandidate(deps, x)
  {
    var needing := Filter(deps, NeedsRuntimeCounterpart);
    var r := Map(needing, RuntimeOf);
    CandidatesAreCounterparts(deps, needing, r);
    CounterpartsAreCandidates(deps, needing, r);
    r
  }

  /** The distinct candidates that are core extensions and are not declared yet. */
  function MissingCounterparts(deps: seq<Dependency>, extensions: set<string>): (r: seq<Dependency>)
    ensures NoDuplicates(r)
    ensures forall x :: x in r <==>
      IsCounterpartCandidate(deps, x) && x.artifactId in extensions && !DeclaresArtifact(deps, x.artifactId)
  {
    Distinct(Filter(CounterpartCandidates(deps),
      (x: Dependency) => x.artifactId in extensions && !DeclaresArtifact(deps, x.artifactId)))
  }

  /** The runtime counterparts missing from `deps`: one per distinct runtime
      dependency of a core extension not already in the list. The stored core
      extensions are read only when there is a candidate. */
  function RuntimeCounterparts(ctx: Context, deps: seq<Dependency>): (r: Result<seq<Dependency>>)
    ensures r.Failure? <==> ((exists x :: IsCounterpartCandidate(deps, x))
                             && CoreExtensions.GetCoreExtensions(ctx.files).Failure?)
    ensures r.Success? ==> NoDuplicates(r.value)
    ensures r.Success? ==> forall x :: x in r.value <==>
      IsCounterpartCandidate(deps, x)
      && CoreExtensions.IsCoreExtension(ctx.files, x.artifactId) == Success(true)
      && !DeclaresArtifact(deps, x.artifactId)
  {
    if CounterpartCandidates(deps) == [] then Success([])
    else
      assert IsCounterpartCandidate(deps, CounterpartCandidates(deps)[0]);
      var extensions :- CoreExtensions.GetCoreExtensions(ctx.files);
      Success(MissingCounterparts(deps, extensions))
  }

  /** Copy-as-is modules are managed by the parent, so their versions go. */
  function WithoutCopyAsIsVersion(d: Dependency): (r: Dependency)
  {
    if d.artifactId in ParentProject.COPY_AS_IS_ARTIFACT_IDS then d.(version := None) else d
  }

  /** A corrected list keeps every entry's artifactId and scope. */
  lemma CorrectGroupIdsKeepIdentity(parent: Model, deps: seq<Dependency>)
    requires CorrectGroupIds(parent, deps).Success?
    ensures forall i :: 0 <= i < |deps| ==>
      (CorrectGroupIds(parent, deps).value[i].artifactId == deps[i].artifactId
       && CorrectGroupIds(parent, deps).value[i].scope == deps[i].scope)
  {
    forall i | 0 <= i < |deps|
      ensures CorrectGroupIds(parent, deps).value[i].artifactId == deps[i].artifactId
      ensures CorrectGroupIds(parent, deps).value[i].scope == deps[i].scope
    {
      CorrectGroupIdKeepsIdentity(parent, deps[i]);
    }
  }

  /** The declared dependencies of an extension deployment module, rewritten in order. */
  function OwnExtensionDependencies(ctx: Context, p: MavenProject, kept: seq<Dependency>)
    : (r: Result<Outcome<seq<Dependency>>>)
    ensures r.Success? ==> (|r.value.value| == |kept|
      && forall i :: 0 <= i < |kept| ==> r.value.value[i].artifactId == kept[i].artifactId)
  {
    var cleared := Map(kept, (d: Dependency) => ClearExclusions(p, d));
    assert forall i :: 0 <= i < |kept| ==> cleared[i].artifactId == kept[i].artifactId;
    MapSteps(cleared, (d: Dependency) => ExtensionDependency(ctx, p, d))
  }

  /** The module itself followed by its declared dependencies, rewritten for
      an extension deployment module, in order. */
  function SelfAndOwnDependencies(ctx: Context, p: MavenProject, kept: seq<Dependency>)
    : (r: Result<Outcome<seq<Dependency>>>)
    ensures r.Success? ==> (|r.value.value| == 1 + |kept|
      && r.value.value[0].artifactId == p.artifactId
      && forall i :: 0 <= i < |kept| ==> r.value.value[i + 1].artifactId == kept[i].artifactId)
  {
    var self :- SelfDependency(ctx, p);
    var own :- OwnExtensionDependencies(ctx, p, kept);
    var all := [self] + own.value;
    var corrected :- CorrectGroupIds(ctx.parent, all);
    CorrectGroupIdsKeepIdentity(ctx.parent, all);
    ConsShifts(self, own.value);
    Success(Outcome(corrected, own.events))
  }

  /** The dependencies of an extension deployment module: itself, its declared
      dependencies, then the missing runtime counterparts. */
  function ExtensionDependencies(ctx: Context, p: MavenProject, kept: seq<Dependency>): (r: Result<Outcome<seq<Dependency>>>)
    ensures r.Success? ==> (|r.value.value| >= 1 + |kept|
      && r.value.value[0].artifactId == p.artifactId
      && forall i :: 0 <= i < |kept| ==> r.value.value[i + 1].artifactId == kept[i].artifactId)
    ensures r.Success? ==> forall x :: x in r.value.value[1 + |kept|..] ==> !DeclaresArtifact(r.value.value[..1 + |kept|], x.artifactId)
  {
    var listed :- SelfAndOwnDependencies(ctx, p, kept);
    var counterparts :- RuntimeCounterparts(ctx, listed.value);
    var all := listed.value + counterparts;
    assert all[..1 + |kept|] == listed.value && all[1 + |kept|..] == counterparts;
    Success(Outcome(all, listed.events))
  }

  /** One dependency of a module that is not an extension deployment module,
      as it ends up: the module rules, then the test-parent redirection. */
  function ModuleRewrite(ctx: Context, p: MavenProject, own: seq<Dependency>, d: Dependency): (r: Result<Dependency>)
    ensures r.Failure? <==> (ModuleDependency(ctx, p, own, d).Failure?
      || ParentProject.CorrectGroupIdIfNecessary(ctx.parent, ModuleDependency(ctx, p, own, d).value.value).Failure?)
  {
    var m :- ModuleDependency(ctx, p, own, d);
    ParentProject.CorrectGroupIdIfNecessary(ctx.parent, m.value)
  }

  /** The dependencies of any other module, in declaration order. */
  function ModuleDependencies(ctx: Context, p: MavenProject, kept: seq<Dependency>): (r: Result<Outcome<seq<Dependency>>>)
    ensures var own := DropOwnPomDependencies(p, kept);
      r.Success? ==> (|r.value.value| == |own|
        && forall i :: 0 <= i < |own| ==> (r.value.value[i].artifactId == own[i].artifactId
                                          && r.value.value[i].scope == NormalizedScope(own[i].scope)))
    ensures var own := DropOwnPomDependencies(p, kept);
      r.Success? <==> forall i :: 0 <= i < |own| ==> ModuleRewrite(ctx, p, own, own[i]).Success?
    ensures var own := DropOwnPomDependencies(p, kept);
      r.Success? ==> forall i :: 0 <= i < |own| ==> ModuleRewrite(ctx, p, own, own[i]) == Success(r.value.value[i])
  {
    var own := DropOwnPomDependencies(p, kept);
    var deps :- MapSteps(own, (d: Dependency) => ModuleDependency(ctx, p, own, d));
    var corrected :- CorrectGroupIds(ctx.parent, deps.value);
    CorrectGroupIdsKeepIdentity(ctx.parent, deps.value);
    Success(Outcome(corrected, deps.events))
  }

  /** The list with every copy-as-is artifact's version dropped. */
  function WithoutCopyAsIsVersions(deps: seq<Dependency>): (r: seq<Dependency>)
    ensures |r| == |deps|
    ensures forall i :: 0 <= i < |deps| ==> r[i] == WithoutCopyAsIsVersion(deps[i])
    ensures forall i :: 0 <= i < |deps| ==> r[i].artifactId == deps[i].artifactId && r[i].scope == deps[i].scope
    ensures forall x :: (x in r && x.artifactId in ParentProject.COPY_AS_IS_ARTIFACT_IDS ==> x.version.None?)
  {
    Map(deps, WithoutCopyAsIsVersion)
  }

  /** `dependencies()`: the declared dependencies without the build-ordering
      ones, rewritten for an extension deployment module or for any other
      module, and no copy-as-is artifact keeps a version. */
  function Dependencies(ctx: Context, p: MavenProject): (r: Result<Outcome<seq<Dependency>>>)
    ensures p.originalModel.dependencies == [] ==> r == Success(Outcome([], []))
    ensures r.Success? ==> forall x :: (x in r.value.value && x.artifactId in ParentProject.COPY_AS_IS_ARTIFACT_IDS
                                        ==> x.version.None?)
    ensures r.Success? && p.originalModel.dependencies != [] && IsExtensionDeploymentTests(p) ==>
      var kept := DropBuildOrderingDependencies(p, p.originalModel.dependencies);
      |r.value.value| >= 1 + |kept| && r.value.value[0].artifactId == p.artifactId
      && forall i :: 0 <= i < |kept| ==> r.value.value[i + 1].artifactId == kept[i].artifactId
    ensures r.Success? && p.originalModel.dependencies != [] && !IsExtensionDeploymentTests(p) ==>
      var own := DropOwnPomDependencies(p, DropBuildOrderingDependencies(p, p.originalModel.dependencies));
      |r.value.value| == |own|
      && forall i :: 0 <= i < |own| ==> (r.value.value[i].artifactId == own[i].artifactId
                                        && r.value.value[i].scope == NormalizedScope(own[i].scope))
  {
    var declared := p.originalModel.dependencies;
    if declared == [] then Success(Outcome([], []))
    else
      var kept := DropBuildOrderingDependencies(p, declared);
      var result :- if IsExtensionDeploymentTests(p) then ExtensionDependencies(ctx, p, kept)
                    else ModuleDependencies(ctx, p, kept);
      Success(Outcome(WithoutCopyAsIsVersions(result.value), result.events))
  }

  /** For any module but an extension deployment one, `dependencies()` succeeds
      exactly when every kept dependency can be rewritten, and the i-th result is
      the i-th kept dependency rewritten by `moduleDependency`, its groupId
      corrected, with no version left on a copy-as-is artifact. */
  lemma ModuleDependenciesRewritten(ctx: Context, p: MavenProject)
    requires p.originalModel.dependencies != [] && !IsExtensionDeploymentTests(p)
    ensures var own := DropOwnPomDependencies(p, DropBuildOrderingDependencies(p, p.originalModel.dependencies));
      Dependencies(ctx, p).Success? <==> forall i :: 0 <= i < |own| ==> ModuleRewrite(ctx, p, own, own[i]).Success?
    ensures var own := DropOwnPomDependencies(p, DropBuildOrderingDependencies(p, p.originalModel.dependencies));
      Dependencies(ctx, p).Success? ==>
        forall i :: 0 <= i < |own| ==> (ModuleRewrite(ctx, p, own, own[i]).Success?
                                        && Dependencies(ctx, p).value.value[i]
                                           == WithoutCopyAsIsVersion(ModuleRewrite(ctx, p, own, own[i]).value))
  {
    var kept := DropBuildOrderingDependencies(p, p.originalModel.dependencies);
    var m := ModuleDependencies(ctx, p, kept);
    if m.Success? {
      assert Dependencies(ctx, p).value.value == WithoutCopyAsIsVersions(m.value.value);
    }
  }

  /** No dependency that only orders the build survives, in either kind of module. */
  lemma BuildOrderingDependenciesAreDropped(ctx: Context, p: MavenProject, d: Dependency)
    requires d in p.originalModel.dependencies && IsBuildOrderingDependency(p, d)
    ensures d !in DropBuildOrderingDependencies(p, p.originalModel.dependencies)
    ensures d !in DropOwnPomDependencies(p, DropBuildOrderingDependencies(p, p.originalModel.dependencies))
  {
  }

  // ---------------------------------------------------------------- dependency management

  const QUARKUS_BOM_TEST := "quarkus-bom-test"

  /** A managed dependency the test module keeps managing itself. */
  predicate KeepsManaged(ctx: Context, d: Dependency) {
    QuarkusBuildParent.IsNotManagedByBuildParent(ctx.buildParentKeys, d)
    && !EqualsIgnoreCase(d.artifactId, QUARKUS_BOM_TEST)
  }

  /** A kept managed dependency: redirected when it is a module of the extracted
      project, and a copy-as-is module is pinned to the module version given. */
  function PrepareManaged(ctx: Context, version: string, d: Dependency): (r: Result<Dependency>)
    ensures r.Failure? <==> ParentProject.CorrectGroupIdIfNecessary(ctx.parent, d).Failure?
    ensures r.Success? ==> r.value.artifactId == d.artifactId
    ensures r.Success? && d.artifactId in ParentProject.COPY_AS_IS_ARTIFACT_IDS ==> r.value.version == Some(version)
  {
    var corrected :- ParentProject.CorrectGroupIdIfNecessary(ctx.parent, d);
    if corrected.artifactId in ParentProject.COPY_AS_IS_ARTIFACT_IDS then Success(corrected.(version := Some(version)))
    else Success(corrected)
  }

  /** The managed dependencies the test module keeps, in order (the two
      `filter` steps of `prepareDependencyManagement`). */
  function ManagedKept(ctx: Context, managed: seq<Dependency>): seq<Dependency> {
    Filter(managed, (d: Dependency) => KeepsManaged(ctx, d))
  }

  lemma ManagedKeptCons(ctx: Context, managed: seq<Dependency>)
    requires managed != []
    ensures KeepsManaged(ctx, managed[0]) ==> ManagedKept(ctx, managed) == [managed[0]] + ManagedKept(ctx, managed[1..])
    ensures !KeepsManaged(ctx, managed[0]) ==> ManagedKept(ctx, managed) == ManagedKept(ctx, managed[1..])
  {
  }

  /** Every kept entry of `managed` can be prepared. */
  predicate AllPreparable(ctx: Context, version: string, managed: seq<Dependency>) {
    forall i :: 0 <= i < |managed| ==> (KeepsManaged(ctx, managed[i]) ==> PrepareManaged(ctx, version, managed[i]).Success?)
  }

  lemma AllPreparableCons(ctx: Context, version: string, managed: seq<Dependency>)
    requires managed != []
    ensures AllPreparable(ctx, version, managed)
      <==> ((KeepsManaged(ctx, managed[0]) ==> PrepareManaged(ctx, version, managed[0]).Success?)
            && AllPreparable(ctx, version, managed[1..]))
  {
    assert forall i :: 1 <= i < |managed| ==> managed[i] == managed[1..][i - 1];
  }

  /** `prepared` is the kept entries of `managed`, in order, each prepared; and
      `whole` is `managed` with each kept entry replaced by its prepared form
      (they are the same objects in the source) and every other entry as it was. */
  predicate PreparedAsKept(ctx: Context, version: string, managed: seq<Dependency>,
                           prepared: seq<Dependency>, whole: seq<Dependency>) {
    |prepared| == |ManagedKept(ctx, managed)|
    && (forall i :: 0 <= i < |prepared| ==> PrepareManaged(ctx, version, ManagedKept(ctx, managed)[i]) == Success(prepared[i]))
    && |whole| == |managed|
    && (forall i :: 0 <= i < |managed| ==>
          if KeepsManaged(ctx, managed[i]) then PrepareManaged(ctx, version, managed[i]) == Success(whole[i])
          else whole[i] == managed[i])
  }

  /** A kept head entry, prepared, goes in front of both lists. */
  lemma PreparedAsKeptKeptHead(ctx: Context, version: string, managed: seq<Dependency>,
                               prepared: seq<Dependency>, whole: seq<Dependency>, x: Dependency)
    requires managed != [] && KeepsManaged(ctx, managed[0]) && PrepareManaged(ctx, version, managed[0]) == Success(x)
    requires PreparedAsKept(ctx, version, managed[1..], prepared, whole)
    ensures PreparedAsKept(ctx, version, managed, [x] + prepared, [x] + whole)
  {
    ManagedKeptCons(ctx, managed);
    var kept := ManagedKept(ctx, managed);
    forall i | 1 <= i < |kept|
      ensures PrepareManaged(ctx, version, kept[i]) == Success(([x] + prepared)[i])
    {
      assert kept[i] == ManagedKept(ctx, managed[1..])[i - 1];
      assert ([x] + prepared)[i] == prepared[i - 1];
    }
    forall i | 1 <= i < |managed|
      ensures if KeepsManaged(ctx, managed[i]) then PrepareManaged(ctx, version, managed[i]) == Success(([x] + whole)[i])
              else ([x] + whole)[i] == managed[i]
    {
      assert managed[i] == managed[1..][i - 1];
      assert ([x] + whole)[i] == whole[i - 1];
    }
  }

  /** A dropped head entry stays only in the whole list. */
  lemma PreparedAsKeptDroppedHead(ctx: Context, version: string, managed: seq<Dependency>,
                                  prepared: seq<Dependency>, whole: seq<Dependency>)
    requires managed != [] && !KeepsManaged(ctx, managed[0])
    requires PreparedAsKept(ctx, version, managed[1..], prepared, whole)
    ensures PreparedAsKept(ctx, version, managed, prepared, [managed[0]] + whole)
  {
    ManagedKeptCons(ctx, managed);
    forall i | 1 <= i < |managed|
      ensures if KeepsManaged(ctx, managed[i]) then PrepareManaged(ctx, version, managed[i]) == Success(([managed[0]] + whole)[i])
              else ([managed[0]] + whole)[i] == managed[i]
    {
      assert managed[i] == managed[1..][i - 1];
    }
  }

  /** The kept managed dependencies, prepared, and the whole managed list as the
      summary sees it afterwards (the kept entries are the same objects, so they
      appear prepared there too). */
  function PrepareManagedList(ctx: Context, version: string, managed: seq<Dependency>)
    : (r: Result<(seq<Dependency>, seq<Dependency>)>)
    ensures r.Success? <==> AllPreparable(ctx, version, managed)
    ensures r.Success? ==> PreparedAsKept(ctx, version, managed, r.value.0, r.value.1)
    ensures r.Success? ==> forall x :: x in r.value.0 ==> !EqualsIgnoreCase(x.artifactId, QUARKUS_BOM_TEST)
    ensures r.Success? ==> forall x :: (x in r.value.0 && x.artifactId in ParentProject.COPY_AS_IS_ARTIFACT_IDS
                                        ==> x.version == Some(version))
    decreases |managed|
  {
    if managed == [] then Success(([], []))
    else
      AllPreparableCons(ctx, version, managed);
      var rest :- PrepareManagedList(ctx, version, managed[1..]);
      if KeepsManaged(ctx, managed[0]) then
        var x :- PrepareManaged(ctx, version, managed[0]);
        PreparedAsKeptKeptHead(ctx, version, managed, rest.0, rest.1, x);
        Success(([x] + rest.0, [x] + rest.1))
      else
        PreparedAsKeptDroppedHead(ctx, version, managed, rest.0, rest.1);
        Success((rest.0, [managed[0]] + rest.1))
  }

  /** `prepareDependencyManagement`: nothing to manage gives none; otherwise the
      kept entries are prepared and the project is reported as managing
      dependencies itself, once. */
  function PrepareDependencyManagement(ctx: Context, version: string, dependencyManagement: Option<seq<Dependency>>)
    : (r: Result<Outcome<Option<seq<Dependency>>>>)
    ensures dependencyManagement.None? || dependencyManagement.value == [] ==> r == Success(Outcome(None, []))
    ensures r.Success? && r.value.value.None? ==> r.value.events == []
    ensures r.Success? && r.value.value.Some? ==>
      r.value.value.value != [] && |r.value.events| == 1 && r.value.events[0].OwnDependencyManagement?
      && |r.value.events[0].managed| == |dependencyManagement.value|
    ensures r.Success? && r.value.value.Some? ==> forall x :: x in r.value.value.value ==>
      !EqualsIgnoreCase(x.artifactId, QUARKUS_BOM_TEST)
      && (x.artifactId in ParentProject.COPY_AS_IS_ARTIFACT_IDS ==> x.version == Some(version))
    ensures dependencyManagement.Some? && (forall d :: d in dependencyManagement.value ==> !KeepsManaged(ctx, d))
      ==> r == Success(Outcome(None, []))
    ensures dependencyManagement.Some? && ManagedKept(ctx, dependencyManagement.value) != [] ==>
      (r.Success? <==> AllPreparable(ctx, version, dependencyManagement.value))
    ensures r.Success? ==> (r.value.value.Some? <==> dependencyManagement.Some? && ManagedKept(ctx, dependencyManagement.value) != [])
    ensures r.Success? && r.value.value.Some? ==>
      PreparedAsKept(ctx, version, dependencyManagement.value, r.value.value.value, r.value.events[0].managed)
  {
    if dependencyManagement.None? || dependencyManagement.value == [] then Success(Outcome(None, []))
    else
      var kept := ManagedKept(ctx, dependencyManagement.value);
      assert kept != [] ==> kept[0] in kept;
      if kept == [] then Success(Outcome(None, []))
      else
        var prepared :- PrepareManagedList(ctx, version, dependencyManagement.value);
        Success(Outcome(Some(prepared.0), [ExtractionSummary.OwnDependencyManagement(prepared.1)]))
  }

  /** A list prepared as kept holds exactly the prepared forms of the kept entries. */
  lemma PreparedAreKeptEntries(ctx: Context, version: string, managed: seq<Dependency>,
                               prepared: seq<Dependency>, whole: seq<Dependency>, x: Dependency)
    requires PreparedAsKept(ctx, version, managed, prepared, whole)
    ensures x in prepared
      <==> exists d :: d in managed && KeepsManaged(ctx, d) && PrepareManaged(ctx, version, d) == Success(x)
  {
    if x in prepared {
      var i :| 0 <= i < |prepared| && prepared[i] == x;
      PreparedIsOfKept(ctx, version, managed, prepared, whole, i);
    }
    if exists d :: d in managed && KeepsManaged(ctx, d) && PrepareManaged(ctx, version, d) == Success(x) {
      var d :| d in managed && KeepsManaged(ctx, d) && PrepareManaged(ctx, version, d) == Success(x);
      KeptIsPrepared(ctx, version, managed, prepared, whole, d);
    }
  }

  lemma PreparedIsOfKept(ctx: Context, version: string, managed: seq<Dependency>,
                         prepared: seq<Dependency>, whole: seq<Dependency>, i: nat)
    requires PreparedAsKept(ctx, version, managed, prepared, whole) && i < |prepared|
    ensures var d := ManagedKept(ctx, managed)[i];
      d in managed && KeepsManaged(ctx, d) && PrepareManaged(ctx, version, d) == Success(prepared[i])
  {
    var kept := ManagedKept(ctx, managed);
    assert kept[i] in kept;
  }

  lemma KeptIsPrepared(ctx: Context, version: string, managed: seq<Dependency>,
                       prepared: seq<Dependency>, whole: seq<Dependency>, d: Dependency)
    requires PreparedAsKept(ctx, version, managed, prepared, whole)
    requires d in managed && KeepsManaged(ctx, d)
    ensures PrepareManaged(ctx, version, d).Success? && PrepareManaged(ctx, version, d).value in prepared
  {
    var kept := ManagedKept(ctx, managed);
    assert d in kept;
    var i :| 0 <= i < |kept| && kept[i] == d;
    assert prepared[i] in prepared;
  }

  /** A prepared dependency management manages exactly the prepared forms of
      the kept entries. */
  lemma PreparedManagementIsKeptEntries(ctx: Context, version: string, dependencyManagement: Option<seq<Dependency>>, x: Dependency)
    requires PrepareDependencyManagement(ctx, version, dependencyManagement).Success?
    requires PrepareDependencyManagement(ctx, version, dependencyManagement).value.value.Some?
    ensures x in PrepareDependencyManagement(ctx, version, dependencyManagement).value.value.value
      <==> exists d :: d in dependencyManagement.value && KeepsManaged(ctx, d) && PrepareManaged(ctx, version, d) == Success(x)
  {
    var r := PrepareDependencyManagement(ctx, version, dependencyManagement);
    PreparedAreKeptEntries(ctx, version, dependencyManagement.value, r.value.value.value, r.value.events[0].managed, x);
  }

  /** `dependencyManagement()`: only test modules have theirs prepared; any
      other module keeps Maven's effective one. */
  function DependencyManagement(ctx: Context, p: MavenProject): (r: Result<Outcome<Option<seq<Dependency>>>>)
  {
    if !IsTestModule(p) then Success(Outcome(p.dependencyManagement, []))
    else PrepareDependencyManagement(ctx, p.version, p.originalModel.dependencyManagement)
  }

  // ---------------------------------------------------------------- repositories

  /** The non-central repositories, each reported as it is kept. */
  function KeepRepositories(repositories: seq<Repository>, report: Repository -> Event): (r: Outcome<seq<Repository>>)
    ensures forall x :: x in r.value <==> x in repositories && IsNotCentralRepository(x)
    ensures |r.events| == |r.value| && forall i :: 0 <= i < |r.value| ==> r.events[i] == report(r.value[i])
    decreases |repositories|
  {
    if repositories == [] then Outcome([], [])
    else
      var rest := KeepRepositories(repositories[1..], report);
      assert forall x :: x in repositories <==> x == repositories[0] || x in repositories[1..];
      if IsNotCentralRepository(repositories[0])
      then Outcome([repositories[0]] + rest.value, [report(repositories[0])] + rest.events)
      else rest
  }

  function Repositories(p: MavenProject): (r: Outcome<seq<Repository>>)
    ensures forall x :: x in r.value <==> x in p.repositories && IsNotCentralRepository(x)
    ensures |r.events| == |r.value|
      && forall i :: 0 <= i < |r.value| ==> r.events[i] == ExtractionSummary.RepositoryDeclared(r.value[i])
  {
    KeepRepositories(p.repositories, (x: Repository) => ExtractionSummary.RepositoryDeclared(x))
  }

  function PluginRepositories(p: MavenProject): (r: Outcome<seq<Repository>>)
    ensures forall x :: x in r.value <==> x in p.pluginRepositories && IsNotCentralRepository(x)
    ensures |r.events| == |r.value|
      && forall i :: 0 <= i < |r.value| ==> r.events[i] == ExtractionSummary.PluginRepositoryDeclared(r.value[i])
  {
    KeepRepositories(p.pluginRepositories, (x: Repository) => ExtractionSummary.PluginRepositoryDeclared(x))
  }

  // ---------------------------------------------------------------- profile dependencies

  /** One dependency of a profile: a `project.version` reference is dropped,
      the version rules apply, then the test-parent redirection. */
  function ProfileDependency(ctx: Context, p: MavenProject, declared: seq<Dependency>, d: Dependency)
    : (r: Result<Outcome<Dependency>>)
    ensures r.Success? ==> r.value.value.artifactId == d.artifactId && |r.value.events| <= 1
    ensures (r.Success? && HasThisProjectVersion(d) && PluginUtils.IsDeploymentArtifact(Some(d.artifactId))
             && !IsTestJar(d)) ==> Success(r.value.value) == ParentProject.CorrectGroupIdIfNecessary(ctx.parent, d.(version := None))
  {
    var unreferenced := if HasThisProjectVersion(d) then d.(version := None) else d;
    var resolved :- ResolveVersionIfUnmanaged(ctx, p, declared, unreferenced);
    var x := SetTestJarVersion(ctx, resolved.value);
    var corrected :- ParentProject.CorrectGroupIdIfNecessary(ctx.parent, x);
    Success(Outcome(corrected, resolved.events))
  }

  /** `removeIf(dep -> isQuarkusOwnDependency(dep, version()) && isPomPackageType(dep))` */
  predicate DroppedFromProfile(p: MavenProject, x: Dependency) {
    IsQuarkusOwnDependency(x, p.version) && IsPomPackageType(x)
  }

  /** Every profile dependency rewritten, in order. */
  function ProfileRewrites(ctx: Context, p: MavenProject, declared: seq<Dependency>, deps: seq<Dependency>)
    : (r: seq<Dependency>)
    requires forall i :: 0 <= i < |deps| ==> ProfileDependency(ctx, p, declared, deps[i]).Success?
    ensures |r| == |deps| && forall i :: 0 <= i < |deps| ==> r[i] == ProfileDependency(ctx, p, declared, deps[i]).value.value
  {
    seq(|deps|, i requires 0 <= i < |deps| => ProfileDependency(ctx, p, declared, deps[i]).value.value)
  }

  /** A profile's dependencies: each rewritten, then the POM-typed Quarkus-own
      ones dropped; every other rewritten dependency stays, in order. */
  function ProfileDependencies(ctx: Context, p: MavenProject, declared: seq<Dependency>, deps: seq<Dependency>)
    : (r: Result<Outcome<seq<Dependency>>>)
    ensures r.Success? <==> forall i :: 0 <= i < |deps| ==> ProfileDependency(ctx, p, declared, deps[i]).Success?
    ensures r.Success? ==> forall x :: x in r.value.value ==> !(IsQuarkusOwnDependency(x, p.version) && IsPomPackageType(x))
    ensures r.Success? ==> (r.value.value
      == Filter(ProfileRewrites(ctx, p, declared, deps), (x: Dependency) => !DroppedFromProfile(p, x)))
    ensures r.Success? ==> forall x :: (x in r.value.value
      <==> x in ProfileRewrites(ctx, p, declared, deps) && !DroppedFromProfile(p, x))
    ensures deps == [] ==> r == Success(Outcome([], []))
  {
    var rewritten :- MapSteps(deps, (d: Dependency) => ProfileDependency(ctx, p, declared, d));
    assert rewritten.value == ProfileRewrites(ctx, p, declared, deps);
    Success(Outcome(Filter(rewritten.value, (x: Dependency) => !DroppedFromProfile(p, x)), rewritten.events))
  }

}
