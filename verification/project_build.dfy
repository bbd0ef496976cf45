/** The build section, the profiles and the whole rewritten POM of
    `project/builder/ProjectImpl.java`: which plugins a test project keeps,
    which versions they get, and `originalModel()`.
*/
module ProjectBuild {
  import opened Wrappers
  import opened Text
  import opened Seqs
  import opened Pom
  import opened MavenUtils
  import PluginUtils
  import QuarkusParentPom
  import ParentProject
  import ExtractionSummary
  import opened ProjectImpl

  /** Plugins that only check or format the Quarkus sources; matched exactly. */
  const IGNORED_PLUGINS: set<string> :=
    {"forbiddenapis", "templating-maven-plugin", "maven-enforcer-plugin", "impsort-maven-plugin"}
  const COMPILER_PLUGIN := "maven-compiler-plugin"
  const EXTENSION_PLUGIN := "quarkus-extension-maven-plugin"
  const COMPILER_PLUGIN_VERSION_PROPERTY := "version.compiler.plugin"
  /** The extension module of the test-extension integration test keeps its compiler arguments. */
  const IT_EXTENSION_MODULE := "integration-tests/test-extension/extension/"
  const DEFAULT_COMPILE := "default-compile"

  // ---------------------------------------------------------------- which plugins stay

  /** A plugin declaring no dependencies, no configuration and no executions. */
  predicate IsBare(plugin: Plugin) {
    !plugin.hasDependencies && !plugin.hasConfiguration && plugin.executionIds == []
  }

  predicate IsCompilerPlugin(plugin: Plugin) {
    EqualsIgnoreCase(COMPILER_PLUGIN, plugin.artifactId)
  }

  predicate IsExtensionPlugin(plugin: Plugin) {
    EqualsIgnoreCase(EXTENSION_PLUGIN, plugin.artifactId)
  }

  /** A compiler plugin whose only execution is the default compilation. */
  predicate OnlyCompilesByDefault(plugin: Plugin) {
    |plugin.executionIds| == 1 && EqualsIgnoreCase(DEFAULT_COMPILE, plugin.executionIds[0])
  }

  /** The `removeIf` condition of `prepareBuild`: ignored plugins, a bare
      compiler or extension plugin, and a compiler plugin that only compiles by
      default (outside the test-extension module). */
  function IsRemovedPlugin(p: MavenProject, plugin: Plugin): (r: bool)
    ensures plugin.artifactId in IGNORED_PLUGINS ==> r
    ensures (IsCompilerPlugin(plugin) || IsExtensionPlugin(plugin)) && IsBare(plugin) ==> r
    ensures plugin.artifactId !in IGNORED_PLUGINS && !IsCompilerPlugin(plugin) && !IsExtensionPlugin(plugin) ==> !r
    ensures plugin.artifactId !in IGNORED_PLUGINS && IsCompilerPlugin(plugin) && !IsBare(plugin) ==>
      (r <==> !Contains(p.targetRelativePath, IT_EXTENSION_MODULE) && OnlyCompilesByDefault(plugin))
    ensures plugin.artifactId !in IGNORED_PLUGINS && IsExtensionPlugin(plugin) && !IsBare(plugin) ==> !r
  {
    if plugin.artifactId in IGNORED_PLUGINS then true
    else if IsCompilerPlugin(plugin) && IsBare(plugin) then true
    else if IsCompilerPlugin(plugin) && !Contains(p.targetRelativePath, IT_EXTENSION_MODULE)
            && |plugin.executionIds| == 1 then
      EqualsIgnoreCase(DEFAULT_COMPILE, plugin.executionIds[0])
    else IsExtensionPlugin(plugin) && IsBare(plugin)
  }

  /** The compiler plugin's version becomes the extracted compiler-plugin property. */
  function WithCompilerVersion(plugin: Plugin): (r: Plugin)
  {
    if IsCompilerPlugin(plugin) then plugin.(version := Some(ExtractedProperty(COMPILER_PLUGIN_VERSION_PROPERTY)))
    else plugin
  }

  /** The kept plugins, in order; the compiler plugin carries the extracted version. */
  function KeptPlugins(p: MavenProject, plugins: seq<Plugin>): (r: seq<Plugin>)
    ensures |r| <= |plugins|
    ensures forall x :: x in r ==> x.artifactId !in IGNORED_PLUGINS && !(IsExtensionPlugin(x) && IsBare(x))
    ensures forall x :: x in r ==> (IsCompilerPlugin(x) ==>
      x.version == Some(ExtractedProperty(COMPILER_PLUGIN_VERSION_PROPERTY)) && !IsBare(x))
    ensures forall y :: y in plugins && !IsRemovedPlugin(p, y) ==> WithCompilerVersion(y) in r
    ensures forall x :: x in r ==> exists y :: y in plugins && !IsRemovedPlugin(p, y) && x == WithCompilerVersion(y)
    decreases |plugins|
  {
    if plugins == [] then []
    else
      var rest := KeptPlugins(p, plugins[1..]);
      assert forall y :: y in plugins <==> y == plugins[0] || y in plugins[1..];
      if IsRemovedPlugin(p, plugins[0]) then rest
      else [WithCompilerVersion(plugins[0])] + rest
  }

  // ---------------------------------------------------------------- plugin versions

  /** `candidate` is the same plugin, ignoring case, and has a version. */
  predicate LendsPluginVersion(plugin: Plugin, candidate: Plugin) {
    EqualsIgnoreCase(plugin.artifactId, candidate.artifactId) && candidate.version.Some?
  }

  predicate NoLender(plugin: Plugin, plugins: seq<Plugin>) {
    forall i :: 0 <= i < |plugins| ==> !LendsPluginVersion(plugin, plugins[i])
  }

  /** `plugins[i]` is the first plugin of the list that lends its version. */
  predicate IsFirstLender(plugin: Plugin, plugins: seq<Plugin>, i: int) {
    0 <= i < |plugins| && LendsPluginVersion(plugin, plugins[i])
    && forall j :: 0 <= j < i ==> !LendsPluginVersion(plugin, plugins[j])
  }

  /** `findResolvedPluginVersion`: the version of the first same-named versioned
      build plugin, else of the first such managed plugin; none is an error. */
  function FindResolvedPluginVersion(plugin: Plugin, buildPlugins: seq<Plugin>, pluginManagement: Option<seq<Plugin>>)
    : (r: Result<string>)
    ensures r.Failure? <==> NoLender(plugin, buildPlugins) && (pluginManagement.None? || NoLender(plugin, pluginManagement.value))
    ensures r.Failure? ==> r.error == IllegalState("Failed to determine plugin '" + plugin.artifactId + "' version")
    ensures !NoLender(plugin, buildPlugins) ==>
      exists i :: IsFirstLender(plugin, buildPlugins, i) && r == Success(buildPlugins[i].version.value)
    ensures NoLender(plugin, buildPlugins) && r.Success? ==>
      exists i :: IsFirstLender(plugin, pluginManagement.value, i) && r == Success(pluginManagement.value[i].version.value)
  {
    match FirstIndex(buildPlugins, (x: Plugin) => LendsPluginVersion(plugin, x))
    case Some(i) =>
      assert IsFirstLender(plugin, buildPlugins, i);
      Success(buildPlugins[i].version.value)
    case None =>
      var managed := if pluginManagement.Some? then pluginManagement.value else [];
      match FirstIndex(managed, (x: Plugin) => LendsPluginVersion(plugin, x))
      case Some(i) =>
        assert IsFirstLender(plugin, managed, i);
        Success(managed[i].version.value)
      case None =>
        Failure(IllegalState("Failed to determine plugin '" + plugin.artifactId + "' version"))
  }

  /** The version the `quarkus-parent` POM gives the plugin, unless this is that POM. */
  function ParentPomVersion(ctx: Context, p: MavenProject, plugin: Plugin): Option<string> {
    if PluginUtils.IsQuarkusParentPomProject(p.artifactId) then None
    else QuarkusParentPom.GetPluginVersion(ctx.parentPom, plugin)
  }

  /** Where a missing plugin version comes from, first source first: the
      `quarkus-parent` POM, the test parent's properties, the resolved plugins. */
  function LookupPluginVersion(ctx: Context, p: MavenProject, plugin: Plugin): (r: Result<string>)
    ensures ParentPomVersion(ctx, p, plugin).Some? ==> r == Success(ParentPomVersion(ctx, p, plugin).value)
    ensures (ParentPomVersion(ctx, p, plugin).None?
             && ParentProject.GetPluginVersionInParentProps(ctx.parent, plugin.artifactId).Some?) ==>
      r == Success(ParentProject.GetPluginVersionInParentProps(ctx.parent, plugin.artifactId).value)
    ensures r.Failure? <==>
      ParentPomVersion(ctx, p, plugin).None?
      && ParentProject.GetPluginVersionInParentProps(ctx.parent, plugin.artifactId).None?
      && FindResolvedPluginVersion(plugin, p.buildPlugins, p.pluginManagement).Failure?
  {
    var fromParentPom := ParentPomVersion(ctx, p, plugin);
    if fromParentPom.Some? then Success(fromParentPom.value)
    else
      var fromProperties := ParentProject.GetPluginVersionInParentProps(ctx.parent, plugin.artifactId);
      if fromProperties.Some? then Success(fromProperties.value)
      else FindResolvedPluginVersion(plugin, p.buildPlugins, p.pluginManagement)
  }

  /** Surefire and failsafe are managed by the test parent; every other plugin
      without a version needs one. */
  predicate NeedsVersion(plugin: Plugin) {
    plugin.version.None? && IsNotSurefireOrFailsafePlugin(plugin.artifactId)
  }

  /** The Quarkus Maven plugin takes the configurable platform group and version. */
  function UseQuarkusPlatform(ctx: Context, plugin: Plugin): (r: Plugin)
  {
    if ctx.collaborators.isQuarkusMavenPlugin(plugin.artifactId, plugin.groupId) then
      plugin.(groupId := ExtractedProperty(QUARKUS_PLATFORM_GROUP_ID),
              version := Some(ExtractedProperty(QUARKUS_PLATFORM_VERSION)))
    else plugin
  }

  /** A kept build plugin: versioned when it needs one, redirected to the
      platform when it is the Quarkus Maven plugin, and reported once. */
  function PluginStep(ctx: Context, p: MavenProject, plugin: Plugin): (r: Result<Outcome<Plugin>>)
    ensures r.Failure? <==> NeedsVersion(plugin) && LookupPluginVersion(ctx, p, plugin).Failure?
    ensures r.Success? ==> r.value.events == [ExtractionSummary.BuildPluginUsed(r.value.value)]
    ensures r.Success? ==> (r.value.value.artifactId == plugin.artifactId
                            && r.value.value.executionIds == plugin.executionIds
                            && (r.value.value.version.Some? || !IsNotSurefireOrFailsafePlugin(plugin.artifactId)))
    ensures (NeedsVersion(plugin) && r.Success?
             && !ctx.collaborators.isQuarkusMavenPlugin(plugin.artifactId, plugin.groupId)) ==>
      r.value.value == plugin.(version := Some(LookupPluginVersion(ctx, p, plugin).value))
    ensures !NeedsVersion(plugin) ==> r == Success(Outcome(UseQuarkusPlatform(ctx, plugin),
                                                          [ExtractionSummary.BuildPluginUsed(UseQuarkusPlatform(ctx, plugin))]))
  {
    var versioned :- if NeedsVersion(plugin) then VersionedPlugin(ctx, p, plugin) else Success(plugin);
    var x := UseQuarkusPlatform(ctx, versioned);
    Success(Outcome(x, [ExtractionSummary.BuildPluginUsed(x)]))
  }

  /** An unversioned plugin takes the version looked up for it. */
  function VersionedPlugin(ctx: Context, p: MavenProject, plugin: Plugin): (r: Result<Plugin>)
  {
    var version :- LookupPluginVersion(ctx, p, plugin);
    Success(plugin.(version := Some(version)))
  }

  /** The kept plugins, stepped in order: one `BuildPluginUsed` per plugin. */
  function PluginSteps(ctx: Context, p: MavenProject, plugins: seq<Plugin>)
    : (r: Result<Outcome<seq<Plugin>>>)
    ensures r.Success? <==> forall i :: 0 <= i < |plugins| ==> PluginStep(ctx, p, plugins[i]).Success?
    ensures r.Success? ==> (|r.value.value| == |plugins|
      && (forall i :: 0 <= i < |plugins| ==> r.value.value[i] == PluginStep(ctx, p, plugins[i]).value.value)
      && (forall i :: 0 <= i < |plugins| ==> r.value.value[i].artifactId == plugins[i].artifactId)
      && |r.value.events| == |plugins|
      && (forall i :: 0 <= i < |plugins| ==> r.value.events[i] == ExtractionSummary.BuildPluginUsed(r.value.value[i])))
    decreases |plugins|
  {
    if plugins == [] then Success(Outcome([], []))
    else
      match PluginStep(ctx, p, plugins[0])
      case Failure(e) => Failure(e)
      case Success(first) =>
        match PluginSteps(ctx, p, plugins[1..])
        case Failure(e) =>
          assert forall i :: 1 <= i < |plugins| ==> plugins[i] == plugins[1..][i - 1];
          Failure(e)
        case Success(rest) =>
          assert forall i :: 1 <= i < |plugins| ==> plugins[i] == plugins[1..][i - 1];
          StepsCons(ctx, p, plugins, first, rest);
          Success(Outcome([first.value] + rest.value, first.events + rest.events))
  }

  /** The first plugin's step in front of the rest's steps is the step of every plugin. */
  lemma StepsCons(ctx: Context, p: MavenProject, plugins: seq<Plugin>,
                  first: Outcome<Plugin>, rest: Outcome<seq<Plugin>>)
    requires plugins != []
    requires PluginStep(ctx, p, plugins[0]) == Success(first)
    requires forall i :: 1 <= i < |plugins| ==> PluginStep(ctx, p, plugins[i]).Success?
    requires |rest.value| == |plugins| - 1 && |rest.events| == |plugins| - 1
    requires forall i :: 1 <= i < |plugins| ==> rest.value[i - 1] == PluginStep(ctx, p, plugins[i]).value.value
    requires forall i :: 0 <= i < |rest.value| ==> rest.events[i] == ExtractionSummary.BuildPluginUsed(rest.value[i])
    ensures var v := [first.value] + rest.value;
            var ev := first.events + rest.events;
            (forall i :: 0 <= i < |plugins| ==> PluginStep(ctx, p, plugins[i]).Success?)
            && |v| == |plugins|
            && (forall i :: 0 <= i < |plugins| ==> v[i] == PluginStep(ctx, p, plugins[i]).value.value)
            && (forall i :: 0 <= i < |plugins| ==> v[i].artifactId == plugins[i].artifactId)
            && |ev| == |plugins|
            && (forall i :: 0 <= i < |plugins| ==> ev[i] == ExtractionSummary.BuildPluginUsed(v[i]))
  {
  }

  lemma StepsFailOnSomePlugin(ctx: Context, p: MavenProject, kept: seq<Plugin>)
    ensures PluginSteps(ctx, p, kept).Failure? <==> exists x :: x in kept && PluginStep(ctx, p, x).Failure?
  {
    if PluginSteps(ctx, p, kept).Failure? {
      var i :| 0 <= i < |kept| && PluginStep(ctx, p, kept[i]).Failure?;
      assert kept[i] in kept;
    }
  }

  lemma SteppedPluginsAreKept(kept: seq<Plugin>, stepped: seq<Plugin>)
    requires forall x :: x in kept ==> x.artifactId !in IGNORED_PLUGINS
    requires |stepped| == |kept| && forall i :: 0 <= i < |kept| ==> stepped[i].artifactId == kept[i].artifactId
    ensures forall x :: x in stepped ==> x.artifactId !in IGNORED_PLUGINS
  {
    forall x | x in stepped ensures x.artifactId !in IGNORED_PLUGINS {
      var i :| 0 <= i < |stepped| && stepped[i] == x;
      assert kept[i] in kept;
    }
  }

  /** `prepareBuild`: the plugins are pruned, versioned and reported; managed
      plugins only get the platform redirection. Versions are looked up among
      this module's resolved plugins, also for a profile's build. */
  function PrepareBuild(ctx: Context, p: MavenProject, build: Build): (r: Result<Outcome<Build>>)
    ensures r.Failure? <==> exists x :: x in KeptPlugins(p, build.plugins) && PluginStep(ctx, p, x).Failure?
    ensures r.Success? ==> forall x :: x in r.value.value.plugins ==>
      x.artifactId !in IGNORED_PLUGINS && (x.version.Some? || !IsNotSurefireOrFailsafePlugin(x.artifactId))
    ensures r.Success? ==> var kept := KeptPlugins(p, build.plugins);
      |r.value.value.plugins| == |kept|
      && (forall i :: 0 <= i < |kept| ==> r.value.value.plugins[i].artifactId == kept[i].artifactId)
      && |r.value.events| == |kept|
      && (forall i :: 0 <= i < |kept| ==> r.value.events[i] == ExtractionSummary.BuildPluginUsed(r.value.value.plugins[i]))
    ensures r.Success? ==> (r.value.value.pluginManagement.Some? <==> build.pluginManagement.Some?)
    ensures r.Success? && build.pluginManagement.Some? ==>
      |r.value.value.pluginManagement.value| == |build.pluginManagement.value|
      && forall i :: 0 <= i < |build.pluginManagement.value| ==>
        r.value.value.pluginManagement.value[i] == UseQuarkusPlatform(ctx, build.pluginManagement.value[i])
  {
    var kept := KeptPlugins(p, build.plugins);
    StepsFailOnSomePlugin(ctx, p, kept);
    var plugins :- PluginSteps(ctx, p, kept);
    SteppedPluginsAreKept(kept, plugins.value);
    var management := if build.pluginManagement.Some?
      then Some(Map(build.pluginManagement.value, (x: Plugin) => UseQuarkusPlatform(ctx, x)))
      else None;
    Success(Outcome(Build(plugins.value, management), plugins.events))
  }

  /** No Maven build means no build; otherwise it is prepared. */
  function PrepareOptionalBuild(ctx: Context, p: MavenProject, build: Option<Build>): (r: Result<Outcome<Option<Build>>>)
    ensures build.None? ==> r == Success(Outcome(None, []))
    ensures build.Some? ==> (r.Failure? <==> PrepareBuild(ctx, p, build.value).Failure?)
    ensures build.Some? && r.Success? ==>
      r.value.value == Some(PrepareBuild(ctx, p, build.value).value.value)
      && r.value.events == PrepareBuild(ctx, p, build.value).value.events
  {
    if build.None? then Success(Outcome(None, []))
    else
      var prepared :- PrepareBuild(ctx, p, build.value);
      Success(Outcome(Some(prepared.value), prepared.events))
  }

  /** `build()`: the module's own declared build, prepared. */
  function BuildOf(ctx: Context, p: MavenProject): (r: Result<Outcome<Option<Build>>>)
    ensures p.originalModel.build.None? ==> r == Success(Outcome(None, []))
    ensures r.Success? && r.value.value.Some? ==> forall x :: x in r.value.value.value.plugins ==>
      x.artifactId !in IGNORED_PLUGINS && (x.version.Some? || !IsNotSurefireOrFailsafePlugin(x.artifactId))
  {
    PrepareOptionalBuild(ctx, p, p.originalModel.build)
  }

  // ---------------------------------------------------------------- profiles and the whole model

  /** The declared dependency list as `dependencies()` leaves it: build-ordering
      entries removed, then exclusions cleared (extension deployment modules) or
      POM-typed Quarkus-own entries removed (all other modules). Profiles read it
      in this state. */
  function DeclaredAfterDependencies(p: MavenProject): (r: seq<Dependency>)
    ensures |r| <= |p.originalModel.dependencies|
    ensures forall x :: x in r ==> !IsBuildOrderingDependency(p, x)
    ensures forall x :: x in r ==> exists y :: y in p.originalModel.dependencies && x.artifactId == y.artifactId
  {
    var declared := p.originalModel.dependencies;
    if declared == [] then []
    else
      var kept := DropBuildOrderingDependencies(p, declared);
      if IsExtensionDeploymentTests(p) then
        var cleared := Map(kept, (d: Dependency) => ClearExclusions(p, d));
        assert forall x :: x in cleared ==> exists y :: y in kept && x == ClearExclusions(p, y) by {
          forall x | x in cleared ensures exists y :: y in kept && x == ClearExclusions(p, y) {
            var i :| 0 <= i < |cleared| && cleared[i] == x;
            assert kept[i] in kept;
          }
        }
        cleared
      else DropOwnPomDependencies(p, kept)
  }

  /** The project as `dependencies()` leaves it: only its declared dependency list changed. */
  function AfterDependencies(p: MavenProject): (r: MavenProject)
    ensures r.originalModel.dependencies == DeclaredAfterDependencies(p)
    ensures r.(originalModel := p.originalModel) == p
    ensures r.originalModel.(dependencies := p.originalModel.dependencies) == p.originalModel
  {
    p.(originalModel := p.originalModel.(dependencies := DeclaredAfterDependencies(p)))
  }

  /** One profile: its build, dependency management and dependencies prepared
      like the module's, its properties filtered like the module's; its id and
      modules stay. Events: build, then management, then dependencies. */
  function PrepareProfile(ctx: Context, p: MavenProject, declared: seq<Dependency>, profile: Profile)
    : (r: Result<Outcome<Profile>>)
    ensures r.Failure? <==>
      PrepareOptionalBuild(ctx, p, profile.build).Failure?
      || PrepareDependencyManagement(ctx, p.version, profile.dependencyManagement).Failure?
      || ProfileDependencies(ctx, p, declared, profile.dependencies).Failure?
    ensures r.Success? ==>
      r.value.value.id == profile.id && r.value.value.modules == profile.modules
      && (r.value.value.build.Some? <==> profile.build.Some?)
      && r.value.value.properties == GetProperties(ctx.parent, Some(profile.properties), IsTestModule(p))
      && r.value.events == PrepareOptionalBuild(ctx, p, profile.build).value.events
                           + PrepareDependencyManagement(ctx, p.version, profile.dependencyManagement).value.events
                           + ProfileDependencies(ctx, p, declared, profile.dependencies).value.events
    ensures r.Success? ==> forall x :: x in r.value.value.dependencies ==>
      !(IsQuarkusOwnDependency(x, p.version) && IsPomPackageType(x))
  {
    var build :- PrepareOptionalBuild(ctx, p, profile.build);
    var dm :- PrepareDependencyManagement(ctx, p.version, profile.dependencyManagement);
    var deps :- ProfileDependencies(ctx, p, declared, profile.dependencies);
    var properties := GetProperties(ctx.parent, Some(profile.properties), IsTestModule(p));
    Success(Outcome(profile.(build := build.value, dependencyManagement := dm.value, dependencies := deps.value,
                             properties := properties),
                    build.events + dm.events + deps.events))
  }

  /** `profiles()`: every declared profile, prepared, in order. */
  function Profiles(ctx: Context, p: MavenProject): (r: Result<Outcome<seq<Profile>>>)
    ensures r.Success? ==> (|r.value.value| == |p.originalModel.profiles|
      && forall i :: 0 <= i < |p.originalModel.profiles| ==>
        (r.value.value[i].id == p.originalModel.profiles[i].id
         && r.value.value[i].modules == p.originalModel.profiles[i].modules))
    ensures r.Failure? <==> (exists i :: (0 <= i < |p.originalModel.profiles|
      && PrepareProfile(ctx, p, DeclaredAfterDependencies(p), p.originalModel.profiles[i]).Failure?))
  {
    var declared := DeclaredAfterDependencies(p);
    MapSteps(p.originalModel.profiles, (x: Profile) => PrepareProfile(ctx, p, declared, x))
  }

  /** `originalModel()`: the declared POM with its build, dependencies,
      dependency management and profiles prepared; nothing else changes. */
  function OriginalModel(ctx: Context, p: MavenProject): (r: Result<Outcome<Model>>)
    ensures r.Success? ==> exists build, deps, dm, profiles ::
      r.value.value == p.originalModel.(build := build, dependencies := deps, dependencyManagement := dm, profiles := profiles)
    ensures r.Success? ==>
      Dependencies(ctx, p).Success? && r.value.value.dependencies == Dependencies(ctx, p).value.value
      && BuildOf(ctx, p).Success? && r.value.value.build == BuildOf(ctx, p).value.value
      && |r.value.value.profiles| == |p.originalModel.profiles|
    ensures r.Failure? <==>
      BuildOf(ctx, p).Failure? || Dependencies(ctx, p).Failure?
      || PrepareDependencyManagement(ctx, p.version, p.originalModel.dependencyManagement).Failure?
      || Profiles(ctx, p).Failure?
  {
    var build :- BuildOf(ctx, p);
    var deps :- Dependencies(ctx, p);
    var dm :- PrepareDependencyManagement(ctx, p.version, p.originalModel.dependencyManagement);
    var profiles :- Profiles(ctx, p);
    Success(Outcome(p.originalModel.(build := build.value, dependencies := deps.value,
                                     dependencyManagement := dm.value, profiles := profiles.value),
                    build.events + deps.events + dm.events + profiles.events))
  }
}
