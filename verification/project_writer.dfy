/** `project/writer/ProjectWriterImpl.java`: what the extraction does with each
    module of the Quarkus reactor, in reactor order — feeds the generated
    parent, drops unsupported modules from their parent, copies modules whole
    or writes a test module — and which summary it stores afterwards.

  The generated modules' POMs are kept by target path; the test parent, the
  stores and the collected metadata are the `Context` every module reads.
*/
module ProjectWriter {
  import opened Wrappers
  import opened Text
  import opened Seqs
  import opened Pom
  import opened MavenUtils
  import PluginUtils
  import FileSystemStorage
  import UnsupportedProjects
  import QuarkusParentPom
  import QuarkusBuildParent
  import ParentProject
  import opened ProjectImpl
  import ProjectBuild
  import TestModuleProject
  import TestProjectCustomizer

  const INTEGRATION_TESTS_PARENT := "quarkus-integration-tests-parent"
  /** The artifactId of the generated parent. */
  const MAIN_TESTS := "quarkus-main-tests"
  const SEPARATOR := '/'

  /** The generated project so far: the shared state and the written module
      POMs, by target path. */
  datatype Target = Target(ctx: Context, poms: map<string, Model>)

  // ---------------------------------------------------------------- dispatch

  datatype Action =
    | CopyBuildParent
    | ConfigureIntegrationTestsBuild
    | RemoveUnsupported
    | CollectPluginVersions
    | CopyWholeProject
    | CreateTestModule
    | NoAction

  predicate IsIntegrationTestsParent(p: MavenProject) {
    EqualsIgnoreCase(p.artifactId, INTEGRATION_TESTS_PARENT)
  }

  predicate IsCopiedAsIs(p: MavenProject) {
    ParentProject.CopyAsIs(p.artifactId, IsIntegrationTestModule(p), p.packaging)
  }

  /** `writeProject`'s first-match dispatch. */
  function ActionFor(p: MavenProject): (r: Action)
    ensures r == CopyBuildParent <==> PluginUtils.IsQuarkusBuildParent(p.artifactId)
    ensures r == ConfigureIntegrationTestsBuild <==>
      !PluginUtils.IsQuarkusBuildParent(p.artifactId) && IsIntegrationTestsParent(p)
    ensures r == RemoveUnsupported <==>
      !PluginUtils.IsQuarkusBuildParent(p.artifactId) && !IsIntegrationTestsParent(p)
      && UnsupportedProjects.IsNotSupportedProject(p.targetRelativePath)
    ensures r == CollectPluginVersions <==>
      !PluginUtils.IsQuarkusBuildParent(p.artifactId) && !IsIntegrationTestsParent(p)
      && !UnsupportedProjects.IsNotSupportedProject(p.targetRelativePath)
      && PluginUtils.IsQuarkusParentPomProject(p.artifactId)
    ensures r == CopyWholeProject <==>
      !PluginUtils.IsQuarkusBuildParent(p.artifactId) && !IsIntegrationTestsParent(p)
      && !UnsupportedProjects.IsNotSupportedProject(p.targetRelativePath)
      && !PluginUtils.IsQuarkusParentPomProject(p.artifactId) && IsCopiedAsIs(p)
    ensures r == CreateTestModule <==>
      !PluginUtils.IsQuarkusBuildParent(p.artifactId) && !IsIntegrationTestsParent(p)
      && !UnsupportedProjects.IsNotSupportedProject(p.targetRelativePath)
      && !PluginUtils.IsQuarkusParentPomProject(p.artifactId) && !IsCopiedAsIs(p) && IsTestModule(p)
  {
    if PluginUtils.IsQuarkusBuildParent(p.artifactId) then CopyBuildParent
    else if IsIntegrationTestsParent(p) then ConfigureIntegrationTestsBuild
    else if UnsupportedProjects.IsNotSupportedProject(p.targetRelativePath) then RemoveUnsupported
    else if PluginUtils.IsQuarkusParentPomProject(p.artifactId) then CollectPluginVersions
    else if IsCopiedAsIs(p) then CopyWholeProject
    else if IsTestModule(p) then CreateTestModule
    else NoAction
  }

  datatype SummaryKind = FinalSummary | PartialSummary

  /** The documentation module is the last one of the reactor: it stores the
      final summary, every other module a partial one. */
  function SummaryFor(artifactId: string): (r: SummaryKind)
    ensures r == FinalSummary <==> PluginUtils.IsLastModule(artifactId)
  {
    if PluginUtils.IsLastModule(artifactId) then FinalSummary else PartialSummary
  }

  // ---------------------------------------------------------------- paths and module lists

  /** The text after the last separator (all of it without one). */
  function AfterLastSeparator(path: string): (r: string)
    ensures SEPARATOR !in r
    ensures |r| <= |path| && path[|path| - |r|..] == r
    ensures |r| < |path| ==> path[|path| - |r| - 1] == SEPARATOR
    decreases |path|
  {
    if path == [] then []
    else if path[|path| - 1] == SEPARATOR then []
    else
      var init := AfterLastSeparator(path[..|path| - 1]);
      assert path[..|path| - 1][|path| - 1 - |init|..] == init;
      init + [path[|path| - 1]]
  }

  /** `path` without its trailing separators. */
  function DropTrailingSeparators(path: string): (r: string)
    ensures |r| <= |path| && path[..|r|] == r
    ensures r == [] || r[|r| - 1] != SEPARATOR
    ensures forall i :: |r| <= i < |path| ==> path[i] == SEPARATOR
    decreases |path|
  {
    if path != [] && path[|path| - 1] == SEPARATOR then DropTrailingSeparators(path[..|path| - 1]) else path
  }

  /** `Path.getFileName()` of a relative target path: its last name. */
  function FileName(path: string): (r: string)
    ensures SEPARATOR !in r
    ensures SEPARATOR !in path ==> r == path
  {
    AfterLastSeparator(DropTrailingSeparators(path))
  }

  /** `List.remove(Object)`: the first occurrence goes. */
  function RemoveFirst(xs: seq<string>, x: string): (r: seq<string>)
    ensures x !in xs ==> r == xs
    ensures x in xs ==> |r| == |xs| - 1 && multiset(r) == multiset(xs) - multiset{x}
  {
    match FirstIndex(xs, (y: string) => y == x)
    case None => xs
    case Some(i) =>
      assert xs == xs[..i] + [x] + xs[i + 1..];
      xs[..i] + xs[i + 1..]
  }

  /** In a list without repetitions the removed name is gone. */
  lemma RemoveFirstOfDistinct(xs: seq<string>, x: string)
    requires NoDuplicates(xs)
    ensures x !in RemoveFirst(xs, x)
    ensures forall y :: y != x ==> (y in RemoveFirst(xs, x) <==> y in xs)
  {
    var r := RemoveFirst(xs, x);
    if x in xs {
      var i := FirstIndex(xs, (y: string) => y == x).value;
      assert r == xs[..i] + xs[i + 1..];
      assert multiset(xs)[x] == 1 by {
        assert xs == xs[..i] + [x] + xs[i + 1..];
        assert x !in xs[..i] && x !in xs[i + 1..] by {
          forall j | 0 <= j < |xs| && j != i ensures xs[j] != x {
            if j < i { assert xs[j] != xs[i]; } else { assert xs[i] != xs[j]; }
          }
        }
      }
      assert multiset(r)[x] == 0;
    }
    forall y | y != x ensures y in r <==> y in xs {
      if x in xs {
        assert multiset(r)[y] == multiset(xs)[y];
      }
    }
  }

  /** A profile listing the module no longer does. */
  function WithoutModule(profile: Profile, name: string): (r: Profile)
    ensures r == profile.(modules := RemoveFirst(profile.modules, name))
  {
    if name in profile.modules then profile.(modules := RemoveFirst(profile.modules, name)) else profile
  }

  /** The parent POM without the module, in its module list and in every profile's. */
  function RemoveModule(parent: Model, name: string): (r: Model)
    ensures r == parent.(modules := r.modules, profiles := r.profiles)
    ensures r.modules == RemoveFirst(parent.modules, name)
    ensures |r.profiles| == |parent.profiles|
      && forall i :: 0 <= i < |parent.profiles| ==> r.profiles[i] == parent.profiles[i].(modules := RemoveFirst(parent.profiles[i].modules, name))
  {
    parent.(modules := RemoveFirst(parent.modules, name),
            profiles := Map(parent.profiles, (x: Profile) => WithoutModule(x, name)))
  }

  // ---------------------------------------------------------------- the actions

  /** `copyQuarkusBuildParentToOurParentProject`: the build parent's
      properties and version go to the test parent, and its managed
      dependencies are remembered. */
  function CopyQuarkusBuildParent(t: Target, p: MavenProject): (r: Result<Outcome<Target>>)
    ensures !IsTestModule(p) ==> r.Success?
    ensures r.Success? ==> r.value.value.poms == t.poms && r.value.value.ctx.buildParentKeys >= t.ctx.buildParentKeys
    ensures r.Success? ==> r.value.value.ctx == t.ctx.(parent := r.value.value.ctx.parent, buildParentKeys := r.value.value.ctx.buildParentKeys)
    ensures r.Success? ==>
      (var parent := r.value.value.ctx.parent;
       parent.version == Some(p.version)
       && QUARKUS_PLATFORM_VERSION in parent.properties && parent.properties[QUARKUS_PLATFORM_VERSION] == p.version
       && (forall k :: k in parent.properties <==>
             (k in t.ctx.parent.properties || k == QUARKUS_PLATFORM_VERSION || k == QUARKUS_COMMUNITY_VERSION
              || (p.properties.Some? && k in ParentProject.NotIgnored(Properties(t.ctx, p))))))
  {
    var properties := if p.properties.None? then None else Some(Properties(t.ctx, p));
    var parent := ParentProject.SetQuarkusVersion(ParentProject.AddProperties(t.ctx.parent, properties), p.version);
    var ctx := t.ctx.(parent := parent);
    var dm :- DependencyManagement(ctx, p);
    var keys := QuarkusBuildParent.RememberDependencyManagement(ctx.buildParentKeys, dm.value);
    Success(Outcome(t.(ctx := ctx.(buildParentKeys := keys)), dm.events))
  }

  /** `configureIntegrationTestsBuild`: the parent's integration-tests build
      profile takes the prepared build of this module. */
  function ConfigureItBuild(t: Target, p: MavenProject): (r: Result<Outcome<Target>>)
    ensures r.Success? ==> r.value.value.poms == t.poms && r.value.value.ctx == t.ctx.(parent := r.value.value.ctx.parent)
    ensures MavenUtils.GetProfile(t.ctx.parent.profiles, ParentProject.INTEGRATION_TESTS_BUILD_PROFILE).None? ==>
      r == Failure(NoSuchElement("No value present"))
    ensures MavenUtils.GetProfile(t.ctx.parent.profiles, ParentProject.INTEGRATION_TESTS_BUILD_PROFILE).Some? ==>
      (r.Failure? <==> ProjectBuild.OriginalModel(t.ctx, p).Failure?)
      && (r.Failure? ==> r.error == ProjectBuild.OriginalModel(t.ctx, p).error)
    ensures r.Success? ==>
      Success(r.value.value.ctx.parent)
      == ParentProject.ConfigureIntegrationTestsBuild(t.ctx.parent, ProjectBuild.OriginalModel(t.ctx, p).value.value.build)
  {
    // the profile is looked up before the project's original model is read
    if MavenUtils.GetProfile(t.ctx.parent.profiles, ParentProject.INTEGRATION_TESTS_BUILD_PROFILE).None? then
      Failure(NoSuchElement("No value present"))
    else
      var original :- ProjectBuild.OriginalModel(t.ctx, p);
      var parent := ParentProject.ConfigureIntegrationTestsBuild(t.ctx.parent, original.value.build).value;
      Success(Outcome(t.(ctx := t.ctx.(parent := parent)), original.events))
  }

  /** The written POMs with the module dropped from the parent's, when that exists. */
  function DropFromParentPom(poms: map<string, Model>, parentTarget: string, name: string): (r: map<string, Model>)
    ensures r.Keys == poms.Keys
    ensures forall k :: k in poms && k != parentTarget ==> r[k] == poms[k]
    ensures parentTarget in poms ==> r[parentTarget] == RemoveModule(poms[parentTarget], name)
  {
    if parentTarget in poms then poms[parentTarget := RemoveModule(poms[parentTarget], name)] else poms
  }

  /** `removeUnsupportedProject`: a nested module is dropped from its parent's
      already written POM (the module list and every profile listing it);
      direct submodules and parents without a written POM are left alone. */
  function RemoveUnsupportedProject(t: Target, p: MavenProject, parentTarget: string): (r: Result<Target>)
    ensures r.Failure? <==> IsDirectSubModule(t.ctx, p).Failure?
    ensures IsDirectSubModule(t.ctx, p) == Success(true) ==> r == Success(t)
    ensures IsDirectSubModule(t.ctx, p) == Success(false) ==>
      r == Success(t.(poms := DropFromParentPom(t.poms, parentTarget, FileName(p.targetRelativePath))))
  {
    var direct :- IsDirectSubModule(t.ctx, p);
    if direct then Success(t)
    else Success(t.(poms := DropFromParentPom(t.poms, parentTarget, FileName(p.targetRelativePath))))
  }

  /** A nested unsupported module disappears from its parent's module list
      (which Maven keeps free of repetitions); every other module stays. */
  lemma UnsupportedModuleLeavesParent(t: Target, p: MavenProject, parentTarget: string)
    requires IsDirectSubModule(t.ctx, p) == Success(false)
    requires parentTarget in t.poms && NoDuplicates(t.poms[parentTarget].modules)
    ensures RemoveUnsupportedProject(t, p, parentTarget).Success?
    ensures var modules := RemoveUnsupportedProject(t, p, parentTarget).value.poms[parentTarget].modules;
      FileName(p.targetRelativePath) !in modules
      && forall m :: m != FileName(p.targetRelativePath) ==> (m in modules <==> m in t.poms[parentTarget].modules)
  {
    RemoveFirstOfDistinct(t.poms[parentTarget].modules, FileName(p.targetRelativePath));
  }

  /** `collectPluginVersions` for `quarkus-parent`: its prepared build (prepared
      twice, as the two `build()` calls do) feeds the stored plugin versions. */
  function CollectParentPluginVersions(t: Target, p: MavenProject): (r: Result<Outcome<Target>>)
    requires QuarkusParentPom.UniqueKeys(t.ctx.parentPom.entries)
    ensures !PluginUtils.IsQuarkusParentPomProject(p.artifactId) ==> r.Failure?
    ensures r.Success? ==>
      (r.value.value.poms == t.poms
       && r.value.value.ctx == t.ctx.(files := r.value.value.ctx.files, parentPom := r.value.value.ctx.parentPom)
       && QuarkusParentPom.UniqueKeys(r.value.value.ctx.parentPom.entries))
    ensures r.Success? ==>
      (ProjectBuild.BuildOf(t.ctx, p).Success?
       && var build := ProjectBuild.BuildOf(t.ctx, p).value;
       r.value.events == build.events + build.events)
  {
    var build :- ProjectBuild.BuildOf(t.ctx, p);
    var collected :- QuarkusParentPom.CollectPluginVersions(t.ctx.files, t.ctx.parentPom, p.artifactId,
                                                             Properties(t.ctx, p), build.value);
    Success(Outcome(t.(ctx := t.ctx.(files := collected.0, parentPom := collected.1)), build.events + build.events))
  }

  /** `addToParentPomModel`: direct test submodules are listed in their target
      profile of the parent. */
  function AddToParentPomModel(t: Target, p: MavenProject): (r: Result<Target>)
    ensures r.Success? ==> r.value.poms == t.poms && r.value.ctx == t.ctx.(parent := r.value.ctx.parent)
    ensures (IsDirectSubModule(t.ctx, p) == Success(false)
             || (IsDirectSubModule(t.ctx, p).Success? && !IsTestModule(p))) ==> r == Success(t)
    ensures IsDirectSubModule(t.ctx, p) == Success(true) && IsTestModule(p) ==>
      (r.Failure? <==> ParentProject.AddTestModule(t.ctx.parent, p.targetRelativePath, TargetProfileName(p)).Failure?)
      && (r.Success? ==> r.value.ctx.parent == ParentProject.AddTestModule(t.ctx.parent, p.targetRelativePath, TargetProfileName(p)).value)
  {
    var direct :- IsDirectSubModule(t.ctx, p);
    if direct && IsTestModule(p) then
      var parent :- ParentProject.AddTestModule(t.ctx.parent, p.targetRelativePath, TargetProfileName(p));
      Success(t.(ctx := t.ctx.(parent := parent)))
    else Success(t)
  }

  /** `createMavenModule`: the module is registered with the parent and its POM written. */
  function CreateMavenModule(t: Target, p: MavenProject, model: Model): (r: Result<Target>)
    ensures r.Failure? <==> AddToParentPomModel(t, p).Failure?
    ensures r.Success? ==> p.targetRelativePath in r.value.poms && r.value.poms[p.targetRelativePath] == model
    ensures r.Success? ==>
      (r.value.poms.Keys == t.poms.Keys + {p.targetRelativePath}
       && (forall k :: k in t.poms && k != p.targetRelativePath ==> r.value.poms[k] == t.poms[k]))
    ensures r.Success? ==> r.value.ctx == t.ctx.(parent := r.value.ctx.parent)
  {
    var registered :- AddToParentPomModel(t, p);
    Success(registered.(poms := registered.poms[p.targetRelativePath := model]))
  }

  /** The parent of a module copied whole: in the test group, and pointing at
      the generated parent when the module is a direct submodule. */
  function CopiedParent(parent: Parent, p: MavenProject, direct: bool): (r: Parent)
    ensures r.groupId == Some(TEST_PARENT_GROUP_ID)
    ensures !direct ==> r == parent.(groupId := Some(TEST_PARENT_GROUP_ID))
    ensures direct ==> r == parent.(groupId := Some(TEST_PARENT_GROUP_ID), artifactId := Some(MAIN_TESTS),
                                    version := Some(p.version), relativePath := ComputeRelativePath(p.targetRelativePath))
  {
    var grouped := parent.(groupId := Some(TEST_PARENT_GROUP_ID));
    if direct then grouped.(artifactId := Some(MAIN_TESTS), version := Some(p.version),
                            relativePath := ComputeRelativePath(p.targetRelativePath))
    else grouped
  }

  /** The customised module written under its target path, and the parent
      managing it. */
  function WriteManaged(t: Target, p: MavenProject, direct: bool, model: Model): (r: Result<Target>)
    ensures r.Success? ==>
      (p.targetRelativePath in r.value.poms
       && TestProjectCustomizer.KeepsIdentity(model, r.value.poms[p.targetRelativePath]))
    ensures r.Success? ==> (forall k :: k in t.poms && k != p.targetRelativePath ==> k in r.value.poms && r.value.poms[k] == t.poms[k])
    ensures r.Success? ==>
      (r.value.ctx.parent.dependencyManagement.Some?
       && ParentProject.ManagedProjectDependency(p.artifactId) in r.value.ctx.parent.dependencyManagement.value)
    ensures r.Success? ==> r.value.ctx.parentPom == t.ctx.parentPom
  {
    var customized :- TestProjectCustomizer.CustomizeIfNecessary(t.ctx.parent, t.ctx.files, p, model);
    var written :- CreateMavenModule(t.(ctx := t.ctx.(files := customized.1)), p, customized.0);
    var parent :- ParentProject.AddManagedProject(written.ctx.parent, p.artifactId, IsIntegrationTestModule(p),
                                                   direct, p.targetRelativePath);
    assert parent.dependencyManagement.value[|parent.dependencyManagement.value| - 1] == ParentProject.ManagedProjectDependency(p.artifactId);
    Success(written.(ctx := written.ctx.(parent := parent)))
  }

  /** `copyWholeProject`: the prepared original POM under the test parent,
      customised, written, then managed by the parent so test modules find it.
      A project without a parent is the `NullPointerException` of `getParent()`. */
  function CopyWhole(t: Target, p: MavenProject): (r: Result<Outcome<Target>>)
    ensures r.Success? ==>
      (ProjectBuild.OriginalModel(t.ctx, p).Success? && IsDirectSubModule(t.ctx, p).Success?
       && var original := ProjectBuild.OriginalModel(t.ctx, p).value;
       original.value.parent.Some? && r.value.events == original.events
       && p.targetRelativePath in r.value.value.poms
       && r.value.value.poms[p.targetRelativePath].parent
          == Some(CopiedParent(original.value.parent.value, p, IsDirectSubModule(t.ctx, p).value)))
    ensures r.Success? ==> (forall k :: k in t.poms && k != p.targetRelativePath ==> k in r.value.value.poms && r.value.value.poms[k] == t.poms[k])
    ensures r.Success? ==>
      (r.value.value.ctx.parent.dependencyManagement.Some?
       && ParentProject.ManagedProjectDependency(p.artifactId) in r.value.value.ctx.parent.dependencyManagement.value)
    ensures r.Success? ==> r.value.value.ctx.parentPom == t.ctx.parentPom
  {
    var original :- ProjectBuild.OriginalModel(t.ctx, p);
    if original.value.parent.None? then Failure(NullPointer("the project has no parent"))
    else
      var direct :- IsDirectSubModule(t.ctx, p);
      var model := original.value.(parent := Some(CopiedParent(original.value.parent.value, p, direct)));
      var written :- WriteManaged(t, p, direct, model);
      Success(Outcome(written, original.events))
  }

  /** The customised test module written under its target path. */
  function WriteCustomized(t: Target, p: MavenProject, model: Model): (r: Result<Target>)
    ensures r.Success? ==>
      (p.targetRelativePath in r.value.poms
       && TestProjectCustomizer.KeepsIdentity(model, r.value.poms[p.targetRelativePath]))
    ensures r.Success? ==> (forall k :: k in t.poms && k != p.targetRelativePath ==> k in r.value.poms && r.value.poms[k] == t.poms[k])
    ensures r.Success? ==> r.value.ctx.parentPom == t.ctx.parentPom
  {
    var customized :- TestProjectCustomizer.CustomizeIfNecessary(t.ctx.parent, t.ctx.files, p, model);
    CreateMavenModule(t.(ctx := t.ctx.(files := customized.1)), p, customized.0)
  }

  /** `createTestModuleFrom`: the test-module POM, customised and written. */
  function CreateTestModuleFrom(t: Target, p: MavenProject, skeleton: Model): (r: Result<Outcome<Target>>)
    ensures r.Success? ==>
      (TestModuleProject.Create(t.ctx, p, skeleton).Success?
       && r.value.events == TestModuleProject.Create(t.ctx, p, skeleton).value.events
       && p.targetRelativePath in r.value.value.poms
       && var written := r.value.value.poms[p.targetRelativePath];
       written.artifactId == Some(p.artifactId) && written.version == Some(p.version)
       && written.parent.Some? && written.parent.value.groupId == Some(TEST_PARENT_GROUP_ID))
    ensures r.Success? ==> (forall k :: k in t.poms && k != p.targetRelativePath ==> k in r.value.value.poms && r.value.value.poms[k] == t.poms[k])
    ensures r.Success? ==> r.value.value.ctx.parentPom == t.ctx.parentPom
  {
    var testModel :- TestModuleProject.Create(t.ctx, p, skeleton);
    var written :- WriteCustomized(t, p, testModel.value);
    Success(Outcome(written, testModel.events))
  }

  // ---------------------------------------------------------------- one module

  /** Where the generated parent POM is written: the target directory itself. */
  const ROOT := ""

  /** The outcome of writing one module: the generated project, the events it
      reported and the summary stored after it. */
  datatype Written = Written(target: Target, events: seq<Event>, summary: SummaryKind)

  /** The extraction's work for one module, before the summary is stored. */
  function Act(t: Target, p: MavenProject, parentTarget: string, skeleton: Model): (r: Result<Outcome<Target>>)
    requires QuarkusParentPom.UniqueKeys(t.ctx.parentPom.entries)
    ensures ActionFor(p) == NoAction ==> r == Success(Outcome(t, []))
    ensures r.Success? ==> forall k :: k in t.poms && k != p.targetRelativePath && k != parentTarget ==>
      k in r.value.value.poms && r.value.value.poms[k] == t.poms[k]
    ensures r.Success? && (ActionFor(p) == CopyWholeProject || ActionFor(p) == CreateTestModule) ==>
      p.targetRelativePath in r.value.value.poms
    ensures r.Success? && ActionFor(p) != CopyWholeProject && ActionFor(p) != CreateTestModule ==>
      r.value.value.poms.Keys == t.poms.Keys
    ensures r.Success? ==> QuarkusParentPom.UniqueKeys(r.value.value.ctx.parentPom.entries)
  {
    match ActionFor(p)
    case CopyBuildParent => CopyQuarkusBuildParent(t, p)
    case ConfigureIntegrationTestsBuild => ConfigureItBuild(t, p)
    case RemoveUnsupported =>
      var removed :- RemoveUnsupportedProject(t, p, parentTarget);
      Success(Outcome(removed, []))
    case CollectPluginVersions => CollectParentPluginVersions(t, p)
    case CopyWholeProject => CopyWhole(t, p)
    case CreateTestModule => CreateTestModuleFrom(t, p, skeleton)
    case NoAction => Success(Outcome(t, []))
  }

  /** `writeProject`: the module's action, then, after the documentation
      module, the generated parent written to the target directory. The
      parent's target path and the test-module skeleton are the inputs the
      Java code reads from disk. */
  function WriteProject(t: Target, p: MavenProject, parentTarget: string, skeleton: Model): (r: Result<Written>)
    requires QuarkusParentPom.UniqueKeys(t.ctx.parentPom.entries)
    ensures r.Failure? <==> Act(t, p, parentTarget, skeleton).Failure?
    ensures r.Success? ==>
      (r.value.summary == SummaryFor(p.artifactId) && r.value.events == Act(t, p, parentTarget, skeleton).value.events)
    ensures r.Success? && PluginUtils.IsLastModule(p.artifactId) ==>
      ROOT in r.value.target.poms && r.value.target.poms[ROOT] == r.value.target.ctx.parent
    ensures r.Success? && !PluginUtils.IsLastModule(p.artifactId) ==> r.value.target == Act(t, p, parentTarget, skeleton).value.value
    ensures r.Success? ==> QuarkusParentPom.UniqueKeys(r.value.target.ctx.parentPom.entries)
    ensures r.Success? ==>
      (forall k :: k in t.poms && k != p.targetRelativePath && k != parentTarget && k != ROOT ==>
         k in r.value.target.poms && r.value.target.poms[k] == t.poms[k])
  {
    var done :- Act(t, p, parentTarget, skeleton);
    var target := if PluginUtils.IsLastModule(p.artifactId)
                  then done.value.(poms := done.value.poms[ROOT := done.value.ctx.parent])
                  else done.value;
    Success(Written(target, done.events, SummaryFor(p.artifactId)))
  }
}
