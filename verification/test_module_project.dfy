/** `project/result/TestModuleProject.java`: the POM of one extracted test
    module, built from the test-module skeleton and the rewritten parts of the
    project it comes from.
*/
module TestModuleProject {
  import opened Wrappers
  import opened Pom
  import opened MavenUtils
  import opened ProjectImpl
  import opened ProjectBuild
  import ParentProject

  const DESCRIPTION_PREFIX := "Tests extracted from project "

  /** The test module's parent: for a direct submodule, the skeleton's parent
      pointing at the generated parent with this version; otherwise the
      original parent, read through `originalModel()` (which prepares the whole
      declared POM, reports what it finds and leaves the declared dependency
      list as `dependencies()` does). Either way it belongs to the test group.
      A missing parent is the `NullPointerException` of `getParent()`. The
      project state after the call is returned as well. */
  function TestModuleParent(ctx: Context, p: MavenProject, skeleton: Model)
    : (r: Result<(Outcome<Parent>, MavenProject)>)
    ensures IsDirectSubModule(ctx, p).Failure? ==> r.Failure?
    ensures r.Success? ==> r.value.0.value.groupId == Some(TEST_PARENT_GROUP_ID)
    ensures IsDirectSubModule(ctx, p) == Success(true) ==>
      (r.Success? <==> skeleton.parent.Some?)
      && (r.Success? ==> r.value == (Outcome(skeleton.parent.value.(groupId := Some(TEST_PARENT_GROUP_ID),
                                                                    version := Some(p.version),
                                                                    relativePath := ComputeRelativePath(p.targetRelativePath)), []),
                                     p))
    ensures IsDirectSubModule(ctx, p) == Success(false) ==>
      (r.Success? <==> OriginalModel(ctx, p).Success? && p.originalModel.parent.Some?)
      && (r.Success? ==> r.value.0.value == p.originalModel.parent.value.(groupId := Some(TEST_PARENT_GROUP_ID))
                         && r.value.0.events == OriginalModel(ctx, p).value.events
                         && r.value.1 == AfterDependencies(p))
  {
    var direct :- IsDirectSubModule(ctx, p);
    if direct then
      if skeleton.parent.None? then Failure(NullPointer("the test-module skeleton has no parent"))
      else
        Success((Outcome(skeleton.parent.value.(groupId := Some(TEST_PARENT_GROUP_ID), version := Some(p.version),
                                                relativePath := ComputeRelativePath(p.targetRelativePath)), []),
                 p))
    else
      var original :- OriginalModel(ctx, p);
      if original.value.parent.None? then Failure(NullPointer("the project has no parent"))
      else Success((Outcome(original.value.parent.value.(groupId := Some(TEST_PARENT_GROUP_ID)), original.events),
                    AfterDependencies(p)))
  }

  /** The parts of a test module's POM taken from the (rewritten) project, in
      the order `create` computes them. */
  datatype Parts = Parts(dependencies: seq<Dependency>, repositories: seq<Repository>,
                         pluginRepositories: seq<Repository>, dependencyManagement: Option<seq<Dependency>>,
                         build: Option<Build>, profiles: seq<Profile>)

  /** The project's parts with the events reported while computing them; the
      first failing part ends the computation. */
  function PartsOf(ctx: Context, q: MavenProject): (r: Result<Outcome<Parts>>)
    ensures r.Success? ==> DependencyManagement(ctx, q).Success?
                           && r.value.value.dependencyManagement == DependencyManagement(ctx, q).value.value
    ensures r.Success? ==>
      (forall x :: x in r.value.value.repositories <==> x in q.repositories && IsNotCentralRepository(x))
      && (forall x :: x in r.value.value.pluginRepositories <==> x in q.pluginRepositories && IsNotCentralRepository(x))
    ensures r.Success? ==> forall x :: x in r.value.value.dependencies && x.artifactId in ParentProject.COPY_AS_IS_ARTIFACT_IDS
                                       ==> x.version.None?
    ensures Dependencies(ctx, q).Failure? || DependencyManagement(ctx, q).Failure? ==> r.Failure?
  {
    var deps :- Dependencies(ctx, q);
    var repositories := Repositories(q);
    var pluginRepositories := PluginRepositories(q);
    var dm :- DependencyManagement(ctx, q);
    var build :- BuildOf(ctx, q);
    var profiles :- Profiles(ctx, q);
    Success(Outcome(Parts(deps.value, repositories.value, pluginRepositories.value, dm.value, build.value, profiles.value),
                    deps.events + repositories.events + pluginRepositories.events
                    + dm.events + build.events + profiles.events))
  }

  /** The test-module POM for the project `q` that `dependencies()` left
      behind (`p` with at most its declared dependency list changed), under the
      given parent. */
  function Assemble(ctx: Context, p: MavenProject, skeleton: Model, parent: Outcome<Parent>, q: MavenProject)
    : (r: Result<Outcome<Model>>)
    requires q.(originalModel := p.originalModel) == p
    requires q.originalModel.(dependencies := p.originalModel.dependencies) == p.originalModel
    ensures r.Success? ==>
      r.value.value.groupId == skeleton.groupId && r.value.value.modules == skeleton.modules
      && r.value.value.version == Some(p.version)
      && r.value.value.artifactId == Some(p.artifactId)
      && r.value.value.name == Some(Name(p))
      && r.value.value.description == Some(DESCRIPTION_PREFIX + p.name)
      && r.value.value.properties == Properties(ctx, p)
      && r.value.value.parent == Some(parent.value)
    ensures r.Success? ==>
      (forall x :: x in r.value.value.repositories <==> x in p.repositories && IsNotCentralRepository(x))
      && (forall x :: x in r.value.value.pluginRepositories <==> x in p.pluginRepositories && IsNotCentralRepository(x))
    ensures r.Success? ==>
      (DependencyManagement(ctx, p).Success? && DependencyManagement(ctx, p).value.value.None?
       ==> r.value.value.dependencyManagement == skeleton.dependencyManagement)
    ensures r.Success? ==> forall x :: x in r.value.value.dependencies && x.artifactId in ParentProject.COPY_AS_IS_ARTIFACT_IDS
                                       ==> x.version.None?
  {
    assert q.repositories == p.repositories && q.pluginRepositories == p.pluginRepositories;
    assert q.originalModel.dependencyManagement == p.originalModel.dependencyManagement && IsTestModule(q) == IsTestModule(p);
    assert DependencyManagement(ctx, q) == DependencyManagement(ctx, p);
    var parts :- PartsOf(ctx, q);
    var model := skeleton.(
      version := Some(p.version),
      parent := Some(parent.value),
      artifactId := Some(p.artifactId),
      name := Some(Name(p)),
      properties := Properties(ctx, p),
      dependencies := parts.value.dependencies,
      repositories := parts.value.repositories,
      pluginRepositories := parts.value.pluginRepositories,
      dependencyManagement := if parts.value.dependencyManagement.Some? then parts.value.dependencyManagement
                              else skeleton.dependencyManagement,
      build := parts.value.build,
      profiles := parts.value.profiles,
      description := Some(DESCRIPTION_PREFIX + p.name));
    Success(Outcome(model, parent.events + parts.events))
  }

  /** `create`: the skeleton with this module's coordinates, name, description,
      properties, dependencies, repositories, build and profiles; the
      dependency management replaces the skeleton's only when there is one.
      Events are reported in the order the parts are computed. */
  function Create(ctx: Context, p: MavenProject, skeleton: Model): (r: Result<Outcome<Model>>)
    ensures IsDirectSubModule(ctx, p).Failure? ==> r.Failure?
    ensures r.Success? ==>
      r.value.value.groupId == skeleton.groupId && r.value.value.modules == skeleton.modules
      && r.value.value.version == Some(p.version)
      && r.value.value.artifactId == Some(p.artifactId)
      && r.value.value.name == Some(Name(p))
      && r.value.value.description == Some(DESCRIPTION_PREFIX + p.name)
      && r.value.value.properties == Properties(ctx, p)
      && r.value.value.parent.Some? && r.value.value.parent.value.groupId == Some(TEST_PARENT_GROUP_ID)
    ensures r.Success? && IsDirectSubModule(ctx, p) == Success(true) ==>
      r.value.value.parent.value.version == Some(p.version)
      && r.value.value.parent.value.relativePath == ComputeRelativePath(p.targetRelativePath)
    ensures r.Success? ==>
      (forall x :: x in r.value.value.repositories <==> x in p.repositories && IsNotCentralRepository(x))
      && (forall x :: x in r.value.value.pluginRepositories <==> x in p.pluginRepositories && IsNotCentralRepository(x))
    ensures r.Success? ==>
      (DependencyManagement(ctx, p).Success? && DependencyManagement(ctx, p).value.value.None?
       ==> r.value.value.dependencyManagement == skeleton.dependencyManagement)
    ensures r.Success? ==> forall x :: x in r.value.value.dependencies && x.artifactId in ParentProject.COPY_AS_IS_ARTIFACT_IDS
                                       ==> x.version.None?
  {
    var parentAndProject :- TestModuleParent(ctx, p, skeleton);
    var parent := parentAndProject.0;
    Assemble(ctx, p, skeleton, parent, parentAndProject.1)
  }
}
