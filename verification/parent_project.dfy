/** `ParentProject`: the parent POM every extracted module inherits from. It
    starts as a skeleton POM shipped with the plugin and is enriched while the
    Quarkus projects are visited; here it is a `Model` value passed along. */
module ParentProject {
  import opened Wrappers
  import opened Text
  import opened Pom
  import Seqs
  import MavenUtils

  /** Modules that are not test modules but are still needed, copied as they are. */
  const COPY_AS_IS_ARTIFACT_IDS: set<string> := {
    "quarkus-integration-test-class-transformer-parent",
    "quarkus-integration-test-class-transformer-deployment", "quarkus-integration-test-class-transformer",
    "quarkus-integration-test-shared-library", "quarkus-integration-test-test-extension",
    "quarkus-integration-test-test-extension-extension",
    "quarkus-integration-test-test-extension-extension-deployment",
    "integration-test-extension-that-defines-junit-test-extensions-deployment",
    "integration-test-extension-that-defines-junit-test-extensions",
    "integration-test-extension-that-defines-junit-test-extensions-parent",
    "quarkus-arc-test-supplement", "quarkus-security-test-utils",
    "quarkus-integration-test-common-jpa-entities"
  }

  /** Plugins whose version the parent defines under a property of another name. */
  const PLUGIN_ARTIFACT_ID_TO_VERSION_PROP: map<string, string> := map[
    "kotlin-maven-plugin" := "kotlin.version",
    "jandex-maven-plugin" := "jandex.version",
    "smallrye-certificate-generator-maven-plugin" := "smallrye-certificate-generator.version",
    "properties-maven-plugin" := "properties-maven-plugin.version",
    "maven-clean-plugin" := "version.clean.plugin",
    "nexus-staging-maven-plugin" := "version.nexus-staging.plugin",
    "maven-resources-plugin" := "version.resources.plugin",
    "scala-maven-plugin" := "scala-maven-plugin.version",
    "quarkus-extension-maven-plugin" := MavenUtils.QUARKUS_CORE_BOM_VERSION,
    "maven-invoker-plugin" := "maven-invoker-plugin.version",
    "build-helper-maven-plugin" := "build-helper-plugin.version",
    "quarkus-platform-bom-maven-plugin" := "quarkus-platform-bom-plugin.version"
  ]

  const INTEGRATION_TEST_ARTIFACT_PREFIX := "quarkus-integration-test"
  const INTEGRATION_TESTS_BUILD_PROFILE := "integration-tests-build"
  const EXTENSION_TESTS_PROFILE := "extension-tests-managed-modules"
  const INTEGRATION_TESTS_PROFILE := "integration-tests-managed-modules"

  /** Whether the dependency refers to a module of the extracted project. Copy-as-is
      modules and "quarkus-integration-test…" artifacts are, and so is anything
      whose artifactId (ignoring case) the parent manages. The parent's dependency
      management is read only when the first two tests fail; a parent without one
      fails like the source's null dereference. */
  function IsManagedByTestParent(parent: Model, dependency: Option<Dependency>): (r: Result<bool>)
    ensures dependency.None? ==> r == Success(false)
    ensures r.Failure? ==> parent.dependencyManagement.None?
    ensures r == Success(true) <==> (dependency.Some? &&
      (dependency.value.artifactId in COPY_AS_IS_ARTIFACT_IDS
       || StartsWith(dependency.value.artifactId, INTEGRATION_TEST_ARTIFACT_PREFIX)
       || (parent.dependencyManagement.Some?
           && exists d :: d in parent.dependencyManagement.value && EqualsIgnoreCase(dependency.value.artifactId, d.artifactId))))
  {
    if dependency.None? then Success(false)
    else
      var artifactId := dependency.value.artifactId;
      if artifactId in COPY_AS_IS_ARTIFACT_IDS || StartsWith(artifactId, INTEGRATION_TEST_ARTIFACT_PREFIX) then Success(true)
      else if parent.dependencyManagement.None? then Failure(NullPointer("test parent has no dependency management"))
      else Success(exists d :: d in parent.dependencyManagement.value && EqualsIgnoreCase(artifactId, d.artifactId))
  }

  /** A dependency on a module of the extracted project is redirected to that
      module: the test group and this project's version. */
  function CorrectGroupIdIfNecessary(parent: Model, dependency: Dependency): (r: Result<Dependency>)
    ensures r.Failure? <==> IsManagedByTestParent(parent, Some(dependency)).Failure?
    ensures r.Success? ==> (r.value == dependency
      || r.value == dependency.(groupId := Some(MavenUtils.TEST_PARENT_GROUP_ID), version := Some(MavenUtils.ThisProjectVersion())))
    ensures r.Success? && r.value != dependency ==> IsManagedByTestParent(parent, Some(dependency)) == Success(true)
  {
    var managed :- IsManagedByTestParent(parent, Some(dependency));
    if managed
    then Success(dependency.(groupId := Some(MavenUtils.TEST_PARENT_GROUP_ID), version := Some(MavenUtils.ThisProjectVersion())))
    else Success(dependency)
  }

  /** Correcting twice is correcting once: the decision depends on the artifactId only. */
  lemma CorrectGroupIdIsIdempotent(parent: Model, dependency: Dependency)
    requires CorrectGroupIdIfNecessary(parent, dependency).Success?
    ensures CorrectGroupIdIfNecessary(parent, CorrectGroupIdIfNecessary(parent, dependency).value)
      == CorrectGroupIdIfNecessary(parent, dependency)
  {
  }

  /** The index of the first profile whose id equals `id` exactly. */
  function FindProfileByName(profiles: seq<Profile>, id: string): (r: Option<nat>)
    ensures r.Some? ==> r.value < |profiles| && profiles[r.value].id == id
    ensures r.None? <==> forall i :: 0 <= i < |profiles| ==> profiles[i].id != id
  {
    Seqs.FirstIndex(profiles, (p: Profile) => id == p.id)
  }

  function AddModuleToProfile(profiles: seq<Profile>, i: nat, moduleName: string): (r: seq<Profile>)
    requires i < |profiles|
    ensures |r| == |profiles|
    ensures r[i] == profiles[i].(modules := profiles[i].modules + [moduleName])
    ensures forall j :: 0 <= j < |r| && j != i ==> r[j] == profiles[j]
  {
    profiles[i := profiles[i].(modules := profiles[i].modules + [moduleName])]
  }

  /** Adds a module to the profile named exactly `profile`; a missing profile fails. */
  function AddTestModule(parent: Model, testModuleName: string, profile: string): (r: Result<Model>)
    ensures r.Failure? <==> FindProfileByName(parent.profiles, profile).None?
    ensures r.Success? ==> r.value == parent.(profiles := r.value.profiles)
    ensures r.Success? ==> var i := FindProfileByName(parent.profiles, profile).value;
      |r.value.profiles| == |parent.profiles|
      && r.value.profiles[i].modules == parent.profiles[i].modules + [testModuleName]
      && forall j :: 0 <= j < |parent.profiles| && j != i ==> r.value.profiles[j] == parent.profiles[j]
  {
    match FindProfileByName(parent.profiles, profile)
    case None => Failure(NoSuchElement("No value present"))
    case Some(i) => Success(parent.(profiles := AddModuleToProfile(parent.profiles, i, testModuleName)))
  }

  /** Copy-as-is modules, and integration-test modules that do not package a jar. */
  predicate CopyAsIs(artifactId: string, isIntegrationTestModule: bool, packaging: Option<string>) {
    artifactId in COPY_AS_IS_ARTIFACT_IDS || (isIntegrationTestModule && !MavenUtils.HasJarPackaging(packaging))
  }

  /** The version the extracted tests are built against: the parent's own
      version and the platform and community version properties. */
  function SetQuarkusVersion(parent: Model, version: string): (r: Model)
    ensures r.version == Some(version)
    ensures MavenUtils.QUARKUS_PLATFORM_VERSION in r.properties && r.properties[MavenUtils.QUARKUS_PLATFORM_VERSION] == version
    ensures MavenUtils.QUARKUS_COMMUNITY_VERSION in r.properties && r.properties[MavenUtils.QUARKUS_COMMUNITY_VERSION] == version
    ensures r.properties.Keys == parent.properties.Keys + {MavenUtils.QUARKUS_PLATFORM_VERSION, MavenUtils.QUARKUS_COMMUNITY_VERSION}
    ensures forall k :: (k in parent.properties && k != MavenUtils.QUARKUS_PLATFORM_VERSION
      && k != MavenUtils.QUARKUS_COMMUNITY_VERSION) ==> r.properties[k] == parent.properties[k]
    ensures r == parent.(version := r.version, properties := r.properties)
  {
    parent.(version := Some(version),
            properties := parent.properties[MavenUtils.QUARKUS_PLATFORM_VERSION := version]
                                           [MavenUtils.QUARKUS_COMMUNITY_VERSION := version])
  }

  /** The given properties that are worth propagating. */
  function NotIgnored(properties: map<string, string>): (r: map<string, string>)
    ensures forall k :: k in r <==> k in properties && MavenUtils.IsNotIgnoredProperty(k)
    ensures forall k :: k in r ==> r[k] == properties[k]
  {
    map k | k in properties && MavenUtils.IsNotIgnoredProperty(k) :: properties[k]
  }

  /** Copies every non-ignored property into the parent, overriding its value there. */
  function AddProperties(parent: Model, properties: Option<map<string, string>>): (r: Model)
    ensures properties.None? ==> r == parent
    ensures r == parent.(properties := r.properties)
    ensures properties.Some? ==>
              forall k :: k in properties.value && MavenUtils.IsNotIgnoredProperty(k) ==>
                            k in r.properties && r.properties[k] == properties.value[k]
    ensures forall k :: k in r.properties && (properties.None? || k !in NotIgnored(properties.value)) ==>
                          k in parent.properties && r.properties[k] == parent.properties[k]
    ensures parent.properties.Keys <= r.properties.Keys
  {
    if properties.None? then parent
    else parent.(properties := parent.properties + NotIgnored(properties.value))
  }

  /** Adding the same properties again changes nothing. */
  lemma AddPropertiesIsIdempotent(parent: Model, properties: Option<map<string, string>>)
    ensures AddProperties(AddProperties(parent, properties), properties) == AddProperties(parent, properties)
  {
    if properties.Some? {
      var once := AddProperties(parent, properties);
      assert once.properties + NotIgnored(properties.value) == once.properties;
    }
  }

  /** The parent defines the property with exactly that value. */
  predicate IsPropertyDefinedInParentPom(parent: Model, propertyName: string, propertyValue: string) {
    propertyName in parent.properties && parent.properties[propertyName] == propertyValue
  }

  /** After the parent took a project's properties, each non-ignored one is defined there with its value. */
  lemma AddedPropertiesAreDefined(parent: Model, properties: map<string, string>, k: string)
    requires k in properties && MavenUtils.IsNotIgnoredProperty(k)
    ensures IsPropertyDefinedInParentPom(AddProperties(parent, Some(properties)), k, properties[k])
  {
  }

  /** A reference to the parent's property that holds the plugin's version: the
      property mapped from the artifactId when the parent defines it, else
      "<artifactId>.version" when defined, else none. */
  function GetPluginVersionInParentProps(parent: Model, pluginArtifactId: string): (r: Option<string>)
    ensures r.Some? ==> exists p :: p in parent.properties && r.value == MavenUtils.ExtractedProperty(p)
    ensures r.None? <==>
      (pluginArtifactId !in PLUGIN_ARTIFACT_ID_TO_VERSION_PROP
       || PLUGIN_ARTIFACT_ID_TO_VERSION_PROP[pluginArtifactId] !in parent.properties)
      && pluginArtifactId + ".version" !in parent.properties
    ensures pluginArtifactId in PLUGIN_ARTIFACT_ID_TO_VERSION_PROP
      && PLUGIN_ARTIFACT_ID_TO_VERSION_PROP[pluginArtifactId] in parent.properties
      ==> r == Some(MavenUtils.ExtractedProperty(PLUGIN_ARTIFACT_ID_TO_VERSION_PROP[pluginArtifactId]))
  {
    if pluginArtifactId in PLUGIN_ARTIFACT_ID_TO_VERSION_PROP
       && PLUGIN_ARTIFACT_ID_TO_VERSION_PROP[pluginArtifactId] in parent.properties then
      Some(MavenUtils.ExtractedProperty(PLUGIN_ARTIFACT_ID_TO_VERSION_PROP[pluginArtifactId]))
    else if pluginArtifactId + ".version" in parent.properties then
      Some(MavenUtils.ExtractedProperty(pluginArtifactId + ".version"))
    else None
  }

  /** The dependency the parent manages for an extracted module. */
  function ManagedProjectDependency(artifactId: string): (d: Dependency)
    ensures d.artifactId == artifactId && d.groupId == Some(MavenUtils.TEST_PARENT_GROUP_ID)
    ensures d.version == Some(MavenUtils.ExtractedProperty(MavenUtils.THIS_PROJECT_VERSION))
    ensures d.dependencyType == "jar" && d.classifier.None? && d.scope.None? && d.exclusions == []
  {
    NewDependency(Some(MavenUtils.TEST_PARENT_GROUP_ID), artifactId)
      .(version := Some(MavenUtils.ExtractedProperty(MavenUtils.THIS_PROJECT_VERSION)))
  }

  /** The profile that lists an extracted module, if the parent has it: extension
      tests go to one profile; direct integration-test submodules to the profile of
      their target path's postfix; nested integration-test modules to none. */
  function ManagedModulesProfile(isIntegrationTestModule: bool, isDirectSubModule: bool, targetRelativePath: string): Option<string> {
    if !isIntegrationTestModule then Some(EXTENSION_TESTS_PROFILE)
    else if isDirectSubModule then Some(INTEGRATION_TESTS_PROFILE + MavenUtils.GetProfilePostfix(targetRelativePath))
    else None
  }

  /** The profiles after listing `moduleName` in the profile named `name`, found
      ignoring case; without such a profile nothing changes. */
  function WithModuleListed(profiles: seq<Profile>, name: string, moduleName: string): (r: seq<Profile>)
    ensures |r| == |profiles|
    ensures MavenUtils.GetProfile(profiles, name).None? ==> r == profiles
    ensures MavenUtils.GetProfile(profiles, name).Some? ==>
      var i := MavenUtils.GetProfile(profiles, name).value;
      EqualsIgnoreCase(name, r[i].id)
      && r[i] == profiles[i].(modules := profiles[i].modules + [moduleName])
      && forall j :: 0 <= j < |r| && j != i ==> r[j] == profiles[j]
  {
    match MavenUtils.GetProfile(profiles, name)
    case None => profiles
    case Some(i) => AddModuleToProfile(profiles, i, moduleName)
  }

  /** Manages the extracted module in the parent and lists it in its profile
      (found ignoring case; a missing profile is skipped). */
  function AddManagedProject(parent: Model, artifactId: string, isIntegrationTestModule: bool,
                             isDirectSubModule: bool, targetRelativePath: string): (r: Result<Model>)
    ensures r.Failure? <==> parent.dependencyManagement.None?
    ensures r.Success? ==> r.value.dependencyManagement == Some(parent.dependencyManagement.value + [ManagedProjectDependency(artifactId)])
    ensures r.Success? ==> r.value == parent.(dependencyManagement := r.value.dependencyManagement, profiles := r.value.profiles)
    ensures r.Success? ==> |r.value.profiles| == |parent.profiles|
    ensures r.Success? && !isIntegrationTestModule ==>
      r.value.profiles == WithModuleListed(parent.profiles, EXTENSION_TESTS_PROFILE, targetRelativePath)
    ensures r.Success? && isIntegrationTestModule && isDirectSubModule ==>
      r.value.profiles == WithModuleListed(parent.profiles, INTEGRATION_TESTS_PROFILE + MavenUtils.GetProfilePostfix(targetRelativePath),
                                           targetRelativePath)
    ensures r.Success? && isIntegrationTestModule && !isDirectSubModule ==> r.value.profiles == parent.profiles
  {
    if parent.dependencyManagement.None? then Failure(NullPointer("test parent has no dependency management"))
    else
      var managed := parent.(dependencyManagement := Some(parent.dependencyManagement.value + [ManagedProjectDependency(artifactId)]));
      match ManagedModulesProfile(isIntegrationTestModule, isDirectSubModule, targetRelativePath)
      case None => Success(managed)
      case Some(name) =>
        match MavenUtils.GetProfile(parent.profiles, name)
        case None => Success(managed)
        case Some(i) => Success(managed.(profiles := AddModuleToProfile(parent.profiles, i, targetRelativePath)))
  }

  /** Once a module is managed, every dependency on it (by artifactId, ignoring
      case) is recognised as a module of the extracted project. */
  lemma AddedProjectIsManaged(parent: Model, artifactId: string, isIntegrationTestModule: bool,
                              isDirectSubModule: bool, targetRelativePath: string, d: Dependency)
    requires parent.dependencyManagement.Some?
    requires EqualsIgnoreCase(d.artifactId, artifactId)
    ensures IsManagedByTestParent(AddManagedProject(parent, artifactId, isIntegrationTestModule, isDirectSubModule,
                                                    targetRelativePath).value, Some(d)) == Success(true)
  {
    var r := AddManagedProject(parent, artifactId, isIntegrationTestModule, isDirectSubModule, targetRelativePath).value;
    var m := ManagedProjectDependency(artifactId);
    assert m in r.dependencyManagement.value;
  }

  /** Managing a module never makes a dependency unmanaged. */
  lemma AddManagedProjectKeepsManaged(parent: Model, artifactId: string, isIntegrationTestModule: bool,
                                      isDirectSubModule: bool, targetRelativePath: string, d: Dependency)
    requires IsManagedByTestParent(parent, Some(d)) == Success(true)
    requires parent.dependencyManagement.Some?
    ensures IsManagedByTestParent(AddManagedProject(parent, artifactId, isIntegrationTestModule, isDirectSubModule,
                                                    targetRelativePath).value, Some(d)) == Success(true)
  {
    var r := AddManagedProject(parent, artifactId, isIntegrationTestModule, isDirectSubModule, targetRelativePath).value;
    if exists e :: e in parent.dependencyManagement.value && EqualsIgnoreCase(d.artifactId, e.artifactId) {
      var e :| e in parent.dependencyManagement.value && EqualsIgnoreCase(d.artifactId, e.artifactId);
      assert e in r.dependencyManagement.value;
    }
  }

  /** The integration-tests build profile takes the given module's original build;
      a parent without that profile fails. */
  function ConfigureIntegrationTestsBuild(parent: Model, originalBuild: Option<Build>): (r: Result<Model>)
    ensures r.Failure? <==> MavenUtils.GetProfile(parent.profiles, INTEGRATION_TESTS_BUILD_PROFILE).None?
    ensures r.Success? ==> var i := MavenUtils.GetProfile(parent.profiles, INTEGRATION_TESTS_BUILD_PROFILE).value;
      r.value == parent.(profiles := parent.profiles[i := parent.profiles[i].(build := originalBuild)])
  {
    match MavenUtils.GetProfile(parent.profiles, INTEGRATION_TESTS_BUILD_PROFILE)
    case None => Failure(NoSuchElement("No value present"))
    case Some(i) => Success(parent.(profiles := parent.profiles[i := parent.profiles[i].(build := originalBuild)]))
  }
}

/** `isTestModuleProperty`, in both the writer's and the collector's helper:
    a module keeps a property unless the parent already defines it with the
    same value or it is ignored. */
module TestModuleProperties {
  import opened Wrappers
  import opened Pom
  import MavenUtils
  import ExtractorMavenUtils
  import ParentProject

  predicate IsTestModuleProperty(parent: Model, propertyName: string, propertyValue: string) {
    !ParentProject.IsPropertyDefinedInParentPom(parent, propertyName, propertyValue)
    && MavenUtils.IsNotIgnoredProperty(propertyName)
  }

  predicate IsTestModulePropertyForCollector(parent: Model, propertyName: string, propertyValue: string) {
    !ParentProject.IsPropertyDefinedInParentPom(parent, propertyName, propertyValue)
    && ExtractorMavenUtils.IsNotIgnoredProperty(propertyName)
  }

  /** Properties handed to the parent are not repeated in the modules. */
  lemma ParentPropertiesAreNotRepeated(parent: Model, properties: map<string, string>, k: string)
    requires k in properties
    ensures !IsTestModuleProperty(ParentProject.AddProperties(parent, Some(properties)), k, properties[k])
  {
  }

  /** The writer's test is the stricter one. */
  lemma WriterIsStricter(parent: Model, propertyName: string, propertyValue: string)
    ensures IsTestModuleProperty(parent, propertyName, propertyValue)
      ==> IsTestModulePropertyForCollector(parent, propertyName, propertyValue)
  {
  }
}
