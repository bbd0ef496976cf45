/** `project/helper/TestProjectCustomizer.java`: a few extracted modules need a
    hand-made change of their POM before it is written; the registry maps their
    artifactIds to the change.
*/
module TestProjectCustomizer {
  import opened Wrappers
  import opened Text
  import opened Seqs
  import opened Pom
  import opened MavenUtils
  import FileSystemStorage
  import ProjectImpl

  /** The kinds of customisation. `ChangeTestSources` rewrites files of the
      module and leaves the POM alone; `FixAnnotationProcessorVersion` edits
      the compiler plugin's XML configuration, which the `Plugin` record does
      not hold. */
  datatype Customizer =
    | AddKotlinDependencies
    | ChangeTestSources
    | MavenItFixes
    | RemoveDependency(artifactId: string)
    | AddProfilePlugins(profileId: string)
    | DisableInNative
    | FixAnnotationProcessorVersion(managementKey: string)
    | TargetJava21InProfile

  const RUN_VIRTUAL_THREAD_TESTS := "run-virtual-thread-tests"
  const COMPILER_RELEASE := "maven.compiler.release"
  const QUARKUS_BUILD_SKIP := "quarkus.build.skip"
  const DISABLE_NATIVE_PROFILE_FILE := "disable-native-profile"
  const PLATFORM_DESCRIPTOR := "quarkus-bom-quarkus-platform-descriptor"

  /** The registry, by exact artifactId. */
  const CUSTOMIZERS: map<string, Customizer> := map[
    "quarkus-websockets-next-deployment" := AddKotlinDependencies,
    "quarkus-integration-test-devtools" := ChangeTestSources,
    "quarkus-integration-test-packaging" := ChangeTestSources,
    "quarkus-integration-test-main" := ChangeTestSources,
    "quarkus-integration-test-maven" := MavenItFixes,
    "quarkus-integration-test-hibernate-reactive-panache-kotlin" := RemoveDependency("quarkus-rest-kotlin"),
    "quarkus-integration-test-class-transformer" := AddProfilePlugins("create-extension-runtime-module"),
    "quarkus-integration-test-class-transformer-deployment" := AddProfilePlugins("create-extension-deployment-module"),
    "quarkus-integration-test-bouncycastle-jsse" := DisableInNative,
    "quarkus-integration-test-bouncycastle-fips-jsse" := DisableInNative,
    "quarkus-integration-test-rest-client-reactive-stork" :=
      FixAnnotationProcessorVersion("io.smallrye.stork:stork-configuration-generator"),
    "quarkus-integration-test-hibernate-orm-jpamodelgen" :=
      FixAnnotationProcessorVersion("org.hibernate.orm:hibernate-jpamodelgen"),
    "quarkus-virtual-threads-integration-tests-parent" := TargetJava21InProfile
  ]

  // ---------------------------------------------------------------- dependency edits

  predicate IsNamed(artifactId: string, d: Dependency) {
    EqualsIgnoreCase(artifactId, d.artifactId)
  }

  /** `removeDependency`: every dependency named `artifactId`, ignoring case, goes. */
  function RemoveDependencyFrom(model: Model, artifactId: string): (r: Model)
    ensures r == model.(dependencies := r.dependencies)
    ensures |r.dependencies| <= |model.dependencies|
    ensures forall d :: d in r.dependencies <==> d in model.dependencies && !IsNamed(artifactId, d)
  {
    if model.dependencies == [] then model
    else model.(dependencies := Filter(model.dependencies, (d: Dependency) => !IsNamed(artifactId, d)))
  }

  /** Without a dependency of that name the model is unchanged. */
  lemma RemoveAbsentDependency(model: Model, artifactId: string)
    requires forall i :: 0 <= i < |model.dependencies| ==> !IsNamed(artifactId, model.dependencies[i])
    ensures RemoveDependencyFrom(model, artifactId) == model
  {
    FilterAll(model.dependencies, (d: Dependency) => !IsNamed(artifactId, d));
  }

  /** Removing twice removes nothing more. */
  lemma RemoveDependencyIsIdempotent(model: Model, artifactId: string)
    ensures RemoveDependencyFrom(RemoveDependencyFrom(model, artifactId), artifactId) == RemoveDependencyFrom(model, artifactId)
  {
    var once := RemoveDependencyFrom(model, artifactId);
    forall i | 0 <= i < |once.dependencies| ensures !IsNamed(artifactId, once.dependencies[i]) {
      assert once.dependencies[i] in once.dependencies;
    }
    RemoveAbsentDependency(once, artifactId);
  }

  /** The Kotlin extension and Jackson's Kotlin module, after the existing dependencies. */
  function AddKotlin(model: Model): (r: Model)
    ensures r == model.(dependencies := r.dependencies)
    ensures |r.dependencies| == |model.dependencies| + 2
      && r.dependencies[..|model.dependencies|] == model.dependencies
    ensures r.dependencies[|model.dependencies|] == NewDependency(Some("io.quarkus"), "quarkus-kotlin")
    ensures r.dependencies[|model.dependencies| + 1] == NewDependency(Some("com.fasterxml.jackson.module"), "jackson-module-kotlin")
  {
    model.(dependencies := model.dependencies
                           + [NewDependency(Some("io.quarkus"), "quarkus-kotlin"),
                              NewDependency(Some("com.fasterxml.jackson.module"), "jackson-module-kotlin")])
  }

  /** The platform descriptor the Maven integration tests resolve, as JSON. */
  function PlatformDescriptor(): (d: Dependency)
    ensures d.artifactId == PLATFORM_DESCRIPTOR && d.dependencyType == "json"
    ensures d.version == Some(ExtractedProperty(QUARKUS_PLATFORM_VERSION)) && d.classifier == d.version
  {
    Dependency(Some(ExtractedProperty(QUARKUS_PLATFORM_GROUP_ID)), PLATFORM_DESCRIPTOR,
               Some(ExtractedProperty(QUARKUS_PLATFORM_VERSION)), "json",
               Some(ExtractedProperty(QUARKUS_PLATFORM_VERSION)), None, [])
  }

  /** The Maven integration tests: the compiler source and target follow the
      release, and the platform descriptor is added after the existing dependencies. */
  function MavenIt(model: Model): (r: Model)
    ensures r == model.(properties := r.properties, dependencies := r.dependencies)
    ensures forall k :: k in r.properties <==> k in model.properties || k == "maven.compiler.source" || k == "maven.compiler.target"
    ensures r.properties["maven.compiler.source"] == ExtractedProperty(COMPILER_RELEASE)
      && r.properties["maven.compiler.target"] == ExtractedProperty(COMPILER_RELEASE)
    ensures forall k :: k in model.properties && k != "maven.compiler.source" && k != "maven.compiler.target"
                        ==> r.properties[k] == model.properties[k]
    ensures r.dependencies == model.dependencies + [PlatformDescriptor()]
  {
    var properties := model.properties["maven.compiler.source" := ExtractedProperty(COMPILER_RELEASE)]
                                      ["maven.compiler.target" := ExtractedProperty(COMPILER_RELEASE)];
    model.(properties := properties, dependencies := model.dependencies + [PlatformDescriptor()])
  }

  // ---------------------------------------------------------------- build and profile edits

  /** The plugins of the test parent's profile (found ignoring case) are
      appended to the module's build; no such profile leaves the model alone,
      and a profile or module without a build is the `NullPointerException`. */
  function AddPluginsOfProfile(parent: Model, profileId: string, model: Model): (r: Result<Model>)
    ensures GetProfile(parent.profiles, profileId).None? ==> r == Success(model)
    ensures GetProfile(parent.profiles, profileId).Some? ==>
      var profile := parent.profiles[GetProfile(parent.profiles, profileId).value];
      (r.Failure? <==> profile.build.None? || model.build.None?)
      && (r.Success? ==> r.value == model.(build := Some(model.build.value.(
                                           plugins := model.build.value.plugins + profile.build.value.plugins))))
  {
    match GetProfile(parent.profiles, profileId)
    case None => Success(model)
    case Some(i) =>
      if parent.profiles[i].build.None? || model.build.None? then Failure(NullPointer("no build to take plugins from or add them to"))
      else Success(model.(build := Some(model.build.value.(
                            plugins := model.build.value.plugins + parent.profiles[i].build.value.plugins))))
  }

  /** The virtual-thread tests compile for Java 21 unless their profile
      already sets a release; a missing profile fails. */
  function TargetJava21(model: Model): (r: Result<Model>)
    ensures r.Failure? <==> GetProfile(model.profiles, RUN_VIRTUAL_THREAD_TESTS).None?
    ensures r.Success? ==> var i := GetProfile(model.profiles, RUN_VIRTUAL_THREAD_TESTS).value;
      var before := model.profiles[i].properties;
      |r.value.profiles| == |model.profiles|
      && var after := r.value.profiles[i].properties;
      r.value == model.(profiles := r.value.profiles)
      && r.value.profiles[i] == model.profiles[i].(properties := after)
      && (forall j :: 0 <= j < |model.profiles| && j != i ==> r.value.profiles[j] == model.profiles[j])
      && (forall k :: k in after <==> k in before || k == COMPILER_RELEASE)
      && (forall k :: k in before ==> after[k] == before[k])
      && (COMPILER_RELEASE !in before ==> after[COMPILER_RELEASE] == "21")
  {
    match GetProfile(model.profiles, RUN_VIRTUAL_THREAD_TESTS)
    case None => Failure(NoSuchElement("No value present"))
    case Some(i) =>
      var profile := model.profiles[i];
      var properties := map[COMPILER_RELEASE := "21"] + profile.properties;
      Success(model.(profiles := model.profiles[i := profile.(properties := properties)]))
  }

  /** The first compiler plugin's configuration must hold an
      `annotationProcessorPaths` element with a `path` child: a module without
      a build, or whose first compiler plugin lacks any of these, fails; the
      version added under the path is not modelled. */
  function FixAnnotationProcessor(model: Model): (r: Result<Model>)
    ensures r.Success? ==> r.value == model
    ensures model.build.None? ==> r.Failure?
    ensures model.build.Some? && (forall i :: 0 <= i < |model.build.value.plugins| ==>
                                    !EqualsIgnoreCase("maven-compiler-plugin", model.build.value.plugins[i].artifactId))
      ==> r == Success(model)
    ensures model.build.Some? ==>
      (forall i ::
        (0 <= i < |model.build.value.plugins|
         && EqualsIgnoreCase("maven-compiler-plugin", model.build.value.plugins[i].artifactId)
         && (forall j :: 0 <= j < i ==> !EqualsIgnoreCase("maven-compiler-plugin", model.build.value.plugins[j].artifactId)))
        ==> (r.Success? <==>
               (model.build.value.plugins[i].hasConfiguration && model.build.value.plugins[i].hasAnnotationProcessorPath)))
  {
    if model.build.None? then Failure(NullPointer("the module has no build"))
    else
      match FirstIndex(model.build.value.plugins, (x: Plugin) => EqualsIgnoreCase("maven-compiler-plugin", x.artifactId))
      case None => Success(model)
      case Some(i) =>
        var compiler := model.build.value.plugins[i];
        if !compiler.hasConfiguration then Failure(NullPointer("the compiler plugin has no configuration"))
        else if !compiler.hasAnnotationProcessorPath then
          Failure(NullPointer("the compiler configuration has no annotation processor path"))
        else Success(model)
  }

  /** The file whose presence disables the native profile of a module. */
  function DisableNativeFile(targetRelativePath: string): string {
    targetRelativePath + "/" + DISABLE_NATIVE_PROFILE_FILE
  }

  /** Native builds are skipped, and the marker file exists afterwards. */
  function DisableNative(files: FileSystemStorage.Files, targetRelativePath: string, model: Model)
    : (r: (Model, FileSystemStorage.Files))
    ensures r.0 == model.(properties := model.properties[QUARKUS_BUILD_SKIP := ExtractedProperty("quarkus.native.enabled")])
    ensures FileSystemStorage.Exists(r.1, DisableNativeFile(targetRelativePath))
    ensures FileSystemStorage.Exists(files, DisableNativeFile(targetRelativePath)) ==> r.1 == files
    ensures forall n :: n != DisableNativeFile(targetRelativePath) ==>
      FileSystemStorage.LoadFileContent(r.1, n) == FileSystemStorage.LoadFileContent(files, n)
  {
    var customized := model.(properties := model.properties[QUARKUS_BUILD_SKIP := ExtractedProperty("quarkus.native.enabled")]);
    var file := DisableNativeFile(targetRelativePath);
    if FileSystemStorage.Exists(files, file) then (customized, files)
    else
      var saved := FileSystemStorage.SaveFileContent(files, file, "");
      assert FileSystemStorage.LoadFileContent(saved.value, file) == Success("");
      (customized, saved.value)
  }

  // ---------------------------------------------------------------- the registry

  /** Customisations touch the module's properties, dependencies, build and
      profiles, never what identifies it or where it sits. */
  predicate KeepsIdentity(before: Model, after: Model) {
    after.groupId == before.groupId && after.artifactId == before.artifactId && after.version == before.version
    && after.name == before.name && after.description == before.description
    && after.parent == before.parent && after.modules == before.modules
  }

  /** One customisation applied to the module's POM (and the marker files). */
  function Customize(c: Customizer, parent: Model, files: FileSystemStorage.Files, targetRelativePath: string, model: Model)
    : (r: Result<(Model, FileSystemStorage.Files)>)
    ensures !c.DisableInNative? && r.Success? ==> r.value.1 == files
    ensures c.RemoveDependency? ==> r == Success((RemoveDependencyFrom(model, c.artifactId), files))
    ensures c.ChangeTestSources? ==> r == Success((model, files))
    ensures r.Success? ==> KeepsIdentity(model, r.value.0)
  {
    match c
    case AddKotlinDependencies => Success((AddKotlin(model), files))
    case ChangeTestSources => Success((model, files))
    case MavenItFixes => Success((MavenIt(model), files))
    case RemoveDependency(artifactId) => Success((RemoveDependencyFrom(model, artifactId), files))
    case AddProfilePlugins(profileId) =>
      var customized :- AddPluginsOfProfile(parent, profileId, model);
      Success((customized, files))
    case DisableInNative => Success(DisableNative(files, targetRelativePath, model))
    case FixAnnotationProcessorVersion(_) =>
      var customized :- FixAnnotationProcessor(model);
      Success((customized, files))
    case TargetJava21InProfile =>
      var customized :- TargetJava21(model);
      Success((customized, files))
  }

  /** `customizeIfNecessary`: modules without a registered customisation are left alone. */
  function CustomizeIfNecessary(parent: Model, files: FileSystemStorage.Files, p: ProjectImpl.MavenProject, model: Model)
    : (r: Result<(Model, FileSystemStorage.Files)>)
    ensures p.artifactId !in CUSTOMIZERS ==> r == Success((model, files))
    ensures p.artifactId in CUSTOMIZERS ==> r == Customize(CUSTOMIZERS[p.artifactId], parent, files, p.targetRelativePath, model)
    ensures r.Success? ==> KeepsIdentity(model, r.value.0)
  {
    if p.artifactId in CUSTOMIZERS then Customize(CUSTOMIZERS[p.artifactId], parent, files, p.targetRelativePath, model)
    else Success((model, files))
  }

  /** The Kotlin panache module loses `quarkus-rest-kotlin` and keeps every other dependency. */
  lemma PanacheKotlinLosesRestKotlin(parent: Model, files: FileSystemStorage.Files, p: ProjectImpl.MavenProject, model: Model)
    requires p.artifactId == "quarkus-integration-test-hibernate-reactive-panache-kotlin"
    ensures CustomizeIfNecessary(parent, files, p, model).Success?
    ensures forall d :: d in CustomizeIfNecessary(parent, files, p, model).value.0.dependencies <==>
      d in model.dependencies && !EqualsIgnoreCase("quarkus-rest-kotlin", d.artifactId)
  {
  }
}
