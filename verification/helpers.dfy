/** `QuarkusBuildParent`: management keys of the Quarkus build parent's
    dependency management, remembered while that project is written. */
module QuarkusBuildParent {
  import opened Wrappers
  import opened Pom
  import MavenUtils

  function RememberDependencyManagement(keys: set<string>, dependencyManagement: Option<seq<Dependency>>): (r: set<string>)
    ensures keys <= r
    ensures dependencyManagement.None? ==> r == keys
    ensures dependencyManagement.Some? ==> forall d :: d in dependencyManagement.value ==> MavenUtils.ManagementKey(d) in r
    ensures forall k :: k in r - keys ==> (dependencyManagement.Some?
      && exists d :: d in dependencyManagement.value && MavenUtils.ManagementKey(d) == k)
  {
    if dependencyManagement.None? then keys
    else keys + set d | d in dependencyManagement.value :: MavenUtils.ManagementKey(d)
  }

  /** Despite its name, holds when the build parent DOES manage the dependency's key. */
  predicate IsNotManagedByBuildParent(keys: set<string>, dependency: Dependency) {
    MavenUtils.ManagementKey(dependency) in keys
  }

  /** Remembering only adds keys: what was reported before still is. */
  lemma RememberIsMonotone(keys: set<string>, dependencyManagement: Option<seq<Dependency>>, d: Dependency)
    ensures IsNotManagedByBuildParent(keys, d) ==>
      IsNotManagedByBuildParent(RememberDependencyManagement(keys, dependencyManagement), d)
  {
  }
}

/** `UnsupportedProjects`: modules the extractor does not handle yet. */
module UnsupportedProjects {
  import opened Text

  /** Relative paths (or path fragments) of the unsupported projects. */
  const UNSUPPORTED_PROJECTS: set<string> := {
    "integration-tests/kubernetes/maven-invoker-way",
    "integration-tests/test-extension", "integration-tests/grpc-external-proto-test",
    "integration-tests/logging-gelf",
    "integration-tests/devtools/",
    "integration-tests/jpa-oracle"
  }

  /** The target path, or the target path followed by a separator, contains one
      of the unsupported paths. */
  predicate IsNotSupportedProject(targetRelativePath: string) {
    exists u :: u in UNSUPPORTED_PROJECTS
      && (Contains(targetRelativePath, u) || Contains(targetRelativePath + "/", u))
  }

  /** Every module below an unsupported project is unsupported too. */
  lemma UnsupportedIsInherited(targetRelativePath: string, subPath: string)
    requires IsNotSupportedProject(targetRelativePath)
    ensures IsNotSupportedProject(targetRelativePath + "/" + subPath)
  {
    var u :| u in UNSUPPORTED_PROJECTS
      && (Contains(targetRelativePath, u) || Contains(targetRelativePath + "/", u));
    ContainsAppend(targetRelativePath, "/" + subPath, u);
    ContainsAppend(targetRelativePath + "/", subPath, u);
    assert targetRelativePath + ("/" + subPath) == targetRelativePath + "/" + subPath;
  }

  /** The devtools directory itself is matched through the appended separator. */
  lemma DevtoolsIsUnsupported()
    ensures IsNotSupportedProject("integration-tests/devtools")
  {
    var u := "integration-tests/devtools/";
    assert "integration-tests/devtools" + "/" == u;
    assert StartsWith(u, u);
  }
}

/** `DisabledTest`: single test classes switched off for some projects. */
module DisabledTest {
  import opened Text

  datatype DisabledTest = DisabledTest(testClassPath: string, artifactIds: set<string>)

  const DISABLED_TESTS: set<DisabledTest> := {
    DisabledTest("io/quarkus/it/kubernetes/KindWithDefaultsTest.java",
      {"quarkus-integration-test-kubernetes-parent", "quarkus-integration-test-kubernetes-standard"})
  }

  predicate HasProjectDisabledTests(artifactId: string) {
    exists dt :: dt in DISABLED_TESTS && artifactId in dt.artifactIds
  }

  /** A test source file of the project is kept unless its path ends with the
      class path of a test disabled for that project. */
  function IsNotDisabledTest(artifactId: string, filePath: string): (r: bool)
    ensures !HasProjectDisabledTests(artifactId) ==> r
    ensures !r <==> exists dt :: dt in DISABLED_TESTS && artifactId in dt.artifactIds
                                && EndsWith(filePath, dt.testClassPath)
  {
    forall dt | dt in DISABLED_TESTS && artifactId in dt.artifactIds :: !EndsWith(filePath, dt.testClassPath)
  }

  lemma KindWithDefaultsTestIsDisabled(filePath: string)
    requires EndsWith(filePath, "io/quarkus/it/kubernetes/KindWithDefaultsTest.java")
    ensures !IsNotDisabledTest("quarkus-integration-test-kubernetes-standard", filePath)
  {
    var dt := DisabledTest("io/quarkus/it/kubernetes/KindWithDefaultsTest.java",
      {"quarkus-integration-test-kubernetes-parent", "quarkus-integration-test-kubernetes-standard"});
    assert dt in DISABLED_TESTS;
  }
}

/** `KnownTestJars`: test-jars that exist only in the community release. */
module KnownTestJars {
  import opened Wrappers
  import opened Text
  import opened Pom
  import MavenUtils

  /** groupId to artifactId of the community-only test-jars. */
  const COMMUNITY_TEST_JARS: map<string, string> := map["io.quarkus.gizmo" := "gizmo"]

  predicate IsCommunityTestJar(d: Dependency) {
    d.groupId.Some? && d.groupId.value in COMMUNITY_TEST_JARS
    && EqualsIgnoreCase(COMMUNITY_TEST_JARS[d.groupId.value], d.artifactId)
  }

  /** A community-only test-jar gets the community Quarkus version (as a deferred
      property); any other dependency is returned unchanged. */
  function SetTestJarVersionIfNecessary(d: Dependency): (r: Dependency)
    ensures r == d.(version := r.version)
    ensures IsCommunityTestJar(d) ==> r.version == Some(MavenUtils.ExtractedProperty(MavenUtils.QUARKUS_COMMUNITY_VERSION))
    ensures !IsCommunityTestJar(d) ==> r == d
  {
    if IsCommunityTestJar(d)
    then d.(version := Some(MavenUtils.ExtractedProperty(MavenUtils.QUARKUS_COMMUNITY_VERSION)))
    else d
  }

  lemma SetTestJarVersionIsIdempotent(d: Dependency)
    ensures SetTestJarVersionIfNecessary(SetTestJarVersionIfNecessary(d)) == SetTestJarVersionIfNecessary(d)
  {
  }
}

/** `QuarkusTestFramework`: framework artifacts expected in the repository
    although the Quarkus BOM does not manage them. */
module QuarkusTestFramework {
  import opened Pom

  const TEST_FRAMEWORK_DEPENDENCIES: set<string> := {"quarkus-test-maven", "quarkus-devmode-test-utils"}

  predicate IsTestFrameworkDependency(d: Dependency) {
    d.artifactId in TEST_FRAMEWORK_DEPENDENCIES
  }
}

/** `ProductizedNotManagedDependencies`: productized artifacts the BOM does not manage. */
module ProductizedNotManagedDependencies {
  import opened Pom

  const DEPENDENCIES: set<string> := {"quarkus-reactive-datasource-deployment"}

  predicate IsProductizedButNotManaged(d: Dependency) {
    d.artifactId in DEPENDENCIES
  }
}
