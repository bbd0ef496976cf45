/** Module classification and artifact-name helpers of `project/utils/PluginUtils.java`. */
module PluginUtils {
  import opened Wrappers
  import opened Text

  const EXTENSIONS := "extensions"
  const INTEGRATION_TESTS := "integration-tests"
  const DEPLOYMENT := "deployment"
  const DEPLOYMENT_POSTFIX := "-deployment"
  const DEPLOYMENT_NAME_POSTFIX := " - Deployment"
  /** Prefix of the extension-test modules, so they never clash with the extensions themselves. */
  const TESTS_PREFIX := "tests-"
  const QUARKUS_BUILD_PARENT := "quarkus-build-parent"
  const QUARKUS_DOCUMENTATION := "quarkus-documentation"
  /** Relative sub-paths of the extension modules copied as they are
      (declared by `ParentProject`, read here). */
  const QUARKUS_ARC_TEST_SUPPLEMENT := "test-supplement"
  const QUARKUS_SECURITY_TEST_UTILS := "security/test-utils"

  /** Modules that hold no tests but are needed by other extension modules while testing. */
  predicate IsExtensionsSupplementaryModule(relativePath: string) {
    Contains(relativePath, QUARKUS_ARC_TEST_SUPPLEMENT)
    || Contains(relativePath, QUARKUS_SECURITY_TEST_UTILS)
  }

  /** An extension's deployment module, or a supplementary module, under "extensions/". */
  predicate IsExtensionTestModule(relativePath: string) {
    StartsWith(relativePath, EXTENSIONS + "/")
    && (EndsWith(relativePath, "/" + DEPLOYMENT) || IsExtensionsSupplementaryModule(relativePath))
  }

  /** A null artifactId is never a deployment artifact. */
  predicate IsDeploymentArtifact(artifactId: Option<string>) {
    artifactId.Some? && EndsWith(artifactId.value, DEPLOYMENT_POSTFIX)
  }

  lemma TrimOfPrefix(t: string, k: nat)
    requires k <= |t| && (t == [] || !IsTrimSpace(t[0]))
    ensures StartsWith(t, Trim(t[..k]))
  {
    var p := t[..k];
    if k > 0 {
      assert TrimStart(p) == p;
    }
    assert TrimEnd(TrimStart(p)) == TrimStart(p)[..|TrimEnd(TrimStart(p))|];
  }

  /** Turns a deployment artifactId or project name into the runtime one: the
      trimmed text loses a trailing "-deployment" or " - Deployment" (the name
      form is trimmed again). */
  function DropDeploymentPostfix(text: string): (r: string)
    ensures StartsWith(Trim(text), r)
    ensures r == Trim(text) <==>
      !EndsWith(Trim(text), DEPLOYMENT_POSTFIX) && !EndsWith(Trim(text), DEPLOYMENT_NAME_POSTFIX)
    ensures EndsWith(Trim(text), DEPLOYMENT_POSTFIX) ==> r + DEPLOYMENT_POSTFIX == Trim(text)
  {
    var t := Trim(text);
    if EndsWith(t, DEPLOYMENT_POSTFIX) then WithoutSuffix(t, DEPLOYMENT_POSTFIX)
    else if EndsWith(t, DEPLOYMENT_NAME_POSTFIX) then TrimWithoutSuffix(t, DEPLOYMENT_NAME_POSTFIX)
    else t
  }

  /** `t` without its (non-empty) `suffix`. */
  function WithoutSuffix(t: string, suffix: string): (r: string)
    requires suffix != [] && EndsWith(t, suffix)
    ensures r + suffix == t && StartsWith(t, r) && r != t
  {
    assert t[..|t| - |suffix|] + t[|t| - |suffix|..] == t;
    t[..|t| - |suffix|]
  }

  /** A trimmed `t` without its (non-empty) `suffix`, trimmed again. */
  function TrimWithoutSuffix(t: string, suffix: string): (r: string)
    requires suffix != [] && EndsWith(t, suffix) && IsTrimmed(t)
    ensures StartsWith(t, r) && r != t
  {
    var k := |t| - |suffix|;
    TrimOfPrefix(t, k);
    TrimIsShorter(t[..k]);
    Trim(t[..k])
  }

  lemma TrimIsShorter(s: string)
    ensures |Trim(s)| <= |s|
  {
  }

  /** A trimmed deployment artifactId is its runtime artifactId plus "-deployment". */
  lemma DropDeploymentPostfixInverse(artifactId: string)
    requires IsTrimmed(artifactId) && IsDeploymentArtifact(Some(artifactId))
    ensures DropDeploymentPostfix(artifactId) + DEPLOYMENT_POSTFIX == artifactId
  {
  }

  function PrefixWithTests(artifactId: string): (r: string)
    ensures StartsWith(r, TESTS_PREFIX) && r[|TESTS_PREFIX|..] == artifactId
  {
    TESTS_PREFIX + artifactId
  }

  /** Compared case-sensitively. */
  predicate IsQuarkusBuildParent(artifactId: string) {
    artifactId == QUARKUS_BUILD_PARENT
  }

  predicate IsQuarkusParentPomProject(artifactId: string) {
    EqualsIgnoreCase("quarkus-parent", artifactId)
  }

  /** The documentation module is the last module of the reactor build. */
  predicate IsLastModule(artifactId: string) {
    artifactId == QUARKUS_DOCUMENTATION
  }
}
