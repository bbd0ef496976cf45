/** `utils/MavenUtils.java`, the metadata collector's own copy of the POM helpers. */
module ExtractorMavenUtils {
  import opened Text
  import MavenUtils

  /** Effective properties not worth propagating; a subset of the project writer's list. */
  const IGNORED_PROPERTIES: set<string> := {
    "docker-prune.location", "revapi.buildFailureMessage", "project.build.outputTimestamp",
    "revapi.reportSeverity", "volume.access.modifier", "os.detected.name", "os.detected.arch",
    "os.detected.bitness", "os.detected.classifier", "os.detected.version",
    "os.detected.version.major", "os.detected.version.minor", "os.detected.release",
    "os.detected.release.version", "os.detected.release.like.fedora"
  }

  /** The properties only the project writer ignores. */
  const WRITER_ONLY_IGNORED_PROPERTIES: set<string> := {
    "jdk.min.version", "minimum-java-version", "native.surefire.skip", "impsort.skip", "gpg.skip",
    "maven.deploy.skip", "maven.compiler.argument.testTarget", "maven.compiler.release",
    "maven.compiler.source", "maven.compiler.testSource", "maven.compiler.argument.target",
    "maven.compiler.target", "maven.compiler.argument.testSource",
    "maven.compiler.argument.source", "maven.compiler.testTarget",
    "failsafe.argLine.additional", "develocity.pts.active", "revapi.newVersion"
  }

  /** A property is kept exactly when the project writer keeps it or it is one
      of the writer's extra names; so every property this list ignores is
      ignored by the project writer too. */
  function IsNotIgnoredProperty(propertyName: string): (r: bool)
    ensures r <==> MavenUtils.IsNotIgnoredProperty(propertyName) || propertyName in WRITER_ONLY_IGNORED_PROPERTIES
    ensures !r ==> !MavenUtils.IsNotIgnoredProperty(propertyName)
    ensures !r ==> (StartsWith(propertyName, "os.detected.") || propertyName in
      {"docker-prune.location", "revapi.buildFailureMessage", "project.build.outputTimestamp",
       "revapi.reportSeverity", "volume.access.modifier"})
  {
    propertyName !in IGNORED_PROPERTIES
  }

  lemma IgnoredPropertiesIncluded()
    ensures IGNORED_PROPERTIES <= MavenUtils.IGNORED_PROPERTIES
    ensures |MavenUtils.IGNORED_PROPERTIES - IGNORED_PROPERTIES| > 0
  {
    assert "gpg.skip" in MavenUtils.IGNORED_PROPERTIES - IGNORED_PROPERTIES;
  }

  lemma Reversible(content: string)
    ensures !Contains(content, MavenUtils.PROPERTY_START) ==>
      ReplaceAll(MavenUtils.ReplaceExtractedPropertyPrefix(content),
                 MavenUtils.PROPERTY_START, MavenUtils.EXTRACTED_PROPERTY_PREFIX) == content
  {
    if !Contains(content, MavenUtils.PROPERTY_START) {
      MavenUtils.ReplaceExtractedPropertyPrefixIsReversible(content);
    }
  }

  /** The same marker rewrite the project writer applies first. */
  function ReplaceParentPomPlaceholders(content: string): (r: string)
    ensures !Contains(content, MavenUtils.EXTRACTED_PROPERTY_PREFIX) ==> r == content
    ensures !Contains(content, MavenUtils.PROPERTY_START) ==>
      ReplaceAll(r, MavenUtils.PROPERTY_START, MavenUtils.EXTRACTED_PROPERTY_PREFIX) == content
  {
    Reversible(content);
    MavenUtils.ReplaceExtractedPropertyPrefix(content)
  }
}
