# quarkus-test-extractor policy engine, in Dafny

The quarkus-test-extractor Maven plugin walks the reactor of the Quarkus
repository and turns every module that holds tests into a standalone test
project under a generated parent (`io.quarkus.qe.tests:quarkus-main-tests`),
so that the tests can run against another Quarkus platform. This project
models the plugin's decision logic as pure Dafny functions over immutable
records and proves what each decision promises.

What is modelled:

- **Dependency rewriting** (`ProjectImpl`, `project_impl.dfy`). A test
  module's dependency list is rewritten in several ways:
  - dependencies that only order the build are removed;
  - an extension deployment module gains a dependency on itself and the
    runtime counterparts of its deployment dependencies;
  - the "compile" scope is normalised;
  - every unversioned dependency nobody manages gets a version. The choice
    is made by a first-match cascade: the community placeholder, the
    core-BOM placeholder, or the version Maven resolved.

  Dependency management and repositories are prepared the same way.
- **Build and profiles** (`ProjectBuild`, `project_build.dfy`):
  - plugin pruning;
  - the plugin-version cascade: quarkus-parent POM, then the test parent's
    properties, then the resolved build plugins, then plugin management,
    else an error;
  - profiles prepared like the module;
  - `originalModel()`.
- **Test-module POM** (`TestModuleProject`). The module's POM is assembled
  from the test-module skeleton.
- **Per-module customisations** (`TestProjectCustomizer`). A registry maps
  a few modules to hand-made POM changes.
- **Writer dispatch** (`ProjectWriter`). `writeProject`'s first-match
  choice of action for each module, and its effect on the written POMs and
  on the generated parent. The written POMs are a map from target path to
  model.
- **Generated parent** (`ParentProject`). Its module lists per profile,
  managed projects, properties and plugin versions.
- **Audit log** (`ExtractionSummary`). Its four usage maps and their text
  rendering. Operations return the events they report, and the summary is
  the fold of those events.
- **Persisted metadata and its codecs** (`QuarkusBom`, `QuarkusParentPom`,
  `IntegrationTestModules`, `CoreExtensions`, over `FileSystemStorage`). The
  collecting goals of the plugin write line-based files that the extracting
  goal reads back. Each codec has a round-trip lemma.
- **Lookup tables and classification predicates**: `PluginUtils`,
  `ConstantUtils`, `UnsupportedProjects`, `DisabledTest`, `KnownTestJars`,
  `QuarkusTestFramework`, `ProductizedNotManagedDependencies`,
  `QuarkusBuildParent`.
- **String utilities** (`MavenUtils` and `ExtractorMavenUtils`, one per
  `MavenUtils` class). POM finalisation is modelled as a pure string
  function (`PomFinalizer`).

Java exceptions become `Result.Failure` and Java `null` becomes `Option`.
State that the Java code keeps in static singletons is threaded explicitly
as a `ProjectImpl.Context` value: the generated parent, the BOM keys, the
stored files, the quarkus-parent plugin versions and the build parent's
keys. Helpers that the program calls but that are not defined in this code
base are function-valued fields of `ProjectImpl.Collaborators`.
`File.separator` is "/", `System.lineSeparator()` is "\n" (every text the
program joins or writes line by line uses it), and `equalsIgnoreCase` is
ASCII case folding (`Text.EqualsIgnoreCase`).

All source paths below are relative to the repository root.

## Model

| member | source | states |
|---|---|---|
| ConstantUtils.IsExtensionDeploymentModule | src/main/java/io/quarkus/test/extractor/utils/ConstantUtils.java:21-24 | an "extensions/…/deployment" path is always an extension test module in the plugin's broader sense |
| ConstantUtils.ExtensionTestModuleCases | src/main/java/io/quarkus/test/extractor/utils/ConstantUtils.java:21-24 | the two classifications of extension modules differ exactly on the supplementary modules under "extensions/" |
| CoreExtensions.GetCoreExtensions | src/main/java/io/quarkus/test/extractor/project/helper/CoreExtensions.java:15-25 | loading fails exactly when the collected file is missing or empty; the loaded names are exactly the trimmed non-blank lines of the file |
| CoreExtensions.IsCoreExtension | src/main/java/io/quarkus/test/extractor/project/helper/CoreExtensions.java:27-29 | fails exactly when loading fails; otherwise true iff the artifactId is one of the collected names |
| CoreExtensions.AddIfCoreExtension | src/main/java/io/quarkus/test/extractor/project/helper/CoreExtensions.java:31-38 | a null or empty artifactId, a path outside "/extensions/" or the extensions' parent leaves the files unchanged; no other file is ever touched |
| CoreExtensions.AddIfCoreExtensionCollects | src/main/java/io/quarkus/test/extractor/project/helper/CoreExtensions.java:15-38 | after recording a module it is a core extension, and every extension known before stays known |
| IntegrationTestModules.GetItModules | src/main/java/io/quarkus/test/extractor/project/helper/IntegrationTestModules.java:19-30 | fails exactly when the saved file is missing or empty; the modules are exactly the trimmed non-blank saved lines, each prefixed with "integration-tests/" |
| IntegrationTestModules.IsDirectItModule | src/main/java/io/quarkus/test/extractor/project/helper/IntegrationTestModules.java:35-37 | fails exactly when loading fails; otherwise true iff the path equals a saved module ignoring case |
| IntegrationTestModules.AddDirectItModules | src/main/java/io/quarkus/test/extractor/project/helper/IntegrationTestModules.java:43-53 | fails exactly when the "test-modules" profile is missing, its module list is empty, or the IT modules file already exists (it is created new); on success the file holds the profile's modules joined by line separators |
| IntegrationTestModules.SavedItModulesRoundTrip | src/main/java/io/quarkus/test/extractor/project/helper/IntegrationTestModules.java:19-53 | saving the profile's modules and querying afterwards: a path is a direct IT module iff it equals "integration-tests/" + one of them, ignoring case |
| FileSystemStorage.LoadFileContent | src/main/java/io/quarkus/test/extractor/project/helper/FileSystemStorage.java:16-23 | reading fails exactly when the file is missing |
| FileSystemStorage.SaveFileContent | src/main/java/io/quarkus/test/extractor/project/helper/FileSystemStorage.java:25-32 | saving fails exactly when the file exists (CREATE_NEW); afterwards it reads back the content and no other file changes |
| PluginUtils.DropDeploymentPostfix | src/main/java/io/quarkus/test/extractor/project/utils/PluginUtils.java:63-72 | the result is a prefix of the trimmed text; it equals the trimmed text iff neither postfix is present; a "-deployment" postfix is exactly what was cut |
| PluginUtils.DropDeploymentPostfixInverse | src/main/java/io/quarkus/test/extractor/project/utils/PluginUtils.java:59-72 | a trimmed deployment artifactId is its runtime artifactId followed by "-deployment" |
| PluginUtils.PrefixWithTests | src/main/java/io/quarkus/test/extractor/project/utils/PluginUtils.java:82-84 | the result starts with "tests-" and the rest is the artifactId |
| ExtractorMavenUtils.IsNotIgnoredProperty | src/main/java/io/quarkus/test/extractor/utils/MavenUtils.java:31-71 | a property is kept exactly when the project writer keeps it or it is one of the writer's eighteen extra names; so everything this list ignores the writer ignores too |
| ExtractorMavenUtils.IgnoredPropertiesIncluded | src/main/java/io/quarkus/test/extractor/utils/MavenUtils.java:24-48 | this ignore list is a strict subset of the writer's |
| ExtractorMavenUtils.Reversible | src/main/java/io/quarkus/test/extractor/utils/MavenUtils.java:102-110 | on content without "${", replacing the markers and then putting "${" back as markers restores the content |
| ExtractorMavenUtils.ReplaceParentPomPlaceholders | src/main/java/io/quarkus/test/extractor/utils/MavenUtils.java:102-110 | content without markers is unchanged; on content without "${" the rewrite can be undone |
| QuarkusBuildParent.RememberDependencyManagement | src/main/java/io/quarkus/test/extractor/project/helper/QuarkusBuildParent.java:20-25 | keys only grow; a missing management adds nothing; every managed dependency's key is remembered and every new key comes from one of them |
| QuarkusBuildParent.RememberIsMonotone | src/main/java/io/quarkus/test/extractor/project/helper/QuarkusBuildParent.java:20-29 | a dependency reported by the (inverted) membership test keeps being reported after more management is remembered |
| UnsupportedProjects.UnsupportedIsInherited | src/main/java/io/quarkus/test/extractor/project/helper/UnsupportedProjects.java:28-37 | every module below an unsupported project is unsupported as well |
| UnsupportedProjects.DevtoolsIsUnsupported | src/main/java/io/quarkus/test/extractor/project/helper/UnsupportedProjects.java:13-37 | the devtools directory itself is matched, through the separator appended to the path |
| DisabledTest.IsNotDisabledTest | src/main/java/io/quarkus/test/extractor/project/helper/DisabledTest.java:19-31 | a file is dropped iff its path ends with the class path of a test disabled for the project; projects without disabled tests keep every file |
| DisabledTest.KindWithDefaultsTestIsDisabled | src/main/java/io/quarkus/test/extractor/project/helper/DisabledTest.java:9-31 | the Kubernetes kind-with-defaults test is dropped from the standard Kubernetes project |
| KnownTestJars.SetTestJarVersionIfNecessary | src/main/java/io/quarkus/test/extractor/project/helper/KnownTestJars.java:15-22 | only the version can change; a community test-jar gets the deferred community Quarkus version, anything else is unchanged |
| KnownTestJars.SetTestJarVersionIsIdempotent | src/main/java/io/quarkus/test/extractor/project/helper/KnownTestJars.java:15-22 | applying the version fix twice equals applying it once |
| QuarkusBom.LoadManagementKeys | src/main/java/io/quarkus/test/extractor/project/helper/QuarkusBom.java:55-76 | before the BOM is parsed there are no keys; every loaded key is trimmed |
| QuarkusBom.IsManagedByQuarkusBom | src/main/java/io/quarkus/test/extractor/project/helper/QuarkusBom.java:31-53 | fails exactly when no keys were loaded; otherwise true iff the dependency is present and its management key is one of the keys |
| QuarkusBom.GetManagementKeys | src/main/java/io/quarkus/test/extractor/project/helper/QuarkusBom.java:92-101 | fails exactly when the BOM has no dependency management; otherwise the keys of the managed dependencies followed by the BOM's own dependencies, one per line |
| QuarkusBom.SaveDependencyKeys | src/main/java/io/quarkus/test/extractor/project/helper/QuarkusBom.java:78-106 | succeeds iff the BOM has dependency management and the keys file does not exist yet (CREATE_NEW); the file exists afterwards |
| QuarkusBom.SavedKeys | src/main/java/io/quarkus/test/extractor/project/helper/QuarkusBom.java:55-106 | loading what was saved gives exactly the set of saved management keys |
| QuarkusBom.SavedKeysRoundTrip | src/main/java/io/quarkus/test/extractor/project/helper/QuarkusBom.java:31-110 | after saving, a dependency is managed exactly when its key is that of one of the BOM's dependencies |
| QuarkusParentPom.Lookup | src/main/java/io/quarkus/test/extractor/project/helper/QuarkusParentPom.java:48-50 | absent exactly when no entry has the key; otherwise the value of an entry with that key |
| QuarkusParentPom.LookupUnique | src/main/java/io/quarkus/test/extractor/project/helper/QuarkusParentPom.java:48-50 | with unique keys, looking up an entry's key yields that entry's value |
| QuarkusParentPom.Put | src/main/java/io/quarkus/test/extractor/project/helper/QuarkusParentPom.java:34 | keys stay unique, the key then maps to the value, and every other key's lookup is unchanged |
| QuarkusParentPom.ResolveVersion | src/main/java/io/quarkus/test/extractor/project/helper/QuarkusParentPom.java:74-81 | a "${name}" version becomes the property's value, or null when the property is undefined; any other version is kept |
| QuarkusParentPom.PutPlugins | src/main/java/io/quarkus/test/extractor/project/helper/QuarkusParentPom.java:31-40 | keys stay unique; an unmodifiable map fails exactly when some plugin declares a version |
| QuarkusParentPom.PutPluginsLookup | src/main/java/io/quarkus/test/extractor/project/helper/QuarkusParentPom.java:31-40 | afterwards a key maps to the resolved version of the last versioned plugin with that key; keys no versioned plugin has are untouched |
| QuarkusParentPom.ParseLines | src/main/java/io/quarkus/test/extractor/project/helper/QuarkusParentPom.java:63-67 | parsing the saved lines keeps keys unique and every parsed value non-null |
| QuarkusParentPom.Load | src/main/java/io/quarkus/test/extractor/project/helper/QuarkusParentPom.java:60-72 | no saved file gives an empty modifiable map; a loaded map is unmodifiable, has unique keys and no null values |
| QuarkusParentPom.CollectPluginVersions | src/main/java/io/quarkus/test/extractor/project/helper/QuarkusParentPom.java:23-46 | any project but the Quarkus parent fails, and the Quarkus parent succeeds on a modifiable map with no saved file; keys stay unique; a non-empty map is saved as its serialization, an empty one writes nothing |
| QuarkusParentPom.CollectedLookup | src/main/java/io/quarkus/test/extractor/project/helper/QuarkusParentPom.java:27-42 | after a collection every key maps to the last versioned management plugin's resolved version, else the last versioned build plugin's, else what was stored before |
| QuarkusParentPom.GetPluginVersion | src/main/java/io/quarkus/test/extractor/project/helper/QuarkusParentPom.java:48-54 | the version stored under the plugin's trimmed lower-cased artifactId: absent key gives null, and with unique keys it is exactly that entry's value |
| QuarkusParentPom.ParseSerialized | src/main/java/io/quarkus/test/extractor/project/helper/QuarkusParentPom.java:60-87 | parsing the serialized lines of entries whose keys and values are single words gives the entries back, in order |
| QuarkusParentPom.SaveLoadRoundTrip | src/main/java/io/quarkus/test/extractor/project/helper/QuarkusParentPom.java:43-87 | saving the map and loading it again yields the same entries, as an unmodifiable map |
| ExtractionSummary.AddUsage | src/main/java/io/quarkus/test/extractor/project/helper/ExtractionSummary.java:42 | the keys afterwards are the old ones plus the key; the usages under each key are the old ones plus the usage under the key |
| ExtractionSummary.AddUsageIsIdempotent | src/main/java/io/quarkus/test/extractor/project/helper/ExtractionSummary.java:42 | recording the same usage twice equals recording it once |
| ExtractionSummary.AddUsageCommutes | src/main/java/io/quarkus/test/extractor/project/helper/ExtractionSummary.java:42 | two usages recorded in either order give the same map |
| ExtractionSummary.AddNotManagedDependency | src/main/java/io/quarkus/test/extractor/project/helper/ExtractionSummary.java:39-43 | the usage is recorded under the dependency's management key, the given version and its test-jar flag; the other three collections are unchanged |
| ExtractionSummary.AddNotManagedDependencyWithOwnVersion | src/main/java/io/quarkus/test/extractor/project/helper/ExtractionSummary.java:45-47 | the two-argument overload records under the dependency's own version; the repository maps are unchanged |
| ExtractionSummary.AddRepository | src/main/java/io/quarkus/test/extractor/project/helper/ExtractionSummary.java:57-61 | the usage is recorded under the repository's name, id and url; the other collections are unchanged |
| ExtractionSummary.AddPluginRepository | src/main/java/io/quarkus/test/extractor/project/helper/ExtractionSummary.java:63-67 | the usage is recorded under the plugin repository's name, id and url; the other collections are unchanged |
| ExtractionSummary.AddProjectWithDependencyManagement | src/main/java/io/quarkus/test/extractor/project/helper/ExtractionSummary.java:69-75 | exactly one entry is added, pairing the set of management keys with the project; the maps are unchanged |
| ExtractionSummary.Observe | src/main/java/io/quarkus/test/extractor/project/helper/ExtractionSummary.java:39-75 | one reported event adds exactly its own key and usage to exactly one of the four collections |
| ExtractionSummary.ObserveAllUnmanaged | src/main/java/io/quarkus/test/extractor/project/helper/ExtractionSummary.java:39-43 | after a run of events the unmanaged dependencies (and their usages) are exactly the earlier ones plus those some event reported |
| ExtractionSummary.ObserveAllRepositories | src/main/java/io/quarkus/test/extractor/project/helper/ExtractionSummary.java:57-61 | after a run of events the repositories (and their usages) are exactly the earlier ones plus those some event reported |
| ExtractionSummary.ObserveAllPluginRepositories | src/main/java/io/quarkus/test/extractor/project/helper/ExtractionSummary.java:63-67 | after a run of events the plugin repositories (and their usages) are exactly the earlier ones plus those some event reported |
| ExtractionSummary.ObserveAllDependencyManagements | src/main/java/io/quarkus/test/extractor/project/helper/ExtractionSummary.java:69-75 | after a run of events the dependency-management entries are exactly the earlier ones plus those some event reported |
| ExtractionSummary.ObservationOrderIsIrrelevant | src/main/java/io/quarkus/test/extractor/project/helper/ExtractionSummary.java:31-75 | two runs with the same set of events produce the same summary, whatever their order and repetitions |
| ExtractionSummary.UnmanagedDependencyHeader | src/main/java/io/quarkus/test/extractor/project/helper/ExtractionSummary.java:128-147 | a missing version is shown as "<<no version>>" and a test-jar is marked " (test-jar type)" |
| ExtractionSummary.RepositoryHeader | src/main/java/io/quarkus/test/extractor/project/helper/ExtractionSummary.java:149-167 | a repository without a name is shown as "<<no repository name found>>" |
| ExtractionSummary.RenderedUsageLines | src/main/java/io/quarkus/test/extractor/project/helper/ExtractionSummary.java:132-146 | the rendered usages read back as the header followed by one line per usage, in order |
| ExtractionSummary.EntryLines | src/main/java/io/quarkus/test/extractor/project/helper/ExtractionSummary.java:128-147 | a rendered entry reads back as its header, one line per usage and an empty line |
| ExtractionSummary.SummaryText | src/main/java/io/quarkus/test/extractor/project/helper/ExtractionSummary.java:93-118 | the text is the title and then four sections in order; the unmanaged-dependency and repository sections are their text as given, possibly empty; the plugin-repository and dependency-management sections say "none found" exactly when empty |
| ExtractionSummary.UnmanagedEntries | src/main/java/io/quarkus/test/extractor/project/helper/ExtractionSummary.java:78-82 | the joined unmanaged entries are empty exactly when there are none, and start with the first entry |
| ExtractionSummary.RepositoryEntries | src/main/java/io/quarkus/test/extractor/project/helper/ExtractionSummary.java:83-92 | the joined repository entries are empty exactly when there are none, and start with the first entry |
| ExtractionSummary.ManagementEntries | src/main/java/io/quarkus/test/extractor/project/helper/ExtractionSummary.java:96-99 | the joined dependency-management entries are empty exactly when there are none, and start with the first entry |
| ExtractionSummary.CreateSummary | src/main/java/io/quarkus/test/extractor/project/helper/ExtractionSummary.java:77-119 | the summary is the four sections in order, each the concatenation of its entries; only an empty plugin-repository or dependency-management list gives "none found"; with neither, the summary ends with both "none found" sections |
| ExtractionSummary.UnmanagedListed | src/main/java/io/quarkus/test/extractor/project/helper/ExtractionSummary.java:77-82 | when the entry sequence lists the unmanaged-dependency map (distinct keys, each with exactly its recorded usages), every recorded unmanaged dependency has its entry text, with its usages, in the summary |
| ExtractionSummary.RepositoryListed | src/main/java/io/quarkus/test/extractor/project/helper/ExtractionSummary.java:83-87 | when the entry sequence lists the repository map, every recorded repository has its entry text, with its usages, in the summary |
| ExtractionSummary.PluginRepositoryListed | src/main/java/io/quarkus/test/extractor/project/helper/ExtractionSummary.java:88-92 | when the entry sequence lists the plugin-repository map, every recorded plugin repository has its entry text, with its usages, in the summary |
| ExtractionSummary.ManagementListed | src/main/java/io/quarkus/test/extractor/project/helper/ExtractionSummary.java:96-99 | when the entry sequence lists the recorded dependency managements, each with exactly its management keys, every one of them has its entry text in the summary |
| ExtractionSummary.NoneFoundExactlyWhenEmpty | src/main/java/io/quarkus/test/extractor/project/helper/ExtractionSummary.java:93-102 | over a listing of the summary, the plugin-repository (dependency-management) text is empty, and so "none found", exactly when no plugin repository (dependency management) was recorded |
| ParentProject.IsManagedByTestParent | src/main/java/io/quarkus/test/extractor/project/result/ParentProject.java:62-70 | a null dependency is not managed; otherwise true iff it is a copy-as-is module, a "quarkus-integration-test…" artifact, or its artifactId matches (ignoring case) one the parent manages; a parent without management fails |
| ParentProject.CorrectGroupIdIfNecessary | src/main/java/io/quarkus/test/extractor/project/result/ParentProject.java:51-56 | fails exactly when the management test fails; the dependency is unchanged, or moved to the test group and this project's version, and moved only when the parent manages it |
| ParentProject.CorrectGroupIdIsIdempotent | src/main/java/io/quarkus/test/extractor/project/result/ParentProject.java:51-56 | correcting twice equals correcting once |
| ParentProject.FindProfileByName | src/main/java/io/quarkus/test/extractor/project/result/ParentProject.java:129-131 | the first profile whose id equals the name exactly; none iff no id matches |
| ParentProject.AddTestModule | src/main/java/io/quarkus/test/extractor/project/result/ParentProject.java:58-60 | fails exactly when no profile has that exact id; otherwise only that profile changes, gaining the module at the end |
| ParentProject.SetQuarkusVersion | src/main/java/io/quarkus/test/extractor/project/result/ParentProject.java:85-89 | the parent's version and both version properties become the version; the other properties and fields are unchanged |
| ParentProject.AddProperties | src/main/java/io/quarkus/test/extractor/project/result/ParentProject.java:91-102 | every non-ignored given property is set to its value; other properties and fields are unchanged; no property is lost |
| ParentProject.AddPropertiesIsIdempotent | src/main/java/io/quarkus/test/extractor/project/result/ParentProject.java:91-102 | adding the same properties twice equals adding them once |
| ParentProject.AddedPropertiesAreDefined | src/main/java/io/quarkus/test/extractor/project/result/ParentProject.java:91-113 | after the parent took the properties, each non-ignored one is defined there with its value |
| ParentProject.GetPluginVersionInParentProps | src/main/java/io/quarkus/test/extractor/project/result/ParentProject.java:115-127 | the mapped property when the parent defines it, else "<artifactId>.version" when defined, else null; a result always refers to a parent property |
| ParentProject.ManagedProjectDependency | src/main/java/io/quarkus/test/extractor/project/result/ParentProject.java:134-137 | the managed entry has the module's artifactId, the test group and the extracted "project.version" placeholder as version, and nothing else set |
| ParentProject.AddManagedProject | src/main/java/io/quarkus/test/extractor/project/result/ParentProject.java:133-148 | fails exactly when the parent has no dependency management; otherwise the entry is appended to it and only management and profiles change; an extension module is listed in "extension-tests-managed-modules", a direct integration-test module in its postfixed integration-tests profile, any other integration-test module nowhere |
| ParentProject.WithModuleListed | src/main/java/io/quarkus/test/extractor/project/result/ParentProject.java:139-147 | the first profile whose id equals the name ignoring case gains the module at the end of its module list; every other profile and a missing profile leave the list as it was |
| ParentProject.AddedProjectIsManaged | src/main/java/io/quarkus/test/extractor/project/result/ParentProject.java:62-148 | once a module is managed, any dependency with its artifactId (ignoring case) counts as managed by the test parent |
| ParentProject.AddManagedProjectKeepsManaged | src/main/java/io/quarkus/test/extractor/project/result/ParentProject.java:62-148 | managing another module never makes a managed dependency unmanaged |
| ParentProject.ConfigureIntegrationTestsBuild | src/main/java/io/quarkus/test/extractor/project/result/ParentProject.java:158-161 | fails exactly when the "integration-tests-build" profile (ignoring case) is missing; otherwise only that profile's build is replaced |
| TestModuleProperties.ParentPropertiesAreNotRepeated | src/main/java/io/quarkus/test/extractor/project/utils/MavenUtils.java:120-125 | a property handed to the parent is never a test-module property afterwards |
| TestModuleProperties.WriterIsStricter | src/main/java/io/quarkus/test/extractor/project/utils/MavenUtils.java:120-129 | every property the writer keeps for a module is kept by the collector's test too |
| MavenUtils.ManagementKey | src/main/java/io/quarkus/test/extractor/project/utils/MavenUtils.java:262-268 | without a classifier the key is groupId:artifactId; with one it is groupId:artifactId:type, so "jar" and "test-jar" dependencies compare equal |
| MavenUtils.ComputeRelativePath | src/main/java/io/quarkus/test/extractor/project/utils/MavenUtils.java:286-289 | one "../" per separator in the target path plus one, and nothing else |
| MavenUtils.GetProfile | src/main/java/io/quarkus/test/extractor/project/utils/MavenUtils.java:361-367 | the first profile whose id equals the name ignoring case; none iff no id matches |
| MavenUtils.ReplaceExtractedPropertyPrefix | src/main/java/io/quarkus/test/extractor/project/utils/MavenUtils.java:183 | text without the marker prefix is unchanged |
| MavenUtils.ReplaceExtractedPropertyPrefixIsReversible | src/main/java/io/quarkus/test/extractor/project/utils/MavenUtils.java:183 | on text with no "${" of its own, turning every "${" back into the marker restores the original |
| MavenUtils.ElementTextOfElementLine | src/main/java/io/quarkus/test/extractor/project/utils/MavenUtils.java:240-256 | for an element written on its own indented line, the text read back is the element's value |
| PomFinalizer.LiteralIsMatch | src/main/java/io/quarkus/test/extractor/project/utils/MavenUtils.java:184-204 | every literal "project.version" is also a match of the regular expression the rewrite uses |
| PomFinalizer.ReplaceProjectVersion | src/main/java/io/quarkus/test/extractor/project/utils/MavenUtils.java:201-205 | a line without a match of the pattern comes back unchanged |
| PomFinalizer.ReplacedLineHasNoMatch | src/main/java/io/quarkus/test/extractor/project/utils/MavenUtils.java:201-204 | after replacing with the community or core-BOM property name, which starts with "co" and has no "p", no match of the pattern is left in the line |
| PomFinalizer.RewriteVersionLine | src/main/java/io/quarkus/test/extractor/project/utils/MavenUtils.java:197-205 | fails exactly when reading the previous line fails; a line after a test-parent-managed dependency is kept; otherwise every match becomes the community property after a community dependency and the core-BOM property elsewhere, and no match is left |
| PomFinalizer.StageLine | src/main/java/io/quarkus/test/extractor/project/utils/MavenUtils.java:189-205 | a line whose coordinate cannot be read fails; a Quarkus Maven plugin line is kept and fails exactly on the first line; any other line is its version rewrite |
| PomFinalizer.Stages | src/main/java/io/quarkus/test/extractor/project/utils/MavenUtils.java:187-207 | every line is staged, in order, against the staged line before it, and one staged line per input line |
| PomFinalizer.RewriteLinesIsStagedThenSettled | src/main/java/io/quarkus/test/extractor/project/utils/MavenUtils.java:187-208 | the in-place loop, which also rewrites the line before a plugin line, equals staging every line and then replacing "io.quarkus" by the platform groupId property in each line followed by a plugin line |
| PomFinalizer.RewriteLines | src/main/java/io/quarkus/test/extractor/project/utils/MavenUtils.java:187-208 | the line count is kept and only lines with a version match or "io.quarkus" may change |
| PomFinalizer.RewriteProjectVersions | src/main/java/io/quarkus/test/extractor/project/utils/MavenUtils.java:184-210 | fails exactly when staging the lines fails; otherwise the text is the staged and settled lines joined with "\n", as many as the input has, each unchanged unless it may change |
| PomFinalizer.LocationLineIsNotScriptLine | src/main/java/io/quarkus/test/extractor/project/utils/MavenUtils.java:217-218 | the replacement location line is not itself a script line, so a second pass leaves it alone |
| PomFinalizer.RelocateDockerPruneLines | src/main/java/io/quarkus/test/extractor/project/utils/MavenUtils.java:213-224 | the line count is kept, no script line remains, and only script lines change |
| PomFinalizer.RelocateDockerPruneIsIdempotent | src/main/java/io/quarkus/test/extractor/project/utils/MavenUtils.java:213-224 | relocating twice equals relocating once |
| PomFinalizer.RelocateDockerPrune | src/main/java/io/quarkus/test/extractor/project/utils/MavenUtils.java:211-225 | no line of the result ends with the docker-prune script |
| PomFinalizer.FinalizePom | src/main/java/io/quarkus/test/extractor/project/utils/MavenUtils.java:180-230 | the parent POM only gets the marker rewrite, and so does a module POM without "project.version" or "docker-prune"; a module POM with "project.version" fails exactly when the version rewrite fails and is otherwise that rewrite, with docker-prune relocated when present; one with only "docker-prune" gets the relocation; no docker-prune script line is left |
| TestProjectCustomizer.RemoveDependencyFrom | src/main/java/io/quarkus/test/extractor/project/helper/TestProjectCustomizer.java:282-287 | exactly the dependencies not named by the artifactId (ignoring case) remain, and nothing else in the POM changes |
| TestProjectCustomizer.RemoveAbsentDependency | src/main/java/io/quarkus/test/extractor/project/helper/TestProjectCustomizer.java:282-287 | a POM without a dependency of that name is left unchanged |
| TestProjectCustomizer.RemoveDependencyIsIdempotent | src/main/java/io/quarkus/test/extractor/project/helper/TestProjectCustomizer.java:282-287 | removing a dependency twice equals removing it once |
| TestProjectCustomizer.AddKotlin | src/main/java/io/quarkus/test/extractor/project/helper/TestProjectCustomizer.java:179-198 | the Kotlin extension and then Jackson's Kotlin module follow the existing dependencies, which are kept in order |
| TestProjectCustomizer.PlatformDescriptor | src/main/java/io/quarkus/test/extractor/project/helper/TestProjectCustomizer.java:115-121 | the added platform descriptor is a JSON artifact whose version and classifier are both the extracted platform version |
| TestProjectCustomizer.MavenIt | src/main/java/io/quarkus/test/extractor/project/helper/TestProjectCustomizer.java:99-125 | compiler source and target point at the extracted release property, every other property is kept, and the platform descriptor is appended to the dependencies |
| TestProjectCustomizer.AddPluginsOfProfile | src/main/java/io/quarkus/test/extractor/project/helper/TestProjectCustomizer.java:256-280 | with the named profile of the test parent, its plugins are appended to the module's build (failing when either build is absent); without it the POM is unchanged |
| TestProjectCustomizer.TargetJava21 | src/main/java/io/quarkus/test/extractor/project/helper/TestProjectCustomizer.java:71-84 | fails exactly when no profile is named run-virtual-thread-tests (ignoring case); otherwise only that profile's properties change, gaining maven.compiler.release = 21 unless the profile already set it, and keeping every own value |
| TestProjectCustomizer.FixAnnotationProcessor | src/main/java/io/quarkus/test/extractor/project/helper/TestProjectCustomizer.java:53-69 | a module without a build fails, one without a compiler plugin is left alone, one whose first compiler plugin has a configuration with an annotation processor path succeeds, and the other ones fail; the POM record never changes otherwise |
| TestProjectCustomizer.DisableNative | src/main/java/io/quarkus/test/extractor/project/helper/TestProjectCustomizer.java:86-97 | native builds are skipped through quarkus.build.skip, the marker file exists afterwards, an existing marker leaves the files alone, and no other file changes |
| TestProjectCustomizer.Customize | src/main/java/io/quarkus/test/extractor/project/helper/TestProjectCustomizer.java:24-49 | only the disable-in-native change writes files, a dependency removal is exactly RemoveDependencyFrom, the source-rewriting changes leave the POM alone, and no change touches the module's coordinates, parent or module list |
| TestProjectCustomizer.CustomizeIfNecessary | src/main/java/io/quarkus/test/extractor/project/helper/TestProjectCustomizer.java:133-138 | a module without a registered customisation is left alone; otherwise its registered customisation is applied, keeping the module's identity |
| TestProjectCustomizer.PanacheKotlinLosesRestKotlin | src/main/java/io/quarkus/test/extractor/project/helper/TestProjectCustomizer.java:247-254 | the Hibernate Reactive Panache Kotlin module loses quarkus-rest-kotlin and keeps every other dependency |
| ProjectImpl.Name | src/main/java/io/quarkus/test/extractor/project/builder/ProjectImpl.java:386-391 | a deployment test module's name is its trimmed name without the "-deployment" postfix, a prefix of the original; every other module keeps its name |
| ProjectImpl.TargetProfileName | src/main/java/io/quarkus/test/extractor/project/builder/ProjectImpl.java:471-473 | modules under "extensions" go to the extensions profile; the rest to an integration-tests profile, the "-21" one exactly for the virtual-thread tests |
| ProjectImpl.GetProperties | src/main/java/io/quarkus/test/extractor/project/builder/ProjectImpl.java:653-674 | a missing map gives an empty one; a non-test module keeps every property; a test module keeps exactly the properties that are test-module properties, with their values |
| ProjectImpl.TestModulePropertiesAreOwn | src/main/java/io/quarkus/test/extractor/project/builder/ProjectImpl.java:656-662 | a property a test module keeps is neither ignored nor defined with the same value by the parent |
| ProjectImpl.DeploymentDependencyAccompanies | src/main/java/io/quarkus/test/extractor/project/builder/ProjectImpl.java:367-383 | declaring "x-deployment" next to "x" counts as the evidence that "x" is managed |
| ProjectImpl.FindDependencyVersion | src/main/java/io/quarkus/test/extractor/project/builder/ProjectImpl.java:524-533 | the version of the first resolved dependency with a version and the same management key (ignoring case), and none exactly when there is no such dependency |
| ProjectImpl.DecideVersion | src/main/java/io/quarkus/test/extractor/project/builder/ProjectImpl.java:500-522 | test-framework artifacts take the community version, productized-but-unmanaged ones the core-BOM version; a resolved version is used exactly when no earlier rule applies and Maven resolved a version other than the module's own; the core-BOM version exactly when nothing was resolved |
| ProjectImpl.ResolveAndSetDependencyVersion | src/main/java/io/quarkus/test/extractor/project/builder/ProjectImpl.java:500-522 | only the version changes: a placeholder for the community or core-BOM decision, the found version otherwise; one unmanaged-dependency entry is reported under the decision's version |
| ProjectImpl.NoSelfVersionLeak | src/main/java/io/quarkus/test/extractor/project/builder/ProjectImpl.java:512-521 | a resolved dependency never carries the module's own version literally: it gets a placeholder or a different version |
| ProjectImpl.IsUnmanaged | src/main/java/io/quarkus/test/extractor/project/builder/ProjectImpl.java:285-286 | unmanaged exactly when neither the Quarkus BOM nor the test parent manages the dependency; failing exactly when the BOM keys are missing, or the BOM does not manage it and the test parent cannot be asked |
| ProjectImpl.ResolveVersionIfUnmanaged | src/main/java/io/quarkus/test/extractor/project/builder/ProjectImpl.java:283-291 | deployment artifacts and versioned dependencies are untouched; an unversioned dependency nobody manages and not declared next to its deployment artifact is resolved; only the version changes, with at most one report |
| ProjectImpl.ResolveExtensionVersion | src/main/java/io/quarkus/test/extractor/project/builder/ProjectImpl.java:209-222 | versioned dependencies are untouched; an unversioned deployment test-jar takes the community version and is reported under it; other unversioned dependencies nobody manages are resolved |
| ProjectImpl.ReplaceThisProjectVersion | src/main/java/io/quarkus/test/extractor/project/builder/ProjectImpl.java:292-304 | only a "project.version" reference changes; it is dropped when the BOM manages the artifact, else replaced by the community placeholder, the platform version for the platform artifacts, or the core-BOM placeholder; failing exactly when the BOM keys are missing |
| ProjectImpl.SetTestJarVersion | src/main/java/io/quarkus/test/extractor/project/builder/ProjectImpl.java:306-308 | only an unversioned test-jar's version may change |
| ProjectImpl.ExtensionDependency | src/main/java/io/quarkus/test/extractor/project/builder/ProjectImpl.java:203-239 | only the version of a declared dependency changes, with at most one report, and a versioned non-test-jar dependency without a "project.version" reference is kept as it is |
| ProjectImpl.ModuleDependency | src/main/java/io/quarkus/test/extractor/project/builder/ProjectImpl.java:271-311 | an integration-test dependency changes only in its normalised scope and its version, with at most one report |
| ProjectImpl.CorrectGroupIds | src/main/java/io/quarkus/test/extractor/project/builder/ProjectImpl.java:240 | the list succeeds exactly when every entry's correction does, and each entry is replaced by its correction in place |
| ProjectImpl.CorrectGroupIdKeepsIdentity | src/main/java/io/quarkus/test/extractor/project/builder/ProjectImpl.java:240 | a corrected dependency keeps its artifactId, type, classifier, scope and exclusions |
| ProjectImpl.DropBuildOrderingDependencies | src/main/java/io/quarkus/test/extractor/project/builder/ProjectImpl.java:166-185 | exactly the declared dependencies that only order the build are dropped |
| ProjectImpl.DropOwnPomDependencies | src/main/java/io/quarkus/test/extractor/project/builder/ProjectImpl.java:269 | exactly the POM-typed Quarkus-own dependencies are dropped |
| ProjectImpl.SelfDependency | src/main/java/io/quarkus/test/extractor/project/builder/ProjectImpl.java:194-202 | the module depends on its own artifact, unversioned exactly when the BOM manages it and with the core-BOM placeholder otherwise; failing exactly when the BOM keys are missing |
| ProjectImpl.CandidatesAreCounterparts | src/main/java/io/quarkus/test/extractor/project/builder/ProjectImpl.java:242-254 | every runtime form computed from the filtered deployment dependencies is a counterpart candidate |
| ProjectImpl.CounterpartsAreCandidates | src/main/java/io/quarkus/test/extractor/project/builder/ProjectImpl.java:242-254 | every counterpart candidate is among the runtime forms computed |
| ProjectImpl.CounterpartCandidates | src/main/java/io/quarkus/test/extractor/project/builder/ProjectImpl.java:242-254 | the candidates are exactly the runtime forms of the non-test, non-test-jar, non-POM, non-SPI deployment dependencies other than the devservices one |
| ProjectImpl.MissingCounterparts | src/main/java/io/quarkus/test/extractor/project/builder/ProjectImpl.java:255-263 | distinct entries, exactly the candidates that are core extensions and not yet declared as a plain artifact |
| ProjectImpl.RuntimeCounterparts | src/main/java/io/quarkus/test/extractor/project/builder/ProjectImpl.java:241-264 | fails exactly when there is a candidate and the stored core extensions cannot be read; otherwise distinct entries, exactly the candidates that are core extensions and not already declared |
| ProjectImpl.CorrectGroupIdsKeepIdentity | src/main/java/io/quarkus/test/extractor/project/builder/ProjectImpl.java:312 | a corrected list keeps every entry's artifactId and scope in place |
| ProjectImpl.OwnExtensionDependencies | src/main/java/io/quarkus/test/extractor/project/builder/ProjectImpl.java:203-239 | each declared dependency of a deployment test module is rewritten in place, keeping its artifactId |
| ProjectImpl.SelfAndOwnDependencies | src/main/java/io/quarkus/test/extractor/project/builder/ProjectImpl.java:194-239 | the module itself comes first, then its declared dependencies in order |
| ProjectImpl.ExtensionDependencies | src/main/java/io/quarkus/test/extractor/project/builder/ProjectImpl.java:188-264 | the module itself, then its declared dependencies in order, then runtime counterparts none of which is already declared before them |
| ProjectImpl.ModuleDependencies | src/main/java/io/quarkus/test/extractor/project/builder/ProjectImpl.java:265-313 | succeeds exactly when every kept non-POM dependency can be rewritten; the result is, in declaration order, each of them rewritten by `moduleDependency` and then given its corrected groupId, so artifactId and normalised scope carry over |
| ProjectImpl.ModuleDependenciesRewritten | src/main/java/io/quarkus/test/extractor/project/builder/ProjectImpl.java:160-316 | for a module that is not an extension deployment one, `dependencies()` succeeds exactly when every kept dependency can be rewritten, and its i-th result is the i-th rewritten dependency with no version on a copy-as-is artifact |
| ProjectImpl.WithoutCopyAsIsVersions | src/main/java/io/quarkus/test/extractor/project/builder/ProjectImpl.java:314 | the list keeps its length, artifactIds and scopes, and no copy-as-is artifact keeps a version |
| ProjectImpl.Dependencies | src/main/java/io/quarkus/test/extractor/project/builder/ProjectImpl.java:160-316 | no declared dependencies give none; a deployment test module gets itself first and then its kept dependencies; any other module its kept non-POM dependencies in order with normalised scopes; no copy-as-is artifact keeps a version |
| ProjectImpl.BuildOrderingDependenciesAreDropped | src/main/java/io/quarkus/test/extractor/project/builder/ProjectImpl.java:166-185 | no build-ordering dependency survives in either kind of module |
| ProjectImpl.PrepareManaged | src/main/java/io/quarkus/test/extractor/project/builder/ProjectImpl.java:150-151 | a kept managed dependency keeps its artifactId, a copy-as-is one is pinned to the module version, and it fails exactly when the group correction does |
| ProjectImpl.PrepareManagedList | src/main/java/io/quarkus/test/extractor/project/builder/ProjectImpl.java:144-151 | succeeds exactly when every entry that neither the build parent manages nor is named quarkus-bom-test has a correctable groupId; the i-th kept entry is the i-th such entry with its groupId corrected and a copy-as-is one pinned to the module version, and the reported list rewrites those entries in place and leaves the others as they were |
| ProjectImpl.PrepareDependencyManagement | src/main/java/io/quarkus/test/extractor/project/builder/ProjectImpl.java:138-158 | no or empty management gives none and no report; some management is kept exactly when some entry survives both filters, and then it succeeds exactly when every surviving entry can be prepared, the kept list is those entries prepared in order, and exactly one report carries the whole list with them rewritten in place |
| ProjectImpl.PreparedManagementIsKeptEntries | src/main/java/io/quarkus/test/extractor/project/builder/ProjectImpl.java:138-158 | a dependency is in the kept management list if and only if it is some declared managed entry that survives both filters, prepared |
| ProjectImpl.PreparedAreKeptEntries | src/main/java/io/quarkus/test/extractor/project/builder/ProjectImpl.java:144-151 | an entry is among the prepared ones if and only if it is a surviving managed entry with its groupId corrected and its version pinned when copy-as-is |
| ProjectImpl.KeepRepositories | src/main/java/io/quarkus/test/extractor/project/builder/ProjectImpl.java:324-330 | exactly the non-central repositories are kept, each reported once in order |
| ProjectImpl.Repositories | src/main/java/io/quarkus/test/extractor/project/builder/ProjectImpl.java:318-332 | exactly the non-central repositories are kept, each reported as a declared repository |
| ProjectImpl.PluginRepositories | src/main/java/io/quarkus/test/extractor/project/builder/ProjectImpl.java:334-348 | exactly the non-central plugin repositories are kept, each reported as a declared plugin repository |
| ProjectImpl.ProfileDependency | src/main/java/io/quarkus/test/extractor/project/builder/ProjectImpl.java:79-100 | a profile dependency keeps its artifactId with at most one report, and a non-test-jar deployment dependency with a "project.version" reference just loses its version before the group correction |
| ProjectImpl.ProfileDependencies | src/main/java/io/quarkus/test/extractor/project/builder/ProjectImpl.java:76-103 | succeeds exactly when every dependency of the profile can be rewritten; the result is the rewritten dependencies in order with exactly the POM-typed Quarkus-own ones removed, so a rewritten dependency survives if and only if it is not one of those; a profile without dependencies gets none |
| ProjectBuild.IsRemovedPlugin | src/main/java/io/quarkus/test/extractor/project/builder/ProjectImpl.java:543-578 | ignored plugins and bare compiler or extension-maven plugins go; a non-bare compiler plugin goes exactly when it only compiles by default outside the test-extension module; every other plugin stays |
| ProjectBuild.KeptPlugins | src/main/java/io/quarkus/test/extractor/project/builder/ProjectImpl.java:542-578 | exactly the plugins the removal keeps, in order, the compiler plugin with the extracted version; none is ignored, and no bare compiler or extension-maven plugin survives |
| ProjectBuild.FindResolvedPluginVersion | src/main/java/io/quarkus/test/extractor/project/builder/ProjectImpl.java:622-651 | the version of the first same-named versioned build plugin, else of the first such managed plugin; failing with the "Failed to determine plugin" error exactly when neither list has one |
| ProjectBuild.LookupPluginVersion | src/main/java/io/quarkus/test/extractor/project/builder/ProjectImpl.java:585-598 | the quarkus-parent POM's version wins (except for that POM itself), then the test parent's property, then the resolved plugins; failing exactly when all three have none |
| ProjectBuild.PluginStep | src/main/java/io/quarkus/test/extractor/project/builder/ProjectImpl.java:580-607 | a kept plugin keeps its artifactId and executions, gets a version unless it is surefire or failsafe, is reported once as used, and fails exactly when it needs a version nobody provides |
| ProjectBuild.PluginSteps | src/main/java/io/quarkus/test/extractor/project/builder/ProjectImpl.java:579-608 | the kept plugins are stepped in place, each reported once in order, and the list succeeds exactly when every step does |
| ProjectBuild.StepsFailOnSomePlugin | src/main/java/io/quarkus/test/extractor/project/builder/ProjectImpl.java:579-608 | stepping the kept plugins fails exactly when some kept plugin's step fails |
| ProjectBuild.SteppedPluginsAreKept | src/main/java/io/quarkus/test/extractor/project/builder/ProjectImpl.java:543-546 | stepping never brings back an ignored plugin |
| ProjectBuild.PrepareBuild | src/main/java/io/quarkus/test/extractor/project/builder/ProjectImpl.java:540-620 | fails exactly when some kept plugin cannot be versioned; otherwise no ignored plugin remains, every plugin but surefire and failsafe has a version, one report per kept plugin in order, and managed plugins only get the platform redirection |
| ProjectBuild.PrepareOptionalBuild | src/main/java/io/quarkus/test/extractor/project/builder/ProjectImpl.java:117-126 | no declared build gives none; otherwise the build is prepared, with its failure and reports |
| ProjectBuild.BuildOf | src/main/java/io/quarkus/test/extractor/project/builder/ProjectImpl.java:117-126 | no declared build gives none; a prepared build holds no ignored plugin and only versioned plugins other than surefire and failsafe |
| ProjectBuild.DeclaredAfterDependencies | src/main/java/io/quarkus/test/extractor/project/builder/ProjectImpl.java:166-192 | the declared list after `dependencies()` is no longer, holds no build-ordering dependency, and only artifacts that were declared |
| ProjectBuild.AfterDependencies | src/main/java/io/quarkus/test/extractor/project/builder/ProjectImpl.java:162-185 | `dependencies()` changes the project only in its declared dependency list |
| ProjectBuild.PrepareProfile | src/main/java/io/quarkus/test/extractor/project/builder/ProjectImpl.java:62-105 | a profile fails exactly when its build, management or dependencies fail; it keeps its id and modules, has a build exactly when it had one, filters its properties like the module's, holds no POM-typed Quarkus-own dependency, and reports build, management, then dependencies |
| ProjectBuild.Profiles | src/main/java/io/quarkus/test/extractor/project/builder/ProjectImpl.java:60-108 | every declared profile, in order with its id and modules, failing exactly when some profile fails |
| ProjectBuild.OriginalModel | src/main/java/io/quarkus/test/extractor/project/builder/ProjectImpl.java:476-483 | only the build, dependencies, dependency management and profiles of the declared POM change; the build and dependencies are those of `build()` and `dependencies()`; it fails exactly when one of the four parts fails |
| TestModuleProject.TestModuleParent | src/main/java/io/quarkus/test/extractor/project/result/TestModuleProject.java:17-23 | a direct submodule gets the skeleton's parent with this version and the computed relative path; any other module the parent of its prepared original POM, with that POM's reports; either way in the test group, failing when there is no parent |
| TestModuleProject.PartsOf | src/main/java/io/quarkus/test/extractor/project/result/TestModuleProject.java:27-35 | the parts succeed only when dependencies and management do; the management is the project's prepared one, exactly the non-central repositories are kept, and no copy-as-is dependency keeps a version |
| TestModuleProject.Assemble | src/main/java/io/quarkus/test/extractor/project/result/TestModuleProject.java:24-37 | the skeleton's group and modules stay; version, artifactId, name, description, properties and parent are the project's; exactly the non-central repositories are kept; the skeleton's management stays when the project has none |
| TestModuleProject.Create | src/main/java/io/quarkus/test/extractor/project/result/TestModuleProject.java:14-38 | the test-module POM has the project's coordinates, name, description and properties, a parent in the test group (pointing at the generated parent for a direct submodule), exactly the non-central repositories, the skeleton's management when the project has none, and no version on copy-as-is dependencies |
| ProjectWriter.ActionFor | src/main/java/io/quarkus/test/extractor/project/writer/ProjectWriterImpl.java:47-59 | the first matching branch decides, each action holding exactly when its own test holds and every earlier one fails, in the order build parent, integration-tests parent, unsupported, quarkus-parent, copy as is, test module |
| ProjectWriter.SummaryFor | src/main/java/io/quarkus/test/extractor/project/writer/ProjectWriterImpl.java:61-68 | the final summary is stored exactly after the last module, a partial one otherwise |
| ProjectWriter.FileName | src/main/java/io/quarkus/test/extractor/project/writer/ProjectWriterImpl.java:84 | a module's directory name holds no separator and is the whole path when the path has none |
| ProjectWriter.RemoveFirst | src/main/java/io/quarkus/test/extractor/project/writer/ProjectWriterImpl.java:85 | removing an absent name changes nothing; otherwise exactly one occurrence of it goes |
| ProjectWriter.RemoveFirstOfDistinct | src/main/java/io/quarkus/test/extractor/project/writer/ProjectWriterImpl.java:83-85 | in a module list without repetitions the removed module is gone and every other module stays |
| ProjectWriter.RemoveModule | src/main/java/io/quarkus/test/extractor/project/writer/ProjectWriterImpl.java:83-91 | the parent POM loses the module from its module list and from every profile's, and nothing else changes |
| ProjectWriter.DropFromParentPom | src/main/java/io/quarkus/test/extractor/project/writer/ProjectWriterImpl.java:81-92 | only the parent's written POM changes, and only when it exists |
| ProjectWriter.CopyQuarkusBuildParent | src/main/java/io/quarkus/test/extractor/project/writer/ProjectWriterImpl.java:123-127 | only the test parent and the remembered management change: the parent takes the build parent's version as the platform version and its non-ignored properties, and the remembered keys only grow |
| ProjectWriter.ConfigureItBuild | src/main/java/io/quarkus/test/extractor/project/result/ParentProject.java:158-161 | a parent without the "integration-tests-build" profile fails before the module is read; otherwise it fails exactly when preparing the original POM fails, and only the test parent changes, its profile taking the original build |
| ProjectWriter.RemoveUnsupportedProject | src/main/java/io/quarkus/test/extractor/project/writer/ProjectWriterImpl.java:76-95 | a direct submodule changes nothing; a nested one is dropped from its parent's written POM; failing exactly when the module's place cannot be decided |
| ProjectWriter.UnsupportedModuleLeavesParent | src/main/java/io/quarkus/test/extractor/project/writer/ProjectWriterImpl.java:76-95 | a nested unsupported module disappears from its parent's module list and every other module stays |
| ProjectWriter.CollectParentPluginVersions | src/main/java/io/quarkus/test/extractor/project/helper/QuarkusParentPom.java:23-46 | only the quarkus-parent POM is collected; the stored versions keep unique keys, the written POMs stay, and the build's reports appear twice |
| ProjectWriter.AddToParentPomModel | src/main/java/io/quarkus/test/extractor/project/writer/ProjectWriterImpl.java:169-173 | only a direct test submodule is added to its target profile of the parent; nothing else changes |
| ProjectWriter.CreateMavenModule | src/main/java/io/quarkus/test/extractor/project/writer/ProjectWriterImpl.java:163-167 | the model is written under the module's target path, every other written POM stays, and it fails exactly when the parent registration fails |
| ProjectWriter.CopiedParent | src/main/java/io/quarkus/test/extractor/project/writer/ProjectWriterImpl.java:109-115 | the copied module's parent is in the test group, and points at the generated parent with this version and relative path exactly for a direct submodule |
| ProjectWriter.WriteManaged | src/main/java/io/quarkus/test/extractor/project/writer/ProjectWriterImpl.java:116-120 | the customised module is written keeping its identity, every other written POM stays, and the parent manages the module afterwards |
| ProjectWriter.CopyWhole | src/main/java/io/quarkus/test/extractor/project/writer/ProjectWriterImpl.java:106-121 | the prepared original POM is written under the redirected parent with its reports, every other written POM stays, and the parent manages the module afterwards |
| ProjectWriter.WriteCustomized | src/main/java/io/quarkus/test/extractor/project/writer/ProjectWriterImpl.java:136-138 | the customised test module is written keeping its identity, and every other written POM stays |
| ProjectWriter.CreateTestModuleFrom | src/main/java/io/quarkus/test/extractor/project/writer/ProjectWriterImpl.java:129-139 | the test-module POM is written with the project's artifactId, version and a test-group parent, with the reports of its creation, and every other written POM stays |
| ProjectWriter.Act | src/main/java/io/quarkus/test/extractor/project/writer/ProjectWriterImpl.java:47-59 | no action changes nothing; only the module's and its parent's POMs may change; only copying and test-module creation write a new POM; the stored plugin versions keep unique keys |
| ProjectWriter.WriteProject | src/main/java/io/quarkus/test/extractor/project/writer/ProjectWriterImpl.java:41-69 | fails exactly when the module's action fails; the summary kind follows the last-module test; after the last module the generated parent is written at the root, otherwise the state is the action's |

## Left out

- The Maven goals (`CollectProjectMetadataMojo`, `ExtractTestsMojo`, `ParseQuarkusBomMojo`, `CollectCoreExtensionsMojo`) and the `ProjectWriter` interface are left out: they are lifecycle plumbing without decisions of their own.
- File-system I/O is left out: copying directories and tests, creating directories, deleting the copied POM, the `run_tests.sh` library, the empty file for the docker-prune location, `correctVersionResolutionForForcedDeps`, `copyDirectory` and `containsTests`. Files are a map from name to text, written POMs a map from target path to model, and `containsTests` is a field of the project.
- `FileChanger` and the three customisations that rewrite test sources are left out: they edit files, not the POM. `Customize` leaves the POM alone for them.
- `TestProjectCustomizer.FixAnnotationProcessor` does not model the version element added to the compiler plugin's XML configuration. The `Plugin` record holds no XML, and `QuarkusBom.getVersionForDependencyKey` is not part of this model. Of the XML, only whether the configuration exists and whether it holds an `annotationProcessorPaths` element with a `path` child are modelled, as the two flags the null-pointer failures depend on.
- `targetRelativePath()`, `findExtensionParent` and `relativePath` resolve absolute paths against the real directory layout. They are inputs of `ProjectImpl.MavenProject` instead.
- `parentProject()` and the parent's target directory are inputs too: `ProjectWriter.RemoveUnsupportedProject` takes the parent's target path as a parameter.
- `ProjectWriter.WriteProject` takes the test-module skeleton POM as a parameter instead of reading it from disk.
- The Maven model library (`MavenProject`, `Model`, `Xpp3Dom`, reading and writing POM XML) is replaced by the records of `Pom`. Cloning is value semantics.
- Helpers that the program calls but that are not defined in this code base are the function-valued fields of `ProjectImpl.Collaborators`:
  - `hasEmptyVersion`;
  - the platform version of `setQuarkusPlatformVersion`;
  - `PluginUtils.isQuarkusMavenPlugin`;
  - `PluginUtils.isIoQuarkusMavenPlugin` (a parameter of `PomFinalizer.FinalizePom`).
- Line separators other than "\n" are left out: `System.lineSeparator()` is "\n" throughout, in the finalized POM (project/utils/MavenUtils.java:209 and :224), the saved BOM keys, plugin versions and IT modules, and the summary text. On a platform whose separator is "\r\n" the source writes "\r\n" instead.
- The three-argument `saveFileContent(name, content, true)` is not defined in this code base: `FileSystemStorage` declares only the two-argument form, which fails on an existing file. It is assumed to create the file only when it is missing (`TestProjectCustomizer.DisableNative`).
- `FileSystemStorage.AddToFile` is assumed to append the line and a separator, creating a missing file. `addToFile` is not part of this model.
- `ProjectImpl` calls summary instance methods (`addBuildPlugin` and others) that the `ExtractionSummary` class does not show. They are modelled as events that a `Summary` folds. The two store operations, final and partial, are the `SummaryKind` that `ProjectWriter.WriteProject` returns.
- The order in which hash maps and sets are iterated when the summary is rendered is left out: the rendering takes the entries in a given sequence. `ExtractionSummary.Enumerates` says when such sequences list exactly the recorded maps and set, in any order, and `ExtractionSummary.UnmanagedListed`, `ExtractionSummary.RepositoryListed`, `ExtractionSummary.PluginRepositoryListed` and `ExtractionSummary.ManagementListed` show that every recorded entry then appears in the summary.
- `System.out` and `System.err` output is left out.
- Concurrency is left out: `ConcurrentHashMap`, volatile lazy singletons and double-checked locking. State is threaded through calls sequentially, and a lazily loaded store is re-read on every query.
- `ProjectImpl.RuntimeCounterparts` keeps the counterparts in first-occurrence order. The source collects them into a hash set, whose order it does not define.
- `ProjectImpl.OwnExtensionDependencies`, `ProjectImpl.SelfAndOwnDependencies` and `ProjectImpl.ExtensionDependencies` state the artifactIds and order of the result, not every field. The per-dependency rules are stated by `ProjectImpl.ExtensionDependency`, `ProjectImpl.ResolveExtensionVersion` and `ProjectImpl.ReplaceThisProjectVersion`.
- `ProjectImpl.Dependencies`: for an extension deployment test module it states, like `ProjectImpl.ExtensionDependencies`, the artifactIds and order of the result rather than every field; for any other module `ProjectImpl.ModuleDependenciesRewritten` states every field.
- `ProjectImpl.ExtensionDependency` states that only the version changes, not which version. The rules it chains are stated separately.
- `ProjectImpl.ModuleDependency` states that only the scope and version change, not which version. The rules it chains are stated separately.
- `ProjectImpl.ProfileDependency` states only the artifactId, the report count and the "project.version" case. The group correction can change the groupId and version of a test-parent-managed dependency.
- `ProjectWriter.CollectParentPluginVersions` does not state the collected versions themselves. They are stated by `QuarkusParentPom.CollectedLookup`.
- `PomFinalizer.ReplaceProjectVersion` states only that a line without a match is unchanged. That no match survives is `PomFinalizer.ReplacedLineHasNoMatch`, proved for a replacement that starts with "co" and has no "p", which both names the finalizer uses do. It does not hold for every replacement: "project.project.version" with "version" becomes "project.version".

Behaviour of the source kept as written:

- `hasTestScope` compares the dependency's type, not its scope, with "test". Runtime counterparts are therefore also made for test-scoped deployment dependencies whose type is not "test".
- `QuarkusBuildParent.IsNotManagedByBuildParent` holds when the build parent DOES manage the key. So the dependency management a test module keeps is exactly what the build parent manages.
- `QuarkusBom.LoadManagementKeys` keeps a blank line as the empty key.
- A plugin-version map loaded from a saved file is unmodifiable: putting into it fails.
- The "project.version" pattern of `finalizePom` is a regular expression whose dots match any character but a line terminator.
- `toDependency` reads the artifactId from just after the tag to the next `<`. It does not trim text before the tag.
- `finalizePom` joins the rewritten lines with `System.lineSeparator()`, taken to be "\n", so a trailing line terminator of the input is not kept.
- `finalizePom` fails on a Quarkus Maven plugin on the first line. The source reads the line before it, which does not exist.
- `dependencies()` removes entries from the declared dependency list itself. `profiles()` and `originalModel()` see the list as it is left, which `ProjectBuild.AfterDependencies` models.
- For a module that is not a direct submodule, `TestModuleProject.create` calls `originalModel()`. That prepares the whole POM again, reports its events and changes the declared dependency list. `TestModuleProject.TestModuleParent` returns that state.
- `collectPluginVersions` calls `build()` twice, so the build's events are reported twice.
- The java-21 customisation finds its profile ignoring case. `ParentProject.getProfile` ignores case, while `addTestModule` matches the profile id exactly.
- `originalProjectName` is the project's Maven name, `MavenProject.name`.
- `setTestJarVersionIfNecessary` is declared with one argument and called with two. The model uses the one-argument rule.
- Only the first occurrence of a module name is removed from a module list (`List.remove(Object)`).
- `ProjectWriter.FileName` takes the last path name after dropping trailing separators, as `Path.getFileName()` does.
- `isDirectSubModule()` is evaluated once per `copyWholeProject`, since the model has no state that could change between calls.
