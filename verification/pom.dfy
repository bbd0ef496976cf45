/** The part of the Maven POM object model (`org.apache.maven.model`) the extractor reads and writes.

  Lists Maven never leaves null (dependencies, plugins, executions, profiles,
  modules, properties) are plain sequences and maps; elements Maven may leave
  unset are `Option`s.
*/
module Pom {
  import opened Wrappers

  datatype Exclusion = Exclusion(groupId: Option<string>, artifactId: Option<string>)

  /** A `<dependency>`; Maven defaults its `type` (here `dependencyType`) to "jar". */
  datatype Dependency = Dependency(
    groupId: Option<string>,
    artifactId: string,
    version: Option<string>,
    dependencyType: string,
    classifier: Option<string>,
    scope: Option<string>,
    exclusions: seq<Exclusion>)

  /** `new Dependency()` with the group and artifact set. */
  function NewDependency(groupId: Option<string>, artifactId: string): Dependency {
    Dependency(groupId, artifactId, None, "jar", None, None, [])
  }

  /** A `<plugin>`: its coordinates, whether it declares dependencies or a
      configuration, the ids of its executions, and whether its configuration
      holds an `annotationProcessorPaths` element with a `path` child. */
  datatype Plugin = Plugin(
    groupId: string,
    artifactId: string,
    version: Option<string>,
    hasDependencies: bool,
    hasConfiguration: bool,
    executionIds: seq<string>,
    hasAnnotationProcessorPath: bool)

  datatype Build = Build(plugins: seq<Plugin>, pluginManagement: Option<seq<Plugin>>)

  datatype Repository = Repository(id: Option<string>, name: Option<string>, url: Option<string>)

  datatype Profile = Profile(
    id: string,
    modules: seq<string>,
    dependencies: seq<Dependency>,
    dependencyManagement: Option<seq<Dependency>>,
    properties: map<string, string>,
    build: Option<Build>)

  datatype Parent = Parent(
    groupId: Option<string>,
    artifactId: Option<string>,
    version: Option<string>,
    relativePath: string)

  /** A whole POM. */
  datatype Model = Model(
    groupId: Option<string>,
    artifactId: Option<string>,
    version: Option<string>,
    name: Option<string>,
    description: Option<string>,
    parent: Option<Parent>,
    properties: map<string, string>,
    dependencies: seq<Dependency>,
    dependencyManagement: Option<seq<Dependency>>,
    repositories: seq<Repository>,
    pluginRepositories: seq<Repository>,
    build: Option<Build>,
    profiles: seq<Profile>,
    modules: seq<string>)
}
