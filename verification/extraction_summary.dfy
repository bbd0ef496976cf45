/** The audit log of `project/helper/ExtractionSummary.java`: what the
    extraction met that needs a human eye (unmanaged dependencies, project
    repositories, projects with their own dependency management), grouped by
    key with the set of projects where it was met, and its text rendering.

  The concurrent maps are a `Summary` value; a project reports what it met as
  a sequence of `Observation`s, and the summary is the fold of them.
*/
module ExtractionSummary {
  import opened Wrappers
  import opened Text
  import opened Pom
  import opened MavenUtils
  import Seqs

  datatype UnmanagedDependencyKey = UnmanagedDependencyKey(managementKey: string, version: Option<string>, isTestJar: bool)
  datatype RepositoryKey = RepositoryKey(name: Option<string>, id: Option<string>, url: Option<string>)
  /** Where something was met: the project's artifactId and its target path. */
  datatype Usage = Usage(projectId: string, relativePath: string)
  datatype DependencyManagementKey = DependencyManagementKey(managementKeys: set<string>, usage: Usage)

  datatype Summary = Summary(
    unmanagedDependencies: map<UnmanagedDependencyKey, set<Usage>>,
    repositories: map<RepositoryKey, set<Usage>>,
    pluginRepositories: map<RepositoryKey, set<Usage>>,
    dependencyManagements: set<DependencyManagementKey>)

  const EMPTY := Summary(map[], map[], map[], {})

  /** `map.computeIfAbsent(key, k -> new HashSet<>()).add(usage)` */
  function AddUsage<K(!new)>(m: map<K, set<Usage>>, key: K, usage: Usage): (r: map<K, set<Usage>>)
    ensures forall k :: k in r <==> k in m || k == key
    ensures forall k, u :: k in r && u in r[k] <==> (k in m && u in m[k]) || (k == key && u == usage)
  {
    m[key := (if key in m then m[key] else {}) + {usage}]
  }

  /** Recording a usage twice is recording it once. */
  lemma AddUsageIsIdempotent<K(!new)>(m: map<K, set<Usage>>, key: K, usage: Usage)
    ensures AddUsage(AddUsage(m, key, usage), key, usage) == AddUsage(m, key, usage)
  {
  }

  /** Two usages can be recorded in either order. */
  lemma AddUsageCommutes<K(!new)>(m: map<K, set<Usage>>, k1: K, u1: Usage, k2: K, u2: Usage)
    ensures AddUsage(AddUsage(m, k1, u1), k2, u2) == AddUsage(AddUsage(m, k2, u2), k1, u1)
  {
    var a := AddUsage(AddUsage(m, k1, u1), k2, u2);
    var b := AddUsage(AddUsage(m, k2, u2), k1, u1);
    SameUsagesSameMap(a, b);
  }

  /** Two usage maps with the same keys and the same usages under each key are equal. */
  lemma SameUsagesSameMap<K(!new)>(a: map<K, set<Usage>>, b: map<K, set<Usage>>)
    requires forall k :: k in a <==> k in b
    requires forall k, u :: InUsages(a, k, u) <==> InUsages(b, k, u)
    ensures a == b
  {
    forall k | k in a ensures a[k] == b[k] {
      assert forall u :: u in a[k] <==> InUsages(a, k, u);
    }
  }

  function UnmanagedKey(dependency: Dependency, version: Option<string>): UnmanagedDependencyKey {
    UnmanagedDependencyKey(ManagementKey(dependency), version, IsTestJar(dependency))
  }

  function RepositoryKeyOf(repository: Repository): RepositoryKey {
    RepositoryKey(repository.name, repository.id, repository.url)
  }

  function ManagementKeySet(managed: seq<Dependency>): (r: set<string>)
    ensures forall d :: d in managed ==> ManagementKey(d) in r
  {
    set d | d in managed :: ManagementKey(d)
  }

  /** `addNotManagedDependency(dependency, project, version)`: nothing but the unmanaged map changes. */
  function AddNotManagedDependency(s: Summary, dependency: Dependency, usage: Usage, version: Option<string>): (r: Summary)
    ensures var key := UnmanagedDependencyKey(ManagementKey(dependency), version, IsTestJar(dependency));
      key in r.unmanagedDependencies && usage in r.unmanagedDependencies[key]
    ensures r.repositories == s.repositories && r.pluginRepositories == s.pluginRepositories
    ensures r.dependencyManagements == s.dependencyManagements
  {
    s.(unmanagedDependencies := AddUsage(s.unmanagedDependencies, UnmanagedKey(dependency, version), usage))
  }

  /** The two-argument overload: recorded under the dependency's own current version. */
  function AddNotManagedDependencyWithOwnVersion(s: Summary, dependency: Dependency, usage: Usage): (r: Summary)
    ensures var key := UnmanagedDependencyKey(ManagementKey(dependency), dependency.version, IsTestJar(dependency));
      key in r.unmanagedDependencies && usage in r.unmanagedDependencies[key]
    ensures r.repositories == s.repositories && r.pluginRepositories == s.pluginRepositories
  {
    AddNotManagedDependency(s, dependency, usage, dependency.version)
  }

  /** `addRepository`: the plugin-repository map is left alone. */
  function AddRepository(s: Summary, repository: Repository, usage: Usage): (r: Summary)
    ensures var key := RepositoryKey(repository.name, repository.id, repository.url);
      key in r.repositories && usage in r.repositories[key]
    ensures r.pluginRepositories == s.pluginRepositories && r.unmanagedDependencies == s.unmanagedDependencies
    ensures r.dependencyManagements == s.dependencyManagements
  {
    s.(repositories := AddUsage(s.repositories, RepositoryKeyOf(repository), usage))
  }

  /** `addPluginRepository`: the repository map is left alone. */
  function AddPluginRepository(s: Summary, repository: Repository, usage: Usage): (r: Summary)
    ensures var key := RepositoryKey(repository.name, repository.id, repository.url);
      key in r.pluginRepositories && usage in r.pluginRepositories[key]
    ensures r.repositories == s.repositories && r.unmanagedDependencies == s.unmanagedDependencies
    ensures r.dependencyManagements == s.dependencyManagements
  {
    s.(pluginRepositories := AddUsage(s.pluginRepositories, RepositoryKeyOf(repository), usage))
  }

  /** `addProjectWithDependencyManagement`: one entry pairing the set of
      management keys with the project. */
  function AddProjectWithDependencyManagement(s: Summary, managed: seq<Dependency>, usage: Usage): (r: Summary)
    ensures var key := DependencyManagementKey(set d | d in managed :: ManagementKey(d), usage);
      key in r.dependencyManagements
      && forall k :: k in r.dependencyManagements ==> k in s.dependencyManagements || k == key
    ensures s.dependencyManagements <= r.dependencyManagements
    ensures r.unmanagedDependencies == s.unmanagedDependencies && r.repositories == s.repositories
  {
    s.(dependencyManagements := s.dependencyManagements + {DependencyManagementKey(ManagementKeySet(managed), usage)})
  }

  /** What a project reports while it is extracted. `addBuildPlugin` is called
      by the extraction but not part of this model, so a used build plugin
      leaves the summary unchanged. */
  datatype Event =
    | NotManagedDependency(dependency: Dependency, version: Option<string>)
    | RepositoryDeclared(repository: Repository)
    | PluginRepositoryDeclared(repository: Repository)
    | OwnDependencyManagement(managed: seq<Dependency>)
    | BuildPluginUsed(plugin: Plugin)

  datatype Observation = Observation(usage: Usage, event: Event)

  predicate ObservesUnmanaged(o: Observation, k: UnmanagedDependencyKey, u: Usage) {
    o.usage == u && o.event.NotManagedDependency? && UnmanagedKey(o.event.dependency, o.event.version) == k
  }

  predicate ObservesRepository(o: Observation, k: RepositoryKey, u: Usage) {
    o.usage == u && o.event.RepositoryDeclared? && RepositoryKeyOf(o.event.repository) == k
  }

  predicate ObservesPluginRepository(o: Observation, k: RepositoryKey, u: Usage) {
    o.usage == u && o.event.PluginRepositoryDeclared? && RepositoryKeyOf(o.event.repository) == k
  }

  predicate ObservesDependencyManagement(o: Observation, k: DependencyManagementKey) {
    o.event.OwnDependencyManagement? && DependencyManagementKey(ManagementKeySet(o.event.managed), o.usage) == k
  }

  predicate InUsages<K>(m: map<K, set<Usage>>, k: K, u: Usage) {
    k in m && u in m[k]
  }

  function Observe(s: Summary, o: Observation): (r: Summary)
    ensures forall k :: k in r.unmanagedDependencies <==>
      k in s.unmanagedDependencies || ObservesUnmanaged(o, k, o.usage)
    ensures forall k, u :: InUsages(r.unmanagedDependencies, k, u) <==>
      InUsages(s.unmanagedDependencies, k, u) || ObservesUnmanaged(o, k, u)
    ensures forall k :: k in r.repositories <==> k in s.repositories || ObservesRepository(o, k, o.usage)
    ensures forall k, u :: InUsages(r.repositories, k, u) <==>
      InUsages(s.repositories, k, u) || ObservesRepository(o, k, u)
    ensures forall k :: k in r.pluginRepositories <==>
      k in s.pluginRepositories || ObservesPluginRepository(o, k, o.usage)
    ensures forall k, u :: InUsages(r.pluginRepositories, k, u) <==>
      InUsages(s.pluginRepositories, k, u) || ObservesPluginRepository(o, k, u)
    ensures forall k :: k in r.dependencyManagements <==>
      k in s.dependencyManagements || ObservesDependencyManagement(o, k)
  {
    match o.event
    case NotManagedDependency(d, version) => AddNotManagedDependency(s, d, o.usage, version)
    case RepositoryDeclared(repository) => AddRepository(s, repository, o.usage)
    case PluginRepositoryDeclared(repository) => AddPluginRepository(s, repository, o.usage)
    case OwnDependencyManagement(managed) => AddProjectWithDependencyManagement(s, managed, o.usage)
    case BuildPluginUsed(_) => s
  }

  function ObserveAll(s: Summary, os: seq<Observation>): Summary
    decreases |os|
  {
    if os == [] then s else ObserveAll(Observe(s, os[0]), os[1..])
  }

  predicate ReportsUnmanaged(os: seq<Observation>, k: UnmanagedDependencyKey, u: Usage) {
    exists o :: o in os && ObservesUnmanaged(o, k, u)
  }

  predicate ReportsUnmanagedKey(os: seq<Observation>, k: UnmanagedDependencyKey) {
    exists o :: o in os && ObservesUnmanaged(o, k, o.usage)
  }

  predicate ReportsRepository(os: seq<Observation>, k: RepositoryKey, u: Usage) {
    exists o :: o in os && ObservesRepository(o, k, u)
  }

  predicate ReportsRepositoryKey(os: seq<Observation>, k: RepositoryKey) {
    exists o :: o in os && ObservesRepository(o, k, o.usage)
  }

  predicate ReportsPluginRepository(os: seq<Observation>, k: RepositoryKey, u: Usage) {
    exists o :: o in os && ObservesPluginRepository(o, k, u)
  }

  predicate ReportsPluginRepositoryKey(os: seq<Observation>, k: RepositoryKey) {
    exists o :: o in os && ObservesPluginRepository(o, k, o.usage)
  }

  predicate ReportsDependencyManagement(os: seq<Observation>, k: DependencyManagementKey) {
    exists o :: o in os && ObservesDependencyManagement(o, k)
  }

  lemma InTail(os: seq<Observation>, o: Observation)
    requires os != []
    ensures o in os <==> o == os[0] || o in os[1..]
  {
    assert os == [os[0]] + os[1..];
  }

  /** After a run of observations, the unmanaged dependencies are exactly those
      recorded before plus those some observation reported. */
  lemma {:induction false} ObserveAllUnmanaged(s: Summary, os: seq<Observation>)
    ensures forall k :: k in ObserveAll(s, os).unmanagedDependencies <==>
      k in s.unmanagedDependencies || ReportsUnmanagedKey(os, k)
    ensures forall k, u :: InUsages(ObserveAll(s, os).unmanagedDependencies, k, u) <==>
      InUsages(s.unmanagedDependencies, k, u) || ReportsUnmanaged(os, k, u)
    decreases |os|
  {
    if os != [] {
      ObserveAllUnmanaged(Observe(s, os[0]), os[1..]);
      forall k, u ensures ReportsUnmanaged(os, k, u) <==> ObservesUnmanaged(os[0], k, u) || ReportsUnmanaged(os[1..], k, u) {
        if ReportsUnmanaged(os, k, u) {
          var o :| o in os && ObservesUnmanaged(o, k, u);
          InTail(os, o);
        }
        if ReportsUnmanaged(os[1..], k, u) {
          var o :| o in os[1..] && ObservesUnmanaged(o, k, u);
          InTail(os, o);
        }
      }
      forall k ensures ReportsUnmanagedKey(os, k) <==> ObservesUnmanaged(os[0], k, os[0].usage) || ReportsUnmanagedKey(os[1..], k) {
        if ReportsUnmanagedKey(os, k) {
          var o :| o in os && ObservesUnmanaged(o, k, o.usage);
          InTail(os, o);
        }
        if ReportsUnmanagedKey(os[1..], k) {
          var o :| o in os[1..] && ObservesUnmanaged(o, k, o.usage);
          InTail(os, o);
        }
      }
    }
  }

  lemma {:induction false} ObserveAllRepositories(s: Summary, os: seq<Observation>)
    ensures forall k :: k in ObserveAll(s, os).repositories <==> k in s.repositories || ReportsRepositoryKey(os, k)
    ensures forall k, u :: InUsages(ObserveAll(s, os).repositories, k, u) <==>
      InUsages(s.repositories, k, u) || ReportsRepository(os, k, u)
    decreases |os|
  {
    if os != [] {
      ObserveAllRepositories(Observe(s, os[0]), os[1..]);
      forall k, u ensures ReportsRepository(os, k, u) <==> ObservesRepository(os[0], k, u) || ReportsRepository(os[1..], k, u) {
        if ReportsRepository(os, k, u) {
          var o :| o in os && ObservesRepository(o, k, u);
          InTail(os, o);
        }
        if ReportsRepository(os[1..], k, u) {
          var o :| o in os[1..] && ObservesRepository(o, k, u);
          InTail(os, o);
        }
      }
      forall k ensures ReportsRepositoryKey(os, k) <==> ObservesRepository(os[0], k, os[0].usage) || ReportsRepositoryKey(os[1..], k) {
        if ReportsRepositoryKey(os, k) {
          var o :| o in os && ObservesRepository(o, k, o.usage);
          InTail(os, o);
        }
        if ReportsRepositoryKey(os[1..], k) {
          var o :| o in os[1..] && ObservesRepository(o, k, o.usage);
          InTail(os, o);
        }
      }
    }
  }

  lemma {:induction false} ObserveAllPluginRepositories(s: Summary, os: seq<Observation>)
    ensures forall k :: k in ObserveAll(s, os).pluginRepositories <==>
      k in s.pluginRepositories || ReportsPluginRepositoryKey(os, k)
    ensures forall k, u :: InUsages(ObserveAll(s, os).pluginRepositories, k, u) <==>
      InUsages(s.pluginRepositories, k, u) || ReportsPluginRepository(os, k, u)
    decreases |os|
  {
    if os != [] {
      ObserveAllPluginRepositories(Observe(s, os[0]), os[1..]);
      forall k, u ensures ReportsPluginRepository(os, k, u) <==>
        ObservesPluginRepository(os[0], k, u) || ReportsPluginRepository(os[1..], k, u) {
        if ReportsPluginRepository(os, k, u) {
          var o :| o in os && ObservesPluginRepository(o, k, u);
          InTail(os, o);
        }
        if ReportsPluginRepository(os[1..], k, u) {
          var o :| o in os[1..] && ObservesPluginRepository(o, k, u);
          InTail(os, o);
        }
      }
      forall k ensures ReportsPluginRepositoryKey(os, k) <==>
        ObservesPluginRepository(os[0], k, os[0].usage) || ReportsPluginRepositoryKey(os[1..], k) {
        if ReportsPluginRepositoryKey(os, k) {
          var o :| o in os && ObservesPluginRepository(o, k, o.usage);
          InTail(os, o);
        }
        if ReportsPluginRepositoryKey(os[1..], k) {
          var o :| o in os[1..] && ObservesPluginRepository(o, k, o.usage);
          InTail(os, o);
        }
      }
    }
  }

  lemma {:induction false} ObserveAllDependencyManagements(s: Summary, os: seq<Observation>)
    ensures forall k :: k in ObserveAll(s, os).dependencyManagements <==>
      k in s.dependencyManagements || ReportsDependencyManagement(os, k)
    decreases |os|
  {
    if os != [] {
      ObserveAllDependencyManagements(Observe(s, os[0]), os[1..]);
      forall k ensures ReportsDependencyManagement(os, k) <==>
        ObservesDependencyManagement(os[0], k) || ReportsDependencyManagement(os[1..], k) {
        if ReportsDependencyManagement(os, k) {
          var o :| o in os && ObservesDependencyManagement(o, k);
          InTail(os, o);
        }
        if ReportsDependencyManagement(os[1..], k) {
          var o :| o in os[1..] && ObservesDependencyManagement(o, k);
          InTail(os, o);
        }
      }
    }
  }

  /** Only which observations were made matters, not their order or how often
      each was made. */
  lemma ObservationOrderIsIrrelevant(s: Summary, xs: seq<Observation>, ys: seq<Observation>)
    requires forall o :: o in xs <==> o in ys
    ensures ObserveAll(s, xs) == ObserveAll(s, ys)
  {
    var a, b := ObserveAll(s, xs), ObserveAll(s, ys);
    ObserveAllUnmanaged(s, xs);
    ObserveAllUnmanaged(s, ys);
    SameUsagesSameMap(a.unmanagedDependencies, b.unmanagedDependencies);
    ObserveAllRepositories(s, xs);
    ObserveAllRepositories(s, ys);
    SameUsagesSameMap(a.repositories, b.repositories);
    ObserveAllPluginRepositories(s, xs);
    ObserveAllPluginRepositories(s, ys);
    SameUsagesSameMap(a.pluginRepositories, b.pluginRepositories);
    ObserveAllDependencyManagements(s, xs);
    ObserveAllDependencyManagements(s, ys);
  }

  const NO_VERSION := "<<no version>>"
  const NO_REPOSITORY_NAME := "<<no repository name found>>"
  const TEST_JAR_SUFFIX := " (test-jar type)"
  const NONE_FOUND := "none found"

  function UsageLine(u: Usage): string {
    "  - project '" + u.projectId + "' located at '" + u.relativePath + "'"
  }

  /** The usages, one line each, every line ended by the line separator. */
  function RenderUsages(usages: seq<Usage>): string
    decreases |usages|
  {
    if usages == [] then ""
    else RenderUsages(usages[..|usages| - 1]) + UsageLine(usages[|usages| - 1]) + "\n"
  }

  function UnmanagedDependencyHeader(key: UnmanagedDependencyKey): (r: string)
    ensures key.version.None? ==> Contains(r, NO_VERSION)
    ensures key.isTestJar ==> Contains(r, TEST_JAR_SUFFIX)
  {
    var testJar := if key.isTestJar then TEST_JAR_SUFFIX else "";
    var version := key.version.GetOr(NO_VERSION);
    var head := "- Dependency '" + key.managementKey;
    var middle := "' is not managed by Quarkus BOM, going to use '";
    var tail := "' version, this dependency is used at:";
    ContainsMiddle(head, testJar, middle + version + tail);
    ContainsMiddle(head + testJar + middle, version, tail);
    assert head + testJar + (middle + version + tail) == head + testJar + middle + version + tail;
    head + testJar + middle + version + tail
  }

  /** One unmanaged-dependency entry: its header, its usages, an empty line. */
  function FoundUnmanagedDependency(key: UnmanagedDependencyKey, usages: seq<Usage>): string {
    UnmanagedDependencyHeader(key) + "\n" + RenderUsages(usages) + "\n"
  }

  function RepositoryHeader(key: RepositoryKey): (r: string)
    ensures key.name.None? ==> StartsWith(r, "- Repository '" + NO_REPOSITORY_NAME + "'")
  {
    "- Repository '" + key.name.GetOr(NO_REPOSITORY_NAME) + "' (with id '" + OrNull(key.id)
    + "' and URL '" + OrNull(key.url) + "') was declared in POM of following projects:"
  }

  function FoundProjectRepository(key: RepositoryKey, usages: seq<Usage>): string {
    RepositoryHeader(key) + "\n" + RenderUsages(usages) + "\n"
  }

  /** `Set.toString()` with the elements in the given order. */
  function SetText(elements: seq<string>): string {
    "[" + Join(elements, ", ") + "]"
  }

  function FoundDependencyManagement(key: DependencyManagementKey, keysInOrder: seq<string>): string
    requires forall k :: k in keysInOrder <==> k in key.managementKeys
  {
    "- project '" + key.usage.projectId + "' located at '" + key.usage.relativePath
    + "' manages following dependencies: " + SetText(keysInOrder) + "\n"
  }

  /** The usage lines in order. */
  function UsageLines(usages: seq<Usage>): (r: seq<string>)
    ensures |r| == |usages| && forall i :: 0 <= i < |usages| ==> r[i] == UsageLine(usages[i])
    decreases |usages|
  {
    if usages == [] then [] else UsageLines(usages[..|usages| - 1]) + [UsageLine(usages[|usages| - 1])]
  }

  lemma RenderedUsagesEndWithNewline(usages: seq<Usage>)
    ensures usages != [] ==> var t := RenderUsages(usages); t != [] && t[|t| - 1] == '\n'
  {
  }

  lemma {:induction false} RenderedUsageLines(header: string, usages: seq<Usage>)
    requires NoLineTerminator(header)
    requires forall i :: 0 <= i < |usages| ==> NoLineTerminator(UsageLine(usages[i]))
    ensures Lines(header + "\n" + RenderUsages(usages)) == [header] + UsageLines(usages)
    decreases |usages|
  {
    if usages == [] {
      HeaderOnlyLines(header);
    } else {
      var init := usages[..|usages| - 1];
      forall i | 0 <= i < |init| ensures NoLineTerminator(UsageLine(init[i])) {
        assert init[i] == usages[i];
      }
      RenderedUsageLines(header, init);
      RenderedUsageLinesStep(header, usages);
    }
  }

  lemma HeaderOnlyLines(header: string)
    requires NoLineTerminator(header)
    ensures Lines(header + "\n" + RenderUsages([])) == [header] + UsageLines([])
  {
    LinesOfLine(header, "");
    assert header + "\n" + "" == header + "\n";
  }

  /** One more usage adds its line to the lines of the entry. */
  lemma RenderedUsageLinesStep(header: string, usages: seq<Usage>)
    requires usages != []
    requires NoLineTerminator(UsageLine(usages[|usages| - 1]))
    requires Lines(header + "\n" + RenderUsages(usages[..|usages| - 1])) == [header] + UsageLines(usages[..|usages| - 1])
    ensures Lines(header + "\n" + RenderUsages(usages)) == [header] + UsageLines(usages)
  {
    var init := usages[..|usages| - 1];
    var line := UsageLine(usages[|usages| - 1]);
    var a := header + "\n" + RenderUsages(init);
    var s := header + "\n" + RenderUsages(usages);
    assert s == a + line + "\n" by { RenderUsagesSnoc(header, usages); }
    assert a != [] && a[|a| - 1] == '\n' by { HeaderAndUsagesEndWithNewline(header, init); }
    assert Lines(s) == [header] + UsageLines(init) + [line] by { LinesSnocStep(s, a, line, [header] + UsageLines(init)); }
    assert UsageLines(usages) == UsageLines(init) + [line];
    Seqs.AppendAssoc([header], UsageLines(init), [line]);
  }

  lemma HeaderAndUsagesEndWithNewline(header: string, usages: seq<Usage>)
    ensures var a := header + "\n" + RenderUsages(usages); a != [] && a[|a| - 1] == '\n'
  {
    var t := RenderUsages(usages);
    RenderedUsagesEndWithNewline(usages);
    if usages != [] {
      assert (header + "\n" + t)[|header + "\n" + t| - 1] == t[|t| - 1];
    }
  }

  /** A text that is a newline-terminated text followed by one more line has that line added to its lines. */
  lemma LinesSnocStep(s: string, a: string, line: string, prefix: seq<string>)
    requires s == a + line + "\n" && a != [] && a[|a| - 1] == '\n'
    requires NoLineTerminator(line) && Lines(a) == prefix
    ensures Lines(s) == prefix + [line]
  {
    AppendedLine(a, line);
  }

  lemma RenderUsagesSnoc(header: string, usages: seq<Usage>)
    requires usages != []
    ensures header + "\n" + RenderUsages(usages)
      == header + "\n" + RenderUsages(usages[..|usages| - 1]) + UsageLine(usages[|usages| - 1]) + "\n"
  {
    var a := RenderUsages(usages[..|usages| - 1]);
    var b := UsageLine(usages[|usages| - 1]);
    assert RenderUsages(usages) == a + b + "\n";
    AppendThree(header + "\n", a, b, "\n");
  }

  /** Every entry reads back as its header, one line per usage and an empty line. */
  lemma EntryLines(header: string, usages: seq<Usage>)
    requires NoLineTerminator(header)
    requires forall i :: 0 <= i < |usages| ==> NoLineTerminator(UsageLine(usages[i]))
    ensures Lines(header + "\n" + RenderUsages(usages) + "\n") == [header] + UsageLines(usages) + [""]
  {
    RenderedUsageLines(header, usages);
    var a := header + "\n" + RenderUsages(usages);
    RenderedUsagesEndWithNewline(usages);
    assert a[|a| - 1] == '\n';
    AppendedLine(a, "");
    assert a + "" + "\n" == a + "\n";
  }

  /** The parts one after another (`Collectors.joining()`). */
  function Concat(parts: seq<string>): (r: string)
    ensures parts == [] ==> r == ""
    ensures parts != [] ==> StartsWith(r, parts[0])
    decreases |parts|
  {
    if parts == [] then "" else parts[0] + Concat(parts[1..])
  }

  /** The unmanaged-dependency entries joined; empty exactly when there are none. */
  function UnmanagedEntries(unmanaged: seq<(UnmanagedDependencyKey, seq<Usage>)>): (r: string)
    ensures r == "" <==> unmanaged == []
    ensures unmanaged != [] ==> StartsWith(r, FoundUnmanagedDependency(unmanaged[0].0, unmanaged[0].1))
  {
    Concat(seq(|unmanaged|, i requires 0 <= i < |unmanaged| => FoundUnmanagedDependency(unmanaged[i].0, unmanaged[i].1)))
  }

  /** The repository entries joined; empty exactly when there are none. */
  function RepositoryEntries(repositories: seq<(RepositoryKey, seq<Usage>)>): (r: string)
    ensures r == "" <==> repositories == []
    ensures repositories != [] ==> StartsWith(r, FoundProjectRepository(repositories[0].0, repositories[0].1))
  {
    Concat(seq(|repositories|, i requires 0 <= i < |repositories| => FoundProjectRepository(repositories[i].0, repositories[i].1)))
  }

  /** The dependency-management entries joined; empty exactly when there are none. */
  function ManagementEntries(dependencyManagements: seq<(DependencyManagementKey, seq<string>)>): (r: string)
    requires forall i :: 0 <= i < |dependencyManagements| ==>
      forall k :: k in dependencyManagements[i].1 <==> k in dependencyManagements[i].0.managementKeys
    ensures r == "" <==> dependencyManagements == []
    ensures dependencyManagements != [] ==>
      StartsWith(r, FoundDependencyManagement(dependencyManagements[0].0, dependencyManagements[0].1))
  {
    Concat(seq(|dependencyManagements|, i requires 0 <= i < |dependencyManagements| =>
      FoundDependencyManagement(dependencyManagements[i].0, dependencyManagements[i].1)))
  }

  const SUMMARY_TITLE := "Test extraction summary:\n"
  const UNMANAGED_TITLE := "UnmanagedDependencies:"
  const REPOSITORIES_TITLE := "Projects that have configured a repository in their POM:"
  const PLUGIN_REPOSITORIES_TITLE := "Projects that have configured a plugin repository in their POM:"
  const MANAGEMENTS_TITLE := "Projects that have their own dependency managements"

  /** One section of the summary: an empty line, its `===` heading, its text and a line break. */
  function Section(title: string, text: string): string {
    "\n=== " + title + "\n" + text + "\n"
  }

  /** A section's text, or "none found" when there is none. */
  function OrNoneFound(text: string): string {
    if text == "" then NONE_FOUND else text
  }

  /** A section appended to a text is its heading, its text and a line break appended in turn. */
  lemma AppendSection(prefix: string, title: string, text: string)
    ensures prefix + Section(title, text) == prefix + "\n=== " + title + "\n" + text + "\n"
  {
  }

  /** The end of a summary whose plugin-repository and dependency-management sections are empty. */
  const SUMMARY_TAIL_WITHOUT_ENTRIES := Section(PLUGIN_REPOSITORIES_TITLE, NONE_FOUND) + Section(MANAGEMENTS_TITLE, NONE_FOUND)

  /** The whole summary from its four sections' texts: the title, then the
      unmanaged dependencies and the repositories as given (possibly empty),
      then the plugin repositories and the dependency managements, each
      replaced by "none found" when empty. */
  function SummaryText(unmanaged: string, repositories: string, pluginRepositories: string,
                       dependencyManagements: string): (r: string)
    ensures r == SUMMARY_TITLE + Section(UNMANAGED_TITLE, unmanaged) + Section(REPOSITORIES_TITLE, repositories)
      + Section(PLUGIN_REPOSITORIES_TITLE, OrNoneFound(pluginRepositories))
      + Section(MANAGEMENTS_TITLE, OrNoneFound(dependencyManagements))
    ensures pluginRepositories == "" && dependencyManagements == "" ==> EndsWith(r, SUMMARY_TAIL_WITHOUT_ENTRIES)
  {
    var plugins := if pluginRepositories == "" then NONE_FOUND else pluginRepositories;
    var managements := if dependencyManagements == "" then NONE_FOUND else dependencyManagements;
    var s0 := SUMMARY_TITLE + "\n=== " + UNMANAGED_TITLE + "\n" + unmanaged + "\n";
    var s1 := s0 + "\n=== " + REPOSITORIES_TITLE + "\n" + repositories + "\n";
    var s2 := s1 + "\n=== " + PLUGIN_REPOSITORIES_TITLE + "\n" + plugins + "\n";
    var r := s2 + "\n=== " + MANAGEMENTS_TITLE + "\n" + managements + "\n";
    AppendSection(SUMMARY_TITLE, UNMANAGED_TITLE, unmanaged);
    AppendSection(s0, REPOSITORIES_TITLE, repositories);
    AppendSection(s1, PLUGIN_REPOSITORIES_TITLE, plugins);
    AppendSection(s2, MANAGEMENTS_TITLE, managements);
    assert pluginRepositories == "" && dependencyManagements == "" ==> r == s1 + SUMMARY_TAIL_WITHOUT_ENTRIES;
    EndsWithAppend(s1, SUMMARY_TAIL_WITHOUT_ENTRIES);
    r
  }

  /** The layout `SummaryText` promises, as a fact a caller can use directly. */
  lemma SummaryTextSections(u: string, rs: string, ps: string, ds: string)
    ensures SummaryText(u, rs, ps, ds) == SUMMARY_TITLE + Section(UNMANAGED_TITLE, u) + Section(REPOSITORIES_TITLE, rs)
      + Section(PLUGIN_REPOSITORIES_TITLE, OrNoneFound(ps))
      + Section(MANAGEMENTS_TITLE, OrNoneFound(ds))
  {
  }

  /** `createSummary()` with each map's entries (and each usage set) in the
      order the maps are iterated: the four sections in order, each the
      concatenation of its entries, and "none found" exactly for an empty
      plugin-repository or dependency-management list. */
  function CreateSummary(
    unmanaged: seq<(UnmanagedDependencyKey, seq<Usage>)>,
    repositories: seq<(RepositoryKey, seq<Usage>)>,
    pluginRepositories: seq<(RepositoryKey, seq<Usage>)>,
    dependencyManagements: seq<(DependencyManagementKey, seq<string>)>): (r: string)
    requires forall i :: 0 <= i < |dependencyManagements| ==>
      forall k :: k in dependencyManagements[i].1 <==> k in dependencyManagements[i].0.managementKeys
    ensures r == SUMMARY_TITLE + Section(UNMANAGED_TITLE, UnmanagedEntries(unmanaged))
      + Section(REPOSITORIES_TITLE, RepositoryEntries(repositories))
      + Section(PLUGIN_REPOSITORIES_TITLE, OrNoneFound(RepositoryEntries(pluginRepositories)))
      + Section(MANAGEMENTS_TITLE, OrNoneFound(ManagementEntries(dependencyManagements)))
    ensures pluginRepositories == [] && dependencyManagements == [] ==> EndsWith(r, SUMMARY_TAIL_WITHOUT_ENTRIES)
  {
    var u := UnmanagedEntries(unmanaged);
    var rs := RepositoryEntries(repositories);
    var ps := RepositoryEntries(pluginRepositories);
    var ds := ManagementEntries(dependencyManagements);
    var r := SummaryText(u, rs, ps, ds);
    SummaryTextSections(u, rs, ps, ds);
    r
  }
  // ---------------------------------------------------------------- rendering a summary

  /** A map iterated: each key once, every key of the map, and each key's
      usages listed once each, exactly the key's usage set. */
  ghost predicate ListsUsages<K>(m: map<K, set<Usage>>, entries: seq<(K, seq<Usage>)>) {
    (forall i, j :: 0 <= i < j < |entries| ==> entries[i].0 != entries[j].0)
    && (forall i :: 0 <= i < |entries| ==>
          (entries[i].0 in m
           && Seqs.NoDuplicates(entries[i].1)
           && forall u :: u in entries[i].1 <==> u in m[entries[i].0]))
    && (forall k :: k in m ==> exists i :: 0 <= i < |entries| && entries[i].0 == k)
  }

  /** The set of dependency managements iterated: each entry once, every entry
      of the set, and each entry's keys listed as its key set. */
  ghost predicate ListsManagements(ds: set<DependencyManagementKey>, entries: seq<(DependencyManagementKey, seq<string>)>) {
    (forall i, j :: 0 <= i < j < |entries| ==> entries[i].0 != entries[j].0)
    && (forall i :: 0 <= i < |entries| ==>
          (entries[i].0 in ds
           && forall k :: k in entries[i].1 <==> k in entries[i].0.managementKeys))
    && (forall d :: d in ds ==> exists i :: 0 <= i < |entries| && entries[i].0 == d)
  }

  /** The four sequences `createSummary()` renders are an iteration of the
      summary's collections, in whatever order the hash maps and sets give. */
  ghost predicate Enumerates(s: Summary,
                       unmanaged: seq<(UnmanagedDependencyKey, seq<Usage>)>,
                       repositories: seq<(RepositoryKey, seq<Usage>)>,
                       pluginRepositories: seq<(RepositoryKey, seq<Usage>)>,
                       dependencyManagements: seq<(DependencyManagementKey, seq<string>)>) {
    ListsUsages(s.unmanagedDependencies, unmanaged)
    && ListsUsages(s.repositories, repositories)
    && ListsUsages(s.pluginRepositories, pluginRepositories)
    && ListsManagements(s.dependencyManagements, dependencyManagements)
  }

  /** A text contains every part of a concatenation. */
  lemma {:induction false} ConcatContainsPart(parts: seq<string>, i: nat)
    requires i < |parts|
    ensures Contains(Concat(parts), parts[i])
    decreases i
  {
    var rest := Concat(parts[1..]);
    assert Concat(parts) == parts[0] + rest;
    if i == 0 {
      ContainsMiddle("", parts[0], rest);
      assert "" + parts[0] + rest == parts[0] + rest;
    } else {
      ConcatContainsPart(parts[1..], i - 1);
      assert parts[1..][i - 1] == parts[i];
      ContainsPrepend(parts[0], rest, parts[i]);
    }
  }

  lemma UnmanagedEntryListed(unmanaged: seq<(UnmanagedDependencyKey, seq<Usage>)>, i: nat)
    requires i < |unmanaged|
    ensures Contains(UnmanagedEntries(unmanaged), FoundUnmanagedDependency(unmanaged[i].0, unmanaged[i].1))
  {
    var parts := seq(|unmanaged|, j requires 0 <= j < |unmanaged| => FoundUnmanagedDependency(unmanaged[j].0, unmanaged[j].1));
    assert UnmanagedEntries(unmanaged) == Concat(parts);
    ConcatContainsPart(parts, i);
  }

  lemma RepositoryEntryListed(repositories: seq<(RepositoryKey, seq<Usage>)>, i: nat)
    requires i < |repositories|
    ensures Contains(RepositoryEntries(repositories), FoundProjectRepository(repositories[i].0, repositories[i].1))
  {
    var parts := seq(|repositories|, j requires 0 <= j < |repositories| => FoundProjectRepository(repositories[j].0, repositories[j].1));
    assert RepositoryEntries(repositories) == Concat(parts);
    ConcatContainsPart(parts, i);
  }

  lemma ManagementEntryListed(dependencyManagements: seq<(DependencyManagementKey, seq<string>)>, i: nat)
    requires forall j :: 0 <= j < |dependencyManagements| ==>
      forall k :: k in dependencyManagements[j].1 <==> k in dependencyManagements[j].0.managementKeys
    requires i < |dependencyManagements|
    ensures Contains(ManagementEntries(dependencyManagements),
                     FoundDependencyManagement(dependencyManagements[i].0, dependencyManagements[i].1))
  {
    var parts := seq(|dependencyManagements|, j requires 0 <= j < |dependencyManagements| =>
      FoundDependencyManagement(dependencyManagements[j].0, dependencyManagements[j].1));
    assert ManagementEntries(dependencyManagements) == Concat(parts);
    ConcatContainsPart(parts, i);
  }

  /** What a section's text contains, the section contains. */
  lemma ContainsInSection(title: string, text: string, t: string)
    requires Contains(text, t)
    ensures Contains(Section(title, text), t)
  {
    var head := "\n=== " + title + "\n";
    ContainsPrepend(head, text, t);
    ContainsAppend(head + text, "\n", t);
  }

  /** Text that one of the four sections' texts contains, the summary contains;
      a plugin-repository or management text counts only when it is not
      replaced by "none found". */
  lemma SummaryContains(u: string, rs: string, ps: string, ds: string, t: string)
    requires Contains(u, t) || Contains(rs, t) || (ps != "" && Contains(ps, t)) || (ds != "" && Contains(ds, t))
    ensures Contains(SummaryText(u, rs, ps, ds), t)
  {
    SummaryTextSections(u, rs, ps, ds);
    var s1 := Section(UNMANAGED_TITLE, u);
    var s2 := Section(REPOSITORIES_TITLE, rs);
    var s3 := Section(PLUGIN_REPOSITORIES_TITLE, OrNoneFound(ps));
    var s4 := Section(MANAGEMENTS_TITLE, OrNoneFound(ds));
    var a := SUMMARY_TITLE + s1;
    var b := a + s2;
    var c := b + s3;
    if Contains(u, t) {
      ContainsInSection(UNMANAGED_TITLE, u, t);
      ContainsPrepend(SUMMARY_TITLE, s1, t);
    }
    if Contains(rs, t) {
      ContainsInSection(REPOSITORIES_TITLE, rs, t);
      ContainsPrepend(a, s2, t);
    } else {
      ContainsAppend(a, s2, t);
    }
    if ps != "" && Contains(ps, t) {
      ContainsInSection(PLUGIN_REPOSITORIES_TITLE, ps, t);
      ContainsPrepend(b, s3, t);
    } else {
      ContainsAppend(b, s3, t);
    }
    if ds != "" && Contains(ds, t) {
      ContainsInSection(MANAGEMENTS_TITLE, ds, t);
      ContainsPrepend(c, s4, t);
    } else {
      ContainsAppend(c, s4, t);
    }
  }

  lemma UnmanagedInSummary(unmanaged: seq<(UnmanagedDependencyKey, seq<Usage>)>,
                           repositories: seq<(RepositoryKey, seq<Usage>)>,
                           pluginRepositories: seq<(RepositoryKey, seq<Usage>)>,
                           dependencyManagements: seq<(DependencyManagementKey, seq<string>)>, i: nat)
    requires forall j :: 0 <= j < |dependencyManagements| ==>
      forall k :: k in dependencyManagements[j].1 <==> k in dependencyManagements[j].0.managementKeys
    requires i < |unmanaged|
    ensures Contains(CreateSummary(unmanaged, repositories, pluginRepositories, dependencyManagements),
                     FoundUnmanagedDependency(unmanaged[i].0, unmanaged[i].1))
  {
    UnmanagedEntryListed(unmanaged, i);
    SummaryContains(UnmanagedEntries(unmanaged), RepositoryEntries(repositories), RepositoryEntries(pluginRepositories),
                    ManagementEntries(dependencyManagements), FoundUnmanagedDependency(unmanaged[i].0, unmanaged[i].1));
  }

  lemma RepositoryInSummary(unmanaged: seq<(UnmanagedDependencyKey, seq<Usage>)>,
                            repositories: seq<(RepositoryKey, seq<Usage>)>,
                            pluginRepositories: seq<(RepositoryKey, seq<Usage>)>,
                            dependencyManagements: seq<(DependencyManagementKey, seq<string>)>, i: nat)
    requires forall j :: 0 <= j < |dependencyManagements| ==>
      forall k :: k in dependencyManagements[j].1 <==> k in dependencyManagements[j].0.managementKeys
    requires i < |repositories|
    ensures Contains(CreateSummary(unmanaged, repositories, pluginRepositories, dependencyManagements),
                     FoundProjectRepository(repositories[i].0, repositories[i].1))
  {
    RepositoryEntryListed(repositories, i);
    SummaryContains(UnmanagedEntries(unmanaged), RepositoryEntries(repositories), RepositoryEntries(pluginRepositories),
                    ManagementEntries(dependencyManagements), FoundProjectRepository(repositories[i].0, repositories[i].1));
  }

  lemma PluginRepositoryInSummary(unmanaged: seq<(UnmanagedDependencyKey, seq<Usage>)>,
                                  repositories: seq<(RepositoryKey, seq<Usage>)>,
                                  pluginRepositories: seq<(RepositoryKey, seq<Usage>)>,
                                  dependencyManagements: seq<(DependencyManagementKey, seq<string>)>, i: nat)
    requires forall j :: 0 <= j < |dependencyManagements| ==>
      forall k :: k in dependencyManagements[j].1 <==> k in dependencyManagements[j].0.managementKeys
    requires i < |pluginRepositories|
    ensures Contains(CreateSummary(unmanaged, repositories, pluginRepositories, dependencyManagements),
                     FoundProjectRepository(pluginRepositories[i].0, pluginRepositories[i].1))
  {
    RepositoryEntryListed(pluginRepositories, i);
    SummaryContains(UnmanagedEntries(unmanaged), RepositoryEntries(repositories), RepositoryEntries(pluginRepositories),
                    ManagementEntries(dependencyManagements), FoundProjectRepository(pluginRepositories[i].0, pluginRepositories[i].1));
  }

  lemma ManagementInSummary(unmanaged: seq<(UnmanagedDependencyKey, seq<Usage>)>,
                            repositories: seq<(RepositoryKey, seq<Usage>)>,
                            pluginRepositories: seq<(RepositoryKey, seq<Usage>)>,
                            dependencyManagements: seq<(DependencyManagementKey, seq<string>)>, i: nat)
    requires forall j :: 0 <= j < |dependencyManagements| ==>
      forall k :: k in dependencyManagements[j].1 <==> k in dependencyManagements[j].0.managementKeys
    requires i < |dependencyManagements|
    ensures Contains(CreateSummary(unmanaged, repositories, pluginRepositories, dependencyManagements),
                     FoundDependencyManagement(dependencyManagements[i].0, dependencyManagements[i].1))
  {
    ManagementEntryListed(dependencyManagements, i);
    SummaryContains(UnmanagedEntries(unmanaged), RepositoryEntries(repositories), RepositoryEntries(pluginRepositories),
                    ManagementEntries(dependencyManagements),
                    FoundDependencyManagement(dependencyManagements[i].0, dependencyManagements[i].1));
  }

  /** Every recorded unmanaged dependency appears in the summary with its usages. */
  lemma UnmanagedListed(s: Summary,
      unmanaged: seq<(UnmanagedDependencyKey, seq<Usage>)>,
      repositories: seq<(RepositoryKey, seq<Usage>)>,
      pluginRepositories: seq<(RepositoryKey, seq<Usage>)>,
      dependencyManagements: seq<(DependencyManagementKey, seq<string>)>)
    requires forall j :: 0 <= j < |dependencyManagements| ==>
      forall k :: k in dependencyManagements[j].1 <==> k in dependencyManagements[j].0.managementKeys
    requires ListsUsages(s.unmanagedDependencies, unmanaged)
    ensures forall k :: k in s.unmanagedDependencies ==>
      exists i :: (0 <= i < |unmanaged| && unmanaged[i].0 == k
        && Contains(CreateSummary(unmanaged, repositories, pluginRepositories, dependencyManagements), FoundUnmanagedDependency(k, unmanaged[i].1)))
  {
    forall k | k in s.unmanagedDependencies
      ensures exists i :: (0 <= i < |unmanaged| && unmanaged[i].0 == k
        && Contains(CreateSummary(unmanaged, repositories, pluginRepositories, dependencyManagements), FoundUnmanagedDependency(k, unmanaged[i].1)))
    {
      var i :| 0 <= i < |unmanaged| && unmanaged[i].0 == k;
      UnmanagedInSummary(unmanaged, repositories, pluginRepositories, dependencyManagements, i);
    }
  }

  /** Every recorded repository appears in the summary with its usages. */
  lemma RepositoryListed(s: Summary,
      unmanaged: seq<(UnmanagedDependencyKey, seq<Usage>)>,
      repositories: seq<(RepositoryKey, seq<Usage>)>,
      pluginRepositories: seq<(RepositoryKey, seq<Usage>)>,
      dependencyManagements: seq<(DependencyManagementKey, seq<string>)>)
    requires forall j :: 0 <= j < |dependencyManagements| ==>
      forall k :: k in dependencyManagements[j].1 <==> k in dependencyManagements[j].0.managementKeys
    requires ListsUsages(s.repositories, repositories)
    ensures forall k :: k in s.repositories ==>
      exists i :: (0 <= i < |repositories| && repositories[i].0 == k
        && Contains(CreateSummary(unmanaged, repositories, pluginRepositories, dependencyManagements), FoundProjectRepository(k, repositories[i].1)))
  {
    forall k | k in s.repositories
      ensures exists i :: (0 <= i < |repositories| && repositories[i].0 == k
        && Contains(CreateSummary(unmanaged, repositories, pluginRepositories, dependencyManagements), FoundProjectRepository(k, repositories[i].1)))
    {
      var i :| 0 <= i < |repositories| && repositories[i].0 == k;
      RepositoryInSummary(unmanaged, repositories, pluginRepositories, dependencyManagements, i);
    }
  }

  /** Every recorded plugin repository appears in the summary with its usages. */
  lemma PluginRepositoryListed(s: Summary,
      unmanaged: seq<(UnmanagedDependencyKey, seq<Usage>)>,
      repositories: seq<(RepositoryKey, seq<Usage>)>,
      pluginRepositories: seq<(RepositoryKey, seq<Usage>)>,
      dependencyManagements: seq<(DependencyManagementKey, seq<string>)>)
    requires forall j :: 0 <= j < |dependencyManagements| ==>
      forall k :: k in dependencyManagements[j].1 <==> k in dependencyManagements[j].0.managementKeys
    requires ListsUsages(s.pluginRepositories, pluginRepositories)
    ensures forall k :: k in s.pluginRepositories ==>
      exists i :: (0 <= i < |pluginRepositories| && pluginRepositories[i].0 == k
        && Contains(CreateSummary(unmanaged, repositories, pluginRepositories, dependencyManagements), FoundProjectRepository(k, pluginRepositories[i].1)))
  {
    forall k | k in s.pluginRepositories
      ensures exists i :: (0 <= i < |pluginRepositories| && pluginRepositories[i].0 == k
        && Contains(CreateSummary(unmanaged, repositories, pluginRepositories, dependencyManagements), FoundProjectRepository(k, pluginRepositories[i].1)))
    {
      var i :| 0 <= i < |pluginRepositories| && pluginRepositories[i].0 == k;
      PluginRepositoryInSummary(unmanaged, repositories, pluginRepositories, dependencyManagements, i);
    }
  }

  /** Every recorded dependency management appears in the summary. */
  lemma ManagementListed(s: Summary,
      unmanaged: seq<(UnmanagedDependencyKey, seq<Usage>)>,
      repositories: seq<(RepositoryKey, seq<Usage>)>,
      pluginRepositories: seq<(RepositoryKey, seq<Usage>)>,
      dependencyManagements: seq<(DependencyManagementKey, seq<string>)>)
    requires ListsManagements(s.dependencyManagements, dependencyManagements)
    ensures forall d :: d in s.dependencyManagements ==>
      exists i :: (0 <= i < |dependencyManagements| && dependencyManagements[i].0 == d
        && Contains(CreateSummary(unmanaged, repositories, pluginRepositories, dependencyManagements), FoundDependencyManagement(d, dependencyManagements[i].1)))
  {
    forall d | d in s.dependencyManagements
      ensures exists i :: (0 <= i < |dependencyManagements| && dependencyManagements[i].0 == d
        && Contains(CreateSummary(unmanaged, repositories, pluginRepositories, dependencyManagements), FoundDependencyManagement(d, dependencyManagements[i].1)))
    {
      var i :| 0 <= i < |dependencyManagements| && dependencyManagements[i].0 == d;
      ManagementInSummary(unmanaged, repositories, pluginRepositories, dependencyManagements, i);
    }
  }

  /** "none found" stands for the plugin repositories (dependency managements)
      exactly when the summary has none. */
  lemma NoneFoundExactlyWhenEmpty(s: Summary,
      unmanaged: seq<(UnmanagedDependencyKey, seq<Usage>)>,
      repositories: seq<(RepositoryKey, seq<Usage>)>,
      pluginRepositories: seq<(RepositoryKey, seq<Usage>)>,
      dependencyManagements: seq<(DependencyManagementKey, seq<string>)>)
    requires Enumerates(s, unmanaged, repositories, pluginRepositories, dependencyManagements)
    ensures RepositoryEntries(pluginRepositories) == "" <==> s.pluginRepositories == map[]
    ensures ManagementEntries(dependencyManagements) == "" <==> s.dependencyManagements == {}
  {
    if pluginRepositories != [] {
      assert pluginRepositories[0].0 in s.pluginRepositories;
    }
    if dependencyManagements != [] {
      assert dependencyManagements[0].0 in s.dependencyManagements;
    }
  }
}
