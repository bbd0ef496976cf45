/** `QuarkusBom`: the management keys of the Quarkus BOM, written by the
    BOM-parsing goal and read back by the test-extracting goal. */
module QuarkusBom {
  import opened Wrappers
  import opened Text
  import opened Pom
  import MavenUtils
  import FileSystemStorage

  const MANAGED_DEPENDENCIES_FILE_NAME := "quarkus-bom-managed-deps"

  /** The keys a goal sees: the trimmed lines of the saved file, or none when
      no file was saved yet (blank lines are kept, as the empty key). */
  function LoadManagementKeys(files: FileSystemStorage.Files): (keys: set<string>)
    ensures !FileSystemStorage.Exists(files, MANAGED_DEPENDENCIES_FILE_NAME) ==> keys == {}
    ensures forall k :: k in keys ==> IsTrimmed(k)
  {
    if FileSystemStorage.Exists(files, MANAGED_DEPENDENCIES_FILE_NAME)
    then TrimmedLines(files[MANAGED_DEPENDENCIES_FILE_NAME])
    else {}
  }

  /** `isManagedByQuarkusBom`: an empty key set means the BOM was never parsed,
      which fails before even a null dependency is looked at. */
  function IsManagedByQuarkusBom(keys: set<string>, dependency: Option<Dependency>): (r: Result<bool>)
    ensures r.Failure? <==> keys == {}
    ensures r.Success? && r.value ==> dependency.Some? && MavenUtils.ManagementKey(dependency.value) in keys
    ensures r.Success? && dependency.Some? && MavenUtils.ManagementKey(dependency.value) in keys ==> r.value
  {
    if keys == {} then
      Failure(IllegalState("Found no dependencies managed by Quarkus BOM, this probably means that "
        + "'parse-quarkus-bom' mojo wasn't executed prior to this call"))
    else if dependency.None? then Success(false)
    else Success(MavenUtils.ManagementKey(dependency.value) in keys)
  }

  function ManagementKeys(dependencies: seq<Dependency>): (r: seq<string>)
    ensures |r| == |dependencies|
    ensures forall i :: 0 <= i < |r| ==> r[i] == MavenUtils.ManagementKey(dependencies[i])
  {
    seq(|dependencies|, i requires 0 <= i < |dependencies| => MavenUtils.ManagementKey(dependencies[i]))
  }

  /** The BOM's managed dependencies followed by its own dependencies, one key per line. */
  function GetManagementKeys(dependencyManagement: Option<seq<Dependency>>, dependencies: seq<Dependency>): (r: Result<string>)
    ensures r.Failure? <==> dependencyManagement.None?
    ensures r.Success? ==> r.value == Join(ManagementKeys(dependencyManagement.value + dependencies), "\n")
  {
    if dependencyManagement.None? then Failure(IllegalState("Maven project has no dependency management"))
    else Success(Join(ManagementKeys(dependencyManagement.value + dependencies), "\n"))
  }

  function SaveDependencyKeys(files: FileSystemStorage.Files, dependencyManagement: Option<seq<Dependency>>,
                              dependencies: seq<Dependency>): (r: Result<FileSystemStorage.Files>)
    ensures r.Success? ==> dependencyManagement.Some?
    ensures r.Success? ==> FileSystemStorage.Exists(r.value, MANAGED_DEPENDENCIES_FILE_NAME)
    ensures r.Success? <==> dependencyManagement.Some? && !FileSystemStorage.Exists(files, MANAGED_DEPENDENCIES_FILE_NAME)
  {
    var content :- GetManagementKeys(dependencyManagement, dependencies);
    FileSystemStorage.SaveFileContent(files, MANAGED_DEPENDENCIES_FILE_NAME, content)
  }

  lemma SavedKeys(files: FileSystemStorage.Files, managed: seq<Dependency>, dependencies: seq<Dependency>)
    requires SaveDependencyKeys(files, Some(managed), dependencies).Success?
    requires forall e :: e in managed + dependencies ==> IsLineValue(MavenUtils.ManagementKey(e))
    ensures LoadManagementKeys(SaveDependencyKeys(files, Some(managed), dependencies).value)
      == set k | k in ManagementKeys(managed + dependencies)
  {
    var all := managed + dependencies;
    var ks := ManagementKeys(all);
    assert forall i :: 0 <= i < |ks| ==> IsLineValue(ks[i]) by {
      forall i | 0 <= i < |ks| ensures IsLineValue(ks[i]) {
        assert all[i] in all;
      }
    }
    NonEmptyTrimmedLinesOfJoin(ks);
  }

  lemma KeyOccurs(all: seq<Dependency>, d: Dependency)
    ensures MavenUtils.ManagementKey(d) in ManagementKeys(all)
      <==> exists e :: e in all && MavenUtils.ManagementKey(e) == MavenUtils.ManagementKey(d)
  {
    var ks := ManagementKeys(all);
    var k := MavenUtils.ManagementKey(d);
    if k in ks {
      var i :| 0 <= i < |ks| && ks[i] == k;
      assert all[i] in all;
    }
    if exists e :: e in all && MavenUtils.ManagementKey(e) == k {
      var e :| e in all && MavenUtils.ManagementKey(e) == k;
      var i :| 0 <= i < |all| && all[i] == e;
      assert ks[i] == k;
    }
  }

  /** What the extracting goal learns from the saved keys: a dependency is managed
      exactly when its key is that of one of the BOM's dependencies, provided no
      key spans lines or carries surrounding spaces. */
  lemma SavedKeysRoundTrip(files: FileSystemStorage.Files, managed: seq<Dependency>,
                           dependencies: seq<Dependency>, d: Dependency)
    requires SaveDependencyKeys(files, Some(managed), dependencies).Success?
    requires managed + dependencies != []
    requires forall e :: e in managed + dependencies ==> IsLineValue(MavenUtils.ManagementKey(e))
    ensures IsManagedByQuarkusBom(LoadManagementKeys(SaveDependencyKeys(files, Some(managed), dependencies).value), Some(d))
      == Success(exists e :: e in managed + dependencies && MavenUtils.ManagementKey(e) == MavenUtils.ManagementKey(d))
  {
    var keys := LoadManagementKeys(SaveDependencyKeys(files, Some(managed), dependencies).value);
    var ks := ManagementKeys(managed + dependencies);
    SavedKeys(files, managed, dependencies);
    assert keys == set k | k in ks;
    assert ks[0] in keys;
    assert IsManagedByQuarkusBom(keys, Some(d)) == Success(MavenUtils.ManagementKey(d) in ks);
    KeyOccurs(managed + dependencies, d);
  }
}
