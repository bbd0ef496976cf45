/** `IntegrationTestModules`: the modules the Quarkus integration-tests parent
    lists in its "test-modules" profile, saved by one goal and consulted by another. */
module IntegrationTestModules {
  import opened Wrappers
  import opened Text
  import opened Pom
  import MavenUtils
  import FileSystemStorage

  const IT_MODULES_FILE_NAME := "integration-test-modules"
  const TEST_MODULES_PROFILE := "test-modules"
  const INTEGRATION_TESTS := "integration-tests"

  /** The saved module names, as paths relative to the Quarkus root. */
  function GetItModules(files: FileSystemStorage.Files): (r: Result<set<string>>)
    ensures r.Failure? <==> !FileSystemStorage.Exists(files, IT_MODULES_FILE_NAME)
                            || files[IT_MODULES_FILE_NAME] == ""
    ensures r.Success? ==> forall p :: p in r.value ==>
      StartsWith(p, INTEGRATION_TESTS + "/") && p[|INTEGRATION_TESTS + "/"|..] in NonEmptyTrimmedLines(files[IT_MODULES_FILE_NAME])
    ensures r.Success? ==> var lines := Lines(files[IT_MODULES_FILE_NAME]);
      forall i :: 0 <= i < |lines| && Trim(lines[i]) != "" ==> INTEGRATION_TESTS + "/" + Trim(lines[i]) in r.value
  {
    var its :- FileSystemStorage.LoadFileContent(files, IT_MODULES_FILE_NAME);
    if its == [] then
      Failure(IllegalState("No IT modules found, please run 'collect-project-metadata' goal first"))
    else Success(set m | m in NonEmptyTrimmedLines(its) :: INTEGRATION_TESTS + "/" + m)
  }

  /** A relative path that equals, ignoring case, one of the saved modules. */
  function IsDirectItModule(files: FileSystemStorage.Files, relativePath: string): (r: Result<bool>)
    ensures r.Failure? <==> GetItModules(files).Failure?
    ensures r.Success? ==> (r.value <==> exists m :: m in GetItModules(files).value && EqualsIgnoreCase(relativePath, m))
  {
    var modules :- GetItModules(files);
    Success(exists m :: m in modules && EqualsIgnoreCase(relativePath, m))
  }

  /** A null artifactId is not the parent. */
  predicate IsItModuleParent(artifactId: Option<string>) {
    artifactId.Some? && EqualsIgnoreCase("quarkus-integration-tests-parent", artifactId.value)
  }

  /** Saves the modules of the parent's "test-modules" profile (found ignoring
      case), one per line; a missing profile or an empty module list fails. */
  function AddDirectItModules(files: FileSystemStorage.Files, itParentProfiles: seq<Profile>): (r: Result<FileSystemStorage.Files>)
    ensures MavenUtils.GetProfile(itParentProfiles, TEST_MODULES_PROFILE).None? ==> r.Failure?
    ensures r.Failure? <==> (MavenUtils.GetProfile(itParentProfiles, TEST_MODULES_PROFILE).None?
                             || itParentProfiles[MavenUtils.GetProfile(itParentProfiles, TEST_MODULES_PROFILE).value].modules == []
                             || FileSystemStorage.Exists(files, IT_MODULES_FILE_NAME))
    ensures r.Success? ==> (FileSystemStorage.LoadFileContent(r.value, IT_MODULES_FILE_NAME)
      == Success(Join(itParentProfiles[MavenUtils.GetProfile(itParentProfiles, TEST_MODULES_PROFILE).value].modules, "\n")))
    ensures r.Success? ==> FileSystemStorage.Exists(r.value, IT_MODULES_FILE_NAME)
    ensures r.Success? ==> itParentProfiles[MavenUtils.GetProfile(itParentProfiles, TEST_MODULES_PROFILE).value].modules != []
  {
    match MavenUtils.GetProfile(itParentProfiles, TEST_MODULES_PROFILE)
    case None =>
      Failure(IllegalState("Profile 'test-modules' does not exist, which means managed IT modules cannot be collected"))
    case Some(i) =>
      var modules := itParentProfiles[i].modules;
      if modules == [] then
        Failure(IllegalState("Could not find any IT modules, Quarkus project has been reorganized"))
      else FileSystemStorage.SaveFileContent(files, IT_MODULES_FILE_NAME, Join(modules, "\n"))
  }

  /** After the parent's modules are saved, a path is a direct IT module exactly
      when it names one of them under "integration-tests/", ignoring case. */
  lemma SavedItModulesRoundTrip(files: FileSystemStorage.Files, itParentProfiles: seq<Profile>, relativePath: string)
    requires AddDirectItModules(files, itParentProfiles).Success?
    requires forall p :: p in itParentProfiles ==> forall m :: m in p.modules ==> IsLineValue(m)
    ensures var modules := itParentProfiles[MavenUtils.GetProfile(itParentProfiles, TEST_MODULES_PROFILE).value].modules;
      IsDirectItModule(AddDirectItModules(files, itParentProfiles).value, relativePath)
        == Success(exists m :: m in modules && EqualsIgnoreCase(relativePath, INTEGRATION_TESTS + "/" + m))
  {
    var i := MavenUtils.GetProfile(itParentProfiles, TEST_MODULES_PROFILE).value;
    var modules := itParentProfiles[i].modules;
    assert itParentProfiles[i] in itParentProfiles;
    assert forall j :: 0 <= j < |modules| ==> IsLineValue(modules[j]) by {
      forall j | 0 <= j < |modules| ensures IsLineValue(modules[j]) {
        assert modules[j] in modules;
      }
    }
    NonEmptyTrimmedLinesOfJoin(modules);
    var saved := AddDirectItModules(files, itParentProfiles).value;
    assert saved[IT_MODULES_FILE_NAME] == Join(modules, "\n");
    assert Join(modules, "\n") != [] by {
      assert modules[0] in NonEmptyTrimmedLines(Join(modules, "\n"));
    }
    var its := GetItModules(saved).value;
    assert its == set m | m in modules :: INTEGRATION_TESTS + "/" + m;
  }
}
