/** `CoreExtensions`: artifactIds of the extensions of the Quarkus core repository,
    collected module by module and consulted when test dependencies are resolved. */
module CoreExtensions {
  import opened Wrappers
  import opened Text
  import FileSystemStorage

  const CORE_EXTENSION_FILE_NAME := "core-extensions"
  const EXTENSIONS_PARENT := "quarkus-extensions-parent"

  /** The non-empty trimmed lines of the collected file; a missing or empty file fails. */
  function GetCoreExtensions(files: FileSystemStorage.Files): (r: Result<set<string>>)
    ensures r.Failure? <==> !FileSystemStorage.Exists(files, CORE_EXTENSION_FILE_NAME)
                            || files[CORE_EXTENSION_FILE_NAME] == ""
    ensures r.Success? ==> forall x :: x in r.value ==> x != "" && IsTrimmed(x)
    ensures r.Success? ==> var lines := Lines(files[CORE_EXTENSION_FILE_NAME]);
      (forall i :: 0 <= i < |lines| && Trim(lines[i]) != "" ==> Trim(lines[i]) in r.value)
      && (forall x :: x in r.value ==> exists i :: 0 <= i < |lines| && Trim(lines[i]) == x)
  {
    var extensions :- FileSystemStorage.LoadFileContent(files, CORE_EXTENSION_FILE_NAME);
    if extensions == [] then
      Failure(IllegalState("No core extensions found, please run 'collect-project-metadata' goal first"))
    else Success(NonEmptyTrimmedLines(extensions))
  }

  function IsCoreExtension(files: FileSystemStorage.Files, artifactId: string): (r: Result<bool>)
    ensures r.Failure? <==> GetCoreExtensions(files).Failure?
    ensures r.Success? ==> (r.value <==> artifactId in GetCoreExtensions(files).value)
  {
    var extensions :- GetCoreExtensions(files);
    Success(artifactId in extensions)
  }

  /** Whether a module located at `moduleBasePath` is remembered as a core extension. */
  predicate IsRecorded(artifactId: Option<string>, moduleBasePath: string) {
    artifactId.Some? && artifactId.value != ""
    && Contains(moduleBasePath, "/extensions/")
    && !EqualsIgnoreCase(EXTENSIONS_PARENT, artifactId.value)
  }

  /** Appends the artifactId of a module under "/extensions/" (other than the
      extensions' parent) to the collected file; anything else leaves the files alone. */
  function AddIfCoreExtension(files: FileSystemStorage.Files, artifactId: Option<string>,
                              moduleBasePath: string): (r: FileSystemStorage.Files)
    ensures !IsRecorded(artifactId, moduleBasePath) ==> r == files
    ensures forall n :: n != CORE_EXTENSION_FILE_NAME ==>
      FileSystemStorage.LoadFileContent(r, n) == FileSystemStorage.LoadFileContent(files, n)
  {
    if artifactId.None? || artifactId.value == [] then files
    else if Contains(moduleBasePath, "/extensions/") && !EqualsIgnoreCase(EXTENSIONS_PARENT, artifactId.value) then
      FileSystemStorage.AddToFile(files, CORE_EXTENSION_FILE_NAME, artifactId.value)
    else files
  }

  lemma NonEmptyTrimmedLinesOfAppended(content: string, previous: seq<string>, line: string)
    requires Lines(content) == previous + [line]
    ensures NonEmptyTrimmedLines(content)
      == (set l | l in previous && Trim(l) != "" :: Trim(l)) + (if Trim(line) != "" then {Trim(line)} else {})
  {
    assert forall l :: l in Lines(content) <==> l in previous || l == line;
  }

  /** Collecting a module keeps every extension collected before and adds the
      new one, as long as the file is only ever written line by line. */
  lemma {:induction false} AddIfCoreExtensionCollects(files: FileSystemStorage.Files, artifactId: string,
                                                     moduleBasePath: string, other: string)
    requires IsRecorded(Some(artifactId), moduleBasePath) && IsLineValue(artifactId)
    requires FileSystemStorage.Exists(files, CORE_EXTENSION_FILE_NAME) ==>
      FileSystemStorage.IsLineFile(files[CORE_EXTENSION_FILE_NAME])
    ensures IsCoreExtension(AddIfCoreExtension(files, Some(artifactId), moduleBasePath), artifactId) == Success(true)
    ensures IsCoreExtension(files, other) == Success(true) ==>
      IsCoreExtension(AddIfCoreExtension(files, Some(artifactId), moduleBasePath), other) == Success(true)
  {
    var r := AddIfCoreExtension(files, Some(artifactId), moduleBasePath);
    FileSystemStorage.AddToFileLines(files, CORE_EXTENSION_FILE_NAME, artifactId);
    var previous := if CORE_EXTENSION_FILE_NAME in files then Lines(files[CORE_EXTENSION_FILE_NAME]) else [];
    NonEmptyTrimmedLinesOfAppended(r[CORE_EXTENSION_FILE_NAME], previous, artifactId);
    assert r[CORE_EXTENSION_FILE_NAME] != [];
    assert artifactId in GetCoreExtensions(r).value;
  }
}
