/** `FileSystemStorage`: text files kept by name in the target directory, which
    is how the metadata-collecting goals hand their results to the extracting goal. */
module FileSystemStorage {
  import opened Wrappers
  import opened Text

  /** The files of the target directory, by file name. */
  type Files = map<string, string>

  predicate Exists(files: Files, fileName: string) {
    fileName in files
  }

  /** Reading a missing file fails. */
  function LoadFileContent(files: Files, fileName: string): (r: Result<string>)
    ensures r.Failure? <==> !Exists(files, fileName)
    ensures r.Failure? ==> r.error == FileNotFound(fileName)
  {
    if fileName in files then Success(files[fileName]) else Failure(FileNotFound(fileName))
  }

  /** Files are created, never overwritten: saving to an existing name fails. */
  function SaveFileContent(files: Files, fileName: string, content: string): (r: Result<Files>)
    ensures r.Failure? <==> Exists(files, fileName)
    ensures r.Success? ==> LoadFileContent(r.value, fileName) == Success(content)
    ensures r.Success? ==> forall n :: n != fileName ==> LoadFileContent(r.value, n) == LoadFileContent(files, n)
  {
    if fileName in files then Failure(FileAlreadyExists(fileName))
    else Success(files[fileName := content])
  }

  /** Files written line by line are empty or end with a line separator. */
  predicate IsLineFile(content: string) {
    content == [] || content[|content| - 1] == '\n'
  }

  /** `addToFile` is called by the core-extension collector but is not part of
      this model; it is taken to append the value and a line separator,
      creating the file when it is missing. */
  function AddToFile(files: Files, fileName: string, line: string): (r: Files)
    ensures Exists(r, fileName) && IsLineFile(r[fileName])
    ensures forall n :: n != fileName ==> LoadFileContent(r, n) == LoadFileContent(files, n)
  {
    var previous := if fileName in files then files[fileName] else "";
    files[fileName := previous + line + "\n"]
  }

  /** The lines of a line file after adding one are its previous lines and the new one. */
  lemma AddToFileLines(files: Files, fileName: string, line: string)
    requires NoLineTerminator(line)
    requires Exists(files, fileName) ==> IsLineFile(files[fileName])
    ensures Lines(AddToFile(files, fileName, line)[fileName])
      == (if Exists(files, fileName) then Lines(files[fileName]) else []) + [line]
  {
    var previous := if fileName in files then files[fileName] else "";
    AppendedLine(previous, line);
  }
}
