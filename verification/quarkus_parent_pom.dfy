/** `QuarkusParentPom`: plugin versions of the Quarkus parent POM, collected when
    that project is written and consulted for the plugins of every later module. */
module QuarkusParentPom {
  import opened Wrappers
  import opened Text
  import opened Seqs
  import opened Pom
  import MavenUtils
  import PluginUtils
  import FileSystemStorage

  const ENTRY_SEPARATOR := ';'
  const QUARKUS_PARENT_POM_FILE_NAME := "quarkus-parent-pom-context"

  /** A plugin key and its version; the version is null when the plugin referred
      to a property the parent does not define. */
  type Entry = (string, Option<string>)

  predicate UniqueKeys(entries: seq<Entry>) {
    forall i, j :: 0 <= i < j < |entries| ==> entries[i].0 != entries[j].0
  }

  /** The plugin-to-version map. The model keeps its entries in first-insertion
      order (the source's hash map has no defined order); a map loaded from a
      saved file is unmodifiable. */
  datatype PluginVersions = PluginVersions(entries: seq<Entry>, modifiable: bool)

  function IndexOfKey(entries: seq<Entry>, key: string): (r: Option<nat>)
    ensures r.Some? ==> r.value < |entries| && entries[r.value].0 == key
    ensures r.None? <==> forall i :: 0 <= i < |entries| ==> entries[i].0 != key
  {
    FirstIndex(entries, (e: Entry) => e.0 == key)
  }

  /** `map.get(key)` distinguishing an absent key (`None`) from a null value (`Some(None)`). */
  function Lookup(entries: seq<Entry>, key: string): (r: Option<Option<string>>)
    ensures r.None? <==> forall i :: 0 <= i < |entries| ==> entries[i].0 != key
    ensures r.Some? ==> exists i :: 0 <= i < |entries| && entries[i] == (key, r.value)
  {
    match IndexOfKey(entries, key)
    case None => None
    case Some(i) => Some(entries[i].1)
  }

  lemma LookupUnique(entries: seq<Entry>, i: nat)
    requires UniqueKeys(entries) && i < |entries|
    ensures Lookup(entries, entries[i].0) == Some(entries[i].1)
  {
  }

  lemma AppendUnique(entries: seq<Entry>, e: Entry)
    requires UniqueKeys(entries) && IndexOfKey(entries, e.0).None?
    ensures UniqueKeys(entries + [e])
  {
    var r := entries + [e];
    forall i, j | 0 <= i < j < |r| ensures r[i].0 != r[j].0 {
      assert r[i] == entries[i];
      if j < |entries| { assert r[j] == entries[j]; }
    }
  }

  /** `map.put(key, value)` on a modifiable map. */
  function Put(entries: seq<Entry>, key: string, value: Option<string>): (r: seq<Entry>)
    requires UniqueKeys(entries)
    ensures UniqueKeys(r)
    ensures Lookup(r, key) == Some(value)
    ensures forall k :: k != key ==> Lookup(r, k) == Lookup(entries, k)
  {
    match IndexOfKey(entries, key)
    case None =>
      var r := entries + [(key, value)];
      AppendUnique(entries, (key, value));
      LookupUnique(r, |entries|);
      forall k | k != key
        ensures Lookup(r, k) == Lookup(entries, k)
      {
        PutKeepsLookup(entries, r, key, k);
      }
      r
    case Some(i) =>
      var r := entries[i := (key, value)];
      LookupUnique(r, i);
      forall k | k != key
        ensures Lookup(r, k) == Lookup(entries, k)
      {
        PutKeepsLookup(entries, r, key, k);
      }
      r
  }

  lemma PutKeepsLookup(entries: seq<Entry>, r: seq<Entry>, key: string, k: string)
    requires UniqueKeys(entries) && UniqueKeys(r) && |entries| <= |r| && k != key
    requires forall i :: 0 <= i < |r| ==> (if i < |entries| && entries[i].0 != key then r[i] == entries[i] else r[i].0 == key)
    ensures Lookup(r, k) == Lookup(entries, k)
  {
    match IndexOfKey(entries, k)
    case None =>
      assert forall i :: 0 <= i < |r| ==> r[i].0 != k;
    case Some(i) =>
      assert r[i] == entries[i];
      LookupUnique(entries, i);
      LookupUnique(r, i);
  }

  /** Plugins are keyed by their trimmed, lower-cased artifactId. */
  function GetArtifactId(plugin: Plugin): string {
    Lower(Trim(plugin.artifactId))
  }

  predicate IsPropertyReference(version: string) {
    StartsWith(version, "${") && EndsWith(version, "}")
  }

  lemma PropertyReferenceLength(version: string)
    requires IsPropertyReference(version)
    ensures |version| >= 3
  {
    assert version[1] == version[..2][1] == '{';
    assert version[|version| - 1] == '}';
  }

  function PropertyName(version: string): (name: string)
    requires IsPropertyReference(version)
    ensures version == "${" + name + "}"
  {
    PropertyReferenceLength(version);
    var name := version[2..|version| - 1];
    assert version == version[..2] + name + version[|version| - 1..];
    name
  }

  /** A version written as `${name}` is replaced by that property's value (null
      when the property is missing); any other version is kept. */
  function ResolveVersion(version: string, properties: map<string, string>): (r: Option<string>)
    ensures !IsPropertyReference(version) ==> r == Some(version)
    ensures IsPropertyReference(version) ==> r.Some? == (PropertyName(version) in properties)
    ensures IsPropertyReference(version) && r.Some? ==> r.value == properties[PropertyName(version)]
  {
    if IsPropertyReference(version) then
      var name := PropertyName(version);
      if name in properties then Some(properties[name]) else None
    else Some(version)
  }

  /** The versioned plugin of `plugins` whose key is `key` and that comes last. */
  function LastVersioned(plugins: seq<Plugin>, key: string): (r: Option<Plugin>)
    ensures r.Some? ==> r.value in plugins && r.value.version.Some? && GetArtifactId(r.value) == key
    ensures r.None? ==> forall p :: p in plugins && p.version.Some? ==> GetArtifactId(p) != key
    decreases |plugins|
  {
    if plugins == [] then None
    else
      assert forall q :: q in plugins <==> q == plugins[0] || q in plugins[1..];
      match LastVersioned(plugins[1..], key)
      case Some(p) => Some(p)
      case None =>
        if plugins[0].version.Some? && GetArtifactId(plugins[0]) == key then Some(plugins[0]) else None
  }

  /** Puts every plugin that declares a version; an unmodifiable map refuses
      the first such put. */
  function PutPlugins(state: PluginVersions, plugins: seq<Plugin>, properties: map<string, string>): (r: Result<PluginVersions>)
    requires UniqueKeys(state.entries)
    ensures r.Success? ==> UniqueKeys(r.value.entries) && r.value.modifiable == state.modifiable
    ensures r.Failure? <==> !state.modifiable && exists p :: p in plugins && p.version.Some?
    decreases |plugins|
  {
    if plugins == [] then Success(state)
    else
      var p := plugins[0];
      assert forall q :: q in plugins <==> q == p || q in plugins[1..];
      if p.version.None? then PutPlugins(state, plugins[1..], properties)
      else if !state.modifiable then Failure(UnsupportedOperation("unmodifiable map"))
      else
        var entries := Put(state.entries, GetArtifactId(p), ResolveVersion(p.version.value, properties));
        PutPlugins(state.(entries := entries), plugins[1..], properties)
  }

  /** After the puts, a key maps to the resolved version of the last versioned
      plugin with that key, and keys no such plugin has are untouched. */
  lemma {:induction false} PutPluginsLookup(state: PluginVersions, plugins: seq<Plugin>,
                                            properties: map<string, string>, key: string)
    requires UniqueKeys(state.entries)
    requires PutPlugins(state, plugins, properties).Success?
    ensures Lookup(PutPlugins(state, plugins, properties).value.entries, key)
      == match LastVersioned(plugins, key)
         case Some(p) => Some(ResolveVersion(p.version.value, properties))
         case None => Lookup(state.entries, key)
    decreases |plugins|
  {
    if plugins != [] {
      var p := plugins[0];
      if p.version.None? {
        PutPluginsLookup(state, plugins[1..], properties, key);
      } else {
        var entries := Put(state.entries, GetArtifactId(p), ResolveVersion(p.version.value, properties));
        PutPluginsLookup(state.(entries := entries), plugins[1..], properties, key);
      }
    }
  }

  function SerializeEntry(e: Entry): string {
    e.0 + [ENTRY_SEPARATOR] + MavenUtils.OrNull(e.1)
  }

  function EntryLines(entries: seq<Entry>): (r: seq<string>)
    ensures |r| == |entries|
    ensures forall i :: 0 <= i < |r| ==> r[i] == SerializeEntry(entries[i])
  {
    seq(|entries|, i requires 0 <= i < |entries| => SerializeEntry(entries[i]))
  }

  /** One `key;version` line per entry; a null version is written as "null". */
  function SerializeAsString(entries: seq<Entry>): string {
    Join(EntryLines(entries), "\n")
  }

  /** Reads the non-blank lines of a saved file in order: each trimmed line must
      split into at least a key and a value, and a key may appear only once. */
  function ParseLines(lines: seq<string>, acc: seq<Entry>): (r: Result<seq<Entry>>)
    requires UniqueKeys(acc)
    ensures r.Success? ==> UniqueKeys(r.value)
    ensures r.Success? && (forall e :: e in acc ==> e.1.Some?) ==> forall e :: e in r.value ==> e.1.Some?
    decreases |lines|
  {
    if lines == [] then Success(acc)
    else if IsBlank(lines[0]) then ParseLines(lines[1..], acc)
    else
      var parts := JavaSplit(Trim(lines[0]), ENTRY_SEPARATOR);
      if |parts| < 2 then Failure(IndexOutOfBounds("split entry has no value"))
      else if IndexOfKey(acc, parts[0]).Some? then Failure(IllegalState("Duplicate key " + parts[0]))
      else
        var e := (parts[0], Some(parts[1]));
        AppendUnique(acc, e);
        ParseLines(lines[1..], acc + [e])
  }

  /** `load()`: the saved map when the file exists, else an empty modifiable one. */
  function Load(files: FileSystemStorage.Files): (r: Result<PluginVersions>)
    ensures !FileSystemStorage.Exists(files, QUARKUS_PARENT_POM_FILE_NAME) ==> r == Success(PluginVersions([], true))
    ensures r.Success? ==> UniqueKeys(r.value.entries)
    ensures r.Success? && FileSystemStorage.Exists(files, QUARKUS_PARENT_POM_FILE_NAME) ==>
      !r.value.modifiable && forall e :: e in r.value.entries ==> e.1.Some?
  {
    if !FileSystemStorage.Exists(files, QUARKUS_PARENT_POM_FILE_NAME) then Success(PluginVersions([], true))
    else
      var entries :- ParseLines(Lines(files[QUARKUS_PARENT_POM_FILE_NAME]), []);
      Success(PluginVersions(entries, false))
  }

  /** `collectPluginVersions`: only for the Quarkus parent project. Puts the
      versioned build plugins, then the versioned managed plugins, and saves the
      map when it is not empty. */
  function CollectPluginVersions(files: FileSystemStorage.Files, state: PluginVersions, projectArtifactId: string,
                                 properties: map<string, string>, build: Option<Build>)
    : (r: Result<(FileSystemStorage.Files, PluginVersions)>)
    requires UniqueKeys(state.entries)
    ensures !PluginUtils.IsQuarkusParentPomProject(projectArtifactId) ==> r.Failure?
    ensures r.Success? ==> UniqueKeys(r.value.1.entries)
    ensures r.Success? && r.value.1.entries != [] ==>
      FileSystemStorage.LoadFileContent(r.value.0, QUARKUS_PARENT_POM_FILE_NAME) == Success(SerializeAsString(r.value.1.entries))
    ensures r.Success? ==> r.value.1.modifiable == state.modifiable
    ensures r.Success? && r.value.1.entries == [] ==> r.value.0 == files
    ensures (PluginUtils.IsQuarkusParentPomProject(projectArtifactId) && state.modifiable
             && !FileSystemStorage.Exists(files, QUARKUS_PARENT_POM_FILE_NAME)) ==> r.Success?
  {
    if !PluginUtils.IsQuarkusParentPomProject(projectArtifactId) then
      Failure(IllegalArgument("Only Quarkus Parent project is supported"))
    else
      var afterPlugins :- if build.Some? then PutPlugins(state, build.value.plugins, properties) else Success(state);
      var collected :- if build.Some? && build.value.pluginManagement.Some?
                       then PutPlugins(afterPlugins, build.value.pluginManagement.value, properties)
                       else Success(afterPlugins);
      if collected.entries == [] then Success((files, collected))
      else
        var saved :- FileSystemStorage.SaveFileContent(files, QUARKUS_PARENT_POM_FILE_NAME, SerializeAsString(collected.entries));
        Success((saved, collected))
  }

  /** The version a key has after the collection, described independently of
      the puts: the last versioned managed plugin with that key wins, then the
      last versioned build plugin, and otherwise the key keeps what it had. */
  function CollectedVersion(state: PluginVersions, properties: map<string, string>, build: Option<Build>,
                            key: string): Option<Option<string>> {
    var managed := if build.Some? && build.value.pluginManagement.Some?
                   then LastVersioned(build.value.pluginManagement.value, key) else None;
    var built := if build.Some? then LastVersioned(build.value.plugins, key) else None;
    if managed.Some? then Some(ResolveVersion(managed.value.version.value, properties))
    else if built.Some? then Some(ResolveVersion(built.value.version.value, properties))
    else Lookup(state.entries, key)
  }

  /** After a successful collection every key maps to its collected version. */
  lemma CollectedLookup(files: FileSystemStorage.Files, state: PluginVersions, projectArtifactId: string,
                        properties: map<string, string>, build: Option<Build>, key: string)
    requires UniqueKeys(state.entries)
    requires CollectPluginVersions(files, state, projectArtifactId, properties, build).Success?
    ensures Lookup(CollectPluginVersions(files, state, projectArtifactId, properties, build).value.1.entries, key)
      == CollectedVersion(state, properties, build, key)
  {
    if build.Some? {
      PutPluginsLookup(state, build.value.plugins, properties, key);
      var afterPlugins := PutPlugins(state, build.value.plugins, properties).value;
      if build.value.pluginManagement.Some? {
        PutPluginsLookup(afterPlugins, build.value.pluginManagement.value, properties, key);
      }
    }
  }

  /** `getPluginVersion`: the value stored for the plugin's key; null for an
      unknown plugin. */
  function GetPluginVersion(state: PluginVersions, plugin: Plugin): (r: Option<string>)
    ensures r.Some? ==> exists i :: 0 <= i < |state.entries| && state.entries[i] == (GetArtifactId(plugin), r)
    ensures (forall i :: 0 <= i < |state.entries| ==> state.entries[i].0 != GetArtifactId(plugin)) ==> r.None?
    ensures UniqueKeys(state.entries) ==>
      forall i :: 0 <= i < |state.entries| && state.entries[i].0 == GetArtifactId(plugin) ==> r == state.entries[i].1
  {
    match Lookup(state.entries, GetArtifactId(plugin))
    case None => None
    case Some(v) => v
  }

  /** A key or value that survives a `key;value` line unchanged. */
  predicate IsEntryText(s: string) {
    IsLineValue(s) && ENTRY_SEPARATOR !in s
  }

  lemma EntryLineShape(key: string, value: string)
    requires IsEntryText(key) && IsEntryText(value)
    ensures var line := key + [ENTRY_SEPARATOR] + value;
      !IsBlank(line) && Trim(line) == line && NoLineTerminator(line)
      && JavaSplit(Trim(line), ENTRY_SEPARATOR) == [key, value]
  {
    var line := key + [ENTRY_SEPARATOR] + value;
    assert line[|key|] == ENTRY_SEPARATOR;
    assert line[0] == key[0] && line[|line| - 1] == value[|value| - 1];
    assert IsTrimmed(line);
    JavaSplitPair(key, ENTRY_SEPARATOR, value);
  }

  lemma ParseLinesStep(line: string, rest: seq<string>, acc: seq<Entry>, key: string, value: string)
    requires UniqueKeys(acc) && IndexOfKey(acc, key).None?
    requires !IsBlank(line) && JavaSplit(Trim(line), ENTRY_SEPARATOR) == [key, value]
    ensures UniqueKeys(acc + [(key, Some(value))])
    ensures ParseLines([line] + rest, acc) == ParseLines(rest, acc + [(key, Some(value))])
  {
    AppendUnique(acc, (key, Some(value)));
    assert ([line] + rest)[1..] == rest;
  }

  lemma FreshKey(acc: seq<Entry>, e: Entry)
    requires UniqueKeys(acc + [e])
    ensures UniqueKeys(acc) && IndexOfKey(acc, e.0).None?
  {
    forall i, j | 0 <= i < j < |acc| ensures acc[i].0 != acc[j].0 {
      assert (acc + [e])[i] == acc[i] && (acc + [e])[j] == acc[j];
    }
    forall i | 0 <= i < |acc| ensures acc[i].0 != e.0 {
      assert (acc + [e])[i] == acc[i] && (acc + [e])[|acc|] == e;
    }
  }

  lemma ParseEntryLine(key: string, value: string, rest: seq<string>, acc: seq<Entry>)
    requires IsEntryText(key) && IsEntryText(value)
    requires UniqueKeys(acc + [(key, Some(value))])
    ensures UniqueKeys(acc)
    ensures ParseLines([key + [ENTRY_SEPARATOR] + value] + rest, acc) == ParseLines(rest, acc + [(key, Some(value))])
  {
    FreshKey(acc, (key, Some(value)));
    EntryLineShape(key, value);
    ParseLinesStep(key + [ENTRY_SEPARATOR] + value, rest, acc, key, value);
  }

  lemma UniquePrefix(xs: seq<Entry>, k: nat)
    requires UniqueKeys(xs) && k <= |xs|
    ensures UniqueKeys(xs[..k])
  {
    forall i, j | 0 <= i < j < k ensures xs[..k][i].0 != xs[..k][j].0 {
      assert xs[..k][i] == xs[i] && xs[..k][j] == xs[j];
    }
  }

  predicate SerializableEntries(entries: seq<Entry>) {
    forall i :: 0 <= i < |entries| ==>
      IsEntryText(entries[i].0) && entries[i].1.Some? && IsEntryText(entries[i].1.value)
  }

  lemma SerializableTail(entries: seq<Entry>)
    requires entries != [] && SerializableEntries(entries)
    ensures SerializableEntries(entries[1..])
    ensures IsEntryText(entries[0].0) && entries[0].1.Some? && IsEntryText(entries[0].1.value)
  {
    var tail := entries[1..];
    forall i | 0 <= i < |tail| ensures IsEntryText(tail[i].0) && tail[i].1.Some? && IsEntryText(tail[i].1.value) {
      assert tail[i] == entries[i + 1];
    }
  }

  lemma UniqueShift(acc: seq<Entry>, entries: seq<Entry>)
    requires entries != [] && UniqueKeys(acc + entries)
    ensures UniqueKeys(acc + [entries[0]]) && UniqueKeys((acc + [entries[0]]) + entries[1..])
  {
    assert acc + [entries[0]] == (acc + entries)[..|acc| + 1];
    UniquePrefix(acc + entries, |acc| + 1);
    assert acc + entries == (acc + [entries[0]]) + entries[1..];
  }

  lemma ConsSplit(acc: seq<Entry>, entries: seq<Entry>)
    requires entries != []
    ensures (acc + [entries[0]]) + entries[1..] == acc + entries
  {
  }

  lemma EntryLinesCons(entries: seq<Entry>)
    requires entries != [] && entries[0].1.Some?
    ensures EntryLines(entries) == [entries[0].0 + [ENTRY_SEPARATOR] + entries[0].1.value] + EntryLines(entries[1..])
  {
    var tail := EntryLines(entries[1..]);
    forall i | 0 < i < |entries| ensures EntryLines(entries)[i] == tail[i - 1] {
      assert entries[1..][i - 1] == entries[i];
    }
  }

  lemma ParseSerializedStep(entries: seq<Entry>, acc: seq<Entry>)
    requires entries != [] && UniqueKeys(acc + [entries[0]])
    requires IsEntryText(entries[0].0) && entries[0].1.Some? && IsEntryText(entries[0].1.value)
    requires ParseLines(EntryLines(entries[1..]), acc + [entries[0]]) == Success((acc + [entries[0]]) + entries[1..])
    ensures UniqueKeys(acc)
    ensures ParseLines(EntryLines(entries), acc) == Success(acc + entries)
  {
    var e := entries[0];
    EntryLinesCons(entries);
    ParseEntryLine(e.0, e.1.value, EntryLines(entries[1..]), acc);
    ConsSplit(acc, entries);
  }

  lemma {:induction false} ParseSerialized(entries: seq<Entry>, acc: seq<Entry>)
    requires UniqueKeys(acc) && UniqueKeys(acc + entries)
    requires SerializableEntries(entries)
    ensures ParseLines(EntryLines(entries), acc) == Success(acc + entries)
    decreases |entries|
  {
    if entries == [] {
      assert acc + entries == acc;
    } else {
      SerializableTail(entries);
      UniqueShift(acc, entries);
      ParseSerialized(entries[1..], acc + [entries[0]]);
      ParseSerializedStep(entries, acc);
    }
  }

  lemma SerializedLines(entries: seq<Entry>)
    requires SerializableEntries(entries)
    ensures Lines(SerializeAsString(entries)) == EntryLines(entries)
  {
    var lines := EntryLines(entries);
    forall i | 0 <= i < |lines| ensures NoLineTerminator(lines[i]) && lines[i] != "" {
      EntryLineShape(entries[i].0, entries[i].1.value);
    }
    LinesOfJoin(lines);
  }

  /** The saved plugin versions are read back as they were written, as an
      unmodifiable map, when keys and versions are single words without the separator. */
  lemma {:induction false} SaveLoadRoundTrip(files: FileSystemStorage.Files, entries: seq<Entry>)
    requires !FileSystemStorage.Exists(files, QUARKUS_PARENT_POM_FILE_NAME)
    requires UniqueKeys(entries)
    requires SerializableEntries(entries)
    ensures Load(FileSystemStorage.SaveFileContent(files, QUARKUS_PARENT_POM_FILE_NAME, SerializeAsString(entries)).value)
      == Success(PluginVersions(entries, false))
  {
    var saved := FileSystemStorage.SaveFileContent(files, QUARKUS_PARENT_POM_FILE_NAME, SerializeAsString(entries)).value;
    assert saved[QUARKUS_PARENT_POM_FILE_NAME] == SerializeAsString(entries);
    SerializedLines(entries);
    assert [] + entries == entries;
    ParseSerialized(entries, []);
  }
}
