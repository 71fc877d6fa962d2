/**
 * The configuration store (`Config`): a key/value document with defaults,
 * loaded from and saved to config.json, and the paths of every file the
 * programs share.
 */
module Config {
  import opened Json
  import opened Files
  import opened Common

  function ConfigFilePath(dirs: PlatformDirs): string { dirs.configDir + "/config.json" }
  function StateFilePath(dirs: PlatformDirs): string { dirs.dataDir + "/state.json" }
  function DaemonPidFilePath(dirs: PlatformDirs): string { dirs.dataDir + "/daemon.pid" }
  function GuiPidFilePath(dirs: PlatformDirs): string { dirs.dataDir + "/gui.pid" }
  function TrayPidFilePath(dirs: PlatformDirs): string { dirs.dataDir + "/tray.pid" }
  function CacheFilePath(dirs: PlatformDirs): string { dirs.dataDir + "/image_cache.json" }
  function CacheImageFilePath(dirs: PlatformDirs): string { dirs.dataDir + "/cached_image.png" }
  function LogFilePath(dirs: PlatformDirs): string { dirs.dataDir + "/daemon.log" }

  /** Every file kept in the data directory. */
  function DataFilePaths(dirs: PlatformDirs): seq<string>
  {
    [StateFilePath(dirs), DaemonPidFilePath(dirs), GuiPidFilePath(dirs), TrayPidFilePath(dirs),
     CacheFilePath(dirs), CacheImageFilePath(dirs), LogFilePath(dirs)]
  }

  lemma DistinctSuffixes(dir: string, a: string, b: string)
    requires a != b
    ensures dir + a != dir + b
  {
    assert (dir + a)[|dir|..] == a && (dir + b)[|dir|..] == b;
  }

  /**
   * No two data files share a path, whatever the data directory; and where the
   * configuration and data directories coincide (macOS) the config file is none of them.
   */
  lemma PathsDistinct(dirs: PlatformDirs)
    ensures forall i, j :: 0 <= i < j < |DataFilePaths(dirs)| ==> DataFilePaths(dirs)[i] != DataFilePaths(dirs)[j]
    ensures dirs.configDir == dirs.dataDir ==> ConfigFilePath(dirs) !in DataFilePaths(dirs)
  {
    var names := ["/state.json", "/daemon.pid", "/gui.pid", "/tray.pid", "/image_cache.json", "/cached_image.png", "/daemon.log"];
    var paths := DataFilePaths(dirs);
    assert forall i :: 0 <= i < |paths| ==> paths[i] == dirs.dataDir + names[i];
    forall i, j | 0 <= i < j < |paths|
      ensures paths[i] != paths[j]
    {
      DistinctSuffixes(dirs.dataDir, names[i], names[j]);
    }
    if dirs.configDir == dirs.dataDir {
      forall i | 0 <= i < |paths|
        ensures paths[i] != ConfigFilePath(dirs)
      {
        DistinctSuffixes(dirs.dataDir, names[i], "/config.json");
      }
    }
  }

  /** A fresh configuration. */
  function Defaults(): (d: JsonObject)
    ensures d.Keys == {"discord_client_id", "imgur_client_id", "enable_tray_icon"}
    ensures d["discord_client_id"] == Str("") && d["imgur_client_id"] == Str("")
    ensures d["enable_tray_icon"] == Bool(true)
  {
    map["discord_client_id" := Str(""), "imgur_client_id" := Str(""), "enable_tray_icon" := Bool(true)]
  }

  /**
   * `load` on the document `values` and the file `file`, which `save` can write
   * when `writable`: a file that cannot be opened is created from the current
   * values by `save` and the result is `save`'s; a file that holds no JSON
   * object is an error; a JSON object replaces the values.
   * The result is the new values, the new file and the return value.
   */
  function LoadSpec(values: JsonObject, file: JsonFile, writable: bool): (r: (JsonObject, JsonFile, bool))
    ensures file.Missing? ==> r == (values, if writable then Holds(Object(values)) else file, writable)
    ensures file.Holds? && file.value.Object? ==> r == (file.value.fields, file, true)
    ensures !file.Missing? && !(file.Holds? && file.value.Object?) ==> r == (values, file, false)
  {
    match file
    case Missing => (values, if writable then Holds(Object(values)) else file, writable)
    case Holds(Object(fields)) => (fields, file, true)
    case _ => (values, file, false)
  }

  /** Loading what was saved gives back the saved values, whatever was held before. */
  lemma LoadAfterSave(saved: JsonObject, current: JsonObject, writable: bool)
    ensures LoadSpec(current, Holds(Object(saved)), writable) == (saved, Holds(Object(saved)), true)
  {
  }

  /** A failed load never changes the values. */
  lemma FailedLoadKeepsValues(values: JsonObject, file: JsonFile, writable: bool)
    ensures !LoadSpec(values, file, writable).2 ==> LoadSpec(values, file, writable).0 == values
  {
  }

  /** `setValue(k, v)` then `getValue(k)` gives v; every other key reads as before. */
  lemma GetAfterSet(values: JsonObject, key: string, value: string, other: string)
    ensures StringValue(values[key := Str(value)], key) == value
    ensures other != key ==> StringValue(values[key := Str(value)], other) == StringValue(values, other)
  {
  }

  /** The configuration object: its document, changed in place. */
  class Config {
    var values: JsonObject

    constructor ()
      ensures values == Defaults()
    {
      values := Defaults();
    }

    /** `getValue`: the string under `key`, or "" for a missing or non-string value. */
    function GetValue(key: string): (v: string)
      reads this
      ensures v != "" ==> key in values && values[key] == Str(v)
    {
      StringValue(values, key)
    }

    method SetValue(key: string, value: string)
      modifies this
      ensures values == old(values)[key := Str(value)]
    {
      values := values[key := Str(value)];
    }

    method SetConfig(config: JsonObject)
      modifies this
      ensures values == config
    {
      values := config;
    }

    /** `save`: false when the file cannot be opened for writing; otherwise the document is written. */
    method Save(store: JsonStore) returns (ok: bool)
      modifies store
      ensures ok == store.writable
      ensures store.file == if ok then Holds(Object(values)) else old(store.file)
    {
      ok := store.Write(values);
    }

    method Load(store: JsonStore) returns (ok: bool)
      modifies this, store
      ensures (values, store.file, ok) == LoadSpec(old(values), old(store.file), store.writable)
    {
      var read := ReadObject(store.file);
      if store.file.Missing? {
        ok := Save(store);
        return;
      }
      if read.None? {
        return false;
      }
      values := read.value;
      ok := true;
    }
  }
}
