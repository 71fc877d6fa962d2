/**
 * How the user-facing programs command the daemon (`DaemonIPC`): by writing
 * the shared state file, which the daemon watches.
 */
module DaemonIpc {
  import opened Json
  import opened Files

  /** `readStateFile`: the stored object, or the empty object when the file cannot be opened or holds no JSON object. */
  function ReadStateFile(f: JsonFile): (doc: JsonObject)
    ensures f.Holds? && f.value.Object? ==> doc == f.value.fields
    ensures !(f.Holds? && f.value.Object?) ==> doc == map[]
  {
    ReadObject(f).GetOr(map[])
  }

  /** The document with its "command" set to `command` and every other key as it was. */
  function WithCommand(doc: JsonObject, command: string): (r: JsonObject)
    ensures r.Keys == doc.Keys + {"command"}
    ensures r["command"] == Str(command)
    ensures forall k :: k in doc && k != "command" ==> r[k] == doc[k]
  {
    doc["command" := Str(command)]
  }

  /** The fresh document `sendUpdateCommand` writes. */
  function UpdateDocument(largeImage: string, largeText: string, details: string, state: string, start: int): (r: JsonObject)
    ensures r.Keys == {"command", "large_image", "large_text", "details", "state", "start"}
    ensures StringValue(r, "command") == "update"
    ensures StringValue(r, "large_image") == largeImage && StringValue(r, "large_text") == largeText
    ensures StringValue(r, "details") == details && StringValue(r, "state") == state
    ensures LongLongValue(r, "start") == start
  {
    map["command" := Str("update"), "large_image" := Str(largeImage), "large_text" := Str(largeText),
        "details" := Str(details), "state" := Str(state), "start" := Number(start)]
  }

  /** Setting a command twice is setting it once; the last command set is the one that counts. */
  lemma LastCommandWins(doc: JsonObject, first: string, second: string)
    ensures WithCommand(WithCommand(doc, first), second) == WithCommand(doc, second)
  {
  }

  /** A read after a successful write returns the written object. */
  lemma ReadAfterWrite(doc: JsonObject)
    ensures ReadStateFile(Holds(Object(doc))) == doc
  {
  }

  /** `writeStateFile`: false when the open fails; otherwise the object is written and the result is true. */
  method WriteStateFile(store: JsonStore, data: JsonObject) returns (ok: bool)
    modifies store
    ensures ok == store.writable
    ensures store.file == if ok then Holds(Object(data)) else old(store.file)
  {
    ok := store.Write(data);
  }

  method ReadCurrentState(store: JsonStore) returns (doc: JsonObject)
    ensures doc == ReadStateFile(store.file)
  {
    doc := ReadStateFile(store.file);
  }

  /** `sendQuitCommand`: read, set "command" to "quit", write back. */
  method SendQuitCommand(store: JsonStore) returns (ok: bool)
    modifies store
    ensures ok == store.writable
    ensures store.file == if ok then Holds(Object(WithCommand(ReadStateFile(old(store.file)), "quit"))) else old(store.file)
  {
    var stateData := ReadStateFile(store.file);
    stateData := stateData["command" := Str("quit")];
    ok := WriteStateFile(store, stateData);
  }

  /** `setUpdateCommand`, as its declaration documents it: "command" becomes "update", the rest is kept. */
  method SetUpdateCommand(store: JsonStore) returns (ok: bool)
    modifies store
    ensures ok == store.writable
    ensures store.file == if ok then Holds(Object(WithCommand(ReadStateFile(old(store.file)), "update"))) else old(store.file)
  {
    var stateData := ReadStateFile(store.file);
    stateData := stateData["command" := Str("update")];
    ok := WriteStateFile(store, stateData);
  }

  method SendUpdateCommand(store: JsonStore, largeImage: string, largeText: string, details: string, state: string, start: int)
    returns (ok: bool)
    modifies store
    ensures ok == store.writable
    ensures store.file == if ok then Holds(Object(UpdateDocument(largeImage, largeText, details, state, start))) else old(store.file)
  {
    ok := WriteStateFile(store, UpdateDocument(largeImage, largeText, details, state, start));
  }
}
