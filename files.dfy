/**
 * The files the programs share, each reduced to what is stored in it: a JSON
 * document (the state file, the config file) or plain text (the PID files).
 * Whether a file can be opened for writing is part of the environment.
 */
module Files {
  import opened Wrappers
  import opened Json

  /** A JSON file: absent or unreadable, text that is not JSON, or a parsed value. */
  datatype JsonFile = Missing | Malformed | Holds(value: Json)

  /**
   * Opening and parsing a JSON file for reading: the object it holds, or `None`
   * when the open fails, the text is no JSON document, or the document is no object.
   */
  function ReadObject(f: JsonFile): (r: Option<JsonObject>)
    ensures r.Some? <==> f.Holds? && f.value.Object?
    ensures r.Some? ==> r.value == f.value.fields
  {
    match f
    case Holds(Object(fields)) => Some(fields)
    case _ => None
  }

  /** One JSON file on disk. */
  class JsonStore {
    var file: JsonFile
    /** Whether `open(WriteOnly)` succeeds on this path. */
    const writable: bool

    constructor (file: JsonFile, writable: bool)
      ensures this.file == file && this.writable == writable
    {
      this.file := file;
      this.writable := writable;
    }

    /**
     * Open for writing (which truncates) and write the document. The result is
     * whether the open succeeded; the serialized text of an object is never empty.
     */
    method Write(doc: JsonObject) returns (ok: bool)
      modifies this
      ensures ok == writable
      ensures file == if ok then Holds(Object(doc)) else old(file)
    {
      if !writable {
        return false;
      }
      file := Holds(Object(doc));
      ok := true;
    }
  }

  /** Plain-text files by path. */
  class TextFiles {
    var files: map<string, string>
    /** The paths `open(WriteOnly)` fails on. */
    const unwritable: set<string>

    constructor (files: map<string, string>, unwritable: set<string>)
      ensures this.files == files && this.unwritable == unwritable
    {
      this.files := files;
      this.unwritable := unwritable;
    }

    /** The text of the file at `path`, or `None` when it cannot be opened for reading. */
    function Read(path: string): (r: Option<string>)
      reads this
      ensures r.Some? <==> path in files
      ensures r.Some? ==> r.value == files[path]
    {
      if path in files then Some(files[path]) else None
    }

    /** Open with truncation and write `text`; false when the open fails. */
    method Write(path: string, text: string) returns (ok: bool)
      modifies this
      ensures ok <==> path !in unwritable
      ensures files == if ok then old(files)[path := text] else old(files)
    {
      if path in unwritable {
        return false;
      }
      files := files[path := text];
      ok := true;
    }

    /** `QFile::remove`. */
    method Remove(path: string)
      modifies this
      ensures files == old(files) - {path}
    {
      files := files - {path};
    }
  }
}
