/**
 * The presence log viewer (`LogViewerDialog`): the size-gated reload that
 * shows the last 10000 lines of the log file, the forced refresh, clearing
 * the log, and re-arming the file watcher. The log file is a `LogStore`
 * object; its text stands for the file's bytes, so its length is the file's
 * size.
 */
module LogViewer {

  /** The most lines the view keeps. */
  const MAX_LINES: nat := 10000

  const NO_LOG_MESSAGE: string := "No log file found. Start the presence to generate logs."
  const OPEN_ERROR_MESSAGE: string := "Error: Cannot open log file for reading."
  const CLEARED_MESSAGE: string := "Logs cleared."
  const CLEAR_ERROR_MESSAGE: string := "\nError: Cannot clear log file."

  /** The log file: absent, or present with its text and whether it can be opened for reading and for writing. */
  datatype LogFile = Absent | Present(text: string, readable: bool, writable: bool)
  {
    predicate Exists() { Present? }
    function Size(): int
      requires Present?
    {
      |text|
    }
  }

  /** The log file as the file system holds it. */
  class LogStore {
    var file: LogFile

    constructor (file: LogFile)
      ensures this.file == file
    {
      this.file := file;
    }
  }

  /** Where the first line ends: the index of the first newline, or the length. */
  function LineEnd(text: string): (k: nat)
    ensures k <= |text|
    ensures forall i :: 0 <= i < k ==> text[i] != '\n'
    ensures k < |text| ==> text[k] == '\n'
  {
    if text == [] || text[0] == '\n' then 0 else 1 + LineEnd(text[1..])
  }

  /**
   * The lines `QTextStream::readLine` yields until `atEnd`: text up to each
   * newline, the newline dropped; a last line without a newline still counts,
   * and an empty file has none.
   */
  function ReadLines(text: string): (lines: seq<string>)
    ensures text == [] <==> lines == []
    ensures forall i :: 0 <= i < |lines| ==> '\n' !in lines[i]
    decreases |text|
  {
    if text == [] then []
    else
      var k := LineEnd(text);
      assert '\n' !in text[..k] by {
        forall i | 0 <= i < k ensures text[..k][i] != '\n' { }
      }
      if k == |text| then [text] else [text[..k]] + ReadLines(text[k + 1..])
  }

  /** The text of a log whose every line ends in a newline. */
  function Terminated(lines: seq<string>): string {
    if lines == [] then [] else lines[0] + "\n" + Terminated(lines[1..])
  }

  /** `QStringList::join("\n")`. */
  function Join(lines: seq<string>): string {
    if lines == [] then []
    else if |lines| == 1 then lines[0]
    else lines[0] + "\n" + Join(lines[1..])
  }

  /** The last `n` elements of `s`, or all of them when there are fewer. */
  function Tail<T>(s: seq<T>, n: nat): (t: seq<T>)
    ensures |t| == if |s| <= n then |s| else n
    ensures t == s[|s| - |t|..]
  {
    if |s| <= n then s else s[|s| - n..]
  }

  /** Reading a log back yields the lines that were written, when none holds a newline. */
  lemma {:induction false} ReadTerminated(lines: seq<string>)
    requires forall i :: 0 <= i < |lines| ==> '\n' !in lines[i]
    ensures ReadLines(Terminated(lines)) == lines
    decreases |lines|
  {
    if lines != [] {
      var text := Terminated(lines);
      var rest := Terminated(lines[1..]);
      assert text == lines[0] + ("\n" + rest);
      LineEndOf(lines[0], "\n" + rest);
      assert text[..|lines[0]|] == lines[0];
      assert text[|lines[0]| + 1..] == rest;
      ReadTerminated(lines[1..]);
    }
  }

  /** A line without a newline ends where the text after it begins with one. */
  lemma {:induction false} LineEndOf(line: string, rest: string)
    requires '\n' !in line && rest != [] && rest[0] == '\n'
    ensures LineEnd(line + rest) == |line|
    decreases |line|
  {
    if line != [] {
      assert (line + rest)[1..] == line[1..] + rest;
      LineEndOf(line[1..], rest);
    }
  }

  /** Appending one element and dropping the first when over the bound keeps the last `n`. */
  lemma TailStep<T>(s: seq<T>, x: T, n: nat)
    requires n > 0
    ensures var kept := Tail(s, n) + [x];
      Tail(s + [x], n) == if |kept| > n then kept[1..] else kept
  {
    var kept := Tail(s, n) + [x];
    var t := Tail(s + [x], n);
    assert t == (s + [x])[|s + [x]| - |t|..];
    if |kept| > n {
      assert kept[1..] == (s + [x])[|s + [x]| - n..];
    } else {
      assert kept == (s + [x])[|s + [x]| - |t|..];
    }
  }

  /**
   * What `loadLogs` does to the recorded size and the view: a missing file
   * shows a placeholder; an unchanged size changes nothing; otherwise the size
   * is recorded before the open, and the view shows an error or the last
   * MAX_LINES lines joined by newlines.
   */
  function LoadSpec(lastSize: int, view: string, file: LogFile): (r: (int, string))
    ensures !file.Exists() ==> r == (lastSize, NO_LOG_MESSAGE)
    ensures file.Exists() && file.Size() == lastSize ==> r == (lastSize, view)
    ensures file.Exists() && file.Size() != lastSize ==> r.0 == file.Size()
    ensures file.Exists() && file.Size() != lastSize && !file.readable ==> r.1 == OPEN_ERROR_MESSAGE
  {
    match file
    case Absent => (lastSize, NO_LOG_MESSAGE)
    case Present(text, readable, _) =>
      if |text| == lastSize then (lastSize, view)
      else if !readable then (|text|, OPEN_ERROR_MESSAGE)
      else (|text|, Join(Tail(ReadLines(text), MAX_LINES)))
  }

  /** A second load of the same file changes nothing. */
  lemma LoadIdempotent(lastSize: int, view: string, file: LogFile)
    ensures var r := LoadSpec(lastSize, view, file); LoadSpec(r.0, r.1, file) == r
  {
  }

  /** A readable log of newline-terminated lines shows the last MAX_LINES of them, once its size differs from the one recorded. */
  lemma {:induction false} LoadShowsLastLines(lastSize: int, view: string, lines: seq<string>, writable: bool)
    requires forall i :: 0 <= i < |lines| ==> '\n' !in lines[i]
    requires |Terminated(lines)| != lastSize
    ensures LoadSpec(lastSize, view, Present(Terminated(lines), true, writable)) ==
      (|Terminated(lines)|, Join(Tail(lines, MAX_LINES)))
  {
    ReadTerminated(lines);
  }

  /** `QTextEdit::append`: the text becomes a new paragraph after what is shown. */
  function Append(view: string, text: string): string {
    if view == [] then text else view + "\n" + text
  }

  /**
   * The reading loop of `loadLogs`: append each line, dropping the first
   * whenever more than MAX_LINES are kept.
   */
  method LastLines(stream: seq<string>) returns (lines: seq<string>)
    ensures lines == Tail(stream, MAX_LINES)
    ensures |lines| <= MAX_LINES
  {
    lines := [];
    var i := 0;
    while i < |stream|
      invariant 0 <= i <= |stream|
      invariant lines == Tail(stream[..i], MAX_LINES)
    {
      TailStep(stream[..i], stream[i], MAX_LINES);
      assert stream[..i + 1] == stream[..i] + [stream[i]];
      lines := lines + [stream[i]];
      if |lines| > MAX_LINES {
        lines := lines[1..];
      }
      i := i + 1;
    }
    assert stream[..i] == stream;
  }

  class LogViewerDialog {
    /** `m_lastFileSize`: the size of the log at the last reload. */
    var lastFileSize: int
    /** The plain text of the log view. */
    var view: string
    /** Whether the file watcher holds the log path. */
    var watched: bool

    /** The constructor watches the log file when it exists, then loads it with a recorded size of 0. */
    constructor (store: LogStore)
      ensures watched == store.file.Exists()
      ensures (lastFileSize, view) == LoadSpec(0, [], store.file)
    {
      lastFileSize := 0;
      view := [];
      watched := store.file.Exists();
      new;
      LoadLogs(store);
    }

    /** `loadLogs`: the size gate, then a read that keeps only the last MAX_LINES lines. */
    method LoadLogs(store: LogStore)
      modifies this`lastFileSize, this`view
      ensures (lastFileSize, view) == LoadSpec(old(lastFileSize), old(view), store.file)
    {
      if !store.file.Exists() {
        view := NO_LOG_MESSAGE;
        return;
      }
      var currentSize := store.file.Size();
      if currentSize == lastFileSize {
        return;
      }
      lastFileSize := currentSize;
      if !store.file.readable {
        view := OPEN_ERROR_MESSAGE;
        return;
      }
      var lines := LastLines(ReadLines(store.file.text));
      view := Join(lines);
    }

    /** `refreshLogs`: forget the recorded size, so the load always rereads a file that is not empty. */
    method RefreshLogs(store: LogStore)
      modifies this`lastFileSize, this`view
      ensures (lastFileSize, view) == LoadSpec(0, old(view), store.file)
    {
      lastFileSize := 0;
      LoadLogs(store);
    }

    /**
     * `clearLogs`: truncate an existing log; on success record size 0 and say
     * so, otherwise append an error. A missing log changes nothing.
     */
    method ClearLogs(store: LogStore)
      modifies this`lastFileSize, this`view, store
      ensures !old(store.file).Exists() ==>
        store.file == old(store.file) && lastFileSize == old(lastFileSize) && view == old(view)
      ensures old(store.file).Present? && old(store.file).writable ==>
        store.file == old(store.file).(text := []) && lastFileSize == 0 && view == CLEARED_MESSAGE
      ensures old(store.file).Present? && !old(store.file).writable ==>
        store.file == old(store.file) && lastFileSize == old(lastFileSize) && view == Append(old(view), CLEAR_ERROR_MESSAGE)
    {
      if store.file.Exists() {
        if store.file.writable {
          store.file := store.file.(text := []);
          lastFileSize := 0;
          view := CLEARED_MESSAGE;
        } else {
          view := Append(view, CLEAR_ERROR_MESSAGE);
        }
      }
    }

    /** `onLogFileChanged`: watch the log again if it exists and is no longer watched, then load it. */
    method OnLogFileChanged(store: LogStore)
      modifies this
      ensures watched == (old(watched) || store.file.Exists())
      ensures (lastFileSize, view) == LoadSpec(old(lastFileSize), old(view), store.file)
    {
      if !watched && store.file.Exists() {
        watched := true;
      }
      LoadLogs(store);
    }
  }

  /** After a successful clear, loading the emptied log keeps the "Logs cleared." message. */
  lemma ClearedLogStaysCleared(file: LogFile)
    requires file.Present? && file.writable
    ensures LoadSpec(0, CLEARED_MESSAGE, file.(text := [])) == (0, CLEARED_MESSAGE)
  {
  }
}
