/**
 * PID files and liveness checks (`ProcessUtils`). The operating system's
 * process table is a map from each live process id to the text the identity
 * check reads: the executable file name on Windows, the command line on Linux.
 */
module ProcessUtils {
  import opened Wrappers
  import opened Decimal
  import opened Files
  import opened Common
  import opened Config

  type ProcessTable = map<int, string>

  /** `isProcessRunning`: false for pid <= 0 before any query; otherwise whether the process exists. */
  function IsProcessRunning(pid: int, procs: ProcessTable): (r: bool)
    ensures pid <= 0 ==> !r
    ensures pid > 0 ==> (r <==> pid in procs)
  {
    pid > 0 && pid in procs
  }

  /** `killProcess`: false for pid <= 0; otherwise whether the termination signal could be delivered. */
  function KillProcess(pid: int, procs: ProcessTable): (r: bool)
    ensures pid <= 0 ==> !r
    ensures r <==> IsProcessRunning(pid, procs)
  {
    if pid <= 0 then false else pid in procs
  }

  function ToLower(c: char): char {
    if 'A' <= c <= 'Z' then (c as int + 32) as char else c
  }

  /** The pattern occurs in `text` at position `i`, up to the case of ASCII letters. */
  predicate MatchAt(text: string, pattern: string, i: int) {
    0 <= i && i + |pattern| <= |text| &&
    forall k :: 0 <= k < |pattern| ==> ToLower(text[i + k]) == ToLower(pattern[k])
  }

  /** The left-to-right search for the pattern from position `from` on. */
  function ContainsFrom(text: string, pattern: string, from: nat): bool
    decreases |text| - from
  {
    if from + |pattern| > |text| then false
    else MatchAt(text, pattern, from) || ContainsFrom(text, pattern, from + 1)
  }

  /** `text.contains(pattern, Qt::CaseInsensitive)`. */
  function ContainsIgnoreCase(text: string, pattern: string): bool {
    ContainsFrom(text, pattern, 0)
  }

  /** The search from `from` succeeds exactly when the pattern occurs at some position from `from` on. */
  lemma {:induction false} ContainsFromMeans(text: string, pattern: string, from: nat)
    ensures ContainsFrom(text, pattern, from) <==> exists i :: from <= i && MatchAt(text, pattern, i)
    decreases |text| - from
  {
    if from + |pattern| <= |text| {
      ContainsFromMeans(text, pattern, from + 1);
      if !ContainsFrom(text, pattern, from) {
        forall i | from <= i
          ensures !MatchAt(text, pattern, i)
        {
          if i == from {
            assert !MatchAt(text, pattern, from);
          }
        }
      }
    }
  }

  /** Case-insensitive containment means an occurrence somewhere in the text. */
  lemma ContainsIgnoreCaseMeans(text: string, pattern: string)
    ensures ContainsIgnoreCase(text, pattern) <==> exists i :: MatchAt(text, pattern, i)
  {
    ContainsFromMeans(text, pattern, 0);
  }

  /** The GUI's pattern is part of the tray's and the daemon's executable names, so it matches them too. */
  lemma GuiPatternMatchesOtherRoles()
    ensures ContainsIgnoreCase("DiscordDrawRPCTray", "DiscordDrawRPC")
    ensures ContainsIgnoreCase("DiscordDrawRPCDaemon", "DiscordDrawRPC")
  {
    ContainsIgnoreCaseMeans("DiscordDrawRPCTray", "DiscordDrawRPC");
    assert MatchAt("DiscordDrawRPCTray", "DiscordDrawRPC", 0);
    ContainsIgnoreCaseMeans("DiscordDrawRPCDaemon", "DiscordDrawRPC");
    assert MatchAt("DiscordDrawRPCDaemon", "DiscordDrawRPC", 0);
  }

  /** Matching ignores the case of the text: a lower-cased command line still matches. */
  lemma MatchIgnoresCase(text: string, pattern: string)
    ensures ContainsIgnoreCase(seq(|text|, i requires 0 <= i < |text| => ToLower(text[i])), pattern) == ContainsIgnoreCase(text, pattern)
  {
    var lower := seq(|text|, i requires 0 <= i < |text| => ToLower(text[i]));
    ContainsIgnoreCaseMeans(text, pattern);
    ContainsIgnoreCaseMeans(lower, pattern);
    forall i | MatchAt(text, pattern, i) ensures MatchAt(lower, pattern, i) {
      forall k | 0 <= k < |pattern| ensures ToLower(lower[i + k]) == ToLower(pattern[k]) {
        assert ToLower(ToLower(text[i + k])) == ToLower(text[i + k]);
      }
    }
    forall i | MatchAt(lower, pattern, i) ensures MatchAt(text, pattern, i) {
      forall k | 0 <= k < |pattern| ensures ToLower(text[i + k]) == ToLower(pattern[k]) {
        assert ToLower(ToLower(text[i + k])) == ToLower(text[i + k]);
      }
    }
  }

  /** `isProcessRunningByName`: the process runs and its name contains the pattern, ignoring case. */
  function IsProcessRunningByName(pid: int, pattern: string, procs: ProcessTable): (r: bool)
    ensures r ==> IsProcessRunning(pid, procs)
    ensures IsProcessRunning(pid, procs) ==> (r <==> ContainsIgnoreCase(procs[pid], pattern))
  {
    IsProcessRunning(pid, procs) && ContainsIgnoreCase(procs[pid], pattern)
  }

  /** `readPidFile`: the trimmed text read as a 64-bit integer, or -1 when the file cannot be opened or that fails. */
  function ReadPidFile(content: Option<string>): (pid: int)
    ensures content.None? ==> pid == -1
    ensures content.Some? && ParseLongLong(Trim(content.value)).None? ==> pid == -1
    ensures content.Some? && ParseLongLong(Trim(content.value)).Some? ==> pid == ParseLongLong(Trim(content.value)).value
    ensures IsInt64(pid)
  {
    match content
    case None => -1
    case Some(text) => ParseLongLong(Trim(text)).GetOr(-1)
  }

  /** What `writePidFile` writes is what `readPidFile` reads back. */
  lemma PidFileRoundTrip(pid: int)
    requires IsInt64(pid)
    ensures ReadPidFile(Some(IntToString(pid))) == pid
  {
    ParseIntToString(pid);
  }

  /** White space around the number, such as a trailing newline, does not change the pid read back. */
  lemma PaddedPidFileReads(pid: int, before: string, after: string)
    requires IsInt64(pid)
    requires forall i :: 0 <= i < |before| ==> IsSpace(before[i])
    requires forall i :: 0 <= i < |after| ==> IsSpace(after[i])
    ensures ReadPidFile(Some(before + IntToString(pid) + after)) == pid
  {
    ParsePadded(before, pid, after);
    ParseAfterTrim(before + IntToString(pid) + after);
  }

  /** `writePidFile`: truncate and write the pid in decimal; false when the open fails. */
  method WritePidFile(files: TextFiles, path: string, pid: int) returns (ok: bool)
    modifies files
    ensures ok <==> path !in files.unwritable
    ensures files.files == if ok then old(files.files)[path := IntToString(pid)] else old(files.files)
  {
    ok := files.Write(path, IntToString(pid));
  }

  /** What a role's liveness check concludes from its PID file. */
  datatype PidCheck =
    | NoPid              // no positive pid recorded: answer false, touch nothing
    | Stale              // the recorded process is gone: remove the file, answer false
    | Live(matches: bool) // the process runs: keep the file, answer the name check

  function CheckPid(content: Option<string>, pattern: string, procs: ProcessTable): (c: PidCheck)
    ensures c.NoPid? <==> ReadPidFile(content) <= 0
    ensures c.Stale? <==> ReadPidFile(content) > 0 && ReadPidFile(content) !in procs
    ensures c.Live? ==> c.matches == IsProcessRunningByName(ReadPidFile(content), pattern, procs)
  {
    var pid := ReadPidFile(content);
    if pid <= 0 then NoPid
    else if !IsProcessRunning(pid, procs) then Stale
    else Live(IsProcessRunningByName(pid, pattern, procs))
  }

  /** A role that wrote its own pid and still runs under its name is seen as running. */
  lemma OwnPidFileShowsRunning(pid: int, pattern: string, procs: ProcessTable)
    requires IsInt64(pid) && pid > 0 && pid in procs && ContainsIgnoreCase(procs[pid], pattern)
    ensures CheckPid(Some(IntToString(pid)), pattern, procs) == Live(true)
  {
    PidFileRoundTrip(pid);
  }

  /** The shared body of `isGuiRunning`, `isTrayRunning` and `isDaemonRunning`. */
  method IsRoleRunning(files: TextFiles, path: string, pattern: string, procs: ProcessTable) returns (running: bool)
    modifies files
    ensures running <==> CheckPid(old(files.Read(path)), pattern, procs) == Live(true)
    ensures files.files == if CheckPid(old(files.Read(path)), pattern, procs).Stale? then old(files.files) - {path} else old(files.files)
  {
    var pid := ReadPidFile(files.Read(path));
    if pid <= 0 {
      return false;
    }
    if !IsProcessRunning(pid, procs) {
      files.Remove(path);
      return false;
    }
    running := IsProcessRunningByName(pid, pattern, procs);
  }

  method IsGuiRunning(files: TextFiles, dirs: PlatformDirs, procs: ProcessTable) returns (running: bool)
    modifies files
    ensures running <==> CheckPid(old(files.Read(GuiPidFilePath(dirs))), "DiscordDrawRPC", procs) == Live(true)
    ensures files.files ==
      if CheckPid(old(files.Read(GuiPidFilePath(dirs))), "DiscordDrawRPC", procs).Stale?
      then old(files.files) - {GuiPidFilePath(dirs)} else old(files.files)
  {
    running := IsRoleRunning(files, GuiPidFilePath(dirs), "DiscordDrawRPC", procs);
  }

  method IsTrayRunning(files: TextFiles, dirs: PlatformDirs, procs: ProcessTable) returns (running: bool)
    modifies files
    ensures running <==> CheckPid(old(files.Read(TrayPidFilePath(dirs))), "DiscordDrawRPCTray", procs) == Live(true)
    ensures files.files ==
      if CheckPid(old(files.Read(TrayPidFilePath(dirs))), "DiscordDrawRPCTray", procs).Stale?
      then old(files.files) - {TrayPidFilePath(dirs)} else old(files.files)
  {
    running := IsRoleRunning(files, TrayPidFilePath(dirs), "DiscordDrawRPCTray", procs);
  }

  /** The daemon's check, on the daemon's PID file. */
  method IsDaemonRunning(files: TextFiles, dirs: PlatformDirs, procs: ProcessTable) returns (running: bool)
    modifies files
    ensures running <==> CheckPid(old(files.Read(DaemonPidFilePath(dirs))), "DiscordDrawRPCDaemon", procs) == Live(true)
    ensures files.files ==
      if CheckPid(old(files.Read(DaemonPidFilePath(dirs))), "DiscordDrawRPCDaemon", procs).Stale?
      then old(files.files) - {DaemonPidFilePath(dirs)} else old(files.files)
  {
    running := IsRoleRunning(files, DaemonPidFilePath(dirs), "DiscordDrawRPCDaemon", procs);
  }
}
