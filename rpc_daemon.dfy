/**
 * The background daemon (`DiscordRPCDaemon`): it watches the state file,
 * turns each new command document into an action on the Discord client, and
 * retries the connection on a timer.
 *
 * Timers, the file watcher and the event loop are not modelled as such: their
 * callbacks are methods called directly, and what they own is reduced to
 * flags (`timerActive`, `watching`) and the set of watched paths.
 */
module RpcDaemon {
  import opened Wrappers
  import opened Json
  import opened Wire
  import opened Files
  import opened Common
  import Config
  import DaemonIpc
  import ProcessUtils
  import opened DiscordRpc

  /** What a command document asks for, by its "command" string. */
  datatype Command = Clear | Update | Quit | Other

  function CommandOf(doc: JsonObject): (c: Command)
    ensures c == Clear <==> StringValue(doc, "command") == "clear"
    ensures c == Update <==> StringValue(doc, "command") == "update"
    ensures c == Quit <==> StringValue(doc, "command") == "quit"
  {
    var command := StringValue(doc, "command");
    if command == "clear" then Clear
    else if command == "update" then Update
    else if command == "quit" then Quit
    else Other
  }

  /** The "assets" object: each image only when named, each caption only with its image. */
  function Assets(doc: JsonObject): (a: JsonObject)
    ensures a.Keys <= {"large_image", "large_text", "small_image", "small_text"}
    ensures "large_image" in a <==> StringValue(doc, "large_image") != ""
    ensures "large_text" in a <==> StringValue(doc, "large_image") != "" && StringValue(doc, "large_text") != ""
    ensures "small_image" in a <==> StringValue(doc, "small_image") != ""
    ensures "small_text" in a <==> StringValue(doc, "small_image") != "" && StringValue(doc, "small_text") != ""
    ensures forall k :: k in a ==> a[k] == Str(StringValue(doc, k))
  {
    var largeImage := StringValue(doc, "large_image");
    var largeText := StringValue(doc, "large_text");
    var smallImage := StringValue(doc, "small_image");
    var smallText := StringValue(doc, "small_text");
    var large: JsonObject :=
      if largeImage == "" then map[]
      else if largeText == "" then map["large_image" := Str(largeImage)]
      else map["large_image" := Str(largeImage), "large_text" := Str(largeText)];
    var small: JsonObject :=
      if smallImage == "" then map[]
      else if smallText == "" then map["small_image" := Str(smallImage)]
      else map["small_image" := Str(smallImage), "small_text" := Str(smallText)];
    large + small
  }

  /**
   * The presence an "update" document describes. Every field is optional:
   * empty strings, a start time that is not positive, empty assets and an
   * empty button list are all left out.
   */
  function BuildPresence(doc: JsonObject): (p: JsonObject)
    ensures p.Keys <= {"state", "details", "timestamps", "assets", "buttons"}
    ensures "state" in p <==> StringValue(doc, "state") != ""
    ensures "state" in p ==> p["state"] == doc["state"]
    ensures "details" in p <==> StringValue(doc, "details") != ""
    ensures "details" in p ==> p["details"] == doc["details"]
    ensures "timestamps" in p <==> LongLongValue(doc, "start") > 0
    ensures "timestamps" in p ==> p["timestamps"] == Object(map["start" := Number(LongLongValue(doc, "start"))])
    ensures "assets" in p <==> StringValue(doc, "large_image") != "" || StringValue(doc, "small_image") != ""
    ensures "assets" in p ==> p["assets"] == Object(Assets(doc))
    ensures "buttons" in p <==> ArrayValue(doc, "buttons") != []
    ensures "buttons" in p ==> p["buttons"] == doc["buttons"]
  {
    var state := StringValue(doc, "state");
    var details := StringValue(doc, "details");
    var start := LongLongValue(doc, "start");
    var assets := Assets(doc);
    var buttons := ArrayValue(doc, "buttons");
    var p0: JsonObject := map[];
    var p1 := if state != "" then p0["state" := Str(state)] else p0;
    var p2 := if details != "" then p1["details" := Str(details)] else p1;
    var p3 := if start > 0 then p2["timestamps" := Object(map["start" := Number(start)])] else p2;
    var p4 := if assets != map[] then p3["assets" := Object(assets)] else p3;
    assert assets == map[] <==> StringValue(doc, "large_image") == "" && StringValue(doc, "small_image") == "" by {
      if StringValue(doc, "large_image") != "" {
        assert "large_image" in assets;
      }
      if StringValue(doc, "small_image") != "" {
        assert "small_image" in assets;
      }
    }
    if buttons != [] then p4["buttons" := Array(buttons)] else p4
  }

  /**
   * What the GUI's update document turns into: the given texts and image, the
   * start time when positive, no small image and no buttons.
   */
  lemma PresenceOfUpdateDocument(largeImage: string, largeText: string, details: string, state: string, start: int)
    ensures var p := BuildPresence(DaemonIpc.UpdateDocument(largeImage, largeText, details, state, start));
      ("state" in p <==> state != "") && ("details" in p <==> details != "") &&
      ("timestamps" in p <==> start > 0) &&
      ("assets" in p <==> largeImage != "") &&
      ("assets" in p ==> p["assets"].fields.Keys == if largeText == "" then {"large_image"} else {"large_image", "large_text"}) &&
      "buttons" !in p
  {
    var doc := DaemonIpc.UpdateDocument(largeImage, largeText, details, state, start);
    assert StringValue(doc, "small_image") == "";
    assert ArrayValue(doc, "buttons") == [];
  }

  /**
   * What a command does to the client and to Discord's script of replies:
   * "clear" clears the activity only when connected; "update" first connects
   * when needed and gives up if that fails, then sets the built presence;
   * "quit" and anything else leave the client alone.
   */
  function CommandEffect(c: RpcState, peer: seq<Poll>, codec: JsonCodec, clientId: string, pid: int,
                         doc: JsonObject, listening: set<int>, room: nat, nowMs: int): (r: (RpcState, seq<Poll>))
    ensures CommandOf(doc) == Clear ==> r == (if c.connected then SetActivitySpec(c, codec, pid, None, nowMs).0 else c, peer)
    ensures CommandOf(doc) == Update && c.connected ==> r == (SetActivitySpec(c, codec, pid, Some(BuildPresence(doc)), nowMs).0, peer)
    ensures CommandOf(doc) == Update && !c.connected && !ConnectSpec(c, codec, clientId, listening, room, peer).2 ==>
      r == (ConnectSpec(c, codec, clientId, listening, room, peer).0, ConnectSpec(c, codec, clientId, listening, room, peer).1)
    ensures CommandOf(doc) == Update && !c.connected && ConnectSpec(c, codec, clientId, listening, room, peer).2 ==>
      r == (SetActivitySpec(ConnectSpec(c, codec, clientId, listening, room, peer).0, codec, pid, Some(BuildPresence(doc)), nowMs).0,
            ConnectSpec(c, codec, clientId, listening, room, peer).1)
    ensures CommandOf(doc) in {Quit, Other} ==> r == (c, peer)
  {
    match CommandOf(doc)
    case Clear => (if c.connected then SetActivitySpec(c, codec, pid, None, nowMs).0 else c, peer)
    case Update =>
      if c.connected then (SetActivitySpec(c, codec, pid, Some(BuildPresence(doc)), nowMs).0, peer)
      else
        var (c1, peer1, ok) := ConnectSpec(c, codec, clientId, listening, room, peer);
        if !ok then (c1, peer1) else (SetActivitySpec(c1, codec, pid, Some(BuildPresence(doc)), nowMs).0, peer1)
    case Quit => (c, peer)
    case Other => (c, peer)
  }

  /** "clear" on a connected client sends one SET_ACTIVITY frame whose arguments carry the pid and no activity. */
  lemma ClearSendsNoActivity(c: RpcState, peer: seq<Poll>, codec: JsonCodec, clientId: string, pid: int,
                             doc: JsonObject, listening: set<int>, room: nat, nowMs: int)
    requires CommandOf(doc) == Clear && c.connected && IsOpen(c)
    requires c.socket.value.room >= HEADER_SIZE + |codec.serialize(ActivityCommand(pid, None, nowMs))|
    ensures var r := CommandEffect(c, peer, codec, clientId, pid, doc, listening, room, nowMs);
      r.0.outbound == c.outbound + EncodeFrame(FRAME, codec.serialize(ActivityCommand(pid, None, nowMs))) &&
      r.1 == peer && r.0.connected
    ensures "activity" !in ActivityCommand(pid, None, nowMs)["args"].fields
  {
  }

  /** The daemon's fields. */
  class Daemon {
    /** `m_rpc`: null before `start` and after `stop`. */
    var rpc: Client?
    var running: bool
    var lastState: JsonObject
    /** Whether the file watcher exists, and the paths it watches. */
    var watching: bool
    var watched: set<string>
    var timerActive: bool
    /** The code passed to `QCoreApplication::exit`, and whether `quit` was called. */
    var exitCode: Option<int>
    var quitRequested: bool
    const dirs: PlatformDirs
    const pid: int
    const codec: JsonCodec

    constructor (dirs: PlatformDirs, pid: int, codec: JsonCodec)
      ensures this.dirs == dirs && this.pid == pid && this.codec == codec
      ensures rpc == null && !running && lastState == map[] && !watching && watched == {} && !timerActive
      ensures exitCode == None && !quitRequested
    {
      this.dirs := dirs;
      this.pid := pid;
      this.codec := codec;
      rpc := null;
      running := false;
      lastState := map[];
      watching := false;
      watched := {};
      timerActive := false;
      exitCode := None;
      quitRequested := false;
    }

    /** `handleCommand`, with the connection environment and the clock as parameters. */
    method HandleCommand(doc: JsonObject, listening: set<int>, room: nat, nowMs: int)
      requires rpc != null
      modifies this, rpc
      ensures rpc == old(rpc)
      ensures (rpc.State(), rpc.peer) == CommandEffect(old(rpc.State()), old(rpc.peer), rpc.codec, rpc.clientId, rpc.pid, doc, listening, room, nowMs)
      ensures running == (old(running) && CommandOf(doc) != Quit)
      ensures quitRequested == (old(quitRequested) || CommandOf(doc) == Quit)
      ensures lastState == old(lastState) && watching == old(watching) && watched == old(watched)
      ensures timerActive == old(timerActive) && exitCode == old(exitCode)
    {
      var command := StringValue(doc, "command");
      if command == "clear" {
        if rpc.connected {
          var _ := rpc.ClearPresence(nowMs);
        }
      } else if command == "update" {
        if !rpc.connected {
          var ok := rpc.Connect(listening, room);
          if !ok {
            return;
          }
        }
        var presence := BuildPresence(doc);
        var _ := rpc.UpdatePresence(presence, nowMs);
      } else if command == "quit" {
        running := false;
        quitRequested := true;
      }
    }

    /**
     * `onStateFileChanged`: an empty document, or the one last handled, is
     * ignored; otherwise it is remembered, handled, and the state file is
     * watched again if the watcher had dropped it.
     */
    method OnStateFileChanged(stateStore: JsonStore, listening: set<int>, room: nat, nowMs: int)
      requires rpc != null && watching
      modifies this, rpc
      ensures rpc == old(rpc)
      ensures var doc := DaemonIpc.ReadStateFile(stateStore.file);
        if doc == map[] || doc == old(lastState) then
          lastState == old(lastState) && watched == old(watched) && running == old(running) &&
          rpc.State() == old(rpc.State()) && rpc.peer == old(rpc.peer)
        else
          lastState == doc && watched == old(watched) + {Config.StateFilePath(dirs)} &&
          (rpc.State(), rpc.peer) == CommandEffect(old(rpc.State()), old(rpc.peer), rpc.codec, rpc.clientId, rpc.pid, doc, listening, room, nowMs) &&
          running == (old(running) && CommandOf(doc) != Quit)
      ensures var doc := DaemonIpc.ReadStateFile(stateStore.file);
        quitRequested == (old(quitRequested) || (doc != map[] && doc != old(lastState) && CommandOf(doc) == Quit))
      ensures timerActive == old(timerActive) && watching == old(watching) && exitCode == old(exitCode)
    {
      var newState := DaemonIpc.ReadStateFile(stateStore.file);
      if newState == map[] {
        return;
      }
      if newState == lastState {
        return;
      }
      lastState := newState;
      HandleCommand(newState, listening, room, nowMs);
      var stateFile := Config.StateFilePath(dirs);
      if stateFile !in watched {
        watched := watched + {stateFile};
      }
    }

    /** `onReconnectTimer`: connect only when not connected. */
    method OnReconnectTimer(listening: set<int>, room: nat)
      requires rpc != null
      modifies rpc
      ensures old(rpc.connected) ==> rpc.State() == old(rpc.State()) && rpc.peer == old(rpc.peer)
      ensures !old(rpc.connected) ==>
        var r := ConnectSpec(old(rpc.State()), rpc.codec, rpc.clientId, listening, room, old(rpc.peer));
        rpc.State() == r.0 && rpc.peer == r.1
    {
      if !rpc.connected {
        var _ := rpc.Connect(listening, room);
      }
    }

    /**
     * `stop`: nothing when not running; otherwise the client is disconnected and
     * released, the timer and the watcher stop, and the PID file is removed.
     */
    method Stop(pidFiles: TextFiles)
      modifies this, rpc, pidFiles
      ensures !old(running) ==>
        (!running && rpc == old(rpc) && watching == old(watching) && timerActive == old(timerActive) &&
         watched == old(watched) && pidFiles.files == old(pidFiles.files) &&
         (rpc != null ==> rpc.State() == old(rpc.State()) && rpc.peer == old(rpc.peer)))
      ensures lastState == old(lastState) && exitCode == old(exitCode) && quitRequested == old(quitRequested)
      ensures old(running) ==>
        (!running && rpc == null && !timerActive && !watching && watched == {} &&
         pidFiles.files == old(pidFiles.files) - {Config.DaemonPidFilePath(dirs)})
      ensures old(running) && old(rpc) != null ==>
        old(rpc).State() == DisconnectSpec(old(rpc.State())) && old(rpc).peer == old(rpc.peer)
    {
      if !running {
        return;
      }
      running := false;
      if rpc != null {
        rpc.Disconnect();
        rpc := null;
      }
      timerActive := false;
      watching := false;
      watched := {};
      pidFiles.Remove(Config.DaemonPidFilePath(dirs));
    }

    /**
     * `start`: load the configuration; without a client id, exit with code 1
     * and do nothing else. Otherwise run, as `Run` describes.
     */
    method Start(config: Config.Config, configStore: JsonStore, stateStore: JsonStore, pidFiles: TextFiles,
                 peer: seq<Poll>, listening: set<int>, room: nat, nowMs: int)
      requires !running && rpc == null && configStore != stateStore
      modifies this, config, configStore, stateStore, pidFiles
      ensures config.values == Config.LoadSpec(old(config.values), old(configStore.file), configStore.writable).0
      ensures configStore.file == Config.LoadSpec(old(config.values), old(configStore.file), configStore.writable).1
      ensures StringValue(config.values, "discord_client_id") == "" ==>
        (exitCode == Some(1) && !running && rpc == null && pidFiles.files == old(pidFiles.files) &&
         stateStore.file == old(stateStore.file) && lastState == old(lastState) && quitRequested == old(quitRequested) &&
         timerActive == old(timerActive) && watching == old(watching) && watched == old(watched))
      ensures var clientId := StringValue(config.values, "discord_client_id");
        clientId != "" ==>
        (rpc != null && fresh(rpc) && rpc.clientId == clientId && timerActive && watching && exitCode == old(exitCode))
      ensures StringValue(config.values, "discord_client_id") != "" ==>
        pidFiles.files ==
          if Config.DaemonPidFilePath(dirs) in pidFiles.unwritable then old(pidFiles.files)
          else old(pidFiles.files)[Config.DaemonPidFilePath(dirs) := Decimal.IntToString(pid)]
      ensures StringValue(config.values, "discord_client_id") != "" ==>
        (old(stateStore.file).Missing? ==> stateStore.file == if stateStore.writable then Holds(Object(map[])) else Missing) &&
        (!old(stateStore.file).Missing? ==> stateStore.file == old(stateStore.file)) &&
        watched == (if stateStore.file.Missing? then {} else {Config.StateFilePath(dirs)})
      ensures var initial := DaemonIpc.ReadStateFile(stateStore.file);
        StringValue(config.values, "discord_client_id") != "" ==>
        (initial != map[] ==> lastState == initial && running == (CommandOf(initial) != Quit)) &&
        (initial == map[] ==> lastState == old(lastState) && running) &&
        quitRequested == (old(quitRequested) || (initial != map[] && CommandOf(initial) == Quit))
      ensures var clientId := StringValue(config.values, "discord_client_id");
        var c := ConnectSpec(NEW_CLIENT, codec, clientId, listening, room, peer);
        var initial := DaemonIpc.ReadStateFile(stateStore.file);
        clientId != "" ==>
        (rpc.State(), rpc.peer) ==
          if initial == map[] then (c.0, c.1) else CommandEffect(c.0, c.1, codec, clientId, pid, initial, listening, room, nowMs)
    {
      var _ := config.Load(configStore);
      var clientId := config.GetValue("discord_client_id");
      if clientId == "" {
        exitCode := Some(1);
        return;
      }
      Run(clientId, stateStore, pidFiles, peer, listening, room, nowMs);
    }

    /**
     * The running part of `start`: write the PID file, create the client and
     * try to connect, start the reconnect timer, create the state file as "{}"
     * when it does not exist, watch it, and handle the command it already
     * holds, if any.
     */
    method Run(clientId: string, stateStore: JsonStore, pidFiles: TextFiles,
               peer: seq<Poll>, listening: set<int>, room: nat, nowMs: int)
      requires !running && rpc == null
      modifies this, stateStore, pidFiles
      ensures rpc != null && fresh(rpc) && rpc.clientId == clientId && timerActive && watching
      ensures pidFiles.files ==
        if Config.DaemonPidFilePath(dirs) in pidFiles.unwritable then old(pidFiles.files)
        else old(pidFiles.files)[Config.DaemonPidFilePath(dirs) := Decimal.IntToString(pid)]
      ensures old(stateStore.file).Missing? ==> stateStore.file == if stateStore.writable then Holds(Object(map[])) else Missing
      ensures !old(stateStore.file).Missing? ==> stateStore.file == old(stateStore.file)
      ensures watched == if stateStore.file.Missing? then {} else {Config.StateFilePath(dirs)}
      ensures var initial := DaemonIpc.ReadStateFile(stateStore.file);
        (initial != map[] ==> lastState == initial && running == (CommandOf(initial) != Quit)) &&
        (initial == map[] ==> lastState == old(lastState) && running)
      ensures var c := ConnectSpec(NEW_CLIENT, codec, clientId, listening, room, peer);
        var initial := DaemonIpc.ReadStateFile(stateStore.file);
        (rpc.State(), rpc.peer) ==
          if initial == map[] then (c.0, c.1) else CommandEffect(c.0, c.1, codec, clientId, pid, initial, listening, room, nowMs)
      ensures var initial := DaemonIpc.ReadStateFile(stateStore.file);
        quitRequested == (old(quitRequested) || (initial != map[] && CommandOf(initial) == Quit))
      ensures exitCode == old(exitCode)
    {
      StartClient(clientId, pidFiles, peer, listening, room);
      WatchStateFile(stateStore);
      ApplyInitialState(stateStore, listening, room, nowMs);
    }

    /** The last step of `Run`: a non-empty state file is remembered and handled. */
    method ApplyInitialState(stateStore: JsonStore, listening: set<int>, room: nat, nowMs: int)
      requires rpc != null
      modifies this, rpc
      ensures rpc == old(rpc)
      ensures watching == old(watching) && watched == old(watched) && timerActive == old(timerActive) && exitCode == old(exitCode)
      ensures var initial := DaemonIpc.ReadStateFile(stateStore.file);
        (initial != map[] ==> lastState == initial && running == (old(running) && CommandOf(initial) != Quit)) &&
        (initial == map[] ==> lastState == old(lastState) && running == old(running)) &&
        quitRequested == (old(quitRequested) || (initial != map[] && CommandOf(initial) == Quit))
      ensures var initial := DaemonIpc.ReadStateFile(stateStore.file);
        (rpc.State(), rpc.peer) ==
          if initial == map[] then (old(rpc.State()), old(rpc.peer))
          else CommandEffect(old(rpc.State()), old(rpc.peer), rpc.codec, rpc.clientId, rpc.pid, initial, listening, room, nowMs)
    {
      var initialState := DaemonIpc.ReadStateFile(stateStore.file);
      if initialState != map[] {
        lastState := initialState;
        HandleCommand(initialState, listening, room, nowMs);
      }
    }

    /**
     * The first half of `Run`: write the PID file, create the client and try to
     * connect, start the reconnect timer and an empty file watcher.
     */
    method StartClient(clientId: string, pidFiles: TextFiles, peer: seq<Poll>, listening: set<int>, room: nat)
      requires rpc == null
      modifies this`running, this`rpc, this`timerActive, this`watching, this`watched, pidFiles
      ensures rpc != null && fresh(rpc) && rpc.clientId == clientId && rpc.pid == pid && rpc.codec == codec
      ensures var c := ConnectSpec(NEW_CLIENT, codec, clientId, listening, room, peer);
        rpc.State() == c.0 && rpc.peer == c.1
      ensures running && timerActive && watching && watched == {}
      ensures pidFiles.files ==
        if Config.DaemonPidFilePath(dirs) in pidFiles.unwritable then old(pidFiles.files)
        else old(pidFiles.files)[Config.DaemonPidFilePath(dirs) := Decimal.IntToString(pid)]
    {
      running := true;
      var _ := ProcessUtils.WritePidFile(pidFiles, Config.DaemonPidFilePath(dirs), pid);
      var client := new Client(clientId, pid, codec, peer);
      var _ := client.Connect(listening, room);
      rpc := client;
      timerActive := true;
      watching := true;
      watched := {};
    }

    /** Create the state file as "{}" when it does not exist, then watch it; watching a missing file fails. */
    method WatchStateFile(stateStore: JsonStore)
      modifies this`watched, stateStore
      ensures old(stateStore.file).Missing? ==> stateStore.file == if stateStore.writable then Holds(Object(map[])) else Missing
      ensures !old(stateStore.file).Missing? ==> stateStore.file == old(stateStore.file)
      ensures watched == if stateStore.file.Missing? then old(watched) else old(watched) + {Config.StateFilePath(dirs)}
    {
      if stateStore.file.Missing? {
        var _ := stateStore.Write(map[]);
      }
      if !stateStore.file.Missing? {
        watched := watched + {Config.StateFilePath(dirs)};
      }
    }
  }
}
