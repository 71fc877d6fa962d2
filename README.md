# discord-drawing-rpc, modelled in Dafny

This project models the deterministic core of discord-drawing-rpc, a desktop
tool that shows a drawing as a Discord "Rich Presence". It has three parts:

- A GUI writes a small JSON command document, the *state file*.
- A background daemon watches that file. It turns each new command into
  SET_ACTIVITY requests on Discord's local IPC socket.
- PID files let the GUI, the tray and the daemon tell whether the others are
  running.

The model covers these pieces:

- **Frame codec and IPC client** (`wire.dfy`, `discord_rpc.dfy`). Frames are
  a little-endian int32 opcode, an int32 payload length, then the payload. The
  `Client` class keeps the socket, the `connected` flag and the receive buffer.
  It has the `processFrames` drain loop, the READY/CLOSE/PING dispatch,
  `sendFrame`, `connect` over pipes 0..9, the 50-round handshake wait,
  `disconnect`, and the two presence commands.
- **The daemon** (`rpc_daemon.dfy`). Its parts:
  - mapping a command document to clear, update, quit or nothing;
  - building the presence object field by field;
  - de-duplicating against the last state;
  - the reconnect tick;
  - `start` and `stop`.
- **Command documents** (`daemon_ipc.dfy`). The read-modify-write quit
  command and the fresh six-key update command, over a state file held as one
  JSON store.
- **PID files and liveness** (`process_utils.dfy`, with `decimal.dfy` for
  `QString::number` and `toLongLong`). Parsing, writing, the stale-file rule,
  and the case-insensitive name check against an abstract process table.
- **Configuration and paths** (`config.dfy`, `common.dfy`). Defaults,
  getters and setters, `load`/`save` fallbacks, the per-platform directories
  and the executable name mapping.
- **Crop geometry** (`crop_widget.dfy`). Only the integer part: centring the
  image, the initial square crop, corner hit-testing, the square-preserving
  resize with its minimum size and bounds test, the clamped drag, and the
  cursor choice.
- **Log viewer** (`log_viewer.dfy`). The size-gated reload that keeps the last
  10000 lines, the forced refresh, clearing, and re-watching the log.

Qt value semantics the code relies on are written out:

- `QRect` keeps two inclusive corners. `right() = x + w - 1`, `contains` is
  inclusive and normalises the rectangle first, and `isValid` means a
  positive width and height.
- `int` division truncates toward zero.
- `QTextStream::readLine` drops the newline, and a last unterminated line
  still counts.
- `QStringList::join` and `QTextEdit::append` are modelled as themselves.
- JSON value accessors (`toString`, `toArray`, `toLongLong`) return empty
  defaults on a missing key or a wrong type.

Objects whose fields the source updates become classes whose methods are
proved against specification functions:

- `DiscordRpc.Client`, `RpcDaemon.Daemon`, `Config.Config`,
  `CropWidget.CropWidget` and `LogViewer.LogViewerDialog`;
- the file stores `Files.JsonStore`, `Files.TextFiles` and `LogViewer.LogStore`.

Each such class is specified by functions on its state (for example
`State() == ProcessFramesSpec(old(State()), codec)`), and the lemmas prove
the promised properties of those functions.

The environment is passed in as parameters:

- the pipes Discord listens on;
- how many bytes the socket still accepts;
- the script of socket events during the handshake;
- the current time in milliseconds and the process id;
- the process table;
- the host's platform, home directory and environment variables;
- the display image size.

## Model

| member | source | states |
|---|---|---|
| Wire.EncodeFrame | src/daemon/DiscordRPC.cpp:142-148 | a frame is 8 header bytes followed by exactly the payload, so its size is 8 + the payload size |
| Wire.DecodeEncodeInt32 | src/daemon/DiscordRPC.cpp:146-147 | the little-endian header field reads back as the value written modulo 2^32, and exactly for any int32 |
| Wire.DecodeFrame | src/daemon/DiscordRPC.cpp:213-230 | more data is needed exactly when fewer than 8 bytes, or fewer than 8 + length bytes, are buffered; a complete frame occupies 8 + payload bytes, its payload is those bytes and its opcode is the header's |
| Wire.DecodeEncodedFrame | src/daemon/DiscordRPC.cpp:142-148 | decoding an encoded frame, whatever follows it, gives back its opcode and payload and consumes exactly its size |
| Wire.EncodeDecodedFrame | src/daemon/DiscordRPC.cpp:219-230 | the bytes a decoded frame consumes are exactly the encoding of that frame |
| Wire.Drain | src/daemon/DiscordRPC.cpp:213-224 | draining leaves a remainder that holds no complete frame and is no longer than the buffer |
| Wire.DrainKeepsEveryByte | src/daemon/DiscordRPC.cpp:227-230 | the drained frames, re-encoded in order, followed by the remainder, are the original buffer: nothing is lost, duplicated or reordered |
| Wire.DrainEncoded | src/daemon/DiscordRPC.cpp:213-230 | a buffer of concatenated encoded frames drains to those frames in order, then whatever the tail yields |
| Wire.DrainFirstOf | src/daemon/DiscordRPC.cpp:227-230 | the first frame of a concatenation is handed on first, and the rest drains as if it stood alone |
| Wire.DrainOneFrame | src/daemon/DiscordRPC.cpp:227-230 | one encoded frame in front of any bytes is handed on, and the bytes after it drain as if alone |
| Wire.RoundTrip | src/daemon/DiscordRPC.cpp:142-148 | an encoded frame drains to exactly that frame and leaves the buffer empty |
| Wire.AsWrittenAgreesOnSaneLengths | src/daemon/DiscordRPC.cpp:218-230 | for lengths up to INT32_MAX - 8 the loop with the signed length field behaves exactly as the unsigned decoding |
| Wire.NegativeLengthStallsAsWritten | src/daemon/DiscordRPC.cpp:218-230 | with the signed length field, a header announcing -8 hands on an empty frame and removes no byte |
| Wire.OverflowingLengthStallsAsWritten | src/daemon/DiscordRPC.cpp:218-230 | with the signed length field, a header announcing INT32_MAX makes 8 + length wrap, and no byte is removed |
| Wire.DecodeFrameAlwaysProgresses | src/daemon/DiscordRPC.cpp:227-230 | with the unsigned length every complete step removes at least the 8 header bytes, so the drain loop always shortens the buffer |
| Wire.FromLittleEndianOfLittleEndian | src/daemon/DiscordRPC.cpp:144-147 | reading back n little-endian bytes gives the number written, when it fits |
| Wire.LittleEndianOfFromLittleEndian | src/daemon/DiscordRPC.cpp:215-219 | re-encoding the value read from n bytes reproduces those bytes |
| Decimal.DigitsValueOfNatToString | src/common/PlatformUtils.cpp:77-78 | the decimal digits written for a number read back as that number |
| Decimal.ParseLongLong | src/common/PlatformUtils.cpp:65-67 | white space around the number is skipped; text of white space only fails; a result is a 64-bit value whose sign follows a leading '-' of the trimmed text |
| Decimal.ParseAfterTrim | src/common/PlatformUtils.cpp:62-67 | parsing the trimmed text gives exactly what parsing the text itself gives |
| Decimal.TrimIdempotent | src/common/PlatformUtils.cpp:62 | trimming twice is trimming once |
| Decimal.ParsePadded | src/common/PlatformUtils.cpp:65-67 | a written number with white space around it parses back to that number |
| Decimal.Trim | src/common/PlatformUtils.cpp:62 | the trimmed text is the original from its first non-space character on, only white space follows it, and it neither starts nor ends with white space |
| Decimal.TrimPadded | src/common/PlatformUtils.cpp:62 | white space before and after a word is exactly what trimming removes: the word comes back |
| Decimal.ParseIntToString | src/common/PlatformUtils.cpp:62-78 | the text written for any 64-bit value, trimmed or not, parses back to that value |
| Decimal.TrimOfIntToString | src/common/PlatformUtils.cpp:62 | trimming the decimal text of a number changes nothing |
| Json.StringValue | src/daemon/DiscordRPCDaemon.cpp:167 | `value(key).toString()` is non-empty only for a string stored under the key, and is that string whenever one is |
| Json.ArrayValue | src/daemon/DiscordRPCDaemon.cpp:232 | `value(key).toArray()` is non-empty only for an array stored under the key, and is that array whenever one is |
| Json.LongLongValue | src/daemon/DiscordRPCDaemon.cpp:200 | a missing key gives 0 and a stored number gives that number |
| Json.PaddedNumberStringReads | src/daemon/DiscordRPCDaemon.cpp:200 | a number stored as a string with white space around it, such as " 5", reads as that number |
| Files.ReadObject | src/common/DaemonIPC.cpp:45-58 | a file yields an object exactly when it holds a JSON object, and then its fields |
| Files.JsonStore.Write | src/common/DaemonIPC.cpp:64-74 | a write succeeds exactly when the file can be opened for writing and then stores the object; otherwise nothing changes |
| Files.TextFiles.Read | src/common/PlatformUtils.cpp:56-59 | a file can be read exactly when it exists, and yields its text |
| Files.TextFiles.Write | src/common/PlatformUtils.cpp:71-81 | a truncating write succeeds exactly when the path is writable, replaces that file's text and no other |
| Files.TextFiles.Remove | src/daemon/DiscordRPCDaemon.cpp:252-255 | removing a file deletes that path and keeps every other file |
| DiscordRpc.SendFrameSpec | src/daemon/DiscordRPC.cpp:132-154 | with no socket or a closed one nothing is written and the result is false; otherwise it succeeds exactly when the whole frame fits, and then appends exactly the encoded frame; the flag, buffer and socket identity never change |
| DiscordRpc.HandleFrameSpec | src/daemon/DiscordRPC.cpp:233-258 | afterwards `connected` holds exactly when it held and the frame is not CLOSE, or the frame is a READY dispatch; PING sends one PONG with an empty object; no other opcode writes anything |
| DiscordRpc.ReadyWhileConnectedChangesNothing | src/daemon/DiscordRPC.cpp:244-248 | READY while already connected changes nothing, so the connected signal fires once per connection |
| DiscordRpc.ProcessFramesSpec | src/daemon/DiscordRPC.cpp:212-260 | the buffer left is exactly the remainder of draining it, and a buffer without a complete frame leaves the client untouched |
| DiscordRpc.ProcessFramesIsHandleAll | src/daemon/DiscordRPC.cpp:212-260 | processing the buffer is handling its drained frames one after another, in order, then keeping the incomplete remainder |
| DiscordRpc.ConnectedOnlyAfterReady | src/daemon/DiscordRPC.cpp:242-249 | a disconnected client becomes connected through a run of frames only if one of them is a READY dispatch |
| DiscordRpc.CloseDisconnects | src/daemon/DiscordRPC.cpp:251-254 | after a CLOSE that no READY follows, the client is disconnected |
| DiscordRpc.AfterCloseStaysDisconnected | src/daemon/DiscordRPC.cpp:233-258 | a disconnected client stays disconnected through any frames that are not READY |
| DiscordRpc.PingsAnswered | src/daemon/DiscordRPC.cpp:255-258 | a run of frames writes exactly one PONG per PING, in order, and nothing else, while the socket has room |
| DiscordRpc.SentFrameDecodes | src/daemon/DiscordRPC.cpp:142-153 | the bytes a successful send adds decode to the opcode and the serialised document |
| DiscordRpc.OnReadyReadSpec | src/daemon/DiscordRPC.cpp:205-210 | without a socket nothing happens; otherwise the data is appended and the buffer processed |
| DiscordRpc.AwaitReady | src/daemon/DiscordRPC.cpp:123-127 | the wait never consumes more socket events than the script holds |
| DiscordRpc.SilenceChangesNothing | src/daemon/DiscordRPC.cpp:123-127 | waits on which nothing arrives leave the client as it was |
| DiscordRpc.HandshakeMessage | src/daemon/DiscordRPC.cpp:114-116 | the handshake object holds exactly version 1 and the client id |
| DiscordRpc.HandshakeSpec | src/daemon/DiscordRPC.cpp:113-130 | success means connected, and needs the handshake frame to have been sent on an open socket |
| DiscordRpc.HandshakeTimesOut | src/daemon/DiscordRPC.cpp:123-129 | when Discord stays silent the handshake fails after its 50 rounds |
| DiscordRpc.ReadyCompletesHandshake | src/daemon/DiscordRPC.cpp:113-130 | a READY dispatch arriving on the first wait completes the handshake, with exactly the handshake frame sent |
| DiscordRpc.FirstListening | src/daemon/DiscordRPC.cpp:74-97 | the pipe chosen is the lowest of 0..9 Discord listens on, and none is chosen only when it listens on none |
| DiscordRpc.ConnectSpec | src/daemon/DiscordRPC.cpp:68-101 | an already connected client succeeds at once and unchanged; with no pipe listening the socket is null and the call fails; success always means connected |
| DiscordRpc.DisconnectSpec | src/daemon/DiscordRPC.cpp:103-111 | afterwards there is no socket, no connection and no buffered byte, and nothing more is sent |
| DiscordRpc.DisconnectIdempotent | src/daemon/DiscordRPC.cpp:103-111 | disconnecting twice is the same as disconnecting once |
| DiscordRpc.ActivityCommand | src/daemon/DiscordRPC.cpp:162-169 | the SET_ACTIVITY command holds cmd, args and nonce; args carry the pid, plus the activity exactly when one is given; the nonce is the time in decimal |
| DiscordRpc.NonceReadsBack | src/daemon/DiscordRPC.cpp:169 | the nonce text parses back to the time it was made from |
| DiscordRpc.SetActivitySpec | src/daemon/DiscordRPC.cpp:156-188 | while disconnected nothing is sent and the result is false; when connected it is exactly a FRAME send of the SET_ACTIVITY command |
| DiscordRpc.HandleFrameIgnoresBuffer | src/daemon/DiscordRPC.cpp:233-258 | handling a frame neither reads nor writes the receive buffer |
| DiscordRpc.Pongs | src/daemon/DiscordRPC.cpp:255-258 | a run of frames never asks for more PONGs than it has frames |
| DiscordRpc.Client.constructor | src/daemon/DiscordRPC.cpp:27-34 | a new client has no socket, is not connected and has an empty buffer |
| DiscordRpc.Client.SendFrame | src/daemon/DiscordRPC.cpp:132-154 | the new state and result are those of `SendFrameSpec` |
| DiscordRpc.Client.HandleFrame | src/daemon/DiscordRPC.cpp:233-258 | the new state is that of `HandleFrameSpec` |
| DiscordRpc.Client.ProcessFrames | src/daemon/DiscordRPC.cpp:212-260 | the in-place loop that removes each frame from the front of the buffer ends in the state `ProcessFramesSpec` describes |
| DiscordRpc.Client.OnReadyRead | src/daemon/DiscordRPC.cpp:205-210 | the new state is that of `OnReadyReadSpec` |
| DiscordRpc.Client.OnSocketDisconnected | src/daemon/DiscordRPC.cpp:194-198 | only the connected flag changes, to false |
| DiscordRpc.Client.WaitForReadyRead | src/daemon/DiscordRPC.cpp:125 | one wait consumes the next socket event, or silence when none is left |
| DiscordRpc.Client.Handshake | src/daemon/DiscordRPC.cpp:113-130 | the countdown loop ends in the state, remaining events and result `HandshakeSpec` describes |
| DiscordRpc.FirstListeningAt | src/daemon/DiscordRPC.cpp:74-101 | the pipe the loop stops at is the lowest listening one: no pipe below it listens |
| DiscordRpc.Client.Connect | src/daemon/DiscordRPC.cpp:68-101 | the loop over pipes 0..9 ends in the state and result `ConnectSpec` describes |
| DiscordRpc.Client.Disconnect | src/daemon/DiscordRPC.cpp:103-111 | the new state is that of `DisconnectSpec` |
| DiscordRpc.Client.UpdatePresence | src/daemon/DiscordRPC.cpp:156-172 | the new state and result are those of `SetActivitySpec` with the activity |
| DiscordRpc.Client.ClearPresence | src/daemon/DiscordRPC.cpp:174-188 | the new state and result are those of `SetActivitySpec` without an activity |
| RpcDaemon.CommandOf | src/daemon/DiscordRPCDaemon.cpp:167-244 | the command is clear, update or quit exactly when the "command" string is "clear", "update" or "quit" |
| RpcDaemon.Assets | src/daemon/DiscordRPCDaemon.cpp:209-226 | each image is present exactly when its name is non-empty, each caption exactly when it and its image are non-empty, and each value is the document's string |
| RpcDaemon.BuildPresence | src/daemon/DiscordRPCDaemon.cpp:186-235 | "state"/"details" appear exactly when non-empty; "timestamps" exactly when start > 0, holding only start; "assets" exactly when an image is named; "buttons" exactly when non-empty, copied unchanged; no other key |
| RpcDaemon.PresenceOfUpdateDocument | src/daemon/DiscordRPCDaemon.cpp:186-235 | the GUI's update document gives a presence with its texts, start and large image, and never buttons |
| RpcDaemon.CommandEffect | src/daemon/DiscordRPCDaemon.cpp:166-245 | clear sends a clear only when connected; update sets the presence when connected, otherwise tries to connect once, gives up if that fails, and sets the presence on the new connection if it succeeds; quit and anything else leave the client alone |
| RpcDaemon.ClearSendsNoActivity | src/daemon/DiscordRPCDaemon.cpp:169-173 | clear on a connected client sends one SET_ACTIVITY frame whose args carry no activity |
| RpcDaemon.Daemon.constructor | src/daemon/DiscordRPCDaemon.cpp:14-21 | a new daemon is not running and owns no client, timer or watcher |
| RpcDaemon.Daemon.HandleCommand | src/daemon/DiscordRPCDaemon.cpp:166-245 | the client changes as `CommandEffect` says; quit clears `running` and requests the event loop to quit; nothing else changes |
| RpcDaemon.Daemon.OnStateFileChanged | src/daemon/DiscordRPCDaemon.cpp:118-138 | an empty document or the last one handled changes nothing; otherwise it becomes the last state, is handled, and the state file is watched afterwards; a handled quit records the quit request; the timer, the watcher flag and the exit code stay as they were |
| RpcDaemon.Daemon.OnReconnectTimer | src/daemon/DiscordRPCDaemon.cpp:140-145 | a connected client is left alone; otherwise it is as `ConnectSpec` leaves it |
| RpcDaemon.Daemon.Stop | src/daemon/DiscordRPCDaemon.cpp:91-116 | when not running nothing changes: `running` stays false, the client and its state, the PID file, the timer and the watcher are untouched; otherwise the client is disconnected with its event script unchanged and dropped, timer and watcher stop, and only the daemon PID file is removed |
| RpcDaemon.Daemon.Start | src/daemon/DiscordRPCDaemon.cpp:27-89 | the configuration is loaded; an empty client id records exit code 1 and leaves the daemon stopped and everything else untouched; otherwise the configuration file ends as loading leaves it (the defaults written when it is missing and writable), and everything `Run` states holds for that id: the PID file, the created state file, exactly that path watched when it exists, the last state and `running`, and the client as the connect attempt and the initial command leave it |
| RpcDaemon.Daemon.StartClient | src/daemon/DiscordRPCDaemon.cpp:39-64 | running, the PID file holds the pid when writable, a fresh client with the configured id exists and is in the state `ConnectSpec` gives for a new client, the timer is active and the watcher watches nothing yet |
| RpcDaemon.Daemon.Run | src/daemon/DiscordRPCDaemon.cpp:39-88 | the PID file holds the pid when writable; a missing state file is created as "{}"; the watcher holds its path, and nothing else, exactly when it exists; a non-empty initial document becomes the last state; the client ends as the connect attempt and then `CommandEffect` of that document leave it, and a quit in it records the quit request |
| RpcDaemon.Daemon.ApplyInitialState | src/daemon/DiscordRPCDaemon.cpp:83-88 | a non-empty state file becomes the last state and the client changes as `CommandEffect` of it says; a quit in it clears `running` and records the quit request; an empty one changes nothing |
| RpcDaemon.Daemon.WatchStateFile | src/daemon/DiscordRPCDaemon.cpp:64-78 | a missing state file is created empty when possible, and the path is watched exactly when the file then exists |
| DaemonIpc.ReadStateFile | src/common/DaemonIPC.cpp:42-59 | the stored object when the file holds one, the empty object otherwise |
| DaemonIpc.WithCommand | src/common/DaemonIPC.cpp:12-15 | the document keeps every other key and value and gains or replaces only "command" |
| DaemonIpc.UpdateDocument | src/common/DaemonIPC.cpp:27-33 | a fresh document with exactly the six keys, command "update" and the given values |
| DaemonIpc.LastCommandWins | src/common/DaemonIPC.cpp:12-15 | setting the command twice keeps only the second |
| DaemonIpc.ReadAfterWrite | src/common/DaemonIPC.cpp:42-75 | reading after a successful write returns the written object |
| DaemonIpc.WriteStateFile | src/common/DaemonIPC.cpp:61-75 | false and no change when the file cannot be opened; otherwise true, with the object stored |
| DaemonIpc.ReadCurrentState | src/common/DaemonIPC.cpp:38-40 | equals `readStateFile` |
| DaemonIpc.SendQuitCommand | src/common/DaemonIPC.cpp:10-18 | stores the previous document with only "command" set to "quit" |
| DaemonIpc.SetUpdateCommand | src/common/DaemonIPC.h:23-28 | stores the previous document with only "command" set to "update" |
| DaemonIpc.SendUpdateCommand | src/common/DaemonIPC.cpp:20-36 | stores the fresh update document; no earlier field survives |
| ProcessUtils.IsProcessRunning | src/common/PlatformUtils.cpp:19-36 | false for pid <= 0; otherwise whether the process table holds the pid |
| ProcessUtils.KillProcess | src/common/PlatformUtils.cpp:38-53 | false for pid <= 0, and succeeds exactly for a running process |
| ProcessUtils.ContainsFromMeans | src/common/PlatformUtils.cpp:127 | the substring search from a position succeeds exactly when the pattern matches, ignoring case, at some later position |
| ProcessUtils.ContainsIgnoreCaseMeans | src/common/PlatformUtils.cpp:127 | `contains(pattern, Qt::CaseInsensitive)` holds exactly when the pattern matches, ignoring case, somewhere |
| ProcessUtils.MatchIgnoresCase | src/common/PlatformUtils.cpp:127 | lower-casing the text does not change the result |
| ProcessUtils.GuiPatternMatchesOtherRoles | src/common/PlatformUtils.cpp:144 | the GUI's pattern also matches the tray and daemon executables |
| ProcessUtils.IsProcessRunningByName | src/common/PlatformUtils.cpp:84-129 | a match implies the process is running, and for a running process it is the case-insensitive name test |
| ProcessUtils.ReadPidFile | src/common/PlatformUtils.cpp:55-68 | -1 when the file cannot be read or its trimmed text is not an integer, otherwise the parsed value |
| ProcessUtils.PidFileRoundTrip | src/common/PlatformUtils.cpp:55-82 | reading the text a PID file is written with gives back the pid |
| ProcessUtils.PaddedPidFileReads | src/common/PlatformUtils.cpp:55-82 | white space around the number, such as a trailing newline, reads back as the same pid |
| ProcessUtils.WritePidFile | src/common/PlatformUtils.cpp:70-82 | succeeds exactly when the file can be opened, and then the file holds the pid in decimal |
| ProcessUtils.CheckPid | src/common/PlatformUtils.cpp:133-144 | no pid when the stored pid is <= 0; stale when it is positive and not running; otherwise the name check |
| ProcessUtils.OwnPidFileShowsRunning | src/common/PlatformUtils.cpp:131-145 | a PID file written by a running process whose name matches reads as running |
| ProcessUtils.IsRoleRunning | src/common/PlatformUtils.cpp:131-145 | running exactly when the pid is live and the name matches; the PID file is removed exactly when stale |
| ProcessUtils.IsGuiRunning | src/common/PlatformUtils.cpp:131-145 | the rule above on gui.pid with pattern "DiscordDrawRPC" |
| ProcessUtils.IsTrayRunning | src/common/PlatformUtils.cpp:147-161 | the rule above on tray.pid with pattern "DiscordDrawRPCTray" |
| ProcessUtils.IsDaemonRunning | src/common/PlatformUtils.cpp:163-177 | the rule above on daemon.pid with pattern "DiscordDrawRPCDaemon" |
| Config.PathsDistinct | src/common/Config.cpp:26-52 | the data file paths are pairwise distinct, and the config path differs from all of them when both directories coincide |
| Config.DistinctSuffixes | src/common/Config.cpp:22-52 | one directory with two different file names gives two different paths |
| Config.Defaults | src/common/Config.cpp:10-15 | exactly discord_client_id "", imgur_client_id "" and enable_tray_icon true |
| Config.LoadSpec | src/common/Config.cpp:54-91 | a missing file keeps the values and returns `save`'s result; malformed content keeps them and returns false; an object replaces them and returns true |
| Config.LoadAfterSave | src/common/Config.cpp:54-91 | loading what was saved restores the saved values |
| Config.FailedLoadKeepsValues | src/common/Config.cpp:54-75 | a load that returns false never changes the values |
| Config.GetAfterSet | src/common/Config.cpp:93-99 | after setting a key, reading it gives the value and every other key reads as before |
| Config.Config.constructor | src/common/Config.cpp:10-15 | a fresh configuration holds the defaults |
| Config.Config.GetValue | src/common/Config.cpp:93-95 | a non-empty result is the string stored under the key |
| Config.Config.SetValue | src/common/Config.cpp:97-99 | the key now maps to the string and every other key is unchanged |
| Config.Config.SetConfig | src/common/Config.cpp:101-103 | the whole map is replaced |
| Config.Config.Save | src/common/Config.cpp:77-91 | false and no change when the file cannot be opened; otherwise true, with the values stored |
| Config.Config.Load | src/common/Config.cpp:54-75 | the values, file and result are those of `LoadSpec` |
| Common.EnvOr | src/common/Common.cpp:31-39 | an unset or empty variable falls back to the default |
| Common.GetPlatformDirs | src/common/Common.cpp:12-50 | Windows uses AppData and LocalAppData; on macOS config and data coincide; on Linux the XDG variables are used, or ~/.config and ~/.local/share when empty; each gets "/discord-draw-rpc" |
| Common.DirsEndInAppDir | src/common/Common.cpp:20-42 | both directories end in "/discord-draw-rpc" on every platform |
| Common.LinuxDefaults | src/common/Common.cpp:31-42 | with no XDG variables the directories are under ~/.config and ~/.local/share |
| Common.ExecutableName | src/common/Common.cpp:70-75 | on Unix the three logical names map to their executables and any other name passes through |
| Common.WindowsNameIsUnixNamePlusExe | src/common/Common.cpp:61-75 | the Windows name is the Unix name plus ".exe", and macOS uses the Unix name |
| Common.ExecutablePath | src/common/Common.cpp:56-78 | the path is the executable directory, "/", then the mapped name |
| CropWidget.Rect.MoveTo | src/gui/CropWidget.cpp:318 | `moveTo` places the top-left corner and keeps the size |
| CropWidget.Half | src/gui/CropWidget.cpp:37-38 | C++ division by 2 truncates toward zero |
| CropWidget.ImageDisplayBounds | src/gui/CropWidget.cpp:30-41 | (0,0,0,0) without an image; otherwise the top-left is the truncated half of the free space |
| CropWidget.DisplayBoundsFit | src/gui/CropWidget.cpp:30-41 | the bounds have the image's size, are valid, and when the image fits they centre it to within one pixel |
| CropWidget.InitialCrop | src/gui/CropWidget.cpp:84-93 | a square of side min(w, h), inside a valid image and centred in it to within one pixel |
| CropWidget.FirstCornerFrom | src/gui/CropWidget.cpp:55-65 | the first handle from the given index on that contains the position, or -1 when none does |
| CropWidget.CornerAt | src/gui/CropWidget.cpp:43-68 | -1 for an invalid crop; otherwise the first of TL, TR, BL, BR whose handle box contains the position, or -1 |
| CropWidget.HandlesDisjoint | src/gui/CropWidget.cpp:48-65 | on a crop wider and taller than two handles no position is on two handles |
| CropWidget.ResizeCandidate | src/gui/CropWidget.cpp:241-287 | every corner changes width and height by the same amount and keeps the opposite corner fixed; an unknown corner leaves the rectangle as it was |
| CropWidget.ResizeStep | src/gui/CropWidget.cpp:289-306 | the candidate is taken exactly when it is at least 50 wide and high and inside the image; otherwise the crop is unchanged |
| CropWidget.ResizeKeepsSquareInside | src/gui/CropWidget.cpp:241-306 | resizing a square crop that lies inside the image keeps it square and inside |
| CropWidget.DragTarget | src/gui/CropWidget.cpp:315-318 | the crop keeps its size, stays inside the image when it fits, and moves exactly where asked when that is inside |
| CropWidget.DragTargetAsWritten | src/gui/CropWidget.cpp:315-318 | the drag as written keeps the crop's size |
| CropWidget.StillDragShiftsFlushCropAsWritten | src/gui/CropWidget.cpp:315-318 | as written, a still drag shifts a crop touching the right and bottom edges by one pixel |
| CropWidget.DragAsWrittenNeverReachesRightEdge | src/gui/CropWidget.cpp:315 | as written, a crop narrower than the image can never touch its right edge |
| CropWidget.StillDragKeepsCrop | src/gui/CropWidget.cpp:315-318 | with the corrected clamp a still drag leaves any crop inside the image where it is |
| CropWidget.HoverCursor | src/gui/CropWidget.cpp:329-343 | a diagonal cursor exactly on a handle (the falling diagonal for TL and BR), the move cursor exactly inside the crop off the handles, otherwise the arrow |
| CropWidget.CropWidget.constructor | src/gui/CropWidget.cpp:16-28 | no image, a null crop, neither dragging nor resizing, corner -1 |
| CropWidget.CropWidget.SetImage | src/gui/CropWidget.cpp:70-104 | the image is given already scaled to fit the widget less its padding (a null image where that size is empty); the crop becomes the initial square of its display bounds; the drag, resize and cursor state are unchanged |
| CropWidget.ScaledImageInsidePadding | src/gui/CropWidget.cpp:73-81 | an image scaled to fit the available size is displayed inside the widget's border padding |
| CropWidget.CropWidget.GetCornerAtPos | src/gui/CropWidget.cpp:43-68 | the four-step search returns `CornerAt` |
| CropWidget.CropWidget.MousePress | src/gui/CropWidget.cpp:216-230 | a left press on a handle starts a resize at that corner, else inside the crop starts a drag, never both; other presses change nothing; the crop and the cursor never change, and the resize start rectangle changes only when a resize starts |
| CropWidget.CropWidget.MouseMove | src/gui/CropWidget.cpp:232-345 | a resize takes `ResizeStep`, a drag takes `DragTarget`, otherwise only the cursor changes, to `HoverCursor` |
| CropWidget.CropWidget.MouseRelease | src/gui/CropWidget.cpp:347-353 | the left button ends any drag or resize and resets the corner to -1; the crop, sizes, drag start, resize start and cursor are unchanged |
| LogViewer.LineEnd | src/gui/LogViewerDialog.cpp:142 | the first line ends at the first newline, or at the end of the text |
| LogViewer.ReadLines | src/gui/LogViewerDialog.cpp:141-143 | an empty file has no lines, any other has at least one, and no line holds a newline |
| LogViewer.Tail | src/gui/LogViewerDialog.cpp:145-148 | the last min(n, length) elements, in order |
| LogViewer.TailStep | src/gui/LogViewerDialog.cpp:143-148 | appending a line and dropping the first when over the bound keeps exactly the last n lines |
| LogViewer.ReadTerminated | src/gui/LogViewerDialog.cpp:141-143 | reading back a log of newline-terminated lines yields exactly those lines |
| LogViewer.LineEndOf | src/gui/LogViewerDialog.cpp:142 | a line without a newline ends where the following newline starts |
| LogViewer.LoadSpec | src/gui/LogViewerDialog.cpp:113-167 | a missing file shows the placeholder and keeps the size; an unchanged size changes nothing; otherwise the size is recorded before opening, even when the open fails |
| LogViewer.LoadIdempotent | src/gui/LogViewerDialog.cpp:125-128 | loading the same file twice is the same as loading it once |
| LogViewer.LoadShowsLastLines | src/gui/LogViewerDialog.cpp:137-158 | a readable log shows exactly its last 10000 lines joined by newlines |
| LogViewer.ClearedLogStaysCleared | src/gui/LogViewerDialog.cpp:179-182 | after a successful clear, the next load keeps "Logs cleared." |
| LogViewer.LogViewerDialog.constructor | src/gui/LogViewerDialog.cpp:12-104 | the log is watched exactly when it exists, then loaded from a recorded size of 0 |
| LogViewer.LastLines | src/gui/LogViewerDialog.cpp:137-149 | the loop that appends each line and drops the first when over 10000 keeps exactly the last min(n, 10000) lines, in order |
| LogViewer.LogViewerDialog.LoadLogs | src/gui/LogViewerDialog.cpp:113-167 | the size gate, the recorded size and the shown text end as `LoadSpec` describes |
| LogViewer.LogViewerDialog.RefreshLogs | src/gui/LogViewerDialog.cpp:169-172 | a load from a recorded size of 0 |
| LogViewer.LogViewerDialog.ClearLogs | src/gui/LogViewerDialog.cpp:174-187 | a missing log changes nothing; a successful truncate empties the file, records size 0 and says so; a failed one appends the error and keeps the size |
| LogViewer.LogViewerDialog.OnLogFileChanged | src/gui/LogViewerDialog.cpp:189-197 | the log is watched if it was or exists now, then loaded |

## Left out

- JSON text. `QJsonDocument::toJson`/`fromJson` are an abstract codec
  (`DiscordRpc.JsonCodec`). A READY frame is recognised by decoding its
  payload with it. Files hold JSON values, not text.
- Sockets. `QLocalSocket` connect, wait, write and flush are not modelled.
  The socket is a channel with an open flag and a byte budget (`room`) that
  stands for a partial write. Every byte written is recorded in `outbound`.
  Arrivals and hang-ups during the handshake are a script of events.
  `getDiscordIpcPath` is left out: it probes the file system and the
  environment. The set of listening pipe numbers stands for it.
- Signals, `QTimer`, `QFileSystemWatcher` delivery and
  `QCoreApplication::quit`/`exit`. Handlers are methods called directly. The
  timer and watcher are flags, the watched paths are a set, and the exit code
  and the quit request are fields.
- Time and process ids. `currentMSecsSinceEpoch` and `applicationPid` are
  parameters.
- Operating-system process APIs (`kill`, `OpenProcess`, Toolhelp,
  `/proc/<pid>/cmdline`) are replaced by a process table from pid to name.
- ProcessUtils.KillProcess: only its result is modelled, not the
  termination of the process.
- ProcessUtils.ContainsIgnoreCase: folds ASCII letters only, not full
  Unicode case folding.
- Common.GetPlatformDirs: `mkpath` is left out. The `QStandardPaths`
  locations are inputs.
- Floating point is left out: `cropRectRatio`, `getCropRectOnOriginal`,
  `resizeEvent` and `QPixmap::scaled`. The scaled display size is an input
  of `SetImage`.
- The painting code, and the auto-scroll to the bottom in `loadLogs`.
- LogViewer.ReadLines: the CR/LF translation of text mode is not modelled.
  The file size is the number of characters.
- A log rewritten with a different text of the same size is not reloaded.
  This follows the size gate in the code.
- DaemonIpc.SetUpdateCommand: only its declaration and comment exist, at
  src/common/DaemonIPC.h:23-28. It is modelled from that comment. `setCommand`
  (src/common/DaemonIPC.h:72) and `terminateProcessFromPidFile`
  (src/common/PlatformUtils.h:35) are declared with no definition, so they are
  not modelled.
- DaemonIpc.WriteStateFile: success is "the file opened". The source also
  needs more than 0 bytes written, and an object's JSON text is never empty.
- ProcessUtils.IsDaemonRunning: `isDaemonRunning` calls `getPidFilePath`,
  which Config.h does not declare. It is modelled as the daemon PID path.
- After "quit", `onStateFileChanged` still handles later documents, because
  the code never checks `m_running`. The model follows the code.
- "quit" clears `m_running` (src/daemon/DiscordRPCDaemon.cpp:241) before it
  asks the event loop to stop. The destructor's `stop()` (lines 23-25) then
  returns at line 92. So daemon.pid is not removed and the client is not
  disconnected. The next liveness check finds the process gone and deletes the
  file as stale. The model follows the code: `Stop` changes nothing once
  `running` is false.
- RpcDaemon.Daemon.Start: an empty client id only records exit code 1.
  `start()` runs before `app.exec()` (src/daemon/main.cpp:85-87), and
  `QCoreApplication::exit` has no effect while no event loop runs. So the
  process as written keeps running without a client. The model records the
  request and does not model the event loop.
- ProcessUtils.IsProcessRunning: the 64-bit pid is not cast to `pid_t`
  (Unix) or `DWORD` (Windows) before the query (src/common/PlatformUtils.cpp:23,34).
  On Unix a pid file holding 4294967295 becomes `kill(-1, 0)` and 4294967296
  becomes `kill(0, 0)`. Both address process groups and succeed, so the
  source treats such a pid as running. The model's process table has no
  process groups: it looks the full pid up and calls such a file stale.
- ProcessUtils.KillProcess: the same cast is left out
  (src/common/PlatformUtils.cpp:42,51).
- Decimal.ParseLongLong: accepts ASCII digits only, as the C locale does.
  White space is skipped as `QChar::isSpace` defines it.
- Json.LongLongValue: JSON numbers are exact integers here. `QJsonValue`
  holds a double, so `value("start").toVariant().toLongLong()` differs for
  fractional values and for integers above 2^53.
- Wire.DecodeFrame: reads the payload length as unsigned, the correction in
  "## Findings". The source reads a signed `qint32`
  (src/daemon/DiscordRPC.cpp:218-230). The two agree on lengths up to
  INT32_MAX - 8 (`Wire.AsWrittenAgreesOnSaneLengths`). The as-written reading
  is `Wire.DecodeFrameAsWritten`.
- DiscordRpc.ProcessFramesSpec: built on the corrected `Wire.DecodeFrame`,
  not the signed length of src/daemon/DiscordRPC.cpp:218-230.
- DiscordRpc.Client.ProcessFrames: the same corrected, unsigned length.
- CropWidget.DragTarget: clamps to `right() - width() + 1`, the correction in
  "## Findings". src/gui/CropWidget.cpp:315-316 clamp one pixel short; that
  reading is `CropWidget.DragTargetAsWritten`.
- CropWidget.CropWidget.MouseMove: drags with the corrected
  `CropWidget.DragTarget`, not the clamp as written.
- A PID file whose process is running under a name that does not match is
  kept. The source does this too.
- Config.Config.Save: the source ignores how many bytes were written. So
  does the model.

## Findings

| source | as written | input that shows it | evidently intended | confidence | as-written member | corrected member |
|---|---|---|---|---|---|---|
| src/daemon/DiscordRPC.cpp:218-230 | the payload length is read as a signed `qint32`, and `8 + length` is not checked; when it is not positive, `remove(0, 8 + length)` removes nothing, so the loop spins on the same buffer | a received header with opcode 1 and length -8 (or INT32_MAX, where `8 + length` wraps negative) | the length is an unsigned count, and each pass removes a whole frame, at least its 8 header bytes | not executed | Wire.NegativeLengthStallsAsWritten | Wire.DecodeFrameAlwaysProgresses |
| src/gui/CropWidget.cpp:315-316 | the drag clamp's upper limit is `imgBounds.right() - cropRect.width()`, one pixel short, because `right()` is inclusive | a 100x100 image at (0,0) with a 50x50 crop at (50,50); pressing inside and moving nowhere shifts it to (49,49) | the limit is `right() - width() + 1`, so a crop can touch the right and bottom edges, and a still drag leaves it in place | not executed | CropWidget.StillDragShiftsFlushCropAsWritten | CropWidget.StillDragKeepsCrop |
