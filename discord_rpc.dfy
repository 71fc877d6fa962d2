/**
 * The Discord IPC client (`DiscordRPC`): one local socket to a Discord pipe,
 * a receive buffer cut into frames, the READY handshake, and the
 * SET_ACTIVITY commands that set or clear the presence.
 *
 * The far end is part of the state: the pipes Discord listens on and the
 * room its socket has for our bytes are given to `Connect`, and what Discord
 * does during each 100 ms wait of the handshake is the sequence `peer` of
 * `Poll` events. Every byte the client writes is appended to `outbound`.
 */
module DiscordRpc {
  import opened Wrappers
  import opened Json
  import opened Wire
  import Decimal

  /** How many pipe numbers `connect` tries: discord-ipc-0 to discord-ipc-9. */
  const PIPE_COUNT: nat := 10
  /** How many 100 ms waits the handshake makes for READY. */
  const HANDSHAKE_RETRIES: nat := 50

  /**
   * JSON text as the client reads and writes it (`QJsonDocument::toJson` in
   * compact form and `QJsonDocument::fromJson`); `parse` yields `None` for text
   * that is not JSON or whose document is not an object.
   */
  datatype JsonCodec = JsonCodec(serialize: JsonObject -> Bytes, parse: Bytes -> Option<JsonObject>)

  /** A codec whose parser reads back every object its serializer writes. */
  ghost predicate Faithful(codec: JsonCodec) {
    forall o :: codec.parse(codec.serialize(o)) == Some(o)
  }

  /**
   * The socket object: which pipe it reached, whether it is still open, and how
   * many more bytes the transport will accept from `write`.
   */
  datatype Channel = Channel(pipe: nat, open: bool, room: nat)

  /** The client's fields: `m_socket` (None is the null pointer), `m_connected`, `m_readBuffer`, and what was written. */
  datatype RpcState = RpcState(socket: Option<Channel>, connected: bool, readBuffer: Bytes, outbound: Bytes)

  /** What happens on the socket during one `waitForReadyRead(100)`. */
  datatype Poll =
    | Arrive(data: Bytes)   // bytes arrive: readyRead fires
    | HangUp                // Discord closes the socket: disconnected fires
    | Silence               // the wait times out

  predicate IsOpen(s: RpcState) {
    s.socket.Some? && s.socket.value.open
  }

  /** The same socket, still open or still closed, on the same pipe. */
  predicate SameSocket(s: RpcState, t: RpcState) {
    t.socket.Some? == s.socket.Some? &&
    (s.socket.Some? ==> t.socket.value.pipe == s.socket.value.pipe && t.socket.value.open == s.socket.value.open)
  }

  /**
   * `sendFrame`: nothing when there is no open socket; otherwise one encoded
   * frame goes to `write`, which takes as much of it as the transport has room
   * for, and the call succeeds only when all of it was written.
   */
  function SendFrameSpec(s: RpcState, codec: JsonCodec, opcode: int, data: JsonObject): (r: (RpcState, bool))
    ensures !IsOpen(s) ==> r == (s, false)
    ensures r.1 <==> IsOpen(s) && s.socket.value.room >= HEADER_SIZE + |codec.serialize(data)|
    ensures r.1 ==> r.0.outbound == s.outbound + EncodeFrame(opcode, codec.serialize(data))
    ensures s.outbound <= r.0.outbound
    ensures r.0.connected == s.connected && r.0.readBuffer == s.readBuffer && SameSocket(s, r.0)
  {
    if !IsOpen(s) then (s, false)
    else
      var frame := EncodeFrame(opcode, codec.serialize(data));
      var c := s.socket.value;
      var written := Min(c.room, |frame|);
      (s.(socket := Some(c.(room := c.room - written)), outbound := s.outbound + frame[..written]), written == |frame|)
  }

  /** A DISPATCH message carrying the READY event. */
  predicate IsReady(codec: JsonCodec, f: Frame) {
    f.opcode == FRAME &&
    codec.parse(f.payload).Some? &&
    StringValue(codec.parse(f.payload).value, "cmd") == "DISPATCH" &&
    StringValue(codec.parse(f.payload).value, "evt") == "READY"
  }

  /** The object a PONG carries: the empty one. */
  const EMPTY: JsonObject := map[]

  /**
   * What one received frame does: READY connects, CLOSE disconnects, PING is
   * answered with an empty PONG, anything else is ignored.
   */
  function HandleFrameSpec(s: RpcState, codec: JsonCodec, f: Frame): (r: RpcState)
    ensures r.readBuffer == s.readBuffer && SameSocket(s, r) && s.outbound <= r.outbound
    ensures r.connected <==> (s.connected && f.opcode != CLOSE) || IsReady(codec, f)
    ensures f.opcode != PING ==> r.outbound == s.outbound && r.socket == s.socket
    ensures f.opcode == PING ==> r == SendFrameSpec(s, codec, PONG, EMPTY).0
  {
    if f.opcode == FRAME then
      if IsReady(codec, f) && !s.connected then s.(connected := true) else s
    else if f.opcode == CLOSE then s.(connected := false)
    else if f.opcode == PING then SendFrameSpec(s, codec, PONG, EMPTY).0
    else s
  }

  /** `processFrames`: every whole frame at the front of the buffer, handled in order. */
  function ProcessFramesSpec(s: RpcState, codec: JsonCodec): (r: RpcState)
    ensures r.readBuffer == Drain(s.readBuffer).1
    ensures DecodeFrame(s.readBuffer).NeedMoreData? ==> r == s
    decreases |s.readBuffer|
  {
    match DecodeFrame(s.readBuffer)
    case NeedMoreData => s
    case Complete(f, n) => ProcessFramesSpec(HandleFrameSpec(s.(readBuffer := s.readBuffer[n..]), codec, f), codec)
  }

  /** Frames handled one after the other. */
  function HandleAll(s: RpcState, codec: JsonCodec, fs: seq<Frame>): (r: RpcState)
    decreases |fs|
  {
    if fs == [] then s else HandleAll(HandleFrameSpec(s, codec, fs[0]), codec, fs[1..])
  }

  /** `onReadyRead`: with a socket, what arrived is appended and the frames are processed. */
  function OnReadyReadSpec(s: RpcState, codec: JsonCodec, data: Bytes): (r: RpcState)
    ensures s.socket.None? ==> r == s
    ensures s.socket.Some? ==> r == ProcessFramesSpec(s.(readBuffer := s.readBuffer + data), codec)
  {
    if s.socket.None? then s else ProcessFramesSpec(s.(readBuffer := s.readBuffer + data), codec)
  }

  /** One wait of the handshake loop. */
  function PollSpec(s: RpcState, codec: JsonCodec, e: Poll): (r: RpcState)
  {
    match e
    case Arrive(data) => OnReadyReadSpec(s, codec, data)
    case HangUp =>
      if s.socket.None? then s
      else s.(socket := Some(s.socket.value.(open := false)), connected := false)
    case Silence => s
  }

  /**
   * The handshake's waiting loop: at most `retries` waits, each consuming one
   * event (silence once the script is exhausted), stopping as soon as the
   * client is connected or its socket is gone or closed.
   */
  function AwaitReady(s: RpcState, codec: JsonCodec, events: seq<Poll>, retries: nat): (r: (RpcState, seq<Poll>))
    ensures |r.1| <= |events|
    decreases retries
  {
    if s.connected || retries == 0 || !IsOpen(s) then (s, events)
    else
      var e := if events == [] then Silence else events[0];
      var rest := if events == [] then [] else events[1..];
      AwaitReady(PollSpec(s, codec, e), codec, rest, retries - 1)
  }

  /** A client just created: no socket, not connected, nothing buffered or written. */
  const NEW_CLIENT: RpcState := RpcState(None, false, [], [])

  /** The handshake message: protocol version 1 and the application id. */
  function HandshakeMessage(clientId: string): (m: JsonObject)
    ensures m.Keys == {"v", "client_id"}
    ensures m["v"] == Number(1) && StringValue(m, "client_id") == clientId
  {
    map["v" := Number(1), "client_id" := Str(clientId)]
  }

  /** `handshake`: send the handshake frame, then wait for READY; the result is whether it came. */
  function HandshakeSpec(s: RpcState, codec: JsonCodec, clientId: string, events: seq<Poll>): (r: (RpcState, seq<Poll>, bool))
    ensures r.2 ==> r.0.connected
    ensures r.2 ==> IsOpen(SendFrameSpec(s, codec, HANDSHAKE, HandshakeMessage(clientId)).0)
  {
    var (s1, sent) := SendFrameSpec(s, codec, HANDSHAKE, HandshakeMessage(clientId));
    if !sent then (s1, events, false)
    else
      var (s2, rest) := AwaitReady(s1, codec, events, HANDSHAKE_RETRIES);
      (s2, rest, s2.connected)
  }

  /** The lowest pipe number from `from` on, below `PIPE_COUNT`, that Discord listens on. */
  function FirstListening(listening: set<int>, from: nat): (r: Option<nat>)
    ensures r.Some? ==> from <= r.value < PIPE_COUNT && r.value in listening
    ensures r.Some? ==> forall j :: from <= j < r.value ==> j !in listening
    ensures r.None? ==> forall j :: from <= j < PIPE_COUNT ==> j !in listening
    decreases PIPE_COUNT - from
  {
    if from >= PIPE_COUNT then None
    else if from in listening then Some(from)
    else FirstListening(listening, from + 1)
  }

  /** The first listening pipe is the one below which no pipe listens. */
  lemma FirstListeningAt(listening: set<int>, i: nat)
    requires i < PIPE_COUNT && i in listening
    requires forall j :: 0 <= j < i ==> j !in listening
    ensures FirstListening(listening, 0) == Some(i)
  {
    var r := FirstListening(listening, 0);
    if r.Some? {
      assert !(r.value < i) && !(i < r.value);
    }
  }

  /**
   * `connect`: nothing to do when connected; otherwise the first pipe that
   * accepts the connection gets the handshake, and when none does the socket
   * is null and the call fails.
   */
  function ConnectSpec(s: RpcState, codec: JsonCodec, clientId: string, listening: set<int>, room: nat, events: seq<Poll>): (r: (RpcState, seq<Poll>, bool))
    ensures s.connected ==> r == (s, events, true)
    ensures !s.connected && FirstListening(listening, 0).None? ==> r == (s.(socket := None), events, false)
    ensures r.2 ==> r.0.connected
  {
    if s.connected then (s, events, true)
    else
      match FirstListening(listening, 0)
      case None => (s.(socket := None), events, false)
      case Some(i) => HandshakeSpec(s.(socket := Some(Channel(i, true, room))), codec, clientId, events)
  }

  /** `disconnect`: no socket, not connected, nothing buffered. */
  function DisconnectSpec(s: RpcState): (r: RpcState)
    ensures r.socket.None? && !r.connected && r.readBuffer == [] && r.outbound == s.outbound
  {
    s.(socket := None, connected := false, readBuffer := [])
  }

  /**
   * The SET_ACTIVITY command: the process id, the activity when one is given
   * (none clears the presence), and a nonce that is the time in milliseconds.
   */
  function ActivityCommand(pid: int, activity: Option<JsonObject>, nowMs: int): (m: JsonObject)
    ensures m.Keys == {"cmd", "args", "nonce"}
    ensures StringValue(m, "cmd") == "SET_ACTIVITY"
    ensures m["args"].Object? && LongLongValue(m["args"].fields, "pid") == pid
    ensures activity.None? ==> m["args"].fields.Keys == {"pid"}
    ensures activity.Some? ==> m["args"].fields.Keys == {"pid", "activity"} && m["args"].fields["activity"] == Object(activity.value)
    ensures m["nonce"] == Str(Decimal.IntToString(nowMs))
  {
    var args: JsonObject :=
      if activity.Some? then map["pid" := Number(pid), "activity" := Object(activity.value)]
      else map["pid" := Number(pid)];
    map["cmd" := Str("SET_ACTIVITY"), "args" := Object(args), "nonce" := Str(Decimal.IntToString(nowMs))]
  }

  /** `updatePresence` (an activity) and `clearPresence` (none): refused unless connected. */
  function SetActivitySpec(s: RpcState, codec: JsonCodec, pid: int, activity: Option<JsonObject>, nowMs: int): (r: (RpcState, bool))
    ensures !s.connected ==> r == (s, false)
    ensures s.connected ==> r == SendFrameSpec(s, codec, FRAME, ActivityCommand(pid, activity, nowMs))
  {
    if !s.connected then (s, false) else SendFrameSpec(s, codec, FRAME, ActivityCommand(pid, activity, nowMs))
  }

  // ---------------------------------------------------------------------------
  // Properties of the specification functions

  /** READY while already connected changes nothing, so `connected` is raised once per connection. */
  lemma ReadyWhileConnectedChangesNothing(s: RpcState, codec: JsonCodec, f: Frame)
    requires s.connected && IsReady(codec, f)
    ensures HandleFrameSpec(s, codec, f) == s
  {
  }

  /** A second `disconnect` changes nothing. */
  lemma DisconnectIdempotent(s: RpcState)
    ensures DisconnectSpec(DisconnectSpec(s)) == DisconnectSpec(s)
  {
  }

  /** `HandleFrameSpec` neither reads nor writes the receive buffer. */
  lemma HandleFrameIgnoresBuffer(s: RpcState, codec: JsonCodec, f: Frame, b: Bytes)
    ensures HandleFrameSpec(s.(readBuffer := b), codec, f) == HandleFrameSpec(s, codec, f).(readBuffer := b)
  {
  }

  /** Processing the buffer is handling, in order, exactly the frames `Drain` cuts from it. */
  lemma {:induction false} ProcessFramesIsHandleAll(s: RpcState, codec: JsonCodec)
    ensures ProcessFramesSpec(s, codec) == HandleAll(s.(readBuffer := Drain(s.readBuffer).1), codec, Drain(s.readBuffer).0)
    decreases |s.readBuffer|
  {
    match DecodeFrame(s.readBuffer)
    case NeedMoreData =>
    case Complete(f, n) =>
      var s1 := HandleFrameSpec(s.(readBuffer := s.readBuffer[n..]), codec, f);
      ProcessFramesIsHandleAll(s1, codec);
      var rest := Drain(s.readBuffer[n..]);
      assert Drain(s.readBuffer) == ([f] + rest.0, rest.1);
      HandleFrameIgnoresBuffer(s, codec, f, rest.1);
      HandleFrameIgnoresBuffer(s, codec, f, s.readBuffer[n..]);
      assert s1.(readBuffer := rest.1) == HandleFrameSpec(s.(readBuffer := rest.1), codec, f);
      assert ([f] + rest.0)[1..] == rest.0;
  }

  /** Nothing but a READY dispatch among the frames can make a disconnected client connected. */
  lemma {:induction false} ConnectedOnlyAfterReady(s: RpcState, codec: JsonCodec, fs: seq<Frame>)
    requires !s.connected && HandleAll(s, codec, fs).connected
    ensures exists i :: 0 <= i < |fs| && IsReady(codec, fs[i])
    decreases |fs|
  {
    if fs != [] && !IsReady(codec, fs[0]) {
      ConnectedOnlyAfterReady(HandleFrameSpec(s, codec, fs[0]), codec, fs[1..]);
      var i :| 0 <= i < |fs[1..]| && IsReady(codec, fs[1..][i]);
      assert IsReady(codec, fs[i + 1]);
    }
  }

  /** Frames after the last CLOSE decide: with no READY after it, the client ends disconnected. */
  lemma {:induction false} CloseDisconnects(s: RpcState, codec: JsonCodec, fs: seq<Frame>, k: nat)
    requires k < |fs| && fs[k].opcode == CLOSE
    requires forall i :: k < i < |fs| ==> !IsReady(codec, fs[i])
    ensures !HandleAll(s, codec, fs).connected
    decreases |fs|
  {
    var s1 := HandleFrameSpec(s, codec, fs[0]);
    if k == 0 {
      AfterCloseStaysDisconnected(s1, codec, fs[1..]);
    } else {
      CloseDisconnects(s1, codec, fs[1..], k - 1);
    }
  }

  lemma {:induction false} AfterCloseStaysDisconnected(s: RpcState, codec: JsonCodec, fs: seq<Frame>)
    requires !s.connected
    requires forall i :: 0 <= i < |fs| ==> !IsReady(codec, fs[i])
    ensures !HandleAll(s, codec, fs).connected
    decreases |fs|
  {
    if fs != [] {
      AfterCloseStaysDisconnected(HandleFrameSpec(s, codec, fs[0]), codec, fs[1..]);
    }
  }

  /** The PONG frames the PINGs among `fs` call for, one each, in order. */
  function Pongs(codec: JsonCodec, fs: seq<Frame>): (r: seq<Frame>)
    ensures |r| <= |fs|
  {
    if fs == [] then []
    else (if fs[0].opcode == PING then [Frame(PONG, codec.serialize(EMPTY))] else []) + Pongs(codec, fs[1..])
  }

  /** With the socket open and room enough, every PING is answered by exactly one PONG, in order. */
  lemma {:induction false} PingsAnswered(s: RpcState, codec: JsonCodec, fs: seq<Frame>)
    requires IsOpen(s) && s.socket.value.room >= |EncodeAll(Pongs(codec, fs))|
    ensures HandleAll(s, codec, fs).outbound == s.outbound + EncodeAll(Pongs(codec, fs))
    decreases |fs|
  {
    if fs != [] {
      var s1 := HandleFrameSpec(s, codec, fs[0]);
      var ps := Pongs(codec, fs[1..]);
      var pong := Frame(PONG, codec.serialize(EMPTY));
      if fs[0].opcode == PING {
        assert Pongs(codec, fs) == [pong] + ps;
        assert ([pong] + ps)[1..] == ps;
        assert EncodeAll(Pongs(codec, fs)) == EncodeFrame(PONG, codec.serialize(EMPTY)) + EncodeAll(ps);
        assert s1.outbound == s.outbound + EncodeFrame(PONG, codec.serialize(EMPTY));
        assert s1.socket.value.room == s.socket.value.room - |EncodeFrame(PONG, codec.serialize(EMPTY))|;
        PingsAnswered(s1, codec, fs[1..]);
      } else {
        assert Pongs(codec, fs) == ps;
        PingsAnswered(s1, codec, fs[1..]);
      }
    }
  }

  /** What Discord reads from a successful send: exactly one frame, carrying the serialized object. */
  lemma SentFrameDecodes(s: RpcState, codec: JsonCodec, opcode: int, data: JsonObject)
    requires IsInt32(opcode) && |codec.serialize(data)| < TWO_32
    requires SendFrameSpec(s, codec, opcode, data).1
    ensures var sent := SendFrameSpec(s, codec, opcode, data).0.outbound[|s.outbound|..];
      Drain(sent) == ([Frame(opcode, codec.serialize(data))], [])
  {
    var f := Frame(opcode, codec.serialize(data));
    var sent := SendFrameSpec(s, codec, opcode, data).0.outbound[|s.outbound|..];
    assert sent == EncodeFrame(opcode, codec.serialize(data));
    RoundTrip(f);
  }

  /** The nonce of an activity command reads back as the time it was made at. */
  lemma NonceReadsBack(pid: int, activity: Option<JsonObject>, nowMs: int)
    requires Decimal.IsInt64(nowMs)
    ensures Decimal.ParseLongLong(StringValue(ActivityCommand(pid, activity, nowMs), "nonce")) == Some(nowMs)
  {
    Decimal.ParseIntToString(nowMs);
  }

  /** When Discord stays silent the wait changes nothing and the handshake fails. */
  lemma {:induction false} SilenceChangesNothing(s: RpcState, codec: JsonCodec, events: seq<Poll>, retries: nat)
    requires forall i :: 0 <= i < |events| ==> events[i] == Silence
    ensures AwaitReady(s, codec, events, retries).0 == s
    decreases retries
  {
    if !(s.connected || retries == 0 || !IsOpen(s)) {
      var rest := if events == [] then [] else events[1..];
      assert forall i :: 0 <= i < |rest| ==> rest[i] == events[i + 1];
      SilenceChangesNothing(s, codec, rest, retries - 1);
    }
  }

  lemma HandshakeTimesOut(s: RpcState, codec: JsonCodec, clientId: string, events: seq<Poll>)
    requires !s.connected
    requires forall i :: 0 <= i < |events| ==> events[i] == Silence
    ensures !HandshakeSpec(s, codec, clientId, events).2
  {
    var s1 := SendFrameSpec(s, codec, HANDSHAKE, HandshakeMessage(clientId)).0;
    SilenceChangesNothing(s1, codec, events, HANDSHAKE_RETRIES);
  }

  /**
   * A READY dispatch arriving in the first wait completes the handshake: the
   * client is connected, the handshake frame was sent, and the rest of what
   * Discord does is left for later.
   */
  lemma ReadyCompletesHandshake(s: RpcState, codec: JsonCodec, clientId: string, ready: JsonObject, rest: seq<Poll>)
    requires IsOpen(s) && !s.connected && s.readBuffer == []
    requires s.socket.value.room >= HEADER_SIZE + |codec.serialize(HandshakeMessage(clientId))|
    requires Faithful(codec) && |codec.serialize(ready)| < TWO_32
    requires StringValue(ready, "cmd") == "DISPATCH" && StringValue(ready, "evt") == "READY"
    ensures var r := HandshakeSpec(s, codec, clientId, [Arrive(EncodeFrame(FRAME, codec.serialize(ready)))] + rest);
      r.2 && r.1 == rest &&
      r.0.outbound == s.outbound + EncodeFrame(HANDSHAKE, codec.serialize(HandshakeMessage(clientId)))
  {
    var events := [Arrive(EncodeFrame(FRAME, codec.serialize(ready)))] + rest;
    var s1 := SendFrameSpec(s, codec, HANDSHAKE, HandshakeMessage(clientId)).0;
    var f := Frame(FRAME, codec.serialize(ready));
    assert codec.parse(codec.serialize(ready)) == Some(ready);
    assert IsReady(codec, f);
    var buffered := s1.(readBuffer := s1.readBuffer + EncodeFrame(FRAME, codec.serialize(ready)));
    assert buffered.readBuffer == EncodeFrame(FRAME, codec.serialize(ready));
    RoundTrip(f);
    ProcessFramesIsHandleAll(buffered, codec);
    assert [f][1..] == [];
    var s2 := PollSpec(s1, codec, events[0]);
    assert s2 == HandleAll(buffered.(readBuffer := []), codec, [f]);
    assert s2.connected && s2.outbound == s1.outbound;
    assert events[1..] == rest;
  }

  // ---------------------------------------------------------------------------
  // The client object

  /** `DiscordRPC`: the socket, the connection flag and the receive buffer, updated in place. */
  class Client {
    const clientId: string
    /** The daemon's own process id, sent with every activity command. */
    const pid: int
    const codec: JsonCodec
    var socket: Option<Channel>
    var connected: bool
    var readBuffer: Bytes
    var outbound: Bytes
    /** What Discord will do during the handshake's waits, one event per wait. */
    var peer: seq<Poll>

    function State(): RpcState
      reads this
    {
      RpcState(socket, connected, readBuffer, outbound)
    }

    /** A new client: no socket, not connected, nothing buffered or written. */
    constructor (clientId: string, pid: int, codec: JsonCodec, peer: seq<Poll>)
      ensures this.clientId == clientId && this.pid == pid && this.codec == codec && this.peer == peer
      ensures State() == NEW_CLIENT
    {
      this.clientId := clientId;
      this.pid := pid;
      this.codec := codec;
      this.peer := peer;
      socket := None;
      connected := false;
      readBuffer := [];
      outbound := [];
    }

    method SendFrame(opcode: int, data: JsonObject) returns (ok: bool)
      modifies this
      ensures (State(), ok) == SendFrameSpec(old(State()), codec, opcode, data)
      ensures peer == old(peer)
    {
      if socket.None? || !socket.value.open {
        return false;
      }
      var frame := EncodeFrame(opcode, codec.serialize(data));
      var written := Min(socket.value.room, |frame|);
      outbound := outbound + frame[..written];
      socket := Some(socket.value.(room := socket.value.room - written));
      ok := written == |frame|;
    }

    method HandleFrame(f: Frame)
      modifies this
      ensures State() == HandleFrameSpec(old(State()), codec, f)
      ensures peer == old(peer)
    {
      if f.opcode == FRAME {
        var response := codec.parse(f.payload);
        if response.Some? && StringValue(response.value, "cmd") == "DISPATCH" {
          if StringValue(response.value, "evt") == "READY" && !connected {
            connected := true;
          }
        }
      } else if f.opcode == CLOSE {
        connected := false;
      } else if f.opcode == PING {
        var _ := SendFrame(PONG, EMPTY);
      }
    }

    method ProcessFrames()
      modifies this
      ensures State() == ProcessFramesSpec(old(State()), codec)
      ensures peer == old(peer)
    {
      while |readBuffer| >= HEADER_SIZE
        invariant ProcessFramesSpec(State(), codec) == ProcessFramesSpec(old(State()), codec)
        invariant peer == old(peer)
        decreases |readBuffer|
      {
        var opcode := HeaderOpcode(readBuffer);
        var length := HeaderLength(readBuffer);
        if |readBuffer| < HEADER_SIZE + length {
          return;
        }
        var payload := readBuffer[HEADER_SIZE..HEADER_SIZE + length];
        readBuffer := readBuffer[HEADER_SIZE + length..];
        HandleFrame(Frame(opcode, payload));
      }
    }

    /** `onReadyRead`, with `data` what `readAll` returns. */
    method OnReadyRead(data: Bytes)
      modifies this
      ensures State() == OnReadyReadSpec(old(State()), codec, data)
      ensures peer == old(peer)
    {
      if socket.None? {
        return;
      }
      readBuffer := readBuffer + data;
      ProcessFrames();
    }

    method OnSocketDisconnected()
      modifies this
      ensures State() == old(State()).(connected := false)
      ensures peer == old(peer)
    {
      connected := false;
    }

    /** `waitForReadyRead(100)`: Discord's next move, delivered through the socket's signals. */
    method WaitForReadyRead()
      modifies this
      ensures State() == PollSpec(old(State()), codec, if old(peer) == [] then Silence else old(peer)[0])
      ensures peer == if old(peer) == [] then [] else old(peer)[1..]
    {
      var e := if peer == [] then Silence else peer[0];
      peer := if peer == [] then [] else peer[1..];
      match e
      case Arrive(data) =>
        OnReadyRead(data);
      case HangUp =>
        if socket.Some? {
          socket := Some(socket.value.(open := false));
          OnSocketDisconnected();
        }
      case Silence =>
    }

    method Handshake() returns (ok: bool)
      modifies this
      ensures (State(), peer, ok) == HandshakeSpec(old(State()), codec, clientId, old(peer))
    {
      ok := SendFrame(HANDSHAKE, HandshakeMessage(clientId));
      if !ok {
        return;
      }
      ghost var sent := State();
      var retries := HANDSHAKE_RETRIES;
      while !connected && retries > 0 && socket.Some? && socket.value.open
        invariant 0 <= retries <= HANDSHAKE_RETRIES
        invariant AwaitReady(State(), codec, peer, retries) == AwaitReady(sent, codec, old(peer), HANDSHAKE_RETRIES)
        decreases retries
      {
        WaitForReadyRead();
        retries := retries - 1;
      }
      ok := connected;
    }

    /** `connect`, with `listening` the pipe numbers Discord accepts and `room` what each new socket can take. */
    method Connect(listening: set<int>, room: nat) returns (ok: bool)
      modifies this
      ensures (State(), peer, ok) == ConnectSpec(old(State()), codec, clientId, listening, room, old(peer))
    {
      if connected {
        return true;
      }
      for i := 0 to PIPE_COUNT
        invariant forall j :: 0 <= j < i ==> j !in listening
        invariant State() == if i == 0 then old(State()) else old(State()).(socket := None)
        invariant peer == old(peer)
      {
        if i in listening {
          FirstListeningAt(listening, i);
          socket := Some(Channel(i, true, room));
          assert State() == old(State()).(socket := Some(Channel(i, true, room)));
          ok := Handshake();
          return;
        }
        socket := None;
      }
      ok := false;
    }

    method Disconnect()
      modifies this
      ensures State() == DisconnectSpec(old(State()))
      ensures peer == old(peer)
    {
      socket := None;
      connected := false;
      readBuffer := [];
    }

    /** `updatePresence`, at time `nowMs`. */
    method UpdatePresence(presence: JsonObject, nowMs: int) returns (ok: bool)
      modifies this
      ensures (State(), ok) == SetActivitySpec(old(State()), codec, pid, Some(presence), nowMs)
      ensures peer == old(peer)
    {
      if !connected {
        return false;
      }
      ok := SendFrame(FRAME, ActivityCommand(pid, Some(presence), nowMs));
    }

    /** `clearPresence`, at time `nowMs`. */
    method ClearPresence(nowMs: int) returns (ok: bool)
      modifies this
      ensures (State(), ok) == SetActivitySpec(old(State()), codec, pid, None, nowMs)
      ensures peer == old(peer)
    {
      if !connected {
        return false;
      }
      ok := SendFrame(FRAME, ActivityCommand(pid, None, nowMs));
    }
  }
}
