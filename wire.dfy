/**
 * The frame format of the chat client's local IPC protocol: a little-endian
 * int32 opcode, a little-endian int32 payload length, then the payload bytes
 * (src/daemon/DiscordRPC.cpp, `sendFrame` and `processFrames`).
 */
module Wire {

  newtype byte = b: int | 0 <= b < 0x100

  type Bytes = seq<byte>

  const TWO_32: int := 0x1_0000_0000
  const INT32_MIN: int := -0x8000_0000
  const INT32_MAX: int := 0x7fff_ffff
  const HEADER_SIZE: nat := 8

  // Opcodes of the protocol.
  const HANDSHAKE: int := 0
  const FRAME: int := 1
  const CLOSE: int := 2
  const PING: int := 3
  const PONG: int := 4

  predicate IsInt32(x: int) {
    INT32_MIN <= x <= INT32_MAX
  }

  function Min(a: int, b: int): int {
    if a <= b then a else b
  }

  function Pow256(n: nat): (p: nat)
    ensures p >= 1
  {
    if n == 0 then 1 else 0x100 * Pow256(n - 1)
  }

  /** The `n` low-order bytes of `u`, least significant first. */
  function LittleEndian(u: nat, n: nat): (b: Bytes)
    ensures |b| == n
  {
    if n == 0 then [] else [(u % 0x100) as byte] + LittleEndian(u / 0x100, n - 1)
  }

  /** The unsigned number that little-endian bytes stand for. */
  function FromLittleEndian(b: Bytes): (u: nat)
    ensures u < Pow256(|b|)
  {
    if b == [] then 0 else b[0] as int + 0x100 * FromLittleEndian(b[1..])
  }

  lemma {:induction false} FromLittleEndianOfLittleEndian(u: nat, n: nat)
    requires u < Pow256(n)
    ensures FromLittleEndian(LittleEndian(u, n)) == u
  {
    if n > 0 {
      FromLittleEndianOfLittleEndian(u / 0x100, n - 1);
      assert LittleEndian(u, n)[1..] == LittleEndian(u / 0x100, n - 1);
    }
  }

  lemma {:induction false} LittleEndianOfFromLittleEndian(b: Bytes)
    ensures LittleEndian(FromLittleEndian(b), |b|) == b
  {
    if b != [] {
      var u := FromLittleEndian(b);
      assert u % 0x100 == b[0] as int && u / 0x100 == FromLittleEndian(b[1..]);
      LittleEndianOfFromLittleEndian(b[1..]);
    }
  }

  lemma Pow256Of4()
    ensures Pow256(4) == TWO_32
  {
  }

  /** The int32 whose two's-complement bits are the unsigned `u`. */
  function Int32Of(u: nat): (x: int)
    requires u < TWO_32
    ensures IsInt32(x)
    ensures x % TWO_32 == u
  {
    if u > INT32_MAX then u - TWO_32 else u
  }

  /** `QDataStream << static_cast<qint32>(x)` in little-endian order: the low 32 bits of `x`. */
  function EncodeInt32(x: int): (b: Bytes)
    ensures |b| == 4
  {
    LittleEndian(x % TWO_32, 4)
  }

  /** Decoding what `EncodeInt32` wrote gives back the low 32 bits, and so any int32 itself. */
  lemma DecodeEncodeInt32(x: int)
    ensures FromLittleEndian(EncodeInt32(x)) == x % TWO_32
    ensures IsInt32(x) ==> Int32Of(FromLittleEndian(EncodeInt32(x))) == x
  {
    Pow256Of4();
    FromLittleEndianOfLittleEndian(x % TWO_32, 4);
  }

  /** A frame as it travels: an opcode and its payload. */
  datatype Frame = Frame(opcode: int, payload: Bytes)

  /** A frame a header can describe: an int32 opcode and fewer than 2^32 payload bytes. */
  predicate Encodable(f: Frame) {
    IsInt32(f.opcode) && |f.payload| < TWO_32
  }

  /** The bytes `sendFrame` builds: opcode, payload size, payload. */
  function EncodeFrame(opcode: int, payload: Bytes): (r: Bytes)
    ensures |r| == HEADER_SIZE + |payload|
    ensures r[HEADER_SIZE..] == payload
  {
    EncodeInt32(opcode) + EncodeInt32(|payload|) + payload
  }

  /** The opcode field of a header. */
  function HeaderOpcode(buf: Bytes): (op: int)
    requires |buf| >= HEADER_SIZE
    ensures IsInt32(op)
  {
    Pow256Of4();
    Int32Of(FromLittleEndian(buf[..4]))
  }

  /** The payload length a header announces, read as an unsigned 32-bit count. */
  function HeaderLength(buf: Bytes): (n: nat)
    requires |buf| >= HEADER_SIZE
    ensures n < TWO_32
  {
    Pow256Of4();
    FromLittleEndian(buf[4..8])
  }

  /** The outcome of one pass of the frame loop over a receive buffer. */
  datatype Step = NeedMoreData | Complete(frame: Frame, size: nat)

  /**
   * One pass of the `processFrames` loop: a whole frame at the front of `buf` and
   * the number of bytes it occupies, or `NeedMoreData` when the header or the
   * payload is not all there yet. The length field is read unsigned (see
   * `DecodeFrameAsWritten` for the signed reading of the source).
   */
  function DecodeFrame(buf: Bytes): (r: Step)
    ensures r.NeedMoreData? <==> |buf| < HEADER_SIZE || |buf| < HEADER_SIZE + HeaderLength(buf)
    ensures r.Complete? ==> HEADER_SIZE <= r.size == HEADER_SIZE + |r.frame.payload| <= |buf|
    ensures r.Complete? ==> r.frame.payload == buf[HEADER_SIZE..r.size]
    ensures r.Complete? ==> r.frame.opcode == HeaderOpcode(buf) && Encodable(r.frame)
  {
    if |buf| < HEADER_SIZE then NeedMoreData
    else
      var length := HeaderLength(buf);
      if |buf| < HEADER_SIZE + length then NeedMoreData
      else Complete(Frame(HeaderOpcode(buf), buf[HEADER_SIZE..HEADER_SIZE + length]), HEADER_SIZE + length)
  }

  /** Decoding an encoded frame, whatever follows it, yields that frame and its exact size. */
  lemma DecodeEncodedFrame(f: Frame, rest: Bytes)
    requires Encodable(f)
    ensures DecodeFrame(EncodeFrame(f.opcode, f.payload) + rest) == Complete(f, HEADER_SIZE + |f.payload|)
  {
    var buf := EncodeFrame(f.opcode, f.payload) + rest;
    HeaderWords(EncodeInt32(f.opcode), EncodeInt32(|f.payload|), f.payload, rest);
    DecodeEncodeInt32(f.opcode);
    DecodeEncodeInt32(|f.payload|);
  }

  /** The parts of an encoded frame, found again in the buffer that starts with it. */
  lemma HeaderWords<T>(op: seq<T>, len: seq<T>, payload: seq<T>, rest: seq<T>)
    requires |op| == 4 && |len| == 4
    ensures var buf := op + len + payload + rest;
      buf[..4] == op && buf[4..8] == len && buf[HEADER_SIZE..HEADER_SIZE + |payload|] == payload
  {
  }

  /** A decoded frame is exactly the bytes it was decoded from. */
  lemma EncodeDecodedFrame(buf: Bytes)
    requires DecodeFrame(buf).Complete?
    ensures buf[..DecodeFrame(buf).size] == EncodeFrame(DecodeFrame(buf).frame.opcode, DecodeFrame(buf).frame.payload)
  {
    var f := DecodeFrame(buf).frame;
    var n := DecodeFrame(buf).size;
    assert f.opcode == Int32Of(FromLittleEndian(buf[..4])) by {
      Pow256Of4();
    }
    assert |f.payload| == FromLittleEndian(buf[4..8]);
    EncodeHeaderWord(buf[..4]);
    EncodeHeaderWord(buf[4..8]);
    SplitHeader(buf, n);
  }

  /** A 4-byte header word is what `EncodeInt32` writes for the value it holds, read signed or unsigned. */
  lemma EncodeHeaderWord(w: Bytes)
    requires |w| == 4
    ensures FromLittleEndian(w) < TWO_32
    ensures EncodeInt32(FromLittleEndian(w)) == w
    ensures EncodeInt32(Int32Of(FromLittleEndian(w))) == w
  {
    var u := FromLittleEndian(w);
    Pow256Of4();
    LittleEndianOfFromLittleEndian(w);
    assert u % TWO_32 == u;
    assert Int32Of(u) % TWO_32 == u;
  }

  /** The first `n` bytes of a buffer are its two header words followed by the rest of them. */
  lemma SplitHeader<T>(s: seq<T>, n: nat)
    requires HEADER_SIZE <= n <= |s|
    ensures s[..n] == s[..4] + s[4..8] + s[HEADER_SIZE..n]
  {
  }

  /** The bytes of frames sent one after the other. */
  function EncodeAll(fs: seq<Frame>): (r: Bytes)
  {
    if fs == [] then [] else EncodeFrame(fs[0].opcode, fs[0].payload) + EncodeAll(fs[1..])
  }

  /**
   * What the frame loop does to a buffer: the whole frames at its front, in order,
   * and the incomplete remainder it leaves for the next read.
   */
  function Drain(buf: Bytes): (r: (seq<Frame>, Bytes))
    ensures DecodeFrame(r.1) == NeedMoreData
    ensures |r.1| <= |buf|
    decreases |buf|
  {
    match DecodeFrame(buf)
    case NeedMoreData => ([], buf)
    case Complete(f, n) =>
      var (fs, rest) := Drain(buf[n..]);
      ([f] + fs, rest)
  }

  /** No byte is lost or duplicated: the drained frames, re-encoded, followed by the remainder, are the buffer. */
  lemma {:induction false} DrainKeepsEveryByte(buf: Bytes)
    ensures EncodeAll(Drain(buf).0) + Drain(buf).1 == buf
    decreases |buf|
  {
    if DecodeFrame(buf).Complete? {
      var d := DecodeFrame(buf);
      var later := Drain(buf[d.size..]);
      DrainStep(buf);
      DrainKeepsEveryByte(buf[d.size..]);
      EncodeDecodedFrame(buf);
      EncodeAllCons(d.frame, later.0);
      Reassemble(buf, d.size, EncodeAll(later.0), later.1);
    }
  }

  /** A sequence is its first `n` elements followed by any split of the rest. */
  lemma Reassemble<T>(s: seq<T>, n: nat, a: seq<T>, b: seq<T>)
    requires n <= |s| && a + b == s[n..]
    ensures (s[..n] + a) + b == s
  {
    assert s == s[..n] + s[n..];
  }

  /** One step of `Drain`: a complete frame at the front comes out first. */
  lemma DrainStep(buf: Bytes)
    requires DecodeFrame(buf).Complete?
    ensures Drain(buf).0 == [DecodeFrame(buf).frame] + Drain(buf[DecodeFrame(buf).size..]).0
    ensures Drain(buf).1 == Drain(buf[DecodeFrame(buf).size..]).1
  {
  }

  /** The encoding of a frame list starts with the encoding of its first frame. */
  lemma EncodeAllCons(f: Frame, fs: seq<Frame>)
    ensures EncodeAll([f] + fs) == EncodeFrame(f.opcode, f.payload) + EncodeAll(fs)
  {
    assert ([f] + fs)[1..] == fs;
  }

  /** Whole frames followed by anything are drained in the order they were sent, each once. */
  lemma {:induction false} DrainEncoded(fs: seq<Frame>, tail: Bytes)
    requires forall i :: 0 <= i < |fs| ==> Encodable(fs[i])
    ensures Drain(EncodeAll(fs) + tail) == (fs + Drain(tail).0, Drain(tail).1)
  {
    if fs == [] {
      assert EncodeAll(fs) + tail == tail;
      assert fs + Drain(tail).0 == Drain(tail).0;
    } else {
      DrainEncoded(fs[1..], tail);
      DrainEncodedStep(fs, tail);
    }
  }

  /** The inductive step of `DrainEncoded`. */
  lemma DrainEncodedStep(fs: seq<Frame>, tail: Bytes)
    requires fs != [] && Encodable(fs[0])
    requires Drain(EncodeAll(fs[1..]) + tail) == (fs[1..] + Drain(tail).0, Drain(tail).1)
    ensures Drain(EncodeAll(fs) + tail) == (fs + Drain(tail).0, Drain(tail).1)
  {
    DrainFirstOf(fs, tail);
    FirstThenRest(fs, Drain(tail).0);
  }

  lemma FirstThenRest<T>(s: seq<T>, t: seq<T>)
    requires s != []
    ensures [s[0]] + (s[1..] + t) == s + t
  {
    assert s == [s[0]] + s[1..];
  }

  /** The step of `DrainEncoded`: the first frame comes out ahead of the rest. */
  lemma DrainFirstOf(fs: seq<Frame>, tail: Bytes)
    requires fs != [] && Encodable(fs[0])
    ensures Drain(EncodeAll(fs) + tail).0 == [fs[0]] + Drain(EncodeAll(fs[1..]) + tail).0
    ensures Drain(EncodeAll(fs) + tail).1 == Drain(EncodeAll(fs[1..]) + tail).1
  {
    var after := EncodeAll(fs[1..]) + tail;
    assert EncodeAll(fs) + tail == EncodeFrame(fs[0].opcode, fs[0].payload) + after;
    DrainOneFrame(fs[0], after);
  }

  /** Draining a buffer that starts with an encoded frame yields that frame first. */
  lemma DrainOneFrame(f: Frame, rest: Bytes)
    requires Encodable(f)
    ensures Drain(EncodeFrame(f.opcode, f.payload) + rest) == ([f] + Drain(rest).0, Drain(rest).1)
  {
    var buf := EncodeFrame(f.opcode, f.payload) + rest;
    DecodeEncodedFrame(f, rest);
    assert buf[HEADER_SIZE + |f.payload|..] == rest;
  }

  /** `decode(encode(op, p))` gives `(op, p)` back and leaves nothing in the buffer. */
  lemma RoundTrip(f: Frame)
    requires Encodable(f)
    ensures Drain(EncodeFrame(f.opcode, f.payload)) == ([f], [])
  {
    var e := EncodeFrame(f.opcode, f.payload);
    assert e + [] == e;
    DrainOneFrame(f, []);
    assert DecodeFrame([]) == NeedMoreData;
    assert [f] + [] == [f];
  }

  // ---------------------------------------------------------------------------
  // The frame loop as written reads the length as a signed qint32 and never
  // checks it: `8 + length` is computed in 32-bit arithmetic, `mid(8, length)`
  // takes the rest of the buffer when `length < 0`, and `remove(0, 8 + length)`
  // removes nothing when `8 + length <= 0`.

  /** One pass of the loop as written: wait, or hand on a frame and remove `removed` bytes. */
  datatype RawStep = Wait | Consume(frame: Frame, removed: nat)

  function DecodeFrameAsWritten(buf: Bytes): (r: RawStep)
  {
    if |buf| < HEADER_SIZE then Wait
    else
      var length := Int32Of(HeaderLength(buf));
      var total := Int32Of((HEADER_SIZE + length) % TWO_32);
      if |buf| < total then Wait
      else
        var payload := if length < 0 then buf[HEADER_SIZE..] else buf[HEADER_SIZE..Min(HEADER_SIZE + length, |buf|)];
        Consume(Frame(HeaderOpcode(buf), payload), if total > 0 then total else 0)
  }

  /** For every length up to INT32_MAX - 8 the loop as written and `DecodeFrame` agree. */
  lemma AsWrittenAgreesOnSaneLengths(buf: Bytes)
    requires |buf| >= HEADER_SIZE ==> HeaderLength(buf) <= INT32_MAX - HEADER_SIZE
    ensures DecodeFrame(buf).NeedMoreData? <==> DecodeFrameAsWritten(buf).Wait?
    ensures DecodeFrame(buf).Complete? ==>
      DecodeFrameAsWritten(buf) == Consume(DecodeFrame(buf).frame, DecodeFrame(buf).size)
  {
  }

  /** A header announcing length -8: the loop as written removes no byte, so it runs forever on the same buffer. */
  lemma NegativeLengthStallsAsWritten()
    ensures var buf := EncodeInt32(FRAME) + EncodeInt32(-8);
      DecodeFrameAsWritten(buf) == Consume(Frame(FRAME, []), 0)
  {
    var buf := EncodeInt32(FRAME) + EncodeInt32(-8);
    DecodeEncodeInt32(FRAME);
    DecodeEncodeInt32(-8);
    assert buf[..4] == EncodeInt32(FRAME) && buf[4..8] == EncodeInt32(-8);
  }

  /** A header announcing INT32_MAX bytes: `8 + length` wraps negative and again nothing is removed. */
  lemma OverflowingLengthStallsAsWritten()
    ensures var buf := EncodeInt32(FRAME) + EncodeInt32(INT32_MAX);
      DecodeFrameAsWritten(buf) == Consume(Frame(FRAME, []), 0)
  {
    var buf := EncodeInt32(FRAME) + EncodeInt32(INT32_MAX);
    DecodeEncodeInt32(FRAME);
    DecodeEncodeInt32(INT32_MAX);
    assert buf[..4] == EncodeInt32(FRAME) && buf[4..8] == EncodeInt32(INT32_MAX);
  }

  /** With the unsigned reading every complete step removes at least a header, so the loop always ends. */
  lemma DecodeFrameAlwaysProgresses(buf: Bytes)
    ensures DecodeFrame(buf).Complete? ==> DecodeFrame(buf).size >= HEADER_SIZE && |buf[DecodeFrame(buf).size..]| < |buf|
  {
  }
}
