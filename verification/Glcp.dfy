/** GLCP frames between controller and display: build and parse over caller-supplied buffers. */
module Glcp {
  import opened Options
  import opened Bytes
  import opened Crc32

  const WIRE_SOF: u16 := 0xA55A
  const MAJOR: byte := 1
  const MINOR: byte := 0
  const HEADER_SIZE := 22
  const MAX_PAYLOAD := 2300

  type u16 = x: int | 0 <= x < 0x1_0000
  type u64 = x: int | 0 <= x < 0x1_0000_0000_0000_0000

  datatype Header = Header(
    sof: u16,
    major: byte,
    minor: byte,
    message: u16,
    flags: u16,
    session: word32,
    sequence: word32,
    payloadLength: u16,
    payloadCrc: word32)

  datatype Status =
    | Ok
    | InvalidArg
    | BufferTooSmall
    | InvalidSof
    | UnsupportedVersion
    | InvalidLength
    | PayloadTooLarge
    | PayloadCrcMismatch
    | NoCommonSchema

  // ----- what a frame is -----

  function HeaderBytes(h: Header): (s: seq<byte>)
    ensures |s| == HEADER_SIZE
  {
    ToLe(h.sof, 2) + [h.major, h.minor] + ToLe(h.message, 2) + ToLe(h.flags, 2) + ToLe(h.session, 4)
    + ToLe(h.sequence, 4) + ToLe(h.payloadLength, 2) + ToLe(h.payloadCrc, 4)
  }

  /** The checksum field: zero without a payload. */
  function PayloadCrc(payload: seq<byte>): word32 {
    if |payload| > 0 then Crc(payload) else 0
  }

  /** The header as it is sent: the builder overwrites what the caller does not choose. */
  function Normalised(h: Header, payload: seq<byte>): (r: Header)
    requires |payload| <= MAX_PAYLOAD
  {
    h.(sof := WIRE_SOF, major := MAJOR, minor := MINOR, payloadLength := |payload|, payloadCrc := PayloadCrc(payload))
  }

  function FrameBytes(h: Header, payload: seq<byte>): (s: seq<byte>)
    requires |payload| <= MAX_PAYLOAD
    ensures |s| == HEADER_SIZE + |payload|
  {
    HeaderBytes(Normalised(h, payload)) + payload
  }

  function U16At(s: seq<byte>, at: nat): u16
    requires at + 2 <= |s|
  {
    FieldWidths();
    FromLeBound(s[at..at + 2]);
    FromLe(s[at..at + 2])
  }

  function U32At(s: seq<byte>, at: nat): word32
    requires at + 4 <= |s|
  {
    FieldWidths();
    FromLeBound(s[at..at + 4]);
    FromLe(s[at..at + 4])
  }

  function U64At(s: seq<byte>, at: nat): u64
    requires at + 8 <= |s|
  {
    FieldWidths();
    FromLeBound(s[at..at + 8]);
    FromLe(s[at..at + 8])
  }

  function HeaderOf(s: seq<byte>): (h: Header)
    requires |s| >= HEADER_SIZE
  {
    Header(U16At(s, 0), s[2], s[3], U16At(s, 4), U16At(s, 6), U32At(s, 8), U32At(s, 12), U16At(s, 16), U32At(s, 18))
  }

  /** What the parser makes of a byte string, check by check. */
  function ParseStatus(s: seq<byte>): Status {
    if |s| < HEADER_SIZE then InvalidLength
    else
      var h := HeaderOf(s);
      if h.sof != WIRE_SOF then InvalidSof
      else if h.major != MAJOR then UnsupportedVersion
      else if h.payloadLength > MAX_PAYLOAD then PayloadTooLarge
      else if |s| != HEADER_SIZE + h.payloadLength then InvalidLength
      else if h.payloadCrc != PayloadCrc(s[HEADER_SIZE..]) then PayloadCrcMismatch
      else Ok
  }

  // ----- canonicity -----

  lemma HeaderRoundTrip(h: Header, rest: seq<byte>)
    ensures HeaderOf(HeaderBytes(h) + rest) == h
  {
    hide FromLe, ToLe;
    var s := HeaderBytes(h) + rest;
    FieldWidths();
    FromToLe(h.sof, 2);
    FromToLe(h.message, 2);
    FromToLe(h.flags, 2);
    FromToLe(h.session, 4);
    FromToLe(h.sequence, 4);
    FromToLe(h.payloadLength, 2);
    FromToLe(h.payloadCrc, 4);
    assert s[0..2] == ToLe(h.sof, 2);
    assert s[4..6] == ToLe(h.message, 2);
    assert s[6..8] == ToLe(h.flags, 2);
    assert s[8..12] == ToLe(h.session, 4);
    assert s[12..16] == ToLe(h.sequence, 4);
    assert s[16..18] == ToLe(h.payloadLength, 2);
    assert s[18..22] == ToLe(h.payloadCrc, 4);
  }

  lemma HeaderBytesOf(s: seq<byte>)
    requires |s| >= HEADER_SIZE
    ensures HeaderBytes(HeaderOf(s)) == s[..HEADER_SIZE]
  {
    hide FromLe, ToLe;
    ToFromLe(s[0..2]);
    ToFromLe(s[4..6]);
    ToFromLe(s[6..8]);
    ToFromLe(s[8..12]);
    ToFromLe(s[12..16]);
    ToFromLe(s[16..18]);
    ToFromLe(s[18..22]);
    assert s[..HEADER_SIZE] == s[0..2] + s[2..4] + s[4..6] + s[6..8] + s[8..12] + s[12..16] + s[16..18] + s[18..22];
    assert s[2..4] == [s[2], s[3]];
  }

  /** Every built frame parses to the normalised header and the same payload. */
  lemma BuildThenParse(h: Header, payload: seq<byte>)
    requires |payload| <= MAX_PAYLOAD
    ensures var s := FrameBytes(h, payload);
            ParseStatus(s) == Ok && HeaderOf(s) == Normalised(h, payload) && s[HEADER_SIZE..] == payload
  {
    hide HeaderBytes, HeaderOf, Crc;
    HeaderRoundTrip(Normalised(h, payload), payload);
    assert FrameBytes(h, payload)[HEADER_SIZE..] == payload;
  }

  /** An accepted frame is, byte for byte, the one built from what was parsed, exactly when its minor version is 0. */
  lemma ParseThenBuild(s: seq<byte>)
    requires ParseStatus(s) == Ok
    ensures FrameBytes(HeaderOf(s), s[HEADER_SIZE..]) == s <==> HeaderOf(s).minor == MINOR
  {
    hide HeaderBytes, HeaderOf, Crc;
    var h, payload := HeaderOf(s), s[HEADER_SIZE..];
    HeaderBytesOf(s);
    assert s == s[..HEADER_SIZE] + payload;
    if h.minor != MINOR {
      HeaderRoundTrip(Normalised(h, payload), payload);
    }
  }

  /** A payload damaged anywhere within four adjacent bytes is not accepted. */
  lemma DamageRejected(s: seq<byte>, front: seq<byte>, a: seq<byte>, b: seq<byte>, back: seq<byte>)
    requires ParseStatus(s) == Ok && s[HEADER_SIZE..] == front + a + back
    requires |a| == |b| <= 4 && a != b
    ensures ParseStatus(s[..HEADER_SIZE] + (front + b + back)) == PayloadCrcMismatch
  {
    hide Crc, FromLe;
    var t := s[..HEADER_SIZE] + (front + b + back);
    HeaderAlone(s, t);
    assert t[HEADER_SIZE..] == front + b + back;
    if Crc(front + a + back) == Crc(front + b + back) {
      WindowChangesCrc(front, a, b, back);
    }
  }

  lemma HeaderAlone(s: seq<byte>, t: seq<byte>)
    requires |s| >= HEADER_SIZE && |t| >= HEADER_SIZE && s[..HEADER_SIZE] == t[..HEADER_SIZE]
    ensures HeaderOf(s) == HeaderOf(t)
  {
    HeaderBytesOf(s);
    HeaderRoundTrip(HeaderOf(s), t[HEADER_SIZE..]);
    assert HeaderBytes(HeaderOf(s)) + t[HEADER_SIZE..] == t;
  }

  // ----- the routines over buffers -----

  /** glcp_write_u16_le, glcp_write_u32_le and glcp_write_u64_le */
  method WriteLe(dst: array<byte>, at: nat, value: nat, width: nat)
    requires at + width <= dst.Length
    modifies dst
    ensures dst[..at + width] == old(dst[..at]) + ToLe(value, width)
    ensures forall i :: at + width <= i < dst.Length ==> dst[i] == old(dst[i])
  {
    var rest := value;
    ghost var front := dst[..at];
    for i := 0 to width
      invariant dst[..at + i] + ToLe(rest, width - i) == front + ToLe(value, width)
      invariant forall k :: at + i <= k < dst.Length ==> dst[k] == old(dst[k])
    {
      ghost var done := dst[..at + i];
      assert ToLe(rest, width - i) == [rest % 256] + ToLe(rest / 256, width - i - 1);
      dst[at + i] := rest % 256;
      rest := rest / 256;
      assert dst[..at + i + 1] == done + [dst[at + i]];
    }
  }

  /** What the builder answers, in the order of its checks. */
  function BuildStatus(header: Option<Header>, payload: array?<byte>, payloadLength: nat, out: array?<byte>): Status
  {
    if header.None? || out == null then InvalidArg
    else if payloadLength > MAX_PAYLOAD then PayloadTooLarge
    else if payloadLength > 0 && payload == null then InvalidArg
    else if out.Length < HEADER_SIZE + payloadLength then BufferTooSmall
    else Ok
  }

  method WriteHeader(h: Header, out: array<byte>)
    requires out.Length >= HEADER_SIZE
    modifies out
    ensures out[..HEADER_SIZE] == HeaderBytes(h)
    ensures forall i :: HEADER_SIZE <= i < out.Length ==> out[i] == old(out[i])
  {
    hide ToLe;
    WriteLe(out, 0, h.sof, 2);
    out[2] := h.major;
    out[3] := h.minor;
    assert out[..4] == ToLe(h.sof, 2) + [h.major, h.minor];
    WriteLe(out, 4, h.message, 2);
    WriteLe(out, 6, h.flags, 2);
    WriteLe(out, 8, h.session, 4);
    WriteLe(out, 12, h.sequence, 4);
    WriteLe(out, 16, h.payloadLength, 2);
    WriteLe(out, 18, h.payloadCrc, 4);
  }

  method BuildFrame(header: Option<Header>, payload: array?<byte>, payloadLength: nat, out: array?<byte>)
    returns (status: Status, frameLength: nat)
    requires payload != null ==> payloadLength <= payload.Length && payload != out
    modifies if out == null then {} else {out}
    ensures status == BuildStatus(header, payload, payloadLength, out)
    ensures status != Ok && out != null ==> out[..] == old(out[..])
    ensures status == Ok ==> frameLength == HEADER_SIZE + payloadLength
    ensures status == Ok ==>
              out[..frameLength] == FrameBytes(header.value, if payload == null then [] else payload[..payloadLength])
    ensures status == Ok ==> out[frameLength..] == old(out[frameLength..])
  {
    hide Crc, HeaderBytes;
    frameLength := HEADER_SIZE + payloadLength;
    if header.None? || out == null {
      return InvalidArg, 0;
    }
    if payloadLength > MAX_PAYLOAD {
      return PayloadTooLarge, 0;
    }
    if payloadLength > 0 && payload == null {
      return InvalidArg, 0;
    }
    if out.Length < frameLength {
      return BufferTooSmall, 0;
    }
    var crc: word32 := 0;
    if payloadLength > 0 {
      crc := ComputeCrc(payload, 0, payloadLength);
    }
    var h := header.value.(
      sof := WIRE_SOF, major := MAJOR, minor := MINOR, payloadLength := payloadLength, payloadCrc := crc);
    WriteHeader(h, out);
    ghost var bytes := if payload == null then [] else payload[..payloadLength];
    assert out[frameLength..] == old(out[frameLength..]);
    if payloadLength > 0 {
      CopyIn(payload, payloadLength, out);
    }
    assert out[HEADER_SIZE..frameLength] == bytes;
    assert out[..frameLength] == out[..HEADER_SIZE] + out[HEADER_SIZE..frameLength];
    status := Ok;
  }

  method CopyIn(payload: array<byte>, length: nat, out: array<byte>)
    requires payload != out && length <= payload.Length && HEADER_SIZE + length <= out.Length
    modifies out
    ensures out[..HEADER_SIZE] == old(out[..HEADER_SIZE])
    ensures out[HEADER_SIZE..HEADER_SIZE + length] == payload[..length]
    ensures out[HEADER_SIZE + length..] == old(out[HEADER_SIZE + length..])
  {
    forall i | 0 <= i < length {
      out[HEADER_SIZE + i] := payload[i];
    }
  }

  method ParseFrame(frame: array?<byte>, length: nat) returns (status: Status, header: Option<Header>)
    requires frame != null ==> length <= frame.Length
    ensures frame == null ==> status == InvalidArg
    ensures frame != null ==> status == ParseStatus(frame[..length])
    ensures status == Ok ==> header == Some(HeaderOf(frame[..length]))
    ensures status != Ok ==> header == None
  {
    hide Crc, FromLe;
    header := None;
    if frame == null {
      return InvalidArg, None;
    }
    if length < HEADER_SIZE {
      return InvalidLength, None;
    }
    var s := frame[..length];
    var h := HeaderOf(s);
    if h.sof != WIRE_SOF {
      return InvalidSof, None;
    }
    if h.major != MAJOR {
      return UnsupportedVersion, None;
    }
    if h.payloadLength > MAX_PAYLOAD {
      return PayloadTooLarge, None;
    }
    if length != HEADER_SIZE + h.payloadLength {
      return InvalidLength, None;
    }
    if h.payloadLength > 0 {
      var computed := ComputeCrc(frame, HEADER_SIZE, h.payloadLength);
      assert frame[HEADER_SIZE..HEADER_SIZE + h.payloadLength] == s[HEADER_SIZE..];
      if computed != h.payloadCrc {
        return PayloadCrcMismatch, None;
      }
    } else if h.payloadCrc != 0 {
      return PayloadCrcMismatch, None;
    }
    return Ok, Some(h);
  }

  // ----- hello -----

  const HELLO_FIXED_SIZE := 20

  datatype Hello = Hello(
    maxFrameSize: u16,
    heartbeatMs: u16,
    buildId: word32,
    capabilities: u64,
    majorMin: byte,
    majorMax: byte,
    hashCount: u16)

  function HashBytes(hashes: seq<u64>): (s: seq<byte>)
    ensures |s| == 8 * |hashes|
  {
    if hashes == [] then [] else HashBytes(hashes[..|hashes| - 1]) + ToLe(hashes[|hashes| - 1], 8)
  }

  function HashesOf(s: seq<byte>, count: nat): (hashes: seq<u64>)
    requires |s| == 8 * count
    ensures |hashes| == count
  {
    if count == 0 then [] else HashesOf(s[..8 * (count - 1)], count - 1) + [U64At(s, 8 * (count - 1))]
  }

  function HelloFixed(h: Hello, count: u16): (s: seq<byte>)
    ensures |s| == HELLO_FIXED_SIZE
  {
    ToLe(h.maxFrameSize, 2) + ToLe(h.heartbeatMs, 2) + ToLe(h.buildId, 4) + ToLe(h.capabilities, 8)
    + [h.majorMin, h.majorMax] + ToLe(count, 2)
  }

  function HelloBytes(h: Hello, hashes: seq<u64>): (s: seq<byte>)
    requires |hashes| < 0x1_0000
    ensures |s| == HELLO_FIXED_SIZE + 8 * |hashes|
  {
    HelloFixed(h, |hashes|) + HashBytes(hashes)
  }

  function HelloOf(s: seq<byte>): (h: Hello)
    requires |s| >= HELLO_FIXED_SIZE
  {
    Hello(U16At(s, 0), U16At(s, 2), U32At(s, 4), U64At(s, 8), s[16], s[17], U16At(s, 18))
  }

  function HelloStatus(s: seq<byte>, capacity: nat): Status {
    if |s| < HELLO_FIXED_SIZE then InvalidLength
    else if |s| != HELLO_FIXED_SIZE + 8 * HelloOf(s).hashCount then InvalidLength
    else if HelloOf(s).hashCount > capacity then BufferTooSmall
    else Ok
  }

  lemma HelloFixedRoundTrip(h: Hello, count: u16, rest: seq<byte>)
    ensures HelloOf(HelloFixed(h, count) + rest) == h.(hashCount := count)
  {
    hide FromLe, ToLe;
    var s := HelloFixed(h, count) + rest;
    FieldWidths();
    FromToLe(h.maxFrameSize, 2);
    FromToLe(h.heartbeatMs, 2);
    FromToLe(h.buildId, 4);
    FromToLe(h.capabilities, 8);
    FromToLe(count, 2);
    assert s[0..2] == ToLe(h.maxFrameSize, 2);
    assert s[2..4] == ToLe(h.heartbeatMs, 2);
    assert s[4..8] == ToLe(h.buildId, 4);
    assert s[8..16] == ToLe(h.capabilities, 8);
    assert s[18..20] == ToLe(count, 2);
  }

  lemma HelloFixedOf(s: seq<byte>)
    requires |s| >= HELLO_FIXED_SIZE
    ensures HelloFixed(HelloOf(s), HelloOf(s).hashCount) == s[..HELLO_FIXED_SIZE]
  {
    hide FromLe, ToLe;
    ToFromLe(s[0..2]);
    ToFromLe(s[2..4]);
    ToFromLe(s[4..8]);
    ToFromLe(s[8..16]);
    ToFromLe(s[18..20]);
    assert s[..HELLO_FIXED_SIZE] == s[0..2] + s[2..4] + s[4..8] + s[8..16] + s[16..18] + s[18..20];
    assert s[16..18] == [s[16], s[17]];
  }

  lemma {:induction false} HashesRoundTrip(hashes: seq<u64>)
    ensures HashesOf(HashBytes(hashes), |hashes|) == hashes
  {
    hide FromLe, ToLe;
    if hashes != [] {
      var n := |hashes| - 1;
      var s := HashBytes(hashes);
      HashesRoundTrip(hashes[..n]);
      assert s[..8 * n] == HashBytes(hashes[..n]);
      FieldWidths();
      FromToLe(hashes[n], 8);
      assert s[8 * n..8 * n + 8] == ToLe(hashes[n], 8);
    }
  }

  lemma {:induction false} HashBytesOf(s: seq<byte>, count: nat)
    requires |s| == 8 * count
    ensures HashBytes(HashesOf(s, count)) == s
  {
    hide FromLe, ToLe;
    if count > 0 {
      var n := 8 * (count - 1);
      HashBytesOf(s[..n], count - 1);
      var hashes := HashesOf(s, count);
      assert hashes[..count - 1] == HashesOf(s[..n], count - 1);
      ToFromLe(s[n..n + 8]);
      assert s == s[..n] + s[n..n + 8];
    }
  }

  /** Any hello payload that is accepted re-encodes to the same bytes. */
  lemma HelloReencodes(s: seq<byte>, capacity: nat)
    requires HelloStatus(s, capacity) == Ok
    ensures HelloBytes(HelloOf(s), HashesOf(s[HELLO_FIXED_SIZE..], HelloOf(s).hashCount)) == s
  {
    hide HelloFixed, HashBytes, HashesOf, FromLe;
    HelloFixedOf(s);
    HashBytesOf(s[HELLO_FIXED_SIZE..], HelloOf(s).hashCount);
  }

  /** What is encoded decodes to the same hello and hashes, into any list with room for them. */
  lemma HelloRoundTrip(h: Hello, hashes: seq<u64>, capacity: nat)
    requires |hashes| < 0x1_0000 && |hashes| <= capacity
    ensures var s := HelloBytes(h, hashes);
            && HelloStatus(s, capacity) == Ok
            && HelloOf(s) == h.(hashCount := |hashes|)
            && HashesOf(s[HELLO_FIXED_SIZE..], |hashes|) == hashes
  {
    hide HelloFixed, HashBytes, HashesOf, HelloOf;
    HelloFixedRoundTrip(h, |hashes|, HashBytes(hashes));
    HashesRoundTrip(hashes);
    assert HelloBytes(h, hashes)[HELLO_FIXED_SIZE..] == HashBytes(hashes);
  }

  // ----- the hello routines over buffers -----

  method EncodeHello(hello: Option<Hello>, hashes: array?<u64>, count: nat, out: array?<byte>)
    returns (status: Status, length: nat)
    requires hashes != null ==> count <= hashes.Length
    modifies if out == null then {} else {out}
    ensures status != Ok ==> status in {InvalidArg, BufferTooSmall} && (out != null ==> out[..] == old(out[..]))
    ensures status == InvalidArg <==> hello.None? || out == null || count >= 0x1_0000 || (count > 0 && hashes == null)
    ensures status == BufferTooSmall ==> out.Length < HELLO_FIXED_SIZE + 8 * count
    ensures status == Ok ==> length == HELLO_FIXED_SIZE + 8 * count <= out.Length
    ensures status == Ok ==>
              out[..length] == HelloBytes(hello.value, if hashes == null then [] else hashes[..count])
    ensures status == Ok ==> out[length..] == old(out[length..])
  {
    hide ToLe, HelloFixed;
    if hello.None? || out == null || count >= 0x1_0000 || (count > 0 && hashes == null) {
      return InvalidArg, 0;
    }
    length := HELLO_FIXED_SIZE + 8 * count;
    if out.Length < length {
      return BufferTooSmall, 0;
    }
    WriteHelloFixed(hello.value, count, out);
    ghost var list := if hashes == null then [] else hashes[..count];
    ghost var before := old(out[..]);
    for i := 0 to count
      invariant out[..HELLO_FIXED_SIZE + 8 * i] == HelloFixed(hello.value, count) + HashBytes(list[..i])
      invariant forall k :: HELLO_FIXED_SIZE + 8 * i <= k < out.Length ==> out[k] == before[k]
    {
      var at := HELLO_FIXED_SIZE + 8 * i;
      WriteLe(out, at, hashes[i], 8);
      assert list[..i + 1][..i] == list[..i];
    }
    assert list[..count] == list;
    assert out[length..] == before[length..];
    status := Ok;
  }

  method WriteHelloFixed(h: Hello, count: u16, out: array<byte>)
    requires out.Length >= HELLO_FIXED_SIZE
    modifies out
    ensures out[..HELLO_FIXED_SIZE] == HelloFixed(h, count)
    ensures forall i :: HELLO_FIXED_SIZE <= i < out.Length ==> out[i] == old(out[i])
  {
    hide ToLe;
    WriteLe(out, 0, h.maxFrameSize, 2);
    WriteLe(out, 2, h.heartbeatMs, 2);
    WriteLe(out, 4, h.buildId, 4);
    WriteLe(out, 8, h.capabilities, 8);
    ghost var start := out[..16];
    out[16] := h.majorMin;
    out[17] := h.majorMax;
    assert out[..18] == start + [h.majorMin, h.majorMax];
    WriteLe(out, 18, count, 2);
  }

  /**
   The hello is stored as soon as its fixed part can be read, even when a later check fails; the
   hashes only on success.
   */
  method DecodeHello(payload: array?<byte>, length: nat, hashes: array?<u64>) returns (status: Status, hello: Option<Hello>)
    requires payload != null ==> length <= payload.Length
    modifies if hashes == null then {} else {hashes}
    ensures payload == null ==> status == InvalidArg && hello.None?
    ensures payload != null ==> status == HelloStatus(payload[..length], if hashes == null then 0 else hashes.Length)
    ensures payload != null ==>
              hello == if length < HELLO_FIXED_SIZE then None else Some(HelloOf(payload[..length]))
    ensures status == Ok ==>
              var list := HashesOf(payload[HELLO_FIXED_SIZE..length], hello.value.hashCount);
              hashes != null ==> hashes[..] == list + old(hashes[|list|..])
    ensures status != Ok && hashes != null ==> hashes[..] == old(hashes[..])
  {
    hide HelloOf, U64At;
    if payload == null {
      return InvalidArg, None;
    }
    if length < HELLO_FIXED_SIZE {
      return InvalidLength, None;
    }
    var s := payload[..length];
    hello := Some(HelloOf(s));
    var count := hello.value.hashCount;
    if length != HELLO_FIXED_SIZE + 8 * (count as int) {
      return InvalidLength, hello;
    }
    var tail := s[HELLO_FIXED_SIZE..];
    assert tail == payload[HELLO_FIXED_SIZE..length];
    if count > 0 {
      if hashes == null || hashes.Length < count {
        return BufferTooSmall, hello;
      }
      for i := 0 to count
        invariant hashes[..i] == HashesOf(tail[..8 * i], i)
        invariant forall k :: i <= k < hashes.Length ==> hashes[k] == old(hashes[k])
      {
        ghost var done := hashes[..i];
        assert tail[..8 * (i + 1)][..8 * i] == tail[..8 * i];
        HashAt(tail, i);
        hashes[i] := U64At(tail, 8 * i);
        assert hashes[..i + 1] == done + [hashes[i]];
      }
      assert tail[..8 * count] == tail;
    }
    assert hashes != null ==> hashes[..] == hashes[..count] + hashes[count..];
    assert hashes != null ==> hashes[count..] == old(hashes[count..]);
    status := Ok;
  }

  lemma HashAt(s: seq<byte>, i: nat)
    requires 8 * (i + 1) <= |s|
    ensures U64At(s[..8 * (i + 1)], 8 * i) == U64At(s, 8 * i)
  {
    assert s[..8 * (i + 1)][8 * i..8 * i + 8] == s[8 * i..8 * i + 8];
  }

  const HELLO_HASH_LIMIT := 285

  /** Encode, build, parse, decode: the hello and its hashes come out as they went in. */
  ghost predicate Carried(header: Header, h: Hello, hashes: seq<u64>)
    requires |hashes| < 0x1_0000
  {
    var payload := HelloBytes(h, hashes);
    && |payload| <= MAX_PAYLOAD
    && var s := FrameBytes(header, payload);
       && ParseStatus(s) == Ok
       && HeaderOf(s).message == header.message
       && HelloStatus(s[HEADER_SIZE..], |hashes|) == Ok
       && HelloOf(s[HEADER_SIZE..]) == h.(hashCount := |hashes|)
       && HashesOf(s[HEADER_SIZE..][HELLO_FIXED_SIZE..], |hashes|) == hashes
  }

  /** A hello goes through a frame exactly when it lists at most 285 schema hashes. */
  lemma HelloThroughFrame(header: Header, h: Hello, hashes: seq<u64>)
    requires |hashes| < 0x1_0000
    ensures Carried(header, h, hashes) <==> |hashes| <= HELLO_HASH_LIMIT
  {
    hide HeaderOf, HeaderBytes, HelloOf, HelloFixed, HashBytes, HashesOf, Crc;
    var payload := HelloBytes(h, hashes);
    if |payload| <= MAX_PAYLOAD {
      BuildThenParse(header, payload);
      HelloRoundTrip(h, hashes, |hashes|);
    }
  }

  // ----- schema selection -----

  /** The server's order decides: the first of its schemas the peer also knows. */
  method SelectSchemaHash(server: array?<u64>, peer: array?<u64>) returns (status: Status, selected: Option<u64>)
    ensures status == InvalidArg <==> server == null || peer == null
    ensures status in {InvalidArg, NoCommonSchema, Ok} && (selected.Some? <==> status == Ok)
    ensures status == Ok ==>
              exists i :: 0 <= i < server.Length && selected == Some(server[i]) && server[i] in peer[..]
                          && forall k :: 0 <= k < i ==> server[k] !in peer[..]
    ensures status == NoCommonSchema ==> forall k :: 0 <= k < server.Length ==> server[k] !in peer[..]
  {
    if server == null || peer == null {
      return InvalidArg, None;
    }
    if server.Length == 0 || peer.Length == 0 {
      return NoCommonSchema, None;
    }
    for s := 0 to server.Length
      invariant forall k :: 0 <= k < s ==> server[k] !in peer[..]
    {
      for p := 0 to peer.Length
        invariant server[s] !in peer[..p]
      {
        if server[s] == peer[p] {
          return Ok, Some(server[s]);
        }
        assert peer[..p + 1] == peer[..p] + [peer[p]];
      }
      assert peer[..peer.Length] == peer[..];
    }
    return NoCommonSchema, None;
  }
}
