/** The portable C++ codec: encoding, decoding one frame from a vector, and the C entry points. */
module NativeCodec {
  import opened Options
  import opened Bytes
  import opened Crc16
  import opened Frames
  import PythonCodec

  datatype DecodeStatus = Ok | NeedMoreData | CrcMismatch | UnsupportedMessageType

  /** The effect of one decode call: its status, the frame delivered, and the buffer left. */
  datatype One = One(status: DecodeStatus, frame: Option<Frame>, rest: seq<byte>)

  function DecodeOne(s: seq<byte>): (r: One)
    ensures r.status.Ok? <==> r.frame.Some?
    ensures r.status.Ok? ==> |r.rest| + OVERHEAD <= |s|
  {
    var at := FindSof(s);
    if at == -1 then One(NeedMoreData, None, [])
    else
      var t := s[at..];
      if |t| < OVERHEAD then One(NeedMoreData, None, t)
      else
        var total := AnnouncedLength(t);
        if |t| < total then One(NeedMoreData, None, t)
        else if FromLe(t[total - 2..total]) != Crc(t[..total - 2]) then One(CrcMismatch, None, t[2..])
        else if !KnownKind(t[2]) then One(UnsupportedMessageType, None, t[total..])
        else One(Ok, Some(Fields(t[..total])), t[total..])
  }

  method EncodeFrame(f: Frame) returns (output: array<byte>)
    requires FieldsFit(f)
    ensures fresh(output)
    ensures output[..] == Encode(f)
  {
    hide Crc, Encode, Body, HeaderBytes;
    var n := |f.payload|;
    output := new byte[HEADER_SIZE + n + CRC_SIZE];
    WriteHeader(f, output);
    forall i | 0 <= i < n {
      output[HEADER_SIZE + i] := f.payload[i];
    }
    assert output[..HEADER_SIZE + n] == HeaderBytes(f) + f.payload;
    BodyBytes(f);
    var crc := ComputeCrc(output[..output.Length - CRC_SIZE]);
    output[output.Length - 2] := crc % 0x100;
    output[output.Length - 1] := crc / 0x100 % 0x100;
    assert output[..] == Body(f) + [crc % 0x100, crc / 0x100 % 0x100];
    EncodeBytes(f);
  }

  method WriteHeader(f: Frame, output: array<byte>)
    requires FieldsFit(f) && output.Length >= HEADER_SIZE
    modifies output
    ensures output[..HEADER_SIZE] == HeaderBytes(f)
  {
    var n := |f.payload|;
    output[0] := SOF0;
    output[1] := SOF1;
    output[2] := f.kind;
    output[3] := n % 0x100;
    output[4] := n / 0x100 % 0x100;
    output[5] := f.host % 0x100;
    output[6] := f.host / 0x100 % 0x100;
    output[7] := f.host / 0x1_0000 % 0x100;
    output[8] := f.host / 0x100_0000 % 0x100;
    output[9] := f.device % 0x100;
    output[10] := f.device / 0x100 % 0x100;
    output[11] := f.device / 0x1_0000 % 0x100;
    output[12] := f.device / 0x100_0000 % 0x100;
    output[13] := f.sequence % 0x100;
    output[14] := f.sequence / 0x100 % 0x100;
  }

  /** The fifteen header bytes as the shift-and-mask expressions give them. */
  function HeaderBytes(f: Frame): (s: seq<byte>)
    requires FieldsFit(f)
    ensures |s| == HEADER_SIZE
  {
    var n := |f.payload|;
    [SOF0, SOF1, f.kind, n % 0x100, n / 0x100 % 0x100,
     f.host % 0x100, f.host / 0x100 % 0x100, f.host / 0x1_0000 % 0x100, f.host / 0x100_0000 % 0x100,
     f.device % 0x100, f.device / 0x100 % 0x100, f.device / 0x1_0000 % 0x100, f.device / 0x100_0000 % 0x100,
     f.sequence % 0x100, f.sequence / 0x100 % 0x100]
  }

  lemma BodyBytes(f: Frame)
    requires FieldsFit(f)
    ensures Body(f) == HeaderBytes(f) + f.payload
  {
    hide ToLe;
    ToLe2(|f.payload|);
    ToLe4(f.host);
    ToLe4(f.device);
    ToLe2(f.sequence);
  }

  lemma EncodeBytes(f: Frame)
    requires FieldsFit(f)
    ensures Encode(f) == Body(f) + [Crc(Body(f)) % 0x100, Crc(Body(f)) / 0x100 % 0x100]
  {
    hide ToLe, Crc, Body;
    ToLe2(Crc(Body(f)));
  }

  /** A std::vector of bytes. */
  class ByteVector {
    var data: seq<byte>

    constructor (contents: seq<byte>)
      ensures data == contents
    {
      data := contents;
    }
  }

  method DecodeOneFrame(buffer: ByteVector) returns (status: DecodeStatus, out: Option<Frame>)
    modifies buffer
    ensures One(status, out, buffer.data) == DecodeOne(old(buffer.data))
  {
    hide Crc, FromLe, Fields, AnnouncedLength;
    ghost var before := buffer.data;
    var sofPos := FindSof(buffer.data);
    if sofPos == -1 {
      buffer.data := [];
      return NeedMoreData, None;
    }
    if sofPos != 0 {
      buffer.data := buffer.data[sofPos..];
    }
    assert buffer.data == before[sofPos..];
    if |buffer.data| < HEADER_SIZE + CRC_SIZE {
      return NeedMoreData, None;
    }
    var b := buffer.data;
    var payloadLength: nat := b[3] as int + 0x100 * (b[4] as int);
    var total := HEADER_SIZE + payloadLength + CRC_SIZE;
    Announced(b);
    if |b| < total {
      return NeedMoreData, None;
    }
    var expected: nat := b[total - 2] as int + 0x100 * (b[total - 1] as int);
    FromLe2(b[total - 2..total]);
    var actual := ComputeCrc(b[..total - CRC_SIZE]);
    if expected != actual {
      buffer.data := b[2..];
      return CrcMismatch, None;
    }
    if b[2] < 1 || b[2] > 8 {
      buffer.data := b[total..];
      return UnsupportedMessageType, None;
    }
    FromLe4(b[5..9]);
    FromLe4(b[9..13]);
    FromLe2(b[13..15]);
    var frame := Frame(
      b[2],
      b[5] as int + 0x100 * (b[6] as int) + 0x1_0000 * (b[7] as int) + 0x100_0000 * (b[8] as int),
      b[9] as int + 0x100 * (b[10] as int) + 0x1_0000 * (b[11] as int) + 0x100_0000 * (b[12] as int),
      b[13] as int + 0x100 * (b[14] as int),
      b[HEADER_SIZE..total - CRC_SIZE]);
    FieldsInPlace(b, total);
    assert frame == Fields(b[..total]);
    buffer.data := b[total..];
    return Ok, Some(frame);
  }

  lemma Announced(b: seq<byte>)
    requires |b| >= HEADER_SIZE
    ensures AnnouncedLength(b) == OVERHEAD + b[3] as int + 0x100 * (b[4] as int)
  {
    FromLe2(b[3..5]);
  }

  lemma FieldsInPlace(b: seq<byte>, n: nat)
    requires OVERHEAD <= n <= |b|
    ensures Fields(b[..n])
         == Frame(b[2], FromLe(b[5..9]), FromLe(b[9..13]), FromLe(b[13..15]), b[HEADER_SIZE..n - CRC_SIZE])
  {
    hide FromLe;
    assert b[..n][5..9] == b[5..9] && b[..n][9..13] == b[9..13] && b[..n][13..15] == b[13..15];
    assert b[..n][15..n - 2] == b[15..n - 2];
  }

  /**
   The C entry point: decodes from the first `length` bytes of `io`, moves what is left to the
   front, and delivers the payload into the caller's array. A frame whose payload does not fit
   that array has been consumed by then: it is lost, and the status does not say so.
   */
  method SiDecodeOneFrame(io: array?<byte>, length: nat, payloadOut: array?<byte>, capacity: nat)
    returns (status: DecodeStatus, newLength: nat, out: Option<Frame>)
    requires io != null ==> length <= io.Length
    requires payloadOut != null ==> capacity <= payloadOut.Length && payloadOut != io
    modifies io, payloadOut
    ensures io == null ==> status == NeedMoreData && newLength == length && out == None
    ensures io != null ==>
              var one := DecodeOne(old(io[..length]));
              && newLength <= length
              && io[..newLength] == one.rest
              && io[newLength..] == old(io[..])[newLength..]
              && (out.Some? <==> one.status.Ok? && payloadOut != null && |one.frame.value.payload| <= capacity)
              && (out.Some? ==> status == Ok && out == one.frame
                                && payloadOut[..|out.value.payload|] == out.value.payload)
              && (out.None? ==> status == if one.status.Ok? then NeedMoreData else one.status)
  {
    hide DecodeOne;
    if io == null {
      return NeedMoreData, length, None;
    }
    ghost var before := io[..];
    ghost var one := DecodeOne(io[..length]);
    var buffer := new ByteVector(io[..length]);
    var frame;
    status, frame := DecodeOneFrame(buffer);
    RestIsShort(io[..length]);
    newLength := |buffer.data|;
    forall i | 0 <= i < newLength {
      io[i] := buffer.data[i];
    }
    assert io[..newLength] == one.rest && io[newLength..] == before[newLength..];
    if status != Ok {
      return status, newLength, None;
    }
    if payloadOut == null || |frame.value.payload| > capacity {
      return NeedMoreData, newLength, None;
    }
    forall i | 0 <= i < |frame.value.payload| {
      payloadOut[i] := frame.value.payload[i];
    }
    out := frame;
  }

  lemma RestIsShort(s: seq<byte>)
    ensures |DecodeOne(s).rest| <= |s|
  {
  }

  // ----- against the host's decoder -----

  /** Decode calls one after another until one does not deliver a frame. */
  datatype Many = Many(frames: seq<Frame>, status: DecodeStatus, rest: seq<byte>)

  function DecodeMany(s: seq<byte>): (r: Many)
    ensures !r.status.Ok?
    decreases |s|
  {
    var one := DecodeOne(s);
    if one.status.Ok? then
      var more := DecodeMany(one.rest);
      more.(frames := [one.frame.value] + more.frames)
    else Many([], one.status, one.rest)
  }

  /** The status that stands for what the host's decoder raised. */
  function StatusOf(raised: seq<PythonCodec.DecodeError>): DecodeStatus {
    if raised == [] then NeedMoreData
    else match raised[0]
      case CrcMismatch(_, _) => CrcMismatch
      case UnsupportedKind(_) => UnsupportedMessageType
  }

  lemma OneTurn(s: seq<byte>)
    ensures match PythonCodec.FirstTurn(s)
            case Stop(rest) => DecodeOne(s) == One(NeedMoreData, None, rest)
            case Raise(error, rest) => DecodeOne(s) == One(StatusOf([error]), None, rest)
            case Take(frame, rest) => DecodeOne(s) == One(Ok, Some(frame), rest)
  {
    hide Crc, FromLe, FindSof;
    var at := FindSof(s);
    if at != -1 && |s[at..]| >= OVERHEAD && |s[at..]| >= AnnouncedLength(s[at..]) {
      PythonCodec.PacketSlices(s[at..], AnnouncedLength(s[at..]));
    }
  }

  /**
   The native decoder called until it stops and one call of the host's decoder deliver the same
   frames, stop for the same reason and leave the same bytes, whatever the buffer holds. Where
   the reason is an error the host's caller never sees those frames.
   */
  lemma {:induction false} NativeIsPython(s: seq<byte>)
    ensures var native, host := DecodeMany(s), PythonCodec.Decode(s);
            && native.frames == host.frames
            && native.rest == host.rest
            && native.status == StatusOf(host.raised)
            && (native.status == NeedMoreData <==> PythonCodec.Outcome(host) == PythonCodec.Ok(native.frames))
    decreases |s|
  {
    OneTurn(s);
    if DecodeOne(s).status.Ok? {
      NativeIsPython(DecodeOne(s).rest);
    }
  }
}
