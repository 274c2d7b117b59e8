/** The host's frame codec: encoding, and decoding from a growing byte buffer. */
module PythonCodec {
  import opened Bytes
  import opened Crc16
  import opened Frames

  datatype Result<T, E> = Ok(value: T) | Err(error: E)

  datatype DecodeError = CrcMismatch(expected: nat, actual: nat) | UnsupportedKind(kind: int)

  /** The bytes of a frame; an integer that does not fit its field raises instead. */
  function EncodeFrame(f: Frame): (r: Result<seq<byte>, string>)
    ensures r.Ok? <==> InRange(f)
    ensures r.Ok? ==> WellFormed(r.value) && Fields(r.value) == f
  {
    if InRange(f) then EncodeThenFields(f); Ok(Encode(f)) else Err("int too big to convert")
  }

  /**
   What one call over buffer contents s does: the frames completed, the contents left,
   and the error raised, if one is. Frames completed before an error are lost to the caller.
   */
  datatype Run = Run(frames: seq<Frame>, rest: seq<byte>, raised: seq<DecodeError>)

  function Prepend(fs: seq<Frame>, r: Run): Run {
    r.(frames := fs + r.frames)
  }

  /** One turn of the decoding loop. */
  datatype Turn = Stop(rest: seq<byte>) | Raise(error: DecodeError, rest: seq<byte>) | Take(frame: Frame, rest: seq<byte>)

  /** A turn on a buffer that begins with the start-of-frame pair. */
  function TurnAtSof(t: seq<byte>): (turn: Turn)
    requires StartsWithSof(t)
    ensures turn.Take? ==> |turn.rest| + OVERHEAD <= |t|
    ensures |turn.rest| <= |t|
  {
    if |t| < OVERHEAD || |t| < AnnouncedLength(t) then Stop(t)
    else
      var n := AnnouncedLength(t);
      if !CrcMatches(t[..n]) then Raise(CrcMismatch(FromLe(t[n - 2..n]), Crc(t[..n - 2])), t[2..])
      else if !KnownKind(t[2]) then Raise(UnsupportedKind(t[2]), t[n..])
      else Take(Fields(t[..n]), t[n..])
  }

  function FirstTurn(s: seq<byte>): (turn: Turn)
    ensures turn.Take? ==> |turn.rest| + OVERHEAD <= |s|
    ensures |turn.rest| <= |s|
  {
    var i := FindSof(s);
    if i < 0 then Stop([]) else TurnAtSof(s[i..])
  }

  function Decode(s: seq<byte>): (r: Run)
    ensures |r.raised| <= 1
    ensures |r.rest| <= |s|
    decreases |s|
  {
    match FirstTurn(s)
    case Stop(rest) => Run([], rest, [])
    case Raise(error, rest) => Run([], rest, [error])
    case Take(frame, rest) => Prepend([frame], Decode(rest))
  }

  /** The bytearray the caller keeps. */
  class ByteBuffer {
    var data: seq<byte>

    constructor ()
      ensures data == []
    {
      data := [];
    }

    method Extend(chunk: seq<byte>)
      modifies this
      ensures data == old(data) + chunk
    {
      data := data + chunk;
    }
  }

  method DecodeFrames(buffer: ByteBuffer) returns (r: Result<seq<Frame>, DecodeError>)
    modifies buffer
    ensures buffer.data == Decode(old(buffer.data)).rest
    ensures r == Outcome(Decode(old(buffer.data)))
  {
    hide Crc, Decode, FromLe;
    var frames: seq<Frame> := [];
    while true
      invariant Decode(old(buffer.data)) == Prepend(frames, Decode(buffer.data))
      decreases |buffer.data|
    {
      ghost var turn := FirstTurn(buffer.data);
      DecodeTurn(frames, buffer.data);
      var sofIndex := FindSof(buffer.data);
      if sofIndex < 0 {
        buffer.data := [];
        return Ok(frames);
      }
      if sofIndex > 0 {
        buffer.data := buffer.data[sofIndex..];
      }
      assert turn == TurnAtSof(buffer.data);
      if |buffer.data| < HEADER_SIZE + CRC_SIZE {
        assert turn == Stop(buffer.data);
        return Ok(frames);
      }
      var payloadLength := FromLe(buffer.data[3..5]);
      var totalLength := HEADER_SIZE + payloadLength + CRC_SIZE;
      if |buffer.data| < totalLength {
        assert turn == Stop(buffer.data);
        return Ok(frames);
      }
      var packet := buffer.data[..totalLength];
      var expectedCrc := FromLe(packet[|packet| - 2..]);
      var actualCrc := ComputeCrc(packet[..|packet| - 2]);
      PacketSlices(buffer.data, totalLength);
      if expectedCrc != actualCrc {
        buffer.data := buffer.data[2..];
        assert turn == Raise(CrcMismatch(expectedCrc, actualCrc), buffer.data);
        return Err(CrcMismatch(expectedCrc, actualCrc));
      }
      if !KnownKind(packet[2]) {
        buffer.data := buffer.data[totalLength..];
        assert turn == Raise(UnsupportedKind(packet[2]), buffer.data);
        return Err(UnsupportedKind(packet[2]));
      }
      frames := frames + [Fields(packet)];
      buffer.data := buffer.data[totalLength..];
      assert turn == Take(Fields(packet), buffer.data);
    }
  }

  /** What the caller sees of a run. */
  function Outcome(run: Run): Result<seq<Frame>, DecodeError> {
    if run.raised == [] then Ok(run.frames) else Err(run.raised[0])
  }

  lemma DecodeTurn(fs: seq<Frame>, s: seq<byte>)
    ensures match FirstTurn(s)
            case Stop(rest) => Prepend(fs, Decode(s)) == Run(fs, rest, [])
            case Raise(error, rest) => Prepend(fs, Decode(s)) == Run(fs, rest, [error])
            case Take(frame, rest) => Prepend(fs, Decode(s)) == Prepend(fs + [frame], Decode(rest))
  {
    assert fs + [] == fs;
    if FirstTurn(s).Take? {
      PrependTwice(fs, [FirstTurn(s).frame], Decode(FirstTurn(s).rest));
    }
  }

  lemma PacketSlices(t: seq<byte>, n: nat)
    requires OVERHEAD <= n <= |t|
    ensures t[..n][n - 2..] == t[n - 2..n] && t[..n][..n - 2] == t[..n - 2]
  {
  }

  lemma PrependTwice(fs: seq<Frame>, gs: seq<Frame>, r: Run)
    ensures Prepend(fs, Prepend(gs, r)) == Prepend(fs + gs, r)
  {
    assert fs + (gs + r.frames) == fs + gs + r.frames;
  }
}
