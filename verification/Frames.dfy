/** The link frame: layout, fields, and search for the start-of-frame pair. */
module Frames {
  import opened Bytes
  import opened Crc16

  const SOF0: byte := 0xA5
  const SOF1: byte := 0x5A
  const HEADER_SIZE := 15
  const CRC_SIZE := 2
  const OVERHEAD := 17

  /** One frame. The kind is the raw type byte; the known message types are 1 to 8. */
  datatype Frame = Frame(kind: int, host: int, device: int, sequence: int, payload: seq<byte>)

  predicate KnownKind(kind: int) {
    1 <= kind <= 8
  }

  /** The fixed-width fields fit the wire; the payload may still be too long. */
  predicate FieldsFit(f: Frame) {
    && 0 <= f.kind < 0x100
    && 0 <= f.host < 0x1_0000_0000
    && 0 <= f.device < 0x1_0000_0000
    && 0 <= f.sequence < 0x1_0000
  }

  predicate InRange(f: Frame) {
    FieldsFit(f) && |f.payload| < 0x1_0000
  }

  /** Everything before the checksum. The length field keeps the low 16 bits. */
  function Body(f: Frame): (s: seq<byte>)
    requires FieldsFit(f)
    ensures |s| == HEADER_SIZE + |f.payload|
  {
    [SOF0, SOF1, f.kind] + ToLe(|f.payload|, 2) + ToLe(f.host, 4) + ToLe(f.device, 4)
    + ToLe(f.sequence, 2) + f.payload
  }

  function Encode(f: Frame): (s: seq<byte>)
    requires FieldsFit(f)
    ensures |s| == OVERHEAD + |f.payload|
  {
    Body(f) + ToLe(Crc(Body(f)), 2)
  }

  predicate StartsWithSof(s: seq<byte>) {
    |s| >= 2 && s[0] == SOF0 && s[1] == SOF1
  }

  /** Frame length announced by the header at the front of s. */
  function AnnouncedLength(s: seq<byte>): (n: nat)
    requires |s| >= HEADER_SIZE
    ensures OVERHEAD <= n < OVERHEAD + 0x1_0000
  {
    FieldWidths();
    FromLeBound(s[3..5]);
    OVERHEAD + FromLe(s[3..5])
  }

  /** The fields of a packet, checksum not looked at. */
  function Fields(p: seq<byte>): (f: Frame)
    requires |p| >= OVERHEAD
    ensures FieldsFit(f) && f.kind == p[2] as int && |f.payload| == |p| - OVERHEAD
  {
    FieldWidths();
    FromLeBound(p[5..9]);
    FromLeBound(p[9..13]);
    FromLeBound(p[13..15]);
    Frame(p[2], FromLe(p[5..9]), FromLe(p[9..13]), FromLe(p[13..15]), p[15..|p| - 2])
  }

  predicate CrcMatches(p: seq<byte>)
    requires |p| >= OVERHEAD
  {
    FromLe(p[|p| - 2..]) == Crc(p[..|p| - 2])
  }

  /** A complete packet with a good checksum. */
  predicate WellFormed(p: seq<byte>) {
    && StartsWithSof(p)
    && |p| >= OVERHEAD
    && |p| == AnnouncedLength(p)
    && CrcMatches(p)
  }

  lemma BodySlices(f: Frame)
    requires FieldsFit(f)
    ensures Body(f)[..3] == [SOF0, SOF1, f.kind]
    ensures Body(f)[3..5] == ToLe(|f.payload|, 2)
    ensures Body(f)[5..9] == ToLe(f.host, 4)
    ensures Body(f)[9..13] == ToLe(f.device, 4)
    ensures Body(f)[13..15] == ToLe(f.sequence, 2)
    ensures Body(f)[15..] == f.payload
  {
  }

  /** An encoded frame is well formed and reads back as the frame it came from. */
  lemma EncodeThenFields(f: Frame)
    requires InRange(f)
    ensures WellFormed(Encode(f))
    ensures Fields(Encode(f)) == f
  {
    hide Crc, FromLe, ToLe;
    var b, p := Body(f), Encode(f);
    BodySlices(f);
    FieldWidths();
    FromToLe(|f.payload|, 2);
    FromToLe(f.host, 4);
    FromToLe(f.device, 4);
    FromToLe(f.sequence, 2);
    FromToLe(Crc(b), 2);
    assert p[..|b|] == b && p[|b|..] == ToLe(Crc(b), 2);
    assert p[3..5] == b[3..5] && p[5..9] == b[5..9] && p[9..13] == b[9..13] && p[13..15] == b[13..15];
    assert p[15..|p| - 2] == b[15..];
    assert p[0] == b[..3][0] && p[1] == b[..3][1] && p[2] == b[..3][2];
  }

  /** A well formed packet is, byte for byte, the encoding of its fields. */
  lemma FieldsThenEncode(p: seq<byte>)
    requires WellFormed(p)
    ensures InRange(Fields(p)) && Encode(Fields(p)) == p
  {
    hide Crc, FromLe, ToLe;
    var f := Fields(p);
    var n := |p| - 2;
    ToFromLe(p[3..5]);
    ToFromLe(p[5..9]);
    ToFromLe(p[9..13]);
    ToFromLe(p[13..15]);
    ToFromLe(p[n..]);
    assert p[..3] == [SOF0, SOF1, f.kind];
    assert Body(f) == p[..n];
    assert p == p[..n] + p[n..];
  }

  /** Whatever follows a frame, the header at the front announces that frame. */
  lemma HeaderOfPrefix(p: seq<byte>, rest: seq<byte>)
    requires |p| >= HEADER_SIZE
    ensures AnnouncedLength(p + rest) == AnnouncedLength(p)
    ensures StartsWithSof(p + rest) == StartsWithSof(p)
  {
    assert (p + rest)[3..5] == p[3..5];
  }

  // ----- start-of-frame search -----

  predicate SofAt(s: seq<byte>, i: int) {
    0 <= i && i + 1 < |s| && s[i] == SOF0 && s[i + 1] == SOF1
  }

  predicate NoSof(s: seq<byte>) {
    forall i :: 0 <= i < |s| - 1 ==> !SofAt(s, i)
  }

  /** Position of the first start-of-frame pair at or after `from`, -1 if there is none. */
  function FindFrom(s: seq<byte>, from: nat): (i: int)
    requires from <= |s|
    ensures i == -1 || (from <= i && SofAt(s, i))
    ensures forall j :: from <= j < |s| && (i == -1 || j < i) ==> !SofAt(s, j)
    decreases |s| - from
  {
    if from + 1 >= |s| then -1
    else if SofAt(s, from) then from
    else FindFrom(s, from + 1)
  }

  function FindSof(s: seq<byte>): (i: int)
    ensures i == -1 <==> NoSof(s)
    ensures i != -1 ==> SofAt(s, i) && forall j :: 0 <= j < i ==> !SofAt(s, j)
  {
    FindFrom(s, 0)
  }

  /** The pair is not completed across the boundary of s and t. */
  predicate CleanBoundary(s: seq<byte>, t: seq<byte>) {
    !(|s| > 0 && |t| > 0 && s[|s| - 1] == SOF0 && t[0] == SOF1)
  }

  /** Bytes without a pair in front move the first pair by their number. */
  lemma FindAfterNoise(noise: seq<byte>, t: seq<byte>)
    requires NoSof(noise) && CleanBoundary(noise, t)
    ensures FindSof(noise + t) == if FindSof(t) == -1 then -1 else |noise| + FindSof(t)
  {
    var s := noise + t;
    forall j | 0 <= j < |s|
      ensures SofAt(s, j) <==> j >= |noise| && SofAt(t, j - |noise|)
    {
      if j + 1 < |noise| {
        assert !SofAt(noise, j);
      }
    }
    if FindSof(t) != -1 {
      assert SofAt(s, |noise| + FindSof(t));
    }
    if FindSof(s) != -1 {
      assert SofAt(t, FindSof(s) - |noise|);
    }
  }

  lemma FindAtFront(s: seq<byte>)
    requires StartsWithSof(s)
    ensures FindSof(s) == 0
  {
    assert SofAt(s, 0);
  }
}
