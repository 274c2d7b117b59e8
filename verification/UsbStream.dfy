/** The bridge's frame parser and the accumulation buffer in front of it on the USB side. */
module UsbStream {
  import opened Bytes
  import opened Crc16
  import opened Frames
  import opened PythonStream

  const MAX_PAYLOAD := 2300
  const MAX_SIZE := MAX_PAYLOAD + OVERHEAD
  const ACCUM_SIZE := 2 * MAX_SIZE

  datatype ParseResult = Parsed(frame: Frame) | InvalidSize | InvalidArg | InvalidCrc

  function ParseFrame(data: seq<byte>): (r: ParseResult) {
    if |data| < OVERHEAD then InvalidSize
    else if data[0] != SOF0 || data[1] != SOF1 then InvalidArg
    else if FromLe(data[3..5]) > MAX_PAYLOAD then InvalidSize
    else if |data| != OVERHEAD + FromLe(data[3..5]) then InvalidSize
    else if FromLe(data[|data| - 2..]) != Crc(data[..|data| - 2]) then InvalidCrc
    else Parsed(Fields(data))
  }

  /** The bridge accepts exactly the well formed packets with at most 2300 payload bytes. */
  lemma ParseExact(data: seq<byte>)
    ensures ParseFrame(data).Parsed? <==> WellFormed(data) && |data| <= MAX_SIZE
    ensures ParseFrame(data).Parsed? ==> FieldsFit(ParseFrame(data).frame) && Encode(ParseFrame(data).frame) == data
  {
    hide Crc, FromLe, Encode, Fields;
    if ParseFrame(data).Parsed? {
      FieldsThenEncode(data);
    }
  }

  /** A frame survives the trip to the bridge exactly when its payload is no longer than 2300 bytes. */
  lemma EncodeParse(f: Frame)
    requires FieldsFit(f)
    ensures ParseFrame(Encode(f)) == Parsed(f) <==> |f.payload| <= MAX_PAYLOAD
  {
    hide Crc, FromLe, Encode, Fields;
    if |f.payload| <= MAX_PAYLOAD {
      EncodeThenFields(f);
      ParseExact(Encode(f));
    } else {
      ParseExact(Encode(f));
    }
  }

  /** One turn of the drain loop. */
  datatype Turn = Wait(rest: seq<byte>) | Skip(rest: seq<byte>) | Dispatch(frame: Frame, rest: seq<byte>)

  function TurnAtSof(t: seq<byte>): (turn: Turn)
    requires StartsWithSof(t)
    ensures !turn.Wait? ==> |turn.rest| < |t|
    ensures turn.Wait? ==> |turn.rest| < MAX_SIZE
  {
    if |t| < OVERHEAD then Wait(t)
    else if AnnouncedLength(t) > MAX_SIZE then Skip(t[1..])
    else if |t| < AnnouncedLength(t) then Wait(t)
    else
      var n := AnnouncedLength(t);
      match ParseFrame(t[..n])
      case Parsed(frame) => Dispatch(frame, t[n..])
      case _ => Skip(t[n..])
  }

  function FirstTurn(s: seq<byte>): (turn: Turn)
    ensures !turn.Wait? ==> |turn.rest| < |s|
    ensures turn.Wait? ==> |turn.rest| < MAX_SIZE
  {
    if |s| < OVERHEAD then Wait(s)
    else
      var i := FindSof(s);
      if i == -1 then Wait([s[|s| - 1]]) else TurnAtSof(s[i..])
  }

  /** Frames dispatched and bytes kept when the buffer holds s. */
  datatype Drained = Drained(frames: seq<Frame>, rest: seq<byte>)

  function Drain(s: seq<byte>): (r: Drained)
    ensures |r.rest| < MAX_SIZE
    decreases |s|
  {
    match FirstTurn(s)
    case Wait(rest) => Drained([], rest)
    case Skip(rest) => Drain(rest)
    case Dispatch(frame, rest) => var more := Drain(rest); Drained([frame] + more.frames, more.rest)
  }

  // ----- the loop, in place -----

  method MoveDown(a: array<byte>, offset: nat, count: nat)
    requires offset + count <= a.Length
    modifies a
    ensures a[..count] == old(a[offset..offset + count])
  {
    forall i | 0 <= i < count {
      a[i] := a[offset + i];
    }
  }

  /** Scans the first n bytes for the start-of-frame pair. */
  method FindPair(a: array<byte>, n: nat) returns (pos: nat, found: bool)
    requires n <= a.Length
    ensures found <==> FindSof(a[..n]) != -1
    ensures found ==> pos == FindSof(a[..n])
  {
    pos := 0;
    found := false;
    ghost var s := a[..n];
    while pos + 1 < n
      invariant !found
      invariant forall j :: 0 <= j < pos ==> !SofAt(s, j)
    {
      if a[pos] == SOF0 && a[pos + 1] == SOF1 {
        found := true;
        assert SofAt(s, pos);
        return;
      }
      pos := pos + 1;
    }
  }

  class UsbAccumulator {
    const accum: array<byte>
    var length: nat

    ghost predicate Valid()
      reads this, accum
    {
      accum.Length == ACCUM_SIZE && length < MAX_SIZE
    }

    ghost function Held(): seq<byte>
      reads this, accum
      requires length <= accum.Length
    {
      accum[..length]
    }

    constructor ()
      ensures Valid() && fresh(accum) && Held() == []
    {
      accum := new byte[ACCUM_SIZE];
      length := 0;
    }

    /** One pass of the main loop: append what the driver read, at most the free space, and drain. */
    method Poll(received: seq<byte>) returns (frames: seq<Frame>)
      requires Valid()
      requires |received| <= accum.Length - length
      modifies this, accum
      ensures Valid()
      ensures Drained(frames, Held()) == Drain(old(Held()) + received)
    {
      forall i | 0 <= i < |received| {
        accum[length + i] := received[i];
      }
      assert accum[..length + |received|] == old(Held()) + received;
      length := length + |received|;
      frames := DrainLoop();
    }

    /** Room for a whole frame of the largest size is left after every pass. */
    lemma AlwaysRoom()
      requires Valid()
      ensures accum.Length - length > MAX_SIZE
    {
    }

    /**
     Passes of the main loop until everything that has come in is read: there is always room to go
     on, and the frames are those of the whole stream.
     */
    method Serve(line: seq<byte>) returns (frames: seq<Frame>)
      requires Valid()
      modifies this, accum
      ensures Valid()
      ensures frames == if line == [] then [] else Drain(old(Held()) + line).frames
    {
      hide Drain;
      frames := [];
      var left := line;
      while left != []
        invariant Valid()
        invariant frames + Drain(Held() + left).frames == Drain(old(Held()) + line).frames
        invariant if left == line then frames == [] && Held() == old(Held()) else Drain(Held()).frames == []
        decreases |left|
      {
        AlwaysRoom();
        var room := accum.Length - length;
        var n := if |left| < room then |left| else room;
        ghost var s := Held() + left[..n];
        assert Held() + left == s + left[n..];
        DrainSplit(s, left[n..]);
        NothingMore(s);
        var more := Poll(left[..n]);
        frames := frames + more;
        left := left[n..];
      }
      assert Held() + left == Held();
    }

    method DrainLoop() returns (frames: seq<Frame>)
      requires accum.Length == ACCUM_SIZE && length <= accum.Length
      modifies this, accum
      ensures Valid()
      ensures Drained(frames, Held()) == Drain(old(Held()))
    {
      hide Drain, FirstTurn;
      frames := [];
      while length >= OVERHEAD
        invariant length <= accum.Length
        invariant Prepend(frames, Drain(Held())) == Drain(old(Held()))
        decreases length
      {
        DrainTurn(frames, Held());
        var turn := OneTurn();
        match turn {
          case Waiting =>
            return;
          case Skipped =>
          case Got(frame) =>
            frames := frames + [frame];
        }
      }
      DrainTurn(frames, Held());
      ShortWaits(Held());
    }

    /** The loop body, once at least a minimal frame's worth of bytes is held. */
    method OneTurn() returns (progress: Progress)
      requires accum.Length == ACCUM_SIZE && OVERHEAD <= length <= accum.Length
      modifies this, accum
      ensures length <= accum.Length && TurnIs(FirstTurn(old(Held())), progress, Held())
    {
      hide TurnAtSof;
      ghost var s := Held();
      var sofPos, found := FindPair(accum, length);
      if !found {
        accum[0] := accum[length - 1];
        length := 1;
        assert Held() == [s[|s| - 1]];
        return Waiting;
      }
      if sofPos > 0 {
        length := length - sofPos;
        MoveDown(accum, sofPos, length);
      }
      assert Held() == s[sofPos..];
      progress := TakeFrame();
    }

    /** The rest of the loop body: the buffer begins with the start-of-frame pair. */
    method TakeFrame() returns (progress: Progress)
      requires accum.Length == ACCUM_SIZE && length <= accum.Length && StartsWithSof(Held())
      modifies this, accum
      ensures length <= accum.Length && TurnIs(TurnAtSof(old(Held())), progress, Held())
    {
      hide Crc, FromLe, ParseFrame;
      ghost var t := Held();
      if length < OVERHEAD {
        return Waiting;
      }
      var payloadLength: nat := accum[3] as int + 0x100 * (accum[4] as int);
      FromLe2(t[3..5]);
      var frameLength := OVERHEAD + payloadLength;
      if payloadLength > MAX_PAYLOAD {
        length := length - 1;
        MoveDown(accum, 1, length);
        assert Held() == t[1..];
        return Skipped;
      }
      if length < frameLength {
        return Waiting;
      }
      var parsed := ParseFrame(accum[..frameLength]);
      assert accum[..frameLength] == t[..frameLength];
      length := length - frameLength;
      MoveDown(accum, frameLength, length);
      assert Held() == t[frameLength..];
      progress := if parsed.Parsed? then Got(parsed.frame) else Skipped;
    }
  }

  datatype Progress = Waiting | Skipped | Got(frame: Frame)

  ghost predicate TurnIs(turn: Turn, progress: Progress, rest: seq<byte>) {
    turn == match progress
            case Waiting => Wait(rest)
            case Skipped => Skip(rest)
            case Got(frame) => Dispatch(frame, rest)
  }

  lemma ShortWaits(s: seq<byte>)
    requires |s| < OVERHEAD
    ensures FirstTurn(s) == Wait(s)
  {
  }

  function Prepend(fs: seq<Frame>, r: Drained): Drained {
    r.(frames := fs + r.frames)
  }

  lemma DrainTurn(fs: seq<Frame>, s: seq<byte>)
    ensures match FirstTurn(s)
            case Wait(rest) => Prepend(fs, Drain(s)) == Drained(fs, rest)
            case Skip(rest) => Prepend(fs, Drain(s)) == Prepend(fs, Drain(rest))
            case Dispatch(frame, rest) => Prepend(fs, Drain(s)) == Prepend(fs + [frame], Drain(rest))
  {
    assert fs + [] == fs;
    if FirstTurn(s).Dispatch? {
      var r := Drain(FirstTurn(s).rest);
      assert fs + ([FirstTurn(s).frame] + r.frames) == fs + [FirstTurn(s).frame] + r.frames;
    }
  }

  // ----- the stream as a whole -----

  lemma {:induction false} NoisePart(s: seq<byte>, i: nat)
    requires i <= |s| && (FindSof(s) == -1 || i <= FindSof(s))
    ensures NoSof(s[..i]) && CleanBoundary(s[..i], s[i..])
  {
    forall j | 0 <= j < |s[..i]| - 1
      ensures !SofAt(s[..i], j)
    {
      assert !SofAt(s, j);
    }
    if 0 < i < |s| {
      assert !SofAt(s, i - 1);
    }
  }

  /** Bytes without a pair in front change nothing that is dispatched, now or later. */
  lemma NoiseSilent(noise: seq<byte>, t: seq<byte>)
    requires NoSof(noise) && CleanBoundary(noise, t)
    ensures Drain(noise + t).frames == Drain(t).frames
  {
    hide TurnAtSof, NoSof, FindSof, CleanBoundary;
    FindAfterNoise(noise, t);
    var i := FindSof(t);
    if i != -1 {
      assert (noise + t)[|noise| + i..] == t[i..];
    }
    if |t| < OVERHEAD {
      if |noise + t| >= OVERHEAD && i != -1 {
        ShortAtSof(t[i..]);
      }
    }
  }

  lemma ShortAtSof(t: seq<byte>)
    requires StartsWithSof(t) && |t| < OVERHEAD
    ensures TurnAtSof(t) == Wait(t)
  {
  }

  lemma TurnAtSofExtends(u: seq<byte>, t: seq<byte>)
    requires StartsWithSof(u) && !TurnAtSof(u).Wait?
    ensures TurnAtSof(u + t) == TurnAtSof(u).(rest := TurnAtSof(u).rest + t)
  {
    hide ParseFrame;
    var n := AnnouncedLength(u);
    HeaderOfPrefix(u, t);
    assert (u + t)[1..] == u[1..] + t;
    if n <= |u| {
      assert (u + t)[..n] == u[..n];
      assert (u + t)[n..] == u[n..] + t;
    }
  }

  /** A turn that consumes something does the same when more bytes follow. */
  lemma TurnExtends(s: seq<byte>, t: seq<byte>)
    requires !FirstTurn(s).Wait?
    ensures FirstTurn(s + t) == FirstTurn(s).(rest := FirstTurn(s).rest + t)
  {
    hide TurnAtSof;
    var i := FindSof(s);
    NoisePart(s, i);
    var u := s[i..] + t;
    assert s + t == s[..i] + u;
    assert CleanBoundary(s[..i], u);
    FindAfterNoise(s[..i], u);
    FindAtFront(u);
    assert (s + t)[i..] == u;
    TurnAtSofExtends(s[i..], t);
  }

  /** Waiting drops nothing but noise. */
  lemma WaitKeeps(s: seq<byte>)
    requires FirstTurn(s).Wait?
    ensures var rest := FirstTurn(s).rest;
            |rest| <= |s| && (FindSof(s) == -1 || |s| - |rest| <= FindSof(s)) && rest == s[|s| - |rest|..]
    ensures s != [] ==> FirstTurn(s).rest != []
  {
  }

  /** What a pass leaves holds no frame. */
  lemma NothingMore(s: seq<byte>)
    ensures Drain(Drain(s).rest).frames == []
  {
    hide Drain;
    DrainSplit(s, []);
    assert s + [] == s && Drain(s).rest + [] == Drain(s).rest;
  }

  /** Dispatching s and then the bytes held over together with t is dispatching s and t together. */
  lemma {:induction false} DrainSplit(s: seq<byte>, t: seq<byte>)
    ensures Drain(s + t).frames == Drain(s).frames + Drain(Drain(s).rest + t).frames
    decreases |s|
  {
    hide FirstTurn;
    var turn := FirstTurn(s);
    if turn.Wait? {
      WaitKeeps(s);
      var i := |s| - |turn.rest|;
      NoisePart(s, i);
      assert s + t == s[..i] + (turn.rest + t);
      assert CleanBoundary(s[..i], turn.rest + t);
      NoiseSilent(s[..i], turn.rest + t);
    } else {
      TurnExtends(s, t);
      DrainSplit(turn.rest, t);
    }
  }

  /** The batches dispatched and the bytes held over, one pass per chunk read. */
  function Poll(held: seq<byte>, chunks: seq<seq<byte>>): (r: (seq<Frame>, seq<byte>))
    decreases |chunks|
  {
    if chunks == [] then ([], held)
    else
      var d := Drain(held + chunks[0]);
      var more := Poll(d.rest, chunks[1..]);
      (d.frames + more.0, more.1)
  }

  /**
   However the driver cuts a byte stream into reads (inside the start-of-frame pair,
   a header, a payload, noise), the frames dispatched are those of the whole stream.
   */
  lemma {:induction false} ChunkingIrrelevant(held: seq<byte>, chunks: seq<seq<byte>>)
    requires held == [] || chunks != []
    ensures Poll(held, chunks).0 == Drain(held + Join(chunks)).frames
    decreases |chunks|
  {
    if chunks == [] {
      assert held + Join(chunks) == [];
    } else {
      var s, t := held + chunks[0], Join(chunks[1..]);
      assert held + Join(chunks) == s + t;
      DrainSplit(s, t);
      var d := Drain(s);
      if chunks[1..] == [] {
        assert s + t == s;
      } else {
        ChunkingIrrelevant(d.rest, chunks[1..]);
      }
    }
  }

  // ----- what arrives -----

  /**
   Part of a stream: a frame; a whole packet of a size that is allowed, but with a wrong checksum; or
   bytes in which no packet begins that the drain would wait for.
   */
  datatype Piece = Good(frame: Frame) | Damaged(packet: seq<byte>) | Junk(bytes: seq<byte>)

  /** Every start pair that begins in the junk announces, with the bytes that follow, more than is allowed. */
  ghost predicate Passable(junk: seq<byte>, t: seq<byte>) {
    forall j :: 0 <= j < |junk| && SofAt(junk + t, j) && |junk + t| - j >= HEADER_SIZE ==>
      AnnouncedLength((junk + t)[j..]) > MAX_SIZE
  }

  predicate DamagedPacket(p: seq<byte>) {
    StartsWithSof(p) && OVERHEAD <= |p| <= MAX_SIZE && |p| == AnnouncedLength(p) && !CrcMatches(p)
  }

  function PieceBytes(piece: Piece): seq<byte>
    requires piece.Good? ==> FieldsFit(piece.frame)
  {
    match piece
    case Good(f) => Encode(f)
    case Damaged(p) => p
    case Junk(b) => b
  }

  predicate Encodable(pieces: seq<Piece>) {
    forall k :: 0 <= k < |pieces| && pieces[k].Good? ==> FieldsFit(pieces[k].frame)
  }

  function StreamOf(pieces: seq<Piece>): seq<byte>
    requires Encodable(pieces)
  {
    if pieces == [] then [] else PieceBytes(pieces[0]) + StreamOf(pieces[1..])
  }

  function GoodFrames(pieces: seq<Piece>): seq<Frame> {
    if pieces == [] then []
    else (if pieces[0].Good? then [pieces[0].frame] else []) + GoodFrames(pieces[1..])
  }

  /** Frames that fit, damaged packets, and junk, in any order, with more bytes behind. */
  ghost predicate Passing(pieces: seq<Piece>, tail: seq<byte>)
    requires Encodable(pieces)
  {
    pieces != [] ==>
      && Passing(pieces[1..], tail)
      && match pieces[0]
         case Good(f) => |f.payload| <= MAX_PAYLOAD
         case Damaged(p) => DamagedPacket(p)
         case Junk(b) => Passable(b, StreamOf(pieces[1..]) + tail)
  }

  lemma PassableLater(junk: seq<byte>, t: seq<byte>, i: nat)
    requires Passable(junk, t) && i < |junk|
    ensures Passable(junk[i + 1..], t)
  {
    var u := junk[i + 1..] + t;
    assert u == (junk + t)[i + 1..];
    forall j | 0 <= j < |junk[i + 1..]| && SofAt(u, j) && |u| - j >= HEADER_SIZE
      ensures AnnouncedLength(u[j..]) > MAX_SIZE
    {
      assert SofAt(junk + t, j + i + 1);
      assert u[j..] == (junk + t)[j + i + 1..];
    }
  }

  lemma WaitsSilent(s: seq<byte>)
    requires FirstTurn(s).Wait?
    ensures Drain(s).frames == []
  {
  }

  /** Junk is passed over byte by byte: what stands behind it is dispatched as if it were not there. */
  lemma {:induction false} JunkPasses(junk: seq<byte>, t: seq<byte>)
    requires Passable(junk, t)
    ensures Drain(junk + t).frames == Drain(t).frames
    decreases |junk|
  {
    var s := junk + t;
    var i := FindSof(s);
    hide ParseFrame, Drain;
    if i == -1 || |junk| <= i {
      NoisePart(s, |junk|);
      assert s[..|junk|] == junk && s[|junk|..] == t;
      NoiseSilent(junk, t);
    } else if |s| - i < OVERHEAD {
      ShortWaits(t);
      WaitsSilent(t);
      LateSof(s, i);
      WaitsSilent(s);
    } else {
      assert AnnouncedLength(s[i..]) > MAX_SIZE;
      assert s[i..][1..] == junk[i + 1..] + t;
      OversizedSkips(s, i);
      PassableLater(junk, t, i);
      JunkPasses(junk[i + 1..], t);
    }
  }

  lemma LateSof(s: seq<byte>, i: nat)
    requires FindSof(s) == i && |s| - i < OVERHEAD
    ensures FirstTurn(s).Wait?
  {
  }

  /** A header that announces too much costs its first byte, no more. */
  lemma OversizedSkips(s: seq<byte>, i: nat)
    requires FindSof(s) == i && |s| - i >= OVERHEAD && AnnouncedLength(s[i..]) > MAX_SIZE
    ensures Drain(s) == Drain(s[i..][1..])
  {
    hide ParseFrame;
    assert FirstTurn(s) == Skip(s[i..][1..]);
  }

  /** A damaged packet costs exactly itself: nothing inside it is looked at. */
  lemma DamagedSkips(p: seq<byte>, t: seq<byte>)
    requires DamagedPacket(p)
    ensures Drain(p + t) == Drain(t)
  {
    hide Crc, FromLe;
    HeaderOfPrefix(p, t);
    FindAtFront(p + t);
    assert (p + t)[0..] == p + t && (p + t)[..|p|] == p && (p + t)[|p|..] == t;
    assert !ParseFrame(p).Parsed? by { ParseExact(p); }
    hide ParseFrame;
    assert FirstTurn(p + t) == Skip(t);
  }

  lemma FrameTaken(f: Frame, t: seq<byte>)
    requires FieldsFit(f) && |f.payload| <= MAX_PAYLOAD
    ensures FirstTurn(Encode(f) + t) == Dispatch(f, t)
  {
    hide Encode, ParseFrame;
    var p := Encode(f);
    EncodeThenFields(f);
    EncodeParse(f);
    HeaderOfPrefix(p, t);
    FindAtFront(p + t);
    assert (p + t)[0..] == p + t;
    assert (p + t)[..|p|] == p;
    assert (p + t)[|p|..] == t;
  }

  lemma UnfinishedWaits(tail: seq<byte>, f: Frame)
    requires FieldsFit(f) && |f.payload| <= MAX_PAYLOAD
    requires |tail| < |Encode(f)| && tail == Encode(f)[..|tail|]
    ensures Drain(tail) == Drained([], tail)
  {
    hide Encode, ParseFrame;
    var p := Encode(f);
    EncodeThenFields(f);
    if |tail| >= OVERHEAD {
      assert p == tail + p[|tail|..];
      HeaderOfPrefix(tail, p[|tail|..]);
      FindAtFront(tail);
      assert tail[0..] == tail;
    }
  }

  lemma FrameDispatched(f: Frame, t: seq<byte>)
    requires FieldsFit(f) && |f.payload| <= MAX_PAYLOAD
    ensures Drain(Encode(f) + t).frames == [f] + Drain(t).frames
  {
    FrameTaken(f, t);
    hide FirstTurn, Encode;
  }

  lemma {:induction false} DrainPieces(pieces: seq<Piece>, tail: seq<byte>, f: Frame)
    requires Encodable(pieces) && Passing(pieces, tail)
    requires FieldsFit(f) && |f.payload| <= MAX_PAYLOAD
    requires |tail| < |Encode(f)| && tail == Encode(f)[..|tail|]
    ensures Drain(StreamOf(pieces) + tail).frames == GoodFrames(pieces)
    decreases |pieces|
  {
    hide Encode, FirstTurn, Drain, Passable, DamagedPacket;
    if pieces == [] {
      assert StreamOf(pieces) + tail == tail;
      UnfinishedWaits(tail, f);
    } else {
      var t := StreamOf(pieces[1..]) + tail;
      DrainPieces(pieces[1..], tail, f);
      assert StreamOf(pieces) + tail == PieceBytes(pieces[0]) + t;
      match pieces[0]
      case Good(g) => FrameDispatched(g, t);
      case Damaged(p) => DamagedSkips(p, t);
      case Junk(b) => JunkPasses(b, t);
    }
  }

  /**
   Frames of any kind with payloads of at most 2300 bytes, with anything passable before and between
   them (noise, headers that announce too much, whole packets with a wrong checksum) and an unfinished
   frame after the last, are all dispatched, in order and nothing else, however the stream is cut into
   reads. (The host's decoder needs the cuts to spare the pair, and stops at a wrong checksum.)
   */
  lemma EveryFrameArrives(pieces: seq<Piece>, tail: seq<byte>, f: Frame, chunks: seq<seq<byte>>)
    requires Encodable(pieces) && Passing(pieces, tail)
    requires FieldsFit(f) && |f.payload| <= MAX_PAYLOAD
    requires |tail| < |Encode(f)| && tail == Encode(f)[..|tail|]
    requires Join(chunks) == StreamOf(pieces) + tail
    ensures Poll([], chunks).0 == GoodFrames(pieces)
  {
    hide Encode, Drain, Passing, StreamOf;
    ChunkingIrrelevant([], chunks);
    assert [] + Join(chunks) == Join(chunks);
    DrainPieces(pieces, tail, f);
  }

  /** Noise without a start pair, before what begins with one, is passable. */
  lemma NoisePassable(noise: seq<byte>, t: seq<byte>)
    requires NoSof(noise) && (t == [] || t[0] == SOF0)
    ensures Passable(noise, t)
  {
    forall j | 0 <= j < |noise|
      ensures !SofAt(noise + t, j)
    {
      assert j + 1 < |noise| ==> !SofAt(noise, j);
    }
  }

  /** For instance: five bytes that announce 65535 more do not keep the frame behind them from arriving. */
  lemma FrameBehindBadHeader(kind: byte, f: Frame)
    requires FieldsFit(f) && |f.payload| <= MAX_PAYLOAD
    ensures Drain([SOF0, SOF1, kind, 0xFF, 0xFF] + Encode(f)).frames == [f]
  {
    var junk: seq<byte> := [SOF0, SOF1, kind, 0xFF, 0xFF];
    EncodeThenFields(f);
    hide Encode;
    var s := junk + Encode(f);
    forall j | 0 <= j < |junk| && SofAt(s, j) && |s| - j >= HEADER_SIZE
      ensures AnnouncedLength(s[j..]) > MAX_SIZE
    {
      assert j == 0;
      assert s[0..] == s && s[3..5] == [0xFF, 0xFF];
      FromLe2(s[3..5]);
    }
    JunkPasses(junk, Encode(f));
    FrameDispatched(f, []);
    assert Encode(f) + [] == Encode(f);
    assert Drain([]).frames == [];
  }
}
