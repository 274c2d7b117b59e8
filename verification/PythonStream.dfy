/** What the host's decoder does with whole streams: round trip, splitting, chunking. */
module PythonStream {
  import opened Bytes
  import opened Crc16
  import opened Frames
  import opened PythonCodec

  /** Line noise followed by one frame. */
  datatype Item = Item(noise: seq<byte>, frame: Frame)

  predicate Sendable(f: Frame) {
    InRange(f) && KnownKind(f.kind)
  }

  ghost predicate GoodItems(items: seq<Item>) {
    forall k :: 0 <= k < |items| ==> NoSof(items[k].noise) && Sendable(items[k].frame)
  }

  function Wire(items: seq<Item>): (s: seq<byte>)
    requires forall k :: 0 <= k < |items| ==> FieldsFit(items[k].frame)
  {
    if items == [] then [] else items[0].noise + Encode(items[0].frame) + Wire(items[1..])
  }

  function FramesOf(items: seq<Item>): (fs: seq<Frame>)
    ensures |fs| == |items|
  {
    if items == [] then [] else [items[0].frame] + FramesOf(items[1..])
  }

  /** The beginning of some frame, long enough to show its start-of-frame pair, but not all of it. */
  ghost predicate FramePrefix(tail: seq<byte>, f: Frame) {
    && InRange(f)
    && 2 <= |tail| < |Encode(f)|
    && tail == Encode(f)[..|tail|]
  }

  lemma NoiseSkipped(noise: seq<byte>, t: seq<byte>)
    requires NoSof(noise) && CleanBoundary(noise, t)
    ensures FirstTurn(noise + t) == FirstTurn(t)
    ensures Decode(noise + t) == Decode(t)
  {
    hide TurnAtSof, FindSof;
    FindAfterNoise(noise, t);
    var i := FindSof(t);
    if i >= 0 {
      assert (noise + t)[|noise| + i..] == t[i..];
    }
  }

  /** A buffer that begins with the pair is looked at from its first byte. */
  lemma TurnOfSof(t: seq<byte>)
    requires StartsWithSof(t)
    ensures FirstTurn(t) == TurnAtSof(t)
  {
    FindAtFront(t);
    assert t[0..] == t;
  }

  /** A complete good frame at the front is taken off, whatever follows it. */
  lemma FrameTaken(f: Frame, t: seq<byte>)
    requires Sendable(f)
    ensures FirstTurn(Encode(f) + t) == Take(f, t)
  {
    var p := Encode(f);
    EncodeThenFields(f);
    HeaderOfPrefix(p, t);
    TurnOfSof(p + t);
    assert (p + t)[..|p|] == p;
    assert (p + t)[|p|..] == t;
  }

  lemma ItemTaken(item: Item, t: seq<byte>)
    requires NoSof(item.noise) && Sendable(item.frame)
    ensures Decode(item.noise + (Encode(item.frame) + t)) == Prepend([item.frame], Decode(t))
  {
    NoiseSkipped(item.noise, Encode(item.frame) + t);
    FrameTaken(item.frame, t);
  }

  lemma PrefixKept(tail: seq<byte>, f: Frame)
    requires FramePrefix(tail, f)
    ensures Decode(tail) == Run([], tail, [])
  {
    var p := Encode(f);
    EncodeThenFields(f);
    TurnOfSof(tail);
    if |tail| >= OVERHEAD {
      assert p == tail + p[|tail|..];
      HeaderOfPrefix(tail, p[|tail|..]);
    }
  }

  lemma WireSplit(items: seq<Item>, tail: seq<byte>)
    requires GoodItems(items) && items != []
    ensures Wire(items) + tail == items[0].noise + (Encode(items[0].frame) + (Wire(items[1..]) + tail))
  {
  }

  /**
   Frames sent one after another, with line noise before each, are all received, in
   order and nothing else, and an incomplete last frame stays in the buffer untouched.
   */
  lemma {:induction false} StreamRoundTrip(items: seq<Item>, tail: seq<byte>, f: Frame)
    requires GoodItems(items)
    requires tail == [] || FramePrefix(tail, f)
    ensures Decode(Wire(items) + tail) == Run(FramesOf(items), tail, [])
  {
    if items == [] {
      assert Wire(items) + tail == tail;
      if tail != [] {
        PrefixKept(tail, f);
      }
    } else {
      var t := Wire(items[1..]) + tail;
      StreamRoundTrip(items[1..], tail, f);
      WireSplit(items, tail);
      ItemTaken(items[0], t);
    }
  }

  // ----- splitting a stream between calls -----

  /** Buffer contents at the last turn of the loop. */
  function LastTurn(s: seq<byte>): (t: seq<byte>)
    decreases |s|
  {
    match FirstTurn(s)
    case Stop(_) => s
    case Raise(_, _) => s
    case Take(_, rest) => LastTurn(rest)
  }

  /** The call ends by clearing a buffer whose last byte could have begun a frame. */
  predicate DropsHalfSof(s: seq<byte>) {
    var t := LastTurn(s);
    FindSof(t) < 0 && |t| > 0 && t[|t| - 1] == SOF0
  }

  /** Decoding s and then s's leftover with t is the same as decoding s and t together. */
  ghost predicate SplitsCleanly(s: seq<byte>, t: seq<byte>) {
    Decode(s + t) == Prepend(Decode(s).frames, Decode(Decode(s).rest + t))
  }

  /** A turn that takes a frame or raises does the same when more bytes follow. */
  lemma TurnExtends(s: seq<byte>, t: seq<byte>)
    requires !FirstTurn(s).Stop?
    ensures FirstTurn(s + t) == FirstTurn(s).(rest := FirstTurn(s).rest + t)
  {
    NoiseThenSof(s, t);
    TurnAtSofExtends(s[FindSof(s)..], t);
  }

  lemma TurnAtSofExtends(u: seq<byte>, t: seq<byte>)
    requires StartsWithSof(u) && !TurnAtSof(u).Stop?
    ensures TurnAtSof(u + t) == TurnAtSof(u).(rest := TurnAtSof(u).rest + t)
  {
    hide Crc, FromLe;
    var n := AnnouncedLength(u);
    HeaderOfPrefix(u, t);
    assert (u + t)[..n] == u[..n];
    assert (u + t)[n - 2..n] == u[n - 2..n];
    assert (u + t)[..n - 2] == u[..n - 2];
    assert (u + t)[n..] == u[n..] + t;
    assert (u + t)[2..] == u[2..] + t;
  }

  /** With a pair in s, the first turn over s + t starts at the same position as over s. */
  lemma NoiseThenSof(s: seq<byte>, t: seq<byte>)
    requires FindSof(s) >= 0
    ensures FirstTurn(s + t) == TurnAtSof(s[FindSof(s)..] + t)
  {
    var i := FindSof(s);
    var u := s[i..] + t;
    forall j | 0 <= j < |s[..i]| - 1
      ensures !SofAt(s[..i], j)
    {
      assert !SofAt(s, j);
    }
    assert s + t == s[..i] + u;
    NoiseSkipped(s[..i], u);
    TurnOfSof(u);
  }

  /** An error is raised at the same place however many bytes follow. */
  lemma {:induction false} RaiseStays(s: seq<byte>, t: seq<byte>)
    requires Decode(s).raised != []
    ensures Decode(s + t) == Decode(s).(rest := Decode(s).rest + t)
    decreases |s|
  {
    TurnExtends(s, t);
    if FirstTurn(s).Take? {
      RaiseStays(FirstTurn(s).rest, t);
    }
  }

  /** What a call does with bytes in front of which it had stopped. */
  lemma StopThenMore(s: seq<byte>, t: seq<byte>)
    requires FirstTurn(s).Stop?
    requires FindSof(s) < 0 ==> CleanBoundary(s, t)
    ensures FirstTurn(s + t) == FirstTurn(FirstTurn(s).rest + t)
  {
    if FindSof(s) < 0 {
      NoiseSkipped(s, t);
      assert [] + t == t;
    } else {
      NoiseThenSof(s, t);
      TurnOfSof(s[FindSof(s)..] + t);
    }
  }

  lemma SplitTaken(s: seq<byte>, t: seq<byte>)
    requires FirstTurn(s).Take? && SplitsCleanly(FirstTurn(s).rest, t)
    ensures SplitsCleanly(s, t)
  {
    TurnExtends(s, t);
    hide FirstTurn;
    var more := FirstTurn(s).rest;
    PrependTwice([FirstTurn(s).frame], Decode(more).frames, Decode(Decode(more).rest + t));
  }

  lemma SplitStopped(s: seq<byte>, t: seq<byte>)
    requires FirstTurn(s).Stop?
    requires FindSof(s) < 0 ==> CleanBoundary(s, t)
    ensures SplitsCleanly(s, t)
  {
    StopThenMore(s, t);
    hide FirstTurn;
    var rest := FirstTurn(s).rest;
    assert Decode(s) == Run([], rest, []);
    assert Decode(s + t) == Decode(rest + t) by { SameTurn(s + t, rest + t); }
    assert [] + Decode(rest + t).frames == Decode(rest + t).frames;
  }

  lemma SameTurn(u: seq<byte>, v: seq<byte>)
    requires FirstTurn(u) == FirstTurn(v)
    ensures Decode(u) == Decode(v)
  {
    hide FirstTurn;
  }

  /**
   Cutting a stream in two never changes what is decoded, unless the first call
   clears a lone first byte of a pair and the second chunk begins with the other.
   */
  lemma {:induction false} SplitLaw(s: seq<byte>, t: seq<byte>)
    requires Decode(s).raised == []
    requires !(DropsHalfSof(s) && |t| > 0 && t[0] == SOF1)
    ensures SplitsCleanly(s, t)
    decreases |s|
  {
    hide FirstTurn, SplitsCleanly;
    if FirstTurn(s).Take? {
      SplitLaw(FirstTurn(s).rest, t);
      SplitTaken(s, t);
    } else {
      SplitStopped(s, t);
    }
  }

  lemma {:induction false} DroppedHalf(s: seq<byte>)
    requires Decode(s).raised == [] && DropsHalfSof(s)
    ensures Decode(s).rest == []
    ensures Decode(s + [SOF1]).rest == [SOF0, SOF1]
    decreases |s|
  {
    if FirstTurn(s).Take? {
      TurnExtends(s, [SOF1]);
      DroppedHalf(FirstTurn(s).rest);
    } else {
      var n := |s| - 1;
      assert FindSof(s) < 0;
      forall j | 0 <= j < |s[..n]| - 1
        ensures !SofAt(s[..n], j)
      {
        assert !SofAt(s, j);
      }
      assert s + [SOF1] == s[..n] + [SOF0, SOF1];
      NoiseSkipped(s[..n], [SOF0, SOF1]);
      TurnOfSof([SOF0, SOF1]);
    }
  }

  /** A stream may be cut after s, whatever follows, exactly when no half pair is dropped there. */
  lemma SplitExact(s: seq<byte>)
    requires Decode(s).raised == []
    ensures (forall t :: SplitsCleanly(s, t)) <==> !DropsHalfSof(s)
  {
    if DropsHalfSof(s) {
      DroppedHalf(s);
      NoSofInOne();
      assert [] + [SOF1] == [SOF1];
      assert Decode([SOF1]).rest == [];
      assert !SplitsCleanly(s, [SOF1]);
    } else {
      forall t
        ensures SplitsCleanly(s, t)
      {
        SplitLaw(s, t);
      }
    }
  }

  lemma NoSofInOne()
    ensures FindSof([SOF1]) == -1
  {
  }

  // ----- a stream delivered in chunks -----

  function Join(chunks: seq<seq<byte>>): seq<byte> {
    if chunks == [] then [] else chunks[0] + Join(chunks[1..])
  }

  /** One call per chunk, each on the leftover and the new chunk; a call that raises returns no frames. */
  function Feed(buffer: seq<byte>, chunks: seq<seq<byte>>): (r: Run)
    decreases |chunks|
  {
    if chunks == [] then Run([], buffer, [])
    else
      var r := Decode(buffer + chunks[0]);
      if r.raised != [] then r else Prepend(r.frames, Feed(r.rest, chunks[1..]))
  }

  /** No chunk is empty and none ends between the two bytes of a pair. */
  ghost predicate KeepsPairs(chunks: seq<seq<byte>>) {
    && (forall k :: 0 <= k < |chunks| ==> |chunks[k]| > 0)
    && (forall k :: 0 <= k < |chunks| - 1 ==> CleanBoundary(chunks[k], chunks[k + 1]))
  }

  lemma {:induction false} LastTurnEnds(s: seq<byte>)
    requires DropsHalfSof(s)
    ensures |s| > 0 && s[|s| - 1] == SOF0
    decreases |s|
  {
    if FirstTurn(s).Take? {
      RestIsSuffix(s);
      hide FirstTurn;
      LastTurnEnds(FirstTurn(s).rest);
    } else {
      hide FirstTurn;
    }
  }

  lemma RestIsSuffix(s: seq<byte>)
    requires FirstTurn(s).Take?
    ensures var rest := FirstTurn(s).rest; |rest| <= |s| && rest == s[|s| - |rest|..]
  {
    hide Crc, FromLe, AnnouncedLength;
    var i := FindSof(s);
    var u := s[i..];
    var n := AnnouncedLength(u);
    assert FirstTurn(s).rest == u[n..] == s[i + n..];
  }

  /** Any delivery in chunks that keeps the pairs together decodes what one call on the whole stream decodes. */
  lemma {:induction false} ChunkingIrrelevant(buffer: seq<byte>, chunks: seq<seq<byte>>)
    requires chunks != [] && KeepsPairs(chunks)
    requires Decode(buffer + Join(chunks)).raised == []
    ensures Feed(buffer, chunks) == Decode(buffer + Join(chunks))
    decreases |chunks|
  {
    var s, more := buffer + chunks[0], chunks[1..];
    var t := Join(more);
    assert buffer + Join(chunks) == s + t;
    if Decode(s).raised != [] {
      RaiseStays(s, t);
    }
    if more == [] {
      assert s + t == s;
      var r := Decode(s);
      assert r.frames + [] == r.frames;
    } else {
      assert KeepsPairs(more) by {
        assert forall k :: 0 <= k < |more| ==> more[k] == chunks[k + 1];
      }
      assert t[0] == more[0][0];
      assert CleanBoundary(chunks[0], chunks[1]);
      if DropsHalfSof(s) {
        LastTurnEnds(s);
      }
      SplitLaw(s, t);
      ChunkingIrrelevant(Decode(s).rest, more);
    }
  }

  // ----- the reader of the port -----

  /** Frames received and bytes kept. A call that raises loses the frames it decoded, and reading goes on. */
  function ReadOn(buffer: seq<byte>, chunks: seq<seq<byte>>): (r: (seq<Frame>, seq<byte>))
    decreases |chunks|
  {
    if chunks == [] then ([], buffer)
    else
      var run := Decode(buffer + chunks[0]);
      var more := ReadOn(run.rest, chunks[1..]);
      ((if run.raised == [] then run.frames else []) + more.0, more.1)
  }

  /** The reader thread: what the port delivers is appended to its buffer and decoded there. */
  method ReaderLoop(buffer: ByteBuffer, chunks: seq<seq<byte>>) returns (frames: seq<Frame>)
    modifies buffer
    ensures frames == ReadOn(old(buffer.data), chunks).0 && buffer.data == ReadOn(old(buffer.data), chunks).1
  {
    hide Decode;
    frames := [];
    for k := 0 to |chunks|
      invariant frames + ReadOn(buffer.data, chunks[k..]).0 == ReadOn(old(buffer.data), chunks).0
      invariant ReadOn(buffer.data, chunks[k..]).1 == ReadOn(old(buffer.data), chunks).1
    {
      assert chunks[k..][1..] == chunks[k + 1..];
      buffer.Extend(chunks[k]);
      var r := DecodeFrames(buffer);
      match r {
        case Ok(fs) => frames := frames + fs;
        case Err(_) =>
      }
    }
    assert frames + [] == frames;
  }

  /** While nothing raises, it receives what Feed decodes. */
  lemma {:induction false} ReaderFeeds(buffer: seq<byte>, chunks: seq<seq<byte>>)
    requires Feed(buffer, chunks).raised == []
    ensures ReadOn(buffer, chunks) == (Feed(buffer, chunks).frames, Feed(buffer, chunks).rest)
    decreases |chunks|
  {
    hide Decode;
    if chunks != [] {
      ReaderFeeds(Decode(buffer + chunks[0]).rest, chunks[1..]);
    }
  }
}
