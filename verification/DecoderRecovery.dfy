/** How the host's decoder goes on after a packet it raises on, compared with the bridge's drain. */
module DecoderRecovery {
  import opened Bytes
  import opened Crc16
  import opened Frames
  import opened PythonCodec
  import opened PythonStream
  import UsbStream

  /** A whole packet with a wrong checksum. */
  predicate Corrupt(p: seq<byte>) {
    StartsWithSof(p) && OVERHEAD <= |p| && |p| == AnnouncedLength(p) && !CrcMatches(p)
  }

  lemma CorruptRaises(p: seq<byte>, t: seq<byte>)
    requires Corrupt(p)
    ensures var run := Decode(p + t);
            && run.frames == [] && run.rest == p[2..] + t
            && run.raised == [CrcMismatch(FromLe(p[|p| - 2..]), Crc(p[..|p| - 2]))]
  {
    hide Crc, FromLe;
    var s := p + t;
    HeaderOfPrefix(p, t);
    TurnOfSof(s);
    assert s[..|p|] == p && s[2..] == p[2..] + t && s[|p| - 2..|p|] == p[|p| - 2..] && s[..|p| - 2] == p[..|p| - 2];
  }

  /** A packet of an unknown type is dropped whole. */
  lemma UnknownRaises(f: Frame, t: seq<byte>)
    requires InRange(f) && !KnownKind(f.kind)
    ensures Decode(Encode(f) + t) == Run([], t, [UnsupportedKind(f.kind)])
  {
    var p := Encode(f);
    EncodeThenFields(f);
    HeaderOfPrefix(p, t);
    TurnOfSof(p + t);
    assert (p + t)[..|p|] == p && (p + t)[|p|..] == t;
  }

  /** Frames with noise between, in front of anything: they are decoded first. */
  lemma {:induction false} ItemsFirst(items: seq<Item>, t: seq<byte>)
    requires GoodItems(items)
    ensures Decode(Wire(items) + t) == Prepend(FramesOf(items), Decode(t))
  {
    if items == [] {
      assert Wire(items) + t == t && [] + Decode(t).frames == Decode(t).frames;
    } else {
      var more := Wire(items[1..]) + t;
      ItemsFirst(items[1..], t);
      WireSplit(items, t);
      hide Decode;
      ItemTaken(items[0], more);
      PrependTwice([items[0].frame], FramesOf(items[1..]), Decode(t));
    }
  }

  /**
   Frames and then a corrupt packet in one delivery: the call raises, the frames in front are lost, and
   only the start pair of the packet is dropped.
   */
  lemma CorruptAmong(items: seq<Item>, p: seq<byte>, t: seq<byte>)
    requires GoodItems(items) && Corrupt(p)
    ensures var run := Decode(Wire(items) + (p + t));
            && run.frames == FramesOf(items) && |run.raised| == 1 && run.rest == p[2..] + t
  {
    hide Corrupt, Decode, Wire, GoodItems;
    ItemsFirst(items, p + t);
    CorruptRaises(p, t);
  }

  lemma RaisedFirst(c: seq<byte>, chunks: seq<seq<byte>>)
    requires Decode(c).raised != []
    ensures ReadOn([], [c] + chunks) == ReadOn(Decode(c).rest, chunks)
  {
    hide Decode;
    var more := ReadOn(Decode(c).rest, chunks);
    assert [] + more.0 == more.0;
    assert [] + c == c && ([c] + chunks)[0] == c && ([c] + chunks)[1..] == chunks;
  }

  /** Frames and then a packet of an unknown type: the frames in front are lost, and the packet is dropped. */
  lemma UnknownAmong(items: seq<Item>, f: Frame, t: seq<byte>, chunks: seq<seq<byte>>)
    requires GoodItems(items) && InRange(f) && !KnownKind(f.kind)
    ensures ReadOn([], [Wire(items) + (Encode(f) + t)] + chunks) == ReadOn(t, chunks)
  {
    hide Decode;
    ItemsFirst(items, Encode(f) + t);
    UnknownRaises(f, t);
    var c := Wire(items) + (Encode(f) + t);
    assert Decode(c).raised == [UnsupportedKind(f.kind)] && Decode(c).rest == t;
    RaisedFirst(c, chunks);
  }

  /**
   Behind a corrupt packet without a start pair of its own the next delivery is decoded together with what
   is left, as if the packet had not been there.
   */
  lemma BehindCorrupt(items: seq<Item>, p: seq<byte>, t: seq<byte>, next: seq<byte>)
    requires GoodItems(items) && Corrupt(p) && NoSof(p[2..]) && CleanBoundary(p[2..], t + next)
    ensures ReadOn([], [Wire(items) + (p + t), next]) == ReadOn([], [t + next])
  {
    hide Decode, Wire, NoSof, CleanBoundary;
    var c := Wire(items) + (p + t);
    CorruptAmong(items, p, t);
    RaisedFirst(c, [next]);
    assert [c] + [next] == [c, next];
    NoiseSkipped(p[2..], t + next);
    Reassociate(p[2..], t, next);
    SameDecoded(p[2..] + t, next, [], t + next);
  }

  lemma Reassociate(a: seq<byte>, b: seq<byte>, c: seq<byte>)
    ensures a + b + c == a + (b + c) && [] + (b + c) == b + c
  {
  }

  lemma SameDecoded(held: seq<byte>, c: seq<byte>, other: seq<byte>, d: seq<byte>)
    requires Decode(held + c) == Decode(other + d)
    ensures ReadOn(held, [c]) == ReadOn(other, [d])
  {
    hide Decode;
    assert [c][1..] == [] && [d][1..] == [];
  }

  /**
   And a frame inside a corrupt packet is received, which the bridge's drain, dropping the packet whole,
   never does.
   */
  lemma InsideCorrupt(p: seq<byte>, noise: seq<byte>, g: Frame, more: seq<byte>, t: seq<byte>, next: seq<byte>)
    requires Corrupt(p) && |p| <= UsbStream.MAX_SIZE && NoSof(noise) && Sendable(g) && p[2..] == noise + Encode(g) + more
    ensures Decode(Decode(p + t).rest + next) == Prepend([g], Decode(more + t + next))
    ensures UsbStream.Drain(p + t) == UsbStream.Drain(t)
  {
    hide Encode, Decode, NoSof, UsbStream.Drain;
    CorruptRaises(p, t);
    UsbStream.DamagedSkips(p, t);
    Regrouped(noise, Encode(g), more, t, next);
    ItemTaken(Item(noise, g), more + t + next);
  }

  lemma Regrouped(a: seq<byte>, b: seq<byte>, c: seq<byte>, d: seq<byte>, e: seq<byte>)
    ensures a + b + c + d + e == a + (b + (c + d + e))
  {
    assert a + b + c + d + e == a + b + (c + d + e);
  }
}
