/** The bounded queue of uplink packets: what is accepted is popped, queued, dropped or cleared, in order. */
module UplinkFifo {
  import opened Options

  const DEPTH := 10

  /** What happened to an accepted packet that is no longer queued. */
  datatype Fate = Popped | Dropped | Cleared

  datatype Gone<P> = Gone(packet: P, fate: Fate)

  /** The packets that met the given fate, in order. */
  function With<P>(gone: seq<Gone<P>>, fate: Fate): (r: seq<P>)
    ensures |r| <= |gone|
  {
    if gone == [] then []
    else
      var rest := With(gone[..|gone| - 1], fate);
      if gone[|gone| - 1].fate == fate then rest + [gone[|gone| - 1].packet] else rest
  }

  function Packets<P>(gone: seq<Gone<P>>): (r: seq<P>)
    ensures |r| == |gone|
    ensures forall k :: 0 <= k < |gone| ==> r[k] == gone[k].packet
  {
    seq(|gone|, k requires 0 <= k < |gone| => gone[k].packet)
  }

  /** s can be had from t by leaving packets out. */
  predicate Subsequence<P(==)>(s: seq<P>, t: seq<P>) {
    if s == [] then true
    else if t == [] then false
    else if s[|s| - 1] == t[|t| - 1] && Subsequence(s[..|s| - 1], t[..|t| - 1]) then true
    else Subsequence(s, t[..|t| - 1])
  }

  datatype Event<P> = Receive(packet: Option<P>) | Pop | Stop

  /** The queue with its history: everything accepted, and what became of each that left. */
  datatype State<P> = State(accepted: seq<P>, gone: seq<Gone<P>>, queue: seq<P>, received: nat, drops: nat)

  function Empty<P>(): State<P> {
    State([], [], [], 0, 0)
  }

  /** The oldest packet leaves. */
  function Leave<P>(s: State<P>, fate: Fate): State<P>
    requires s.queue != []
  {
    s.(gone := s.gone + [Gone(s.queue[0], fate)],
       queue := s.queue[1..],
       drops := if fate.Dropped? then s.drops + 1 else s.drops)
  }

  function Arrive<P>(s: State<P>, p: P): State<P> {
    s.(accepted := s.accepted + [p], queue := s.queue + [p], received := s.received + 1)
  }

  /** One event. A payload that does not decode is ignored; a full queue loses its oldest packet. */
  function Step<P>(s: State<P>, e: Event<P>): State<P> {
    match e
    case Receive(None) => s
    case Receive(Some(p)) => Arrive(if |s.queue| >= DEPTH then Leave(s, Dropped) else s, p)
    case Pop => if s.queue == [] then s else Leave(s, Popped)
    case Stop => s.(gone := s.gone + AllCleared(s.queue), queue := [])
  }

  function AllCleared<P>(queue: seq<P>): (r: seq<Gone<P>>)
    ensures |r| == |queue|
    ensures forall k :: 0 <= k < |queue| ==> r[k] == Gone(queue[k], Cleared)
  {
    seq(|queue|, k requires 0 <= k < |queue| => Gone(queue[k], Cleared))
  }

  function Run<P>(events: seq<Event<P>>): State<P> {
    if events == [] then Empty() else Step(Run(events[..|events| - 1]), events[|events| - 1])
  }

  // ----- order and conservation -----

  /** First in, first out: what left, then what is queued, is what was accepted, in that order. */
  ghost predicate Conserved<P>(s: State<P>) {
    && Packets(s.gone) + s.queue == s.accepted
    && |s.queue| <= DEPTH
    && s.received == |s.accepted|
    && s.drops == |With(s.gone, Dropped)|
  }

  lemma WithOne<P>(gone: seq<Gone<P>>, g: Gone<P>, fate: Fate)
    ensures With(gone + [g], fate) == if g.fate == fate then With(gone, fate) + [g.packet] else With(gone, fate)
  {
    assert (gone + [g])[..|gone|] == gone;
  }

  lemma {:induction false} WithCleared<P>(gone: seq<Gone<P>>, queue: seq<P>)
    ensures With(gone + AllCleared(queue), Dropped) == With(gone, Dropped)
  {
    if queue == [] {
      assert gone + AllCleared(queue) == gone;
    } else {
      var n := |queue| - 1;
      WithCleared(gone, queue[..n]);
      WithOne(gone + AllCleared(queue[..n]), Gone(queue[n], Cleared), Dropped);
      assert gone + AllCleared(queue) == gone + AllCleared(queue[..n]) + [Gone(queue[n], Cleared)];
    }
  }

  lemma LeaveConserves<P>(s: State<P>, fate: Fate)
    requires Conserved(s) && s.queue != []
    ensures Conserved(Leave(s, fate)) && |Leave(s, fate).queue| == |s.queue| - 1
  {
    hide With;
    var r := Leave(s, fate);
    WithOne(s.gone, Gone(s.queue[0], fate), Dropped);
    assert Packets(r.gone) == Packets(s.gone) + [s.queue[0]];
    assert [s.queue[0]] + s.queue[1..] == s.queue;
  }

  lemma StepConserves<P>(s: State<P>, e: Event<P>)
    requires Conserved(s)
    ensures Conserved(Step(s, e))
  {
    hide With, Packets, Leave;
    match e
    case Receive(None) =>
    case Receive(Some(p)) =>
      if |s.queue| >= DEPTH {
        LeaveConserves(s, Dropped);
      }
      ArriveConserves(if |s.queue| >= DEPTH then Leave(s, Dropped) else s, p);
    case Pop =>
      if s.queue != [] {
        LeaveConserves(s, Popped);
      }
    case Stop =>
      WithCleared(s.gone, s.queue);
      assert Packets(s.gone + AllCleared(s.queue)) == Packets(s.gone) + s.queue;
  }

  lemma ArriveConserves<P>(s: State<P>, p: P)
    requires Conserved(s) && |s.queue| < DEPTH
    ensures Conserved(Arrive(s, p))
  {
    hide With, Packets;
    assert Packets(s.gone) + (s.queue + [p]) == s.accepted + [p];
  }

  lemma {:induction false} RunConserves<P>(events: seq<Event<P>>)
    ensures Conserved(Run(events))
  {
    hide Conserved, Step;
    if events == [] {
      EmptyConserved<P>();
    } else {
      RunConserves(events[..|events| - 1]);
      StepConserves(Run(events[..|events| - 1]), events[|events| - 1]);
    }
  }

  lemma EmptyConserved<P>()
    ensures Conserved(Empty<P>())
  {
  }

  lemma {:induction false} Partition<P>(gone: seq<Gone<P>>)
    ensures |With(gone, Popped)| + |With(gone, Dropped)| + |With(gone, Cleared)| == |gone|
  {
    if gone != [] {
      Partition(gone[..|gone| - 1]);
    }
  }

  lemma {:induction false} WithSubsequence<P>(gone: seq<Gone<P>>, rest: seq<P>, fate: Fate)
    ensures Subsequence(With(gone, fate), Packets(gone) + rest)
    decreases |gone| + |rest|
  {
    var s, t := With(gone, fate), Packets(gone) + rest;
    if rest != [] {
      WithSubsequence(gone, rest[..|rest| - 1], fate);
      assert t[..|t| - 1] == Packets(gone) + rest[..|rest| - 1];
    } else if gone != [] {
      var n := |gone| - 1;
      WithSubsequence(gone[..n], rest, fate);
      assert t[..n] == Packets(gone[..n]) + rest;
      if gone[n].fate == fate {
        assert s[..|s| - 1] == With(gone[..n], fate);
      }
    }
  }

  /**
   Over any interleaving of receive, pop and stop: accepted = popped + queued + dropped + cleared,
   at most 10 packets are queued, the counters count what they name, and what is popped is a
   subsequence of what was accepted, in arrival order.
   */
  lemma Conservation<P>(events: seq<Event<P>>)
    ensures var s := Run(events);
            && |s.accepted| == |With(s.gone, Popped)| + |s.queue| + |With(s.gone, Dropped)| + |With(s.gone, Cleared)|
            && |s.queue| <= DEPTH
            && s.received == |s.accepted| && s.drops == |With(s.gone, Dropped)|
            && Subsequence(With(s.gone, Popped), s.accepted)
  {
    hide Run, Step, With, Subsequence;
    RunConserves(events);
    var s := Run(events);
    Partition(s.gone);
    WithSubsequence(s.gone, s.queue, Popped);
  }

  // ----- the queue itself -----

  class Fifo<P> {
    var queue: seq<P>
    var received: nat
    var drops: nat
    ghost var accepted: seq<P>
    ghost var gone: seq<Gone<P>>

    ghost function Snap(): State<P>
      reads this
    {
      State(accepted, gone, queue, received, drops)
    }

    ghost predicate Valid()
      reads this
    {
      Conserved(Snap())
    }

    constructor ()
      ensures Valid() && Snap() == Empty()
    {
      queue, received, drops, accepted, gone := [], 0, 0, [], [];
      new;
      EmptyConserved<P>();
    }

    /** receive_uplink, with the packet decode_uplink made of the payload */
    method ReceiveUplink(decoded: Option<P>)
      requires Valid()
      modifies this
      ensures Valid() && Snap() == Step(old(Snap()), Receive(decoded))
    {
      hide Conserved;
      StepConserves(Snap(), Receive(decoded));
      if decoded.None? {
        return;
      }
      if |queue| >= DEPTH {
        drops := drops + 1;
        gone := gone + [Gone(queue[0], Dropped)];
        queue := queue[1..];
      }
      queue := queue + [decoded.value];
      received := received + 1;
      accepted := accepted + [decoded.value];
    }

    method PopUplink() returns (packet: Option<P>)
      requires Valid()
      modifies this
      ensures Valid() && Snap() == Step(old(Snap()), Pop)
      ensures packet == if old(queue) == [] then None else Some(old(queue)[0])
    {
      hide Conserved;
      StepConserves(Snap(), Pop);
      if queue == [] {
        return None;
      }
      packet := Some(queue[0]);
      gone := gone + [Gone(queue[0], Popped)];
      queue := queue[1..];
    }

    method StopDownlink()
      requires Valid()
      modifies this
      ensures Valid() && Snap() == Step(old(Snap()), Stop) && queue == []
    {
      hide Conserved;
      StepConserves(Snap(), Stop);
      gone := gone + AllCleared(queue);
      queue := [];
    }
  }
}
