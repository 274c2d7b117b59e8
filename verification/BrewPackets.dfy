/** The packets of one brew: what weight and water level they report as time goes on. */
module BrewPackets {
  import opened Options
  import opened Brew

  /** What stays fixed during a brew. Without a sample table the channels are synthesised. */
  datatype Plan = Plan(time: real, pressure: real, flow: real, temperature: real, interval: real, table: Option<Table>)

  /** Selecting a profile makes the brew time at least one second; tables are built by BuildProfileSamples. */
  ghost predicate GoodPlan(p: Plan) {
    && p.time > 0.0 && p.interval >= 0.0
    && (p.table.Some? ==>
          var w := p.table.value.weight;
          |w| >= 2 && w[|w| - 1] >= 0.0 && Filling(w, w[|w| - 1]))
  }

  predicate HasTable(p: Plan) {
    p.table.Some? && |p.table.value.weight| > 0
  }

  /** Position in the table; the last sample when the brew is over. */
  function Cursor(p: Plan, elapsed: real): (c: nat)
    requires HasTable(p)
    ensures c < |p.table.value.weight|
  {
    var last := |p.table.value.weight| - 1;
    if elapsed >= p.time then last
    else
      var at := Max(0.0, elapsed / SAMPLE_DT).Floor;
      if at < last then at else last
  }

  /** The synthesised flow at t seconds: it rises in proportion to time. */
  function FlowAt(p: Plan, t: real): (f: real)
    ensures f >= 0.0
  {
    Max(0.0, p.flow * Clamp(t / Max(0.001, p.time)))
  }

  function Offset(p: Plan, k: nat): real {
    p.interval / SAMPLES_PER_PACKET as real * k as real
  }

  /** The synthesised flow of sample k of a packet. */
  function Synthesised(p: Plan, elapsed: real, k: nat): (f: real)
    ensures f >= 0.0
  {
    FlowAt(p, elapsed + Offset(p, k))
  }

  function AverageFlow(p: Plan, elapsed: real): (f: real)
    ensures f >= 0.0
  {
    (Synthesised(p, elapsed, 0) + Synthesised(p, elapsed, 1) + Synthesised(p, elapsed, 2) + Synthesised(p, elapsed, 3)
     + Synthesised(p, elapsed, 4)) / 5.0
  }

  /** The shot the brew is to end with. */
  function ShotTarget(p: Plan): (s: real)
    ensures s >= 0.0
  {
    var estimate := Max(0.0, p.flow * p.time);
    if HasTable(p) then Max(estimate, p.table.value.weight[|p.table.value.weight| - 1]) else estimate
  }

  /** The target a packet states: the one set on the Home page, if any, or the brew's own. */
  function TargetShown(p: Plan, home: Option<real>): (s: real)
    ensures home.None? ==> s == ShotTarget(p)
  {
    if home.Some? then home.value else ShotTarget(p)
  }

  function MeasuredWeight(p: Plan, elapsed: real): (w: real)
    ensures w >= 0.0
  {
    if HasTable(p) then Max(0.0, p.table.value.weight[Cursor(p, elapsed)])
    else Max(0.0, AverageFlow(p, elapsed) * elapsed)
  }

  /** The weight a packet reports: never ahead of the share of the brew time that has passed. */
  function ReportedWeight(p: Plan, elapsed: real): real {
    if p.time <= 0.0 then MeasuredWeight(p, elapsed)
    else if elapsed >= p.time then ShotTarget(p)
    else Min(MeasuredWeight(p, elapsed), ShotTarget(p) * Clamp(elapsed / p.time))
  }

  function WaterLevel(weight: real): real {
    Max(0.0, Min(100.0, 100.0 - weight * 0.45))
  }

  // ----- how the report moves -----

  lemma QuotientGrows(a: real, b: real, d: real)
    requires a <= b && d > 0.0
    ensures a / d <= b / d
  {
    assert b / d - a / d == (b - a) / d;
  }

  lemma CursorGrows(p: Plan, d: real, e: real)
    requires HasTable(p) && d <= e
    ensures Cursor(p, d) <= Cursor(p, e)
  {
    QuotientGrows(d, e, SAMPLE_DT);
  }

  lemma ProductGrows(k: real, t: real, u: real)
    requires 0.0 <= t <= u
    ensures Max(0.0, k * t) <= Max(0.0, k * u)
  {
    if k >= 0.0 {
      ScaledGrows(k, t, u);
    } else {
      ScaledGrows(-k, 0.0, t);
      assert k * t == -(-k * t);
    }
  }

  lemma FlowGrows(p: Plan, t: real, u: real)
    requires t <= u
    ensures FlowAt(p, t) <= FlowAt(p, u)
  {
    var time := Max(0.001, p.time);
    QuotientGrows(t, u, time);
    ProductGrows(p.flow, Clamp(t / time), Clamp(u / time));
  }

  lemma SynthesisedGrows(p: Plan, d: real, e: real, k: nat)
    requires d <= e
    ensures Synthesised(p, d, k) <= Synthesised(p, e, k)
  {
    hide FlowAt, Offset;
    FlowGrows(p, d + Offset(p, k), e + Offset(p, k));
  }

  lemma TableGrows(p: Plan, d: real, e: real)
    requires GoodPlan(p) && HasTable(p) && d <= e
    ensures MeasuredWeight(p, d) <= MeasuredWeight(p, e)
  {
    hide Cursor;
    CursorGrows(p, d, e);
    var w := p.table.value.weight;
    assert w[Cursor(p, d)] <= w[Cursor(p, e)];
  }

  lemma TimesGrows(a: real, b: real, d: real, e: real)
    requires 0.0 <= a <= b && 0.0 <= d <= e
    ensures a * d <= b * e
  {
    ScaledGrows(a, d, e);
    ScaledGrows(e, a, b);
  }

  lemma MeasuredGrows(p: Plan, d: real, e: real)
    requires GoodPlan(p) && 0.0 <= d <= e
    ensures MeasuredWeight(p, d) <= MeasuredWeight(p, e)
  {
    hide Cursor, Synthesised, AverageFlow, Filling;
    if HasTable(p) {
      TableGrows(p, d, e);
    } else {
      forall k: nat | k < 5
        ensures Synthesised(p, d, k) <= Synthesised(p, e, k)
      {
        SynthesisedGrows(p, d, e, k);
      }
      AverageGrows(p, d, e);
      TimesGrows(AverageFlow(p, d), AverageFlow(p, e), d, e);
    }
  }

  lemma AverageGrows(p: Plan, d: real, e: real)
    requires forall k: nat :: k < 5 ==> Synthesised(p, d, k) <= Synthesised(p, e, k)
    ensures AverageFlow(p, d) <= AverageFlow(p, e)
  {
    hide Synthesised;
  }

  lemma ReportedBounded(p: Plan, elapsed: real)
    requires GoodPlan(p)
    ensures 0.0 <= ReportedWeight(p, elapsed) <= ShotTarget(p)
  {
    hide MeasuredWeight, ShotTarget;
    ScaledGrows(ShotTarget(p), 0.0, Clamp(elapsed / p.time));
    ScaledGrows(ShotTarget(p), Clamp(elapsed / p.time), 1.0);
  }

  /**
   The reported weight never falls as the brew goes on, stays between 0 and the shot target, and
   is the shot target when the brew time is over; the water level never rises and stays a percentage.
   */
  lemma ReportMoves(p: Plan, d: real, e: real)
    requires GoodPlan(p) && 0.0 <= d <= e
    ensures 0.0 <= ReportedWeight(p, d) <= ReportedWeight(p, e) <= ShotTarget(p)
    ensures e >= p.time ==> ReportedWeight(p, e) == ShotTarget(p)
    ensures 0.0 <= WaterLevel(ReportedWeight(p, e)) <= WaterLevel(ReportedWeight(p, d)) <= 100.0
  {
    hide MeasuredWeight, ShotTarget;
    ReportedBounded(p, d);
    ReportedBounded(p, e);
    if e < p.time {
      MeasuredGrows(p, d, e);
      QuotientGrows(d, e, p.time);
      ScaledGrows(ShotTarget(p), Clamp(d / p.time), Clamp(e / p.time));
    }
  }

  // ----- the generator -----

  /** Packet numbers wrap at 32 bits. */
  type Number = n: int | 0 <= n < 0x1_0000_0000

  /** The number of packet k, counted from the first. */
  function PacketNumber(first: Number, k: nat): Number {
    (first + k) % 0x1_0000_0000
  }

  datatype Packet =
    | BrewPacket(sequence: int, elapsed: real, weight: real, target: real, water: real)
    | SinePacket(sequence: int)

  method ReportOf(p: Plan, since: real) returns (weight: real, target: real, water: real)
    ensures weight == ReportedWeight(p, since) && target == ShotTarget(p) && water == WaterLevel(weight)
  {
    hide MeasuredWeight, AverageFlow;
    target := Max(0.0, p.flow * p.time);
    weight := MeasuredWeight(p, since);
    if HasTable(p) {
      target := Max(target, p.table.value.weight[|p.table.value.weight| - 1]);
    }
    assert target == ShotTarget(p);
    if p.time > 0.0 {
      weight := Min(weight, target * Clamp(since / p.time));
      if since >= p.time {
        weight := target;
      }
    }
    water := Max(0.0, Min(100.0, 100.0 - weight * 0.45));
  }

  /** The elapsed times of one brew's packets, at clock readings that never go back. */
  ghost predicate Onward(p: Plan, times: seq<real>) {
    && (forall i :: 0 <= i < |times| ==> 0.0 <= times[i] <= p.time)
    && (forall i, j :: 0 <= i <= j < |times| ==> times[i] <= times[j])
  }

  function ReportAt(p: Plan, elapsed: real): (r: (real, real)) {
    (ReportedWeight(p, elapsed), WaterLevel(ReportedWeight(p, elapsed)))
  }

  /** Over all packets of one brew: weight up to the target, water down, neither ever back. */
  lemma WholeBrew(p: Plan, times: seq<real>)
    requires GoodPlan(p) && Onward(p, times)
    ensures forall i, j :: 0 <= i <= j < |times| ==>
              && 0.0 <= ReportAt(p, times[i]).0 <= ReportAt(p, times[j]).0 <= ShotTarget(p)
              && 0.0 <= ReportAt(p, times[j]).1 <= ReportAt(p, times[i]).1 <= 100.0
    ensures forall i :: 0 <= i < |times| && times[i] == p.time ==> ReportAt(p, times[i]).0 == ShotTarget(p)
  {
    hide ReportedWeight, WaterLevel, ShotTarget;
    forall i, j | 0 <= i <= j < |times|
      ensures 0.0 <= ReportAt(p, times[i]).0 <= ReportAt(p, times[j]).0 <= ShotTarget(p)
      ensures 0.0 <= ReportAt(p, times[j]).1 <= ReportAt(p, times[i]).1 <= 100.0
    {
      ReportMoves(p, times[i], times[j]);
    }
    forall i | 0 <= i < |times| && times[i] == p.time
      ensures ReportAt(p, times[i]).0 == ShotTarget(p)
    {
      ReportMoves(p, times[i], times[i]);
    }
  }

  /** The packets of these times and stated targets, numbered on from the first. */
  ghost predicate Reported(p: Plan, first: Number, times: seq<real>, targets: seq<real>, packets: seq<Packet>) {
    && |packets| == |times| == |targets|
    && forall k :: 0 <= k < |times| ==>
         packets[k] == BrewPacket(PacketNumber(first, k), times[k], ReportAt(p, times[k]).0, targets[k],
                                  ReportAt(p, times[k]).1)
  }

  lemma OneMorePacket(p: Plan, first: Number, times: seq<real>, targets: seq<real>, packets: seq<Packet>, time: real,
                      target: real, number: Number)
    requires Onward(p, times) && Reported(p, first, times, targets, packets) && 0.0 <= time <= p.time
    requires forall i :: 0 <= i < |times| ==> times[i] <= time
    requires number == PacketNumber(first, |packets|)
    ensures Onward(p, times + [time])
    ensures Reported(p, first, times + [time], targets + [target],
                     packets + [BrewPacket(number, time, ReportAt(p, time).0, target, ReportAt(p, time).1)])
  {
    hide ReportedWeight, WaterLevel;
  }

  lemma NoPackets(p: Plan, first: Number)
    ensures Onward(p, []) && Reported(p, first, [], [], [])
  {
  }

  /** The Home page's target in effect for packet k, when settings[i] is what was set before packet i. */
  function InEffect(home: Option<real>, settings: seq<Option<real>>, k: int): Option<real>
    requires -1 <= k < |settings|
    decreases k + 1
  {
    if k < 0 then home else if settings[k].Some? then Some(Settable(settings[k].value)) else InEffect(home, settings, k - 1)
  }

  lemma NextInEffect(home: Option<real>, settings: seq<Option<real>>, k: nat)
    requires k < |settings|
    ensures InEffect(home, settings, k)
            == if settings[k].Some? then Some(Settable(settings[k].value)) else InEffect(home, settings, k - 1)
  {
  }

  lemma NoneInEffect(home: Option<real>, settings: seq<Option<real>>)
    ensures InEffect(home, settings, -1) == home
  {
  }

  /** The stated target is the brew's own exactly if the Home page has set none, or this one. */
  lemma OwnTarget(p: Plan, home: Option<real>)
    ensures TargetShown(p, home) == ShotTarget(p) <==> home.None? || home.value == ShotTarget(p)
  {
    hide ShotTarget;
  }

  /** The Home page's targets are kept between 0 and 200 g. */
  function Settable(target: real): real {
    Max(0.0, Min(target, 200.0))
  }

  /** Weight up to the target, water down, neither ever back. */
  ghost predicate Steady(p: Plan, packets: seq<Packet>) {
    && (forall k :: 0 <= k < |packets| ==> packets[k].BrewPacket?)
    && forall i, j :: 0 <= i <= j < |packets| ==>
         && 0.0 <= packets[i].weight <= packets[j].weight <= ShotTarget(p)
         && 0.0 <= packets[j].water <= packets[i].water <= 100.0
  }

  lemma ReportsAreSteady(p: Plan, first: Number, times: seq<real>, targets: seq<real>, packets: seq<Packet>)
    requires GoodPlan(p) && Onward(p, times) && Reported(p, first, times, targets, packets)
    ensures Steady(p, packets)
    ensures times != [] && times[|times| - 1] == p.time ==> packets[|packets| - 1].weight == ShotTarget(p)
  {
    WholeBrew(p, times);
    hide ReportAt, ShotTarget, GoodPlan, Onward;
  }

  lemma NumbersOn(first: Number, n: nat)
    ensures PacketNumber(first, 0) == first
    ensures (PacketNumber(first, n) + 1) % 0x1_0000_0000 == PacketNumber(first, n + 1)
  {
  }

  lemma SinceGrows(p: Plan, started: real, t: real, u: real)
    requires p.time > 0.0 && t <= u
    ensures 0.0 <= Since(p, started, t) <= Since(p, started, u) <= p.time
  {
  }

  /** Seconds into a brew at a clock reading, never past its end. */
  function Since(p: Plan, started: real, now: real): (e: real) {
    var since := Max(0.0, if started > 0.0 then now - started else 0.0);
    if since >= p.time then p.time else since
  }

  /** What the sending loop is given: clock readings, and what the Home page sets before each packet. */
  datatype Course = Course(started: real, home: Option<real>, first: Number, clock: seq<real>, settings: seq<Option<real>>)

  ghost predicate GoodCourse(c: Course) {
    |c.clock| == |c.settings| && forall i, j :: 0 <= i <= j < |c.clock| ==> c.clock[i] <= c.clock[j]
  }

  /** The first packets of a brew on this course. */
  ghost predicate SoFar(p: Plan, c: Course, times: seq<real>, targets: seq<real>, packets: seq<Packet>)
    requires |c.clock| == |c.settings|
  {
    && Onward(p, times) && Reported(p, c.first, times, targets, packets) && |packets| <= |c.clock|
    && forall i :: 0 <= i < |packets| ==>
         times[i] == Since(p, c.started, c.clock[i]) && targets[i] == TargetShown(p, InEffect(c.home, c.settings, i))
  }

  lemma SoFarNothing(p: Plan, c: Course)
    requires |c.clock| == |c.settings|
    ensures SoFar(p, c, [], [], [])
  {
    hide Reported;
    NoPackets(p, c.first);
  }

  lemma SoFarLength(p: Plan, c: Course, times: seq<real>, targets: seq<real>, packets: seq<Packet>)
    requires |c.clock| == |c.settings| && SoFar(p, c, times, targets, packets)
    ensures |packets| == |times| == |targets|
  {
  }

  /** One packet more. */
  lemma SoFarOneMore(p: Plan, c: Course, times: seq<real>, targets: seq<real>, packets: seq<Packet>)
    requires p.time > 0.0 && GoodCourse(c) && SoFar(p, c, times, targets, packets) && |packets| < |c.clock|
    ensures var k := |packets|;
            var time, target := Since(p, c.started, c.clock[k]), TargetShown(p, InEffect(c.home, c.settings, k));
            SoFar(p, c, times + [time], targets + [target],
                  packets + [BrewPacket(PacketNumber(c.first, k), time, ReportedWeight(p, time), target,
                                        WaterLevel(ReportedWeight(p, time)))])
  {
    SoFarLength(p, c, times, targets, packets);
    hide ReportedWeight, WaterLevel, ShotTarget, TargetShown, InEffect, Since, Onward, Reported;
    var k := |packets|;
    var time, target := Since(p, c.started, c.clock[k]), TargetShown(p, InEffect(c.home, c.settings, k));
    forall i | 0 <= i <= k
      ensures 0.0 <= Since(p, c.started, c.clock[i]) <= time <= p.time
    {
      SinceGrows(p, c.started, c.clock[i], c.clock[k]);
    }
    OneMorePacket(p, c.first, times, targets, packets, time, target, PacketNumber(c.first, k));
  }

  /** The last packet weighs the full shot, and states that as its target exactly if no other is in effect. */
  ghost predicate FullShot(p: Plan, home: Option<real>, packets: seq<Packet>) {
    var n := |packets| - 1;
    && n >= 0 && packets[n].BrewPacket? && packets[n].weight == ShotTarget(p)
    && (packets[n].target == packets[n].weight <==> home.None? || home.value == ShotTarget(p))
  }

  /** Every packet states the target in effect. */
  ghost predicate StatesTargets(p: Plan, home: Option<real>, settings: seq<Option<real>>, packets: seq<Packet>) {
    && |packets| <= |settings|
    && forall k :: 0 <= k < |packets| ==>
         packets[k].BrewPacket? && packets[k].target == TargetShown(p, InEffect(home, settings, k))
  }

  lemma CourseEnds(p: Plan, c: Course, times: seq<real>, targets: seq<real>, packets: seq<Packet>)
    requires GoodPlan(p) && |c.clock| == |c.settings| && SoFar(p, c, times, targets, packets)
    ensures Onward(p, times) && Reported(p, c.first, times, targets, packets) && |packets| <= |c.clock|
    ensures StatesTargets(p, c.home, c.settings, packets) && Steady(p, packets)
    ensures times != [] && times[|times| - 1] == p.time ==>
              packets != [] && FullShot(p, InEffect(c.home, c.settings, |packets| - 1), packets)
  {
    hide ShotTarget, TargetShown, InEffect, Steady, ReportAt, GoodPlan, Onward, Since;
    ReportsAreSteady(p, c.first, times, targets, packets);
    if packets != [] {
      OwnTarget(p, InEffect(c.home, c.settings, |packets| - 1));
    }
  }

  class Generator {
    var simulationEnabled: bool
    var brewActive: bool
    var started: real
    var elapsed: real
    var sequence: Number
    var sent: nat
    var plan: Plan
    var homeTarget: Option<real>

    /** Seconds into the brew at a clock reading, never past its end. */
    function Elapsed(now: real): (e: real)
      reads this
    {
      Since(plan, started, now)
    }

    /** A brew of the profile, with the table the library holds for it, if any. */
    method StartBrew(p: Profile, table: Option<Table>, now: real)
      requires table.Some? ==> Filling(table.value.weight, EndWeight(p))
      modifies this
      ensures GoodPlan(plan) && plan.table == table && plan.time == Max(1.0, p.time)
      ensures brewActive && started == now && elapsed == 0.0 && !simulationEnabled
      ensures table.Some? ==> ShotTarget(plan) == Max(Max(0.0, p.flow * Max(1.0, p.time)), EndWeight(p))
      ensures sequence == old(sequence) && sent == old(sent) && homeTarget == old(homeTarget)
    {
      hide EndWeight;
      plan := Plan(Max(1.0, p.time), p.pressure, p.flow, p.temperature, 0.1, table);
      brewActive := true;
      started := now;
      elapsed := 0.0;
      simulationEnabled := false;
    }

    method StopBrew()
      modifies this
      ensures !brewActive && started == 0.0 && elapsed == 0.0
      ensures plan == old(plan) && sequence == old(sequence) && sent == old(sent)
      ensures simulationEnabled == old(simulationEnabled) && homeTarget == old(homeTarget)
    {
      brewActive := false;
      started := 0.0;
      elapsed := 0.0;
    }

    /** The Home page sets a shot target; no brew clears it again. */
    method SetShotTarget(target: real)
      modifies this`homeTarget
      ensures homeTarget == Some(Settable(target))
    {
      homeTarget := Some(Max(0.0, Min(target, 200.0)));
    }

    /** One packet of the active mode; the brew ends with the packet that reports the full shot. */
    method GenerateAndSend(now: real, delivered: bool) returns (packet: Option<Packet>)
      modifies this
      ensures plan == old(plan) && simulationEnabled == old(simulationEnabled) && homeTarget == old(homeTarget)
      ensures packet.None? <==> !old(simulationEnabled) && !old(brewActive)
      ensures packet.Some? ==> packet.value.sequence == old(sequence) && sequence == (old(sequence) + 1) % 0x1_0000_0000
      ensures old(brewActive) ==>
                var e := old(Elapsed(now));
                var w := ReportedWeight(plan, e);
                && packet == Some(BrewPacket(old(sequence), e, w, TargetShown(plan, homeTarget), WaterLevel(w)))
                && (brewActive <==> !(delivered && e >= plan.time))
                && (brewActive ==> started == old(started))
      ensures !old(brewActive) ==> !brewActive
      ensures sent == old(sent) + if packet.Some? && delivered then 1 else 0
    {
      hide ReportedWeight, ShotTarget, WaterLevel;
      packet := None;
      if !simulationEnabled && !brewActive {
        return;
      }
      var number := sequence;
      sequence := (sequence + 1) % 0x1_0000_0000;
      if !brewActive {
        sent := if delivered then sent + 1 else sent;
        return Some(SinePacket(number));
      }
      var complete := false;
      var since := Max(0.0, if started > 0.0 then now - started else 0.0);
      var time := plan.time;
      if since >= time {
        elapsed := time;
        since := time;
        complete := true;
      }
      var weight, target, water := ReportOf(plan, since);
      if homeTarget.Some? {
        target := homeTarget.value;
      }
      packet := Some(BrewPacket(number, since, weight, target, water));
      if delivered {
        sent := sent + 1;
        elapsed := since;
        if complete {
          brewActive := false;
          started := 0.0;
        }
      }
    }

    /** One turn of the loop: perhaps the Home page sets a target, then a packet goes out while the brew is on. */
    method SendNext(now: real, delivered: bool, setting: Option<real>) returns (packet: Option<Packet>)
      requires !simulationEnabled
      modifies this
      ensures plan == old(plan) && !simulationEnabled
      ensures homeTarget == if setting.Some? then Some(Settable(setting.value)) else old(homeTarget)
      ensures old(brewActive) ==>
                var e := Since(plan, old(started), now);
                && packet == Some(BrewPacket(old(sequence), e, ReportedWeight(plan, e), TargetShown(plan, homeTarget),
                                             WaterLevel(ReportedWeight(plan, e))))
                && sequence == (old(sequence) + 1) % 0x1_0000_0000
                && if brewActive then started == old(started) else e == plan.time
      ensures !old(brewActive) ==> packet.None? && !brewActive
    {
      hide ReportedWeight, ShotTarget, WaterLevel, Settable, TargetShown;
      if setting.Some? {
        SetShotTarget(setting.value);
      }
      packet := GenerateAndSend(now, delivered);
    }

    /**
     The sending loop while a brew runs, at clock readings that never go back, the Home page setting
     targets between: the packets carry on the numbering, report no less weight and no more water
     each time, state the target in effect, and end, if the brew ends, with the weight of the full
     shot. That is the target the last packet states exactly if the Home page has set none or this one.
     */
    method Run(clock: seq<real>, delivered: seq<bool>, settings: seq<Option<real>>)
      returns (packets: seq<Packet>, ghost times: seq<real>, ghost targets: seq<real>)
      requires brewActive && !simulationEnabled && GoodPlan(plan) && |delivered| == |clock| == |settings|
      requires GoodCourse(Course(started, homeTarget, sequence, clock, settings))
      modifies this
      ensures plan == old(plan) && Onward(plan, times) && Reported(plan, old(sequence), times, targets, packets)
      ensures |packets| <= |clock| && (brewActive ==> |packets| == |clock|)
      ensures StatesTargets(plan, old(homeTarget), settings, packets) && Steady(plan, packets)
      ensures !brewActive ==>
                packets != [] && FullShot(plan, InEffect(old(homeTarget), settings, |packets| - 1), packets)
    {
      assert plan.time > 0.0;
      packets, times, targets := [], [], [];
      ghost var c := Course(started, homeTarget, sequence, clock, settings);
      hide ReportedWeight, ShotTarget, WaterLevel, GoodPlan, Since, Steady, Settable, InEffect, TargetShown, SoFar,
           Onward, Reported, StatesTargets, FullShot, GoodCourse, PacketNumber;
      SoFarNothing(plan, c);
      NumbersOn(c.first, 0);
      NoneInEffect(homeTarget, settings);
      for k := 0 to |clock|
        invariant plan == old(plan) && !simulationEnabled && SoFar(plan, c, times, targets, packets)
        invariant |packets| == |times| <= k
        invariant brewActive ==> started == c.started && |packets| == k && sequence == PacketNumber(c.first, k)
        invariant homeTarget == InEffect(c.home, settings, k - 1)
        invariant !brewActive ==> times != [] && times[|times| - 1] == plan.time
      {
        NextInEffect(c.home, settings, k);
        if brewActive {
          NumbersOn(c.first, k);
          SoFarOneMore(plan, c, times, targets, packets);
        }
        var packet := SendNext(clock[k], delivered[k], settings[k]);
        ghost var time, target := Since(plan, c.started, clock[k]), TargetShown(plan, homeTarget);
        if packet.Some? {
          packets := packets + [packet.value];
          times, targets := times + [time], targets + [target];
        }
      }
      CourseEnds(plan, c, times, targets, packets);
    }
  }

  /** The last packet weighs the target it states if and only if the Home page has set none, or this one. */
  lemma LastWeightIsTarget(p: Plan, home: Option<real>, elapsed: real)
    requires GoodPlan(p) && elapsed >= p.time
    ensures ReportedWeight(p, elapsed) == TargetShown(p, home) <==> home.None? || home.value == ShotTarget(p)
  {
    hide MeasuredWeight, ShotTarget;
  }

  /** For instance: 1.2 ml a second for 30 seconds make 36 g; with 20 g set, the last packet states 20 and weighs 36. */
  lemma TargetCanDiffer()
    ensures var p := Plan(30.0, 9.0, 1.2, 93.0, 0.1, None);
            GoodPlan(p) && ReportedWeight(p, 30.0) == 36.0 && TargetShown(p, Some(20.0)) == 20.0
  {
  }
}
