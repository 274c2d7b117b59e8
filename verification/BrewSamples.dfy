/** What the sample table holds and what of it the packets report, point by point. */
module BrewSamples {
  import opened Options
  import opened Brew
  import opened BrewPackets

  // ----- curves at and between their points -----

  /** The points lie apart, inside the range of progress. */
  ghost predicate Spaced(points: seq<Point>) {
    && (forall i :: 0 < i < |points| ==> points[i].x - points[i - 1].x > 0.000001)
    && (forall i, j :: 0 <= i < j < |points| ==> points[i].x < points[j].x)
    && (forall i :: 0 <= i < |points| ==> 0.0 <= points[i].x <= 1.0)
  }

  lemma {:induction false} SegmentOf(points: seq<Point>, i: nat, k: nat, c: real)
    requires Spaced(points) && 1 <= i <= k < |points| && points[k - 1].x < c <= points[k].x
    ensures FromSegment(points, i, c) == Between(points[k - 1], points[k], c)
    decreases k - i
  {
    if i < k {
      assert points[i].x <= points[k - 1].x;
      SegmentOf(points, i + 1, k, c);
    }
  }

  lemma BetweenEnds(a: Point, b: Point)
    requires b.x - a.x > 0.000001
    ensures Between(a, b, b.x) == b.y
  {
    assert (b.x - a.x) / (b.x - a.x) == 1.0;
    assert a.y + (b.y - a.y) * 1.0 == b.y;
  }

  /** A curve goes through its points. */
  lemma CurveHits(points: seq<Point>, k: nat)
    requires Spaced(points) && k < |points|
    ensures Curve(points, points[k].x) == points[k].y
  {
    if k > 0 {
      hide Between;
      assert points[0].x < points[k].x;
      SegmentOf(points, 1, k, points[k].x);
      BetweenEnds(points[k - 1], points[k]);
    }
  }

  /** In between it is a straight line. */
  lemma CurveStraight(points: seq<Point>, k: nat, c: real)
    requires Spaced(points) && 0 < k < |points| && points[k - 1].x < c <= points[k].x
    ensures var a, b := points[k - 1], points[k];
            (Curve(points, c) - a.y) * (b.x - a.x) == (b.y - a.y) * (c - a.x)
  {
    var a, b := points[k - 1], points[k];
    assert points[0].x < c;
    SegmentOf(points, 1, k, c);
    hide FromSegment;
    Line(a.y, b.y - a.y, c - a.x, b.x - a.x);
  }

  lemma Line(y: real, rise: real, part: real, whole: real)
    requires whole > 0.0
    ensures (y + rise * (part / whole) - y) * whole == rise * part
  {
    assert part / whole * whole == part;
    assert rise * (part / whole) * whole == rise * (part / whole * whole);
  }

  // ----- the samples of a table -----

  /** A brew of n sample intervals has n + 1 samples, and sample i stands for time i in n. */
  lemma SampleTimes(p: Profile, n: nat, i: nat)
    requires n >= 1 && p.time == n as real * SAMPLE_DT && i <= n
    ensures SampleCount(p) == n + 1 && Progress(p, i) == i as real / n as real
    ensures Progress(p, i) * p.time == i as real * SAMPLE_DT
  {
    assert p.time >= SAMPLE_DT;
    assert p.time / SAMPLE_DT == n as real;
    assert RoundHalfEven(n as real) == n;
    var r, m := i as real, n as real;
    assert r / m * m == r;
    assert r / m * (m * SAMPLE_DT) == (r / m * m) * SAMPLE_DT;
  }

  /** Where a sample meets a point of its curve, it is the target times that value; negative ones count as nothing. */
  lemma SamplesHit(p: Profile, i: nat, k: nat)
    requires Spaced(p.pressureCurve) && Spaced(p.flowCurve) && Spaced(p.temperatureCurve)
    ensures k < |p.pressureCurve| && Progress(p, i) == p.pressureCurve[k].x && p.pressure >= 0.0 ==>
              PressureSample(p, i) == if p.pressureCurve[k].y <= 0.0 then 0.0 else p.pressure * p.pressureCurve[k].y
    ensures k < |p.flowCurve| && Progress(p, i) == p.flowCurve[k].x && p.flow >= 0.0 ==>
              FlowSample(p, i) == if p.flowCurve[k].y <= 0.0 then 0.0 else p.flow * p.flowCurve[k].y
    ensures k < |p.temperatureCurve| && Progress(p, i) == p.temperatureCurve[k].x
            && 0.0 <= p.temperatureCurve[k].y <= 1.0 ==>
              TemperatureSample(p, i) - TemperatureStart(p)
              == (p.temperature - TemperatureStart(p)) * p.temperatureCurve[k].y
  {
    hide Curve, Progress, SampleCount, TemperatureStart;
    if k < |p.pressureCurve| {
      CurveHits(p.pressureCurve, k);
      ProductSign(p.pressure, p.pressureCurve[k].y);
    }
    if k < |p.flowCurve| {
      CurveHits(p.flowCurve, k);
      ProductSign(p.flow, p.flowCurve[k].y);
    }
    if k < |p.temperatureCurve| {
      CurveHits(p.temperatureCurve, k);
    }
  }

  lemma ProductSign(a: real, b: real)
    ensures a >= 0.0 && b >= 0.0 ==> a * b >= 0.0
    ensures a * 0.0 == 0.0
  {
  }

  /** The temperature starts 8 degrees below its target, or at 20, and is never outside that span. */
  lemma TemperatureSpan(p: Profile, i: nat)
    requires p.temperature >= 20.0
    ensures TemperatureStart(p) == (if p.temperature >= 28.0 then p.temperature - 8.0 else 20.0)
    ensures TemperatureStart(p) <= TemperatureSample(p, i) <= p.temperature
  {
    assert 20.0 <= TemperatureStart(p) <= p.temperature;
    hide TemperatureStart, Clamp, Curve, Progress, Times, TemperatureSample;
    WarmedAt(p, i);
    Mixture(TemperatureStart(p), p.temperature - TemperatureStart(p), Clamp(Curve(p.temperatureCurve, Progress(p, i))),
            TemperatureStart(p), p.temperature);
  }

  lemma WarmedAt(p: Profile, i: nat)
    ensures TemperatureSample(p, i)
            == TemperatureStart(p) + Times(p.temperature - TemperatureStart(p),
                                           Clamp(Curve(p.temperatureCurve, Progress(p, i))))
  {
    hide TemperatureStart, Clamp, Curve, Progress;
  }

  /** The weight of a sample is to the target as what is poured until then is to what is poured at all. */
  lemma WeightShares(p: Profile, i: nat)
    requires i < SampleCount(p) && Poured(p, SampleCount(p) - 1) > 0.0
    ensures TableWeight(p, i) * Poured(p, SampleCount(p) - 1) == Poured(p, i) * Max(0.0, p.shot)
  {
    hide SampleCount, Poured, Max;
    Shares(Poured(p, i), Max(0.0, p.shot), Poured(p, SampleCount(p) - 1));
  }

  lemma Shares(a: real, b: real, c: real)
    requires c > 0.0
    ensures a * (b / c) * c == a * b
  {
    assert b / c * c == b;
    assert a * (b / c) * c == a * (b / c * c);
  }

  // ----- what the packets report -----

  lemma CursorAt(p: Plan, k: nat, e: real)
    requires HasTable(p) && 0.0 <= e < p.time && k < |p.table.value.weight|
    requires k as real * SAMPLE_DT <= e < (k + 1) as real * SAMPLE_DT
    ensures Cursor(p, e) == k
  {
    var at := e / SAMPLE_DT;
    assert k as real <= at < (k + 1) as real;
    assert at.Floor == k;
  }

  /** Sample k is reported from its time to the next, unless that is ahead of the share of the brew that has passed. */
  lemma TableReported(p: Plan, k: nat, e: real)
    requires GoodPlan(p) && HasTable(p) && 0.0 <= e < p.time && k < |p.table.value.weight|
    requires k as real * SAMPLE_DT <= e < (k + 1) as real * SAMPLE_DT
    ensures var w, due := p.table.value.weight[k], ShotTarget(p) * (e / p.time);
            ReportedWeight(p, e) == if w <= due then w else due
  {
    CursorAt(p, k, e);
    var w := p.table.value.weight;
    assert w[0] == 0.0 && w[0] <= w[k];
    Share(e, p.time);
    hide Cursor, ShotTarget;
  }

  lemma Share(e: real, time: real)
    requires 0.0 <= e < time
    ensures 0.0 <= e / time <= 1.0 && Clamp(e / time) == e / time
  {
    QuotientGrows(0.0, e, time);
    QuotientGrows(e, time, time);
    assert time / time == 1.0;
  }

  /** With the table built for a profile, that is the weight of the profile's sample. */
  lemma ProfileReported(profile: Profile, table: Table, p: Plan, k: nat, e: real)
    requires p.table == Some(table) && GoodPlan(p) && 0.0 <= e < p.time
    requires |table.weight| == SampleCount(profile)
    requires forall i :: 0 <= i < SampleCount(profile) ==> table.weight[i] == TableWeight(profile, i)
    requires k < SampleCount(profile) && k as real * SAMPLE_DT <= e < (k + 1) as real * SAMPLE_DT
    ensures var w, due := TableWeight(profile, k), ShotTarget(p) * (e / p.time);
            ReportedWeight(p, e) == if w <= due then w else due
  {
    hide SampleCount, TableWeight, ShotTarget, ReportedWeight, GoodPlan;
    TableReported(p, k, e);
  }

  /** The water level falls by 0.45 percent a gram, to 0. */
  lemma WaterExactly(weight: real)
    requires weight >= 0.0
    ensures weight * 0.45 <= 100.0 ==> WaterLevel(weight) == 100.0 - weight * 0.45
    ensures weight * 0.45 >= 100.0 ==> WaterLevel(weight) == 0.0
  {
  }

  /** For instance: 36 g rising evenly over 30 seconds weigh 18 g after 15, with 91.9 percent of the water left. */
  lemma EvenBrew(p: Plan)
    requires GoodPlan(p) && p.time == 30.0 && p.flow == 0.0 && HasTable(p) && |p.table.value.weight| == 1501
    requires forall i :: 0 <= i < 1501 ==> p.table.value.weight[i] == i as real * 0.024
    ensures ReportedWeight(p, 15.0) == 18.0 && WaterLevel(18.0) == 91.9
  {
    TableReported(p, 750, 15.0);
    assert p.table.value.weight[1500] == 36.0 && p.table.value.weight[750] == 18.0;
    assert ShotTarget(p) == 36.0;
    assert 15.0 / 30.0 == 0.5;
    hide ReportedWeight;
  }

  /** Without a table, as long as no sample of the packet is clamped, the weight grows with the square of time. */
  lemma SynthesisedReported(p: Plan, e: real)
    requires p.table.None? && p.flow >= 0.0 && p.time >= 1.0 && p.interval >= 0.0
    requires 0.0 <= e && e + 0.8 * p.interval <= p.time && e < p.time
    ensures ReportedWeight(p, e) * p.time == p.flow * (e + 0.4 * p.interval) * e
  {
    forall k: nat | k < 5
      ensures Synthesised(p, e, k) == p.flow * ((e + p.interval / 5.0 * k as real) / p.time)
    {
      SynthesisedIs(p, e, k);
    }
    Average(p, e);
    hide AverageFlow, Synthesised, FlowAt, Clamp, Max, Min;
    BelowTarget(p, e);
  }

  lemma SynthesisedIs(p: Plan, e: real, k: nat)
    requires p.flow >= 0.0 && p.time >= 1.0 && p.interval >= 0.0 && k < 5
    requires 0.0 <= e && e + 0.8 * p.interval <= p.time
    ensures Synthesised(p, e, k) == p.flow * ((e + p.interval / 5.0 * k as real) / p.time)
  {
    OffsetWithin(p, k);
    hide Offset;
    FlowIs(p, e + Offset(p, k));
  }

  lemma OffsetWithin(p: Plan, k: nat)
    requires p.interval >= 0.0 && k < 5
    ensures Offset(p, k) == p.interval / 5.0 * k as real
    ensures 0.0 <= Offset(p, k) <= 0.8 * p.interval
  {
    WithinStep(p.interval, k as real);
  }

  lemma WithinStep(step: real, k: real)
    requires step >= 0.0 && 0.0 <= k <= 4.0
    ensures 0.0 <= step * k <= 4.0 * step
  {
    Nonnegative(step, k);
    Nonnegative(step, 4.0 - k);
    assert step * (4.0 - k) == step * 4.0 - step * k;
  }

  lemma FlowIs(p: Plan, t: real)
    requires p.flow >= 0.0 && p.time >= 1.0 && 0.0 <= t <= p.time
    ensures FlowAt(p, t) == p.flow * (t / p.time)
  {
    QuotientGrows(0.0, t, p.time);
    QuotientGrows(t, p.time, p.time);
    assert p.time / p.time == 1.0;
    Nonnegative(p.flow, t / p.time);
  }

  lemma Average(p: Plan, e: real)
    requires p.time >= 1.0
    requires forall k: nat :: k < 5 ==> Synthesised(p, e, k) == p.flow * ((e + p.interval / 5.0 * k as real) / p.time)
    ensures AverageFlow(p, e) * p.time == p.flow * (e + 0.4 * p.interval)
  {
    hide Synthesised;
    var d := p.interval / 5.0;
    Part(p.flow, e + d * 0.0, p.time);
    Part(p.flow, e + d * 1.0, p.time);
    Part(p.flow, e + d * 2.0, p.time);
    Part(p.flow, e + d * 3.0, p.time);
    Part(p.flow, e + d * 4.0, p.time);
  }

  lemma Part(a: real, t: real, time: real)
    requires time > 0.0
    ensures a * (t / time) * time == a * t
  {
    assert t / time * time == t;
    assert a * (t / time) * time == a * (t / time * time);
  }

  lemma BelowTarget(p: Plan, e: real)
    requires p.table.None? && p.flow >= 0.0 && p.time >= 1.0 && p.interval >= 0.0
    requires 0.0 <= e && e + 0.8 * p.interval <= p.time && e < p.time
    requires AverageFlow(p, e) * p.time == p.flow * (e + 0.4 * p.interval)
    ensures ReportedWeight(p, e) * p.time == p.flow * (e + 0.4 * p.interval) * e
  {
    hide AverageFlow, ShotTarget, MeasuredWeight, Clamp;
    TargetShare(p, e);
    Share(e, p.time);
    Slower(AverageFlow(p, e), p.flow, e + 0.4 * p.interval, p.time, e);
    Measured(p, e);
    Exchanged(AverageFlow(p, e), e, p.time);
  }

  lemma Measured(p: Plan, e: real)
    requires p.table.None? && e >= 0.0
    ensures MeasuredWeight(p, e) == AverageFlow(p, e) * e
  {
    hide AverageFlow;
    Nonnegative(AverageFlow(p, e), e);
  }

  lemma Exchanged(a: real, b: real, c: real)
    ensures a * b * c == a * c * b
  {
  }

  lemma Slower(average: real, flow: real, mid: real, time: real, e: real)
    requires flow >= 0.0 && mid <= time && time > 0.0 && e >= 0.0 && average * time == flow * mid
    ensures average * e <= flow * e
  {
    ScaledGrows(flow, mid, time);
    Divided(average, flow, time);
    ScaledGrows(e, average, flow);
  }

  lemma Divided(a: real, b: real, c: real)
    requires c > 0.0 && a * c <= b * c
    ensures a <= b
  {
    QuotientGrows(a * c, b * c, c);
    assert a * c / c == a && b * c / c == b;
  }

  lemma TargetShare(p: Plan, e: real)
    requires p.table.None? && p.flow >= 0.0 && p.time >= 1.0
    ensures ShotTarget(p) == p.flow * p.time
    ensures ShotTarget(p) * (e / p.time) == p.flow * e
  {
    Nonnegative(p.flow, p.time);
    assert p.flow * p.time * (e / p.time) == p.flow * (e / p.time * p.time);
    assert e / p.time * p.time == e;
  }
}
