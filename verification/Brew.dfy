/**
 The brew sample generator: piecewise-linear curves, the sample table of a profile, and the
 packets of one brew. Floating point is modelled by real numbers.
 */
module Brew {
  const SAMPLE_DT := 100.0 / 1000.0 / 5.0
  const SAMPLES_PER_PACKET := 5

  datatype Point = Point(x: real, y: real)

  datatype Profile = Profile(
    time: real,
    pressure: real,
    flow: real,
    temperature: real,
    shot: real,
    pressureCurve: seq<Point>,
    flowCurve: seq<Point>,
    temperatureCurve: seq<Point>)

  function Max(a: real, b: real): real {
    if b > a then b else a
  }

  function Min(a: real, b: real): real {
    if b < a then b else a
  }

  function Clamp(v: real): (r: real)
    ensures 0.0 <= r <= 1.0
  {
    Max(0.0, Min(1.0, v))
  }

  // ----- curves -----

  function Between(a: Point, b: Point, c: real): real {
    if b.x - a.x <= 0.000001 then b.y else a.y + (b.y - a.y) * ((c - a.x) / (b.x - a.x))
  }

  /** The curve from segment i on. */
  function FromSegment(points: seq<Point>, i: nat, c: real): real
    requires 1 <= i <= |points|
    decreases |points| - i
  {
    if i == |points| then points[i - 1].y
    else if c <= points[i].x then Between(points[i - 1], points[i], c)
    else FromSegment(points, i + 1, c)
  }

  function Curve(points: seq<Point>, progress: real): real {
    if points == [] then 0.0
    else if Clamp(progress) <= points[0].x then points[0].y
    else FromSegment(points, 1, Clamp(progress))
  }

  method PiecewiseCurveValue(progress: real, points: seq<Point>) returns (value: real)
    ensures value == Curve(points, progress)
  {
    if |points| == 0 {
      return 0.0;
    }
    var clamped := Max(0.0, Min(1.0, progress));
    if clamped <= points[0].x {
      return points[0].y;
    }
    for index := 1 to |points|
      invariant FromSegment(points, 1, clamped) == FromSegment(points, index, clamped)
    {
      var a, b := points[index - 1], points[index];
      if clamped <= b.x {
        var span := b.x - a.x;
        if span <= 0.000001 {
          return b.y;
        }
        var local := (clamped - a.x) / span;
        return a.y + (b.y - a.y) * local;
      }
    }
    return points[|points| - 1].y;
  }

  predicate OrderedX(points: seq<Point>) {
    forall i :: 0 < i < |points| ==> points[i - 1].x <= points[i].x
  }

  predicate Rising(points: seq<Point>) {
    forall i :: 0 < i < |points| ==> points[i - 1].y <= points[i].y
  }

  lemma ScaledGrows(k: real, t: real, u: real)
    requires k >= 0.0 && t <= u
    ensures k * t <= k * u && t * k <= u * k
  {
    assert k * (u - t) >= 0.0;
  }

  lemma FractionGrows(c: real, d: real, a: real, b: real)
    requires c <= d && a < b
    ensures (c - a) / (b - a) <= (d - a) / (b - a)
  {
    var w := b - a;
    assert (d - a) / w - (c - a) / w == (d - c) / w;
  }

  lemma Fraction(c: real, a: real, b: real)
    requires a <= c <= b && a < b
    ensures 0.0 <= (c - a) / (b - a) <= 1.0
  {
    FractionGrows(a, c, a, b);
    FractionGrows(c, b, a, b);
  }

  /** A product the solver does not look into unless asked. */
  function Times(a: real, b: real): real {
    a * b
  }

  lemma Nonnegative(a: real, b: real)
    requires a >= 0.0 && b >= 0.0
    ensures a * b >= 0.0
  {
  }

  lemma PositiveShare(k: real, t: real)
    requires k >= 0.0 && 0.0 <= t <= 1.0
    ensures 0.0 <= k * t <= k
  {
    Nonnegative(k, t);
    Nonnegative(k, 1.0 - t);
    assert k * (1.0 - t) == k - k * t;
  }

  lemma TimesPositive(k: real, t: real)
    requires k >= 0.0 && 0.0 <= t <= 1.0
    ensures 0.0 <= Times(k, t) <= k
  {
    PositiveShare(k, t);
  }

  lemma TimesNegated(k: real, t: real)
    ensures Times(0.0 - k, t) == 0.0 - Times(k, t)
  {
  }

  /** A share of the way from one value towards another stays between them. */
  lemma Mixture(y0: real, d: real, t: real, lo: real, hi: real)
    requires 0.0 <= t <= 1.0 && lo <= y0 <= hi && lo <= y0 + d <= hi
    ensures lo <= y0 + Times(d, t) <= hi
  {
    hide Times;
    if d >= 0.0 {
      TimesPositive(d, t);
    } else {
      TimesPositive(0.0 - d, t);
      TimesNegated(d, t);
    }
  }

  lemma BetweenBounded(a: Point, b: Point, c: real, lo: real, hi: real)
    requires a.x <= c <= b.x && lo <= a.y <= hi && lo <= b.y <= hi
    ensures lo <= Between(a, b, c) <= hi
  {
    if b.x - a.x > 0.000001 {
      Fraction(c, a.x, b.x);
      Mixture(a.y, b.y - a.y, (c - a.x) / (b.x - a.x), lo, hi);
    }
  }

  lemma {:induction false} SegmentsBounded(points: seq<Point>, i: nat, c: real, lo: real, hi: real)
    requires 1 <= i <= |points| && OrderedX(points) && points[i - 1].x <= c
    requires forall k :: 0 <= k < |points| ==> lo <= points[k].y <= hi
    ensures lo <= FromSegment(points, i, c) <= hi
    decreases |points| - i
  {
    hide Between;
    if i < |points| {
      if c <= points[i].x {
        BetweenBounded(points[i - 1], points[i], c, lo, hi);
      } else {
        SegmentsBounded(points, i + 1, c, lo, hi);
      }
    }
  }

  /** A curve over ordered points never leaves the range of their values. */
  lemma CurveBounded(points: seq<Point>, progress: real, lo: real, hi: real)
    requires points != [] && OrderedX(points)
    requires forall k :: 0 <= k < |points| ==> lo <= points[k].y <= hi
    ensures lo <= Curve(points, progress) <= hi
  {
    if Clamp(progress) > points[0].x {
      SegmentsBounded(points, 1, Clamp(progress), lo, hi);
    }
  }

  lemma {:induction false} SegmentsFrom(points: seq<Point>, i: nat, c: real)
    requires 1 <= i <= |points| && OrderedX(points) && Rising(points) && points[i - 1].x <= c
    ensures points[i - 1].y <= FromSegment(points, i, c)
    decreases |points| - i
  {
    hide Between;
    if i < |points| {
      if c <= points[i].x {
        BetweenBounded(points[i - 1], points[i], c, points[i - 1].y, points[i].y);
      } else {
        SegmentsFrom(points, i + 1, c);
      }
    }
  }

  lemma BetweenRises(a: Point, b: Point, c: real, d: real)
    requires a.x <= c <= d <= b.x && a.y <= b.y
    ensures Between(a, b, c) <= Between(a, b, d)
  {
    if b.x - a.x > 0.000001 {
      FractionGrows(c, d, a.x, b.x);
      ScaledGrows(b.y - a.y, (c - a.x) / (b.x - a.x), (d - a.x) / (b.x - a.x));
    }
  }

  lemma {:induction false} SegmentsRise(points: seq<Point>, i: nat, c: real, d: real)
    requires 1 <= i <= |points| && OrderedX(points) && Rising(points) && points[i - 1].x <= c <= d
    ensures FromSegment(points, i, c) <= FromSegment(points, i, d)
    decreases |points| - i
  {
    hide Between;
    if i < |points| {
      if d <= points[i].x {
        BetweenRises(points[i - 1], points[i], c, d);
      } else {
        SegmentsFrom(points, i + 1, d);
        if c <= points[i].x {
          BetweenBounded(points[i - 1], points[i], c, points[i - 1].y, points[i].y);
        } else {
          SegmentsRise(points, i + 1, c, d);
        }
      }
    }
  }

  /** A curve over points rising in both coordinates rises with progress. */
  lemma CurveRises(points: seq<Point>, a: real, b: real)
    requires OrderedX(points) && Rising(points) && a <= b
    ensures Curve(points, a) <= Curve(points, b)
  {
    if points != [] && Clamp(b) > points[0].x {
      if Clamp(a) > points[0].x {
        SegmentsRise(points, 1, Clamp(a), Clamp(b));
      } else {
        SegmentsFrom(points, 1, Clamp(b));
      }
    }
  }

  // ----- the sample table -----

  /** Rounding to the nearest integer, ties to the even one. */
  function RoundHalfEven(v: real): (n: int)
    ensures -0.5 <= v - n as real <= 0.5
    ensures v - n as real in {-0.5, 0.5} ==> n % 2 == 0
  {
    var f := v.Floor;
    var rest := v - f as real;
    if rest < 0.5 then f else if rest > 0.5 then f + 1 else if f % 2 == 0 then f else f + 1
  }

  function SampleCount(p: Profile): (n: nat)
    ensures n >= 2
  {
    var rounded := RoundHalfEven(Max(SAMPLE_DT, p.time) / SAMPLE_DT);
    if rounded + 1 > 2 then rounded + 1 else 2
  }

  function Progress(p: Profile, i: int): real {
    i as real / (SampleCount(p) - 1) as real
  }

  function PressureSample(p: Profile, i: int): real {
    Max(0.0, p.pressure * Max(0.0, Curve(p.pressureCurve, Progress(p, i))))
  }

  function FlowSample(p: Profile, i: int): (f: real)
    ensures f >= 0.0
  {
    Max(0.0, p.flow * Max(0.0, Curve(p.flowCurve, Progress(p, i))))
  }

  function TemperatureStart(p: Profile): real {
    Max(20.0, p.temperature - 8.0)
  }

  function TemperatureSample(p: Profile, i: int): real {
    TemperatureStart(p) + (p.temperature - TemperatureStart(p)) * Clamp(Curve(p.temperatureCurve, Progress(p, i)))
  }

  /** The flow summed up to sample i, before it is scaled. */
  function Poured(p: Profile, i: nat): (w: real)
    ensures w >= 0.0
  {
    if i == 0 then 0.0 else Poured(p, i - 1) + FlowSample(p, i) * SAMPLE_DT
  }

  datatype Table = Table(pressure: seq<real>, flow: seq<real>, temperature: seq<real>, weight: seq<real>)

  /** Weight that starts at 0, never falls, and ends at `end`. */
  ghost predicate Filling(weight: seq<real>, end: real) {
    && |weight| >= 2
    && weight[0] == 0.0
    && (forall i, j :: 0 <= i <= j < |weight| ==> weight[i] <= weight[j])
    && weight[|weight| - 1] == end
  }

  lemma {:induction false} PouredGrows(p: Profile, i: nat, j: nat)
    requires i <= j
    ensures Poured(p, i) <= Poured(p, j)
  {
    if i < j {
      PouredGrows(p, i, j - 1);
    }
  }

  lemma SharesGrow(v: real, w: real, total: real, target: real)
    requires 0.0 <= v <= w <= total && total > 0.0 && target >= 0.0
    ensures 0.0 <= v * (target / total) <= w * (target / total) <= target
    ensures total * (target / total) == target
  {
    var scale := target / total;
    assert scale >= 0.0;
    assert total * scale == target;
    ScaledGrows(scale, 0.0, v);
    ScaledGrows(scale, v, w);
    ScaledGrows(scale, w, total);
  }

  /** The weight the table gives for sample i: its share of what is poured, scaled to the target. */
  function TableWeight(p: Profile, i: nat): real {
    var total := Poured(p, SampleCount(p) - 1);
    if total > 0.0 then Poured(p, i) * (Max(0.0, p.shot) / total) else 0.0
  }

  /** Where the table's weight ends: at the shot target, unless nothing is poured at all. */
  function EndWeight(p: Profile): (w: real)
    ensures w >= 0.0
  {
    if Poured(p, SampleCount(p) - 1) > 0.0 then Max(0.0, p.shot) else 0.0
  }

  lemma TableWeightGrows(p: Profile, i: nat, j: nat)
    requires i <= j < SampleCount(p)
    ensures 0.0 <= TableWeight(p, i) <= TableWeight(p, j) <= EndWeight(p)
    ensures j == SampleCount(p) - 1 ==> TableWeight(p, j) == EndWeight(p)
  {
    hide SampleCount, Poured;
    var n := SampleCount(p) - 1;
    PouredGrows(p, i, j);
    PouredGrows(p, j, n);
    if Poured(p, n) > 0.0 {
      SharesGrow(Poured(p, i), Poured(p, j), Poured(p, n), Max(0.0, p.shot));
    }
  }

  lemma {:induction false} NothingPoured(p: Profile, i: nat, n: nat)
    requires i <= n && Poured(p, n) <= 0.0
    ensures Poured(p, i) == 0.0
  {
    PouredGrows(p, i, n);
  }

  /** Two passes: sum the flow up, then scale the sums so that they end at the shot target. */
  method BuildProfileSamples(p: Profile) returns (t: Table)
    ensures |t.pressure| == |t.flow| == |t.temperature| == |t.weight| == SampleCount(p)
    ensures Filling(t.weight, EndWeight(p))
    ensures forall i :: 0 <= i < SampleCount(p) ==> t.weight[i] == TableWeight(p, i)
    ensures forall i :: 0 <= i < SampleCount(p) ==> t.flow[i] == FlowSample(p, i)
    ensures forall i :: 0 <= i < SampleCount(p) - 1 ==> t.pressure[i] == PressureSample(p, i)
    ensures forall i :: 0 <= i < SampleCount(p) - 1 ==> t.temperature[i] == TemperatureSample(p, i)
    ensures t.pressure[SampleCount(p) - 1] == Max(0.0, p.pressure)
    ensures t.temperature[SampleCount(p) - 1] == p.temperature
  {
    hide SampleCount, PressureSample, FlowSample, TemperatureSample, TableWeight, EndWeight, Filling, Poured;
    var n := SampleCount(p);
    var raw := SampleOnce(p);
    var weight := SecondPass(p, raw.weight);
    assert raw.flow[n - 1 := Max(0.0, raw.flow[n - 1])] == raw.flow;
    t := Table(raw.pressure[n - 1 := Max(0.0, p.pressure)],
               raw.flow[n - 1 := Max(0.0, raw.flow[n - 1])],
               raw.temperature[n - 1 := p.temperature],
               weight);
  }

  lemma FirstWeight(p: Profile)
    ensures TableWeight(p, 0) == 0.0
  {
    hide SampleCount, FlowSample;
  }

  lemma TableFills(p: Profile, weight: seq<real>)
    requires |weight| == SampleCount(p) && forall k :: 0 <= k < |weight| ==> weight[k] == TableWeight(p, k)
    ensures Filling(weight, EndWeight(p))
  {
    hide SampleCount, TableWeight, EndWeight;
    forall i, j | 0 <= i <= j < |weight|
      ensures weight[i] <= weight[j]
    {
      TableWeightGrows(p, i, j);
    }
    TableWeightGrows(p, 0, |weight| - 1);
    FirstWeight(p);
  }

  lemma UnscaledWeights(p: Profile, weight: seq<real>)
    requires |weight| == SampleCount(p) && forall k :: 0 <= k < |weight| ==> weight[k] == Poured(p, k)
    requires weight[|weight| - 1] <= 0.0
    ensures forall k :: 0 <= k < |weight| ==> weight[k] == TableWeight(p, k)
  {
    hide SampleCount, FlowSample;
    forall k | 0 <= k < |weight|
      ensures weight[k] == TableWeight(p, k)
    {
      NothingPoured(p, k, |weight| - 1);
    }
  }

  lemma PouredNext(p: Profile, i: nat)
    ensures Poured(p, i) == if i == 0 then 0.0 else Poured(p, i - 1) + FlowSample(p, i) * SAMPLE_DT
  {
  }

  /** The first pass. */
  method SampleOnce(p: Profile) returns (t: Table)
    ensures |t.pressure| == |t.flow| == |t.temperature| == |t.weight| == SampleCount(p)
    ensures forall k :: 0 <= k < SampleCount(p) ==> t.pressure[k] == PressureSample(p, k)
    ensures forall k :: 0 <= k < SampleCount(p) ==> t.flow[k] == FlowSample(p, k)
    ensures forall k :: 0 <= k < SampleCount(p) ==> t.temperature[k] == TemperatureSample(p, k)
    ensures forall k :: 0 <= k < SampleCount(p) ==> t.weight[k] == Poured(p, k)
  {
    hide SampleCount, PressureSample, FlowSample, TemperatureSample, Poured;
    var n := SampleCount(p);
    t := Table([], [], [], []);
    var sum := 0.0;
    for i := 0 to n
      invariant |t.pressure| == |t.flow| == |t.temperature| == |t.weight| == i
      invariant forall k :: 0 <= k < i ==> t.pressure[k] == PressureSample(p, k)
      invariant forall k :: 0 <= k < i ==> t.flow[k] == FlowSample(p, k)
      invariant forall k :: 0 <= k < i ==> t.temperature[k] == TemperatureSample(p, k)
      invariant forall k :: 0 <= k < i ==> t.weight[k] == Poured(p, k)
      invariant sum == if i == 0 then 0.0 else Poured(p, i - 1)
    {
      var pressure, flow, temperature := SampleAt(p, i, n);
      PouredNext(p, i);
      if i > 0 {
        sum := sum + flow * SAMPLE_DT;
      }
      t := Table(t.pressure + [pressure], t.flow + [flow], t.temperature + [temperature], t.weight + [Max(0.0, sum)]);
    }
  }

  method SampleAt(p: Profile, i: nat, n: nat) returns (pressure: real, flow: real, temperature: real)
    requires n == SampleCount(p) && i < n
    ensures pressure == PressureSample(p, i) && flow == FlowSample(p, i) && temperature == TemperatureSample(p, i)
  {
    hide SampleCount, Curve;
    var progress := i as real / (n - 1) as real;
    var start := Max(20.0, p.temperature - 8.0);
    var c1 := PiecewiseCurveValue(progress, p.pressureCurve);
    var c2 := PiecewiseCurveValue(progress, p.flowCurve);
    var c3 := PiecewiseCurveValue(progress, p.temperatureCurve);
    pressure := Max(0.0, p.pressure * Max(0.0, c1));
    flow := Max(0.0, p.flow * Max(0.0, c2));
    temperature := start + (p.temperature - start) * Max(0.0, Min(1.0, c3));
  }

  method SecondPass(p: Profile, raw: seq<real>) returns (weight: seq<real>)
    requires |raw| == SampleCount(p) && forall k :: 0 <= k < |raw| ==> raw[k] == Poured(p, k)
    ensures |weight| == |raw| && Filling(weight, EndWeight(p))
    ensures forall k :: 0 <= k < |raw| ==> weight[k] == TableWeight(p, k)
  {
    hide SampleCount, TableWeight, EndWeight, Filling, Poured;
    weight := raw;
    if raw[|raw| - 1] > 0.0 {
      weight := ScaleWeights(p, raw);
    } else {
      UnscaledWeights(p, weight);
    }
    TableFills(p, weight);
  }

  method ScaleWeights(p: Profile, raw: seq<real>) returns (weight: seq<real>)
    requires |raw| == SampleCount(p) && forall k :: 0 <= k < |raw| ==> raw[k] == Poured(p, k)
    requires raw[|raw| - 1] > 0.0
    ensures |weight| == |raw| && forall k :: 0 <= k < |raw| ==> weight[k] == TableWeight(p, k)
  {
    hide SampleCount, FlowSample;
    var n := |raw|;
    var scale := Max(0.0, p.shot) / raw[n - 1];
    weight := raw;
    for index := 0 to n
      invariant |weight| == n
      invariant forall k :: 0 <= k < index ==> weight[k] == TableWeight(p, k)
      invariant forall k :: index <= k < n ==> weight[k] == raw[k]
    {
      TableWeightGrows(p, index, n - 1);
      weight := weight[index := Max(0.0, weight[index] * scale)];
    }
    TableWeightGrows(p, n - 1, n - 1);
    weight := weight[n - 1 := Max(0.0, p.shot)];
  }
}
