// One edge's view of the compressor, the scaled distance between two views, and
// the mean of a collection of views.
module Readings {
  import opened Rounding
  import opened Sums

  type EdgeId = string

  datatype Sensor = Temperature | Pressure | Rpm

  const SENSORS: seq<Sensor> := [Temperature, Pressure, Rpm]

  datatype Reading = Reading(temperature: real, pressure: real, rpm: real) {
    function At(s: Sensor): real {
      match s
      case Temperature => temperature
      case Pressure => pressure
      case Rpm => rpm
    }
  }

  function Scale(s: Sensor): (r: real)
    ensures r > 0.0
  {
    match s
    case Temperature => 20.0
    case Pressure => 3.0
    case Rpm => 600.0
  }

  function Gap(s: Sensor, a: Reading, b: Reading): (r: real)
    ensures r >= 0.0
  {
    Abs(a.At(s) - b.At(s))
  }

  // The average over the sensors of three gaps, each in units of its sensor's scale.
  function Blend(t: real, p: real, r: real): real {
    (t / Scale(Temperature) + p / Scale(Pressure) + r / Scale(Rpm)) / 3.0
  }

  lemma BlendMonotone(t: real, p: real, r: real, t': real, p': real, r': real)
    requires t <= t' && p <= p' && r <= r'
    ensures Blend(t, p, r) <= Blend(t', p', r')
  {
  }

  lemma BlendAdds(t: real, p: real, r: real, t': real, p': real, r': real)
    ensures Blend(t + t', p + p', r + r') == Blend(t, p, r) + Blend(t', p', r')
  {
  }

  lemma BlendDivides(t: real, p: real, r: real, n: real)
    requires n > 0.0
    ensures Blend(t / n, p / n, r / n) == Blend(t, p, r) / n
  {
    var t', p', r' := t / n, p / n, r / n;
    BlendScales(t', p', r', n);
    assert t' * n == t && p' * n == p && r' * n == r;
  }

  lemma BlendScales(t: real, p: real, r: real, n: real)
    ensures Blend(t * n, p * n, r * n) == Blend(t, p, r) * n
  {
    assert (t * n) / 20.0 == (t / 20.0) * n;
    assert (p * n) / 3.0 == (p / 3.0) * n;
    assert (r * n) / 600.0 == (r / 600.0) * n;
    var a, b, c := t / 20.0, p / 3.0, r / 600.0;
    assert a * n + b * n + c * n == (a + b + c) * n;
  }

  function Distance(a: Reading, b: Reading): (r: real)
    ensures r >= 0.0
  {
    Blend(Gap(Temperature, a, b), Gap(Pressure, a, b), Gap(Rpm, a, b))
  }

  // The distance is a metric on readings.
  lemma DistanceIsMetric(a: Reading, b: Reading, c: Reading)
    ensures Distance(a, b) == Distance(b, a)
    ensures Distance(a, b) == 0.0 <==> a == b
    ensures Distance(a, c) <= Distance(a, b) + Distance(b, c)
  {
    Triangle(a, b, c);
    if Distance(a, b) == 0.0 {
      assert Gap(Temperature, a, b) == 0.0 && Gap(Pressure, a, b) == 0.0 && Gap(Rpm, a, b) == 0.0;
    }
  }

  lemma Triangle(a: Reading, b: Reading, c: Reading)
    ensures Distance(a, c) <= Distance(a, b) + Distance(b, c)
  {
    BlendMonotone(Gap(Temperature, a, c), Gap(Pressure, a, c), Gap(Rpm, a, c),
                  Gap(Temperature, a, b) + Gap(Temperature, b, c),
                  Gap(Pressure, a, b) + Gap(Pressure, b, c),
                  Gap(Rpm, a, b) + Gap(Rpm, b, c));
    BlendAdds(Gap(Temperature, a, b), Gap(Pressure, a, b), Gap(Rpm, a, b),
              Gap(Temperature, b, c), Gap(Pressure, b, c), Gap(Rpm, b, c));
  }

  // ---- named views of a reading, so that equal summands are equal functions ----

  function ValueOf(s: Sensor): Reading -> real {
    (r: Reading) => r.At(s)
  }

  function GapTo(s: Sensor, x: Reading): Reading -> real {
    (r: Reading) => Gap(s, x, r)
  }

  function DistanceTo(x: Reading): Reading -> real {
    (r: Reading) => Distance(x, r)
  }

  // ---- means ----

  function MeanReading(s: seq<Reading>): Reading
    requires s != []
  {
    Reading(Mean(ValueOf(Temperature), s), Mean(ValueOf(Pressure), s), Mean(ValueOf(Rpm), s))
  }

  // The mean distance to x is the mean, over the sensors, of the scaled mean gaps.
  lemma {:induction false} SumOfDistances(x: Reading, s: seq<Reading>)
    ensures SumBy(DistanceTo(x), s)
         == Blend(SumBy(GapTo(Temperature, x), s), SumBy(GapTo(Pressure, x), s), SumBy(GapTo(Rpm, x), s))
  {
    if s != [] {
      var t, last := s[..|s| - 1], s[|s| - 1];
      SumOfDistances(x, t);
      BlendAdds(SumBy(GapTo(Temperature, x), t), SumBy(GapTo(Pressure, x), t), SumBy(GapTo(Rpm, x), t),
                Gap(Temperature, x, last), Gap(Pressure, x, last), Gap(Rpm, x, last));
    }
  }

  function Excess(k: Sensor, x: Reading): Reading -> real {
    (r: Reading) => x.At(k) - r.At(k)
  }

  lemma {:induction false} SumOfExcess(k: Sensor, x: Reading, s: seq<Reading>)
    ensures SumBy(Excess(k, x), s) == x.At(k) * |s| as real - SumBy(ValueOf(k), s)
  {
    if s == [] {
      assert x.At(k) * 0.0 == 0.0;
    } else {
      SumOfExcess(k, x, s[..|s| - 1]);
      NextMultiple(x.At(k), |s| - 1);
    }
  }

  lemma {:induction false} SumGapBound(k: Sensor, x: Reading, s: seq<Reading>)
    ensures Abs(SumBy(Excess(k, x), s)) <= SumBy(GapTo(k, x), s)
  {
    if s != [] {
      SumGapBound(k, x, s[..|s| - 1]);
      AddTriangle(SumBy(Excess(k, x), s[..|s| - 1]), Excess(k, x)(s[|s| - 1]));
    }
  }

  lemma GapToMean(k: Sensor, x: Reading, s: seq<Reading>)
    requires s != []
    ensures Gap(k, x, MeanReading(s)) <= Mean(GapTo(k, x), s)
  {
    SumGapBound(k, x, s);
    SumOfExcess(k, x, s);
    var n, v, g := |s| as real, SumBy(ValueOf(k), s), SumBy(GapTo(k, x), s);
    DivideGap(x.At(k), v, g, n);
    assert MeanReading(s).At(k) == v / n;
  }

  // Convexity: x is no further from the mean of s than it is from s on average.
  lemma DistanceToMean(x: Reading, s: seq<Reading>)
    requires s != []
    ensures Distance(x, MeanReading(s)) <= Mean(DistanceTo(x), s)
  {
    GapToMean(Temperature, x, s);
    GapToMean(Pressure, x, s);
    GapToMean(Rpm, x, s);
    MeanOfDistances(x, s);
    var m := MeanReading(s);
    BlendMonotone(Gap(Temperature, x, m), Gap(Pressure, x, m), Gap(Rpm, x, m),
                  Mean(GapTo(Temperature, x), s), Mean(GapTo(Pressure, x), s), Mean(GapTo(Rpm, x), s));
  }

  lemma MeanOfDistances(x: Reading, s: seq<Reading>)
    requires s != []
    ensures Mean(DistanceTo(x), s)
         == Blend(Mean(GapTo(Temperature, x), s), Mean(GapTo(Pressure, x), s), Mean(GapTo(Rpm, x), s))
  {
    SumOfDistances(x, s);
    BlendDivides(SumBy(GapTo(Temperature, x), s), SumBy(GapTo(Pressure, x), s), SumBy(GapTo(Rpm, x), s), |s| as real);
  }
}
