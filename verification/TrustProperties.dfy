// What the published trust evidence says about the score, and why neither depends
// on the order in which the edges are listed.
module TrustProperties {
  import opened Rounding
  import opened Readings
  import opened Sums
  import opened TrustModel
  import opened TrustGeometry

  // ---- what the constants mean ----

  // Views that differ in one sensor alone are compatible up to 21 degrees, 3.15 bar or 630 rpm.
  lemma OneSensorTolerance(x: Reading, gap: real)
    ensures Compatible(x, x.(temperature := x.temperature + gap)) <==> Abs(gap) <= 21.0
    ensures Compatible(x, x.(pressure := x.pressure + gap)) <==> Abs(gap) <= 3.15
    ensures Compatible(x, x.(rpm := x.rpm + gap)) <==> Abs(gap) <= 630.0
  {
  }

  // ---- the evidence explains the score ----

  // The rounding error that three published sensor deviations carry into their blend.
  const BLENDED_HALF_STEP: real := Blend(HALF_STEP, HALF_STEP, HALF_STEP)

  lemma SensorDeviationsAre(x: Reading, others: seq<Reading>)
    requires others != []
    ensures Deviations(x, SENSORS, others)
         == [SensorDeviation(Temperature, RoundedMean(GapTo(Temperature, x), others)),
             SensorDeviation(Pressure, RoundedMean(GapTo(Pressure, x), others)),
             SensorDeviation(Rpm, RoundedMean(GapTo(Rpm, x), others))]
  {
  }

  // The deviation behind the score is the scaled average of the mean sensor gaps, so a reader can
  // recompute it from the published sensor deviations up to the two roundings.
  lemma EvidenceExplainsDeviation(round: RoundIdentity, participants: seq<EdgeId>, views: Views, edge: EdgeId)
    requires Known(views, participants) && edge in views && Peers(participants, edge) != []
    ensures Known(views, Peers(participants, edge))
    ensures var ev := EvidenceFor(round, participants, views, edge);
            var others := ReadingsOf(views, Peers(participants, edge));
            var d := ev.sensorDeviations;
            && ev.deviation == Round3(Blend(Mean(GapTo(Temperature, views[edge]), others),
                                            Mean(GapTo(Pressure, views[edge]), others),
                                            Mean(GapTo(Rpm, views[edge]), others)))
            && |d| == 3 && (forall i :: 0 <= i < 3 ==> d[i].sensor == SENSORS[i])
            && Abs(ev.deviation - Blend(d[0].value, d[1].value, d[2].value)) <= HALF_STEP + BLENDED_HALF_STEP
  {
    hide Distance, Blend, Peers;
    PeersAre(participants, edge);
    var x, others := views[edge], ReadingsOf(views, Peers(participants, edge));
    MeanOfDistances(x, others);
    SensorDeviationsAre(x, others);
    BlendOfRounded(Mean(GapTo(Temperature, x), others), Mean(GapTo(Pressure, x), others), Mean(GapTo(Rpm, x), others));
    Round3Error(Mean(DistanceTo(x), others));
  }

  lemma BlendOfRounded(t: real, p: real, r: real)
    ensures Abs(Blend(t, p, r) - Blend(Round3(t), Round3(p), Round3(r))) <= BLENDED_HALF_STEP
  {
    Round3Error(t);
    Round3Error(p);
    Round3Error(r);
    hide Round3;
    var h := HALF_STEP;
    BlendAdds(Round3(t), Round3(p), Round3(r), h, h, h);
    BlendAdds(t, p, r, h, h, h);
    BlendMonotone(t, p, r, Round3(t) + h, Round3(p) + h, Round3(r) + h);
    BlendMonotone(Round3(t), Round3(p), Round3(r), t + h, p + h, r + h);
  }

  lemma RowBound(i: nat, j: nat, n: nat, w: nat)
    requires j < w && i <= n
    ensures 0 <= i * w + j < (n + 1) * w == n * w + w
    ensures i < n ==> i * w + j < n * w
  {
    assert (i + 1) * w == i * w + w;
    if i < n {
      assert (i + 1) * w <= n * w;
    }
  }

  // The pair distances are listed sensor by sensor, and peer by peer within a sensor.
  lemma {:induction false} PairDistanceAt(views: Views, x: Reading, sensors: seq<Sensor>, peers: seq<EdgeId>, i: nat, j: nat)
    requires Known(views, peers) && i < |sensors| && j < |peers|
    ensures 0 <= i * |peers| + j < |AllPairs(views, x, sensors, peers)|
    ensures AllPairs(views, x, sensors, peers)[i * |peers| + j]
         == PairDistance(peers[j], sensors[i], Round3(Gap(sensors[i], x, views[peers[j]])))
  {
    var n, w := |sensors| - 1, |peers|;
    RowBound(i, j, n, w);
    var earlier := AllPairs(views, x, sensors[..n], peers);
    if i < n {
      PairDistanceAt(views, x, sensors[..n], peers, i, j);
      assert sensors[..n][i] == sensors[i];
    }
  }

  lemma ReciprocalAntitone(a: real, b: real)
    requires 0.0 < a <= b
    ensures 0.0 < 1.0 / b <= 1.0 / a
  {
    var p, q := 1.0 / a, 1.0 / b;
    assert p * a == 1.0 && q * b == 1.0;
    if q > p {
      ScaleStrict(p, q, b);
      ScaleAtMost(a, b, p);
    }
  }

  // Scores lie in [0, 1], and an edge further from its peers never scores higher.
  lemma ScoreAntitone(x: Reading, others: seq<Reading>, y: Reading, yOthers: seq<Reading>)
    requires others != [] && yOthers != []
    requires Mean(DistanceTo(x), others) <= Mean(DistanceTo(y), yOthers)
    ensures 0.0 <= ScoreOf(DeviationOf(y, yOthers)) <= ScoreOf(DeviationOf(x, others)) <= 1.0
  {
    hide Distance, Mean;
    Round3Monotone(Mean(DistanceTo(x), others), Mean(DistanceTo(y), yOthers));
    var a, b := DeviationOf(x, others), DeviationOf(y, yOthers);
    hide Round3;
    ReciprocalAntitone(1.0 + a, 1.0 + b);
    ReciprocalAntitone(1.0, 1.0 + a);
    Round3Monotone(1.0 / (1.0 + b), 1.0 / (1.0 + a));
    Round3Monotone(1.0 / (1.0 + a), 1.0);
    Round3Monotone(0.0, 1.0 / (1.0 + b));
    Round3OnGrid(0);
    Round3OnGrid(1000);
  }

  // ---- order of the edges ----

  lemma {:induction false} PeersMultiset(participants: seq<EdgeId>, edge: EdgeId)
    ensures multiset(Peers(participants, edge)) == multiset(participants)[edge := 0]
  {
    if participants != [] {
      var n := |participants| - 1;
      PeersMultiset(participants[..n], edge);
      assert participants == participants[..n] + [participants[n]];
    }
  }

  function Without(s: seq<EdgeId>, k: nat): (r: seq<EdgeId>)
    requires k < |s|
    ensures |r| == |s| - 1
    ensures multiset(r) == multiset(s) - multiset{s[k]}
  {
    assert s == s[..k] + [s[k]] + s[k + 1..];
    s[..k] + s[k + 1..]
  }

  lemma ReadingsWithout(views: Views, s: seq<EdgeId>, k: nat)
    requires Known(views, s) && k < |s|
    ensures Known(views, Without(s, k))
    ensures multiset(ReadingsOf(views, s)) == multiset(ReadingsOf(views, Without(s, k))) + multiset{views[s[k]]}
  {
    var r := ReadingsOf(views, s);
    assert r == r[..k] + [r[k]] + r[k + 1..];
    assert ReadingsOf(views, Without(s, k)) == r[..k] + r[k + 1..];
  }

  lemma {:induction false} ReadingsPermute(views: Views, a: seq<EdgeId>, b: seq<EdgeId>)
    requires Known(views, a) && Known(views, b) && multiset(a) == multiset(b)
    ensures multiset(ReadingsOf(views, a)) == multiset(ReadingsOf(views, b))
    decreases |a|
  {
    hide Without;
    if a == [] {
      assert |multiset(b)| == 0;
    } else {
      assert a[0] in multiset(b);
      var k :| 0 <= k < |b| && b[k] == a[0];
      ReadingsWithout(views, a, 0);
      ReadingsWithout(views, b, k);
      ReadingsPermute(views, Without(a, 0), Without(b, k));
    }
  }

  function OneIfCompatible(x: Reading): Reading -> real {
    (r: Reading) => if Compatible(x, r) then 1.0 else 0.0
  }

  lemma {:induction false} CountAsSum(x: Reading, others: seq<Reading>)
    ensures CountCompatible(x, others) as real == SumBy(OneIfCompatible(x), others)
  {
    if others != [] {
      CountAsSum(x, others[..|others| - 1]);
    }
  }

  // Two records about the same edge that differ at most in the order of the pair distances.
  ghost predicate SameFinding(a: Evidence, b: Evidence) {
    a == b.(pairDistances := a.pairDistances)
  }

  lemma FindingsPermute(x: Reading, s: seq<Reading>, t: seq<Reading>)
    requires s != [] && t != [] && multiset(s) == multiset(t)
    ensures CountCompatible(x, s) == CountCompatible(x, t)
    ensures DeviationOf(x, s) == DeviationOf(x, t)
    ensures Deviations(x, SENSORS, s) == Deviations(x, SENSORS, t)
  {
    hide Distance, Round3, SumBy;
    assert |s| == |multiset(s)| == |multiset(t)| == |t|;
    CountAsSum(x, s);
    CountAsSum(x, t);
    SumPermute(OneIfCompatible(x), s, t);
    SumPermute(DistanceTo(x), s, t);
    SumPermute(GapTo(Temperature, x), s, t);
    SumPermute(GapTo(Pressure, x), s, t);
    SumPermute(GapTo(Rpm, x), s, t);
    SensorDeviationsAre(x, s);
    SensorDeviationsAre(x, t);
  }

  // Listing the participants in another order changes no finding about any edge.
  lemma EvidencePermute(round: RoundIdentity, a: seq<EdgeId>, b: seq<EdgeId>, views: Views, edge: EdgeId)
    requires multiset(a) == multiset(b) && Known(views, a) && edge in views && Peers(a, edge) != []
    ensures Known(views, b) && Peers(b, edge) != []
    ensures SameFinding(EvidenceFor(round, a, views, edge), EvidenceFor(round, b, views, edge))
    ensures IsExcluded(a, EvidenceFor(round, a, views, edge)) <==> IsExcluded(b, EvidenceFor(round, b, views, edge))
  {
    hide Distance, Peers, CountCompatible, DeviationOf, Deviations, AllPairs;
    forall p | p in b ensures p in views {
      assert p in multiset(b);
      assert p in a;
    }
    PeersMultiset(a, edge);
    PeersMultiset(b, edge);
    var p, q := Peers(a, edge), Peers(b, edge);
    assert |q| == |multiset(q)| == |multiset(p)| == |p|;
    assert |a| == |multiset(a)| == |multiset(b)| == |b|;
    PeersAre(a, edge);
    PeersAre(b, edge);
    ReadingsPermute(views, p, q);
    FindingsPermute(views[edge], ReadingsOf(views, p), ReadingsOf(views, q));
  }
}
