// Why a strict majority of mutually compatible edges is safe: neighbourhoods of
// surviving edges intersect, the distance is a metric, and means are convex.
module TrustGeometry {
  import opened Lists
  import opened Readings
  import opened Sums
  import opened TrustModel

  lemma SubsetSize<T>(a: set<T>, b: set<T>)
    requires a <= b
    ensures |a| <= |b|
  {
    assert b == a + (b - a);
  }

  lemma {:induction false} PeersDistinct(participants: seq<EdgeId>, edge: EdgeId)
    requires NoRepeat(participants)
    ensures NoRepeat(Peers(participants, edge))
  {
    if participants != [] {
      var n := |participants| - 1;
      PeersDistinct(participants[..n], edge);
      PeersAre(participants[..n], edge);
      assert participants[n] !in participants[..n];
      var before, after := Peers(participants[..n], edge), Peers(participants, edge);
      forall i, j | 0 <= i < j < |after| ensures after[i] != after[j] {
        if j == |before| {
          assert after[i] in before;
        }
      }
    }
  }

  // The edges, the edge itself included, that an edge agrees with.
  ghost function Neighbourhood(participants: seq<EdgeId>, views: Views, edge: EdgeId): set<EdgeId>
    requires Known(views, participants) && edge in views
  {
    set p | p in participants && (p == edge || Compatible(views[edge], views[p]))
  }

  ghost function CompatibleWith(x: Reading, views: Views, edges: seq<EdgeId>): set<EdgeId> {
    set p | p in edges && p in views && Compatible(x, views[p])
  }

  lemma CompatibleWithSnoc(x: Reading, views: Views, edges: seq<EdgeId>, next: EdgeId)
    requires next !in edges && next in views
    ensures |CompatibleWith(x, views, edges + [next])|
         == |CompatibleWith(x, views, edges)| + (if Compatible(x, views[next]) then 1 else 0)
  {
    hide Compatible;
    var before, after := CompatibleWith(x, views, edges), CompatibleWith(x, views, edges + [next]);
    assert next !in before;
    if Compatible(x, views[next]) {
      assert after == before + {next};
    } else {
      assert after == before;
    }
  }

  lemma {:induction false} CountIsSize(x: Reading, views: Views, edges: seq<EdgeId>)
    requires NoRepeat(edges) && Known(views, edges)
    ensures CountCompatible(x, ReadingsOf(views, edges)) == |CompatibleWith(x, views, edges)|
  {
    hide Compatible;
    if edges == [] {
      assert CompatibleWith(x, views, edges) == {};
    } else {
      var n := |edges| - 1;
      CountIsSize(x, views, edges[..n]);
      assert ReadingsOf(views, edges)[..n] == ReadingsOf(views, edges[..n]);
      assert edges == edges[..n] + [edges[n]];
      CompatibleWithSnoc(x, views, edges[..n], edges[n]);
    }
  }

  // An edge survives when its neighbourhood is a strict majority.
  ghost predicate Survives(participants: seq<EdgeId>, views: Views, edge: EdgeId)
    requires Known(views, participants) && edge in views
  {
    |Neighbourhood(participants, views, edge)| >= Majority(|participants|)
  }

  lemma NeighbourhoodSize(participants: seq<EdgeId>, views: Views, edge: EdgeId)
    requires NoRepeat(participants) && Known(views, participants) && edge in participants
    ensures Known(views, Peers(participants, edge))
    ensures CountCompatible(views[edge], ReadingsOf(views, Peers(participants, edge))) + 1
         == |Neighbourhood(participants, views, edge)|
  {
    hide Distance, Peers;
    PeersAre(participants, edge);
    PeersDistinct(participants, edge);
    var peers := Peers(participants, edge);
    CountIsSize(views[edge], views, peers);
    var close := CompatibleWith(views[edge], views, peers);
    assert edge !in close;
    assert Neighbourhood(participants, views, edge) == close + {edge};
    assert |close + {edge}| == |close| + 1;
  }

  // The counting rule of the trust model is the majority rule on neighbourhoods.
  lemma ExcludedIffNotSurviving(round: RoundIdentity, participants: seq<EdgeId>, views: Views, edge: EdgeId)
    requires NoRepeat(participants) && Known(views, participants) && edge in participants
    requires Peers(participants, edge) != []
    ensures IsExcluded(participants, EvidenceFor(round, participants, views, edge))
       <==> !Survives(participants, views, edge)
  {
    NeighbourhoodSize(participants, views, edge);
  }

  lemma MajoritiesMeet(participants: seq<EdgeId>, a: set<EdgeId>, b: set<EdgeId>) returns (m: EdgeId)
    requires NoRepeat(participants) && a <= Elements(participants) && b <= Elements(participants)
    requires |a| >= Majority(|participants|) && |b| >= Majority(|participants|)
    ensures m in a && m in b
  {
    DistinctCount(participants);
    SubsetSize(a + b, Elements(participants));
    assert |a + b| == |a| + |b| - |a * b|;
    assert a * b != {};
    m :| m in a * b;
  }

  // Any two surviving edges agree with a common edge, so they are within twice the threshold.
  lemma MajorityIntersection(participants: seq<EdgeId>, views: Views, a: EdgeId, b: EdgeId)
    requires NoRepeat(participants) && Known(views, participants) && a in participants && b in participants
    requires Survives(participants, views, a) && Survives(participants, views, b)
    ensures exists m :: m in Neighbourhood(participants, views, a) && m in Neighbourhood(participants, views, b)
    ensures Distance(views[a], views[b]) <= 2.0 * PAIRWISE_CONSISTENCY_THRESHOLD
  {
    hide Distance;
    var m := MajoritiesMeet(participants, Neighbourhood(participants, views, a), Neighbourhood(participants, views, b));
    DistanceIsMetric(views[a], views[m], views[b]);
    DistanceIsMetric(views[b], views[m], views[a]);
    DistanceIsMetric(views[m], views[b], views[a]);
    DistanceIsMetric(views[m], views[m], views[m]);
  }

  // ---- a faulty minority ----

  // A majority of the participants reports views within delta of each other.
  ghost predicate HonestMajority(participants: seq<EdgeId>, views: Views, honest: set<EdgeId>, delta: real)
    requires Known(views, participants)
  {
    && honest <= Elements(participants)
    && |honest| >= Majority(|participants|)
    && delta <= PAIRWISE_CONSISTENCY_THRESHOLD
    && forall a, b :: a in honest && b in honest ==> Distance(views[a], views[b]) <= delta
  }

  lemma HonestEdgesSurvive(participants: seq<EdgeId>, views: Views, honest: set<EdgeId>, delta: real, edge: EdgeId)
    requires Known(views, participants) && HonestMajority(participants, views, honest, delta) && edge in honest
    ensures Survives(participants, views, edge)
  {
    SubsetSize(honest, Neighbourhood(participants, views, edge));
  }

  // A surviving edge, faulty or not, is within the threshold of some honest edge.
  lemma SurvivorsAreNearHonest(participants: seq<EdgeId>, views: Views, honest: set<EdgeId>, delta: real, edge: EdgeId)
    returns (h: EdgeId)
    requires NoRepeat(participants) && Known(views, participants)
    requires HonestMajority(participants, views, honest, delta)
    requires edge in participants && Survives(participants, views, edge)
    ensures h in honest && Distance(views[h], views[edge]) <= PAIRWISE_CONSISTENCY_THRESHOLD
  {
    h := MajoritiesMeet(participants, honest, Neighbourhood(participants, views, edge));
    DistanceIsMetric(views[edge], views[h], views[h]);
  }

  // How far a survivor may be from an honest edge h.
  lemma SurvivorReach(participants: seq<EdgeId>, views: Views, honest: set<EdgeId>, delta: real, e: EdgeId, h: EdgeId)
    requires NoRepeat(participants) && Known(views, participants)
    requires HonestMajority(participants, views, honest, delta) && h in honest
    requires e in participants && Survives(participants, views, e)
    ensures Distance(views[h], views[e]) <= delta + (if e in honest then 0.0 else PAIRWISE_CONSISTENCY_THRESHOLD)
  {
    hide Distance;
    if e !in honest {
      var g := SurvivorsAreNearHonest(participants, views, honest, delta, e);
      DistanceIsMetric(views[h], views[g], views[e]);
    }
  }

  ghost function FaultyAmong(survivors: seq<EdgeId>, honest: set<EdgeId>): nat {
    if survivors == [] then 0
    else FaultyAmong(survivors[..|survivors| - 1], honest)
         + (if survivors[|survivors| - 1] in honest then 0 else 1)
  }

  // The most that k survivors, f of them faulty, can be away from h in total.
  ghost function Reach(delta: real, k: nat, f: nat): real {
    delta * k as real + PAIRWISE_CONSISTENCY_THRESHOLD * f as real
  }

  lemma ReachStep(delta: real, k: nat, f: nat)
    ensures Reach(delta, k + 1, f) == Reach(delta, k, f) + delta
    ensures Reach(delta, k, f + 1) == Reach(delta, k, f) + PAIRWISE_CONSISTENCY_THRESHOLD
    ensures Reach(delta, 0, 0) == 0.0
  {
    NextMultiple(delta, k);
  }

  lemma {:induction false} SurvivorSum(participants: seq<EdgeId>, views: Views, honest: set<EdgeId>, delta: real,
                                       survivors: seq<EdgeId>, h: EdgeId)
    requires NoRepeat(participants) && Known(views, participants)
    requires HonestMajority(participants, views, honest, delta) && h in honest
    requires forall e :: e in survivors ==> e in participants && Survives(participants, views, e)
    ensures SumBy(DistanceTo(views[h]), ReadingsOf(views, survivors))
         <= Reach(delta, |survivors|, FaultyAmong(survivors, honest))
  {
    hide Distance, Reach;
    if survivors == [] {
      ReachStep(delta, 0, 0);
    } else {
      var n := |survivors| - 1;
      var e, f := survivors[n], FaultyAmong(survivors[..n], honest);
      SurvivorSum(participants, views, honest, delta, survivors[..n], h);
      assert ReadingsOf(views, survivors)[..n] == ReadingsOf(views, survivors[..n]);
      SurvivorReach(participants, views, honest, delta, e, h);
      ReachStep(delta, n, f);
      ReachStep(delta, n + 1, f);
    }
  }

  lemma {:induction false} FaultyAreNotHonest(survivors: seq<EdgeId>, honest: set<EdgeId>)
    requires NoRepeat(survivors)
    ensures FaultyAmong(survivors, honest) == |Elements(survivors) - honest|
  {
    if survivors == [] {
      assert Elements(survivors) - honest == {};
    } else {
      var n := |survivors| - 1;
      FaultyAreNotHonest(survivors[..n], honest);
      assert Elements(survivors) == Elements(survivors[..n]) + {survivors[n]};
      assert survivors[n] !in Elements(survivors[..n]);
      if survivors[n] in honest {
        assert Elements(survivors) - honest == Elements(survivors[..n]) - honest;
      } else {
        assert Elements(survivors) - honest == (Elements(survivors[..n]) - honest) + {survivors[n]};
      }
    }
  }

  // Faulty survivors are a strict minority of the survivors.
  lemma FaultyMinority(participants: seq<EdgeId>, survivors: seq<EdgeId>, honest: set<EdgeId>)
    requires NoRepeat(participants) && NoRepeat(survivors)
    requires Elements(survivors) <= Elements(participants) && honest <= Elements(survivors)
    requires |honest| >= Majority(|participants|)
    ensures 2 * FaultyAmong(survivors, honest) < |survivors|
  {
    FaultyAreNotHonest(survivors, honest);
    DistinctCount(survivors);
    DistinctCount(participants);
    SubsetSize(Elements(survivors), Elements(participants));
    assert |Elements(survivors) - honest| == |Elements(survivors)| - |honest|;
  }

  // The participants that survive, each listed once.
  ghost predicate AreTheSurvivors(participants: seq<EdgeId>, views: Views, survivors: seq<EdgeId>)
    requires Known(views, participants)
  {
    && NoRepeat(survivors)
    && (forall e :: e in survivors <==> e in participants && e in views && Survives(participants, views, e))
  }

  // The honest spread, plus what f faulty edges among k survivors can add to it.
  ghost function InfluenceLimit(delta: real, f: nat, k: nat): real
    requires k > 0
  {
    delta + PAIRWISE_CONSISTENCY_THRESHOLD * f as real / k as real
  }

  // The influence bound: f faulty edges among k survivors move the agreed state at most
  // 0.35 f / k beyond the honest spread delta, which is less than 0.175.
  lemma InfluenceBound(participants: seq<EdgeId>, views: Views, honest: set<EdgeId>, delta: real,
                       survivors: seq<EdgeId>, h: EdgeId)
    requires NoRepeat(participants) && Known(views, participants)
    requires HonestMajority(participants, views, honest, delta) && h in honest
    requires AreTheSurvivors(participants, views, survivors)
    ensures honest <= Elements(survivors) && |survivors| >= Majority(|participants|)
    ensures var f := FaultyAmong(survivors, honest);
            var agreed := MeanReading(ReadingsOf(views, survivors));
            && 2 * f < |survivors|
            && Distance(views[h], agreed) <= InfluenceLimit(delta, f, |survivors|)
            && Distance(views[h], agreed) < delta + PAIRWISE_CONSISTENCY_THRESHOLD / 2.0
  {
    hide Distance, InfluenceLimit, Reach;
    forall e | e in honest ensures e in Elements(survivors) {
      HonestEdgesSurvive(participants, views, honest, delta, e);
    }
    DistinctCount(survivors);
    SubsetSize(honest, Elements(survivors));
    FaultyMinority(participants, survivors, honest);
    SurvivorSum(participants, views, honest, delta, survivors, h);
    DistanceToMean(views[h], ReadingsOf(views, survivors));
    ShareBound(SumBy(DistanceTo(views[h]), ReadingsOf(views, survivors)), delta,
               FaultyAmong(survivors, honest), |survivors|);
  }

  lemma ShareBound(total: real, delta: real, f: nat, k: nat)
    requires 2 * f < k
    requires total <= Reach(delta, k, f)
    ensures total / k as real <= InfluenceLimit(delta, f, k)
    ensures total / k as real < delta + PAIRWISE_CONSISTENCY_THRESHOLD / 2.0
  {
    var n := k as real;
    var t := PAIRWISE_CONSISTENCY_THRESHOLD * f as real;
    var q, u := total / n, t / n;
    assert q * n == total && u * n == t;
    assert (delta + u) * n == delta * n + u * n;
    if q > delta + u {
      ScaleStrict(delta + u, q, n);
    }
    var half := PAIRWISE_CONSISTENCY_THRESHOLD / 2.0;
    assert t < half * n by {
      assert 2.0 * f as real < n;
    }
    if u >= half {
      ScaleAtMost(half, u, n);
    }
  }

  lemma ScaleAtMost(a: real, b: real, n: real)
    requires a <= b && n >= 0.0
    ensures a * n <= b * n
  {
  }

  // ---- the agreed state without assumptions on who is honest ----

  lemma {:induction false} OtherSurvivorsSum(participants: seq<EdgeId>, views: Views, some: seq<EdgeId>, e: EdgeId)
    requires NoRepeat(participants) && Known(views, participants) && NoRepeat(some)
    requires e in participants && Survives(participants, views, e)
    requires forall p :: p in some ==> p in participants && Survives(participants, views, p)
    ensures SumBy(DistanceTo(views[e]), ReadingsOf(views, some))
         <= 2.0 * PAIRWISE_CONSISTENCY_THRESHOLD * (if e in some then |some| - 1 else |some|) as real
  {
    hide Distance;
    if some != [] {
      var n := |some| - 1;
      OtherSurvivorsSum(participants, views, some[..n], e);
      assert ReadingsOf(views, some)[..n] == ReadingsOf(views, some[..n]);
      assert some == some[..n] + [some[n]];
      if some[n] == e {
        DistanceIsMetric(views[e], views[e], views[e]);
      } else {
        MajorityIntersection(participants, views, e, some[n]);
      }
    }
  }

  // How far the mean of k survivors can be from one of them.
  ghost function SourceLimit(k: nat): real
    requires k > 0
  {
    2.0 * PAIRWISE_CONSISTENCY_THRESHOLD * (k - 1) as real / k as real
  }

  // On its own, survival already keeps the agreed state close to every survivor.
  lemma AgreedStateNearSurvivors(participants: seq<EdgeId>, views: Views, survivors: seq<EdgeId>, e: EdgeId)
    requires NoRepeat(participants) && Known(views, participants)
    requires AreTheSurvivors(participants, views, survivors) && e in survivors
    ensures Distance(views[e], MeanReading(ReadingsOf(views, survivors))) <= SourceLimit(|survivors|)
  {
    hide Distance;
    var x, others := views[e], ReadingsOf(views, survivors);
    DistanceToMean(x, others);
    OtherSurvivorsSum(participants, views, survivors, e);
    DivideMonotone(SumBy(DistanceTo(x), others),
                   2.0 * PAIRWISE_CONSISTENCY_THRESHOLD * (|survivors| - 1) as real, |survivors| as real);
  }

  lemma DivideMonotone(a: real, b: real, n: real)
    requires a <= b && n > 0.0
    ensures a / n <= b / n
  {
    var p, q := a / n, b / n;
    assert p * n == a && q * n == b;
    if p > q {
      ScaleStrict(q, p, n);
    }
  }
}
