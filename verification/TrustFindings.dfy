// What an evaluated round publishes about each of its participants, read off the views.
module TrustFindings {
  import opened Wrappers
  import opened Rounding
  import opened Readings
  import opened Sums
  import opened TrustModel
  import opened TrustProperties

  // The view of an edge is the last of its states.
  lemma {:induction false} ViewIsTheLast(states: seq<ReplicatedState>, e: EdgeId) returns (i: nat)
    requires e in ByEdge(states)
    ensures i < |states| && states[i].owner == e && ByEdge(states)[e] == states[i].reading
    ensures forall j :: i < j < |states| ==> states[j].owner != e
  {
    var n := |states| - 1;
    if states[n].owner == e {
      i := n;
    } else {
      assert e in ByEdge(states[..n]) && ByEdge(states[..n])[e] == ByEdge(states)[e];
      hide ByEdge;
      i := ViewIsTheLast(states[..n], e);
    }
  }

  // The peers are the other participants, in their order and as often as they are listed.
  lemma {:induction false} PeersInOrder(s: seq<EdgeId>, t: seq<EdgeId>, e: EdgeId)
    ensures Peers(s + t, e) == Peers(s, e) + Peers(t, e)
    ensures Peers([e], e) == [] && forall p :: p != e ==> Peers([p], e) == [p]
  {
    assert [e][..0] == [];
    forall p | p != e ensures Peers([p], e) == [p] {
      assert [p][..0] == [];
    }
    if t == [] {
      assert s + t == s && Peers(s, e) + [] == Peers(s, e);
    } else {
      var n := |t| - 1;
      PeersInOrder(s, t[..n], e);
      assert (s + t)[..|s + t| - 1] == s + t[..n];
    }
  }

  // ---- how an evaluated round is laid out ----

  lemma Layout(round: RoundIdentity, ps: seq<EdgeId>, states: seq<ReplicatedState>, trust: TrustOutcome, i: nat)
    requires TrustSpec(round, ps, states) == Ok(trust) && i < |ps|
    ensures Known(ByEdge(states), ps) && Peers(ps, ps[i]) != [] && Known(ByEdge(states), Peers(ps, ps[i]))
    ensures |trust.evidence| == |trust.ranking.entries| == |ps|
    ensures trust.evidence[i] == EvidenceFor(round, ps, ByEdge(states), ps[i])
    ensures trust.ranking.entries[i] == RankEntry(trust.evidence[i].edge, trust.evidence[i].score)
    ensures trust.ranking.round == round && trust.ranking.participants == ps
  {
    hide EvidenceFor, Peers, ByEdge, ExclusionsOf;
    EvidenceAt(round, ps, ByEdge(states), |ps|, i);
    PeersAre(ps, ps[i]);
  }

  // ---- score and ranking ----

  // Each participant is ranked with the score of its evidence, the published form of 1 / (1 + deviation), and the
  // deviation is the published form of its average distance to its peers.
  lemma FindingScore(round: RoundIdentity, ps: seq<EdgeId>, states: seq<ReplicatedState>, trust: TrustOutcome, i: nat)
    requires TrustSpec(round, ps, states) == Ok(trust) && i < |ps|
    ensures |trust.evidence| == |trust.ranking.entries| == |ps| && Known(ByEdge(states), ps)
    ensures Known(ByEdge(states), Peers(ps, ps[i])) && Peers(ps, ps[i]) != []
    ensures var ev, entry := trust.evidence[i], trust.ranking.entries[i];
            var others := ReadingsOf(ByEdge(states), Peers(ps, ps[i]));
            && ev.round == round && ev.edge == ps[i] && entry.edge == ps[i] && entry.score == ev.score
            && ev.deviation >= 0.0 && IsPublished(ev.score, 1.0 / (1.0 + ev.deviation))
            && IsPublished(ev.deviation, SumBy(DistanceTo(ByEdge(states)[ps[i]]), others) / |others| as real)
  {
    hide Peers, ByEdge, Round3, ExclusionsOf, Distance, Deviations, AllPairs, CountCompatible;
    Layout(round, ps, states, trust, i);
    var others := ReadingsOf(ByEdge(states), Peers(ps, ps[i]));
    Round3IsPublished(Mean(DistanceTo(ByEdge(states)[ps[i]]), others));
    Round3IsPublished(1.0 / (1.0 + trust.evidence[i].deviation));
  }

  // ---- compatible peers ----

  // Another edge, with a view at distance 0.35 or less.
  ghost predicate IsNear(views: Views, e: EdgeId, p: EdgeId)
    requires e in views && p in views
  {
    p != e && Distance(views[e], views[p]) <= 0.35
  }

  // The places of such edges.
  ghost function CompatiblePlaces(views: Views, ps: seq<EdgeId>, e: EdgeId): set<nat>
    requires Known(views, ps) && e in views
  {
    set j: nat | j < |ps| && IsNear(views, e, ps[j])
  }

  lemma OneMorePlace(views: Views, ps: seq<EdgeId>, e: EdgeId)
    requires Known(views, ps) && e in views && ps != []
    ensures |CompatiblePlaces(views, ps, e)|
         == |CompatiblePlaces(views, ps[..|ps| - 1], e)| + if IsNear(views, e, ps[|ps| - 1]) then 1 else 0
  {
    hide IsNear;
    var n := |ps| - 1;
    var before, after := CompatiblePlaces(views, ps[..n], e), CompatiblePlaces(views, ps, e);
    if IsNear(views, e, ps[n]) {
      assert after == before + {n};
    } else {
      assert after == before;
    }
  }

  lemma {:induction false} CountsPlaces(views: Views, ps: seq<EdgeId>, e: EdgeId)
    requires Known(views, ps) && e in views
    ensures Known(views, Peers(ps, e))
    ensures CountCompatible(views[e], ReadingsOf(views, Peers(ps, e))) == |CompatiblePlaces(views, ps, e)|
  {
    PeersAre(ps, e);
    if ps == [] {
      assert CompatiblePlaces(views, ps, e) == {};
    } else {
      var n := |ps| - 1;
      CountsPlaces(views, ps[..n], e);
      OneMorePlace(views, ps, e);
      assert Peers(ps, e) == Peers(ps[..n], e) + if ps[n] != e then [ps[n]] else [];
      hide Distance, CompatiblePlaces, Peers, CountCompatible;
      if ps[n] != e {
        CompareSnoc(views[e], ReadingsOf(views, Peers(ps[..n], e)), views[ps[n]]);
        assert ReadingsOf(views, Peers(ps, e)) == ReadingsOf(views, Peers(ps[..n], e)) + [views[ps[n]]];
      } else {
        assert Peers(ps, e) == Peers(ps[..n], e);
      }
    }
  }

  lemma FindingCount(round: RoundIdentity, ps: seq<EdgeId>, states: seq<ReplicatedState>, trust: TrustOutcome, i: nat)
    requires TrustSpec(round, ps, states) == Ok(trust) && i < |ps|
    ensures |trust.evidence| == |ps| && Known(ByEdge(states), ps)
    ensures trust.evidence[i].compatiblePeers == |CompatiblePlaces(ByEdge(states), ps, ps[i])|
  {
    hide Peers, ByEdge, CountCompatible, DeviationOf, Deviations, AllPairs, CompatiblePlaces;
    Layout(round, ps, states, trust, i);
    CountsPlaces(ByEdge(states), ps, ps[i]);
  }

  // ---- sensor by sensor ----

  // The three sensor deviations are the published mean gaps to the peers, in sensor order.
  lemma FindingSensors(round: RoundIdentity, ps: seq<EdgeId>, states: seq<ReplicatedState>, trust: TrustOutcome, i: nat, k: nat)
    requires TrustSpec(round, ps, states) == Ok(trust) && i < |ps| && k < 3
    ensures |trust.evidence| == |ps| && Known(ByEdge(states), ps)
    ensures Known(ByEdge(states), Peers(ps, ps[i])) && Peers(ps, ps[i]) != []
    ensures var d, sensor := trust.evidence[i].sensorDeviations, [Temperature, Pressure, Rpm][k];
            var others := ReadingsOf(ByEdge(states), Peers(ps, ps[i]));
            && |d| == 3 && d[k].sensor == sensor
            && IsPublished(d[k].value, SumBy(GapTo(sensor, ByEdge(states)[ps[i]]), others) / |others| as real)
  {
    hide Peers, ByEdge, Round3, CountCompatible, DeviationOf, AllPairs;
    Layout(round, ps, states, trust, i);
    var others := ReadingsOf(ByEdge(states), Peers(ps, ps[i]));
    Round3IsPublished(Mean(GapTo(SENSORS[k], ByEdge(states)[ps[i]]), others));
  }

  // The pair distances are the published gaps to each peer, listed sensor by sensor.
  lemma FindingPairs(round: RoundIdentity, ps: seq<EdgeId>, states: seq<ReplicatedState>, trust: TrustOutcome, i: nat,
                     k: nat, j: nat)
    requires TrustSpec(round, ps, states) == Ok(trust) && i < |ps| && k < 3 && j < |Peers(ps, ps[i])|
    ensures |trust.evidence| == |ps| && Known(ByEdge(states), ps) && Known(ByEdge(states), Peers(ps, ps[i]))
    ensures var pairs, peers, sensor := trust.evidence[i].pairDistances, Peers(ps, ps[i]), [Temperature, Pressure, Rpm][k];
            && |pairs| == 3 * |peers| && 0 <= k * |peers| + j < |pairs|
            && var pair := pairs[k * |peers| + j];
               && pair.peer == peers[j] && pair.sensor == sensor
               && IsPublished(pair.value, Abs(ByEdge(states)[ps[i]].At(sensor) - ByEdge(states)[peers[j]].At(sensor)))
  {
    hide Peers, ByEdge, Round3, CountCompatible, DeviationOf, Deviations, AllPairs;
    Layout(round, ps, states, trust, i);
    var views, peers := ByEdge(states), Peers(ps, ps[i]);
    PairDistanceAt(views, views[ps[i]], SENSORS, peers, k, j);
    Round3IsPublished(Gap(SENSORS[k], views[ps[i]], views[peers[j]]));
  }

  // ---- exclusions ----

  // The exclusions of a list of findings, one more finding at a time: none for a strict majority, otherwise one
  // that is called Byzantine from a deviation of 0.75 on and inconsistent below.
  lemma ExclusionOfOneMore(ps: seq<EdgeId>, evidence: seq<Evidence>, next: Evidence)
    ensures ExclusionsOf(ps, []) == []
    ensures 2 * (next.compatiblePeers + 1) > |ps| ==> ExclusionsOf(ps, evidence + [next]) == ExclusionsOf(ps, evidence)
    ensures 2 * (next.compatiblePeers + 1) <= |ps| ==>
              ExclusionsOf(ps, evidence + [next])
              == ExclusionsOf(ps, evidence)
                 + [Exclusion(next.round, next.edge, if next.deviation < 0.75 then InconsistentView else SuspectedByzantine)]
  {
    hide ExclusionsOf;
    ExclusionsSnoc(ps, evidence, next);
    NoExclusions(ps);
  }

  lemma NoExclusions(ps: seq<EdgeId>)
    ensures ExclusionsOf(ps, []) == []
  {
  }

  lemma {:induction false} ExclusionIsEarned(ps: seq<EdgeId>, evidence: seq<Evidence>, x: Exclusion)
    ensures x in ExclusionsOf(ps, evidence) <==>
              exists i :: 0 <= i < |evidence| && ExcludedAs(ps, evidence[i], x)
  {
    if evidence != [] {
      var n := |evidence| - 1;
      ExclusionIsEarned(ps, evidence[..n], x);
      assert evidence == evidence[..n] + [evidence[n]];
      ExclusionOfOneMore(ps, evidence[..n], evidence[n]);
      hide ExclusionsOf;
      if i :| 0 <= i < |evidence| && ExcludedAs(ps, evidence[i], x) {
        if i < n {
          assert ExcludedAs(ps, evidence[..n][i], x);
        }
      }
    }
  }

  // The finding lacks a strict majority, and x names its round, edge and reason.
  ghost predicate ExcludedAs(ps: seq<EdgeId>, ev: Evidence, x: Exclusion) {
    && 2 * (ev.compatiblePeers + 1) <= |ps| && x.round == ev.round && x.edge == ev.edge
    && (x.reason == SuspectedByzantine <==> ev.deviation >= 0.75)
  }

  // Who is excluded from an evaluated round, and why.
  lemma FindingExclusions(round: RoundIdentity, ps: seq<EdgeId>, states: seq<ReplicatedState>, trust: TrustOutcome, x: Exclusion)
    requires TrustSpec(round, ps, states) == Ok(trust)
    ensures x in trust.exclusions <==> exists i :: 0 <= i < |trust.evidence| && ExcludedAs(ps, trust.evidence[i], x)
  {
    hide EvidenceUpTo, ByEdge, PeersUpTo, ExclusionsOf;
    ExclusionIsEarned(ps, trust.evidence, x);
  }
}
