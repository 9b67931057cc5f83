// Fault injection into any minority of the edges, for every number of edges.
module MinorityFaults {
  import opened Lists
  import opened Rounding
  import opened Readings
  import opened Sums
  import opened TrustModel
  import opened TrustGeometry
  import opened Engine
  import opened EngineProperties
  import opened FaultInjection

  // The sound edges are a majority, agree with each other, and are further than 1.5 from every faulty one.
  ghost predicate Contained(out: RoundInput, faulty: set<EdgeId>) {
    && faulty <= Elements(out.participants) && 2 * |faulty| < |out.participants|
    && (forall p, q :: p in out.participants && q in out.participants && p !in faulty && q !in faulty ==>
          Compatible(Seen(out, p), Seen(out, q)))
    && (forall p, q :: p in faulty && q in out.participants && q !in faulty ==> Distance(Seen(out, p), Seen(out, q)) > 1.5)
  }

  lemma SoundCount(ps: seq<EdgeId>, faulty: set<EdgeId>)
    requires NoRepeat(ps) && faulty <= Elements(ps)
    ensures |Elements(ps) - faulty| == |ps| - |faulty|
  {
    DistinctCount(ps);
    assert Elements(ps) == (Elements(ps) - faulty) + faulty;
  }

  lemma SoundSurvives(out: RoundInput, faulty: set<EdgeId>, e: EdgeId)
    requires WellFormed(out) && Contained(out, faulty) && e in out.participants && e !in faulty
    ensures Survives(out.participants, ByEdge(out.states), e)
  {
    SoundCount(out.participants, faulty);
    hide Compatible, Distance, NoRepeat, ByEdge;
    var sound := Elements(out.participants) - faulty;
    Assumed(out, e);
    forall p | p in sound ensures p in Neighbourhood(out.participants, ByEdge(out.states), e) {
      Assumed(out, p);
    }
    SubsetSize(sound, Neighbourhood(out.participants, ByEdge(out.states), e));
  }

  lemma FarApart(a: Reading, b: Reading)
    requires Distance(a, b) > 1.5
    ensures !Compatible(a, b)
  {
  }

  lemma FaultyFails(out: RoundInput, faulty: set<EdgeId>, e: EdgeId)
    requires WellFormed(out) && Contained(out, faulty) && e in faulty
    ensures e in out.participants && !Survives(out.participants, ByEdge(out.states), e)
  {
    hide Compatible, Distance;
    assert e in Elements(out.participants);
    var near := Neighbourhood(out.participants, ByEdge(out.states), e);
    forall p | p in near ensures p in faulty {
      if p !in faulty {
        FarApart(Seen(out, e), Seen(out, p));
      }
    }
    SubsetSize(near, faulty);
  }

  lemma ExcludedAreFaulty(out: RoundInput, faulty: set<EdgeId>)
    requires WellFormed(out) && Contained(out, faulty)
    ensures ExcludedEdges(TrustOf(out).exclusions) == faulty
  {
    WellFormedIsEvaluable(out);
    hide TrustOf, Survives, Contained, ByEdge, PeersUpTo;
    assert faulty <= Elements(out.participants) by {
      FaultyParticipate(out, faulty);
    }
    forall e ensures e in ExcludedEdges(TrustOf(out).exclusions) <==> e in faulty {
      ExcludedIff(out, e);
      if e in faulty {
        FaultyFails(out, faulty, e);
      } else if e in out.participants {
        SoundSurvives(out, faulty, e);
      }
    }
  }

  lemma FaultyParticipate(out: RoundInput, faulty: set<EdgeId>)
    requires Contained(out, faulty)
    ensures faulty <= Elements(out.participants)
  {
  }

  // ---- why the excluded edges are called Byzantine ----

  // The distances from v to the peers add up to more than 1.5 for each peer outside a set of near ones.
  lemma {:induction false} DistantSum(v: Reading, views: Views, peers: seq<EdgeId>, near: set<EdgeId>)
    requires Known(views, peers) && forall p :: p in peers && p !in near ==> Distance(v, views[p]) > 1.5
    ensures SumBy(DistanceTo(v), ReadingsOf(views, peers)) >= 1.5 * FaultyAmong(peers, near) as real
  {
    hide Distance;
    if peers != [] {
      var n := |peers| - 1;
      DistantSum(v, views, peers[..n], near);
      assert ReadingsOf(views, peers)[..n] == ReadingsOf(views, peers[..n]);
      NonNegative(v, views[peers[n]]);
      NextMultiple(1.5, FaultyAmong(peers[..n], near));
    }
  }

  lemma NonNegative(a: Reading, b: Reading)
    ensures DistanceTo(a)(b) == Distance(a, b) >= 0.0
  {
  }

  lemma MostlyFar(total: real, far: nat, peers: nat)
    requires peers > 0 && total >= 1.5 * far as real && 2 * far > peers
    ensures total / peers as real > SUSPECTED_BYZANTINE_THRESHOLD
  {
    assert far as real * 2.0 > peers as real;
    assert total > 0.75 * peers as real;
    var q := total / peers as real;
    assert q * peers as real == total;
    if q <= 0.75 {
      ScaleAtMost(q, 0.75, peers as real);
    }
  }

  lemma SoundPeers(ps: seq<EdgeId>, faulty: set<EdgeId>, e: EdgeId)
    requires NoRepeat(ps) && faulty <= Elements(ps) && 2 * |faulty| < |ps| && e in faulty
    ensures Peers(ps, e) != [] && 2 * FaultyAmong(Peers(ps, e), faulty) > |Peers(ps, e)|
  {
    hide Peers, NoRepeat, FaultyAmong;
    PeersDistinct(ps, e);
    SoundCount(ps, faulty);
    SoundCount(ps, {e});
    FaultyAreNotHonest(Peers(ps, e), faulty);
    DistinctCount(Peers(ps, e));
    PeerElements(ps, e);
    assert Elements(ps) - {e} - faulty == Elements(ps) - faulty;
  }

  lemma PeerElements(ps: seq<EdgeId>, e: EdgeId)
    ensures Elements(Peers(ps, e)) == Elements(ps) - {e}
  {
    hide Peers;
    PeersAre(ps, e);
  }

  lemma FarPeers(out: RoundInput, faulty: set<EdgeId>, e: EdgeId)
    requires WellFormed(out) && Contained(out, faulty) && e in faulty
    ensures var peers := Peers(out.participants, e);
            && Known(ByEdge(out.states), peers) && peers != [] && e in ByEdge(out.states)
            && 2 * FaultyAmong(peers, faulty) > |peers|
            && forall p :: p in peers && p !in faulty ==> Distance(ByEdge(out.states)[e], ByEdge(out.states)[p]) > 1.5
  {
    SoundPeers(out.participants, faulty, e);
    hide Distance, Compatible, Peers, NoRepeat, FaultyAmong, ByEdge;
    PeersAre(out.participants, e);
    assert e in Elements(out.participants);
    Assumed(out, e);
    forall p | p in Peers(out.participants, e)
      ensures p in ByEdge(out.states)
      ensures p !in faulty ==> Distance(ByEdge(out.states)[e], ByEdge(out.states)[p]) > 1.5
    {
      Assumed(out, p);
    }
  }

  lemma FaultyDeviation(views: Views, peers: seq<EdgeId>, v: Reading, near: set<EdgeId>)
    requires Known(views, peers) && peers != [] && 2 * FaultyAmong(peers, near) > |peers|
    requires forall p :: p in peers && p !in near ==> Distance(v, views[p]) > 1.5
    ensures DeviationOf(v, ReadingsOf(views, peers)) >= SUSPECTED_BYZANTINE_THRESHOLD
  {
    hide Distance, Round3;
    var others := ReadingsOf(views, peers);
    DistantSum(v, views, peers, near);
    MostlyFar(SumBy(DistanceTo(v), others), FaultyAmong(peers, near), |peers|);
    Round3Monotone(SUSPECTED_BYZANTINE_THRESHOLD, Mean(DistanceTo(v), others));
    Round3OnGrid(750);
  }

  lemma FaultyAreByzantine(out: RoundInput, faulty: set<EdgeId>, x: Exclusion)
    requires WellFormed(out) && Contained(out, faulty) && x in TrustOf(out).exclusions
    ensures x == Exclusion(out.round, x.edge, SuspectedByzantine)
  {
    WellFormedIsEvaluable(out);
    ExcludedAreFaulty(out, faulty);
    assert x.edge in ExcludedEdges(TrustOf(out).exclusions);
    var i := ExclusionIndex(out, x);
    EvidenceOf(out, i);
    FarPeers(out, faulty, x.edge);
    hide TrustOf, Distance, ByEdge, Peers, DeviationOf, Contained, WellFormed;
    FaultyDeviation(ByEdge(out.states), Peers(out.participants, x.edge), ByEdge(out.states)[x.edge], faulty);
  }

  // Any minority of far-off edges among agreeing ones is what is excluded, each once and as Byzantine,
  // and the others carry the round.
  lemma MinorityIsContained(out: RoundInput, faulty: set<EdgeId>)
    requires WellFormed(out) && Contained(out, faulty)
    ensures ExcludedEdges(PackageOf(out).exclusions) == faulty && |PackageOf(out).exclusions| == |faulty|
    ensures forall x :: x in PackageOf(out).exclusions ==> x == Exclusion(out.round, x.edge, SuspectedByzantine)
    ensures PackageOf(out).status == Success
  {
    ExcludedAreFaulty(out, faulty);
    forall x | x in TrustOf(out).exclusions ensures x == Exclusion(out.round, x.edge, SuspectedByzantine) {
      FaultyAreByzantine(out, faulty, x);
    }
    WellFormedIsEvaluable(out);
    OnePerFaulty(out);
    assert 2 * |faulty| < |out.participants|;
    hide TrustOf, SurvivorsOf, Published, MeanReading, Contained, Compatible;
    EngineTotal(out);
    SurvivorsAre(out);
    CountsAgreeIff(out);
  }

  lemma OnePerFaulty(out: RoundInput)
    requires WellFormed(out)
    ensures |TrustOf(out).exclusions| == |ExcludedEdges(TrustOf(out).exclusions)|
  {
    WellFormedIsEvaluable(out);
    hide TrustOf;
    TrustShape(out);
    var evidence := TrustOf(out).evidence;
    forall i, j | 0 <= i < j < |evidence| ensures evidence[i].edge != evidence[j].edge {
      EvidenceOf(out, i);
      EvidenceOf(out, j);
    }
    ExclusionsDistinct(out.participants, evidence);
  }

  // ---- injection ----

  lemma {:induction false} OffsetsAre(faulty: seq<EdgeId>, e: EdgeId)
    ensures e in OffsetsByEdge(faulty) <==> e in faulty
    ensures e in OffsetsByEdge(faulty) ==> OffsetsByEdge(faulty)[e] == EVEN_OFFSET || OffsetsByEdge(faulty)[e] == ODD_OFFSET
  {
    if faulty != [] {
      OffsetsAre(faulty[..|faulty| - 1], e);
      assert faulty == faulty[..|faulty| - 1] + [faulty[|faulty| - 1]];
    }
  }

  lemma {:induction false} KeptParticipate(edges: seq<EdgeId>, participants: seq<EdgeId>, e: EdgeId)
    requires e in Keep(edges, participants)
    ensures e in participants
  {
    if edges[|edges| - 1] !in participants || e != edges[|edges| - 1] {
      KeptParticipate(edges[..|edges| - 1], participants, e);
    }
  }

  // Whatever the scenario is called, faults injected into a minority of agreeing edges are contained: exactly
  // the injected edges are excluded, as Byzantine, and the round succeeds.
  lemma InjectedMinorityIsContained(input: RoundInput, config: FaultConfig)
    requires WellFormed(input) && Agreeing(input) && config.mode != NoFault
    requires 2 * |Elements(ResolveFaultyEdges(config, input.participants))| < |input.participants|
    ensures var out, faulty := Injected(input, config), Elements(ResolveFaultyEdges(config, input.participants));
            && WellFormed(out)
            && ExcludedEdges(PackageOf(out).exclusions) == faulty && |PackageOf(out).exclusions| == |faulty|
            && (forall x :: x in PackageOf(out).exclusions ==> x == Exclusion(input.round, x.edge, SuspectedByzantine))
            && PackageOf(out).status == Success
  {
    var list := ResolveFaultyEdges(config, input.participants);
    var out, faulty, offsets := Injected(input, config), Elements(list), OffsetsByEdge(list);
    if list == [] {
      assert InjectStates(input.states, offsets) == input.states;
    }
    assert out == input.(states := InjectStates(input.states, offsets));
    hide Shift, PackageOf, WellFormed, Distance, Compatible, Injected, InjectStates, Seen, OffsetsByEdge, ExcludedEdges;
    InjectedIsWellFormed(input, offsets);
    forall p ensures p in offsets <==> p in faulty
             ensures p in faulty ==> p in input.participants && (offsets[p] == EVEN_OFFSET || offsets[p] == ODD_OFFSET) {
      OffsetsAre(list, p);
      if p in list {
        KeptParticipate(if config.faultyEdges != [] then config.faultyEdges else DefaultFaultyEdges(config.mode),
                        input.participants, p);
      }
    }
    forall p | p in input.participants
      ensures Seen(out, p) == if p in faulty then Shift(Seen(input, p), offsets[p]) else Seen(input, p)
    {
      InjectedView(input, offsets, p);
    }
    forall p, q | p in faulty && q in input.participants && q !in faulty
      ensures Distance(Seen(out, p), Seen(out, q)) > 1.5
    {
      ShiftedIsFar(Seen(input, p), offsets[p], Seen(input, q));
    }
    MinorityIsContained(out, faulty);
  }
}
