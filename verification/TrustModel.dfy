// Pairwise-consistency trust evaluation of one consensus round: the records it
// produces, what each record says, and the nested loops that build them.
module TrustModel {
  import opened Wrappers
  import opened Rounding
  import opened Readings
  import opened Sums

  const PAIRWISE_CONSISTENCY_THRESHOLD := 0.35
  const SUSPECTED_BYZANTINE_THRESHOLD := 0.75

  datatype RoundIdentity = RoundIdentity(roundId: string, windowStartedAt: int, windowEndedAt: int)

  datatype ReplicatedState = ReplicatedState(round: RoundIdentity, owner: EdgeId, reading: Reading)

  datatype RankEntry = RankEntry(edge: EdgeId, score: real)

  datatype Ranking = Ranking(round: RoundIdentity, participants: seq<EdgeId>, entries: seq<RankEntry>) {
    // The constructor's check.
    predicate Accepted() {
      (set x | x in entries :: x.edge) == (set p | p in participants)
    }
  }

  datatype Reason = SuspectedByzantine | InconsistentView

  datatype Exclusion = Exclusion(round: RoundIdentity, edge: EdgeId, reason: Reason)

  datatype SensorDeviation = SensorDeviation(sensor: Sensor, value: real)

  datatype PairDistance = PairDistance(peer: EdgeId, sensor: Sensor, value: real)

  datatype Evidence = Evidence(
    round: RoundIdentity,
    edge: EdgeId,
    score: real,
    compatiblePeers: nat,
    deviation: real,
    sensorDeviations: seq<SensorDeviation>,
    pairDistances: seq<PairDistance>)

  datatype TrustOutcome = TrustOutcome(ranking: Ranking, exclusions: seq<Exclusion>, evidence: seq<Evidence>)

  // KeyError of the state lookup, ZeroDivisionError of the peer average.
  datatype TrustError = MissingReplicatedState | NoPeers

  type Views = map<EdgeId, Reading>

  // ---- what is computed ----

  // The dictionary of states by owner: a later state replaces an earlier one.
  function ByEdge(states: seq<ReplicatedState>): (views: Views)
    ensures forall e :: e in views <==> exists s :: s in states && s.owner == e
  {
    if states == [] then map[]
    else
      var last := states[|states| - 1];
      ByEdge(states[..|states| - 1])[last.owner := last.reading]
  }

  function Peers(participants: seq<EdgeId>, edge: EdgeId): seq<EdgeId> {
    if participants == [] then []
    else
      var n := |participants| - 1;
      Peers(participants[..n], edge) + (if participants[n] != edge then [participants[n]] else [])
  }

  lemma {:induction false} PeersAre(participants: seq<EdgeId>, edge: EdgeId)
    ensures forall p :: p in Peers(participants, edge) <==> p in participants && p != edge
  {
    if participants != [] {
      PeersAre(participants[..|participants| - 1], edge);
    }
  }

  function ReadingsOf(views: Views, edges: seq<EdgeId>): (r: seq<Reading>)
    requires forall p :: p in edges ==> p in views
    ensures |r| == |edges| && forall i :: 0 <= i < |edges| ==> r[i] == views[edges[i]]
  {
    seq(|edges|, i requires 0 <= i < |edges| => views[edges[i]])
  }

  predicate Compatible(a: Reading, b: Reading) {
    Distance(a, b) <= PAIRWISE_CONSISTENCY_THRESHOLD
  }

  function CountCompatible(x: Reading, others: seq<Reading>): (n: nat)
    ensures n <= |others|
  {
    if others == [] then 0
    else CountCompatible(x, others[..|others| - 1]) + (if Compatible(x, others[|others| - 1]) then 1 else 0)
  }

  function Majority(count: nat): nat {
    count / 2 + 1
  }

  function RoundedMean(f: Reading -> real, s: seq<Reading>): real
    requires s != []
  {
    Round3(Mean(f, s))
  }

  function ScoreOf(deviation: real): real
    requires deviation >= 0.0
  {
    Round3(1.0 / (1.0 + deviation))
  }

  function PairsFor(views: Views, x: Reading, sensor: Sensor, peers: seq<EdgeId>): (r: seq<PairDistance>)
    requires forall p :: p in peers ==> p in views
    ensures |r| == |peers|
  {
    seq(|peers|, j requires 0 <= j < |peers| => PairDistance(peers[j], sensor, Round3(Gap(sensor, x, views[peers[j]]))))
  }

  function AllPairs(views: Views, x: Reading, sensors: seq<Sensor>, peers: seq<EdgeId>): (r: seq<PairDistance>)
    requires forall p :: p in peers ==> p in views
    ensures |r| == |sensors| * |peers|
  {
    if sensors == [] then []
    else
      var n := |sensors| - 1;
      assert |sensors| * |peers| == n * |peers| + |peers|;
      AllPairs(views, x, sensors[..n], peers) + PairsFor(views, x, sensors[n], peers)
  }

  function Deviations(x: Reading, sensors: seq<Sensor>, others: seq<Reading>): (r: seq<SensorDeviation>)
    requires others != []
    ensures |r| == |sensors|
  {
    seq(|sensors|, i requires 0 <= i < |sensors| => SensorDeviation(sensors[i], RoundedMean(GapTo(sensors[i], x), others)))
  }

  ghost predicate Known(views: Views, edges: seq<EdgeId>) {
    forall p :: p in edges ==> p in views
  }

  function DeviationOf(x: Reading, others: seq<Reading>): (d: real)
    requires others != []
    ensures d >= 0.0
  {
    MeanWithin(DistanceTo(x), others, 0.0, SumUpper(x, others));
    Round3Monotone(0.0, Mean(DistanceTo(x), others));
    Round3OnGrid(0);
    RoundedMean(DistanceTo(x), others)
  }

  // Some bound on the distances from x, so that their mean can be bounded below.
  function SumUpper(x: Reading, others: seq<Reading>): (hi: real)
    ensures hi >= 0.0 && forall r :: r in others ==> DistanceTo(x)(r) <= hi
  {
    if others == [] then 0.0
    else Max(SumUpper(x, others[..|others| - 1]), Distance(x, others[|others| - 1]))
  }

  function EvidenceFor(round: RoundIdentity, participants: seq<EdgeId>, views: Views, edge: EdgeId): (r: Evidence)
    requires Known(views, participants) && edge in views
    requires Peers(participants, edge) != []
    ensures r.round == round && r.edge == edge
  {
    PeersAre(participants, edge);
    var peers := Peers(participants, edge);
    var x, others := views[edge], ReadingsOf(views, peers);
    var deviation := DeviationOf(x, others);
    Evidence(round, edge, ScoreOf(deviation), CountCompatible(x, others), deviation,
             Deviations(x, SENSORS, others), AllPairs(views, x, SENSORS, peers))
  }

  predicate IsExcluded(participants: seq<EdgeId>, evidence: Evidence) {
    evidence.compatiblePeers + 1 < Majority(|participants|)
  }

  function ReasonFor(evidence: Evidence): Reason {
    if evidence.deviation >= SUSPECTED_BYZANTINE_THRESHOLD then SuspectedByzantine else InconsistentView
  }

  // Each of the first k participants has somebody else to be compared with.
  ghost predicate PeersUpTo(participants: seq<EdgeId>, k: nat)
    requires k <= |participants|
  {
    k == 0 || (PeersUpTo(participants, k - 1) && Peers(participants, participants[k - 1]) != [])
  }

  lemma {:induction false} PeersUpToMeans(participants: seq<EdgeId>, k: nat, i: nat)
    requires i < k <= |participants| && PeersUpTo(participants, k)
    ensures Peers(participants, participants[i]) != []
  {
    if i < k - 1 {
      PeersUpToMeans(participants, k - 1, i);
    }
  }

  lemma {:induction false} PeersUpToHolds(participants: seq<EdgeId>, k: nat)
    requires k <= |participants|
    requires forall e :: e in participants ==> Peers(participants, e) != []
    ensures PeersUpTo(participants, k)
  {
    if k > 0 {
      PeersUpToHolds(participants, k - 1);
    }
  }

  function EvidenceUpTo(round: RoundIdentity, participants: seq<EdgeId>, views: Views, k: nat): (r: seq<Evidence>)
    requires Known(views, participants) && k <= |participants|
    requires PeersUpTo(participants, k)
    ensures |r| == k
  {
    if k == 0 then []
    else EvidenceUpTo(round, participants, views, k - 1) + [EvidenceFor(round, participants, views, participants[k - 1])]
  }

  lemma {:induction false} EvidenceAt(round: RoundIdentity, participants: seq<EdgeId>, views: Views, k: nat, i: nat)
    requires Known(views, participants) && i < k <= |participants| && PeersUpTo(participants, k)
    ensures Peers(participants, participants[i]) != []
    ensures EvidenceUpTo(round, participants, views, k)[i] == EvidenceFor(round, participants, views, participants[i])
  {
    hide EvidenceFor, Known, Peers;
    PeersUpToMeans(participants, k, i);
    if i < k - 1 {
      EvidenceAt(round, participants, views, k - 1, i);
    }
  }

  function EntriesOf(evidence: seq<Evidence>): (r: seq<RankEntry>)
    ensures |r| == |evidence|
  {
    seq(|evidence|, i requires 0 <= i < |evidence| => RankEntry(evidence[i].edge, evidence[i].score))
  }

  function ExclusionsOf(participants: seq<EdgeId>, evidence: seq<Evidence>): seq<Exclusion> {
    if evidence == [] then []
    else
      var n := |evidence| - 1;
      ExclusionsOf(participants, evidence[..n])
      + (if IsExcluded(participants, evidence[n])
         then [Exclusion(evidence[n].round, evidence[n].edge, ReasonFor(evidence[n]))] else [])
  }

  lemma EntriesSnoc(evidence: seq<Evidence>, next: Evidence)
    ensures EntriesOf(evidence + [next]) == EntriesOf(evidence) + [RankEntry(next.edge, next.score)]
  {
  }

  lemma ExclusionsSnoc(participants: seq<EdgeId>, evidence: seq<Evidence>, next: Evidence)
    ensures ExclusionsOf(participants, evidence + [next])
         == ExclusionsOf(participants, evidence)
            + (if IsExcluded(participants, next) then [Exclusion(next.round, next.edge, ReasonFor(next))] else [])
  {
    assert (evidence + [next])[..|evidence|] == evidence;
  }

  ghost function TrustSpec(round: RoundIdentity, participants: seq<EdgeId>, states: seq<ReplicatedState>)
    : Result<TrustOutcome, TrustError>
  {
    var views := ByEdge(states);
    if !Known(views, participants) then Err(MissingReplicatedState)
    else if !PeersUpTo(participants, |participants|) then Err(NoPeers)
    else
      var evidence := EvidenceUpTo(round, participants, views, |participants|);
      Ok(TrustOutcome(Ranking(round, participants, EntriesOf(evidence)),
                      ExclusionsOf(participants, evidence), evidence))
  }

  // ---- how it is computed ----

  method NormalizedPairDistance(left: Reading, right: Reading) returns (distance: real)
    ensures distance == Distance(left, right)
  {
    var distances: seq<real> := [];
    for i := 0 to |SENSORS|
      invariant |distances| == i
      invariant forall j :: 0 <= j < i ==> distances[j] == Gap(SENSORS[j], left, right) / Scale(SENSORS[j])
    {
      distances := distances + [Gap(SENSORS[i], left, right) / Scale(SENSORS[i])];
    }
    assert |distances| == 3;
    distance := (distances[0] + distances[1] + distances[2]) / |distances| as real;
  }

  method IndexStates(states: seq<ReplicatedState>) returns (views: Views)
    ensures views == ByEdge(states)
  {
    views := map[];
    for i := 0 to |states|
      invariant views == ByEdge(states[..i])
    {
      assert states[..i + 1][..i] == states[..i];
      views := views[states[i].owner := states[i].reading];
    }
    assert states[..|states|] == states;
  }

  // One sensor of one edge: the gaps to the peers, published one by one and averaged.
  method MeasureSensor(views: Views, x: Reading, sensor: Sensor, peers: seq<EdgeId>)
    returns (pairs: seq<PairDistance>, mean: real)
    requires Known(views, peers) && peers != []
    ensures pairs == PairsFor(views, x, sensor, peers)
    ensures mean == Mean(GapTo(sensor, x), ReadingsOf(views, peers))
  {
    pairs := [];
    var total := 0.0;
    ghost var others := ReadingsOf(views, peers);
    for j := 0 to |peers|
      invariant pairs == PairsFor(views, x, sensor, peers[..j])
      invariant total == SumBy(GapTo(sensor, x), others[..j])
    {
      var gap := Gap(sensor, x, views[peers[j]]);
      assert others[..j + 1] == others[..j] + [views[peers[j]]];
      SumSnoc(GapTo(sensor, x), others[..j], views[peers[j]]);
      total := total + gap;
      pairs := pairs + [PairDistance(peers[j], sensor, Round3(gap))];
    }
    assert peers[..|peers|] == peers && others[..|peers|] == others;
    mean := total / |peers| as real;
  }

  lemma CompareSnoc(x: Reading, others: seq<Reading>, next: Reading)
    ensures CountCompatible(x, others + [next]) == CountCompatible(x, others) + (if Compatible(x, next) then 1 else 0)
    ensures SumBy(DistanceTo(x), others + [next]) == SumBy(DistanceTo(x), others) + Distance(x, next)
  {
    hide Distance;
    assert (others + [next])[..|others|] == others;
  }

  method CompareWithPeers(views: Views, x: Reading, peers: seq<EdgeId>) returns (compatible: nat, mean: real)
    requires Known(views, peers) && peers != []
    ensures compatible == CountCompatible(x, ReadingsOf(views, peers))
    ensures mean == Mean(DistanceTo(x), ReadingsOf(views, peers))
  {
    hide Distance;
    compatible := 0;
    var total := 0.0;
    ghost var others := ReadingsOf(views, peers);
    for j := 0 to |peers|
      invariant compatible == CountCompatible(x, others[..j])
      invariant total == SumBy(DistanceTo(x), others[..j])
    {
      var distance := NormalizedPairDistance(x, views[peers[j]]);
      CompareSnoc(x, others[..j], views[peers[j]]);
      assert others[..j + 1] == others[..j] + [views[peers[j]]];
      total := total + distance;
      if distance <= PAIRWISE_CONSISTENCY_THRESHOLD {
        compatible := compatible + 1;
      }
    }
    assert others[..|peers|] == others;
    mean := total / |peers| as real;
  }

  method EvaluateEdge(round: RoundIdentity, participants: seq<EdgeId>, views: Views, edge: EdgeId)
    returns (evidence: Evidence)
    requires Known(views, participants) && edge in views
    requires Peers(participants, edge) != []
    ensures evidence == EvidenceFor(round, participants, views, edge)
  {
    PeersAre(participants, edge);
    var peers := Peers(participants, edge);
    var x := views[edge];
    ghost var others := ReadingsOf(views, peers);
    var sensorDeviations: seq<SensorDeviation> := [];
    var pairs: seq<PairDistance> := [];
    for i := 0 to |SENSORS|
      invariant sensorDeviations == Deviations(x, SENSORS[..i], others)
      invariant pairs == AllPairs(views, x, SENSORS[..i], peers)
    {
      var sensorPairs, mean := MeasureSensor(views, x, SENSORS[i], peers);
      assert SENSORS[..i + 1][..i] == SENSORS[..i];
      pairs := pairs + sensorPairs;
      sensorDeviations := sensorDeviations + [SensorDeviation(SENSORS[i], Round3(mean))];
    }
    assert SENSORS[..|SENSORS|] == SENSORS;
    var compatible, mean := CompareWithPeers(views, x, peers);
    ghost var nonNegative := DeviationOf(x, others);
    var deviation := Round3(mean);
    var score := Round3(1.0 / (1.0 + deviation));
    evidence := Evidence(round, edge, score, compatible, deviation, sensorDeviations, pairs);
  }

  method EvaluateTrust(round: RoundIdentity, participants: seq<EdgeId>, states: seq<ReplicatedState>)
    returns (r: Result<TrustOutcome, TrustError>)
    ensures r == TrustSpec(round, participants, states)
  {
    var views := IndexStates(states);
    if exists p :: p in participants && p !in views {
      return Err(MissingReplicatedState);
    }
    var entries: seq<RankEntry> := [];
    var exclusions: seq<Exclusion> := [];
    var evidence: seq<Evidence> := [];
    for i := 0 to |participants|
      invariant PeersUpTo(participants, i)
      invariant evidence == EvidenceUpTo(round, participants, views, i)
      invariant entries == EntriesOf(evidence)
      invariant exclusions == ExclusionsOf(participants, evidence)
    {
      if Peers(participants, participants[i]) == [] {
        return Err(NoPeers);
      }
      var found := EvaluateEdge(round, participants, views, participants[i]);
      ExclusionsSnoc(participants, evidence, found);
      EntriesSnoc(evidence, found);
      entries := entries + [RankEntry(found.edge, found.score)];
      evidence := evidence + [found];
      if found.compatiblePeers + 1 < Majority(|participants|) {
        exclusions := exclusions + [Exclusion(round, found.edge, ReasonFor(found))];
      }
    }
    r := Ok(TrustOutcome(Ranking(round, participants, entries), exclusions, evidence));
  }
}
