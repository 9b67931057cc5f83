// Fault injection into half of the edges or more: the injected edges are shifted to two sides, and no
// side agrees with another.
module ScatteredFaults {
  import opened Lists
  import opened Readings
  import opened TrustModel
  import opened TrustGeometry
  import opened Engine
  import opened EngineProperties
  import opened FaultInjection
  import opened MinorityFaults

  datatype Side = Sound | Up | Down

  function SideOf(faulty: seq<EdgeId>, e: EdgeId): Side {
    if e !in OffsetsByEdge(faulty) then Sound
    else if OffsetsByEdge(faulty)[e] == EVEN_OFFSET then Up
    else Down
  }

  function Members(participants: seq<EdgeId>, faulty: seq<EdgeId>, side: Side): set<EdgeId> {
    set p | p in participants && SideOf(faulty, p) == side
  }

  function Moved(x: Reading, side: Side): Reading {
    match side
    case Sound => x
    case Up => Shift(x, EVEN_OFFSET)
    case Down => Shift(x, ODD_OFFSET)
  }

  lemma InjectedSees(input: RoundInput, config: FaultConfig, p: EdgeId)
    requires WellFormed(input) && config.mode != NoFault && p in input.participants
    ensures var out := Injected(input, config);
            && WellFormed(out) && out.participants == input.participants
            && Seen(out, p) == Moved(Seen(input, p), SideOf(ResolveFaultyEdges(config, input.participants), p))
  {
    var faulty := ResolveFaultyEdges(config, input.participants);
    if faulty == [] {
      assert InjectStates(input.states, OffsetsByEdge(faulty)) == input.states;
    }
    assert Injected(input, config) == input.(states := InjectStates(input.states, OffsetsByEdge(faulty)));
    hide Shift, WellFormed, Seen, InjectStates, OffsetsByEdge, Injected, ResolveFaultyEdges;
    InjectedIsWellFormed(input, OffsetsByEdge(faulty));
    InjectedView(input, OffsetsByEdge(faulty), p);
    OffsetsAre(faulty, p);
  }

  lemma DifferentSidesAreFar(x: Reading, y: Reading, a: Side, b: Side)
    requires Compatible(x, y) && Compatible(y, x) && a != b
    ensures !Compatible(Moved(x, a), Moved(y, b))
  {
    hide Distance, Shift;
    if a == Sound || b == Sound {
      var still, moved, offset := if a == Sound then x else y, if a == Sound then y else x,
                                  if Up in {a, b} then EVEN_OFFSET else ODD_OFFSET;
      ShiftedIsFar(moved, offset, still);
      DistanceIsMetric(Shift(moved, offset), still, still);
    } else if a == Up {
      OppositeShiftsAreFar(x, y);
    } else {
      OppositeShiftsAreFar(y, x);
    }
  }

  // Whoever agrees with an edge of the injected round is on its side.
  lemma NeighboursAreMembers(input: RoundInput, config: FaultConfig, e: EdgeId)
    requires WellFormed(input) && Agreeing(input) && config.mode != NoFault && e in input.participants
    ensures var faulty, out := ResolveFaultyEdges(config, input.participants), Injected(input, config);
            && WellFormed(out) && out.participants == input.participants && e in ByEdge(out.states)
            && Neighbourhood(out.participants, ByEdge(out.states), e) <= Members(input.participants, faulty, SideOf(faulty, e))
  {
    InjectedSees(input, config, e);
    var faulty, out := ResolveFaultyEdges(config, input.participants), Injected(input, config);
    Assumed(out, e);
    hide Compatible, Seen, Moved, SideOf, Injected, ResolveFaultyEdges, WellFormed;
    assert Known(ByEdge(out.states), out.participants) by {
      KnownViews(out);
    }
    forall p | p in Neighbourhood(out.participants, ByEdge(out.states), e) ensures SideOf(faulty, p) == SideOf(faulty, e) {
      InjectedSees(input, config, p);
      Assumed(out, p);
      if SideOf(faulty, p) != SideOf(faulty, e) {
        DifferentSidesAreFar(Seen(input, e), Seen(input, p), SideOf(faulty, e), SideOf(faulty, p));
      }
    }
  }

  lemma KnownViews(out: RoundInput)
    requires WellFormed(out)
    ensures Known(ByEdge(out.states), out.participants)
  {
  }

  // When no side is a majority, everyone is excluded and the round fails for want of a quorum.
  lemma NoMajoritySideFails(input: RoundInput, config: FaultConfig)
    requires WellFormed(input) && Agreeing(input) && config.mode != NoFault
    requires var faulty := ResolveFaultyEdges(config, input.participants);
             forall side :: 2 * |Members(input.participants, faulty, side)| <= |input.participants|
    ensures var package := PackageOf(Injected(input, config));
            && package.status == FailedConsensus && |package.exclusions| == |input.participants|
            && BuildRoundSummary(package).Ok?
            && ResolveConsensusBlockReason(BuildRoundSummary(package).value) == NoQuorumReached
  {
    var faulty, out := ResolveFaultyEdges(config, input.participants), Injected(input, config);
    NeighboursAreMembers(input, config, input.participants[0]);
    WellFormedIsEvaluable(out);
    hide Neighbourhood, Members, SideOf, Injected, ResolveFaultyEdges, WellFormed, Agreeing, TrustOf, Evaluable, PackageOf;
    forall e | e in out.participants ensures e in ExcludedEdges(TrustOf(out).exclusions) {
      NeighboursAreMembers(input, config, e);
      SubsetSize(Neighbourhood(out.participants, ByEdge(out.states), e),
                 Members(input.participants, faulty, SideOf(faulty, e)));
      DistinctParticipants(out);
      ExcludedIff(out, e);
    }
    AllExcludedFails(out);
  }

  lemma DistinctParticipants(input: RoundInput)
    requires WellFormed(input)
    ensures NoRepeat(input.participants)
  {
  }

  // ---- how many edges are on each side ----

  // The next edge goes up or down by its place in the list; the others stay where they were put.
  lemma SideSnoc(front: seq<EdgeId>, last: EdgeId, e: EdgeId)
    requires last !in front
    ensures SideOf(front, last) == Sound
    ensures SideOf(front + [last], e)
         == if e == last then (if |front| % 2 == 0 then Up else Down) else SideOf(front, e)
  {
    NotYetShifted(front, last);
    assert (front + [last])[..|front|] == front;
  }

  lemma MembersSnoc(participants: seq<EdgeId>, front: seq<EdgeId>, last: EdgeId, side: Side)
    requires last !in front && last in participants && side != Sound
    ensures var before, after := Members(participants, front, side), Members(participants, front + [last], side);
            |after| == |before| + if (side == Up) == (|front| % 2 == 0) then 1 else 0
  {
    var before, after := Members(participants, front, side), Members(participants, front + [last], side);
    hide SideOf;
    forall e ensures SideOf(front + [last], e)
                  == if e == last then (if |front| % 2 == 0 then Up else Down) else SideOf(front, e)
    {
      SideSnoc(front, last, e);
    }
    SideSnoc(front, last, last);
    assert last !in before;
    if (side == Up) == (|front| % 2 == 0) {
      assert after == before + {last};
    } else {
      assert after == before;
    }
  }

  lemma {:induction false} ShiftedCounts(participants: seq<EdgeId>, faulty: seq<EdgeId>)
    requires NoRepeat(faulty) && forall e :: e in faulty ==> e in participants
    ensures |Members(participants, faulty, Up)| == (|faulty| + 1) / 2
    ensures |Members(participants, faulty, Down)| == |faulty| / 2
  {
    if faulty == [] {
      assert Members(participants, faulty, Up) == {} && Members(participants, faulty, Down) == {};
    } else {
      hide Members;
      var front, last := faulty[..|faulty| - 1], faulty[|faulty| - 1];
      assert faulty == front + [last];
      NoRepeatSnoc(front, last);
      ShiftedCounts(participants, front);
      MembersSnoc(participants, front, last, Up);
      MembersSnoc(participants, front, last, Down);
    }
  }

  lemma NotYetShifted(faulty: seq<EdgeId>, e: EdgeId)
    requires e !in faulty
    ensures SideOf(faulty, e) == Sound
  {
    OffsetsAre(faulty, e);
  }

  lemma SoundAreTheRest(participants: seq<EdgeId>, faulty: seq<EdgeId>)
    requires NoRepeat(participants) && NoRepeat(faulty) && forall e :: e in faulty ==> e in participants
    ensures |Members(participants, faulty, Sound)| == |participants| - |faulty|
  {
    forall e ensures SideOf(faulty, e) == Sound <==> e !in faulty {
      OffsetsAre(faulty, e);
    }
    hide SideOf, NoRepeat;
    DistinctCount(faulty);
    SoundCount(participants, Elements(faulty));
    assert Members(participants, faulty, Sound) == Elements(participants) - Elements(faulty);
  }

  // ---- who carries the round ----

  // The edges of its own side that an edge still agrees with; rounding can part views that agreed by a hair.
  ghost function Mates(input: RoundInput, faulty: seq<EdgeId>, e: EdgeId): set<EdgeId> {
    var side := SideOf(faulty, e);
    set q | q in Members(input.participants, faulty, side)
            && (q == e || Compatible(Moved(Seen(input, e), side), Moved(Seen(input, q), side)))
  }

  // The members of a side that agree with a majority of all edges.
  ghost function Carried(input: RoundInput, faulty: seq<EdgeId>, side: Side): set<EdgeId> {
    set e | e in Members(input.participants, faulty, side) && |Mates(input, faulty, e)| >= Majority(|input.participants|)
  }

  lemma MatesAreNeighbours(input: RoundInput, config: FaultConfig, e: EdgeId)
    requires WellFormed(input) && Agreeing(input) && config.mode != NoFault && e in input.participants
    ensures var faulty, out := ResolveFaultyEdges(config, input.participants), Injected(input, config);
            && WellFormed(out) && out.participants == input.participants && e in ByEdge(out.states)
            && Neighbourhood(out.participants, ByEdge(out.states), e) == Mates(input, faulty, e)
  {
    NeighboursAreMembers(input, config, e);
    var faulty, out := ResolveFaultyEdges(config, input.participants), Injected(input, config);
    hide Compatible, SideOf, Injected, ResolveFaultyEdges, Moved, Seen, WellFormed, Agreeing;
    InjectedSees(input, config, e);
    Assumed(out, e);
    forall q | q in input.participants
      ensures q in ByEdge(out.states)
              && ByEdge(out.states)[q] == Moved(Seen(input, q), SideOf(faulty, q))
    {
      InjectedSees(input, config, q);
      Assumed(out, q);
    }
  }

  // An edge survives the injected round exactly when its side carries it.
  lemma SurvivorsAreCarried(input: RoundInput, config: FaultConfig, e: EdgeId)
    requires WellFormed(input) && Agreeing(input) && config.mode != NoFault
    ensures var faulty := ResolveFaultyEdges(config, input.participants);
            e in SurvivorsOf(Injected(input, config)) <==> e in Carried(input, faulty, SideOf(faulty, e))
  {
    NeighboursAreMembers(input, config, input.participants[0]);
    var faulty, out := ResolveFaultyEdges(config, input.participants), Injected(input, config);
    KnownViews(out);
    SurvivorsAre(out);
    hide SurvivorsOf, Injected, ResolveFaultyEdges, WellFormed, Agreeing, ByEdge, SideOf, Mates, Neighbourhood;
    if e in input.participants {
      MatesAreNeighbours(input, config, e);
    }
  }

  lemma SurvivorsAreDistinct(out: RoundInput)
    requires WellFormed(out)
    ensures NoRepeat(SurvivorsOf(out))
    ensures PackageOf(out).status == Success <==> |SurvivorsOf(out)| >= Majority(|out.participants|)
  {
    KnownViews(out);
    hide SurvivorsOf, PackageOf, Survives, ByEdge, Published, MeanReading;
    EngineTotal(out);
    SurvivorsAre(out);
  }

  lemma CarriedIsLarge(input: RoundInput, faulty: seq<EdgeId>, e: EdgeId)
    requires e in Carried(input, faulty, SideOf(faulty, e))
    ensures |Members(input.participants, faulty, SideOf(faulty, e))| >= Majority(|input.participants|)
  {
    hide Compatible, Moved, SideOf, Seen;
    SubsetSize(Mates(input, faulty, e), Members(input.participants, faulty, SideOf(faulty, e)));
  }

  // Two sides share no edge, so only one can be a majority.
  lemma OneLargeSide(participants: seq<EdgeId>, faulty: seq<EdgeId>, a: Side, b: Side)
    requires |Members(participants, faulty, a)| >= Majority(|participants|)
    requires |Members(participants, faulty, b)| >= Majority(|participants|)
    ensures a == b
  {
    hide SideOf;
    if a != b {
      var both := Members(participants, faulty, a) + Members(participants, faulty, b);
      assert Members(participants, faulty, a) !! Members(participants, faulty, b);
      DistinctCount(participants);
      SubsetSize(both, Elements(participants));
    }
  }

  // Whatever the list of injected edges, repeats included: the edges of one side that agree with a majority are
  // who survives, and the round succeeds exactly when some side has a majority of them.
  lemma InjectionSucceedsExactlyWhen(input: RoundInput, config: FaultConfig)
    requires WellFormed(input) && Agreeing(input) && config.mode != NoFault
    ensures var faulty := ResolveFaultyEdges(config, input.participants);
            PackageOf(Injected(input, config)).status == Success
            <==> exists side :: |Carried(input, faulty, side)| >= Majority(|input.participants|)
    ensures var faulty := ResolveFaultyEdges(config, input.participants);
            forall e :: (e in ExcludedEdges(PackageOf(Injected(input, config)).exclusions)
                         <==> e in input.participants && e !in Carried(input, faulty, SideOf(faulty, e)))
  {
    NeighboursAreMembers(input, config, input.participants[0]);
    var faulty, out := ResolveFaultyEdges(config, input.participants), Injected(input, config);
    SurvivorsAreDistinct(out);
    WellFormedIsEvaluable(out);
    hide SurvivorsOf, TrustOf, Injected, ResolveFaultyEdges, WellFormed, Evaluable, Agreeing, Members, Mates, SideOf, NoRepeat,
         Carried, Published, MeanReading;
    DistinctCount(SurvivorsOf(out));
    forall e
      ensures e in SurvivorsOf(out) <==> e in Carried(input, faulty, SideOf(faulty, e))
      ensures e in ExcludedEdges(TrustOf(out).exclusions)
         <==> e in input.participants && e !in Carried(input, faulty, SideOf(faulty, e))
    {
      SurvivorsAreCarried(input, config, e);
      ExcludedOrSurviving(out, e);
    }
    CarriedDecides(input, faulty, SurvivorsOf(out));
  }

  lemma ExcludedOrSurviving(out: RoundInput, e: EdgeId)
    requires WellFormed(out)
    ensures e in ExcludedEdges(TrustOf(out).exclusions) <==> e in out.participants && e !in SurvivorsOf(out)
  {
    WellFormedIsEvaluable(out);
    hide TrustOf, SurvivorsOf, Survives;
    SurvivingOwner(out, e);
    ExcludedIff(out, e);
  }

  lemma CarriedDecides(input: RoundInput, faulty: seq<EdgeId>, survivors: seq<EdgeId>)
    requires forall e :: e in survivors <==> e in Carried(input, faulty, SideOf(faulty, e))
    ensures |Elements(survivors)| >= Majority(|input.participants|)
       <==> exists side :: |Carried(input, faulty, side)| >= Majority(|input.participants|)
  {
    forall side, e | e in Carried(input, faulty, side) ensures SideOf(faulty, e) == side {
    }
    hide Carried, Members, SideOf;
    forall side ensures Carried(input, faulty, side) <= Elements(survivors) {
    }
    if side :| |Carried(input, faulty, side)| >= Majority(|input.participants|) {
      SubsetSize(Carried(input, faulty, side), Elements(survivors));
    } else if |Elements(survivors)| >= Majority(|input.participants|) {
      assert survivors != [];
      var side := SideOf(faulty, survivors[0]);
      CarriedIsLarge(input, faulty, survivors[0]);
      forall e | e in survivors ensures e in Carried(input, faulty, side) {
        CarriedIsLarge(input, faulty, e);
        OneLargeSide(input.participants, faulty, side, SideOf(faulty, e));
      }
      SubsetSize(Elements(survivors), Carried(input, faulty, side));
    }
  }

  // ---- lists without repeats ----

  // Those shifted up agree after the shift too.
  ghost predicate UpperAgree(input: RoundInput, faulty: seq<EdgeId>) {
    forall p, q :: p in Members(input.participants, faulty, Up) && q in Members(input.participants, faulty, Up) ==>
      Compatible(Shift(Seen(input, p), EVEN_OFFSET), Shift(Seen(input, q), EVEN_OFFSET))
  }

  lemma Fills(near: set<EdgeId>, all: set<EdgeId>)
    requires near <= all
    ensures |near| >= |all| <==> all <= near
  {
    assert all == near + (all - near);
  }

  lemma SelfAgrees(x: Reading)
    ensures Compatible(x, x)
  {
    hide Distance;
    DistanceIsMetric(x, x, x);
  }

  lemma UpperCarriesWhen(input: RoundInput, faulty: seq<EdgeId>)
    requires |Members(input.participants, faulty, Up)| == Majority(|input.participants|)
    ensures |Carried(input, faulty, Up)| >= Majority(|input.participants|) <==> UpperAgree(input, faulty)
  {
    var up := Members(input.participants, faulty, Up);
    CarriedAreIn(input, faulty, Up);
    Fills(Carried(input, faulty, Up), up);
    hide Compatible, Shift, Seen, Carried, SideOf, Members;
    forall e | e in up
      ensures e in Carried(input, faulty, Up)
         <==> forall q :: q in up ==> Compatible(Shift(Seen(input, e), EVEN_OFFSET), Shift(Seen(input, q), EVEN_OFFSET))
    {
      UpperCarriedWhen(input, faulty, e);
    }
  }

  lemma UpperCarriedWhen(input: RoundInput, faulty: seq<EdgeId>, e: EdgeId)
    requires |Members(input.participants, faulty, Up)| == Majority(|input.participants|)
    requires e in Members(input.participants, faulty, Up)
    ensures e in Carried(input, faulty, Up)
       <==> forall q :: q in Members(input.participants, faulty, Up) ==>
              Compatible(Shift(Seen(input, e), EVEN_OFFSET), Shift(Seen(input, q), EVEN_OFFSET))
  {
    SelfAgrees(Shift(Seen(input, e), EVEN_OFFSET));
    hide Compatible, Shift, Seen, SideOf;
    Fills(Mates(input, faulty, e), Members(input.participants, faulty, Up));
  }

  lemma CarriedAreMembers(input: RoundInput, faulty: seq<EdgeId>, side: Side)
    ensures |Carried(input, faulty, side)| <= |Members(input.participants, faulty, side)|
  {
    hide Compatible, Moved, SideOf, Seen, Mates;
    SubsetSize(Carried(input, faulty, side), Members(input.participants, faulty, side));
  }

  // The one side that is a majority is that of the edges shifted up.
  ghost predicate OnlyUpperCounts(participants: seq<EdgeId>, faulty: seq<EdgeId>) {
    && |Members(participants, faulty, Up)| == Majority(|participants|)
    && 2 * |Members(participants, faulty, Down)| <= |participants|
    && 2 * |Members(participants, faulty, Sound)| <= |participants|
  }

  lemma UpperDecide(input: RoundInput, faulty: seq<EdgeId>)
    requires OnlyUpperCounts(input.participants, faulty)
    ensures (exists side :: |Carried(input, faulty, side)| >= Majority(|input.participants|)) <==> UpperAgree(input, faulty)
  {
    UpperCarriesWhen(input, faulty);
    hide Carried, Members, UpperAgree;
    forall side ensures side == Up || |Carried(input, faulty, side)| < Majority(|input.participants|) {
      CarriedAreMembers(input, faulty, side);
      match side
      case Up =>
      case Down =>
      case Sound =>
    }
  }

  // A list of f edges without repeats, of n agreeing ones, fails the round exactly when f is half of n or more,
  // unless it names all of an odd number and those shifted up still agree.
  lemma DistinctInjectionFailsExactlyWhen(input: RoundInput, config: FaultConfig)
    requires WellFormed(input) && Agreeing(input) && config.mode != NoFault
    requires NoRepeat(ResolveFaultyEdges(config, input.participants))
    ensures var faulty := ResolveFaultyEdges(config, input.participants);
            var f, n := |faulty|, |input.participants|;
            PackageOf(Injected(input, config)).status == FailedConsensus
            <==> 2 * f >= n && !(f == n && n % 2 == 1 && UpperAgree(input, faulty))
  {
    var ps, faulty := input.participants, ResolveFaultyEdges(config, input.participants);
    DistinctParticipants(input);
    FaultyParticipants(config, ps);
    hide *;
    SizesOfSides(ps, faulty);
    if 2 * |faulty| < |ps| {
      InjectedMinorityIsContained(input, config);
    } else if |faulty| == |ps| && |ps| % 2 == 1 {
      InjectionSucceedsExactlyWhen(input, config);
      UpperDecide(input, faulty);
    } else {
      NoMajoritySideFails(input, config);
    }
  }

  lemma SizesOfSides(participants: seq<EdgeId>, faulty: seq<EdgeId>)
    requires NoRepeat(participants) && NoRepeat(faulty) && forall e :: e in faulty ==> e in participants
    ensures |Elements(faulty)| == |faulty| <= |participants|
    ensures 2 * |faulty| >= |participants| ==>
              if |faulty| == |participants| && |participants| % 2 == 1 then OnlyUpperCounts(participants, faulty)
              else forall side :: 2 * |Members(participants, faulty, side)| <= |participants|
  {
    hide Members, NoRepeat;
    DistinctCount(faulty);
    DistinctCount(participants);
    SubsetSize(Elements(faulty), Elements(participants));
    ShiftedCounts(participants, faulty);
    SoundAreTheRest(participants, faulty);
    forall side
      ensures 2 * |Members(participants, faulty, side)|
           <= if side == Sound then 2 * (|participants| - |faulty|) else if side == Up then |faulty| + 1 else |faulty|
    {
      match side
      case Sound =>
      case Up =>
      case Down =>
    }
  }

  lemma FaultyParticipants(config: FaultConfig, participants: seq<EdgeId>)
    ensures forall e :: e in ResolveFaultyEdges(config, participants) ==> e in participants
  {
    var edges := if config.faultyEdges != [] then config.faultyEdges else DefaultFaultyEdges(config.mode);
    forall e | e in Keep(edges, participants) ensures e in participants {
      KeptParticipate(edges, participants, e);
    }
  }

  // ---- equal views ----

  // When all views are equal, so are those of a side: the round succeeds exactly when some side is a majority.
  lemma EqualViewsSucceedExactlyWhen(input: RoundInput, config: FaultConfig, view: Reading)
    requires WellFormed(input) && config.mode != NoFault
    requires forall p :: p in input.participants ==> Seen(input, p) == view
    ensures PackageOf(Injected(input, config)).status == Success
       <==> exists side :: |Members(input.participants, ResolveFaultyEdges(config, input.participants), side)|
                           >= Majority(|input.participants|)
  {
    EqualViewsAgree(input, view);
    var faulty := ResolveFaultyEdges(config, input.participants);
    hide Compatible, Seen, WellFormed, ResolveFaultyEdges, PackageOf, Injected, Carried, Members, Agreeing;
    InjectionSucceedsExactlyWhen(input, config);
    forall side
      ensures |Carried(input, faulty, side)| >= Majority(|input.participants|)
         <==> |Members(input.participants, faulty, side)| >= Majority(|input.participants|)
    {
      EqualViewsCarry(input, faulty, side, view);
    }
  }

  lemma EqualViewsCarry(input: RoundInput, faulty: seq<EdgeId>, side: Side, view: Reading)
    requires forall p :: p in input.participants ==> Seen(input, p) == view
    ensures |Carried(input, faulty, side)| >= Majority(|input.participants|)
       <==> |Members(input.participants, faulty, side)| >= Majority(|input.participants|)
  {
    CarriedAreMembers(input, faulty, side);
    SelfAgrees(Moved(view, side));
    hide Compatible, Moved, SideOf, Seen;
    forall e | e in Members(input.participants, faulty, side)
      ensures Mates(input, faulty, e) == Members(input.participants, faulty, side)
    {
    }
    if |Members(input.participants, faulty, side)| >= Majority(|input.participants|) {
      assert Carried(input, faulty, side) == Members(input.participants, faulty, side);
    }
  }

  // All of an odd number of equal views, shifted: the round still succeeds, on the shifted views.
  lemma AllInjectedCanSucceed(input: RoundInput, config: FaultConfig, view: Reading)
    requires WellFormed(input) && config.mode != NoFault && |input.participants| % 2 == 1
    requires forall p :: p in input.participants ==> Seen(input, p) == view
    requires var faulty := ResolveFaultyEdges(config, input.participants);
             NoRepeat(faulty) && |faulty| == |input.participants|
    ensures PackageOf(Injected(input, config)).status == Success
  {
    DistinctParticipants(input);
    FaultyParticipants(config, input.participants);
    hide *;
    ShiftedCounts(input.participants, ResolveFaultyEdges(config, input.participants));
    EqualViewsSucceedExactlyWhen(input, config, view);
  }

  lemma RepeatedSides(a: EdgeId, b: EdgeId, c: EdgeId)
    requires a != b && a != c && b != c
    ensures Keep([b, c, c], [a, b, c]) == [b, c, c]
    ensures Members([a, b, c], [b, c, c], Up) == {b, c} && SideOf([b, c, c], a) == Sound
  {
    var list := [b, c, c];
    assert list[..2] == [b, c] && [b, c][..1] == [b] && [b][..0] == [];
    assert Keep([b], [a, b, c]) == [b] && Keep([b, c], [a, b, c]) == [b, c];
    assert OffsetsByEdge([b]) == map[b := EVEN_OFFSET];
    assert OffsetsByEdge([b, c]) == map[b := EVEN_OFFSET, c := ODD_OFFSET];
    assert OffsetsByEdge(list) == map[b := EVEN_OFFSET, c := EVEN_OFFSET];
  }

  // Three equal views and a list that names two of them, one twice: both are shifted the same way, they carry the
  // round on the shifted views, and the one sound edge is excluded.
  lemma RepeatedFaultCarries(input: RoundInput, a: EdgeId, b: EdgeId, c: EdgeId, view: Reading)
    requires WellFormed(input) && input.participants == [a, b, c]
    requires forall p :: p in input.participants ==> Seen(input, p) == view
    ensures var package := PackageOf(Injected(input, FaultConfig(QuorumLoss, [b, c, c])));
            package.status == Success && a in ExcludedEdges(package.exclusions) && b !in ExcludedEdges(package.exclusions)
  {
    var config, faulty := FaultConfig(QuorumLoss, [b, c, c]), [b, c, c];
    ThreeDistinct(input, a, b, c);
    RepeatedSides(a, b, c);
    assert ResolveFaultyEdges(config, input.participants) == faulty;
    EqualViewsAgree(input, view);
    hide *;
    EqualViewsSucceedExactlyWhen(input, config, view);
    InjectionSucceedsExactlyWhen(input, config);
    BothCarried(input, faulty, b, c, view);
    NotCarried(input, faulty, a);
  }

  lemma ThreeDistinct(input: RoundInput, a: EdgeId, b: EdgeId, c: EdgeId)
    requires WellFormed(input) && input.participants == [a, b, c]
    ensures a != b && a != c && b != c && Majority(|input.participants|) == 2 && a in input.participants
  {
    DistinctParticipants(input);
    hide WellFormed;
    assert input.participants[0] == a && input.participants[1] == b && input.participants[2] == c;
  }

  lemma EqualViewsAgree(input: RoundInput, view: Reading)
    requires forall p :: p in input.participants ==> Seen(input, p) == view
    ensures Agreeing(input)
  {
    hide Compatible, Seen;
    SelfAgrees(view);
  }

  lemma BothCarried(input: RoundInput, faulty: seq<EdgeId>, b: EdgeId, c: EdgeId, view: Reading)
    requires forall p :: p in input.participants ==> Seen(input, p) == view
    requires b != c && Members(input.participants, faulty, Up) == {b, c} && Majority(|input.participants|) == 2
    ensures |Members(input.participants, faulty, Up)| == 2 && b in Carried(input, faulty, SideOf(faulty, b))
  {
    EqualViewsCarry(input, faulty, Up, view);
    CarriedAreIn(input, faulty, Up);
    hide Seen, Carried, Members, SideOf;
    assert |{b, c}| == 2;
    Fills(Carried(input, faulty, Up), {b, c});
  }

  lemma CarriedAreIn(input: RoundInput, faulty: seq<EdgeId>, side: Side)
    ensures Carried(input, faulty, side) <= Members(input.participants, faulty, side)
    ensures forall e :: e in Members(input.participants, faulty, side) ==> SideOf(faulty, e) == side
  {
    hide Compatible, Moved, SideOf, Seen, Mates;
  }

  // Beside a side that is a majority, no other carries anyone.
  lemma NotCarried(input: RoundInput, faulty: seq<EdgeId>, e: EdgeId)
    requires |Members(input.participants, faulty, Up)| >= Majority(|input.participants|) && SideOf(faulty, e) != Up
    ensures e !in Carried(input, faulty, SideOf(faulty, e))
  {
    hide Carried, Members, SideOf;
    if e in Carried(input, faulty, SideOf(faulty, e)) {
      CarriedIsLarge(input, faulty, e);
      OneLargeSide(input.participants, faulty, SideOf(faulty, e), Up);
    }
  }
}
