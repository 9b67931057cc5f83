// When the order of the observations decides what the reference evaluation answers.
module ReferenceOrder {
  import opened Wrappers
  import opened Lists
  import opened SortedIds
  import opened DecisionContract
  import opened ReferenceEvaluator
  import opened ReferenceProperties
  import opened ReferenceExamples

  lemma RepeatShuffled(s: seq<Observation>, t: seq<Observation>)
    requires multiset(s) == multiset(t)
    ensures NoRepeat(EdgeIds(s)) <==> NoRepeat(EdgeIds(t))
  {
    hide NoRepeat, EdgeIds;
    if NoRepeat(EdgeIds(s)) {
      LookupShuffled(s, t);
    }
    if NoRepeat(EdgeIds(t)) {
      LookupShuffled(t, s);
    }
  }

  lemma BindingShows(input: RoundInput, parameters: ParameterSet, op: Operation, s: seq<Observation>)
    ensures PROJECTION_BINDING in SortedSet(ClosureDiagnostics(input, parameters, op, s)) <==> !ProjectionBound(input, s)
  {
    hide ProjectionBound, ProjectionClosed, ParametersNameOperation, SortBy;
    var closure := ClosureDiagnostics(input, parameters, op, s);
    SortElements(ById(), Dedup(closure));
  }

  // Two orders of the observations lead to one answer exactly when the evaluation is blocked before it looks
  // at them, or the projections that survive in its dictionary are bound in both orders or in neither.
  lemma AgreeExactlyWhen(digests: Digests, input: RoundInput, parameters: ParameterSet, contract: ContractValidation,
                         validation: ParameterValidation, operation: Option<Operation>,
                         s: seq<Observation>, t: seq<Observation>)
    requires operation.Some? ==> ValidOperation(digests, operation.value)
    requires multiset(s) == multiset(t)
    ensures EvaluateSpec(digests, input, parameters, contract, validation, operation, s)
         == EvaluateSpec(digests, input, parameters, contract, validation, operation, t)
       <==> BlockingDiagnostics(contract, validation, operation, s) != []
            || (ProjectionBound(input, s) <==> ProjectionBound(input, t))
  {
    hide NoRepeat, EdgeIds, DecisionFor, DecisionError, SortedSet, EventsFor, ValidOperation, ProjectionBound,
         ParametersNameOperation;
    SameMembers(s, t);
    RepeatShuffled(s, t);
    if NoRepeat(EdgeIds(s)) {
      EvaluationIgnoresOrder(digests, input, parameters, contract, validation, operation, s, t);
      BoundShuffled(input, s, t);
    } else if operation.Some? {
      BindingShows(input, parameters, operation.value, s);
      BindingShows(input, parameters, operation.value, t);
    }
  }

  lemma BoundShuffled(input: RoundInput, s: seq<Observation>, t: seq<Observation>)
    requires multiset(s) == multiset(t) && NoRepeat(EdgeIds(s))
    ensures ProjectionBound(input, s) <==> ProjectionBound(input, t)
  {
    LookupShuffled(s, t);
  }

  // ---- over all orders ----

  predicate AllBound(input: RoundInput, s: seq<Observation>) {
    forall o :: o in s ==> Bound(RowByEdge(input.observations), o)
  }

  // Some edge has projections, and none of them is of its row.
  predicate SomeEdgeUnbound(input: RoundInput, s: seq<Observation>) {
    exists o :: o in s && forall x :: x in s && x.edgeId == o.edgeId ==> !Bound(RowByEdge(input.observations), x)
  }

  lemma FixedBinding(input: RoundInput, s: seq<Observation>)
    ensures AllBound(input, s) ==> ProjectionBound(input, s)
    ensures SomeEdgeUnbound(input, s) ==> !ProjectionBound(input, s)
  {
    hide Bound, RowByEdge, EdgeIds;
    forall edge | edge in ByEdge(s) ensures ByEdge(s)[edge] in s {
      ByEdgeHas(s, edge);
    }
    if SomeEdgeUnbound(input, s) {
      var o :| o in s && forall x :: x in s && x.edgeId == o.edgeId ==> !Bound(RowByEdge(input.observations), x);
      EdgeIdsSnoc(s, o);
      ByEdgeHas(s, o.edgeId);
    }
  }

  lemma FixedShuffled(input: RoundInput, s: seq<Observation>, t: seq<Observation>)
    requires multiset(s) == multiset(t)
    ensures AllBound(input, s) <==> AllBound(input, t)
    ensures SomeEdgeUnbound(input, s) <==> SomeEdgeUnbound(input, t)
  {
    hide Bound, RowByEdge;
    SameMembers(s, t);
  }

  // Later projections win.
  lemma {:induction false} LaterWins(s: seq<Observation>, t: seq<Observation>, edge: string)
    requires edge in ByEdge(t)
    ensures edge in ByEdge(s + t) && ByEdge(s + t)[edge] == ByEdge(t)[edge]
  {
    assert (s + t)[..|s + t| - 1] == s + t[..|t| - 1];
    if edge != t[|t| - 1].edgeId {
      LaterWins(s, t[..|t| - 1], edge);
    }
  }

  function BoundTo(input: RoundInput): Observation -> bool {
    (o: Observation) => Bound(RowByEdge(input.observations), o)
  }

  function UnboundTo(input: RoundInput): Observation -> bool {
    (o: Observation) => !Bound(RowByEdge(input.observations), o)
  }

  lemma Regrouped(p: Observation -> bool, q: Observation -> bool, s: seq<Observation>)
    requires forall o :: p(o) <==> !q(o)
    ensures multiset(Select(p, s) + Select(q, s)) == multiset(s)
  {
    hide Select;
    forall o ensures multiset(Select(p, s) + Select(q, s))[o] == multiset(s)[o] {
      SelectCounts(p, s, o);
      SelectCounts(q, s, o);
    }
  }

  lemma KeepsBound(input: RoundInput, s: seq<Observation>, first: seq<Observation>, x: Observation)
    requires x in s && Bound(RowByEdge(input.observations), x)
    ensures var t := first + Select(BoundTo(input), s);
            x.edgeId in ByEdge(t) && Bound(RowByEdge(input.observations), ByEdge(t)[x.edgeId])
  {
    hide Bound, RowByEdge, EdgeIds, ByEdge, Select;
    var good := Select(BoundTo(input), s);
    SelectHas(BoundTo(input), s);
    EdgeIdsSnoc(good, x);
    ByEdgeHas(good, x.edgeId);
    LaterWins(first, good, x.edgeId);
  }

  // With every projection of a row after all others, each edge that has one keeps one.
  lemma BoundLast(input: RoundInput, s: seq<Observation>) returns (t: seq<Observation>)
    requires !SomeEdgeUnbound(input, s)
    ensures multiset(t) == multiset(s) && ProjectionBound(input, t)
  {
    t := Select(UnboundTo(input), s) + Select(BoundTo(input), s);
    Regrouped(UnboundTo(input), BoundTo(input), s);
    hide Bound, RowByEdge, ByEdge, Select, UnboundTo, BoundTo, SomeEdgeUnbound;
    SameMembers(s, t);
    forall edge | edge in ByEdge(t) ensures Bound(RowByEdge(input.observations), ByEdge(t)[edge]) {
      ByEdgeHas(t, edge);
      var x := SomeBound(input, s, ByEdge(t)[edge]);
      KeepsBound(input, s, Select(UnboundTo(input), s), x);
    }
  }

  lemma SomeBound(input: RoundInput, s: seq<Observation>, o: Observation) returns (x: Observation)
    requires !SomeEdgeUnbound(input, s) && o in s
    ensures x in s && x.edgeId == o.edgeId && Bound(RowByEdge(input.observations), x)
  {
    hide Bound, RowByEdge;
    x :| x in s && x.edgeId == o.edgeId && Bound(RowByEdge(input.observations), x);
  }

  lemma UnboundLast(input: RoundInput, s: seq<Observation>) returns (t: seq<Observation>)
    requires !AllBound(input, s)
    ensures multiset(t) == multiset(s) && !ProjectionBound(input, t)
  {
    hide Bound, RowByEdge;
    var k :| 0 <= k < |s| && !Bound(RowByEdge(input.observations), s[k]);
    t := s[..k] + s[k + 1..] + [s[k]];
    assert s == s[..k] + [s[k]] + s[k + 1..];
    assert t[..|t| - 1] == s[..k] + s[k + 1..];
    assert s[k].edgeId in ByEdge(t) && ByEdge(t)[s[k].edgeId] == s[k];
  }

  // All orders of the observations lead to one answer exactly when the evaluation is blocked before it looks at
  // them, every projection is of its row, or some edge has no projection that is.
  lemma OrderIsIrrelevantExactlyWhen(digests: Digests, input: RoundInput, parameters: ParameterSet,
                                     contract: ContractValidation, validation: ParameterValidation,
                                     operation: Option<Operation>, s: seq<Observation>)
    requires operation.Some? ==> ValidOperation(digests, operation.value)
    ensures (forall t :: multiset(s) == multiset(t) ==>
               EvaluateSpec(digests, input, parameters, contract, validation, operation, t)
               == EvaluateSpec(digests, input, parameters, contract, validation, operation, s))
       <==> BlockingDiagnostics(contract, validation, operation, s) != [] || AllBound(input, s) || SomeEdgeUnbound(input, s)
  {
    hide EvaluateSpec, BlockingDiagnostics, AllBound, SomeEdgeUnbound, ProjectionBound, ValidOperation;
    forall t | multiset(s) == multiset(t)
      ensures EvaluateSpec(digests, input, parameters, contract, validation, operation, t)
           == EvaluateSpec(digests, input, parameters, contract, validation, operation, s)
         <==> BlockingDiagnostics(contract, validation, operation, s) != []
              || (ProjectionBound(input, s) <==> ProjectionBound(input, t))
      ensures AllBound(input, s) ==> ProjectionBound(input, t)
      ensures SomeEdgeUnbound(input, s) ==> !ProjectionBound(input, t)
    {
      AgreeExactlyWhen(digests, input, parameters, contract, validation, operation, s, t);
      FixedShuffled(input, s, t);
      FixedBinding(input, t);
    }
    FixedBinding(input, s);
    if !AllBound(input, s) && !SomeEdgeUnbound(input, s) {
      var bound := BoundLast(input, s);
      var unbound := UnboundLast(input, s);
    }
  }

  // ---- two orders with different answers ----

  // A projection of edge a that names another observation than the row of a does.
  function Stray(): Observation {
    Projection('a', 0.0).(observationId := IdOf('0'))
  }

  lemma RowOfA(digests: Digests)
    ensures var rows := RowByEdge(ThreeRows(digests).observations);
            IdOf('a') in rows && rows[IdOf('a')] == Row('a')
  {
    IdsRise('a', 'b');
    IdsRise('a', 'c');
    var rows := ThreeRows(digests).observations;
    hide IdOf, ThreeRows;
    assert rows == [Row('a'), Row('b'), Row('c')];
    var two := rows[..2];
    assert two[..1] == [Row('a')] && two[1] == Row('b');
    assert RowByEdge([Row('a')])[IdOf('a')] == Row('a');
    assert RowByEdge(two)[IdOf('a')] == Row('a');
  }

  lemma StrayIsUnbound(digests: Digests)
    ensures !Bound(RowByEdge(ThreeRows(digests).observations), Stray())
    ensures Bound(RowByEdge(ThreeRows(digests).observations), Projection('a', 0.0))
    ensures Stray().edgeId == Projection('a', 0.0).edgeId
  {
    hide IdOf, ThreeRows, RowByEdge;
    IdsRise('0', '4');
    RowOfA(digests);
  }

  lemma StrayIsValid()
    ensures ValidObservation(Stray()) && ValidObservation(Projection('a', 0.0))
  {
    hide IsImmutableId, IdOf;
  }

  // The answer to the observations s about the three rows, when nothing else blocks.
  function Answer(digests: Digests, s: seq<Observation>): Result<Evaluation, Code>
    requires ValidOperation(digests, TwoOfThree(digests))
  {
    EvaluateSpec(digests, ThreeRows(digests), Naming(digests), ContractValidation(true, []),
                 ParameterValidation("valid", []), Some(TwoOfThree(digests)), s)
  }

  // Accepted projections of one edge, of which the later wins: exchanging them changes the diagnostics.
  lemma OrderCanDecide(digests: Digests)
    ensures ValidObservation(Stray()) && ValidObservation(Projection('a', 0.0))
    ensures ValidOperation(digests, TwoOfThree(digests))
            && Answer(digests, [Stray(), Projection('a', 0.0)]) != Answer(digests, [Projection('a', 0.0), Stray()])
  {
    ExampleOperation(digests);
    StrayIsUnbound(digests);
    StrayIsValid();
    var stray, own := Stray(), Projection('a', 0.0);
    hide *;
    LastDecides(ThreeRows(digests), stray, own);
    LastDecides(ThreeRows(digests), own, stray);
    DifferentAnswers(digests, [stray, own], [own, stray]);
  }

  lemma LastDecides(input: RoundInput, first: Observation, second: Observation)
    requires first.edgeId == second.edgeId
    ensures ProjectionBound(input, [first, second]) <==> Bound(RowByEdge(input.observations), second)
  {
    hide Bound, RowByEdge;
    assert [first, second][..1] == [first] && [first][..0] == [];
    assert ByEdge([first]) == map[first.edgeId := first];
    var provided := ByEdge([first, second]);
    assert provided == map[second.edgeId := second];
    assert second.edgeId in provided && provided[second.edgeId] == second;
    assert forall edge :: edge in provided ==> provided[edge] == second;
  }

  lemma DifferentAnswers(digests: Digests, s: seq<Observation>, t: seq<Observation>)
    requires ValidOperation(digests, TwoOfThree(digests)) && multiset(s) == multiset(t) && s != []
    requires ProjectionBound(ThreeRows(digests), s) && !ProjectionBound(ThreeRows(digests), t)
    ensures Answer(digests, s) != Answer(digests, t)
  {
    hide ThreeRows, TwoOfThree, Naming, ProjectionBound, ValidOperation, EvaluateSpec;
    AgreeExactlyWhen(digests, ThreeRows(digests), Naming(digests), ContractValidation(true, []),
                     ParameterValidation("valid", []), Some(TwoOfThree(digests)), s, t);
  }
}
