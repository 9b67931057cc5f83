// A round the reference evaluation computes and its own contract then refuses.
module ReferenceExamples {
  import opened Wrappers
  import opened Sums
  import opened SortedIds
  import opened Texts
  import opened DecisionContract
  import opened ReferenceEvaluator
  import opened ReferenceAcceptance

  function Row(edge: char): InputRow
    requires IsHexDigit(edge)
  {
    InputRow(IdOf(edge), IdOf('4'), IdOf('5'), IdOf('2'), 1, IdOf('6'), "mA")
  }

  function Projection(edge: char, value: real): Observation
    requires IsHexDigit(edge)
  {
    Observation(IdOf(edge), IdOf('4'), IdOf('5'), value, None, IdOf('7'))
  }

  function ThreeRows(digests: Digests): RoundInput {
    var basis := Basis(IdOf('1'), Points("Basis.v2"), "b", digests.text("b"), RAW_CURRENT, "mA", [IdOf('2')], []);
    var unsealed := RoundInput(SCHEMA, IdOf('1'), IdOf('1'), IdOf('1'), IdOf('1'), basis, [IdOf('3')], [],
                               [Row('a'), Row('b'), Row('c')], "", NO_EFFECT);
    unsealed.(inputContentId := InputIdFor(digests, unsealed))
  }

  function TwoOfThree(digests: Digests): Operation {
    Operation(digests.text(MEAN_CURRENT_RESIDUAL_V1), MEAN_CURRENT_RESIDUAL_V1, digests.text(MEAN_CURRENT_RESIDUAL_V1),
              [IdOf('8')], digests.text(JoinLines([IdOf('8')])), 2, 10.0, 4, IdOf('9'), IdOf('0'))
  }

  function Naming(digests: Digests): ParameterSet {
    var op := TwoOfThree(digests);
    ParameterSet(IdOf('d'), IdOf('1'), IdOf('2'), IdOf('3'), op.operationId, op.canonicalBytesHash, op.conformanceVectorHash)
  }

  // The mean is 4, so the residuals are 4, 6 and 2 while the ids rise.
  const CURRENTS := [Projection('a', 0.0), Projection('b', 10.0), Projection('c', 2.0)]

  lemma {:induction false} LessAfterPrefix(p: string, a: string, b: string)
    requires StrLess(a, b)
    ensures StrLess(p + a, p + b)
    decreases |p|
  {
    if p == [] {
      assert p + a == a && p + b == b;
    } else {
      LessAfterPrefix(p[1..], a, b);
      assert (p + a)[1..] == p[1..] + a && (p + b)[1..] == p[1..] + b;
    }
  }

  lemma IdsRise(c: char, d: char)
    requires IsHexDigit(c) && IsHexDigit(d) && c < d
    ensures StrLess(IdOf(c), IdOf(d))
    ensures IdOf(c) != IdOf(d)
  {
    var s, t := seq(64, i => c), seq(64, i => d);
    assert s[0] == c && t[0] == d;
    LessAfterPrefix("sha256:", s, t);
    StrLessIsOrder(IdOf(c), IdOf(d), IdOf(c));
  }

  lemma OneId(id: string)
    requires IsImmutableId(id)
    ensures OrderedIds([id])
  {
    OneEvidence(id);
  }

  lemma NoIds()
    ensures OrderedIds([])
  {
    OrderedIdsIncrease([]);
    NoneImmutable();
  }

  lemma RowsRise(c: char, d: char)
    requires IsHexDigit(c) && IsHexDigit(d) && c < d
    ensures !RowLess(Row(d), Row(c)) && Row(c).edgeId != Row(d).edgeId
  {
    hide IdOf;
    IdsRise(c, d);
    StrLessIsOrder(IdOf(c), IdOf(d), IdOf(c));
  }

  lemma ThreeRowsInOrder()
    ensures RowsInOrder([Row('a'), Row('b'), Row('c')])
    ensures RowsError([Row('a'), Row('b'), Row('c')]) == None
  {
    hide Row, RowLess, RowError;
    RowsRise('a', 'b');
    RowsRise('b', 'c');
    RowsRise('a', 'c');
    RowPasses('a');
    RowPasses('b');
    RowPasses('c');
  }

  lemma RowPasses(edge: char)
    requires IsHexDigit(edge)
    ensures RowError(Row(edge)) == None
  {
    hide IsImmutableId, IdOf;
  }

  lemma ExampleBasis(digests: Digests)
    ensures BasisError(digests, ThreeRows(digests).basis) == None
  {
    hide IsImmutableId, IdOf, OrderedIds;
    OneId(IdOf('2'));
    NoIds();
  }

  lemma ExampleInput(digests: Digests)
    ensures InputError(digests, ThreeRows(digests)) == None
  {
    hide IsImmutableId, IdOf, OrderedIds, BasisError, RowsInOrder, RowsError;
    var p := ThreeRows(digests);
    ExampleBasis(digests);
    ThreeRowsInOrder();
    OneId(IdOf('3'));
    NoIds();
    assert p.(inputContentId := "").(inputContentId := "") == p.(inputContentId := "");
    assert ProfilesOf(p.observations) == [IdOf('2'), IdOf('2'), IdOf('2')];
    assert p.basis.profileIds[..1] == [IdOf('2')];
  }

  lemma ExampleOperation(digests: Digests)
    ensures ValidOperation(digests, TwoOfThree(digests))
  {
    hide IsImmutableId, IdOf, OrderedIds, JoinLines;
    OneId(IdOf('8'));
  }

  lemma ExampleProjections()
    ensures forall o :: o in CURRENTS ==> ValidObservation(o)
  {
    hide IsImmutableId, IdOf;
  }

  lemma ExampleOpen(digests: Digests)
    ensures Open(ThreeRows(digests), Naming(digests), TwoOfThree(digests), CURRENTS)
  {
    hide IsImmutableId, IdOf;
    IdsRise('a', 'b');
    IdsRise('b', 'c');
    IdsRise('a', 'c');
    var input := ThreeRows(digests);
    assert EdgeIds(CURRENTS) == [IdOf('a'), IdOf('b'), IdOf('c')] == RowEdges(input.observations);
    assert ProjectionClosed(input, CURRENTS);
    forall edge | edge in ByEdge(CURRENTS) ensures Bound(RowByEdge(input.observations), ByEdge(CURRENTS)[edge]) {
      ByEdgeHas(CURRENTS, edge);
      RowByEdgeHas(input.observations, edge);
      SomeRow(input.observations, edge);
    }
  }

  lemma {:induction false} SomeRow(rows: seq<InputRow>, edge: string)
    requires edge in RowByEdge(rows)
    ensures RowByEdge(rows)[edge] in rows
  {
    if edge != rows[|rows| - 1].edgeId {
      SomeRow(rows[..|rows| - 1], edge);
    }
  }

  lemma ExampleResiduals(op: Operation)
    requires op.maxAbsResidual == 10.0
    ensures Eligible(CURRENTS) == CURRENTS && MeanOf(CURRENTS) == 4.0
    ensures Kept(op, CURRENTS) == CURRENTS
  {
    hide IdOf;
    var a, b, c := CURRENTS[0], CURRENTS[1], CURRENTS[2];
    assert CURRENTS[..2] == [a, b] && [a, b][..1] == [a] && [a][..0] == [];
    AllSelected(IsEligible());
    assert SumBy(CurrentValue(), [a]) == 0.0;
    assert SumBy(CurrentValue(), [a, b]) == 10.0;
    assert SumBy(CurrentValue(), CURRENTS) == 12.0;
    AllSelected(IsWithin(4.0, 10.0));
  }

  lemma AllSelected(p: Observation -> bool)
    requires p(CURRENTS[0]) && p(CURRENTS[1]) && p(CURRENTS[2])
    ensures Select(p, CURRENTS) == CURRENTS
  {
    var a, b, c := CURRENTS[0], CURRENTS[1], CURRENTS[2];
    assert CURRENTS[..2] == [a, b] && [a, b][..1] == [a] && [a][..0] == [];
    assert Select(p, [a]) == [a];
    assert Select(p, [a, b]) == [a, b];
  }

  // Accepted inputs, nothing blocks, a quorum within the bound: the record still refuses the ranking.
  lemma RankingIsRefused(digests: Digests)
    ensures Constructed(digests, ThreeRows(digests), TwoOfThree(digests), CURRENTS)
    ensures EvaluateSpec(digests, ThreeRows(digests), Naming(digests), ContractValidation(true, []),
                         ParameterValidation("valid", []), Some(TwoOfThree(digests)), CURRENTS) == Err(RankingOrder)
  {
    hide IsImmutableId, IdOf, InputError, ValidOperation, ValidObservation, Open, EvaluateSpec, Kept, MeanOf;
    var op := TwoOfThree(digests);
    ExampleInput(digests);
    ExampleOperation(digests);
    ExampleProjections();
    ExampleOpen(digests);
    ExampleResiduals(op);
    IdsRise('b', 'c');
    assert CURRENTS[1] in CURRENTS && CURRENTS[2] in CURRENTS;
    assert Residual(4.0, CURRENTS[1]) == 6.0 && Residual(4.0, CURRENTS[2]) == 2.0;
    assert !ResidualsFollowIds(op, CURRENTS);
    AcceptedExactlyWhen(digests, ThreeRows(digests), op, Naming(digests), ContractValidation(true, []),
                        ParameterValidation("valid", []), CURRENTS);
  }
}
