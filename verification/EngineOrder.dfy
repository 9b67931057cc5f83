// A round is a function of the set of its (edge, reading) pairs: listing the edges or the
// states in another order changes neither the verdict, nor the agreed state, nor any score.
module EngineOrder {
  import opened Lists
  import opened Readings
  import opened Sums
  import opened TrustModel
  import opened TrustGeometry
  import opened TrustProperties
  import opened Engine
  import opened EngineProperties

  ghost predicate Reordered(a: RoundInput, b: RoundInput) {
    && a.round == b.round
    && multiset(a.participants) == multiset(b.participants)
    && multiset(a.states) == multiset(b.states)
  }

  lemma SameElements<T(!new)>(s: seq<T>, t: seq<T>)
    requires NoRepeat(s) && NoRepeat(t) && forall x :: x in s <==> x in t
    ensures multiset(s) == multiset(t)
  {
    forall x ensures multiset(s)[x] == multiset(t)[x] {
      CountOfDistinct(s, x);
      CountOfDistinct(t, x);
    }
  }

  lemma SameViews(a: RoundInput, b: RoundInput)
    requires WellFormed(a) && WellFormed(b) && Reordered(a, b)
    ensures ByEdge(a.states) == ByEdge(b.states)
  {
    var va, vb := ByEdge(a.states), ByEdge(b.states);
    forall s ensures s in a.states <==> s in b.states {
      assert s in multiset(a.states) <==> s in multiset(b.states);
    }
    forall e ensures e in va <==> e in vb {}
    forall e | e in va ensures va[e] == vb[e] {
      var s :| s in a.states && s.owner == e;
      ViewOf(a.states, s);
      ViewOf(b.states, s);
    }
  }

  lemma IndexOf(participants: seq<EdgeId>, e: EdgeId) returns (i: nat)
    requires e in participants
    ensures i < |participants| && participants[i] == e
  {
    i :| i < |participants| && participants[i] == e;
  }

  // The evidence about one edge, wherever it stands in the lists.
  lemma SameEvidence(a: RoundInput, b: RoundInput, i: nat, j: nat)
    requires WellFormed(a) && WellFormed(b) && Reordered(a, b)
    requires i < |a.participants| && j < |b.participants| && a.participants[i] == b.participants[j]
    ensures i < |TrustOf(a).evidence| && j < |TrustOf(b).evidence|
    ensures SameFinding(TrustOf(a).evidence[i], TrustOf(b).evidence[j])
    ensures IsExcluded(a.participants, TrustOf(a).evidence[i]) <==> IsExcluded(b.participants, TrustOf(b).evidence[j])
  {
    WellFormedIsEvaluable(a);
    WellFormedIsEvaluable(b);
    hide EvidenceFor, Peers, TrustOf, SameFinding, IsExcluded;
    EvidenceOf(a, i);
    EvidenceOf(b, j);
    SameViews(a, b);
    EvidencePermute(a.round, a.participants, b.participants, ByEdge(a.states), a.participants[i]);
  }

  lemma ExclusionCarriesOver(a: RoundInput, b: RoundInput, x: Exclusion)
    requires WellFormed(a) && WellFormed(b) && Reordered(a, b) && x in TrustOf(a).exclusions
    ensures x in TrustOf(b).exclusions
  {
    WellFormedIsEvaluable(a);
    WellFormedIsEvaluable(b);
    hide TrustOf, IsExcluded, EvidenceFor, Peers, ExclusionsOf, WellFormed, Evaluable;
    TrustShape(a);
    TrustShape(b);
    var i := ExcludedIndex(a, x);
    EvidenceOf(a, i);
    assert x.edge in multiset(b.participants);
    var j := IndexOf(b.participants, x.edge);
    SameEvidence(a, b, i, j);
    ExclusionIff(b.participants, TrustOf(b).evidence, x);
  }

  lemma ExcludedIndex(a: RoundInput, x: Exclusion) returns (i: nat)
    requires Evaluable(a) && x in TrustOf(a).exclusions
    ensures i < |TrustOf(a).evidence| == |a.participants|
    ensures var ev := TrustOf(a).evidence[i];
            IsExcluded(a.participants, ev) && x == Exclusion(ev.round, ev.edge, ReasonFor(ev))
  {
    hide TrustOf, IsExcluded, EvidenceFor, Peers, ExclusionsOf;
    TrustShape(a);
    ExclusionIff(a.participants, TrustOf(a).evidence, x);
    var ev :| ev in TrustOf(a).evidence && IsExcluded(a.participants, ev)
           && x == Exclusion(ev.round, ev.edge, ReasonFor(ev));
    i :| 0 <= i < |TrustOf(a).evidence| && TrustOf(a).evidence[i] == ev;
  }

  lemma EntryCarriesOver(a: RoundInput, b: RoundInput, x: RankEntry)
    requires WellFormed(a) && WellFormed(b) && Reordered(a, b) && x in TrustOf(a).ranking.entries
    ensures x in TrustOf(b).ranking.entries
  {
    WellFormedIsEvaluable(a);
    WellFormedIsEvaluable(b);
    hide TrustOf, IsExcluded, EvidenceFor, Peers, ExclusionsOf, ByEdge, WellFormed, Evaluable, PeersUpTo;
    TrustShape(a);
    TrustShape(b);
    var entries := TrustOf(a).ranking.entries;
    var i :| 0 <= i < |entries| && entries[i] == x;
    EvidenceOf(a, i);
    assert x.edge in multiset(b.participants);
    var j := IndexOf(b.participants, x.edge);
    SameEvidence(a, b, i, j);
    assert TrustOf(b).ranking.entries[j] == x;
  }

  lemma SameSurvivors(a: RoundInput, b: RoundInput)
    requires WellFormed(a) && WellFormed(b) && Reordered(a, b)
    ensures multiset(SurvivorsOf(a)) == multiset(SurvivorsOf(b))
  {
    SurvivorsAre(a);
    SurvivorsAre(b);
    WellFormedIsEvaluable(a);
    WellFormedIsEvaluable(b);
    hide TrustOf, SurvivorsOf, Survives;
    forall e ensures e in SurvivorsOf(a) <==> e in SurvivorsOf(b) {
      SurvivingOwner(a, e);
      SurvivingOwner(b, e);
      assert e in multiset(a.participants) <==> e in multiset(b.participants);
      ExcludedCarriesOver(a, b, e);
      ExcludedCarriesOver(b, a, e);
    }
    SameElements(SurvivorsOf(a), SurvivorsOf(b));
  }

  lemma ExcludedCarriesOver(a: RoundInput, b: RoundInput, e: EdgeId)
    requires WellFormed(a) && WellFormed(b) && Reordered(a, b)
    ensures e in ExcludedEdges(TrustOf(a).exclusions) ==> e in ExcludedEdges(TrustOf(b).exclusions)
  {
    hide TrustOf;
    if e in ExcludedEdges(TrustOf(a).exclusions) {
      var x :| x in TrustOf(a).exclusions && x.edge == e;
      ExclusionCarriesOver(a, b, x);
    }
  }

  lemma SameAgreedState(views: Views, s: seq<EdgeId>, t: seq<EdgeId>)
    requires Known(views, s) && Known(views, t) && multiset(s) == multiset(t) && s != [] && t != []
    ensures MeanReading(ReadingsOf(views, s)) == MeanReading(ReadingsOf(views, t))
  {
    assert |s| == |multiset(s)| == |multiset(t)| == |t|;
    ReadingsPermute(views, s, t);
    var p, q := ReadingsOf(views, s), ReadingsOf(views, t);
    SumPermute(ValueOf(Temperature), p, q);
    SumPermute(ValueOf(Pressure), p, q);
    SumPermute(ValueOf(Rpm), p, q);
  }

  lemma OrderDoesNotMatter(a: RoundInput, b: RoundInput)
    requires WellFormed(a) && WellFormed(b) && Reordered(a, b)
    ensures PackageOf(a).status == PackageOf(b).status
    ensures PackageOf(a).validState.Some? ==>
      && PackageOf(b).validState.Some?
      && PackageOf(a).validState.value.values == PackageOf(b).validState.value.values
      && multiset(PackageOf(a).validState.value.sourceEdges) == multiset(PackageOf(b).validState.value.sourceEdges)
    ensures forall x :: x in PackageOf(a).exclusions <==> x in PackageOf(b).exclusions
    ensures forall x :: x in PackageOf(a).ranking.entries <==> x in PackageOf(b).ranking.entries
  {
    hide TrustOf, SurvivorsOf, Published, MeanReading;
    forall x ensures x in PackageOf(a).exclusions <==> x in PackageOf(b).exclusions {
      if x in PackageOf(a).exclusions { ExclusionCarriesOver(a, b, x); }
      if x in PackageOf(b).exclusions { ExclusionCarriesOver(b, a, x); }
    }
    forall x ensures x in PackageOf(a).ranking.entries <==> x in PackageOf(b).ranking.entries {
      if x in PackageOf(a).ranking.entries { EntryCarriesOver(a, b, x); }
      if x in PackageOf(b).ranking.entries { EntryCarriesOver(b, a, x); }
    }
    SameSurvivors(a, b);
    SameViews(a, b);
    EngineTotal(a);
    EngineTotal(b);
    SameCounts(a, b);
    if PackageOf(a).status == Success {
      SameAgreedState(ByEdge(a.states), SurvivorsOf(a), SurvivorsOf(b));
    }
  }

  lemma SameCounts(a: RoundInput, b: RoundInput)
    requires Reordered(a, b) && multiset(SurvivorsOf(a)) == multiset(SurvivorsOf(b))
    ensures |a.participants| == |b.participants| && |SurvivorsOf(a)| == |SurvivorsOf(b)|
  {
    assert |a.participants| == |multiset(a.participants)| == |multiset(b.participants)| == |b.participants|;
    assert |SurvivorsOf(a)| == |multiset(SurvivorsOf(a))| == |multiset(SurvivorsOf(b))| == |SurvivorsOf(b)|;
  }
}
