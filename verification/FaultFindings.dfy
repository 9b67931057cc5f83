// What fault injection does to each state of a round, read off the configured edges.
module FaultFindings {
  import opened Rounding
  import opened Readings
  import opened TrustModel
  import opened Engine
  import opened FaultInjection

  // The edges of a list that participate, in its order and as often as they are listed.
  ghost function Participating(edges: seq<EdgeId>, participants: seq<EdgeId>): seq<EdgeId> {
    if edges == [] then []
    else if edges[0] in participants then [edges[0]] + Participating(edges[1..], participants)
    else Participating(edges[1..], participants)
  }

  lemma {:induction false} ParticipatingSnoc(edges: seq<EdgeId>, e: EdgeId, participants: seq<EdgeId>)
    ensures Participating(edges + [e], participants)
         == Participating(edges, participants) + if e in participants then [e] else []
  {
    if edges == [] {
      assert [e][1..] == [];
      assert Participating([], participants) == [];
    } else {
      ParticipatingSnoc(edges[1..], e, participants);
      assert (edges + [e])[1..] == edges[1..] + [e];
    }
  }

  lemma {:induction false} KeepIsParticipating(edges: seq<EdgeId>, participants: seq<EdgeId>)
    ensures Keep(edges, participants) == Participating(edges, participants)
  {
    if edges != [] {
      var n := |edges| - 1;
      KeepIsParticipating(edges[..n], participants);
      ParticipatingSnoc(edges[..n], edges[n], participants);
      assert edges == edges[..n] + [edges[n]];
    }
  }

  // The configured edges, or those of the named scenario.
  ghost function Targets(config: FaultConfig): seq<EdgeId> {
    if config.faultyEdges != [] then config.faultyEdges
    else if config.mode == SingleEdgeExclusion then ["edge-3"]
    else if config.mode == QuorumLoss then ["edge-2", "edge-3"]
    else []
  }

  ghost predicate IsLast(edges: seq<EdgeId>, e: EdgeId, k: int) {
    0 <= k < |edges| && edges[k] == e && forall j :: k < j < |edges| ==> edges[j] != e
  }

  lemma {:induction false} OffsetIsOfLast(faulty: seq<EdgeId>, e: EdgeId)
    ensures e in OffsetsByEdge(faulty) <==> e in faulty
    ensures e in faulty ==>
              exists k :: IsLast(faulty, e, k) && OffsetsByEdge(faulty)[e] == if k % 2 == 0 then EVEN_OFFSET else ODD_OFFSET
  {
    if faulty != [] {
      var n := |faulty| - 1;
      OffsetIsOfLast(faulty[..n], e);
      assert faulty == faulty[..n] + [faulty[n]];
      if faulty[n] == e {
        assert IsLast(faulty, e, n);
      } else if e in faulty {
        var k :| IsLast(faulty[..n], e, k) && OffsetsByEdge(faulty[..n])[e] == if k % 2 == 0 then EVEN_OFFSET else ODD_OFFSET;
        assert IsLast(faulty, e, k);
      }
    }
  }

  // A state moved up by 40, 3.4 and 1490, or down by 60, 5 and 2300, and published; nothing else of it changes.
  ghost predicate IsShifted(s: ReplicatedState, t: ReplicatedState, up: bool) {
    && t.round == s.round && t.owner == s.owner
    && IsPublished(t.reading.temperature, s.reading.temperature + if up then 40.0 else -60.0)
    && IsPublished(t.reading.pressure, s.reading.pressure + if up then 3.4 else -5.0)
    && IsPublished(t.reading.rpm, s.reading.rpm + if up then 1490.0 else -2300.0)
  }

  lemma ShiftSays(s: ReplicatedState, offset: Reading)
    requires offset == EVEN_OFFSET || offset == ODD_OFFSET
    ensures IsShifted(s, s.(reading := Shift(s.reading, offset)), offset == EVEN_OFFSET)
  {
    Round3IsPublished(s.reading.temperature + offset.temperature);
    Round3IsPublished(s.reading.pressure + offset.pressure);
    Round3IsPublished(s.reading.rpm + offset.rpm);
    hide Round3, IsPublished;
  }

  // Every state of a participating target is shifted, up or down as the target's last place among them is even or odd,
  // and every other state, and the rest of the round, is left alone.
  lemma InjectionSays(input: RoundInput, config: FaultConfig, i: nat)
    requires i < |input.states|
    ensures var out := Injected(input, config);
            && out.round == input.round && out.participants == input.participants && |out.states| == |input.states|
            && var faulty, s := Participating(Targets(config), input.participants), input.states[i];
               if config.mode == NoFault || s.owner !in faulty then out.states[i] == s
               else exists k :: IsLast(faulty, s.owner, k) && IsShifted(s, out.states[i], k % 2 == 0)
  {
    var faulty, s := Participating(Targets(config), input.participants), input.states[i];
    KeepIsParticipating(Targets(config), input.participants);
    hide Keep, Participating, Shift, IsShifted;
    assert ResolveFaultyEdges(config, input.participants) == faulty;
    OffsetIsOfLast(faulty, s.owner);
    if config.mode != NoFault && s.owner in faulty {
      ShiftSays(s, OffsetsByEdge(faulty)[s.owner]);
    }
  }
}
