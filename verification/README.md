# Verification of the parallel-truth fingerprint core

This project models, in Dafny, the parts of the repository on which its safety claims rest, and proves
properties of them for all inputs, all interleavings and all runs.

* **Trust and consensus** (`Readings`, `TrustModel`, `TrustGeometry`, `TrustProperties`, `TrustFindings`, `Engine`,
  `EngineProperties`, `EngineVerdicts`, `EngineOrder`, `StateOrder`, `FaultInjection`, `FaultFindings`,
  `MinorityFaults`, `ScatteredFaults`). Every edge reports a temperature, a pressure and a rotation speed. Two views
  are compatible when their scaled distance is at most 0.35; an edge survives when it and its compatible peers are a
  strict majority; the agreed state is the published mean of the survivors. The loops of the trust model and of the
  engine are methods proved equal to functions of their inputs. On those functions the geometry is proved:
  majorities intersect, the distance is a metric, means are convex, and therefore a faulty minority moves the agreed
  state by less than 0.175 beyond the spread of the honest views. Faults that the demo injects into any minority of
  agreeing edges are excluded exactly and called Byzantine, and it is proved for every list of injected edges,
  repeats included, when the round succeeds and who is excluded.
* **Operator controller and runtime loop** (`ControllerState`, `OperatorController`, `RuntimeProtocol`,
  `RuntimeSafety`, `RuntimeStart`, `SlicedSleep`, `RuntimeLoop`, `RuntimeRefinement`). The controller is a class
  whose methods are proved to make exactly the transitions of `ControllerState`; the same transitions, interleaved
  with a runtime thread given by a program counter, form a state machine whose invariant is proved over every run.
  The loop is a method over a shared, growing history object, and the steps of a thread, picked out of any
  interleaving, are proved to be one run of that loop.
* **SCADA gate** (`ScadaGate`, `ScadaGateProperties`, `ScadaVerdicts`). Comparison, persistence and fingerprinting
  fail closed.
* **Consensus.v2 reference** (`DecisionContract`, `ContractVerdicts`, `ReferenceEvaluator`, `ReferenceVerdicts`,
  `ReferenceAcceptance`, `ReferenceProperties`, `ReferenceExamples`, `ReferenceOrder`). The evaluator builds a
  decision record which its own contract then checks. The two disagree about the order of the ranking, and the exact
  condition under which the record is accepted is proved, together with a round that is refused.
* **Record identity** (`Texts`, `CanonicalJson`, `CanonicalReader`, `RecordIdentity`, `RecordContracts`,
  `RecordFields`, `DecisionIdentity`). Texts are sequences of Python code points, lone surrogates included. Freezing
  and thawing give every accepted record back, a reader of JSON (sections 2 to 7 of RFC 8259) reads the canonical
  text back, the text is injective on code units, and what a content id identifies follows.
* **Write-once publication and the authority chain** (`Publication`, `AuthorityDocuments`, `AuthorityStore`,
  `AuthorityVerdicts`, `AuthorityChain`, `AuthorityCompleteness`, `AuthorityOrigin`, `AuthorityProtocol`). Concurrent
  create-if-absent over names and inodes, when each of the four commands publishes and what, what a frozen
  configuration proves about the approval, the test lock and the truth lock behind it, that the commands do reach
  one, and exactly when it must be the configuration that was authorized. The commands are followed both publication
  by publication and step by step through the publication protocol, crashes included.
* **Evidence assessors** (`Assessments`, `CausalIndependence`, `CausalVerdicts`, `Qualification`,
  `QualificationVerdicts`). "Accepted exactly when", and which diagnostic otherwise.

The modules named `...Findings` and `...Verdicts`, `CanonicalReader` and `RecordFields` say what each operation answers
in terms of its arguments, field by field and code by code.

`Wrappers`, `Rounding`, `Sums`, `Lists` and `SortedIds` are shared helpers. A number published by the program is
modelled with `Rounding.Round3`, to the nearest thousandth and half to even.

Where code and intention part, the code is kept:

* the decision contract demands that the ranking be in id order although the evaluator ranks by residual, so an
  accepted ranking always repeats the included ids (`DecisionContract.AcceptedRankingIsIncluded`);
* a fifth causal case need not make the matrix incomplete (`CausalIndependence.UnknownFifthCaseBlocks`);
* the disposition of a candidate that is not qualified can depend on the order of its parity fixtures
  (`Qualification.VerdictDependsOnFixtureOrder`), and `Qualification.OrderIsIrrelevantExactlyWhen` says when;
* two different accepted decisions can have one content id without any collision of the hash, because a pair of lone
  surrogates and the character it would encode print alike (`DecisionIdentity.DifferentDecisionsShareAnId`);
  `DecisionIdentity.ContentIdIdentifies` says which decisions those are;
* `verify`, `lock-truth` and `finalize` ask that a config name a catalog holding the decision, not that `authorize`
  wrote the config or that the catalog has the hash it records, so a config nobody approved can be frozen
  (`AuthorityOrigin.UnapprovedConfigFreezes`); `AuthorityOrigin.OnlyAuthorizedFreezeExactlyWhen` says when only
  authorized ones can;
* a failed round whose participants repeat can report another reason than the missing quorum
  (`EngineProperties.RepeatedPairFails`), and `EngineProperties.FailedRoundReason` says from the views when;
* of two projections of one edge the later one hides the earlier, so the diagnostics of a blocked evaluation can
  depend on their order (`ReferenceOrder.OrderCanDecide`); `ReferenceOrder.OrderIsIrrelevantExactlyWhen` says when
  they do not;
* injected edges can carry the round when they are shifted the same way: all of an odd number
  (`ScatteredFaults.AllInjectedCanSucceed`), or two of three when the configured list repeats one, and then the one
  sound edge is excluded (`ScatteredFaults.RepeatedFaultCarries`); `ScatteredFaults.InjectionSucceedsExactlyWhen`
  covers every list;
* when an owner has several states, the later one is its view although all of them are averaged, so the order of the
  states can decide the round (`StateOrder.OrderCanDecide`); `StateOrder.OrderIsIrrelevantExactlyWhen` says when
  not;
* a start that finds a thread alive but leaving, told to stop or held by the limit is only logged, and nothing runs
  on (`RuntimeStart.LateStartIsLost`); `RuntimeStart.StartIsLostExactlyWhen` names the positions;
* a stop that arrives when the runtime thread has already reported itself stopped leaves the status at "stopping"
  (`RuntimeSafety.LateStopLeavesStopping`), and a failed import of the runtime module leaves it at "starting"
  (`RuntimeSafety.FailedImportLeavesStarting`).

## Model

| member | source | states |
|---|---|---|
| Rounding.Round3IsNearest | src/parallel_truth_fingerprint/consensus/engine.py:81 | no thousandth is nearer to a number than its published form, and the error is at most half a thousandth |
| Rounding.Round3Monotone | src/parallel_truth_fingerprint/consensus/trust_model.py:114-119 | publishing keeps the order of numbers |
| Rounding.Round3IsPublished | src/parallel_truth_fingerprint/consensus/engine.py:81 | the published form is a nearest thousandth, of two equally near ones the even one |
| Rounding.PublishedOnce | src/parallel_truth_fingerprint/consensus/engine.py:81 | a number has one such form, so "published" below fixes a value |
| Readings.DistanceIsMetric | src/parallel_truth_fingerprint/consensus/trust_model.py:26-49 | the scaled distance is symmetric, is zero for equal views alone, and obeys the triangle inequality |
| Readings.DistanceToMean | src/parallel_truth_fingerprint/consensus/engine.py:76-81 | a view is no further from the mean of a list of views than it is from them on average |
| Readings.SumOfDistances | src/parallel_truth_fingerprint/consensus/trust_model.py:84-118 | exchange of the double sum: summed pairwise distances are the blend of the summed sensor gaps |
| Sums.SumPermute | src/parallel_truth_fingerprint/consensus/trust_model.py:100-118 | a sum over the edges does not depend on their order |
| TrustModel.NormalizedPairDistance | src/parallel_truth_fingerprint/consensus/trust_model.py:39-49 | the loop over the sensors computes the metric |
| TrustModel.MeasureSensor | src/parallel_truth_fingerprint/consensus/trust_model.py:84-107 | the inner loop lists one published gap per peer, in peer order, and returns their unrounded mean |
| TrustModel.CompareWithPeers | src/parallel_truth_fingerprint/consensus/trust_model.py:109-118 | counts the peers within the threshold and averages the distances to all of them |
| TrustModel.EvaluateEdge | src/parallel_truth_fingerprint/consensus/trust_model.py:77-131 | the evidence recorded for one edge: score, compatible peers, deviation, per-sensor deviations and pair distances |
| TrustModel.EvaluateTrust | src/parallel_truth_fingerprint/consensus/trust_model.py:52-163 | ranking, exclusions and evidence for every list of states, and which error a missing state or a lone participant raises |
| TrustGeometry.NeighbourhoodSize | src/parallel_truth_fingerprint/consensus/trust_model.py:109-113 | compatible peers plus one is the size of the closed neighbourhood |
| TrustGeometry.ExcludedIffNotSurviving | src/parallel_truth_fingerprint/consensus/trust_model.py:133 | the counting rule excludes an edge exactly when its closed neighbourhood is not a strict majority |
| TrustGeometry.MajorityIntersection | src/parallel_truth_fingerprint/consensus/trust_model.py:109-133 | two surviving edges share a neighbour and are within 0.70 of each other |
| TrustGeometry.HonestEdgesSurvive | src/parallel_truth_fingerprint/consensus/trust_model.py:109-133 | an honest majority within delta of each other survives whatever the others report |
| TrustGeometry.SurvivorsAreNearHonest | src/parallel_truth_fingerprint/consensus/trust_model.py:109-133 | every survivor, faulty or not, is within 0.35 of some honest edge |
| TrustGeometry.FaultyMinority | src/parallel_truth_fingerprint/consensus/engine.py:31-42 | faulty survivors are a strict minority of the survivors |
| TrustGeometry.InfluenceBound | src/parallel_truth_fingerprint/consensus/engine.py:31-81 | with f faulty among k survivors the mean is within delta plus 0.35 f/k of every honest view, hence within delta plus 0.175 |
| TrustGeometry.AgreedStateNearSurvivors | src/parallel_truth_fingerprint/consensus/engine.py:75-81 | with nobody assumed honest, the mean is within 0.70 (k-1)/k of each of the k survivors |
| TrustProperties.OneSensorTolerance | src/parallel_truth_fingerprint/consensus/trust_model.py:26-31 | the thresholds in sensor units: 21 degrees, 3.15 bar or 630 rpm in a single sensor |
| TrustProperties.EvidenceExplainsDeviation | src/parallel_truth_fingerprint/consensus/trust_model.py:100-131 | before rounding the peer-averaged distance is the blend of the mean sensor gaps, and the published figures agree up to a fixed error |
| TrustProperties.PairDistanceAt | src/parallel_truth_fingerprint/consensus/trust_model.py:84-98 | which sensor and which peer each entry of the pair distances belongs to |
| TrustProperties.ScoreAntitone | src/parallel_truth_fingerprint/consensus/trust_model.py:114-119 | scores lie in [0,1] and fall as the deviation rises, through both roundings |
| TrustProperties.EvidencePermute | src/parallel_truth_fingerprint/consensus/trust_model.py:77-131 | listing the participants in another order changes no finding and no exclusion |
| TrustFindings.ViewIsTheLast | src/parallel_truth_fingerprint/consensus/trust_model.py:64 | the view of an edge is the last of its states |
| TrustFindings.FindingScore | src/parallel_truth_fingerprint/consensus/trust_model.py:114-120 | each participant is ranked, in its place, with the published form of 1 / (1 + deviation), and the deviation is the published average distance to its peers |
| TrustFindings.FindingCount | src/parallel_truth_fingerprint/consensus/trust_model.py:109-113 | the compatible peers are the places of other edges at distance 0.35 or less |
| TrustFindings.FindingSensors | src/parallel_truth_fingerprint/consensus/trust_model.py:84-107 | the three sensor deviations are the published mean gaps, in sensor order |
| TrustFindings.FindingPairs | src/parallel_truth_fingerprint/consensus/trust_model.py:84-98 | each pair distance is the published gap to that peer in that sensor |
| TrustFindings.FindingExclusions | src/parallel_truth_fingerprint/consensus/trust_model.py:133-156 | an exclusion is there exactly for a finding without a strict majority, called Byzantine exactly from a deviation of 0.75 on |
| Engine.RequiredQuorum | src/parallel_truth_fingerprint/consensus/quorum.py:4-9 | the least strict majority, and an error for no participants |
| Engine.AverageSensor | src/parallel_truth_fingerprint/consensus/engine.py:75-81 | one published sensor mean |
| Engine.BuildConsensusedValidState | src/parallel_truth_fingerprint/consensus/engine.py:67-87 | the filled dictionary is the published mean of the survivors, with their edges as sources |
| Engine.Evaluate | src/parallel_truth_fingerprint/consensus/engine.py:24-65 | survivors, quorum test, averaged state and the assembled package, or the first error raised on the way |
| EngineVerdicts.PackageSays | src/parallel_truth_fingerprint/consensus/engine.py:24-87 | success exactly when more than half as many states are kept as edges participate; sources, published sensor means, and one status, ranking and exclusion list in package and result |
| EngineVerdicts.KeptOfOneMore | src/parallel_truth_fingerprint/consensus/engine.py:31-36 | which states are kept, one more at a time: those whose owner no exclusion names |
| EngineVerdicts.SummarySays | src/parallel_truth_fingerprint/consensus/summary.py:17-53 | every field of the summary of any package, and when its reason is the missing quorum |
| EngineProperties.ExcludedIff | src/parallel_truth_fingerprint/consensus/engine.py:31-36 | on a well-formed round the excluded edges are those without a majority neighbourhood |
| EngineProperties.SurvivorsAre | src/parallel_truth_fingerprint/consensus/engine.py:31-36 | the kept states are those of the surviving participants, each once, as they see themselves |
| EngineProperties.EngineTotal | src/parallel_truth_fingerprint/contracts/consensus_audit_package.py:30-55 | no constructor raises; success, survivors at least quorum, and a present valid state are one thing |
| EngineProperties.EngineRaises | src/parallel_truth_fingerprint/contracts/consensus_result.py:27-51 | which inputs raise and how: a participant without a state, fewer than two distinct participants, none at all |
| EngineProperties.SummaryCountsParticipants | src/parallel_truth_fingerprint/consensus/summary.py:27-43 | total minus exclusions counts the distinct surviving owners |
| EngineProperties.CountsAgreeIff | src/parallel_truth_fingerprint/consensus/summary.py:43 | the summary's count equals the engine's exactly when no surviving participant owns two states |
| EngineProperties.FailedRoundsReportNoQuorum | scripts/run_local_demo.py:395-402 | a failed round of distinct participants always resolves to the no-quorum reason |
| EngineProperties.ExcludedAreIsolated | src/parallel_truth_fingerprint/consensus/trust_model.py:109-138 | whoever repeats, the excluded edges are those whose view agrees with too few of their peers |
| EngineProperties.FailedRoundReason | scripts/run_local_demo.py:395-402 | from the views alone, repeated participants included: the round fails when the states of participants who are not isolated are no majority, and then the reason is the missing quorum exactly when their places are none |
| EngineProperties.RepeatedPairFails | scripts/run_local_demo.py:395-402 | two participants named twice, one equal view each: a failed round with another reason |
| EngineProperties.ThreeEdges | src/parallel_truth_fingerprint/consensus/engine.py:38-47 | three edges fail exactly when all three are excluded |
| EngineProperties.ByzantineInfluence | src/parallel_truth_fingerprint/consensus/engine.py:24-87 | the influence bound on the published record, for every number of edges: success, all honest edges kept, faulty sources a minority, published state near every honest view |
| EngineProperties.PublishedInHull | src/parallel_truth_fingerprint/consensus/engine.py:75-87 | each published value lies in the rounded range of the surviving views |
| EngineProperties.PublishedNearSources | src/parallel_truth_fingerprint/consensus/engine.py:75-87 | sources are within 0.70 of each other and the published state within 0.70 (k-1)/k of each, up to rounding |
| EngineOrder.OrderDoesNotMatter | src/parallel_truth_fingerprint/consensus/engine.py:24-65 | permuting participants and states changes neither status nor agreed values, nor who is excluded or how scored |
| StateOrder.VerdictsAgreeExactlyWhen | src/parallel_truth_fingerprint/consensus/engine.py:24-87 | for any rounds that can be evaluated, owners and participants repeated or not: two orders give one status, exclusions, survivors and agreed values exactly when they isolate the same edges |
| StateOrder.OrderIsIrrelevantExactlyWhen | src/parallel_truth_fingerprint/consensus/engine.py:24-87 | all orders give one verdict exactly when every choice of one reading for each owner isolates the same edges |
| StateOrder.OrderCanDecide | src/parallel_truth_fingerprint/consensus/trust_model.py:60-66 | an edge with a near and a far state: one order fails the round, the other succeeds |
| FaultInjection.InjectFaults | scripts/run_local_demo.py:138-180 | the loops shift exactly the states of the resolved faulty edges, alternately up and down |
| FaultFindings.InjectionSays | scripts/run_local_demo.py:121-180 | a state of a participating target is published 40, 3.4 and 1490 higher or 60, 5 and 2300 lower as the target's last place is even or odd; every other state and the rest of the round stay |
| FaultInjection.SingleFaultIsContained | scripts/run_local_demo.py:121-180 | one injected edge among three or more agreeing ones is the only exclusion, called Byzantine, and the round succeeds |
| FaultInjection.DefaultSingleEdgeExclusion | scripts/run_local_demo.py:121-135 | the default single-edge scenario does this to edge-3 |
| FaultInjection.LoneOutlier | src/parallel_truth_fingerprint/consensus/trust_model.py:133-138 | any far outlier among agreeing edges, however it arose, is the only exclusion |
| FaultInjection.AllIsolatedFails | scripts/run_local_demo.py:395-402 | when no two edges agree everyone is excluded and the reason is the missing quorum |
| FaultInjection.QuorumLossFails | scripts/run_local_demo.py:121-180 | the default quorum loss on three agreeing edges excludes all three and reports no quorum |
| MinorityFaults.MinorityIsContained | src/parallel_truth_fingerprint/consensus/trust_model.py:133-138 | for every number of edges: a minority far off an agreeing majority is what is excluded, each edge once and as Byzantine, and the round succeeds |
| MinorityFaults.InjectedMinorityIsContained | scripts/run_local_demo.py:121-180 | whatever the scenario, faults injected into any minority of agreeing edges exclude exactly those edges, as Byzantine, and the round succeeds |
| ScatteredFaults.NoMajoritySideFails | scripts/run_local_demo.py:121-180 | when neither the untouched edges nor those shifted up nor those shifted down are a majority, everyone is excluded and the reason is the missing quorum |
| ScatteredFaults.InjectionSucceedsExactlyWhen | scripts/run_local_demo.py:121-180 | for every list of injected edges, repeats included: the excluded edges are those that agree with no majority on their side, and the round succeeds exactly when some side has a majority of edges that do |
| ScatteredFaults.DistinctInjectionFailsExactlyWhen | scripts/run_local_demo.py:121-180 | its corollary for lists without repeats, by the counts f and n alone: failure exactly when f is half of n or more, unless all of an odd number are named and those shifted up still agree |
| ScatteredFaults.EqualViewsSucceedExactlyWhen | scripts/run_local_demo.py:121-180 | its corollary for equal views: success exactly when some side is a majority |
| ScatteredFaults.AllInjectedCanSucceed | scripts/run_local_demo.py:138-180 | all of an odd number of equal views injected: the round succeeds |
| ScatteredFaults.RepeatedFaultCarries | scripts/run_local_demo.py:138-180 | three equal views and a list naming two of them, one twice: the round succeeds on the shifted views and excludes the sound edge |
| ControllerState.ClampStaysInRange | src/parallel_truth_fingerprint/dashboard/control_surface.py:557-561 | levels below 0 and above 100 become these, and a level between is published |
| ControllerState.AppendKeepsLast | src/parallel_truth_fingerprint/dashboard/control_surface.py:96 | appending to the bounded deque keeps exactly the last 32 of all actions ever issued |
| ControllerState.AtTheStart | src/parallel_truth_fingerprint/dashboard/control_surface.py:82-106 | each field of a new controller |
| ControllerState.StartDoes | src/parallel_truth_fingerprint/dashboard/control_surface.py:108-149 | each field after a start, of a live runtime and of none |
| ControllerState.StopDoes | src/parallel_truth_fingerprint/dashboard/control_surface.py:151-176 | each field after a stop, whichever way the two looks at the thread come out |
| ControllerState.SetScenarioDoes | src/parallel_truth_fingerprint/dashboard/control_surface.py:178-220 | one of the six names is the configured scenario afterwards, from the recorded cycle on and at the same power, and is logged; any other name changes nothing |
| ControllerState.SetPowerDoes | src/parallel_truth_fingerprint/dashboard/control_surface.py:222-251 | the clamped level is the power afterwards, scenario and start cycle stay, and the action is logged |
| ControllerState.RecordDoes | src/parallel_truth_fingerprint/dashboard/control_surface.py:414-422 | which status a payload shows, by its own and by the one shown before |
| ControllerState.FailureDoes | src/parallel_truth_fingerprint/dashboard/control_surface.py:394-407 | each field after a runtime error |
| ControllerState.EndDoes | src/parallel_truth_fingerprint/dashboard/control_surface.py:408-412 | the last block of the thread clears the stop request, shows the runtime stopped, and changes nothing else |
| OperatorController.Controller.constructor | src/parallel_truth_fingerprint/dashboard/control_surface.py:82-106 | the initial state: stopped, no thread, clamped power, start cycle at least 1 |
| OperatorController.Controller.StartRuntime | src/parallel_truth_fingerprint/dashboard/control_surface.py:108-149 | a live thread is kept and only logged; otherwise a fresh thread, stop cleared, payload forgotten |
| OperatorController.Controller.StopRuntime | src/parallel_truth_fingerprint/dashboard/control_surface.py:151-176 | the stop request and the status shown, also when the thread exits between the two looks at it |
| OperatorController.Controller.SetScenario | src/parallel_truth_fingerprint/dashboard/control_surface.py:178-220 | a supported name is the configured scenario afterwards, from the recorded cycle on, with power unchanged; an unsupported one changes nothing |
| OperatorController.Controller.SetPower | src/parallel_truth_fingerprint/dashboard/control_surface.py:222-251 | the clamped level is the configured power afterwards, and the rest of the configuration stays |
| OperatorController.Controller.RecordRuntimePayload | src/parallel_truth_fingerprint/dashboard/control_surface.py:414-422 | an active payload shows running; any other leaves "stopping" alone and otherwise shows stopped |
| OperatorController.Controller.FailRuntime | src/parallel_truth_fingerprint/dashboard/control_surface.py:394-407 | a runtime error is shown, logged and leaves the status stopped |
| OperatorController.Controller.FinishRuntime | src/parallel_truth_fingerprint/dashboard/control_surface.py:408-412 | the final status write |
| RuntimeSafety.RunInv | src/parallel_truth_fingerprint/dashboard/control_surface.py:108-251 | the invariant of status, counters, thread positions, power and log holds along every run of commands and thread steps |
| RuntimeSafety.AtMostOneThread | src/parallel_truth_fingerprint/dashboard/control_surface.py:111-148 | in every reachable state at most one thread is alive, the one the controller holds |
| RuntimeSafety.LoopIsShownActive | src/parallel_truth_fingerprint/dashboard/control_surface.py:414-422 | while the thread loops the status is starting, running or stopping, and the last published cycle lags the counter by at most one |
| RuntimeSafety.NoThreadIsShownStopped | src/parallel_truth_fingerprint/dashboard/control_surface.py:376-412 | the exact status with no live thread, over every run: stopped, except stopping after a stop that found the thread past its final status write, and starting or stopping after a failed import until a stop finds the thread dead |
| RuntimeSafety.LateStopLeavesStopping | src/parallel_truth_fingerprint/dashboard/control_surface.py:151-176 | a run that ends with no live thread and the status "stopping" |
| RuntimeSafety.FailedImportLeavesStarting | src/parallel_truth_fingerprint/dashboard/control_surface.py:376-378 | a run that ends with no live thread and the status "starting" |
| RuntimeSafety.PowerAndLogStayBounded | src/parallel_truth_fingerprint/dashboard/control_surface.py:222-251 | power stays in [0,100] and the log is the last 32 actions, over every run |
| RuntimeSafety.StopIsHonoured | src/parallel_truth_fingerprint/dashboard/control_surface.py:151-176 | a stop issued in the loop stays set until that thread has left it, and no cycle beyond the committed one begins |
| RuntimeSafety.StopEndsThread | src/parallel_truth_fingerprint/dashboard/control_surface.py:151-176 | after a stop in the loop the thread takes at most eleven more steps of its own, whatever raises or is commanded meanwhile, and it is gone exactly when it can take no more |
| RuntimeStart.StartIsLostExactlyWhen | src/parallel_truth_fingerprint/dashboard/control_surface.py:108-149 | in every reachable state: a start makes no thread and no cycle begins beyond the committed one exactly when a thread is alive that is past the loop, or has a stop pending, or is held by the limit |
| RuntimeStart.LateStartIsLost | src/parallel_truth_fingerprint/dashboard/control_surface.py:108-149 | a run whose last command is a start and that ends with nothing alive and the status "stopped" |
| RuntimeSafety.RecordedCycle | src/parallel_truth_fingerprint/dashboard/control_surface.py:481-484 | the cycle recorded with a command is the next one to take a configuration, or the one before |
| RuntimeSafety.CommandIsSeen | src/parallel_truth_fingerprint/dashboard/control_surface.py:178-251 | a command recorded for cycle a is in the configuration taken for cycle a or a+1, unless another command came between: the scenario named, from cycle a at the power there was, or the clamped level at the scenario there was |
| SlicedSleep.CoverIsUnique | scripts/run_local_demo.py:517-537 | the number of slices is determined: the total divided by the interval, rounded up |
| SlicedSleep.SleepUntilNextCycle | scripts/run_local_demo.py:517-537 | exactly that many full slices summing to the total when no stop is seen, and none after the first look that sees one |
| RuntimeLoop.TakeTurn | scripts/run_local_demo.py:1331-1460 | one time round the loop: what it publishes, appends and decides |
| RuntimeLoop.RunAutonomousDemoLoop | scripts/run_local_demo.py:1309-1460 | the loop equals its specification, and every payload ever published counts a prefix of the shared list that later appends leave alone |
| RuntimeLoop.RunTurnsInv | scripts/run_local_demo.py:1331-1425 | cycles are 1, 2, ... in order, each begun within the limit configured then, each published, and a final payload counts them all |
| RuntimeLoop.UndisturbedRun | scripts/run_local_demo.py:1344-1353 | a constant positive limit and no disturbance give exactly that many cycles and then "completed" |
| RuntimeLoop.RunStops | scripts/run_local_demo.py:1333-1353 | nothing after the return is looked at |
| RuntimeLoop.RunSays | scripts/run_local_demo.py:1331-1460 | for every script: each turn before the first that stops, is interrupted, raises or meets the limit makes one cycle and one active report; that turn ends the run with the status, counts and configuration of its cause |
| RuntimeRefinement.PublishedIsRecorded | src/parallel_truth_fingerprint/dashboard/control_surface.py:414-422 | what the thread publishes with a step is the payload the controller then holds |
| RuntimeRefinement.ThreadRunsTheLoop | scripts/run_local_demo.py:1309-1460 | in every interleaving the steps of a thread are the turns of one run of the loop: same cycle, same length of history, same reports, each turn with the limit, power, scenario and scenario start taken for it |
| ScadaGate.CompareConsensusedToScada | src/parallel_truth_fingerprint/comparison/service.py:42-98 | three comparisons in sensor order, or the error for a missing state, an agreed state lacking a sensor, or a supervisory state lacking one |
| ScadaGate.BuildScadaComparisonOutput | src/parallel_truth_fingerprint/comparison/outputs.py:17-47 | the outputs classify each comparison, in order |
| ScadaVerdicts.RowsAre | src/parallel_truth_fingerprint/comparison/service.py:72-92 | in sensor order: the published agreed value, the published supervisory value, their absolute difference, the tolerance 2, 0.35 or 120, and within exactly when the difference is at most that |
| ScadaVerdicts.DivergencesOfThree | src/parallel_truth_fingerprint/comparison/outputs.py:50-68 | the divergent outputs are those of the three classified so, in their places |
| ScadaGateProperties.VerdictIsSharp | src/parallel_truth_fingerprint/comparison/service.py:68-84 | rounding changes a verdict only within a thousandth of the tolerance |
| ScadaGateProperties.NoDivergenceIff | src/parallel_truth_fingerprint/comparison/outputs.py:50-68 | nothing diverges exactly when all three rounded differences are within tolerance |
| ScadaGateProperties.GateRaises | scripts/run_local_demo.py:426-432 | the gate raises exactly for an agreed state naming no edge of the round, a projection that raises, or an agreed or supervisory state lacking a sensor, and which of these it is |
| ScadaVerdicts.SourceIsFirst | scripts/run_local_demo.py:426-432 | the source is the first state of the round that belongs to a source edge |
| ScadaVerdicts.GateWithState | scripts/run_local_demo.py:711-876 | both stages, the output, the alert and whether a write was attempted, for a package with an agreed state: as all three sensors match or not, and as the store answers |
| ScadaVerdicts.GateWithoutState | scripts/run_local_demo.py:711-876 | both stages are blocked for the same reason, given by status and counts, and nothing else is produced |
| ScadaVerdicts.PersistSays | src/parallel_truth_fingerprint/persistence/service.py:43-60 | an artifact is written exactly for a successful package with a state of the same round and a store that takes it; what is refused and what raises |
| ScadaGateProperties.PersistenceGate | scripts/run_local_demo.py:711-876 | persistence is attempted exactly when consensus succeeded and nothing diverges, and then only the store can make it fail |
| ScadaGateProperties.AlertGate | src/parallel_truth_fingerprint/comparison/outputs.py:50-68 | the alert exists exactly when the comparison stage blocks downstream, and names the divergent sensors alone |
| ScadaGateProperties.LifecycleGate | scripts/run_local_demo.py:1029-1108 | the lifecycle runs exactly after a confirmed write with the autoencoder enabled, and a blocked cycle names the first closed gate: consensus, divergence, or the message of the store unless that is empty |
| ScadaGateProperties.EnginePackagesPass | scripts/run_local_demo.py:426-479 | packages of the engine never fail the source lookup nor lack a sensor, and a failed round is blocked as a missing quorum all the way down |
| SortedIds.SortIncreasing | src/parallel_truth_fingerprint/consensus_v2/reference_evaluator.py:116 | sorting distinct ids by a number and then by themselves gives a strictly increasing list |
| SortedIds.IncreasingIsUnique | src/parallel_truth_fingerprint/consensus_v2/reference_evaluator.py:109-116 | a set of ids has one strictly increasing listing |
| SortedIds.StrLessMeans | src/parallel_truth_fingerprint/consensus_v2/reference_evaluator.py:109 | one id is before another when, at the first place where they differ, it has ended or has the smaller character |
| DecisionContract.OrderedIdsIncrease | src/parallel_truth_fingerprint/contracts/consensus_v2.py:63-67 | the sort-and-compare test accepts exactly the strictly increasing lists of immutable ids |
| DecisionContract.CheckExcludedRows | src/parallel_truth_fingerprint/contracts/consensus_v2.py:158-161 | the loop stops at the first complaint and otherwise collects every excluded edge in order |
| DecisionContract.AcceptedRankingIsIncluded | src/parallel_truth_fingerprint/contracts/consensus_v2.py:155-168 | in any accepted decision the ranking is the list of included ids again |
| ContractVerdicts.ImmutableIdIs | src/parallel_truth_fingerprint/contracts/consensus_v2.py:20 | an immutable id is "sha256:" before 64 hexadecimal digits in lower case |
| ContractVerdicts.BasisReports | src/parallel_truth_fingerprint/contracts/consensus_v2.py:70-84 | a basis passes exactly when it violates nothing, and is otherwise refused for the first violation in the order of the checks |
| ContractVerdicts.RowReports | src/parallel_truth_fingerprint/contracts/consensus_v2.py:87-93 | the same of an observation row |
| ContractVerdicts.RowsReport | src/parallel_truth_fingerprint/contracts/consensus_v2.py:100 | the complaint about some rows is that of the first row that has one |
| ContractVerdicts.InputReports | src/parallel_truth_fingerprint/contracts/consensus_v2.py:96-110 | the same of a round input |
| ContractVerdicts.ExcludedRowReports | src/parallel_truth_fingerprint/contracts/consensus_v2.py:158-160 | the same of an exclusion row |
| ContractVerdicts.DecisionReports | src/parallel_truth_fingerprint/contracts/consensus_v2.py:150-170 | the same of a decision |
| ReferenceEvaluator.CheckClosure | src/parallel_truth_fingerprint/consensus_v2/reference_evaluator.py:79-99 | which closure diagnostics the loops over dictionaries collect |
| ReferenceEvaluator.ExcludeOutliers | src/parallel_truth_fingerprint/consensus_v2/reference_evaluator.py:100-108 | the updated dictionary excludes exactly the ineligible edges and those further than the bound from the mean, with their reasons |
| ReferenceEvaluator.Decide | src/parallel_truth_fingerprint/consensus_v2/reference_evaluator.py:100-122 | the loops build the specified decision; the mean is read on the branch where it exists |
| ReferenceEvaluator.EvaluateReference | src/parallel_truth_fingerprint/consensus_v2/reference_evaluator.py:48-127 | the whole evaluation: blocked diagnostics, the decision and trace, or the code with which the record refuses it |
| ReferenceVerdicts.InputsBlock | src/parallel_truth_fingerprint/consensus_v2/reference_evaluator.py:64-78 | an evaluation with a fault in its inputs is blocked with each supplied diagnostic and each code exactly when its own condition holds, nothing else, in strictly ascending order, and no events |
| ReferenceVerdicts.ProjectionsBlock | src/parallel_truth_fingerprint/consensus_v2/reference_evaluator.py:79-99 | with none, the same for the four codes about the operation, the projections and the trace budget |
| ReferenceVerdicts.EvaluationSays | src/parallel_truth_fingerprint/consensus_v2/reference_evaluator.py:100-127 | with neither: every field of the decision and every event, from the mean of the eligible values; and exactly when the record refuses the ranking instead |
| ReferenceEvaluator.IncludedHas | src/parallel_truth_fingerprint/consensus_v2/reference_evaluator.py:100-109 | an edge is included exactly when its observation is eligible and within the bound of the mean |
| ReferenceAcceptance.RankingOrderedIff | src/parallel_truth_fingerprint/contracts/consensus_v2.py:166 | the residual ranking passes the contract's order test exactly when residuals do not fall as ids rise |
| ReferenceAcceptance.FailureAccepted | src/parallel_truth_fingerprint/consensus_v2/reference_evaluator.py:112-114 | a failure record passes every clause of the contract |
| ReferenceAcceptance.AcceptedExactlyWhen | src/parallel_truth_fingerprint/consensus_v2/reference_evaluator.py:100-127 | past the blocking checks the record is accepted exactly when too few edges are kept or residuals do not fall as ids rise; the one possible refusal is the order of the ranking |
| ReferenceExamples.RankingIsRefused | src/parallel_truth_fingerprint/consensus_v2/reference_evaluator.py:116-125 | currents 0, 10, 2: accepted inputs, nothing blocks, and the record refuses its ranking |
| ReferenceProperties.PairIsNeverRefused | src/parallel_truth_fingerprint/consensus_v2/reference_evaluator.py:103-116 | in exact arithmetic two eligible edges have equal residuals, so the record is never refused |
| ReferenceOrder.AgreeExactlyWhen | src/parallel_truth_fingerprint/consensus_v2/reference_evaluator.py:66-127 | two orders of any observations give one answer exactly when nothing is looked at, or the projections left in the dictionary are bound in both or in neither |
| ReferenceOrder.OrderIsIrrelevantExactlyWhen | src/parallel_truth_fingerprint/consensus_v2/reference_evaluator.py:66-127 | all orders give one answer exactly when nothing is looked at, every projection is of its row, or some edge has no projection that is |
| ReferenceOrder.OrderCanDecide | src/parallel_truth_fingerprint/consensus_v2/reference_evaluator.py:87-93 | two valid projections of one edge whose exchange changes the answer |
| ReferenceProperties.RepeatedEdgesBlock | src/parallel_truth_fingerprint/consensus_v2/reference_evaluator.py:88-90 | two projections of one edge never reach a decision |
| ReferenceProperties.DecisionPartitions | src/parallel_truth_fingerprint/consensus_v2/reference_evaluator.py:109-121 | participants are the input rows in order, and each is included once or excluded once |
| ReferenceProperties.ExclusionsAreJustified | src/parallel_truth_fingerprint/consensus_v2/reference_evaluator.py:100-120 | each exclusion names an observation, its evidence and the true reason |
| ReferenceProperties.RankingIsTheOnlyOrder | src/parallel_truth_fingerprint/consensus_v2/reference_evaluator.py:116 | the ranking is the only listing of the included ids in (residual, id) order |
| ReferenceProperties.IncludedAreClose | src/parallel_truth_fingerprint/consensus_v2/reference_evaluator.py:105-109 | included values are within twice the bound of each other |
| ReferenceProperties.CloseValuesAllKept | src/parallel_truth_fingerprint/consensus_v2/reference_evaluator.py:105-109 | eligible values within the bound of each other are all kept |
| ReferenceProperties.TraceFitsBudget | src/parallel_truth_fingerprint/consensus_v2/reference_evaluator.py:95-110 | one event per observation and one for the operation, within budget; none when blocked |
| Texts.UnitsAreInjective | src/parallel_truth_fingerprint/contracts/consensus_v2.py:113-115 | UTF-16 code units determine a text in which no two lone surrogates pair up |
| Texts.SurrogatesCollide | src/parallel_truth_fingerprint/contracts/consensus_v2.py:113-115 | two lone surrogates and the character they would encode have the same units, so that condition is needed |
| CanonicalJson.EscapedIsPrefixCode | src/parallel_truth_fingerprint/contracts/consensus_v2.py:113-115 | an escaped string ends at its first bare quotation mark and can be read back |
| CanonicalJson.IntegerIsPrefixCode | src/parallel_truth_fingerprint/contracts/consensus_v2.py:113-115 | a delimited integer can be read back |
| CanonicalJson.TextIsPrefixCode | src/parallel_truth_fingerprint/contracts/consensus_v2.py:113-115 | delimited texts of trees are equal only for equal trees |
| CanonicalJson.TextIsInjective | src/parallel_truth_fingerprint/contracts/consensus_v2.py:113-119 | equal canonical texts come from equal trees of strings, integers, booleans, arrays and objects |
| CanonicalReader.CanonicalRoundTrip | src/parallel_truth_fingerprint/contracts/consensus_v2.py:113-115 | a reader of JSON text reads canonical text back as the tree it was written from, to the end |
| CanonicalReader.KeysAscend | src/parallel_truth_fingerprint/contracts/consensus_v2.py:115 | the members of an object stand in strictly ascending order of their keys |
| CanonicalReader.EscapesAreShortest | src/parallel_truth_fingerprint/contracts/consensus_v2.py:115 | which units stand for themselves, which seven have a short escape, and that all others have four digits in lower case |
| CanonicalReader.NumbersArePlain | src/parallel_truth_fingerprint/contracts/consensus_v2.py:115 | numbers have no leading zero |
| CanonicalReader.TextIsCompact | src/parallel_truth_fingerprint/contracts/consensus_v2.py:115 | canonical text is printable ASCII, and a blank in it stands inside a string |
| RecordIdentity.StoredIsFrozen | src/parallel_truth_fingerprint/contracts/consensus_v2.py:50-60 | what a record stores is frozen throughout exactly when its payload hides no unfrozen tuple in a list |
| RecordIdentity.StoredTwice | src/parallel_truth_fingerprint/contracts/consensus_v2.py:50-60 | storing is a normal form exactly on frozen values |
| RecordIdentity.PlainRoundTrip | src/parallel_truth_fingerprint/contracts/consensus_v2.py:50-60 | values made of dictionaries and lists thaw to themselves, frozen or not |
| RecordIdentity.StoringKeepsBytes | src/parallel_truth_fingerprint/contracts/consensus_v2.py:113-128 | storing a payload leaves its canonical bytes alone |
| RecordIdentity.BytesDetermineBody | src/parallel_truth_fingerprint/contracts/consensus_v2.py:173-179 | equal canonical bytes mean equal content, the id aside |
| RecordIdentity.ReparsedExactlyWhen | src/parallel_truth_fingerprint/contracts/consensus_v2.py:50-60 | for any test of the content at all: what is printed parses to the same bytes, and to the same record exactly when freezing reaches the whole payload |
| RecordIdentity.RecordShapeIsFreezable | src/parallel_truth_fingerprint/contracts/consensus_v2.py:50-60 | a payload with the shape the contracts demand is reached throughout, whichever container types it uses |
| RecordIdentity.RecordRoundTrip | src/parallel_truth_fingerprint/contracts/consensus_v2.py:182-193 | for every contract that demands that shape, parsing what a record prints gives the same record |
| RecordIdentity.NoDuplicates | src/parallel_truth_fingerprint/contracts/consensus_v2.py:138-143 | the hook accepts exactly distinct keys and then keeps every member |
| RecordContracts.HashedBytes | src/parallel_truth_fingerprint/contracts/consensus_v2.py:173-179 | what is hashed for a decision record is the canonical text of the decision without its id |
| RecordContracts.DecisionRoundTrip | src/parallel_truth_fingerprint/contracts/consensus_v2.py:182-193 | every accepted decision record, printed and parsed again, is the same record |
| RecordContracts.InputRoundTrip | src/parallel_truth_fingerprint/contracts/consensus_v2.py:122-133 | every accepted round input record, printed and parsed again, is the same record |
| RecordFields.DecisionIsRead | src/parallel_truth_fingerprint/contracts/consensus_v2.py:150-175 | reading the text of a decision record gives every field under its own name, and no other field |
| RecordFields.InputIsRead | src/parallel_truth_fingerprint/contracts/consensus_v2.py:96-115 | the same of a round input record |
| DecisionIdentity.ContentIdIdentifies | src/parallel_truth_fingerprint/contracts/consensus_v2.py:169-179 | two accepted decisions share a content id exactly when they are equal up to the code units of their free texts, or their texts collide under the hash |
| DecisionIdentity.PairFreeIdIdentifies | src/parallel_truth_fingerprint/contracts/consensus_v2.py:169-179 | without lone surrogates that pair up, one content id means one record, or a collision |
| DecisionIdentity.DifferentDecisionsShareAnId | src/parallel_truth_fingerprint/contracts/consensus_v2.py:163-179 | two different accepted decisions with one canonical text and one content id |
| Publication.StepInv | scripts/authorize_academic_matrix_v2.py:221-248 | every step of every publisher keeps the invariant and leaves stored artifacts alone |
| Publication.StoredForGood | scripts/authorize_academic_matrix_v2.py:221-248 | once present, an artifact keeps its bytes along every run |
| Publication.NeverPartial | scripts/authorize_academic_matrix_v2.py:221-248 | a target is absent, or holds its earlier bytes, or one publisher's complete payload, crashes included |
| Publication.OutcomeIsTrue | scripts/authorize_academic_matrix_v2.py:228-245 | a publisher that returned finds its own bytes stored for good; one that reported a conflict finds others |
| Publication.ReturnsAgree | scripts/authorize_academic_matrix_v2.py:228-245 | two publishers of one target return only with equal payloads |
| Publication.TemporariesAreRemoved | scripts/authorize_academic_matrix_v2.py:246-248 | only a crash leaves a temporary file |
| Publication.NeverStuck | scripts/authorize_academic_matrix_v2.py:228-248 | whatever the others did, a publisher can go on without failing |
| Publication.StepsRunDown | scripts/authorize_academic_matrix_v2.py:228-248 | every step of a publisher, of at most its payload and seven more, brings it nearer to its end |
| Publication.FailuresAreCaused | scripts/authorize_academic_matrix_v2.py:221-248 | a publisher has failed only if a step of its own failed: a symbolic link, a read, an open or a write |
| Publication.StoredIsOnlyRead | scripts/authorize_academic_matrix_v2.py:228-231 | no publisher of what is stored from the start writes a temporary file |
| Publication.StepRefinesPublish | scripts/authorize_academic_matrix_v2.py:221-248 | each step is invisible or is the whole atomic publication of one payload |
| Publication.VerdictIsSequential | scripts/authorize_academic_matrix_v2.py:228-245 | a finished publisher reports what the atomic publication would |
| AuthorityDocuments.CheckApprovalGroups | scripts/authorize_academic_matrix_v2.py:293-312 | the loop accepts exactly the lists that approve each of the seven groups once under its own label |
| AuthorityVerdicts.GroupsAreTheSeven | scripts/authorize_academic_matrix_v2.py:293-324 | that is, in some order, the seven groups written out with their labels, each approved |
| AuthorityStore.CheckApproval | scripts/authorize_academic_matrix_v2.py:315-369 | the checks in their order, the loop over the groups among them, are the ones the command makes |
| AuthorityVerdicts.ApprovalPasses | scripts/authorize_academic_matrix_v2.py:327-369 | they pass exactly for a complete approval of this schema that grants nothing, for this candidate and these unresolved requirements, of all seven groups, no later than the freeze |
| AuthorityStore.Operator.PublishImmutable | scripts/authorize_academic_matrix_v2.py:221-248 | an absent target takes the document, a present one is left alone and compared |
| AuthorityStore.Operator.Authorize | scripts/authorize_academic_matrix_v2.py:632-672 | the checks and publications of the plan, in order, until one is refused |
| AuthorityStore.Operator.Verify | scripts/authorize_academic_matrix_v2.py:751-802 | a failing suite or one not later than the freeze publishes nothing; otherwise both outputs and then the sealed test lock |
| AuthorityStore.Operator.LockTruth | scripts/authorize_academic_matrix_v2.py:805-848 | the truth lock is published only for a loaded, bound, successful test lock earlier than the lock time |
| AuthorityStore.Operator.Finalize | scripts/authorize_academic_matrix_v2.py:851-933 | the temporal context is published before the gate is asked, the frozen config only after it closes |
| AuthorityVerdicts.AuthorizePublishes | scripts/authorize_academic_matrix_v2.py:632-672 | anything is published exactly for an accepted candidate with that approval and a bundle, and then the requirements, a catalog of the one decision that binds the approval by its hashes, and the config, field by field |
| AuthorityVerdicts.AuthorizeRefuses | scripts/authorize_academic_matrix_v2.py:632-643 | what each error says about the inputs |
| AuthorityVerdicts.VerifyPublishes | scripts/authorize_academic_matrix_v2.py:751-802 | exactly when a lock is published, and each of its fields |
| AuthorityVerdicts.VerifyRefuses | scripts/authorize_academic_matrix_v2.py:751-771 | what each error says |
| AuthorityVerdicts.LockTruthPublishes | scripts/authorize_academic_matrix_v2.py:805-848 | exactly when a truth lock is published, and each of its fields |
| AuthorityVerdicts.LockTruthRefuses | scripts/authorize_academic_matrix_v2.py:805-832 | what each error says |
| AuthorityVerdicts.FinalizePublishes | scripts/authorize_academic_matrix_v2.py:851-933 | exactly when a context and a frozen config are published, and each of their fields |
| AuthorityVerdicts.FinalizeRefuses | scripts/authorize_academic_matrix_v2.py:851-920 | what each error says |
| AuthorityVerdicts.PerformPublishes | scripts/authorize_academic_matrix_v2.py:648-665 | the first artifacts of a plan reach the store, in order, until one is refused, and nothing else changes |
| AuthorityChain.PlansAreHonest | scripts/authorize_academic_matrix_v2.py:632-933 | every document a command goes on to publish is backed by what it read |
| AuthorityChain.StepInv | scripts/authorize_academic_matrix_v2.py:632-933 | commands interleaved publication by publication keep every stored document backed |
| AuthorityChain.CommandKeepsHonest | scripts/authorize_academic_matrix_v2.py:632-933 | a command alone, to its end or its first conflict, keeps the store backed |
| AuthorityChain.FrozenHasChain | scripts/authorize_academic_matrix_v2.py:851-933 | over every run a resolved config has behind it, still stored: an accepted candidate, the owner's complete approval of it and of all seven groups no later than the freeze, the one decision that records this, a sealed passed test lock and a sealed truth lock bound to one config and to each other, with freeze before test before truth, and the context that names them |
| AuthorityChain.TestLocksAreEarned | scripts/authorize_academic_matrix_v2.py:751-802 | every stored test lock records a successful suite later than the freeze, and its output is stored |
| AuthorityChain.AlteredTestLockIsRefused | scripts/authorize_academic_matrix_v2.py:686-698 | with an injective hash no altered test lock loads under the same identity |
| AuthorityChain.AlteredTruthLockIsRefused | scripts/authorize_academic_matrix_v2.py:686-698 | with an injective hash no altered truth lock loads under the same identity |
| AuthorityChain.FrozenPinsChain | scripts/authorize_academic_matrix_v2.py:851-933 | one frozen config, in any two stores, pins the same approval, candidate, decision, locks and authorized config |
| AuthorityProtocol.ExecutionInv | scripts/authorize_academic_matrix_v2.py:221-248 | the commands over the publication protocol, every publisher free to fail or crash between two steps, keep every stored document backed and every pending one too |
| AuthorityProtocol.FrozenHasChainAtAnyMoment | scripts/authorize_academic_matrix_v2.py:221-248 | a frozen config found at any moment of such an execution has its chain behind it |
| AuthorityCompleteness.AuthorizeCompletes | scripts/authorize_academic_matrix_v2.py:632-672 | on fresh paths an approvable candidate is authorized, and the paths and hashes in its config name the stored requirements and the catalog with the approved decision |
| AuthorityCompleteness.ChainCompletes | scripts/authorize_academic_matrix_v2.py:632-933 | authorize, verify, lock-truth and finalize, in order of time and on fresh paths, end in a frozen config that differs from the authorized one in its temporal context alone |
| AuthorityOrigin.CanFreezeExactlyWhen | scripts/authorize_academic_matrix_v2.py:675-933 | verify, lock-truth and finalize can freeze a config exactly when it is accepted and names a catalog with the one decision |
| AuthorityOrigin.FrozenIsAuthorized | scripts/authorize_academic_matrix_v2.py:632-933 | if no config from the initial store came to name a decision catalog unless it equals an authorized one, every frozen config is, temporal context aside, what authorize wrote for the approved candidate, and its hashes are those of the stored requirements and catalog |
| AuthorityOrigin.CatalogsApartSuffice | scripts/authorize_academic_matrix_v2.py:675-683 | for that it suffices that no initial config names the path of a catalog |
| AuthorityOrigin.InitialFreezesExactlyWhen | scripts/authorize_academic_matrix_v2.py:632-683 | a config of the initial store can be frozen exactly when it is accepted and an authorize of the run has published its catalog at the path it names |
| AuthorityOrigin.ApartFromTheStart | scripts/authorize_academic_matrix_v2.py:632-683 | if no config of the initial store names the catalog path of an authorize of the run, only authorized configs can be frozen |
| AuthorityOrigin.OnlyAuthorizedFreezeExactlyWhen | scripts/authorize_academic_matrix_v2.py:632-933 | in any state of any run, only authorized configs can be frozen exactly under that condition |
| AuthorityOrigin.RunCommand | scripts/authorize_academic_matrix_v2.py:632-933 | a command carried out alone is a run of the interleaving machine |
| AuthorityOrigin.UnapprovedConfigFreezes | scripts/authorize_academic_matrix_v2.py:675-933 | a run in which a config that no approval is for is verified, truth-locked and frozen |
| CausalIndependence.AssessCausalPathIndependence | src/parallel_truth_fingerprint/evidence/causal_path_independence.py:100-118 | the appended checks and the verdict on them |
| CausalIndependence.PassesExactlyWhen | src/parallel_truth_fingerprint/evidence/causal_path_independence.py:39-97 | a case passes exactly when its ids are immutable and resolved, both traces coherent, and the varied branch left the other alone |
| CausalIndependence.DemonstratedExactlyWhen | src/parallel_truth_fingerprint/evidence/causal_path_independence.py:100-118 | demonstrated means exactly four cases, one for each variation, each passing |
| CausalIndependence.FifthCaseSpoils | src/parallel_truth_fingerprint/evidence/causal_path_independence.py:104-118 | a fifth case always spoils it, as its ids, the resolver and the coherence of its traces say: incomplete for a repeated variation or ids that are not immutable, blocked for unresolved ones, violated for an incoherent trace with a known state |
| CausalIndependence.UnknownFifthCaseBlocks | src/parallel_truth_fingerprint/evidence/causal_path_independence.py:61-118 | a demonstrated matrix, and a fifth case that leaves it blocked rather than incomplete |
| CausalIndependence.VerdictIgnoresOrder | src/parallel_truth_fingerprint/evidence/causal_path_independence.py:103-118 | the verdict is the same for every order of the cases |
| CausalIndependence.DemonstrationIsMonotone | src/parallel_truth_fingerprint/evidence/causal_path_independence.py:39-118 | a resolver that accepts more keeps a demonstration |
| CausalIndependence.TraceIdDiagnosticsNeverAppear | src/parallel_truth_fingerprint/evidence/causal_path_independence.py:39-44 | the trace check's own id diagnostics are never reported |
| CausalVerdicts.TraceReports | src/parallel_truth_fingerprint/evidence/causal_path_independence.py:45-58 | each diagnostic of a trace has its own condition |
| CausalVerdicts.VariationReports | src/parallel_truth_fingerprint/evidence/causal_path_independence.py:71-96 | each diagnostic of a variation has its own condition: a leak is a failure, a variation that is not there or not known leaves the case incomplete |
| CausalVerdicts.CaseReports | src/parallel_truth_fingerprint/evidence/causal_path_independence.py:61-97 | which of these a case is given, and the ids it names |
| CausalVerdicts.CoverageReports | src/parallel_truth_fingerprint/evidence/causal_path_independence.py:103-109 | the checks of the cases in order, then one for a repeated and one for a missing variation |
| CausalVerdicts.VerdictSays | src/parallel_truth_fingerprint/evidence/causal_path_independence.py:110-118 | incomplete before blocked before violated, over any checks |
| CausalVerdicts.ControlledMatrix | src/parallel_truth_fingerprint/evidence/causal_path_independence.py:100-118 | over four coherent cases, one for each variation: incomplete if some variation is not there without a leak, otherwise violated exactly if some case leaks |
| Qualification.ParityCheck | src/parallel_truth_fingerprint/evidence/consensus_v2_qualification.py:59-77 | the early-return loop reports the first fixture with a problem |
| Qualification.QualifyConsensusV2 | src/parallel_truth_fingerprint/evidence/consensus_v2_qualification.py:88-122 | the method answers qualified exactly when the evidence is complete: a condition on the ids, fixtures and evidence that names no check |
| Qualification.QualifiedExactlyWhen | src/parallel_truth_fingerprint/evidence/consensus_v2_qualification.py:59-122 | qualified means every piece of evidence is present, resolved and positive, and conversely |
| Qualification.QualificationIsMonotone | src/parallel_truth_fingerprint/evidence/consensus_v2_qualification.py:55-122 | a resolver that accepts more keeps a qualification |
| Qualification.QualifiedIgnoresFixtureOrder | src/parallel_truth_fingerprint/evidence/consensus_v2_qualification.py:59-122 | being qualified does not depend on the order of the fixtures |
| Qualification.OrderIsIrrelevantExactlyWhen | src/parallel_truth_fingerprint/evidence/consensus_v2_qualification.py:59-122 | every order of the fixtures gives one verdict exactly when coverage, a repeated id or an unresolved fixture decides, or no two fixtures have problems that the other five checks turn into different verdicts |
| Qualification.VerdictDependsOnFixtureOrder | src/parallel_truth_fingerprint/evidence/consensus_v2_qualification.py:68-76 | an example on the other side of that condition: exchanging two fixtures turns "incomplete" into "shadow" |
| QualificationVerdicts.SixChecks | src/parallel_truth_fingerprint/evidence/consensus_v2_qualification.py:88-113 | the six checks in their order |
| QualificationVerdicts.ClosureReports | src/parallel_truth_fingerprint/evidence/consensus_v2_qualification.py:91-97 | when the closure passes, is incomplete or is blocked |
| QualificationVerdicts.ParityReports | src/parallel_truth_fingerprint/evidence/consensus_v2_qualification.py:59-77 | when parity lacks a kind of case, repeats or cannot resolve a fixture, and otherwise what its first fault comes to |
| QualificationVerdicts.BooleansReport | src/parallel_truth_fingerprint/evidence/consensus_v2_qualification.py:80-100 | the same of integration and state |
| QualificationVerdicts.SensitivityReports | src/parallel_truth_fingerprint/evidence/consensus_v2_qualification.py:101-107 | the same of sensitivity |
| QualificationVerdicts.ProvenanceReports | src/parallel_truth_fingerprint/evidence/consensus_v2_qualification.py:108-113 | the same of provenance |
| QualificationVerdicts.VerdictSays | src/parallel_truth_fingerprint/evidence/consensus_v2_qualification.py:114-122 | incomplete before blocked before shadow, over any checks |

## Left out

- Floating point: sensor values, residuals and times are real numbers, and `round(x, 3)` is the exact nearest thousandth. Decimal arithmetic is exact; the 28-digit context and the parsing of decimal strings (`exact_decimal`) are not modelled.
- Exclusion details, units, notes, output channels and time stamps of actions: texts that decide nothing.
- CometBFT, MQTT, MinIO, OPC UA, subprocess and HTTP: commit, persist, clock readings, the test suite, source snapshots and the parameter gate are parameters.
- SHA-256: digests are functions. Injectivity is assumed where a theorem says so, and `DecisionIdentity.ContentIdIdentifies` names the collision instead.
- The Go ABCI application is not part of this model; the Python engine stands for the consensus function.
- Training, dataset building and scenario resolution are not part of this model.
- Dashboard views, reports and log formatting.
- `build_authority_bundle`: the checks up to the approval and the requirements are modelled; the remaining checks on the 205 slots are one outcome of the command.
- RuntimeLoop.RunAutonomousDemoLoop: the configuration provider, the stop request, the cycle and the sleep are a finite script, one entry for each time round; an interrupt is modelled while a cycle executes and while the loop sleeps, the cadence figures are not, and `SlicedSleep` is proved on its own.
- RuntimeSafety.RunInv: each lock-protected command and each access of the runtime thread to shared state is one atomic step; `set_scenario` gets its name already trimmed.
- Publication.NeverPartial: a write reaches the temporary file in chunks and the link is atomic, as on a POSIX file system; names of temporary files are distinct from targets, and nobody deletes a target.
- AuthorityChain.FrozenHasChain: a command reads everything at one moment; files that `verify` keeps as output are never taken for locks, and time stamps are already parsed.
- DecisionContract.OrderedIdsIncrease: payload fields have their declared types, so the complaints about missing, extra or ill-typed fields do not arise.
- RecordContracts.DecisionRoundTrip: StrEnum members, which equal their strings, and floats are not modelled; every key of a record is one of the ASCII field names.
- ReferenceProperties.PairIsNeverRefused: does not model the 28-digit Decimal context, in which the mean of 1 and 1E-28 is rounded and the two residuals differ.
- ControllerState.ClampStaysInRange: a NaN operating level passes the comparisons of the source's clamp unchanged; real numbers have no NaN.
- The JSON parser itself; its duplicate-key hook is modelled.
- The plain dataclass contracts, enumerations and single-branch admission guards that only restate a condition.
