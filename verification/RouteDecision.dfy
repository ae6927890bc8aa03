/** Choosing a route: score, deduplicate, rank, and refuse to execute what the gates rejected. */
module RouteDecision {
  import opened Common
  import opened Ranking
  import opened Routes
  import opened Quota
  import opened Routing

  // ----- the comparators -----

  function CompareExecutable(left: Candidate, right: Candidate, urgent: bool): real {
    if urgent then
      FirstNonZero([left.objective - right.objective, left.predictedCredits - right.predictedCredits,
                    right.successEstimate - left.successEstimate, left.badEscapeEstimate - right.badEscapeEstimate])
    else
      FirstNonZero([left.predictedCredits - right.predictedCredits, right.successEstimate - left.successEstimate,
                    left.badEscapeEstimate - right.badEscapeEstimate, left.predictedDuration - right.predictedDuration,
                    left.objective - right.objective])
  }

  function CompareDiagnostic(left: Candidate, right: Candidate): real {
    FirstNonZero([left.badEscapeEstimate - right.badEscapeEstimate, right.successEstimate - left.successEstimate,
                  left.predictedCredits - right.predictedCredits, left.objective - right.objective])
  }

  function CompareCandidates(left: Candidate, right: Candidate, urgent: bool): real {
    if left.admissible != right.admissible then (if left.admissible then -1.0 else 1.0)
    else if left.admissible then CompareExecutable(left, right, urgent)
    else CompareDiagnostic(left, right)
  }

  /** The order as a key: admissible candidates first, then by what the comparators look at. */
  function Figures(candidate: Candidate, urgent: bool): seq<real> {
    if !candidate.admissible then
      [candidate.badEscapeEstimate, -candidate.successEstimate, candidate.predictedCredits, candidate.objective]
    else if urgent then
      [candidate.objective, candidate.predictedCredits, -candidate.successEstimate, candidate.badEscapeEstimate]
    else
      [candidate.predictedCredits, -candidate.successEstimate, candidate.badEscapeEstimate, candidate.predictedDuration,
       candidate.objective]
  }

  function RankKey(urgent: bool): Key<Candidate> {
    (candidate: Candidate) => [if candidate.admissible then 0.0 else 1.0] + Figures(candidate, urgent)
  }

  lemma DifferencesOf(left: Candidate, right: Candidate, urgent: bool)
    requires left.admissible == right.admissible
    ensures CompareCandidates(left, right, urgent) ==
              FirstNonZero(Differences(Figures(left, urgent), Figures(right, urgent)))
  {
    var d := Differences(Figures(left, urgent), Figures(right, urgent));
    if left.admissible && !urgent {
      assert d == [d[0], d[1], d[2], d[3], d[4]];
    } else {
      assert d == [d[0], d[1], d[2], d[3]];
    }
  }

  /** The comparators order candidates exactly by the key. */
  lemma ComparatorIsRankKey(left: Candidate, right: Candidate, urgent: bool)
    ensures CompareCandidates(left, right, urgent) < 0.0 <==> Precedes(RankKey(urgent)(left), RankKey(urgent)(right))
  {
    var l, r := Figures(left, urgent), Figures(right, urgent);
    var lk, rk := RankKey(urgent)(left), RankKey(urgent)(right);
    assert lk[1..] == l && rk[1..] == r;
    if left.admissible == right.admissible {
      FallThrough(l, r);
      assert CompareCandidates(left, right, urgent) == FirstNonZero(Differences(l, r)) by {
        DifferencesOf(left, right, urgent);
      }
    }
  }

  // ----- the decision -----

  datatype Decision =
    | NoRoute
    | Unsatisfiable(reasons: seq<Reason>)
    | Decided(selected: Candidate, ranked: seq<Candidate>)

  /** The scored candidates, one for each proposal, with the reasons each was rejected for. */
  ghost predicate Scored(candidates: seq<Candidate>, reasons: seq<Reason>, proposals: seq<Proposal>, demands: Demands,
                         quota: QuotaState, settings: Settings, constraints: Constraints)
  {
    && |candidates| == |proposals|
    && (forall i | 0 <= i < |proposals| :: Gated(candidates[i], proposals[i], demands, quota, settings, constraints))
    && (forall reason :: reason in reasons <==>
          exists proposal <- proposals :: Rejects(reason, proposal, demands, quota, settings, constraints))
  }

  method ScoreAll(proposals: seq<Proposal>, demands: Demands, quota: QuotaState, settings: Settings,
                  constraints: Constraints)
    returns (candidates: seq<Candidate>, reasons: seq<Reason>)
    ensures Scored(candidates, reasons, proposals, demands, quota, settings, constraints)
  {
    hide Rejects, Gated;
    candidates, reasons := [], [];
    for i := 0 to |proposals|
      invariant Scored(candidates, reasons, proposals[..i], demands, quota, settings, constraints)
    {
      var scored, why := ScoreCandidate(proposals[i], demands, quota, settings, constraints);
      candidates, reasons := candidates + [scored], reasons + why;
      assert proposals[..i + 1] == proposals[..i] + [proposals[i]];
      assert proposals[i] in proposals[..i + 1];
    }
    assert proposals[..|proposals|] == proposals;
  }

  /** Ahead of every other candidate: nothing in the list is strictly better. */
  ghost predicate IsBest(selected: Candidate, candidates: seq<Candidate>, urgent: bool) {
    selected in candidates && forall candidate <- candidates :: CompareCandidates(candidate, selected, urgent) >= 0.0
  }

  lemma SelectedIsBest(candidates: seq<Candidate>, urgent: bool)
    requires candidates != []
    ensures StableSort(RankKey(urgent), candidates) != []
    ensures IsBest(StableSort(RankKey(urgent), candidates)[0], candidates, urgent)
    ensures StableSort(RankKey(urgent), candidates)[0].admissible <==>
              exists candidate <- candidates :: candidate.admissible
  {
    FirstIsLeast(RankKey(urgent), candidates);
    var selected := StableSort(RankKey(urgent), candidates)[0];
    forall candidate <- candidates ensures CompareCandidates(candidate, selected, urgent) >= 0.0 {
      ComparatorIsRankKey(candidate, selected, urgent);
    }
  }

  /** `candidates` are the scored proposals and `unique` what deduplication leaves of them. */
  method Decide(proposals: seq<Proposal>, demands: Demands, quota: QuotaState, settings: Settings,
                constraints: Constraints)
    returns (decision: Decision, candidates: seq<Candidate>, unique: seq<Candidate>)
    ensures |candidates| == |proposals| && IsDeduplication(unique, candidates)
    ensures forall i | 0 <= i < |proposals| :: Gated(candidates[i], proposals[i], demands, quota, settings, constraints)
    ensures decision.NoRoute? <==> unique == []
    ensures decision.Unsatisfiable? <==>
              && unique != [] && (forall candidate <- unique :: !candidate.admissible)
              && (|| constraints.speedMode.Some? || constraints.speedId.Some? || constraints.deadline.Some?
                  || constraints.maximumCredits.Some? || constraints.otherHard
                  || demands.features.risk >= 0.72 || demands.features.destructivePotential >= 0.72)
    ensures decision.Unsatisfiable? ==>
              forall reason :: reason in decision.reasons <==>
                exists proposal <- proposals :: Rejects(reason, proposal, demands, quota, settings, constraints)
    ensures decision.Decided? ==>
              && IsBest(decision.selected, unique, constraints.urgent)
              && (decision.selected.admissible <==> exists candidate <- unique :: candidate.admissible)
              && multiset(decision.ranked) == multiset(unique) && Ranked(RankKey(constraints.urgent), decision.ranked)
  {
    hide Gated, IsDeduplication, Rejects;
    var reasons;
    candidates, reasons := ScoreAll(proposals, demands, quota, settings, constraints);
    unique := DeduplicateCandidates(candidates);
    if unique == [] {
      return NoRoute, candidates, unique;
    }
    SelectedIsBest(unique, constraints.urgent);
    StableSortRanks(RankKey(constraints.urgent), unique);
    var ranked := StableSort(RankKey(constraints.urgent), unique);
    if !ranked[0].admissible && (HasHardConstraints(constraints) || Critical(demands.features)) {
      return Unsatisfiable(reasons), candidates, unique;
    }
    decision := Decided(ranked[0], ranked);
  }

  /** What may be executed; nothing where the code throws. */
  method RequireAdmissibleRoute(decision: Decision) returns (route: Option<Candidate>)
    ensures route == if decision.Decided? && decision.selected.admissible then Some(decision.selected) else None
  {
    if decision.Decided? && decision.selected.admissible {
      return Some(decision.selected);
    }
    return None;
  }

  /** From the account's limits to a route that may be executed. */
  method SelectRoute(snapshot: Snapshot, reserve: real, now: real, proposals: seq<Proposal>, demands: Demands,
                     settings: Settings, constraints: Constraints)
    returns (route: Option<Candidate>, candidates: seq<Candidate>, unique: seq<Candidate>, quota: QuotaState)
    ensures |candidates| == |proposals| && IsDeduplication(unique, candidates)
    ensures Known(quota) <==> Limits(snapshot) != []
    ensures Known(quota) ==> exists i: nat | i < |Limits(snapshot)| ::
              quota == StateFor(Limits(snapshot)[i], reserve, now) && MostPressing(Limits(snapshot), i, reserve, now)
    ensures forall i | 0 <= i < |proposals| :: Gated(candidates[i], proposals[i], demands, quota, settings, constraints)
    ensures (exists limit <- Limits(snapshot) :: Exhausted(limit)) ==>
              route.None? && forall candidate <- candidates :: !candidate.admissible
    ensures route.Some? <==> exists candidate <- unique :: candidate.admissible
    ensures route.Some? ==> route.value.admissible && IsBest(route.value, unique, constraints.urgent)
    ensures TellsApart(proposals) ==> (route.Some? <==> exists candidate <- candidates :: candidate.admissible)
  {
    hide IsDeduplication, Rejects, RouteId;
    quota := DeriveQuotaState(snapshot, reserve, now);
    var decision;
    decision, candidates, unique := Decide(proposals, demands, quota, settings, constraints);
    route := RequireAdmissibleRoute(decision);
    if quota.exhausted {
      forall i | 0 <= i < |candidates| ensures !candidates[i].admissible {
        SpentQuotaRejectsAll(candidates[i], proposals[i], demands, quota, settings, constraints);
      }
    }
    UniqueAreCandidates(unique, candidates);
    if TellsApart(proposals) {
      GatedKeepsRoutes(candidates, proposals, demands, quota, settings, constraints);
      DistinctSurvive(unique, candidates);
    }
  }

  /** Without urgency the best admissible route has the least credits, then the best of each further figure in turn. */
  lemma BestWithoutUrgency(selected: Candidate, candidates: seq<Candidate>, other: Candidate)
    requires IsBest(selected, candidates, false) && selected.admissible && other in candidates && other.admissible
    ensures selected.predictedCredits <= other.predictedCredits
    ensures selected.predictedCredits == other.predictedCredits ==>
              && selected.successEstimate >= other.successEstimate
              && (selected.successEstimate == other.successEstimate ==>
                    && selected.badEscapeEstimate <= other.badEscapeEstimate
                    && (selected.badEscapeEstimate == other.badEscapeEstimate ==>
                          && selected.predictedDuration <= other.predictedDuration
                          && (selected.predictedDuration == other.predictedDuration ==>
                                selected.objective <= other.objective)))
  {
    var l, r := Figures(other, false), Figures(selected, false);
    assert CompareCandidates(other, selected, false) >= 0.0;
    FallThrough(l, r);
    DifferencesOf(other, selected, false);
    FiveParts(l, r);
  }

  /** Under urgency the best admissible route has the least objective, then the best of each further figure. */
  lemma BestUnderUrgency(selected: Candidate, candidates: seq<Candidate>, other: Candidate)
    requires IsBest(selected, candidates, true) && selected.admissible && other in candidates && other.admissible
    ensures selected.objective <= other.objective
    ensures selected.objective == other.objective ==>
              && selected.predictedCredits <= other.predictedCredits
              && (selected.predictedCredits == other.predictedCredits ==>
                    && selected.successEstimate >= other.successEstimate
                    && (selected.successEstimate == other.successEstimate ==>
                          selected.badEscapeEstimate <= other.badEscapeEstimate))
  {
    var l, r := Figures(other, true), Figures(selected, true);
    assert CompareCandidates(other, selected, true) >= 0.0;
    FallThrough(l, r);
    DifferencesOf(other, selected, true);
    FourParts(l, r);
  }

  /** Where nothing is admissible, the best has the least bad escape, then the best of each further figure. */
  lemma BestForDiagnosis(selected: Candidate, candidates: seq<Candidate>, urgent: bool, other: Candidate)
    requires IsBest(selected, candidates, urgent) && !selected.admissible && other in candidates
    ensures !other.admissible && selected.badEscapeEstimate <= other.badEscapeEstimate
    ensures selected.badEscapeEstimate == other.badEscapeEstimate ==>
              && selected.successEstimate >= other.successEstimate
              && (selected.successEstimate == other.successEstimate ==>
                    && selected.predictedCredits <= other.predictedCredits
                    && (selected.predictedCredits == other.predictedCredits ==>
                          selected.objective <= other.objective))
  {
    var l, r := Figures(other, urgent), Figures(selected, urgent);
    assert CompareCandidates(other, selected, urgent) >= 0.0;
    assert !other.admissible;
    FallThrough(l, r);
    DifferencesOf(other, selected, urgent);
    FourParts(l, r);
  }

  lemma FourParts(l: seq<real>, r: seq<real>)
    requires |l| == |r| == 4
    ensures Precedes(l, r) <==>
              l[0] < r[0] || (l[0] == r[0] && (l[1] < r[1] || (l[1] == r[1] && (l[2] < r[2] || (l[2] == r[2] &&
              l[3] < r[3])))))
  {
    assert l[1..][1..] == l[2..] && r[1..][1..] == r[2..];
    assert l[2..][1..] == l[3..] && r[2..][1..] == r[3..];
    assert Precedes(l[3..], r[3..]) <==> l[3] < r[3];
    assert Precedes(l[2..], r[2..]) <==> l[2] < r[2] || (l[2] == r[2] && Precedes(l[3..], r[3..]));
    assert Precedes(l[1..], r[1..]) <==> l[1] < r[1] || (l[1] == r[1] && Precedes(l[2..], r[2..]));
  }

  lemma FiveParts(l: seq<real>, r: seq<real>)
    requires |l| == |r| == 5
    ensures Precedes(l, r) <==>
              l[0] < r[0] || (l[0] == r[0] && (l[1] < r[1] || (l[1] == r[1] && (l[2] < r[2] || (l[2] == r[2] &&
              (l[3] < r[3] || (l[3] == r[3] && l[4] < r[4])))))))
  {
    assert l[1..][1..] == l[2..] && r[1..][1..] == r[2..];
    assert l[2..][1..] == l[3..] && r[2..][1..] == r[3..];
    assert l[3..][1..] == l[4..] && r[3..][1..] == r[4..];
    assert Precedes(l[4..], r[4..]) <==> l[4] < r[4];
    assert Precedes(l[3..], r[3..]) <==> l[3] < r[3] || (l[3] == r[3] && l[4] < r[4]);
    assert Precedes(l[2..], r[2..]) <==> l[2] < r[2] || (l[2] == r[2] && Precedes(l[3..], r[3..]));
    assert Precedes(l[1..], r[1..]) <==> l[1] < r[1] || (l[1] == r[1] && Precedes(l[2..], r[2..]));
  }

  // ----- what deduplication keeps -----

  /** One proposal per route, as the catalogue guarantees, and no colon in the parts of a route's id. */
  predicate TellsApart(proposals: seq<Proposal>) {
    && (forall i | 0 <= i < |proposals| :: ColonFree(RouteOf(proposals[i].candidate)))
    && (forall i, j | 0 <= i < j < |proposals| :: RouteOf(proposals[i].candidate) != RouteOf(proposals[j].candidate))
  }

  predicate DistinctIds(candidates: seq<Candidate>) {
    forall i, j | 0 <= i < j < |candidates| :: CandidateId(candidates[i]) != CandidateId(candidates[j])
  }

  lemma UniqueAreCandidates(unique: seq<Candidate>, candidates: seq<Candidate>)
    requires IsDeduplication(unique, candidates)
    ensures forall u <- unique :: u in candidates
  {
    forall u <- unique ensures u in candidates {
      KeptForHasId(candidates, CandidateId(u), u);
    }
  }

  lemma GatedKeepsRoutes(candidates: seq<Candidate>, proposals: seq<Proposal>, demands: Demands, quota: QuotaState,
                         settings: Settings, constraints: Constraints)
    requires TellsApart(proposals) && |candidates| == |proposals|
    requires forall i | 0 <= i < |proposals| ::
              Gated(candidates[i], proposals[i], demands, quota, settings, constraints)
    ensures DistinctIds(candidates)
  {
    hide RouteId, Rejects;
    forall i, j | 0 <= i < j < |candidates| ensures CandidateId(candidates[i]) != CandidateId(candidates[j]) {
      var left, right := RouteOf(proposals[i].candidate), RouteOf(proposals[j].candidate);
      assert RouteOf(candidates[i]) == left && RouteOf(candidates[j]) == right;
      if RouteId(left) == RouteId(right) {
        RouteIdInjective(left, right);
      }
    }
  }

  /** With distinct ids nothing is dropped. */
  lemma DistinctSurvive(unique: seq<Candidate>, candidates: seq<Candidate>)
    requires IsDeduplication(unique, candidates) && DistinctIds(candidates)
    ensures forall candidate <- candidates :: candidate in unique
  {
    hide RouteId;
    forall candidate <- candidates ensures candidate in unique {
      var u :| u in unique && CandidateId(u) == CandidateId(candidate);
      assert KeptFor(candidates, CandidateId(u), u);
      var k: nat :| KeptAt(candidates, CandidateId(u), k) && u == candidates[k];
      var i :| 0 <= i < |candidates| && candidates[i] == candidate;
      assert i == k;
    }
  }

  // ----- when ids collide -----

  const CALM := Features(0.0, 1.0, 0.0, 0.0, 0.0, 1.0, 0.0, 1.0)
  const OPEN := Settings(true, true, 100.0, 100.0, 100.0, 0.0)
  const FREE := Constraints(None, None, false, false, None, None, false)
  const IDLE := QuotaState(false, 0.0, true, Some(Usage(0.0, 100.0, 0.0, None, "limit")))

  function Figured(route: Route, family: Family, successEstimate: real, objective: real): Proposal {
    Proposal(Candidate(route.modelId, family, route.effort, route.topology, route.speedId, None, route.proofTier,
                       1.0, 1.0, 1.0, 1.0, successEstimate, 0.0, objective, false), false, true)
  }

  /** The ultra topology is for strong verification only; any other route can pass its gates. */
  predicate CanRun(route: Route) {
    route.topology.Ultra? ==> ProofTierRank(route.proofTier) >= ProofTierRank(Strong)
  }

  /**
   If two routes share an id, then there are figures with which the one that passes its gates is dropped for the
   other, which does not: without distinct ids an admissible route can be lost.
   */
  lemma CollisionLosesRoute(doomed: Route, good: Route, candidates: seq<Candidate>, unique: seq<Candidate>)
    requires RouteId(doomed) == RouteId(good) && CanRun(good)
    requires |candidates| == 2 && IsDeduplication(unique, candidates)
    requires Gated(candidates[0], Figured(doomed, UnknownFamily, 0.0, 0.0), Demands(CALM, 0.5, 0.5, Basic),
                   IDLE, OPEN, FREE)
    requires Gated(candidates[1], Figured(good, UnknownFamily, 1.0, 1.0), Demands(CALM, 0.5, 0.5, Basic),
                   IDLE, OPEN, FREE)
    ensures candidates[1].admissible && forall u <- unique :: !u.admissible
  {
    var demands := Demands(CALM, 0.5, 0.5, Basic);
    assert Rejects(CompletionTooLow, Figured(doomed, UnknownFamily, 0.0, 0.0), demands, IDLE, OPEN, FREE);
    SecondIsDropped(candidates, unique, doomed, good);
  }

  lemma SecondIsDropped(candidates: seq<Candidate>, unique: seq<Candidate>, first: Route, second: Route)
    requires |candidates| == 2 && IsDeduplication(unique, candidates)
    requires RouteOf(candidates[0]) == first && RouteOf(candidates[1]) == second && RouteId(first) == RouteId(second)
    requires candidates[0].objective < candidates[1].objective
    ensures forall u <- unique :: u == candidates[0]
  {
    assert CandidateId(candidates[0]) == CandidateId(candidates[1]);
    hide CandidateId, RouteId, RouteOf;
    forall u <- unique ensures u == candidates[0] {
      assert KeptFor(candidates, CandidateId(u), u);
      FirstOfTwo(candidates, CandidateId(u), u);
    }
  }

  lemma FirstOfTwo(candidates: seq<Candidate>, id: string, candidate: Candidate)
    requires |candidates| == 2 && CandidateId(candidates[0]) == CandidateId(candidates[1])
    requires candidates[0].objective < candidates[1].objective && KeptFor(candidates, id, candidate)
    ensures candidate == candidates[0]
  {
    hide CandidateId;
    var k: nat :| KeptAt(candidates, id, k) && candidate == candidates[k];
  }

  const GRAVE := Features(0.0, 0.0, 0.0, 0.8, 0.0, 0.0, 0.0, 0.0)

  /** For a critical task the first is rejected, and the second is not. */
  lemma OnlySolRuns(first: Route, second: Route, left: Candidate, right: Candidate)
    requires first.topology == Single && second.topology == Single && second.effort != "max"
    requires Gated(left, Figured(first, Terra, 0.9, 1.0), Demands(GRAVE, 0.5, 0.5, Basic), IDLE, OPEN, FREE)
    requires Gated(right, Figured(second, Sol, 0.9, 2.0), Demands(GRAVE, 0.5, 0.5, Basic), IDLE, OPEN, FREE)
    ensures !left.admissible && right.admissible && left.objective < right.objective
    ensures RouteOf(left) == first && RouteOf(right) == second
  {
    var demands := Demands(GRAVE, 0.5, 0.5, Basic);
    assert Rejects(CriticalNeedsSol, Figured(first, Terra, 0.9, 1.0), demands, IDLE, OPEN, FREE);
  }

  /** A model "a" with an effort "b:c" and a model "a:b" with an effort "c": a critical task loses its only route. */
  method ColonCollision() returns (route: Option<Candidate>, candidates: seq<Candidate>)
    ensures route.None? && |candidates| == 2 && candidates[1].admissible
  {
    hide Gated, Rejects, IsDeduplication, IsBest, RouteId, RouteOf, Figured;
    var first := Route("a", "b:c", "standard", Single, Standard);
    var second := Route("a:b", "c", "standard", Single, Standard);
    var demands := Demands(GRAVE, 0.5, 0.5, Basic);
    var proposals := [Figured(first, Terra, 0.9, 1.0), Figured(second, Sol, 0.9, 2.0)];
    var decision, unique;
    decision, candidates, unique := Decide(proposals, demands, IDLE, OPEN, FREE);
    OnlySolRuns(first, second, candidates[0], candidates[1]);
    CollidingIds(first, second);
    SecondIsDropped(candidates, unique, first, second);
    route := RequireAdmissibleRoute(decision);
  }

  lemma CollidingIds(first: Route, second: Route)
    requires first == Route("a", "b:c", "standard", Single, Standard) &&
             second == Route("a:b", "c", "standard", Single, Standard)
    ensures RouteId(first) == RouteId(second)
  {
    var tail := "standard" + ":" + (TopologyName(Single) + ":" + ProofTierName(Standard));
    assert "a" + ":" + ("b:c" + ":" + tail) == "a:b" + ":" + ("c" + ":" + tail);
  }
}
