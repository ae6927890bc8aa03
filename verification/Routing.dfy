/** Scoring gates, deduplication and ranking of route candidates, and the guard in front of execution. */
module Routing {
  import opened Common
  import opened Ranking
  import opened Routes
  import opened Quota

  datatype SpeedMode = Off | Auto | Fast

  datatype Constraints = Constraints(speedMode: Option<SpeedMode>, speedId: Option<string>, foreground: bool,
                                     urgent: bool, deadline: Option<real>, maximumCredits: Option<real>,
                                     otherHard: bool)

  datatype Settings = Settings(enableMax: bool, enableUltra: bool, maximumUsageForMax: real, maximumUsageForUltra: real,
                               maximumUsageForPremium: real, minimumLatencyForPremium: real)

  /** What a prompt asks of a route. */
  datatype Demands = Demands(features: Features, completion: real, quality: real, proofTier: ProofTier)

  /** A candidate before its gates, with whether its speed is premium and its proof tier available. */
  datatype Proposal = Proposal(candidate: Candidate, premium: bool, proofAvailable: bool)

  datatype Reason =
    | CompletionTooLow | ReliabilityTooLow | ProofTierUnavailable | ProofTierTooWeak
    | CriticalNeedsSol | DestructiveLuna
    | QuotaExhausted | MaxDisabled | MaxUsageUnknown | MaxUsageTooHigh
    | UltraDisabled | UltraUsageUnknown | UltraUsageTooHigh | UltraNotParallel | UltraTooNarrow | UltraProofTooWeak
    | PremiumUsageUnknown | PremiumUsageTooHigh | PremiumInBackground | PremiumWithoutDemand | PremiumNotUrgent
    | DeadlineMissed | CreditsExceeded

  const TOLERANCE := 0.000000001

  predicate Critical(features: Features) {
    features.risk >= 0.72 || features.destructivePotential >= 0.72
  }

  predicate Demanding(constraints: Constraints) {
    constraints.urgent || constraints.deadline.Some?
  }

  predicate HasHardConstraints(constraints: Constraints) {
    constraints.otherHard || constraints.speedId.Some? || constraints.speedMode.Some? || constraints.deadline.Some? ||
    constraints.maximumCredits.Some?
  }

  /** The quota state the scorer reads: the code also looks at the reported percentages. */
  predicate QuotaSpent(quota: QuotaState) {
    quota.exhausted || (quota.usage.Some? && (quota.usage.value.used >= 100.0 || quota.usage.value.remaining <= 0.0))
  }

  predicate UsageAbove(quota: QuotaState, threshold: real) {
    quota.usage.Some? && quota.usage.value.used > threshold
  }

  predicate UsageAtLeast(quota: QuotaState, threshold: real) {
    quota.usage.Some? && quota.usage.value.used >= threshold
  }

  // ----- which reasons reject a candidate -----

  predicate FitRejects(reason: Reason, option: Proposal, demands: Demands) {
    var candidate := option.candidate;
    match reason
    case CompletionTooLow => candidate.successEstimate + TOLERANCE < demands.completion
    case ReliabilityTooLow => 1.0 - candidate.badEscapeEstimate + TOLERANCE < demands.quality
    case ProofTierUnavailable => !option.proofAvailable
    case ProofTierTooWeak => ProofTierRank(candidate.proofTier) < ProofTierRank(demands.proofTier)
    case CriticalNeedsSol => Critical(demands.features) && candidate.family != Sol
    case DestructiveLuna => demands.features.destructivePotential >= 0.7 && candidate.family == Luna
    case _ => false
  }

  predicate QuotaRejects(reason: Reason, candidate: Candidate, quota: QuotaState, settings: Settings) {
    match reason
    case QuotaExhausted => QuotaSpent(quota)
    case MaxDisabled => candidate.effort == "max" && !settings.enableMax
    case MaxUsageUnknown => candidate.effort == "max" && !Known(quota)
    case MaxUsageTooHigh => candidate.effort == "max" && UsageAbove(quota, settings.maximumUsageForMax)
    case _ => false
  }

  predicate UltraRejects(reason: Reason, candidate: Candidate, features: Features, quota: QuotaState,
                         settings: Settings)
  {
    candidate.topology == Ultra &&
    match reason
    case UltraDisabled => !settings.enableUltra
    case UltraUsageUnknown => !Known(quota)
    case UltraUsageTooHigh => UsageAbove(quota, settings.maximumUsageForUltra)
    case UltraNotParallel => features.parallelizability < 0.62
    case UltraTooNarrow => features.breadth < 0.48
    case UltraProofTooWeak => ProofTierRank(candidate.proofTier) < ProofTierRank(Strong)
    case _ => false
  }

  predicate PremiumRejects(reason: Reason, latencySensitivity: real, quota: QuotaState, settings: Settings,
                           constraints: Constraints)
  {
    match reason
    case PremiumUsageUnknown => !Known(quota)
    case PremiumUsageTooHigh => UsageAtLeast(quota, settings.maximumUsageForPremium)
    case PremiumInBackground => constraints.speedMode.Some? && !constraints.foreground
    case PremiumWithoutDemand => constraints.speedMode == Some(Auto) && !Demanding(constraints)
    case PremiumNotUrgent =>
      constraints.speedMode.None? && constraints.speedId.None? && latencySensitivity < settings.minimumLatencyForPremium
    case _ => false
  }

  predicate BudgetRejects(reason: Reason, candidate: Candidate, constraints: Constraints) {
    match reason
    case DeadlineMissed => constraints.deadline.Some? && candidate.predictedP90Duration > constraints.deadline.value
    case CreditsExceeded =>
      constraints.maximumCredits.Some? && candidate.predictedCredits > constraints.maximumCredits.value
    case _ => false
  }

  predicate Rejects(reason: Reason, option: Proposal, demands: Demands, quota: QuotaState, settings: Settings,
                    constraints: Constraints)
  {
    || FitRejects(reason, option, demands)
    || QuotaRejects(reason, option.candidate, quota, settings)
    || UltraRejects(reason, option.candidate, demands.features, quota, settings)
    || (option.premium && PremiumRejects(reason, demands.features.latencySensitivity, quota, settings, constraints))
    || BudgetRejects(reason, option.candidate, constraints)
  }

  // ----- the gates -----

  method Push(reasons: seq<Reason>, rejected: bool, reason: Reason) returns (reasons': seq<Reason>)
    ensures forall r :: r in reasons' <==> r in reasons || (rejected && r == reason)
  {
    reasons' := if rejected then reasons + [reason] else reasons;
  }

  method FitReasons(option: Proposal, demands: Demands) returns (reasons: seq<Reason>)
    ensures forall reason :: reason in reasons <==> FitRejects(reason, option, demands)
  {
    var candidate, features := option.candidate, demands.features;
    reasons := Push([], candidate.successEstimate + TOLERANCE < demands.completion, CompletionTooLow);
    reasons := Push(reasons, 1.0 - candidate.badEscapeEstimate + TOLERANCE < demands.quality, ReliabilityTooLow);
    reasons := Push(reasons, !option.proofAvailable, ProofTierUnavailable);
    reasons := Push(reasons, ProofTierRank(candidate.proofTier) < ProofTierRank(demands.proofTier), ProofTierTooWeak);
    reasons := Push(reasons, Critical(features) && candidate.family != Sol, CriticalNeedsSol);
    reasons := Push(reasons, features.destructivePotential >= 0.7 && candidate.family == Luna, DestructiveLuna);
  }

  method QuotaReasons(candidate: Candidate, quota: QuotaState, settings: Settings) returns (reasons: seq<Reason>)
    ensures forall reason :: reason in reasons <==> QuotaRejects(reason, candidate, quota, settings)
  {
    reasons := Push([], QuotaSpent(quota), QuotaExhausted);
    reasons := Push(reasons, candidate.effort == "max" && !settings.enableMax, MaxDisabled);
    if candidate.effort == "max" && !Known(quota) {
      reasons := reasons + [MaxUsageUnknown];
    } else if candidate.effort == "max" && UsageAbove(quota, settings.maximumUsageForMax) {
      reasons := reasons + [MaxUsageTooHigh];
    }
  }

  method UltraReasons(candidate: Candidate, features: Features, quota: QuotaState, settings: Settings)
    returns (reasons: seq<Reason>)
    ensures forall reason :: reason in reasons <==> UltraRejects(reason, candidate, features, quota, settings)
  {
    if candidate.topology != Ultra {
      return [];
    }
    reasons := Push([], !settings.enableUltra, UltraDisabled);
    if !Known(quota) {
      reasons := reasons + [UltraUsageUnknown];
    } else if UsageAbove(quota, settings.maximumUsageForUltra) {
      reasons := reasons + [UltraUsageTooHigh];
    }
    reasons := Push(reasons, features.parallelizability < 0.62, UltraNotParallel);
    reasons := Push(reasons, features.breadth < 0.48, UltraTooNarrow);
    reasons := Push(reasons, ProofTierRank(candidate.proofTier) < ProofTierRank(Strong), UltraProofTooWeak);
  }

  method PremiumReasons(latencySensitivity: real, quota: QuotaState, settings: Settings, constraints: Constraints)
    returns (reasons: seq<Reason>)
    ensures forall reason ::
              reason in reasons <==> PremiumRejects(reason, latencySensitivity, quota, settings, constraints)
  {
    reasons := [];
    if !Known(quota) {
      reasons := reasons + [PremiumUsageUnknown];
    } else if UsageAtLeast(quota, settings.maximumUsageForPremium) {
      reasons := reasons + [PremiumUsageTooHigh];
    }
    reasons := Push(reasons, constraints.speedMode.Some? && !constraints.foreground, PremiumInBackground);
    if constraints.speedMode == Some(Auto) && !Demanding(constraints) {
      reasons := reasons + [PremiumWithoutDemand];
    } else if
      constraints.speedMode.None? && constraints.speedId.None? && latencySensitivity < settings.minimumLatencyForPremium
    {
      reasons := reasons + [PremiumNotUrgent];
    }
  }

  method BudgetReasons(candidate: Candidate, constraints: Constraints) returns (reasons: seq<Reason>)
    ensures forall reason :: reason in reasons <==> BudgetRejects(reason, candidate, constraints)
  {
    reasons := Push([], constraints.deadline.Some? && candidate.predictedP90Duration > constraints.deadline.value,
                    DeadlineMissed);
    reasons := Push(reasons,
                    constraints.maximumCredits.Some? && candidate.predictedCredits > constraints.maximumCredits.value,
                    CreditsExceeded);
  }

  /** A candidate is admissible exactly when no gate rejects it. */
  ghost predicate Gated(scored: Candidate, option: Proposal, demands: Demands, quota: QuotaState, settings: Settings,
                        constraints: Constraints) {
    scored == option.candidate.(admissible := scored.admissible) &&
    (scored.admissible <==> forall reason :: !Rejects(reason, option, demands, quota, settings, constraints))
  }

  method ScoreCandidate(option: Proposal, demands: Demands, quota: QuotaState, settings: Settings,
                        constraints: Constraints)
    returns (scored: Candidate, reasons: seq<Reason>)
    ensures forall reason :: reason in reasons <==> Rejects(reason, option, demands, quota, settings, constraints)
    ensures Gated(scored, option, demands, quota, settings, constraints)
    ensures scored.admissible <==> reasons == []
  {
    reasons := FitReasons(option, demands);
    var quotaReasons := QuotaReasons(option.candidate, quota, settings);
    var ultraReasons := UltraReasons(option.candidate, demands.features, quota, settings);
    reasons := reasons + quotaReasons + ultraReasons;
    if option.premium {
      var premiumReasons := PremiumReasons(demands.features.latencySensitivity, quota, settings, constraints);
      reasons := reasons + premiumReasons;
    }
    var budgetReasons := BudgetReasons(option.candidate, constraints);
    reasons := reasons + budgetReasons;
    scored := option.candidate.(admissible := reasons == []);
    assert reasons != [] ==> reasons[0] in reasons;
  }

  lemma FitOnFields(option: Proposal, demands: Demands)
    ensures var candidate, f := option.candidate, demands.features;
            (forall reason :: !FitRejects(reason, option, demands)) <==>
              && candidate.successEstimate + 0.000000001 >= demands.completion
              && 1.0 - candidate.badEscapeEstimate + 0.000000001 >= demands.quality
              && option.proofAvailable && ProofTierRank(candidate.proofTier) >= ProofTierRank(demands.proofTier)
              && (f.risk >= 0.72 || f.destructivePotential >= 0.72 ==> candidate.family == Sol)
              && (f.destructivePotential >= 0.7 ==> candidate.family != Luna)
  {
    if forall reason :: !FitRejects(reason, option, demands) {
      assert !FitRejects(CompletionTooLow, option, demands) && !FitRejects(ReliabilityTooLow, option, demands);
      assert !FitRejects(ProofTierUnavailable, option, demands) && !FitRejects(ProofTierTooWeak, option, demands);
      assert !FitRejects(CriticalNeedsSol, option, demands) && !FitRejects(DestructiveLuna, option, demands);
    }
  }

  lemma QuotaOnFields(candidate: Candidate, quota: QuotaState, settings: Settings)
    ensures var used := quota.usage;
            (forall reason :: !QuotaRejects(reason, candidate, quota, settings)) <==>
              && !quota.exhausted && (used.Some? ==> used.value.used < 100.0 && used.value.remaining > 0.0)
              && (candidate.effort == "max" ==>
                    settings.enableMax && used.Some? && used.value.used <= settings.maximumUsageForMax)
  {
    if forall reason :: !QuotaRejects(reason, candidate, quota, settings) {
      assert !QuotaRejects(QuotaExhausted, candidate, quota, settings);
      assert !QuotaRejects(MaxDisabled, candidate, quota, settings);
      assert !QuotaRejects(MaxUsageUnknown, candidate, quota, settings);
      assert !QuotaRejects(MaxUsageTooHigh, candidate, quota, settings);
    }
  }

  lemma UltraOnFields(candidate: Candidate, f: Features, quota: QuotaState, settings: Settings)
    ensures var used := quota.usage;
            (forall reason :: !UltraRejects(reason, candidate, f, quota, settings)) <==>
              (candidate.topology == Ultra ==>
                 && settings.enableUltra && used.Some? && used.value.used <= settings.maximumUsageForUltra
                 && f.parallelizability >= 0.62 && f.breadth >= 0.48
                 && candidate.proofTier in {Strong, Adversarial})
  {
    if forall reason :: !UltraRejects(reason, candidate, f, quota, settings) {
      assert !UltraRejects(UltraDisabled, candidate, f, quota, settings);
      assert !UltraRejects(UltraUsageUnknown, candidate, f, quota, settings);
      assert !UltraRejects(UltraUsageTooHigh, candidate, f, quota, settings);
      assert !UltraRejects(UltraNotParallel, candidate, f, quota, settings);
      assert !UltraRejects(UltraTooNarrow, candidate, f, quota, settings);
      assert !UltraRejects(UltraProofTooWeak, candidate, f, quota, settings);
    }
  }

  lemma PremiumOnFields(sensitivity: real, quota: QuotaState, settings: Settings, constraints: Constraints)
    ensures var used := quota.usage;
            (forall reason :: !PremiumRejects(reason, sensitivity, quota, settings, constraints)) <==>
              && used.Some? && used.value.used < settings.maximumUsageForPremium
              && (constraints.speedMode.Some? ==> constraints.foreground)
              && (constraints.speedMode == Some(Auto) ==> constraints.urgent || constraints.deadline.Some?)
              && (constraints.speedMode.None? && constraints.speedId.None? ==>
                    sensitivity >= settings.minimumLatencyForPremium)
  {
    if forall reason :: !PremiumRejects(reason, sensitivity, quota, settings, constraints) {
      assert !PremiumRejects(PremiumUsageUnknown, sensitivity, quota, settings, constraints);
      assert !PremiumRejects(PremiumUsageTooHigh, sensitivity, quota, settings, constraints);
      assert !PremiumRejects(PremiumInBackground, sensitivity, quota, settings, constraints);
      assert !PremiumRejects(PremiumWithoutDemand, sensitivity, quota, settings, constraints);
      assert !PremiumRejects(PremiumNotUrgent, sensitivity, quota, settings, constraints);
    }
  }

  lemma BudgetOnFields(candidate: Candidate, constraints: Constraints)
    ensures (forall reason :: !BudgetRejects(reason, candidate, constraints)) <==>
              && (constraints.deadline.Some? ==> candidate.predictedP90Duration <= constraints.deadline.value)
              && (constraints.maximumCredits.Some? ==> candidate.predictedCredits <= constraints.maximumCredits.value)
  {
    if forall reason :: !BudgetRejects(reason, candidate, constraints) {
      assert !BudgetRejects(DeadlineMissed, candidate, constraints);
      assert !BudgetRejects(CreditsExceeded, candidate, constraints);
    }
  }

  /** No gate rejects exactly if no group of gates does. */
  lemma GatesByGroup(option: Proposal, demands: Demands, quota: QuotaState, settings: Settings,
                     constraints: Constraints)
    ensures (forall reason :: !Rejects(reason, option, demands, quota, settings, constraints)) <==>
              && (forall reason :: !FitRejects(reason, option, demands))
              && (forall reason :: !QuotaRejects(reason, option.candidate, quota, settings))
              && (forall reason :: !UltraRejects(reason, option.candidate, demands.features, quota, settings))
              && (option.premium ==>
                    forall reason ::
                      !PremiumRejects(reason, demands.features.latencySensitivity, quota, settings, constraints))
              && (forall reason :: !BudgetRejects(reason, option.candidate, constraints))
  {
    hide FitRejects, QuotaRejects, UltraRejects, PremiumRejects, BudgetRejects;
    if forall reason :: !Rejects(reason, option, demands, quota, settings, constraints) {
      forall reason
        ensures !FitRejects(reason, option, demands) && !QuotaRejects(reason, option.candidate, quota, settings)
        ensures !UltraRejects(reason, option.candidate, demands.features, quota, settings)
        ensures option.premium ==>
                  !PremiumRejects(reason, demands.features.latencySensitivity, quota, settings, constraints)
        ensures !BudgetRejects(reason, option.candidate, constraints)
      {
        assert !Rejects(reason, option, demands, quota, settings, constraints);
      }
    }
  }

  /**
   What a route has to be like to be admissible: good enough for the task, with a proof tier that is there and strong
   enough; sol for a critical task and not luna for a destructive one; and within what the quota, the settings and the
   constraints allow for its effort, topology, speed and cost.
   */
  lemma AdmissibleOnFields(scored: Candidate, option: Proposal, demands: Demands, quota: QuotaState,
                           settings: Settings, constraints: Constraints)
    requires Gated(scored, option, demands, quota, settings, constraints)
    ensures var candidate, f, used := option.candidate, demands.features, quota.usage;
            scored.admissible <==>
              && candidate.successEstimate + 0.000000001 >= demands.completion
              && 1.0 - candidate.badEscapeEstimate + 0.000000001 >= demands.quality
              && option.proofAvailable && ProofTierRank(candidate.proofTier) >= ProofTierRank(demands.proofTier)
              && (f.risk >= 0.72 || f.destructivePotential >= 0.72 ==> candidate.family == Sol)
              && (f.destructivePotential >= 0.7 ==> candidate.family != Luna)
              && !quota.exhausted && (used.Some? ==> used.value.used < 100.0 && used.value.remaining > 0.0)
              && (candidate.effort == "max" ==>
                    settings.enableMax && used.Some? && used.value.used <= settings.maximumUsageForMax)
              && (candidate.topology == Ultra ==>
                    && settings.enableUltra && used.Some? && used.value.used <= settings.maximumUsageForUltra
                    && f.parallelizability >= 0.62 && f.breadth >= 0.48
                    && candidate.proofTier in {Strong, Adversarial})
              && (option.premium ==>
                    && used.Some? && used.value.used < settings.maximumUsageForPremium
                    && (constraints.speedMode.Some? ==> constraints.foreground)
                    && (constraints.speedMode == Some(Auto) ==> constraints.urgent || constraints.deadline.Some?)
                    && (constraints.speedMode.None? && constraints.speedId.None? ==>
                          f.latencySensitivity >= settings.minimumLatencyForPremium))
              && (constraints.deadline.Some? ==> candidate.predictedP90Duration <= constraints.deadline.value)
              && (constraints.maximumCredits.Some? ==>
                    candidate.predictedCredits <= constraints.maximumCredits.value)
  {
    hide FitRejects, QuotaRejects, UltraRejects, PremiumRejects, BudgetRejects, Rejects;
    GatesByGroup(option, demands, quota, settings, constraints);
    FitOnFields(option, demands);
    QuotaOnFields(option.candidate, quota, settings);
    UltraOnFields(option.candidate, demands.features, quota, settings);
    PremiumOnFields(demands.features.latencySensitivity, quota, settings, constraints);
    BudgetOnFields(option.candidate, constraints);
  }

  /** With the quota spent, no candidate passes its gates. */
  lemma SpentQuotaRejectsAll(scored: Candidate, option: Proposal, demands: Demands, quota: QuotaState,
                             settings: Settings, constraints: Constraints)
    requires Gated(scored, option, demands, quota, settings, constraints) && QuotaSpent(quota)
    ensures !scored.admissible
  {
    assert Rejects(QuotaExhausted, option, demands, quota, settings, constraints);
  }

  // ----- deduplication -----

  /** What a route is told apart by. */
  datatype Route = Route(modelId: string, effort: string, speedId: string, topology: Topology, proofTier: ProofTier)

  function RouteOf(candidate: Candidate): Route {
    Route(candidate.modelId, candidate.effort, candidate.speedId, candidate.topology, candidate.proofTier)
  }

  function RouteId(route: Route): string {
    route.modelId + ":" +
    (route.effort + ":" + (route.speedId + ":" + (TopologyName(route.topology) + ":" + ProofTierName(route.proofTier))))
  }

  function CandidateId(candidate: Candidate): string {
    RouteId(RouteOf(candidate))
  }

  predicate ColonFree(route: Route) {
    ':' !in route.modelId && ':' !in route.effort && ':' !in route.speedId
  }

  /** Without colons in its parts the id tells routes apart. */
  lemma RouteIdInjective(left: Route, right: Route)
    requires ColonFree(left) && ColonFree(right) && RouteId(left) == RouteId(right)
    ensures left == right
  {
    var lt, rt := TopologyName(left.topology), TopologyName(right.topology);
    var lp, rp := ProofTierName(left.proofTier), ProofTierName(right.proofTier);
    SplitAt(':', left.modelId, left.effort + ":" + (left.speedId + ":" + (lt + ":" + lp)),
            right.modelId, right.effort + ":" + (right.speedId + ":" + (rt + ":" + rp)));
    SplitAt(':', left.effort, left.speedId + ":" + (lt + ":" + lp), right.effort,
            right.speedId + ":" + (rt + ":" + rp));
    SplitAt(':', left.speedId, lt + ":" + lp, right.speedId, rt + ":" + rp);
    SplitAt(':', lt, lp, rt, rp);
    assert |lt| == |rt| && |lp| == |rp| && lp[1] == rp[1];
  }

  /** Where the candidate kept for an id stands: the first with the least objective among those with the id. */
  ghost predicate KeptAt(candidates: seq<Candidate>, id: string, k: nat) {
    && k < |candidates| && CandidateId(candidates[k]) == id
    && (forall j: nat | j < |candidates| && CandidateId(candidates[j]) == id ::
          candidates[k].objective <= candidates[j].objective)
    && (forall j: nat | j < k && CandidateId(candidates[j]) == id :: candidates[k].objective < candidates[j].objective)
  }

  ghost predicate KeptFor(candidates: seq<Candidate>, id: string, candidate: Candidate) {
    exists k: nat :: KeptAt(candidates, id, k) && candidate == candidates[k]
  }

  /** Ids in the order of their first candidate, each with the candidate kept for it. */
  ghost predicate Deduplicated(candidates: seq<Candidate>, ids: seq<string>, kept: map<string, Candidate>) {
    && (forall id :: id in ids <==> id in kept)
    && (forall candidate <- candidates :: CandidateId(candidate) in kept)
    && (forall id <- kept :: KeptFor(candidates, id, kept[id]))
    && (forall i, j | 0 <= i < j < |ids| :: ids[i] != ids[j])
  }

  /** A better candidate replaces the kept one, a worse or equal one does not. */
  lemma KeptForSnoc(candidates: seq<Candidate>, candidate: Candidate, id: string, kept: Candidate)
    requires KeptFor(candidates, id, kept)
    ensures KeptFor(candidates + [candidate], id,
                    if CandidateId(candidate) == id && candidate.objective < kept.objective then candidate else kept)
  {
    hide CandidateId;
    var all := candidates + [candidate];
    var k: nat :| KeptAt(candidates, id, k) && kept == candidates[k];
    assert forall j | 0 <= j < |candidates| :: all[j] == candidates[j];
    if CandidateId(candidate) == id && candidate.objective < kept.objective {
      assert KeptAt(all, id, |candidates|);
    } else {
      assert KeptAt(all, id, k);
    }
  }

  lemma KeptForFirst(candidates: seq<Candidate>, candidate: Candidate)
    requires forall other <- candidates :: CandidateId(other) != CandidateId(candidate)
    ensures KeptFor(candidates + [candidate], CandidateId(candidate), candidate)
  {
    hide CandidateId;
    var all := candidates + [candidate];
    assert forall j | 0 <= j < |candidates| :: all[j] == candidates[j] && all[j] in candidates;
    assert KeptAt(all, CandidateId(candidate), |candidates|);
  }

  method KeepBest(ghost candidates: seq<Candidate>, candidate: Candidate, ids: seq<string>,
                  kept: map<string, Candidate>)
    returns (ids': seq<string>, kept': map<string, Candidate>)
    requires Deduplicated(candidates, ids, kept)
    ensures Deduplicated(candidates + [candidate], ids', kept')
  {
    hide CandidateId, KeptFor;
    var id := CandidateId(candidate);
    ids', kept' := ids, kept;
    if id !in kept {
      ids', kept' := ids + [id], kept[id := candidate];
      KeptForFirst(candidates, candidate);
    } else if candidate.objective < kept[id].objective {
      kept' := kept[id := candidate];
    }
    forall other <- kept' ensures KeptFor(candidates + [candidate], other, kept'[other]) {
      if other in kept {
        KeptForSnoc(candidates, candidate, other, kept[other]);
      }
    }
  }

  function Values(ids: seq<string>, kept: map<string, Candidate>): seq<Candidate>
    requires forall id <- ids :: id in kept
  {
    if ids == [] then [] else Values(ids[..|ids| - 1], kept) + [kept[Last(ids)]]
  }

  lemma {:induction false} ValuesMembers(ids: seq<string>, kept: map<string, Candidate>)
    requires forall id <- ids :: id in kept
    ensures |Values(ids, kept)| == |ids| && forall i | 0 <= i < |ids| :: Values(ids, kept)[i] == kept[ids[i]]
  {
    if ids != [] {
      ValuesMembers(ids[..|ids| - 1], kept);
    }
  }

  /** Exactly the kept candidates, one for each id. */
  ghost predicate IsDeduplication(unique: seq<Candidate>, candidates: seq<Candidate>) {
    && (forall candidate <- unique :: KeptFor(candidates, CandidateId(candidate), candidate))
    && (forall candidate <- candidates :: exists u <- unique :: CandidateId(u) == CandidateId(candidate))
    && (forall i, j | 0 <= i < j < |unique| :: CandidateId(unique[i]) != CandidateId(unique[j]))
  }

  method DeduplicateCandidates(candidates: seq<Candidate>) returns (unique: seq<Candidate>)
    ensures IsDeduplication(unique, candidates)
  {
    var ids: seq<string>, kept: map<string, Candidate> := [], map[];
    for i := 0 to |candidates|
      invariant Deduplicated(candidates[..i], ids, kept)
    {
      ids, kept := KeepBest(candidates[..i], candidates[i], ids, kept);
      assert candidates[..i] + [candidates[i]] == candidates[..i + 1];
    }
    assert candidates[..|candidates|] == candidates;
    unique := Values(ids, kept);
    DeduplicatedValues(candidates, ids, kept);
  }

  lemma DeduplicatedValues(candidates: seq<Candidate>, ids: seq<string>, kept: map<string, Candidate>)
    requires Deduplicated(candidates, ids, kept)
    ensures IsDeduplication(Values(ids, kept), candidates)
  {
    hide CandidateId, KeptFor;
    var unique := Values(ids, kept);
    ValuesMembers(ids, kept);
    forall i | 0 <= i < |ids| ensures CandidateId(unique[i]) == ids[i] {
      KeptForHasId(candidates, ids[i], kept[ids[i]]);
    }
    forall candidate <- candidates ensures exists u <- unique :: CandidateId(u) == CandidateId(candidate) {
      var i :| 0 <= i < |ids| && ids[i] == CandidateId(candidate);
      assert unique[i] in unique;
    }
  }

  lemma KeptForHasId(candidates: seq<Candidate>, id: string, kept: Candidate)
    requires KeptFor(candidates, id, kept)
    ensures CandidateId(kept) == id && kept in candidates
  {
  }
}
