/** Route candidates and task features, as the router scores them and its consumers read them. */
module Routes {
  import opened Common

  datatype Family = Luna | Terra | Sol | UnknownFamily
  datatype Topology = Single | Ultra
  datatype ProofTier = Basic | Standard | Strong | Adversarial

  datatype Candidate = Candidate(
    modelId: string,
    family: Family,
    effort: string,
    topology: Topology,
    speedId: string,
    serviceTier: Option<string>,
    proofTier: ProofTier,
    predictedDuration: real,
    predictedP90Duration: real,
    predictedCredits: real,
    capabilityScore: real,
    successEstimate: real,
    badEscapeEstimate: real,
    objective: real,
    admissible: bool)

  datatype Features = Features(
    ambiguity: real,
    breadth: real,
    depth: real,
    risk: real,
    novelty: real,
    parallelizability: real,
    destructivePotential: real,
    latencySensitivity: real)

  function ProofTierRank(tier: ProofTier): nat {
    match tier
    case Basic => 0
    case Standard => 1
    case Strong => 2
    case Adversarial => 3
  }

  function TopologyName(topology: Topology): string {
    match topology
    case Single => "single"
    case Ultra => "ultra"
  }

  function ProofTierName(tier: ProofTier): string {
    match tier
    case Basic => "basic"
    case Standard => "standard"
    case Strong => "strong"
    case Adversarial => "adversarial"
  }
}
