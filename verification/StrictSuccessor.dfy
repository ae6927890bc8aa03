/** The one route a failed first attempt may escalate to. */
module StrictSuccessor {
  import opened Common
  import opened Order
  import opened Routes
  import opened CapabilityGraph
  import opened CapabilityGraphBuilder

  predicate OneEdgeAbove(graph: Graph, from: Candidate, to: Candidate) {
    exists edge <- graph.edges :: edge.from == CandidateKey(from) && edge.to == CandidateKey(to)
  }

  predicate Eligible(current: Candidate, graph: Graph, candidate: Candidate) {
    && candidate.admissible
    && OneEdgeAbove(graph, current, candidate)
    && candidate.speedId == current.speedId
    && candidate.serviceTier == current.serviceTier
    && ProofTierRank(candidate.proofTier) >= ProofTierRank(current.proofTier)
  }

  function RouteKey(candidate: Candidate): string {
    Join(CandidateKey(candidate), Join(candidate.speedId, ProofTierName(candidate.proofTier)))
  }

  /** Cheaper first, then less capable, then by key. */
  predicate Precedes(left: Candidate, right: Candidate) {
    || left.predictedCredits < right.predictedCredits
    || (&& left.predictedCredits == right.predictedCredits
        && (|| left.capabilityScore < right.capabilityScore
            || (left.capabilityScore == right.capabilityScore && Less(RouteKey(left), RouteKey(right)))))
  }

  lemma PrecedesTransitive(a: Candidate, b: Candidate, c: Candidate)
    requires Precedes(a, b) && Precedes(b, c)
    ensures Precedes(a, c)
  {
    if Less(RouteKey(a), RouteKey(b)) && Less(RouteKey(b), RouteKey(c)) {
      LessTransitive(RouteKey(a), RouteKey(b), RouteKey(c));
    }
  }

  /** The first eligible candidate that no eligible candidate precedes. */
  function SelectStrictSuccessor(current: Candidate, candidates: seq<Candidate>, graph: Graph): Option<Candidate> {
    if candidates == [] then None
    else
      var best := SelectStrictSuccessor(current, candidates[..|candidates| - 1], graph);
      var candidate := Last(candidates);
      if !Eligible(current, graph, candidate) then best
      else if best.None? || Precedes(candidate, best.value) then Some(candidate)
      else best
  }

  /** The choice is eligible and minimal, and there is one whenever any candidate is eligible. */
  lemma {:induction false} SuccessorIsLeast(current: Candidate, candidates: seq<Candidate>, graph: Graph)
    ensures var chosen := SelectStrictSuccessor(current, candidates, graph);
            && (chosen.None? <==> forall c <- candidates :: !Eligible(current, graph, c))
            && (chosen.Some? ==>
                  && chosen.value in candidates && Eligible(current, graph, chosen.value)
                  && forall c <- candidates | Eligible(current, graph, c) :: !Precedes(c, chosen.value))
  {
    if candidates != [] {
      var before, candidate := candidates[..|candidates| - 1], Last(candidates);
      SuccessorIsLeast(current, before, graph);
      assert candidates == before + [candidate];
      var best := SelectStrictSuccessor(current, before, graph);
      if Eligible(current, graph, candidate) {
        NotBeforeItself(candidate);
        if best.Some? && Precedes(candidate, best.value) {
          forall c <- before | Eligible(current, graph, c) ensures !Precedes(c, candidate) {
            if Precedes(c, candidate) {
              PrecedesTransitive(c, candidate, best.value);
            }
          }
        }
      }
    }
  }

  /**
   The successor is an admissible candidate one edge above, at the same speed and service tier and with no weaker proof
   tier; no other such candidate costs less, or as much with less capability. There is one whenever such a candidate is.
   */
  lemma SuccessorOnFields(current: Candidate, candidates: seq<Candidate>, graph: Graph, other: Candidate)
    requires other in candidates && other.admissible
    requires exists edge <- graph.edges :: edge.from == CandidateKey(current) && edge.to == CandidateKey(other)
    requires other.speedId == current.speedId && other.serviceTier == current.serviceTier
    requires ProofTierRank(other.proofTier) >= ProofTierRank(current.proofTier)
    ensures SelectStrictSuccessor(current, candidates, graph).Some?
    ensures var chosen := SelectStrictSuccessor(current, candidates, graph).value;
            && chosen in candidates && chosen.admissible
            && (exists edge <- graph.edges :: edge.from == CandidateKey(current) && edge.to == CandidateKey(chosen))
            && chosen.speedId == current.speedId && chosen.serviceTier == current.serviceTier
            && ProofTierRank(chosen.proofTier) >= ProofTierRank(current.proofTier)
            && chosen.predictedCredits <= other.predictedCredits
            && (chosen.predictedCredits == other.predictedCredits ==> chosen.capabilityScore <= other.capabilityScore)
  {
    SuccessorIsLeast(current, candidates, graph);
    assert Eligible(current, graph, other);
  }

  lemma NotBeforeItself(candidate: Candidate)
    ensures !Precedes(candidate, candidate)
  {
    LessIrreflexive(RouteKey(candidate));
  }

  /** No two candidates share model, effort, topology, speed and proof tier. */
  predicate Deduplicated(candidates: seq<Candidate>) {
    forall c <- candidates, d <- candidates ::
      (c.modelId, c.effort, c.topology, c.speedId, c.proofTier) ==
      (d.modelId, d.effort, d.topology, d.speedId, d.proofTier)
      ==> c == d
  }

  lemma EligibleAreRanked(current: Candidate, candidates: seq<Candidate>, graph: Graph, c: Candidate, d: Candidate)
    requires AllPlain(candidates) && Deduplicated(candidates)
    requires c in candidates && d in candidates && c != d
    requires Eligible(current, graph, c) && Eligible(current, graph, d)
    ensures Precedes(c, d) || Precedes(d, c)
  {
    if RouteKey(c) == RouteKey(d) {
      var tail := Join(c.speedId, ProofTierName(c.proofTier));
      SplitKey(NodeOf(c), tail, NodeOf(d), Join(d.speedId, ProofTierName(d.proofTier)));
      NodeKeyInjective(c, d);
      assert ProofTierName(c.proofTier) == tail[|c.speedId| + 1..];
      assert ProofTierName(d.proofTier) == tail[|c.speedId| + 1..];
      ProofTierNames(c.proofTier, d.proofTier);
    } else {
      LessTotal(RouteKey(c), RouteKey(d));
    }
  }

  lemma ProofTierNames(left: ProofTier, right: ProofTier)
    requires ProofTierName(left) == ProofTierName(right)
    ensures left == right
  {
    assert |ProofTierName(left)| == |ProofTierName(right)|;
    assert ProofTierName(left)[1] == ProofTierName(right)[1];
  }

  /** Whatever order the candidates come in, the same successor is chosen. */
  lemma SuccessorIgnoresOrder(current: Candidate, c1: seq<Candidate>, c2: seq<Candidate>, graph: Graph)
    requires multiset(c1) == multiset(c2)
    requires AllPlain(c1) && Deduplicated(c1)
    ensures SelectStrictSuccessor(current, c1, graph) == SelectStrictSuccessor(current, c2, graph)
  {
    forall c ensures c in c1 <==> c in c2 {
      assert c in c1 <==> c in multiset(c1);
      assert c in c2 <==> c in multiset(c2);
    }
    SuccessorIsLeast(current, c1, graph);
    SuccessorIsLeast(current, c2, graph);
    var s1, s2 := SelectStrictSuccessor(current, c1, graph), SelectStrictSuccessor(current, c2, graph);
    if s1.Some? && s2.Some? && s1 != s2 {
      EligibleAreRanked(current, c1, graph, s1.value, s2.value);
    }
  }

  /** The successor gains capability: it is strictly above the current route in (effort, topology, family). */
  lemma SuccessorIsStrictlyStronger(current: Candidate, candidates: seq<Candidate>, f: Features, graph: Graph)
    requires AllPlain(candidates) && OneFamilyPerKey(candidates) && current in candidates
    requires IsGraphOf(graph, NodesOf(candidates), f)
    requires SelectStrictSuccessor(current, candidates, graph).Some?
    ensures StrictlyStronger(NodeOf(current), NodeOf(SelectStrictSuccessor(current, candidates, graph).value))
  {
    SuccessorIsLeast(current, candidates, graph);
    var chosen := SelectStrictSuccessor(current, candidates, graph).value;
    var edge :| edge in graph.edges && edge.from == CandidateKey(current) && edge.to == CandidateKey(chosen);
    NodesAreWellKeyed(candidates);
    EveryEdgeRaises(NodesOf(candidates).Values, f, edge);
    var u, v :| u in NodesOf(candidates).Values && v in NodesOf(candidates).Values &&
                edge.from == u.key && edge.to == v.key && StrictlyStronger(u, v);
    NodeIsOf(candidates, u, current);
    NodeIsOf(candidates, v, chosen);
  }

  lemma NodeOrigin(candidates: seq<Candidate>, key: string) returns (c: Candidate)
    requires key in NodesOf(candidates)
    ensures c in candidates && CandidateKey(c) == key && NodesOf(candidates)[key] == NodeOf(c)
  {
    NodesOfOrigin(candidates);
    c :| c in candidates && c.admissible && CandidateKey(c) == key && NodesOf(candidates)[key] == NodeOf(c);
  }

  lemma NodeIsOf(candidates: seq<Candidate>, node: Node, candidate: Candidate)
    requires AllPlain(candidates) && OneFamilyPerKey(candidates) && candidate in candidates
    requires node in NodesOf(candidates).Values && node.key == CandidateKey(candidate)
    ensures node == NodeOf(candidate)
  {
    var key :| key in NodesOf(candidates) && NodesOf(candidates)[key] == node;
    var c := NodeOrigin(candidates, key);
    NodeKeyInjective(c, candidate);
  }
}
