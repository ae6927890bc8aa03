/**
 The capability graph over admissible routes, and the choice of a strictly stronger successor in it.
 */
module CapabilityGraph {
  import opened Common
  import opened Order
  import opened Routes

  const NUL := "\0"

  const EFFORT_ORDER := ["none", "minimal", "low", "light", "medium", "high", "xhigh", "max", "ultra"]

  function IndexOf(order: seq<string>, name: string): (index: Option<nat>)
    ensures index.Some? ==> index.value < |order| && order[index.value] == name
    ensures index.None? ==> name !in order
  {
    if order == [] then None
    else if order[0] == name then Some(0)
    else
      match IndexOf(order[1..], name)
      case Some(index) => Some(index + 1)
      case None => None
  }

  function EffortRank(effort: string): (rank: Option<nat>)
    ensures rank.Some? ==> rank.value <= 8
  {
    IndexOf(EFFORT_ORDER, effort)
  }

  lemma {:induction false} FirstIndex(order: seq<string>, i: nat)
    requires i < |order| && forall j | 0 <= j < i :: order[j] != order[i]
    ensures IndexOf(order, order[i]) == Some(i)
  {
    if i > 0 {
      FirstIndex(order[1..], i - 1);
    }
  }

  /** The nine known efforts, from the least to the greatest; no other effort has a rank. */
  lemma EffortRanks(effort: string)
    ensures var efforts := ["none", "minimal", "low", "light", "medium", "high", "xhigh", "max", "ultra"];
            && (forall i | 0 <= i < 9 :: EffortRank(efforts[i]) == Some(i))
            && (EffortRank(effort).Some? <==> effort in efforts)
  {
    forall i | 0 <= i < 9 ensures EffortRank(EFFORT_ORDER[i]) == Some(i) {
      FirstIndex(EFFORT_ORDER, i);
    }
  }

  // ----- nodes and their keys -----

  /** A route's capability, with the rank of its effort looked up once. */
  datatype Node = Node(key: string, modelId: string, family: Family, effort: string, topology: Topology,
                       rank: Option<nat>)

  function Join(left: string, right: string): string {
    left + NUL + right
  }

  function NodeKey(modelId: string, effort: string, topology: Topology): string {
    Join(modelId, Join(effort, TopologyName(topology)))
  }

  function CandidateKey(candidate: Candidate): string {
    NodeKey(candidate.modelId, candidate.effort, candidate.topology)
  }

  function NodeOf(candidate: Candidate): Node {
    Node(CandidateKey(candidate), candidate.modelId, candidate.family, candidate.effort, candidate.topology,
         EffortRank(candidate.effort))
  }

  predicate NulFree(s: string) {
    NUL[0] !in s
  }

  predicate PlainCandidate(candidate: Candidate) {
    NulFree(candidate.modelId) && NulFree(candidate.effort)
  }

  lemma JoinInjective(a: string, x: string, b: string, y: string)
    requires NulFree(a) && NulFree(b)
    requires Join(a, x) == Join(b, y)
    ensures a == b && x == y
  {
    SplitAt(NUL[0], a, x, b, y);
  }

  /** NUL-free parts make the joined key injective. */
  lemma NodeKeyInjective(left: Candidate, right: Candidate)
    requires PlainCandidate(left) && PlainCandidate(right)
    requires CandidateKey(left) == CandidateKey(right)
    ensures left.modelId == right.modelId && left.effort == right.effort && left.topology == right.topology
  {
    JoinInjective(left.modelId, Join(left.effort, TopologyName(left.topology)),
                  right.modelId, Join(right.effort, TopologyName(right.topology)));
    JoinInjective(left.effort, TopologyName(left.topology), right.effort, TopologyName(right.topology));
  }

  /** A (model, topology) group key is injective for any model id at all. */
  lemma GroupKeyInjective(m1: string, t1: Topology, m2: string, t2: Topology)
    requires Join(m1, TopologyName(t1)) == Join(m2, TopologyName(t2))
    ensures m1 == m2 && t1 == t2
  {
    var s, t := Join(m1, TopologyName(t1)), Join(m2, TopologyName(t2));
    assert Last(s) == Last(TopologyName(t1));
    assert Last(t) == Last(TopologyName(t2));
    assert t1 == t2;
    assert m1 == s[..|s| - |TopologyName(t1)| - 1];
    assert m2 == t[..|t| - |TopologyName(t2)| - 1];
  }

  /** The node of every admissible candidate by its key; a later candidate replaces an earlier one. */
  function NodesOf(candidates: seq<Candidate>): map<string, Node> {
    if candidates == [] then map[]
    else
      var before := NodesOf(candidates[..|candidates| - 1]);
      var candidate := Last(candidates);
      if candidate.admissible then before[CandidateKey(candidate) := NodeOf(candidate)] else before
  }

  lemma {:induction false} NodesOfOrigin(candidates: seq<Candidate>)
    ensures forall key :: key in NodesOf(candidates) <==>
                          exists c :: c in candidates && c.admissible && CandidateKey(c) == key
    ensures forall key <- NodesOf(candidates) ::
              exists c ::
                  c in candidates && c.admissible && CandidateKey(c) == key && NodesOf(candidates)[key] == NodeOf(c)
  {
    if candidates != [] {
      var before := candidates[..|candidates| - 1];
      NodesOfOrigin(before);
      assert candidates == before + [Last(candidates)];
    }
  }

  /** Nodes are told apart by their keys, each key spells out its node, and equal ranks are equal efforts. */
  predicate WellKeyed(nodes: set<Node>) {
    && (forall n <- nodes :: n.key == NodeKey(n.modelId, n.effort, n.topology))
    && (forall n <- nodes :: n.rank.Some? ==> n.rank.value <= 8)
    && (forall m <- nodes, n <- nodes :: m.key == n.key ==> m == n)
    && (forall m <- nodes, n <- nodes :: m.rank.Some? && m.rank == n.rank ==> m.effort == n.effort)
  }

  // ----- edges -----

  datatype Reason = HigherEffort | TaskApplicableFamily | TaskApplicableTopology

  datatype Edge = Edge(from: string, to: string, reason: Reason)

  datatype Graph = Graph(nodes: seq<string>, edges: seq<Edge>)

  function ReasonName(reason: Reason): string {
    match reason
    case HigherEffort => "higher-effort"
    case TaskApplicableFamily => "task-applicable-family"
    case TaskApplicableTopology => "task-applicable-topology"
  }

  function EdgeKey(edge: Edge): string {
    Join(edge.from, Join(edge.to, ReasonName(edge.reason)))
  }

  predicate SameGroup(u: Node, v: Node) {
    u.modelId == v.modelId && u.topology == v.topology
  }

  predicate RanksBelow(u: Node, v: Node) {
    u.rank.Some? && v.rank.Some? && u.rank.value < v.rank.value
  }

  /** v is the next effort above u in their group. */
  predicate NextEffort(nodes: set<Node>, u: Node, v: Node) {
    && SameGroup(u, v)
    && RanksBelow(u, v)
    && forall w <- nodes :: SameGroup(u, w) ==> !(RanksBelow(u, w) && RanksBelow(w, v))
  }

  function FamilySuccessor(family: Family): Option<Family> {
    match family
    case Luna => Some(Terra)
    case Terra => Some(Sol)
    case _ => None
  }

  predicate FamilyEscalationApplicable(family: Family, f: Features) {
    match family
    case Luna => f.depth >= 0.32 || f.risk >= 0.3 || f.novelty >= 0.38 || f.breadth >= 0.42
    case Terra => f.depth >= 0.55 || f.risk >= 0.5 || f.novelty >= 0.58 || (f.depth >= 0.38 && f.breadth >= 0.5)
    case _ => false
  }

  predicate AtLeastAsMuchEffort(u: Node, v: Node) {
    u.rank.Some? && v.rank.Some? && v.rank.value >= u.rank.value
  }

  predicate FamilyTarget(f: Features, u: Node, v: Node) {
    && FamilyEscalationApplicable(u.family, f)
    && FamilySuccessor(u.family) == Some(v.family)
    && v.topology == u.topology
    && AtLeastAsMuchEffort(u, v)
  }

  predicate TopologyTarget(f: Features, u: Node, v: Node) {
    && f.parallelizability >= 0.62 && f.breadth >= 0.48
    && u.topology == Single && v.topology == Ultra
    && v.modelId == u.modelId
    && AtLeastAsMuchEffort(u, v)
  }

  predicate Target(f: Features, reason: Reason, u: Node, v: Node) {
    match reason
    case HigherEffort => SameGroup(u, v) && RanksBelow(u, v)
    case TaskApplicableFamily => FamilyTarget(f, u, v)
    case TaskApplicableTopology => TopologyTarget(f, u, v)
  }

  /** Every edge leads to a target of least effort among the targets its reason offers. */
  predicate Leads(nodes: set<Node>, f: Features, reason: Reason, u: Node, v: Node) {
    && Target(f, reason, u, v)
    && forall w <- nodes :: Target(f, reason, u, w) ==> !RanksBelow(w, v)
  }

  function EdgesFor(nodes: set<Node>, f: Features, reason: Reason): set<Edge> {
    set u <- nodes, v <- nodes | Leads(nodes, f, reason, u, v) :: Edge(u.key, v.key, reason)
  }

  function EdgeSet(nodes: set<Node>, f: Features): set<Edge> {
    EdgesFor(nodes, f, HigherEffort) + EdgesFor(nodes, f, TaskApplicableFamily) +
    EdgesFor(nodes, f, TaskApplicableTopology)
  }

  lemma EdgeIsLed(nodes: set<Node>, f: Features, reason: Reason, u: Node, v: Node)
    requires WellKeyed(nodes) && u in nodes && v in nodes
    ensures Edge(u.key, v.key, reason) in EdgeSet(nodes, f) <==> Leads(nodes, f, reason, u, v)
  {
    if Edge(u.key, v.key, reason) in EdgeSet(nodes, f) {
      var s, t :| s in nodes && t in nodes && Leads(nodes, f, reason, s, t) &&
                  Edge(u.key, v.key, reason) == Edge(s.key, t.key, reason);
    }
  }

  /** Effort edges are exactly the covering pairs of the group's effort order. */
  lemma EffortEdgesCover(nodes: set<Node>, f: Features, u: Node, v: Node)
    requires WellKeyed(nodes) && u in nodes && v in nodes
    ensures Edge(u.key, v.key, HigherEffort) in EdgeSet(nodes, f) <==> NextEffort(nodes, u, v)
  {
    EdgeIsLed(nodes, f, HigherEffort, u, v);
  }

  /**
   A family edge leads from luna to terra, or from terra to sol, where the task asks for it: within a topology, to the
   nodes of the next family with the least effort that is no less.
   */
  lemma FamilyEdgesLead(nodes: set<Node>, f: Features, u: Node, v: Node)
    requires WellKeyed(nodes) && u in nodes && v in nodes
    ensures Edge(u.key, v.key, TaskApplicableFamily) in EdgeSet(nodes, f) <==>
              && (|| (&& u.family == Luna && v.family == Terra
                      && (f.depth >= 0.32 || f.risk >= 0.3 || f.novelty >= 0.38 || f.breadth >= 0.42))
                  || (&& u.family == Terra && v.family == Sol
                      && (|| f.depth >= 0.55 || f.risk >= 0.5 || f.novelty >= 0.58
                          || (f.depth >= 0.38 && f.breadth >= 0.5))))
              && u.topology == v.topology && u.rank.Some? && v.rank.Some? && u.rank.value <= v.rank.value
              && forall w <- nodes | w.family == v.family && w.topology == v.topology && w.rank.Some? ::
                   w.rank.value < u.rank.value || v.rank.value <= w.rank.value
  {
    EdgeIsLed(nodes, f, TaskApplicableFamily, u, v);
  }

  /** A topology edge leads from single to ultra, for a parallelizable broad task, within a model and as above. */
  lemma TopologyEdgesLead(nodes: set<Node>, f: Features, u: Node, v: Node)
    requires WellKeyed(nodes) && u in nodes && v in nodes
    ensures Edge(u.key, v.key, TaskApplicableTopology) in EdgeSet(nodes, f) <==>
              && f.parallelizability >= 0.62 && f.breadth >= 0.48
              && u.topology == Single && v.topology == Ultra && u.modelId == v.modelId
              && u.rank.Some? && v.rank.Some? && u.rank.value <= v.rank.value
              && forall w <- nodes | w.topology == Ultra && w.modelId == u.modelId && w.rank.Some? ::
                   w.rank.value < u.rank.value || v.rank.value <= w.rank.value
  {
    EdgeIsLed(nodes, f, TaskApplicableTopology, u, v);
  }

  // ----- acyclicity -----

  function FamilyLevel(family: Family): nat {
    match family
    case Luna => 0
    case Terra => 1
    case Sol => 2
    case UnknownFamily => 0
  }

  /** (effort rank, topology, family), in lexicographic order. */
  predicate StrictlyStronger(u: Node, v: Node) {
    && u.rank.Some? && v.rank.Some?
    && (|| u.rank.value < v.rank.value
        || (u.rank.value == v.rank.value && u.topology == Single && v.topology == Ultra)
        || (u.rank.value == v.rank.value && u.topology == v.topology && FamilyLevel(u.family) < FamilyLevel(v.family)))
  }

  /** The position of a ranked node in that order, from 0 to 53. */
  function Strength(n: Node): (level: nat)
    requires n.rank.Some? && n.rank.value <= 8
    ensures level <= 53
  {
    n.rank.value * 6 + (if n.topology == Ultra then 3 else 0) + FamilyLevel(n.family)
  }

  lemma EveryEdgeRaises(nodes: set<Node>, f: Features, edge: Edge)
    requires WellKeyed(nodes) && edge in EdgeSet(nodes, f)
    ensures exists u, v :: u in nodes && v in nodes && edge.from == u.key && edge.to == v.key && StrictlyStronger(u, v)
  {
    var u, v :| u in nodes && v in nodes && Leads(nodes, f, edge.reason, u, v) &&
                edge == Edge(u.key, v.key, edge.reason);
    assert StrictlyStronger(u, v);
  }

  predicate HasEdge(edges: set<Edge>, from: string, to: string) {
    exists edge <- edges :: edge.from == from && edge.to == to
  }

  /** A walk along edges, given by the keys it visits. */
  ghost predicate Walk(edges: set<Edge>, keys: seq<string>) {
    forall i, j | 0 <= i && j == i + 1 && j < |keys| :: HasEdge(edges, keys[i], keys[j])
  }

  /** The ends of an edge, as nodes. */
  lemma EdgeEnds(nodes: set<Node>, f: Features, from: string, to: string) returns (u: Node, v: Node)
    requires WellKeyed(nodes) && HasEdge(EdgeSet(nodes, f), from, to)
    ensures u in nodes && v in nodes && u.key == from && v.key == to && StrictlyStronger(u, v)
  {
    var edge :| edge in EdgeSet(nodes, f) && edge.from == from && edge.to == to;
    EveryEdgeRaises(nodes, f, edge);
    u, v :| u in nodes && v in nodes && edge.from == u.key && edge.to == v.key && StrictlyStronger(u, v);
  }

  lemma {:induction false} WalkClimbs(nodes: set<Node>, f: Features, keys: seq<string>) returns (u: Node, v: Node)
    requires WellKeyed(nodes)
    requires |keys| >= 2 && Walk(EdgeSet(nodes, f), keys)
    ensures u in nodes && v in nodes && u.key == keys[0] && v.key == Last(keys)
    ensures u.rank.Some? && u.rank.value <= 8 && v.rank.Some? && v.rank.value <= 8
    ensures Strength(u) + |keys| - 1 <= Strength(v)
  {
    var n := |keys| - 2;
    var s;
    s, v := EdgeEnds(nodes, f, keys[n], keys[n + 1]);
    if n == 0 {
      u := s;
    } else {
      var middle;
      u, middle := WalkClimbs(nodes, f, keys[..n + 1]);
      assert middle.key == s.key;
    }
  }

  /** The graph is acyclic, and no walk in it has more than 53 edges. */
  lemma Acyclic(nodes: set<Node>, f: Features, keys: seq<string>)
    requires WellKeyed(nodes) && |keys| >= 2 && Walk(EdgeSet(nodes, f), keys)
    ensures keys[0] != Last(keys)
    ensures |keys| - 1 <= 53
  {
    var u, v := WalkClimbs(nodes, f, keys);
  }

  /** Every higher ranked effort of a group is reachable along its effort edges. */
  lemma {:induction false} HigherEffortReachable(nodes: set<Node>, f: Features, u: Node, v: Node)
    returns (keys: seq<string>)
    requires WellKeyed(nodes) && u in nodes && v in nodes
    requires SameGroup(u, v) && RanksBelow(u, v)
    ensures |keys| >= 2 && keys[0] == u.key && Last(keys) == v.key
    ensures Walk(EdgesFor(nodes, f, HigherEffort), keys)
    decreases v.rank.value - u.rank.value
  {
    if w :| w in nodes && SameGroup(u, w) && RanksBelow(u, w) && RanksBelow(w, v) {
      var lower := HigherEffortReachable(nodes, f, u, w);
      var upper := HigherEffortReachable(nodes, f, w, v);
      keys := lower + upper[1..];
    } else {
      assert Leads(nodes, f, HigherEffort, u, v);
      assert Edge(u.key, v.key, HigherEffort) in EdgesFor(nodes, f, HigherEffort);
      keys := [u.key, v.key];
    }
  }
}
