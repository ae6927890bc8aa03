/** How the capability graph is built, and that what is built depends on nothing but the set of routes. */
module CapabilityGraphBuilder {
  import opened Common
  import opened Order
  import opened Routes
  import opened CapabilityGraph

  function NodeSet(nodes: seq<Node>): set<Node> {
    set n | n in nodes
  }

  /** The edge map keeps only edges of the specified set, under their keys, and misses no key. */
  predicate Holds(edges: map<string, Edge>, spec: set<Edge>) {
    && (forall key <- edges :: edges[key] in spec && EdgeKey(edges[key]) == key)
    && (forall edge <- spec :: EdgeKey(edge) in edges)
  }

  method AddEdge(edges: map<string, Edge>, from: Node, to: Node, reason: Reason, ghost spec: set<Edge>)
    returns (result: map<string, Edge>)
    requires Holds(edges, spec)
    ensures Holds(result, spec + if from.key == to.key then {} else {Edge(from.key, to.key, reason)})
  {
    if from.key == to.key {
      return edges;
    }
    var edge := Edge(from.key, to.key, reason);
    result := edges[EdgeKey(edge) := edge];
  }

  // ----- effort edges -----

  predicate Ascending(ordered: seq<Node>) {
    && (forall n <- ordered :: n.rank.Some?)
    && (forall i, j | 0 <= i < j < |ordered| :: ordered[i].rank.value < ordered[j].rank.value)
  }

  /** Members of one group with different keys never share a rank. */
  predicate OneGroup(group: seq<Node>) {
    && (forall m <- group, n <- group :: SameGroup(m, n))
    && (forall i, j | 0 <= i < j < |group| :: group[i].rank.Some? ==> group[i].rank != group[j].rank)
  }

  predicate LeastOf(least: Node, rest: set<Node>)
    requires forall n <- rest :: n.rank.Some?
  {
    least in rest && forall n <- rest :: least.rank.value <= n.rank.value
  }

  lemma LeastRankExists(nodes: set<Node>)
    requires nodes != {} && forall n <- nodes :: n.rank.Some?
    ensures exists least :: LeastOf(least, nodes)
  {
    var node :| node in nodes;
    if nodes != {node} {
      LeastRankExists(nodes - {node});
      var least :| LeastOf(least, nodes - {node});
      assert forall n <- nodes :: n == node || n in nodes - {node};
      assert LeastOf(if node.rank.value < least.rank.value then node else least, nodes);
    } else {
      assert LeastOf(node, nodes);
    }
  }

  lemma LeastIsStrict(group: seq<Node>, rest: set<Node>, least: Node)
    requires OneGroup(group) && (forall n <- rest :: n in group && n.rank.Some?) && LeastOf(least, rest)
    ensures forall n <- rest - {least} :: least.rank.value < n.rank.value
  {
    forall n <- rest - {least} ensures least.rank.value < n.rank.value {
      var i :| 0 <= i < |group| && group[i] == least;
      var j :| 0 <= j < |group| && group[j] == n;
    }
  }

  method SortByRank(group: seq<Node>) returns (ordered: seq<Node>)
    requires OneGroup(group)
    ensures Ascending(ordered)
    ensures forall n :: n in ordered <==> n in group && n.rank.Some?
  {
    hide OneGroup;
    ordered := [];
    var rest := set n | n in group && n.rank.Some?;
    while rest != {}
      invariant forall n <- rest :: n in group && n.rank.Some?
      invariant forall n :: n in group && n.rank.Some? <==> n in ordered || n in rest
      invariant Ascending(ordered)
      invariant forall m <- ordered, n <- rest :: m.rank.value < n.rank.value
      decreases rest
    {
      LeastRankExists(rest);
      var least :| LeastOf(least, rest);
      LeastIsStrict(group, rest, least);
      ordered := ordered + [least];
      rest := rest - {least};
    }
  }

  function NodeGroupKey(node: Node): string {
    Join(node.modelId, TopologyName(node.topology))
  }

  /** The items of one key, in their order. */
  ghost function Members<K, T>(items: seq<T>, keyOf: T -> K, key: K): seq<T> {
    if items == [] then []
    else Members(items[..|items| - 1], keyOf, key) + (if keyOf(Last(items)) == key then [Last(items)] else [])
  }

  ghost predicate Grouped<K(!new), T>(groups: map<K, seq<T>>, items: seq<T>, keyOf: T -> K) {
    forall key :: Members(items, keyOf, key) == if key in groups then groups[key] else []
  }

  method GroupBy<K(==, !new), T>(items: seq<T>, keyOf: T -> K) returns (groups: map<K, seq<T>>)
    ensures Grouped(groups, items, keyOf)
  {
    groups := map[];
    for i := 0 to |items|
      invariant Grouped(groups, items[..i], keyOf)
    {
      assert items[..i + 1] == items[..i] + [items[i]];
      var key := keyOf(items[i]);
      groups := groups[key := (if key in groups then groups[key] else []) + [items[i]]];
    }
    assert items[..|items|] == items;
  }

  ghost function GroupMembers(nodes: seq<Node>, key: string): seq<Node> {
    Members(nodes, NodeGroupKey, key)
  }

  lemma {:induction false} MembersAreTheGroup(nodes: seq<Node>, key: string)
    ensures forall n :: n in GroupMembers(nodes, key) <==> n in nodes && NodeGroupKey(n) == key
  {
    if nodes != [] {
      MembersAreTheGroup(nodes[..|nodes| - 1], key);
      assert nodes == nodes[..|nodes| - 1] + [Last(nodes)];
    }
  }

  predicate Distinct(nodes: seq<Node>) {
    forall i, j | 0 <= i < j < |nodes| :: nodes[i] != nodes[j]
  }

  lemma {:induction false} MembersFormOneGroup(nodes: seq<Node>, key: string)
    requires WellKeyed(NodeSet(nodes)) && Distinct(nodes)
    ensures OneGroup(GroupMembers(nodes, key))
    ensures Distinct(GroupMembers(nodes, key))
  {
    if nodes != [] {
      var before := nodes[..|nodes| - 1];
      MembersFormOneGroup(before, key);
      MembersAreTheGroup(before, key);
      MembersAreTheGroup(nodes, key);
      var members := GroupMembers(nodes, key);
      forall m <- members, n <- members ensures SameGroup(m, n) {
        GroupKeyInjective(m.modelId, m.topology, n.modelId, n.topology);
      }
      forall i, j | 0 <= i < j < |members| && members[i].rank.Some? ensures members[i].rank != members[j].rank {
        var m, n := members[i], members[j];
        assert m in NodeSet(nodes) && n in NodeSet(nodes) && SameGroup(m, n);
        if j == |members| - 1 && NodeGroupKey(Last(nodes)) == key {
          assert m in before;
        } else {
          assert m != n;
        }
      }
    }
  }

  function EdgesFrom(nodes: set<Node>, f: Features, reason: Reason, sources: set<Node>): set<Edge> {
    set u <- sources, v <- nodes | Leads(nodes, f, reason, u, v) :: Edge(u.key, v.key, reason)
  }

  lemma EdgesFromUnion(nodes: set<Node>, f: Features, reason: Reason, left: set<Node>, right: set<Node>,
                       spec: set<Edge>)
    ensures spec + EdgesFrom(nodes, f, reason, left + right) ==
            spec + EdgesFrom(nodes, f, reason, left) + EdgesFrom(nodes, f, reason, right)
  {
  }

  function KeyedBy(nodes: seq<Node>, key: string): set<Node> {
    set n | n in nodes && NodeGroupKey(n) == key
  }

  /** Walks one ordered group and links each effort to the next. */
  method AddChain(nodes: seq<Node>, f: Features, ordered: seq<Node>, key: string, edges: map<string, Edge>,
                  ghost spec: set<Edge>)
    returns (result: map<string, Edge>)
    requires WellKeyed(NodeSet(nodes))
    requires Ascending(ordered)
    requires forall n :: n in ordered <==> n in nodes && NodeGroupKey(n) == key && n.rank.Some?
    requires Holds(edges, spec)
    ensures Holds(result, spec + EdgesFrom(NodeSet(nodes), f, HigherEffort, KeyedBy(nodes, key)))
  {
    result := edges;
    var index := 0;
    while index + 1 < |ordered|
      invariant 0 <= index <= |ordered|
      invariant ordered != [] ==> index < |ordered|
      invariant Holds(result, spec + EdgesFrom(NodeSet(nodes), f, HigherEffort, NodeSet(ordered[..index])))
    {
      var from, to := ordered[index], ordered[index + 1];
      ghost var before := spec + EdgesFrom(NodeSet(nodes), f, HigherEffort, NodeSet(ordered[..index]));
      ChainStep(nodes, f, ordered, key, index);
      assert NodeSet(ordered[..index + 1]) == NodeSet(ordered[..index]) + {from};
      EdgesFromUnion(NodeSet(nodes), f, HigherEffort, NodeSet(ordered[..index]), {from}, spec);
      if to.rank.value > from.rank.value {
        result := AddEdge(result, from, to, HigherEffort, before);
      }
      index := index + 1;
    }
    ChainEnd(nodes, f, ordered, key);
  }

  lemma SameGroupKey(u: Node, v: Node)
    ensures SameGroup(u, v) <==> NodeGroupKey(u) == NodeGroupKey(v)
  {
    if NodeGroupKey(u) == NodeGroupKey(v) {
      GroupKeyInjective(u.modelId, u.topology, v.modelId, v.topology);
    }
  }

  lemma ChainStep(nodes: seq<Node>, f: Features, ordered: seq<Node>, key: string, index: nat)
    requires WellKeyed(NodeSet(nodes))
    requires Ascending(ordered) && index + 1 < |ordered|
    requires forall n :: n in ordered <==> n in nodes && NodeGroupKey(n) == key && n.rank.Some?
    ensures ordered[index].key != ordered[index + 1].key
    ensures EdgesFrom(NodeSet(nodes), f, HigherEffort, {ordered[index]}) ==
            {Edge(ordered[index].key, ordered[index + 1].key, HigherEffort)}
  {
    var all, u, v := NodeSet(nodes), ordered[index], ordered[index + 1];
    assert u in all && v in all && u != v;
    forall w ensures w in all && Target(f, HigherEffort, u, w) <==> w in ordered[index + 1..] {
      ChainTarget(nodes, f, ordered, key, index, w);
    }
    assert v == ordered[index + 1..][0];
    hide Target;
    forall w ensures w in all && Leads(all, f, HigherEffort, u, w) <==> w == v {
    }
  }

  /** What is above a member of the chain is what follows it there. */
  lemma ChainTarget(nodes: seq<Node>, f: Features, ordered: seq<Node>, key: string, index: nat, w: Node)
    requires Ascending(ordered) && index < |ordered|
    requires forall n :: n in ordered <==> n in nodes && NodeGroupKey(n) == key && n.rank.Some?
    ensures w in nodes && Target(f, HigherEffort, ordered[index], w) <==> w in ordered[index + 1..]
  {
    var u := ordered[index];
    assert u in ordered;
    if w in ordered {
      SameGroupKey(u, w);
      var k :| 0 <= k < |ordered| && ordered[k] == w;
      assert k > index ==> ordered[index + 1..][k - index - 1] == w;
    }
    if w in nodes && Target(f, HigherEffort, u, w) {
      SameGroupKey(u, w);
      assert w in ordered;
    }
  }

  lemma ChainEnd(nodes: seq<Node>, f: Features, ordered: seq<Node>, key: string)
    requires Ascending(ordered)
    requires forall n :: n in ordered <==> n in nodes && NodeGroupKey(n) == key && n.rank.Some?
    ensures EdgesFrom(NodeSet(nodes), f, HigherEffort, KeyedBy(nodes, key)) ==
            EdgesFrom(NodeSet(nodes), f, HigherEffort, NodeSet(ordered[..if ordered == [] then 0 else |ordered| - 1]))
  {
    forall u <- KeyedBy(nodes, key), v <- NodeSet(nodes) | Leads(NodeSet(nodes), f, HigherEffort, u, v)
      ensures ordered != [] && u in ordered[..|ordered| - 1]
    {
      assert u in ordered;
      var i :| 0 <= i < |ordered| && ordered[i] == u;
      ChainTarget(nodes, f, ordered, key, i, v);
      assert u == ordered[..|ordered| - 1][i];
    }
  }

  function GroupsOutside(nodes: seq<Node>, keys: set<string>): set<Node> {
    set n | n in nodes && NodeGroupKey(n) !in keys
  }

  lemma OneMoreGroup(nodes: seq<Node>, f: Features, keys: set<string>, key: string, spec: set<Edge>)
    requires key in keys
    ensures spec + EdgesFrom(NodeSet(nodes), f, HigherEffort, GroupsOutside(nodes, keys - {key})) ==
            spec + EdgesFrom(NodeSet(nodes), f, HigherEffort, GroupsOutside(nodes, keys)) +
            EdgesFrom(NodeSet(nodes), f, HigherEffort, KeyedBy(nodes, key))
  {
    hide EdgesFrom;
    assert GroupsOutside(nodes, keys - {key}) == GroupsOutside(nodes, keys) + KeyedBy(nodes, key);
    EdgesFromUnion(NodeSet(nodes), f, HigherEffort, GroupsOutside(nodes, keys), KeyedBy(nodes, key), spec);
  }

  method AddGroupEdges(nodes: seq<Node>, f: Features, group: seq<Node>, key: string, edges: map<string, Edge>,
                       ghost spec: set<Edge>)
    returns (result: map<string, Edge>)
    requires WellKeyed(NodeSet(nodes)) && Distinct(nodes)
    requires group == GroupMembers(nodes, key)
    requires Holds(edges, spec)
    ensures Holds(result, spec + EdgesFrom(NodeSet(nodes), f, HigherEffort, KeyedBy(nodes, key)))
  {
    MembersFormOneGroup(nodes, key);
    MembersAreTheGroup(nodes, key);
    var ordered := SortByRank(group);
    result := AddChain(nodes, f, ordered, key, edges, spec);
  }

  method AddHigherEffortEdges(nodes: seq<Node>, f: Features, edges: map<string, Edge>, ghost spec: set<Edge>)
    returns (result: map<string, Edge>)
    requires WellKeyed(NodeSet(nodes)) && Distinct(nodes)
    requires Holds(edges, spec)
    ensures Holds(result, spec + EdgesFor(NodeSet(nodes), f, HigherEffort))
  {
    var groups := GroupBy(nodes, NodeGroupKey);
    forall n <- nodes ensures NodeGroupKey(n) in groups {
      MembersAreTheGroup(nodes, NodeGroupKey(n));
    }
    result := edges;
    var rest := groups.Keys;
    assert GroupsOutside(nodes, rest) == {};
    assert spec + EdgesFrom(NodeSet(nodes), f, HigherEffort, GroupsOutside(nodes, rest)) == spec;
    hide WellKeyed, Distinct, Holds, EdgesFrom, EdgesFor, GroupsOutside, KeyedBy, NodeSet, NodeGroupKey;
    while rest != {}
      invariant rest <= groups.Keys
      invariant Holds(result, spec + EdgesFrom(NodeSet(nodes), f, HigherEffort, GroupsOutside(nodes, rest)))
      decreases rest
    {
      var key :| key in rest;
      ghost var before := spec + EdgesFrom(NodeSet(nodes), f, HigherEffort, GroupsOutside(nodes, rest));
      result := AddGroupEdges(nodes, f, groups[key], key, result, before);
      OneMoreGroup(nodes, f, rest, key, spec);
      rest := rest - {key};
    }
  }

  // ----- family and topology edges -----

  method PickTargets(nodes: seq<Node>, f: Features, reason: Reason, from: Node) returns (targets: seq<Node>)
    ensures forall v :: v in targets <==> v in nodes && Target(f, reason, from, v)
  {
    targets := [];
    for i := 0 to |nodes|
      invariant forall v :: v in targets <==> v in nodes[..i] && Target(f, reason, from, v)
    {
      if Target(f, reason, from, nodes[i]) {
        targets := targets + [nodes[i]];
      }
    }
  }

  method MinimumRank(targets: seq<Node>) returns (minimum: nat)
    requires targets != [] && forall v <- targets :: v.rank.Some?
    ensures exists v <- targets :: v.rank.value == minimum
    ensures forall v <- targets :: minimum <= v.rank.value
  {
    assert targets[0] in targets;
    minimum := targets[0].rank.value;
    for i := 0 to |targets|
      invariant exists v <- targets :: v.rank.value == minimum
      invariant forall v <- targets[..i] :: minimum <= v.rank.value
    {
      assert targets[i] in targets;
      if targets[i].rank.value < minimum {
        minimum := targets[i].rank.value;
      }
    }
  }

  /** Links one node to its targets of least effort. */
  method AddNearestEdges(nodes: seq<Node>, f: Features, reason: Reason, from: Node, edges: map<string, Edge>,
                         ghost spec: set<Edge>)
    returns (result: map<string, Edge>)
    requires WellKeyed(NodeSet(nodes)) && from in nodes
    requires reason != HigherEffort
    requires Holds(edges, spec)
    ensures Holds(result, spec + EdgesFrom(NodeSet(nodes), f, reason, {from}))
  {
    result := edges;
    var targets := PickTargets(nodes, f, reason, from);
    ghost var all := NodeSet(nodes);
    if targets == [] {
      assert EdgesFrom(all, f, reason, {from}) == {};
      return;
    }
    var minimum := MinimumRank(targets);
    LeastTargets(nodes, f, reason, from, targets, minimum);
    result := LinkTargets(from, reason, minimum, targets, edges, spec);
  }

  method LinkTargets(from: Node, reason: Reason, minimum: nat, targets: seq<Node>, edges: map<string, Edge>,
                     ghost spec: set<Edge>)
    returns (result: map<string, Edge>)
    requires forall v <- targets :: v.rank.Some? && v.key != from.key
    requires Holds(edges, spec)
    ensures Holds(result, spec + EdgesTo(from, reason, minimum, targets))
  {
    result := edges;
    for i := 0 to |targets|
      invariant Holds(result, spec + EdgesTo(from, reason, minimum, targets[..i]))
    {
      EdgesToSnoc(from, reason, minimum, targets, i, spec);
      assert targets[i] in targets;
      if targets[i].rank.value == minimum {
        result := AddEdge(result, from, targets[i], reason, spec + EdgesTo(from, reason, minimum, targets[..i]));
      }
    }
    assert targets[..|targets|] == targets;
  }

  lemma EdgesToSnoc(from: Node, reason: Reason, minimum: nat, targets: seq<Node>, i: nat, spec: set<Edge>)
    requires i < |targets|
    ensures spec + EdgesTo(from, reason, minimum, targets[..i + 1]) ==
            spec + EdgesTo(from, reason, minimum, targets[..i]) +
            if targets[i].rank == Some(minimum) then {Edge(from.key, targets[i].key, reason)} else {}
  {
    assert targets[..i + 1] == targets[..i] + [targets[i]];
  }

  function EdgesTo(from: Node, reason: Reason, minimum: nat, targets: seq<Node>): set<Edge> {
    set v | v in targets && v.rank == Some(minimum) :: Edge(from.key, v.key, reason)
  }

  lemma LeastTargets(nodes: seq<Node>, f: Features, reason: Reason, from: Node, targets: seq<Node>, minimum: nat)
    requires WellKeyed(NodeSet(nodes)) && from in nodes
    requires reason != HigherEffort
    requires forall v :: v in targets <==> v in nodes && Target(f, reason, from, v)
    requires exists v <- targets :: v.rank == Some(minimum)
    requires forall v <- targets :: v.rank.Some? && minimum <= v.rank.value
    ensures forall v <- targets :: v.key != from.key
    ensures EdgesTo(from, reason, minimum, targets) == EdgesFrom(NodeSet(nodes), f, reason, {from})
  {
    var all := NodeSet(nodes);
    forall v <- targets ensures v.key != from.key {
      assert v in all && from in all && v != from;
    }
    forall v <- all ensures Leads(all, f, reason, from, v) <==> v in targets && v.rank == Some(minimum) {
    }
  }

  method AddTargetEdges(nodes: seq<Node>, f: Features, reason: Reason, edges: map<string, Edge>, ghost spec: set<Edge>)
    returns (result: map<string, Edge>)
    requires WellKeyed(NodeSet(nodes))
    requires reason != HigherEffort
    requires Holds(edges, spec)
    ensures Holds(result, spec + EdgesFor(NodeSet(nodes), f, reason))
  {
    result := edges;
    ghost var all := NodeSet(nodes);
    for i := 0 to |nodes|
      invariant Holds(result, spec + EdgesFrom(all, f, reason, NodeSet(nodes[..i])))
    {
      ghost var before := NodeSet(nodes[..i]);
      result := AddNearestEdges(nodes, f, reason, nodes[i], result, spec + EdgesFrom(all, f, reason, before));
      assert NodeSet(nodes[..i + 1]) == before + {nodes[i]};
      EdgesFromUnion(all, f, reason, before, {nodes[i]}, spec);
    }
    assert nodes[..|nodes|] == nodes;
  }

  // ----- the whole build -----

  predicate PlainNodes(nodes: map<string, Node>) {
    forall key <- nodes :: NulFree(nodes[key].modelId) && NulFree(nodes[key].effort)
  }

  /** The graph lists exactly the keys of the routes and exactly the specified edges, each in key order. */
  ghost predicate IsGraphOf(graph: Graph, nodes: map<string, Node>, f: Features) {
    && graph.nodes == Sorted(nodes.Keys)
    && (forall i, j | 0 <= i < j < |graph.edges| :: Less(EdgeKey(graph.edges[i]), EdgeKey(graph.edges[j])))
    && (forall edge :: edge in graph.edges <==> edge in EdgeSet(nodes.Values, f))
  }

  lemma NodesAreWellKeyed(candidates: seq<Candidate>)
    ensures WellKeyed(NodesOf(candidates).Values)
    ensures forall key <- NodesOf(candidates) :: NodesOf(candidates)[key].key == key
  {
    NodesOfOrigin(candidates);
    var nodes := NodesOf(candidates);
    forall key <- nodes ensures nodes[key].key == key {
      var c :| c in candidates && CandidateKey(c) == key && nodes[key] == NodeOf(c);
    }
    forall m <- nodes.Values
      ensures m.key == NodeKey(m.modelId, m.effort, m.topology) && m.rank == EffortRank(m.effort)
    {
      var key :| key in nodes && nodes[key] == m;
      var c :| c in candidates && CandidateKey(c) == key && nodes[key] == NodeOf(c);
    }
  }

  lemma JoinAssociative(a: string, b: string, c: string)
    ensures Join(Join(a, b), c) == Join(a, Join(b, c))
  {
  }

  predicate PlainNode(u: Node) {
    u.key == NodeKey(u.modelId, u.effort, u.topology) && NulFree(u.modelId) && NulFree(u.effort)
  }

  predicate EndsAre(edge: Edge, u: Node, v: Node) {
    PlainNode(u) && PlainNode(v) && edge.from == u.key && edge.to == v.key
  }

  lemma EdgeEnds(nodes: map<string, Node>, f: Features, edge: Edge) returns (u: Node, v: Node)
    requires PlainNodes(nodes) && WellKeyed(nodes.Values) && edge in EdgeSet(nodes.Values, f)
    ensures EndsAre(edge, u, v)
  {
    hide Leads;
    u, v :| u in nodes.Values && v in nodes.Values && edge.from == u.key && edge.to == v.key;
  }

  lemma ReasonNames(left: Reason, right: Reason)
    requires ReasonName(left) == ReasonName(right)
    ensures left == right
  {
    assert |ReasonName(left)| == |ReasonName(right)|;
  }

  /** NUL-free parts make the key of an edge injective. */
  lemma EdgeKeyInjective(e1: Edge, u1: Node, v1: Node, e2: Edge, u2: Node, v2: Node)
    requires EndsAre(e1, u1, v1) && EndsAre(e2, u2, v2) && EdgeKey(e1) == EdgeKey(e2)
    ensures e1 == e2
  {
    hide PlainNode, Join, ReasonName;
    SplitKey(u1, Join(v1.key, ReasonName(e1.reason)), u2, Join(v2.key, ReasonName(e2.reason)));
    SplitKey(v1, ReasonName(e1.reason), v2, ReasonName(e2.reason));
    ReasonNames(e1.reason, e2.reason);
  }

  lemma SplitKey(u: Node, x: string, v: Node, y: string)
    requires PlainNode(u) && PlainNode(v)
    requires Join(u.key, x) == Join(v.key, y)
    ensures u.key == v.key && x == y
  {
    var tu, tv := TopologyName(u.topology), TopologyName(v.topology);
    JoinAssociative(u.modelId, Join(u.effort, tu), x);
    JoinAssociative(v.modelId, Join(v.effort, tv), y);
    JoinInjective(u.modelId, Join(Join(u.effort, tu), x), v.modelId, Join(Join(v.effort, tv), y));
    JoinAssociative(u.effort, tu, x);
    JoinAssociative(v.effort, tv, y);
    JoinInjective(u.effort, Join(tu, x), v.effort, Join(tv, y));
    JoinInjective(tu, x, tv, y);
  }

  method CollectNodes(candidates: seq<Candidate>) returns (byKey: map<string, Node>)
    ensures byKey == NodesOf(candidates)
  {
    byKey := map[];
    for i := 0 to |candidates|
      invariant byKey == NodesOf(candidates[..i])
    {
      assert candidates[..i + 1][..i] == candidates[..i];
      if candidates[i].admissible {
        byKey := byKey[CandidateKey(candidates[i]) := NodeOf(candidates[i])];
      }
    }
    assert candidates[..|candidates|] == candidates;
  }

  method CollectEdges(nodes: seq<Node>, f: Features) returns (edges: map<string, Edge>)
    requires WellKeyed(NodeSet(nodes)) && Distinct(nodes)
    ensures Holds(edges, EdgeSet(NodeSet(nodes), f))
  {
    edges := AddHigherEffortEdges(nodes, f, map[], {});
    ghost var effort := {} + EdgesFor(NodeSet(nodes), f, HigherEffort);
    edges := AddTargetEdges(nodes, f, TaskApplicableFamily, edges, effort);
    ghost var family := effort + EdgesFor(NodeSet(nodes), f, TaskApplicableFamily);
    edges := AddTargetEdges(nodes, f, TaskApplicableTopology, edges, family);
    assert family + EdgesFor(NodeSet(nodes), f, TaskApplicableTopology) == EdgeSet(NodeSet(nodes), f);
  }

  method ListNodes(byKey: map<string, Node>) returns (keys: seq<string>, nodes: seq<Node>)
    requires forall key <- byKey :: byKey[key].key == key
    ensures keys == Sorted(byKey.Keys)
    ensures NodeSet(nodes) == byKey.Values && Distinct(nodes)
  {
    keys := SortKeys(byKey.Keys);
    SortedListsTheSet(byKey.Keys);
    nodes := seq(|keys|, i requires 0 <= i < |keys| && keys[i] in byKey => byKey[keys[i]]);
    NodesListed(byKey, keys, nodes);
  }

  method ListEdges(edges: map<string, Edge>, ghost byKey: map<string, Node>, ghost f: Features)
    returns (listed: seq<Edge>)
    requires Holds(edges, EdgeSet(byKey.Values, f)) && WellKeyed(byKey.Values)
    ensures forall i, j | 0 <= i < j < |listed| :: Less(EdgeKey(listed[i]), EdgeKey(listed[j]))
    ensures forall edge <- listed :: edge in EdgeSet(byKey.Values, f)
    ensures PlainNodes(byKey) ==> forall edge <- EdgeSet(byKey.Values, f) :: edge in listed
  {
    var keys := SortKeys(edges.Keys);
    SortedListsTheSet(edges.Keys);
    listed := seq(|keys|, i requires 0 <= i < |keys| && keys[i] in edges => edges[keys[i]]);
    EdgesListed(edges, keys, listed, byKey, f);
  }

  method BuildCapabilityGraph(candidates: seq<Candidate>, f: Features) returns (graph: Graph)
    ensures graph.nodes == Sorted(NodesOf(candidates).Keys)
    ensures forall edge <- graph.edges :: edge in EdgeSet(NodesOf(candidates).Values, f)
    ensures PlainNodes(NodesOf(candidates)) ==> IsGraphOf(graph, NodesOf(candidates), f)
  {
    var byKey := CollectNodes(candidates);
    NodesAreWellKeyed(candidates);
    var keys, nodes := ListNodes(byKey);
    var edges := CollectEdges(nodes, f);
    var listed := ListEdges(edges, byKey, f);
    graph := Graph(keys, listed);
  }

  lemma NodesListed(byKey: map<string, Node>, keys: seq<string>, nodes: seq<Node>)
    requires keys == Sorted(byKey.Keys)
    requires forall key <- byKey :: byKey[key].key == key
    requires |nodes| == |keys| && forall i | 0 <= i < |keys| :: keys[i] in byKey && nodes[i] == byKey[keys[i]]
    ensures NodeSet(nodes) == byKey.Values && Distinct(nodes)
  {
    SortedListsTheSet(byKey.Keys);
    forall n <- byKey.Values ensures n in nodes {
      var key :| key in byKey && byKey[key] == n;
      assert key in keys;
      var i :| 0 <= i < |keys| && keys[i] == key;
      assert nodes[i] == n;
    }
    forall i, j | 0 <= i < j < |nodes| ensures nodes[i] != nodes[j] {
      LessAsymmetric(keys[i], keys[j]);
    }
  }

  lemma EdgesListed(edges: map<string, Edge>, keys: seq<string>, listed: seq<Edge>, byKey: map<string, Node>,
                    f: Features)
    requires Holds(edges, EdgeSet(byKey.Values, f)) && WellKeyed(byKey.Values)
    requires keys == Sorted(edges.Keys)
    requires |listed| == |keys| && forall i | 0 <= i < |keys| :: keys[i] in edges && listed[i] == edges[keys[i]]
    ensures forall i, j | 0 <= i < j < |listed| :: Less(EdgeKey(listed[i]), EdgeKey(listed[j]))
    ensures forall edge <- listed :: edge in EdgeSet(byKey.Values, f)
    ensures PlainNodes(byKey) ==> forall edge <- EdgeSet(byKey.Values, f) :: edge in listed
  {
    SortedListsTheSet(edges.Keys);
    if PlainNodes(byKey) {
      forall edge <- EdgeSet(byKey.Values, f) ensures edge in listed {
        var key := EdgeKey(edge);
        assert key in keys;
        var i :| 0 <= i < |keys| && keys[i] == key;
        var u1, v1 := EdgeEnds(byKey, f, edge);
        var u2, v2 := EdgeEnds(byKey, f, listed[i]);
        EdgeKeyInjective(edge, u1, v1, listed[i], u2, v2);
      }
    }
  }

  // ----- order independence -----

  /** Candidates of one key agree on their family. */
  predicate OneFamilyPerKey(candidates: seq<Candidate>) {
    forall c <- candidates, d <- candidates :: CandidateKey(c) == CandidateKey(d) ==> c.family == d.family
  }

  predicate AllPlain(candidates: seq<Candidate>) {
    forall c <- candidates :: PlainCandidate(c)
  }

  lemma NodesCarryOver(c1: seq<Candidate>, c2: seq<Candidate>)
    requires forall c :: c in c1 <==> c in c2
    requires AllPlain(c1) && OneFamilyPerKey(c1)
    ensures forall key <- NodesOf(c1) :: key in NodesOf(c2) && NodesOf(c1)[key] == NodesOf(c2)[key]
    ensures PlainNodes(NodesOf(c1))
  {
    NodesOfOrigin(c1);
    NodesOfOrigin(c2);
    var n1, n2 := NodesOf(c1), NodesOf(c2);
    forall key <- n1 ensures key in n2 && n1[key] == n2[key] && NulFree(n1[key].modelId) && NulFree(n1[key].effort) {
      var c :| c in c1 && c.admissible && CandidateKey(c) == key && n1[key] == NodeOf(c);
      assert c in c2;
      assert key in n2;
      var d :| d in c2 && d.admissible && CandidateKey(d) == key && n2[key] == NodeOf(d);
      assert d in c1;
      NodeKeyInjective(c, d);
    }
  }

  lemma NodesIgnoreOrder(c1: seq<Candidate>, c2: seq<Candidate>)
    requires multiset(c1) == multiset(c2)
    requires AllPlain(c1) && OneFamilyPerKey(c1)
    ensures NodesOf(c1) == NodesOf(c2)
    ensures PlainNodes(NodesOf(c1))
  {
    forall c ensures c in c1 <==> c in c2 {
      assert c in c1 <==> c in multiset(c1);
      assert c in c2 <==> c in multiset(c2);
    }
    NodesCarryOver(c1, c2);
    NodesCarryOver(c2, c1);
  }

  lemma {:induction false} AscendingIsSorted(s: seq<string>)
    requires forall i, j | 0 <= i < j < |s| :: Less(s[i], s[j])
    ensures s == Sorted(set x | x in s)
  {
    if s != [] {
      var members := set x | x in s;
      assert IsLeast(s[0], members);
      LeastUnique(s[0], Sorted(members)[0], members);
      AscendingIsSorted(s[1..]);
      LessIrreflexive(s[0]);
      assert s[0] !in s[1..];
      assert s == [s[0]] + s[1..];
      assert members - {s[0]} == set x | x in s[1..];
    }
  }

  lemma GraphIsUnique(g1: Graph, g2: Graph, nodes: map<string, Node>, f: Features)
    requires PlainNodes(nodes) && WellKeyed(nodes.Values)
    requires IsGraphOf(g1, nodes, f) && IsGraphOf(g2, nodes, f)
    ensures g1 == g2
  {
    var k1 := seq(|g1.edges|, i requires 0 <= i < |g1.edges| => EdgeKey(g1.edges[i]));
    var k2 := seq(|g2.edges|, i requires 0 <= i < |g2.edges| => EdgeKey(g2.edges[i]));
    AscendingIsSorted(k1);
    AscendingIsSorted(k2);
    KeysListed(g1.edges, k1, EdgeSet(nodes.Values, f));
    KeysListed(g2.edges, k2, EdgeSet(nodes.Values, f));
    assert k1 == k2;
    forall i | 0 <= i < |g1.edges| ensures g1.edges[i] == g2.edges[i] {
      assert k1[i] == k2[i];
      var u1, v1 := EdgeEnds(nodes, f, g1.edges[i]);
      var u2, v2 := EdgeEnds(nodes, f, g2.edges[i]);
      EdgeKeyInjective(g1.edges[i], u1, v1, g2.edges[i], u2, v2);
    }
  }

  lemma KeysListed(edges: seq<Edge>, keys: seq<string>, spec: set<Edge>)
    requires |keys| == |edges| && forall i | 0 <= i < |keys| :: keys[i] == EdgeKey(edges[i])
    requires forall edge :: edge in edges <==> edge in spec
    ensures (set x | x in keys) == set edge <- spec :: EdgeKey(edge)
  {
    forall edge <- spec ensures EdgeKey(edge) in keys {
      var i :| 0 <= i < |edges| && edges[i] == edge;
      assert keys[i] == EdgeKey(edge);
    }
  }

  /** Whatever order the candidates come in, the same graph is built. */
  lemma GraphIgnoresOrder(c1: seq<Candidate>, c2: seq<Candidate>, f: Features, g1: Graph, g2: Graph)
    requires multiset(c1) == multiset(c2)
    requires AllPlain(c1) && OneFamilyPerKey(c1)
    requires IsGraphOf(g1, NodesOf(c1), f) && IsGraphOf(g2, NodesOf(c2), f)
    ensures g1 == g2
  {
    NodesIgnoreOrder(c1, c2);
    NodesAreWellKeyed(c1);
    GraphIsUnique(g1, g2, NodesOf(c1), f);
  }
}
