/**
 * The refactored validator of `src/topology_utils.rs`. The local checks are
 * the same predicates written with two helpers; connectivity and symmetry are
 * decided on a directed graph (a `DiGraphMap`) instead of by a search: the
 * drone-declared edges must form at most one weakly connected component, and
 * once the client and server edges are added every node must have the same
 * in- and out-neighbours.
 */
module TopologyUtils {
  import opened Topology
  import opened Graph
  import V = Validator

  // ---------------------------------------------------------------------------
  // Local checks
  // ---------------------------------------------------------------------------

  /**
   * `check_connection`: `id` is not in the list and the list repeats nothing.
   * The partners are the agreement contracts of the three connection checks
   * below, which tie it to the `src/main.rs` versions.
   */
  function CheckConnection(id: NodeId, connected: seq<NodeId>): (r: bool)
    ensures r <==> id !in connected && Distinct(connected)
  {
    !(id in connected) && AllUnique(connected)
  }

  /** `check_subset`: every listed neighbour is a drone id. */
  function CheckSubset(connected: seq<NodeId>, dronesIds: seq<NodeId>): (r: bool)
    ensures r <==> Elems(connected) <= Elems(dronesIds)
  {
    forall neighbor :: neighbor in connected ==> neighbor in dronesIds
  }

  /** `check_id_repetitions` over the `chain!` of the three lists: the same answer as the `concat` version. */
  function CheckIdRepetitions(dronesId: seq<NodeId>, clientsId: seq<NodeId>, serversId: seq<NodeId>): (r: bool)
    ensures r <==> Distinct(dronesId + clientsId + serversId)
    ensures r == V.CheckIdRepetitions(dronesId, clientsId, serversId)
  {
    AllUniqueFrom(dronesId + clientsId + serversId, {})
  }

  /** `check_drone_connections`, through `check_connection`: the same answer as the `src/main.rs` version. */
  function CheckDroneConnections(drones: seq<Drone>): (r: bool)
    ensures r == V.CheckDroneConnections(drones)
  {
    forall i :: 0 <= i < |drones| ==> CheckConnection(drones[i].id, drones[i].connectedNodeIds)
  }

  /**
   * `check_client_connections`: the length lies in `1..3`, which is the
   * `!is_empty() && len < 3` of the `src/main.rs` version; the answers agree.
   */
  function CheckClientConnections(clients: seq<Client>, dronesIds: seq<NodeId>): (r: bool)
    ensures r == V.CheckClientConnections(clients, dronesIds)
  {
    forall i :: 0 <= i < |clients| ==>
      var ns := clients[i].connectedDroneIds;
      && 1 <= |ns| < 3
      && CheckSubset(ns, dronesIds)
      && CheckConnection(clients[i].id, ns)
  }

  /** `check_server_connections`: `len > 1`; the answers agree with the `src/main.rs` version. */
  function CheckServerConnections(servers: seq<Server>, dronesIds: seq<NodeId>): (r: bool)
    ensures r == V.CheckServerConnections(servers, dronesIds)
  {
    forall i :: 0 <= i < |servers| ==>
      var ns := servers[i].connectedDroneIds;
      && |ns| > 1
      && CheckSubset(ns, dronesIds)
      && CheckConnection(servers[i].id, ns)
  }

  /** The five local checks, in the order of the `||` chain. */
  predicate LocalChecks(c: Config) {
    var dronesId := DroneIds(c.drone);
    && CheckIdRepetitions(dronesId, ClientIds(c.client), ServerIds(c.server))
    && CheckPdr(c.drone)
    && CheckDroneConnections(c.drone)
    && CheckClientConnections(c.client, dronesId)
    && CheckServerConnections(c.server, dronesId)
  }

  /** Both validators run the same local checks. */
  lemma LocalChecksAgree(c: Config)
    ensures LocalChecks(c) == V.LocalChecks(c)
  {
  }

  // ---------------------------------------------------------------------------
  // The directed graph
  // ---------------------------------------------------------------------------

  /** A `DiGraphMap<NodeId, _>`: its nodes in insertion order and its edge set (all weights are 1 and never read). */
  datatype DiGraph = DiGraph(nodes: seq<NodeId>, edges: set<Edge>)

  function EdgeSet(es: seq<Edge>): set<Edge> {
    set e | e in es
  }

  /** Every node an edge of `E` touches. */
  function EndPoints(E: set<Edge>): set<NodeId> {
    (set e | e in E :: e.0) + (set e | e in E :: e.1)
  }

  /** `add_node`: a node already present keeps its place. */
  function AddNode(ns: seq<NodeId>, x: NodeId): (r: seq<NodeId>)
    ensures Elems(r) == Elems(ns) + {x}
    ensures Distinct(ns) ==> Distinct(r)
  {
    if x in ns then ns
    else
      DistinctConcat(ns, [x]);
      ns + [x]
  }

  /** `add_edge`: both endpoints become nodes (first occurrence keeps its place) and the edge joins the set. */
  function AddEdge(g: DiGraph, e: Edge): DiGraph {
    DiGraph(AddNode(AddNode(g.nodes, e.0), e.1), g.edges + {e})
  }

  /** `add_edge` for each edge in turn. */
  function AddEdges(g: DiGraph, es: seq<Edge>): DiGraph
    decreases |es|
  {
    if es == [] then g else AddEdges(AddEdge(g, es[0]), es[1..])
  }

  /**
   * Adding edges adds exactly those edges and their endpoints, and never
   * lists a node twice.
   */
  lemma {:induction false} AddEdgesShape(g: DiGraph, es: seq<Edge>)
    ensures AddEdges(g, es).edges == g.edges + EdgeSet(es)
    ensures Elems(AddEdges(g, es).nodes) == Elems(g.nodes) + EndPoints(EdgeSet(es))
    ensures Distinct(g.nodes) ==> Distinct(AddEdges(g, es).nodes)
    decreases |es|
  {
    if es != [] {
      AddEdgesShape(AddEdge(g, es[0]), es[1..]);
      EdgeSetCons(es);
    }
  }

  lemma EdgeSetCons(es: seq<Edge>)
    requires es != []
    ensures EdgeSet(es) == {es[0]} + EdgeSet(es[1..])
    ensures EndPoints(EdgeSet(es)) == {es[0].0, es[0].1} + EndPoints(EdgeSet(es[1..]))
  {
    assert EdgeSet(es) == {es[0]} + EdgeSet(es[1..]);
  }

  /** `DiGraphMap::from_iter` / `from_edges`. */
  function FromEdges(es: seq<Edge>): DiGraph {
    AddEdges(DiGraph([], {}), es)
  }

  /** A graph built from edges has only their endpoints as nodes. */
  lemma FromEdgesNodesWithin(es: seq<Edge>, within: seq<NodeId>)
    requires forall e :: e in es ==> e.0 in within && e.1 in within
    ensures forall x :: x in FromEdges(es).nodes ==> x in within
  {
    AddEdgesShape(DiGraph([], {}), es);
    forall x | x in FromEdges(es).nodes ensures x in within {
      assert x in EndPoints(EdgeSet(es));
    }
  }

  /** `(id, nbr)` for every declared neighbour of every node, node by node and in list order. */
  function Links(ids: seq<NodeId>, nbrs: seq<seq<NodeId>>): seq<Edge>
    requires |ids| == |nbrs|
    decreases |ids|
  {
    if ids == [] then []
    else
      var n := |ids| - 1;
      Links(ids[..n], nbrs[..n]) + V.Outgoing(ids[n], nbrs[n])
  }

  /** An edge is linked exactly when some node declares it. */
  lemma {:induction false} LinksMember(ids: seq<NodeId>, nbrs: seq<seq<NodeId>>, u: NodeId, v: NodeId)
    requires |ids| == |nbrs|
    ensures (u, v) in Links(ids, nbrs) <==> exists k :: 0 <= k < |ids| && ids[k] == u && v in nbrs[k]
    decreases |ids|
  {
    if ids != [] {
      var n := |ids| - 1;
      var pi, pn := ids[..n], nbrs[..n];
      LinksMember(pi, pn, u, v);
      assert Links(ids, nbrs) == Links(pi, pn) + V.Outgoing(ids[n], nbrs[n]);
      if (u, v) in Links(pi, pn) {
        var k :| 0 <= k < n && pi[k] == u && v in pn[k];
        assert ids[k] == u && nbrs[k] == pn[k];
      } else if (u, v) in V.Outgoing(ids[n], nbrs[n]) {
        assert ids[n] == u && v in nbrs[n];
      }
      if exists k :: 0 <= k < |ids| && ids[k] == u && v in nbrs[k] {
        var k :| 0 <= k < |ids| && ids[k] == u && v in nbrs[k];
        if k < n {
          assert pi[k] == u && pn[k] == nbrs[k];
        }
      }
    }
  }

  /** The links of a prefix grow by one node's edges at a time. */
  lemma LinksStep(ids: seq<NodeId>, nbrs: seq<seq<NodeId>>, i: nat)
    requires |ids| == |nbrs| && i < |ids|
    ensures Links(ids[..i + 1], nbrs[..i + 1]) == Links(ids[..i], nbrs[..i]) + V.Outgoing(ids[i], nbrs[i])
  {
    assert ids[..i + 1][..i] == ids[..i];
    assert nbrs[..i + 1][..i] == nbrs[..i];
  }

  /** The links of two lists of nodes, one after the other. */
  lemma {:induction false} LinksAppend(a: seq<NodeId>, na: seq<seq<NodeId>>, b: seq<NodeId>, nb: seq<seq<NodeId>>)
    requires |a| == |na| && |b| == |nb|
    ensures Links(a + b, na + nb) == Links(a, na) + Links(b, nb)
    decreases |b|
  {
    if b == [] {
      assert a + b == a && na + nb == na;
    } else {
      var n := |b| - 1;
      LinksAppend(a, na, b[..n], nb[..n]);
      var ab, nab := a + b, na + nb;
      AppendPrefix(a, b, n);
      AppendPrefix(na, nb, n);
      assert ab[|a| + n] == b[n] && nab[|a| + n] == nb[n];
      assert Links(ab, nab) == Links(ab[..|a| + n], nab[..|a| + n]) + V.Outgoing(b[n], nb[n]);
      assert Links(b, nb) == Links(b[..n], nb[..n]) + V.Outgoing(b[n], nb[n]);
    }
  }

  lemma AppendPrefix<T>(a: seq<T>, b: seq<T>, n: nat)
    requires n <= |b|
    ensures (a + b)[..|a| + n] == a + b[..n]
  {
    assert (a + b)[..|a| + n] == a + b[..n];
  }

  /** The `flat_map` that lists every drone-declared edge. */
  function GraphInit(drones: seq<Drone>): seq<Edge> {
    Links(DroneIds(drones), DroneNbrs(drones))
  }

  /** The graph whose components are counted: drone-declared edges only. */
  function DroneGraph(drones: seq<Drone>): DiGraph {
    FromEdges(GraphInit(drones))
  }

  /** The graph `check_bidirectional` inspects: server edges, then client edges, added to the drone graph. */
  function FullGraph(c: Config): DiGraph {
    AddEdges(AddEdges(DroneGraph(c.drone), Links(ServerIds(c.server), ServerNbrs(c.server))),
             Links(ClientIds(c.client), ClientNbrs(c.client)))
  }

  /** Every edge some node declares: `(id, nbr)` for each `nbr` in the node's list. */
  function DeclaredEdges(c: Config): set<Edge> {
    EdgeSet(Links(Ids(c), Nbrs(c)))
  }

  /** An edge is declared exactly when the node at some position lists it. */
  lemma DeclaredMember(c: Config, u: NodeId, v: NodeId)
    ensures (u, v) in DeclaredEdges(c) <==> exists k :: 0 <= k < |Ids(c)| && Ids(c)[k] == u && v in Nbrs(c)[k]
  {
    LinksMember(Ids(c), Nbrs(c), u, v);
  }

  /** The declared edges are the drone links, then the client links, then the server links. */
  lemma DeclaredLinks(c: Config)
    ensures Links(Ids(c), Nbrs(c))
         == Links(DroneIds(c.drone), DroneNbrs(c.drone)) + Links(ClientIds(c.client), ClientNbrs(c.client))
            + Links(ServerIds(c.server), ServerNbrs(c.server))
  {
    var d, cl, s := DroneIds(c.drone), ClientIds(c.client), ServerIds(c.server);
    var dn, cn, sn := DroneNbrs(c.drone), ClientNbrs(c.client), ServerNbrs(c.server);
    LinksAppend(d, dn, cl, cn);
    LinksAppend(d + cl, dn + cn, s, sn);
  }

  /** The full graph holds exactly the declared edges, every endpoint of them as a node, none twice. */
  lemma FullGraphEdges(c: Config)
    ensures FullGraph(c).edges == DeclaredEdges(c)
    ensures Elems(FullGraph(c).nodes) == EndPoints(DeclaredEdges(c))
    ensures Distinct(FullGraph(c).nodes)
  {
    DeclaredLinks(c);
    ThreeBatches(Links(DroneIds(c.drone), DroneNbrs(c.drone)),
                 Links(ServerIds(c.server), ServerNbrs(c.server)),
                 Links(ClientIds(c.client), ClientNbrs(c.client)));
  }

  /** Three batches of edges added to an empty graph, whatever their order, give their union. */
  lemma ThreeBatches(a: seq<Edge>, b: seq<Edge>, c: seq<Edge>)
    ensures AddEdges(AddEdges(FromEdges(a), b), c).edges == EdgeSet(a + c + b)
    ensures Elems(AddEdges(AddEdges(FromEdges(a), b), c).nodes) == EndPoints(EdgeSet(a + c + b))
    ensures Distinct(AddEdges(AddEdges(FromEdges(a), b), c).nodes)
  {
    var empty := DiGraph([], {});
    var g1 := AddEdges(empty, a);
    var g2 := AddEdges(g1, b);
    var ea, eb, ec := EdgeSet(a), EdgeSet(b), EdgeSet(c);
    assert Distinct(empty.nodes);
    AddEdgesShape(empty, a);
    assert g1.edges == ea && Elems(g1.nodes) == EndPoints(ea);
    AddEdgesShape(g1, b);
    assert g2.edges == ea + eb && Elems(g2.nodes) == EndPoints(ea) + EndPoints(eb);
    AddEdgesShape(g2, c);
    EdgeSetUnion(a, c, b);
    EndPointsUnion(ea, eb, ec);
  }

  lemma EdgeSetUnion(a: seq<Edge>, b: seq<Edge>, c: seq<Edge>)
    ensures EdgeSet(a + b + c) == EdgeSet(a) + EdgeSet(c) + EdgeSet(b)
  {
  }

  lemma EndPointsUnion(a: set<Edge>, b: set<Edge>, c: set<Edge>)
    ensures EndPoints(a + b + c) == EndPoints(a) + EndPoints(b) + EndPoints(c)
  {
  }

  /** Adding two lists of edges is adding their concatenation. */
  lemma {:induction false} AddEdgesAppend(g: DiGraph, a: seq<Edge>, b: seq<Edge>)
    ensures AddEdges(g, a + b) == AddEdges(AddEdges(g, a), b)
    decreases |a|
  {
    if a == [] {
      assert a + b == b;
    } else {
      assert a + b != [];
      assert (a + b)[0] == a[0];
      assert (a + b)[1..] == a[1..] + b;
      AddEdgesAppend(AddEdge(g, a[0]), a[1..], b);
    }
  }

  lemma OutgoingStep(id: NodeId, ns: seq<NodeId>, j: nat)
    requires j < |ns|
    ensures V.Outgoing(id, ns[..j + 1]) == V.Outgoing(id, ns[..j]) + [(id, ns[j])]
  {
    assert V.Outgoing(id, ns[..j + 1]) == V.Outgoing(id, ns[..j]) + [(id, ns[j])];
  }

  /** The inner `for &nbr in &node.connected_drone_ids` loop: `add_edge(id, nbr)` for each neighbour. */
  method AddEdgesFrom(graph: DiGraph, id: NodeId, ns: seq<NodeId>) returns (g: DiGraph)
    ensures g == AddEdges(graph, V.Outgoing(id, ns))
  {
    g := graph;
    for j := 0 to |ns|
      invariant g == AddEdges(graph, V.Outgoing(id, ns[..j]))
    {
      OutgoingStep(id, ns, j);
      AddEdgesAppend(graph, V.Outgoing(id, ns[..j]), [(id, ns[j])]);
      g := AddEdge(g, (id, ns[j]));
    }
    assert ns[..|ns|] == ns;
  }

  /**
   * The outer loop over servers (and then over clients): the edges
   * `(ids[i], nbr)` for every node and every neighbour it lists.
   */
  method AddNodeEdges(graph: DiGraph, ids: seq<NodeId>, nbrs: seq<seq<NodeId>>) returns (g: DiGraph)
    requires |ids| == |nbrs|
    ensures g == AddEdges(graph, Links(ids, nbrs))
  {
    g := graph;
    for i := 0 to |ids|
      invariant g == AddEdges(graph, Links(ids[..i], nbrs[..i]))
    {
      g := AddEdgesFrom(g, ids[i], nbrs[i]);
      LinksStep(ids, nbrs, i);
      AddEdgesAppend(graph, Links(ids[..i], nbrs[..i]), V.Outgoing(ids[i], nbrs[i]));
    }
    assert ids[..|ids|] == ids && nbrs[..|nbrs|] == nbrs;
  }

  // ---------------------------------------------------------------------------
  // Connected components
  // ---------------------------------------------------------------------------

  /** The edges of `E` together with their reverses: connectivity ignores direction. */
  function Undirected(E: set<Edge>): (r: set<Edge>)
    ensures forall u: NodeId, v: NodeId :: (u, v) in r <==> (u, v) in E || (v, u) in E
    ensures Symmetric(r)
  {
    E + set e | e in E :: (e.1, e.0)
  }

  function Targets(E: set<Edge>): set<NodeId> {
    set e | e in E :: e.1
  }

  /** `S` plus everything one edge away from it. */
  function Expand(E: set<Edge>, S: set<NodeId>): set<NodeId> {
    S + set e | e in E && e.0 in S :: e.1
  }

  /** The least set containing `S` and closed under `E`. */
  function Component(E: set<Edge>, S: set<NodeId>): (r: set<NodeId>)
    ensures S <= r && Closed(E, r)
    decreases Targets(E) - S
  {
    var next := Expand(E, S);
    if next == S then S
    else
      assert Targets(E) - next < Targets(E) - S by {
        assert S < next;
        var x :| x in next && x !in S;
        assert x in Targets(E);
      }
      Component(E, next)
  }

  /** Everything the closure adds is reachable from a root that reaches all of `S`. */
  lemma {:induction false} ComponentReachable(E: set<Edge>, S: set<NodeId>, root: NodeId)
    requires forall s :: s in S ==> Reachable(E, root, s)
    ensures forall x :: x in Component(E, S) ==> Reachable(E, root, x)
    decreases Targets(E) - S
  {
    var next := Expand(E, S);
    if next != S {
      forall x | x in next ensures Reachable(E, root, x) {
        if x !in S {
          var e :| e in E && e.0 in S && e.1 == x;
          ReachableStep(E, root, e.0, x);
        }
      }
      assert Targets(E) - next < Targets(E) - S by {
        assert S < next;
        var x :| x in next && x !in S;
        assert x in Targets(E);
      }
      ComponentReachable(E, next, root);
    }
  }

  /** The component of `root` is exactly the set of nodes reachable from it. */
  lemma ComponentOf(E: set<Edge>, root: NodeId)
    ensures forall x :: x in Component(E, {root}) <==> Reachable(E, root, x)
  {
    ReachableRefl(E, root);
    ComponentReachable(E, {root}, root);
    forall x | Reachable(E, root, x) ensures x in Component(E, {root}) {
      ClosedHoldsReachable(E, Component(E, {root}), root, x);
    }
  }

  /** The items of `ns` outside `S`, in order. */
  function Without(ns: seq<NodeId>, S: set<NodeId>): (r: seq<NodeId>)
    ensures forall x :: x in r <==> x in ns && x !in S
    ensures |r| <= |ns|
    ensures ns != [] && ns[0] in S ==> |r| < |ns|
    ensures r == [] <==> forall x :: x in ns ==> x in S
  {
    if ns == [] then []
    else
      assert forall x :: x in ns <==> x == ns[0] || x in ns[1..];
      (if ns[0] in S then [] else [ns[0]]) + Without(ns[1..], S)
  }

  /** Counts components by taking the first node left, removing its component, and repeating. */
  function CountComponents(u: set<Edge>, ns: seq<NodeId>): nat
    decreases |ns|
  {
    if ns == [] then 0
    else 1 + CountComponents(u, Without(ns, Component(u, {ns[0]})))
  }

  /** `connected_components`: the number of weakly connected components of the graph. */
  function ConnectedComponents(g: DiGraph): nat {
    CountComponents(Undirected(g.edges), g.nodes)
  }

  /** Every two nodes are joined by a path that ignores edge direction. */
  ghost predicate WeaklyConnected(g: DiGraph) {
    forall a, b :: a in g.nodes && b in g.nodes ==> Reachable(Undirected(g.edges), a, b)
  }

  /** `components > 1` fails exactly for the weakly connected graphs (the empty graph has none). */
  lemma AtMostOneComponent(g: DiGraph)
    ensures ConnectedComponents(g) <= 1 <==> WeaklyConnected(g)
  {
    if g.nodes != [] {
      var u, root := Undirected(g.edges), g.nodes[0];
      var C := Component(u, {root});
      ComponentOf(u, root);
      var rest := Without(g.nodes, C);
      assert ConnectedComponents(g) == 1 + CountComponents(u, rest);
      if ConnectedComponents(g) <= 1 {
        assert rest == [];
        forall a, b | a in g.nodes && b in g.nodes ensures Reachable(u, a, b) {
          assert a in C && b in C;
          ReachableSym(u, root, a);
          ReachableTrans(u, a, root, b);
        }
      }
      if WeaklyConnected(g) {
        forall x | x in g.nodes ensures x in C {
          assert Reachable(u, root, x);
        }
      }
    }
  }

  // ---------------------------------------------------------------------------
  // Bidirectionality
  // ---------------------------------------------------------------------------

  /** The sources of the edges into `n`. */
  function InNbrs(E: set<Edge>, n: NodeId): set<NodeId> {
    set e | e in E && e.1 == n :: e.0
  }

  /** The targets of the edges out of `n`. */
  function OutNbrs(E: set<Edge>, n: NodeId): set<NodeId> {
    set e | e in E && e.0 == n :: e.1
  }

  /** Every node has the same neighbours on its incoming and its outgoing edges. */
  predicate Bidirectional(g: DiGraph) {
    forall n :: n in g.nodes ==> InNbrs(g.edges, n) == OutNbrs(g.edges, n)
  }

  /**
   * `check_bidirectional`: visits the nodes in insertion order and stops at
   * the first whose incoming and outgoing neighbours differ.
   */
  method CheckBidirectional(g: DiGraph) returns (ok: bool)
    ensures ok <==> Bidirectional(g)
  {
    for i := 0 to |g.nodes|
      invariant forall k :: 0 <= k < i ==> InNbrs(g.edges, g.nodes[k]) == OutNbrs(g.edges, g.nodes[k])
    {
      var node := g.nodes[i];
      if InNbrs(g.edges, node) != OutNbrs(g.edges, node) {
        return false;
      }
    }
    return true;
  }

  /** On a graph holding every endpoint as a node, per-node agreement is edge symmetry. */
  lemma BidirectionalIffSymmetric(g: DiGraph)
    requires EndPoints(g.edges) <= Elems(g.nodes)
    ensures Bidirectional(g) <==> Symmetric(g.edges)
  {
    if Bidirectional(g) {
      forall e | e in g.edges ensures (e.1, e.0) in g.edges {
        assert e.0 in InNbrs(g.edges, e.1);
        assert e.1 in g.nodes;
        assert e.0 in OutNbrs(g.edges, e.1);
      }
    }
    if Symmetric(g.edges) {
      forall n | n in g.nodes ensures InNbrs(g.edges, n) == OutNbrs(g.edges, n) {
        forall x | x in InNbrs(g.edges, n) ensures x in OutNbrs(g.edges, n) {
          assert (x, n) in g.edges && (n, x) in g.edges;
        }
        forall x | x in OutNbrs(g.edges, n) ensures x in InNbrs(g.edges, n) {
          assert (n, x) in g.edges && (x, n) in g.edges;
        }
      }
    }
  }

  /**
   * The other reading of `check_bidirectional`: when `edges_directed`
   * reports every edge as `(source, target)`, both mapped lists repeat the
   * node itself once per edge, so the comparison is of in-degree against
   * out-degree. A `DiGraphMap` holds at most one edge per ordered pair, so a
   * degree is the size of a neighbour set.
   */
  predicate EqualDegrees(g: DiGraph) {
    forall n :: n in g.nodes ==> |InNbrs(g.edges, n)| == |OutNbrs(g.edges, n)|
  }

  /** `check_bidirectional` under the degree reading: stops at the first node whose degrees differ. */
  method CheckEqualDegrees(g: DiGraph) returns (ok: bool)
    ensures ok <==> EqualDegrees(g)
  {
    for i := 0 to |g.nodes|
      invariant forall k :: 0 <= k < i ==> |InNbrs(g.edges, g.nodes[k])| == |OutNbrs(g.edges, g.nodes[k])|
    {
      var node := g.nodes[i];
      if |InNbrs(g.edges, node)| != |OutNbrs(g.edges, node)| {
        return false;
      }
    }
    return true;
  }

  /** A graph that passes under the neighbour reading passes under the degree reading. */
  lemma BidirectionalHasEqualDegrees(g: DiGraph)
    requires Bidirectional(g)
    ensures EqualDegrees(g)
  {
    forall n | n in g.nodes ensures |InNbrs(g.edges, n)| == |OutNbrs(g.edges, n)| {
      assert InNbrs(g.edges, n) == OutNbrs(g.edges, n);
    }
  }

  /** The three-edge cycle 0 -> 1 -> 2 -> 0 passes under the degree reading only. */
  lemma CycleSplitsReadings()
    ensures EqualDegrees(DiGraph([0, 1, 2], {(0, 1), (1, 2), (2, 0)}))
    ensures !Bidirectional(DiGraph([0, 1, 2], {(0, 1), (1, 2), (2, 0)}))
  {
    var E: set<Edge> := {(0, 1), (1, 2), (2, 0)};
    assert InNbrs(E, 0) == {2} && OutNbrs(E, 0) == {1};
    assert InNbrs(E, 1) == {0} && OutNbrs(E, 1) == {2};
    assert InNbrs(E, 2) == {1} && OutNbrs(E, 2) == {0};
  }

  // ---------------------------------------------------------------------------
  // The conjunction
  // ---------------------------------------------------------------------------

  /** What the refactored validator accepts. */
  ghost predicate UtilsAccepts(c: Config) {
    LocalChecks(c) && WeaklyConnected(DroneGraph(c.drone)) && Symmetric(DeclaredEdges(c))
  }

  /** What the refactored validator accepts under the degree reading of `check_bidirectional`. */
  ghost predicate UtilsAcceptsByDegree(c: Config) {
    LocalChecks(c) && WeaklyConnected(DroneGraph(c.drone)) && EqualDegrees(FullGraph(c))
  }

  /** Whatever the neighbour reading accepts, the degree reading accepts too. */
  lemma AcceptedUnderBothReadings(c: Config)
    requires UtilsAccepts(c)
    ensures UtilsAcceptsByDegree(c)
  {
    FullGraphEdges(c);
    BidirectionalIffSymmetric(FullGraph(c));
    BidirectionalHasEqualDegrees(FullGraph(c));
  }

  /**
   * `check_topology_constraints`: false when a local check fails, before any
   * graph is built; otherwise the component count of the drone-edge graph is
   * taken, the server and client edges are added, and the result is true when
   * there is at most one component and the full graph is bidirectional.
   */
  method CheckTopologyConstraints(drones: seq<Drone>, clients: seq<Client>, servers: seq<Server>)
    returns (ok: bool)
    ensures !LocalChecks(Config(drones, clients, servers)) ==> !ok
    ensures ok <==> UtilsAccepts(Config(drones, clients, servers))
  {
    var c := Config(drones, clients, servers);
    var dronesId := DroneIds(drones);
    var clientId := ClientIds(clients);
    var serversId := ServerIds(servers);
    if || !CheckIdRepetitions(dronesId, clientId, serversId)
       || !CheckPdr(drones)
       || !CheckDroneConnections(drones)
       || !CheckClientConnections(clients, dronesId)
       || !CheckServerConnections(servers, dronesId)
    {
      return false;
    }
    var graph := FromEdges(GraphInit(drones));
    var components := ConnectedComponents(graph);
    graph := AddNodeEdges(graph, serversId, ServerNbrs(servers));
    graph := AddNodeEdges(graph, clientId, ClientNbrs(clients));
    assert graph == FullGraph(c);
    var bidirectional := CheckBidirectional(graph);
    AtMostOneComponent(DroneGraph(drones));
    FullGraphEdges(c);
    BidirectionalIffSymmetric(graph);
    ok := !(components > 1 || !bidirectional);
  }

  // ---------------------------------------------------------------------------
  // Relation to the `src/main.rs` validator
  // ---------------------------------------------------------------------------

  /** A drone's step in the search is one of the drone-declared edges. */
  lemma DroneStepInGraphInit(c: Config, a: NodeId, b: NodeId)
    requires a in DroneIds(c.drone) && b in V.Neighbours(c, a)
    ensures (a, b) in EdgeSet(GraphInit(c.drone))
  {
    var i := IndexOf(DroneIds(c.drone), a).value;
    assert V.Neighbours(c, a) == DroneNbrs(c.drone)[i];
    LinksMember(DroneIds(c.drone), DroneNbrs(c.drone), a, b);
  }

  /** With unique ids, an answered edge is declared in the other direction. */
  lemma AnsweredEdgeReversed(c: Config, u: NodeId, v: NodeId)
    requires Distinct(Ids(c)) && V.EdgeOk(c, u, v)
    ensures (v, u) in DeclaredEdges(c)
  {
    V.AdjKnown(c, v);
    var j :| 0 <= j < |Ids(c)| && Ids(c)[j] == v;
    assert Ids(c)[j] !in Ids(c)[..j];
    V.AdjAt(c, j);
    DeclaredMember(c, v, u);
  }

  /** With unique ids, answered declared edges are symmetric. */
  lemma AnsweredIsSymmetric(c: Config)
    requires Distinct(Ids(c)) && V.DeclaredEdgesAnswered(c)
    ensures Symmetric(DeclaredEdges(c))
  {
    forall e | e in DeclaredEdges(c) ensures (e.1, e.0) in DeclaredEdges(c) {
      DeclaredMember(c, e.0, e.1);
      var k :| 0 <= k < |Ids(c)| && Ids(c)[k] == e.0 && e.1 in Nbrs(c)[k];
      assert V.EdgeOk(c, e.0, e.1);
      AnsweredEdgeReversed(c, e.0, e.1);
    }
  }

  /** A walk of the search through drones only uses drone-declared edges. */
  lemma DroneWalkInDroneGraph(c: Config, w: seq<NodeId>)
    requires V.DroneWalk(c, w)
    ensures IsWalk(Undirected(EdgeSet(GraphInit(c.drone))), w)
  {
    forall i | 0 <= i < |w| - 1 ensures (w[i], w[i + 1]) in EdgeSet(GraphInit(c.drone)) {
      DroneStepInGraphInit(c, w[i], w[i + 1]);
    }
  }

  /** When the leaf check passes, every endpoint of a drone-declared edge is joined to the first drone. */
  lemma DroneGraphReachesRoot(c: Config, x: NodeId)
    requires |c.drone| > 0 && V.SymmetricAndConnected(V.OnlyDronesConfig(c))
    requires x in DroneGraph(c.drone).nodes
    ensures Reachable(Undirected(DroneGraph(c.drone).edges), c.drone[0].id, x)
  {
    var E := EdgeSet(GraphInit(c.drone));
    var u := Undirected(E);
    var root := c.drone[0].id;
    var ds, dn := DroneIds(c.drone), DroneNbrs(c.drone);
    AddEdgesShape(DiGraph([], {}), GraphInit(c.drone));
    assert x in EndPoints(E);
    var e :| e in E && (e.0 == x || e.1 == x);
    LinksMember(ds, dn, e.0, e.1);
    var k :| 0 <= k < |ds| && ds[k] == e.0 && e.1 in dn[k];
    V.LeafPlacement(c);
    assert e.0 in ds;
    var w :| V.DroneWalk(c, w) && w[0] == root && w[|w| - 1] == e.0;
    DroneWalkInDroneGraph(c, w);
    ReachableStep(u, root, e.0, e.1);
  }

  /**
   * Whatever the `src/main.rs` validator accepts, the refactored one
   * accepts too. The converse fails: see `Examples.RelayServerSplitsValidators`
   * and `Examples.LonelyDroneSplitsValidators`.
   */
  lemma MainAcceptedImpliesUtilsAccepts(c: Config)
    requires V.ValidTopology(c)
    ensures UtilsAccepts(c)
    ensures UtilsAcceptsByDegree(c)
  {
    LocalChecksAgree(c);
    V.SymmetricAndConnectedIff(c);
    AnsweredIsSymmetric(c);
    var g := DroneGraph(c.drone);
    var u := Undirected(g.edges);
    var root := c.drone[0].id;
    forall a, b | a in g.nodes && b in g.nodes ensures Reachable(u, a, b) {
      DroneGraphReachesRoot(c, a);
      DroneGraphReachesRoot(c, b);
      ReachableSym(u, root, a);
      ReachableTrans(u, a, root, b);
    }
    AcceptedUnderBothReadings(c);
  }
}
