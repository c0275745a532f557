/**
 * Concrete configurations: where the two validators part ways, and the
 * verdicts the repository's own tests fix.
 */
module Examples {
  import opened Topology
  import opened Graph
  import V = Validator
  import U = TopologyUtils

  // ---------------------------------------------------------------------------
  // A server relaying between two groups of drones
  // ---------------------------------------------------------------------------

  /**
   * Drones 0-1 and 2-3 form two groups joined only through server 12; client
   * 11 hangs off drone 0.
   */
  const Relay := Config(
    [Drone(0, [1, 11], Finite(0.5)), Drone(1, [0, 12], Finite(0.5)),
     Drone(2, [3, 12], Finite(0.5)), Drone(3, [2], Finite(0.5))],
    [Client(11, [0])],
    [Server(12, [1, 2])])

  /** `Relay` passes the five local checks, each shown on its own. */
  lemma RelayLocalChecks()
    ensures V.LocalChecks(Relay)
  {
    RelayIdsUnique();
    RelayPdrInRange();
    RelayDroneListsOk();
    RelayClientListsOk();
    RelayServerListsOk();
  }

  lemma RelayIdsUnique()
    ensures V.CheckIdRepetitions(DroneIds(Relay.drone), ClientIds(Relay.client), ServerIds(Relay.server))
  {
    assert DroneIds(Relay.drone) == [0, 1, 2, 3];
    assert ClientIds(Relay.client) == [11] && ServerIds(Relay.server) == [12];
  }

  lemma RelayPdrInRange()
    ensures CheckPdr(Relay.drone)
  {
  }

  lemma RelayDroneListsOk()
    ensures V.CheckDroneConnections(Relay.drone)
  {
  }

  lemma RelayClientListsOk()
    ensures V.CheckClientConnections(Relay.client, DroneIds(Relay.drone))
  {
    assert DroneIds(Relay.drone) == [0, 1, 2, 3];
  }

  lemma RelayServerListsOk()
    ensures V.CheckServerConnections(Relay.server, DroneIds(Relay.drone))
  {
    assert DroneIds(Relay.drone) == [0, 1, 2, 3];
  }

  /** What the leaf check searches for `Relay`: each drone keeps only its drone neighbours. */
  const RelayLeaves := Config(
    [Drone(0, [1], Finite(0.5)), Drone(1, [0], Finite(0.5)),
     Drone(2, [3], Finite(0.5)), Drone(3, [2], Finite(0.5))],
    [], [])

  lemma RelayProjection()
    ensures V.OnlyDronesConfig(Relay) == RelayLeaves
  {
    var ds := DroneIds(Relay.drone);
    assert ds == [0, 1, 2, 3];
    RelayFilters(ds);
    var p := V.OnlyDronesConfig(Relay);
    assert p.drone[0] == RelayLeaves.drone[0] && p.drone[1] == RelayLeaves.drone[1];
    assert p.drone[2] == RelayLeaves.drone[2] && p.drone[3] == RelayLeaves.drone[3];
  }

  /** Filtering the drone lists of `Relay` to drone ids drops 11 and 12. */
  lemma RelayFilters(ds: seq<NodeId>)
    requires ds == [0, 1, 2, 3]
    ensures V.FilterIds([1, 11], ds) == [1] && V.FilterIds([0, 12], ds) == [0]
    ensures V.FilterIds([3, 12], ds) == [3] && V.FilterIds([2], ds) == [2]
  {
    assert V.FilterIds([11], ds) == [] && V.FilterIds([12], ds) == [];
  }

  /** From drone 0 the projection only ever reaches drones 0 and 1. */
  lemma RelayLeavesClosed()
    ensures Closed(V.Steps(RelayLeaves), {0, 1})
  {
    var p := RelayLeaves;
    assert DroneIds(p.drone) == [0, 1, 2, 3];
    assert V.Neighbours(p, 0) == [1];
    assert V.Neighbours(p, 1) == [0];
  }

  /** The leaf check rejects `Relay`: drone 2 is reachable only through server 12. */
  lemma RelayLeavesSplit()
    ensures !V.SymmetricAndConnected(V.OnlyDronesConfig(Relay))
  {
    RelayProjection();
    RelayLeavesClosed();
    RelayLeavesMissDrone2();
  }

  lemma RelayLeavesMissDrone2()
    ensures !V.SymmetricAndConnected(RelayLeaves)
  {
    var p := RelayLeaves;
    var r := V.Steps(p);
    RelayLeavesClosed();
    assert Ids(p) == [0, 1, 2, 3];
    if Reachable(r, 0, 2) {
      ClosedHoldsReachable(r, {0, 1}, 0, 2);
    }
    assert p.drone[0].id == 0 && 2 in Ids(p);
  }

  /**
   * The search finds every node of `Relay` with its declared list (stated for
   * any configuration with `Relay`'s ids and lists).
   */
  lemma RelayAdj(c: Config)
    requires Ids(c) == [0, 1, 2, 3, 11, 12]
    requires Nbrs(c) == [[1, 11], [0, 12], [3, 12], [2], [0], [1, 2]]
    ensures V.Adj(c, 0) == Some([1, 11]) && V.Adj(c, 1) == Some([0, 12])
    ensures V.Adj(c, 2) == Some([3, 12]) && V.Adj(c, 3) == Some([2])
    ensures V.Adj(c, 11) == Some([0]) && V.Adj(c, 12) == Some([1, 2])
  {
    var ids, nbrs := Ids(c), Nbrs(c);
    V.AdjDistinct(c, ids, nbrs);
    assert ids[0] == 0 && ids[1] == 1 && ids[2] == 2 && ids[3] == 3 && ids[4] == 11 && ids[5] == 12;
  }

  /** Every node of `Relay` is reachable from drone 0 over the declared lists, through server 12. */
  lemma RelayReachable(c: Config)
    requires Ids(c) == [0, 1, 2, 3, 11, 12]
    requires Nbrs(c) == [[1, 11], [0, 12], [3, 12], [2], [0], [1, 2]]
    ensures forall x :: x in Ids(c) ==> Reachable(V.Steps(c), 0, x)
  {
    RelayAdj(c);
    assert 1 in V.Neighbours(c, 0) && 11 in V.Neighbours(c, 0);
    assert 12 in V.Neighbours(c, 1) && 2 in V.Neighbours(c, 12) && 3 in V.Neighbours(c, 2);
    RelayChain(V.Steps(c));
  }

  /** Along 0-1, 0-11, 1-12, 12-2, 2-3, node 0 reaches 0, 1, 2, 3, 11 and 12. */
  lemma RelayChain(r: set<Edge>)
    requires (0, 1) in r && (0, 11) in r && (1, 12) in r && (12, 2) in r && (2, 3) in r
    ensures forall x :: x in [0, 1, 2, 3, 11, 12] ==> Reachable(r, 0, x)
  {
    ReachableRefl(r, 0);
    ReachableStep(r, 0, 0, 1);
    ReachableStep(r, 0, 0, 11);
    ReachableStep(r, 0, 1, 12);
    ReachableStep(r, 0, 12, 2);
    ReachableStep(r, 0, 2, 3);
  }

  lemma RelayIds()
    ensures Ids(Relay) == [0, 1, 2, 3, 11, 12]
    ensures Nbrs(Relay) == [[1, 11], [0, 12], [3, 12], [2], [0], [1, 2]]
  {
    assert DroneIds(Relay.drone) == [0, 1, 2, 3];
    assert ClientIds(Relay.client) == [11];
    assert ServerIds(Relay.server) == [12];
    assert DroneNbrs(Relay.drone) == [[1, 11], [0, 12], [3, 12], [2]];
  }

  /** Every edge `Relay` (or any configuration with its ids and lists) declares is declared back. */
  lemma RelayAnswered(c: Config)
    requires Ids(c) == [0, 1, 2, 3, 11, 12]
    requires Nbrs(c) == [[1, 11], [0, 12], [3, 12], [2], [0], [1, 2]]
    ensures V.DeclaredEdgesAnswered(c)
  {
    RelayListsSymmetric();
    V.AnsweredByLists(c, Ids(c), Nbrs(c));
  }

  /** The lists of `Relay` name only its nodes and answer each other. */
  lemma RelayListsSymmetric()
    ensures V.SymmetricLists([0, 1, 2, 3, 11, 12], [[1, 11], [0, 12], [3, 12], [2], [0], [1, 2]])
  {
  }

  /** The search of `src/main.rs` accepts `Relay`: every edge is answered and every node reached. */
  lemma RelaySearchAccepts(c: Config)
    requires |c.drone| > 0 && c.drone[0].id == 0
    requires Ids(c) == [0, 1, 2, 3, 11, 12]
    requires Nbrs(c) == [[1, 11], [0, 12], [3, 12], [2], [0], [1, 2]]
    ensures V.SymmetricAndConnected(c)
  {
    assert Distinct(Ids(c));
    RelayAnswered(c);
    RelayReachable(c);
    V.SymmetricAndConnectedIff(c);
  }

  /** The edges the drones of `Relay` declare. */
  predicate RelayDeclares(u: NodeId, v: NodeId) {
    || (u == 0 && v in [1, 11]) || (u == 1 && v in [0, 12])
    || (u == 2 && v in [3, 12]) || (u == 3 && v == 2)
  }

  /** Who declares what in the drone list of `Relay`. */
  lemma RelayDroneLinks(u: NodeId, v: NodeId)
    ensures (u, v) in U.GraphInit(Relay.drone) <==> RelayDeclares(u, v)
  {
    var ids, nbrs := DroneIds(Relay.drone), DroneNbrs(Relay.drone);
    assert ids == [0, 1, 2, 3];
    assert nbrs == [[1, 11], [0, 12], [3, 12], [2]];
    U.LinksMember(ids, nbrs, u, v);
    if (u, v) in U.GraphInit(Relay.drone) {
      var k :| 0 <= k < |ids| && ids[k] == u && v in nbrs[k];
      assert k == 0 || k == 1 || k == 2 || k == 3;
    }
    if u == 0 && v in [1, 11] { assert ids[0] == u && v in nbrs[0]; }
    if u == 1 && v in [0, 12] { assert ids[1] == u && v in nbrs[1]; }
    if u == 2 && v in [3, 12] { assert ids[2] == u && v in nbrs[2]; }
    if u == 3 && v == 2 { assert ids[3] == u && v in nbrs[3]; }
  }

  /** A graph all of whose nodes a root reaches, ignoring direction, is weakly connected. */
  lemma ConnectedThroughRoot(g: U.DiGraph, root: NodeId)
    requires forall x :: x in g.nodes ==> Reachable(U.Undirected(g.edges), root, x)
    ensures U.WeaklyConnected(g)
  {
    var u := U.Undirected(g.edges);
    forall a, b | a in g.nodes && b in g.nodes ensures Reachable(u, a, b) {
      ReachableSym(u, root, a);
      ReachableTrans(u, a, root, b);
    }
  }

  /** The graph built from the edges `Relay`'s drones declare has the nodes those edges touch. */
  lemma DeclaredByRelayNodes(es: seq<Edge>)
    requires forall u: NodeId, v: NodeId :: (u, v) in es <==> RelayDeclares(u, v)
    ensures forall x :: x in U.FromEdges(es).nodes ==> x in [0, 1, 2, 3, 11, 12]
  {
    var within: seq<NodeId> := [0, 1, 2, 3, 11, 12];
    forall e | e in es ensures e.0 in within && e.1 in within {
      assert RelayDeclares(e.0, e.1);
    }
    U.FromEdgesNodesWithin(es, within);
  }

  /** The graph built from the edges `Relay`'s drones declare holds the path 0-1-12-2-3 and the edge 0-11. */
  lemma DeclaredByRelayEdges(es: seq<Edge>)
    requires forall u: NodeId, v: NodeId :: (u, v) in es <==> RelayDeclares(u, v)
    ensures (0, 1) in U.FromEdges(es).edges && (0, 11) in U.FromEdges(es).edges
    ensures (1, 12) in U.FromEdges(es).edges && (2, 12) in U.FromEdges(es).edges
    ensures (2, 3) in U.FromEdges(es).edges
  {
    U.AddEdgesShape(U.DiGraph([], {}), es);
    assert RelayDeclares(0, 1) && RelayDeclares(0, 11) && RelayDeclares(1, 12);
    assert RelayDeclares(2, 12) && RelayDeclares(2, 3);
  }

  /** In that graph drone 0 reaches every node, ignoring direction. */
  lemma DeclaredByRelayReached(g: U.DiGraph)
    requires forall x :: x in g.nodes ==> x in [0, 1, 2, 3, 11, 12]
    requires (0, 1) in g.edges && (0, 11) in g.edges && (1, 12) in g.edges && (2, 12) in g.edges && (2, 3) in g.edges
    ensures forall x :: x in g.nodes ==> Reachable(U.Undirected(g.edges), 0, x)
  {
    var u := U.Undirected(g.edges);
    assert (0, 1) in u && (0, 11) in u && (1, 12) in u && (12, 2) in u && (2, 3) in u;
    RelayChain(u);
  }

  /** The refactored validator finds one component among the drone edges of `Relay`. */
  lemma RelayDronesConnected()
    ensures U.WeaklyConnected(U.DroneGraph(Relay.drone))
  {
    var es := U.GraphInit(Relay.drone);
    forall u: NodeId, v: NodeId ensures (u, v) in es <==> RelayDeclares(u, v) {
      RelayDroneLinks(u, v);
    }
    DeclaredByRelayNodes(es);
    DeclaredByRelayEdges(es);
    DeclaredByRelayReached(U.DroneGraph(Relay.drone));
    ConnectedThroughRoot(U.DroneGraph(Relay.drone), 0);
  }

  /**
   * The refactored validator accepts `Relay`, while the validator of
   * `src/main.rs` rejects it at the leaf check: the component count only
   * looks at drone-declared edges, which may pass through a server.
   */
  lemma RelayServerSplitsValidators()
    ensures U.UtilsAccepts(Relay)
    ensures V.LocalChecks(Relay) && V.SymmetricAndConnected(Relay)
    ensures !V.SymmetricAndConnected(V.OnlyDronesConfig(Relay))
    ensures !V.ValidTopology(Relay)
  {
    RelayLocalChecks();
    U.LocalChecksAgree(Relay);
    RelayDronesConnected();
    RelayIds();
    RelayAnswered(Relay);
    U.AnsweredIsSymmetric(Relay);
    RelaySearchAccepts(Relay);
    RelayLeavesSplit();
  }

  // ---------------------------------------------------------------------------
  // A drone with no links
  // ---------------------------------------------------------------------------

  /** Drones 0 and 1 linked to each other, drone 2 linked to nothing. */
  const Lonely := Config(
    [Drone(0, [1], Finite(0.5)), Drone(1, [0], Finite(0.5)), Drone(2, [], Finite(0.5))],
    [], [])

  lemma LonelyIds()
    ensures Ids(Lonely) == [0, 1, 2]
    ensures Nbrs(Lonely) == [[1], [0], []]
  {
    assert DroneIds(Lonely.drone) == [0, 1, 2];
    assert DroneNbrs(Lonely.drone) == [[1], [0], []];
  }

  /** `Lonely` passes the five local checks: the drone lists are checked on their own. */
  lemma LonelyLocalChecks()
    ensures V.LocalChecks(Lonely)
  {
    LonelyIdsUnique();
    LonelyDroneListsOk();
  }

  lemma LonelyIdsUnique()
    ensures V.CheckIdRepetitions(DroneIds(Lonely.drone), [], [])
  {
    assert DroneIds(Lonely.drone) == [0, 1, 2];
  }

  lemma LonelyDroneListsOk()
    ensures V.CheckDroneConnections(Lonely.drone)
  {
  }

  lemma LonelyAdj()
    ensures V.Adj(Lonely, 0) == Some([1]) && V.Adj(Lonely, 1) == Some([0]) && V.Adj(Lonely, 2) == Some([])
  {
    assert DroneIds(Lonely.drone) == [0, 1, 2];
  }

  /** The search from drone 0 never reaches drone 2. */
  lemma LonelyUnreached()
    ensures !V.SymmetricAndConnected(Lonely)
  {
    var r := V.Steps(Lonely);
    LonelyAdj();
    assert Closed(r, {0, 1});
    LonelyIds();
    if Reachable(r, 0, 2) {
      ClosedHoldsReachable(r, {0, 1}, 0, 2);
    }
    assert Lonely.drone[0].id == 0 && 2 in Ids(Lonely);
  }

  /** Both declared links are answered. */
  lemma LonelyAnswered()
    ensures V.DeclaredEdgesAnswered(Lonely)
  {
    LonelyIds();
    assert V.SymmetricLists([0, 1, 2], [[1], [0], []]);
    V.AnsweredByLists(Lonely, [0, 1, 2], [[1], [0], []]);
  }

  /** The edges the drones of `Lonely` declare. */
  lemma LonelyDroneLinks(u: NodeId, v: NodeId)
    ensures (u, v) in U.GraphInit(Lonely.drone) <==> (u == 0 && v == 1) || (u == 1 && v == 0)
  {
    var ids, nbrs := DroneIds(Lonely.drone), DroneNbrs(Lonely.drone);
    assert ids == [0, 1, 2];
    assert nbrs == [[1], [0], []];
    U.LinksMember(ids, nbrs, u, v);
    if (u, v) in U.GraphInit(Lonely.drone) {
      var k :| 0 <= k < |ids| && ids[k] == u && v in nbrs[k];
      assert k == 0 || k == 1;
    }
    if u == 0 && v == 1 { assert ids[0] == u && v in nbrs[0]; }
    if u == 1 && v == 0 { assert ids[1] == u && v in nbrs[1]; }
  }

  /** The drone-edge graph of `Lonely` is the single link 0-1: drone 2 is not a node of it. */
  lemma LonelyDroneGraph(es: seq<Edge>)
    requires forall u: NodeId, v: NodeId :: (u, v) in es <==> (u == 0 && v == 1) || (u == 1 && v == 0)
    ensures forall x :: x in U.FromEdges(es).nodes ==> x == 0 || x == 1
    ensures (0, 1) in U.FromEdges(es).edges
  {
    U.AddEdgesShape(U.DiGraph([], {}), es);
    assert (0, 1) in es;
    forall x | x in U.FromEdges(es).nodes ensures x == 0 || x == 1 {
      assert x in U.EndPoints(U.EdgeSet(es));
      var e :| e in es && (x == e.0 || x == e.1);
    }
  }

  /** The refactored validator finds one component among the drone edges of `Lonely`. */
  lemma LonelyDronesConnected()
    ensures U.WeaklyConnected(U.DroneGraph(Lonely.drone))
  {
    var es := U.GraphInit(Lonely.drone);
    forall u: NodeId, v: NodeId ensures (u, v) in es <==> (u == 0 && v == 1) || (u == 1 && v == 0) {
      LonelyDroneLinks(u, v);
    }
    LonelyDroneGraph(es);
    var g := U.DroneGraph(Lonely.drone);
    var r := U.Undirected(g.edges);
    assert (0, 1) in r;
    ReachableRefl(r, 0);
    ReachableStep(r, 0, 0, 1);
    ConnectedThroughRoot(g, 0);
  }

  /**
   * The refactored validator accepts a network in which drone 2 can reach
   * nobody, because a drone with no links adds no node to the graph whose
   * components are counted; the validator of `src/main.rs` rejects it as
   * not connected.
   */
  lemma LonelyDroneSplitsValidators()
    ensures U.UtilsAccepts(Lonely)
    ensures V.LocalChecks(Lonely) && |Lonely.drone| > 0 && !V.SymmetricAndConnected(Lonely)
    ensures !V.ValidTopology(Lonely)
  {
    LonelyLocalChecks();
    U.LocalChecksAgree(Lonely);
    LonelyDronesConnected();
    LonelyIds();
    LonelyAnswered();
    U.AnsweredIsSymmetric(Lonely);
    LonelyUnreached();
  }

  // ---------------------------------------------------------------------------
  // A cycle of one-way links
  // ---------------------------------------------------------------------------

  /** Drones 0 -> 1 -> 2 -> 0, each declaring only its successor. */
  const Cycle := Config(
    [Drone(0, [1], Finite(0.5)), Drone(1, [2], Finite(0.5)), Drone(2, [0], Finite(0.5))],
    [], [])

  lemma CycleIds()
    ensures DroneIds(Cycle.drone) == [0, 1, 2] && DroneNbrs(Cycle.drone) == [[1], [2], [0]]
    ensures Ids(Cycle) == [0, 1, 2] && Nbrs(Cycle) == [[1], [2], [0]]
  {
    assert DroneIds(Cycle.drone) == [0, 1, 2];
    assert DroneNbrs(Cycle.drone) == [[1], [2], [0]];
  }

  /** `Cycle` passes the five local checks: one-way links are not a local fault. */
  lemma CycleLocalChecks()
    ensures V.LocalChecks(Cycle)
  {
    CycleIdsUnique();
    CycleDroneListsOk();
  }

  lemma CycleIdsUnique()
    ensures V.CheckIdRepetitions(DroneIds(Cycle.drone), [], [])
  {
    assert DroneIds(Cycle.drone) == [0, 1, 2];
  }

  lemma CycleDroneListsOk()
    ensures V.CheckDroneConnections(Cycle.drone)
  {
  }

  predicate CycleDeclares(u: NodeId, v: NodeId) {
    (u == 0 && v == 1) || (u == 1 && v == 2) || (u == 2 && v == 0)
  }

  /** The edges the drones of `Cycle` declare. */
  lemma CycleDroneLinks(u: NodeId, v: NodeId)
    ensures (u, v) in U.GraphInit(Cycle.drone) <==> CycleDeclares(u, v)
  {
    var ids, nbrs := DroneIds(Cycle.drone), DroneNbrs(Cycle.drone);
    CycleIds();
    U.LinksMember(ids, nbrs, u, v);
    if (u, v) in U.GraphInit(Cycle.drone) {
      var k :| 0 <= k < |ids| && ids[k] == u && v in nbrs[k];
      assert k == 0 || k == 1 || k == 2;
    }
    if u == 0 && v == 1 { assert ids[0] == u && v in nbrs[0]; }
    if u == 1 && v == 2 { assert ids[1] == u && v in nbrs[1]; }
    if u == 2 && v == 0 { assert ids[2] == u && v in nbrs[2]; }
  }

  /** The edge list `Cycle`'s drones declare holds exactly the three cycle edges. */
  lemma CycleEdgeSet(es: seq<Edge>)
    requires forall u: NodeId, v: NodeId :: (u, v) in es <==> CycleDeclares(u, v)
    ensures U.EdgeSet(es) == {(0, 1), (1, 2), (2, 0)}
  {
    forall e | e in U.EdgeSet(es) ensures e in {(0, 1), (1, 2), (2, 0)} {
      assert CycleDeclares(e.0, e.1);
    }
    assert (0, 1) in es && (1, 2) in es && (2, 0) in es;
  }

  /** A graph built from exactly the edges `Cycle` declares has exactly those edges. */
  lemma CycleGraphEdges(es: seq<Edge>)
    requires forall u: NodeId, v: NodeId :: (u, v) in es <==> CycleDeclares(u, v)
    ensures U.FromEdges(es).edges == {(0, 1), (1, 2), (2, 0)}
  {
    U.AddEdgesShape(U.DiGraph([], {}), es);
    CycleEdgeSet(es);
  }

  /** A graph built from the edges `Cycle` declares has only the nodes 0, 1 and 2. */
  lemma CycleGraphNodes(es: seq<Edge>)
    requires forall u: NodeId, v: NodeId :: (u, v) in es <==> CycleDeclares(u, v)
    ensures forall x :: x in U.FromEdges(es).nodes ==> x in [0, 1, 2]
  {
    forall e | e in es ensures e.0 in [0, 1, 2] && e.1 in [0, 1, 2] {
      assert CycleDeclares(e.0, e.1);
    }
    U.FromEdgesNodesWithin(es, [0, 1, 2]);
  }

  /** The drone-edge graph of `Cycle`: the three declared edges over the nodes 0, 1 and 2. */
  lemma CycleDroneGraph()
    ensures U.DroneGraph(Cycle.drone).edges == {(0, 1), (1, 2), (2, 0)}
    ensures forall x :: x in U.DroneGraph(Cycle.drone).nodes ==> x in [0, 1, 2]
  {
    var es := U.GraphInit(Cycle.drone);
    forall u: NodeId, v: NodeId ensures (u, v) in es <==> CycleDeclares(u, v) {
      CycleDroneLinks(u, v);
    }
    CycleGraphEdges(es);
    CycleGraphNodes(es);
  }

  /** A graph over the nodes 0, 1 and 2 holding the edges 0 -> 1 and 1 -> 2 joins every node to 0. */
  lemma CycleReached(g: U.DiGraph)
    requires forall x :: x in g.nodes ==> x in [0, 1, 2]
    requires (0, 1) in g.edges && (1, 2) in g.edges
    ensures forall x :: x in g.nodes ==> Reachable(U.Undirected(g.edges), 0, x)
  {
    var r := U.Undirected(g.edges);
    ReachableRefl(r, 0);
    ReachableStep(r, 0, 0, 1);
    ReachableStep(r, 0, 1, 2);
  }

  /** Drone 0 reaches the other two along the cycle, so there is one component. */
  lemma CycleDronesConnected()
    ensures U.WeaklyConnected(U.DroneGraph(Cycle.drone))
  {
    var g := U.DroneGraph(Cycle.drone);
    CycleDroneGraph();
    CycleReached(g);
    ConnectedThroughRoot(g, 0);
  }

  /** With no clients and no servers, the graph `check_bidirectional` inspects is the drone-edge graph. */
  lemma OnlyDroneEdges(c: Config)
    requires c.client == [] && c.server == []
    ensures U.FullGraph(c) == U.DroneGraph(c.drone)
  {
    assert ServerIds(c.server) == [] && ClientIds(c.client) == [];
  }

  /** Every node of the cycle has one edge in and one edge out. */
  lemma CycleEqualDegrees()
    ensures U.EqualDegrees(U.FullGraph(Cycle))
  {
    OnlyDroneEdges(Cycle);
    CycleDroneGraph();
    U.CycleSplitsReadings();
  }

  /** Drone 0 declares the edge to drone 1, which does not declare it back. */
  lemma CycleOneWay(c: Config)
    requires Ids(c) == [0, 1, 2] && Nbrs(c) == [[1], [2], [0]]
    ensures (0, 1) in U.DeclaredEdges(c) && (1, 0) !in U.DeclaredEdges(c)
    ensures V.Adj(c, 1) == Some([2])
  {
    U.DeclaredMember(c, 0, 1);
    assert Ids(c)[0] == 0 && 1 in Nbrs(c)[0];
    U.DeclaredMember(c, 1, 0);
    V.AdjDistinct(c, [0, 1, 2], [[1], [2], [0]]);
  }

  /**
   * Under the degree reading of `check_bidirectional` the refactored
   * validator accepts `Cycle`: every node has one edge in and one edge out.
   * Under the neighbour reading it rejects it, and so does the validator of
   * `src/main.rs`, because drone 1 does not list drone 0.
   */
  lemma CycleSplitsValidators()
    ensures U.UtilsAcceptsByDegree(Cycle)
    ensures !U.UtilsAccepts(Cycle)
    ensures !V.ValidTopology(Cycle)
  {
    CycleLocalChecks();
    U.LocalChecksAgree(Cycle);
    CycleDronesConnected();
    CycleEqualDegrees();
    CycleIds();
    CycleOneWay(Cycle);
    assert !V.EdgeOk(Cycle, Ids(Cycle)[0], 1);
    if V.ValidTopology(Cycle) {
      V.AcceptedNeighboursAreNodes(Cycle);
    }
  }

}
