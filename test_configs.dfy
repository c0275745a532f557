/**
 * The verdicts the repository's own tests fix, on the configuration they
 * all start from and on the edits they make to it.
 */
module TestConfigs {
  import opened Topology
  import opened Graph
  import V = Validator
  import U = TopologyUtils

  /**
   * The tests' `correct_config`: drones 0-3 in a ring 0-1-2-3-0, client 11
   * on drone 0, server 12 on drones 2 and 3.
   */
  const Correct := Config(
    [Drone(0, [1, 3, 11], Finite(0.0)), Drone(1, [0, 2], Finite(0.8)),
     Drone(2, [1, 3, 12], Finite(1.0)), Drone(3, [0, 2, 12], Finite(0.4))],
    [Client(11, [0])],
    [Server(12, [2, 3])])

  lemma CorrectIds()
    ensures DroneIds(Correct.drone) == [0, 1, 2, 3]
    ensures ClientIds(Correct.client) == [11] && ServerIds(Correct.server) == [12]
    ensures Ids(Correct) == [0, 1, 2, 3, 11, 12]
    ensures Nbrs(Correct) == [[1, 3, 11], [0, 2], [1, 3, 12], [0, 2, 12], [0], [2, 3]]
  {
    assert DroneIds(Correct.drone) == [0, 1, 2, 3];
    assert ClientIds(Correct.client) == [11];
    assert ServerIds(Correct.server) == [12];
    assert DroneNbrs(Correct.drone) == [[1, 3, 11], [0, 2], [1, 3, 12], [0, 2, 12]];
  }

  // ---------------------------------------------------------------------------
  // The local checks
  // ---------------------------------------------------------------------------

  /** Unique ids pass; a drone id replaced by the client's, the server's or another drone's fails. */
  lemma IdRepetitionCases()
    ensures V.CheckIdRepetitions([0, 1, 2, 3], [11], [12])
    ensures !V.CheckIdRepetitions([11, 1, 2, 3], [11], [12])
    ensures !V.CheckIdRepetitions([12, 1, 2, 3], [11], [12])
    ensures !V.CheckIdRepetitions([1, 1, 2, 3], [11], [12])
    ensures U.CheckIdRepetitions([0, 1, 2, 3], [11], [12])
    ensures !U.CheckIdRepetitions([11, 1, 2, 3], [11], [12])
    ensures !U.CheckIdRepetitions([12, 1, 2, 3], [11], [12])
    ensures !U.CheckIdRepetitions([1, 1, 2, 3], [11], [12])
  {
    assert 11 in Elems([11, 1, 2, 3]) && 11 in Elems([11]);
    assert 12 in Elems([12, 1, 2, 3]) && 12 in Elems([12]);
    assert [1, 1, 2, 3][0] == [1, 1, 2, 3][1];
  }

  /** The tests' drop rates pass; 3.0 and NaN fail. */
  lemma PdrCases()
    ensures CheckPdr(Correct.drone)
    ensures !CheckPdr(Correct.drone[0 := Drone(0, [1, 3, 11], Finite(3.0))])
    ensures !CheckPdr(Correct.drone[0 := Drone(0, [1, 3, 11], Finite(0.98))][2 := Drone(2, [1, 3, 12], NaN)])
  {
    var d1 := Correct.drone[0 := Drone(0, [1, 3, 11], Finite(3.0))];
    assert d1[0] in d1;
    var d2 := Correct.drone[0 := Drone(0, [1, 3, 11], Finite(0.98))][2 := Drone(2, [1, 3, 12], NaN)];
    assert d2[2] in d2;
  }

  /** Drone 0's lists: the original passes, a self-loop `[1, 0, 11]` and a repeat `[1, 1, 11]` fail. */
  lemma DroneConnectionCases()
    ensures V.CheckDroneConnections(Correct.drone) && U.CheckDroneConnections(Correct.drone)
    ensures !V.CheckDroneConnections(Correct.drone[0 := Drone(0, [1, 0, 11], Finite(0.0))])
    ensures !V.CheckDroneConnections(Correct.drone[0 := Drone(0, [1, 1, 11], Finite(0.0))])
  {
    var d1 := Correct.drone[0 := Drone(0, [1, 0, 11], Finite(0.0))];
    assert d1[0].id in d1[0].connectedNodeIds;
    var d2 := Correct.drone[0 := Drone(0, [1, 1, 11], Finite(0.0))];
    assert d2[0].connectedNodeIds[0] == d2[0].connectedNodeIds[1];
  }

  /**
   * Client 11's lists: `[0]` passes; a self-loop `[11]`, then `[11, 0]`,
   * an unknown drone `[123, 0]` and four neighbours `[0, 1, 2, 3]` fail.
   */
  lemma ClientConnectionCases()
    ensures V.CheckClientConnections([Client(11, [0])], [0, 1, 2, 3])
    ensures !V.CheckClientConnections([Client(11, [11])], [0, 1, 2, 3])
    ensures !V.CheckClientConnections([Client(11, [11, 0])], [0, 1, 2, 3])
    ensures !V.CheckClientConnections([Client(11, [123, 0])], [0, 1, 2, 3])
    ensures !V.CheckClientConnections([Client(11, [0, 1, 2, 3])], [0, 1, 2, 3])
    ensures U.CheckClientConnections([Client(11, [0])], [0, 1, 2, 3])
    ensures !U.CheckClientConnections([Client(11, [0, 1, 2, 3])], [0, 1, 2, 3])
  {
    assert [Client(11, [11])][0].connectedDroneIds == [11];
    assert [Client(11, [11, 0])][0].connectedDroneIds == [11, 0];
    assert [Client(11, [123, 0])][0].connectedDroneIds == [123, 0];
    assert 123 !in Elems([0, 1, 2, 3]);
    assert [Client(11, [0, 1, 2, 3])][0].connectedDroneIds == [0, 1, 2, 3];
  }

  /**
   * Server 12's lists: `[2, 3]` passes; a client `[11, 3]`, a repeat
   * `[11, 11]`, an unknown drone `[123, 11]` and no neighbours fail.
   */
  lemma ServerConnectionCases()
    ensures V.CheckServerConnections([Server(12, [2, 3])], [0, 1, 2, 3])
    ensures !V.CheckServerConnections([Server(12, [11, 3])], [0, 1, 2, 3])
    ensures !V.CheckServerConnections([Server(12, [11, 11])], [0, 1, 2, 3])
    ensures !V.CheckServerConnections([Server(12, [123, 11])], [0, 1, 2, 3])
    ensures !V.CheckServerConnections([Server(12, [])], [0, 1, 2, 3])
    ensures U.CheckServerConnections([Server(12, [2, 3])], [0, 1, 2, 3])
    ensures !U.CheckServerConnections([Server(12, [])], [0, 1, 2, 3])
  {
    assert [Server(12, [11, 3])][0].connectedDroneIds == [11, 3];
    assert 11 !in Elems([0, 1, 2, 3]);
    assert [Server(12, [11, 11])][0].connectedDroneIds == [11, 11];
    assert [Server(12, [123, 11])][0].connectedDroneIds == [123, 11];
    assert [Server(12, [])][0].connectedDroneIds == [];
  }

  // ---------------------------------------------------------------------------
  // Bidirectionality of a graph built from edges
  // ---------------------------------------------------------------------------

  /** A graph built from a list of edges passes `check_bidirectional` exactly when the listed edges are symmetric. */
  lemma BidirectionalFromEdges(es: seq<Edge>)
    ensures U.Bidirectional(U.FromEdges(es)) <==> Symmetric(U.EdgeSet(es))
  {
    U.AddEdgesShape(U.DiGraph([], {}), es);
    U.BidirectionalIffSymmetric(U.FromEdges(es));
  }

  /** `g1`: the links 1-2 and 2-3, each declared both ways, pass. */
  lemma GraphSymmetricCase()
    ensures U.Bidirectional(U.FromEdges([(1, 2), (2, 1), (2, 3), (3, 2)]))
  {
    var g1: seq<Edge> := [(1, 2), (2, 1), (2, 3), (3, 2)];
    BidirectionalFromEdges(g1);
    forall e | e in U.EdgeSet(g1) ensures (e.1, e.0) in U.EdgeSet(g1) {
      assert e in g1;
    }
  }

  /** A graph built from edges that hold a one-way edge fails `check_bidirectional`. */
  lemma OneWayRejected(es: seq<Edge>, a: NodeId, b: NodeId)
    requires (a, b) in es && (b, a) !in es
    ensures !U.Bidirectional(U.FromEdges(es))
  {
    BidirectionalFromEdges(es);
    assert (a, b) in U.EdgeSet(es);
  }

  /** `g2`: the same with a one-way edge 3->1 added fails. */
  lemma GraphOneWayCase()
    ensures !U.Bidirectional(U.FromEdges([(1, 2), (2, 1), (2, 3), (3, 2), (3, 1)]))
  {
    OneWayRejected([(1, 2), (2, 1), (2, 3), (3, 2), (3, 1)], 3, 1);
  }

  /** `g4`: with the one-way edges 3->1 and 3->5 added fails. */
  lemma GraphTwoOneWayCase()
    ensures !U.Bidirectional(U.FromEdges([(1, 2), (2, 1), (2, 3), (3, 2), (3, 1), (3, 5)]))
  {
    OneWayRejected([(1, 2), (2, 1), (2, 3), (3, 2), (3, 1), (3, 5)], 3, 1);
  }

  // ---------------------------------------------------------------------------
  // The search and the leaf check on `correct_config`
  // ---------------------------------------------------------------------------

  /** The search finds every node of `correct_config` (or of any configuration with its ids and lists) with its own list. */
  lemma CorrectAdj(c: Config)
    requires Ids(c) == [0, 1, 2, 3, 11, 12]
    requires Nbrs(c) == [[1, 3, 11], [0, 2], [1, 3, 12], [0, 2, 12], [0], [2, 3]]
    ensures V.Adj(c, 0) == Some([1, 3, 11]) && V.Adj(c, 1) == Some([0, 2])
    ensures V.Adj(c, 2) == Some([1, 3, 12]) && V.Adj(c, 3) == Some([0, 2, 12])
    ensures V.Adj(c, 11) == Some([0]) && V.Adj(c, 12) == Some([2, 3])
  {
    var ids, nbrs := Ids(c), Nbrs(c);
    V.AdjDistinct(c, ids, nbrs);
    assert ids[0] == 0 && ids[1] == 1 && ids[2] == 2 && ids[3] == 3 && ids[4] == 11 && ids[5] == 12;
  }

  /** Along 0-1, 0-3, 0-11, 1-2, 2-12, node 0 reaches 0, 1, 2, 3, 11 and 12. */
  lemma CorrectChain(r: set<Edge>)
    requires (0, 1) in r && (0, 3) in r && (0, 11) in r && (1, 2) in r && (2, 12) in r
    ensures forall x :: x in [0, 1, 2, 3, 11, 12] ==> Reachable(r, 0, x)
  {
    ReachableRefl(r, 0);
    ReachableStep(r, 0, 0, 1);
    ReachableStep(r, 0, 0, 3);
    ReachableStep(r, 0, 0, 11);
    ReachableStep(r, 0, 1, 2);
    ReachableStep(r, 0, 2, 12);
  }

  lemma CorrectReachable()
    ensures forall x :: x in Ids(Correct) ==> Reachable(V.Steps(Correct), 0, x)
  {
    CorrectIds();
    CorrectAdj(Correct);
    assert 1 in V.Neighbours(Correct, 0) && 3 in V.Neighbours(Correct, 0) && 11 in V.Neighbours(Correct, 0);
    assert 2 in V.Neighbours(Correct, 1) && 12 in V.Neighbours(Correct, 2);
    CorrectChain(V.Steps(Correct));
    CorrectIds();
  }

  lemma CorrectAnswered(c: Config)
    requires Ids(c) == [0, 1, 2, 3, 11, 12]
    requires Nbrs(c) == [[1, 3, 11], [0, 2], [1, 3, 12], [0, 2, 12], [0], [2, 3]]
    ensures V.DeclaredEdgesAnswered(c)
  {
    CorrectListsSymmetric();
    V.AnsweredByLists(c, Ids(c), Nbrs(c));
  }

  /** The lists of `correct_config` name only its nodes and answer each other. */
  lemma CorrectListsSymmetric()
    ensures V.SymmetricLists([0, 1, 2, 3, 11, 12], [[1, 3, 11], [0, 2], [1, 3, 12], [0, 2, 12], [0], [2, 3]])
  {
  }

  /** `check_bidirectional_and_connected` accepts `correct_config`. */
  lemma CorrectSearchAccepts()
    ensures V.SymmetricAndConnected(Correct)
  {
    CorrectIds();
    assert Distinct(Ids(Correct));
    CorrectAnswered(Correct);
    CorrectReachable();
    assert Correct.drone[0].id == 0;
    V.SymmetricAndConnectedIff(Correct);
  }

  /** The drone-only projection of `correct_config`: the ring 0-1-2-3-0. */
  const CorrectLeaves := Config(
    [Drone(0, [1, 3], Finite(0.0)), Drone(1, [0, 2], Finite(0.8)),
     Drone(2, [1, 3], Finite(1.0)), Drone(3, [0, 2], Finite(0.4))],
    [], [])

  lemma CorrectProjection()
    ensures V.OnlyDronesConfig(Correct) == CorrectLeaves
  {
    var p := V.OnlyDronesConfig(Correct);
    CorrectProjectedFront(p);
    CorrectProjectedBack(p);
    SameFour(p.drone, CorrectLeaves.drone);
  }

  /** Two four-element sequences that agree at every position are equal. */
  lemma SameFour<T>(a: seq<T>, b: seq<T>)
    requires |a| == |b| == 4
    requires a[0] == b[0] && a[1] == b[1] && a[2] == b[2] && a[3] == b[3]
    ensures a == b
  {
    assert forall i :: 0 <= i < 4 ==> a[i] == b[i];
  }

  /** The projection keeps drones 0 and 1 with their drone neighbours only. */
  lemma CorrectProjectedFront(p: Config)
    requires p == V.OnlyDronesConfig(Correct)
    ensures p.drone[0] == CorrectLeaves.drone[0] && p.drone[1] == CorrectLeaves.drone[1]
  {
    RingFilters(DroneIds(Correct.drone));
  }

  /** The projection keeps drones 2 and 3 with their drone neighbours only. */
  lemma CorrectProjectedBack(p: Config)
    requires p == V.OnlyDronesConfig(Correct)
    ensures p.drone[2] == CorrectLeaves.drone[2] && p.drone[3] == CorrectLeaves.drone[3]
  {
    RingFilters(DroneIds(Correct.drone));
  }

  /** Filtering the drone lists of `correct_config` to drone ids drops 11 and 12. */
  lemma RingFilters(ds: seq<NodeId>)
    requires ds == [0, 1, 2, 3]
    ensures V.FilterIds([1, 3, 11], ds) == [1, 3] && V.FilterIds([0, 2], ds) == [0, 2]
    ensures V.FilterIds([1, 3, 12], ds) == [1, 3] && V.FilterIds([0, 2, 12], ds) == [0, 2]
  {
    assert V.FilterIds([11], ds) == [] && V.FilterIds([12], ds) == [];
    assert V.FilterIds([3, 11], ds) == [3];
    assert V.FilterIds([3, 12], ds) == [3] && V.FilterIds([2, 12], ds) == [2];
  }

  lemma CorrectLeavesIds()
    ensures Ids(CorrectLeaves) == [0, 1, 2, 3]
    ensures Nbrs(CorrectLeaves) == [[1, 3], [0, 2], [1, 3], [0, 2]]
  {
    assert DroneIds(CorrectLeaves.drone) == [0, 1, 2, 3];
    assert DroneNbrs(CorrectLeaves.drone) == [[1, 3], [0, 2], [1, 3], [0, 2]];
  }

  lemma CorrectLeavesAdj(c: Config)
    requires Ids(c) == [0, 1, 2, 3] && Nbrs(c) == [[1, 3], [0, 2], [1, 3], [0, 2]]
    ensures V.Adj(c, 0) == Some([1, 3]) && V.Adj(c, 1) == Some([0, 2])
    ensures V.Adj(c, 2) == Some([1, 3]) && V.Adj(c, 3) == Some([0, 2])
  {
    var ids, nbrs := Ids(c), Nbrs(c);
    V.AdjDistinct(c, ids, nbrs);
    assert ids[0] == 0 && ids[1] == 1 && ids[2] == 2 && ids[3] == 3;
  }

  /** Along 0-1, 0-3, 1-2, node 0 reaches every drone. */
  lemma RingChain(r: set<Edge>)
    requires (0, 1) in r && (0, 3) in r && (1, 2) in r
    ensures forall x :: x in [0, 1, 2, 3] ==> Reachable(r, 0, x)
  {
    ReachableRefl(r, 0);
    ReachableStep(r, 0, 0, 1);
    ReachableStep(r, 0, 0, 3);
    ReachableStep(r, 0, 1, 2);
  }

  lemma CorrectLeavesReachable()
    ensures forall x :: x in Ids(CorrectLeaves) ==> Reachable(V.Steps(CorrectLeaves), 0, x)
  {
    CorrectLeavesIds();
    CorrectLeavesAdj(CorrectLeaves);
    assert 1 in V.Neighbours(CorrectLeaves, 0) && 3 in V.Neighbours(CorrectLeaves, 0);
    assert 2 in V.Neighbours(CorrectLeaves, 1);
    RingChain(V.Steps(CorrectLeaves));
    CorrectLeavesIds();
  }

  lemma CorrectLeavesAnswered(p: Config)
    requires Ids(p) == [0, 1, 2, 3] && Nbrs(p) == [[1, 3], [0, 2], [1, 3], [0, 2]]
    ensures V.DeclaredEdgesAnswered(p)
  {
    RingListsSymmetric();
    V.AnsweredByLists(p, Ids(p), Nbrs(p));
  }

  /** The ring's lists answer each other. */
  lemma RingListsSymmetric()
    ensures V.SymmetricLists([0, 1, 2, 3], [[1, 3], [0, 2], [1, 3], [0, 2]])
  {
  }

  /** The search of `src/main.rs` accepts the ring of drones. */
  lemma CorrectLeavesSearch()
    ensures V.SymmetricAndConnected(CorrectLeaves)
  {
    CorrectLeavesIds();
    assert Distinct(Ids(CorrectLeaves));
    CorrectLeavesAnswered(CorrectLeaves);
    CorrectLeavesReachable();
    assert CorrectLeaves.drone[0].id == 0;
    V.SymmetricAndConnectedIff(CorrectLeaves);
  }

  /** `check_connected_only_drones` accepts `correct_config`: the drones alone form the ring. */
  lemma CorrectLeavesAccepted()
    ensures V.SymmetricAndConnected(V.OnlyDronesConfig(Correct))
  {
    CorrectProjection();
    CorrectLeavesSearch();
  }

  // ---------------------------------------------------------------------------
  // Edits the search and the leaf check reject
  // ---------------------------------------------------------------------------

  /** `correct_config` with a client 34 that lists no drone. */
  const StrayClient := Config(Correct.drone, [Client(11, [0]), Client(34, [])], Correct.server)

  lemma StrayClientIds()
    ensures Ids(StrayClient) == [0, 1, 2, 3, 11, 34, 12]
    ensures Nbrs(StrayClient) == [[1, 3, 11], [0, 2], [1, 3, 12], [0, 2, 12], [0], [], [2, 3]]
  {
    assert DroneIds(StrayClient.drone) == [0, 1, 2, 3];
    assert ClientIds(StrayClient.client) == [11, 34];
    assert ServerIds(StrayClient.server) == [12];
    assert DroneNbrs(StrayClient.drone) == [[1, 3, 11], [0, 2], [1, 3, 12], [0, 2, 12]];
  }

  /** Every node but 34 keeps its `correct_config` list. */
  lemma StrayClientAdj(c: Config)
    requires Ids(c) == [0, 1, 2, 3, 11, 34, 12]
    requires Nbrs(c) == [[1, 3, 11], [0, 2], [1, 3, 12], [0, 2, 12], [0], [], [2, 3]]
    ensures V.Adj(c, 0) == Some([1, 3, 11]) && V.Adj(c, 1) == Some([0, 2])
    ensures V.Adj(c, 2) == Some([1, 3, 12]) && V.Adj(c, 3) == Some([0, 2, 12])
    ensures V.Adj(c, 11) == Some([0]) && V.Adj(c, 12) == Some([2, 3])
  {
    var ids, nbrs := Ids(c), Nbrs(c);
    V.AdjDistinct(c, ids, nbrs);
    assert ids[0] == 0 && ids[1] == 1 && ids[2] == 2 && ids[3] == 3 && ids[4] == 11 && ids[6] == 12;
  }

  /** The nodes other than 34 only list each other. */
  lemma StrayClientClosed(c: Config)
    requires Ids(c) == [0, 1, 2, 3, 11, 34, 12]
    requires Nbrs(c) == [[1, 3, 11], [0, 2], [1, 3, 12], [0, 2, 12], [0], [], [2, 3]]
    ensures Closed(V.Steps(c), {0, 1, 2, 3, 11, 12})
  {
    var s: set<NodeId> := {0, 1, 2, 3, 11, 12};
    StrayClientAdj(c);
    forall u, v | (u, v) in V.Steps(c) && u in s ensures v in s {
      assert v in V.Neighbours(c, u);
      if u == 0 {
        assert v in [1, 3, 11];
      } else if u == 1 || u == 3 {
        assert v in [0, 2, 12];
      } else if u == 2 {
        assert v in [1, 3, 12];
      } else {
        assert v in [0, 2, 3];
      }
    }
  }

  /** Nobody lists the sixth node, 34, so the search never reaches it and rejects. */
  lemma StrayClientUnreached(c: Config)
    requires Ids(c) == [0, 1, 2, 3, 11, 34, 12]
    requires Nbrs(c) == [[1, 3, 11], [0, 2], [1, 3, 12], [0, 2, 12], [0], [], [2, 3]]
    requires |c.drone| > 0 && c.drone[0].id == 0
    ensures !V.SymmetricAndConnected(c)
  {
    var r := V.Steps(c);
    StrayClientClosed(c);
    if Reachable(r, 0, 34) {
      ClosedHoldsReachable(r, {0, 1, 2, 3, 11, 12}, 0, 34);
    }
    assert Ids(c)[5] == 34;
  }

  lemma StrayClientRejected()
    ensures !V.SymmetricAndConnected(StrayClient)
  {
    StrayClientIds();
    assert StrayClient.drone[0].id == 0;
    StrayClientUnreached(StrayClient);
  }

  /** `correct_config` with client 11's only link popped. */
  const MuteClient := Config(Correct.drone, [Client(11, [])], Correct.server)

  /** Drone 0 lists client 11, which no longer lists it back: the search rejects. */
  lemma MuteClientRejected()
    ensures !V.SymmetricAndConnected(MuteClient)
  {
    var c := MuteClient;
    assert DroneIds(c.drone) == [0, 1, 2, 3] && ClientIds(c.client) == [11];
    assert Ids(c)[0] == 0 && Nbrs(c)[0] == [1, 3, 11];
    assert V.Adj(c, 11) == Some([]);
    assert !V.EdgeOk(c, Ids(c)[0], 11);
    V.SymmetricAndConnectedIff(c);
  }

  /**
   * The drones of `correct_config` with drone 0's list edited to
   * `[1, 10, 11]` (second test edit) or `[1, 10]` (third).
   */
  function EditedDrones(first: seq<NodeId>): (ds: seq<Drone>)
    ensures |ds| == 4 && ds[0].connectedNodeIds == first
    ensures DroneIds(ds) == [0, 1, 2, 3]
  {
    var ds := [Drone(0, first, Finite(0.0))] + Correct.drone[1..];
    assert DroneIds(ds) == [0, 1, 2, 3];
    ds
  }

  /**
   * Once drone 0 no longer lists drone 3, drone 3's link to 0 goes
   * unanswered in the drone-only projection and the leaf check rejects.
   */
  lemma LeafEditRejected(first: seq<NodeId>)
    requires first == [1, 10, 11] || first == [1, 10]
    ensures !V.SymmetricAndConnected(V.OnlyDronesConfig(Config(EditedDrones(first), Correct.client, Correct.server)))
  {
    var p := V.OnlyDronesConfig(Config(EditedDrones(first), Correct.client, Correct.server));
    LeafEditLists(first);
    assert !V.EdgeOk(p, Ids(p)[3], 0);
    V.SymmetricAndConnectedIff(p);
  }

  /** In the edited projection drone 3 still lists 0, but drone 0's list lacks 3. */
  lemma LeafEditLists(first: seq<NodeId>)
    requires first == [1, 10, 11] || first == [1, 10]
    ensures var p := V.OnlyDronesConfig(Config(EditedDrones(first), Correct.client, Correct.server));
      Ids(p) == [0, 1, 2, 3] && 0 in Nbrs(p)[3] && V.Adj(p, 0).Some? && 3 !in V.Adj(p, 0).value
  {
    var c := Config(EditedDrones(first), Correct.client, Correct.server);
    var ds := DroneIds(c.drone);
    var p := V.OnlyDronesConfig(c);
    assert DroneIds(p.drone) == ds && Ids(p) == ds;
    assert p.drone[3].connectedNodeIds == V.FilterIds([0, 2, 12], ds);
    assert Nbrs(p)[3] == p.drone[3].connectedNodeIds;
    assert V.Adj(p, 0) == Some(V.FilterIds(first, ds));
  }

  lemma CorrectLocalChecks()
    ensures V.LocalChecks(Correct)
  {
    CorrectIds();
    PdrCases();
    DroneConnectionCases();
    ClientConnectionCases();
    ServerConnectionCases();
    IdRepetitionCases();
  }

  /** Both validators accept `correct_config`. */
  lemma CorrectAccepted()
    ensures V.ValidTopology(Correct)
    ensures U.UtilsAccepts(Correct)
  {
    CorrectLocalChecks();
    CorrectSearchAccepts();
    CorrectLeavesAccepted();
    U.MainAcceptedImpliesUtilsAccepts(Correct);
  }
}
