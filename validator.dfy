/**
 * The topology validator of `src/main.rs`: five local checks on ids and
 * neighbour lists, a breadth-first search that checks edge symmetry and
 * connectivity together, the same search on the drone-only projection (edge
 * nodes must be leaves), and their short-circuiting conjunction.
 */
module Validator {
  import opened Topology
  import opened Graph

  // ---------------------------------------------------------------------------
  // Local checks
  // ---------------------------------------------------------------------------

  /**
   * `check_id_repetitions`: the concatenation of the three id lists has no
   * repeated element, i.e. no list repeats an id and no two lists share one.
   */
  function CheckIdRepetitions(dronesId: seq<NodeId>, clientsId: seq<NodeId>, serversId: seq<NodeId>): (r: bool)
    ensures r <==> Distinct(dronesId) && Distinct(clientsId) && Distinct(serversId)
                   && Elems(dronesId) !! Elems(clientsId) && Elems(dronesId) !! Elems(serversId)
                   && Elems(clientsId) !! Elems(serversId)
  {
    DistinctConcat(dronesId, clientsId);
    DistinctConcat(dronesId + clientsId, serversId);
    assert Elems(dronesId + clientsId) == Elems(dronesId) + Elems(clientsId);
    AllUnique(dronesId + clientsId + serversId)
  }

  /**
   * `check_drone_connections`: no drone lists itself, and no drone lists a
   * neighbour twice. `AllUnique`'s own contract turns the body's call into
   * `Distinct`; `TopologyUtils.CheckDroneConnections` agrees with it on every
   * input, and `TestConfigs.DroneConnectionCases` holds the test's cases.
   */
  function CheckDroneConnections(drones: seq<Drone>): (r: bool)
    ensures r <==> forall i :: 0 <= i < |drones| ==>
                     drones[i].id !in drones[i].connectedNodeIds && Distinct(drones[i].connectedNodeIds)
  {
    forall i :: 0 <= i < |drones| ==>
      !(drones[i].id in drones[i].connectedNodeIds) && AllUnique(drones[i].connectedNodeIds)
  }

  /**
   * `check_client_connections`: every client has one or two neighbours, all
   * distinct, none equal to its own id, and all of them drone ids.
   */
  function CheckClientConnections(clients: seq<Client>, dronesId: seq<NodeId>): (r: bool)
    ensures r <==> forall i :: 0 <= i < |clients| ==>
                     var ns := clients[i].connectedDroneIds;
                     1 <= |ns| <= 2 && clients[i].id !in ns && Distinct(ns) && Elems(ns) <= Elems(dronesId)
  {
    forall i :: 0 <= i < |clients| ==>
      var ns := clients[i].connectedDroneIds;
      && !(clients[i].id in ns)
      && AllUnique(ns)
      && (forall neighbor :: neighbor in ns ==> neighbor in dronesId)
      && !(|ns| == 0)
      && |ns| < 3
  }

  /**
   * `check_server_connections`: every server has at least two neighbours,
   * all distinct, none equal to its own id, and all of them drone ids.
   */
  function CheckServerConnections(servers: seq<Server>, dronesId: seq<NodeId>): (r: bool)
    ensures r <==> forall i :: 0 <= i < |servers| ==>
                     var ns := servers[i].connectedDroneIds;
                     |ns| >= 2 && servers[i].id !in ns && Distinct(ns) && Elems(ns) <= Elems(dronesId)
  {
    forall i :: 0 <= i < |servers| ==>
      var ns := servers[i].connectedDroneIds;
      && !(servers[i].id in ns)
      && AllUnique(ns)
      && (forall neighbor :: neighbor in ns ==> neighbor in dronesId)
      && |ns| > 1
  }

  // ---------------------------------------------------------------------------
  // The graph the breadth-first search walks
  // ---------------------------------------------------------------------------

  /**
   * The neighbour list the search uses for `id`: that of the first drone
   * with this id, else of the first client, else of the first server (the
   * three `iter().find` calls, tried in this order); `None` when no node
   * has this id.
   */
  function Adj(c: Config, id: NodeId): Option<seq<NodeId>> {
    match IndexOf(DroneIds(c.drone), id)
    case Some(i) => Some(c.drone[i].connectedNodeIds)
    case None =>
      match IndexOf(ClientIds(c.client), id)
      case Some(i) => Some(c.client[i].connectedDroneIds)
      case None =>
        match IndexOf(ServerIds(c.server), id)
        case Some(i) => Some(c.server[i].connectedDroneIds)
        case None => None
  }

  function Neighbours(c: Config, u: NodeId): seq<NodeId> {
    match Adj(c, u)
    case Some(ns) => ns
    case None => []
  }

  /** The edge `u -> v` is answered: `v` names a node and that node lists `u` back. */
  predicate EdgeOk(c: Config, u: NodeId, v: NodeId) {
    Adj(c, v).Some? && u in Adj(c, v).value
  }

  /** The search finds a node exactly for the ids of the configuration. */
  lemma AdjKnown(c: Config, id: NodeId)
    ensures Adj(c, id).Some? <==> id in Ids(c)
  {
    var d, cl, s := DroneIds(c.drone), ClientIds(c.client), ServerIds(c.server);
    assert id in Ids(c) <==> id in d || id in cl || id in s;
  }

  /** Where an id occurs first, the search finds that node's own neighbour list. */
  lemma AdjAt(c: Config, k: nat)
    requires k < |Ids(c)| && Ids(c)[k] !in Ids(c)[..k]
    ensures Adj(c, Ids(c)[k]) == Some(Nbrs(c)[k])
  {
    var d, cl, s := DroneIds(c.drone), ClientIds(c.client), ServerIds(c.server);
    var id := Ids(c)[k];
    if k < |d| {
      assert d[k] == id;
      assert d[..k] == Ids(c)[..k];
      var i := IndexOf(d, id).value;
      assert i == k;
    } else if k < |d| + |cl| {
      var j := k - |d|;
      assert cl[j] == id;
      assert Ids(c)[..k] == d + cl[..j];
      assert id !in d;
      var i := IndexOf(cl, id).value;
      assert i == j;
    } else {
      var j := k - |d| - |cl|;
      assert s[j] == id;
      assert Ids(c)[..k] == d + cl + s[..j];
      assert id !in d && id !in cl;
      var i := IndexOf(s, id).value;
      assert i == j;
    }
  }

  /** With unique ids, the search finds each node's own neighbour list. */
  lemma AdjDistinct(c: Config, ids: seq<NodeId>, nbrs: seq<seq<NodeId>>)
    requires Ids(c) == ids && Nbrs(c) == nbrs && Distinct(ids)
    ensures forall k :: 0 <= k < |ids| ==> Adj(c, ids[k]) == Some(nbrs[k])
  {
    forall k | 0 <= k < |ids| ensures Adj(c, ids[k]) == Some(nbrs[k]) {
      assert ids[k] !in ids[..k];
      AdjAt(c, k);
    }
  }

  /** The directed relation the search follows: `u -> v` whenever `v` is in `u`'s list. */
  ghost function Steps(c: Config): (r: set<Edge>)
    ensures forall u: NodeId, v: NodeId :: (u, v) in r <==> v in Neighbours(c, u)
  {
    var r := set u: NodeId, v: NodeId | u in Ids(c) && v in Neighbours(c, u) :: (u, v);
    forall u, v | v in Neighbours(c, u) ensures u in Ids(c) {
      AdjKnown(c, u);
    }
    r
  }

  /**
   * What `check_bidirectional_and_connected` accepts: starting from the
   * first drone, every edge out of a reachable node is answered, every node
   * is reachable, and (as the final count of visited ids shows) no id is
   * used twice.
   */
  ghost predicate SymmetricAndConnected(c: Config) {
    && |c.drone| > 0
    && (forall u, v :: Reachable(Steps(c), c.drone[0].id, u) && v in Neighbours(c, u) ==> EdgeOk(c, u, v))
    && (forall x :: x in Ids(c) ==> Reachable(Steps(c), c.drone[0].id, x))
    && Distinct(Ids(c))
  }

  /** Every declared edge of every node is answered. */
  ghost predicate DeclaredEdgesAnswered(c: Config) {
    forall k, v :: 0 <= k < |Ids(c)| && v in Nbrs(c)[k] ==> EdgeOk(c, Ids(c)[k], v)
  }

  /**
   * Id lists that answer each other: every listed neighbour is one of the
   * ids, and whenever one id's list names another, the other's list names it back.
   */
  predicate SymmetricLists(ids: seq<NodeId>, nbrs: seq<seq<NodeId>>) {
    && |nbrs| == |ids|
    && (forall k, v :: 0 <= k < |ids| && v in nbrs[k] ==> v in ids)
    && (forall k, j :: 0 <= k < |ids| && 0 <= j < |ids| && ids[j] in nbrs[k] ==> ids[k] in nbrs[j])
  }

  /** With unique ids, lists that answer each other make every declared edge answered. */
  lemma AnsweredByLists(c: Config, ids: seq<NodeId>, nbrs: seq<seq<NodeId>>)
    requires Ids(c) == ids && Nbrs(c) == nbrs && Distinct(ids) && SymmetricLists(ids, nbrs)
    ensures DeclaredEdgesAnswered(c)
  {
    AdjDistinct(c, ids, nbrs);
    forall k, v | 0 <= k < |ids| && v in nbrs[k] ensures EdgeOk(c, ids[k], v) {
      assert v in ids;
      var j :| 0 <= j < |ids| && ids[j] == v;
      assert Adj(c, ids[j]) == Some(nbrs[j]);
    }
  }

  /**
   * The search's verdict in global terms: ids are unique, every declared edge
   * of every node is answered by the node it names, and every node is
   * reachable from the first drone.
   */
  lemma SymmetricAndConnectedIff(c: Config)
    requires |c.drone| > 0
    ensures SymmetricAndConnected(c) <==>
              && Distinct(Ids(c))
              && DeclaredEdgesAnswered(c)
              && (forall x :: x in Ids(c) ==> Reachable(Steps(c), c.drone[0].id, x))
  {
    var root := c.drone[0].id;
    if Distinct(Ids(c)) {
      forall k | 0 <= k < |Ids(c)| ensures Adj(c, Ids(c)[k]) == Some(Nbrs(c)[k]) {
        assert Ids(c)[k] !in Ids(c)[..k];
        AdjAt(c, k);
      }
      if SymmetricAndConnected(c) {
        forall k, v | 0 <= k < |Ids(c)| && v in Nbrs(c)[k] ensures EdgeOk(c, Ids(c)[k], v) {
          assert Ids(c)[k] in Ids(c);
          assert v in Neighbours(c, Ids(c)[k]);
        }
      }
      if DeclaredEdgesAnswered(c) && (forall x :: x in Ids(c) ==> Reachable(Steps(c), root, x)) {
        forall u, v | Reachable(Steps(c), root, u) && v in Neighbours(c, u) ensures EdgeOk(c, u, v) {
          AdjKnown(c, u);
          var k :| 0 <= k < |Ids(c)| && Ids(c)[k] == u;
          assert Neighbours(c, u) == Nbrs(c)[k];
        }
      }
    }
  }

  // ---------------------------------------------------------------------------
  // The breadth-first search
  // ---------------------------------------------------------------------------

  /** `(parent, conn)` for every `conn` of `parent`'s list, in list order. */
  function Outgoing(parent: NodeId, conns: seq<NodeId>): (r: seq<Edge>)
    ensures forall v :: v in conns ==> (parent, v) in r
    ensures forall q :: q in r ==> q.0 == parent && q.1 in conns
    ensures |r| == |conns| && forall k :: 0 <= k < |conns| ==> r[k] == (parent, conns[k])
  {
    var r := seq(|conns|, k requires 0 <= k < |conns| => (parent, conns[k]));
    forall v | v in conns ensures (parent, v) in r {
      var k :| 0 <= k < |conns| && conns[k] == v;
      assert r[k] == (parent, v);
    }
    r
  }

  /** Every edge leaving a visited node is still queued, or already answered and visited. */
  predicate Frontier(c: Config, out: seq<NodeId>, queue: seq<Edge>) {
    forall u, v :: u in out && v in Neighbours(c, u) ==>
      (u, v) in queue || (v in out && EdgeOk(c, u, v))
  }

  /**
   * What holds between two steps of the search: `out` starts at the first
   * drone, holds distinct ids of nodes reachable from it, every queued pair
   * leaves a visited node along its list, and the frontier is intact.
   */
  ghost predicate SearchState(c: Config, out: seq<NodeId>, queue: seq<Edge>) {
    && |c.drone| > 0 && |out| > 0 && out[0] == c.drone[0].id
    && Distinct(out)
    && (forall x :: x in out ==> x in Ids(c) && Reachable(Steps(c), c.drone[0].id, x))
    && (forall q :: q in queue ==> q.0 in out && q.1 in Neighbours(c, q.0))
    && Frontier(c, out, queue)
  }

  /** The search starts from the first drone with its own list queued. */
  lemma SearchStart(c: Config)
    requires |c.drone| > 0
    ensures SearchState(c, [c.drone[0].id], Outgoing(c.drone[0].id, c.drone[0].connectedNodeIds))
  {
    AdjAt(c, 0);
    ReachableRefl(Steps(c), c.drone[0].id);
  }

  /** Popping an answered edge towards a visited node keeps the search state. */
  lemma SearchSkip(c: Config, out: seq<NodeId>, popped: seq<Edge>)
    requires |popped| > 0 && SearchState(c, out, popped)
    requires popped[0].1 in out && EdgeOk(c, popped[0].0, popped[0].1)
    ensures SearchState(c, out, popped[1..])
  {
    forall u, v | u in out && v in Neighbours(c, u) && (u, v) !in popped[1..]
      ensures v in out && EdgeOk(c, u, v)
    {
      assert (u, v) in popped ==> (u, v) == popped[0];
    }
  }

  /**
   * Popping an answered edge towards a new node, visiting that node and
   * queueing its list keeps the search state.
   */
  lemma SearchVisit(c: Config, out: seq<NodeId>, popped: seq<Edge>, ns: seq<NodeId>)
    requires |popped| > 0 && SearchState(c, out, popped)
    requires Adj(c, popped[0].1) == Some(ns) && popped[0].0 in ns && popped[0].1 !in out
    ensures popped[0].1 in Ids(c)
    ensures SearchState(c, out + [popped[0].1], popped[1..] + Outgoing(popped[0].1, ns))
  {
    var (parent, next) := popped[0];
    var queue := popped[1..] + Outgoing(next, ns);
    AdjKnown(c, next);
    ReachableStep(Steps(c), c.drone[0].id, parent, next);
    forall u, v | u in out + [next] && v in Neighbours(c, u) && (u, v) !in queue
      ensures v in out + [next] && EdgeOk(c, u, v)
    {
      if u != next {
        assert u in out;
        assert (u, v) in popped ==> (u, v) == popped[0];
      }
    }
    forall q | q in queue ensures q.0 in out + [next] && q.1 in Neighbours(c, q.0) {
      if q in popped[1..] {
        assert q in popped;
      }
    }
  }

  /**
   * `check_bidirectional_and_connected`: a breadth-first search from the
   * first drone. A dequeued pair `(parent, next)` fails the check when `next`
   * names no node or `next`'s list omits `parent`; a node not yet in `out`
   * is appended and its edges are enqueued. The check passes when `out`
   * finally holds as many ids as there are nodes.
   */
  method CheckBidirectionalAndConnected(drones: seq<Drone>, clients: seq<Client>, servers: seq<Server>)
    returns (ok: bool)
    requires |drones| > 0
    ensures ok <==> SymmetricAndConnected(Config(drones, clients, servers))
  {
    var c := Config(drones, clients, servers);
    var root := drones[0].id;
    var out := [root];
    var queue := Outgoing(root, drones[0].connectedNodeIds);
    SearchStart(c);
    while |queue| > 0
      invariant SearchState(c, out, queue)
      decreases Elems(Ids(c)) - Elems(out), |queue|
    {
      var (parent, next) := queue[0];
      ghost var popped := queue;
      queue := queue[1..];
      var found := Adj(c, next);
      if found.None? || parent !in found.value {
        assert !EdgeOk(c, parent, next);
        return false;
      }
      if next in out {
        SearchSkip(c, out, popped);
        continue;
      }
      SearchVisit(c, out, popped, found.value);
      ghost var before := out;
      out := out + [next];
      assert Elems(out) == Elems(before) + {next};
      queue := queue + Outgoing(next, found.value);
    }
    ok := |out| == |drones| + |clients| + |servers|;
    BfsVerdict(c, out);
  }

  /** What a finished search (empty queue, no early exit) has established about `out`. */
  lemma BfsVerdict(c: Config, out: seq<NodeId>)
    requires SearchState(c, out, [])
    ensures |out| == |Ids(c)| <==> SymmetricAndConnected(c)
  {
    var root, r := c.drone[0].id, Steps(c);
    ReachedIsClosed(c, out);
    var seen, all := Elems(out), Elems(Ids(c));
    DistinctCard(out);
    DistinctCard(Ids(c));
    assert seen <= all;
    SubsetCard(seen, all);
    if |out| == |Ids(c)| {
      assert |seen| == |out|;
      assert |seen| <= |all| <= |Ids(c)|;
      assert seen == all;
      assert Distinct(Ids(c));
      forall x | x in Ids(c) ensures Reachable(r, root, x) {
        assert x in all;
      }
    }
    if SymmetricAndConnected(c) {
      forall x | x in all ensures x in seen {
        assert x in Ids(c);
      }
      assert seen == all;
    }
  }

  /** The ids a finished search has visited are exactly those reachable from the first drone. */
  lemma ReachedIsClosed(c: Config, out: seq<NodeId>)
    requires |c.drone| > 0 && |out| > 0 && out[0] == c.drone[0].id
    requires forall u, v :: u in out && v in Neighbours(c, u) ==> v in out && EdgeOk(c, u, v)
    ensures forall x :: Reachable(Steps(c), c.drone[0].id, x) ==> x in out
  {
    var root, r := c.drone[0].id, Steps(c);
    assert Closed(r, Elems(out)) by {
      forall e | e in r && e.0 in Elems(out) ensures e.1 in Elems(out) {
        assert e.1 in Neighbours(c, e.0);
      }
    }
    assert root in Elems(out);
    forall x | Reachable(r, root, x) ensures x in out {
      ClosedHoldsReachable(r, Elems(out), root, x);
    }
  }

  // ---------------------------------------------------------------------------
  // Leaf placement
  // ---------------------------------------------------------------------------

  /** `iter().filter(|n| keep.contains(n))`: the items of `s` that occur in `keep`, in order. */
  function FilterIds(s: seq<NodeId>, keep: seq<NodeId>): (r: seq<NodeId>)
    ensures forall x :: x in r <==> x in s && x in keep
    ensures |r| <= |s|
  {
    if s == [] then []
    else
      var rest := FilterIds(s[1..], keep);
      assert forall x :: x in s <==> x == s[0] || x in s[1..];
      if s[0] in keep then [s[0]] + rest else rest
  }

  /** The drones with their neighbour lists restricted to `dronesIds`. */
  function OnlyDrones(drones: seq<Drone>, dronesIds: seq<NodeId>): seq<Drone> {
    seq(|drones|, i requires 0 <= i < |drones| =>
      Drone(drones[i].id, FilterIds(drones[i].connectedNodeIds, dronesIds), drones[i].pdr))
  }

  /** The configuration the leaf check searches: the drone-only projection, no clients, no servers. */
  function OnlyDronesConfig(c: Config): Config {
    Config(OnlyDrones(c.drone, DroneIds(c.drone)), [], [])
  }

  /** `check_connected_only_drones`: the search run on the drone-only projection. */
  method CheckConnectedOnlyDrones(drones: seq<Drone>, dronesIds: seq<NodeId>) returns (ok: bool)
    requires |drones| > 0
    ensures ok <==> SymmetricAndConnected(Config(OnlyDrones(drones, dronesIds), [], []))
  {
    ok := CheckBidirectionalAndConnected(OnlyDrones(drones, dronesIds), [], []);
  }

  /** A walk of the full configuration whose every vertex is a drone. */
  ghost predicate DroneWalk(c: Config, w: seq<NodeId>) {
    IsWalk(Steps(c), w) && forall i :: 0 <= i < |w| ==> w[i] in DroneIds(c.drone)
  }

  /** In the drone-only projection a drone's list is its full list filtered to drone ids. */
  lemma OnlyDronesNeighbours(c: Config, u: NodeId)
    requires u in DroneIds(c.drone)
    ensures Neighbours(OnlyDronesConfig(c), u) == FilterIds(Neighbours(c, u), DroneIds(c.drone))
  {
    var p := OnlyDronesConfig(c);
    assert DroneIds(p.drone) == DroneIds(c.drone);
  }

  /**
   * Leaf placement: when the leaf check passes, every drone is reachable from
   * the first drone through drones only, so no client or server is needed to
   * join two drones.
   */
  lemma LeafPlacement(c: Config)
    requires SymmetricAndConnected(OnlyDronesConfig(c))
    ensures forall x :: x in DroneIds(c.drone) ==>
              exists w :: DroneWalk(c, w) && w[0] == c.drone[0].id && w[|w| - 1] == x
  {
    var p := OnlyDronesConfig(c);
    var ds := DroneIds(c.drone);
    assert DroneIds(p.drone) == ds;
    assert Ids(p) == ds;
    forall x | x in ds
      ensures exists w :: DroneWalk(c, w) && w[0] == c.drone[0].id && w[|w| - 1] == x
    {
      var w :| IsWalk(Steps(p), w) && w[0] == p.drone[0].id && w[|w| - 1] == x;
      forall i | 0 <= i < |w| - 1 ensures (w[i], w[i + 1]) in Steps(c) && w[i] in ds {
        assert w[i + 1] in Neighbours(p, w[i]);
        AdjKnown(p, w[i]);
        OnlyDronesNeighbours(c, w[i]);
      }
      assert w[0] in ds by { assert ds[0] == c.drone[0].id; }
      assert forall i :: 0 <= i < |w| ==> w[i] in ds by {
        forall i | 0 <= i < |w| ensures w[i] in ds {
          if i > 0 { assert (w[i - 1], w[i - 1 + 1]) in Steps(c); }
        }
      }
      assert DroneWalk(c, w);
    }
  }

  // ---------------------------------------------------------------------------
  // The conjunction
  // ---------------------------------------------------------------------------

  /** The check that failed first, as the diagnostic printed for it names it. */
  datatype Violation =
    | RepeatedIds
    | PdrOutOfRange
    | BadDroneConnections
    | BadClientConnections
    | BadServerConnections
    | NotBidirectionalOrConnected
    | EdgeNodesNotLeaves

  /**
   * The outcome of `check_topology_constraints`: `true`, `false` after the
   * first failing check, or a panic (indexing the first drone of an empty
   * drone list).
   */
  datatype Verdict = Accepted | Rejected(violation: Violation) | Panicked

  /** The five checks that run before any search. */
  predicate LocalChecks(c: Config) {
    var dronesId := DroneIds(c.drone);
    && CheckIdRepetitions(dronesId, ClientIds(c.client), ServerIds(c.server))
    && CheckPdr(c.drone)
    && CheckDroneConnections(c.drone)
    && CheckClientConnections(c.client, dronesId)
    && CheckServerConnections(c.server, dronesId)
  }

  /** A topology `check_topology_constraints` accepts. */
  ghost predicate ValidTopology(c: Config) {
    LocalChecks(c) && SymmetricAndConnected(c) && SymmetricAndConnected(OnlyDronesConfig(c))
  }

  /**
   * `check_topology_constraints`: the seven checks in their fixed order,
   * stopping at the first that fails.
   */
  method CheckTopologyConstraints(drone: seq<Drone>, client: seq<Client>, server: seq<Server>)
    returns (v: Verdict)
    ensures v == Rejected(RepeatedIds) <==>
              !CheckIdRepetitions(DroneIds(drone), ClientIds(client), ServerIds(server))
    ensures v == Rejected(PdrOutOfRange) <==>
              CheckIdRepetitions(DroneIds(drone), ClientIds(client), ServerIds(server)) && !CheckPdr(drone)
    ensures v == Rejected(BadDroneConnections) <==>
              CheckIdRepetitions(DroneIds(drone), ClientIds(client), ServerIds(server)) && CheckPdr(drone)
              && !CheckDroneConnections(drone)
    ensures v == Rejected(BadClientConnections) <==>
              CheckIdRepetitions(DroneIds(drone), ClientIds(client), ServerIds(server)) && CheckPdr(drone)
              && CheckDroneConnections(drone) && !CheckClientConnections(client, DroneIds(drone))
    ensures v == Rejected(BadServerConnections) <==>
              CheckIdRepetitions(DroneIds(drone), ClientIds(client), ServerIds(server)) && CheckPdr(drone)
              && CheckDroneConnections(drone) && CheckClientConnections(client, DroneIds(drone))
              && !CheckServerConnections(server, DroneIds(drone))
    ensures v == Panicked <==> LocalChecks(Config(drone, client, server)) && |drone| == 0
    ensures v == Rejected(NotBidirectionalOrConnected) <==>
              LocalChecks(Config(drone, client, server)) && |drone| > 0
              && !SymmetricAndConnected(Config(drone, client, server))
    ensures v == Rejected(EdgeNodesNotLeaves) <==>
              LocalChecks(Config(drone, client, server)) && SymmetricAndConnected(Config(drone, client, server))
              && !SymmetricAndConnected(OnlyDronesConfig(Config(drone, client, server)))
    ensures v == Accepted <==> ValidTopology(Config(drone, client, server))
  {
    var dronesId := DroneIds(drone);
    var clientId := ClientIds(client);
    var serversId := ServerIds(server);
    if !CheckIdRepetitions(dronesId, clientId, serversId) {
      return Rejected(RepeatedIds);
    }
    if !CheckPdr(drone) {
      return Rejected(PdrOutOfRange);
    }
    if !CheckDroneConnections(drone) {
      return Rejected(BadDroneConnections);
    }
    if !CheckClientConnections(client, dronesId) {
      return Rejected(BadClientConnections);
    }
    if !CheckServerConnections(server, dronesId) {
      return Rejected(BadServerConnections);
    }
    if |drone| == 0 {
      return Panicked;
    }
    var connected := CheckBidirectionalAndConnected(drone, client, server);
    if !connected {
      return Rejected(NotBidirectionalOrConnected);
    }
    var leaves := CheckConnectedOnlyDrones(drone, dronesId);
    if !leaves {
      return Rejected(EdgeNodesNotLeaves);
    }
    return Accepted;
  }

  /**
   * The search indexes the first drone, so the validator panics instead of
   * answering; this happens exactly for the configuration with no nodes at
   * all, because with no drones every client and server fails its checks.
   */
  lemma PanicsOnlyOnEmptyConfig(c: Config)
    ensures LocalChecks(c) && |c.drone| == 0 <==> c == Config([], [], [])
  {
    if LocalChecks(c) && |c.drone| == 0 {
      assert DroneIds(c.drone) == [];
      if |c.client| > 0 {
        ClientNeedsDrone(c.client, DroneIds(c.drone));
      }
      if |c.server| > 0 {
        ServerNeedsDrones(c.server, DroneIds(c.drone));
      }
    }
    if c == Config([], [], []) {
      assert DroneIds(c.drone) == [] && ClientIds(c.client) == [] && ServerIds(c.server) == [];
      assert Distinct([]);
    }
  }

  /** A client that passes its check names a drone. */
  lemma ClientNeedsDrone(clients: seq<Client>, dronesId: seq<NodeId>)
    requires |clients| > 0 && CheckClientConnections(clients, dronesId)
    ensures |dronesId| >= 1
  {
    var ns := clients[0].connectedDroneIds;
    assert ns[0] in Elems(dronesId);
  }

  /** A server that passes its check names two distinct drones. */
  lemma ServerNeedsDrones(servers: seq<Server>, dronesId: seq<NodeId>)
    requires |servers| > 0 && CheckServerConnections(servers, dronesId)
    ensures |dronesId| >= 2
  {
    var ns := servers[0].connectedDroneIds;
    assert {ns[0], ns[1]} <= Elems(dronesId);
    assert |{ns[0], ns[1]}| == 2;
    DistinctCard(dronesId);
  }

  /**
   * In an accepted topology every declared neighbour id names a node, and
   * every node's list is answered edge by edge.
   */
  lemma AcceptedNeighboursAreNodes(c: Config)
    requires ValidTopology(c)
    ensures Distinct(Ids(c))
    ensures forall k, v :: 0 <= k < |Ids(c)| && v in Nbrs(c)[k] ==> v in Ids(c) && EdgeOk(c, Ids(c)[k], v)
  {
    SymmetricAndConnectedIff(c);
    forall k, v | 0 <= k < |Ids(c)| && v in Nbrs(c)[k] ensures v in Ids(c) {
      assert EdgeOk(c, Ids(c)[k], v);
      AdjKnown(c, v);
    }
  }
}
