# network_initializer: the topology validator and the bootstrap wiring

This project models the network initializer of a drone-network simulation in
Dafny and proves properties of the model. The initializer reads a topology
made of three lists of nodes:

- drones, which relay packets;
- clients, which are the ingress nodes;
- servers, which are the terminus nodes.

Every node has a `u8` id and the list of ids it declares as neighbours. The
initializer validates the topology, then wires one thread per node with
channels.

The model covers:

- **The validator of `src/main.rs`** (`validator.dfy`, module `Validator`).
  - Five local checks: unique ids, drop rates in `[0, 1]`, and the drone,
    client and server neighbour lists.
  - The breadth-first search `check_bidirectional_and_connected`, as a method
    with loop invariants. It is proved to answer exactly the ghost predicate
    `SymmetricAndConnected`. `SymmetricAndConnectedIff` restates that predicate
    in global terms: ids are unique, every declared edge is declared back, and
    every node is reachable from the first drone.
  - The leaf check, i.e. the same search on the drone-only projection. It is
    proved to mean that every drone reaches the first drone through drones only.
  - The short-circuiting conjunction `check_topology_constraints`. Its result
    names the first failing check. It panics (indexing `drones[0]`) exactly on
    the configuration with no nodes at all.
- **The refactored validator of `src/topology_utils.rs`** (`topology_utils.dfy`,
  module `TopologyUtils`).
  - The same local checks, written with `check_connection` and
    `check_subset`, proved equal to the `src/main.rs` ones.
  - A `DiGraphMap` value: its nodes in insertion order and its edge set.
  - The `add_edge` loops, as methods.
  - `connected_components`, computed by closure and proved to be at most one
    exactly when the graph is weakly connected.
  - `check_bidirectional`, as a method over the nodes. What it compares
    depends on the order in which `edges_directed` reports an edge's two
    ends. If the far end is reported, it compares each node's in- and
    out-neighbours (`Bidirectional`). If edges come as `(source, target)`,
    it compares in-degree with out-degree (`EqualDegrees`). Both readings
    are modelled. The neighbour reading implies the degree reading, and the
    cycle 0 -> 1 -> 2 -> 0 separates them.
  - The whole check, proved to accept exactly `UtilsAccepts`.

  `MainAcceptedImpliesUtilsAccepts` proves that whatever `src/main.rs`
  accepts, the refactor accepts too, under either reading. `examples.dfy` proves that the converse
  fails, on two concrete networks:
  - in `Relay`, two groups of drones are joined only through a server;
  - in `Lonely`, one drone has no links at all.

  The refactor counts components over drone-declared edges only, and a drone
  with no links adds no node to that graph.
- **The wiring in `main`** (`bootstrap.dfy`, module `Bootstrap`).
  - Channels are tokens, numbered by family and position.
  - `create_channels` and the `collect()`ed control-channel maps.
  - The spawn loops, as a method recording each node's constructor arguments.
  - The registry loops, as a method.
  - `Start` runs the validator and then `Launch`. `Launch` is proved to
    produce a started network:
    - the `k`-th node has the `k`-th id;
    - it holds a sender for exactly its declared neighbours, each feeding that
      neighbour's own inbox;
    - no two nodes share an inbox;
    - each node runs the constructor its role and id select (`v[id % 10]` for
      drones, a text server for the first server, a media server for the rest);
    - each role's registry is keyed by that role's ids and holds the other
      ends of that node's channels;
    - the controller is handed the four registries and the topology's three
      lists.

  Every `channels[id]` lookup is defined because the validator accepted the
  topology.
- **The repository's own test verdicts** (`test_configs.dfy`), proved on
  `correct_config` and the tests' edits of it.

`topology.dfy` holds the data model (`NodeId` is the range of a `u8`, a drop
rate is a finite real, an infinity or NaN). `graph.dfy` holds walks and
reachability over a set of directed edges.

A few facts about the code that shape the model:

- The search starts at the first drone.
- The code creates one packet channel per node. Every neighbour receives a
  clone of that node's sender.
- The chat-client registry is handed over empty.
- `simulation_controller::run` receives the four registries and the three
  lists of the topology. Each spawned node is moved into its own thread and
  is never handed to the controller.

## Model

| member | source | states |
|---|---|---|
| Topology.AllUnique | src/main.rs:116-119 | `all_unique` is true exactly when no id occurs twice |
| Topology.IndexOf | src/main.rs:175 | `iter().find` by id: `None` exactly when the id is absent, otherwise the first position holding it |
| Topology.PdrRejectsNonFinite | src/main.rs:123-125 | a drone whose rate is NaN or an infinity makes the drop-rate check fail |
| Topology.CheckPdrConcat | src/main.rs:123-125 | the drop-rate check looks at each drone on its own: it holds for two lists together iff it holds for each |
| Topology.DistinctCard | src/main.rs:213 | a list has at most as many distinct ids as items, and exactly as many iff no id repeats (the final count of the search) |
| Validator.CheckIdRepetitions | src/main.rs:111-120 | true iff each id list is repeat-free and the three lists are pairwise disjoint |
| Validator.CheckDroneConnections | src/main.rs:128-133 | true iff no drone lists itself and no drone lists a neighbour twice |
| Validator.CheckClientConnections | src/main.rs:136-147 | true iff every client has 1 or 2 distinct neighbours, not itself, all drone ids |
| Validator.CheckServerConnections | src/main.rs:150-160 | true iff every server has at least 2 distinct neighbours, not itself, all drone ids |
| Validator.AdjKnown | src/main.rs:175-210 | the three `find` lookups succeed exactly for the ids of the configuration |
| Validator.AdjAt | src/main.rs:175-197 | where an id first occurs, the lookups return that node's own neighbour list |
| Validator.Outgoing | src/main.rs:170-172 | the pairs queued for a node are `(node, n)` for the `n` of its list, one per entry and in list order |
| Validator.SymmetricAndConnectedIff | src/main.rs:163-214 | the search's acceptance condition equals: unique ids, every declared edge declared back, every node reachable from the first drone |
| Validator.SearchStart | src/main.rs:168-172 | the initial `out` and queue satisfy the search invariant |
| Validator.SearchSkip | src/main.rs:174-181 | dequeuing an answered pair whose target was already visited keeps the invariant |
| Validator.SearchVisit | src/main.rs:182-185 | visiting a new answered node and queueing its list keeps the invariant; the node is a real id |
| Validator.CheckBidirectionalAndConnected | src/main.rs:163-214 | the search returns true iff the configuration is symmetric and connected from the first drone with unique ids |
| Validator.BfsVerdict | src/main.rs:213 | when the queue empties, `out.len()` equals the node count iff the configuration is symmetric and connected |
| Validator.ReachedIsClosed | src/main.rs:174-211 | a finished search has visited every node reachable from the first drone |
| Validator.FilterIds | src/main.rs:222-227 | the filtered list holds exactly the listed ids that are drone ids, and is no longer |
| Validator.OnlyDronesNeighbours | src/main.rs:218-230 | in the projection, a drone's list is its full list filtered to drone ids |
| Validator.CheckConnectedOnlyDrones | src/main.rs:217-233 | the leaf check returns true iff the drone-only projection is symmetric and connected |
| Validator.LeafPlacement | src/main.rs:216-233 | when the leaf check passes, every drone is reachable from the first drone through drones only |
| Validator.CheckTopologyConstraints | src/main.rs:235-270 | the checks run in their fixed order; the verdict names the first one that fails, a panic happens exactly when the local checks pass with no drones, and acceptance is exactly `ValidTopology` |
| Validator.PanicsOnlyOnEmptyConfig | src/main.rs:163-168 | the local checks pass with no drone exactly for the configuration with no nodes |
| Validator.ClientNeedsDrone | src/main.rs:136-147 | a client that passes its check requires at least one drone |
| Validator.ServerNeedsDrones | src/main.rs:150-160 | a server that passes its check requires at least two drones |
| Validator.AcceptedNeighboursAreNodes | src/main.rs:163-214 | in an accepted topology every declared neighbour is a node and declares the edge back |
| TopologyUtils.CheckConnection | src/topology_utils.rs:20-22 | true iff the id is not in the list and the list has no repeat |
| TopologyUtils.CheckSubset | src/topology_utils.rs:25-29 | true iff every listed id is a drone id |
| TopologyUtils.CheckIdRepetitions | src/topology_utils.rs:32-38 | the `chain!` version is true iff the concatenation has no repeat, and agrees with the `concat` version |
| TopologyUtils.CheckDroneConnections | src/topology_utils.rs:41-45 | agrees with the `src/main.rs` drone check on every input |
| TopologyUtils.CheckClientConnections | src/topology_utils.rs:48-54 | a length in `1..3` with subset and connection checks agrees with the `src/main.rs` client check |
| TopologyUtils.CheckServerConnections | src/topology_utils.rs:57-63 | agrees with the `src/main.rs` server check on every input |
| TopologyUtils.LocalChecksAgree | src/topology_utils.rs:93-97 | both validators' five local checks give the same answer |
| TopologyUtils.AddNode | src/topology_utils.rs:112-123 | adding a node adds exactly that node and never lists one twice |
| TopologyUtils.AddEdgesShape | src/topology_utils.rs:112-123 | adding edges adds exactly those edges and their endpoints, keeping nodes distinct |
| TopologyUtils.LinksMember | src/topology_utils.rs:103-111 | an edge is in the `flat_map` list iff some node declares it |
| TopologyUtils.DeclaredMember | src/topology_utils.rs:103-123 | an edge is declared iff the node at some position lists it |
| TopologyUtils.DeclaredLinks | src/topology_utils.rs:103-123 | the declared edges are the drone, then client, then server links |
| TopologyUtils.FullGraphEdges | src/topology_utils.rs:112-123 | the graph after the server and client loops holds exactly the declared edges, all their endpoints as nodes, none twice |
| TopologyUtils.AddEdgesFrom | src/topology_utils.rs:115-117 | the inner loop yields the graph with the node's outgoing edges added in order |
| TopologyUtils.AddNodeEdges | src/topology_utils.rs:114-118 | the outer loop yields the graph with every node's declared edges added in order |
| TopologyUtils.Undirected | src/topology_utils.rs:113 | connectivity ignores direction: an edge or its reverse, a symmetric relation |
| TopologyUtils.Component | src/topology_utils.rs:113 | the closure contains its seed and is closed under the edges |
| TopologyUtils.ComponentOf | src/topology_utils.rs:113 | the component of a node is exactly the set of nodes reachable from it |
| TopologyUtils.AtMostOneComponent | src/topology_utils.rs:113-125 | `components > 1` is false exactly for weakly connected graphs |
| TopologyUtils.CheckBidirectional | src/topology_utils.rs:65-81 | the loop returns true iff every node has the same in- and out-neighbours |
| TopologyUtils.BidirectionalIffSymmetric | src/topology_utils.rs:65-81 | on a graph holding every endpoint, that per-node agreement is edge symmetry |
| TopologyUtils.CheckEqualDegrees | src/topology_utils.rs:65-81 | under the `(source, target)` reading, the loop returns true iff every node has equal in- and out-degree |
| TopologyUtils.BidirectionalHasEqualDegrees | src/topology_utils.rs:65-81 | a graph that passes under the neighbour reading passes under the degree reading |
| TopologyUtils.CycleSplitsReadings | src/topology_utils.rs:65-81 | the cycle 0 -> 1 -> 2 -> 0 passes under the degree reading and fails under the neighbour reading |
| TopologyUtils.AcceptedUnderBothReadings | src/topology_utils.rs:84-131 | every topology the refactor accepts under the neighbour reading, it accepts under the degree reading |
| TopologyUtils.CheckTopologyConstraints | src/topology_utils.rs:84-131 | false whenever a local check fails; otherwise true iff the drone-edge graph is weakly connected and the declared edges are symmetric |
| TopologyUtils.AnsweredEdgeReversed | src/topology_utils.rs:103-123 | with unique ids, an edge the search finds answered is declared in reverse |
| TopologyUtils.AnsweredIsSymmetric | src/topology_utils.rs:103-123 | with unique ids, answered declared edges form a symmetric set |
| TopologyUtils.DroneGraphReachesRoot | src/topology_utils.rs:103-113 | when the leaf check passes, every node of the drone-edge graph is joined to the first drone |
| TopologyUtils.MainAcceptedImpliesUtilsAccepts | src/topology_utils.rs:84-131 | every topology the `src/main.rs` validator accepts, the refactored validator accepts, under either reading of `check_bidirectional` |
| Bootstrap.Unbounded | src/main.rs:100 | `unbounded()` yields the two ends of one channel of the requested family |
| Bootstrap.Collect | src/main.rs:340-341 | `collect()` into a map has exactly the listed keys |
| Bootstrap.CollectLast | src/main.rs:340-341 | a collected map holds, for a key, the value of its last pair |
| Bootstrap.LookupFresh | src/main.rs:340-341 | with unique ids, the `i`-th id maps to the channel numbered by its position |
| Bootstrap.CreateChannelsEntries | src/main.rs:92-108 | `create_channels` yields one fresh packet channel per node, in drone-client-server order |
| Bootstrap.ControlPipes | src/main.rs:304-338 | each control map has exactly its role's ids as keys, each holding both ends of one channel of its family |
| Bootstrap.PacketChannels | src/main.rs:340-341 | the packet channel map has exactly the node ids as keys, each holding both ends of one packet channel |
| Bootstrap.PacketChannelsNumbered | src/main.rs:92-108 | with unique ids, the `k`-th node's packet channel is the `k`-th created, so no two nodes share one |
| Bootstrap.NeighbourSenders | src/main.rs:345-349 | a node's neighbour map has exactly its declared neighbours as keys, each holding that neighbour's packet sender |
| Bootstrap.FactoryFor | src/main.rs:350 | `v[id % v.len()]` always selects one of the ten drone implementations, the one at position `id % 10` |
| Bootstrap.SpawnNodes | src/main.rs:343-448 | in each spawn loop, the `i`-th node spawned is the `i`-th listed, built from its own event, command and packet entries |
| Bootstrap.Register | src/main.rs:362-398 | each registry loop yields a registry that has exactly the role's ids as keys, each holding command sender, event receiver and both packet ends |
| Bootstrap.FreshKeys | src/main.rs:304-307 | the fresh-channel map of a list has exactly its ids as keys |
| Bootstrap.NeighboursAreChannels | src/main.rs:345-349 | where every declared neighbour is a node, the neighbours of every drone, client and server are node ids, so each `channels[id]` lookup is defined |
| Bootstrap.LaunchedWired | src/main.rs:343-448 | nodes carrying the position-numbered packet channels are wired to their neighbours' own inboxes, with no shared inbox |
| Bootstrap.LaunchedRoles | src/main.rs:343-448 | the kinds listed in node order give each node the constructor of its role and position |
| Bootstrap.LaunchedCarries | src/main.rs:343-448 | the three spawn loops together launch every node with its own entries, in node order |
| Bootstrap.RegistryMatchesNodes | src/main.rs:362-398 | a registry and the nodes spawned from the same maps hold the two ends of each channel |
| Bootstrap.LaunchedDataPlane | src/main.rs:343-448 | nodes carrying their own packet entries are wired and run their role's constructor |
| Bootstrap.LaunchedRegistries | src/main.rs:362-398 | each registry holds the other ends of the channels of its role's nodes |
| Bootstrap.Launch | src/main.rs:302-459 | after validation, the wiring yields a started network: the threads are wired and have their roles, the registries match them, and the controller is handed the registries and the topology |
| Bootstrap.Start | src/main.rs:297-459 | the network starts iff the validator accepts; it stops with a rejection otherwise, or panics exactly on the empty configuration |
| Examples.RelaySearchAccepts | src/main.rs:163-214 | the search accepts a network whose drone groups are joined through a server |
| Examples.RelayLeavesSplit | src/main.rs:217-233 | the leaf check rejects it: drone 2 is reachable only through server 12 |
| Examples.RelayDronesConnected | src/topology_utils.rs:103-113 | the refactor counts one component among its drone-declared edges |
| Examples.RelayServerSplitsValidators | src/topology_utils.rs:103-128 | the refactored validator accepts that network while the `src/main.rs` validator rejects it |
| Examples.LonelyUnreached | src/main.rs:163-214 | the search rejects a network with a drone that has no links |
| Examples.LonelyDronesConnected | src/topology_utils.rs:103-113 | the refactor counts one component: the unlinked drone is no node of the drone-edge graph |
| Examples.LonelyDroneSplitsValidators | src/topology_utils.rs:103-128 | the refactored validator accepts that network while the `src/main.rs` validator rejects it |
| Examples.CycleSplitsValidators | src/topology_utils.rs:65-131 | the one-way cycle of drones 0 -> 1 -> 2 -> 0 is accepted by the refactor under the degree reading, rejected under the neighbour reading, and rejected by `src/main.rs` |
| TestConfigs.IdRepetitionCases | src/test.rs:232-252 | the unique ids pass; a drone id replaced by 11, 12 or 1 fails, in both versions |
| TestConfigs.PdrCases | src/test.rs:255-266 | the test drop rates pass; 3.0 fails, and so does NaN |
| TestConfigs.DroneConnectionCases | src/test.rs:269-279 | drone 0's list passes; a self-loop or a repeated neighbour fails |
| TestConfigs.ClientConnectionCases | src/test.rs:282-305 | `[0]` passes; a self-loop, an extra self-loop, an unknown 123 and four neighbours fail |
| TestConfigs.ServerConnectionCases | src/test.rs:308-332 | `[2, 3]` passes; a client id, a repeat, an unknown 123 and the empty list fail |
| TestConfigs.BidirectionalFromEdges | src/test/config_tests.rs:116-132 | a graph built from edges passes `check_bidirectional` iff the edges are symmetric |
| TestConfigs.GraphSymmetricCase | src/test/config_tests.rs:117-118 | the links 1-2 and 2-3, both ways, pass |
| TestConfigs.OneWayRejected | src/test/config_tests.rs:120-131 | any graph built from edges with a one-way edge fails |
| TestConfigs.GraphOneWayCase | src/test/config_tests.rs:120-121 | adding 3->1 fails |
| TestConfigs.GraphTwoOneWayCase | src/test/config_tests.rs:123-131 | adding 3->1 and 3->5 fails |
| TestConfigs.CorrectSearchAccepts | src/test.rs:342 | the search accepts `correct_config` |
| TestConfigs.StrayClientRejected | src/test.rs:344-348 | a client 34 with no links makes the search fail |
| TestConfigs.MuteClientRejected | src/test.rs:350-352 | client 11 with its link popped makes the search fail |
| TestConfigs.CorrectLeavesAccepted | src/test.rs:361 | the leaf check accepts `correct_config` |
| TestConfigs.LeafEditRejected | src/test.rs:363-367 | drone 0's list edited to `[1, 10, 11]`, then popped to `[1, 10]`, makes the leaf check fail |
| TestConfigs.CorrectLocalChecks | src/test.rs:26-61 | `correct_config` passes the five local checks |
| TestConfigs.CorrectAccepted | src/test.rs:26-61 | both validators accept `correct_config` |

## Left out

- Threads and `run()`: spawning a node is recorded as its constructor arguments. Nothing that a running node does is modelled.
- Channel behaviour: channels are tokens. Sending, receiving, FIFO order and cloning semantics are not modelled.
- `simulation_controller::run` is an external call. It is modelled as the record of its arguments: the four registries and the three topology lists.
- The constructors of the drone implementations, `WebBrowser`, `TextServer` and `MediaServer` come from crates that are not part of this model. They appear only as the kind of a node.
- Reading and parsing `config/test_config.toml`, `env_logger`, and the `println!`/`error!` diagnostics are I/O. The verdict only names which check failed.
- `f32` arithmetic: a drop rate is a finite real, an infinity or NaN. Only the range test is modelled.
- petgraph's `DiGraphMap` is modelled as its nodes plus an edge set. Edge weights are never read and are dropped.
- The source of `connected_components` is not part of this model. The count is computed by closure, and only `components > 1` is related to connectivity.
- TopologyUtils.CheckBidirectional reads `edges_directed` as reporting the far end of each edge. Under the usual `(source, target)` order, the code instead compares in-degree with out-degree, which accepts more graphs, e.g. the cycle 0 -> 1 -> 2 -> 0. That reading is modelled beside it as `CheckEqualDegrees` and `UtilsAcceptsByDegree`. `TopologyUtils.CheckTopologyConstraints` follows the neighbour reading only. The petgraph version that fixes the tuple order is not part of this model. Sets stand for the sorted lists, because a `DiGraphMap` holds at most one edge per ordered pair.
- Bootstrap.Start does not model construction failure of a node. Every constructor is total here.
- `src/factories.rs` is not part of this model. It is not a module of the binary.
- The drone end-to-end tests (`src/test.rs:442-620`, `src/test/drone_tests.rs`) depend on threads, timing and randomness.
- The fixture tests (`double_chain`, `tree`, `subnet2`, `star`, `butterfly`) read topology files that are not part of this model.
