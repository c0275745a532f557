/**
 * The wiring `main` does once a topology has been accepted: one control
 * channel pair per node and role, one packet channel per node, every node
 * handed the receiving end of its own packet channel and the sending ends of
 * its neighbours' packet channels, and the simulation controller handed the
 * other ends in one registry per role.
 *
 * Channels are tokens: `crossbeam_channel::unbounded()` yields the two ends
 * of a new channel, told apart from every other channel by its family (what
 * it carries) and its serial number (the position of the node in the
 * iteration that created it). Spawning a thread is recorded as the
 * constructor arguments of the node it runs.
 */
module Bootstrap {
  import opened Topology
  import V = Validator

  // ---------------------------------------------------------------------------
  // Channels and maps
  // ---------------------------------------------------------------------------

  /** What a channel carries: controller events or commands of one role, or packets. */
  datatype Family =
    | DroneEvents | DroneCommands
    | WebClientEvents | WebClientCommands
    | ServerEvents | ServerCommands
    | Packets

  datatype Channel = Channel(family: Family, serial: nat)
  datatype Sender = Sender(channel: Channel)
  datatype Receiver = Receiver(channel: Channel)

  /** A `(Sender<T>, Receiver<T>)` pair. */
  type Pipe = (Sender, Receiver)

  /** `crossbeam_channel::unbounded()`: both ends of one new channel. */
  function Unbounded(family: Family, serial: nat): (p: Pipe)
    ensures p.0.channel == p.1.channel && p.0.channel.family == family
  {
    (Sender(Channel(family, serial)), Receiver(Channel(family, serial)))
  }

  /** The keys of a list of pairs. */
  function KeysOf<T>(ps: seq<(NodeId, T)>): set<NodeId> {
    set i | 0 <= i < |ps| :: ps[i].0
  }

  /** `collect()` into a `HashMap`: pairs are inserted in order, so a later pair replaces an earlier one with the same key. */
  function Collect<T>(ps: seq<(NodeId, T)>): (m: map<NodeId, T>)
    ensures m.Keys == KeysOf(ps)
    decreases |ps|
  {
    if ps == [] then map[]
    else
      var n := |ps| - 1;
      var m := Collect(ps[..n]);
      assert KeysOf(ps) == KeysOf(ps[..n]) + {ps[n].0} by {
        assert forall i :: 0 <= i < n ==> ps[..n][i] == ps[i];
      }
      m[ps[n].0 := ps[n].1]
  }

  /** The value a collected map holds for a key is that of the key's last pair. */
  lemma {:induction false} CollectLast<T>(ps: seq<(NodeId, T)>, k: nat)
    requires k < |ps|
    requires forall j :: k < j < |ps| ==> ps[j].0 != ps[k].0
    ensures ps[k].0 in Collect(ps) && Collect(ps)[ps[k].0] == ps[k].1
    decreases |ps|
  {
    var n := |ps| - 1;
    if k < n {
      var front := ps[..n];
      assert front[k] == ps[k];
      assert forall j :: k < j < |front| ==> front[j] == ps[j];
      CollectLast(front, k);
      assert Collect(ps) == Collect(front)[ps[n].0 := ps[n].1];
    }
  }

  /** Every value of a collected map is the value of some pair with that key. */
  lemma {:induction false} CollectFrom<T>(ps: seq<(NodeId, T)>, x: NodeId)
    requires x in Collect(ps)
    ensures exists i :: 0 <= i < |ps| && ps[i].0 == x && Collect(ps)[x] == ps[i].1
    decreases |ps|
  {
    var n := |ps| - 1;
    if ps[n].0 != x {
      CollectFrom(ps[..n], x);
      var i :| 0 <= i < n && ps[..n][i].0 == x && Collect(ps[..n])[x] == ps[..n][i].1;
      assert ps[i] == ps[..n][i];
    }
  }

  /** `ids.iter().map(|id| (id, unbounded())).collect()`: a new channel per id, numbered from `first`. */
  function FreshPipes(ids: seq<NodeId>, family: Family, first: nat): (r: seq<(NodeId, Pipe)>)
    ensures |r| == |ids|
  {
    seq(|ids|, i requires 0 <= i < |ids| => (ids[i], Unbounded(family, first + i)))
  }

  /** With unique ids, the map of fresh channels gives id `ids[i]` the channel numbered `first + i`. */
  lemma LookupFresh(ids: seq<NodeId>, family: Family, first: nat, i: nat)
    requires Distinct(ids) && i < |ids|
    ensures ids[i] in Collect(FreshPipes(ids, family, first))
    ensures Collect(FreshPipes(ids, family, first))[ids[i]] == Unbounded(family, first + i)
  {
    var ps := FreshPipes(ids, family, first);
    assert forall j :: 0 <= j < |ps| ==> ps[j] == (ids[j], Unbounded(family, first + j));
    CollectLast(ps, i);
  }

  /** Both ends of every pipe in the map belong to the same channel of the given family. */
  ghost predicate Matched(m: map<NodeId, Pipe>, family: Family) {
    forall id :: id in m ==> m[id].0.channel == m[id].1.channel && m[id].0.channel.family == family
  }

  lemma FreshMatched(ids: seq<NodeId>, family: Family, first: nat)
    ensures Matched(Collect(FreshPipes(ids, family, first)), family)
  {
    var m := Collect(FreshPipes(ids, family, first));
    forall id | id in m ensures m[id].0.channel == m[id].1.channel && m[id].0.channel.family == family {
      var ps := FreshPipes(ids, family, first);
      CollectFrom(ps, id);
      var i :| 0 <= i < |ps| && ps[i].0 == id && m[id] == ps[i].1;
      assert m[id] == Unbounded(family, first + i);
    }
  }

  /**
   * `create_channels`: the `chain!` of one new packet channel per drone, per
   * client and per server, in that order.
   */
  function CreateChannels(drones: seq<Drone>, clients: seq<Client>, servers: seq<Server>): seq<(NodeId, Pipe)> {
    var d, c := |drones|, |clients|;
    FreshPipes(DroneIds(drones), Packets, 0)
      + FreshPipes(ClientIds(clients), Packets, d)
      + FreshPipes(ServerIds(servers), Packets, d + c)
  }

  /** `create_channels` yields one entry per node, in the order of `Ids`, numbered by position. */
  lemma CreateChannelsEntries(c: Config)
    ensures CreateChannels(c.drone, c.client, c.server) == FreshPipes(Ids(c), Packets, 0)
  {
    var r, f := CreateChannels(c.drone, c.client, c.server), FreshPipes(Ids(c), Packets, 0);
    var d, cl := |c.drone|, |c.client|;
    assert |r| == |f|;
    forall k | 0 <= k < |r| ensures r[k] == f[k] {
      if k < d {
      } else if k < d + cl {
        assert ClientIds(c.client)[k - d] == Ids(c)[k];
      } else {
        assert ServerIds(c.server)[k - d - cl] == Ids(c)[k];
      }
    }
  }

  /**
   * `drones.iter().map(|d| (d.id, unbounded())).collect()` and its kin: a
   * map from every listed id to both ends of a new channel of one family.
   */
  function ControlPipes(ids: seq<NodeId>, family: Family): (m: map<NodeId, Pipe>)
    ensures m.Keys == Elems(ids) && Matched(m, family)
  {
    FreshKeys(ids, family, 0);
    FreshMatched(ids, family, 0);
    Collect(FreshPipes(ids, family, 0))
  }

  /**
   * The packet channel map of a configuration: every node has one, no other
   * id does, and the channels are the fresh ones `create_channels` makes,
   * in the order of `Ids`.
   */
  function PacketChannels(c: Config): (m: map<NodeId, Pipe>)
    ensures m.Keys == Elems(Ids(c)) && Matched(m, Packets)
    ensures m == Collect(FreshPipes(Ids(c), Packets, 0))
  {
    CreateChannelsEntries(c);
    FreshKeys(Ids(c), Packets, 0);
    FreshMatched(Ids(c), Packets, 0);
    Collect(CreateChannels(c.drone, c.client, c.server))
  }

  /** With unique ids, the `k`-th node's packet channel is the one created `k`-th, so no two nodes share one. */
  lemma PacketChannelsNumbered(c: Config)
    requires Distinct(Ids(c))
    ensures forall k :: 0 <= k < |Ids(c)| ==> Ids(c)[k] in PacketChannels(c) && PacketChannels(c)[Ids(c)[k]] == Unbounded(Packets, k)
  {
    var ids, m := Ids(c), PacketChannels(c);
    forall k | 0 <= k < |ids| ensures ids[k] in m && m[ids[k]] == Unbounded(Packets, k) {
      LookupFresh(ids, Packets, 0, k);
    }
  }

  /**
   * `connected_ids.iter().map(|id| (*id, channels[id].0.clone())).collect()`:
   * a node's map from each neighbour to the sending end of that neighbour's
   * packet channel.
   */
  function NeighbourSenders(ns: seq<NodeId>, channels: map<NodeId, Pipe>): (m: map<NodeId, Sender>)
    requires forall n :: n in ns ==> n in channels
    ensures m.Keys == Elems(ns)
    ensures forall n :: n in m ==> m[n] == channels[n].0
  {
    var ps := seq(|ns|, i requires 0 <= i < |ns| => (ns[i], channels[ns[i]].0));
    var m := Collect(ps);
    assert KeysOf(ps) == Elems(ns) by {
      forall n | n in ns ensures n in KeysOf(ps) {
        var i :| 0 <= i < |ns| && ns[i] == n;
        assert ps[i].0 == n;
      }
    }
    forall n | n in m ensures m[n] == channels[n].0 {
      CollectFrom(ps, n);
    }
    m
  }

  // ---------------------------------------------------------------------------
  // Nodes and registries
  // ---------------------------------------------------------------------------

  /** The ten drone implementations, in the order of the factory array. */
  datatype DroneImpl =
    | DrDrone | RustDoIt | RustRoveri | RollingDrone | RustafarianDrone
    | RustezeDrone | RustyDrone | GetDroned | NoSoundDroneRIP | BetterCallDrone

  const Factories: seq<DroneImpl> :=
    [DrDrone, RustDoIt, RustRoveri, RollingDrone, RustafarianDrone,
     RustezeDrone, RustyDrone, GetDroned, NoSoundDroneRIP, BetterCallDrone]

  /** `v[usize::from(d.id) % v.len()]`: the index is always in range. */
  function FactoryFor(id: NodeId): (r: DroneImpl)
    ensures r in Factories
    ensures r == Factories[id % 10]
  {
    Factories[id % |Factories|]
  }

  /** Which constructor runs a node. */
  datatype Kind = DroneNode(impl: DroneImpl, pdr: F32) | WebBrowser | TextServer | MediaServer

  /**
   * A node handed to its thread, as its constructor arguments: id, sender
   * of controller events, receiver of controller commands, receiver of its
   * own packets, and the packet senders of its neighbours.
   */
  datatype Spawned = Spawned(
    kind: Kind,
    id: NodeId,
    controllerSend: Sender,
    controllerRecv: Receiver,
    packetRecv: Receiver,
    packetSend: map<NodeId, Sender>)

  /** The controller's handles on one node: command sender, event receiver, packet sender, packet receiver. */
  datatype Handles = Handles(commandSend: Sender, eventRecv: Receiver, packetSend: Sender, packetRecv: Receiver)

  /** `m` maps exactly the ids of `ns`, each to the sending end of that id's packet channel. */
  ghost predicate SendsTo(m: map<NodeId, Sender>, ns: seq<NodeId>, channels: map<NodeId, Pipe>) {
    && m.Keys == Elems(ns)
    && forall n :: n in m ==> n in channels && m[n] == channels[n].0
  }

  /** The data-plane arguments of a node: its kind, its id, its own packet receiver and its neighbours' senders. */
  ghost predicate Carries(s: Spawned, kind: Kind, id: NodeId, ns: seq<NodeId>, channels: map<NodeId, Pipe>) {
    && s.kind == kind && s.id == id
    && id in channels && s.packetRecv == channels[id].1
    && SendsTo(s.packetSend, ns, channels)
  }

  /** A node built from its own entries of the event, command and packet channel maps. */
  ghost predicate BuiltFrom(s: Spawned, kind: Kind, id: NodeId, ns: seq<NodeId>,
                            events: map<NodeId, Pipe>, commands: map<NodeId, Pipe>, channels: map<NodeId, Pipe>) {
    && id in events && id in commands
    && s.controllerSend == events[id].0 && s.controllerRecv == commands[id].1
    && Carries(s, kind, id, ns, channels)
  }

  /** The `i`-th node launched is the `i`-th node of the list, built from its own map entries. */
  ghost predicate SpawnedAs(launched: seq<Spawned>, kinds: seq<Kind>, ids: seq<NodeId>, nbrs: seq<seq<NodeId>>,
                            events: map<NodeId, Pipe>, commands: map<NodeId, Pipe>, channels: map<NodeId, Pipe>) {
    && |launched| == |kinds| == |ids| == |nbrs|
    && forall i :: 0 <= i < |ids| ==> BuiltFrom(launched[i], kinds[i], ids[i], nbrs[i], events, commands, channels)
  }

  /**
   * One of the spawn loops: for each node, build its neighbour map and hand
   * its constructor the id, `events[id].0`, `commands[id].1`,
   * `channels[id].1` and the neighbour map.
   */
  method SpawnNodes(kinds: seq<Kind>, ids: seq<NodeId>, nbrs: seq<seq<NodeId>>,
                    events: map<NodeId, Pipe>, commands: map<NodeId, Pipe>, channels: map<NodeId, Pipe>)
    returns (launched: seq<Spawned>)
    requires |kinds| == |ids| == |nbrs|
    requires forall id :: id in ids ==> id in events && id in commands && id in channels
    requires forall i, n :: 0 <= i < |nbrs| && n in nbrs[i] ==> n in channels
    ensures SpawnedAs(launched, kinds, ids, nbrs, events, commands, channels)
  {
    launched := [];
    for i := 0 to |ids|
      invariant |launched| == i
      invariant forall j :: 0 <= j < i ==> BuiltFrom(launched[j], kinds[j], ids[j], nbrs[j], events, commands, channels)
    {
      var id := ids[i];
      var senders := NeighbourSenders(nbrs[i], channels);
      launched := launched + [Spawned(kinds[i], id, events[id].0, commands[id].1, channels[id].1, senders)];
    }
  }

  /** The registry has the listed ids as keys, each holding the handles built from its own map entries. */
  ghost predicate RegisteredAs(reg: map<NodeId, Handles>, ids: seq<NodeId>,
                               commands: map<NodeId, Pipe>, events: map<NodeId, Pipe>, channels: map<NodeId, Pipe>) {
    && reg.Keys == Elems(ids)
    && (forall id :: id in reg ==>
          && id in commands && id in events && id in channels
          && reg[id] == Handles(commands[id].0, events[id].1, channels[id].0, channels[id].1))
  }

  /**
   * One of the registry loops: for each id, insert the command sender, the
   * event receiver and both ends of the packet channel.
   */
  method Register(ids: seq<NodeId>, commands: map<NodeId, Pipe>, events: map<NodeId, Pipe>, channels: map<NodeId, Pipe>)
    returns (reg: map<NodeId, Handles>)
    requires forall id :: id in ids ==> id in commands && id in events && id in channels
    ensures RegisteredAs(reg, ids, commands, events, channels)
  {
    reg := map[];
    for i := 0 to |ids|
      invariant reg.Keys == Elems(ids[..i])
      invariant forall id :: id in reg ==>
                  reg[id] == Handles(commands[id].0, events[id].1, channels[id].0, channels[id].1)
    {
      assert Elems(ids[..i + 1]) == Elems(ids[..i]) + {ids[i]} by {
        assert ids[..i + 1] == ids[..i] + [ids[i]];
      }
      var id := ids[i];
      reg := reg[id := Handles(commands[id].0, events[id].1, channels[id].0, channels[id].1)];
    }
    assert ids[..|ids|] == ids;
  }

  function DroneKinds(drones: seq<Drone>): seq<Kind> {
    seq(|drones|, i requires 0 <= i < |drones| => DroneNode(FactoryFor(drones[i].id), drones[i].pdr))
  }

  function ClientKinds(n: nat): seq<Kind> {
    seq(n, i => WebBrowser)
  }

  /** The first server runs a text server, every other one a media server. */
  function ServerKinds(n: nat): seq<Kind> {
    seq(n, i => if i == 0 then TextServer else MediaServer)
  }

  // ---------------------------------------------------------------------------
  // What a started network looks like
  // ---------------------------------------------------------------------------

  /** The arguments of `simulation_controller::run`: one registry per role, then the topology itself. */
  datatype Handoff = Handoff(
    drones: map<NodeId, Handles>,
    webClients: map<NodeId, Handles>,
    chatClients: map<NodeId, Handles>,
    servers: map<NodeId, Handles>,
    droneConfigs: seq<Drone>,
    clientConfigs: seq<Client>,
    serverConfigs: seq<Server>)

  /**
   * A started network: the node threads spawned, in spawn order (each node
   * is moved into its own thread and never handed to the controller), and
   * what the controller is handed.
   */
  datatype Network = Network(threads: seq<Spawned>, controller: Handoff)

  /** `main` either stops after the validator (returning or panicking) or starts the network. */
  datatype Boot = Stopped(verdict: V.Verdict) | Running(network: Network)

  /**
   * The data plane: the `k`-th launched node is the `k`-th node of the
   * configuration, holds a sender for exactly its declared neighbours, each
   * feeding that neighbour's own inbox, and no two nodes share an inbox.
   */
  ghost predicate Wired(c: Config, launched: seq<Spawned>) {
    && |launched| == |Ids(c)|
    && (forall k :: 0 <= k < |launched| ==>
          launched[k].id == Ids(c)[k] && launched[k].packetSend.Keys == Elems(Nbrs(c)[k]))
    && (forall k, j :: 0 <= k < |launched| && 0 <= j < |launched| && Ids(c)[j] in launched[k].packetSend ==>
          launched[k].packetSend[Ids(c)[j]].channel == launched[j].packetRecv.channel)
    && (forall k, j :: 0 <= k < j < |launched| ==> launched[k].packetRecv.channel != launched[j].packetRecv.channel)
  }

  /** Each node runs the constructor its role and position call for. */
  ghost predicate Roles(c: Config, launched: seq<Spawned>) {
    var d, cl := |c.drone|, |c.client|;
    && |launched| == |Ids(c)|
    && (forall i :: 0 <= i < d ==> launched[i].kind == DroneNode(Factories[c.drone[i].id % |Factories|], c.drone[i].pdr))
    && (forall i :: d <= i < d + cl ==> launched[i].kind == WebBrowser)
    && (forall i :: d + cl <= i < |launched| ==> launched[i].kind == if i == d + cl then TextServer else MediaServer)
  }

  /**
   * The control plane of one role: the registry has exactly that role's ids
   * as keys, and the handles it holds are the other ends of the channels the
   * node itself holds.
   */
  ghost predicate Registered(reg: map<NodeId, Handles>, ids: seq<NodeId>, nodes: seq<Spawned>) {
    && reg.Keys == Elems(ids)
    && |nodes| == |ids|
    && (forall k :: 0 <= k < |ids| ==>
          && reg[ids[k]].commandSend.channel == nodes[k].controllerRecv.channel
          && reg[ids[k]].eventRecv.channel == nodes[k].controllerSend.channel
          && reg[ids[k]].packetSend.channel == nodes[k].packetRecv.channel
          && reg[ids[k]].packetRecv == nodes[k].packetRecv)
  }

  /** The fresh-channel map of a list of ids has exactly those ids as keys. */
  lemma FreshKeys(ids: seq<NodeId>, family: Family, first: nat)
    ensures Collect(FreshPipes(ids, family, first)).Keys == Elems(ids)
  {
    var ps := FreshPipes(ids, family, first);
    forall x | x in ids ensures x in KeysOf(ps) {
      var i :| 0 <= i < |ids| && ids[i] == x;
      assert ps[i].0 == x;
    }
  }

  /** Every declared neighbour id names a node of the configuration. */
  ghost predicate NeighboursAreNodes(c: Config) {
    forall k, n :: 0 <= k < |Ids(c)| && n in Nbrs(c)[k] ==> n in Ids(c)
  }

  /** Where every declared neighbour is a node, so is every neighbour of every role's list. */
  lemma NeighboursAreChannels(c: Config)
    requires NeighboursAreNodes(c)
    ensures forall i, n :: 0 <= i < |c.drone| && n in DroneNbrs(c.drone)[i] ==> n in Ids(c)
    ensures forall i, n :: 0 <= i < |c.client| && n in ClientNbrs(c.client)[i] ==> n in Ids(c)
    ensures forall i, n :: 0 <= i < |c.server| && n in ServerNbrs(c.server)[i] ==> n in Ids(c)
  {
    var d, cl := |c.drone|, |c.client|;
    forall i, n | 0 <= i < |c.drone| && n in DroneNbrs(c.drone)[i] ensures n in Ids(c) {
      assert Nbrs(c)[i] == DroneNbrs(c.drone)[i];
    }
    forall i, n | 0 <= i < |c.client| && n in ClientNbrs(c.client)[i] ensures n in Ids(c) {
      assert Nbrs(c)[d + i] == ClientNbrs(c.client)[i];
    }
    forall i, n | 0 <= i < |c.server| && n in ServerNbrs(c.server)[i] ensures n in Ids(c) {
      assert Nbrs(c)[d + cl + i] == ServerNbrs(c.server)[i];
    }
  }

  /** Every role's kind list, in the order of `Ids`. */
  function Kinds(c: Config): seq<Kind> {
    DroneKinds(c.drone) + ClientKinds(|c.client|) + ServerKinds(|c.server|)
  }

  /** Nodes carrying the packet channels numbered by position are wired as `Wired` says. */
  lemma LaunchedWired(c: Config, launched: seq<Spawned>, channels: map<NodeId, Pipe>)
    requires |launched| == |Ids(c)|
    requires forall k :: 0 <= k < |Ids(c)| ==> Ids(c)[k] in channels && channels[Ids(c)[k]] == Unbounded(Packets, k)
    requires forall k :: 0 <= k < |launched| ==> Carries(launched[k], Kinds(c)[k], Ids(c)[k], Nbrs(c)[k], channels)
    ensures Wired(c, launched)
  {
    forall k | 0 <= k < |launched| ensures launched[k].packetRecv.channel == Channel(Packets, k) {
      assert Carries(launched[k], Kinds(c)[k], Ids(c)[k], Nbrs(c)[k], channels);
    }
    forall k, j | 0 <= k < |launched| && 0 <= j < |launched| && Ids(c)[j] in launched[k].packetSend
      ensures launched[k].packetSend[Ids(c)[j]].channel == launched[j].packetRecv.channel
    {
      assert Carries(launched[k], Kinds(c)[k], Ids(c)[k], Nbrs(c)[k], channels);
      assert Carries(launched[j], Kinds(c)[j], Ids(c)[j], Nbrs(c)[j], channels);
    }
  }

  /** Nodes of the kinds `Kinds` lists have the roles `Roles` asks for. */
  lemma LaunchedRoles(c: Config, launched: seq<Spawned>)
    requires |launched| == |Ids(c)|
    requires forall k :: 0 <= k < |launched| ==> launched[k].kind == Kinds(c)[k]
    ensures Roles(c, launched)
  {
    var d, cl := |c.drone|, |c.client|;
    forall i | d <= i < d + cl ensures launched[i].kind == WebBrowser {
      assert Kinds(c)[i] == ClientKinds(cl)[i - d];
    }
    forall i | d + cl <= i < |launched| ensures launched[i].kind == if i == d + cl then TextServer else MediaServer {
      assert Kinds(c)[i] == ServerKinds(|c.server|)[i - d - cl];
    }
  }

  /**
   * One role's nodes, found at `off` among all launched nodes, carry the
   * entries found at the same positions of the whole configuration.
   */
  lemma PlacedAt(all: seq<Spawned>, off: nat, part: seq<Spawned>,
                 kinds: seq<Kind>, ids: seq<NodeId>, nbrs: seq<seq<NodeId>>,
                 allKinds: seq<Kind>, allIds: seq<NodeId>, allNbrs: seq<seq<NodeId>>,
                 events: map<NodeId, Pipe>, commands: map<NodeId, Pipe>, channels: map<NodeId, Pipe>)
    requires SpawnedAs(part, kinds, ids, nbrs, events, commands, channels)
    requires |all| == |allKinds| == |allIds| == |allNbrs| && off + |part| <= |all|
    requires all[off..off + |part|] == part && allKinds[off..off + |part|] == kinds
    requires allIds[off..off + |part|] == ids && allNbrs[off..off + |part|] == nbrs
    ensures forall k :: off <= k < off + |part| ==> Carries(all[k], allKinds[k], allIds[k], allNbrs[k], channels)
  {
    forall k | off <= k < off + |part| ensures Carries(all[k], allKinds[k], allIds[k], allNbrs[k], channels) {
      var i := k - off;
      assert all[k] == part[i] && allKinds[k] == kinds[i] && allIds[k] == ids[i] && allNbrs[k] == nbrs[i];
      assert BuiltFrom(part[i], kinds[i], ids[i], nbrs[i], events, commands, channels);
    }
  }

  /** The three parts of a concatenation, recovered by slicing at the parts' lengths. */
  lemma ThreeParts<T>(x: seq<T>, y: seq<T>, z: seq<T>)
    ensures (x + y + z)[..|x|] == x && (x + y + z)[|x|..|x| + |y|] == y
    ensures (x + y + z)[|x| + |y|..|x| + |y| + |z|] == z
  {
    assert (x + y + z)[..|x|] == x;
    assert (x + y + z)[|x|..|x| + |y|] == y;
    assert (x + y + z)[|x| + |y|..|x| + |y| + |z|] == z;
  }

  /** The three spawn loops together launch every node of the configuration with its own entries. */
  lemma LaunchedCarries(c: Config, drones: seq<Spawned>, clients: seq<Spawned>, servers: seq<Spawned>,
                        droneEvents: map<NodeId, Pipe>, droneCommands: map<NodeId, Pipe>,
                        webEvents: map<NodeId, Pipe>, webCommands: map<NodeId, Pipe>,
                        serverEvents: map<NodeId, Pipe>, serverCommands: map<NodeId, Pipe>,
                        channels: map<NodeId, Pipe>)
    requires SpawnedAs(drones, DroneKinds(c.drone), DroneIds(c.drone), DroneNbrs(c.drone), droneEvents, droneCommands, channels)
    requires SpawnedAs(clients, ClientKinds(|c.client|), ClientIds(c.client), ClientNbrs(c.client), webEvents, webCommands, channels)
    requires SpawnedAs(servers, ServerKinds(|c.server|), ServerIds(c.server), ServerNbrs(c.server), serverEvents, serverCommands, channels)
    ensures |drones + clients + servers| == |Ids(c)|
    ensures forall k :: 0 <= k < |Ids(c)| ==> Carries((drones + clients + servers)[k], Kinds(c)[k], Ids(c)[k], Nbrs(c)[k], channels)
  {
    var all := drones + clients + servers;
    var dk, ck, sk := DroneKinds(c.drone), ClientKinds(|c.client|), ServerKinds(|c.server|);
    var di, ci, si := DroneIds(c.drone), ClientIds(c.client), ServerIds(c.server);
    var dn, cn, sn := DroneNbrs(c.drone), ClientNbrs(c.client), ServerNbrs(c.server);
    var d, cl, n := |drones|, |clients|, |all|;
    ThreeParts(drones, clients, servers);
    ThreeParts(dk, ck, sk);
    ThreeParts(di, ci, si);
    ThreeParts(dn, cn, sn);
    var ks, xs, ns := dk + ck + sk, di + ci + si, dn + cn + sn;
    PlacedAt(all, 0, drones, dk, di, dn, ks, xs, ns, droneEvents, droneCommands, channels);
    PlacedAt(all, d, clients, ck, ci, cn, ks, xs, ns, webEvents, webCommands, channels);
    PlacedAt(all, d + cl, servers, sk, si, sn, ks, xs, ns, serverEvents, serverCommands, channels);
    assert Kinds(c) == ks && Ids(c) == xs && Nbrs(c) == ns;
  }

  /** A registry and the nodes spawned from the same maps hold the two ends of each channel. */
  lemma RegistryMatchesNodes(reg: map<NodeId, Handles>, ids: seq<NodeId>, nodes: seq<Spawned>,
                             kinds: seq<Kind>, nbrs: seq<seq<NodeId>>,
                             commands: map<NodeId, Pipe>, events: map<NodeId, Pipe>, channels: map<NodeId, Pipe>,
                             commandFamily: Family, eventFamily: Family)
    requires RegisteredAs(reg, ids, commands, events, channels)
    requires SpawnedAs(nodes, kinds, ids, nbrs, events, commands, channels)
    requires Matched(commands, commandFamily) && Matched(events, eventFamily) && Matched(channels, Packets)
    ensures Registered(reg, ids, nodes)
  {
    forall k | 0 <= k < |ids|
      ensures && reg[ids[k]].commandSend.channel == nodes[k].controllerRecv.channel
              && reg[ids[k]].eventRecv.channel == nodes[k].controllerSend.channel
              && reg[ids[k]].packetSend.channel == nodes[k].packetRecv.channel
              && reg[ids[k]].packetRecv == nodes[k].packetRecv
    {
      assert BuiltFrom(nodes[k], kinds[k], ids[k], nbrs[k], events, commands, channels);
    }
  }

  // ---------------------------------------------------------------------------
  // main
  // ---------------------------------------------------------------------------

  /**
   * A started network: wired, each node with its constructor, each registry
   * matching its role's nodes, and the controller handed the topology.
   */
  ghost predicate Started(c: Config, n: Network) {
    var d, cl, h := |c.drone|, |c.client|, n.controller;
    && Wired(c, n.threads)
    && Roles(c, n.threads)
    && Registered(h.drones, DroneIds(c.drone), n.threads[..d])
    && Registered(h.webClients, ClientIds(c.client), n.threads[d..d + cl])
    && h.chatClients == map[]
    && Registered(h.servers, ServerIds(c.server), n.threads[d + cl..])
    && h.droneConfigs == c.drone && h.clientConfigs == c.client && h.serverConfigs == c.server
  }

  /**
   * `main` after parsing: validate, stop if the validator rejects (or panic
   * where it panics), otherwise create the control and packet channels,
   * spawn the drones, fill the registries, spawn the clients and the servers
   * and hand everything to the simulation controller.
   */
  method Start(c: Config) returns (b: Boot)
    ensures b.Running? <==> V.ValidTopology(c)
    ensures b.Stopped? ==> b.verdict != V.Accepted && (b.verdict == V.Panicked <==> c == Config([], [], []))
    ensures b.Running? ==> Started(c, b.network)
  {
    var verdict := V.CheckTopologyConstraints(c.drone, c.client, c.server);
    V.PanicsOnlyOnEmptyConfig(c);
    if verdict != V.Accepted {
      return Stopped(verdict);
    }
    V.AcceptedNeighboursAreNodes(c);
    var n := Launch(c);
    b := Running(n);
  }

  /**
   * `main` past the validator: the control channel maps, the packet
   * channels, the drone threads, the three registries, the client threads and
   * the server threads, in the order `main` creates them.
   */
  method Launch(c: Config) returns (n: Network)
    requires Distinct(Ids(c)) && NeighboursAreNodes(c)
    ensures Started(c, n)
  {
    var d, cl, s := DroneIds(c.drone), ClientIds(c.client), ServerIds(c.server);
    var sclEvents := ControlPipes(d, DroneEvents);
    var sclCommands := ControlPipes(d, DroneCommands);
    var webEvents := ControlPipes(cl, WebClientEvents);
    var webCommands := ControlPipes(cl, WebClientCommands);
    var serverEvents := ControlPipes(s, ServerEvents);
    var serverCommands := ControlPipes(s, ServerCommands);
    var channels := PacketChannels(c);
    NeighboursAreChannels(c);

    var drones := SpawnNodes(DroneKinds(c.drone), d, DroneNbrs(c.drone), sclEvents, sclCommands, channels);
    var droneReg := Register(d, sclCommands, sclEvents, channels);
    var webReg := Register(cl, webCommands, webEvents, channels);
    var serverReg := Register(s, serverCommands, serverEvents, channels);
    var clients := SpawnNodes(ClientKinds(|cl|), cl, ClientNbrs(c.client), webEvents, webCommands, channels);
    var servers := SpawnNodes(ServerKinds(|s|), s, ServerNbrs(c.server), serverEvents, serverCommands, channels);
    var threads := drones + clients + servers;
    var h := Handoff(droneReg, webReg, map[], serverReg, c.drone, c.client, c.server);
    n := Network(threads, h);

    LaunchedCarries(c, drones, clients, servers, sclEvents, sclCommands, webEvents, webCommands,
                    serverEvents, serverCommands, channels);
    LaunchedDataPlane(c, threads, channels);
    LaunchedRegistries(c, h, threads, drones, clients, servers, sclEvents, sclCommands, webEvents, webCommands,
                       serverEvents, serverCommands, channels);
  }

  /** Nodes carrying their own entries of the packet channel map are wired and have their roles. */
  lemma LaunchedDataPlane(c: Config, launched: seq<Spawned>, channels: map<NodeId, Pipe>)
    requires Distinct(Ids(c)) && channels == PacketChannels(c)
    requires |launched| == |Ids(c)|
    requires forall k :: 0 <= k < |Ids(c)| ==> Carries(launched[k], Kinds(c)[k], Ids(c)[k], Nbrs(c)[k], channels)
    ensures Wired(c, launched) && Roles(c, launched)
  {
    PacketChannelsNumbered(c);
    LaunchedWired(c, launched, channels);
    forall k | 0 <= k < |launched| ensures launched[k].kind == Kinds(c)[k] {
      assert Carries(launched[k], Kinds(c)[k], Ids(c)[k], Nbrs(c)[k], channels);
    }
    LaunchedRoles(c, launched);
  }

  /** Each registry holds the other ends of the control and packet channels of its role's nodes. */
  lemma LaunchedRegistries(c: Config, h: Handoff, threads: seq<Spawned>, drones: seq<Spawned>, clients: seq<Spawned>, servers: seq<Spawned>,
                           droneEvents: map<NodeId, Pipe>, droneCommands: map<NodeId, Pipe>,
                           webEvents: map<NodeId, Pipe>, webCommands: map<NodeId, Pipe>,
                           serverEvents: map<NodeId, Pipe>, serverCommands: map<NodeId, Pipe>,
                           channels: map<NodeId, Pipe>)
    requires Matched(channels, Packets)
    requires Matched(droneEvents, DroneEvents) && Matched(droneCommands, DroneCommands)
    requires Matched(webEvents, WebClientEvents) && Matched(webCommands, WebClientCommands)
    requires Matched(serverEvents, ServerEvents) && Matched(serverCommands, ServerCommands)
    requires SpawnedAs(drones, DroneKinds(c.drone), DroneIds(c.drone), DroneNbrs(c.drone), droneEvents, droneCommands, channels)
    requires SpawnedAs(clients, ClientKinds(|c.client|), ClientIds(c.client), ClientNbrs(c.client), webEvents, webCommands, channels)
    requires SpawnedAs(servers, ServerKinds(|c.server|), ServerIds(c.server), ServerNbrs(c.server), serverEvents, serverCommands, channels)
    requires RegisteredAs(h.drones, DroneIds(c.drone), droneCommands, droneEvents, channels)
    requires RegisteredAs(h.webClients, ClientIds(c.client), webCommands, webEvents, channels)
    requires RegisteredAs(h.servers, ServerIds(c.server), serverCommands, serverEvents, channels)
    requires threads == drones + clients + servers
    ensures Registered(h.drones, DroneIds(c.drone), threads[..|c.drone|])
    ensures Registered(h.webClients, ClientIds(c.client), threads[|c.drone|..|c.drone| + |c.client|])
    ensures Registered(h.servers, ServerIds(c.server), threads[|c.drone| + |c.client|..])
  {
    var d, cl := |c.drone|, |c.client|;
    RegistryMatchesNodes(h.drones, DroneIds(c.drone), drones, DroneKinds(c.drone), DroneNbrs(c.drone),
                         droneCommands, droneEvents, channels, DroneCommands, DroneEvents);
    RegistryMatchesNodes(h.webClients, ClientIds(c.client), clients, ClientKinds(cl), ClientNbrs(c.client),
                         webCommands, webEvents, channels, WebClientCommands, WebClientEvents);
    RegistryMatchesNodes(h.servers, ServerIds(c.server), servers, ServerKinds(|c.server|), ServerNbrs(c.server),
                         serverCommands, serverEvents, channels, ServerCommands, ServerEvents);
    assert threads[..d] == drones;
    assert threads[d..d + cl] == clients;
    assert threads[d + cl..] == servers;
  }
}
