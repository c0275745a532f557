/**
 * The data model of a network configuration: drones (relay nodes), clients
 * (ingress nodes) and servers (terminus nodes). Every node has a `u8` id,
 * unique across the whole network, and the list of ids it declares as its
 * neighbours; drones also carry a packet drop rate.
 */
module Topology {

  /** `NodeId` is a `u8`. */
  type NodeId = x: int | 0 <= x < 256

  /** A directed edge `(from, to)` between two node ids. */
  type Edge = (NodeId, NodeId)

  datatype Option<+T> = None | Some(value: T)

  /**
   * An `f32` drop rate, as far as a range test can observe it: a finite
   * value, an infinity or NaN.
   */
  datatype F32 = Finite(value: real) | Infinite(negative: bool) | NaN

  datatype Drone = Drone(id: NodeId, connectedNodeIds: seq<NodeId>, pdr: F32)
  datatype Client = Client(id: NodeId, connectedDroneIds: seq<NodeId>)
  datatype Server = Server(id: NodeId, connectedDroneIds: seq<NodeId>)

  /** A parsed configuration: the three node lists, in file order. */
  datatype Config = Config(drone: seq<Drone>, client: seq<Client>, server: seq<Server>)

  // The id and neighbour projections, `drones.iter().map(|d| d.id).collect()`.

  function DroneIds(drones: seq<Drone>): seq<NodeId> {
    seq(|drones|, i requires 0 <= i < |drones| => drones[i].id)
  }

  function ClientIds(clients: seq<Client>): seq<NodeId> {
    seq(|clients|, i requires 0 <= i < |clients| => clients[i].id)
  }

  function ServerIds(servers: seq<Server>): seq<NodeId> {
    seq(|servers|, i requires 0 <= i < |servers| => servers[i].id)
  }

  function DroneNbrs(drones: seq<Drone>): seq<seq<NodeId>> {
    seq(|drones|, i requires 0 <= i < |drones| => drones[i].connectedNodeIds)
  }

  function ClientNbrs(clients: seq<Client>): seq<seq<NodeId>> {
    seq(|clients|, i requires 0 <= i < |clients| => clients[i].connectedDroneIds)
  }

  function ServerNbrs(servers: seq<Server>): seq<seq<NodeId>> {
    seq(|servers|, i requires 0 <= i < |servers| => servers[i].connectedDroneIds)
  }

  /** Every id of the network: drones first, then clients, then servers. */
  function Ids(c: Config): seq<NodeId> {
    DroneIds(c.drone) + ClientIds(c.client) + ServerIds(c.server)
  }

  /** The declared neighbour lists, position by position with `Ids`. */
  function Nbrs(c: Config): (r: seq<seq<NodeId>>)
    ensures |r| == |Ids(c)|
  {
    DroneNbrs(c.drone) + ClientNbrs(c.client) + ServerNbrs(c.server)
  }

  /** The ids a list mentions. */
  function Elems(s: seq<NodeId>): (r: set<NodeId>)
    ensures forall x :: x in r <==> x in s
  {
    set x | x in s
  }

  /** No id occurs twice. */
  predicate Distinct(s: seq<NodeId>) {
    forall i, j :: 0 <= i < j < |s| ==> s[i] != s[j]
  }

  /**
   * `Itertools::all_unique` from a set of already seen items: walk the
   * items once and fail at the first one seen before.
   */
  function AllUniqueFrom(s: seq<NodeId>, seen: set<NodeId>): (r: bool)
    ensures r <==> Distinct(s) && Elems(s) !! seen
  {
    if s == [] then true
    else
      var rest := AllUniqueFrom(s[1..], seen + {s[0]});
      assert Elems(s) == {s[0]} + Elems(s[1..]);
      assert Distinct(s) <==> s[0] !in s[1..] && Distinct(s[1..]) by {
        if s[0] !in s[1..] && Distinct(s[1..]) {
          forall i, j | 0 <= i < j < |s| ensures s[i] != s[j] {
            if i > 0 { assert s[i] == s[1..][i - 1] && s[j] == s[1..][j - 1]; }
            else { assert s[j] == s[1..][j - 1]; }
          }
        }
        if Distinct(s) {
          forall i, j | 0 <= i < j < |s[1..]| ensures s[1..][i] != s[1..][j] {
            assert s[1..][i] == s[i + 1] && s[1..][j] == s[j + 1];
          }
        }
      }
      s[0] !in seen && rest
  }

  /** `Itertools::all_unique`: true exactly when no item is repeated. */
  function AllUnique(s: seq<NodeId>): (r: bool)
    ensures r <==> Distinct(s)
  {
    AllUniqueFrom(s, {})
  }

  /** A sequence has at most as many distinct ids as items, and exactly as many when no id repeats. */
  lemma {:induction false} DistinctCard(s: seq<NodeId>)
    ensures |Elems(s)| <= |s|
    ensures |Elems(s)| == |s| <==> Distinct(s)
  {
    if s != [] {
      var t, x := s[..|s| - 1], s[|s| - 1];
      DistinctCard(t);
      assert s == t + [x];
      assert Elems(s) == Elems(t) + {x};
      if x in t {
        assert Elems(s) == Elems(t);
        var i :| 0 <= i < |t| && t[i] == x;
        assert s[i] == s[|s| - 1];
      } else {
        assert |Elems(s)| == |Elems(t)| + 1;
        if Distinct(t) {
          forall i, j | 0 <= i < j < |s| ensures s[i] != s[j] {
            if j < |s| - 1 { assert s[i] == t[i] && s[j] == t[j]; }
            else { assert s[i] == t[i]; }
          }
        } else {
          var i, j :| 0 <= i < j < |t| && t[i] == t[j];
          assert s[i] == s[j];
        }
      }
    }
  }

  /** A concatenation repeats no id exactly when neither part does and the parts share no id. */
  lemma DistinctConcat(a: seq<NodeId>, b: seq<NodeId>)
    ensures Distinct(a + b) <==> Distinct(a) && Distinct(b) && Elems(a) !! Elems(b)
  {
    var s := a + b;
    if Distinct(s) {
      forall i, j | 0 <= i < j < |a| ensures a[i] != a[j] {
        assert a[i] == s[i] && a[j] == s[j];
      }
      forall i, j | 0 <= i < j < |b| ensures b[i] != b[j] {
        assert b[i] == s[|a| + i] && b[j] == s[|a| + j];
      }
      forall i, j | 0 <= i < |a| && 0 <= j < |b| ensures a[i] != b[j] {
        assert a[i] == s[i] && b[j] == s[|a| + j];
      }
    }
    if Distinct(a) && Distinct(b) && Elems(a) !! Elems(b) {
      forall i, j | 0 <= i < j < |s| ensures s[i] != s[j] {
        if j < |a| {
          assert s[i] == a[i] && s[j] == a[j];
        } else if i >= |a| {
          assert s[i] == b[i - |a|] && s[j] == b[j - |a|];
        } else {
          assert s[i] == a[i] && s[j] == b[j - |a|];
          assert s[i] in Elems(a) && s[j] in Elems(b);
        }
      }
    }
  }

  /** A subset is no larger than its superset, and equally large only when equal. */
  lemma SubsetCard<T>(a: set<T>, b: set<T>)
    requires a <= b
    ensures |a| <= |b|
    ensures |a| == |b| ==> a == b
  {
    assert b == a + (b - a);
    if a != b {
      var x :| x in b - a;
      assert |b - a| >= 1;
    }
  }

  /** The position of the first occurrence of `x`, as `iter().find` / `position` report it. */
  function IndexOf(s: seq<NodeId>, x: NodeId): (r: Option<nat>)
    ensures r.None? <==> x !in s
    ensures r.Some? ==> r.value < |s| && s[r.value] == x && x !in s[..r.value]
  {
    if s == [] then None
    else if s[0] == x then Some(0)
    else
      match IndexOf(s[1..], x)
      case None => None
      case Some(i) =>
        assert s[..i + 1] == [s[0]] + s[1..][..i];
        Some(i + 1)
  }

  /** `(0.0..=1.0).contains(&pdr)`: a finite value in the closed unit interval (never NaN). */
  predicate InUnitRange(x: F32) {
    x.Finite? && 0.0 <= x.value <= 1.0
  }

  /** `check_pdr`: every drone's drop rate lies in `[0, 1]`. */
  predicate CheckPdr(drones: seq<Drone>) {
    forall d :: d in drones ==> InUnitRange(d.pdr)
  }

  /** No comparison with NaN holds, and an infinity lies outside `[0, 1]`: such a rate is always rejected. */
  lemma PdrRejectsNonFinite(drones: seq<Drone>, i: nat)
    requires i < |drones| && !drones[i].pdr.Finite?
    ensures !CheckPdr(drones)
  {
    assert drones[i] in drones;
  }

  /** `all` looks at each drone on its own: the check of a concatenation is the check of both parts. */
  lemma CheckPdrConcat(a: seq<Drone>, b: seq<Drone>)
    ensures CheckPdr(a + b) <==> CheckPdr(a) && CheckPdr(b)
  {
    assert forall d :: d in a + b <==> d in a || d in b;
  }
}
