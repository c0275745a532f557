/**
 * Walks and reachability over a directed relation given as a set of edges.
 * Both validators decide reachability: the BFS of the main validator over the
 * declared neighbour lists, and the refactored validator over the undirected
 * closure of an edge set (its connected components).
 */
module Graph {
  import opened Topology

  /** `w` is a non-empty walk: every consecutive pair is an edge of `r`. */
  ghost predicate IsWalk(r: set<Edge>, w: seq<NodeId>) {
    |w| > 0 && forall i :: 0 <= i < |w| - 1 ==> (w[i], w[i + 1]) in r
  }

  /** There is a walk from `a` to `b`. */
  ghost predicate Reachable(r: set<Edge>, a: NodeId, b: NodeId) {
    exists w :: IsWalk(r, w) && w[0] == a && w[|w| - 1] == b
  }

  /** `s` is closed under the edges of `r`. */
  ghost predicate Closed(r: set<Edge>, s: set<NodeId>) {
    forall e :: e in r && e.0 in s ==> e.1 in s
  }

  ghost predicate Symmetric(r: set<Edge>) {
    forall e :: e in r ==> (e.1, e.0) in r
  }

  lemma ReachableRefl(r: set<Edge>, a: NodeId)
    ensures Reachable(r, a, a)
  {
    assert IsWalk(r, [a]);
  }

  /** A walk extends by one edge. */
  lemma ReachableStep(r: set<Edge>, a: NodeId, b: NodeId, c: NodeId)
    requires Reachable(r, a, b) && (b, c) in r
    ensures Reachable(r, a, c)
  {
    var w :| IsWalk(r, w) && w[0] == a && w[|w| - 1] == b;
    var w' := w + [c];
    assert IsWalk(r, w') by {
      forall i | 0 <= i < |w'| - 1 ensures (w'[i], w'[i + 1]) in r {
        if i < |w| - 1 { assert w'[i] == w[i] && w'[i + 1] == w[i + 1]; }
      }
    }
    assert w'[0] == a && w'[|w'| - 1] == c;
  }

  /** Every vertex of a walk that starts inside a closed set stays inside it. */
  lemma {:induction false} WalkStaysInClosed(r: set<Edge>, s: set<NodeId>, w: seq<NodeId>)
    requires IsWalk(r, w) && w[0] in s && Closed(r, s)
    ensures forall i :: 0 <= i < |w| ==> w[i] in s
  {
    if |w| > 1 {
      var v := w[..|w| - 1];
      assert IsWalk(r, v) by {
        forall i | 0 <= i < |v| - 1 ensures (v[i], v[i + 1]) in r {
          assert v[i] == w[i] && v[i + 1] == w[i + 1];
        }
      }
      WalkStaysInClosed(r, s, v);
      assert w[|w| - 2] == v[|v| - 1];
      assert (w[|w| - 2], w[|w| - 1]) in r;
      forall i | 0 <= i < |w| ensures w[i] in s {
        if i < |w| - 1 { assert w[i] == v[i]; }
      }
    }
  }

  /** A closed set that holds `a` holds everything reachable from `a`. */
  lemma ClosedHoldsReachable(r: set<Edge>, s: set<NodeId>, a: NodeId, b: NodeId)
    requires a in s && Closed(r, s) && Reachable(r, a, b)
    ensures b in s
  {
    var w :| IsWalk(r, w) && w[0] == a && w[|w| - 1] == b;
    WalkStaysInClosed(r, s, w);
  }

  /** Two walks meeting at `b` join into one. */
  lemma {:induction false} ReachableTrans(r: set<Edge>, a: NodeId, b: NodeId, c: NodeId)
    requires Reachable(r, a, b) && Reachable(r, b, c)
    ensures Reachable(r, a, c)
  {
    var w1 :| IsWalk(r, w1) && w1[0] == a && w1[|w1| - 1] == b;
    var w2 :| IsWalk(r, w2) && w2[0] == b && w2[|w2| - 1] == c;
    var w := w1 + w2[1..];
    assert IsWalk(r, w) by {
      forall i | 0 <= i < |w| - 1 ensures (w[i], w[i + 1]) in r {
        if i < |w1| - 1 {
          assert w[i] == w1[i] && w[i + 1] == w1[i + 1];
        } else {
          var j := i - |w1| + 1;
          assert w[i] == w2[j] && w[i + 1] == w2[j + 1];
        }
      }
    }
    assert w[|w| - 1] == c by {
      if |w2| == 1 { assert w == w1; } else { assert w[|w| - 1] == w2[|w2| - 1]; }
    }
  }

  /** Over a symmetric relation every walk can be run backwards. */
  lemma ReachableSym(r: set<Edge>, a: NodeId, b: NodeId)
    requires Symmetric(r) && Reachable(r, a, b)
    ensures Reachable(r, b, a)
  {
    var w :| IsWalk(r, w) && w[0] == a && w[|w| - 1] == b;
    var n := |w|;
    var v := seq(n, i requires 0 <= i < n => w[n - 1 - i]);
    assert IsWalk(r, v) by {
      forall i | 0 <= i < n - 1 ensures (v[i], v[i + 1]) in r {
        assert (w[n - 2 - i], w[n - 1 - i]) in r;
      }
    }
    assert v[0] == b && v[n - 1] == a;
  }
}
