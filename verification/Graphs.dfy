/** Finite directed graphs given by ordered reference lists.

    The release closure, the workflow dependencies and the delegation tree are
    all graphs of this kind; what the walks over them decide is stated here
    independently of any walk. */
module Graphs {

  type Id = string
  type Graph = map<Id, seq<Id>>

  ghost predicate Edge(g: Graph, a: Id, b: Id) {
    a in g && b in g[a]
  }

  ghost predicate IsPath(g: Graph, p: seq<Id>) {
    |p| > 0 && forall i :: 0 <= i < |p| - 1 ==> Edge(g, p[i], p[i + 1])
  }

  ghost predicate PathFrom(g: Graph, a: Id, p: seq<Id>) {
    IsPath(g, p) && p[0] == a
  }

  ghost predicate Reach(g: Graph, a: Id, b: Id) {
    exists p :: PathFrom(g, a, p) && p[|p| - 1] == b
  }

  ghost predicate IsCycle(g: Graph, p: seq<Id>) {
    IsPath(g, p) && |p| >= 2 && p[0] == p[|p| - 1]
  }

  ghost predicate Acyclic(g: Graph) {
    forall p :: !IsCycle(g, p)
  }

  /** No cycle can be entered from `a`. */
  ghost predicate AcyclicFrom(g: Graph, a: Id) {
    forall p :: IsCycle(g, p) ==> !Reach(g, a, p[0])
  }

  // ----- paths

  lemma PathExtend(g: Graph, p: seq<Id>, b: Id)
    requires IsPath(g, p) && Edge(g, p[|p| - 1], b)
    ensures IsPath(g, p + [b])
  {
    var q := p + [b];
    forall i | 0 <= i < |q| - 1 ensures Edge(g, q[i], q[i + 1]) {
      if i == |p| - 1 {
        assert q[i] == p[|p| - 1] && q[i + 1] == b;
      } else {
        assert q[i] == p[i] && q[i + 1] == p[i + 1];
      }
    }
  }

  lemma PathPrepend(g: Graph, a: Id, p: seq<Id>)
    requires IsPath(g, p) && Edge(g, a, p[0])
    ensures IsPath(g, [a] + p)
  {
    var q := [a] + p;
    forall i | 0 <= i < |q| - 1 ensures Edge(g, q[i], q[i + 1]) {
      if i > 0 {
        assert q[i] == p[i - 1] && q[i + 1] == p[i];
      }
    }
  }

  lemma PathSlice(g: Graph, p: seq<Id>, i: nat, j: nat)
    requires IsPath(g, p) && i < j <= |p|
    ensures IsPath(g, p[i..j])
  {
    var q := p[i..j];
    forall k | 0 <= k < |q| - 1 ensures Edge(g, q[k], q[k + 1]) {
      assert q[k] == p[i + k] && q[k + 1] == p[i + k + 1];
    }
  }

  lemma ReachSelf(g: Graph, a: Id)
    ensures Reach(g, a, a)
  {
    assert PathFrom(g, a, [a]);
  }

  lemma ReachStep(g: Graph, a: Id, b: Id, c: Id)
    requires Edge(g, a, b) && Reach(g, b, c)
    ensures Reach(g, a, c)
  {
    var p :| PathFrom(g, b, p) && p[|p| - 1] == c;
    PathPrepend(g, a, p);
    assert PathFrom(g, a, [a] + p);
  }

  /** A path that visits one node twice contains a cycle through that node. */
  lemma RepeatIsCycle(g: Graph, p: seq<Id>, i: nat, j: nat)
    requires IsPath(g, p) && i < j < |p| && p[i] == p[j]
    ensures IsCycle(g, p[i..j + 1]) && p[i..j + 1][0] == p[i]
  {
    PathSlice(g, p, i, j + 1);
  }

  // ----- orders

  ghost predicate Distinct(s: seq<Id>) {
    forall i, j :: 0 <= i < j < |s| ==> s[i] != s[j]
  }

  /** Every reference of an element occurs strictly earlier. */
  ghost predicate Topo(g: Graph, order: seq<Id>) {
    && Distinct(order)
    && (forall i :: 0 <= i < |order| ==> order[i] in g)
    && (forall i, b :: 0 <= i < |order| && b in g[order[i]] ==> b in order[..i])
  }

  lemma TopoSnoc(g: Graph, order: seq<Id>, v: Id)
    requires Topo(g, order) && v in g && v !in order
    requires forall b :: b in g[v] ==> b in order
    ensures Topo(g, order + [v])
  {
    var o := order + [v];
    forall i, b | 0 <= i < |o| && b in g[o[i]] ensures b in o[..i] {
      if i < |order| {
        assert o[i] == order[i] && o[..i] == order[..i];
      } else {
        assert o[..i] == order;
      }
    }
  }

  /** Along a path the position in a topological order falls at every edge. */
  lemma {:induction false} TopoDescends(g: Graph, order: seq<Id>, p: seq<Id>, i: nat) returns (j: nat)
    requires Topo(g, order) && IsPath(g, p) && i < |order| && p[0] == order[i]
    ensures j < |order| && order[j] == p[|p| - 1] && j + |p| - 1 <= i
    decreases |p|
  {
    if |p| == 1 {
      j := i;
    } else {
      assert Edge(g, p[0], p[1]);
      var k :| 0 <= k < i && order[..i][k] == p[1];
      PathSlice(g, p, 1, |p|);
      j := TopoDescends(g, order, p[1..], k);
    }
  }

  lemma TopoNoCycle(g: Graph, order: seq<Id>, p: seq<Id>)
    requires Topo(g, order) && IsCycle(g, p)
    ensures p[0] !in order
  {
    if p[0] in order {
      var i :| 0 <= i < |order| && order[i] == p[0];
      var j := TopoDescends(g, order, p, i);
      assert false;
    }
  }

  lemma TopoAcyclic(g: Graph, order: seq<Id>)
    requires Topo(g, order) && forall v :: v in g ==> v in order
    ensures Acyclic(g)
  {
    forall p ensures !IsCycle(g, p) {
      if IsCycle(g, p) {
        assert Edge(g, p[0], p[1]);
        TopoNoCycle(g, order, p);
      }
    }
  }

  /** Whatever is reachable from a topologically ordered node is in the order. */
  lemma TopoReach(g: Graph, order: seq<Id>, a: Id, b: Id)
    requires Topo(g, order) && a in order && Reach(g, a, b)
    ensures b in order
  {
    var p :| PathFrom(g, a, p) && p[|p| - 1] == b;
    var i :| 0 <= i < |order| && order[i] == a;
    var j := TopoDescends(g, order, p, i);
  }

  // ----- finite sets without a sink contain a cycle

  lemma {:induction false} Pigeonhole(p: seq<Id>, s: set<Id>) returns (i: nat, j: nat)
    requires forall k :: 0 <= k < |p| ==> p[k] in s
    requires |p| > |s|
    ensures i < j < |p| && p[i] == p[j]
    decreases |s|
  {
    var last := p[|p| - 1];
    if k :| 0 <= k < |p| - 1 && p[k] == last {
      i, j := k, |p| - 1;
    } else {
      i, j := Pigeonhole(p[..|p| - 1], s - {last});
    }
  }

  ghost predicate StaysIn(g: Graph, s: set<Id>, a: Id) {
    exists b :: Edge(g, a, b) && b in s
  }

  ghost predicate SinkFree(g: Graph, s: set<Id>) {
    forall a :: a in s ==> StaysIn(g, s, a)
  }

  lemma {:induction false} LongPath(g: Graph, s: set<Id>, a: Id, n: nat) returns (p: seq<Id>)
    requires SinkFree(g, s) && a in s
    ensures PathFrom(g, a, p) && |p| == n + 1
    ensures forall k :: 0 <= k < |p| ==> p[k] in s
    decreases n
  {
    if n == 0 {
      p := [a];
    } else {
      assert StaysIn(g, s, a);
      var b :| Edge(g, a, b) && b in s;
      var q := LongPath(g, s, b, n - 1);
      PathPrepend(g, a, q);
      p := [a] + q;
    }
  }

  lemma SinkFreeHasCycle(g: Graph, s: set<Id>)
    requires SinkFree(g, s) && s != {}
    ensures !Acyclic(g)
  {
    var a :| a in s;
    var p := LongPath(g, s, a, |s|);
    var i, j := Pigeonhole(p, s);
    RepeatIsCycle(g, p, i, j);
  }

  ghost predicate ClosedGraph(g: Graph) {
    forall a, b :: a in g && b in g[a] ==> b in g
  }

  /** Every finite graph without a cycle has a topological order. */
  lemma TopoOrder(g: Graph) returns (order: seq<Id>)
    requires Acyclic(g) && ClosedGraph(g)
    ensures Topo(g, order) && Elems(order) == g.Keys
  {
    order := TopoComplete(g, []);
  }

  lemma {:induction false} TopoComplete(g: Graph, before: seq<Id>) returns (order: seq<Id>)
    requires Acyclic(g) && ClosedGraph(g) && Topo(g, before)
    ensures Topo(g, order) && Elems(order) == g.Keys
    decreases |g.Keys - Elems(before)|
  {
    var left := g.Keys - Elems(before);
    if left == {} {
      order := before;
      assert Elems(before) <= g.Keys;
    } else {
      if SinkFree(g, left) {
        SinkFreeHasCycle(g, left);
        assert false;
      }
      var a :| a in left && !StaysIn(g, left, a);
      forall b | b in g[a] ensures b in before {
        assert Edge(g, a, b);
      }
      TopoSnoc(g, before, a);
      assert Elems(before + [a]) == Elems(before) + {a};
      assert g.Keys - Elems(before + [a]) == left - {a};
      order := TopoComplete(g, before + [a]);
    }
  }

  // ----- sizes

  function Elems(s: seq<Id>): (r: set<Id>) {
    set x | x in s
  }

  lemma SubsetSize<T>(a: set<T>, b: set<T>)
    requires a <= b
    ensures |a| <= |b|
    ensures |a| == |b| ==> a == b
  {
    assert b == a + (b - a);
  }

  lemma {:induction false} DistinctSize(s: seq<Id>)
    ensures |Elems(s)| <= |s|
    ensures |Elems(s)| == |s| <==> Distinct(s)
  {
    if s != [] {
      var t, x := s[..|s| - 1], s[|s| - 1];
      DistinctSize(t);
      assert s == t + [x];
      assert Elems(s) == Elems(t) + {x};
      assert x in Elems(t) <==> exists i :: 0 <= i < |t| && t[i] == x;
    }
  }
}
