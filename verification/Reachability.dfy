/** The recursive queries of the store are least fixed points over its edge table.
    Reachable is that fixed point, defined as the intersection of all closed sets;
    Explore is the row-at-a-time evaluation a recursive query performs. */
module Reachability {

  type Node = string
  type Edge = (Node, Node)

  ghost predicate Closed(edges: set<Edge>, nodes: set<Node>) {
    forall e :: e in edges && e.0 in nodes ==> e.1 in nodes
  }

  /** x belongs to every closed set that contains the starting nodes. */
  ghost predicate Reaches(edges: set<Edge>, from: set<Node>, x: Node) {
    forall nodes :: Closed(edges, nodes) && from <= nodes ==> x in nodes
  }

  function Targets(edges: set<Edge>): set<Node> {
    set e | e in edges :: e.1
  }

  ghost function Reachable(edges: set<Edge>, from: set<Node>): set<Node> {
    set x | x in from + Targets(edges) && Reaches(edges, from, x)
  }

  function Reverse(edges: set<Edge>): set<Edge> {
    set e | e in edges :: (e.1, e.0)
  }

  function Undirected(edges: set<Edge>): set<Edge> {
    edges + Reverse(edges)
  }

  /** Reachable really is a fixed point: it contains the start and is closed. */
  lemma ReachableIsClosed(edges: set<Edge>, from: set<Node>)
    ensures from <= Reachable(edges, from)
    ensures Closed(edges, Reachable(edges, from))
  {
    var r := Reachable(edges, from);
    forall e | e in edges && e.0 in r
      ensures e.1 in r
    {
      assert e.1 in Targets(edges);
      forall nodes | Closed(edges, nodes) && from <= nodes
        ensures e.1 in nodes
      {
        assert e.0 in nodes;
      }
    }
  }

  /** ... and the least one: every closed set above the start contains it. */
  lemma ReachableIsLeast(edges: set<Edge>, from: set<Node>, nodes: set<Node>)
    requires Closed(edges, nodes) && from <= nodes
    ensures Reachable(edges, from) <= nodes
  {
  }

  lemma ReachableMonotone(edges: set<Edge>, more: set<Edge>, from: set<Node>, wider: set<Node>)
    requires edges <= more && from <= wider
    ensures Reachable(edges, from) <= Reachable(more, wider)
  {
    ReachableIsClosed(more, wider);
    ReachableIsLeast(edges, from, Reachable(more, wider));
  }

  lemma ReachableTransitive(edges: set<Edge>, from: set<Node>, x: Node)
    requires x in Reachable(edges, from)
    ensures Reachable(edges, {x}) <= Reachable(edges, from)
  {
    ReachableIsClosed(edges, from);
    ReachableIsLeast(edges, {x}, Reachable(edges, from));
  }

  /** Two edge sets that agree on everything leaving the reachable set of one
      reach the same nodes. */
  lemma ReachableDependsOnReachedEdges(edges: set<Edge>, other: set<Edge>, from: set<Node>)
    requires forall e: Edge :: e.0 in Reachable(edges, from) ==> (e in edges <==> e in other)
    ensures Reachable(edges, from) == Reachable(other, from)
  {
    var r, q := Reachable(edges, from), Reachable(other, from);
    ReachableIsClosed(edges, from);
    ReachableIsClosed(other, from);
    assert Closed(other, r);
    ReachableIsLeast(other, from, r);
    assert Closed(edges, r * q);
    ReachableIsLeast(edges, from, r * q);
  }

  /** Reaching along an edge set is the same as being reached along its reverse. */
  lemma ReverseReach(edges: set<Edge>, a: Node, b: Node)
    requires b in Reachable(edges, {a})
    ensures a in Reachable(Reverse(edges), {b})
  {
    var back := Reachable(Reverse(edges), {b});
    ReachableIsClosed(Reverse(edges), {b});
    if a !in back {
      var rest := (({a} + Targets(edges)) - back);
      forall e | e in edges && e.0 in rest
        ensures e.1 in rest
      {
        assert (e.1, e.0) in Reverse(edges);
      }
      ReachableIsLeast(edges, {a}, rest);
      assert false;
    }
  }

  /** Whatever a set reaches backwards reaches forwards into that set. */
  lemma ReverseReachSet(edges: set<Edge>, from: set<Node>, x: Node)
    requires x in Reachable(Reverse(edges), from)
    ensures exists y :: y in from && y in Reachable(edges, {x})
  {
    var ahead := Reachable(edges, {x});
    ReachableIsClosed(edges, {x});
    if from * ahead == {} {
      var rest := (from + Targets(Reverse(edges))) - ahead;
      forall e | e in Reverse(edges) && e.0 in rest
        ensures e.1 in rest
      {
        assert (e.1, e.0) in edges;
      }
      assert forall y :: y in from ==> y !in from * ahead;
      assert from <= rest;
      ReachableIsLeast(Reverse(edges), from, rest);
      assert false;
    }
    var y :| y in from * ahead;
  }

  lemma ReverseOfReverse(edges: set<Edge>)
    ensures Reverse(Reverse(edges)) == edges
  {
    forall e | e in edges
      ensures e in Reverse(Reverse(edges))
    {
      assert (e.1, e.0) in Reverse(edges);
    }
  }

  lemma UndirectedIsSymmetric(edges: set<Edge>)
    ensures Reverse(Undirected(edges)) == Undirected(edges)
  {
    ReverseOfReverse(edges);
    forall e | e in Undirected(edges)
      ensures (e.1, e.0) in Undirected(edges)
    {
      if e in edges {
        assert (e.1, e.0) in Reverse(edges);
      } else {
        assert (e.1, e.0) in Reverse(Reverse(edges));
      }
    }
    forall e | e in Undirected(edges)
      ensures e in Reverse(Undirected(edges))
    {
      assert (e.1, e.0) in Undirected(edges);
    }
  }

  /** Undirected connection is an equivalence: members share one component. */
  lemma SameComponent(edges: set<Edge>, a: Node, b: Node)
    requires b in Reachable(Undirected(edges), {a})
    ensures a in Reachable(Undirected(edges), {b})
    ensures Reachable(Undirected(edges), {b}) == Reachable(Undirected(edges), {a})
  {
    var u := Undirected(edges);
    UndirectedIsSymmetric(edges);
    ReverseReach(u, a, b);
    ReachableTransitive(u, {a}, b);
    ReachableTransitive(u, {b}, a);
  }

  /** Evaluates the least fixed point one dequeued row at a time, discarding rows
      already produced, exactly as a recursive UNION query does. */
  method Explore(edges: set<Edge>, from: set<Node>) returns (seen: set<Node>)
    ensures seen == Reachable(edges, from)
  {
    ghost var goal := Reachable(edges, from);
    ReachableIsClosed(edges, from);
    seen := from;
    var frontier := from;
    while frontier != {}
      invariant from <= seen <= goal && frontier <= seen
      invariant forall e :: e in edges && e.0 in seen - frontier ==> e.1 in seen
      decreases |goal - seen|, |frontier|
    {
      var a :| a in frontier;
      var found := set e | e in edges && e.0 == a && e.1 !in seen :: e.1;
      ghost var before := goal - seen;
      frontier := (frontier - {a}) + found;
      seen := seen + found;
      if found == {} {
        assert goal - seen == before;
      } else {
        var x :| x in found;
        assert goal - seen < before by {
          assert x in before && x !in goal - seen;
        }
        SubsetSmaller(goal - seen, before);
      }
    }
    assert Closed(edges, seen);
    ReachableIsLeast(edges, from, seen);
  }

  lemma SubsetSmaller(a: set<Node>, b: set<Node>)
    requires a < b
    ensures |a| < |b|
  {
    var x :| x in b && x !in a;
    assert a <= b - {x};
    SubsetNoLarger(a, b - {x});
  }

  lemma {:induction false} SubsetNoLarger(a: set<Node>, b: set<Node>)
    requires a <= b
    ensures |a| <= |b|
  {
    if a != {} {
      var x :| x in a;
      SubsetNoLarger(a - {x}, b - {x});
    }
  }
}
