/** Walks in a finite directed graph given by adjacency lists; an edge is named by its position in its list. */
module Graphs {

  type Graph<Node> = map<Node, seq<Node>>

  /** `w` is a list of edge positions that can be followed from `start`; only its last node may lie outside the
      graph. */
  predicate Walk<Node>(g: Graph<Node>, start: Node, w: seq<nat>)
    decreases |w|
  {
    w == [] || (start in g && w[0] < |g[start]| && Walk(g, g[start][w[0]], w[1..]))
  }

  function End<Node>(g: Graph<Node>, start: Node, w: seq<nat>): Node
    requires Walk(g, start, w)
    decreases |w|
  {
    if w == [] then start else End(g, g[start][w[0]], w[1..])
  }

  /** Some walk leads from `a` to `b`. */
  ghost predicate Reaches<Node(!new)>(g: Graph<Node>, a: Node, b: Node) {
    exists w :: Walk(g, a, w) && End(g, a, w) == b
  }

  lemma {:induction false} Join<Node>(g: Graph<Node>, start: Node, w: seq<nat>, v: seq<nat>)
    requires Walk(g, start, w) && Walk(g, End(g, start, w), v)
    ensures Walk(g, start, w + v) && End(g, start, w + v) == End(g, End(g, start, w), v)
    decreases |w|
  {
    if w == [] {
      assert w + v == v;
    } else {
      Join(g, g[start][w[0]], w[1..], v);
      assert (w + v)[1..] == w[1..] + v;
    }
  }

  /** One more edge at the end of a walk. */
  lemma Extend<Node>(g: Graph<Node>, start: Node, w: seq<nat>, i: nat)
    requires Walk(g, start, w) && End(g, start, w) in g && i < |g[End(g, start, w)]|
    ensures Walk(g, start, w + [i]) && End(g, start, w + [i]) == g[End(g, start, w)][i]
  {
    Join(g, start, w, [i]);
  }

  lemma ReachesTransitively<Node(!new)>(g: Graph<Node>, a: Node, b: Node, c: Node)
    requires Reaches(g, a, b) && Reaches(g, b, c)
    ensures Reaches(g, a, c)
  {
    var w :| Walk(g, a, w) && End(g, a, w) == b;
    var v :| Walk(g, b, v) && End(g, b, v) == c;
    Join(g, a, w, v);
  }

  lemma ReachesInOne<Node(!new)>(g: Graph<Node>, a: Node, i: nat)
    requires a in g && i < |g[a]|
    ensures Reaches(g, a, g[a][i])
  {
    Extend(g, a, [], i);
  }

  /** Some walk of at least one edge leads from `a` to `b`. */
  ghost predicate LeadsTo<Node(!new)>(g: Graph<Node>, a: Node, b: Node) {
    exists w :: w != [] && Walk(g, a, w) && End(g, a, w) == b
  }

  lemma LeadsInOne<Node(!new)>(g: Graph<Node>, a: Node, i: nat)
    requires a in g && i < |g[a]|
    ensures LeadsTo(g, a, g[a][i])
  {
    Extend(g, a, [], i);
    assert [] + [i] == [i] != [];
  }

  lemma LeadsTransitively<Node(!new)>(g: Graph<Node>, a: Node, b: Node, c: Node)
    requires LeadsTo(g, a, b) && LeadsTo(g, b, c)
    ensures LeadsTo(g, a, c)
  {
    var w :| w != [] && Walk(g, a, w) && End(g, a, w) == b;
    var v :| v != [] && Walk(g, b, v) && End(g, b, v) == c;
    Join(g, a, w, v);
    assert w + v != [];
  }

  /** `p` has an edge to `n`. */
  predicate Edge<Node(==)>(g: Graph<Node>, p: Node, n: Node) {
    p in g && n in g[p]
  }

  lemma EdgeLeads<Node(!new)>(g: Graph<Node>, p: Node, n: Node)
    requires Edge(g, p, n)
    ensures LeadsTo(g, p, n)
  {
    var i :| 0 <= i < |g[p]| && g[p][i] == n;
    LeadsInOne(g, p, i);
  }

  /** `n` has a predecessor in the region. */
  ghost predicate Entered<Node>(g: Graph<Node>, region: set<Node>, n: Node) {
    exists p :: p in region && Edge(g, p, n)
  }

  /** Stepping back for ever inside a finite set must close a cycle. */
  lemma {:induction false} WalkingBackClosesACycle<Node(!new)>(
      g: Graph<Node>, region: set<Node>, here: Node, trail: set<Node>)
    requires here in region && trail <= region && here !in trail
    requires forall n {:trigger Entered(g, region, n)} :: n in region ==> Entered(g, region, n)
    requires forall t :: t in trail ==> LeadsTo(g, here, t)
    ensures exists n :: n in region && LeadsTo(g, n, n)
    decreases region - trail
  {
    assert Entered(g, region, here);
    var p :| p in region && Edge(g, p, here);
    EdgeLeads(g, p, here);
    if p in trail {
      LeadsTransitively(g, p, here, p);
    } else if p != here {
      forall t | t in trail + {here} ensures LeadsTo(g, p, t) {
        if t != here { LeadsTransitively(g, p, here, t); }
      }
      WalkingBackClosesACycle(g, region, p, trail + {here});
    }
  }
}
