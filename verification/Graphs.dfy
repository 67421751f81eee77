/** Directed graphs of named nodes: walks, reachability and cycles. */
module Graphs {

  /** Successors of each node. */
  type Graph = map<string, seq<string>>

  predicate Edge(g: Graph, u: string, v: string) {
    u in g && v in g[u]
  }

  /** A walk of at least one edge. */
  predicate Walk(g: Graph, p: seq<string>) {
    |p| >= 2 && forall i :: 0 <= i < |p| - 1 ==> Edge(g, p[i], p[i + 1])
  }

  predicate WalkBetween(g: Graph, p: seq<string>, u: string, v: string) {
    Walk(g, p) && p[0] == u && p[|p| - 1] == v
  }

  ghost predicate Reaches(g: Graph, u: string, v: string) {
    exists p :: WalkBetween(g, p, u, v)
  }

  ghost predicate Cyclic(g: Graph) {
    exists x :: Reaches(g, x, x)
  }

  lemma EdgeReaches(g: Graph, u: string, v: string)
    requires Edge(g, u, v)
    ensures Reaches(g, u, v)
  {
    assert WalkBetween(g, [u, v], u, v);
  }

  lemma ReachesTransitive(g: Graph, u: string, v: string, w: string)
    requires Reaches(g, u, v) && Reaches(g, v, w)
    ensures Reaches(g, u, w)
  {
    var p :| WalkBetween(g, p, u, v);
    var q :| WalkBetween(g, q, v, w);
    var r := p + q[1..];
    forall i | 0 <= i < |r| - 1
      ensures Edge(g, r[i], r[i + 1])
    {
      if i < |p| - 1 {
        assert r[i] == p[i] && r[i + 1] == p[i + 1];
      } else {
        assert r[i] == q[i - |p| + 1] && r[i + 1] == q[i - |p| + 2];
      }
    }
    assert WalkBetween(g, r, u, w);
  }

  /** A set closed under successors is never left. */
  ghost predicate ClosedUnder(g: Graph, s: set<string>) {
    forall u, v :: u in s && Edge(g, u, v) ==> v in s
  }

  lemma {:induction false} WalkStays(g: Graph, s: set<string>, p: seq<string>, i: nat)
    requires ClosedUnder(g, s) && Walk(g, p) && p[0] in s && i < |p|
    ensures p[i] in s
  {
    if i > 0 {
      WalkStays(g, s, p, i - 1);
      assert Edge(g, p[i - 1], p[i - 1 + 1]);
    }
  }

  lemma ClosedReaches(g: Graph, s: set<string>, u: string, v: string)
    requires ClosedUnder(g, s) && u in s && Reaches(g, u, v)
    ensures v in s
  {
    var p :| WalkBetween(g, p, u, v);
    WalkStays(g, s, p, |p| - 1);
  }

  /** Every walk starts with an edge and goes on from its end. */
  lemma FirstStep(g: Graph, u: string, w: string) returns (v: string)
    requires Reaches(g, u, w)
    ensures Edge(g, u, v) && (v == w || Reaches(g, v, w))
  {
    var p :| WalkBetween(g, p, u, w);
    v := p[1];
    assert Edge(g, p[0], p[0 + 1]);
    if |p| > 2 {
      var q := p[1..];
      forall i | 0 <= i < |q| - 1
        ensures Edge(g, q[i], q[i + 1])
      {
        assert Edge(g, p[i + 1], p[i + 1 + 1]);
      }
      assert WalkBetween(g, q, v, w);
    }
  }

  // ---------- graph morphisms ----------

  /** `f` sends every edge of `g` to an edge of `h`. */
  ghost predicate Morphism(g: Graph, h: Graph, f: string -> string) {
    forall u, v :: Edge(g, u, v) ==> Edge(h, f(u), f(v))
  }

  lemma MorphismReaches(g: Graph, h: Graph, f: string -> string, u: string, v: string)
    requires Morphism(g, h, f) && Reaches(g, u, v)
    ensures Reaches(h, f(u), f(v))
  {
    var p :| WalkBetween(g, p, u, v);
    var q := seq(|p|, i requires 0 <= i < |p| => f(p[i]));
    forall i | 0 <= i < |q| - 1
      ensures Edge(h, q[i], q[i + 1])
    {
      assert Edge(g, p[i], p[i + 1]);
    }
    assert WalkBetween(h, q, f(u), f(v));
  }
}
