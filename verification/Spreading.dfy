/**
  Spreading a mark backwards along edges with a work list, which is how both the purity
  analysis and the marking of live instructions work.
 */
module Spreading {

  type Edges = set<(nat, nat)>

  ghost predicate Chain(edges: Edges, c: seq<nat>) {
    c != [] && forall k {:trigger Link(edges, c, k)} :: 0 <= k < |c| - 1 ==> Link(edges, c, k)
  }

  ghost predicate Link(edges: Edges, c: seq<nat>, k: nat)
    requires k + 1 < |c|
  {
    (c[k], c[k + 1]) in edges
  }

  /** Some chain of edges leads from `f` to a root. */
  ghost predicate Reaches(edges: Edges, roots: set<nat>, f: nat) {
    exists c :: Chain(edges, c) && c[0] == f && c[|c| - 1] in roots
  }

  lemma ReachesNow(edges: Edges, roots: set<nat>, f: nat)
    requires f in roots
    ensures Reaches(edges, roots, f)
  {
    assert Chain(edges, [f]);
  }

  lemma ReachesByEdge(edges: Edges, roots: set<nat>, g: nat, f: nat)
    requires (g, f) in edges && Reaches(edges, roots, f)
    ensures Reaches(edges, roots, g)
  {
    var c :| Chain(edges, c) && c[0] == f && c[|c| - 1] in roots;
    var d := [g] + c;
    forall k | 0 <= k < |d| - 1
      ensures Link(edges, d, k)
    {
      if k > 0 {
        assert Link(edges, c, k - 1);
      }
    }
    assert Chain(edges, d);
  }

  ghost predicate Closed(edges: Edges, roots: set<nat>, q: set<nat>) {
    roots <= q && forall g, f {:trigger (g, f) in edges} :: (g, f) in edges && f in q ==> g in q
  }

  /** What reaches a root is in every closed set that contains the roots: it is the least such set. */
  lemma {:induction false} InEveryClosed(edges: Edges, roots: set<nat>, q: set<nat>, c: seq<nat>)
    requires Closed(edges, roots, q) && Chain(edges, c) && c[|c| - 1] in roots
    ensures c[0] in q
    decreases |c|
  {
    if |c| > 1 {
      assert Link(edges, c, 0);
      forall k | 0 <= k < |c[1..]| - 1
        ensures Link(edges, c[1..], k)
      {
        assert Link(edges, c, k + 1);
      }
      InEveryClosed(edges, roots, q, c[1..]);
    }
  }

  /** The marks while `waiting` still has to be processed: no mark is undeserved, and the mark of
      a node that is not waiting has spread to everything with an edge to it. */
  ghost predicate Inv(edges: Edges, roots: set<nat>, reached: set<nat>, waiting: seq<nat>) {
    && roots <= reached
    && (forall f {:trigger Reaches(edges, roots, f)} :: f in reached ==> Reaches(edges, roots, f))
    && (forall f {:trigger f in waiting} :: f in waiting ==> f in reached)
    && (forall g, f {:trigger (g, f) in edges} :: (g, f) in edges && f in reached && f !in waiting ==> g in reached)
  }

  lemma Start(edges: Edges, roots: set<nat>, waiting: seq<nat>)
    requires forall f :: f in waiting <==> f in roots
    ensures Inv(edges, roots, roots, waiting)
  {
    forall f | f in roots
      ensures Reaches(edges, roots, f)
    {
      ReachesNow(edges, roots, f);
    }
  }

  lemma Add(edges: Edges, roots: set<nat>, reached: set<nat>, waiting: seq<nat>, g: nat, now: nat)
    requires Inv(edges, roots, reached, waiting) && now in waiting && (g, now) in edges
    ensures Inv(edges, roots, reached + {g}, waiting + [g])
  {
    assert now in reached;
    ReachesByEdge(edges, roots, g, now);
  }

  lemma Finish(edges: Edges, roots: set<nat>, reached: set<nat>, waiting: seq<nat>, now: nat)
    requires Inv(edges, roots, reached, [now] + waiting)
    requires forall g {:trigger (g, now) in edges} :: (g, now) in edges ==> g in reached
    ensures Inv(edges, roots, reached, waiting)
  {
    forall f | f in waiting
      ensures f in reached
    {
      assert f in [now] + waiting;
    }
    forall g, f | (g, f) in edges && f in reached && f !in waiting
      ensures g in reached
    {
      assert f != now ==> f !in [now] + waiting;
    }
  }

  /** When nothing waits any more, the marked nodes are exactly those that reach a root. */
  lemma Exact(edges: Edges, roots: set<nat>, reached: set<nat>, f: nat)
    requires Inv(edges, roots, reached, [])
    ensures f in reached <==> Reaches(edges, roots, f)
  {
    if Reaches(edges, roots, f) {
      var c :| Chain(edges, c) && c[0] == f && c[|c| - 1] in roots;
      InEveryClosed(edges, roots, reached, c);
    }
  }
}
