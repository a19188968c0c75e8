/**
  Dominance frontiers: what the runner loops compute on a finished dominator
  tree, when they stop, and when the result is the textbook frontier.
 */
module Frontier {
  import opened Cfg
  import opened IdomTree

  datatype Pointer = Null | To(block: Block)

  /** `get_idom`: a block that was never reached has a null pointer. */
  function GetIdom(up: map<Block, Block>, b: Block): Pointer {
    if b in up then To(up[b]) else Null
  }

  /** Every predecessor of a reachable join is reachable. */
  ghost predicate RunnersStop(g: Graph)
    requires g.Valid()
  {
    forall y, p :: g.Edge(p, y) && |g.pred[y]| >= 2 && Reachable(g, y) ==> Reachable(g, p)
  }

  /** The runner that starts at `p` passes `x` before it arrives at idom(y). */
  ghost predicate Passes(t: Tree, p: Block, y: Block, x: Block)
    requires t.Ok()
  {
    if p in t.up && y in t.up then
      t.NodeOk(y) && t.Anc(p, x) && !t.Anc(t.up[y], x)
    else
      x == p
  }

  /** `y` ends up in the computed frontier of `x`. */
  ghost predicate Climbs(g: Graph, t: Tree, x: Block, y: Block)
    requires t.Ok()
  {
    y in g.pred && |g.pred[y]| >= 2 && exists p :: p in g.pred[y] && Passes(t, p, y, x)
  }

  /** The dominance frontier: `x` dominates a predecessor of `y` but not strictly `y`. */
  ghost predicate InFrontier(g: Graph, x: Block, y: Block)
    requires g.Valid()
  {
    exists p :: g.Edge(p, y) && Reachable(g, p) && Dom(g, x, p) && !SDom(g, x, y)
  }

  // ----- the dominator tree, in terms of dominance -----

  /** On a finished tree, idom(b) is the immediate dominator of `b`. */
  lemma IdomIsImmediate(g: Graph, t: Tree, par: map<Block, Block>, b: Block)
    requires Complete(g, t, par) && Reachable(g, b) && b != g.Entry()
    ensures b in t.up && SDom(g, t.up[b], b)
    ensures forall d :: SDom(g, d, b) ==> Dom(g, d, t.up[b])
  {
    assert t.NodeOk(b);
    assert t.Anc(b, t.up[b]);
    forall d | SDom(g, d, b)
      ensures Dom(g, d, t.up[b])
    {
      assert t.Anc(b, d);
    }
  }

  lemma StrictAncestor(g: Graph, t: Tree, par: map<Block, Block>, b: Block, a: Block)
    requires Complete(g, t, par) && b in t.up && b != t.root
    ensures t.NodeOk(b) && (t.Anc(t.up[b], a) <==> SDom(g, a, b))
  {
    assert t.NodeOk(b);
    if t.Anc(t.up[b], a) {
      AncId(t, t.up[b], a);
      assert t.Anc(b, a);
    }
    if SDom(g, a, b) {
      assert t.Anc(b, a);
    }
  }

  /** idom(y) dominates every reachable predecessor of `y`. */
  lemma IdomAbovePred(g: Graph, t: Tree, par: map<Block, Block>, p: Block, y: Block)
    requires Complete(g, t, par) && g.Edge(p, y) && p in t.up && y in t.up
    ensures t.NodeOk(y) && t.Anc(p, t.up[y])
  {
    assert t.NodeOk(y);
    if y == t.root {
      AncRoot(t, p);
    } else {
      StrictAncestor(g, t, par, y, t.up[y]);
      DomPred(g, t.up[y], p, y);
    }
  }

  /** A block with one predecessor has it as its immediate dominator. */
  lemma SinglePred(g: Graph, t: Tree, par: map<Block, Block>, p: Block, y: Block)
    requires Complete(g, t, par) && y in t.up && y != t.root && g.Edge(p, y)
    requires g.pred[y] == [p] && p in t.up
    ensures t.NodeOk(y) && p == t.up[y]
  {
    IdomAbovePred(g, t, par, p, y);
    forall q | Path(g, g.Entry(), q, y)
      ensures p in q
    {
      assert |q| > 1;
      assert g.Edge(q[|q| - 2], q[|q| - 1]);
      assert q[|q| - 2] in g.pred[y];
    }
    if p != y {
      StrictAncestor(g, t, par, y, p);
      AncId(t, p, t.up[y]);
      AncId(t, t.up[y], p);
    } else {
      assert Reachable(g, y);
      var q :| Path(g, g.Entry(), q, y);
      NoSelfDiscovery(g, q, y);
    }
  }

  /** A block other than the entry cannot have itself as its only predecessor and be reachable. */
  lemma {:induction false} NoSelfDiscovery(g: Graph, q: seq<Block>, y: Block)
    requires g.Valid() && y in g.pred && g.pred[y] == [y] && y != g.Entry()
    ensures !Path(g, g.Entry(), q, y)
    decreases |q|
  {
    if Path(g, g.Entry(), q, y) {
      assert |q| > 1;
      assert g.Edge(q[|q| - 2], q[|q| - 1]);
      PathPrefix(g, g.Entry(), q, y, |q| - 2);
      NoSelfDiscovery(g, q[..|q| - 2 + 1], y);
    }
  }

  // ----- when the loops stop -----

  /** The runner after `n` steps; a null pointer stays null. */
  ghost function Runner(up: map<Block, Block>, p: Block, n: nat): Pointer {
    if n == 0 then To(p) else
      match Runner(up, p, n - 1)
      case Null => Null
      case To(r) => GetIdom(up, r)
  }

  lemma {:induction false} RunnerOutside(up: map<Block, Block>, p: Block, n: nat)
    requires p !in up
    ensures Runner(up, p, n) == if n == 0 then To(p) else Null
  {
    if n > 0 {
      RunnerOutside(up, p, n - 1);
    }
  }

  lemma {:induction false} RunnerArrives(t: Tree, p: Block, a: Block) returns (n: nat)
    requires t.Ok() && p in t.up && t.Anc(p, a)
    ensures Runner(t.up, p, n) == To(a)
    decreases t.id[t.root] - t.id[p]
  {
    if p == a {
      n := 0;
    } else {
      n := RunnerArrives(t, t.up[p], a);
      RunnerShift(t.up, p, n);
      n := n + 1;
    }
  }

  lemma {:induction false} RunnerShift(up: map<Block, Block>, p: Block, n: nat)
    requires p in up
    ensures Runner(up, p, n + 1) == Runner(up, up[p], n)
  {
    if n > 0 {
      RunnerShift(up, p, n - 1);
    }
  }

  /** The runner loop for the edge from `p` to `y` terminates exactly when `p` is
      reachable or `y` is not. */
  lemma RunnerStopsIff(g: Graph, t: Tree, par: map<Block, Block>, p: Block, y: Block)
    requires Complete(g, t, par) && g.Edge(p, y)
    ensures (exists n :: Runner(t.up, p, n) == GetIdom(t.up, y)) <==> (Reachable(g, p) || !Reachable(g, y))
  {
    if p in t.up {
      ReachableStep(g, p, y);
      IdomAbovePred(g, t, par, p, y);
      var n := RunnerArrives(t, p, t.up[y]);
      assert Runner(t.up, p, n) == GetIdom(t.up, y);
    } else if y in t.up {
      assert t.NodeOk(y);
      forall n
        ensures Runner(t.up, p, n) != GetIdom(t.up, y)
      {
        RunnerOutside(t.up, p, n);
      }
    } else {
      RunnerOutside(t.up, p, 1);
      assert Runner(t.up, p, 1) == GetIdom(t.up, y);
    }
  }

  // ----- when the result is exact -----

  lemma ClimbsIsFrontier(g: Graph, t: Tree, par: map<Block, Block>, x: Block, y: Block)
    requires Complete(g, t, par) && LivePreds(g) && Reachable(g, y) && y != g.Entry()
    ensures Climbs(g, t, x, y) <==> InFrontier(g, x, y)
  {
    StrictAncestor(g, t, par, y, x);
    if Climbs(g, t, x, y) {
      var p :| p in g.pred[y] && Passes(t, p, y, x);
      assert g.Edge(p, y) && Reachable(g, p);
    }
    if InFrontier(g, x, y) {
      var p: Block :| g.Edge(p, y) && Reachable(g, p) && Dom(g, x, p) && !SDom(g, x, y);
      assert Passes(t, p, y, x);
      if |g.pred[y]| == 1 {
        assert g.pred[y] == [p];
        SinglePred(g, t, par, p, y);
        assert false;
      }
    }
  }

  /** With live predecessors, the computed frontiers are the dominance frontiers of all
      reachable blocks exactly when no edge leads into the entry. */
  lemma FrontierExactIff(g: Graph, t: Tree, par: map<Block, Block>)
    requires Complete(g, t, par) && LivePreds(g)
    ensures (forall x, y :: Reachable(g, x) && Reachable(g, y) ==> (Climbs(g, t, x, y) <==> InFrontier(g, x, y)))
            <==> NoEntryPred(g)
  {
    var e := g.Entry();
    EntryReachable(g);
    if NoEntryPred(g) {
      forall x, y | Reachable(g, x) && Reachable(g, y)
        ensures Climbs(g, t, x, y) <==> InFrontier(g, x, y)
      {
        if y != e {
          ClimbsIsFrontier(g, t, par, x, y);
        }
      }
    } else {
      var p := g.pred[e][0];
      assert p in g.pred[e] && g.Edge(p, e) && Reachable(g, p);
      assert Dom(g, e, p) by {
        AncRoot(t, p);
      }
      assert InFrontier(g, e, e);
      assert !Climbs(g, t, e, e);
    }
  }
}
