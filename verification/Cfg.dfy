/**
  Control-flow graphs as the basic blocks of a function record them, and what
  the optimisers mean by reachability and dominance.
 */
module Cfg {

  type Block = nat

  /** The basic blocks of one function in list order, each with the predecessor
      and successor lists that the branch constructors fill in. */
  datatype Graph = Graph(blocks: seq<Block>, pred: map<Block, seq<Block>>, succ: map<Block, seq<Block>>) {

    ghost predicate Valid() {
      && |blocks| > 0
      && pred.Keys == succ.Keys
      && (forall b {:trigger b in blocks} :: b in blocks <==> b in pred)
      && Entry() in pred
      && (forall a, b {:trigger Edge(a, b)} :: Edge(a, b) ==> b in pred && a in pred[b])
      && (forall a, b {:trigger a in pred[b]} :: b in pred && a in pred[b] ==> Edge(a, b))
    }

    function Entry(): Block
      requires |blocks| > 0
    {
      blocks[0]
    }

    ghost predicate Edge(a: Block, b: Block) {
      a in succ && b in succ[a]
    }
  }

  /** `p` walks along edges of `g`, from its first block to its last. */
  ghost predicate Path(g: Graph, a: Block, p: seq<Block>, b: Block) {
    && p != []
    && p[0] == a
    && p[|p| - 1] == b
    && forall i, j :: 0 <= i && j == i + 1 && j < |p| ==> g.Edge(p[i], p[j])
  }

  ghost predicate Reachable(g: Graph, b: Block)
    requires g.Valid()
  {
    exists p :: Path(g, g.Entry(), p, b)
  }

  /** Every path from the entry to `b` goes through `a`. */
  ghost predicate Dom(g: Graph, a: Block, b: Block)
    requires g.Valid()
  {
    forall p :: Path(g, g.Entry(), p, b) ==> a in p
  }

  ghost predicate SDom(g: Graph, a: Block, b: Block)
    requires g.Valid()
  {
    a != b && Dom(g, a, b)
  }

  ghost predicate NoEntryPred(g: Graph)
    requires g.Valid()
  {
    g.pred[g.Entry()] == []
  }

  /** No edge leads from an unreachable block into a reachable one. */
  ghost predicate LivePreds(g: Graph)
    requires g.Valid()
  {
    forall b, p :: b in g.pred && p in g.pred[b] && Reachable(g, b) ==> Reachable(g, p)
  }

  lemma PathConcat(g: Graph, a: Block, p: seq<Block>, b: Block, q: seq<Block>, c: Block)
    requires Path(g, a, p, b) && Path(g, b, q, c)
    ensures Path(g, a, p + q[1..], c)
    ensures forall x :: x in p + q[1..] <==> x in p || x in q
  {
    var r := p + q[1..];
    forall i, j | 0 <= i && j == i + 1 && j < |r|
      ensures g.Edge(r[i], r[j])
    {
      if j < |p| {
        assert r[i] == p[i] && r[j] == p[j];
      } else if i == |p| - 1 {
        assert r[i] == q[0] && r[j] == q[1];
      } else {
        assert r[i] == q[i - |p| + 1] && r[j] == q[j - |p| + 1];
      }
    }
    forall x | x in q
      ensures x in r
    {
      var i :| 0 <= i < |q| && q[i] == x;
      if i == 0 {
        assert r[|p| - 1] == x;
      } else {
        assert r[|p| + i - 1] == x;
      }
    }
    forall x | x in p
      ensures x in r
    {
      var i :| 0 <= i < |p| && p[i] == x;
      assert r[i] == x;
    }
  }

  lemma PathSnoc(g: Graph, a: Block, p: seq<Block>, b: Block, c: Block)
    requires Path(g, a, p, b) && g.Edge(b, c)
    ensures Path(g, a, p + [c], c)
  {
  }

  lemma PathPrefix(g: Graph, a: Block, p: seq<Block>, b: Block, i: nat)
    requires Path(g, a, p, b) && i < |p|
    ensures Path(g, a, p[..i + 1], p[i])
    ensures Path(g, p[i], p[i..], b)
  {
  }

  lemma PathInside(g: Graph, a: Block, p: seq<Block>, b: Block)
    requires g.Valid() && a in g.succ && Path(g, a, p, b)
    ensures forall x :: x in p ==> x in g.succ
    ensures b in g.succ
  {
    forall i | 0 <= i < |p|
      ensures p[i] in g.succ
    {
      if i > 0 {
        assert g.Edge(p[i - 1], p[i - 1 + 1]);
      }
    }
  }

  lemma EntryReachable(g: Graph)
    requires g.Valid()
    ensures Reachable(g, g.Entry()) && g.Entry() in g.pred
  {
    assert g.Entry() in g.blocks;
    assert Path(g, g.Entry(), [g.Entry()], g.Entry());
  }

  lemma ReachableStep(g: Graph, a: Block, b: Block)
    requires g.Valid() && Reachable(g, a) && g.Edge(a, b)
    ensures Reachable(g, b)
  {
    var p :| Path(g, g.Entry(), p, a);
    PathSnoc(g, g.Entry(), p, a, b);
  }

  lemma ReachableInGraph(g: Graph, b: Block)
    requires g.Valid() && Reachable(g, b)
    ensures b in g.succ && b in g.pred
  {
    var p :| Path(g, g.Entry(), p, b);
    PathInside(g, g.Entry(), p, b);
  }

  /** A dominator of `b` other than `b` dominates each predecessor of `b`. */
  lemma DomPred(g: Graph, d: Block, p: Block, b: Block)
    requires g.Valid() && Dom(g, d, b) && d != b && g.Edge(p, b)
    ensures Dom(g, d, p)
  {
    forall q | Path(g, g.Entry(), q, p)
      ensures d in q
    {
      PathSnoc(g, g.Entry(), q, p, b);
    }
  }

  /** If some path from `b` to `c` avoids a dominator `d` of `c`, then `d` dominates `b`. */
  lemma DomAvoid(g: Graph, d: Block, b: Block, q: seq<Block>, c: Block)
    requires g.Valid() && Dom(g, d, c) && Path(g, b, q, c) && d !in q
    ensures Dom(g, d, b)
  {
    forall p | Path(g, g.Entry(), p, b)
      ensures d in p
    {
      PathConcat(g, g.Entry(), p, b, q, c);
    }
  }
}
