/**
  The dominator analysis of one function: depth-first numbering, the
  immediate-dominator fixpoint, dominance frontiers and the dominator tree.
 */
module DepthFirst {
  import opened Cfg
  import opened IdomTree

  /** The state of the depth-first walk: the visited set, the blocks in the order they
      were finished, their post-order numbers and their parents. */
  datatype Walk = Walk(seen: set<Block>, order: seq<Block>, id: map<Block, nat>, par: map<Block, Block>)

  ghost predicate PostOrder(order: seq<Block>, id: map<Block, nat>) {
    && (forall b :: b in id <==> b in order)
    && (forall i {:trigger order[i]} :: 0 <= i < |order| ==> order[i] in id && id[order[i]] == i)
  }

  ghost predicate SuccsIn(g: Graph, b: Block, s: set<Block>) {
    forall c {:trigger g.Edge(b, c)} :: g.Edge(b, c) ==> c in s
  }

  /** `w'` continues `w`. */
  ghost predicate Extends(w: Walk, w': Walk) {
    && w.seen <= w'.seen
    && w.order <= w'.order
    && (forall b {:trigger w'.id[b]} :: b in w.id ==> b in w'.id && w'.id[b] == w.id[b])
    && (forall b {:trigger b in w'.par} :: b in w.par && b in w.seen ==> b in w'.par && w'.par[b] == w.par[b])
  }

  /** A visit of `bb` takes the walk from `w` to `w'`. */
  ghost predicate Visited(g: Graph, bb: Block, w: Walk, w': Walk)
    requires g.Valid()
  {
    && Extends(w, w') && bb in w'.seen && w'.seen <= g.pred.Keys
    && PostOrder(w'.order, w'.id)
    && w'.id.Keys == w.id.Keys + (w'.seen - w.seen)
    && (forall b {:trigger Reachable(g, b)} :: b in w'.seen - w.seen ==> Reachable(g, b))
    && (forall b {:trigger SuccsIn(g, b, w'.seen)} :: b in w'.seen - w.seen ==> SuccsIn(g, b, w'.seen))
    && (forall b {:trigger ParentOk(g, w'.id, w'.par, b)} :: b in w'.seen - w.seen && b != bb ==>
          ParentOk(g, w'.id, w'.par, b))
  }

  ghost predicate Adopted(g: Graph, bb: Block, w: Walk, b: Block) {
    ParentOk(g, w.id, w.par, b) || (b in w.par && w.par[b] == bb && g.Edge(bb, b))
  }

  /** The walk while the successors of `bb` are being visited; `bb` is not finished yet. */
  ghost predicate Visiting(g: Graph, bb: Block, w: Walk, w': Walk)
    requires g.Valid()
  {
    && Extends(w, w') && bb in w'.seen && w'.seen <= g.pred.Keys
    && PostOrder(w'.order, w'.id)
    && w'.id.Keys == w.id.Keys + (w'.seen - w.seen - {bb})
    && (forall b {:trigger Reachable(g, b)} :: b in w'.seen - w.seen ==> Reachable(g, b))
    && (forall b {:trigger SuccsIn(g, b, w'.seen)} :: b in w'.seen - w.seen - {bb} ==> SuccsIn(g, b, w'.seen))
    && (forall b {:trigger Adopted(g, bb, w', b)} :: b in w'.seen - w.seen - {bb} ==> Adopted(g, bb, w', b))
  }

  /** What was seen before the child, and its parent, keep their numbers. */
  lemma SeenBefore(g: Graph, bb: Block, now: Walk, b: Block, sub: Walk, x: Block)
    requires g.Valid() && b !in now.seen && Visited(g, b, now, sub) && x in now.seen && x != bb
    requires SuccsIn(g, x, now.seen) && Adopted(g, bb, now, x)
    ensures var w' := sub.(par := sub.par[b := bb]); SuccsIn(g, x, w'.seen) && Adopted(g, bb, w', x)
  {
    var w' := sub.(par := sub.par[b := bb]);
    if ParentOk(g, now.id, now.par, x) {
      assert sub.id[x] == now.id[x] && sub.id[now.par[x]] == now.id[now.par[x]];
      assert ParentOk(g, w'.id, w'.par, x);
    }
  }

  lemma SeenBelow(g: Graph, bb: Block, now: Walk, b: Block, sub: Walk, x: Block)
    requires g.Valid() && g.Edge(bb, b) && b !in now.seen && Visited(g, b, now, sub) && x in sub.seen - now.seen
    ensures var w' := sub.(par := sub.par[b := bb]); SuccsIn(g, x, w'.seen) && Adopted(g, bb, w', x)
  {
    var w' := sub.(par := sub.par[b := bb]);
    assert SuccsIn(g, x, sub.seen);
    if x != b {
      assert ParentOk(g, sub.id, sub.par, x);
      assert ParentOk(g, w'.id, w'.par, x);
    }
  }

  lemma VisitChild(g: Graph, bb: Block, w: Walk, now: Walk, b: Block, sub: Walk)
    requires g.Valid() && Visiting(g, bb, w, now) && bb !in w.seen
    requires g.Edge(bb, b) && b !in now.seen && Visited(g, b, now, sub)
    ensures Visiting(g, bb, w, sub.(par := sub.par[b := bb]))
  {
    var w' := sub.(par := sub.par[b := bb]);
    forall x | x in w'.seen - w.seen - {bb}
      ensures SuccsIn(g, x, w'.seen) && Adopted(g, bb, w', x)
    {
      if x in now.seen {
        assert SuccsIn(g, x, now.seen) && Adopted(g, bb, now, x);
        SeenBefore(g, bb, now, b, sub, x);
      } else {
        SeenBelow(g, bb, now, b, sub, x);
      }
    }
  }

  lemma FinishVisit(g: Graph, bb: Block, w: Walk, now: Walk)
    requires g.Valid() && Visiting(g, bb, w, now) && bb !in w.seen && w.id.Keys <= w.seen && SuccsIn(g, bb, now.seen)
    ensures Visited(g, bb, w, now.(id := now.id[bb := |now.order|], order := now.order + [bb]))
  {
    var w' := now.(id := now.id[bb := |now.order|], order := now.order + [bb]);
    assert bb !in now.id;
    forall x | x in now.id
      ensures now.id[x] < |now.order|
    {
      var i :| 0 <= i < |now.order| && now.order[i] == x;
    }
    forall x | x in w'.seen - w.seen && x != bb
      ensures ParentOk(g, w'.id, w'.par, x)
    {
      assert Adopted(g, bb, now, x);
    }
    forall x | x in w'.seen - w.seen
      ensures SuccsIn(g, x, w'.seen)
    {
      assert x != bb ==> SuccsIn(g, x, now.seen);
    }
  }

  /** A set of blocks that holds the entry and is closed under edges holds every reachable block. */
  lemma {:induction false} ClosedHoldsPath(g: Graph, s: set<Block>, p: seq<Block>, b: Block)
    requires g.Valid() && g.Entry() in s && (forall x :: x in s ==> SuccsIn(g, x, s))
    requires Path(g, g.Entry(), p, b)
    ensures b in s
    decreases |p|
  {
    if |p| > 1 {
      PathPrefix(g, g.Entry(), p, b, |p| - 2);
      ClosedHoldsPath(g, s, p[..|p| - 2 + 1], p[|p| - 2]);
      assert SuccsIn(g, p[|p| - 2], s) && g.Edge(p[|p| - 2], p[|p| - 1]);
    }
  }

  function Reversed(s: seq<Block>): seq<Block> {
    seq(|s|, i requires 0 <= i < |s| => s[|s| - 1 - i])
  }

  /** A completed walk from the entry numbers exactly the reachable blocks. */
  lemma WalkNumbers(g: Graph, w': Walk)
    requires g.Valid() && Visited(g, g.Entry(), Walk({}, [], map[], map[]), w')
    requires w'.order != [] && w'.order[|w'.order| - 1] == g.Entry()
    ensures Numbered(g, w'.id, w'.par) && Descending(g, Reversed(w'.order), w'.id)
  {
    forall b
      ensures b in w'.id <==> Reachable(g, b)
    {
      if Reachable(g, b) {
        var p :| Path(g, g.Entry(), p, b);
        ClosedHoldsPath(g, w'.seen, p, b);
      }
    }
    var rpo := Reversed(w'.order);
    forall b
      ensures b in rpo <==> b in w'.id
    {
      if b in w'.order {
        var i :| 0 <= i < |w'.order| && w'.order[i] == b;
        assert rpo[|w'.order| - 1 - i] == b;
      }
    }
    forall b | b in w'.id
      ensures w'.id[b] <= w'.id[g.Entry()]
    {
      var i :| 0 <= i < |w'.order| && w'.order[i] == b;
    }
  }
}

module Dominators {
  import opened Cfg
  import opened IdomTree
  import opened DepthFirst
  import opened Frontier

  /** `m[b]` as a C++ map reads it: a missing key is an empty set. */
  function At(m: map<Block, set<Block>>, b: Block): set<Block> {
    if b in m then m[b] else {}
  }

  function Add(m: map<Block, set<Block>>, b: Block, x: Block): map<Block, set<Block>> {
    m[b := At(m, b) + {x}]
  }

  lemma AddAt(m: map<Block, set<Block>>, b: Block, z: Block)
    ensures forall x, y :: y in At(Add(m, b, z), x) <==> y in At(m, x) || (x == b && y == z)
  {
  }

  /** The runner that started at `p` is still on its way to idom(bb). */
  ghost predicate RunnerOn(t: Tree, p: Block, bb: Block, r: Block)
    requires t.Ok()
  {
    && p in t.up && t.NodeOk(bb) && r in t.up && t.Anc(p, r) && t.Anc(r, t.up[bb])
  }

  lemma PassOne(t: Tree, p: Block, bb: Block, r: Block)
    requires t.Ok() && RunnerOn(t, p, bb, r) && r != t.up[bb]
    ensures t.NodeOk(r) && r != t.root && t.id[r] < t.id[t.up[r]] && RunnerOn(t, p, bb, t.up[r])
    ensures forall x :: t.Anc(r, x) <==> x == r || t.Anc(t.up[r], x)
    ensures !t.Anc(t.up[r], r)
  {
    assert t.NodeOk(r);
    AncId(t, r, t.up[bb]);
    AncTrans(t, p, r, t.up[r]);
    if t.Anc(t.up[r], r) {
      AncId(t, t.up[r], r);
    }
  }

  class Dominators {
    const g: Graph
    var reversePostOrder: seq<Block>
    var postOrderId: map<Block, nat>
    var idom: map<Block, Block>
    var domFrontier: map<Block, set<Block>>
    var domTreeSucc: map<Block, set<Block>>
    ghost var par: map<Block, Block>

    constructor (g: Graph)
      ensures this.g == g
    {
      this.g := g;
      reversePostOrder, postOrderId, par := [], map[], map[];
      idom, domFrontier, domTreeSucc := map[], map[], map[];
    }

    ghost function State(visited: set<Block>): Walk
      reads this
    {
      Walk(visited, reversePostOrder, postOrderId, par)
    }

    method PostOrderVisit(bb: Block, visited: set<Block>) returns (visited': set<Block>)
      requires g.Valid() && bb in g.pred && bb !in visited && visited <= g.pred.Keys
      requires PostOrder(reversePostOrder, postOrderId) && postOrderId.Keys <= visited
      requires Reachable(g, bb)
      modifies this`reversePostOrder, this`postOrderId, this`par
      ensures Visited(g, bb, old(State(visited)), State(visited'))
      ensures reversePostOrder != [] && reversePostOrder[|reversePostOrder| - 1] == bb
      decreases g.pred.Keys - visited, 0
    {
      visited' := visited + {bb};
      var succs := g.succ[bb];
      var i := 0;
      while i < |succs|
        invariant 0 <= i <= |succs|
        invariant Visiting(g, bb, old(State(visited)), State(visited'))
        invariant forall j :: 0 <= j < i ==> succs[j] in visited'
      {
        visited' := VisitSucc(bb, succs[i], visited', old(State(visited)));
        i := i + 1;
      }
      FinishVisit(g, bb, old(State(visited)), State(visited'));
      postOrderId := postOrderId[bb := |reversePostOrder|];
      reversePostOrder := reversePostOrder + [bb];
    }

    /** One successor in the loop of the walk. */
    method VisitSucc(bb: Block, b: Block, visited: set<Block>, ghost start: Walk) returns (visited': set<Block>)
      requires g.Valid() && Reachable(g, bb) && g.Edge(bb, b) && Visiting(g, bb, start, State(visited)) && bb !in start.seen && start.id.Keys <= start.seen
      modifies this`reversePostOrder, this`postOrderId, this`par
      ensures Visiting(g, bb, start, State(visited')) && b in visited' && visited <= visited'
      decreases g.pred.Keys - visited, 1
    {
      visited' := visited;
      if b !in visited {
        ReachableStep(g, bb, b);
        ghost var now := State(visited);
        visited' := PostOrderVisit(b, visited);
        VisitChild(g, bb, start, now, b, State(visited'));
        par := par[b := bb];
      }
    }

    method CreateReversePostOrder()
      requires g.Valid()
      modifies this`reversePostOrder, this`postOrderId, this`par
      ensures Numbered(g, postOrderId, par) && Descending(g, reversePostOrder, postOrderId)
    {
      reversePostOrder, postOrderId, par := [], map[], map[];
      EntryReachable(g);
      var visited := PostOrderVisit(g.Entry(), {});
      WalkNumbers(g, State(visited));
      reversePostOrder := Reversed(reversePostOrder);
    }

    // ----- create_idom -----

    ghost function Idoms(): Tree
      reads this
      requires |g.blocks| > 0
    {
      Tree(g.Entry(), postOrderId, idom)
    }

    /** The closest block on both chains. */
    method Intersect(p: Block, q: Block) returns (r: Block)
      requires |g.blocks| > 0 && Idoms().Ok() && Distinct(postOrderId) && p in idom && q in idom
      ensures r in idom && Idoms().Anc(p, r) && Idoms().Anc(q, r)
      ensures forall y :: Idoms().Anc(p, y) && Idoms().Anc(q, y) ==> Idoms().Anc(r, y)
    {
      ghost var t := Idoms();
      var b1, b2 := p, q;
      while b1 != b2
        invariant MeetsSoFar(t, p, q, b1, b2)
        decreases (t.id[t.root] - t.id[b1]) + (t.id[t.root] - t.id[b2])
      {
        ghost var c1, c2 := b1, b2;
        assert OwnNumber(postOrderId, b1);
        while postOrderId[b1] < postOrderId[b2]
          invariant MeetsSoFar(t, p, q, b1, b2)
          invariant t.id[c1] <= t.id[b1] && b2 == c2 && (b1 == c1 || t.id[c1] < t.id[b1])
          decreases t.id[t.root] - t.id[b1]
        {
          ClimbFirst(t, p, q, b1, b2);
          b1 := idom[b1];
        }
        while postOrderId[b2] < postOrderId[b1]
          invariant MeetsSoFar(t, p, q, b1, b2)
          invariant t.id[c1] <= t.id[b1] && t.id[c2] <= t.id[b2]
          invariant b1 == c1 || t.id[c1] < t.id[b1]
          invariant b2 == c2 || t.id[c2] < t.id[b2]
          decreases t.id[t.root] - t.id[b2]
        {
          MeetsSoFarSymmetric(t, p, q, b1, b2);
          ClimbFirst(t, q, p, b2, b1);
          b2 := idom[b2];
          MeetsSoFarSymmetric(t, q, p, b2, b1);
        }
      }
      r := b1;
    }

    /** The nearest common ancestor of the predecessors of `bb` that have an
        immediate dominator already. */
    method NewIdom(bb: Block) returns (newIdom: Block)
      requires |g.blocks| > 0 && Idoms().Ok() && Distinct(postOrderId)
      requires bb in g.pred && LivePredSet(g, Idoms(), bb) != {}
      ensures Meets(g, Idoms(), bb, newIdom)
    {
      ghost var t := Idoms();
      var preds := g.pred[bb];
      var i := 0;
      while i < |preds| && preds[i] !in idom
        invariant 0 <= i <= |preds|
        invariant forall j :: 0 <= j < i ==> preds[j] !in idom
      {
        i := i + 1;
      }
      assert i < |preds| by {
        var p :| p in LivePredSet(g, t, bb);
        assert p in preds;
      }
      var pred := preds[i];
      newIdom := pred;
      ghost var done := {pred};
      assert t.NodeOk(pred);
      i := 0;
      while i < |preds|
        invariant 0 <= i <= |preds|
        invariant pred in done && done <= LivePredSet(g, t, bb)
        invariant forall j :: 0 <= j < i && preds[j] in idom ==> preds[j] in done
        invariant newIdom in idom && Common(t, done, newIdom)
        invariant forall y {:trigger Common(t, done, y)} :: Common(t, done, y) ==> t.Anc(newIdom, y)
      {
        var p := preds[i];
        if p != pred && p in idom {
          ghost var n := newIdom;
          newIdom := Intersect(p, newIdom);
          MeetOne(t, done, n, p, newIdom);
          done := done + {p};
        }
        i := i + 1;
      }
      assert done == LivePredSet(g, t, bb);
    }

    /** The body of the pass: recompute the immediate dominator of the k-th block. */
    method Recompute(k: nat, ghost wit: map<Block, set<Block>>) returns (changed: bool, ghost wit': map<Block, set<Block>>)
      requires g.Valid() && Inv(g, Idoms(), par, wit) && Descending(g, reversePostOrder, postOrderId)
      requires k < |reversePostOrder| && reversePostOrder[k] != g.Entry()
      requires DoneBefore(g, Idoms(), par, reversePostOrder, k)
      modifies this`idom
      ensures Inv(g, Idoms(), par, wit')
      ensures reversePostOrder[k] in postOrderId && DoneFrom(Idoms(), par, postOrderId[reversePostOrder[k]])
      ensures changed ==> Rank(Idoms(), reversePostOrder) < Rank(old(Idoms()), reversePostOrder)
      ensures !changed ==> idom == old(idom) && reversePostOrder[k] in idom && Settled(g, Idoms(), reversePostOrder[k])
    {
      var bb := reversePostOrder[k];
      ghost var t := Idoms();
      ReadyToUpdate(g, t, par, wit, reversePostOrder, k);
      DescendingDistinct(g, reversePostOrder, postOrderId);
      var newIdom := NewIdom(bb);
      UpdateInv(g, t, par, wit, bb, newIdom);
      NewLinkIsHigher(g, t, par, wit, bb, newIdom);
      wit' := wit[bb := LivePredSet(g, t, bb)];
      changed := bb !in idom || idom[bb] != newIdom;
      if changed {
        idom := idom[bb := newIdom];
        RankDrops(t, Idoms(), reversePostOrder, bb);
      } else {
        assert t.up[bb := newIdom] == t.up;
        SettledNow(g, t, bb);
      }
    }

    method CreateIdom()
      requires g.Valid() && Numbered(g, postOrderId, par) && Descending(g, reversePostOrder, postOrderId)
      modifies this`idom
      ensures Complete(g, Idoms(), par)
    {
      idom := map[];
      var root := g.Entry();
      idom := idom[root := root];
      ghost var wit: map<Block, set<Block>> := map[];
      InitialInv(g, Idoms(), par, wit);
      var changed := true;
      while changed
        invariant Inv(g, Idoms(), par, wit)
        invariant !changed ==> Stable(g, Idoms()) && forall x :: x in postOrderId ==> x in idom
        decreases Rank(Idoms(), reversePostOrder), changed
      {
        changed := false;
        ghost var start := Rank(Idoms(), reversePostOrder);
        var k := 0;
        while k < |reversePostOrder|
          invariant 0 <= k <= |reversePostOrder|
          invariant Inv(g, Idoms(), par, wit)
          invariant DoneBefore(g, Idoms(), par, reversePostOrder, k)
          invariant if changed then Rank(Idoms(), reversePostOrder) < start else Rank(Idoms(), reversePostOrder) == start
          invariant !changed ==> SettledBefore(g, Idoms(), reversePostOrder, k)
        {
          if reversePostOrder[k] != root {
            var ch;
            ch, wit := Recompute(k, wit);
            changed := changed || ch;
          }
          StepDone(g, Idoms(), par, reversePostOrder, k);
          k := k + 1;
        }
        if !changed {
          PassSettled(g, Idoms(), par, reversePostOrder);
        }
      }
      DescendingDistinct(g, reversePostOrder, postOrderId);
      ChainIsDominators(g, Idoms(), par, wit);
    }

    // ----- create_dominance_frontier -----

    method AddDominanceFrontier(bb: Block, frontierBb: Block)
      modifies this`domFrontier
      ensures domFrontier == Add(old(domFrontier), bb, frontierBb)
    {
      domFrontier := Add(domFrontier, bb, frontierBb);
    }

    /** Climb from the predecessor `p` of `bb` to the immediate dominator of `bb`. */
    method Climb(p: Block, bb: Block)
      requires g.Valid() && Complete(g, Idoms(), par) && g.Edge(p, bb)
      requires bb in idom ==> p in idom
      modifies this`domFrontier
      ensures forall x, y :: y in At(domFrontier, x) <==>
                y in At(old(domFrontier), x) || (y == bb && Passes(Idoms(), p, bb, x))
    {
      ghost var t := Idoms();
      if bb in idom {
        IdomAbovePred(g, t, par, p, bb);
      } else {
        assert p !in idom by {
          if p in idom { ReachableStep(g, p, bb); }
        }
      }
      var runner := To(p);
      while runner != GetIdom(idom, bb)
        invariant bb in idom ==> runner.To? && RunnerOn(t, p, bb, runner.block)
        invariant bb in idom ==> forall x, y :: y in At(domFrontier, x) <==>
                    y in At(old(domFrontier), x) || (y == bb && t.Anc(p, x) && !t.Anc(runner.block, x))
        invariant bb !in idom && runner.To? ==> runner == To(p) && domFrontier == old(domFrontier)
        invariant bb !in idom && runner.Null? ==> forall x, y :: y in At(domFrontier, x) <==>
                    y in At(old(domFrontier), x) || (y == bb && x == p)
        decreases if runner.Null? then 0 else if bb !in idom then 1 else t.id[t.root] - t.id[runner.block]
      {
        if bb in idom {
          PassOne(t, p, bb, runner.block);
        }
        AddAt(domFrontier, runner.block, bb);
        AddDominanceFrontier(runner.block, bb);
        runner := GetIdom(idom, runner.block);
      }
    }

    method CreateDominanceFrontier()
      requires g.Valid() && Complete(g, Idoms(), par) && RunnersStop(g)
      requires forall x :: At(domFrontier, x) == {}
      modifies this`domFrontier
      ensures forall x, y :: y in At(domFrontier, x) <==> Climbs(g, Idoms(), x, y)
    {
      ghost var t := Idoms();
      var i := 0;
      while i < |g.blocks|
        invariant 0 <= i <= |g.blocks|
        invariant forall x, y :: y in At(domFrontier, x) <==> y in g.blocks[..i] && Climbs(g, t, x, y)
      {
        var bb := g.blocks[i];
        assert bb in g.blocks;
        var preds := g.pred[bb];
        if |preds| >= 2 {
          ghost var before := domFrontier;
          var j := 0;
          while j < |preds|
            invariant 0 <= j <= |preds|
            invariant forall x, y :: y in At(domFrontier, x) <==>
                        y in At(before, x) || (y == bb && exists p :: p in preds[..j] && Passes(t, p, bb, x))
          {
            assert preds[j] in g.pred[bb] && g.Edge(preds[j], bb);
            assert bb in idom ==> Reachable(g, bb) && Reachable(g, preds[j]);
            Climb(preds[j], bb);
            assert preds[..j + 1] == preds[..j] + [preds[j]];
            j := j + 1;
          }
          assert preds[..j] == preds;
        }
        assert g.blocks[..i + 1] == g.blocks[..i] + [bb];
        i := i + 1;
      }
      assert g.blocks[..i] == g.blocks;
    }

    // ----- create_dom_tree_succ -----

    method CreateDomTreeSucc()
      requires g.Valid() && Complete(g, Idoms(), par)
      requires forall x :: At(domTreeSucc, x) == {}
      modifies this`domTreeSucc
      ensures forall x, y :: y in At(domTreeSucc, x) <==> y in idom && y != g.Entry() && idom[y] == x
    {
      var i := 0;
      while i < |g.blocks|
        invariant 0 <= i <= |g.blocks|
        invariant forall x, y :: y in At(domTreeSucc, x) <==>
                    y in g.blocks[..i] && y in idom && y != g.Entry() && idom[y] == x
      {
        var bb := g.blocks[i];
        var up := GetIdom(idom, bb);
        assert bb in idom ==> Idoms().NodeOk(bb);
        assert g.blocks[..i + 1] == g.blocks[..i] + [bb];
        // a block without an immediate dominator is filed under the null pointer, which nobody looks up
        assert forall y :: y in g.blocks[..i + 1] <==> y in g.blocks[..i] || y == bb;
        if up.To? && up.block != bb {
          AddAt(domTreeSucc, up.block, bb);
          domTreeSucc := Add(domTreeSucc, up.block, bb);
        }
        i := i + 1;
      }
      assert g.blocks[..i] == g.blocks;
      forall y | y in idom
        ensures y in g.blocks
      {
        assert Reachable(g, y);
        ReachableInGraph(g, y);
      }
    }

    method Run()
      requires g.Valid() && RunnersStop(g)
      modifies this
      ensures Complete(g, Idoms(), par)
      ensures forall x, y :: y in At(domFrontier, x) <==> Climbs(g, Idoms(), x, y)
      ensures forall x, y :: y in At(domTreeSucc, x) <==> y in idom && y != g.Entry() && idom[y] == x
    {
      domFrontier, domTreeSucc := map[], map[];
      CreateReversePostOrder();
      CreateIdom();
      CreateDominanceFrontier();
      CreateDomTreeSucc();
    }
  }
}
