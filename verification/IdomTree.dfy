/**
  The partial dominator tree held in `idom_` while it is being computed, and the
  invariant under which every intermediate state of the computation is sound.
 */
module IdomTree {
  import opened Cfg

  /** `up[b]` is `idom_[b]`; a missing key stands for a null pointer.
      `id` is `post_order_id_`. */
  datatype Tree = Tree(root: Block, id: map<Block, nat>, up: map<Block, Block>) {

    ghost predicate Ok() {
      && root in up && up[root] == root && root in id
      && (forall b {:trigger b in up} :: b in up ==> b in id && id[b] <= id[root])
      && (forall b {:trigger NodeOk(b)} :: b in up ==> NodeOk(b))
    }

    ghost predicate NodeOk(b: Block) {
      && b in up && b in id && root in id && id[b] <= id[root]
      && up[b] in up && up[b] in id
      && (b != root ==> id[b] < id[up[b]])
    }

    /** `a` lies on the chain b, idom(b), idom(idom(b)), ... */
    ghost predicate Anc(b: Block, a: Block)
      requires Ok() && b in up
      decreases id[root] - id[b]
    {
      NodeOk(b) && (a == b || (b != root && NodeOk(up[b]) && Anc(up[b], a)))
    }
  }

  lemma {:induction false} AncId(t: Tree, b: Block, a: Block)
    requires t.Ok() && b in t.up && t.Anc(b, a)
    ensures a in t.up && t.id[b] <= t.id[a]
    ensures a != b ==> t.id[b] < t.id[a]
    decreases t.id[t.root] - t.id[b]
  {
    if a != b {
      AncId(t, t.up[b], a);
    }
  }

  lemma {:induction false} AncTrans(t: Tree, c: Block, b: Block, a: Block)
    requires t.Ok() && c in t.up && b in t.up && t.Anc(c, b) && t.Anc(b, a)
    ensures t.Anc(c, a)
    decreases t.id[t.root] - t.id[c]
  {
    if c != b {
      AncTrans(t, t.up[c], b, a);
    }
  }

  lemma {:induction false} AncRoot(t: Tree, b: Block)
    requires t.Ok() && b in t.up
    ensures t.Anc(b, t.root)
    decreases t.id[t.root] - t.id[b]
  {
    if b != t.root {
      assert t.NodeOk(b);
      AncRoot(t, t.up[b]);
    }
  }

  /** A chain is totally ordered by post-order number. */
  lemma {:induction false} AncTotal(t: Tree, b: Block, x: Block, y: Block)
    requires t.Ok() && b in t.up && t.Anc(b, x) && t.Anc(b, y)
    requires x in t.id && y in t.id && t.id[x] <= t.id[y]
    ensures x in t.up && t.Anc(x, y)
    decreases t.id[t.root] - t.id[b]
  {
    AncId(t, b, x);
    if x != b {
      if y == b {
        assert false;
      } else {
        AncTotal(t, t.up[b], x, y);
      }
    }
  }

  /** Climbing from `p` and `q` to `a` and `b` has lost no common ancestor. */
  ghost predicate MeetsSoFar(t: Tree, p: Block, q: Block, a: Block, b: Block)
    requires t.Ok() && p in t.up && q in t.up
  {
    && a in t.up && b in t.up && t.Anc(p, a) && t.Anc(q, b)
    && forall y {:trigger t.Anc(p, y)} :: t.Anc(p, y) && t.Anc(q, y) ==> t.Anc(a, y) && t.Anc(b, y)
  }

  lemma ClimbFirst(t: Tree, p: Block, q: Block, a: Block, b: Block)
    requires t.Ok() && p in t.up && q in t.up && MeetsSoFar(t, p, q, a, b) && t.id[a] < t.id[b]
    ensures t.NodeOk(a) && a != t.root && MeetsSoFar(t, p, q, t.up[a], b)
  {
    assert t.NodeOk(a) && a != t.root;
    AncTrans(t, p, a, t.up[a]);
    forall y | t.Anc(p, y) && t.Anc(q, y)
      ensures t.Anc(t.up[a], y)
    {
      AncId(t, b, y);
    }
  }

  lemma MeetsSoFarSymmetric(t: Tree, p: Block, q: Block, a: Block, b: Block)
    requires t.Ok() && p in t.up && q in t.up && MeetsSoFar(t, p, q, a, b)
    ensures MeetsSoFar(t, q, p, b, a)
  {
  }

  // ----- changing one link -----

  /** Links above `b` do not see a change at `b`. */
  lemma {:induction false} AncUnaffected(t: Tree, t': Tree, b: Block, c: Block, a: Block)
    requires t.Ok() && t'.Ok() && t'.root == t.root && t'.id == t.id
    requires c in t.up && b in t'.up && t'.up == t.up[b := t'.up[b]]
    requires !t.Anc(c, b) || c == t.root
    ensures t'.Anc(c, a) == t.Anc(c, a)
    decreases t.id[t.root] - t.id[c]
  {
    if c != t.root {
      assert t.up[c] == t'.up[c];
      AncUnaffected(t, t', b, t.up[c], a);
    }
  }

  /** When the link of `b` moves up to an ancestor of its old target, every chain shrinks. */
  lemma {:induction false} AncShrinks(t: Tree, t': Tree, b: Block, c: Block, a: Block)
    requires t.Ok() && t'.Ok() && t'.root == t.root && t'.id == t.id
    requires b in t.up && b != t.root && b in t'.up && t'.up == t.up[b := t'.up[b]]
    requires t.NodeOk(b) && t.Anc(t.up[b], t'.up[b])
    requires c in t.up && t'.Anc(c, a)
    ensures t.Anc(c, a)
    decreases t.id[t.root] - t.id[c]
  {
    if c != a {
      if c == b {
        AncId(t, t.up[b], t'.up[b]);
        AncShrinks(t, t', b, t'.up[b], a);
        AncTrans(t, t.up[b], t'.up[b], a);
      } else {
        AncShrinks(t, t', b, t.up[c], a);
      }
    }
  }

  /** A chain keeps its part up to and including `b` when the link of `b` changes. */
  lemma {:induction false} AncBelow(t: Tree, t': Tree, b: Block, c: Block, a: Block)
    requires t.Ok() && t'.Ok() && t'.root == t.root && t'.id == t.id
    requires b in t'.up && t'.up == t.up[b := t'.up[b]] && b != t.root
    requires c in t.up && t.Anc(c, a) && a in t.up && t.Anc(a, b)
    ensures t'.Anc(c, a)
    decreases t.id[t.root] - t.id[c]
  {
    if c != a {
      if c == b {
        AncId(t, a, b);
        AncId(t, c, a);
        assert false;
      } else {
        AncBelow(t, t', b, t.up[c], a);
      }
    }
  }

  // ----- the post-order numbering -----

  /** What `create_reverse_post_order` leaves behind in `post_order_id_`: the reachable
      blocks are numbered, the entry highest, and `par` (the parents in the depth-first
      tree) gives each of the others a predecessor with a larger number. */
  ghost predicate Numbered(g: Graph, id: map<Block, nat>, par: map<Block, Block>)
    requires g.Valid()
  {
    && (forall b {:trigger Reachable(g, b)} :: b in id <==> Reachable(g, b))
    && g.Entry() in id
    && (forall b {:trigger id[b]} :: b in id ==> id[b] <= id[g.Entry()])
    && (forall b {:trigger ParentOk(g, id, par, b)} :: b in id && b != g.Entry() ==> ParentOk(g, id, par, b))
  }

  ghost predicate ParentOk(g: Graph, id: map<Block, nat>, par: map<Block, Block>, b: Block) {
    b in id && b in par && par[b] in id && g.Edge(par[b], b) && id[b] < id[par[b]]
  }

  /** `rpo` lists the numbered blocks by descending number, the entry first. */
  ghost predicate Descending(g: Graph, rpo: seq<Block>, id: map<Block, nat>)
    requires |g.blocks| > 0
  {
    && (forall b {:trigger b in rpo} :: b in rpo <==> b in id)
    && |rpo| > 0 && rpo[0] == g.Entry()
    && (forall i, j {:trigger Before(rpo, id, i, j)} :: 0 <= i < j < |rpo| ==> Before(rpo, id, i, j))
  }

  ghost predicate Before(rpo: seq<Block>, id: map<Block, nat>, i: nat, j: nat)
    requires i < |rpo| && j < |rpo|
  {
    rpo[i] in id && rpo[j] in id && id[rpo[j]] < id[rpo[i]]
  }

  ghost predicate OwnNumber(id: map<Block, nat>, b: Block) {
    b in id && forall x :: x in id && id[x] == id[b] ==> x == b
  }

  ghost predicate Distinct(id: map<Block, nat>) {
    forall b {:trigger OwnNumber(id, b)} :: b in id ==> OwnNumber(id, b)
  }

  lemma DescendingDistinct(g: Graph, rpo: seq<Block>, id: map<Block, nat>)
    requires |g.blocks| > 0 && Descending(g, rpo, id)
    ensures Distinct(id)
  {
    forall b | b in id
      ensures OwnNumber(id, b)
    {
      assert b in rpo;
      var i :| 0 <= i < |rpo| && rpo[i] == b;
      forall x | x in id && id[x] == id[b]
        ensures x == b
      {
        assert x in rpo;
        var j :| 0 <= j < |rpo| && rpo[j] == x;
        assert i < j ==> Before(rpo, id, i, j);
        assert j < i ==> Before(rpo, id, j, i);
      }
    }
  }

  ghost predicate Context(g: Graph, t: Tree, par: map<Block, Block>) {
    g.Valid() && t.root == g.Entry() && Numbered(g, t.id, par) && t.Ok()
  }

  // ----- what holds of every intermediate tree -----

  ghost predicate LowPath(g: Graph, id: map<Block, nat>, a: Block, p: seq<Block>, b: Block) {
    && Path(g, a, p, b) && a in id
    && forall x :: x in p ==> x in id && id[x] <= id[a]
  }

  ghost predicate HasLowPath(g: Graph, id: map<Block, nat>, a: Block, b: Block) {
    exists p :: LowPath(g, id, a, p, b)
  }

  /** (a) From idom(b) there is a path to b through blocks numbered no higher than idom(b). */
  ghost predicate LinksHaveLowPaths(g: Graph, t: Tree) {
    forall b {:trigger LinkHasLowPath(g, t, b)} :: b in t.up && b != t.root ==> LinkHasLowPath(g, t, b)
  }

  ghost predicate LinkHasLowPath(g: Graph, t: Tree, b: Block) {
    b in t.up && HasLowPath(g, t.id, t.up[b], b)
  }

  /** (b) No true dominator is ever missing from a chain. */
  ghost predicate KeepsDominators(g: Graph, t: Tree)
    requires g.Valid() && t.Ok()
  {
    forall b, d {:trigger Dom(g, d, b)} :: b in t.up && Dom(g, d, b) ==> t.Anc(b, d)
  }

  /** `a` is `b` or one of its ancestors in the depth-first tree. */
  ghost predicate DfsAnc(g: Graph, id: map<Block, nat>, par: map<Block, Block>, b: Block, a: Block)
    requires g.Valid() && Numbered(g, id, par) && b in id
    decreases id[g.Entry()] - id[b]
  {
    a == b || (b != g.Entry() && ParentOk(g, id, par, b) && DfsAnc(g, id, par, par[b], a))
  }

  /** (c) idom(b) is a proper depth-first ancestor of b. */
  ghost predicate LinksAreDfsAncestors(g: Graph, t: Tree, par: map<Block, Block>)
    requires Context(g, t, par)
  {
    forall b {:trigger LinkIsDfsAncestor(g, t, par, b)} :: b in t.up && b != t.root ==> LinkIsDfsAncestor(g, t, par, b)
  }

  ghost predicate LinkIsDfsAncestor(g: Graph, t: Tree, par: map<Block, Block>, b: Block)
    requires Context(g, t, par) && b in t.up && b != t.root
  {
    t.NodeOk(b) && ParentOk(g, t.id, par, b) && DfsAnc(g, t.id, par, par[b], t.up[b])
  }

  /** `y` is on the chain of every block of `w`. */
  ghost predicate Common(t: Tree, w: set<Block>, y: Block)
    requires t.Ok() && w <= t.up.Keys
  {
    forall p :: p in w ==> t.Anc(p, y)
  }

  ghost function LivePredSet(g: Graph, t: Tree, b: Block): set<Block>
    requires b in g.pred
  {
    set p | p in g.pred[b] && p in t.up
  }

  /** (d) `wit[b]` are predecessors that idom(b) was computed from: no common
      ancestor of them is numbered below idom(b). */
  ghost predicate Witnessed(g: Graph, t: Tree, wit: map<Block, set<Block>>)
    requires g.Valid() && t.Ok()
  {
    forall b {:trigger LinkIsWitnessed(g, t, wit, b)} :: b in t.up && b != t.root ==> LinkIsWitnessed(g, t, wit, b)
  }

  ghost predicate LinkIsWitnessed(g: Graph, t: Tree, wit: map<Block, set<Block>>, b: Block)
    requires t.Ok()
  {
    && t.NodeOk(b) && b in g.pred && b in wit
    && wit[b] <= LivePredSet(g, t, b)
    && forall y {:trigger Common(t, wit[b], y)} :: y in t.id && Common(t, wit[b], y) ==> t.id[t.up[b]] <= t.id[y]
  }

  /** (e) Blocks numbered `k` or higher have been processed in the current pass. */
  ghost predicate DoneFrom(t: Tree, par: map<Block, Block>, k: nat)
    requires t.Ok()
  {
    && (forall x {:trigger x in t.up} :: x in t.id && t.id[x] >= k ==> x in t.up)
    && (forall x {:trigger Done(t, par, x)} :: x in t.id && t.id[x] >= k && x != t.root ==> Done(t, par, x))
  }

  ghost predicate Done(t: Tree, par: map<Block, Block>, x: Block)
    requires t.Ok()
  {
    x in t.up && x in par && par[x] in t.up && t.Anc(par[x], t.up[x])
  }

  ghost predicate Inv(g: Graph, t: Tree, par: map<Block, Block>, wit: map<Block, set<Block>>) {
    && Context(g, t, par)
    && LinksHaveLowPaths(g, t)
    && KeepsDominators(g, t)
    && LinksAreDfsAncestors(g, t, par)
    && Witnessed(g, t, wit)
  }

  lemma {:induction false} ChainLowPath(g: Graph, t: Tree, par: map<Block, Block>, c: Block, b: Block)
    requires Context(g, t, par) && LinksHaveLowPaths(g, t)
    requires c in t.up && t.Anc(c, b)
    ensures HasLowPath(g, t.id, b, c)
    decreases t.id[t.root] - t.id[c]
  {
    if c == b {
      assert LowPath(g, t.id, b, [b], b);
    } else {
      ChainLowPath(g, t, par, t.up[c], b);
      assert LinkHasLowPath(g, t, c);
      var p :| LowPath(g, t.id, b, p, t.up[c]);
      var q :| LowPath(g, t.id, t.up[c], q, c);
      PathConcat(g, b, p, t.up[c], q, c);
      AncId(t, t.up[c], b);
      assert LowPath(g, t.id, b, p + q[1..], c);
    }
  }

  lemma {:induction false} DfsAncId(g: Graph, id: map<Block, nat>, par: map<Block, Block>, b: Block, a: Block)
    requires g.Valid() && Numbered(g, id, par) && b in id && DfsAnc(g, id, par, b, a)
    ensures a in id && id[b] <= id[a] && (a != b ==> id[b] < id[a])
    decreases id[g.Entry()] - id[b]
  {
    if a != b {
      DfsAncId(g, id, par, par[b], a);
    }
  }

  lemma {:induction false} DfsAncTrans(g: Graph, id: map<Block, nat>, par: map<Block, Block>, c: Block, b: Block, a: Block)
    requires g.Valid() && Numbered(g, id, par) && c in id && b in id
    requires DfsAnc(g, id, par, c, b) && DfsAnc(g, id, par, b, a)
    ensures DfsAnc(g, id, par, c, a)
    decreases id[g.Entry()] - id[c]
  {
    if c != b {
      DfsAncTrans(g, id, par, par[c], b, a);
    }
  }

  /** Every chain consists of depth-first ancestors. */
  lemma {:induction false} ChainIsDfs(g: Graph, t: Tree, par: map<Block, Block>, c: Block, a: Block)
    requires Context(g, t, par) && LinksAreDfsAncestors(g, t, par)
    requires c in t.up && t.Anc(c, a)
    ensures DfsAnc(g, t.id, par, c, a)
    decreases t.id[t.root] - t.id[c]
  {
    if c != a {
      ChainIsDfs(g, t, par, t.up[c], a);
      assert LinkIsDfsAncestor(g, t, par, c);
      assert DfsAnc(g, t.id, par, c, t.up[c]);
      DfsAncTrans(g, t.id, par, c, t.up[c], a);
    }
  }

  /** Climbing depth-first parents of processed blocks never loses a chain element
      that is numbered above the block `o` the climb ends at. */
  lemma {:induction false} ClimbParents(g: Graph, t: Tree, par: map<Block, Block>, k: nat, x: Block, o: Block, y: Block)
    requires Context(g, t, par) && DoneFrom(t, par, k)
    requires x in t.id && t.id[x] >= k && DfsAnc(g, t.id, par, x, o)
    requires t.Anc(x, y) && y in t.id && o in t.id && t.id[o] <= t.id[y]
    ensures o in t.up && t.Anc(o, y)
    decreases t.id[t.root] - t.id[x]
  {
    if x != o {
      DfsAncId(g, t.id, par, x, o);
      assert x != t.root && y != x;
      assert Done(t, par, x);
      AncTrans(t, par[x], t.up[x], y);
      ClimbParents(g, t, par, k, par[x], o, y);
    }
  }

  // ----- one update -----

  /** `n` is the nearest common ancestor of the processed predecessors of `b`. */
  ghost predicate Meets(g: Graph, t: Tree, b: Block, n: Block)
    requires t.Ok() && b in g.pred
  {
    && n in t.up
    && Common(t, LivePredSet(g, t, b), n)
    && forall y {:trigger Common(t, LivePredSet(g, t, b), y)} :: Common(t, LivePredSet(g, t, b), y) ==> t.Anc(n, y)
  }

  ghost predicate Updating(g: Graph, t: Tree, par: map<Block, Block>, wit: map<Block, set<Block>>,
                           b: Block, n: Block)
  {
    && Inv(g, t, par, wit)
    && b in t.id && b != t.root && b in g.pred
    && DoneFrom(t, par, t.id[b] + 1)
    && Meets(g, t, b, n)
  }

  lemma NewLinkIsHigher(g: Graph, t: Tree, par: map<Block, Block>, wit: map<Block, set<Block>>, b: Block, n: Block)
    requires Updating(g, t, par, wit, b, n)
    ensures b in par && par[b] in t.up && t.Anc(par[b], n) && t.id[b] < t.id[n]
    ensures b in t.up ==> t.NodeOk(b) && t.Anc(t.up[b], n)
  {
    assert ParentOk(g, t.id, par, b);
    assert par[b] in LivePredSet(g, t, b);
    AncId(t, par[b], n);
    if b in t.up {
      assert LinkIsWitnessed(g, t, wit, b) && LinkIsDfsAncestor(g, t, par, b);
      assert Common(t, wit[b], n);
      ClimbParents(g, t, par, t.id[b] + 1, par[b], t.up[b], n);
    }
  }

  lemma UpdateOk(g: Graph, t: Tree, par: map<Block, Block>, wit: map<Block, set<Block>>, b: Block, n: Block)
    requires Updating(g, t, par, wit, b, n)
    ensures t.(up := t.up[b := n]).Ok()
  {
    var t' := t.(up := t.up[b := n]);
    NewLinkIsHigher(g, t, par, wit, b, n);
    forall x | x in t'.up
      ensures t'.NodeOk(x)
    {
      assert x != b ==> t.NodeOk(x);
      assert t.NodeOk(n);
    }
  }

  /** An update only shrinks the chains that existed before it. */
  lemma UpdateShrinks(g: Graph, t: Tree, par: map<Block, Block>, wit: map<Block, set<Block>>, b: Block, n: Block, c: Block, a: Block)
    requires Updating(g, t, par, wit, b, n) && c in t.up
    requires t.(up := t.up[b := n]).Ok() && t.(up := t.up[b := n]).Anc(c, a)
    ensures t.Anc(c, a)
  {
    var t' := t.(up := t.up[b := n]);
    if b in t.up {
      NewLinkIsHigher(g, t, par, wit, b, n);
      AncShrinks(t, t', b, c, a);
    } else {
      if t.Anc(c, b) {
        AncId(t, c, b);
      }
      AncUnaffected(t, t', b, c, a);
    }
  }

  lemma UpdateKeepsUpper(g: Graph, t: Tree, par: map<Block, Block>, wit: map<Block, set<Block>>, b: Block, n: Block, c: Block, a: Block)
    requires Updating(g, t, par, wit, b, n) && c in t.up && t.id[c] > t.id[b]
    requires t.(up := t.up[b := n]).Ok()
    ensures t.(up := t.up[b := n]).Anc(c, a) == t.Anc(c, a)
  {
    if t.Anc(c, b) {
      AncId(t, c, b);
    }
    AncUnaffected(t, t.(up := t.up[b := n]), b, c, a);
  }

  lemma UpdateLowPath(g: Graph, t: Tree, par: map<Block, Block>, wit: map<Block, set<Block>>, b: Block, n: Block)
    requires Updating(g, t, par, wit, b, n)
    ensures HasLowPath(g, t.id, n, b)
  {
    NewLinkIsHigher(g, t, par, wit, b, n);
    var p := par[b];
    assert ParentOk(g, t.id, par, b);
    ChainLowPath(g, t, par, p, n);
    var q :| LowPath(g, t.id, n, q, p);
    PathSnoc(g, n, q, p, b);
    assert LowPath(g, t.id, n, q + [b], b);
  }

  /** A dominator of `b` is on the chain of the nearest common ancestor. */
  lemma DominatorAboveMeet(g: Graph, t: Tree, par: map<Block, Block>, wit: map<Block, set<Block>>, b: Block, n: Block, d: Block)
    requires Updating(g, t, par, wit, b, n)
    requires Dom(g, d, b) && d != b
    ensures t.Anc(n, d)
  {
    forall p | p in LivePredSet(g, t, b)
      ensures t.Anc(p, d)
    {
      DomPred(g, d, p, b);
    }
    assert Common(t, LivePredSet(g, t, b), d);
  }

  lemma UpdateKeepsDominators(g: Graph, t: Tree, par: map<Block, Block>, wit: map<Block, set<Block>>, b: Block, n: Block, c: Block, d: Block)
    requires Updating(g, t, par, wit, b, n)
    requires t.(up := t.up[b := n]).Ok()
    requires c in t.up[b := n] && Dom(g, d, c)
    ensures t.(up := t.up[b := n]).Anc(c, d)
  {
    var t' := t.(up := t.up[b := n]);
    NewLinkIsHigher(g, t, par, wit, b, n);
    if c == b {
      if d != b {
        DominatorAboveMeet(g, t, par, wit, b, n, d);
        UpdateKeepsUpper(g, t, par, wit, b, n, n, d);
      }
    } else if !t.Anc(c, b) {
      AncUnaffected(t, t', b, c, d);
    } else {
      AncId(t, c, b);
      AncId(t, c, d);
      if t.id[d] <= t.id[b] {
        AncTotal(t, c, d, b);
        AncBelow(t, t', b, c, d);
      } else {
        ChainLowPath(g, t, par, c, b);
        var q :| LowPath(g, t.id, b, q, c);
        DomAvoid(g, d, b, q, c);
        DominatorAboveMeet(g, t, par, wit, b, n, d);
        UpdateKeepsUpper(g, t, par, wit, b, n, n, d);
        AncBelow(t, t', b, c, b);
        AncTrans(t', c, b, d);
      }
    }
  }

  lemma UpdateWitnessed(g: Graph, t: Tree, par: map<Block, Block>, wit: map<Block, set<Block>>, b: Block, n: Block)
    requires Updating(g, t, par, wit, b, n)
    requires t.(up := t.up[b := n]).Ok()
    ensures Witnessed(g, t.(up := t.up[b := n]), wit[b := LivePredSet(g, t, b)])
  {
    var t' := t.(up := t.up[b := n]);
    var wit' := wit[b := LivePredSet(g, t, b)];
    forall x | x in t'.up && x != t'.root
      ensures LinkIsWitnessed(g, t', wit', x)
    {
      if x != b {
        assert LinkIsWitnessed(g, t, wit, x);
      }
      assert wit'[x] <= t.up.Keys;
      forall y | y in t'.id && Common(t', wit'[x], y)
        ensures t'.id[t'.up[x]] <= t'.id[y]
      {
        forall p | p in wit'[x]
          ensures t.Anc(p, y)
        {
          UpdateShrinks(g, t, par, wit, b, n, p, y);
        }
        assert Common(t, wit'[x], y);
        if x == b {
          AncId(t, n, y);
        }
      }
    }
  }

  /** The step theorem: updating `b` to the nearest common ancestor of its processed
      predecessors keeps the whole invariant, and `b` then counts as processed. */
  lemma UpdateInv(g: Graph, t: Tree, par: map<Block, Block>, wit: map<Block, set<Block>>, b: Block, n: Block)
    requires Updating(g, t, par, wit, b, n) && OwnNumber(t.id, b)
    ensures Inv(g, t.(up := t.up[b := n]), par, wit[b := LivePredSet(g, t, b)])
    ensures DoneFrom(t.(up := t.up[b := n]), par, t.id[b])
  {
    var t' := t.(up := t.up[b := n]);
    NewLinkIsHigher(g, t, par, wit, b, n);
    UpdateOk(g, t, par, wit, b, n);
    UpdateLowPath(g, t, par, wit, b, n);
    forall c, d | c in t'.up && Dom(g, d, c)
      ensures t'.Anc(c, d)
    {
      UpdateKeepsDominators(g, t, par, wit, b, n, c, d);
    }
    forall x | x in t'.up && x != t'.root
      ensures LinkHasLowPath(g, t', x) && LinkIsDfsAncestor(g, t', par, x)
    {
      assert t'.NodeOk(x) && ParentOk(g, t.id, par, x);
      if x == b {
        ChainIsDfs(g, t, par, par[b], n);
      } else {
        assert LinkHasLowPath(g, t, x) && LinkIsDfsAncestor(g, t, par, x);
      }
    }
    UpdateWitnessed(g, t, par, wit, b, n);
    forall x | x in t'.id && t'.id[x] >= t.id[b]
      ensures x in t'.up && (x != t'.root ==> Done(t', par, x))
    {
      if t.id[x] == t.id[b] {
        UpdateKeepsUpper(g, t, par, wit, b, n, par[b], n);
      } else if x != t.root {
        assert Done(t, par, x) && ParentOk(g, t.id, par, x);
        UpdateKeepsUpper(g, t, par, wit, b, n, par[x], t.up[x]);
      }
    }
  }

  lemma MeetOne(t: Tree, done: set<Block>, n: Block, p: Block, r: Block)
    requires t.Ok() && done <= t.up.Keys && n in t.up && p in t.up && r in t.up
    requires Common(t, done, n) && (forall y {:trigger Common(t, done, y)} :: Common(t, done, y) ==> t.Anc(n, y))
    requires t.Anc(p, r) && t.Anc(n, r) && (forall y :: t.Anc(p, y) && t.Anc(n, y) ==> t.Anc(r, y))
    ensures Common(t, done + {p}, r)
    ensures forall y {:trigger Common(t, done + {p}, y)} :: Common(t, done + {p}, y) ==> t.Anc(r, y)
  {
    forall q | q in done + {p}
      ensures t.Anc(q, r)
    {
      if q in done {
        AncTrans(t, q, n, r);
      }
    }
    forall y | Common(t, done + {p}, y)
      ensures t.Anc(r, y)
    {
      assert Common(t, done, y);
    }
  }

  // ----- one pass over the blocks -----

  lemma InitialInv(g: Graph, t: Tree, par: map<Block, Block>, wit: map<Block, set<Block>>)
    requires g.Valid() && Numbered(g, t.id, par) && t.root == g.Entry() && t.up == map[t.root := t.root]
    ensures Inv(g, t, par, wit)
  {
    assert t.NodeOk(t.root);
    forall b, d | b in t.up && Dom(g, d, b)
      ensures t.Anc(b, d)
    {
      assert Path(g, g.Entry(), [b], b);
      assert d in [b];
    }
  }

  ghost predicate DoneBefore(g: Graph, t: Tree, par: map<Block, Block>, rpo: seq<Block>, k: nat)
    requires t.Ok() && k <= |rpo|
  {
    forall j :: 0 <= j < k ==> rpo[j] in t.up && (rpo[j] != t.root ==> Done(t, par, rpo[j]))
  }

  ghost predicate SettledBefore(g: Graph, t: Tree, rpo: seq<Block>, k: nat)
    requires t.Ok() && k <= |rpo|
  {
    forall j :: 0 <= j < k && rpo[j] != t.root ==> rpo[j] in t.up && Settled(g, t, rpo[j])
  }

  lemma ReadyToUpdate(g: Graph, t: Tree, par: map<Block, Block>, wit: map<Block, set<Block>>, rpo: seq<Block>, k: nat)
    requires Inv(g, t, par, wit) && Descending(g, rpo, t.id) && k < |rpo| && DoneBefore(g, t, par, rpo, k)
    requires rpo[k] != t.root
    ensures rpo[k] in t.id && rpo[k] in g.pred && OwnNumber(t.id, rpo[k])
    ensures DoneFrom(t, par, t.id[rpo[k]] + 1)
    ensures LivePredSet(g, t, rpo[k]) != {}
  {
    var b := rpo[k];
    assert b in rpo;
    DescendingDistinct(g, rpo, t.id);
    forall x | x in t.id && t.id[x] >= t.id[b] + 1
      ensures x in t.up && (x != t.root ==> Done(t, par, x))
    {
      assert x in rpo;
      var j :| 0 <= j < |rpo| && rpo[j] == x;
      assert k < j ==> Before(rpo, t.id, k, j);
    }
    assert ParentOk(g, t.id, par, b);
    assert par[b] in LivePredSet(g, t, b);
  }

  lemma StepDone(g: Graph, t: Tree, par: map<Block, Block>, rpo: seq<Block>, k: nat)
    requires Context(g, t, par) && Descending(g, rpo, t.id) && k < |rpo|
    requires rpo[k] != t.root ==> rpo[k] in t.id && DoneFrom(t, par, t.id[rpo[k]])
    ensures DoneBefore(g, t, par, rpo, k + 1)
  {
    assert rpo[k] in rpo && k > 0 ==> Before(rpo, t.id, 0, k);
    forall j | 0 <= j < k
      ensures rpo[j] in t.up && (rpo[j] != t.root ==> Done(t, par, rpo[j]))
    {
      assert Before(rpo, t.id, j, k);
    }
  }

  lemma SettledNow(g: Graph, t: Tree, b: Block)
    requires g.Valid() && t.Ok() && b in t.up && b in g.pred && Meets(g, t, b, t.up[b])
    ensures Settled(g, t, b)
  {
    forall p | g.Edge(p, b) && p in t.up
      ensures t.Anc(p, t.up[b])
    {
      assert p in LivePredSet(g, t, b);
    }
  }

  lemma PassSettled(g: Graph, t: Tree, par: map<Block, Block>, rpo: seq<Block>)
    requires Context(g, t, par) && Descending(g, rpo, t.id)
    requires DoneBefore(g, t, par, rpo, |rpo|) && SettledBefore(g, t, rpo, |rpo|)
    ensures Stable(g, t) && forall x :: x in t.id ==> x in t.up
  {
    forall x | x in t.id
      ensures x in t.up && (x != t.root ==> Settled(g, t, x))
    {
      assert x in rpo;
      var j :| 0 <= j < |rpo| && rpo[j] == x;
    }
  }

  // ----- the termination measure -----

  /** How far the link of `b` still is from the root; more than that while there is no link. */
  ghost function Weight(t: Tree, b: Block): nat
    requires t.Ok()
  {
    if b in t.up && t.NodeOk(b) && t.id[t.up[b]] <= t.id[t.root] then t.id[t.root] - t.id[t.up[b]] else t.id[t.root] + 1
  }

  ghost function Rank(t: Tree, s: seq<Block>): nat
    requires t.Ok()
  {
    if s == [] then 0 else Weight(t, s[0]) + Rank(t, s[1..])
  }

  lemma {:induction false} RankLe(t: Tree, t': Tree, s: seq<Block>)
    requires t.Ok() && t'.Ok() && forall x :: x in s ==> Weight(t', x) <= Weight(t, x)
    ensures Rank(t', s) <= Rank(t, s)
    ensures (exists x :: x in s && Weight(t', x) < Weight(t, x)) ==> Rank(t', s) < Rank(t, s)
  {
    if s != [] {
      assert forall x :: x in s <==> x == s[0] || x in s[1..];
      RankLe(t, t', s[1..]);
    }
  }

  /** Every change of a link makes the measure smaller. */
  lemma RankDrops(t: Tree, t': Tree, s: seq<Block>, b: Block)
    requires t.Ok() && t'.Ok() && t'.id == t.id && t'.root == t.root
    requires b in s && b in t'.up && t'.up == t.up[b := t'.up[b]]
    requires b in t.up ==> t.NodeOk(b) && t'.up[b] != t.up[b] && t.Anc(t.up[b], t'.up[b])
    ensures Rank(t', s) < Rank(t, s)
  {
    assert t'.NodeOk(b) && t'.NodeOk(t'.up[b]);
    if b in t.up {
      AncId(t, t.up[b], t'.up[b]);
    }
    assert Weight(t', b) < Weight(t, b);
    forall x | x in s
      ensures Weight(t', x) <= Weight(t, x)
    {
      if x != b && x in t.up {
        assert t.NodeOk(x) && t'.NodeOk(x);
      }
    }
    RankLe(t, t', s);
  }

  // ----- the fixpoint -----

  /** No block would change any more. */
  ghost predicate Stable(g: Graph, t: Tree)
    requires g.Valid() && t.Ok()
  {
    forall b {:trigger Settled(g, t, b)} :: b in t.up && b != t.root ==> Settled(g, t, b)
  }

  ghost predicate Settled(g: Graph, t: Tree, b: Block)
    requires t.Ok() && b in t.up
  {
    forall p {:trigger g.Edge(p, b)} :: g.Edge(p, b) && p in t.up ==> t.Anc(p, t.up[b])
  }

  lemma {:induction false} ChainOnPath(g: Graph, t: Tree, par: map<Block, Block>, p: seq<Block>, b: Block, a: Block)
    requires Context(g, t, par) && Stable(g, t) && (forall x :: x in t.id ==> x in t.up)
    requires Path(g, t.root, p, b) && b in t.up && t.Anc(b, a)
    ensures a in p
    decreases |p|
  {
    if a != b {
      assert b != t.root;
      if |p| == 1 {
        assert false;
      } else {
        PathPrefix(g, t.root, p, b, |p| - 2);
        var q := p[..|p| - 1];
        assert q == p[..|p| - 2 + 1];
        var c := p[|p| - 2];
        assert g.Edge(c, b) && Settled(g, t, b) && t.NodeOk(b);
        assert Path(g, g.Entry(), q, c) && Reachable(g, c);
        AncTrans(t, c, t.up[b], a);
        ChainOnPath(g, t, par, q, c, a);
      }
    }
  }

  /** At the fixpoint the chain of every reachable block is its set of dominators. */
  lemma ChainIsDominators(g: Graph, t: Tree, par: map<Block, Block>, wit: map<Block, set<Block>>)
    requires Inv(g, t, par, wit) && Stable(g, t) && (forall x :: x in t.id ==> x in t.up)
    ensures forall b, a :: b in t.up ==> (t.Anc(b, a) <==> Dom(g, a, b))
  {
    forall b, a | b in t.up
      ensures t.Anc(b, a) <==> Dom(g, a, b)
    {
      if t.Anc(b, a) {
        forall p | Path(g, g.Entry(), p, b)
          ensures a in p
        {
          ChainOnPath(g, t, par, p, b, a);
        }
      }
    }
  }

  /** A finished dominator tree: it covers the reachable blocks, and the chain of a block is
      exactly its set of dominators. */
  ghost predicate Complete(g: Graph, t: Tree, par: map<Block, Block>) {
    && Context(g, t, par) && Distinct(t.id)
    && (forall b :: b in t.id <==> b in t.up)
    && (forall b, a {:trigger t.Anc(b, a)} {:trigger Dom(g, a, b)} :: b in t.up ==> (t.Anc(b, a) <==> Dom(g, a, b)))
  }
}
