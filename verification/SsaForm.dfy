/**
  The code with its phis in place: that it meets the demands of renaming, and how the
  stacks relate to the stores on the paths to a block.
 */
module SsaForm {
  import opened Cfg
  import opened IdomTree
  import opened Frontier
  import opened Ir
  import opened Renaming
  import opened RenameSteps
  import opened PhiPlacement
  import D = Dominators

  // ----- the code the pass starts from -----

  /** `v` is the result of an instruction of `code`. */
  ghost predicate Refers(code: Code, site: Site, v: Value) {
    v.Result? && v.id in site && var (d, j) := site[v.id];
    d in code && j < |code[d]| && ResultOf(code[d][j]) == v && HasResult(code[d][j].op)
  }

  ghost predicate InstrIn(code: Code, site: Site, b: Block, i: nat)
    requires b in code && i < |code[b]|
  {
    var ins := code[b][i];
    && !ins.op.Phi?
    && (ins.op.Load? ==> |ins.args| == 1 && AddressOk(ins.args[0]))
    && (ins.op.Store? ==> |ins.args| == 2 && AddressOk(ins.args[1]))
    && (forall k {:trigger ins.args[k]} :: 0 <= k < |ins.args| && ins.args[k].Result? ==> Refers(code, site, ins.args[k]))
  }

  /** The definition of an operand dominates its use, and the address of a scalar variable
      serves only as the address of a load or store. */
  ghost predicate UseIn(g: Graph, code: Code, site: Site, b: Block, i: nat, k: nat)
    requires g.Valid() && b in code && i < |code[b]| && k < |code[b][i].args|
  {
    var ins := code[b][i];
    var v := ins.args[k];
    v.Result? ==>
      && v.id in site && Dom(g, site[v.id].0, b) && (site[v.id].0 == b ==> site[v.id].1 < i)
      && (v.kind == AllocaInst(true) ==> (ins.op.Load? && k == 0) || (ins.op.Store? && k == 1))
  }

  /** A block ends in a terminator whose targets are its successors. */
  ghost predicate ExitIn(g: Graph, code: Code, b: Block) {
    && b in code && code[b] != [] && IsTerminator(code[b][|code[b]| - 1])
    && forall l {:trigger g.Edge(b, l)} :: l in code[b][|code[b]| - 1].labels ==> g.Edge(b, l)
  }

  /** Code as the code generator emits it. */
  ghost predicate InputOk(g: Graph, code: Code, site: Site)
    requires g.Valid()
  {
    && code.Keys == g.pred.Keys && SitesOk(code, site)
    && (forall b, i {:trigger InstrIn(code, site, b, i)} :: b in code && 0 <= i < |code[b]| ==> InstrIn(code, site, b, i))
    && (forall b, i, k {:trigger UseIn(g, code, site, b, i, k)} ::
          b in code && Reachable(g, b) && 0 <= i < |code[b]| && 0 <= k < |code[b][i].args| ==> UseIn(g, code, site, b, i, k))
    && (forall b {:trigger ExitIn(g, code, b)} :: b in code ==> ExitIn(g, code, b))
  }

  // ----- the iterated dominance frontier, by paths alone -----

  ghost predicate ClosedUnderFrontier(g: Graph, s: set<Block>, q: set<Block>)
    requires g.Valid()
  {
    forall x, y {:trigger InFrontier(g, x, y)} :: (x in s || x in q) && InFrontier(g, x, y) ==> y in q
  }

  /** `b` is in the iterated dominance frontier of `s`: in every set that is closed. */
  ghost predicate InIterated(g: Graph, s: set<Block>, b: Block)
    requires g.Valid()
  {
    forall q {:trigger ClosedUnderFrontier(g, s, q)} :: ClosedUnderFrontier(g, s, q) ==> b in q
  }

  // ----- what has been built so far -----

  /** `p` is `code0` with the phis `has` in front of its blocks, over a finished dominator analysis. */
  datatype Build = Build(g: Graph, par: map<Block, Block>, df: map<Block, set<Block>>,
                         code0: Code, site0: Site, has: set<(Block, Value)>, p: Ssa)
  {
    ghost predicate Ok() {
      && g.Valid() && Complete(g, p.t, par) && LivePreds(g) && NoEntryPred(g)
      && (forall x, y {:trigger FrontierIs(x, y)} :: FrontierIs(x, y))
      && InputOk(g, code0, site0)
      && AllExtended(code0, p.base, has) && SitesOk(p.base, p.site)
      && (forall v {:trigger PlacedFor(df, code0, has, v)} :: PlacedFor(df, code0, has, v))
    }

    ghost predicate FrontierIs(x: Block, y: Block)
      requires p.t.Ok()
    {
      y in D.At(df, x) <==> Climbs(g, p.t, x, y)
    }

    /** The number of phis in front of `b`. */
    ghost function N(b: Block): int {
      if b in code0 && b in p.base then |p.base[b]| - |code0[b]| else 0
    }

    ghost predicate Split(b: Block)
    {
      && b in p.base && b in code0 && 0 <= N(b) <= |p.base[b]|
      && p.base[b][N(b)..] == code0[b]
      && (forall k {:trigger p.base[b][k]} :: 0 <= k < |p.base[b]| ==> (p.base[b][k].op.Phi? <==> k < N(b)))
      && (forall k {:trigger code0[b][k]} :: 0 <= k < |code0[b]| ==> p.base[b][N(b) + k] == code0[b][k])
    }

    lemma SplitBlock(b: Block)
      requires Ok() && b in code0
      ensures Split(b)
    {
      assert ExtendedAt(code0, p.base, has, b);
      forall k | 0 <= k < |code0[b]|
        ensures p.base[b][N(b) + k] == code0[b][k]
      {
        assert p.base[b][N(b)..][k] == code0[b][k];
      }
      forall k | 0 <= k < |p.base[b]|
        ensures p.base[b][k].op.Phi? <==> k < N(b)
      {
        if k >= N(b) {
          assert p.base[b][k] == code0[b][k - N(b)];
          assert InstrIn(code0, site0, b, k - N(b));
        }
      }
    }

    lemma PhiIffHas(b: Block, v: Value)
      requires Ok() && b in code0
      ensures b in p.base && (HasPhi(p.base[b], v) <==> (b, v) in has) && ((b, v) in has <==> b in PhiBlocks(has, v))
    {
      SplitBlock(b);
      assert ExtendedAt(code0, p.base, has, b);
      PhiBlocksAdd(has, b, v);
      if HasPhi(p.base[b], v) {
        var k :| 0 <= k < |p.base[b]| && p.base[b][k].op.Phi? && p.base[b][k].op.lval == v;
        assert (b, p.base[b][k].op.lval) in has;
      }
      if (b, v) in has {
        assert PhiAmong(p.base[b], N(b), v);
        var j :| 0 <= j < N(b) && p.base[b][j].op == Phi(v);
      }
    }

    /** A value that an instruction of the input refers to is found in the built code, too. */
    lemma RefersInBase(v: Value)
      requires Ok() && Refers(code0, site0, v)
      ensures p.HasSite(v) && p.site[v.id].0 == site0[v.id].0 && p.site[v.id].1 == site0[v.id].1 + N(site0[v.id].0)
      ensures site0[v.id].0 in p.base && p.base[site0[v.id].0][p.site[v.id].1] == code0[site0[v.id].0][site0[v.id].1]
    {
      var (d, j) := site0[v.id];
      SplitBlock(d);
      assert p.base[d][N(d) + j] == code0[d][j];
      assert AtSite(p.base, p.site, d, N(d) + j);
    }

    /** Only variables that some block stores to get phis. */
    lemma PhiHasStore(b: Block, v: Value) returns (d: Block, k: nat)
      requires Ok() && (b, v) in has
      ensures d in code0 && k < |code0[d]| && StoresLocal(code0[d][k]) && code0[d][k].args[1] == v
    {
      PhiBlocksAdd(has, b, v);
      assert PlacedFor(df, code0, has, v);
      assert Closed(df, {}, {});
      assert StoreBlocks(code0, v) != {};
      d :| d in StoreBlocks(code0, v);
      k :| 0 <= k < |code0[d]| && StoresLocal(code0[d][k]) && code0[d][k].args[1] == v;
    }

    lemma BaseInstr(b: Block, i: nat)
      requires Ok() && b in p.base && i < |p.Body(b)|
      ensures p.InstrOk(b, i)
    {
      SplitBlock(b);
      assert AtSite(p.base, p.site, b, i);
      var ins := p.Body(b)[i];
      if i < N(b) {
        assert ExtendedAt(code0, p.base, has, b);
        assert FreshPhi(p.base[b][i]) && (b, ins.op.lval) in has;
        var d, k := PhiHasStore(b, ins.op.lval);
        assert InstrIn(code0, site0, d, k);
        RefersInBase(ins.op.lval);
      } else {
        assert ins == code0[b][i - N(b)];
        assert InstrIn(code0, site0, b, i - N(b));
      }
    }

    lemma {:induction false} AvailableBelow(c: Block, d: Block, k: nat)
      requires p.t.Ok() && c in p.t.up && d in p.t.up && p.t.Anc(c, d) && k < |p.Body(d)|
      ensures ResultOf(p.Body(d)[k]) in p.AvailOut(c)
      decreases p.t.id[p.t.root] - p.t.id[c]
    {
      if c == d {
        assert ResultOf(p.Body(d)[k]) in Results(p.Body(d));
      } else {
        assert p.t.NodeOk(c);
        AvailableBelow(p.t.up[c], d, k);
        assert p.AvailIn(c) == p.AvailOut(p.t.up[c]);
      }
    }

    lemma BaseUse(b: Block, i: nat, k: nat)
      requires Ok() && b in p.t.up && i < |p.Body(b)| && k < |p.Body(b)[i].args|
      ensures p.UseOk(b, i, k)
    {
      assert Reachable(g, b);
      ReachableInGraph(g, b);
      SplitBlock(b);
      BaseInstr(b, i);
      var ins := p.Body(b)[i];
      var v := ins.args[k];
      assert ins == code0[b][i - N(b)];
      assert InstrIn(code0, site0, b, i - N(b)) && UseIn(g, code0, site0, b, i - N(b), k);
      if v.Result? {
        assert v == code0[b][i - N(b)].args[k];
        RefersInBase(v);
        var (d, j) := p.site[v.id];
        if d == b {
          assert p.Body(b)[..i][j] == p.Body(b)[j];
          assert ResultOf(p.Body(b)[..i][j]) in Results(p.Body(b)[..i]);
        } else {
          assert p.t.Anc(b, d) && b != p.t.root;
          StrictAncestor(g, p.t, par, b, d);
          AncId(p.t, p.t.up[b], d);
          AvailableBelow(p.t.up[b], d, j);
        }
      }
    }

    lemma SplitReachable(b: Block)
      requires Ok() && b in p.t.up
      ensures Split(b) && Reachable(g, b) && b in code0
    {
      assert Reachable(g, b);
      ReachableInGraph(g, b);
      SplitBlock(b);
    }

    lemma ArgRefers(b: Block, i: nat, k: nat)
      requires Ok() && b in p.base && i < |p.Body(b)| && k < |p.Body(b)[i].args| && p.Body(b)[i].args[k].Result?
      ensures Refers(code0, site0, p.Body(b)[i].args[k])
    {
      SplitBlock(b);
      BaseInstr(b, i);
      assert p.Body(b)[i] == code0[b][i - N(b)];
      assert InstrIn(code0, site0, b, i - N(b));
      assert code0[b][i - N(b)].args[k].Result?;
    }

    lemma RefersPlain(v: Value)
      requires Ok() && Refers(code0, site0, v)
      ensures p.HasSite(v) && var (d, j) := p.site[v.id]; HasResult(p.Body(d)[j].op) && !p.Body(d)[j].op.Phi?
    {
      RefersInBase(v);
      assert InstrIn(code0, site0, site0[v.id].0, site0[v.id].1);
    }

    /** The built code meets the demands of renaming. */
    lemma BaseOk()
      requires Ok()
      ensures p.CodeOk()
    {
      forall b, i | b in p.base && 0 <= i < |p.Body(b)|
        ensures p.InstrOk(b, i)
      {
        BaseInstr(b, i);
      }
      forall b, i, k | b in p.t.up && 0 <= i < |p.Body(b)| && 0 <= k < |p.Body(b)[i].args|
        ensures p.UseOk(b, i, k)
      {
        BaseUse(b, i, k);
      }
    }

    // ----- stacks and stores -----

    /** A block without a phi or store for `l` leaves its stack alone. */
    lemma QuietBlock(b: Block, l: Value)
      requires Ok() && b in p.t.up && b in code0 && (b, l) !in has && !StoresTo(code0[b], l)
      ensures StackOf(p.Out(b).stack, l) == StackOf(p.In(b).stack, l)
    {
      SplitBlock(b);
      PhiIffHas(b, l);
      var body := p.Body(b);
      forall k | 0 <= k < |body|
        ensures !PushesTo(body[k], l)
      {
        if k >= N(b) {
          assert body[k] == code0[b][k - N(b)];
        }
      }
      NoPushes(body, l);
      StackGrows(p, b, |body|, l);
      assert body[..|body|] == body;
    }

    /** A block with a phi or store for `l` has a value for it at its end. */
    lemma LoudBlock(b: Block, l: Value)
      requires Ok() && b in p.t.up && b in code0 && ((b, l) in has || StoresTo(code0[b], l))
      ensures StackOf(p.Out(b).stack, l) != []
    {
      SplitBlock(b);
      var body := p.Body(b);
      var k: nat;
      if (b, l) in has {
        PhiIffHas(b, l);
        k :| 0 <= k < |body| && body[k].op.Phi? && body[k].op.lval == l;
      } else {
        var j :| 0 <= j < |code0[b]| && StoresLocal(code0[b][j]) && code0[b][j].args[1] == l;
        k := N(b) + j;
        assert body[k] == code0[b][j];
      }
      SomePush(body, k, l);
      StackGrows(p, b, |body|, l);
      assert body[..|body|] == body;
    }

    /** `x` dominates the predecessor `pr` of `s` and lies below idom(s): if it has a phi or
        store for `l`, then `s` has a phi. */
    lemma DefinitionNeedsPhi(pr: Block, s: Block, x: Block, l: Value)
      requires Ok() && g.Edge(pr, s) && pr in p.t.up && s in p.t.up && s != p.t.root
      requires p.t.Anc(pr, x) && x in code0 && p.t.NodeOk(s) && !p.t.Anc(p.t.up[s], x)
      requires (x, l) in has || StoresTo(code0[x], l)
      ensures (s, l) in has
    {
      StrictAncestor(g, p.t, par, s, x);
      assert Reachable(g, pr) && Reachable(g, s);
      assert InFrontier(g, x, s);
      ClimbsIsFrontier(g, p.t, par, x, s);
      assert FrontierIs(x, s) && PlacedFor(df, code0, has, l);
      PhiBlocksAdd(has, x, l);
      assert x in StoreBlocks(code0, l) || x in PhiBlocks(has, l);
      assert D.At(df, x) <= PhiBlocks(has, l);
      PhiBlocksAdd(has, s, l);
    }

    lemma {:induction false} StableClimb(pr: Block, s: Block, x: Block, l: Value)
      requires Ok() && g.Edge(pr, s) && pr in p.t.up && s in p.t.up && s != p.t.root && (s, l) !in has
      requires p.t.NodeOk(s) && x in p.t.up && p.t.Anc(pr, x) && p.t.Anc(x, p.t.up[s])
      ensures StackOf(p.Out(x).stack, l) == StackOf(p.In(s).stack, l)
      decreases p.t.id[p.t.root] - p.t.id[x]
    {
      if x == p.t.up[s] {
        assert p.In(s) == p.Out(x);
      } else {
        assert p.t.NodeOk(x);
        AncId(p.t, x, p.t.up[s]);
        if p.t.Anc(p.t.up[s], x) {
          AncId(p.t, p.t.up[s], x);
        }
        assert Reachable(g, x);
        ReachableInGraph(g, x);
        if (x, l) in has || StoresTo(code0[x], l) {
          DefinitionNeedsPhi(pr, s, x, l);
        }
        QuietBlock(x, l);
        AncTrans(p.t, pr, x, p.t.up[x]);
        StableClimb(pr, s, p.t.up[x], l);
        assert p.In(x) == p.Out(p.t.up[x]);
      }
    }

    /** Phi placement: a block without a phi for `l` finds the same values of `l` at the end of
        every reachable predecessor, namely those at the end of its immediate dominator. */
    lemma PhiPlacementLemma(pr: Block, s: Block, l: Value)
      requires Ok() && g.Edge(pr, s) && pr in p.t.up && s in p.t.up && (s, l) !in has
      ensures StackOf(p.Out(pr).stack, l) == StackOf(p.In(s).stack, l)
    {
      assert pr in g.pred[s] && s != p.t.root;
      IdomAbovePred(g, p.t, par, pr, s);
      assert p.t.NodeOk(pr);
      StableClimb(pr, s, pr, l);
    }
  }
}
