/**
  When renaming never meets an empty stack: exactly when every path stores to a
  variable before it reaches a load of it or a join in its iterated dominance frontier.
 */
module Feeding {
  import opened Cfg
  import opened IdomTree
  import opened Frontier
  import opened Ir
  import opened Renaming
  import opened RenameSteps
  import opened PhiPlacement
  import opened SsaForm
  import D = Dominators

  // ----- the condition on the input -----

  /** Block `b` is entered only after a store to `v`. */
  ghost predicate StoredOnEntry(g: Graph, code: Code, v: Value, b: Block)
    requires g.Valid()
  {
    forall q {:trigger Path(g, g.Entry(), q, b)} :: Path(g, g.Entry(), q, b) ==> StoresOn(code, q[..|q| - 1], v)
  }

  ghost predicate StoresOn(code: Code, q: seq<Block>, v: Value) {
    exists j :: 0 <= j < |q| && q[j] in code && StoresTo(code[q[j]], v)
  }

  ghost predicate LoadSafe(g: Graph, code: Code, b: Block, i: nat)
    requires g.Valid() && b in code && i < |code[b]|
  {
    LoadsLocal(code[b][i]) ==> StoresTo(code[b][..i], code[b][i].args[0]) || StoredOnEntry(g, code, code[b][i].args[0], b)
  }

  ghost predicate JoinSafe(g: Graph, code: Code, b: Block, v: Value)
    requires g.Valid()
  {
    InIterated(g, StoreBlocks(code, v), b) ==> StoredOnEntry(g, code, v, b)
  }

  /** Every path stores to a variable before it reaches a load of it. */
  ghost predicate LoadsSafe(g: Graph, code: Code)
    requires g.Valid() && code.Keys == g.pred.Keys
  {
    forall b, i {:trigger LoadSafe(g, code, b, i)} :: b in code && Reachable(g, b) && 0 <= i < |code[b]| ==> LoadSafe(g, code, b, i)
  }

  /** And before it reaches a join that gets a phi for it. */
  ghost predicate StoredFirst(g: Graph, code: Code)
    requires g.Valid() && code.Keys == g.pred.Keys
  {
    && LoadsSafe(g, code)
    && (forall b, v {:trigger JoinSafe(g, code, b, v)} :: b in code && Reachable(g, b) ==> JoinSafe(g, code, b, v))
  }

  // ----- the condition on the stacks -----

  /** Every reachable predecessor of a block with a phi has a value for it. */
  ghost predicate PhiFed(w: Build, pr: Block, s: Block, l: Value)
    requires w.p.t.Ok()
  {
    w.g.Edge(pr, s) && pr in w.p.t.up && (s, l) in w.has ==> StackOf(w.p.Out(pr).stack, l) != []
  }

  ghost predicate PhisFed(w: Build)
    requires w.p.t.Ok()
  {
    forall pr, s, l {:trigger PhiFed(w, pr, s, l)} :: PhiFed(w, pr, s, l)
  }

  // ----- phis are exactly the iterated dominance frontier -----

  lemma PhiIffIterated(w: Build, b: Block, v: Value)
    requires w.Ok() && Reachable(w.g, b)
    ensures (b, v) in w.has <==> InIterated(w.g, StoreBlocks(w.code0, v), b)
  {
    var g, df, t := w.g, w.df, w.p.t;
    var s, q := StoreBlocks(w.code0, v), PhiBlocks(w.has, v);
    assert PlacedFor(df, w.code0, w.has, v);
    PhiBlocksAdd(w.has, b, v);
    if b in q {
      forall r | ClosedUnderFrontier(g, s, r)
        ensures b in r
      {
        var r' := r + (set x | x in g.pred && !Reachable(g, x));
        forall x | x in s || x in r'
          ensures D.At(df, x) <= r'
        {
          forall y | y in D.At(df, x)
            ensures y in r'
          {
            FrontierStep(w, s, r, x, y);
          }
        }
        assert Closed(df, s, r');
      }
    }
    if InIterated(g, s, b) {
      forall x, y | (x in s || x in q) && InFrontier(g, x, y)
        ensures y in q
      {
        var p: Block :| g.Edge(p, y) && Reachable(g, p) && Dom(g, x, p) && !SDom(g, x, y);
        ReachableStep(g, p, y);
        assert p in g.pred[y] && y != g.Entry();
        ClimbsIsFrontier(g, t, w.par, x, y);
        assert w.FrontierIs(x, y);
        assert D.At(df, x) <= q;
      }
      assert ClosedUnderFrontier(g, s, q);
    }
  }

  lemma FrontierStep(w: Build, s: set<Block>, r: set<Block>, x: Block, y: Block)
    requires w.Ok() && ClosedUnderFrontier(w.g, s, r)
    requires x in s || x in r || !Reachable(w.g, x)
    requires y in D.At(w.df, x)
    ensures y in r || (y in w.g.pred && !Reachable(w.g, y))
  {
    var g, t := w.g, w.p.t;
    assert w.FrontierIs(x, y);
    if Reachable(g, y) {
      var p :| p in g.pred[y] && Passes(t, p, y, x);
      assert g.Edge(p, y) && Reachable(g, p);
      assert p in t.up && y in t.up;
      AncId(t, p, x);
      assert Reachable(g, x);
      assert y != g.Entry();
      ClimbsIsFrontier(g, t, w.par, x, y);
    }
  }

  // ----- an empty stack means no store on any path -----

  lemma {:induction false} EmptyStackNoStores(w: Build, q: seq<Block>, b: Block, l: Value)
    requires w.Ok() && Path(w.g, w.g.Entry(), q, b) && b in w.p.t.up
    requires StackOf(w.p.Out(b).stack, l) == []
    ensures !StoresOn(w.code0, q, l)
    decreases |q|
  {
    assert Reachable(w.g, b);
    ReachableInGraph(w.g, b);
    if (b, l) in w.has || StoresTo(w.code0[b], l) {
      w.LoudBlock(b, l);
    }
    w.QuietBlock(b, l);
    BeforeEmptyStack(w, q, b, l);
    StoresOnLast(w.code0, q, l);
  }

  lemma StoresOnLast(code: Code, q: seq<Block>, v: Value)
    requires q != []
    ensures StoresOn(code, q, v) <==> StoresOn(code, q[..|q| - 1], v) || (q[|q| - 1] in code && StoresTo(code[q[|q| - 1]], v))
  {
    var r := q[..|q| - 1];
    if StoresOn(code, q, v) {
      var j :| 0 <= j < |q| && q[j] in code && StoresTo(code[q[j]], v);
      assert j < |q| - 1 ==> r[j] == q[j];
    }
    if StoresOn(code, r, v) {
      var j :| 0 <= j < |r| && r[j] in code && StoresTo(code[r[j]], v);
      assert q[j] == r[j];
    }
  }

  /** If the stack is empty on entry to a block without a phi, no path to it stores. */
  lemma {:induction false} BeforeEmptyStack(w: Build, q: seq<Block>, b: Block, l: Value)
    requires w.Ok() && Path(w.g, w.g.Entry(), q, b) && b in w.p.t.up
    requires StackOf(w.p.In(b).stack, l) == [] && (b, l) !in w.has
    ensures !StoresOn(w.code0, q[..|q| - 1], l)
    decreases |q|, 0
  {
    if |q| > 1 {
      var n := |q| - 2;
      PathPrefix(w.g, w.g.Entry(), q, b, n);
      assert q[..n + 1] == q[..|q| - 1];
      assert w.g.Edge(q[n], b) && Reachable(w.g, q[n]) && Reachable(w.g, b);
      w.PhiPlacementLemma(q[n], b, l);
      EmptyStackNoStores(w, q[..n + 1], q[n], l);
    }
  }

  /** A store in the block itself feeds what follows. */
  lemma FedByStore(w: Build, b: Block, i: nat, l: Value)
    requires b in w.code0 && w.N(b) <= i < |w.p.Body(b)| && w.Split(b)
    requires StoresTo(w.code0[b][..i - w.N(b)], l)
    ensures Pushes(w.p.Body(b)[..i], l) > 0
  {
    var n, body := w.N(b), w.p.Body(b)[..i];
    var k :| 0 <= k < i - n && StoresLocal(w.code0[b][..i - n][k]) && w.code0[b][..i - n][k].args[1] == l;
    assert body[n + k] == w.code0[b][k];
    SomePush(body, n + k, l);
  }

  /** So does a phi. */
  lemma FedByPhi(w: Build, b: Block, i: nat, l: Value)
    requires b in w.code0 && w.N(b) <= i < |w.p.Body(b)| && w.Split(b)
    requires HasPhi(w.p.Body(b), l)
    ensures Pushes(w.p.Body(b)[..i], l) > 0
  {
    var body := w.p.Body(b)[..i];
    var k :| 0 <= k < |w.p.Body(b)| && w.p.Body(b)[k].op.Phi? && w.p.Body(b)[k].op.lval == l;
    assert body[k] == w.p.Body(b)[k];
    SomePush(body, k, l);
  }

  lemma SafeLoadsAreFed(w: Build, b: Block, i: nat)
    requires w.Ok() && LoadsSafe(w.g, w.code0) && b in w.p.t.up && i < |w.p.Body(b)|
    ensures w.p.LoadFed(b, i)
  {
    assert Reachable(w.g, b);
    ReachableInGraph(w.g, b);
    w.SplitBlock(b);
    var ins := w.p.Body(b)[i];
    if LoadsLocal(ins) {
      var l := ins.args[0];
      var j := i - w.N(b);
      assert ins == w.code0[b][j];
      assert LoadSafe(w.g, w.code0, b, j);
      StackGrows(w.p, b, i, l);
      if StoresTo(w.code0[b][..j], l) {
        FedByStore(w, b, i, l);
      } else if (b, l) in w.has {
        w.PhiIffHas(b, l);
        FedByPhi(w, b, i, l);
      } else if StackOf(w.p.In(b).stack, l) == [] {
        var q :| Path(w.g, w.g.Entry(), q, b);
        BeforeEmptyStack(w, q, b, l);
        assert false;
      }
    }
  }

  lemma LoadsAreFed(w: Build)
    requires w.Ok() && LoadsSafe(w.g, w.code0)
    ensures w.p.LoadsFed()
  {
    forall b, i | b in w.p.t.up && 0 <= i < |w.p.Body(b)|
      ensures w.p.LoadFed(b, i)
    {
      SafeLoadsAreFed(w, b, i);
    }
  }

  lemma SafeJoinsAreFed(w: Build, pr: Block, s: Block, l: Value)
    requires w.Ok() && StoredFirst(w.g, w.code0)
    ensures PhiFed(w, pr, s, l)
  {
    var g := w.g;
    if g.Edge(pr, s) && pr in w.p.t.up && (s, l) in w.has && StackOf(w.p.Out(pr).stack, l) == [] {
      assert Reachable(g, pr);
      ReachableStep(g, pr, s);
      ReachableInGraph(g, s);
      PhiIffIterated(w, s, l);
      assert JoinSafe(g, w.code0, s, l);
      var q :| Path(g, g.Entry(), q, pr);
      PathSnoc(g, g.Entry(), q, pr, s);
      assert (q + [s])[..|q + [s]| - 1] == q;
      EmptyStackNoStores(w, q, pr, l);
      assert false;
    }
  }

  // ----- the converse -----

  /** If a block has a value for `l` at its end, it or a dominator of it has a phi or store. */
  lemma {:induction false} ValueHasDefinition(w: Build, b: Block, l: Value) returns (x: Block)
    requires w.Ok() && b in w.p.t.up && StackOf(w.p.Out(b).stack, l) != []
    ensures x in w.p.t.up && x in w.code0 && w.p.t.Anc(b, x) && ((x, l) in w.has || StoresTo(w.code0[x], l))
    decreases w.p.t.id[w.p.t.root] - w.p.t.id[b]
  {
    assert Reachable(w.g, b) && w.p.t.NodeOk(b);
    ReachableInGraph(w.g, b);
    if (b, l) in w.has || StoresTo(w.code0[b], l) {
      x := b;
    } else {
      w.QuietBlock(b, l);
      assert b != w.p.t.root;
      assert w.p.In(b) == w.p.Out(w.p.t.up[b]);
      x := ValueHasDefinition(w, w.p.t.up[b], l);
    }
  }

  /** When all phis are fed, a phi block is reached only past a store. */
  lemma {:induction false} FedPhiStoredBefore(w: Build, q: seq<Block>, s: Block, l: Value)
    requires w.Ok() && PhisFed(w) && Path(w.g, w.g.Entry(), q, s) && s in w.p.t.up && (s, l) in w.has
    ensures StoresOn(w.code0, q[..|q| - 1], l)
    decreases |q|, 0
  {
    var g := w.g;
    NoPhiInEntry(w, l);
    assert |q| > 1;
    var n := |q| - 2;
    PathPrefix(g, g.Entry(), q, s, n);
    assert g.Edge(q[n], s) && Reachable(g, q[n]);
    assert PhiFed(w, q[n], s, l);
    DefinitionOnPath(w, q[..n + 1], q[n], l);
    assert q[..n + 1] == q[..|q| - 1];
  }

  lemma {:induction false} DefinitionOnPath(w: Build, q: seq<Block>, b: Block, l: Value)
    requires w.Ok() && PhisFed(w) && Path(w.g, w.g.Entry(), q, b) && b in w.p.t.up && StackOf(w.p.Out(b).stack, l) != []
    ensures StoresOn(w.code0, q, l)
    decreases |q|, 1
  {
    var x := ValueHasDefinition(w, b, l);
    assert Dom(w.g, x, b);
    var j :| 0 <= j < |q| && q[j] == x;
    if !StoresTo(w.code0[x], l) {
      PathPrefix(w.g, w.g.Entry(), q, b, j);
      FedPhiStoredBefore(w, q[..j + 1], x, l);
      var i :| 0 <= i < j && q[..j + 1][..j][i] in w.code0 && StoresTo(w.code0[q[..j + 1][..j][i]], l);
      assert q[i] == q[..j + 1][..j][i];
    }
  }

  lemma NoPhiInEntry(w: Build, l: Value)
    requires w.Ok()
    ensures (w.g.Entry(), l) !in w.has
  {
    var e := w.g.Entry();
    var q := PhiBlocks(w.has, l);
    assert PlacedFor(w.df, w.code0, w.has, l);
    forall x | x in StoreBlocks(w.code0, l) || x in q - {e}
      ensures D.At(w.df, x) <= q - {e}
    {
      assert D.At(w.df, x) <= q;
      assert w.FrontierIs(x, e);
    }
    assert Closed(w.df, StoreBlocks(w.code0, l), q - {e});
    PhiBlocksAdd(w.has, e, l);
  }

  lemma FedLoadsAreSafe(w: Build, b: Block, i: nat)
    requires w.Ok() && w.p.LoadsFed() && PhisFed(w) && b in w.code0 && Reachable(w.g, b) && i < |w.code0[b]|
    ensures LoadSafe(w.g, w.code0, b, i)
  {
    var ins := w.code0[b][i];
    var l := if LoadsLocal(ins) then ins.args[0] else ConstantInt(0);
    w.SplitBlock(b);
    var j := w.N(b) + i;
    assert w.p.LoadFed(b, j);
    if LoadsLocal(ins) && !StoresTo(w.code0[b][..i], l) {
      forall q | Path(w.g, w.g.Entry(), q, b)
        ensures StoresOn(w.code0, q[..|q| - 1], l)
      {
        if (b, l) in w.has {
          FedPhiStoredBefore(w, q, b, l);
        } else {
          QuietPrefix(w, b, i, l);
          assert b != w.p.t.root && w.p.t.NodeOk(b);
          StoredBelow(w, q, b, l);
        }
      }
    }
  }

  lemma QuietPrefix(w: Build, b: Block, i: nat, l: Value)
    requires w.Ok() && b in w.p.t.up && b in w.code0 && i <= |w.code0[b]| && (b, l) !in w.has && !StoresTo(w.code0[b][..i], l)
    ensures 0 <= w.N(b) && w.N(b) + i <= |w.p.Body(b)| && StackOf(w.p.At(b, w.N(b) + i).stack, l) == StackOf(w.p.In(b).stack, l)
  {
    w.SplitBlock(b);
    w.PhiIffHas(b, l);
    var body := w.p.Body(b)[..w.N(b) + i];
    forall k | 0 <= k < |body|
      ensures !PushesTo(body[k], l)
    {
      assert body[k] == w.p.Body(b)[k];
      if k >= w.N(b) {
        assert body[k] == w.code0[b][k - w.N(b)] == w.code0[b][..i][k - w.N(b)];
      }
    }
    NoPushes(body, l);
    StackGrows(w.p, b, w.N(b) + i, l);
  }

  lemma StoredBelow(w: Build, q: seq<Block>, b: Block, l: Value)
    requires w.Ok() && PhisFed(w) && Path(w.g, w.g.Entry(), q, b) && b in w.p.t.up && b != w.p.t.root
    requires StackOf(w.p.In(b).stack, l) != [] && (b, l) !in w.has
    ensures StoresOn(w.code0, q[..|q| - 1], l)
  {
    assert |q| > 1;
    var n := |q| - 2;
    PathPrefix(w.g, w.g.Entry(), q, b, n);
    assert w.g.Edge(q[n], b) && Reachable(w.g, q[n]);
    w.PhiPlacementLemma(q[n], b, l);
    DefinitionOnPath(w, q[..n + 1], q[n], l);
    assert q[..n + 1] == q[..|q| - 1];
  }

  lemma FedJoinsAreSafe(w: Build, b: Block, v: Value)
    requires w.Ok() && PhisFed(w) && Reachable(w.g, b)
    ensures JoinSafe(w.g, w.code0, b, v)
  {
    if InIterated(w.g, StoreBlocks(w.code0, v), b) {
      PhiIffIterated(w, b, v);
      forall q | Path(w.g, w.g.Entry(), q, b)
        ensures StoresOn(w.code0, q[..|q| - 1], v)
      {
        FedPhiStoredBefore(w, q, b, v);
      }
    }
  }

  /** Renaming finds a value for every load and for every edge into a phi exactly when the
      input stores to each variable before its loads and its joins on every path. */
  lemma FedIffStoredFirst(w: Build)
    requires w.Ok()
    ensures w.p.LoadsFed() && PhisFed(w) <==> StoredFirst(w.g, w.code0)
  {
    if StoredFirst(w.g, w.code0) {
      LoadsAreFed(w);
      forall pr, s, l
        ensures PhiFed(w, pr, s, l)
      {
        SafeJoinsAreFed(w, pr, s, l);
      }
    }
    if w.p.LoadsFed() && PhisFed(w) {
      forall b, i | b in w.code0 && Reachable(w.g, b) && 0 <= i < |w.code0[b]|
        ensures LoadSafe(w.g, w.code0, b, i)
      {
        FedLoadsAreSafe(w, b, i);
      }
      forall b, v | b in w.code0 && Reachable(w.g, b)
        ensures JoinSafe(w.g, w.code0, b, v)
      {
        FedJoinsAreSafe(w, b, v);
      }
    }
  }
}
