/**
  Which edges have a value for the phis they lead to, and when `re_name` meets a variable
  whose stack has run empty, on which its assertion fails.
 */
module Filling {
  import opened Cfg
  import opened IdomTree
  import opened Frontier
  import opened Ir
  import opened Renaming
  import opened Rewriting
  import opened RenameSteps
  import opened PhiPlacement
  import opened SsaForm
  import opened Feeding

  // ----- edges with a value -----

  /** Some path to `b`, the block itself included, stores to `l`. */
  ghost predicate SomeStore(g: Graph, code: Code, b: Block, l: Value)
    requires g.Valid()
  {
    exists q {:trigger Path(g, g.Entry(), q, b)} :: Path(g, g.Entry(), q, b) && StoresOn(code, q, l)
  }

  lemma StoresOnMore(code: Code, q: seq<Block>, r: seq<Block>, l: Value)
    requires StoresOn(code, q, l)
    ensures StoresOn(code, q + r, l)
  {
    var j :| 0 <= j < |q| && q[j] in code && StoresTo(code[q[j]], l);
    assert (q + r)[j] == q[j];
  }

  lemma SomeStoreOn(g: Graph, code: Code, x: Block, q: seq<Block>, b: Block, l: Value)
    requires g.Valid() && SomeStore(g, code, x, l) && Path(g, x, q, b)
    ensures SomeStore(g, code, b, l)
  {
    var r :| Path(g, g.Entry(), r, x) && StoresOn(code, r, l);
    PathConcat(g, g.Entry(), r, x, q, b);
    StoresOnMore(code, r, q[1..], l);
  }

  /** What a dominator of `b` has been given on some path, `b` has been given, too. */
  lemma SomeStoreBelow(g: Graph, code: Code, x: Block, b: Block, l: Value)
    requires g.Valid() && Reachable(g, b) && Dom(g, x, b)
    requires SomeStore(g, code, x, l) || (x in code && StoresTo(code[x], l))
    ensures SomeStore(g, code, b, l)
  {
    var q :| Path(g, g.Entry(), q, b);
    var j :| 0 <= j < |q| && q[j] == x;
    PathPrefix(g, g.Entry(), q, b, j);
    if !SomeStore(g, code, x, l) {
      assert q[..j + 1][j] == x;
      assert StoresOn(code, q[..j + 1], l);
    }
    SomeStoreOn(g, code, x, q[j..], b, l);
  }

  /** A block of the iterated frontier of the stores to `l` is on a path with a store. */
  lemma IteratedHasStore(g: Graph, code: Code, b: Block, l: Value)
    requires g.Valid() && b in g.pred && InIterated(g, StoreBlocks(code, l), b)
    ensures SomeStore(g, code, b, l)
  {
    var stores := StoreBlocks(code, l);
    var r := set y | y in g.pred && SomeStore(g, code, y, l);
    forall x, y | (x in stores || x in r) && InFrontier(g, x, y)
      ensures y in r
    {
      var p: Block :| g.Edge(p, y) && Reachable(g, p) && Dom(g, x, p) && !SDom(g, x, y);
      SomeStoreBelow(g, code, x, p, l);
      SomeStoreOn(g, code, p, [p, y], y, l);
    }
    assert ClosedUnderFrontier(g, stores, r);
  }

  /** At the end of a block a variable has a value exactly if some path to there stores to it. */
  lemma ValueIffSomeStore(w: Build, b: Block, l: Value)
    requires w.Ok() && b in w.p.t.up
    ensures StackOf(w.p.Out(b).stack, l) != [] <==> SomeStore(w.g, w.code0, b, l)
  {
    if StackOf(w.p.Out(b).stack, l) != [] {
      var x := ValueHasDefinition(w, b, l);
      assert Dom(w.g, x, b) && Reachable(w.g, b) && Reachable(w.g, x);
      if !StoresTo(w.code0[x], l) {
        PhiIffIterated(w, x, l);
        ReachableInGraph(w.g, x);
        IteratedHasStore(w.g, w.code0, x, l);
      }
      SomeStoreBelow(w.g, w.code0, x, b, l);
    } else {
      forall q | Path(w.g, w.g.Entry(), q, b)
        ensures !StoresOn(w.code0, q, l)
      {
        EmptyStackNoStores(w, q, b, l);
      }
    }
  }

  // ----- when the assertion fails, by paths alone -----

  /** Where the blocks are in memory; the sets of children are iterated in this order. */
  ghost predicate Injective(address: Block -> int) {
    forall a: Block, b: Block {:trigger address(a), address(b)} :: address(a) == address(b) ==> a == b
  }

  ghost predicate IsIdom(g: Graph, n: Block, c: Block)
    requires g.Valid()
  {
    Reachable(g, c) && SDom(g, n, c) && forall d {:trigger Dom(g, d, n)} :: SDom(g, d, c) ==> Dom(g, d, n)
  }

  /** `x` and `b` part ways below `n`, `x` in the subtree of `c` and `b` in that of `d`, which comes later. */
  ghost predicate Part(g: Graph, address: Block -> int, n: Block, c: Block, d: Block, x: Block, b: Block)
    requires g.Valid()
  {
    IsIdom(g, n, c) && IsIdom(g, n, d) && Dom(g, c, x) && Dom(g, d, b) && address(c) < address(d)
  }

  /** `re_name` is through with `x` before it comes to `b`. */
  ghost predicate Sooner(g: Graph, address: Block -> int, x: Block, b: Block)
    requires g.Valid()
  {
    exists n, c, d :: Part(g, address, n, c, d, x, b)
  }

  /** `x` gives `l` a value: by a store or by a phi. */
  ghost predicate Defines(g: Graph, code: Code, x: Block, l: Value)
    requires g.Valid()
  {
    x in code && Reachable(g, x) && (StoresTo(code[x], l) || InIterated(g, StoreBlocks(code, l), x))
  }

  /** The edge from `b` leads to a phi for `l`, no path to `b` stores to `l`, but `x` defines it. */
  ghost predicate Rival(g: Graph, code: Code, b: Block, s: Block, l: Value, x: Block)
    requires g.Valid()
  {
    && Reachable(g, b) && g.Edge(b, s) && InIterated(g, StoreBlocks(code, l), s)
    && !SomeStore(g, code, b, l) && Defines(g, code, x, l)
  }

  /** The assertion fails: such an `x` has been renamed before, so that `l` has an entry in `var_val_stack`, an empty one. */
  ghost predicate AssertFails(g: Graph, code: Code, address: Block -> int)
    requires g.Valid()
  {
    exists b, s, l, x {:trigger Rival(g, code, b, s, l, x)} :: Rival(g, code, b, s, l, x) && Sooner(g, address, x, b)
  }

  /** Where every join comes after a store it never does. */
  lemma StoredFirstNeverFails(g: Graph, code: Code, address: Block -> int)
    requires g.Valid() && code.Keys == g.pred.Keys && StoredFirst(g, code)
    ensures !AssertFails(g, code, address)
  {
    forall b, s, l, x
      ensures !Rival(g, code, b, s, l, x)
    {
      if Reachable(g, b) && g.Edge(b, s) && InIterated(g, StoreBlocks(code, l), s) {
        SafeJoinHasStore(g, code, b, s, l);
      }
    }
  }

  lemma SafeJoinHasStore(g: Graph, code: Code, b: Block, s: Block, l: Value)
    requires g.Valid() && code.Keys == g.pred.Keys && StoredFirst(g, code)
    requires Reachable(g, b) && g.Edge(b, s) && InIterated(g, StoreBlocks(code, l), s)
    ensures SomeStore(g, code, b, l)
  {
    var q :| Path(g, g.Entry(), q, b);
    PathSnoc(g, g.Entry(), q, b, s);
    ReachableInGraph(g, s);
    assert JoinSafe(g, code, s, l) && (q + [s])[..|q + [s]| - 1] == q;
  }

  // ----- the order of renaming, in terms of the tree -----

  lemma IdomIsUp(g: Graph, t: Tree, par: map<Block, Block>, n: Block, c: Block)
    requires Complete(g, t, par)
    ensures IsIdom(g, n, c) <==> c in t.up && c != t.root && t.up[c] == n
  {
    EntryReachable(g);
    if c in t.up && c != t.root && t.up[c] == n {
      assert Reachable(g, c);
      IdomIsImmediate(g, t, par, c);
    }
    if IsIdom(g, n, c) {
      assert c in t.up;
      if c == t.root {
        EntryUndominated(g, n);
        assert false;
      } else {
        SameIdom(g, t, par, n, c);
      }
    }
  }

  lemma EntryUndominated(g: Graph, n: Block)
    requires g.Valid()
    ensures !SDom(g, n, g.Entry())
  {
    assert Path(g, g.Entry(), [g.Entry()], g.Entry());
    assert n in [g.Entry()] ==> n == g.Entry();
  }

  lemma EntryComesFirst(g: Graph, address: Block -> int, x: Block)
    requires g.Valid()
    ensures !Sooner(g, address, x, g.Entry())
  {
    if n, c, d :| Part(g, address, n, c, d, x, g.Entry()) {
      EntryUndominated(g, d);
      EntryUndominated(g, n);
      assert false;
    }
  }

  lemma SameIdom(g: Graph, t: Tree, par: map<Block, Block>, n: Block, c: Block)
    requires Complete(g, t, par) && IsIdom(g, n, c) && c in t.up && c != t.root
    ensures t.up[c] == n
  {
    IdomIsImmediate(g, t, par, c);
    var u := t.up[c];
    assert Dom(g, n, u) && Dom(g, u, n);
    assert t.NodeOk(c) && t.Anc(c, n);
    AncId(t, c, n);
    assert t.Anc(u, n) && t.Anc(n, u);
    AncId(t, u, n);
    if u != n {
      AncId(t, n, u);
    }
  }

  /** The children of the immediate dominator of `b` that come before `b`. */
  ghost function Siblings(p: Ssa, address: Block -> int, b: Block): set<Block>
    requires b in p.t.up
  {
    set c | c in p.t.up && c != p.t.root && p.t.up[c] == p.t.up[b] && address(c) < address(b)
  }

  /** The blocks that `re_name` has come to before `b`. */
  ghost function VisitedBefore(p: Ssa, address: Block -> int, b: Block): set<Block>
    requires p.t.Ok() && b in p.t.up
    decreases p.t.id[p.t.root] - p.t.id[b]
  {
    assert p.t.NodeOk(b);
    if b == p.t.root then {}
    else VisitedBefore(p, address, p.t.up[b]) + {p.t.up[b]} + Subtrees(p, Siblings(p, address, b))
  }

  lemma SiblingsFirst(w: Build, address: Block -> int, b: Block, x: Block)
    requires w.Ok() && b in w.p.t.up && b != w.p.t.root && x in Subtrees(w.p, Siblings(w.p, address, b))
    ensures Sooner(w.g, address, x, b)
  {
    var p := w.p;
    var c :| x in p.t.up && c in Siblings(p, address, b) && p.t.Anc(x, c);
    var n := p.t.up[b];
    IdomIsUp(w.g, p.t, w.par, n, c);
    IdomIsUp(w.g, p.t, w.par, n, b);
    assert p.t.NodeOk(b) && p.t.Anc(b, b);
    assert Dom(w.g, c, x) && Dom(w.g, b, b);
    assert Part(w.g, address, n, c, b, x, b);
  }

  lemma SoonerBelow(w: Build, address: Block -> int, u: Block, b: Block, x: Block)
    requires w.Ok() && b in w.p.t.up && u in w.p.t.up && w.p.t.Anc(b, u) && Sooner(w.g, address, x, u)
    ensures Sooner(w.g, address, x, b)
  {
    var n, c, d :| Part(w.g, address, n, c, d, x, u);
    assert w.p.t.Anc(u, d);
    AncTrans(w.p.t, b, u, d);
    assert Dom(w.g, d, b);
    assert Part(w.g, address, n, c, d, x, b);
  }

  lemma {:induction false} BeforeIsSooner(w: Build, address: Block -> int, b: Block, x: Block)
    requires w.Ok() && b in w.p.t.up && x in VisitedBefore(w.p, address, b)
    ensures x in w.p.t.up && (w.p.t.Anc(b, x) || Sooner(w.g, address, x, b))
    decreases w.p.t.id[w.p.t.root] - w.p.t.id[b]
  {
    var p := w.p;
    assert p.t.NodeOk(b) && b != p.t.root;
    var u := p.t.up[b];
    assert p.t.NodeOk(u) && p.t.Anc(u, u) && p.t.Anc(b, u);
    if x in VisitedBefore(p, address, u) {
      BeforeIsSooner(w, address, u, x);
      if p.t.Anc(u, x) {
        AncTrans(p.t, b, u, x);
      } else {
        SoonerBelow(w, address, u, b, x);
      }
    } else if x != u {
      SiblingsFirst(w, address, b, x);
    }
  }

  lemma {:induction false} SoonerIsBefore(w: Build, address: Block -> int, n: Block, c: Block, d: Block, b: Block, x: Block)
    requires w.Ok() && b in w.p.t.up && Reachable(w.g, x) && Part(w.g, address, n, c, d, x, b)
    ensures x in VisitedBefore(w.p, address, b)
    decreases w.p.t.id[w.p.t.root] - w.p.t.id[b]
  {
    var p := w.p;
    IdomIsUp(w.g, p.t, w.par, n, c);
    IdomIsUp(w.g, p.t, w.par, n, d);
    assert x in p.t.up && p.t.Anc(x, c) && p.t.Anc(b, d) && p.t.NodeOk(b) && p.t.NodeOk(d);
    AncId(p.t, b, d);
    if b == d {
      assert c in Siblings(p, address, b);
    } else {
      var u := p.t.up[b];
      assert p.t.Anc(u, d) && Dom(w.g, d, u);
      SoonerIsBefore(w, address, n, c, d, u, x);
    }
  }

  /** Of the children `ds` of a block, those outside `rest` come before those in it. */
  ghost predicate InOrder(address: Block -> int, ds: set<Block>, rest: set<Block>) {
    forall c, d {:trigger c in ds, d in rest} :: c in ds && c !in rest && d in rest ==> address(c) < address(d)
  }

  /** The next child of `b` in order of addresses. */
  lemma NextInOrder(p: Ssa, address: Block -> int, b: Block, ds: set<Block>, rest: set<Block>, d: Block)
    requires p.t.Ok() && b in p.t.up && Injective(address) && rest <= ds && d in rest
    requires forall e :: e in ds <==> e in p.t.up && e != p.t.root && p.t.up[e] == b
    requires InOrder(address, ds, rest) && forall e :: e in rest ==> address(d) <= address(e)
    ensures d in p.t.up && VisitedBefore(p, address, d) == VisitedBefore(p, address, b) + {b} + Subtrees(p, ds - rest)
    ensures InOrder(address, ds, rest - {d})
  {
    assert Siblings(p, address, d) == ds - rest;
    forall c, e | c in ds && c !in rest - {d} && e in rest - {d}
      ensures address(c) < address(e)
    {
      assert address(d) == address(e) ==> d == e;
    }
  }

  // ----- the assertion, in terms of the stacks -----

  /** The edge from `b` to `s` is asked for a value of `l`, which has an entry since `x` was renamed, and has none. */
  ghost predicate LateEdge(g: Graph, p: Ssa, address: Block -> int, b: Block, s: Block, l: Value, x: Block)
    requires p.t.Ok() && b in p.t.up
  {
    g.Edge(b, s) && HasPhi(p.Body(s), l) && StackOf(p.Out(b).stack, l) == [] && x in VisitedBefore(p, address, b) && Pushes(p.Body(x), l) > 0
  }

  ghost predicate LateAt(g: Graph, p: Ssa, address: Block -> int, b: Block)
    requires p.t.Ok()
  {
    b in p.t.up && exists s, l, x :: LateEdge(g, p, address, b, s, l, x)
  }

  ghost predicate NeverLate(g: Graph, p: Ssa, address: Block -> int, blocks: set<Block>) {
    p.t.Ok() && forall b {:trigger LateAt(g, p, address, b)} :: b in blocks ==> !LateAt(g, p, address, b)
  }

  /** What `re_name` asserts of a phi that it is about to feed: if its variable has an entry, that has a value. */
  predicate PairOk(stack: map<Value, seq<Value>>, i: Instr) {
    i.op.Phi? && i.op.lval in stack ==> stack[i.op.lval] != []
  }

  ghost predicate PairsOk(stack: map<Value, seq<Value>>, body: seq<Instr>) {
    forall k {:trigger body[k]} :: 0 <= k < |body| ==> PairOk(stack, body[k])
  }

  lemma {:induction false} KeptPairs(ref: seq<Instr>, cur: seq<Instr>, stack: map<Value, seq<Value>>)
    requires |ref| == |cur| && forall k :: 0 <= k < |ref| ==> cur[k].op == ref[k].op
    ensures PairsOk(stack, Kept(ref, cur)) <==> PairsOk(stack, ref)
  {
    if ref != [] {
      var n := |ref| - 1;
      KeptPairs(ref[..n], cur[..n], stack);
      PairsSnoc(stack, ref[..n], ref[n]);
      assert ref == ref[..n] + [ref[n]];
      if Deleted(ref[n]) {
        assert Kept(ref, cur) == Kept(ref[..n], cur[..n]);
      } else {
        PairsSnoc(stack, Kept(ref[..n], cur[..n]), cur[n]);
      }
    }
  }

  lemma PairsSnoc(stack: map<Value, seq<Value>>, body: seq<Instr>, i: Instr)
    ensures PairsOk(stack, body + [i]) <==> PairsOk(stack, body) && PairOk(stack, i)
  {
    var t := body + [i];
    assert t[|body|] == i;
    if PairsOk(stack, t) {
      forall k | 0 <= k < |body|
        ensures PairOk(stack, body[k])
      {
        assert t[k] == body[k];
      }
    }
  }

  /** Renaming and erasing do not touch the phis of a block. */
  lemma PairsNow(p: Ssa, s: Progress, code: Code, c: Block, stack: map<Value, seq<Value>>)
    requires p.t.Ok() && CodeIs(p, s, code) && c in code
    ensures PairsOk(stack, code[c]) <==> PairsOk(stack, p.Body(c))
  {
    assert BlockIs(p, s, code, c);
    var cur := TargetBody(p, s, c);
    if c in s.finished {
      KeptPairs(p.Body(c), cur, stack);
    } else {
      assert forall k :: 0 <= k < |cur| ==> cur[k].op == p.Body(c)[k].op;
      assert PairsOk(stack, cur) <==> PairsOk(stack, p.Body(c)) by {
        SamePairs(stack, cur, p.Body(c));
      }
    }
  }

  lemma SamePairs(stack: map<Value, seq<Value>>, a: seq<Instr>, b: seq<Instr>)
    requires |a| == |b| && forall k :: 0 <= k < |a| ==> a[k].op == b[k].op
    ensures PairsOk(stack, a) <==> PairsOk(stack, b)
  {
    if PairsOk(stack, a) {
      forall k | 0 <= k < |b|
        ensures PairOk(stack, b[k])
      {
        assert PairOk(stack, a[k]);
      }
    }
    if PairsOk(stack, b) {
      forall k | 0 <= k < |a|
        ensures PairOk(stack, a[k])
      {
        assert PairOk(stack, b[k]);
      }
    }
  }

  /** The assertion holds for all phis behind `b`. */
  ghost predicate FillsOk(p: Ssa, stack: map<Value, seq<Value>>, succs: seq<Block>) {
    forall i {:trigger succs[i]} :: 0 <= i < |succs| ==> PairsOk(stack, p.Body(succs[i]))
  }

  /** It does unless some edge out of `b` is late. */
  lemma FillsOkIff(g: Graph, p: Ssa, address: Block -> int, b: Block, stack: map<Value, seq<Value>>, done: set<Block>)
    requires p.t.Ok() && b in p.t.up && b in g.succ
    requires SameStacks(stack, p.Out(b).stack) && Keyed(p, stack, done) && done == VisitedBefore(p, address, b) + {b}
    ensures FillsOk(p, stack, g.succ[b]) <==> !LateAt(g, p, address, b)
  {
    if !FillsOk(p, stack, g.succ[b]) {
      var i :| 0 <= i < |g.succ[b]| && !PairsOk(stack, p.Body(g.succ[b][i]));
      EmptyIsLate(g, p, address, b, stack, done, g.succ[b][i]);
    }
    if LateAt(g, p, address, b) {
      var s, l, x :| LateEdge(g, p, address, b, s, l, x);
      var i :| 0 <= i < |g.succ[b]| && g.succ[b][i] == s;
      var k :| 0 <= k < |p.Body(s)| && p.Body(s)[k].op.Phi? && p.Body(s)[k].op.lval == l;
      assert PushedIn(p, done, l) && l in stack && StackOf(stack, l) == [];
      assert !PairOk(stack, p.Body(s)[k]);
      assert !PairsOk(stack, p.Body(g.succ[b][i]));
    }
  }

  lemma BlockEnded(g: Graph, p: Ssa, address: Block -> int, s0: Progress, s: Progress, b: Block, code: Code, stack: map<Value, seq<Value>>)
    requires p.t.Ok() && b in p.t.up && b in g.succ && RenamingAt(p, s0, s, b, |p.Body(b)|, code, stack)
    requires s0.entered == VisitedBefore(p, address, b)
    ensures s == s0.(sigma := s0.sigma + p.Out(b).sub, entered := s0.entered + {b})
    ensures SameStacks(stack, p.Out(b).stack) && Keyed(p, stack, s.entered) && Resolved(p, s, b) && Keeps(s0.sigma, s.sigma)
    ensures FillsOk(p, stack, g.succ[b]) <==> !LateAt(g, p, address, b)
  {
    EndOfBlock(p, s0, s, b);
    KeyedEnd(p, stack, s0.entered, b);
    FillsOkIff(g, p, address, b, stack, s0.entered + {b});
  }

  lemma EmptyIsLate(g: Graph, p: Ssa, address: Block -> int, b: Block, stack: map<Value, seq<Value>>, done: set<Block>, s: Block)
    requires p.t.Ok() && b in p.t.up && g.Edge(b, s)
    requires SameStacks(stack, p.Out(b).stack) && Keyed(p, stack, done) && done == VisitedBefore(p, address, b) + {b}
    requires !PairsOk(stack, p.Body(s))
    ensures LateAt(g, p, address, b)
  {
    var k :| 0 <= k < |p.Body(s)| && !PairOk(stack, p.Body(s)[k]);
    var l := p.Body(s)[k].op.lval;
    assert l in stack && StackOf(stack, l) == [];
    assert PushedIn(p, done, l);
    var x :| x in done && Pushes(p.Body(x), l) > 0;
    if x == b {
      assert p.Body(b)[..|p.Body(b)|] == p.Body(b);
      StackGrows(p, b, |p.Body(b)|, l);
      assert false;
    }
    assert LateEdge(g, p, address, b, s, l, x);
  }

  lemma PushesIffDefines(w: Build, x: Block, l: Value)
    requires w.Ok() && x in w.p.t.up
    ensures Pushes(w.p.Body(x), l) > 0 <==> Defines(w.g, w.code0, x, l)
  {
    w.SplitReachable(x);
    w.PhiIffHas(x, l);
    PhiIffIterated(w, x, l);
    var body := w.p.Body(x);
    if Defines(w.g, w.code0, x, l) {
      w.LoudBlock(x, l);
      PushesNow(w, x, l);
    } else {
      forall k | 0 <= k < |body|
        ensures !PushesTo(body[k], l)
      {
        if k >= w.N(x) {
          assert body[k] == w.code0[x][k - w.N(x)];
        }
      }
      NoPushes(body, l);
    }
  }

  lemma PushesNow(w: Build, x: Block, l: Value)
    requires w.Ok() && x in w.p.t.up && x in w.code0 && w.Split(x) && ((x, l) in w.has || StoresTo(w.code0[x], l))
    ensures Pushes(w.p.Body(x), l) > 0
  {
    w.PhiIffHas(x, l);
    var body := w.p.Body(x);
    if (x, l) in w.has {
      var k :| 0 <= k < |body| && body[k].op.Phi? && body[k].op.lval == l;
      SomePush(body, k, l);
    } else {
      var j :| 0 <= j < |w.code0[x]| && StoresLocal(w.code0[x][j]) && w.code0[x][j].args[1] == l;
      assert body[w.N(x) + j] == w.code0[x][j];
      SomePush(body, w.N(x) + j, l);
    }
  }

  lemma LateIsRival(w: Build, address: Block -> int, b: Block, s: Block, l: Value, x: Block)
    requires w.Ok() && b in w.p.t.up && LateEdge(w.g, w.p, address, b, s, l, x)
    ensures Rival(w.g, w.code0, b, s, l, x) && Sooner(w.g, address, x, b)
  {
    assert Reachable(w.g, b);
    ReachableStep(w.g, b, s);
    ReachableInGraph(w.g, s);
    w.PhiIffHas(s, l);
    PhiIffIterated(w, s, l);
    ValueIffSomeStore(w, b, l);
    BeforeIsSooner(w, address, b, x);
    PushesIffDefines(w, x, l);
    if w.p.t.Anc(b, x) {
      assert Dom(w.g, x, b);
      DefinesBelow(w, x, b, l);
      assert false;
    }
  }

  lemma DefinesBelow(w: Build, x: Block, b: Block, l: Value)
    requires w.Ok() && Defines(w.g, w.code0, x, l) && Reachable(w.g, b) && Dom(w.g, x, b)
    ensures SomeStore(w.g, w.code0, b, l)
  {
    ReachableInGraph(w.g, x);
    if !StoresTo(w.code0[x], l) {
      IteratedHasStore(w.g, w.code0, x, l);
    }
    SomeStoreBelow(w.g, w.code0, x, b, l);
  }

  lemma RivalIsLate(w: Build, address: Block -> int, b: Block, s: Block, l: Value, x: Block)
    requires w.Ok() && Rival(w.g, w.code0, b, s, l, x) && Sooner(w.g, address, x, b)
    ensures LateAt(w.g, w.p, address, b)
  {
    assert b in w.p.t.up && x in w.p.t.up;
    ReachableStep(w.g, b, s);
    ReachableInGraph(w.g, s);
    w.PhiIffHas(s, l);
    PhiIffIterated(w, s, l);
    ValueIffSomeStore(w, b, l);
    PushesIffDefines(w, x, l);
    var n, c, d :| Part(w.g, address, n, c, d, x, b);
    SoonerIsBefore(w, address, n, c, d, b, x);
    assert LateEdge(w.g, w.p, address, b, s, l, x);
  }

  /** What `re_name` sees on its way is what the paths of the input say. */
  lemma LateIffFails(w: Build, address: Block -> int)
    requires w.Ok()
    ensures NeverLate(w.g, w.p, address, w.p.t.up.Keys) <==> !AssertFails(w.g, w.code0, address)
  {
    if !NeverLate(w.g, w.p, address, w.p.t.up.Keys) {
      var b :| b in w.p.t.up && LateAt(w.g, w.p, address, b);
      var s, l, x :| LateEdge(w.g, w.p, address, b, s, l, x);
      LateIsRival(w, address, b, s, l, x);
    }
    if AssertFails(w.g, w.code0, address) {
      var b, s, l, x :| Rival(w.g, w.code0, b, s, l, x) && Sooner(w.g, address, x, b);
      RivalIsLate(w, address, b, s, l, x);
      assert b in w.p.t.up;
    }
  }

  // ----- the children of a block -----

  lemma NeverLateAdd(g: Graph, p: Ssa, address: Block -> int, ds: set<Block>, rest: set<Block>, d: Block)
    requires p.t.Ok() && rest <= ds && d in rest
    ensures NeverLate(g, p, address, Subtrees(p, ds - (rest - {d}))) <==>
            NeverLate(g, p, address, Subtrees(p, ds - rest)) && NeverLate(g, p, address, Subtree(p, d))
    ensures NeverLate(g, p, address, Subtrees(p, ds)) ==> NeverLate(g, p, address, Subtree(p, d))
  {
    assert ds - (rest - {d}) == ds - rest + {d} && ds == ds + {d};
    SubtreesAdd(p, ds - rest, d);
    SubtreesAdd(p, ds, d);
  }

  /** `ds` are the children of `b`. */
  ghost predicate Family(p: Ssa, b: Block, ds: set<Block>) {
    && p.t.Ok() && b in p.t.up && (forall e {:trigger e in ds} :: e in ds <==> e in p.t.up && e != p.t.root && p.t.up[e] == b)
    && Subtree(p, b) == {b} + Subtrees(p, ds) && b !in Subtrees(p, ds)
  }

  /** Of the children of `b`, all but `rest` are renamed, in the order of their addresses, and no assertion has failed. */
  ghost predicate ChildrenDone(g: Graph, p: Ssa, address: Block -> int, s1: Progress, s: Progress, b: Block, ds: set<Block>, rest: set<Block>) {
    && p.t.Ok() && b in p.t.up && rest <= ds && Resolved(p, s, b) && Advanced(g, p, s1, s, Subtrees(p, ds - rest))
    && InOrder(address, ds, rest) && NeverLate(g, p, address, Subtrees(p, ds - rest))
  }

  lemma NoneDone(g: Graph, p: Ssa, address: Block -> int, s1: Progress, b: Block, ds: set<Block>)
    requires p.t.Ok() && b in p.t.up && Resolved(p, s1, b)
    ensures ChildrenDone(g, p, address, s1, s1, b, ds, ds)
  {
    AdvancedNone(g, p, s1);
    assert ds - ds == {} && Subtrees(p, {}) == {};
  }

  lemma FamilyOf(g: Graph, p: Ssa, par: map<Block, Block>, children: map<Block, set<Block>>, address: Block -> int, s1: Progress, b: Block, ds: set<Block>)
    requires Ready(g, p, par, children) && b in p.t.up && ds == (if b in children then children[b] else {}) && Resolved(p, s1, b)
    ensures Family(p, b, ds) && ChildrenDone(g, p, address, s1, s1, b, ds, ds)
  {
    ChildrenOf(g, p, par, children, b, ds);
    SubtreeOfChildren(p, b, ds);
    NoneDone(g, p, address, s1, b, ds);
  }

  lemma AllDone(g: Graph, p: Ssa, address: Block -> int, s1: Progress, s: Progress, b: Block, ds: set<Block>)
    requires ChildrenDone(g, p, address, s1, s, b, ds, {})
    ensures NeverLate(g, p, address, Subtrees(p, ds)) && Advanced(g, p, s1, s, Subtrees(p, ds)) && Resolved(p, s, b)
  {
    assert ds - {} == ds;
  }

  /** Renaming comes to `b` when it has done what comes before `b`. */
  ghost predicate ComesTo(p: Ssa, address: Block -> int, s: Progress, b: Block) {
    p.t.Ok() && b in p.t.up && Subtree(p, b) !! s.entered && s.entered == VisitedBefore(p, address, b) && InResolved(p, s, b)
  }

  /** Renaming comes to the next child as it has to. */
  lemma ComeTo(g: Graph, p: Ssa, address: Block -> int, s0: Progress, s1: Progress, s: Progress, b: Block, ds: set<Block>, rest: set<Block>, d: Block)
    requires Injective(address) && Family(p, b, ds) && ChildrenDone(g, p, address, s1, s, b, ds, rest)
    requires d in rest && forall e :: e in rest ==> address(d) <= address(e)
    requires ComesTo(p, address, s0, b) && s1.entered == s0.entered + {b}
    ensures ComesTo(p, address, s, d) && p.t.id[d] < p.t.id[b] && p.In(d) == p.Out(b)
  {
    NextChild(p, s0, s1, s, b, ds, rest, d);
    NextInOrder(p, address, b, ds, rest, d);
  }

  lemma OneMoreDone(g: Graph, p: Ssa, address: Block -> int, s0: Progress, s1: Progress, s: Progress, s': Progress, b: Block, ds: set<Block>, rest: set<Block>, d: Block)
    requires Injective(address) && Family(p, b, ds) && ChildrenDone(g, p, address, s1, s, b, ds, rest)
    requires d in rest && forall e :: e in rest ==> address(d) <= address(e)
    requires ComesTo(p, address, s0, b) && s1.entered == s0.entered + {b}
    requires Advanced(g, p, s, s', Subtree(p, d)) && NeverLate(g, p, address, Subtree(p, d))
    ensures ChildrenDone(g, p, address, s1, s', b, ds, rest - {d})
  {
    NextChild(p, s0, s1, s, b, ds, rest, d);
    NextInOrder(p, address, b, ds, rest, d);
    ChildDone(g, p, s1, s, s', b, ds, rest, d);
    NeverLateAdd(g, p, address, ds, rest, d);
  }

  // ----- whatever the addresses -----

  /** Neither block dominates the other. */
  ghost predicate Apart(g: Graph, x: Block, b: Block)
    requires g.Valid()
  {
    !Dom(g, x, b) && !Dom(g, b, x)
  }

  /** The assertion can fail: it depends on the addresses of the blocks. */
  ghost predicate CanFail(g: Graph, code: Code)
    requires g.Valid()
  {
    exists b, s, l, x {:trigger Rival(g, code, b, s, l, x)} :: Rival(g, code, b, s, l, x) && Apart(g, x, b)
  }

  /** The chain of `b` leaves that of `x` at some block `d`. */
  lemma {:induction false} Fork(t: Tree, x: Block, b: Block) returns (d: Block)
    requires t.Ok() && x in t.up && b in t.up && !t.Anc(x, b)
    ensures d in t.up && d != t.root && t.NodeOk(d) && t.Anc(b, d) && !t.Anc(x, d) && t.Anc(x, t.up[d])
    decreases t.id[t.root] - t.id[b]
  {
    AncRoot(t, x);
    assert t.NodeOk(b) && b != t.root;
    if t.Anc(x, t.up[b]) {
      d := b;
    } else {
      d := Fork(t, x, t.up[b]);
    }
  }

  lemma ApartParts(w: Build, x: Block, b: Block) returns (n: Block, c: Block, d: Block)
    requires w.Ok() && x in w.p.t.up && b in w.p.t.up && Apart(w.g, x, b)
    ensures IsIdom(w.g, n, c) && IsIdom(w.g, n, d) && Dom(w.g, c, x) && Dom(w.g, d, b) && c != d
  {
    var t := w.p.t;
    assert !t.Anc(x, b) && !t.Anc(b, x);
    d := Fork(t, x, b);
    n := t.up[d];
    if x == n {
      assert t.Anc(d, n) by { assert t.NodeOk(n); }
      AncTrans(t, b, d, n);
      assert false;
    }
    c := ChildAbove(w.p, x, n);
    IdomIsUp(w.g, t, w.par, n, c);
    IdomIsUp(w.g, t, w.par, n, d);
  }

  lemma OneChild(p: Ssa, c: Block, d: Block, n: Block, x: Block)
    requires p.t.Ok() && c in p.t.up && d in p.t.up && x in p.t.up && c != p.t.root && d != p.t.root
    requires p.t.up[c] == n && p.t.up[d] == n && c != d
    ensures !(p.t.Anc(x, c) && p.t.Anc(x, d))
  {
    SiblingsDisjoint(p, {c}, d, n);
    assert p.t.Anc(x, c) ==> x in Subtrees(p, {c});
  }

  lemma PartsAreApart(w: Build, address: Block -> int, n: Block, c: Block, d: Block, x: Block, b: Block)
    requires w.Ok() && x in w.p.t.up && b in w.p.t.up && Part(w.g, address, n, c, d, x, b)
    ensures Apart(w.g, x, b)
  {
    var t := w.p.t;
    IdomIsUp(w.g, t, w.par, n, c);
    IdomIsUp(w.g, t, w.par, n, d);
    assert t.NodeOk(c) && t.NodeOk(d) && t.Anc(x, c) && t.Anc(b, d);
    if t.Anc(x, b) {
      AncTrans(t, x, b, d);
      OneChild(w.p, c, d, n, x);
      assert false;
    }
    if t.Anc(b, x) {
      AncTrans(t, b, x, c);
      OneChild(w.p, c, d, n, b);
      assert false;
    }
  }

  lemma LowerFirst(c: Block, d: Block) returns (address: Block -> int)
    requires c != d
    ensures Injective(address) && address(c) < address(d)
  {
    var rising: Block -> int, falling: Block -> int := (k: Block) => 0 + k, (k: Block) => 0 - k;
    address := if c < d then rising else falling;
  }

  lemma FailsSomewhere(w: Build, b: Block, s: Block, l: Value, x: Block) returns (address: Block -> int)
    requires w.Ok() && Rival(w.g, w.code0, b, s, l, x) && Apart(w.g, x, b)
    ensures Injective(address) && AssertFails(w.g, w.code0, address)
  {
    assert x in w.p.t.up && b in w.p.t.up;
    var n, c, d := ApartParts(w, x, b);
    address := LowerFirst(c, d);
    assert Part(w.g, address, n, c, d, x, b);
    assert Sooner(w.g, address, x, b);
  }

  /** The assertion holds wherever the blocks are in memory exactly if no block that defines the variable is apart from an
      edge without a value for it. */
  lemma FailsIffApart(w: Build)
    requires w.Ok()
    ensures CanFail(w.g, w.code0) <==> exists address: Block -> int :: Injective(address) && AssertFails(w.g, w.code0, address)
  {
    if CanFail(w.g, w.code0) {
      var b, s, l, x :| Rival(w.g, w.code0, b, s, l, x) && Apart(w.g, x, b);
      var address := FailsSomewhere(w, b, s, l, x);
    }
    if address: Block -> int :| Injective(address) && AssertFails(w.g, w.code0, address) {
      var b, s, l, x :| Rival(w.g, w.code0, b, s, l, x) && Sooner(w.g, address, x, b);
      var n, c, d :| Part(w.g, address, n, c, d, x, b);
      assert x in w.p.t.up && b in w.p.t.up;
      PartsAreApart(w, address, n, c, d, x, b);
    }
  }
}
