/**
  The code generator only ever builds well-formed control-flow graphs.
 */
module Emitted {
  import opened Options
  import opened Syntax
  import opened Cfg
  import I = Ir
  import opened Meaning
  import opened Generator

  // ----- well-formed blocks -----

  predicate IsClosed(body: seq<I.Instr>) {
    body != [] && I.IsTerminator(body[|body| - 1])
  }

  /** The targets of the terminator in the order in which the branch constructors file them. */
  function Targets(body: seq<I.Instr>): seq<Block> {
    if !IsClosed(body) then []
    else
      var i := body[|body| - 1];
      if i.op.CondBr? && |i.labels| == 2 then [i.labels[1], i.labels[0]] else i.labels
  }

  /** No terminator before the end, no phi, and the successor list is what the terminator says. */
  ghost predicate BlockOk(st: Gen, b: Block) {
    && b in st.code && b in st.g.succ && b in st.g.pred && b < |st.g.blocks| && st.g.blocks[b] == b
    && (forall k {:trigger st.code[b][k]} :: 0 <= k < |st.code[b]| ==>
          (k < |st.code[b]| - 1 ==> !I.IsTerminator(st.code[b][k])) && !st.code[b][k].op.Phi? && st.code[b][k].id < st.nextId)
    && st.g.succ[b] == Targets(st.code[b])
    && (forall t {:trigger t in st.g.succ[b]} :: t in st.g.succ[b] ==> t in st.code)
  }

  ghost predicate EdgeOk(g: Graph, a: Block, b: Block) {
    multiset(Edges(g.pred, b))[a] == multiset(Edges(g.succ, a))[b]
  }

  /** Predecessor and successor lists agree, repetitions included. */
  ghost predicate EdgesOk(g: Graph) {
    forall a, b {:trigger EdgeOk(g, a, b)} :: EdgeOk(g, a, b)
  }

  lemma CountAppend(s: seq<Block>, x: Block, y: Block)
    ensures multiset(s + [y])[x] == multiset(s)[x] + if x == y then 1 else 0
  {
  }

  lemma LinkEdges(st: Gen, to: Block)
    requires EdgesOk(st.g)
    ensures EdgesOk(st.Link(to).g)
  {
    var r := st.Link(to).g;
    forall a, b
      ensures EdgeOk(r, a, b)
    {
      assert EdgeOk(st.g, a, b);
      CountAppend(Edges(st.g.pred, to), a, st.cur);
      CountAppend(Edges(st.g.succ, st.cur), b, to);
    }
  }

  ghost predicate GraphOk(st: Gen) {
    && st.code.Keys == st.g.pred.Keys == st.g.succ.Keys && st.cur in st.code
    && (forall b {:trigger BlockOk(st, b)} :: b in st.code ==> BlockOk(st, b))
    && (forall k: nat {:trigger Listed(st, k)} :: k < |st.g.blocks| ==> Listed(st, k))
    && EdgesOk(st.g)
  }

  ghost predicate Listed(st: Gen, k: nat) {
    k in st.code
  }

  // ----- how the state changes -----

  ghost predicate PrefixAt(st: Gen, st': Gen, b: Block) {
    b in st.code && b in st'.code && st.code[b] <= st'.code[b]
  }

  ghost predicate SameBody(st: Gen, st': Gen, b: Block) {
    b in st.code && b in st'.code && st'.code[b] == st.code[b]
  }

  ghost predicate SamePreds(st: Gen, st': Gen, b: Block) {
    b in st.g.pred && b in st'.g.pred && st'.g.pred[b] == st.g.pred[b]
  }

  /** Blocks only grow; those outside `s` do not change, and those outside `t` get no new predecessor. */
  ghost predicate Step(st: Gen, st': Gen, s: set<Block>, t: set<Block>) {
    && st.nextId <= st'.nextId && st.homes <= st'.homes && st'.ret == st.ret
    && (forall b {:trigger PrefixAt(st, st', b)} :: b in st.code ==> PrefixAt(st, st', b))
    && (forall b {:trigger SameBody(st, st', b)} :: b in st.code && b !in s ==> SameBody(st, st', b))
    && (forall b {:trigger SamePreds(st, st', b)} :: b in st.code && b !in t ==> SamePreds(st, st', b))
  }

  lemma StepTrans(a: Gen, b: Gen, c: Gen, s1: set<Block>, t1: set<Block>, s2: set<Block>, t2: set<Block>)
    requires Step(a, b, s1, t1) && Step(b, c, s2, t2)
    ensures Step(a, c, s1 + s2, t1 + t2)
  {
    forall x | x in a.code
      ensures PrefixAt(a, c, x) && (x !in s1 + s2 ==> SameBody(a, c, x)) && (x !in t1 + t2 ==> SamePreds(a, c, x))
    {
      assert PrefixAt(a, b, x) && PrefixAt(b, c, x);
      assert x !in s1 ==> SameBody(a, b, x);
      assert x !in s2 ==> SameBody(b, c, x);
      assert x !in t1 ==> SamePreds(a, b, x);
      assert x !in t2 ==> SamePreds(b, c, x);
    }
  }

  lemma StepWeaken(a: Gen, b: Gen, s: set<Block>, t: set<Block>, s': set<Block>, t': set<Block>)
    requires Step(a, b, s, t) && s * a.code.Keys <= s' && t * a.code.Keys <= t'
    ensures Step(a, b, s', t')
  {
    forall x | x in a.code
      ensures (x !in s' ==> SameBody(a, b, x)) && (x !in t' ==> SamePreds(a, b, x))
    {
      assert x !in s ==> SameBody(a, b, x);
      assert x !in t ==> SamePreds(a, b, x);
    }
  }

  // ----- single operations -----

  lemma ListedStill(st: Gen, r: Gen)
    requires GraphOk(st) && r.g.blocks == st.g.blocks && r.code.Keys == st.code.Keys
    ensures forall k: nat {:trigger Listed(r, k)} :: k < |r.g.blocks| ==> Listed(r, k)
  {
    forall k: nat | k < |r.g.blocks|
      ensures Listed(r, k)
    {
      assert Listed(st, k);
    }
  }

  /** Appending an instruction that goes with the successor list. */
  lemma AppendOk(st: Gen, g: Graph, i: I.Instr)
    requires GraphOk(st) && !st.Terminated() && !i.op.Phi? && i.id == st.nextId
    requires g.blocks == st.g.blocks && g.pred.Keys == st.g.pred.Keys && EdgesOk(g)
    requires g.succ == st.g.succ[st.cur := Targets([i])] && forall t :: t in Targets([i]) ==> t in st.code
    ensures GraphOk(st.(g := g).Append(i)) && st.(g := g).Append(i).Terminated() == I.IsTerminator(i)
  {
    var r := st.(g := g).Append(i);
    assert BlockOk(st, st.cur);
    assert Targets(r.code[st.cur]) == Targets([i]);
    forall b | b in r.code
      ensures BlockOk(r, b)
    {
      assert BlockOk(st, b);
    }
    ListedStill(st, r);
  }

  lemma AppendStep(st: Gen, g: Graph, i: I.Instr, t: set<Block>)
    requires st.cur in st.code && st.code.Keys == st.g.pred.Keys && g.pred.Keys == st.g.pred.Keys
    requires forall b :: b in st.g.pred && b !in t ==> g.pred[b] == st.g.pred[b]
    ensures Step(st, st.(g := g).Append(i), {st.cur}, t)
  {
  }

  lemma EmitOk(st: Gen, op: I.Op, args: seq<I.Value>)
    requires GraphOk(st) && !st.Terminated() && !op.Br? && !op.CondBr? && !op.Phi?
    ensures GraphOk(st.Emit(op, args)) && Step(st, st.Emit(op, args), {st.cur}, {})
    ensures st.Emit(op, args).Terminated() == op.Ret?
  {
    var i := I.Instr(st.nextId, op, args, []);
    assert BlockOk(st, st.cur);
    assert st.g.succ == st.g.succ[st.cur := Targets([i])];
    AppendOk(st, st.g, i);
    AppendStep(st, st.g, i, {});
  }

  lemma FreshIsNew(st: Gen)
    requires GraphOk(st)
    ensures st.Fresh() !in st.code && st.Fresh() !in st.g.pred && st.Fresh() !in st.g.succ
  {
    assert st.Fresh() in st.code ==> BlockOk(st, st.Fresh());
  }

  lemma NewBlockBlocks(st: Gen, b: Block)
    requires GraphOk(st) && b in st.NewBlock().code
    ensures BlockOk(st.NewBlock(), b)
  {
    FreshIsNew(st);
    if b in st.code {
      assert BlockOk(st, b);
    }
  }

  lemma NewBlockEdges(st: Gen)
    requires GraphOk(st)
    ensures EdgesOk(st.NewBlock().g)
  {
    FreshIsNew(st);
    var g, r := st.g, st.NewBlock().g;
    forall a, b
      ensures EdgeOk(r, a, b)
    {
      assert EdgeOk(g, a, b);
      assert Edges(r.pred, b) == Edges(g.pred, b) && Edges(r.succ, a) == Edges(g.succ, a);
    }
  }

  lemma NewBlockStep(st: Gen)
    requires GraphOk(st)
    ensures var r := st.NewBlock();
            Step(st, r, {}, {}) && st.Fresh() !in st.code && r.code[st.Fresh()] == [] && r.g.pred[st.Fresh()] == []
  {
    FreshIsNew(st);
  }

  lemma NewBlockListed(st: Gen, k: nat)
    requires GraphOk(st) && k < |st.NewBlock().g.blocks|
    ensures Listed(st.NewBlock(), k)
  {
    assert k < |st.g.blocks| ==> Listed(st, k);
  }

  lemma NewBlockOk(st: Gen)
    requires GraphOk(st)
    ensures var r := st.NewBlock();
            GraphOk(r) && Step(st, r, {}, {}) && st.Fresh() !in st.code && r.code[st.Fresh()] == [] && r.g.pred[st.Fresh()] == []
  {
    var r := st.NewBlock();
    forall b | b in r.code
      ensures BlockOk(r, b)
    {
      NewBlockBlocks(st, b);
    }
    forall k: nat | k < |r.g.blocks|
      ensures Listed(r, k)
    {
      NewBlockListed(st, k);
    }
    NewBlockEdges(st);
    NewBlockStep(st);
  }

  lemma InsertOk(st: Gen, b: Block)
    requires GraphOk(st) && b in st.code
    ensures GraphOk(st.Insert(b)) && Step(st, st.Insert(b), {}, {})
  {
    var r := st.Insert(b);
    forall x | x in r.code
      ensures BlockOk(r, x)
    {
      assert BlockOk(st, x);
    }
    ListedStill(st, r);
  }

  lemma BrOk(st: Gen, to: Block)
    requires GraphOk(st) && !st.Terminated() && to in st.code
    ensures var r := st.Br(to); GraphOk(r) && Step(st, r, {st.cur}, {to}) && r.Terminated() && r.g.pred[to] == st.g.pred[to] + [st.cur]
  {
    var i := I.Instr(st.nextId, I.Br, [], [to]);
    assert BlockOk(st, st.cur);
    LinkEdges(st, to);
    assert Edges(st.g.succ, st.cur) == [] && [] + [to] == [to];
    AppendOk(st, st.Link(to).g, i);
    AppendStep(st, st.Link(to).g, i, {to});
  }

  lemma CondBrOk(st: Gen, c: I.Value, yes: Block, no: Block)
    requires GraphOk(st) && !st.Terminated() && yes in st.code && no in st.code && yes != no
    ensures var r := st.CondBr(c, yes, no);
            && GraphOk(r) && Step(st, r, {st.cur}, {yes, no}) && r.Terminated()
            && r.g.pred[yes] == st.g.pred[yes] + [st.cur] && r.g.pred[no] == st.g.pred[no] + [st.cur]
  {
    var i := I.Instr(st.nextId, I.CondBr, [c], [yes, no]);
    var g := st.Link(no).Link(yes).g;
    assert BlockOk(st, st.cur);
    LinkEdges(st, no);
    LinkEdges(st.Link(no), yes);
    assert Edges(st.g.succ, st.cur) == [] && g.succ[st.cur] == [no, yes];
    assert g.succ == st.g.succ[st.cur := [no, yes]];
    AppendOk(st, g, i);
    AppendStep(st, g, i, {yes, no});
  }

  // ----- growing -----

  /** What generating an expression or statement does to the graph: only the insert block changes and is
      closed if it is left; every new block is closed, except the new insert block, and has at most two predecessors. */
  ghost predicate Grows(st: Gen, st': Gen) {
    && Step(st, st', {st.cur}, {})
    && st.cur in st.code && st'.cur in st'.code
    && (st'.cur != st.cur ==> st'.cur !in st.code && st.cur in st'.code && IsClosed(st'.code[st.cur]))
    && (forall b {:trigger NewOk(st, st', b)} :: b in st'.code && b !in st.code ==> NewOk(st, st', b))
  }

  ghost predicate NewOk(st: Gen, st': Gen, b: Block) {
    && b in st'.g.pred && |st'.g.pred[b]| <= 2
    && b in st'.code && (b != st'.cur ==> IsClosed(st'.code[b]))
  }

  lemma GrowsTrans(a: Gen, b: Gen, c: Gen)
    requires Grows(a, b) && Grows(b, c) && GraphOk(b)
    ensures Grows(a, c)
  {
    StepTrans(a, b, c, {a.cur}, {}, {b.cur}, {});
    StepWeaken(a, c, {a.cur} + {b.cur}, {} + {}, {a.cur}, {});
    assert PrefixAt(a, b, a.cur);
    if b.cur != a.cur {
      assert SameBody(b, c, a.cur);
    } else {
      assert PrefixAt(b, c, a.cur);
    }
    assert c.cur in a.code ==> PrefixAt(a, b, c.cur);
    forall x | x in c.code && x !in a.code
      ensures NewOk(a, c, x)
    {
      if x in b.code {
        assert NewOk(a, b, x) && SamePreds(b, c, x);
        assert x != b.cur ==> SameBody(b, c, x);
        assert PrefixAt(b, c, x);
      } else {
        assert NewOk(b, c, x);
      }
    }
  }

  lemma GrowsRefl(st: Gen)
    requires GraphOk(st)
    ensures Grows(st, st)
  {
    forall b | b in st.code
      ensures PrefixAt(st, st, b) && SameBody(st, st, b) && SamePreds(st, st, b)
    {
    }
  }

  lemma EmitGrows(st: Gen, op: I.Op, args: seq<I.Value>)
    requires GraphOk(st) && !st.Terminated() && !op.Br? && !op.CondBr? && !op.Phi?
    ensures GraphOk(st.Emit(op, args)) && Grows(st, st.Emit(op, args)) && st.Emit(op, args).Terminated() == op.Ret?
  {
    EmitOk(st, op, args);
    assert PrefixAt(st, st.Emit(op, args), st.cur);
  }

  ghost predicate Ready(st: Gen) {
    GraphOk(st) && !st.Terminated()
  }

  predicate ValueOk(v: I.Value, n: nat) {
    v.Result? ==> v.id < n
  }

  // ----- expressions -----

  lemma ComputingGrows(st: Gen, op: nat, args: seq<I.Value>)
    requires Ready(st)
    ensures var r := Computing(st, op, args); Ready(r.st) && Grows(st, r.st) && ValueOk(r.v, r.st.nextId)
  {
    EmitGrows(st, I.Compute(op), args);
  }

  lemma ComputingThen(a: Gen, st: Gen, op: nat, args: seq<I.Value>)
    requires Ready(st) && Grows(a, st)
    ensures var r := Computing(st, op, args); Ready(r.st) && Grows(a, r.st) && ValueOk(r.v, r.st.nextId)
  {
    ComputingGrows(st, op, args);
    GrowsTrans(a, st, Computing(st, op, args).st);
  }

  lemma ConvertingGrows(st: Gen, v: I.Value, from: Ty, to: Ty)
    requires Ready(st) && ValueOk(v, st.nextId)
    ensures var r := Converting(st, v, from, to); Ready(r.st) && Grows(st, r.st) && ValueOk(r.v, r.st.nextId)
  {
    if from == to {
      GrowsRefl(st);
    } else {
      ComputingGrows(st, if from.IntT? then SITOFP else FPTOSI, [v]);
    }
  }

  lemma StoreGrows(r: Out, from: Ty, addr: I.Value, to: Ty)
    requires Ready(r.st) && ValueOk(r.v, r.st.nextId)
    ensures var o := GenStore(r, from, addr, to); Ready(o.st) && Grows(r.st, o.st) && ValueOk(o.v, o.st.nextId)
  {
    var w := Converting(r.st, r.v, from, to);
    ConvertingGrows(r.st, r.v, from, to);
    EmitGrows(w.st, I.Store, [w.v, addr]);
    GrowsTrans(r.st, w.st, GenStore(r, from, addr, to).st);
  }

  lemma BinaryGrows(st: Gen, op: BinOp, l: I.Value, tl: Ty, r: I.Value, tr: Ty)
    requires Ready(st) && ValueOk(l, st.nextId) && ValueOk(r, st.nextId)
    ensures var o := GenBinary(st, op, l, tl, r, tr); Ready(o.st) && Grows(st, o.st) && ValueOk(o.v, o.st.nextId)
  {
    var ty := Joined(tl, tr);
    var x := Converting(st, l, tl, ty);
    var y := Converting(x.st, r, tr, ty);
    var z := Computing(y.st, OpCode(op, ty), [x.v, y.v]);
    ConvertingGrows(st, l, tl, ty);
    ConvertingGrows(x.st, r, tr, ty);
    GrowsTrans(st, x.st, y.st);
    ComputingThen(st, y.st, OpCode(op, ty), [x.v, y.v]);
    if IsCompare(op) {
      ComputingThen(st, z.st, ZEXT, [z.v]);
    }
  }

  lemma AddressGrows(st: Gen, name: string, i: I.Value)
    requires Ready(st)
    ensures var r := GenAddress(st, name, i); Ready(r.st) && Grows(st, r.st) && ValueOk(r.v, r.st.nextId)
  {
    match ShapeFor(st.types, name)
    case Some(Pointer(_)) =>
      EmitGrows(st, I.Load, [AddrOf(st, name)]);
      var p := st.Emit(I.Load, [AddrOf(st, name)]);
      EmitGrows(p, I.Gep, [st.Next(I.Load), i]);
      GrowsTrans(st, p, GenAddress(st, name, i).st);
    case Some(Scalar(_)) => EmitGrows(st, I.Gep, [AddrOf(st, name), i]);
    case _ =>
      EmitGrows(st, I.Gep, [AddrOf(st, name), I.ConstantInt(0), i]);
  }

  /** `a` is `st` with the empty blocks `added`. */
  ghost predicate WithFresh(st: Gen, a: Gen, added: set<Block>) {
    && GraphOk(a) && Step(st, a, {}, {}) && a.cur == st.cur && st.cur in st.code
    && added !! st.code.Keys && a.code.Keys == st.code.Keys + added
    && forall x {:trigger EmptyBlock(a, x)} :: x in added ==> EmptyBlock(a, x)
  }

  ghost predicate EmptyBlock(st: Gen, b: Block) {
    b in st.code && b in st.g.pred && st.code[b] == [] && st.g.pred[b] == []
  }

  lemma TwoFresh(st: Gen)
    requires Ready(st)
    ensures var a, b := st.Fresh(), st.NewBlock().Fresh();
            WithFresh(st, st.NewBlock().NewBlock(), {a, b}) && Ready(st.NewBlock().NewBlock()) && a != b
  {
    NewBlockOk(st);
    NewBlockOk(st.NewBlock());
    StepTrans(st, st.NewBlock(), st.NewBlock().NewBlock(), {}, {}, {}, {});
    assert SameBody(st, st.NewBlock().NewBlock(), st.cur);
  }

  /** Instructions that leave the insert point and the set of blocks alone keep the added blocks added. */
  lemma StillFresh(st: Gen, a: Gen, mid: Gen, added: set<Block>)
    requires WithFresh(st, a, added) && Ready(mid) && Grows(a, mid) && mid.cur == a.cur && mid.code.Keys == a.code.Keys
    ensures Step(st, mid, {st.cur}, {}) && forall x {:trigger EmptyBlock(mid, x)} :: x in added ==> EmptyBlock(mid, x)
  {
    StepTrans(st, a, mid, {}, {}, {a.cur}, {});
    StepWeaken(st, mid, {} + {a.cur}, {} + {}, {st.cur}, {});
    forall x | x in added
      ensures EmptyBlock(mid, x)
    {
      assert EmptyBlock(a, x) && SameBody(a, mid, x) && SamePreds(a, mid, x);
    }
  }

  /** The insert block of `st` is closed by a branch to two of the added blocks. */
  ghost predicate Forked(st: Gen, d: Gen, yes: Block, no: Block, added: set<Block>) {
    && GraphOk(d) && Step(st, d, {st.cur}, {}) && st.cur in st.code && st.cur in d.code && IsClosed(d.code[st.cur])
    && added !! st.code.Keys && d.code.Keys == st.code.Keys + added
    && (forall x {:trigger ForkedBlock(d, x, st.cur, yes, no)} :: x in added ==> ForkedBlock(d, x, st.cur, yes, no))
  }

  ghost predicate ForkedBlock(d: Gen, x: Block, from: Block, yes: Block, no: Block) {
    x in d.code && x in d.g.pred && d.code[x] == [] && d.g.pred[x] == if x == yes || x == no then [from] else []
  }

  lemma ForkOk(st: Gen, a: Gen, mid: Gen, c: I.Value, yes: Block, no: Block, added: set<Block>)
    requires WithFresh(st, a, added) && Ready(mid) && Grows(a, mid) && mid.cur == a.cur && mid.code.Keys == a.code.Keys
    requires yes in added && no in added && yes != no
    ensures Forked(st, mid.CondBr(c, yes, no), yes, no, added)
  {
    StillFresh(st, a, mid, added);
    var d := mid.CondBr(c, yes, no);
    assert EmptyBlock(mid, yes) && EmptyBlock(mid, no);
    CondBrOk(mid, c, yes, no);
    StepTrans(st, mid, d, {st.cur}, {}, {st.cur}, {yes, no});
    StepWeaken(st, d, {st.cur} + {st.cur}, {} + {yes, no}, {st.cur}, {});
    forall x | x in added
      ensures ForkedBlock(d, x, st.cur, yes, no)
    {
      assert EmptyBlock(mid, x) && SameBody(mid, d, x);
      assert x != yes && x != no ==> SamePreds(mid, d, x);
    }
  }

  lemma CheckForks(st: Gen, v: I.Value, ty: Ty)
    requires Ready(st) && ValueOk(v, st.nextId)
    ensures var except, cont := st.Fresh(), st.NewBlock().Fresh();
            var j := Converting(st.NewBlock().NewBlock(), v, ty, IntT);
            var neg := Computing(j.st, OpCode(Lt, IntT), [j.v, I.ConstantInt(0)]);
            && Forked(st, neg.st.CondBr(neg.v, except, cont), except, cont, {except, cont}) && except != cont
            && ValueOk(j.v, neg.st.nextId)
  {
    var except, cont := st.Fresh(), st.NewBlock().Fresh();
    var a := st.NewBlock().NewBlock();
    TwoFresh(st);
    var j := Converting(a, v, ty, IntT);
    ConvertingGrows(a, v, ty, IntT);
    var neg := Computing(j.st, OpCode(Lt, IntT), [j.v, I.ConstantInt(0)]);
    ComputingGrows(j.st, OpCode(Lt, IntT), [j.v, I.ConstantInt(0)]);
    GrowsTrans(a, j.st, neg.st);
    assert neg.st.code.Keys == a.code.Keys;
    ForkOk(st, a, neg.st, neg.v, except, cont, {except, cont});
  }

  lemma CheckGrows(st: Gen, v: I.Value, ty: Ty)
    requires Ready(st) && ValueOk(v, st.nextId)
    ensures var r := Checked(st, v, ty); Ready(r.st) && Grows(st, r.st) && ValueOk(r.v, r.st.nextId)
  {
    var except, cont := st.Fresh(), st.NewBlock().Fresh();
    CheckForks(st, v, ty);
    var j := Converting(st.NewBlock().NewBlock(), v, ty, IntT);
    var neg := Computing(j.st, OpCode(Lt, IntT), [j.v, I.ConstantInt(0)]);
    ExceptGrows(st, neg.st.CondBr(neg.v, except, cont), except, cont);
  }

  lemma ExceptGrows(st: Gen, d: Gen, except: Block, cont: Block)
    requires Forked(st, d, except, cont, {except, cont}) && except != cont
    ensures var f := d.Insert(except).Emit(I.Call(NEG_IDX_EXCEPT), []).DefaultRet().Insert(cont);
            Ready(f) && Grows(st, f) && f.nextId >= d.nextId
  {
    assert ForkedBlock(d, except, st.cur, except, cont) && ForkedBlock(d, cont, st.cur, except, cont);
    ExceptOk(d, except);
    var e := d.Insert(except).Emit(I.Call(NEG_IDX_EXCEPT), []).DefaultRet();
    InsertOk(e, cont);
    var f := e.Insert(cont);
    StepTrans(st, d, e, {st.cur}, {}, {except}, {});
    StepTrans(st, e, f, {st.cur} + {except}, {} + {}, {}, {});
    StepWeaken(st, f, {st.cur} + {except} + {}, {} + {} + {}, {st.cur}, {});
    assert SameBody(d, e, st.cur) && SameBody(d, e, cont);
    assert SamePreds(d, e, except) && SamePreds(d, e, cont);
    forall x | x in f.code && x !in st.code
      ensures NewOk(st, f, x)
    {
      assert x in {except, cont};
    }
  }

  lemma ExceptOk(d: Gen, except: Block)
    requires GraphOk(d) && except in d.code && d.code[except] == []
    ensures var e := d.Insert(except).Emit(I.Call(NEG_IDX_EXCEPT), []).DefaultRet();
            && GraphOk(e) && Step(d, e, {except}, {}) && IsClosed(e.code[except]) && e.code.Keys == d.code.Keys && e.g.blocks == d.g.blocks
  {
    InsertOk(d, except);
    var d1 := d.Insert(except);
    EmitOk(d1, I.Call(NEG_IDX_EXCEPT), []);
    var d2 := d1.Emit(I.Call(NEG_IDX_EXCEPT), []);
    EmitOk(d2, I.Ret, if d.ret.VoidT? then [] else [I.ConstantInt(0)]);
    StepTrans(d, d1, d2, {}, {}, {except}, {});
    StepTrans(d, d2, d2.DefaultRet(), {except}, {}, {except}, {});
    StepWeaken(d, d2.DefaultRet(), {except} + {except}, {} + {}, {except}, {});
  }

  ghost predicate GrownTo(st: Gen, r: Out) {
    Ready(r.st) && Grows(st, r.st) && ValueOk(r.v, r.st.nextId)
  }

  lemma LoadGrows(st: Gen, addr: I.Value)
    requires Ready(st)
    ensures GrownTo(st, GenLoad(st, addr))
  {
    EmitGrows(st, I.Load, [addr]);
  }

  lemma {:induction false} ExprGrows(st: Gen, e: Expr)
    requires Ready(st) && TypeOf(st.types, e).Some?
    ensures GrownTo(st, GenExpr(st, e))
    decreases e, 1
  {
    match e
    case Num(_, n) => GrowsRefl(st);
    case Var(name, None) =>
      EmitGrows(st, I.Gep, [AddrOf(st, name), I.ConstantInt(0), I.ConstantInt(0)]);
      LoadGrows(st, AddrOf(st, name));
    case Var(name, Some(index)) => ReadGrows(st, name, index);
    case Assign(name, None, value) => SetGrows(st, name, value);
    case Assign(name, Some(index), value) =>
      ExprGrows(st, value);
      PutGrows(GenExpr(st, value), Tag(st.types, value), name, index);
      GrowsTrans(st, GenExpr(st, value).st, GenSetAt(st, name, index, value).st);
    case Binary(op, l, r) => BothGrow(st, op, l, r);
    case Call(name, args) => CallGrows(st, name, args);
  }

  lemma {:induction false} ReadGrows(st: Gen, name: string, index: Expr)
    requires Ready(st) && TypeOf(st.types, index).Some?
    ensures GrownTo(st, GenRead(st, name, index))
    decreases index, 4
  {
    var a := GenElement(st, name, index);
    ElementGrows(st, name, index);
    LoadGrows(a.st, a.v);
    GrowsTrans(st, a.st, GenLoad(a.st, a.v).st);
  }

  lemma {:induction false} SetGrows(st: Gen, name: string, value: Expr)
    requires Ready(st) && TypeOf(st.types, value).Some?
    ensures GrownTo(st, GenSet(st, name, value))
    decreases value, 2
  {
    var r := GenExpr(st, value);
    ExprGrows(st, value);
    StoreGrows(r, Tag(st.types, value), AddrOf(st, name), VarTag(st.types, name));
    GrowsTrans(st, r.st, GenSet(st, name, value).st);
  }

  lemma {:induction false} PutGrows(r: Out, tag: Ty, name: string, index: Expr)
    requires Ready(r.st) && ValueOk(r.v, r.st.nextId) && TypeOf(r.st.types, index).Some?
    ensures var a := GenElement(r.st, name, index);
            GrownTo(r.st, GenPut(r, tag, name, index)) && Grows(a.st, GenPut(r, tag, name, index).st)
    decreases index, 4
  {
    var a := GenElement(r.st, name, index);
    ElementGrows(r.st, name, index);
    StoreGrows(Out(a.st, r.v), tag, a.v, ElemTag(r.st.types, name));
    GrowsTrans(r.st, a.st, GenPut(r, tag, name, index).st);
  }

  lemma {:induction false} BothGrow(st: Gen, op: BinOp, l: Expr, r: Expr)
    requires Ready(st) && TypeOf(st.types, l).Some? && TypeOf(st.types, r).Some?
    ensures GrownTo(st, GenBoth(st, op, l, r))
    decreases Binary(op, l, r), 0
  {
    var x := GenExpr(st, l);
    ExprGrows(st, l);
    var y := GenExpr(x.st, r);
    ExprGrows(x.st, r);
    BothIs(st, op, l, r, x, y);
    OperandsGrow(st, x, y, op, Tag(st.types, l), Tag(st.types, r));
  }

  lemma BothIs(st: Gen, op: BinOp, l: Expr, r: Expr, x: Out, y: Out)
    requires x == GenExpr(st, l) && y == GenExpr(x.st, r) && TypeOf(st.types, l).Some? && TypeOf(st.types, r).Some?
    ensures GenBoth(st, op, l, r) == GenBinary(y.st, op, x.v, Tag(st.types, l), y.v, Tag(st.types, r))
  {
  }

  lemma OperandsGrow(st: Gen, x: Out, y: Out, op: BinOp, tl: Ty, tr: Ty)
    requires GrownTo(st, x) && GrownTo(x.st, y)
    ensures GrownTo(st, GenBinary(y.st, op, x.v, tl, y.v, tr))
  {
    var o := GenBinary(y.st, op, x.v, tl, y.v, tr);
    GrowsTrans(st, x.st, y.st);
    BinaryGrows(y.st, op, x.v, tl, y.v, tr);
    GrowsTrans(st, y.st, o.st);
  }

  lemma {:induction false} CallGrows(st: Gen, name: string, args: seq<Expr>)
    requires Ready(st) && TypeOf(st.types, Call(name, args)).Some?
    ensures GrownTo(st, GenCall(st, name, args))
    decreases args, 2
  {
    var shape := ShapeFor(st.types, name).value;
    var a := GenArgs(st, args, shape.params);
    ArgsGrow(st, args, shape.params);
    EmitGrows(a.st, I.Call(shape.id), a.vs);
    GrowsTrans(st, a.st, GenCall(st, name, args).st);
  }

  lemma {:induction false} ElementGrows(st: Gen, name: string, index: Expr)
    requires Ready(st) && TypeOf(st.types, index).Some?
    ensures var i := GenIndex(st, index);
            GrownTo(st, GenElement(st, name, index)) && GrownTo(st, i) && Grows(i.st, GenElement(st, name, index).st)
    decreases index, 3
  {
    var i := GenIndex(st, index);
    IndexGrows(st, index);
    AddressGrows(i.st, name, i.v);
    GrowsTrans(st, i.st, GenElement(st, name, index).st);
  }

  lemma {:induction false} IndexGrows(st: Gen, index: Expr)
    requires Ready(st) && TypeOf(st.types, index).Some?
    ensures GrownTo(st, GenIndex(st, index)) && Grows(GenExpr(st, index).st, GenIndex(st, index).st)
    decreases index, 2
  {
    var i := GenExpr(st, index);
    ExprGrows(st, index);
    CheckGrows(i.st, i.v, Tag(st.types, index));
    GrowsTrans(st, i.st, GenIndex(st, index).st);
  }

  ghost predicate ValuesOk(vs: seq<I.Value>, n: nat) {
    forall k {:trigger vs[k]} :: 0 <= k < |vs| ==> ValueOk(vs[k], n)
  }

  lemma {:induction false} ArgsGrow(st: Gen, args: seq<Expr>, params: seq<Param>)
    requires Ready(st) && |args| == |params| && forall k :: 0 <= k < |args| ==> TypeOf(st.types, args[k]).Some?
    ensures var r := GenArgs(st, args, params); Ready(r.st) && Grows(st, r.st) && ValuesOk(r.vs, r.st.nextId)
    decreases args, 1
  {
    if args == [] {
      GrowsRefl(st);
    } else {
      var n := |args| - 1;
      var rest := GenArgs(st, args[..n], params[..n]);
      ArgsGrow(st, args[..n], params[..n]);
      ArgGrows(rest.st, args[n], params[n]);
      GrowsTrans(st, rest.st, GenArg(rest.st, args[n], params[n]).st);
    }
  }

  lemma {:induction false} ArgGrows(st: Gen, arg: Expr, param: Param)
    requires Ready(st) && TypeOf(st.types, arg).Some?
    ensures GrownTo(st, GenArg(st, arg, param))
    decreases arg, 2
  {
    var a := GenExpr(st, arg);
    ExprGrows(st, arg);
    if !param.isArray {
      ConvertingGrows(a.st, a.v, Tag(st.types, arg), param.ty);
      GrowsTrans(st, a.st, GenArg(st, arg, param).st);
    }
  }
}
