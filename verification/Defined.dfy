/**
  What the code generator emits is code that Mem2Reg accepts: identities are unique, and every operand is
  defined by an instruction that dominates its use.
 */
module Defined {
  import opened Options
  import opened Syntax
  import opened Cfg
  import I = Ir
  import opened Meaning
  import opened Generator
  import opened Emitted
  import P = PhiPlacement

  // ----- the tree of blocks -----

  /** Where each instruction is, and for each block the block from which it was opened. */
  datatype Witness = Witness(site: P.Site, up: map<Block, Block>)

  /** The blocks on the way up from `b`. */
  function Chain(up: map<Block, Block>, b: Block): (s: set<Block>)
    ensures b in s
  {
    if b in up && up[b] < b then {b} + Chain(up, up[b]) else {b}
  }

  lemma {:induction false} ChainAbove(up: map<Block, Block>, x: Block, b: Block)
    requires x in Chain(up, b)
    ensures Chain(up, x) <= Chain(up, b)
  {
    if x != b {
      ChainAbove(up, x, up[b]);
    }
  }

  ghost predicate SameAt(up: map<Block, Block>, up': map<Block, Block>, b: Block) {
    (b in up <==> b in up') && (b in up ==> up'[b] == up[b])
  }

  ghost predicate SameBelow(up: map<Block, Block>, up': map<Block, Block>, n: nat) {
    forall b: nat {:trigger SameAt(up, up', b)} :: b < n ==> SameAt(up, up', b)
  }

  lemma {:induction false} ChainBelow(up: map<Block, Block>, up': map<Block, Block>, n: nat, b: Block)
    requires SameBelow(up, up', n) && b < n
    ensures Chain(up', b) == Chain(up, b)
  {
    assert SameAt(up, up', b);
    if b in up && up[b] < b {
      ChainBelow(up, up', n, up[b]);
    }
  }

  ghost predicate UpAt(st: Gen, up: map<Block, Block>, b: Block) {
    b < |st.g.blocks| && (b != 0 ==> b in up && up[b] < b && up[b] in st.code)
  }

  /** An edge leads down from the block that the target was opened from. */
  ghost predicate EdgeUp(g: Graph, up: map<Block, Block>, a: Block, b: Block) {
    b in Edges(g.succ, a) ==> b in up && up[b] in Chain(up, a)
  }

  /** What is above a block dominates it. */
  lemma {:induction false} ChainDominates(g: Graph, up: map<Block, Block>, p: seq<Block>, b: Block, x: Block)
    requires g.Valid() && g.Entry() == 0 && Path(g, 0, p, b) && x in Chain(up, b) && 0 !in up
    requires forall a, c {:trigger EdgeUp(g, up, a, c)} :: EdgeUp(g, up, a, c)
    ensures x in p
    decreases |p|
  {
    if x != b {
      var n := |p| - 2;
      assert |p| == 1 ==> b == 0;
      assert g.Edge(p[n], p[n + 1]) && EdgeUp(g, up, p[n], b);
      var q := p[..n + 1];
      PathPrefix(g, 0, p, b, n);
      ChainDominates(g, up, q, p[n], up[b]);
      var k :| 0 <= k < |q| && q[k] == up[b];
      PathPrefix(g, 0, q, p[n], k);
      ChainDominates(g, up, q[..k + 1], up[b], x);
    }
  }

  // ----- definitions and uses -----

  /** `v` is the result of an instruction that has been emitted. */
  ghost predicate Known(code: I.Code, site: P.Site, v: I.Value) {
    v.Result? && v.id in site && var (d, j) := site[v.id];
    d in code && j < |code[d]| && I.ResultOf(code[d][j]) == v && I.HasResult(code[d][j].op)
  }

  ghost predicate ArgPlaced(code: I.Code, w: Witness, b: Block, i: nat, ins: I.Instr, k: nat) {
    k < |ins.args| && ins.args[k].Result? ==>
      var v := ins.args[k];
      && Known(code, w.site, v) && w.site[v.id].0 in Chain(w.up, b) && (w.site[v.id].0 == b ==> w.site[v.id].1 < i)
      && (v.kind == I.AllocaInst(true) ==> (ins.op.Load? && k == 0) || (ins.op.Store? && k == 1))
  }

  ghost predicate ShapeOk(ins: I.Instr) {
    && !ins.op.Phi?
    && (ins.op.Load? ==> |ins.args| == 1 && I.AddressOk(ins.args[0]))
    && (ins.op.Store? ==> |ins.args| == 2 && I.AddressOk(ins.args[1]))
  }

  ghost predicate InstrPlaced(code: I.Code, w: Witness, b: Block, i: nat) {
    b in code && i < |code[b]| && code[b][i].id in w.site && w.site[code[b][i].id] == (b, i) && ShapeOk(code[b][i])
    && forall k: nat {:trigger ArgPlaced(code, w, b, i, code[b][i], k)} :: ArgPlaced(code, w, b, i, code[b][i], k)
  }

  ghost predicate SiteBelow(w: Witness, k: nat, n: nat) {
    k in w.site ==> k < n
  }

  /** Everything emitted so far is in its place. */
  ghost predicate Placed(st: Gen, w: Witness) {
    && 0 !in w.up
    && (forall k: nat {:trigger SiteBelow(w, k, st.nextId)} :: SiteBelow(w, k, st.nextId))
    && (forall b {:trigger UpAt(st, w.up, b)} :: b in st.code ==> UpAt(st, w.up, b))
    && (forall a, b {:trigger EdgeUp(st.g, w.up, a, b)} :: EdgeUp(st.g, w.up, a, b))
    && (forall b, i: nat {:trigger InstrPlaced(st.code, w, b, i)} :: b in st.code && i < |st.code[b]| ==> InstrPlaced(st.code, w, b, i))
  }

  /** `v` may be used at the end of block `b`. */
  ghost predicate Usable(st: Gen, w: Witness, b: Block, v: I.Value) {
    v.Result? ==> Known(st.code, w.site, v) && w.site[v.id].0 in Chain(w.up, b)
  }

  predicate Plain(v: I.Value) {
    !(v.Result? && v.kind == I.AllocaInst(true))
  }

  ghost predicate SiteKept(w: Witness, w': Witness, k: nat) {
    k in w.site ==> k in w'.site && w'.site[k] == w.site[k]
  }

  /** The second state and witness extend the first. */
  ghost predicate Extends(st: Gen, w: Witness, st': Gen, w': Witness) {
    && (forall k: nat {:trigger SiteKept(w, w', k)} :: SiteKept(w, w', k))
    && |st.g.blocks| <= |st'.g.blocks| && SameBelow(w.up, w'.up, |st.g.blocks|)
    && (forall b {:trigger PrefixAt(st, st', b)} :: b in st.code ==> PrefixAt(st, st', b))
  }

  lemma KnownKept(st: Gen, w: Witness, st': Gen, w': Witness, v: I.Value)
    requires Extends(st, w, st', w') && Known(st.code, w.site, v)
    ensures Known(st'.code, w'.site, v) && w'.site[v.id] == w.site[v.id]
  {
    assert SiteKept(w, w', v.id) && PrefixAt(st, st', w.site[v.id].0);
  }

  lemma UsableKept(st: Gen, w: Witness, st': Gen, w': Witness, b: Block, b': Block, v: I.Value)
    requires Extends(st, w, st', w') && Usable(st, w, b, v) && b < |st.g.blocks| && b in Chain(w'.up, b')
    ensures Usable(st', w', b', v)
  {
    if v.Result? {
      KnownKept(st, w, st', w', v);
      ChainBelow(w.up, w'.up, |st.g.blocks|, b);
      ChainAbove(w'.up, b, b');
    }
  }

  lemma ExtendsTrans(a: Gen, w: Witness, b: Gen, w': Witness, c: Gen, w'': Witness)
    requires Extends(a, w, b, w') && Extends(b, w', c, w'')
    ensures Extends(a, w, c, w'')
  {
    forall k: nat
      ensures SiteKept(w, w'', k)
    {
      assert SiteKept(w, w', k) && SiteKept(w', w'', k);
    }
    forall x: nat | x < |a.g.blocks|
      ensures SameAt(w.up, w''.up, x)
    {
      assert SameAt(w.up, w'.up, x) && SameAt(w'.up, w''.up, x);
    }
    forall x | x in a.code
      ensures PrefixAt(a, c, x)
    {
      assert PrefixAt(a, b, x) && PrefixAt(b, c, x);
    }
  }

  lemma ExtendsRefl(st: Gen, w: Witness)
    ensures Extends(st, w, st, w)
  {
    forall b | b in st.code
      ensures PrefixAt(st, st, b)
    {
    }
    forall k: nat
      ensures SiteKept(w, w, k)
    {
    }
    forall b
      ensures SameAt(w.up, w.up, b)
    {
    }
  }

  // ----- single operations -----

  /** What a new instruction needs of its operands. */
  ghost predicate ArgFits(st: Gen, w: Witness, op: I.Op, args: seq<I.Value>, k: nat) {
    k < |args| ==> Usable(st, w, st.cur, args[k]) && (Plain(args[k]) || (op.Load? && k == 0) || (op.Store? && k == 1))
  }

  ghost predicate ArgsFit(st: Gen, w: Witness, op: I.Op, args: seq<I.Value>) {
    forall k: nat {:trigger ArgFits(st, w, op, args, k)} :: ArgFits(st, w, op, args, k)
  }

  ghost function With(st: Gen, w: Witness): Witness {
    w.(site := w.site[st.nextId := (st.cur, |Generator.At(st.code, st.cur)|)])
  }

  /** An instruction at the insert point, with the edges that belong to it. */
  lemma AppendPlaced(st: Gen, w: Witness, g: Graph, i: I.Instr)
    requires Placed(st, w) && st.cur in st.code && st.cur < |st.g.blocks| && i.id == st.nextId && ShapeOk(i) && ArgsFit(st, w, i.op, i.args)
    requires g.blocks == st.g.blocks && forall a, b {:trigger EdgeUp(g, w.up, a, b)} :: EdgeUp(g, w.up, a, b)
    ensures var r := st.(g := g).Append(i); Placed(r, With(st, w)) && Extends(st, w, r, With(st, w))
    ensures I.HasResult(i.op) ==> Usable(st.(g := g).Append(i), With(st, w), st.cur, I.ResultOf(i))
  {
    var r, w' := st.(g := g).Append(i), With(st, w);
    AppendExtends(st, w, g, i);
    forall k: nat
      ensures SiteBelow(w', k, r.nextId)
    {
      assert SiteBelow(w, k, st.nextId);
    }
    forall b | b in r.code
      ensures UpAt(r, w'.up, b)
    {
      assert UpAt(st, w.up, b);
    }
    forall b, k: nat | b in r.code && k < |r.code[b]|
      ensures InstrPlaced(r.code, w', b, k)
    {
      if b == st.cur && k == |st.code[b]| {
        NewPlaced(st, w, g, i);
      } else {
        assert InstrPlaced(st.code, w, b, k);
        OldPlaced(st, w, r, w', b, k);
      }
    }
  }

  lemma AppendExtends(st: Gen, w: Witness, g: Graph, i: I.Instr)
    requires Placed(st, w) && st.cur in st.code && g.blocks == st.g.blocks
    ensures Extends(st, w, st.(g := g).Append(i), With(st, w))
  {
    var r, w' := st.(g := g).Append(i), With(st, w);
    forall k: nat
      ensures SiteKept(w, w', k)
    {
      assert SiteBelow(w, k, st.nextId);
    }
    forall b
      ensures SameAt(w.up, w'.up, b)
    {
    }
    forall b | b in st.code
      ensures PrefixAt(st, r, b)
    {
    }
  }

  lemma OldPlaced(st: Gen, w: Witness, r: Gen, w': Witness, b: Block, k: nat)
    requires Extends(st, w, r, w') && InstrPlaced(st.code, w, b, k) && b < |st.g.blocks|
    ensures InstrPlaced(r.code, w', b, k)
  {
    assert PrefixAt(st, r, b) && r.code[b][k] == st.code[b][k];
    var ins := st.code[b][k];
    assert SiteKept(w, w', ins.id);
    ChainBelow(w.up, w'.up, |st.g.blocks|, b);
    forall j: nat
      ensures ArgPlaced(r.code, w', b, k, ins, j)
    {
      assert ArgPlaced(st.code, w, b, k, ins, j);
      if j < |ins.args| && ins.args[j].Result? {
        KnownKept(st, w, r, w', ins.args[j]);
      }
    }
  }

  lemma NewPlaced(st: Gen, w: Witness, g: Graph, i: I.Instr)
    requires Placed(st, w) && st.cur in st.code && st.cur < |st.g.blocks| && i.id == st.nextId && ShapeOk(i) && ArgsFit(st, w, i.op, i.args)
    requires g.blocks == st.g.blocks
    ensures InstrPlaced(st.(g := g).Append(i).code, With(st, w), st.cur, |st.code[st.cur]|)
  {
    var r, w' := st.(g := g).Append(i), With(st, w);
    AppendExtends(st, w, g, i);
    var n := |st.code[st.cur]|;
    assert r.code[st.cur][n] == i;
    forall k: nat
      ensures ArgPlaced(r.code, w', st.cur, n, i, k)
    {
      assert ArgFits(st, w, i.op, i.args, k);
      if k < |i.args| && i.args[k].Result? {
        KnownKept(st, w, r, w', i.args[k]);
      }
    }
  }

  /** What an address in scope may be, by what its name stands for. */
  predicate Fits(shape: Shape, v: I.Value) {
    match shape
    case Function(_, _, _) => !v.Result?
    case Array(_) => v.GlobalVariable? || (v.Result? && v.kind == I.AllocaInst(false))
    case _ => v.GlobalVariable? || (v.Result? && v.kind.AllocaInst?)
  }

  /** The names in scope may be used at the end of block `b`. */
  ghost predicate EntryUsable(st: Gen, w: Witness, b: Block, k: nat, x: string) {
    k < |st.types| && k < |st.addrs| && x in st.types[k] && x in st.addrs[k] &&
    var v := st.addrs[k][x];
    Usable(st, w, b, v) && Fits(st.types[k][x], v)
  }

  ghost predicate Scoped(st: Gen, w: Witness, b: Block) {
    && Parallel(st.types, st.addrs)
    && forall k: nat, x {:trigger EntryUsable(st, w, b, k, x)} :: k < |st.types| && x in st.types[k] ==> EntryUsable(st, w, b, k, x)
  }

  lemma ScopedKept(st: Gen, w: Witness, st': Gen, w': Witness, b: Block, b': Block)
    requires Scoped(st, w, b) && Extends(st, w, st', w') && b < |st.g.blocks| && b in Chain(w'.up, b')
    requires st'.types == st.types && st'.addrs == st.addrs
    ensures Scoped(st', w', b')
  {
    forall k: nat, x | k < |st'.types| && x in st'.types[k]
      ensures EntryUsable(st', w', b', k, x)
    {
      assert EntryUsable(st, w, b, k, x);
      UsableKept(st, w, st', w', b, b', st.addrs[k][x]);
    }
  }

  lemma AddrUsable(st: Gen, w: Witness, b: Block, name: string)
    requires Scoped(st, w, b) && ShapeFor(st.types, name).Some?
    ensures Usable(st, w, b, AddrOf(st, name)) && Fits(ShapeFor(st.types, name).value, AddrOf(st, name))
  {
    SameLevel(st.types, st.addrs, name);
    assert EntryUsable(st, w, b, Level(st.types, name).value, name);
  }

  /** From the insert point of one state to that of the other, which lies below it. */
  ghost predicate Onward(st: Gen, w: Witness, st': Gen, w': Witness) {
    Placed(st', w') && Extends(st, w, st', w') && st.cur in Chain(w'.up, st'.cur) && st'.cur < |st'.g.blocks| && st'.cur in st'.code
  }

  lemma OnwardTrans(a: Gen, w: Witness, b: Gen, w': Witness, c: Gen, w'': Witness)
    requires Onward(a, w, b, w') && Onward(b, w', c, w'')
    ensures Onward(a, w, c, w'')
  {
    ExtendsTrans(a, w, b, w', c, w'');
    ChainBelow(w'.up, w''.up, |b.g.blocks|, b.cur);
    ChainAbove(w''.up, b.cur, c.cur);
  }

  ghost predicate At(st: Gen, w: Witness) {
    Placed(st, w) && st.cur in st.code && st.cur < |st.g.blocks|
  }

  lemma EmitPlaced(st: Gen, w: Witness, op: I.Op, args: seq<I.Value>) returns (w': Witness)
    requires At(st, w) && !op.Phi? && ArgsFit(st, w, op, args)
    requires ShapeOk(I.Instr(st.nextId, op, args, []))
    ensures Onward(st, w, st.Emit(op, args), w') && w'.up == w.up
    ensures I.HasResult(op) ==> Usable(st.Emit(op, args), w', st.cur, st.Next(op))
  {
    w' := With(st, w);
    forall a, b
      ensures EdgeUp(st.g, w.up, a, b)
    {
    }
    AppendPlaced(st, w, st.g, I.Instr(st.nextId, op, args, []));
  }

  lemma BlockPlaced(st: Gen, w: Witness) returns (w': Witness)
    requires At(st, w) && GraphOk(st)
    ensures w' == w.(up := w.up[st.Fresh() := st.cur]) && Placed(st.NewBlock(), w') && Extends(st, w, st.NewBlock(), w')
  {
    var n, r := st.Fresh(), st.NewBlock();
    w' := w.(up := w.up[n := st.cur]);
    forall b: nat | b < n
      ensures SameAt(w.up, w'.up, b)
    {
    }
    NewBlockOk(st);
    forall k: nat
      ensures SiteKept(w, w', k) && SiteBelow(w', k, r.nextId)
    {
      assert SiteBelow(w, k, st.nextId);
    }
    forall b | b in r.code
      ensures UpAt(r, w'.up, b)
    {
      assert b in st.code ==> UpAt(st, w.up, b);
    }
    forall a, b
      ensures EdgeUp(r.g, w'.up, a, b)
    {
      assert EdgeUp(st.g, w.up, a, b);
      assert a in st.g.succ ==> BlockOk(st, a);
      if b in Edges(r.g.succ, a) {
        ChainBelow(w.up, w'.up, n, a);
        assert b in st.code;
      }
    }
    forall b, k: nat | b in r.code && k < |r.code[b]|
      ensures InstrPlaced(r.code, w', b, k)
    {
      assert InstrPlaced(st.code, w, b, k) && UpAt(st, w.up, b);
      OldPlaced(st, w, r, w', b, k);
    }
  }

  /** A jump to a block that was opened further up. */
  lemma BrPlaced(st: Gen, w: Witness, to: Block) returns (w': Witness)
    requires At(st, w) && to in w.up && w.up[to] in Chain(w.up, st.cur)
    ensures Onward(st, w, st.Br(to), w') && w'.up == w.up
  {
    w' := With(st, w);
    var g := st.Link(to).g;
    forall a, b
      ensures EdgeUp(g, w.up, a, b)
    {
      assert EdgeUp(st.g, w.up, a, b);
    }
    AppendPlaced(st, w, g, I.Instr(st.nextId, I.Br, [], [to]));
  }

  lemma CondBrPlaced(st: Gen, w: Witness, c: I.Value, yes: Block, no: Block) returns (w': Witness)
    requires At(st, w) && Usable(st, w, st.cur, c) && Plain(c)
    requires yes in w.up && w.up[yes] in Chain(w.up, st.cur) && no in w.up && w.up[no] in Chain(w.up, st.cur)
    ensures Onward(st, w, st.CondBr(c, yes, no), w') && w'.up == w.up
  {
    w' := With(st, w);
    var g := st.Link(no).Link(yes).g;
    forall a, b
      ensures EdgeUp(g, w.up, a, b)
    {
      assert EdgeUp(st.g, w.up, a, b);
    }
    forall k: nat
      ensures ArgFits(st, w, I.CondBr, [c], k)
    {
    }
    AppendPlaced(st, w, g, I.Instr(st.nextId, I.CondBr, [c], [yes, no]));
  }

  lemma InsertPlaced(st: Gen, w: Witness, b: Block)
    requires Placed(st, w)
    ensures Placed(st.Insert(b), w) && Extends(st, w, st.Insert(b), w)
  {
    var r := st.Insert(b);
    ExtendsRefl(st, w);
    forall x | x in r.code
      ensures UpAt(r, w.up, x) && PrefixAt(st, r, x)
    {
      assert UpAt(st, w.up, x);
    }
  }

  // ----- expressions -----

  /** A value that may be used at the insert point, for anything. */
  ghost predicate Has(st: Gen, w: Witness, v: I.Value) {
    Usable(st, w, st.cur, v) && Plain(v)
  }

  ghost predicate Yields(st: Gen, w: Witness, r: Out, w': Witness) {
    Onward(st, w, r.st, w') && Has(r.st, w', r.v)
  }

  lemma HasKept(st: Gen, w: Witness, st': Gen, w': Witness, v: I.Value)
    requires Onward(st, w, st', w') && Has(st, w, v) && st.cur < |st.g.blocks|
    ensures Has(st', w', v)
  {
    UsableKept(st, w, st', w', st.cur, st'.cur, v);
  }

  lemma YieldsAfter(a: Gen, w: Witness, b: Gen, w': Witness, r: Out, w'': Witness)
    requires Onward(a, w, b, w') && Yields(b, w', r, w'')
    ensures Yields(a, w, r, w'')
  {
    OnwardTrans(a, w, b, w', r.st, w'');
  }

  lemma OnwardRefl(st: Gen, w: Witness)
    requires At(st, w)
    ensures Onward(st, w, st, w)
  {
    ExtendsRefl(st, w);
  }

  lemma ComputingPlaced(st: Gen, w: Witness, op: nat, args: seq<I.Value>) returns (w': Witness)
    requires At(st, w) && forall k :: 0 <= k < |args| ==> Has(st, w, args[k])
    ensures Yields(st, w, Computing(st, op, args), w') && w'.up == w.up
  {
    w' := EmitPlaced(st, w, I.Compute(op), args);
  }

  lemma ConvertingPlaced(st: Gen, w: Witness, v: I.Value, from: Ty, to: Ty) returns (w': Witness)
    requires At(st, w) && Has(st, w, v)
    ensures Yields(st, w, Converting(st, v, from, to), w') && w'.up == w.up
  {
    if from == to {
      OnwardRefl(st, w);
      w' := w;
    } else {
      w' := ComputingPlaced(st, w, if from.IntT? then SITOFP else FPTOSI, [v]);
    }
  }

  lemma LoadPlaced(st: Gen, w: Witness, addr: I.Value) returns (w': Witness)
    requires At(st, w) && Usable(st, w, st.cur, addr) && I.AddressOk(addr)
    ensures Yields(st, w, GenLoad(st, addr), w')
  {
    w' := EmitPlaced(st, w, I.Load, [addr]);
  }

  lemma StorePlaced(r: Out, w: Witness, from: Ty, addr: I.Value, to: Ty) returns (w': Witness)
    requires At(r.st, w) && Has(r.st, w, r.v) && Usable(r.st, w, r.st.cur, addr) && I.AddressOk(addr)
    ensures Yields(r.st, w, GenStore(r, from, addr, to), w')
  {
    var v := Converting(r.st, r.v, from, to);
    var w1 := ConvertingPlaced(r.st, w, r.v, from, to);
    UsableKept(r.st, w, v.st, w1, r.st.cur, v.st.cur, addr);
    forall k: nat
      ensures ArgFits(v.st, w1, I.Store, [v.v, addr], k)
    {
    }
    w' := EmitPlaced(v.st, w1, I.Store, [v.v, addr]);
    HasKept(v.st, w1, v.st.Emit(I.Store, [v.v, addr]), w', v.v);
    YieldsAfter(r.st, w, v.st, w1, GenStore(r, from, addr, to), w');
  }

  lemma OperandsPlaced(st: Gen, w: Witness, l: I.Value, tl: Ty, r: I.Value, tr: Ty, ty: Ty) returns (w': Witness)
    requires At(st, w) && Has(st, w, l) && Has(st, w, r)
    ensures var x := Converting(st, l, tl, ty); var y := Converting(x.st, r, tr, ty); Yields(st, w, y, w') && Has(y.st, w', x.v)
  {
    var x := Converting(st, l, tl, ty);
    var w1 := ConvertingPlaced(st, w, l, tl, ty);
    HasKept(st, w, x.st, w1, r);
    var y := Converting(x.st, r, tr, ty);
    w' := ConvertingPlaced(x.st, w1, r, tr, ty);
    HasKept(x.st, w1, y.st, w', x.v);
    YieldsAfter(st, w, x.st, w1, y, w');
  }

  lemma BinaryPlaced(st: Gen, w: Witness, op: BinOp, l: I.Value, tl: Ty, r: I.Value, tr: Ty) returns (w': Witness)
    requires At(st, w) && Has(st, w, l) && Has(st, w, r)
    ensures Yields(st, w, GenBinary(st, op, l, tl, r, tr), w')
  {
    var ty := Joined(tl, tr);
    var x := Converting(st, l, tl, ty);
    var y := Converting(x.st, r, tr, ty);
    var w2 := OperandsPlaced(st, w, l, tl, r, tr, ty);
    w' := AppliedPlaced(y.st, w2, op, x.v, y.v, ty);
    YieldsAfter(st, w, y.st, w2, GenBinary(st, op, l, tl, r, tr), w');
  }

  lemma AppliedPlaced(st: Gen, w: Witness, op: BinOp, x: I.Value, y: I.Value, ty: Ty) returns (w': Witness)
    requires At(st, w) && Has(st, w, x) && Has(st, w, y)
    ensures var z := Computing(st, OpCode(op, ty), [x, y]); Yields(st, w, if IsCompare(op) then Computing(z.st, ZEXT, [z.v]) else z, w')
  {
    var z := Computing(st, OpCode(op, ty), [x, y]);
    w' := ComputingPlaced(st, w, OpCode(op, ty), [x, y]);
    if IsCompare(op) {
      var w1 := w';
      w' := ComputingPlaced(z.st, w1, ZEXT, [z.v]);
      YieldsAfter(st, w, z.st, w1, Computing(z.st, ZEXT, [z.v]), w');
    }
  }

  lemma GepPlaced(st: Gen, w: Witness, args: seq<I.Value>) returns (w': Witness)
    requires At(st, w) && forall k :: 0 <= k < |args| ==> Has(st, w, args[k])
    ensures Yields(st, w, Out(st.Emit(I.Gep, args), st.Next(I.Gep)), w')
  {
    w' := EmitPlaced(st, w, I.Gep, args);
  }

  lemma AddressPlaced(st: Gen, w: Witness, name: string, i: I.Value) returns (w': Witness)
    requires At(st, w) && Scoped(st, w, st.cur) && ElementTy(st.types, name).Some? && Has(st, w, i)
    ensures Yields(st, w, GenAddress(st, name, i), w')
  {
    AddrUsable(st, w, st.cur, name);
    var addr := AddrOf(st, name);
    if ShapeFor(st.types, name).value.Pointer? {
      var p := st.Emit(I.Load, [addr]);
      var w1 := LoadPlaced(st, w, addr);
      HasKept(st, w, p, w1, i);
      w' := GepPlaced(p, w1, [st.Next(I.Load), i]);
      YieldsAfter(st, w, p, w1, GenAddress(st, name, i), w');
    } else {
      w' := GepPlaced(st, w, [addr, I.ConstantInt(0), i]);
    }
  }

  /** Two blocks opened from block `cur` and nothing in the way of a branch to them. */
  ghost predicate Opened(st: Gen, w: Witness, cur: Block, n: Block) {
    && At(st, w) && st.cur == cur < n && n in w.up && w.up[n] == cur && n + 1 in w.up && w.up[n + 1] == cur
    && n in st.code && n + 1 in st.code && n + 1 < |st.g.blocks|
  }

  lemma OpenedKept(a: Gen, w: Witness, b: Gen, w': Witness, n: Block)
    requires Opened(a, w, a.cur, n) && Onward(a, w, b, w') && b.cur == a.cur && w'.up == w.up
    ensures Opened(b, w', a.cur, n)
  {
    var next := n + 1;
    assert PrefixAt(a, b, n) && PrefixAt(a, b, next);
  }

  /** Two new blocks below the insert block. */
  lemma TwoPlaced(st: Gen, w: Witness, a: Gen, n: Block) returns (w': Witness)
    requires Ready(st) && Placed(st, w) && n == st.Fresh() && a == st.NewBlock().NewBlock()
    ensures At(st, w) && Onward(st, w, a, w') && a.cur == st.cur && Opened(a, w', st.cur, n) && Ready(a)
  {
    var b := st.NewBlock();
    assert BlockOk(st, st.cur);
    NewBlockOk(st);
    var w1 := BlockPlaced(st, w);
    assert BlockOk(b, st.cur);
    NewBlockOk(b);
    w' := BlockPlaced(b, w1);
    ExtendsTrans(st, w, b, w1, a, w');
  }

  /** The block that handles a negative index. */
  lemma ExceptPlaced(d: Gen, w: Witness, except: Block, cont: Block) returns (w': Witness)
    requires Placed(d, w) && except in d.code && except < |d.g.blocks| && cont in d.code && cont < |d.g.blocks|
    ensures var f := d.Insert(except).Emit(I.Call(NEG_IDX_EXCEPT), []).DefaultRet().Insert(cont);
            Placed(f, w') && Extends(d, w, f, w') && cont in f.code && f.g.blocks == d.g.blocks && w'.up == w.up
  {
    InsertPlaced(d, w, except);
    var d1 := d.Insert(except);
    var w1 := EmitPlaced(d1, w, I.Call(NEG_IDX_EXCEPT), []);
    var d2 := d1.Emit(I.Call(NEG_IDX_EXCEPT), []);
    w' := EmitPlaced(d2, w1, I.Ret, if d.ret.VoidT? then [] else [I.ConstantInt(0)]);
    ExtendsTrans(d, w, d1, w, d2, w1);
    ExtendsTrans(d, w, d2, w1, d2.DefaultRet(), w');
    InsertPlaced(d2.DefaultRet(), w', cont);
    ExtendsTrans(d, w, d2.DefaultRet(), w', d2.DefaultRet().Insert(cont), w');
  }

  /** Nothing but computations, so the insert point and the opened blocks stay. */
  lemma TestPlaced(st: Gen, w: Witness, a: Gen, w1: Witness, r: Out, w2: Witness, op: nat, args: seq<I.Value>, n: Block) returns (w': Witness)
    requires Onward(st, w, a, w1) && Opened(a, w1, st.cur, n) && Onward(a, w1, r.st, w2) && w2.up == w1.up && r.st.cur == a.cur
    requires forall k :: 0 <= k < |args| ==> Has(r.st, w2, args[k])
    ensures var o := Computing(r.st, op, args); Yields(st, w, o, w') && Opened(o.st, w', st.cur, n) && Yields(r.st, w2, o, w')
  {
    var o := Computing(r.st, op, args);
    OpenedKept(a, w1, r.st, w2, n);
    OnwardTrans(st, w, a, w1, r.st, w2);
    w' := ComputingPlaced(r.st, w2, op, args);
    OpenedKept(r.st, w2, o.st, w', n);
    YieldsAfter(st, w, r.st, w2, o, w');
  }

  lemma IndexTested(st: Gen, w: Witness, v: I.Value, ty: Ty) returns (w': Witness, j: Out, neg: Out)
    requires Ready(st) && Placed(st, w) && Has(st, w, v)
    ensures j == Converting(st.NewBlock().NewBlock(), v, ty, IntT) && neg == Computing(j.st, OpCode(Lt, IntT), [j.v, I.ConstantInt(0)])
    ensures Yields(st, w, neg, w') && Has(neg.st, w', j.v) && Opened(neg.st, w', st.cur, st.Fresh())
  {
    var a, n := st.NewBlock().NewBlock(), st.Fresh();
    var w1 := TwoPlaced(st, w, a, n);
    HasKept(st, w, a, w1, v);
    j := Converting(a, v, ty, IntT);
    var w2 := ConvertingPlaced(a, w1, v, ty, IntT);
    w' := TestPlaced(st, w, a, w1, j, w2, OpCode(Lt, IntT), [j.v, I.ConstantInt(0)], n);
    neg := Computing(j.st, OpCode(Lt, IntT), [j.v, I.ConstantInt(0)]);
    HasKept(j.st, w2, neg.st, w', j.v);
  }

  lemma CheckedIs(st: Gen, v: I.Value, ty: Ty, j: Out, neg: Out, d: Gen, n: Block) returns (r: Out)
    requires j == Converting(st.NewBlock().NewBlock(), v, ty, IntT) && neg == Computing(j.st, OpCode(Lt, IntT), [j.v, I.ConstantInt(0)])
    requires n == st.Fresh() && d == neg.st.CondBr(neg.v, n, n + 1)
    ensures r == Out(d.Insert(n).Emit(I.Call(NEG_IDX_EXCEPT), []).DefaultRet().Insert(n + 1), j.v) && r == Checked(st, v, ty)
  {
    r := Checked(st, v, ty);
  }

  lemma CheckPlaced(st: Gen, w: Witness, v: I.Value, ty: Ty) returns (w': Witness)
    requires Ready(st) && Placed(st, w) && Has(st, w, v)
    ensures Yields(st, w, Checked(st, v, ty), w')
  {
    var n := st.Fresh();
    var w3, j, neg := IndexTested(st, w, v, ty);
    var d, w4 := CheckForked(st, w, neg, w3, j.v, n);
    var r := CheckedIs(st, v, ty, j, neg, d, n);
    w' := CheckBranches(st, w, d, w4, j.v, n, r);
  }

  lemma CheckForked(st: Gen, w: Witness, neg: Out, w3: Witness, v: I.Value, n: Block) returns (d: Gen, w4: Witness)
    requires Yields(st, w, neg, w3) && Has(neg.st, w3, v) && Opened(neg.st, w3, st.cur, n)
    ensures d == neg.st.CondBr(neg.v, n, n + 1) && Onward(st, w, d, w4) && Has(d, w4, v) && Opened(d, w4, st.cur, n)
  {
    d := neg.st.CondBr(neg.v, n, n + 1);
    w4 := CondBrPlaced(neg.st, w3, neg.v, n, n + 1);
    OnwardTrans(st, w, neg.st, w3, d, w4);
    HasKept(neg.st, w3, d, w4, v);
  }

  lemma CheckBranches(st: Gen, w: Witness, d: Gen, w4: Witness, v: I.Value, n: Block, r: Out) returns (w': Witness)
    requires Onward(st, w, d, w4) && Has(d, w4, v) && Opened(d, w4, st.cur, n)
    requires r == Out(d.Insert(n).Emit(I.Call(NEG_IDX_EXCEPT), []).DefaultRet().Insert(n + 1), v)
    ensures Yields(st, w, r, w')
  {
    w' := ExceptPlaced(d, w4, n, n + 1);
    Continued(st, w, d, w4, r, w', n + 1);
  }

  /** Going on in a block that was opened from the insert block. */
  lemma Continued(st: Gen, w: Witness, d: Gen, w1: Witness, r: Out, w': Witness, cont: Block)
    requires Onward(st, w, d, w1) && d.cur == st.cur && Has(d, w1, r.v) && Extends(d, w1, r.st, w') && Placed(r.st, w')
    requires r.st.cur == cont && cont in r.st.code && cont < |r.st.g.blocks| && cont in w'.up && w'.up[cont] == st.cur && st.cur < cont
    ensures Yields(st, w, r, w')
  {
    ExtendsTrans(st, w, d, w1, r.st, w');
    UsableKept(d, w1, r.st, w', d.cur, cont, r.v);
  }

  // ----- expressions, by induction -----

  /** The state before an expression or statement. */
  ghost predicate Prepared(st: Gen, w: Witness) {
    Ready(st) && Placed(st, w) && Scoped(st, w, st.cur)
  }

  lemma PreparedAt(st: Gen, w: Witness)
    requires Prepared(st, w)
    ensures At(st, w)
  {
    assert BlockOk(st, st.cur);
  }

  lemma PreparedKept(st: Gen, w: Witness, st': Gen, w': Witness)
    requires Prepared(st, w) && Onward(st, w, st', w') && Ready(st') && SameScope(st, st')
    ensures Prepared(st', w')
  {
    PreparedAt(st, w);
    ScopedKept(st, w, st', w', st.cur, st'.cur);
  }

  lemma {:induction false} ExprPlaced(st: Gen, w: Witness, e: Expr) returns (w': Witness)
    requires Prepared(st, w) && TypeOf(st.types, e).Some?
    ensures Yields(st, w, GenExpr(st, e), w')
    decreases e, 1
  {
    PreparedAt(st, w);
    match e
    case Num(_, n) =>
      OnwardRefl(st, w);
      w' := w;
    case Var(name, None) => w' := NamePlaced(st, w, name);
    case Var(name, Some(index)) => w' := ReadPlaced(st, w, name, index);
    case Assign(name, None, value) => w' := SetPlaced(st, w, name, value);
    case Assign(name, Some(index), value) => w' := SetAtPlaced(st, w, name, index, value);
    case Binary(op, l, r) => w' := BothPlaced(st, w, op, l, r);
    case Call(name, args) => w' := CallPlaced(st, w, name, args);
  }

  lemma NamePlaced(st: Gen, w: Witness, name: string) returns (w': Witness)
    requires Prepared(st, w) && TypeOf(st.types, Var(name, None)).Some?
    ensures Yields(st, w, GenName(st, name), w')
  {
    PreparedAt(st, w);
    AddrUsable(st, w, st.cur, name);
    var addr := AddrOf(st, name);
    if ShapeFor(st.types, name).value.Array? {
      w' := GepPlaced(st, w, [addr, I.ConstantInt(0), I.ConstantInt(0)]);
    } else {
      w' := LoadPlaced(st, w, addr);
    }
  }

  lemma {:induction false} ReadPlaced(st: Gen, w: Witness, name: string, index: Expr) returns (w': Witness)
    requires Prepared(st, w) && IsNumber(TypeOf(st.types, index)) && ElementTy(st.types, name).Some?
    ensures Yields(st, w, GenRead(st, name, index), w')
    decreases index, 4
  {
    var a := GenElement(st, name, index);
    var w1 := ElementPlaced(st, w, name, index);
    w' := LoadPlaced(a.st, w1, a.v);
    YieldsAfter(st, w, a.st, w1, GenLoad(a.st, a.v), w');
  }

  lemma {:induction false} ElementPlaced(st: Gen, w: Witness, name: string, index: Expr) returns (w': Witness)
    requires Prepared(st, w) && IsNumber(TypeOf(st.types, index)) && ElementTy(st.types, name).Some?
    ensures Yields(st, w, GenElement(st, name, index), w')
    decreases index, 3
  {
    var i := GenIndex(st, index);
    IndexGrows(st, index);
    var w1 := IndexPlaced(st, w, index);
    PreparedKept(st, w, i.st, w1);
    PreparedAt(i.st, w1);
    w' := AddressPlaced(i.st, w1, name, i.v);
    YieldsAfter(st, w, i.st, w1, GenAddress(i.st, name, i.v), w');
  }

  lemma {:induction false} IndexPlaced(st: Gen, w: Witness, index: Expr) returns (w': Witness)
    requires Prepared(st, w) && IsNumber(TypeOf(st.types, index))
    ensures Yields(st, w, GenIndex(st, index), w')
    decreases index, 2
  {
    var i := GenExpr(st, index);
    ExprGrows(st, index);
    var w1 := ExprPlaced(st, w, index);
    w' := CheckPlaced(i.st, w1, i.v, Tag(st.types, index));
    YieldsAfter(st, w, i.st, w1, Checked(i.st, i.v, Tag(st.types, index)), w');
  }

  lemma {:induction false} SetPlaced(st: Gen, w: Witness, name: string, value: Expr) returns (w': Witness)
    requires Prepared(st, w) && TypeOf(st.types, Assign(name, None, value)).Some?
    ensures Yields(st, w, GenSet(st, name, value), w')
    decreases value, 2
  {
    var r := GenExpr(st, value);
    ExprGrows(st, value);
    var w1 := ExprPlaced(st, w, value);
    PreparedKept(st, w, r.st, w1);
    PreparedAt(r.st, w1);
    AddrUsable(r.st, w1, r.st.cur, name);
    w' := StorePlaced(r, w1, Tag(st.types, value), AddrOf(st, name), VarTag(st.types, name));
    YieldsAfter(st, w, r.st, w1, GenSet(st, name, value), w');
  }

  lemma {:induction false} SetAtPlaced(st: Gen, w: Witness, name: string, index: Expr, value: Expr) returns (w': Witness)
    requires Prepared(st, w) && IsNumber(TypeOf(st.types, value)) && IsNumber(TypeOf(st.types, index)) && ElementTy(st.types, name).Some?
    ensures Yields(st, w, GenSetAt(st, name, index, value), w')
    decreases Assign(name, Some(index), value), 0
  {
    var r := GenExpr(st, value);
    ExprGrows(st, value);
    var w1 := ExprPlaced(st, w, value);
    PreparedKept(st, w, r.st, w1);
    w' := PutPlaced(r, w1, Tag(st.types, value), name, index);
    YieldsAfter(st, w, r.st, w1, GenPut(r, Tag(st.types, value), name, index), w');
  }

  lemma {:induction false} PutPlaced(r: Out, w: Witness, tag: Ty, name: string, index: Expr) returns (w': Witness)
    requires Prepared(r.st, w) && Has(r.st, w, r.v) && IsNumber(TypeOf(r.st.types, index)) && ElementTy(r.st.types, name).Some?
    ensures Yields(r.st, w, GenPut(r, tag, name, index), w')
    decreases index, 4
  {
    PreparedAt(r.st, w);
    var a := GenElement(r.st, name, index);
    var w1 := ElementPlaced(r.st, w, name, index);
    HasKept(r.st, w, a.st, w1, r.v);
    w' := StorePlaced(Out(a.st, r.v), w1, tag, a.v, ElemTag(r.st.types, name));
    YieldsAfter(r.st, w, a.st, w1, GenPut(r, tag, name, index), w');
  }

  lemma {:induction false} BothPlaced(st: Gen, w: Witness, op: BinOp, l: Expr, r: Expr) returns (w': Witness)
    requires Prepared(st, w) && TypeOf(st.types, Binary(op, l, r)).Some?
    ensures Yields(st, w, GenBoth(st, op, l, r), w')
    decreases Binary(op, l, r), 0
  {
    var x := GenExpr(st, l);
    ExprGrows(st, l);
    var w1 := ExprPlaced(st, w, l);
    PreparedKept(st, w, x.st, w1);
    PreparedAt(x.st, w1);
    var y := GenExpr(x.st, r);
    var w2 := ExprPlaced(x.st, w1, r);
    HasKept(x.st, w1, y.st, w2, x.v);
    YieldsAfter(st, w, x.st, w1, y, w2);
    w' := BinaryPlaced(y.st, w2, op, x.v, Tag(st.types, l), y.v, Tag(st.types, r));
    YieldsAfter(st, w, y.st, w2, GenBoth(st, op, l, r), w');
  }

  lemma {:induction false} CallPlaced(st: Gen, w: Witness, name: string, args: seq<Expr>) returns (w': Witness)
    requires Prepared(st, w) && TypeOf(st.types, Call(name, args)).Some?
    ensures Yields(st, w, GenCall(st, name, args), w')
    decreases args, 2
  {
    var shape := ShapeFor(st.types, name).value;
    var a := GenArgs(st, args, shape.params);
    var w1 := ArgsPlaced(st, w, args, shape.params);
    forall k: nat
      ensures ArgFits(a.st, w1, I.Call(shape.id), a.vs, k)
    {
    }
    w' := EmitPlaced(a.st, w1, I.Call(shape.id), a.vs);
    OnwardTrans(st, w, a.st, w1, a.st.Emit(I.Call(shape.id), a.vs), w');
  }

  lemma {:induction false} ArgsPlaced(st: Gen, w: Witness, args: seq<Expr>, params: seq<Param>) returns (w': Witness)
    requires Prepared(st, w) && |args| == |params| && forall k :: 0 <= k < |args| ==> Accepts(params[k], TypeOf(st.types, args[k]))
    ensures var r := GenArgs(st, args, params); Onward(st, w, r.st, w') && forall k :: 0 <= k < |r.vs| ==> Has(r.st, w', r.vs[k])
    decreases args, 1
  {
    if args == [] {
      PreparedAt(st, w);
      OnwardRefl(st, w);
      w' := w;
    } else {
      var n := |args| - 1;
      var rest := GenArgs(st, args[..n], params[..n]);
      ArgsGrow(st, args[..n], params[..n]);
      var w1 := ArgsPlaced(st, w, args[..n], params[..n]);
      PreparedKept(st, w, rest.st, w1);
      PreparedAt(rest.st, w1);
      var v := GenArg(rest.st, args[n], params[n]);
      w' := ArgPlacedAt(rest.st, w1, args[n], params[n]);
      OnwardTrans(st, w, rest.st, w1, v.st, w');
      forall k | 0 <= k < n
        ensures Has(v.st, w', rest.vs[k])
      {
        HasKept(rest.st, w1, v.st, w', rest.vs[k]);
      }
    }
  }

  lemma {:induction false} ArgPlacedAt(st: Gen, w: Witness, arg: Expr, param: Param) returns (w': Witness)
    requires Prepared(st, w) && TypeOf(st.types, arg).Some?
    ensures Yields(st, w, GenArg(st, arg, param), w')
    decreases arg, 2
  {
    var a := GenExpr(st, arg);
    w' := ExprPlaced(st, w, arg);
    if !param.isArray {
      var w1 := w';
      w' := ConvertingPlaced(a.st, w1, a.v, Tag(st.types, arg), param.ty);
      YieldsAfter(st, w, a.st, w1, GenArg(st, arg, param), w');
    }
  }
}
