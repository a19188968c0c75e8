/**
  Which functions get a reachable block with an unreachable predecessor: told from the syntax
  tree, for every well-typed function.
 */
module DeadEnds {
  import opened Options
  import opened Syntax
  import opened Cfg
  import I = Ir
  import opened Meaning
  import opened Generator
  import opened Emitted
  import opened WellFormed

  // ----- the syntax tree -----

  /** The code of the statement ends in a return. */
  predicate Closes(s: Stmt)
    decreases s
  {
    match s
    case Return(_) => true
    case Compound(_, body) => BodyCloses(body)
    case _ => false
  }

  predicate BodyCloses(body: seq<Stmt>)
    decreases body
  {
    body != [] && (Closes(body[0]) || BodyCloses(body[1..]))
  }

  /** The block in which the code of the statement ends is reachable from where it began. */
  predicate Survives(s: Stmt)
    decreases s, 0
  {
    match s
    case Compound(_, body) => BodySurvives(body)
    case If(_, yes, Some(no)) => FallsThrough(yes) || FallsThrough(no)
    case _ => true
  }

  predicate BodySurvives(body: seq<Stmt>)
    decreases body, 0
  {
    body == [] || (Survives(body[0]) && (Closes(body[0]) || BodySurvives(body[1..])))
  }

  /** Control can go on behind the statement. */
  predicate FallsThrough(s: Stmt)
    decreases s, 1
  {
    Survives(s) && !Closes(s)
  }

  /** The code of the statement ends in an open block that control never comes to: behind an `if` that does not fall through
      in either arm. */
  predicate DeadEnd(s: Stmt) {
    !Survives(s) && !Closes(s)
  }

  /** No dead end leads to where control can be: to the head of a loop, or behind an `if` that can be left another way. */
  predicate Fine(s: Stmt)
    decreases s
  {
    match s
    case Compound(_, body) => BodyFine(body)
    case If(_, yes, None) => Fine(yes) && !DeadEnd(yes)
    case If(_, yes, Some(no)) =>
      Fine(yes) && Fine(no) && (FallsThrough(yes) ==> !DeadEnd(no)) && (FallsThrough(no) ==> !DeadEnd(yes))
    case While(_, loop) => Fine(loop) && !DeadEnd(loop)
    case _ => true
  }

  predicate BodyFine(body: seq<Stmt>)
    decreases body
  {
    body == [] || (Fine(body[0]) && (FallsThrough(body[0]) ==> BodyFine(body[1..])))
  }

  // ----- blocks that control comes to -----

  ghost predicate Alive(g: Graph, b: Block) {
    exists q {:trigger Path(g, 0, q, b)} :: Path(g, 0, q, b)
  }

  lemma AliveStep(g: Graph, a: Block, b: Block)
    requires Alive(g, a) && g.Edge(a, b)
    ensures Alive(g, b)
  {
    var q :| Path(g, 0, q, a);
    PathSnoc(g, 0, q, a, b);
  }

  lemma AliveEntry(g: Graph)
    ensures Alive(g, 0)
  {
    assert Path(g, 0, [0], 0);
  }

  /** What control comes to, other than the entry, it comes to from a predecessor. */
  lemma AlivePred(g: Graph, b: Block)
    requires g.Valid() && Alive(g, b) && b != 0
    ensures b in g.pred && exists p :: p in g.pred[b] && Alive(g, p)
  {
    var q :| Path(g, 0, q, b);
    var n := |q| - 2;
    assert |q| > 1;
    PathPrefix(g, 0, q, b, n);
    assert g.Edge(q[n], b);
  }

  lemma EntryIsZero(st: Gen)
    requires GraphOk(st)
    ensures st.g.Valid() && st.g.Entry() == 0 && 0 in st.code
  {
    ValidGraph(st);
    assert Listed(st, 0) && BlockOk(st, st.g.blocks[0]);
    assert BlockOk(st, 0);
  }

  lemma {:induction false} PathStays(st: Gen, r: Gen, q: seq<Block>, b: Block)
    requires GraphOk(st) && GraphOk(r) && forall x :: x in st.code ==> SamePreds(st, r, x)
    requires Path(st.g, 0, q, b)
    ensures Path(r.g, 0, q, b)
  {
    ValidGraph(st);
    ValidGraph(r);
    forall i, j | 0 <= i && j == i + 1 && j < |q|
      ensures r.g.Edge(q[i], q[j])
    {
      assert st.g.Edge(q[i], q[j]);
      assert SamePreds(st, r, q[j]);
    }
  }

  lemma {:induction false} PathBack(st: Gen, r: Gen, q: seq<Block>, b: Block)
    requires GraphOk(st) && GraphOk(r) && forall x :: x in st.code ==> SamePreds(st, r, x)
    requires Path(r.g, 0, q, b) && b in st.code
    ensures Path(st.g, 0, q, b)
    decreases |q|
  {
    if |q| > 1 {
      var n := |q| - 2;
      ValidGraph(st);
      ValidGraph(r);
      assert r.g.Edge(q[n], q[n + 1]) && SamePreds(st, r, b);
      assert st.g.Edge(q[n], b);
      PathPrefix(r.g, 0, q, b, n);
      PathBack(st, r, q[..n + 1], q[n]);
      PathSnoc(st.g, 0, q[..n + 1], q[n], b);
      assert q[..n + 1] + [b] == q;
    }
  }

  /** Blocks that get no new predecessor stay what they are. */
  lemma OldAlive(st: Gen, r: Gen, s: set<Block>)
    requires GraphOk(st) && GraphOk(r) && Step(st, r, s, {})
    ensures forall b {:trigger Alive(r.g, b)} {:trigger Alive(st.g, b)} :: b in st.code ==> (Alive(r.g, b) <==> Alive(st.g, b))
  {
    forall b | b in st.code
      ensures Alive(r.g, b) <==> Alive(st.g, b)
    {
      if Alive(st.g, b) {
        var q :| Path(st.g, 0, q, b);
        PathStays(st, r, q, b);
      }
      if Alive(r.g, b) {
        var q :| Path(r.g, 0, q, b);
        PathBack(st, r, q, b);
      }
    }
  }

  // ----- what generating code does to them -----

  ghost predicate AllAlive(g: Graph, b: Block) {
    b in g.pred && forall p {:trigger Alive(g, p)} :: p in g.pred[b] ==> Alive(g, p)
  }

  ghost predicate PredsAlive(g: Graph, b: Block) {
    b in g.pred && (Alive(g, b) ==> AllAlive(g, b))
  }

  /** No new block that control comes to has a predecessor that it does not come to. */
  ghost predicate NewAlive(st: Gen, r: Gen) {
    forall b {:trigger PredsAlive(r.g, b)} :: b in r.code && b !in st.code ==> PredsAlive(r.g, b)
  }

  ghost predicate NewDead(st: Gen, r: Gen) {
    forall b {:trigger Alive(r.g, b)} :: b in r.code && b !in st.code ==> !Alive(r.g, b)
  }

  /** From `st` to `r`, with `survives` and `fine` as for a statement. */
  ghost predicate Goes(st: Gen, r: Gen, survives: bool, fine: bool) {
    && (!Alive(st.g, st.cur) ==> NewDead(st, r))
    && (Alive(r.g, r.cur) <==> Alive(st.g, st.cur) && survives)
    && (Alive(st.g, st.cur) ==> (NewAlive(st, r) <==> fine))
  }

  lemma StillPredsAlive(b: Gen, c: Gen, s: set<Block>, x: Block)
    requires GraphOk(b) && GraphOk(c) && Step(b, c, s, {}) && x in b.code
    ensures PredsAlive(c.g, x) <==> PredsAlive(b.g, x)
  {
    OldAlive(b, c, s);
    ValidGraph(b);
    assert SamePreds(b, c, x);
    forall p | p in b.g.pred[x]
      ensures p in b.code
    {
      assert b.g.Edge(p, x);
    }
  }

  lemma GoesTrans(a: Gen, b: Gen, c: Gen, s1: bool, f1: bool, s2: bool, f2: bool)
    requires GraphOk(a) && GraphOk(b) && GraphOk(c) && Grows(a, b) && Grows(b, c) && Goes(a, b, s1, f1) && Goes(b, c, s2, f2)
    ensures Goes(a, c, s1 && s2, f1 && (s1 ==> f2))
  {
    OldAlive(b, c, {b.cur});
    KeysGrow(a, b, {a.cur}, {});
    KeysGrow(b, c, {b.cur}, {});
    if Alive(a.g, a.cur) {
      NewAliveTrans(a, b, c);
      if !s1 {
        DeadIsFine(b, c);
      }
    }
  }

  lemma DeadIsFine(st: Gen, r: Gen)
    requires GraphOk(r) && NewDead(st, r)
    ensures NewAlive(st, r)
  {
  }

  lemma NewAliveTrans(a: Gen, b: Gen, c: Gen)
    requires GraphOk(b) && GraphOk(c) && Grows(b, c) && a.code.Keys <= b.code.Keys <= c.code.Keys
    ensures NewAlive(a, c) <==> NewAlive(a, b) && NewAlive(b, c)
  {
    forall x | x in b.code
      ensures PredsAlive(c.g, x) <==> PredsAlive(b.g, x)
    {
      StillPredsAlive(b, c, {b.cur}, x);
    }
  }

  /** Code without branches. */
  lemma StraightGoes(st: Gen, r: Gen)
    requires r.g == st.g && r.cur == st.cur && r.code.Keys == st.code.Keys
    ensures Goes(st, r, true, true)
  {
  }

  /** Code that may branch but always goes on. */
  ghost predicate Flows(st: Gen, r: Gen) {
    Ready(r) && Grows(st, r) && Goes(st, r, true, true)
  }

  lemma FlowsTrans(a: Gen, b: Gen, c: Gen)
    requires Ready(a) && Flows(a, b) && Flows(b, c)
    ensures Flows(a, c)
  {
    GrowsTrans(a, b, c);
    GoesTrans(a, b, c, true, true, true, true);
  }

  lemma EmitFlows(st: Gen, op: I.Op, args: seq<I.Value>)
    requires Ready(st) && !op.Br? && !op.CondBr? && !op.Phi? && !op.Ret?
    ensures Flows(st, st.Emit(op, args))
  {
    EmitGrows(st, op, args);
    StraightGoes(st, st.Emit(op, args));
  }

  lemma ReflFlows(st: Gen)
    requires Ready(st)
    ensures Flows(st, st)
  {
    GrowsRefl(st);
    StraightGoes(st, st);
  }

  lemma EmitThen(a: Gen, st: Gen, op: I.Op, args: seq<I.Value>)
    requires Ready(a) && Flows(a, st) && !op.Br? && !op.CondBr? && !op.Phi? && !op.Ret?
    ensures Flows(a, st.Emit(op, args))
  {
    EmitFlows(st, op, args);
    FlowsTrans(a, st, st.Emit(op, args));
  }

  lemma ConvertingFlows(st: Gen, v: I.Value, from: Ty, to: Ty)
    requires Ready(st)
    ensures Flows(st, Converting(st, v, from, to).st)
  {
    if from == to {
      ReflFlows(st);
    } else {
      EmitFlows(st, I.Compute(if from.IntT? then SITOFP else FPTOSI), [v]);
    }
  }

  lemma ConvertingThen(a: Gen, st: Gen, v: I.Value, from: Ty, to: Ty)
    requires Ready(a) && Flows(a, st)
    ensures Flows(a, Converting(st, v, from, to).st)
  {
    ConvertingFlows(st, v, from, to);
    FlowsTrans(a, st, Converting(st, v, from, to).st);
  }

  lemma StoreFlows(a: Gen, r: Out, from: Ty, addr: I.Value, to: Ty)
    requires Ready(a) && Flows(a, r.st)
    ensures Flows(a, GenStore(r, from, addr, to).st)
  {
    var w := Converting(r.st, r.v, from, to);
    ConvertingThen(a, r.st, r.v, from, to);
    EmitThen(a, w.st, I.Store, [w.v, addr]);
  }

  lemma BinaryFlows(a: Gen, st: Gen, op: BinOp, l: I.Value, tl: Ty, r: I.Value, tr: Ty)
    requires Ready(a) && Flows(a, st)
    ensures Flows(a, GenBinary(st, op, l, tl, r, tr).st)
  {
    var ty := Joined(tl, tr);
    var x := Converting(st, l, tl, ty);
    var y := Converting(x.st, r, tr, ty);
    var z := Computing(y.st, OpCode(op, ty), [x.v, y.v]);
    ConvertingThen(a, st, l, tl, ty);
    ConvertingThen(a, x.st, r, tr, ty);
    EmitThen(a, y.st, I.Compute(OpCode(op, ty)), [x.v, y.v]);
    if IsCompare(op) {
      EmitThen(a, z.st, I.Compute(ZEXT), [z.v]);
    }
  }

  lemma PointerFlows(a: Gen, st: Gen, load: seq<I.Value>, gep: seq<I.Value>)
    requires Ready(a) && Flows(a, st)
    ensures Flows(a, st.Emit(I.Load, load).Emit(I.Gep, gep))
  {
    EmitThen(a, st, I.Load, load);
    EmitThen(a, st.Emit(I.Load, load), I.Gep, gep);
  }

  /** An address is computed by one instruction, or by two for an array parameter. */
  lemma AddressForm(st: Gen, name: string, i: I.Value) returns (deref: bool, load: seq<I.Value>, gep: seq<I.Value>)
    ensures GenAddress(st, name, i).st == if deref then st.Emit(I.Load, load).Emit(I.Gep, gep) else st.Emit(I.Gep, gep)
  {
    var shape := ShapeFor(st.types, name);
    deref, load := shape.Some? && shape.value.Pointer?, [AddrOf(st, name)];
    gep := if deref then [st.Next(I.Load), i]
           else if shape.Some? && shape.value.Scalar? then [AddrOf(st, name), i]
           else [AddrOf(st, name), I.ConstantInt(0), i];
  }

  lemma AddressFlows(a: Gen, st: Gen, name: string, i: I.Value)
    requires Ready(a) && Flows(a, st)
    ensures Flows(a, GenAddress(st, name, i).st)
  {
    var deref, load, gep := AddressForm(st, name, i);
    if deref {
      PointerFlows(a, st, load, gep);
    } else {
      EmitThen(a, st, I.Gep, gep);
    }
  }

  // ----- branches -----

  /** A branch to two new blocks: control comes to them exactly if it came to the branch. */
  lemma ForkAlive(st: Gen, d: Gen, yes: Block, no: Block, added: set<Block>)
    requires GraphOk(st) && Forked(st, d, yes, no, added)
    ensures forall b {:trigger Alive(d.g, b)} :: b in st.code ==> (Alive(d.g, b) <==> Alive(st.g, b))
    ensures forall x {:trigger Alive(d.g, x)} :: x in added ==> (Alive(d.g, x) <==> (x == yes || x == no) && Alive(st.g, st.cur))
  {
    OldAlive(st, d, {st.cur});
    EntryIsZero(st);
    ValidGraph(d);
    forall x | x in added
      ensures Alive(d.g, x) <==> (x == yes || x == no) && Alive(st.g, st.cur)
    {
      assert ForkedBlock(d, x, st.cur, yes, no);
      if Alive(d.g, x) {
        AlivePred(d.g, x);
      }
      if (x == yes || x == no) && Alive(st.g, st.cur) {
        assert st.cur in d.g.pred[x] && d.g.Edge(st.cur, x);
        AliveStep(d.g, st.cur, x);
      }
    }
  }

  lemma CheckFlows(st: Gen, v: I.Value, ty: Ty)
    requires Ready(st) && ValueOk(v, st.nextId)
    ensures Flows(st, Checked(st, v, ty).st)
  {
    var except, cont := st.Fresh(), st.NewBlock().Fresh();
    CheckForks(st, v, ty);
    var j := Converting(st.NewBlock().NewBlock(), v, ty, IntT);
    var neg := Computing(j.st, OpCode(Lt, IntT), [j.v, I.ConstantInt(0)]);
    ExceptFlows(st, neg.st.CondBr(neg.v, except, cont), except, cont);
  }

  lemma ExceptFlows(st: Gen, d: Gen, except: Block, cont: Block)
    requires GraphOk(st) && Forked(st, d, except, cont, {except, cont}) && except != cont
    ensures Flows(st, d.Insert(except).Emit(I.Call(NEG_IDX_EXCEPT), []).DefaultRet().Insert(cont))
  {
    var f := d.Insert(except).Emit(I.Call(NEG_IDX_EXCEPT), []).DefaultRet().Insert(cont);
    ExceptGrows(st, d, except, cont);
    ForkAlive(st, d, except, cont, {except, cont});
    assert ForkedBlock(d, except, st.cur, except, cont) && ForkedBlock(d, cont, st.cur, except, cont);
    SameEdgesGo(st, d, f, {except, cont});
  }

  /** New blocks behind one branch, and code without edges in one of them. */
  lemma SameEdgesGo(st: Gen, d: Gen, f: Gen, added: set<Block>)
    requires GraphOk(st) && f.g.pred == d.g.pred && f.g.succ == d.g.succ && d.code.Keys == st.code.Keys + added && f.code.Keys == d.code.Keys
    requires f.cur in added && st.cur in st.code && added !! st.code.Keys
    requires forall x :: x in added ==> x in d.g.pred && d.g.pred[x] == [st.cur] && (Alive(d.g, x) <==> Alive(st.g, st.cur))
    requires Alive(d.g, st.cur) <==> Alive(st.g, st.cur)
    ensures Goes(st, f, true, true)
  {
    SameAlive(d.g, f.g);
    forall x | x in f.code && x !in st.code
      ensures PredsAlive(f.g, x)
    {
      assert x in added;
    }
  }

  lemma SameAlive(g: Graph, g': Graph)
    requires g'.succ == g.succ
    ensures forall b {:trigger Alive(g', b)} :: Alive(g', b) <==> Alive(g, b)
  {
    forall b
      ensures Alive(g', b) <==> Alive(g, b)
    {
      if Alive(g, b) {
        var q :| Path(g, 0, q, b);
        SamePath(g, g', q, b);
      }
      if Alive(g', b) {
        var q :| Path(g', 0, q, b);
        SamePath(g', g, q, b);
      }
    }
  }

  lemma SamePath(g: Graph, g': Graph, q: seq<Block>, b: Block)
    requires g'.succ == g.succ && Path(g, 0, q, b)
    ensures Path(g', 0, q, b)
  {
    forall i, j | 0 <= i && j == i + 1 && j < |q|
      ensures g'.Edge(q[i], q[j])
    {
      assert g.Edge(q[i], q[j]);
    }
  }

  // ----- expressions -----

  lemma {:induction false} ExprFlows(st: Gen, e: Expr)
    requires Ready(st) && TypeOf(st.types, e).Some?
    ensures Flows(st, GenExpr(st, e).st)
    decreases e, 1
  {
    match e
    case Num(_, n) => ReflFlows(st);
    case Var(name, None) =>
      EmitFlows(st, I.Gep, [AddrOf(st, name), I.ConstantInt(0), I.ConstantInt(0)]);
      EmitFlows(st, I.Load, [AddrOf(st, name)]);
    case Var(name, Some(index)) =>
      ElementFlows(st, name, index);
      EmitThen(st, GenElement(st, name, index).st, I.Load, [GenElement(st, name, index).v]);
    case Assign(name, None, value) =>
      ExprFlows(st, value);
      StoreFlows(st, GenExpr(st, value), Tag(st.types, value), AddrOf(st, name), VarTag(st.types, name));
    case Assign(name, Some(index), value) =>
      ExprFlows(st, value);
      PutFlows(st, GenExpr(st, value), Tag(st.types, value), name, index);
    case Binary(op, l, r) => BothFlow(st, op, l, r);
    case Call(name, args) => CallFlows(st, name, args);
  }

  lemma {:induction false} PutFlows(a: Gen, r: Out, tag: Ty, name: string, index: Expr)
    requires Ready(a) && Flows(a, r.st) && TypeOf(r.st.types, index).Some?
    ensures Flows(a, GenPut(r, tag, name, index).st)
    decreases index, 4
  {
    var x := GenElement(r.st, name, index);
    ElementFlows(r.st, name, index);
    FlowsTrans(a, r.st, x.st);
    StoreFlows(a, Out(x.st, r.v), tag, x.v, ElemTag(r.st.types, name));
  }

  lemma {:induction false} NextFlows(a: Gen, st: Gen, e: Expr)
    requires Ready(a) && Flows(a, st) && TypeOf(st.types, e).Some?
    ensures Flows(a, GenExpr(st, e).st)
    decreases e, 2
  {
    ExprFlows(st, e);
    FlowsTrans(a, st, GenExpr(st, e).st);
  }

  lemma {:induction false} BothFlow(st: Gen, op: BinOp, l: Expr, r: Expr)
    requires Ready(st) && TypeOf(st.types, l).Some? && TypeOf(st.types, r).Some?
    ensures Flows(st, GenBoth(st, op, l, r).st)
    decreases Binary(op, l, r), 0
  {
    ExprFlows(st, l);
    NextFlows(st, GenExpr(st, l).st, r);
    BothDone(st, op, l, r, GenExpr(st, l), GenExpr(GenExpr(st, l).st, r));
  }

  lemma BothDone(st: Gen, op: BinOp, l: Expr, r: Expr, x: Out, y: Out)
    requires x == GenExpr(st, l) && y == GenExpr(x.st, r) && TypeOf(st.types, l).Some? && TypeOf(st.types, r).Some?
    requires Ready(st) && Flows(st, y.st)
    ensures Flows(st, GenBoth(st, op, l, r).st)
  {
    BinaryFlows(st, y.st, op, x.v, Tag(st.types, l), y.v, Tag(st.types, r));
    BothIs(st, op, l, r, x, y);
  }

  lemma {:induction false} CallFlows(st: Gen, name: string, args: seq<Expr>)
    requires Ready(st) && TypeOf(st.types, Call(name, args)).Some?
    ensures Flows(st, GenCall(st, name, args).st)
    decreases args, 2
  {
    var shape := ShapeFor(st.types, name).value;
    var a := GenArgs(st, args, shape.params);
    ArgsFlow(st, args, shape.params);
    EmitThen(st, a.st, I.Call(shape.id), a.vs);
  }

  lemma {:induction false} ElementFlows(st: Gen, name: string, index: Expr)
    requires Ready(st) && TypeOf(st.types, index).Some?
    ensures Flows(st, GenElement(st, name, index).st)
    decreases index, 3
  {
    var i := GenExpr(st, index);
    ExprGrows(st, index);
    ExprFlows(st, index);
    var c := Checked(i.st, i.v, Tag(st.types, index));
    CheckFlows(i.st, i.v, Tag(st.types, index));
    FlowsTrans(st, i.st, c.st);
    AddressFlows(st, c.st, name, c.v);
  }

  lemma {:induction false} ArgsFlow(st: Gen, args: seq<Expr>, params: seq<Param>)
    requires Ready(st) && |args| == |params| && forall k :: 0 <= k < |args| ==> TypeOf(st.types, args[k]).Some?
    ensures Flows(st, GenArgs(st, args, params).st)
    decreases args, 1
  {
    if args == [] {
      ReflFlows(st);
    } else {
      var n := |args| - 1;
      var rest := GenArgs(st, args[..n], params[..n]);
      ArgsFlow(st, args[..n], params[..n]);
      ArgFlows(rest.st, args[n], params[n]);
      FlowsTrans(st, rest.st, GenArg(rest.st, args[n], params[n]).st);
    }
  }

  lemma {:induction false} ArgFlows(st: Gen, arg: Expr, param: Param)
    requires Ready(st) && TypeOf(st.types, arg).Some?
    ensures Flows(st, GenArg(st, arg, param).st)
    decreases arg, 2
  {
    var a := GenExpr(st, arg);
    ExprFlows(st, arg);
    if !param.isArray {
      ConvertingThen(st, a.st, a.v, Tag(st.types, arg), param.ty);
    }
  }

  // ----- a jump -----

  /** A jump to a block that leads nowhere yet, or that control comes to anyway. */
  lemma JumpAlive(e: Gen, f: Gen, to: Block)
    requires GraphOk(e) && GraphOk(f) && !e.Terminated() && to in e.code && f == e.Br(to)
    requires e.g.succ[to] == [] || (Alive(e.g, e.cur) ==> Alive(e.g, to))
    ensures forall b {:trigger Alive(f.g, b)} :: b != to ==> (Alive(f.g, b) <==> Alive(e.g, b))
    ensures Alive(f.g, to) <==> Alive(e.g, to) || Alive(e.g, e.cur)
  {
    forall b
      ensures Alive(e.g, b) ==> Alive(f.g, b)
      ensures Alive(f.g, b) ==> Alive(e.g, b) || (b == to && Alive(e.g, e.cur))
    {
      if Alive(e.g, b) {
        var q :| Path(e.g, 0, q, b);
        JumpKeepsPath(e, f, to, q, b);
      }
      if Alive(f.g, b) {
        var q :| Path(f.g, 0, q, b);
        JumpAddsOne(e, f, to, q, b);
      }
    }
    if Alive(e.g, e.cur) {
      assert f.g.Edge(e.cur, to);
      AliveStep(f.g, e.cur, to);
    }
  }

  lemma JumpKeepsPath(e: Gen, f: Gen, to: Block, q: seq<Block>, b: Block)
    requires f == e.Br(to) && Path(e.g, 0, q, b)
    ensures Path(f.g, 0, q, b)
  {
    forall i, j | 0 <= i && j == i + 1 && j < |q|
      ensures f.g.Edge(q[i], q[j])
    {
      assert e.g.Edge(q[i], q[j]);
    }
  }

  lemma {:induction false} JumpAddsOne(e: Gen, f: Gen, to: Block, q: seq<Block>, b: Block)
    requires GraphOk(e) && f == e.Br(to) && !e.Terminated() && to in e.code && Path(f.g, 0, q, b)
    requires e.g.succ[to] == [] || (Alive(e.g, e.cur) ==> Alive(e.g, to))
    ensures Alive(e.g, b) || (b == to && Alive(e.g, e.cur))
    decreases |q|
  {
    if |q| > 1 {
      var n := |q| - 2;
      assert f.g.Edge(q[n], q[n + 1]);
      PathPrefix(f.g, 0, q, b, n);
      JumpAddsOne(e, f, to, q[..n + 1], q[n]);
      if q[n] != e.cur || b != to {
        assert e.g.Edge(q[n], b);
        if Alive(e.g, q[n]) {
          AliveStep(e.g, q[n], b);
        }
      }
    } else {
      AliveEntry(e.g);
    }
  }

  lemma JumpPreds(e: Gen, f: Gen, to: Block, b: Block)
    requires GraphOk(e) && GraphOk(f) && !e.Terminated() && to in e.code && f == e.Br(to) && b in e.code && b != to
    requires e.g.succ[to] == [] || (Alive(e.g, e.cur) ==> Alive(e.g, to))
    ensures PredsAlive(f.g, b) <==> PredsAlive(e.g, b)
  {
    JumpAlive(e, f, to);
    ValidGraph(e);
    assert f.g.pred[b] == e.g.pred[b];
    forall p | p in e.g.pred[b]
      ensures Alive(f.g, p) <==> Alive(e.g, p)
    {
      assert e.g.Edge(p, b);
    }
  }

  // ----- one arm -----

  /** The arm that starts in `x` has been generated and leads on to `cont`. */
  ghost predicate ArmGoes(d: Gen, f: Gen, x: Block, cont: Block, survives: bool, fine: bool, closes: bool) {
    && (forall b {:trigger Alive(f.g, b)} :: b in d.code && b != cont ==> (Alive(f.g, b) <==> Alive(d.g, b)))
    && (Alive(f.g, cont) <==> Alive(d.g, cont) || (Alive(d.g, x) && survives && !closes))
    && (!Alive(d.g, x) ==> NewDead(d, f)) && (Alive(d.g, x) ==> (NewAlive(d, f) <==> fine))
    && cont in f.g.pred && cont !in f.g.pred[cont]
    && (AllAlive(f.g, cont) <==> AllAlive(d.g, cont) && (closes || (Alive(d.g, x) && survives)))
  }

  /** What is asked of the block behind an arm. */
  ghost predicate Target(d: Gen, x: Block, cont: Block) {
    && x in d.code && cont in d.code && x != cont && cont in d.g.pred && cont !in d.g.pred[cont]
    && cont in d.g.succ && (d.g.succ[cont] == [] || (Alive(d.g, x) ==> Alive(d.g, cont)))
  }

  /** The statement of the arm, before the jump. */
  ghost predicate InArm(d: Gen, x: Block, e: Gen, survives: bool, fine: bool) {
    GraphOk(e) && Grows(d.Insert(x), e) && Goes(d.Insert(x), e, survives, fine)
  }

  lemma InArmOld(d: Gen, x: Block, e: Gen, cont: Block, survives: bool, fine: bool)
    requires GraphOk(d) && Target(d, x, cont) && InArm(d, x, e, survives, fine)
    ensures forall b {:trigger Alive(e.g, b)} :: b in d.code ==> (Alive(e.g, b) <==> Alive(d.g, b))
    ensures cont in e.code && cont in e.g.pred && e.g.pred[cont] == d.g.pred[cont] && e.cur != cont && cont in e.g.succ
    ensures e.g.succ[cont] == [] || (Alive(e.g, e.cur) ==> Alive(e.g, cont))
  {
    InsertOk(d, x);
    OldAlive(d.Insert(x), e, {x});
    assert SameBody(d.Insert(x), e, cont) && SamePreds(d.Insert(x), e, cont);
    assert BlockOk(d, cont) && BlockOk(e, cont);
  }

  lemma ContPreds(d: Gen, x: Block, e: Gen, cont: Block, f: Gen, survives: bool, fine: bool, closes: bool)
    requires GraphOk(d) && Target(d, x, cont) && InArm(d, x, e, survives, fine) && GraphOk(f)
    requires f == e.BrIfOpen(cont) && (e.Terminated() <==> closes)
    ensures forall b {:trigger Alive(f.g, b)} :: b in e.code && b != cont ==> (Alive(f.g, b) <==> Alive(e.g, b))
    ensures Alive(f.g, cont) <==> Alive(d.g, cont) || (Alive(d.g, x) && survives && !closes)
    ensures cont in f.g.pred && f.g.pred[cont] == d.g.pred[cont] + (if closes then [] else [e.cur])
  {
    InArmOld(d, x, e, cont, survives, fine);
    if !closes {
      JumpAlive(e, f, cont);
    }
  }

  lemma ContAlive(d: Gen, x: Block, e: Gen, cont: Block, f: Gen, survives: bool, fine: bool, closes: bool)
    requires GraphOk(d) && Target(d, x, cont) && InArm(d, x, e, survives, fine) && GraphOk(f)
    requires f == e.BrIfOpen(cont) && (e.Terminated() <==> closes)
    ensures cont in f.g.pred && cont !in f.g.pred[cont]
    ensures AllAlive(f.g, cont) <==> AllAlive(d.g, cont) && (closes || (Alive(d.g, x) && survives))
  {
    InArmOld(d, x, e, cont, survives, fine);
    ContPreds(d, x, e, cont, f, survives, fine, closes);
    ValidGraph(d);
    forall p | p in d.g.pred[cont]
      ensures p in f.g.pred[cont] && (Alive(f.g, p) <==> Alive(d.g, p))
    {
      assert d.g.Edge(p, cont);
      assert PrefixAt(d.Insert(x), e, p);
    }
    assert e.cur in e.code && (Alive(f.g, e.cur) <==> Alive(d.g, x) && survives);
    if !closes {
      assert e.cur in f.g.pred[cont];
      assert forall p :: p in f.g.pred[cont] ==> p in d.g.pred[cont] || p == e.cur;
    }
  }

  lemma NewInArm(d: Gen, x: Block, e: Gen, cont: Block, f: Gen, survives: bool, fine: bool, closes: bool)
    requires GraphOk(d) && Target(d, x, cont) && InArm(d, x, e, survives, fine) && GraphOk(f)
    requires f == e.BrIfOpen(cont) && (e.Terminated() <==> closes)
    ensures !Alive(d.g, x) ==> NewDead(d, f)
    ensures Alive(d.g, x) ==> (NewAlive(d, f) <==> fine)
  {
    InArmOld(d, x, e, cont, survives, fine);
    ContPreds(d, x, e, cont, f, survives, fine, closes);
    assert f.code.Keys == e.code.Keys;
    forall b | b in e.code && b !in d.code
      ensures PredsAlive(f.g, b) <==> PredsAlive(e.g, b)
    {
      if !closes {
        JumpPreds(e, f, cont, b);
      }
    }
    assert NewAlive(d, f) <==> NewAlive(d.Insert(x), e);
  }

  lemma ArmFlow(d: Gen, x: Block, e: Gen, cont: Block, f: Gen, survives: bool, fine: bool, closes: bool)
    requires GraphOk(d) && Target(d, x, cont) && InArm(d, x, e, survives, fine) && GraphOk(f)
    requires f == e.BrIfOpen(cont) && (e.Terminated() <==> closes)
    ensures ArmGoes(d, f, x, cont, survives, fine, closes)
  {
    InArmOld(d, x, e, cont, survives, fine);
    ContPreds(d, x, e, cont, f, survives, fine, closes);
    ContAlive(d, x, e, cont, f, survives, fine, closes);
    NewInArm(d, x, e, cont, f, survives, fine, closes);
    forall b | b in d.code
      ensures b in e.code
    {
      assert PrefixAt(d.Insert(x), e, b);
    }
  }

  // ----- statements with arms -----

  lemma ForkTarget(st: Gen, d: Gen, yes: Block, no: Block, added: set<Block>, x: Block, cont: Block)
    requires GraphOk(st) && Forked(st, d, yes, no, added) && x in added && cont in added && x != cont
    ensures Target(d, x, cont) && (AllAlive(d.g, cont) <==> (cont == yes || cont == no ==> Alive(st.g, st.cur)))
  {
    ForkAlive(st, d, yes, no, added);
    assert ForkedBlock(d, cont, st.cur, yes, no) && ForkedBlock(d, x, st.cur, yes, no);
    assert BlockOk(d, cont);
    assert Alive(d.g, st.cur) <==> Alive(st.g, st.cur);
    if cont == yes || cont == no {
      assert st.cur in d.g.pred[cont];
    }
  }

  lemma KeysGrow(a: Gen, b: Gen, s: set<Block>, t: set<Block>)
    requires Step(a, b, s, t)
    ensures a.code.Keys <= b.code.Keys
  {
    forall x | x in a.code
      ensures x in b.code
    {
      assert PrefixAt(a, b, x);
    }
  }

  /** The blocks of the fork itself have the branch as their only predecessor. */
  lemma ForkedPreds(st: Gen, d: Gen, f: Gen, yes: Block, no: Block, added: set<Block>, x: Block)
    requires GraphOk(st) && Forked(st, d, yes, no, added) && x in added && SamePreds(d, f, x)
    requires Alive(f.g, st.cur) <==> Alive(d.g, st.cur)
    requires Alive(f.g, x) <==> Alive(d.g, x)
    ensures PredsAlive(f.g, x)
  {
    ForkAlive(st, d, yes, no, added);
    assert ForkedBlock(d, x, st.cur, yes, no);
  }

  /** An `if` without `else`. */
  lemma OneArmGoes(st: Gen, d: Gen, f: Gen, x: Block, cont: Block, survives: bool, fine: bool, closes: bool)
    requires GraphOk(st) && Forked(st, d, x, cont, {x, cont}) && x != cont
    requires ArmDone(d, f, x, cont) && ArmGoes(d, f, x, cont, survives, fine, closes)
    ensures Goes(st, f.Insert(cont), true, fine && (survives || closes))
  {
    ForkAlive(st, d, x, cont, {x, cont});
    ForkTarget(st, d, x, cont, {x, cont}, x, cont);
    assert st.cur != cont && Alive(f.g, st.cur) == Alive(d.g, st.cur);
    assert SamePreds(d, f, x);
    ForkedPreds(st, d, f, x, cont, {x, cont}, x);
    KeysGrow(d, f, {x}, {cont});
    NewBehindFork(st, d, f, {x, cont});
    Inserted(st, f, cont);
    if Alive(st.g, st.cur) {
      assert PredsAlive(f.g, cont) <==> survives || closes;
    }
  }

  lemma Inserted(st: Gen, f: Gen, b: Block)
    ensures NewAlive(st, f.Insert(b)) <==> NewAlive(st, f)
    ensures NewDead(st, f.Insert(b)) <==> NewDead(st, f)
  {
  }

  lemma NewBehindFork(st: Gen, d: Gen, f: Gen, added: set<Block>)
    requires d.code.Keys == st.code.Keys + added && added !! st.code.Keys && d.code.Keys <= f.code.Keys
    ensures NewAlive(st, f) <==> NewAlive(d, f) && forall x {:trigger PredsAlive(f.g, x)} :: x in added ==> PredsAlive(f.g, x)
    ensures NewDead(st, f) <==> NewDead(d, f) && forall x {:trigger Alive(f.g, x)} :: x in added ==> !Alive(f.g, x)
  {
  }

  /** Behind a second arm, the blocks of the first are what they were. */
  lemma FirstArmStays(f: Gen, h: Gen, y: Block, cont: Block, b: Block, survives: bool, fine: bool, closes: bool)
    requires GraphOk(f) && b in f.code && b != cont && ArmDone(f, h, y, cont) && ArmGoes(f, h, y, cont, survives, fine, closes)
    requires cont in f.g.succ && f.g.succ[cont] == []
    ensures PredsAlive(h.g, b) <==> PredsAlive(f.g, b)
  {
    ValidGraph(f);
    assert SamePreds(f, h, b);
    forall p | p in f.g.pred[b]
      ensures Alive(h.g, p) <==> Alive(f.g, p)
    {
      assert f.g.Edge(p, b);
    }
  }

  lemma ArmsBetween(st: Gen, d: Gen, f: Gen, h: Gen, x: Block, y: Block, cont: Block)
    requires GraphOk(st) && Forked(st, d, x, y, {x, y, cont}) && x != y && x != cont && y != cont
    requires ArmDone(d, f, x, cont) && ArmDone(f, h, y, cont)
    ensures d.code.Keys <= f.code.Keys <= h.code.Keys && cont in f.code && y in f.code
    ensures cont in f.g.succ && f.g.succ[cont] == [] && SamePreds(d, f, x) && SamePreds(d, f, y) && SamePreds(d, h, x) && SamePreds(d, h, y)
  {
    KeysGrow(d, f, {x}, {cont});
    KeysGrow(f, h, {y}, {cont});
    assert ForkedBlock(d, cont, st.cur, x, y) && SameBody(d, f, cont) && BlockOk(f, cont);
    assert SamePreds(d, f, x) && SamePreds(d, f, y) && SamePreds(f, h, x) && SamePreds(f, h, y);
  }

  lemma TwoArmsNew(d: Gen, f: Gen, h: Gen, y: Block, cont: Block, survives: bool, fine: bool, closes: bool)
    requires GraphOk(f) && cont in d.code && d.code.Keys <= f.code.Keys <= h.code.Keys
    requires ArmDone(f, h, y, cont) && ArmGoes(f, h, y, cont, survives, fine, closes)
    requires cont in f.g.succ && f.g.succ[cont] == []
    ensures NewAlive(d, h) <==> NewAlive(d, f) && NewAlive(f, h)
    ensures NewDead(d, h) <==> NewDead(d, f) && NewDead(f, h)
  {
    forall b | b in f.code && b !in d.code
      ensures (PredsAlive(h.g, b) <==> PredsAlive(f.g, b)) && (Alive(h.g, b) <==> Alive(f.g, b))
    {
      FirstArmStays(f, h, y, cont, b, survives, fine, closes);
    }
  }

  /** What control comes to behind the two arms. */
  lemma JoinAlive(st: Gen, d: Gen, f: Gen, h: Gen, x: Block, y: Block, cont: Block, s1: bool, f1: bool, c1: bool, s2: bool, f2: bool, c2: bool)
    requires GraphOk(st) && Forked(st, d, x, y, {x, y, cont}) && x != y && x != cont && y != cont
    requires ArmGoes(d, f, x, cont, s1, f1, c1) && ArmGoes(f, h, y, cont, s2, f2, c2) && d.code.Keys <= f.code.Keys
    ensures Alive(h.g, cont) <==> Alive(st.g, st.cur) && ((s1 && !c1) || (s2 && !c2))
    ensures Alive(st.g, st.cur) ==> (PredsAlive(h.g, cont) <==> (s1 && !c1 ==> s2 || c2) && (s2 && !c2 ==> s1 || c1))
    ensures Alive(f.g, y) <==> Alive(st.g, st.cur)
    ensures forall b {:trigger Alive(h.g, b)} :: b in d.code && b != cont ==> (Alive(h.g, b) <==> Alive(d.g, b))
  {
    ForkAlive(st, d, x, y, {x, y, cont});
    ForkTarget(st, d, x, y, {x, y, cont}, x, cont);
    forall b | b in d.code && b != cont
      ensures Alive(h.g, b) <==> Alive(d.g, b)
    {
      assert Alive(f.g, b) <==> Alive(d.g, b);
    }
  }

  lemma ForkEnds(st: Gen, d: Gen, h: Gen, x: Block, y: Block, cont: Block)
    requires GraphOk(st) && Forked(st, d, x, y, {x, y, cont}) && x != cont && y != cont && SamePreds(d, h, x) && SamePreds(d, h, y)
    requires forall b {:trigger Alive(h.g, b)} :: b in d.code && b != cont ==> (Alive(h.g, b) <==> Alive(d.g, b))
    ensures PredsAlive(h.g, x) && PredsAlive(h.g, y)
  {
    ForkedPreds(st, d, h, x, y, {x, y, cont}, x);
    ForkedPreds(st, d, h, x, y, {x, y, cont}, y);
  }

  /** An `if` with `else`. */
  lemma TwoArmsGo(st: Gen, d: Gen, f: Gen, h: Gen, x: Block, y: Block, cont: Block, s1: bool, f1: bool, c1: bool, s2: bool, f2: bool, c2: bool)
    requires GraphOk(st) && Forked(st, d, x, y, {x, y, cont}) && x != y && x != cont && y != cont
    requires ArmDone(d, f, x, cont) && ArmGoes(d, f, x, cont, s1, f1, c1)
    requires ArmDone(f, h, y, cont) && ArmGoes(f, h, y, cont, s2, f2, c2)
    ensures Goes(st, h.Insert(cont), (s1 && !c1) || (s2 && !c2), f1 && f2 && (s1 && !c1 ==> s2 || c2) && (s2 && !c2 ==> s1 || c1))
  {
    ForkAlive(st, d, x, y, {x, y, cont});
    ArmsBetween(st, d, f, h, x, y, cont);
    JoinAlive(st, d, f, h, x, y, cont, s1, f1, c1, s2, f2, c2);
    ForkEnds(st, d, h, x, y, cont);
    TwoArmsNew(d, f, h, y, cont, s2, f2, c2);
    NewBehindFork(st, d, h, {x, y, cont});
    Inserted(st, h, cont);
  }

  // ----- loops -----

  /** The head of a loop is entered from the block before it. */
  lemma HeadPred(st: Gen)
    requires Ready(st)
    ensures var head := st.Fresh(); var b := st.NewBlock().BrIfOpen(head);
            HeadDone(st, b, head) && GraphOk(b) && Ready(b.Insert(head)) && b.g.pred[head] == [st.cur]
  {
    HeadGrows(st);
    NewBlockOk(st);
    var a := st.NewBlock();
    assert SameBody(st, a, st.cur);
    BrOk(a, st.Fresh());
  }

  lemma HeadAlive(st: Gen, b: Gen, head: Block)
    requires HeadDone(st, b, head) && GraphOk(b) && b.g.pred[head] == [st.cur]
    ensures forall x {:trigger Alive(b.g, x)} :: x in st.code ==> (Alive(b.g, x) <==> Alive(st.g, x))
    ensures Alive(b.g, head) <==> Alive(st.g, st.cur)
  {
    OldAlive(st, b, {st.cur});
    EntryIsZero(st);
    ValidGraph(b);
    assert Alive(b.g, st.cur) <==> Alive(st.g, st.cur);
    if Alive(b.g, head) {
      AlivePred(b.g, head);
    }
    if Alive(st.g, st.cur) {
      assert st.cur in b.g.pred[head] && b.g.Edge(st.cur, head);
      AliveStep(b.g, st.cur, head);
    }
  }

  /** The blocks of a loop up to its branch: control comes to all that it came to, and to the arm and the exit if it came to the loop. */
  lemma LoopForkAlive(st: Gen, b: Gen, c: Gen, d: Gen, head: Block, x: Block, cont: Block)
    requires HeadDone(st, b, head) && GraphOk(b) && b.g.pred[head] == [st.cur]
    requires Flows(b.Insert(head), c) && Forked(c, d, x, cont, {x, cont}) && x != cont
    ensures forall z {:trigger Alive(d.g, z)} :: z in c.code ==> (Alive(d.g, z) <==> Alive(c.g, z))
    ensures head in c.code && head in d.code && head in d.g.pred && d.g.pred[head] == [st.cur] && st.cur in b.code
    ensures Alive(d.g, x) <==> Alive(st.g, st.cur)
    ensures Alive(d.g, cont) <==> Alive(st.g, st.cur)
    ensures Alive(d.g, head) <==> Alive(st.g, st.cur)
    ensures Alive(d.g, st.cur) <==> Alive(st.g, st.cur)
  {
    var b1 := b.Insert(head);
    HeadAlive(st, b, head);
    InsertOk(b, head);
    OldAlive(b1, c, {head});
    KeysGrow(b1, c, {head}, {});
    ForkAlive(c, d, x, cont, {x, cont});
    assert SamePreds(b1, c, head) && SamePreds(c, d, head);
    assert Alive(c.g, head) <==> Alive(b.g, head);
    assert Alive(c.g, st.cur) <==> Alive(b.g, st.cur);
    assert Alive(d.g, head) <==> Alive(c.g, head);
    assert Alive(d.g, st.cur) <==> Alive(c.g, st.cur);
  }

  /** No block of the condition has changed by the end of the loop. */
  lemma CondStays(b1: Gen, c: Gen, d: Gen, f: Gen, head: Block, x: Block, z: Block)
    requires GraphOk(c) && Step(c, d, {c.cur}, {}) && Step(d, f, {x}, {head}) && z in c.code && z != head
    requires forall y {:trigger Alive(f.g, y)} :: y in c.code ==> (Alive(f.g, y) <==> Alive(c.g, y))
    ensures PredsAlive(f.g, z) <==> PredsAlive(c.g, z)
  {
    ValidGraph(c);
    KeysGrow(c, d, {c.cur}, {});
    assert SamePreds(c, d, z) && SamePreds(d, f, z);
    forall p | p in c.g.pred[z]
      ensures Alive(f.g, p) <==> Alive(c.g, p)
    {
      assert c.g.Edge(p, z);
    }
  }

  lemma LoopTarget(st: Gen, b: Gen, c: Gen, d: Gen, head: Block, x: Block, cont: Block)
    requires HeadDone(st, b, head) && GraphOk(b) && b.g.pred[head] == [st.cur]
    requires Flows(b.Insert(head), c) && Forked(c, d, x, cont, {x, cont}) && x != cont
    ensures Target(d, x, head) && (AllAlive(d.g, head) <==> Alive(st.g, st.cur))
  {
    LoopForkAlive(st, b, c, d, head, x, cont);
    assert BlockOk(d, head);
    assert st.cur in d.g.pred[head];
  }

  /** What the blocks of the loop are like at its end. */
  lemma LoopEnd(st: Gen, b: Gen, c: Gen, d: Gen, f: Gen, head: Block, x: Block, cont: Block, survives: bool, fine: bool, closes: bool)
    requires HeadDone(st, b, head) && GraphOk(b) && b.g.pred[head] == [st.cur]
    requires Flows(b.Insert(head), c) && Forked(c, d, x, cont, {x, cont}) && x != cont
    requires ArmDone(d, f, x, head) && ArmGoes(d, f, x, head, survives, fine, closes)
    ensures forall z {:trigger Alive(f.g, z)} :: z in d.code ==> (Alive(f.g, z) <==> Alive(d.g, z))
    ensures PredsAlive(f.g, x) && PredsAlive(f.g, cont)
    ensures Alive(st.g, st.cur) ==> (PredsAlive(f.g, head) <==> survives || closes)
  {
    LoopForkAlive(st, b, c, d, head, x, cont);
    LoopTarget(st, b, c, d, head, x, cont);
    assert SamePreds(d, f, x) && SamePreds(d, f, cont);
    KeysGrow(c, d, {c.cur}, {});
    ForkedPreds(c, d, f, x, cont, {x, cont}, x);
    ForkedPreds(c, d, f, x, cont, {x, cont}, cont);
  }

  /** New since `st`: the head, the condition, the fork and the arm. */
  lemma LoopNew(st: Gen, b: Gen, c: Gen, d: Gen, f: Gen, head: Block, x: Block, cont: Block)
    requires b.code.Keys == st.code.Keys + {head} && head !in st.code && b.code.Keys <= c.code.Keys
    requires d.code.Keys == c.code.Keys + {x, cont} && {x, cont} !! c.code.Keys && d.code.Keys <= f.code.Keys
    requires forall z :: z in c.code && z != head ==> (PredsAlive(f.g, z) <==> PredsAlive(c.g, z))
    requires PredsAlive(f.g, x) && PredsAlive(f.g, cont)
    ensures NewAlive(st, f) <==> PredsAlive(f.g, head) && NewAlive(b.Insert(head), c) && NewAlive(d, f)
  {
    if NewAlive(st, f) {
      forall z | z in c.code && z !in b.code
        ensures PredsAlive(c.g, z)
      {
        assert PredsAlive(f.g, z);
      }
    }
    if PredsAlive(f.g, head) && NewAlive(b.Insert(head), c) && NewAlive(d, f) {
      forall z | z in f.code && z !in st.code
        ensures PredsAlive(f.g, z)
      {
        if z in c.code && z != head {
          assert PredsAlive(c.g, z);
        }
      }
    }
  }

  lemma LoopGoes(st: Gen, b: Gen, c: Gen, d: Gen, f: Gen, head: Block, x: Block, cont: Block, survives: bool, fine: bool, closes: bool)
    requires HeadDone(st, b, head) && GraphOk(b) && b.g.pred[head] == [st.cur]
    requires Flows(b.Insert(head), c) && Forked(c, d, x, cont, {x, cont}) && x != cont
    requires ArmDone(d, f, x, head) && ArmGoes(d, f, x, head, survives, fine, closes)
    ensures Goes(st, f.Insert(cont), true, fine && (survives || closes))
  {
    LoopForkAlive(st, b, c, d, head, x, cont);
    LoopEnd(st, b, c, d, f, head, x, cont, survives, fine, closes);
    KeysGrow(b.Insert(head), c, {head}, {});
    KeysGrow(c, d, {c.cur}, {});
    KeysGrow(d, f, {x}, {head});
    forall z | z in c.code && z != head
      ensures PredsAlive(f.g, z) <==> PredsAlive(c.g, z)
    {
      CondStays(b.Insert(head), c, d, f, head, x, z);
    }
    LoopNew(st, b, c, d, f, head, x, cont);
    Inserted(st, f, cont);
    HeadAlive(st, b, head);
    if !Alive(st.g, st.cur) {
      LoopDead(st, b, c, d, f, head, x, cont);
    }
  }

  lemma LoopDead(st: Gen, b: Gen, c: Gen, d: Gen, f: Gen, head: Block, x: Block, cont: Block)
    requires b.code.Keys == st.code.Keys + {head} && b.code.Keys <= c.code.Keys && d.code.Keys == c.code.Keys + {x, cont}
    requires d.code.Keys <= f.code.Keys && NewDead(b.Insert(head), c) && NewDead(d, f)
    requires forall z {:trigger Alive(f.g, z)} :: z in d.code ==> (Alive(f.g, z) <==> Alive(d.g, z))
    requires forall z {:trigger Alive(d.g, z)} :: z in c.code ==> (Alive(d.g, z) <==> Alive(c.g, z))
    requires !Alive(d.g, x) && !Alive(d.g, cont) && !Alive(d.g, head)
    ensures NewDead(st, f)
  {
  }

  // ----- statements -----

  /** The code of a statement ends in a return, in a block that control comes to, and without an edge from a dead block to a
      live one, exactly as the syntax tree says. */
  ghost predicate StmtGone(st: Gen, r: Gen, closes: bool, survives: bool, fine: bool) {
    StmtDone(st, r) && (r.Terminated() <==> closes) && Goes(st, r, survives, fine)
  }

  lemma FlowsGone(st: Gen, r: Gen)
    requires StmtDone(st, r) && Flows(st, r)
    ensures StmtGone(st, r, false, true, true)
  {
  }

  lemma RetGone(a: Gen, st: Gen, args: seq<I.Value>)
    requires Ready(a) && Flows(a, st) && st.types == a.types && st.addrs == a.addrs && st.ret == a.ret
    ensures StmtGone(a, st.Ret(args), true, true, true)
  {
    EmitGrows(st, I.Ret, args);
    StraightGoes(st, st.Ret(args));
    GrowsTrans(a, st, st.Ret(args));
    GoesTrans(a, st, st.Ret(args), true, true, true, true);
  }

  /** An expression, and then the branches that depend on it. */
  lemma FlowsThen(st: Gen, c: Gen, r: Gen, survives: bool, fine: bool)
    requires Ready(st) && Flows(st, c) && SameNames(st, c) && OpenDone(c, c, r) && Goes(c, r, survives, fine)
    ensures StmtGone(st, r, false, survives, fine)
  {
    GrowsTrans(st, c, r);
    GoesTrans(st, c, r, true, true, survives, fine);
  }

  lemma {:induction false} StmtGoes(st: Gen, s: Stmt)
    requires Ready(st) && StmtOk(st.types, st.ret, s)
    ensures StmtGone(st, GenStmt(st, s), Closes(s), Survives(s), Fine(s))
    decreases s, 3
  {
    StmtGrows(st, s);
    match s
    case ExprStmt(None) =>
      ReflFlows(st);
      FlowsGone(st, st);
    case ExprStmt(Some(e)) =>
      ExprFlows(st, e);
      FlowsGone(st, GenExpr(st, e).st);
    case Compound(decls, body) => CompoundGoes(st, decls, body);
    case If(cond, _, _) =>
      ExprFlows(st, cond);
      BranchGoes(GenExpr(st, cond), Tag(st.types, cond), s);
      FlowsThen(st, GenExpr(st, cond).st, GenStmt(st, s), Survives(s), Fine(s));
    case While(cond, loop) => WhileGoes(st, cond, loop);
    case Return(None) =>
      ReflFlows(st);
      RetGone(st, st, []);
    case Return(Some(e)) =>
      var r := GenExpr(st, e);
      ExprFlows(st, e);
      var w := Converting(r.st, r.v, Tag(st.types, e), st.ret.ty);
      ConvertingThen(st, r.st, r.v, Tag(st.types, e), st.ret.ty);
      RetGone(st, w.st, [w.v]);
  }

  lemma {:induction false} ArmIsGone(d: Gen, x: Block, s: Stmt, cont: Block)
    requires GraphOk(d) && Target(d, x, cont) && d.code[x] == [] && StmtOk(d.types, d.ret, s)
    ensures ArmDone(d, GenArm(d, x, s, cont), x, cont) && SameNames(d, GenArm(d, x, s, cont))
    ensures ArmGoes(d, GenArm(d, x, s, cont), x, cont, Survives(s), Fine(s), Closes(s))
    decreases s, 4
  {
    ArmGrows(d, x, s, cont);
    InsertOk(d, x);
    var e := GenStmt(d.Insert(x), s);
    StmtGoes(d.Insert(x), s);
    ArmFlow(d, x, e, cont, e.BrIfOpen(cont), Survives(s), Fine(s), Closes(s));
  }

  lemma {:induction false} BranchGoes(c: Out, ty: Ty, s: Stmt)
    requires s.If? && Ready(c.st) && StmtOk(c.st.types, c.st.ret, s)
    ensures OpenDone(c.st, c.st, GenIf(c, ty, s)) && Goes(c.st, GenIf(c, ty, s), Survives(s), Fine(s))
    decreases s, 2
  {
    BranchGrows(c, ty, s);
    if s.no.None? {
      ThenGoes(c, ty, s);
    } else {
      ElseGoes(c, ty, s);
    }
  }

  lemma {:induction false} ThenGoes(c: Out, ty: Ty, s: Stmt)
    requires s.If? && s.no.None? && Ready(c.st) && StmtOk(c.st.types, c.st.ret, s)
    ensures Goes(c.st, GenIf(c, ty, s), true, Fine(s))
    decreases s, 1
  {
    var n: Block, next: Block := c.st.Fresh(), c.st.Fresh() + 1;
    var d := Fork(c.st, c.v, ty);
    ForkGrows(c.st, c.v, ty);
    ForkTarget(c.st, d, n, next, {n, next}, n, next);
    assert ForkedBlock(d, n, c.st.cur, n, next);
    ArmIsGone(d, n, s.yes, next);
    OneArmGoes(c.st, d, GenArm(d, n, s.yes, next), n, next, Survives(s.yes), Fine(s.yes), Closes(s.yes));
  }

  lemma {:induction false} ElseGoes(c: Out, ty: Ty, s: Stmt)
    requires s.If? && s.no.Some? && Ready(c.st) && StmtOk(c.st.types, c.st.ret, s)
    ensures Goes(c.st, GenIf(c, ty, s), Survives(s), Fine(s))
    decreases s, 1
  {
    var n: Block, next: Block, e: Block := c.st.Fresh(), c.st.Fresh() + 1, c.st.Fresh() + 2;
    var d := ForkElse(c.st, c.v, ty);
    ForkElseGrows(c.st, c.v, ty);
    var f := GenArm(d, n, s.yes, next);
    var h := GenArm(f, e, s.no.value, next);
    ElseIs(c, ty, s, n, e, next, d, f, h);
    ArmsGo(c.st, d, n, e, next, s, s.yes, s.no.value, f, h);
  }

  lemma {:induction false} ArmsGo(st: Gen, d: Gen, n: Block, e: Block, next: Block, s: Stmt, yes: Stmt, no: Stmt, f: Gen, h: Gen)
    requires s.If? && yes == s.yes && s.no == Some(no) && Ready(st) && StmtOk(d.types, d.ret, yes) && StmtOk(d.types, d.ret, no)
    requires Forked(st, d, n, e, {n, e, next}) && n != e && n != next && e != next
    requires f == GenArm(d, n, yes, next) && h == GenArm(f, e, no, next)
    ensures Goes(st, h.Insert(next), FallsThrough(yes) || FallsThrough(no),
                 Fine(yes) && Fine(no) && (FallsThrough(yes) ==> !DeadEnd(no)) && (FallsThrough(no) ==> !DeadEnd(yes)))
    decreases s, 0
  {
    FirstTarget(st, d, n, e, next);
    ArmIsGone(d, n, yes, next);
    SecondTarget(d, f, n, e, next, Survives(yes), Fine(yes), Closes(yes));
    ArmIsGone(f, e, no, next);
    TwoArmsGo(st, d, f, h, n, e, next, Survives(yes), Fine(yes), Closes(yes), Survives(no), Fine(no), Closes(no));
  }

  lemma FirstTarget(st: Gen, d: Gen, n: Block, e: Block, next: Block)
    requires Ready(st) && Forked(st, d, n, e, {n, e, next}) && n != next
    ensures GraphOk(d) && Target(d, n, next) && n in d.code && d.code[n] == [] && e in d.code && d.code[e] == [] && d.code[next] == []
  {
    ForkTarget(st, d, n, e, {n, e, next}, n, next);
    assert ForkedBlock(d, n, st.cur, n, e) && ForkedBlock(d, e, st.cur, n, e) && ForkedBlock(d, next, st.cur, n, e);
  }

  lemma SecondTarget(d: Gen, f: Gen, n: Block, e: Block, next: Block, survives: bool, fine: bool, closes: bool)
    requires ArmDone(d, f, n, next) && ArmGoes(d, f, n, next, survives, fine, closes)
    requires e in d.code && next in d.code && n != e && n != next && e != next && d.code[e] == [] && d.code[next] == []
    ensures GraphOk(f) && Target(f, e, next) && e in f.code && f.code[e] == []
  {
    assert SameBody(d, f, e) && SameBody(d, f, next);
    assert BlockOk(f, next);
  }

  lemma {:induction false} WhileGoes(st: Gen, cond: Expr, loop: Stmt)
    requires Ready(st) && IsNumber(TypeOf(st.types, cond)) && StmtOk(st.types, st.ret, loop) && StmtDone(st, GenStmt(st, While(cond, loop)))
    ensures StmtGone(st, GenStmt(st, While(cond, loop)), false, true, Fine(loop) && !DeadEnd(loop))
    decreases loop, 7
  {
    var head := st.Fresh();
    var b := st.NewBlock().BrIfOpen(head);
    HeadPred(st);
    WhileIs(st, cond, loop, head, b.Insert(head));
    var c := GenExpr(b.Insert(head), cond);
    ExprFlows(b.Insert(head), cond);
    LoopArm(st, b, c, Tag(st.types, cond), head, loop);
    LoopIsGone(st, b, c, Tag(st.types, cond), head, loop);
  }

  lemma {:induction false} LoopIsGone(st: Gen, b: Gen, c: Out, ty: Ty, head: Block, loop: Stmt)
    requires HeadDone(st, b, head) && GraphOk(b) && b.g.pred[head] == [st.cur]
    requires Flows(b.Insert(head), c.st) && StmtOk(c.st.types, c.st.ret, loop)
    ensures Goes(st, GenLoop(c, ty, head, loop), true, Fine(loop) && !DeadEnd(loop))
    decreases loop, 5
  {
    var n: Block, next: Block := c.st.Fresh(), c.st.Fresh() + 1;
    var d := Fork(c.st, c.v, ty);
    ForkGrows(c.st, c.v, ty);
    LoopTarget(st, b, c.st, d, head, n, next);
    assert ForkedBlock(d, n, c.st.cur, n, next);
    ArmIsGone(d, n, loop, head);
    LoopGoes(st, b, c.st, d, GenArm(d, n, loop, head), head, n, next, Survives(loop), Fine(loop), Closes(loop));
  }

  lemma SameGraphGone(st: Gen, a: Gen, c: Gen, r: Gen, closes: bool, survives: bool, fine: bool)
    requires StmtDone(st, r) && (c.Terminated() <==> closes) && Goes(a, c, survives, fine)
    requires a.g == st.g && a.cur == st.cur && a.code == st.code && r.g == c.g && r.cur == c.cur && r.code == c.code
    ensures StmtGone(st, r, closes, survives, fine)
  {
    assert NewAlive(st, r) <==> NewAlive(a, c);
    assert NewDead(st, r) <==> NewDead(a, c);
  }

  lemma {:induction false} CompoundGoes(st: Gen, decls: seq<Decl>, body: seq<Stmt>)
    requires Ready(st) && BodyOk(Declared(st.types + [map[]], decls), st.ret, body)
    requires StmtDone(st, GenStmt(st, Compound(decls, body)))
    ensures StmtGone(st, GenStmt(st, Compound(decls, body)), BodyCloses(body), BodySurvives(body), BodyFine(body))
    decreases body, 2
  {
    var a := EnterScope(st);
    SameCodeOk(st, a);
    var b := GenDecls(a, decls);
    DeclsFlow(a, decls);
    DeclsGrow(a, decls);
    var c := GenBody(b, body);
    BodyGoes(b, body);
    GoesTrans(a, b, c, true, true, BodySurvives(body), BodyFine(body));
    SameGraphGone(st, a, c, ExitScope(c), BodyCloses(body), BodySurvives(body), BodyFine(body));
  }

  lemma {:induction false} DeclsFlow(st: Gen, decls: seq<Decl>)
    requires Ready(st)
    ensures Goes(st, GenDecls(st, decls), true, true) && GenDecls(st, decls).g == st.g
    ensures GenDecls(st, decls).cur == st.cur && GenDecls(st, decls).code.Keys == st.code.Keys
    decreases decls
  {
    if decls != [] {
      DeclGrows(st, decls[0]);
      DeclsFlow(GenDecl(st, decls[0]), decls[1..]);
    }
    StraightGoes(st, GenDecls(st, decls));
  }

  lemma {:induction false} BodyGoes(st: Gen, body: seq<Stmt>)
    requires Ready(st) && BodyOk(st.types, st.ret, body)
    ensures StmtGone(st, GenBody(st, body), BodyCloses(body), BodySurvives(body), BodyFine(body))
    decreases body, 1
  {
    BodyGrows(st, body);
    if body == [] {
      ReflFlows(st);
    } else {
      var st1 := GenStmt(st, body[0]);
      StmtGoes(st, body[0]);
      if !st1.Terminated() {
        BodyGoes(st1, body[1..]);
        GoesTrans(st, st1, GenBody(st1, body[1..]), Survives(body[0]), Fine(body[0]), BodySurvives(body[1..]), BodyFine(body[1..]));
      }
    }
  }

  // ----- functions -----

  lemma {:induction false} ParamsStraight(st: Gen, params: seq<Param>)
    requires Ready(st)
    ensures var r := GenParams(st, params); Ready(r) && r.g == st.g && r.cur == st.cur && r.code.Keys == st.code.Keys
  {
    ParamsGrow(st, params);
    if params != [] {
      ParamsStraight(st, params[..|params| - 1]);
    }
  }

  lemma FunctionGoes(types: Scopes<Shape>, addrs: Scopes<I.Value>, ret: RetTy, params: seq<Param>, decls: seq<Decl>, body: seq<Stmt>)
    requires BodyOk(FunctionTypes(types, params, decls), ret, body)
    ensures var s0 := Start(types, addrs, ret); var s3 := GenBody(GenDecls(GenParams(s0, params), decls), body);
            GraphOk(s3) && (NewAlive(s0, s3) <==> BodyFine(body))
  {
    var s0 := Start(types, addrs, ret);
    StartOk(types, addrs, ret);
    var s1 := GenParams(s0, params);
    ParamsStraight(s0, params);
    ParamsGrow(s0, params);
    var s2 := GenDecls(s1, decls);
    DeclsGrow(s1, decls);
    DeclsFlow(s1, decls);
    BodyGoes(s2, body);
    AliveEntry(s0.g);
    SameStart(s0, s2, GenBody(s2, body));
  }

  lemma SameStart(s0: Gen, s2: Gen, s3: Gen)
    requires s2.code.Keys == s0.code.Keys
    ensures NewAlive(s0, s3) <==> NewAlive(s2, s3)
  {
  }

  /** The predecessors of the reachable blocks are reachable exactly if no dead end of the syntax tree leads to where control
      can be. */
  lemma LivePredsIffFine(types: Scopes<Shape>, addrs: Scopes<I.Value>, ret: RetTy, params: seq<Param>, decls: seq<Decl>, body: seq<Stmt>)
    requires BodyOk(FunctionTypes(types, params, decls), ret, body)
    ensures var g := GenFunction(types, addrs, ret, params, decls, body).g;
            g.Valid() && (LivePreds(g) <==> BodyFine(body))
  {
    var s0 := Start(types, addrs, ret);
    var s3 := GenBody(GenDecls(GenParams(s0, params), decls), body);
    FunctionGoes(types, addrs, ret, params, decls, body);
    GeneratedIsWellFormed(types, addrs, ret, params, decls, body);
    EntryIsZero(s3);
    assert GenFunction(types, addrs, ret, params, decls, body).g == s3.g;
    NewIsLive(s0, s3);
  }

  lemma NewIsLive(s0: Gen, s3: Gen)
    requires s0.code.Keys == {0} && GraphOk(s3) && s3.g.Valid() && s3.g.Entry() == 0 && NoEntryPred(s3.g)
    ensures LivePreds(s3.g) <==> NewAlive(s0, s3)
  {
    var g := s3.g;
    assert forall b :: Reachable(g, b) <==> Alive(g, b);
    if LivePreds(g) {
      forall b | b in s3.code && b !in s0.code
        ensures PredsAlive(g, b)
      {
        assert BlockOk(s3, b);
      }
    }
    if NewAlive(s0, s3) {
      forall b, p | b in g.pred && p in g.pred[b] && Reachable(g, b)
        ensures Reachable(g, p)
      {
        assert b in s3.code && b != 0;
        assert PredsAlive(g, b) && Alive(g, p);
      }
    }
  }
}
