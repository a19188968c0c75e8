/**
  What the code generator emits, as functions from the state of the builder to the state after it.
 */
module Generator {
  import opened Options
  import opened Syntax
  import I = Ir
  import opened Cfg
  import opened Meaning

  /** The blocks of the function that is being built and their edges, the insert point, the names in scope with
      their types and addresses, the next identity, the local arrays and their allocas, and the return type. */
  datatype Gen = Gen(g: Graph, code: I.Code, cur: Block, nextId: nat, types: Scopes<Shape>, addrs: Scopes<I.Value>,
                     homes: set<(nat, nat)>, ret: RetTy)
  {
    /** `get_terminator` of the insert block. */
    predicate Terminated() {
      cur in code && code[cur] != [] && I.IsTerminator(code[cur][|code[cur]| - 1])
    }

    function Append(i: I.Instr): Gen {
      this.(code := code[cur := At(code, cur) + [i]], nextId := nextId + 1)
    }

    function Emit(op: I.Op, args: seq<I.Value>): Gen {
      Append(I.Instr(nextId, op, args, []))
    }

    /** The value that the next instruction will produce. */
    function Next(op: I.Op): I.Value {
      I.Result(nextId, I.KindOf(op))
    }

    function Fresh(): Block {
      |g.blocks|
    }

    function NewBlock(): Gen {
      var b := Fresh();
      this.(g := Graph(g.blocks + [b], g.pred[b := []], g.succ[b := []]), code := code[b := []])
    }

    function Insert(b: Block): Gen {
      this.(cur := b)
    }

    function Link(to: Block): Gen {
      this.(g := g.(pred := g.pred[to := Edges(g.pred, to) + [cur]], succ := g.succ[cur := Edges(g.succ, cur) + [to]]))
    }

    function Br(to: Block): Gen {
      Link(to).Append(I.Instr(nextId, I.Br, [], [to]))
    }

    /** `create_cond_br` files the false target first. */
    function CondBr(c: I.Value, yes: Block, no: Block): Gen {
      Link(no).Link(yes).Append(I.Instr(nextId, I.CondBr, [c], [yes, no]))
    }

    function BrIfOpen(to: Block): Gen {
      if Terminated() then this else Br(to)
    }

    function Ret(args: seq<I.Value>): Gen {
      Emit(I.Ret, args)
    }

    function DefaultRet(): Gen {
      Ret(if ret.VoidT? then [] else [I.ConstantInt(0)])
    }
  }

  function At(code: I.Code, b: Block): seq<I.Instr> {
    if b in code then code[b] else []
  }

  function Edges(m: map<Block, seq<Block>>, b: Block): seq<Block> {
    if b in m then m[b] else []
  }

  /** The same names in scope and the same function. */
  predicate SameScope(a: Gen, b: Gen) {
    b.types == a.types && b.addrs == a.addrs && b.ret == a.ret && b.homes == a.homes
  }

  datatype Out = Out(st: Gen, v: I.Value)

  function AddrOf(st: Gen, name: string): I.Value {
    match Level(st.addrs, name)
    case None => I.ConstantInt(0)
    case Some(k) => st.addrs[k][name]
  }

  function Computing(st: Gen, op: nat, args: seq<I.Value>): (r: Out)
    ensures SameScope(st, r.st)
  {
    Out(st.Emit(I.Compute(op), args), st.Next(I.Compute(op)))
  }

  function Converting(st: Gen, v: I.Value, from: Ty, to: Ty): (r: Out)
    ensures SameScope(st, r.st)
  {
    if from == to then Out(st, v) else Computing(st, if from.IntT? then SITOFP else FPTOSI, [v])
  }

  function GenExpr(st: Gen, e: Expr): (r: Out)
    ensures SameScope(st, r.st)
    decreases e, 1
  {
    match e
    case Num(_, n) => Out(st, I.ConstantInt(n))
    case Var(name, None) => GenName(st, name)
    case Var(name, Some(index)) => GenRead(st, name, index)
    case Assign(name, None, value) => GenSet(st, name, value)
    case Assign(name, Some(index), value) => GenSetAt(st, name, index, value)
    case Binary(op, l, r) => GenBoth(st, op, l, r)
    case Call(name, args) => GenCall(st, name, args)
  }

  /** The value of a variable; an array stands for the address of its first element. */
  function GenName(st: Gen, name: string): (r: Out)
    ensures SameScope(st, r.st)
  {
    match ShapeFor(st.types, name)
    case Some(Array(_)) => Out(st.Emit(I.Gep, [AddrOf(st, name), I.ConstantInt(0), I.ConstantInt(0)]), st.Next(I.Gep))
    case _ => GenLoad(st, AddrOf(st, name))
  }

  function GenLoad(st: Gen, addr: I.Value): (r: Out)
    ensures SameScope(st, r.st)
  {
    Out(st.Emit(I.Load, [addr]), st.Next(I.Load))
  }

  function GenRead(st: Gen, name: string, index: Expr): (r: Out)
    ensures SameScope(st, r.st)
    decreases index, 4
  {
    var a := GenElement(st, name, index);
    GenLoad(a.st, a.v)
  }

  function GenSet(st: Gen, name: string, value: Expr): (r: Out)
    ensures SameScope(st, r.st)
    decreases value, 2
  {
    var r := GenExpr(st, value);
    GenStore(r, Tag(st.types, value), AddrOf(st, name), VarTag(st.types, name))
  }

  function GenSetAt(st: Gen, name: string, index: Expr, value: Expr): (r: Out)
    ensures SameScope(st, r.st)
    decreases Assign(name, Some(index), value), 0
  {
    GenPut(GenExpr(st, value), Tag(st.types, value), name, index)
  }

  /** Store an evaluated value to an element. */
  function GenPut(r: Out, tag: Ty, name: string, index: Expr): (o: Out)
    ensures SameScope(r.st, o.st)
    decreases index, 4
  {
    var a := GenElement(r.st, name, index);
    GenStore(Out(a.st, r.v), tag, a.v, ElemTag(r.st.types, name))
  }

  function GenBoth(st: Gen, op: BinOp, l: Expr, r: Expr): (o: Out)
    ensures SameScope(st, o.st)
    decreases Binary(op, l, r), 0
  {
    var x := GenExpr(st, l);
    var y := GenExpr(x.st, r);
    GenBinary(y.st, op, x.v, Tag(st.types, l), y.v, Tag(st.types, r))
  }

  function GenCall(st: Gen, name: string, args: seq<Expr>): (r: Out)
    ensures SameScope(st, r.st)
    decreases args, 2
  {
    match ShapeFor(st.types, name)
    case Some(Function(f, params, _)) =>
      if |args| != |params| then Out(st, I.ConstantInt(0))
      else
        var a := GenArgs(st, args, params);
        Out(a.st.Emit(I.Call(f), a.vs), a.st.Next(I.Call(f)))
    case _ => Out(st, I.ConstantInt(0))
  }

  /** Convert to the type of the target, then store. */
  function GenStore(r: Out, from: Ty, addr: I.Value, to: Ty): (o: Out)
    ensures SameScope(r.st, o.st)
  {
    var w := Converting(r.st, r.v, from, to);
    Out(w.st.Emit(I.Store, [w.v, addr]), w.v)
  }

  function GenBinary(st: Gen, op: BinOp, l: I.Value, tl: Ty, r: I.Value, tr: Ty): (o: Out)
    ensures SameScope(st, o.st)
  {
    var ty := Joined(tl, tr);
    var x := Converting(st, l, tl, ty);
    var y := Converting(x.st, r, tr, ty);
    var z := Computing(y.st, OpCode(op, ty), [x.v, y.v]);
    if IsCompare(op) then Computing(z.st, ZEXT, [z.v]) else z
  }

  /** The address of an element, behind a check that the index is not negative. */
  function GenElement(st: Gen, name: string, index: Expr): (r: Out)
    ensures SameScope(st, r.st) && r.v.Result? && r.v.kind.GetElementPtrInst?
    decreases index, 3
  {
    var i := GenIndex(st, index);
    GenAddress(i.st, name, i.v)
  }

  function GenIndex(st: Gen, index: Expr): (r: Out)
    ensures SameScope(st, r.st)
    decreases index, 2
  {
    var i := GenExpr(st, index);
    Checked(i.st, i.v, Tag(st.types, index))
  }

  /** The state behind the check of an index, and the index as an int. */
  function Checked(st: Gen, v: I.Value, ty: Ty): (r: Out)
    ensures SameScope(st, r.st)
  {
    var except, cont := st.Fresh(), st.NewBlock().Fresh();
    var j := Converting(st.NewBlock().NewBlock(), v, ty, IntT);
    var neg := Computing(j.st, OpCode(Lt, IntT), [j.v, I.ConstantInt(0)]);
    Out(neg.st.CondBr(neg.v, except, cont).Insert(except).Emit(I.Call(NEG_IDX_EXCEPT), []).DefaultRet().Insert(cont), j.v)
  }

  function GenAddress(st: Gen, name: string, i: I.Value): (r: Out)
    ensures SameScope(st, r.st) && r.v.Result? && r.v.kind.GetElementPtrInst?
  {
    match ShapeFor(st.types, name)
    case Some(Pointer(_)) =>
      var p := st.Emit(I.Load, [AddrOf(st, name)]);
      Out(p.Emit(I.Gep, [st.Next(I.Load), i]), p.Next(I.Gep))
    case Some(Scalar(_)) => Out(st.Emit(I.Gep, [AddrOf(st, name), i]), st.Next(I.Gep))
    case _ => Out(st.Emit(I.Gep, [AddrOf(st, name), I.ConstantInt(0), i]), st.Next(I.Gep))
  }

  datatype Outs = Outs(st: Gen, vs: seq<I.Value>)

  function GenArgs(st: Gen, args: seq<Expr>, params: seq<Param>): (r: Outs)
    requires |args| == |params|
    ensures SameScope(st, r.st) && |r.vs| == |args|
    decreases args, 1
  {
    if args == [] then Outs(st, [])
    else
      var n := |args| - 1;
      var rest := GenArgs(st, args[..n], params[..n]);
      var w := GenArg(rest.st, args[n], params[n]);
      Outs(w.st, rest.vs + [w.v])
  }

  /** One argument, converted to the type of its parameter. */
  function GenArg(st: Gen, arg: Expr, param: Param): (r: Out)
    ensures SameScope(st, r.st)
    decreases arg, 2
  {
    var a := GenExpr(st, arg);
    if param.isArray then a else Converting(a.st, a.v, Tag(st.types, arg), param.ty)
  }

  // ----- statements -----

  /** The branch on a condition: compare with zero. */
  function GenTest(st: Gen, v: I.Value, ty: Ty): (r: Out)
    ensures SameScope(st, r.st)
  {
    Computing(st, OpCode(Neq, ty), [v, I.ConstantInt(0)])
  }

  /** Two new blocks, and a branch to the first if `v` is not zero, else to the second. */
  function Fork(st: Gen, v: I.Value, ty: Ty): (r: Gen)
    ensures SameScope(st, r)
  {
    var n := st.Fresh();
    var test := GenTest(st.NewBlock().NewBlock(), v, ty);
    test.st.CondBr(test.v, n, n + 1)
  }

  /** Three new blocks, and a branch to the first if `v` is not zero, else to the third. */
  function ForkElse(st: Gen, v: I.Value, ty: Ty): (r: Gen)
    ensures SameScope(st, r)
  {
    var n := st.Fresh();
    var test := GenTest(st.NewBlock().NewBlock(), v, ty);
    test.st.NewBlock().CondBr(test.v, n, n + 2)
  }

  function GenDecl(st: Gen, d: Decl): Gen
  {
    var op := I.Alloca(d.len.None?);
    var st1 := st.Emit(op, []);
    st1.(types := Push(st.types, d.name, ShapeOf(d)), addrs := Push(st.addrs, d.name, st.Next(op)),
         homes := st.homes + {(d.node, st.nextId)})
  }

  function GenDecls(st: Gen, decls: seq<Decl>): Gen
    decreases decls
  {
    if decls == [] then st else GenDecls(GenDecl(st, decls[0]), decls[1..])
  }

  function EnterScope(st: Gen): Gen {
    st.(types := st.types + [map[]], addrs := st.addrs + [map[]])
  }

  function Outer<T>(s: Scopes<T>): Scopes<T> {
    if s == [] then [] else s[..|s| - 1]
  }

  function ExitScope(st: Gen): Gen
  {
    st.(types := Outer(st.types), addrs := Outer(st.addrs))
  }

  function GenStmt(st: Gen, s: Stmt): Gen
    decreases s, 1
  {
    match s
    case ExprStmt(None) => st
    case ExprStmt(Some(e)) => GenExpr(st, e).st
    case Compound(decls, body) => ExitScope(GenBody(GenDecls(EnterScope(st), decls), body))
    case If(cond, _, _) => GenIf(GenExpr(st, cond), Tag(st.types, cond), s)
    case While(cond, loop) =>
      var head := st.Fresh();
      GenLoop(GenExpr(st.NewBlock().BrIfOpen(head).Insert(head), cond), Tag(st.types, cond), head, loop)
    case Return(None) => st.Ret([])
    case Return(Some(e)) =>
      var r := GenExpr(st, e);
      var w := if st.ret.Returns? then Converting(r.st, r.v, Tag(st.types, e), st.ret.ty) else r;
      w.st.Ret([w.v])
  }

  /** A statement in a block of its own, which leads on to `next` unless it ends in a return. */
  function GenArm(st: Gen, b: Block, s: Stmt, next: Block): Gen
    decreases s, 2
  {
    GenStmt(st.Insert(b), s).BrIfOpen(next)
  }

  /** An `if`, behind the evaluation of the condition. */
  function GenIf(c: Out, ty: Ty, s: Stmt): Gen
    requires s.If?
    decreases s, 0
  {
    var n := c.st.Fresh();
    if s.no.None? then GenArm(Fork(c.st, c.v, ty), n, s.yes, n + 1).Insert(n + 1)
    else GenArm(GenArm(ForkElse(c.st, c.v, ty), n, s.yes, n + 1), n + 2, s.no.value, n + 1).Insert(n + 1)
  }

  /** The body of a loop and its end, behind the evaluation of the condition. */
  function GenLoop(c: Out, ty: Ty, head: Block, loop: Stmt): Gen
    decreases loop, 3
  {
    var n := c.st.Fresh();
    GenArm(Fork(c.st, c.v, ty), n, loop, head).Insert(n + 1)
  }

  /** The rest of a list of statements is dropped behind one that leaves the insert block terminated. */
  function GenBody(st: Gen, body: seq<Stmt>): Gen
    decreases body, 1
  {
    if body == [] then st
    else
      var st1 := GenStmt(st, body[0]);
      if st1.Terminated() then st1 else GenBody(st1, body[1..])
  }

  // ----- functions -----

  /** Parameter `k` is stored to a variable of its own. */
  function GenParam(st: Gen, p: Param, k: nat): Gen
  {
    var op := I.Alloca(!p.isArray);
    var addr := st.Next(op);
    var st1 := st.Emit(op, []);
    st1.Emit(I.Store, [I.Argument(k), addr]).(
      types := Push(st.types, p.name, ParamShape(p)),
      addrs := Push(st.addrs, p.name, addr))
  }

  function GenParams(st: Gen, params: seq<Param>): Gen
  {
    if params == [] then st
    else GenParam(GenParams(st, params[..|params| - 1]), params[|params| - 1], |params| - 1)
  }

  /** The builder at the start of a function: one empty block, a scope for the parameters. */
  function Start(types: Scopes<Shape>, addrs: Scopes<I.Value>, ret: RetTy): Gen {
    EnterScope(Gen(Graph([0], map[0 := []], map[0 := []]), map[0 := []], 0, 0, types, addrs, {}, ret))
  }

  function GenFunction(types: Scopes<Shape>, addrs: Scopes<I.Value>, ret: RetTy, params: seq<Param>, decls: seq<Decl>, body: seq<Stmt>): Gen {
    var st := GenBody(GenDecls(GenParams(Start(types, addrs, ret), params), decls), body);
    if st.Terminated() then st else st.DefaultRet()
  }
}
