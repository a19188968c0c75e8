/**
  What the visits of the code generator rely on: the functions of `Generator` taken apart at the points
  where the visitors call each other.
 */
module Visiting {
  import opened Options
  import opened Syntax
  import opened Cfg
  import I = Ir
  import opened Meaning
  import opened Generator
  import opened Emitted
  import opened WellFormed
  import opened Lowering

  /** What visiting a variable yields. */
  function VarOut(st: Gen, name: string, index: Option<Expr>, lvalue: bool): Out {
    match (index, lvalue)
    case (None, true) => Out(st, AddrOf(st, name))
    case (None, false) => GenName(st, name)
    case (Some(i), true) => GenElement(st, name, i)
    case (Some(i), false) => GenRead(st, name, i)
  }

  /** An assignment in three parts: the value, the address, and the store. */
  lemma AssignParts(st: Gen, name: string, index: Option<Expr>, value: Expr, r: Out, a: Out, w: Out)
    requires r == GenExpr(st, value) && a == VarOut(r.st, name, index, true)
    requires w == GenStore(Out(a.st, r.v), Tag(st.types, value), a.v, if index.None? then VarTag(st.types, name) else ElemTag(st.types, name))
    ensures w == GenExpr(st, Assign(name, index, value))
  {
    if index.None? {
      assert GenExpr(st, Assign(name, None, value)) == GenSet(st, name, value);
    } else {
      assert GenExpr(st, Assign(name, index, value)) == GenSetAt(st, name, index.value, value);
      assert GenSetAt(st, name, index.value, value) == GenPut(r, Tag(st.types, value), name, index.value);
    }
  }

  lemma BinaryParts(st: Gen, op: BinOp, l: I.Value, tl: Ty, r: I.Value, tr: Ty, x: Out, y: Out, z: Out, w: Out)
    requires var ty := Joined(tl, tr); x == Converting(st, l, tl, ty) && y == Converting(x.st, r, tr, ty)
    requires z == Computing(y.st, OpCode(op, Joined(tl, tr)), [x.v, y.v]) && w == if IsCompare(op) then Computing(z.st, ZEXT, [z.v]) else z
    ensures w == GenBinary(st, op, l, tl, r, tr)
  {
  }

  lemma IndexParts(st: Gen, index: Expr, i: Out, w: Out)
    requires i == GenExpr(st, index) && w == Checked(i.st, i.v, Tag(st.types, index))
    ensures w == GenIndex(st, index)
  {
  }

  lemma ReadParts(st: Gen, name: string, index: Expr, a: Out, w: Out)
    requires a == GenElement(st, name, index) && w == GenLoad(a.st, a.v)
    ensures w == GenRead(st, name, index)
  {
  }

  lemma CallParts(st: Gen, name: string, args: seq<Expr>, a: Outs, w: Out)
    requires ShapeFor(st.types, name).Some? && ShapeFor(st.types, name).value.Function? && |args| == |ShapeFor(st.types, name).value.params|
    requires var f := ShapeFor(st.types, name).value; a == GenArgs(st, args, f.params) && w == Out(a.st.Emit(I.Call(f.id), a.vs), a.st.Next(I.Call(f.id)))
    ensures w == GenCall(st, name, args)
  {
  }

  lemma SubscriptTyped(types: Scopes<Shape>, name: string, index: Expr)
    requires TypeOf(types, Var(name, Some(index))).Some?
    ensures IsNumber(TypeOf(types, index)) && ShapeFor(types, name).Some? && (ShapeFor(types, name).value.Array? || ShapeFor(types, name).value.Pointer?)
    ensures TypeOf(types, Var(name, Some(index))) == Some(Number(ShapeFor(types, name).value.ty))
  {
  }

  /** What is assigned to has a type of its own. */
  lemma TargetTyped(types: Scopes<Shape>, name: string, index: Option<Expr>, value: Expr)
    requires TypeOf(types, Assign(name, index, value)).Some?
    ensures IsNumber(TypeOf(types, value)) && IsNumber(TypeOf(types, Var(name, index))) && TypeOf(types, Assign(name, index, value)) == TypeOf(types, Var(name, index))
    ensures TypeOf(types, Var(name, index)).value.ty == if index.None? then VarTag(types, name) else ElemTag(types, name)
  {
  }

  lemma BodyStep(a: Gen, b: Gen, body: seq<Stmt>, k: nat)
    requires k < |body| && b == GenStmt(a, body[k])
    ensures GenBody(a, body[k..]) == if b.Terminated() then b else GenBody(b, body[k + 1..])
  {
    assert body[k..][1..] == body[k + 1..];
  }

  /** Both arms of an `if` start in blocks that are still empty. */
  lemma ArmsReady(st: Gen, d: Gen, v: I.Value, ty: Ty, s: Stmt)
    requires s.If? && s.no.Some? && Ready(st) && StmtOk(st.types, st.ret, s) && d == ForkElse(st, v, ty)
    ensures var n := st.Fresh(); var f := GenArm(d, n, s.yes, n + 1);
            && GraphOk(d) && n in d.code && d.code[n] == [] && GraphOk(f) && n + 2 in f.code && f.code[n + 2] == []
  {
    var n := st.Fresh();
    ForkElseGrows(st, v, ty);
    assert ForkedBlock(d, n, st.cur, n, n + 2) && ForkedBlock(d, n + 1, st.cur, n, n + 2) && ForkedBlock(d, n + 2, st.cur, n, n + 2);
    ArmGrows(d, n, s.yes, n + 1);
    assert SameBody(d, GenArm(d, n, s.yes, n + 1), n + 2);
  }

  lemma ArmStart(st: Gen, b: Block)
    requires GraphOk(st) && b in st.code && st.code[b] == []
    ensures Ready(st.Insert(b))
  {
    InsertOk(st, b);
  }

  lemma IfElseParts(st: Gen, v: I.Value, ty: Ty, s: Stmt, d: Gen, f: Gen, w: Gen)
    requires s.If? && s.no.Some? && d == ForkElse(st, v, ty)
    requires var n := st.Fresh(); f == GenArm(d, n, s.yes, n + 1) && w == GenArm(f, n + 2, s.no.value, n + 1).Insert(n + 1)
    ensures w == GenIf(Out(st, v), ty, s)
  {
  }

  lemma HeadReady(st: Gen, h: Gen)
    requires Ready(st) && h == st.NewBlock().BrIfOpen(st.Fresh()).Insert(st.Fresh())
    ensures Ready(h)
  {
    HeadGrows(st);
  }

  lemma LoopParts(st: Gen, s: Stmt, h: Gen, x: Out, w: Gen)
    requires s.While? && h == st.NewBlock().BrIfOpen(st.Fresh()).Insert(st.Fresh()) && x == GenExpr(h, s.cond)
    requires w == GenLoop(x, Tag(st.types, s.cond), st.Fresh(), s.loop)
    ensures w == GenStmt(st, s)
  {
  }

  /** A declaration outside of all functions. */
  function GlobalDecl(st: Gen, d: Decl): Gen {
    st.(types := Push(st.types, d.name, ShapeOf(d)), addrs := Push(st.addrs, d.name, I.GlobalVariable(d.node)))
  }

  lemma {:induction false} DeclsParallel(st: Gen, decls: seq<Decl>)
    requires Parallel(st.types, st.addrs)
    ensures Parallel(GenDecls(st, decls).types, GenDecls(st, decls).addrs)
    decreases decls
  {
    if decls != [] {
      DeclsParallel(GenDecl(st, decls[0]), decls[1..]);
    }
  }

  // ----- functions -----

  datatype Fun = Fun(name: string, id: nat, ret: RetTy, params: seq<Param>, decls: seq<Decl>, body: seq<Stmt>)

  /** A finished function. */
  datatype Generated = Generated(id: nat, g: Graph, code: I.Code)

  function FunTypes(types: Scopes<Shape>, f: Fun): Scopes<Shape> {
    Push(types, f.name, Function(f.id, f.params, f.ret))
  }

  function FunAddrs(addrs: Scopes<I.Value>, f: Fun): Scopes<I.Value> {
    Push(addrs, f.name, I.GlobalVariable(f.id))
  }

  predicate FunOk(types: Scopes<Shape>, f: Fun) {
    BodyOk(FunctionTypes(FunTypes(types, f), f.params, f.decls), f.ret, f.body)
  }

  datatype TopDecl = Variable(d: Decl) | Defined(f: Fun)

  function TopTypes(types: Scopes<Shape>, t: TopDecl): Scopes<Shape> {
    match t
    case Variable(d) => Push(types, d.name, ShapeOf(d))
    case Defined(f) => FunTypes(types, f)
  }

  predicate ProgramOk(types: Scopes<Shape>, decls: seq<TopDecl>)
    decreases decls
  {
    decls == [] || ((decls[0].Defined? ==> FunOk(types, decls[0].f)) && ProgramOk(TopTypes(types, decls[0]), decls[1..]))
  }

  function Funs(decls: seq<TopDecl>): seq<Fun> {
    if decls == [] then []
    else
      var last := decls[|decls| - 1];
      Funs(decls[..|decls| - 1]) + if last.Defined? then [last.f] else []
  }

  function RuntimeTypes(): (r: Scopes<Shape>)
    ensures |r| == 1
  {
    var s1 := Push([map[]], "input", Function(0, [], Returns(IntT)));
    var s2 := Push(s1, "output", Function(1, [Param("", IntT, false)], VoidT));
    var s3 := Push(s2, "outputFloat", Function(2, [Param("", FloatT, false)], VoidT));
    Push(s3, "neg_idx_except", Function(NEG_IDX_EXCEPT, [], VoidT))
  }

  /** `r` is what is generated for `f` with some globals in scope, and it is well formed. */
  ghost predicate CompiledFrom(r: Generated, f: Fun) {
    exists types, addrs :: CompiledWith(r, f, types, addrs)
  }

  ghost predicate CompiledWith(r: Generated, f: Fun, types: Scopes<Shape>, addrs: Scopes<I.Value>) {
    && ScopeOk(types, addrs, 0) && BodyOk(FunctionTypes(types, f.params, f.decls), f.ret, f.body)
    && var st := GenFunction(types, addrs, f.ret, f.params, f.decls, f.body);
       FunctionOk(st) && r == Generated(f.id, st.g, st.code)
  }

  ghost predicate AllCompiled(rs: seq<Generated>, fs: seq<Fun>) {
    |rs| == |fs| && forall k {:trigger rs[k]} :: 0 <= k < |rs| ==> CompiledFrom(rs[k], fs[k])
  }

  lemma AlsoCompiled(rs: seq<Generated>, rs': seq<Generated>, fs: seq<Fun>, t: TopDecl)
    requires AllCompiled(rs, fs) && rs <= rs' && |rs'| == |rs| + if t.Defined? then 1 else 0
    requires t.Defined? ==> CompiledFrom(rs'[|rs|], t.f)
    ensures AllCompiled(rs', fs + if t.Defined? then [t.f] else [])
  {
  }

  /** Outside of all functions there are no allocas in scope. */
  lemma GlobalScope(types: Scopes<Shape>, addrs: Scopes<I.Value>, name: string, shape: Shape, v: I.Value)
    requires ScopeOk(types, addrs, 0) && v.GlobalVariable? && !shape.Pointer?
    ensures ScopeOk(Push(types, name, shape), Push(addrs, name, v), 0)
  {
    var types', addrs' := Push(types, name, shape), Push(addrs, name, v);
    forall k: nat, x | k < |types'| && x in types'[k]
      ensures EntryOk(types', addrs', 0, k, x)
    {
      assert x in types[k] ==> EntryOk(types, addrs, 0, k, x);
    }
    forall k: nat, x, k': nat, x' |
      k < |types'| && x in types'[k] && k' < |types'| && x' in types'[k'] && !types'[k][x].Function? && !types'[k'][x'].Function?
      ensures Apart(addrs', k, x, k', x')
    {
      assert EntryOk(types', addrs', 0, k, x) && EntryOk(types', addrs', 0, k', x');
    }
  }

  /** The builder behind the parameters of a function, and the scopes around it when the body is done. */
  lemma ParamsVisited(types: Scopes<Shape>, addrs: Scopes<I.Value>, f: Fun)
    requires types != [] && Parallel(types, addrs) && BodyOk(FunctionTypes(types, f.params, f.decls), f.ret, f.body)
    ensures var st := GenParams(Start(types, addrs, f.ret), f.params); var r := GenFunction(types, addrs, f.ret, f.params, f.decls, f.body);
            && Ready(st) && Parallel(st.types, st.addrs) && |st.types| > 1 && BodyOk(Declared(st.types, f.decls), st.ret, f.body) && st.ret == f.ret
            && Outer(r.types) == types && Outer(r.addrs) == addrs && r.types != [] && r.addrs != []
  {
    var s0 := Start(types, addrs, f.ret);
    StartOk(types, addrs, f.ret);
    ParamsGrow(s0, f.params);
    var s1 := GenParams(s0, f.params);
    ParamsOuter(s0, f.params);
    var s2 := GenDecls(s1, f.decls);
    DeclsGrow(s1, f.decls);
    BodyGrows(s2, f.body);
  }

  lemma {:induction false} ParamsOuter(st: Gen, params: seq<Param>)
    requires Parallel(st.types, st.addrs) && st.types != []
    ensures var r := GenParams(st, params);
            Parallel(r.types, r.addrs) && Outer(r.types) == Outer(st.types) && Outer(r.addrs) == Outer(st.addrs) && |r.types| == |st.types|
  {
    if params != [] {
      ParamsOuter(st, params[..|params| - 1]);
    }
  }
}
