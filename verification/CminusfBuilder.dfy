/**
  The code generator as it is written: an object that visits the syntax tree and appends to the function
  that it is building. Each visit is proved to do what the functions of `Generator` say.
 */
module CminusfBuilder {
  import opened Options
  import opened Syntax
  import opened Cfg
  import I = Ir
  import opened Meaning
  import opened Generator
  import opened Emitted
  import opened WellFormed
  import opened Lowering
  import opened Scoping
  import opened Visiting
  import opened Conversions

  class CminusfBuilder {
    // The function that is being built, the insert point, and the return type.
    var g: Graph
    var code: I.Code
    var cur: Block
    var nextId: nat
    var ret: RetTy
    // Where the local arrays live.
    ghost var homes: set<(nat, nat)>
    // The values of the names in scope, and their types.
    const scope: Scope<I.Value>
    const types: Scope<Shape>
    // The value of the expression visited last, and its type.
    var tmpVal: I.Value
    var tmpTy: ValTy
    var requireLvalue: bool
    var preEnterScope: bool
    // The functions that are finished.
    var functions: seq<Generated>

    ghost function State(): Gen
      reads this, scope, types
    {
      Gen(g, code, cur, nextId, types.inner, scope.inner, homes, ret)
    }

    /** The functions of the runtime are in scope from the beginning. */
    constructor ()
      ensures fresh(scope) && fresh(types) && Steady() && |types.inner| == 1 && ScopeOk(types.inner, scope.inner, 0) && functions == []
      ensures types.inner == RuntimeTypes()
    {
      g, code, cur, nextId, ret, homes := Graph([0], map[0 := []], map[0 := []]), map[0 := []], 0, 0, VoidT, {};
      scope := new Scope<I.Value>();
      types := new Scope<Shape>();
      tmpVal, tmpTy, requireLvalue, preEnterScope := I.ConstantInt(0), Nothing, false, false;
      functions := [];
      new;
      DeclareRuntime();
    }

    method DeclareRuntime()
      requires types.inner == [] && scope.inner == []
      modifies scope, types
      ensures types.inner == RuntimeTypes() && Parallel(types.inner, scope.inner) && ScopeOk(types.inner, scope.inner, 0)
    {
      EnterGlobal();
      PushRuntime("input", 0, [], Returns(IntT));
      PushRuntime("output", 1, [Param("", IntT, false)], VoidT);
      PushRuntime("outputFloat", 2, [Param("", FloatT, false)], VoidT);
      PushRuntime("neg_idx_except", NEG_IDX_EXCEPT, [], VoidT);
    }

    method EnterGlobal()
      requires types.inner == [] && scope.inner == []
      modifies scope, types
      ensures types.inner == [map[]] && Parallel(types.inner, scope.inner) && ScopeOk(types.inner, scope.inner, 0)
    {
      scope.Enter();
      types.Enter();
    }

    method PushRuntime(name: string, f: nat, params: seq<Param>, retTy: RetTy)
      requires Parallel(types.inner, scope.inner) && types.inner != [] && ScopeOk(types.inner, scope.inner, 0)
      modifies scope, types
      ensures types.inner == Syntax.Push(old(types.inner), name, Function(f, params, retTy))
      ensures Parallel(types.inner, scope.inner) && ScopeOk(types.inner, scope.inner, 0)
    {
      PushGlobal(name, Function(f, params, retTy), I.GlobalVariable(f));
    }

    method PushGlobal(name: string, shape: Shape, v: I.Value)
      requires Parallel(types.inner, scope.inner) && types.inner != [] && ScopeOk(types.inner, scope.inner, 0) && v.GlobalVariable? && !shape.Pointer?
      modifies scope, types
      ensures types.inner == Syntax.Push(old(types.inner), name, shape) && scope.inner == Syntax.Push(old(scope.inner), name, v)
      ensures Parallel(types.inner, scope.inner) && ScopeOk(types.inner, scope.inner, 0)
    {
      GlobalScope(types.inner, scope.inner, name, shape, v);
      PushName(name, shape, v);
    }

    // ----- instructions and blocks -----

    method Insert(i: I.Instr)
      modifies `code, `nextId
      ensures State() == old(State()).Append(i)
    {
      code := code[cur := Generator.At(code, cur) + [i]];
      nextId := nextId + 1;
    }

    method Create(op: I.Op, args: seq<I.Value>) returns (v: I.Value)
      modifies `code, `nextId
      ensures State() == old(State()).Emit(op, args) && v == old(State()).Next(op)
    {
      v := I.Result(nextId, I.KindOf(op));
      Insert(I.Instr(nextId, op, args, []));
    }

    method CreateBlock() returns (b: Block)
      modifies `g, `code
      ensures State() == old(State()).NewBlock() && b == old(State()).Fresh()
    {
      b := |g.blocks|;
      g := Graph(g.blocks + [b], g.pred[b := []], g.succ[b := []]);
      code := code[b := []];
    }

    method SetInsertPoint(b: Block)
      modifies `cur
      ensures State() == old(State()).Insert(b)
    {
      cur := b;
    }

    predicate Terminated()
      reads `cur, `code
    {
      cur in code && code[cur] != [] && I.IsTerminator(code[cur][|code[cur]| - 1])
    }

    method AddPreBasicBlock(b: Block, p: Block)
      modifies `g
      ensures g == old(g).(pred := old(g).pred[b := Edges(old(g).pred, b) + [p]])
    {
      g := g.(pred := g.pred[b := Edges(g.pred, b) + [p]]);
    }

    method AddSuccBasicBlock(b: Block, s: Block)
      modifies `g
      ensures g == old(g).(succ := old(g).succ[b := Edges(old(g).succ, b) + [s]])
    {
      g := g.(succ := g.succ[b := Edges(g.succ, b) + [s]]);
    }

    method CreateBr(to: Block)
      modifies `g, `code, `nextId
      ensures State() == old(State()).Br(to)
    {
      AddPreBasicBlock(to, cur);
      AddSuccBasicBlock(cur, to);
      Insert(I.Instr(nextId, I.Br, [], [to]));
    }

    method CreateCondBr(c: I.Value, yes: Block, no: Block)
      modifies `g, `code, `nextId
      ensures State() == old(State()).CondBr(c, yes, no)
    {
      ghost var before := g;
      AddPreBasicBlock(yes, cur);
      AddPreBasicBlock(no, cur);
      AddSuccBasicBlock(cur, no);
      AddSuccBasicBlock(cur, yes);
      assert g == old(State()).Link(no).Link(yes).g;
      Insert(I.Instr(nextId, I.CondBr, [c], [yes, no]));
    }

    method CreateDefaultRet()
      modifies `code, `nextId
      ensures State() == old(State()).DefaultRet()
    {
      if ret.VoidT? {
        var _ := Create(I.Ret, []);
      } else {
        var _ := Create(I.Ret, [I.ConstantInt(0)]);
      }
    }

    // ----- expressions -----

    /** A value as it is found in scope. */
    method Lookup(name: string) returns (v: I.Value, shape: Shape)
      requires Parallel(types.inner, scope.inner) && ShapeFor(types.inner, name).Some?
      ensures v == AddrOf(State(), name) && Some(shape) == ShapeFor(types.inner, name)
    {
      SameLevel(types.inner, scope.inner, name);
      var a := scope.Find(name);
      var b := types.Find(name);
      v, shape := a.value, b.value;
    }

    method Convert(v: I.Value, from: Ty, to: Ty) returns (w: I.Value)
      modifies `code, `nextId
      ensures var r := Converting(old(State()), v, from, to); State() == r.st && w == r.v
    {
      w := v;
      if from != to {
        if from.IntT? {
          w := Create(I.Compute(SITOFP), [v]);
        } else {
          w := Create(I.Compute(FPTOSI), [v]);
        }
      }
    }

    /** Both operands as ints, or both as floats. */
    method Promote(l: I.Value, tl: Ty, r: I.Value, tr: Ty) returns (x: I.Value, y: I.Value, isInt: bool)
      modifies `code, `nextId
      ensures isInt == (tl == IntT && tr == IntT)
      ensures isInt == Joined(tl, tr).IntT?
      ensures tl == tr ==> State() == old(State()) && x == l && y == r
      ensures tl == IntT && tr == FloatT ==> State() == old(State().Emit(I.Compute(SITOFP), [l])) && x == Nth(old(nextId)) && y == r
      ensures tl == FloatT && tr == IntT ==> State() == old(State().Emit(I.Compute(SITOFP), [r])) && x == l && y == Nth(old(nextId))
      ensures var a := Converting(old(State()), l, tl, Joined(tl, tr)); var b := Converting(a.st, r, tr, Joined(tl, tr));
              State() == b.st && x == a.v && y == b.v
    {
      x, y := l, r;
      if tl == tr {
        isInt := tl.IntT?;
      } else {
        isInt := false;
        if tl.IntT? {
          x := Create(I.Compute(SITOFP), [l]);
        } else {
          y := Create(I.Compute(SITOFP), [r]);
        }
      }
    }

    /** The branch behind which an index is known not to be negative. */
    method CheckIndex(v: I.Value, ty: Ty) returns (w: I.Value)
      modifies `g, `code, `cur, `nextId
      ensures var r := Checked(old(State()), v, ty); State() == r.st && w == r.v
    {
      var except := CreateBlock();
      var cont := CreateBlock();
      w := Convert(v, ty, IntT);
      var isNeg := Create(I.Compute(OpCode(Lt, IntT)), [w, I.ConstantInt(0)]);
      CreateCondBr(isNeg, except, cont);
      SetInsertPoint(except);
      var _ := Create(I.Call(NEG_IDX_EXCEPT), []);
      CreateDefaultRet();
      SetInsertPoint(cont);
    }

    method ElementAddress(name: string, i: I.Value) returns (a: I.Value)
      requires Parallel(types.inner, scope.inner) && ShapeFor(types.inner, name).Some?
      modifies `code, `nextId
      ensures var r := GenAddress(old(State()), name, i); State() == r.st && a == r.v
    {
      var variable, shape := Lookup(name);
      match shape {
        case Scalar(_) => a := Create(I.Gep, [variable, i]);
        case Pointer(_) =>
          var loaded := Create(I.Load, [variable]);
          a := Create(I.Gep, [loaded, i]);
        case _ => a := Create(I.Gep, [variable, I.ConstantInt(0), i]);
      }
    }

    /** Visit an expression: `tmpVal` is its value. */
    method VisitExpr(e: Expr)
      requires Parallel(types.inner, scope.inner) && TypeOf(types.inner, e).Some? && !requireLvalue
      modifies `g, `code, `cur, `nextId, `tmpVal, `tmpTy, `requireLvalue
      ensures var r := GenExpr(old(State()), e); State() == r.st && tmpVal == r.v && Some(tmpTy) == TypeOf(types.inner, e) && !requireLvalue
      decreases e, 1
    {
      match e {
        case Num(ty, n) => tmpVal, tmpTy := I.ConstantInt(n), Number(ty);
        case Var(name, index) => VisitVar(name, index);
        case Assign(name, index, value) => VisitAssign(name, index, value);
        case Binary(op, l, r) => VisitBinary(op, l, r);
        case Call(name, args) => VisitCall(name, args);
      }
    }

    /** Visit a variable: `tmpVal` is its address if that is required, else its value. */
    method VisitVar(name: string, index: Option<Expr>)
      requires Parallel(types.inner, scope.inner) && TypeOf(types.inner, Var(name, index)).Some?
      requires requireLvalue ==> TypeOf(types.inner, Var(name, index)).value.Number?
      modifies `g, `code, `cur, `nextId, `tmpVal, `tmpTy, `requireLvalue
      ensures var r := VarOut(old(State()), name, index, old(requireLvalue)); State() == r.st && tmpVal == r.v && !requireLvalue
      ensures var ty := TypeOf(types.inner, Var(name, index)).value; tmpTy == if old(requireLvalue) then Address(ty.ty) else ty
      decreases index, 2
    {
      var wanted := requireLvalue;
      requireLvalue := false;
      if index.None? {
        VisitName(name, wanted);
      } else {
        SubscriptTyped(types.inner, name, index.value);
        var _, shape := Lookup(name);
        if wanted {
          VisitElement(name, index.value);
          tmpTy := Address(shape.ty);
        } else {
          VisitRead(name, index.value);
          tmpTy := Number(shape.ty);
        }
      }
    }

    method VisitRead(name: string, index: Expr)
      requires Parallel(types.inner, scope.inner) && ShapeFor(types.inner, name).Some? && IsNumber(TypeOf(types.inner, index)) && !requireLvalue
      modifies `g, `code, `cur, `nextId, `tmpVal, `tmpTy, `requireLvalue
      ensures var r := GenRead(old(State()), name, index); State() == r.st && tmpVal == r.v && !requireLvalue
      decreases index, 4
    {
      ghost var st := State();
      VisitElement(name, index);
      ghost var a := Out(State(), tmpVal);
      tmpVal := Create(I.Load, [tmpVal]);
      ReadParts(st, name, index, a, Out(State(), tmpVal));
    }

    method VisitName(name: string, wanted: bool)
      requires Parallel(types.inner, scope.inner) && TypeOf(types.inner, Var(name, None)).Some?
      requires wanted ==> TypeOf(types.inner, Var(name, None)).value.Number?
      modifies `code, `nextId, `tmpVal, `tmpTy
      ensures var r := VarOut(old(State()), name, None, wanted); State() == r.st && tmpVal == r.v
      ensures var ty := TypeOf(types.inner, Var(name, None)).value; tmpTy == if wanted then Address(ty.ty) else ty
    {
      var variable, shape := Lookup(name);
      if wanted {
        tmpVal, tmpTy := variable, Address(shape.ty);
      } else if shape.Array? {
        tmpVal := Create(I.Gep, [variable, I.ConstantInt(0), I.ConstantInt(0)]);
        tmpTy := Address(shape.ty);
      } else {
        tmpVal := Create(I.Load, [variable]);
        tmpTy := if shape.Pointer? then Address(shape.ty) else Number(shape.ty);
      }
    }

    /** The address of an element. */
    method VisitElement(name: string, index: Expr)
      requires Parallel(types.inner, scope.inner) && ShapeFor(types.inner, name).Some? && IsNumber(TypeOf(types.inner, index)) && !requireLvalue
      modifies `g, `code, `cur, `nextId, `tmpVal, `tmpTy, `requireLvalue
      ensures var r := GenElement(old(State()), name, index); State() == r.st && tmpVal == r.v && !requireLvalue
      decreases index, 3
    {
      VisitIndex(index);
      tmpVal := ElementAddress(name, tmpVal);
    }

    method VisitIndex(index: Expr)
      requires Parallel(types.inner, scope.inner) && IsNumber(TypeOf(types.inner, index)) && !requireLvalue
      modifies `g, `code, `cur, `nextId, `tmpVal, `tmpTy, `requireLvalue
      ensures var r := GenIndex(old(State()), index); State() == r.st && tmpVal == r.v && !requireLvalue
      decreases index, 2
    {
      ghost var st := State();
      VisitExpr(index);
      ghost var i := Out(State(), tmpVal);
      tmpVal := CheckIndex(tmpVal, tmpTy.ty);
      IndexParts(st, index, i, Out(State(), tmpVal));
    }

    method VisitAssign(name: string, index: Option<Expr>, value: Expr)
      requires Parallel(types.inner, scope.inner) && TypeOf(types.inner, Assign(name, index, value)).Some? && !requireLvalue
      modifies `g, `code, `cur, `nextId, `tmpVal, `tmpTy, `requireLvalue
      ensures var r := GenExpr(old(State()), Assign(name, index, value)); State() == r.st && tmpVal == r.v && !requireLvalue
      ensures Some(tmpTy) == TypeOf(types.inner, Assign(name, index, value))
      decreases Assign(name, index, value), 0
    {
      ghost var st := State();
      TargetTyped(types.inner, name, index, value);
      VisitExpr(value);
      var result, resultTy := tmpVal, tmpTy.ty;
      ghost var r := Out(State(), tmpVal);
      requireLvalue := true;
      VisitVar(name, index);
      var address, elem := tmpVal, tmpTy.elem;
      ghost var a := Out(State(), tmpVal);
      tmpVal := StoreTo(result, resultTy, address, elem);
      tmpTy := Number(elem);
      AssignParts(st, name, index, value, r, a, Out(State(), tmpVal));
    }

    method StoreTo(v: I.Value, from: Ty, address: I.Value, to: Ty) returns (w: I.Value)
      modifies `code, `nextId
      ensures var r := GenStore(Out(old(State()), v), from, address, to); State() == r.st && w == r.v
    {
      w := Convert(v, from, to);
      var _ := Create(I.Store, [w, address]);
    }

    /** Comparisons, sums and products. */
    method VisitBinary(op: BinOp, l: Expr, r: Expr)
      requires Parallel(types.inner, scope.inner) && TypeOf(types.inner, Binary(op, l, r)).Some? && !requireLvalue
      modifies `g, `code, `cur, `nextId, `tmpVal, `tmpTy, `requireLvalue
      ensures var o := GenBoth(old(State()), op, l, r); State() == o.st && tmpVal == o.v && !requireLvalue
      ensures CodedBinary(old(State()), op, l, r, Out(State(), tmpVal))
      ensures Some(tmpTy) == TypeOf(types.inner, Binary(op, l, r))
      decreases Binary(op, l, r), 0
    {
      BinaryType(types.inner, op, l, r);
      BothCoded(State(), op, l, r);
      VisitExpr(l);
      var x, tl := tmpVal, tmpTy.ty;
      VisitExpr(r);
      var y, tr := tmpVal, tmpTy.ty;
      Apply(op, x, tl, y, tr);
    }

    method Apply(op: BinOp, l: I.Value, tl: Ty, r: I.Value, tr: Ty)
      modifies `code, `nextId, `tmpVal, `tmpTy
      ensures var o := GenBinary(old(State()), op, l, tl, r, tr); State() == o.st && tmpVal == o.v
      ensures tmpTy == Number(if IsCompare(op) then IntT else Joined(tl, tr))
    {
      ghost var st, ty := State(), Joined(tl, tr);
      var x, y, isInt := Promote(l, tl, r, tr);
      ghost var a, b := Converting(st, l, tl, ty), Out(State(), y);
      tmpVal := Operate(op, x, y, isInt);
      ghost var z := Out(State(), tmpVal);
      tmpTy := Number(if isInt then IntT else FloatT);
      if IsCompare(op) {
        tmpVal := Create(I.Compute(ZEXT), [tmpVal]);
        tmpTy := Number(IntT);
      }
      BinaryParts(st, op, l, tl, r, tr, a, b, z, Out(State(), tmpVal));
    }

    method Operate(op: BinOp, x: I.Value, y: I.Value, isInt: bool) returns (v: I.Value)
      modifies `code, `nextId
      ensures var r := Computing(old(State()), OpCode(op, if isInt then IntT else FloatT), [x, y]); State() == r.st && v == r.v
    {
      v := Create(I.Compute(OpCode(op, if isInt then IntT else FloatT)), [x, y]);
    }

    method VisitArg(arg: Expr, param: Param)
      requires Parallel(types.inner, scope.inner) && Accepts(param, TypeOf(types.inner, arg)) && !requireLvalue
      modifies `g, `code, `cur, `nextId, `tmpVal, `tmpTy, `requireLvalue
      ensures var r := GenArg(old(State()), arg, param); State() == r.st && tmpVal == r.v && !requireLvalue
      decreases arg, 2
    {
      VisitExpr(arg);
      if !param.isArray {
        tmpVal := Convert(tmpVal, tmpTy.ty, param.ty);
      }
    }

    method VisitCall(name: string, args: seq<Expr>)
      requires Parallel(types.inner, scope.inner) && TypeOf(types.inner, Call(name, args)).Some? && !requireLvalue
      modifies `g, `code, `cur, `nextId, `tmpVal, `tmpTy, `requireLvalue
      ensures var r := GenCall(old(State()), name, args); State() == r.st && tmpVal == r.v && !requireLvalue
      ensures Some(tmpTy) == TypeOf(types.inner, Call(name, args))
      decreases args, 2
    {
      ghost var st := State();
      var callee, shape := Lookup(name);
      var vs := VisitArgs(args, shape.params);
      ghost var a := Outs(State(), vs);
      tmpVal := Create(I.Call(shape.id), vs);
      CallParts(st, name, args, a, Out(State(), tmpVal));
      tmpTy := if shape.ret.VoidT? then Nothing else Number(shape.ret.ty);
    }

    method VisitArgs(args: seq<Expr>, params: seq<Param>) returns (vs: seq<I.Value>)
      requires Parallel(types.inner, scope.inner) && |args| == |params| && !requireLvalue
      requires forall k :: 0 <= k < |args| ==> Accepts(params[k], TypeOf(types.inner, args[k]))
      modifies `g, `code, `cur, `nextId, `tmpVal, `tmpTy, `requireLvalue
      ensures var r := GenArgs(old(State()), args, params); State() == r.st && vs == r.vs && !requireLvalue
      decreases args, 1
    {
      ghost var st := State();
      vs := [];
      assert args[..0] == [] && params[..0] == [];
      for k := 0 to |args|
        invariant types.inner == st.types && scope.inner == st.addrs && !requireLvalue
        invariant var a := GenArgs(st, args[..k], params[..k]); State() == a.st && vs == a.vs
      {
        VisitArg(args[k], params[k]);
        vs := vs + [tmpVal];
        assert args[..k + 1][..k] == args[..k] && params[..k + 1][..k] == params[..k];
      }
      assert args[..|args|] == args && params[..|args|] == params;
    }

    // ----- declarations -----

    /** The scopes know the same names, and no flag is left over from an unfinished visit. */
    ghost predicate Steady()
      reads this, scope, types
    {
      Parallel(types.inner, scope.inner) && types.inner != [] && !requireLvalue && !preEnterScope
    }

    method PushName(name: string, shape: Shape, v: I.Value)
      requires types.inner != [] && scope.inner != []
      modifies scope, types
      ensures types.inner == Syntax.Push(old(types.inner), name, shape) && scope.inner == Syntax.Push(old(scope.inner), name, v)
    {
      var _ := types.Push(name, shape);
      var _ := scope.Push(name, v);
    }

    /** A declaration outside of all functions is a global variable, any other an alloca. */
    method VisitVarDeclaration(d: Decl)
      requires |types.inner| == |scope.inner| && types.inner != []
      modifies `code, `nextId, `homes, scope, types
      ensures State() == if |old(scope.inner)| == 1 then GlobalDecl(old(State()), d) else GenDecl(old(State()), d)
    {
      if scope.InGlobal() {
        PushName(d.name, ShapeOf(d), I.GlobalVariable(d.node));
      } else {
        homes := homes + {(d.node, nextId)};
        var v := Create(I.Alloca(d.len.None?), []);
        PushName(d.name, ShapeOf(d), v);
      }
    }

    method VisitDeclarations(decls: seq<Decl>)
      requires |types.inner| == |scope.inner| > 1
      modifies `code, `nextId, `homes, scope, types
      ensures State() == GenDecls(old(State()), decls)
    {
      ghost var st := State();
      assert decls[0..] == decls;
      for k := 0 to |decls|
        invariant |types.inner| == |scope.inner| == |old(scope.inner)|
        invariant GenDecls(State(), decls[k..]) == GenDecls(st, decls)
      {
        assert decls[k..][1..] == decls[k + 1..];
        VisitVarDeclaration(decls[k]);
      }
    }

    // ----- statements -----

    method VisitStmt(s: Stmt)
      requires Steady() && Ready(State()) && StmtOk(types.inner, ret, s)
      modifies `g, `code, `cur, `nextId, `homes, `tmpVal, `tmpTy, `requireLvalue, `preEnterScope, scope, types
      ensures State() == GenStmt(old(State()), s) && Steady()
      ensures GraphOk(State()) && types.inner == old(types.inner) && scope.inner == old(scope.inner)
      decreases s, 2
    {
      ghost var st := State();
      StmtGrows(st, s);
      match s {
        case ExprStmt(e) =>
          if e.Some? {
            VisitExpr(e.value);
          }
        case Compound(decls, body) => VisitCompound(decls, body);
        case If(_, _, _) => VisitSelection(s);
        case While(_, _) => VisitIteration(s);
        case Return(e) => VisitReturn(e);
      }
    }

    method VisitReturn(e: Option<Expr>)
      requires Steady() && StmtOk(types.inner, ret, Return(e))
      modifies `g, `code, `cur, `nextId, `tmpVal, `tmpTy, `requireLvalue
      ensures State() == GenStmt(old(State()), Return(e)) && !requireLvalue
    {
      if e.None? {
        var _ := Create(I.Ret, []);
      } else {
        VisitExpr(e.value);
        tmpVal := Convert(tmpVal, tmpTy.ty, ret.ty);
        var _ := Create(I.Ret, [tmpVal]);
      }
    }

    /** A statement list in a scope of its own, or in the scope of the parameters for the body of a function. */
    method VisitCompound(decls: seq<Decl>, body: seq<Stmt>)
      requires Parallel(types.inner, scope.inner) && types.inner != [] && !requireLvalue && Ready(State())
      requires preEnterScope ==> |types.inner| > 1
      requires BodyOk(Declared(if preEnterScope then types.inner else types.inner + [map[]], decls), ret, body)
      modifies `g, `code, `cur, `nextId, `homes, `tmpVal, `tmpTy, `requireLvalue, `preEnterScope, scope, types
      ensures State() == if old(preEnterScope) then GenBody(GenDecls(old(State()), decls), body)
                         else ExitScope(GenBody(GenDecls(EnterScope(old(State())), decls), body))
      ensures Parallel(types.inner, scope.inner) && !preEnterScope && !requireLvalue
      decreases body, 3
    {
      ghost var st := State();
      var needExitScope := !preEnterScope;
      if preEnterScope {
        preEnterScope := false;
      } else {
        scope.Enter();
        types.Enter();
        SameCodeOk(st, State());
      }
      VisitList(decls, body);
      if needExitScope {
        scope.Exit();
        types.Exit();
      }
    }

    method VisitList(decls: seq<Decl>, body: seq<Stmt>)
      requires Steady() && Ready(State()) && |types.inner| > 1 && BodyOk(Declared(types.inner, decls), ret, body)
      modifies `g, `code, `cur, `nextId, `homes, `tmpVal, `tmpTy, `requireLvalue, `preEnterScope, scope, types
      ensures State() == GenBody(GenDecls(old(State()), decls), body) && Steady()
      ensures Outer(types.inner) == Outer(old(types.inner)) && Outer(scope.inner) == Outer(old(scope.inner))
      decreases body, 2
    {
      ghost var a := State();
      VisitDeclarations(decls);
      DeclsGrow(a, decls);
      DeclsParallel(a, decls);
      ghost var b := State();
      VisitStatements(body);
      BodyGrows(b, body);
    }

    method VisitStatements(body: seq<Stmt>)
      requires Steady() && Ready(State()) && BodyOk(types.inner, ret, body)
      modifies `g, `code, `cur, `nextId, `homes, `tmpVal, `tmpTy, `requireLvalue, `preEnterScope, scope, types
      ensures State() == GenBody(old(State()), body) && Steady()
      decreases body, 1
    {
      ghost var st := State();
      assert body[0..] == body;
      for k := 0 to |body|
        invariant Steady() && Ready(State()) && BodyOk(types.inner, ret, body[k..])
        invariant types.inner == st.types && scope.inner == st.addrs
        invariant GenBody(State(), body[k..]) == GenBody(st, body)
      {
        VisitNext(body, k);
        if Terminated() {
          break;
        }
      }
    }

    method VisitNext(body: seq<Stmt>, k: nat)
      requires Steady() && Ready(State()) && k < |body| && BodyOk(types.inner, ret, body[k..])
      modifies `g, `code, `cur, `nextId, `homes, `tmpVal, `tmpTy, `requireLvalue, `preEnterScope, scope, types
      ensures Steady() && GraphOk(State()) && types.inner == old(types.inner) && scope.inner == old(scope.inner)
      ensures BodyOk(types.inner, ret, body[k + 1..])
      ensures GenBody(old(State()), body[k..]) == if Terminated() then State() else GenBody(State(), body[k + 1..])
      decreases body, 0
    {
      ghost var a := State();
      assert body[k..][1..] == body[k + 1..];
      VisitStmt(body[k]);
      BodyStep(a, State(), body, k);
    }

    /** A statement in a block of its own. */
    method VisitArm(b: Block, s: Stmt, next: Block)
      requires Steady() && GraphOk(State()) && b in code && code[b] == [] && StmtOk(types.inner, ret, s)
      modifies `g, `code, `cur, `nextId, `homes, `tmpVal, `tmpTy, `requireLvalue, `preEnterScope, scope, types
      ensures State() == GenArm(old(State()), b, s, next) && Steady()
      ensures types.inner == old(types.inner) && scope.inner == old(scope.inner)
      decreases s, 3
    {
      ArmStart(State(), b);
      SetInsertPoint(b);
      VisitStmt(s);
      LeadOn(next);
    }

    /** A jump to `next`, unless the insert block ends in a terminator already. */
    method LeadOn(next: Block)
      modifies `g, `code, `nextId
      ensures State() == old(State()).BrIfOpen(next)
    {
      if !Terminated() {
        CreateBr(next);
      }
    }

    /** The blocks of a branch on whether `v` is zero, and the branch. */
    method Branch(v: I.Value, ty: Ty, hasElse: bool) returns (trueBB: Block, contBB: Block, falseBB: Block)
      modifies `g, `code, `nextId
      ensures State() == if hasElse then ForkElse(old(State()), v, ty) else Fork(old(State()), v, ty)
      ensures var n := old(State()).Fresh(); trueBB == n && contBB == n + 1 && falseBB == if hasElse then n + 2 else n + 1
    {
      var cond;
      trueBB, contBB, cond := Test(v, ty);
      falseBB := contBB;
      if hasElse {
        falseBB := CreateBlock();
      }
      CreateCondBr(cond, trueBB, falseBB);
    }

    method Test(v: I.Value, ty: Ty) returns (trueBB: Block, contBB: Block, cond: I.Value)
      modifies `g, `code, `nextId
      ensures var st := old(State()); var r := GenTest(st.NewBlock().NewBlock(), v, ty);
              State() == r.st && cond == r.v && trueBB == st.Fresh() && contBB == st.Fresh() + 1
    {
      trueBB := CreateBlock();
      contBB := CreateBlock();
      cond := Create(I.Compute(OpCode(Neq, ty)), [v, I.ConstantInt(0)]);
    }

    method VisitSelection(s: Stmt)
      requires s.If? && Steady() && Ready(State()) && StmtOk(types.inner, ret, s)
      modifies `g, `code, `cur, `nextId, `homes, `tmpVal, `tmpTy, `requireLvalue, `preEnterScope, scope, types
      ensures State() == GenStmt(old(State()), s) && Steady()
      decreases s, 1
    {
      ExprGrows(State(), s.cond);
      VisitExpr(s.cond);
      if s.no.None? {
        VisitThen(s, tmpVal, tmpTy.ty);
      } else {
        VisitThenElse(s, tmpVal, tmpTy.ty);
      }
    }

    method VisitThen(s: Stmt, v: I.Value, ty: Ty)
      requires s.If? && s.no.None? && Steady() && Ready(State()) && StmtOk(types.inner, ret, s)
      modifies `g, `code, `cur, `nextId, `homes, `tmpVal, `tmpTy, `requireLvalue, `preEnterScope, scope, types
      ensures State() == GenIf(Out(old(State()), v), ty, s) && Steady()
      decreases s, 0
    {
      ghost var st := State();
      ForkGrows(st, v, ty);
      var trueBB, contBB, _ := Branch(v, ty, false);
      assert ForkedBlock(State(), trueBB, st.cur, trueBB, contBB);
      VisitArm(trueBB, s.yes, contBB);
      SetInsertPoint(contBB);
    }

    method VisitThenElse(s: Stmt, v: I.Value, ty: Ty)
      requires s.If? && s.no.Some? && Steady() && Ready(State()) && StmtOk(types.inner, ret, s)
      modifies `g, `code, `cur, `nextId, `homes, `tmpVal, `tmpTy, `requireLvalue, `preEnterScope, scope, types
      ensures State() == GenIf(Out(old(State()), v), ty, s) && Steady()
      decreases s, 0
    {
      ghost var st := State();
      var trueBB, contBB, falseBB := Branch(v, ty, true);
      ghost var d := State();
      ArmsReady(st, d, v, ty, s);
      VisitArms(s, trueBB, contBB, falseBB);
      SetInsertPoint(contBB);
      IfElseParts(st, v, ty, s, d, GenArm(d, trueBB, s.yes, contBB), State());
    }

    method VisitArms(s: Stmt, trueBB: Block, contBB: Block, falseBB: Block)
      requires s.If? && s.no.Some? && Steady() && GraphOk(State()) && StmtOk(types.inner, ret, s) && trueBB in code && code[trueBB] == []
      requires var f := GenArm(State(), trueBB, s.yes, contBB); GraphOk(f) && falseBB in f.code && f.code[falseBB] == []
      modifies `g, `code, `cur, `nextId, `homes, `tmpVal, `tmpTy, `requireLvalue, `preEnterScope, scope, types
      ensures State() == GenArm(GenArm(old(State()), trueBB, s.yes, contBB), falseBB, s.no.value, contBB) && Steady()
      ensures types.inner == old(types.inner) && scope.inner == old(scope.inner)
      decreases s, 0, 0
    {
      VisitArm(trueBB, s.yes, contBB);
      VisitArm(falseBB, s.no.value, contBB);
    }

    method VisitIteration(s: Stmt)
      requires s.While? && Steady() && Ready(State()) && StmtOk(types.inner, ret, s)
      modifies `g, `code, `cur, `nextId, `homes, `tmpVal, `tmpTy, `requireLvalue, `preEnterScope, scope, types
      ensures State() == GenStmt(old(State()), s) && Steady()
      decreases s, 1
    {
      ghost var st := State();
      var exprBB := OpenLoop();
      ghost var h := State();
      HeadReady(st, h);
      ExprGrows(h, s.cond);
      VisitExpr(s.cond);
      ghost var x := Out(State(), tmpVal);
      VisitLoop(exprBB, s.loop, tmpVal, tmpTy.ty);
      LoopParts(st, s, h, x, State());
    }

    method OpenLoop() returns (exprBB: Block)
      modifies `g, `code, `cur, `nextId
      ensures var st := old(State()); State() == st.NewBlock().BrIfOpen(st.Fresh()).Insert(st.Fresh()) && exprBB == st.Fresh()
    {
      exprBB := CreateBlock();
      LeadOn(exprBB);
      SetInsertPoint(exprBB);
    }

    method VisitLoop(exprBB: Block, loop: Stmt, v: I.Value, ty: Ty)
      requires Steady() && Ready(State()) && StmtOk(types.inner, ret, loop)
      modifies `g, `code, `cur, `nextId, `homes, `tmpVal, `tmpTy, `requireLvalue, `preEnterScope, scope, types
      ensures State() == GenLoop(Out(old(State()), v), ty, exprBB, loop) && Steady()
      decreases loop, 4
    {
      ghost var st := State();
      ForkGrows(st, v, ty);
      var trueBB, contBB, _ := Branch(v, ty, false);
      assert ForkedBlock(State(), trueBB, st.cur, trueBB, contBB);
      VisitArm(trueBB, loop, exprBB);
      SetInsertPoint(contBB);
    }

    // ----- functions -----

    method StartFunction(retTy: RetTy)
      requires Steady()
      modifies `g, `code, `cur, `nextId, `homes, `ret, `preEnterScope, scope, types
      ensures State() == Start(old(types.inner), old(scope.inner), retTy) && preEnterScope
    {
      ret, g, code, cur, nextId, homes := retTy, Graph([0], map[0 := []], map[0 := []]), map[0 := []], 0, 0, {};
      scope.Enter();
      types.Enter();
      preEnterScope := true;
    }

    method VisitParam(p: Param, k: nat)
      requires types.inner != [] && scope.inner != []
      modifies `code, `nextId, scope, types
      ensures State() == GenParam(old(State()), p, k)
    {
      var v := Create(I.Alloca(!p.isArray), []);
      var _ := Create(I.Store, [I.Argument(k), v]);
      PushName(p.name, ParamShape(p), v);
    }

    method VisitParams(params: seq<Param>)
      requires types.inner != [] && scope.inner != []
      modifies `code, `nextId, scope, types
      ensures State() == GenParams(old(State()), params)
    {
      ghost var st := State();
      assert params[..0] == [];
      for k := 0 to |params|
        invariant types.inner != [] && scope.inner != []
        invariant State() == GenParams(st, params[..k])
      {
        assert params[..k + 1][..k] == params[..k];
        VisitParam(params[k], k);
      }
      assert params[..|params|] == params;
    }

    /** The new function is in scope in its own body; afterwards the names of its parameters are forgotten. */
    method VisitFunDeclaration(f: Fun)
      requires Steady() && FunOk(types.inner, f) && ScopeOk(types.inner, scope.inner, 0)
      modifies this, scope, types
      ensures types.inner == FunTypes(old(types.inner), f) && scope.inner == FunAddrs(old(scope.inner), f) && ScopeOk(types.inner, scope.inner, 0)
      ensures var r := GenFunction(types.inner, scope.inner, f.ret, f.params, f.decls, f.body);
              FunctionOk(r) && functions == old(functions) + [Generated(f.id, r.g, r.code)]
      ensures Steady()
    {
      PushGlobal(f.name, Function(f.id, f.params, f.ret), I.GlobalVariable(f.id));
      ghost var outer := State();
      GeneratedIsWellFormed(outer.types, outer.addrs, f.ret, f.params, f.decls, f.body);
      StartFunction(f.ret);
      VisitBody(outer.types, outer.addrs, f);
      functions := functions + [Generated(f.id, g, code)];
      scope.Exit();
      types.Exit();
    }

    method VisitBody(ghost outerTypes: Scopes<Shape>, ghost outerAddrs: Scopes<I.Value>, f: Fun)
      requires State() == Start(outerTypes, outerAddrs, f.ret) && preEnterScope && !requireLvalue && Parallel(outerTypes, outerAddrs)
      requires outerTypes != [] && BodyOk(FunctionTypes(outerTypes, f.params, f.decls), f.ret, f.body)
      modifies `g, `code, `cur, `nextId, `homes, `tmpVal, `tmpTy, `requireLvalue, `preEnterScope, scope, types
      ensures State() == GenFunction(outerTypes, outerAddrs, f.ret, f.params, f.decls, f.body)
      ensures Outer(types.inner) == outerTypes && Outer(scope.inner) == outerAddrs && types.inner != [] && scope.inner != []
      ensures !preEnterScope && !requireLvalue
    {
      ghost var st := State();
      ParamsVisited(outerTypes, outerAddrs, f);
      VisitParams(f.params);
      VisitCompound(f.decls, f.body);
      if !Terminated() {
        CreateDefaultRet();
      }
    }

    method VisitTop(t: TopDecl)
      requires Steady() && |types.inner| == 1 && ScopeOk(types.inner, scope.inner, 0) && (t.Defined? ==> FunOk(types.inner, t.f))
      modifies this, scope, types
      ensures Steady() && |types.inner| == 1 && ScopeOk(types.inner, scope.inner, 0) && types.inner == TopTypes(old(types.inner), t)
      ensures |functions| == |old(functions)| + (if t.Defined? then 1 else 0) && old(functions) <= functions
      ensures t.Defined? ==> CompiledFrom(functions[|old(functions)|], t.f)
    {
      match t {
        case Variable(d) =>
          GlobalScope(types.inner, scope.inner, d.name, ShapeOf(d), I.GlobalVariable(d.node));
          VisitVarDeclaration(d);
        case Defined(f) =>
          VisitFunDeclaration(f);
          assert CompiledWith(functions[|old(functions)|], f, types.inner, scope.inner);
      }
    }

    /** Every function of a well-typed program is generated, in order, and well formed. */
    method VisitProgram(decls: seq<TopDecl>)
      requires Steady() && |types.inner| == 1 && ScopeOk(types.inner, scope.inner, 0) && ProgramOk(types.inner, decls) && functions == []
      modifies this, scope, types
      ensures AllCompiled(functions, Funs(decls))
    {
      assert decls[0..] == decls && decls[..0] == [];
      for k := 0 to |decls|
        invariant Steady() && |types.inner| == 1 && ScopeOk(types.inner, scope.inner, 0) && ProgramOk(types.inner, decls[k..])
        invariant AllCompiled(functions, Funs(decls[..k]))
      {
        assert decls[k..][1..] == decls[k + 1..] && decls[..k + 1][..k] == decls[..k];
        ghost var before := functions;
        VisitTop(decls[k]);
        AlsoCompiled(before, functions, Funs(decls[..k]), decls[k]);
      }
      assert decls[..|decls|] == decls;
    }
  }
}
