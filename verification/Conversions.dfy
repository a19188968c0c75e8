/**
  Which instructions the operands of an operation and the values that are stored, passed on or returned take, told from
  the types that the names are declared with.
 */
module Conversions {
  import opened Options
  import opened Syntax
  import I = Ir
  import opened Meaning
  import opened Generator
  import opened Emitted
  import opened Visiting
  import opened Scoping
  import R = Running

  const COMPARISONS: set<BinOp> := {Lt, Le, Ge, Gt, Eq, Neq}

  // ----- instructions behind a state -----

  /** The value of the instruction `n`. */
  function Nth(n: nat): I.Value {
    I.Result(n, I.OtherInst)
  }

  function Step(n: nat, op: nat, args: seq<I.Value>): I.Instr {
    I.Instr(n, I.Compute(op), args, [])
  }

  /** `code` behind what is in the insert block. */
  function Extended(st: Gen, code: seq<I.Instr>): Gen {
    if code == [] then st else st.(code := st.code[st.cur := At(st.code, st.cur) + code], nextId := st.nextId + |code|)
  }

  lemma EmitExtends(st: Gen, code: seq<I.Instr>, n: nat, op: I.Op, args: seq<I.Value>)
    requires n == st.nextId + |code|
    ensures Extended(st, code).Emit(op, args) == Extended(st, code + [I.Instr(n, op, args, [])])
  {
    assert [] + [I.Instr(n, op, args, [])] == [I.Instr(n, op, args, [])];
    assert At(st.code, st.cur) + (code + [I.Instr(n, op, args, [])]) == At(st.code, st.cur) + code + [I.Instr(n, op, args, [])];
  }

  /** `code` comes behind `st`, and its last instruction has the value. */
  predicate Behind(o: Out, st: Gen, code: seq<I.Instr>) {
    && o.st == Extended(st, code)
    && code != [] && o.v == Nth(code[|code| - 1].id)
  }

  // ----- a conversion -----

  /** An int that is wanted as a float, and a float that is wanted as an int, take one instruction. */
  function Changing(v: I.Value, from: Ty, to: Ty, n: nat): seq<I.Instr> {
    match (from, to)
    case (IntT, FloatT) => [Step(n, SITOFP, [v])]
    case (FloatT, IntT) => [Step(n, FPTOSI, [v])]
    case _ => []
  }

  function Changed(v: I.Value, from: Ty, to: Ty, n: nat): I.Value {
    if from == to then v else Nth(n)
  }

  lemma ConvertingEmits(st: Gen, v: I.Value, from: Ty, to: Ty)
    ensures Converting(st, v, from, to) == Out(Extended(st, Changing(v, from, to, st.nextId)), Changed(v, from, to, st.nextId))
  {
    EmitExtends(st, [], st.nextId, I.Compute(if from.IntT? then SITOFP else FPTOSI), [v]);
  }

  // ----- names -----

  /** The first declaration of a name in a scope is the one that counts, with the type that it says. */
  lemma {:induction false} DeclaredAs(types: Scopes<Shape>, decls: seq<Decl>, k: nat)
    requires types != [] && k < |decls| && decls[k].name !in types[|types| - 1]
    requires forall j :: 0 <= j < k ==> decls[j].name != decls[k].name
    ensures Find(Declared(types, decls), decls[k].name) == Some(if decls[k].len == None then Scalar(decls[k].ty) else Array(decls[k].ty))
    decreases decls
  {
    var d := decls[0];
    var types' := Push(types, d.name, ShapeOf(d));
    FindPushed(types, d.name, ShapeOf(d), decls[k].name);
    if k == 0 {
      StaysKnown(types', decls[1..], d.name);
    } else {
      DeclaredAs(types', decls[1..], k - 1);
    }
  }

  /** A name that the innermost scope knows keeps its meaning. */
  lemma {:induction false} StaysKnown(types: Scopes<Shape>, decls: seq<Decl>, name: string)
    requires types != [] && name in types[|types| - 1]
    ensures Find(Declared(types, decls), name) == Find(types, name)
    decreases decls
  {
    if decls != [] {
      var d := decls[0];
      FindPushed(types, d.name, ShapeOf(d), name);
      StaysKnown(Push(types, d.name, ShapeOf(d)), decls[1..], name);
    }
  }

  lemma {:induction false} BoundHas(types: Scopes<Shape>, params: seq<Param>)
    requires types != []
    ensures |Bound(types, params)| == |types|
    ensures Bound(types, params)[|types| - 1].Keys == types[|types| - 1].Keys + set k | 0 <= k < |params| :: params[k].name
  {
    if params != [] {
      var n := |params| - 1;
      BoundHas(types, params[..n]);
      assert (set k | 0 <= k < |params| :: params[k].name) == (set k | 0 <= k < n :: params[..n][k].name) + {params[n].name};
    }
  }

  /** The first parameter of a name is the one that counts; an array comes as the address of its first element. */
  lemma {:induction false} BoundAs(types: Scopes<Shape>, params: seq<Param>, k: nat)
    requires types != [] && k < |params| && params[k].name !in types[|types| - 1]
    requires forall j :: 0 <= j < k ==> params[j].name != params[k].name
    ensures Find(Bound(types, params), params[k].name) == Some(if params[k].isArray then Pointer(params[k].ty) else Scalar(params[k].ty))
  {
    var n := |params| - 1;
    var rest := Bound(types, params[..n]);
    BoundHas(types, params[..n]);
    FindPushed(rest, params[n].name, ParamShape(params[n]), params[k].name);
    if k < n {
      BoundAs(types, params[..n], k);
    }
  }

  /** The functions of the runtime are four different ones, under these names. */
  lemma RuntimeNames(name: string)
    ensures Find(RuntimeTypes(), name) ==
              if name == "input" then Some(Function(0, [], Returns(IntT)))
              else if name == "output" then Some(Function(1, [Param("", IntT, false)], VoidT))
              else if name == "outputFloat" then Some(Function(2, [Param("", FloatT, false)], VoidT))
              else if name == "neg_idx_except" then Some(Function(3, [], VoidT))
              else None
    ensures Find(RuntimeTypes(), "neg_idx_except") == Some(Function(NEG_IDX_EXCEPT, [], VoidT))
  {
    var s := RuntimeTypes();
    assert s[..|s| - 1] == [];
  }

  lemma VariableType(types: Scopes<Shape>, name: string, index: Expr, ty: Ty)
    ensures Find(types, name) == Some(Scalar(ty)) ==> TypeOf(types, Var(name, None)) == Some(Number(ty))
    ensures Find(types, name) in {Some(Array(ty)), Some(Pointer(ty))} ==>
              && TypeOf(types, Var(name, None)) == Some(Address(ty))
              && TypeOf(types, Var(name, Some(index))) == if IsNumber(TypeOf(types, index)) then Some(Number(ty)) else None
  {
  }

  /** An assignment of a number to a number has the type of its target. */
  lemma AssignType(types: Scopes<Shape>, name: string, index: Option<Expr>, value: Expr)
    ensures TypeOf(types, Assign(name, index, value)) ==
              if IsNumber(TypeOf(types, value)) && IsNumber(TypeOf(types, Var(name, index))) then TypeOf(types, Var(name, index)) else None
  {
  }

  // ----- binary expressions -----

  lemma LiteralType(types: Scopes<Shape>, ty: Ty, n: int)
    ensures TypeOf(types, Num(ty, n)) == Some(Number(ty))
  {
  }

  /** A binary expression of numbers is a number, and a float exactly if it calculates and some operand is a float. */
  lemma BinaryType(types: Scopes<Shape>, op: BinOp, l: Expr, r: Expr)
    ensures TypeOf(types, Binary(op, l, r)).Some? <==> IsNumber(TypeOf(types, l)) && IsNumber(TypeOf(types, r))
    ensures IsNumber(TypeOf(types, l)) && IsNumber(TypeOf(types, r)) ==> IsNumber(TypeOf(types, Binary(op, l, r)))
    ensures TypeOf(types, Binary(op, l, r)) == Some(Number(FloatT)) <==>
            && op in {Plus, Minus, Mul, Div}
            && IsNumber(TypeOf(types, l)) && IsNumber(TypeOf(types, r))
            && Number(FloatT) in {TypeOf(types, l).value, TypeOf(types, r).value}
  {
  }

  /** Two ints are computed with as they are, and so are two floats; an int beside a float is converted first. The result of a
      comparison is widened. */
  function BinaryCode(op: BinOp, x: I.Value, tl: Ty, y: I.Value, tr: Ty, n: nat): seq<I.Instr> {
    match (tl, tr)
    case (IntT, IntT) => Widened(op, [Step(n, OpCode(op, IntT), [x, y])], n)
    case (FloatT, FloatT) => Widened(op, [Step(n, OpCode(op, FloatT), [x, y])], n)
    case (IntT, FloatT) => Widened(op, [Step(n, SITOFP, [x]), Step(n + 1, OpCode(op, FloatT), [Nth(n), y])], n + 1)
    case (FloatT, IntT) => Widened(op, [Step(n, SITOFP, [y]), Step(n + 1, OpCode(op, FloatT), [x, Nth(n)])], n + 1)
  }

  function Widened(op: BinOp, code: seq<I.Instr>, n: nat): seq<I.Instr> {
    if op in COMPARISONS then code + [Step(n + 1, ZEXT, [Nth(n)])] else code
  }

  lemma WideningEmits(st: Gen, code: seq<I.Instr>, n: nat, op: BinOp)
    requires code != [] && code[|code| - 1].id == n && n + 1 == st.nextId + |code|
    ensures var z := Out(Extended(st, code), Nth(n)); Behind(if IsCompare(op) then Computing(z.st, ZEXT, [z.v]) else z, st, Widened(op, code, n))
  {
    EmitExtends(st, code, n + 1, I.Compute(ZEXT), [Nth(n)]);
  }

  /** The operation behind the conversions `a`. */
  lemma OperationEmits(st: Gen, a: seq<I.Instr>, n: nat, op: BinOp, ty: Ty, x: I.Value, y: I.Value)
    requires n == st.nextId + |a|
    ensures var z := Computing(Extended(st, a), OpCode(op, ty), [x, y]);
            var code := Widened(op, a + [Step(n, OpCode(op, ty), [x, y])], n);
            Behind(if IsCompare(op) then Computing(z.st, ZEXT, [z.v]) else z, st, code)
  {
    EmitExtends(st, a, n, I.Compute(OpCode(op, ty)), [x, y]);
    WideningEmits(st, a + [Step(n, OpCode(op, ty), [x, y])], n, op);
  }

  lemma SameTypeEmits(st: Gen, op: BinOp, x: I.Value, y: I.Value, ty: Ty)
    ensures Behind(GenBinary(st, op, x, ty, y, ty), st, BinaryCode(op, x, ty, y, ty, st.nextId))
  {
    OperationEmits(st, [], st.nextId, op, ty, x, y);
    assert [] + [Step(st.nextId, OpCode(op, ty), [x, y])] == [Step(st.nextId, OpCode(op, ty), [x, y])];
  }

  lemma LeftIntEmits(st: Gen, op: BinOp, x: I.Value, y: I.Value)
    ensures Behind(GenBinary(st, op, x, IntT, y, FloatT), st, BinaryCode(op, x, IntT, y, FloatT, st.nextId))
  {
    var n := st.nextId;
    ConvertingEmits(st, x, IntT, FloatT);
    OperationEmits(st, [Step(n, SITOFP, [x])], n + 1, op, FloatT, Nth(n), y);
    assert [Step(n, SITOFP, [x])] + [Step(n + 1, OpCode(op, FloatT), [Nth(n), y])] ==
           [Step(n, SITOFP, [x]), Step(n + 1, OpCode(op, FloatT), [Nth(n), y])];
  }

  lemma RightIntEmits(st: Gen, op: BinOp, x: I.Value, y: I.Value)
    ensures Behind(GenBinary(st, op, x, FloatT, y, IntT), st, BinaryCode(op, x, FloatT, y, IntT, st.nextId))
  {
    var n := st.nextId;
    ConvertingEmits(st, y, IntT, FloatT);
    OperationEmits(st, [Step(n, SITOFP, [y])], n + 1, op, FloatT, x, Nth(n));
    assert [Step(n, SITOFP, [y])] + [Step(n + 1, OpCode(op, FloatT), [x, Nth(n)])] ==
           [Step(n, SITOFP, [y]), Step(n + 1, OpCode(op, FloatT), [x, Nth(n)])];
  }

  lemma BinaryEmits(st: Gen, op: BinOp, x: I.Value, tl: Ty, y: I.Value, tr: Ty)
    ensures Behind(GenBinary(st, op, x, tl, y, tr), st, BinaryCode(op, x, tl, y, tr, st.nextId))
  {
    match (tl, tr) {
      case (IntT, FloatT) => LeftIntEmits(st, op, x, y);
      case (FloatT, IntT) => RightIntEmits(st, op, x, y);
      case _ => SameTypeEmits(st, op, x, y, tl);
    }
  }

  /** An operand is never made an int, and made a float exactly if it is an int and the other is a float. */
  lemma ConvertedIffMixed(op: BinOp, x: I.Value, tl: Ty, y: I.Value, tr: Ty, n: nat, i: I.Instr)
    requires i in BinaryCode(op, x, tl, y, tr, n)
    ensures i.op != I.Compute(FPTOSI)
    ensures i.op == I.Compute(SITOFP) <==> tl != tr && i.id == n && i.args == [if tl == IntT then x else y]
  {
    OpCodesDiffer(op, IntT, op, IntT);
    OpCodesDiffer(op, FloatT, op, FloatT);
  }

  lemma TagIs(types: Scopes<Shape>, e: Expr, ty: Ty)
    requires TypeOf(types, e) == Some(Number(ty))
    ensures Tag(types, e) == ty
  {
  }

  lemma ExprIsBoth(st: Gen, op: BinOp, l: Expr, r: Expr)
    ensures GenExpr(st, Binary(op, l, r)) == GenBoth(st, op, l, r)
  {
  }

  /** The code of a binary expression: that of the left operand, that of the right one, and these instructions. */
  lemma BothEmits(st: Gen, op: BinOp, l: Expr, r: Expr, tl: Ty, tr: Ty, x: Out, y: Out)
    requires TypeOf(st.types, l) == Some(Number(tl)) && TypeOf(st.types, r) == Some(Number(tr))
    requires x == GenExpr(st, l) && y == GenExpr(x.st, r)
    ensures Behind(GenExpr(st, Binary(op, l, r)), y.st, BinaryCode(op, x.v, tl, y.v, tr, y.st.nextId))
  {
    TagIs(st.types, l, tl);
    TagIs(st.types, r, tr);
    BothIs(st, op, l, r, x, y);
    ExprIsBoth(st, op, l, r);
    BinaryEmits(y.st, op, x.v, tl, y.v, tr);
  }

  /** The left operand, then the right one, then `BinaryCode` on their types. */
  predicate CodedBinary(st: Gen, op: BinOp, l: Expr, r: Expr, o: Out) {
    match (TypeOf(st.types, l), TypeOf(st.types, r))
    case (Some(Number(tl)), Some(Number(tr))) =>
      var x := GenExpr(st, l);
      var y := GenExpr(x.st, r);
      Behind(o, y.st, BinaryCode(op, x.v, tl, y.v, tr, y.st.nextId))
    case _ => false
  }

  lemma BothCoded(st: Gen, op: BinOp, l: Expr, r: Expr)
    requires IsNumber(TypeOf(st.types, l)) && IsNumber(TypeOf(st.types, r))
    ensures CodedBinary(st, op, l, r, GenBoth(st, op, l, r))
  {
    var x := GenExpr(st, l);
    BothEmits(st, op, l, r, TypeOf(st.types, l).value.ty, TypeOf(st.types, r).value.ty, x, GenExpr(x.st, r));
    ExprIsBoth(st, op, l, r);
  }

  /** What the machine is asked to compute. */
  ghost function BinaryValue(m: R.Machine, op: BinOp, a: int, tl: Ty, b: int, tr: Ty): int {
    var v :=
      match (tl, tr)
      case (IntT, IntT) => m.compute(OpCode(op, IntT), [a, b])
      case (FloatT, FloatT) => m.compute(OpCode(op, FloatT), [a, b])
      case (IntT, FloatT) => m.compute(OpCode(op, FloatT), [m.compute(SITOFP, [a]), b])
      case (FloatT, IntT) => m.compute(OpCode(op, FloatT), [a, m.compute(SITOFP, [b])]);
    if op in COMPARISONS then m.compute(ZEXT, [v]) else v
  }

  /** The left operand is evaluated first; its effects are there when the right one is. */
  lemma BinaryMeans(c: Context, types: Scopes<Shape>, op: BinOp, l: Expr, r: Expr, tl: Ty, tr: Ty, s: Store)
    requires TypeOf(types, l) == Some(Number(tl)) && TypeOf(types, r) == Some(Number(tr))
    ensures var x := Eval(c, types, l, s);
            Eval(c, types, Binary(op, l, r), s) ==
              if !x.Val? then x
              else
                var y := Eval(c, types, r, x.s);
                if !y.Val? then y else Val(y.s, BinaryValue(c.m, op, x.v, tl, y.v, tr))
  {
  }

  // ----- assignments, arguments, results, indices -----

  /** The store of a value to `addr`, behind its conversion. */
  function StoreCode(v: I.Value, from: Ty, addr: I.Value, to: Ty, n: nat): seq<I.Instr> {
    match (from, to)
    case (IntT, FloatT) => [Step(n, SITOFP, [v]), I.Instr(n + 1, I.Store, [Nth(n), addr], [])]
    case (FloatT, IntT) => [Step(n, FPTOSI, [v]), I.Instr(n + 1, I.Store, [Nth(n), addr], [])]
    case _ => [I.Instr(n, I.Store, [v, addr], [])]
  }

  /** The value of an assignment is the one that is stored. */
  predicate Storing(o: Out, r: Out, from: Ty, addr: I.Value, to: Ty) {
    && o.st == Extended(r.st, StoreCode(r.v, from, addr, to, r.st.nextId))
    && o.v == if from == to then r.v else Nth(r.st.nextId)
  }

  lemma StoreEmits(r: Out, from: Ty, addr: I.Value, to: Ty)
    ensures Storing(GenStore(r, from, addr, to), r, from, addr, to)
  {
    var n := r.st.nextId;
    ConvertingEmits(r.st, r.v, from, to);
    var a := Changing(r.v, from, to, n);
    EmitExtends(r.st, a, n + |a|, I.Store, [Changed(r.v, from, to, n), addr]);
    assert a + [I.Instr(n + |a|, I.Store, [Changed(r.v, from, to, n), addr], [])] == StoreCode(r.v, from, addr, to, n);
  }

  /** The type that a variable, or the elements of an array, were declared with. */
  predicate HasTarget(types: Scopes<Shape>, name: string, index: Option<Expr>, to: Ty) {
    Find(types, name) in if index.None? then {Some(Scalar(to))} else {Some(Array(to)), Some(Pointer(to))}
  }

  lemma TargetIs(types: Scopes<Shape>, name: string, index: Option<Expr>, to: Ty)
    requires HasTarget(types, name, index, to)
    ensures to == if index.None? then VarTag(types, name) else ElemTag(types, name)
  {
  }

  /** An assignment converts to the type that its target was declared with, behind the address. */
  lemma AssignEmits(st: Gen, name: string, index: Option<Expr>, value: Expr, from: Ty, to: Ty, r: Out, a: Out)
    requires TypeOf(st.types, value) == Some(Number(from)) && HasTarget(st.types, name, index, to)
    requires r == GenExpr(st, value) && a == VarOut(r.st, name, index, true)
    ensures Storing(GenExpr(st, Assign(name, index, value)), Out(a.st, r.v), from, a.v, to)
  {
    TagIs(st.types, value, from);
    TargetIs(st.types, name, index, to);
    var w := GenStore(Out(a.st, r.v), from, a.v, to);
    AssignParts(st, name, index, value, r, a, w);
    StoreEmits(Out(a.st, r.v), from, a.v, to);
  }

  /** An argument is converted to the type of the parameter; an address is passed as it is. */
  lemma ArgEmits(st: Gen, arg: Expr, param: Param, from: Ty, r: Out)
    requires r == GenExpr(st, arg) && if param.isArray then TypeOf(st.types, arg).Some? else TypeOf(st.types, arg) == Some(Number(from))
    ensures GenArg(st, arg, param) ==
              if param.isArray then r
              else Out(Extended(r.st, Changing(r.v, from, param.ty, r.st.nextId)), Changed(r.v, from, param.ty, r.st.nextId))
  {
    ConvertingEmits(r.st, r.v, from, param.ty);
  }

  /** A result is converted to the type of the function. */
  lemma ReturnEmits(st: Gen, e: Expr, from: Ty, to: Ty, r: Out)
    requires TypeOf(st.types, e) == Some(Number(from)) && st.ret == Returns(to) && r == GenExpr(st, e)
    ensures GenStmt(st, Return(Some(e))) == Extended(r.st, ReturnCode(r.v, from, to, r.st.nextId))
  {
    TagIs(st.types, e, from);
    RetEmits(r, from, to);
  }

  function ReturnCode(v: I.Value, from: Ty, to: Ty, n: nat): seq<I.Instr> {
    match (from, to)
    case (IntT, FloatT) => [Step(n, SITOFP, [v]), I.Instr(n + 1, I.Ret, [Nth(n)], [])]
    case (FloatT, IntT) => [Step(n, FPTOSI, [v]), I.Instr(n + 1, I.Ret, [Nth(n)], [])]
    case _ => [I.Instr(n, I.Ret, [v], [])]
  }

  lemma RetEmits(r: Out, from: Ty, to: Ty)
    ensures var w := Converting(r.st, r.v, from, to); w.st.Ret([w.v]) == Extended(r.st, ReturnCode(r.v, from, to, r.st.nextId))
  {
    var n := r.st.nextId;
    ConvertingEmits(r.st, r.v, from, to);
    var a := Changing(r.v, from, to, n);
    EmitExtends(r.st, a, n + |a|, I.Ret, [Changed(r.v, from, to, n)]);
    assert a + [I.Instr(n + |a|, I.Ret, [Changed(r.v, from, to, n)], [])] == ReturnCode(r.v, from, to, n);
  }
}
