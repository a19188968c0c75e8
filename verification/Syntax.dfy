/**
  The statements and expressions of C-minus, and which of them are well typed.
 */
module Syntax {
  import opened Options

  datatype Ty = IntT | FloatT

  datatype BinOp = Lt | Le | Ge | Gt | Eq | Neq | Plus | Minus | Mul | Div

  /** A variable may be subscripted; `Num` holds a literal of either type. */
  datatype Expr =
    | Num(ty: Ty, n: int)
    | Var(name: string, index: Option<Expr>)
    | Assign(name: string, index: Option<Expr>, value: Expr)
    | Binary(op: BinOp, l: Expr, r: Expr)
    | Call(name: string, args: seq<Expr>)

  /** A declaration; `node` tells it from all others. */
  datatype Decl = Decl(name: string, ty: Ty, len: Option<nat>, node: nat)

  datatype Stmt =
    | ExprStmt(e: Option<Expr>)
    | Compound(decls: seq<Decl>, body: seq<Stmt>)
    | If(cond: Expr, yes: Stmt, no: Option<Stmt>)
    | While(cond: Expr, loop: Stmt)
    | Return(e: Option<Expr>)

  datatype Param = Param(name: string, ty: Ty, isArray: bool)

  datatype RetTy = VoidT | Returns(ty: Ty)

  // ----- scopes -----

  /** What a name stands for. An array parameter is a variable that holds an address. */
  datatype Shape = Scalar(ty: Ty) | Array(ty: Ty) | Pointer(ty: Ty) | Function(id: nat, params: seq<Param>, ret: RetTy)

  type Scopes<T> = seq<map<string, T>>

  /** The innermost scope that knows `name`. */
  function Level<T>(s: Scopes<T>, name: string): (r: Option<nat>)
    ensures r.Some? ==> r.value < |s| && name in s[r.value]
  {
    if s == [] then None
    else if name in s[|s| - 1] then Some(|s| - 1)
    else Level(s[..|s| - 1], name)
  }

  function Find<T>(s: Scopes<T>, name: string): Option<T> {
    match Level(s, name)
    case None => None
    case Some(k) => Some(s[k][name])
  }

  /** A name that the innermost scope knows already keeps its meaning. */
  function Push<T>(s: Scopes<T>, name: string, x: T): (r: Scopes<T>)
    ensures |r| == |s|
  {
    if s == [] || name in s[|s| - 1] then s else s[|s| - 1 := s[|s| - 1][name := x]]
  }

  ghost predicate Parallel<S, T>(s: Scopes<S>, t: Scopes<T>) {
    |s| == |t| && forall k {:trigger s[k]} {:trigger t[k]} :: 0 <= k < |s| ==> s[k].Keys == t[k].Keys
  }

  lemma {:induction false} SameLevel<S, T>(s: Scopes<S>, t: Scopes<T>, name: string)
    requires Parallel(s, t)
    ensures Level(s, name) == Level(t, name)
  {
    if s != [] && name !in s[|s| - 1] {
      SameLevel(s[..|s| - 1], t[..|t| - 1], name);
    }
  }

  // ----- types -----

  function ShapeFor(types: Scopes<Shape>, name: string): Option<Shape> {
    Find(types, name)
  }

  datatype ValTy = Number(ty: Ty) | Address(elem: Ty) | Nothing

  predicate IsCompare(op: BinOp) {
    op.Lt? || op.Le? || op.Ge? || op.Gt? || op.Eq? || op.Neq?
  }

  /** `promote`: two ints are computed with as ints, anything else as floats. */
  function Joined(l: Ty, r: Ty): Ty {
    if l.IntT? && r.IntT? then IntT else FloatT
  }

  /** The type of an expression; none if it is not well typed. */
  function TypeOf(types: Scopes<Shape>, e: Expr): Option<ValTy> {
    match e
    case Num(ty, _) => Some(Number(ty))
    case Var(name, None) =>
      (match ShapeFor(types, name)
       case Some(Scalar(ty)) => Some(Number(ty))
       case Some(Array(ty)) => Some(Address(ty))
       case Some(Pointer(ty)) => Some(Address(ty))
       case _ => None)
    case Var(name, Some(index)) =>
      if IsNumber(TypeOf(types, index)) then ElementTy(types, name) else None
    case Assign(name, None, value) =>
      if IsNumber(TypeOf(types, value)) then
        match ShapeFor(types, name)
        case Some(Scalar(ty)) => Some(Number(ty))
        case _ => None
      else None
    case Assign(name, Some(index), value) =>
      if IsNumber(TypeOf(types, value)) && IsNumber(TypeOf(types, index)) then ElementTy(types, name) else None
    case Binary(op, l, r) =>
      (match (TypeOf(types, l), TypeOf(types, r))
       case (Some(Number(tl)), Some(Number(tr))) => Some(Number(if IsCompare(op) then IntT else Joined(tl, tr)))
       case _ => None)
    case Call(name, args) =>
      (match ShapeFor(types, name)
       case Some(Function(_, params, ret)) =>
         if |args| == |params| && forall k :: 0 <= k < |args| ==> Accepts(params[k], TypeOf(types, args[k])) then
           Some(match ret case VoidT => Nothing case Returns(ty) => Number(ty))
         else None
       case _ => None)
  }

  predicate IsNumber(t: Option<ValTy>) {
    t.Some? && t.value.Number?
  }

  predicate Accepts(p: Param, t: Option<ValTy>) {
    t.Some? && if p.isArray then t.value.Address? else t.value.Number?
  }

  function ElementTy(types: Scopes<Shape>, name: string): Option<ValTy> {
    match ShapeFor(types, name)
    case Some(Array(ty)) => Some(Number(ty))
    case Some(Pointer(ty)) => Some(Number(ty))
    case _ => None
  }

  function ShapeOf(d: Decl): Shape {
    if d.len.None? then Scalar(d.ty) else Array(d.ty)
  }

  function Declared(types: Scopes<Shape>, decls: seq<Decl>): Scopes<Shape>
    decreases decls
  {
    if decls == [] then types else Declared(Push(types, decls[0].name, ShapeOf(decls[0])), decls[1..])
  }

  /** An array parameter is a variable that holds an address. */
  function ParamShape(p: Param): Shape {
    if p.isArray then Pointer(p.ty) else Scalar(p.ty)
  }

  function Bound(types: Scopes<Shape>, params: seq<Param>): Scopes<Shape> {
    if params == [] then types
    else Push(Bound(types, params[..|params| - 1]), params[|params| - 1].name, ParamShape(params[|params| - 1]))
  }

  /** What is in scope in the body of a function: parameters and outermost declarations share a scope. */
  function FunctionTypes(types: Scopes<Shape>, params: seq<Param>, decls: seq<Decl>): Scopes<Shape> {
    Declared(Bound(types + [map[]], params), decls)
  }

  predicate StmtOk(types: Scopes<Shape>, ret: RetTy, s: Stmt)
    decreases s
  {
    match s
    case ExprStmt(None) => true
    case ExprStmt(Some(e)) => TypeOf(types, e).Some?
    case Compound(decls, body) => BodyOk(Declared(types + [map[]], decls), ret, body)
    case If(cond, yes, no) =>
      IsNumber(TypeOf(types, cond)) && StmtOk(types, ret, yes) && (no.Some? ==> StmtOk(types, ret, no.value))
    case While(cond, body) => IsNumber(TypeOf(types, cond)) && StmtOk(types, ret, body)
    case Return(None) => true
    case Return(Some(e)) => ret.Returns? && IsNumber(TypeOf(types, e))
  }

  predicate BodyOk(types: Scopes<Shape>, ret: RetTy, body: seq<Stmt>)
    decreases body
  {
    body == [] || (StmtOk(types, ret, body[0]) && BodyOk(types, ret, body[1..]))
  }

  // ----- operations -----

  const SITOFP := 0
  const FPTOSI := 1
  const ZEXT := 2

  function Index(op: BinOp): nat {
    match op
    case Lt => 0 case Le => 1 case Ge => 2 case Gt => 3 case Eq => 4 case Neq => 5
    case Plus => 6 case Minus => 7 case Mul => 8 case Div => 9
  }

  /** The instruction that computes `op` on two ints or two floats. */
  function OpCode(op: BinOp, ty: Ty): nat {
    3 + 2 * Index(op) + if ty.IntT? then 0 else 1
  }

  /** Different operations are different instructions. */
  lemma OpCodesDiffer(op: BinOp, ty: Ty, op': BinOp, ty': Ty)
    ensures OpCode(op, ty) == OpCode(op', ty') ==> op == op' && ty == ty'
    ensures OpCode(op, ty) !in {SITOFP, FPTOSI, ZEXT}
  {
  }
}
