/**
  What C-minus statements and expressions mean.
 */
module Meaning {
  import opened Options
  import opened Syntax
  import R = Running

  /** A local variable and its value, once it has one; a place in memory; or a function. */
  datatype Binding = Slot(v: Option<int>) | Place(addr: int) | Callable

  datatype Store = Store(env: Scopes<Binding>, mem: map<int, int>, trace: seq<R.Event>)

  /** What the meaning of a function is relative to: the machine, the addresses of its local arrays,
      and what it returns. */
  datatype Context = Context(m: R.Machine, layout: nat -> int, ret: RetTy)

  const NEG_IDX_EXCEPT: nat := 3

  datatype Value = Val(s: Store, v: int) | Left(mem: map<int, int>, trace: seq<R.Event>) | Undefined

  ghost function Op1(m: R.Machine, op: nat, v: int): int {
    m.compute(op, [v])
  }

  ghost function Op2(m: R.Machine, op: nat, l: int, r: int): int {
    m.compute(op, [l, r])
  }

  ghost function Convert(m: R.Machine, v: int, from: Ty, to: Ty): int {
    if from == to then v else Op1(m, if from.IntT? then SITOFP else FPTOSI, v)
  }

  ghost function BindingOf(s: Store, name: string): Option<Binding> {
    Find(s.env, name)
  }

  ghost function Load(s: Store, b: Option<Binding>): Option<int> {
    match b
    case Some(Slot(v)) => v
    case Some(Place(addr)) => Some(R.Read(s.mem, addr))
    case _ => None
  }

  ghost function SetSlot(s: Store, name: string, v: int): Store {
    match Level(s.env, name)
    case None => s
    case Some(k) => s.(env := s.env[k := s.env[k][name := Slot(Some(v))]])
  }

  ghost function Write(s: Store, addr: int, v: int): Store {
    s.(mem := s.mem[addr := v], trace := s.trace + [R.Stored(addr, v)])
  }

  ghost function Calling(m: R.Machine, f: nat, args: seq<int>, s: Store): Value {
    if m.pure(f) then Val(s, m.pureCall(f, args))
    else
      var (mem, v) := m.call(f, args, s.mem);
      Val(s.(mem := mem, trace := s.trace + [R.Called(f, args)]), v)
  }

  /** The type of a well-typed number. */
  function Tag(types: Scopes<Shape>, e: Expr): Ty {
    match TypeOf(types, e)
    case Some(Number(ty)) => ty
    case _ => IntT
  }

  function ElemTag(types: Scopes<Shape>, name: string): Ty {
    match ElementTy(types, name)
    case Some(Number(ty)) => ty
    case _ => IntT
  }

  function VarTag(types: Scopes<Shape>, name: string): Ty {
    match ShapeFor(types, name)
    case Some(Scalar(ty)) => ty
    case _ => IntT
  }

  ghost function Eval(c: Context, types: Scopes<Shape>, e: Expr, s: Store): Value
    decreases e, 1
  {
    match e
    case Num(_, n) => Val(s, n)
    case Var(name, None) => EvalName(c, types, name, s)
    case Var(name, Some(index)) => Reading(Element(c, types, name, index, s))
    case Assign(name, None, value) => Assigning(c, types, name, Eval(c, types, value, s), Tag(types, value))
    case Assign(name, Some(index), value) => EvalPut(c, types, name, index, Eval(c, types, value, s), Tag(types, value))
    case Binary(op, l, r) => EvalBoth(c, types, op, l, r, s)
    case Call(name, args) => EvalCall(c, types, name, args, s)
  }

  ghost function EvalName(c: Context, types: Scopes<Shape>, name: string, s: Store): Value {
    match (ShapeFor(types, name), BindingOf(s, name))
    case (Some(Array(_)), Some(Place(addr))) => Val(s, c.m.gep([addr, 0, 0]))
    case (_, b) => (match Load(s, b) case Some(v) => Val(s, v) case None => Undefined)
  }

  ghost function Reading(res: Value): Value {
    match res
    case Val(s1, addr) => Val(s1, R.Read(s1.mem, addr))
    case other => other
  }

  /** Assign an evaluated value to a variable. */
  ghost function Assigning(c: Context, types: Scopes<Shape>, name: string, r: Value, tag: Ty): Value {
    match r
    case Val(s1, v) => SetVar(s1, name, Convert(c.m, v, tag, VarTag(types, name)))
    case other => other
  }

  ghost function SetVar(s: Store, name: string, w: int): Value {
    match BindingOf(s, name)
    case Some(Slot(_)) => Val(SetSlot(s, name, w), w)
    case Some(Place(addr)) => Val(Write(s, addr, w), w)
    case _ => Undefined
  }

  /** Assign an evaluated value to an element. */
  ghost function EvalPut(c: Context, types: Scopes<Shape>, name: string, index: Expr, r: Value, tag: Ty): Value
    decreases index, 3
  {
    match r
    case Val(s1, v) => Putting(c, Element(c, types, name, index, s1), Convert(c.m, v, tag, ElemTag(types, name)))
    case other => other
  }

  ghost function Putting(c: Context, res: Value, w: int): Value {
    match res
    case Val(s2, addr) => Val(Write(s2, addr, w), w)
    case other => other
  }

  ghost function EvalBoth(c: Context, types: Scopes<Shape>, op: BinOp, l: Expr, r: Expr, s: Store): Value
    decreases Binary(op, l, r), 0
  {
    match Eval(c, types, l, s)
    case Val(s1, v) =>
      (match Eval(c, types, r, s1)
       case Val(s2, w) => Val(s2, Computed(c.m, op, v, Tag(types, l), w, Tag(types, r)))
       case other => other)
    case other => other
  }

  ghost function EvalCall(c: Context, types: Scopes<Shape>, name: string, args: seq<Expr>, s: Store): Value
    decreases args, 2
  {
    match ShapeFor(types, name)
    case Some(Function(f, params, _)) =>
      if |args| != |params| then Undefined
      else
        (match EvalArgs(c, types, args, params, s)
         case Vals(s1, vs) => Calling(c.m, f, vs, s1)
         case LeftArgs(mem, trace) => Left(mem, trace)
         case UndefinedArgs => Undefined)
    case _ => Undefined
  }

  /** Both operands take part as ints or both as floats. */
  ghost function Computed(m: R.Machine, op: BinOp, l: int, tl: Ty, r: int, tr: Ty): int {
    var ty := Joined(tl, tr);
    var v := Op2(m, OpCode(op, ty), Convert(m, l, tl, ty), Convert(m, r, tr, ty));
    if IsCompare(op) then Op1(m, ZEXT, v) else v
  }

  /** The address of an element. On a negative index the function is left. */
  ghost function Element(c: Context, types: Scopes<Shape>, name: string, index: Expr, s: Store): Value
    decreases index, 2
  {
    match Eval(c, types, index, s)
    case Val(s1, v) => Locating(c, types, name, Convert(c.m, v, Tag(types, index), IntT), s1)
    case other => other
  }

  ghost function Locating(c: Context, types: Scopes<Shape>, name: string, i: int, s: Store): Value {
    if Op2(c.m, OpCode(Lt, IntT), i, 0) != 0 then
      match Calling(c.m, NEG_IDX_EXCEPT, [], s)
      case Val(s2, _) => Left(s2.mem, s2.trace)
      case other => other
    else
      match (ShapeFor(types, name), BindingOf(s, name))
      case (Some(Array(_)), Some(Place(addr))) => Val(s, c.m.gep([addr, 0, i]))
      case (Some(Pointer(_)), Some(Slot(Some(p)))) => Val(s, c.m.gep([p, i]))
      case _ => Undefined
  }

  datatype Values = Vals(s: Store, vs: seq<int>) | LeftArgs(mem: map<int, int>, trace: seq<R.Event>) | UndefinedArgs

  /** Arguments are evaluated from left to right and converted to the types of the parameters. */
  ghost function EvalArgs(c: Context, types: Scopes<Shape>, args: seq<Expr>, params: seq<Param>, s: Store): Values
    requires |args| == |params|
    decreases args, 1
  {
    if args == [] then Vals(s, [])
    else
      var n := |args| - 1;
      match EvalArgs(c, types, args[..n], params[..n], s)
      case Vals(s1, vs) =>
        (match EvalArg(c, types, args[n], params[n], s1)
         case Val(s2, v) => Vals(s2, vs + [v])
         case Left(mem, trace) => LeftArgs(mem, trace)
         case Undefined => UndefinedArgs)
      case other => other
  }

  ghost function EvalArg(c: Context, types: Scopes<Shape>, arg: Expr, param: Param, s: Store): Value
    decreases arg, 2
  {
    match Eval(c, types, arg, s)
    case Val(s2, v) => Val(s2, if param.isArray then v else Convert(c.m, v, Tag(types, arg), param.ty))
    case other => other
  }

  // ----- statements -----

  datatype Result =
    | Normal(s: Store)
    | Ended(mem: map<int, int>, trace: seq<R.Event>, exit: R.Exit)
    | Meaningless
    | OutOfFuel

  /** What a function returns when it is left through a negative index or through its end. */
  function DefaultExit(ret: RetTy): R.Exit {
    if ret.VoidT? then R.ReturnVoid else R.Return(0)
  }

  ghost function IsTrue(m: R.Machine, v: int, ty: Ty): bool {
    Op2(m, OpCode(Neq, ty), v, 0) != 0
  }

  ghost function Declaring(c: Context, s: Store, decls: seq<Decl>): Store
    decreases decls
  {
    if decls == [] then s
    else
      var d := decls[0];
      var b := if d.len.None? then Slot(None) else Place(c.layout(d.node));
      Declaring(c, s.(env := Push(s.env, d.name, b)), decls[1..])
  }

  ghost function Leaving(r: Result): Result {
    match r
    case Normal(s) => if s.env == [] then Meaningless else Normal(s.(env := s.env[..|s.env| - 1]))
    case other => other
  }

  /** Going on behind an expression whose value is dropped. */
  ghost function Dropping(c: Context, r: Value): Result {
    match r
    case Val(s, _) => Normal(s)
    case Left(mem, trace) => Ended(mem, trace, DefaultExit(c.ret))
    case Undefined => Meaningless
  }

  ghost function Returning(c: Context, r: Value, tag: Ty): Result {
    match r
    case Val(s, v) => Ended(s.mem, s.trace, R.Return(if c.ret.Returns? then Convert(c.m, v, tag, c.ret.ty) else v))
    case other => Dropping(c, other)
  }

  /** Run a statement; `fuel` bounds the iterations of each loop. */
  ghost function Exec(c: Context, types: Scopes<Shape>, t: Stmt, s: Store, fuel: nat): Result
    decreases fuel, t, 1
  {
    match t
    case ExprStmt(None) => Normal(s)
    case ExprStmt(Some(e)) => Dropping(c, Eval(c, types, e, s))
    case Compound(decls, body) =>
      Leaving(ExecAll(c, Declared(types + [map[]], decls), body, Declaring(c, s.(env := s.env + [map[]]), decls), fuel))
    case If(cond, _, _) => ExecIf(c, types, t, Eval(c, types, cond, s), fuel)
    case While(cond, _) => if fuel == 0 then OutOfFuel else ExecLoop(c, types, t, Eval(c, types, cond, s), fuel)
    case Return(None) => Ended(s.mem, s.trace, R.ReturnVoid)
    case Return(Some(e)) => Returning(c, Eval(c, types, e, s), Tag(types, e))
  }

  /** An `if` behind the evaluation of its condition. */
  ghost function ExecIf(c: Context, types: Scopes<Shape>, t: Stmt, r: Value, fuel: nat): Result
    requires t.If?
    decreases fuel, t, 0
  {
    match r
    case Val(s, v) =>
      if IsTrue(c.m, v, Tag(types, t.cond)) then Exec(c, types, t.yes, s, fuel)
      else if t.no.Some? then Exec(c, types, t.no.value, s, fuel)
      else Normal(s)
    case other => Dropping(c, other)
  }

  /** One iteration behind the evaluation of the condition, and the rest of the loop. */
  ghost function ExecLoop(c: Context, types: Scopes<Shape>, t: Stmt, r: Value, fuel: nat): Result
    requires t.While? && fuel > 0
    decreases fuel, t, 0
  {
    match r
    case Val(s, v) =>
      if IsTrue(c.m, v, Tag(types, t.cond)) then ExecAgain(c, types, t, Exec(c, types, t.loop, s, fuel), fuel) else Normal(s)
    case other => Dropping(c, other)
  }

  /** A loop behind its body. */
  ghost function ExecAgain(c: Context, types: Scopes<Shape>, t: Stmt, r: Result, fuel: nat): Result
    requires t.While? && fuel > 0
    decreases fuel, t.loop, 2
  {
    match r
    case Normal(s) => Exec(c, types, t, s, fuel - 1)
    case other => other
  }

  ghost function ExecAll(c: Context, types: Scopes<Shape>, body: seq<Stmt>, s: Store, fuel: nat): Result
    decreases fuel, body, 1
  {
    if body == [] then Normal(s)
    else
      match Exec(c, types, body[0], s, fuel)
      case Normal(s1) => ExecAll(c, types, body[1..], s1, fuel)
      case other => other
  }

  // ----- functions -----

  /** Parameters are variables that start with the values of the arguments. */
  ghost function Arriving(c: Context, s: Store, params: seq<Param>): Store {
    if params == [] then s
    else
      var n := |params| - 1;
      var rest := Arriving(c, s, params[..n]);
      rest.(env := Push(rest.env, params[n].name, Slot(Some(c.m.argument(n)))))
  }

  /** A function that is left through its end returns the default. */
  ghost function Closing(c: Context, r: Result): Result {
    match r
    case Normal(s) => Ended(s.mem, s.trace, DefaultExit(c.ret))
    case other => other
  }

  /** A call of a function, from a store that knows the names outside of it. */
  ghost function Outcome(c: Context, types: Scopes<Shape>, params: seq<Param>, decls: seq<Decl>, body: seq<Stmt>, s: Store, fuel: nat): Result {
    var inner := Declaring(c, Arriving(c, s.(env := s.env + [map[]]), params), decls);
    Closing(c, ExecAll(c, FunctionTypes(types, params, decls), body, inner, fuel))
  }
}
