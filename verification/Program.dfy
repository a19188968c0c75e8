/**
  Whole programs: functions that call one another, memory made of globals and of the
  local variables of every active call, and calls that leave the program.
 */
module Program {
  import opened Cfg
  import opened Ir

  /** A function: for each parameter whether it is an int or a float (the others are arrays), its basic
      blocks in list order, and the instructions whose result is an address. A declaration has no blocks. */
  datatype Func = Func(name: string, scalar: seq<bool>, blocks: seq<Block>, code: Code, pointers: set<nat>) {

    predicate IsDeclaration() {
      blocks == []
    }

    predicate At(b: Block, k: nat) {
      b in blocks && b in code && k < |code[b]|
    }

    /** The instructions of the function by identity. */
    function Defs(): map<nat, Instr> {
      DefsOf(code, blocks)
    }

    /** Identities name instructions. */
    ghost predicate Ok() {
      && (forall b {:trigger b in code} {:trigger b in blocks} :: b in blocks <==> b in code)
      && (forall b: Block, k: nat {:trigger At(b, k)} :: At(b, k) ==> Names(Defs(), code[b][k]))
    }
  }

  type Prog = map<nat, Func>

  function DefsIn(body: seq<Instr>): map<nat, Instr> {
    if body == [] then map[] else DefsIn(body[..|body| - 1])[body[|body| - 1].id := body[|body| - 1]]
  }

  function DefsOf(code: Code, blocks: seq<Block>): map<nat, Instr> {
    if blocks == [] then map[]
    else
      var b := blocks[|blocks| - 1];
      var rest := DefsOf(code, blocks[..|blocks| - 1]);
      if b in code then rest + DefsIn(code[b]) else rest
  }

  predicate Names(defs: map<nat, Instr>, i: Instr) {
    i.id in defs && defs[i.id] == i
  }

  ghost predicate AllNamed(defs: map<nat, Instr>, body: seq<Instr>) {
    forall k {:trigger body[k]} :: 0 <= k < |body| ==> Names(defs, body[k])
  }

  lemma DefsInSnoc(body: seq<Instr>, i: Instr)
    ensures DefsIn(body + [i]) == DefsIn(body)[i.id := i]
  {
    var t := body + [i];
    assert t[..|t| - 1] == body && t[|t| - 1] == i;
  }

  lemma {:induction false} DefsInAre(body: seq<Instr>, id: nat)
    requires id in DefsIn(body)
    ensures exists k :: 0 <= k < |body| && body[k].id == id && body[k] == DefsIn(body)[id]
  {
    var n := |body| - 1;
    if body[n].id != id {
      DefsInAre(body[..n], id);
      var k :| 0 <= k < n && body[..n][k].id == id && body[..n][k] == DefsIn(body[..n])[id];
      assert body[k].id == id;
    }
  }

  /** Every definition is one of the instructions of the function. */
  lemma {:induction false} DefsAre(code: Code, blocks: seq<Block>, id: nat)
    requires id in DefsOf(code, blocks)
    ensures exists b, k :: b in blocks && b in code && 0 <= k < |code[b]| && code[b][k].id == id && code[b][k] == DefsOf(code, blocks)[id]
  {
    var n := |blocks| - 1;
    var b := blocks[n];
    if b in code && id in DefsIn(code[b]) {
      DefsInAre(code[b], id);
    } else {
      DefsAre(code, blocks[..n], id);
    }
  }

  lemma NamedBody(f: Func, b: Block)
    requires f.Ok() && b in f.code
    ensures AllNamed(f.Defs(), f.code[b])
  {
    forall k | 0 <= k < |f.code[b]|
      ensures Names(f.Defs(), f.code[b][k])
    {
      assert f.At(b, k);
    }
  }

  // ----- memory -----

  /** A global, or a local variable of the call that is `depth` calls deep. */
  datatype Object = Global(name: nat) | Local(depth: nat, id: nat)

  datatype Val = Int(n: int) | Pointer(obj: Object, off: int)

  type Memory = map<(Object, int), Val>

  /** What a program does to its surroundings: calls of declared functions and stores to globals. */
  datatype Event = Outside(callee: nat, args: seq<int>) | Stored(global: nat, off: int, val: Val)

  datatype World = World(mem: Memory, trace: seq<Event>)

  type Regs = map<nat, Val>

  /** What is left uninterpreted: arithmetic, the offset an index computes, and what a declared
      function returns, given all that has happened. */
  datatype Machine = Machine(
    compute: (nat, seq<int>) -> int,
    offset: seq<int> -> int,
    outside: (nat, seq<int>, seq<Event>) -> int)

  function AsInt(v: Val): int {
    if v.Int? then v.n else 0
  }

  function Ints(vs: seq<Val>): seq<int> {
    seq(|vs|, k requires 0 <= k < |vs| => AsInt(vs[k]))
  }

  ghost function ReadReg(regs: Regs, id: nat): Val {
    if id in regs then regs[id] else Int(0)
  }

  ghost function ReadCell(mem: Memory, obj: Object, off: int): Val {
    if (obj, off) in mem then mem[(obj, off)] else Int(0)
  }

  ghost function WriteCell(w: World, obj: Object, off: int, v: Val): World {
    w.(mem := w.mem[(obj, off) := v], trace := if obj.Global? then w.trace + [Stored(obj.name, off, v)] else w.trace)
  }

  predicate IsBelow(obj: Object, depth: nat) {
    obj.Global? || obj.depth < depth
  }

  /** A new call at `depth` finds no local variables of an earlier one. */
  ghost function Cleared(w: World, depth: nat): World {
    w.(mem := map c | c in w.mem && IsBelow(c.0, depth) :: w.mem[c])
  }

  // ----- running -----

  /** One call of a function. */
  datatype Frame = Frame(args: seq<Val>, depth: nat)

  ghost function Eval(a: Frame, regs: Regs, v: Value): Val {
    match v
    case ConstantInt(n) => Int(n)
    case Argument(k) => if k < |a.args| then a.args[k] else Int(0)
    case GlobalVariable(g) => Pointer(Global(g), 0)
    case Result(id, _) => ReadReg(regs, id)
  }

  ghost function EvalAll(a: Frame, regs: Regs, vs: seq<Value>): (r: seq<Val>)
    ensures |r| == |vs|
    ensures forall k :: 0 <= k < |vs| ==> r[k] == Eval(a, regs, vs[k])
  {
    if vs == [] then [] else EvalAll(a, regs, vs[..|vs| - 1]) + [Eval(a, regs, vs[|vs| - 1])]
  }

  /** The variables of a call that is over are gone. */
  predicate IsOver(a: Frame, v: Val) {
    v.Pointer? && v.obj.Local? && v.obj.depth > a.depth
  }

  /** The result of an instruction that only computes one. */
  ghost function ResultIn(m: Machine, a: Frame, i: Instr, regs: Regs, mem: Memory): Val {
    var vs := EvalAll(a, regs, i.args);
    match i.op
    case Alloca(_) => Pointer(Local(a.depth, i.id), 0)
    case Load => if |vs| == 1 && vs[0].Pointer? && !IsOver(a, vs[0]) then ReadCell(mem, vs[0].obj, vs[0].off) else Int(0)
    case Gep => if |vs| > 0 && vs[0].Pointer? then Pointer(vs[0].obj, vs[0].off + m.offset(Ints(vs))) else Int(0)
    case Compute(opcode) => Int(m.compute(opcode, Ints(vs)))
    case _ => Int(0)
  }

  ghost function DoStore(a: Frame, i: Instr, regs: Regs, w: World): World {
    if |i.args| != 2 then w
    else
      var addr := Eval(a, regs, i.args[1]);
      if addr.Pointer? then WriteCell(w, addr.obj, addr.off, Eval(a, regs, i.args[0])) else w
  }

  /** A store to a variable of a call that is over. */
  ghost predicate Dangles(a: Frame, i: Instr, regs: Regs) {
    i.op.Store? && i.args != [] && IsOver(a, Eval(a, regs, i.args[|i.args| - 1]))
  }

  /** Alloca, load, address computation and arithmetic: no effect but the result. */
  predicate IsQuiet(op: Op) {
    op.Alloca? || op.Load? || op.Gep? || op.Compute?
  }

  ghost function Incoming(i: Instr, from: Block): Value {
    if exists k :: 0 <= k < |i.args| && k < |i.labels| && i.labels[k] == from then
      var k :| 0 <= k < |i.args| && k < |i.labels| && i.labels[k] == from;
      i.args[k]
    else ConstantInt(0)
  }

  ghost function PhiValues(a: Frame, body: seq<Instr>, from: Block, regs: Regs): Regs {
    if body == [] then map[]
    else
      var i := body[|body| - 1];
      var rest := PhiValues(a, body[..|body| - 1], from, regs);
      if i.op.Phi? then rest[i.id := Eval(a, regs, Incoming(i, from))] else rest
  }

  /** How a call went, with the world as it left it and the blocks it went through. */
  datatype Outcome = Returned(w: World, val: int, path: seq<Block>) | Stuck(w: World, path: seq<Block>) | OutOfFuel(w: World, path: seq<Block>)

  datatype Progress = Going(regs: Regs, w: World) | Blocked(w: World) | Starved(w: World)

  function Along(b: Block, out: Outcome): Outcome {
    out.(path := [b] + out.path)
  }

  datatype Exit = Goto(target: Block) | Leave(val: int) | NoExit

  ghost function ExitOf(a: Frame, body: seq<Instr>, regs: Regs): Exit {
    if body == [] then NoExit
    else
      var i := body[|body| - 1];
      match i.op
      case Br => if |i.labels| == 1 then Goto(i.labels[0]) else NoExit
      case CondBr =>
        if |i.labels| == 2 && |i.args| == 1 then
          Goto(if AsInt(Eval(a, regs, i.args[0])) != 0 then i.labels[0] else i.labels[1])
        else NoExit
      case Ret => if |i.args| == 1 then Leave(AsInt(Eval(a, regs, i.args[0]))) else Leave(0)
      case _ => NoExit
  }

  /** What the parameters receive; an int or float parameter receives a number. */
  function Coerce(scalar: seq<bool>, vs: seq<Val>): (r: seq<Val>)
    ensures |r| == |scalar|
    ensures forall k :: 0 <= k < |scalar| ==> r[k] == Received(scalar, vs, k)
  {
    seq(|scalar|, k requires 0 <= k < |scalar| => Received(scalar, vs, k))
  }

  function Received(scalar: seq<bool>, vs: seq<Val>, k: nat): Val
    requires k < |scalar|
  {
    if k >= |vs| then Int(0) else if scalar[k] then Int(AsInt(vs[k])) else vs[k]
  }

  /** Call `f`, with `fuel` bounding both the blocks a call goes through and the depth of calls. */
  ghost function Invoke(p: Prog, m: Machine, f: nat, args: seq<Val>, w: World, depth: nat, fuel: nat): Outcome
    decreases fuel, 2, 0
  {
    if f !in p || p[f].IsDeclaration() then
      Returned(w.(trace := w.trace + [Outside(f, Ints(args))]), m.outside(f, Ints(args), w.trace), [])
    else
      Blocks(p, m, p[f], Frame(Coerce(p[f].scalar, args), depth), 0, p[f].blocks[0], map[], Cleared(w, depth), fuel)
  }

  /** Run function `f` from block `b` on. */
  ghost function Blocks(p: Prog, m: Machine, f: Func, a: Frame, from: Block, b: Block, regs: Regs, w: World, fuel: nat): Outcome
    decreases fuel, 1, 0
  {
    if fuel == 0 then OutOfFuel(w, [])
    else if b !in f.code then Stuck(w, [])
    else
      match Steps(p, m, a, f.code[b], regs + PhiValues(a, f.code[b], from, regs), w, fuel)
      case Blocked(w') => Stuck(w', [b])
      case Starved(w') => OutOfFuel(w', [b])
      case Going(regs', w') =>
        match ExitOf(a, f.code[b], regs')
        case Goto(t) => Along(b, Blocks(p, m, f, a, b, t, regs', w', fuel - 1))
        case Leave(v) => Returned(w', v, [b])
        case NoExit => Stuck(w', [b])
  }

  ghost function Steps(p: Prog, m: Machine, a: Frame, body: seq<Instr>, regs: Regs, w: World, fuel: nat): Progress
    decreases fuel, 0, |body|
  {
    if body == [] then Going(regs, w)
    else
      match Steps(p, m, a, body[..|body| - 1], regs, w, fuel)
      case Going(regs', w') => Step(p, m, a, body[|body| - 1], regs', w', fuel)
      case other => other
  }

  ghost function Step(p: Prog, m: Machine, a: Frame, i: Instr, regs: Regs, w: World, fuel: nat): Progress
    decreases fuel, 0, 0
  {
    match i.op
    case Call(g) =>
      if fuel == 0 then Starved(w)
      else
        (match Invoke(p, m, g, EvalAll(a, regs, i.args), w, a.depth + 1, fuel - 1)
         case Returned(w', v, _) => Going(regs[i.id := Int(v)], w')
         case Stuck(w', _) => Blocked(w')
         case OutOfFuel(w', _) => Starved(w'))
    case Store => if Dangles(a, i, regs) then Blocked(w) else Going(regs, DoStore(a, i, regs, w))
    case _ =>
      if !IsQuiet(i.op) then Going(regs, w)
      else Going(regs[i.id := ResultIn(m, a, i, regs, w.mem)], w)
  }

  /** How a step goes on from what its call came to. */
  ghost function AfterCall(i: Instr, regs: Regs, out: Outcome): Progress {
    match out
    case Returned(w, v, _) => Going(regs[i.id := Int(v)], w)
    case Stuck(w, _) => Blocked(w)
    case OutOfFuel(w, _) => Starved(w)
  }

  lemma StepIsCall(p: Prog, m: Machine, a: Frame, i: Instr, args: seq<Val>, regs: Regs, w: World, deeper: nat, fuel: nat, less: nat)
    requires i.op.Call? && less + 1 == fuel && deeper == a.depth + 1 && args == EvalAll(a, regs, i.args)
    ensures Step(p, m, a, i, regs, w, fuel) == AfterCall(i, regs, Invoke(p, m, i.op.callee, args, w, deeper, less))
  {
  }

  lemma StepsSnoc(p: Prog, m: Machine, a: Frame, body: seq<Instr>, i: Instr, r: Regs, w: World, fuel: nat)
    ensures var s := Steps(p, m, a, body, r, w, fuel);
            Steps(p, m, a, body + [i], r, w, fuel) == if s.Going? then Step(p, m, a, i, s.regs, s.w, fuel) else s
  {
    var t := body + [i];
    assert t[..|t| - 1] == body && t[|t| - 1] == i;
  }

  lemma PhisSnoc(a: Frame, body: seq<Instr>, i: Instr, from: Block, r: Regs)
    ensures PhiValues(a, body + [i], from, r) ==
            var rest := PhiValues(a, body, from, r); if i.op.Phi? then rest[i.id := Eval(a, r, Incoming(i, from))] else rest
  {
    var t := body + [i];
    assert t[..|t| - 1] == body && t[|t| - 1] == i;
  }

  // ----- the trace only grows -----

  lemma {:induction false} StepGrows(p: Prog, m: Machine, a: Frame, i: Instr, regs: Regs, w: World, fuel: nat)
    ensures w.trace <= Step(p, m, a, i, regs, w, fuel).w.trace
    decreases fuel, 0, 0
  {
    if i.op.Call? && fuel > 0 {
      InvokeGrows(p, m, i.op.callee, EvalAll(a, regs, i.args), w, a.depth + 1, fuel - 1);
    }
  }

  lemma {:induction false} StepsGrow(p: Prog, m: Machine, a: Frame, body: seq<Instr>, regs: Regs, w: World, fuel: nat)
    ensures w.trace <= Steps(p, m, a, body, regs, w, fuel).w.trace
    decreases fuel, 0, |body|
  {
    if body != [] {
      var n := |body| - 1;
      StepsGrow(p, m, a, body[..n], regs, w, fuel);
      var s := Steps(p, m, a, body[..n], regs, w, fuel);
      if s.Going? {
        StepGrows(p, m, a, body[n], s.regs, s.w, fuel);
      }
    }
  }

  lemma {:induction false} BlocksGrow(p: Prog, m: Machine, f: Func, a: Frame, from: Block, b: Block, regs: Regs, w: World, fuel: nat)
    ensures w.trace <= Blocks(p, m, f, a, from, b, regs, w, fuel).w.trace
    decreases fuel, 1, 0
  {
    if fuel > 0 && b in f.code {
      var regs1 := regs + PhiValues(a, f.code[b], from, regs);
      StepsGrow(p, m, a, f.code[b], regs1, w, fuel);
      var s := Steps(p, m, a, f.code[b], regs1, w, fuel);
      if s.Going? && ExitOf(a, f.code[b], s.regs).Goto? {
        BlocksGrow(p, m, f, a, b, ExitOf(a, f.code[b], s.regs).target, s.regs, s.w, fuel - 1);
      }
    }
  }

  /** However a call goes, what has happened has happened. */
  lemma {:induction false} InvokeGrows(p: Prog, m: Machine, f: nat, args: seq<Val>, w: World, depth: nat, fuel: nat)
    ensures w.trace <= Invoke(p, m, f, args, w, depth, fuel).w.trace
    decreases fuel, 2, 0
  {
    if f in p && !p[f].IsDeclaration() {
      BlocksGrow(p, m, p[f], Frame(Coerce(p[f].scalar, args), depth), 0, p[f].blocks[0], map[], Cleared(w, depth), fuel);
    }
  }

  // ----- more fuel only takes a run further -----

  ghost predicate Further(s: Progress, s': Progress) {
    s.w.trace <= s'.w.trace && (!s.Starved? ==> s' == s)
  }

  ghost predicate GoesFurther(out: Outcome, out': Outcome) {
    out.w.trace <= out'.w.trace && out.path <= out'.path && (!out.OutOfFuel? ==> out' == out)
  }

  lemma {:induction false} StepMore(p: Prog, m: Machine, a: Frame, i: Instr, regs: Regs, w: World, fuel: nat, more: nat)
    requires fuel <= more
    ensures Further(Step(p, m, a, i, regs, w, fuel), Step(p, m, a, i, regs, w, more))
    decreases fuel, 0, 0
  {
    if i.op.Call? {
      if fuel == 0 {
        StepGrows(p, m, a, i, regs, w, more);
      } else {
        InvokeMore(p, m, i.op.callee, EvalAll(a, regs, i.args), w, a.depth + 1, fuel - 1, more - 1);
      }
    }
  }

  lemma {:induction false} StepsMore(p: Prog, m: Machine, a: Frame, body: seq<Instr>, regs: Regs, w: World, fuel: nat, more: nat)
    requires fuel <= more
    ensures Further(Steps(p, m, a, body, regs, w, fuel), Steps(p, m, a, body, regs, w, more))
    decreases fuel, 0, |body|
  {
    if body != [] {
      var n := |body| - 1;
      StepsMore(p, m, a, body[..n], regs, w, fuel, more);
      var s, s' := Steps(p, m, a, body[..n], regs, w, fuel), Steps(p, m, a, body[..n], regs, w, more);
      if s.Going? {
        StepMore(p, m, a, body[n], s.regs, s.w, fuel, more);
      } else if s'.Going? {
        StepGrows(p, m, a, body[n], s'.regs, s'.w, more);
      }
    }
  }

  lemma {:induction false} BlocksMore(p: Prog, m: Machine, f: Func, a: Frame, from: Block, b: Block, regs: Regs, w: World, fuel: nat, more: nat)
    requires fuel <= more
    ensures GoesFurther(Blocks(p, m, f, a, from, b, regs, w, fuel), Blocks(p, m, f, a, from, b, regs, w, more))
    decreases fuel, 1, 0
  {
    if fuel == 0 {
      BlocksGrow(p, m, f, a, from, b, regs, w, more);
    } else if b in f.code {
      var regs1 := regs + PhiValues(a, f.code[b], from, regs);
      StepsMore(p, m, a, f.code[b], regs1, w, fuel, more);
      var s, s' := Steps(p, m, a, f.code[b], regs1, w, fuel), Steps(p, m, a, f.code[b], regs1, w, more);
      if s'.Going? && ExitOf(a, f.code[b], s'.regs).Goto? {
        var t := ExitOf(a, f.code[b], s'.regs).target;
        if s.Going? {
          BlocksMore(p, m, f, a, b, t, s.regs, s.w, fuel - 1, more - 1);
        } else {
          BlocksGrow(p, m, f, a, b, t, s'.regs, s'.w, more - 1);
        }
      }
    }
  }

  /** A call that ends with some fuel ends the same with more. */
  lemma {:induction false} InvokeMore(p: Prog, m: Machine, f: nat, args: seq<Val>, w: World, depth: nat, fuel: nat, more: nat)
    requires fuel <= more
    ensures GoesFurther(Invoke(p, m, f, args, w, depth, fuel), Invoke(p, m, f, args, w, depth, more))
    decreases fuel, 2, 0
  {
    if f in p && !p[f].IsDeclaration() {
      BlocksMore(p, m, p[f], Frame(Coerce(p[f].scalar, args), depth), 0, p[f].blocks[0], map[], Cleared(w, depth), fuel, more);
    }
  }
}
