/**
  What running one function means, with calls and arithmetic left uninterpreted.
 */
module Running {
  import opened Cfg
  import opened Ir

  datatype Event = Stored(addr: int, val: int) | Called(callee: nat, args: seq<int>)

  /** `slots` holds the local variables, by the identity of their alloca; `mem` is the rest
      of memory; `trace` is the sequence of stores to it and of calls. */
  datatype State = State(regs: map<nat, int>, slots: map<nat, int>, mem: map<int, int>, trace: seq<Event>)

  /** What the model leaves uninterpreted: the arguments of the run, the addresses of globals and
      arrays, arithmetic, address computation, the effect and result of calls, and what a phi is on an edge
      that it has no operand for. */
  datatype Machine = Machine(
    argument: nat -> int,
    global: nat -> int,
    frame: nat -> int,
    compute: (nat, seq<int>) -> int,
    gep: seq<int> -> int,
    call: (nat, seq<int>, map<int, int>) -> (map<int, int>, int),
    pure: nat -> bool,
    pureCall: (nat, seq<int>) -> int,
    undef: (nat, map<nat, int>) -> int)

  ghost function Read<K>(m: map<K, int>, k: K): int {
    if k in m then m[k] else 0
  }

  ghost function Eval(m: Machine, regs: map<nat, int>, v: Value): int {
    match v
    case ConstantInt(n) => n
    case Argument(k) => m.argument(k)
    case GlobalVariable(g) => m.global(g)
    case Result(id, _) => Read(regs, id)
  }

  ghost function EvalAll(m: Machine, regs: map<nat, int>, vs: seq<Value>): (r: seq<int>)
    ensures |r| == |vs|
    ensures forall k :: 0 <= k < |vs| ==> r[k] == Eval(m, regs, vs[k])
  {
    if vs == [] then [] else EvalAll(m, regs, vs[..|vs| - 1]) + [Eval(m, regs, vs[|vs| - 1])]
  }

  ghost function SetReg(s: State, id: nat, v: int): State {
    s.(regs := s.regs[id := v])
  }

  /** One instruction. Phis take effect on entry to the block and terminators on leaving it. */
  ghost function Step(m: Machine, i: Instr, s: State): State {
    match i.op
    case Alloca(_) => SetReg(s, i.id, m.frame(i.id))
    case Load =>
      if |i.args| != 1 then s
      else if IsLocal(i.args[0]) then
        SetReg(s, i.id, if i.args[0].Result? then Read(s.slots, i.args[0].id) else 0)
      else SetReg(s, i.id, Read(s.mem, Eval(m, s.regs, i.args[0])))
    case Store =>
      if |i.args| != 2 then s
      else
        var val := Eval(m, s.regs, i.args[0]);
        if IsLocal(i.args[1]) then
          if i.args[1].Result? then s.(slots := s.slots[i.args[1].id := val]) else s
        else
          var addr := Eval(m, s.regs, i.args[1]);
          s.(mem := s.mem[addr := val], trace := s.trace + [Stored(addr, val)])
    case Gep => SetReg(s, i.id, m.gep(EvalAll(m, s.regs, i.args)))
    case Call(f) =>
      var args := EvalAll(m, s.regs, i.args);
      if m.pure(f) then SetReg(s, i.id, m.pureCall(f, args))
      else
        var (mem, v) := m.call(f, args, s.mem);
        SetReg(s.(mem := mem, trace := s.trace + [Called(f, args)]), i.id, v)
    case Compute(op) => SetReg(s, i.id, m.compute(op, EvalAll(m, s.regs, i.args)))
    case _ => s
  }

  ghost function Steps(m: Machine, body: seq<Instr>, s: State): State {
    if body == [] then s else Step(m, body[|body| - 1], Steps(m, body[..|body| - 1], s))
  }

  ghost predicate IsOperand(i: Instr, from: Block, k: nat) {
    k < |i.args| && k < |i.labels| && i.labels[k] == from
  }

  /** The value of a phi on the edge from `from`; the printer writes `undef` when it has no operand for that. */
  ghost function PhiValue(m: Machine, i: Instr, from: Block, regs: map<nat, int>): int {
    if exists k: nat :: IsOperand(i, from, k) then
      var k: nat :| IsOperand(i, from, k);
      Eval(m, regs, i.args[k])
    else m.undef(i.id, regs)
  }

  /** The new values of the phis of a block, all read before any is written. */
  ghost function PhiValues(m: Machine, body: seq<Instr>, from: Block, regs: map<nat, int>): map<nat, int> {
    if body == [] then map[]
    else
      var i := body[|body| - 1];
      var rest := PhiValues(m, body[..|body| - 1], from, regs);
      if i.op.Phi? then rest[i.id := PhiValue(m, i, from, regs)] else rest
  }

  ghost function Enter(m: Machine, body: seq<Instr>, from: Block, s: State): State {
    s.(regs := s.regs + PhiValues(m, body, from, s.regs))
  }

  datatype Exit = Goto(target: Block) | Return(val: int) | ReturnVoid | Stuck

  ghost function Leave(m: Machine, body: seq<Instr>, s: State): Exit {
    if body == [] then Stuck
    else
      var i := body[|body| - 1];
      match i.op
      case Br => if |i.labels| == 1 then Goto(i.labels[0]) else Stuck
      case CondBr =>
        if |i.labels| == 2 && |i.args| == 1 then
          Goto(if Eval(m, s.regs, i.args[0]) != 0 then i.labels[0] else i.labels[1])
        else Stuck
      case Ret => if |i.args| == 1 then Return(Eval(m, s.regs, i.args[0])) else ReturnVoid
      case _ => Stuck
  }

  /** What can be seen of a run: the blocks it went through, memory, the trace and how it ended. */
  datatype Seen = Seen(path: seq<Block>, mem: map<int, int>, trace: seq<Event>, exit: Exit)

  /** Run at most `fuel` blocks, from block `b` entered along the edge from `from`. */
  ghost function Run(m: Machine, code: Code, from: Block, b: Block, s: State, fuel: nat): Seen
    decreases fuel
  {
    if fuel == 0 || b !in code then Seen([], s.mem, s.trace, Goto(b))
    else
      var s' := Steps(m, code[b], Enter(m, code[b], from, s));
      match Leave(m, code[b], s')
      case Goto(t) =>
        var rest := Run(m, code, b, t, s', fuel - 1);
        rest.(path := [b] + rest.path)
      case exit => Seen([b], s'.mem, s'.trace, exit)
  }

  lemma LeaveAlike(m: Machine, body1: seq<Instr>, body2: seq<Instr>, s1: State, s2: State)
    requires body1 != [] && body2 != []
    requires var i1, i2 := body1[|body1| - 1], body2[|body2| - 1];
             && i1.op == i2.op && i1.labels == i2.labels && |i1.args| == |i2.args|
             && (i1.args != [] ==> Eval(m, s1.regs, i1.args[0]) == Eval(m, s2.regs, i2.args[0]))
    ensures Leave(m, body1, s1) == Leave(m, body2, s2)
    ensures Leave(m, body1, s1).Goto? ==> Leave(m, body1, s1).target in body1[|body1| - 1].labels
  {
  }

  /** Two runs look the same if they do one block alike and look the same from there on. */
  lemma RunAlike(m: Machine, code1: Code, code2: Code, from: Block, b: Block, s1: State, s2: State, t1: State, t2: State, fuel: nat, less: nat)
    requires less + 1 == fuel && b in code1 && b in code2
    requires t1 == Steps(m, code1[b], Enter(m, code1[b], from, s1)) && t2 == Steps(m, code2[b], Enter(m, code2[b], from, s2))
    requires t1.mem == t2.mem && t1.trace == t2.trace && Leave(m, code1[b], t1) == Leave(m, code2[b], t2)
    requires var e := Leave(m, code1[b], t1); e.Goto? ==> Run(m, code1, b, e.target, t1, less) == Run(m, code2, b, e.target, t2, less)
    ensures Run(m, code1, from, b, s1, fuel) == Run(m, code2, from, b, s2, fuel)
  {
  }
}
