/**
  Running the code that an expression was lowered to does what the expression means.
 */
module Lowering {
  import opened Options
  import opened Syntax
  import opened Cfg
  import I = Ir
  import R = Running
  import opened Meaning
  import opened Generator
  import opened Emitted
  import opened Walking

  // ----- names and addresses -----

  predicate IsSlot(v: I.Value, n: nat) {
    v.Result? && v.kind.AllocaInst? && v.id < n
  }

  /** Where the code generator keeps what a name stands for. */
  predicate AddrOk(shape: Shape, addr: I.Value, n: nat) {
    match shape
    case Scalar(_) => addr.GlobalVariable? || IsSlot(addr, n)
    case Pointer(_) => IsSlot(addr, n)
    case Array(_) => addr.GlobalVariable? || IsSlot(addr, n)
    case Function(_, _, _) => !addr.Result?
  }

  ghost predicate EntryOk(types: Scopes<Shape>, addrs: Scopes<I.Value>, n: nat, k: nat, x: string) {
    k < |types| && k < |addrs| && x in types[k] && x in addrs[k] && AddrOk(types[k][x], addrs[k][x], n)
  }

  ghost predicate Apart(addrs: Scopes<I.Value>, k: nat, x: string, k': nat, x': string) {
    k < |addrs| && k' < |addrs| && x in addrs[k] && x' in addrs[k'] &&
    (addrs[k][x].Result? && addrs[k'][x'].Result? && addrs[k][x].id == addrs[k'][x'].id ==> k == k' && x == x')
  }

  /** Every name in scope has an address, and no two names share an alloca. */
  ghost predicate ScopeOk(types: Scopes<Shape>, addrs: Scopes<I.Value>, n: nat) {
    && Parallel(types, addrs)
    && (forall k: nat, x {:trigger EntryOk(types, addrs, n, k, x)} :: k < |types| && x in types[k] ==> EntryOk(types, addrs, n, k, x))
    && (forall k: nat, x, k': nat, x' {:trigger Apart(addrs, k, x, k', x')} ::
          k < |types| && x in types[k] && k' < |types| && x' in types[k'] && !types[k][x].Function? && !types[k'][x'].Function? ==>
            Apart(addrs, k, x, k', x'))
  }

  /** What the meaning says about a name and what the run has at its address. */
  ghost predicate Holds(m: R.Machine, shape: Shape, addr: I.Value, b: Binding, t: R.State) {
    match shape
    case Function(_, _, _) => b.Callable?
    case Array(_) => b.Place? && b.addr == R.Eval(m, t.regs, addr)
    case _ =>
      if addr.GlobalVariable? then shape.Scalar? && b == Place(m.global(addr.name))
      else addr.Result? && addr.kind.AllocaInst? && b.Slot? && (b.v.Some? ==> R.Read(t.slots, addr.id) == b.v.value)
  }

  ghost predicate HoldsAt(m: R.Machine, types: Scopes<Shape>, addrs: Scopes<I.Value>, env: Scopes<Binding>, t: R.State, k: nat, x: string) {
    k < |types| && k < |addrs| && k < |env| && x in types[k] && x in addrs[k] && x in env[k] && Holds(m, types[k][x], addrs[k][x], env[k][x], t)
  }

  /** The store of the meaning and the state of the run agree. */
  ghost predicate Agrees(m: R.Machine, types: Scopes<Shape>, addrs: Scopes<I.Value>, s: Store, t: R.State) {
    && s.mem == t.mem && s.trace == t.trace && Parallel(types, s.env)
    && (forall k: nat, x {:trigger HoldsAt(m, types, addrs, s.env, t, k, x)} :: k < |types| && x in types[k] ==> HoldsAt(m, types, addrs, s.env, t, k, x))
  }

  lemma Lookup(m: R.Machine, st: Gen, s: Store, t: R.State, name: string)
    requires ScopeOk(st.types, st.addrs, st.nextId) && Agrees(m, st.types, st.addrs, s, t) && ShapeFor(st.types, name).Some?
    ensures BindingOf(s, name).Some?
    ensures AddrOk(ShapeFor(st.types, name).value, AddrOf(st, name), st.nextId)
    ensures Holds(m, ShapeFor(st.types, name).value, AddrOf(st, name), BindingOf(s, name).value, t)
    ensures Level(st.types, name).Some? && Level(st.addrs, name) == Level(st.types, name) == Level(s.env, name)
  {
    SameLevel(st.types, st.addrs, name);
    SameLevel(st.types, s.env, name);
    var k := Level(st.types, name).value;
    assert EntryOk(st.types, st.addrs, st.nextId, k, name) && HoldsAt(m, st.types, st.addrs, s.env, t, k, name);
  }

  // ----- frames -----

  ghost predicate Keeps(n: nat, t: R.State, t': R.State) {
    forall id: nat {:trigger R.Read(t'.regs, id)} :: id < n ==> R.Read(t'.regs, id) == R.Read(t.regs, id)
  }

  /** Only registers numbered `n` or above have changed. */
  ghost predicate OnlyRegs(n: nat, t: R.State, t': R.State) {
    t'.mem == t.mem && t'.trace == t.trace && t'.slots == t.slots && Keeps(n, t, t')
  }

  lemma ValueKept(m: R.Machine, v: I.Value, n: nat, t: R.State, t': R.State)
    requires ValueOk(v, n) && Keeps(n, t, t')
    ensures R.Eval(m, t'.regs, v) == R.Eval(m, t.regs, v)
  {
    if v.Result? {
      assert R.Read(t'.regs, v.id) == R.Read(t.regs, v.id);
    }
  }

  lemma KeepsTrans(n: nat, n': nat, t: R.State, t': R.State, t'': R.State)
    requires Keeps(n, t, t') && Keeps(n', t', t'') && n <= n'
    ensures Keeps(n, t, t'')
  {
    forall id: nat | id < n
      ensures R.Read(t''.regs, id) == R.Read(t.regs, id)
    {
      assert R.Read(t'.regs, id) == R.Read(t.regs, id);
    }
  }

  lemma AgreesKept(m: R.Machine, types: Scopes<Shape>, addrs: Scopes<I.Value>, n: nat, s: Store, t: R.State, t': R.State)
    requires ScopeOk(types, addrs, n) && Agrees(m, types, addrs, s, t) && OnlyRegs(n, t, t')
    ensures Agrees(m, types, addrs, s, t')
  {
    forall k: nat, x | k < |types| && x in types[k]
      ensures HoldsAt(m, types, addrs, s.env, t', k, x)
    {
      assert EntryOk(types, addrs, n, k, x) && HoldsAt(m, types, addrs, s.env, t, k, x);
      if types[k][x].Array? {
        ValueKept(m, addrs[k][x], n, t, t');
      }
    }
  }

  lemma ScopeGrows(types: Scopes<Shape>, addrs: Scopes<I.Value>, n: nat, n': nat)
    requires ScopeOk(types, addrs, n) && n <= n'
    ensures ScopeOk(types, addrs, n')
  {
    forall k: nat, x | k < |types| && x in types[k]
      ensures EntryOk(types, addrs, n', k, x)
    {
      assert EntryOk(types, addrs, n, k, x);
    }
  }

  // ----- emitted instructions -----

  /** The final code contains what has been emitted. */
  ghost predicate Covers(code: I.Code, st: Gen) {
    forall b {:trigger CoversAt(code, st, b)} :: b in st.code ==> CoversAt(code, st, b)
  }

  ghost predicate CoversAt(code: I.Code, st: Gen, b: Block) {
    b in st.code && b in code && st.code[b] <= code[b]
  }

  lemma CoversLess(code: I.Code, a: Gen, b: Gen)
    requires Covers(code, b) && forall x {:trigger PrefixAt(a, b, x)} :: x in a.code ==> PrefixAt(a, b, x)
    ensures Covers(code, a)
  {
    forall x | x in a.code
      ensures CoversAt(code, a, x)
    {
      assert PrefixAt(a, b, x) && CoversAt(code, b, x);
    }
  }

  /** Where the run is when everything up to the insert point has been executed. */
  ghost function Here(st: Gen, t: R.State): Config {
    Walking.At(st.cur, |Generator.At(st.code, st.cur)|, t)
  }

  lemma EmitRight(m: R.Machine, code: I.Code, st: Gen, op: I.Op, args: seq<I.Value>, t: R.State)
    requires st.cur in st.code && Covers(code, st.Emit(op, args)) && !op.Br? && !op.CondBr? && !op.Ret?
    ensures Reach(m, code, Here(st, t), Here(st.Emit(op, args), R.Step(m, I.Instr(st.nextId, op, args, []), t)))
  {
    var r := st.Emit(op, args);
    assert CoversAt(code, r, st.cur);
    assert code[st.cur][|st.code[st.cur]|] == I.Instr(st.nextId, op, args, []);
    ReachNext(m, code, Here(st, t));
  }

  lemma EmitCovers(code: I.Code, st: Gen, op: I.Op, args: seq<I.Value>)
    requires st.cur in st.code && Covers(code, st.Emit(op, args))
    ensures Covers(code, st)
  {
    var r := st.Emit(op, args);
    forall x | x in st.code
      ensures CoversAt(code, st, x)
    {
      assert CoversAt(code, r, x);
      assert st.code[x] <= r.code[x];
    }
  }

  lemma RetRight(m: R.Machine, code: I.Code, st: Gen, args: seq<I.Value>, t: R.State)
    requires st.cur in st.code && Covers(code, st.Ret(args)) && |args| <= 1
    ensures Reach(m, code, Here(st, t), Done(if args == [] then R.ReturnVoid else R.Return(R.Eval(m, t.regs, args[0])), t.mem, t.trace))
  {
    var r := st.Ret(args);
    assert CoversAt(code, r, st.cur);
    assert code[st.cur][|st.code[st.cur]|] == I.Instr(st.nextId, I.Ret, args, []);
    ReachNext(m, code, Here(st, t));
  }

  lemma BrRight(m: R.Machine, code: I.Code, st: Gen, to: Block, t: R.State)
    requires st.cur in st.code && Covers(code, st.Br(to))
    ensures Reach(m, code, Here(st, t), Walking.At(to, 0, t))
  {
    var r := st.Br(to);
    assert CoversAt(code, r, st.cur);
    assert code[st.cur][|st.code[st.cur]|] == I.Instr(st.nextId, I.Br, [], [to]);
    ReachNext(m, code, Here(st, t));
  }

  lemma CondBrRight(m: R.Machine, code: I.Code, st: Gen, c: I.Value, yes: Block, no: Block, t: R.State)
    requires st.cur in st.code && Covers(code, st.CondBr(c, yes, no))
    ensures Reach(m, code, Here(st, t), Walking.At(if R.Eval(m, t.regs, c) != 0 then yes else no, 0, t))
  {
    var r := st.CondBr(c, yes, no);
    assert CoversAt(code, r, st.cur);
    assert code[st.cur][|st.code[st.cur]|] == I.Instr(st.nextId, I.CondBr, [c], [yes, no]);
    ReachNext(m, code, Here(st, t));
  }

  // ----- values -----

  ghost predicate Valued(m: R.Machine, code: I.Code, st: Gen, r: Out, t: R.State, t': R.State, x: int) {
    Reach(m, code, Here(st, t), Here(r.st, t')) && R.Eval(m, t'.regs, r.v) == x && OnlyRegs(st.nextId, t, t')
  }

  lemma ValuedThen(m: R.Machine, code: I.Code, a: Gen, b: Gen, r: Out, t: R.State, t': R.State, t'': R.State, x: int)
    requires Reach(m, code, Here(a, t), Here(b, t')) && OnlyRegs(a.nextId, t, t') && Valued(m, code, b, r, t', t'', x) && a.nextId <= b.nextId
    ensures Valued(m, code, a, r, t, t'', x)
  {
    ReachTrans(m, code, Here(a, t), Here(b, t'), Here(r.st, t''));
    KeepsTrans(a.nextId, b.nextId, t, t', t'');
  }

  lemma Eval1(m: R.Machine, regs: map<nat, int>, a: I.Value)
    ensures R.EvalAll(m, regs, [a]) == [R.Eval(m, regs, a)]
  {
  }

  lemma Eval2(m: R.Machine, regs: map<nat, int>, a: I.Value, b: I.Value)
    ensures R.EvalAll(m, regs, [a, b]) == [R.Eval(m, regs, a), R.Eval(m, regs, b)]
  {
  }

  lemma Eval3(m: R.Machine, regs: map<nat, int>, a: I.Value, b: I.Value, c: I.Value)
    ensures R.EvalAll(m, regs, [a, b, c]) == [R.Eval(m, regs, a), R.Eval(m, regs, b), R.Eval(m, regs, c)]
  {
  }

  lemma ComputingRight(m: R.Machine, code: I.Code, st: Gen, op: nat, args: seq<I.Value>, t: R.State) returns (t': R.State)
    requires st.cur in st.code && Covers(code, Computing(st, op, args).st)
    ensures Valued(m, code, st, Computing(st, op, args), t, t', m.compute(op, R.EvalAll(m, t.regs, args)))
  {
    EmitRight(m, code, st, I.Compute(op), args, t);
    t' := R.Step(m, I.Instr(st.nextId, I.Compute(op), args, []), t);
  }

  lemma ConvertingRight(m: R.Machine, code: I.Code, st: Gen, v: I.Value, from: Ty, to: Ty, t: R.State) returns (t': R.State)
    requires st.cur in st.code && Covers(code, Converting(st, v, from, to).st)
    ensures Valued(m, code, st, Converting(st, v, from, to), t, t', Convert(m, R.Eval(m, t.regs, v), from, to))
  {
    if from == to {
      ReachRefl(m, code, Here(st, t));
      t' := t;
    } else {
      Eval1(m, t.regs, v);
      t' := ComputingRight(m, code, st, if from.IntT? then SITOFP else FPTOSI, [v], t);
    }
  }

  // ----- expressions -----

  /** The state of the builder, the store and the run before an expression or statement. */
  ghost predicate Setting(c: Context, st: Gen, s: Store, t: R.State) {
    Ready(st) && ScopeOk(st.types, st.addrs, st.nextId) && Agrees(c.m, st.types, st.addrs, s, t) && st.ret == c.ret
  }

  /** The run has followed the evaluation: to the end of the emitted code, with the value where the code
      generator says it is, or out of the function. */
  ghost predicate ExprDone(c: Context, code: I.Code, st: Gen, r: Out, t: R.State, res: Value, t': R.State) {
    match res
    case Val(s1, x) =>
      && Reach(c.m, code, Here(st, t), Here(r.st, t')) && Agrees(c.m, st.types, st.addrs, s1, t')
      && R.Eval(c.m, t'.regs, r.v) == x && Keeps(st.nextId, t, t')
    case Left(mem, trace) => Reach(c.m, code, Here(st, t), Done(DefaultExit(c.ret), mem, trace))
    case Undefined => true
  }

  lemma DoneThen(c: Context, code: I.Code, a: Gen, b: Gen, r: Out, t: R.State, t1: R.State, res: Value, t2: R.State)
    requires Reach(c.m, code, Here(a, t), Here(b, t1)) && Keeps(a.nextId, t, t1) && a.nextId <= b.nextId
    requires ExprDone(c, code, b, r, t1, res, t2) && a.types == b.types && a.addrs == b.addrs
    ensures ExprDone(c, code, a, r, t, res, t2)
  {
    match res
    case Val(s1, x) =>
      ReachTrans(c.m, code, Here(a, t), Here(b, t1), Here(r.st, t2));
      KeepsTrans(a.nextId, b.nextId, t, t1, t2);
    case Left(mem, trace) =>
      ReachTrans(c.m, code, Here(a, t), Here(b, t1), Done(DefaultExit(c.ret), mem, trace));
    case Undefined =>
  }

  /** A computed value leaves the store alone. */
  lemma ValuedDone(c: Context, code: I.Code, st: Gen, r: Out, s: Store, t: R.State, t': R.State, x: int)
    requires Setting(c, st, s, t) && Valued(c.m, code, st, r, t, t', x)
    ensures ExprDone(c, code, st, r, t, Val(s, x), t')
  {
    AgreesKept(c.m, st.types, st.addrs, st.nextId, s, t, t');
  }

  lemma VarRight(c: Context, code: I.Code, st: Gen, name: string, s: Store, t: R.State) returns (t': R.State)
    requires Setting(c, st, s, t) && TypeOf(st.types, Var(name, None)).Some? && Covers(code, GenName(st, name).st)
    ensures ExprDone(c, code, st, GenName(st, name), t, EvalName(c, st.types, name, s), t')
  {
    Lookup(c.m, st, s, t, name);
    var r := GenName(st, name);
    var addr := AddrOf(st, name);
    if ShapeFor(st.types, name).value.Array? {
      t' := GepRight(c.m, code, st, [addr, I.ConstantInt(0), I.ConstantInt(0)], t);
      Eval3(c.m, t.regs, addr, I.ConstantInt(0), I.ConstantInt(0));
      ValuedDone(c, code, st, r, s, t, t', c.m.gep([R.Eval(c.m, t.regs, addr), 0, 0]));
    } else {
      t' := LoadRight(c.m, code, st, addr, t);
      ValuedDone(c, code, st, r, s, t, t', Loaded(c.m, addr, t));
    }
  }

  ghost function Loaded(m: R.Machine, addr: I.Value, t: R.State): int {
    if I.IsLocal(addr) then if addr.Result? then R.Read(t.slots, addr.id) else 0
    else R.Read(t.mem, R.Eval(m, t.regs, addr))
  }

  lemma LoadRight(m: R.Machine, code: I.Code, st: Gen, addr: I.Value, t: R.State) returns (t': R.State)
    requires st.cur in st.code && Covers(code, st.Emit(I.Load, [addr]))
    ensures Valued(m, code, st, Out(st.Emit(I.Load, [addr]), st.Next(I.Load)), t, t', Loaded(m, addr, t))
  {
    EmitRight(m, code, st, I.Load, [addr], t);
    t' := R.Step(m, I.Instr(st.nextId, I.Load, [addr], []), t);
  }

  lemma GepRight(m: R.Machine, code: I.Code, st: Gen, args: seq<I.Value>, t: R.State) returns (t': R.State)
    requires st.cur in st.code && Covers(code, st.Emit(I.Gep, args))
    ensures Valued(m, code, st, Out(st.Emit(I.Gep, args), st.Next(I.Gep)), t, t', m.gep(R.EvalAll(m, t.regs, args)))
  {
    EmitRight(m, code, st, I.Gep, args, t);
    t' := R.Step(m, I.Instr(st.nextId, I.Gep, args, []), t);
  }

  /** The index is an int that is not negative, or the function is left. */
  ghost predicate CheckDone(c: Context, code: I.Code, st: Gen, r: Out, s: Store, t: R.State, i: int, t': R.State) {
    if Op2(c.m, OpCode(Lt, IntT), i, 0) != 0 then
      var out := Calling(c.m, NEG_IDX_EXCEPT, [], s);
      out.Val? && Reach(c.m, code, Here(st, t), Done(DefaultExit(c.ret), out.s.mem, out.s.trace))
    else
      Valued(c.m, code, st, r, t, t', i)
  }

  lemma ExceptRight(c: Context, code: I.Code, d: Gen, except: Block, s: Store, t: R.State)
    requires except in d.code && d.code[except] == [] && d.ret == c.ret && s.mem == t.mem && s.trace == t.trace
    requires Covers(code, d.Insert(except).Emit(I.Call(NEG_IDX_EXCEPT), []).DefaultRet())
    ensures var out := Calling(c.m, NEG_IDX_EXCEPT, [], s);
            out.Val? && Reach(c.m, code, Walking.At(except, 0, t), Done(DefaultExit(c.ret), out.s.mem, out.s.trace))
  {
    var d1 := d.Insert(except);
    var d2 := d1.Emit(I.Call(NEG_IDX_EXCEPT), []);
    var args := if d.ret.VoidT? then [] else [I.ConstantInt(0)];
    EmitCovers(code, d2, I.Ret, args);
    EmitRight(c.m, code, d1, I.Call(NEG_IDX_EXCEPT), [], t);
    var t1 := R.Step(c.m, I.Instr(d1.nextId, I.Call(NEG_IDX_EXCEPT), [], []), t);
    assert R.EvalAll(c.m, t.regs, []) == [];
    RetRight(c.m, code, d2, args, t1);
    ReachTrans(c.m, code, Here(d1, t), Here(d2, t1), Done(DefaultExit(c.ret), t1.mem, t1.trace));
  }

  lemma CheckRight(c: Context, code: I.Code, st: Gen, v: I.Value, ty: Ty, s: Store, t: R.State) returns (t': R.State)
    requires Setting(c, st, s, t) && ValueOk(v, st.nextId) && Covers(code, Checked(st, v, ty).st)
    ensures CheckDone(c, code, st, Checked(st, v, ty), s, t, Convert(c.m, R.Eval(c.m, t.regs, v), ty, IntT), t')
  {
    var except, cont := st.Fresh(), st.NewBlock().Fresh();
    var a := st.NewBlock().NewBlock();
    TwoFresh(st);
    CheckForks(st, v, ty);
    var j := Converting(a, v, ty, IntT);
    ConvertingGrows(a, v, ty, IntT);
    var neg := Computing(j.st, OpCode(Lt, IntT), [j.v, I.ConstantInt(0)]);
    ComputingGrows(j.st, OpCode(Lt, IntT), [j.v, I.ConstantInt(0)]);
    var d := neg.st.CondBr(neg.v, except, cont);
    assert ForkedBlock(d, except, st.cur, except, cont) && ForkedBlock(d, cont, st.cur, except, cont);
    ExceptOk(d, except);
    CheckCovers(code, j.st, neg, d, d.Insert(except).Emit(I.Call(NEG_IDX_EXCEPT), []).DefaultRet(), except, cont);
    assert SameBody(st, a, st.cur);
    assert Here(a, t) == Here(st, t);
    t' := TestIndex(c.m, code, a, v, ty, t);
    ChooseRight(c, code, st, neg, j.v, except, cont, s, t, t', Convert(c.m, R.Eval(c.m, t.regs, v), ty, IntT));
  }

  /** The branch on the comparison. */
  lemma ChooseRight(c: Context, code: I.Code, st: Gen, neg: Out, v: I.Value, except: Block, cont: Block, s: Store, t: R.State, t': R.State, i: int)
    requires s.mem == t.mem && s.trace == t.trace && neg.st.cur in neg.st.code && neg.st.ret == c.ret
    requires Reach(c.m, code, Here(st, t), Here(neg.st, t')) && OnlyRegs(st.nextId, t, t')
    requires R.Eval(c.m, t'.regs, neg.v) == Op2(c.m, OpCode(Lt, IntT), i, 0) && R.Eval(c.m, t'.regs, v) == i
    requires var d := neg.st.CondBr(neg.v, except, cont);
             && GraphOk(d) && except in d.code && cont in d.code && except != cont && d.code[except] == [] && d.code[cont] == [] && Covers(code, d)
             && Covers(code, d.Insert(except).Emit(I.Call(NEG_IDX_EXCEPT), []).DefaultRet())
    ensures CheckDone(c, code, st, Out(neg.st.CondBr(neg.v, except, cont).Insert(except).Emit(I.Call(NEG_IDX_EXCEPT), []).DefaultRet().Insert(cont), v), s, t, i, t')
  {
    var d := neg.st.CondBr(neg.v, except, cont);
    var e := d.Insert(except).Emit(I.Call(NEG_IDX_EXCEPT), []).DefaultRet();
    CondBrRight(c.m, code, neg.st, neg.v, except, cont, t');
    if Op2(c.m, OpCode(Lt, IntT), i, 0) != 0 {
      ExceptRight(c, code, d, except, s, t');
      var out := Calling(c.m, NEG_IDX_EXCEPT, [], s);
      ReachTrans(c.m, code, Here(st, t), Here(neg.st, t'), Walking.At(except, 0, t'));
      ReachTrans(c.m, code, Here(st, t), Walking.At(except, 0, t'), Done(DefaultExit(c.ret), out.s.mem, out.s.trace));
    } else {
      assert e.code[cont] == [];
      assert Here(e.Insert(cont), t') == Walking.At(cont, 0, t');
      ReachTrans(c.m, code, Here(st, t), Here(neg.st, t'), Walking.At(cont, 0, t'));
    }
  }

  /** The comparison of an index with zero. */
  lemma TestIndex(m: R.Machine, code: I.Code, a: Gen, v: I.Value, ty: Ty, t: R.State) returns (t': R.State)
    requires Ready(a) && ValueOk(v, a.nextId)
    requires var j := Converting(a, v, ty, IntT); Covers(code, j.st) && Covers(code, Computing(j.st, OpCode(Lt, IntT), [j.v, I.ConstantInt(0)]).st)
    ensures var j := Converting(a, v, ty, IntT);
            var i := Convert(m, R.Eval(m, t.regs, v), ty, IntT);
            && Valued(m, code, a, Computing(j.st, OpCode(Lt, IntT), [j.v, I.ConstantInt(0)]), t, t', Op2(m, OpCode(Lt, IntT), i, 0))
            && R.Eval(m, t'.regs, j.v) == i
  {
    var j := Converting(a, v, ty, IntT);
    ConvertingGrows(a, v, ty, IntT);
    var neg := Computing(j.st, OpCode(Lt, IntT), [j.v, I.ConstantInt(0)]);
    var t1 := ConvertingRight(m, code, a, v, ty, IntT, t);
    Eval2(m, t1.regs, j.v, I.ConstantInt(0));
    t' := ComputingRight(m, code, j.st, OpCode(Lt, IntT), [j.v, I.ConstantInt(0)], t1);
    ValuedThen(m, code, a, j.st, neg, t, t1, t', R.Eval(m, t'.regs, neg.v));
    ValueKept(m, j.v, j.st.nextId, t1, t');
  }

  lemma CheckCovers(code: I.Code, j: Gen, neg: Out, d: Gen, e: Gen, except: Block, cont: Block)
    requires Ready(j) && Grows(j, neg.st) && Ready(neg.st) && except in neg.st.code && cont in neg.st.code && except != cont
    requires d == neg.st.CondBr(neg.v, except, cont) && Step(d, e, {except}, {}) && Covers(code, e.Insert(cont))
    ensures Covers(code, j) && Covers(code, neg.st) && Covers(code, d) && Covers(code, e)
  {
    CondBrOk(neg.st, neg.v, except, cont);
    assert Covers(code, e) by {
      forall x | x in e.code
        ensures CoversAt(code, e, x)
      {
        assert CoversAt(code, e.Insert(cont), x);
      }
    }
    CoversLess(code, d, e);
    CoversLess(code, neg.st, d);
    CoversLess(code, j, neg.st);
  }

  // ----- elements -----

  /** The address that `GenAddress` computes. */
  ghost function ElementAddr(m: R.Machine, b: Binding, shape: Shape, i: int): Option<int> {
    match (shape, b)
    case (Array(_), Place(addr)) => Some(m.gep([addr, 0, i]))
    case (Pointer(_), Slot(Some(p))) => Some(m.gep([p, i]))
    case _ => None
  }

  lemma PointerRight(m: R.Machine, code: I.Code, st: Gen, addr: I.Value, v: I.Value, t: R.State) returns (t': R.State)
    requires st.cur in st.code && ValueOk(v, st.nextId)
    requires Covers(code, st.Emit(I.Load, [addr]).Emit(I.Gep, [st.Next(I.Load), v]))
    ensures var p := st.Emit(I.Load, [addr]);
            Valued(m, code, st, Out(p.Emit(I.Gep, [st.Next(I.Load), v]), p.Next(I.Gep)), t, t', m.gep([Loaded(m, addr, t), R.Eval(m, t.regs, v)]))
  {
    var p := st.Emit(I.Load, [addr]);
    EmitCovers(code, p, I.Gep, [st.Next(I.Load), v]);
    var t1 := LoadRight(m, code, st, addr, t);
    t' := GepRight(m, code, p, [st.Next(I.Load), v], t1);
    Eval2(m, t1.regs, st.Next(I.Load), v);
    ValueKept(m, v, st.nextId, t, t1);
    ValuedThen(m, code, st, p, Out(p.Emit(I.Gep, [st.Next(I.Load), v]), p.Next(I.Gep)), t, t1, t', R.Eval(m, t'.regs, p.Next(I.Gep)));
  }

  lemma AddressRight(c: Context, code: I.Code, st: Gen, name: string, v: I.Value, s: Store, t: R.State) returns (t': R.State)
    requires Setting(c, st, s, t) && ElementTy(st.types, name).Some? && ValueOk(v, st.nextId) && Covers(code, GenAddress(st, name, v).st)
    ensures BindingOf(s, name).Some?
    ensures var a := ElementAddr(c.m, BindingOf(s, name).value, ShapeFor(st.types, name).value, R.Eval(c.m, t.regs, v));
            a.Some? ==> Valued(c.m, code, st, GenAddress(st, name, v), t, t', a.value)
  {
    Lookup(c.m, st, s, t, name);
    var addr := AddrOf(st, name);
    if ShapeFor(st.types, name).value.Pointer? {
      t' := PointerRight(c.m, code, st, addr, v, t);
    } else {
      t' := GepRight(c.m, code, st, [addr, I.ConstantInt(0), v], t);
      Eval3(c.m, t.regs, addr, I.ConstantInt(0), v);
    }
  }

  // ----- stores -----

  /** A store to a local variable, seen by all names in scope. */
  lemma SlotStored(m: R.Machine, st: Gen, s: Store, t: R.State, name: string, x: int)
    requires ScopeOk(st.types, st.addrs, st.nextId) && Agrees(m, st.types, st.addrs, s, t)
    requires ShapeFor(st.types, name).Some? && ShapeFor(st.types, name).value.Scalar? && AddrOf(st, name).Result?
    ensures Agrees(m, st.types, st.addrs, SetSlot(s, name, x), t.(slots := t.slots[AddrOf(st, name).id := x]))
  {
    Lookup(m, st, s, t, name);
    var l := Level(st.types, name).value;
    var s', t' := SetSlot(s, name, x), t.(slots := t.slots[AddrOf(st, name).id := x]);
    forall k: nat, y | k < |st.types| && y in st.types[k]
      ensures HoldsAt(m, st.types, st.addrs, s'.env, t', k, y)
    {
      assert HoldsAt(m, st.types, st.addrs, s.env, t, k, y);
      assert !st.types[k][y].Function? ==> Apart(st.addrs, k, y, l, name);
    }
  }

  lemma MemoryStored(m: R.Machine, st: Gen, s: Store, t: R.State, addr: int, x: int)
    requires Agrees(m, st.types, st.addrs, s, t)
    ensures Agrees(m, st.types, st.addrs, Write(s, addr, x), t.(mem := t.mem[addr := x], trace := t.trace + [R.Stored(addr, x)]))
  {
    var s', t' := Write(s, addr, x), t.(mem := t.mem[addr := x], trace := t.trace + [R.Stored(addr, x)]);
    forall k: nat, y | k < |st.types| && y in st.types[k]
      ensures HoldsAt(m, st.types, st.addrs, s'.env, t', k, y)
    {
      assert HoldsAt(m, st.types, st.addrs, s.env, t, k, y);
    }
  }

  lemma StoreCovers(code: I.Code, st: Gen, v: I.Value, from: Ty, addr: I.Value, to: Ty)
    requires st.cur in st.code && Covers(code, GenStore(Out(st, v), from, addr, to).st)
    ensures Covers(code, Converting(st, v, from, to).st)
  {
    var w := Converting(st, v, from, to);
    EmitCovers(code, w.st, I.Store, [w.v, addr]);
  }

  /** Conversion and store to a variable. */
  lemma AssignRight(c: Context, code: I.Code, st: Gen, v: I.Value, from: Ty, name: string, to: Ty, s: Store, t: R.State) returns (t': R.State)
    requires Setting(c, st, s, t) && ValueOk(v, st.nextId) && ShapeFor(st.types, name) == Some(Scalar(to))
    requires Covers(code, GenStore(Out(st, v), from, AddrOf(st, name), to).st)
    ensures ExprDone(c, code, st, GenStore(Out(st, v), from, AddrOf(st, name), to), t,
                     SetVar(s, name, Convert(c.m, R.Eval(c.m, t.regs, v), from, to)), t')
  {
    Lookup(c.m, st, s, t, name);
    var addr := AddrOf(st, name);
    StoreCovers(code, st, v, from, addr, to);
    var w := Converting(st, v, from, to);
    ConvertingGrows(st, v, from, to);
    var t1 := ConvertingRight(c.m, code, st, v, from, to, t);
    AgreesKept(c.m, st.types, st.addrs, st.nextId, s, t, t1);
    EmitRight(c.m, code, w.st, I.Store, [w.v, addr], t1);
    t' := R.Step(c.m, I.Instr(w.st.nextId, I.Store, [w.v, addr], []), t1);
    var x := R.Eval(c.m, t1.regs, w.v);
    if addr.Result? {
      SlotStored(c.m, st, s, t1, name, x);
    } else {
      MemoryStored(c.m, st, s, t1, c.m.global(addr.name), x);
    }
    ReachTrans(c.m, code, Here(st, t), Here(w.st, t1), Here(w.st.Emit(I.Store, [w.v, addr]), t'));
  }

  /** Conversion and store to an element. */
  lemma AssignAtRight(c: Context, code: I.Code, st: Gen, v: I.Value, from: Ty, a: I.Value, to: Ty, s: Store, t: R.State) returns (t': R.State)
    requires Setting(c, st, s, t) && ValueOk(v, st.nextId) && ValueOk(a, st.nextId) && a.Result? && a.kind.GetElementPtrInst?
    requires Covers(code, GenStore(Out(st, v), from, a, to).st)
    ensures var x := Convert(c.m, R.Eval(c.m, t.regs, v), from, to);
            ExprDone(c, code, st, GenStore(Out(st, v), from, a, to), t, Val(Write(s, R.Eval(c.m, t.regs, a), x), x), t')
  {
    StoreCovers(code, st, v, from, a, to);
    var w := Converting(st, v, from, to);
    ConvertingGrows(st, v, from, to);
    var t1 := ConvertingRight(c.m, code, st, v, from, to, t);
    AgreesKept(c.m, st.types, st.addrs, st.nextId, s, t, t1);
    ValueKept(c.m, a, st.nextId, t, t1);
    EmitRight(c.m, code, w.st, I.Store, [w.v, a], t1);
    t' := R.Step(c.m, I.Instr(w.st.nextId, I.Store, [w.v, a], []), t1);
    MemoryStored(c.m, st, s, t1, R.Eval(c.m, t1.regs, a), R.Eval(c.m, t1.regs, w.v));
    ReachTrans(c.m, code, Here(st, t), Here(w.st, t1), Here(w.st.Emit(I.Store, [w.v, a]), t'));
  }
}
