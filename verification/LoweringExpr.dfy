/**
  Lowering expressions is correct, by induction on the expression.
 */
module LoweringExpr {
  import opened Options
  import opened Syntax
  import opened Cfg
  import I = Ir
  import R = Running
  import opened Meaning
  import opened Generator
  import opened Emitted
  import opened Walking
  import opened Lowering

  lemma GrowsCovers(code: I.Code, a: Gen, b: Gen)
    requires Grows(a, b) && Covers(code, b)
    ensures Covers(code, a)
  {
    CoversLess(code, a, b);
  }

  lemma NextSetting(c: Context, a: Gen, b: Gen, s: Store, t: R.State)
    requires Ready(b) && ScopeOk(a.types, a.addrs, a.nextId) && Agrees(c.m, a.types, a.addrs, s, t) && a.ret == c.ret
    requires SameScope(a, b) && a.nextId <= b.nextId
    ensures Setting(c, b, s, t)
  {
    ScopeGrows(a.types, a.addrs, a.nextId, b.nextId);
  }

  lemma BinaryRight(m: R.Machine, code: I.Code, st: Gen, op: BinOp, l: I.Value, tl: Ty, r: I.Value, tr: Ty, t: R.State) returns (t': R.State)
    requires Ready(st) && ValueOk(l, st.nextId) && ValueOk(r, st.nextId) && Covers(code, GenBinary(st, op, l, tl, r, tr).st)
    ensures Valued(m, code, st, GenBinary(st, op, l, tl, r, tr), t, t', Computed(m, op, R.Eval(m, t.regs, l), tl, R.Eval(m, t.regs, r), tr))
  {
    var ty := Joined(tl, tr);
    var x := Converting(st, l, tl, ty);
    var y := Converting(x.st, r, tr, ty);
    var z := Computing(y.st, OpCode(op, ty), [x.v, y.v]);
    BinaryCovers(code, st, op, l, tl, r, tr);
    var t3 := OperandsRight(m, code, st, OpCode(op, ty), l, tl, r, tr, ty, t);
    t' := t3;
    if IsCompare(op) {
      t' := WidenedRight(m, code, st, z, t, t3, R.Eval(m, t3.regs, z.v));
    }
  }

  lemma WidenedRight(m: R.Machine, code: I.Code, st: Gen, z: Out, t: R.State, t1: R.State, x: int) returns (t': R.State)
    requires Valued(m, code, st, z, t, t1, x) && z.st.cur in z.st.code && st.nextId <= z.st.nextId && Covers(code, Computing(z.st, ZEXT, [z.v]).st)
    ensures Valued(m, code, st, Computing(z.st, ZEXT, [z.v]), t, t', Op1(m, ZEXT, x))
  {
    Eval1(m, t1.regs, z.v);
    t' := ComputingRight(m, code, z.st, ZEXT, [z.v], t1);
    ValuedThen(m, code, st, z.st, Computing(z.st, ZEXT, [z.v]), t, t1, t', Op1(m, ZEXT, x));
  }

  lemma BinaryCovers(code: I.Code, st: Gen, op: BinOp, l: I.Value, tl: Ty, r: I.Value, tr: Ty)
    requires Ready(st) && ValueOk(l, st.nextId) && ValueOk(r, st.nextId) && Covers(code, GenBinary(st, op, l, tl, r, tr).st)
    ensures var ty := Joined(tl, tr); var x := Converting(st, l, tl, ty); var y := Converting(x.st, r, tr, ty);
            var z := Computing(y.st, OpCode(op, ty), [x.v, y.v]);
            && Covers(code, x.st) && Covers(code, y.st) && Covers(code, z.st) && Ready(z.st) && st.nextId <= z.st.nextId
            && z.st.cur in z.st.code && (IsCompare(op) ==> Covers(code, Computing(z.st, ZEXT, [z.v]).st))
  {
    var ty := Joined(tl, tr);
    var x := Converting(st, l, tl, ty);
    var y := Converting(x.st, r, tr, ty);
    var z := Computing(y.st, OpCode(op, ty), [x.v, y.v]);
    ConvertingGrows(st, l, tl, ty);
    ConvertingGrows(x.st, r, tr, ty);
    ComputingGrows(y.st, OpCode(op, ty), [x.v, y.v]);
    if IsCompare(op) {
      EmitCovers(code, z.st, I.Compute(ZEXT), [z.v]);
    }
    GrowsCovers(code, y.st, z.st);
    GrowsCovers(code, x.st, y.st);
  }

  lemma OperandsRight(m: R.Machine, code: I.Code, st: Gen, op: nat, l: I.Value, tl: Ty, r: I.Value, tr: Ty, ty: Ty, t: R.State) returns (t': R.State)
    requires Ready(st) && ValueOk(l, st.nextId) && ValueOk(r, st.nextId)
    requires var x := Converting(st, l, tl, ty); var y := Converting(x.st, r, tr, ty);
             Covers(code, x.st) && Covers(code, y.st) && Covers(code, Computing(y.st, op, [x.v, y.v]).st)
    ensures var x := Converting(st, l, tl, ty); var y := Converting(x.st, r, tr, ty);
            Valued(m, code, st, Computing(y.st, op, [x.v, y.v]), t, t',
                   Op2(m, op, Convert(m, R.Eval(m, t.regs, l), tl, ty), Convert(m, R.Eval(m, t.regs, r), tr, ty)))
  {
    var x := Converting(st, l, tl, ty);
    var y := Converting(x.st, r, tr, ty);
    ConvertingGrows(st, l, tl, ty);
    ConvertingGrows(x.st, r, tr, ty);
    var t1 := ConvertingRight(m, code, st, l, tl, ty, t);
    ValueKept(m, r, st.nextId, t, t1);
    var t2 := ConvertingRight(m, code, x.st, r, tr, ty, t1);
    ValueKept(m, x.v, x.st.nextId, t1, t2);
    ValuedThen(m, code, st, x.st, y, t, t1, t2, R.Eval(m, t2.regs, y.v));
    Eval2(m, t2.regs, x.v, y.v);
    t' := ComputingRight(m, code, y.st, op, [x.v, y.v], t2);
    ValuedThen(m, code, st, y.st, Computing(y.st, op, [x.v, y.v]), t, t2, t', R.Eval(m, t'.regs, Computing(y.st, op, [x.v, y.v]).v));
  }

  /** The call of a function with evaluated arguments. */
  lemma CallingRight(c: Context, code: I.Code, st: Gen, f: nat, vs: seq<I.Value>, s: Store, t: R.State) returns (t': R.State)
    requires Setting(c, st, s, t) && Covers(code, st.Emit(I.Call(f), vs))
    ensures ExprDone(c, code, st, Out(st.Emit(I.Call(f), vs), st.Next(I.Call(f))), t, Calling(c.m, f, R.EvalAll(c.m, t.regs, vs), s), t')
  {
    EmitRight(c.m, code, st, I.Call(f), vs, t);
    t' := R.Step(c.m, I.Instr(st.nextId, I.Call(f), vs, []), t);
    var out := Calling(c.m, f, R.EvalAll(c.m, t.regs, vs), s);
    CalledAgrees(c.m, st, s, t, out.s, t');
  }

  /** Calls change memory and the trace, and no local variable. */
  lemma CalledAgrees(m: R.Machine, st: Gen, s: Store, t: R.State, s': Store, t': R.State)
    requires ScopeOk(st.types, st.addrs, st.nextId) && Agrees(m, st.types, st.addrs, s, t)
    requires s'.env == s.env && t'.slots == t.slots && Keeps(st.nextId, t, t') && s'.mem == t'.mem && s'.trace == t'.trace
    ensures Agrees(m, st.types, st.addrs, s', t')
  {
    var quiet := t'.(mem := t.mem, trace := t.trace);
    AgreesKept(m, st.types, st.addrs, st.nextId, s, t, quiet);
    forall k: nat, x | k < |st.types| && x in st.types[k]
      ensures HoldsAt(m, st.types, st.addrs, s'.env, t', k, x)
    {
      assert HoldsAt(m, st.types, st.addrs, s.env, quiet, k, x);
    }
  }

  lemma {:induction false} ExprRight(c: Context, code: I.Code, st: Gen, e: Expr, s: Store, t: R.State) returns (t': R.State)
    requires Setting(c, st, s, t) && TypeOf(st.types, e).Some? && Covers(code, GenExpr(st, e).st)
    ensures ExprDone(c, code, st, GenExpr(st, e), t, Eval(c, st.types, e, s), t')
    decreases e, 1
  {
    match e
    case Num(_, n) =>
      ReachRefl(c.m, code, Here(st, t));
      t' := t;
    case Var(name, None) => t' := VarRight(c, code, st, name, s, t);
    case Var(name, Some(index)) => t' := ReadRight(c, code, st, name, index, s, t);
    case Assign(name, None, value) => t' := SetRight(c, code, st, name, value, s, t);
    case Assign(name, Some(index), value) => t' := SetAtRight(c, code, st, name, index, value, s, t);
    case Binary(op, l, r) => t' := BothRight(c, code, st, op, l, r, s, t);
    case Call(name, args) => t' := CallRight(c, code, st, name, args, s, t);
  }

  lemma {:induction false} ReadRight(c: Context, code: I.Code, st: Gen, name: string, index: Expr, s: Store, t: R.State) returns (t': R.State)
    requires Setting(c, st, s, t) && IsNumber(TypeOf(st.types, index)) && ElementTy(st.types, name).Some? && Covers(code, GenRead(st, name, index).st)
    ensures ExprDone(c, code, st, GenRead(st, name, index), t, Reading(Element(c, st.types, name, index, s)), t')
    decreases index, 4
  {
    var a := GenElement(st, name, index);
    ElementGrows(st, name, index);
    EmitCovers(code, a.st, I.Load, [a.v]);
    var t1 := ElementRight(c, code, st, name, index, s, t);
    t' := ElementLoaded(c, code, st, a, Element(c, st.types, name, index, s), t, t1);
  }

  lemma ElementLoaded(c: Context, code: I.Code, st: Gen, a: Out, res: Value, t: R.State, t1: R.State) returns (t': R.State)
    requires ExprDone(c, code, st, a, t, res, t1) && ScopeOk(st.types, st.addrs, st.nextId) && st.ret == c.ret && SameScope(st, a.st)
    requires Ready(a.st) && st.nextId <= a.st.nextId && a.v.Result? && a.v.kind.GetElementPtrInst? && Covers(code, GenLoad(a.st, a.v).st)
    ensures ExprDone(c, code, st, GenLoad(a.st, a.v), t, Reading(res), t')
  {
    t' := t1;
    if res.Val? {
      NextSetting(c, st, a.st, res.s, t1);
      t' := LoadRight(c.m, code, a.st, a.v, t1);
      var x := Loaded(c.m, a.v, t1);
      ValuedDone(c, code, a.st, GenLoad(a.st, a.v), res.s, t1, t', x);
      DoneThen(c, code, st, a.st, GenLoad(a.st, a.v), t, t1, Val(res.s, x), t');
    }
  }

  lemma {:induction false} ElementRight(c: Context, code: I.Code, st: Gen, name: string, index: Expr, s: Store, t: R.State) returns (t': R.State)
    requires Setting(c, st, s, t) && IsNumber(TypeOf(st.types, index)) && ElementTy(st.types, name).Some? && Covers(code, GenElement(st, name, index).st)
    ensures ExprDone(c, code, st, GenElement(st, name, index), t, Element(c, st.types, name, index, s), t')
    decreases index, 3
  {
    var i := GenExpr(st, index);
    ExprGrows(st, index);
    var tag := Tag(st.types, index);
    var k := Checked(i.st, i.v, tag);
    assert k == GenIndex(st, index);
    CheckGrows(i.st, i.v, tag);
    AddressGrows(k.st, name, k.v);
    GrowsCovers(code, k.st, GenAddress(k.st, name, k.v).st);
    GrowsCovers(code, i.st, k.st);
    var t1 := ExprRight(c, code, st, index, s, t);
    var r1 := Eval(c, st.types, index, s);
    t' := LocatedRight(c, code, st, i, tag, name, r1, t, t1);
  }

  ghost function LocatingFrom(c: Context, types: Scopes<Shape>, name: string, r: Value, tag: Ty): Value {
    match r
    case Val(s1, v) => Locating(c, types, name, Convert(c.m, v, tag, IntT), s1)
    case other => other
  }

  lemma LocatedRight(c: Context, code: I.Code, st: Gen, i: Out, tag: Ty, name: string, r1: Value, t: R.State, t1: R.State) returns (t': R.State)
    requires ExprDone(c, code, st, i, t, r1, t1) && ScopeOk(st.types, st.addrs, st.nextId) && st.ret == c.ret && SameScope(st, i.st)
    requires Ready(i.st) && st.nextId <= i.st.nextId && ValueOk(i.v, i.st.nextId) && ElementTy(st.types, name).Some?
    requires var k := Checked(i.st, i.v, tag); Covers(code, k.st) && Covers(code, GenAddress(k.st, name, k.v).st)
    ensures var k := Checked(i.st, i.v, tag); ExprDone(c, code, st, GenAddress(k.st, name, k.v), t, LocatingFrom(c, st.types, name, r1, tag), t')
  {
    t' := t1;
    if r1.Val? {
      NextSetting(c, st, i.st, r1.s, t1);
      t' := IndexedRight(c, code, i.st, i.v, tag, name, r1.s, t1);
      var k := Checked(i.st, i.v, tag);
      DoneThen(c, code, st, i.st, GenAddress(k.st, name, k.v), t, t1, LocatingFrom(c, st.types, name, r1, tag), t');
    }
  }

  /** The check of an evaluated index and the address behind it. */
  lemma IndexedRight(c: Context, code: I.Code, st: Gen, v: I.Value, tag: Ty, name: string, s: Store, t: R.State) returns (t': R.State)
    requires Setting(c, st, s, t) && ValueOk(v, st.nextId) && ElementTy(st.types, name).Some?
    requires var k := Checked(st, v, tag); Covers(code, k.st) && Covers(code, GenAddress(k.st, name, k.v).st)
    ensures var k := Checked(st, v, tag);
            ExprDone(c, code, st, GenAddress(k.st, name, k.v), t, Locating(c, st.types, name, Convert(c.m, R.Eval(c.m, t.regs, v), tag, IntT), s), t')
  {
    var k := Checked(st, v, tag);
    CheckGrows(st, v, tag);
    var t1 := CheckRight(c, code, st, v, tag, s, t);
    t' := BehindCheck(c, code, st, k, name, s, t, t1, Convert(c.m, R.Eval(c.m, t.regs, v), tag, IntT));
  }

  lemma LocatingIs(c: Context, types: Scopes<Shape>, name: string, i: int, s: Store)
    requires ElementTy(types, name).Some? && BindingOf(s, name).Some?
    ensures ShapeFor(types, name).Some?
    ensures Op2(c.m, OpCode(Lt, IntT), i, 0) == 0 ==>
              var a := ElementAddr(c.m, BindingOf(s, name).value, ShapeFor(types, name).value, i);
              Locating(c, types, name, i, s) == if a.Some? then Val(s, a.value) else Undefined
  {
  }

  lemma NegativeLeaves(c: Context, code: I.Code, st: Gen, r: Out, types: Scopes<Shape>, name: string, s: Store, t: R.State, i: int, t': R.State)
    requires Op2(c.m, OpCode(Lt, IntT), i, 0) != 0
    requires var out := Calling(c.m, NEG_IDX_EXCEPT, [], s);
             out.Val? && Reach(c.m, code, Here(st, t), Done(DefaultExit(c.ret), out.s.mem, out.s.trace))
    ensures ExprDone(c, code, st, r, t, Locating(c, types, name, i, s), t')
  {
  }

  lemma BehindCheck(c: Context, code: I.Code, st: Gen, k: Out, name: string, s: Store, t: R.State, t1: R.State, i: int) returns (t': R.State)
    requires Setting(c, st, s, t) && CheckDone(c, code, st, k, s, t, i, t1) && ElementTy(st.types, name).Some?
    requires Ready(k.st) && st.nextId <= k.st.nextId && SameScope(st, k.st) && ValueOk(k.v, k.st.nextId) && Covers(code, GenAddress(k.st, name, k.v).st)
    ensures ExprDone(c, code, st, GenAddress(k.st, name, k.v), t, Locating(c, st.types, name, i, s), t')
  {
    t' := t1;
    var r := GenAddress(k.st, name, k.v);
    if Op2(c.m, OpCode(Lt, IntT), i, 0) == 0 {
      AgreesKept(c.m, st.types, st.addrs, st.nextId, s, t, t1);
      NextSetting(c, st, k.st, s, t1);
      t' := AddressRight(c, code, k.st, name, k.v, s, t1);
      LocatingIs(c, st.types, name, i, s);
      var a := ElementAddr(c.m, BindingOf(s, name).value, ShapeFor(st.types, name).value, i);
      if a.Some? {
        ValuedDone(c, code, k.st, r, s, t1, t', a.value);
        DoneThen(c, code, st, k.st, r, t, t1, Val(s, a.value), t');
      }
    } else {
      NegativeLeaves(c, code, st, r, st.types, name, s, t, i, t');
    }
  }

  lemma {:induction false} SetRight(c: Context, code: I.Code, st: Gen, name: string, value: Expr, s: Store, t: R.State) returns (t': R.State)
    requires Setting(c, st, s, t) && TypeOf(st.types, Assign(name, None, value)).Some? && Covers(code, GenSet(st, name, value).st)
    ensures ExprDone(c, code, st, GenSet(st, name, value), t, Assigning(c, st.types, name, Eval(c, st.types, value, s), Tag(st.types, value)), t')
    decreases value, 2
  {
    var r := GenExpr(st, value);
    ExprGrows(st, value);
    var ty := VarTag(st.types, name);
    var tag := Tag(st.types, value);
    var o := GenStore(r, tag, AddrOf(st, name), ty);
    StoreGrows(r, tag, AddrOf(st, name), ty);
    GrowsCovers(code, r.st, o.st);
    var t1 := ExprRight(c, code, st, value, s, t);
    t' := t1;
    var r1 := Eval(c, st.types, value, s);
    if r1.Val? {
      NextSetting(c, st, r.st, r1.s, t1);
      t' := AssignRight(c, code, r.st, r.v, tag, name, ty, r1.s, t1);
      DoneThen(c, code, st, r.st, o, t, t1, Assigning(c, st.types, name, r1, tag), t');
    }
  }

  lemma {:induction false} SetAtRight(c: Context, code: I.Code, st: Gen, name: string, index: Expr, value: Expr, s: Store, t: R.State) returns (t': R.State)
    requires Setting(c, st, s, t) && IsNumber(TypeOf(st.types, value)) && IsNumber(TypeOf(st.types, index)) && ElementTy(st.types, name).Some?
    requires Covers(code, GenSetAt(st, name, index, value).st)
    ensures ExprDone(c, code, st, GenSetAt(st, name, index, value), t,
                     EvalPut(c, st.types, name, index, Eval(c, st.types, value, s), Tag(st.types, value)), t')
    decreases Assign(name, Some(index), value), 0
  {
    var r := GenExpr(st, value);
    ExprGrows(st, value);
    var tag := Tag(st.types, value);
    var o := GenPut(r, tag, name, index);
    PutGrows(r, tag, name, index);
    GrowsCovers(code, r.st, o.st);
    var t1 := ExprRight(c, code, st, value, s, t);
    t' := t1;
    var r1 := Eval(c, st.types, value, s);
    if r1.Val? {
      NextSetting(c, st, r.st, r1.s, t1);
      t' := PutRight(c, code, r, tag, name, index, r1, t1);
      DoneThen(c, code, st, r.st, o, t, t1, EvalPut(c, st.types, name, index, r1, tag), t');
    }
  }

  lemma {:induction false} PutRight(c: Context, code: I.Code, r: Out, tag: Ty, name: string, index: Expr, r1: Value, t: R.State) returns (t': R.State)
    requires r1.Val? && Setting(c, r.st, r1.s, t) && ValueOk(r.v, r.st.nextId) && R.Eval(c.m, t.regs, r.v) == r1.v
    requires IsNumber(TypeOf(r.st.types, index)) && ElementTy(r.st.types, name).Some? && Covers(code, GenPut(r, tag, name, index).st)
    ensures ExprDone(c, code, r.st, GenPut(r, tag, name, index), t, EvalPut(c, r.st.types, name, index, r1, tag), t')
    decreases index, 4
  {
    var a := GenElement(r.st, name, index);
    ElementGrows(r.st, name, index);
    PutGrows(r, tag, name, index);
    GrowsCovers(code, a.st, GenPut(r, tag, name, index).st);
    var t1 := ElementRight(c, code, r.st, name, index, r1.s, t);
    var r2 := Element(c, r.st.types, name, index, r1.s);
    if r2.Val? {
      ValueKept(c.m, r.v, r.st.nextId, t, t1);
    }
    t' := ElementStored(c, code, r.st, r.v, tag, a, ElemTag(r.st.types, name), r2, t, t1, r1.v);
  }

  /** The store behind the evaluation of value and element address. */
  lemma ElementStored(c: Context, code: I.Code, st: Gen, v: I.Value, tag: Ty, a: Out, to: Ty, res: Value, t: R.State, t1: R.State, x: int)
    returns (t': R.State)
    requires ExprDone(c, code, st, a, t, res, t1) && ScopeOk(st.types, st.addrs, st.nextId) && st.ret == c.ret && SameScope(st, a.st)
    requires Ready(a.st) && st.nextId <= a.st.nextId && a.v.Result? && a.v.kind.GetElementPtrInst? && ValueOk(a.v, a.st.nextId) && ValueOk(v, st.nextId)
    requires Covers(code, GenStore(Out(a.st, v), tag, a.v, to).st) && (res.Val? ==> R.Eval(c.m, t1.regs, v) == x)
    ensures ExprDone(c, code, st, GenStore(Out(a.st, v), tag, a.v, to), t, Putting(c, res, Convert(c.m, x, tag, to)), t')
  {
    t' := t1;
    if res.Val? {
      NextSetting(c, st, a.st, res.s, t1);
      t' := AssignAtRight(c, code, a.st, v, tag, a.v, to, res.s, t1);
      DoneThen(c, code, st, a.st, GenStore(Out(a.st, v), tag, a.v, to), t, t1, Putting(c, res, Convert(c.m, x, tag, to)), t');
    }
  }

  lemma {:induction false} BothRight(c: Context, code: I.Code, st: Gen, op: BinOp, l: Expr, r: Expr, s: Store, t: R.State) returns (t': R.State)
    requires Setting(c, st, s, t) && TypeOf(st.types, Binary(op, l, r)).Some? && Covers(code, GenBoth(st, op, l, r).st)
    ensures ExprDone(c, code, st, GenBoth(st, op, l, r), t, EvalBoth(c, st.types, op, l, r, s), t')
    decreases Binary(op, l, r), 0
  {
    var x := GenExpr(st, l);
    ExprGrows(st, l);
    var y := GenExpr(x.st, r);
    ExprGrows(x.st, r);
    var tl, tr := Tag(st.types, l), Tag(st.types, r);
    var o := GenBinary(y.st, op, x.v, tl, y.v, tr);
    BinaryGrows(y.st, op, x.v, tl, y.v, tr);
    GrowsCovers(code, y.st, o.st);
    GrowsCovers(code, x.st, y.st);
    var t1 := ExprRight(c, code, st, l, s, t);
    t' := t1;
    var r1 := Eval(c, st.types, l, s);
    if r1.Val? {
      NextSetting(c, st, x.st, r1.s, t1);
      var t2 := ExprRight(c, code, x.st, r, r1.s, t1);
      t' := t2;
      var r2 := Eval(c, st.types, r, r1.s);
      DoneThen(c, code, st, x.st, y, t, t1, r2, t2);
      if r2.Val? {
        ValueKept(c.m, x.v, x.st.nextId, t1, t2);
        NextSetting(c, st, y.st, r2.s, t2);
        t' := BinaryRight(c.m, code, y.st, op, x.v, tl, y.v, tr, t2);
        var z := Computed(c.m, op, r1.v, tl, r2.v, tr);
        ValuedDone(c, code, y.st, o, r2.s, t2, t', z);
        DoneThen(c, code, st, y.st, o, t, t2, Val(r2.s, z), t');
      }
    }
  }

  lemma {:induction false} CallRight(c: Context, code: I.Code, st: Gen, name: string, args: seq<Expr>, s: Store, t: R.State) returns (t': R.State)
    requires Setting(c, st, s, t) && TypeOf(st.types, Call(name, args)).Some? && Covers(code, GenCall(st, name, args).st)
    ensures ExprDone(c, code, st, GenCall(st, name, args), t, EvalCall(c, st.types, name, args, s), t')
    decreases args, 2
  {
    var shape := ShapeFor(st.types, name).value;
    var a := GenArgs(st, args, shape.params);
    ArgsGrow(st, args, shape.params);
    EmitCovers(code, a.st, I.Call(shape.id), a.vs);
    var t1 := ArgsRight(c, code, st, args, shape.params, s, t);
    t' := t1;
    var r1 := EvalArgs(c, st.types, args, shape.params, s);
    if r1.Vals? {
      NextSetting(c, st, a.st, r1.s, t1);
      t' := CallingRight(c, code, a.st, shape.id, a.vs, r1.s, t1);
      DoneThen(c, code, st, a.st, GenCall(st, name, args), t, t1, Calling(c.m, shape.id, r1.vs, r1.s), t');
    }
  }

  ghost predicate ArgsDone(c: Context, code: I.Code, st: Gen, r: Outs, t: R.State, res: Values, t': R.State) {
    match res
    case Vals(s1, xs) =>
      && Reach(c.m, code, Here(st, t), Here(r.st, t')) && Agrees(c.m, st.types, st.addrs, s1, t')
      && R.EvalAll(c.m, t'.regs, r.vs) == xs && Keeps(st.nextId, t, t')
    case LeftArgs(mem, trace) => Reach(c.m, code, Here(st, t), Done(DefaultExit(c.ret), mem, trace))
    case UndefinedArgs => true
  }

  lemma {:induction false} ArgsRight(c: Context, code: I.Code, st: Gen, args: seq<Expr>, params: seq<Param>, s: Store, t: R.State) returns (t': R.State)
    requires Setting(c, st, s, t) && |args| == |params| && Covers(code, GenArgs(st, args, params).st)
    requires forall k :: 0 <= k < |args| ==> Accepts(params[k], TypeOf(st.types, args[k]))
    ensures ArgsDone(c, code, st, GenArgs(st, args, params), t, EvalArgs(c, st.types, args, params, s), t')
    decreases args, 1
  {
    if args == [] {
      ReachRefl(c.m, code, Here(st, t));
      t' := t;
    } else {
      var n := |args| - 1;
      var rest := GenArgs(st, args[..n], params[..n]);
      ArgsCover(code, st, args, params);
      var t1 := ArgsRight(c, code, st, args[..n], params[..n], s, t);
      t' := t1;
      var r1 := EvalArgs(c, st.types, args[..n], params[..n], s);
      if r1.Vals? {
        NextSetting(c, st, rest.st, r1.s, t1);
        t' := ArgRight(c, code, rest.st, args[n], params[n], r1.s, t1);
        ArgsThen(c, code, st, rest, GenArg(rest.st, args[n], params[n]), t, r1, t1, EvalArg(c, st.types, args[n], params[n], r1.s), t');
      }
    }
  }

  lemma ArgsCover(code: I.Code, st: Gen, args: seq<Expr>, params: seq<Param>)
    requires Ready(st) && |args| == |params| && args != [] && Covers(code, GenArgs(st, args, params).st)
    requires forall k :: 0 <= k < |args| ==> Accepts(params[k], TypeOf(st.types, args[k]))
    ensures var n := |args| - 1; var rest := GenArgs(st, args[..n], params[..n]);
            && Covers(code, rest.st) && Covers(code, GenArg(rest.st, args[n], params[n]).st)
            && Ready(rest.st) && st.nextId <= rest.st.nextId && ValuesOk(rest.vs, rest.st.nextId)
  {
    var n := |args| - 1;
    var rest := GenArgs(st, args[..n], params[..n]);
    ArgsGrow(st, args[..n], params[..n]);
    ArgGrows(rest.st, args[n], params[n]);
    GrowsCovers(code, rest.st, GenArgs(st, args, params).st);
  }

  lemma ArgsThen(c: Context, code: I.Code, st: Gen, rest: Outs, w: Out, t: R.State, r1: Values, t1: R.State, r2: Value, t': R.State)
    requires ArgsDone(c, code, st, rest, t, r1, t1) && r1.Vals? && ExprDone(c, code, rest.st, w, t1, r2, t')
    requires st.types == rest.st.types && st.addrs == rest.st.addrs && ValuesOk(rest.vs, rest.st.nextId) && st.nextId <= rest.st.nextId
    ensures ArgsDone(c, code, st, Outs(w.st, rest.vs + [w.v]), t,
                     match r2
                     case Val(s2, v) => Vals(s2, r1.vs + [v])
                     case Left(mem, trace) => LeftArgs(mem, trace)
                     case Undefined => UndefinedArgs, t')
  {
    DoneThen(c, code, st, rest.st, w, t, t1, r2, t');
    if r2.Val? {
      var vs := rest.vs + [w.v];
      forall k | 0 <= k < |rest.vs|
        ensures R.EvalAll(c.m, t'.regs, vs)[k] == r1.vs[k]
      {
        assert R.EvalAll(c.m, t1.regs, rest.vs)[k] == R.Eval(c.m, t1.regs, rest.vs[k]);
        ValueKept(c.m, rest.vs[k], rest.st.nextId, t1, t');
      }
      assert R.EvalAll(c.m, t'.regs, vs) == r1.vs + [r2.v];
    }
  }

  lemma {:induction false} ArgRight(c: Context, code: I.Code, st: Gen, arg: Expr, param: Param, s: Store, t: R.State) returns (t': R.State)
    requires Setting(c, st, s, t) && TypeOf(st.types, arg).Some? && Covers(code, GenArg(st, arg, param).st)
    ensures ExprDone(c, code, st, GenArg(st, arg, param), t, EvalArg(c, st.types, arg, param, s), t')
    decreases arg, 2
  {
    var a := GenExpr(st, arg);
    ExprGrows(st, arg);
    if param.isArray {
      t' := ExprRight(c, code, st, arg, s, t);
    } else {
      var tag := Tag(st.types, arg);
      ConvertingGrows(a.st, a.v, tag, param.ty);
      GrowsCovers(code, a.st, Converting(a.st, a.v, tag, param.ty).st);
      var t1 := ExprRight(c, code, st, arg, s, t);
      t' := t1;
      var r1 := Eval(c, st.types, arg, s);
      if r1.Val? {
        NextSetting(c, st, a.st, r1.s, t1);
        t' := ConvertingRight(c.m, code, a.st, a.v, tag, param.ty, t1);
        var x := Convert(c.m, r1.v, tag, param.ty);
        ValuedDone(c, code, a.st, GenArg(st, arg, param), r1.s, t1, t', x);
        DoneThen(c, code, st, a.st, GenArg(st, arg, param), t, t1, Val(r1.s, x), t');
      }
    }
  }
}
