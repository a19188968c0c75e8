/**
  Whole functions: running the generated code is what a call of the function means.
 */
module LoweringFun {
  import opened Options
  import opened Syntax
  import opened Cfg
  import I = Ir
  import R = Running
  import opened Meaning
  import opened Generator
  import opened Emitted
  import opened WellFormed
  import opened Walking
  import opened Lowering
  import opened LoweringExpr
  import opened LoweringStmt

  // ----- parameters -----

  /** A variable that is not in scope yet may be stored to. */
  lemma FreshStored(m: R.Machine, types: Scopes<Shape>, addrs: Scopes<I.Value>, n: nat, s: Store, t: R.State, t': R.State, v: int)
    requires ScopeOk(types, addrs, n) && Agrees(m, types, addrs, s, t) && t' == t.(slots := t.slots[n := v])
    ensures Agrees(m, types, addrs, s, t')
  {
    forall k: nat, x | k < |types| && x in types[k]
      ensures HoldsAt(m, types, addrs, s.env, t', k, x)
    {
      assert EntryOk(types, addrs, n, k, x) && HoldsAt(m, types, addrs, s.env, t, k, x);
    }
  }

  /** A new variable and its first value. */
  lemma NewVariable(m: R.Machine, types: Scopes<Shape>, addrs: Scopes<I.Value>, n: nat, s: Store, t: R.State, t1: R.State, t': R.State,
                    name: string, shape: Shape, addr: I.Value, v: int)
    requires ScopeOk(types, addrs, n) && Agrees(m, types, addrs, s, t) && OnlyRegs(n, t, t1) && t' == t1.(slots := t1.slots[n := v])
    requires (shape.Scalar? || shape.Pointer?) && addr.Result? && addr.kind.AllocaInst? && addr.id == n
    ensures ScopeOk(Push(types, name, shape), Push(addrs, name, addr), n + 2)
    ensures Agrees(m, Push(types, name, shape), Push(addrs, name, addr), s.(env := Push(s.env, name, Slot(Some(v)))), t')
  {
    AgreesKept(m, types, addrs, n, s, t, t1);
    FreshStored(m, types, addrs, n, s, t1, t', v);
    PushScope(types, addrs, n, name, shape, addr);
    PushAgrees(m, types, addrs, s, t', name, shape, addr, Slot(Some(v)));
    ScopeGrows(Push(types, name, shape), Push(addrs, name, addr), n + 1, n + 2);
  }

  lemma ArgumentStored(m: R.Machine, code: I.Code, st: Gen, op: I.Op, k: nat, t: R.State) returns (t1: R.State, t': R.State)
    requires op.Alloca? && st.cur in st.code && Covers(code, st.Emit(op, []).Emit(I.Store, [I.Argument(k), st.Next(op)]))
    ensures Reach(m, code, Here(st, t), Here(st.Emit(op, []).Emit(I.Store, [I.Argument(k), st.Next(op)]), t'))
    ensures OnlyRegs(st.nextId, t, t1) && t' == t1.(slots := t1.slots[st.nextId := m.argument(k)])
  {
    var args := [I.Argument(k), st.Next(op)];
    var st1 := st.Emit(op, []);
    EmitCovers(code, st1, I.Store, args);
    EmitRight(m, code, st, op, [], t);
    t1 := R.Step(m, I.Instr(st.nextId, op, [], []), t);
    EmitRight(m, code, st1, I.Store, args, t1);
    t' := R.Step(m, I.Instr(st1.nextId, I.Store, args, []), t1);
    ReachTrans(m, code, Here(st, t), Here(st1, t1), Here(st1.Emit(I.Store, args), t'));
  }

  lemma ParamRight(c: Context, code: I.Code, st: Gen, p: Param, k: nat, s: Store, t: R.State) returns (t': R.State)
    requires Setting(c, st, s, t) && Final(c, code, GenParam(st, p, k))
    ensures Setting(c, GenParam(st, p, k), s.(env := Push(s.env, p.name, Slot(Some(c.m.argument(k))))), t')
    ensures Reach(c.m, code, Here(st, t), Here(GenParam(st, p, k), t'))
  {
    var op := I.Alloca(!p.isArray);
    var addr := st.Next(op);
    var st2 := st.Emit(op, []).Emit(I.Store, [I.Argument(k), addr]);
    ParamGrows(st, p, k);
    FinalSame(c, code, st2, GenParam(st, p, k));
    var t1;
    t1, t' := ArgumentStored(c.m, code, st, op, k, t);
    NewVariable(c.m, st.types, st.addrs, st.nextId, s, t, t1, t', p.name, ParamShape(p), addr, c.m.argument(k));
  }

  lemma {:induction false} ParamsRight(c: Context, code: I.Code, st: Gen, params: seq<Param>, s: Store, t: R.State) returns (t': R.State)
    requires Setting(c, st, s, t) && Final(c, code, GenParams(st, params))
    ensures Setting(c, GenParams(st, params), Arriving(c, s, params), t') && Reach(c.m, code, Here(st, t), Here(GenParams(st, params), t'))
  {
    if params == [] {
      ReachRefl(c.m, code, Here(st, t));
      t' := t;
    } else {
      var n := |params| - 1;
      var st1 := GenParams(st, params[..n]);
      ParamsGrow(st, params[..n]);
      ParamGrows(st1, params[n], n);
      FinalLess(c, code, st1, GenParams(st, params), {st1.cur}, {});
      var t1 := ParamsRight(c, code, st, params[..n], s, t);
      t' := ParamRight(c, code, st1, params[n], n, Arriving(c, s, params[..n]), t1);
      ReachTrans(c.m, code, Here(st, t), Here(st1, t1), Here(GenParams(st, params), t'));
    }
  }

  // ----- the body -----

  lemma StartRight(c: Context, types: Scopes<Shape>, addrs: Scopes<I.Value>, s: Store, t: R.State)
    requires ScopeOk(types, addrs, 0) && Agrees(c.m, types, addrs, s, t)
    ensures Setting(c, Start(types, addrs, c.ret), s.(env := s.env + [map[]]), t)
  {
    StartOk(types, addrs, c.ret);
    var a := Start(types, addrs, c.ret);
    var st := a.(types := types, addrs := addrs);
    SameCodeOk(a, st);
    EnterRight(c, st, s, t);
  }

  /** A function from the state of the run on entry: parameters, declarations, statements, and the default return. */
  lemma GeneratedFollows(c: Context, types: Scopes<Shape>, addrs: Scopes<I.Value>, params: seq<Param>, decls: seq<Decl>, body: seq<Stmt>,
                         s: Store, t: R.State, fuel: nat) returns (t': R.State)
    requires ScopeOk(types, addrs, 0) && Agrees(c.m, types, addrs, s, t) && BodyOk(FunctionTypes(types, params, decls), c.ret, body)
    requires HomesOk(c, GenFunction(types, addrs, c.ret, params, decls, body))
    ensures var f := GenFunction(types, addrs, c.ret, params, decls, body);
            Leads(c, f.code, f, Walking.At(0, 0, t), Crash, Outcome(c, types, params, decls, body, s, fuel), fuel, t')
  {
    var f := GenFunction(types, addrs, c.ret, params, decls, body);
    var st := Start(types, addrs, c.ret);
    var s1 := s.(env := s.env + [map[]]);
    StartRight(c, types, addrs, s, t);
    var a := GenParams(st, params);
    ParamsGrow(st, params);
    var b := GenDecls(a, decls);
    DeclsGrow(a, decls);
    var d := GenBody(b, body);
    BodyGrows(b, body);
    PiecesFinal(c, f, a, b, d);
    var t1 := ParamsRight(c, f.code, st, params, s1, t);
    var s2 := Arriving(c, s1, params);
    var t2 := DeclsRight(c, f.code, a, decls, s2, t1);
    ReachTrans(c.m, f.code, Here(st, t), Here(a, t1), Here(b, t2));
    var s3 := Declaring(c, s2, decls);
    t' := BodyRight(c, f.code, b, body, s3, t2, fuel);
    var res := ExecAll(c, b.types, body, s3, fuel);
    ClosingRight(c, f, b, d, t2, res, fuel, t');
    LeadsAfter(c, f.code, f, f, Here(st, t), Here(b, t2), Crash, Closing(c, res), fuel, t');
  }

  lemma PiecesFinal(c: Context, f: Gen, a: Gen, b: Gen, d: Gen)
    requires GraphOk(d) && Grows(a, b) && Grows(b, d) && f == (if d.Terminated() then d else d.DefaultRet()) && HomesOk(c, f)
    ensures Final(c, f.code, a) && Final(c, f.code, b) && Final(c, f.code, d)
  {
    forall x | x in f.code
      ensures CoversAt(f.code, f, x)
    {
    }
    if d.Terminated() {
    } else {
      EmitOk(d, I.Ret, if d.ret.VoidT? then [] else [I.ConstantInt(0)]);
      FinalLess(c, f.code, d, f, {d.cur}, {});
    }
    FinalLess(c, f.code, b, d, {b.cur}, {});
    FinalLess(c, f.code, a, b, {a.cur}, {});
  }

  /** The default return at the end of a body. */
  lemma ClosingRight(c: Context, f: Gen, b: Gen, d: Gen, t: R.State, res: Result, fuel: nat, t': R.State)
    requires Followed(c, f.code, b, d, t, res, fuel, t') && f == (if d.Terminated() then d else d.DefaultRet()) && d.cur in d.code && d.ret == c.ret
    ensures Leads(c, f.code, f, Here(b, t), Crash, Closing(c, res), fuel, t')
  {
    if res.Normal? {
      forall x | x in f.code
        ensures CoversAt(f.code, f, x)
      {
      }
      RetRight(c.m, f.code, d, if d.ret.VoidT? then [] else [I.ConstantInt(0)], t');
      ReachTrans(c.m, f.code, Here(b, t), Here(d, t'), Done(DefaultExit(c.ret), t'.mem, t'.trace));
    }
  }

  // ----- the theorem -----

  lemma FunctionBlocks(f: Gen)
    requires FunctionOk(f)
    ensures forall x {:trigger f.code[x]} :: x in f.code ==> BlockForm(f.code[x])
  {
    forall x | x in f.code
      ensures BlockForm(f.code[x])
    {
      assert Finished(f, x) && BlockOk(f, x);
    }
  }

  /** How a run can end, seen from outside. */
  ghost predicate MeansEnd(c: Context, types: Scopes<Shape>, params: seq<Param>, decls: seq<Decl>, body: seq<Stmt>, s: Store, end: Result) {
    exists fuel: nat :: Outcome(c, types, params, decls, body, s, fuel) == end
  }

  ghost predicate RunsTo(m: R.Machine, code: I.Code, t: R.State, end: Result) {
    exists fuel: nat :: RunEnd(m, code, t, fuel) == end
  }

  ghost function RunEnd(m: R.Machine, code: I.Code, t: R.State, fuel: nat): Result {
    var seen := R.Run(m, code, 0, 0, t, fuel);
    Ended(seen.mem, seen.trace, seen.exit)
  }

  /** The meaning of a function and the code generated for it: if the meaning of a call is an end, with some memory,
      trace and result, the run of the code ends like that. */
  lemma MeaningIsRun(c: Context, types: Scopes<Shape>, addrs: Scopes<I.Value>, params: seq<Param>, decls: seq<Decl>, body: seq<Stmt>,
                     s: Store, t: R.State, fuel: nat)
    requires ScopeOk(types, addrs, 0) && Agrees(c.m, types, addrs, s, t) && BodyOk(FunctionTypes(types, params, decls), c.ret, body)
    requires HomesOk(c, GenFunction(types, addrs, c.ret, params, decls, body)) && Outcome(c, types, params, decls, body, s, fuel).Ended?
    ensures RunsTo(c.m, GenFunction(types, addrs, c.ret, params, decls, body).code, t, Outcome(c, types, params, decls, body, s, fuel))
  {
    var f := GenFunction(types, addrs, c.ret, params, decls, body);
    var end := Outcome(c, types, params, decls, body, s, fuel);
    var _ := GeneratedFollows(c, types, addrs, params, decls, body, s, t, fuel);
    GeneratedIsWellFormed(types, addrs, c.ret, params, decls, body);
    FunctionBlocks(f);
    var n: nat :| Walk(c.m, f.code, Walking.At(0, 0, t), n) == Done(end.exit, end.mem, end.trace);
    var k := WalkIsRun(c.m, f.code, 0, 0, t, n, Done(end.exit, end.mem, end.trace));
    assert RunEnd(c.m, f.code, t, k) == end;
  }

  /** If the run of the code returns, that is what the meaning says, provided that it says anything at all. */
  lemma RunIsMeaning(c: Context, types: Scopes<Shape>, addrs: Scopes<I.Value>, params: seq<Param>, decls: seq<Decl>, body: seq<Stmt>,
                     s: Store, t: R.State, fuel: nat)
    requires ScopeOk(types, addrs, 0) && Agrees(c.m, types, addrs, s, t) && BodyOk(FunctionTypes(types, params, decls), c.ret, body)
    requires HomesOk(c, GenFunction(types, addrs, c.ret, params, decls, body))
    requires forall k: nat :: !Outcome(c, types, params, decls, body, s, k).Meaningless?
    requires var end := RunEnd(c.m, GenFunction(types, addrs, c.ret, params, decls, body).code, t, fuel); end.exit.Return? || end.exit.ReturnVoid?
    ensures MeansEnd(c, types, params, decls, body, s, RunEnd(c.m, GenFunction(types, addrs, c.ret, params, decls, body).code, t, fuel))
  {
    var f := GenFunction(types, addrs, c.ret, params, decls, body);
    var end := RunEnd(c.m, f.code, t, fuel);
    GeneratedIsWellFormed(types, addrs, c.ret, params, decls, body);
    FunctionBlocks(f);
    RunIsWalk(c.m, f.code, 0, 0, t, fuel);
    var start, done := Walking.At(0, 0, t), Done(end.exit, end.mem, end.trace);
    var n: nat :| Walk(c.m, f.code, start, n) == done;
    EndsBefore(c.m, f.code, start, n);
    var res := Outcome(c, types, params, decls, body, s, n);
    var _ := GeneratedFollows(c, types, addrs, params, decls, body, s, t, n);
    assert res.Ended?;
    OneEnd(c.m, f.code, start, done, Done(res.exit, res.mem, res.trace));
    assert res == end;
  }

  /** Code generation is correct: unless a call reads a variable that was never set, its meaning is to end with some memory,
      some trace of stores and calls, and some result if and only if the run of the generated code ends like that. */
  lemma CodeGenerationIsCorrect(c: Context, types: Scopes<Shape>, addrs: Scopes<I.Value>, params: seq<Param>, decls: seq<Decl>, body: seq<Stmt>,
                                s: Store, t: R.State, end: Result)
    requires ScopeOk(types, addrs, 0) && Agrees(c.m, types, addrs, s, t) && BodyOk(FunctionTypes(types, params, decls), c.ret, body)
    requires HomesOk(c, GenFunction(types, addrs, c.ret, params, decls, body))
    requires forall k: nat :: !Outcome(c, types, params, decls, body, s, k).Meaningless?
    requires end.Ended? && (end.exit.Return? || end.exit.ReturnVoid?)
    ensures MeansEnd(c, types, params, decls, body, s, end) <==> RunsTo(c.m, GenFunction(types, addrs, c.ret, params, decls, body).code, t, end)
  {
    var code := GenFunction(types, addrs, c.ret, params, decls, body).code;
    if MeansEnd(c, types, params, decls, body, s, end) {
      var fuel: nat :| Outcome(c, types, params, decls, body, s, fuel) == end;
      MeaningIsRun(c, types, addrs, params, decls, body, s, t, fuel);
    }
    if RunsTo(c.m, code, t, end) {
      var fuel: nat :| RunEnd(c.m, code, t, fuel) == end;
      RunIsMeaning(c, types, addrs, params, decls, body, s, t, fuel);
    }
  }
}
