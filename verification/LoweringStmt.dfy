/**
  Running the code that a statement was lowered to does what the statement means.
 */
module LoweringStmt {
  import opened Options
  import opened Syntax
  import opened Cfg
  import I = Ir
  import R = Running
  import opened Meaning
  import opened Generator
  import opened Emitted
  import opened WellFormed
  import opened Walking
  import opened Lowering
  import opened LoweringExpr

  // ----- the final code -----

  /** The local arrays are where the meaning says they are. */
  ghost predicate HomesOk(c: Context, st: Gen) {
    forall p {:trigger p in st.homes} :: p in st.homes ==> c.layout(p.0) == c.m.frame(p.1)
  }

  /** What has been emitted is part of the final code. */
  ghost predicate Final(c: Context, code: I.Code, st: Gen) {
    Covers(code, st) && HomesOk(c, st)
  }

  lemma FinalLess(c: Context, code: I.Code, a: Gen, b: Gen, s: set<Block>, t: set<Block>)
    requires Step(a, b, s, t) && Final(c, code, b)
    ensures Final(c, code, a)
  {
    CoversLess(code, a, b);
  }

  lemma FinalSame(c: Context, code: I.Code, a: Gen, b: Gen)
    requires a.code == b.code && a.homes <= b.homes && Final(c, code, b)
    ensures Final(c, code, a)
  {
    forall x | x in a.code
      ensures CoversAt(code, a, x)
    {
      assert CoversAt(code, b, x);
    }
  }

  lemma BrIfOpenFinal(c: Context, code: I.Code, e: Gen, to: Block)
    requires GraphOk(e) && to in e.code && Final(c, code, e.BrIfOpen(to))
    ensures Final(c, code, e)
  {
    BrIfOpenOk(e, to);
    FinalLess(c, code, e, e.BrIfOpen(to), {e.cur}, {to});
  }

  // ----- following a statement -----

  /** From one configuration, the run does what the meaning does: to the other configuration in agreement with
      the names in scope, out of the function, or on and on. */
  ghost predicate Leads(c: Context, code: I.Code, st: Gen, from: Config, to: Config, res: Result, fuel: nat, t': R.State) {
    match res
    case Normal(s) => Reach(c.m, code, from, to) && Agrees(c.m, st.types, st.addrs, s, t')
    case Ended(mem, trace, exit) => Reach(c.m, code, from, Done(exit, mem, trace))
    case OutOfFuel => Long(c.m, code, from, fuel)
    case Meaningless => true
  }

  ghost predicate Followed(c: Context, code: I.Code, st: Gen, r: Gen, t: R.State, res: Result, fuel: nat, t': R.State) {
    (res.Normal? ==> !r.Terminated()) && Leads(c, code, st, Here(st, t), Here(r, t'), res, fuel, t')
  }

  lemma LeadsAfter(c: Context, code: I.Code, st: Gen, st': Gen, a: Config, b: Config, to: Config, res: Result, fuel: nat, t': R.State)
    requires Reach(c.m, code, a, b) && Leads(c, code, st', b, to, res, fuel, t') && st'.types == st.types && st'.addrs == st.addrs
    ensures Leads(c, code, st, a, to, res, fuel, t') && (a != b ==> Leads(c, code, st, a, to, res, fuel + 1, t'))
  {
    match res
    case Normal(s) => ReachTrans(c.m, code, a, b, to);
    case Ended(mem, trace, exit) => ReachTrans(c.m, code, a, b, Done(exit, mem, trace));
    case OutOfFuel => LongAfter(c.m, code, a, b, fuel);
    case Meaningless =>
  }

  lemma LeadsTwice(c: Context, code: I.Code, st: Gen, a: Config, b: Config, d: Config, to: Config, res: Result, fuel: nat, t': R.State)
    requires Reach(c.m, code, a, b) && a != b && Reach(c.m, code, b, d) && Leads(c, code, st, d, to, res, fuel, t')
    ensures Leads(c, code, st, a, to, res, fuel + 1, t')
  {
    LeadsAfter(c, code, st, st, b, d, to, res, fuel, t');
    LeadsAfter(c, code, st, st, a, b, to, res, fuel, t');
  }

  /** The branch on a condition. */
  lemma TestRight(c: Context, code: I.Code, a: Gen, v: I.Value, ty: Ty, t: R.State, more: Gen, yes: Block, no: Block) returns (t': R.State)
    requires Ready(a) && more.cur == a.cur && a.cur in more.code && more.code[a.cur] == GenTest(a, v, ty).st.code[a.cur]
    requires Covers(code, GenTest(a, v, ty).st) && Covers(code, more.CondBr(GenTest(a, v, ty).v, yes, no))
    ensures Reach(c.m, code, Here(a, t), Walking.At(if IsTrue(c.m, R.Eval(c.m, t.regs, v), ty) then yes else no, 0, t'))
    ensures OnlyRegs(a.nextId, t, t')
  {
    var test := GenTest(a, v, ty);
    Eval2(c.m, t.regs, v, I.ConstantInt(0));
    t' := ComputingRight(c.m, code, a, OpCode(Neq, ty), [v, I.ConstantInt(0)], t);
    assert Here(test.st, t') == Here(more, t');
    CondBrRight(c.m, code, more, test.v, yes, no, t');
    ReachTrans(c.m, code, Here(a, t), Here(test.st, t'), Walking.At(if IsTrue(c.m, R.Eval(c.m, t.regs, v), ty) then yes else no, 0, t'));
  }

  /** The comparison of a condition with zero, in front of a branch to new blocks. */
  lemma TestReady(st: Gen, v: I.Value, ty: Ty)
    requires Ready(st)
    ensures var a, n := st.NewBlock().NewBlock(), st.Fresh(); var test := GenTest(a, v, ty);
            && Ready(a) && Ready(test.st) && n in test.st.code && n + 1 in test.st.code && test.st.Fresh() == n + 2
            && (forall t :: Here(a, t) == Here(st, t)) && a.nextId == st.nextId && test.st.cur == a.cur && a.cur in test.st.code
  {
    var a := st.NewBlock().NewBlock();
    TwoFresh(st);
    assert SameBody(st, a, st.cur);
    ComputingGrows(a, OpCode(Neq, ty), [v, I.ConstantInt(0)]);
  }

  lemma ForkRight(c: Context, code: I.Code, st: Gen, v: I.Value, ty: Ty, t: R.State) returns (t': R.State)
    requires Ready(st) && Covers(code, Fork(st, v, ty))
    ensures var n := st.Fresh();
            Reach(c.m, code, Here(st, t), Walking.At(if IsTrue(c.m, R.Eval(c.m, t.regs, v), ty) then n else n + 1, 0, t'))
    ensures OnlyRegs(st.nextId, t, t')
  {
    var n := st.Fresh();
    var a := st.NewBlock().NewBlock();
    TestReady(st, v, ty);
    var test := GenTest(a, v, ty);
    CondBrCovers(code, test.st, test.v, n, n + 1);
    t' := TestRight(c, code, a, v, ty, t, test.st, n, n + 1);
  }

  lemma ForkElseRight(c: Context, code: I.Code, st: Gen, v: I.Value, ty: Ty, t: R.State) returns (t': R.State)
    requires Ready(st) && Covers(code, ForkElse(st, v, ty))
    ensures var n := st.Fresh();
            Reach(c.m, code, Here(st, t), Walking.At(if IsTrue(c.m, R.Eval(c.m, t.regs, v), ty) then n else n + 2, 0, t'))
    ensures OnlyRegs(st.nextId, t, t')
  {
    var n := st.Fresh();
    var a := st.NewBlock().NewBlock();
    TestReady(st, v, ty);
    var test := GenTest(a, v, ty);
    ThirdCovers(code, test.st, test.v, n, n + 2);
    t' := TestRight(c, code, a, v, ty, t, test.st.NewBlock(), n, n + 2);
  }

  lemma CondBrCovers(code: I.Code, st: Gen, v: I.Value, yes: Block, no: Block)
    requires Ready(st) && yes in st.code && no in st.code && yes != no && Covers(code, st.CondBr(v, yes, no))
    ensures Covers(code, st)
  {
    CondBrOk(st, v, yes, no);
    CoversLess(code, st, st.CondBr(v, yes, no));
  }

  lemma ThirdCovers(code: I.Code, st: Gen, v: I.Value, yes: Block, no: Block)
    requires Ready(st) && yes in st.code && no == st.Fresh() && Covers(code, st.NewBlock().CondBr(v, yes, no))
    ensures Covers(code, st) && st.cur in st.NewBlock().code && st.NewBlock().code[st.cur] == st.code[st.cur]
  {
    var more := st.NewBlock();
    NewBlockOk(st);
    assert SameBody(st, more, st.cur);
    assert yes != no;
    CondBrCovers(code, more, v, yes, no);
    CoversLess(code, st, more);
  }

  // ----- declarations -----

  lemma PushParallel<S, T>(s: Scopes<S>, t: Scopes<T>, name: string, x: S, y: T)
    requires Parallel(s, t)
    ensures Parallel(Push(s, name, x), Push(t, name, y))
  {
  }

  /** A new alloca in scope. */
  lemma PushScope(types: Scopes<Shape>, addrs: Scopes<I.Value>, n: nat, name: string, shape: Shape, addr: I.Value)
    requires ScopeOk(types, addrs, n) && !shape.Function? && addr.Result? && addr.kind.AllocaInst? && addr.id == n
    ensures ScopeOk(Push(types, name, shape), Push(addrs, name, addr), n + 1)
  {
    ScopeGrows(types, addrs, n, n + 1);
    var types', addrs' := Push(types, name, shape), Push(addrs, name, addr);
    PushParallel(types, addrs, name, shape, addr);
    forall k: nat, x | k < |types'| && x in types'[k]
      ensures EntryOk(types', addrs', n + 1, k, x)
    {
      assert x in types[k] ==> EntryOk(types, addrs, n + 1, k, x);
    }
    forall k: nat, x, k': nat, x' |
      k < |types'| && x in types'[k] && k' < |types'| && x' in types'[k'] && !types'[k][x].Function? && !types'[k'][x'].Function?
      ensures Apart(addrs', k, x, k', x')
    {
      assert x in types[k] ==> EntryOk(types, addrs, n, k, x);
      assert x' in types[k'] ==> EntryOk(types, addrs, n, k', x');
      assert x in types[k] && x' in types[k'] ==> Apart(addrs, k, x, k', x');
    }
  }

  /** A new name in scope, in agreement with its alloca. */
  lemma PushAgrees(m: R.Machine, types: Scopes<Shape>, addrs: Scopes<I.Value>, s: Store, t: R.State, name: string, shape: Shape, addr: I.Value, b: Binding)
    requires Parallel(types, addrs) && Agrees(m, types, addrs, s, t) && Holds(m, shape, addr, b, t)
    ensures Agrees(m, Push(types, name, shape), Push(addrs, name, addr), s.(env := Push(s.env, name, b)), t)
  {
    var types', addrs', env' := Push(types, name, shape), Push(addrs, name, addr), Push(s.env, name, b);
    PushParallel(types, s.env, name, shape, b);
    forall k: nat, x | k < |types'| && x in types'[k]
      ensures HoldsAt(m, types', addrs', env', t, k, x)
    {
      assert x in types[k] ==> HoldsAt(m, types, addrs, s.env, t, k, x);
    }
  }

  ghost function BindingFor(c: Context, d: Decl): Binding {
    if d.len.None? then Slot(None) else Place(c.layout(d.node))
  }

  lemma DeclRight(c: Context, code: I.Code, st: Gen, d: Decl, s: Store, t: R.State) returns (t': R.State)
    requires Setting(c, st, s, t) && Final(c, code, GenDecl(st, d))
    ensures Setting(c, GenDecl(st, d), s.(env := Push(s.env, d.name, BindingFor(c, d))), t')
    ensures Reach(c.m, code, Here(st, t), Here(GenDecl(st, d), t'))
  {
    var op, r := I.Alloca(d.len.None?), GenDecl(st, d);
    var st1 := st.Emit(op, []);
    DeclGrows(st, d);
    FinalSame(c, code, st1, r);
    EmitRight(c.m, code, st, op, [], t);
    t' := R.Step(c.m, I.Instr(st.nextId, op, [], []), t);
    AgreesKept(c.m, st.types, st.addrs, st.nextId, s, t, t');
    assert (d.node, st.nextId) in r.homes;
    DeclAgrees(c, st, d, r, op, s, t');
  }

  lemma DeclAgrees(c: Context, st: Gen, d: Decl, r: Gen, op: I.Op, s: Store, t': R.State)
    requires r == GenDecl(st, d) && op == I.Alloca(d.len.None?) && Holds(c.m, ShapeOf(d), st.Next(op), BindingFor(c, d), t')
    requires ScopeOk(st.types, st.addrs, st.nextId) && Agrees(c.m, st.types, st.addrs, s, t')
    ensures ScopeOk(r.types, r.addrs, r.nextId) && Agrees(c.m, r.types, r.addrs, s.(env := Push(s.env, d.name, BindingFor(c, d))), t')
  {
    PushScope(st.types, st.addrs, st.nextId, d.name, ShapeOf(d), st.Next(op));
    PushAgrees(c.m, st.types, st.addrs, s, t', d.name, ShapeOf(d), st.Next(op), BindingFor(c, d));
  }

  lemma {:induction false} DeclsRight(c: Context, code: I.Code, st: Gen, decls: seq<Decl>, s: Store, t: R.State) returns (t': R.State)
    requires Setting(c, st, s, t) && Final(c, code, GenDecls(st, decls))
    ensures Setting(c, GenDecls(st, decls), Declaring(c, s, decls), t') && Reach(c.m, code, Here(st, t), Here(GenDecls(st, decls), t'))
    decreases decls
  {
    if decls == [] {
      ReachRefl(c.m, code, Here(st, t));
      t' := t;
    } else {
      var st1 := GenDecl(st, decls[0]);
      DeclGrows(st, decls[0]);
      DeclsGrow(st1, decls[1..]);
      FinalLess(c, code, st1, GenDecls(st1, decls[1..]), {st1.cur}, {});
      var t1 := DeclRight(c, code, st, decls[0], s, t);
      t' := DeclsRight(c, code, st1, decls[1..], s.(env := Push(s.env, decls[0].name, BindingFor(c, decls[0]))), t1);
      ReachTrans(c.m, code, Here(st, t), Here(st1, t1), Here(GenDecls(st, decls), t'));
    }
  }

  lemma EnterRight(c: Context, st: Gen, s: Store, t: R.State)
    requires Setting(c, st, s, t)
    ensures Setting(c, EnterScope(st), s.(env := s.env + [map[]]), t)
  {
    var a := EnterScope(st);
    SameCodeOk(st, a);
    forall k: nat, x | k < |a.types| && x in a.types[k]
      ensures EntryOk(a.types, a.addrs, a.nextId, k, x) && HoldsAt(c.m, a.types, a.addrs, s.env + [map[]], t, k, x)
    {
      assert EntryOk(st.types, st.addrs, st.nextId, k, x) && HoldsAt(c.m, st.types, st.addrs, s.env, t, k, x);
    }
    forall k: nat, x, k': nat, x' |
      k < |a.types| && x in a.types[k] && k' < |a.types| && x' in a.types[k'] && !a.types[k][x].Function? && !a.types[k'][x'].Function?
      ensures Apart(a.addrs, k, x, k', x')
    {
      assert Apart(st.addrs, k, x, k', x');
    }
  }

  lemma ExitRight(m: R.Machine, types: Scopes<Shape>, addrs: Scopes<I.Value>, s: Store, t: R.State)
    requires Agrees(m, types, addrs, s, t) && types != [] && |addrs| == |types|
    ensures s.env != [] && Agrees(m, Outer(types), Outer(addrs), s.(env := s.env[..|s.env| - 1]), t)
  {
    var env := s.env[..|s.env| - 1];
    forall k: nat, x | k < |Outer(types)| && x in Outer(types)[k]
      ensures HoldsAt(m, Outer(types), Outer(addrs), env, t, k, x)
    {
      assert HoldsAt(m, types, addrs, s.env, t, k, x);
    }
  }

  // ----- statements -----

  lemma {:induction false} StmtRight(c: Context, code: I.Code, st: Gen, stmt: Stmt, s: Store, t: R.State, fuel: nat) returns (t': R.State)
    requires Setting(c, st, s, t) && StmtOk(st.types, st.ret, stmt) && Final(c, code, GenStmt(st, stmt))
    ensures Followed(c, code, st, GenStmt(st, stmt), t, Exec(c, st.types, stmt, s, fuel), fuel, t')
    decreases fuel, stmt, 2
  {
    match stmt
    case ExprStmt(None) =>
      ReachRefl(c.m, code, Here(st, t));
      t' := t;
    case ExprStmt(Some(e)) =>
      ExprGrows(st, e);
      t' := ExprRight(c, code, st, e, s, t);
    case Compound(decls, body) => t' := CompoundRight(c, code, st, decls, body, s, t, fuel);
    case If(cond, _, _) => t' := IfRight(c, code, st, stmt, s, t, fuel);
    case While(_, _) => t' := WhileRight(c, code, st, stmt, s, t, fuel);
    case Return(None) =>
      RetRight(c.m, code, st, [], t);
      t' := t;
    case Return(Some(e)) => t' := ReturnRight(c, code, st, e, s, t, fuel);
  }

  lemma ReturnRight(c: Context, code: I.Code, st: Gen, e: Expr, s: Store, t: R.State, fuel: nat) returns (t': R.State)
    requires Setting(c, st, s, t) && StmtOk(st.types, st.ret, Return(Some(e))) && Final(c, code, GenStmt(st, Return(Some(e))))
    ensures Followed(c, code, st, GenStmt(st, Return(Some(e))), t, Exec(c, st.types, Return(Some(e)), s, fuel), fuel, t')
  {
    var r := GenExpr(st, e);
    ExprGrows(st, e);
    var tag := Tag(st.types, e);
    var w := Converting(r.st, r.v, tag, st.ret.ty);
    ConvertingGrows(r.st, r.v, tag, st.ret.ty);
    EmitCovers(code, w.st, I.Ret, [w.v]);
    GrowsCovers(code, r.st, w.st);
    t' := ExprRight(c, code, st, e, s, t);
    var r1 := Eval(c, st.types, e, s);
    if r1.Val? {
      var t2 := ConvertingRight(c.m, code, r.st, r.v, tag, st.ret.ty, t');
      RetRight(c.m, code, w.st, [w.v], t2);
      var end := Done(R.Return(Convert(c.m, r1.v, tag, st.ret.ty)), r1.s.mem, r1.s.trace);
      ReachTrans(c.m, code, Here(r.st, t'), Here(w.st, t2), end);
      ReachTrans(c.m, code, Here(st, t), Here(r.st, t'), end);
    }
  }

  lemma {:induction false} CompoundRight(c: Context, code: I.Code, st: Gen, decls: seq<Decl>, body: seq<Stmt>, s: Store, t: R.State, fuel: nat)
    returns (t': R.State)
    requires Setting(c, st, s, t) && StmtOk(st.types, st.ret, Compound(decls, body)) && Final(c, code, GenStmt(st, Compound(decls, body)))
    ensures Followed(c, code, st, GenStmt(st, Compound(decls, body)), t, Exec(c, st.types, Compound(decls, body), s, fuel), fuel, t')
    decreases fuel, body, 2
  {
    var a := EnterScope(st);
    EnterRight(c, st, s, t);
    var b := GenDecls(a, decls);
    DeclsGrow(a, decls);
    var d := GenBody(b, body);
    BodyGrows(b, body);
    FinalSame(c, code, d, ExitScope(d));
    FinalLess(c, code, b, d, {b.cur}, {});
    var s1 := s.(env := s.env + [map[]]);
    var t1 := DeclsRight(c, code, a, decls, s1, t);
    var s2 := Declaring(c, s1, decls);
    t' := BodyRight(c, code, b, body, s2, t1, fuel);
    assert Outer(a.types) == st.types && Outer(a.addrs) == st.addrs;
    var res := ExecAll(c, b.types, body, s2, fuel);
    assert Exec(c, st.types, Compound(decls, body), s, fuel) == Leaving(res);
    LeavingRight(c, code, st, b, Here(b, t1), Here(d, t'), res, fuel, t');
    LeadsAfter(c, code, st, st, Here(st, t), Here(b, t1), Here(d, t'), Leaving(res), fuel, t');
  }

  /** The names of the inner scope are forgotten. */
  lemma LeavingRight(c: Context, code: I.Code, st: Gen, b: Gen, from: Config, to: Config, res: Result, fuel: nat, t': R.State)
    requires Leads(c, code, b, from, to, res, fuel, t') && b.types != [] && |b.addrs| == |b.types|
    requires Outer(b.types) == st.types && Outer(b.addrs) == st.addrs
    ensures Leads(c, code, st, from, to, Leaving(res), fuel, t') && (Leaving(res).Normal? ==> res.Normal?)
  {
    if res.Normal? {
      ExitRight(c.m, b.types, b.addrs, res.s, t');
    }
  }

  lemma {:induction false} BodyRight(c: Context, code: I.Code, st: Gen, body: seq<Stmt>, s: Store, t: R.State, fuel: nat) returns (t': R.State)
    requires Setting(c, st, s, t) && BodyOk(st.types, st.ret, body) && Final(c, code, GenBody(st, body))
    ensures Followed(c, code, st, GenBody(st, body), t, ExecAll(c, st.types, body, s, fuel), fuel, t')
    decreases fuel, body, 1
  {
    if body == [] {
      ReachRefl(c.m, code, Here(st, t));
      t' := t;
    } else {
      var st1 := GenStmt(st, body[0]);
      StmtGrows(st, body[0]);
      if st1.Terminated() {
        t' := StmtRight(c, code, st, body[0], s, t, fuel);
      } else {
        BodyGrows(st1, body[1..]);
        FinalLess(c, code, st1, GenBody(st1, body[1..]), {st1.cur}, {});
        t' := StmtRight(c, code, st, body[0], s, t, fuel);
        var r1 := Exec(c, st.types, body[0], s, fuel);
        if r1.Normal? {
          var t1 := t';
          ScopeGrows(st.types, st.addrs, st.nextId, st1.nextId);
          t' := BodyRight(c, code, st1, body[1..], r1.s, t1, fuel);
          LeadsAfter(c, code, st, st1, Here(st, t), Here(st1, t1), Here(GenBody(st, body), t'), ExecAll(c, st.types, body, s, fuel), fuel, t');
        }
      }
    }
  }

  lemma {:induction false} ArmRight(c: Context, code: I.Code, d: Gen, x: Block, stmt: Stmt, next: Block, s: Store, t: R.State, fuel: nat)
    returns (t': R.State)
    requires GraphOk(d) && x in d.code && d.code[x] == [] && next in d.code && x != next && StmtOk(d.types, d.ret, stmt) && d.ret == c.ret
    requires ScopeOk(d.types, d.addrs, d.nextId) && Agrees(c.m, d.types, d.addrs, s, t) && Final(c, code, GenArm(d, x, stmt, next))
    ensures Leads(c, code, d, Walking.At(x, 0, t), Walking.At(next, 0, t'), Exec(c, d.types, stmt, s, fuel), fuel, t')
    decreases fuel, stmt, 3
  {
    var d1 := d.Insert(x);
    InsertOk(d, x);
    var e := GenStmt(d1, stmt);
    StmtGrows(d1, stmt);
    assert PrefixAt(d1, e, next);
    BrIfOpenFinal(c, code, e, next);
    t' := StmtRight(c, code, d1, stmt, s, t, fuel);
    var res := Exec(c, d.types, stmt, s, fuel);
    if res.Normal? {
      BrRight(c.m, code, e, next, t');
      ReachTrans(c.m, code, Here(d1, t), Here(e, t'), Walking.At(next, 0, t'));
    }
  }

  lemma {:induction false} IfRight(c: Context, code: I.Code, st: Gen, stmt: Stmt, s: Store, t: R.State, fuel: nat) returns (t': R.State)
    requires stmt.If? && Setting(c, st, s, t) && StmtOk(st.types, st.ret, stmt) && Final(c, code, GenStmt(st, stmt))
    ensures Followed(c, code, st, GenStmt(st, stmt), t, Exec(c, st.types, stmt, s, fuel), fuel, t')
    decreases fuel, stmt, 1
  {
    var x := GenExpr(st, stmt.cond);
    ExprGrows(st, stmt.cond);
    var ty := Tag(st.types, stmt.cond);
    BranchGrows(x, ty, stmt);
    FinalLess(c, code, x.st, GenIf(x, ty, stmt), {x.st.cur}, {});
    t' := ExprRight(c, code, st, stmt.cond, s, t);
    var r1 := Eval(c, st.types, stmt.cond, s);
    assert Exec(c, st.types, stmt, s, fuel) == ExecIf(c, st.types, stmt, r1, fuel);
    if r1.Val? {
      var t1 := t';
      assert r1 == Val(r1.s, R.Eval(c.m, t1.regs, x.v));
      NextSetting(c, st, x.st, r1.s, t1);
      t' := BranchRight(c, code, x, ty, stmt, r1.s, t1, fuel);
      LeadsAfter(c, code, st, x.st, Here(st, t), Here(x.st, t1), Here(GenIf(x, ty, stmt), t'), ExecIf(c, st.types, stmt, r1, fuel), fuel, t');
    }
  }

  lemma {:induction false} BranchRight(c: Context, code: I.Code, x: Out, ty: Ty, stmt: Stmt, s: Store, t: R.State, fuel: nat) returns (t': R.State)
    requires stmt.If? && Setting(c, x.st, s, t) && StmtOk(x.st.types, x.st.ret, stmt) && ty == Tag(x.st.types, stmt.cond) && Final(c, code, GenIf(x, ty, stmt))
    ensures Leads(c, code, x.st, Here(x.st, t), Here(GenIf(x, ty, stmt), t'), ExecIf(c, x.st.types, stmt, Val(s, R.Eval(c.m, t.regs, x.v)), fuel), fuel, t')
    decreases fuel, stmt, 0, 2
  {
    if stmt.no.None? {
      t' := ThenRight(c, code, x, ty, stmt, s, t, fuel);
    } else {
      t' := ElseRight(c, code, x, ty, stmt, s, t, fuel);
    }
  }

  lemma {:induction false} ThenRight(c: Context, code: I.Code, x: Out, ty: Ty, stmt: Stmt, s: Store, t: R.State, fuel: nat) returns (t': R.State)
    requires stmt.If? && stmt.no.None? && Setting(c, x.st, s, t) && StmtOk(x.st.types, x.st.ret, stmt) && ty == Tag(x.st.types, stmt.cond)
    requires Final(c, code, GenIf(x, ty, stmt))
    ensures Leads(c, code, x.st, Here(x.st, t), Here(GenIf(x, ty, stmt), t'), ExecIf(c, x.st.types, stmt, Val(s, R.Eval(c.m, t.regs, x.v)), fuel), fuel, t')
    decreases fuel, stmt, 0, 1
  {
    IfFinal(c, code, x, ty, stmt);
    var t1 := ForkRight(c, code, x.st, x.v, ty, t);
    AgreesKept(c.m, x.st.types, x.st.addrs, x.st.nextId, s, t, t1);
    t' := ChosenRight(c, code, x.st, Fork(x.st, x.v, ty), x.st.Fresh(), stmt, Here(x.st, t), s, R.Eval(c.m, t.regs, x.v), t1, fuel);
  }

  lemma {:induction false} ChosenRight(c: Context, code: I.Code, st: Gen, d: Gen, n: Block, stmt: Stmt, from: Config, s: Store, v: int, t: R.State, fuel: nat)
    returns (t': R.State)
    requires stmt.If? && stmt.no.None? && ArmReady(c, code, st, d, n, stmt.yes, n + 1) && Setting(c, st, s, t)
    requires Reach(c.m, code, from, Walking.At(if IsTrue(c.m, v, Tag(st.types, stmt.cond)) then n else n + 1, 0, t))
    ensures Leads(c, code, st, from, Walking.At(n + 1, 0, t'), ExecIf(c, st.types, stmt, Val(s, v), fuel), fuel, t')
    decreases fuel, stmt, 0, 0
  {
    t' := t;
    if IsTrue(c.m, v, Tag(st.types, stmt.cond)) {
      t' := ArmFrom(c, code, st, d, n, stmt.yes, n + 1, from, s, t, fuel);
    }
  }

  lemma {:induction false} ElseRight(c: Context, code: I.Code, x: Out, ty: Ty, stmt: Stmt, s: Store, t: R.State, fuel: nat) returns (t': R.State)
    requires stmt.If? && stmt.no.Some? && Setting(c, x.st, s, t) && StmtOk(x.st.types, x.st.ret, stmt) && ty == Tag(x.st.types, stmt.cond)
    requires Final(c, code, GenIf(x, ty, stmt))
    ensures Leads(c, code, x.st, Here(x.st, t), Here(GenIf(x, ty, stmt), t'), ExecIf(c, x.st.types, stmt, Val(s, R.Eval(c.m, t.regs, x.v)), fuel), fuel, t')
    decreases fuel, stmt, 0, 1
  {
    var n := x.st.Fresh();
    var d := ForkElse(x.st, x.v, ty);
    IfElseFinal(c, code, x, ty, stmt);
    var t1 := ForkElseRight(c, code, x.st, x.v, ty, t);
    AgreesKept(c.m, x.st.types, x.st.addrs, x.st.nextId, s, t, t1);
    if IsTrue(c.m, R.Eval(c.m, t.regs, x.v), ty) {
      t' := ArmFrom(c, code, x.st, d, n, stmt.yes, n + 1, Here(x.st, t), s, t1, fuel);
    } else {
      t' := ArmFrom(c, code, x.st, GenArm(d, n, stmt.yes, n + 1), n + 2, stmt.no.value, n + 1, Here(x.st, t), s, t1, fuel);
    }
  }

  /** The empty block `b` of `d` is about to be filled with an arm. */
  ghost predicate ArmReady(c: Context, code: I.Code, st: Gen, d: Gen, b: Block, stmt: Stmt, next: Block) {
    && GraphOk(d) && b in d.code && d.code[b] == [] && next in d.code && b != next && StmtOk(d.types, d.ret, stmt)
    && SameNames(st, d) && st.nextId <= d.nextId && Final(c, code, GenArm(d, b, stmt, next))
  }

  lemma {:induction false} ArmFrom(c: Context, code: I.Code, st: Gen, d: Gen, b: Block, stmt: Stmt, next: Block, from: Config, s: Store, t: R.State, fuel: nat)
    returns (t': R.State)
    requires ArmReady(c, code, st, d, b, stmt, next) && ScopeOk(st.types, st.addrs, st.nextId) && Agrees(c.m, st.types, st.addrs, s, t) && st.ret == c.ret
    requires Reach(c.m, code, from, Walking.At(b, 0, t))
    ensures Leads(c, code, st, from, Walking.At(next, 0, t'), Exec(c, st.types, stmt, s, fuel), fuel, t')
    decreases fuel, stmt, 4
  {
    ScopeGrows(st.types, st.addrs, st.nextId, d.nextId);
    t' := ArmRight(c, code, d, b, stmt, next, s, t, fuel);
    LeadsAfter(c, code, st, d, from, Walking.At(b, 0, t), Walking.At(next, 0, t'), Exec(c, st.types, stmt, s, fuel), fuel, t');
  }

  lemma IfFinal(c: Context, code: I.Code, x: Out, ty: Ty, stmt: Stmt)
    requires stmt.If? && stmt.no.None? && Ready(x.st) && StmtOk(x.st.types, x.st.ret, stmt) && Final(c, code, GenIf(x, ty, stmt))
    ensures var n := x.st.Fresh(); var d := Fork(x.st, x.v, ty);
            && Covers(code, d) && ArmReady(c, code, x.st, d, n, stmt.yes, n + 1)
            && forall t :: Here(GenIf(x, ty, stmt), t) == Walking.At(n + 1, 0, t)
  {
    var n := x.st.Fresh();
    var d := Fork(x.st, x.v, ty);
    ForkGrows(x.st, x.v, ty);
    assert ForkedBlock(d, n, x.st.cur, n, n + 1) && ForkedBlock(d, n + 1, x.st.cur, n, n + 1);
    var f := GenArm(d, n, stmt.yes, n + 1);
    ArmGrows(d, n, stmt.yes, n + 1);
    FinalSame(c, code, f, f.Insert(n + 1));
    FinalLess(c, code, d, f, {n}, {n + 1});
    assert SameBody(d, f, n + 1);
  }

  lemma ElseFinal(c: Context, code: I.Code, st: Gen, d: Gen, n: Block, e: Block, next: Block, yes: Stmt, no: Stmt, f: Gen, h: Gen)
    requires GraphOk(d) && ForkedBlock(d, n, st.cur, n, e) && ForkedBlock(d, next, st.cur, n, e) && ForkedBlock(d, e, st.cur, n, e)
    requires n != next && e != next && n != e && SameNames(st, d) && st.nextId <= d.nextId
    requires StmtOk(d.types, d.ret, yes) && StmtOk(d.types, d.ret, no)
    requires f == GenArm(d, n, yes, next) && h == GenArm(f, e, no, next) && Final(c, code, h)
    ensures Covers(code, d) && ArmReady(c, code, st, d, n, yes, next) && ArmReady(c, code, st, f, e, no, next)
    ensures next in h.code && h.code[next] == []
  {
    ArmGrows(d, n, yes, next);
    assert SameBody(d, f, next) && SameBody(d, f, e);
    SecondArm(c, code, st, f, e, no, next);
    FinalLess(c, code, d, f, {n}, {next});
  }

  lemma SecondArm(c: Context, code: I.Code, st: Gen, f: Gen, b: Block, no: Stmt, next: Block)
    requires GraphOk(f) && b in f.code && f.code[b] == [] && next in f.code && f.code[next] == [] && b != next && SameNames(st, f)
    requires StmtOk(f.types, f.ret, no) && st.nextId <= f.nextId && Final(c, code, GenArm(f, b, no, next))
    ensures var h := GenArm(f, b, no, next); ArmReady(c, code, st, f, b, no, next) && Final(c, code, f) && next in h.code && h.code[next] == []
  {
    var h := GenArm(f, b, no, next);
    ArmGrows(f, b, no, next);
    assert SameBody(f, h, next);
    FinalLess(c, code, f, h, {b}, {next});
  }

  lemma ElseForked(st: Gen, v: I.Value, ty: Ty, d: Gen, n: Block, e: Block, next: Block)
    requires Ready(st) && d == ForkElse(st, v, ty) && n == st.Fresh() && next == n + 1 && e == n + 2
    ensures GraphOk(d) && SameNames(st, d) && st.nextId <= d.nextId
    ensures ForkedBlock(d, n, st.cur, n, e) && ForkedBlock(d, next, st.cur, n, e) && ForkedBlock(d, e, st.cur, n, e)
  {
    ForkElseGrows(st, v, ty);
  }

  lemma ArmsFinal(c: Context, code: I.Code, st: Gen, v: I.Value, ty: Ty, stmt: Stmt, d: Gen, n: Block, e: Block, next: Block, f: Gen, h: Gen, r: Gen)
    requires stmt.If? && stmt.no.Some? && Ready(st) && StmtOk(st.types, st.ret, stmt) && Final(c, code, r)
    requires n == st.Fresh() && next == n + 1 && e == n + 2 && d == ForkElse(st, v, ty)
    requires f == GenArm(d, n, stmt.yes, next) && h == GenArm(f, e, stmt.no.value, next) && r == h.Insert(next)
    ensures Covers(code, d) && ArmReady(c, code, st, d, n, stmt.yes, next) && ArmReady(c, code, st, f, e, stmt.no.value, next)
    ensures next in h.code && h.code[next] == []
  {
    ElseForked(st, v, ty, d, n, e, next);
    FinalSame(c, code, h, r);
    ElseFinal(c, code, st, d, n, e, next, stmt.yes, stmt.no.value, f, h);
  }

  lemma IfElseFinal(c: Context, code: I.Code, x: Out, ty: Ty, stmt: Stmt)
    requires stmt.If? && stmt.no.Some? && Ready(x.st) && StmtOk(x.st.types, x.st.ret, stmt) && Final(c, code, GenIf(x, ty, stmt))
    ensures var n := x.st.Fresh(); var d := ForkElse(x.st, x.v, ty); var f := GenArm(d, n, stmt.yes, n + 1);
            && Covers(code, d) && ArmReady(c, code, x.st, d, n, stmt.yes, n + 1) && ArmReady(c, code, x.st, f, n + 2, stmt.no.value, n + 1)
            && forall t :: Here(GenIf(x, ty, stmt), t) == Walking.At(n + 1, 0, t)
  {
    var n := x.st.Fresh();
    var e, next, d, r := n + 2, n + 1, ForkElse(x.st, x.v, ty), GenIf(x, ty, stmt);
    var f := GenArm(d, n, stmt.yes, next);
    var h := GenArm(f, e, stmt.no.value, next);
    ElseIs(x, ty, stmt, n, e, next, d, f, h);
    ArmsFinal(c, code, x.st, x.v, ty, stmt, d, n, e, next, f, h, r);
  }

  /** On entry to the loop. */
  lemma LoopEntered(c: Context, code: I.Code, st: Gen, stmt: Stmt, s: Store, t: R.State, head: Block, h: Gen, x: Out, r: Gen)
    requires stmt.While? && Setting(c, st, s, t) && StmtOk(st.types, st.ret, stmt) && Final(c, code, r)
    requires head == st.Fresh() && h == st.NewBlock().BrIfOpen(head).Insert(head) && x == GenExpr(h, stmt.cond)
    requires r == GenLoop(x, Tag(h.types, stmt.cond), head, stmt.loop)
    ensures LoopOk(c, code, h, x, Fork(x.st, x.v, Tag(h.types, stmt.cond)), stmt) && Setting(c, h, s, t) && h.cur == head
    ensures h.types == st.types && h.addrs == st.addrs && Reach(c.m, code, Here(st, t), Walking.At(head, 0, t))
    ensures r.cur in r.code && r.code[r.cur] == []
  {
    HeadGrows(st);
    LoopFinal(c, code, h, x, stmt);
    HeadRight(c, code, st, t);
    ScopeGrows(st.types, st.addrs, st.nextId, h.nextId);
  }

  lemma {:induction false} WhileRight(c: Context, code: I.Code, st: Gen, stmt: Stmt, s: Store, t: R.State, fuel: nat) returns (t': R.State)
    requires stmt.While? && Setting(c, st, s, t) && StmtOk(st.types, st.ret, stmt) && Final(c, code, GenStmt(st, stmt))
    ensures Followed(c, code, st, GenStmt(st, stmt), t, Exec(c, st.types, stmt, s, fuel), fuel, t')
    decreases fuel, stmt, 1
  {
    var head := st.Fresh();
    var h := st.NewBlock().BrIfOpen(head).Insert(head);
    var x := GenExpr(h, stmt.cond);
    var r := GenStmt(st, stmt);
    WhileIs(st, stmt.cond, stmt.loop, head, h);
    LoopEntered(c, code, st, stmt, s, t, head, h, x, r);
    var res := Exec(c, st.types, stmt, s, fuel);
    t' := LoopRight(c, code, h, x, Fork(x.st, x.v, Tag(h.types, stmt.cond)), stmt, s, t, fuel, res);
    LeadsAfter(c, code, st, h, Here(st, t), Walking.At(head, 0, t), Walking.At(x.st.Fresh() + 1, 0, t'), res, fuel, t');
  }

  /** The jump to the head of a loop. */
  lemma HeadRight(c: Context, code: I.Code, st: Gen, t: R.State)
    requires Ready(st) && Covers(code, st.NewBlock().BrIfOpen(st.Fresh()).Insert(st.Fresh()))
    ensures Reach(c.m, code, Here(st, t), Walking.At(st.Fresh(), 0, t))
  {
    var a := st.NewBlock();
    NewBlockOk(st);
    assert SameBody(st, a, st.cur);
    var b := a.Br(st.Fresh());
    forall y | y in b.code
      ensures CoversAt(code, b, y)
    {
      assert CoversAt(code, b.Insert(st.Fresh()), y);
    }
    BrRight(c.m, code, a, st.Fresh(), t);
  }

  /** What is known of the code of a loop. */
  ghost predicate LoopOk(c: Context, code: I.Code, h: Gen, x: Out, d: Gen, stmt: Stmt) {
    && stmt.While? && IsNumber(TypeOf(h.types, stmt.cond)) && x == GenExpr(h, stmt.cond)
    && d == Fork(x.st, x.v, Tag(h.types, stmt.cond)) && h.cur in h.code && h.code[h.cur] == []
    && Covers(code, x.st) && Covers(code, d) && ArmReady(c, code, h, d, x.st.Fresh(), stmt.loop, h.cur)
  }

  lemma LoopFinal(c: Context, code: I.Code, h: Gen, x: Out, stmt: Stmt)
    requires stmt.While? && Ready(h) && StmtOk(h.types, h.ret, stmt) && h.cur in h.code && h.code[h.cur] == [] && x == GenExpr(h, stmt.cond)
    requires Final(c, code, GenLoop(x, Tag(h.types, stmt.cond), h.cur, stmt.loop))
    ensures LoopOk(c, code, h, x, Fork(x.st, x.v, Tag(h.types, stmt.cond)), stmt) && Final(c, code, h)
    ensures var r := GenLoop(x, Tag(h.types, stmt.cond), h.cur, stmt.loop); r.cur in r.code && r.code[r.cur] == []
  {
    ExprGrows(h, stmt.cond);
    LoopForked(c, code, h, x, Tag(h.types, stmt.cond), stmt.loop);
  }

  lemma LoopForked(c: Context, code: I.Code, h: Gen, x: Out, ty: Ty, loop: Stmt)
    requires Ready(h) && h.code[h.cur] == [] && Ready(x.st) && Grows(h, x.st) && SameNames(h, x.st) && StmtOk(h.types, h.ret, loop)
    requires Final(c, code, GenLoop(x, ty, h.cur, loop))
    ensures var d := Fork(x.st, x.v, ty); var r := GenLoop(x, ty, h.cur, loop);
            && ArmReady(c, code, h, d, x.st.Fresh(), loop, h.cur) && Covers(code, d) && Covers(code, x.st) && Final(c, code, h)
            && r.cur in r.code && r.code[r.cur] == []
  {
    ForkGrows(x.st, x.v, ty);
    LoopPieces(c, code, h, x.st, Fork(x.st, x.v, ty), x.st.Fresh(), loop);
  }

  lemma LoopPieces(c: Context, code: I.Code, h: Gen, x: Gen, d: Gen, n: Block, loop: Stmt)
    requires Ready(h) && h.code[h.cur] == [] && Grows(h, x) && Forked(x, d, n, n + 1, {n, n + 1}) && SameNames(h, d) && StmtOk(d.types, d.ret, loop)
    requires x.nextId <= d.nextId && Final(c, code, GenArm(d, n, loop, h.cur).Insert(n + 1))
    ensures var f := GenArm(d, n, loop, h.cur);
            && ArmReady(c, code, h, d, n, loop, h.cur) && Covers(code, d) && Covers(code, x) && Final(c, code, h)
            && n + 1 in f.code && f.code[n + 1] == []
  {
    assert PrefixAt(h, x, h.cur) && PrefixAt(x, d, h.cur);
    assert ForkedBlock(d, n, x.cur, n, n + 1) && ForkedBlock(d, n + 1, x.cur, n, n + 1);
    var f := GenArm(d, n, loop, h.cur);
    ArmGrows(d, n, loop, h.cur);
    assert SameBody(d, f, n + 1);
    FinalSame(c, code, f, f.Insert(n + 1));
    FinalLess(c, code, d, f, {n}, {h.cur});
    FinalLess(c, code, x, d, {x.cur}, {});
    FinalLess(c, code, h, x, {h.cur}, {});
  }

  ghost predicate Gives(c: Context, types: Scopes<Shape>, stmt: Stmt, s: Store, fuel: nat, res: Result) {
    res == Exec(c, types, stmt, s, fuel)
  }

  /** From the head of a loop: an iteration leads back to it. */
  lemma {:induction false} LoopRight(c: Context, code: I.Code, h: Gen, x: Out, d: Gen, stmt: Stmt, s: Store, t: R.State, fuel: nat, res: Result)
    returns (t': R.State)
    requires LoopOk(c, code, h, x, d, stmt) && Gives(c, h.types, stmt, s, fuel, res) && Setting(c, h, s, t)
    ensures Leads(c, code, h, Walking.At(h.cur, 0, t), Walking.At(x.st.Fresh() + 1, 0, t'), res, fuel, t')
    decreases fuel, stmt, 0
  {
    t' := t;
    var start := Walking.At(h.cur, 0, t);
    if fuel == 0 {
      assert Walk(c.m, code, start, 0).At?;
    } else {
      ExprGrows(h, stmt.cond);
      var t1 := ExprRight(c, code, h, stmt.cond, s, t);
      var r1 := Eval(c, h.types, stmt.cond, s);
      assert res == ExecLoop(c, h.types, stmt, r1, fuel);
      if r1.Val? {
        assert r1 == Val(r1.s, r1.v);
        t' := TestedRight(c, code, h, x, d, stmt, r1.s, r1.v, t, t1, fuel);
      }
    }
  }

  /** A loop behind the evaluation of its condition. */
  lemma {:induction false} TestedRight(c: Context, code: I.Code, h: Gen, x: Out, d: Gen, stmt: Stmt, s: Store, v: int, t: R.State, t1: R.State, fuel: nat)
    returns (t': R.State)
    requires LoopOk(c, code, h, x, d, stmt) && fuel > 0 && ScopeOk(h.types, h.addrs, h.nextId) && Ready(h) && h.ret == c.ret
    requires GrownTo(h, x) && Reach(c.m, code, Walking.At(h.cur, 0, t), Here(x.st, t1)) && Agrees(c.m, h.types, h.addrs, s, t1) && R.Eval(c.m, t1.regs, x.v) == v
    ensures Leads(c, code, h, Walking.At(h.cur, 0, t), Walking.At(x.st.Fresh() + 1, 0, t'), ExecLoop(c, h.types, stmt, Val(s, v), fuel), fuel, t')
    decreases fuel, stmt.loop, 6
  {
    var ty, n := Tag(h.types, stmt.cond), x.st.Fresh();
    ScopeGrows(h.types, h.addrs, h.nextId, x.st.nextId);
    var t2 := ForkRight(c, code, x.st, x.v, ty, t1);
    AgreesKept(c.m, h.types, h.addrs, x.st.nextId, s, t1, t2);
    var go := IsTrue(c.m, v, ty);
    ReachTrans(c.m, code, Walking.At(h.cur, 0, t), Here(x.st, t1), Walking.At(if go then n else n + 1, 0, t2));
    t' := t2;
    if go {
      t' := IterationRight(c, code, h, x, d, stmt, s, Walking.At(h.cur, 0, t), t2, fuel);
    }
  }

  /** The body of a loop and what follows it. */
  lemma {:induction false} IterationRight(c: Context, code: I.Code, h: Gen, x: Out, d: Gen, stmt: Stmt, s: Store, start: Config, t2: R.State, fuel: nat)
    returns (t': R.State)
    requires LoopOk(c, code, h, x, d, stmt) && fuel > 0 && Ready(h) && h.ret == c.ret && ScopeOk(h.types, h.addrs, h.nextId) && Agrees(c.m, h.types, h.addrs, s, t2)
    requires Reach(c.m, code, start, Walking.At(x.st.Fresh(), 0, t2)) && start.At? && start.b == h.cur
    ensures Leads(c, code, h, start, Walking.At(x.st.Fresh() + 1, 0, t'), ExecAgain(c, h.types, stmt, Exec(c, h.types, stmt.loop, s, fuel), fuel), fuel, t')
    decreases fuel, stmt.loop, 5
  {
    var body := Walking.At(x.st.Fresh(), 0, t2);
    ReachRefl(c.m, code, body);
    t' := ArmFrom(c, code, h, d, x.st.Fresh(), stmt.loop, h.cur, body, s, t2, fuel);
    var r2 := Exec(c, h.types, stmt.loop, s, fuel);
    if r2.Normal? {
      t' := AgainRight(c, code, h, x, d, stmt, r2, start, body, t', fuel, fuel - 1);
    } else {
      LeadsAfter(c, code, h, h, start, body, Walking.At(h.cur, 0, t'), r2, fuel, t');
    }
  }

  lemma {:induction false} AgainRight(c: Context, code: I.Code, h: Gen, x: Out, d: Gen, stmt: Stmt, r2: Result, start: Config, body: Config, t3: R.State, fuel: nat, less: nat)
    returns (t': R.State)
    requires LoopOk(c, code, h, x, d, stmt) && r2.Normal? && fuel == less + 1 && Setting(c, h, r2.s, t3)
    requires Reach(c.m, code, start, body) && start != body && Reach(c.m, code, body, Walking.At(h.cur, 0, t3))
    ensures Leads(c, code, h, start, Walking.At(x.st.Fresh() + 1, 0, t'), ExecAgain(c, h.types, stmt, r2, fuel), fuel, t')
    decreases fuel, stmt.loop, 4
  {
    var res := Exec(c, h.types, stmt, r2.s, less);
    t' := LoopRight(c, code, h, x, d, stmt, r2.s, t3, less, res);
    LeadsTwice(c, code, h, start, body, Walking.At(h.cur, 0, t3), Walking.At(x.st.Fresh() + 1, 0, t'), res, less, t');
  }
}
