/**
  Statements and whole functions: every control-flow graph that is generated is well formed.
 */
module WellFormed {
  import opened Options
  import opened Syntax
  import opened Cfg
  import I = Ir
  import opened Meaning
  import opened Generator
  import opened Emitted

  // ----- one arm of a branch -----

  ghost predicate Finished(f: Gen, y: Block) {
    y in f.g.pred && |f.g.pred[y]| <= 2 && y in f.code && IsClosed(f.code[y])
  }

  /** The arm that starts in the empty block `x` has been generated and leads on to `cont`. */
  ghost predicate ArmDone(d: Gen, f: Gen, x: Block, cont: Block) {
    && GraphOk(f) && Step(d, f, {x}, {cont}) && x in f.code && IsClosed(f.code[x])
    && (forall y {:trigger Finished(f, y)} :: y in f.code && y !in d.code ==> Finished(f, y))
    && cont in d.g.pred && cont in f.g.pred && |f.g.pred[cont]| <= |d.g.pred[cont]| + 1
  }

  lemma BrIfOpenOk(e: Gen, cont: Block)
    requires GraphOk(e) && cont in e.code
    ensures var f := e.BrIfOpen(cont);
            && GraphOk(f) && Step(e, f, {e.cur}, {cont}) && e.cur in f.code && IsClosed(f.code[e.cur])
            && f.code.Keys == e.code.Keys && f.cur == e.cur
            && cont in e.g.pred && cont in f.g.pred && |f.g.pred[cont]| <= |e.g.pred[cont]| + 1
  {
    assert BlockOk(e, cont);
    if e.Terminated() {
      StepRefl(e);
    } else {
      BrOk(e, cont);
    }
  }

  lemma StepRefl(st: Gen)
    requires GraphOk(st)
    ensures Step(st, st, {st.cur}, {}) && forall t: set<Block> :: Step(st, st, {st.cur}, t)
  {
    forall b | b in st.code
      ensures PrefixAt(st, st, b) && SameBody(st, st, b) && SamePreds(st, st, b)
    {
    }
  }

  lemma ArmOk(d: Gen, x: Block, e: Gen, cont: Block)
    requires GraphOk(d) && x in d.code && cont in d.code && x != cont
    requires Grows(d.Insert(x), e) && GraphOk(e)
    ensures ArmDone(d, e.BrIfOpen(cont), x, cont)
  {
    InsertOk(d, x);
    var d1 := d.Insert(x);
    assert PrefixAt(d1, e, cont);
    BrIfOpenOk(e, cont);
    var f := e.BrIfOpen(cont);
    StepTrans(d, d1, e, {}, {}, {x}, {});
    StepTrans(d, e, f, {} + {x}, {} + {}, {e.cur}, {cont});
    StepWeaken(d, f, {} + {x} + {e.cur}, {} + {} + {cont}, {x}, {cont});
    if e.cur != x {
      assert SameBody(e, f, x);
    }
    assert SamePreds(d1, e, cont);
    forall y | y in f.code && y !in d.code
      ensures Finished(f, y)
    {
      assert NewOk(d1, e, y);
      assert SamePreds(e, f, y);
      assert y != e.cur ==> SameBody(e, f, y);
    }
  }

  /** A fork, one arm, and on to the block behind it. */
  lemma OneArmGrows(st: Gen, d: Gen, f: Gen, x: Block, cont: Block)
    requires Forked(st, d, x, cont, {x, cont}) && x != cont && ArmDone(d, f, x, cont)
    ensures Ready(f.Insert(cont)) && Grows(st, f.Insert(cont))
  {
    assert ForkedBlock(d, x, st.cur, x, cont) && ForkedBlock(d, cont, st.cur, x, cont);
    assert SamePreds(d, f, x) && SameBody(d, f, st.cur) && SameBody(d, f, cont);
    InsertOk(f, cont);
    var r := f.Insert(cont);
    StepTrans(st, d, f, {st.cur}, {}, {x}, {cont});
    StepTrans(st, f, r, {st.cur} + {x}, {} + {cont}, {}, {});
    StepWeaken(st, r, {st.cur} + {x} + {}, {} + {cont} + {}, {st.cur}, {});
    forall y | y in r.code && y !in st.code
      ensures NewOk(st, r, y)
    {
      assert y in d.code || Finished(f, y);
    }
  }

  /** A fork, two arms, and on to the block behind them. */
  lemma TwoArmsGrow(st: Gen, d: Gen, f: Gen, h: Gen, x: Block, y: Block, cont: Block)
    requires Forked(st, d, x, y, {x, y, cont}) && x != y && x != cont && y != cont
    requires ArmDone(d, f, x, cont) && ArmDone(f, h, y, cont)
    ensures Ready(h.Insert(cont)) && Grows(st, h.Insert(cont))
  {
    assert ForkedBlock(d, x, st.cur, x, y) && ForkedBlock(d, y, st.cur, x, y) && ForkedBlock(d, cont, st.cur, x, y);
    assert PrefixAt(d, f, st.cur) && PrefixAt(d, f, x) && PrefixAt(d, f, y) && PrefixAt(d, f, cont);
    assert SameBody(d, f, st.cur) && SameBody(f, h, st.cur) && SameBody(f, h, x);
    assert SamePreds(d, f, x) && SamePreds(f, h, x) && SamePreds(d, f, y) && SamePreds(f, h, y);
    assert SameBody(d, f, cont) && SameBody(f, h, cont);
    InsertOk(h, cont);
    var r := h.Insert(cont);
    StepTrans(st, d, f, {st.cur}, {}, {x}, {cont});
    StepTrans(st, f, h, {st.cur} + {x}, {} + {cont}, {y}, {cont});
    StepTrans(st, h, r, {st.cur} + {x} + {y}, {} + {cont} + {cont}, {}, {});
    StepWeaken(st, r, {st.cur} + {x} + {y} + {}, {} + {cont} + {cont} + {}, {st.cur}, {});
    forall z | z in r.code && z !in st.code
      ensures NewOk(st, r, z)
    {
      if z !in d.code {
        if z in f.code {
          assert Finished(f, z) && SameBody(f, h, z) && SamePreds(f, h, z);
        } else {
          assert Finished(h, z);
        }
      }
    }
  }

  lemma ForkGrows(st: Gen, v: I.Value, ty: Ty)
    requires Ready(st)
    ensures var n := st.Fresh();
            n !in st.code && n + 1 !in st.code && Forked(st, Fork(st, v, ty), n, n + 1, {n, n + 1})
  {
    var n := st.Fresh();
    var a := st.NewBlock().NewBlock();
    TwoFresh(st);
    var test := GenTest(a, v, ty);
    ComputingGrows(a, OpCode(Neq, ty), [v, I.ConstantInt(0)]);
    assert test.st.code.Keys == a.code.Keys;
    ForkOk(st, a, test.st, test.v, n, n + 1, {n, n + 1});
  }

  lemma ForkElseGrows(st: Gen, v: I.Value, ty: Ty)
    requires Ready(st)
    ensures var n := st.Fresh();
            && n !in st.code && n + 1 !in st.code && n + 2 !in st.code
            && Forked(st, ForkElse(st, v, ty), n, n + 2, {n, n + 2, n + 1})
  {
    var n := st.Fresh();
    var a := st.NewBlock().NewBlock();
    TwoFresh(st);
    var test := GenTest(a, v, ty);
    ComputingGrows(a, OpCode(Neq, ty), [v, I.ConstantInt(0)]);
    assert test.st.code.Keys == a.code.Keys;
    StillFresh(st, a, test.st, {n, n + 1});
    ThirdFresh(st, test.st, {n, n + 1}, test.v, n, n + 1);
    assert test.st.Fresh() == n + 2;
  }

  lemma ThirdFresh(st: Gen, mid: Gen, added: set<Block>, c: I.Value, x: Block, cont: Block)
    requires Ready(mid) && Step(st, mid, {st.cur}, {}) && mid.cur == st.cur && st.cur in st.code
    requires added == {x, cont} && x != cont && added !! st.code.Keys && mid.code.Keys == st.code.Keys + added
    requires forall z {:trigger EmptyBlock(mid, z)} :: z in added ==> EmptyBlock(mid, z)
    ensures var y := mid.Fresh(); y !in mid.code && Forked(st, mid.NewBlock().CondBr(c, x, y), x, y, {x, y, cont})
  {
    var y := mid.Fresh();
    NewBlockOk(mid);
    var m2 := mid.NewBlock();
    assert SameBody(mid, m2, st.cur);
    forall z | z in {x, y, cont}
      ensures EmptyBlock(m2, z)
    {
      assert z in added ==> EmptyBlock(mid, z) && SamePreds(mid, m2, z);
    }
    assert EmptyBlock(m2, x) && EmptyBlock(m2, y) && EmptyBlock(m2, cont);
    CondBrOk(m2, c, x, y);
    var d := m2.CondBr(c, x, y);
    StepTrans(st, mid, m2, {st.cur}, {}, {}, {});
    StepTrans(st, m2, d, {st.cur} + {}, {} + {}, {st.cur}, {x, y});
    StepWeaken(st, d, {st.cur} + {} + {st.cur}, {} + {} + {x, y}, {st.cur}, {});
    forall z | z in {x, y, cont}
      ensures ForkedBlock(d, z, st.cur, x, y)
    {
      assert EmptyBlock(m2, z) && SameBody(m2, d, z);
      assert z == cont ==> SamePreds(m2, d, z);
    }
  }

  // ----- scopes -----

  /** The two states differ only in what is in scope. */
  predicate SameCode(a: Gen, b: Gen) {
    b.g == a.g && b.code == a.code && b.cur == a.cur && b.nextId == a.nextId && b.ret == a.ret && a.homes <= b.homes
  }

  lemma SameCodeOk(a: Gen, b: Gen)
    requires GraphOk(a) && SameCode(a, b)
    ensures GraphOk(b) && b.Terminated() == a.Terminated()
  {
    forall x | x in b.code
      ensures BlockOk(b, x)
    {
      assert BlockOk(a, x);
    }
    forall k: nat | k < |b.g.blocks|
      ensures Listed(b, k)
    {
      assert Listed(a, k);
    }
  }

  lemma SameCodeGrows(a: Gen, b: Gen, c: Gen, d: Gen)
    requires Grows(b, c) && SameCode(a, b) && SameCode(c, d)
    ensures Grows(a, d)
  {
    forall x | x in a.code
      ensures PrefixAt(a, d, x) && (x != a.cur ==> SameBody(a, d, x)) && SamePreds(a, d, x)
    {
      assert PrefixAt(b, c, x) && SamePreds(b, c, x);
      assert x != b.cur ==> SameBody(b, c, x);
    }
    forall x | x in d.code && x !in a.code
      ensures NewOk(a, d, x)
    {
      assert NewOk(b, c, x);
    }
  }

  lemma DeclGrows(st: Gen, d: Decl)
    requires Ready(st)
    ensures var r := GenDecl(st, d);
            && Ready(r) && Grows(st, r) && r.types == Push(st.types, d.name, ShapeOf(d)) && |r.addrs| == |st.addrs| && r.ret == st.ret
            && Outer(r.types) == Outer(st.types) && Outer(r.addrs) == Outer(st.addrs)
  {
    var op := I.Alloca(d.len.None?);
    EmitGrows(st, op, []);
    SameCodeOk(st.Emit(op, []), GenDecl(st, d));
    SameCodeGrows(st, st, st.Emit(op, []), GenDecl(st, d));
  }

  lemma {:induction false} DeclsGrow(st: Gen, decls: seq<Decl>)
    requires Ready(st)
    ensures var r := GenDecls(st, decls);
            && Ready(r) && Grows(st, r) && r.types == Declared(st.types, decls) && |r.addrs| == |st.addrs| && r.ret == st.ret
            && Outer(r.types) == Outer(st.types) && Outer(r.addrs) == Outer(st.addrs)
    decreases decls
  {
    if decls == [] {
      GrowsRefl(st);
    } else {
      var st1 := GenDecl(st, decls[0]);
      DeclGrows(st, decls[0]);
      DeclsGrow(st1, decls[1..]);
      GrowsTrans(st, st1, GenDecls(st1, decls[1..]));
    }
  }

  // ----- statements -----

  ghost predicate StmtDone(st: Gen, r: Gen) {
    GraphOk(r) && Grows(st, r) && r.types == st.types && r.addrs == st.addrs && r.ret == st.ret
  }

  lemma {:induction false} StmtGrows(st: Gen, s: Stmt)
    requires Ready(st) && StmtOk(st.types, st.ret, s)
    ensures StmtDone(st, GenStmt(st, s))
    decreases s, 3
  {
    match s
    case ExprStmt(None) => GrowsRefl(st);
    case ExprStmt(Some(e)) => ExprGrows(st, e);
    case Compound(decls, body) => CompoundGrows(st, decls, body);
    case If(cond, _, _) =>
      var c := GenExpr(st, cond);
      ExprGrows(st, cond);
      BranchGrows(c, Tag(st.types, cond), s);
      GrowsTrans(st, c.st, GenStmt(st, s));
    case While(cond, loop) => WhileGrows(st, cond, loop);
    case Return(None) => EmitGrows(st, I.Ret, []);
    case Return(Some(e)) =>
      var r := GenExpr(st, e);
      ExprGrows(st, e);
      var w := Converting(r.st, r.v, Tag(st.types, e), st.ret.ty);
      ConvertingGrows(r.st, r.v, Tag(st.types, e), st.ret.ty);
      GrowsTrans(st, r.st, w.st);
      EmitGrows(w.st, I.Ret, [w.v]);
      GrowsTrans(st, w.st, GenStmt(st, s));
  }

  lemma ElseIs(c: Out, ty: Ty, s: Stmt, n: Block, e: Block, next: Block, d: Gen, f: Gen, h: Gen)
    requires s.If? && s.no.Some? && n == c.st.Fresh() && next == n + 1 && e == n + 2
    requires d == ForkElse(c.st, c.v, ty) && f == GenArm(d, n, s.yes, next) && h == GenArm(f, e, s.no.value, next)
    ensures GenIf(c, ty, s) == h.Insert(next)
  {
  }

  lemma {:induction false} BranchGrows(c: Out, ty: Ty, s: Stmt)
    requires s.If? && Ready(c.st) && StmtOk(c.st.types, c.st.ret, s)
    ensures OpenDone(c.st, c.st, GenIf(c, ty, s))
    decreases s, 2
  {
    if s.no.None? {
      ThenGrows(c, ty, s);
    } else {
      ElseGrows(c, ty, s);
    }
  }

  lemma {:induction false} ThenGrows(c: Out, ty: Ty, s: Stmt)
    requires s.If? && s.no.None? && Ready(c.st) && StmtOk(c.st.types, c.st.ret, s)
    ensures OpenDone(c.st, c.st, GenIf(c, ty, s))
    decreases s, 2, 0
  {
    ForkGrows(c.st, c.v, ty);
    IfGrows(c.st, Fork(c.st, c.v, ty), c.st.Fresh(), s);
  }

  lemma {:induction false} ElseGrows(c: Out, ty: Ty, s: Stmt)
    requires s.If? && s.no.Some? && Ready(c.st) && StmtOk(c.st.types, c.st.ret, s)
    ensures OpenDone(c.st, c.st, GenIf(c, ty, s))
    decreases s, 2, 0
  {
    ForkElseGrows(c.st, c.v, ty);
    IfElseGrows(c.st, ForkElse(c.st, c.v, ty), c.st.Fresh(), s);
  }

  lemma {:induction false} CompoundGrows(st: Gen, decls: seq<Decl>, body: seq<Stmt>)
    requires Ready(st) && BodyOk(Declared(st.types + [map[]], decls), st.ret, body)
    ensures StmtDone(st, ExitScope(GenBody(GenDecls(EnterScope(st), decls), body)))
    decreases body, 2
  {
    var a := EnterScope(st);
    SameCodeOk(st, a);
    var b := GenDecls(a, decls);
    DeclsGrow(a, decls);
    var c := GenBody(b, body);
    BodyGrows(b, body);
    GrowsTrans(a, b, c);
    var d := ExitScope(c);
    SameCodeOk(c, d);
    SameCodeGrows(st, a, c, d);
    assert Outer(a.types) == st.types && Outer(a.addrs) == st.addrs;
  }

  lemma {:induction false} BodyGrows(st: Gen, body: seq<Stmt>)
    requires Ready(st) && BodyOk(st.types, st.ret, body)
    ensures StmtDone(st, GenBody(st, body))
    decreases body, 1
  {
    if body == [] {
      GrowsRefl(st);
    } else {
      var st1 := GenStmt(st, body[0]);
      StmtGrows(st, body[0]);
      if !st1.Terminated() {
        BodyGrows(st1, body[1..]);
        GrowsTrans(st, st1, GenBody(st1, body[1..]));
      }
    }
  }

  lemma {:induction false} ArmGrows(d: Gen, x: Block, s: Stmt, cont: Block)
    requires GraphOk(d) && x in d.code && cont in d.code && x != cont && d.code[x] == [] && StmtOk(d.types, d.ret, s)
    ensures ArmDone(d, GenArm(d, x, s, cont), x, cont) && SameNames(d, GenArm(d, x, s, cont))
    decreases s, 4
  {
    InsertOk(d, x);
    StmtGrows(d.Insert(x), s);
    ArmOk(d, x, GenStmt(d.Insert(x), s), cont);
  }

  predicate SameNames(a: Gen, b: Gen) {
    b.types == a.types && b.addrs == a.addrs && b.ret == a.ret
  }

  ghost predicate OpenDone(st: Gen, d: Gen, r: Gen) {
    Ready(r) && Grows(st, r) && SameNames(d, r)
  }

  lemma {:induction false} IfElseGrows(st: Gen, d: Gen, n: Block, s: Stmt)
    requires s.If? && s.no.Some? && StmtOk(d.types, d.ret, s) && Forked(st, d, n, n + 2, {n, n + 2, n + 1})
    ensures var h := GenArm(GenArm(d, n, s.yes, n + 1), n + 2, s.no.value, n + 1);
            OpenDone(st, d, h.Insert(n + 1))
    decreases s, 1
  {
    assert ForkedBlock(d, n, st.cur, n, n + 2) && ForkedBlock(d, n + 1, st.cur, n, n + 2) && ForkedBlock(d, n + 2, st.cur, n, n + 2);
    ArmGrows(d, n, s.yes, n + 1);
    var f := GenArm(d, n, s.yes, n + 1);
    assert SameBody(d, f, n + 2) && SameBody(d, f, n + 1);
    ArmGrows(f, n + 2, s.no.value, n + 1);
    TwoArmsGrow(st, d, f, GenArm(f, n + 2, s.no.value, n + 1), n, n + 2, n + 1);
  }

  lemma {:induction false} IfGrows(st: Gen, d: Gen, n: Block, s: Stmt)
    requires s.If? && StmtOk(d.types, d.ret, s) && Forked(st, d, n, n + 1, {n, n + 1})
    ensures var h := GenArm(d, n, s.yes, n + 1);
            OpenDone(st, d, h.Insert(n + 1))
    decreases s, 1
  {
    assert ForkedBlock(d, n, st.cur, n, n + 1) && ForkedBlock(d, n + 1, st.cur, n, n + 1);
    ArmGrows(d, n, s.yes, n + 1);
    OneArmGrows(st, d, GenArm(d, n, s.yes, n + 1), n, n + 1);
  }

  lemma WhileIs(st: Gen, cond: Expr, loop: Stmt, head: Block, h: Gen)
    requires head == st.Fresh() && h == st.NewBlock().BrIfOpen(head).Insert(head)
    ensures GenStmt(st, While(cond, loop)) == GenLoop(GenExpr(h, cond), Tag(st.types, cond), head, loop)
  {
  }

  lemma {:induction false} WhileGrows(st: Gen, cond: Expr, loop: Stmt)
    requires Ready(st) && IsNumber(TypeOf(st.types, cond)) && StmtOk(st.types, st.ret, loop)
    ensures var head := st.Fresh();
            StmtDone(st, GenLoop(GenExpr(st.NewBlock().BrIfOpen(head).Insert(head), cond), Tag(st.types, cond), head, loop))
    decreases loop, 7
  {
    HeadGrows(st);
    LoopFrom(st, st.NewBlock().BrIfOpen(st.Fresh()), st.Fresh(), cond, loop);
  }

  lemma {:induction false} LoopFrom(st: Gen, b: Gen, head: Block, cond: Expr, loop: Stmt)
    requires HeadDone(st, b, head) && Ready(b.Insert(head)) && IsNumber(TypeOf(b.types, cond)) && StmtOk(b.types, b.ret, loop)
    ensures var r := GenLoop(GenExpr(b.Insert(head), cond), Tag(b.types, cond), head, loop); Ready(r) && Grows(st, r) && SameNames(b, r)
    decreases loop, 6
  {
    ExprGrows(b.Insert(head), cond);
    LoopArm(st, b, GenExpr(b.Insert(head), cond), Tag(b.types, cond), head, loop);
  }

  lemma {:induction false} LoopArm(st: Gen, b: Gen, c: Out, ty: Ty, head: Block, loop: Stmt)
    requires HeadDone(st, b, head)
    requires Ready(c.st) && Grows(b.Insert(head), c.st) && StmtOk(c.st.types, c.st.ret, loop)
    ensures var r := GenLoop(c, ty, head, loop); Ready(r) && Grows(st, r) && SameNames(c.st, r)
    decreases loop, 5
  {
    var n := c.st.Fresh();
    ForkGrows(c.st, c.v, ty);
    var d := Fork(c.st, c.v, ty);
    assert PrefixAt(b.Insert(head), c.st, head) && PrefixAt(c.st, d, head);
    assert ForkedBlock(d, n, c.st.cur, n, n + 1);
    ArmGrows(d, n, loop, head);
    LoopGrows(st, b, c.st, d, GenArm(d, n, loop, head), head, n, n + 1);
  }

  /** The insert block of `st` is closed by a jump to the new block `head`. */
  ghost predicate HeadDone(st: Gen, b: Gen, head: Block) {
    && GraphOk(st) && st.cur in st.code && head !in st.code && Step(st, b, {st.cur}, {}) && b.code.Keys == st.code.Keys + {head}
    && st.cur in b.code && IsClosed(b.code[st.cur]) && head in b.code && head in b.g.pred && |b.g.pred[head]| == 1
  }

  /** The jump to the head of a loop. */
  lemma HeadGrows(st: Gen)
    requires Ready(st)
    ensures var head := st.Fresh(); var b := st.NewBlock().BrIfOpen(head);
            HeadDone(st, b, head) && b.code[head] == [] && Ready(b.Insert(head))
  {
    var head := st.Fresh();
    NewBlockOk(st);
    var a := st.NewBlock();
    BrOk(a, head);
    var b := a.Br(head);
    assert SameBody(st, a, st.cur) && SameBody(a, b, head);
    StepTrans(st, a, b, {}, {}, {st.cur}, {head});
    StepWeaken(st, b, {} + {st.cur}, {} + {head}, {st.cur}, {});
    InsertOk(b, head);
  }

  /** A jump to a new block, an expression, a fork, and an arm that leads back. */
  lemma LoopGrows(st: Gen, b: Gen, c: Gen, d: Gen, f: Gen, head: Block, x: Block, cont: Block)
    requires HeadDone(st, b, head)
    requires Grows(b.Insert(head), c) && Forked(c, d, x, cont, {x, cont}) && x != cont && ArmDone(d, f, x, head)
    ensures Ready(f.Insert(cont)) && Grows(st, f.Insert(cont))
  {
    var b1 := b.Insert(head);
    assert ForkedBlock(d, x, c.cur, x, cont) && ForkedBlock(d, cont, c.cur, x, cont);
    assert PrefixAt(b1, c, head) && PrefixAt(b1, c, st.cur) && SameBody(b1, c, st.cur);
    assert PrefixAt(c, d, head) && PrefixAt(c, d, st.cur);
    assert SameBody(c, d, st.cur) && SameBody(d, f, st.cur) && SameBody(d, f, cont);
    assert SamePreds(b1, c, head) && SamePreds(c, d, head) && SamePreds(d, f, x) && SamePreds(d, f, cont);
    InsertOk(f, cont);
    var r := f.Insert(cont);
    assert st.code.Keys <= b.code.Keys;
    assert x in st.code ==> PrefixAt(b1, c, x);
    assert cont in st.code ==> PrefixAt(b1, c, cont);
    LoopStep(st, b, c, d, f, r, head, x, cont);
    assert head != c.cur ==> SameBody(c, d, head);
    assert SameBody(d, f, head) && SameBody(d, f, c.cur);
    forall y | y in r.code && y !in st.code
      ensures NewOk(st, r, y)
    {
      if y !in d.code {
        assert Finished(f, y);
      } else if y !in c.code {
        assert y in {x, cont};
      } else if y != head {
        assert NewOk(b1, c, y) && SamePreds(c, d, y) && SamePreds(d, f, y) && SameBody(d, f, y);
        assert y != c.cur ==> SameBody(c, d, y);
      }
    }
  }

  lemma LoopStep(st: Gen, b: Gen, c: Gen, d: Gen, f: Gen, r: Gen, head: Block, x: Block, cont: Block)
    requires Step(st, b, {st.cur}, {}) && Step(b.Insert(head), c, {head}, {}) && Step(c, d, {c.cur}, {}) && Step(d, f, {x}, {head})
    requires Step(f, r, {}, {}) && head !in st.code && c.cur !in st.code && x !in st.code && st.code.Keys <= b.code.Keys
    ensures Step(st, r, {st.cur}, {})
  {
    StepInsert(st, b, head, {st.cur}, {});
    StepTrans(st, b.Insert(head), c, {st.cur}, {}, {head}, {});
    StepTrans(st, c, d, {st.cur} + {head}, {} + {}, {c.cur}, {});
    StepTrans(st, d, f, {st.cur} + {head} + {c.cur}, {} + {} + {}, {x}, {head});
    StepTrans(st, f, r, {st.cur} + {head} + {c.cur} + {x}, {} + {} + {} + {head}, {}, {});
    StepWeaken(st, r, {st.cur} + {head} + {c.cur} + {x} + {}, {} + {} + {} + {head} + {}, {st.cur}, {});
  }

  lemma StepInsert(a: Gen, b: Gen, x: Block, s: set<Block>, t: set<Block>)
    requires Step(a, b, s, t)
    ensures Step(a, b.Insert(x), s, t)
  {
    forall y | y in a.code
      ensures PrefixAt(a, b.Insert(x), y) && (y !in s ==> SameBody(a, b.Insert(x), y)) && (y !in t ==> SamePreds(a, b.Insert(x), y))
    {
      assert PrefixAt(a, b, y);
      assert y !in s ==> SameBody(a, b, y);
      assert y !in t ==> SamePreds(a, b, y);
    }
  }

  // ----- functions -----

  lemma ParamGrows(st: Gen, p: Param, k: nat)
    requires Ready(st)
    ensures var r := GenParam(st, p, k); Ready(r) && Grows(st, r) && r.ret == st.ret && r.types == Push(st.types, p.name, ParamShape(p))
  {
    var op := I.Alloca(!p.isArray);
    EmitGrows(st, op, []);
    var st1 := st.Emit(op, []);
    EmitGrows(st1, I.Store, [I.Argument(k), st.Next(op)]);
    var st2 := st1.Emit(I.Store, [I.Argument(k), st.Next(op)]);
    GrowsTrans(st, st1, st2);
    SameCodeOk(st2, GenParam(st, p, k));
    SameCodeGrows(st, st, st2, GenParam(st, p, k));
  }

  lemma {:induction false} ParamsGrow(st: Gen, params: seq<Param>)
    requires Ready(st)
    ensures var r := GenParams(st, params); Ready(r) && Grows(st, r) && r.ret == st.ret && r.types == Bound(st.types, params)
  {
    if params == [] {
      GrowsRefl(st);
    } else {
      var n := |params| - 1;
      ParamsGrow(st, params[..n]);
      ParamGrows(GenParams(st, params[..n]), params[n], n);
      GrowsTrans(st, GenParams(st, params[..n]), GenParams(st, params));
    }
  }

  lemma StartOk(types: Scopes<Shape>, addrs: Scopes<I.Value>, ret: RetTy)
    ensures Ready(Start(types, addrs, ret))
  {
    var st := Start(types, addrs, ret);
    forall b | b in st.code
      ensures BlockOk(st, b)
    {
    }
    forall a, b
      ensures EdgeOk(st.g, a, b)
    {
    }
  }

  /** A well-formed function: the block list is the blocks, each ends in its only terminator, predecessor and
      successor lists agree with each other and with the terminators, no phi, no branch to the entry,
      and no block with more than two predecessors. */
  ghost predicate FunctionOk(st: Gen) {
    && GraphOk(st) && st.g.Valid() && NoEntryPred(st.g)
    && (forall b {:trigger Finished(st, b)} :: b in st.code ==> Finished(st, b))
  }

  lemma ValidGraph(st: Gen)
    requires GraphOk(st)
    ensures st.g.Valid() && (forall b :: b in st.g.blocks <==> b in st.code)
  {
    assert BlockOk(st, st.cur);
    forall b
      ensures b in st.g.blocks <==> b in st.g.pred
    {
      if b in st.g.blocks {
        var k: nat :| k < |st.g.blocks| && st.g.blocks[k] == b;
        assert Listed(st, k) && BlockOk(st, k);
      }
      if b in st.code {
        assert BlockOk(st, b);
      }
    }
    forall a, b | st.g.Edge(a, b)
      ensures b in st.g.pred && a in st.g.pred[b]
    {
      assert BlockOk(st, a) && EdgeOk(st.g, a, b);
      assert multiset(st.g.succ[a])[b] > 0;
    }
    forall a, b | b in st.g.pred && a in st.g.pred[b]
      ensures st.g.Edge(a, b)
    {
      assert EdgeOk(st.g, a, b);
      assert multiset(st.g.pred[b])[a] > 0;
    }
    assert Listed(st, 0);
    assert st.g.blocks[0] in st.g.blocks;
  }

  /** Every function that is generated is well formed. */
  lemma GeneratedIsWellFormed(types: Scopes<Shape>, addrs: Scopes<I.Value>, ret: RetTy, params: seq<Param>, decls: seq<Decl>, body: seq<Stmt>)
    requires BodyOk(FunctionTypes(types, params, decls), ret, body)
    ensures FunctionOk(GenFunction(types, addrs, ret, params, decls, body))
  {
    var s0 := Start(types, addrs, ret);
    var s3 := GenBody(GenDecls(GenParams(s0, params), decls), body);
    BodyOfFunction(types, addrs, ret, params, decls, body);
    EndOfFunction(s0, s3);
  }

  lemma BodyOfFunction(types: Scopes<Shape>, addrs: Scopes<I.Value>, ret: RetTy, params: seq<Param>, decls: seq<Decl>, body: seq<Stmt>)
    requires BodyOk(FunctionTypes(types, params, decls), ret, body)
    ensures var s0 := Start(types, addrs, ret); var s3 := GenBody(GenDecls(GenParams(s0, params), decls), body);
            Ready(s0) && GraphOk(s3) && Grows(s0, s3) && s3.ret == ret
  {
    var s0 := Start(types, addrs, ret);
    StartOk(types, addrs, ret);
    var s1 := GenParams(s0, params);
    ParamsGrow(s0, params);
    var s2 := GenDecls(s1, decls);
    DeclsGrow(s1, decls);
    GrowsTrans(s0, s1, s2);
    BodyGrows(s2, body);
    GrowsTrans(s0, s2, GenBody(s2, body));
  }

  lemma EndOfFunction(s0: Gen, s3: Gen)
    requires GraphOk(s3) && Grows(s0, s3) && s0.cur == 0 && s0.code.Keys == {0} && s0.g.pred == map[0 := []]
    ensures FunctionOk(if s3.Terminated() then s3 else s3.DefaultRet())
  {
    var r := if s3.Terminated() then s3 else s3.DefaultRet();
    if !s3.Terminated() {
      EmitGrows(s3, I.Ret, if s3.ret.VoidT? then [] else [I.ConstantInt(0)]);
      GrowsTrans(s0, s3, r);
    }
    ValidGraph(r);
    assert SamePreds(s0, r, 0) && PrefixAt(s0, r, 0);
    assert BlockOk(r, 0);
    forall b | b in r.code
      ensures Finished(r, b)
    {
      if b != 0 {
        assert NewOk(s0, r, b);
      }
    }
  }
}
