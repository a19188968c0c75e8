/**
  The code generator does emit the code on which renaming fails its assertion: for a function that
  sets one variable in one branch of an `if` and another in the other.
 */
module OneBranchCode {
  import opened Options
  import opened Syntax
  import opened Cfg
  import I = Ir
  import opened Meaning
  import opened Generator
  import opened WellFormed
  import opened Limits

  const PARAMS := [Param("c", IntT, false)]
  const DECLS := [Decl("a", IntT, None, 0), Decl("b", IntT, None, 1)]
  const YES := ExprStmt(Some(Assign("a", None, Num(IntT, 1))))
  const NO := ExprStmt(Some(Assign("b", None, Num(IntT, 2))))

  /** `if (c) a = 1; else b = 2;` */
  const IF := If(Var("c", None), YES, Some(NO))

  const OPEN := Graph([0], map[0 := []], map[0 := []])
  const FORKED := Graph([0, 1, 2, 3], map[0 := [], 1 := [0], 2 := [], 3 := [0]], map[0 := [3, 1], 1 := [], 2 := [], 3 := []])
  const HALF := Graph([0, 1, 2, 3], map[0 := [], 1 := [0], 2 := [1], 3 := [0]], map[0 := [3, 1], 1 := [2], 2 := [], 3 := []])

  // ----- what the builder looks like on the way -----

  ghost predicate Body(st: Gen, b: Block, body: seq<I.Instr>) {
    b in st.code && st.code[b] == body
  }

  /** The variable is an int and its address is `addr`. */
  ghost predicate Names(st: Gen, name: string, addr: I.Value) {
    ShapeFor(st.types, name) == Some(Scalar(IntT)) && AddrOf(st, name) == addr
  }

  ghost predicate AllNames(st: Gen) {
    Names(st, "c", C) && Names(st, "a", A) && Names(st, "b", B) && st.ret.VoidT?
  }

  ghost predicate Is(st: Gen, g: Graph, cur: Block, n: nat, keys: set<Block>) {
    st.g == g && st.cur == cur && st.nextId == n && st.code.Keys == keys
  }

  ghost predicate OthersSame(st: Gen, r: Gen) {
    forall b {:trigger b in st.code} :: b in st.code && b != st.cur ==> b in r.code && r.code[b] == st.code[b]
  }

  lemma EmitIs(st: Gen, op: I.Op, args: seq<I.Value>, g: Graph, cur: Block, n: nat, keys: set<Block>, body: seq<I.Instr>)
    requires Is(st, g, cur, n, keys) && Body(st, cur, body)
    ensures var r := st.Emit(op, args);
            Is(r, g, cur, n + 1, keys) && Body(r, cur, body + [I.Instr(n, op, args, [])]) && OthersSame(st, r) && SameScope(st, r)
  {
  }

  lemma BlockIs(st: Gen, g: Graph, cur: Block, n: nat, keys: set<Block>, b: Block)
    requires Is(st, g, cur, n, keys) && b == |g.blocks| && b !in keys
    ensures var r := st.NewBlock();
            && Is(r, Graph(g.blocks + [b], g.pred[b := []], g.succ[b := []]), cur, n, keys + {b}) && SameScope(st, r)
            && Body(r, b, []) && forall x :: x in st.code ==> x in r.code && r.code[x] == st.code[x]
  {
  }

  lemma BrIs(st: Gen, to: Block, g: Graph, cur: Block, n: nat, keys: set<Block>, body: seq<I.Instr>, g': Graph)
    requires Is(st, g, cur, n, keys) && Body(st, cur, body) && (body == [] || !I.IsTerminator(body[|body| - 1]))
    requires g'.blocks == g.blocks && g'.pred == g.pred[to := Edges(g.pred, to) + [cur]] && g'.succ == g.succ[cur := Edges(g.succ, cur) + [to]]
    ensures var r := st.BrIfOpen(to);
            Is(r, g', cur, n + 1, keys) && Body(r, cur, body + [I.Instr(n, I.Br, [], [to])]) && OthersSame(st, r) && SameScope(st, r)
  {
  }

  lemma CondBrIs(st: Gen, v: I.Value, yes: Block, no: Block, g: Graph, cur: Block, n: nat, keys: set<Block>, body: seq<I.Instr>, g': Graph)
    requires Is(st, g, cur, n, keys) && Body(st, cur, body) && yes != no
    requires Edges(g.pred, no) == Edges(g.pred, yes) == Edges(g.succ, cur) == []
    requires g'.blocks == g.blocks && g'.pred == g.pred[no := [cur]][yes := [cur]] && g'.succ == g.succ[cur := [no, yes]]
    ensures var r := st.CondBr(v, yes, no);
            Is(r, g', cur, n + 1, keys) && Body(r, cur, body + [I.Instr(n, I.CondBr, [v], [yes, no])]) && OthersSame(st, r) && SameScope(st, r)
  {
    assert [] + [no] + [yes] == [no, yes] && [] + [cur] == [cur];
  }

  // ----- parameters and declarations -----

  lemma PushNames<S, T>(types: Scopes<S>, addrs: Scopes<T>, name: string, x: S, y: T, other: string)
    requires Parallel(types, addrs) && types != [] && name !in types[|types| - 1]
    ensures var types', addrs' := Push(types, name, x), Push(addrs, name, y);
            && Parallel(types', addrs') && types' != [] && types'[|types'| - 1].Keys == types[|types| - 1].Keys + {name}
            && Level(types', name) == Some(|types| - 1) == Level(addrs', name)
            && Find(types', name) == Some(x) && Find(addrs', name) == Some(y)
            && (other != name && other in types[|types| - 1] ==> Find(types', other) == Find(types, other) && Find(addrs', other) == Find(addrs, other))
  {
  }

  lemma NamesIs(st: Gen, name: string, addr: I.Value)
    requires Find(st.types, name) == Some(Scalar(IntT)) && Find(st.addrs, name) == Some(addr)
    ensures Names(st, name, addr)
  {
  }

  /** What the innermost scope holds. */
  ghost predicate Inner(st: Gen, names: set<string>) {
    Parallel(st.types, st.addrs) && st.types != [] && st.types[|st.types| - 1].Keys == names
  }

  ghost predicate Finds(st: Gen, name: string, addr: I.Value) {
    Find(st.types, name) == Some(Scalar(IntT)) && Find(st.addrs, name) == Some(addr)
  }

  const BODY1 := [I.Instr(0, I.Alloca(true), [], []), I.Instr(1, I.Store, [I.Argument(0), C], [])]
  const BODY2 := BODY1 + [I.Instr(2, I.Alloca(true), [], [])] + [I.Instr(3, I.Alloca(true), [], [])]

  lemma ParamIs(st: Gen)
    requires Is(st, OPEN, 0, 0, {0}) && Body(st, 0, []) && Inner(st, {}) && st.ret.VoidT?
    ensures var r := GenParams(st, PARAMS); Is(r, OPEN, 0, 2, {0}) && Body(r, 0, BODY1) && Inner(r, {"c"}) && Finds(r, "c", C) && r.ret.VoidT?
  {
    var p := PARAMS[0];
    assert PARAMS[..0] == [] && GenParams(st, PARAMS) == GenParam(st, p, 0);
    EmitIs(st, I.Alloca(true), [], OPEN, 0, 0, {0}, []);
    var a := st.Emit(I.Alloca(true), []);
    EmitIs(a, I.Store, [I.Argument(0), C], OPEN, 0, 1, {0}, [] + [I.Instr(0, I.Alloca(true), [], [])]);
    PushNames(st.types, st.addrs, "c", ParamShape(p), C, "c");
  }

  lemma DeclIs(st: Gen, name: string, node: nat, n: nat, body: seq<I.Instr>, names: set<string>, other: string, addr: I.Value)
    requires Is(st, OPEN, 0, n, {0}) && Body(st, 0, body) && Inner(st, names) && name !in names && st.ret.VoidT? && other in names && Finds(st, other, addr)
    ensures var r := GenDecl(st, Decl(name, IntT, None, node));
            && Is(r, OPEN, 0, n + 1, {0}) && Body(r, 0, body + [I.Instr(n, I.Alloca(true), [], [])]) && Inner(r, names + {name}) && r.ret.VoidT?
            && Finds(r, name, I.Result(n, I.AllocaInst(true))) && Finds(r, other, addr)
  {
    EmitIs(st, I.Alloca(true), [], OPEN, 0, n, {0}, body);
    PushNames(st.types, st.addrs, name, Scalar(IntT), I.Result(n, I.AllocaInst(true)), other);
  }

  lemma DeclsAre(st: Gen)
    requires Is(st, OPEN, 0, 2, {0}) && Body(st, 0, BODY1) && Inner(st, {"c"}) && Finds(st, "c", C) && st.ret.VoidT?
    ensures var r := GenDecls(st, DECLS); Is(r, OPEN, 0, 4, {0}) && Body(r, 0, BODY2) && AllNames(r)
  {
    DeclIs(st, "a", 0, 2, BODY1, {"c"}, "c", C);
    var s1 := GenDecl(st, DECLS[0]);
    DeclIs(s1, "b", 1, 3, BODY1 + [I.Instr(2, I.Alloca(true), [], [])], {"c"} + {"a"}, "c", C);
    DeclIs(s1, "b", 1, 3, BODY1 + [I.Instr(2, I.Alloca(true), [], [])], {"c"} + {"a"}, "a", A);
    var s2 := GenDecl(s1, DECLS[1]);
    assert DECLS[1..] == [DECLS[1]] && DECLS[1..][1..] == [];
    assert GenDecls(st, DECLS) == s2;
    NamesIs(s2, "c", C);
    NamesIs(s2, "a", A);
    NamesIs(s2, "b", B);
  }

  // ----- the statement -----

  const LOADED := BODY2 + [I.Instr(4, I.Load, [C], [])]
  const TESTED := LOADED + [I.Instr(5, I.Compute(13), [I.Result(4, I.OtherInst), I.ConstantInt(0)], [])]
  const ENDED := TESTED + [I.Instr(6, I.CondBr, [I.Result(5, I.OtherInst)], [1, 3])]

  lemma CondIs(st: Gen)
    requires Is(st, OPEN, 0, 4, {0}) && Body(st, 0, BODY2) && AllNames(st)
    ensures var c := GenExpr(st, IF.cond); Is(c.st, OPEN, 0, 5, {0}) && Body(c.st, 0, LOADED) && AllNames(c.st) && c.v == I.Result(4, I.OtherInst)
    ensures Tag(st.types, IF.cond) == IntT
  {
    EmitIs(st, I.Load, [C], OPEN, 0, 4, {0}, BODY2);
  }

  lemma ForkIs(st: Gen, v: I.Value)
    requires Is(st, OPEN, 0, 5, {0}) && Body(st, 0, LOADED) && v == I.Result(4, I.OtherInst)
    ensures var d := ForkElse(st, v, IntT);
            Is(d, FORKED, 0, 7, {0, 1, 2, 3}) && Body(d, 0, ENDED) && Body(d, 1, []) && Body(d, 2, []) && Body(d, 3, []) && SameScope(st, d)
  {
    BlockIs(st, OPEN, 0, 5, {0}, 1);
    var a := st.NewBlock();
    var g1 := Graph([0] + [1], OPEN.pred[1 := []], OPEN.succ[1 := []]);
    BlockIs(a, g1, 0, 5, {0} + {1}, 2);
    var b := a.NewBlock();
    var g2 := Graph(g1.blocks + [2], g1.pred[2 := []], g1.succ[2 := []]);
    EmitIs(b, I.Compute(13), [v, I.ConstantInt(0)], g2, 0, 5, {0} + {1} + {2}, LOADED);
    var t := GenTest(b, v, IntT);
    BlockIs(t.st, g2, 0, 6, {0} + {1} + {2}, 3);
    var d := t.st.NewBlock();
    var g3 := Graph(g2.blocks + [3], g2.pred[3 := []], g2.succ[3 := []]);
    CondBrIs(d, t.v, 1, 3, g3, 0, 6, {0} + {1} + {2} + {3}, TESTED, FORKED);
    assert {0} + {1} + {2} + {3} == {0, 1, 2, 3};
  }

  lemma SetStmt(a: Gen, name: string, x: int, addr: I.Value)
    requires Names(a, name, addr)
    ensures GenStmt(a, ExprStmt(Some(Assign(name, None, Num(IntT, x))))) == a.Emit(I.Store, [I.ConstantInt(x), addr])
  {
    var value := Num(IntT, x);
    assert GenExpr(a, value) == Out(a, I.ConstantInt(x));
    assert GenSet(a, name, value).st == a.Emit(I.Store, [I.ConstantInt(x), addr]);
    assert GenExpr(a, Assign(name, None, value)) == GenSet(a, name, value);
  }

  /** An arm that sets a variable and goes on to block 2. */
  lemma SetIs(d: Gen, b: Block, name: string, x: int, addr: I.Value, g: Graph, cur: Block, n: nat, g': Graph)
    requires Is(d, g, cur, n, {0, 1, 2, 3}) && Body(d, b, []) && Names(d, name, addr)
    requires g'.blocks == g.blocks && g'.pred == g.pred[2 := Edges(g.pred, 2) + [b]] && g'.succ == g.succ[b := Edges(g.succ, b) + [2]]
    ensures var f := GenArm(d, b, ExprStmt(Some(Assign(name, None, Num(IntT, x)))), 2);
            && Is(f, g', b, n + 2, {0, 1, 2, 3}) && SameScope(d, f)
            && Body(f, b, [I.Instr(n, I.Store, [I.ConstantInt(x), addr], []), I.Instr(n + 1, I.Br, [], [2])])
            && forall y {:trigger y in d.code} :: y in d.code && y != b ==> y in f.code && f.code[y] == d.code[y]
  {
    var a := d.Insert(b);
    assert Is(a, g, b, n, {0, 1, 2, 3}) && AddrOf(a, name) == addr;
    var args := [I.ConstantInt(x), addr];
    EmitIs(a, I.Store, args, g, b, n, {0, 1, 2, 3}, []);
    var e := a.Emit(I.Store, args);
    SetStmt(a, name, x, addr);
    var body := [] + [I.Instr(n, I.Store, args, [])];
    BrIs(e, 2, g, b, n + 1, {0, 1, 2, 3}, body, g');
  }

  lemma IfIs(st: Gen)
    requires Is(st, OPEN, 0, 4, {0}) && Body(st, 0, BODY2) && AllNames(st)
    ensures var r := GenStmt(st, IF);
            && Is(r, Diamond(), 2, 11, {0, 1, 2, 3}) && Body(r, 0, ENDED) && Body(r, 2, []) && r.ret.VoidT?
            && Body(r, 1, [I.Instr(7, I.Store, [I.ConstantInt(1), A], []), I.Instr(8, I.Br, [], [2])])
            && Body(r, 3, [I.Instr(9, I.Store, [I.ConstantInt(2), B], []), I.Instr(10, I.Br, [], [2])])
  {
    var c := GenExpr(st, IF.cond);
    CondIs(st);
    ArmsAre(c);
  }

  lemma ArmsAre(c: Out)
    requires Is(c.st, OPEN, 0, 5, {0}) && Body(c.st, 0, LOADED) && AllNames(c.st) && c.v == I.Result(4, I.OtherInst)
    ensures var r := GenIf(c, IntT, IF);
            && Is(r, Diamond(), 2, 11, {0, 1, 2, 3}) && Body(r, 0, ENDED) && Body(r, 2, []) && r.ret.VoidT?
            && Body(r, 1, [I.Instr(7, I.Store, [I.ConstantInt(1), A], []), I.Instr(8, I.Br, [], [2])])
            && Body(r, 3, [I.Instr(9, I.Store, [I.ConstantInt(2), B], []), I.Instr(10, I.Br, [], [2])])
  {
    var n, e, next, d := c.st.Fresh(), 3, 2, ForkElse(c.st, c.v, IntT);
    ForkIs(c.st, c.v);
    var f := GenArm(d, n, YES, next);
    FirstArm(d, n, f);
    var h := GenArm(f, e, NO, next);
    SecondArm(f, e, h);
    ElseIs(c, IntT, IF, n, e, next, d, f, h);
  }

  lemma FirstArm(d: Gen, n: Block, f: Gen)
    requires Is(d, FORKED, 0, 7, {0, 1, 2, 3}) && Body(d, 0, ENDED) && Body(d, 1, []) && Body(d, 2, []) && Body(d, 3, []) && AllNames(d)
    requires n == 1 && f == GenArm(d, n, YES, 2)
    ensures Is(f, HALF, 1, 9, {0, 1, 2, 3}) && Body(f, 0, ENDED) && Body(f, 2, []) && Body(f, 3, []) && AllNames(f)
    ensures Body(f, 1, [I.Instr(7, I.Store, [I.ConstantInt(1), A], []), I.Instr(8, I.Br, [], [2])])
  {
    assert [] + [1 as Block] == [1] && [] + [2 as Block] == [2];
    SetIs(d, n, "a", 1, A, FORKED, 0, 7, HALF);
  }

  lemma SecondArm(f: Gen, e: Block, h: Gen)
    requires Is(f, HALF, 1, 9, {0, 1, 2, 3}) && Body(f, 0, ENDED) && Body(f, 2, []) && Body(f, 3, []) && AllNames(f)
    requires Body(f, 1, [I.Instr(7, I.Store, [I.ConstantInt(1), A], []), I.Instr(8, I.Br, [], [2])])
    requires e == 3 && h == GenArm(f, e, NO, 2)
    ensures Is(h, Diamond(), 3, 11, {0, 1, 2, 3}) && Body(h, 0, ENDED) && Body(h, 2, []) && h.ret.VoidT?
    ensures Body(h, 1, [I.Instr(7, I.Store, [I.ConstantInt(1), A], []), I.Instr(8, I.Br, [], [2])])
    ensures Body(h, 3, [I.Instr(9, I.Store, [I.ConstantInt(2), B], []), I.Instr(10, I.Br, [], [2])])
  {
    assert [1 as Block] + [3] == [1, 3] && [] + [2 as Block] == [2];
    SetIs(f, e, "b", 2, B, HALF, 1, 9, Diamond());
  }

  // ----- the function -----

  lemma CodeIs(r: Gen)
    requires r.code.Keys == {0, 1, 2, 3} && Body(r, 0, ENDED) && Body(r, 2, [I.Instr(11, I.Ret, [], [])])
    requires Body(r, 1, [I.Instr(7, I.Store, [I.ConstantInt(1), A], []), I.Instr(8, I.Br, [], [2])])
    requires Body(r, 3, [I.Instr(9, I.Store, [I.ConstantInt(2), B], []), I.Instr(10, I.Br, [], [2])])
    ensures r.code == OneBranch()
  {
    assert ENDED == OneBranch()[0];
  }

  lemma FunctionIs(types: Scopes<Shape>, addrs: Scopes<I.Value>, s0: Gen, s2: Gen, s3: Gen)
    requires s0 == Start(types, addrs, VoidT) && s2 == GenDecls(GenParams(s0, PARAMS), DECLS) && s3 == GenStmt(s2, IF) && !s3.Terminated()
    ensures GenFunction(types, addrs, VoidT, PARAMS, DECLS, [IF]) == s3.DefaultRet()
  {
    assert [IF][0] == IF && [IF][1..] == [];
    assert GenBody(s2, [IF]) == s3;
  }

  /** `void f(int c) { int a; int b; if (c) a = 1; else b = 2; }`, wherever it stands, becomes the code that
      `OneBranchFails` is about. */
  lemma GeneratedOneBranch(types: Scopes<Shape>, addrs: Scopes<I.Value>)
    requires Parallel(types, addrs)
    ensures var f := GenFunction(types, addrs, VoidT, PARAMS, DECLS, [IF]); f.g == Diamond() && f.code == OneBranch()
  {
    var s0 := Start(types, addrs, VoidT);
    ParamIs(s0);
    var s1 := GenParams(s0, PARAMS);
    DeclsAre(s1);
    var s2 := GenDecls(s1, DECLS);
    IfIs(s2);
    var s3 := GenStmt(s2, IF);
    FunctionIs(types, addrs, s0, s2, s3);
    EmitIs(s3, I.Ret, [], Diamond(), 2, 11, {0, 1, 2, 3}, []);
    CodeIs(s3.Emit(I.Ret, []));
  }
}
