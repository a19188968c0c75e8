/**
  The code generator does emit a join with an unreachable predecessor: for a loop whose body
  returns in both branches of an `if`.
 */
module BothReturn {
  import opened Options
  import opened Syntax
  import opened Cfg
  import I = Ir
  import opened Meaning
  import opened Generator
  import opened Limits

  /** `int f() { while (x) { if (a) return 1; else return 2; } }` */
  const LOOP := While(Var("x", None), If(Var("a", None), Return(Some(Num(IntT, 1))), Some(Return(Some(Num(IntT, 2))))))

  const OPEN := Graph([0], map[0 := []], map[0 := []])
  const HEAD := Graph([0, 1], map[0 := [], 1 := [0]], map[0 := [1], 1 := []])
  const BODY := Graph([0, 1, 2, 3], map[0 := [], 1 := [0], 2 := [1], 3 := [1]], map[0 := [1], 1 := [3, 2], 2 := [], 3 := []])
  const ARMS := Graph([0, 1, 2, 3, 4, 5, 6],
                      map[0 := [], 1 := [0], 2 := [1], 3 := [1], 4 := [2], 5 := [], 6 := [2]],
                      map[0 := [1], 1 := [3, 2], 2 := [6, 4], 3 := [], 4 := [], 5 := [], 6 := []])

  ghost predicate IsEmpty(st: Gen, b: Block) {
    b in st.code && st.code[b] == []
  }

  /** The graph so far, the insert point, and blocks that have no code yet. */
  ghost predicate Looks(st: Gen, g: Graph, cur: Block, empty: set<Block>) {
    st.g == g && st.cur == cur && st.ret == Returns(IntT) && forall b {:trigger IsEmpty(st, b)} :: b in empty ==> IsEmpty(st, b)
  }

  lemma NameLooks(st: Gen, name: string, g: Graph, cur: Block, empty: set<Block>)
    requires Looks(st, g, cur, empty) && cur !in empty
    ensures Looks(GenExpr(st, Var(name, None)).st, g, cur, empty)
  {
    var r := GenExpr(st, Var(name, None)).st;
    forall b | b in empty
      ensures IsEmpty(r, b)
    {
      assert IsEmpty(st, b);
    }
  }

  lemma HeadLooks(st: Gen)
    requires Looks(st, OPEN, 0, {0})
    ensures st.Fresh() == 1 && Looks(st.NewBlock().BrIfOpen(1).Insert(1), HEAD, 1, {1})
  {
    assert IsEmpty(st, 0);
    var a := st.NewBlock();
    assert !a.Terminated();
    assert [] + [0 as Block] == [0] && [] + [1 as Block] == [1];
    assert a.Br(1).g == HEAD;
  }

  /** A branch to two of the blocks, filed as the branch constructor does. */
  lemma CondBrLooks(st: Gen, g: Graph, cur: Block, empty: set<Block>, c: I.Value, yes: Block, no: Block, g': Graph)
    requires Looks(st, g, cur, empty) && cur !in empty && g'.blocks == g.blocks && yes != no
    requires Edges(g.pred, no) == Edges(g.pred, yes) == Edges(g.succ, cur) == []
    requires g'.pred == g.pred[no := [cur]][yes := [cur]] && g'.succ == g.succ[cur := [no, yes]]
    ensures Looks(st.CondBr(c, yes, no), g', cur, empty)
  {
    var r := st.CondBr(c, yes, no);
    assert [] + [no] + [yes] == [no, yes] && [] + [cur] == [cur];
    forall b | b in empty
      ensures IsEmpty(r, b)
    {
      assert IsEmpty(st, b);
    }
  }

  lemma ComputeLooks(st: Gen, g: Graph, cur: Block, empty: set<Block>, op: nat, args: seq<I.Value>)
    requires Looks(st, g, cur, empty) && cur !in empty
    ensures Looks(Computing(st, op, args).st, g, cur, empty)
  {
    var r := Computing(st, op, args).st;
    forall b | b in empty
      ensures IsEmpty(r, b)
    {
      assert IsEmpty(st, b);
    }
  }

  lemma NewLooks(st: Gen, g: Graph, cur: Block, empty: set<Block>, n: Block)
    requires Looks(st, g, cur, empty) && n == |g.blocks| && n !in empty
    ensures st.Fresh() == n && Looks(st.NewBlock(), Graph(g.blocks + [n], g.pred[n := []], g.succ[n := []]), cur, empty + {n})
  {
    var r := st.NewBlock();
    forall b | b in empty + {n}
      ensures IsEmpty(r, b)
    {
      assert b in empty ==> IsEmpty(st, b);
    }
  }

  lemma ForkLooks(st: Gen, v: I.Value, ty: Ty)
    requires Looks(st, HEAD, 1, {})
    ensures st.Fresh() == 2 && Looks(Fork(st, v, ty), BODY, 1, {2, 3})
  {
    NewLooks(st, HEAD, 1, {}, 2);
    var a := st.NewBlock();
    var g1 := Graph([0, 1] + [2], HEAD.pred[2 := []], HEAD.succ[2 := []]);
    NewLooks(a, g1, 1, {} + {2}, 3);
    var b := a.NewBlock();
    var g2 := Graph(g1.blocks + [3], g1.pred[3 := []], g1.succ[3 := []]);
    assert {} + {2} + {3} == {2, 3};
    ComputeLooks(b, g2, 1, {2, 3}, OpCode(Neq, ty), [v, I.ConstantInt(0)]);
    var t := GenTest(b, v, ty);
    CondBrLooks(t.st, g2, 1, {2, 3}, t.v, 2, 3, BODY);
  }

  lemma ForkElseLooks(st: Gen, v: I.Value, ty: Ty)
    requires Looks(st, BODY, 2, {3})
    ensures st.Fresh() == 4 && Looks(ForkElse(st, v, ty), ARMS, 2, {3, 4, 5, 6})
  {
    NewLooks(st, BODY, 2, {3}, 4);
    var a := st.NewBlock();
    var g1 := Graph(BODY.blocks + [4], BODY.pred[4 := []], BODY.succ[4 := []]);
    NewLooks(a, g1, 2, {3} + {4}, 5);
    var b := a.NewBlock();
    var g2 := Graph(g1.blocks + [5], g1.pred[5 := []], g1.succ[5 := []]);
    ComputeLooks(b, g2, 2, {3} + {4} + {5}, OpCode(Neq, ty), [v, I.ConstantInt(0)]);
    var t := GenTest(b, v, ty);
    NewLooks(t.st, g2, 2, {3} + {4} + {5}, 6);
    var d := t.st.NewBlock();
    var g3 := Graph(g2.blocks + [6], g2.pred[6 := []], g2.succ[6 := []]);
    assert {3} + {4} + {5} + {6} == {3, 4, 5, 6};
    CondBrLooks(d, g3, 2, {3, 4, 5, 6}, t.v, 4, 6, ARMS);
  }

  /** An arm that returns goes nowhere. */
  lemma ReturnLooks(d: Gen, g: Graph, cur: Block, empty: set<Block>, b: Block, n: int, next: Block)
    requires Looks(d, g, cur, empty) && b in empty
    ensures Looks(GenArm(d, b, Return(Some(Num(IntT, n))), next), g, b, empty - {b})
  {
    assert IsEmpty(d, b);
    var a := d.Insert(b);
    var r := a.Ret([I.ConstantInt(n)]);
    assert GenStmt(a, Return(Some(Num(IntT, n)))) == r;
    assert r.Terminated();
    forall x | x in empty - {b}
      ensures IsEmpty(r, x)
    {
      assert IsEmpty(d, x);
    }
  }

  /** The `if` in the body of the loop: both arms return, and the insert point is behind them. */
  lemma IfLooks(st: Gen)
    requires Looks(st, BODY, 2, {2, 3})
    ensures Looks(GenStmt(st, LOOP.loop), ARMS, 5, {3, 5})
  {
    var s := LOOP.loop;
    var c := GenExpr(st, s.cond);
    assert Looks(st, BODY, 2, {3}) by {
      assert IsEmpty(st, 3);
    }
    NameLooks(st, "a", BODY, 2, {3});
    BranchLooks(c, Tag(st.types, s.cond), s);
  }

  lemma BranchLooks(c: Out, ty: Ty, s: Stmt)
    requires s == LOOP.loop && Looks(c.st, BODY, 2, {3})
    ensures Looks(GenIf(c, ty, s), ARMS, 5, {3, 5})
  {
    var d := ForkElse(c.st, c.v, ty);
    ForkElseLooks(c.st, c.v, ty);
    var f := GenArm(d, 4, s.yes, 5);
    ReturnLooks(d, ARMS, 2, {3, 4, 5, 6}, 4, 1, 5);
    var h := GenArm(f, 6, s.no.value, 5);
    ReturnLooks(f, ARMS, 4, {3, 4, 5, 6} - {4}, 6, 2, 5);
    assert {3, 4, 5, 6} - {4} - {6} == {3, 5};
    var r := h.Insert(5);
    forall b | b in {3, 5}
      ensures IsEmpty(r, b)
    {
      assert IsEmpty(h, b);
    }
  }

  /** Behind the `if`, where control never arrives, the loop goes on to its head. */
  lemma LoopLooks(c: Out, ty: Ty)
    requires Looks(c.st, HEAD, 1, {})
    ensures Looks(GenLoop(c, ty, 1, LOOP.loop), DeadJoin(), 3, {3})
  {
    var d := Fork(c.st, c.v, ty);
    ForkLooks(c.st, c.v, ty);
    var a := d.Insert(2);
    assert Looks(a, BODY, 2, {2, 3}) by {
      assert IsEmpty(d, 2) && IsEmpty(d, 3);
    }
    IfLooks(a);
    BackLooks(GenStmt(a, LOOP.loop));
  }

  lemma BackPreds(m: map<Block, seq<Block>>)
    requires m == ARMS.pred[1 := [0, 5]]
    ensures m == DeadJoin().pred
  {
  }

  lemma BackSuccs(m: map<Block, seq<Block>>)
    requires m == ARMS.succ[5 := [1]]
    ensures m == DeadJoin().succ
  {
  }

  lemma BackLooks(e: Gen)
    requires Looks(e, ARMS, 5, {3, 5})
    ensures Looks(e.BrIfOpen(1).Insert(3), DeadJoin(), 3, {3})
  {
    assert IsEmpty(e, 5) && IsEmpty(e, 3);
    assert !e.Terminated();
    assert [0 as Block] + [5] == [0, 5] && [] + [1 as Block] == [1];
    BackPreds(e.Br(1).g.pred);
    BackSuccs(e.Br(1).g.succ);
  }

  lemma WhileLooks(st: Gen)
    requires Looks(st, OPEN, 0, {0})
    ensures Looks(GenStmt(st, LOOP), DeadJoin(), 3, {3})
  {
    HeadLooks(st);
    var h := st.NewBlock().BrIfOpen(1).Insert(1);
    assert Looks(h, HEAD, 1, {});
    NameLooks(h, "x", HEAD, 1, {});
    LoopLooks(GenExpr(h, LOOP.cond), Tag(st.types, LOOP.cond));
  }

  lemma OneStatement(types: Scopes<Shape>, addrs: Scopes<I.Value>, ret: RetTy, stmt: Stmt, st: Gen)
    requires st == Start(types, addrs, ret)
    ensures GenFunction(types, addrs, ret, [], [], [stmt]).g == GenStmt(st, stmt).g
  {
    var body := [stmt];
    var st1 := GenStmt(st, stmt);
    assert body[0] == stmt && body[1..] == [];
    assert GenBody(st, body) == st1;
  }

  /** The function is well typed where `x` and `a` are int variables, and its graph is the one on which the runner loop of
      `create_dominance_frontier` never stops. */
  lemma GeneratedDeadJoin(types: Scopes<Shape>, addrs: Scopes<I.Value>)
    requires ShapeFor(types, "x") == Some(Scalar(IntT)) && ShapeFor(types, "a") == Some(Scalar(IntT))
    ensures BodyOk(FunctionTypes(types, [], []), Returns(IntT), [LOOP])
    ensures GenFunction(types, addrs, Returns(IntT), [], [], [LOOP]).g == DeadJoin()
  {
    var ret := Returns(IntT);
    var st := Start(types, addrs, ret);
    assert Looks(st, OPEN, 0, {0}) by {
      assert IsEmpty(st, 0);
    }
    WhileLooks(st);
    OneStatement(types, addrs, ret, LOOP, st);
    WellTyped(types, FunctionTypes(types, [], []));
  }

  lemma WellTyped(types: Scopes<Shape>, inside: Scopes<Shape>)
    requires ShapeFor(types, "x") == Some(Scalar(IntT)) && ShapeFor(types, "a") == Some(Scalar(IntT)) && inside == types + [map[]]
    ensures BodyOk(inside, Returns(IntT), [LOOP])
  {
    assert inside[..|inside| - 1] == types;
    assert ShapeFor(inside, "x") == ShapeFor(types, "x") && ShapeFor(inside, "a") == ShapeFor(types, "a");
    assert StmtOk(inside, Returns(IntT), LOOP.loop);
  }
}
