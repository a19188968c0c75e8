/**
  Statements and functions: what is generated for them is in its place, too.
 */
module DefinedStmt {
  import opened Options
  import opened Syntax
  import opened Cfg
  import I = Ir
  import opened Meaning
  import opened Generator
  import opened Emitted
  import opened WellFormed
  import L = Lowering
  import P = PhiPlacement
  import S = SsaForm
  import opened Defined

  // ----- declarations and scopes -----

  /** What is in scope has no part in where the instructions are. */
  lemma SameCodePlaced(a: Gen, b: Gen, w: Witness)
    requires Placed(a, w) && SameCode(a, b)
    ensures Placed(b, w) && Extends(a, w, b, w)
  {
    ExtendsRefl(a, w);
    forall x | x in b.code
      ensures UpAt(b, w.up, x) && PrefixAt(a, b, x)
    {
      assert UpAt(a, w.up, x);
    }
  }

  lemma SameCodeOnward(st: Gen, w: Witness, a: Gen, w': Witness, b: Gen)
    requires Onward(st, w, a, w') && SameCode(a, b)
    ensures Onward(st, w, b, w')
  {
    SameCodePlaced(a, b, w');
    ExtendsTrans(st, w, a, w', b, w');
  }

  /** One more name, with the address that was computed for it. */
  lemma PushScoped(st: Gen, w: Witness, b: Block, r: Gen, name: string, shape: Shape, v: I.Value)
    requires Scoped(st, w, b) && Usable(st, w, b, v) && Fits(shape, v) && SameCode(st, r)
    requires r.types == Push(st.types, name, shape) && r.addrs == Push(st.addrs, name, v)
    ensures Scoped(r, w, b)
  {
    forall k: nat, x | k < |r.types| && x in r.types[k]
      ensures EntryUsable(r, w, b, k, x)
    {
      assert x in st.types[k] ==> EntryUsable(st, w, b, k, x);
    }
  }

  lemma DeclPlaced(st: Gen, w: Witness, d: Decl) returns (w': Witness)
    requires Prepared(st, w)
    ensures Prepared(GenDecl(st, d), w') && Onward(st, w, GenDecl(st, d), w')
  {
    var op, r := I.Alloca(d.len.None?), GenDecl(st, d);
    var a := st.Emit(op, []);
    PreparedAt(st, w);
    w' := EmitPlaced(st, w, op, []);
    ScopedKept(st, w, a, w', st.cur, st.cur);
    PushScoped(a, w', st.cur, r, d.name, ShapeOf(d), st.Next(op));
    DeclGrows(st, d);
    SameCodeOnward(st, w, a, w', r);
  }

  lemma {:induction false} DeclsPlaced(st: Gen, w: Witness, decls: seq<Decl>) returns (w': Witness)
    requires Prepared(st, w)
    ensures Prepared(GenDecls(st, decls), w') && Onward(st, w, GenDecls(st, decls), w')
    decreases decls
  {
    if decls == [] {
      PreparedAt(st, w);
      OnwardRefl(st, w);
      w' := w;
    } else {
      var a := GenDecl(st, decls[0]);
      var w1 := DeclPlaced(st, w, decls[0]);
      w' := DeclsPlaced(a, w1, decls[1..]);
      OnwardTrans(st, w, a, w1, GenDecls(a, decls[1..]), w');
    }
  }

  lemma EnterPlaced(st: Gen, w: Witness)
    requires Prepared(st, w)
    ensures Prepared(EnterScope(st), w) && Onward(st, w, EnterScope(st), w)
  {
    var r := EnterScope(st);
    PreparedAt(st, w);
    OnwardRefl(st, w);
    SameCodeOnward(st, w, st, w, r);
    SameCodeOk(st, r);
    forall k: nat, x | k < |r.types| && x in r.types[k]
      ensures EntryUsable(r, w, r.cur, k, x)
    {
      assert EntryUsable(st, w, st.cur, k, x);
    }
  }

  // ----- branches -----

  /** Two new blocks and the comparison of `v` with zero. */
  lemma ZeroTested(st: Gen, w: Witness, v: I.Value, ty: Ty, t: Out, n: Block) returns (w': Witness)
    requires Ready(st) && Placed(st, w) && Has(st, w, v) && n == st.Fresh() && t == GenTest(st.NewBlock().NewBlock(), v, ty)
    ensures Yields(st, w, t, w') && Opened(t.st, w', st.cur, n)
  {
    var a := st.NewBlock().NewBlock();
    var w1 := TwoPlaced(st, w, a, n);
    HasKept(st, w, a, w1, v);
    OnwardRefl(a, w1);
    w' := TestPlaced(st, w, a, w1, Out(a, v), w1, OpCode(Neq, ty), [v, I.ConstantInt(0)], n);
  }

  /** A state with an empty block `b` and a block `next`, and the scopes of `st`. */
  ghost predicate ForkedTo(st: Gen, d: Gen, b: Block, next: Block) {
    GraphOk(d) && d.cur == st.cur && SameScope(st, d) && b in d.code && d.code[b] == [] && next in d.code && b != next
  }

  lemma ForkIs(st: Gen, v: I.Value, ty: Ty, d: Gen, n: Block, next: Block, t: Out)
    requires Ready(st) && n == st.Fresh() && next == n + 1 && d == Fork(st, v, ty) && t == GenTest(st.NewBlock().NewBlock(), v, ty)
    ensures d == t.st.CondBr(t.v, n, next) && ForkedTo(st, d, n, next)
  {
    ForkGrows(st, v, ty);
    assert ForkedBlock(d, n, st.cur, n, next) && ForkedBlock(d, next, st.cur, n, next);
  }

  /** Two new blocks and a branch to them. */
  lemma ForkPlaced(st: Gen, w: Witness, v: I.Value, ty: Ty, d: Gen, n: Block, next: Block) returns (w': Witness)
    requires Ready(st) && Placed(st, w) && Has(st, w, v) && n == st.Fresh() && next == n + 1 && d == Fork(st, v, ty)
    ensures Onward(st, w, d, w') && Opened(d, w', st.cur, n) && ForkedTo(st, d, n, next)
  {
    var t := GenTest(st.NewBlock().NewBlock(), v, ty);
    var w1 := ZeroTested(st, w, v, ty, t, n);
    ForkIs(st, v, ty, d, n, next, t);
    var d', w2 := CheckForked(st, w, t, w1, t.v, n);
    w' := w2;
  }

  /** Three new blocks and a branch to the first and the third. */
  ghost predicate OpenedThree(d: Gen, w: Witness, cur: Block, n: Block, e: Block, next: Block) {
    && Opened(d, w, cur, n) && next == n + 1 && e == n + 2 && e in w.up && w.up[e] == cur && e in d.code && e < |d.g.blocks|
  }

  lemma ForkElseIs(st: Gen, v: I.Value, ty: Ty, d: Gen, n: Block, e: Block, next: Block, t: Out)
    requires Ready(st) && n == st.Fresh() && next == n + 1 && e == n + 2 && d == ForkElse(st, v, ty) && t == GenTest(st.NewBlock().NewBlock(), v, ty)
    ensures d == t.st.NewBlock().CondBr(t.v, n, e) && t.st.Fresh() == e && ForkedTo(st, d, n, next) && ForkedTo(st, d, e, next)
  {
    ForkElseGrows(st, v, ty);
    assert ForkedBlock(d, n, st.cur, n, e) && ForkedBlock(d, next, st.cur, n, e) && ForkedBlock(d, e, st.cur, n, e);
  }

  lemma TestReady(st: Gen, v: I.Value, ty: Ty, t: Out)
    requires Ready(st) && t == GenTest(st.NewBlock().NewBlock(), v, ty)
    ensures Ready(t.st)
  {
    TwoFresh(st);
    ComputingGrows(st.NewBlock().NewBlock(), OpCode(Neq, ty), [v, I.ConstantInt(0)]);
  }

  lemma ForkElsePlaced(st: Gen, w: Witness, v: I.Value, ty: Ty, d: Gen, n: Block, e: Block, next: Block) returns (w': Witness)
    requires Ready(st) && Placed(st, w) && Has(st, w, v) && n == st.Fresh() && next == n + 1 && e == n + 2 && d == ForkElse(st, v, ty)
    ensures Onward(st, w, d, w') && OpenedThree(d, w', st.cur, n, e, next) && ForkedTo(st, d, n, next) && ForkedTo(st, d, e, next)
  {
    var t := GenTest(st.NewBlock().NewBlock(), v, ty);
    var w1 := ZeroTested(st, w, v, ty, t, n);
    ForkElseIs(st, v, ty, d, n, e, next, t);
    TestReady(st, v, ty, t);
    w' := ThirdPlaced(st, w, t, w1, d, n, e, next);
  }

  lemma ThirdPlaced(st: Gen, w: Witness, t: Out, w2: Witness, d: Gen, n: Block, e: Block, next: Block) returns (w': Witness)
    requires Yields(st, w, t, w2) && Opened(t.st, w2, st.cur, n) && Ready(t.st) && t.st.Fresh() == e && next == n + 1 && e == n + 2
    requires d == t.st.NewBlock().CondBr(t.v, n, e)
    ensures Onward(st, w, d, w') && OpenedThree(d, w', st.cur, n, e, next)
  {
    var b := t.st.NewBlock();
    NewBlockOk(t.st);
    var w3 := BlockPlaced(t.st, w2);
    assert PrefixAt(t.st, b, t.st.cur) && PrefixAt(t.st, b, n) && PrefixAt(t.st, b, next);
    UsableKept(t.st, w2, b, w3, t.st.cur, b.cur, t.v);
    w' := CondBrPlaced(b, w3, t.v, n, e);
    ExtendsTrans(t.st, w2, b, w3, d, w');
    ExtendsTrans(st, w, t.st, w2, d, w');
    assert PrefixAt(b, d, n) && PrefixAt(b, d, next) && PrefixAt(b, d, e);
  }

  /** A block to generate an arm in, below the block where the names in scope may be used, and where the arm leads to. */
  ghost predicate ArmAt(d: Gen, w: Witness, from: Block, b: Block, next: Block) {
    && Scoped(d, w, from) && Placed(d, w) && GraphOk(d) && from < b && from < |d.g.blocks|
    && b in d.code && d.code[b] == [] && b in w.up && w.up[b] == from
    && next in d.code && b != next && next in w.up && w.up[next] in Chain(w.up, b) && next < |d.g.blocks| && b < |d.g.blocks|
  }

  lemma ArmPrepared(d: Gen, w: Witness, from: Block, b: Block, next: Block)
    requires ArmAt(d, w, from, b, next)
    ensures Prepared(d.Insert(b), w) && Extends(d, w, d.Insert(b), w)
  {
    InsertOk(d, b);
    InsertPlaced(d, w, b);
    ScopedKept(d, w, d.Insert(b), w, from, b);
  }

  lemma JumpPlaced(a: Gen, w: Witness, e: Gen, w1: Witness, next: Block) returns (w': Witness)
    requires Onward(a, w, e, w1) && next in w.up && w.up[next] in Chain(w.up, a.cur) && next < |a.g.blocks| && a.cur < |a.g.blocks|
    ensures Onward(a, w, e.BrIfOpen(next), w')
  {
    w' := w1;
    if !e.Terminated() {
      assert SameAt(w.up, w1.up, next);
      ChainBelow(w.up, w1.up, |a.g.blocks|, a.cur);
      ChainAbove(w1.up, a.cur, e.cur);
      w' := BrPlaced(e, w1, next);
      OnwardTrans(a, w, e, w1, e.Br(next), w');
    }
  }

  lemma {:induction false} ArmPlaced(d: Gen, w: Witness, from: Block, b: Block, s: Stmt, next: Block, r: Gen) returns (w': Witness)
    requires ArmAt(d, w, from, b, next) && StmtOk(d.types, d.ret, s) && r == GenArm(d, b, s, next)
    ensures Placed(r, w') && Extends(d, w, r, w')
    decreases s, 5
  {
    var a := d.Insert(b);
    ArmPrepared(d, w, from, b, next);
    var w1 := StmtPlaced(a, w, s);
    w' := JumpPlaced(a, w, GenStmt(a, s), w1, next);
    ExtendsTrans(d, w, a, w, r, w');
  }

  /** Going on in a block that was opened from the insert block. */
  lemma GoOn(st: Gen, w: Witness, h: Gen, w': Witness, cont: Block)
    requires Placed(h, w') && Extends(st, w, h, w') && cont in h.code && cont < |h.g.blocks|
    requires cont in w'.up && w'.up[cont] == st.cur && st.cur < cont
    ensures Onward(st, w, h.Insert(cont), w')
  {
    InsertPlaced(h, w', cont);
    ExtendsTrans(st, w, h, w', h.Insert(cont), w');
  }

  lemma StillOpened(d: Gen, w: Witness, f: Gen, w': Witness, x: Block)
    requires Extends(d, w, f, w') && x in d.code && x < |d.g.blocks| && x in w.up
    ensures x in f.code && x < |f.g.blocks| && x in w'.up && w'.up[x] == w.up[x]
  {
    assert PrefixAt(d, f, x) && SameAt(w.up, w'.up, x);
  }

  lemma ArmReadyToGo(st: Gen, w: Witness, d: Gen, w1: Witness, b: Block, next: Block)
    requires Prepared(st, w) && Onward(st, w, d, w1) && ForkedTo(st, d, b, next)
    requires b in w1.up && w1.up[b] == st.cur && st.cur < b < |d.g.blocks|
    requires next in w1.up && w1.up[next] in Chain(w1.up, b) && next < |d.g.blocks|
    ensures ArmAt(d, w1, st.cur, b, next)
  {
    PreparedAt(st, w);
    ScopedKept(st, w, d, w1, st.cur, st.cur);
  }

  /** On from the arms that were generated behind `d`, in a block that was opened there. */
  lemma Rejoined(st: Gen, w: Witness, d: Gen, w1: Witness, h: Gen, w': Witness, next: Block)
    requires Onward(st, w, d, w1) && Extends(d, w1, h, w') && Placed(h, w')
    requires next in d.code && next < |d.g.blocks| && next in w1.up && w1.up[next] == st.cur && st.cur < next
    ensures Onward(st, w, h.Insert(next), w')
  {
    StillOpened(d, w1, h, w', next);
    ExtendsTrans(st, w, d, w1, h, w');
    GoOn(st, w, h, w', next);
  }

  /** An arm ready to be generated in the first of two blocks behind a branch. */
  ghost predicate ForkedArm(st: Gen, w: Witness, d: Gen, w1: Witness, n: Block, next: Block, to: Block) {
    Onward(st, w, d, w1) && ArmAt(d, w1, st.cur, n, to) && SameScope(st, d) && st.cur < next && Waiting(d, w1, st.cur, next)
  }

  ghost predicate Waiting(d: Gen, w1: Witness, from: Block, next: Block) {
    next in d.code && next < |d.g.blocks| && next in w1.up && w1.up[next] == from
  }

  lemma ArmForked(st: Gen, w: Witness, d: Gen, w1: Witness, n: Block, next: Block)
    requires Prepared(st, w) && Onward(st, w, d, w1) && ForkedTo(st, d, n, next) && Opened(d, w1, st.cur, n) && next == n + 1
    ensures ForkedArm(st, w, d, w1, n, next, next)
  {
    ArmReadyToGo(st, w, d, w1, n, next);
  }

  lemma ForkForArm(st: Gen, w: Witness, v: I.Value, ty: Ty, d: Gen, n: Block, next: Block) returns (w1: Witness)
    requires Prepared(st, w) && Has(st, w, v) && n == st.Fresh() && next == n + 1 && d == Fork(st, v, ty)
    ensures ForkedArm(st, w, d, w1, n, next, next)
  {
    w1 := ForkPlaced(st, w, v, ty, d, n, next);
    ArmForked(st, w, d, w1, n, next);
  }

  lemma ForkForLoop(st: Gen, w: Witness, v: I.Value, ty: Ty, head: Block, d: Gen, n: Block, next: Block) returns (w1: Witness)
    requires Prepared(st, w) && Has(st, w, v) && n == st.Fresh() && next == n + 1 && d == Fork(st, v, ty)
    requires head in st.code && head < |st.g.blocks| && head in w.up && w.up[head] in Chain(w.up, st.cur)
    ensures ForkedArm(st, w, d, w1, n, next, head)
  {
    w1 := ForkPlaced(st, w, v, ty, d, n, next);
    HeadStays(st, w, d, w1, head, n);
    LoopForked(st, w, d, w1, n, next, head);
  }

  lemma LoopForked(st: Gen, w: Witness, d: Gen, w1: Witness, n: Block, next: Block, head: Block)
    requires Prepared(st, w) && Onward(st, w, d, w1) && ForkedTo(st, d, n, next) && Opened(d, w1, st.cur, n) && next == n + 1
    requires head in d.code && head < |d.g.blocks| && head in w1.up && w1.up[head] in Chain(w1.up, n) && head != n
    ensures ForkedArm(st, w, d, w1, n, next, head)
  {
    ArmReadyToGo(st, w, d, w1, n, head);
  }

  lemma ArmsForked(st: Gen, w: Witness, d: Gen, w1: Witness, n: Block, e: Block, next: Block)
    requires Prepared(st, w) && Onward(st, w, d, w1) && OpenedThree(d, w1, st.cur, n, e, next) && ForkedTo(st, d, n, next)
    ensures ForkedArm(st, w, d, w1, n, next, next) && Waiting(d, w1, st.cur, e)
  {
    ArmReadyToGo(st, w, d, w1, n, next);
  }

  lemma ForkForArms(st: Gen, w: Witness, v: I.Value, ty: Ty, d: Gen, n: Block, e: Block, next: Block) returns (w1: Witness)
    requires Prepared(st, w) && Has(st, w, v) && n == st.Fresh() && next == n + 1 && e == n + 2 && d == ForkElse(st, v, ty)
    ensures ForkedArm(st, w, d, w1, n, next, next) && Waiting(d, w1, st.cur, e) && d.code[e] == []
  {
    w1 := ForkElsePlaced(st, w, v, ty, d, n, e, next);
    ArmsForked(st, w, d, w1, n, e, next);
  }

  lemma {:induction false} OneArmPlaced(st: Gen, w: Witness, d: Gen, w1: Witness, n: Block, next: Block, to: Block, s: Stmt, f: Gen) returns (w': Witness)
    requires ForkedArm(st, w, d, w1, n, next, to) && StmtOk(d.types, d.ret, s) && f == GenArm(d, n, s, to)
    ensures Onward(st, w, f.Insert(next), w')
    decreases s, 6
  {
    w' := ArmPlaced(d, w1, st.cur, n, s, to, f);
    Rejoined(st, w, d, w1, f, w', next);
  }

  lemma {:induction false} TwoArmsPlaced(st: Gen, w: Witness, d: Gen, w1: Witness, n: Block, e: Block, next: Block, s: Stmt, f: Gen, h: Gen, r: Gen)
    returns (w': Witness)
    requires s.If? && s.no.Some? && StmtOk(d.types, d.ret, s.yes) && StmtOk(d.types, d.ret, s.no.value)
    requires ForkedArm(st, w, d, w1, n, next, next) && Waiting(d, w1, st.cur, e) && d.code[e] == [] && n != e && e != next && st.cur < e
    requires f == GenArm(d, n, s.yes, next) && h == GenArm(f, e, s.no.value, next) && r == h.Insert(next)
    ensures Onward(st, w, r, w')
    decreases s, 0
  {
    var w2 := ArmPlaced(d, w1, st.cur, n, s.yes, next, f);
    FirstArmGrew(d, n, s.yes, e, next, f);
    ElseAt(d, w1, f, w2, st.cur, n, e, next);
    w' := ArmPlaced(f, w2, st.cur, e, s.no.value, next, h);
    ExtendsTrans(d, w1, f, w2, h, w');
    Rejoined(st, w, d, w1, h, w', next);
  }

  lemma FirstArmGrew(d: Gen, n: Block, yes: Stmt, e: Block, next: Block, f: Gen)
    requires GraphOk(d) && n in d.code && next in d.code && n != next && d.code[n] == [] && StmtOk(d.types, d.ret, yes)
    requires f == GenArm(d, n, yes, next) && e in d.code && d.code[e] == [] && e != n
    ensures GraphOk(f) && f.types == d.types && f.addrs == d.addrs && f.ret == d.ret && f.code.Keys >= d.code.Keys && f.code[e] == []
  {
    ArmGrows(d, n, yes, next);
    assert SameBody(d, f, e);
    forall b | b in d.code
      ensures b in f.code
    {
      assert PrefixAt(d, f, b);
    }
  }

  lemma ElseAt(d: Gen, w1: Witness, f: Gen, w2: Witness, from: Block, n: Block, e: Block, next: Block)
    requires ArmAt(d, w1, from, n, next) && Waiting(d, w1, from, next) && Waiting(d, w1, from, e) && from < e && e != next && Extends(d, w1, f, w2) && Placed(f, w2)
    requires GraphOk(f) && f.types == d.types && f.addrs == d.addrs && f.code.Keys >= d.code.Keys && f.code[e] == []
    ensures ArmAt(f, w2, from, e, next)
  {
    StillOpened(d, w1, f, w2, e);
    StillOpened(d, w1, f, w2, next);
    ScopedKept(d, w1, f, w2, from, from);
  }

  // ----- statements, by induction -----

  lemma {:induction false} StmtPlaced(st: Gen, w: Witness, s: Stmt) returns (w': Witness)
    requires Prepared(st, w) && StmtOk(st.types, st.ret, s)
    ensures Onward(st, w, GenStmt(st, s), w')
    decreases s, 4
  {
    PreparedAt(st, w);
    match s
    case ExprStmt(None) =>
      OnwardRefl(st, w);
      w' := w;
    case ExprStmt(Some(e)) => w' := ExprPlaced(st, w, e);
    case Compound(decls, body) => w' := CompoundPlaced(st, w, decls, body);
    case If(_, _, _) => w' := IfPlaced(st, w, s);
    case While(cond, loop) => w' := WhilePlaced(st, w, cond, loop, GenStmt(st, s));
    case Return(None) => w' := EmitPlaced(st, w, I.Ret, []);
    case Return(Some(e)) => w' := ReturnPlaced(st, w, e);
  }

  lemma ReturnPlaced(st: Gen, w: Witness, e: Expr) returns (w': Witness)
    requires Prepared(st, w) && st.ret.Returns? && TypeOf(st.types, e).Some?
    ensures Onward(st, w, GenStmt(st, Return(Some(e))), w')
  {
    var r := GenExpr(st, e);
    var w1 := ExprPlaced(st, w, e);
    var c := Converting(r.st, r.v, Tag(st.types, e), st.ret.ty);
    var w2 := ConvertingPlaced(r.st, w1, r.v, Tag(st.types, e), st.ret.ty);
    OnwardTrans(st, w, r.st, w1, c.st, w2);
    w' := EmitPlaced(c.st, w2, I.Ret, [c.v]);
    OnwardTrans(st, w, c.st, w2, c.st.Emit(I.Ret, [c.v]), w');
  }

  lemma {:induction false} CompoundPlaced(st: Gen, w: Witness, decls: seq<Decl>, body: seq<Stmt>) returns (w': Witness)
    requires Prepared(st, w) && BodyOk(Declared(st.types + [map[]], decls), st.ret, body)
    ensures Onward(st, w, ExitScope(GenBody(GenDecls(EnterScope(st), decls), body)), w')
    decreases body, 2
  {
    var a := EnterScope(st);
    EnterPlaced(st, w);
    var b := GenDecls(a, decls);
    var w1 := DeclsPlaced(a, w, decls);
    DeclsGrow(a, decls);
    OnwardTrans(st, w, a, w, b, w1);
    w' := BodyPlaced(b, w1, body);
    var c := GenBody(b, body);
    OnwardTrans(st, w, b, w1, c, w');
    SameCodeOnward(st, w, c, w', ExitScope(c));
  }

  lemma {:induction false} BodyPlaced(st: Gen, w: Witness, body: seq<Stmt>) returns (w': Witness)
    requires Prepared(st, w) && BodyOk(st.types, st.ret, body)
    ensures Onward(st, w, GenBody(st, body), w')
    decreases body, 1
  {
    if body == [] {
      PreparedAt(st, w);
      OnwardRefl(st, w);
      w' := w;
    } else {
      var a := GenStmt(st, body[0]);
      w' := StmtPlaced(st, w, body[0]);
      StmtGrows(st, body[0]);
      if !a.Terminated() {
        var w1 := w';
        PreparedLater(st, w, a, w1);
        w' := BodyPlaced(a, w1, body[1..]);
        OnwardTrans(st, w, a, w1, GenBody(a, body[1..]), w');
      }
    }
  }

  lemma PreparedLater(st: Gen, w: Witness, a: Gen, w': Witness)
    requires Prepared(st, w) && Onward(st, w, a, w') && Ready(a) && a.types == st.types && a.addrs == st.addrs
    ensures Prepared(a, w')
  {
    PreparedAt(st, w);
    ScopedKept(st, w, a, w', st.cur, a.cur);
  }

  lemma {:induction false} IfPlaced(st: Gen, w: Witness, s: Stmt) returns (w': Witness)
    requires Prepared(st, w) && s.If? && StmtOk(st.types, st.ret, s)
    ensures Onward(st, w, GenStmt(st, s), w')
    decreases s, 3
  {
    var c, ty := GenExpr(st, s.cond), Tag(st.types, s.cond);
    ExprGrows(st, s.cond);
    var w1 := ExprPlaced(st, w, s.cond);
    PreparedKept(st, w, c.st, w1);
    w' := BranchPlaced(c, w1, ty, s);
    OnwardTrans(st, w, c.st, w1, GenIf(c, ty, s), w');
  }

  lemma {:induction false} BranchPlaced(c: Out, w: Witness, ty: Ty, s: Stmt) returns (w': Witness)
    requires Prepared(c.st, w) && Has(c.st, w, c.v) && s.If? && StmtOk(c.st.types, c.st.ret, s)
    ensures Onward(c.st, w, GenIf(c, ty, s), w')
    decreases s, 2
  {
    if s.no.None? {
      w' := ThenPlaced(c, w, ty, s);
    } else {
      w' := ThenElsePlaced(c, w, ty, s, GenIf(c, ty, s));
    }
  }

  lemma {:induction false} ThenPlaced(c: Out, w: Witness, ty: Ty, s: Stmt) returns (w': Witness)
    requires Prepared(c.st, w) && Has(c.st, w, c.v) && s.If? && s.no.None? && StmtOk(c.st.types, c.st.ret, s)
    ensures Onward(c.st, w, GenIf(c, ty, s), w')
    decreases s, 1
  {
    var st, n := c.st, c.st.Fresh();
    var next, d := n + 1, Fork(st, c.v, ty);
    var w1 := ForkForArm(st, w, c.v, ty, d, n, next);
    w' := OneArmPlaced(st, w, d, w1, n, next, next, s.yes, GenArm(d, n, s.yes, next));
  }

  lemma {:induction false} ThenElsePlaced(c: Out, w: Witness, ty: Ty, s: Stmt, r: Gen) returns (w': Witness)
    requires Prepared(c.st, w) && Has(c.st, w, c.v) && s.If? && s.no.Some? && StmtOk(c.st.types, c.st.ret, s) && r == GenIf(c, ty, s)
    ensures Onward(c.st, w, r, w')
    decreases s, 1
  {
    var st, n := c.st, c.st.Fresh();
    var next, e, d := n + 1, n + 2, ForkElse(st, c.v, ty);
    var w1 := ForkForArms(st, w, c.v, ty, d, n, e, next);
    var f := GenArm(d, n, s.yes, next);
    var h := GenArm(f, e, s.no.value, next);
    ElseIs(c, ty, s, n, e, next, d, f, h);
    w' := TwoArmsPlaced(st, w, d, w1, n, e, next, s, f, h, r);
  }

  /** A new block as the head of a loop, and the jump to it. */
  lemma HeadPlaced(st: Gen, w: Witness, head: Block, h: Gen) returns (w': Witness)
    requires Prepared(st, w) && head == st.Fresh() && h == st.NewBlock().BrIfOpen(head).Insert(head)
    ensures Prepared(h, w') && Onward(st, w, h, w') && head in w'.up && w'.up[head] == st.cur && st.cur < head < |h.g.blocks|
    ensures h.cur == head && h.types == st.types && h.ret == st.ret
  {
    var a := st.NewBlock();
    PreparedAt(st, w);
    NewBlockOk(st);
    HeadGrows(st);
    var w1 := BlockPlaced(st, w);
    assert PrefixAt(st, a, st.cur);
    var b := a.Br(head);
    w' := BrPlaced(a, w1, head);
    assert PrefixAt(a, b, head);
    ExtendsTrans(st, w, a, w1, b, w');
    assert !a.Terminated();
    GoOn(st, w, b, w', head);
    ScopedKept(st, w, h, w', st.cur, head);
  }

  lemma {:induction false} WhilePlaced(st: Gen, w: Witness, cond: Expr, loop: Stmt, r: Gen) returns (w': Witness)
    requires Prepared(st, w) && IsNumber(TypeOf(st.types, cond)) && StmtOk(st.types, st.ret, loop) && r == GenStmt(st, While(cond, loop))
    ensures Onward(st, w, r, w')
    decreases loop, 9
  {
    var head := st.Fresh();
    var h := st.NewBlock().BrIfOpen(head).Insert(head);
    var w1 := HeadPlaced(st, w, head, h);
    WhileIs(st, cond, loop, head, h);
    w' := RoundPlaced(h, w1, cond, GenExpr(h, cond), Tag(st.types, cond), head, loop, r);
    OnwardTrans(st, w, h, w1, r, w');
  }

  /** The condition and the body of a loop, from its head. */
  lemma {:induction false} RoundPlaced(h: Gen, w: Witness, cond: Expr, c: Out, ty: Ty, head: Block, loop: Stmt, r: Gen) returns (w': Witness)
    requires Prepared(h, w) && IsNumber(TypeOf(h.types, cond)) && StmtOk(h.types, h.ret, loop) && c == GenExpr(h, cond)
    requires h.cur == head && head in w.up && w.up[head] < head < |h.g.blocks| && r == GenLoop(c, ty, head, loop)
    ensures Onward(h, w, r, w')
    decreases loop, 8
  {
    var w1 := CondPlaced(h, w, cond, c, head);
    var st, n := c.st, c.st.Fresh();
    var next, d := n + 1, Fork(st, c.v, ty);
    var w2 := ForkForLoop(st, w1, c.v, ty, head, d, n, next);
    w' := LoopedPlaced(h, w, st, w1, d, w2, n, next, head, loop, GenArm(d, n, loop, head), r);
  }

  lemma {:induction false} LoopedPlaced(h: Gen, w: Witness, st: Gen, w1: Witness, d: Gen, w2: Witness, n: Block, next: Block, head: Block,
                                        loop: Stmt, f: Gen, r: Gen) returns (w': Witness)
    requires Onward(h, w, st, w1) && ForkedArm(st, w1, d, w2, n, next, head) && StmtOk(d.types, d.ret, loop)
    requires f == GenArm(d, n, loop, head) && r == f.Insert(next)
    ensures Onward(h, w, r, w')
    decreases loop, 7
  {
    w' := OneArmPlaced(st, w1, d, w2, n, next, head, loop, f);
    OnwardTrans(h, w, st, w1, r, w');
  }

  lemma CondPlaced(h: Gen, w: Witness, cond: Expr, c: Out, head: Block) returns (w1: Witness)
    requires Prepared(h, w) && IsNumber(TypeOf(h.types, cond)) && c == GenExpr(h, cond)
    requires h.cur == head && head in w.up && w.up[head] < head < |h.g.blocks|
    ensures Yields(h, w, c, w1) && Prepared(c.st, w1) && SameScope(h, c.st)
    ensures head in c.st.code && head < |c.st.g.blocks| && head in w1.up && w1.up[head] in Chain(w1.up, c.st.cur)
  {
    PreparedAt(h, w);
    ExprGrows(h, cond);
    w1 := ExprPlaced(h, w, cond);
    PreparedKept(h, w, c.st, w1);
    StillOpened(h, w, c.st, w1, head);
    HeadAbove(h, w, c.st, w1, head);
  }

  lemma HeadAbove(h: Gen, w1: Witness, c: Gen, w2: Witness, head: Block)
    requires Onward(h, w1, c, w2) && h.cur == head && head in w2.up && w2.up[head] < head
    ensures w2.up[head] in Chain(w2.up, c.cur)
  {
    ChainAbove(w2.up, head, c.cur);
  }

  lemma HeadStays(st: Gen, w: Witness, d: Gen, w1: Witness, head: Block, n: Block)
    requires Prepared(st, w) && Onward(st, w, d, w1) && head in st.code && head < |st.g.blocks| && head in w.up && w.up[head] in Chain(w.up, st.cur)
    requires n in w1.up && w1.up[n] == st.cur && st.cur < n
    ensures head in d.code && head < |d.g.blocks| && head in w1.up && w1.up[head] in Chain(w1.up, n)
  {
    PreparedAt(st, w);
    StillOpened(st, w, d, w1, head);
    ChainBelow(w.up, w1.up, |st.g.blocks|, st.cur);
  }

  // ----- functions -----

  /** At the start of a function only what is global is in scope. */
  lemma StartPlaced(types: Scopes<Shape>, addrs: Scopes<I.Value>, ret: RetTy, st: Gen)
    requires L.ScopeOk(types, addrs, 0) && st == Start(types, addrs, ret)
    ensures Prepared(st, Witness(map[], map[]))
  {
    var w := Witness(map[], map[]);
    StartOk(types, addrs, ret);
    forall a, b
      ensures EdgeUp(st.g, w.up, a, b)
    {
    }
    forall k: nat, x | k < |st.types| && x in st.types[k]
      ensures EntryUsable(st, w, st.cur, k, x)
    {
      assert L.EntryOk(types, addrs, 0, k, x);
    }
  }

  lemma ParamPlaced(st: Gen, w: Witness, p: Param, k: nat) returns (w': Witness)
    requires Prepared(st, w)
    ensures Prepared(GenParam(st, p, k), w') && Onward(st, w, GenParam(st, p, k), w')
  {
    var op, r := I.Alloca(!p.isArray), GenParam(st, p, k);
    var addr, a := st.Next(op), st.Emit(op, []);
    PreparedAt(st, w);
    var w1 := EmitPlaced(st, w, op, []);
    var b;
    b, w' := ArgumentPlaced(a, w1, k, addr);
    OnwardTrans(st, w, a, w1, b, w');
    ScopedKept(st, w, b, w', st.cur, st.cur);
    PushScoped(b, w', st.cur, r, p.name, ParamShape(p), addr);
    ParamGrows(st, p, k);
    SameCodeOnward(st, w, b, w', r);
  }

  lemma ArgumentPlaced(a: Gen, w: Witness, k: nat, addr: I.Value) returns (b: Gen, w': Witness)
    requires Defined.At(a, w) && Usable(a, w, a.cur, addr) && I.AddressOk(addr)
    ensures b == a.Emit(I.Store, [I.Argument(k), addr]) && Onward(a, w, b, w') && Usable(b, w', b.cur, addr)
  {
    var args := [I.Argument(k), addr];
    b := a.Emit(I.Store, args);
    forall j: nat
      ensures ArgFits(a, w, I.Store, args, j)
    {
    }
    w' := EmitPlaced(a, w, I.Store, args);
    UsableKept(a, w, b, w', a.cur, b.cur, addr);
  }

  lemma {:induction false} ParamsPlaced(st: Gen, w: Witness, params: seq<Param>) returns (w': Witness)
    requires Prepared(st, w)
    ensures Prepared(GenParams(st, params), w') && Onward(st, w, GenParams(st, params), w')
  {
    if params == [] {
      PreparedAt(st, w);
      OnwardRefl(st, w);
      w' := w;
    } else {
      var n := |params| - 1;
      var a := GenParams(st, params[..n]);
      var w1 := ParamsPlaced(st, w, params[..n]);
      w' := ParamPlaced(a, w1, params[n], n);
      OnwardTrans(st, w, a, w1, GenParam(a, params[n], n), w');
    }
  }

  /** Everything that is emitted for a function is in its place. */
  lemma FunctionPlaced(types: Scopes<Shape>, addrs: Scopes<I.Value>, ret: RetTy, params: seq<Param>, decls: seq<Decl>, body: seq<Stmt>) returns (w: Witness)
    requires L.ScopeOk(types, addrs, 0) && BodyOk(FunctionTypes(types, params, decls), ret, body)
    ensures Placed(GenFunction(types, addrs, ret, params, decls, body), w)
  {
    var s0 := Start(types, addrs, ret);
    StartPlaced(types, addrs, ret, s0);
    var s1 := GenParams(s0, params);
    StartOk(types, addrs, ret);
    ParamsGrow(s0, params);
    var w1 := ParamsPlaced(s0, Witness(map[], map[]), params);
    var s2 := GenDecls(s1, decls);
    DeclsGrow(s1, decls);
    var w2 := DeclsPlaced(s1, w1, decls);
    var s3 := GenBody(s2, body);
    w := BodyPlaced(s2, w2, body);
    if !s3.Terminated() {
      w := EmitPlaced(s3, w, I.Ret, if s3.ret.VoidT? then [] else [I.ConstantInt(0)]);
    }
  }

  // ----- what Mem2Reg asks of its input -----

  lemma InstrAccepted(f: Gen, w: Witness, b: Block, i: nat)
    requires Placed(f, w) && b in f.code && i < |f.code[b]|
    ensures P.AtSite(f.code, w.site, b, i) && S.InstrIn(f.code, w.site, b, i)
  {
    assert InstrPlaced(f.code, w, b, i);
    var ins := f.code[b][i];
    forall k: nat | k < |ins.args| && ins.args[k].Result?
      ensures S.Refers(f.code, w.site, ins.args[k])
    {
      assert ArgPlaced(f.code, w, b, i, ins, k);
    }
  }

  lemma UseAccepted(f: Gen, w: Witness, b: Block, i: nat, k: nat)
    requires Placed(f, w) && f.g.Valid() && f.g.Entry() == 0 && b in f.code && i < |f.code[b]| && k < |f.code[b][i].args|
    ensures S.UseIn(f.g, f.code, w.site, b, i, k)
  {
    assert InstrPlaced(f.code, w, b, i) && ArgPlaced(f.code, w, b, i, f.code[b][i], k);
    var v := f.code[b][i].args[k];
    if v.Result? {
      var d := w.site[v.id].0;
      forall p | Path(f.g, f.g.Entry(), p, b)
        ensures d in p
      {
        ChainDominates(f.g, w.up, p, b, d);
      }
    }
  }

  lemma ExitAccepted(f: Gen, b: Block)
    requires FunctionOk(f) && b in f.code
    ensures S.ExitIn(f.g, f.code, b)
  {
    assert BlockOk(f, b) && Finished(f, b);
    var last := f.code[b][|f.code[b]| - 1];
    forall l | l in last.labels
      ensures f.g.Edge(b, l)
    {
      assert last.op.CondBr? && |last.labels| == 2 ==> last.labels == [last.labels[0], last.labels[1]];
      assert l in Targets(f.code[b]);
    }
  }

  /** What the code generator emits for a function is code that Mem2Reg accepts: identities are unique, a definition
      dominates its uses, and the address of a scalar variable is only loaded from and stored to. */
  lemma GeneratedIsAccepted(types: Scopes<Shape>, addrs: Scopes<I.Value>, ret: RetTy, params: seq<Param>, decls: seq<Decl>, body: seq<Stmt>)
    returns (site: P.Site)
    requires L.ScopeOk(types, addrs, 0) && BodyOk(FunctionTypes(types, params, decls), ret, body)
    ensures var f := GenFunction(types, addrs, ret, params, decls, body);
            f.g.Valid() && f.g.Entry() == 0 && NoEntryPred(f.g) && S.InputOk(f.g, f.code, site) && P.IdsBelow(site, f.nextId)
  {
    var f := GenFunction(types, addrs, ret, params, decls, body);
    GeneratedIsWellFormed(types, addrs, ret, params, decls, body);
    var w := FunctionPlaced(types, addrs, ret, params, decls, body);
    site := w.site;
    PlacedIsAccepted(f, w);
  }

  lemma PlacedIsAccepted(f: Gen, w: Witness)
    requires FunctionOk(f) && Placed(f, w)
    ensures f.g.Entry() == 0 && S.InputOk(f.g, f.code, w.site) && P.IdsBelow(w.site, f.nextId)
  {
    assert BlockOk(f, f.cur) && Listed(f, 0);
    assert BlockOk(f, 0);
    forall b, i: int | b in f.code && 0 <= i < |f.code[b]|
      ensures P.AtSite(f.code, w.site, b, i) && S.InstrIn(f.code, w.site, b, i)
    {
      InstrAccepted(f, w, b, i);
    }
    forall b, i: int, k: int | b in f.code && 0 <= i < |f.code[b]| && 0 <= k < |f.code[b][i].args|
      ensures S.UseIn(f.g, f.code, w.site, b, i, k)
    {
      UseAccepted(f, w, b, i, k);
    }
    forall b | b in f.code
      ensures S.ExitIn(f.g, f.code, b)
    {
      ExitAccepted(f, b);
    }
    forall k | k in w.site
      ensures k < f.nextId
    {
      assert SiteBelow(w, k, f.nextId);
    }
  }
}
