/**
  Small functions on which the passes do not do what they are for.
 */
module Limits {
  import opened Cfg
  import opened IdomTree
  import opened DepthFirst
  import opened Frontier
  import opened Ir
  import opened PhiPlacement
  import opened SsaForm
  import opened Feeding
  import opened Filling

  // ----- a join with an unreachable predecessor -----

  /** The blocks of `while (x) { if (a) return 1; else return 2; }`: 1 is the loop head, 4 and 6 return, and
      5, where control would go on after the `if`, is branched to by nobody but branches back to 1.
      That the code generator emits this graph is proved in `BothReturn`. */
  function DeadJoin(): Graph {
    Graph([0, 1, 2, 3, 4, 5, 6],
          map[0 := [], 1 := [0, 5], 2 := [1], 3 := [1], 4 := [2], 5 := [], 6 := [2]],
          map[0 := [1], 1 := [3, 2], 2 := [6, 4], 3 := [], 4 := [], 5 := [1], 6 := []])
  }

  lemma DeadJoinValid()
    ensures DeadJoin().Valid() && NoEntryPred(DeadJoin())
  {
    var g := DeadJoin();
    forall a, b | g.Edge(a, b)
      ensures b in g.pred && a in g.pred[b]
    {
      assert a in {0, 1, 2, 3, 4, 5, 6};
    }
    forall a, b | b in g.pred && a in g.pred[b]
      ensures g.Edge(a, b)
    {
      assert b in {0, 1, 2, 3, 4, 5, 6};
    }
  }

  /** On this function the runner that starts in block 5 never arrives: `create_dominance_frontier`
      does not terminate, whatever the dominator tree. */
  lemma RunnerNeverStops(t: Tree, par: map<Block, Block>, n: nat)
    requires Complete(DeadJoin(), t, par)
    ensures DeadJoin().Valid() && NoEntryPred(DeadJoin())
    ensures DeadJoin().Edge(5, 1) && |DeadJoin().pred[1]| >= 2
    ensures Runner(t.up, 5, n) != GetIdom(t.up, 1)
  {
    DeadJoinValid();
    var g := DeadJoin();
    var live := {0, 1, 2, 3, 4, 6};
    forall x | x in live
      ensures SuccsIn(g, x, live)
    {
    }
    if p :| Path(g, g.Entry(), p, 5) {
      ClosedHoldsPath(g, live, p, 5);
      assert false;
    }
    assert Path(g, 0, [0, 1], 1);
    assert Reachable(g, 1) && !Reachable(g, 5);
    RunnerStopsIff(g, t, par, 5, 1);
  }

  // ----- a variable that only one branch sets -----

  /** The blocks of `void f(int c) { int a; int b; if (c) a = 1; else b = 2; }`. */
  function Diamond(): Graph {
    Graph([0, 1, 2, 3], map[0 := [], 1 := [0], 2 := [1, 3], 3 := [0]], map[0 := [3, 1], 1 := [2], 2 := [], 3 := [2]])
  }

  const C := Result(0, AllocaInst(true))
  const A := Result(2, AllocaInst(true))
  const B := Result(3, AllocaInst(true))

  /** Its code, as `OneBranchCode` proves; the comparison with zero is opcode 13. */
  function OneBranch(): Code {
    map[0 := [Instr(0, Alloca(true), [], []), Instr(1, Store, [Argument(0), C], []), Instr(2, Alloca(true), [], []),
              Instr(3, Alloca(true), [], []), Instr(4, Load, [C], []), Instr(5, Compute(13), [Result(4, OtherInst), ConstantInt(0)], []),
              Instr(6, CondBr, [Result(5, OtherInst)], [1, 3])],
        1 := [Instr(7, Store, [ConstantInt(1), A], []), Instr(8, Br, [], [2])],
        2 := [Instr(11, Ret, [], [])],
        3 := [Instr(9, Store, [ConstantInt(2), B], []), Instr(10, Br, [], [2])]]
  }

  lemma DiamondValid()
    ensures Diamond().Valid() && NoEntryPred(Diamond())
  {
    var g := Diamond();
    forall a, b | g.Edge(a, b)
      ensures b in g.pred && a in g.pred[b]
    {
      assert a in {0, 1, 2, 3};
    }
    forall a, b | b in g.pred && a in g.pred[b]
      ensures g.Edge(a, b)
    {
      assert b in {0, 1, 2, 3};
    }
  }

  /** The arm `x` stores `l` and the other arm, `b`, does not. */
  predicate Arms(x: Block, b: Block, l: Value) {
    (x == 1 && b == 3 && l == A) || (x == 3 && b == 1 && l == B)
  }

  lemma ArmStores(x: Block, b: Block, l: Value)
    requires Arms(x, b, l)
    ensures x in OneBranch() && StoresTo(OneBranch()[x], l) && !StoresTo(OneBranch()[b], l) && !StoresTo(OneBranch()[0], l)
  {
    var code := OneBranch();
    assert StoresLocal(code[x][0]) && code[x][0].args[1] == l;
  }

  /** Only `[0, b]` leads to an arm. */
  lemma PathToArm(q: seq<Block>, b: Block)
    requires Path(Diamond(), 0, q, b) && (b == 1 || b == 3)
    ensures q == [0, b]
  {
    var g := Diamond();
    DiamondValid();
    var n := |q| - 1;
    assert n > 0;
    StepOf(q, b, n);
    if n > 1 {
      StepOf(q, b, n - 1);
    }
  }

  lemma StepOf(q: seq<Block>, b: Block, j: nat)
    requires Path(Diamond(), 0, q, b) && 0 < j < |q|
    ensures q[j] in Diamond().pred && q[j - 1] in Diamond().pred[q[j]]
  {
    DiamondValid();
    assert Diamond().Edge(q[j - 1], q[j]);
  }

  lemma ArmsBelowEntry(b: Block)
    requires b == 1 || b == 3
    ensures Diamond().Valid() && IsIdom(Diamond(), 0, b) && Dom(Diamond(), b, b) && Reachable(Diamond(), b)
  {
    var g := Diamond();
    DiamondValid();
    assert Path(g, 0, [0, b], b);
    forall d | SDom(g, d, b)
      ensures Dom(g, d, 0)
    {
      assert d in [0, b];
    }
  }

  lemma JoinNeedsPhi(x: Block, b: Block, l: Value)
    requires Arms(x, b, l)
    ensures Diamond().Valid() && InIterated(Diamond(), StoreBlocks(OneBranch(), l), 2)
  {
    var g := Diamond();
    ArmsBelowEntry(x);
    ArmStores(x, b, l);
    assert x in StoreBlocks(OneBranch(), l);
    assert Path(g, 0, [0, b, 2], 2) && x !in [0, b, 2];
    assert g.Edge(x, 2);
    assert InFrontier(g, x, 2);
  }

  lemma ArmHasNoValue(x: Block, b: Block, l: Value)
    requires Arms(x, b, l)
    ensures Diamond().Valid() && Rival(Diamond(), OneBranch(), b, 2, l, x)
  {
    var g, code := Diamond(), OneBranch();
    ArmsBelowEntry(b);
    ArmsBelowEntry(x);
    JoinNeedsPhi(x, b, l);
    ArmStores(x, b, l);
    forall q | Path(g, 0, q, b)
      ensures !StoresOn(code, q, l)
    {
      PathToArm(q, b);
    }
    assert g.Edge(b, 2);
  }

  lemma OneBranchLoads()
    ensures Diamond().Valid() && LoadsSafe(Diamond(), OneBranch())
  {
    var g, code := Diamond(), OneBranch();
    DiamondValid();
    forall b, i | b in code && Reachable(g, b) && 0 <= i < |code[b]|
      ensures LoadSafe(g, code, b, i)
    {
      if LoadsLocal(code[b][i]) {
        assert b == 0 && i == 4;
        var body := code[0][..4];
        assert StoresLocal(body[1]) && body[1].args[1] == C;
      }
    }
  }

  /** The join gets phis for `a` and for `b`, but either arm has a value for one of them only: wherever the blocks are in
      memory, the arm that comes second finds an empty stack, and `re_name` fails its assertion. Yet no load reads a
      variable that is not set. */
  lemma OneBranchFails(address: Block -> int)
    requires Injective(address)
    ensures Diamond().Valid() && LoadsSafe(Diamond(), OneBranch()) && AssertFails(Diamond(), OneBranch(), address)
  {
    var g := Diamond();
    OneBranchLoads();
    ArmsBelowEntry(1);
    ArmsBelowEntry(3);
    if address(1) < address(3) {
      ArmHasNoValue(1, 3, A);
      assert Part(g, address, 0, 1, 3, 1, 3);
      assert Sooner(g, address, 1, 3);
    } else {
      assert address(1) != address(3);
      ArmHasNoValue(3, 1, B);
      assert Part(g, address, 0, 3, 1, 3, 1);
      assert Sooner(g, address, 3, 1);
    }
  }

  // ----- a variable of a loop body -----

  /** The blocks of `int t; while (c) { t = 1; f(t); }`. */
  function Loop(): Graph {
    Graph([0, 1, 2, 3], map[0 := [], 1 := [0, 2], 2 := [1], 3 := [1]], map[0 := [1], 1 := [3, 2], 2 := [1], 3 := []])
  }

  const T := Result(0, AllocaInst(true))

  function LoopLocal(): Code {
    map[0 := [Instr(0, Alloca(true), [], []), Instr(1, Br, [], [1])],
        1 := [Instr(2, CondBr, [Argument(0)], [2, 3])],
        2 := [Instr(3, Store, [ConstantInt(1), T], []), Instr(4, Load, [T], []), Instr(5, Call(0), [Result(4, OtherInst)], []),
              Instr(6, Br, [], [1])],
        3 := [Instr(7, Ret, [], [])]]
  }

  lemma LoopValid()
    ensures Loop().Valid() && NoEntryPred(Loop())
    ensures Path(Loop(), 0, [0, 1], 1) && Path(Loop(), 0, [0, 1, 2], 2)
  {
    var g := Loop();
    forall a, b | g.Edge(a, b)
      ensures b in g.pred && a in g.pred[b]
    {
      assert a in {0, 1, 2, 3};
    }
    forall a, b | b in g.pred && a in g.pred[b]
      ensures g.Edge(a, b)
    {
      assert b in {0, 1, 2, 3};
    }
  }

  lemma LoopStores(b: Block, v: Value)
    requires b in LoopLocal()
    ensures StoresTo(LoopLocal()[b], v) <==> b == 2 && v == T
  {
    var code := LoopLocal();
    assert StoresLocal(code[2][0]) && code[2][0].args[1] == T;
    if StoresTo(code[b], v) {
      var k :| 0 <= k < |code[b]| && StoresLocal(code[b][k]) && code[b][k].args[1] == v;
      assert b in {0, 1, 2, 3};
    }
  }

  /** Only the head of the loop gets a phi. */
  lemma LoopPhis(b: Block, v: Value)
    requires Loop().Valid() && InIterated(Loop(), StoreBlocks(LoopLocal(), v), b)
    ensures b == 1 && v == T
  {
    var g, code := Loop(), LoopLocal();
    LoopValid();
    var stores := StoreBlocks(code, v);
    forall x
      ensures x in stores <==> x == 2 && v == T
    {
      if x in code {
        LoopStores(x, v);
      }
    }
    var q := if v == T then {1} else {};
    forall x, y | (x in stores || x in q) && InFrontier(g, x, y)
      ensures y in q
    {
      FrontierOfLoop(x, y);
    }
    assert ClosedUnderFrontier(g, stores, q);
  }

  lemma FrontierOfLoop(x: Block, y: Block)
    requires Loop().Valid() && (x == 1 || x == 2) && InFrontier(Loop(), x, y)
    ensures y == 1
  {
    var g := Loop();
    LoopValid();
    var p: Block :| g.Edge(p, y) && Reachable(g, p) && Dom(g, x, p) && !SDom(g, x, y);
    if y != 1 {
      assert p == 1 && (y == 2 || y == 3);
      assert x in [0, 1];
      HeadDominates(y);
      assert false;
    }
  }

  lemma HeadDominates(y: Block)
    requires y == 2 || y == 3
    ensures Loop().Valid() && SDom(Loop(), 1, y)
  {
    var g := Loop();
    LoopValid();
    forall q | Path(g, 0, q, y)
      ensures 1 in q
    {
      var n := |q| - 1;
      assert n > 0 && g.Edge(q[n - 1], q[n]) && q[n - 1] in g.pred[q[n]];
    }
  }

  lemma LoopLoads()
    ensures Loop().Valid() && LoadsSafe(Loop(), LoopLocal())
  {
    var g, code := Loop(), LoopLocal();
    LoopValid();
    forall b, i | b in code && Reachable(g, b) && 0 <= i < |code[b]|
      ensures LoadSafe(g, code, b, i)
    {
      if LoadsLocal(code[b][i]) {
        assert b == 2 && i == 1;
        var body := code[2][..1];
        assert StoresLocal(body[0]) && body[0].args[1] == T;
      }
    }
  }

  lemma HeadIsNotFed()
    ensures Loop().Valid() && !StoredFirst(Loop(), LoopLocal())
  {
    var g, code := Loop(), LoopLocal();
    LoopValid();
    LoopStores(2, T);
    LoopStores(0, T);
    assert 2 in StoreBlocks(code, T) && g.Edge(2, 1) && Reachable(g, 2);
    assert 2 !in [0, 1];
    assert InFrontier(g, 2, 1);
    assert InIterated(g, StoreBlocks(code, T), 1);
    var q := [0, 1][..1];
    assert q == [0];
    assert !StoresOn(code, q, T);
    assert !JoinSafe(g, code, 1, T) && Reachable(g, 1) && 1 in code;
  }

  lemma BodyHasValue()
    ensures Loop().Valid() && SomeStore(Loop(), LoopLocal(), 2, T)
  {
    LoopValid();
    LoopStores(2, T);
    var q: seq<Block> := [0, 1, 2];
    assert StoresTo(LoopLocal()[q[2]], T);
    assert StoresOn(LoopLocal(), q, T);
  }

  /** The edge into the loop has no value for the phi of a variable that is set in the body first. But no entry in
      `var_val_stack` is left behind before that edge is taken: `re_name` gets through, and leaves the operand out. */
  lemma LoopLocalSucceeds(address: Block -> int)
    ensures Loop().Valid() && LoadsSafe(Loop(), LoopLocal()) && !StoredFirst(Loop(), LoopLocal())
    ensures !AssertFails(Loop(), LoopLocal(), address)
  {
    var g, code := Loop(), LoopLocal();
    LoopLoads();
    HeadIsNotFed();
    BodyHasValue();
    forall b, s, l, x
      ensures !(Rival(g, code, b, s, l, x) && Sooner(g, address, x, b))
    {
      if Rival(g, code, b, s, l, x) {
        LoopPhis(s, l);
        assert b in g.pred[1];
        EntryComesFirst(g, address, x);
      }
    }
  }
}

/**
  What goes wrong in the purity analysis when an address comes out of a phi.
 */
module PhiLimit {
  import opened Cfg
  import opened Ir
  import opened Program
  import opened FuncInfo
  import opened Options
  import opened Purity
  import opened Addresses

  const LOCAL := Result(0, AllocaInst(true))
  const CHOICE := Result(4, OtherInst)

  const ALLOCA := Instr(0, Alloca(true), [], [])
  const BRANCH := Instr(1, CondBr, [Argument(0)], [1, 2])
  const LEFT := Instr(2, Br, [], [3])
  const RIGHT := Instr(3, Br, [], [3])
  const PHI := Instr(4, Phi(LOCAL), [LOCAL, GlobalVariable(0)], [1, 2])
  const STORE := Instr(5, Store, [ConstantInt(5), CHOICE], [])
  const RET := Instr(6, Ret, [], [])

  /** `f(c)` stores to a local variable or to a global, as `c` says: two blocks join at a phi of the two addresses. */
  function Chooser(): Func {
    Func("f", [true], [0, 1, 2, 3], map[0 := [ALLOCA, BRANCH], 1 := [LEFT], 2 := [RIGHT], 3 := [PHI, STORE, RET]], {0, 4})
  }

  const BODY0 := [ALLOCA, BRANCH]
  const BODY3 := [PHI, STORE, RET]

  lemma DefsOfFour(code: Code, b0: Block, b1: Block, b2: Block, b3: Block)
    requires b0 in code && b1 in code && b2 in code && b3 in code
    ensures DefsOf(code, [b0, b1, b2, b3]) == DefsIn(code[b0]) + DefsIn(code[b1]) + DefsIn(code[b2]) + DefsIn(code[b3])
  {
    assert [b0, b1, b2, b3][..3] == [b0, b1, b2] && [b0, b1, b2][..2] == [b0, b1] && [b0, b1][..1] == [b0];
    assert DefsOf(code, [b0]) == DefsIn(code[b0]);
    assert DefsOf(code, [b0, b1]) == DefsIn(code[b0]) + DefsIn(code[b1]);
  }

  lemma BodyDefs()
    ensures DefsIn(BODY0) == map[0 := ALLOCA, 1 := BRANCH] && DefsIn([LEFT]) == map[2 := LEFT]
    ensures DefsIn([RIGHT]) == map[3 := RIGHT] && DefsIn(BODY3) == map[4 := PHI, 5 := STORE, 6 := RET]
  {
    DefsInSnoc([], ALLOCA);
    DefsInSnoc([ALLOCA], BRANCH);
    DefsInSnoc([], LEFT);
    DefsInSnoc([], RIGHT);
    DefsInSnoc([], PHI);
    DefsInSnoc([PHI], STORE);
    DefsInSnoc([PHI, STORE], RET);
    assert [] + [ALLOCA] == [ALLOCA] && [ALLOCA] + [BRANCH] == BODY0 && [] + [LEFT] == [LEFT] && [] + [RIGHT] == [RIGHT];
    assert [] + [PHI] == [PHI] && [PHI] + [STORE] == [PHI, STORE] && [PHI, STORE] + [RET] == BODY3;
  }

  function DefsOfChooser(): map<nat, Instr> {
    map[0 := ALLOCA, 1 := BRANCH, 2 := LEFT, 3 := RIGHT, 4 := PHI, 5 := STORE, 6 := RET]
  }

  lemma Together(d0: map<nat, Instr>, d1: map<nat, Instr>, d2: map<nat, Instr>, d3: map<nat, Instr>)
    requires d0 == map[0 := ALLOCA, 1 := BRANCH] && d1 == map[2 := LEFT] && d2 == map[3 := RIGHT] && d3 == map[4 := PHI, 5 := STORE, 6 := RET]
    ensures d0 + d1 + d2 + d3 == DefsOfChooser()
  {
  }

  lemma ChooserCode(f: Func)
    requires f == Chooser()
    ensures f.blocks == [0, 1, 2, 3] && f.code.Keys == {0, 1, 2, 3}
    ensures f.code[0] == BODY0 && f.code[1] == [LEFT] && f.code[2] == [RIGHT] && f.code[3] == BODY3
  {
  }

  lemma ChooserDefs(f: Func)
    requires f == Chooser()
    ensures f.Defs() == DefsOfChooser()
  {
    var code, blocks, b0: Block, b1: Block, b2: Block, b3: Block := f.code, f.blocks, 0, 1, 2, 3;
    ChooserCode(f);
    BodyDefs();
    DefsOfFour(code, b0, b1, b2, b3);
    Together(DefsIn(code[b0]), DefsIn(code[b1]), DefsIn(code[b2]), DefsIn(code[b3]));
  }

  lemma ChooserIsOrdered(f: Func)
    requires f.Defs() == DefsOfChooser() && f.scalar == [true] && f.pointers == {0, 4}
    ensures Ordered(f) && Typed(f) && IsRooted(f, CHOICE)
  {
    assert Base(f, PHI) == Some(LOCAL);
    assert Ordered(f);
    assert GetFirstAddr(f, LOCAL) == LOCAL;
    assert GetFirstAddr(f, CHOICE) == LOCAL;
  }

  lemma ChoiceIsRooted()
    ensures Ordered(Chooser()) && Typed(Chooser()) && IsRooted(Chooser(), CHOICE)
  {
    var f := Chooser();
    ChooserDefs(f);
    ChooserIsOrdered(f);
  }

  /** It is a function as the compiler has them. */
  lemma ChooserIsWellFormed(f: Func, b: Block, k: nat)
    requires f == Chooser() && f.At(b, k)
    ensures f.code[b][k] in {ALLOCA, BRANCH, LEFT, RIGHT, PHI, STORE, RET} && Names(DefsOfChooser(), f.code[b][k])
  {
    if b == 0 {
    } else if b == 3 {
    } else {
      assert b == 1 || b == 2;
    }
  }

  lemma NoEffect(f: Func, i: Instr)
    requires Ordered(f) && IsRooted(f, CHOICE) && i in {ALLOCA, BRANCH, LEFT, RIGHT, PHI, STORE, RET}
    ensures !IsSideEffectInst(f, i)
  {
  }

  lemma ChooserHasNoEffect(f: Func)
    requires f == Chooser()
    ensures f.Ok() && Ordered(f) && !TriviallyImpure(f)
  {
    ChoiceIsRooted();
    ChooserDefs(f);
    forall b: Block, k: nat | f.At(b, k)
      ensures Names(f.Defs(), f.code[b][k]) && !IsSideEffectInst(f, f.code[b][k])
    {
      ChooserIsWellFormed(f, b, k);
      NoEffect(f, f.code[b][k]);
    }
  }

  lemma ChoiceIsMixed()
    ensures Ordered(Chooser()) && !PhisRooted(Chooser()) && !OnlyLocals(Chooser(), CHOICE)
  {
    var f := Chooser();
    ChoiceIsRooted();
    ChooserDefs(f);
    assert PhiArg(f, 4, GlobalVariable(0)) && IsRooted(f, Result(4, OtherInst));
    assert Link(f, [CHOICE, GlobalVariable(0)], 0);
    assert Comes(f, [CHOICE, GlobalVariable(0)]);
  }

  /** `trivial_mark` sees no effect, because it follows a phi to its first operand only. */
  lemma ChooserLooksPure()
    ensures Chooser().Ok() && Typed(Chooser()) && Ordered(Chooser()) && !TriviallyImpure(Chooser())
    ensures IsRooted(Chooser(), CHOICE) && !OnlyLocals(Chooser(), CHOICE) && !PhisRooted(Chooser())
  {
    ChooserHasNoEffect(Chooser());
    ChoiceIsRooted();
    ChoiceIsMixed();
  }

  lemma EntryRuns(p: Prog, m: Machine, f: Func, a: Frame, w: World)
    requires a == Frame([Int(0)], 0) && 0 in f.code && f.code[0] == BODY0
    ensures Blocks(p, m, f, a, 0, 0, map[], w, 3) == Along(0, Blocks(p, m, f, a, 0, 2, map[0 := Pointer(Local(0, 0), 0)], w, 2))
  {
    var body, regs: Regs := BODY0, map[0 := Pointer(Local(0, 0), 0)];
    PhisSnoc(a, [], ALLOCA, 0, map[]);
    PhisSnoc(a, [ALLOCA], BRANCH, 0, map[]);
    StepsSnoc(p, m, a, [], ALLOCA, map[], w, 3);
    StepsSnoc(p, m, a, [ALLOCA], BRANCH, map[], w, 3);
    assert [] + [ALLOCA] == [ALLOCA] && [ALLOCA] + [BRANCH] == body;
    assert map[] + PhiValues(a, body, 0, map[]) == map[];
    assert Steps(p, m, a, body, map[], w, 3) == Going(regs, w);
    assert ExitOf(a, body, regs) == Goto(2);
  }

  lemma ArmRuns(p: Prog, m: Machine, f: Func, a: Frame, regs: Regs, w: World)
    requires 2 in f.code && f.code[2] == [RIGHT]
    ensures Blocks(p, m, f, a, 0, 2, regs, w, 2) == Along(2, Blocks(p, m, f, a, 2, 3, regs, w, 1))
  {
    PhisSnoc(a, [], RIGHT, 0, regs);
    StepsSnoc(p, m, a, [], RIGHT, regs, w, 2);
    assert [] + [RIGHT] == [RIGHT] && regs + map[] == regs;
    assert Steps(p, m, a, [RIGHT], regs, w, 2) == Going(regs, w);
  }

  lemma JoinPhis(a: Frame, regs: Regs)
    ensures PhiValues(a, BODY3, 2, regs) == map[4 := Pointer(Global(0), 0)]
  {
    assert PHI.labels[1] == 2;
    PhisSnoc(a, [], PHI, 2, regs);
    PhisSnoc(a, [PHI], STORE, 2, regs);
    PhisSnoc(a, [PHI, STORE], RET, 2, regs);
    assert [] + [PHI] == [PHI] && [PHI] + [STORE] == [PHI, STORE] && [PHI, STORE] + [RET] == BODY3;
  }

  lemma JoinSteps(p: Prog, m: Machine, a: Frame, regs: Regs, w: World, fuel: nat)
    requires 4 in regs && regs[4] == Pointer(Global(0), 0)
    ensures Steps(p, m, a, BODY3, regs, w, fuel) == Going(regs, WriteCell(w, Global(0), 0, Int(5)))
  {
    StepsSnoc(p, m, a, [], PHI, regs, w, fuel);
    StepsSnoc(p, m, a, [PHI], STORE, regs, w, fuel);
    StepsSnoc(p, m, a, [PHI, STORE], RET, regs, w, fuel);
    assert [] + [PHI] == [PHI] && [PHI] + [STORE] == [PHI, STORE] && [PHI, STORE] + [RET] == BODY3;
  }

  lemma JoinRuns(p: Prog, m: Machine, f: Func, a: Frame, regs: Regs, w: World)
    requires 3 in f.code && f.code[3] == BODY3
    ensures Blocks(p, m, f, a, 2, 3, regs, w, 1) == Returned(WriteCell(w, Global(0), 0, Int(5)), 0, [3])
  {
    JoinPhis(a, regs);
    JoinSteps(p, m, a, regs + PhiValues(a, BODY3, 2, regs), w, 1);
  }

  /** Yet `f(0)` stores to the global. */
  lemma ChooserStores(m: Machine, w: World)
    ensures var out := Invoke(map[0 := Chooser()], m, 0, [Int(0)], w, 0, 3);
            out.Returned? && out.path == [0, 2, 3] && out.w.trace == w.trace + [Stored(0, 0, Int(5))]
  {
    var f := Chooser();
    ChooserCode(f);
    var p, a, w0 := map[0 := f], Frame([Int(0)], 0), Cleared(w, 0);
    assert Received(f.scalar, [Int(0)], 0) == Int(0);
    assert Coerce(f.scalar, [Int(0)]) == [Int(0)];
    var regs: Regs := map[0 := Pointer(Local(0, 0), 0)];
    EntryRuns(p, m, f, a, w0);
    ArmRuns(p, m, f, a, regs, w0);
    JoinRuns(p, m, f, a, regs, w0);
  }
}

/**
  Why the converse needs the calls of pure functions to return.
 */
module LostLoop {
  import opened Cfg
  import opened Ir
  import opened Program
  import opened Spreading
  import opened FuncInfo
  import opened Liveness
  import opened DeadCode
  import opened Sweeping

  const SPIN := Instr(0, Br, [], [0])
  const CALL := Instr(0, Call(1), [], [])
  const RET := Instr(1, Ret, [], [])

  /** `void g() { while (1); }` */
  function Spinner(): Func {
    Func("g", [], [0], map[0 := [SPIN]], {})
  }

  /** `void main() { g(); }` */
  function Caller(): Func {
    Func("main", [], [0], map[0 := [CALL, RET]], {})
  }

  predicate Both(p: Prog) {
    p.Keys == {0, 1} && p[0] == Caller() && p[1] == Spinner()
  }

  lemma SpinnerDefs(f: Func)
    requires f == Spinner()
    ensures f.Defs() == map[0 := SPIN] && f.Ok() && Ordered(f)
  {
    DefsInSnoc([], SPIN);
    assert [] + [SPIN] == [SPIN] && [0][..0] == [];
    assert DefsOf(f.code, []) == map[];
  }

  lemma OneBlock(code: Code, b: Block)
    requires b in code
    ensures DefsOf(code, [b]) == DefsIn(code[b])
  {
    assert [b][..0] == [];
    assert DefsOf(code, []) == map[];
  }

  lemma CallerBody(body: seq<Instr>)
    requires body == [CALL, RET]
    ensures DefsIn(body) == map[0 := CALL, 1 := RET]
  {
    DefsInSnoc([], CALL);
    DefsInSnoc([CALL], RET);
    assert [] + [CALL] == [CALL] && [CALL] + [RET] == body;
  }

  lemma CallerDefs(f: Func)
    requires f == Caller()
    ensures f.Defs() == map[0 := CALL, 1 := RET] && f.Ok() && Ordered(f)
  {
    OneBlock(f.code, 0);
    CallerBody(f.code[0]);
    forall b: Block, k: nat | f.At(b, k)
      ensures Names(f.Defs(), f.code[b][k])
    {
    }
  }

  lemma FirstEdge(edges: Edges, roots: set<nat>, f: nat)
    requires f !in roots && Reaches(edges, roots, f)
    ensures exists g :: (f, g) in edges
  {
    var c :| Chain(edges, c) && c[0] == f && c[|c| - 1] in roots;
    assert Link(edges, c, 0);
  }

  lemma NoWayOut(edges: Edges, roots: set<nat>, f: nat)
    requires f !in roots && forall g :: (f, g) !in edges
    ensures !Reaches(edges, roots, f)
  {
    if Reaches(edges, roots, f) {
      FirstEdge(edges, roots, f);
    }
  }

  lemma CallerDead(isPure: map<nat, bool>)
    requires isPure == map[0 := false, 1 := true]
    ensures Dead(Caller().Defs(), isPure) == {0}
  {
    var defs := Caller().Defs();
    CallerDefs(Caller());
    NoWayOut(UseEdges(defs), Critical(defs, isPure), 0);
    ReachesNow(UseEdges(defs), Critical(defs, isPure), 1);
  }

  /** The analysis leaves the loop pure. */
  lemma AnalysisOfBoth(p: Prog)
    requires Both(p) && AllOrdered(p)
    ensures Analysis(p) == map[0 := false, 1 := true]
  {
    SpinnerIsPure(p);
    CallerIsBad(p);
  }

  lemma BothOrdered(p: Prog)
    requires Both(p)
    ensures AllOrdered(p)
  {
    SpinnerDefs(p[1]);
    CallerDefs(p[0]);
  }

  lemma CallerIsBad(p: Prog)
    requires Both(p) && AllOrdered(p)
    ensures Reaches(CallEdges(p), Bad(p), 0)
  {
    assert TriviallyImpure(p[0]);
    ReachesNow(CallEdges(p), Bad(p), 0);
  }

  lemma SpinnerIsPure(p: Prog)
    requires Both(p) && AllOrdered(p)
    ensures !Reaches(CallEdges(p), Bad(p), 1)
  {
    forall b: Block, k: nat | p[1].At(b, k)
      ensures p[1].code[b][k] == SPIN
    {
    }
    assert !TriviallyImpure(p[1]);
    NoWayOut(CallEdges(p), Bad(p), 1);
  }

  lemma {:induction false} Spins(p: Prog, m: Machine, f: Func, a: Frame, regs: Regs, w: World, fuel: nat)
    requires f == Spinner()
    ensures !Blocks(p, m, f, a, 0, 0, regs, w, fuel).Returned?
  {
    if fuel > 0 {
      PhisSnoc(a, [], SPIN, 0, regs);
      StepsSnoc(p, m, a, [], SPIN, regs, w, fuel);
      assert [] + [SPIN] == [SPIN] && regs + map[] == regs;
      assert Steps(p, m, a, f.code[0], regs, w, fuel) == Going(regs, w);
      Spins(p, m, f, a, regs, w, fuel - 1);
    }
  }

  lemma CallerPhis(a: Frame)
    ensures PhiValues(a, [CALL, RET], 0, map[]) == map[]
  {
    PhisSnoc(a, [], CALL, 0, map[]);
    PhisSnoc(a, [CALL], RET, 0, map[]);
    assert [] + [CALL] == [CALL] && [CALL] + [RET] == [CALL, RET];
  }

  lemma CallerHangs(p: Prog, m: Machine, f: Func, a: Frame, w: World, fuel: nat)
    requires Both(p) && f == p[0]
    ensures !Blocks(p, m, f, a, 0, 0, map[], w, fuel).Returned?
  {
    if fuel > 0 {
      var less: nat, deeper: nat, args := fuel - 1, a.depth + 1, EvalAll(a, map[], CALL.args);
      var regs: Regs := map[];
      CallerPhis(a);
      assert regs + PhiValues(a, [CALL, RET], 0, map[]) == regs;
      StepsSnoc(p, m, a, [], CALL, regs, w, fuel);
      StepsSnoc(p, m, a, [CALL], RET, regs, w, fuel);
      assert [] + [CALL] == [CALL] && [CALL] + [RET] == [CALL, RET];
      StepIsCall(p, m, a, CALL, args, regs, w, deeper, fuel, less);
      Spins(p, m, p[1], Frame(Coerce(p[1].scalar, args), deeper), map[], Cleared(w, deeper), less);
    }
  }

  lemma RestReturns(p: Prog, m: Machine, f: Func, a: Frame, w: World)
    requires 0 in f.code && f.code[0] == [RET]
    ensures Blocks(p, m, f, a, 0, 0, map[], w, 1).Returned?
  {
    PhisSnoc(a, [], RET, 0, map[]);
    StepsSnoc(p, m, a, [], RET, map[], w, 1);
    assert [] + [RET] == [RET];
  }

  lemma SweptBody(body: seq<Instr>, del: set<nat>)
    requires body == [CALL, RET] && 0 in del && 1 !in del
    ensures Without(body, del) == [RET]
  {
    WithoutSnoc([], CALL, del);
    WithoutSnoc([CALL], RET, del);
    assert [] + [CALL] == [CALL] && [CALL] + [RET] == body && [] + [RET] == [RET];
  }

  lemma Hangs(p: Prog, m: Machine, w: World, fuel: nat)
    requires Both(p)
    ensures !Invoke(p, m, 0, [], w, 0, fuel).Returned?
  {
    CallerHangs(p, m, p[0], Frame(Coerce(p[0].scalar, []), 0), Cleared(w, 0), fuel);
  }

  lemma SweptReturns(p: Prog, isPure: map<nat, bool>, m: Machine, w: World)
    requires Both(p) && isPure == map[0 := false, 1 := true]
    ensures Invoke(SweptAll(p, isPure), m, 0, [], w, 0, 1).Returned?
  {
    var f := p[0];
    CallerDead(isPure);
    SweptBody(f.code[0], Dead(f.Defs(), isPure));
    RestReturns(SweptAll(p, isPure), m, Swept(f, isPure), Frame(Coerce(f.scalar, []), 0), Cleared(w, 0));
  }

  /** `main` never returns, but it does without the dead call of a function that never does. */
  lemma LoopIsLost(p: Prog, m: Machine, w: World, fuel: nat)
    requires Both(p)
    ensures AllOrdered(p) && !Invoke(p, m, 0, [], w, 0, fuel).Returned?
    ensures Invoke(SweptAll(p, Analysis(p)), m, 0, [], w, 0, 1).Returned?
  {
    BothOrdered(p);
    AnalysisOfBoth(p);
    Hangs(p, m, w, fuel);
    SweptReturns(p, Analysis(p), m, w);
  }
}
