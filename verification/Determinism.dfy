/**
  Two calls of a pure function with the same arguments return the same, wherever and
  whenever they are made.
 */
module Determinism {
  import opened Cfg
  import opened Ir
  import opened Program
  import opened Spreading
  import opened FuncInfo
  import opened Purity

  /** The same number, or the same place in the local variables of the respective call. */
  predicate Twin(d1: nat, d2: nat, v1: Val, v2: Val) {
    match v1
    case Int(n) => v2 == v1
    case Pointer(Global(_), _) => v2 == v1
    case Pointer(Local(_, id), off) => v1.obj.depth == d1 && v2 == Pointer(Local(d2, id), off)
  }

  ghost predicate RegsTwin(d1: nat, d2: nat, r1: Regs, r2: Regs) {
    forall id {:trigger ReadReg(r1, id)} {:trigger ReadReg(r2, id)} :: Twin(d1, d2, ReadReg(r1, id), ReadReg(r2, id))
  }

  ghost predicate MemTwin(d1: nat, d2: nat, m1: Memory, m2: Memory) {
    forall id, off {:trigger ReadCell(m1, Local(d1, id), off)} {:trigger ReadCell(m2, Local(d2, id), off)} ::
      Twin(d1, d2, ReadCell(m1, Local(d1, id), off), ReadCell(m2, Local(d2, id), off))
  }

  ghost predicate FramesTwin(a1: Frame, a2: Frame) {
    a1.args == a2.args && forall k {:trigger a1.args[k]} :: 0 <= k < |a1.args| ==> a1.args[k].Int?
  }

  /** The same end along the same path: both get stuck, both go on for too long, or both return the same. */
  predicate SameEnd(o1: Outcome, o2: Outcome) {
    o1.path == o2.path &&
    match o1
    case Returned(_, v, _) => o2.Returned? && o2.val == v
    case Stuck(_, _) => o2.Stuck?
    case OutOfFuel(_, _) => o2.OutOfFuel?
  }

  ghost predicate ProgressTwin(d1: nat, d2: nat, p1: Progress, p2: Progress) {
    match p1
    case Going(r1, w1) => p2.Going? && RegsTwin(d1, d2, r1, p2.regs) && MemTwin(d1, d2, w1.mem, p2.w.mem)
    case Blocked(_) => p2.Blocked?
    case Starved(_) => p2.Starved?
  }

  lemma EvalTwin(a1: Frame, a2: Frame, r1: Regs, r2: Regs, v: Value)
    requires FramesTwin(a1, a2) && RegsTwin(a1.depth, a2.depth, r1, r2)
    ensures Twin(a1.depth, a2.depth, Eval(a1, r1, v), Eval(a2, r2, v))
  {
  }

  lemma IntsTwin(a1: Frame, a2: Frame, r1: Regs, r2: Regs, vs: seq<Value>)
    requires FramesTwin(a1, a2) && RegsTwin(a1.depth, a2.depth, r1, r2)
    ensures Ints(EvalAll(a1, r1, vs)) == Ints(EvalAll(a2, r2, vs))
  {
    forall k | 0 <= k < |vs|
      ensures AsInt(EvalAll(a1, r1, vs)[k]) == AsInt(EvalAll(a2, r2, vs)[k])
    {
      EvalTwin(a1, a2, r1, r2, vs[k]);
    }
  }

  lemma LoadsLocally(f: Func, a: Frame, i: Instr, regs: Regs)
    requires Ordered(f) && i.op.Load? && !IsSideEffectInst(f, i) && RegsOk(f, a.depth, regs)
    ensures |i.args| == 1 && StaysLocal(a.depth, Eval(a, regs, i.args[0]))
  {
    assert IsRooted(f, i.args[0]);
  }

  /** A harmless instruction does not touch the variables of a call that is over. */
  lemma NeitherDangles(f: Func, a1: Frame, a2: Frame, i: Instr, r1: Regs, r2: Regs)
    requires Ordered(f) && !IsSideEffectInst(f, i) && RegsOk(f, a1.depth, r1)
    requires FramesTwin(a1, a2) && RegsTwin(a1.depth, a2.depth, r1, r2)
    ensures !Dangles(a1, i, r1) && !Dangles(a2, i, r2)
  {
    if i.op.Load? || i.op.Store? {
      var v := i.args[|i.args| - 1];
      assert IsRooted(f, v);
      EvalTwin(a1, a2, r1, r2, v);
    }
  }

  lemma ResultTwin(m: Machine, a1: Frame, a2: Frame, i: Instr, r1: Regs, r2: Regs, w1: World, w2: World)
    requires IsQuiet(i.op)
    requires FramesTwin(a1, a2) && RegsTwin(a1.depth, a2.depth, r1, r2) && MemTwin(a1.depth, a2.depth, w1.mem, w2.mem)
    requires i.op.Load? ==> |i.args| == 1 && StaysLocal(a1.depth, Eval(a1, r1, i.args[0]))
    ensures Twin(a1.depth, a2.depth, ResultIn(m, a1, i, r1, w1.mem), ResultIn(m, a2, i, r2, w2.mem))
  {
    if i.op.Load? {
      EvalTwin(a1, a2, r1, r2, i.args[0]);
    } else {
      IntsTwin(a1, a2, r1, r2, i.args);
      if |i.args| > 0 {
        EvalTwin(a1, a2, r1, r2, i.args[0]);
      }
    }
  }

  lemma WriteTwin(d1: nat, d2: nat, w1: World, w2: World, id: nat, off: int, v1: Val, v2: Val)
    requires MemTwin(d1, d2, w1.mem, w2.mem) && Twin(d1, d2, v1, v2)
    ensures MemTwin(d1, d2, WriteCell(w1, Local(d1, id), off, v1).mem, WriteCell(w2, Local(d2, id), off, v2).mem)
  {
    var m1, m2 := WriteCell(w1, Local(d1, id), off, v1).mem, WriteCell(w2, Local(d2, id), off, v2).mem;
    forall j, o
      ensures Twin(d1, d2, ReadCell(m1, Local(d1, j), o), ReadCell(m2, Local(d2, j), o))
    {
      assert Twin(d1, d2, ReadCell(w1.mem, Local(d1, j), o), ReadCell(w2.mem, Local(d2, j), o));
    }
  }

  lemma StoreTwin(f: Func, a1: Frame, a2: Frame, i: Instr, r1: Regs, r2: Regs, w1: World, w2: World)
    requires Ordered(f) && i.op.Store? && !IsSideEffectInst(f, i)
    requires FramesTwin(a1, a2) && RegsTwin(a1.depth, a2.depth, r1, r2) && MemTwin(a1.depth, a2.depth, w1.mem, w2.mem)
    requires RegsOk(f, a1.depth, r1)
    ensures MemTwin(a1.depth, a2.depth, DoStore(a1, i, r1, w1).mem, DoStore(a2, i, r2, w2).mem)
  {
    assert IsRooted(f, i.args[1]);
    EvalTwin(a1, a2, r1, r2, i.args[0]);
    EvalTwin(a1, a2, r1, r2, i.args[1]);
    var addr := Eval(a1, r1, i.args[1]);
    if addr.Pointer? {
      WriteTwin(a1.depth, a2.depth, w1, w2, addr.obj.id, addr.off, Eval(a1, r1, i.args[0]), Eval(a2, r2, i.args[0]));
    }
  }

  lemma {:induction false} PhisTwin(a1: Frame, a2: Frame, body: seq<Instr>, from: Block, r1: Regs, r2: Regs)
    requires FramesTwin(a1, a2) && RegsTwin(a1.depth, a2.depth, r1, r2)
    ensures PhiValues(a1, body, from, r1).Keys == PhiValues(a2, body, from, r2).Keys
    ensures forall id :: id in PhiValues(a1, body, from, r1) ==>
              Twin(a1.depth, a2.depth, PhiValues(a1, body, from, r1)[id], PhiValues(a2, body, from, r2)[id])
  {
    if body != [] {
      var n := |body| - 1;
      PhisTwin(a1, a2, body[..n], from, r1, r2);
      EvalTwin(a1, a2, r1, r2, Incoming(body[n], from));
    }
  }

  lemma EnterTwin(a1: Frame, a2: Frame, body: seq<Instr>, from: Block, r1: Regs, r2: Regs)
    requires FramesTwin(a1, a2) && RegsTwin(a1.depth, a2.depth, r1, r2)
    ensures RegsTwin(a1.depth, a2.depth, r1 + PhiValues(a1, body, from, r1), r2 + PhiValues(a2, body, from, r2))
  {
    PhisTwin(a1, a2, body, from, r1, r2);
    var e1, e2 := r1 + PhiValues(a1, body, from, r1), r2 + PhiValues(a2, body, from, r2);
    forall id
      ensures Twin(a1.depth, a2.depth, ReadReg(e1, id), ReadReg(e2, id))
    {
      assert Twin(a1.depth, a2.depth, ReadReg(r1, id), ReadReg(r2, id));
    }
  }

  lemma SetTwin(d1: nat, d2: nat, r1: Regs, r2: Regs, id: nat, v1: Val, v2: Val)
    requires RegsTwin(d1, d2, r1, r2) && Twin(d1, d2, v1, v2)
    ensures RegsTwin(d1, d2, r1[id := v1], r2[id := v2])
  {
    var s1, s2 := r1[id := v1], r2[id := v2];
    forall j
      ensures Twin(d1, d2, ReadReg(s1, j), ReadReg(s2, j))
    {
      assert Twin(d1, d2, ReadReg(r1, j), ReadReg(r2, j));
    }
  }

  lemma ExitTwin(a1: Frame, a2: Frame, body: seq<Instr>, r1: Regs, r2: Regs)
    requires FramesTwin(a1, a2) && RegsTwin(a1.depth, a2.depth, r1, r2)
    ensures ExitOf(a1, body, r1) == ExitOf(a2, body, r2)
  {
    if body != [] && |body[|body| - 1].args| == 1 {
      EvalTwin(a1, a2, r1, r2, body[|body| - 1].args[0]);
    }
  }

  /** A call that leaves the frames below it alone does not disturb the likeness of its callers' variables. */
  lemma UntouchedTwin(d1: nat, d2: nat, w1: World, w2: World, w1': World, w2': World)
    requires MemTwin(d1, d2, w1.mem, w2.mem) && SameOutside(d1 + 1, w1, w1') && SameOutside(d2 + 1, w2, w2')
    ensures MemTwin(d1, d2, w1'.mem, w2'.mem)
  {
    forall id, off
      ensures Twin(d1, d2, ReadCell(w1'.mem, Local(d1, id), off), ReadCell(w2'.mem, Local(d2, id), off))
    {
      assert IsBelow(Local(d1, id), d1 + 1) && IsBelow(Local(d2, id), d2 + 1);
      assert ReadCell(w1'.mem, Local(d1, id), off) == ReadCell(w1.mem, Local(d1, id), off);
      assert ReadCell(w2'.mem, Local(d2, id), off) == ReadCell(w2.mem, Local(d2, id), off);
    }
  }

  lemma ArgsTwin(f: Func, a1: Frame, a2: Frame, r1: Regs, r2: Regs, vs: seq<Value>)
    requires FramesTwin(a1, a2) && RegsTwin(a1.depth, a2.depth, r1, r2) && !HasArrayParam(f)
    ensures Coerce(f.scalar, EvalAll(a1, r1, vs)) == Coerce(f.scalar, EvalAll(a2, r2, vs))
  {
    forall k | 0 <= k < |f.scalar|
      ensures Received(f.scalar, EvalAll(a1, r1, vs), k) == Received(f.scalar, EvalAll(a2, r2, vs), k)
    {
      assert f.scalar[k];
      if k < |vs| {
        EvalTwin(a1, a2, r1, r2, vs[k]);
      }
    }
  }

  lemma {:induction false} CallTwin(p: Prog, m: Machine, pure: set<nat>, g: nat, a1: Frame, a2: Frame, vs: seq<Value>,
                                    r1: Regs, r2: Regs, w1: World, w2: World, fuel: nat)
    requires AllHarmless(p, pure) && g in pure
    requires FramesTwin(a1, a2) && RegsTwin(a1.depth, a2.depth, r1, r2) && MemTwin(a1.depth, a2.depth, w1.mem, w2.mem)
    ensures var o1 := Invoke(p, m, g, EvalAll(a1, r1, vs), w1, a1.depth + 1, fuel);
            var o2 := Invoke(p, m, g, EvalAll(a2, r2, vs), w2, a2.depth + 1, fuel);
            SameEnd(o1, o2) && (o1.Returned? ==> MemTwin(a1.depth, a2.depth, o1.w.mem, o2.w.mem))
    decreases fuel, 3, 0
  {
    var vs1, vs2 := EvalAll(a1, r1, vs), EvalAll(a2, r2, vs);
    assert g in p && Harmless(p, p[g], pure);
    ArgsTwin(p[g], a1, a2, r1, r2, vs);
    InvokeTwin(p, m, pure, g, vs1, vs2, w1, w2, a1.depth + 1, a2.depth + 1, fuel);
    InvokeUntouched(p, m, pure, g, vs1, w1, a1.depth + 1, fuel);
    InvokeUntouched(p, m, pure, g, vs2, w2, a2.depth + 1, fuel);
    var o1, o2 := Invoke(p, m, g, vs1, w1, a1.depth + 1, fuel), Invoke(p, m, g, vs2, w2, a2.depth + 1, fuel);
    if o1.Returned? {
      UntouchedTwin(a1.depth, a2.depth, w1, w2, o1.w, o2.w);
    }
  }

  lemma {:induction false} StepTwin(p: Prog, m: Machine, pure: set<nat>, f: Func, a1: Frame, a2: Frame, i: Instr,
                                    r1: Regs, r2: Regs, w1: World, w2: World, fuel: nat)
    requires AllHarmless(p, pure) && Harmless(p, f, pure) && HarmlessInst(f, i, pure) && Names(f.Defs(), i)
    requires FramesTwin(a1, a2) && RegsTwin(a1.depth, a2.depth, r1, r2) && MemTwin(a1.depth, a2.depth, w1.mem, w2.mem)
    requires RegsOk(f, a1.depth, r1)
    ensures ProgressTwin(a1.depth, a2.depth, Step(p, m, a1, i, r1, w1, fuel), Step(p, m, a2, i, r2, w2, fuel))
    decreases fuel, 0, 0
  {
    NeitherDangles(f, a1, a2, i, r1, r2);
    if i.op.Call? {
      if fuel > 0 {
        CallTwin(p, m, pure, i.op.callee, a1, a2, i.args, r1, r2, w1, w2, fuel - 1);
        var out := Invoke(p, m, i.op.callee, EvalAll(a1, r1, i.args), w1, a1.depth + 1, fuel - 1);
        if out.Returned? {
          SetTwin(a1.depth, a2.depth, r1, r2, i.id, Int(out.val), Int(out.val));
        }
      }
    } else if i.op.Store? {
      StoreTwin(f, a1, a2, i, r1, r2, w1, w2);
    } else if IsQuiet(i.op) {
      if i.op.Load? {
        LoadsLocally(f, a1, i, r1);
      }
      ResultTwin(m, a1, a2, i, r1, r2, w1, w2);
      SetTwin(a1.depth, a2.depth, r1, r2, i.id, ResultIn(m, a1, i, r1, w1.mem), ResultIn(m, a2, i, r2, w2.mem));
    }
  }

  lemma {:induction false} StepsTwin(p: Prog, m: Machine, pure: set<nat>, f: Func, a1: Frame, a2: Frame, body: seq<Instr>,
                                     r1: Regs, r2: Regs, w1: World, w2: World, fuel: nat)
    requires AllHarmless(p, pure) && Harmless(p, f, pure) && HarmlessBody(f, body, pure)
    requires FramesTwin(a1, a2) && RegsTwin(a1.depth, a2.depth, r1, r2) && MemTwin(a1.depth, a2.depth, w1.mem, w2.mem)
    requires RegsOk(f, a1.depth, r1)
    ensures ProgressTwin(a1.depth, a2.depth, Steps(p, m, a1, body, r1, w1, fuel), Steps(p, m, a2, body, r2, w2, fuel))
    decreases fuel, 0, |body|
  {
    if body != [] {
      var n := |body| - 1;
      StepsTwin(p, m, pure, f, a1, a2, body[..n], r1, r2, w1, w2, fuel);
      StepsUntouched(p, m, pure, f, a1, body[..n], r1, w1, fuel);
      var s1, s2 := Steps(p, m, a1, body[..n], r1, w1, fuel), Steps(p, m, a2, body[..n], r2, w2, fuel);
      if s1.Going? {
        StepTwin(p, m, pure, f, a1, a2, body[n], s1.regs, s2.regs, s1.w, s2.w, fuel);
      }
    }
  }

  lemma {:induction false} BlocksTwin(p: Prog, m: Machine, pure: set<nat>, f: Func, a1: Frame, a2: Frame, from: Block, b: Block,
                                      r1: Regs, r2: Regs, w1: World, w2: World, fuel: nat)
    requires AllHarmless(p, pure) && Harmless(p, f, pure)
    requires FramesTwin(a1, a2) && RegsTwin(a1.depth, a2.depth, r1, r2) && MemTwin(a1.depth, a2.depth, w1.mem, w2.mem)
    requires RegsOk(f, a1.depth, r1)
    ensures SameEnd(Blocks(p, m, f, a1, from, b, r1, w1, fuel), Blocks(p, m, f, a2, from, b, r2, w2, fuel))
    decreases fuel, 1, 0
  {
    if fuel > 0 && b in f.code {
      BodyHarmless(p, f, pure, b);
      EnterTwin(a1, a2, f.code[b], from, r1, r2);
      EnterStaysLocal(f, a1, f.code[b], from, r1);
      var e1, e2 := r1 + PhiValues(a1, f.code[b], from, r1), r2 + PhiValues(a2, f.code[b], from, r2);
      StepsTwin(p, m, pure, f, a1, a2, f.code[b], e1, e2, w1, w2, fuel);
      StepsUntouched(p, m, pure, f, a1, f.code[b], e1, w1, fuel);
      var s1, s2 := Steps(p, m, a1, f.code[b], e1, w1, fuel), Steps(p, m, a2, f.code[b], e2, w2, fuel);
      if s1.Going? {
        ExitTwin(a1, a2, f.code[b], s1.regs, s2.regs);
        var e := ExitOf(a1, f.code[b], s1.regs);
        if e.Goto? {
          BlocksTwin(p, m, pure, f, a1, a2, b, e.target, s1.regs, s2.regs, s1.w, s2.w, fuel - 1);
        }
      }
    }
  }

  /** The result of a pure function depends only on what its parameters receive: not on memory, on what
      has happened before, or on how deep the call is. */
  lemma {:induction false} InvokeTwin(p: Prog, m: Machine, pure: set<nat>, f: nat, args1: seq<Val>, args2: seq<Val>,
                                      w1: World, w2: World, d1: nat, d2: nat, fuel: nat)
    requires AllHarmless(p, pure) && f in pure && f in p && Coerce(p[f].scalar, args1) == Coerce(p[f].scalar, args2)
    ensures SameEnd(Invoke(p, m, f, args1, w1, d1, fuel), Invoke(p, m, f, args2, w2, d2, fuel))
    decreases fuel, 2, 0
  {
    assert Harmless(p, p[f], pure);
    var a1, a2 := Frame(Coerce(p[f].scalar, args1), d1), Frame(Coerce(p[f].scalar, args2), d2);
    forall k | 0 <= k < |a1.args|
      ensures a1.args[k].Int?
    {
      assert p[f].scalar[k];
    }
    BlocksTwin(p, m, pure, p[f], a1, a2, 0, p[f].blocks[0], map[], map[], Cleared(w1, d1), Cleared(w2, d2), fuel);
  }

  // ----- the analysis is sound -----

  /** Every function that is called is one of the module. */
  ghost predicate CallsKnown(p: Prog) {
    forall g, f {:trigger Calls(p, g, f)} :: Calls(p, g, f) ==> f in p
  }

  /** The phis of addresses in the functions that are left pure are rooted. */
  ghost predicate PurePhisRooted(p: Prog)
    requires AllOrdered(p)
  {
    forall f {:trigger f in PureFunctions(p)} :: f in PureFunctions(p) ==> PhisRooted(p[f])
  }

  lemma PureIsHarmless(p: Prog, pure: set<nat>, f: nat)
    requires AllOrdered(p) && CallsKnown(p) && pure == PureFunctions(p) && f in pure && PhisRooted(p[f])
    ensures Harmless(p, p[f], pure)
  {
    var func := p[f];
    if f in Bad(p) {
      ReachesNow(CallEdges(p), Bad(p), f);
      assert false;
    }
    assert !TriviallyImpure(func);
    forall b: Block, k: nat | func.At(b, k)
      ensures HarmlessInst(func, func.code[b][k], pure)
    {
      var i := func.code[b][k];
      if i.op.Call? {
        var g := i.op.callee;
        assert Calls(p, f, g);
        assert (f, g) in CallEdges(p);
        if Reaches(CallEdges(p), Bad(p), g) {
          ReachesByEdge(CallEdges(p), Bad(p), f, g);
        }
      }
    }
  }

  /** The functions that the analysis leaves pure. */
  ghost function PureFunctions(p: Prog): set<nat>
    requires AllOrdered(p)
  {
    set f | f in p && !Reaches(CallEdges(p), Bad(p), f)
  }

  lemma PureAreHarmless(p: Prog)
    requires AllOrdered(p) && CallsKnown(p) && PurePhisRooted(p)
    ensures AllHarmless(p, PureFunctions(p))
  {
    forall f | f in PureFunctions(p)
      ensures f in p && Harmless(p, p[f], PureFunctions(p))
    {
      PureIsHarmless(p, PureFunctions(p), f);
    }
  }

  /** Purity is sound, mutual recursion included: a function that neither has an effect of its own nor reaches one
      that has leaves globals, other calls' variables and the outside alone however its call goes, and any two
      calls with the same arguments go through the same blocks and end the same way. */
  lemma PurityIsSound(p: Prog, m: Machine, f: nat, args1: seq<Val>, args2: seq<Val>, w1: World, w2: World, d1: nat, d2: nat, fuel: nat)
    requires AllOrdered(p) && CallsKnown(p) && PurePhisRooted(p)
    requires f in p && !Reaches(CallEdges(p), Bad(p), f)
    ensures var out := Invoke(p, m, f, args1, w1, d1, fuel); out.w.trace == w1.trace && SameBelow(d1, w1.mem, out.w.mem)
    ensures Coerce(p[f].scalar, args1) == Coerce(p[f].scalar, args2) ==>
              SameEnd(Invoke(p, m, f, args1, w1, d1, fuel), Invoke(p, m, f, args2, w2, d2, fuel))
  {
    PureAreHarmless(p);
    InvokeUntouched(p, m, PureFunctions(p), f, args1, w1, d1, fuel);
    if Coerce(p[f].scalar, args1) == Coerce(p[f].scalar, args2) {
      InvokeTwin(p, m, PureFunctions(p), f, args1, args2, w1, w2, d1, d2, fuel);
    }
  }
}
