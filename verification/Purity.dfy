/**
  What it means to be pure: a call that ends leaves everything outside it as it was, and
  its result depends on its arguments alone.
 */
module Purity {
  import opened Cfg
  import opened Ir
  import opened Program
  import opened Spreading
  import opened FuncInfo

  /** A phi of addresses is an address into the same kind of object along every edge. */
  ghost predicate PhisRooted(f: Func)
    requires Ordered(f)
  {
    forall id, v {:trigger PhiArg(f, id, v)} :: PhiArg(f, id, v) && IsRooted(f, Result(id, OtherInst)) ==> v.ConstantInt? || IsRooted(f, v)
  }

  ghost predicate PhiArg(f: Func, id: nat, v: Value) {
    id in f.Defs() && f.Defs()[id].op.Phi? && v in f.Defs()[id].args
  }

  /** A function that `trivial_mark` accepts and that calls only functions of `pure`. */
  ghost predicate Harmless(p: Prog, f: Func, pure: set<nat>) {
    && f.Ok() && Ordered(f) && PhisRooted(f) && !f.IsDeclaration() && !HasArrayParam(f)
    && forall b: Block, k: nat {:trigger f.At(b, k)} :: f.At(b, k) ==> HarmlessInst(f, f.code[b][k], pure)
  }

  ghost predicate HarmlessInst(f: Func, i: Instr, pure: set<nat>)
    requires Ordered(f)
  {
    !IsSideEffectInst(f, i) && (i.op.Call? ==> i.op.callee in pure)
  }

  ghost predicate AllHarmless(p: Prog, pure: set<nat>) {
    forall f {:trigger f in pure} :: f in pure ==> f in p && Harmless(p, p[f], pure)
  }

  // ----- where addresses point -----

  predicate StaysLocal(depth: nat, v: Val) {
    v.Int? || (v.obj.Local? && v.obj.depth == depth)
  }

  ghost predicate RegsOk(f: Func, depth: nat, regs: Regs)
    requires Ordered(f)
  {
    forall v: Value {:trigger IsRooted(f, v)} :: IsRooted(f, v) ==> v.Result? && StaysLocal(depth, ReadReg(regs, v.id))
  }

  /** The kind recorded in a value does not matter to where it is rooted. */
  lemma KindDoesNotMatter(f: Func, id: nat, k: Kind, k': Kind)
    requires Ordered(f)
    ensures IsRooted(f, Result(id, k)) == IsRooted(f, Result(id, k'))
  {
  }

  lemma ComputeStaysLocal(m: Machine, f: Func, a: Frame, i: Instr, regs: Regs, mem: Memory, v: Value)
    requires Ordered(f) && Names(f.Defs(), i) && IsQuiet(i.op) && RegsOk(f, a.depth, regs) && IsRooted(f, v) && v.Result? && v.id == i.id
    ensures StaysLocal(a.depth, ResultIn(m, a, i, regs, mem))
  {
    if i.op.Gep? && i.args != [] {
      assert IsRooted(f, i.args[0]);
    }
  }

  lemma RegsOkSet(f: Func, depth: nat, regs: Regs, id: nat, x: Val)
    requires Ordered(f) && RegsOk(f, depth, regs)
    requires forall v: Value {:trigger IsRooted(f, v)} :: IsRooted(f, v) && v.Result? && v.id == id ==> StaysLocal(depth, x)
    ensures RegsOk(f, depth, regs[id := x])
  {
  }

  lemma {:induction false} PhiStaysLocal(f: Func, a: Frame, body: seq<Instr>, from: Block, regs: Regs, id: nat)
    requires Ordered(f) && PhisRooted(f) && AllNamed(f.Defs(), body) && RegsOk(f, a.depth, regs)
    requires id in PhiValues(a, body, from, regs) && IsRooted(f, Result(id, OtherInst))
    ensures StaysLocal(a.depth, PhiValues(a, body, from, regs)[id])
  {
    var n := |body| - 1;
    var i := body[n];
    if i.op.Phi? && i.id == id {
      assert Names(f.Defs(), i);
      var v := Incoming(i, from);
      if v in i.args {
        assert PhiArg(f, id, v);
      }
    } else {
      PhiStaysLocal(f, a, body[..n], from, regs, id);
    }
  }

  lemma EnterStaysLocal(f: Func, a: Frame, body: seq<Instr>, from: Block, regs: Regs)
    requires Ordered(f) && PhisRooted(f) && AllNamed(f.Defs(), body) && RegsOk(f, a.depth, regs)
    ensures RegsOk(f, a.depth, regs + PhiValues(a, body, from, regs))
  {
    var regs' := regs + PhiValues(a, body, from, regs);
    forall v: Value | IsRooted(f, v)
      ensures v.Result? && StaysLocal(a.depth, ReadReg(regs', v.id))
    {
      if v.id in PhiValues(a, body, from, regs) {
        KindDoesNotMatter(f, v.id, v.kind, OtherInst);
        PhiStaysLocal(f, a, body, from, regs, v.id);
      }
    }
  }

  // ----- nothing outside changes -----

  ghost predicate SameBelow(depth: nat, mem: Memory, mem': Memory) {
    forall obj, off {:trigger ReadCell(mem', obj, off)} :: IsBelow(obj, depth) ==> ReadCell(mem', obj, off) == ReadCell(mem, obj, off)
  }

  /** All that is outside the call at `depth` is the same: globals, the variables of the calls
      it is made from, and what has happened to the surroundings. */
  ghost predicate SameOutside(depth: nat, w: World, w': World) {
    w'.trace == w.trace && SameBelow(depth, w.mem, w'.mem)
  }

  lemma UntouchedTrans(depth: nat, deeper: nat, w: World, w': World, w'': World)
    requires SameOutside(depth, w, w') && SameOutside(deeper, w', w'') && depth <= deeper
    ensures SameOutside(depth, w, w'')
  {
    forall obj, off | IsBelow(obj, depth)
      ensures ReadCell(w''.mem, obj, off) == ReadCell(w.mem, obj, off)
    {
      assert IsBelow(obj, deeper);
      assert ReadCell(w'.mem, obj, off) == ReadCell(w.mem, obj, off);
    }
  }

  lemma ClearedUntouched(w: World, depth: nat)
    ensures SameOutside(depth, w, Cleared(w, depth))
  {
  }

  lemma StoreUntouched(f: Func, a: Frame, i: Instr, regs: Regs, w: World)
    requires Ordered(f) && RegsOk(f, a.depth, regs) && i.op.Store? && !IsSideEffectInst(f, i)
    ensures SameOutside(a.depth, w, DoStore(a, i, regs, w))
  {
    assert IsRooted(f, i.args[1]);
  }

  lemma {:induction false} StepUntouched(p: Prog, m: Machine, pure: set<nat>, f: Func, a: Frame, i: Instr, regs: Regs, w: World, fuel: nat)
    requires AllHarmless(p, pure) && Harmless(p, f, pure) && HarmlessInst(f, i, pure) && Names(f.Defs(), i) && RegsOk(f, a.depth, regs)
    ensures var s := Step(p, m, a, i, regs, w, fuel); SameOutside(a.depth, w, s.w) && (s.Going? ==> RegsOk(f, a.depth, s.regs))
    decreases fuel, 0, 0
  {
    if i.op.Call? {
      if fuel > 0 {
        InvokeUntouched(p, m, pure, i.op.callee, EvalAll(a, regs, i.args), w, a.depth + 1, fuel - 1);
        var out := Invoke(p, m, i.op.callee, EvalAll(a, regs, i.args), w, a.depth + 1, fuel - 1);
        UntouchedTrans(a.depth, a.depth + 1, w, w, out.w);
        if out.Returned? {
          RegsOkSet(f, a.depth, regs, i.id, Int(out.val));
        }
      }
    } else if i.op.Store? {
      StoreUntouched(f, a, i, regs, w);
    } else if IsQuiet(i.op) {
      forall v: Value | IsRooted(f, v) && v.Result? && v.id == i.id
        ensures StaysLocal(a.depth, ResultIn(m, a, i, regs, w.mem))
      {
        ComputeStaysLocal(m, f, a, i, regs, w.mem, v);
      }
      RegsOkSet(f, a.depth, regs, i.id, ResultIn(m, a, i, regs, w.mem));
    }
  }

  ghost predicate HarmlessBody(f: Func, body: seq<Instr>, pure: set<nat>)
    requires Ordered(f)
  {
    AllNamed(f.Defs(), body) && forall k {:trigger body[k]} :: 0 <= k < |body| ==> HarmlessInst(f, body[k], pure)
  }

  lemma BodyHarmless(p: Prog, f: Func, pure: set<nat>, b: Block)
    requires Harmless(p, f, pure) && b in f.code
    ensures HarmlessBody(f, f.code[b], pure)
  {
    NamedBody(f, b);
    forall k | 0 <= k < |f.code[b]|
      ensures HarmlessInst(f, f.code[b][k], pure)
    {
      assert f.At(b, k);
    }
  }

  lemma {:induction false} StepsUntouched(p: Prog, m: Machine, pure: set<nat>, f: Func, a: Frame, body: seq<Instr>, regs: Regs, w: World, fuel: nat)
    requires AllHarmless(p, pure) && Harmless(p, f, pure) && HarmlessBody(f, body, pure) && RegsOk(f, a.depth, regs)
    ensures var s := Steps(p, m, a, body, regs, w, fuel); SameOutside(a.depth, w, s.w) && (s.Going? ==> RegsOk(f, a.depth, s.regs))
    decreases fuel, 0, |body|
  {
    if body != [] {
      var n := |body| - 1;
      StepsUntouched(p, m, pure, f, a, body[..n], regs, w, fuel);
      var s := Steps(p, m, a, body[..n], regs, w, fuel);
      if s.Going? {
        StepUntouched(p, m, pure, f, a, body[n], s.regs, s.w, fuel);
        UntouchedTrans(a.depth, a.depth, w, s.w, Step(p, m, a, body[n], s.regs, s.w, fuel).w);
      }
    }
  }

  lemma {:induction false} BlocksUntouched(p: Prog, m: Machine, pure: set<nat>, f: Func, a: Frame, from: Block, b: Block, regs: Regs, w: World, fuel: nat)
    requires AllHarmless(p, pure) && Harmless(p, f, pure) && RegsOk(f, a.depth, regs)
    ensures SameOutside(a.depth, w, Blocks(p, m, f, a, from, b, regs, w, fuel).w)
    decreases fuel, 1, 0
  {
    if fuel > 0 && b in f.code {
      BodyHarmless(p, f, pure, b);
      EnterStaysLocal(f, a, f.code[b], from, regs);
      var regs1 := regs + PhiValues(a, f.code[b], from, regs);
      StepsUntouched(p, m, pure, f, a, f.code[b], regs1, w, fuel);
      var s := Steps(p, m, a, f.code[b], regs1, w, fuel);
      if s.Going? && ExitOf(a, f.code[b], s.regs).Goto? {
        var t := ExitOf(a, f.code[b], s.regs).target;
        BlocksUntouched(p, m, pure, f, a, b, t, s.regs, s.w, fuel - 1);
        UntouchedTrans(a.depth, a.depth, w, s.w, Blocks(p, m, f, a, b, t, s.regs, s.w, fuel - 1).w);
      }
    }
  }

  /** A call of a pure function has stored to no global, to no local variable of another call, and has called
      nothing outside the program, whether it returns, gets stuck or is still running. */
  lemma {:induction false} InvokeUntouched(p: Prog, m: Machine, pure: set<nat>, f: nat, args: seq<Val>, w: World, depth: nat, fuel: nat)
    requires AllHarmless(p, pure) && f in pure
    ensures SameOutside(depth, w, Invoke(p, m, f, args, w, depth, fuel).w)
    decreases fuel, 2, 0
  {
    assert Harmless(p, p[f], pure);
    var a := Frame(Coerce(p[f].scalar, args), depth);
    ClearedUntouched(w, depth);
    BlocksUntouched(p, m, pure, p[f], a, 0, p[f].blocks[0], map[], Cleared(w, depth), fuel);
    UntouchedTrans(depth, depth, w, Cleared(w, depth), Invoke(p, m, f, args, w, depth, fuel).w);
  }
}
