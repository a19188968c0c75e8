/**
  Running a block of the input next to the same block after renaming.
 */
module Simulation {
  import opened Cfg
  import opened IdomTree
  import opened Ir
  import opened Running
  import opened Renaming
  import opened Rewriting
  import opened RenameSteps
  import opened SsaForm
  import opened Feeding

  // ----- the instructions that are left -----

  /** Renaming deletes loads and stores of local variables; `remove_alloca` deletes scalars. */
  predicate Gone(i: Instr) {
    Deleted(i) || i.op == Alloca(true)
  }

  function Sparse(ref: seq<Instr>, cur: seq<Instr>): seq<Instr>
    requires |ref| == |cur|
  {
    if ref == [] then []
    else
      var n := |ref| - 1;
      Sparse(ref[..n], cur[..n]) + (if Gone(ref[n]) then [] else [cur[n]])
  }

  function WithoutScalars(body: seq<Instr>): seq<Instr> {
    if body == [] then []
    else
      var n := |body| - 1;
      WithoutScalars(body[..n]) + (if body[n].op == Alloca(true) then [] else [body[n]])
  }

  lemma {:induction false} WithoutScalarsAppend(a: seq<Instr>, i: Instr)
    ensures WithoutScalars(a + [i]) == WithoutScalars(a) + (if i.op == Alloca(true) then [] else [i])
  {
    var s := a + [i];
    assert s[..|s| - 1] == a;
  }

  lemma {:induction false} WithoutScalarsTwice(body: seq<Instr>)
    ensures WithoutScalars(WithoutScalars(body)) == WithoutScalars(body)
  {
    if body != [] {
      var n := |body| - 1;
      WithoutScalarsTwice(body[..n]);
      if body[n].op != Alloca(true) {
        WithoutScalarsAppend(WithoutScalars(body[..n]), body[n]);
      } else {
        assert WithoutScalars(body) == WithoutScalars(body[..n]);
      }
    }
  }

  lemma {:induction false} KeptWithoutScalars(ref: seq<Instr>, cur: seq<Instr>)
    requires |ref| == |cur| && forall k :: 0 <= k < |ref| ==> cur[k].op == ref[k].op
    ensures WithoutScalars(Kept(ref, cur)) == Sparse(ref, cur)
  {
    if ref != [] {
      var n := |ref| - 1;
      KeptWithoutScalars(ref[..n], cur[..n]);
      if !Deleted(ref[n]) {
        WithoutScalarsAppend(Kept(ref[..n], cur[..n]), cur[n]);
      } else {
        assert Kept(ref, cur) == Kept(ref[..n], cur[..n]);
      }
    }
  }

  ghost function SparseSteps(m: Machine, ref: seq<Instr>, cur: seq<Instr>, s: State): State
    requires |ref| == |cur|
  {
    if ref == [] then s
    else
      var n := |ref| - 1;
      var s' := SparseSteps(m, ref[..n], cur[..n], s);
      if Gone(ref[n]) then s' else Step(m, cur[n], s')
  }

  lemma {:induction false} StepsSparse(m: Machine, ref: seq<Instr>, cur: seq<Instr>, s: State)
    requires |ref| == |cur|
    ensures Steps(m, Sparse(ref, cur), s) == SparseSteps(m, ref, cur, s)
  {
    if ref != [] {
      var n := |ref| - 1;
      StepsSparse(m, ref[..n], cur[..n], s);
      var rest := Sparse(ref[..n], cur[..n]);
      if !Gone(ref[n]) {
        assert (rest + [cur[n]])[..|rest + [cur[n]]| - 1] == rest;
      } else {
        assert Sparse(ref, cur) == rest;
      }
    }
  }

  // ----- replacements are stable -----

  lemma SubStep(p: Ssa, b: Block, i: nat, v: Value)
    requires p.CodeOk() && p.LoadsFed() && b in p.t.up && i < |p.Body(b)| && v in p.AvailAt(b, i)
    ensures Sub(p.At(b, i + 1).sub, v) == Sub(p.At(b, i).sub, v) && v in p.AvailAt(b, i + 1)
  {
    p.PointInvAt(b, i);
    p.Prefix(b, i);
    assert p.DefinedBefore(v, b, i);
    p.FreshResult(b, i, v);
  }

  lemma {:induction false} SubToEnd(p: Ssa, b: Block, i: nat, v: Value)
    requires p.CodeOk() && p.LoadsFed() && b in p.t.up && i <= |p.Body(b)| && v in p.AvailAt(b, i)
    ensures Sub(p.Out(b).sub, v) == Sub(p.At(b, i).sub, v) && v in p.AvailOut(b)
    decreases |p.Body(b)| - i
  {
    if i < |p.Body(b)| {
      SubStep(p, b, i, v);
      SubToEnd(p, b, i + 1, v);
    } else {
      assert p.Body(b)[..i] == p.Body(b);
    }
  }

  lemma AtStart(p: Ssa, b: Block)
    requires p.t.Ok() && b in p.t.up
    ensures p.At(b, 0) == p.In(b) && p.AvailAt(b, 0) == p.AvailIn(b)
  {
    assert p.Body(b)[..0] == [];
    assert Results([]) == {};
  }

  lemma AtEnd(p: Ssa, b: Block)
    requires p.t.Ok() && b in p.t.up
    ensures p.At(b, |p.Body(b)|) == p.Out(b) && p.AvailAt(b, |p.Body(b)|) == p.AvailOut(b)
  {
    assert p.Body(b)[..|p.Body(b)|] == p.Body(b);
  }

  lemma {:induction false} SubDown(p: Ssa, c: Block, d: Block, v: Value)
    requires p.CodeOk() && p.LoadsFed() && c in p.t.up && d in p.t.up && p.t.Anc(c, d) && v in p.AvailOut(d)
    ensures v in p.AvailOut(c) && Sub(p.Out(c).sub, v) == Sub(p.Out(d).sub, v)
    decreases p.t.id[p.t.root] - p.t.id[c]
  {
    if c != d {
      assert p.t.NodeOk(c);
      SubDown(p, p.t.up[c], d, v);
      assert p.In(c) == p.Out(p.t.up[c]) && p.AvailIn(c) == p.AvailOut(p.t.up[c]);
      AtStart(p, c);
      SubToEnd(p, c, 0, v);
    }
  }

  /** The final replacement of a value defined before a point is the one known there. */
  lemma SigmaIsSub(p: Ssa, s: Progress, b: Block, i: nat, v: Value)
    requires p.CodeOk() && p.LoadsFed() && SigmaOk(p, s) && b in p.t.up && Resolved(p, s, b)
    requires i <= |p.Body(b)| && v in p.AvailAt(b, i)
    ensures Sub(s.sigma, v) == Sub(p.At(b, i).sub, v)
  {
    SubToEnd(p, b, i, v);
    AtEnd(p, b);
    p.PointInvAt(b, |p.Body(b)|);
    if v in s.sigma {
      assert Replaced(p, s, v);
      assert v in p.Out(b).sub;
    }
  }

  // ----- the relation -----

  /** The results that both runs compute. */
  ghost predicate Plain(p: Ssa, v: Value) {
    && p.HasSite(v) && v.kind != AllocaInst(true)
    && var (d, j) := p.site[v.id]; HasResult(p.Body(d)[j].op) && !p.Body(d)[j].op.Phi?
  }

  ghost predicate RegAgrees(p: Ssa, m: Machine, b: Block, i: nat, so: State, sf: State, v: Value)
    requires p.t.Ok() && b in p.t.up && i <= |p.Body(b)|
  {
    Plain(p, v) ==> Eval(m, so.regs, v) == Eval(m, sf.regs, Sub(p.At(b, i).sub, v))
  }

  ghost predicate SlotAgrees(p: Ssa, m: Machine, b: Block, i: nat, so: State, sf: State, l: Value)
    requires p.t.Ok() && b in p.t.up && i <= |p.Body(b)|
  {
    var stack := StackOf(p.At(b, i).stack, l);
    stack != [] && p.HasSite(l) && Read(so.slots, l.id) == Eval(m, sf.regs, Top(stack))
  }

  /** Before position `i` of `b`, the input run `so` and the SSA run `sf` agree: on memory and the
      trace, on every computed value up to replacement, and each variable that the run has stored
      to (`done`) has a value on its stack and holds the latest of them. */
  ghost predicate Sim(p: Ssa, m: Machine, b: Block, i: nat, done: set<Value>, so: State, sf: State)
    requires p.t.Ok() && b in p.t.up && i <= |p.Body(b)|
  {
    && so.mem == sf.mem && so.trace == sf.trace
    && (forall v {:trigger RegAgrees(p, m, b, i, so, sf, v)} :: v in p.AvailAt(b, i) ==> RegAgrees(p, m, b, i, so, sf, v))
    && (forall l {:trigger SlotAgrees(p, m, b, i, so, sf, l)} :: l in done ==> SlotAgrees(p, m, b, i, so, sf, l))
  }

  /** The variables that have been stored to after instruction `i`. */
  function DoneAfter(done: set<Value>, i: Instr): set<Value> {
    if StoresLocal(i) then done + {i.args[1]} else done
  }

  /** A variable is loaded only if it has been stored to. */
  predicate LoadsDone(done: set<Value>, i: Instr) {
    LoadsLocal(i) ==> i.args[0] in done
  }

  /** Renaming is over. */
  ghost predicate Renamed(w: Build, s: Progress) {
    && w.Ok() && w.p.CodeOk() && w.p.LoadsFed() && SigmaOk(w.p, s)
    && (forall c {:trigger Resolved(w.p, s, c)} :: c in w.p.t.up ==> Resolved(w.p, s, c))
    && (forall e {:trigger multiset(s.fills)[e]} :: multiset(s.fills)[e] == EdgeCount(w.g, w.p.t.up.Keys, e))
  }

  // ----- one instruction -----

  lemma ArgAgrees(w: Build, s: Progress, m: Machine, b: Block, i: nat, k: nat, done: set<Value>, so: State, sf: State)
    requires Renamed(w, s) && b in w.p.t.up && i < |w.p.Body(b)| && k < |w.p.Body(b)[i].args|
    requires Sim(w.p, m, b, i, done, so, sf)
    requires var v := w.p.Body(b)[i].args[k]; !(v.Result? && v.kind == AllocaInst(true))
    ensures Eval(m, so.regs, w.p.Body(b)[i].args[k]) == Eval(m, sf.regs, Sub(s.sigma, w.p.Body(b)[i].args[k]))
    ensures Eval(m, so.regs, w.p.Body(b)[i].args[k]) == Eval(m, sf.regs, Sub(w.p.At(b, i).sub, w.p.Body(b)[i].args[k]))
  {
    var p := w.p;
    var v := p.Body(b)[i].args[k];
    w.SplitReachable(b);
    if v.Result? {
      assert p.UseOk(b, i, k);
      w.ArgRefers(b, i, k);
      w.RefersPlain(v);
      assert RegAgrees(p, m, b, i, so, sf, v);
      SigmaIsSub(p, s, b, i, v);
    } else {
      p.PointInvAt(b, i);
      assert v in s.sigma ==> Replaced(p, s, v);
      assert v in p.At(b, i).sub ==> p.IsLocalLoad(v);
    }
  }

  lemma StepFrame(m: Machine, i: Instr, s: State, id: nat)
    requires id != i.id
    ensures Read(Step(m, i, s).regs, id) == Read(s.regs, id)
  {
  }

  /** A value that outlives the point before an instruction is not changed by it. */
  lemma LastingFrame(p: Ssa, m: Machine, b: Block, i: nat, ins: Instr, s: State, v: Value)
    requires p.CodeOk() && p.LoadsFed() && b in p.t.up && i < |p.Body(b)|
    requires p.Lasting(p.AvailAt(b, i), v) && ins.id == p.Body(b)[i].id
    ensures Eval(m, Step(m, ins, s).regs, v) == Eval(m, s.regs, v)
  {
    if v.Result? {
      p.PointInvAt(b, i);
      assert p.DefinedBefore(v, b, i);
      p.FreshResult(b, i, v);
      StepFrame(m, ins, s, v.id);
    }
  }

  /** The two runs see the same effect of the instruction, and the same result. */
  ghost predicate EffectAgrees(p: Ssa, m: Machine, b: Block, i: nat, so': State, sf': State)
    requires p.t.Ok() && b in p.t.up && i < |p.Body(b)|
  {
    var ins := p.Body(b)[i];
    && so'.mem == sf'.mem && so'.trace == sf'.trace
    && (HasResult(ins.op) && ins.op != Alloca(true) ==>
          Read(so'.regs, ins.id) == Eval(m, sf'.regs, Sub(p.At(b, i + 1).sub, ResultOf(ins))))
  }

  lemma EffectLocal(w: Build, s: Progress, m: Machine, b: Block, i: nat, done: set<Value>, so: State, sf: State)
    requires Renamed(w, s) && b in w.p.t.up && i < |w.p.Body(b)| && Gone(w.p.Body(b)[i])
    requires Sim(w.p, m, b, i, done, so, sf) && LoadsDone(done, w.p.Body(b)[i])
    ensures EffectAgrees(w.p, m, b, i, Step(m, w.p.Body(b)[i], so), sf)
  {
    var p := w.p;
    var ins := p.Body(b)[i];
    w.SplitReachable(b);
    assert p.InstrOk(b, i);
    if LoadsLocal(ins) {
      p.Prefix(b, i);
      assert SlotAgrees(p, m, b, i, so, sf, ins.args[0]);
    }
  }

  /** An instruction that stays computes its result under its own name. */
  lemma OwnName(w: Build, s: Progress, b: Block, i: nat)
    requires Renamed(w, s) && b in w.p.t.up && i < |w.p.Body(b)| && !LoadsLocal(w.p.Body(b)[i])
    ensures ResultOf(w.p.Body(b)[i]) !in w.p.At(b, i + 1).sub
  {
    var p := w.p;
    w.SplitReachable(b);
    p.PointInvAt(b, i + 1);
    assert p.InstrOk(b, i);
  }

  lemma ArgsAgree(w: Build, s: Progress, m: Machine, b: Block, i: nat, done: set<Value>, so: State, sf: State)
    requires Renamed(w, s) && b in w.p.t.up && i < |w.p.Body(b)| && Sim(w.p, m, b, i, done, so, sf)
    requires !w.p.Body(b)[i].op.Load? && !w.p.Body(b)[i].op.Store?
    ensures EvalAll(m, so.regs, w.p.Body(b)[i].args) == EvalAll(m, sf.regs, SubAll(s.sigma, w.p.Body(b)[i].args))
  {
    var args := w.p.Body(b)[i].args;
    forall k | 0 <= k < |args|
      ensures EvalAll(m, so.regs, args)[k] == EvalAll(m, sf.regs, SubAll(s.sigma, args))[k]
    {
      assert w.p.UseOk(b, i, k);
      ArgAgrees(w, s, m, b, i, k, done, so, sf);
    }
  }

  lemma StepSame(m: Machine, i: Instr, i': Instr, so: State, sf: State)
    requires i'.op == i.op && i'.id == i.id && !i.op.Load? && !i.op.Store? && !i.op.Phi?
    requires so.mem == sf.mem && so.trace == sf.trace && EvalAll(m, so.regs, i.args) == EvalAll(m, sf.regs, i'.args)
    ensures Step(m, i, so).mem == Step(m, i', sf).mem && Step(m, i, so).trace == Step(m, i', sf).trace
    ensures HasResult(i.op) ==> Read(Step(m, i, so).regs, i.id) == Read(Step(m, i', sf).regs, i.id)
  {
  }

  lemma EffectPure(w: Build, s: Progress, m: Machine, b: Block, i: nat, done: set<Value>, so: State, sf: State)
    requires Renamed(w, s) && b in w.p.t.up && i < |w.p.Body(b)| && !Gone(w.p.Body(b)[i]) && !w.p.Body(b)[i].op.Phi?
    requires !w.p.Body(b)[i].op.Load? && !w.p.Body(b)[i].op.Store?
    requires Sim(w.p, m, b, i, done, so, sf)
    ensures EffectAgrees(w.p, m, b, i, Step(m, w.p.Body(b)[i], so), Step(m, Rewrite(s.sigma, w.p.Body(b)[i]), sf))
  {
    OwnName(w, s, b, i);
    ArgsAgree(w, s, m, b, i, done, so, sf);
    StepSame(m, w.p.Body(b)[i], Rewrite(s.sigma, w.p.Body(b)[i]), so, sf);
  }

  lemma LoadSame(m: Machine, i: Instr, i': Instr, so: State, sf: State)
    requires i'.op == i.op && i'.id == i.id && i.op.Load? && |i.args| == 1 && |i'.args| == 1 && i'.args[0] == i.args[0] && !IsLocal(i.args[0])
    requires so.mem == sf.mem && so.trace == sf.trace && Eval(m, so.regs, i.args[0]) == Eval(m, sf.regs, i.args[0])
    ensures Step(m, i, so).mem == Step(m, i', sf).mem && Step(m, i, so).trace == Step(m, i', sf).trace
    ensures Read(Step(m, i, so).regs, i.id) == Read(Step(m, i', sf).regs, i.id)
  {
  }

  lemma StoreSame(m: Machine, i: Instr, i': Instr, so: State, sf: State)
    requires i'.op == i.op && i.op.Store? && |i.args| == 2 && |i'.args| == 2 && i'.args[1] == i.args[1] && !IsLocal(i.args[1])
    requires so.mem == sf.mem && so.trace == sf.trace && Eval(m, so.regs, i.args[1]) == Eval(m, sf.regs, i.args[1])
    requires Eval(m, so.regs, i.args[0]) == Eval(m, sf.regs, i'.args[0])
    ensures Step(m, i, so).mem == Step(m, i', sf).mem && Step(m, i, so).trace == Step(m, i', sf).trace
  {
  }

  lemma EffectLoad(w: Build, s: Progress, m: Machine, b: Block, i: nat, done: set<Value>, so: State, sf: State)
    requires Renamed(w, s) && b in w.p.t.up && i < |w.p.Body(b)| && !Gone(w.p.Body(b)[i]) && w.p.Body(b)[i].op.Load?
    requires Sim(w.p, m, b, i, done, so, sf)
    ensures EffectAgrees(w.p, m, b, i, Step(m, w.p.Body(b)[i], so), Step(m, Rewrite(s.sigma, w.p.Body(b)[i]), sf))
  {
    var ins := w.p.Body(b)[i];
    w.SplitReachable(b);
    assert w.p.InstrOk(b, i);
    OwnName(w, s, b, i);
    AddressesStay(w.p, s, ins.args[0]);
    ArgAgrees(w, s, m, b, i, 0, done, so, sf);
    LoadSame(m, ins, Rewrite(s.sigma, ins), so, sf);
  }

  lemma EffectStore(w: Build, s: Progress, m: Machine, b: Block, i: nat, done: set<Value>, so: State, sf: State)
    requires Renamed(w, s) && b in w.p.t.up && i < |w.p.Body(b)| && !Gone(w.p.Body(b)[i]) && w.p.Body(b)[i].op.Store?
    requires Sim(w.p, m, b, i, done, so, sf)
    ensures EffectAgrees(w.p, m, b, i, Step(m, w.p.Body(b)[i], so), Step(m, Rewrite(s.sigma, w.p.Body(b)[i]), sf))
  {
    var ins := w.p.Body(b)[i];
    w.SplitReachable(b);
    assert w.p.InstrOk(b, i) && w.p.UseOk(b, i, 0);
    AddressesStay(w.p, s, ins.args[1]);
    ArgAgrees(w, s, m, b, i, 0, done, so, sf);
    ArgAgrees(w, s, m, b, i, 1, done, so, sf);
    StoreSame(m, ins, Rewrite(s.sigma, ins), so, sf);
  }

  ghost function StepLeft(m: Machine, p: Ssa, s: Progress, b: Block, ins: Instr, sf: State): State
    requires p.t.Ok()
  {
    if Gone(ins) then sf else Step(m, Target(p, s, b, ins), sf)
  }

  lemma Effect(w: Build, s: Progress, m: Machine, b: Block, i: nat, done: set<Value>, so: State, sf: State)
    requires Renamed(w, s) && b in w.p.t.up && i < |w.p.Body(b)| && !w.p.Body(b)[i].op.Phi?
    requires Sim(w.p, m, b, i, done, so, sf) && LoadsDone(done, w.p.Body(b)[i])
    ensures EffectAgrees(w.p, m, b, i, Step(m, w.p.Body(b)[i], so), StepLeft(m, w.p, s, b, w.p.Body(b)[i], sf))
  {
    var ins := w.p.Body(b)[i];
    if Gone(ins) {
      EffectLocal(w, s, m, b, i, done, so, sf);
    } else if ins.op.Load? {
      EffectLoad(w, s, m, b, i, done, so, sf);
    } else if ins.op.Store? {
      EffectStore(w, s, m, b, i, done, so, sf);
    } else {
      EffectPure(w, s, m, b, i, done, so, sf);
    }
  }

  /** A value that was there before the instruction. */
  lemma OldReg(w: Build, s: Progress, m: Machine, b: Block, i: nat, j: nat, done: set<Value>, so: State, sf: State, v: Value)
    requires Renamed(w, s) && b in w.p.t.up && j == i + 1 <= |w.p.Body(b)| && !w.p.Body(b)[i].op.Phi?
    requires Sim(w.p, m, b, i, done, so, sf) && v in w.p.AvailAt(b, i)
    ensures RegAgrees(w.p, m, b, j, Step(m, w.p.Body(b)[i], so), StepLeft(m, w.p, s, b, w.p.Body(b)[i], sf), v)
  {
    var p, ins := w.p, w.p.Body(b)[i];
    p.PointInvAt(b, i);
    assert p.DefinedBefore(v, b, i);
    p.FreshResult(b, i, v);
    StepFrame(m, ins, so, v.id);
    SubStep(p, b, i, v);
    assert RegAgrees(p, m, b, i, so, sf, v);
    if Plain(p, v) {
      LastingFrame(p, m, b, i, Target(p, s, b, ins), sf, Sub(p.At(b, i).sub, v));
    }
  }

  /** The result of the instruction. */
  lemma NewReg(w: Build, s: Progress, m: Machine, b: Block, i: nat, j: nat, done: set<Value>, so: State, sf: State, v: Value)
    requires Renamed(w, s) && b in w.p.t.up && j == i + 1 <= |w.p.Body(b)| && !w.p.Body(b)[i].op.Phi?
    requires Sim(w.p, m, b, i, done, so, sf) && LoadsDone(done, w.p.Body(b)[i]) && v == ResultOf(w.p.Body(b)[i])
    ensures RegAgrees(w.p, m, b, j, Step(m, w.p.Body(b)[i], so), StepLeft(m, w.p, s, b, w.p.Body(b)[i], sf), v)
  {
    w.SplitReachable(b);
    Effect(w, s, m, b, i, done, so, sf);
    assert w.p.InstrOk(b, i);
  }

  lemma RegsStep(w: Build, s: Progress, m: Machine, b: Block, i: nat, j: nat, done: set<Value>, so: State, sf: State, v: Value)
    requires Renamed(w, s) && b in w.p.t.up && j == i + 1 <= |w.p.Body(b)| && !w.p.Body(b)[i].op.Phi?
    requires Sim(w.p, m, b, i, done, so, sf) && LoadsDone(done, w.p.Body(b)[i]) && v in w.p.AvailAt(b, j)
    ensures RegAgrees(w.p, m, b, j, Step(m, w.p.Body(b)[i], so), StepLeft(m, w.p, s, b, w.p.Body(b)[i], sf), v)
  {
    w.p.Prefix(b, i);
    if v in w.p.AvailAt(b, i) {
      OldReg(w, s, m, b, i, j, done, so, sf, v);
    } else {
      NewReg(w, s, m, b, i, j, done, so, sf, v);
    }
  }

  lemma StoreAddress(w: Build, b: Block, i: nat)
    requires w.Ok() && w.p.CodeOk() && w.p.LoadsFed() && b in w.p.t.up && i < |w.p.Body(b)| && StoresLocal(w.p.Body(b)[i])
    ensures w.p.HasSite(w.p.Body(b)[i].args[1])
  {
    w.SplitReachable(b);
    assert w.p.InstrOk(b, i) && w.p.UseOk(b, i, 1);
    w.p.PointInvAt(b, i);
    assert w.p.DefinedBefore(w.p.Body(b)[i].args[1], b, i);
  }

  lemma StoredValueAgrees(w: Build, s: Progress, m: Machine, b: Block, i: nat, done: set<Value>, so: State, sf: State)
    requires Renamed(w, s) && b in w.p.t.up && i < |w.p.Body(b)| && StoresLocal(w.p.Body(b)[i])
    requires Sim(w.p, m, b, i, done, so, sf)
    ensures Eval(m, so.regs, w.p.Body(b)[i].args[0]) == Eval(m, sf.regs, Sub(w.p.At(b, i).sub, w.p.Body(b)[i].args[0]))
  {
    assert w.p.UseOk(b, i, 0);
    ArgAgrees(w, s, m, b, i, 0, done, so, sf);
  }

  lemma SlotsStore(w: Build, s: Progress, m: Machine, b: Block, i: nat, j: nat, done: set<Value>, so: State, sf: State, l: Value)
    requires Renamed(w, s) && b in w.p.t.up && j == i + 1 <= |w.p.Body(b)| && StoresLocal(w.p.Body(b)[i])
    requires Sim(w.p, m, b, i, done, so, sf) && l in DoneAfter(done, w.p.Body(b)[i])
    ensures SlotAgrees(w.p, m, b, j, Step(m, w.p.Body(b)[i], so), sf, l)
  {
    StoreAddress(w, b, i);
    StoredValueAgrees(w, s, m, b, i, done, so, sf);
    w.p.Prefix(b, i);
    assert l != w.p.Body(b)[i].args[1] ==> SlotAgrees(w.p, m, b, i, so, sf, l);
    StoredSlot(w.p, m, b, i, j, w.p.Body(b)[i], so, sf, l);
  }

  lemma StoredSlot(p: Ssa, m: Machine, b: Block, i: nat, j: nat, ins: Instr, so: State, sf: State, l: Value)
    requires p.t.Ok() && b in p.t.up && i <= |p.Body(b)| && j <= |p.Body(b)| && StoresLocal(ins) && p.HasSite(ins.args[1])
    requires p.At(b, j) == Visit(p.At(b, i), ins) && (l != ins.args[1] ==> SlotAgrees(p, m, b, i, so, sf, l))
    requires Eval(m, so.regs, ins.args[0]) == Eval(m, sf.regs, Sub(p.At(b, i).sub, ins.args[0]))
    ensures SlotAgrees(p, m, b, j, Step(m, ins, so), sf, l)
  {
  }

  lemma SlotsOther(w: Build, s: Progress, m: Machine, b: Block, i: nat, j: nat, done: set<Value>, so: State, sf: State, l: Value)
    requires Renamed(w, s) && b in w.p.t.up && j == i + 1 <= |w.p.Body(b)| && !w.p.Body(b)[i].op.Phi? && !StoresLocal(w.p.Body(b)[i])
    requires Sim(w.p, m, b, i, done, so, sf) && l in done
    ensures SlotAgrees(w.p, m, b, j, Step(m, w.p.Body(b)[i], so), StepLeft(m, w.p, s, b, w.p.Body(b)[i], sf), l)
  {
    var p, ins, sf' := w.p, w.p.Body(b)[i], StepLeft(m, w.p, s, b, w.p.Body(b)[i], sf);
    p.Prefix(b, i);
    assert SlotAgrees(p, m, b, i, so, sf, l);
    var stack := StackOf(p.At(b, i).stack, l);
    StackLasts(p, b, i, l);
    LastingFrame(p, m, b, i, Target(p, s, b, ins), sf, Top(stack));
    KeptSlot(p, m, b, i, j, ins, so, sf, sf', l);
  }

  lemma KeptSlot(p: Ssa, m: Machine, b: Block, i: nat, j: nat, ins: Instr, so: State, sf: State, sf': State, l: Value)
    requires p.t.Ok() && b in p.t.up && i <= |p.Body(b)| && j <= |p.Body(b)| && !ins.op.Phi? && !StoresLocal(ins)
    requires p.At(b, j) == Visit(p.At(b, i), ins) && SlotAgrees(p, m, b, i, so, sf, l)
    requires var stack := StackOf(p.At(b, i).stack, l); stack != [] && Eval(m, sf'.regs, Top(stack)) == Eval(m, sf.regs, Top(stack))
    ensures SlotAgrees(p, m, b, j, Step(m, ins, so), sf', l)
  {
  }

  lemma StackLasts(p: Ssa, b: Block, i: nat, l: Value)
    requires p.CodeOk() && p.LoadsFed() && b in p.t.up && i <= |p.Body(b)| && StackOf(p.At(b, i).stack, l) != []
    ensures p.Lasting(p.AvailAt(b, i), Top(StackOf(p.At(b, i).stack, l)))
  {
    p.PointInvAt(b, i);
    assert Top(StackOf(p.At(b, i).stack, l)) in StackOf(p.At(b, i).stack, l);
  }

  /** One instruction keeps the runs in agreement. */
  lemma SimStep(w: Build, s: Progress, m: Machine, b: Block, i: nat, done: set<Value>, so: State, sf: State)
    requires Renamed(w, s) && b in w.p.t.up && i < |w.p.Body(b)| && !w.p.Body(b)[i].op.Phi?
    requires Sim(w.p, m, b, i, done, so, sf) && LoadsDone(done, w.p.Body(b)[i])
    ensures Sim(w.p, m, b, i + 1, DoneAfter(done, w.p.Body(b)[i]), Step(m, w.p.Body(b)[i], so), StepLeft(m, w.p, s, b, w.p.Body(b)[i], sf))
  {
    Effect(w, s, m, b, i, done, so, sf);
    var so', sf' := Step(m, w.p.Body(b)[i], so), StepLeft(m, w.p, s, b, w.p.Body(b)[i], sf);
    var j := i + 1;
    forall v | v in w.p.AvailAt(b, j)
      ensures RegAgrees(w.p, m, b, j, so', sf', v)
    {
      RegsStep(w, s, m, b, i, j, done, so, sf, v);
    }
    forall l | l in DoneAfter(done, w.p.Body(b)[i])
      ensures SlotAgrees(w.p, m, b, j, so', sf', l)
    {
      if StoresLocal(w.p.Body(b)[i]) {
        SlotsStore(w, s, m, b, i, j, done, so, sf, l);
      } else {
        SlotsOther(w, s, m, b, i, j, done, so, sf, l);
      }
    }
  }
}
