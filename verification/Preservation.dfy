/**
  Every run of the renamed code is the run of the input: same blocks, same memory,
  same stores and calls, same way of ending.
 */
module Preservation {
  import opened Cfg
  import opened IdomTree
  import opened Frontier
  import opened Ir
  import opened Running
  import opened Renaming
  import opened Rewriting
  import opened RenameSteps
  import opened PhiPlacement
  import opened SsaForm
  import opened Feeding
  import opened Simulation

  /** What renaming and the removal of scalars leave of block `b`. */
  ghost function FinalBody(w: Build, s: Progress, b: Block): seq<Instr>
    requires w.p.t.Ok()
  {
    Sparse(w.p.Body(b), TargetBody(w.p, s, b))
  }

  ghost predicate FinalCode(w: Build, s: Progress, code: Code)
    requires w.p.t.Ok()
  {
    code.Keys == w.code0.Keys && forall b {:trigger FinalBody(w, s, b)} :: b in code && b in w.p.t.up ==> code[b] == FinalBody(w, s, b)
  }

  // ----- phis read along an edge -----

  lemma {:induction false} FillLookup(p: Ssa, fills: seq<Edge>, c: Block, x: Value, from: Block)
    requires p.t.Ok()
    ensures |FillArgs(p, fills, c, x)| == |FillLabels(p, fills, c, x)|
    ensures forall k :: 0 <= k < |FillArgs(p, fills, c, x)| && FillLabels(p, fills, c, x)[k] == from ==>
              [FillArgs(p, fills, c, x)[k]] == Brings(p, from, x)
    ensures (from, c) in fills && Brings(p, from, x) != [] ==> from in FillLabels(p, fills, c, x)
  {
    if fills != [] {
      var n := |fills| - 1;
      FillLookup(p, fills[..n], c, x, from);
      assert fills == fills[..n] + [fills[n]];
    }
  }

  /** A phi takes the value its variable has at the end of the block the edge comes from. */
  lemma IncomingValue(w: Build, s: Progress, m: Machine, from: Block, b: Block, k: nat, regs: map<nat, int>)
    requires Renamed(w, s) && from in w.p.t.up && b in w.p.t.up && w.g.Edge(from, b)
    requires k < |w.p.Body(b)| && w.p.Body(b)[k].op.Phi? && StackOf(w.p.Out(from).stack, w.p.Body(b)[k].op.lval) != []
    ensures PhiValue(m, Target(w.p, s, b, w.p.Body(b)[k]), from, regs) ==
            Eval(m, regs, Top(StackOf(w.p.Out(from).stack, w.p.Body(b)[k].op.lval)))
  {
    var p := w.p;
    var x := p.Body(b)[k].op.lval;
    w.SplitReachable(b);
    assert multiset(s.fills)[(from, b)] == EdgeCount(w.g, p.t.up.Keys, (from, b));
    assert b in w.g.succ[from];
    assert (from, b) in multiset(s.fills);
    FillLookup(p, s.fills, b, x, from);
    var i := Target(p, s, b, p.Body(b)[k]);
    var j: nat :| j < |i.labels| && i.labels[j] == from;
    assert IsOperand(i, from, j);
    assert forall j: nat :: IsOperand(i, from, j) ==> [i.args[j]] == Brings(p, from, x);
  }

  lemma {:induction false} NoPhiValues(m: Machine, body: seq<Instr>, from: Block, regs: map<nat, int>)
    requires forall k :: 0 <= k < |body| ==> !body[k].op.Phi?
    ensures PhiValues(m, body, from, regs) == map[]
  {
    if body != [] {
      NoPhiValues(m, body[..|body| - 1], from, regs);
    }
  }

  lemma PhiValuesSnoc(m: Machine, body: seq<Instr>, i: Instr, from: Block, regs: map<nat, int>)
    ensures PhiValues(m, body + [i], from, regs) ==
            var rest := PhiValues(m, body, from, regs); if i.op.Phi? then rest[i.id := PhiValue(m, i, from, regs)] else rest
  {
    var t := body + [i];
    assert t[..|t| - 1] == body && t[|t| - 1] == i;
  }

  lemma {:induction false} PhiValuesSparse(m: Machine, ref: seq<Instr>, cur: seq<Instr>, from: Block, regs: map<nat, int>)
    requires |ref| == |cur| && forall k :: 0 <= k < |ref| ==> cur[k].op == ref[k].op
    ensures PhiValues(m, Sparse(ref, cur), from, regs) == PhiValues(m, cur, from, regs)
  {
    if ref != [] {
      var n := |ref| - 1;
      PhiValuesSparse(m, ref[..n], cur[..n], from, regs);
      var rest := Sparse(ref[..n], cur[..n]);
      if Gone(ref[n]) {
        assert Sparse(ref, cur) == rest && !cur[n].op.Phi?;
      } else {
        PhiValuesSnoc(m, rest, cur[n], from, regs);
        assert Sparse(ref, cur) == rest + [cur[n]];
      }
    }
  }

  lemma {:induction false} PhiValueAt(m: Machine, body: seq<Instr>, from: Block, regs: map<nat, int>)
    requires forall i, j :: 0 <= i < j < |body| ==> body[i].id != body[j].id
    ensures forall id :: id in PhiValues(m, body, from, regs) ==> exists k :: 0 <= k < |body| && body[k].op.Phi? && body[k].id == id
    ensures forall k :: 0 <= k < |body| && body[k].op.Phi? ==>
              body[k].id in PhiValues(m, body, from, regs) && PhiValues(m, body, from, regs)[body[k].id] == PhiValue(m, body[k], from, regs)
  {
    if body != [] {
      var n := |body| - 1;
      PhiValueAt(m, body[..n], from, regs);
      assert forall k :: 0 <= k < n ==> body[..n][k] == body[k];
    }
  }

  lemma DistinctIds(p: Ssa, s: Progress, b: Block)
    requires p.CodeOk() && b in p.base
    ensures forall i, j :: 0 <= i < j < |p.Body(b)| ==> TargetBody(p, s, b)[i].id != TargetBody(p, s, b)[j].id
  {
    forall i, j | 0 <= i < j < |p.Body(b)|
      ensures TargetBody(p, s, b)[i].id != TargetBody(p, s, b)[j].id
    {
      assert p.InstrOk(b, i) && p.InstrOk(b, j);
    }
  }

  lemma EnterSparse(m: Machine, ref: seq<Instr>, cur: seq<Instr>, from: Block, s: State)
    requires |ref| == |cur| && forall k :: 0 <= k < |ref| ==> cur[k].op == ref[k].op && cur[k].id == ref[k].id
    requires forall i, j :: 0 <= i < j < |cur| ==> cur[i].id != cur[j].id
    ensures var s' := Enter(m, Sparse(ref, cur), from, s);
            && (forall id :: (forall k :: 0 <= k < |ref| ==> ref[k].id != id) ==> Read(s'.regs, id) == Read(s.regs, id))
            && (forall k :: 0 <= k < |ref| && ref[k].op.Phi? ==> Read(s'.regs, ref[k].id) == PhiValue(m, cur[k], from, s.regs))
  {
    PhiValuesSparse(m, ref, cur, from, s.regs);
    PhiValueAt(m, cur, from, s.regs);
    forall k | 0 <= k < |ref| && ref[k].op.Phi?
      ensures Read(Enter(m, Sparse(ref, cur), from, s).regs, ref[k].id) == PhiValue(m, cur[k], from, s.regs)
    {
      assert cur[k].op.Phi?;
    }
  }

  /** Entering `b` along an edge leaves every register alone except those of its phis. */
  lemma EnterRegs(w: Build, s: Progress, m: Machine, from: Block, b: Block, sf: State)
    requires Renamed(w, s) && b in w.p.t.up
    ensures var sf' := Enter(m, FinalBody(w, s, b), from, sf);
            && (forall id :: (forall k :: 0 <= k < |w.p.Body(b)| ==> w.p.Body(b)[k].id != id) ==> Read(sf'.regs, id) == Read(sf.regs, id))
            && (forall k :: 0 <= k < |w.p.Body(b)| && w.p.Body(b)[k].op.Phi? ==>
                  Read(sf'.regs, w.p.Body(b)[k].id) == PhiValue(m, Target(w.p, s, b, w.p.Body(b)[k]), from, sf.regs))
  {
    w.SplitReachable(b);
    DistinctIds(w.p, s, b);
    EnterSparse(m, w.p.Body(b), TargetBody(w.p, s, b), from, sf);
    assert forall k :: 0 <= k < |w.p.Body(b)| ==> TargetBody(w.p, s, b)[k] == Target(w.p, s, b, w.p.Body(b)[k]);
  }

  lemma LastingElsewhere(p: Ssa, b: Block, v: Value)
    requires p.CodeOk() && p.LoadsFed() && b in p.t.up && p.Lasting(p.AvailIn(b), v) && v.Result?
    ensures forall k :: 0 <= k < |p.Body(b)| ==> p.Body(b)[k].id != v.id
  {
    AtStart(p, b);
    p.PointInvAt(b, 0);
    assert p.DefinedBefore(v, b, 0);
    forall k | 0 <= k < |p.Body(b)|
      ensures p.Body(b)[k].id != v.id
    {
      assert p.InstrOk(b, k);
    }
  }

  lemma EnterFrame(w: Build, s: Progress, m: Machine, from: Block, b: Block, sf: State, v: Value)
    requires Renamed(w, s) && b in w.p.t.up && w.p.Lasting(w.p.AvailIn(b), v)
    ensures Eval(m, Enter(m, FinalBody(w, s, b), from, sf).regs, v) == Eval(m, sf.regs, v)
  {
    EnterRegs(w, s, m, from, b, sf);
    if v.Result? {
      LastingElsewhere(w.p, b, v);
    }
  }

  // ----- entering a block -----

  lemma {:induction false} PhisOnly(w: Build, b: Block, n: nat)
    requires w.Ok() && b in w.p.t.up && n <= w.N(b) && n <= |w.p.Body(b)|
    ensures w.p.At(b, n).sub == w.p.In(b).sub
    ensures forall v :: v in w.p.AvailAt(b, n) ==> v in w.p.AvailIn(b) || exists k :: 0 <= k < n && ResultOf(w.p.Body(b)[k]) == v
  {
    w.SplitReachable(b);
    PhisKeepSub(w.p, b, n);
    forall v | v in w.p.AvailAt(b, n) && v !in w.p.AvailIn(b)
      ensures exists k :: 0 <= k < n && ResultOf(w.p.Body(b)[k]) == v
    {
      var k :| 0 <= k < |w.p.Body(b)[..n]| && ResultOf(w.p.Body(b)[..n][k]) == v;
      assert w.p.Body(b)[k] == w.p.Body(b)[..n][k];
    }
  }

  /** What is known on entry to `b` is known at the end of each predecessor, which `b`'s idom dominates. */
  lemma StillKnown(w: Build, pr: Block, b: Block, v: Value)
    requires w.Ok() && w.p.CodeOk() && w.p.LoadsFed()
    requires pr in w.p.t.up && b in w.p.t.up && w.g.Edge(pr, b) && v in w.p.AvailIn(b)
    ensures v in w.p.AvailOut(pr) && Sub(w.p.Out(pr).sub, v) == Sub(w.p.In(b).sub, v)
  {
    var p := w.p;
    IdomAbovePred(w.g, p.t, w.par, pr, b);
    assert b != p.t.root;
    assert p.In(b) == p.Out(p.t.up[b]) && p.AvailIn(b) == p.AvailOut(p.t.up[b]);
    SubDown(p, pr, p.t.up[b], v);
  }

  lemma EnterRegAgrees(w: Build, s: Progress, m: Machine, pr: Block, b: Block, done: set<Value>, so: State, sf: State, v: Value)
    requires Renamed(w, s) && pr in w.p.t.up && b in w.p.t.up && w.g.Edge(pr, b)
    requires Sim(w.p, m, pr, |w.p.Body(pr)|, done, so, sf)
    requires 0 <= w.N(b) <= |w.p.Body(b)| && v in w.p.AvailAt(b, w.N(b))
    ensures RegAgrees(w.p, m, b, w.N(b), so, Enter(m, FinalBody(w, s, b), pr, sf), v)
  {
    var p := w.p;
    var n := w.N(b);
    w.SplitReachable(b);
    PhisOnly(w, b, n);
    if v in p.AvailIn(b) {
      StillKnown(w, pr, b, v);
      AtEnd(p, pr);
      assert RegAgrees(p, m, pr, |p.Body(pr)|, so, sf, v);
      if Plain(p, v) {
        AtStart(p, b);
        p.PointInvAt(b, 0);
        EnterFrame(w, s, m, pr, b, sf, Sub(p.In(b).sub, v));
      }
    } else {
      var k :| 0 <= k < n && ResultOf(p.Body(b)[k]) == v;
      assert p.InstrOk(b, k);
    }
  }

  lemma {:induction false} NoPhiSameStack(w: Build, b: Block, n: nat, l: Value)
    requires w.Ok() && b in w.p.t.up && n <= w.N(b) && n <= |w.p.Body(b)| && (b, l) !in w.has
    ensures StackOf(w.p.At(b, n).stack, l) == StackOf(w.p.In(b).stack, l)
  {
    w.SplitReachable(b);
    w.PhiIffHas(b, l);
    if n > 0 {
      NoPhiSameStack(w, b, n - 1, l);
      w.p.Prefix(b, n - 1);
      assert w.p.Body(b)[n - 1].op.Phi?;
    } else {
      AtStart(w.p, b);
    }
  }

  /** After the phis of a block, the stack of a variable with a phi ends in that phi. */
  lemma {:induction false} PhiOnTop(w: Build, b: Block, n: nat, k: nat)
    requires w.Ok() && b in w.p.t.up && k < n <= w.N(b) && n <= |w.p.Body(b)|
    ensures w.p.Body(b)[k].op.Phi?
    ensures var l := w.p.Body(b)[k].op.lval; var stack := StackOf(w.p.At(b, n).stack, l);
            stack != [] && Top(stack) == ResultOf(w.p.Body(b)[k])
  {
    var p := w.p;
    w.SplitReachable(b);
    p.Prefix(b, n - 1);
    if k < n - 1 {
      PhiOnTop(w, b, n - 1, k);
      assert ExtendedAt(w.code0, p.base, w.has, b);
      assert p.Body(b)[k].op != p.Body(b)[n - 1].op;
    }
  }

  lemma EnterSlotWithPhi(w: Build, s: Progress, m: Machine, pr: Block, b: Block, done: set<Value>, so: State, sf: State, k: nat)
    requires Renamed(w, s) && pr in w.p.t.up && b in w.p.t.up && w.g.Edge(pr, b)
    requires Sim(w.p, m, pr, |w.p.Body(pr)|, done, so, sf)
    requires 0 <= w.N(b) <= |w.p.Body(b)| && k < |w.p.Body(b)| && k < w.N(b) && w.p.Body(b)[k].op.Phi? && w.p.Body(b)[k].op.lval in done
    ensures SlotAgrees(w.p, m, b, w.N(b), so, Enter(m, FinalBody(w, s, b), pr, sf), w.p.Body(b)[k].op.lval)
  {
    var n, l, sf' := w.N(b), w.p.Body(b)[k].op.lval, Enter(m, FinalBody(w, s, b), pr, sf);
    LeftSlot(w, m, pr, done, so, sf, l);
    PhiOnTop(w, b, n, k);
    EnteredPhi(w, s, m, pr, b, sf, k);
    w.SplitReachable(b);
    assert w.p.InstrOk(b, k);
  }

  /** The phi takes the latest value of its variable along the edge. */
  lemma EnteredPhi(w: Build, s: Progress, m: Machine, pr: Block, b: Block, sf: State, k: nat)
    requires Renamed(w, s) && pr in w.p.t.up && b in w.p.t.up && w.g.Edge(pr, b)
    requires k < |w.p.Body(b)| && w.p.Body(b)[k].op.Phi? && StackOf(w.p.Out(pr).stack, w.p.Body(b)[k].op.lval) != []
    ensures Read(Enter(m, FinalBody(w, s, b), pr, sf).regs, w.p.Body(b)[k].id) ==
            Eval(m, sf.regs, Top(StackOf(w.p.Out(pr).stack, w.p.Body(b)[k].op.lval)))
  {
    IncomingValue(w, s, m, pr, b, k, sf.regs);
    EnterRegs(w, s, m, pr, b, sf);
  }

  /** What the variable holds at the end of the block before. */
  lemma LeftSlot(w: Build, m: Machine, pr: Block, done: set<Value>, so: State, sf: State, l: Value)
    requires w.Ok() && pr in w.p.t.up && Sim(w.p, m, pr, |w.p.Body(pr)|, done, so, sf) && l in done
    ensures var stack := StackOf(w.p.Out(pr).stack, l);
            stack != [] && w.p.HasSite(l) && Read(so.slots, l.id) == Eval(m, sf.regs, Top(stack))
  {
    AtEnd(w.p, pr);
    assert SlotAgrees(w.p, m, pr, |w.p.Body(pr)|, so, sf, l);
  }

  /** Without a phi, the latest value is the one at the end of the block before. */
  lemma EnterSlotNoPhi(w: Build, s: Progress, m: Machine, pr: Block, b: Block, done: set<Value>, so: State, sf: State, l: Value)
    requires Renamed(w, s) && pr in w.p.t.up && b in w.p.t.up && w.g.Edge(pr, b)
    requires Sim(w.p, m, pr, |w.p.Body(pr)|, done, so, sf)
    requires 0 <= w.N(b) <= |w.p.Body(b)| && l in done && (b, l) !in w.has
    ensures SlotAgrees(w.p, m, b, w.N(b), so, Enter(m, FinalBody(w, s, b), pr, sf), l)
  {
    LeftSlot(w, m, pr, done, so, sf, l);
    NoPhiSameStack(w, b, w.N(b), l);
    w.PhiPlacementLemma(pr, b, l);
    AtStart(w.p, b);
    StackLasts(w.p, b, 0, l);
    EnterFrame(w, s, m, pr, b, sf, Top(StackOf(w.p.In(b).stack, l)));
  }

  lemma EnterSlotAgrees(w: Build, s: Progress, m: Machine, pr: Block, b: Block, done: set<Value>, so: State, sf: State, l: Value)
    requires Renamed(w, s) && pr in w.p.t.up && b in w.p.t.up && w.g.Edge(pr, b)
    requires Sim(w.p, m, pr, |w.p.Body(pr)|, done, so, sf)
    requires 0 <= w.N(b) <= |w.p.Body(b)| && l in done
    ensures SlotAgrees(w.p, m, b, w.N(b), so, Enter(m, FinalBody(w, s, b), pr, sf), l)
  {
    if (b, l) in w.has {
      w.SplitReachable(b);
      w.PhiIffHas(b, l);
      var k :| 0 <= k < |w.p.Body(b)| && w.p.Body(b)[k].op.Phi? && w.p.Body(b)[k].op.lval == l;
      EnterSlotWithPhi(w, s, m, pr, b, done, so, sf, k);
    } else {
      EnterSlotNoPhi(w, s, m, pr, b, done, so, sf, l);
    }
  }

  /** Following an edge keeps the runs in agreement. */
  lemma EnterSim(w: Build, s: Progress, m: Machine, pr: Block, b: Block, done: set<Value>, so: State, sf: State)
    requires Renamed(w, s) && pr in w.p.t.up && b in w.p.t.up && w.g.Edge(pr, b)
    requires Sim(w.p, m, pr, |w.p.Body(pr)|, done, so, sf)
    ensures 0 <= w.N(b) <= |w.p.Body(b)| && Sim(w.p, m, b, w.N(b), done, so, Enter(m, FinalBody(w, s, b), pr, sf))
  {
    w.SplitReachable(b);
    var n := w.N(b);
    var sf' := Enter(m, FinalBody(w, s, b), pr, sf);
    forall v | v in w.p.AvailAt(b, n)
      ensures RegAgrees(w.p, m, b, n, so, sf', v)
    {
      EnterRegAgrees(w, s, m, pr, b, done, so, sf, v);
    }
    forall l | l in done
      ensures SlotAgrees(w.p, m, b, n, so, sf', l)
    {
      EnterSlotAgrees(w, s, m, pr, b, done, so, sf, l);
    }
  }

  // ----- running a block -----

  lemma {:induction false} PhisDoNothing(m: Machine, ref: seq<Instr>, cur: seq<Instr>, s: State)
    requires |ref| == |cur| && forall k :: 0 <= k < |ref| ==> ref[k].op.Phi? && cur[k].op.Phi?
    ensures SparseSteps(m, ref, cur, s) == s
  {
    if ref != [] {
      PhisDoNothing(m, ref[..|ref| - 1], cur[..|ref| - 1], s);
    }
  }

  lemma StepsSnoc(m: Machine, body: seq<Instr>, j: nat, s: State)
    requires j < |body|
    ensures Steps(m, body[..j + 1], s) == Step(m, body[j], Steps(m, body[..j], s))
  {
    var t := body[..j + 1];
    assert t[..|t| - 1] == body[..j] && t[|t| - 1] == body[j];
  }

  lemma SparseSnoc(m: Machine, ref: seq<Instr>, cur: seq<Instr>, n: nat, s: State)
    requires n < |ref| == |cur|
    ensures SparseSteps(m, ref[..n + 1], cur[..n + 1], s) ==
            var s' := SparseSteps(m, ref[..n], cur[..n], s); if Gone(ref[n]) then s' else Step(m, cur[n], s')
  {
    assert ref[..n + 1][..n] == ref[..n] && cur[..n + 1][..n] == cur[..n];
    assert ref[..n + 1][n] == ref[n] && cur[..n + 1][n] == cur[n];
  }

  /** The variables that `body` stores to. */
  function StoredVars(body: seq<Instr>): set<Value> {
    set k | 0 <= k < |body| && StoresLocal(body[k]) :: body[k].args[1]
  }

  lemma StoredVarsSnoc(body: seq<Instr>, j: nat, done: set<Value>)
    requires j < |body|
    ensures done + StoredVars(body[..j + 1]) == DoneAfter(done + StoredVars(body[..j]), body[j])
  {
    var t := body[..j + 1];
    forall v
      ensures v in StoredVars(t) <==> v in StoredVars(body[..j]) || (StoresLocal(body[j]) && v == body[j].args[1])
    {
      StoresToSplit(body, j);
      StoredVarsIs(t, v);
      StoredVarsIs(body[..j], v);
    }
  }

  lemma StoredVarsIs(body: seq<Instr>, v: Value)
    ensures v in StoredVars(body) <==> StoresTo(body, v)
  {
  }

  /** A block entered with the variables in `done` stored to loads no others. */
  ghost predicate Covered(code: Code, b: Block, done: set<Value>)
    requires b in code
  {
    forall j {:trigger LoadCovered(code, b, j, done)} :: 0 <= j < |code[b]| ==> LoadCovered(code, b, j, done)
  }

  ghost predicate LoadCovered(code: Code, b: Block, j: nat, done: set<Value>)
    requires b in code && j < |code[b]|
  {
    LoadsDone(done + StoredVars(code[b][..j]), code[b][j])
  }

  /** The two states after the instructions of `b` before position `n`. */
  ghost predicate InSim(w: Build, s: Progress, m: Machine, b: Block, n: nat, done: set<Value>, so: State, sf: State)
    requires w.p.t.Ok() && b in w.p.t.up && b in w.code0
  {
    && 0 <= w.N(b) <= n <= |w.p.Body(b)| && n - w.N(b) <= |w.code0[b]|
    && Sim(w.p, m, b, n, done + StoredVars(w.code0[b][..n - w.N(b)]), Steps(m, w.code0[b][..n - w.N(b)], so), SparseSteps(m, w.p.Body(b)[..n], TargetBody(w.p, s, b)[..n], sf))
  }

  lemma InSimStart(w: Build, s: Progress, m: Machine, b: Block, done: set<Value>, so: State, sf: State)
    requires w.Ok() && b in w.p.t.up && b in w.code0 && 0 <= w.N(b) <= |w.p.Body(b)| && Sim(w.p, m, b, w.N(b), done, so, sf)
    ensures InSim(w, s, m, b, w.N(b), done, so, sf)
  {
    w.SplitReachable(b);
    var n := w.N(b);
    assert w.code0[b][..0] == [] && done + StoredVars([]) == done;
    PhisDoNothing(m, w.p.Body(b)[..n], TargetBody(w.p, s, b)[..n], sf);
  }

  lemma InSimStep(w: Build, s: Progress, m: Machine, b: Block, n: nat, done: set<Value>, so: State, sf: State)
    requires Renamed(w, s) && b in w.p.t.up && b in w.code0 && n < |w.p.Body(b)|
    requires InSim(w, s, m, b, n, done, so, sf) && Covered(w.code0, b, done)
    ensures InSim(w, s, m, b, n + 1, done, so, sf)
  {
    BodyAt(w, b, n);
    var j := n - w.N(b);
    var so', sf' := Steps(m, w.code0[b][..j], so), SparseSteps(m, w.p.Body(b)[..n], TargetBody(w.p, s, b)[..n], sf);
    StepsSnoc(m, w.code0[b], j, so);
    SparseSnoc(m, w.p.Body(b), TargetBody(w.p, s, b), n, sf);
    StoredVarsSnoc(w.code0[b], j, done);
    assert LoadCovered(w.code0, b, j, done);
    SimStep(w, s, m, b, n, done + StoredVars(w.code0[b][..j]), so', sf');
  }

  lemma {:induction false} BlockSim(w: Build, s: Progress, m: Machine, b: Block, n: nat, done: set<Value>, so: State, sf: State)
    requires Renamed(w, s) && b in w.p.t.up && 0 <= w.N(b) <= n <= |w.p.Body(b)| && b in w.code0
    requires Sim(w.p, m, b, w.N(b), done, so, sf) && Covered(w.code0, b, done)
    ensures InSim(w, s, m, b, n, done, so, sf)
    decreases n
  {
    if n == w.N(b) {
      InSimStart(w, s, m, b, done, so, sf);
    } else {
      BlockSim(w, s, m, b, n - 1, done, so, sf);
      InSimStep(w, s, m, b, n - 1, done, so, sf);
    }
  }

  lemma BodyAt(w: Build, b: Block, n: nat)
    requires w.Ok() && b in w.p.t.up && 0 <= w.N(b) <= n < |w.p.Body(b)|
    ensures b in w.code0 && n - w.N(b) < |w.code0[b]| == |w.p.Body(b)| - w.N(b)
    ensures !w.p.Body(b)[n].op.Phi? && w.p.Body(b)[n] == w.code0[b][n - w.N(b)]
  {
    w.SplitReachable(b);
  }

  /** Both runs leave the block the same way. */
  lemma LeaveSame(w: Build, s: Progress, m: Machine, b: Block, done: set<Value>, so: State, sf: State)
    requires Renamed(w, s) && b in w.p.t.up && b in w.code0 && |w.p.Body(b)| > 0
    requires Sim(w.p, m, b, |w.p.Body(b)| - 1, done, so, sf)
    ensures Leave(m, w.code0[b], so) == Leave(m, FinalBody(w, s, b), sf)
    ensures Leave(m, w.code0[b], so).Goto? ==> w.g.Edge(b, Leave(m, w.code0[b], so).target)
  {
    var p := w.p;
    w.SplitReachable(b);
    var n := |p.Body(b)| - 1;
    var last := p.Body(b)[n];
    assert ExitIn(w.g, w.code0, b);
    assert last == w.code0[b][|w.code0[b]| - 1];
    assert FinalBody(w, s, b)[|FinalBody(w, s, b)| - 1] == Rewrite(s.sigma, last);
    if last.args != [] {
      assert p.UseOk(b, n, 0);
      ArgAgrees(w, s, m, b, n, 0, done, so, sf);
    }
    LeaveAlike(m, w.code0[b], FinalBody(w, s, b), so, sf);
  }

  lemma WholeSlices(m: Machine, body: seq<Instr>, ref: seq<Instr>, cur: seq<Instr>, so: State, sf: State)
    requires |ref| == |cur|
    ensures Steps(m, body[..|body|], so) == Steps(m, body, so)
    ensures SparseSteps(m, ref[..|ref|], cur[..|ref|], sf) == Steps(m, Sparse(ref, cur), sf)
  {
    StepsSparse(m, ref, cur, sf);
    assert body[..|body|] == body && ref[..|ref|] == ref && cur[..|ref|] == cur;
  }

  lemma BlockWhole(w: Build, s: Progress, m: Machine, b: Block, done: set<Value>, so: State, sf: State)
    requires Renamed(w, s) && b in w.p.t.up && 0 <= w.N(b) <= |w.p.Body(b)| && b in w.code0
    requires Sim(w.p, m, b, w.N(b), done, so, sf) && Covered(w.code0, b, done)
    ensures Sim(w.p, m, b, |w.p.Body(b)|, done + StoredVars(w.code0[b]), Steps(m, w.code0[b], so), Steps(m, FinalBody(w, s, b), sf))
  {
    BlockTail(w, b);
    BlockSim(w, s, m, b, |w.p.Body(b)|, done, so, sf);
    assert w.code0[b][..|w.code0[b]|] == w.code0[b];
    WholeSlices(m, w.code0[b], w.p.Body(b), TargetBody(w.p, s, b), so, sf);
  }

  lemma LastSlices(m: Machine, body: seq<Instr>, ref: seq<Instr>, cur: seq<Instr>, so: State, sf: State)
    requires |ref| == |cur| > 0 && |body| > 0 && IsTerminator(body[|body| - 1]) && ref[|ref| - 1] == body[|body| - 1] && cur[|ref| - 1].op == ref[|ref| - 1].op
    ensures Steps(m, body[..|body| - 1], so) == Steps(m, body, so)
    ensures SparseSteps(m, ref[..|ref| - 1], cur[..|ref| - 1], sf) == Steps(m, Sparse(ref, cur), sf)
  {
    StepsSparse(m, ref, cur, sf);
  }

  /** The two runs agree before the terminator, which changes nothing. */
  lemma BeforeLast(w: Build, s: Progress, m: Machine, b: Block, done: set<Value>, so: State, sf: State) returns (done': set<Value>)
    requires Renamed(w, s) && b in w.p.t.up && 0 <= w.N(b) <= |w.p.Body(b)| && b in w.code0
    requires Sim(w.p, m, b, w.N(b), done, so, sf) && Covered(w.code0, b, done)
    ensures |w.p.Body(b)| > 0
    ensures Sim(w.p, m, b, |w.p.Body(b)| - 1, done', Steps(m, w.code0[b], so), Steps(m, FinalBody(w, s, b), sf))
  {
    var ref, cur := w.p.Body(b), TargetBody(w.p, s, b);
    var n := |ref| - 1;
    BlockTail(w, b);
    BlockSim(w, s, m, b, n, done, so, sf);
    LastSlices(m, w.code0[b], ref, cur, so, sf);
    done' := done + StoredVars(w.code0[b][..n - w.N(b)]);
  }

  lemma BlockEnd(w: Build, s: Progress, m: Machine, b: Block, done: set<Value>, so: State, sf: State)
    requires Renamed(w, s) && b in w.p.t.up && 0 <= w.N(b) <= |w.p.Body(b)| && b in w.code0
    requires Sim(w.p, m, b, w.N(b), done, so, sf) && Covered(w.code0, b, done)
    ensures var so', sf' := Steps(m, w.code0[b], so), Steps(m, FinalBody(w, s, b), sf);
            && Leave(m, w.code0[b], so') == Leave(m, FinalBody(w, s, b), sf')
            && (Leave(m, w.code0[b], so').Goto? ==> w.g.Edge(b, Leave(m, w.code0[b], so').target))
  {
    var done' := BeforeLast(w, s, m, b, done, so, sf);
    LeaveSame(w, s, m, b, done', Steps(m, w.code0[b], so), Steps(m, FinalBody(w, s, b), sf));
  }

  lemma BlockTail(w: Build, b: Block)
    requires w.Ok() && b in w.p.t.up && b in w.code0
    ensures 0 <= w.N(b) < |w.p.Body(b)| && |w.code0[b]| == |w.p.Body(b)| - w.N(b)
    ensures IsTerminator(w.p.Body(b)[|w.p.Body(b)| - 1]) && w.p.Body(b)[|w.p.Body(b)| - 1] == w.code0[b][|w.code0[b]| - 1]
  {
    w.SplitReachable(b);
    assert ExitIn(w.g, w.code0, b);
  }

  // ----- running the function -----

  /** The input has no phis, so entering one of its blocks changes nothing. */
  lemma EnterInput(w: Build, m: Machine, from: Block, b: Block, so: State)
    requires w.Ok() && b in w.code0
    ensures Enter(m, w.code0[b], from, so) == so
  {
    forall k | 0 <= k < |w.code0[b]|
      ensures !w.code0[b][k].op.Phi?
    {
      assert InstrIn(w.code0, w.site0, b, k);
    }
    NoPhiValues(m, w.code0[b], from, so.regs);
    assert so.regs + map[] == so.regs;
  }

  /** The run of the SSA code has entered `b` in agreement with the run of the input. */
  ghost predicate EnteredSim(w: Build, s: Progress, m: Machine, from: Block, b: Block, done: set<Value>, so: State, sf: State)
    requires w.p.t.Ok() && b in w.p.t.up
  {
    0 <= w.N(b) <= |w.p.Body(b)| && b in w.code0 && Sim(w.p, m, b, w.N(b), done, so, Enter(m, FinalBody(w, s, b), from, sf))
  }

  lemma FollowEdge(w: Build, s: Progress, m: Machine, b: Block, t: Block, done: set<Value>, so: State, sf: State)
    requires Renamed(w, s) && b in w.p.t.up && w.g.Edge(b, t) && Sim(w.p, m, b, |w.p.Body(b)|, done, so, sf)
    ensures t in w.p.t.up && EnteredSim(w, s, m, b, t, done, so, sf)
  {
    assert Reachable(w.g, b);
    ReachableStep(w.g, b, t);
    w.SplitReachable(t);
    EnterSim(w, s, m, b, t, done, so, sf);
  }

  lemma BlockRun(w: Build, s: Progress, m: Machine, from: Block, b: Block, done: set<Value>, so: State, sf: State)
    requires Renamed(w, s) && b in w.p.t.up && EnteredSim(w, s, m, from, b, done, so, sf) && Covered(w.code0, b, done)
    ensures b in w.code0
    ensures var so', sf' := Steps(m, w.code0[b], so), Steps(m, FinalBody(w, s, b), Enter(m, FinalBody(w, s, b), from, sf));
            && so'.mem == sf'.mem && so'.trace == sf'.trace
            && Leave(m, w.code0[b], so') == Leave(m, FinalBody(w, s, b), sf')
            && var e := Leave(m, w.code0[b], so');
            e.Goto? ==> e.target in w.p.t.up && w.g.Edge(b, e.target) && EnteredSim(w, s, m, b, e.target, done + StoredVars(w.code0[b]), so', sf')
  {
    var sf1 := Enter(m, FinalBody(w, s, b), from, sf);
    BlockWhole(w, s, m, b, done, so, sf1);
    BlockEnd(w, s, m, b, done, so, sf1);
    var so', sf' := Steps(m, w.code0[b], so), Steps(m, FinalBody(w, s, b), sf1);
    match Leave(m, w.code0[b], so')
    case Goto(t) => FollowEdge(w, s, m, b, t, done + StoredVars(w.code0[b]), so', sf');
    case _ =>
  }

  /** The run has come to `b` along `q`, and `done` holds the variables that it has stored to on the way. */
  ghost predicate Past(w: Build, q: seq<Block>, b: Block, done: set<Value>)
    requires w.g.Valid()
  {
    Path(w.g, w.g.Entry(), q, b) && forall l {:trigger l in done} :: StoresOn(w.code0, q[..|q| - 1], l) ==> l in done
  }

  lemma PastCovers(w: Build, q: seq<Block>, b: Block, done: set<Value>)
    requires w.Ok() && LoadsSafe(w.g, w.code0) && b in w.p.t.up && b in w.code0 && Past(w, q, b, done)
    ensures Covered(w.code0, b, done)
  {
    assert Reachable(w.g, b);
    forall j | 0 <= j < |w.code0[b]|
      ensures LoadCovered(w.code0, b, j, done)
    {
      assert LoadSafe(w.g, w.code0, b, j);
      if LoadsLocal(w.code0[b][j]) {
        StoredVarsIs(w.code0[b][..j], w.code0[b][j].args[0]);
      }
    }
  }

  lemma PastEdge(w: Build, q: seq<Block>, b: Block, c: Block, done: set<Value>)
    requires w.Ok() && b in w.code0 && w.g.Edge(b, c) && Past(w, q, b, done)
    ensures Past(w, q + [c], c, done + StoredVars(w.code0[b]))
  {
    PathSnoc(w.g, w.g.Entry(), q, b, c);
    assert (q + [c])[..|q + [c]| - 1] == q;
    forall l | StoresOn(w.code0, q, l)
      ensures l in done + StoredVars(w.code0[b])
    {
      StoresOnLast(w.code0, q, l);
      StoredVarsIs(w.code0[b], l);
    }
  }

  lemma {:induction false} RunSame(w: Build, s: Progress, m: Machine, code: Code, from: Block, q: seq<Block>, b: Block, done: set<Value>, so: State, sf: State, fuel: nat)
    requires Renamed(w, s) && LoadsSafe(w.g, w.code0) && FinalCode(w, s, code)
    requires b in w.p.t.up && Past(w, q, b, done) && EnteredSim(w, s, m, from, b, done, so, sf)
    ensures Run(m, w.code0, from, b, so, fuel) == Run(m, code, from, b, sf, fuel)
    decreases fuel
  {
    assert b in code && code[b] == FinalBody(w, s, b);
    PastCovers(w, q, b, done);
    if fuel > 0 {
      var less: nat := fuel - 1;
      EnterInput(w, m, from, b, so);
      var so', sf' := Steps(m, w.code0[b], so), Steps(m, code[b], Enter(m, code[b], from, sf));
      BlockRun(w, s, m, from, b, done, so, sf);
      var e := Leave(m, w.code0[b], so');
      if e.Goto? {
        PastEdge(w, q, b, e.target, done);
        RunSame(w, s, m, code, b, q + [e.target], e.target, done + StoredVars(w.code0[b]), so', sf', less);
      }
      RunAlike(m, w.code0, code, from, b, so, sf, so', sf', fuel, less);
    }
  }

  lemma EntryHasNoPhi(w: Build)
    requires w.Ok()
    ensures var e := w.g.Entry(); e in w.p.t.up && w.N(e) == 0 && w.Split(e)
  {
    var e := w.g.Entry();
    EntryReachable(w.g);
    assert e in w.p.t.up;
    w.SplitReachable(e);
    if w.N(e) > 0 {
      assert ExtendedAt(w.code0, w.p.base, w.has, e);
      assert FreshPhi(w.p.base[e][0]);
      NoPhiInEntry(w, w.p.base[e][0].op.lval);
      assert false;
    }
  }

  lemma EnterNoPhi(m: Machine, ref: seq<Instr>, cur: seq<Instr>, from: Block, s: State)
    requires |ref| == |cur| && forall k :: 0 <= k < |ref| ==> !ref[k].op.Phi? && cur[k].op == ref[k].op
    ensures Enter(m, Sparse(ref, cur), from, s) == s
  {
    PhiValuesSparse(m, ref, cur, from, s.regs);
    NoPhiValues(m, cur, from, s.regs);
    assert s.regs + map[] == s.regs;
  }

  lemma EntrySim(w: Build, s: Progress, m: Machine, from: Block, s0: State)
    requires Renamed(w, s)
    ensures w.g.Entry() in w.p.t.up && EnteredSim(w, s, m, from, w.g.Entry(), {}, s0, s0)
  {
    var e := w.g.Entry();
    EntryHasNoPhi(w);
    AtStart(w.p, e);
    EnterNoPhi(m, w.p.Body(e), TargetBody(w.p, s, e), from, s0);
  }

  /** Mem2Reg preserves meaning: on every machine, from every state and for every number of
      steps, the renamed code goes through the same blocks, makes the same stores and calls,
      and ends with the same memory and result. */
  lemma RenamingPreserves(w: Build, s: Progress, m: Machine, code: Code, from: Block, s0: State, fuel: nat)
    requires Renamed(w, s) && LoadsSafe(w.g, w.code0) && FinalCode(w, s, code)
    ensures Run(m, code, from, w.g.Entry(), s0, fuel) == Run(m, w.code0, from, w.g.Entry(), s0, fuel)
  {
    EntrySim(w, s, m, from, s0);
    assert Past(w, [w.g.Entry()], w.g.Entry(), {});
    RunSame(w, s, m, code, from, [w.g.Entry()], w.g.Entry(), {}, s0, s0, fuel);
  }

  // ----- complete phis -----

  lemma CountSnoc<T>(s: seq<T>, e: T, x: T)
    ensures multiset(s + [e])[x] == multiset(s)[x] + if e == x then 1 else 0
  {
  }

  lemma CountLast<T>(s: seq<T>, x: T)
    requires s != []
    ensures multiset(s)[x] == multiset(s[..|s| - 1])[x] + if s[|s| - 1] == x then 1 else 0
  {
    assert s == s[..|s| - 1] + [s[|s| - 1]];
  }

  lemma {:induction false} CountLabels(p: Ssa, fills: seq<Edge>, c: Block, x: Value, from: Block)
    requires p.t.Ok()
    ensures multiset(FillLabels(p, fills, c, x))[from] == if Brings(p, from, x) != [] then multiset(fills)[(from, c)] else 0
  {
    if fills != [] {
      var n := |fills| - 1;
      CountLabels(p, fills[..n], c, x, from);
      CountLast(fills, (from, c));
      CountSnoc(FillLabels(p, fills[..n], c, x), fills[n].0, from);
    }
  }

  /** Every phi has exactly one operand for each edge from a reachable block at whose end its variable has a
      value, namely that value, and no other operand. */
  lemma PhiComplete(w: Build, s: Progress, b: Block, k: nat, from: Block)
    requires Renamed(w, s) && b in w.p.t.up && k < |w.p.Body(b)| && w.p.Body(b)[k].op.Phi?
    ensures var phi := Target(w.p, s, b, w.p.Body(b)[k]);
            && |phi.args| == |phi.labels|
            && multiset(phi.labels)[from] == (if from in w.p.t.up && from in w.g.succ && Brings(w.p, from, phi.op.lval) != [] then multiset(w.g.succ[from])[b] else 0)
            && forall j :: 0 <= j < |phi.args| && phi.labels[j] == from ==>
                 from in w.p.t.up && [phi.args[j]] == Brings(w.p, from, phi.op.lval)
  {
    var p := w.p;
    var x := p.Body(b)[k].op.lval;
    w.SplitReachable(b);
    w.PhiIffHas(b, x);
    CountLabels(p, s.fills, b, x, from);
    FillLookup(p, s.fills, b, x, from);
    assert multiset(s.fills)[(from, b)] == EdgeCount(w.g, p.t.up.Keys, (from, b));
  }
}
