/**
  A program without its dead instructions does what the program does.
 */
module Sweeping {
  import opened Cfg
  import opened Ir
  import opened Program
  import opened Spreading
  import opened FuncInfo
  import opened Purity
  import opened Determinism
  import opened Liveness
  import opened DeadCode

  /** `isPure` is an analysis of `p` that can be trusted. */
  ghost predicate Trusted(p: Prog, isPure: map<nat, bool>) {
    (forall f {:trigger p[f]} :: f in p ==> p[f].Ok()) && AllHarmless(p, Pure(isPure))
  }

  ghost predicate RegsAgree(dead: set<nat>, r: Regs, r': Regs) {
    forall id {:trigger ReadReg(r, id)} {:trigger ReadReg(r', id)} :: id !in dead ==> ReadReg(r, id) == ReadReg(r', id)
  }

  ghost predicate Agree(dead: set<nat>, depth: nat, r: Regs, r': Regs, w: World, w': World) {
    RegsAgree(dead, r, r') && SameOutside(depth + 1, w, w')
  }

  /** Both go on in agreement, or both stop in the same way with the same outside. */
  ghost predicate SameProgress(dead: set<nat>, depth: nat, s: Progress, s': Progress) {
    match s
    case Going(r, w) => s'.Going? && Agree(dead, depth, r, s'.regs, w, s'.w)
    case Blocked(w) => s'.Blocked? && SameOutside(depth + 1, w, s'.w)
    case Starved(w) => s'.Starved? && SameOutside(depth + 1, w, s'.w)
  }

  /** The first has done nothing that the second has not done, too; and they are the same if the first goes on or `fine` holds. */
  ghost predicate StaysWith(dead: set<nat>, depth: nat, s: Progress, s': Progress, fine: bool) {
    s.w.trace <= s'.w.trace && (s.Going? || fine ==> SameProgress(dead, depth, s, s'))
  }

  /** The same ending, through the same blocks, with the same stores to globals and calls to the outside, and the same
      memory outside the call. */
  ghost predicate SameOutcome(depth: nat, out: Outcome, out': Outcome) {
    out'.path == out.path && SameOutside(depth, out.w, out'.w) &&
    match out
    case Returned(_, v, _) => out'.Returned? && out'.val == v
    case Stuck(_, _) => out'.Stuck?
    case OutOfFuel(_, _) => out'.OutOfFuel?
  }

  /** What is proved of a run and the run without dead instructions: the first has done nothing that the second has not
      done, too; and they are the same if the first returns or no dead call in it fails. */
  ghost predicate Follows(depth: nat, out: Outcome, out': Outcome, fine: bool) {
    && out.w.trace <= out'.w.trace && out.path <= out'.path
    && (out.Returned? || fine ==> SameOutcome(depth, out, out'))
  }

  // ----- runs in which no dead call fails -----

  /** Every dead call in the run, the calls it makes included, returns. */
  ghost predicate Smooth(p: Prog, m: Machine, isPure: map<nat, bool>, f: nat, args: seq<Val>, w: World, depth: nat, fuel: nat)
    decreases fuel, 2, 0
  {
    f !in p || p[f].IsDeclaration() ||
    SmoothBlocks(p, m, isPure, p[f], Frame(Coerce(p[f].scalar, args), depth), 0, p[f].blocks[0], map[], Cleared(w, depth), fuel)
  }

  ghost predicate SmoothBlocks(p: Prog, m: Machine, isPure: map<nat, bool>, f: Func, a: Frame, from: Block, b: Block, regs: Regs, w: World, fuel: nat)
    decreases fuel, 1, 0
  {
    fuel == 0 || b !in f.code ||
    var regs1 := regs + PhiValues(a, f.code[b], from, regs);
    var s := Steps(p, m, a, f.code[b], regs1, w, fuel);
    && SmoothSteps(p, m, isPure, Dead(f.Defs(), isPure), a, f.code[b], regs1, w, fuel)
    && (s.Going? && ExitOf(a, f.code[b], s.regs).Goto? ==>
          SmoothBlocks(p, m, isPure, f, a, b, ExitOf(a, f.code[b], s.regs).target, s.regs, s.w, fuel - 1))
  }

  ghost predicate SmoothSteps(p: Prog, m: Machine, isPure: map<nat, bool>, dead: set<nat>, a: Frame, body: seq<Instr>, regs: Regs, w: World, fuel: nat)
    decreases fuel, 0, |body|
  {
    body == [] ||
    var s := Steps(p, m, a, body[..|body| - 1], regs, w, fuel);
    && SmoothSteps(p, m, isPure, dead, a, body[..|body| - 1], regs, w, fuel)
    && (s.Going? ==> SmoothStep(p, m, isPure, dead, a, body[|body| - 1], s.regs, s.w, fuel))
  }

  ghost predicate SmoothStep(p: Prog, m: Machine, isPure: map<nat, bool>, dead: set<nat>, a: Frame, i: Instr, regs: Regs, w: World, fuel: nat)
    decreases fuel, 0, 0
  {
    i.op.Call? && fuel > 0 ==>
      if i.id in dead then Step(p, m, a, i, regs, w, fuel).Going?
      else Smooth(p, m, isPure, i.op.callee, EvalAll(a, regs, i.args), w, a.depth + 1, fuel - 1)
  }

  /** Every call of a pure function returns, given enough fuel. */
  ghost predicate PureCallsEnd(p: Prog, m: Machine, pure: set<nat>) {
    forall f, args, w, depth: nat {:trigger Ends(p, m, f, args, w, depth)} :: f in pure ==> Ends(p, m, f, args, w, depth)
  }

  ghost predicate Ends(p: Prog, m: Machine, f: nat, args: seq<Val>, w: World, depth: nat) {
    exists fuel: nat :: Invoke(p, m, f, args, w, depth, fuel).Returned?
  }

  /** No dead call fails: because none does in the run at hand, or because none ever does and the run is over. */
  ghost predicate Fine(p: Prog, m: Machine, isPure: map<nat, bool>, over: bool, smooth: bool) {
    AllTerminated(p) && (smooth || (over && PureCallsEnd(p, m, Pure(isPure))))
  }

  /** Every block ends in a branch or return. */
  ghost predicate Terminated(f: Func) {
    forall b {:trigger f.code[b]} :: b in f.code ==> f.code[b] != [] && IsTerminator(f.code[b][|f.code[b]| - 1])
  }

  ghost predicate AllTerminated(p: Prog) {
    forall f {:trigger p[f]} :: f in p ==> Terminated(p[f])
  }

  lemma SameOutsideJoin(depth: nat, w: World, w1: World, w': World)
    requires SameOutside(depth, w, w') && SameOutside(depth, w, w1)
    ensures SameOutside(depth, w1, w')
  {
    forall obj, off | IsBelow(obj, depth)
      ensures ReadCell(w'.mem, obj, off) == ReadCell(w1.mem, obj, off)
    {
      assert ReadCell(w'.mem, obj, off) == ReadCell(w.mem, obj, off);
    }
  }

  // ----- a live instruction -----

  lemma ArgsAgree(defs: map<nat, Instr>, isPure: map<nat, bool>, a: Frame, i: Instr, r: Regs, r': Regs)
    requires Names(defs, i) && i.id !in Dead(defs, isPure) && RegsAgree(Dead(defs, isPure), r, r')
    ensures EvalAll(a, r, i.args) == EvalAll(a, r', i.args)
    ensures forall v :: v in i.args ==> Eval(a, r, v) == Eval(a, r', v)
  {
    forall v | v in i.args
      ensures Eval(a, r, v) == Eval(a, r', v)
    {
      if v.Result? && v.id in defs {
        LiveArgs(defs, isPure, i, v);
      }
    }
  }

  lemma ResultAgrees(m: Machine, a: Frame, i: Instr, r: Regs, r': Regs, w: World, w': World)
    requires EvalAll(a, r, i.args) == EvalAll(a, r', i.args) && IsQuiet(i.op)
    requires SameOutside(a.depth + 1, w, w')
    ensures ResultIn(m, a, i, r, w.mem) == ResultIn(m, a, i, r', w'.mem)
  {
    if i.op.Load? && |i.args| == 1 {
      var addr := Eval(a, r, i.args[0]);
      if addr.Pointer? && !IsOver(a, addr) {
        assert IsBelow(addr.obj, a.depth + 1);
        assert ReadCell(w'.mem, addr.obj, addr.off) == ReadCell(w.mem, addr.obj, addr.off);
      }
    }
  }

  lemma WriteAgrees(depth: nat, w: World, w': World, obj: Object, off: int, v: Val)
    requires SameOutside(depth, w, w')
    ensures SameOutside(depth, WriteCell(w, obj, off, v), WriteCell(w', obj, off, v))
  {
    var x, x' := WriteCell(w, obj, off, v).mem, WriteCell(w', obj, off, v).mem;
    forall o, n | IsBelow(o, depth)
      ensures ReadCell(x', o, n) == ReadCell(x, o, n)
    {
      assert ReadCell(w'.mem, o, n) == ReadCell(w.mem, o, n);
    }
  }

  lemma SetAgrees(dead: set<nat>, r: Regs, r': Regs, id: nat, v: Val)
    requires RegsAgree(dead, r, r')
    ensures RegsAgree(dead, r[id := v], r'[id := v])
  {
    var s, s' := r[id := v], r'[id := v];
    forall j | j !in dead
      ensures ReadReg(s, j) == ReadReg(s', j)
    {
      assert ReadReg(r, j) == ReadReg(r', j);
    }
  }

  lemma SmoothCall(p: Prog, m: Machine, isPure: map<nat, bool>, dead: set<nat>, a: Frame, i: Instr, args: seq<Val>, r: Regs, w: World,
                   deeper: nat, fuel: nat, less: nat)
    requires i.op.Call? && less + 1 == fuel && deeper == a.depth + 1 && args == EvalAll(a, r, i.args) && i.id !in dead
    ensures SmoothStep(p, m, isPure, dead, a, i, r, w, fuel) <==> Smooth(p, m, isPure, i.op.callee, args, w, deeper, less)
  {
  }

  lemma CallStays(dead: set<nat>, depth: nat, deeper: nat, i: Instr, r: Regs, r': Regs, out: Outcome, out': Outcome, fine: bool)
    requires RegsAgree(dead, r, r') && deeper == depth + 1 && Follows(deeper, out, out', fine)
    ensures StaysWith(dead, depth, AfterCall(i, r, out), AfterCall(i, r', out'), fine)
  {
    if out.Returned? {
      SetAgrees(dead, r, r', i.id, Int(out.val));
    }
  }

  lemma {:induction false} LiveCall(p: Prog, m: Machine, isPure: map<nat, bool>, dead: set<nat>, a: Frame, i: Instr,
                                    r: Regs, r': Regs, w: World, w': World, fuel: nat)
    requires Trusted(p, isPure) && i.op.Call? && EvalAll(a, r, i.args) == EvalAll(a, r', i.args) && Agree(dead, a.depth, r, r', w, w') && i.id !in dead
    ensures var s := Step(p, m, a, i, r, w, fuel);
            StaysWith(dead, a.depth, s, Step(SweptAll(p, isPure), m, a, i, r', w', fuel),
                      Fine(p, m, isPure, !s.Starved?, SmoothStep(p, m, isPure, dead, a, i, r, w, fuel)))
    decreases fuel, 0, 0
  {
    if fuel > 0 {
      var args := EvalAll(a, r, i.args);
      var less: nat, deeper: nat := fuel - 1, a.depth + 1;
      StepIsCall(p, m, a, i, args, r, w, deeper, fuel, less);
      StepIsCall(SweptAll(p, isPure), m, a, i, args, r', w', deeper, fuel, less);
      SmoothCall(p, m, isPure, dead, a, i, args, r, w, deeper, fuel, less);
      InvokeSwept(p, m, isPure, i.op.callee, args, w, w', deeper, less);
      var out, out' := Invoke(p, m, i.op.callee, args, w, deeper, less), Invoke(SweptAll(p, isPure), m, i.op.callee, args, w', deeper, less);
      CallStays(dead, a.depth, deeper, i, r, r', out, out', Fine(p, m, isPure, !out.OutOfFuel?, Smooth(p, m, isPure, i.op.callee, args, w, deeper, less)));
    }
  }

  lemma LiveStore(p: Prog, p': Prog, m: Machine, dead: set<nat>, a: Frame, i: Instr, r: Regs, r': Regs, w: World, w': World, fuel: nat)
    requires i.op.Store? && Agree(dead, a.depth, r, r', w, w')
    requires forall v :: v in i.args ==> Eval(a, r, v) == Eval(a, r', v)
    ensures SameProgress(dead, a.depth, Step(p, m, a, i, r, w, fuel), Step(p', m, a, i, r', w', fuel))
  {
    assert Dangles(a, i, r) == Dangles(a, i, r');
    if |i.args| == 2 && Eval(a, r, i.args[1]).Pointer? {
      var addr := Eval(a, r, i.args[1]);
      WriteAgrees(a.depth + 1, w, w', addr.obj, addr.off, Eval(a, r, i.args[0]));
    }
  }

  lemma LiveQuiet(p: Prog, p': Prog, m: Machine, dead: set<nat>, a: Frame, i: Instr, r: Regs, r': Regs, w: World, w': World, fuel: nat)
    requires !i.op.Store? && !i.op.Call? && EvalAll(a, r, i.args) == EvalAll(a, r', i.args) && Agree(dead, a.depth, r, r', w, w')
    ensures SameProgress(dead, a.depth, Step(p, m, a, i, r, w, fuel), Step(p', m, a, i, r', w', fuel))
  {
    if IsQuiet(i.op) {
      ResultAgrees(m, a, i, r, r', w, w');
      SetAgrees(dead, r, r', i.id, ResultIn(m, a, i, r, w.mem));
    }
  }

  lemma SameStays(dead: set<nat>, depth: nat, s: Progress, s': Progress, fine: bool)
    requires SameProgress(dead, depth, s, s')
    ensures StaysWith(dead, depth, s, s', fine)
  {
  }

  lemma {:induction false} LiveStep(p: Prog, m: Machine, isPure: map<nat, bool>, f: Func, dead: set<nat>, a: Frame, i: Instr,
                                    r: Regs, r': Regs, w: World, w': World, fuel: nat)
    requires Trusted(p, isPure) && f.Ok() && Names(f.Defs(), i) && i.id !in dead && dead == Dead(f.Defs(), isPure)
    requires Agree(dead, a.depth, r, r', w, w')
    ensures var s := Step(p, m, a, i, r, w, fuel);
            StaysWith(dead, a.depth, s, Step(SweptAll(p, isPure), m, a, i, r', w', fuel),
                      Fine(p, m, isPure, !s.Starved?, SmoothStep(p, m, isPure, dead, a, i, r, w, fuel)))
    decreases fuel, 0, 1
  {
    ArgsAgree(f.Defs(), isPure, a, i, r, r');
    var s, s' := Step(p, m, a, i, r, w, fuel), Step(SweptAll(p, isPure), m, a, i, r', w', fuel);
    if i.op.Call? {
      LiveCall(p, m, isPure, dead, a, i, r, r', w, w', fuel);
    } else {
      if i.op.Store? {
        LiveStore(p, SweptAll(p, isPure), m, dead, a, i, r, r', w, w', fuel);
      } else {
        LiveQuiet(p, SweptAll(p, isPure), m, dead, a, i, r, r', w, w', fuel);
      }
      SameStays(dead, a.depth, s, s', Fine(p, m, isPure, !s.Starved?, SmoothStep(p, m, isPure, dead, a, i, r, w, fuel)));
    }
  }

  // ----- a dead instruction -----

  lemma DeadIsNotCritical(defs: map<nat, Instr>, isPure: map<nat, bool>, i: Instr)
    requires Names(defs, i) && i.id in Dead(defs, isPure)
    ensures !IsCritical(i, isPure)
  {
    if IsCritical(i, isPure) {
      ReachesNow(UseEdges(defs), Critical(defs, isPure), i.id);
    }
  }

  lemma SetDead(dead: set<nat>, r: Regs, r': Regs, id: nat, v: Val)
    requires RegsAgree(dead, r, r') && id in dead
    ensures RegsAgree(dead, r[id := v], r')
  {
    forall j | j !in dead
      ensures ReadReg(r[id := v], j) == ReadReg(r', j)
    {
      assert ReadReg(r, j) == ReadReg(r', j);
    }
  }

  lemma DeadCallReturns(p: Prog, m: Machine, pure: set<nat>, f: nat, args: seq<Val>, w: World, depth: nat, fuel: nat)
    ensures var out := Invoke(p, m, f, args, w, depth, fuel); f in pure && PureCallsEnd(p, m, pure) && !out.OutOfFuel? ==> out.Returned?
  {
    if f in pure && PureCallsEnd(p, m, pure) {
      assert Ends(p, m, f, args, w, depth);
      var enough: nat :| Invoke(p, m, f, args, w, depth, enough).Returned?;
      var more := if enough < fuel then fuel else enough;
      InvokeMore(p, m, f, args, w, depth, enough, more);
      InvokeMore(p, m, f, args, w, depth, fuel, more);
    }
  }

  /** A dead instruction changes nothing that a live one sees. A dead call is of a pure function, and leaves the outside
      alone even if it does not return. */
  lemma DeadStep(p: Prog, m: Machine, isPure: map<nat, bool>, dead: set<nat>, a: Frame, i: Instr,
                 r: Regs, r': Regs, w: World, w': World, fuel: nat)
    requires Trusted(p, isPure) && i.id in dead && !IsCritical(i, isPure) && Agree(dead, a.depth, r, r', w, w')
    ensures var s := Step(p, m, a, i, r, w, fuel);
            && s.w.trace == w'.trace && (s.Going? ==> Agree(dead, a.depth, s.regs, r', s.w, w'))
            && (fuel > 0 && Fine(p, m, isPure, !s.Starved?, SmoothStep(p, m, isPure, dead, a, i, r, w, fuel)) ==> s.Going?)
  {
    var s := Step(p, m, a, i, r, w, fuel);
    if i.op.Call? && fuel > 0 {
      InvokeUntouched(p, m, Pure(isPure), i.op.callee, EvalAll(a, r, i.args), w, a.depth + 1, fuel - 1);
      DeadCallReturns(p, m, Pure(isPure), i.op.callee, EvalAll(a, r, i.args), w, a.depth + 1, fuel - 1);
      if s.Going? {
        SameOutsideJoin(a.depth + 1, w, s.w, w');
        SetDead(dead, r, r', i.id, s.regs[i.id]);
      }
    } else if IsQuiet(i.op) {
      SetDead(dead, r, r', i.id, s.regs[i.id]);
    }
  }

  // ----- a block -----

  /** One more instruction: `u` and `u'` are what it makes of `t` and `t'`, and a dead one is not in the second run. */
  lemma OneMore(dead: set<nat>, depth: nat, t: Progress, t': Progress, u: Progress, u': Progress, isDead: bool, fine: bool)
    requires StaysWith(dead, depth, t, t', fine) && t'.w.trace <= u'.w.trace
    requires t.Going? && t'.Going? ==> StaysWith(dead, depth, u, if isDead then t' else u', fine)
    ensures StaysWith(dead, depth, if t.Going? then u else t, if !isDead && t'.Going? then u' else t', fine)
  {
  }

  lemma {:induction false} LastStepSwept(p: Prog, m: Machine, isPure: map<nat, bool>, f: Func, dead: set<nat>, a: Frame, i: Instr,
                                         r: Regs, r': Regs, w: World, w': World, fuel: nat)
    requires Trusted(p, isPure) && f.Ok() && Names(f.Defs(), i) && dead == Dead(f.Defs(), isPure) && Agree(dead, a.depth, r, r', w, w')
    ensures var s := Step(p, m, a, i, r, w, fuel);
            StaysWith(dead, a.depth, s, if i.id in dead then Going(r', w') else Step(SweptAll(p, isPure), m, a, i, r', w', fuel),
                      fuel > 0 && Fine(p, m, isPure, !s.Starved?, SmoothStep(p, m, isPure, dead, a, i, r, w, fuel)))
    decreases fuel, 0, 2
  {
    if i.id in dead {
      DeadIsNotCritical(f.Defs(), isPure, i);
      DeadStep(p, m, isPure, dead, a, i, r, r', w, w', fuel);
    } else {
      LiveStep(p, m, isPure, f, dead, a, i, r, r', w, w', fuel);
    }
  }

  lemma {:induction false} StepsSwept(p: Prog, m: Machine, isPure: map<nat, bool>, f: Func, dead: set<nat>, a: Frame, body: seq<Instr>,
                                      r: Regs, r': Regs, w: World, w': World, fuel: nat)
    requires Trusted(p, isPure) && f.Ok() && AllNamed(f.Defs(), body) && dead == Dead(f.Defs(), isPure) && Agree(dead, a.depth, r, r', w, w')
    ensures var s := Steps(p, m, a, body, r, w, fuel);
            StaysWith(dead, a.depth, s, Steps(SweptAll(p, isPure), m, a, Without(body, dead), r', w', fuel),
                      fuel > 0 && Fine(p, m, isPure, !s.Starved?, SmoothSteps(p, m, isPure, dead, a, body, r, w, fuel)))
    decreases fuel, 1, |body|
  {
    if body != [] {
      var n := |body| - 1;
      var i, front := body[n], body[..n];
      assert Names(f.Defs(), i);
      StepsSwept(p, m, isPure, f, dead, a, front, r, r', w, w', fuel);
      LastSwept(SweptAll(p, isPure), m, dead, a, body, r', w', fuel);
      var t := Steps(p, m, a, front, r, w, fuel);
      var t' := Steps(SweptAll(p, isPure), m, a, Without(front, dead), r', w', fuel);
      var s := Steps(p, m, a, body, r, w, fuel);
      var fine := fuel > 0 && Fine(p, m, isPure, !s.Starved?, SmoothSteps(p, m, isPure, dead, a, body, r, w, fuel));
      var u, u' := t, t';
      if t.Going? {
        u := Step(p, m, a, i, t.regs, t.w, fuel);
      }
      if t'.Going? {
        u' := Step(SweptAll(p, isPure), m, a, i, t'.regs, t'.w, fuel);
        StepGrows(SweptAll(p, isPure), m, a, i, t'.regs, t'.w, fuel);
      }
      if t.Going? && t'.Going? {
        LastStepSwept(p, m, isPure, f, dead, a, i, t.regs, t'.regs, t.w, t'.w, fuel);
      }
      OneMore(dead, a.depth, t, t', u, u', i.id in dead, fine);
    }
  }

  /** The last instruction of a body is executed if it is left. */
  lemma LastSwept(p: Prog, m: Machine, dead: set<nat>, a: Frame, body: seq<Instr>, r: Regs, w: World, fuel: nat)
    requires body != []
    ensures var i := body[|body| - 1]; var t := Steps(p, m, a, Without(body[..|body| - 1], dead), r, w, fuel);
            Steps(p, m, a, Without(body, dead), r, w, fuel) == if i.id !in dead && t.Going? then Step(p, m, a, i, t.regs, t.w, fuel) else t
  {
    var n := |body| - 1;
    if body[n].id in dead {
      assert Without(body, dead) == Without(body[..n], dead);
    } else {
      StepsSnoc(p, m, a, Without(body[..n], dead), body[n], r, w, fuel);
    }
  }

  ghost predicate SameAt(v: Regs, v': Regs, id: nat) {
    (id in v <==> id in v') && (id in v ==> v[id] == v'[id])
  }

  ghost predicate PhisAgree(dead: set<nat>, v: Regs, v': Regs) {
    forall id {:trigger SameAt(v, v', id)} :: id !in dead ==> SameAt(v, v', id)
  }

  lemma {:induction false} PhisSwept(defs: map<nat, Instr>, isPure: map<nat, bool>, a: Frame, body: seq<Instr>, from: Block, r: Regs, r': Regs)
    requires AllNamed(defs, body) && RegsAgree(Dead(defs, isPure), r, r')
    ensures var v, v' := PhiValues(a, body, from, r), PhiValues(a, Without(body, Dead(defs, isPure)), from, r');
            PhisAgree(Dead(defs, isPure), v, v')
  {
    if body != [] {
      var n := |body| - 1;
      var i := body[n];
      var dead := Dead(defs, isPure);
      PhisSwept(defs, isPure, a, body[..n], from, r, r');
      assert Names(defs, i);
      var u, u' := PhiValues(a, body[..n], from, r), PhiValues(a, Without(body[..n], dead), from, r');
      if i.id in dead {
        assert Without(body, dead) == Without(body[..n], dead);
        PhiDead(dead, u, u', i.id, Eval(a, r, Incoming(i, from)));
      } else {
        ArgsAgree(defs, isPure, a, i, r, r');
        assert Eval(a, r, Incoming(i, from)) == Eval(a, r', Incoming(i, from));
        PhisSnoc(a, Without(body[..n], dead), i, from, r');
        assert Without(body, dead) == Without(body[..n], dead) + [i];
        PhiLive(dead, u, u', i.id, Eval(a, r, Incoming(i, from)));
      }
    }
  }

  lemma PhiDead(dead: set<nat>, u: Regs, u': Regs, id: nat, x: Val)
    requires PhisAgree(dead, u, u') && id in dead
    ensures PhisAgree(dead, u[id := x], u')
  {
    forall j | j !in dead
      ensures SameAt(u[id := x], u', j)
    {
      assert SameAt(u, u', j);
    }
  }

  lemma PhiLive(dead: set<nat>, u: Regs, u': Regs, id: nat, x: Val)
    requires PhisAgree(dead, u, u')
    ensures PhisAgree(dead, u[id := x], u'[id := x])
  {
    forall j | j !in dead
      ensures SameAt(u[id := x], u'[id := x], j)
    {
      assert SameAt(u, u', j);
    }
  }

  lemma EnterSwept(defs: map<nat, Instr>, isPure: map<nat, bool>, a: Frame, body: seq<Instr>, from: Block, r: Regs, r': Regs)
    requires AllNamed(defs, body) && RegsAgree(Dead(defs, isPure), r, r')
    ensures RegsAgree(Dead(defs, isPure), r + PhiValues(a, body, from, r), r' + PhiValues(a, Without(body, Dead(defs, isPure)), from, r'))
  {
    PhisSwept(defs, isPure, a, body, from, r, r');
    var v, v' := PhiValues(a, body, from, r), PhiValues(a, Without(body, Dead(defs, isPure)), from, r');
    var e, e' := r + v, r' + v';
    forall id | id !in Dead(defs, isPure)
      ensures ReadReg(e, id) == ReadReg(e', id)
    {
      assert ReadReg(r, id) == ReadReg(r', id);
      assert SameAt(v, v', id);
    }
  }

  lemma LastLeft(body: seq<Instr>, dead: set<nat>)
    requires body != [] && body[|body| - 1].id !in dead
    ensures Without(body, dead) != [] && Without(body, dead)[|Without(body, dead)| - 1] == body[|body| - 1]
  {
  }

  lemma SameExit(a: Frame, body: seq<Instr>, body': seq<Instr>, r: Regs, r': Regs)
    requires body != [] && body' != [] && body'[|body'| - 1] == body[|body| - 1]
    requires forall v :: v in body[|body| - 1].args ==> Eval(a, r, v) == Eval(a, r', v)
    ensures ExitOf(a, body', r') == ExitOf(a, body, r)
  {
  }

  /** A branch or return is live and stays at the end of its block. */
  lemma ExitSwept(defs: map<nat, Instr>, isPure: map<nat, bool>, a: Frame, body: seq<Instr>, r: Regs, r': Regs)
    requires AllNamed(defs, body) && RegsAgree(Dead(defs, isPure), r, r') && body != [] && IsTerminator(body[|body| - 1])
    ensures ExitOf(a, Without(body, Dead(defs, isPure)), r') == ExitOf(a, body, r)
  {
    var i, dead := body[|body| - 1], Dead(defs, isPure);
    assert Names(defs, i);
    if i.id in dead {
      DeadIsNotCritical(defs, isPure, i);
    }
    ArgsAgree(defs, isPure, a, i, r, r');
    LastLeft(body, dead);
    SameExit(a, body, Without(body, dead), r, r');
  }

  // ----- a call -----

  /** The outcome of a block `b` that goes as `s`, leaves by `e`, and goes on as `rest` if that leads to another block. */
  ghost function EndOf(b: Block, s: Progress, e: Exit, rest: Outcome): Outcome {
    match s
    case Blocked(w) => Stuck(w, [b])
    case Starved(w) => OutOfFuel(w, [b])
    case Going(_, w) => match e
      case Goto(_) => Along(b, rest)
      case Leave(v) => Returned(w, v, [b])
      case NoExit => Stuck(w, [b])
  }

  ghost function RestOf(p: Prog, m: Machine, f: Func, a: Frame, b: Block, s: Progress, e: Exit, fuel: nat): Outcome {
    if s.Going? && e.Goto? then Blocks(p, m, f, a, b, e.target, s.regs, s.w, fuel) else OutOfFuel(s.w, [])
  }

  ghost function ExitAfter(a: Frame, body: seq<Instr>, s: Progress): Exit {
    if s.Going? then ExitOf(a, body, s.regs) else NoExit
  }

  lemma BlocksAre(p: Prog, m: Machine, f: Func, a: Frame, from: Block, b: Block, r: Regs, w: World, s: Progress, fuel: nat)
    requires fuel > 0 && b in f.code && s == Steps(p, m, a, f.code[b], r + PhiValues(a, f.code[b], from, r), w, fuel)
    ensures var e := ExitAfter(a, f.code[b], s); Blocks(p, m, f, a, from, b, r, w, fuel) == EndOf(b, s, e, RestOf(p, m, f, a, b, s, e, fuel - 1))
  {
  }

  lemma RestGrows(p: Prog, m: Machine, f: Func, a: Frame, b: Block, s: Progress, e: Exit, fuel: nat)
    ensures s.w.trace <= RestOf(p, m, f, a, b, s, e, fuel).w.trace
  {
    if s.Going? && e.Goto? {
      BlocksGrow(p, m, f, a, b, e.target, s.regs, s.w, fuel);
    }
  }

  /** Both leave the block in the same way, if the first leaves it or its block is known to end in a branch or return. */
  ghost predicate SameWay(s: Progress, e: Exit, e': Exit, closed: bool) {
    s.Going? && (closed || !e.NoExit?) ==> e' == e
  }

  lemma BlockFollows(dead: set<nat>, depth: nat, b: Block, s: Progress, s': Progress, e: Exit, e': Exit, rest: Outcome, rest': Outcome,
                     fine: bool, before: bool, after: bool)
    requires StaysWith(dead, depth, s, s', before) && s'.w.trace <= rest'.w.trace && (fine ==> before)
    requires SameWay(s, e, e', fine) && (s.Going? && e.Goto? ==> Follows(depth + 1, rest, rest', after)) && (fine ==> after)
    ensures Follows(depth + 1, EndOf(b, s, e, rest), EndOf(b, s', e', rest'), fine)
  {
  }

  /** A run of `f` in which every dead call that it depends on returns. */
  ghost predicate BlocksFine(p: Prog, m: Machine, isPure: map<nat, bool>, f: Func, a: Frame, from: Block, b: Block, regs: Regs, w: World, fuel: nat) {
    Terminated(f) && Fine(p, m, isPure, !Blocks(p, m, f, a, from, b, regs, w, fuel).OutOfFuel?, SmoothBlocks(p, m, isPure, f, a, from, b, regs, w, fuel))
  }

  ghost predicate StepsFine(p: Prog, m: Machine, isPure: map<nat, bool>, dead: set<nat>, a: Frame, body: seq<Instr>, regs: Regs, w: World, fuel: nat) {
    fuel > 0 && Fine(p, m, isPure, !Steps(p, m, a, body, regs, w, fuel).Starved?, SmoothSteps(p, m, isPure, dead, a, body, regs, w, fuel))
  }

  ghost predicate RestFine(p: Prog, m: Machine, isPure: map<nat, bool>, f: Func, a: Frame, b: Block, s: Progress, e: Exit, fuel: nat) {
    s.Going? && e.Goto? ==> BlocksFine(p, m, isPure, f, a, b, e.target, s.regs, s.w, fuel)
  }

  lemma FineParts(p: Prog, m: Machine, isPure: map<nat, bool>, f: Func, a: Frame, from: Block, b: Block, r: Regs, w: World,
                  x: Regs, s: Progress, e: Exit, fuel: nat, less: nat)
    requires less + 1 == fuel && b in f.code && x == r + PhiValues(a, f.code[b], from, r) && s == Steps(p, m, a, f.code[b], x, w, fuel)
    requires BlocksFine(p, m, isPure, f, a, from, b, r, w, fuel) && e == ExitAfter(a, f.code[b], s)
    ensures f.code[b] != [] && IsTerminator(f.code[b][|f.code[b]| - 1])
    ensures StepsFine(p, m, isPure, Dead(f.Defs(), isPure), a, f.code[b], x, w, fuel)
    ensures RestFine(p, m, isPure, f, a, b, s, e, less)
  {
  }

  lemma {:induction false} BlockSwept(p: Prog, m: Machine, isPure: map<nat, bool>, f: Func, dead: set<nat>, a: Frame, from: Block, body: seq<Instr>,
                                      r: Regs, r': Regs, w: World, w': World, fuel: nat, closed: bool, s: Progress, s': Progress)
    requires Trusted(p, isPure) && f.Ok() && AllNamed(f.Defs(), body) && dead == Dead(f.Defs(), isPure) && Agree(dead, a.depth, r, r', w, w')
    requires s == Steps(p, m, a, body, r + PhiValues(a, body, from, r), w, fuel)
    requires s' == Steps(SweptAll(p, isPure), m, a, Without(body, dead), r' + PhiValues(a, Without(body, dead), from, r'), w', fuel)
    requires closed ==> body != [] && IsTerminator(body[|body| - 1])
    ensures StaysWith(dead, a.depth, s, s', StepsFine(p, m, isPure, dead, a, body, r + PhiValues(a, body, from, r), w, fuel))
    ensures SameWay(s, ExitAfter(a, body, s), ExitAfter(a, Without(body, dead), s'), closed)
    decreases fuel, 1, |body| + 1
  {
    EnterSwept(f.Defs(), isPure, a, body, from, r, r');
    var e, e' := r + PhiValues(a, body, from, r), r' + PhiValues(a, Without(body, dead), from, r');
    StepsSwept(p, m, isPure, f, dead, a, body, e, e', w, w', fuel);
    if s.Going? && body != [] && IsTerminator(body[|body| - 1]) {
      ExitSwept(f.Defs(), isPure, a, body, s.regs, s'.regs);
    }
  }

  lemma {:induction false} RestSwept(p: Prog, m: Machine, isPure: map<nat, bool>, f: Func, dead: set<nat>, a: Frame, b: Block,
                                     s: Progress, s': Progress, e: Exit, e': Exit, fuel: nat, fine: bool, closed: bool)
    requires Trusted(p, isPure) && f.Ok() && dead == Dead(f.Defs(), isPure) && StaysWith(dead, a.depth, s, s', fine) && SameWay(s, e, e', closed)
    ensures s.Going? && e.Goto? ==>
              Follows(a.depth + 1, RestOf(p, m, f, a, b, s, e, fuel), RestOf(SweptAll(p, isPure), m, Swept(f, isPure), a, b, s', e', fuel),
                      RestFine(p, m, isPure, f, a, b, s, e, fuel))
    decreases fuel, 3, 0
  {
    if s.Going? && e.Goto? {
      BlocksSwept(p, m, isPure, f, dead, a, b, e.target, s.regs, s'.regs, s.w, s'.w, fuel);
    }
  }

  lemma BlocksJoin(p: Prog, p': Prog, m: Machine, f: Func, f': Func, dead: set<nat>, a: Frame, from: Block, b: Block,
                   r: Regs, r': Regs, w: World, w': World, fuel: nat, less: nat, s: Progress, s': Progress, e: Exit, e': Exit,
                   fine: bool, before: bool, after: bool)
    requires less + 1 == fuel && b in f.code && b in f'.code
    requires s == Steps(p, m, a, f.code[b], r + PhiValues(a, f.code[b], from, r), w, fuel) && e == ExitAfter(a, f.code[b], s)
    requires s' == Steps(p', m, a, f'.code[b], r' + PhiValues(a, f'.code[b], from, r'), w', fuel) && e' == ExitAfter(a, f'.code[b], s')
    requires StaysWith(dead, a.depth, s, s', before) && SameWay(s, e, e', fine) && (fine ==> before && after)
    requires s.Going? && e.Goto? ==> Follows(a.depth + 1, RestOf(p, m, f, a, b, s, e, less), RestOf(p', m, f', a, b, s', e', less), after)
    ensures Follows(a.depth + 1, Blocks(p, m, f, a, from, b, r, w, fuel), Blocks(p', m, f', a, from, b, r', w', fuel), fine)
  {
    RestGrows(p', m, f', a, b, s', e', less);
    BlocksAre(p, m, f, a, from, b, r, w, s, fuel);
    BlocksAre(p', m, f', a, from, b, r', w', s', fuel);
    BlockFollows(dead, a.depth, b, s, s', e, e', RestOf(p, m, f, a, b, s, e, less), RestOf(p', m, f', a, b, s', e', less),
                 fine, before, after);
  }

  lemma {:induction false} BlocksSwept(p: Prog, m: Machine, isPure: map<nat, bool>, f: Func, dead: set<nat>, a: Frame, from: Block, b: Block,
                                       r: Regs, r': Regs, w: World, w': World, fuel: nat)
    requires Trusted(p, isPure) && f.Ok() && dead == Dead(f.Defs(), isPure) && Agree(dead, a.depth, r, r', w, w')
    ensures Follows(a.depth + 1, Blocks(p, m, f, a, from, b, r, w, fuel), Blocks(SweptAll(p, isPure), m, Swept(f, isPure), a, from, b, r', w', fuel),
                    BlocksFine(p, m, isPure, f, a, from, b, r, w, fuel))
    decreases fuel, 2, 0
  {
    if fuel > 0 && b in f.code {
      NamedBody(f, b);
      var p', f', body := SweptAll(p, isPure), Swept(f, isPure), f.code[b];
      var body' := f'.code[b];
      var less: nat := fuel - 1;
      assert body' == Without(body, dead);
      var x, x' := r + PhiValues(a, body, from, r), r' + PhiValues(a, body', from, r');
      var s, s' := Steps(p, m, a, body, x, w, fuel), Steps(p', m, a, body', x', w', fuel);
      var e, e' := ExitAfter(a, body, s), ExitAfter(a, body', s');
      var fine, before := BlocksFine(p, m, isPure, f, a, from, b, r, w, fuel), StepsFine(p, m, isPure, dead, a, body, x, w, fuel);
      if fine {
        FineParts(p, m, isPure, f, a, from, b, r, w, x, s, e, fuel, less);
      }
      BlockSwept(p, m, isPure, f, dead, a, from, body, r, r', w, w', fuel, fine, s, s');
      RestSwept(p, m, isPure, f, dead, a, b, s, s', e, e', less, before, fine);
      BlocksJoin(p, p', m, f, f', dead, a, from, b, r, r', w, w', fuel, less, s, s', e, e', fine, before, RestFine(p, m, isPure, f, a, b, s, e, less));
    }
  }

  lemma ClearedAgree(w: World, w': World, depth: nat)
    requires SameOutside(depth, w, w')
    ensures SameOutside(depth + 1, Cleared(w, depth), Cleared(w', depth))
  {
    var c, c' := Cleared(w, depth).mem, Cleared(w', depth).mem;
    forall obj, off | IsBelow(obj, depth + 1)
      ensures ReadCell(c', obj, off) == ReadCell(c, obj, off)
    {
      assert ReadCell(w'.mem, obj, off) == ReadCell(w.mem, obj, off) || !IsBelow(obj, depth);
    }
  }

  lemma SameOutsideLess(depth: nat, w: World, w': World)
    requires SameOutside(depth + 1, w, w')
    ensures SameOutside(depth, w, w')
  {
    forall obj, off | IsBelow(obj, depth)
      ensures ReadCell(w'.mem, obj, off) == ReadCell(w.mem, obj, off)
    {
      assert IsBelow(obj, depth + 1);
    }
  }

  /** Every call goes on in the swept program at least as far as in the program, and ends the same if it returns or
      no dead call in it fails. */
  lemma {:induction false} InvokeSwept(p: Prog, m: Machine, isPure: map<nat, bool>, f: nat, args: seq<Val>, w: World, w': World, depth: nat, fuel: nat)
    requires Trusted(p, isPure) && SameOutside(depth, w, w')
    ensures var out := Invoke(p, m, f, args, w, depth, fuel);
            Follows(depth, out, Invoke(SweptAll(p, isPure), m, f, args, w', depth, fuel),
                    Fine(p, m, isPure, !out.OutOfFuel?, Smooth(p, m, isPure, f, args, w, depth, fuel)))
    decreases fuel, 3, 0
  {
    if f in p && !p[f].IsDeclaration() {
      var a := Frame(Coerce(p[f].scalar, args), depth);
      ClearedAgree(w, w', depth);
      BlocksSwept(p, m, isPure, p[f], Dead(p[f].Defs(), isPure), a, 0, p[f].blocks[0], map[], map[], Cleared(w, depth), Cleared(w', depth), fuel);
      var out, out' := Invoke(p, m, f, args, w, depth, fuel), Invoke(SweptAll(p, isPure), m, f, args, w', depth, fuel);
      if SameOutcome(depth + 1, out, out') {
        SameOutsideLess(depth, out.w, out'.w);
      }
    }
  }

  // ----- with the analysis of the program -----

  /** What the purity analysis finds. */
  ghost function Analysis(p: Prog): map<nat, bool>
    requires AllOrdered(p)
  {
    map f | f in p :: !Reaches(CallEdges(p), Bad(p), f)
  }

  lemma AnalysisTrusted(p: Prog)
    requires AllOrdered(p) && CallsKnown(p) && PurePhisRooted(p)
    ensures Trusted(p, Analysis(p)) && Pure(Analysis(p)) == PureFunctions(p)
  {
    assert Pure(Analysis(p)) == PureFunctions(p);
    PureAreHarmless(p);
  }

  /** With any fuel, a call in `p` has done nothing that it has not done in `p'` with the same fuel, in the same order: no store to
      a global, no call to the outside, no block entered. If it returns, or no dead call in it fails, it has come equally far or
      ended the same in both, with the same memory outside the call. */
  ghost predicate Preserved(p: Prog, p': Prog, m: Machine, f: nat, args: seq<Val>, w: World, depth: nat, fuel: nat)
    requires AllOrdered(p)
  {
    Follows(depth, Invoke(p, m, f, args, w, depth, fuel), Invoke(p', m, f, args, w, depth, fuel),
            AllTerminated(p) && Smooth(p, m, Analysis(p), f, args, w, depth, fuel))
  }

  /** Dead code elimination loses nothing: with the purity that the analysis computes, for any function, with any arguments
      and in any surroundings, whether the call returns, gets stuck or goes on for ever. */
  lemma DeadCodePreserves(p: Prog, m: Machine, f: nat, args: seq<Val>, w: World, depth: nat, fuel: nat)
    requires AllOrdered(p) && CallsKnown(p) && PurePhisRooted(p)
    ensures Preserved(p, SweptAll(p, Analysis(p)), m, f, args, w, depth, fuel)
  {
    AnalysisTrusted(p);
    InvokeSwept(p, m, Analysis(p), f, args, w, w, depth, fuel);
  }
}
