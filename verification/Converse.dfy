/**
  The other half: if the calls of pure functions return, a program without its dead
  instructions does nothing that the program does not do.
 */
module Converse {
  import opened Cfg
  import opened Determinism
  import opened Spreading
  import opened Ir
  import opened Program
  import opened FuncInfo
  import opened Purity
  import opened Liveness
  import opened DeadCode
  import opened Sweeping

  /** Nothing that dead code elimination takes out can get stuck or go on for ever. */
  ghost predicate NothingHangs(p: Prog, m: Machine, isPure: map<nat, bool>) {
    Trusted(p, isPure) && AllTerminated(p) && PureCallsEnd(p, m, Pure(isPure))
  }

  /** The second run has done all that the first has, and is over in the same way if the first is over. */
  ghost predicate Leads(depth: nat, out': Outcome, out: Outcome) {
    out'.w.trace <= out.w.trace && out'.path <= out.path && (!out'.OutOfFuel? ==> SameOutcome(depth, out, out'))
  }

  ghost predicate LeadsOn(dead: set<nat>, depth: nat, s': Progress, s: Progress) {
    s'.w.trace <= s.w.trace && (!s'.Starved? ==> SameProgress(dead, depth, s, s'))
  }

  lemma LeadsFurther(depth: nat, out': Outcome, out: Outcome, later: Outcome)
    requires Leads(depth, out', out) && GoesFurther(out, later)
    ensures Leads(depth, out', later)
  {
  }

  lemma LeadsOnFurther(dead: set<nat>, depth: nat, s': Progress, s: Progress, later: Progress)
    requires LeadsOn(dead, depth, s', s) && Further(s, later)
    ensures LeadsOn(dead, depth, s', later)
  {
  }

  // ----- an instruction -----

  lemma CallLeads(dead: set<nat>, depth: nat, deeper: nat, i: Instr, r: Regs, r': Regs, out: Outcome, out': Outcome)
    requires RegsAgree(dead, r, r') && deeper == depth + 1 && Leads(deeper, out', out)
    ensures LeadsOn(dead, depth, AfterCall(i, r', out'), AfterCall(i, r, out))
  {
    if out'.Returned? {
      SetAgrees(dead, r, r', i.id, Int(out.val));
    }
  }

  lemma {:induction false} CallBack(p: Prog, m: Machine, isPure: map<nat, bool>, dead: set<nat>, a: Frame, i: Instr,
                                    r: Regs, r': Regs, w: World, w': World, fuel: nat) returns (more: nat)
    requires NothingHangs(p, m, isPure) && i.op.Call? && EvalAll(a, r, i.args) == EvalAll(a, r', i.args) && Agree(dead, a.depth, r, r', w, w')
    ensures LeadsOn(dead, a.depth, Step(SweptAll(p, isPure), m, a, i, r', w', fuel), Step(p, m, a, i, r, w, more))
    decreases fuel, 0, 0
  {
    more := 0;
    if fuel > 0 {
      var args, less: nat, deeper: nat := EvalAll(a, r, i.args), fuel - 1, a.depth + 1;
      var n := InvokeBack(p, m, isPure, i.op.callee, args, w, w', deeper, less);
      more := n + 1;
      StepIsCall(p, m, a, i, args, r, w, deeper, more, n);
      StepIsCall(SweptAll(p, isPure), m, a, i, args, r', w', deeper, fuel, less);
      CallLeads(dead, a.depth, deeper, i, r, r', Invoke(p, m, i.op.callee, args, w, deeper, n),
                Invoke(SweptAll(p, isPure), m, i.op.callee, args, w', deeper, less));
    }
  }

  /** With fuel enough, a dead instruction is passed over. */
  lemma DeadBack(p: Prog, m: Machine, isPure: map<nat, bool>, dead: set<nat>, a: Frame, i: Instr,
                 r: Regs, r': Regs, w: World, w': World) returns (more: nat)
    requires NothingHangs(p, m, isPure) && i.id in dead && !IsCritical(i, isPure) && Agree(dead, a.depth, r, r', w, w')
    ensures LeadsOn(dead, a.depth, Going(r', w'), Step(p, m, a, i, r, w, more))
  {
    more := 1;
    if i.op.Call? {
      var args, deeper: nat := EvalAll(a, r, i.args), a.depth + 1;
      assert Ends(p, m, i.op.callee, args, w, deeper);
      var enough: nat :| Invoke(p, m, i.op.callee, args, w, deeper, enough).Returned?;
      more := enough + 1;
      StepIsCall(p, m, a, i, args, r, w, deeper, more, enough);
    }
    DeadStep(p, m, isPure, dead, a, i, r, r', w, w', more);
  }

  lemma {:induction false} LastBack(p: Prog, m: Machine, isPure: map<nat, bool>, f: Func, dead: set<nat>, a: Frame, i: Instr,
                                    r: Regs, r': Regs, w: World, w': World, fuel: nat) returns (more: nat)
    requires NothingHangs(p, m, isPure) && f.Ok() && Names(f.Defs(), i) && dead == Dead(f.Defs(), isPure) && Agree(dead, a.depth, r, r', w, w')
    ensures LeadsOn(dead, a.depth, if i.id in dead then Going(r', w') else Step(SweptAll(p, isPure), m, a, i, r', w', fuel),
                    Step(p, m, a, i, r, w, more))
    decreases fuel, 0, 2
  {
    more := fuel;
    if i.id in dead {
      DeadIsNotCritical(f.Defs(), isPure, i);
      more := DeadBack(p, m, isPure, dead, a, i, r, r', w, w');
    } else {
      ArgsAgree(f.Defs(), isPure, a, i, r, r');
      if i.op.Call? {
        more := CallBack(p, m, isPure, dead, a, i, r, r', w, w', fuel);
      } else if i.op.Store? {
        LiveStore(p, SweptAll(p, isPure), m, dead, a, i, r, r', w, w', fuel);
      } else {
        LiveQuiet(p, SweptAll(p, isPure), m, dead, a, i, r, r', w, w', fuel);
      }
    }
  }

  // ----- a block -----

  /** More fuel for the front and for the last instruction. */
  lemma JoinMore(p: Prog, m: Machine, dead: set<nat>, a: Frame, body: seq<Instr>, r: Regs, w: World, first: nat, last: nat, more: nat,
                 t: Progress, u': Progress)
    requires body != [] && first <= more && last <= more && t.Going? && t == Steps(p, m, a, body[..|body| - 1], r, w, first)
    requires LeadsOn(dead, a.depth, u', Step(p, m, a, body[|body| - 1], t.regs, t.w, last))
    ensures LeadsOn(dead, a.depth, u', Steps(p, m, a, body, r, w, more))
  {
    var i, front := body[|body| - 1], body[..|body| - 1];
    StepsMore(p, m, a, front, r, w, first, more);
    StepMore(p, m, a, i, t.regs, t.w, last, more);
    LeadsOnFurther(dead, a.depth, u', Step(p, m, a, i, t.regs, t.w, last), Step(p, m, a, i, t.regs, t.w, more));
  }

  lemma {:induction false} StepsBack(p: Prog, m: Machine, isPure: map<nat, bool>, f: Func, dead: set<nat>, a: Frame, body: seq<Instr>,
                                     r: Regs, r': Regs, w: World, w': World, fuel: nat) returns (more: nat)
    requires NothingHangs(p, m, isPure) && f.Ok() && AllNamed(f.Defs(), body) && dead == Dead(f.Defs(), isPure) && Agree(dead, a.depth, r, r', w, w')
    ensures LeadsOn(dead, a.depth, Steps(SweptAll(p, isPure), m, a, Without(body, dead), r', w', fuel), Steps(p, m, a, body, r, w, more))
    decreases fuel, 1, |body|
  {
    more := 0;
    if body != [] {
      var n := |body| - 1;
      var i, front := body[n], body[..n];
      assert Names(f.Defs(), i);
      var first := StepsBack(p, m, isPure, f, dead, a, front, r, r', w, w', fuel);
      LastSwept(SweptAll(p, isPure), m, dead, a, body, r', w', fuel);
      var t' := Steps(SweptAll(p, isPure), m, a, Without(front, dead), r', w', fuel);
      var t := Steps(p, m, a, front, r, w, first);
      more := first;
      if t'.Going? {
        var last := LastBack(p, m, isPure, f, dead, a, i, t.regs, t'.regs, t.w, t'.w, fuel);
        more := if first < last then last else first;
        var u' := if i.id in dead then t' else Step(SweptAll(p, isPure), m, a, i, t'.regs, t'.w, fuel);
        JoinMore(p, m, dead, a, body, r, w, first, last, more, t, u');
      } else if t.Going? {
        StepGrows(p, m, a, i, t.regs, t.w, more);
      }
    }
  }

  lemma BlockLeads(dead: set<nat>, depth: nat, b: Block, s': Progress, s: Progress, e': Exit, e: Exit, rest': Outcome, rest: Outcome)
    requires LeadsOn(dead, depth, s', s) && s.w.trace <= rest.w.trace && SameWay(s', e', e, true)
    requires s'.Going? && e'.Goto? ==> Leads(depth + 1, rest', rest)
    ensures Leads(depth + 1, EndOf(b, s', e', rest'), EndOf(b, s, e, rest))
  {
  }

  lemma BlocksLead(p: Prog, p': Prog, m: Machine, f: Func, f': Func, dead: set<nat>, a: Frame, from: Block, b: Block,
                   r: Regs, r': Regs, w: World, w': World, fuel: nat, less: nat, more: nat, most: nat, s: Progress, s': Progress, e: Exit, e': Exit)
    requires less + 1 == fuel && most + 1 == more && b in f.code && b in f'.code
    requires s == Steps(p, m, a, f.code[b], r + PhiValues(a, f.code[b], from, r), w, more) && e == ExitAfter(a, f.code[b], s)
    requires s' == Steps(p', m, a, f'.code[b], r' + PhiValues(a, f'.code[b], from, r'), w', fuel) && e' == ExitAfter(a, f'.code[b], s')
    requires LeadsOn(dead, a.depth, s', s) && SameWay(s', e', e, true)
    requires s'.Going? && e'.Goto? ==> Leads(a.depth + 1, RestOf(p', m, f', a, b, s', e', less), RestOf(p, m, f, a, b, s, e, most))
    ensures Leads(a.depth + 1, Blocks(p', m, f', a, from, b, r', w', fuel), Blocks(p, m, f, a, from, b, r, w, more))
  {
    RestGrows(p, m, f, a, b, s, e, most);
    BlocksAre(p, m, f, a, from, b, r, w, s, more);
    BlocksAre(p', m, f', a, from, b, r', w', s', fuel);
    BlockLeads(dead, a.depth, b, s', s, e', e, RestOf(p', m, f', a, b, s', e', less), RestOf(p, m, f, a, b, s, e, most));
  }

  /** From the front of a block to its exit. */
  lemma {:induction false} BlockBack(p: Prog, m: Machine, isPure: map<nat, bool>, f: Func, dead: set<nat>, a: Frame, from: Block, body: seq<Instr>,
                                     r: Regs, r': Regs, w: World, w': World, fuel: nat) returns (more: nat, s: Progress)
    requires NothingHangs(p, m, isPure) && f.Ok() && AllNamed(f.Defs(), body) && dead == Dead(f.Defs(), isPure) && Agree(dead, a.depth, r, r', w, w')
    requires body != [] && IsTerminator(body[|body| - 1])
    ensures s == Steps(p, m, a, body, r + PhiValues(a, body, from, r), w, more)
    ensures var s' := Steps(SweptAll(p, isPure), m, a, Without(body, dead), r' + PhiValues(a, Without(body, dead), from, r'), w', fuel);
            LeadsOn(dead, a.depth, s', s) && SameWay(s', ExitAfter(a, Without(body, dead), s'), ExitAfter(a, body, s), true)
    decreases fuel, 1, |body| + 1
  {
    EnterSwept(f.Defs(), isPure, a, body, from, r, r');
    var e, e' := r + PhiValues(a, body, from, r), r' + PhiValues(a, Without(body, dead), from, r');
    more := StepsBack(p, m, isPure, f, dead, a, body, e, e', w, w', fuel);
    s := Steps(p, m, a, body, e, w, more);
    var s' := Steps(SweptAll(p, isPure), m, a, Without(body, dead), e', w', fuel);
    if s'.Going? {
      ExitSwept(f.Defs(), isPure, a, body, s.regs, s'.regs);
    }
  }

  lemma {:induction false} RestBack(p: Prog, m: Machine, isPure: map<nat, bool>, f: Func, dead: set<nat>, a: Frame, b: Block,
                                    s: Progress, s': Progress, e: Exit, e': Exit, fuel: nat) returns (more: nat)
    requires NothingHangs(p, m, isPure) && f.Ok() && Terminated(f) && dead == Dead(f.Defs(), isPure)
    requires LeadsOn(dead, a.depth, s', s) && SameWay(s', e', e, true)
    ensures s'.Going? && e'.Goto? ==>
              Leads(a.depth + 1, RestOf(SweptAll(p, isPure), m, Swept(f, isPure), a, b, s', e', fuel), RestOf(p, m, f, a, b, s, e, more))
    decreases fuel, 3, 0
  {
    more := 0;
    if s'.Going? && e'.Goto? {
      more := BlocksBack(p, m, isPure, f, dead, a, b, e'.target, s.regs, s'.regs, s.w, s'.w, fuel);
    }
  }

  lemma RestMore(p: Prog, m: Machine, f: Func, a: Frame, b: Block, s: Progress, e: Exit, fuel: nat, more: nat)
    requires fuel <= more
    ensures GoesFurther(RestOf(p, m, f, a, b, s, e, fuel), RestOf(p, m, f, a, b, s, e, more))
  {
    if s.Going? && e.Goto? {
      BlocksMore(p, m, f, a, b, e.target, s.regs, s.w, fuel, more);
    }
  }

  lemma {:induction false} BlocksBack(p: Prog, m: Machine, isPure: map<nat, bool>, f: Func, dead: set<nat>, a: Frame, from: Block, b: Block,
                                      r: Regs, r': Regs, w: World, w': World, fuel: nat) returns (more: nat)
    requires NothingHangs(p, m, isPure) && f.Ok() && Terminated(f) && dead == Dead(f.Defs(), isPure) && Agree(dead, a.depth, r, r', w, w')
    ensures Leads(a.depth + 1, Blocks(SweptAll(p, isPure), m, Swept(f, isPure), a, from, b, r', w', fuel), Blocks(p, m, f, a, from, b, r, w, more))
    decreases fuel, 2, 0
  {
    more := fuel;
    if fuel > 0 && b in f.code {
      NamedBody(f, b);
      var p', f', body := SweptAll(p, isPure), Swept(f, isPure), f.code[b];
      var body', less: nat := f'.code[b], fuel - 1;
      assert body' == Without(body, dead);
      var first, s0 := BlockBack(p, m, isPure, f, dead, a, from, body, r, r', w, w', fuel);
      var s' := Steps(p', m, a, body', r' + PhiValues(a, body', from, r'), w', fuel);
      var e0, e' := ExitAfter(a, body, s0), ExitAfter(a, body', s');
      var last := RestBack(p, m, isPure, f, dead, a, b, s0, s', e0, e', less);
      var most: nat := if first < last then last else first;
      more := most + 1;
      StepsMore(p, m, a, body, r + PhiValues(a, body, from, r), w, first, more);
      var s := Steps(p, m, a, body, r + PhiValues(a, body, from, r), w, more);
      var e := ExitAfter(a, body, s);
      LeadsOnFurther(dead, a.depth, s', s0, s);
      if s'.Going? && e'.Goto? {
        RestMore(p, m, f, a, b, s, e, last, most);
        LeadsFurther(a.depth + 1, RestOf(p', m, f', a, b, s', e', less), RestOf(p, m, f, a, b, s, e, last), RestOf(p, m, f, a, b, s, e, most));
      }
      BlocksLead(p, p', m, f, f', dead, a, from, b, r, r', w, w', fuel, less, more, most, s, s', e, e');
    }
  }

  // ----- a call -----

  /** With fuel enough, a call in the program goes at least as far as in the swept program, and ends the same if that ends. */
  lemma {:induction false} InvokeBack(p: Prog, m: Machine, isPure: map<nat, bool>, f: nat, args: seq<Val>, w: World, w': World,
                                      depth: nat, fuel: nat) returns (more: nat)
    requires NothingHangs(p, m, isPure) && SameOutside(depth, w, w')
    ensures Leads(depth, Invoke(SweptAll(p, isPure), m, f, args, w', depth, fuel), Invoke(p, m, f, args, w, depth, more))
    decreases fuel, 3, 0
  {
    more := 0;
    if f in p && !p[f].IsDeclaration() {
      var a := Frame(Coerce(p[f].scalar, args), depth);
      ClearedAgree(w, w', depth);
      more := BlocksBack(p, m, isPure, p[f], Dead(p[f].Defs(), isPure), a, 0, p[f].blocks[0], map[], map[], Cleared(w, depth), Cleared(w', depth), fuel);
      var out, out' := Invoke(p, m, f, args, w, depth, more), Invoke(SweptAll(p, isPure), m, f, args, w', depth, fuel);
      if SameOutcome(depth + 1, out, out') {
        SameOutsideLess(depth, out.w, out'.w);
      }
    }
  }

  // ----- whole programs -----

  /** A call that is over like `out`, given enough fuel. */
  ghost predicate EndsAs(p: Prog, m: Machine, f: nat, args: seq<Val>, w: World, depth: nat, out: Outcome) {
    exists fuel: nat :: SameOutcome(depth, Invoke(p, m, f, args, w, depth, fuel), out) && !out.OutOfFuel?
  }

  /** A call that has gone through the blocks `path` and has had the effects `trace`, given enough fuel. */
  ghost predicate Does(p: Prog, m: Machine, f: nat, args: seq<Val>, w: World, depth: nat, trace: seq<Event>, path: seq<Block>) {
    exists fuel: nat :: HasDone(Invoke(p, m, f, args, w, depth, fuel), trace, path)
  }

  ghost predicate HasDone(out: Outcome, trace: seq<Event>, path: seq<Block>) {
    trace <= out.w.trace && path <= out.path
  }

  lemma SameOutcomeTrans(depth: nat, out: Outcome, out': Outcome, out'': Outcome)
    requires SameOutcome(depth, out, out') && SameOutcome(depth, out', out'')
    ensures SameOutcome(depth, out, out'')
  {
    UntouchedTrans(depth, depth, out.w, out'.w, out''.w);
  }

  lemma SameOutcomeSym(depth: nat, out: Outcome, out': Outcome)
    requires SameOutcome(depth, out, out')
    ensures SameOutcome(depth, out', out)
  {
    SameOutsideJoin(depth, out.w, out'.w, out.w);
  }

  /** The same behaviour: the same effects and blocks in the same order, for ever or until the same end. */
  ghost predicate SameBehaviour(p: Prog, p': Prog, m: Machine, f: nat, args: seq<Val>, w: World, depth: nat) {
    && (forall out {:trigger EndsAs(p, m, f, args, w, depth, out)} {:trigger EndsAs(p', m, f, args, w, depth, out)} ::
          EndsAs(p, m, f, args, w, depth, out) <==> EndsAs(p', m, f, args, w, depth, out))
    && (forall trace, path {:trigger Does(p, m, f, args, w, depth, trace, path)} {:trigger Does(p', m, f, args, w, depth, trace, path)} ::
          Does(p, m, f, args, w, depth, trace, path) <==> Does(p', m, f, args, w, depth, trace, path))
  }

  lemma EndsBack(p: Prog, m: Machine, isPure: map<nat, bool>, f: nat, args: seq<Val>, w: World, depth: nat, out: Outcome)
    requires NothingHangs(p, m, isPure)
    ensures EndsAs(p, m, f, args, w, depth, out) <==> EndsAs(SweptAll(p, isPure), m, f, args, w, depth, out)
  {
    var p' := SweptAll(p, isPure);
    if EndsAs(p, m, f, args, w, depth, out) {
      var n: nat :| SameOutcome(depth, Invoke(p, m, f, args, w, depth, n), out) && !out.OutOfFuel?;
      InvokeSwept(p, m, isPure, f, args, w, w, depth, n);
      SameOutcomeSym(depth, Invoke(p, m, f, args, w, depth, n), Invoke(p', m, f, args, w, depth, n));
      SameOutcomeTrans(depth, Invoke(p', m, f, args, w, depth, n), Invoke(p, m, f, args, w, depth, n), out);
    }
    if EndsAs(p', m, f, args, w, depth, out) {
      var n: nat :| SameOutcome(depth, Invoke(p', m, f, args, w, depth, n), out) && !out.OutOfFuel?;
      var more := InvokeBack(p, m, isPure, f, args, w, w, depth, n);
      SameOutcomeTrans(depth, Invoke(p, m, f, args, w, depth, more), Invoke(p', m, f, args, w, depth, n), out);
    }
  }

  lemma DoesBack(p: Prog, m: Machine, isPure: map<nat, bool>, f: nat, args: seq<Val>, w: World, depth: nat, trace: seq<Event>, path: seq<Block>)
    requires NothingHangs(p, m, isPure)
    ensures Does(p, m, f, args, w, depth, trace, path) <==> Does(SweptAll(p, isPure), m, f, args, w, depth, trace, path)
  {
    var p' := SweptAll(p, isPure);
    if Does(p, m, f, args, w, depth, trace, path) {
      var n: nat :| HasDone(Invoke(p, m, f, args, w, depth, n), trace, path);
      InvokeSwept(p, m, isPure, f, args, w, w, depth, n);
      assert HasDone(Invoke(p', m, f, args, w, depth, n), trace, path);
    }
    if Does(p', m, f, args, w, depth, trace, path) {
      var n: nat :| HasDone(Invoke(p', m, f, args, w, depth, n), trace, path);
      var more := InvokeBack(p, m, isPure, f, args, w, w, depth, n);
      assert HasDone(Invoke(p, m, f, args, w, depth, more), trace, path);
    }
  }

  /** If every call of a pure function returns, dead code elimination changes nothing that can be observed, in either
      direction: it neither loses nor adds an effect, an ending or a decision. */
  lemma DeadCodeChangesNothing(p: Prog, m: Machine, f: nat, args: seq<Val>, w: World, depth: nat)
    requires AllOrdered(p) && CallsKnown(p) && PurePhisRooted(p) && AllTerminated(p) && PureCallsEnd(p, m, PureFunctions(p))
    ensures SameBehaviour(p, SweptAll(p, Analysis(p)), m, f, args, w, depth)
  {
    var p', isPure := SweptAll(p, Analysis(p)), Analysis(p);
    AnalysisTrusted(p);
    forall out
      ensures EndsAs(p, m, f, args, w, depth, out) <==> EndsAs(p', m, f, args, w, depth, out)
    {
      EndsBack(p, m, isPure, f, args, w, depth, out);
    }
    forall trace, path
      ensures Does(p, m, f, args, w, depth, trace, path) <==> Does(p', m, f, args, w, depth, trace, path)
    {
      DoesBack(p, m, isPure, f, args, w, depth, trace, path);
    }
  }

  /** The pass as a whole: the purity analysis, then marking and sweeping until nothing changes. */
  method EliminateDeadCode(p: Prog, order: seq<nat>, uses: map<nat, seq<nat>>) returns (p': Prog)
    requires AllOrdered(p) && FuncsOk(p) && CallsKnown(p) && PurePhisRooted(p)
    requires uses.Keys == p.Keys && UsesOk(CallEdges(p), uses)
    requires forall f {:trigger f in order} :: f in order <==> f in p.Keys
    ensures p' == SweptAll(p, Analysis(p))
    ensures forall m, f, args, w, depth, fuel :: Preserved(p, p', m, f, args, w, depth, fuel)
    ensures forall m, f, args, w, depth :: AllTerminated(p) && PureCallsEnd(p, m, PureFunctions(p)) ==> SameBehaviour(p, p', m, f, args, w, depth)
  {
    var info := new FuncInfo(p, order, uses);
    info.Run();
    assert info.isPure == Analysis(p);
    var pass := new DeadCode(p, order, info.isPure);
    var rounds := pass.Run();
    p' := pass.prog;
    forall m, f, args, w, depth, fuel
      ensures Preserved(p, p', m, f, args, w, depth, fuel)
    {
      DeadCodePreserves(p, m, f, args, w, depth, fuel);
    }
    forall m, f, args, w, depth | AllTerminated(p) && PureCallsEnd(p, m, PureFunctions(p))
      ensures SameBehaviour(p, p', m, f, args, w, depth)
    {
      DeadCodeChangesNothing(p, m, f, args, w, depth);
    }
  }
}
