/**
  The steps of renaming one block, and how the progress of a subtree is put together.
 */
module RenameSteps {
  import opened Cfg
  import opened IdomTree
  import opened Ir
  import opened Renaming
  import opened Rewriting

  ghost predicate SameStacks(a: map<Value, seq<Value>>, b: map<Value, seq<Value>>) {
    forall l {:trigger StackOf(a, l)} {:trigger StackOf(b, l)} :: StackOf(a, l) == StackOf(b, l)
  }

  lemma PushSame(a: map<Value, seq<Value>>, b: map<Value, seq<Value>>, l: Value, v: Value)
    requires SameStacks(a, b)
    ensures SameStacks(Push(a, l, v), Push(b, l, v))
  {
    forall x
      ensures StackOf(Push(a, l, v), x) == StackOf(Push(b, l, v), x)
    {
      assert StackOf(a, x) == StackOf(b, x);
    }
  }

  /** The phis of a block are its first `n` instructions. */
  ghost predicate PhiPrefix(body: seq<Instr>, n: nat) {
    n <= |body| && forall i {:trigger body[i]} :: 0 <= i < |body| ==> (body[i].op.Phi? <==> i < n)
  }

  ghost predicate PhisFirst(body: seq<Instr>) {
    exists n :: PhiPrefix(body, n)
  }

  ghost function PhiCount(body: seq<Instr>): (n: nat)
    requires PhisFirst(body)
    ensures PhiPrefix(body, n)
  {
    var n :| PhiPrefix(body, n);
    n
  }

  /** What renaming needs to know about the function. */
  ghost predicate Ready(g: Graph, p: Ssa, par: map<Block, Block>, children: map<Block, set<Block>>) {
    && g.Valid() && Complete(g, p.t, par) && p.base.Keys == g.pred.Keys
    && p.CodeOk() && p.LoadsFed()
    && (forall b {:trigger p.Body(b)} :: b in p.base ==> PhisFirst(p.Body(b)))
    && (forall x, y {:trigger IsChild(children, x, y)} :: IsChild(children, x, y) <==> y in p.t.up && y != p.t.root && p.t.up[y] == x)
  }

  ghost predicate IsChild(children: map<Block, set<Block>>, x: Block, y: Block) {
    x in children && y in children[x]
  }

  // ----- the phis of the block -----

  lemma {:induction false} PhisKeepSub(p: Ssa, b: Block, i: nat)
    requires p.t.Ok() && b in p.t.up && i <= |p.Body(b)| && forall k :: 0 <= k < i ==> p.Body(b)[k].op.Phi?
    ensures p.At(b, i).sub == p.In(b).sub
  {
    if i > 0 {
      p.Prefix(b, i - 1);
      PhisKeepSub(p, b, i - 1);
    } else {
      assert p.Body(b)[..0] == [];
    }
  }

  // ----- one instruction -----

  /** `s` is `s0` with the loads before position `i` of `b` replaced. */
  ghost predicate RenamedUpTo(p: Ssa, s0: Progress, s: Progress, b: Block, i: nat)
    requires p.t.Ok() && b in p.t.up && i <= |p.Body(b)|
  {
    && s == s0.(sigma := s0.sigma + p.At(b, i).sub, entered := s0.entered + {b})
    && b !in s0.entered && SigmaOk(p, s0) && SigmaOk(p, s)
    && Keeps(s0.sigma, s.sigma)
  }

  ghost predicate Keeps(sub: map<Value, Value>, sub': map<Value, Value>) {
    forall v {:trigger sub[v]} {:trigger sub'[v]} :: v in sub ==> v in sub' && sub'[v] == sub[v]
  }

  /** No address of a variable is ever replaced. */
  lemma AddressesStay(p: Ssa, s: Progress, v: Value)
    requires SigmaOk(p, s) && AddressOk(v)
    ensures Sub(s.sigma, v) == v
  {
    assert v in s.sigma ==> Replaced(p, s, v);
  }

  /** The code at `i` still says which variable is loaded or stored, and its operands carry
      the values that renaming has computed so far. */
  lemma CurrentInstr(p: Ssa, s0: Progress, s: Progress, b: Block, i: nat)
    requires p.CodeOk() && p.LoadsFed() && b in p.t.up && b in p.base && i < |p.Body(b)|
    requires RenamedUpTo(p, s0, s, b, i) && !p.Body(b)[i].op.Phi?
    ensures var ins, cur := p.Body(b)[i], Target(p, s, b, p.Body(b)[i]);
            && LoadsLocal(cur) == LoadsLocal(ins) && StoresLocal(cur) == StoresLocal(ins)
            && (LoadsLocal(ins) ==> cur.args[0] == ins.args[0])
            && (StoresLocal(ins) ==> cur.args[1] == ins.args[1] && cur.args[0] == Sub(p.At(b, i).sub, ins.args[0]))
  {
    var ins := p.Body(b)[i];
    assert p.InstrOk(b, i);
    p.PointInvAt(b, i);
    if ins.op.Load? {
      AddressesStay(p, s, ins.args[0]);
    } else if ins.op.Store? {
      AddressesStay(p, s, ins.args[1]);
      var v := ins.args[0];
      assert p.UseOk(b, i, 0);
      assert v in s.sigma ==> Replaced(p, s, v);
      assert v in p.At(b, i).sub <==> v in p.AvailAt(b, i) && p.IsLocalLoad(v);
    }
  }

  lemma ReplaceOne(p: Ssa, s: Progress, r: Value, v: Value)
    requires p.t.Ok() && SigmaOk(p, s) && Replaced(p, s.(sigma := s.sigma[r := v]), r)
    ensures SigmaOk(p, s.(sigma := s.sigma[r := v]))
  {
    var s' := s.(sigma := s.sigma[r := v]);
    forall u | u in s'.sigma
      ensures Replaced(p, s', u)
    {
      assert u != r ==> Replaced(p, s, u);
    }
  }

  lemma RenameLoad(p: Ssa, s0: Progress, s: Progress, b: Block, i: nat)
    requires p.CodeOk() && p.LoadsFed() && b in p.t.up && b in p.base && i < |p.Body(b)|
    requires RenamedUpTo(p, s0, s, b, i) && LoadsLocal(p.Body(b)[i])
    ensures var ins := p.Body(b)[i]; var stack := StackOf(p.At(b, i).stack, ins.args[0]); var r := ResultOf(ins);
            && stack != [] && p.IsLocalLoad(r) && r !in s.sigma
            && RenamedUpTo(p, s0, s.(sigma := s.sigma[r := Top(stack)]), b, i + 1)
            && p.At(b, i + 1).stack == p.At(b, i).stack
  {
    var ins := p.Body(b)[i];
    var r := ResultOf(ins);
    assert p.InstrOk(b, i) && p.LoadFed(b, i);
    p.PointInvAt(b, i);
    p.Prefix(b, i);
    var stack := StackOf(p.At(b, i).stack, ins.args[0]);
    assert Top(stack) in stack;
    assert !p.DefinedBefore(r, b, i);
    assert p.HasSite(r) && (r in s0.sigma ==> Replaced(p, s0, r));
    assert s.sigma[r := Top(stack)] == s0.sigma + p.At(b, i + 1).sub;
    ReplaceOne(p, s, r, Top(stack));
  }

  lemma RenameOther(p: Ssa, s0: Progress, s: Progress, b: Block, i: nat)
    requires p.CodeOk() && b in p.t.up && i < |p.Body(b)|
    requires RenamedUpTo(p, s0, s, b, i) && !LoadsLocal(p.Body(b)[i])
    ensures RenamedUpTo(p, s0, s, b, i + 1)
  {
    p.Prefix(b, i);
  }

  lemma EnterKeepsCode(p: Ssa, s: Progress, b: Block, code: Code)
    requires p.t.Ok() && CodeIs(p, s, code)
    ensures CodeIs(p, s.(entered := s.entered + {b}), code)
  {
    var s' := s.(entered := s.entered + {b});
    forall c | c in code
      ensures BlockIs(p, s', code, c)
    {
      assert BlockIs(p, s, code, c);
      assert TargetBody(p, s', c) == TargetBody(p, s, c);
    }
  }

  /** The state of the loops over `b` when they have handled the instructions before `i`. */
  ghost predicate RenamingAt(p: Ssa, s0: Progress, s: Progress, b: Block, i: nat, code: Code, stack: map<Value, seq<Value>>)
    requires p.t.Ok() && b in p.t.up && i <= |p.Body(b)|
  {
    && CodeIs(p, s, code) && b in code && b !in s.finished
    && RenamedUpTo(p, s0, s, b, i)
    && SameStacks(stack, p.At(b, i).stack) && KeyedAt(p, stack, s0.entered, b, i)
  }

  lemma EnterBlock(p: Ssa, s: Progress, b: Block, code: Code, stack: map<Value, seq<Value>>)
    requires p.t.Ok() && CodeIs(p, s, code) && SigmaOk(p, s) && s.finished <= s.entered
    requires b in p.t.up && b in code && b !in s.entered && PhisFirst(p.Body(b))
    requires SameStacks(stack, p.At(b, PhiCount(p.Body(b))).stack) && KeyedAt(p, stack, s.entered, b, PhiCount(p.Body(b)))
    requires forall v :: v in p.In(b).sub ==> v in s.sigma && s.sigma[v] == p.In(b).sub[v]
    ensures |code[b]| == |p.Body(b)|
    ensures RenamingAt(p, s, s.(entered := s.entered + {b}), b, PhiCount(p.Body(b)), code, stack)
  {
    var np := PhiCount(p.Body(b));
    PhisKeepSub(p, b, np);
    assert s.sigma + p.At(b, np).sub == s.sigma;
    EnterKeepsCode(p, s, b, code);
    var s' := s.(entered := s.entered + {b});
    forall v | v in s'.sigma
      ensures Replaced(p, s', v)
    {
      assert Replaced(p, s, v);
    }
    assert BlockIs(p, s, code, b);
  }

  lemma SameLength(p: Ssa, s: Progress, b: Block, code: Code)
    requires p.t.Ok() && CodeIs(p, s, code) && b in code && b !in s.finished
    ensures |code[b]| == |p.Body(b)|
  {
    assert BlockIs(p, s, code, b);
  }

  lemma CurrentShape(p: Ssa, s: Progress, b: Block, i: nat, code: Code)
    requires p.t.Ok() && CodeIs(p, s, code) && b in code && b !in s.finished && i < |p.Body(b)|
    ensures |code[b]| == |p.Body(b)| && code[b][i] == Target(p, s, b, p.Body(b)[i])
    ensures code[b][i].id == p.Body(b)[i].id && code[b][i].op == p.Body(b)[i].op
  {
    assert BlockIs(p, s, code, b);
  }

  lemma CurrentAt(p: Ssa, s0: Progress, s: Progress, b: Block, i: nat, code: Code, stack: map<Value, seq<Value>>)
    requires p.CodeOk() && p.LoadsFed() && b in p.t.up && i < |p.Body(b)|
    requires RenamingAt(p, s0, s, b, i, code, stack)
    ensures |code[b]| == |p.Body(b)| && code[b][i] == Target(p, s, b, p.Body(b)[i])
    ensures !p.Body(b)[i].op.Phi? ==>
              && LoadsLocal(code[b][i]) == LoadsLocal(p.Body(b)[i]) && StoresLocal(code[b][i]) == StoresLocal(p.Body(b)[i])
              && (LoadsLocal(p.Body(b)[i]) ==> code[b][i].args[0] == p.Body(b)[i].args[0])
  {
    assert BlockIs(p, s, code, b);
    if !p.Body(b)[i].op.Phi? {
      CurrentInstr(p, s0, s, b, i);
    }
  }

  lemma AtLoad(p: Ssa, s0: Progress, s: Progress, b: Block, i: nat, code: Code, stack: map<Value, seq<Value>>)
    requires p.CodeOk() && p.LoadsFed() && b in p.t.up && i < |p.Body(b)|
    requires RenamingAt(p, s0, s, b, i, code, stack) && LoadsLocal(p.Body(b)[i])
    ensures var ins := p.Body(b)[i]; var r, st := ResultOf(ins), StackOf(stack, ins.args[0]);
            st != [] && RenamingAt(p, s0, s.(sigma := s.sigma[r := Top(st)]), b, i + 1, ReplaceAllUse(code, r, Top(st)), stack)
  {
    var ins := p.Body(b)[i];
    RenameLoad(p, s0, s, b, i);
    ReplaceKeepsCode(p, s, code, ResultOf(ins), Top(StackOf(stack, ins.args[0])));
    KeyedStep(p, stack, stack, s0.entered, b, i);
  }

  lemma AtStore(p: Ssa, s0: Progress, s: Progress, b: Block, i: nat, code: Code, stack: map<Value, seq<Value>>)
    requires p.CodeOk() && p.LoadsFed() && b in p.t.up && i < |p.Body(b)|
    requires RenamingAt(p, s0, s, b, i, code, stack) && StoresLocal(p.Body(b)[i])
    ensures |code[b]| == |p.Body(b)| && StoresLocal(code[b][i])
    ensures RenamingAt(p, s0, s, b, i + 1, code, Push(stack, code[b][i].args[1], code[b][i].args[0]))
  {
    CurrentAt(p, s0, s, b, i, code, stack);
    CurrentInstr(p, s0, s, b, i);
    RenameOther(p, s0, s, b, i);
    p.Prefix(b, i);
    PushSame(stack, p.At(b, i).stack, code[b][i].args[1], code[b][i].args[0]);
    KeyedStep(p, stack, Push(stack, code[b][i].args[1], code[b][i].args[0]), s0.entered, b, i);
  }

  lemma AtPhi(p: Ssa, s: Progress, b: Block, i: nat, code: Code, stack: map<Value, seq<Value>>, done: set<Block>)
    requires p.t.Ok() && b in p.t.up && i < |p.Body(b)| && CodeIs(p, s, code) && b in code && b !in s.finished
    requires SameStacks(stack, p.At(b, i).stack) && KeyedAt(p, stack, done, b, i)
    ensures |code[b]| == |p.Body(b)| && code[b][i].op == p.Body(b)[i].op
    ensures p.Body(b)[i].op.Phi? ==> var stack' := Push(stack, code[b][i].op.lval, ResultOf(code[b][i]));
              SameStacks(stack', p.At(b, i + 1).stack) && KeyedAt(p, stack', done, b, i + 1)
  {
    assert BlockIs(p, s, code, b);
    assert code[b][i] == Target(p, s, b, p.Body(b)[i]);
    if p.Body(b)[i].op.Phi? {
      p.Prefix(b, i);
      PushSame(stack, p.At(b, i).stack, code[b][i].op.lval, ResultOf(code[b][i]));
      KeyedStep(p, stack, Push(stack, code[b][i].op.lval, ResultOf(code[b][i])), done, b, i);
    }
  }

  lemma AtOther(p: Ssa, s0: Progress, s: Progress, b: Block, i: nat, code: Code, stack: map<Value, seq<Value>>)
    requires p.CodeOk() && p.LoadsFed() && b in p.t.up && i < |p.Body(b)|
    requires RenamingAt(p, s0, s, b, i, code, stack) && !Deleted(p.Body(b)[i]) && !p.Body(b)[i].op.Phi?
    ensures RenamingAt(p, s0, s, b, i + 1, code, stack)
  {
    RenameOther(p, s0, s, b, i);
    p.Prefix(b, i);
    KeyedStep(p, stack, stack, s0.entered, b, i);
  }

  ghost predicate DeletesId(body: seq<Instr>, id: nat) {
    exists k :: 0 <= k < |body| && Deleted(body[k]) && body[k].id == id
  }

  lemma DeletesIdStep(body: seq<Instr>, i: nat)
    requires i < |body|
    ensures forall id :: DeletesId(body[..i + 1], id) <==> DeletesId(body[..i], id) || (Deleted(body[i]) && body[i].id == id)
  {
    assert body[..i + 1] == body[..i] + [body[i]];
    forall id
      ensures DeletesId(body[..i + 1], id) <==> DeletesId(body[..i], id) || (Deleted(body[i]) && body[i].id == id)
    {
      if DeletesId(body[..i], id) {
        var k :| 0 <= k < i && Deleted(body[..i][k]) && body[..i][k].id == id;
        assert body[..i + 1][k] == body[..i][k];
      }
      assert body[..i + 1][i] == body[i];
    }
  }

  // ----- the entries of the stacks -----

  /** The entries of `var_val_stack` are the variables that the blocks of `done` have pushed values of. */
  ghost predicate Keyed(p: Ssa, stack: map<Value, seq<Value>>, done: set<Block>) {
    forall l {:trigger l in stack} :: l in stack <==> PushedIn(p, done, l)
  }

  ghost predicate PushedIn(p: Ssa, done: set<Block>, l: Value) {
    exists x {:trigger Pushes(p.Body(x), l)} :: x in done && Pushes(p.Body(x), l) > 0
  }

  /** And `b` has pushed those of its first `i` instructions. */
  ghost predicate KeyedAt(p: Ssa, stack: map<Value, seq<Value>>, done: set<Block>, b: Block, i: nat)
    requires i <= |p.Body(b)|
  {
    forall l {:trigger l in stack} :: l in stack <==> PushedIn(p, done, l) || Pushes(p.Body(b)[..i], l) > 0
  }

  lemma KeyedStart(p: Ssa, stack: map<Value, seq<Value>>, done: set<Block>, b: Block)
    requires Keyed(p, stack, done)
    ensures KeyedAt(p, stack, done, b, 0)
  {
    assert p.Body(b)[..0] == [];
  }

  lemma KeyedStep(p: Ssa, stack: map<Value, seq<Value>>, stack': map<Value, seq<Value>>, done: set<Block>, b: Block, i: nat)
    requires i < |p.Body(b)| && KeyedAt(p, stack, done, b, i)
    requires forall l :: l in stack' <==> l in stack || PushesTo(p.Body(b)[i], l)
    ensures KeyedAt(p, stack', done, b, i + 1)
  {
    var t := p.Body(b)[..i + 1];
    assert t[..|t| - 1] == p.Body(b)[..i] && t[|t| - 1] == p.Body(b)[i];
  }

  lemma KeyedEnd(p: Ssa, stack: map<Value, seq<Value>>, done: set<Block>, b: Block)
    requires KeyedAt(p, stack, done, b, |p.Body(b)|)
    ensures Keyed(p, stack, done + {b})
  {
    assert p.Body(b)[..|p.Body(b)|] == p.Body(b);
    forall l
      ensures l in stack <==> PushedIn(p, done + {b}, l)
    {
      if PushedIn(p, done + {b}, l) {
        var x :| x in done + {b} && Pushes(p.Body(x), l) > 0;
        assert x != b ==> PushedIn(p, done, l);
      }
    }
  }

  // ----- pushes and pops -----

  predicate PushesTo(i: Instr, l: Value) {
    (i.op.Phi? && i.op.lval == l) || (StoresLocal(i) && i.args[1] == l)
  }

  function Pushes(body: seq<Instr>, l: Value): nat {
    if body == [] then 0
    else Pushes(body[..|body| - 1], l) + if PushesTo(body[|body| - 1], l) then 1 else 0
  }

  lemma {:induction false} NoPushes(body: seq<Instr>, l: Value)
    requires forall k :: 0 <= k < |body| ==> !PushesTo(body[k], l)
    ensures Pushes(body, l) == 0
  {
    if body != [] {
      NoPushes(body[..|body| - 1], l);
    }
  }

  lemma {:induction false} SomePush(body: seq<Instr>, k: nat, l: Value)
    requires k < |body| && PushesTo(body[k], l)
    ensures Pushes(body, l) > 0
  {
    if k < |body| - 1 {
      SomePush(body[..|body| - 1], k, l);
    }
  }

  lemma VisitStack(c: Ctx, i: Instr, l: Value)
    ensures StackOf(c.stack, l) <= StackOf(Visit(c, i).stack, l)
    ensures |StackOf(Visit(c, i).stack, l)| == |StackOf(c.stack, l)| + if PushesTo(i, l) then 1 else 0
  {
  }

  /** The stacks only grow within a block, one value for each phi or store of the variable. */
  lemma {:induction false} StackGrows(p: Ssa, b: Block, i: nat, l: Value)
    requires p.t.Ok() && b in p.t.up && i <= |p.Body(b)|
    ensures |StackOf(p.At(b, i).stack, l)| == |StackOf(p.In(b).stack, l)| + Pushes(p.Body(b)[..i], l)
    ensures StackOf(p.In(b).stack, l) <= StackOf(p.At(b, i).stack, l)
  {
    if i > 0 {
      StackGrows(p, b, i - 1, l);
      p.Prefix(b, i - 1);
      VisitStack(p.At(b, i - 1), p.Body(b)[i - 1], l);
      var s := p.Body(b)[..i];
      assert s[..|s| - 1] == p.Body(b)[..i - 1] && s[|s| - 1] == p.Body(b)[i - 1];
    } else {
      assert p.Body(b)[..0] == [];
    }
  }

  lemma {:induction false} PushesMonotone(body: seq<Instr>, i: nat, l: Value)
    requires i <= |body|
    ensures Pushes(body[..i], l) <= Pushes(body, l)
    decreases |body|
  {
    if i < |body| {
      PushesMonotone(body[..|body| - 1], i, l);
      assert body[..|body| - 1][..i] == body[..i];
    } else {
      assert body[..i] == body;
    }
  }

  function Pop(stack: map<Value, seq<Value>>, l: Value): map<Value, seq<Value>> {
    if StackOf(stack, l) == [] then stack else stack[l := StackOf(stack, l)[..|StackOf(stack, l)| - 1]]
  }

  /** The pushes of the first `i` instructions of `b` have been taken back from the final stacks. */
  ghost predicate PoppedTo(p: Ssa, b: Block, i: nat, stack: map<Value, seq<Value>>)
    requires p.t.Ok() && b in p.t.up && i <= |p.Body(b)|
  {
    forall l {:trigger StackOf(stack, l)} ::
      && StackOf(stack, l) <= StackOf(p.Out(b).stack, l)
      && |StackOf(stack, l)| + Pushes(p.Body(b)[..i], l) == |StackOf(p.Out(b).stack, l)|
  }

  lemma PopStart(p: Ssa, b: Block)
    requires p.t.Ok() && b in p.t.up
    ensures forall stack {:trigger PoppedTo(p, b, 0, stack)} :: SameStacks(stack, p.Out(b).stack) ==> PoppedTo(p, b, 0, stack)
  {
    assert p.Body(b)[..0] == [];
  }

  lemma PopOne(p: Ssa, b: Block, i: nat, stack: map<Value, seq<Value>>)
    requires p.t.Ok() && b in p.t.up && i < |p.Body(b)| && PoppedTo(p, b, i, stack)
    ensures forall l :: PushesTo(p.Body(b)[i], l) ==> PoppedTo(p, b, i + 1, Pop(stack, l))
    ensures (forall l :: !PushesTo(p.Body(b)[i], l)) ==> PoppedTo(p, b, i + 1, stack)
  {
    var body := p.Body(b);
    var s := body[..i + 1];
    assert s[..|s| - 1] == body[..i] && s[|s| - 1] == body[i];
    forall l | PushesTo(body[i], l)
      ensures PoppedTo(p, b, i + 1, Pop(stack, l))
    {
      forall x
        ensures StackOf(Pop(stack, l), x) <= StackOf(p.Out(b).stack, x)
        ensures |StackOf(Pop(stack, l), x)| + Pushes(s, x) == |StackOf(p.Out(b).stack, x)|
      {
        assert StackOf(stack, x) <= StackOf(p.Out(b).stack, x);
        StackGrows(p, b, |body|, x);
        assert body[..|body|] == body;
        PushesMonotone(body, i + 1, x);
      }
    }
  }

  lemma PopEnd(p: Ssa, b: Block, stack: map<Value, seq<Value>>)
    requires p.t.Ok() && b in p.t.up && PoppedTo(p, b, |p.Body(b)|, stack)
    ensures SameStacks(stack, p.In(b).stack)
  {
    var body := p.Body(b);
    assert body[..|body|] == body;
    forall l
      ensures StackOf(stack, l) == StackOf(p.In(b).stack, l)
    {
      StackGrows(p, b, |body|, l);
      assert StackOf(stack, l) <= StackOf(p.Out(b).stack, l);
    }
  }

  /** While blocks below are renamed, an instruction keeps its operation and the variable it stores to. */
  lemma PopShape(p: Ssa, s: Progress, b: Block, i: nat, code: Code)
    requires p.CodeOk() && CodeIs(p, s, code) && SigmaOk(p, s) && b in code && b !in s.finished && i < |p.Body(b)|
    ensures |code[b]| == |p.Body(b)|
    ensures code[b][i].op == p.Body(b)[i].op && (StoresLocal(code[b][i]) <==> StoresLocal(p.Body(b)[i]))
    ensures StoresLocal(p.Body(b)[i]) ==> code[b][i].args[1] == p.Body(b)[i].args[1]
  {
    CurrentShape(p, s, b, i, code);
    assert p.InstrOk(b, i);
    if p.Body(b)[i].op.Store? {
      AddressesStay(p, s, p.Body(b)[i].args[1]);
    }
  }

  lemma FinishBlock(p: Ssa, s: Progress, code: Code, b: Block, ids: set<nat>)
    requires p.CodeOk() && CodeIs(p, s, code) && b in code && b !in s.finished
    requires forall id :: id in ids <==> DeletesId(p.Body(b), id)
    ensures CodeIs(p, s.(finished := s.finished + {b}), code[b := WithoutIds(code[b], ids)])
  {
    var s' := s.(finished := s.finished + {b});
    var code' := code[b := WithoutIds(code[b], ids)];
    forall c | c in code'
      ensures BlockIs(p, s', code', c)
    {
      assert BlockIs(p, s, code, c);
      assert TargetBody(p, s', c) == TargetBody(p, s, c);
      if c == b {
        forall k | 0 <= k < |p.Body(b)|
          ensures p.Body(b)[k].id in ids <==> Deleted(p.Body(b)[k])
        {
          assert p.InstrOk(b, k);
          if DeletesId(p.Body(b), p.Body(b)[k].id) {
            var j :| 0 <= j < |p.Body(b)| && Deleted(p.Body(b)[j]) && p.Body(b)[j].id == p.Body(b)[k].id;
            assert p.InstrOk(b, j);
          }
        }
        ErasingKeeps(p.Body(b), TargetBody(p, s, b), ids);
      }
    }
  }

  // ----- subtrees -----

  ghost function Subtree(p: Ssa, b: Block): set<Block>
    requires p.t.Ok()
  {
    set c | c in p.t.up && p.t.Anc(c, b)
  }

  /** The blocks below one of `ds`. */
  ghost function Subtrees(p: Ssa, ds: set<Block>): set<Block>
    requires p.t.Ok()
  {
    set c, d | c in p.t.up && d in ds && p.t.Anc(c, d) :: c
  }

  lemma {:induction false} ChildAbove(p: Ssa, c: Block, b: Block) returns (d: Block)
    requires p.t.Ok() && c in p.t.up && p.t.Anc(c, b) && c != b
    ensures d in p.t.up && d != p.t.root && p.t.up[d] == b && p.t.Anc(c, d)
    decreases p.t.id[p.t.root] - p.t.id[c]
  {
    assert p.t.NodeOk(c);
    if p.t.up[c] == b {
      d := c;
    } else {
      d := ChildAbove(p, p.t.up[c], b);
    }
  }

  lemma SubtreeOfChildren(p: Ssa, b: Block, ds: set<Block>)
    requires p.t.Ok() && b in p.t.up
    requires forall d :: d in ds <==> d in p.t.up && d != p.t.root && p.t.up[d] == b
    ensures Subtree(p, b) == {b} + Subtrees(p, ds) && b !in Subtrees(p, ds)
  {
    forall c | c in Subtree(p, b) && c != b
      ensures c in Subtrees(p, ds)
    {
      var d := ChildAbove(p, c, b);
    }
    forall c, d | c in p.t.up && d in ds && p.t.Anc(c, d)
      ensures c in Subtree(p, b) && c != b
    {
      assert p.t.NodeOk(d);
      AncId(p.t, c, d);
      AncTrans(p.t, c, d, b);
    }
    assert p.t.NodeOk(b);
  }

  /** The subtrees of two children of one block share nothing. */
  lemma SiblingsDisjoint(p: Ssa, ds: set<Block>, d: Block, b: Block)
    requires p.t.Ok() && d !in ds && d in p.t.up && d != p.t.root && p.t.up[d] == b
    requires forall e :: e in ds ==> e in p.t.up && e != p.t.root && p.t.up[e] == b
    ensures Subtrees(p, ds) !! Subtree(p, d)
  {
    forall c, e | c in p.t.up && e in ds && p.t.Anc(c, e) && p.t.Anc(c, d)
      ensures false
    {
      assert p.t.NodeOk(d) && p.t.NodeOk(e);
      if p.t.id[d] <= p.t.id[e] {
        AncTotal(p.t, c, d, e);
        AncId(p.t, b, e);
      } else {
        AncTotal(p.t, c, e, d);
        AncId(p.t, b, d);
      }
    }
  }

  lemma SubtreesAdd(p: Ssa, ds: set<Block>, d: Block)
    requires p.t.Ok()
    ensures Subtrees(p, ds + {d}) == Subtrees(p, ds) + Subtree(p, d)
  {
  }

  // ----- progress -----

  function EdgesFrom(b: Block, succs: seq<Block>): seq<Edge> {
    seq(|succs|, k requires 0 <= k < |succs| => (b, succs[k]))
  }

  lemma EdgesSnoc(fills: seq<Edge>, b: Block, succs: seq<Block>, i: nat)
    requires i < |succs|
    ensures fills + EdgesFrom(b, succs[..i]) + [(b, succs[i])] == fills + EdgesFrom(b, succs[..i + 1])
  {
    assert EdgesFrom(b, succs[..i + 1]) == EdgesFrom(b, succs[..i]) + [(b, succs[i])];
  }

  ghost function EdgeCount(g: Graph, blocks: set<Block>, e: Edge): nat {
    if e.0 in blocks && e.0 in g.succ then multiset(g.succ[e.0])[e.1] else 0
  }

  lemma {:induction false} CountEdges(b: Block, succs: seq<Block>, e: Edge)
    ensures multiset(EdgesFrom(b, succs))[e] == if e.0 == b then multiset(succs)[e.1] else 0
  {
    if succs != [] {
      var n := |succs| - 1;
      CountEdges(b, succs[..n], e);
      assert succs == succs[..n] + [succs[n]];
      assert EdgesFrom(b, succs) == EdgesFrom(b, succs[..n]) + [(b, succs[n])];
    }
  }

  /** Renaming exactly the blocks of `done` takes the progress from `s` to `s'`. */
  ghost predicate Advanced(g: Graph, p: Ssa, s: Progress, s': Progress, done: set<Block>)
    requires p.t.Ok()
  {
    && s'.entered == s.entered + done && s'.finished == s.finished + done
    && Keeps(s.sigma, s'.sigma)
    && (forall c {:trigger Resolved(p, s', c)} :: c in done && c in p.t.up ==> Resolved(p, s', c))
    && (forall e {:trigger multiset(s'.fills)[e]} :: multiset(s'.fills)[e] == multiset(s.fills)[e] + EdgeCount(g, done, e))
  }

  /** Every load of `c` and of the blocks above it has its final replacement. */
  ghost predicate Resolved(p: Ssa, s: Progress, c: Block)
    requires p.t.Ok() && c in p.t.up
  {
    forall v {:trigger s.sigma[v]} {:trigger v in p.Out(c).sub} :: v in p.Out(c).sub ==> v in s.sigma && s.sigma[v] == p.Out(c).sub[v]
  }

  lemma AdvancedTrans(g: Graph, p: Ssa, s: Progress, s1: Progress, s2: Progress, d1: set<Block>, d2: set<Block>)
    requires p.t.Ok() && Advanced(g, p, s, s1, d1) && Advanced(g, p, s1, s2, d2) && d1 !! d2
    ensures Advanced(g, p, s, s2, d1 + d2)
  {
    forall c | c in d1 + d2 && c in p.t.up
      ensures Resolved(p, s2, c)
    {
      if c in d1 {
        assert Resolved(p, s1, c);
      } else {
        assert Resolved(p, s2, c);
      }
    }
    forall e
      ensures multiset(s2.fills)[e] == multiset(s.fills)[e] + EdgeCount(g, d1 + d2, e)
    {
      assert multiset(s2.fills)[e] == multiset(s1.fills)[e] + EdgeCount(g, d2, e);
      assert multiset(s1.fills)[e] == multiset(s.fills)[e] + EdgeCount(g, d1, e);
    }
  }

  /** The replacements that hold on entry to `b` are in place. */
  ghost predicate InResolved(p: Ssa, s: Progress, b: Block)
    requires p.t.Ok() && b in p.t.up
  {
    forall v {:trigger s.sigma[v]} {:trigger v in p.In(b).sub} :: v in p.In(b).sub ==> v in s.sigma && s.sigma[v] == p.In(b).sub[v]
  }

  lemma BlockPresent(g: Graph, p: Ssa, par: map<Block, Block>, children: map<Block, set<Block>>, b: Block)
    requires Ready(g, p, par, children) && b in p.t.up
    ensures b in p.base && b in g.succ && PhisFirst(p.Body(b)) && p.t.Anc(b, b)
  {
    assert Reachable(g, b);
    ReachableInGraph(g, b);
    assert p.t.NodeOk(b);
  }

  lemma EndOfBlock(p: Ssa, s0: Progress, s: Progress, b: Block)
    requires p.t.Ok() && b in p.t.up && RenamedUpTo(p, s0, s, b, |p.Body(b)|)
    ensures p.At(b, |p.Body(b)|) == p.Out(b)
    ensures s == s0.(sigma := s0.sigma + p.Out(b).sub, entered := s0.entered + {b})
    ensures Resolved(p, s, b) && Keeps(s0.sigma, s.sigma)
  {
    assert p.Body(b)[..|p.Body(b)|] == p.Body(b);
  }

  /** Step eight for one instruction of the code as it is now. */
  function PopInstr(stack: map<Value, seq<Value>>, i: Instr): map<Value, seq<Value>> {
    if StoresLocal(i) then Pop(stack, i.args[1]) else if i.op.Phi? then Pop(stack, i.op.lval) else stack
  }

  lemma PopNext(p: Ssa, s: Progress, b: Block, i: nat, code: Code, stack: map<Value, seq<Value>>)
    requires p.CodeOk() && CodeIs(p, s, code) && SigmaOk(p, s) && b in p.t.up && b in code && b !in s.finished
    requires i < |p.Body(b)| && PoppedTo(p, b, i, stack)
    ensures |code[b]| == |p.Body(b)| && PoppedTo(p, b, i + 1, PopInstr(stack, code[b][i]))
    ensures PopInstr(stack, code[b][i]).Keys == stack.Keys
  {
    PopShape(p, s, b, i, code);
    PopOne(p, b, i, stack);
  }

  lemma SigmaFrame(p: Ssa, s: Progress, s': Progress)
    requires SigmaOk(p, s) && s'.sigma == s.sigma && s'.entered == s.entered
    ensures SigmaOk(p, s')
  {
    forall v | v in s'.sigma
      ensures Replaced(p, s', v)
    {
      assert Replaced(p, s, v);
    }
  }

  lemma ChildrenOf(g: Graph, p: Ssa, par: map<Block, Block>, children: map<Block, set<Block>>, b: Block, ds: set<Block>)
    requires Ready(g, p, par, children) && b in p.t.up && ds == if b in children then children[b] else {}
    ensures forall d :: d in ds <==> d in p.t.up && d != p.t.root && p.t.up[d] == b
  {
    forall d
      ensures d in ds <==> d in p.t.up && d != p.t.root && p.t.up[d] == b
    {
      assert IsChild(children, b, d) <==> d in ds;
    }
  }

  lemma AdvancedNone(g: Graph, p: Ssa, s: Progress)
    requires p.t.Ok()
    ensures Advanced(g, p, s, s, Subtrees(p, {}))
  {
    assert Subtrees(p, {}) == {};
    forall e
      ensures EdgeCount(g, Subtrees(p, {}), e) == 0
    {
    }
  }

  lemma NextChild(p: Ssa, s0: Progress, s1: Progress, now: Progress, b: Block, ds: set<Block>, rest: set<Block>, d: Block)
    requires p.t.Ok() && b in p.t.up && rest <= ds && d in rest
    requires forall e :: e in ds <==> e in p.t.up && e != p.t.root && p.t.up[e] == b
    requires Subtree(p, b) !! s0.entered && Subtree(p, b) == {b} + Subtrees(p, ds) && b !in Subtrees(p, ds)
    requires s1.entered == s0.entered + {b} && now.entered == s1.entered + Subtrees(p, ds - rest)
    requires Resolved(p, now, b)
    ensures d in p.t.up && p.t.id[d] < p.t.id[b] && p.In(d) == p.Out(b) && InResolved(p, now, d)
    ensures Subtree(p, d) !! now.entered && Subtree(p, d) !! Subtrees(p, ds - rest)
  {
    assert p.t.NodeOk(d);
    SiblingsDisjoint(p, ds - rest, d, b);
    assert Subtree(p, d) <= Subtrees(p, ds);
  }

  lemma ChildDone(g: Graph, p: Ssa, s1: Progress, now: Progress, s2: Progress, b: Block, ds: set<Block>, rest: set<Block>, d: Block)
    requires p.t.Ok() && b in p.t.up && rest <= ds && d in rest
    requires Advanced(g, p, s1, now, Subtrees(p, ds - rest)) && Resolved(p, now, b)
    requires Advanced(g, p, now, s2, Subtree(p, d)) && Subtree(p, d) !! Subtrees(p, ds - rest)
    ensures Advanced(g, p, s1, s2, Subtrees(p, ds - (rest - {d}))) && Resolved(p, s2, b)
  {
    assert ds - (rest - {d}) == ds - rest + {d};
    SubtreesAdd(p, ds - rest, d);
    AdvancedTrans(g, p, s1, now, s2, Subtrees(p, ds - rest), Subtree(p, d));
  }

  /** The block itself is renamed and has fed the phis behind it, each edge once. */
  ghost predicate BlockRenamed(g: Graph, p: Ssa, s0: Progress, s1: Progress, b: Block)
    requires p.t.Ok() && b in p.t.up && b in g.succ
  {
    && s1.entered == s0.entered + {b} && s1.finished == s0.finished && Keeps(s0.sigma, s1.sigma)
    && s1.fills == s0.fills + EdgesFrom(b, g.succ[b]) && Resolved(p, s1, b)
  }

  lemma SubtreeDone(g: Graph, p: Ssa, s0: Progress, s1: Progress, s2: Progress, b: Block, below: set<Block>)
    requires p.t.Ok() && b in p.t.up && b in g.succ && Subtree(p, b) == {b} + below && b !in below
    requires BlockRenamed(g, p, s0, s1, b) && Advanced(g, p, s1, s2, below) && Resolved(p, s2, b)
    ensures Advanced(g, p, s0, s2.(finished := s2.finished + {b}), Subtree(p, b))
  {
    var s3 := s2.(finished := s2.finished + {b});
    forall c | c in Subtree(p, b) && c in p.t.up
      ensures Resolved(p, s3, c)
    {
      assert Resolved(p, s2, c);
    }
    forall e
      ensures multiset(s3.fills)[e] == multiset(s0.fills)[e] + EdgeCount(g, Subtree(p, b), e)
    {
      CountEdges(b, g.succ[b], e);
      assert multiset(s2.fills)[e] == multiset(s1.fills)[e] + EdgeCount(g, below, e);
    }
  }
}
