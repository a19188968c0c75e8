/**
  The code while renaming is under way, as a function of which loads have been
  replaced, which edges have fed the phis of their target and which blocks are finished.
 */
module Rewriting {
  import opened Cfg
  import opened IdomTree
  import opened Ir
  import opened Renaming

  type Edge = (Block, Block)

  function SubAll(sub: map<Value, Value>, vs: seq<Value>): seq<Value> {
    seq(|vs|, k requires 0 <= k < |vs| => Sub(sub, vs[k]))
  }

  function Rewrite(sub: map<Value, Value>, i: Instr): Instr {
    i.(args := SubAll(sub, i.args))
  }

  function RewriteAll(sub: map<Value, Value>, body: seq<Instr>): seq<Instr> {
    seq(|body|, k requires 0 <= k < |body| => Rewrite(sub, body[k]))
  }

  /** `replace_all_use_with`: the result `r` gives way to `v` in every operand of the function. */
  function ReplaceAllUse(code: Code, r: Value, v: Value): Code {
    map c | c in code :: RewriteAll(map[r := v], code[c])
  }

  /** `add_phi_pair_operand`, for a phi whose variable has a value in `stack`. */
  function AddPair(stack: map<Value, seq<Value>>, from: Block, i: Instr): Instr {
    if i.op.Phi? && StackOf(stack, i.op.lval) != [] then
      i.(args := i.args + [Top(StackOf(stack, i.op.lval))], labels := i.labels + [from])
    else i
  }

  function AddPairs(stack: map<Value, seq<Value>>, from: Block, body: seq<Instr>): seq<Instr> {
    seq(|body|, k requires 0 <= k < |body| => AddPair(stack, from, body[k]))
  }

  predicate Deleted(i: Instr) {
    LoadsLocal(i) || StoresLocal(i)
  }

  /** `cur` without the positions at which `ref` holds a load or store of a local variable. */
  function Kept(ref: seq<Instr>, cur: seq<Instr>): seq<Instr>
    requires |ref| == |cur|
  {
    if ref == [] then []
    else
      var n := |ref| - 1;
      Kept(ref[..n], cur[..n]) + (if Deleted(ref[n]) then [] else [cur[n]])
  }

  /** How far renaming has come. */
  datatype Progress = Progress(sigma: map<Value, Value>, fills: seq<Edge>, entered: set<Block>, finished: set<Block>)

  /** The value that the edge from `from` brings to a phi of `x`. */
  ghost function Brings(p: Ssa, from: Block, x: Value): seq<Value>
    requires p.t.Ok()
  {
    if from in p.t.up && StackOf(p.Out(from).stack, x) != [] then [Top(StackOf(p.Out(from).stack, x))] else []
  }

  ghost function FillArgs(p: Ssa, fills: seq<Edge>, c: Block, x: Value): seq<Value>
    requires p.t.Ok()
  {
    if fills == [] then []
    else
      var n := |fills| - 1;
      var rest := FillArgs(p, fills[..n], c, x);
      if fills[n].1 == c then rest + Brings(p, fills[n].0, x) else rest
  }

  ghost function FillLabels(p: Ssa, fills: seq<Edge>, c: Block, x: Value): seq<Block>
    requires p.t.Ok()
  {
    if fills == [] then []
    else
      var n := |fills| - 1;
      var rest := FillLabels(p, fills[..n], c, x);
      if fills[n].1 == c && Brings(p, fills[n].0, x) != [] then rest + [fills[n].0] else rest
  }

  ghost function Target(p: Ssa, s: Progress, c: Block, i: Instr): Instr
    requires p.t.Ok()
  {
    if i.op.Phi? then
      i.(args := FillArgs(p, s.fills, c, i.op.lval), labels := FillLabels(p, s.fills, c, i.op.lval))
    else Rewrite(s.sigma, i)
  }

  ghost function TargetBody(p: Ssa, s: Progress, c: Block): seq<Instr>
    requires p.t.Ok()
  {
    seq(|p.Body(c)|, k requires 0 <= k < |p.Body(c)| => Target(p, s, c, p.Body(c)[k]))
  }

  ghost function TargetNow(p: Ssa, s: Progress, c: Block): seq<Instr>
    requires p.t.Ok()
  {
    if c in s.finished then Kept(p.Body(c), TargetBody(p, s, c)) else TargetBody(p, s, c)
  }

  /** The code is what the progress says it is. */
  ghost predicate CodeIs(p: Ssa, s: Progress, code: Code)
    requires p.t.Ok()
  {
    code.Keys == p.base.Keys && forall c {:trigger BlockIs(p, s, code, c)} :: c in code ==> BlockIs(p, s, code, c)
  }

  ghost predicate BlockIs(p: Ssa, s: Progress, code: Code, c: Block)
    requires p.t.Ok()
  {
    c in code && code[c] == TargetNow(p, s, c)
  }

  /** Replaced values are loads of blocks that have been entered, and never come back. */
  ghost predicate SigmaOk(p: Ssa, s: Progress) {
    forall v {:trigger Replaced(p, s, v)} :: v in s.sigma ==> Replaced(p, s, v)
  }

  ghost predicate Replaced(p: Ssa, s: Progress, v: Value) {
    && v in s.sigma && p.IsLocalLoad(v) && p.site[v.id].0 in s.entered
    && !p.IsLocalLoad(s.sigma[v])
  }

  // ----- a replaced load -----

  lemma {:induction false} FillArgsLasting(p: Ssa, fills: seq<Edge>, c: Block, x: Value)
    requires p.CodeOk() && p.LoadsFed()
    ensures forall v :: v in FillArgs(p, fills, c, x) ==> !p.IsLocalLoad(v)
  {
    if fills != [] {
      var n := |fills| - 1;
      FillArgsLasting(p, fills[..n], c, x);
      var from := fills[n].0;
      if from in p.t.up {
        p.PointInvAt(from, |p.Body(from)|);
        assert p.Body(from)[..|p.Body(from)|] == p.Body(from);
        assert p.Out(from) == p.At(from, |p.Body(from)|);
        if Brings(p, from, x) != [] {
          assert Brings(p, from, x)[0] in StackOf(p.Out(from).stack, x);
        }
      }
    }
  }

  lemma ReplaceTarget(p: Ssa, s: Progress, c: Block, i: Instr, r: Value, v: Value)
    requires p.CodeOk() && p.LoadsFed() && SigmaOk(p, s) && p.IsLocalLoad(r) && r !in s.sigma
    ensures Rewrite(map[r := v], Target(p, s, c, i)) == Target(p, s.(sigma := s.sigma[r := v]), c, i)
  {
    var i' := Target(p, s, c, i);
    if i.op.Phi? {
      FillArgsLasting(p, s.fills, c, i.op.lval);
      assert SubAll(map[r := v], i'.args) == i'.args;
    } else {
      forall k | 0 <= k < |i.args|
        ensures SubAll(map[r := v], i'.args)[k] == SubAll(s.sigma[r := v], i.args)[k]
      {
        assert i.args[k] in s.sigma ==> Replaced(p, s, i.args[k]);
      }
      assert SubAll(map[r := v], i'.args) == SubAll(s.sigma[r := v], i.args);
    }
  }

  lemma {:induction false} KeptRewrite(ref: seq<Instr>, cur: seq<Instr>, sub: map<Value, Value>)
    requires |ref| == |cur|
    ensures Kept(ref, RewriteAll(sub, cur)) == RewriteAll(sub, Kept(ref, cur))
  {
    if ref != [] {
      var n := |ref| - 1;
      KeptRewrite(ref[..n], cur[..n], sub);
      assert RewriteAll(sub, cur)[..n] == RewriteAll(sub, cur[..n]);
    }
  }

  /** Replacing one more load keeps the code in step with the progress. */
  lemma ReplaceKeepsCode(p: Ssa, s: Progress, code: Code, r: Value, v: Value)
    requires p.CodeOk() && p.LoadsFed() && SigmaOk(p, s) && CodeIs(p, s, code)
    requires p.IsLocalLoad(r) && r !in s.sigma
    ensures CodeIs(p, s.(sigma := s.sigma[r := v]), ReplaceAllUse(code, r, v))
  {
    var s' := s.(sigma := s.sigma[r := v]);
    var code' := ReplaceAllUse(code, r, v);
    forall c | c in code'
      ensures BlockIs(p, s', code', c)
    {
      assert BlockIs(p, s, code, c);
      forall k | 0 <= k < |p.Body(c)|
        ensures RewriteAll(map[r := v], TargetBody(p, s, c))[k] == TargetBody(p, s', c)[k]
      {
        ReplaceTarget(p, s, c, p.Body(c)[k], r, v);
      }
      assert RewriteAll(map[r := v], TargetBody(p, s, c)) == TargetBody(p, s', c);
      KeptRewrite(p.Body(c), TargetBody(p, s, c), map[r := v]);
    }
  }

  // ----- an edge that feeds the phis of its target -----

  lemma {:induction false} KeptAddPairs(ref: seq<Instr>, cur: seq<Instr>, stack: map<Value, seq<Value>>, from: Block)
    requires |ref| == |cur|
    ensures Kept(ref, AddPairs(stack, from, cur)) == AddPairs(stack, from, Kept(ref, cur))
  {
    if ref != [] {
      var n := |ref| - 1;
      KeptAddPairs(ref[..n], cur[..n], stack, from);
      assert AddPairs(stack, from, cur)[..n] == AddPairs(stack, from, cur[..n]);
    }
  }

  lemma FillTarget(p: Ssa, s: Progress, stack: map<Value, seq<Value>>, from: Block, c: Block, d: Block, i: Instr)
    requires p.t.Ok() && from in p.t.up
    requires forall l :: StackOf(stack, l) == StackOf(p.Out(from).stack, l)
    ensures Target(p, s.(fills := s.fills + [(from, c)]), d, i) ==
            if d == c then AddPair(stack, from, Target(p, s, d, i)) else Target(p, s, d, i)
  {
    var fills := s.fills + [(from, c)];
    assert fills[..|fills| - 1] == s.fills && fills[|fills| - 1] == (from, c);
  }

  lemma FillTargetBody(p: Ssa, s: Progress, stack: map<Value, seq<Value>>, from: Block, c: Block, d: Block)
    requires p.t.Ok() && from in p.t.up
    requires forall l :: StackOf(stack, l) == StackOf(p.Out(from).stack, l)
    ensures TargetBody(p, s.(fills := s.fills + [(from, c)]), d) ==
            if d == c then AddPairs(stack, from, TargetBody(p, s, d)) else TargetBody(p, s, d)
  {
    forall k | 0 <= k < |p.Body(d)|
      ensures Target(p, s.(fills := s.fills + [(from, c)]), d, p.Body(d)[k]) ==
              if d == c then AddPair(stack, from, Target(p, s, d, p.Body(d)[k])) else Target(p, s, d, p.Body(d)[k])
    {
      FillTarget(p, s, stack, from, c, d, p.Body(d)[k]);
    }
  }

  /** Feeding the phis of `c` from the end of `from` keeps the code in step with the progress. */
  lemma FillKeepsCode(p: Ssa, s: Progress, code: Code, stack: map<Value, seq<Value>>, from: Block, c: Block)
    requires p.t.Ok() && CodeIs(p, s, code) && c in code && from in p.t.up
    requires forall l :: StackOf(stack, l) == StackOf(p.Out(from).stack, l)
    ensures CodeIs(p, s.(fills := s.fills + [(from, c)]), code[c := AddPairs(stack, from, code[c])])
  {
    var s' := s.(fills := s.fills + [(from, c)]);
    var code' := code[c := AddPairs(stack, from, code[c])];
    forall d | d in code'
      ensures BlockIs(p, s', code', d)
    {
      assert BlockIs(p, s, code, d);
      FillTargetBody(p, s, stack, from, c, d);
      KeptAddPairs(p.Body(d), TargetBody(p, s, d), stack, from);
    }
  }

  // ----- erasing -----

  /** `erase_instr`, which finds the instruction by its identity. */
  function EraseInstr(body: seq<Instr>, id: nat): seq<Instr> {
    if body == [] then []
    else
      var n := |body| - 1;
      EraseInstr(body[..n], id) + (if body[n].id == id then [] else [body[n]])
  }

  function WithoutIds(body: seq<Instr>, ids: set<nat>): seq<Instr> {
    if body == [] then []
    else
      var n := |body| - 1;
      WithoutIds(body[..n], ids) + (if body[n].id in ids then [] else [body[n]])
  }

  lemma {:induction false} EraseOne(body: seq<Instr>, ids: set<nat>, id: nat)
    ensures EraseInstr(WithoutIds(body, ids), id) == WithoutIds(body, ids + {id})
  {
    if body != [] {
      var n := |body| - 1;
      EraseOne(body[..n], ids, id);
      var rest := WithoutIds(body[..n], ids);
      if body[n].id !in ids {
        var s := rest + [body[n]];
        assert s[..|s| - 1] == rest;
      } else {
        assert WithoutIds(body, ids) == rest;
      }
    }
  }

  lemma {:induction false} WithoutNothing(body: seq<Instr>)
    ensures WithoutIds(body, {}) == body
  {
    if body != [] {
      WithoutNothing(body[..|body| - 1]);
    }
  }

  lemma {:induction false} ErasingKeeps(ref: seq<Instr>, cur: seq<Instr>, ids: set<nat>)
    requires |ref| == |cur|
    requires forall k :: 0 <= k < |ref| ==> cur[k].id == ref[k].id && (ref[k].id in ids <==> Deleted(ref[k]))
    ensures WithoutIds(cur, ids) == Kept(ref, cur)
  {
    if ref != [] {
      var n := |ref| - 1;
      ErasingKeeps(ref[..n], cur[..n], ids);
    }
  }
}
