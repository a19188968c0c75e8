/**
  Which instructions of a function are live, and the function without the others.
 */
module Liveness {
  import opened Cfg
  import opened Ir
  import opened Program
  import opened Spreading

  /** `is_critical`: branches, returns, stores, and calls of functions that are not pure. */
  predicate IsCritical(i: Instr, isPure: map<nat, bool>) {
    match i.op
    case Call(g) => !(g in isPure && isPure[g])
    case Br => true
    case CondBr => true
    case Ret => true
    case Store => true
    case _ => false
  }

  ghost function Critical(defs: map<nat, Instr>, isPure: map<nat, bool>): set<nat> {
    set id | id in defs && IsCritical(defs[id], isPure)
  }

  ghost predicate Uses(defs: map<nat, Instr>, u: nat, d: nat) {
    u in defs && d in defs && exists v: Value :: v in defs[u].args && v.Result? && v.id == d
  }

  /** (definition, user) */
  ghost function UseEdges(defs: map<nat, Instr>): Edges {
    set d, u | d in defs.Keys && u in defs.Keys && Uses(defs, u, d) :: (d, u)
  }

  /** `id` is critical or, through any number of uses, computes something for an instruction that is. */
  ghost predicate Live(defs: map<nat, Instr>, isPure: map<nat, bool>, id: nat) {
    Reaches(UseEdges(defs), Critical(defs, isPure), id)
  }

  ghost function Dead(defs: map<nat, Instr>, isPure: map<nat, bool>): set<nat> {
    set id | id in defs && !Live(defs, isPure, id)
  }

  function Without(body: seq<Instr>, del: set<nat>): seq<Instr> {
    if body == [] then []
    else
      var n := |body| - 1;
      Without(body[..n], del) + (if body[n].id in del then [] else [body[n]])
  }

  function WithoutAll(code: Code, del: set<nat>): Code {
    map b | b in code :: Without(code[b], del)
  }

  /** The function with its dead instructions erased. */
  ghost function Swept(f: Func, isPure: map<nat, bool>): Func {
    f.(code := WithoutAll(f.code, Dead(f.Defs(), isPure)))
  }

  lemma WithoutSnoc(body: seq<Instr>, i: Instr, del: set<nat>)
    ensures Without(body + [i], del) == Without(body, del) + (if i.id in del then [] else [i])
  {
    assert (body + [i])[..|body|] == body;
  }

  lemma {:induction false} WithoutNone(body: seq<Instr>, del: set<nat>)
    requires forall k :: 0 <= k < |body| ==> body[k].id !in del
    ensures Without(body, del) == body
  {
    if body != [] {
      WithoutNone(body[..|body| - 1], del);
    }
  }

  lemma {:induction false} WithoutBoth(body: seq<Instr>, del: set<nat>, more: set<nat>)
    ensures Without(Without(body, del), more) == Without(body, del + more)
  {
    if body != [] {
      var n := |body| - 1;
      WithoutBoth(body[..n], del, more);
      if body[n].id !in del {
        WithoutSnoc(Without(body[..n], del), body[n], more);
      } else {
        assert Without(body, del) == Without(body[..n], del);
      }
    }
  }

  lemma {:induction false} WithoutSame(body: seq<Instr>, del: set<nat>, del': set<nat>)
    requires forall k :: 0 <= k < |body| ==> (body[k].id in del <==> body[k].id in del')
    ensures Without(body, del) == Without(body, del')
  {
    if body != [] {
      WithoutSame(body[..|body| - 1], del, del');
    }
  }

  lemma {:induction false} WithoutFrom(body: seq<Instr>, del: set<nat>, k: nat)
    requires k < |Without(body, del)|
    ensures exists j :: 0 <= j < |body| && body[j] == Without(body, del)[k] && body[j].id !in del
  {
    var n := |body| - 1;
    if k < |Without(body[..n], del)| {
      WithoutFrom(body[..n], del, k);
      var j :| 0 <= j < |body[..n]| && body[..n][j] == Without(body[..n], del)[k] && body[..n][j].id !in del;
      assert body[j] == Without(body, del)[k];
    } else {
      assert body[n] == Without(body, del)[k];
    }
  }

  // ----- what is left, by operations alone -----

  ghost predicate InCode(f: Func, i: Instr) {
    exists b: Block, k: nat {:trigger f.At(b, k)} :: f.At(b, k) && f.code[b][k] == i
  }

  /** A branch, a return, a store, or a call of a function that is not pure. */
  predicate Anchor(i: Instr, isPure: map<nat, bool>) {
    i.op.Br? || i.op.CondBr? || i.op.Ret? || i.op.Store? || (i.op.Call? && !(i.op.callee in isPure && isPure[i.op.callee]))
  }

  /** `d` computes an operand of `u`. */
  ghost predicate Computes(d: Instr, u: Instr) {
    exists k {:trigger u.args[k]} :: 0 <= k < |u.args| && u.args[k].Result? && u.args[k].id == d.id
  }

  /** Each instruction computes an operand of the one before. */
  ghost predicate Operands(f: Func, c: seq<Instr>) {
    && c != [] && (forall k {:trigger InCode(f, c[k])} :: 0 <= k < |c| ==> InCode(f, c[k]))
    && (forall k {:trigger OperandAt(c, k)} :: 0 <= k < |c| - 1 ==> OperandAt(c, k))
  }

  ghost predicate OperandAt(c: seq<Instr>, k: nat)
    requires k + 1 < |c|
  {
    Computes(c[k + 1], c[k])
  }

  /** A chain of operands leads down to `i` from an instruction that is not erased for its own sake. */
  ghost predicate Needed(f: Func, isPure: map<nat, bool>, i: Instr) {
    exists c {:trigger Operands(f, c)} :: Operands(f, c) && Anchor(c[0], isPure) && c[|c| - 1] == i
  }

  lemma NeededNext(f: Func, isPure: map<nat, bool>, u: Instr, d: Instr)
    requires Needed(f, isPure, u) && InCode(f, d) && Computes(d, u)
    ensures Needed(f, isPure, d)
  {
    var c :| Operands(f, c) && Anchor(c[0], isPure) && c[|c| - 1] == u;
    var e := c + [d];
    forall k | 0 <= k < |e|
      ensures InCode(f, e[k])
    {
      assert k < |c| ==> InCode(f, c[k]);
    }
    forall k | 0 <= k < |e| - 1
      ensures OperandAt(e, k)
    {
      assert k < |c| - 1 ==> OperandAt(c, k);
    }
    assert Operands(f, e);
  }

  lemma DefInCode(f: Func, id: nat)
    requires f.Ok() && id in f.Defs()
    ensures InCode(f, f.Defs()[id]) && f.Defs()[id].id == id
  {
    DefsAre(f.code, f.blocks, id);
    var b, k :| b in f.blocks && b in f.code && 0 <= k < |f.code[b]| && f.code[b][k].id == id && f.code[b][k] == f.Defs()[id];
    assert f.At(b, k);
  }

  lemma {:induction false} ChainIsNeeded(f: Func, isPure: map<nat, bool>, c: seq<nat>)
    requires f.Ok() && Chain(UseEdges(f.Defs()), c) && c[|c| - 1] in Critical(f.Defs(), isPure)
    ensures c[0] in f.Defs() && Needed(f, isPure, f.Defs()[c[0]])
    decreases |c|
  {
    var defs := f.Defs();
    if |c| == 1 {
      DefInCode(f, c[0]);
      assert Operands(f, [defs[c[0]]]);
    } else {
      assert Link(UseEdges(defs), c, 0);
      var rest := c[1..];
      forall k | 0 <= k < |rest| - 1
        ensures Link(UseEdges(defs), rest, k)
      {
        assert Link(UseEdges(defs), c, k + 1);
      }
      ChainIsNeeded(f, isPure, rest);
      DefInCode(f, c[0]);
      assert Uses(defs, c[1], c[0]);
      NeededNext(f, isPure, defs[c[1]], defs[c[0]]);
    }
  }

  lemma {:induction false} OperandsLive(f: Func, isPure: map<nat, bool>, c: seq<Instr>)
    requires f.Ok() && Operands(f, c) && Anchor(c[0], isPure)
    ensures Live(f.Defs(), isPure, c[|c| - 1].id)
    decreases |c|
  {
    var defs, n := f.Defs(), |c| - 1;
    assert InCode(f, c[n]);
    if n == 0 {
      ReachesNow(UseEdges(defs), Critical(defs, isPure), c[0].id);
    } else {
      var d := c[..n];
      forall k | 0 <= k < |d|
        ensures InCode(f, d[k])
      {
        assert InCode(f, c[k]);
      }
      forall k | 0 <= k < |d| - 1
        ensures OperandAt(d, k)
      {
        assert OperandAt(c, k);
      }
      OperandsLive(f, isPure, d);
      assert OperandAt(c, n - 1) && InCode(f, c[n - 1]);
      assert Uses(defs, c[n - 1].id, c[n].id);
      ReachesByEdge(UseEdges(defs), Critical(defs, isPure), c[n].id, c[n - 1].id);
    }
  }

  lemma LiveIffNeeded(f: Func, isPure: map<nat, bool>, i: Instr)
    requires f.Ok() && InCode(f, i)
    ensures i.id in f.Defs() && (i.id !in Dead(f.Defs(), isPure) <==> Needed(f, isPure, i))
  {
    var defs := f.Defs();
    if Live(defs, isPure, i.id) {
      var c :| Chain(UseEdges(defs), c) && c[0] == i.id && c[|c| - 1] in Critical(defs, isPure);
      ChainIsNeeded(f, isPure, c);
    }
    if Needed(f, isPure, i) {
      var c :| Operands(f, c) && Anchor(c[0], isPure) && c[|c| - 1] == i;
      OperandsLive(f, isPure, c);
    }
  }

  /** An instruction is left exactly if a chain of operands leads down to it from a branch, a return, a store or a call of a
      function that is not pure. */
  lemma StaysIffNeeded(f: Func, isPure: map<nat, bool>, i: Instr)
    requires f.Ok()
    ensures InCode(Swept(f, isPure), i) <==> InCode(f, i) && Needed(f, isPure, i)
  {
    var del, r := Dead(f.Defs(), isPure), Swept(f, isPure);
    if InCode(r, i) {
      var b: Block, k: nat :| r.At(b, k) && r.code[b][k] == i;
      WithoutFrom(f.code[b], del, k);
      var j: nat :| j < |f.code[b]| && f.code[b][j] == i && i.id !in del;
      assert f.At(b, j);
      LiveIffNeeded(f, isPure, i);
    }
    if InCode(f, i) && Needed(f, isPure, i) {
      LiveIffNeeded(f, isPure, i);
      var b: Block, j: nat :| f.At(b, j) && f.code[b][j] == i;
      WithoutKeeps(f.code[b], del, j);
      var k: nat :| k < |r.code[b]| && r.code[b][k] == i;
      assert r.At(b, k);
    }
  }

  /** What only computes something is gone if nobody uses it. */
  lemma UnusedIsGone(f: Func, isPure: map<nat, bool>, i: Instr)
    requires f.Ok() && InCode(f, i) && forall u :: InCode(f, u) ==> !Computes(i, u)
    requires i.op.Compute? || i.op.Load? || i.op.Gep? || i.op.Alloca? || i.op.Phi? || (i.op.Call? && i.op.callee in isPure && isPure[i.op.callee])
    ensures !InCode(Swept(f, isPure), i)
  {
    StaysIffNeeded(f, isPure, i);
    if Needed(f, isPure, i) {
      NeededHasUser(f, isPure, i);
    }
  }

  lemma NeededHasUser(f: Func, isPure: map<nat, bool>, i: Instr)
    requires Needed(f, isPure, i) && !Anchor(i, isPure)
    ensures exists u :: InCode(f, u) && Computes(i, u)
  {
    var c :| Operands(f, c) && Anchor(c[0], isPure) && c[|c| - 1] == i;
    var n := |c| - 2;
    assert OperandAt(c, n) && InCode(f, c[n]);
  }

  lemma {:induction false} WithoutKeeps(body: seq<Instr>, del: set<nat>, k: nat)
    requires k < |body| && body[k].id !in del
    ensures body[k] in Without(body, del)
  {
    var n := |body| - 1;
    if k < n {
      WithoutKeeps(body[..n], del, k);
    }
  }

  // ----- the definitions that are left -----

  /** An instruction is found under its identity after erasing as before, unless it is erased. */
  lemma {:induction false} DefWithout(body: seq<Instr>, del: set<nat>, id: nat)
    ensures id in DefsIn(Without(body, del)) <==> id in DefsIn(body) && id !in del
    ensures id in DefsIn(body) && id !in del ==> DefsIn(Without(body, del))[id] == DefsIn(body)[id]
  {
    if body != [] {
      var n := |body| - 1;
      var rest := Without(body[..n], del);
      DefWithout(body[..n], del, id);
      if body[n].id !in del {
        DefsInSnoc(rest, body[n]);
      } else {
        assert Without(body, del) == rest;
      }
    }
  }

  lemma DefsInWithout(body: seq<Instr>, del: set<nat>)
    ensures DefsIn(Without(body, del)) == DefsIn(body) - del
  {
    forall id
      ensures id in DefsIn(Without(body, del)) <==> id in DefsIn(body) - del
      ensures id in DefsIn(body) - del ==> DefsIn(Without(body, del))[id] == (DefsIn(body) - del)[id]
    {
      DefWithout(body, del, id);
    }
  }

  lemma {:induction false} DefsOfWithout(code: Code, blocks: seq<Block>, del: set<nat>)
    ensures DefsOf(WithoutAll(code, del), blocks) == DefsOf(code, blocks) - del
  {
    if blocks != [] {
      var n := |blocks| - 1;
      DefsOfWithout(code, blocks[..n], del);
      if blocks[n] in code {
        DefsInWithout(code[blocks[n]], del);
      }
    }
  }

  lemma SweptDefs(f: Func, isPure: map<nat, bool>)
    ensures Swept(f, isPure).Defs() == f.Defs() - Dead(f.Defs(), isPure)
  {
    DefsOfWithout(f.code, f.blocks, Dead(f.Defs(), isPure));
  }

  lemma SweptOk(f: Func, isPure: map<nat, bool>)
    requires f.Ok()
    ensures Swept(f, isPure).Ok()
  {
    var s := Swept(f, isPure);
    var del := Dead(f.Defs(), isPure);
    SweptDefs(f, isPure);
    forall b: Block, k: nat | s.At(b, k)
      ensures Names(s.Defs(), s.code[b][k])
    {
      WithoutFrom(f.code[b], del, k);
      var j :| 0 <= j < |f.code[b]| && f.code[b][j] == s.code[b][k] && f.code[b][j].id !in del;
      assert f.At(b, j);
    }
  }

  // ----- erasing once is enough -----

  lemma {:induction false} ChainStaysLive(defs: map<nat, Instr>, isPure: map<nat, bool>, c: seq<nat>)
    requires Chain(UseEdges(defs), c) && c[|c| - 1] in Critical(defs, isPure)
    ensures var defs' := defs - Dead(defs, isPure);
            Chain(UseEdges(defs'), c) && c[|c| - 1] in Critical(defs', isPure)
    decreases |c|
  {
    var defs' := defs - Dead(defs, isPure);
    assert Live(defs, isPure, c[0]);
    if |c| > 1 {
      assert Link(UseEdges(defs), c, 0);
      var rest := c[1..];
      forall k | 0 <= k < |rest| - 1
        ensures Link(UseEdges(defs), rest, k)
      {
        assert Link(UseEdges(defs), c, k + 1);
      }
      ChainStaysLive(defs, isPure, rest);
      assert Live(defs, isPure, rest[0]);
      assert Uses(defs, c[1], c[0]);
      assert Uses(defs', c[1], c[0]);
      forall k | 0 <= k < |c| - 1
        ensures Link(UseEdges(defs'), c, k)
      {
        if k > 0 {
          assert Link(UseEdges(defs'), rest, k - 1);
        }
      }
    }
  }

  /** Nothing is dead after sweeping. */
  lemma NothingDeadLeft(f: Func, isPure: map<nat, bool>)
    ensures Dead(Swept(f, isPure).Defs(), isPure) == {}
  {
    var defs := f.Defs();
    SweptDefs(f, isPure);
    forall id | id in Swept(f, isPure).Defs()
      ensures Live(Swept(f, isPure).Defs(), isPure, id)
    {
      assert Live(defs, isPure, id);
      var c :| Chain(UseEdges(defs), c) && c[0] == id && c[|c| - 1] in Critical(defs, isPure);
      ChainStaysLive(defs, isPure, c);
    }
  }

  lemma WithoutNoneAll(f: Func, isPure: map<nat, bool>)
    requires Dead(f.Defs(), isPure) == {}
    ensures Swept(f, isPure) == f
  {
    forall b | b in f.code
      ensures Without(f.code[b], {}) == f.code[b]
    {
      WithoutNone(f.code[b], {});
    }
  }

  /** Sweeping twice erases no more than sweeping once. */
  lemma SweptTwice(f: Func, isPure: map<nat, bool>)
    ensures Swept(Swept(f, isPure), isPure) == Swept(f, isPure)
  {
    NothingDeadLeft(f, isPure);
    WithoutNoneAll(Swept(f, isPure), isPure);
  }

  // ----- no dangling operand -----

  /** No instruction that is left uses one that was erased. */
  lemma NoUseOfErased(f: Func, isPure: map<nat, bool>, b: Block, k: nat, v: Value)
    requires f.Ok() && Swept(f, isPure).At(b, k) && v in Swept(f, isPure).code[b][k].args && v.Result? && v.id in f.Defs()
    ensures v.id in Swept(f, isPure).Defs()
  {
    var i := Swept(f, isPure).code[b][k];
    SweptOk(f, isPure);
    SweptDefs(f, isPure);
    assert Names(Swept(f, isPure).Defs(), i);
    LiveArgs(f.Defs(), isPure, i, v);
  }

  lemma LiveArgs(defs: map<nat, Instr>, isPure: map<nat, bool>, i: Instr, v: Value)
    requires Names(defs, i) && i.id !in Dead(defs, isPure) && v in i.args && v.Result? && v.id in defs
    ensures v.id !in Dead(defs, isPure)
  {
    assert Uses(defs, i.id, v.id);
    ReachesByEdge(UseEdges(defs), Critical(defs, isPure), v.id, i.id);
  }
}
