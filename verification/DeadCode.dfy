/**
  Dead code elimination: mark what is live, sweep the rest, until nothing changes.
 */
module DeadCode {
  import opened Cfg
  import opened Ir
  import opened Program
  import opened Spreading
  import opened Liveness

  function Marked(marked: map<nat, bool>): set<nat> {
    set id | id in marked && marked[id]
  }

  predicate IsMarked(marked: map<nat, bool>, id: nat) {
    id in marked && marked[id]
  }

  predicate Holds(body: seq<Instr>, id: nat) {
    exists k :: 0 <= k < |body| && body[k].id == id
  }

  /** The instructions that are not marked yet. */
  function Left(defs: map<nat, Instr>, marked: map<nat, bool>): set<nat> {
    defs.Keys - Marked(marked)
  }

  lemma MarkOne(defs: map<nat, Instr>, marked: map<nat, bool>, id: nat)
    requires id in defs && !IsMarked(marked, id)
    ensures Marked(marked[id := true]) == Marked(marked) + {id}
    ensures |Left(defs, marked[id := true])| == |Left(defs, marked)| - 1
  {
    assert Marked(marked[id := true]) == Marked(marked) + {id};
    OneFewer(defs.Keys, Marked(marked), id);
  }

  lemma OneFewer(all: set<nat>, done: set<nat>, id: nat)
    requires id in all && id !in done
    ensures |all - (done + {id})| == |all - done| - 1
  {
    assert all - done == (all - (done + {id})) + {id};
  }

  ghost predicate OperandsDone(defs: map<nat, Instr>, operands: seq<Value>, n: nat, marked: map<nat, bool>) {
    forall j {:trigger operands[j]} :: 0 <= j < n && j < |operands| && operands[j].Result? && operands[j].id in defs ==>
      operands[j].id in Marked(marked)
  }

  lemma MarkStep(defs: map<nat, Instr>, edges: Edges, roots: set<nat>, marked: map<nat, bool>, workList: seq<nat>, now: nat, k: nat)
    requires now in defs && k < |defs[now].args| && Inv(edges, roots, Marked(marked), [now] + workList)
    requires forall g: nat {:trigger (g, now) in edges} :: (g, now) in edges <==> Uses(defs, now, g)
    requires var op := defs[now].args[k]; op.Result? && !IsMarked(marked, op.id) && op.id in defs
    ensures var id := defs[now].args[k].id; var marked' := marked[id := true];
            && Inv(edges, roots, Marked(marked'), [now] + (workList + [id]))
            && Marked(marked') == Marked(marked) + {id}
            && |Left(defs, marked')| == |Left(defs, marked)| - 1
  {
    var op := defs[now].args[k];
    assert op in defs[now].args && Uses(defs, now, op.id);
    Add(edges, roots, Marked(marked), [now] + workList, op.id, now);
    MarkOne(defs, marked, op.id);
    assert [now] + workList + [op.id] == [now] + (workList + [op.id]);
  }

  lemma AllOperandsDone(defs: map<nat, Instr>, edges: Edges, marked: map<nat, bool>, now: nat)
    requires now in defs && OperandsDone(defs, defs[now].args, |defs[now].args|, marked)
    requires forall g: nat {:trigger (g, now) in edges} :: (g, now) in edges <==> Uses(defs, now, g)
    ensures forall g {:trigger (g, now) in edges} :: (g, now) in edges ==> g in Marked(marked)
  {
    forall g: nat | (g, now) in edges
      ensures g in Marked(marked)
    {
      assert Uses(defs, now, g);
    }
  }

  lemma MarksAreLive(defs: map<nat, Instr>, isPure: map<nat, bool>, marked: map<nat, bool>)
    requires Marked(marked) <= defs.Keys && Inv(UseEdges(defs), Critical(defs, isPure), Marked(marked), [])
    ensures Marked(marked) == defs.Keys - Dead(defs, isPure)
  {
    forall id | id in defs
      ensures id in Marked(marked) <==> id !in Dead(defs, isPure)
    {
      Exact(UseEdges(defs), Critical(defs, isPure), Marked(marked), id);
    }
  }

  lemma MarksAreNeeded(f: Func, isPure: map<nat, bool>, marked: map<nat, bool>)
    requires f.Ok() && Marked(marked) == f.Defs().Keys - Dead(f.Defs(), isPure)
    ensures forall i :: InCode(f, i) ==> (IsMarked(marked, i.id) <==> Needed(f, isPure, i))
  {
    forall i | InCode(f, i)
      ensures IsMarked(marked, i.id) <==> Needed(f, isPure, i)
    {
      LiveIffNeeded(f, isPure, i);
      var b: Block, k: nat :| f.At(b, k) && f.code[b][k] == i;
      assert IsMarked(marked, i.id) <==> i.id in Marked(marked);
    }
  }

  /** What is left of every function of the program. */
  lemma SweptIsNeeded(p: Prog, isPure: map<nat, bool>)
    requires FuncsOk(p)
    ensures forall f, i :: f in p ==> (InCode(SweptAll(p, isPure)[f], i) <==> InCode(p[f], i) && Needed(p[f], isPure, i))
  {
    forall f, i | f in p
      ensures InCode(SweptAll(p, isPure)[f], i) <==> InCode(p[f], i) && Needed(p[f], isPure, i)
    {
      StaysIffNeeded(p[f], isPure, i);
    }
  }

  /** An instruction is in one place. */
  ghost predicate Once(f: Func) {
    forall b: Block, j: nat, c: Block, k: nat {:trigger f.At(b, j), f.At(c, k)} ::
      f.At(b, j) && f.At(c, k) && f.code[b][j].id == f.code[c][k].id ==> b == c && j == k
  }

  ghost predicate FuncsOk(prog: Prog) {
    forall f {:trigger prog[f]} :: f in prog ==> prog[f].Ok() && Once(prog[f])
  }

  class DeadCode {
    const isPure: map<nat, bool>
    const functions: seq<nat>
    var prog: Prog
    var insCount: nat
    var workList: seq<nat>
    var marked: map<nat, bool>

    constructor (p: Prog, order: seq<nat>, pure: map<nat, bool>)
      ensures prog == p && functions == order && isPure == pure
    {
      prog, functions, isPure, insCount, workList, marked := p, order, pure, 0, [], map[];
    }

    /** Mark the instructions that compute the operands of `now`. */
    method MarkOperands(defs: map<nat, Instr>, now: nat, ghost edges: Edges, ghost roots: set<nat>)
      requires now in defs && Marked(marked) <= defs.Keys
      requires forall g: nat {:trigger (g, now) in edges} :: (g, now) in edges <==> Uses(defs, now, g)
      requires Inv(edges, roots, Marked(marked), [now] + workList)
      modifies this`marked, this`workList
      ensures Marked(marked) <= defs.Keys && Inv(edges, roots, Marked(marked), workList)
      ensures |Left(defs, marked)| + |workList| <= |Left(defs, old(marked))| + |old(workList)|
    {
      var operands := defs[now].args;
      for k := 0 to |operands|
        invariant Marked(marked) <= defs.Keys && Inv(edges, roots, Marked(marked), [now] + workList)
        invariant OperandsDone(defs, operands, k, marked)
        invariant |Left(defs, marked)| + |workList| <= |Left(defs, old(marked))| + |old(workList)|
      {
        var op := operands[k];
        if op.Result? && !IsMarked(marked, op.id) && op.id in defs {
          MarkStep(defs, edges, roots, marked, workList, now, k);
          marked := marked[op.id := true];
          workList := workList + [op.id];
        }
      }
      AllOperandsDone(defs, edges, marked, now);
      Finish(edges, roots, Marked(marked), workList, now);
    }

    /** Mark the critical instructions. */
    method MarkCritical(func: Func)
      requires func.Ok()
      modifies this`marked, this`workList
      ensures Marked(marked) == Critical(func.Defs(), isPure)
      ensures forall id :: id in workList <==> id in Marked(marked)
    {
      workList, marked := [], map[];
      for n := 0 to |func.blocks|
        invariant Marked(marked) <= Critical(func.Defs(), isPure)
        invariant forall id :: id in workList <==> id in Marked(marked)
        invariant forall b: Block, k: nat :: func.At(b, k) && b in func.blocks[..n] && IsCritical(func.code[b][k], isPure) ==>
                    func.code[b][k].id in Marked(marked)
      {
        var b := func.blocks[n];
        for k := 0 to |func.code[b]|
          invariant Marked(marked) <= Critical(func.Defs(), isPure)
          invariant forall id :: id in workList <==> id in Marked(marked)
          invariant forall c: Block, j: nat :: func.At(c, j) && c in func.blocks[..n] && IsCritical(func.code[c][j], isPure) ==>
                      func.code[c][j].id in Marked(marked)
          invariant forall j :: 0 <= j < k && IsCritical(func.code[b][j], isPure) ==> func.code[b][j].id in Marked(marked)
        {
          var ins := func.code[b][k];
          assert func.At(b, k);
          if IsCritical(ins, isPure) {
            assert Marked(marked[ins.id := true]) == Marked(marked) + {ins.id};
            marked := marked[ins.id := true];
            workList := workList + [ins.id];
          }
        }
        assert func.blocks[..n + 1] == func.blocks[..n] + [b];
      }
      assert func.blocks[..|func.blocks|] == func.blocks;
      forall id | id in Critical(func.Defs(), isPure)
        ensures id in Marked(marked)
      {
        DefsAre(func.code, func.blocks, id);
        var b, k :| b in func.blocks && b in func.code && 0 <= k < |func.code[b]| && func.code[b][k].id == id && func.code[b][k] == func.Defs()[id];
        assert func.At(b, k);
      }
    }

    /** Marks exactly the live instructions: the least set with the critical ones that is closed
        under the definitions of operands. */
    method Mark(func: Func)
      requires func.Ok()
      modifies this`marked, this`workList
      ensures Marked(marked) == func.Defs().Keys - Dead(func.Defs(), isPure)
      ensures forall i :: InCode(func, i) ==> (IsMarked(marked, i.id) <==> Needed(func, isPure, i))
    {
      var defs := func.Defs();
      MarkCritical(func);
      ghost var edges, roots := UseEdges(defs), Critical(defs, isPure);
      Start(edges, roots, workList);
      while workList != []
        invariant Marked(marked) <= defs.Keys && Inv(edges, roots, Marked(marked), workList)
        decreases |Left(defs, marked)| + |workList|
      {
        var now := workList[0];
        assert now in workList && workList == [now] + workList[1..];
        workList := workList[1..];
        MarkOperands(defs, now, edges, roots);
      }
      MarksAreLive(defs, isPure, marked);
      MarksAreNeeded(func, isPure, marked);
    }

    /** The unmarked instructions of a function. */
    method Unmarked(func: Func) returns (waitDel: set<nat>)
      requires func.Ok()
      ensures waitDel == func.Defs().Keys - Marked(marked)
    {
      waitDel := {};
      for n := 0 to |func.blocks|
        invariant waitDel <= func.Defs().Keys - Marked(marked)
        invariant forall b: Block, k: nat :: func.At(b, k) && b in func.blocks[..n] ==> func.code[b][k].id in waitDel + Marked(marked)
      {
        var b := func.blocks[n];
        for k := 0 to |func.code[b]|
          invariant waitDel <= func.Defs().Keys - Marked(marked)
          invariant forall c: Block, j: nat :: func.At(c, j) && c in func.blocks[..n] ==> func.code[c][j].id in waitDel + Marked(marked)
          invariant forall j :: 0 <= j < k ==> func.code[b][j].id in waitDel + Marked(marked)
        {
          assert func.At(b, k);
          if !IsMarked(marked, func.code[b][k].id) {
            waitDel := waitDel + {func.code[b][k].id};
          }
        }
        assert func.blocks[..n + 1] == func.blocks[..n] + [b];
      }
      assert func.blocks[..|func.blocks|] == func.blocks;
      forall id | id in func.Defs() && id !in Marked(marked)
        ensures id in waitDel
      {
        DefsAre(func.code, func.blocks, id);
        var b, k :| b in func.blocks && b in func.code && 0 <= k < |func.code[b]| && func.code[b][k].id == id && func.code[b][k] == func.Defs()[id];
        assert func.At(b, k);
      }
    }

    /** Erases exactly the unmarked instructions, in whatever order the set yields them. */
    method Sweep(f: nat) returns (changed: bool)
      requires f in prog && prog[f].Ok() && Once(prog[f])
      modifies this`prog, this`insCount
      ensures var del := old(prog[f]).Defs().Keys - Marked(marked);
              && prog == old(prog)[f := old(prog[f]).(code := WithoutAll(old(prog[f]).code, del))]
              && changed == (del != {}) && insCount == old(insCount) + |del|
    {
      var func := prog[f];
      var waitDel := Unmarked(func);
      var code := EraseAll(func, waitDel);
      prog := prog[f := func.(code := code)];
      insCount := insCount + |waitDel|;
      changed := waitDel != {};
    }

    method MarkAndSweep(f: nat) returns (changed: bool)
      requires f in prog && prog[f].Ok() && Once(prog[f])
      modifies this
      ensures prog == old(prog)[f := Swept(old(prog)[f], isPure)] && changed == HasDead(old(prog)[f], isPure)
    {
      Mark(prog[f]);
      changed := Sweep(f);
      ghost var keys, dead := old(prog)[f].Defs().Keys, Dead(old(prog)[f].Defs(), isPure);
      assert keys - (keys - dead) == dead;
    }

    /** Mark and sweep every function. */
    method Round() returns (changed: bool)
      requires FuncsOk(prog) && forall f {:trigger f in functions} :: f in functions <==> f in prog
      modifies this
      ensures prog == SweptAll(old(prog), isPure)
      ensures changed <==> SomeDead(old(prog), isPure, functions)
    {
      changed := false;
      ghost var p0 := prog;
      for n := 0 to |functions|
        invariant prog.Keys == p0.Keys && SweptUpTo(p0, prog, isPure, functions[..n])
        invariant changed <==> SomeDead(p0, isPure, functions[..n])
      {
        var f := functions[n];
        assert f in functions;
        SweepOne(p0, prog, isPure, functions[..n], f);
        assert functions[..n + 1] == functions[..n] + [f];
        var c := MarkAndSweep(f);
        changed := changed || c;
      }
      assert functions[..|functions|] == functions;
      AllSwept(p0, prog, isPure, functions);
    }

    /** The whole pass ends after two rounds at most, with exactly the dead instructions erased. */
    method Run() returns (rounds: nat)
      requires FuncsOk(prog) && forall f {:trigger f in functions} :: f in functions <==> f in prog
      modifies this
      ensures prog == SweptAll(old(prog), isPure)
      ensures forall f, i :: f in old(prog) ==> (InCode(prog[f], i) <==> InCode(old(prog)[f], i) && Needed(old(prog)[f], isPure, i))
      ensures rounds == if SomeDead(old(prog), isPure, functions) then 2 else 1
    {
      SweptIsNeeded(prog, isPure);
      var changed := true;
      rounds := 0;
      while changed
        invariant rounds <= 2 && (rounds == 0 ==> changed)
        invariant rounds > 0 ==> (SomeDead(old(prog), isPure, functions) <==> changed || rounds == 2) && !(changed && rounds == 2)
        invariant prog == if rounds == 0 then old(prog) else SweptAll(old(prog), isPure)
        decreases 2 - rounds
      {
        if rounds == 1 {
          SweptAllTwice(old(prog), isPure);
        } else {
          SweptAllOk(old(prog), isPure);
        }
        changed := Round();
        rounds := rounds + 1;
      }
    }
  }

  ghost function SweptAll(p: Prog, isPure: map<nat, bool>): Prog {
    map f | f in p :: Swept(p[f], isPure)
  }

  ghost predicate SweptUpTo(p0: Prog, p: Prog, isPure: map<nat, bool>, done: seq<nat>) {
    forall f {:trigger p[f]} {:trigger p0[f]} :: f in p && f in p0 ==> p[f] == if f in done then Swept(p0[f], isPure) else p0[f]
  }

  ghost predicate HasDead(f: Func, isPure: map<nat, bool>) {
    Dead(f.Defs(), isPure) != {}
  }

  ghost predicate SomeDead(p: Prog, isPure: map<nat, bool>, fs: seq<nat>) {
    exists f {:trigger p[f]} :: f in fs && f in p && HasDead(p[f], isPure)
  }

  lemma SweepOne(p0: Prog, p: Prog, isPure: map<nat, bool>, done: seq<nat>, f: nat)
    requires FuncsOk(p0) && f in p0 && f in p && SweptUpTo(p0, p, isPure, done)
    ensures p[f].Ok() && Once(p[f])
    ensures SweptUpTo(p0, p[f := Swept(p[f], isPure)], isPure, done + [f])
    ensures SomeDead(p0, isPure, done + [f]) <==> SomeDead(p0, isPure, done) || HasDead(p[f], isPure)
  {
    assert p0[f].Ok() && Once(p0[f]);
    if f in done {
      SweptOk(p0[f], isPure);
      SweptOnce(p0[f], isPure);
      SweptTwice(p0[f], isPure);
      NothingDeadLeft(p0[f], isPure);
      assert HasDead(p0[f], isPure) ==> SomeDead(p0, isPure, done);
    }
    assert f in done + [f];
    SomeDeadSnoc(p0, isPure, done, f);
  }

  lemma SomeDeadSnoc(p: Prog, isPure: map<nat, bool>, fs: seq<nat>, f: nat)
    requires f in p
    ensures SomeDead(p, isPure, fs + [f]) <==> SomeDead(p, isPure, fs) || HasDead(p[f], isPure)
  {
    if SomeDead(p, isPure, fs) {
      var g :| g in fs && g in p && HasDead(p[g], isPure);
      assert g in fs + [f];
    }
    assert f in fs + [f];
  }

  lemma AllSwept(p0: Prog, p: Prog, isPure: map<nat, bool>, done: seq<nat>)
    requires p.Keys == p0.Keys && SweptUpTo(p0, p, isPure, done) && forall f {:trigger f in done} :: f in done <==> f in p0
    ensures p == SweptAll(p0, isPure)
  {
    forall f | f in p
      ensures p[f] == SweptAll(p0, isPure)[f]
    {
      assert f in done;
    }
  }

  lemma SweptAllOk(p: Prog, isPure: map<nat, bool>)
    requires FuncsOk(p)
    ensures FuncsOk(SweptAll(p, isPure))
  {
    forall f | f in p
      ensures Swept(p[f], isPure).Ok() && Once(Swept(p[f], isPure))
    {
      assert p[f].Ok() && Once(p[f]);
      SweptOk(p[f], isPure);
      SweptOnce(p[f], isPure);
    }
  }

  /** A second round finds nothing to erase. */
  lemma SweptAllTwice(p: Prog, isPure: map<nat, bool>)
    requires FuncsOk(p)
    ensures FuncsOk(SweptAll(p, isPure)) && SweptAll(SweptAll(p, isPure), isPure) == SweptAll(p, isPure)
    ensures forall f :: f in SweptAll(p, isPure) ==> Dead(SweptAll(p, isPure)[f].Defs(), isPure) == {}
  {
    SweptAllOk(p, isPure);
    forall f | f in p
      ensures Swept(Swept(p[f], isPure), isPure) == Swept(p[f], isPure) && Dead(Swept(p[f], isPure).Defs(), isPure) == {}
    {
      SweptTwice(p[f], isPure);
      NothingDeadLeft(p[f], isPure);
    }
  }

  ghost predicate Distinct(body: seq<Instr>) {
    forall j, k {:trigger body[j], body[k]} :: 0 <= j < k < |body| ==> body[j].id != body[k].id
  }

  lemma {:induction false} WithoutDistinct(body: seq<Instr>, del: set<nat>)
    requires Distinct(body)
    ensures Distinct(Without(body, del))
  {
    if body != [] {
      var n := |body| - 1;
      WithoutDistinct(body[..n], del);
      forall j | 0 <= j < |Without(body[..n], del)|
        ensures Without(body[..n], del)[j].id != body[n].id
      {
        WithoutFrom(body[..n], del, j);
        var at :| 0 <= at < n && body[..n][at] == Without(body[..n], del)[j];
        assert body[at].id != body[n].id;
      }
    }
  }

  lemma SweptOnce(f: Func, isPure: map<nat, bool>)
    requires Once(f)
    ensures Once(Swept(f, isPure))
  {
    var s, del := Swept(f, isPure), Dead(f.Defs(), isPure);
    forall b: Block, j: nat, c: Block, k: nat | s.At(b, j) && s.At(c, k) && s.code[b][j].id == s.code[c][k].id
      ensures b == c && j == k
    {
      WithoutFrom(f.code[b], del, j);
      WithoutFrom(f.code[c], del, k);
      var x :| 0 <= x < |f.code[b]| && f.code[b][x] == s.code[b][j];
      var y :| 0 <= y < |f.code[c]| && f.code[c][y] == s.code[c][k];
      assert f.At(b, x) && f.At(c, y);
      forall u, v | 0 <= u < v < |f.code[b]|
        ensures f.code[b][u].id != f.code[b][v].id
      {
        assert f.At(b, u) && f.At(b, v);
      }
      WithoutDistinct(f.code[b], del);
      assert s.code[b] == Without(f.code[b], del);
      assert j < k || k < j || j == k;
    }
  }

  /** Erase instructions from the blocks they are in. */
  method EraseAll(func: Func, waitDel: set<nat>) returns (code: Code)
    requires func.Ok() && Once(func) && waitDel <= func.Defs().Keys
    ensures code == WithoutAll(func.code, waitDel)
  {
    code := func.code;
    var rest := waitDel;
    ghost var gone: set<nat> := {};
    WithoutAllNone(func.code);
    while rest != {}
      invariant rest <= waitDel && gone == waitDel - rest && code == WithoutAll(func.code, gone)
      decreases |rest|
    {
      var inst :| inst in rest;
      StillThere(func, gone, inst);
      var parent: Block :| parent in code && Holds(code[parent], inst);
      EraseOne(func, gone, parent, inst);
      code := code[parent := Without(code[parent], {inst})];
      rest := rest - {inst};
      gone := gone + {inst};
    }
    assert gone == waitDel;
  }

  lemma WithoutAllNone(code: Code)
    ensures code == WithoutAll(code, {})
  {
    forall b | b in code
      ensures Without(code[b], {}) == code[b]
    {
      WithoutNone(code[b], {});
    }
  }

  lemma StillThere(f: Func, del: set<nat>, id: nat)
    requires id in f.Defs() && id !in del
    ensures exists b: Block :: b in WithoutAll(f.code, del) && Holds(WithoutAll(f.code, del)[b], id)
  {
    DefsAre(f.code, f.blocks, id);
    var b, k :| b in f.blocks && b in f.code && 0 <= k < |f.code[b]| && f.code[b][k].id == id && f.code[b][k] == f.Defs()[id];
    WithoutKeeps(f.code[b], del, k);
    var j :| 0 <= j < |Without(f.code[b], del)| && Without(f.code[b], del)[j] == f.code[b][k];
    assert Holds(WithoutAll(f.code, del)[b], id);
  }

  lemma OnlyThere(f: Func, del: set<nat>, parent: Block, id: nat, b: Block)
    requires Once(f) && f.Ok() && parent in f.code && Holds(Without(f.code[parent], del), id) && b in f.code && b != parent
    ensures Without(f.code[b], del + {id}) == Without(f.code[b], del)
  {
    var k :| 0 <= k < |Without(f.code[parent], del)| && Without(f.code[parent], del)[k].id == id;
    WithoutFrom(f.code[parent], del, k);
    var at :| 0 <= at < |f.code[parent]| && f.code[parent][at] == Without(f.code[parent], del)[k] && f.code[parent][at].id !in del;
    assert f.At(parent, at);
    forall j | 0 <= j < |f.code[b]|
      ensures f.code[b][j].id != id
    {
      assert f.At(b, j);
    }
    WithoutSame(f.code[b], del, del + {id});
  }

  /** Erasing one instruction from the block that holds it erases it from the function. */
  lemma EraseOne(f: Func, del: set<nat>, parent: Block, id: nat)
    requires f.Ok() && Once(f) && parent in f.code && Holds(Without(f.code[parent], del), id)
    ensures WithoutAll(f.code, del)[parent := Without(WithoutAll(f.code, del)[parent], {id})] == WithoutAll(f.code, del + {id})
  {
    WithoutBoth(f.code[parent], del, {id});
    forall b | b in f.code && b != parent
      ensures Without(f.code[b], del + {id}) == Without(f.code[b], del)
    {
      OnlyThere(f, del, parent, id, b);
    }
  }
}
