/**
  The pass that turns loads and stores of local variables into SSA values.
 */
module Mem2Reg {
  import opened Cfg
  import opened IdomTree
  import opened Ir
  import opened Running
  import opened Renaming
  import opened Rewriting
  import opened RenameSteps
  import opened PhiPlacement
  import opened SsaForm
  import opened Feeding
  import opened Filling
  import opened Frontier
  import opened Simulation
  import opened Preservation
  import opened Promotion
  import D = Dominators

  function Blocks(m: map<Value, set<Block>>, v: Value): set<Block> {
    if v in m then m[v] else {}
  }

  method ListOf(s: set<Block>) returns (l: seq<Block>)
    ensures forall x :: x in l <==> x in s
  {
    l := [];
    var rest := s;
    while rest != {}
      invariant rest <= s
      invariant forall x :: x in l <==> x in s - rest
      decreases rest
    {
      var x :| x in rest;
      l := l + [x];
      rest := rest - {x};
    }
  }

  ghost function Members(ids: seq<nat>): set<nat> {
    set id | id in ids
  }

  lemma MembersNext(ids: seq<nat>, i: nat)
    requires i < |ids|
    ensures Members(ids[..i + 1]) == Members(ids[..i]) + {ids[i]}
  {
    assert ids[..i + 1] == ids[..i] + [ids[i]];
  }

  /** The block of the lowest address. */
  method First(address: Block -> int, s: set<Block>) returns (f: Block)
    requires s != {}
    ensures f in s && forall x :: x in s ==> address(f) <= address(x)
  {
    f :| f in s;
    var rest := s - {f};
    while rest != {}
      invariant rest <= s && f in s
      invariant forall x :: x in s - rest ==> address(f) <= address(x)
      decreases rest
    {
      var x :| x in rest;
      if address(x) < address(f) {
        f := x;
      }
      rest := rest - {x};
    }
  }

  /** Up to `k`, the scalar allocas are gone from what is now `cur`. */
  ghost predicate ScalarsRemoved(body: seq<Instr>, k: nat, cur: seq<Instr>, i: nat) {
    k <= |body| && i <= |cur| && cur[..i] == WithoutScalars(body[..k]) && cur[i..] == body[k..]
  }

  lemma RemoveNext(body: seq<Instr>, k: nat, cur: seq<Instr>, i: nat)
    requires ScalarsRemoved(body, k, cur, i) && i < |cur|
    ensures k < |body|
    ensures if cur[i].op == Alloca(true) then ScalarsRemoved(body, k + 1, cur[..i] + cur[i + 1..], i)
            else ScalarsRemoved(body, k + 1, cur, i + 1)
  {
    assert |cur[i..]| == |body[k..]|;
    assert cur[i] == cur[i..][0];
    assert body[k] == body[k..][0];
    assert body[..k + 1] == body[..k] + [body[k]];
    WithoutScalarsAppend(body[..k], body[k]);
    var rest := cur[..i] + cur[i + 1..];
    assert cur[i + 1..] == body[k + 1..] && rest[..i] == cur[..i] && rest[i..] == cur[i + 1..];
    assert cur[..i + 1] == cur[..i] + [cur[i]];
  }

  class Mem2Reg {
    const g: Graph
    const address: Block -> int
    var code: Code
    var varValStack: map<Value, seq<Value>>
    var domFrontier: map<Block, set<Block>>
    var domTreeSucc: map<Block, set<Block>>
    var nextId: nat

    ghost var ssa: Ssa
    ghost var par: map<Block, Block>
    ghost var site: Site
    ghost var progress: Progress

    constructor (graph: Graph, layout: Block -> int, body: Code, next: nat, ghost sites: Site)
      ensures g == graph && address == layout && code == body && nextId == next && site == sites
    {
      g, address, code, nextId := graph, layout, body, next;
      varValStack, domFrontier, domTreeSucc := map[], map[], map[];
      site, par, progress := sites, map[], Progress(map[], [], {}, {});
    }

    /** What stays as it is while blocks are renamed. */
    ghost predicate Prepared()
      reads this`ssa, this`par, this`domTreeSucc
    {
      Ready(g, ssa, par, domTreeSucc) && Injective(address)
    }

    /** The code and the entries of the stacks are in step with the progress of renaming. */
    ghost predicate InStep()
      requires ssa.t.Ok()
      reads this
    {
      && CodeIs(ssa, progress, code)
      && SigmaOk(ssa, progress)
      && progress.finished <= progress.entered
      && Keyed(ssa, varValStack, progress.entered)
    }

    /** Step three: each phi of the block becomes the latest value of its variable. */
    method PushPhis(bb: Block)
      requires ssa.t.Ok() && CodeIs(ssa, progress, code) && bb in ssa.t.up && bb in code && bb !in progress.finished
      requires PhisFirst(ssa.Body(bb))
      requires SameStacks(varValStack, ssa.In(bb).stack) && Keyed(ssa, varValStack, progress.entered)
      modifies this`varValStack
      ensures SameStacks(varValStack, ssa.At(bb, PhiCount(ssa.Body(bb))).stack)
      ensures KeyedAt(ssa, varValStack, progress.entered, bb, PhiCount(ssa.Body(bb)))
    {
      ghost var p, body, done := ssa, ssa.Body(bb), progress.entered;
      ghost var np := PhiCount(body);
      KeyedStart(p, varValStack, done, bb);
      SameLength(p, progress, bb, code);
      assert body[..0] == [];
      var i := 0;
      while i < |code[bb]|
        invariant 0 <= i <= |code[bb]| == |body|
        invariant SameStacks(varValStack, p.At(bb, if i < np then i else np).stack)
        invariant KeyedAt(p, varValStack, done, bb, if i < np then i else np)
      {
        var instr := code[bb][i];
        if i < np {
          AtPhi(p, progress, bb, i, code, varValStack, done);
        }
        CurrentShape(p, progress, bb, i, code);
        if instr.op.Phi? {
          varValStack := Push(varValStack, instr.op.lval, ResultOf(instr));
        }
        i := i + 1;
      }
    }

    /** Steps four and five for one instruction: a load gives way to the latest value, a store
        provides it. */
    method RenameInstr(bb: Block, i: nat, ghost s0: Progress) returns (deleted: bool)
      requires ssa.CodeOk() && ssa.LoadsFed() && bb in ssa.t.up && i < |ssa.Body(bb)| && !ssa.Body(bb)[i].op.Phi?
      requires RenamingAt(ssa, s0, progress, bb, i, code, varValStack) && i < |code[bb]|
      modifies this`varValStack, this`code, this`progress
      ensures RenamingAt(ssa, s0, progress, bb, i + 1, code, varValStack)
      ensures deleted == Deleted(ssa.Body(bb)[i])
    {
      deleted := false;
      CurrentAt(ssa, s0, progress, bb, i, code, varValStack);
      var instr := code[bb][i];
      if LoadsLocal(instr) {
        AtLoad(ssa, s0, progress, bb, i, code, varValStack);
        var lVal := instr.args[0];
        if StackOf(varValStack, lVal) != [] {
          var newVal := Top(StackOf(varValStack, lVal));
          code := ReplaceAllUse(code, ResultOf(instr), newVal);
          progress := progress.(sigma := progress.sigma[ResultOf(instr) := newVal]);
          deleted := true;
        }
      } else if StoresLocal(instr) {
        AtStore(ssa, s0, progress, bb, i, code, varValStack);
        varValStack := Push(varValStack, instr.args[1], instr.args[0]);
        deleted := true;
      } else {
        AtOther(ssa, s0, progress, bb, i, code, varValStack);
      }
    }

    /** The instruction at `i` of the loop over a block; the phis in front are done already. */
    method RenameNext(bb: Block, i: nat, ghost np: nat, ghost s0: Progress, waitDelete: seq<nat>) returns (waitDelete': seq<nat>)
      requires ssa.CodeOk() && ssa.LoadsFed() && bb in ssa.t.up && i < |ssa.Body(bb)| && PhisFirst(ssa.Body(bb)) && np == PhiCount(ssa.Body(bb))
      requires RenamingAt(ssa, s0, progress, bb, if i < np then np else i, code, varValStack) && i < |code[bb]|
      requires forall id :: id in waitDelete <==> DeletesId(ssa.Body(bb)[..i], id)
      modifies this`varValStack, this`code, this`progress
      ensures RenamingAt(ssa, s0, progress, bb, if i + 1 < np then np else i + 1, code, varValStack)
      ensures forall id :: id in waitDelete' <==> DeletesId(ssa.Body(bb)[..i + 1], id)
    {
      waitDelete' := waitDelete;
      DeletesIdStep(ssa.Body(bb), i);
      var instr := code[bb][i];
      CurrentShape(ssa, progress, bb, i, code);
      if !instr.op.Phi? {
        var deleted := RenameInstr(bb, i, s0);
        if deleted {
          waitDelete' := waitDelete + [instr.id];
        }
      }
    }

    method RenameInstrs(bb: Block) returns (waitDelete: seq<nat>)
      requires ssa.CodeOk() && ssa.LoadsFed() && CodeIs(ssa, progress, code) && SigmaOk(ssa, progress)
      requires bb in ssa.t.up && bb in code && bb !in progress.entered && progress.finished <= progress.entered
      requires PhisFirst(ssa.Body(bb))
      requires SameStacks(varValStack, ssa.At(bb, PhiCount(ssa.Body(bb))).stack)
      requires KeyedAt(ssa, varValStack, progress.entered, bb, PhiCount(ssa.Body(bb)))
      requires forall v :: v in ssa.In(bb).sub ==> v in progress.sigma && progress.sigma[v] == ssa.In(bb).sub[v]
      modifies this`varValStack, this`code, this`progress
      ensures RenamingAt(ssa, old(progress), progress, bb, |ssa.Body(bb)|, code, varValStack)
      ensures forall id :: id in waitDelete <==> DeletesId(ssa.Body(bb), id)
    {
      ghost var p, s0, body := ssa, progress, ssa.Body(bb);
      ghost var np := PhiCount(body);
      waitDelete := [];
      EnterBlock(p, s0, bb, code, varValStack);
      progress := progress.(entered := progress.entered + {bb});
      var i := 0;
      while i < |code[bb]|
        invariant bb in code && 0 <= i <= |code[bb]| == |body|
        invariant RenamingAt(p, s0, progress, bb, if i < np then np else i, code, varValStack)
        invariant forall id :: id in waitDelete <==> DeletesId(body[..i], id)
      {
        waitDelete := RenameNext(bb, i, np, s0, waitDelete);
        SameLength(p, progress, bb, code);
        i := i + 1;
      }
      assert body[..|body|] == body;
    }

    /** Step six for one successor: append the latest values to its phis. The answer is whether the assertion
        holds that a variable with an entry in `var_val_stack` has a value. */
    method FillPhis(bb: Block, succ: Block) returns (ok: bool)
      requires succ in code
      modifies this`code
      ensures ok <==> PairsOk(varValStack, old(code)[succ])
      ensures ok ==> code == old(code)[succ := AddPairs(varValStack, bb, old(code)[succ])]
    {
      ok := true;
      ghost var before := code[succ];
      var i := 0;
      while i < |code[succ]|
        invariant succ in code && 0 <= i <= |code[succ]| == |before|
        invariant forall k :: 0 <= k < i ==> code[succ][k] == AddPair(varValStack, bb, before[k]) && PairOk(varValStack, before[k])
        invariant forall k :: i <= k < |before| ==> code[succ][k] == before[k]
        invariant code == old(code)[succ := code[succ]]
      {
        var instr := code[succ][i];
        if instr.op.Phi? && instr.op.lval in varValStack {
          if varValStack[instr.op.lval] == [] {
            assert !PairOk(varValStack, before[i]);
            return false;
          }
          code := code[succ := code[succ][i := AddPair(varValStack, bb, instr)]];
        }
        i := i + 1;
      }
      assert code[succ] == AddPairs(varValStack, bb, before);
    }

    method FillSuccessors(bb: Block) returns (ok: bool)
      requires g.Valid() && ssa.t.Ok() && CodeIs(ssa, progress, code) && bb in ssa.t.up && bb in g.succ
      requires ssa.base.Keys == g.pred.Keys
      requires SameStacks(varValStack, ssa.Out(bb).stack)
      modifies this`code, this`progress
      ensures ok <==> FillsOk(ssa, varValStack, g.succ[bb])
      ensures ok ==> CodeIs(ssa, progress, code)
      ensures ok ==> progress == old(progress).(fills := old(progress).fills + EdgesFrom(bb, g.succ[bb]))
    {
      var succs := g.succ[bb];
      ghost var s0 := progress;
      var i := 0;
      while i < |succs|
        invariant 0 <= i <= |succs|
        invariant CodeIs(ssa, progress, code)
        invariant progress == s0.(fills := s0.fills + EdgesFrom(bb, succs[..i]))
        invariant forall j :: 0 <= j < i ==> PairsOk(varValStack, ssa.Body(succs[j]))
      {
        assert g.Edge(bb, succs[i]);
        PairsNow(ssa, progress, code, succs[i], varValStack);
        FillKeepsCode(ssa, progress, code, varValStack, bb, succs[i]);
        ok := FillPhis(bb, succs[i]);
        if !ok {
          return;
        }
        progress := progress.(fills := progress.fills + [(bb, succs[i])]);
        EdgesSnoc(s0.fills, bb, succs, i);
        i := i + 1;
      }
      assert succs[..i] == succs;
      ok := true;
    }

    /** Step eight: take back the values this block has pushed. */
    method PopAll(bb: Block)
      requires ssa.CodeOk() && CodeIs(ssa, progress, code) && SigmaOk(ssa, progress)
      requires bb in ssa.t.up && bb in code && bb !in progress.finished
      requires SameStacks(varValStack, ssa.Out(bb).stack)
      modifies this`varValStack
      ensures SameStacks(varValStack, ssa.In(bb).stack) && varValStack.Keys == old(varValStack).Keys
    {
      ghost var p, body := ssa, ssa.Body(bb);
      SameLength(p, progress, bb, code);
      PopStart(p, bb);
      var i := 0;
      while i < |code[bb]|
        invariant 0 <= i <= |code[bb]| == |body|
        invariant PoppedTo(p, bb, i, varValStack) && varValStack.Keys == old(varValStack).Keys
      {
        var instr := code[bb][i];
        PopNext(p, progress, bb, i, code, varValStack);
        if StoresLocal(instr) {
          varValStack := Pop(varValStack, instr.args[1]);
        } else if instr.op.Phi? {
          varValStack := Pop(varValStack, instr.op.lval);
        }
        i := i + 1;
      }
      PopEnd(p, bb, varValStack);
    }

    method EraseIds(bb: Block, waitDelete: seq<nat>)
      requires bb in code
      modifies this`code
      ensures code == old(code)[bb := WithoutIds(old(code)[bb], Members(waitDelete))]
    {
      ghost var before := code[bb];
      WithoutNothing(before);
      var i := 0;
      assert Members(waitDelete[..0]) == {};
      while i < |waitDelete|
        invariant 0 <= i <= |waitDelete|
        invariant code == old(code)[bb := WithoutIds(before, Members(waitDelete[..i]))]
      {
        EraseOne(before, Members(waitDelete[..i]), waitDelete[i]);
        MembersNext(waitDelete, i);
        code := code[bb := EraseInstr(code[bb], waitDelete[i])];
        i := i + 1;
      }
      assert waitDelete[..i] == waitDelete;
    }

    method EraseAll(bb: Block, waitDelete: seq<nat>)
      requires ssa.CodeOk() && CodeIs(ssa, progress, code) && bb in code && bb !in progress.finished
      requires forall id :: id in waitDelete <==> DeletesId(ssa.Body(bb), id)
      modifies this`code, this`progress
      ensures progress == old(progress).(finished := old(progress).finished + {bb})
      ensures CodeIs(ssa, progress, code)
    {
      EraseIds(bb, waitDelete);
      FinishBlock(ssa, progress, old(code), bb, Members(waitDelete));
      progress := progress.(finished := progress.finished + {bb});
    }

    /** Steps three to five: the instructions of `bb`. */
    method RenameBody(bb: Block) returns (waitDelete: seq<nat>)
      requires Prepared() && InStep() && bb in ssa.t.up && bb in g.succ && bb !in progress.entered && progress.entered == VisitedBefore(ssa, address, bb)
      requires bb in ssa.base && PhisFirst(ssa.Body(bb)) && SameStacks(varValStack, ssa.In(bb).stack) && InResolved(ssa, progress, bb)
      modifies this`varValStack, this`code, this`progress
      ensures InStep() && SameStacks(varValStack, ssa.Out(bb).stack)
      ensures FillsOk(ssa, varValStack, g.succ[bb]) <==> !LateAt(g, ssa, address, bb)
      ensures progress == old(progress).(sigma := progress.sigma, entered := old(progress).entered + {bb})
      ensures Resolved(ssa, progress, bb) && Keeps(old(progress).sigma, progress.sigma)
      ensures forall id :: id in waitDelete <==> DeletesId(ssa.Body(bb), id)
    {
      ghost var p, s0 := ssa, progress;
      PushPhis(bb);
      waitDelete := RenameInstrs(bb);
      BlockEnded(g, p, address, s0, progress, bb, code, varValStack);
    }

    /** Steps three to six: the instructions of `bb`, and the phis behind it. */
    method RenameBlock(bb: Block) returns (ok: bool, waitDelete: seq<nat>)
      requires Prepared() && InStep() && ComesTo(ssa, address, progress, bb) && bb !in progress.entered
      requires SameStacks(varValStack, ssa.In(bb).stack)
      modifies this`varValStack, this`code, this`progress
      ensures ok <==> !LateAt(g, ssa, address, bb)
      ensures ok ==> InStep() && SameStacks(varValStack, ssa.Out(bb).stack)
      ensures ok ==> bb in code && bb in g.succ && bb !in progress.finished && BlockRenamed(g, ssa, old(progress), progress, bb)
      ensures ok ==> forall id :: id in waitDelete <==> DeletesId(ssa.Body(bb), id)
    {
      ghost var p, s0 := ssa, progress;
      BlockPresent(g, p, par, domTreeSucc, bb);
      waitDelete := RenameBody(bb);
      ghost var s1 := progress;
      ok := FillSuccessors(bb);
      if ok {
        SigmaFrame(p, s1, progress);
      }
    }

    /** Steps eight and nine: the stacks as they were, and nothing left of what was renamed away. */
    method LeaveBlock(bb: Block, waitDelete: seq<nat>)
      requires Prepared() && InStep() && bb in ssa.t.up && bb in code && bb !in progress.finished && bb in progress.entered
      requires SameStacks(varValStack, ssa.Out(bb).stack)
      requires forall id :: id in waitDelete <==> DeletesId(ssa.Body(bb), id)
      modifies this`varValStack, this`code, this`progress
      ensures InStep() && SameStacks(varValStack, ssa.In(bb).stack)
      ensures progress == old(progress).(finished := old(progress).finished + {bb})
    {
      ghost var p, s := ssa, progress;
      PopAll(bb);
      EraseAll(bb, waitDelete);
      SigmaFrame(p, s, progress);
    }

    /** Rename the subtree of the dominator tree under `bb`. Unless an assertion fails, which it does exactly if some edge
        of the subtree is late, the stacks come back as they were; every block of the subtree is renamed and erased exactly
        once, and every edge out of the subtree has fed the phis of its target exactly once. */
    method ReName(bb: Block) returns (ok: bool)
      requires Prepared() && InStep() && ComesTo(ssa, address, progress, bb)
      requires SameStacks(varValStack, ssa.In(bb).stack)
      modifies this`varValStack, this`code, this`progress
      ensures ok <==> NeverLate(g, ssa, address, Subtree(ssa, bb))
      ensures ok ==> InStep() && SameStacks(varValStack, ssa.In(bb).stack)
      ensures ok ==> Advanced(g, ssa, old(progress), progress, Subtree(ssa, bb))
      decreases ssa.t.id[bb], 3
    {
      ghost var p, graph, s0 := ssa, g, progress;
      BlockPresent(graph, p, par, domTreeSucc, bb);
      var waitDelete;
      ok, waitDelete := RenameBlock(bb);
      if !ok {
        assert bb in Subtree(p, bb);
        return;
      }
      ghost var s1 := progress;
      ghost var below;
      ok, below := RenameChildren(bb, s0);
      if !ok {
        return;
      }
      SubtreeDone(graph, p, s0, s1, progress, bb, below);
      LeaveBlock(bb, waitDelete);
    }

    /** Step seven: the children of `bb` in the dominator tree, in the order of their addresses. */
    method RenameChildren(bb: Block, ghost s0: Progress) returns (ok: bool, ghost below: set<Block>)
      requires Prepared() && InStep() && ComesTo(ssa, address, s0, bb) && progress.entered == s0.entered + {bb}
      requires SameStacks(varValStack, ssa.Out(bb).stack)
      requires Resolved(ssa, progress, bb)
      modifies this`varValStack, this`code, this`progress
      ensures Subtree(ssa, bb) == {bb} + below && bb !in below
      ensures ok <==> NeverLate(g, ssa, address, below)
      ensures ok ==> InStep() && SameStacks(varValStack, ssa.Out(bb).stack)
      ensures ok ==> Advanced(g, ssa, old(progress), progress, below) && Resolved(ssa, progress, bb)
      decreases ssa.t.id[bb], 2
    {
      var children := if bb in domTreeSucc then domTreeSucc[bb] else {};
      FamilyOf(g, ssa, par, domTreeSucc, address, progress, bb, children);
      below := Subtrees(ssa, children);
      ok := RenameAll(bb, children, s0);
    }

    /** The children one by one. */
    method RenameAll(bb: Block, children: set<Block>, ghost s0: Progress) returns (ok: bool)
      requires Prepared() && InStep() && ComesTo(ssa, address, s0, bb) && progress.entered == s0.entered + {bb}
      requires SameStacks(varValStack, ssa.Out(bb).stack)
      requires Family(ssa, bb, children) && ChildrenDone(g, ssa, address, progress, progress, bb, children, children)
      modifies this`varValStack, this`code, this`progress
      ensures ok <==> NeverLate(g, ssa, address, Subtrees(ssa, children))
      ensures ok ==> InStep() && SameStacks(varValStack, ssa.Out(bb).stack)
      ensures ok ==> Advanced(g, ssa, old(progress), progress, Subtrees(ssa, children)) && Resolved(ssa, progress, bb)
      decreases ssa.t.id[bb], 1
    {
      ghost var s1 := progress;
      var rest := children;
      while rest != {}
        invariant InStep() && SameStacks(varValStack, ssa.Out(bb).stack)
        invariant ChildrenDone(g, ssa, address, s1, progress, bb, children, rest)
        decreases rest
      {
        var d := First(address, rest);
        ghost var now := progress;
        ComeTo(g, ssa, address, s0, s1, now, bb, children, rest, d);
        ok := ReName(d);
        if !ok {
          NeverLateAdd(g, ssa, address, children, rest, d);
          return;
        }
        OneMoreDone(g, ssa, address, s0, s1, now, progress, bb, children, rest, d);
        rest := rest - {d};
      }
      AllDone(g, ssa, address, s1, progress, bb, children);
      ok := true;
    }

    // ----- generate_phi -----

    /** Step one: the local variables that are stored to, and the blocks that do so. */
    method CollectStores() returns (live2blocks: map<Value, set<Block>>)
      requires g.Valid() && code.Keys == g.pred.Keys
      ensures forall v, b :: b in Blocks(live2blocks, v) <==> b in StoreBlocks(code, v)
    {
      live2blocks := map[];
      var i := 0;
      while i < |g.blocks|
        invariant 0 <= i <= |g.blocks|
        invariant forall v, b :: b in Blocks(live2blocks, v) <==> b in g.blocks[..i] && b in code && StoresTo(code[b], v)
      {
        var bb := g.blocks[i];
        assert bb in g.blocks;
        ghost var before := live2blocks;
        var k := 0;
        while k < |code[bb]|
          invariant 0 <= k <= |code[bb]|
          invariant forall v, b :: b in Blocks(live2blocks, v) <==>
                      b in Blocks(before, v) || (b == bb && StoresTo(code[bb][..k], v))
        {
          var instr := code[bb][k];
          StoresToSplit(code[bb], k);
          if StoresLocal(instr) {
            live2blocks := live2blocks[instr.args[1] := Blocks(live2blocks, instr.args[1]) + {bb}];
          }
          k := k + 1;
        }
        assert code[bb][..k] == code[bb];
        assert g.blocks[..i + 1] == g.blocks[..i] + [bb];
        i := i + 1;
      }
      assert g.blocks[..i] == g.blocks;
    }

    ghost predicate Placing(code0: Code, has: set<(Block, Value)>)
      reads this
    {
      AllExtended(code0, code, has) && SitesOk(code, site) && IdsBelow(site, nextId)
    }

    method InsertPhi(f: Block, v: Value, ghost code0: Code, ghost has: set<(Block, Value)>)
      requires Placing(code0, has) && f in code && (f, v) !in has
      modifies this`code, this`nextId, this`site
      ensures Placing(code0, has + {(f, v)}) && code.Keys == old(code).Keys
    {
      var phi := NewPhi(nextId, v);
      InsertSites(code, site, f, phi);
      InsertExtends(code0, code, has, f, phi, v);
      code := code[f := [phi] + code[f]];
      site := Shifted(site, f, phi.id);
      nextId := nextId + 1;
    }

    /** Step two for one variable: the worklist over dominance frontiers. */
    method PlacePhis(v: Value, defs: set<Block>, has: set<(Block, Value)>, ghost code0: Code) returns (has': set<(Block, Value)>)
      requires Placing(code0, has) && PhiBlocks(has, v) == {}
      requires forall x :: D.At(domFrontier, x) <= code.Keys
      modifies this`code, this`nextId, this`site
      ensures Placing(code0, has') && code.Keys == old(code).Keys
      ensures OnlyFor(v, has, has')
      ensures IteratedFrontier(domFrontier, defs, PhiBlocks(has', v))
    {
      has' := has;
      var workList := ListOf(defs);
      ghost var keys := code.Keys;
      var i := 0;
      while i < |workList|
        invariant Placing(code0, has') && code.Keys == keys
        invariant OnlyFor(v, has, has')
        invariant Iterating(domFrontier, defs, PhiBlocks(has', v), workList, i)
        invariant PhiBlocks(has', v) <= keys
        decreases keys - PhiBlocks(has', v), |workList| - i
      {
        has', workList := VisitFrontier(i, v, defs, workList, has', code0);
        i := i + 1;
      }
      IterationDone(domFrontier, defs, PhiBlocks(has', v), workList);
    }

    /** One entry of the worklist: give a phi to every block of its frontier that has none. */
    method VisitFrontier(i: nat, v: Value, defs: set<Block>, workList: seq<Block>, has: set<(Block, Value)>, ghost code0: Code)
      returns (has': set<(Block, Value)>, workList': seq<Block>)
      requires Placing(code0, has) && PhiBlocks(has, v) <= code.Keys
      requires i < |workList| && Iterating(domFrontier, defs, PhiBlocks(has, v), workList, i)
      requires D.At(domFrontier, workList[i]) <= code.Keys
      modifies this`code, this`nextId, this`site
      ensures Placing(code0, has') && code.Keys == old(code).Keys
      ensures OnlyFor(v, has, has')
      ensures Iterating(domFrontier, defs, PhiBlocks(has', v), workList', i + 1)
      ensures PhiBlocks(has, v) <= PhiBlocks(has', v) <= code.Keys
      ensures workList' == workList || PhiBlocks(has, v) < PhiBlocks(has', v)
    {
      has', workList' := has, workList;
      ghost var keys := code.Keys;
      var bb := workList[i];
      var rest := D.At(domFrontier, bb);
      while rest != {}
        invariant rest <= D.At(domFrontier, bb)
        invariant Placing(code0, has') && code.Keys == keys
        invariant OnlyFor(v, has, has')
        invariant i < |workList'| && workList'[i] == bb
        invariant Iterating(domFrontier, defs, PhiBlocks(has', v), workList', i)
        invariant PhiBlocks(has, v) <= PhiBlocks(has', v) <= keys
        invariant workList' == workList || PhiBlocks(has, v) < PhiBlocks(has', v)
        invariant D.At(domFrontier, bb) - rest <= PhiBlocks(has', v)
        decreases rest
      {
        var f :| f in rest;
        PhiBlocksAdd(has', f, v);
        if (f, v) !in has' {
          IterationStep(domFrontier, defs, PhiBlocks(has', v), workList', i, f);
          InsertPhi(f, v, code0, has');
          has' := has' + {(f, v)};
          workList' := workList' + [f];
        }
        rest := rest - {f};
      }
    }

    method GeneratePhi() returns (ghost has: set<(Block, Value)>)
      requires g.Valid() && code.Keys == g.pred.Keys && SitesOk(code, site) && IdsBelow(site, nextId)
      requires forall x :: D.At(domFrontier, x) <= code.Keys
      modifies this`code, this`nextId, this`site
      ensures AllExtended(old(code), code, has) && SitesOk(code, site)
      ensures forall v :: PlacedFor(domFrontier, old(code), has, v)
    {
      ghost var code0 := code;
      var live2blocks := CollectStores();
      var bbHasVarPhi: set<(Block, Value)> := {};
      has := {};
      NothingExtended(code0);
      var rest := live2blocks.Keys;
      forall v | v !in rest
        ensures PlacedFor(domFrontier, code0, has, v)
      {
        assert Blocks(live2blocks, v) == {};
        NothingPlaced(domFrontier, code0, v);
      }
      while rest != {}
        invariant rest <= live2blocks.Keys
        invariant Placing(code0, has) && code.Keys == code0.Keys && has == bbHasVarPhi
        invariant forall v :: v in rest ==> PhiBlocks(has, v) == {}
        invariant forall v {:trigger PlacedFor(domFrontier, code0, has, v)} :: v !in rest ==> PlacedFor(domFrontier, code0, has, v)
        decreases rest
      {
        var v :| v in rest;
        assert Blocks(live2blocks, v) == StoreBlocks(code0, v);
        ghost var before := has;
        bbHasVarPhi := PlacePhis(v, live2blocks[v], bbHasVarPhi, code0);
        has := bbHasVarPhi;
        forall u | u !in rest
          ensures PlacedFor(domFrontier, code0, has, u)
        {
          assert PlacedFor(domFrontier, code0, before, u);
          assert PhiBlocks(has, u) == PhiBlocks(before, u);
        }
        rest := rest - {v};
      }
    }

    // ----- remove_alloca -----

    method RemoveScalars(bb: Block)
      requires bb in code
      modifies this`code
      ensures code == old(code)[bb := WithoutScalars(old(code)[bb])]
    {
      ghost var body := code[bb];
      ghost var k := 0;
      assert body[..0] == [];
      var i := 0;
      while i < |code[bb]|
        invariant bb in code && code == old(code)[bb := code[bb]]
        invariant ScalarsRemoved(body, k, code[bb], i)
        decreases |body| - k
      {
        RemoveNext(body, k, code[bb], i);
        if code[bb][i].op == Alloca(true) {
          code := code[bb := code[bb][..i] + code[bb][i + 1..]];
        } else {
          i := i + 1;
        }
        k := k + 1;
      }
      assert body[..k] == body && code[bb][..i] == code[bb];
    }

    method RemoveAlloca()
      requires g.Valid() && code.Keys == g.pred.Keys
      modifies this`code
      ensures Cleared(old(code), code, g.blocks)
    {
      ghost var before := code;
      NothingCleared(before);
      var i := 0;
      while i < |g.blocks|
        invariant 0 <= i <= |g.blocks|
        invariant Cleared(before, code, g.blocks[..i])
      {
        assert g.blocks[i] in g.blocks;
        assert g.blocks[..i + 1] == g.blocks[..i] + [g.blocks[i]];
        ClearOne(before, code, g.blocks[..i], g.blocks[i]);
        RemoveScalars(g.blocks[i]);
        i := i + 1;
      }
      assert g.blocks[..i] == g.blocks;
    }

    // ----- the pass -----

    /** The dominator analysis and the placement of phis. */
    method PlaceAll() returns (ghost w: Build)
      requires g.Valid() && LivePreds(g) && NoEntryPred(g)
      requires InputOk(g, code, site) && IdsBelow(site, nextId)
      modifies this`code, this`nextId, this`site, this`domFrontier, this`domTreeSucc, this`par, this`ssa
      ensures w.Ok() && w.g == g && w.code0 == old(code) && w.p == ssa && w.par == par && w.p.base == code
      ensures TreeIs(w, domTreeSucc)
    {
      ghost var code0, site0 := code, site;
      var dominators := new D.Dominators(g);
      dominators.Run();
      domFrontier, domTreeSucc := dominators.domFrontier, dominators.domTreeSucc;
      ghost var t := dominators.Idoms();
      par := dominators.par;
      FrontierInGraph(g, t, domFrontier);
      ghost var has := GeneratePhi();
      ssa := Ssa(t, code, site);
      w := Build(g, par, domFrontier, code0, site0, has, ssa);
      forall x, y
        ensures IsChild(domTreeSucc, x, y) <==> y in t.up && y != t.root && t.up[y] == x
      {
        assert IsChild(domTreeSucc, x, y) <==> y in D.At(domTreeSucc, x);
      }
    }

    /** Mem2Reg on one function. It gets through exactly if no assertion fails; then every run stays the same, and every
        reachable block is promoted. */
    method Run() returns (ok: bool)
      requires g.Valid() && LivePreds(g) && NoEntryPred(g) && Injective(address)
      requires InputOk(g, code, site) && IdsBelow(site, nextId) && LoadsSafe(g, code)
      modifies this
      ensures ok <==> !AssertFails(g, old(code), address)
      ensures ok ==> forall m: Machine, from: Block, s0: State, fuel: nat ::
                Running.Run(m, code, from, g.Entry(), s0, fuel) == Running.Run(m, old(code), from, g.Entry(), s0, fuel)
      ensures ok ==> forall b :: Reachable(g, b) ==> Promoted(g, old(code), code, b)
    {
      ghost var w := PlaceAll();
      ok := ReNameAll(w);
      if ok {
        Finish(w);
      }
    }

    /** Renaming from the entry, with empty stacks. */
    method ReNameAll(ghost w: Build) returns (ok: bool)
      requires w.Ok() && LoadsSafe(w.g, w.code0) && TreeIs(w, domTreeSucc) && Injective(address)
      requires w.g == g && w.p == ssa && w.par == par && w.p.base == code
      modifies this`varValStack, this`code, this`progress
      ensures ok <==> !AssertFails(g, w.code0, address)
      ensures ok ==> Renamed(w, progress) && CodeIs(w.p, progress, code) && w.p.t.up.Keys <= progress.finished
    {
      ghost var start := Progress(map[], [], {}, {});
      Started(w, start, address, domTreeSucc);
      WholeTreeLate(w, address);
      ok := ReNameTree(start);
      if ok {
        AllRenamed(w, start, progress);
      }
    }

    method ReNameTree(ghost start: Progress) returns (ok: bool)
      requires Prepared() && start == Progress(map[], [], {}, {}) && CodeIs(ssa, start, code) && SigmaOk(ssa, start)
      requires ComesTo(ssa, address, start, g.Entry()) && SameStacks(map[], ssa.In(g.Entry()).stack) && Keyed(ssa, map[], {})
      modifies this`varValStack, this`code, this`progress
      ensures ok <==> NeverLate(g, ssa, address, Subtree(ssa, g.Entry()))
      ensures ok ==> CodeIs(ssa, progress, code) && SigmaOk(ssa, progress) && Advanced(g, ssa, start, progress, Subtree(ssa, g.Entry()))
    {
      varValStack := map[];
      progress := start;
      ok := ReName(g.Entry());
    }

    /** The scalars are removed, and the code is what it has to be. */
    method Finish(ghost w: Build)
      requires Renamed(w, progress) && LoadsSafe(w.g, w.code0) && CodeIs(w.p, progress, code)
      requires w.g == g && w.p.t.up.Keys <= progress.finished
      modifies this`code
      ensures forall m: Machine, from: Block, s0: State, fuel: nat ::
                Running.Run(m, code, from, g.Entry(), s0, fuel) == Running.Run(m, w.code0, from, g.Entry(), s0, fuel)
      ensures forall b :: Reachable(g, b) ==> Promoted(g, w.code0, code, b)
    {
      ghost var renamed := code;
      RemoveAlloca();
      Finished(w, progress, renamed, code);
      forall m: Machine, from: Block, s0: State, fuel: nat
        ensures Running.Run(m, code, from, g.Entry(), s0, fuel) == Running.Run(m, w.code0, from, g.Entry(), s0, fuel)
      {
        RenamingPreserves(w, progress, m, code, from, s0, fuel);
      }
      forall b | Reachable(g, b)
        ensures Promoted(g, w.code0, code, b)
      {
        FinalPromoted(w, progress, code, b);
      }
    }
  }

  ghost predicate ClearedAt(before: Code, code: Code, done: seq<Block>, b: Block) {
    b in before && b in code && code[b] == if b in done then WithoutScalars(before[b]) else before[b]
  }

  ghost predicate Cleared(before: Code, code: Code, done: seq<Block>) {
    code.Keys == before.Keys && forall b {:trigger ClearedAt(before, code, done, b)} :: b in code ==> ClearedAt(before, code, done, b)
  }

  lemma NothingCleared(code: Code)
    ensures Cleared(code, code, [])
  {
    forall b | b in code
      ensures ClearedAt(code, code, [], b)
    {
    }
  }

  lemma ClearOne(before: Code, code: Code, done: seq<Block>, bb: Block)
    requires Cleared(before, code, done) && bb in code
    ensures Cleared(before, code[bb := WithoutScalars(code[bb])], done + [bb])
  {
    var code' := code[bb := WithoutScalars(code[bb])];
    forall b | b in code'
      ensures ClearedAt(before, code', done + [bb], b)
    {
      assert ClearedAt(before, code, done, b);
      WithoutScalarsTwice(before[b]);
    }
  }

  ghost predicate TreeIs(w: Build, children: map<Block, set<Block>>) {
    forall x, y {:trigger IsChild(children, x, y)} :: IsChild(children, x, y) <==> y in w.p.t.up && y != w.p.t.root && w.p.t.up[y] == x
  }

  lemma FrontierInGraph(g: Graph, t: Tree, df: map<Block, set<Block>>)
    requires g.Valid() && t.Ok() && forall x, y :: y in D.At(df, x) <==> Climbs(g, t, x, y)
    ensures forall x :: D.At(df, x) <= g.pred.Keys
  {
  }

  /** The state in which renaming starts. */
  lemma Started(w: Build, s: Progress, address: Block -> int, children: map<Block, set<Block>>)
    requires w.Ok() && LoadsSafe(w.g, w.code0) && s == Progress(map[], [], {}, {})
    requires TreeIs(w, children)
    ensures Ready(w.g, w.p, w.par, children) && CodeIs(w.p, s, w.p.base) && SigmaOk(w.p, s)
    ensures ComesTo(w.p, address, s, w.g.Entry()) && SameStacks(map[], w.p.In(w.g.Entry()).stack) && Keyed(w.p, map[], {})
  {
    var p := w.p;
    w.BaseOk();
    LoadsAreFed(w);
    EntryReachable(w.g);
    forall b | b in p.base
      ensures PhisFirst(p.Body(b))
    {
      w.SplitBlock(b);
      assert PhiPrefix(p.Body(b), w.N(b));
    }
    forall b | b in p.base
      ensures BlockIs(p, s, p.base, b)
    {
      forall k | 0 <= k < |p.Body(b)|
        ensures Target(p, s, b, p.Body(b)[k]) == p.Body(b)[k]
      {
        assert p.InstrOk(b, k);
        assert SubAll(map[], p.Body(b)[k].args) == p.Body(b)[k].args;
      }
      assert TargetBody(p, s, b) == p.Body(b);
    }
  }

  lemma WholeTreeLate(w: Build, address: Block -> int)
    requires w.Ok()
    ensures NeverLate(w.g, w.p, address, Subtree(w.p, w.g.Entry())) <==> !AssertFails(w.g, w.code0, address)
  {
    WholeTree(w.p);
    LateIffFails(w, address);
  }

  lemma WholeTree(p: Ssa)
    requires p.t.Ok()
    ensures Subtree(p, p.t.root) == p.t.up.Keys
  {
    forall b | b in p.t.up
      ensures p.t.Anc(b, p.t.root)
    {
      AncRoot(p.t, b);
    }
  }

  lemma AllAdvanced(g: Graph, p: Ssa, s0: Progress, s: Progress)
    requires p.t.Ok() && s0.fills == [] && Advanced(g, p, s0, s, p.t.up.Keys)
    ensures forall e {:trigger multiset(s.fills)[e]} :: multiset(s.fills)[e] == EdgeCount(g, p.t.up.Keys, e)
    ensures forall c {:trigger Resolved(p, s, c)} :: c in p.t.up ==> Resolved(p, s, c)
  {
    forall e
      ensures multiset(s.fills)[e] == EdgeCount(g, p.t.up.Keys, e)
    {
      assert multiset(s.fills)[e] == multiset(s0.fills)[e] + EdgeCount(g, p.t.up.Keys, e);
    }
  }

  lemma AllRenamed(w: Build, s0: Progress, s: Progress)
    requires w.Ok() && LoadsSafe(w.g, w.code0) && s0.fills == [] && SigmaOk(w.p, s)
    requires Advanced(w.g, w.p, s0, s, Subtree(w.p, w.g.Entry()))
    ensures Renamed(w, s) && w.p.t.up.Keys <= s.finished
  {
    w.BaseOk();
    LoadsAreFed(w);
    WholeTree(w.p);
    AllAdvanced(w.g, w.p, s0, s);
  }

  lemma Finished(w: Build, s: Progress, renamed: Code, code: Code)
    requires w.Ok() && CodeIs(w.p, s, renamed) && w.p.t.up.Keys <= s.finished
    requires Cleared(renamed, code, w.g.blocks)
    ensures FinalCode(w, s, code)
  {
    forall b | b in code && b in w.p.t.up
      ensures code[b] == FinalBody(w, s, b)
    {
      assert BlockIs(w.p, s, renamed, b) && ClearedAt(renamed, code, w.g.blocks, b);
      w.SplitReachable(b);
      assert b in w.g.pred && b in w.g.blocks;
      KeptWithoutScalars(w.p.Body(b), TargetBody(w.p, s, b));
    }
  }
}
