/**
  When an address that the purity analysis takes for one into a local variable can only be
  one into a local variable.
 */
module Addresses {
  import opened Cfg
  import opened Ir
  import opened Program
  import opened Options
  import opened FuncInfo
  import opened Purity

  /** Addresses are local variables, elements of addresses, and phis of addresses. */
  ghost predicate Typed(f: Func) {
    forall id {:trigger f.Defs()[id]} :: id in f.Defs() ==> TypedInst(f, f.Defs()[id], id)
  }

  ghost predicate TypedInst(f: Func, i: Instr, id: nat) {
    match i.op
    case Alloca(_) => true
    case Gep => i.args != [] && IsAddress(f, i.args[0])
    case Phi(_) => if id in f.pointers then i.args != [] && AllAddresses(f, i.args) else NoAddresses(f, i.args)
    case _ => id !in f.pointers
  }

  ghost predicate AllAddresses(f: Func, vs: seq<Value>) {
    forall v {:trigger v in vs} :: v in vs ==> IsAddress(f, v)
  }

  ghost predicate NoAddresses(f: Func, vs: seq<Value>) {
    forall v {:trigger v in vs} :: v in vs ==> !IsAddress(f, v)
  }

  /** What `v` is computed from, if it is an element address or a phi. */
  function Sources(f: Func, v: Value): seq<Value> {
    if v.Result? && v.id in f.Defs() then
      match f.Defs()[v.id].op
      case Gep => if f.Defs()[v.id].args == [] then [] else f.Defs()[v.id].args[..1]
      case Phi(_) => f.Defs()[v.id].args
      case _ => []
    else []
  }

  ghost predicate Comes(f: Func, c: seq<Value>) {
    c != [] && forall k {:trigger Link(f, c, k)} :: 0 <= k < |c| - 1 ==> Link(f, c, k)
  }

  ghost predicate Link(f: Func, c: seq<Value>, k: nat)
    requires k + 1 < |c|
  {
    c[k + 1] in Sources(f, c[k])
  }

  /** Wherever the address comes from, along any path through elements and phis, it is a local variable there. */
  ghost predicate OnlyLocals(f: Func, v: Value) {
    forall c {:trigger Comes(f, c)} :: Comes(f, c) && c[0] == v && Sources(f, c[|c| - 1]) == [] ==> IsAlloca(f, c[|c| - 1])
  }

  /** The analysis is right about the address. */
  ghost predicate RightAbout(f: Func, v: Value)
    requires Ordered(f)
  {
    IsAddress(f, v) ==> (IsRooted(f, v) <==> OnlyLocals(f, v))
  }

  lemma SourceRooted(f: Func, v: Value, u: Value)
    requires Ordered(f) && Typed(f) && PhisRooted(f) && IsRooted(f, v) && IsAddress(f, v) && u in Sources(f, v)
    ensures IsRooted(f, u) && IsAddress(f, u)
  {
    var i := f.Defs()[v.id];
    assert TypedInst(f, i, v.id);
    if i.op.Phi? {
      KindDoesNotMatter(f, v.id, v.kind, OtherInst);
      assert PhiArg(f, v.id, u);
    }
  }

  lemma {:induction false} AllRooted(f: Func, c: seq<Value>)
    requires Ordered(f) && Typed(f) && PhisRooted(f) && Comes(f, c) && IsRooted(f, c[0]) && IsAddress(f, c[0])
    ensures IsRooted(f, c[|c| - 1]) && IsAddress(f, c[|c| - 1])
    decreases |c|
  {
    if |c| > 1 {
      var front := c[..|c| - 1];
      forall k | 0 <= k < |front| - 1
        ensures Link(f, front, k)
      {
        assert Link(f, c, k);
      }
      AllRooted(f, front);
      assert Link(f, c, |c| - 2);
      SourceRooted(f, c[|c| - 2], c[|c| - 1]);
    }
  }

  lemma RootedSource(f: Func, v: Value)
    requires Ordered(f) && Typed(f) && IsRooted(f, v) && IsAddress(f, v) && Sources(f, v) == []
    ensures IsAlloca(f, v)
  {
    if v.Result? && v.id in f.Defs() {
      assert TypedInst(f, f.Defs()[v.id], v.id);
    }
  }

  lemma ComesFrom(f: Func, v: Value, u: Value, c: seq<Value>)
    requires Comes(f, c) && c[0] == u && u in Sources(f, v)
    ensures Comes(f, [v] + c) && ([v] + c)[|c|] == c[|c| - 1]
  {
    var d := [v] + c;
    forall k | 0 <= k < |d| - 1
      ensures Link(f, d, k)
    {
      if k > 0 {
        var j := k - 1;
        assert Link(f, c, j);
      }
    }
  }

  lemma OnlyLocalsDown(f: Func, v: Value, u: Value)
    requires OnlyLocals(f, v) && u in Sources(f, v)
    ensures OnlyLocals(f, u)
  {
    forall c | Comes(f, c) && c[0] == u && Sources(f, c[|c| - 1]) == []
      ensures IsAlloca(f, c[|c| - 1])
    {
      ComesFrom(f, v, u, c);
      assert ([v] + c)[0] == v;
    }
  }

  /** The analysis never overlooks that an address is into a local variable. */
  lemma {:induction false} OnlyLocalsRooted(f: Func, v: Value)
    requires Ordered(f) && Typed(f) && IsAddress(f, v) && OnlyLocals(f, v)
    ensures IsRooted(f, v)
    decreases if v.Result? then v.id + 1 else 0
  {
    if Sources(f, v) == [] {
      assert Comes(f, [v]) && [v][0] == v;
    } else {
      var i := f.Defs()[v.id];
      assert TypedInst(f, i, v.id);
      var u := i.args[0];
      assert u in Sources(f, v) && Base(f, i) == Some(u);
      OnlyLocalsDown(f, v, u);
      OnlyLocalsRooted(f, u);
    }
  }

  /** The analysis takes an address for one into a local variable exactly if it can be nothing else, for all addresses of
      a function, if and only if the phis of addresses that it takes for local have only such operands. */
  lemma LocalIffRooted(f: Func)
    requires Ordered(f) && Typed(f)
    ensures PhisRooted(f) <==> forall v {:trigger RightAbout(f, v)} :: RightAbout(f, v)
  {
    if PhisRooted(f) {
      forall v
        ensures RightAbout(f, v)
      {
        RootedIsRight(f, v);
      }
    }
    if forall v {:trigger RightAbout(f, v)} :: RightAbout(f, v) {
      forall id, v | PhiArg(f, id, v) && IsRooted(f, Result(id, OtherInst))
        ensures v.ConstantInt? || IsRooted(f, v)
      {
        RightIsRooted(f, id, v);
      }
    }
  }

  lemma RootedIsRight(f: Func, v: Value)
    requires Ordered(f) && Typed(f) && PhisRooted(f)
    ensures RightAbout(f, v)
  {
    if IsAddress(f, v) && IsRooted(f, v) {
      forall c | Comes(f, c) && c[0] == v && Sources(f, c[|c| - 1]) == []
        ensures IsAlloca(f, c[|c| - 1])
      {
        AllRooted(f, c);
        RootedSource(f, c[|c| - 1]);
      }
    }
    if IsAddress(f, v) && OnlyLocals(f, v) {
      OnlyLocalsRooted(f, v);
    }
  }

  lemma RightIsRooted(f: Func, id: nat, v: Value)
    requires Ordered(f) && Typed(f) && PhiArg(f, id, v) && IsRooted(f, Result(id, OtherInst))
    requires RightAbout(f, v) && RightAbout(f, Result(id, OtherInst))
    ensures IsRooted(f, v)
  {
    assert TypedInst(f, f.Defs()[id], id);
    assert Base(f, f.Defs()[id]).Some?;
    assert v in Sources(f, Result(id, OtherInst));
    OnlyLocalsDown(f, Result(id, OtherInst), v);
  }

  // ----- what this says about functions -----

  /** An access to memory that can be to something other than a local variable. */
  ghost predicate MayGoOutside(f: Func, i: Instr) {
    || (i.op.Load? && (|i.args| != 1 || !OnlyLocals(f, i.args[0])))
    || (i.op.Store? && (|i.args| != 2 || !OnlyLocals(f, i.args[1])))
  }

  /** Loads and stores go to addresses. */
  ghost predicate Addressed(f: Func) {
    forall b: Block, k: nat {:trigger f.At(b, k)} :: f.At(b, k) ==>
      && (f.code[b][k].op.Load? && |f.code[b][k].args| == 1 ==> IsAddress(f, f.code[b][k].args[0]))
      && (f.code[b][k].op.Store? && |f.code[b][k].args| == 2 ==> IsAddress(f, f.code[b][k].args[1]))
  }

  ghost predicate StaysInside(f: Func) {
    && f.blocks != [] && f.name != "main" && (forall k :: 0 <= k < |f.scalar| ==> f.scalar[k])
    && forall b: Block, k: nat {:trigger f.At(b, k)} :: f.At(b, k) ==> !MayGoOutside(f, f.code[b][k])
  }

  /** What can only be to a local variable is never taken for anything else. */
  lemma InsideHasNoEffect(f: Func)
    requires Ordered(f) && Typed(f) && Addressed(f) && StaysInside(f)
    ensures !HasOwnEffect(f)
  {
    forall b: Block, k: nat | f.At(b, k)
      ensures !GoesOutside(f, f.code[b][k])
    {
      var i := f.code[b][k];
      assert !MayGoOutside(f, i);
      if i.op.Load? {
        OnlyLocalsRooted(f, i.args[0]);
        RootedIffFromAlloca(f, i.args[0]);
      } else if i.op.Store? {
        OnlyLocalsRooted(f, i.args[1]);
        RootedIffFromAlloca(f, i.args[1]);
      }
    }
  }

  /** And with rooted phis that is all that is taken for local. */
  lemma NoEffectIffInside(f: Func)
    requires Ordered(f) && Typed(f) && Addressed(f) && PhisRooted(f)
    ensures !HasOwnEffect(f) <==> StaysInside(f)
  {
    if StaysInside(f) {
      InsideHasNoEffect(f);
    }
    if !HasOwnEffect(f) {
      forall b: Block, k: nat | f.At(b, k)
        ensures !MayGoOutside(f, f.code[b][k])
      {
        var i := f.code[b][k];
        assert !GoesOutside(f, i);
        if i.op.Load? {
          RootedIffFromAlloca(f, i.args[0]);
          RootedIsRight(f, i.args[0]);
        } else if i.op.Store? {
          RootedIffFromAlloca(f, i.args[1]);
          RootedIsRight(f, i.args[1]);
        }
      }
    }
  }

  /** A set of functions that call only each other and touch only local variables. */
  ghost predicate SelfContained(p: Prog, fs: set<nat>) {
    && (forall f {:trigger f in fs} :: f in fs ==> f in p && Ordered(p[f]) && Typed(p[f]) && Addressed(p[f]) && StaysInside(p[f]))
    && (forall g, h {:trigger CallsOne(p, g, h)} :: g in fs && CallsOne(p, g, h) ==> h in fs)
  }

  /** Functions like that are pure for the analysis. */
  lemma {:induction false} SelfContainedIsPure(p: Prog, fs: set<nat>, f: nat)
    requires SelfContained(p, fs) && f in fs
    ensures !LeadsToEffect(p, f)
  {
    forall c | CallChain(p, c) && c[0] == f
      ensures c[|c| - 1] in fs && c[|c| - 1] in p && !HasOwnEffect(p[c[|c| - 1]])
    {
      StaysContained(p, fs, c);
      InsideHasNoEffect(p[c[|c| - 1]]);
    }
  }

  lemma {:induction false} StaysContained(p: Prog, fs: set<nat>, c: seq<nat>)
    requires SelfContained(p, fs) && CallChain(p, c) && c[0] in fs
    ensures c[|c| - 1] in fs
    decreases |c|
  {
    if |c| > 1 {
      var d := c[..|c| - 1];
      forall k | 0 <= k < |d| - 1
        ensures CallsAt(p, d, k)
      {
        assert CallsAt(p, c, k);
      }
      StaysContained(p, fs, d);
      assert CallsAt(p, c, |c| - 2);
    }
  }
}
