/**
  Which functions are pure: all are, except those with an effect of their own and
  those that call, directly or not, one that has.
 */
module FuncInfo {
  import opened Cfg
  import opened Ir
  import opened Options
  import opened Program
  import opened Spreading

  // ----- addresses -----

  predicate IsAddress(f: Func, v: Value) {
    match v
    case ConstantInt(_) => false
    case Argument(k) => k < |f.scalar| && !f.scalar[k]
    case GlobalVariable(_) => true
    case Result(id, _) => id in f.pointers
  }

  function FirstAddress(f: Func, args: seq<Value>): (r: Option<Value>)
    ensures r.Some? ==> r.value in args && IsAddress(f, r.value)
    ensures r.None? ==> forall v :: v in args ==> !IsAddress(f, v)
  {
    if args == [] then None
    else if IsAddress(f, args[0]) then Some(args[0])
    else FirstAddress(f, args[1..])
  }

  /** What the address computed by an instruction is an address into, if that is another value. */
  function Base(f: Func, i: Instr): Option<Value> {
    match i.op
    case Alloca(_) => None
    case Load => None
    case Gep => if i.args == [] then None else Some(i.args[0])
    case _ => FirstAddress(f, i.args)
  }

  /** Addresses are computed from values that were created before. */
  ghost predicate Ordered(f: Func) {
    forall id {:trigger f.Defs()[id]} :: id in f.Defs() && Base(f, f.Defs()[id]).Some? && Base(f, f.Defs()[id]).value.Result? ==>
      Base(f, f.Defs()[id]).value.id < id
  }

  /** `get_first_addr`: follow an address back to the value it is an address into. */
  function GetFirstAddr(f: Func, v: Value): Value
    requires Ordered(f)
    decreases if v.Result? then v.id + 1 else 0
  {
    if v.Result? && v.id in f.Defs() then
      match Base(f, f.Defs()[v.id])
      case None => v
      case Some(base) => GetFirstAddr(f, base)
    else v
  }

  /** `addr && addr->is_alloca()` for the first address of `v`. */
  predicate IsRooted(f: Func, v: Value)
    requires Ordered(f)
  {
    var addr := GetFirstAddr(f, v);
    addr.Result? && addr.id in f.Defs() && f.Defs()[addr.id].op.Alloca?
  }

  // ----- functions with an effect of their own -----

  predicate IsSideEffectInst(f: Func, i: Instr)
    requires Ordered(f)
  {
    match i.op
    case Store => |i.args| != 2 || !IsRooted(f, i.args[1])
    case Load => |i.args| != 1 || !IsRooted(f, i.args[0])
    case _ => false
  }

  predicate HasArrayParam(f: Func) {
    false in f.scalar
  }

  ghost predicate TriviallyImpure(f: Func)
    requires Ordered(f)
  {
    f.IsDeclaration() || f.name == "main" || HasArrayParam(f) ||
    exists b: Block, k: nat :: f.At(b, k) && IsSideEffectInst(f, f.code[b][k])
  }

  ghost predicate AllOrdered(p: Prog) {
    forall f {:trigger p[f]} :: f in p ==> p[f].Ok() && Ordered(p[f])
  }

  // ----- calls -----

  ghost predicate Calls(p: Prog, g: nat, f: nat) {
    g in p && exists b: Block, k: nat :: p[g].At(b, k) && p[g].code[b][k].op == Call(f)
  }

  /** The functions with an effect of their own. */
  ghost function Bad(p: Prog): set<nat>
    requires AllOrdered(p)
  {
    set f | f in p && TriviallyImpure(p[f])
  }

  ghost function CallEdges(p: Prog): Edges {
    set g, f | g in p.Keys && f in p.Keys && Calls(p, g, f) :: (g, f)
  }

  /** `uses[f]` is the use list of `f`: one entry, the calling function, for each call of it. */
  ghost predicate UsesOk(calls: Edges, uses: map<nat, seq<nat>>) {
    forall g, f {:trigger (g, f) in calls} :: f in uses ==> (g in uses[f] <==> (g, f) in calls)
  }

  /** The functions marked impure. */
  function Impure(isPure: map<nat, bool>): set<nat> {
    set f | f in isPure && !isPure[f]
  }

  function Pure(isPure: map<nat, bool>): set<nat> {
    set f | f in isPure && isPure[f]
  }

  lemma MarkOne(isPure: map<nat, bool>, f: nat)
    requires f in isPure && isPure[f]
    ensures Impure(isPure[f := false]) == Impure(isPure) + {f}
    ensures |Pure(isPure[f := false])| == |Pure(isPure)| - 1
  {
    assert Pure(isPure) == Pure(isPure[f := false]) + {f};
  }

  // ----- the same by operations alone -----

  /** Operand `k` is the first that is an address. */
  ghost predicate FirstAddressAt(f: Func, args: seq<Value>, k: nat) {
    k < |args| && IsAddress(f, args[k]) && forall j :: 0 <= j < k ==> !IsAddress(f, args[j])
  }

  /** `v` is an element of `u`, or is computed from `u` as its first address; allocas and loads are computed from no address. */
  ghost predicate LeadsTo(f: Func, v: Value, u: Value) {
    v.Result? && v.id in f.Defs() && var i := f.Defs()[v.id];
    if i.op.Gep? then i.args != [] && u == i.args[0]
    else !i.op.Alloca? && !i.op.Load? && exists k: nat :: FirstAddressAt(f, i.args, k) && i.args[k] == u
  }

  ghost predicate LeadsAt(f: Func, c: seq<Value>, k: nat)
    requires k + 1 < |c|
  {
    LeadsTo(f, c[k], c[k + 1])
  }

  ghost predicate Followed(f: Func, c: seq<Value>) {
    c != [] && forall k {:trigger LeadsAt(f, c, k)} :: 0 <= k < |c| - 1 ==> LeadsAt(f, c, k)
  }

  predicate IsAlloca(f: Func, v: Value) {
    v.Result? && v.id in f.Defs() && f.Defs()[v.id].op.Alloca?
  }

  /** Followed back, `v` is an address into a local variable. */
  ghost predicate FromAlloca(f: Func, v: Value) {
    exists c {:trigger Followed(f, c)} :: Followed(f, c) && c[0] == v && IsAlloca(f, c[|c| - 1])
  }

  lemma {:induction false} FirstAddressIs(f: Func, args: seq<Value>, k: nat)
    requires FirstAddressAt(f, args, k)
    ensures FirstAddress(f, args) == Some(args[k])
  {
    if k > 0 {
      assert !IsAddress(f, args[0]);
      forall j | 0 <= j < k - 1
        ensures !IsAddress(f, args[1..][j])
      {
        assert args[1..][j] == args[j + 1];
      }
      FirstAddressIs(f, args[1..], k - 1);
    }
  }

  lemma {:induction false} FirstAddressFound(f: Func, args: seq<Value>) returns (k: nat)
    requires FirstAddress(f, args).Some?
    ensures FirstAddressAt(f, args, k) && FirstAddress(f, args) == Some(args[k])
  {
    if IsAddress(f, args[0]) {
      k := 0;
    } else {
      k := FirstAddressFound(f, args[1..]);
      k := k + 1;
      forall j | 0 <= j < k
        ensures !IsAddress(f, args[j])
      {
        assert j > 0 ==> args[j] == args[1..][j - 1];
      }
    }
  }

  lemma LeadsIsBase(f: Func, v: Value, u: Value)
    requires v.Result? && v.id in f.Defs()
    ensures LeadsTo(f, v, u) <==> Base(f, f.Defs()[v.id]) == Some(u)
  {
    var i := f.Defs()[v.id];
    if !i.op.Gep? && !i.op.Alloca? && !i.op.Load? {
      if k: nat :| FirstAddressAt(f, i.args, k) && i.args[k] == u {
        FirstAddressIs(f, i.args, k);
      }
      if FirstAddress(f, i.args) == Some(u) {
        var k := FirstAddressFound(f, i.args);
      }
    }
  }

  lemma {:induction false} RootedIsFromAlloca(f: Func, v: Value)
    requires Ordered(f) && IsRooted(f, v)
    ensures FromAlloca(f, v)
    decreases if v.Result? then v.id + 1 else 0
  {
    if v.Result? && v.id in f.Defs() && Base(f, f.Defs()[v.id]).Some? {
      var u := Base(f, f.Defs()[v.id]).value;
      RootedIsFromAlloca(f, u);
      LeadsIsBase(f, v, u);
      var c :| Followed(f, c) && c[0] == u && IsAlloca(f, c[|c| - 1]);
      var d := [v] + c;
      forall k | 0 <= k < |d| - 1
        ensures LeadsAt(f, d, k)
      {
        if k > 0 {
          var j := k - 1;
          assert LeadsAt(f, c, j);
        }
      }
      assert Followed(f, d);
    } else {
      assert Followed(f, [v]);
    }
  }

  lemma {:induction false} FollowedIsRooted(f: Func, c: seq<Value>)
    requires Ordered(f) && Followed(f, c) && IsAlloca(f, c[|c| - 1])
    ensures IsRooted(f, c[0])
    decreases |c|
  {
    if |c| > 1 {
      var d := c[1..];
      forall k | 0 <= k < |d| - 1
        ensures LeadsAt(f, d, k)
      {
        assert LeadsAt(f, c, k + 1);
      }
      FollowedIsRooted(f, d);
      assert LeadsAt(f, c, 0);
      LeadsIsBase(f, c[0], c[1]);
    }
  }

  lemma RootedIffFromAlloca(f: Func, v: Value)
    requires Ordered(f)
    ensures IsRooted(f, v) <==> FromAlloca(f, v)
  {
    if IsRooted(f, v) {
      RootedIsFromAlloca(f, v);
    }
    if FromAlloca(f, v) {
      var c :| Followed(f, c) && c[0] == v && IsAlloca(f, c[|c| - 1]);
      FollowedIsRooted(f, c);
    }
  }

  /** A load or store that does not go to a local variable. */
  ghost predicate GoesOutside(f: Func, i: Instr) {
    || (i.op.Load? && (|i.args| != 1 || !FromAlloca(f, i.args[0])))
    || (i.op.Store? && (|i.args| != 2 || !FromAlloca(f, i.args[1])))
  }

  /** A declaration, `main`, a function with an array parameter, or one that loads from or stores to something that is
      no local variable of it. */
  ghost predicate HasOwnEffect(f: Func) {
    || f.blocks == [] || f.name == "main" || (exists k :: 0 <= k < |f.scalar| && !f.scalar[k])
    || exists b: Block, k: nat {:trigger f.At(b, k)} :: f.At(b, k) && GoesOutside(f, f.code[b][k])
  }

  ghost predicate CallsOne(p: Prog, g: nat, h: nat) {
    && g in p && h in p
    && exists b: Block, k: nat {:trigger p[g].At(b, k)} :: p[g].At(b, k) && p[g].code[b][k].op.Call? && p[g].code[b][k].op.callee == h
  }

  ghost predicate CallsAt(p: Prog, c: seq<nat>, k: nat)
    requires k + 1 < |c|
  {
    CallsOne(p, c[k], c[k + 1])
  }

  ghost predicate CallChain(p: Prog, c: seq<nat>) {
    c != [] && forall k {:trigger CallsAt(p, c, k)} :: 0 <= k < |c| - 1 ==> CallsAt(p, c, k)
  }

  /** Calls lead from `f`, through any number of functions, to one with an effect of its own. */
  ghost predicate LeadsToEffect(p: Prog, f: nat) {
    exists c {:trigger CallChain(p, c)} :: CallChain(p, c) && c[0] == f && c[|c| - 1] in p && HasOwnEffect(p[c[|c| - 1]])
  }

  lemma EffectIsOwn(f: Func)
    requires Ordered(f)
    ensures TriviallyImpure(f) <==> HasOwnEffect(f)
  {
    forall b: Block, k: nat | f.At(b, k)
      ensures IsSideEffectInst(f, f.code[b][k]) <==> GoesOutside(f, f.code[b][k])
    {
      var i := f.code[b][k];
      if |i.args| > 0 {
        RootedIffFromAlloca(f, i.args[0]);
      }
      if |i.args| > 1 {
        RootedIffFromAlloca(f, i.args[1]);
      }
    }
    assert HasArrayParam(f) <==> exists k :: 0 <= k < |f.scalar| && !f.scalar[k];
  }

  lemma SameChains(p: Prog, c: seq<nat>)
    requires AllOrdered(p)
    ensures Chain(CallEdges(p), c) <==> CallChain(p, c)
  {
    forall g: nat, h: nat
      ensures (g, h) in CallEdges(p) <==> CallsOne(p, g, h)
    {
      if Calls(p, g, h) {
        var b: Block, k: nat :| p[g].At(b, k) && p[g].code[b][k].op == Call(h);
      }
      if CallsOne(p, g, h) {
        var b: Block, k: nat :| p[g].At(b, k) && p[g].code[b][k].op.Call? && p[g].code[b][k].op.callee == h;
        assert p[g].code[b][k].op == Call(h);
      }
    }
    if Chain(CallEdges(p), c) {
      forall k | 0 <= k < |c| - 1
        ensures CallsAt(p, c, k)
      {
        assert Link(CallEdges(p), c, k);
      }
    }
    if CallChain(p, c) {
      forall k | 0 <= k < |c| - 1
        ensures Link(CallEdges(p), c, k)
      {
        assert CallsAt(p, c, k);
      }
    }
  }

  /** What the analysis computes, without its own notions. */
  lemma ReachesIffEffect(p: Prog, f: nat)
    requires AllOrdered(p)
    ensures Reaches(CallEdges(p), Bad(p), f) <==> LeadsToEffect(p, f)
  {
    forall g | g in p
      ensures g in Bad(p) <==> HasOwnEffect(p[g])
    {
      EffectIsOwn(p[g]);
    }
    if Reaches(CallEdges(p), Bad(p), f) {
      var c :| Chain(CallEdges(p), c) && c[0] == f && c[|c| - 1] in Bad(p);
      SameChains(p, c);
    }
    if LeadsToEffect(p, f) {
      var c :| CallChain(p, c) && c[0] == f && c[|c| - 1] in p && HasOwnEffect(p[c[|c| - 1]]);
      SameChains(p, c);
    }
  }

  class FuncInfo {
    const prog: Prog
    const functions: seq<nat>
    const uses: map<nat, seq<nat>>
    var isPure: map<nat, bool>
    var worklist: seq<nat>

    ghost predicate Ok() {
      && AllOrdered(prog) && uses.Keys == prog.Keys && UsesOk(CallEdges(prog), uses)
      && (forall f {:trigger f in functions} :: f in functions <==> f in prog.Keys)
    }

    constructor (p: Prog, order: seq<nat>, users: map<nat, seq<nat>>)
      ensures prog == p && functions == order && uses == users && isPure == map[] && worklist == []
    {
      prog, functions, uses, isPure, worklist := p, order, users, map[], [];
    }

    method TrivialMark(f: nat)
      requires f in prog && AllOrdered(prog)
      modifies this`isPure
      ensures isPure == old(isPure)[f := f !in Bad(prog)]
      ensures isPure[f] <==> !HasOwnEffect(prog[f])
    {
      EffectIsOwn(prog[f]);
      assert f in Bad(prog) <==> TriviallyImpure(prog[f]);
      var func := prog[f];
      if func.IsDeclaration() || func.name == "main" {
        isPure := isPure[f := false];
        return;
      }
      for k := 0 to |func.scalar|
        invariant isPure == old(isPure)
        invariant false !in func.scalar[..k]
      {
        if !func.scalar[k] {
          isPure := isPure[f := false];
          return;
        }
      }
      assert func.scalar[..|func.scalar|] == func.scalar;
      for n := 0 to |func.blocks|
        invariant isPure == old(isPure)
        invariant forall b: Block, k: nat :: func.At(b, k) && b in func.blocks[..n] ==> !IsSideEffectInst(func, func.code[b][k])
      {
        var b := func.blocks[n];
        for k := 0 to |func.code[b]|
          invariant isPure == old(isPure)
          invariant forall j :: 0 <= j < k ==> !IsSideEffectInst(func, func.code[b][j])
        {
          if IsSideEffectInst(func, func.code[b][k]) {
            assert func.At(b, k);
            isPure := isPure[f := false];
            return;
          }
        }
        assert func.blocks[..n + 1] == func.blocks[..n] + [b];
      }
      assert func.blocks[..|func.blocks|] == func.blocks;
      isPure := isPure[f := true];
    }

    /** Mark the callers of an impure function. */
    method Process(now: nat, ghost calls: Edges, ghost bad: set<nat>)
      requires now in uses && UsesOk(calls, uses) && isPure.Keys == uses.Keys
      requires Inv(calls, bad, Impure(isPure), [now] + worklist)
      requires forall g, f {:trigger (g, f) in calls} :: (g, f) in calls ==> g in uses
      modifies this`isPure, this`worklist
      ensures isPure.Keys == uses.Keys && Inv(calls, bad, Impure(isPure), worklist)
      ensures |Pure(isPure)| + |worklist| <= |Pure(old(isPure))| + |old(worklist)|
    {
      var users := uses[now];
      for k := 0 to |users|
        invariant isPure.Keys == uses.Keys && Inv(calls, bad, Impure(isPure), [now] + worklist)
        invariant forall g :: g in users[..k] ==> g in Impure(isPure)
        invariant |Pure(isPure)| + |worklist| <= |Pure(old(isPure))| + |old(worklist)|
      {
        var g := users[k];
        assert g in uses[now] && (g, now) in calls;
        if isPure[g] {
          Add(calls, bad, Impure(isPure), [now] + worklist, g, now);
          MarkOne(isPure, g);
          assert [now] + worklist + [g] == [now] + (worklist + [g]);
          isPure := isPure[g := false];
          worklist := worklist + [g];
        }
        assert users[..k + 1] == users[..k] + [g];
      }
      assert users[..|users|] == users;
      Finish(calls, bad, Impure(isPure), worklist, now);
    }

    /** The first loop of `run`. */
    method MarkAll(ghost bad: set<nat>)
      requires AllOrdered(prog) && bad == Bad(prog)
      requires forall f {:trigger f in functions} :: f in functions <==> f in prog.Keys
      modifies this`isPure, this`worklist
      ensures isPure.Keys == prog.Keys && Impure(isPure) == bad && forall f :: f in worklist <==> f in bad
    {
      isPure, worklist := map[], [];
      for n := 0 to |functions|
        invariant forall f :: f in isPure <==> f in functions[..n]
        invariant forall f {:trigger isPure[f]} :: f in isPure ==> isPure[f] == (f !in bad)
        invariant forall f :: f in worklist <==> f in isPure && f in bad
      {
        var func := functions[n];
        assert func in functions;
        TrivialMark(func);
        if !isPure[func] {
          worklist := worklist + [func];
        }
        assert functions[..n + 1] == functions[..n] + [func];
      }
      assert functions[..|functions|] == functions;
    }

    /** A function ends up impure exactly if it has an effect of its own or reaches, along
        call edges, a function that has. */
    method Run()
      requires Ok()
      modifies this`isPure, this`worklist
      ensures isPure.Keys == prog.Keys
      ensures forall f :: f in prog ==> (!isPure[f] <==> Reaches(CallEdges(prog), Bad(prog), f))
      ensures forall f :: f in prog ==> (!isPure[f] <==> LeadsToEffect(prog, f))
    {
      ghost var calls, bad := CallEdges(prog), Bad(prog);
      MarkAll(bad);
      Start(calls, bad, worklist);
      Propagate(calls, bad);
      forall f | f in prog
        ensures !isPure[f] <==> Reaches(calls, bad, f)
      {
        Exact(calls, bad, Impure(isPure), f);
      }
      forall f | f in prog
        ensures !isPure[f] <==> LeadsToEffect(prog, f)
      {
        ReachesIffEffect(prog, f);
      }
    }

    /** The work-list loop of `run`. */
    method Propagate(ghost calls: Edges, ghost bad: set<nat>)
      requires UsesOk(calls, uses) && isPure.Keys == uses.Keys && Inv(calls, bad, Impure(isPure), worklist)
      requires forall g, f {:trigger (g, f) in calls} :: (g, f) in calls ==> g in uses
      modifies this`isPure, this`worklist
      ensures isPure.Keys == uses.Keys && Inv(calls, bad, Impure(isPure), [])
    {
      while worklist != []
        invariant isPure.Keys == uses.Keys && Inv(calls, bad, Impure(isPure), worklist)
        decreases |Pure(isPure)| + |worklist|
      {
        var now := worklist[0];
        assert now in worklist && worklist == [now] + worklist[1..];
        assert now in Impure(isPure);
        worklist := worklist[1..];
        Process(now, calls, bad);
      }
    }
  }
}
