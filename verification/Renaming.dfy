/**
  What renaming along the dominator tree computes, as functions of the code that
  the phis have been placed in: for every program point the stack of values of each
  variable and the value that stands for each load.
 */
module Renaming {
  import opened Cfg
  import opened IdomTree
  import opened Ir

  /** `stack` is `var_val_stack`; `sub` maps the result of a replaced load to its replacement. */
  datatype Ctx = Ctx(stack: map<Value, seq<Value>>, sub: map<Value, Value>)

  function StackOf(stack: map<Value, seq<Value>>, l: Value): seq<Value> {
    if l in stack then stack[l] else []
  }

  function Top(s: seq<Value>): Value
    requires s != []
  {
    s[|s| - 1]
  }

  function Push(stack: map<Value, seq<Value>>, l: Value, v: Value): map<Value, seq<Value>> {
    stack[l := StackOf(stack, l) + [v]]
  }

  function Sub(sub: map<Value, Value>, v: Value): Value {
    if v in sub then sub[v] else v
  }

  /** The effect of renaming one instruction. */
  function Visit(c: Ctx, i: Instr): Ctx {
    if i.op.Phi? then
      c.(stack := Push(c.stack, i.op.lval, ResultOf(i)))
    else if LoadsLocal(i) && StackOf(c.stack, i.args[0]) != [] then
      c.(sub := c.sub[ResultOf(i) := Top(StackOf(c.stack, i.args[0]))])
    else if StoresLocal(i) then
      c.(stack := Push(c.stack, i.args[1], Sub(c.sub, i.args[0])))
    else
      c
  }

  function VisitAll(c: Ctx, body: seq<Instr>): Ctx {
    if body == [] then c else Visit(VisitAll(c, body[..|body| - 1]), body[|body| - 1])
  }

  function Results(body: seq<Instr>): set<Value> {
    set k | 0 <= k < |body| :: ResultOf(body[k])
  }

  /** A function with its phis placed, its finished dominator tree, and the place of every instruction. */
  datatype Ssa = Ssa(t: Tree, base: Code, site: map<nat, (Block, nat)>) {

    ghost function Body(b: Block): seq<Instr> {
      if b in base then base[b] else []
    }

    /** The context on entry to `b`: the one at the end of its immediate dominator. */
    ghost function In(b: Block): Ctx
      requires t.Ok() && b in t.up
      decreases t.id[t.root] - t.id[b], 0
    {
      assert t.NodeOk(b);
      if b == t.root then Ctx(map[], map[]) else Out(t.up[b])
    }

    ghost function Out(b: Block): Ctx
      requires t.Ok() && b in t.up
      decreases t.id[t.root] - t.id[b], 1
    {
      VisitAll(In(b), Body(b))
    }

    ghost function At(b: Block, i: nat): Ctx
      requires t.Ok() && b in t.up && i <= |Body(b)|
    {
      VisitAll(In(b), Body(b)[..i])
    }

    /** The values defined on every path to the entry of `b`. */
    ghost function AvailIn(b: Block): set<Value>
      requires t.Ok() && b in t.up
      decreases t.id[t.root] - t.id[b], 0
    {
      assert t.NodeOk(b);
      if b == t.root then {} else AvailOut(t.up[b])
    }

    ghost function AvailOut(b: Block): set<Value>
      requires t.Ok() && b in t.up
      decreases t.id[t.root] - t.id[b], 1
    {
      AvailIn(b) + Results(Body(b))
    }

    ghost function AvailAt(b: Block, i: nat): set<Value>
      requires t.Ok() && b in t.up && i <= |Body(b)|
    {
      AvailIn(b) + Results(Body(b)[..i])
    }

    /** `v` is the result of the instruction that `site` records for it. */
    ghost predicate HasSite(v: Value) {
      v.Result? && v.id in site && var (d, j) := site[v.id];
      j < |Body(d)| && ResultOf(Body(d)[j]) == v
    }

    ghost predicate IsLocalLoad(v: Value) {
      HasSite(v) && var (d, j) := site[v.id]; LoadsLocal(Body(d)[j])
    }

    /** A value that later code may still mention: a constant, an argument, a global, or the
        result of an instruction that renaming does not delete. */
    ghost predicate Lasting(avail: set<Value>, v: Value) {
      v.Result? ==> v in avail && !IsLocalLoad(v) && v.kind != AllocaInst(true)
    }

    /** `v` is defined by an instruction that comes before position `i` of `b`. */
    ghost predicate DefinedBefore(v: Value, b: Block, i: nat)
      requires t.Ok() && b in t.up
    {
      HasSite(v) && var (d, j) := site[v.id]; t.Anc(b, d) && (d == b ==> j < i)
    }

    // ----- what the pass expects of the code -----

    ghost predicate InstrOk(b: Block, i: nat)
      requires i < |Body(b)|
    {
      var ins := Body(b)[i];
      && ins.id in site && site[ins.id] == (b, i)
      && (ins.op.Load? ==> |ins.args| == 1 && AddressOk(ins.args[0]))
      && (ins.op.Store? ==> |ins.args| == 2 && AddressOk(ins.args[1]))
      && (ins.op.Phi? ==> ins.args == [] && ins.labels == [] && HasSite(ins.op.lval) && ins.op.lval.kind.AllocaInst?)
    }

    /** Operands are defined on every path to their use, and the address of a scalar variable
        is only ever loaded from or stored to. */
    ghost predicate UseOk(b: Block, i: nat, k: nat)
      requires t.Ok() && b in t.up && i < |Body(b)| && k < |Body(b)[i].args|
    {
      var ins := Body(b)[i];
      && (ins.args[k].Result? ==> ins.args[k] in AvailAt(b, i))
      && (ins.args[k].Result? && ins.args[k].kind == AllocaInst(true) ==>
            (ins.op.Load? && k == 0) || (ins.op.Store? && k == 1))
    }

    ghost predicate CodeOk() {
      && t.Ok()
      && (forall b, i {:trigger InstrOk(b, i)} :: b in base && 0 <= i < |Body(b)| ==> InstrOk(b, i))
      && (forall b, i, k {:trigger UseOk(b, i, k)} :: b in t.up && 0 <= i < |Body(b)| && 0 <= k < |Body(b)[i].args| ==> UseOk(b, i, k))
    }

    /** A load of a local variable has a value to be replaced by. */
    ghost predicate LoadFed(b: Block, i: nat)
      requires t.Ok() && b in t.up && i < |Body(b)|
    {
      LoadsLocal(Body(b)[i]) ==> StackOf(At(b, i).stack, Body(b)[i].args[0]) != []
    }

    ghost predicate LoadsFed()
      requires t.Ok()
    {
      forall b, i {:trigger LoadFed(b, i)} :: b in t.up && 0 <= i < |Body(b)| ==> LoadFed(b, i)
    }

    // ----- what holds of the context at every point -----

    ghost predicate SubInv(c: Ctx, avail: set<Value>) {
      && (forall v {:trigger v in c.sub} :: v in c.sub <==> v in avail && IsLocalLoad(v))
      && (forall v {:trigger c.sub[v]} :: v in c.sub ==> Lasting(avail, c.sub[v]))
    }

    ghost predicate StackInv(c: Ctx, avail: set<Value>) {
      forall l, v {:trigger v in StackOf(c.stack, l)} :: v in StackOf(c.stack, l) ==> Lasting(avail, v)
    }

    ghost predicate AvailInv(avail: set<Value>, b: Block, i: nat)
      requires t.Ok() && b in t.up
    {
      forall v {:trigger DefinedBefore(v, b, i)} :: v in avail ==> DefinedBefore(v, b, i)
    }

    ghost predicate PointInv(c: Ctx, avail: set<Value>, b: Block, i: nat)
      requires t.Ok() && b in t.up
    {
      SubInv(c, avail) && StackInv(c, avail) && AvailInv(avail, b, i)
    }

    lemma Prefix(b: Block, i: nat)
      requires t.Ok() && b in t.up && i < |Body(b)|
      ensures At(b, i + 1) == Visit(At(b, i), Body(b)[i])
      ensures AvailAt(b, i + 1) == AvailAt(b, i) + {ResultOf(Body(b)[i])}
    {
      var s := Body(b)[..i + 1];
      assert s[..|s| - 1] == Body(b)[..i] && s[|s| - 1] == Body(b)[i];
      forall v | v in Results(s)
        ensures v in Results(Body(b)[..i]) + {ResultOf(Body(b)[i])}
      {
        var k :| 0 <= k < |s| && ResultOf(s[k]) == v;
        if k < i {
          assert Body(b)[..i][k] == s[k];
        }
      }
      forall v | v in Results(Body(b)[..i])
        ensures v in Results(s)
      {
        var k :| 0 <= k < i && ResultOf(Body(b)[..i][k]) == v;
        assert s[k] == Body(b)[k];
      }
      assert ResultOf(s[i]) in Results(s);
    }

    /** The result of an instruction was not defined before it. */
    lemma FreshResult(b: Block, i: nat, v: Value)
      requires CodeOk() && b in t.up && b in base && i < |Body(b)|
      requires DefinedBefore(v, b, i)
      ensures v.id != Body(b)[i].id
    {
      assert InstrOk(b, i);
    }

    lemma PointStep(b: Block, i: nat)
      requires CodeOk() && b in t.up && b in base && i < |Body(b)| && LoadFed(b, i)
      requires PointInv(At(b, i), AvailAt(b, i), b, i)
      ensures PointInv(At(b, i + 1), AvailAt(b, i + 1), b, i + 1)
    {
      Prefix(b, i);
      var ins := Body(b)[i];
      var c, avail := At(b, i), AvailAt(b, i);
      var c', avail' := At(b, i + 1), AvailAt(b, i + 1);
      assert InstrOk(b, i);
      var r := ResultOf(ins);
      assert r !in avail by {
        if r in avail {
          assert DefinedBefore(r, b, i);
          FreshResult(b, i, r);
        }
      }
      assert HasSite(r);
      forall v | v in avail'
        ensures DefinedBefore(v, b, i + 1)
      {
        if v in avail {
          assert DefinedBefore(v, b, i);
        }
      }
      forall l, v | v in StackOf(c'.stack, l)
        ensures Lasting(avail', v)
      {
        if v !in StackOf(c.stack, l) {
          if StoresLocal(ins) {
            assert UseOk(b, i, 0);
          }
        }
      }
      forall v
        ensures v in c'.sub <==> v in avail' && IsLocalLoad(v)
        ensures v in c'.sub ==> Lasting(avail', c'.sub[v])
      {
        if v == r {
          if LoadsLocal(ins) {
            assert Top(StackOf(c.stack, ins.args[0])) in StackOf(c.stack, ins.args[0]);
          }
        } else {
          assert v in c'.sub <==> v in c.sub;
        }
      }
    }

    lemma {:induction false} PointInvAt(b: Block, i: nat)
      requires CodeOk() && LoadsFed() && b in t.up && i <= |Body(b)|
      ensures PointInv(At(b, i), AvailAt(b, i), b, i)
      decreases t.id[t.root] - t.id[b], i
    {
      if i > 0 {
        PointInvAt(b, i - 1);
        assert LoadFed(b, i - 1);
        PointStep(b, i - 1);
      } else {
        assert Body(b)[..0] == [];
        assert At(b, 0) == In(b) && AvailAt(b, 0) == AvailIn(b);
        if b != t.root {
          assert t.NodeOk(b);
          var d := t.up[b];
          assert Body(d)[..|Body(d)|] == Body(d);
          PointInvAt(d, |Body(d)|);
          assert In(b) == At(d, |Body(d)|) && AvailIn(b) == AvailAt(d, |Body(d)|);
          forall v | v in AvailIn(b)
            ensures DefinedBefore(v, b, 0)
          {
            assert DefinedBefore(v, d, |Body(d)|);
            if t.Anc(d, b) {
              AncId(t, d, b);
            }
          }
        }
      }
    }
  }
}
