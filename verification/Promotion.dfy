/**
  What the renamed code looks like: no local scalars, and phis exactly where they are needed.
 */
module Promotion {
  import opened Cfg
  import opened IdomTree
  import opened Ir
  import opened Renaming
  import opened Rewriting
  import opened RenameSteps
  import opened PhiPlacement
  import opened SsaForm
  import opened Feeding
  import opened Simulation
  import opened Preservation
  import opened Filling

  ghost predicate PhiAt(body: seq<Instr>, v: Value, k: nat) {
    k < |body| && body[k].op == Phi(v)
  }

  /** A phi has one operand for each edge into `b` from a block at whose end its variable can have been stored to,
      and no other. */
  ghost predicate PhiWhole(g: Graph, code0: Code, b: Block, phi: Instr)
    requires g.Valid() && phi.op.Phi?
  {
    && |phi.args| == |phi.labels|
    && forall from {:trigger multiset(phi.labels)[from]} ::
         multiset(phi.labels)[from] == if from in g.succ && SomeStore(g, code0, from, phi.op.lval) then multiset(g.succ[from])[b] else 0
  }

  /** No scalar alloca, and no load or store but of global variables and elements. */
  predicate InMemory(i: Instr) {
    && i.op != Alloca(true)
    && (i.op.Load? && |i.args| == 1 ==> i.args[0].GlobalVariable? || (i.args[0].Result? && i.args[0].kind == GetElementPtrInst))
    && (i.op.Store? && |i.args| == 2 ==> i.args[1].GlobalVariable? || (i.args[1].Result? && i.args[1].kind == GetElementPtrInst))
  }

  /** Block `b` holds no load or store of a local variable and no scalar alloca, and for each variable one
      whole phi if `b` is in the iterated dominance frontier of the stores to it, else none. */
  ghost predicate Promoted(g: Graph, code0: Code, code: Code, b: Block)
    requires g.Valid()
  {
    && b in code
    && (forall k {:trigger code[b][k]} :: 0 <= k < |code[b]| ==> InMemory(code[b][k]) && (code[b][k].op.Phi? ==> PhiWhole(g, code0, b, code[b][k])))
    && (forall v {:trigger InIterated(g, StoreBlocks(code0, v), b)} ::
          InIterated(g, StoreBlocks(code0, v), b) <==> exists k :: PhiAt(code[b], v, k))
    && (forall v, j, k {:trigger PhiAt(code[b], v, j), PhiAt(code[b], v, k)} :: PhiAt(code[b], v, j) && PhiAt(code[b], v, k) ==> j == k)
  }

  // ----- where an instruction that is left comes from -----

  ghost function Origin(ref: seq<Instr>, cur: seq<Instr>, k: nat): (r: nat)
    requires |ref| == |cur| && k < |Sparse(ref, cur)|
    ensures r < |ref| && Sparse(ref, cur)[k] == cur[r] && !Gone(ref[r])
  {
    var n := |ref| - 1;
    if k < |Sparse(ref[..n], cur[..n])| then Origin(ref[..n], cur[..n], k) else n
  }

  lemma {:induction false} OriginGrows(ref: seq<Instr>, cur: seq<Instr>, j: nat, k: nat)
    requires |ref| == |cur| && j < k < |Sparse(ref, cur)|
    ensures Origin(ref, cur, j) < Origin(ref, cur, k)
  {
    var n := |ref| - 1;
    if k < |Sparse(ref[..n], cur[..n])| {
      OriginGrows(ref[..n], cur[..n], j, k);
    }
  }

  lemma {:induction false} StaysSomewhere(ref: seq<Instr>, cur: seq<Instr>, j: nat) returns (k: nat)
    requires |ref| == |cur| && j < |ref| && !Gone(ref[j])
    ensures k < |Sparse(ref, cur)| && Sparse(ref, cur)[k] == cur[j]
  {
    var n := |ref| - 1;
    if j < n {
      k := StaysSomewhere(ref[..n], cur[..n], j);
    } else {
      k := |Sparse(ref[..n], cur[..n])|;
    }
  }

  // ----- the final code -----

  lemma NothingLocalLeft(w: Build, s: Progress, b: Block, j: nat)
    requires Renamed(w, s) && b in w.p.t.up && j < |w.p.Body(b)| && !Gone(w.p.Body(b)[j])
    ensures !Gone(Target(w.p, s, b, w.p.Body(b)[j]))
  {
    w.SplitReachable(b);
    var ins := w.p.Body(b)[j];
    assert w.p.InstrOk(b, j);
    if ins.op.Load? {
      AddressesStay(w.p, s, ins.args[0]);
    } else if ins.op.Store? {
      AddressesStay(w.p, s, ins.args[1]);
    }
  }

  lemma BringsIffSomeStore(w: Build, from: Block, l: Value)
    requires w.Ok()
    ensures Brings(w.p, from, l) != [] <==> SomeStore(w.g, w.code0, from, l)
  {
    if from in w.p.t.up {
      ValueIffSomeStore(w, from, l);
    } else if SomeStore(w.g, w.code0, from, l) {
      assert Reachable(w.g, from);
      assert false;
    }
  }

  lemma PhiIsWhole(w: Build, s: Progress, b: Block, j: nat)
    requires Renamed(w, s) && b in w.p.t.up && j < |w.p.Body(b)| && w.p.Body(b)[j].op.Phi?
    ensures PhiWhole(w.g, w.code0, b, Target(w.p, s, b, w.p.Body(b)[j]))
  {
    var phi := Target(w.p, s, b, w.p.Body(b)[j]);
    forall from
      ensures multiset(phi.labels)[from] == if from in w.g.succ && SomeStore(w.g, w.code0, from, phi.op.lval) then multiset(w.g.succ[from])[b] else 0
    {
      PhiComplete(w, s, b, j, from);
      BringsIffSomeStore(w, from, phi.op.lval);
    }
    PhiComplete(w, s, b, j, b);
  }

  lemma PhiThere(w: Build, s: Progress, b: Block, v: Value)
    requires Renamed(w, s) && b in w.p.t.up
    ensures InIterated(w.g, StoreBlocks(w.code0, v), b) <==> exists k :: PhiAt(FinalBody(w, s, b), v, k)
  {
    var ref, cur := w.p.Body(b), TargetBody(w.p, s, b);
    w.SplitReachable(b);
    PhiIffIterated(w, b, v);
    w.PhiIffHas(b, v);
    if (b, v) in w.has {
      var j :| 0 <= j < |ref| && ref[j].op.Phi? && ref[j].op.lval == v;
      var k := StaysSomewhere(ref, cur, j);
      assert PhiAt(FinalBody(w, s, b), v, k);
    }
    if k :| PhiAt(FinalBody(w, s, b), v, k) {
      var j := Origin(ref, cur, k);
      assert ref[j].op == cur[j].op == Phi(v);
    }
  }

  lemma OnePhi(w: Build, s: Progress, b: Block, v: Value, j: nat, k: nat)
    requires Renamed(w, s) && b in w.p.t.up && j < k && PhiAt(FinalBody(w, s, b), v, j)
    ensures !PhiAt(FinalBody(w, s, b), v, k)
  {
    var ref, cur := w.p.Body(b), TargetBody(w.p, s, b);
    w.SplitReachable(b);
    assert ExtendedAt(w.code0, w.p.base, w.has, b);
    if k < |FinalBody(w, s, b)| {
      OriginGrows(ref, cur, j, k);
      var x, y := Origin(ref, cur, j), Origin(ref, cur, k);
      assert ref[x].op == cur[x].op && ref[y].op == cur[y].op;
      assert ref[x].op != ref[y].op;
    }
  }

  /** Every reachable block of the finished code is promoted. */
  lemma FinalPromoted(w: Build, s: Progress, code: Code, b: Block)
    requires Renamed(w, s) && FinalCode(w, s, code) && b in w.p.t.up
    ensures Promoted(w.g, w.code0, code, b)
  {
    var ref, cur := w.p.Body(b), TargetBody(w.p, s, b);
    w.SplitReachable(b);
    assert b in code && code[b] == FinalBody(w, s, b);
    forall k | 0 <= k < |code[b]|
      ensures InMemory(code[b][k]) && (code[b][k].op.Phi? ==> PhiWhole(w.g, w.code0, b, code[b][k]))
    {
      var j := Origin(ref, cur, k);
      NothingLocalLeft(w, s, b, j);
      if ref[j].op.Phi? {
        PhiIsWhole(w, s, b, j);
      }
    }
    forall v
      ensures InIterated(w.g, StoreBlocks(w.code0, v), b) <==> exists k :: PhiAt(code[b], v, k)
    {
      PhiThere(w, s, b, v);
    }
    forall v, j, k | PhiAt(code[b], v, j) && PhiAt(code[b], v, k)
      ensures j == k
    {
      if j < k {
        OnePhi(w, s, b, v, j, k);
      } else if k < j {
        OnePhi(w, s, b, v, k, j);
      }
    }
  }
}
