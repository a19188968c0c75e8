/**
  The code generator and Mem2Reg one after the other: promoted code still does what the
  source program means.
 */
module Pipeline {
  import opened Options
  import opened Syntax
  import opened Cfg
  import I = Ir
  import R = Running
  import opened Meaning
  import opened Generator
  import L = Lowering
  import LS = LoweringStmt
  import opened LoweringFun
  import D = DefinedStmt
  import opened DeadEnds
  import opened Frontier
  import S = SsaForm
  import opened Feeding
  import opened Filling
  import opened Promotion
  import M = Mem2Reg

  /** A function of the source program, where it stands. */
  datatype Source = Source(types: Scopes<Shape>, addrs: Scopes<I.Value>, ret: RetTy, params: seq<Param>, decls: seq<Decl>, body: seq<Stmt>) {
    function Generated(): Gen {
      GenFunction(types, addrs, ret, params, decls, body)
    }

    ghost predicate Ok() {
      L.ScopeOk(types, addrs, 0) && BodyOk(FunctionTypes(types, params, decls), ret, body)
    }

    /** What Mem2Reg needs beyond that, and not every function has: no dead end that leads to where control can be, and a
        store on every path to a load of a variable. The graph itself is always valid. */
    ghost predicate Promotable() {
      var f := Generated();
      BodyFine(body) && f.g.Valid() && f.code.Keys == f.g.pred.Keys && LoadsSafe(f.g, f.code)
    }

    /** A call from the store `s`, with the run in state `t`, that means something. */
    ghost predicate Meaningful(c: Context, s: Store, t: R.State) {
      && c.ret == ret && L.Agrees(c.m, types, addrs, s, t) && LS.HomesOk(c, Generated())
      && forall k: nat :: !Outcome(c, types, params, decls, body, s, k).Meaningless?
    }
  }

  /** Running `code` ends as the meaning of the function says, and in no other way. */
  ghost predicate DoesAsMeant(src: Source, code: I.Code, c: Context, s: Store, t: R.State, end: Result) {
    src.Meaningful(c, s, t) && end.Ended? && (end.exit.Return? || end.exit.ReturnVoid?) ==>
      (MeansEnd(c, src.types, src.params, src.decls, src.body, s, end) <==> RunsTo(c.m, code, t, end))
  }

  lemma SameRuns(m: R.Machine, code: I.Code, code': I.Code, t: R.State, end: Result)
    requires forall fuel: nat :: R.Run(m, code', 0, 0, t, fuel) == R.Run(m, code, 0, 0, t, fuel)
    ensures RunsTo(m, code', t, end) <==> RunsTo(m, code, t, end)
  {
    if RunsTo(m, code', t, end) {
      var fuel: nat :| RunEnd(m, code', t, fuel) == end;
      assert RunEnd(m, code, t, fuel) == end;
    }
    if RunsTo(m, code, t, end) {
      var fuel: nat :| RunEnd(m, code, t, fuel) == end;
      assert RunEnd(m, code', t, fuel) == end;
    }
  }

  lemma StillAsMeant(src: Source, code': I.Code, c: Context, s: Store, t: R.State, end: Result)
    requires src.Ok() && forall fuel: nat :: R.Run(c.m, code', 0, 0, t, fuel) == R.Run(c.m, src.Generated().code, 0, 0, t, fuel)
    ensures DoesAsMeant(src, code', c, s, t, end)
  {
    if src.Meaningful(c, s, t) && end.Ended? && (end.exit.Return? || end.exit.ReturnVoid?) {
      CodeGenerationIsCorrect(c, src.types, src.addrs, src.params, src.decls, src.body, s, t, end);
      SameRuns(c.m, src.Generated().code, code', t, end);
    }
  }

  /** Generate the code of a function and promote its scalar variables. Unless the assertion of `re_name` fails, whatever a
      call means, running the promoted code ends like that and in no other way, and no scalar variable is left in memory. */
  method GenerateAndPromote(src: Source, address: Block -> int) returns (ok: bool, code: I.Code)
    requires src.Ok() && src.Promotable() && Injective(address)
    ensures ok <==> !AssertFails(src.Generated().g, src.Generated().code, address)
    ensures ok ==> forall c, s, t, end :: DoesAsMeant(src, code, c, s, t, end)
    ensures ok ==> forall b :: Reachable(src.Generated().g, b) ==> Promoted(src.Generated().g, src.Generated().code, code, b)
  {
    var f := src.Generated();
    ghost var site := D.GeneratedIsAccepted(src.types, src.addrs, src.ret, src.params, src.decls, src.body);
    LivePredsIffFine(src.types, src.addrs, src.ret, src.params, src.decls, src.body);
    var pass := new M.Mem2Reg(f.g, address, f.code, f.nextId, site);
    ok := pass.Run();
    code := pass.code;
    if ok {
      forall c, s, t, end
        ensures DoesAsMeant(src, code, c, s, t, end)
      {
        StillAsMeant(src, code, c, s, t, end);
      }
    }
  }
}
