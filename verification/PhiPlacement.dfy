/**
  Where phis go: the iterated dominance frontier of the blocks that store to a
  variable, and the code with the phis in front of each block.
 */
module PhiPlacement {
  import opened Cfg
  import opened Ir
  import opened Dominators

  /** `code[b]` stores to the local variable `v`. */
  ghost predicate StoresTo(body: seq<Instr>, v: Value) {
    exists k :: 0 <= k < |body| && StoresLocal(body[k]) && body[k].args[1] == v
  }

  lemma StoresToSplit(body: seq<Instr>, k: nat)
    requires k < |body|
    ensures forall v :: StoresTo(body[..k + 1], v) <==>
              StoresTo(body[..k], v) || (StoresLocal(body[k]) && body[k].args[1] == v)
  {
    assert body[..k + 1] == body[..k] + [body[k]];
    forall v
      ensures StoresTo(body[..k + 1], v) <==> StoresTo(body[..k], v) || (StoresLocal(body[k]) && body[k].args[1] == v)
    {
      if StoresTo(body[..k], v) {
        var j :| 0 <= j < k && StoresLocal(body[..k][j]) && body[..k][j].args[1] == v;
        assert body[..k + 1][j] == body[..k][j];
      }
      assert body[..k + 1][k] == body[k];
    }
  }

  ghost predicate HasPhi(body: seq<Instr>, v: Value) {
    exists k :: 0 <= k < |body| && body[k].op.Phi? && body[k].op.lval == v
  }

  ghost function StoreBlocks(code: Code, v: Value): set<Block> {
    set b | b in code && StoresTo(code[b], v)
  }

  /** For the variable of an alloca, those are the blocks with a store to its address. */
  lemma StoreBlocksOfAlloca(code: Code, v: Value, b: Block)
    requires v.Result? && v.kind.AllocaInst?
    ensures b in StoreBlocks(code, v) <==> b in code && exists k :: 0 <= k < |code[b]| && code[b][k].op == Store && |code[b][k].args| == 2 && code[b][k].args[1] == v
  {
    if b in code && exists k :: 0 <= k < |code[b]| && code[b][k].op == Store && |code[b][k].args| == 2 && code[b][k].args[1] == v {
      var k :| 0 <= k < |code[b]| && code[b][k].op == Store && |code[b][k].args| == 2 && code[b][k].args[1] == v;
      assert StoresLocal(code[b][k]);
    }
  }

  /** `q` holds the frontier of every block of `s` and of its own blocks. */
  ghost predicate Closed(df: map<Block, set<Block>>, s: set<Block>, q: set<Block>) {
    forall x {:trigger At(df, x)} :: x in s || x in q ==> At(df, x) <= q
  }

  /** `q` is the least such set: the iterated dominance frontier of `s`. */
  ghost predicate IteratedFrontier(df: map<Block, set<Block>>, s: set<Block>, q: set<Block>) {
    && Closed(df, s, q)
    && forall r {:trigger Closed(df, s, r)} :: Closed(df, s, r) ==> q <= r
  }

  /** The blocks that the pass has given a phi for `v`. */
  ghost function PhiBlocks(has: set<(Block, Value)>, v: Value): set<Block> {
    set x | x in has && x.1 == v :: x.0
  }

  // ----- inserting one phi -----

  ghost predicate FreshPhi(i: Instr) {
    i.op.Phi? && i.args == [] && i.labels == []
  }

  /** `body` is `body0` behind one phi for each variable that `has` lists for `b`. */
  ghost predicate Extended(body0: seq<Instr>, body: seq<Instr>, b: Block, has: set<(Block, Value)>) {
    && |body0| <= |body| && body[|body| - |body0|..] == body0
    && (forall j {:trigger body[j]} :: 0 <= j < |body| - |body0| ==> FreshPhi(body[j]) && (b, body[j].op.lval) in has)
    && (forall v {:trigger (b, v) in has} :: (b, v) in has ==> PhiAmong(body, |body| - |body0|, v))
    && (forall i, j {:trigger body[i], body[j]} :: 0 <= i < j < |body| - |body0| ==> body[i].op != body[j].op)
  }

  ghost predicate PhiAmong(body: seq<Instr>, n: int, v: Value) {
    exists j :: 0 <= j < n <= |body| && body[j].op == Phi(v)
  }

  ghost predicate AllExtended(code0: Code, code: Code, has: set<(Block, Value)>) {
    && code.Keys == code0.Keys
    && (forall b {:trigger ExtendedAt(code0, code, has, b)} :: b in code ==> ExtendedAt(code0, code, has, b))
    && (forall x {:trigger OnBlock(code, x)} :: x in has ==> OnBlock(code, x))
  }

  ghost predicate ExtendedAt(code0: Code, code: Code, has: set<(Block, Value)>, b: Block) {
    b in code0 && b in code && Extended(code0[b], code[b], b, has)
  }

  ghost predicate OnBlock(code: Code, x: (Block, Value)) {
    x.0 in code
  }

  type Site = map<nat, (Block, nat)>

  ghost predicate AtSite(code: Code, site: Site, b: Block, i: nat)
    requires b in code && i < |code[b]|
  {
    code[b][i].id in site && site[code[b][i].id] == (b, i)
  }

  /** Every instruction is where `site` says: no two share an identity. */
  ghost predicate SitesOk(code: Code, site: Site) {
    forall b, i {:trigger AtSite(code, site, b, i)} :: b in code && 0 <= i < |code[b]| ==> AtSite(code, site, b, i)
  }

  /** The sites after an instruction has been put in front of `b`. */
  ghost function Shifted(site: Site, b: Block, id: nat): Site {
    map k | k in site.Keys + {id} ::
      if k == id then (b, 0) else if site[k].0 == b then (b, site[k].1 + 1) else site[k]
  }

  ghost predicate IdsBelow(site: Site, n: nat) {
    forall k {:trigger k in site} :: k in site ==> k < n
  }

  function NewPhi(id: nat, v: Value): Instr {
    Instr(id, Phi(v), [], [])
  }

  lemma InsertSites(code: Code, site: Site, b: Block, phi: Instr)
    requires SitesOk(code, site) && b in code && phi.id !in site
    ensures SitesOk(code[b := [phi] + code[b]], Shifted(site, b, phi.id))
  {
    var code' := code[b := [phi] + code[b]];
    var site' := Shifted(site, b, phi.id);
    forall c, i | c in code' && 0 <= i < |code'[c]|
      ensures AtSite(code', site', c, i)
    {
      if c == b && i > 0 {
        assert code'[b][i] == code[b][i - 1];
        assert AtSite(code, site, b, i - 1);
      } else if c != b {
        assert AtSite(code, site, c, i);
      }
    }
  }

  lemma InsertOne(body0: seq<Instr>, body: seq<Instr>, has: set<(Block, Value)>, b: Block, phi: Instr, v: Value)
    requires Extended(body0, body, b, has) && (b, v) !in has && phi.op == Phi(v) && FreshPhi(phi)
    ensures Extended(body0, [phi] + body, b, has + {(b, v)})
  {
    var body', has', n := [phi] + body, has + {(b, v)}, |body| - |body0|;
    assert body'[n + 1..] == body[n..];
    forall w | (b, w) in has'
      ensures PhiAmong(body', n + 1, w)
    {
      PhiStillAmong(body, phi, n, v, w, has, b);
    }
    forall j | 0 <= j < n + 1
      ensures FreshPhi(body'[j]) && (b, body'[j].op.lval) in has'
    {
      assert j > 0 ==> body'[j] == body[j - 1];
    }
    forall i, j | 0 <= i < j < n + 1
      ensures body'[i].op != body'[j].op
    {
      assert body'[j] == body[j - 1];
      assert i > 0 ==> body'[i] == body[i - 1];
    }
  }

  lemma PhiStillAmong(body: seq<Instr>, phi: Instr, n: nat, v: Value, w: Value, has: set<(Block, Value)>, b: Block)
    requires n <= |body| && phi.op == Phi(v) && (w == v || PhiAmong(body, n, w))
    ensures PhiAmong([phi] + body, n + 1, w)
  {
    var body' := [phi] + body;
    if w == v {
      assert body'[0].op == Phi(v);
    } else {
      var j :| 0 <= j < n && body[j].op == Phi(w);
      assert body'[j + 1] == body[j];
    }
  }

  lemma InsertExtends(code0: Code, code: Code, has: set<(Block, Value)>, b: Block, phi: Instr, v: Value)
    requires AllExtended(code0, code, has) && b in code && (b, v) !in has
    requires phi.op == Phi(v) && FreshPhi(phi)
    ensures AllExtended(code0, code[b := [phi] + code[b]], has + {(b, v)})
  {
    var code', has' := code[b := [phi] + code[b]], has + {(b, v)};
    forall c | c in code'
      ensures ExtendedAt(code0, code', has', c)
    {
      assert ExtendedAt(code0, code, has, c);
      if c == b {
        InsertOne(code0[b], code[b], has, b, phi, v);
      }
    }
    forall x | x in has'
      ensures OnBlock(code', x)
    {
      assert x in has ==> OnBlock(code, x);
    }
  }

  // ----- the worklist of one variable -----

  /** What the worklist loop keeps: `s` are the blocks that store to the variable, `q` the
      blocks that have been given a phi. */
  ghost predicate Iterating(df: map<Block, set<Block>>, s: set<Block>, q: set<Block>, workList: seq<Block>, i: nat) {
    && i <= |workList|
    && (forall x {:trigger x in workList} :: x in workList <==> x in s || x in q)
    && (forall j {:trigger workList[j]} :: 0 <= j < i ==> At(df, workList[j]) <= q)
    && (forall r {:trigger Closed(df, s, r)} :: Closed(df, s, r) ==> q <= r)
  }

  lemma IterationDone(df: map<Block, set<Block>>, s: set<Block>, q: set<Block>, workList: seq<Block>)
    requires Iterating(df, s, q, workList, |workList|)
    ensures IteratedFrontier(df, s, q)
  {
    forall x | x in s || x in q
      ensures At(df, x) <= q
    {
      assert x in workList;
      var j :| 0 <= j < |workList| && workList[j] == x;
    }
  }

  /** A frontier block of the current entry is added to the list. */
  lemma IterationStep(df: map<Block, set<Block>>, s: set<Block>, q: set<Block>, workList: seq<Block>, i: nat, f: Block)
    requires Iterating(df, s, q, workList, i) && i < |workList| && f in At(df, workList[i])
    ensures Iterating(df, s, q + {f}, workList + [f], i)
  {
    forall r | Closed(df, s, r)
      ensures q + {f} <= r
    {
      assert workList[i] in workList;
      assert At(df, workList[i]) <= r;
    }
    forall j | 0 <= j < i
      ensures At(df, (workList + [f])[j]) <= q + {f}
    {
      assert At(df, workList[j]) <= q;
    }
  }

  lemma PhiBlocksAdd(has: set<(Block, Value)>, f: Block, v: Value)
    ensures PhiBlocks(has + {(f, v)}, v) == PhiBlocks(has, v) + {f}
    ensures forall u :: u != v ==> PhiBlocks(has + {(f, v)}, u) == PhiBlocks(has, u)
    ensures f in PhiBlocks(has, v) <==> (f, v) in has
  {
    assert (f, v).1 == v && (f, v).0 == f;
    assert (f, v) in has + {(f, v)};
    forall u | u != v
      ensures PhiBlocks(has + {(f, v)}, u) == PhiBlocks(has, u)
    {
    }
    forall b | b in PhiBlocks(has, v) + {f}
      ensures b in PhiBlocks(has + {(f, v)}, v)
    {
      assert (b, v) in has + {(f, v)};
    }
  }

  /** Only phis for `v` have been added. */
  ghost predicate OnlyFor(v: Value, has: set<(Block, Value)>, has': set<(Block, Value)>) {
    forall u {:trigger PhiBlocks(has', u)} :: u != v ==> PhiBlocks(has', u) == PhiBlocks(has, u)
  }

  ghost predicate PlacedFor(df: map<Block, set<Block>>, code0: Code, has: set<(Block, Value)>, v: Value) {
    IteratedFrontier(df, StoreBlocks(code0, v), PhiBlocks(has, v))
  }

  lemma NothingPlaced(df: map<Block, set<Block>>, code0: Code, v: Value)
    requires forall b :: b !in StoreBlocks(code0, v)
    ensures PlacedFor(df, code0, {}, v)
  {
    assert PhiBlocks({}, v) == {};
  }

  lemma NothingExtended(code: Code)
    ensures AllExtended(code, code, {})
  {
    forall b | b in code
      ensures ExtendedAt(code, code, {}, b)
    {
    }
  }
}
