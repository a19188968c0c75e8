/**
  Running emitted code one instruction at a time.
 */
module Walking {
  import opened Cfg
  import I = Ir
  import R = Running

  datatype Config = At(b: Block, i: nat, s: R.State) | Done(exit: R.Exit, mem: map<int, int>, trace: seq<R.Event>) | Crash

  /** Execute the instruction at position `i` of block `b`. The code has no phis. */
  ghost function Next(m: R.Machine, code: I.Code, c: Config): Config {
    match c
    case At(b, i, s) =>
      if b !in code || i >= |code[b]| then Crash
      else if !I.IsTerminator(code[b][i]) then At(b, i + 1, R.Step(m, code[b][i], s))
      else
        (match R.Leave(m, [code[b][i]], s)
         case Goto(t) => At(t, 0, s)
         case Stuck => Crash
         case exit => Done(exit, s.mem, s.trace))
    case other => other
  }

  ghost function Walk(m: R.Machine, code: I.Code, c: Config, n: nat): Config {
    if n == 0 then c else Next(m, code, Walk(m, code, c, n - 1))
  }

  ghost predicate Reach(m: R.Machine, code: I.Code, c: Config, d: Config) {
    exists n: nat :: Walk(m, code, c, n) == d
  }

  lemma {:induction false} WalkAdd(m: R.Machine, code: I.Code, c: Config, n: nat, k: nat)
    ensures Walk(m, code, c, n + k) == Walk(m, code, Walk(m, code, c, n), k)
  {
    if k > 0 {
      WalkAdd(m, code, c, n, k - 1);
    }
  }

  lemma ReachRefl(m: R.Machine, code: I.Code, c: Config)
    ensures Reach(m, code, c, c)
  {
    assert Walk(m, code, c, 0) == c;
  }

  lemma ReachTrans(m: R.Machine, code: I.Code, a: Config, b: Config, c: Config)
    requires Reach(m, code, a, b) && Reach(m, code, b, c)
    ensures Reach(m, code, a, c)
  {
    var n: nat :| Walk(m, code, a, n) == b;
    var k: nat :| Walk(m, code, b, k) == c;
    WalkAdd(m, code, a, n, k);
  }

  lemma ReachNext(m: R.Machine, code: I.Code, c: Config)
    ensures Reach(m, code, c, Next(m, code, c))
  {
    assert Walk(m, code, c, 0) == c;
    assert Walk(m, code, c, 1) == Next(m, code, c);
  }

  /** The run goes on for at least `k` steps. */
  ghost predicate Long(m: R.Machine, code: I.Code, c: Config, k: nat) {
    exists n: nat :: n >= k && Walk(m, code, c, n).At?
  }

  lemma LongAfter(m: R.Machine, code: I.Code, a: Config, b: Config, k: nat)
    requires Reach(m, code, a, b) && Long(m, code, b, k)
    ensures Long(m, code, a, k) && (a != b ==> Long(m, code, a, k + 1))
  {
    var n: nat :| Walk(m, code, a, n) == b;
    var i: nat :| i >= k && Walk(m, code, b, i).At?;
    WalkAdd(m, code, a, n, i);
    assert n == 0 ==> a == b;
  }

  // ----- and block by block -----

  /** A block ends in its only terminator and has no phis. */
  predicate BlockForm(body: seq<I.Instr>) {
    && body != [] && I.IsTerminator(body[|body| - 1])
    && forall k {:trigger body[k]} :: 0 <= k < |body| ==> !body[k].op.Phi? && (k < |body| - 1 ==> !I.IsTerminator(body[k]))
  }

  lemma {:induction false} NoPhis(m: R.Machine, body: seq<I.Instr>, from: Block, regs: map<nat, int>)
    requires forall k :: 0 <= k < |body| ==> !body[k].op.Phi?
    ensures R.PhiValues(m, body, from, regs) == map[]
  {
    if body != [] {
      NoPhis(m, body[..|body| - 1], from, regs);
    }
  }

  lemma {:induction false} WalkInside(m: R.Machine, code: I.Code, b: Block, s: R.State, i: nat)
    requires b in code && BlockForm(code[b]) && i < |code[b]|
    ensures Walk(m, code, At(b, 0, s), i) == At(b, i, R.Steps(m, code[b][..i], s))
  {
    if i > 0 {
      WalkInside(m, code, b, s, i - 1);
      var t := code[b][..i];
      assert t[..|t| - 1] == code[b][..i - 1] && t[|t| - 1] == code[b][i - 1];
    }
  }

  lemma {:induction false} StaysDone(m: R.Machine, code: I.Code, c: Config, n: nat)
    requires !c.At?
    ensures Walk(m, code, c, n) == c
  {
    if n > 0 {
      StaysDone(m, code, c, n - 1);
    }
  }

  lemma LeaveLast(m: R.Machine, body: seq<I.Instr>, s: R.State)
    requires body != [] && I.IsTerminator(body[|body| - 1])
    ensures R.Leave(m, body, s) == R.Leave(m, [body[|body| - 1]], s)
    ensures R.Steps(m, body, s) == R.Steps(m, body[..|body| - 1], s)
  {
  }

  ghost function After(m: R.Machine, body: seq<I.Instr>, s: R.State): Config {
    match R.Leave(m, body, s)
    case Goto(t) => At(t, 0, s)
    case Stuck => Crash
    case exit => Done(exit, s.mem, s.trace)
  }

  lemma WalkBlock(m: R.Machine, code: I.Code, b: Block, s: R.State)
    requires b in code && BlockForm(code[b])
    ensures Walk(m, code, At(b, 0, s), |code[b]|) == After(m, code[b], R.Steps(m, code[b], s))
  {
    var k := |code[b]| - 1;
    WalkInside(m, code, b, s, k);
    LeaveLast(m, code[b], s);
    LeaveLast(m, code[b], R.Steps(m, code[b], s));
  }

  lemma EnterSame(m: R.Machine, body: seq<I.Instr>, from: Block, s: R.State)
    requires BlockForm(body)
    ensures R.Enter(m, body, from, s) == s
  {
    NoPhis(m, body, from, s.regs);
    assert s.regs + map[] == s.regs;
  }

  lemma NowhereCrashes(m: R.Machine, code: I.Code, b: Block, s: R.State, n: nat)
    ensures b !in code ==> !Walk(m, code, At(b, 0, s), n).Done?
  {
    if n > 0 && b !in code {
      WalkAdd(m, code, At(b, 0, s), 1, n - 1);
      assert Walk(m, code, At(b, 0, s), 0) == At(b, 0, s);
      StaysDone(m, code, Crash, n - 1);
    }
  }

  /** Running block by block ends as walking does: same way of ending, same memory, same trace. */
  lemma {:induction false} WalkIsRun(m: R.Machine, code: I.Code, from: Block, b: Block, s: R.State, n: nat, end: Config) returns (fuel: nat)
    requires forall x {:trigger code[x]} :: x in code ==> BlockForm(code[x])
    requires Walk(m, code, At(b, 0, s), n) == end && end.Done?
    ensures var seen := R.Run(m, code, from, b, s, fuel); seen.exit == end.exit && seen.mem == end.mem && seen.trace == end.trace
    decreases n
  {
    NowhereCrashes(m, code, b, s, n);
    assert b in code;
    var len := |code[b]|;
    if n < len {
      WalkInside(m, code, b, s, n);
    }
    assert n >= len;
    WalkBlock(m, code, b, s);
    EnterSame(m, code[b], from, s);
    WalkAdd(m, code, At(b, 0, s), len, n - len);
    var s' := R.Steps(m, code[b], s);
    if R.Leave(m, code[b], s').Goto? {
      fuel := WalkIsRun(m, code, b, R.Leave(m, code[b], s').target, s', n - len, end);
      fuel := fuel + 1;
    } else {
      StaysDone(m, code, After(m, code[b], s'), n - len);
      fuel := 1;
    }
  }

  /** And walking ends as running block by block does. */
  lemma {:induction false} RunIsWalk(m: R.Machine, code: I.Code, from: Block, b: Block, s: R.State, fuel: nat)
    requires forall x {:trigger code[x]} :: x in code ==> BlockForm(code[x])
    requires var seen := R.Run(m, code, from, b, s, fuel); seen.exit.Return? || seen.exit.ReturnVoid?
    ensures var seen := R.Run(m, code, from, b, s, fuel); Reach(m, code, At(b, 0, s), Done(seen.exit, seen.mem, seen.trace))
    decreases fuel
  {
    assert fuel > 0 && b in code;
    WalkBlock(m, code, b, s);
    EnterSame(m, code[b], from, s);
    var s' := R.Steps(m, code[b], s);
    var seen := R.Run(m, code, from, b, s, fuel);
    assert Reach(m, code, At(b, 0, s), After(m, code[b], s'));
    if R.Leave(m, code[b], s').Goto? {
      var t := R.Leave(m, code[b], s').target;
      RunIsWalk(m, code, b, t, s', fuel - 1);
      ReachTrans(m, code, At(b, 0, s), At(t, 0, s'), Done(seen.exit, seen.mem, seen.trace));
    }
  }

  /** A run ends in one way only. */
  lemma OneEnd(m: R.Machine, code: I.Code, c: Config, d: Config, e: Config)
    requires Reach(m, code, c, d) && d.Done? && Reach(m, code, c, e) && e.Done?
    ensures d == e
  {
    var i: nat :| Walk(m, code, c, i) == d;
    var j: nat :| Walk(m, code, c, j) == e;
    if i <= j {
      WalkAdd(m, code, c, i, j - i);
      StaysDone(m, code, d, j - i);
    } else {
      WalkAdd(m, code, c, j, i - j);
      StaysDone(m, code, e, i - j);
    }
  }

  /** A run that ends after `n` steps is not longer than that. */
  lemma EndsBefore(m: R.Machine, code: I.Code, c: Config, n: nat)
    requires Walk(m, code, c, n).Done?
    ensures !Long(m, code, c, n)
  {
    forall k: nat | k >= n
      ensures !Walk(m, code, c, k).At?
    {
      WalkAdd(m, code, c, n, k - n);
      StaysDone(m, code, Walk(m, code, c, n), k - n);
    }
  }
}
