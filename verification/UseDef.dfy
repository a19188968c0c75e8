/**
  Values, their operands, and the use lists that every pass relies on.
 */
module UseDef {

  /** Entry of a use list: operand `argNo` of `user`. */
  datatype Use = Use(user: Value, argNo: nat)

  /** The operands and use lists of a set of values at one moment. */
  datatype Snapshot = Snapshot(ops: map<Value, seq<Value?>>, uses: map<Value, seq<Use>>) {

    ghost predicate Operand(u: Value, i: nat, v: Value?) {
      u in ops && i < |ops[u]| && ops[u][i] == v
    }

    /** (u, i) is in the use list of `v` exactly once if operand `i` of `u` is `v`, and never otherwise;
        the users in `gone` have withdrawn their uses. */
    ghost predicate UsedRight(v: Value, u: Value, i: nat, gone: set<Value>) {
      v in uses && multiset(uses[v])[Use(u, i)] == if u !in gone && Operand(u, i, v) then 1 else 0
    }

    ghost predicate UseKnown(v: Value, x: Use) {
      x.user in ops && x.user.isUser
    }

    ghost predicate OperandKnown(u: Value, i: nat) {
      u in ops && i < |ops[u]| && u.isUser && (ops[u][i] == null || ops[u][i] in uses)
    }

    /** The use lists say exactly who uses what. */
    ghost predicate Consistent(gone: set<Value>) {
      && ops.Keys == uses.Keys
      && (forall v, x {:trigger UseKnown(v, x)} :: v in uses && x in uses[v] ==> UseKnown(v, x))
      && (forall u, i: nat {:trigger OperandKnown(u, i)} :: u in ops && i < |ops[u]| ==> OperandKnown(u, i))
      && (forall v, u, i: nat {:trigger UsedRight(v, u, i, gone)} :: v in uses && u in ops ==> UsedRight(v, u, i, gone))
    }

    ghost function WithOperand(u: Value, i: nat, v: Value): Snapshot
      requires u in ops && i < |ops[u]|
    {
      this.(ops := ops[u := ops[u][i := v]])
    }

    ghost function WithUse(v: Value, x: Use): Snapshot
      requires v in uses
    {
      this.(uses := uses[v := uses[v] + [x]])
    }
  }

  function WithoutUser(uses: seq<Use>, user: Value): seq<Use> {
    if uses == [] then []
    else WithoutUser(uses[..|uses| - 1], user) + if uses[|uses| - 1].user == user then [] else [uses[|uses| - 1]]
  }

  lemma {:induction false} WithoutUserCount(uses: seq<Use>, user: Value, x: Use)
    ensures multiset(WithoutUser(uses, user))[x] == if x.user == user then 0 else multiset(uses)[x]
  {
    if uses != [] {
      var n := |uses| - 1;
      WithoutUserCount(uses[..n], user, x);
      assert uses == uses[..n] + [uses[n]];
    }
  }

  /** The first value given to a reserved operand. */
  lemma SetKeeps(g: Snapshot, u: Value, i: nat, v: Value, gone: set<Value>)
    requires g.Consistent(gone) && u in g.ops && v in g.uses && u !in gone && u.isUser && i < |g.ops[u]| && g.ops[u][i] == null
    ensures g.WithOperand(u, i, v).WithUse(v, Use(u, i)).Consistent(gone)
  {
    var h := g.WithOperand(u, i, v).WithUse(v, Use(u, i));
    forall w, x | w in h.uses && x in h.uses[w]
      ensures h.UseKnown(w, x)
    {
      assert x in g.uses[w] ==> g.UseKnown(w, x);
    }
    forall w, j: nat | w in h.ops && j < |h.ops[w]|
      ensures h.OperandKnown(w, j)
    {
      assert j < |g.ops[w]| ==> g.OperandKnown(w, j);
    }
    forall w, y, j: nat | w in h.uses && y in h.ops
      ensures h.UsedRight(w, y, j, gone)
    {
      assert g.UsedRight(w, y, j, gone);
      assert !g.Operand(u, i, v);
    }
  }

  ghost function WithNew(g: Snapshot, u: Value, v: Value): Snapshot
    requires u in g.ops && v in g.uses
  {
    g.(ops := g.ops[u := g.ops[u] + [v]]).WithUse(v, Use(u, |g.ops[u]|))
  }

  /** A new operand at the end. */
  lemma AddKeeps(g: Snapshot, u: Value, v: Value, gone: set<Value>)
    requires g.Consistent(gone) && u in g.ops && v in g.uses && u !in gone && u.isUser
    ensures WithNew(g, u, v).Consistent(gone)
  {
    var h := WithNew(g, u, v);
    forall w, x | w in h.uses && x in h.uses[w]
      ensures h.UseKnown(w, x)
    {
      assert x in g.uses[w] ==> g.UseKnown(w, x);
    }
    forall w, j: nat | w in h.ops && j < |h.ops[w]|
      ensures h.OperandKnown(w, j)
    {
      assert j < |g.ops[w]| ==> g.OperandKnown(w, j);
    }
    forall w, y, j: nat | w in h.uses && y in h.ops
      ensures h.UsedRight(w, y, j, gone)
    {
      assert g.UsedRight(w, y, j, gone);
    }
  }

  /** What is left of the use list of `v` when `u`, whose operands are `ops`, withdraws. */
  function Left(uses: seq<Use>, u: Value, ops: seq<Value?>, v: Value): seq<Use> {
    if v in ops then WithoutUser(uses, u) else uses
  }

  /** All entries of one user leave the use lists of its operands. */
  ghost function Withdrawn(g: Snapshot, u: Value, ops: seq<Value?>): Snapshot {
    g.(uses := map v | v in g.uses :: Left(g.uses[v], u, ops, v))
  }

  lemma WithdrawKeeps(g: Snapshot, u: Value, gone: set<Value>)
    requires g.Consistent(gone) && u in g.ops
    ensures Withdrawn(g, u, g.ops[u]).Consistent(gone + {u})
  {
    var h := Withdrawn(g, u, g.ops[u]);
    forall w, x | w in h.uses && x in h.uses[w]
      ensures h.UseKnown(w, x)
    {
      WithoutUserCount(g.uses[w], u, x);
      assert multiset(g.uses[w])[x] > 0;
      assert g.UseKnown(w, x);
    }
    forall w, j: nat | w in h.ops && j < |h.ops[w]|
      ensures h.OperandKnown(w, j)
    {
      assert g.OperandKnown(w, j);
    }
    forall w, y, j: nat | w in h.uses && y in h.ops
      ensures h.UsedRight(w, y, j, gone + {u})
    {
      assert g.UsedRight(w, y, j, gone);
      WithoutUserCount(g.uses[w], u, Use(y, j));
    }
  }

  // ----- replacing a value -----

  function Given(ops: seq<Value?>, u: Value, done: seq<Use>, v: Value): (r: seq<Value?>)
    ensures |r| == |ops|
    ensures forall i :: 0 <= i < |ops| ==> r[i] == if Use(u, i) in done then v else ops[i]
  {
    seq(|ops|, i requires 0 <= i < |ops| => if Use(u, i) in done then v else ops[i])
  }

  /** The operands in `done` become `v`, which `x` is left out of; `x` keeps the entries in `rest`. */
  ghost function Handed(g: Snapshot, x: Value, v: Value, done: seq<Use>, rest: seq<Use>): Snapshot
    requires v in g.uses && x in g.uses
  {
    Snapshot(map u | u in g.ops :: Given(g.ops[u], u, done, v), g.uses[v := g.uses[v] + done][x := rest])
  }

  lemma EntriesAreOperands(g: Snapshot, x: Value, e: Use, gone: set<Value>)
    requires g.Consistent(gone) && x in g.uses && e in g.uses[x]
    ensures e.user in g.ops && e.user.isUser && e.user !in gone && e.argNo < |g.ops[e.user]| && g.ops[e.user][e.argNo] == x
  {
    assert g.UseKnown(x, e);
    assert g.UsedRight(x, e.user, e.argNo, gone);
    assert multiset(g.uses[x])[Use(e.user, e.argNo)] > 0;
  }

  /** Handing operands from one value to another keeps the use lists right. */
  lemma HandKeeps(g: Snapshot, x: Value, v: Value, done: seq<Use>, rest: seq<Use>, gone: set<Value>)
    requires g.Consistent(gone) && x in g.uses && v in g.uses && x != v
    requires multiset(done) + multiset(rest) == multiset(g.uses[x])
    ensures Handed(g, x, v, done, rest).Consistent(gone)
  {
    var h := Handed(g, x, v, done, rest);
    forall w, e | w in h.uses && e in h.uses[w]
      ensures h.UseKnown(w, e)
    {
      if e in done || e in rest {
        assert e in multiset(done) + multiset(rest);
        EntriesAreOperands(g, x, e, gone);
      } else {
        assert g.UseKnown(w, e);
      }
    }
    forall w, j: nat | w in h.ops && j < |h.ops[w]|
      ensures h.OperandKnown(w, j)
    {
      assert g.OperandKnown(w, j);
    }
    forall w, y, j: nat | w in h.uses && y in h.ops
      ensures h.UsedRight(w, y, j, gone)
    {
      HandedRight(g, x, v, done, rest, gone, w, y, j);
    }
  }

  lemma HandedRight(g: Snapshot, x: Value, v: Value, done: seq<Use>, rest: seq<Use>, gone: set<Value>, w: Value, y: Value, j: nat)
    requires g.Consistent(gone) && x in g.uses && v in g.uses && x != v && w in g.uses && y in g.ops
    requires multiset(done) + multiset(rest) == multiset(g.uses[x])
    ensures Handed(g, x, v, done, rest).UsedRight(w, y, j, gone)
  {
    var e := Use(y, j);
    assert g.UsedRight(w, y, j, gone) && g.UsedRight(x, y, j, gone);
    assert multiset(done)[e] + multiset(rest)[e] == multiset(g.uses[x])[e];
    assert e in done <==> multiset(done)[e] > 0;
  }

  /** The first `n` entries whose user satisfies `pred`, or, if not `want`, does not. */
  function Chosen(uses: seq<Use>, pred: Value -> bool, want: bool, n: nat): seq<Use>
    requires n <= |uses|
  {
    if n == 0 then []
    else if pred(uses[n - 1].user) == want then Chosen(uses, pred, want, n - 1) + [uses[n - 1]]
    else Chosen(uses, pred, want, n - 1)
  }

  lemma CountNext(uses: seq<Use>, last: Use, e: Use)
    ensures multiset(uses + [last])[e] == multiset(uses)[e] + if last == e then 1 else 0
  {
  }

  lemma {:induction false} ChosenCount(uses: seq<Use>, pred: Value -> bool, want: bool, n: nat, e: Use)
    requires n <= |uses|
    ensures multiset(Chosen(uses, pred, want, n))[e] == if pred(e.user) == want then multiset(uses[..n])[e] else 0
  {
    if n > 0 {
      ChosenCount(uses, pred, want, n - 1, e);
      CountNext(uses[..n - 1], uses[n - 1], e);
      CountNext(Chosen(uses, pred, want, n - 1), uses[n - 1], e);
      assert uses[..n] == uses[..n - 1] + [uses[n - 1]];
    }
  }

  lemma {:induction false} ChosenSplit(uses: seq<Use>, pred: Value -> bool, n: nat)
    requires n <= |uses|
    ensures multiset(Chosen(uses, pred, true, n)) + multiset(Chosen(uses, pred, false, n)) == multiset(uses[..n])
  {
    if n > 0 {
      ChosenSplit(uses, pred, n - 1);
      assert uses[..n] == uses[..n - 1] + [uses[n - 1]];
    }
  }

  /** What `replace_all_use_with` promises: use lists stay right, no one uses `x` any more, and an
      operand changes exactly if it was `x`. */
  lemma ReplaceAllIsRight(g: Snapshot, x: Value, v: Value, gone: set<Value>, u: Value, i: nat)
    requires g.Consistent(gone) && x in g.uses && v in g.uses && x != v && u in g.ops && u !in gone && i < |g.ops[u]|
    ensures var h := Handed(g, x, v, g.uses[x], []);
            && h.Consistent(gone) && h.uses[x] == [] && |h.ops[u]| == |g.ops[u]|
            && h.ops[u][i] == if g.ops[u][i] == x then v else g.ops[u][i]
  {
    HandKeeps(g, x, v, g.uses[x], [], gone);
    assert g.UsedRight(x, u, i, gone);
    assert Use(u, i) in g.uses[x] <==> multiset(g.uses[x])[Use(u, i)] > 0;
  }

  /** What `replace_use_with_when` promises: use lists stay right, and an operand changes exactly if it
      was `x` and its user satisfies the predicate. */
  lemma ReplaceWhenIsRight(g: Snapshot, x: Value, v: Value, pred: Value -> bool, gone: set<Value>, u: Value, i: nat)
    requires g.Consistent(gone) && x in g.uses && v in g.uses && x != v && u in g.ops && u !in gone && i < |g.ops[u]|
    ensures var uses := g.uses[x];
            var h := Handed(g, x, v, Chosen(uses, pred, true, |uses|), Chosen(uses, pred, false, |uses|));
            && h.Consistent(gone) && |h.ops[u]| == |g.ops[u]|
            && h.ops[u][i] == if g.ops[u][i] == x && pred(u) then v else g.ops[u][i]
  {
    var uses := g.uses[x];
    var done, rest := Chosen(uses, pred, true, |uses|), Chosen(uses, pred, false, |uses|);
    assert uses[..|uses|] == uses;
    ChosenSplit(uses, pred, |uses|);
    HandKeeps(g, x, v, done, rest, gone);
    assert g.UsedRight(x, u, i, gone);
    ChosenCount(uses, pred, true, |uses|, Use(u, i));
    assert Use(u, i) in done <==> multiset(done)[Use(u, i)] > 0;
  }

  /** Once nobody left uses the values in `gone`, they can be forgotten. */
  lemma EraseKeeps(g: Snapshot, gone: set<Value>)
    requires g.Consistent(gone)
    requires forall u, i: nat {:trigger g.ops[u][i]} :: u in g.ops && u !in gone && i < |g.ops[u]| ==> g.ops[u][i] !in gone
    ensures Snapshot(g.ops - gone, g.uses - gone).Consistent({})
  {
    var h := Snapshot(g.ops - gone, g.uses - gone);
    forall w, e | w in h.uses && e in h.uses[w]
      ensures h.UseKnown(w, e)
    {
      EntriesAreOperands(g, w, e, gone);
    }
    forall w, j: nat | w in h.ops && j < |h.ops[w]|
      ensures h.OperandKnown(w, j)
    {
      assert g.OperandKnown(w, j);
    }
    forall w, y, j: nat | w in h.uses && y in h.ops
      ensures h.UsedRight(w, y, j, {})
    {
      assert g.UsedRight(w, y, j, gone);
    }
  }

  lemma Partway(rest: seq<Use>, uses: seq<Use>, n: nat)
    requires n < |uses|
    ensures var s, it := rest + uses[n..], |rest|;
            && s[it] == uses[n] && s[..it] + s[it + 1..] == rest + uses[n + 1..] && s == rest + [uses[n]] + uses[n + 1..]
  {
  }

  lemma NextGiven(ops: seq<Value?>, u: Value, done: seq<Use>, e: Use, v: Value)
    ensures Given(ops, u, done + [e], v) == if u == e.user && e.argNo < |ops| then Given(ops, u, done, v)[e.argNo := v] else Given(ops, u, done, v)
  {
  }

  // ----- the classes -----

  ghost predicate EntriesExist(all: set<Value>, uses: seq<Use>)
    reads all
  {
    forall k {:trigger uses[k]} :: 0 <= k < |uses| ==> uses[k].user in all && uses[k].argNo < |uses[k].user.operands|
  }

  /** A value; one that is a `User` also has operands, which may not have been set yet. */
  class Value {
    const isUser: bool
    var useList: seq<Use>
    var operands: seq<Value?>

    /** `num_ops` operands are reserved and null. */
    constructor (isUser: bool, numOps: nat)
      ensures this.isUser == isUser && useList == [] && operands == seq(numOps, _ => null)
    {
      this.isUser, useList, operands := isUser, [], seq(numOps, _ => null);
    }

    method AddUse(user: Value, argNo: nat)
      modifies this`useList
      ensures useList == old(useList) + [Use(user, argNo)]
    {
      useList := useList + [Use(user, argNo)];
    }

    method RemoveUse(user: Value)
      modifies this`useList
      ensures useList == WithoutUser(old(useList), user)
    {
      useList := WithoutUser(useList, user);
    }

    method SetOperand(i: nat, v: Value)
      requires i < |operands|
      modifies this`operands, v`useList
      ensures operands == old(operands)[i := v] && v.useList == old(v.useList) + [Use(this, i)]
    {
      operands := operands[i := v];
      v.AddUse(this, i);
    }

    /** What the constructor of an instruction with fixed operands does: fill each of them, once. */
    method SetOperands(vals: seq<Value>, ghost all: set<Value>, ghost gone: set<Value>)
      requires this in all && this !in gone && isUser && operands == seq(|vals|, _ => null)
      requires (forall v :: v in vals ==> v in all) && Snap(all).Consistent(gone)
      modifies this`operands, all`useList
      ensures operands == vals && Snap(all).Consistent(gone)
    {
      for k := 0 to |vals|
        invariant |operands| == |vals| && Snap(all).Consistent(gone)
        invariant forall i {:trigger operands[i]} :: 0 <= i < |vals| ==> operands[i] == if i < k then vals[i] else null
      {
        ghost var g := Snap(all);
        SetKeeps(g, this, k, vals[k], gone);
        SetOperand(k, vals[k]);
        SnapIs(all, g.WithOperand(this, k, vals[k]).WithUse(vals[k], Use(this, k)));
      }
    }

    method AddOperand(v: Value, ghost all: set<Value>)
      requires this in all && v in all
      modifies this`operands, v`useList
      ensures Snap(all) == WithNew(old(Snap(all)), this, v)
    {
      ghost var g := WithNew(Snap(all), this, v);
      operands := operands + [v];
      v.AddUse(this, |operands| - 1);
      SnapIs(all, g);
    }

    /** Before a user is erased, its operands forget it. */
    method RemoveUseOfOps(ghost all: set<Value>)
      requires this in all && forall k :: 0 <= k < |operands| ==> operands[k] in all
      modifies all`useList
      ensures Snap(all) == Withdrawn(old(Snap(all)), this, operands)
    {
      for k := 0 to |operands|
        invariant forall v {:trigger v.useList} :: v in all ==> v.useList == Left(old(v.useList), this, operands[..k], v)
      {
        var op := operands[k];
        WithoutUserTwice(old(op.useList), this);
        op.RemoveUse(this);
        assert operands[..k + 1] == operands[..k] + [op];
      }
      assert operands[..|operands|] == operands;
      SnapIs(all, Withdrawn(old(Snap(all)), this, operands));
    }

    /** Give one use to `v` and erase its entry. */
    method MoveUse(it: nat, v: Value)
      requires v != this && it < |useList| && useList[it].argNo < |useList[it].user.operands|
      modifies this`useList, v`useList, useList[it].user`operands
      ensures useList == old(useList[..it] + useList[it + 1..]) && v.useList == old(v.useList + [useList[it]])
      ensures var e := old(useList[it]); e.user.operands == old(e.user.operands)[e.argNo := v]
    {
      var use := useList[it];
      use.user.SetOperand(use.argNo, v);
      useList := useList[..it] + useList[it + 1..];
    }

    /** The loop of `replace_use_with_when`. */
    method MoveUses(v: Value, pred: Value -> bool, ghost all: set<Value>)
      requires this in all && v in all && v != this && EntriesExist(all, useList)
      modifies all`useList, all`operands
      ensures var uses := old(useList); var done := Chosen(uses, pred, true, |uses|);
              && useList == Chosen(uses, pred, false, |uses|) && v.useList == old(v.useList) + done
              && (forall w {:trigger w.useList} :: w in all && w != v && w != this ==> w.useList == old(w.useList))
              && (forall u {:trigger u.operands} :: u in all ==> u.operands == Given(old(u.operands), u, done, v))
    {
      ghost var uses := useList;
      ghost var done: seq<Use>, rest: seq<Use>, seen := [], [], 0;
      var it := 0;
      while it < |useList|
        invariant seen <= |uses| && done == Chosen(uses, pred, true, seen) && rest == Chosen(uses, pred, false, seen)
        invariant it == |rest| && useList == rest + uses[seen..] && v.useList == old(v.useList) + done
        invariant forall w {:trigger w.useList} :: w in all && w != v && w != this ==> w.useList == old(w.useList)
        invariant forall u {:trigger u.operands} :: u in all ==> u.operands == Given(old(u.operands), u, done, v)
        decreases |uses| - seen
      {
        Partway(rest, uses, seen);
        var use := useList[it];
        assert use == uses[seen];
        seen := seen + 1;
        if !pred(use.user) {
          it, rest := it + 1, rest + [use];
        } else {
          label before:
          MoveUse(it, v);
          forall u | u in all
            ensures u.operands == Given(old(u.operands), u, done + [use], v)
          {
            assert old@before(u.operands) == Given(old(u.operands), u, done, v);
            NextGiven(old(u.operands), u, done, use, v);
          }
          done := done + [use];
        }
      }
      assert seen == |uses| && useList == rest;
    }

    /** The operands that are this value become `v` if `pred` picks their user; nothing else changes. */
    method ReplaceUseWithWhen(v: Value, pred: Value -> bool, ghost all: set<Value>)
      requires this in all && v in all && v != this && EntriesExist(all, useList)
      modifies all`useList, all`operands
      ensures var uses := old(useList);
              Snap(all) == Handed(old(Snap(all)), this, v, Chosen(uses, pred, true, |uses|), Chosen(uses, pred, false, |uses|))
    {
      ghost var g, uses := Snap(all), useList;
      MoveUses(v, pred, all);
      SnapIs(all, Handed(g, this, v, Chosen(uses, pred, true, |uses|), Chosen(uses, pred, false, |uses|)));
    }

    /** Every operand that is this value becomes `v`; nothing else changes. */
    method ReplaceAllUseWith(v: Value, ghost all: set<Value>)
      requires this in all && v in all && v != this && EntriesExist(all, useList)
      modifies all`useList, all`operands
      ensures Snap(all) == Handed(old(Snap(all)), this, v, old(useList), [])
    {
      ghost var g := Snap(all);
      for k := 0 to |useList|
        invariant useList == old(useList) && v.useList == old(v.useList) + useList[..k]
        invariant forall w {:trigger w.useList} :: w in all && w != v ==> w.useList == old(w.useList)
        invariant forall u {:trigger u.operands} :: u in all ==> u.operands == Given(old(u.operands), u, useList[..k], v)
      {
        var use := useList[k];
        use.user.SetOperand(use.argNo, v);
        assert useList[..k + 1] == useList[..k] + [use];
      }
      assert useList[..|useList|] == useList;
      useList := [];
      SnapIs(all, Handed(g, this, v, old(useList), []));
    }
  }

  ghost function Snap(all: set<Value>): Snapshot
    reads all
  {
    Snapshot(map v | v in all :: v.operands, map v | v in all :: v.useList)
  }

  lemma {:induction false} WithoutUserTwice(uses: seq<Use>, user: Value)
    ensures WithoutUser(WithoutUser(uses, user), user) == WithoutUser(uses, user)
  {
    if uses != [] {
      var n := |uses| - 1;
      WithoutUserTwice(uses[..n], user);
      if uses[n].user != user {
        var t := WithoutUser(uses[..n], user) + [uses[n]];
        assert t[..|t| - 1] == WithoutUser(uses[..n], user);
      } else {
        assert WithoutUser(uses, user) == WithoutUser(uses[..n], user);
      }
    }
  }

  lemma SnapIs(all: set<Value>, g: Snapshot)
    requires g.ops.Keys == all && g.uses.Keys == all
    requires forall v {:trigger g.ops[v]} {:trigger v.operands} :: v in all ==> g.ops[v] == v.operands
    requires forall v {:trigger g.uses[v]} {:trigger v.useList} :: v in all ==> g.uses[v] == v.useList
    ensures Snap(all) == g
  {
  }

  /** No operand of the users in `us` is unset. */
  ghost predicate AllSet(all: set<Value>, us: set<Value>)
    reads us
  {
    forall u {:trigger u.operands} :: u in us ==> forall k :: 0 <= k < |u.operands| ==> u.operands[k] in all
  }

  /** What sweeping does to the use lists before it erases the instructions in `waitDel`. */
  method WithdrawAll(waitDel: set<Value>, ghost all: set<Value>)
    requires waitDel <= all && AllSet(all, waitDel) && Snap(all).Consistent({})
    modifies all`useList
    ensures Snap(all).Consistent(waitDel) && Snap(all).ops == old(Snap(all).ops)
  {
    var rest := waitDel;
    ghost var gone: set<Value> := {};
    while rest != {}
      invariant rest <= waitDel && gone == waitDel - rest && Snap(all).Consistent(gone) && Snap(all).ops == old(Snap(all).ops)
      decreases |rest|
    {
      var inst :| inst in rest;
      WithdrawKeeps(Snap(all), inst, gone);
      inst.RemoveUseOfOps(all);
      rest := rest - {inst};
      gone := gone + {inst};
    }
    assert gone == waitDel;
  }
}
