/**
  Partitions of values into congruence classes, and what joining them and moving one value in them means
  for the relation between values.
 */
module Partition {
  import opened Options

  /** A value expression. Operands that are values, constants or functions are told apart by their addresses. */
  datatype Expression =
    | ConstantE(c: nat)
    | BinaryE(op: nat, l: Expression, r: Expression)
    | PhiE(l: Expression, r: Expression)
    | CmpE(cmp: nat, lhs: nat, rhs: nat)
    | FCmpE(cmp: nat, lhs: nat, rhs: nat)
    | CallE(args: seq<nat>)
    | GepE(args: seq<nat>)
    | ConvertE(e: Expression, op: nat)
    | OtherE(id: nat)
    | GlobalE(g: nat)
    | ArgumentE(a: nat)

  /** `operator==`: first the kinds, then kind by kind. */
  predicate Equiv(a: Expression, b: Expression) {
    match (a, b)
    case (ConstantE(c), ConstantE(d)) => c == d
    case (BinaryE(o, l, r), BinaryE(o', l', r')) => o == o' && Equiv(l, l') && Equiv(r, r')
    case (PhiE(l, r), PhiE(l', r')) => Equiv(l, l') && Equiv(r, r')
    case (CmpE(o, l, r), CmpE(o', l', r')) => o == o' && l == l' && r == r'
    case (FCmpE(o, l, r), FCmpE(o', l', r')) => o == o' && l == l' && r == r'
    case (CallE(s), CallE(t)) => s == t
    case (GepE(s), GepE(t)) => s == t
    case (ConvertE(e, o), ConvertE(e', o')) => Equiv(e, e') && o == o'
    case (OtherE(i), OtherE(j)) => i == j
    case (GlobalE(i), GlobalE(j)) => i == j
    case (ArgumentE(i), ArgumentE(j)) => i == j
    case _ => false
  }

  /** Expressions are equal exactly if they have the same structure. */
  lemma {:induction false} EquivIsSame(a: Expression, b: Expression)
    ensures Equiv(a, b) <==> a == b
  {
    match (a, b)
    case (BinaryE(_, l, r), BinaryE(_, l', r')) =>
      EquivIsSame(l, l');
      EquivIsSame(r, r');
    case (PhiE(l, r), PhiE(l', r')) =>
      EquivIsSame(l, l');
      EquivIsSame(r, r');
    case (ConvertE(e, _), ConvertE(e', _)) => EquivIsSame(e, e');
    case _ =>
  }

  /** A congruence class. The class with index 0 is top: all values, without members. */
  datatype Class = Class(index: nat, leader: Option<nat>, expr: Option<Expression>, phi: Option<Expression>, members: set<nat>)

  // ----- partitions -----

  ghost predicate Before(p: seq<Class>, i: nat, j: nat) {
    i < j < |p| ==> p[i].index < p[j].index
  }

  /** The set is ordered by index and holds no index twice. */
  ghost predicate Sorted(p: seq<Class>) {
    forall i: nat, j: nat {:trigger Before(p, i, j)} :: Before(p, i, j)
  }

  ghost predicate Apart(p: seq<Class>, c: Class, d: Class) {
    c in p && d in p && c != d ==> c.members !! d.members
  }

  ghost predicate ClassOk(c: Class, n: nat) {
    c.index < n && if c.index == 0 then c.members == {} && c.expr.None? && c.phi.None? else c.members != {} && c.expr.Some?
  }

  /** Classes with different indices below `n`, disjoint, and non-empty except for top. */
  ghost predicate Ok(p: seq<Class>, n: nat) {
    && Sorted(p)
    && (forall c {:trigger c in p} :: c in p ==> ClassOk(c, n))
    && (forall c, d {:trigger Apart(p, c, d)} :: Apart(p, c, d))
  }

  ghost predicate Together(p: seq<Class>, c: Class, x: nat, y: nat) {
    c in p && x in c.members && y in c.members
  }

  /** `x` and `y` are in one class. */
  ghost predicate Same(p: seq<Class>, x: nat, y: nat) {
    exists c :: Together(p, c, x, y)
  }

  predicate HasTop(p: seq<Class>) {
    p != [] && p[0].index == 0
  }

  lemma SortedPrefix(p: seq<Class>, n: nat)
    requires Sorted(p) && n <= |p|
    ensures Sorted(p[..n])
  {
    forall i: nat, j: nat
      ensures Before(p[..n], i, j)
    {
      assert Before(p, i, j);
    }
  }

  // ----- inserting -----

  /** `insert` into the ordered set: nothing happens if the index is there. */
  function Inserted(p: seq<Class>, c: Class): (r: seq<Class>)
    ensures r != []
  {
    if p == [] then [c]
    else
      var last := p[|p| - 1];
      if last.index < c.index then p + [c]
      else if last.index == c.index then p
      else Inserted(p[..|p| - 1], c) + [last]
  }

  /** Where a class is inserted. */
  lemma {:induction false} InsertedAt(p: seq<Class>, c: Class, k: nat)
    requires k <= |p| && (forall m :: k <= m < |p| ==> p[m].index > c.index) && (k > 0 ==> p[k - 1].index <= c.index)
    ensures Inserted(p, c) == if k > 0 && p[k - 1].index == c.index then p else p[..k] + [c] + p[k..]
  {
    if k < |p| {
      var n := |p| - 1;
      var q := p[..n];
      assert k > 0 ==> q[k - 1] == p[k - 1];
      InsertedAt(q, c, k);
      assert p == q + [p[n]];
      assert q[..k] == p[..k];
      assert p[k..] == q[k..] + [p[n]];
    } else {
      assert p[..k] == p && p[k..] == [];
    }
  }

  lemma TopIsFirst(p: seq<Class>, n: nat, i: nat)
    requires Ok(p, n) && i < |p|
    ensures p[i].index == 0 ==> i == 0
  {
    assert Before(p, 0, i);
  }

  ghost predicate IsNew(p: seq<Class>, index: nat) {
    forall c {:trigger c in p} :: c in p ==> c.index != index
  }

  /** A class with a new index is not dropped, and the set stays in order. */
  lemma {:induction false} InsertedKeeps(p: seq<Class>, c: Class)
    requires Sorted(p) && IsNew(p, c.index)
    ensures Sorted(Inserted(p, c))
    ensures forall d {:trigger d in Inserted(p, c)} :: d in Inserted(p, c) <==> d in p || d == c
  {
    if p != [] {
      var q, last := p[..|p| - 1], p[|p| - 1];
      var r := Inserted(p, c);
      assert p == q + [last];
      SortedPrefix(p, |q|);
      assert last in p;
      if last.index < c.index {
        forall i: nat, j: nat
          ensures Before(r, i, j)
        {
          assert Before(p, i, j) && Before(p, i, |q|);
        }
      } else {
        assert forall d :: d in q ==> d in p;
        InsertedKeeps(q, c);
        forall i: nat, j: nat
          ensures Before(r, i, j)
        {
          assert Before(Inserted(q, c), i, j);
          if i < j == |r| - 1 {
            assert r[i] in Inserted(q, c);
            if r[i] in q {
              var k :| 0 <= k < |q| && q[k] == r[i];
              assert Before(p, k, |q|);
            }
          }
        }
      }
    }
  }

  lemma InsertedOk(p: seq<Class>, c: Class, n: nat, n': nat)
    requires Ok(p, n) && IsNew(p, c.index) && ClassOk(c, n') && n <= n' && forall d {:trigger d in p} :: d in p ==> d.members !! c.members
    ensures Ok(Inserted(p, c), n')
  {
    InsertedKeeps(p, c);
    var r := Inserted(p, c);
    forall d, e
      ensures Apart(r, d, e)
    {
      assert Apart(p, d, e);
    }
  }

  // ----- joining -----

  lemma {:induction false} HasLeast(s: set<nat>, x: nat)
    requires x in s
    ensures exists l :: l in s && forall y :: y in s ==> l <= y
  {
    if exists y :: y in s && y < x {
      var y :| y in s && y < x;
      HasLeast(s, y);
    }
  }

  /** `*begin()` of an ordered set. */
  function Least(s: set<nat>): (x: nat)
    requires s != {}
    ensures x in s && forall y :: y in s ==> x <= y
  {
    assert exists l :: l in s && forall y :: y in s ==> l <= y by {
      var y :| y in s;
      HasLeast(s, y);
    }
    var x :| x in s && forall y :: y in s ==> x <= y;
    x
  }

  /** The class of the common members of two classes: the first class itself if it has the same members as the
      second, none if there are none, and else a new one with the next index. */
  function Intersection(a: Class, b: Class, n: nat): Option<Class> {
    var inter := a.members * b.members;
    if a.members == b.members then Some(a)
    else if inter == {} then None
    else if a.leader == b.leader then
      var leader := if a.expr.Some? && a.expr.value.ConstantE? then a.expr.value.c else Least(inter);
      Some(Class(n, Some(leader), a.expr, a.phi, inter))
    else
      var phi := if a.expr.Some? && b.expr.Some? then Some(PhiE(a.expr.value, b.expr.value)) else None;
      Some(Class(n, Some(Least(inter)), phi, phi, inter))
  }

  datatype Edge = LeftEdge | RightEdge

  /** What an expression stands for when control has come in along one of two edges: a phi for its operand there. */
  function OnEdge(e: Expression, edge: Edge): Expression {
    match e
    case PhiE(l, r) => if edge.LeftEdge? then l else r
    case _ => e
  }

  /** The leader is the constant that the members are equal to, or else the least member. */
  ghost predicate WellLed(c: Class) {
    match c.expr
    case Some(ConstantE(k)) => c.leader == Some(k)
    case _ => c.leader.Some? && c.leader.value in c.members && forall y :: y in c.members ==> c.leader.value <= y
  }

  /** `c` stands for the common members of `a`, which holds on the left edge, and `b`, which holds on the right one: it is
      `a` if the members are the same. Else it has the expression and phi of both if they have one leader; if not, its
      expression and its phi are what `a` is on the left edge and what `b` is on the right one. */
  ghost predicate JoinedOf(a: Class, b: Class, c: Class) {
    && c.members == a.members * b.members && c.members != {}
    && (a.members == b.members ==> c == a)
    && (a.members != b.members ==> WellLed(c))
    && (a.members != b.members && a.leader == b.leader ==> c.expr == a.expr && c.phi == a.phi)
    && (a.members != b.members && a.leader != b.leader ==>
          && c.expr.Some? && c.expr.value.PhiE? && c.phi == c.expr
          && Some(OnEdge(c.expr.value, LeftEdge)) == a.expr && Some(OnEdge(c.expr.value, RightEdge)) == b.expr)
  }

  ghost predicate JoinedFrom(v1: seq<Class>, v2: seq<Class>, c: Class) {
    exists a, b :: a in v1 && b in v2 && JoinedOf(a, b, c)
  }

  /** The class of the common members is what it should be, and there is one if there are any. */
  lemma IntersectionMeans(a: Class, b: Class, n: nat)
    requires a.expr.Some? && b.expr.Some? && a.members != {} && b.members != {}
    ensures Intersection(a, b, n).None? <==> a.members * b.members == {}
    ensures Intersection(a, b, n).Some? ==> JoinedOf(a, b, Intersection(a, b, n).value)
    ensures Intersection(a, b, n).Some? && a.members != b.members ==> Intersection(a, b, n).value.index == n
  {
  }

  /** The pairs that the two loops have been through. */
  predicate Past(i: nat, j: nat, a: nat, b: nat) {
    a < i || (a == i && b < j)
  }

  ghost predicate FromPair(v1: seq<Class>, v2: seq<Class>, i: nat, j: nat, c: Class, a: nat, b: nat) {
    a < |v1| && b < |v2| && Past(i, j, a, b) && c.members == v1[a].members * v2[b].members
  }

  ghost predicate FromSome(v1: seq<Class>, v2: seq<Class>, i: nat, j: nat, c: Class) {
    exists a: nat, b: nat :: FromPair(v1, v2, i, j, c, a, b)
  }

  ghost predicate TakenOver(v1: seq<Class>, v2: seq<Class>, i: nat, j: nat, c: Class) {
    exists a: nat, b: nat :: FromPair(v1, v2, i, j, c, a, b) && c == v1[a] && v1[a].members == v2[b].members
  }

  ghost predicate HasMembers(p: seq<Class>, s: set<nat>) {
    exists c :: c in p && c.members == s
  }

  ghost predicate PairDone(v1: seq<Class>, v2: seq<Class>, i: nat, j: nat, r: seq<Class>, a: nat, b: nat) {
    a < |v1| && b < |v2| && Past(i, j, a, b) && v1[a].members * v2[b].members != {} ==> HasMembers(r, v1[a].members * v2[b].members)
  }

  /** What the loops of `join` keep: the classes so far are the intersections of the pairs so far. */
  ghost predicate JoinInv(v1: seq<Class>, v2: seq<Class>, i: nat, j: nat, r: seq<Class>, n0: nat, n: nat) {
    && n0 <= n && Ok(r, n) && !HasTop(r)
    && (forall c {:trigger FromSome(v1, v2, i, j, c)} :: c in r ==> FromSome(v1, v2, i, j, c))
    && (forall c {:trigger TakenOver(v1, v2, i, j, c)} :: c in r && c.index < n0 ==> TakenOver(v1, v2, i, j, c))
    && (forall c {:trigger JoinedFrom(v1, v2, c)} :: c in r ==> JoinedFrom(v1, v2, c))
    && (forall a: nat, b: nat {:trigger PairDone(v1, v2, i, j, r, a, b)} :: PairDone(v1, v2, i, j, r, a, b))
  }

  lemma SkipPair(v1: seq<Class>, v2: seq<Class>, i: nat, j: nat, i': nat, j': nat, r: seq<Class>, n0: nat, n: nat)
    requires JoinInv(v1, v2, i, j, r, n0, n)
    requires forall a: nat, b: nat :: a < |v1| && b < |v2| && Past(i', j', a, b) ==> Past(i, j, a, b) || v1[a].members * v2[b].members == {}
    requires forall a: nat, b: nat :: Past(i, j, a, b) ==> Past(i', j', a, b)
    ensures JoinInv(v1, v2, i', j', r, n0, n)
  {
    forall c | c in r
      ensures FromSome(v1, v2, i', j', c) && (c.index < n0 ==> TakenOver(v1, v2, i', j', c)) && JoinedFrom(v1, v2, c)
    {
      assert FromSome(v1, v2, i, j, c);
      var a: nat, b: nat :| FromPair(v1, v2, i, j, c, a, b);
      assert FromPair(v1, v2, i', j', c, a, b);
      if c.index < n0 {
        assert TakenOver(v1, v2, i, j, c);
        var d: nat, e: nat :| FromPair(v1, v2, i, j, c, d, e) && c == v1[d] && v1[d].members == v2[e].members;
        assert FromPair(v1, v2, i', j', c, d, e);
      }
    }
    forall a: nat, b: nat
      ensures PairDone(v1, v2, i', j', r, a, b)
    {
      assert PairDone(v1, v2, i, j, r, a, b);
    }
  }

  lemma SamePlace(v: seq<Class>, a: nat, b: nat)
    requires Sorted(v) && a < |v| && b < |v| && v[a].index == v[b].index
    ensures a == b
  {
    assert Before(v, a, b) && Before(v, b, a);
  }

  /** The class of the next pair has a new index: nothing is dropped when it is inserted. */
  lemma NextIsNew(v1: seq<Class>, v2: seq<Class>, i: nat, j: nat, r: seq<Class>, n0: nat, n: nat, c: Class)
    requires JoinInv(v1, v2, i, j, r, n0, n) && Ok(v1, n0) && Ok(v2, n0) && i < |v1| && j < |v2| && v1[i].index > 0 && v2[j].index > 0
    requires Intersection(v1[i], v2[j], n) == Some(c)
    ensures IsNew(r, c.index) && ClassOk(c, n + 1) && c.index > 0 && (c.index < n0 ==> c == v1[i] && v1[i].members == v2[j].members)
    ensures JoinedFrom(v1, v2, c)
  {
    assert v1[i] in v1 && v2[j] in v2;
    IntersectionMeans(v1[i], v2[j], n);
    if c.index < n0 {
      forall d | d in r
        ensures d.index != c.index
      {
        if d.index == c.index {
          assert TakenOver(v1, v2, i, j, d);
          var a: nat, b: nat :| FromPair(v1, v2, i, j, d, a, b) && d == v1[a] && v1[a].members == v2[b].members;
          SamePlace(v1, a, i);
          assert v2[b] in v2 && Apart(v2, v2[b], v2[j]);
          SamePlace(v2, b, j);
          assert false;
        }
      }
    }
  }

  /** The class of the next pair has no member in common with those so far. */
  lemma NextIsApart(v1: seq<Class>, v2: seq<Class>, i: nat, j: nat, r: seq<Class>, n0: nat, n: nat, d: Class)
    requires JoinInv(v1, v2, i, j, r, n0, n) && Ok(v1, n0) && Ok(v2, n0) && i < |v1| && j < |v2| && d in r
    ensures d.members !! v1[i].members * v2[j].members
  {
    assert FromSome(v1, v2, i, j, d);
    var a: nat, b: nat :| FromPair(v1, v2, i, j, d, a, b);
    assert v1[a] in v1 && v1[i] in v1 && v2[b] in v2 && v2[j] in v2;
    assert Apart(v1, v1[a], v1[i]) && Apart(v2, v2[b], v2[j]);
    if v1[a] == v1[i] {
      SamePlace(v1, a, i);
    }
    if v2[b] == v2[j] {
      SamePlace(v2, b, j);
    }
  }

  function WithCommon(r: seq<Class>, c: Option<Class>): seq<Class> {
    if c.None? then r else Inserted(r, c.value)
  }

  function NextNumber(n: nat, c: Option<Class>): nat {
    if c.Some? && c.value.index == n then n + 1 else n
  }

  /** One pair further. */
  lemma JoinStep(v1: seq<Class>, v2: seq<Class>, i: nat, j: nat, r: seq<Class>, n0: nat, n: nat)
    requires JoinInv(v1, v2, i, j, r, n0, n) && Ok(v1, n0) && Ok(v2, n0) && i < |v1| && j < |v2| && v1[i].index > 0 && v2[j].index > 0
    ensures var c := Intersection(v1[i], v2[j], n); JoinInv(v1, v2, i, j + 1, WithCommon(r, c), n0, NextNumber(n, c))
  {
    var c := Intersection(v1[i], v2[j], n);
    if c.None? {
      SkipPair(v1, v2, i, j, i, j + 1, r, n0, n);
    } else {
      AddPair(v1, v2, i, j, r, n0, n, c.value);
    }
  }

  lemma AddPair(v1: seq<Class>, v2: seq<Class>, i: nat, j: nat, r: seq<Class>, n0: nat, n: nat, c: Class)
    requires JoinInv(v1, v2, i, j, r, n0, n) && Ok(v1, n0) && Ok(v2, n0) && i < |v1| && j < |v2| && v1[i].index > 0 && v2[j].index > 0
    requires Some(c) == Intersection(v1[i], v2[j], n)
    ensures JoinInv(v1, v2, i, j + 1, Inserted(r, c), n0, if c.index == n then n + 1 else n)
  {
    var n' := if c.index == n then n + 1 else n;
    var r' := Inserted(r, c);
    NextIsNew(v1, v2, i, j, r, n0, n, c);
    assert v1[i] in v1;
    assert FromPair(v1, v2, i, j + 1, c, i, j);
    assert ClassOk(c, n');
    forall d | d in r
      ensures d.members !! c.members
    {
      NextIsApart(v1, v2, i, j, r, n0, n, d);
    }
    InsertedOk(r, c, n, n');
    InsertedKeeps(r, c);
    forall d | d in r'
      ensures FromSome(v1, v2, i, j + 1, d) && (d.index < n0 ==> TakenOver(v1, v2, i, j + 1, d)) && JoinedFrom(v1, v2, d) && d.index > 0
    {
      if d in r {
        KeepPair(v1, v2, i, j, r, n0, n, d);
      }
    }
    assert r'[0] in r';
    assert c in r';
    var j' := j + 1;
    forall a: nat, b: nat
      ensures PairDone(v1, v2, i, j', r', a, b)
    {
      NextPairDone(v1, v2, i, j, j', r, r', c, a, b);
    }
  }

  lemma NextPairDone(v1: seq<Class>, v2: seq<Class>, i: nat, j: nat, j': nat, r: seq<Class>, r': seq<Class>, c: Class, a: nat, b: nat)
    requires PairDone(v1, v2, i, j, r, a, b) && i < |v1| && j < |v2| && j' == j + 1
    requires c in r' && c.members == v1[i].members * v2[j].members && forall d :: d in r ==> d in r'
    ensures PairDone(v1, v2, i, j', r', a, b)
  {
    if a < |v1| && b < |v2| && HasMembers(r, v1[a].members * v2[b].members) {
      var d :| d in r && d.members == v1[a].members * v2[b].members;
      assert d in r';
    }
  }

  lemma KeepPair(v1: seq<Class>, v2: seq<Class>, i: nat, j: nat, r: seq<Class>, n0: nat, n: nat, d: Class)
    requires JoinInv(v1, v2, i, j, r, n0, n) && d in r
    ensures FromSome(v1, v2, i, j + 1, d) && (d.index < n0 ==> TakenOver(v1, v2, i, j + 1, d)) && JoinedFrom(v1, v2, d) && d.index > 0
  {
    assert FromSome(v1, v2, i, j, d);
    var a: nat, b: nat :| FromPair(v1, v2, i, j, d, a, b);
    assert FromPair(v1, v2, i, j + 1, d, a, b);
    if d.index < n0 {
      assert TakenOver(v1, v2, i, j, d);
      var e: nat, f: nat :| FromPair(v1, v2, i, j, d, e, f) && d == v1[e] && v1[e].members == v2[f].members;
      assert FromPair(v1, v2, i, j + 1, d, e, f);
    }
    var k :| 0 <= k < |r| && r[k] == d;
    assert Before(r, 0, k);
  }

  lemma NoPairs(v1: seq<Class>, v2: seq<Class>, i: nat, r: seq<Class>, n0: nat, n: nat)
    requires JoinInv(v1, v2, i, 0, r, n0, n)
    ensures v1 == [] || v2 == [] ==> r == []
  {
    if r != [] {
      assert r[0] in r && FromSome(v1, v2, i, 0, r[0]);
    }
  }

  /** What `join` promises: two values share a class exactly if they share one on both sides. */
  ghost predicate Meet(v1: seq<Class>, v2: seq<Class>, r: seq<Class>) {
    forall x: nat, y: nat {:trigger Same(r, x, y)} :: Same(r, x, y) <==> Same(v1, x, y) && Same(v2, x, y)
  }

  lemma JoinIsMeet(v1: seq<Class>, v2: seq<Class>, r: seq<Class>, n0: nat, n: nat)
    requires JoinInv(v1, v2, |v1|, 0, r, n0, n)
    ensures Meet(v1, v2, r)
  {
    forall x: nat, y: nat
      ensures Same(r, x, y) <==> Same(v1, x, y) && Same(v2, x, y)
    {
      if Same(r, x, y) {
        var c :| Together(r, c, x, y);
        assert FromSome(v1, v2, |v1|, 0, c);
        var a: nat, b: nat :| FromPair(v1, v2, |v1|, 0, c, a, b);
        assert Together(v1, v1[a], x, y) && Together(v2, v2[b], x, y);
      }
      if Same(v1, x, y) && Same(v2, x, y) {
        var c :| Together(v1, c, x, y);
        var d :| Together(v2, d, x, y);
        var a: nat :| a < |v1| && v1[a] == c;
        var b: nat :| b < |v2| && v2[b] == d;
        assert x in c.members * d.members;
        assert PairDone(v1, v2, |v1|, 0, r, a, b);
        var e :| e in r && e.members == c.members * d.members;
        assert Together(r, e, x, y);
      }
    }
  }

  lemma Joined(v1: seq<Class>, v2: seq<Class>, r: seq<Class>, n0: nat, n: nat)
    requires JoinInv(v1, v2, |v1|, 0, r, n0, n)
    ensures Meet(v1, v2, r) && !HasTop(r) && Ok(r, n) && (v1 == [] || v2 == [] ==> r == [])
    ensures forall c {:trigger JoinedFrom(v1, v2, c)} :: c in r ==> JoinedFrom(v1, v2, c)
  {
    JoinIsMeet(v1, v2, r, n0, n);
    NoPairs(v1, v2, |v1|, r, n0, n);
  }

  // ----- moving one value -----

  /** The first class that has `x` loses it, and goes if it is empty then. */
  function Without(p: seq<Class>, x: nat): seq<Class> {
    if p == [] then []
    else if x in p[0].members then
      if p[0].members == {x} then p[1..] else [p[0].(members := p[0].members - {x})] + p[1..]
    else [p[0]] + Without(p[1..], x)
  }

  /** The class has the expression, or the value phi. */
  predicate Matches(c: Class, e: Expression, phi: Option<Expression>) {
    (c.expr.Some? && Equiv(e, c.expr.value)) || (phi.Some? && c.phi.Some? && Equiv(phi.value, c.phi.value))
  }

  /** The same without comparing expressions kind by kind. */
  ghost predicate Fits(c: Class, e: Expression, phi: Option<Expression>) {
    c.expr == Some(e) || (phi.Some? && c.phi == phi)
  }

  lemma MatchesIffFits(c: Class, e: Expression, phi: Option<Expression>)
    ensures Matches(c, e, phi) <==> Fits(c, e, phi)
  {
    if c.expr.Some? {
      EquivIsSame(e, c.expr.value);
    }
    if phi.Some? && c.phi.Some? {
      EquivIsSame(phi.value, c.phi.value);
    }
  }

  /** The first class that matches, or the length. */
  function FirstMatch(p: seq<Class>, e: Expression, phi: Option<Expression>): (k: nat)
    ensures k <= |p| && (k < |p| ==> Matches(p[k], e, phi)) && forall i :: 0 <= i < k ==> !Matches(p[i], e, phi)
  {
    if p == [] then 0 else if Matches(p[0], e, phi) then 0 else 1 + FirstMatch(p[1..], e, phi)
  }

  lemma FirstMatchIs(p: seq<Class>, e: Expression, phi: Option<Expression>, k: nat)
    requires k <= |p| && (k < |p| ==> Matches(p[k], e, phi)) && forall i :: 0 <= i < k ==> !Matches(p[i], e, phi)
    ensures k == FirstMatch(p, e, phi)
  {
    var j := FirstMatch(p, e, phi);
    assert j <= k;
  }

  function NewClass(x: nat, e: Expression, phi: Option<Expression>, n: nat): Class {
    Class(n, Some(if e.ConstantE? then e.c else x), Some(e), phi, {x})
  }

  /** The transfer function: `x` leaves its class, and goes to the first class that matches or to a new one. */
  function Transfer(p: seq<Class>, x: nat, e: Option<Expression>, phi: Option<Expression>, n: nat): seq<Class> {
    Placed(Without(p, x), x, e, phi, n)
  }

  function Placed(q: seq<Class>, x: nat, e: Option<Expression>, phi: Option<Expression>, n: nat): seq<Class> {
    if e.None? then q
    else
      var k := FirstMatch(q, e.value, phi);
      if k < |q| then q[k := q[k].(members := q[k].members + {x})] else Inserted(q, NewClass(x, e.value, phi, n))
  }

  /** The next index afterwards: one is used up if a new class is made. */
  function NumberAfter(q: seq<Class>, e: Option<Expression>, phi: Option<Expression>, n: nat): nat {
    if e.Some? && FirstMatch(q, e.value, phi) == |q| then n + 1 else n
  }

  // ----- what moving one value does -----

  lemma {:induction false} WithoutAt(p: seq<Class>, x: nat, k: nat)
    requires k < |p| && x in p[k].members && forall i :: 0 <= i < k ==> x !in p[i].members
    ensures Without(p, x) == if p[k].members == {x} then p[..k] + p[k + 1..] else p[k := Drop(p[k], x)]
  {
    if k > 0 {
      WithoutAt(p[1..], x, k - 1);
      assert p == [p[0]] + p[1..] && p[..k] == [p[0]] + p[1..][..k - 1] && p[k + 1..] == p[1..][k..];
    }
  }

  lemma {:induction false} WithoutNone(p: seq<Class>, x: nat)
    requires forall i :: 0 <= i < |p| ==> x !in p[i].members
    ensures Without(p, x) == p
  {
    if p != [] {
      WithoutNone(p[1..], x);
    }
  }

  function Drop(c: Class, x: nat): Class {
    c.(members := c.members - {x})
  }

  /** `c` is what is left of a class of `p`. */
  ghost predicate LeftOf(p: seq<Class>, x: nat, c: Class, d: Class) {
    d in p && c == Drop(d, x) && (c.members != {} || d.members == {})
  }

  ghost predicate Comes(p: seq<Class>, x: nat, c: Class) {
    exists d :: LeftOf(p, x, c, d)
  }

  lemma OkTail(p: seq<Class>, n: nat)
    requires Ok(p, n) && p != []
    ensures Ok(p[1..], n) && forall c {:trigger c in p[1..]} :: c in p[1..] ==> c in p && p[0].index < c.index && p[0].members !! c.members
  {
    forall i: nat, j: nat
      ensures Before(p[1..], i, j)
    {
      assert Before(p, i + 1, j + 1);
    }
    forall c, d
      ensures Apart(p[1..], c, d)
    {
      assert Apart(p, c, d);
    }
    forall c | c in p[1..]
      ensures c in p && ClassOk(c, n) && p[0].index < c.index && p[0].members !! c.members
    {
      var k :| 0 <= k < |p[1..]| && p[1..][k] == c;
      assert p[k + 1] == c;
      assert Before(p, 0, k + 1) && Apart(p, p[0], c);
    }
  }

  lemma SortedCons(c: Class, p: seq<Class>)
    requires Sorted(p) && forall d {:trigger d in p} :: d in p ==> c.index < d.index
    ensures Sorted([c] + p)
  {
    forall i: nat, j: nat
      ensures Before([c] + p, i, j)
    {
      if 0 < i < j {
        assert Before(p, i - 1, j - 1);
      } else if 0 < j <= |p| {
        assert ([c] + p)[j] == p[j - 1] && p[j - 1] in p;
      }
    }
  }

  lemma DropOther(c: Class, x: nat)
    requires x !in c.members
    ensures Drop(c, x) == c
  {
    assert c.members - {x} == c.members;
  }

  /** The classes without `x` are what is left of the classes. */
  lemma {:induction false} WithoutIs(p: seq<Class>, x: nat, n: nat)
    requires Ok(p, n)
    ensures Sorted(Without(p, x))
    ensures forall c {:trigger c in Without(p, x)} :: c in Without(p, x) <==> Comes(p, x, c)
  {
    if p != [] {
      var r, t := Without(p, x), p[1..];
      OkTail(p, n);
      assert p[0] in p;
      if x in p[0].members {
        assert p[0].members == {x} <==> Drop(p[0], x).members == {};
        SortedCons(Drop(p[0], x), t);
        forall c
          ensures c in r <==> Comes(p, x, c)
        {
          HeadLoses(p, x, n, c);
        }
      } else {
        WithoutIs(t, x, n);
        DropOther(p[0], x);
        forall c
          ensures c in r <==> Comes(p, x, c)
        {
          HeadStays(p, x, n, c);
        }
        SortedCons(p[0], Without(t, x));
      }
    }
  }

  lemma HeadLoses(p: seq<Class>, x: nat, n: nat, c: Class)
    requires Ok(p, n) && p != [] && x in p[0].members
    ensures c in Without(p, x) <==> Comes(p, x, c)
  {
    OkTail(p, n);
    var head := Drop(p[0], x);
    assert p[0].members == {x} <==> head.members == {};
    assert p == [p[0]] + p[1..];
    if c in p[1..] {
      DropOther(c, x);
      assert c in p && ClassOk(c, n);
      assert LeftOf(p, x, c, c);
    }
    if c == head && head.members != {} {
      assert LeftOf(p, x, c, p[0]);
    }
    if Comes(p, x, c) {
      var d :| LeftOf(p, x, c, d);
      if d in p[1..] {
        DropOther(d, x);
      }
    }
  }

  lemma HeadStays(p: seq<Class>, x: nat, n: nat, c: Class)
    requires Ok(p, n) && p != [] && x !in p[0].members && (c in Without(p[1..], x) <==> Comes(p[1..], x, c))
    ensures c in Without(p, x) <==> Comes(p, x, c)
    ensures c in Without(p[1..], x) ==> p[0].index < c.index
  {
    OkTail(p, n);
    DropOther(p[0], x);
    assert p == [p[0]] + p[1..];
    assert p[0] in p && ClassOk(p[0], n);
    if c == p[0] {
      assert LeftOf(p, x, c, p[0]);
    }
    if Comes(p[1..], x, c) {
      var d :| LeftOf(p[1..], x, c, d);
      assert LeftOf(p, x, c, d);
    }
    if Comes(p, x, c) {
      var d :| LeftOf(p, x, c, d);
      if d in p[1..] {
        assert LeftOf(p[1..], x, c, d);
      }
    }
  }

  ghost predicate SameBut(p: seq<Class>, r: seq<Class>, x: nat) {
    forall y: nat, z: nat {:trigger Same(r, y, z)} :: y != x && z != x ==> (Same(r, y, z) <==> Same(p, y, z))
  }

  lemma WithoutOk(p: seq<Class>, x: nat, n: nat)
    requires Ok(p, n)
    ensures var r := Without(p, x); Ok(r, n) && SameBut(p, r, x) && forall c {:trigger c in r} :: c in r ==> x !in c.members
  {
    var r := Without(p, x);
    WithoutIs(p, x, n);
    forall c | c in r
      ensures ClassOk(c, n) && x !in c.members
    {
      var d :| LeftOf(p, x, c, d);
      assert ClassOk(d, n);
    }
    forall c, d
      ensures Apart(r, c, d)
    {
      if c in r && d in r && c != d {
        var c', d' :| LeftOf(p, x, c, c') && LeftOf(p, x, d, d');
        assert Apart(p, c', d');
      }
    }
    forall y: nat, z: nat | y != x && z != x
      ensures Same(r, y, z) <==> Same(p, y, z)
    {
      if Same(r, y, z) {
        var c :| Together(r, c, y, z);
        var d :| LeftOf(p, x, c, d);
        assert Together(p, d, y, z);
      }
      if Same(p, y, z) {
        var d :| Together(p, d, y, z);
        assert y in Drop(d, x).members;
        assert LeftOf(p, x, Drop(d, x), d);
        assert Together(r, Drop(d, x), y, z);
      }
    }
  }

  /** A value that is in no class goes to the class at `k`. */
  lemma Added(p: seq<Class>, k: nat, x: nat, n: nat)
    requires Ok(p, n) && k < |p| && p[k].index > 0 && forall c {:trigger c in p} :: c in p ==> x !in c.members
    ensures var r := p[k := p[k].(members := p[k].members + {x})];
            Ok(r, n) && SameBut(p, r, x) && forall y: nat {:trigger Same(r, x, y)} :: Same(r, x, y) <==> y == x || y in p[k].members
  {
    var c' := p[k].(members := p[k].members + {x});
    var r := p[k := c'];
    assert p[k] in p && r[k] == c';
    forall i: nat, j: nat
      ensures Before(r, i, j)
    {
      assert Before(p, i, j);
    }
    forall c | c in r
      ensures c == c' || (c in p && c != p[k])
    {
      var i :| 0 <= i < |r| && r[i] == c;
      if i != k && p[i] == p[k] {
        SamePlace(p, i, k);
      }
    }
    forall c | c in p && c != p[k]
      ensures c in r
    {
      var i :| 0 <= i < |p| && p[i] == c;
      assert r[i] == c;
    }
    forall c, d
      ensures Apart(r, c, d)
    {
      assert Apart(p, c, d) && Apart(p, p[k], d) && Apart(p, c, p[k]);
    }
    forall y: nat, z: nat
      ensures y != x && z != x ==> (Same(r, y, z) <==> Same(p, y, z))
      ensures y == x ==> (Same(r, y, z) <==> z == x || z in p[k].members)
    {
      AddedSame(p, k, x, r, y, z);
    }
  }

  lemma AddedSame(p: seq<Class>, k: nat, x: nat, r: seq<Class>, y: nat, z: nat)
    requires k < |p| && r == p[k := p[k].(members := p[k].members + {x})] && forall c {:trigger c in p} :: c in p ==> x !in c.members
    ensures y != x && z != x ==> (Same(r, y, z) <==> Same(p, y, z))
    ensures y == x ==> (Same(r, y, z) <==> z == x || z in p[k].members)
  {
    assert r[k] in r && p[k] in p;
    if Same(r, y, z) {
      var c :| Together(r, c, y, z);
      var i :| 0 <= i < |r| && r[i] == c;
      assert p[i] in p;
      if y != x && z != x {
        assert Together(p, p[i], y, z);
      }
    }
    if Same(p, y, z) {
      var c :| Together(p, c, y, z);
      var i :| 0 <= i < |p| && p[i] == c;
      assert r[i] in r;
      assert Together(r, r[i], y, z);
    }
    if y == x && (z == x || z in p[k].members) {
      assert Together(r, r[k], y, z);
    }
  }

  /** The transfer function moves `x` and nothing else: to the first class that matches among the others, to a class of
      its own if there is none, or to no class if the instruction has no value. */
  lemma TransferMovesOnly(p: seq<Class>, x: nat, e: Option<Expression>, phi: Option<Expression>, n: nat)
    requires Ok(p, n) && n > 0
    ensures var r := Transfer(p, x, e, phi, n);
            Ok(r, NumberAfter(Without(p, x), e, phi, n)) && SameBut(p, r, x) && (Same(r, x, x) <==> e.Some?)
    ensures var r := Transfer(p, x, e, phi, n); var q := Without(p, x);
            e.Some? ==> forall y: nat {:trigger Same(r, x, y)} :: y != x ==>
              (Same(r, x, y) <==> var k := FirstMatch(q, e.value, phi); k < |q| && y in q[k].members)
  {
    var r, q := Transfer(p, x, e, phi, n), Without(p, x);
    WithoutOk(p, x, n);
    if e.Some? {
      var k := FirstMatch(q, e.value, phi);
      if k < |q| {
        assert q[k] in q && ClassOk(q[k], n);
        Added(q, k, x, n);
      } else {
        NewSame(q, x, NewClass(x, e.value, phi, n), n);
      }
    } else {
      NotInSame(q, x);
    }
    SameButTrans(p, q, r, x);
  }

  // ----- where the value goes -----

  /** The first class that has the expression or the value phi and other members than `x`. */
  ghost predicate FirstFit(p: seq<Class>, x: nat, e: Expression, phi: Option<Expression>, k: nat) {
    && k < |p| && Fits(p[k], e, phi) && p[k].members != {x}
    && forall i {:trigger p[i]} :: 0 <= i < k ==> !Fits(p[i], e, phi) || p[i].members == {x}
  }

  /** The classes of `r` are `own` and what is left of the classes of `p` with other indices. */
  ghost predicate OthersLeft(p: seq<Class>, r: seq<Class>, x: nat, own: Class) {
    forall c {:trigger c in r} :: c in r <==> c == own || LeftWithout(p, x, c, own.index)
  }

  ghost predicate LeftWithout(p: seq<Class>, x: nat, c: Class, index: nat) {
    exists d {:trigger LeftOf(p, x, c, d)} :: LeftOf(p, x, c, d) && d.index != index
  }

  /** `x` goes to the first other class with its expression or its value phi, which is not changed otherwise, or to a class of its
      own with them, led by the constant or by `x`; the classes that are left lose `x` at most. */
  ghost predicate Moved(p: seq<Class>, r: seq<Class>, x: nat, e: Expression, phi: Option<Expression>, n: nat) {
    && (forall k: nat {:trigger FirstFit(p, x, e, phi, k)} :: FirstFit(p, x, e, phi, k) ==>
          OthersLeft(p, r, x, p[k].(members := p[k].members + {x})))
    && ((forall k: nat :: !FirstFit(p, x, e, phi, k)) ==>
          OthersLeft(p, r, x, Class(n, Some(match e case ConstantE(c) => c case _ => x), Some(e), phi, {x})))
  }

  /** The class at `k` is in front of those with greater indices. */
  lemma IndexOrder(p: seq<Class>, j: nat, k: nat)
    requires Sorted(p) && j < |p| && k < |p|
    ensures p[j].index < p[k].index <==> j < k
  {
    assert Before(p, j, k) && Before(p, k, j);
  }

  /** Where a class of `p` is when `x` is gone. */
  lemma StillFound(p: seq<Class>, x: nat, n: nat, k: nat) returns (j: nat)
    requires Ok(p, n) && k < |p| && p[k].members != {x}
    ensures j < |Without(p, x)| && Without(p, x)[j] == Drop(p[k], x)
  {
    WithoutIs(p, x, n);
    assert p[k] in p && ClassOk(p[k], n);
    if Drop(p[k], x).members == {} {
      assert p[k].members <= {x};
      assert p[k].members == {};
    }
    assert LeftOf(p, x, Drop(p[k], x), p[k]);
    assert Comes(p, x, Drop(p[k], x)) && Drop(p[k], x) in Without(p, x);
    j :| 0 <= j < |Without(p, x)| && Without(p, x)[j] == Drop(p[k], x);
  }

  lemma CameFrom(p: seq<Class>, x: nat, n: nat, j: nat) returns (k: nat)
    requires Ok(p, n) && j < |Without(p, x)|
    ensures k < |p| && Without(p, x)[j] == Drop(p[k], x) && p[k].members != {x}
  {
    WithoutIs(p, x, n);
    var c := Without(p, x)[j];
    assert c in Without(p, x);
    var d :| LeftOf(p, x, c, d);
    k :| 0 <= k < |p| && p[k] == d;
  }

  /** The first match among the classes without `x` is what is left of the first fit. */
  lemma FitIsMatch(p: seq<Class>, x: nat, e: Expression, phi: Option<Expression>, n: nat, k: nat)
    requires Ok(p, n) && FirstFit(p, x, e, phi, k)
    ensures var q := Without(p, x); var m := FirstMatch(q, e, phi); m < |q| && q[m] == Drop(p[k], x)
  {
    var q := Without(p, x);
    var j := StillFound(p, x, n, k);
    WithoutIs(p, x, n);
    MatchesIffFits(q[j], e, phi);
    forall i | 0 <= i < j
      ensures !Matches(q[i], e, phi)
    {
      var h := CameFrom(p, x, n, i);
      IndexOrder(q, i, j);
      IndexOrder(p, h, k);
      MatchesIffFits(q[i], e, phi);
    }
    FirstMatchIs(q, e, phi, j);
  }

  lemma NoFitNoMatch(p: seq<Class>, x: nat, e: Expression, phi: Option<Expression>, n: nat)
    requires Ok(p, n) && forall k: nat :: !FirstFit(p, x, e, phi, k)
    ensures FirstMatch(Without(p, x), e, phi) == |Without(p, x)|
  {
    var q := Without(p, x);
    forall i | 0 <= i < |q|
      ensures !Matches(q[i], e, phi)
    {
      var h := CameFrom(p, x, n, i);
      MatchesIffFits(q[i], e, phi);
      NoneFits(p, x, e, phi, h);
    }
    FirstMatchIs(q, e, phi, |q|);
  }

  lemma {:induction false} NoneFits(p: seq<Class>, x: nat, e: Expression, phi: Option<Expression>, h: nat)
    requires h < |p| && forall k: nat :: !FirstFit(p, x, e, phi, k)
    ensures !Fits(p[h], e, phi) || p[h].members == {x}
    decreases h
  {
    forall i | 0 <= i < h
      ensures !Fits(p[i], e, phi) || p[i].members == {x}
    {
      NoneFits(p, x, e, phi, i);
    }
    assert !FirstFit(p, x, e, phi, h);
  }

  lemma PutInFit(p: seq<Class>, x: nat, n: nat, k: nat, m: nat)
    requires Ok(p, n) && k < |p| && m < |Without(p, x)| && Without(p, x)[m] == Drop(p[k], x)
    ensures var q := Without(p, x); OthersLeft(p, q[m := q[m].(members := q[m].members + {x})], x, p[k].(members := p[k].members + {x}))
  {
    var q := Without(p, x);
    var own := p[k].(members := p[k].members + {x});
    var r := q[m := own];
    WithoutIs(p, x, n);
    assert q[m].(members := q[m].members + {x}) == own;
    assert r[m] == own;
    forall c
      ensures c in r <==> c == own || LeftWithout(p, x, c, own.index)
    {
      if c in r && c != own {
        var i :| 0 <= i < |r| && r[i] == c;
        IndexOrder(q, i, m);
        IndexOrder(q, m, i);
        assert q[i] in q;
        var d :| LeftOf(p, x, c, d);
        assert d.index != own.index;
      }
      if LeftWithout(p, x, c, own.index) {
        var d :| LeftOf(p, x, c, d) && d.index != own.index;
        assert c in q;
        var i :| 0 <= i < |q| && q[i] == c;
        assert r[i] == c;
      }
    }
  }

  lemma PutInNew(p: seq<Class>, x: nat, n: nat, own: Class)
    requires Ok(p, n) && own.index == n
    ensures OthersLeft(p, Inserted(Without(p, x), own), x, own)
  {
    var q := Without(p, x);
    WithoutOk(p, x, n);
    WithoutIs(p, x, n);
    forall c | c in q
      ensures c.index != n
    {
      assert ClassOk(c, n);
    }
    InsertedKeeps(q, own);
    forall c
      ensures Comes(p, x, c) <==> LeftWithout(p, x, c, n)
    {
      if Comes(p, x, c) {
        var d :| LeftOf(p, x, c, d);
        assert ClassOk(d, n);
      }
    }
  }

  /** The transfer function does that. */
  lemma TransferMoves(p: seq<Class>, x: nat, e: Expression, phi: Option<Expression>, n: nat)
    requires Ok(p, n) && n > 0
    ensures Moved(p, Transfer(p, x, Some(e), phi, n), x, e, phi, n)
    ensures NumberAfter(Without(p, x), Some(e), phi, n) == if exists k: nat :: FirstFit(p, x, e, phi, k) then n else n + 1
  {
    var q := Without(p, x);
    if k: nat :| FirstFit(p, x, e, phi, k) {
      FitIsMatch(p, x, e, phi, n, k);
      PutInFit(p, x, n, k, FirstMatch(q, e, phi));
      forall j: nat | FirstFit(p, x, e, phi, j)
        ensures j == k
      {
      }
    } else {
      NoFitNoMatch(p, x, e, phi, n);
      PutInNew(p, x, n, NewClass(x, e, phi, n));
    }
  }

  /** Without a value expression, `x` goes to no class. */
  lemma TransferDrops(p: seq<Class>, x: nat, phi: Option<Expression>, n: nat)
    requires Ok(p, n)
    ensures forall c {:trigger Comes(p, x, c)} :: c in Transfer(p, x, None, phi, n) <==> Comes(p, x, c)
  {
    WithoutIs(p, x, n);
  }

  /** Who shares a class with `x` afterwards. */
  lemma WhereItGoes(p: seq<Class>, x: nat, e: Expression, phi: Option<Expression>, n: nat, y: nat)
    requires Ok(p, n) && n > 0
    ensures var r := Transfer(p, x, Some(e), phi, n);
            Same(r, x, y) <==> y == x || exists k: nat :: FirstFit(p, x, e, phi, k) && y in p[k].members
  {
    var r, q := Transfer(p, x, Some(e), phi, n), Without(p, x);
    TransferMovesOnly(p, x, Some(e), phi, n);
    if k: nat :| FirstFit(p, x, e, phi, k) {
      FitIsMatch(p, x, e, phi, n, k);
      forall j: nat | FirstFit(p, x, e, phi, j)
        ensures j == k
      {
      }
      assert y != x ==> (y in q[FirstMatch(q, e, phi)].members <==> y in p[k].members);
    } else {
      NoFitNoMatch(p, x, e, phi, n);
    }
  }

  lemma NotInSame(q: seq<Class>, x: nat)
    requires forall c {:trigger c in q} :: c in q ==> x !in c.members
    ensures !Same(q, x, x)
  {
    forall c
      ensures !Together(q, c, x, x)
    {
    }
  }

  lemma OkLater(p: seq<Class>, n: nat, n': nat)
    requires Ok(p, n) && n <= n'
    ensures Ok(p, n')
  {
    forall c | c in p
      ensures ClassOk(c, n')
    {
      assert ClassOk(c, n);
    }
  }

  lemma SameButTrans(p: seq<Class>, q: seq<Class>, r: seq<Class>, x: nat)
    requires SameBut(p, q, x) && SameBut(q, r, x)
    ensures SameBut(p, r, x)
  {
    forall y: nat, z: nat | y != x && z != x
      ensures Same(r, y, z) <==> Same(p, y, z)
    {
      assert Same(q, y, z) <==> Same(p, y, z);
    }
  }

  lemma NewSame(q: seq<Class>, x: nat, c: Class, n: nat)
    requires Ok(q, n) && n > 0 && c.index == n && c.members == {x} && c.expr.Some? && forall d {:trigger d in q} :: d in q ==> x !in d.members
    ensures var r := Inserted(q, c); Ok(r, n + 1) && SameBut(q, r, x) && forall y: nat {:trigger Same(r, x, y)} :: Same(r, x, y) <==> y == x
  {
    var r := Inserted(q, c);
    forall d | d in q
      ensures d.index != c.index && d.members !! c.members
    {
      assert ClassOk(d, n);
    }
    InsertedOk(q, c, n, n + 1);
    InsertedKeeps(q, c);
    assert c in r;
    forall y: nat, z: nat
      ensures y != x && z != x ==> (Same(r, y, z) <==> Same(q, y, z))
      ensures y == x ==> (Same(r, y, z) <==> z == x)
    {
      if Same(r, y, z) {
        var d :| Together(r, d, y, z);
        assert d != c ==> Together(q, d, y, z);
      }
      if Same(q, y, z) {
        var d :| Together(q, d, y, z);
        assert Together(r, d, y, z);
      }
      if y == x && z == x {
        assert Together(r, c, y, z);
      }
    }
  }

  // ----- comparing -----

  /** `operator==`: class by class in the order of the indices, by members alone. */
  predicate Equal(p: seq<Class>, q: seq<Class>) {
    |p| == |q| && forall i :: 0 <= i < |p| ==> p[i].members == q[i].members
  }

  function MembersOf(p: seq<Class>): seq<set<nat>> {
    seq(|p|, i requires 0 <= i < |p| => p[i].members)
  }

  /** Nothing but the members, in their order, is compared. */
  lemma EqualIffMembers(p: seq<Class>, q: seq<Class>)
    ensures Equal(p, q) <==> MembersOf(p) == MembersOf(q)
  {
    if MembersOf(p) == MembersOf(q) {
      forall i | 0 <= i < |p|
        ensures p[i].members == q[i].members
      {
        assert MembersOf(p)[i] == MembersOf(q)[i];
      }
    }
  }

  /** Partitions that compare equal relate the same values. */
  lemma EqualIsSame(p: seq<Class>, q: seq<Class>, x: nat, y: nat)
    requires Equal(p, q)
    ensures Same(p, x, y) <==> Same(q, x, y)
  {
    if Same(p, x, y) {
      var c :| Together(p, c, x, y);
      var i :| 0 <= i < |p| && p[i] == c;
      assert Together(q, q[i], x, y);
    }
    if Same(q, x, y) {
      var c :| Together(q, c, x, y);
      var i :| 0 <= i < |q| && q[i] == c;
      assert Together(p, p[i], x, y);
    }
  }

  /** The other way round it is not so: the same classes under other indices compare different. */
  lemma SameButNotEqual()
    ensures var e := Some(OtherE(0));
            var p := [Class(1, None, e, None, {7}), Class(2, None, e, None, {8})];
            var q := [Class(1, None, e, None, {8}), Class(2, None, e, None, {7})];
            Ok(p, 3) && Ok(q, 3) && !Equal(p, q) && forall x: nat, y: nat {:trigger Same(p, x, y)} :: Same(p, x, y) <==> Same(q, x, y)
  {
    var e := Some(OtherE(0));
    var p := [Class(1, None, e, None, {7}), Class(2, None, e, None, {8})];
    var q := [Class(1, None, e, None, {8}), Class(2, None, e, None, {7})];
    assert p[0].members != q[0].members;
    forall x: nat, y: nat
      ensures Same(p, x, y) <==> Same(q, x, y)
    {
      if Same(p, x, y) {
        var c :| Together(p, c, x, y);
        assert Together(q, if c == p[0] then q[1] else q[0], x, y);
      }
      if Same(q, x, y) {
        var c :| Together(q, c, x, y);
        assert Together(p, if c == q[0] then p[1] else p[0], x, y);
      }
    }
  }
}
