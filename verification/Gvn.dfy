/**
  The operations on partitions as they are written: congruence classes are objects that partitions share,
  and only copies are changed.
 */
module Gvn {
  import opened Options
  import opened Partition

  class CongruenceClass {
    const index: nat
    var leader: Option<nat>
    var valueExpr: Option<Expression>
    var valuePhi: Option<Expression>
    var members: set<nat>

    constructor (index: nat)
      ensures this.index == index && leader == None && valueExpr == None && valuePhi == None && members == {}
    {
      this.index := index;
      leader, valueExpr, valuePhi, members := None, None, None, {};
    }

    function Val(): Class
      reads this
    {
      Class(index, leader, valueExpr, valuePhi, members)
    }
  }

  /** A partition: classes in the order of their indices. */
  type Classes = seq<CongruenceClass>

  function View(p: Classes): (v: seq<Class>)
    reads p
    ensures |v| == |p|
  {
    if p == [] then [] else View(p[..|p| - 1]) + [p[|p| - 1].Val()]
  }

  lemma {:induction false} ViewAt(p: Classes, i: nat)
    requires i < |p|
    ensures View(p)[i] == p[i].Val()
  {
    if i < |p| - 1 {
      ViewAt(p[..|p| - 1], i);
    }
  }

  lemma ViewAll(p: Classes)
    ensures forall i :: 0 <= i < |p| ==> View(p)[i] == p[i].Val()
  {
    forall i | 0 <= i < |p|
      ensures View(p)[i] == p[i].Val()
    {
      ViewAt(p, i);
    }
  }

  lemma ViewIs(p: Classes, v: seq<Class>)
    requires |v| == |p| && forall i :: 0 <= i < |p| ==> v[i] == p[i].Val()
    ensures View(p) == v
  {
    ViewAll(p);
  }

  lemma Spliced(p: Classes, k: nat, c: CongruenceClass, r: Classes)
    requires k <= |p| && r == p[..k] + [c] + p[k..]
    ensures forall i :: 0 <= i < |r| ==> r[i] in p || r[i] == c
    ensures View(r) == View(p)[..k] + [c.Val()] + View(p)[k..]
  {
    ViewAll(p);
    forall i | 0 <= i < |r|
      ensures r[i] in p || r[i] == c
    {
      assert r[i] == if i < k then p[i] else if i == k then c else p[i - 1];
    }
    ViewIs(r, View(p)[..k] + [c.Val()] + View(p)[k..]);
  }

  /** `insert`: the place is found from the end. */
  method Insert(p: Classes, c: CongruenceClass) returns (r: Classes)
    ensures View(r) == Inserted(View(p), c.Val()) && forall i :: 0 <= i < |r| ==> r[i] in p || r[i] == c
  {
    var k := |p|;
    while k > 0 && p[k - 1].index > c.index
      invariant 0 <= k <= |p| && forall m :: k <= m < |p| ==> p[m].index > c.index
    {
      k := k - 1;
    }
    ghost var v := View(p);
    ViewAll(p);
    InsertedAt(v, c.Val(), k);
    if k > 0 && p[k - 1].index == c.index {
      r := p;
    } else {
      r := p[..k] + [c] + p[k..];
      Spliced(p, k, c, r);
    }
  }

  ghost predicate Distinct(p: Classes) {
    forall i: nat, j: nat :: i < j < |p| ==> p[i] != p[j]
  }

  lemma CutDistinct(p: Classes, i: nat, q: Classes)
    requires Distinct(p) && i < |p| && q == p[..i] + p[i + 1..]
    ensures Distinct(q) && forall k :: 0 <= k < |q| ==> q[k] in p
  {
    forall k | 0 <= k < |q|
      ensures q[k] == p[if k < i then k else k + 1]
    {
    }
    forall j: nat, k: nat | j < k < |q|
      ensures q[j] != q[k]
    {
      assert q[j] == p[if j < i then j else j + 1] && q[k] == p[if k < i then k else k + 1];
    }
  }

  class Gvn {
    var nextValueNumber: nat

    constructor ()
      ensures nextValueNumber == 1
    {
      nextValueNumber := 1;
    }

    /** The class of the common members; null if there are none. */
    method Intersect(ci: CongruenceClass, cj: CongruenceClass) returns (c: CongruenceClass?)
      modifies this
      ensures (c == null) == Intersection(ci.Val(), cj.Val(), old(nextValueNumber)).None?
      ensures c != null ==> Intersection(ci.Val(), cj.Val(), old(nextValueNumber)) == Some(c.Val()) && (c == ci || fresh(c))
      ensures nextValueNumber == old(nextValueNumber) + if c != null && c != ci then 1 else 0
      ensures c == ci <==> ci.members == cj.members
      ensures ci.members != {} && cj.members != {} ==> (c == null <==> ci.members * cj.members == {})
      ensures c != null && ci.members != {} && ci.valueExpr.Some? && cj.valueExpr.Some? ==> JoinedOf(ci.Val(), cj.Val(), c.Val())
    {
      var inter := ci.members * cj.members;
      if ci.members == cj.members {
        return ci;
      }
      if inter == {} {
        return null;
      }
      c := new CongruenceClass(nextValueNumber);
      nextValueNumber := nextValueNumber + 1;
      c.members := inter;
      c.leader := Some(Least(inter));
      if ci.leader == cj.leader {
        c.valuePhi, c.valueExpr := ci.valuePhi, ci.valueExpr;
        if c.valueExpr.Some? && c.valueExpr.value.ConstantE? {
          c.leader := Some(c.valueExpr.value.c);
        }
      } else {
        c.valuePhi := if ci.valueExpr.Some? && cj.valueExpr.Some? then Some(PhiE(ci.valueExpr.value, cj.valueExpr.value)) else None;
        c.valueExpr := c.valuePhi;
      }
    }

    /** One pair of classes. */
    method JoinPair(a: CongruenceClass, b: CongruenceClass, p: Classes) returns (r: Classes)
      requires a.index < nextValueNumber
      modifies this
      ensures View(r) == WithCommon(old(View(p)), Intersection(a.Val(), b.Val(), old(nextValueNumber)))
      ensures nextValueNumber == NextNumber(old(nextValueNumber), Intersection(a.Val(), b.Val(), old(nextValueNumber)))
    {
      ghost var v := View(p);
      var common := Intersect(a, b);
      assert View(p) == v;
      r := p;
      if common != null {
        r := Insert(p, common);
      }
    }

    method JoinNext(a: CongruenceClass, b: CongruenceClass, p: Classes, ghost v1: seq<Class>, ghost v2: seq<Class>, ghost i: nat, ghost j: nat, ghost n0: nat)
      returns (r: Classes)
      requires Ok(v1, n0) && Ok(v2, n0) && i < |v1| && j < |v2| && v1[i] == a.Val() && v2[j] == b.Val() && a.index > 0 && b.index > 0
      requires JoinInv(v1, v2, i, j, View(p), n0, nextValueNumber)
      modifies this
      ensures JoinInv(v1, v2, i, j + 1, View(r), n0, nextValueNumber)
    {
      assert v1[i] in v1 && ClassOk(v1[i], n0);
      JoinStep(v1, v2, i, j, View(p), n0, nextValueNumber);
      r := JoinPair(a, b, p);
    }

    /** One class with all classes of the other side; `top` says that one of the two is top and the other side the result. */
    method JoinRow(p1: Classes, p2: Classes, i: nat, p: Classes, ghost n0: nat) returns (r: Classes, top: bool)
      requires Ok(View(p1), n0) && Ok(View(p2), n0) && i < |p1| && (i > 0 && p2 != [] ==> !HasTop(View(p1)) && !HasTop(View(p2)))
      requires JoinInv(View(p1), View(p2), i, 0, View(p), n0, nextValueNumber)
      modifies this
      ensures nextValueNumber >= n0 && top == (p2 != [] && (HasTop(View(p1)) || HasTop(View(p2))))
      ensures top ==> r == if HasTop(View(p1)) then p2 else p1
      ensures !top ==> JoinInv(View(p1), View(p2), i + 1, 0, View(r), n0, nextValueNumber)
    {
      ghost var v1, v2 := View(p1), View(p2);
      r := p;
      var j := 0;
      while j < |p2|
        invariant 0 <= j <= |p2| && v1 == View(p1) && v2 == View(p2)
        invariant JoinInv(v1, v2, i, j, View(r), n0, nextValueNumber)
        invariant j > 0 ==> !HasTop(v1) && !HasTop(v2)
      {
        ViewAt(p1, i);
        ViewAt(p2, j);
        TopIsFirst(v1, n0, i);
        TopIsFirst(v2, n0, j);
        if p1[i].index == 0 {
          return p2, true;
        }
        if p2[j].index == 0 {
          return p1, true;
        }
        r := JoinNext(p1[i], p2[j], r, v1, v2, i, j, n0);
        j := j + 1;
      }
      SkipPair(v1, v2, i, j, i + 1, 0, View(r), n0, nextValueNumber);
      top := false;
    }

    /** Pairwise intersection; top on one side yields the other side. */
    method Join(p1: Classes, p2: Classes) returns (p: Classes)
      requires Ok(View(p1), nextValueNumber) && Ok(View(p2), nextValueNumber)
      modifies this
      ensures nextValueNumber >= old(nextValueNumber) && Ok(View(p), nextValueNumber)
      ensures p1 == [] || p2 == [] ==> p == []
      ensures p1 != [] && p2 != [] && HasTop(View(p1)) ==> p == p2
      ensures p1 != [] && p2 != [] && HasTop(View(p2)) && !HasTop(View(p1)) ==> p == p1
      ensures !HasTop(View(p1)) && !HasTop(View(p2)) ==> Meet(View(p1), View(p2), View(p)) && !HasTop(View(p))
      ensures !HasTop(View(p1)) && !HasTop(View(p2)) ==> forall c :: c in View(p) ==> JoinedFrom(View(p1), View(p2), c)
    {
      ghost var v1, v2, n0 := View(p1), View(p2), nextValueNumber;
      p := [];
      var i := 0;
      while i < |p1|
        invariant 0 <= i <= |p1| && v1 == View(p1) && v2 == View(p2)
        invariant JoinInv(v1, v2, i, 0, View(p), n0, nextValueNumber)
        invariant i > 0 && p2 != [] ==> !HasTop(v1) && !HasTop(v2)
      {
        var top;
        p, top := JoinRow(p1, p2, i, p, n0);
        if top {
          OkLater(View(p), n0, nextValueNumber);
          return;
        }
        i := i + 1;
      }
      Joined(v1, v2, View(p), n0, nextValueNumber);
    }

    /** New classes with the old contents. */
    method Clone(p: Classes) returns (q: Classes)
      ensures View(q) == View(p) && |q| == |p| && Distinct(q) && forall i :: 0 <= i < |q| ==> fresh(q[i])
    {
      q := [];
      ghost var v := View(p);
      ViewAll(p);
      for i := 0 to |p|
        invariant |q| == i && v == View(p) && Distinct(q) && forall k :: 0 <= k < |q| ==> fresh(q[k])
        invariant forall k :: 0 <= k < i ==> q[k].Val() == v[k]
      {
        var c := new CongruenceClass(p[i].index);
        c.leader, c.valueExpr, c.valuePhi, c.members := p[i].leader, p[i].valueExpr, p[i].valuePhi, p[i].members;
        q := q + [c];
      }
      ViewIs(q, v);
    }

    /** `x` leaves its class. */
    method Remove(p: Classes, x: nat) returns (q: Classes)
      requires Distinct(p)
      modifies p
      ensures View(q) == Without(old(View(p)), x) && Distinct(q) && forall k :: 0 <= k < |q| ==> q[k] in p
    {
      ghost var v := View(p);
      ViewAll(p);
      q := p;
      for i := 0 to |p|
        invariant unchanged(p) && forall k :: 0 <= k < i ==> x !in v[k].members
      {
        if x in p[i].members {
          WithoutAt(v, x, i);
          q := Erase(p, i, x);
          return;
        }
      }
      WithoutNone(v, x);
    }

    /** `x` leaves the class at `i`, which goes if it is empty then. */
    method Erase(p: Classes, i: nat, x: nat) returns (q: Classes)
      requires Distinct(p) && i < |p| && x in p[i].members
      modifies p[i]
      ensures var v := old(View(p)); View(q) == if v[i].members == {x} then v[..i] + v[i + 1..] else v[i := Drop(v[i], x)]
      ensures Distinct(q) && forall k :: 0 <= k < |q| ==> q[k] in p
    {
      ghost var v := View(p);
      ViewAll(p);
      p[i].members := p[i].members - {x};
      q := p;
      assert v[i].members == {x} <==> p[i].members == {};
      if p[i].members == {} {
        q := p[..i] + p[i + 1..];
        CutDistinct(p, i, q);
        ViewIs(q, v[..i] + v[i + 1..]);
      } else {
        ViewIs(q, v[i := Drop(v[i], x)]);
      }
    }

    /** `x` goes to the class at `k`. */
    method Put(p: Classes, k: nat, x: nat)
      requires Distinct(p) && k < |p|
      modifies p[k]
      ensures var v := old(View(p)); View(p) == v[k := v[k].(members := v[k].members + {x})]
    {
      ghost var v := View(p);
      ViewAll(p);
      p[k].members := p[k].members + {x};
      ViewIs(p, v[k := v[k].(members := v[k].members + {x})]);
    }

    /** The first class with the expression or the value phi, or the length. */
    method Search(p: Classes, e: Expression, phi: Option<Expression>) returns (k: nat)
      ensures k == FirstMatch(View(p), e, phi)
    {
      ghost var v := View(p);
      ViewAll(p);
      k := 0;
      while k < |p| && !Matches(p[k].Val(), e, phi)
        invariant 0 <= k <= |p| && forall i :: 0 <= i < k ==> !Matches(v[i], e, phi)
      {
        k := k + 1;
      }
      FirstMatchIs(v, e, phi, k);
    }

    /** The transfer function of an instruction with the given value expression and value phi: only copies are changed. */
    method TransferFunction(x: nat, pin: Classes, e: Option<Expression>, phi: Option<Expression>) returns (pout: Classes)
      modifies this
      ensures View(pout) == Transfer(old(View(pin)), x, e, phi, old(nextValueNumber))
      ensures nextValueNumber == NumberAfter(Without(old(View(pin)), x), e, phi, old(nextValueNumber))
      ensures View(pin) == old(View(pin)) && forall i :: 0 <= i < |pout| ==> fresh(pout[i])
      ensures Ok(old(View(pin)), old(nextValueNumber)) && old(nextValueNumber) > 0 && e.Some? ==>
                Moved(old(View(pin)), View(pout), x, e.value, phi, old(nextValueNumber))
    {
      ghost var v := View(pin);
      var copy := Clone(pin);
      var rest := Remove(copy, x);
      assert View(pin) == v;
      ghost var n := nextValueNumber;
      pout := Place(rest, x, e, phi);
      assert View(pin) == v;
      if Ok(v, n) && n > 0 && e.Some? {
        TransferMoves(v, x, e.value, phi, n);
      }
    }

    method MakeClass(x: nat, e: Expression, phi: Option<Expression>) returns (c: CongruenceClass)
      modifies this
      ensures fresh(c) && c.Val() == NewClass(x, e, phi, old(nextValueNumber)) && nextValueNumber == old(nextValueNumber) + 1
    {
      c := new CongruenceClass(nextValueNumber);
      nextValueNumber := nextValueNumber + 1;
      c.leader := Some(if e.ConstantE? then e.c else x);
      c.members := {x};
      c.valueExpr, c.valuePhi := Some(e), phi;
    }

    method Place(p: Classes, x: nat, e: Option<Expression>, phi: Option<Expression>) returns (q: Classes)
      requires Distinct(p)
      modifies this, p
      ensures View(q) == Placed(old(View(p)), x, e, phi, old(nextValueNumber)) && nextValueNumber == NumberAfter(old(View(p)), e, phi, old(nextValueNumber))
      ensures forall i :: 0 <= i < |q| ==> q[i] in p || fresh(q[i])
    {
      q := p;
      if e.None? {
        return;
      }
      ghost var v := View(p);
      var k := Search(p, e.value, phi);
      if k < |p| {
        Put(p, k, x);
      } else {
        var c := MakeClass(x, e.value, phi);
        assert View(p) == v;
        q := Insert(p, c);
      }
    }
  }
}
