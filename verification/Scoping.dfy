/**
  The stack of scopes of the code generator.
 */
module Scoping {
  import opened Options
  import opened Syntax
  import opened Generator

  class Scope<T> {
    var inner: Scopes<T>

    constructor ()
      ensures inner == []
    {
      inner := [];
    }

    method Enter()
      modifies this
      ensures inner == old(inner) + [map[]]
    {
      inner := inner + [map[]];
    }

    method Exit()
      requires inner != []
      modifies this
      ensures inner == Outer(old(inner))
    {
      inner := inner[..|inner| - 1];
    }

    predicate InGlobal()
      reads this
    {
      |inner| == 1
    }

    /** `insert` does nothing if the name is there already. */
    method Push(name: string, x: T) returns (isNew: bool)
      requires inner != []
      modifies this
      ensures inner == Syntax.Push(old(inner), name, x) && isNew == (name !in old(inner)[|old(inner)| - 1])
    {
      var top := |inner| - 1;
      isNew := name !in inner[top];
      if isNew {
        inner := inner[top := inner[top][name := x]];
      }
    }

    method Find(name: string) returns (r: Option<T>)
      ensures r == Syntax.Find(inner, name)
    {
      var k := |inner|;
      assert inner[..k] == inner;
      while k > 0
        invariant 0 <= k <= |inner| && Level(inner, name) == Level(inner[..k], name)
      {
        k := k - 1;
        assert inner[..k + 1][..k] == inner[..k];
        if name in inner[k] {
          return Some(inner[k][name]);
        }
      }
      r := None;
    }
  }

  /** A name that is pushed is found unless the innermost scope had it before; all other names are found as before. */
  lemma FindPushed<T>(s: Scopes<T>, name: string, x: T, y: string)
    requires s != []
    ensures Find(Push(s, name, x), y) == if y == name && name !in s[|s| - 1] then Some(x) else Find(s, y)
  {
    var r := Push(s, name, x);
    assert r[..|r| - 1] == s[..|s| - 1];
    if y !in r[|r| - 1] {
      assert Level(r, y) == Level(s, y);
    } else if y !in s[|s| - 1] {
      assert Level(r, y) == Some(|r| - 1);
    }
  }

  /** An inner scope is gone when it is left, whatever was declared in it. */
  lemma {:induction false} ScopeRestored(s: Scopes<Shape>, types: Scopes<Shape>, decls: seq<Decl>)
    requires types != [] && Outer(types) == s
    ensures Declared(types, decls) != [] && Outer(Declared(types, decls)) == s
    decreases decls
  {
    if decls != [] {
      ScopeRestored(s, Push(types, decls[0].name, ShapeOf(decls[0])), decls[1..]);
    }
  }
}
