/** The stack of scopes in which names are declared and looked up. */
module SymbolTables {
  import opened SemaTree
  import opened Wrappers

  function Bound(scopes: seq<Scope>, name: string, d: Symbol): seq<Scope>
    requires scopes != []
  {
    scopes[|scopes| - 1 := scopes[|scopes| - 1][name := d]]
  }

  class SymbolTable {
    var scopes: seq<Scope>

    constructor ()
      ensures scopes == []
    {
      scopes := [];
    }

    method Push()
      modifies this
      ensures scopes == old(scopes) + [map[]]
    {
      scopes := scopes + [map[]];
    }

    method Pop()
      requires scopes != []
      modifies this
      ensures scopes == old(scopes)[..|old(scopes)| - 1]
    {
      scopes := scopes[..|scopes| - 1];
    }

    /** Searches from the innermost scope outwards. */
    method Find(name: string) returns (d: Option<Symbol>)
      ensures d == Lookup(scopes, name)
    {
      var i := |scopes|;
      while i > 0
        invariant 0 <= i <= |scopes|
        invariant Lookup(scopes, name) == Lookup(scopes[..i], name)
      {
        if name in scopes[i - 1] { return Some(scopes[i - 1][name]); }
        assert scopes[..i][..i - 1] == scopes[..i - 1];
        i := i - 1;
      }
      d := None;
    }

    method FindCurrent(name: string) returns (d: Option<Symbol>)
      requires scopes != []
      ensures d == if name in scopes[|scopes| - 1] then Some(scopes[|scopes| - 1][name]) else None
    {
      var current := scopes[|scopes| - 1];
      d := if name in current then Some(current[name]) else None;
    }

    method Bind(name: string, d: Symbol)
      requires scopes != []
      modifies this
      ensures scopes == Bound(old(scopes), name, d)
    {
      scopes := Bound(scopes, name, d);
    }
  }

  /** A new binding is what its name now means, and every other name means what it did. */
  lemma {:induction false} BoundIsFound(scopes: seq<Scope>, name: string, d: Symbol, other: string)
    requires scopes != []
    ensures Lookup(Bound(scopes, name, d), other) == if other == name then Some(d) else Lookup(scopes, other)
  {
    assert Bound(scopes, name, d)[..|scopes| - 1] == scopes[..|scopes| - 1];
  }

  /** Declarations of an inner scope hide outer ones, and are gone with it. */
  lemma {:induction false} InnerScopeHides(scopes: seq<Scope>, inner: Scope, name: string)
    ensures Lookup(scopes + [inner], name) == if name in inner then Some(inner[name]) else Lookup(scopes, name)
    ensures (scopes + [inner])[..|scopes|] == scopes
  {
    assert (scopes + [inner])[..|scopes|] == scopes;
  }
}
