/** The declarations of a translation unit: which of several declarations of a function code generation takes its
    signature from, and that the ones analysis accepts agree with it. */
module SemaUnit {
  import C = CAst
  import opened Contract
  import opened Handover
  import opened SemaSoundness
  import opened SemaStmt
  import opened SemaTree
  import opened SemaTypes
  import opened Wrappers

  /** The type of the function with its parameters adjusted. */
  function Shape(f: FunctionSpec): (t: FunctionType)
    ensures t.hasPrototype == f.ty.hasPrototype && |t.params| == |f.ty.params|
  {
    NormalizedWellFormed(f.ty);
    Normalized(f.ty)
  }

  // ----- the generator's choice -----

  /** The declaration that stands for a name: the definition if there is one, else the last one with a prototype. */
  function Selected(decls: seq<External>, name: string): Option<FunctionSpec>
    decreases |decls|
  {
    if decls == [] then None
    else
      var before, last := Selected(decls[..|decls| - 1], name), decls[|decls| - 1];
      if !last.FunctionItem? || last.f.name != name then before
      else if before.None? || last.f.body.Some? || (before.value.body.None? && last.f.ty.hasPrototype) then Some(last.f)
      else before
  }

  function Names(decls: seq<External>): set<string> {
    set d | d in decls && d.FunctionItem? :: d.f.name
  }

  function SignatureOf(f: FunctionSpec, prototyped: bool): C.Signature {
    C.Signature(EraseTypes(Shape(f).params), EraseBase(Shape(f).ret), Shape(f).variadic, prototyped)
  }

  /** Every declaration of the function lists its parameters. */
  predicate Prototyped(decls: seq<External>, name: string) {
    forall d :: d in decls && d.FunctionItem? && d.f.name == name ==> d.f.ty.hasPrototype
  }

  /** What code generation knows of the unit's functions. */
  function UnitContext(target: C.Target, decls: seq<External>): C.Context {
    C.Context(target, map name | name in Names(decls) &&
              Selected(decls, name).Some? :: SignatureOf(Selected(decls, name).value, Prototyped(decls, name)))
  }

  lemma {:induction false} SelectedIsBest(decls: seq<External>, name: string)
    ensures var s := Selected(decls, name);
            && (s.Some? ==> s.value.name == name && FunctionItem(s.value) in decls)
            && (forall d :: d in decls && d.FunctionItem? && d.f.name == name ==>
                  && s.Some?
                  && (d.f.body.Some? ==> s.value.body.Some?)
                  && (s.value.body.None? && !s.value.ty.hasPrototype ==> !d.f.ty.hasPrototype))
    decreases |decls|
  {
    if decls != [] {
      var n := |decls| - 1;
      SelectedIsBest(decls[..n], name);
      assert decls == decls[..n] + [decls[n]];
    }
  }

  // ----- declarations that agree -----

  /** Two declarations of one function: equal results, equal parameters where both list them, and no definition without
      a prototype beside a prototype that has parameters. */
  predicate Alike(f: FunctionSpec, g: FunctionSpec) {
    && EraseBase(Shape(f).ret) == EraseBase(Shape(g).ret)
    && (f.ty.hasPrototype && g.ty.hasPrototype ==>
          Shape(f).variadic == Shape(g).variadic && SameParams(Shape(f).params, Shape(g).params))
    && (g.ty.hasPrototype && Shape(g).params != [] && !f.ty.hasPrototype ==> f.body.None?)
    && (f.ty.hasPrototype && Shape(f).params != [] && !g.ty.hasPrototype ==> g.body.None?)
  }

  /** The same parameter types, whatever their own qualifiers are. */
  predicate SameParams(a: seq<Type>, b: seq<Type>) {
    |a| == |b| && forall i :: 0 <= i < |a| ==> EraseBase(a[i]) == EraseBase(b[i])
  }

  predicate Together(a: External, b: External) {
    a.FunctionItem? && b.FunctionItem? && a.f.name == b.f.name ==>
      Alike(a.f, b.f) && !(a.f.body.Some? && b.f.body.Some?)
  }

  /** All declarations of a function are alike, and at most one is a definition. */
  predicate Consistent(decls: seq<External>) {
    forall i, j :: 0 <= i < j < |decls| ==> Together(decls[i], decls[j])
  }

  lemma {:induction false} AlikeAll(decls: seq<External>, f: FunctionSpec, g: FunctionSpec)
    requires Consistent(decls) && FunctionItem(f) in decls && FunctionItem(g) in decls && f.name == g.name
    ensures Alike(f, g) && (f.body.Some? && g.body.Some? ==> f == g)
  {
    var i :| 0 <= i < |decls| && decls[i] == FunctionItem(f);
    var j :| 0 <= j < |decls| && decls[j] == FunctionItem(g);
    if i < j { assert Together(decls[i], decls[j]); } else if j < i { assert Together(decls[j], decls[i]); }
  }

  /** The generator's signature of a function agrees with every declaration of it. */
  lemma {:induction false} ContextAgrees(target: C.Target, decls: seq<External>, f: FunctionSpec)
    requires Consistent(decls) && FunctionItem(f) in decls
    ensures AgreesOn(UnitContext(target, decls), f.name, Shape(f))
    ensures f.body.Some? ==> Selected(decls, f.name) == Some(f)
    ensures f.name in UnitContext(target, decls).functions
  {
    SelectedIsBest(decls, f.name);
    var s := Selected(decls, f.name).value;
    AlikeAll(decls, f, s);
    assert f.name in Names(decls);
    forall i | 0 <= i < |Shape(s).params|
      ensures EraseTypes(Shape(s).params)[i] == EraseType(Shape(s).params[i])
    {
      ErasedType(Shape(s).params, i);
    }
  }

  // ----- what analysis keeps track of -----

  /** The bound type covers a declaration: same result, and the same parameters if the declaration lists them. */
  predicate Covers(ty: Type, f: FunctionSpec) {
    && ty.Function? && EraseBase(ty.ret) == EraseBase(Shape(f).ret)
    && (f.ty.hasPrototype ==>
        ty.hasPrototype && ty.variadic == Shape(f).variadic && SameParams(ty.params, Shape(f).params))
  }

  /** Every function declared so far is bound to a type that covers it, every bound function was declared, and the
      definitions are exactly those seen. */
  ghost predicate Tracks(done: seq<External>, scope: Scope, definitions: map<string, FunctionSpec>) {
    && (forall d :: d in done && d.FunctionItem? ==>
        d.f.name in scope && scope[d.f.name].Routine? && Covers(scope[d.f.name].ty, d.f))
    && (forall name :: name in scope && scope[name].Routine? ==> DeclaredAs(done, name, scope[name].ty))
    && (forall d :: d in done && d.FunctionItem? && d.f.body.Some? ==>
        d.f.name in definitions && definitions[d.f.name] == d.f)
    && (forall name :: name in definitions ==> definitions[name].body.Some?)
  }

  ghost predicate DeclaredAs(done: seq<External>, name: string, ty: Type) {
    exists d :: d in done && d.FunctionItem? && d.f.name == name && Shape(d.f) == ty
  }

  /** A declaration may follow what is bound under its name. */
  predicate MayFollow(previous: Symbol, f: FunctionSpec) {
    && previous.Routine? && !(f.storage == Static && previous.storage != Static)
    && Compatible(previous.ty, Shape(f), false)
  }

  predicate DefinitionClash(scope: Scope, definitions: map<string, FunctionSpec>, f: FunctionSpec) {
    || (f.body.Some? && !f.ty.hasPrototype && f.name in scope && PrototypeWithParameters(scope[f.name].ty))
    || (f.name in definitions && !definitions[f.name].ty.hasPrototype && PrototypeWithParameters(Shape(f)))
    || (f.body.Some? && f.name in definitions)
  }

  predicate MayDeclare(scope: Scope, definitions: map<string, FunctionSpec>, f: FunctionSpec) {
    (f.name in scope ==> MayFollow(scope[f.name], f)) && !DefinitionClash(scope, definitions, f)
  }

  predicate PrototypeWithParameters(t: Type) {
    t.Function? && t.hasPrototype && t.params != []
  }

  /** A declaration without a prototype does not replace one with a prototype. */
  function BindFunction(scope: Scope, f: FunctionSpec): Scope {
    if f.name in scope && scope[f.name].ty.Function? && !Shape(f).hasPrototype &&
      scope[f.name].ty.hasPrototype then scope
    else scope[f.name := Routine(Shape(f), f.storage)]
  }

  function Define(definitions: map<string, FunctionSpec>, f: FunctionSpec): map<string, FunctionSpec> {
    if f.body.Some? then definitions[f.name := f] else definitions
  }

  lemma {:induction false} CompatibleParams(a: seq<Type>, b: seq<Type>)
    requires CompatibleAll(a, b)
    ensures SameParams(a, b)
    decreases a
  {
    if a != [] {
      CompatibleErased(a[0], b[0], true);
      CompatibleParams(a[1..], b[1..]);
      assert forall i :: 0 < i < |a| ==> a[i] == a[1..][i - 1];
      assert forall i :: 0 < i < |b| ==> b[i] == b[1..][i - 1];
    }
  }

  /** An accepted declaration is alike to every earlier one of the same function, not only to the bound one it is
      compared with. */
  lemma {:induction false} AcceptedIsTogether(done: seq<External>, scope: Scope, definitions: map<string, FunctionSpec>,
                                              f: FunctionSpec, d: External)
    requires Tracks(done, scope, definitions) && d in done
    requires MayDeclare(scope, definitions, f)
    ensures Together(d, FunctionItem(f))
  {
    if d.FunctionItem? && d.f.name == f.name {
      var bound := scope[f.name].ty;
      CompatibleErased(bound.ret, Shape(f).ret, true);
      if bound.hasPrototype && f.ty.hasPrototype { CompatibleParams(bound.params, Shape(f).params); }
    }
  }

  lemma {:induction false} TrackFunction(done: seq<External>, scope: Scope, definitions: map<string, FunctionSpec>,
                                         f: FunctionSpec)
    requires Tracks(done, scope, definitions)
    requires MayDeclare(scope, definitions, f)
    ensures Tracks(done + [FunctionItem(f)], BindFunction(scope, f), Define(definitions, f))
  {
    var scope', definitions' := BindFunction(scope, f), Define(definitions, f);
    var done' := done + [FunctionItem(f)];
    if f.name in scope {
      var bound := scope[f.name].ty;
      CompatibleErased(bound.ret, Shape(f).ret, true);
      if bound.hasPrototype && f.ty.hasPrototype { CompatibleParams(bound.params, Shape(f).params); }
    }
    forall d | d in done' && d.FunctionItem?
      ensures d.f.name in scope' && scope'[d.f.name].Routine? && Covers(scope'[d.f.name].ty, d.f)
      ensures d.f.body.Some? ==> d.f.name in definitions' && definitions'[d.f.name] == d.f
    {
      assert d in done || d == FunctionItem(f);
    }
    forall name | name in scope' && scope'[name].Routine?
      ensures DeclaredAs(done', name, scope'[name].ty)
    {
      if name == f.name && scope' != scope {
        assert FunctionItem(f) in done';
      } else {
        DeclaredLater(done, name, scope[name].ty, FunctionItem(f));
      }
    }
  }

  lemma {:induction false} DeclaredLater(done: seq<External>, name: string, ty: Type, next: External)
    requires DeclaredAs(done, name, ty)
    ensures DeclaredAs(done + [next], name, ty)
  {
    var d :| d in done && d.FunctionItem? && d.f.name == name && Shape(d.f) == ty;
    assert d in done + [next];
  }

  /** Anything but a function leaves the functions as they were. */
  lemma {:induction false} TrackOther(done: seq<External>, scope: Scope, definitions: map<string, FunctionSpec>,
                                      next: External, scope': Scope)
    requires Tracks(done, scope, definitions) && !next.FunctionItem?
    requires forall name :: name in scope' && scope'[name].Routine? ==> name in scope && scope[name] == scope'[name]
    requires forall name :: name in scope && scope[name].Routine? ==> name in scope' && scope[name] == scope'[name]
    ensures Tracks(done + [next], scope', definitions)
  {
    forall name | name in scope' && scope'[name].Routine?
      ensures DeclaredAs(done + [next], name, scope'[name].ty)
    {
      DeclaredLater(done, name, scope[name].ty, next);
    }
  }

  /** Bound functions agree with the signatures of the whole unit, once the whole unit is consistent. */
  lemma {:induction false} BoundAgrees(target: C.Target, decls: seq<External>, done: seq<External>, scope: Scope,
                                       definitions: map<string, FunctionSpec>)
    requires Consistent(decls) && Tracks(done, scope, definitions) && forall d :: d in done ==> d in decls
    ensures Agrees(UnitContext(target, decls), [scope])
  {
    forall name | name in scope && scope[name].Routine?
      ensures AgreesOn(UnitContext(target, decls), name, scope[name].ty)
    {
      var d :| d in done && d.FunctionItem? && d.f.name == name && Shape(d.f) == scope[name].ty;
      ContextAgrees(target, decls, d.f);
    }
  }

  // ----- definitions -----

  /** The declared parameters have the types of the function's and are told apart by their order. */
  predicate ParamsMatch(params: seq<VariableSymbol>, types: seq<Type>) {
    && |params| <= |types|
    && (forall i :: 0 <= i < |params| ==> EraseType(params[i].ty) == EraseType(types[i]))
    && (forall i, j :: 0 <= i < j < |params| ==> params[i].id < params[j].id)
  }

  lemma {:induction false} ErasedParam(params: seq<VariableSymbol>, i: nat)
    requires i < |params|
    ensures EraseParams(params)[i] == Declared(params[i])
    decreases |params|
  {
    if i < |params| - 1 { ErasedParam(params[..|params| - 1], i); }
  }

  lemma {:induction false} ErasedType(ts: seq<Type>, i: nat)
    requires i < |ts|
    ensures EraseTypes(ts)[i] == EraseType(ts[i])
    decreases |ts|
  {
    if i > 0 { ErasedType(ts[1..], i - 1); }
  }

  lemma {:induction false} NormalizedErased(t: Type)
    ensures EraseType(Normalized(t)) == EraseType(t)
    decreases t
  {
    if t.Pointer? { NormalizedErased(t.pointee); }
  }

  /** An analyzed definition in a consistent unit is what the contract of code generation asks for. */
  lemma {:induction false} DefinitionChecked(target: C.Target, decls: seq<External>, f: FunctionSpec, t: TypedFunction)
    requires Consistent(decls) && FunctionItem(f) in decls && f.body.Some?
    requires t.name == f.name && t.ty == Shape(f) && |t.params| == |t.ty.params| && ParamsMatch(t.params, t.ty.params)
    requires ItemsSound(UnitContext(target, decls), EraseBase(t.ty.ret), ParamSet(EraseParams(t.params)), 0, t.body)
    ensures CheckedFunction(UnitContext(target, decls), EraseFunction(t))
  {
    hide CheckedItems;
    ContextAgrees(target, decls, f);
    var params := EraseParams(t.params);
    forall i | 0 <= i < |params|
      ensures params[i].ty == EraseTypes(t.ty.params)[i] && params[i].id == t.params[i].id
    {
      ErasedParam(t.params, i);
      ErasedType(t.ty.params, i);
    }
  }

  lemma {:induction false} DefinitionsStep(decls: seq<External>, i: nat)
    requires i < |decls|
    ensures Definitions(decls[..i + 1]) == Definitions(decls[..i]) + if decls[i].FunctionItem? &&
            decls[i].f.body.Some? then [decls[i].f] else []
  {
    assert decls[..i + 1][..i] == decls[..i];
  }
}
