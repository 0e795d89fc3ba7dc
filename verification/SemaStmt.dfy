/** Analysis of the statements of one function: a stack of scopes and a count of enclosing loops that every statement
    gives back as it found them, apart from what it declares. */
module SemaStmt {
  import C = CAst
  import P = ParseExpr
  import opened Contract
  import opened Handover
  import opened SemaConversions
  import opened SemaExpr
  import opened SemaSoundness
  import opened SemaTree
  import opened SemaTypes
  import opened SymbolTables
  import opened Wrappers

  // ----- scopes -----

  function Top(scopes: seq<Scope>): Scope
    requires scopes != []
  {
    scopes[|scopes| - 1]
  }

  /** How a statement leaves the scopes: a new variable, a type name that hides nothing but a type name, or nothing. */
  predicate Leaves(before: seq<Scope>, s: TypedStmt, after: seq<Scope>) {
    && before != [] && |after| == |before|
    && match s
       case Declaration(v, _) => v.spec.name !in Top(before) && IsLocal(v.symbol) &&
         after == Bound(before, v.spec.name, v.symbol)
       case Typedef(name, _) =>
         && name in Top(after) && Top(after)[name].TypeName? && after == Bound(before, name, Top(after)[name])
         && (name in Top(before) ==> Top(before)[name].TypeName?)
       case _ => after == before
  }

  predicate SameOuter(a: seq<Scope>, b: seq<Scope>) {
    a != [] && |a| == |b| && a[..|a| - 1] == b[..|a| - 1]
  }

  predicate IdsBelow(scopes: seq<Scope>, n: nat) {
    forall i, name :: 0 <= i < |scopes| && name in scopes[i] && scopes[i][name].Variable? ==> scopes[i][name].id < n
  }

  lemma {:induction false} LocalsBelow(scopes: seq<Scope>, n: nat)
    requires IdsBelow(scopes, n)
    ensures forall d :: d in Locals(scopes) ==> d.id < n
    decreases |scopes|
  {
    if scopes != [] { LocalsBelow(scopes[..|scopes| - 1], n); }
  }

  lemma {:induction false} InnerLocals(scopes: seq<Scope>)
    ensures Locals(scopes + [map[]]) == Locals(scopes)
  {
    assert (scopes + [map[]])[..|scopes|] == scopes;
  }

  lemma {:induction false} VariableBound(scopes: seq<Scope>, name: string, d: Symbol)
    requires scopes != [] && name !in Top(scopes) && d.Variable?
    ensures Locals(Bound(scopes, name, d)) == Locals(scopes) + if IsLocal(d) then {Declared(d)} else {}
  {
    var after := Bound(scopes, name, d);
    var n := |scopes| - 1;
    assert after[..n] == scopes[..n];
    assert after[n] == scopes[n][name := d];
    ScopeLocalsAdd(scopes[n], name, d);
  }

  lemma {:induction false} ScopeLocalsAdd(scope: Scope, name: string, d: Symbol)
    requires name !in scope && d.Variable?
    ensures ScopeLocals(scope[name := d]) == ScopeLocals(scope) + if IsLocal(d) then {Declared(d)} else {}
  {
    var after := scope[name := d];
    forall x
      ensures x in ScopeLocals(after) <==> x in ScopeLocals(scope) || (IsLocal(d) && x == Declared(d))
    {
      if x in ScopeLocals(scope) {
        var m :| m in scope && IsLocal(scope[m]) && Declared(scope[m]) == x;
        assert m in after && after[m] == scope[m];
      }
      if IsLocal(d) && x == Declared(d) { assert name in after && after[name] == d; }
      if x in ScopeLocals(after) {
        var m :| m in after && IsLocal(after[m]) && Declared(after[m]) == x;
        if m != name { assert m in scope; }
      }
    }
  }

  lemma {:induction false} OtherBound(scopes: seq<Scope>, name: string, d: Symbol)
    requires scopes != [] && !IsLocal(d) && (name in Top(scopes) ==> !IsLocal(Top(scopes)[name]))
    ensures Locals(Bound(scopes, name, d)) == Locals(scopes)
  {
    var after := Bound(scopes, name, d);
    var n := |scopes| - 1;
    assert after[..n] == scopes[..n];
    forall x
      ensures x in ScopeLocals(after[n]) <==> x in ScopeLocals(scopes[n])
    {
      if x in ScopeLocals(scopes[n]) {
        var m :| m in scopes[n] && IsLocal(scopes[n][m]) && Declared(scopes[n][m]) == x;
        assert m in after[n] && after[n][m] == scopes[n][m];
      }
    }
  }

  /** The declarations in scope after a statement are those the contract of code generation counts with. */
  lemma {:induction false} LocalsAfter(before: seq<Scope>, s: TypedStmt, after: seq<Scope>)
    requires Leaves(before, s, after)
    ensures Locals(after) == ScopeAfter(Locals(before), EraseStmt(s))
  {
    match s
    case Declaration(v, _) => VariableBound(before, v.spec.name, v.symbol);
    case Typedef(name, _) => OtherBound(before, name, Top(after)[name]);
    case _ =>
  }

  lemma {:induction false} AgreesAfter(ctx: C.Context, before: seq<Scope>, s: TypedStmt, after: seq<Scope>)
    requires Leaves(before, s, after) && Agrees(ctx, before)
    ensures Agrees(ctx, after)
  {
  }

  // ----- what a statement must look like to code generation -----

  predicate StmtSound(ctx: C.Context, ret: C.CType, scope: set<C.Decl>, depth: nat, s: TypedStmt) {
    CheckedStmt(ctx, ret, scope, depth, EraseStmt(s))
  }

  predicate ItemsSound(ctx: C.Context, ret: C.CType, scope: set<C.Decl>, depth: nat, items: seq<TypedStmt>) {
    CheckedItems(ctx, ret, scope, depth, EraseItems(items))
  }

  /** s is source analyzed: nothing but additions, the scopes left as the statement leaves them, and the contract of
      code generation met whenever the declared functions agree with the generator's signatures. */
  ghost predicate Analyzed(ctx: C.Context, ret: C.CType, before: seq<Scope>, depth: nat, source: ParsedStmt,
                           s: TypedStmt, after: seq<Scope>) {
    && PlainStmt(s) == source && Leaves(before, s, after)
    && (Agrees(ctx, before) ==> StmtSound(ctx, ret, Locals(before), depth, s))
  }

  function ScopeAfterItems(scope: set<C.Decl>, items: seq<C.Stmt>): set<C.Decl>
    decreases |items|
  {
    if items == [] then scope else ScopeAfterItems(ScopeAfter(scope, items[0]), items[1..])
  }

  lemma {:induction false} AddItem(ctx: C.Context, ret: C.CType, scope: set<C.Decl>, depth: nat, items: seq<TypedStmt>,
                                   s: TypedStmt)
    requires ItemsSound(ctx, ret, scope, depth, items)
    requires StmtSound(ctx, ret, ScopeAfterItems(scope, EraseItems(items)), depth, s)
    ensures ItemsSound(ctx, ret, scope, depth, items + [s])
    decreases |items|
  {
    if items != [] {
      AddItem(ctx, ret, ScopeAfter(scope, EraseStmt(items[0])), depth, items[1..], s);
      assert (items + [s])[1..] == items[1..] + [s];
    }
  }

  lemma {:induction false} AddItemPlain(items: seq<TypedStmt>, s: TypedStmt, scope: set<C.Decl>)
    ensures PlainItems(items + [s]) == PlainItems(items) + [PlainStmt(s)]
    ensures ScopeAfterItems(scope, EraseItems(items + [s]))
        == ScopeAfter(ScopeAfterItems(scope, EraseItems(items)), EraseStmt(s))
    decreases |items|
  {
    if items != [] {
      AddItemPlain(items[1..], s, ScopeAfter(scope, EraseStmt(items[0])));
      assert (items + [s])[1..] == items[1..] + [s];
    }
  }

  // ----- expressions in statements -----

  lemma {:induction false} ExprGood(ctx: C.Context, s: Setting, e: P.Expr)
    requires s.Valid() && Analyze(s, e).Some?
    ensures Plain(Value(Analyze(s, e).value)) == e
    ensures Agrees(ctx, s.scopes) ==> Sound(ctx, Locals(s.scopes), Value(Analyze(s, e).value))
  {
    hide Analyze, Sound, Value, Plain;
    OnlyAdds(s, e);
    ValuePlain(Analyze(s, e).value);
    if Agrees(ctx, s.scopes) {
      AnalyzedSound(ctx, s, e);
      ValueSound(ctx, Locals(s.scopes), Analyze(s, e).value);
    }
  }

  lemma {:induction false} ConvertedGood(ctx: C.Context, s: Setting, e: P.Expr, to: Type)
    requires s.Valid() && Analyze(s, e).Some? && Convert(Analyze(s, e).value, to).Some?
    ensures var r := Convert(Analyze(s, e).value, to).value;
            && Plain(r) == e
            && (Agrees(ctx, s.scopes) ==> Sound(ctx, Locals(s.scopes), r) && EraseType(r.ty) == EraseBase(to))
  {
    hide Analyze, Sound, Convert, Plain;
    OnlyAdds(s, e);
    ConvertPlain(Analyze(s, e).value, to);
    if Agrees(ctx, s.scopes) {
      AnalyzedSound(ctx, s, e);
      ConvertSound(ctx, Locals(s.scopes), Analyze(s, e).value, to);
    }
  }

  /** An expression, if any, as a statement uses it. */
  ghost predicate GoodOption(ctx: C.Context, scopes: seq<Scope>, source: Option<P.Expr>, e: Option<Typed>) {
    && PlainOption(e) == source
    && (e.Some? && Agrees(ctx, scopes) ==> Sound(ctx, Locals(scopes), e.value))
  }
}
