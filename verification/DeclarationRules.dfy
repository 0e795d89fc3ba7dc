/** What C99 sections 6.7, 6.8.5 and 6.9 ask of declarations, written out in one place for each kind, and the proof that
    analysis accepts exactly those, and what it binds. */
module DeclarationRules {
  import opened SemaConversions
  import opened SemaExpr
  import opened SemaRules
  import opened SemaStmt
  import opened SemaTags
  import opened SemaTree
  import opened SemaTypes
  import opened SemaUnit
  import opened Wrappers

  /** The type may be that of an object or, for functions, of their parameters and result. */
  predicate IsSound(declared: DeclaredType) {
    ArrayParamsValid(declared) && Valid(AdjustedType(declared))
  }

  /** An object has neither type void nor a function type; its type is complete, but that extern declarations and file
      scope arrays without a size wait for another declaration; and only blocks have auto and register objects. */
  predicate IsObject(ty: Type, storage: StorageClass, global: bool) {
    && !ty.Void? && !ty.Function?
    && (!ty.IsComplete() ==> storage == Extern || (global && ty.Array? && ty.bound < 0))
    && (global ==> storage in {Unspecified, Static, Extern})
  }

  /** Only objects at file scope are declared again, with compatible types; static follows static alone, and what has
      been static is not declared without a storage class. */
  predicate IsAgain(previous: Symbol, ty: Type, storage: StorageClass, global: bool, parameter: bool) {
    && global && !parameter && previous.Variable? && !previous.isParameter && Compatible(previous.ty, ty, false)
    && (previous.storage == Static ==> storage != Unspecified) && (previous.storage != Static ==> storage != Static)
  }

  /** A variable is accepted exactly where these rules hold and its tags are used as what they are. It is bound with a
      number of its own; an array that leaves its size open takes the size of the declaration before it; and no other
      name changes. */
  lemma {:induction false} VariableIsDeclared(v: VarSpec, global: bool, parameter: bool, at: Place)
    requires at.scopes != []
    ensures var after, ty := VariableAfter(v, global, parameter, at), AdjustedType(v.ty);
            after.Some? <==>
              && IsSound(v.ty) && TagsAfter(v.ty, at.tags).Some? && (!parameter ==> IsObject(ty, v.storage, global))
              && (v.name in Top(at.scopes) ==> IsAgain(Top(at.scopes)[v.name], ty, v.storage, global, parameter))
    ensures var after, ty := VariableAfter(v, global, parameter, at), AdjustedType(v.ty);
            after.Some? ==>
              && after.value.next == at.next + 1 && SameOuter(at.scopes, after.value.scopes)
              && (forall name :: name != v.name ==>
                    (name in Top(after.value.scopes) <==> name in Top(at.scopes)) &&
                    (name in Top(at.scopes) ==> Top(after.value.scopes)[name] == Top(at.scopes)[name]))
              && var d := Top(after.value.scopes)[v.name];
                 && d.Variable? && d.id == at.next && d.storage == v.storage && d.isGlobal == global
                 && d.isParameter == parameter
                 && (!(ty.Array? && ty.bound < 0 && v.name in Top(at.scopes)) ==> d.ty == ty)
                 && (ty.Array? && ty.bound < 0 && v.name in Top(at.scopes) ==>
                       d.ty == Array(ty.elem, Top(at.scopes)[v.name].ty.bound, ty.quals))
  {
    hide ArrayParamsValid, Valid, Normalized, TagsAfter;
  }

  /** The type of a type name. It may be declared again as a type name for a compatible type. */
  lemma {:induction false} TypeNameIsDeclared(name: string, declared: DeclaredType, at: Place)
    requires at.scopes != []
    ensures var after, ty := TypedefAfter(name, declared, at), AdjustedType(declared);
            after.Some? <==>
              && IsSound(declared) && TagsAfter(declared, at.tags).Some?
              && (name in Top(at.scopes) ==>
                    Top(at.scopes)[name].TypeName? && Compatible(Top(at.scopes)[name].ty, ty, false))
    ensures TypedefAfter(name, declared, at).Some? ==>
        var scope := Top(TypedefAfter(name, declared, at).value.scopes);
        && TypedefAfter(name, declared, at).value.next == at.next && name in scope && scope[name].TypeName?
        && (name !in Top(at.scopes) ==> scope[name].ty == AdjustedType(declared))
  {
    hide ArrayParamsValid, Valid, Normalized, TagsAfter, Compatible;
  }

  /** Before a loop there is nothing, an expression, or a declaration of an automatic object. */
  lemma {:induction false} LoopStarts(r: Rules, stmt: ParsedStmt, at: Place)
    requires r.platform.target.Valid() && at.scopes != [] && stmt.For? && StartAfter(r, stmt, at).Some?
    ensures stmt.start.Some? && stmt.start.value.Declaration? ==>
              stmt.start.value.v.storage in {Unspecified, Auto, Register}
    ensures stmt.start.Some? ==> !stmt.start.value.Typedef? && !stmt.start.value.Tag?
  {
    hide StmtAfter;
  }

  /** Parameters have different names. */
  predicate AreDistinct(names: seq<string>) {
    forall i, j :: 0 <= i < |names| && 0 <= j < |names| && i != j && names[i] == names[j] ==> names[i] == ""
  }

  /** A function declared before: with a compatible type, static only if it was static; and a definition without a
      prototype does not go with a prototype that has parameters. */
  predicate IsFunctionAgain(f: FunctionSpec, at: FileScope) {
    && (f.name in at.scope ==>
          var previous := at.scope[f.name];
          && previous.Routine? && Compatible(previous.ty, Shape(f), false)
          && (f.storage == Static ==> previous.storage == Static)
          && (f.body.Some? && !f.ty.hasPrototype ==> !previous.ty.hasPrototype || previous.ty.params == []))
    && (f.name in at.definitions ==>
          && f.body.None?
          && (!at.definitions[f.name].ty.hasPrototype ==> !f.ty.hasPrototype || f.ty.params == []))
  }

  /** A declaration of a function without a body is accepted exactly where these rules hold. The name then stands for
      the declared type, but that a prototype is not forgotten for a declaration without one. */
  lemma {:induction false} FunctionIsDeclared(platform: Platform, decode: string -> Literal, f: FunctionSpec,
                                              at: FileScope)
    requires platform.target.Valid() && GrammaticalFunction(f) && f.body.None?
    ensures var after := FunctionAfter(platform, decode, f, at);
            after.Some? <==>
              && TagsAfter(f.ty, at.tags).Some? && ArrayParamsValid(f.ty) && Valid(Shape(f))
              && AreDistinct(f.paramNames) && f.storage != Auto && f.storage != Register && IsFunctionAgain(f, at)
    ensures FunctionAfter(platform, decode, f, at).Some? ==>
              var scope := FunctionAfter(platform, decode, f, at).value.scope;
              && (forall name :: name != f.name ==>
                    (name in scope <==> name in at.scope) && (name in scope ==> scope[name] == at.scope[name]))
              && f.name in scope
              && scope[f.name] == if f.name in at.scope && at.scope[f.name].ty.hasPrototype && !f.ty.hasPrototype then
                   at.scope[f.name] else Routine(Shape(f), f.storage)
  {
    hide ArrayParamsValid, Valid, Normalized, TagsAfter, Compatible;
    NamesDiffer(f.paramNames);
    if f.name in at.scope && Compatible(at.scope[f.name].ty, Shape(f), false) {
      FunctionsAlone(at.scope[f.name].ty, f);
    }
  }

  lemma {:induction false} FunctionsAlone(t: Type, f: FunctionSpec)
    requires Compatible(t, Shape(f), false)
    ensures t.Function?
  {
  }

  lemma {:induction false} NamesDiffer(names: seq<string>)
    ensures DifferentNames(names) <==> AreDistinct(names)
  {
  }
}
