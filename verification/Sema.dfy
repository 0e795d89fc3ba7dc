/** The analyzer as it is written: it walks a function body with a scope stack, a loop depth and an error flag, and goes
    on after an error. */
module Semantics {
  import C = CAst
  import P = ParseExpr
  import opened Contract
  import opened Handover
  import opened SemaConversions
  import opened SemaExpr
  import opened SemaRules
  import opened SemaSoundness
  import opened SemaStmt
  import opened SemaTags
  import opened SemaTree
  import opened SemaTypes
  import opened SemaUnit
  import opened SymbolTables
  import opened Wrappers

  class Sema {
    const platform: Platform
    const decode: string -> Literal
    const symbols: SymbolTable
    var errors: bool
    var loopDepth: nat
    var result: Option<DeclaredType>  // what the current function returns
    var nextId: nat
    var definitions: map<string, FunctionSpec>
    var tags: Tags

    constructor (platform: Platform, decode: string -> Literal)
      ensures this.platform == platform && this.decode == decode && fresh(symbols) && symbols.scopes == []
      ensures !errors && loopDepth == 0 && result == None && nextId == 0 && definitions == map[] && tags == map[]
    {
      this.platform := platform;
      this.decode := decode;
      symbols := new SymbolTable();
      errors, loopDepth, result, nextId, definitions, tags := false, 0, None, 0, map[], map[];
    }

    ghost predicate Ready()
      reads this, symbols
    {
      platform.target.Valid() && symbols.scopes != [] && IdsBelow(symbols.scopes, nextId)
    }

    function Here(): Setting
      reads symbols
    {
      Setting(platform, decode, symbols.scopes)
    }

    /** The scopes, the next number and the known tags. */
    function Now(): Place
      reads this, symbols
    {
      Place(symbols.scopes, nextId, tags)
    }

    function Surroundings(): Rules
      requires result.Some?
      reads this
    {
      Rules(platform, decode, result.value, loopDepth)
    }

    /** An error has been reported exactly if the rules leave nothing; otherwise they leave what is there now. */
    twostate predicate Says(new after: Option<Place>)
      reads this, symbols
    {
      !old(errors) ==> after == if errors then None else Some(Now())
    }

    /** What a statement may change: errors are kept, loops and outer scopes given back. */
    twostate predicate Steady()
      reads this, symbols
    {
      && Ready() && loopDepth == old(loopDepth) && result == old(result) && definitions == old(definitions)
      && old(nextId) <= nextId
      && (old(errors) ==> errors) && SameOuter(old(symbols.scopes), symbols.scopes)
    }

    // ----- expressions -----

    method AnalyzeExpr(e: P.Expr) returns (t: Option<Typed>)
      requires platform.target.Valid()
      modifies `errors
      ensures t == Analyze(Here(), e) && errors == (old(errors) || t.None?)
    {
      t := Analyze(Here(), e);
      errors := errors || t.None?;
    }

    /** An expression whose value is used. */
    method AnalyzeValue(e: P.Expr, ghost ctx: C.Context) returns (t: Option<Typed>)
      requires platform.target.Valid()
      modifies `errors
      ensures errors == (old(errors) || t.None?)
      ensures var r := Analyze(Here(), e); t == if r.None? then None else Some(Value(r.value))
      ensures t.Some? ==> GoodOption(ctx, symbols.scopes, Some(e), t)
    {
      var r := AnalyzeExpr(e);
      if r.None? { return None; }
      ExprGood(ctx, Here(), e);
      t := Some(Value(r.value));
    }

    method AnalyzeOptional(e: Option<P.Expr>, ghost ctx: C.Context) returns (t: Option<Typed>)
      requires platform.target.Valid()
      modifies `errors
      ensures errors == (old(errors) || !AcceptedOption(Here(), e))
      ensures !errors ==> GoodOption(ctx, symbols.scopes, e, t)
    {
      t := None;
      if e.Some? { t := AnalyzeValue(e.value, ctx); }
    }

    method AnalyzeCondition(e: P.Expr, ghost ctx: C.Context) returns (t: Option<Typed>)
      requires platform.target.Valid()
      modifies `errors
      ensures errors == (old(errors) || !AcceptedTest(Here(), Some(e)))
      ensures !errors ==> t.Some? && t.value.ty.IsScalar() && GoodOption(ctx, symbols.scopes, Some(e), t)
    {
      t := AnalyzeValue(e, ctx);
      if t.Some? && !t.value.ty.IsScalar() { errors := true; }
    }

    method AnalyzeTest(e: Option<P.Expr>, ghost ctx: C.Context) returns (t: Option<Typed>)
      requires platform.target.Valid()
      modifies `errors
      ensures errors == (old(errors) || !AcceptedTest(Here(), e))
      ensures !errors ==> GoodOption(ctx, symbols.scopes, e, t)
    {
      t := None;
      if e.Some? { t := AnalyzeCondition(e.value, ctx); }
    }

    method AnalyzeConverted(e: P.Expr, to: Type, ghost ctx: C.Context) returns (t: Option<Typed>)
      requires platform.target.Valid()
      modifies `errors
      ensures errors == (old(errors) || !AcceptedAs(Here(), Some(e), to))
      ensures !errors ==> t.Some? && GoodOption(ctx, symbols.scopes, Some(e), t)
      ensures !errors && Agrees(ctx, symbols.scopes) ==> EraseType(t.value.ty) == EraseBase(to)
    {
      var r := AnalyzeExpr(e);
      if r.None? { return None; }
      t := Convert(r.value, to);
      if t.None? { errors := true; return; }
      ConvertedGood(ctx, Here(), e, to);
    }

    // ----- declarations -----

    /** The tags of a type become known, and a tag known as another kind is reported. */
    method EnterTags(t: Type)
      modifies `errors, `tags
      ensures old(errors) ==> errors
      ensures !old(errors) ==> TagsAfter(t, old(tags)) == if errors then None else Some(tags)
      decreases t
    {
      match t
      case Pointer(p, _) => EnterTags(p);
      case Array(e, _, _) => EnterTags(e);
      case Function(r, ps, _, _, _) => {
        EnterTags(r);
        ghost var known, failed := tags, errors;
        var i := 0;
        assert ps[0..] == ps;
        while i < |ps|
          invariant 0 <= i <= |ps| && (failed ==> errors)
          invariant !failed ==> AllTagsAfter(ps, known) == if errors then None else AllTagsAfter(ps[i..], tags)
        {
          AllTagsThen(ps, i, tags);
          EnterTags(ps[i]);
          i := i + 1;
        }
      }
      case Tagged(sort, tag, _) => EnterTag(sort, tag);
      case _ =>
    }

    method EnterTag(sort: TagKind, tag: string)
      modifies `errors, `tags
      ensures old(errors) ==> errors
      ensures !old(errors) ==> TagAfter(sort, tag, old(tags)) == if errors then None else Some(tags)
    {
      if tag == "" { return; }
      if tag !in tags {
        tags := tags[tag := sort];
      } else if tags[tag] != sort {
        errors := true;
      }
    }

    method DeclareVariable(v: VarSpec, global: bool, parameter: bool) returns (d: Option<Symbol>)
      requires Ready()
      modifies `errors, `nextId, `tags, symbols
      ensures Steady() && Says(VariableAfter(v, global, parameter, old(Now())))
      ensures d.None? ==> errors && symbols.scopes == old(symbols.scopes)
      ensures d.Some? ==> NewVariable(d.value, v, global, parameter, old(nextId)) && nextId == old(nextId) + 1
      ensures d.Some? ==> symbols.scopes == Bound(old(symbols.scopes), v.name, d.value)
      ensures d.Some? && !global ==> v.name !in Top(old(symbols.scopes))
      ensures d.Some? && v.name in Top(old(symbols.scopes)) ==> Top(old(symbols.scopes))[v.name].Variable?
    {
      hide VariableType, TagsAfter;
      d := None;
      EnterTags(v.ty);
      var ty := CheckVariable(v, global, parameter);
      if ty.None? { return; }
      d := Some(Variable(nextId, ty.value, v.storage, global, parameter));
      nextId := nextId + 1;
      symbols.Bind(v.name, d.value);
    }

    /** The type of a variable that is declared here; after an error it may have one all the same. */
    method CheckVariable(v: VarSpec, global: bool, parameter: bool) returns (r: Option<DeclaredType>)
      requires Ready()
      modifies `errors
      ensures var ty := VariableType(v, global, parameter, Top(symbols.scopes));
              && errors == (old(errors) || ty.None?)
              && (ty.Some? ==> r == ty)
      ensures r.None? ==> errors
      ensures r.Some? ==> EraseType(r.value) == EraseType(Normalized(v.ty)) && (!global ==> r.value == Normalized(v.ty))
      ensures r.Some? && !global ==> v.name !in Top(symbols.scopes)
      ensures r.Some? && v.name in Top(symbols.scopes) ==> Top(symbols.scopes)[v.name].Variable?
    {
      hide Valid, ArrayParamsValid, IdsBelow;
      r := None;
      var ty := AdjustedType(v.ty);
      if !ArrayParamsValid(v.ty) { errors := true; }
      if !Valid(ty) { errors := true; return; }
      if !parameter && !ObjectType(ty, v.storage, global) { errors := true; return; }
      var previous := symbols.FindCurrent(v.name);
      if previous.Some? {
        if !MayRedeclare(previous.value, v.storage, ty, global, parameter) { errors := true; return; }
        if ty.Array? && ty.bound < 0 { ty := ty.(bound := previous.value.ty.bound); }
      }
      ArrayErased(ty);
      ArrayErased(Normalized(v.ty));
      r := Some(ty);
    }

    method DeclareTypedef(name: string, declared: DeclaredType) returns (ok: bool)
      requires Ready()
      modifies `errors, `tags, symbols
      ensures Steady() && nextId == old(nextId) && Says(TypedefAfter(name, declared, old(Now())))
      ensures !ok ==> errors && symbols.scopes == old(symbols.scopes)
      ensures ok ==> Leaves(old(symbols.scopes), Typedef(name, declared), symbols.scopes)
    {
      hide TagsAfter, TypeNameType, IdsBelow;
      ok := false;
      ghost var before := symbols.scopes;
      EnterTags(declared);
      var ty := CheckTypedef(name, declared);
      if ty.None? { return; }
      symbols.Bind(name, TypeName(ty.value));
      OtherKeepsIds(before, name, TypeName(ty.value), nextId);
      ok := true;
    }

    /** The type of a type name that is declared here; after an error it may have one all the same. */
    method CheckTypedef(name: string, declared: DeclaredType) returns (r: Option<DeclaredType>)
      requires Ready()
      modifies `errors
      ensures var ty := TypeNameType(name, declared, Top(symbols.scopes));
              && errors == (old(errors) || ty.None?)
              && (ty.Some? ==> r == ty)
      ensures r.None? ==> errors
      ensures r.Some? && name in Top(symbols.scopes) ==> Top(symbols.scopes)[name].TypeName?
    {
      hide Valid, ArrayParamsValid, IdsBelow;
      r := None;
      var ty := AdjustedType(declared);
      if !ArrayParamsValid(declared) { errors := true; }
      if !Valid(ty) { errors := true; return; }
      var previous := symbols.FindCurrent(name);
      if previous.Some? {
        if !previous.value.TypeName? || !Compatible(previous.value.ty, ty, false) { errors := true; return; }
        if ty.Array? && ty.bound < 0 { ty := ty.(bound := previous.value.ty.bound); }
      }
      r := Some(ty);
    }

    // ----- statements -----

    method AnalyzeNode(stmt: ParsedStmt, ghost ctx: C.Context) returns (t: TypedStmt)
      requires Ready() && result.Some? && Grammatical(stmt)
      modifies `errors, `loopDepth, `nextId, `tags, symbols
      ensures Steady() && Says(StmtAfter(old(Surroundings()), stmt, old(Now())))
      ensures !errors ==>
          Analyzed(ctx, EraseBase(result.value), old(symbols.scopes), loopDepth, stmt, t, symbols.scopes)
      decreases stmt, 2
    {
      hide Analyzed, AcceptedOption, AcceptedTest, AcceptedAs, InitializedAfter, TypedefAfter, ForAfter, ItemsAfter;
      match stmt
      case Declaration(v, init) => t := AnalyzeDeclaration(v, init, ctx);
      case If(_, _, _) => t := AnalyzeIf(stmt, ctx);
      case While(_, _) => t := AnalyzeWhile(stmt, ctx);
      case For(_, _, _, _) => t := AnalyzeFor(stmt, ctx);
      case Break => t := AnalyzeJump(stmt, ctx);
      case Continue => t := AnalyzeJump(stmt, ctx);
      case Return(_) => t := AnalyzeReturn(stmt, ctx);
      case _ => t := AnalyzeOther(stmt, ctx);
    }

    method AnalyzeJump(stmt: ParsedStmt, ghost ctx: C.Context) returns (t: TypedStmt)
      requires Ready() && result.Some? && (stmt.Break? || stmt.Continue?)
      modifies `errors
      ensures Steady() && Says(StmtAfter(old(Surroundings()), stmt, old(Now())))
      ensures !errors ==>
          Analyzed(ctx, EraseBase(result.value), old(symbols.scopes), loopDepth, stmt, t, symbols.scopes)
    {
      hide Agrees, Locals, IdsBelow;
      if loopDepth == 0 { errors := true; }
      t := if stmt.Break? then Break else Continue;
    }

    /** Type names, tags, nested blocks and expressions. */
    method AnalyzeOther(stmt: ParsedStmt, ghost ctx: C.Context) returns (t: TypedStmt)
      requires Ready() && result.Some? && Grammatical(stmt)
      requires stmt.Typedef? || stmt.Tag? || stmt.Block? || stmt.Expression? || stmt.OtherStmt?
      modifies `errors, `loopDepth, `nextId, `tags, symbols
      ensures Steady() && Says(StmtAfter(old(Surroundings()), stmt, old(Now())))
      ensures !errors ==>
          Analyzed(ctx, EraseBase(result.value), old(symbols.scopes), loopDepth, stmt, t, symbols.scopes)
      decreases stmt, 1
    {
      hide AcceptedOption, TypedefAfter, ItemsAfter, Agrees, Locals, IdsBelow;
      match stmt
      case Typedef(name, ty) => {
        var ok := DeclareTypedef(name, ty);
        t := if ok then Typedef(name, ty) else OtherStmt;
      }
      case Tag(sort, tag) => {
        EnterTag(sort, tag);
        t := Tag(sort, tag);
      }
      case Block(items) => {
        var ts := AnalyzeBlock(items, true, ctx);
        t := Block(ts);
      }
      case Expression(e) => {
        var r := AnalyzeOptional(e, ctx);
        t := Expression(r);
      }
      case OtherStmt => {
        errors := true;
        t := OtherStmt;
      }
    }

    method AnalyzeDeclaration(v: VarSpec, init: Option<P.Expr>, ghost ctx: C.Context) returns (t: TypedStmt)
      requires Ready() && result.Some?
      modifies `errors, `nextId, `tags, symbols
      ensures Steady() && Says(InitializedAfter(old(Here()), v, init, false, old(Now())))
      ensures !errors ==>
                Analyzed(ctx, EraseBase(result.value), old(symbols.scopes), loopDepth, Declaration(v, init), t,
                         symbols.scopes)
    {
      ghost var before := symbols.scopes;
      var d := DeclareVariable(v, false, false);
      if d.None? { return OtherStmt; }
      var e: Option<Typed> := None;
      if init.Some? { e := AnalyzeConverted(init.value, d.value.ty, ctx); }
      t := Declaration(DeclaredVar(v, d.value), e);
      if !errors {
        DeclarationAnalyzed(ctx, EraseBase(result.value), before, loopDepth, v, init, old(nextId), d.value, e);
      }
    }

    /** The items of a block; nested, in a scope of their own. */
    method AnalyzeBlock(items: seq<ParsedStmt>, nested: bool, ghost ctx: C.Context) returns (ts: seq<TypedStmt>)
      requires Ready() && result.Some? && forall i :: i in items ==> Grammatical(i)
      modifies `errors, `loopDepth, `nextId, `tags, symbols
      ensures Steady()
      ensures nested ==> Says(StmtAfter(old(Surroundings()), Block(items), old(Now())))
      ensures !nested ==> Says(ItemsAfter(old(Surroundings()), items, old(Now())))
      ensures nested ==> symbols.scopes == old(symbols.scopes)
      ensures !errors ==> PlainItems(ts) == items
      ensures !errors && Agrees(ctx, old(symbols.scopes)) ==>
                ItemsSound(ctx, EraseBase(result.value), Locals(old(symbols.scopes)), loopDepth, ts)
      decreases items, 1
    {
      hide Agrees, ItemsSound, ItemsAfter, Locals;
      ghost var outer := symbols.scopes;
      InnerLocals(outer);
      if Agrees(ctx, outer) { AgreesInner(ctx, outer); }
      if nested { symbols.Push(); }
      ts := AnalyzeItems(items, ctx);
      if nested { symbols.Pop(); }
    }

    method AnalyzeItems(items: seq<ParsedStmt>, ghost ctx: C.Context) returns (ts: seq<TypedStmt>)
      requires Ready() && result.Some? && forall i :: i in items ==> Grammatical(i)
      modifies `errors, `loopDepth, `nextId, `tags, symbols
      ensures Steady() && Says(ItemsAfter(old(Surroundings()), items, old(Now())))
      ensures !errors ==> PlainItems(ts) == items
      ensures !errors && Agrees(ctx, old(symbols.scopes)) ==>
                ItemsSound(ctx, EraseBase(result.value), Locals(old(symbols.scopes)), loopDepth, ts)
      decreases items, 0
    {
      hide Analyzed, Agrees, StmtAfter, ScopeAfterItems;
      ghost var start, place, rules := symbols.scopes, Now(), Surroundings();
      ts := [];
      var i := 0;
      assert items[0..] == items;
      NoItems(ctx, EraseBase(result.value), Locals(start), loopDepth);
      while i < |items|
        invariant 0 <= i <= |items|
        invariant SameOuter(start, symbols.scopes) && Ready() && loopDepth == old(loopDepth) && old(nextId) <= nextId
        invariant result == old(result) && definitions == old(definitions) && (old(errors) ==> errors)
        invariant !old(errors) ==>
                    ItemsAfter(rules, items, place) == if errors then None else ItemsAfter(rules, items[i..], Now())
        invariant !errors ==> PlainItems(ts) == items[..i]
        invariant !errors && Agrees(ctx, start) ==>
                    && Agrees(ctx, symbols.scopes)
                    && ItemsSound(ctx, EraseBase(result.value), Locals(start), loopDepth, ts)
                    && Locals(symbols.scopes) == ScopeAfterItems(Locals(start), EraseItems(ts))
      {
        ghost var before := symbols.scopes;
        ItemsThen(rules, items, i, Now());
        var t := AnalyzeNode(items[i], ctx);
        if !errors {
          ItemAdded(ctx, EraseBase(result.value), start, before, loopDepth, items[i], ts, t, symbols.scopes);
        }
        ts := ts + [t];
        assert items[..i + 1] == items[..i] + [items[i]];
        i := i + 1;
      }
      assert items[..i] == items;
    }

    method AnalyzeIf(stmt: ParsedStmt, ghost ctx: C.Context) returns (t: TypedStmt)
      requires Ready() && result.Some? && stmt.If? && Grammatical(stmt)
      modifies `errors, `loopDepth, `nextId, `tags, symbols
      ensures Steady() && Says(StmtAfter(old(Surroundings()), stmt, old(Now())))
      ensures !errors ==>
          Analyzed(ctx, EraseBase(result.value), old(symbols.scopes), loopDepth, stmt, t, symbols.scopes)
      decreases stmt, 0
    {
      hide Analyzed, GoodOption, Agrees, AcceptedTest, Leaves;
      ghost var before := symbols.scopes;
      var cond := AnalyzeCondition(stmt.cond, ctx);
      var thn := AnalyzeNode(stmt.thn, ctx);
      if !errors { NothingDeclared(ctx, EraseBase(result.value), before, loopDepth, stmt.thn, thn, symbols.scopes); }
      var els: Option<TypedStmt> := None;
      if stmt.els.Some? {
        var e := AnalyzeNode(stmt.els.value, ctx);
        els := Some(e);
        if !errors {
          NothingDeclared(ctx, EraseBase(result.value), before, loopDepth, stmt.els.value, e, symbols.scopes);
        }
      }
      t := if cond.Some? then If(cond.value, thn, els) else OtherStmt;
      if !errors { IfAnalyzed(ctx, EraseBase(result.value), before, loopDepth, stmt, cond.value, thn, els); }
    }

    method AnalyzeWhile(stmt: ParsedStmt, ghost ctx: C.Context) returns (t: TypedStmt)
      requires Ready() && result.Some? && stmt.While? && Grammatical(stmt)
      modifies `errors, `loopDepth, `nextId, `tags, symbols
      ensures Steady() && Says(StmtAfter(old(Surroundings()), stmt, old(Now())))
      ensures !errors ==>
          Analyzed(ctx, EraseBase(result.value), old(symbols.scopes), loopDepth, stmt, t, symbols.scopes)
      decreases stmt, 0
    {
      hide Analyzed, GoodOption, Agrees, AcceptedTest, Leaves;
      ghost var before := symbols.scopes;
      var cond := AnalyzeCondition(stmt.cond, ctx);
      loopDepth := loopDepth + 1;
      var body := AnalyzeNode(stmt.body, ctx);
      loopDepth := loopDepth - 1;
      t := if cond.Some? then While(cond.value, body) else OtherStmt;
      if !errors {
        NothingDeclared(ctx, EraseBase(result.value), before, loopDepth + 1, stmt.body, body, symbols.scopes);
        WhileAnalyzed(ctx, EraseBase(result.value), before, loopDepth, stmt, cond.value, body);
      }
    }

    method AnalyzeFor(stmt: ParsedStmt, ghost ctx: C.Context) returns (t: TypedStmt)
      requires Ready() && result.Some? && stmt.For? && Grammatical(stmt)
      modifies `errors, `loopDepth, `nextId, `tags, symbols
      ensures Steady() && Says(ForAfter(old(Surroundings()), stmt, old(Now())))
      ensures !errors ==>
          Analyzed(ctx, EraseBase(result.value), old(symbols.scopes), loopDepth, stmt, t, symbols.scopes)
      decreases stmt, 1
    {
      hide Analyzed, GoodOption, StmtAfter, StartAfter, AcceptedTest, AcceptedOption;
      ghost var outer := symbols.scopes;
      symbols.Push();
      ghost var inner := symbols.scopes;
      var start := AnalyzeStart(stmt, ctx);
      ghost var started := symbols.scopes;
      var test, incr, body := AnalyzeLoop(stmt, ctx);
      t := For(start, test, incr, body);
      symbols.Pop();
      if !errors { ForAnalyzed(ctx, EraseBase(result.value), outer, inner, started, loopDepth, stmt, t); }
    }

    /** Test, increment and body of a for statement. */
    method AnalyzeLoop(stmt: ParsedStmt, ghost ctx: C.Context)
      returns (test: Option<Typed>, incr: Option<Typed>, body: TypedStmt)
      requires Ready() && result.Some? && stmt.For? && Grammatical(stmt)
      modifies `errors, `loopDepth, `nextId, `tags, symbols
      ensures Steady() && Says(LoopAfter(old(Surroundings()), stmt, old(Now())))
      ensures !errors ==>
                && symbols.scopes == old(symbols.scopes)
                && GoodOption(ctx, symbols.scopes, stmt.test, test) && GoodOption(ctx, symbols.scopes, stmt.incr, incr)
                && Analyzed(ctx, EraseBase(result.value), symbols.scopes, loopDepth + 1, stmt.body, body,
                            symbols.scopes)
      decreases stmt, 0
    {
      hide Analyzed, GoodOption, StmtAfter, AcceptedTest, AcceptedOption;
      ghost var started := symbols.scopes;
      test := AnalyzeTest(stmt.test, ctx);
      incr := AnalyzeOptional(stmt.incr, ctx);
      loopDepth := loopDepth + 1;
      body := AnalyzeNode(stmt.body, ctx);
      loopDepth := loopDepth - 1;
      if !errors {
        NothingDeclared(ctx, EraseBase(result.value), started, loopDepth + 1, stmt.body, body, symbols.scopes);
      }
    }

    /** The first part of a for statement: an expression, or a variable of automatic storage. */
    method AnalyzeStart(stmt: ParsedStmt, ghost ctx: C.Context) returns (start: Option<TypedStmt>)
      requires Ready() && result.Some? && stmt.For? && Grammatical(stmt)
      modifies `errors, `loopDepth, `nextId, `tags, symbols
      ensures Steady() && Says(StartAfter(old(Surroundings()), stmt, old(Now())))
      ensures !errors ==> start.Some? == stmt.start.Some?
      ensures !errors ==> if stmt.start.None? then symbols.scopes == old(symbols.scopes)
                          else && !stmt.start.value.Typedef? && !stmt.start.value.Tag?
                               && Analyzed(ctx, EraseBase(result.value), old(symbols.scopes), loopDepth,
                                           stmt.start.value, start.value, symbols.scopes)
      decreases stmt, 0
    {
      hide Analyzed;
      start := None;
      if stmt.start.Some? {
        var s := stmt.start.value;
        if s.Typedef? || s.Tag? || (s.Declaration? && s.v.storage != Unspecified && s.v.storage != Auto &&
                          s.v.storage != Register) {
          errors := true;
        } else {
          var r := AnalyzeNode(s, ctx);
          start := Some(r);
        }
      }
    }

    method AnalyzeReturn(stmt: ParsedStmt, ghost ctx: C.Context) returns (t: TypedStmt)
      requires Ready() && result.Some? && stmt.Return?
      modifies `errors
      ensures Steady() && symbols.scopes == old(symbols.scopes)
      ensures Says(StmtAfter(old(Surroundings()), stmt, old(Now())))
      ensures !errors ==> Analyzed(ctx, EraseBase(result.value), symbols.scopes, loopDepth, stmt, t, symbols.scopes)
    {
      hide Analyze, Convert, Sound, Agrees;
      var e: Option<Typed> := None;
      if stmt.value.Some? {
        var r := AnalyzeExpr(stmt.value.value);
        if r.Some? {
          if result.value.Void? {
            errors := true;
          } else {
            e := Convert(r.value, result.value);
            if e.None? { errors := true; } else { ConvertedGood(ctx, Here(), stmt.value.value, result.value); }
          }
        }
      } else if !result.value.Void? {
        errors := true;
      }
      t := Return(e);
      if !errors { ReturnAnalyzed(ctx, result.value, symbols.scopes, loopDepth, stmt.value, e); }
    }

    // ----- translation units -----

    /** At file scope there is one scope and nothing in it is local. */
    ghost predicate AtFileScope()
      reads this, symbols
    {
      Ready() && |symbols.scopes| == 1 && forall name :: name in symbols.scopes[0] ==> !IsLocal(symbols.scopes[0][name])
    }

    /** The one scope of a unit, its definitions and the next number. */
    function File(): FileScope
      requires |symbols.scopes| == 1
      reads this, symbols
    {
      FileScope(symbols.scopes[0], definitions, nextId, tags)
    }

    twostate predicate SaysFile(new after: Option<FileScope>)
      requires |symbols.scopes| == 1
      reads this, symbols
    {
      !old(errors) ==> after == if errors then None else Some(File())
    }

    method DeclareFunction(f: FunctionSpec) returns (ok: bool)
      requires AtFileScope()
      modifies `errors, `definitions, `tags, symbols
      ensures AtFileScope()
      ensures old(errors) ==> errors
      ensures !old(errors) ==>
                var after := TagsAfter(f.ty, old(tags));
                && errors == !(after.Some? && FunctionOk(f) && MayDeclare(old(symbols.scopes[0]), old(definitions), f))
                && (!errors ==> after == Some(tags))
      ensures !ok ==> errors
      ensures ok ==> MayDeclare(old(symbols.scopes[0]), old(definitions), f)
      ensures ok ==> symbols.scopes == [BindFunction(old(symbols.scopes[0]), f)]
      ensures ok ==> definitions == Define(old(definitions), f)
    {
      hide MayDeclare, IdsBelow, TagsAfter;
      ghost var before := symbols.scopes;
      EnterTags(f.ty);
      ok := CheckFunction(f);
      if !ok { return; }
      var previous := symbols.FindCurrent(f.name);
      if f.body.Some? { definitions := definitions[f.name := f]; }
      var keepsPrototype := previous.Some? && !Shape(f).hasPrototype && previous.value.ty.Function? &&
        previous.value.ty.hasPrototype;
      if !keepsPrototype {
        symbols.Bind(f.name, Routine(Shape(f), f.storage));
        OtherKeepsIds(before, f.name, Routine(Shape(f), f.storage), nextId);
      }
    }

    /** Whether the declaration is one that can be made here. */
    method CheckFunction(f: FunctionSpec) returns (ok: bool)
      requires AtFileScope()
      modifies `errors
      ensures errors == (old(errors) || !(FunctionOk(f) && MayDeclare(symbols.scopes[0], definitions, f)))
      ensures !ok ==> errors
      ensures ok ==> MayDeclare(symbols.scopes[0], definitions, f)
    {
      hide MayFollow, PrototypeWithParameters, Valid, ArrayParamsValid, IdsBelow;
      ok := false;
      if !ArrayParamsValid(f.ty) { errors := true; }
      if !Valid(Shape(f)) { errors := true; return; }
      var distinct := DistinctNames(f.paramNames);
      if !distinct { errors := true; return; }
      if f.storage == Auto || f.storage == Register { errors := true; return; }
      var previous := symbols.FindCurrent(f.name);
      if previous.Some? && !MayFollow(previous.value, f) { errors := true; return; }
      if f.body.Some? && !f.ty.hasPrototype && previous.Some? &&
        PrototypeWithParameters(previous.value.ty) { errors := true; return; }
      if f.name in definitions && !definitions[f.name].ty.hasPrototype &&
        PrototypeWithParameters(Shape(f)) { errors := true; return; }
      if f.body.Some? && f.name in definitions { errors := true; return; }
      ok := true;
    }

    /** Parameters that are named have different names. */
    method DistinctNames(names: seq<string>) returns (ok: bool)
      ensures ok <==> DifferentNames(names)
    {
      var seen: set<string> := {};
      var i := 0;
      while i < |names|
        invariant 0 <= i <= |names|
        invariant seen == set k | 0 <= k < i && names[k] != "" :: names[k]
        invariant forall k, j :: 0 <= k < j < i && names[k] != "" ==> names[k] != names[j]
      {
        if names[i] != "" {
          if names[i] in seen { return false; }
          seen := seen + {names[i]};
        }
        i := i + 1;
      }
      ok := true;
    }

    /** Declares the parameters of a definition in the scope of its body. */
    method DeclareParameters(f: FunctionSpec) returns (params: seq<VariableSymbol>)
      requires Ready() && GrammaticalFunction(f)
      modifies `errors, `nextId, `tags, symbols
      ensures Steady() && Says(ParamsAfter(f, 0, old(Now())))
      ensures !errors ==> ParamsDeclared(f, old(symbols.scopes), |f.paramNames|, params, symbols.scopes, nextId)
    {
      hide ParamsDeclared, IdsBelow;
      params := [];
      NoParamsDeclared(f, symbols.scopes, nextId);
      ghost var place := Now();
      var i := 0;
      while i < |f.paramNames|
        invariant 0 <= i <= |f.paramNames|
        invariant Steady()
        invariant !old(errors) ==> ParamsAfter(f, 0, place) == if errors then None else ParamsAfter(f, i, Now())
        invariant !errors ==> ParamsDeclared(f, old(symbols.scopes), i, params, symbols.scopes, nextId)
      {
        var name, ty := f.paramNames[i], Shape(f).params[i];
        if name == "" || !ty.IsComplete() {
          errors := true;
        } else {
          ghost var before, id := symbols.scopes, nextId;
          var d := DeclareVariable(VarSpec(name, ty, Unspecified), false, true);
          if !errors { OneParamDeclared(f, old(symbols.scopes), i, params, before, id, d.value); }
          if d.Some? { params := params + [d.value]; }
        }
        i := i + 1;
      }
    }

    method AnalyzeFunction(f: FunctionSpec, ghost ctx: C.Context) returns (t: TypedFunction)
      requires AtFileScope() && GrammaticalFunction(f) && f.body.Some?
      modifies `errors, `loopDepth, `nextId, `result, `tags, symbols
      ensures AtFileScope() && symbols.scopes == old(symbols.scopes) && (old(errors) ==> errors)
      ensures Says(BodyAfter(platform, decode, f, old(Now())))
      ensures !errors ==> t.name == f.name && t.ty == Shape(f) && PlainItems(t.body) == f.body.value
      ensures !errors ==> |t.params| == |t.ty.params| && ParamsMatch(t.params, t.ty.params)
      ensures !errors && Agrees(ctx, symbols.scopes) ==>
                ItemsSound(ctx, EraseBase(t.ty.ret), ParamSet(EraseParams(t.params)), 0, t.body)
    {
      hide ItemsSound, Agrees, Locals, InnerAfter, IdsBelow, Valid, ArrayParamsValid;
      ghost var outer := symbols.scopes;
      FileLocals(outer);
      result := Some(Shape(f).ret);
      loopDepth := 0;
      symbols.Push();
      InnerIdsBelow(outer, nextId);
      if |f.paramNames| != |Shape(f).params| { errors := true; }
      if !Shape(f).ret.Void? && !Shape(f).ret.IsComplete() { errors := true; }
      var params, body := AnalyzeInner(f, ctx, outer);
      ghost var within := symbols.scopes;
      symbols.Pop();
      assert symbols.scopes == outer;
      OuterIdsBelow(within, nextId);
      assert Locals(outer) + ParamSet(EraseParams(params)) == ParamSet(EraseParams(params));
      result := None;
      t := TypedFunction(f.name, Shape(f), params, body);
    }

    /** The parameters and the body of a definition, in the scope they share. */
    method AnalyzeInner(f: FunctionSpec, ghost ctx: C.Context, ghost outer: seq<Scope>)
      returns (params: seq<VariableSymbol>, body: seq<TypedStmt>)
      requires Ready() && GrammaticalFunction(f) && f.body.Some? && symbols.scopes == outer + [map[]]
      requires result == Some(Shape(f).ret) && loopDepth == 0
      modifies `errors, `loopDepth, `nextId, `tags, symbols
      ensures Steady() && Says(InnerAfter(old(Surroundings()), f, old(Now())))
      ensures !errors ==> PlainItems(body) == f.body.value
      ensures !errors ==> |params| == |f.paramNames| && ParamsMatch(params, Shape(f).params)
      ensures !errors && Agrees(ctx, outer) ==>
                ItemsSound(ctx, EraseBase(Shape(f).ret), Locals(outer) + ParamSet(EraseParams(params)), 0, body)
    {
      hide ItemsSound, Agrees, Locals, ParamsDeclared, ItemsAfter, ParamsAfter, IdsBelow;
      ghost var inner := symbols.scopes;
      params := DeclareParameters(f);
      if !errors { BodyScopes(ctx, f, outer, inner, params, symbols.scopes, nextId); }
      body := AnalyzeBlock(f.body.value, false, ctx);
    }

    /** The first i declarations have been analyzed into these definitions. */
    ghost predicate UpTo(decls: seq<External>, i: nat, functions: seq<TypedFunction>)
      requires i <= |decls|
      reads this, symbols
    {
      && |symbols.scopes| == 1 && platform.target.Valid()
      && Consistent(decls[..i]) && Tracks(decls[..i], symbols.scopes[0], definitions)
      && (Consistent(decls) ==> AnalyzedDefinitions(platform.target, decls, Definitions(decls[..i]), functions))
      && |functions| == |Definitions(decls[..i])|
    }

    method AnalyzeExternal(decls: seq<External>, i: nat,
                           functions: seq<TypedFunction>) returns (more: seq<TypedFunction>)
      requires AtFileScope() && i < |decls| && GrammaticalUnit(decls) && (!errors ==> UpTo(decls, i, functions))
      modifies this, symbols
      ensures AtFileScope() && (old(errors) ==> errors)
      ensures SaysFile(ExternalAfter(platform, decode, decls[i], old(File())))
      ensures !errors ==> UpTo(decls, i + 1, more)
    {
      hide FunctionAfter, TypedefAfter, InitializedAfter, Consistent, AnalyzedDefinitions;
      more := functions;
      match decls[i]
      case FunctionItem(f) => more := AnalyzeDefinition(f, decls, i, functions);
      case VariableItem(v, init) => AnalyzeVariable(v, init, decls, i, functions);
      case TypedefItem(name, ty) => AnalyzeTypedef(name, ty, decls, i, functions);
      case TagItem(sort, tag) => {
        EnterTag(sort, tag);
        if !errors { OtherStep(decls, i, symbols.scopes[0], definitions, symbols.scopes[0]); }
      }
    }

    method AnalyzeVariable(v: VarSpec, init: Option<P.Expr>, ghost decls: seq<External>, ghost i: nat,
                           ghost functions: seq<TypedFunction>)
      requires AtFileScope() && i < |decls| && decls[i] == VariableItem(v, init)
      requires !errors ==> UpTo(decls, i, functions)
      modifies `errors, `nextId, `tags, symbols
      ensures AtFileScope() && (old(errors) ==> errors)
      ensures SaysFile(ExternalAfter(platform, decode, decls[i], old(File())))
      ensures !errors ==> UpTo(decls, i + 1, functions)
    {
      hide VariableAfter, Consistent, AnalyzedDefinitions;
      ghost var scope := symbols.scopes[0];
      assert symbols.scopes == [scope];
      var d := DeclareVariable(v, true, false);
      if d.Some? && init.Some? {
        var e := AnalyzeConverted(init.value, d.value.ty, C.Context(platform.target, map[]));
      }
      if !errors { OtherStep(decls, i, scope, definitions, symbols.scopes[0]); }
    }

    method AnalyzeTypedef(name: string, ty: DeclaredType, ghost decls: seq<External>, ghost i: nat,
                          ghost functions: seq<TypedFunction>)
      requires AtFileScope() && i < |decls| && decls[i] == TypedefItem(name, ty)
      requires !errors ==> UpTo(decls, i, functions)
      modifies `errors, `tags, symbols
      ensures AtFileScope() && (old(errors) ==> errors)
      ensures SaysFile(ExternalAfter(platform, decode, decls[i], old(File())))
      ensures !errors ==> UpTo(decls, i + 1, functions)
    {
      hide TypedefAfter, Consistent, AnalyzedDefinitions;
      ghost var scope := symbols.scopes[0];
      assert symbols.scopes == [scope];
      var ok := DeclareTypedef(name, ty);
      if !errors { OtherStep(decls, i, scope, definitions, symbols.scopes[0]); }
    }

    method AnalyzeDefinition(f: FunctionSpec, decls: seq<External>, i: nat,
                             functions: seq<TypedFunction>) returns (more: seq<TypedFunction>)
      requires AtFileScope() && i < |decls| && decls[i] == FunctionItem(f) && GrammaticalUnit(decls)
      requires !errors ==> UpTo(decls, i, functions)
      modifies this, symbols
      ensures AtFileScope() && (old(errors) ==> errors)
      ensures SaysFile(FunctionAfter(platform, decode, f, old(File())))
      ensures !errors ==> UpTo(decls, i + 1, more)
    {
      hide Tracks, Consistent, Agrees, ItemsSound, ParamsMatch;
      ghost var scope, defined := symbols.scopes[0], definitions;
      ghost var ctx := UnitContext(platform.target, decls);
      assert decls[i] in decls;
      more := functions;
      var declared := DeclareFunction(f);
      if !declared { return; }
      if !errors { FunctionStep(decls, i, scope, defined, f); }
      if f.body.Some? {
        var t := AnalyzeFunction(f, ctx);
        more := functions + [t];
        if !errors && Consistent(decls) {
          UnitAgrees(platform.target, decls, i + 1, symbols.scopes[0], definitions);
          DefinitionChecked(platform.target, decls, f, t);
          DefinitionAdded(platform.target, decls, Definitions(decls[..i]), functions, f, t);
        }
      }
    }

    lemma {:induction false} NothingYet(decls: seq<External>)
      requires platform.target.Valid() && symbols.scopes == [map[]] && definitions == map[]
      ensures UpTo(decls, 0, [])
    {
    }

    lemma {:induction false} AllDone(decls: seq<External>, functions: seq<TypedFunction>)
      requires UpTo(decls, |decls|, functions)
      ensures Consistent(decls) && AnalyzedDefinitions(platform.target, decls, Definitions(decls), functions)
    {
      assert decls[..|decls|] == decls;
    }

    /** Analyzes a whole unit. When nothing is reported, each definition has been analyzed in order with only additions
        to its body, and what code generation receives satisfies its contract. */
    method AnalyzeUnit(decls: seq<External>) returns (ok: bool, functions: seq<TypedFunction>)
      requires platform.target.Valid() && GrammaticalUnit(decls)
      modifies this, symbols
      ensures ok <==> UnitAfter(platform, decode, decls).Some?
      ensures ok ==> Consistent(decls) && AnalyzedDefinitions(platform.target, decls, Definitions(decls), functions)
    {
      hide UpTo, ExternalAfter, Consistent, AnalyzedDefinitions;
      errors, nextId, definitions, tags, functions := false, 0, map[], map[], [];
      symbols.scopes := [];
      symbols.Push();
      NothingYet(decls);
      var i := 0;
      while i < |decls|
        invariant 0 <= i <= |decls| && AtFileScope()
        invariant UnitAfter(platform, decode, decls[..i]) == if errors then None else Some(File())
        invariant !errors ==> UpTo(decls, i, functions)
      {
        assert decls[..i + 1][..i] == decls[..i];
        functions := AnalyzeExternal(decls, i, functions);
        i := i + 1;
      }
      assert decls[..i] == decls;
      if !errors { AllDone(decls, functions); }
      ok := !errors;
    }
  }

  /** t is the definition f analyzed, and satisfies the contract of code generation within the unit. */
  ghost predicate AnalyzedDefinition(target: C.Target, decls: seq<External>, f: FunctionSpec, t: TypedFunction) {
    && f.body.Some? && t.name == f.name && t.ty == Shape(f) && PlainItems(t.body) == f.body.value
    && CheckedFunction(UnitContext(target, decls), EraseFunction(t))
  }

  ghost predicate AnalyzedDefinitions(target: C.Target, decls: seq<External>, fs: seq<FunctionSpec>,
                                      ts: seq<TypedFunction>) {
    |fs| == |ts| && forall k :: 0 <= k < |fs| ==> AnalyzedDefinition(target, decls, fs[k], ts[k])
  }

  lemma {:induction false} DefinitionAdded(target: C.Target, decls: seq<External>, fs: seq<FunctionSpec>,
                                           ts: seq<TypedFunction>, f: FunctionSpec, t: TypedFunction)
    requires AnalyzedDefinitions(target, decls, fs, ts)
    requires f.body.Some? && t.name == f.name && t.ty == Shape(f) && PlainItems(t.body) == f.body.value
    requires CheckedFunction(UnitContext(target, decls), EraseFunction(t))
    requires ItemsSound(UnitContext(target, decls), EraseBase(t.ty.ret), ParamSet(EraseParams(t.params)), 0, t.body)
    ensures AnalyzedDefinitions(target, decls, fs + [f], ts + [t])
  {
    hide CheckedFunction, CheckedItems;
  }

  lemma {:induction false} FunctionStep(decls: seq<External>, i: nat, scope: Scope, defined: map<string, FunctionSpec>,
                                        f: FunctionSpec)
    requires i < |decls| && decls[i] == FunctionItem(f) && Consistent(decls[..i]) && Tracks(decls[..i], scope, defined)
    requires MayDeclare(scope, defined, f)
    ensures Consistent(decls[..i + 1]) && Tracks(decls[..i + 1], BindFunction(scope, f), Define(defined, f))
    ensures Definitions(decls[..i + 1]) == Definitions(decls[..i]) + if f.body.Some? then [f] else []
  {
    hide Tracks, MayDeclare;
    DefinitionsStep(decls, i);
    TrackFunction(decls[..i], scope, defined, f);
    assert decls[..i + 1] == decls[..i] + [decls[i]];
    var now := decls[..i + 1];
    forall a, b | 0 <= a < b < |now|
      ensures Together(now[a], now[b])
    {
      if b == i {
        AcceptedIsTogether(decls[..i], scope, defined, f, decls[..i][a]);
      } else {
        assert Together(decls[..i][a], decls[..i][b]);
      }
    }
  }

  lemma {:induction false} OtherStep(decls: seq<External>, i: nat, scope: Scope, defined: map<string, FunctionSpec>,
                                     scope': Scope)
    requires i < |decls| && !decls[i].FunctionItem? && Consistent(decls[..i]) && Tracks(decls[..i], scope, defined)
    requires forall name :: name in scope' && scope'[name].Routine? ==> name in scope && scope[name] == scope'[name]
    requires forall name :: name in scope && scope[name].Routine? ==> name in scope' && scope[name] == scope'[name]
    ensures Consistent(decls[..i + 1]) && Tracks(decls[..i + 1], scope', defined)
    ensures Definitions(decls[..i + 1]) == Definitions(decls[..i])
  {
    hide Tracks;
    DefinitionsStep(decls, i);
    TrackOther(decls[..i], scope, defined, decls[i], scope');
    assert decls[..i + 1] == decls[..i] + [decls[i]];
    var now := decls[..i + 1];
    forall a, b | 0 <= a < b < |now|
      ensures Together(now[a], now[b])
    {
      if b < i { assert Together(decls[..i][a], decls[..i][b]); }
    }
  }

  lemma {:induction false} UnitAgrees(target: C.Target, decls: seq<External>, i: nat, scope: Scope,
                                      defined: map<string, FunctionSpec>)
    requires i <= |decls| && Consistent(decls) && Tracks(decls[..i], scope, defined)
    ensures Agrees(UnitContext(target, decls), [scope])
  {
    BoundAgrees(target, decls, decls[..i], scope, defined);
  }

  lemma {:induction false} FileLocals(scopes: seq<Scope>)
    requires |scopes| == 1 && forall name :: name in scopes[0] ==> !IsLocal(scopes[0][name])
    ensures Locals(scopes) == {}
  {
    assert scopes[..0] == [];
  }

  lemma {:induction false} ParamAdded(params: seq<VariableSymbol>, d: VariableSymbol)
    ensures EraseParams(params + [d]) == EraseParams(params) + [Declared(d)]
    ensures ParamSet(EraseParams(params + [d])) == ParamSet(EraseParams(params)) + {Declared(d)}
  {
    assert (params + [d])[..|params|] == params;
    var all := EraseParams(params);
    assert forall x :: x in all + [Declared(d)] <==> x in all || x == Declared(d);
  }

  lemma {:induction false} ReturnAnalyzed(ctx: C.Context, ty: Type, scopes: seq<Scope>, depth: nat,
                                          source: Option<P.Expr>, e: Option<Typed>)
    requires scopes != [] && (source.None? <==> ty.Void?) && GoodOption(ctx, scopes, source, e)
    requires e.Some? && Agrees(ctx, scopes) ==> EraseType(e.value.ty) == EraseBase(ty)
    ensures Analyzed(ctx, EraseBase(ty), scopes, depth, Return(source), Return(e), scopes)
  {
    hide Agrees, Locals, Checked;
  }

  lemma {:induction false} DeclarationAnalyzed(ctx: C.Context, ret: C.CType, before: seq<Scope>, depth: nat, v: VarSpec,
                                               init: Option<P.Expr>, id: nat, d: Symbol, e: Option<Typed>)
    requires before != [] && v.name !in Top(before) && NewVariable(d, v, false, false, id) && IdsBelow(before, id)
    requires GoodOption(ctx, Bound(before, v.name, d), init, e)
    requires e.Some? && Agrees(ctx, Bound(before, v.name, d)) ==> EraseType(e.value.ty) == EraseBase(d.ty)
    ensures Analyzed(ctx, ret, before, depth, Declaration(v, init), Declaration(DeclaredVar(v, d), e),
                     Bound(before, v.name, d))
  {
    hide Locals, Erase;
    VariableBound(before, v.name, d);
    LocalsBelow(before, id);
    assert Declared(d) !in Locals(before);
    if Agrees(ctx, before) {
      assert Agrees(ctx, Bound(before, v.name, d)) by {
        AgreesAfter(ctx, before, Declaration(DeclaredVar(v, d), e), Bound(before, v.name, d));
      }
    }
  }

  lemma {:induction false} NoItems(ctx: C.Context, ret: C.CType, scope: set<C.Decl>, depth: nat)
    ensures ItemsSound(ctx, ret, scope, depth, []) && ScopeAfterItems(scope, EraseItems([])) == scope
    ensures PlainItems([]) == []
  {
  }

  lemma {:induction false} IfAnalyzed(ctx: C.Context, ret: C.CType, scopes: seq<Scope>, depth: nat, source: ParsedStmt,
                                      cond: Typed, thn: TypedStmt, els: Option<TypedStmt>)
    requires source.If? && Grammatical(source) && GoodOption(ctx, scopes, Some(source.cond), Some(cond))
    requires Analyzed(ctx, ret, scopes, depth, source.thn, thn, scopes) && source.els.Some? == els.Some?
    requires els.Some? ==> Analyzed(ctx, ret, scopes, depth, source.els.value, els.value, scopes)
    ensures Analyzed(ctx, ret, scopes, depth, source, If(cond, thn, els), scopes)
  {
    hide Locals, Agrees, Checked;
  }

  lemma {:induction false} WhileAnalyzed(ctx: C.Context, ret: C.CType, scopes: seq<Scope>, depth: nat,
                                         source: ParsedStmt, cond: Typed, body: TypedStmt)
    requires source.While? && !IsDeclaration(source.body) && GoodOption(ctx, scopes, Some(source.cond), Some(cond))
    requires Analyzed(ctx, ret, scopes, depth + 1, source.body, body, scopes)
    ensures Analyzed(ctx, ret, scopes, depth, source, While(cond, body), scopes)
  {
    hide Locals, Agrees, Checked;
  }

  lemma {:induction false} ItemAdded(ctx: C.Context, ret: C.CType, start: seq<Scope>, before: seq<Scope>, depth: nat,
                                     source: ParsedStmt, ts: seq<TypedStmt>, t: TypedStmt, after: seq<Scope>)
    requires Analyzed(ctx, ret, before, depth, source, t, after)
    requires Agrees(ctx, start) ==>
               && Agrees(ctx, before) && ItemsSound(ctx, ret, Locals(start), depth, ts)
               && Locals(before) == ScopeAfterItems(Locals(start), EraseItems(ts))
    ensures PlainItems(ts + [t]) == PlainItems(ts) + [source]
    ensures Agrees(ctx, start) ==>
              && Agrees(ctx, after) && ItemsSound(ctx, ret, Locals(start), depth, ts + [t])
              && Locals(after) == ScopeAfterItems(Locals(start), EraseItems(ts + [t]))
  {
    hide Agrees, Locals, ItemsSound, StmtSound, Leaves;
    AddItemPlain(ts, t, Locals(start));
    if Agrees(ctx, start) {
      AddItem(ctx, ret, Locals(start), depth, ts, t);
      LocalsAfter(before, t, after);
      AgreesAfter(ctx, before, t, after);
    }
  }

  lemma {:induction false} ForAnalyzed(ctx: C.Context, ret: C.CType, outer: seq<Scope>, inner: seq<Scope>,
                                       started: seq<Scope>, depth: nat, source: ParsedStmt, t: TypedStmt)
    requires outer != [] && inner == outer + [map[]] && source.For? && t.For? && Grammatical(source)
    requires source.start.Some? == t.start.Some?
    requires if t.start.Some? then !source.start.value.Typedef? && !source.start.value.Tag? &&
             Analyzed(ctx, ret, inner, depth, source.start.value, t.start.value, started)
             else started == inner
    requires GoodOption(ctx, started, source.test, t.test) && GoodOption(ctx, started, source.incr, t.incr)
    requires Analyzed(ctx, ret, started, depth + 1, source.body, t.body, started)
    ensures Analyzed(ctx, ret, outer, depth, source, t, outer)
  {
    hide Locals, Erase, Agrees, Checked;
    InnerLocals(outer);
    if Agrees(ctx, outer) {
      AgreesInner(ctx, outer);
      if t.start.Some? {
        LocalsAfter(inner, t.start.value, started);
        AgreesAfter(ctx, inner, t.start.value, started);
      }
    }
  }

  lemma {:induction false} NothingDeclared(ctx: C.Context, ret: C.CType, before: seq<Scope>, depth: nat,
                                           source: ParsedStmt, t: TypedStmt, after: seq<Scope>)
    requires Analyzed(ctx, ret, before, depth, source, t, after) && !IsDeclaration(source)
    ensures after == before
  {
  }

  /** The first i parameters have been declared on top of the scopes before. */
  ghost predicate ParamsDeclared(f: FunctionSpec, before: seq<Scope>, i: nat, params: seq<VariableSymbol>,
                                 after: seq<Scope>, id: nat) {
    && |params| == i && ParamsMatch(params, Shape(f).params) && (forall k :: 0 <= k < i ==> params[k].id < id)
    && Locals(after) == Locals(before) + ParamSet(EraseParams(params))
    && KeepsRoutines(before, after)
  }

  predicate KeepsRoutines(a: seq<Scope>, b: seq<Scope>) {
    && |a| == |b|
    && forall i, name :: 0 <= i < |b| && name in b[i] && b[i][name].Routine? ==>
      name in a[i] && a[i][name] == b[i][name]
  }

  lemma {:induction false} InnerIdsBelow(scopes: seq<Scope>, n: nat)
    requires IdsBelow(scopes, n)
    ensures IdsBelow(scopes + [map[]], n)
  {
  }

  lemma {:induction false} OuterIdsBelow(scopes: seq<Scope>, n: nat)
    requires scopes != [] && IdsBelow(scopes, n)
    ensures IdsBelow(scopes[..|scopes| - 1], n)
  {
  }

  lemma {:induction false} OtherKeepsIds(scopes: seq<Scope>, name: string, d: Symbol, n: nat)
    requires scopes != [] && !d.Variable? && IdsBelow(scopes, n)
    ensures IdsBelow(Bound(scopes, name, d), n)
  {
  }

  lemma {:induction false} NoParamsDeclared(f: FunctionSpec, scopes: seq<Scope>, id: nat)
    ensures ParamsDeclared(f, scopes, 0, [], scopes, id)
  {
  }

  lemma {:induction false} OneParamDeclared(f: FunctionSpec, start: seq<Scope>, i: nat, params: seq<VariableSymbol>,
                                            before: seq<Scope>, id: nat, d: VariableSymbol)
    requires i < |f.paramNames| <= |f.ty.params| && ParamsDeclared(f, start, i, params, before, id)
    requires before != [] && f.paramNames[i] !in Top(before)
    requires NewVariable(d, VarSpec(f.paramNames[i], Shape(f).params[i], Unspecified), false, true, id)
    ensures ParamsDeclared(f, start, i + 1, params + [d], Bound(before, f.paramNames[i], d), id + 1)
  {
    VariableBound(before, f.paramNames[i], d);
    NormalizedErased(Shape(f).params[i]);
    ParamAdded(params, d);
  }

  lemma {:induction false} BodyScopes(ctx: C.Context, f: FunctionSpec, outer: seq<Scope>, inner: seq<Scope>,
                                      params: seq<VariableSymbol>, after: seq<Scope>, id: nat)
    requires inner == outer + [map[]] && ParamsDeclared(f, inner, |f.paramNames|, params, after, id)
    ensures |params| == |f.paramNames| && ParamsMatch(params, Shape(f).params)
    ensures Locals(after) == Locals(outer) + ParamSet(EraseParams(params))
    ensures Agrees(ctx, outer) ==> Agrees(ctx, after)
  {
    InnerLocals(outer);
    if Agrees(ctx, outer) { AgreesInner(ctx, outer); }
  }

  lemma {:induction false} AgreesInner(ctx: C.Context, scopes: seq<Scope>)
    requires Agrees(ctx, scopes)
    ensures Agrees(ctx, scopes + [map[]])
  {
  }

  /** The declaration a variable becomes: its own identity, and its type up to a bound taken from a previous one. */
  predicate NewVariable(d: Symbol, v: VarSpec, global: bool, parameter: bool, id: nat) {
    && d.Variable? && d.id == id && d.isGlobal == global && d.isParameter == parameter && d.storage == v.storage
    && EraseType(d.ty) == EraseType(Normalized(v.ty))
    && (!global ==> d.ty == Normalized(v.ty))
  }
}
