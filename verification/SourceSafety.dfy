/** Where the source is defined. A definition that generation accepts does nothing that C leaves undefined when it is
    called with pointers to objects of the right width, so that the code generated for it cannot fault. */
module SourceSafety {
  import opened CAst
  import opened Wrappers
  import opened Integers
  import opened Storage
  import opened StorageRelation
  import opened CSemantics
  import opened Contract
  import opened Ir
  import opened Lowering
  import opened Acceptance
  import opened Unit
  import opened Preservation

  /** Integers are numbers; pointers designate objects of their pointee's width. */
  ghost predicate Fits(target: Target, mem: seq<Cell>, ty: CType, v: Val)
    requires target.Valid()
  {
    match ty
    case Integer(_) => v.IntVal?
    case Pointer(Integer(k)) => v.PtrVal? && v.addr < |mem| && mem[v.addr].width == target.Width(k)
    case _ => false
  }

  ghost predicate BindingOk(target: Target, d: Decl, s: State)
    requires target.Valid()
  {
    && d in s.env
    && match s.env[d]
       case Object(a) => d.ty.Integer? && Fits(target, s.store.mem, Pointer(d.ty), PtrVal(a))
       case PointerParam(a) => d.ty.Pointer? && Fits(target, s.store.mem, d.ty, PtrVal(a))
  }

  ghost predicate StateOk(ctx: Context, scope: set<Decl>, s: State) {
    && ctx.target.Valid()
    && (forall name :: name in ctx.functions ==> Declarable(ctx.target, ctx.functions[name]))
    && s.store.Valid()
    && forall d :: d in scope ==> BindingOk(ctx.target, d, s)
  }

  /** No object is lost, and no variable moves. */
  ghost predicate Stays(s: State, s': State) {
    s'.env == s.env && Kept(s.store.mem, s'.store.mem)
  }

  lemma {:induction false} StaysOk(ctx: Context, scope: set<Decl>, s: State, s': State)
    requires StateOk(ctx, scope, s) && Stays(s, s') && s'.store.Valid()
    ensures StateOk(ctx, scope, s')
  {
    forall d | d in scope ensures BindingOk(ctx.target, d, s') { assert BindingOk(ctx.target, d, s); }
  }

  /** An evaluation that succeeds with a value of its type. */
  ghost predicate Good(ctx: Context, scope: set<Decl>, s: State, ty: CType, r: Evaluated)
    requires ctx.target.Valid()
  {
    r.Got? && StateOk(ctx, scope, r.s) && Stays(s, r.s) && Fits(ctx.target, r.s.store.mem, ty, r.val)
  }

  // ----- expressions -----

  lemma {:induction false} LoadGood(ctx: Context, scope: set<Decl>, addr: nat, ty: CType, s: State)
    requires StateOk(ctx, scope, s) && ty.Integer? && Fits(ctx.target, s.store.mem, Pointer(ty), PtrVal(addr))
    ensures Good(ctx, scope, s, ty, Load(ctx, addr, ty, s))
  {
    assert s.store.mem[addr].Valid();
  }

  lemma {:induction false} EvalGood(w: World, ctx: Context, scope: set<Decl>, e: Expr, s: State)
    requires StateOk(ctx, scope, s) && Checked(ctx, scope, e) && Supported(ctx, e)
    ensures Good(ctx, scope, s, TypeOf(e), Eval(w, ctx, e, s))
    decreases e, 1
  {
    match e
    case IntLit(_, _) =>
    case Ident(d) =>
      assert BindingOk(ctx.target, d, s);
      if s.env[d].Object? { LoadGood(ctx, scope, s.env[d].addr, d.ty, s); }
    case AddrOf(operand, _) => PlaceGood(w, ctx, scope, operand, s);
    case Deref(_, ty) =>
      PlaceGood(w, ctx, scope, e, s);
      var r := EvalPlace(w, ctx, e, s);
      LoadGood(ctx, scope, r.val.addr, ty, r.s);
    case Cast(_, operand, _) => EvalGood(w, ctx, scope, operand, s);
    case Call(_, _, _) => CallGood(w, ctx, scope, e, s);
    case Binary(op, _, _, _) =>
      if op == Assign { AssignGood(w, ctx, scope, e, s); } else { BinaryGood(w, ctx, scope, e, s); }
  }

  lemma {:induction false} PlaceGood(w: World, ctx: Context, scope: set<Decl>, e: Expr, s: State)
    requires StateOk(ctx, scope, s) && Checked(ctx, scope, e) && SupportedPlace(ctx, e)
    ensures TypeOf(e).Integer? && Good(ctx, scope, s, Pointer(TypeOf(e)), EvalPlace(w, ctx, e, s))
    decreases e, 0
  {
    match e
    case Deref(operand, _) => EvalGood(w, ctx, scope, operand, s);
    case Ident(d) => assert BindingOk(ctx.target, d, s);
  }

  lemma {:induction false} BinaryGood(w: World, ctx: Context, scope: set<Decl>, e: Expr, s: State)
    requires StateOk(ctx, scope, s) && e.Binary? && e.op != Assign && Checked(ctx, scope, e) && Supported(ctx, e)
    ensures Good(ctx, scope, s, TypeOf(e), Eval(w, ctx, e, s))
    decreases e, 0
  {
    EvalGood(w, ctx, scope, e.lhs, s);
    EvalGood(w, ctx, scope, e.rhs, Eval(w, ctx, e.lhs, s).s);
  }

  lemma {:induction false} AssignGood(w: World, ctx: Context, scope: set<Decl>, e: Expr, s: State)
    requires StateOk(ctx, scope, s) && e.Binary? && e.op == Assign && Checked(ctx, scope, e) && Supported(ctx, e)
    ensures Good(ctx, scope, s, TypeOf(e), Eval(w, ctx, e, s))
    decreases e, 0
  {
    PlaceGood(w, ctx, scope, e.lhs, s);
    var p := EvalPlace(w, ctx, e.lhs, s);
    EvalGood(w, ctx, scope, e.rhs, p.s);
    var r := Eval(w, ctx, e.rhs, p.s);
    WriteGood(ctx, scope, p.val.addr, TypeOf(e.lhs).kind, r.val.v, r.s);
  }

  lemma {:induction false} WriteGood(ctx: Context, scope: set<Decl>, addr: nat, kind: IntKind, v: int, s: State)
    requires StateOk(ctx, scope, s) && Designates(ctx, addr, kind, s)
    ensures var s' := s.(store := s.store.Write(addr, Bits(ctx.target.Width(kind), v)));
            StateOk(ctx, scope, s') && Stays(s, s')
  {
    StaysOk(ctx, scope, s, s.(store := s.store.Write(addr, Bits(ctx.target.Width(kind), v))));
  }

  lemma {:induction false} CallGood(w: World, ctx: Context, scope: set<Decl>, e: Expr, s: State)
    requires StateOk(ctx, scope, s) && e.Call? && Checked(ctx, scope, e) && SupportedCall(ctx, e)
    ensures Good(ctx, scope, s, Integer(Int), EvalCall(w, ctx, e, s)) && (e.ty == Integer(Int) || e.ty == Void)
    decreases e, 0
  {
    assert Declarable(ctx.target, ctx.functions[e.callee.value]);
    ArgsGood(w, ctx, scope, e.args, s);
    var r := EvalArgs(w, ctx, e.args, s);
    var after := AfterCall(w, e.callee.value, r.args, r.s.store);
    ExposeGood(r.s.store.mem, r.s.store.exposed, r.args);
    AfterCallValid(w, e.callee.value, r.s.store, r.args);
    StaysOk(ctx, scope, r.s, r.s.(store := after));
  }

  ghost predicate ArgsInside(mem: seq<Cell>, args: seq<Arg>) {
    forall i :: 0 <= i < |args| ==> args[i].PtrArg? ==> args[i].addr < |mem|
  }

  lemma {:induction false} ExposeGood(mem: seq<Cell>, exposed: seq<nat>, args: seq<Arg>)
    requires ExposedOk(mem, exposed) && ArgsInside(mem, args)
    ensures ExposedOk(mem, Expose(exposed, args))
    decreases args
  {
    if args != [] {
      assert args[0].PtrArg? ==> args[0].addr < |mem|;
      ExposeGood(mem, ExposeOne(exposed, args[0]), args[1..]);
    }
  }

  lemma {:induction false} ArgsGood(w: World, ctx: Context, scope: set<Decl>, es: seq<Expr>, s: State)
    requires StateOk(ctx, scope, s) && (forall a :: a in es ==> Checked(ctx, scope, a)) && SupportedArgs(ctx, es)
    ensures var r := EvalArgs(w, ctx, es, s);
            r.GotArgs? && StateOk(ctx, scope, r.s) && Stays(s, r.s) && ArgsInside(r.s.store.mem, r.args)
    decreases es, 0
  {
    if es != [] {
      EvalGood(w, ctx, scope, es[0], s);
      ArgsGood(w, ctx, scope, es[1..], Eval(w, ctx, es[0], s).s);
    }
  }

  lemma {:induction false} DiscardGood(w: World, ctx: Context, scope: set<Decl>, e: Expr, s: State)
    requires StateOk(ctx, scope, s) && Checked(ctx, scope, e) && SupportedDiscarded(ctx, Some(e))
    ensures var r := EvalDiscarding(w, ctx, e, s); r.Got? && StateOk(ctx, scope, r.s) && Stays(s, r.s)
  {
    if e.Call? { CallGood(w, ctx, scope, e, s); } else { EvalGood(w, ctx, scope, e, s); }
  }

  // ----- statements -----

  /** A statement that runs into nothing undefined, falls through only where the generator takes it to, and leaves a
      loop only inside one. */
  ghost predicate Sound(ctx: Context, scope: set<Decl>, after: set<Decl>, depth: nat, falls: bool, o: Outcome) {
    match o
    case Normal(s) => falls && StateOk(ctx, after, s)
    case Broke(s) => depth > 0 && StateOk(ctx, scope, s)
    case Continued(s) => depth > 0 && StateOk(ctx, scope, s)
    case Returned(_, _) => true
    case OutOfFuel(_) => true
    case Stuck => false
  }

  lemma {:induction false} Smaller(ctx: Context, scope: set<Decl>, wide: set<Decl>, s: State)
    requires StateOk(ctx, wide, s) && scope <= wide
    ensures StateOk(ctx, scope, s)
  {
  }

  lemma {:induction false} Outside(ctx: Context, scope: set<Decl>, inner: set<Decl>, depth: nat, falls: bool,
                                   o: Outcome)
    requires Sound(ctx, inner, inner, depth, falls, o) && scope <= inner
    ensures Sound(ctx, scope, scope, depth, falls, o)
  {
  }

  lemma {:induction false} DeclareGood(w: World, ctx: Context, scope: set<Decl>, d: Decl, s: State)
    requires StateOk(ctx, scope, s) && d.ty.Integer? && d !in scope
    ensures StateOk(ctx, scope + {d}, Declare(w, ctx, d, s))
  {
    var s' := Declare(w, ctx, d, s);
    forall x | x in scope + {d} ensures BindingOk(ctx.target, x, s') { if x != d { assert BindingOk(ctx.target, x, s);
    } }
  }

  lemma {:induction false} VarGood(w: World, ctx: Context, ret: CType, scope: set<Decl>, depth: nat, d: Decl,
                                   init: Option<Expr>, s: State, fuel: nat)
    requires StateOk(ctx, scope, s) && CheckedStmt(ctx, ret, scope, depth, VarDecl(d, init))
    requires SupportedStmt(ctx, VarDecl(d, init))
    ensures Sound(ctx, scope, scope + {d}, depth, true, Exec(w, ctx, VarDecl(d, init), s, fuel))
  {
    DeclareGood(w, ctx, scope, d, s);
    var s0 := Declare(w, ctx, d, s);
    if init.Some? {
      EvalGood(w, ctx, scope + {d}, init.value, s0);
      var r := Eval(w, ctx, init.value, s0);
      assert BindingOk(ctx.target, d, r.s);
      WriteGood(ctx, scope + {d}, |s.store.mem|, d.ty.kind, r.val.v, r.s);
    }
  }

  lemma {:induction false} TestGood(w: World, ctx: Context, scope: set<Decl>, test: Option<Expr>, s: State)
    requires StateOk(ctx, scope, s) && CheckedOption(ctx, scope, test)
    requires test.Some? ==> SupportedCondition(ctx, test.value)
    ensures var r := EvalTest(w, ctx, test, s); r.Got? && r.val.IntVal? && StateOk(ctx, scope, r.s)
  {
    if test.Some? { EvalGood(w, ctx, scope, test.value, s); }
  }

  lemma {:induction false} StepGood(w: World, ctx: Context, scope: set<Decl>, incr: Option<Expr>, s: State)
    requires StateOk(ctx, scope, s) && CheckedOption(ctx, scope, incr) && SupportedDiscarded(ctx, incr)
    ensures EvalStep(w, ctx, incr, s).Got? && StateOk(ctx, scope, EvalStep(w, ctx, incr, s).s)
  {
    if incr.Some? { DiscardGood(w, ctx, scope, incr.value, s); }
  }

  lemma {:induction false} ReturnGood(w: World, ctx: Context, ret: CType, scope: set<Decl>, depth: nat, value: Expr,
                                      s: State, fuel: nat)
    requires StateOk(ctx, scope, s) && (ret == Void || ret == Integer(Int))
    requires CheckedStmt(ctx, ret, scope, depth, Return(Some(value))) && SupportedStmt(ctx, Return(Some(value)))
    ensures Exec(w, ctx, Return(Some(value)), s, fuel).Returned?
  {
    EvalGood(w, ctx, scope, value, s);
  }

  lemma {:induction false} StmtGood(w: World, ctx: Context, ret: CType, scope: set<Decl>, depth: nat, stmt: Stmt,
                                    s: State, fuel: nat)
    requires ctx.target.Valid() && StateOk(ctx, scope, s) && (ret == Void || ret == Integer(Int))
    requires CheckedStmt(ctx, ret, scope, depth, stmt) && SupportedStmt(ctx, stmt)
    ensures Sound(ctx, scope, ScopeAfter(scope, stmt), depth, Falls(stmt), Exec(w, ctx, stmt, s, fuel))
    decreases stmt, fuel, 2
  {
    hide StateOk, Eval, EvalDiscarding, Checked, Supported;
    match stmt
    case VarDecl(d, init) => VarGood(w, ctx, ret, scope, depth, d, init, s, fuel);
    case Compound(items) => ItemsGood(w, ctx, ret, scope, depth, items, s, fuel);
    case ExprStmt(e) => if e.Some? { DiscardGood(w, ctx, scope, e.value, s); }
    case If(_, _, _) => IfGood(w, ctx, ret, scope, depth, stmt, s, fuel);
    case While(cond, body) => LoopGood(w, ctx, ret, scope, depth, Some(cond), None, body, s, fuel);
    case For(_, _, _, _) => ForGood(w, ctx, ret, scope, depth, stmt, s, fuel);
    case Return(value) => if value.Some? { ReturnGood(w, ctx, ret, scope, depth, value.value, s, fuel); }
    case _ =>
  }

  lemma {:induction false} IfGood(w: World, ctx: Context, ret: CType, scope: set<Decl>, depth: nat, stmt: Stmt,
                                  s: State, fuel: nat)
    requires ctx.target.Valid() && StateOk(ctx, scope, s) && (ret == Void || ret == Integer(Int)) && stmt.If?
    requires CheckedStmt(ctx, ret, scope, depth, stmt) && SupportedStmt(ctx, stmt)
    ensures Sound(ctx, scope, scope, depth, Falls(stmt), Exec(w, ctx, stmt, s, fuel))
    decreases stmt, fuel, 1
  {
    hide StateOk, Eval, Checked, Supported;
    TestGood(w, ctx, scope, Some(stmt.cond), s);
    var r := Eval(w, ctx, stmt.cond, s);
    assert r == EvalTest(w, ctx, Some(stmt.cond), s);
    if r.val.v != 0 {
      ArmGood(w, ctx, ret, scope, depth, stmt.thn, r.s, fuel);
    } else if stmt.els.Some? {
      ArmGood(w, ctx, ret, scope, depth, stmt.els.value, r.s, fuel);
    }
  }

  /** A statement that leaves the scope as it was. */
  lemma {:induction false} ArmGood(w: World, ctx: Context, ret: CType, scope: set<Decl>, depth: nat, stmt: Stmt,
                                   s: State, fuel: nat)
    requires ctx.target.Valid() && StateOk(ctx, scope, s) && (ret == Void || ret == Integer(Int))
    requires CheckedStmt(ctx, ret, scope, depth, stmt) && SupportedStmt(ctx, stmt)
    ensures Sound(ctx, scope, scope, depth, Falls(stmt), Exec(w, ctx, stmt, s, fuel))
    decreases stmt, fuel, 3
  {
    hide StateOk, CheckedStmt, SupportedStmt, Exec, Falls;
    StmtGood(w, ctx, ret, scope, depth, stmt, s, fuel);
    var o := Exec(w, ctx, stmt, s, fuel);
    if o.Normal? { Smaller(ctx, scope, ScopeAfter(scope, stmt), o.s); }
  }

  lemma {:induction false} ForGood(w: World, ctx: Context, ret: CType, scope: set<Decl>, depth: nat, stmt: Stmt,
                                   s: State, fuel: nat)
    requires ctx.target.Valid() && StateOk(ctx, scope, s) && (ret == Void || ret == Integer(Int)) && stmt.For?
    requires CheckedStmt(ctx, ret, scope, depth, stmt) && SupportedStmt(ctx, stmt)
    ensures Sound(ctx, scope, scope, depth, true, Exec(w, ctx, stmt, s, fuel))
    decreases stmt, fuel, 1
  {
    hide StateOk, Eval, EvalDiscarding, Checked, Supported, SupportedCondition, SupportedDiscarded;
    if stmt.start.None? {
      LoopGood(w, ctx, ret, scope, depth, stmt.test, stmt.incr, stmt.body, s, fuel);
    } else {
      var inner := ScopeAfter(scope, stmt.start.value);
      StartGood(w, ctx, ret, scope, depth, stmt.start.value, s, fuel);
      var s1 := Exec(w, ctx, stmt.start.value, s, fuel).s;
      LoopGood(w, ctx, ret, inner, depth, stmt.test, stmt.incr, stmt.body, s1, fuel);
      var o := ExecLoop(w, ctx, stmt.test, stmt.incr, stmt.body, s1, fuel);
      if o.Normal? { Smaller(ctx, scope, inner, o.s); }
    }
  }

  lemma {:induction false} StartGood(w: World, ctx: Context, ret: CType, scope: set<Decl>, depth: nat, start: Stmt,
                                     s: State, fuel: nat)
    requires ctx.target.Valid() && StateOk(ctx, scope, s) && (ret == Void || ret == Integer(Int))
    requires CheckedStmt(ctx, ret, scope, depth, start) && SupportedStmt(ctx, start) &&
             (start.VarDecl? || start.ExprStmt?)
    ensures var o := Exec(w, ctx, start, s, fuel); o.Normal? && StateOk(ctx, ScopeAfter(scope, start), o.s)
    decreases start, fuel, 3
  {
    hide StateOk, Eval, EvalDiscarding, Checked, Supported;
    StmtGood(w, ctx, ret, scope, depth, start, s, fuel);
  }

  lemma {:induction false} ItemsGood(w: World, ctx: Context, ret: CType, scope: set<Decl>, depth: nat, items: seq<Stmt>,
                                     s: State, fuel: nat)
    requires ctx.target.Valid() && StateOk(ctx, scope, s) && (ret == Void || ret == Integer(Int))
    requires CheckedItems(ctx, ret, scope, depth, items) && SupportedItems(ctx, items)
    ensures Sound(ctx, scope, scope, depth, FallsItems(items), ExecItems(w, ctx, items, s, fuel))
    decreases items, fuel
  {
    hide StateOk, Exec, CheckedStmt, SupportedStmt;
    if items != [] {
      StmtGood(w, ctx, ret, scope, depth, items[0], s, fuel);
      var o := Exec(w, ctx, items[0], s, fuel);
      if o.Normal? {
        var inner := ScopeAfter(scope, items[0]);
        ItemsGood(w, ctx, ret, inner, depth, items[1..], o.s, fuel);
        Outside(ctx, scope, inner, depth, FallsItems(items[1..]), ExecItems(w, ctx, items[1..], o.s, fuel));
      }
    }
  }

  lemma {:induction false} LoopGood(w: World, ctx: Context, ret: CType, scope: set<Decl>, depth: nat,
                                    test: Option<Expr>, incr: Option<Expr>, body: Stmt, s: State, fuel: nat)
    requires ctx.target.Valid() && StateOk(ctx, scope, s) && (ret == Void || ret == Integer(Int))
    requires CheckedOption(ctx, scope, test) && (test.Some? ==> SupportedCondition(ctx, test.value))
    requires CheckedOption(ctx, scope, incr) && SupportedDiscarded(ctx, incr)
    requires CheckedStmt(ctx, ret, scope, depth + 1, body) && SupportedStmt(ctx, body)
    ensures Sound(ctx, scope, scope, 0, true, ExecLoop(w, ctx, test, incr, body, s, fuel))
    decreases body, fuel, 4
  {
    hide StateOk, Eval, EvalDiscarding, Checked, Supported, SupportedCondition, SupportedDiscarded, EvalTest, EvalStep,
      SupportedStmt, CheckedStmt, Exec;
    if fuel > 0 {
      TestGood(w, ctx, scope, test, s);
      var s1 := EvalTest(w, ctx, test, s).s;
      ArmGood(w, ctx, ret, scope, depth + 1, body, s1, fuel - 1);
      var o := Exec(w, ctx, body, s1, fuel - 1);
      if o.Normal? || o.Continued? {
        StepGood(w, ctx, scope, incr, o.s);
        LoopGood(w, ctx, ret, scope, depth, test, incr, body, EvalStep(w, ctx, incr, o.s).s, fuel - 1);
      }
    }
  }

  // ----- calls -----

  /** Every pointer argument designates an object of its pointee's width. */
  ghost predicate PointersValid(ctx: Context, fn: Function, args: seq<Val>, mem: seq<Cell>)
    requires ctx.target.Valid()
  {
    |args| == |fn.params| && forall i :: 0 <= i < |args| ==> Fits(ctx.target, mem, fn.params[i].ty, args[i])
  }

  lemma {:induction false} BindGood(ctx: Context, params: seq<Decl>, args: seq<Val>, i: nat, s: State)
    requires i <= |params| == |args| && StateOk(ctx, ParamSet(params[..i]), s)
    requires forall j, k :: 0 <= j < k < |params| ==> params[j] != params[k]
    requires forall j :: 0 <= j < |params| ==> Fits(ctx.target, s.store.mem, params[j].ty, args[j])
    ensures StateOk(ctx, ParamSet(params), BindParams(ctx, params[i..], args[i..], s))
    decreases |params| - i
  {
    if i == |params| {
      assert params[..i] == params;
    } else {
      var d, s1 := params[i], BindParam(ctx, params[i], args[i], s);
      assert Fits(ctx.target, s.store.mem, d.ty, args[i]);
      assert ParamSet(params[..i + 1]) == ParamSet(params[..i]) + {d};
      OneGood(ctx, ParamSet(params[..i]), d, args[i], s);
      BindGood(ctx, params, args, i + 1, s1);
      assert params[i..][1..] == params[i + 1..] && args[i..][1..] == args[i + 1..];
    }
  }

  lemma {:induction false} OneGood(ctx: Context, scope: set<Decl>, d: Decl, v: Val, s: State)
    requires StateOk(ctx, scope, s) && d !in scope && Fits(ctx.target, s.store.mem, d.ty, v)
    ensures var s1 := BindParam(ctx, d, v, s); StateOk(ctx, scope + {d}, s1) && Kept(s.store.mem, s1.store.mem)
  {
    var s1 := BindParam(ctx, d, v, s);
    forall x | x in scope + {d} ensures BindingOk(ctx.target, x, s1) { if x != d { assert BindingOk(ctx.target, x, s);
    } }
  }

  /** Called with valid pointers, an accepted definition stays within what C defines. */
  lemma {:induction false} ValidPointersAreDefined(w: World, ctx: Context, fn: Function, order: seq<Decl>,
                                                   args: seq<Val>, mem: seq<Cell>)
    requires UnitOk(ctx, fn, order) && CallOk(ctx, fn, args, mem) && PointersValid(ctx, fn, args, mem)
    requires EmitFunction(ctx, fn, order).Some?
    ensures Defined(w, ctx, fn, args, mem)
  {
    FunctionSupported(ctx, fn, order);
    assert Declarable(ctx.target, ctx.functions[fn.name]);
    assert fn.params[0..] == fn.params && args[0..] == args && ParamSet(fn.params[..0]) == {};
    BindGood(ctx, fn.params, args, 0, State(map[], AllExposed(mem)));
    forall fuel: nat
      ensures !Run(w, ctx, fn, args, mem, fuel).Stuck?
    {
      ItemsGood(w, ctx, fn.ret, ParamSet(fn.params), 0, fn.body, EnterCall(ctx, fn, args, mem), fuel);
    }
  }

  /** Called with valid pointers, generated code never faults, and halts exactly when the source returns. */
  lemma {:induction false} ValidPointersNeverFault(w: World, ctx: Context, fn: Function, order: seq<Decl>,
                                                   args: seq<Val>, mem: seq<Cell>, n: nat)
    requires UnitOk(ctx, fn, order) && CallOk(ctx, fn, args, mem) && PointersValid(ctx, fn, args, mem)
    requires EmitFunction(ctx, fn, order).Some?
    ensures !Steps(w, ctx.target.intBits, EmitFunction(ctx, fn, order).value, Entry(ctx, fn, args, mem), n).Fault?
  {
    ValidPointersAreDefined(w, ctx, fn, order, args, mem);
    NeverFaults(w, ctx, fn, order, args, mem, n);
  }
}
