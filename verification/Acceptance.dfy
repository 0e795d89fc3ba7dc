/** Exactly which functions code generation accepts. On the trees that semantic analysis hands over, the answer depends
    on which constructs occur where control can reach them. Of the generator's diagnostics, those for a jump outside a
    loop and for types that do not match can then not be reached, except where a pointer is converted to another pointee
    and where a function is called that some declaration leaves without a prototype. */
module Acceptance {
  import opened CAst
  import opened Wrappers
  import opened Contract
  import opened Ir
  import opened Lowering
  import opened ExprSimulation
  import opened Shape
  import opened Unit

  // ----- what is supported -----

  predicate Supported(ctx: Context, e: Expr)
    requires ctx.target.Valid()
    decreases e, 1
  {
    match e
    case IntLit(_, _) => true
    case Ident(_) => true
    case AddrOf(operand, _) => SupportedPlace(ctx, operand)
    case Deref(_, _) => SupportedPlace(ctx, e)
    case Cast(kind, operand, ty) =>
      && Supported(ctx, operand)
      && (match kind
          case LValueToRValue => true
          case PointerCast => LowerType(ctx.target, ty) == LowerType(ctx.target, TypeOf(operand))
          case Arithmetic => TypeOf(operand).Integer? && ty.Integer?
          case OtherCast => false)
    case Call(_, _, ty) => SupportedCall(ctx, e) && ty != Void
    case Binary(op, lhs, rhs, ty) =>
      if op == Assign then SupportedPlace(ctx, lhs) && Supported(ctx, rhs)
      else if IsComparison(op) then TypeOf(lhs).Integer? && Supported(ctx, lhs) && Supported(ctx, rhs)
      else op != OtherOp && ty.Integer? && Supported(ctx, lhs) && Supported(ctx, rhs)
    case Unsupported(_) => false
  }

  /** Integer objects only: pointers may be parameters but are never stored. */
  predicate SupportedPlace(ctx: Context, e: Expr)
    requires ctx.target.Valid()
    decreases e, 0
  {
    match e
    case Deref(operand, ty) => ty.Integer? && Supported(ctx, operand)
    case Ident(d) => !d.ty.Pointer?
    case _ => false
  }

  /** A direct call of a declared function with supported arguments. Only where a declaration of the function lacks a
      prototype do the arguments still have to be compared with the parameters. */
  predicate SupportedCall(ctx: Context, e: Expr)
    requires ctx.target.Valid() && e.Call?
    decreases e, 0
  {
    && e.callee.Some? && e.callee.value in ctx.functions
    && SupportedArgs(ctx, e.args)
    && (ctx.functions[e.callee.value].prototyped || Fitting(ctx.target, e.args, ctx.functions[e.callee.value].params))
  }

  predicate SupportedArgs(ctx: Context, es: seq<Expr>)
    requires ctx.target.Valid()
    decreases es, 0
  {
    es == [] || (Supported(ctx, es[0]) && SupportedArgs(ctx, es[1..]))
  }

  predicate Fitting(target: Target, es: seq<Expr>, params: seq<CType>)
    requires target.Valid()
  {
    |es| == |params| && forall i :: 0 <= i < |es| ==> LowerType(target, TypeOf(es[i])) == LowerType(target, params[i])
  }

  predicate SupportedDiscarded(ctx: Context, e: Option<Expr>)
    requires ctx.target.Valid()
  {
    e.Some? ==> if e.value.Call? then SupportedCall(ctx, e.value) else Supported(ctx, e.value)
  }

  predicate SupportedCondition(ctx: Context, e: Expr)
    requires ctx.target.Valid()
  {
    TypeOf(e).Integer? && Supported(ctx, e)
  }

  /** Whether the generator takes control to reach the end of a statement. */
  predicate Falls(stmt: Stmt) {
    match stmt
    case Break => false
    case Continue => false
    case Return(_) => false
    case Compound(items) => FallsItems(items)
    case If(_, thn, els) => els.None? || Falls(thn) || Falls(els.value)
    case _ => true
  }

  predicate FallsItems(items: seq<Stmt>) {
    items == [] || (Falls(items[0]) && FallsItems(items[1..]))
  }

  predicate SupportedStmt(ctx: Context, stmt: Stmt)
    requires ctx.target.Valid()
    decreases stmt
  {
    match stmt
    case VarDecl(d, init) => d.automatic && d.ty.Integer? && (init.Some? ==> Supported(ctx, init.value))
    case TypedefDecl => true
    case Compound(items) => SupportedItems(ctx, items)
    case ExprStmt(e) => SupportedDiscarded(ctx, e)
    case If(cond, thn, els) =>
      SupportedCondition(ctx, cond) && SupportedStmt(ctx, thn) && (els.Some? ==> SupportedStmt(ctx, els.value))
    case While(cond, body) => SupportedCondition(ctx, cond) && SupportedStmt(ctx, body)
    case For(start, test, incr, body) =>
      && (start.Some? ==> SupportedStmt(ctx, start.value))
      && (test.Some? ==> SupportedCondition(ctx, test.value))
      && SupportedDiscarded(ctx, incr)
      && SupportedStmt(ctx, body)
    case Break => true
    case Continue => true
    case Return(value) => value.Some? ==> Supported(ctx, value.value)
    case OtherItem => false
  }

  /** Items after one that control does not leave are never looked at. */
  predicate SupportedItems(ctx: Context, items: seq<Stmt>)
    requires ctx.target.Valid()
    decreases items
  {
    items == [] || (SupportedStmt(ctx, items[0]) && (Falls(items[0]) ==> SupportedItems(ctx, items[1..])))
  }

  // ----- floating types -----

  predicate NoFloat(t: CType) {
    match t
    case Floating => false
    case Pointer(p) => NoFloat(p)
    case _ => true
  }

  predicate NoFloatExpr(e: Expr)
    decreases e
  {
    && NoFloat(TypeOf(e))
    && match e
       case AddrOf(x, _) => NoFloatExpr(x)
       case Deref(x, _) => NoFloatExpr(x)
       case Cast(_, x, _) => NoFloatExpr(x)
       case Call(_, args, _) => forall a :: a in args ==> NoFloatExpr(a)
       case Binary(_, a, b, _) => NoFloatExpr(a) && NoFloatExpr(b)
       case _ => true
  }

  predicate NoFloatOption(e: Option<Expr>) {
    e.Some? ==> NoFloatExpr(e.value)
  }

  predicate NoFloatStmt(s: Stmt)
    decreases s
  {
    match s
    case VarDecl(d, init) => NoFloat(d.ty) && NoFloatOption(init)
    case Compound(items) => forall i :: i in items ==> NoFloatStmt(i)
    case ExprStmt(e) => NoFloatOption(e)
    case If(cond, thn, els) => NoFloatExpr(cond) && NoFloatStmt(thn) && (els.Some? ==> NoFloatStmt(els.value))
    case While(cond, body) => NoFloatExpr(cond) && NoFloatStmt(body)
    case For(start, test, incr, body) =>
      (start.Some? ==> NoFloatStmt(start.value)) && NoFloatOption(test) && NoFloatOption(incr) && NoFloatStmt(body)
    case Return(value) => NoFloatOption(value)
    case _ => true
  }

  /** No floating type occurs in the declared functions or in the definition. The generator copies floating objects,
      which these theorems do not cover. */
  predicate NoFloats(ctx: Context, fn: Function) {
    && (forall name :: name in ctx.functions ==> forall t :: t in ctx.functions[name].params ==> NoFloat(t))
    && forall s :: s in fn.body ==> NoFloatStmt(s)
  }

  // ----- expressions -----

  /** Every variable in scope is an entry argument or has a slot. */
  ghost predicate Bound(env: Env, f: Frame, scope: set<Decl>) {
    FrameOk(env, f) && forall d :: d in scope ==> d in f.storage || d in env.values
  }

  lemma {:induction false} BoundLater(env: Env, f: Frame, ops: seq<Op>, f': Frame, scope: set<Decl>)
    requires Bound(env, f, scope) && Straight(env, f, ops, f')
    ensures Bound(env, f', scope)
  {
  }

  /** An accepted expression has the type semantic analysis gave it. */
  ghost predicate Typed(env: Env, code: Code, ty: CType)
    requires env.ctx.target.Valid()
  {
    code.Code? ==>
      && code.value < |code.frame.types|
      && LowerType(env.ctx.target, ty) == Some(code.frame.types[code.value])
  }

  lemma {:induction false} ExprAccepted(env: Env, f: Frame, e: Expr, scope: set<Decl>)
    requires Bound(env, f, scope) && Checked(env.ctx, scope, e)
    ensures EmitExpr(env, f, e).Code? <==> Supported(env.ctx, e)
    ensures Typed(env, EmitExpr(env, f, e), TypeOf(e))
    decreases e, 1
  {
    match e
    case IntLit(_, _) =>
    case Ident(d) => if d in f.storage { assert SlotOk(env, f, d); }
    case AddrOf(operand, _) => PlaceAccepted(env, f, operand, scope);
    case Deref(_, _) => PlaceAccepted(env, f, e, scope);
    case Cast(_, operand, _) => ExprAccepted(env, f, operand, scope);
    case Call(_, _, _) => CallAccepted(env, f, e, scope);
    case Binary(op, _, _, _) =>
      if op == Assign { AssignAccepted(env, f, e, scope); } else { BinaryAccepted(env, f, e, scope); }
    case Unsupported(_) =>
  }

  lemma {:induction false} PlaceAccepted(env: Env, f: Frame, e: Expr, scope: set<Decl>)
    requires Bound(env, f, scope) && Checked(env.ctx, scope, e)
    ensures EmitPlace(env, f, e).PlaceCode? <==> SupportedPlace(env.ctx, e)
    ensures var place := EmitPlace(env, f, e);
            place.PlaceCode? ==>
              && TypeOf(e).Integer? && LowerType(env.ctx.target, TypeOf(e)) == Some(place.slot.elem)
              && place.slot.base < |place.frame.types| && place.frame.types[place.slot.base] == Ptr(place.slot.elem)
    decreases e, 0
  {
    match e
    case Deref(operand, _) => ExprAccepted(env, f, operand, scope);
    case Ident(d) => if d in f.storage { assert SlotOk(env, f, d); }
    case _ =>
  }

  lemma {:induction false} AssignAccepted(env: Env, f: Frame, e: Expr, scope: set<Decl>)
    requires Bound(env, f, scope) && e.Binary? && e.op == Assign && Checked(env.ctx, scope, e)
    ensures EmitAssign(env, f, e).Code? <==> SupportedPlace(env.ctx, e.lhs) && Supported(env.ctx, e.rhs)
    ensures Typed(env, EmitAssign(env, f, e), e.ty)
    decreases e, 0
  {
    PlaceAccepted(env, f, e.lhs, scope);
    var place := EmitPlace(env, f, e.lhs);
    if place.PlaceCode? {
      PlaceShape(env, f, e.lhs);
      BoundLater(env, f, place.ops, place.frame, scope);
      ExprAccepted(env, place.frame, e.rhs, scope);
    }
  }

  lemma {:induction false} BinaryAccepted(env: Env, f: Frame, e: Expr, scope: set<Decl>)
    requires Bound(env, f, scope) && e.Binary? && e.op != Assign && Checked(env.ctx, scope, e)
    ensures EmitExpr(env, f, e).Code? <==> Supported(env.ctx, e)
    ensures Typed(env, EmitExpr(env, f, e), e.ty)
    decreases e, 0
  {
    ExprAccepted(env, f, e.lhs, scope);
    var left := EmitExpr(env, f, e.lhs);
    if left.Code? {
      ExprShape(env, f, e.lhs);
      BoundLater(env, f, left.ops, left.frame, scope);
      ExprAccepted(env, left.frame, e.rhs, scope);
      if EmitExpr(env, left.frame, e.rhs).Code? { ExprShape(env, left.frame, e.rhs); }
    }
  }

  lemma {:induction false} CallAccepted(env: Env, f: Frame, e: Expr, scope: set<Decl>)
    requires Bound(env, f, scope) && e.Call? && Checked(env.ctx, scope, e)
    ensures EmitCall(env, f, e).CallCode? <==> SupportedCall(env.ctx, e)
    ensures var code := EmitCall(env, f, e);
            && (code.CallCode? ==> (code.value.Some? <==> e.ty != Void))
            && (code.CallCode? && code.value.Some? ==> Typed(env, Code(code.ops, code.frame, code.value.value), e.ty))
    decreases e, 0
  {
    if e.callee.Some? && e.callee.value in env.ctx.functions {
      var sig := env.ctx.functions[e.callee.value];
      assert Declarable(env.ctx.target, sig);
      if |e.args| == |sig.params| { ArgsAccepted(env, f, e.args, sig.params, scope); }
      if sig.prototyped { PrototypeFits(env.ctx.target, sig, e.args, e.ty); }
    }
  }

  /** What analysis passes through a prototype fits the parameters. */
  lemma {:induction false} PrototypeFits(target: Target, sig: Signature, args: seq<Expr>, ty: CType)
    requires target.Valid() && Declarable(target, sig) && sig.prototyped && CallFits(sig, args, ty)
    ensures Fitting(target, args, sig.params)
  {
    forall i | 0 <= i < |args|
      ensures LowerType(target, TypeOf(args[i])) == LowerType(target, sig.params[i])
    {
      assert LowerType(target, sig.params[i]).Some?;
    }
  }

  lemma {:induction false} ArgsAccepted(env: Env, f: Frame, es: seq<Expr>, params: seq<CType>, scope: set<Decl>)
    requires Bound(env, f, scope) && |es| == |params| && forall a :: a in es ==> Checked(env.ctx, scope, a)
    ensures EmitArgs(env, f, es, params).ArgsCode? <==>
        SupportedArgs(env.ctx, es) && Fitting(env.ctx.target, es, params)
    decreases es, 0
  {
    if es != [] {
      ExprAccepted(env, f, es[0], scope);
      var first := EmitExpr(env, f, es[0]);
      FittingStep(env.ctx.target, es, params);
      if first.Code? {
        ExprShape(env, f, es[0]);
        BoundLater(env, f, first.ops, first.frame, scope);
        ArgsAccepted(env, first.frame, es[1..], params[1..], scope);
      }
    }
  }

  lemma {:induction false} FittingStep(target: Target, es: seq<Expr>, params: seq<CType>)
    requires target.Valid() && |es| == |params| && es != []
    ensures Fitting(target, es, params) <==>
              LowerType(target, TypeOf(es[0])) == LowerType(target, params[0]) && Fitting(target, es[1..], params[1..])
  {
    if Fitting(target, es[1..], params[1..]) && LowerType(target, TypeOf(es[0])) == LowerType(target, params[0]) {
      forall i | 0 <= i < |es|
        ensures LowerType(target, TypeOf(es[i])) == LowerType(target, params[i])
      {
        if i > 0 { assert es[i] == es[1..][i - 1] && params[i] == params[1..][i - 1]; }
      }
    }
    if Fitting(target, es, params) {
      forall i | 0 <= i < |es[1..]|
        ensures LowerType(target, TypeOf(es[1..][i])) == LowerType(target, params[1..][i])
      {
        assert es[1..][i] == es[i + 1] && params[1..][i] == params[i + 1];
      }
    }
  }

  lemma {:induction false} ConditionAccepted(env: Env, f: Frame, e: Expr, scope: set<Decl>)
    requires Bound(env, f, scope) && Checked(env.ctx, scope, e)
    ensures EmitCondition(env, f, e).Code? <==> SupportedCondition(env.ctx, e)
  {
    ExprAccepted(env, f, e, scope);
  }

  // ----- statements -----

  ghost predicate Ready(env: Env, g: Gen, ret: CType, scope: set<Decl>, depth: nat) {
    && GenOk(env, g) && Bound(env, g.frame, scope) && !g.Terminated() && |g.loops| == depth
    && env.ctx.target.Valid() && ResultOk(env, ret)
  }

  /** The generator's verdict on a statement, and whether it ended the block. */
  ghost predicate Judged(r: Option<Gen>, supported: bool, falls: bool) {
    (r.Some? <==> supported) && (r.Some? ==> (r.value.Terminated() <==> !falls))
  }

  lemma {:induction false} AfterLater(env: Env, g: Gen, g': Gen, ret: CType, scope: set<Decl>, depth: nat)
    requires Ready(env, g, ret, scope, depth) && Later(env, scope, g, g') && !g'.Terminated()
    ensures Ready(env, g', ret, scope, depth)
  {
  }

  lemma {:induction false} StillOpen(g: Gen, ops: seq<Op>, f: Frame)
    requires !g.Terminated() && NoTerminators(ops)
    ensures !g.With(ops, f).Terminated()
  {
  }

  lemma {:induction false} VarJudged(env: Env, g: Gen, d: Decl, init: Option<Expr>, ret: CType, scope: set<Decl>,
                                     depth: nat)
    requires Ready(env, g, ret, scope, depth) && CheckedStmt(env.ctx, ret, scope, depth, VarDecl(d, init))
    ensures Judged(EmitVar(env, g, d, init), SupportedStmt(env.ctx, VarDecl(d, init)), true)
    ensures EmitVar(env, g, d, init).Some? ==> Ready(env, EmitVar(env, g, d, init).value, ret, scope + {d}, depth)
  {
    if d.automatic && d.ty.Integer? {
      var t := LowerType(env.ctx.target, d.ty).value;
      var f, n := LocalFrame(g.frame, d, t), g.frame.Next();
      LocalFrameOk(env, g.frame, d, t);
      if init.Some? {
        ExprAccepted(env, f, init.value, scope + {d});
        var code := EmitExpr(env, f, init.value);
        if code.Code? {
          ExprShape(env, f, init.value);
          BoundLater(env, f, code.ops, code.frame, scope + {d});
          StillOpen(g, [Alloca(n, t)] + code.ops + [StoreOp(code.value, n)], code.frame);
        }
      } else {
        StillOpen(g, [Alloca(n, t)], f);
      }
    }
  }

  lemma {:induction false} DiscardedJudged(env: Env, g: Gen, e: Expr, ret: CType, scope: set<Decl>, depth: nat)
    requires Ready(env, g, ret, scope, depth) && Checked(env.ctx, scope, e)
    ensures Judged(EmitExprStmt(env, g, e), SupportedDiscarded(env.ctx, Some(e)), true)
  {
    if e.Call? {
      CallAccepted(env, g.frame, e, scope);
      var code := EmitCall(env, g.frame, e);
      if code.CallCode? {
        CallShape(env, g.frame, e);
        StillOpen(g, code.ops, code.frame);
      }
    } else {
      ExprAccepted(env, g.frame, e, scope);
      var code := EmitExpr(env, g.frame, e);
      if code.Code? {
        ExprShape(env, g.frame, e);
        StillOpen(g, code.ops, code.frame);
      }
    }
  }

  lemma {:induction false} ReturnJudged(env: Env, g: Gen, value: Option<Expr>, ret: CType, scope: set<Decl>, depth: nat)
    requires Ready(env, g, ret, scope, depth) && CheckedStmt(env.ctx, ret, scope, depth, Return(value))
    ensures Judged(EmitReturn(env, g, value), SupportedStmt(env.ctx, Return(value)), false)
  {
    if value.Some? { ExprAccepted(env, g.frame, value.value, scope); }
  }

  lemma {:induction false} ItemsJudged(env: Env, g: Gen, items: seq<Stmt>, ret: CType, scope: set<Decl>, depth: nat)
    requires Ready(env, g, ret, scope, depth) && CheckedItems(env.ctx, ret, scope, depth, items)
    ensures Judged(EmitItems(env, g, items), SupportedItems(env.ctx, items), FallsItems(items))
    decreases items
  {
    hide FrameOk, SlotsKeptOn, ResultOk;
    if items != [] {
      ItemJudged(env, g, items[0], ret, scope, depth);
      var first := EmitItem(env, g, items[0]);
      if first.Some? && Falls(items[0]) {
        ItemsJudged(env, first.value, items[1..], ret, ScopeAfter(scope, items[0]), depth);
      } else if first.Some? {
        assert EmitItems(env, first.value, items[1..]) == first;
      }
    }
  }

  lemma {:induction false} ItemJudged(env: Env, g: Gen, stmt: Stmt, ret: CType, scope: set<Decl>, depth: nat)
    requires Ready(env, g, ret, scope, depth) && CheckedStmt(env.ctx, ret, scope, depth, stmt)
    ensures Judged(EmitItem(env, g, stmt), SupportedStmt(env.ctx, stmt), Falls(stmt))
    ensures EmitItem(env, g, stmt).Some? && Falls(stmt) ==>
              Ready(env, EmitItem(env, g, stmt).value, ret, ScopeAfter(scope, stmt), depth)
    decreases stmt, 2
  {
    hide FrameOk, SlotsKeptOn, ResultOk;
    match stmt {
      case VarDecl(d, init) => VarJudged(env, g, d, init, ret, scope, depth);
      case TypedefDecl =>
      case Compound(items) => ItemsJudged(env, g, items, ret, scope, depth);
      case ExprStmt(e) => if e.Some? { DiscardedJudged(env, g, e.value, ret, scope, depth); }
      case If(_, _, _) => IfJudged(env, g, stmt, ret, scope, depth);
      case While(_, _) => WhileJudged(env, g, stmt, ret, scope, depth);
      case For(_, _, _, _) => ForJudged(env, g, stmt, ret, scope, depth);
      case Break =>
      case Continue =>
      case Return(value) => ReturnJudged(env, g, value, ret, scope, depth);
      case OtherItem =>
    }
    if !stmt.VarDecl? && EmitItem(env, g, stmt).Some? && Falls(stmt) {
      ItemShape(env, g, stmt, ret, scope, depth);
      AfterLater(env, g, EmitItem(env, g, stmt).value, ret, scope, depth);
    }
  }

  lemma {:induction false} ParametersReady(env: Env, g: Gen, ret: CType, scope: set<Decl>, depth: nat)
    requires Ready(env, g, ret, scope, depth)
    ensures Ready(env, MaterializeParameters(env, g), ret, scope, depth)
  {
    ParametersLater(env, scope, g);
    MaterializeAllShape(env, g.frame, env.order);
    var (f, ops) := MaterializeAll(env, g.frame, env.order);
    StillOpen(g, ops, f);
    AfterLater(env, g, MaterializeParameters(env, g), ret, scope, depth);
  }

  /** A state whose block b is empty and whose frame serves scope. */
  ghost predicate Waiting(env: Env, g: Gen, b: nat, ret: CType, scope: set<Decl>, depth: nat) {
    Fresh(g, b) && Ready(env, g.At(b), ret, scope, depth)
  }

  lemma {:induction false} WaitingLater(env: Env, g: Gen, g1: Gen, b: nat, ret: CType, scope: set<Decl>, depth: nat)
    requires Ready(env, g, ret, scope, depth) && Later(env, scope, g, g1) && Fresh(g1, b)
    ensures Waiting(env, g1, b, ret, scope, depth)
  {
  }

  lemma {:induction false} ArmJudged(env: Env, g: Gen, b: nat, stmt: Stmt, merge: nat, ret: CType, scope: set<Decl>,
                                     depth: nat)
    requires Waiting(env, g, b, ret, scope, depth) && CheckedStmt(env.ctx, ret, scope, depth, stmt)
    ensures var arm := EmitArm(env, g, b, stmt, merge);
            (arm.Some? <==> SupportedStmt(env.ctx, stmt)) && (arm.Some? ==> (arm.value.continues <==> Falls(stmt)))
    decreases stmt, 3
  {
    ItemJudged(env, g.At(b), stmt, ret, scope, depth);
  }

  lemma {:induction false} IfJudged(env: Env, g: Gen, stmt: Stmt, ret: CType, scope: set<Decl>, depth: nat)
    requires Ready(env, g, ret, scope, depth) && stmt.If? && CheckedStmt(env.ctx, ret, scope, depth, stmt)
    ensures Judged(EmitIf(env, g, stmt), SupportedStmt(env.ctx, stmt), Falls(stmt))
    decreases stmt, 1
  {
    hide FrameOk, SlotsKeptOn, ResultOk, EmitItem, EmitExpr, EmitArm;
    ParametersReady(env, g, ret, scope, depth);
    ConditionAccepted(env, MaterializeParameters(env, g).frame, stmt.cond, scope);
    var head := EmitIfHead(env, g, stmt.cond, stmt.els.Some?);
    if head.Some? {
      IfHeadShape(env, g, stmt.cond, stmt.els.Some?, scope);
      assert Fresh(head.value, |g.blocks|) && Fresh(head.value, |g.blocks| + 1);
      WaitingLater(env, g, head.value, |g.blocks|, ret, scope, depth);
      if stmt.els.None? {
        ThenJudged(env, g, head.value, stmt.thn, ret, scope, depth);
      } else {
        assert Fresh(head.value, |g.blocks| + 2);
        ThenElseJudged(env, g, head.value, stmt, ret, scope, depth);
      }
    }
  }

  lemma {:induction false} ThenJudged(env: Env, g: Gen, g1: Gen, thn: Stmt, ret: CType, scope: set<Decl>, depth: nat)
    requires Ready(env, g, ret, scope, depth) && Later(env, scope, g, g1)
    requires CheckedStmt(env.ctx, ret, scope, depth, thn)
    requires Waiting(env, g1, |g.blocks|, ret, scope, depth) && Fresh(g1, |g.blocks| + 1)
    ensures Judged(EmitThen(env, g1, |g.blocks|, thn), SupportedStmt(env.ctx, thn), true)
    decreases thn, 4
  {
    hide FrameOk, SlotsKeptOn, ResultOk, EmitItem, EmitExpr, EmitArm;
    var b := |g.blocks|;
    ArmJudged(env, g1, b, thn, b + 1, ret, scope, depth);
    if EmitArm(env, g1, b, thn, b + 1).Some? { ArmShape(env, g, g1, b, thn, b + 1, ret, scope, depth); }
  }

  lemma {:induction false} ThenElseJudged(env: Env, g: Gen, g1: Gen, stmt: Stmt, ret: CType, scope: set<Decl>,
                                          depth: nat)
    requires Ready(env, g, ret, scope, depth) && Later(env, scope, g, g1) && stmt.If? && stmt.els.Some?
    requires CheckedStmt(env.ctx, ret, scope, depth, stmt.thn)
    requires CheckedStmt(env.ctx, ret, scope, depth, stmt.els.value)
    requires Waiting(env, g1, |g.blocks|, ret, scope, depth) && Fresh(g1, |g.blocks| + 1) && Fresh(g1, |g.blocks| + 2)
    ensures Judged(EmitThenElse(env, g1, |g.blocks|, stmt),
                   SupportedStmt(env.ctx, stmt.thn) && SupportedStmt(env.ctx, stmt.els.value),
                   Falls(stmt.thn) || Falls(stmt.els.value))
    decreases stmt, 0
  {
    hide FrameOk, SlotsKeptOn, ResultOk, EmitItem, EmitExpr, EmitArm;
    var b := |g.blocks|;
    ArmJudged(env, g1, b, stmt.thn, b + 2, ret, scope, depth);
    var arm := EmitArm(env, g1, b, stmt.thn, b + 2);
    if arm.Some? {
      ArmShape(env, g, g1, b, stmt.thn, b + 2, ret, scope, depth);
      var g2 := arm.value.gen;
      WaitingLater(env, g, g2, b + 1, ret, scope, depth);
      ArmJudged(env, g2, b + 1, stmt.els.value, b + 2, ret, scope, depth);
      var other := EmitArm(env, g2, b + 1, stmt.els.value, b + 2);
      if other.Some? {
        ArmShape(env, g, g2, b + 1, stmt.els.value, b + 2, ret, scope, depth);
        ArmEnds(env, g2, b + 1, stmt.els.value, b + 2);
      }
    }
  }

  /** An arm always leaves its block closed. */
  lemma {:induction false} ArmEnds(env: Env, g: Gen, b: nat, stmt: Stmt, merge: nat)
    requires EnvOk(env) && EmitArm(env, g, b, stmt, merge).Some?
    requires EmitArm(env, g, b, stmt, merge).value.gen.cur < |EmitArm(env, g, b, stmt, merge).value.gen.blocks|
    ensures EmitArm(env, g, b, stmt, merge).value.gen.Terminated()
  {
    hide EmitItem;
    var g1 := EmitItem(env, g.At(b), stmt).value;
    var g2 := BranchIfOpen(g1, merge);
    if !g1.Terminated() { assert g2.Ops()[|g2.Ops()| - 1] == Branch(merge); }
  }

  lemma {:induction false} TestJudged(env: Env, g: Gen, test: Option<Expr>, b: nat, exit: nat, scope: set<Decl>)
    requires GenOk(env, g) && Bound(env, g.frame, scope) && CheckedOption(env.ctx, scope, test)
    ensures EmitTest(env, g, test, b, exit).Some? <==> (test.Some? ==> SupportedCondition(env.ctx, test.value))
  {
    if test.Some? { ConditionAccepted(env, g.frame, test.value, scope); }
  }

  lemma {:induction false} LoopJudged(env: Env, g: Gen, n: nat, test: Option<Expr>, body: Stmt, t: LoopTargets,
                                      ret: CType, inner: set<Decl>, depth: nat)
    requires Ready(env, g, ret, inner, depth) && n >= 3
    requires CheckedOption(env.ctx, inner, test) && CheckedStmt(env.ctx, ret, inner, depth + 1, body)
    ensures EmitLoop(env, LoopEntry(g, n), test, body, |g.blocks| + 1, t).Some?
       <==> (test.Some? ==> SupportedCondition(env.ctx, test.value)) && SupportedStmt(env.ctx, body)
    decreases body, 4
  {
    hide FrameOk, SlotsKeptOn, ResultOk, EmitItem, EmitExpr, EmitTest, LoopEntry, CheckedStmt, SupportedStmt;
    var b, g1 := |g.blocks|, LoopEntry(g, n);
    LoopEntryLater(env, inner, g, n);
    assert Fresh(g1, b) && Fresh(g1, b + 1);
    WaitingLater(env, g, g1.At(g.cur), b, ret, inner, depth);
    TestJudged(env, g1, test, b + 1, t.breakTarget, inner);
    var g2 := EmitTest(env, g1, test, b + 1, t.breakTarget);
    if g2.Some? {
      TestShape(env, g1, test, b + 1, t.breakTarget, inner);
      WaitingLater(env, g1, g2.value, b + 1, ret, inner, depth);
      BodyJudged(env, g2.value.At(b + 1), body, t, ret, inner, depth);
    }
  }

  lemma {:induction false} BodyJudged(env: Env, g: Gen, body: Stmt, t: LoopTargets, ret: CType, inner: set<Decl>,
                                      depth: nat)
    requires Ready(env, g, ret, inner, depth) && CheckedStmt(env.ctx, ret, inner, depth + 1, body)
    ensures EmitItem(env, g.Enter(t), body).Some? <==> SupportedStmt(env.ctx, body)
    decreases body, 3
  {
    ItemJudged(env, g.Enter(t), body, ret, inner, depth + 1);
  }

  lemma {:induction false} WhileJudged(env: Env, g: Gen, stmt: Stmt, ret: CType, scope: set<Decl>, depth: nat)
    requires Ready(env, g, ret, scope, depth) && stmt.While? && CheckedStmt(env.ctx, ret, scope, depth, stmt)
    ensures Judged(EmitWhile(env, g, stmt), SupportedStmt(env.ctx, stmt), true)
    decreases stmt, 1
  {
    hide FrameOk, SlotsKeptOn, ResultOk, EmitItem, EmitExpr, LoopEntry, EmitLoop;
    var g0 := MaterializeParameters(env, g);
    ParametersReady(env, g, ret, scope, depth);
    var b := |g0.blocks|;
    var t := LoopTargets(b + 2, b);
    LoopJudged(env, g0, 3, Some(stmt.cond), stmt.body, t, ret, scope, depth);
    var loop := EmitLoop(env, LoopEntry(g0, 3), Some(stmt.cond), stmt.body, b + 1, t);
    if loop.Some? {
      LoopLeaves(env, g0, 3, Some(stmt.cond), stmt.body, t, ret, scope, depth);
      assert Fresh(loop.value, b + 2);
    }
  }

  /** The blocks after a loop's body are still empty. */
  lemma {:induction false} LoopLeaves(env: Env, g: Gen, n: nat, test: Option<Expr>, body: Stmt, t: LoopTargets,
                                      ret: CType, inner: set<Decl>, depth: nat)
    requires Ready(env, g, ret, inner, depth) && n >= 3
    requires CheckedOption(env.ctx, inner, test) && CheckedStmt(env.ctx, ret, inner, depth + 1, body)
    requires EmitLoop(env, LoopEntry(g, n), test, body, |g.blocks| + 1, t).Some?
    ensures var g4 := EmitLoop(env, LoopEntry(g, n), test, body, |g.blocks| + 1, t).value;
            Later(env, inner, g, g4) && forall b :: |g.blocks| + 2 <= b < |g.blocks| + n ==> Fresh(g4, b)
  {
    hide FrameOk, SlotsKeptOn, ResultOk, EmitItem, EmitExpr, LoopEntry, EmitLoop, EmitTest, CheckedStmt;
    LoopEntryLater(env, inner, g, n);
    assert forall b :: |g.blocks| <= b < |g.blocks| + n ==> Fresh(LoopEntry(g, n), b);
    LoopShape(env, g, LoopEntry(g, n), test, body, |g.blocks| + 1, t, ret, inner, inner, depth);
    var g4 := EmitLoop(env, LoopEntry(g, n), test, body, |g.blocks| + 1, t).value;
    forall b | |g.blocks| + 2 <= b < |g.blocks| + n ensures Fresh(g4, b) { assert Fresh(LoopEntry(g, n), b); }
  }

  lemma {:induction false} ForJudged(env: Env, g: Gen, stmt: Stmt, ret: CType, scope: set<Decl>, depth: nat)
    requires Ready(env, g, ret, scope, depth) && stmt.For? && CheckedStmt(env.ctx, ret, scope, depth, stmt)
    ensures Judged(EmitFor(env, g, stmt), SupportedStmt(env.ctx, stmt), true)
    decreases stmt, 1
  {
    hide FrameOk, SlotsKeptOn, ResultOk, EmitItem, EmitExpr, EmitForLoop;
    var gM := MaterializeParameters(env, g);
    ParametersReady(env, g, ret, scope, depth);
    if stmt.start.Some? {
      ItemJudged(env, gM, stmt.start.value, ret, scope, depth);
      var start := EmitItem(env, gM, stmt.start.value);
      if start.Some? {
        ForLoopJudged(env, start.value, stmt.test, stmt.incr, stmt.body, ret, ScopeAfter(scope, stmt.start.value),
                      depth);
      }
    } else {
      ForLoopJudged(env, gM, stmt.test, stmt.incr, stmt.body, ret, scope, depth);
    }
  }

  lemma {:induction false} ForLoopJudged(env: Env, g: Gen, test: Option<Expr>, incr: Option<Expr>, body: Stmt,
                                         ret: CType, inner: set<Decl>, depth: nat)
    requires Ready(env, g, ret, inner, depth) && CheckedOption(env.ctx, inner, test)
    requires CheckedOption(env.ctx, inner, incr)
    requires CheckedStmt(env.ctx, ret, inner, depth + 1, body)
    ensures Judged(EmitForLoop(env, g, test, incr, body),
                   && (test.Some? ==> SupportedCondition(env.ctx, test.value))
                   && SupportedDiscarded(env.ctx, incr) && SupportedStmt(env.ctx, body), true)
    decreases body, 5
  {
    hide FrameOk, SlotsKeptOn, ResultOk, EmitItem, EmitExpr, LoopEntry, EmitLoop, CheckedStmt, SupportedStmt,
      SupportedCondition, EmitStep;
    var b := |g.blocks|;
    var t := LoopTargets(b + 3, b + 2);
    LoopJudged(env, g, 4, test, body, t, ret, inner, depth);
    var loop := EmitLoop(env, LoopEntry(g, 4), test, body, b + 1, t);
    if loop.Some? {
      LoopLeaves(env, g, 4, test, body, t, ret, inner, depth);
      assert Fresh(loop.value, b + 2) && Fresh(loop.value, b + 3);
      WaitingLater(env, g, loop.value, b + 2, ret, inner, depth);
      StepJudged(env, loop.value.At(b + 2), incr, b + 3, ret, inner, depth);
    }
  }

  lemma {:induction false} StepJudged(env: Env, g: Gen, incr: Option<Expr>, exit: nat, ret: CType, inner: set<Decl>,
                                      depth: nat)
    requires Ready(env, g, ret, inner, depth) && CheckedOption(env.ctx, inner, incr) && Fresh(g, exit) && exit != g.cur
    ensures EmitStep(env, g, incr).Some? <==> SupportedDiscarded(env.ctx, incr)
    ensures EmitStep(env, g, incr).Some? ==>
        Fresh(EmitStep(env, g, incr).value, exit) && EmitStep(env, g, incr).value.cur == g.cur
  {
    if incr.Some? {
      DiscardedJudged(env, g, incr.value, ret, inner, depth);
      if EmitExprStmt(env, g, incr.value).Some? { ExprStmtShape(env, g, incr.value, inner); }
    }
  }

  // ----- functions -----

  /** Of the model's generator, which has no floating objects. */
  lemma {:induction false} FunctionSupported(ctx: Context, fn: Function, order: seq<Decl>)
    requires UnitOk(ctx, fn, order)
    ensures EmitFunction(ctx, fn, order).Some?
       <==> && SupportedItems(ctx, fn.body)
            && (FallsItems(fn.body) ==> fn.ret == Void || fn.name == "main")
  {
    hide EmitItems;
    assert Declarable(ctx.target, ctx.functions[fn.name]);
    var env, f := FunctionEnv(ctx, fn, order), EntryFrame(ctx.target, ctx.functions[fn.name].params).value;
    EntryFrameOk(ctx, fn, order, f);
    EntryValuesAt(fn.params);
    ItemsJudged(env, EntryGen(f), fn.body, fn.ret, ParamSet(fn.params), 0);
  }

  /** Code generation accepts a definition exactly when every construct that control can reach is supported and control
      cannot run off the end of a function that has to return something. */
  lemma {:induction false} AcceptedExactlyWhenSupported(ctx: Context, fn: Function, order: seq<Decl>)
    requires UnitOk(ctx, fn, order) && NoFloats(ctx, fn)
    ensures EmitFunction(ctx, fn, order).Some?
       <==> && SupportedItems(ctx, fn.body)
            && (FallsItems(fn.body) ==> fn.ret == Void || fn.name == "main")
  {
    FunctionSupported(ctx, fn, order);
  }
}
