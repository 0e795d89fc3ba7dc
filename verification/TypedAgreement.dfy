/** The tree that code generation receives means what the analyzed tree means: erasing types, qualifiers and the
    constructs that are refused changes no value, no object and no outcome. */
module TypedAgreement {
  import C = CAst
  import P = ParseExpr
  import S = CSemantics
  import T = TypedSemantics
  import opened Contract
  import opened CValues
  import opened Handover
  import opened Integers
  import opened SemaTree
  import opened SemaTypes
  import opened SemaUnit
  import opened Storage
  import opened Wrappers

  // ----- states -----

  /** The same objects, and the same binding for each declaration in scope. */
  ghost predicate Same(scope: set<C.Decl>, s: T.State, c: S.State) {
    && s.store == c.store
    && forall d :: d in scope ==> (d in c.env <==> d.id in s.env) && (d in c.env ==> c.env[d] == s.env[d.id])
  }

  ghost predicate SameValue(scope: set<C.Decl>, v: T.Evaluated, u: S.Evaluated) {
    (v.Got? <==> u.Got?) && (v.Got? ==> v.val == u.val && Same(scope, v.s, u.s))
  }

  ghost predicate SameArgs(scope: set<C.Decl>, v: T.ArgsEvaluated, u: S.ArgsEvaluated) {
    (v.GotArgs? <==> u.GotArgs?) && (v.GotArgs? ==> v.args == u.args && Same(scope, v.s, u.s))
  }

  lemma {:induction false} PlainIntegers(t: Type)
    ensures T.IsPlainInteger(t) <==> EraseType(t).Integer?
    ensures T.IsPlainInteger(t) ==> EraseType(t) == C.Integer(t.kind)
  {
  }

  lemma {:induction false} OwnTypes(e: Typed)
    requires !e.node.Name? || T.IsOwn(e.node.symbol)
    ensures C.TypeOf(Erase(e)) == EraseType(T.OwnType(e))
  {
  }

  // ----- objects -----

  lemma {:induction false} ReadSame(ctx: C.Context, scope: set<C.Decl>, t: Type, a: nat, s: T.State, c: S.State)
    requires ctx.target.Valid() && Same(scope, s, c)
    ensures SameValue(scope, T.Read(ctx.target, t, a, s), S.Load(ctx, a, EraseType(t), c))
  {
    hide Pow2;
    PlainIntegers(t);
    if T.IsPlainInteger(t) {
      SameWidths(ctx.target, t.kind);
      if T.HoldsObject(ctx.target, t, a, s) && s.store.mem[a].bits < Pow2(BitsOf(ctx.target, t.kind)) {
        BitsRead(ctx.target, t.kind, s.store.mem[a].bits);
      }
    }
  }

  lemma {:induction false} BitsRead(target: C.Target, k: C.IntKind, b: nat)
    requires target.Valid() && b < Pow2(target.Width(k))
    ensures Reading(C.IsSigned(k), target.Width(k), b) == Reduced(target, k, b)
  {
    UniqueRemainder(b, 0, b, Pow2(target.Width(k)));
    WrapReduces(target, k, b);
  }

  lemma {:induction false} StoredSame(target: C.Target, k: C.IntKind, v: int)
    requires target.Valid()
    ensures T.Stored(target, k, v) == Bits(target.Width(k), v)
  {
    SameWidths(target, k);
  }

  // ----- expressions -----

  lemma {:induction false} EvaluateAgrees(w: World, ctx: C.Context, scope: set<C.Decl>, e: Typed, s: T.State,
                                          c: S.State)
    requires ctx.target.Valid() && Checked(ctx, scope, Erase(e)) && Same(scope, s, c)
    ensures SameValue(scope, T.Evaluate(w, ctx.target, e, s), S.Eval(w, ctx, Erase(e), c))
    decreases e, 2
  {
    hide Same, T.Designated, T.Assigned, T.Calculated, T.Called, T.Read, S.EvalPlace, S.EvalCall, S.Load, Pow2;
    match e.node
    case Constant(_, IntegerLiteral(v, _, _)) => {
      PlainIntegers(e.ty);
      if T.IsPlainInteger(e.ty) { WrapReduces(ctx.target, e.ty.kind, v); }
    }
    case Constant(_, _) =>
    case Name(_, d) => NameAgrees(w, ctx, scope, e, s, c);
    case Unary(Addr, x) => DesignatedAgrees(w, ctx, scope, x, s, c);
    case Unary(Deref, _) => DerefAgrees(w, ctx, scope, e, s, c);
    case Unary(_, _) =>
    case Binary(SimpleAssign, _, _, _) => AssignedAgrees(w, ctx, scope, e, s, c);
    case Binary(_, _, _, _) => CalculatedAgrees(w, ctx, scope, e, s, c);
    case Call(_, _) => {
      CalledAgrees(w, ctx, scope, e, s, c);
      PlainIntegers(e.ty);
    }
    case Implicit(_, x) => ConversionAgrees(w, ctx, scope, e, s, c);
    case _ =>
  }

  lemma {:induction false} NameAgrees(w: World, ctx: C.Context, scope: set<C.Decl>, e: Typed, s: T.State, c: S.State)
    requires ctx.target.Valid() && e.node.Name? && Checked(ctx, scope, Erase(e)) && Same(scope, s, c)
    ensures SameValue(scope, T.Evaluate(w, ctx.target, e, s), S.Eval(w, ctx, Erase(e), c))
    ensures SameValue(scope, T.Designated(w, ctx.target, e, s), S.EvalPlace(w, ctx, Erase(e), c))
  {
    hide T.Read, S.Load;
    var d := e.node.symbol;
    if T.IsOwn(d) && d.id in s.env && s.env[d.id].Object? {
      ReadSame(ctx, scope, d.ty, s.env[d.id].addr, s, c);
    }
  }

  lemma {:induction false} ConversionAgrees(w: World, ctx: C.Context, scope: set<C.Decl>, e: Typed, s: T.State,
                                            c: S.State)
    requires ctx.target.Valid() && e.node.Implicit? && Checked(ctx, scope, Erase(e)) && Same(scope, s, c)
    ensures SameValue(scope, T.Evaluate(w, ctx.target, e, s), S.Eval(w, ctx, Erase(e), c))
    decreases e, 0
  {
    hide Same;
    EvaluateAgrees(w, ctx, scope, e.node.converted, s, c);
    PlainIntegers(e.ty);
    var r := T.Evaluate(w, ctx.target, e.node.converted, s);
    if r.Got? && r.val.IntVal? && T.IsPlainInteger(e.ty) { WrapReduces(ctx.target, e.ty.kind, r.val.v); }
  }

  lemma {:induction false} DesignatedAgrees(w: World, ctx: C.Context, scope: set<C.Decl>, e: Typed, s: T.State,
                                            c: S.State)
    requires ctx.target.Valid() && Checked(ctx, scope, Erase(e)) && Same(scope, s, c)
    ensures SameValue(scope, T.Designated(w, ctx.target, e, s), S.EvalPlace(w, ctx, Erase(e), c))
    decreases e, 0
  {
    hide Same, T.Evaluate, S.Eval;
    match e.node
    case Name(_, d) => NameAgrees(w, ctx, scope, e, s, c);
    case Unary(Deref, x) => EvaluateAgrees(w, ctx, scope, x, s, c);
    case _ =>
  }

  lemma {:induction false} DerefAgrees(w: World, ctx: C.Context, scope: set<C.Decl>, e: Typed, s: T.State, c: S.State)
    requires ctx.target.Valid() && e.node.Unary? && e.node.op == P.Deref && Checked(ctx, scope, Erase(e))
    requires Same(scope, s, c)
    ensures SameValue(scope, T.Evaluate(w, ctx.target, e, s), S.Eval(w, ctx, Erase(e), c))
    decreases e, 1
  {
    hide Same, T.Designated, S.EvalPlace, T.Read, S.Load;
    DesignatedAgrees(w, ctx, scope, e, s, c);
    var r, q := T.Designated(w, ctx.target, e, s), S.EvalPlace(w, ctx, Erase(e), c);
    if r.Got? && r.val.PtrVal? { ReadSame(ctx, scope, e.ty, r.val.addr, r.s, q.s); }
  }

  lemma {:induction false} AssignedAgrees(w: World, ctx: C.Context, scope: set<C.Decl>, e: Typed, s: T.State,
                                          c: S.State)
    requires ctx.target.Valid() && e.node.Binary? && e.node.bop == P.SimpleAssign && Checked(ctx, scope, Erase(e))
    requires Same(scope, s, c)
    ensures SameValue(scope, T.Assigned(w, ctx.target, e, s), S.Eval(w, ctx, Erase(e), c))
    decreases e, 0
  {
    hide T.Designated, S.EvalPlace, T.Evaluate, Pow2;
    var l, r := e.node.lhs, e.node.rhs;
    DesignatedAgrees(w, ctx, scope, l, s, c);
    var p, q := T.Designated(w, ctx.target, l, s), S.EvalPlace(w, ctx, Erase(l), c);
    if p.Got? && p.val.PtrVal? {
      EvaluateAgrees(w, ctx, scope, r, p.s, q.s);
      PlaceIsOwn(w, ctx.target, l, s);
      OwnTypes(l);
      PlainIntegers(T.OwnType(l));
      var u := T.Evaluate(w, ctx.target, r, p.s);
      if u.Got? && u.val.IntVal? && T.IsPlainInteger(T.OwnType(l)) {
        StoredSame(ctx.target, T.OwnType(l).kind, u.val.v);
        SameWidths(ctx.target, T.OwnType(l).kind);
      }
    }
  }

  lemma {:induction false} PlaceIsOwn(w: World, target: C.Target, e: Typed, s: T.State)
    requires target.Valid() && T.Designated(w, target, e, s).Got?
    ensures !e.node.Name? || T.IsOwn(e.node.symbol)
  {
    hide T.Evaluate;
  }

  /** What an operator of the erased tree makes of two integers, if it has a meaning there. */
  function Combined(target: C.Target, op: C.BinOp, ty: C.CType, a: int, b: int): Option<int>
    requires target.Valid()
  {
    if C.IsComparison(op) then Some(if S.Compare(op, a, b) then 1 else 0)
    else if op in {C.Add, C.Sub, C.Mul} && ty.Integer? then Some(target.Wrap(ty.kind, S.Combine(op, a, b)))
    else None
  }

  lemma {:induction false} BinaryStep(w: World, ctx: C.Context, e: C.Expr, c: S.State)
    requires ctx.target.Valid() && e.Binary? && e.op != C.Assign
    ensures var l := S.Eval(w, ctx, e.lhs, c);
            var r := if l.Got? then S.Eval(w, ctx, e.rhs, l.s) else l;
            S.Eval(w, ctx, e, c) ==
              if l.Got? && l.val.IntVal? && r.Got? && r.val.IntVal? then
                match Combined(ctx.target, e.op, e.ty, l.val.v, r.val.v)
                case None => S.Wrong
                case Some(v) => S.Got(S.IntVal(v), r.s)
              else S.Wrong
  {
    hide Pow2;
  }

  /** What the operator makes of two integers in the analyzed tree. */
  function Computed(target: C.Target, e: Typed, a: int, b: int): Option<int>
    requires target.Valid() && e.node.Binary?
  {
    var inType := T.IsPlainInteger(e.ty) && !e.node.lhs.ty.Pointer? && !e.node.rhs.ty.Pointer?;
    match e.node.bop
    case Add => if inType then Some(Reduced(target, e.ty.kind, a + b)) else None
    case Sub => if inType then Some(Reduced(target, e.ty.kind, a - b)) else None
    case Times => if inType then Some(Reduced(target, e.ty.kind, a * b)) else None
    case Equal => Some(if a == b then 1 else 0)
    case NotEqual => Some(if a != b then 1 else 0)
    case Less => Some(if a < b then 1 else 0)
    case Greater => Some(if a > b then 1 else 0)
    case LessEqual => Some(if a <= b then 1 else 0)
    case GreaterEqual => Some(if a >= b then 1 else 0)
    case _ => None
  }

  lemma {:induction false} CalculatedStep(w: World, target: C.Target, e: Typed, s: T.State)
    requires target.Valid() && e.node.Binary?
    ensures var l := T.Evaluate(w, target, e.node.lhs, s);
            var r := if l.Got? then T.Evaluate(w, target, e.node.rhs, l.s) else l;
            T.Calculated(w, target, e, s) ==
              if l.Got? && l.val.IntVal? && r.Got? && r.val.IntVal? then
                match Computed(target, e, l.val.v, r.val.v)
                case None => T.Wrong
                case Some(v) => T.Got(S.IntVal(v), r.s)
              else T.Wrong
  {
    hide T.Evaluate, Reduced;
  }

  lemma {:induction false} OperatorAgrees(ctx: C.Context, e: Typed, a: int, b: int)
    requires ctx.target.Valid() && e.node.Binary? && e.node.bop != P.SimpleAssign && Erase(e).Binary?
    ensures Computed(ctx.target, e, a, b) == Combined(ctx.target, Erase(e).op, Erase(e).ty, a, b)
    ensures Erase(e).op != C.Assign
  {
    hide Reduced, Pow2;
    PlainIntegers(e.ty);
    if T.IsPlainInteger(e.ty) {
      WrapReduces(ctx.target, e.ty.kind, a + b);
      WrapReduces(ctx.target, e.ty.kind, a - b);
      WrapReduces(ctx.target, e.ty.kind, a * b);
    }
  }

  /** Sums, differences and products of pointers, which are refused, have no meaning in either tree. */
  lemma {:induction false} PointersRefused(w: World, ctx: C.Context, e: Typed, s: T.State, c: S.State)
    requires ctx.target.Valid() && e.node.Binary? && !Erase(e).Binary?
    ensures T.Calculated(w, ctx.target, e, s) == T.Wrong && S.Eval(w, ctx, Erase(e), c) == S.Wrong
  {
    hide T.Evaluate;
  }

  lemma {:induction false} CalculatedAgrees(w: World, ctx: C.Context, scope: set<C.Decl>, e: Typed, s: T.State,
                                            c: S.State)
    requires ctx.target.Valid() && e.node.Binary? && e.node.bop != P.SimpleAssign && Checked(ctx, scope, Erase(e))
    requires Same(scope, s, c)
    ensures SameValue(scope, T.Calculated(w, ctx.target, e, s), S.Eval(w, ctx, Erase(e), c))
    decreases e, 1
  {
    hide Same, T.Evaluate, S.Eval, T.Calculated, Computed, Combined;
    if !Erase(e).Binary? {
      PointersRefused(w, ctx, e, s, c);
      return;
    }
    var l, r := e.node.lhs, e.node.rhs;
    CalculatedStep(w, ctx.target, e, s);
    OperatorErased(e);
    forall a, b
      ensures Computed(ctx.target, e, a, b) == Combined(ctx.target, Erase(e).op, Erase(e).ty, a, b)
    {
      OperatorAgrees(ctx, e, a, b);
    }
    BinaryStep(w, ctx, Erase(e), c);
    EvaluateAgrees(w, ctx, scope, l, s, c);
    var a, b := T.Evaluate(w, ctx.target, l, s), S.Eval(w, ctx, Erase(l), c);
    if a.Got? { EvaluateAgrees(w, ctx, scope, r, a.s, b.s); }
  }

  lemma {:induction false} OperatorErased(e: Typed)
    requires e.node.Binary? && Erase(e).Binary? && e.node.bop != P.SimpleAssign
    ensures Erase(e).lhs == Erase(e.node.lhs) && Erase(e).rhs == Erase(e.node.rhs) && Erase(e).op != C.Assign
  {
  }

  lemma {:induction false} CalledAgrees(w: World, ctx: C.Context, scope: set<C.Decl>, e: Typed, s: T.State, c: S.State)
    requires ctx.target.Valid() && e.node.Call? && Checked(ctx, scope, Erase(e)) && Same(scope, s, c)
    ensures SameValue(scope, T.Called(w, ctx.target, e, s), S.EvalCall(w, ctx, Erase(e), c))
    decreases e, 0
  {
    hide T.Passed, S.EvalArgs, Pow2, T.Evaluate, S.Eval;
    CalleeNamed(e.node.callee);
    CheckedArguments(ctx, scope, e);
    PassedAgrees(w, ctx, scope, e.node.args, s, c);
    var r := T.Passed(w, ctx.target, e.node.args, s);
    if e.node.callee.node.Implicit? && r.GotArgs? && T.NamedFunction(e.node.callee).Some? {
      var after := AfterCall(w, T.NamedFunction(e.node.callee).value, r.args, r.s.store);
      AnswerRead(ctx.target, w.reply(after.trace).result);
    }
  }

  lemma {:induction false} AnswerRead(target: C.Target, v: int)
    requires target.Valid()
    ensures Reading(true, target.Width(C.Int), Bits(target.Width(C.Int), v)) == Reduced(target, C.Int, v)
  {
    WrapReduces(target, C.Int, v);
  }

  lemma {:induction false} CalleeNamed(f: Typed)
    ensures Callee(f) == T.NamedFunction(f)
  {
  }

  lemma {:induction false} CheckedArguments(ctx: C.Context, scope: set<C.Decl>, e: Typed)
    requires e.node.Call? && Checked(ctx, scope, Erase(e))
    ensures forall a :: a in EraseAll(e.node.args) ==> Checked(ctx, scope, a)
  {
  }

  lemma {:induction false} PassedAgrees(w: World, ctx: C.Context, scope: set<C.Decl>, es: seq<Typed>, s: T.State,
                                        c: S.State)
    requires ctx.target.Valid() && (forall a :: a in EraseAll(es) ==> Checked(ctx, scope, a)) && Same(scope, s, c)
    ensures SameArgs(scope, T.Passed(w, ctx.target, es, s), S.EvalArgs(w, ctx, EraseAll(es), c))
    decreases es, 0
  {
    hide Same, T.Evaluate, S.Eval, Pow2, Checked, Erase;
    if es == [] { return; }
    var rest := es[1..];
    assert EraseAll(es) == [Erase(es[0])] + EraseAll(rest);
    assert EraseAll(es)[1..] == EraseAll(rest) && EraseAll(es)[0] == Erase(es[0]);
    assert forall a :: a in EraseAll(rest) ==> a in EraseAll(es);
    EvaluateAgrees(w, ctx, scope, es[0], s, c);
    var v, u := T.Evaluate(w, ctx.target, es[0], s), S.Eval(w, ctx, Erase(es[0]), c);
    if v.Got? {
      PassedAgrees(w, ctx, scope, rest, v.s, u.s);
      if v.val.IntVal? { ArgumentBits(w, ctx, scope, es[0], s, c); }
    }
  }

  /** An integer argument is passed as the bits of its own type. */
  lemma {:induction false} ArgumentBits(w: World, ctx: C.Context, scope: set<C.Decl>, e: Typed, s: T.State, c: S.State)
    requires ctx.target.Valid() && T.Evaluate(w, ctx.target, e, s).Got?
    ensures C.TypeOf(Erase(e)) == EraseType(T.OwnType(e))
    ensures T.IsPlainInteger(T.OwnType(e)) <==> EraseType(T.OwnType(e)).Integer?
    ensures var t := T.OwnType(e);
            T.IsPlainInteger(t) ==>
              && EraseType(t) == C.Integer(t.kind)
              && forall n :: T.Stored(ctx.target, t.kind, n) == Bits(ctx.target.Width(t.kind), n)
  {
    NamedIsOwn(w, ctx.target, e, s);
    hide T.Evaluate;
    OwnTypes(e);
    var t := T.OwnType(e);
    PlainIntegers(t);
    if T.IsPlainInteger(t) {
      forall n
        ensures T.Stored(ctx.target, t.kind, n) == Bits(ctx.target.Width(t.kind), n)
      {
        StoredSame(ctx.target, t.kind, n);
      }
    }
  }

  lemma {:induction false} NamedIsOwn(w: World, target: C.Target, e: Typed, s: T.State)
    requires target.Valid() && T.Evaluate(w, target, e, s).Got?
    ensures !e.node.Name? || T.IsOwn(e.node.symbol)
  {
  }

  // ----- statements -----

  /** The same outcome with the same objects; a statement that ends normally has brought its declaration into scope. */
  ghost predicate SameOutcome(scope: set<C.Decl>, after: set<C.Decl>, o: T.Outcome, u: S.Outcome) {
    match o
    case Normal(s) => u.Normal? && Same(after, s, u.s)
    case Broke(s) => u.Broke? && Same(scope, s, u.s)
    case Continued(s) => u.Continued? && Same(scope, s, u.s)
    case Returned(v, s) => u.Returned? && u.value == v && Same(scope, s, u.s)
    case OutOfFuel(s) => u.OutOfFuel? && Same(scope, s, u.s)
    case Stuck => u.Stuck?
  }

  lemma {:induction false} Narrowed(scope: set<C.Decl>, wide: set<C.Decl>, s: T.State, c: S.State)
    requires scope <= wide && Same(wide, s, c)
    ensures Same(scope, s, c)
  {
  }

  lemma {:induction false} OutcomeNarrowed(scope: set<C.Decl>, wide: set<C.Decl>, after: set<C.Decl>, o: T.Outcome,
                                           u: S.Outcome)
    requires scope <= wide && scope <= after && SameOutcome(wide, after, o, u)
    ensures SameOutcome(scope, scope, o, u)
  {
    hide Same;
    match o
    case Normal(s) => Narrowed(scope, after, s, u.s);
    case Broke(s) => Narrowed(scope, wide, s, u.s);
    case Continued(s) => Narrowed(scope, wide, s, u.s);
    case Returned(_, s) => Narrowed(scope, wide, s, u.s);
    case OutOfFuel(s) => Narrowed(scope, wide, s, u.s);
    case Stuck =>
  }

  lemma {:induction false} DiscardedAgrees(w: World, ctx: C.Context, scope: set<C.Decl>, e: Typed, s: T.State,
                                           c: S.State)
    requires ctx.target.Valid() && Checked(ctx, scope, Erase(e)) && Same(scope, s, c)
    ensures SameValue(scope, T.Discarded(w, ctx.target, e, s), S.EvalDiscarding(w, ctx, Erase(e), c))
  {
    hide Same, T.Evaluate, S.Eval, T.Called, S.EvalCall;
    if e.node.Call? { CalledAgrees(w, ctx, scope, e, s, c); } else { EvaluateAgrees(w, ctx, scope, e, s, c); }
  }

  lemma {:induction false} DeclaredSame(w: World, ctx: C.Context, scope: set<C.Decl>, d: Symbol, s: T.State, c: S.State)
    requires ctx.target.Valid() && d.Variable? && T.IsPlainInteger(d.ty) && NewIn(scope, Declared(d))
    requires Same(scope, s, c)
    ensures EraseType(d.ty) == C.Integer(d.ty.kind)
    ensures Same(scope + {Declared(d)},
                 T.State(s.env[d.id := S.Object(|s.store.mem|)],
                         s.store.Allocate(w, BitsOf(ctx.target, d.ty.kind))),
                 S.Declare(w, ctx, Declared(d), c))
  {
    PlainIntegers(d.ty);
    SameWidths(ctx.target, d.ty.kind);
  }

  lemma {:induction false} DeclareAgrees(w: World, ctx: C.Context, ret: C.CType, scope: set<C.Decl>, depth: nat,
                                         stmt: TypedStmt, s: T.State, c: S.State, fuel: nat)
    requires ctx.target.Valid() && stmt.Declaration? && stmt.v.symbol.Variable?
    requires CheckedStmt(ctx, ret, scope, depth, EraseStmt(stmt)) && Same(scope, s, c)
    ensures SameOutcome(scope, ScopeAfter(scope, EraseStmt(stmt)), T.Execute(w, ctx.target, stmt, s, fuel),
                        S.Exec(w, ctx, EraseStmt(stmt), c, fuel))
  {
    hide Same, T.Evaluate, S.Eval, Pow2, NewIn, Checked;
    var d := stmt.v.symbol;
    PlainIntegers(d.ty);
    if T.IsPlainInteger(d.ty) {
      DeclaredSame(w, ctx, scope, d, s, c);
      StoreSame(s, c, scope);
      var inner := scope + {Declared(d)};
      var s0 := T.State(s.env[d.id := S.Object(|s.store.mem|)], s.store.Allocate(w, BitsOf(ctx.target, d.ty.kind)));
      var c0 := S.Declare(w, ctx, Declared(d), c);
      if stmt.init.Some? {
        EvaluateAgrees(w, ctx, inner, stmt.init.value, s0, c0);
        var r, q := T.Evaluate(w, ctx.target, stmt.init.value, s0), S.Eval(w, ctx, Erase(stmt.init.value), c0);
        if r.Got? && r.val.IntVal? {
          StoredSame(ctx.target, d.ty.kind, r.val.v);
          StoreSame(r.s, q.s, inner);
          if |s.store.mem| < |r.s.store.mem| {
            WrittenSame(inner, r.s, q.s, |s.store.mem|, Bits(ctx.target.Width(d.ty.kind), r.val.v));
          }
        }
      }
    }
  }

  lemma {:induction false} StoreSame(s: T.State, c: S.State, scope: set<C.Decl>)
    requires Same(scope, s, c)
    ensures s.store == c.store
  {
  }

  lemma {:induction false} WrittenSame(scope: set<C.Decl>, s: T.State, c: S.State, a: nat, b: nat)
    requires Same(scope, s, c) && a < |s.store.mem|
    ensures s.store == c.store && Same(scope, s.(store := s.store.Write(a, b)), c.(store := c.store.Write(a, b)))
  {
  }

  lemma {:induction false} ExecuteAgrees(w: World, ctx: C.Context, ret: C.CType, scope: set<C.Decl>, depth: nat,
                                         stmt: TypedStmt, s: T.State, c: S.State, fuel: nat)
    requires ctx.target.Valid() && CheckedStmt(ctx, ret, scope, depth, EraseStmt(stmt)) && Same(scope, s, c)
    ensures SameOutcome(scope, ScopeAfter(scope, EraseStmt(stmt)), T.Execute(w, ctx.target, stmt, s, fuel),
                        S.Exec(w, ctx, EraseStmt(stmt), c, fuel))
    decreases stmt, fuel, 1
  {
    hide Same, T.Evaluate, S.Eval, T.Discarded, S.EvalDiscarding, T.Loop, S.ExecLoop, T.ExecuteAll, S.ExecItems,
         Checked, Pow2;
    match stmt
    case Declaration(v, init) => if v.symbol.Variable? { DeclareAgrees(w, ctx, ret, scope, depth, stmt, s, c, fuel); }
    case Typedef(_, _) =>
    case Block(items) => ExecuteAllAgrees(w, ctx, ret, scope, depth, items, s, c, fuel);
    case Expression(e) => if e.Some? { DiscardedAgrees(w, ctx, scope, e.value, s, c); }
    case If(cond, thn, els) => IfAgrees(w, ctx, ret, scope, depth, stmt, s, c, fuel);
    case While(cond, body) => LoopAgrees(w, ctx, ret, scope, depth, Some(cond), None, body, s, c, fuel);
    case For(_, _, _, _) => ForAgrees(w, ctx, ret, scope, depth, stmt, s, c, fuel);
    case Break =>
    case Continue =>
    case Return(value) => if value.Some? { EvaluateAgrees(w, ctx, scope, value.value, s, c); }
    case Tag(_, _) =>
    case OtherStmt =>
  }

  lemma {:induction false} IfAgrees(w: World, ctx: C.Context, ret: C.CType, scope: set<C.Decl>, depth: nat,
                                    stmt: TypedStmt, s: T.State, c: S.State, fuel: nat)
    requires ctx.target.Valid() && stmt.If? && CheckedStmt(ctx, ret, scope, depth, EraseStmt(stmt))
    requires Same(scope, s, c)
    ensures SameOutcome(scope, scope, T.Execute(w, ctx.target, stmt, s, fuel),
                        S.Exec(w, ctx, EraseStmt(stmt), c, fuel))
    decreases stmt, fuel, 0
  {
    hide Same, T.Evaluate, S.Eval, Checked, SameOutcome, ScopeAfter, Pow2;
    EvaluateAgrees(w, ctx, scope, stmt.cond, s, c);
    var r, q := T.Evaluate(w, ctx.target, stmt.cond, s), S.Eval(w, ctx, Erase(stmt.cond), c);
    if !r.Got? || !r.val.IntVal? {
      NoOutcome(scope);
    } else if r.val.v != 0 {
      BranchAgrees(w, ctx, ret, scope, depth, stmt.thn, r.s, q.s, fuel);
    } else if stmt.els.Some? {
      BranchAgrees(w, ctx, ret, scope, depth, stmt.els.value, r.s, q.s, fuel);
    } else {
      EndsNormally(scope, r.s, q.s);
    }
  }

  lemma {:induction false} NoOutcome(scope: set<C.Decl>)
    ensures SameOutcome(scope, scope, T.Stuck, S.Stuck)
  {
  }

  lemma {:induction false} EndsNormally(scope: set<C.Decl>, s: T.State, c: S.State)
    requires Same(scope, s, c)
    ensures SameOutcome(scope, scope, T.Normal(s), S.Normal(c))
  {
  }

  /** A statement whose declaration, if it is one, is not looked at afterwards. */
  lemma {:induction false} BranchAgrees(w: World, ctx: C.Context, ret: C.CType, scope: set<C.Decl>, depth: nat,
                                        stmt: TypedStmt, s: T.State, c: S.State, fuel: nat)
    requires ctx.target.Valid() && CheckedStmt(ctx, ret, scope, depth, EraseStmt(stmt)) && Same(scope, s, c)
    ensures SameOutcome(scope, scope, T.Execute(w, ctx.target, stmt, s, fuel),
                        S.Exec(w, ctx, EraseStmt(stmt), c, fuel))
    decreases stmt, fuel, 2
  {
    hide Same, T.Execute, S.Exec, CheckedStmt, SameOutcome;
    ExecuteAgrees(w, ctx, ret, scope, depth, stmt, s, c, fuel);
    OutcomeNarrowed(scope, scope, ScopeAfter(scope, EraseStmt(stmt)), T.Execute(w, ctx.target, stmt, s, fuel),
                    S.Exec(w, ctx, EraseStmt(stmt), c, fuel));
  }

  lemma {:induction false} ForAgrees(w: World, ctx: C.Context, ret: C.CType, scope: set<C.Decl>, depth: nat,
                                     stmt: TypedStmt, s: T.State, c: S.State, fuel: nat)
    requires ctx.target.Valid() && stmt.For? && CheckedStmt(ctx, ret, scope, depth, EraseStmt(stmt))
    requires Same(scope, s, c)
    ensures SameOutcome(scope, scope, T.Execute(w, ctx.target, stmt, s, fuel),
                        S.Exec(w, ctx, EraseStmt(stmt), c, fuel))
    decreases stmt, fuel, 0
  {
    hide Same, T.Loop, S.ExecLoop, Checked, ScopeAfter, Pow2;
    if stmt.start.None? {
      LoopAgrees(w, ctx, ret, scope, depth, stmt.test, stmt.incr, stmt.body, s, c, fuel);
    } else {
      var start := stmt.start.value;
      var inner := ScopeAfter(scope, EraseStmt(start));
      Widens(scope, EraseStmt(start));
      ExecuteAgrees(w, ctx, ret, scope, depth, start, s, c, fuel);
      var o, u := T.Execute(w, ctx.target, start, s, fuel), S.Exec(w, ctx, EraseStmt(start), c, fuel);
      if o.Normal? {
        LoopAgrees(w, ctx, ret, inner, depth, stmt.test, stmt.incr, stmt.body, o.s, u.s, fuel);
        OutcomeNarrowed(scope, inner, inner,
                        T.Loop(w, ctx.target, stmt.test, stmt.incr, stmt.body, o.s, fuel),
                        S.ExecLoop(w, ctx, EraseOption(stmt.test), EraseOption(stmt.incr), EraseStmt(stmt.body), u.s,
                                   fuel));
      }
    }
  }

  lemma {:induction false} Widens(scope: set<C.Decl>, stmt: C.Stmt)
    ensures scope <= ScopeAfter(scope, stmt)
  {
  }

  lemma {:induction false} LoopAgrees(w: World, ctx: C.Context, ret: C.CType, scope: set<C.Decl>, depth: nat,
                                      test: Option<Typed>, incr: Option<Typed>, body: TypedStmt, s: T.State,
                                      c: S.State, fuel: nat)
    requires ctx.target.Valid() && CheckedOption(ctx, scope, EraseOption(test)) && Same(scope, s, c)
    requires CheckedOption(ctx, scope, EraseOption(incr)) && CheckedStmt(ctx, ret, scope, depth + 1, EraseStmt(body))
    ensures SameOutcome(scope, scope, T.Loop(w, ctx.target, test, incr, body, s, fuel),
                        S.ExecLoop(w, ctx, EraseOption(test), EraseOption(incr), EraseStmt(body), c, fuel))
    decreases body, fuel, 3
  {
    hide Same, T.Evaluate, S.Eval, T.Execute, S.Exec, T.Again, S.AfterBody, Checked, CheckedStmt, Pow2;
    if fuel == 0 { return; }
    if test.Some? { EvaluateAgrees(w, ctx, scope, test.value, s, c); }
    var r := if test.None? then T.Got(S.IntVal(1), s) else T.Evaluate(w, ctx.target, test.value, s);
    var q := S.EvalTest(w, ctx, EraseOption(test), c);
    if r.Got? && r.val.IntVal? && r.val.v != 0 {
      BranchAgrees(w, ctx, ret, scope, depth + 1, body, r.s, q.s, fuel - 1);
      var o, u := T.Execute(w, ctx.target, body, r.s, fuel - 1), S.Exec(w, ctx, EraseStmt(body), q.s, fuel - 1);
      if o.Normal? || o.Continued? { AgainAgrees(w, ctx, ret, scope, depth, test, incr, body, o.s, u.s, fuel - 1); }
    }
  }

  lemma {:induction false} AgainAgrees(w: World, ctx: C.Context, ret: C.CType, scope: set<C.Decl>, depth: nat,
                                       test: Option<Typed>, incr: Option<Typed>, body: TypedStmt, s: T.State,
                                       c: S.State, fuel: nat)
    requires ctx.target.Valid() && CheckedOption(ctx, scope, EraseOption(test)) && Same(scope, s, c)
    requires CheckedOption(ctx, scope, EraseOption(incr)) && CheckedStmt(ctx, ret, scope, depth + 1, EraseStmt(body))
    ensures SameOutcome(scope, scope, T.Again(w, ctx.target, test, incr, body, s, fuel),
                        S.AfterBody(w, ctx, EraseOption(test), EraseOption(incr), EraseStmt(body), c, fuel))
    decreases body, fuel, 4
  {
    hide Same, T.Discarded, S.EvalDiscarding, T.Loop, S.ExecLoop, Checked, CheckedStmt, Pow2;
    if incr.Some? { DiscardedAgrees(w, ctx, scope, incr.value, s, c); }
    var r := if incr.None? then T.Got(S.IntVal(0), s) else T.Discarded(w, ctx.target, incr.value, s);
    if r.Got? {
      LoopAgrees(w, ctx, ret, scope, depth, test, incr, body, r.s, S.EvalStep(w, ctx, EraseOption(incr), c).s, fuel);
    }
  }

  lemma {:induction false} ExecuteAllAgrees(w: World, ctx: C.Context, ret: C.CType, scope: set<C.Decl>, depth: nat,
                                            items: seq<TypedStmt>, s: T.State, c: S.State, fuel: nat)
    requires ctx.target.Valid() && CheckedItems(ctx, ret, scope, depth, EraseItems(items)) && Same(scope, s, c)
    ensures SameOutcome(scope, scope, T.ExecuteAll(w, ctx.target, items, s, fuel),
                        S.ExecItems(w, ctx, EraseItems(items), c, fuel))
    decreases items, fuel, 0
  {
    hide Same, T.Execute, S.Exec, CheckedStmt, ScopeAfter, Pow2, EraseStmt;
    if items == [] { return; }
    var rest, stmt := items[1..], EraseStmt(items[0]);
    assert EraseItems(items)[0] == stmt && EraseItems(items)[1..] == EraseItems(rest);
    ExecuteAgrees(w, ctx, ret, scope, depth, items[0], s, c, fuel);
    Widens(scope, stmt);
    var o, u := T.Execute(w, ctx.target, items[0], s, fuel), S.Exec(w, ctx, stmt, c, fuel);
    if o.Normal? {
      var inner := ScopeAfter(scope, stmt);
      ExecuteAllAgrees(w, ctx, ret, inner, depth, rest, o.s, u.s, fuel);
      OutcomeNarrowed(scope, inner, inner, T.ExecuteAll(w, ctx.target, rest, o.s, fuel),
                      S.ExecItems(w, ctx, EraseItems(rest), u.s, fuel));
    }
  }

  // ----- functions -----

  /** Nothing but the declarations in scope is bound. */
  ghost predicate OnlyBound(scope: set<C.Decl>, s: T.State, c: S.State) {
    && (forall d :: d in c.env ==> d in scope)
    && (forall i :: i in s.env ==> exists d :: d in scope && d.id == i)
  }

  lemma {:induction false} ParamsInOrder(params: seq<VariableSymbol>)
    requires params != []
    ensures EraseParams(params) == [Declared(params[0])] + EraseParams(params[1..])
    decreases |params|
  {
    var n := |params| - 1;
    if n > 0 {
      ParamsInOrder(params[..n]);
      assert params[..n][1..] == params[1..][..n - 1];
    }
  }

  lemma {:induction false} BindOneSame(ctx: C.Context, scope: set<C.Decl>, d: VariableSymbol, arg: T.Val, s: T.State,
                                       c: S.State)
    requires ctx.target.Valid() && NewIn(scope, Declared(d)) && Same(scope, s, c)
    requires Declared(d) !in c.env && d.id !in s.env
    ensures Same(scope + {Declared(d)}, T.BindOne(ctx.target, d, arg, s), S.BindParam(ctx, Declared(d), arg, c))
  {
    hide Pow2;
    PlainIntegers(d.ty);
    if arg.IntVal? && T.IsPlainInteger(d.ty) {
      SameWidths(ctx.target, d.ty.kind);
      StoredSame(ctx.target, d.ty.kind, arg.v);
    }
  }

  lemma {:induction false} BindOneBound(ctx: C.Context, scope: set<C.Decl>, d: VariableSymbol, arg: T.Val, s: T.State,
                                        c: S.State)
    requires ctx.target.Valid() && NewIn(scope, Declared(d)) && OnlyBound(scope, s, c) && s.store == c.store
    ensures Declared(d) !in c.env && d.id !in s.env
    ensures OnlyBound(scope + {Declared(d)}, T.BindOne(ctx.target, d, arg, s), S.BindParam(ctx, Declared(d), arg, c))
  {
    hide Pow2, OnlyBound;
    PlainIntegers(d.ty);
    Unbound(scope, Declared(d), s, c);
    var s1, c1 := T.BindOne(ctx.target, d, arg, s), S.BindParam(ctx, Declared(d), arg, c);
    if arg.PtrVal? || T.IsPlainInteger(d.ty) {
      BoundToo(scope, Declared(d), s1.env[d.id], s, c, s1, c1);
    } else {
      BoundStays(scope, Declared(d), s, c);
    }
  }

  lemma {:induction false} Unbound(scope: set<C.Decl>, d: C.Decl, s: T.State, c: S.State)
    requires NewIn(scope, d) && OnlyBound(scope, s, c)
    ensures d !in c.env && d.id !in s.env
  {
  }

  lemma {:induction false} BoundStays(scope: set<C.Decl>, d: C.Decl, s: T.State, c: S.State)
    requires OnlyBound(scope, s, c)
    ensures OnlyBound(scope + {d}, s, c)
  {
    forall i | i in s.env
      ensures exists e :: e in scope + {d} && e.id == i
    {
      var e :| e in scope && e.id == i;
      assert e in scope + {d};
    }
  }

  lemma {:induction false} BoundToo(scope: set<C.Decl>, d: C.Decl, b: T.Binding, s: T.State, c: S.State, s1: T.State,
                                    c1: S.State)
    requires OnlyBound(scope, s, c) && s1.env == s.env[d.id := b] && c1.env == c.env[d := b]
    ensures OnlyBound(scope + {d}, s1, c1)
  {
    BoundStays(scope, d, s, c);
    forall i | i in s1.env
      ensures exists e :: e in scope + {d} && e.id == i
    {
      if i == d.id { assert d in scope + {d}; }
    }
  }

  lemma {:induction false} BindAgrees(ctx: C.Context, scope: set<C.Decl>, params: seq<VariableSymbol>,
                                      args: seq<T.Val>, s: T.State, c: S.State)
    requires ctx.target.Valid() && |params| == |args| && Same(scope, s, c) && OnlyBound(scope, s, c)
    requires forall i :: 0 <= i < |params| ==> NewIn(scope, Declared(params[i]))
    requires forall i, j :: 0 <= i < j < |params| ==> params[i].id != params[j].id
    ensures Same(scope + ParamSet(EraseParams(params)), T.Bind(ctx.target, params, args, s),
                 S.BindParams(ctx, EraseParams(params), args, c))
    decreases |params|
  {
    hide Same, OnlyBound, T.BindOne, S.BindParam, EraseType;
    if params == [] {
      assert scope + ParamSet(EraseParams(params)) == scope;
    } else {
      var d, rest := Declared(params[0]), params[1..];
      ParamsInOrder(params);
      StoreSame(s, c, scope);
      BindOneBound(ctx, scope, params[0], args[0], s, c);
      BindOneSame(ctx, scope, params[0], args[0], s, c);
      BindAgrees(ctx, scope + {d}, rest, args[1..], T.BindOne(ctx.target, params[0], args[0], s),
                 S.BindParam(ctx, d, args[0], c));
      assert EraseParams(params)[1..] == EraseParams(rest);
      assert scope + ParamSet(EraseParams(params)) == scope + {d} + ParamSet(EraseParams(rest));
    }
  }

  /** What the erased definition does on a call is what the analyzed one does: it returns the same, after the same calls
      and with the same objects, or spends the same fuel, or does something that has no meaning. */
  lemma {:induction false} RunAgrees(w: World, ctx: C.Context, t: TypedFunction, args: seq<T.Val>, mem: seq<Cell>,
                                     fuel: nat)
    requires ctx.target.Valid() && CheckedFunction(ctx, EraseFunction(t)) && |args| == |t.params|
    ensures SameOutcome({}, {}, T.Run(w, ctx.target, t, args, mem, fuel),
                        S.Run(w, ctx, EraseFunction(t), args, mem, fuel))
  {
    hide Same, T.ExecuteAll, S.ExecItems, CheckedItems, T.Bind, S.BindParams;
    var fn := EraseFunction(t);
    var s0, c0 := T.State(map[], AllExposed(mem)), S.State(map[], AllExposed(mem));
    StartsSame(mem);
    ParamsApart(t.params);
    BindAgrees(ctx, {}, t.params, args, s0, c0);
    var scope := ParamSet(fn.params);
    assert {} + scope == scope;
    var s, c := T.Bind(ctx.target, t.params, args, s0), S.EnterCall(ctx, fn, args, mem);
    ExecuteAllAgrees(w, ctx, fn.ret, scope, 0, t.body, s, c, fuel);
    OutcomeNarrowed({}, scope, scope, T.ExecuteAll(w, ctx.target, t.body, s, fuel),
                    S.ExecItems(w, ctx, fn.body, c, fuel));
    VoidResult(t.ty.ret);
  }

  lemma {:induction false} StartsSame(mem: seq<Cell>)
    ensures var s, c := T.State(map[], AllExposed(mem)), S.State(map[], AllExposed(mem));
            Same({}, s, c) && OnlyBound({}, s, c)
  {
  }

  lemma {:induction false} ParamsApart(params: seq<VariableSymbol>)
    ensures forall i :: 0 <= i < |params| ==> EraseParams(params)[i].id == params[i].id
  {
    forall i | 0 <= i < |params|
      ensures EraseParams(params)[i].id == params[i].id
    {
      ErasedParam(params, i);
    }
  }

  lemma {:induction false} VoidResult(t: Type)
    ensures EraseBase(t) == C.Void <==> t.Void?
  {
  }
}
