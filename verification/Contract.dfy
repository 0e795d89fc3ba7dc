/** What semantic analysis guarantees about the tree it hands over: types agree, identifiers refer to declarations in
    scope, returns match the function, and jumps are inside loops. */
module Contract {
  import opened CAst
  import opened Wrappers

  /** e is fully typed, and every identifier in it is one of scope. */
  predicate Checked(ctx: Context, scope: set<Decl>, e: Expr)
    decreases e
  {
    match e
    case IntLit(_, ty) => ty.Integer?
    case Ident(d) => d in scope
    case AddrOf(operand, ty) => Checked(ctx, scope, operand) && ty == Pointer(TypeOf(operand))
    case Deref(operand, ty) => Checked(ctx, scope, operand) && TypeOf(operand) == Pointer(ty)
    case Cast(kind, operand, ty) =>
      && Checked(ctx, scope, operand)
      && (match kind
          case LValueToRValue => ty == TypeOf(operand) || TypeOf(operand) == Other
          case PointerCast => ty.Pointer? && TypeOf(operand).Pointer?
          case _ => true)
    case Call(callee, args, ty) =>
      && (forall a :: a in args ==> Checked(ctx, scope, a))
      && (callee.Some? && callee.value in ctx.functions ==> CallFits(ctx.functions[callee.value], args, ty))
    case Binary(op, lhs, rhs, ty) =>
      && Checked(ctx, scope, lhs)
      && Checked(ctx, scope, rhs)
      && (IsComparison(op) ==> TypeOf(lhs) == TypeOf(rhs) && ty == Integer(Int))
      && (op in {Add, Sub, Mul} ==> TypeOf(lhs) == TypeOf(rhs) == ty)
      && (op == Assign ==> TypeOf(lhs) == TypeOf(rhs) == ty || TypeOf(lhs) == Other)
    case Unsupported(_) => true
  }

  /** A call has the type of the function's result, and through a prototype it passes what the function takes. */
  predicate CallFits(sig: Signature, args: seq<Expr>, ty: CType) {
    && ty == sig.ret
    && (sig.prototyped && !sig.variadic ==>
          && |args| == |sig.params|
          && forall i :: 0 <= i < |args| ==> TypeOf(args[i]) == sig.params[i] || sig.params[i] == Other)
  }

  predicate CheckedOption(ctx: Context, scope: set<Decl>, e: Option<Expr>) {
    e.Some? ==> Checked(ctx, scope, e.value)
  }

  function ScopeAfter(scope: set<Decl>, stmt: Stmt): set<Decl> {
    if stmt.VarDecl? then scope + {stmt.decl} else scope
  }

  /** d is told apart from every declaration in scope. */
  predicate NewIn(scope: set<Decl>, d: Decl)
    ensures NewIn(scope, d) ==> d !in scope
  {
    forall e :: e in scope ==> e.id != d.id
  }

  /** A statement in a function returning ret, inside depth loops. */
  predicate CheckedStmt(ctx: Context, ret: CType, scope: set<Decl>, depth: nat, stmt: Stmt)
    decreases stmt
  {
    match stmt
    case VarDecl(d, init) =>
      && NewIn(scope, d)
      && (init.Some? ==> Checked(ctx, scope + {d}, init.value) && (TypeOf(init.value) == d.ty || d.ty == Other))
    case TypedefDecl => true
    case Compound(items) => CheckedItems(ctx, ret, scope, depth, items)
    case ExprStmt(e) => CheckedOption(ctx, scope, e)
    case If(cond, thn, els) =>
      && Checked(ctx, scope, cond)
      && CheckedStmt(ctx, ret, scope, depth, thn)
      && (els.Some? ==> CheckedStmt(ctx, ret, scope, depth, els.value))
    case While(cond, body) =>
      && Checked(ctx, scope, cond)
      && CheckedStmt(ctx, ret, scope, depth + 1, body)
    case For(start, test, incr, body) =>
      && (start.Some? ==>
            (start.value.VarDecl? || start.value.ExprStmt?) && CheckedStmt(ctx, ret, scope, depth, start.value))
      && var inner := if start.Some? then ScopeAfter(scope, start.value) else scope;
      && CheckedOption(ctx, inner, test)
      && CheckedOption(ctx, inner, incr)
      && CheckedStmt(ctx, ret, inner, depth + 1, body)
    case Break => depth > 0
    case Continue => depth > 0
    case Return(value) =>
      if value.None? then ret == Void
      else Checked(ctx, scope, value.value) && TypeOf(value.value) == ret
    case OtherItem => true
  }

  predicate CheckedItems(ctx: Context, ret: CType, scope: set<Decl>, depth: nat, items: seq<Stmt>)
    decreases items
  {
    items == [] ||
    (CheckedStmt(ctx, ret, scope, depth, items[0]) &&
     CheckedItems(ctx, ret, ScopeAfter(scope, items[0]), depth, items[1..]))
  }

  /** A function definition: parameters that are told apart, typed as its declared signature says. */
  ghost predicate CheckedFunction(ctx: Context, fn: Function) {
    && fn.name in ctx.functions
    && ctx.functions[fn.name].ret == fn.ret
    && |fn.params| == |ctx.functions[fn.name].params|
    && (forall i :: 0 <= i < |fn.params| ==> fn.params[i].ty == ctx.functions[fn.name].params[i])
    && (forall i, j :: 0 <= i < j < |fn.params| ==> fn.params[i].id != fn.params[j].id)
    && CheckedItems(ctx, fn.ret, ParamSet(fn.params), 0, fn.body)
  }

  function ParamSet(params: seq<Decl>): set<Decl> {
    set d | d in params
  }
}
