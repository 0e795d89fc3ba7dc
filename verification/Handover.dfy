/** The analyzed tree as code generation sees it: without qualifiers, with every construct the generator refuses as one
    kind of node. */
module Handover {
  import C = CAst
  import P = ParseExpr
  import opened SemaTree
  import opened SemaTypes
  import opened Wrappers

  /** A type as code generation tells it apart. It generates nothing for volatile objects. */
  function EraseType(t: Type): C.CType
    decreases t, 1
  {
    if t.quals.isVolatile then C.Other else EraseBase(t)
  }

  /** The same without the type's own qualifiers. */
  function EraseBase(t: Type): C.CType
    decreases t, 0
  {
    match t
    case Void(_) => C.Void
    case Integer(k, _) => C.Integer(k)
    case Floating(size, _) => if size == LongDouble then C.Other else C.Floating
    case Pointer(p, _) => C.Pointer(EraseType(p))
    case _ => C.Other
  }

  lemma {:induction false} ArrayErased(t: Type)
    ensures t.Array? ==> EraseType(t) == C.Other
  {
  }

  function EraseTypes(ts: seq<Type>): (r: seq<C.CType>)
    ensures |r| == |ts|
    decreases ts
  {
    if ts == [] then [] else [EraseType(ts[0])] + EraseTypes(ts[1..])
  }

  /** A parameter or a variable declared in a block. */
  predicate IsLocal(d: Symbol) {
    d.Variable? && !d.isGlobal
  }

  function Declared(d: Symbol): C.Decl
    requires d.Variable?
  {
    C.Decl(d.id, EraseType(d.ty), !d.ty.Array? && !d.ty.quals.isVolatile && d.storage != Static && d.storage != Extern)
  }

  function EraseOp(op: P.BinaryOp): C.BinOp {
    match op
    case Equal => C.Eq
    case NotEqual => C.Neq
    case Less => C.Lt
    case Greater => C.Gt
    case LessEqual => C.Leq
    case GreaterEqual => C.Geq
    case Add => C.Add
    case Sub => C.Sub
    case Times => C.Mul
    case SimpleAssign => C.Assign
    case _ => C.OtherOp
  }

  function EraseKind(k: Conversion): C.CastKind {
    match k
    case LValueToRValue => C.LValueToRValue
    case PointerConversion => C.PointerCast
    case Arithmetic => C.Arithmetic
    case _ => C.OtherCast
  }

  /** The function a call names directly. */
  function Callee(f: Typed): Option<string> {
    match f.node
    case Implicit(FunctionToPointer, Typed(Name(name, Routine(_, _)), _, _)) => Some(name)
    case _ => None
  }

  /** Pointer arithmetic, and every node the generator has no case for, is refused whatever its operands are. */
  function Erase(t: Typed): C.Expr
    decreases t
  {
    var ty := EraseType(t.ty);
    match t.node
    case Constant(_, IntegerLiteral(v, _, _)) => C.IntLit(v, ty)
    case Name(_, d) => if IsLocal(d) then C.Ident(Declared(d)) else C.Unsupported(ty)
    case Unary(Addr, e) => C.AddrOf(Erase(e), ty)
    case Unary(Deref, e) => C.Deref(Erase(e), ty)
    case Binary(op, a, b, _) =>
      if op in {P.Add, P.Sub, P.Times} && (a.ty.Pointer? || b.ty.Pointer?) then C.Unsupported(ty)
      else C.Binary(EraseOp(op), Erase(a), Erase(b), ty)
    case Call(f, args) => C.Call(Callee(f), EraseAll(args), ty)
    case Implicit(k, e) => C.Cast(EraseKind(k), Erase(e), ty)
    case _ => C.Unsupported(ty)
  }

  function EraseAll(ts: seq<Typed>): (es: seq<C.Expr>)
    ensures |es| == |ts|
    decreases ts
  {
    if ts == [] then [] else [Erase(ts[0])] + EraseAll(ts[1..])
  }

  function ScopeLocals(scope: Scope): set<C.Decl> {
    set n | n in scope && IsLocal(scope[n]) :: Declared(scope[n])
  }

  /** The local declarations of all open scopes. */
  function Locals(scopes: seq<Scope>): set<C.Decl>
    decreases |scopes|
  {
    if scopes == [] then {} else Locals(scopes[..|scopes| - 1]) + ScopeLocals(scopes[|scopes| - 1])
  }

  /** The declared type of a function agrees with the signature the generator has for its name: the same result, and
      where every declaration lists the parameters, the same parameters but for volatile ones. */
  predicate AgreesOn(ctx: C.Context, name: string, ty: Type) {
    && ty.Function?
    && (name in ctx.functions ==>
          && ctx.functions[name].ret == EraseBase(ty.ret)
          && (ctx.functions[name].prototyped && !ctx.functions[name].variadic ==>
                ty.hasPrototype && !ty.variadic && ParamsAgree(ctx.functions[name].params, ty.params)))
  }

  predicate ParamsAgree(params: seq<C.CType>, types: seq<Type>) {
    |params| == |types| && forall i :: 0 <= i < |params| ==> params[i] == C.Other || params[i] == EraseBase(types[i])
  }

  predicate Agrees(ctx: C.Context, scopes: seq<Scope>) {
    forall i, name :: 0 <= i < |scopes| && name in scopes[i] && scopes[i][name].Routine? ==>
      AgreesOn(ctx, name, scopes[i][name].ty)
  }

  // ----- statements -----

  function EraseOption(e: Option<Typed>): Option<C.Expr> {
    if e.None? then None else Some(Erase(e.value))
  }

  function EraseStmt(s: TypedStmt): C.Stmt
    decreases s
  {
    match s
    case Declaration(v, init) =>
      if v.symbol.Variable? then C.VarDecl(Declared(v.symbol), EraseOption(init)) else C.OtherItem
    case Typedef(_, _) => C.TypedefDecl
    case Block(items) => C.Compound(EraseItems(items))
    case Expression(e) => C.ExprStmt(EraseOption(e))
    case If(cond, thn, els) => C.If(Erase(cond), EraseStmt(thn), if els.None? then None else Some(EraseStmt(els.value)))
    case While(cond, body) => C.While(Erase(cond), EraseStmt(body))
    case For(start, test, incr, body) =>
      C.For(if start.None? then None else Some(EraseStmt(start.value)), EraseOption(test), EraseOption(incr),
            EraseStmt(body))
    case Break => C.Break
    case Continue => C.Continue
    case Return(value) => C.Return(EraseOption(value))
    case Tag(_, _) => C.OtherItem
    case OtherStmt => C.OtherItem
  }

  function EraseItems(items: seq<TypedStmt>): (r: seq<C.Stmt>)
    ensures |r| == |items|
    decreases items
  {
    if items == [] then [] else [EraseStmt(items[0])] + EraseItems(items[1..])
  }

  function EraseParams(params: seq<VariableSymbol>): (r: seq<C.Decl>)
    ensures |r| == |params|
    decreases params
  {
    if params == [] then [] else EraseParams(params[..|params| - 1]) + [Declared(params[|params| - 1])]
  }

  function EraseFunction(f: TypedFunction): C.Function {
    C.Function(f.name, EraseParams(f.params), EraseBase(f.ty.ret), EraseItems(f.body))
  }
}
