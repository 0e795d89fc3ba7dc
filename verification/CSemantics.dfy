/** Meaning of the typed tree: a big-step interpreter. Values are mathematical integers in the range of their type,
    every object has an address, operands are evaluated left to right, and each loop test spends one unit of fuel so
    that divergence can be stated. */
module CSemantics {
  import opened CAst
  import opened Wrappers
  import opened Integers
  import opened Storage

  datatype Val = IntVal(v: int) | PtrVal(addr: nat)

  /** A declaration in scope: an object, or a pointer parameter, whose value cannot change. */
  datatype Binding = Object(addr: nat) | PointerParam(addr: nat)

  datatype State = State(env: map<Decl, Binding>, store: Store)

  datatype Evaluated = Got(val: Val, s: State) | Wrong

  datatype ArgsEvaluated = GotArgs(args: seq<Arg>, s: State) | WrongArgs

  /** There is an object of the given type at the address. */
  predicate Designates(ctx: Context, addr: nat, kind: IntKind, s: State)
    requires ctx.target.Valid()
  {
    addr < |s.store.mem| && s.store.mem[addr].width == ctx.target.Width(kind)
  }

  function Load(ctx: Context, addr: nat, ty: CType, s: State): Evaluated
    requires ctx.target.Valid()
  {
    if ty.Integer? && Designates(ctx, addr, ty.kind, s) && s.store.mem[addr].bits < Pow2(ctx.target.Width(ty.kind))
    then Got(IntVal(Reading(IsSigned(ty.kind), ctx.target.Width(ty.kind), s.store.mem[addr].bits)), s)
    else Wrong
  }

  function Compare(op: BinOp, a: int, b: int): bool
    requires IsComparison(op)
  {
    match op
    case Eq => a == b
    case Neq => a != b
    case Lt => a < b
    case Gt => a > b
    case Leq => a <= b
    case Geq => a >= b
  }

  function Combine(op: BinOp, a: int, b: int): int
    requires op in {Add, Sub, Mul}
  {
    match op
    case Add => a + b
    case Sub => a - b
    case Mul => a * b
  }

  function Eval(w: World, ctx: Context, e: Expr, s: State): Evaluated
    requires ctx.target.Valid()
    decreases e, 1
  {
    match e
    case IntLit(val, ty) => if ty.Integer? then Got(IntVal(ctx.target.Wrap(ty.kind, val)), s) else Wrong
    case Ident(d) =>
      if d !in s.env then Wrong
      else (match s.env[d]
            case Object(a) => Load(ctx, a, d.ty, s)
            case PointerParam(a) => Got(PtrVal(a), s))
    case AddrOf(operand, _) => EvalPlace(w, ctx, operand, s)
    case Deref(_, ty) =>
      (match EvalPlace(w, ctx, e, s)
       case Got(PtrVal(a), s1) => Load(ctx, a, ty, s1)
       case _ => Wrong)
    case Cast(kind, operand, ty) =>
      (match Eval(w, ctx, operand, s)
       case Got(v, s1) =>
         if kind == LValueToRValue || (kind == PointerCast && v.PtrVal?) then Got(v, s1)
         else if kind == Arithmetic && v.IntVal? && ty.Integer? then
           Got(IntVal(ctx.target.Convert(ty.kind, v.v)), s1)
         else Wrong
       case Wrong => Wrong)
    case Call(_, _, ty) =>
      (match EvalCall(w, ctx, e, s)
       case Got(v, s1) => if ty.Integer? then Got(v, s1) else Wrong
       case Wrong => Wrong)
    case Binary(op, lhs, rhs, ty) =>
      if op == Assign then
        (match EvalPlace(w, ctx, lhs, s)
         case Got(PtrVal(a), s1) =>
           (match Eval(w, ctx, rhs, s1)
            case Got(IntVal(v), s2) =>
              if TypeOf(lhs).Integer? && Designates(ctx, a, TypeOf(lhs).kind, s2) then
                Got(IntVal(v), s2.(store := s2.store.Write(a, Bits(ctx.target.Width(TypeOf(lhs).kind), v))))
              else Wrong
            case _ => Wrong)
         case _ => Wrong)
      else
        (match Eval(w, ctx, lhs, s)
         case Got(IntVal(a), s1) =>
           (match Eval(w, ctx, rhs, s1)
            case Got(IntVal(b), s2) =>
              if IsComparison(op) then Got(IntVal(if Compare(op, a, b) then 1 else 0), s2)
              else if op in {Add, Sub, Mul} && ty.Integer? then
                Got(IntVal(ctx.target.Wrap(ty.kind, Combine(op, a, b))), s2)
              else Wrong
            case _ => Wrong)
         case _ => Wrong)
    case Unsupported(_) => Wrong
  }

  /** The object an lvalue designates. */
  function EvalPlace(w: World, ctx: Context, e: Expr, s: State): Evaluated
    requires ctx.target.Valid()
    decreases e, 0
  {
    match e
    case Ident(d) => if d in s.env && s.env[d].Object? then Got(PtrVal(s.env[d].addr), s) else Wrong
    case Deref(operand, _) =>
      (match Eval(w, ctx, operand, s)
       case Got(PtrVal(a), s1) => Got(PtrVal(a), s1)
       case _ => Wrong)
    case _ => Wrong
  }

  /** A call; the value is the callee's answer read as an int, whether or not it is used. */
  function EvalCall(w: World, ctx: Context, e: Expr, s: State): Evaluated
    requires ctx.target.Valid() && e.Call?
    decreases e, 0
  {
    if e.callee == None then Wrong
    else
      match EvalArgs(w, ctx, e.args, s)
      case WrongArgs => Wrong
      case GotArgs(args, s1) =>
        var after := AfterCall(w, e.callee.value, args, s1.store);
        Got(IntVal(Reading(true, ctx.target.Width(Int), ReplyBits(w, ctx.target.Width(Int), after))),
            s1.(store := after))
  }

  function EvalArgs(w: World, ctx: Context, es: seq<Expr>, s: State): ArgsEvaluated
    requires ctx.target.Valid()
    decreases es, 0
  {
    if es == [] then GotArgs([], s)
    else
      match Eval(w, ctx, es[0], s)
      case Wrong => WrongArgs
      case Got(v, s1) =>
        match EvalArgs(w, ctx, es[1..], s1)
        case WrongArgs => WrongArgs
        case GotArgs(rest, s2) =>
          match v
          case PtrVal(a) => GotArgs([PtrArg(a)] + rest, s2)
          case IntVal(n) =>
            if TypeOf(es[0]).Integer? then
              GotArgs([IntArg(Bits(ctx.target.Width(TypeOf(es[0]).kind), n))] + rest, s2)
            else WrongArgs
  }

  // ----- statements -----

  datatype Outcome =
    | Normal(s: State)
    | Broke(s: State)
    | Continued(s: State)
    | Returned(value: Option<int>, s: State)
    | OutOfFuel(s: State)
    | Stuck

  function EvalDiscarding(w: World, ctx: Context, e: Expr, s: State): Evaluated
    requires ctx.target.Valid()
  {
    if e.Call? then EvalCall(w, ctx, e, s) else Eval(w, ctx, e, s)
  }

  /** Evaluates a loop or if condition; the value is compared with zero. */
  function EvalTest(w: World, ctx: Context, test: Option<Expr>, s: State): Evaluated
    requires ctx.target.Valid()
  {
    if test.None? then Got(IntVal(1), s) else Eval(w, ctx, test.value, s)
  }

  function EvalStep(w: World, ctx: Context, incr: Option<Expr>, s: State): Evaluated
    requires ctx.target.Valid()
  {
    if incr.None? then Got(IntVal(0), s) else EvalDiscarding(w, ctx, incr.value, s)
  }

  /** A local's storage begins at its declaration, before its initializer is evaluated. */
  function Declare(w: World, ctx: Context, d: Decl, s: State): State
    requires ctx.target.Valid() && d.ty.Integer?
  {
    State(s.env[d := Object(|s.store.mem|)], s.store.Allocate(w, ctx.target.Width(d.ty.kind)))
  }

  function Exec(w: World, ctx: Context, stmt: Stmt, s: State, fuel: nat): Outcome
    requires ctx.target.Valid()
    decreases stmt, fuel
  {
    match stmt
    case VarDecl(d, init) =>
      if !d.automatic || !d.ty.Integer? then Stuck
      else
        var s0 := Declare(w, ctx, d, s);
        if init.None? then Normal(s0)
        else
          (match Eval(w, ctx, init.value, s0)
           case Got(IntVal(v), s1) =>
             if |s.store.mem| < |s1.store.mem| then
               Normal(s1.(store := s1.store.Write(|s.store.mem|, Bits(ctx.target.Width(d.ty.kind), v))))
             else Stuck
           case _ => Stuck)
    case TypedefDecl => Normal(s)
    case Compound(items) => ExecItems(w, ctx, items, s, fuel)
    case ExprStmt(e) =>
      if e.None? then Normal(s)
      else
        (match EvalDiscarding(w, ctx, e.value, s)
         case Got(_, s1) => Normal(s1)
         case Wrong => Stuck)
    case If(cond, thn, els) =>
      (match Eval(w, ctx, cond, s)
       case Got(IntVal(v), s1) =>
         if v != 0 then Exec(w, ctx, thn, s1, fuel)
         else if els.Some? then Exec(w, ctx, els.value, s1, fuel)
         else Normal(s1)
       case _ => Stuck)
    case While(cond, body) => ExecLoop(w, ctx, Some(cond), None, body, s, fuel)
    case For(start, test, incr, body) =>
      if start.None? then ExecLoop(w, ctx, test, incr, body, s, fuel)
      else
        (match Exec(w, ctx, start.value, s, fuel)
         case Normal(s1) => ExecLoop(w, ctx, test, incr, body, s1, fuel)
         case o => o)
    case Break => Broke(s)
    case Continue => Continued(s)
    case Return(value) =>
      if value.None? then Returned(None, s)
      else
        (match Eval(w, ctx, value.value, s)
         case Got(IntVal(v), s1) => Returned(Some(v), s1)
         case _ => Stuck)
    case OtherItem => Stuck
  }

  function ExecItems(w: World, ctx: Context, items: seq<Stmt>, s: State, fuel: nat): Outcome
    requires ctx.target.Valid()
    decreases items, fuel
  {
    if items == [] then Normal(s)
    else
      match Exec(w, ctx, items[0], s, fuel)
      case Normal(s1) => ExecItems(w, ctx, items[1..], s1, fuel)
      case o => o
  }

  /** A loop from its test on: test, body, step, and again. */
  function ExecLoop(w: World, ctx: Context, test: Option<Expr>, incr: Option<Expr>, body: Stmt, s: State,
                    fuel: nat): Outcome
    requires ctx.target.Valid()
    decreases body, fuel, 1
  {
    if fuel == 0 then OutOfFuel(s)
    else
      match EvalTest(w, ctx, test, s)
      case Got(IntVal(v), s1) =>
        if v == 0 then Normal(s1)
        else
          (match Exec(w, ctx, body, s1, fuel - 1)
           case Broke(s2) => Normal(s2)
           case Normal(s2) => AfterBody(w, ctx, test, incr, body, s2, fuel - 1)
           case Continued(s2) => AfterBody(w, ctx, test, incr, body, s2, fuel - 1)
           case o => o)
      case _ => Stuck
  }

  function AfterBody(w: World, ctx: Context, test: Option<Expr>, incr: Option<Expr>, body: Stmt, s: State,
                     fuel: nat): Outcome
    requires ctx.target.Valid()
    decreases body, fuel, 2
  {
    match EvalStep(w, ctx, incr, s)
    case Got(_, s1) => ExecLoop(w, ctx, test, incr, body, s1, fuel)
    case Wrong => Stuck
  }

  // ----- functions -----

  /** Binds a parameter: an integer gets an object, a pointer stays a value. */
  function BindParam(ctx: Context, d: Decl, arg: Val, s: State): State
    requires ctx.target.Valid()
  {
    match arg
    case IntVal(v) =>
      if d.ty.Integer? then
        var width := ctx.target.Width(d.ty.kind);
        State(s.env[d := Object(|s.store.mem|)], s.store.(mem := s.store.mem + [Cell(width, Bits(width, v))]))
      else s
    case PtrVal(a) => s.(env := s.env[d := PointerParam(a)])
  }

  /** Binds parameters left to right. */
  function BindParams(ctx: Context, params: seq<Decl>, args: seq<Val>, s: State): State
    requires ctx.target.Valid() && |params| == |args|
  {
    if params == [] then s
    else BindParams(ctx, params[1..], args[1..], BindParam(ctx, params[0], args[0], s))
  }

  /** Falling off the end returns nothing, or zero from main. */
  function FinishCall(f: Function, o: Outcome): Outcome {
    match o
    case Normal(s) =>
      if f.ret == Void then Returned(None, s)
      else if f.name == "main" then Returned(Some(0), s)
      else Stuck
    case Returned(v, s) => Returned(v, s)
    case OutOfFuel(s) => OutOfFuel(s)
    case _ => Stuck
  }

  /** The state a call starts in: the caller's objects, all of them exposed, and the bound parameters. */
  function EnterCall(ctx: Context, f: Function, args: seq<Val>, mem: seq<Cell>): State
    requires ctx.target.Valid() && |f.params| == |args|
  {
    BindParams(ctx, f.params, args, State(map[], AllExposed(mem)))
  }

  /** Runs a function on arguments against storage that already holds the caller's objects. */
  function Run(w: World, ctx: Context, f: Function, args: seq<Val>, mem: seq<Cell>, fuel: nat): Outcome
    requires ctx.target.Valid() && |f.params| == |args|
  {
    FinishCall(f, ExecItems(w, ctx, f.body, EnterCall(ctx, f, args, mem), fuel))
  }
}
