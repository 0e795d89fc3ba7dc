/** Meaning of the analyzed tree, by cases on the operators, conversions and statements that analysis leaves in it: a
    big-step interpreter that knows variables by the identity of their declarations. What code generation refuses has no
    meaning here, and signed arithmetic wraps. */
module TypedSemantics {
  import C = CAst
  import S = CSemantics
  import opened CValues
  import opened Integers
  import opened SemaTree
  import opened SemaTypes
  import opened Storage
  import opened Wrappers

  type Val = S.Val
  type Binding = S.Binding

  /** What each declaration stands for, by its id, and the objects. */
  datatype State = State(env: map<nat, Binding>, store: Store)

  datatype Evaluated = Got(val: Val, s: State) | Wrong
  datatype BothEvaluated = GotBoth(left: int, right: int, s: State) | WrongBoth
  datatype ArgsEvaluated = GotArgs(args: seq<Arg>, s: State) | WrongArgs

  // ----- objects -----

  /** The types that objects of the function have and that it computes in. */
  predicate IsPlainInteger(t: Type) {
    t.Integer? && !t.quals.isVolatile
  }

  predicate HoldsObject(target: C.Target, t: Type, addr: nat, s: State)
    requires target.Valid()
  {
    IsPlainInteger(t) && addr < |s.store.mem| && s.store.mem[addr].width == BitsOf(target, t.kind)
  }

  function Read(target: C.Target, t: Type, addr: nat, s: State): Evaluated
    requires target.Valid()
  {
    if HoldsObject(target, t, addr, s) && s.store.mem[addr].bits < Pow2(BitsOf(target, t.kind)) then
      Got(S.IntVal(Reduced(target, t.kind, s.store.mem[addr].bits)), s)
    else Wrong
  }

  /** v as an object of the kind stores it. */
  function Stored(target: C.Target, kind: C.IntKind, v: int): nat
    requires target.Valid()
  {
    v % Pow2(BitsOf(target, kind))
  }

  /** A parameter or a variable declared in a block. */
  predicate IsOwn(d: Symbol) {
    d.Variable? && !d.isGlobal
  }

  /** The type of what e names or computes. */
  function OwnType(e: Typed): Type {
    match e.node
    case Name(_, d) => d.ty
    case _ => e.ty
  }

  // ----- expressions -----

  function Evaluate(w: World, target: C.Target, e: Typed, s: State): Evaluated
    requires target.Valid()
    decreases e, 2
  {
    match e.node
    case Constant(_, IntegerLiteral(v, _, _)) =>
      if IsPlainInteger(e.ty) then Got(S.IntVal(Reduced(target, e.ty.kind, v)), s) else Wrong
    case Name(_, d) =>
      if !IsOwn(d) || d.id !in s.env then Wrong
      else (match s.env[d.id]
            case Object(a) => Read(target, d.ty, a, s)
            case PointerParam(a) => Got(S.PtrVal(a), s))
    case Unary(Addr, x) => Designated(w, target, x, s)
    case Unary(Deref, _) =>
      (match Designated(w, target, e, s)
       case Got(PtrVal(a), s1) => Read(target, e.ty, a, s1)
       case _ => Wrong)
    case Binary(SimpleAssign, _, _, _) => Assigned(w, target, e, s)
    case Binary(_, _, _, _) => Calculated(w, target, e, s)
    case Call(_, _) =>
      (match Called(w, target, e, s)
       case Got(v, s1) => if IsPlainInteger(e.ty) then Got(v, s1) else Wrong
       case Wrong => Wrong)
    case Implicit(kind, x) =>
      (match Evaluate(w, target, x, s)
       case Wrong => Wrong
       case Got(v, s1) =>
         match kind
         case LValueToRValue => Got(v, s1)
         case PointerConversion => if v.PtrVal? then Got(v, s1) else Wrong
         case Arithmetic =>
           if v.IntVal? && IsPlainInteger(e.ty) then Got(S.IntVal(ConvertTo(target, e.ty.kind, v.v)), s1) else Wrong
         case _ => Wrong)
    case _ => Wrong
  }

  /** The object that e designates. */
  function Designated(w: World, target: C.Target, e: Typed, s: State): Evaluated
    requires target.Valid()
    decreases e, 0
  {
    match e.node
    case Name(_, d) =>
      if IsOwn(d) && d.id in s.env && s.env[d.id].Object? then Got(S.PtrVal(s.env[d.id].addr), s) else Wrong
    case Unary(Deref, x) =>
      (match Evaluate(w, target, x, s)
       case Got(PtrVal(a), s1) => Got(S.PtrVal(a), s1)
       case _ => Wrong)
    case _ => Wrong
  }

  /** An assignment: the object, then the value, then the store. */
  function Assigned(w: World, target: C.Target, e: Typed, s: State): Evaluated
    requires target.Valid() && e.node.Binary?
    decreases e, 0
  {
    match Designated(w, target, e.node.lhs, s)
    case Got(PtrVal(a), s1) =>
      (match Evaluate(w, target, e.node.rhs, s1)
       case Got(IntVal(v), s2) =>
         var t := OwnType(e.node.lhs);
         if HoldsObject(target, t, a, s2) then
           Got(S.IntVal(v), s2.(store := s2.store.Write(a, Stored(target, t.kind, v))))
         else Wrong
       case _ => Wrong)
    case _ => Wrong
  }

  /** Both operands as integers, the left one first. */
  function Operands(w: World, target: C.Target, e: Typed, s: State): BothEvaluated
    requires target.Valid() && e.node.Binary?
    decreases e, 0
  {
    match Evaluate(w, target, e.node.lhs, s)
    case Got(IntVal(a), s1) =>
      (match Evaluate(w, target, e.node.rhs, s1)
       case Got(IntVal(b), s2) => GotBoth(a, b, s2)
       case _ => WrongBoth)
    case _ => WrongBoth
  }

  function Truth(b: bool): Val { S.IntVal(if b then 1 else 0) }

  /** Sums, differences and products of integers, reduced to the type of the expression, and comparisons. */
  function Calculated(w: World, target: C.Target, e: Typed, s: State): Evaluated
    requires target.Valid() && e.node.Binary?
    decreases e, 1
  {
    var inType := IsPlainInteger(e.ty) && !e.node.lhs.ty.Pointer? && !e.node.rhs.ty.Pointer?;
    match Operands(w, target, e, s)
    case WrongBoth => Wrong
    case GotBoth(a, b, s1) =>
      match e.node.bop
      case Add => if inType then Got(S.IntVal(Reduced(target, e.ty.kind, a + b)), s1) else Wrong
      case Sub => if inType then Got(S.IntVal(Reduced(target, e.ty.kind, a - b)), s1) else Wrong
      case Times => if inType then Got(S.IntVal(Reduced(target, e.ty.kind, a * b)), s1) else Wrong
      case Equal => Got(Truth(a == b), s1)
      case NotEqual => Got(Truth(a != b), s1)
      case Less => Got(Truth(a < b), s1)
      case Greater => Got(Truth(a > b), s1)
      case LessEqual => Got(Truth(a <= b), s1)
      case GreaterEqual => Got(Truth(a >= b), s1)
      case _ => Wrong
  }

  /** The function that a call names. */
  function NamedFunction(f: Typed): Option<string> {
    if f.node.Implicit? && f.node.kind == FunctionToPointer && f.node.converted.node.Name? &&
      f.node.converted.node.symbol.Routine?
    then Some(f.node.converted.node.name)
    else None
  }

  /** A call: the arguments from left to right, then the callee, whose answer is an int. */
  function Called(w: World, target: C.Target, e: Typed, s: State): Evaluated
    requires target.Valid() && e.node.Call?
    decreases e, 0
  {
    match NamedFunction(e.node.callee)
    case None => Wrong
    case Some(name) =>
      match Passed(w, target, e.node.args, s)
      case WrongArgs => Wrong
      case GotArgs(args, s1) =>
        var after := AfterCall(w, name, args, s1.store);
        Got(S.IntVal(Reduced(target, C.Int, w.reply(after.trace).result)), s1.(store := after))
  }

  function Passed(w: World, target: C.Target, es: seq<Typed>, s: State): ArgsEvaluated
    requires target.Valid()
    decreases es, 0
  {
    if es == [] then GotArgs([], s)
    else
      match Evaluate(w, target, es[0], s)
      case Wrong => WrongArgs
      case Got(v, s1) =>
        match Passed(w, target, es[1..], s1)
        case WrongArgs => WrongArgs
        case GotArgs(rest, s2) =>
          match v
          case PtrVal(a) => GotArgs([PtrArg(a)] + rest, s2)
          case IntVal(n) =>
            var t := OwnType(es[0]);
            if IsPlainInteger(t) then GotArgs([IntArg(Stored(target, t.kind, n))] + rest, s2) else WrongArgs
  }

  // ----- statements -----

  datatype Outcome =
    | Normal(s: State)
    | Broke(s: State)
    | Continued(s: State)
    | Returned(value: Option<int>, s: State)
    | OutOfFuel(s: State)
    | Stuck

  /** An expression whose value is not used; the answer of a callee that returns nothing is not looked at. */
  function Discarded(w: World, target: C.Target, e: Typed, s: State): Evaluated
    requires target.Valid()
  {
    if e.node.Call? then Called(w, target, e, s) else Evaluate(w, target, e, s)
  }

  function Execute(w: World, target: C.Target, stmt: TypedStmt, s: State, fuel: nat): Outcome
    requires target.Valid()
    decreases stmt, fuel
  {
    match stmt
    case Declaration(v, init) => Declare(w, target, v.symbol, init, s)
    case Typedef(_, _) => Normal(s)
    case Block(items) => ExecuteAll(w, target, items, s, fuel)
    case Expression(None) => Normal(s)
    case Expression(Some(e)) =>
      (match Discarded(w, target, e, s)
       case Got(_, s1) => Normal(s1)
       case Wrong => Stuck)
    case If(cond, thn, els) =>
      (match Evaluate(w, target, cond, s)
       case Got(IntVal(v), s1) =>
         if v != 0 then Execute(w, target, thn, s1, fuel)
         else if els.Some? then Execute(w, target, els.value, s1, fuel)
         else Normal(s1)
       case _ => Stuck)
    case While(cond, body) => Loop(w, target, Some(cond), None, body, s, fuel)
    case For(None, test, incr, body) => Loop(w, target, test, incr, body, s, fuel)
    case For(Some(start), test, incr, body) =>
      (match Execute(w, target, start, s, fuel)
       case Normal(s1) => Loop(w, target, test, incr, body, s1, fuel)
       case o => o)
    case Break => Broke(s)
    case Continue => Continued(s)
    case Return(None) => Returned(None, s)
    case Return(Some(e)) =>
      (match Evaluate(w, target, e, s)
       case Got(IntVal(v), s1) => Returned(Some(v), s1)
       case _ => Stuck)
    case Tag(_, _) => Stuck
    case OtherStmt => Stuck
  }

  /** A variable: its object begins to exist, and then its initializer is evaluated and stored in it. */
  function Declare(w: World, target: C.Target, d: Symbol, init: Option<Typed>, s: State): Outcome
    requires target.Valid()
  {
    if !d.Variable? || d.storage == Static || d.storage == Extern || !IsPlainInteger(d.ty) then Stuck
    else
      var a := |s.store.mem|;
      var s0 := State(s.env[d.id := S.Object(a)], s.store.Allocate(w, BitsOf(target, d.ty.kind)));
      match init
      case None => Normal(s0)
      case Some(e) =>
        match Evaluate(w, target, e, s0)
        case Got(IntVal(v), s1) =>
          if a < |s1.store.mem| then Normal(s1.(store := s1.store.Write(a, Stored(target, d.ty.kind, v)))) else Stuck
        case _ => Stuck
  }

  function ExecuteAll(w: World, target: C.Target, items: seq<TypedStmt>, s: State, fuel: nat): Outcome
    requires target.Valid()
    decreases items, fuel
  {
    if items == [] then Normal(s)
    else
      match Execute(w, target, items[0], s, fuel)
      case Normal(s1) => ExecuteAll(w, target, items[1..], s1, fuel)
      case o => o
  }

  /** A loop from its test on; every test spends one unit of fuel. */
  function Loop(w: World, target: C.Target, test: Option<Typed>, incr: Option<Typed>, body: TypedStmt, s: State,
                fuel: nat): Outcome
    requires target.Valid()
    decreases body, fuel, 1
  {
    if fuel == 0 then OutOfFuel(s)
    else
      match if test.None? then Got(S.IntVal(1), s) else Evaluate(w, target, test.value, s)
      case Got(IntVal(v), s1) =>
        if v == 0 then Normal(s1)
        else
          (match Execute(w, target, body, s1, fuel - 1)
           case Broke(s2) => Normal(s2)
           case Normal(s2) => Again(w, target, test, incr, body, s2, fuel - 1)
           case Continued(s2) => Again(w, target, test, incr, body, s2, fuel - 1)
           case o => o)
      case _ => Stuck
  }

  /** The increment, and the loop once more. */
  function Again(w: World, target: C.Target, test: Option<Typed>, incr: Option<Typed>, body: TypedStmt, s: State,
                 fuel: nat): Outcome
    requires target.Valid()
    decreases body, fuel, 2
  {
    match if incr.None? then Got(S.IntVal(0), s) else Discarded(w, target, incr.value, s)
    case Got(_, s1) => Loop(w, target, test, incr, body, s1, fuel)
    case Wrong => Stuck
  }

  // ----- functions -----

  /** Binds parameters from left to right: an integer gets an object, a pointer stays a value. */
  function Bind(target: C.Target, params: seq<VariableSymbol>, args: seq<Val>, s: State): State
    requires target.Valid() && |params| == |args|
  {
    if params == [] then s else Bind(target, params[1..], args[1..], BindOne(target, params[0], args[0], s))
  }

  function BindOne(target: C.Target, d: VariableSymbol, arg: Val, s: State): State
    requires target.Valid()
  {
    match arg
    case PtrVal(a) => s.(env := s.env[d.id := S.PointerParam(a)])
    case IntVal(v) =>
      if !IsPlainInteger(d.ty) then s
      else
        var cell := Cell(BitsOf(target, d.ty.kind), Stored(target, d.ty.kind, v));
        State(s.env[d.id := S.Object(|s.store.mem|)], s.store.(mem := s.store.mem + [cell]))
  }

  /** Runs a definition on arguments against the caller's objects. Falling off the end returns nothing, or zero from
      main. */
  function Run(w: World, target: C.Target, f: TypedFunction, args: seq<Val>, mem: seq<Cell>, fuel: nat): Outcome
    requires target.Valid() && |f.params| == |args|
  {
    match ExecuteAll(w, target, f.body, Bind(target, f.params, args, State(map[], AllExposed(mem))), fuel)
    case Normal(s) =>
      if f.ty.ret.Void? then Returned(None, s) else if f.name == "main" then Returned(Some(0), s) else Stuck
    case Returned(v, s) => Returned(v, s)
    case OutOfFuel(s) => OutOfFuel(s)
    case _ => Stuck
  }
}
