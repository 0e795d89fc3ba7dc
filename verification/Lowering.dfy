/** What code generation produces, as functions of what it is given. The class in MlirGen.dfy does the same by appending
    operations to a builder and is proved to agree. */
module Lowering {
  import opened CAst
  import opened Wrappers
  import opened Ir

  /** An address: the value holding the pointer and the type stored behind it. */
  datatype Slot = Slot(base: nat, elem: MType)

  /** The part of the generator's state that emitting an expression can change. |types| is the number of the next value.
      */
  datatype Frame = Frame(types: seq<MType>, storage: map<Decl, Slot>) {
    function Next(): nat { |types| }
    function Define(t: MType): Frame { this.(types := types + [t]) }
  }

  /** What stays fixed while one function is generated. values binds parameters to entry arguments; order is the order
      in which iterating over values visits its keys, which is unspecified. */
  datatype Env = Env(ctx: Context, values: map<Decl, nat>, order: seq<Decl>, result: Option<MType>)

  datatype Code = Code(ops: seq<Op>, frame: Frame, value: nat) | Refused
  datatype PlaceCode = PlaceCode(ops: seq<Op>, frame: Frame, slot: Slot) | NoPlace
  datatype ArgsCode = ArgsCode(ops: seq<Op>, frame: Frame, values: seq<nat>) | ArgsRefused
  datatype CallCode = CallCode(ops: seq<Op>, frame: Frame, value: Option<nat>) | CallRefused

  function LowerType(target: Target, t: CType): Option<MType>
    requires target.Valid()
  {
    match t
    case Integer(k) => Some(I(target.Width(k)))
    case Pointer(Integer(k)) => Some(Ptr(I(target.Width(k))))
    case _ => None
  }

  /** Only int and void functions that are not variadic and whose parameters can be lowered are declared. */
  predicate Declarable(target: Target, sig: Signature)
    requires target.Valid()
  {
    && !sig.variadic
    && (sig.ret == Integer(Int) || sig.ret == Void)
    && forall i :: 0 <= i < |sig.params| ==> LowerType(target, sig.params[i]).Some?
  }

  predicate IsPtr(t: MType) { t.Ptr? }

  function ChoosePredicate(op: BinOp, isSigned: bool): Predicate
    requires IsComparison(op)
  {
    match op
    case Eq => EQ
    case Neq => NE
    case Lt => if isSigned then SLT else ULT
    case Gt => if isSigned then SGT else UGT
    case Leq => if isSigned then SLE else ULE
    case Geq => if isSigned then SGE else UGE
  }

  function ChooseArith(op: BinOp): ArithKind
    requires op in {Add, Sub, Mul}
  {
    match op
    case Add => AddI
    case Sub => SubI
    case Mul => MulI
  }

  function TypeAt(f: Frame, v: nat): MType {
    if v < |f.types| then f.types[v] else I(0)
  }

  /** Gives a parameter that is still an SSA value its storage slot. */
  function Materialize(env: Env, f: Frame, d: Decl): (Frame, seq<Op>)
    requires d in env.values
  {
    var t := TypeAt(f, env.values[d]);
    var n := f.Next();
    (Frame(f.types + [Ptr(t)], f.storage[d := Slot(n, t)]), [Alloca(n, t), StoreOp(env.values[d], n)])
  }

  function EmitExpr(env: Env, f: Frame, e: Expr): Code
    requires env.ctx.target.Valid()
    decreases e, 1
  {
    match e
    case IntLit(val, ty) =>
      if ty.Integer? then
        var w := env.ctx.target.Width(ty.kind);
        Code([ConstantInt(f.Next(), w, val)], f.Define(I(w)), f.Next())
      else Refused
    case Ident(d) =>
      if d in f.storage then
        Code([LoadOp(f.Next(), f.storage[d].elem, f.storage[d].base)], f.Define(f.storage[d].elem), f.Next())
      else if d in env.values then Code([], f, env.values[d])
      else Refused
    case AddrOf(operand, _) =>
      (match EmitPlace(env, f, operand)
       case PlaceCode(ops, f1, slot) => Code(ops, f1, slot.base)
       case NoPlace => Refused)
    case Deref(_, _) =>
      (match EmitPlace(env, f, e)
       case PlaceCode(ops, f1, slot) =>
         Code(ops + [LoadOp(f1.Next(), slot.elem, slot.base)], f1.Define(slot.elem), f1.Next())
       case NoPlace => Refused)
    case Cast(kind, operand, ty) =>
      (match EmitExpr(env, f, operand)
       case Refused => Refused
       case Code(ops, f1, v) =>
         match kind
         case LValueToRValue => Code(ops, f1, v)
         case PointerCast =>
           if IsPtr(TypeAt(f1, v)) && LowerType(env.ctx.target, ty) == Some(TypeAt(f1, v))
           then Code(ops, f1, v) else Refused
         case Arithmetic =>
           if TypeOf(operand).Integer? && ty.Integer? && TypeAt(f1, v).I? then
             EmitConversion(env, ops, f1, v, TypeOf(operand).kind, ty.kind)
           else Refused
         case OtherCast => Refused)
    case Call(_, _, _) =>
      (match EmitCall(env, f, e)
       case CallCode(ops, f1, Some(v)) => Code(ops, f1, v)
       case _ => Refused)
    case Binary(op, _, _, _) =>
      if op == Assign then EmitAssign(env, f, e)
      else if IsComparison(op) then EmitComparison(env, f, e)
      else if op in {Add, Sub, Mul} then EmitArithmetic(env, f, e)
      else Refused
    case Unsupported(_) => Refused
  }

  /** The operation that turns value v of kind source into kind to. */
  function EmitConversion(env: Env, ops: seq<Op>, f: Frame, v: nat, source: IntKind, to: IntKind): Code
    requires env.ctx.target.Valid() && TypeAt(f, v).I?
  {
    var from := TypeAt(f, v).width;
    var width := env.ctx.target.Width(to);
    var n := f.Next();
    if to == Bool then
      Code(ops + [ConstantInt(n, from, 0), CmpI(n + 1, NE, from, v, n)],
           f.Define(I(from)).Define(I(1)), n + 1)
    else if from == width then Code(ops, f, v)
    else if from > width then Code(ops + [TruncI(n, width, v)], f.Define(I(width)), n)
    else if IsSigned(source) then Code(ops + [ExtSI(n, from, width, v)], f.Define(I(width)), n)
    else Code(ops + [ExtUI(n, width, v)], f.Define(I(width)), n)
  }

  function EmitPlace(env: Env, f: Frame, e: Expr): PlaceCode
    requires env.ctx.target.Valid()
    decreases e, 0
  {
    match e
    case Deref(operand, ty) =>
      (match EmitExpr(env, f, operand)
       case Refused => NoPlace
       case Code(ops, f1, v) =>
         var pointee := LowerType(env.ctx.target, ty);
         if IsPtr(TypeAt(f1, v)) && pointee.Some? && TypeAt(f1, v) == Ptr(pointee.value)
         then PlaceCode(ops, f1, Slot(v, pointee.value))
         else NoPlace)
    case Ident(d) =>
      if d.ty.Pointer? then NoPlace
      else if d in f.storage then PlaceCode([], f, f.storage[d])
      else if d in env.values then
        var (f1, ops) := Materialize(env, f, d);
        PlaceCode(ops, f1, f1.storage[d])
      else NoPlace
    case _ => NoPlace
  }

  function EmitAssign(env: Env, f: Frame, e: Expr): Code
    requires env.ctx.target.Valid() && e.Binary?
    decreases e, 0
  {
    match EmitPlace(env, f, e.lhs)
    case NoPlace => Refused
    case PlaceCode(ops, f1, slot) =>
      match EmitExpr(env, f1, e.rhs)
      case Refused => Refused
      case Code(more, f2, v) =>
        if TypeAt(f2, v) == slot.elem then Code(ops + more + [StoreOp(v, slot.base)], f2, v)
        else Refused
  }

  function EmitComparison(env: Env, f: Frame, e: Expr): Code
    requires env.ctx.target.Valid() && e.Binary? && IsComparison(e.op)
    decreases e, 0
  {
    if !TypeOf(e.lhs).Integer? || !TypeOf(e.rhs).Integer? || e.ty != Integer(Int) then Refused
    else
      match EmitExpr(env, f, e.lhs)
      case Refused => Refused
      case Code(ops, f1, a) =>
        match EmitExpr(env, f1, e.rhs)
        case Refused => Refused
        case Code(more, f2, b) =>
          if TypeAt(f2, a).I? && TypeAt(f2, a) == TypeAt(f2, b) then
            var n := f2.Next();
            var width := env.ctx.target.Width(Int);
            Code(ops + more +
                 [CmpI(n, ChoosePredicate(e.op, IsSigned(TypeOf(e.lhs).kind)), TypeAt(f2, a).width, a, b),
                  ExtUI(n + 1, width, n)],
                 f2.Define(I(1)).Define(I(width)), n + 1)
          else Refused
  }

  function EmitArithmetic(env: Env, f: Frame, e: Expr): Code
    requires env.ctx.target.Valid() && e.Binary? && e.op in {Add, Sub, Mul}
    decreases e, 0
  {
    if !e.ty.Integer? then Refused
    else
      match EmitExpr(env, f, e.lhs)
      case Refused => Refused
      case Code(ops, f1, a) =>
        match EmitExpr(env, f1, e.rhs)
        case Refused => Refused
        case Code(more, f2, b) =>
          var width := env.ctx.target.Width(e.ty.kind);
          if TypeAt(f2, a) == TypeAt(f2, b) == I(width) then
            Code(ops + more + [ArithI(f2.Next(), ChooseArith(e.op), width, a, b)],
                 f2.Define(I(width)), f2.Next())
          else Refused
  }

  function EmitCall(env: Env, f: Frame, e: Expr): CallCode
    requires env.ctx.target.Valid() && e.Call?
    decreases e, 0
  {
    if e.callee == None || e.callee.value !in env.ctx.functions then CallRefused
    else
      var sig := env.ctx.functions[e.callee.value];
      if |e.args| != |sig.params| then CallRefused
      else
        match EmitArgs(env, f, e.args, sig.params)
        case ArgsRefused => CallRefused
        case ArgsCode(ops, f1, values) =>
          if sig.ret == Void then CallCode(ops + [CallOp(None, e.callee.value, values)], f1, None)
          else
            CallCode(ops + [CallOp(Some(f1.Next()), e.callee.value, values)],
                     f1.Define(I(env.ctx.target.Width(Int))), Some(f1.Next()))
  }

  function EmitArgs(env: Env, f: Frame, es: seq<Expr>, params: seq<CType>): ArgsCode
    requires env.ctx.target.Valid() && |es| == |params|
    decreases es, 0
  {
    if es == [] then ArgsCode([], f, [])
    else
      match EmitExpr(env, f, es[0])
      case Refused => ArgsRefused
      case Code(ops, f1, v) =>
        if Some(TypeAt(f1, v)) != LowerType(env.ctx.target, params[0]) then ArgsRefused
        else
          match EmitArgs(env, f1, es[1..], params[1..])
          case ArgsRefused => ArgsRefused
          case ArgsCode(more, f2, vs) => ArgsCode(ops + more, f2, [v] + vs)
  }

  /** An i1 value that is true when the expression is not zero. */
  function EmitCondition(env: Env, f: Frame, e: Expr): Code
    requires env.ctx.target.Valid()
  {
    match EmitExpr(env, f, e)
    case Refused => Refused
    case Code(ops, f1, v) =>
      if !TypeAt(f1, v).I? then Refused
      else if TypeAt(f1, v).width == 1 then Code(ops, f1, v)
      else
        var n := f1.Next();
        var width := TypeAt(f1, v).width;
        Code(ops + [ConstantInt(n, width, 0), CmpI(n + 1, NE, width, v, n)],
             f1.Define(I(width)).Define(I(1)), n + 1)
  }

  /** Storage for every scalar parameter among decls that has none yet. */
  function MaterializeAll(env: Env, f: Frame, decls: seq<Decl>): (Frame, seq<Op>)
    requires forall d :: d in decls ==> d in env.values
    decreases decls
  {
    if decls == [] then (f, [])
    else if decls[0].ty.Pointer? || decls[0] in f.storage then MaterializeAll(env, f, decls[1..])
    else
      var (f1, ops) := Materialize(env, f, decls[0]);
      var (f2, more) := MaterializeAll(env, f1, decls[1..]);
      (f2, ops + more)
  }

  // ----- statements -----

  datatype LoopTargets = LoopTargets(breakTarget: nat, continueTarget: nat)

  /** The generator's state while a body is emitted: the function's blocks, the block operations go to, the frame, and
      the targets of the enclosing loops. */
  datatype Gen = Gen(blocks: seq<Block>, cur: nat, frame: Frame, loops: seq<LoopTargets>) {
    function Ops(): seq<Op> { if cur < |blocks| then blocks[cur].ops else [] }
    function Append(ops: seq<Op>): Gen {
      if cur < |blocks| then this.(blocks := blocks[cur := Block(blocks[cur].ops + ops, blocks[cur].erased)])
      else this
    }
    function NewBlocks(n: nat): Gen {
      this.(blocks := blocks + seq(n, i => Block([], false)))
    }
    function At(b: nat): Gen { this.(cur := b) }
    function With(ops: seq<Op>, f: Frame): Gen { Append(ops).(frame := f) }
    function Erase(b: nat): Gen {
      if b < |blocks| then this.(blocks := blocks[b := Block([], true)]) else this
    }
    function Enter(t: LoopTargets): Gen { this.(loops := loops + [t]) }
    function Leave(): Gen {
      this.(loops := if loops == [] then [] else loops[..|loops| - 1])
    }
    predicate Terminated() { Ops() != [] && IsTerminator(Ops()[|Ops()| - 1]) }
  }

  predicate EnvOk(env: Env) {
    env.ctx.target.Valid() && forall d :: d in env.order ==> d in env.values
  }

  function EmitItems(env: Env, g: Gen, items: seq<Stmt>): Option<Gen>
    requires EnvOk(env)
    decreases items
  {
    if items == [] || g.Terminated() then Some(g)
    else
      match EmitItem(env, g, items[0])
      case None => None
      case Some(g1) => EmitItems(env, g1, items[1..])
  }

  function EmitItem(env: Env, g: Gen, stmt: Stmt): Option<Gen>
    requires EnvOk(env)
    decreases stmt, 2
  {
    match stmt
    case VarDecl(d, init) => EmitVar(env, g, d, init)
    case TypedefDecl => Some(g)
    case Compound(items) => EmitItems(env, g, items)
    case ExprStmt(e) => if e.None? then Some(g) else EmitExprStmt(env, g, e.value)
    case If(_, _, _) => EmitIf(env, g, stmt)
    case While(cond, body) => EmitWhile(env, g, stmt)
    case For(_, _, _, _) => EmitFor(env, g, stmt)
    case Break =>
      if g.loops == [] then None
      else Some(g.Append([Branch(g.loops[|g.loops| - 1].breakTarget)]))
    case Continue =>
      if g.loops == [] then None
      else Some(g.Append([Branch(g.loops[|g.loops| - 1].continueTarget)]))
    case Return(value) => EmitReturn(env, g, value)
    case OtherItem => None
  }

  function EmitVar(env: Env, g: Gen, d: Decl, init: Option<Expr>): Option<Gen>
    requires EnvOk(env)
  {
    if !d.automatic || d.ty.Pointer? then None
    else
      var t := LowerType(env.ctx.target, d.ty);
      if t.None? then None
      else
        var n := g.frame.Next();
        var f := Frame(g.frame.types + [Ptr(t.value)], g.frame.storage[d := Slot(n, t.value)]);
        if init.None? then Some(g.With([Alloca(n, t.value)], f))
        else
          match EmitExpr(env, f, init.value)
          case Refused => None
          case Code(ops, f1, v) =>
            if TypeAt(f1, v) != t.value then None
            else Some(g.With([Alloca(n, t.value)] + ops + [StoreOp(v, n)], f1))
  }

  /** An expression statement: a call may return nothing. */
  function EmitExprStmt(env: Env, g: Gen, e: Expr): Option<Gen>
    requires EnvOk(env)
  {
    if e.Call? then
      match EmitCall(env, g.frame, e)
      case CallRefused => None
      case CallCode(ops, f1, _) => Some(g.With(ops, f1))
    else
      match EmitExpr(env, g.frame, e)
      case Refused => None
      case Code(ops, f1, _) => Some(g.With(ops, f1))
  }

  function EmitReturn(env: Env, g: Gen, value: Option<Expr>): Option<Gen>
    requires EnvOk(env)
  {
    if value.None? then
      if env.result == None then Some(g.Append([ReturnOp(None)])) else None
    else
      match EmitExpr(env, g.frame, value.value)
      case Refused => None
      case Code(ops, f1, v) =>
        if env.result == Some(TypeAt(f1, v)) then Some(g.With(ops + [ReturnOp(Some(v))], f1)) else None
  }

  function MaterializeParameters(env: Env, g: Gen): Gen
    requires EnvOk(env)
  {
    var (f, ops) := MaterializeAll(env, g.frame, env.order);
    g.With(ops, f)
  }

  /** Closes the current block with a branch unless it already ends in a terminator. */
  function BranchIfOpen(g: Gen, target: nat): Gen {
    if g.Terminated() then g else g.Append([Branch(target)])
  }

  /** Code for a branch of an if: the statement in its own block, then a branch to the merge block unless control cannot
      reach its end. */
  datatype Arm = Arm(gen: Gen, continues: bool)

  function EmitArm(env: Env, g: Gen, b: nat, stmt: Stmt, mergeBlock: nat): Option<Arm>
    requires EnvOk(env)
    decreases stmt, 3
  {
    match EmitItem(env, g.At(b), stmt)
    case None => None
    case Some(g1) => Some(Arm(BranchIfOpen(g1, mergeBlock), !g1.Terminated()))
  }

  /** Parameters, condition, new blocks and the conditional branch. The then block comes first, the merge block last. */
  function EmitIfHead(env: Env, g: Gen, cond: Expr, hasElse: bool): Option<Gen>
    requires EnvOk(env)
  {
    var g0 := MaterializeParameters(env, g);
    match EmitCondition(env, g0.frame, cond)
    case Refused => None
    case Code(ops, f1, v) =>
      var b, n := |g0.blocks|, if hasElse then 3 else 2;
      Some(g0.With(ops, f1).NewBlocks(n).Append([CondBranch(v, b, b + 1)]))
  }

  function EmitIf(env: Env, g: Gen, stmt: Stmt): Option<Gen>
    requires EnvOk(env) && stmt.If?
    decreases stmt, 1
  {
    match EmitIfHead(env, g, stmt.cond, stmt.els.Some?)
    case None => None
    case Some(g1) =>
      if stmt.els.None? then EmitThen(env, g1, |g.blocks|, stmt.thn)
      else EmitThenElse(env, g1, |g.blocks|, stmt)
  }

  function EmitThen(env: Env, g: Gen, b: nat, thn: Stmt): Option<Gen>
    requires EnvOk(env)
    decreases thn, 4
  {
    match EmitArm(env, g, b, thn, b + 1)
    case None => None
    case Some(Arm(g1, _)) => Some(g1.At(b + 1))
  }

  /** The merge block is erased when neither arm reaches it. */
  function EmitThenElse(env: Env, g: Gen, b: nat, stmt: Stmt): Option<Gen>
    requires EnvOk(env) && stmt.If? && stmt.els.Some?
    decreases stmt, 0
  {
    match EmitArm(env, g, b, stmt.thn, b + 2)
    case None => None
    case Some(Arm(g1, thenContinues)) =>
      match EmitArm(env, g1, b + 1, stmt.els.value, b + 2)
      case None => None
      case Some(Arm(g2, elseContinues)) =>
        if !thenContinues && !elseContinues then Some(g2.Erase(b + 2)) else Some(g2.At(b + 2))
  }

  /** Creates a loop's blocks, branches to the first and moves there. */
  function LoopEntry(g: Gen, n: nat): Gen {
    g.NewBlocks(n).Append([Branch(|g.blocks|)]).At(|g.blocks|)
  }

  /** From the condition block: the test, then the body in its own block inside the loop's targets, then a branch to
      where the next iteration starts. */
  function EmitLoop(env: Env, g: Gen, test: Option<Expr>, body: Stmt, bodyBlock: nat, t: LoopTargets): Option<Gen>
    requires EnvOk(env)
    decreases body, 3
  {
    match EmitTest(env, g, test, bodyBlock, t.breakTarget)
    case None => None
    case Some(g1) =>
      match EmitItem(env, g1.At(bodyBlock).Enter(t), body)
      case None => None
      case Some(g2) => Some(BranchIfOpen(g2.Leave(), t.continueTarget))
  }

  function EmitWhile(env: Env, g: Gen, stmt: Stmt): Option<Gen>
    requires EnvOk(env) && stmt.While?
    decreases stmt, 1
  {
    var g0 := MaterializeParameters(env, g);
    var b := |g0.blocks|;
    match EmitLoop(env, LoopEntry(g0, 3), Some(stmt.cond), stmt.body, b + 1, LoopTargets(b + 2, b))
    case None => None
    case Some(g2) => Some(g2.At(b + 2))
  }

  function EmitFor(env: Env, g: Gen, stmt: Stmt): Option<Gen>
    requires EnvOk(env) && stmt.For?
    decreases stmt, 1
  {
    var start := if stmt.start.None? then Some(MaterializeParameters(env, g))
                 else EmitItem(env, MaterializeParameters(env, g), stmt.start.value);
    match start
    case None => None
    case Some(g0) => EmitForLoop(env, g0, stmt.test, stmt.incr, stmt.body)
  }

  /** A for loop after its initializer: condition, body, increment and exit blocks in that order. */
  function EmitForLoop(env: Env, g: Gen, test: Option<Expr>, incr: Option<Expr>, body: Stmt): Option<Gen>
    requires EnvOk(env)
    decreases body, 4
  {
    var b := |g.blocks|;
    match EmitLoop(env, LoopEntry(g, 4), test, body, b + 1, LoopTargets(b + 3, b + 2))
    case None => None
    case Some(g2) =>
      match EmitStep(env, g2.At(b + 2), incr)
      case None => None
      case Some(g3) => Some(g3.Append([Branch(b)]).At(b + 3))
  }

  /** The branch out of a loop's condition block; a missing test always enters the body. */
  function EmitTest(env: Env, g: Gen, test: Option<Expr>, bodyBlock: nat, exitBlock: nat): Option<Gen>
    requires EnvOk(env)
  {
    if test.None? then Some(g.Append([Branch(bodyBlock)]))
    else
      match EmitCondition(env, g.frame, test.value)
      case Refused => None
      case Code(ops, f1, v) => Some(g.With(ops + [CondBranch(v, bodyBlock, exitBlock)], f1))
  }

  function EmitStep(env: Env, g: Gen, incr: Option<Expr>): Option<Gen>
    requires EnvOk(env)
  {
    if incr.None? then Some(g) else EmitExprStmt(env, g, incr.value)
  }

  // ----- functions -----

  /** The entry block's arguments: one value per parameter, numbered in order. */
  function EntryFrame(target: Target, params: seq<CType>): Option<Frame>
    requires target.Valid()
  {
    if forall i :: 0 <= i < |params| ==> LowerType(target, params[i]).Some? then
      Some(Frame(seq(|params|, i requires 0 <= i < |params| => Lowered(target, params[i])), map[]))
    else None
  }

  function Lowered(target: Target, t: CType): MType
    requires target.Valid()
  {
    LowerType(target, t).UnwrapOr(I(0))
  }

  function EntryValues(params: seq<Decl>): map<Decl, nat>
    decreases params
  {
    if params == [] then map[] else EntryValues(params[..|params| - 1])[params[|params| - 1] := |params| - 1]
  }

  function FunctionEnv(ctx: Context, fn: Function, order: seq<Decl>): Env
    requires ctx.target.Valid()
  {
    Env(ctx, EntryValues(fn.params), order, if fn.ret == Void then None else LowerType(ctx.target, fn.ret))
  }

  function EntryGen(f: Frame): Gen {
    Gen([Block([], false)], 0, f, [])
  }

  /** The body of a definition, emitted into a fresh entry block with the declared signature's arguments. */
  function EmitBody(ctx: Context, fn: Function, order: seq<Decl>): Option<Gen>
    requires ctx.target.Valid() && forall d :: d in order ==> d in EntryValues(fn.params)
  {
    if fn.name !in ctx.functions || |fn.params| != |ctx.functions[fn.name].params| then None
    else
      match EntryFrame(ctx.target, ctx.functions[fn.name].params)
      case None => None
      case Some(f) => EmitItems(FunctionEnv(ctx, fn, order), EntryGen(f), fn.body)
  }

  /** Adds the return that a body may leave out: of nothing, or of zero from main. */
  function CloseBody(ctx: Context, fn: Function, g: Gen): Option<Gen>
    requires ctx.target.Valid()
  {
    if g.Terminated() then Some(g)
    else if fn.ret == Void then Some(g.Append([ReturnOp(None)]))
    else if fn.name == "main" then
      var n := g.frame.Next();
      Some(g.Append([ConstantInt(n, Lowered(ctx.target, fn.ret).WidthOr(0), 0), ReturnOp(Some(n))]))
    else None
  }

  /** The blocks of a function definition, or None when generation reports an error. */
  function EmitFunction(ctx: Context, fn: Function, order: seq<Decl>): Option<seq<Block>>
    requires ctx.target.Valid() && forall d :: d in order ==> d in EntryValues(fn.params)
  {
    match EmitBody(ctx, fn, order)
    case None => None
    case Some(g) =>
      match CloseBody(ctx, fn, g)
      case None => None
      case Some(g1) => Some(g1.blocks)
  }
}
