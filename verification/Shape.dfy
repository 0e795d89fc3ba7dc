/** What emission does to the generator's state, whatever the program computes: blocks only grow at the insertion point,
    earlier values keep their numbers, variables in scope keep their slots, and the loop targets come back. */
module Shape {
  import opened CAst
  import opened Wrappers
  import opened Contract
  import opened Ir
  import opened Lowering
  import opened ExprSimulation

  // ----- expressions -----

  ghost predicate NoTerminators(ops: seq<Op>) {
    forall i :: 0 <= i < |ops| ==> !IsTerminator(ops[i])
  }

  /** Straight-line code from frame f to frame f'. */
  ghost predicate Straight(env: Env, f: Frame, ops: seq<Op>, f': Frame) {
    && FrameOk(env, f')
    && f.types <= f'.types
    && SlotsKept(f, f')
    && NoTerminators(ops)
  }

  lemma {:induction false} StraightThen(env: Env, f: Frame, a: seq<Op>, f1: Frame, b: seq<Op>, f2: Frame)
    requires Straight(env, f, a, f1) && Straight(env, f1, b, f2)
    ensures Straight(env, f, a + b, f2)
  {
  }

  lemma {:induction false} StraightDefine(env: Env, f: Frame, a: seq<Op>, f1: Frame, op: Op, t: MType)
    requires Straight(env, f, a, f1) && !IsTerminator(op)
    ensures Straight(env, f, a + [op], f1.Define(t))
  {
    assert forall d :: d in f1.storage ==> SlotOk(env, f1, d);
    assert forall d :: d in f1.Define(t).storage ==> SlotOk(env, f1.Define(t), d);
  }

  lemma {:induction false} MaterializeStraight(env: Env, f: Frame, d: Decl)
    requires FrameOk(env, f) && d in env.values && !d.ty.Pointer? && d !in f.storage
    ensures var (f', ops) := Materialize(env, f, d);
            Straight(env, f, ops, f') && d in f'.storage && SlotOk(env, f', d)
  {
    var (f', ops) := Materialize(env, f, d);
    forall d' | d' in f'.storage
      ensures SlotOk(env, f', d')
    {
      if d' != d { assert SlotOk(env, f, d'); }
    }
  }

  lemma {:induction false} ExprShape(env: Env, f: Frame, e: Expr)
    requires FrameOk(env, f) && EmitExpr(env, f, e).Code?
    ensures Straight(env, f, EmitExpr(env, f, e).ops, EmitExpr(env, f, e).frame)
    decreases e, 1
  {
    match e
    case IntLit(val, ty) =>
      var w := env.ctx.target.Width(ty.kind);
      StraightDefine(env, f, [], f, ConstantInt(f.Next(), w, val), I(w));
      assert [] + [ConstantInt(f.Next(), w, val)] == [ConstantInt(f.Next(), w, val)];
    case Ident(d) =>
      if d in f.storage {
        var op := LoadOp(f.Next(), f.storage[d].elem, f.storage[d].base);
        StraightDefine(env, f, [], f, op, f.storage[d].elem);
        assert [] + [op] == [op];
      }
    case AddrOf(operand, _) => PlaceShape(env, f, operand);
    case Deref(_, _) =>
      PlaceShape(env, f, e);
      var place := EmitPlace(env, f, e);
      StraightDefine(env, f, place.ops, place.frame,
                     LoadOp(place.frame.Next(), place.slot.elem, place.slot.base), place.slot.elem);
    case Cast(kind, operand, ty) =>
      ExprShape(env, f, operand);
      if kind == Arithmetic { ConversionShape(env, f, EmitExpr(env, f, operand), TypeOf(operand).kind, ty.kind); }
    case Call(_, _, _) => CallShape(env, f, e);
    case Binary(op, lhs, rhs, _) =>
      if op == Assign { AssignShape(env, f, e); } else { BinaryShape(env, f, e); }
  }

  lemma {:induction false} TwoDefines(env: Env, f: Frame, a: seq<Op>, f1: Frame, op: Op, t: MType, op': Op, t': MType)
    requires Straight(env, f, a, f1) && !IsTerminator(op) && !IsTerminator(op')
    ensures Straight(env, f, a + [op, op'], f1.Define(t).Define(t'))
  {
    StraightDefine(env, f, a, f1, op, t);
    StraightDefine(env, f, a + [op], f1.Define(t), op', t');
    assert a + [op, op'] == a + [op] + [op'];
  }

  lemma {:induction false} ConversionShape(env: Env, f: Frame, code: Code, source: IntKind, to: IntKind)
    requires code.Code? && Straight(env, f, code.ops, code.frame) && TypeAt(code.frame, code.value).I?
    ensures var c := EmitConversion(env, code.ops, code.frame, code.value, source, to);
            c.Code? && Straight(env, f, c.ops, c.frame)
  {
    var from, width := TypeAt(code.frame, code.value).width, env.ctx.target.Width(to);
    var n := code.frame.Next();
    if to == Bool {
      TwoDefines(env, f, code.ops, code.frame, ConstantInt(n, from, 0), I(from),
                 CmpI(n + 1, NE, from, code.value, n), I(1));
    } else {
      StraightDefine(env, f, code.ops, code.frame, ResizeOp(source, from, width, n, code.value), I(width));
    }
  }

  lemma {:induction false} PlaceShape(env: Env, f: Frame, e: Expr)
    requires FrameOk(env, f) && EmitPlace(env, f, e).PlaceCode?
    ensures Straight(env, f, EmitPlace(env, f, e).ops, EmitPlace(env, f, e).frame)
    decreases e, 0
  {
    match e
    case Deref(operand, _) => ExprShape(env, f, operand);
    case Ident(d) =>
      if d !in f.storage { MaterializeStraight(env, f, d); }
  }

  lemma {:induction false} AssignShape(env: Env, f: Frame, e: Expr)
    requires FrameOk(env, f) && e.Binary? && EmitAssign(env, f, e).Code?
    ensures Straight(env, f, EmitAssign(env, f, e).ops, EmitAssign(env, f, e).frame)
    decreases e, 0
  {
    var place := EmitPlace(env, f, e.lhs);
    PlaceShape(env, f, e.lhs);
    var code := EmitExpr(env, place.frame, e.rhs);
    ExprShape(env, place.frame, e.rhs);
    StraightThen(env, f, place.ops, place.frame, code.ops, code.frame);
  }

  lemma {:induction false} BinaryShape(env: Env, f: Frame, e: Expr)
    requires FrameOk(env, f) && e.Binary? && e.op != Assign && EmitExpr(env, f, e).Code?
    ensures Straight(env, f, EmitExpr(env, f, e).ops, EmitExpr(env, f, e).frame)
    decreases e, 0
  {
    var left := EmitExpr(env, f, e.lhs);
    ExprShape(env, f, e.lhs);
    var right := EmitExpr(env, left.frame, e.rhs);
    ExprShape(env, left.frame, e.rhs);
    StraightThen(env, f, left.ops, left.frame, right.ops, right.frame);
    var n := right.frame.Next();
    if IsComparison(e.op) {
      var width := env.ctx.target.Width(Int);
      TwoDefines(env, f, left.ops + right.ops, right.frame,
                 CmpI(n, ChoosePredicate(e.op, IsSigned(TypeOf(e.lhs).kind)), TypeAt(right.frame, left.value).width,
                      left.value, right.value), I(1),
                 ExtUI(n + 1, width, n), I(width));
    } else {
      var width := env.ctx.target.Width(e.ty.kind);
      StraightDefine(env, f, left.ops + right.ops, right.frame,
                     ArithI(n, ChooseArith(e.op), width, left.value, right.value), I(width));
    }
  }

  lemma {:induction false} CallShape(env: Env, f: Frame, e: Expr)
    requires FrameOk(env, f) && e.Call? && EmitCall(env, f, e).CallCode?
    ensures Straight(env, f, EmitCall(env, f, e).ops, EmitCall(env, f, e).frame)
    decreases e, 0
  {
    var callee, sig := e.callee.value, env.ctx.functions[e.callee.value];
    var code := EmitArgs(env, f, e.args, sig.params);
    ArgsShape(env, f, e.args, sig.params);
    StraightDefine(env, f, code.ops, code.frame, CallOp(Some(code.frame.Next()), callee, code.values),
                   I(env.ctx.target.Width(Int)));
  }

  lemma {:induction false} ArgsShape(env: Env, f: Frame, es: seq<Expr>, params: seq<CType>)
    requires FrameOk(env, f) && |es| == |params| && EmitArgs(env, f, es, params).ArgsCode?
    ensures Straight(env, f, EmitArgs(env, f, es, params).ops, EmitArgs(env, f, es, params).frame)
    decreases es, 0
  {
    if es != [] {
      var first := EmitExpr(env, f, es[0]);
      ExprShape(env, f, es[0]);
      var rest := EmitArgs(env, first.frame, es[1..], params[1..]);
      ArgsShape(env, first.frame, es[1..], params[1..]);
      StraightThen(env, f, first.ops, first.frame, rest.ops, rest.frame);
    }
  }

  lemma {:induction false} ConditionShape(env: Env, f: Frame, e: Expr)
    requires FrameOk(env, f) && EmitCondition(env, f, e).Code?
    ensures Straight(env, f, EmitCondition(env, f, e).ops, EmitCondition(env, f, e).frame)
  {
    var code := EmitExpr(env, f, e);
    ExprShape(env, f, e);
    var n, width := code.frame.Next(), TypeAt(code.frame, code.value).width;
    if width != 1 {
      TwoDefines(env, f, code.ops, code.frame, ConstantInt(n, width, 0), I(width),
                 CmpI(n + 1, NE, width, code.value, n), I(1));
    }
  }

  /** Every variable in scope either has its slot or is a pointer parameter, which never gets one. */
  ghost predicate Settled(scope: set<Decl>, f: Frame) {
    forall d :: d in scope ==> d in f.storage || d.ty.Pointer?
  }

  lemma {:induction false} MaterializeAllShape(env: Env, f: Frame, decls: seq<Decl>)
    requires FrameOk(env, f) && forall d :: d in decls ==> d in env.values
    ensures var (f', ops) := MaterializeAll(env, f, decls);
            && Straight(env, f, ops, f')
            && forall d :: d in decls ==> d in f'.storage || d.ty.Pointer?
    decreases decls
  {
    if decls != [] {
      if decls[0].ty.Pointer? || decls[0] in f.storage {
        MaterializeAllShape(env, f, decls[1..]);
      } else {
        var (f1, ops) := Materialize(env, f, decls[0]);
        MaterializeStraight(env, f, decls[0]);
        MaterializeAllShape(env, f1, decls[1..]);
        var (f2, more) := MaterializeAll(env, f1, decls[1..]);
        StraightThen(env, f, ops, f1, more, f2);
      }
    }
  }

  // ----- statements -----

  ghost predicate SlotsKeptOn(scope: set<Decl>, f: Frame, f': Frame) {
    forall d :: d in scope && d in f.storage ==> d in f'.storage && f'.storage[d] == f.storage[d]
  }

  ghost predicate GenOk(env: Env, g: Gen) {
    && EnvOk(env) && FrameOk(env, g.frame)
    && g.cur < |g.blocks|
  }

  /** g' is a later state than g. */
  ghost predicate Later(env: Env, scope: set<Decl>, g: Gen, g': Gen) {
    && GenOk(env, g')
    && |g.blocks| <= |g'.blocks|
    && (g'.cur == g.cur || g'.cur >= |g.blocks|)
    && (forall b :: 0 <= b < |g.blocks| && b != g.cur ==> g'.blocks[b] == g.blocks[b])
    && g.cur < |g.blocks|
    && g.Ops() <= g'.blocks[g.cur].ops
    && g'.blocks[g.cur].erased == g.blocks[g.cur].erased
    && g'.loops == g.loops
    && g.frame.types <= g'.frame.types
    && SlotsKeptOn(scope, g.frame, g'.frame)
  }

  lemma {:induction false} WithWith(g: Gen, a: seq<Op>, f: Frame, b: seq<Op>, f': Frame)
    ensures g.With(a, f).With(b, f') == g.With(a + b, f')
  {
    if g.cur < |g.blocks| { assert g.blocks[g.cur].ops + a + b == g.blocks[g.cur].ops + (a + b); }
  }

  lemma {:induction false} WithNothing(g: Gen)
    ensures g.With([], g.frame) == g
  {
    if g.cur < |g.blocks| { assert g.blocks[g.cur].ops + [] == g.blocks[g.cur].ops; }
  }

  lemma {:induction false} LaterTrans(env: Env, scope: set<Decl>, g: Gen, g1: Gen, scope1: set<Decl>, g2: Gen)
    requires Later(env, scope, g, g1) && Later(env, scope1, g1, g2) && scope <= scope1
    ensures Later(env, scope, g, g2)
  {
    hide FrameOk, EmitExpr;
    assert g.Ops() <= g1.blocks[g.cur].ops <= g2.blocks[g.cur].ops by {
      if g.cur == g1.cur { assert g1.Ops() == g1.blocks[g.cur].ops; }
    }
  }

  lemma {:induction false} WithLater(env: Env, scope: set<Decl>, g: Gen, ops: seq<Op>, f: Frame)
    requires GenOk(env, g) && FrameOk(env, f) && g.frame.types <= f.types && SlotsKeptOn(scope, g.frame, f)
    ensures Later(env, scope, g, g.With(ops, f))
    ensures g.With(ops, f).Ops() == g.Ops() + ops
  {
  }

  lemma {:induction false} ParametersLater(env: Env, scope: set<Decl>, g: Gen)
    requires GenOk(env, g)
    ensures Later(env, scope, g, MaterializeParameters(env, g))
    ensures forall d :: d in env.order ==> d in MaterializeParameters(env, g).frame.storage || d.ty.Pointer?
  {
    MaterializeAllShape(env, g.frame, env.order);
    var (f, ops) := MaterializeAll(env, g.frame, env.order);
    WithLater(env, scope, g, ops, f);
  }

  lemma {:induction false} ItemsShape(env: Env, g: Gen, items: seq<Stmt>, ret: CType, scope: set<Decl>, depth: nat)
    requires GenOk(env, g) && CheckedItems(env.ctx, ret, scope, depth, items) && EmitItems(env, g, items).Some?
    ensures Later(env, scope, g, EmitItems(env, g, items).value)
    decreases items
  {
    hide FrameOk, EmitExpr;
    if items != [] && !g.Terminated() {
      ItemShape(env, g, items[0], ret, scope, depth);
      var g1 := EmitItem(env, g, items[0]).value;
      var scope1 := ScopeAfter(scope, items[0]);
      ItemsShape(env, g1, items[1..], ret, scope1, depth);
      LaterTrans(env, scope, g, g1, scope1, EmitItems(env, g, items).value);
    }
  }

  lemma {:induction false} ItemShape(env: Env, g: Gen, stmt: Stmt, ret: CType, scope: set<Decl>, depth: nat)
    requires GenOk(env, g) && CheckedStmt(env.ctx, ret, scope, depth, stmt) && EmitItem(env, g, stmt).Some?
    ensures Later(env, scope, g, EmitItem(env, g, stmt).value)
    decreases stmt, 2
  {
    match stmt
    case VarDecl(d, init) => VarShape(env, g, d, init, scope);
    case TypedefDecl =>
    case Compound(items) => ItemsShape(env, g, items, ret, scope, depth);
    case ExprStmt(e) => if e.Some? { ExprStmtShape(env, g, e.value, scope); }
    case If(_, _, _) => IfShape(env, g, stmt, ret, scope, depth);
    case While(_, _) => WhileShape(env, g, stmt, ret, scope, depth);
    case For(_, _, _, _) => ForShape(env, g, stmt, ret, scope, depth);
    case Break =>
    case Continue =>
    case Return(value) => ReturnShape(env, g, value, scope);
  }

  /** The frame once a local has its slot. */
  function LocalFrame(f: Frame, d: Decl, t: MType): Frame {
    Frame(f.types + [Ptr(t)], f.storage[d := Slot(f.Next(), t)])
  }

  lemma {:induction false} LocalFrameOk(env: Env, f: Frame, d: Decl, t: MType)
    requires FrameOk(env, f) && d.ty.Integer? && LowerType(env.ctx.target, d.ty) == Some(t)
    ensures FrameOk(env, LocalFrame(f, d, t)) && SlotOk(env, LocalFrame(f, d, t), d)
  {
    var f' := LocalFrame(f, d, t);
    forall d' | d' in f'.storage
      ensures SlotOk(env, f', d')
    {
      if d' != d { assert SlotOk(env, f, d'); }
    }
  }

  lemma {:induction false} VarShape(env: Env, g: Gen, d: Decl, init: Option<Expr>, scope: set<Decl>)
    requires GenOk(env, g) && d !in scope && EmitVar(env, g, d, init).Some?
    ensures Later(env, scope, g, EmitVar(env, g, d, init).value)
  {
    var t := LowerType(env.ctx.target, d.ty).value;
    var f := LocalFrame(g.frame, d, t);
    LocalFrameOk(env, g.frame, d, t);
    var n := g.frame.Next();
    if init.None? {
      WithLater(env, scope, g, [Alloca(n, t)], f);
    } else {
      ExprShape(env, f, init.value);
      var code := EmitExpr(env, f, init.value);
      WithLater(env, scope, g, [Alloca(n, t)] + code.ops + [StoreOp(code.value, n)], code.frame);
    }
  }

  lemma {:induction false} ExprStmtShape(env: Env, g: Gen, e: Expr, scope: set<Decl>)
    requires GenOk(env, g) && EmitExprStmt(env, g, e).Some?
    ensures Later(env, scope, g, EmitExprStmt(env, g, e).value)
  {
    if e.Call? {
      CallShape(env, g.frame, e);
      var code := EmitCall(env, g.frame, e);
      WithLater(env, scope, g, code.ops, code.frame);
    } else {
      ExprShape(env, g.frame, e);
      var code := EmitExpr(env, g.frame, e);
      WithLater(env, scope, g, code.ops, code.frame);
    }
  }

  lemma {:induction false} ReturnShape(env: Env, g: Gen, value: Option<Expr>, scope: set<Decl>)
    requires GenOk(env, g) && EmitReturn(env, g, value).Some?
    ensures Later(env, scope, g, EmitReturn(env, g, value).value)
  {
    if value.Some? {
      ExprShape(env, g.frame, value.value);
      var code := EmitExpr(env, g.frame, value.value);
      WithLater(env, scope, g, code.ops + [ReturnOp(Some(code.value))], code.frame);
    }
  }

  lemma {:induction false} TestShape(env: Env, g: Gen, test: Option<Expr>, bodyBlock: nat, exitBlock: nat,
                                     scope: set<Decl>)
    requires GenOk(env, g) && EmitTest(env, g, test, bodyBlock, exitBlock).Some?
    ensures Later(env, scope, g, EmitTest(env, g, test, bodyBlock, exitBlock).value)
    ensures EmitTest(env, g, test, bodyBlock, exitBlock).value.cur == g.cur
    ensures |EmitTest(env, g, test, bodyBlock, exitBlock).value.blocks| == |g.blocks|
  {
    if test.Some? {
      ConditionShape(env, g.frame, test.value);
      var code := EmitCondition(env, g.frame, test.value);
      WithLater(env, scope, g, code.ops + [CondBranch(code.value, bodyBlock, exitBlock)], code.frame);
    }
  }

  /** Moving on to a block that was created empty. */
  ghost predicate Fresh(g: Gen, b: nat) {
    b < |g.blocks| && g.blocks[b] == Block([], false)
  }

  /** Work confined to blocks created after g: emission that starts in a new block keeps all of g's. */
  lemma {:induction false} NestedLater(env: Env, scope: set<Decl>, g: Gen, g1: Gen, b: nat, loops: seq<LoopTargets>,
                                       scope1: set<Decl>, g2: Gen)
    requires Later(env, scope, g, g1) && scope <= scope1
    requires |g.blocks| <= b < |g1.blocks|
    requires Later(env, scope1, g1.(cur := b, loops := loops), g2)
    ensures Later(env, scope, g, g2.(loops := g.loops))
  {
    hide FrameOk, EmitExpr;
    assert g.Ops() <= g1.blocks[g.cur].ops == g2.blocks[g.cur].ops;
  }

  lemma {:induction false} BranchIfOpenLater(env: Env, scope: set<Decl>, g: Gen, target: nat)
    requires GenOk(env, g)
    ensures Later(env, scope, g, BranchIfOpen(g, target))
    ensures BranchIfOpen(g, target).cur == g.cur && |BranchIfOpen(g, target).blocks| == |g.blocks|
  {
    WithLater(env, scope, g, [Branch(target)], g.frame);
  }

  lemma {:induction false} BranchOutLater(env: Env, scope: set<Decl>, g: Gen, n: nat, op: Op)
    requires GenOk(env, g)
    ensures Later(env, scope, g, g.NewBlocks(n).Append([op]))
    ensures forall b :: |g.blocks| <= b < |g.blocks| + n ==> Fresh(g.NewBlocks(n).Append([op]), b)
    ensures |g.NewBlocks(n).Append([op]).blocks| == |g.blocks| + n
  {
  }

  lemma {:induction false} IfHeadShape(env: Env, g: Gen, cond: Expr, hasElse: bool, scope: set<Decl>)
    requires GenOk(env, g) && EmitIfHead(env, g, cond, hasElse).Some?
    ensures var g1, n := EmitIfHead(env, g, cond, hasElse).value, if hasElse then 3 else 2;
            && Later(env, scope, g, g1)
            && g1.cur == g.cur && |g1.blocks| == |g.blocks| + n
            && (forall b :: |g.blocks| <= b < |g.blocks| + n ==> Fresh(g1, b))
  {
    hide FrameOk, EmitExpr;
    var g0 := MaterializeParameters(env, g);
    ParametersLater(env, scope, g);
    ConditionShape(env, g0.frame, cond);
    var code := EmitCondition(env, g0.frame, cond);
    var g1 := g0.With(code.ops, code.frame);
    WithLater(env, scope, g0, code.ops, code.frame);
    LaterTrans(env, scope, g, g0, scope, g1);
    var op := CondBranch(code.value, |g0.blocks|, |g0.blocks| + 1);
    BranchOutLater(env, scope, g1, if hasElse then 3 else 2, op);
    LaterTrans(env, scope, g, g1, scope, EmitIfHead(env, g, cond, hasElse).value);
  }

  lemma {:induction false} ArmShape(env: Env, g: Gen, g1: Gen, b: nat, stmt: Stmt, mergeBlock: nat, ret: CType,
                                    scope: set<Decl>, depth: nat)
    requires Later(env, scope, g, g1) && |g.blocks| <= b < |g1.blocks|
    requires CheckedStmt(env.ctx, ret, scope, depth, stmt) && EmitArm(env, g1, b, stmt, mergeBlock).Some?
    ensures Later(env, scope, g1.At(b), EmitArm(env, g1, b, stmt, mergeBlock).value.gen)
    ensures Later(env, scope, g, EmitArm(env, g1, b, stmt, mergeBlock).value.gen)
    decreases stmt, 3
  {
    hide FrameOk, EmitExpr;
    ItemShape(env, g1.At(b), stmt, ret, scope, depth);
    var g2 := EmitItem(env, g1.At(b), stmt).value;
    var g3 := BranchIfOpen(g2, mergeBlock);
    BranchIfOpenLater(env, scope, g2, mergeBlock);
    LaterTrans(env, scope, g1.At(b), g2, scope, g3);
    NestedLater(env, scope, g, g1, b, g1.loops, scope, g3);
  }

  lemma {:induction false} IfShape(env: Env, g: Gen, stmt: Stmt, ret: CType, scope: set<Decl>, depth: nat)
    requires GenOk(env, g) && stmt.If? && CheckedStmt(env.ctx, ret, scope, depth, stmt) && EmitIf(env, g, stmt).Some?
    ensures Later(env, scope, g, EmitIf(env, g, stmt).value)
    decreases stmt, 1
  {
    hide FrameOk, EmitExpr;
    IfHeadShape(env, g, stmt.cond, stmt.els.Some?, scope);
    var g1 := EmitIfHead(env, g, stmt.cond, stmt.els.Some?).value;
    if stmt.els.None? {
      ThenShape(env, g, g1, |g.blocks|, stmt.thn, ret, scope, depth);
    } else {
      ThenElseShape(env, g, g1, |g.blocks|, stmt, ret, scope, depth);
    }
  }

  lemma {:induction false} ThenShape(env: Env, g: Gen, g1: Gen, b: nat, thn: Stmt, ret: CType, scope: set<Decl>,
                                     depth: nat)
    requires Later(env, scope, g, g1) && |g.blocks| <= b && b + 1 < |g1.blocks|
    requires CheckedStmt(env.ctx, ret, scope, depth, thn) && EmitThen(env, g1, b, thn).Some?
    ensures Later(env, scope, g, EmitThen(env, g1, b, thn).value)
    decreases thn, 4
  {
    hide FrameOk, EmitExpr, EmitItem, EmitArm, CheckedStmt, SlotsKeptOn;
    ArmShape(env, g, g1, b, thn, b + 1, ret, scope, depth);
    JoinLater(env, scope, g, EmitArm(env, g1, b, thn, b + 1).value.gen, b + 1);
  }

  lemma {:induction false} ThenElseShape(env: Env, g: Gen, g1: Gen, b: nat, stmt: Stmt, ret: CType, scope: set<Decl>,
                                         depth: nat)
    requires Later(env, scope, g, g1) && |g.blocks| <= b && b + 2 < |g1.blocks| && stmt.If? && stmt.els.Some?
    requires CheckedStmt(env.ctx, ret, scope, depth, stmt.thn)
    requires CheckedStmt(env.ctx, ret, scope, depth, stmt.els.value)
    requires EmitThenElse(env, g1, b, stmt).Some?
    ensures Later(env, scope, g, EmitThenElse(env, g1, b, stmt).value)
    decreases stmt, 0
  {
    hide FrameOk, EmitExpr, EmitItem, EmitArm, CheckedStmt, SlotsKeptOn;
    ArmShape(env, g, g1, b, stmt.thn, b + 2, ret, scope, depth);
    var g2 := EmitArm(env, g1, b, stmt.thn, b + 2).value.gen;
    ArmShape(env, g, g2, b + 1, stmt.els.value, b + 2, ret, scope, depth);
    JoinLater(env, scope, g, EmitArm(env, g2, b + 1, stmt.els.value, b + 2).value.gen, b + 2);
  }

  lemma {:induction false} JoinLater(env: Env, scope: set<Decl>, g: Gen, g1: Gen, b: nat)
    requires Later(env, scope, g, g1) && |g.blocks| <= b < |g1.blocks|
    ensures Later(env, scope, g, g1.At(b)) && Later(env, scope, g, g1.Erase(b))
  {
  }

  /** Everything up to the branch that ends the body stays inside the blocks created for the loop. */
  lemma {:induction false} LoopShape(env: Env, g: Gen, g1: Gen, test: Option<Expr>, body: Stmt, bodyBlock: nat,
                                     t: LoopTargets, ret: CType, scope: set<Decl>, inner: set<Decl>, depth: nat)
    requires Later(env, scope, g, g1.At(g.cur)) && scope <= inner && g1.loops == g.loops
    requires |g.blocks| <= g1.cur < |g1.blocks| && |g.blocks| <= bodyBlock < |g1.blocks| && bodyBlock != g1.cur
    requires CheckedOption(env.ctx, inner, test) && CheckedStmt(env.ctx, ret, inner, depth + 1, body)
    requires EmitLoop(env, g1, test, body, bodyBlock, t).Some?
    ensures var g2 := EmitTest(env, g1, test, bodyBlock, t.breakTarget).value;
            && Later(env, inner, g1, g2) && g2.cur == g1.cur && |g2.blocks| == |g1.blocks|
            && Later(env, inner, g2.At(bodyBlock).Enter(t), EmitItem(env, g2.At(bodyBlock).Enter(t), body).value)
    ensures var g4 := EmitLoop(env, g1, test, body, bodyBlock, t).value;
            && Later(env, scope, g, g4)
            && (forall b :: 0 <= b < |g1.blocks| && b != g1.cur && b != bodyBlock ==> g4.blocks[b] == g1.blocks[b])
            && |g1.blocks| <= |g4.blocks|
            && SlotsKeptOn(inner, g1.frame, g4.frame)
    decreases body, 3
  {
    hide FrameOk, EmitExpr, EmitItem, CheckedStmt;
    TestShape(env, g1, test, bodyBlock, t.breakTarget, inner);
    var g2 := EmitTest(env, g1, test, bodyBlock, t.breakTarget).value;
    NestedLater(env, scope, g, g1.At(g.cur), g1.cur, g1.loops, inner, g2);
    var gB := g2.At(bodyBlock).Enter(t);
    ItemShape(env, gB, body, ret, inner, depth + 1);
    var g3 := EmitItem(env, gB, body).value;
    NestedLater(env, scope, g, g2, bodyBlock, gB.loops, inner, g3);
    assert g3.Leave().loops == g.loops;
    BranchIfOpenLater(env, scope, g3.Leave(), t.continueTarget);
    LaterTrans(env, scope, g, g3.Leave(), scope, BranchIfOpen(g3.Leave(), t.continueTarget));
  }

  lemma {:induction false} WhileShape(env: Env, g: Gen, stmt: Stmt, ret: CType, scope: set<Decl>, depth: nat)
    requires GenOk(env, g) && stmt.While? && CheckedStmt(env.ctx, ret, scope, depth, stmt)
    requires EmitWhile(env, g, stmt).Some?
    ensures Later(env, scope, g, EmitWhile(env, g, stmt).value)
    decreases stmt, 1
  {
    hide FrameOk, EmitExpr;
    var g0 := MaterializeParameters(env, g);
    ParametersLater(env, scope, g);
    var b := |g0.blocks|;
    LoopEntryLater(env, scope, g0, 3);
    LoopShape(env, g0, LoopEntry(g0, 3), Some(stmt.cond), stmt.body, b + 1, LoopTargets(b + 2, b), ret, scope, scope,
              depth);
    var g2 := EmitLoop(env, LoopEntry(g0, 3), Some(stmt.cond), stmt.body, b + 1, LoopTargets(b + 2, b)).value;
    LaterTrans(env, scope, g, g0, scope, g2);
    JoinLater(env, scope, g, g2, b + 2);
  }

  lemma {:induction false} LoopEntryLater(env: Env, scope: set<Decl>, g: Gen, n: nat)
    requires GenOk(env, g) && n > 0
    ensures Later(env, scope, g, LoopEntry(g, n).At(g.cur)) && LoopEntry(g, n).loops == g.loops
    ensures LoopEntry(g, n).cur == |g.blocks| && |LoopEntry(g, n).blocks| == |g.blocks| + n
    ensures forall b :: |g.blocks| <= b < |g.blocks| + n ==> Fresh(LoopEntry(g, n), b)
    ensures LoopEntry(g, n).frame == g.frame
  {
    BranchOutLater(env, scope, g, n, Branch(|g.blocks|));
  }

  lemma {:induction false} ForShape(env: Env, g: Gen, stmt: Stmt, ret: CType, scope: set<Decl>, depth: nat)
    requires GenOk(env, g) && stmt.For? && CheckedStmt(env.ctx, ret, scope, depth, stmt)
    requires EmitFor(env, g, stmt).Some?
    ensures Later(env, scope, g, EmitFor(env, g, stmt).value)
    decreases stmt, 1
  {
    hide FrameOk, EmitExpr;
    var gM := MaterializeParameters(env, g);
    ParametersLater(env, scope, g);
    if stmt.start.Some? {
      ItemShape(env, gM, stmt.start.value, ret, scope, depth);
      var g0 := EmitItem(env, gM, stmt.start.value).value;
      LaterTrans(env, scope, g, gM, scope, g0);
      ForLoopShape(env, g, g0, stmt.test, stmt.incr, stmt.body, ret, scope, ScopeAfter(scope, stmt.start.value), depth);
    } else {
      ForLoopShape(env, g, gM, stmt.test, stmt.incr, stmt.body, ret, scope, scope, depth);
    }
  }

  lemma {:induction false} ForLoopParts(env: Env, g: Gen, test: Option<Expr>, incr: Option<Expr>, body: Stmt)
    requires EnvOk(env) && EmitForLoop(env, g, test, incr, body).Some?
    ensures var b := |g.blocks|;
            var loop := EmitLoop(env, LoopEntry(g, 4), test, body, b + 1, LoopTargets(b + 3, b + 2));
            && loop.Some?
            && EmitStep(env, loop.value.At(b + 2), incr).Some?
            && EmitForLoop(env, g, test, incr, body).value
               == EmitStep(env, loop.value.At(b + 2), incr).value.Append([Branch(b)]).At(b + 3)
  {
  }

  lemma {:induction false} ForLoopShape(env: Env, g: Gen, g0: Gen, test: Option<Expr>, incr: Option<Expr>, body: Stmt,
                                        ret: CType, scope: set<Decl>, inner: set<Decl>, depth: nat)
    requires Later(env, scope, g, g0) && scope <= inner
    requires CheckedOption(env.ctx, inner, test)
    requires CheckedStmt(env.ctx, ret, inner, depth + 1, body) && EmitForLoop(env, g0, test, incr, body).Some?
    ensures Later(env, scope, g, EmitForLoop(env, g0, test, incr, body).value)
    decreases body, 5
  {
    hide FrameOk, EmitExpr, EmitItem, EmitTest, CheckedStmt, SlotsKeptOn, EmitLoop, EmitStep, LoopEntry;
    var b := |g0.blocks|;
    ForLoopParts(env, g0, test, incr, body);
    var loop := EmitLoop(env, LoopEntry(g0, 4), test, body, b + 1, LoopTargets(b + 3, b + 2));
    ForBodyShape(env, g, g0, test, body, ret, scope, inner, depth);
    StepShape(env, g, loop.value, b + 2, incr, b, b + 3, scope, inner);
  }

  lemma {:induction false} ForBodyShape(env: Env, g: Gen, g0: Gen, test: Option<Expr>, body: Stmt, ret: CType,
                                        scope: set<Decl>, inner: set<Decl>, depth: nat)
    requires Later(env, scope, g, g0) && scope <= inner
    requires CheckedOption(env.ctx, inner, test) && CheckedStmt(env.ctx, ret, inner, depth + 1, body)
    requires EmitLoop(env, LoopEntry(g0, 4), test, body, |g0.blocks| + 1,
                      LoopTargets(|g0.blocks| + 3, |g0.blocks| + 2)).Some?
    ensures var loop := EmitLoop(env, LoopEntry(g0, 4), test, body, |g0.blocks| + 1,
                                 LoopTargets(|g0.blocks| + 3, |g0.blocks| + 2));
            Later(env, scope, g, loop.value) && |g0.blocks| + 4 <= |loop.value.blocks|
    decreases body, 4
  {
    hide FrameOk, EmitExpr, EmitItem, EmitTest, CheckedStmt;
    var b := |g0.blocks|;
    var t := LoopTargets(b + 3, b + 2);
    LoopEntryLater(env, scope, g0, 4);
    LoopShape(env, g0, LoopEntry(g0, 4), test, body, b + 1, t, ret, scope, inner, depth);
    LaterTrans(env, scope, g, g0, scope, EmitLoop(env, LoopEntry(g0, 4), test, body, b + 1, t).value);
  }

  /** The increment in its own block, closed by the branch back. */
  lemma {:induction false} StepShape(env: Env, g: Gen, g1: Gen, b: nat, incr: Option<Expr>, target: nat, exit: nat,
                                     scope: set<Decl>, inner: set<Decl>)
    requires Later(env, scope, g, g1) && scope <= inner && |g.blocks| <= b < |g1.blocks|
    requires |g.blocks| <= exit < |g1.blocks| && EmitStep(env, g1.At(b), incr).Some?
    ensures var g2 := EmitStep(env, g1.At(b), incr).value;
            Later(env, inner, g1.At(b), g2) && Later(env, scope, g, g2.Append([Branch(target)]).At(exit))
  {
    hide FrameOk, EmitExpr;
    var g2 := EmitStep(env, g1.At(b), incr).value;
    if incr.Some? { ExprStmtShape(env, g1.At(b), incr.value, inner); }
    NestedLater(env, scope, g, g1, b, g1.loops, inner, g2);
    WithLater(env, scope, g2, [Branch(target)], g2.frame);
    LaterTrans(env, scope, g, g2, scope, g2.Append([Branch(target)]));
    JoinLater(env, scope, g, g2.Append([Branch(target)]), exit);
  }
}
