/** Lazy parameter storage. A parameter stays an SSA value only in the entry block: before a statement opens another
    block every scalar parameter gets its slot, so nothing outside the entry block reads an integer argument, and no
    slot is first created inside a branch or a loop. */
module ParameterStorage {
  import opened CAst
  import opened Wrappers
  import opened Contract
  import opened Ir
  import opened Lowering
  import opened ExprSimulation
  import opened Shape
  import opened Unit

  /** No operation reads a value of a. */
  ghost predicate Clear(ops: seq<Op>, a: set<nat>) {
    forall i :: 0 <= i < |ops| ==> Uses(ops[i]) !! a
  }

  /** Every scalar parameter has its slot. */
  ghost predicate Stored(env: Env, f: Frame) {
    forall d :: d in env.values ==> d in f.storage || d.ty.Pointer?
  }

  /** a holds integers only. */
  ghost predicate Integers(f: Frame, a: set<nat>) {
    forall x :: x in a ==> x < |f.types| && f.types[x].I?
  }

  ghost predicate StoredFrame(env: Env, f: Frame, a: set<nat>) {
    FrameOk(env, f) && Stored(env, f) && Integers(f, a)
  }

  lemma {:induction false} ClearThen(ops: seq<Op>, more: seq<Op>, a: set<nat>)
    requires Clear(ops, a) && Clear(more, a)
    ensures Clear(ops + more, a)
  {
  }

  // ----- expressions -----

  lemma {:induction false} ExprClear(env: Env, f: Frame, e: Expr, a: set<nat>)
    requires StoredFrame(env, f, a) && EmitExpr(env, f, e).Code?
    ensures var code := EmitExpr(env, f, e);
            Clear(code.ops, a) && code.value !in a && code.frame.storage == f.storage && StoredFrame(env, code.frame, a)
    decreases e, 1
  {
    ExprShape(env, f, e);
    match e
    case IntLit(_, _) =>
    case Ident(d) =>
      if d in f.storage { assert SlotOk(env, f, d); }
    case AddrOf(operand, _) => PlaceClear(env, f, operand, a);
    case Deref(_, _) => PlaceClear(env, f, e, a);
    case Cast(_, _, _) => CastClear(env, f, e, a);
    case Call(_, _, _) => CallClear(env, f, e, a);
    case Binary(op, _, _, _) =>
      if op == Assign { AssignClear(env, f, e, a); } else { OperandsClear(env, f, e, a); }
  }

  lemma {:induction false} CastClear(env: Env, f: Frame, e: Expr, a: set<nat>)
    requires StoredFrame(env, f, a) && e.Cast? && EmitExpr(env, f, e).Code?
    ensures var code := EmitExpr(env, f, e);
            Clear(code.ops, a) && code.value !in a && code.frame.storage == f.storage && StoredFrame(env, code.frame, a)
    decreases e, 0
  {
    ExprClear(env, f, e.operand, a);
  }

  lemma {:induction false} OperandsClear(env: Env, f: Frame, e: Expr, a: set<nat>)
    requires StoredFrame(env, f, a) && e.Binary? && e.op != Assign && EmitExpr(env, f, e).Code?
    ensures var code := EmitExpr(env, f, e);
            Clear(code.ops, a) && code.value !in a && code.frame.storage == f.storage && StoredFrame(env, code.frame, a)
    decreases e, 0
  {
    var left := EmitExpr(env, f, e.lhs);
    ExprClear(env, f, e.lhs, a);
    ExprClear(env, left.frame, e.rhs, a);
    ClearThen(left.ops, EmitExpr(env, left.frame, e.rhs).ops, a);
  }

  lemma {:induction false} PlaceClear(env: Env, f: Frame, e: Expr, a: set<nat>)
    requires StoredFrame(env, f, a) && EmitPlace(env, f, e).PlaceCode?
    ensures var place := EmitPlace(env, f, e);
            && Clear(place.ops, a) && place.slot.base !in a && place.frame.storage == f.storage
            && StoredFrame(env, place.frame, a)
    decreases e, 0
  {
    match e
    case Deref(operand, _) => ExprClear(env, f, operand, a);
    case Ident(d) => assert SlotOk(env, f, d);
  }

  lemma {:induction false} AssignClear(env: Env, f: Frame, e: Expr, a: set<nat>)
    requires StoredFrame(env, f, a) && e.Binary? && EmitAssign(env, f, e).Code?
    ensures var code := EmitAssign(env, f, e);
            Clear(code.ops, a) && code.value !in a && code.frame.storage == f.storage && StoredFrame(env, code.frame, a)
    decreases e, 0
  {
    var place := EmitPlace(env, f, e.lhs);
    PlaceClear(env, f, e.lhs, a);
    ExprClear(env, place.frame, e.rhs, a);
  }

  lemma {:induction false} CallClear(env: Env, f: Frame, e: Expr, a: set<nat>)
    requires StoredFrame(env, f, a) && e.Call? && EmitCall(env, f, e).CallCode?
    ensures var code := EmitCall(env, f, e);
            && Clear(code.ops, a) && (code.value.Some? ==> code.value.value !in a)
            && code.frame.storage == f.storage && StoredFrame(env, code.frame, a)
    decreases e, 0
  {
    CallShape(env, f, e);
    ArgsClear(env, f, e.args, env.ctx.functions[e.callee.value].params, a);
  }

  lemma {:induction false} ArgsClear(env: Env, f: Frame, es: seq<Expr>, params: seq<CType>, a: set<nat>)
    requires StoredFrame(env, f, a) && |es| == |params| && EmitArgs(env, f, es, params).ArgsCode?
    ensures var code := EmitArgs(env, f, es, params);
            && Clear(code.ops, a) && (forall x :: x in code.values ==> x !in a)
            && code.frame.storage == f.storage && StoredFrame(env, code.frame, a)
    decreases es, 0
  {
    if es != [] {
      var first := EmitExpr(env, f, es[0]);
      ExprClear(env, f, es[0], a);
      ArgsClear(env, first.frame, es[1..], params[1..], a);
      ClearThen(first.ops, EmitArgs(env, first.frame, es[1..], params[1..]).ops, a);
    }
  }

  // ----- statements -----

  /** Outside the entry block nothing reads a, and control has left the entry block only if every scalar parameter has
      its slot. */
  ghost predicate EntryOnly(env: Env, g: Gen, a: set<nat>) {
    && GenOk(env, g) && Integers(g.frame, a) && (forall d :: d in env.values ==> d in env.order)
    && (g.cur == 0 || Stored(env, g.frame))
    && forall b :: 0 < b < |g.blocks| ==> Clear(g.blocks[b].ops, a)
  }

  ghost predicate Keeps(env: Env, g: Gen, g': Gen, a: set<nat>) {
    EntryOnly(env, g', a) && (Stored(env, g.frame) ==> Stored(env, g'.frame))
  }

  lemma {:induction false} AppendKeeps(env: Env, g: Gen, ops: seq<Op>, f: Frame, a: set<nat>)
    requires EntryOnly(env, g, a) && FrameOk(env, f) && Integers(f, a)
    requires Stored(env, g.frame) ==> Stored(env, f) && Clear(ops, a)
    ensures Keeps(env, g, g.With(ops, f), a)
  {
    if g.cur != 0 { ClearThen(g.Ops(), ops, a); }
  }

  /** Moving to another block, once every scalar parameter has its slot. */
  lemma {:induction false} MoveKeeps(env: Env, g: Gen, b: nat, loops: seq<LoopTargets>, a: set<nat>)
    requires EntryOnly(env, g, a) && b < |g.blocks| && Stored(env, g.frame)
    ensures EntryOnly(env, g.(cur := b, loops := loops), a) && EntryOnly(env, g.Erase(b), a)
  {
  }

  /** Creating blocks and closing the current one. */
  lemma {:induction false} BranchKeeps(env: Env, g: Gen, n: nat, op: Op, a: set<nat>)
    requires EntryOnly(env, g, a) && Stored(env, g.frame) && Uses(op) !! a
    ensures EntryOnly(env, g.NewBlocks(n).Append([op]), a) && EntryOnly(env, BranchIfOpen(g, n), a)
  {
    var g' := g.NewBlocks(n);
    assert forall b :: 0 < b < |g'.blocks| ==> Clear(g'.blocks[b].ops, a);
    if g.cur != 0 {
      ClearThen(g'.Ops(), [op], a);
      ClearThen(g.Ops(), [Branch(n)], a);
    }
  }

  lemma {:induction false} FrameKeeps(env: Env, f: Frame, ops: seq<Op>, f': Frame, a: set<nat>)
    requires Straight(env, f, ops, f') && Integers(f, a)
    ensures Integers(f', a) && (Stored(env, f) ==> Stored(env, f'))
  {
  }

  lemma {:induction false} ParametersKeeps(env: Env, g: Gen, a: set<nat>)
    requires EntryOnly(env, g, a)
    ensures EntryOnly(env, MaterializeParameters(env, g), a) && Stored(env, MaterializeParameters(env, g).frame)
  {
    var (f, ops) := MaterializeAll(env, g.frame, env.order);
    MaterializeAllShape(env, g.frame, env.order);
    FrameKeeps(env, g.frame, ops, f, a);
    if Stored(env, g.frame) { NothingLeft(env, g.frame, env.order); }
    AppendKeeps(env, g, ops, f, a);
  }

  lemma {:induction false} NothingLeft(env: Env, f: Frame, decls: seq<Decl>)
    requires Stored(env, f) && forall d :: d in decls ==> d in env.values
    ensures MaterializeAll(env, f, decls) == (f, [])
    decreases decls
  {
    if decls != [] { NothingLeft(env, f, decls[1..]); }
  }

  lemma {:induction false} VarKeeps(env: Env, g: Gen, d: Decl, init: Option<Expr>, a: set<nat>)
    requires EntryOnly(env, g, a) && EmitVar(env, g, d, init).Some?
    ensures Keeps(env, g, EmitVar(env, g, d, init).value, a)
  {
    var t := LowerType(env.ctx.target, d.ty).value;
    var f := LocalFrame(g.frame, d, t);
    LocalFrameOk(env, g.frame, d, t);
    var n := g.frame.Next();
    if init.None? {
      AppendKeeps(env, g, [Alloca(n, t)], f, a);
    } else {
      var code := EmitExpr(env, f, init.value);
      ExprShape(env, f, init.value);
      FrameKeeps(env, f, code.ops, code.frame, a);
      if Stored(env, g.frame) { ExprClear(env, f, init.value, a); }
      AppendKeeps(env, g, [Alloca(n, t)] + code.ops + [StoreOp(code.value, n)], code.frame, a);
    }
  }

  lemma {:induction false} ExprStmtKeeps(env: Env, g: Gen, e: Expr, a: set<nat>)
    requires EntryOnly(env, g, a) && EmitExprStmt(env, g, e).Some?
    ensures Keeps(env, g, EmitExprStmt(env, g, e).value, a)
  {
    if e.Call? {
      var code := EmitCall(env, g.frame, e);
      CallShape(env, g.frame, e);
      FrameKeeps(env, g.frame, code.ops, code.frame, a);
      if Stored(env, g.frame) { CallClear(env, g.frame, e, a); }
      AppendKeeps(env, g, code.ops, code.frame, a);
    } else {
      var code := EmitExpr(env, g.frame, e);
      ExprShape(env, g.frame, e);
      FrameKeeps(env, g.frame, code.ops, code.frame, a);
      if Stored(env, g.frame) { ExprClear(env, g.frame, e, a); }
      AppendKeeps(env, g, code.ops, code.frame, a);
    }
  }

  lemma {:induction false} ReturnKeeps(env: Env, g: Gen, value: Option<Expr>, a: set<nat>)
    requires EntryOnly(env, g, a) && EmitReturn(env, g, value).Some?
    ensures Keeps(env, g, EmitReturn(env, g, value).value, a)
  {
    if value.None? {
      AppendKeeps(env, g, [ReturnOp(None)], g.frame, a);
    } else {
      var code := EmitExpr(env, g.frame, value.value);
      ExprShape(env, g.frame, value.value);
      FrameKeeps(env, g.frame, code.ops, code.frame, a);
      if Stored(env, g.frame) { ExprClear(env, g.frame, value.value, a); }
      AppendKeeps(env, g, code.ops + [ReturnOp(Some(code.value))], code.frame, a);
    }
  }

  lemma {:induction false} ConditionKeeps(env: Env, g: Gen, e: Expr, a: set<nat>)
    requires EntryOnly(env, g, a) && Stored(env, g.frame) && EmitCondition(env, g.frame, e).Code?
    ensures var code := EmitCondition(env, g.frame, e);
            && EntryOnly(env, g.With(code.ops, code.frame), a) && Stored(env, code.frame) && code.value !in a
  {
    var code := EmitCondition(env, g.frame, e);
    ConditionShape(env, g.frame, e);
    FrameKeeps(env, g.frame, code.ops, code.frame, a);
    ExprClear(env, g.frame, e, a);
    AppendKeeps(env, g, code.ops, code.frame, a);
  }

  lemma {:induction false} ItemsKeeps(env: Env, g: Gen, items: seq<Stmt>, ret: CType, scope: set<Decl>, depth: nat,
                                      a: set<nat>)
    requires EntryOnly(env, g, a) && CheckedItems(env.ctx, ret, scope, depth, items) && EmitItems(env, g, items).Some?
    ensures Keeps(env, g, EmitItems(env, g, items).value, a)
    decreases items
  {
    hide FrameOk, Integers, Clear;
    if items != [] && !g.Terminated() {
      ItemKeeps(env, g, items[0], ret, scope, depth, a);
      var g1 := EmitItem(env, g, items[0]).value;
      ItemsKeeps(env, g1, items[1..], ret, ScopeAfter(scope, items[0]), depth, a);
    }
  }

  lemma {:induction false} ItemKeeps(env: Env, g: Gen, stmt: Stmt, ret: CType, scope: set<Decl>, depth: nat,
                                     a: set<nat>)
    requires EntryOnly(env, g, a) && CheckedStmt(env.ctx, ret, scope, depth, stmt) && EmitItem(env, g, stmt).Some?
    ensures Keeps(env, g, EmitItem(env, g, stmt).value, a)
    decreases stmt, 2
  {
    hide FrameOk, Integers;
    match stmt
    case VarDecl(d, init) => VarKeeps(env, g, d, init, a);
    case TypedefDecl =>
    case Compound(items) => ItemsKeeps(env, g, items, ret, scope, depth, a);
    case ExprStmt(e) => if e.Some? { ExprStmtKeeps(env, g, e.value, a); }
    case If(_, _, _) => IfKeeps(env, g, stmt, ret, scope, depth, a);
    case While(_, _) => WhileKeeps(env, g, stmt, ret, scope, depth, a);
    case For(_, _, _, _) => ForKeeps(env, g, stmt, ret, scope, depth, a);
    case Break => AppendKeeps(env, g, [Branch(g.loops[|g.loops| - 1].breakTarget)], g.frame, a);
    case Continue => AppendKeeps(env, g, [Branch(g.loops[|g.loops| - 1].continueTarget)], g.frame, a);
    case Return(value) => ReturnKeeps(env, g, value, a);
  }

  lemma {:induction false} IfKeeps(env: Env, g: Gen, stmt: Stmt, ret: CType, scope: set<Decl>, depth: nat, a: set<nat>)
    requires EntryOnly(env, g, a) && stmt.If? && CheckedStmt(env.ctx, ret, scope, depth, stmt)
    requires EmitIf(env, g, stmt).Some?
    ensures Keeps(env, g, EmitIf(env, g, stmt).value, a)
    decreases stmt, 1
  {
    hide FrameOk, Integers, Clear, EmitItem, EmitExpr, EmitIfHead;
    var g1, b := EmitIfHead(env, g, stmt.cond, stmt.els.Some?).value, |g.blocks|;
    HeadKeeps(env, g, stmt.cond, stmt.els.Some?, scope, a);
    ArmKeepsEntry(env, g1, b, stmt.thn, if stmt.els.Some? then b + 2 else b + 1, ret, scope, depth, a);
    if stmt.els.None? {
      var g2 := EmitArm(env, g1, b, stmt.thn, b + 1).value.gen;
      MoveKeeps(env, g2, b + 1, g2.loops, a);
    } else {
      var g2 := EmitArm(env, g1, b, stmt.thn, b + 2).value.gen;
      ArmKeepsEntry(env, g2, b + 1, stmt.els.value, b + 2, ret, scope, depth, a);
      var g3 := EmitArm(env, g2, b + 1, stmt.els.value, b + 2).value.gen;
      MoveKeeps(env, g3, b + 2, g3.loops, a);
    }
  }

  lemma {:induction false} HeadKeeps(env: Env, g: Gen, cond: Expr, hasElse: bool, scope: set<Decl>, a: set<nat>)
    requires EntryOnly(env, g, a) && EmitIfHead(env, g, cond, hasElse).Some?
    ensures var g1 := EmitIfHead(env, g, cond, hasElse).value;
            && EntryOnly(env, g1, a) && Stored(env, g1.frame) && |g.blocks| + (if hasElse then 3 else 2) == |g1.blocks|
  {
    hide FrameOk, Integers, Clear, EmitItem, EmitExpr;
    var g0 := MaterializeParameters(env, g);
    ParametersKeeps(env, g, a);
    ConditionKeeps(env, g0, cond, a);
    var code := EmitCondition(env, g0.frame, cond);
    var b, n := |g0.blocks|, if hasElse then 3 else 2;
    BranchKeeps(env, g0.With(code.ops, code.frame), n, CondBranch(code.value, b, b + 1), a);
    IfHeadShape(env, g, cond, hasElse, scope);
  }

  lemma {:induction false} ArmKeepsEntry(env: Env, g: Gen, b: nat, stmt: Stmt, merge: nat, ret: CType, scope: set<Decl>,
                                         depth: nat, a: set<nat>)
    requires EntryOnly(env, g, a) && Stored(env, g.frame) && b < |g.blocks|
    requires CheckedStmt(env.ctx, ret, scope, depth, stmt) && EmitArm(env, g, b, stmt, merge).Some?
    ensures var g' := EmitArm(env, g, b, stmt, merge).value.gen;
            EntryOnly(env, g', a) && Stored(env, g'.frame) && |g.blocks| <= |g'.blocks|
    decreases stmt, 3
  {
    hide FrameOk, Integers, Clear;
    MoveKeeps(env, g, b, g.loops, a);
    ItemKeeps(env, g.At(b), stmt, ret, scope, depth, a);
    ItemShape(env, g.At(b), stmt, ret, scope, depth);
    BranchKeeps(env, EmitItem(env, g.At(b), stmt).value, merge, Branch(merge), a);
  }

  lemma {:induction false} TestKeeps(env: Env, g: Gen, test: Option<Expr>, b: nat, exit: nat, a: set<nat>)
    requires EntryOnly(env, g, a) && Stored(env, g.frame) && EmitTest(env, g, test, b, exit).Some?
    ensures EntryOnly(env, EmitTest(env, g, test, b, exit).value, a)
    ensures Stored(env, EmitTest(env, g, test, b, exit).value.frame)
  {
    if test.None? {
      AppendKeeps(env, g, [Branch(b)], g.frame, a);
    } else {
      var code := EmitCondition(env, g.frame, test.value);
      ConditionKeeps(env, g, test.value, a);
      var op := CondBranch(code.value, b, exit);
      WithWith(g, code.ops, code.frame, [op], code.frame);
      AppendKeeps(env, g.With(code.ops, code.frame), [op], code.frame, a);
    }
  }

  lemma {:induction false} LoopKeepsEntry(env: Env, g: Gen, n: nat, test: Option<Expr>, body: Stmt, t: LoopTargets,
                                          ret: CType, inner: set<Decl>, depth: nat, a: set<nat>)
    requires EntryOnly(env, g, a) && Stored(env, g.frame) && n >= 3
    requires CheckedOption(env.ctx, inner, test) && CheckedStmt(env.ctx, ret, inner, depth + 1, body)
    requires EmitLoop(env, LoopEntry(g, n), test, body, |g.blocks| + 1, t).Some?
    ensures var g4 := EmitLoop(env, LoopEntry(g, n), test, body, |g.blocks| + 1, t).value;
            EntryOnly(env, g4, a) && Stored(env, g4.frame) && |g.blocks| + n <= |g4.blocks|
    decreases body, 3
  {
    hide FrameOk, Integers, Clear, EmitItem, EmitExpr, CheckedStmt, LoopEntry, EmitTest;
    var b := |g.blocks|;
    LoopStartKeeps(env, g, n, a);
    TestKeeps(env, LoopEntry(g, n), test, b + 1, t.breakTarget, a);
    TestShape(env, LoopEntry(g, n), test, b + 1, t.breakTarget, inner);
    var g2 := EmitTest(env, LoopEntry(g, n), test, b + 1, t.breakTarget).value;
    MoveKeeps(env, g2, b + 1, g2.loops + [t], a);
    ItemKeeps(env, g2.At(b + 1).Enter(t), body, ret, inner, depth + 1, a);
    ItemShape(env, g2.At(b + 1).Enter(t), body, ret, inner, depth + 1);
    var g3 := EmitItem(env, g2.At(b + 1).Enter(t), body).value;
    MoveKeeps(env, g3, g3.cur, g3.Leave().loops, a);
    BranchKeeps(env, g3.Leave(), t.continueTarget, Branch(t.continueTarget), a);
  }

  lemma {:induction false} LoopStartKeeps(env: Env, g: Gen, n: nat, a: set<nat>)
    requires EntryOnly(env, g, a) && Stored(env, g.frame) && n >= 3
    ensures var g1 := LoopEntry(g, n);
            EntryOnly(env, g1, a) && Stored(env, g1.frame) && g1.cur == |g.blocks| && |g1.blocks| == |g.blocks| + n
  {
    hide FrameOk, Integers, Clear;
    var b := |g.blocks|;
    BranchKeeps(env, g, n, Branch(b), a);
    var g1 := g.NewBlocks(n).Append([Branch(b)]);
    MoveKeeps(env, g1, b, g1.loops, a);
  }

  lemma {:induction false} WhileKeeps(env: Env, g: Gen, stmt: Stmt, ret: CType, scope: set<Decl>, depth: nat,
                                      a: set<nat>)
    requires EntryOnly(env, g, a) && stmt.While? && CheckedStmt(env.ctx, ret, scope, depth, stmt)
    requires EmitWhile(env, g, stmt).Some?
    ensures Keeps(env, g, EmitWhile(env, g, stmt).value, a)
    decreases stmt, 1
  {
    hide FrameOk, Integers, Clear, EmitItem, EmitExpr, EmitLoop, LoopEntry;
    var g0 := MaterializeParameters(env, g);
    ParametersKeeps(env, g, a);
    var b := |g0.blocks|;
    LoopKeepsEntry(env, g0, 3, Some(stmt.cond), stmt.body, LoopTargets(b + 2, b), ret, scope, depth, a);
    var g2 := EmitLoop(env, LoopEntry(g0, 3), Some(stmt.cond), stmt.body, b + 1, LoopTargets(b + 2, b)).value;
    MoveKeeps(env, g2, b + 2, g2.loops, a);
  }

  lemma {:induction false} ForKeeps(env: Env, g: Gen, stmt: Stmt, ret: CType, scope: set<Decl>, depth: nat, a: set<nat>)
    requires EntryOnly(env, g, a) && stmt.For? && CheckedStmt(env.ctx, ret, scope, depth, stmt)
    requires EmitFor(env, g, stmt).Some?
    ensures Keeps(env, g, EmitFor(env, g, stmt).value, a)
    decreases stmt, 1
  {
    hide FrameOk, Integers, Clear, EmitExpr;
    var gM := MaterializeParameters(env, g);
    ParametersKeeps(env, g, a);
    if stmt.start.Some? {
      ItemKeeps(env, gM, stmt.start.value, ret, scope, depth, a);
      ForLoopKeeps(env, EmitItem(env, gM, stmt.start.value).value, stmt.test, stmt.incr, stmt.body, ret,
                   ScopeAfter(scope, stmt.start.value), depth, a);
    } else {
      ForLoopKeeps(env, gM, stmt.test, stmt.incr, stmt.body, ret, scope, depth, a);
    }
  }

  lemma {:induction false} ForLoopKeeps(env: Env, g: Gen, test: Option<Expr>, incr: Option<Expr>, body: Stmt,
                                        ret: CType, inner: set<Decl>, depth: nat, a: set<nat>)
    requires EntryOnly(env, g, a) && Stored(env, g.frame) && EmitForLoop(env, g, test, incr, body).Some?
    requires CheckedOption(env.ctx, inner, test) && CheckedStmt(env.ctx, ret, inner, depth + 1, body)
    ensures var g' := EmitForLoop(env, g, test, incr, body).value; EntryOnly(env, g', a) && Stored(env, g'.frame)
    decreases body, 4
  {
    hide FrameOk, Integers, Clear, EmitItem, EmitExpr, CheckedStmt, EmitLoop, LoopEntry;
    var b := |g.blocks|;
    ForLoopParts(env, g, test, incr, body);
    LoopKeepsEntry(env, g, 4, test, body, LoopTargets(b + 3, b + 2), ret, inner, depth, a);
    var g2 := EmitLoop(env, LoopEntry(g, 4), test, body, b + 1, LoopTargets(b + 3, b + 2)).value;
    MoveKeeps(env, g2, b + 2, g2.loops, a);
    if incr.Some? {
      ExprStmtKeeps(env, g2.At(b + 2), incr.value, a);
      ExprStmtShape(env, g2.At(b + 2), incr.value, inner);
    }
    var g3 := EmitStep(env, g2.At(b + 2), incr).value;
    BranchKeeps(env, g3, 0, Branch(b), a);
    assert g3.NewBlocks(0).blocks == g3.blocks;
    MoveKeeps(env, g3.Append([Branch(b)]), b + 3, g3.loops, a);
  }

  // ----- functions -----

  /** The numbers of the integer parameters' entry arguments. */
  function IntegerArguments(params: seq<CType>): (a: set<nat>)
    ensures forall x :: x in a <==> 0 <= x < |params| && params[x].Integer?
    decreases params
  {
    if params == [] then {}
    else
      var n := |params| - 1;
      IntegerArguments(params[..n]) + if params[n].Integer? then {n} else {}
  }

  /** Outside the entry block, generated code reaches integer parameters through storage only. */
  lemma {:induction false} ParametersLiveInStorage(ctx: Context, fn: Function, order: seq<Decl>)
    requires UnitOk(ctx, fn, order) && EmitFunction(ctx, fn, order).Some?
    ensures var p := EmitFunction(ctx, fn, order).value;
            forall b, i, x :: 0 < b < |p| && 0 <= i < |p[b].ops| && x in Uses(p[b].ops[i]) ==>
              x >= |fn.params| || fn.params[x].ty.Pointer?
  {
    var params := ctx.functions[fn.name].params;
    var env, f, a := FunctionEnv(ctx, fn, order), EntryFrame(ctx.target, params).value, IntegerArguments(params);
    assert Declarable(ctx.target, ctx.functions[fn.name]);
    EntryFrameOk(ctx, fn, order, f);
    EntryValuesAt(fn.params);
    ItemsKeeps(env, EntryGen(f), fn.body, fn.ret, ParamSet(fn.params), 0, a);
    var g := EmitBody(ctx, fn, order).value;
    var p := EmitFunction(ctx, fn, order).value;
    CloseClear(ctx, fn, env, g, a);
    forall b, i, x | 0 < b < |p| && 0 <= i < |p[b].ops| && x in Uses(p[b].ops[i])
      ensures x >= |fn.params| || fn.params[x].ty.Pointer?
    {
      assert Clear(p[b].ops, a);
      if x < |params| { assert LowerType(ctx.target, params[x]).Some?; }
    }
  }

  lemma {:induction false} CloseClear(ctx: Context, fn: Function, env: Env, g: Gen, a: set<nat>)
    requires ctx.target.Valid() && EntryOnly(env, g, a) && CloseBody(ctx, fn, g).Some?
    ensures forall b :: 0 < b < |CloseBody(ctx, fn, g).value.blocks| ==>
        Clear(CloseBody(ctx, fn, g).value.blocks[b].ops, a)
  {
    var n := g.frame.Next();
    assert Clear([ReturnOp(None)], a);
    assert Clear([ConstantInt(n, Lowered(ctx.target, fn.ret).WidthOr(0), 0), ReturnOp(Some(n))], a);
  }
}
