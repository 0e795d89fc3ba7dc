/** Where parameters get their storage: in the entry block, once, and before control can leave it. */
module ParameterSlots {
  import opened CAst
  import opened Wrappers
  import opened Contract
  import opened Ir
  import opened Lowering
  import opened ExprSimulation
  import opened Shape
  import opened Unit
  import opened Dominance
  import opened DominanceOfCode
  import opened ParameterStorage
  import opened Allocations

  /** The slot is allocated and receives the entry argument at once. */
  ghost predicate SlotMade(ops: seq<Op>, slot: Slot, arg: nat) {
    exists i :: 0 <= i < |ops| - 1 && ops[i] == Alloca(slot.base, slot.elem) && ops[i + 1] == StoreOp(arg, slot.base)
  }

  lemma {:induction false} SlotMadeWithin(a: seq<Op>, ops: seq<Op>, b: seq<Op>, slot: Slot, arg: nat)
    requires SlotMade(ops, slot, arg)
    ensures SlotMade(a + ops + b, slot, arg)
  {
    var i :| 0 <= i < |ops| - 1 && ops[i] == Alloca(slot.base, slot.elem) && ops[i + 1] == StoreOp(arg, slot.base);
    var all := a + ops + b;
    assert all[|a| + i] == ops[i] && all[|a| + i + 1] == ops[i + 1];
  }

  /** Each parameter with a slot in f' had it in f or gets it in ops. */
  ghost predicate NewSlots(env: Env, f: Frame, ops: seq<Op>, f': Frame) {
    forall d :: d in env.values && d in f'.storage ==>
      (d in f.storage && f.storage[d] == f'.storage[d]) || SlotMade(ops, f'.storage[d], env.values[d])
  }

  lemma {:induction false} NewSlotsThen(env: Env, f: Frame, a: seq<Op>, f1: Frame, b: seq<Op>, f2: Frame)
    requires NewSlots(env, f, a, f1) && NewSlots(env, f1, b, f2)
    ensures NewSlots(env, f, a + b, f2)
  {
    forall d | d in env.values && d in f2.storage && !(d in f.storage && f.storage[d] == f2.storage[d])
      ensures SlotMade(a + b, f2.storage[d], env.values[d])
    {
      if SlotMade(b, f2.storage[d], env.values[d]) {
        SlotMadeWithin(a, b, [], f2.storage[d], env.values[d]);
        assert a + b + [] == a + b;
      } else {
        SlotMadeWithin([], a, b, f2.storage[d], env.values[d]);
        assert [] + a + b == a + b;
      }
    }
  }

  /** Operations that leave storage alone. */
  lemma {:induction false} NewSlotsMore(env: Env, f: Frame, a: seq<Op>, f1: Frame, b: seq<Op>, f2: Frame)
    requires NewSlots(env, f, a, f1) && f2.storage == f1.storage
    ensures NewSlots(env, f, a + b, f2)
  {
    assert NewSlots(env, f1, b, f2);
    NewSlotsThen(env, f, a, f1, b, f2);
  }

  // ----- expressions -----

  lemma {:induction false} ExprSlots(env: Env, f: Frame, e: Expr)
    requires env.ctx.target.Valid() && EmitExpr(env, f, e).Code?
    ensures NewSlots(env, f, EmitExpr(env, f, e).ops, EmitExpr(env, f, e).frame)
    decreases e, 1
  {
    hide NewSlots;
    match e
    case IntLit(_, _) => NothingNew(env, f, EmitExpr(env, f, e).ops, EmitExpr(env, f, e).frame);
    case Ident(_) => NothingNew(env, f, EmitExpr(env, f, e).ops, EmitExpr(env, f, e).frame);
    case AddrOf(operand, _) => PlaceSlots(env, f, operand);
    case Deref(_, _) => {
      PlaceSlots(env, f, e);
      var place := EmitPlace(env, f, e);
      NewSlotsMore(env, f, place.ops, place.frame, [LoadOp(place.frame.Next(), place.slot.elem, place.slot.base)],
                   place.frame.Define(place.slot.elem));
    }
    case Cast(kind, operand, ty) => {
      ExprSlots(env, f, operand);
      if kind == Arithmetic { ConversionSlots(env, f, EmitExpr(env, f, operand), TypeOf(operand).kind, ty.kind); }
    }
    case Call(_, _, _) => CallSlots(env, f, e);
    case Binary(op, _, _, _) =>
      if op == Assign { AssignSlots(env, f, e); } else { OperandSlots(env, f, e); }
  }

  lemma {:induction false} NothingNew(env: Env, f: Frame, ops: seq<Op>, f': Frame)
    requires f'.storage == f.storage
    ensures NewSlots(env, f, ops, f')
  {
  }

  lemma {:induction false} ConversionSlots(env: Env, f: Frame, code: Code, source: IntKind, to: IntKind)
    requires env.ctx.target.Valid() && code.Code? && NewSlots(env, f, code.ops, code.frame)
    requires TypeAt(code.frame, code.value).I?
    ensures var c := EmitConversion(env, code.ops, code.frame, code.value, source, to);
            c.Code? && NewSlots(env, f, c.ops, c.frame)
  {
    hide NewSlots;
    var c := EmitConversion(env, code.ops, code.frame, code.value, source, to);
    NewSlotsMore(env, f, code.ops, code.frame, c.ops[|code.ops|..], c.frame);
    assert code.ops + c.ops[|code.ops|..] == c.ops;
  }

  lemma {:induction false} PlaceSlots(env: Env, f: Frame, e: Expr)
    requires env.ctx.target.Valid() && EmitPlace(env, f, e).PlaceCode?
    ensures NewSlots(env, f, EmitPlace(env, f, e).ops, EmitPlace(env, f, e).frame)
    decreases e, 0
  {
    match e
    case Deref(operand, _) => ExprSlots(env, f, operand);
    case Ident(d) => if d !in f.storage { MaterializeSlots(env, f, d); }
  }

  lemma {:induction false} MaterializeSlots(env: Env, f: Frame, d: Decl)
    requires d in env.values
    ensures NewSlots(env, f, Materialize(env, f, d).1, Materialize(env, f, d).0)
  {
    var (f', ops) := Materialize(env, f, d);
    assert ops[0] == Alloca(f'.storage[d].base, f'.storage[d].elem) &&
           ops[1] == StoreOp(env.values[d], f'.storage[d].base);
    assert SlotMade(ops, f'.storage[d], env.values[d]);
  }

  lemma {:induction false} AssignSlots(env: Env, f: Frame, e: Expr)
    requires env.ctx.target.Valid() && e.Binary? && EmitAssign(env, f, e).Code?
    ensures NewSlots(env, f, EmitAssign(env, f, e).ops, EmitAssign(env, f, e).frame)
    decreases e, 0
  {
    hide NewSlots;
    var place := EmitPlace(env, f, e.lhs);
    PlaceSlots(env, f, e.lhs);
    var code := EmitExpr(env, place.frame, e.rhs);
    ExprSlots(env, place.frame, e.rhs);
    NewSlotsThen(env, f, place.ops, place.frame, code.ops, code.frame);
    NewSlotsMore(env, f, place.ops + code.ops, code.frame, [StoreOp(code.value, place.slot.base)], code.frame);
  }

  lemma {:induction false} OperandSlots(env: Env, f: Frame, e: Expr)
    requires env.ctx.target.Valid() && e.Binary? && e.op != Assign && EmitExpr(env, f, e).Code?
    ensures NewSlots(env, f, EmitExpr(env, f, e).ops, EmitExpr(env, f, e).frame)
    decreases e, 0
  {
    hide NewSlots;
    var left := EmitExpr(env, f, e.lhs);
    ExprSlots(env, f, e.lhs);
    var right := EmitExpr(env, left.frame, e.rhs);
    ExprSlots(env, left.frame, e.rhs);
    NewSlotsThen(env, f, left.ops, left.frame, right.ops, right.frame);
    var both, code := left.ops + right.ops, EmitExpr(env, f, e);
    NewSlotsMore(env, f, both, right.frame, code.ops[|both|..], code.frame);
    assert both + code.ops[|both|..] == code.ops;
  }

  lemma {:induction false} CallSlots(env: Env, f: Frame, e: Expr)
    requires env.ctx.target.Valid() && e.Call? && EmitCall(env, f, e).CallCode?
    ensures NewSlots(env, f, EmitCall(env, f, e).ops, EmitCall(env, f, e).frame)
    decreases e, 0
  {
    hide NewSlots;
    var args, code := EmitArgs(env, f, e.args, env.ctx.functions[e.callee.value].params), EmitCall(env, f, e);
    ArgsSlots(env, f, e.args, env.ctx.functions[e.callee.value].params);
    NewSlotsMore(env, f, args.ops, args.frame, code.ops[|args.ops|..], code.frame);
    assert args.ops + code.ops[|args.ops|..] == code.ops;
  }

  lemma {:induction false} ArgsSlots(env: Env, f: Frame, es: seq<Expr>, params: seq<CType>)
    requires env.ctx.target.Valid() && |es| == |params| && EmitArgs(env, f, es, params).ArgsCode?
    ensures NewSlots(env, f, EmitArgs(env, f, es, params).ops, EmitArgs(env, f, es, params).frame)
    decreases es, 0
  {
    hide NewSlots;
    if es == [] {
      NothingNew(env, f, [], f);
    } else {
      var first := EmitExpr(env, f, es[0]);
      ExprSlots(env, f, es[0]);
      var rest := EmitArgs(env, first.frame, es[1..], params[1..]);
      ArgsSlots(env, first.frame, es[1..], params[1..]);
      NewSlotsThen(env, f, first.ops, first.frame, rest.ops, rest.frame);
    }
  }

  lemma {:induction false} AllSlots(env: Env, f: Frame, decls: seq<Decl>)
    requires forall d :: d in decls ==> d in env.values
    ensures var (f', ops) := MaterializeAll(env, f, decls); NewSlots(env, f, ops, f')
    decreases decls
  {
    hide NewSlots;
    if decls == [] {
      NothingNew(env, f, [], f);
    } else if decls[0].ty.Pointer? || decls[0] in f.storage {
      AllSlots(env, f, decls[1..]);
    } else {
      var (f1, ops) := Materialize(env, f, decls[0]);
      MaterializeSlots(env, f, decls[0]);
      AllSlots(env, f1, decls[1..]);
      var (f2, more) := MaterializeAll(env, f1, decls[1..]);
      NewSlotsThen(env, f, ops, f1, more, f2);
    }
  }

  // ----- statements -----

  /** Every parameter that has a slot got it in the entry block. */
  ghost predicate SlotsInEntry(env: Env, g: Gen) {
    |g.blocks| > 0 && forall d :: d in env.values && d in g.frame.storage ==>
      SlotMade(g.blocks[0].ops, g.frame.storage[d], env.values[d])
  }

  lemma {:induction false} AppendSlots(env: Env, g: Gen, ops: seq<Op>, f: Frame)
    requires SlotsInEntry(env, g) && g.cur == 0 && NewSlots(env, g.frame, ops, f)
    ensures SlotsInEntry(env, g.With(ops, f))
  {
    forall d | d in env.values && d in f.storage
      ensures SlotMade(g.Ops() + ops, f.storage[d], env.values[d])
    {
      if SlotMade(ops, f.storage[d], env.values[d]) {
        SlotMadeWithin(g.Ops(), ops, [], f.storage[d], env.values[d]);
        assert g.Ops() + ops + [] == g.Ops() + ops;
      } else {
        SlotMadeWithin([], g.Ops(), ops, f.storage[d], env.values[d]);
        assert [] + g.Ops() + ops == g.Ops() + ops;
      }
    }
  }

  lemma {:induction false} StoredSlot(env: Env, f: Frame, f': Frame, scope: set<Decl>, d: Decl)
    requires Stored(env, f) && FrameOk(env, f') && SlotsKeptOn(scope, f, f') && d in env.values && d in scope
    requires d in f'.storage
    ensures d in f.storage && f.storage[d] == f'.storage[d]
  {
    assert SlotOk(env, f', d);
  }

  /** Once every scalar parameter has its slot, nothing that follows changes that. */
  lemma {:induction false} LaterSlots(env: Env, scope: set<Decl>, g: Gen, g': Gen)
    requires SlotsInEntry(env, g) && Stored(env, g.frame) && Later(env, scope, g, g') &&
             forall d :: d in env.values ==> d in scope
    ensures SlotsInEntry(env, g')
  {
    hide FrameOk, Stored, SlotsKeptOn, SlotMade;
    var before, after := g.blocks[0].ops, g'.blocks[0].ops;
    assert before <= after;
    forall d | d in env.values && d in g'.frame.storage
      ensures SlotMade(after, g'.frame.storage[d], env.values[d])
    {
      StoredSlot(env, g.frame, g'.frame, scope, d);
      SlotMadeWithin([], before, after[|before|..], g.frame.storage[d], env.values[d]);
      assert [] + before + after[|before|..] == after;
    }
  }

  /** Where a statement may start: in the entry block, or after every scalar parameter got its slot. */
  ghost predicate Ready(env: Env, g: Gen, scope: set<Decl>) {
    && SlotsInEntry(env, g) && EntryOnly(env, g, {}) && (forall d :: d in env.values ==> d in scope)
  }

  lemma {:induction false} ItemsSlots(env: Env, g: Gen, items: seq<Stmt>, ret: CType, scope: set<Decl>, depth: nat)
    requires Ready(env, g, scope) && CheckedItems(env.ctx, ret, scope, depth, items) && EmitItems(env, g, items).Some?
    ensures SlotsInEntry(env, EmitItems(env, g, items).value)
    decreases items
  {
    hide SlotsInEntry, FrameOk, ParameterStorage.Integers, Clear;
    if items != [] && !g.Terminated() {
      ItemSlots(env, g, items[0], ret, scope, depth);
      ItemKeeps(env, g, items[0], ret, scope, depth, {});
      ItemsSlots(env, EmitItem(env, g, items[0]).value, items[1..], ret, ScopeAfter(scope, items[0]), depth);
    }
  }

  lemma {:induction false} ItemSlots(env: Env, g: Gen, stmt: Stmt, ret: CType, scope: set<Decl>, depth: nat)
    requires Ready(env, g, scope) && CheckedStmt(env.ctx, ret, scope, depth, stmt) && EmitItem(env, g, stmt).Some?
    ensures SlotsInEntry(env, EmitItem(env, g, stmt).value)
    decreases stmt
  {
    hide SlotsInEntry, FrameOk, ParameterStorage.Integers, Clear, Stored, Later;
    if g.cur != 0 {
      ItemShape(env, g, stmt, ret, scope, depth);
      LaterSlots(env, scope, g, EmitItem(env, g, stmt).value);
      return;
    }
    match stmt
    case VarDecl(d, init) => VarSlots(env, g, d, init, scope);
    case TypedefDecl =>
    case Compound(items) => ItemsSlots(env, g, items, ret, scope, depth);
    case ExprStmt(e) => if e.Some? { ExprStmtSlots(env, g, e.value); }
    case If(_, _, _) => ControlSlots(env, g, stmt, ret, scope, depth);
    case While(_, _) => ControlSlots(env, g, stmt, ret, scope, depth);
    case For(_, _, _, _) => ControlSlots(env, g, stmt, ret, scope, depth);
    case Break => JumpSlots(env, g, [Branch(g.loops[|g.loops| - 1].breakTarget)]);
    case Continue => JumpSlots(env, g, [Branch(g.loops[|g.loops| - 1].continueTarget)]);
    case Return(value) => ReturnSlots(env, g, value);
  }

  lemma {:induction false} JumpSlots(env: Env, g: Gen, ops: seq<Op>)
    requires SlotsInEntry(env, g) && g.cur == 0
    ensures SlotsInEntry(env, g.Append(ops))
  {
    NothingNew(env, g.frame, ops, g.frame);
    AppendSlots(env, g, ops, g.frame);
  }

  lemma {:induction false} VarSlots(env: Env, g: Gen, d: Decl, init: Option<Expr>, scope: set<Decl>)
    requires Ready(env, g, scope) && g.cur == 0 && d !in scope && EmitVar(env, g, d, init).Some?
    ensures SlotsInEntry(env, EmitVar(env, g, d, init).value)
  {
    hide SlotsInEntry;
    var t, n := LowerType(env.ctx.target, d.ty).value, g.frame.Next();
    var f := LocalFrame(g.frame, d, t);
    assert NewSlots(env, g.frame, [Alloca(n, t)], f);
    if init.None? {
      AppendSlots(env, g, [Alloca(n, t)], f);
    } else {
      var code := EmitExpr(env, f, init.value);
      ExprSlots(env, f, init.value);
      NewSlotsThen(env, g.frame, [Alloca(n, t)], f, code.ops, code.frame);
      NewSlotsMore(env, g.frame, [Alloca(n, t)] + code.ops, code.frame, [StoreOp(code.value, n)], code.frame);
      AppendSlots(env, g, [Alloca(n, t)] + code.ops + [StoreOp(code.value, n)], code.frame);
    }
  }

  lemma {:induction false} ExprStmtSlots(env: Env, g: Gen, e: Expr)
    requires EnvOk(env) && SlotsInEntry(env, g) && g.cur == 0 && EmitExprStmt(env, g, e).Some?
    ensures SlotsInEntry(env, EmitExprStmt(env, g, e).value)
  {
    hide SlotsInEntry, NewSlots;
    if e.Call? {
      CallSlots(env, g.frame, e);
      AppendSlots(env, g, EmitCall(env, g.frame, e).ops, EmitCall(env, g.frame, e).frame);
    } else {
      ExprSlots(env, g.frame, e);
      AppendSlots(env, g, EmitExpr(env, g.frame, e).ops, EmitExpr(env, g.frame, e).frame);
    }
  }

  lemma {:induction false} ReturnSlots(env: Env, g: Gen, value: Option<Expr>)
    requires EnvOk(env) && SlotsInEntry(env, g) && g.cur == 0 && EmitReturn(env, g, value).Some?
    ensures SlotsInEntry(env, EmitReturn(env, g, value).value)
  {
    hide SlotsInEntry, NewSlots;
    if value.None? {
      JumpSlots(env, g, [ReturnOp(None)]);
    } else {
      var code := EmitExpr(env, g.frame, value.value);
      ExprSlots(env, g.frame, value.value);
      NewSlotsMore(env, g.frame, code.ops, code.frame, [ReturnOp(Some(code.value))], code.frame);
      AppendSlots(env, g, code.ops + [ReturnOp(Some(code.value))], code.frame);
    }
  }

  /** Statements that open blocks first give every scalar parameter its slot; doing that twice changes nothing. */
  lemma {:induction false} ControlSlots(env: Env, g: Gen, stmt: Stmt, ret: CType, scope: set<Decl>, depth: nat)
    requires Ready(env, g, scope) && g.cur == 0 && (stmt.If? || stmt.While? || stmt.For?)
    requires CheckedStmt(env.ctx, ret, scope, depth, stmt) && EmitItem(env, g, stmt).Some?
    ensures SlotsInEntry(env, EmitItem(env, g, stmt).value)
  {
    hide SlotsInEntry, FrameOk, ParameterStorage.Integers, Clear, Later;
    var g0 := MaterializeParameters(env, g);
    ParametersKeeps(env, g, {});
    AllSlots(env, g.frame, env.order);
    var (f, ops) := MaterializeAll(env, g.frame, env.order);
    AppendSlots(env, g, ops, f);
    NothingLeft(env, f, env.order);
    WithNothing(g0);
    assert MaterializeParameters(env, g0) == g0;
    SameFromHere(env, g, g0, stmt);
    ItemShape(env, g0, stmt, ret, scope, depth);
    LaterSlots(env, scope, g0, EmitItem(env, g0, stmt).value);
  }

  lemma {:induction false} SameFromHere(env: Env, g: Gen, g0: Gen, stmt: Stmt)
    requires EnvOk(env) && g0 == MaterializeParameters(env, g) && MaterializeParameters(env, g0) == g0
    requires |g0.blocks| == |g.blocks|
    requires stmt.If? || stmt.While? || stmt.For?
    ensures EmitItem(env, g0, stmt) == EmitItem(env, g, stmt)
  {
  }

  // ----- functions -----

  /** Each parameter with a slot got it in these operations, for its own argument. */
  ghost predicate OwnSlots(ops: seq<Op>, f: Frame, params: seq<Decl>) {
    forall i :: 0 <= i < |params| && params[i] in f.storage ==> SlotMade(ops, f.storage[params[i]], i)
  }

  predicate AllStored(f: Frame, params: seq<Decl>) {
    forall d :: d in params ==> d in f.storage || d.ty.Pointer?
  }

  ghost predicate DistinctSlots(f: Frame, params: seq<Decl>) {
    forall d, d' ::
      (d in params && d' in params && d in f.storage && d' in f.storage && f.storage[d].base == f.storage[d'].base) ==>
        d == d'
  }

  lemma {:induction false} BodySlots(env: Env, f: Frame, params: seq<Decl>, body: seq<Stmt>, ret: CType)
    requires EnvOk(env) && FrameOk(env, f) && f.storage == map[] && env.values.Keys == ParamSet(params)
    requires (forall i :: 0 <= i < |params| ==> env.values[params[i]] == i) && forall d :: d in env.values ==>
        d in env.order
    requires CheckedItems(env.ctx, ret, ParamSet(params), 0, body) && EmitItems(env, EntryGen(f), body).Some?
    ensures var g := EmitItems(env, EntryGen(f), body).value;
            |g.blocks| > 0 && OwnSlots(g.blocks[0].ops, g.frame, params) && (g.cur != 0 ==> AllStored(g.frame, params))
  {
    hide SlotMade, CheckedItems, EmitItems, Clear;
    ItemsSlots(env, EntryGen(f), body, ret, ParamSet(params), 0);
    ItemsKeeps(env, EntryGen(f), body, ret, ParamSet(params), 0, {});
  }

  lemma {:induction false} SlotsLater(a: seq<Op>, b: seq<Op>, f: Frame, params: seq<Decl>)
    requires a <= b && OwnSlots(a, f, params)
    ensures OwnSlots(b, f, params)
  {
    forall i | 0 <= i < |params| && params[i] in f.storage
      ensures SlotMade(b, f.storage[params[i]], i)
    {
      SlotMadeWithin([], a, b[|a|..], f.storage[params[i]], i);
      assert [] + a + b[|a|..] == b;
    }
  }

  lemma {:induction false} OneSlotOnly(p: seq<Block>, args: nat, a: Slot, b: Slot, i: nat, j: nat)
    requires exists n :: Numbered(p, args, n)
    requires |p| > 0 && SlotMade(p[0].ops, a, i) && SlotMade(p[0].ops, b, j) && a.base == b.base
    ensures i == j
  {
  }

  lemma {:induction false} OwnSlotsDiffer(p: seq<Block>, f: Frame, params: seq<Decl>)
    requires (exists n :: Numbered(p, |params|, n)) && |p| > 0 && OwnSlots(p[0].ops, f, params)
    ensures DistinctSlots(f, params)
  {
    hide Numbered, SlotMade;
    forall d, d' | d in params && d' in params && d in f.storage && d' in f.storage &&
      f.storage[d].base == f.storage[d'].base
      ensures d == d'
    {
      var i :| 0 <= i < |params| && params[i] == d;
      var j :| 0 <= j < |params| && params[j] == d';
      OneSlotOnly(p, |params|, f.storage[d], f.storage[d'], i, j);
    }
  }

  /** Each scalar parameter has one slot at most: allocated in the entry block, filled there with the argument at once,
      its own, and in place before control leaves the entry block. The function allocates nothing but these slots and
      one other value for each declaration that control can reach, so that no parameter ever gets a second slot or
      shares one with a local. */
  lemma {:induction false} ParametersHaveOneSlot(ctx: Context, fn: Function, order: seq<Decl>)
    requires UnitOk(ctx, fn, order) && EmitFunction(ctx, fn, order).Some?
    ensures EmitBody(ctx, fn, order).Some? && |EmitFunction(ctx, fn, order).value| > 0
    ensures var p, g := EmitFunction(ctx, fn, order).value, EmitBody(ctx, fn, order).value;
            && OwnSlots(p[0].ops, g.frame, fn.params) && DistinctSlots(g.frame, fn.params)
            && (g.cur != 0 ==> AllStored(g.frame, fn.params))
            && AllocatesOnly(p, g.frame, fn.params, ReachedDeclarations(fn.body))
  {
    hide OwnSlots, FrameOk, CheckedItems, EmitItems, DistinctSlots, Numbered, DefinedBefore, AllStored, AllocatesOnly;
    var f := EntryFrame(ctx.target, ctx.functions[fn.name].params).value;
    assert Declarable(ctx.target, ctx.functions[fn.name]);
    EntryFrameOk(ctx, fn, order, f);
    EntryValuesAt(fn.params);
    BodySlots(FunctionEnv(ctx, fn, order), f, fn.params, fn.body, fn.ret);
    var p, g := EmitFunction(ctx, fn, order).value, EmitBody(ctx, fn, order).value;
    SlotsLater(g.blocks[0].ops, p[0].ops, g.frame, fn.params);
    DefinitionsDominateUses(ctx, fn, order);
    OwnSlotsDiffer(p, g.frame, fn.params);
    EverythingAccounted(ctx, fn, order);
  }
}
