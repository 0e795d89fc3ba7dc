/** What generated code allocates: one slot for each parameter that got one, and one for each local declaration that
    control can reach. Nothing is allocated twice, and nothing else is. */
module Allocations {
  import opened CAst
  import opened Wrappers
  import opened Contract
  import opened Ir
  import opened Lowering
  import opened ExprSimulation
  import opened Shape
  import opened Unit
  import opened Acceptance

  ghost predicate Allocates(ops: seq<Op>, x: nat) {
    exists i :: 0 <= i < |ops| && ops[i].Alloca? && ops[i].result == x
  }

  ghost predicate AllocatedIn(blocks: seq<Block>, x: nat) {
    exists b :: 0 <= b < |blocks| && Allocates(blocks[b].ops, x)
  }

  /** x is the slot of a parameter. */
  ghost predicate ParamSlot(env: Env, f: Frame, x: nat) {
    exists d :: d in env.values && d in f.storage && f.storage[d].base == x
  }

  /** How many declarations control can reach in a statement. */
  function Declarations(stmt: Stmt): nat {
    match stmt
    case VarDecl(_, _) => 1
    case Compound(items) => ReachedDeclarations(items)
    case If(_, thn, els) => Declarations(thn) + if els.Some? then Declarations(els.value) else 0
    case While(_, body) => Declarations(body)
    case For(start, _, _, body) => (if start.Some? then Declarations(start.value) else 0) + Declarations(body)
    case _ => 0
  }

  function ReachedDeclarations(items: seq<Stmt>): nat {
    if items == [] then 0
    else Declarations(items[0]) + if Falls(items[0]) then ReachedDeclarations(items[1..]) else 0
  }

  /** The allocations so far: the parameters' slots and, apart from those and from each other, the locals' slots. */
  ghost predicate Accounted(env: Env, blocks: seq<Block>, f: Frame, locals: seq<nat>) {
    && (forall x: nat :: AllocatedIn(blocks, x) <==> ParamSlot(env, f, x) || x in locals)
    && (forall x: nat :: x in locals ==> !ParamSlot(env, f, x) && x < |f.types|)
    && (forall x: nat :: ParamSlot(env, f, x) ==> x < |f.types|)
    && (forall i, j :: 0 <= i < j < |locals| ==> locals[i] != locals[j])
  }

  // ----- straight-line code -----

  /** Code that allocates new values, all of them slots of parameters. */
  ghost predicate NewAllocations(env: Env, f: Frame, ops: seq<Op>, f': Frame) {
    && |f.types| <= |f'.types|
    && (forall x: nat :: ParamSlot(env, f', x) <==> ParamSlot(env, f, x) || Allocates(ops, x))
    && (forall x: nat :: Allocates(ops, x) ==> |f.types| <= x < |f'.types|)
  }

  lemma {:induction false} AllocatesEither(a: seq<Op>, b: seq<Op>, x: nat)
    ensures Allocates(a + b, x) <==> Allocates(a, x) || Allocates(b, x)
  {
    if Allocates(a, x) {
      var i :| 0 <= i < |a| && a[i].Alloca? && a[i].result == x;
      assert (a + b)[i] == a[i];
    }
    if Allocates(b, x) {
      var i :| 0 <= i < |b| && b[i].Alloca? && b[i].result == x;
      assert (a + b)[|a| + i] == b[i];
    }
  }

  lemma {:induction false} AllocationsThen(env: Env, f: Frame, a: seq<Op>, f1: Frame, b: seq<Op>, f2: Frame)
    requires NewAllocations(env, f, a, f1) && NewAllocations(env, f1, b, f2)
    ensures NewAllocations(env, f, a + b, f2)
  {
    hide Allocates, ParamSlot;
    forall x: nat
      ensures ParamSlot(env, f2, x) <==> ParamSlot(env, f, x) || Allocates(a + b, x)
      ensures Allocates(a + b, x) ==> |f.types| <= x < |f2.types|
    {
      AllocatesEither(a, b, x);
    }
  }

  lemma {:induction false} NoAllocations(env: Env, f: Frame, ops: seq<Op>, f': Frame)
    requires f'.storage == f.storage && |f.types| <= |f'.types| && forall x: nat :: !Allocates(ops, x)
    ensures NewAllocations(env, f, ops, f')
  {
  }

  lemma {:induction false} AllocationsMore(env: Env, f: Frame, a: seq<Op>, f1: Frame, b: seq<Op>, f2: Frame)
    requires NewAllocations(env, f, a, f1) && f2.storage == f1.storage && |f1.types| <= |f2.types|
    requires forall i :: 0 <= i < |b| ==> !b[i].Alloca?
    ensures NewAllocations(env, f, a + b, f2)
  {
    hide NewAllocations;
    NoAllocations(env, f1, b, f2);
    AllocationsThen(env, f, a, f1, b, f2);
  }

  lemma {:induction false} ExprAllocations(env: Env, f: Frame, e: Expr)
    requires env.ctx.target.Valid() && EmitExpr(env, f, e).Code?
    ensures NewAllocations(env, f, EmitExpr(env, f, e).ops, EmitExpr(env, f, e).frame)
    decreases e, 1
  {
    hide NewAllocations;
    match e
    case IntLit(_, _) => NoAllocations(env, f, EmitExpr(env, f, e).ops, EmitExpr(env, f, e).frame);
    case Ident(_) => NoAllocations(env, f, EmitExpr(env, f, e).ops, EmitExpr(env, f, e).frame);
    case AddrOf(operand, _) => PlaceAllocations(env, f, operand);
    case Deref(_, _) => {
      PlaceAllocations(env, f, e);
      var place := EmitPlace(env, f, e);
      AllocationsMore(env, f, place.ops, place.frame,
                      [LoadOp(place.frame.Next(), place.slot.elem, place.slot.base)],
                      place.frame.Define(place.slot.elem));
    }
    case Cast(kind, operand, ty) => {
      ExprAllocations(env, f, operand);
      if kind == Arithmetic { ConversionAllocations(env, f, EmitExpr(env, f, operand), TypeOf(operand).kind, ty.kind); }
    }
    case Call(_, _, _) => CallAllocations(env, f, e);
    case Binary(op, _, _, _) =>
      if op == Assign { AssignAllocations(env, f, e); } else { OperandAllocations(env, f, e); }
  }

  lemma {:induction false} ConversionAllocations(env: Env, f: Frame, code: Code, source: IntKind, to: IntKind)
    requires env.ctx.target.Valid() && code.Code? && NewAllocations(env, f, code.ops, code.frame)
    requires TypeAt(code.frame, code.value).I?
    ensures var c := EmitConversion(env, code.ops, code.frame, code.value, source, to);
            c.Code? && NewAllocations(env, f, c.ops, c.frame)
  {
    hide NewAllocations;
    var c := EmitConversion(env, code.ops, code.frame, code.value, source, to);
    AllocationsMore(env, f, code.ops, code.frame, c.ops[|code.ops|..], c.frame);
    assert code.ops + c.ops[|code.ops|..] == c.ops;
  }

  lemma {:induction false} PlaceAllocations(env: Env, f: Frame, e: Expr)
    requires env.ctx.target.Valid() && EmitPlace(env, f, e).PlaceCode?
    ensures NewAllocations(env, f, EmitPlace(env, f, e).ops, EmitPlace(env, f, e).frame)
    decreases e, 0
  {
    hide NewAllocations;
    match e
    case Deref(operand, _) => ExprAllocations(env, f, operand);
    case Ident(d) => if d in f.storage { NoAllocations(env, f, [], f); } else { MaterializeAllocations(env, f, d); }
  }

  lemma {:induction false} MaterializeAllocations(env: Env, f: Frame, d: Decl)
    requires d in env.values && d !in f.storage
    ensures NewAllocations(env, f, Materialize(env, f, d).1, Materialize(env, f, d).0)
  {
    var (f', ops) := Materialize(env, f, d);
    var n := f.Next();
    assert ops[0].Alloca? && ops[0].result == n && !ops[1].Alloca? && |ops| == 2;
    assert Allocates(ops, n);
    assert d in f'.storage && f'.storage[d].base == n;
    forall x: nat
      ensures ParamSlot(env, f', x) <==> ParamSlot(env, f, x) || x == n
    {
      if ParamSlot(env, f, x) {
        var c :| c in env.values && c in f.storage && f.storage[c].base == x;
        assert c in f'.storage && f'.storage[c].base == x;
      }
    }
  }

  lemma {:induction false} AssignAllocations(env: Env, f: Frame, e: Expr)
    requires env.ctx.target.Valid() && e.Binary? && EmitAssign(env, f, e).Code?
    ensures NewAllocations(env, f, EmitAssign(env, f, e).ops, EmitAssign(env, f, e).frame)
    decreases e, 0
  {
    hide NewAllocations;
    var place := EmitPlace(env, f, e.lhs);
    PlaceAllocations(env, f, e.lhs);
    var code := EmitExpr(env, place.frame, e.rhs);
    ExprAllocations(env, place.frame, e.rhs);
    AllocationsThen(env, f, place.ops, place.frame, code.ops, code.frame);
    AllocationsMore(env, f, place.ops + code.ops, code.frame, [StoreOp(code.value, place.slot.base)], code.frame);
  }

  lemma {:induction false} OperandAllocations(env: Env, f: Frame, e: Expr)
    requires env.ctx.target.Valid() && e.Binary? && e.op != Assign && EmitExpr(env, f, e).Code?
    ensures NewAllocations(env, f, EmitExpr(env, f, e).ops, EmitExpr(env, f, e).frame)
    decreases e, 0
  {
    hide NewAllocations;
    var left := EmitExpr(env, f, e.lhs);
    ExprAllocations(env, f, e.lhs);
    var right := EmitExpr(env, left.frame, e.rhs);
    ExprAllocations(env, left.frame, e.rhs);
    AllocationsThen(env, f, left.ops, left.frame, right.ops, right.frame);
    var both, code := left.ops + right.ops, EmitExpr(env, f, e);
    AllocationsMore(env, f, both, right.frame, code.ops[|both|..], code.frame);
    assert both + code.ops[|both|..] == code.ops;
  }

  lemma {:induction false} CallAllocations(env: Env, f: Frame, e: Expr)
    requires env.ctx.target.Valid() && e.Call? && EmitCall(env, f, e).CallCode?
    ensures NewAllocations(env, f, EmitCall(env, f, e).ops, EmitCall(env, f, e).frame)
    decreases e, 0
  {
    hide NewAllocations;
    var args, code := EmitArgs(env, f, e.args, env.ctx.functions[e.callee.value].params), EmitCall(env, f, e);
    ArgsAllocations(env, f, e.args, env.ctx.functions[e.callee.value].params);
    AllocationsMore(env, f, args.ops, args.frame, code.ops[|args.ops|..], code.frame);
    assert args.ops + code.ops[|args.ops|..] == code.ops;
  }

  lemma {:induction false} ArgsAllocations(env: Env, f: Frame, es: seq<Expr>, params: seq<CType>)
    requires env.ctx.target.Valid() && |es| == |params| && EmitArgs(env, f, es, params).ArgsCode?
    ensures NewAllocations(env, f, EmitArgs(env, f, es, params).ops, EmitArgs(env, f, es, params).frame)
    decreases es, 0
  {
    hide NewAllocations;
    if es == [] {
      NoAllocations(env, f, [], f);
    } else {
      var first := EmitExpr(env, f, es[0]);
      ExprAllocations(env, f, es[0]);
      var rest := EmitArgs(env, first.frame, es[1..], params[1..]);
      ArgsAllocations(env, first.frame, es[1..], params[1..]);
      AllocationsThen(env, f, first.ops, first.frame, rest.ops, rest.frame);
    }
  }

  lemma {:induction false} AllAllocations(env: Env, f: Frame, decls: seq<Decl>)
    requires forall d :: d in decls ==> d in env.values
    ensures var (f', ops) := MaterializeAll(env, f, decls); NewAllocations(env, f, ops, f')
    decreases decls
  {
    hide NewAllocations;
    if decls == [] {
      NoAllocations(env, f, [], f);
    } else if decls[0].ty.Pointer? || decls[0] in f.storage {
      AllAllocations(env, f, decls[1..]);
    } else {
      var (f1, ops) := Materialize(env, f, decls[0]);
      MaterializeAllocations(env, f, decls[0]);
      AllAllocations(env, f1, decls[1..]);
      var (f2, more) := MaterializeAll(env, f1, decls[1..]);
      AllocationsThen(env, f, ops, f1, more, f2);
    }
  }

  lemma {:induction false} ConditionAllocations(env: Env, f: Frame, e: Expr)
    requires env.ctx.target.Valid() && EmitCondition(env, f, e).Code?
    ensures NewAllocations(env, f, EmitCondition(env, f, e).ops, EmitCondition(env, f, e).frame)
  {
    hide NewAllocations;
    var code, c := EmitExpr(env, f, e), EmitCondition(env, f, e);
    ExprAllocations(env, f, e);
    AllocationsMore(env, f, code.ops, code.frame, c.ops[|code.ops|..], c.frame);
    assert code.ops + c.ops[|code.ops|..] == c.ops;
  }

  // ----- blocks -----

  lemma {:induction false} AppendAllocates(g: Gen, ops: seq<Op>, x: nat)
    requires g.cur < |g.blocks|
    ensures AllocatedIn(g.Append(ops).blocks, x) <==> AllocatedIn(g.blocks, x) || Allocates(ops, x)
  {
    hide Allocates;
    var g' := g.Append(ops);
    AllocatesEither(g.Ops(), ops, x);
    if AllocatedIn(g.blocks, x) {
      var b :| 0 <= b < |g.blocks| && Allocates(g.blocks[b].ops, x);
      assert Allocates(g'.blocks[b].ops, x);
    }
    if Allocates(ops, x) { assert Allocates(g'.blocks[g.cur].ops, x); }
    if AllocatedIn(g'.blocks, x) {
      var b :| 0 <= b < |g'.blocks| && Allocates(g'.blocks[b].ops, x);
      if b != g.cur { assert Allocates(g.blocks[b].ops, x); }
    }
  }

  lemma {:induction false} NewBlocksAllocate(g: Gen, n: nat, x: nat)
    ensures AllocatedIn(g.NewBlocks(n).blocks, x) <==> AllocatedIn(g.blocks, x)
  {
    var g' := g.NewBlocks(n);
    if AllocatedIn(g.blocks, x) {
      var b :| 0 <= b < |g.blocks| && Allocates(g.blocks[b].ops, x);
      assert Allocates(g'.blocks[b].ops, x);
    }
    if AllocatedIn(g'.blocks, x) {
      var b :| 0 <= b < |g'.blocks| && Allocates(g'.blocks[b].ops, x);
      assert Allocates(g.blocks[b].ops, x);
    }
  }

  lemma {:induction false} EraseAllocates(g: Gen, b: nat, x: nat)
    requires Fresh(g, b)
    ensures AllocatedIn(g.Erase(b).blocks, x) <==> AllocatedIn(g.blocks, x)
  {
    var g' := g.Erase(b);
    assert forall k :: 0 <= k < |g.blocks| ==> g'.blocks[k].ops == g.blocks[k].ops;
    if AllocatedIn(g.blocks, x) {
      var k :| 0 <= k < |g.blocks| && Allocates(g.blocks[k].ops, x);
      assert Allocates(g'.blocks[k].ops, x);
    }
    if AllocatedIn(g'.blocks, x) {
      var k :| 0 <= k < |g'.blocks| && Allocates(g'.blocks[k].ops, x);
      assert Allocates(g.blocks[k].ops, x);
    }
  }

  lemma {:induction false} StraightAccounted(env: Env, g: Gen, ops: seq<Op>, f: Frame, locals: seq<nat>)
    requires g.cur < |g.blocks| && Accounted(env, g.blocks, g.frame, locals) && NewAllocations(env, g.frame, ops, f)
    ensures Accounted(env, g.With(ops, f).blocks, f, locals)
  {
    hide Allocates, AllocatedIn, ParamSlot;
    forall x: nat
      ensures AllocatedIn(g.With(ops, f).blocks, x) <==> AllocatedIn(g.blocks, x) || Allocates(ops, x)
    {
      AppendAllocates(g, ops, x);
    }
  }

  lemma {:induction false} JumpAccounted(env: Env, g: Gen, op: Op, locals: seq<nat>)
    requires g.cur < |g.blocks| && Accounted(env, g.blocks, g.frame, locals) && !op.Alloca?
    ensures Accounted(env, g.Append([op]).blocks, g.frame, locals)
  {
    hide Accounted;
    NoAllocations(env, g.frame, [op], g.frame);
    StraightAccounted(env, g, [op], g.frame, locals);
  }

  lemma {:induction false} NewBlocksAccounted(env: Env, g: Gen, n: nat, locals: seq<nat>)
    requires Accounted(env, g.blocks, g.frame, locals)
    ensures Accounted(env, g.NewBlocks(n).blocks, g.frame, locals)
  {
    hide AllocatedIn, ParamSlot;
    forall x: nat
      ensures AllocatedIn(g.NewBlocks(n).blocks, x) <==> AllocatedIn(g.blocks, x)
    {
      NewBlocksAllocate(g, n, x);
    }
  }

  lemma {:induction false} EraseAccounted(env: Env, g: Gen, b: nat, locals: seq<nat>)
    requires Accounted(env, g.blocks, g.frame, locals) && Fresh(g, b)
    ensures Accounted(env, g.Erase(b).blocks, g.frame, locals)
  {
    hide AllocatedIn, ParamSlot;
    forall x: nat
      ensures AllocatedIn(g.Erase(b).blocks, x) <==> AllocatedIn(g.blocks, x)
    {
      EraseAllocates(g, b, x);
    }
  }

  lemma {:induction false} ParametersAccounted(env: Env, g: Gen, locals: seq<nat>)
    requires EnvOk(env) && g.cur < |g.blocks| && Accounted(env, g.blocks, g.frame, locals)
    ensures var g' := MaterializeParameters(env, g); Accounted(env, g'.blocks, g'.frame, locals)
  {
    hide Accounted, NewAllocations;
    AllAllocations(env, g.frame, env.order);
    var (f, ops) := MaterializeAll(env, g.frame, env.order);
    StraightAccounted(env, g, ops, f, locals);
  }

  // ----- statements -----

  ghost predicate Begins(env: Env, g: Gen, ret: CType, scope: set<Decl>, depth: nat, locals: seq<nat>) {
    && Acceptance.Ready(env, g, ret, scope, depth) && (forall d :: d in env.values ==> d in scope)
    && Accounted(env, g.blocks, g.frame, locals)
  }

  /** A local's declaration allocates one value, which is no parameter's slot. */
  lemma {:induction false} LocalAccounted(env: Env, g: Gen, d: Decl, t: MType, locals: seq<nat>)
    requires g.cur < |g.blocks| && Accounted(env, g.blocks, g.frame, locals) && d !in env.values
    ensures Accounted(env, g.With([Alloca(g.frame.Next(), t)], LocalFrame(g.frame, d, t)).blocks,
                      LocalFrame(g.frame, d, t), locals + [g.frame.Next()])
  {
    hide Allocates, AllocatedIn, ParamSlot;
    var n, f, ops := g.frame.Next(), LocalFrame(g.frame, d, t), [Alloca(g.frame.Next(), t)];
    SameParamSlots(env, g.frame, f, d);
    forall x: nat
      ensures AllocatedIn(g.With(ops, f).blocks, x) <==> AllocatedIn(g.blocks, x) || x == n
    {
      AppendAllocates(g, ops, x);
      OneAllocation(n, t, x);
    }
    var all := locals + [n];
    assert forall x: nat :: x in all <==> x in locals || x == n;
    forall i, j | 0 <= i < j < |all|
      ensures all[i] != all[j]
    {
      assert locals[i] in locals;
    }
  }

  lemma {:induction false} OneAllocation(n: nat, t: MType, x: nat)
    ensures Allocates([Alloca(n, t)], x) <==> x == n
  {
    var ops := [Alloca(n, t)];
    assert ops[0].Alloca? && ops[0].result == n;
  }

  lemma {:induction false} SameParamSlots(env: Env, f: Frame, f': Frame, d: Decl)
    requires d !in env.values && d in f'.storage && f'.storage == f.storage[d := f'.storage[d]]
    ensures forall x: nat :: ParamSlot(env, f', x) <==> ParamSlot(env, f, x)
  {
    forall x: nat
      ensures ParamSlot(env, f', x) <==> ParamSlot(env, f, x)
    {
      if ParamSlot(env, f, x) {
        var c :| c in env.values && c in f.storage && f.storage[c].base == x;
        assert c in f'.storage && f'.storage[c].base == x;
      }
      if ParamSlot(env, f', x) {
        var c :| c in env.values && c in f'.storage && f'.storage[c].base == x;
        assert c in f.storage && f.storage[c].base == x;
      }
    }
  }

  lemma {:induction false} VarAccounted(env: Env, g: Gen, d: Decl, init: Option<Expr>, locals: seq<nat>)
    requires EnvOk(env) && g.cur < |g.blocks| && Accounted(env, g.blocks, g.frame, locals) && d !in env.values
    requires EmitVar(env, g, d, init).Some?
    ensures var g' := EmitVar(env, g, d, init).value; Accounted(env, g'.blocks, g'.frame, locals + [g.frame.Next()])
  {
    hide Accounted, NewAllocations;
    var t, n := LowerType(env.ctx.target, d.ty).value, g.frame.Next();
    var f := LocalFrame(g.frame, d, t);
    LocalAccounted(env, g, d, t, locals);
    if init.Some? {
      var code := EmitExpr(env, f, init.value);
      ExprAllocations(env, f, init.value);
      AllocationsMore(env, f, code.ops, code.frame, [StoreOp(code.value, n)], code.frame);
      StraightAccounted(env, g.With([Alloca(n, t)], f), code.ops + [StoreOp(code.value, n)], code.frame, locals + [n]);
      WithWith(g, [Alloca(n, t)], f, code.ops + [StoreOp(code.value, n)], code.frame);
      assert [Alloca(n, t)] + code.ops + [StoreOp(code.value, n)]
          == [Alloca(n, t)] + (code.ops + [StoreOp(code.value, n)]);
    }
  }

  lemma {:induction false} ExprStmtAccounted(env: Env, g: Gen, e: Expr, locals: seq<nat>)
    requires EnvOk(env) && g.cur < |g.blocks| && Accounted(env, g.blocks, g.frame, locals)
    requires EmitExprStmt(env, g, e).Some?
    ensures var g' := EmitExprStmt(env, g, e).value; Accounted(env, g'.blocks, g'.frame, locals)
  {
    hide Accounted, NewAllocations;
    if e.Call? {
      CallAllocations(env, g.frame, e);
      StraightAccounted(env, g, EmitCall(env, g.frame, e).ops, EmitCall(env, g.frame, e).frame, locals);
    } else {
      ExprAllocations(env, g.frame, e);
      StraightAccounted(env, g, EmitExpr(env, g.frame, e).ops, EmitExpr(env, g.frame, e).frame, locals);
    }
  }

  lemma {:induction false} ReturnAccounted(env: Env, g: Gen, value: Option<Expr>, locals: seq<nat>)
    requires EnvOk(env) && g.cur < |g.blocks| && Accounted(env, g.blocks, g.frame, locals)
    requires EmitReturn(env, g, value).Some?
    ensures var g' := EmitReturn(env, g, value).value; Accounted(env, g'.blocks, g'.frame, locals)
  {
    hide Accounted, NewAllocations;
    if value.None? {
      JumpAccounted(env, g, ReturnOp(None), locals);
    } else {
      var code := EmitExpr(env, g.frame, value.value);
      ExprAllocations(env, g.frame, value.value);
      AllocationsMore(env, g.frame, code.ops, code.frame, [ReturnOp(Some(code.value))], code.frame);
      StraightAccounted(env, g, code.ops + [ReturnOp(Some(code.value))], code.frame, locals);
    }
  }

  lemma {:induction false} ItemsAccounted(env: Env, g: Gen, items: seq<Stmt>, ret: CType, scope: set<Decl>, depth: nat,
                                          locals: seq<nat>)
    returns (more: seq<nat>)
    requires Begins(env, g, ret, scope, depth, locals) && CheckedItems(env.ctx, ret, scope, depth, items)
    requires EmitItems(env, g, items).Some?
    ensures |more| == ReachedDeclarations(items)
    ensures var g' := EmitItems(env, g, items).value; Accounted(env, g'.blocks, g'.frame, locals + more)
    decreases items
  {
    hide Accounted, FrameOk, Bound, ResultOk, EmitItem, CheckedStmt;
    more := [];
    if items == [] {
      assert locals + more == locals;
    } else {
      var g1 := EmitItem(env, g, items[0]).value;
      more := ItemAccounted(env, g, items[0], ret, scope, depth, locals);
      ItemJudged(env, g, items[0], ret, scope, depth);
      if Falls(items[0]) {
        var rest := ItemsAccounted(env, g1, items[1..], ret, ScopeAfter(scope, items[0]), depth, locals + more);
        assert locals + more + rest == locals + (more + rest);
        more := more + rest;
      } else {
        assert EmitItems(env, g1, items[1..]) == Some(g1);
      }
    }
  }

  lemma {:induction false} ItemAccounted(env: Env, g: Gen, stmt: Stmt, ret: CType, scope: set<Decl>, depth: nat,
                                         locals: seq<nat>)
    returns (more: seq<nat>)
    requires Begins(env, g, ret, scope, depth, locals) && CheckedStmt(env.ctx, ret, scope, depth, stmt)
    requires EmitItem(env, g, stmt).Some?
    ensures |more| == Declarations(stmt)
    ensures var g' := EmitItem(env, g, stmt).value; Accounted(env, g'.blocks, g'.frame, locals + more)
    decreases stmt, 2
  {
    hide Accounted, FrameOk, Bound, ResultOk;
    more := [];
    assert locals + more == locals;
    match stmt
    case VarDecl(d, init) => {
      VarAccounted(env, g, d, init, locals);
      more := [g.frame.Next()];
    }
    case TypedefDecl =>
    case Compound(items) => more := ItemsAccounted(env, g, items, ret, scope, depth, locals);
    case ExprStmt(e) => if e.Some? { ExprStmtAccounted(env, g, e.value, locals); }
    case If(_, _, _) => more := IfAccounted(env, g, stmt, ret, scope, depth, locals);
    case While(_, _) => more := WhileAccounted(env, g, stmt, ret, scope, depth, locals);
    case For(_, _, _, _) => more := ForAccounted(env, g, stmt, ret, scope, depth, locals);
    case Break => JumpAccounted(env, g, Branch(g.loops[|g.loops| - 1].breakTarget), locals);
    case Continue => JumpAccounted(env, g, Branch(g.loops[|g.loops| - 1].continueTarget), locals);
    case Return(value) => ReturnAccounted(env, g, value, locals);
  }

  lemma {:induction false} HeadAccounted(env: Env, g: Gen, cond: Expr, hasElse: bool, locals: seq<nat>)
    requires EnvOk(env) && g.cur < |g.blocks| && Accounted(env, g.blocks, g.frame, locals)
    requires EmitIfHead(env, g, cond, hasElse).Some?
    ensures var g' := EmitIfHead(env, g, cond, hasElse).value; Accounted(env, g'.blocks, g'.frame, locals)
  {
    hide Accounted, NewAllocations;
    var g0 := MaterializeParameters(env, g);
    ParametersAccounted(env, g, locals);
    ConditionAllocations(env, g0.frame, cond);
    var code := EmitCondition(env, g0.frame, cond);
    var b, n := |g0.blocks|, if hasElse then 3 else 2;
    var g1 := g0.With(code.ops, code.frame);
    StraightAccounted(env, g0, code.ops, code.frame, locals);
    NewBlocksAccounted(env, g1, n, locals);
    JumpAccounted(env, g1.NewBlocks(n), CondBranch(code.value, b, b + 1), locals);
  }

  lemma {:induction false} ArmAccounted(env: Env, g: Gen, b: nat, stmt: Stmt, merge: nat, ret: CType, scope: set<Decl>,
                                        depth: nat, locals: seq<nat>)
    returns (more: seq<nat>)
    requires Begins(env, g.At(b), ret, scope, depth, locals) && CheckedStmt(env.ctx, ret, scope, depth, stmt)
    requires EmitArm(env, g, b, stmt, merge).Some?
    ensures |more| == Declarations(stmt)
    ensures var g' := EmitArm(env, g, b, stmt, merge).value.gen; Accounted(env, g'.blocks, g'.frame, locals + more)
    decreases stmt, 3
  {
    hide Accounted, FrameOk, Bound, ResultOk, EmitItem, CheckedStmt, SlotsKeptOn;
    more := ItemAccounted(env, g.At(b), stmt, ret, scope, depth, locals);
    ItemShape(env, g.At(b), stmt, ret, scope, depth);
    var g1 := EmitItem(env, g.At(b), stmt).value;
    if !g1.Terminated() { JumpAccounted(env, g1, Branch(merge), locals + more); }
  }

  lemma {:induction false} IfAccounted(env: Env, g: Gen, stmt: Stmt, ret: CType, scope: set<Decl>, depth: nat,
                                       locals: seq<nat>)
    returns (more: seq<nat>)
    requires Begins(env, g, ret, scope, depth, locals) && stmt.If? && CheckedStmt(env.ctx, ret, scope, depth, stmt)
    requires EmitIf(env, g, stmt).Some?
    ensures |more| == Declarations(stmt)
    ensures var g' := EmitIf(env, g, stmt).value; Accounted(env, g'.blocks, g'.frame, locals + more)
    decreases stmt, 1
  {
    hide Accounted, FrameOk, Bound, ResultOk, EmitItem, EmitArm, SlotsKeptOn, EmitIfHead;
    var b, g1 := |g.blocks|, EmitIfHead(env, g, stmt.cond, stmt.els.Some?).value;
    HeadAccounted(env, g, stmt.cond, stmt.els.Some?, locals);
    IfHeadShape(env, g, stmt.cond, stmt.els.Some?, scope);
    assert Fresh(g1, b) && Fresh(g1, b + 1);
    WaitingLater(env, g, g1, b, ret, scope, depth);
    if stmt.els.None? {
      more := ArmAccounted(env, g1, b, stmt.thn, b + 1, ret, scope, depth, locals);
    } else {
      assert Fresh(g1, b + 2);
      more := ArmsAccounted(env, g, g1, stmt, ret, scope, depth, locals);
    }
  }

  lemma {:induction false} ArmsAccounted(env: Env, g: Gen, g1: Gen, stmt: Stmt, ret: CType, scope: set<Decl>,
                                         depth: nat, locals: seq<nat>)
    returns (more: seq<nat>)
    requires Begins(env, g, ret, scope, depth, locals) && Later(env, scope, g, g1) && stmt.If? && stmt.els.Some?
    requires CheckedStmt(env.ctx, ret, scope, depth, stmt.thn)
    requires CheckedStmt(env.ctx, ret, scope, depth, stmt.els.value)
    requires Accounted(env, g1.blocks, g1.frame, locals) && Waiting(env, g1, |g.blocks|, ret, scope, depth)
    requires Fresh(g1, |g.blocks| + 1) && Fresh(g1, |g.blocks| + 2)
    requires EmitThenElse(env, g1, |g.blocks|, stmt).Some?
    ensures |more| == Declarations(stmt.thn) + Declarations(stmt.els.value)
    ensures var g' := EmitThenElse(env, g1, |g.blocks|, stmt).value; Accounted(env, g'.blocks, g'.frame, locals + more)
    decreases stmt, 0
  {
    hide Accounted, FrameOk, Bound, ResultOk, EmitItem, EmitArm, SlotsKeptOn, CheckedStmt;
    var b := |g.blocks|;
    var first := ArmAccounted(env, g1, b, stmt.thn, b + 2, ret, scope, depth, locals);
    ArmShape(env, g, g1, b, stmt.thn, b + 2, ret, scope, depth);
    var g2 := EmitArm(env, g1, b, stmt.thn, b + 2).value.gen;
    WaitingLater(env, g, g2, b + 1, ret, scope, depth);
    var second := ArmAccounted(env, g2, b + 1, stmt.els.value, b + 2, ret, scope, depth, locals + first);
    ArmShape(env, g, g2, b + 1, stmt.els.value, b + 2, ret, scope, depth);
    var g3 := EmitArm(env, g2, b + 1, stmt.els.value, b + 2).value.gen;
    assert Fresh(g3, b + 2);
    EraseAccounted(env, g3, b + 2, locals + first + second);
    assert locals + first + second == locals + (first + second);
    more := first + second;
  }

  lemma {:induction false} EntryAccounted(env: Env, g: Gen, n: nat, locals: seq<nat>)
    requires g.cur < |g.blocks| && Accounted(env, g.blocks, g.frame, locals)
    ensures Accounted(env, LoopEntry(g, n).blocks, g.frame, locals)
  {
    hide Accounted;
    NewBlocksAccounted(env, g, n, locals);
    JumpAccounted(env, g.NewBlocks(n), Branch(|g.blocks|), locals);
  }

  lemma {:induction false} TestAccounted(env: Env, g: Gen, test: Option<Expr>, b: nat, exit: nat, locals: seq<nat>)
    requires EnvOk(env) && g.cur < |g.blocks| && Accounted(env, g.blocks, g.frame, locals)
    requires EmitTest(env, g, test, b, exit).Some?
    ensures var g' := EmitTest(env, g, test, b, exit).value; Accounted(env, g'.blocks, g'.frame, locals)
  {
    hide Accounted, NewAllocations;
    if test.None? {
      JumpAccounted(env, g, Branch(b), locals);
    } else {
      var code := EmitCondition(env, g.frame, test.value);
      ConditionAllocations(env, g.frame, test.value);
      AllocationsMore(env, g.frame, code.ops, code.frame, [CondBranch(code.value, b, exit)], code.frame);
      StraightAccounted(env, g, code.ops + [CondBranch(code.value, b, exit)], code.frame, locals);
    }
  }

  lemma {:induction false} LoopAccounted(env: Env, g: Gen, n: nat, test: Option<Expr>, body: Stmt, t: LoopTargets,
                                         ret: CType, inner: set<Decl>, depth: nat, locals: seq<nat>)
    returns (more: seq<nat>)
    requires Begins(env, g, ret, inner, depth, locals) && n >= 3
    requires CheckedOption(env.ctx, inner, test) && CheckedStmt(env.ctx, ret, inner, depth + 1, body)
    requires EmitLoop(env, LoopEntry(g, n), test, body, |g.blocks| + 1, t).Some?
    ensures |more| == Declarations(body)
    ensures var g' := EmitLoop(env, LoopEntry(g, n), test, body, |g.blocks| + 1, t).value;
            Accounted(env, g'.blocks, g'.frame, locals + more)
    decreases body, 4
  {
    hide Accounted, FrameOk, Bound, ResultOk, EmitItem, EmitTest, LoopEntry, SlotsKeptOn, CheckedStmt;
    var b, g1 := |g.blocks|, LoopEntry(g, n);
    EntryAccounted(env, g, n, locals);
    LoopEntryLater(env, inner, g, n);
    assert Fresh(g1, b) && Fresh(g1, b + 1);
    TestAccounted(env, g1, test, b + 1, t.breakTarget, locals);
    TestShape(env, g1, test, b + 1, t.breakTarget, inner);
    var g2 := EmitTest(env, g1, test, b + 1, t.breakTarget).value;
    WaitingLater(env, g, g1.At(g.cur), b, ret, inner, depth);
    WaitingLater(env, g1, g2, b + 1, ret, inner, depth);
    more := BodyAccounted(env, g2.At(b + 1), body, t, ret, inner, depth, locals);
  }

  lemma {:induction false} BodyAccounted(env: Env, g: Gen, body: Stmt, t: LoopTargets, ret: CType, inner: set<Decl>,
                                         depth: nat, locals: seq<nat>)
    returns (more: seq<nat>)
    requires Begins(env, g, ret, inner, depth, locals) && CheckedStmt(env.ctx, ret, inner, depth + 1, body)
    requires EmitItem(env, g.Enter(t), body).Some?
    ensures |more| == Declarations(body)
    ensures var g' := BranchIfOpen(EmitItem(env, g.Enter(t), body).value.Leave(), t.continueTarget);
            Accounted(env, g'.blocks, g'.frame, locals + more)
    decreases body, 3
  {
    hide Accounted, FrameOk, Bound, ResultOk, EmitItem, SlotsKeptOn, CheckedStmt;
    more := ItemAccounted(env, g.Enter(t), body, ret, inner, depth + 1, locals);
    ItemShape(env, g.Enter(t), body, ret, inner, depth + 1);
    var g1 := EmitItem(env, g.Enter(t), body).value.Leave();
    if !g1.Terminated() { JumpAccounted(env, g1, Branch(t.continueTarget), locals + more); }
  }

  lemma {:induction false} WhileAccounted(env: Env, g: Gen, stmt: Stmt, ret: CType, scope: set<Decl>, depth: nat,
                                          locals: seq<nat>)
    returns (more: seq<nat>)
    requires Begins(env, g, ret, scope, depth, locals) && stmt.While? && CheckedStmt(env.ctx, ret, scope, depth, stmt)
    requires EmitWhile(env, g, stmt).Some?
    ensures |more| == Declarations(stmt)
    ensures var g' := EmitWhile(env, g, stmt).value; Accounted(env, g'.blocks, g'.frame, locals + more)
    decreases stmt, 1
  {
    hide Accounted, FrameOk, Bound, ResultOk, EmitItem, LoopEntry, EmitLoop, SlotsKeptOn;
    var g0 := MaterializeParameters(env, g);
    ParametersAccounted(env, g, locals);
    ParametersReady(env, g, ret, scope, depth);
    var b := |g0.blocks|;
    more := LoopAccounted(env, g0, 3, Some(stmt.cond), stmt.body, LoopTargets(b + 2, b), ret, scope, depth, locals);
  }

  lemma {:induction false} ForAccounted(env: Env, g: Gen, stmt: Stmt, ret: CType, scope: set<Decl>, depth: nat,
                                        locals: seq<nat>)
    returns (more: seq<nat>)
    requires Begins(env, g, ret, scope, depth, locals) && stmt.For? && CheckedStmt(env.ctx, ret, scope, depth, stmt)
    requires EmitFor(env, g, stmt).Some?
    ensures |more| == Declarations(stmt)
    ensures var g' := EmitFor(env, g, stmt).value; Accounted(env, g'.blocks, g'.frame, locals + more)
    decreases stmt, 1
  {
    hide Accounted, FrameOk, Bound, ResultOk, EmitItem, EmitForLoop, SlotsKeptOn;
    var gM := MaterializeParameters(env, g);
    ParametersAccounted(env, g, locals);
    ParametersReady(env, g, ret, scope, depth);
    if stmt.start.None? {
      more := ForLoopAccounted(env, gM, stmt.test, stmt.incr, stmt.body, ret, scope, depth, locals);
    } else {
      var inner, g0 := ScopeAfter(scope, stmt.start.value), EmitItem(env, gM, stmt.start.value).value;
      var first := ItemAccounted(env, gM, stmt.start.value, ret, scope, depth, locals);
      ItemJudged(env, gM, stmt.start.value, ret, scope, depth);
      var second := ForLoopAccounted(env, g0, stmt.test, stmt.incr, stmt.body, ret, inner, depth, locals + first);
      assert locals + first + second == locals + (first + second);
      more := first + second;
    }
  }

  lemma {:induction false} ForLoopAccounted(env: Env, g: Gen, test: Option<Expr>, incr: Option<Expr>, body: Stmt,
                                            ret: CType, inner: set<Decl>, depth: nat, locals: seq<nat>)
    returns (more: seq<nat>)
    requires Begins(env, g, ret, inner, depth, locals)
    requires CheckedOption(env.ctx, inner, test) && CheckedStmt(env.ctx, ret, inner, depth + 1, body)
    requires EmitForLoop(env, g, test, incr, body).Some?
    ensures |more| == Declarations(body)
    ensures var g' := EmitForLoop(env, g, test, incr, body).value; Accounted(env, g'.blocks, g'.frame, locals + more)
    decreases body, 5
  {
    hide Accounted, FrameOk, Bound, ResultOk, EmitItem, LoopEntry, EmitLoop, SlotsKeptOn, CheckedStmt, EmitExprStmt;
    var b := |g.blocks|;
    var t := LoopTargets(b + 3, b + 2);
    more := LoopAccounted(env, g, 4, test, body, t, ret, inner, depth, locals);
    LoopLeaves(env, g, 4, test, body, t, ret, inner, depth);
    var g2 := EmitLoop(env, LoopEntry(g, 4), test, body, b + 1, t).value;
    assert Fresh(g2, b + 2);
    StepAccounted(env, g2.At(b + 2), incr, b, locals + more);
  }

  lemma {:induction false} StepAccounted(env: Env, g: Gen, incr: Option<Expr>, target: nat, locals: seq<nat>)
    requires EnvOk(env) && g.cur < |g.blocks| && Accounted(env, g.blocks, g.frame, locals)
    requires EmitStep(env, g, incr).Some?
    ensures var g' := EmitStep(env, g, incr).value.Append([Branch(target)]);
            Accounted(env, g'.blocks, g'.frame, locals)
  {
    hide Accounted;
    if incr.Some? { ExprStmtAccounted(env, g, incr.value, locals); }
    JumpAccounted(env, EmitStep(env, g, incr).value, Branch(target), locals);
  }

  // ----- functions -----

  /** The allocations of a whole function: its parameters' slots, and n others. */
  ghost predicate AllocatesOnly(p: seq<Block>, f: Frame, params: seq<Decl>, n: nat) {
    exists locals: seq<nat> :: |locals| == n && Partitions(p, f, params, locals)
  }

  ghost predicate Partitions(p: seq<Block>, f: Frame, params: seq<Decl>, locals: seq<nat>) {
    && (forall x: nat :: AllocatedIn(p, x) <==> SlotOfOne(f, params, x) || x in locals)
    && (forall x: nat :: x in locals ==> !SlotOfOne(f, params, x))
    && (forall i, j :: 0 <= i < j < |locals| ==> locals[i] != locals[j])
  }

  ghost predicate SlotOfOne(f: Frame, params: seq<Decl>, x: nat) {
    exists d :: d in params && d in f.storage && f.storage[d].base == x
  }

  lemma {:induction false} CloseAccounted(ctx: Context, fn: Function, env: Env, g: Gen, locals: seq<nat>)
    requires ctx.target.Valid() && g.cur < |g.blocks| && Accounted(env, g.blocks, g.frame, locals)
    requires CloseBody(ctx, fn, g).Some?
    ensures Accounted(env, CloseBody(ctx, fn, g).value.blocks, g.frame, locals)
  {
    hide Accounted;
    if !g.Terminated() {
      if fn.ret == Void {
        JumpAccounted(env, g, ReturnOp(None), locals);
      } else {
        var n := g.frame.Next();
        var ops := [ConstantInt(n, Lowered(ctx.target, fn.ret).WidthOr(0), 0), ReturnOp(Some(n))];
        NoAllocations(env, g.frame, ops, g.frame);
        StraightAccounted(env, g, ops, g.frame, locals);
      }
    }
  }

  /** Generated code allocates one value for each parameter that has a slot and one for each declaration that control
      can reach, and nothing else. */
  lemma {:induction false} EverythingAccounted(ctx: Context, fn: Function, order: seq<Decl>)
    requires UnitOk(ctx, fn, order) && EmitFunction(ctx, fn, order).Some?
    ensures EmitBody(ctx, fn, order).Some?
    ensures AllocatesOnly(EmitFunction(ctx, fn, order).value, EmitBody(ctx, fn, order).value.frame, fn.params,
                          ReachedDeclarations(fn.body))
  {
    hide Accounted, CheckedItems, EmitItems, Bound, FrameOk;
    var params := ctx.functions[fn.name].params;
    var env, f := FunctionEnv(ctx, fn, order), EntryFrame(ctx.target, params).value;
    assert Declarable(ctx.target, ctx.functions[fn.name]);
    StartsAccounted(ctx, fn, order, f);
    var g := EmitBody(ctx, fn, order).value;
    var locals := ItemsAccounted(env, EntryGen(f), fn.body, fn.ret, ParamSet(fn.params), 0, []);
    assert [] + locals == locals;
    ItemsShape(env, EntryGen(f), fn.body, fn.ret, ParamSet(fn.params), 0);
    CloseAccounted(ctx, fn, env, g, locals);
    EntryValuesAt(fn.params);
    AccountedParts(env, EmitFunction(ctx, fn, order).value, g.frame, fn.params, locals);
  }

  lemma {:induction false} StartsAccounted(ctx: Context, fn: Function, order: seq<Decl>, f: Frame)
    requires UnitOk(ctx, fn, order) && StartFrame(ctx, fn, f)
    ensures Begins(FunctionEnv(ctx, fn, order), EntryGen(f), fn.ret, ParamSet(fn.params), 0, [])
  {
    EntryFrameOk(ctx, fn, order, f);
    EntryValuesAt(fn.params);
    assert Declarable(ctx.target, ctx.functions[fn.name]);
  }

  lemma {:induction false} AccountedParts(env: Env, p: seq<Block>, f: Frame, params: seq<Decl>, locals: seq<nat>)
    requires Accounted(env, p, f, locals) && env.values.Keys == ParamSet(params)
    ensures AllocatesOnly(p, f, params, |locals|)
  {
    assert forall d :: d in env.values <==> d in params;
    assert forall x: nat :: SlotOfOne(f, params, x) <==> ParamSlot(env, f, x);
    hide AllocatedIn, SlotOfOne, ParamSlot;
    assert Partitions(p, f, params, locals);
  }
}
