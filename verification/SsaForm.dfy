/** Expressions and declarations emit straight-line code in SSA form: operations define consecutive numbers, and use
    only what was defined before them, entry arguments, and the slots of variables in scope. */
module SsaForm {
  import opened CAst
  import opened Wrappers
  import opened Contract
  import opened Ir
  import opened Lowering
  import opened ExprSimulation
  import opened Shape

  predicate From(known: set<nat>, lo: nat, hi: nat, x: nat) {
    x in known || lo <= x < hi
  }

  /** Operations that define the numbers from n to m in order; each uses only known values and those from lo on that
      have a smaller number than its own. */
  ghost predicate Chunk(ops: seq<Op>, known: set<nat>, lo: nat, n: nat, m: nat)
    decreases |ops|
  {
    if ops == [] then n == m
    else
      && (forall x :: x in Uses(ops[0]) ==> From(known, lo, n, x))
      && if Defines(ops[0]).None? then Chunk(ops[1..], known, lo, n, m)
         else Defines(ops[0]).value == n && Chunk(ops[1..], known, lo, n + 1, m)
  }

  lemma {:induction false} ChunkGrows(ops: seq<Op>, known: set<nat>, lo: nat, n: nat, m: nat)
    requires Chunk(ops, known, lo, n, m)
    ensures n <= m
    decreases |ops|
  {
    if ops != [] { ChunkGrows(ops[1..], known, lo, if Defines(ops[0]).None? then n else n + 1, m); }
  }

  lemma {:induction false} ChunkThen(a: seq<Op>, b: seq<Op>, known: set<nat>, lo: nat, n: nat, m: nat, k: nat)
    requires Chunk(a, known, lo, n, m) && Chunk(b, known, lo, m, k)
    ensures Chunk(a + b, known, lo, n, k)
    decreases |a|
  {
    if a == [] {
      assert a + b == b;
    } else {
      assert (a + b)[1..] == a[1..] + b;
      ChunkThen(a[1..], b, known, lo, if Defines(a[0]).None? then n else n + 1, m, k);
    }
  }

  lemma {:induction false} ChunkWider(ops: seq<Op>, known: set<nat>, lo: nat, n: nat, m: nat, known': set<nat>,
                                      lo': nat)
    requires Chunk(ops, known, lo, n, m) && lo' <= lo <= n
    requires forall x :: x in known ==> From(known', lo', n, x)
    ensures Chunk(ops, known', lo', n, m)
    decreases |ops|
  {
    if ops != [] {
      ChunkWider(ops[1..], known, lo, if Defines(ops[0]).None? then n else n + 1, m, known', lo');
    }
  }

  /** What code may use of values from before: the slots and entry arguments of the variables in scope. */
  function Known(env: Env, f: Frame, scope: set<Decl>): set<nat> {
    (set d | d in scope && d in f.storage :: f.storage[d].base) + (set d | d in scope &&
                                                                   d in env.values :: env.values[d])
  }

  ghost predicate Reachable(env: Env, f: Frame, scope: set<Decl>) {
    forall d :: d in scope ==> d in f.storage || d in env.values
  }

  /** Straight-line code from frame f to frame f', for the variables of scope. */
  ghost predicate Sourced(env: Env, scope: set<Decl>, f: Frame, ops: seq<Op>, f': Frame) {
    && |f.types| <= |f'.types|
    && Chunk(ops, Known(env, f, scope), |f.types|, |f.types|, |f'.types|)
    && (forall x :: x in Known(env, f', scope) ==> From(Known(env, f, scope), |f.types|, |f'.types|, x))
    && (Reachable(env, f, scope) ==> Reachable(env, f', scope))
  }

  ghost predicate ValueFrom(env: Env, scope: set<Decl>, f: Frame, f': Frame, v: nat) {
    From(Known(env, f, scope), |f.types|, |f'.types|, v)
  }

  lemma {:induction false} SourcedNothing(env: Env, scope: set<Decl>, f: Frame)
    ensures Sourced(env, scope, f, [], f)
  {
  }

  lemma {:induction false} SourcedThen(env: Env, scope: set<Decl>, f: Frame, a: seq<Op>, f1: Frame, b: seq<Op>,
                                       f2: Frame)
    requires Sourced(env, scope, f, a, f1) && Sourced(env, scope, f1, b, f2)
    ensures Sourced(env, scope, f, a + b, f2)
    ensures forall v :: ValueFrom(env, scope, f1, f2, v) ==> ValueFrom(env, scope, f, f2, v)
    ensures forall v :: ValueFrom(env, scope, f, f1, v) ==> ValueFrom(env, scope, f, f2, v)
  {
    hide Known, Reachable;
    var known, lo := Known(env, f, scope), |f.types|;
    ChunkWider(b, Known(env, f1, scope), |f1.types|, |f1.types|, |f2.types|, known, lo);
    ChunkThen(a, b, known, lo, lo, |f1.types|, |f2.types|);
  }

  /** One more operation that defines the next value. */
  lemma {:induction false} SourcedDefine(env: Env, scope: set<Decl>, f: Frame, a: seq<Op>, f1: Frame, op: Op, t: MType)
    requires Sourced(env, scope, f, a, f1) && Defines(op) == Some(f1.Next())
    requires forall x :: x in Uses(op) ==> ValueFrom(env, scope, f, f1, x)
    ensures Sourced(env, scope, f, a + [op], f1.Define(t)) && ValueFrom(env, scope, f, f1.Define(t), f1.Next())
  {
    var n := |f1.types|;
    assert [op][1..] == [];
    assert Chunk([op], Known(env, f, scope), |f.types|, n, n + 1);
    ChunkThen(a, [op], Known(env, f, scope), |f.types|, |f.types|, n, n + 1);
    assert Known(env, f1.Define(t), scope) == Known(env, f1, scope);
  }

  /** One more operation that defines nothing. */
  lemma {:induction false} SourcedUse(env: Env, scope: set<Decl>, f: Frame, a: seq<Op>, f1: Frame, op: Op)
    requires Sourced(env, scope, f, a, f1) && Defines(op) == None
    requires forall x :: x in Uses(op) ==> ValueFrom(env, scope, f, f1, x)
    ensures Sourced(env, scope, f, a + [op], f1)
  {
    var n := |f1.types|;
    assert [op][1..] == [];
    assert Chunk([op], Known(env, f, scope), |f.types|, n, n);
    ChunkThen(a, [op], Known(env, f, scope), |f.types|, |f.types|, n, n);
  }

  /** A new slot, for a parameter or a local. */
  lemma {:induction false} SlotSourced(env: Env, scope: set<Decl>, f: Frame, d: Decl, t: MType)
    ensures Sourced(env, scope, f, [Alloca(f.Next(), t)], LocalFrame(f, d, t))
  {
    var f' := LocalFrame(f, d, t);
    assert [Alloca(f.Next(), t)][1..] == [];
    forall x | x in Known(env, f', scope)
      ensures From(Known(env, f, scope), |f.types|, |f'.types|, x)
    {
      if x !in Known(env, f, scope) {
        assert x == f.Next();
      }
    }
  }

  lemma {:induction false} MaterializeSourced(env: Env, scope: set<Decl>, f: Frame, d: Decl)
    requires d in env.values && d in scope
    ensures var (f', ops) := Materialize(env, f, d);
            Sourced(env, scope, f, ops, f') && ValueFrom(env, scope, f, f', f'.storage[d].base)
  {
    var (f', ops) := Materialize(env, f, d);
    var t := TypeAt(f, env.values[d]);
    SlotSourced(env, scope, f, d, t);
    assert f' == LocalFrame(f, d, t);
    assert env.values[d] in Known(env, f, scope);
    SourcedUse(env, scope, f, [Alloca(f.Next(), t)], f', StoreOp(env.values[d], f.Next()));
    assert [Alloca(f.Next(), t)] + [StoreOp(env.values[d], f.Next())] == ops;
  }

  // ----- expressions -----

  lemma {:induction false} ExprSourced(env: Env, scope: set<Decl>, f: Frame, e: Expr)
    requires FrameOk(env, f) && Checked(env.ctx, scope, e) && EmitExpr(env, f, e).Code?
    ensures var code := EmitExpr(env, f, e);
            Sourced(env, scope, f, code.ops, code.frame) && ValueFrom(env, scope, f, code.frame, code.value)
    decreases e, 1
  {
    hide Sourced, SlotOk, Declarable;
    match e
    case IntLit(val, ty) => {
      SourcedNothing(env, scope, f);
      var op := ConstantInt(f.Next(), env.ctx.target.Width(ty.kind), val);
      SourcedDefine(env, scope, f, [], f, op, I(env.ctx.target.Width(ty.kind)));
      assert [] + [op] == [op];
    }
    case Ident(d) => IdentSourced(env, scope, f, d);
    case AddrOf(operand, _) => PlaceSourced(env, scope, f, operand);
    case Deref(_, _) => {
      PlaceSourced(env, scope, f, e);
      var place := EmitPlace(env, f, e);
      SourcedDefine(env, scope, f, place.ops, place.frame,
                    LoadOp(place.frame.Next(), place.slot.elem, place.slot.base), place.slot.elem);
    }
    case Cast(kind, operand, ty) => {
      ExprSourced(env, scope, f, operand);
      if kind == Arithmetic {
        ConversionSourced(env, scope, f, EmitExpr(env, f, operand), TypeOf(operand).kind, ty.kind);
      }
    }
    case Call(_, _, _) => CallSourced(env, scope, f, e);
    case Binary(op, _, _, _) =>
      if op == Assign { AssignSourced(env, scope, f, e); } else { BinarySourced(env, scope, f, e); }
  }

  lemma {:induction false} IdentSourced(env: Env, scope: set<Decl>, f: Frame, d: Decl)
    requires FrameOk(env, f) && d in scope && EmitExpr(env, f, Ident(d)).Code?
    ensures var code := EmitExpr(env, f, Ident(d));
            Sourced(env, scope, f, code.ops, code.frame) && ValueFrom(env, scope, f, code.frame, code.value)
  {
    SourcedNothing(env, scope, f);
    if d in f.storage {
      assert f.storage[d].base in Known(env, f, scope);
      var op := LoadOp(f.Next(), f.storage[d].elem, f.storage[d].base);
      SourcedDefine(env, scope, f, [], f, op, f.storage[d].elem);
      assert [] + [op] == [op];
    } else {
      assert env.values[d] in Known(env, f, scope);
    }
  }

  lemma {:induction false} PlaceSourced(env: Env, scope: set<Decl>, f: Frame, e: Expr)
    requires FrameOk(env, f) && Checked(env.ctx, scope, e) && EmitPlace(env, f, e).PlaceCode?
    ensures var place := EmitPlace(env, f, e);
            Sourced(env, scope, f, place.ops, place.frame) && ValueFrom(env, scope, f, place.frame, place.slot.base)
    decreases e, 0
  {
    hide Sourced, SlotOk, Declarable;
    match e
    case Deref(operand, _) => ExprSourced(env, scope, f, operand);
    case Ident(d) =>
      if d in f.storage {
        SourcedNothing(env, scope, f);
        assert f.storage[d].base in Known(env, f, scope);
      } else {
        MaterializeSourced(env, scope, f, d);
      }
  }

  lemma {:induction false} TwoSourced(env: Env, scope: set<Decl>, f: Frame, a: seq<Op>, f1: Frame, op: Op, t: MType,
                                      op': Op, t': MType)
    requires Sourced(env, scope, f, a, f1) && Defines(op) == Some(f1.Next()) && Defines(op') == Some(f1.Next() + 1)
    requires forall x :: x in Uses(op) ==> ValueFrom(env, scope, f, f1, x)
    requires forall x :: x in Uses(op') ==> ValueFrom(env, scope, f, f1, x) || x == f1.Next()
    ensures Sourced(env, scope, f, a + [op, op'], f1.Define(t).Define(t'))
    ensures ValueFrom(env, scope, f, f1.Define(t).Define(t'), f1.Next() + 1)
  {
    SourcedDefine(env, scope, f, a, f1, op, t);
    SourcedDefine(env, scope, f, a + [op], f1.Define(t), op', t');
    assert a + [op, op'] == a + [op] + [op'];
  }

  lemma {:induction false} ConversionSourced(env: Env, scope: set<Decl>, f: Frame, code: Code, source: IntKind,
                                             to: IntKind)
    requires FrameOk(env, f) && code.Code? && Sourced(env, scope, f, code.ops, code.frame)
    requires ValueFrom(env, scope, f, code.frame, code.value) && TypeAt(code.frame, code.value).I?
    ensures var c := EmitConversion(env, code.ops, code.frame, code.value, source, to);
            c.Code? && Sourced(env, scope, f, c.ops, c.frame) && ValueFrom(env, scope, f, c.frame, c.value)
  {
    hide Sourced;
    var from, width := TypeAt(code.frame, code.value).width, env.ctx.target.Width(to);
    var n := code.frame.Next();
    if to == Bool {
      TwoSourced(env, scope, f, code.ops, code.frame, ConstantInt(n, from, 0), I(from),
                 CmpI(n + 1, NE, from, code.value, n), I(1));
    } else if from != width {
      SourcedDefine(env, scope, f, code.ops, code.frame, ResizeOp(source, from, width, n, code.value), I(width));
    }
  }

  lemma {:induction false} AssignSourced(env: Env, scope: set<Decl>, f: Frame, e: Expr)
    requires FrameOk(env, f) && e.Binary? && e.op == Assign && Checked(env.ctx, scope, e) && EmitAssign(env, f, e).Code?
    ensures var code := EmitAssign(env, f, e);
            Sourced(env, scope, f, code.ops, code.frame) && ValueFrom(env, scope, f, code.frame, code.value)
    decreases e, 0
  {
    hide Sourced, SlotOk, Declarable;
    var place := EmitPlace(env, f, e.lhs);
    PlaceSourced(env, scope, f, e.lhs);
    PlaceShape(env, f, e.lhs);
    var code := EmitExpr(env, place.frame, e.rhs);
    ExprSourced(env, scope, place.frame, e.rhs);
    SourcedThen(env, scope, f, place.ops, place.frame, code.ops, code.frame);
    SourcedUse(env, scope, f, place.ops + code.ops, code.frame, StoreOp(code.value, place.slot.base));
  }

  lemma {:induction false} BinarySourced(env: Env, scope: set<Decl>, f: Frame, e: Expr)
    requires FrameOk(env, f) && e.Binary? && e.op != Assign && Checked(env.ctx, scope, e) && EmitExpr(env, f, e).Code?
    ensures var code := EmitExpr(env, f, e);
            Sourced(env, scope, f, code.ops, code.frame) && ValueFrom(env, scope, f, code.frame, code.value)
    decreases e, 0
  {
    hide Sourced, SlotOk, Declarable;
    var left := EmitExpr(env, f, e.lhs);
    ExprSourced(env, scope, f, e.lhs);
    ExprShape(env, f, e.lhs);
    var right := EmitExpr(env, left.frame, e.rhs);
    ExprSourced(env, scope, left.frame, e.rhs);
    SourcedThen(env, scope, f, left.ops, left.frame, right.ops, right.frame);
    var n := right.frame.Next();
    if IsComparison(e.op) {
      var width := env.ctx.target.Width(Int);
      TwoSourced(env, scope, f, left.ops + right.ops, right.frame,
                 CmpI(n, ChoosePredicate(e.op, IsSigned(TypeOf(e.lhs).kind)), TypeAt(right.frame, left.value).width,
                      left.value, right.value),
                 I(1), ExtUI(n + 1, width, n), I(width));
    } else {
      var width := env.ctx.target.Width(e.ty.kind);
      SourcedDefine(env, scope, f, left.ops + right.ops, right.frame,
                    ArithI(n, ChooseArith(e.op), width, left.value, right.value), I(width));
    }
  }

  lemma {:induction false} CallSourced(env: Env, scope: set<Decl>, f: Frame, e: Expr)
    requires FrameOk(env, f) && e.Call? && Checked(env.ctx, scope, e) && EmitCall(env, f, e).CallCode?
    ensures var code := EmitCall(env, f, e);
            && Sourced(env, scope, f, code.ops, code.frame)
            && (code.value.Some? ==> ValueFrom(env, scope, f, code.frame, code.value.value))
    decreases e, 0
  {
    hide Sourced, SlotOk, Declarable;
    var callee, sig := e.callee.value, env.ctx.functions[e.callee.value];
    var code := EmitArgs(env, f, e.args, sig.params);
    ArgsSourced(env, scope, f, e.args, sig.params);
    if sig.ret == Void {
      SourcedUse(env, scope, f, code.ops, code.frame, CallOp(None, callee, code.values));
    } else {
      SourcedDefine(env, scope, f, code.ops, code.frame, CallOp(Some(code.frame.Next()), callee, code.values),
                    I(env.ctx.target.Width(Int)));
    }
  }

  lemma {:induction false} ArgsSourced(env: Env, scope: set<Decl>, f: Frame, es: seq<Expr>, params: seq<CType>)
    requires FrameOk(env, f) && |es| == |params| && (forall a :: a in es ==> Checked(env.ctx, scope, a))
    requires EmitArgs(env, f, es, params).ArgsCode?
    ensures var code := EmitArgs(env, f, es, params);
            && Sourced(env, scope, f, code.ops, code.frame)
            && forall x :: x in code.values ==> ValueFrom(env, scope, f, code.frame, x)
    decreases es, 0
  {
    hide Sourced, SlotOk, Declarable, ValueFrom;
    if es == [] {
      SourcedNothing(env, scope, f);
    } else {
      var first := EmitExpr(env, f, es[0]);
      ExprSourced(env, scope, f, es[0]);
      ExprShape(env, f, es[0]);
      ArgsSourced(env, scope, first.frame, es[1..], params[1..]);
      var rest := EmitArgs(env, first.frame, es[1..], params[1..]);
      SourcedThen(env, scope, f, first.ops, first.frame, rest.ops, rest.frame);
    }
  }

  lemma {:induction false} ConditionSourced(env: Env, scope: set<Decl>, f: Frame, e: Expr)
    requires FrameOk(env, f) && Checked(env.ctx, scope, e) && EmitCondition(env, f, e).Code?
    ensures var code := EmitCondition(env, f, e);
            Sourced(env, scope, f, code.ops, code.frame) && ValueFrom(env, scope, f, code.frame, code.value)
  {
    hide Sourced, SlotOk, Declarable;
    var code := EmitExpr(env, f, e);
    ExprSourced(env, scope, f, e);
    var n, width := code.frame.Next(), TypeAt(code.frame, code.value).width;
    if width != 1 {
      TwoSourced(env, scope, f, code.ops, code.frame, ConstantInt(n, width, 0), I(width),
                 CmpI(n + 1, NE, width, code.value, n), I(1));
    }
  }

  lemma {:induction false} MaterializeAllSourced(env: Env, scope: set<Decl>, f: Frame, decls: seq<Decl>)
    requires forall d :: d in decls ==> d in env.values && d in scope
    ensures var (f', ops) := MaterializeAll(env, f, decls); Sourced(env, scope, f, ops, f')
    decreases decls
  {
    hide Sourced;
    if decls == [] {
      SourcedNothing(env, scope, f);
    } else if decls[0].ty.Pointer? || decls[0] in f.storage {
      MaterializeAllSourced(env, scope, f, decls[1..]);
    } else {
      var (f1, ops) := Materialize(env, f, decls[0]);
      MaterializeSourced(env, scope, f, decls[0]);
      MaterializeAllSourced(env, scope, f1, decls[1..]);
      var (f2, more) := MaterializeAll(env, f1, decls[1..]);
      SourcedThen(env, scope, f, ops, f1, more, f2);
    }
  }
}
