/** The code generator as it is written: an object whose methods append operations at a builder's insertion point and
    update its maps. Each method is proved to produce what the functions in Lowering.dfy describe; the theorems about
    those functions are then theorems about this object. */
module MlirGen {
  import opened CAst
  import opened Wrappers
  import opened Contract
  import opened Ir
  import opened Lowering
  import opened ExprSimulation
  import opened Shape

  lemma {:induction false} TwoCreated(g: Gen, ops: seq<Op>, f: Frame, first: Op, t: MType, second: Op, t': MType)
    ensures g.With(ops, f).With([first], f.Define(t)).With([second], f.Define(t).Define(t'))
            == g.With(ops + [first, second], f.Define(t).Define(t'))
  {
    WithWith(g, ops, f, [first], f.Define(t));
    WithWith(g, ops + [first], f.Define(t), [second], f.Define(t).Define(t'));
    assert ops + [first] + [second] == ops + [first, second];
  }

  /** Arguments already emitted, followed by the rest. */
  function Prepend(ops: seq<Op>, values: seq<nat>, rest: ArgsCode): ArgsCode {
    match rest
    case ArgsRefused => ArgsRefused
    case ArgsCode(more, f, vs) => ArgsCode(ops + more, f, values + vs)
  }

  class MLIRGen {
    const ctx: Context
    const order: seq<Decl>
    const result: Option<MType>
    // The builder: the function's blocks and where the next operation goes.
    var blocks: seq<Block>
    var insertBlock: nat
    var insertPos: nat
    // The type of every value created so far.
    var types: seq<MType>
    var values: map<Decl, nat>
    var storage: map<Decl, Slot>
    var loopTargets: seq<LoopTargets>

    ghost function Gen(): Lowering.Gen
      reads this
    {
      Lowering.Gen.Gen(blocks, insertBlock, Frame(types, storage), loopTargets)
    }

    ghost function Env(): Lowering.Env
      reads this
    {
      Lowering.Env.Env(ctx, values, order, result)
    }

    /** The insertion point is the end of a block. */
    ghost predicate Valid()
      reads this
    {
      && EnvOk(Env())
      && insertBlock < |blocks| && insertPos == |blocks[insertBlock].ops|
    }

    constructor (ctx: Context, fn: Function, order: seq<Decl>, entry: Frame)
      requires ctx.target.Valid() && forall d :: d in order ==> d in EntryValues(fn.params)
      ensures Valid() && Env() == FunctionEnv(ctx, fn, order)
      ensures Gen() == EntryGen(entry.(storage := map[]))
    {
      this.ctx := ctx;
      this.order := order;
      this.result := if fn.ret == Void then None else LowerType(ctx.target, fn.ret);
      blocks, insertBlock, insertPos := [Block([], false)], 0, 0;
      types, storage, loopTargets := entry.types, map[], [];
      values := map[];
      new;
      var i := 0;
      while i < |fn.params|
        invariant i <= |fn.params|
        invariant values == EntryValues(fn.params[..i])
        invariant blocks == [Block([], false)] && insertBlock == 0 && insertPos == 0
        invariant types == entry.types && storage == map[] && loopTargets == []
      {
        values := values[fn.params[i] := i];
        assert fn.params[..i + 1][..i] == fn.params[..i];
        i := i + 1;
      }
      assert fn.params[..i] == fn.params;
    }

    // ----- the builder -----

    /** Inserts an operation at the insertion point and moves past it. */
    method Insert(op: Op)
      requires Valid()
      modifies `blocks, `insertPos
      ensures Valid() && Gen() == old(Gen()).Append([op])
    {
      var b := blocks[insertBlock];
      blocks := blocks[insertBlock := Block(b.ops[..insertPos] + [op] + b.ops[insertPos..], b.erased)];
      assert b.ops[..insertPos] + [op] + b.ops[insertPos..] == b.ops + [op];
      insertPos := insertPos + 1;
    }

    /** Inserts an operation that defines a value of type t; the value's number is returned. */
    method Create(op: Op, t: MType) returns (v: nat)
      requires Valid()
      modifies `blocks, `insertPos, `types
      ensures v == old(|types|)
      ensures Valid() && Gen() == old(Gen()).With([op], old(Gen().frame).Define(t))
    {
      v := |types|;
      Insert(op);
      types := types + [t];
    }

    /** A new block at the end of the function; the insertion point moves into it. */
    method CreateBlock() returns (b: nat)
      modifies `blocks, `insertBlock, `insertPos
      ensures b == old(|blocks|) && blocks == old(blocks) + [Block([], false)]
      ensures insertBlock == b && insertPos == 0
    {
      b := |blocks|;
      blocks := blocks + [Block([], false)];
      insertBlock, insertPos := b, 0;
    }

    method RestoreInsertionPoint(b: nat, pos: nat)
      modifies `insertBlock, `insertPos
      ensures insertBlock == b && insertPos == pos
    {
      insertBlock, insertPos := b, pos;
    }

    method SetInsertionPointToStart(b: nat)
      modifies `insertBlock, `insertPos
      ensures insertBlock == b && insertPos == 0
    {
      insertBlock, insertPos := b, 0;
    }

    method Terminated() returns (r: bool)
      requires Valid()
      ensures r == Gen().Terminated()
    {
      var ops := blocks[insertBlock].ops;
      r := ops != [] && IsTerminator(ops[|ops| - 1]);
    }

    // ----- memory -----

    method CreateScalarStorage(t: MType) returns (slot: Slot)
      requires Valid()
      modifies `blocks, `insertPos, `types
      ensures slot == Slot(old(|types|), t)
      ensures Valid() && Gen() == old(Gen()).With([Alloca(slot.base, t)], old(Gen().frame).Define(Ptr(t)))
    {
      var base := Create(Alloca(|types|, t), Ptr(t));
      slot := Slot(base, t);
    }

    method EmitLoad(slot: Slot) returns (v: nat)
      requires Valid()
      modifies `blocks, `insertPos, `types
      ensures v == old(|types|)
      ensures Valid() && Gen() == old(Gen()).With([LoadOp(v, slot.elem, slot.base)], old(Gen().frame).Define(slot.elem))
    {
      v := Create(LoadOp(|types|, slot.elem, slot.base), slot.elem);
    }

    method EmitStore(v: nat, slot: Slot)
      requires Valid()
      modifies `blocks, `insertPos
      ensures Valid() && Gen() == old(Gen()).Append([StoreOp(v, slot.base)])
    {
      Insert(StoreOp(v, slot.base));
    }

    /** Allocates a parameter's slot, stores its value there and remembers the slot. */
    method MaterializeOne(d: Decl) returns (slot: Slot)
      requires Valid() && d in values
      modifies `blocks, `insertPos, `types, `storage
      ensures var (f, ops) := Materialize(Env(), old(Gen().frame), d);
              Valid() && Gen() == old(Gen()).With(ops, f) && slot == f.storage[d]
    {
      ghost var g := Gen();
      var t := if values[d] < |types| then types[values[d]] else I(0);
      slot := CreateScalarStorage(t);
      EmitStore(values[d], slot);
      storage := storage[d := slot];
      WithWith(g, [Alloca(slot.base, t)], g.frame.Define(Ptr(t)), [StoreOp(values[d], slot.base)],
               Frame(types, storage));
      assert [Alloca(slot.base, t)] + [StoreOp(values[d], slot.base)] == Materialize(Env(), g.frame, d).1;
    }

    /** Storage for every scalar parameter that is still a value, in the order the map is visited. */
    method MaterializeParameters()
      requires Valid()
      modifies `blocks, `insertPos, `types, `storage
      ensures Valid() && Gen() == Lowering.MaterializeParameters(Env(), old(Gen()))
    {
      ghost var g, env := Gen(), Env();
      ghost var done: seq<Op> := [];
      WithNothing(g);
      assert order[0..] == order;
      assert done + MaterializeAll(env, g.frame, order).1 == MaterializeAll(env, g.frame, order).1;
      var i := 0;
      while i < |order|
        invariant i <= |order| && Valid() && Env() == env
        invariant Gen() == g.With(done, Gen().frame)
        invariant var (f, rest) := MaterializeAll(env, Gen().frame, order[i..]);
                  MaterializeAll(env, g.frame, order) == (f, done + rest)
      {
        var d := order[i];
        assert order[i..][0] == d && order[i..][1..] == order[i + 1..];
        if !d.ty.Pointer? && d !in storage {
          ghost var f := Gen().frame;
          var slot := MaterializeOne(d);
          ghost var (f1, ops) := Materialize(env, f, d);
          WithWith(g, done, f, ops, f1);
          ghost var (f2, rest) := MaterializeAll(env, f1, order[i + 1..]);
          assert done + (ops + rest) == done + ops + rest;
          done := done + ops;
        }
        i := i + 1;
      }
      assert order[i..] == [];
      assert done + [] == done;
    }

    // ----- expressions -----

    method EmitExpr(e: Expr) returns (v: Option<nat>)
      requires Valid()
      modifies `blocks, `insertPos, `types, `storage
      ensures match Lowering.EmitExpr(Env(), old(Gen().frame), e)
              case Refused => v == None
              case Code(ops, f, x) => v == Some(x) && Valid() && Gen() == old(Gen()).With(ops, f)
      decreases e, 1
    {
      ghost var g, env := Gen(), Env();
      WithNothing(g);
      match e
      case IntLit(val, ty) =>
        if ty.Integer? {
          var width := ctx.target.Width(ty.kind);
          var n := Create(ConstantInt(|types|, width, val), I(width));
          v := Some(n);
        } else {
          v := None;
        }
      case Ident(d) =>
        if d in storage {
          var n := EmitLoad(storage[d]);
          v := Some(n);
        } else {
          v := if d in values then Some(values[d]) else None;
        }
      case AddrOf(operand, _) =>
        var place := EmitLValue(operand);
        v := if place.Some? then Some(place.value.base) else None;
      case Deref(_, _) =>
        var place := EmitLValue(e);
        if place.None? { return None; }
        ghost var code := EmitPlace(env, g.frame, e);
        var n := EmitLoad(place.value);
        WithWith(g, code.ops, code.frame, [LoadOp(n, place.value.elem, place.value.base)],
                 code.frame.Define(place.value.elem));
        v := Some(n);
      case Cast(kind, operand, ty) =>
        v := EmitExpr(operand);
        if v.None? { return; }
        match kind {
          case LValueToRValue =>
          case PointerCast =>
            var from := TypeOfValue(v.value);
            if !IsPtr(from) || LowerType(ctx.target, ty) != Some(from) { v := None; }
          case Arithmetic =>
            if TypeOf(operand).Integer? && ty.Integer? && TypeOfValue(v.value).I? {
              ghost var code := Lowering.EmitExpr(env, g.frame, operand);
              var x := EmitConversion(g, code.ops, v.value, TypeOf(operand).kind, ty.kind);
              v := Some(x);
            } else {
              v := None;
            }
          case OtherCast => v := None;
        }
      case Call(_, _, _) =>
        var ok, x := EmitCall(e);
        v := if ok then x else None;
      case Binary(op, _, _, _) =>
        if op == Assign {
          v := EmitAssign(e);
        } else if IsComparison(op) {
          v := EmitComparison(e);
        } else if op in {Add, Sub, Mul} {
          v := EmitArithmetic(e);
        } else {
          v := None;
        }
      case Unsupported(_) => v := None;
    }

    function TypeOfValue(v: nat): MType
      reads this
    {
      if v < |types| then types[v] else I(0)
    }

    /** Converts a value between integer types, after the code in ops. */
    method EmitConversion(ghost g: Lowering.Gen, ghost ops: seq<Op>, x: nat, source: IntKind,
                          to: IntKind) returns (v: nat)
      requires Valid() && Gen() == g.With(ops, Gen().frame) && TypeOfValue(x).I?
      modifies `blocks, `insertPos, `types
      ensures var c := Lowering.EmitConversion(Env(), ops, old(Gen().frame), x, source, to);
              c.Code? && v == c.value && Valid() && Gen() == g.With(c.ops, c.frame)
    {
      var from := TypeOfValue(x).width;
      var width := ctx.target.Width(to);
      ghost var f := Gen().frame;
      if to == Bool {
        var zero := Create(ConstantInt(|types|, from, 0), I(from));
        v := Create(CmpI(|types|, NE, from, x, zero), I(1));
        ghost var first, second := ConstantInt(zero, from, 0), CmpI(v, NE, from, x, zero);
        WithWith(g, ops, f, [first], f.Define(I(from)));
        WithWith(g, ops + [first], f.Define(I(from)), [second], f.Define(I(from)).Define(I(1)));
        assert ops + [first] + [second] == ops + [first, second];
      } else if from == width {
        v := x;
      } else {
        var op := if from > width then TruncI(|types|, width, x)
                  else if IsSigned(source) then ExtSI(|types|, from, width, x)
                  else ExtUI(|types|, width, x);
        v := Create(op, I(width));
        WithWith(g, ops, f, [op], f.Define(I(width)));
      }
    }

    method EmitLValue(e: Expr) returns (place: Option<Slot>)
      requires Valid()
      modifies `blocks, `insertPos, `types, `storage
      ensures match EmitPlace(Env(), old(Gen().frame), e)
              case NoPlace => place == None
              case PlaceCode(ops, f, slot) => place == Some(slot) && Valid() && Gen() == old(Gen()).With(ops, f)
      decreases e, 0
    {
      WithNothing(Gen());
      match e
      case Deref(operand, ty) =>
        var pointer := EmitExpr(operand);
        if pointer.None? { return None; }
        var pointee := LowerType(ctx.target, ty);
        var t := TypeOfValue(pointer.value);
        place := if IsPtr(t) && pointee.Some? && t == Ptr(pointee.value)
                 then Some(Slot(pointer.value, pointee.value)) else None;
      case Ident(d) =>
        if d.ty.Pointer? {
          place := None;
        } else if d in storage {
          place := Some(storage[d]);
        } else if d in values {
          var slot := MaterializeOne(d);
          place := Some(slot);
        } else {
          place := None;
        }
      case _ => place := None;
    }

    method EmitAssign(e: Expr) returns (v: Option<nat>)
      requires Valid() && e.Binary?
      modifies `blocks, `insertPos, `types, `storage
      ensures match Lowering.EmitAssign(Env(), old(Gen().frame), e)
              case Refused => v == None
              case Code(ops, f, x) => v == Some(x) && Valid() && Gen() == old(Gen()).With(ops, f)
      decreases e, 0
    {
      ghost var g, env := Gen(), Env();
      var address := EmitLValue(e.lhs);
      if address.None? { return None; }
      ghost var place := EmitPlace(env, g.frame, e.lhs);
      v := EmitExpr(e.rhs);
      if v.None? { return; }
      if TypeOfValue(v.value) != address.value.elem { return None; }
      ghost var code := Lowering.EmitExpr(env, place.frame, e.rhs);
      WithWith(g, place.ops, place.frame, code.ops, code.frame);
      EmitStore(v.value, address.value);
      WithWith(g, place.ops + code.ops, code.frame, [StoreOp(v.value, address.value.base)], code.frame);
    }

    method EmitComparison(e: Expr) returns (v: Option<nat>)
      requires Valid() && e.Binary? && IsComparison(e.op)
      modifies `blocks, `insertPos, `types, `storage
      ensures match Lowering.EmitComparison(Env(), old(Gen().frame), e)
              case Refused => v == None
              case Code(ops, f, x) => v == Some(x) && Valid() && Gen() == old(Gen()).With(ops, f)
      decreases e, 0
    {
      hide Lowering.EmitExpr;
      ghost var g, env := Gen(), Env();
      if !TypeOf(e.lhs).Integer? || !TypeOf(e.rhs).Integer? || e.ty != Integer(Int) { return None; }
      var lhs := EmitExpr(e.lhs);
      if lhs.None? { return None; }
      ghost var left := Lowering.EmitExpr(env, g.frame, e.lhs);
      var rhs := EmitExpr(e.rhs);
      if rhs.None? { return None; }
      ghost var right := Lowering.EmitExpr(env, left.frame, e.rhs);
      WithWith(g, left.ops, left.frame, right.ops, right.frame);
      var t := TypeOfValue(lhs.value);
      if !t.I? || t != TypeOfValue(rhs.value) { return None; }
      var pred := ChoosePredicate(e.op, IsSigned(TypeOf(e.lhs).kind));
      var width := ctx.target.Width(Int);
      var bit := Create(CmpI(|types|, pred, t.width, lhs.value, rhs.value), I(1));
      var n := Create(ExtUI(|types|, width, bit), I(width));
      ghost var ops, f := left.ops + right.ops, right.frame;
      ghost var cmp, ext := CmpI(bit, pred, t.width, lhs.value, rhs.value), ExtUI(n, width, bit);
      TwoCreated(g, ops, f, cmp, I(1), ext, I(width));
      v := Some(n);
    }

    method EmitArithmetic(e: Expr) returns (v: Option<nat>)
      requires Valid() && e.Binary? && e.op in {Add, Sub, Mul}
      modifies `blocks, `insertPos, `types, `storage
      ensures match Lowering.EmitArithmetic(Env(), old(Gen().frame), e)
              case Refused => v == None
              case Code(ops, f, x) => v == Some(x) && Valid() && Gen() == old(Gen()).With(ops, f)
      decreases e, 0
    {
      ghost var g, env := Gen(), Env();
      if !e.ty.Integer? { return None; }
      var lhs := EmitExpr(e.lhs);
      if lhs.None? { return None; }
      ghost var left := Lowering.EmitExpr(env, g.frame, e.lhs);
      var rhs := EmitExpr(e.rhs);
      if rhs.None? { return None; }
      ghost var right := Lowering.EmitExpr(env, left.frame, e.rhs);
      WithWith(g, left.ops, left.frame, right.ops, right.frame);
      var width := ctx.target.Width(e.ty.kind);
      if TypeOfValue(lhs.value) != I(width) || TypeOfValue(rhs.value) != I(width) { return None; }
      var op := ArithI(|types|, ChooseArith(e.op), width, lhs.value, rhs.value);
      var n := Create(op, I(width));
      WithWith(g, left.ops + right.ops, right.frame, [op], right.frame.Define(I(width)));
      v := Some(n);
    }

    method EmitCall(e: Expr) returns (ok: bool, v: Option<nat>)
      requires Valid() && e.Call?
      modifies `blocks, `insertPos, `types, `storage
      ensures match Lowering.EmitCall(Env(), old(Gen().frame), e)
              case CallRefused => !ok
              case CallCode(ops, f, x) => ok && v == x && Valid() && Gen() == old(Gen()).With(ops, f)
      decreases e, 0
    {
      ghost var g, env := Gen(), Env();
      ok, v := false, None;
      if e.callee == None || e.callee.value !in ctx.functions { return; }
      var callee, sig := e.callee.value, ctx.functions[e.callee.value];
      if |e.args| != |sig.params| { return; }
      var args: seq<nat> := [];
      ghost var done: seq<Op> := [];
      WithNothing(g);
      assert e.args[0..] == e.args && sig.params[0..] == sig.params;
      ghost var whole := EmitArgs(env, g.frame, e.args, sig.params);
      assert whole == Prepend([], [], whole);
      var i := 0;
      while i < |e.args|
        invariant i <= |e.args| && Valid() && Env() == env
        invariant Gen() == g.With(done, Gen().frame)
        invariant whole == Prepend(done, args, EmitArgs(env, Gen().frame, e.args[i..], sig.params[i..]))
      {
        assert e.args[i..][0] == e.args[i] && e.args[i..][1..] == e.args[i + 1..];
        assert sig.params[i..][0] == sig.params[i] && sig.params[i..][1..] == sig.params[i + 1..];
        ghost var f := Gen().frame;
        var x := EmitExpr(e.args[i]);
        if x.None? { return; }
        if Some(TypeOfValue(x.value)) != LowerType(ctx.target, sig.params[i]) { return; }
        ghost var code := Lowering.EmitExpr(env, f, e.args[i]);
        WithWith(g, done, f, code.ops, code.frame);
        ghost var rest := EmitArgs(env, code.frame, e.args[i + 1..], sig.params[i + 1..]);
        PrependOne(done, args, code.ops, x.value, rest);
        args, done := args + [x.value], done + code.ops;
        i := i + 1;
      }
      assert e.args[i..] == [] && sig.params[i..] == [];
      assert whole == ArgsCode(done + [], Gen().frame, args + []);
      assert done + [] == done && args + [] == args;
      ghost var f := Gen().frame;
      if sig.ret == Void {
        Insert(CallOp(None, callee, args));
        WithWith(g, done, f, [CallOp(None, callee, args)], f);
      } else {
        var n := Create(CallOp(Some(|types|), callee, args), I(ctx.target.Width(Int)));
        WithWith(g, done, f, [CallOp(Some(n), callee, args)], f.Define(I(ctx.target.Width(Int))));
        v := Some(n);
      }
      ok := true;
    }

    method EmitCondition(e: Expr) returns (v: Option<nat>)
      requires Valid()
      modifies `blocks, `insertPos, `types, `storage
      ensures match Lowering.EmitCondition(Env(), old(Gen().frame), e)
              case Refused => v == None
              case Code(ops, f, x) => v == Some(x) && Valid() && Gen() == old(Gen()).With(ops, f)
    {
      hide Lowering.EmitExpr;
      ghost var g, env := Gen(), Env();
      v := EmitExpr(e);
      if v.None? { return; }
      var t := TypeOfValue(v.value);
      if !t.I? { return None; }
      if t.width != 1 {
        ghost var code := Lowering.EmitExpr(env, g.frame, e);
        var zero := Create(ConstantInt(|types|, t.width, 0), I(t.width));
        var n := Create(CmpI(|types|, NE, t.width, v.value, zero), I(1));
        ghost var f, first, second := code.frame, ConstantInt(zero, t.width, 0), CmpI(n, NE, t.width, v.value, zero);
        TwoCreated(g, code.ops, f, first, I(t.width), second, I(1));
        v := Some(n);
      }
    }

    // ----- statements -----

    /** Emits items until one of them leaves the block terminated; what follows it is unreachable. */
    method EmitBlock(items: seq<Stmt>, ghost ret: CType, ghost scope: set<Decl>, ghost depth: nat) returns (ok: bool)
      requires Valid() && GenOk(Env(), Gen()) && CheckedItems(ctx, ret, scope, depth, items)
      modifies `blocks, `insertBlock, `insertPos, `types, `storage, `loopTargets
      ensures match EmitItems(Env(), old(Gen()), items)
              case None => !ok
              case Some(g) => ok && Valid() && Gen() == g
      decreases items
    {
      hide CheckedStmt, ScopeAfter;
      ghost var g, env, inner := Gen(), Env(), scope;
      var i := 0;
      assert items[0..] == items;
      while i < |items|
        invariant i <= |items| && Valid() && Env() == env && GenOk(env, Gen())
        invariant EmitItems(env, g, items) == EmitItems(env, Gen(), items[i..])
        invariant CheckedItems(ctx, ret, inner, depth, items[i..])
      {
        assert items[i..][0] == items[i] && items[i..][1..] == items[i + 1..];
        var done := Terminated();
        if done { break; }
        ghost var before := Gen();
        ok := EmitItem(items[i], ret, inner, depth);
        if !ok { return; }
        ItemShape(env, before, items[i], ret, inner, depth);
        inner := ScopeAfter(inner, items[i]);
        i := i + 1;
      }
      ok := true;
    }

    method EmitItem(stmt: Stmt, ghost ret: CType, ghost scope: set<Decl>, ghost depth: nat) returns (ok: bool)
      requires Valid() && GenOk(Env(), Gen()) && CheckedStmt(ctx, ret, scope, depth, stmt)
      modifies `blocks, `insertBlock, `insertPos, `types, `storage, `loopTargets
      ensures match Lowering.EmitItem(Env(), old(Gen()), stmt)
              case None => !ok
              case Some(g) => ok && Valid() && Gen() == g
      decreases stmt, 2
    {
      match stmt
      case VarDecl(d, init) => ok := EmitVar(d, init);
      case TypedefDecl => ok := true;
      case Compound(items) => ok := EmitBlock(items, ret, scope, depth);
      case ExprStmt(e) =>
        if e.None? { return true; }
        ok := EmitExprStmt(e.value);
      case If(_, _, _) => ok := EmitIf(stmt, ret, scope, depth);
      case While(_, _) => ok := EmitWhile(stmt, ret, scope, depth);
      case For(_, _, _, _) => ok := EmitFor(stmt, ret, scope, depth);
      case Break =>
        if loopTargets == [] { return false; }
        Insert(Branch(loopTargets[|loopTargets| - 1].breakTarget));
        ok := true;
      case Continue =>
        if loopTargets == [] { return false; }
        Insert(Branch(loopTargets[|loopTargets| - 1].continueTarget));
        ok := true;
      case Return(value) => ok := EmitReturn(value);
      case OtherItem => ok := false;
    }

    method EmitVar(d: Decl, init: Option<Expr>) returns (ok: bool)
      requires Valid()
      modifies `blocks, `insertPos, `types, `storage
      ensures match Lowering.EmitVar(Env(), old(Gen()), d, init)
              case None => !ok
              case Some(g) => ok && Valid() && Gen() == g
    {
      ghost var g, env := Gen(), Env();
      if !d.automatic || d.ty.Pointer? { return false; }
      var t := LowerType(ctx.target, d.ty);
      if t.None? { return false; }
      var slot := CreateScalarStorage(t.value);
      storage := storage[d := slot];
      ghost var f, alloc := Gen().frame, [Alloca(slot.base, t.value)];
      assert Gen() == g.With(alloc, f);
      if init.Some? {
        var v := EmitExpr(init.value);
        if v.None? || TypeOfValue(v.value) != t.value { return false; }
        ghost var code := Lowering.EmitExpr(env, f, init.value);
        WithWith(g, alloc, f, code.ops, code.frame);
        EmitStore(v.value, slot);
        WithWith(g, alloc + code.ops, code.frame, [StoreOp(v.value, slot.base)], code.frame);
      }
      ok := true;
    }

    method EmitExprStmt(e: Expr) returns (ok: bool)
      requires Valid()
      modifies `blocks, `insertPos, `types, `storage
      ensures match Lowering.EmitExprStmt(Env(), old(Gen()), e)
              case None => !ok
              case Some(g) => ok && Valid() && Gen() == g
    {
      if e.Call? {
        var v;
        ok, v := EmitCall(e);
      } else {
        var v := EmitExpr(e);
        ok := v.Some?;
      }
    }

    method EmitReturn(value: Option<Expr>) returns (ok: bool)
      requires Valid()
      modifies `blocks, `insertPos, `types, `storage
      ensures match Lowering.EmitReturn(Env(), old(Gen()), value)
              case None => !ok
              case Some(g) => ok && Valid() && Gen() == g
    {
      ghost var g, env := Gen(), Env();
      if value.None? {
        if result.Some? { return false; }
        Insert(ReturnOp(None));
      } else {
        var v := EmitExpr(value.value);
        if v.None? || result != Some(TypeOfValue(v.value)) { return false; }
        ghost var code := Lowering.EmitExpr(env, g.frame, value.value);
        Insert(ReturnOp(v));
        WithWith(g, code.ops, code.frame, [ReturnOp(v)], code.frame);
      }
      ok := true;
    }

    /** Closes the current block with a branch unless it already has a terminator. */
    method BranchIfOpen(target: nat) returns (wasOpen: bool)
      requires Valid()
      modifies `blocks, `insertPos
      ensures wasOpen == !old(Gen()).Terminated()
      ensures Valid() && Gen() == Lowering.BranchIfOpen(old(Gen()), target)
    {
      var closed := Terminated();
      if !closed { Insert(Branch(target)); }
      wasOpen := !closed;
    }

    /** A branch of an if: its block, which is still empty, then the branch to the merge block. A one-item block is its
        item, since the new block is not terminated. */
    method EmitArm(b: nat, stmt: Stmt, mergeBlock: nat, ghost ret: CType, ghost scope: set<Decl>, ghost depth: nat)
      returns (ok: bool, continues: bool)
      requires EnvOk(Env()) && Fresh(Gen(), b) && GenOk(Env(), Gen().At(b)) && CheckedStmt(ctx, ret, scope, depth, stmt)
      modifies `blocks, `insertBlock, `insertPos, `types, `storage, `loopTargets
      ensures match Lowering.EmitArm(Env(), old(Gen()), b, stmt, mergeBlock)
              case None => !ok
              case Some(arm) => ok && continues == arm.continues && Valid() && Gen() == arm.gen
      decreases stmt, 3
    {
      continues := false;
      SetInsertionPointToStart(b);
      ok := EmitItem(stmt, ret, scope, depth);
      if !ok { return; }
      continues := BranchIfOpen(mergeBlock);
    }

    method EmitIf(stmt: Stmt, ghost ret: CType, ghost scope: set<Decl>, ghost depth: nat) returns (ok: bool)
      requires Valid() && GenOk(Env(), Gen()) && stmt.If? && CheckedStmt(ctx, ret, scope, depth, stmt)
      modifies `blocks, `insertBlock, `insertPos, `types, `storage, `loopTargets
      ensures match Lowering.EmitIf(Env(), old(Gen()), stmt)
              case None => !ok
              case Some(g) => ok && Valid() && Gen() == g
      decreases stmt, 1
    {
      ghost var g, env := Gen(), Env();
      var thenBlock := |blocks|;
      ok := EmitIfHead(stmt.cond, stmt.els.Some?, scope);
      if !ok { return; }
      if stmt.els.None? {
        ok := EmitThen(g, thenBlock, stmt.thn, ret, scope, depth);
      } else {
        ok := EmitThenElse(g, thenBlock, stmt, ret, scope, depth);
      }
    }

    /** Parameters, condition, the new blocks and the conditional branch to the first two of them. */
    method EmitIfHead(cond: Expr, hasElse: bool, ghost scope: set<Decl>) returns (ok: bool)
      requires Valid() && GenOk(Env(), Gen())
      modifies `blocks, `insertBlock, `insertPos, `types, `storage
      ensures match Lowering.EmitIfHead(Env(), old(Gen()), cond, hasElse)
              case None => !ok
              case Some(g) =>
                && ok && Valid() && Gen() == g
                && IfBlocks(Env(), scope, old(Gen()), g, if hasElse then 3 else 2)
    {
      hide FrameOk, SlotsKeptOn, Lowering.EmitCondition, Lowering.MaterializeParameters;
      ghost var g, env := Gen(), Env();
      MaterializeParameters();
      var condition := EmitCondition(cond);
      if condition.None? { return false; }
      BranchOnNewBlocks(condition.value, |blocks|, if hasElse then 3 else 2);
      IfHeadShape(env, g, cond, hasElse, scope);
      ok := true;
    }

    /** Creates n blocks in order, then ends the current one with a conditional branch to the first two of them. */
    method BranchOnNewBlocks(condition: nat, b: nat, n: nat)
      requires Valid() && b == |blocks|
      modifies `blocks, `insertBlock, `insertPos
      ensures Valid() && Gen() == old(Gen()).NewBlocks(n).Append([CondBranch(condition, b, b + 1)])
    {
      ghost var g := Gen();
      var parentBlock, parentPos := insertBlock, insertPos;
      var i := 0;
      while i < n
        invariant i <= n && blocks == g.blocks + seq(i, _ => Block([], false))
      {
        var created := CreateBlock();
        i := i + 1;
      }
      RestoreInsertionPoint(parentBlock, parentPos);
      Insert(CondBranch(condition, b, b + 1));
    }

    method EmitThen(ghost g: Lowering.Gen, b: nat, thn: Stmt, ghost ret: CType, ghost scope: set<Decl>,
                    ghost depth: nat)
      returns (ok: bool)
      requires EnvOk(Env()) && b == |g.blocks| && IfBlocks(Env(), scope, g, Gen(), 2)
      requires CheckedStmt(ctx, ret, scope, depth, thn)
      modifies `blocks, `insertBlock, `insertPos, `types, `storage, `loopTargets
      ensures match Lowering.EmitThen(Env(), old(Gen()), b, thn)
              case None => !ok
              case Some(g') => ok && Valid() && Gen() == g'
      decreases thn, 4
    {
      hide Lowering.EmitItem, FrameOk, SlotsKeptOn;
      ghost var g1, env := Gen(), Env();
      assert Fresh(g1, b) && Fresh(g1, b + 1);
      var continues;
      ok, continues := EmitArm(b, thn, b + 1, ret, scope, depth);
      if !ok { return; }
      ArmKeeps(env, g, g1, b, thn, b + 1, ret, scope, depth);
      SetInsertionPointToStart(b + 1);
    }

    method EmitThenElse(ghost g: Lowering.Gen, b: nat, stmt: Stmt, ghost ret: CType, ghost scope: set<Decl>,
                        ghost depth: nat)
      returns (ok: bool)
      requires EnvOk(Env()) && b == |g.blocks| && IfBlocks(Env(), scope, g, Gen(), 3) && stmt.If? && stmt.els.Some?
      requires CheckedStmt(ctx, ret, scope, depth, stmt)
      modifies `blocks, `insertBlock, `insertPos, `types, `storage, `loopTargets
      ensures match Lowering.EmitThenElse(Env(), old(Gen()), b, stmt)
              case None => !ok
              case Some(g') => ok && Valid() && Gen() == g'
      decreases stmt, 0
    {
      hide Lowering.EmitItem, FrameOk, SlotsKeptOn, Lowering.EmitArm;
      ghost var g1, env := Gen(), Env();
      assert Fresh(g1, b) && Fresh(g1, b + 1) && Fresh(g1, b + 2);
      var thenContinues, elseContinues;
      ok, thenContinues := EmitArm(b, stmt.thn, b + 2, ret, scope, depth);
      if !ok { return; }
      ghost var g2 := Gen();
      ArmKeeps(env, g, g1, b, stmt.thn, b + 2, ret, scope, depth);
      ok, elseContinues := EmitArm(b + 1, stmt.els.value, b + 2, ret, scope, depth);
      if !ok { return; }
      ArmKeeps(env, g, g2, b + 1, stmt.els.value, b + 2, ret, scope, depth);
      Merge(b + 2, thenContinues || elseContinues);
    }

    /** Goes on in the empty block b, or erases it when nothing branches to it. */
    method Merge(b: nat, reached: bool)
      requires Valid() && b < |blocks| && blocks[b].ops == []
      modifies `blocks, `insertBlock, `insertPos
      ensures Valid() && Gen() == if reached then old(Gen()).At(b) else old(Gen()).Erase(b)
    {
      if reached {
        SetInsertionPointToStart(b);
      } else {
        blocks := blocks[b := Block([], true)];
      }
    }

    method EmitTest(test: Option<Expr>, bodyBlock: nat, exitBlock: nat) returns (ok: bool)
      requires Valid()
      modifies `blocks, `insertPos, `types, `storage
      ensures match Lowering.EmitTest(Env(), old(Gen()), test, bodyBlock, exitBlock)
              case None => !ok
              case Some(g) => ok && Valid() && Gen() == g
    {
      ghost var g, env := Gen(), Env();
      if test.None? {
        Insert(Branch(bodyBlock));
      } else {
        var condition := EmitCondition(test.value);
        if condition.None? { return false; }
        ghost var code := Lowering.EmitCondition(env, g.frame, test.value);
        var op := CondBranch(condition.value, bodyBlock, exitBlock);
        Insert(op);
        WithWith(g, code.ops, code.frame, [op], code.frame);
      }
      ok := true;
    }

    /** From the empty condition block to the end of the body. The targets are pushed for the body only. */
    method EmitLoop(test: Option<Expr>, body: Stmt, bodyBlock: nat, t: LoopTargets, ghost ret: CType,
                    ghost scope: set<Decl>, ghost depth: nat) returns (ok: bool)
      requires Valid() && GenOk(Env(), Gen()) && Fresh(Gen(), bodyBlock) && bodyBlock != insertBlock
      requires CheckedOption(ctx, scope, test) && CheckedStmt(ctx, ret, scope, depth + 1, body)
      modifies `blocks, `insertBlock, `insertPos, `types, `storage, `loopTargets
      ensures match Lowering.EmitLoop(Env(), old(Gen()), test, body, bodyBlock, t)
              case None => !ok
              case Some(g) => ok && Valid() && Gen() == g
      decreases body, 3
    {
      hide Lowering.EmitItem, Lowering.EmitTest, CheckedStmt;
      ghost var g, env := Gen(), Env();
      ok := EmitTest(test, bodyBlock, t.breakTarget);
      if !ok { return; }
      AfterTest(env, g, test, bodyBlock, t.breakTarget);
      SetInsertionPointToStart(bodyBlock);
      ok := EmitLoopBody(body, t, ret, scope, depth);
      if !ok { return; }
      var open := BranchIfOpen(t.continueTarget);
    }

    /** The body, with the targets pushed. */
    method EmitLoopBody(body: Stmt, t: LoopTargets, ghost ret: CType, ghost scope: set<Decl>,
                        ghost depth: nat) returns (ok: bool)
      requires Valid() && GenOk(Env(), Gen()) && CheckedStmt(ctx, ret, scope, depth + 1, body)
      modifies `blocks, `insertBlock, `insertPos, `types, `storage, `loopTargets
      ensures match Lowering.EmitItem(Env(), old(Gen()).Enter(t), body)
              case None => !ok
              case Some(g) => ok && Valid() && Gen() == g.Leave()
      decreases body, 3, 0
    {
      hide Lowering.EmitItem, CheckedStmt;
      ghost var env := Env();
      loopTargets := loopTargets + [t];
      ghost var g := Gen();
      ok := EmitItem(body, ret, scope, depth + 1);
      if !ok { return; }
      LoopsBack(env, g, body, ret, scope, depth + 1);
      loopTargets := loopTargets[..|loopTargets| - 1];
    }

    method EmitWhile(stmt: Stmt, ghost ret: CType, ghost scope: set<Decl>, ghost depth: nat) returns (ok: bool)
      requires Valid() && GenOk(Env(), Gen()) && stmt.While? && CheckedStmt(ctx, ret, scope, depth, stmt)
      modifies `blocks, `insertBlock, `insertPos, `types, `storage, `loopTargets
      ensures match Lowering.EmitWhile(Env(), old(Gen()), stmt)
              case None => !ok
              case Some(g) => ok && Valid() && Gen() == g
      decreases stmt, 1
    {
      hide Lowering.EmitLoop, Lowering.MaterializeParameters;
      ghost var g, env := Gen(), Env();
      ParametersLater(env, scope, g);
      MaterializeParameters();
      ghost var g0 := Gen();
      var conditionBlock := |blocks|;
      var bodyBlock, exitBlock := conditionBlock + 1, conditionBlock + 2;
      EnterLoop(3, scope);
      assert Fresh(Gen(), bodyBlock) && Fresh(Gen(), exitBlock);
      ok := EmitLoop(Some(stmt.cond), stmt.body, bodyBlock, LoopTargets(exitBlock, conditionBlock), ret, scope, depth);
      if !ok { return; }
      LoopKeeps(env, g0, 3, Some(stmt.cond), stmt.body, LoopTargets(exitBlock, conditionBlock), ret, scope, depth);
      assert Fresh(Gen(), exitBlock);
      SetInsertionPointToStart(exitBlock);
    }

    method EmitFor(stmt: Stmt, ghost ret: CType, ghost scope: set<Decl>, ghost depth: nat) returns (ok: bool)
      requires Valid() && GenOk(Env(), Gen()) && stmt.For? && CheckedStmt(ctx, ret, scope, depth, stmt)
      modifies `blocks, `insertBlock, `insertPos, `types, `storage, `loopTargets
      ensures match Lowering.EmitFor(Env(), old(Gen()), stmt)
              case None => !ok
              case Some(g) => ok && Valid() && Gen() == g
      decreases stmt, 1
    {
      ghost var g, env := Gen(), Env();
      ParametersLater(env, scope, g);
      MaterializeParameters();
      ghost var inner := scope;
      if stmt.start.Some? {
        ghost var gM := Gen();
        ok := EmitItem(stmt.start.value, ret, scope, depth);
        if !ok { return; }
        ItemShape(env, gM, stmt.start.value, ret, scope, depth);
        inner := ScopeAfter(scope, stmt.start.value);
      }
      ok := EmitForLoop(stmt.test, stmt.incr, stmt.body, ret, inner, depth);
    }

    /** A for loop after its initializer. */
    method EmitForLoop(test: Option<Expr>, incr: Option<Expr>, body: Stmt, ghost ret: CType, ghost scope: set<Decl>,
                       ghost depth: nat) returns (ok: bool)
      requires Valid() && GenOk(Env(), Gen())
      requires CheckedOption(ctx, scope, test) && CheckedStmt(ctx, ret, scope, depth + 1, body)
      modifies `blocks, `insertBlock, `insertPos, `types, `storage, `loopTargets
      ensures match Lowering.EmitForLoop(Env(), old(Gen()), test, incr, body)
              case None => !ok
              case Some(g) => ok && Valid() && Gen() == g
      decreases body, 4
    {
      hide Lowering.EmitLoop, Lowering.EmitExprStmt;
      ghost var g0, env := Gen(), Env();
      var conditionBlock := |blocks|;
      var bodyBlock, incrementBlock, exitBlock := conditionBlock + 1, conditionBlock + 2, conditionBlock + 3;
      var t := LoopTargets(exitBlock, incrementBlock);
      EnterLoop(4, scope);
      assert Fresh(Gen(), bodyBlock) && Fresh(Gen(), incrementBlock) && Fresh(Gen(), exitBlock);
      ok := EmitLoop(test, body, bodyBlock, t, ret, scope, depth);
      if !ok { return; }
      LoopKeeps(env, g0, 4, test, body, t, ret, scope, depth);
      assert Fresh(Gen(), incrementBlock) && Fresh(Gen(), exitBlock);
      ok := EmitIncrement(incr, incrementBlock, conditionBlock, exitBlock);
    }

    /** The increment in its own block, a branch back to the condition, and on to the exit block. */
    method EmitIncrement(incr: Option<Expr>, b: nat, conditionBlock: nat, exitBlock: nat) returns (ok: bool)
      requires GenOk(Env(), Gen()) && Fresh(Gen(), b) && Fresh(Gen(), exitBlock) && b != exitBlock
      modifies `blocks, `insertBlock, `insertPos, `types, `storage
      ensures match EmitStep(Env(), old(Gen()).At(b), incr)
              case None => !ok
              case Some(g) => ok && Valid() && Gen() == g.Append([Branch(conditionBlock)]).At(exitBlock)
    {
      ghost var g, env := Gen(), Env();
      ok := true;
      SetInsertionPointToStart(b);
      if incr.Some? {
        ok := EmitExprStmt(incr.value);
        if !ok { return; }
      }
      StepKeeps(env, g, b, incr, exitBlock);
      Insert(Branch(conditionBlock));
      SetInsertionPointToStart(exitBlock);
    }

    /** Creates a loop's n blocks in order, branches to the first and moves there. */
    method EnterLoop(n: nat, ghost scope: set<Decl>)
      requires Valid() && GenOk(Env(), Gen()) && n > 0
      modifies `blocks, `insertBlock, `insertPos
      ensures Valid() && Gen() == LoopEntry(old(Gen()), n)
      ensures GenOk(Env(), Gen()) && forall b :: old(|blocks|) <= b < old(|blocks|) + n ==> Fresh(Gen(), b)
    {
      ghost var g := Gen();
      var parentBlock, parentPos, first := insertBlock, insertPos, |blocks|;
      var i := 0;
      while i < n
        invariant i <= n && blocks == g.blocks + seq(i, _ => Block([], false))
      {
        var b := CreateBlock();
        i := i + 1;
      }
      RestoreInsertionPoint(parentBlock, parentPos);
      Insert(Branch(first));
      LoopEntryLater(Env(), scope, g, n);
      SetInsertionPointToStart(first);
    }

    /** A function definition: its body, then the return it may leave out. The entry block's arguments are already
        bound. */
    method EmitFunction(fn: Function, ghost entry: Frame) returns (ok: bool)
      requires Valid() && GenOk(Env(), Gen()) && Gen() == EntryGen(entry) && Env() == FunctionEnv(ctx, fn, order)
      requires fn.name in ctx.functions && |fn.params| == |ctx.functions[fn.name].params|
      requires EntryFrame(ctx.target, ctx.functions[fn.name].params) == Some(entry)
      requires CheckedItems(ctx, fn.ret, ParamSet(fn.params), 0, fn.body)
      modifies `blocks, `insertBlock, `insertPos, `types, `storage, `loopTargets
      ensures match Lowering.EmitFunction(ctx, fn, order)
              case None => !ok
              case Some(p) => ok && blocks == p
    {
      hide EmitItems, CheckedItems;
      ok := EmitBlock(fn.body, fn.ret, ParamSet(fn.params), 0);
      if !ok { return; }
      ok := CloseBody(fn);
    }

    /** The return that the body may leave out. */
    method CloseBody(fn: Function) returns (ok: bool)
      requires Valid()
      modifies `blocks, `insertPos, `types
      ensures match Lowering.CloseBody(ctx, fn, old(Gen()))
              case None => !ok
              case Some(g) => ok && blocks == g.blocks
    {
      ok := true;
      ghost var g := Gen();
      var closed := Terminated();
      if !closed {
        if fn.ret == Void {
          Insert(ReturnOp(None));
        } else if fn.name == "main" {
          var width := Lowered(ctx.target, fn.ret).WidthOr(0);
          var zero := Create(ConstantInt(|types|, width, 0), I(width));
          Insert(ReturnOp(Some(zero)));
          assert g.Ops() + [ConstantInt(zero, width, 0)] + [ReturnOp(Some(zero))]
              == g.Ops() + [ConstantInt(zero, width, 0), ReturnOp(Some(zero))];
        } else {
          ok := false;
        }
      }
    }
  }

  /** The state after an if's head: n new empty blocks, and nothing else that matters has moved. */
  ghost predicate IfBlocks(env: Lowering.Env, scope: set<Decl>, g: Lowering.Gen, g1: Lowering.Gen, n: nat) {
    && Later(env, scope, g, g1) && |g1.blocks| == |g.blocks| + n
    && forall b :: |g.blocks| <= b < |g.blocks| + n ==> Fresh(g1, b)
  }

  lemma {:induction false} ArmKeeps(env: Lowering.Env, g: Lowering.Gen, g1: Lowering.Gen, b: nat, stmt: Stmt,
                                    mergeBlock: nat, ret: CType, scope: set<Decl>, depth: nat)
    requires Later(env, scope, g, g1) && |g.blocks| <= b < |g1.blocks|
    requires CheckedStmt(env.ctx, ret, scope, depth, stmt) && EmitArm(env, g1, b, stmt, mergeBlock).Some?
    ensures var g2 := EmitArm(env, g1, b, stmt, mergeBlock).value.gen;
            Later(env, scope, g, g2) && forall b' :: b' != b && Fresh(g1, b') ==> Fresh(g2, b')
  {
    ArmShape(env, g, g1, b, stmt, mergeBlock, ret, scope, depth);
  }

  lemma {:induction false} AfterTest(env: Lowering.Env, g: Lowering.Gen, test: Option<Expr>, bodyBlock: nat,
                                     exitBlock: nat)
    requires GenOk(env, g) && EmitTest(env, g, test, bodyBlock, exitBlock).Some?
    ensures var g1 := EmitTest(env, g, test, bodyBlock, exitBlock).value;
            GenOk(env, g1) && forall b :: b != g.cur && Fresh(g, b) ==> Fresh(g1, b)
  {
    TestShape(env, g, test, bodyBlock, exitBlock, {});
  }

  lemma {:induction false} LoopsBack(env: Lowering.Env, g: Lowering.Gen, stmt: Stmt, ret: CType, scope: set<Decl>,
                                     depth: nat)
    requires GenOk(env, g) && CheckedStmt(env.ctx, ret, scope, depth, stmt) && EmitItem(env, g, stmt).Some?
    ensures EmitItem(env, g, stmt).value.loops == g.loops
  {
    ItemShape(env, g, stmt, ret, scope, depth);
  }

  /** A loop's later blocks are still empty when its body has been emitted. */
  lemma {:induction false} LoopKeeps(env: Lowering.Env, g: Lowering.Gen, n: nat, test: Option<Expr>, body: Stmt,
                                     t: LoopTargets, ret: CType, scope: set<Decl>, depth: nat)
    requires GenOk(env, g) && n >= 3 && CheckedOption(env.ctx, scope, test)
    requires CheckedStmt(env.ctx, ret, scope, depth + 1, body)
    requires EmitLoop(env, LoopEntry(g, n), test, body, |g.blocks| + 1, t).Some?
    ensures var g4 := EmitLoop(env, LoopEntry(g, n), test, body, |g.blocks| + 1, t).value;
            GenOk(env, g4) && forall b :: |g.blocks| + 2 <= b < |g.blocks| + n ==> Fresh(g4, b)
  {
    hide Lowering.EmitItem, FrameOk, CheckedStmt, EmitTest, SlotsKeptOn;
    LoopEntryLater(env, scope, g, n);
    assert forall b :: |g.blocks| <= b < |g.blocks| + n ==> Fresh(LoopEntry(g, n), b);
    LoopShape(env, g, LoopEntry(g, n), test, body, |g.blocks| + 1, t, ret, scope, scope, depth);
  }

  lemma {:induction false} StepKeeps(env: Lowering.Env, g: Lowering.Gen, b: nat, incr: Option<Expr>, exit: nat)
    requires GenOk(env, g) && b < |g.blocks| && exit != b && Fresh(g, exit) && EmitStep(env, g.At(b), incr).Some?
    ensures Fresh(EmitStep(env, g.At(b), incr).value, exit) && EmitStep(env, g.At(b), incr).value.cur == b
  {
    if incr.Some? { ExprStmtShape(env, g.At(b), incr.value, {}); }
  }

  lemma {:induction false} PrependOne(done: seq<Op>, args: seq<nat>, ops: seq<Op>, x: nat, rest: ArgsCode)
    ensures Prepend(done + ops, args + [x], rest) == Prepend(done, args, Prepend(ops, [x], rest))
  {
    if rest.ArgsCode? {
      assert done + ops + rest.ops == done + (ops + rest.ops);
      assert args + [x] + rest.values == args + ([x] + rest.values);
    }
  }
}
