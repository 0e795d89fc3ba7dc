/** Emitted expressions compute what the source expressions denote: same value, same calls, same objects up to renaming
    of addresses, with parameters that are still SSA values standing for objects that exist only in the source. */
module ExprSimulation {
  import opened CAst
  import opened Wrappers
  import opened Integers
  import opened Storage
  import opened StorageRelation
  import opened CSemantics
  import opened Contract
  import opened Ir
  import opened Lowering

  // ----- the relation -----

  ghost predicate Declared(env: Env) {
    env.ctx.target.Valid() &&
    forall name :: name in env.ctx.functions ==> Declarable(env.ctx.target, env.ctx.functions[name])
  }

  ghost predicate FrameOk(env: Env, f: Frame) {
    && Declared(env)
    && (forall d :: d in env.values ==>
          env.values[d] < |f.types| && LowerType(env.ctx.target, d.ty) == Some(f.types[env.values[d]]))
    && (forall d :: d in f.storage ==> SlotOk(env, f, d))
  }

  ghost predicate SlotOk(env: Env, f: Frame, d: Decl)
    requires env.ctx.target.Valid() && d in f.storage
  {
    && d.ty.Integer?
    && f.storage[d].elem == I(env.ctx.target.Width(d.ty.kind))
    && f.storage[d].base < |f.types|
    && f.types[f.storage[d].base] == Ptr(f.storage[d].elem)
  }

  /** Register r holds value v of type ty. */
  ghost predicate ValueRel(target: Target, m: Renaming, mem: seq<Cell>, ty: CType, v: Val, r: Reg)
    requires target.Valid()
  {
    match ty
    case Integer(k) =>
      && v.IntVal? && r.IntReg? && r.bits < Pow2(target.Width(k))
      && v.v == Reading(IsSigned(k), target.Width(k), r.bits)
    case Pointer(Integer(_)) =>
      v.PtrVal? && v.addr in m && r == PtrReg(m[v.addr]) && v.addr < |mem|
    case _ => false
  }

  /** Variable d: either its slot is the renamed object, or the object has no slot yet, nothing points to it, and the
      parameter's entry value is its contents. */
  ghost predicate VarRel(env: Env, f: Frame, m: Renaming, d: Decl, s: State, c: Core)
    requires env.ctx.target.Valid()
  {
    && d in s.env
    && if d in f.storage then
         && d.ty.Integer? && s.env[d].Object? && s.env[d].addr in m && s.env[d].addr < |s.store.mem|
         && f.storage[d].base in c.regs
         && c.regs[f.storage[d].base] == PtrReg(m[s.env[d].addr])
         && s.store.mem[s.env[d].addr].width == env.ctx.target.Width(d.ty.kind)
       else
         && d in env.values && env.values[d] in c.regs
         && match s.env[d]
            case Object(a) =>
              && d.ty.Integer? && a < |s.store.mem| && a !in m
              && s.store.mem[a].width == env.ctx.target.Width(d.ty.kind)
              && c.regs[env.values[d]] == IntReg(s.store.mem[a].bits)
            case PointerParam(a) =>
              d.ty.Pointer? && ValueRel(env.ctx.target, m, s.store.mem, d.ty, PtrVal(a), c.regs[env.values[d]])
  }

  predicate Private(f: Frame, d: Decl, s: State) {
    d !in f.storage && d in s.env && s.env[d].Object?
  }

  ghost predicate Rel(env: Env, f: Frame, scope: set<Decl>, m: Renaming, s: State, c: Core) {
    && FrameOk(env, f)
    && Related(m, s.store, c.store)
    && (forall d :: d in scope ==> VarRel(env, f, m, d, s, c))
    && (forall d, d' :: d in scope && d' in scope && d != d' && Private(f, d, s) && Private(f, d', s) ==>
          s.env[d] != s.env[d'])
  }

  ghost predicate RegsKept(n: nat, r: map<nat, Reg>, r': map<nat, Reg>) {
    forall id :: id < n && id in r ==> id in r' && r'[id] == r[id]
  }

  ghost predicate SlotsKept(f: Frame, f': Frame) {
    forall d :: d in f.storage ==> d in f'.storage && f'.storage[d] == f.storage[d]
  }

  ghost predicate Moved(f: Frame, m: Renaming, s: State, c: Core, f': Frame, m': Renaming, s': State, c': Core) {
    && f.types <= f'.types
    && SlotsKept(f, f')
    && Extends(m, m')
    && s'.env == s.env
    && Kept(s.store.mem, s'.store.mem)
    && RegsKept(|f.types|, c.regs, c'.regs)
  }

  lemma {:induction false} MovedTrans(f: Frame, m: Renaming, s: State, c: Core, f1: Frame, m1: Renaming, s1: State,
                                      c1: Core, f2: Frame, m2: Renaming, s2: State, c2: Core)
    requires Moved(f, m, s, c, f1, m1, s1, c1) && Moved(f1, m1, s1, c1, f2, m2, s2, c2)
    ensures Moved(f, m, s, c, f2, m2, s2, c2)
  {
  }

  lemma {:induction false} ValueStays(target: Target, f: Frame, m: Renaming, s: State, c: Core, f': Frame, m': Renaming,
                                      s': State, c': Core, ty: CType, v: Val, id: nat)
    requires target.Valid() && Moved(f, m, s, c, f', m', s', c')
    requires id < |f.types| && id in c.regs && ValueRel(target, m, s.store.mem, ty, v, c.regs[id])
    ensures id in c'.regs && ValueRel(target, m', s'.store.mem, ty, v, c'.regs[id])
    ensures c'.regs[id] == (if c.regs[id].IntReg? then c.regs[id] else c'.regs[id])
  {
  }

  /** Running ops takes the machine from c to c1 and keeps the relation, under frame f1. */
  ghost predicate Reached(env: Env, w: World, scope: set<Decl>, ops: seq<Op>, f: Frame, m: Renaming, s: State, c: Core,
                          f1: Frame, m1: Renaming, s1: State, c1: Core)
    requires env.ctx.target.Valid()
  {
    && ExecOps(w, env.ctx.target.intBits, ops, c) == Some(c1)
    && Rel(env, f1, scope, m1, s1, c1)
    && Moved(f, m, s, c, f1, m1, s1, c1)
  }

  lemma {:induction false} ReachedTrans(env: Env, w: World, scope: set<Decl>, ops: seq<Op>, more: seq<Op>, f: Frame,
                                        m: Renaming, s: State, c: Core, f1: Frame, m1: Renaming, s1: State, c1: Core,
                                        f2: Frame, m2: Renaming, s2: State, c2: Core)
    requires env.ctx.target.Valid()
    requires Reached(env, w, scope, ops, f, m, s, c, f1, m1, s1, c1)
    requires Reached(env, w, scope, more, f1, m1, s1, c1, f2, m2, s2, c2)
    ensures Reached(env, w, scope, ops + more, f, m, s, c, f2, m2, s2, c2)
  {
    ExecOpsConcat(w, env.ctx.target.intBits, ops, more, c);
    MovedTrans(f, m, s, c, f1, m1, s1, c1, f2, m2, s2, c2);
  }

  /** One more operation, which only defines a value. */
  lemma {:induction false} ReachedDefine(env: Env, w: World, scope: set<Decl>, ops: seq<Op>, op: Op, t: MType, r: Reg,
                                         f: Frame, m: Renaming, s: State, c: Core, f1: Frame, m1: Renaming, s1: State,
                                         c1: Core)
    requires env.ctx.target.Valid()
    requires Reached(env, w, scope, ops, f, m, s, c, f1, m1, s1, c1)
    requires ExecOp(w, env.ctx.target.intBits, op, c1) == Some(c1.Set(f1.Next(), r))
    ensures Reached(env, w, scope, ops + [op], f, m, s, c, f1.Define(t), m1, s1, c1.Set(f1.Next(), r))
  {
    ExecOpsConcat(w, env.ctx.target.intBits, ops, [op], c);
    DefineKeeps(env, f1, scope, m1, s1, c1, t, r);
    MovedTrans(f, m, s, c, f1, m1, s1, c1, f1.Define(t), m1, s1, c1.Set(f1.Next(), r));
  }

  /** Defining a new value disturbs nothing. */
  lemma {:induction false} DefineKeeps(env: Env, f: Frame, scope: set<Decl>, m: Renaming, s: State, c: Core, t: MType,
                                       r: Reg)
    requires Rel(env, f, scope, m, s, c)
    ensures Rel(env, f.Define(t), scope, m, s, c.Set(f.Next(), r))
    ensures Moved(f, m, s, c, f.Define(t), m, s, c.Set(f.Next(), r))
  {
    var f', c' := f.Define(t), c.Set(f.Next(), r);
    assert forall d :: d in f'.storage ==> SlotOk(env, f, d);
    assert FrameOk(env, f');
    forall d | d in scope
      ensures VarRel(env, f', m, d, s, c')
    {
      assert VarRel(env, f, m, d, s, c);
    }
    assert forall d :: Private(f', d, s) == Private(f, d, s);
  }

  /** Storing through related pointers. */
  lemma {:induction false} StoreKeeps(env: Env, f: Frame, scope: set<Decl>, m: Renaming, s: State, c: Core, a: nat,
                                      bits: nat)
    requires Rel(env, f, scope, m, s, c) && a in m && a < |s.store.mem| && bits < Pow2(s.store.mem[a].width)
    requires m[a] < |c.store.mem|
    ensures Rel(env, f, scope, m, s.(store := s.store.Write(a, bits)), c.(store := c.store.Write(m[a], bits)))
    ensures Moved(f, m, s, c, f, m, s.(store := s.store.Write(a, bits)), c.(store := c.store.Write(m[a], bits)))
  {
    var s', c' := s.(store := s.store.Write(a, bits)), c.(store := c.store.Write(m[a], bits));
    WriteKeeps(m, s.store, c.store, a, bits);
    forall d | d in scope
      ensures VarRel(env, f, m, d, s', c')
    {
      assert VarRel(env, f, m, d, s, c);
    }
    assert forall d :: Private(f, d, s') == Private(f, d, s);
  }

  lemma {:induction false} CallKeepsRel(env: Env, f: Frame, scope: set<Decl>, m: Renaming, s: State, c: Core, w: World,
                                        callee: string, xs: seq<Arg>, ys: seq<Arg>)
    requires Rel(env, f, scope, m, s, c) && RelatedArgs(m, xs, ys)
    ensures Rel(env, f, scope, m, s.(store := AfterCall(w, callee, xs, s.store)),
                c.(store := AfterCall(w, callee, ys, c.store)))
    ensures Moved(f, m, s, c, f, m, s.(store := AfterCall(w, callee, xs, s.store)),
                  c.(store := AfterCall(w, callee, ys, c.store)))
  {
    var s' := s.(store := AfterCall(w, callee, xs, s.store));
    var c' := c.(store := AfterCall(w, callee, ys, c.store));
    CallKeeps(m, w, callee, s.store, c.store, xs, ys);
    forall d | d in scope
      ensures VarRel(env, f, m, d, s', c')
    {
      assert VarRel(env, f, m, d, s, c);
    }
    assert forall d :: Private(f, d, s') == Private(f, d, s);
  }

  lemma {:induction false} MaterializeRuns(env: Env, w: World, f: Frame, d: Decl, cell: Cell, c: Core)
    requires FrameOk(env, f) && d in env.values && env.values[d] in c.regs
    requires LowerType(env.ctx.target, d.ty) == Some(I(cell.width)) && cell.Valid()
    requires c.regs[env.values[d]] == IntReg(cell.bits)
    ensures ExecOps(w, env.ctx.target.intBits, Materialize(env, f, d).1, c)
         == Some(Core(c.regs[f.Next() := PtrReg(|c.store.mem|)], c.store.(mem := c.store.mem + [cell])))
  {
    var ops, n := Materialize(env, f, d).1, f.Next();
    var c1 := Core(c.regs[n := PtrReg(|c.store.mem|)], c.store.Allocate(w, cell.width));
    assert ExecOp(w, env.ctx.target.intBits, ops[0], c) == Some(c1);
    var c2 := c1.(store := c1.store.Write(|c.store.mem|, cell.bits));
    assert ExecOp(w, env.ctx.target.intBits, ops[1], c1) == Some(c2);
    assert c2.store.mem == c.store.mem + [cell];
    assert ops == [ops[0]] + [ops[1]];
    ExecOpsConcat(w, env.ctx.target.intBits, [ops[0]], [ops[1]], c);
  }

  /** Giving a parameter its slot moves the object's contents from the entry value to memory. */
  lemma {:induction false} MaterializeSim(env: Env, w: World, f: Frame, d: Decl, scope: set<Decl>, m: Renaming,
                                          s: State, c: Core)
    returns (m': Renaming, c': Core)
    requires Rel(env, f, scope, m, s, c) && d in scope && d !in f.storage && d.ty.Integer? && d in env.values
    ensures var (f', ops) := Materialize(env, f, d);
            && ExecOps(w, env.ctx.target.intBits, ops, c) == Some(c')
            && Rel(env, f', scope, m', s, c')
            && Moved(f, m, s, c, f', m', s, c')
            && s.env[d].Object? && s.env[d].addr in m'
  {
    var (f', ops) := Materialize(env, f, d);
    assert VarRel(env, f, m, d, s, c);
    var a := s.env[d].addr;
    var b := |c.store.mem|;
    var n := f.Next();
    var width := env.ctx.target.Width(d.ty.kind);
    assert s.store.mem[a].Valid();
    m' := m[a := b];
    c' := Core(c.regs[n := PtrReg(b)], c.store.(mem := c.store.mem + [s.store.mem[a]]));
    MaterializeRuns(env, w, f, d, s.store.mem[a], c);
    ShareKeeps(m, s.store, c.store, a);
    forall d' | d' in f'.storage
      ensures SlotOk(env, f', d')
    {
      if d' != d { assert SlotOk(env, f, d'); }
    }
    forall d' | d' in scope
      ensures VarRel(env, f', m', d', s, c')
    {
      assert VarRel(env, f, m, d', s, c);
      if d' != d && Private(f, d', s) { assert s.env[d'] != s.env[d]; }
    }
    assert forall d' :: Private(f', d', s) ==> Private(f, d', s);
  }

  // ----- expressions -----

  ghost predicate ExprDone(env: Env, w: World, scope: set<Decl>, f: Frame, code: Code, ty: CType, r: Evaluated,
                           m: Renaming, s: State, c: Core, m': Renaming, c': Core)
    requires env.ctx.target.Valid()
  {
    && code.Code? && r.Got?
    && Reached(env, w, scope, code.ops, f, m, s, c, code.frame, m', r.s, c')
    && code.value < |code.frame.types|
    && LowerType(env.ctx.target, ty) == Some(code.frame.types[code.value])
    && code.value in c'.regs
    && ValueRel(env.ctx.target, m', r.s.store.mem, ty, r.val, c'.regs[code.value])
  }

  ghost predicate PlaceDone(env: Env, w: World, scope: set<Decl>, f: Frame, code: PlaceCode, ty: CType, r: Evaluated,
                            m: Renaming, s: State, c: Core, m': Renaming, c': Core)
    requires env.ctx.target.Valid()
  {
    && code.PlaceCode? && r.Got? && r.val.PtrVal? && ty.Integer?
    && Reached(env, w, scope, code.ops, f, m, s, c, code.frame, m', r.s, c')
    && code.slot.base < |code.frame.types|
    && code.slot.elem == I(env.ctx.target.Width(ty.kind))
    && code.frame.types[code.slot.base] == Ptr(code.slot.elem)
    && code.slot.base in c'.regs
    && ValueRel(env.ctx.target, m', r.s.store.mem, Pointer(ty), r.val, c'.regs[code.slot.base])
  }

  lemma {:induction false} SimExpr(env: Env, w: World, f: Frame, e: Expr, scope: set<Decl>, m: Renaming, s: State,
                                   c: Core)
    returns (m': Renaming, c': Core)
    requires Rel(env, f, scope, m, s, c) && Checked(env.ctx, scope, e) && EmitExpr(env, f, e).Code?
    requires Eval(w, env.ctx, e, s).Got?
    ensures ExprDone(env, w, scope, f, EmitExpr(env, f, e), TypeOf(e), Eval(w, env.ctx, e, s), m, s, c, m', c')
    decreases e, 2
  {
    match e
    case IntLit(val, ty) => m', c' := SimLiteral(env, w, f, e, scope, m, s, c);
    case Ident(d) => m', c' := SimIdent(env, w, f, d, scope, m, s, c);
    case AddrOf(operand, ty) =>
      m', c' := SimPlace(env, w, f, operand, scope, m, s, c);
    case Deref(operand, ty) => m', c' := SimDeref(env, w, f, e, scope, m, s, c);
    case Cast(kind, operand, ty) =>
      m', c' := SimExpr(env, w, f, operand, scope, m, s, c);
      m', c' := SimCast(env, w, f, e, scope, m, s, c, m', c');
    case Call(callee, args, ty) => m', c' := SimCallExpr(env, w, f, e, scope, m, s, c);
    case Binary(op, lhs, rhs, ty) =>
      if op == Assign {
        m', c' := SimAssign(env, w, f, e, scope, m, s, c);
      } else {
        m', c' := SimBinary(env, w, f, e, scope, m, s, c);
      }
  }

  lemma {:induction false} SimLiteral(env: Env, w: World, f: Frame, e: Expr, scope: set<Decl>, m: Renaming, s: State,
                                      c: Core)
    returns (m': Renaming, c': Core)
    requires Rel(env, f, scope, m, s, c) && e.IntLit? && e.ty.Integer?
    ensures ExprDone(env, w, scope, f, EmitExpr(env, f, e), TypeOf(e), Eval(w, env.ctx, e, s), m, s, c, m', c')
  {
    var width := env.ctx.target.Width(e.ty.kind);
    m', c' := m, c.Set(f.Next(), IntReg(Bits(width, e.val)));
    DefineKeeps(env, f, scope, m, s, c, I(width), IntReg(Bits(width, e.val)));
  }

  lemma {:induction false} SimIdent(env: Env, w: World, f: Frame, d: Decl, scope: set<Decl>, m: Renaming, s: State,
                                    c: Core)
    returns (m': Renaming, c': Core)
    requires Rel(env, f, scope, m, s, c) && d in scope && EmitExpr(env, f, Ident(d)).Code?
    requires Eval(w, env.ctx, Ident(d), s).Got?
    ensures ExprDone(env, w, scope, f, EmitExpr(env, f, Ident(d)), d.ty, Eval(w, env.ctx, Ident(d), s), m, s, c, m', c')
  {
    assert VarRel(env, f, m, d, s, c);
    m', c' := m, c;
    if d in f.storage {
      assert SlotOk(env, f, d);
      c' := SimLoad(env, w, f, d.ty, f.storage[d], s.env[d].addr, scope, m, s, c);
    } else {
      assert s.env[d].Object? ==> s.store.mem[s.env[d].addr].Valid();
    }
  }

  /** Loading through a pointer reads the object it designates. */
  lemma {:induction false} SimLoad(env: Env, w: World, f: Frame, ty: CType, slot: Slot, a: nat, scope: set<Decl>,
                                   m: Renaming, s: State, c: Core)
    returns (c': Core)
    requires Rel(env, f, scope, m, s, c) && ty.Integer? && slot.elem == I(env.ctx.target.Width(ty.kind))
    requires slot.base < |f.types| && slot.base in c.regs
    requires ValueRel(env.ctx.target, m, s.store.mem, Pointer(ty), PtrVal(a), c.regs[slot.base])
    requires Load(env.ctx, a, ty, s).Got?
    ensures ExprDone(env, w, scope, f, Code([LoadOp(f.Next(), slot.elem, slot.base)], f.Define(slot.elem), f.Next()),
                     ty, Load(env.ctx, a, ty, s), m, s, c, m, c')
  {
    assert s.store.mem[a].Valid();
    var r := IntReg(s.store.mem[a].bits);
    c' := c.Set(f.Next(), r);
    DefineKeeps(env, f, scope, m, s, c, slot.elem, r);
    assert ExecOp(w, env.ctx.target.intBits, LoadOp(f.Next(), slot.elem, slot.base), c) == Some(c');
  }

  lemma {:induction false} SimPlace(env: Env, w: World, f: Frame, e: Expr, scope: set<Decl>, m: Renaming, s: State,
                                    c: Core)
    returns (m': Renaming, c': Core)
    requires Rel(env, f, scope, m, s, c) && Checked(env.ctx, scope, e) && EmitPlace(env, f, e).PlaceCode?
    requires EvalPlace(w, env.ctx, e, s).Got?
    ensures PlaceDone(env, w, scope, f, EmitPlace(env, f, e), TypeOf(e), EvalPlace(w, env.ctx, e, s), m, s, c, m', c')
    decreases e, 0
  {
    match e
    case Deref(operand, ty) =>
      m', c' := SimExpr(env, w, f, operand, scope, m, s, c);
    case Ident(d) =>
      assert VarRel(env, f, m, d, s, c);
      if d in f.storage {
        assert SlotOk(env, f, d);
        m', c' := m, c;
      } else {
        m', c' := MaterializeSim(env, w, f, d, scope, m, s, c);
        var f' := Materialize(env, f, d).0;
        assert SlotOk(env, f', d);
        assert VarRel(env, f', m', d, s, c');
      }
  }

  lemma {:induction false} SimDeref(env: Env, w: World, f: Frame, e: Expr, scope: set<Decl>, m: Renaming, s: State,
                                    c: Core)
    returns (m': Renaming, c': Core)
    requires Rel(env, f, scope, m, s, c) && Checked(env.ctx, scope, e) && EmitExpr(env, f, e).Code? && e.Deref?
    requires Eval(w, env.ctx, e, s).Got?
    ensures ExprDone(env, w, scope, f, EmitExpr(env, f, e), TypeOf(e), Eval(w, env.ctx, e, s), m, s, c, m', c')
    decreases e, 1
  {
    hide Moved;
    var place := EmitPlace(env, f, e);
    var r := EvalPlace(w, env.ctx, e, s);
    var c1;
    m', c1 := SimPlace(env, w, f, e, scope, m, s, c);
    c' := SimLoad(env, w, place.frame, e.ty, place.slot, r.val.addr, scope, m', r.s, c1);
    ReachedTrans(env, w, scope, place.ops, [LoadOp(place.frame.Next(), place.slot.elem, place.slot.base)],
                 f, m, s, c, place.frame, m', r.s, c1, place.frame.Define(place.slot.elem), m', r.s, c');
  }

  lemma {:induction false} SimCast(env: Env, w: World, f: Frame, e: Expr, scope: set<Decl>, m: Renaming, s: State,
                                   c: Core, m1: Renaming, c1: Core)
    returns (m': Renaming, c': Core)
    requires Rel(env, f, scope, m, s, c) && e.Cast? && Checked(env.ctx, scope, e) && EmitExpr(env, f, e).Code?
    requires ExprDone(env, w, scope, f, EmitExpr(env, f, e.operand), TypeOf(e.operand),
                      Eval(w, env.ctx, e.operand, s), m, s, c, m1, c1)
    requires Eval(w, env.ctx, e, s).Got?
    ensures ExprDone(env, w, scope, f, EmitExpr(env, f, e), TypeOf(e), Eval(w, env.ctx, e, s), m, s, c, m', c')
  {
    hide Moved;
    m', c' := m1, c1;
    if e.kind == Arithmetic {
      var code := EmitExpr(env, f, e.operand);
      var r := Eval(w, env.ctx, e.operand, s);
      c' := SimConversion(env, w, f, e, code, r, scope, m, s, c, m1, c1);
    }
  }

  lemma {:induction false} SimConversion(env: Env, w: World, f: Frame, e: Expr, code: Code, r: Evaluated,
                                         scope: set<Decl>, m: Renaming, s: State, c: Core, m1: Renaming, c1: Core)
    returns (c': Core)
    requires e.Cast? && TypeOf(e.operand).Integer? && e.ty.Integer? && env.ctx.target.Valid()
    requires ExprDone(env, w, scope, f, code, TypeOf(e.operand), r, m, s, c, m1, c1)
    ensures TypeAt(code.frame, code.value).I?
    ensures ExprDone(env, w, scope, f,
                     EmitConversion(env, code.ops, code.frame, code.value, TypeOf(e.operand).kind, e.ty.kind),
                     e.ty, Got(IntVal(env.ctx.target.Convert(e.ty.kind, r.val.v)), r.s), m, s, c, m1, c')
  {
    hide Rel, Moved;
    var t := env.ctx.target;
    var source, to := TypeOf(e.operand).kind, e.ty.kind;
    var from, width, n := t.Width(source), t.Width(to), code.frame.Next();
    var b := c1.regs[code.value].bits;
    BitsOfReading(IsSigned(source), from, b);
    if to == Bool {
      c' := SimNonZero(env, w, scope, code, from, f, m, s, c, m1, r.s, c1);
      SmallPow2(1);
    } else if from == width {
      c' := c1;
    } else {
      c' := SimResize(env, w, f, code, r, source, to, scope, m, s, c, m1, c1);
    }
  }

  /** Comparing an integer value with zero. */
  lemma {:induction false} SimNonZero(env: Env, w: World, scope: set<Decl>, code: Code, width: nat, f: Frame,
                                      m: Renaming, s: State, c: Core, m1: Renaming, s1: State, c1: Core)
    returns (c': Core)
    requires env.ctx.target.Valid() && code.Code? && width > 0
    requires Reached(env, w, scope, code.ops, f, m, s, c, code.frame, m1, s1, c1)
    requires code.value < |code.frame.types| && c1.HasInt(code.value, width)
    ensures var n := code.frame.Next();
            && Reached(env, w, scope, code.ops + [ConstantInt(n, width, 0), CmpI(n + 1, NE, width, code.value, n)],
                       f, m, s, c, code.frame.Define(I(width)).Define(I(1)), m1, s1, c')
            && n + 1 in c'.regs
            && c'.regs[n + 1] == IntReg(if c1.regs[code.value].bits != 0 then 1 else 0)
  {
    hide Rel, Moved;
    var n, b := code.frame.Next(), c1.regs[code.value].bits;
    var zero, test := ConstantInt(n, width, 0), CmpI(n + 1, NE, width, code.value, n);
    var f1, c2 := code.frame.Define(I(width)), c1.Set(n, IntReg(0));
    UniqueRemainder(0, 0, 0, Pow2(width));
    ReachedDefine(env, w, scope, code.ops, zero, I(width), IntReg(0), f, m, s, c, code.frame, m1, s1, c1);
    var r2 := IntReg(if b != 0 then 1 else 0);
    c' := c2.Set(n + 1, r2);
    assert ExecOp(w, env.ctx.target.intBits, test, c2) == Some(c');
    ReachedDefine(env, w, scope, code.ops + [zero], test, I(1), r2, f, m, s, c, f1, m1, s1, c2);
    assert code.ops + [zero, test] == code.ops + [zero] + [test];
  }

  lemma {:induction false} SimResize(env: Env, w: World, f: Frame, code: Code, r: Evaluated, source: IntKind,
                                     to: IntKind, scope: set<Decl>, m: Renaming, s: State, c: Core, m1: Renaming,
                                     c1: Core)
    returns (c': Core)
    requires env.ctx.target.Valid() && to != Bool && env.ctx.target.Width(source) != env.ctx.target.Width(to)
    requires ExprDone(env, w, scope, f, code, Integer(source), r, m, s, c, m1, c1)
    ensures TypeAt(code.frame, code.value).I?
    ensures ExprDone(env, w, scope, f, EmitConversion(env, code.ops, code.frame, code.value, source, to),
                     Integer(to), Got(IntVal(env.ctx.target.Convert(to, r.val.v)), r.s), m, s, c, m1, c')
  {
    hide Rel, Moved;
    var t := env.ctx.target;
    var from, width, n := t.Width(source), t.Width(to), code.frame.Next();
    var op := ResizeOp(source, from, width, n, code.value);
    var r2 := IntReg(Bits(width, r.val.v));
    ResizeRuns(w, t.intBits, source, from, width, n, code.value, c1);
    c' := c1.Set(n, r2);
    ReachedDefine(env, w, scope, code.ops, op, I(width), r2, f, m, s, c, code.frame, m1, r.s, c1);
  }

  function ResizeOp(source: IntKind, from: nat, to: nat, n: nat, v: nat): Op {
    if from > to then TruncI(n, to, v)
    else if IsSigned(source) then ExtSI(n, from, to, v)
    else ExtUI(n, to, v)
  }

  /** The operation chosen for a conversion produces the bits of the converted value. */
  lemma {:induction false} ResizeRuns(w: World, intBits: nat, source: IntKind, from: nat, to: nat, n: nat, v: nat,
                                      c: Core)
    requires from > 0 && c.HasInt(v, from)
    ensures ExecOp(w, intBits, ResizeOp(source, from, to, n, v), c)
         == Some(c.Set(n, IntReg(Bits(to, Reading(IsSigned(source), from, c.regs[v].bits)))))
  {
    if from > to { NarrowedReading(IsSigned(source), from, to, c.regs[v].bits); }
  }

  lemma {:induction false} SimAssign(env: Env, w: World, f: Frame, e: Expr, scope: set<Decl>, m: Renaming, s: State,
                                     c: Core)
    returns (m': Renaming, c': Core)
    requires Rel(env, f, scope, m, s, c) && e.Binary? && e.op == Assign
    requires Checked(env.ctx, scope, e) && EmitExpr(env, f, e).Code?
    requires Eval(w, env.ctx, e, s).Got?
    ensures ExprDone(env, w, scope, f, EmitExpr(env, f, e), TypeOf(e), Eval(w, env.ctx, e, s), m, s, c, m', c')
    decreases e, 1
  {
    hide Moved;
    var t := env.ctx.target;
    var place, p := EmitPlace(env, f, e.lhs), EvalPlace(w, env.ctx, e.lhs, s);
    var m1, c1 := SimPlace(env, w, f, e.lhs, scope, m, s, c);
    var code, r := EmitExpr(env, place.frame, e.rhs), Eval(w, env.ctx, e.rhs, p.s);
    var m2, c2 := SimExpr(env, w, place.frame, e.rhs, scope, m1, p.s, c1);
    ValueStays(t, place.frame, m1, p.s, c1, code.frame, m2, r.s, c2, Pointer(TypeOf(e.lhs)), p.val, place.slot.base);
    ReachedTrans(env, w, scope, place.ops, code.ops, f, m, s, c, place.frame, m1, p.s, c1, code.frame, m2, r.s, c2);
    m' := m2;
    c' := SimStore(env, w, f, place.ops + code.ops, code, place.slot, TypeOf(e.lhs), p.val, r, scope, m, s, c, m2, c2);
  }

  /** Storing a value into the object a pointer designates, at the end of some code. */
  lemma {:induction false} SimStore(env: Env, w: World, f: Frame, ops: seq<Op>, code: Code, slot: Slot, ty: CType,
                                    p: Val, r: Evaluated, scope: set<Decl>, m: Renaming, s: State, c: Core,
                                    m2: Renaming, c2: Core)
    returns (c': Core)
    requires env.ctx.target.Valid() && ty.Integer? && p.PtrVal? && code.Code? && r.Got?
    requires Reached(env, w, scope, ops, f, m, s, c, code.frame, m2, r.s, c2)
    requires slot.base in c2.regs && ValueRel(env.ctx.target, m2, r.s.store.mem, Pointer(ty), p, c2.regs[slot.base])
    requires code.value in c2.regs && ValueRel(env.ctx.target, m2, r.s.store.mem, ty, r.val, c2.regs[code.value])
    requires code.value < |code.frame.types|
    requires LowerType(env.ctx.target, ty) == Some(code.frame.types[code.value])
    requires Designates(env.ctx, p.addr, ty.kind, r.s)
    ensures p.addr < |r.s.store.mem|
    ensures ExprDone(env, w, scope, f, Code(ops + [StoreOp(code.value, slot.base)], code.frame, code.value), ty,
                     Got(r.val, r.s.(store := r.s.store.Write(p.addr, Bits(env.ctx.target.Width(ty.kind), r.val.v)))),
                     m, s, c, m2, c')
  {
    hide FrameOk, VarRel;
    var t := env.ctx.target;
    var b := c2.regs[code.value].bits;
    BitsOfReading(IsSigned(ty.kind), t.Width(ty.kind), b);
    assert m2[p.addr] < |c2.store.mem|;
    c' := c2.(store := c2.store.Write(m2[p.addr], b));
    var s' := r.s.(store := r.s.store.Write(p.addr, b));
    StoreKeeps(env, code.frame, scope, m2, r.s, c2, p.addr, b);
    var op := StoreOp(code.value, slot.base);
    assert ExecOp(w, t.intBits, op, c2) == Some(c');
    ReachedTrans(env, w, scope, ops, [op], f, m, s, c, code.frame, m2, r.s, c2, code.frame, m2, s', c');
  }

  /** The state after both operands of a binary operation. */
  ghost predicate Operands(env: Env, w: World, f: Frame, e: Expr, left: Code, right: Code, p: Evaluated, q: Evaluated,
                           scope: set<Decl>, m: Renaming, s: State, c: Core, m': Renaming, c': Core) {
    && e.Binary? && left.Code? && right.Code? && p.Got? && q.Got? && env.ctx.target.Valid()
    && TypeOf(e.lhs) == TypeOf(e.rhs) && TypeOf(e.lhs).Integer?
    && Reached(env, w, scope, left.ops + right.ops, f, m, s, c, right.frame, m', q.s, c')
    && left.value < |right.frame.types| && right.value < |right.frame.types|
    && LowerType(env.ctx.target, TypeOf(e.lhs)) == Some(right.frame.types[left.value])
    && LowerType(env.ctx.target, TypeOf(e.lhs)) == Some(right.frame.types[right.value])
    && left.value in c'.regs && right.value in c'.regs
    && ValueRel(env.ctx.target, m', q.s.store.mem, TypeOf(e.lhs), p.val, c'.regs[left.value])
    && ValueRel(env.ctx.target, m', q.s.store.mem, TypeOf(e.lhs), q.val, c'.regs[right.value])
  }

  lemma {:induction false} SimOperands(env: Env, w: World, f: Frame, e: Expr, scope: set<Decl>, m: Renaming, s: State,
                                       c: Core)
    returns (m': Renaming, c': Core)
    requires Rel(env, f, scope, m, s, c) && e.Binary? && e.op != Assign
    requires Checked(env.ctx, scope, e) && EmitExpr(env, f, e).Code?
    requires Eval(w, env.ctx, e, s).Got?
    ensures var left, p := EmitExpr(env, f, e.lhs), Eval(w, env.ctx, e.lhs, s);
            && left.Code? && p.Got?
            && Operands(env, w, f, e, left, EmitExpr(env, left.frame, e.rhs), p, Eval(w, env.ctx, e.rhs, p.s),
                        scope, m, s, c, m', c')
    decreases e, 0
  {
    hide Moved;
    var left, p := EmitExpr(env, f, e.lhs), Eval(w, env.ctx, e.lhs, s);
    var m1, c1 := SimExpr(env, w, f, e.lhs, scope, m, s, c);
    var right, q := EmitExpr(env, left.frame, e.rhs), Eval(w, env.ctx, e.rhs, p.s);
    m', c' := SimExpr(env, w, left.frame, e.rhs, scope, m1, p.s, c1);
    ReachedTrans(env, w, scope, left.ops, right.ops, f, m, s, c, left.frame, m1, p.s, c1, right.frame, m', q.s, c');
    ValueStays(env.ctx.target, left.frame, m1, p.s, c1, right.frame, m', q.s, c', TypeOf(e.lhs), p.val, left.value);
  }

  lemma {:induction false} SimBinary(env: Env, w: World, f: Frame, e: Expr, scope: set<Decl>, m: Renaming, s: State,
                                     c: Core)
    returns (m': Renaming, c': Core)
    requires Rel(env, f, scope, m, s, c) && e.Binary? && e.op != Assign
    requires Checked(env.ctx, scope, e) && EmitExpr(env, f, e).Code?
    requires Eval(w, env.ctx, e, s).Got?
    ensures ExprDone(env, w, scope, f, EmitExpr(env, f, e), TypeOf(e), Eval(w, env.ctx, e, s), m, s, c, m', c')
    decreases e, 1
  {
    hide Moved, Reached;
    var left, p := EmitExpr(env, f, e.lhs), Eval(w, env.ctx, e.lhs, s);
    var m2, c2 := SimOperands(env, w, f, e, scope, m, s, c);
    var right, q := EmitExpr(env, left.frame, e.rhs), Eval(w, env.ctx, e.rhs, p.s);
    m' := m2;
    if IsComparison(e.op) {
      c' := SimComparison(env, w, f, e, left, right, p, q, scope, m, s, c, m2, c2);
    } else {
      c' := SimArithmetic(env, w, f, e, left, right, p, q, scope, m, s, c, m2, c2);
    }
  }

  lemma {:induction false} SimComparison(env: Env, w: World, f: Frame, e: Expr, left: Code, right: Code, p: Evaluated,
                                         q: Evaluated, scope: set<Decl>, m: Renaming, s: State, c: Core, m2: Renaming,
                                         c2: Core)
    returns (c': Core)
    requires Operands(env, w, f, e, left, right, p, q, scope, m, s, c, m2, c2) && IsComparison(e.op)
    ensures var n, width := right.frame.Next(), env.ctx.target.Width(Int);
            ExprDone(env, w, scope, f,
                     Code(left.ops + right.ops +
                          [CmpI(n, ChoosePredicate(e.op, IsSigned(TypeOf(e.lhs).kind)),
                                TypeAt(right.frame, left.value).width, left.value, right.value),
                           ExtUI(n + 1, width, n)],
                          right.frame.Define(I(1)).Define(I(width)), n + 1),
                     Integer(Int), Got(IntVal(if Compare(e.op, p.val.v, q.val.v) then 1 else 0), q.s), m, s, c, m2, c')
  {
    hide Rel, Moved, EmitExpr, Eval;
    var n, width, kind := right.frame.Next(), env.ctx.target.Width(Int), TypeOf(e.lhs).kind;
    var cmp := CmpI(n, ChoosePredicate(e.op, IsSigned(kind)), env.ctx.target.Width(kind), left.value, right.value);
    var b := if Compare(e.op, p.val.v, q.val.v) then 1 else 0;
    var c3 := SimCmp(env, w, f, e, left, right, p, q, scope, m, s, c, m2, c2);
    var ops, ext := left.ops + right.ops, ExtUI(n + 1, width, n);
    BitOfInt(width, b);
    c' := c3.Set(n + 1, IntReg(b));
    assert ExecOp(w, env.ctx.target.intBits, ext, c3) == Some(c');
    ReachedDefine(env, w, scope, ops + [cmp], ext, I(width), IntReg(b), f, m, s, c, right.frame.Define(I(1)), m2, q.s,
                  c3);
    assert ops + [cmp, ext] == ops + [cmp] + [ext];
  }

  lemma {:induction false} SimCmp(env: Env, w: World, f: Frame, e: Expr, left: Code, right: Code, p: Evaluated,
                                  q: Evaluated, scope: set<Decl>, m: Renaming, s: State, c: Core, m2: Renaming,
                                  c2: Core)
    returns (c': Core)
    requires Operands(env, w, f, e, left, right, p, q, scope, m, s, c, m2, c2) && IsComparison(e.op)
    ensures var n, kind := right.frame.Next(), TypeOf(e.lhs).kind;
            && Reached(env, w, scope, left.ops + right.ops +
                       [CmpI(n, ChoosePredicate(e.op, IsSigned(kind)), env.ctx.target.Width(kind), left.value,
                             right.value)],
                       f, m, s, c, right.frame.Define(I(1)), m2, q.s, c')
            && n in c'.regs && c'.regs[n] == IntReg(if Compare(e.op, p.val.v, q.val.v) then 1 else 0)
  {
    hide Rel, Moved;
    var n, kind := right.frame.Next(), TypeOf(e.lhs).kind;
    var width := env.ctx.target.Width(kind);
    var cmp := CmpI(n, ChoosePredicate(e.op, IsSigned(kind)), width, left.value, right.value);
    PredicateMeaning(e.op, IsSigned(kind), width, c2.regs[left.value].bits, c2.regs[right.value].bits);
    var r := IntReg(if Compare(e.op, p.val.v, q.val.v) then 1 else 0);
    c' := c2.Set(n, r);
    assert ExecOp(w, env.ctx.target.intBits, cmp, c2) == Some(c');
    ReachedDefine(env, w, scope, left.ops + right.ops, cmp, I(1), r, f, m, s, c, right.frame, m2, q.s, c2);
  }

  /** Zero and one read the same in every width above one. */
  lemma {:induction false} BitOfInt(width: nat, b: nat)
    requires width >= 2 && b <= 1
    ensures Bits(width, b) == b && Reading(true, width, b) == b && b < Pow2(width)
  {
    Pow2Grows(1, width - 1);
    assert Pow2(1) == 2;
    UniqueRemainder(b, 0, b, Pow2(width));
  }

  /** The predicate chosen for a comparison compares the values, not the patterns. */
  lemma {:induction false} PredicateMeaning(op: BinOp, isSigned: bool, width: nat, a: nat, b: nat)
    requires IsComparison(op) && width > 0 && a < Pow2(width) && b < Pow2(width)
    ensures Holds(ChoosePredicate(op, isSigned), width, a, b)
       <==> Compare(op, Reading(isSigned, width, a), Reading(isSigned, width, b))
  {
    BitsOfReading(isSigned, width, a);
    BitsOfReading(isSigned, width, b);
  }

  /** Wrapping operations on patterns are the wrapped operations on values. */
  lemma {:induction false} ArithMeaning(op: BinOp, isSigned: bool, width: nat, a: nat, b: nat)
    requires op in {Add, Sub, Mul} && width > 0 && a < Pow2(width) && b < Pow2(width)
    ensures ArithBits(ChooseArith(op), width, a, b)
         == Bits(width, Combine(op, Reading(isSigned, width, a), Reading(isSigned, width, b)))
  {
    SumOfReadings(isSigned, width, a, b);
    DifferenceOfReadings(isSigned, width, a, b);
    ProductOfReadings(isSigned, width, a, b);
  }

  lemma {:induction false} SimArithmetic(env: Env, w: World, f: Frame, e: Expr, left: Code, right: Code, p: Evaluated,
                                         q: Evaluated, scope: set<Decl>, m: Renaming, s: State, c: Core, m2: Renaming,
                                         c2: Core)
    returns (c': Core)
    requires Operands(env, w, f, e, left, right, p, q, scope, m, s, c, m2, c2)
    requires e.op in {Add, Sub, Mul} && e.ty == TypeOf(e.lhs)
    ensures var n, width := right.frame.Next(), env.ctx.target.Width(e.ty.kind);
            ExprDone(env, w, scope, f,
                     Code(left.ops + right.ops + [ArithI(n, ChooseArith(e.op), width, left.value, right.value)],
                          right.frame.Define(I(width)), n),
                     e.ty, Got(IntVal(env.ctx.target.Wrap(e.ty.kind, Combine(e.op, p.val.v, q.val.v))), q.s),
                     m, s, c, m2, c')
  {
    hide Rel, Moved;
    var t := env.ctx.target;
    var n, kind := right.frame.Next(), e.ty.kind;
    var width := t.Width(kind);
    var x, y := c2.regs[left.value].bits, c2.regs[right.value].bits;
    ArithMeaning(e.op, IsSigned(kind), width, x, y);
    var r := IntReg(Bits(width, Combine(e.op, p.val.v, q.val.v)));
    c' := c2.Set(n, r);
    var op := ArithI(n, ChooseArith(e.op), width, left.value, right.value);
    assert ExecOp(w, t.intBits, op, c2) == Some(c');
    ReachedDefine(env, w, scope, left.ops + right.ops, op, I(width), r, f, m, s, c, right.frame, m2, q.s, c2);
  }

  // ----- calls -----

  ghost predicate CallDone(env: Env, w: World, scope: set<Decl>, f: Frame, code: CallCode, r: Evaluated, m: Renaming,
                           s: State, c: Core, m': Renaming, c': Core)
    requires env.ctx.target.Valid()
  {
    && code.CallCode? && r.Got?
    && Reached(env, w, scope, code.ops, f, m, s, c, code.frame, m', r.s, c')
    && (code.value.Some? ==>
          && code.value.value < |code.frame.types|
          && code.frame.types[code.value.value] == I(env.ctx.target.Width(Int))
          && code.value.value in c'.regs
          && ValueRel(env.ctx.target, m', r.s.store.mem, Integer(Int), r.val, c'.regs[code.value.value]))
  }

  lemma {:induction false} SimCallExpr(env: Env, w: World, f: Frame, e: Expr, scope: set<Decl>, m: Renaming, s: State,
                                       c: Core)
    returns (m': Renaming, c': Core)
    requires Rel(env, f, scope, m, s, c) && e.Call? && Checked(env.ctx, scope, e) && EmitExpr(env, f, e).Code?
    requires Eval(w, env.ctx, e, s).Got?
    ensures ExprDone(env, w, scope, f, EmitExpr(env, f, e), TypeOf(e), Eval(w, env.ctx, e, s), m, s, c, m', c')
    decreases e, 1
  {
    m', c' := SimCall(env, w, f, e, scope, m, s, c);
  }

  lemma {:induction false} SimCall(env: Env, w: World, f: Frame, e: Expr, scope: set<Decl>, m: Renaming, s: State,
                                   c: Core)
    returns (m': Renaming, c': Core)
    requires Rel(env, f, scope, m, s, c) && e.Call? && Checked(env.ctx, scope, e) && EmitCall(env, f, e).CallCode?
    requires EvalCall(w, env.ctx, e, s).Got?
    ensures CallDone(env, w, scope, f, EmitCall(env, f, e), EvalCall(w, env.ctx, e, s), m, s, c, m', c')
    decreases e, 0
  {
    hide Moved;
    var t := env.ctx.target;
    var callee, sig := e.callee.value, env.ctx.functions[e.callee.value];
    var code, r := EmitArgs(env, f, e.args, sig.params), EvalArgs(w, env.ctx, e.args, s);
    var c1;
    m', c1 := SimArgs(env, w, f, e.args, sig.params, scope, m, s, c);
    var returned := if sig.ret == Void then None else Some(code.frame.Next());
    c' := SimCallOp(env, w, f, code, r, callee, returned, scope, m, s, c, m', c1);
  }

  lemma {:induction false} SimCallOp(env: Env, w: World, f: Frame, code: ArgsCode, r: ArgsEvaluated, callee: string,
                                     returned: Option<nat>, scope: set<Decl>, m: Renaming, s: State, c: Core,
                                     m1: Renaming, c1: Core)
    returns (c': Core)
    requires env.ctx.target.Valid() && ArgsDone(env, w, scope, f, code, r, m, s, c, m1, c1)
    requires returned.Some? ==> returned.value == code.frame.Next()
    ensures var t := env.ctx.target;
            var after := AfterCall(w, callee, r.args, r.s.store);
            var frame := if returned.Some? then code.frame.Define(I(t.intBits)) else code.frame;
            CallDone(env, w, scope, f, CallCode(code.ops + [CallOp(returned, callee, code.values)], frame, returned),
                     Got(IntVal(Reading(true, t.intBits, ReplyBits(w, t.intBits, after))), r.s.(store := after)),
                     m, s, c, m1, c')
  {
    var n := env.ctx.target.intBits;
    var ys := Actuals(code.values, c1.regs);
    CallKeepsRel(env, code.frame, scope, m1, r.s, c1, w, callee, r.args, ys);
    CallKeeps(m1, w, callee, r.s.store, c1.store, r.args, ys);
    var s2, c2 := r.s.(store := AfterCall(w, callee, r.args, r.s.store)),
      c1.(store := AfterCall(w, callee, ys, c1.store));
    var op := CallOp(None, callee, code.values);
    assert ExecOp(w, n, op, c1) == Some(c2);
    ReachedTrans(env, w, scope, code.ops, [op], f, m, s, c, code.frame, m1, r.s, c1, code.frame, m1, s2, c2);
    if returned.None? {
      c' := c2;
    } else {
      var reg := IntReg(ReplyBits(w, n, c2.store));
      c' := c2.Set(code.frame.Next(), reg);
      var op' := CallOp(returned, callee, code.values);
      assert ExecOp(w, n, op', c1) == Some(c');
      DefineKeeps(env, code.frame, scope, m1, s2, c2, I(n), reg);
      MovedTrans(code.frame, m1, r.s, c1, code.frame, m1, s2, c2, code.frame.Define(I(n)), m1, s2, c');
      ReachedTrans(env, w, scope, code.ops, [op'], f, m, s, c, code.frame, m1, r.s, c1, code.frame.Define(I(n)), m1,
                   s2, c');
    }
  }

  ghost predicate ArgsDone(env: Env, w: World, scope: set<Decl>, f: Frame, code: ArgsCode, r: ArgsEvaluated,
                           m: Renaming, s: State, c: Core, m': Renaming, c': Core)
    requires env.ctx.target.Valid()
  {
    && code.ArgsCode? && r.GotArgs?
    && Reached(env, w, scope, code.ops, f, m, s, c, code.frame, m', r.s, c')
    && Passed(m', c'.regs, code.values, r.args)
  }

  /** The registers hold the arguments. */
  ghost predicate Passed(m: Renaming, regs: map<nat, Reg>, values: seq<nat>, args: seq<Arg>) {
    && |values| == |args|
    && forall i :: 0 <= i < |values| ==> values[i] in regs && RelatedArg(m, args[i], AsArg(regs[values[i]]))
  }

  lemma {:induction false} PassedFirst(m: Renaming, regs: map<nat, Reg>, v: nat, values: seq<nat>, x: Arg,
                                       args: seq<Arg>)
    requires v in regs && RelatedArg(m, x, AsArg(regs[v])) && Passed(m, regs, values, args)
    ensures Passed(m, regs, [v] + values, [x] + args)
  {
  }

  lemma {:induction false} NoArgs(env: Env, w: World, f: Frame, scope: set<Decl>, m: Renaming, s: State, c: Core)
    requires Rel(env, f, scope, m, s, c)
    ensures ArgsDone(env, w, scope, f, EmitArgs(env, f, [], []), EvalArgs(w, env.ctx, [], s), m, s, c, m, c)
  {
  }

  lemma {:induction false} SimArgs(env: Env, w: World, f: Frame, es: seq<Expr>, params: seq<CType>, scope: set<Decl>,
                                   m: Renaming, s: State, c: Core)
    returns (m': Renaming, c': Core)
    requires Rel(env, f, scope, m, s, c) && |es| == |params|
    requires (forall a :: a in es ==> Checked(env.ctx, scope, a)) && EmitArgs(env, f, es, params).ArgsCode?
    requires EvalArgs(w, env.ctx, es, s).GotArgs?
    ensures ArgsDone(env, w, scope, f, EmitArgs(env, f, es, params), EvalArgs(w, env.ctx, es, s), m, s, c, m', c')
    decreases es, 0
  {
    hide EmitExpr, Eval, Reached, Passed, ValueRel, RelatedArg;
    if es == [] {
      NoArgs(env, w, f, scope, m, s, c);
      assert es == [] && params == [];
      m', c' := m, c;
    } else {
      var t := env.ctx.target;
      var first, p := EmitExpr(env, f, es[0]), Eval(w, env.ctx, es[0], s);
      var m1, c1 := SimExpr(env, w, f, es[0], scope, m, s, c);
      var rest, q := EmitArgs(env, first.frame, es[1..], params[1..]), EvalArgs(w, env.ctx, es[1..], p.s);
      assert Rel(env, first.frame, scope, m1, p.s, c1) by { ReachedRel(env, w, scope, first.ops, f, m, s, c,
          first.frame, m1, p.s, c1); }
      m', c' := SimArgs(env, w, first.frame, es[1..], params[1..], scope, m1, p.s, c1);
      ReachedTrans(env, w, scope, first.ops, rest.ops, f, m, s, c, first.frame, m1, p.s, c1, rest.frame, m', q.s, c');
      ReachedRel(env, w, scope, rest.ops, first.frame, m1, p.s, c1, rest.frame, m', q.s, c');
      ValueStays(t, first.frame, m1, p.s, c1, rest.frame, m', q.s, c', TypeOf(es[0]), p.val, first.value);
      ArgRel(t, m', q.s.store.mem, TypeOf(es[0]), p.val, c'.regs[first.value]);
      PassedFirst(m', c'.regs, first.value, rest.values, AsSent(t, TypeOf(es[0]), p.val), q.args);
    }
  }

  lemma {:induction false} ReachedRel(env: Env, w: World, scope: set<Decl>, ops: seq<Op>, f: Frame, m: Renaming,
                                      s: State, c: Core, f1: Frame, m1: Renaming, s1: State, c1: Core)
    requires env.ctx.target.Valid() && Reached(env, w, scope, ops, f, m, s, c, f1, m1, s1, c1)
    ensures Rel(env, f1, scope, m1, s1, c1) && Moved(f, m, s, c, f1, m1, s1, c1)
  {
  }

  /** What a value is passed as. */
  function AsSent(t: Target, ty: CType, v: Val): Arg
    requires t.Valid()
  {
    match v
    case PtrVal(a) => PtrArg(a)
    case IntVal(n) => IntArg(if ty.Integer? then Bits(t.Width(ty.kind), n) else 0)
  }

  /** A related value is passed as a related argument. */
  lemma {:induction false} ArgRel(t: Target, m: Renaming, mem: seq<Cell>, ty: CType, v: Val, r: Reg)
    requires t.Valid() && ValueRel(t, m, mem, ty, v, r)
    ensures v.IntVal? ==> ty.Integer?
    ensures RelatedArg(m, AsSent(t, ty, v), AsArg(r))
  {
    if ty.Integer? { BitsOfReading(IsSigned(ty.kind), t.Width(ty.kind), r.bits); }
  }
}
