/** The main theorems about code generation: a function that generation accepts runs as its source does. */
module Preservation {
  import opened CAst
  import opened Wrappers
  import opened Integers
  import opened Storage
  import opened StorageRelation
  import opened CSemantics
  import opened Contract
  import opened Ir
  import opened Lowering
  import opened ExprSimulation
  import opened Shape
  import opened Unit
  import opened StmtSimulation
  import opened ControlSimulation

  // ----- entry -----

  /** Arguments as C allows them: integers in the range of their parameter, and any pointer. The address of a null or a
      dangling pointer is that of a cell without an object. */
  ghost predicate ArgOk(target: Target, mem: seq<Cell>, ty: CType, v: Val)
    requires target.Valid()
  {
    match ty
    case Integer(k) => v.IntVal? && v.v == target.Wrap(k, v.v)
    case Pointer(Integer(_)) => v.PtrVal? && v.addr < |mem|
    case _ => false
  }

  ghost predicate CallOk(ctx: Context, fn: Function, args: seq<Val>, mem: seq<Cell>)
    requires ctx.target.Valid()
  {
    && |args| == |fn.params|
    && (forall i :: 0 <= i < |args| ==> ArgOk(ctx.target, mem, fn.params[i].ty, args[i]))
    && (forall a :: 0 <= a < |mem| ==> mem[a].Valid())
  }

  function ArgReg(target: Target, ty: CType, v: Val): Reg
    requires target.Valid()
  {
    match v
    case IntVal(n) => IntReg(if ty.Integer? then Bits(target.Width(ty.kind), n) else 0)
    case PtrVal(a) => PtrReg(a)
  }

  /** The machine as a call enters the function: arguments in the first registers, the caller's objects in storage, all
      of them exposed. */
  function Entry(ctx: Context, fn: Function, args: seq<Val>, mem: seq<Cell>): Machine
    requires ctx.target.Valid() && |args| == |fn.params|
  {
    Running(0, 0, Core(map i: nat | i < |args| :: ArgReg(ctx.target, fn.params[i].ty, args[i]),
                       AllExposed(mem)))
  }

  ghost function Identity(n: nat): (m: Renaming)
    ensures forall a :: a in m <==> 0 <= a < n
    ensures forall a :: a in m ==> m[a] == a
  {
    if n == 0 then map[] else Identity(n - 1)[n - 1 := n - 1]
  }

  /** Binding one parameter keeps the relation for the ones already bound. */
  lemma {:induction false} BindOne(env: Env, f: Frame, scope: set<Decl>, m: Renaming, s: State, c: Core, d: Decl,
                                   v: Val, s1: State)
    requires Rel(env, f, scope, m, s, c) && f.storage == map[] && d !in scope && d in env.values
    requires env.values[d] in c.regs && c.regs[env.values[d]] == ArgReg(env.ctx.target, d.ty, v)
    requires ArgOk(env.ctx.target, s.store.mem, d.ty, v) && (v.PtrVal? ==> v.addr in m && m[v.addr] == v.addr)
    requires s1 == BindParam(env.ctx, d, v, s)
    ensures Rel(env, f, scope + {d}, m, s1, c)
  {
    forall d' | d' in scope + {d}
      ensures VarRel(env, f, m, d', s1, c)
    {
      if d' != d { assert VarRel(env, f, m, d', s, c); }
    }
    forall d' | d' in scope && Private(f, d', s1)
      ensures s1.env[d'].addr < |s.store.mem|
    {
      assert VarRel(env, f, m, d', s, c);
    }
  }

  lemma {:induction false} BindSim(env: Env, f: Frame, params: seq<Decl>, args: seq<Val>, i: nat, m: Renaming, s: State,
                                   c: Core, n: nat)
    requires |params| == |args| && i <= |params| && f.storage == map[] && n <= |s.store.mem|
    requires Rel(env, f, ParamSet(params[..i]), m, s, c) && m == Identity(n)
    requires forall j, k :: 0 <= j < k < |params| ==> params[j] != params[k]
    requires forall j :: 0 <= j < |params| ==>
               && params[j] in env.values && env.values[params[j]] in c.regs
               && c.regs[env.values[params[j]]] == ArgReg(env.ctx.target, params[j].ty, args[j])
    requires forall j :: 0 <= j < |params| ==> ArgOk(env.ctx.target, s.store.mem[..n], params[j].ty, args[j])
    ensures Rel(env, f, ParamSet(params), m, BindParams(env.ctx, params[i..], args[i..], s), c)
    decreases |params| - i
  {
    if i == |params| {
      assert params[..i] == params;
    } else {
      var d, v := params[i], args[i];
      assert ArgOk(env.ctx.target, s.store.mem[..n], d.ty, v);
      var s1 := BindParam(env.ctx, d, v, s);
      BindOne(env, f, ParamSet(params[..i]), m, s, c, d, v, s1);
      assert ParamSet(params[..i + 1]) == ParamSet(params[..i]) + {d};
      assert s1.store.mem[..n] == s.store.mem[..n];
      BindSim(env, f, params, args, i + 1, m, s1, c, n);
      assert params[i..][1..] == params[i + 1..] && args[i..][1..] == args[i + 1..];
    }
  }

  lemma {:induction false} EntryRelated(ctx: Context, fn: Function, args: seq<Val>, mem: seq<Cell>)
    requires ctx.target.Valid() && CallOk(ctx, fn, args, mem)
    ensures Related(Identity(|mem|), AllExposed(mem), Entry(ctx, fn, args, mem).core.store)
  {
  }

  lemma {:induction false} EntryRegs(ctx: Context, fn: Function, order: seq<Decl>, args: seq<Val>, mem: seq<Cell>)
    requires UnitOk(ctx, fn, order) && CallOk(ctx, fn, args, mem)
    ensures var env, c := FunctionEnv(ctx, fn, order), Entry(ctx, fn, args, mem).core;
            forall j :: 0 <= j < |fn.params| ==>
              && fn.params[j] in env.values && env.values[fn.params[j]] in c.regs
              && c.regs[env.values[fn.params[j]]] == ArgReg(ctx.target, fn.params[j].ty, args[j])
  {
    EntryValuesAt(fn.params);
  }

  lemma {:induction false} ResultFits(target: Target, ret: CType)
    requires target.Valid() && (ret == Integer(Int) || ret == Void)
    ensures (if ret == Void then None else LowerType(target, ret))
         == (if ret == Void then None else Some(I(target.intBits)))
  {
  }

  lemma {:induction false} EntryRel(ctx: Context, fn: Function, order: seq<Decl>, args: seq<Val>, mem: seq<Cell>,
                                    f: Frame)
    requires UnitOk(ctx, fn, order) && CallOk(ctx, fn, args, mem) && StartFrame(ctx, fn, f)
    ensures Rel(FunctionEnv(ctx, fn, order), f, ParamSet(fn.params), Identity(|mem|), EnterCall(ctx, fn, args, mem),
                Entry(ctx, fn, args, mem).core)
  {
    EntryRegs(ctx, fn, order, args, mem);
    EntryFrameOk(ctx, fn, order, f);
    EntryRelated(ctx, fn, args, mem);
    BindAll(FunctionEnv(ctx, fn, order), f, fn.params, args, State(map[], AllExposed(mem)),
            Entry(ctx, fn, args, mem).core, mem);
  }

  lemma {:induction false} BindAll(env: Env, f: Frame, params: seq<Decl>, args: seq<Val>, s: State, c: Core,
                                   mem: seq<Cell>)
    requires |params| == |args| && f.storage == map[] && FrameOk(env, f) && s.store.mem == mem
    requires Related(Identity(|mem|), s.store, c.store)
    requires forall j, k :: 0 <= j < k < |params| ==> params[j] != params[k]
    requires forall j :: 0 <= j < |params| ==>
               && params[j] in env.values && env.values[params[j]] in c.regs
               && c.regs[env.values[params[j]]] == ArgReg(env.ctx.target, params[j].ty, args[j])
    requires forall j :: 0 <= j < |params| ==> ArgOk(env.ctx.target, mem, params[j].ty, args[j])
    ensures Rel(env, f, ParamSet(params), Identity(|mem|), BindParams(env.ctx, params, args, s), c)
  {
    assert ParamSet(params[..0]) == {};
    assert s.store.mem[..|mem|] == mem;
    assert params[0..] == params && args[0..] == args;
    BindSim(env, f, params, args, 0, Identity(|mem|), s, c, |mem|);
  }

  lemma {:induction false} EntryReady(ctx: Context, fn: Function, order: seq<Decl>, args: seq<Val>, mem: seq<Cell>,
                                      p: seq<Block>, f: Frame)
    requires UnitOk(ctx, fn, order) && CallOk(ctx, fn, args, mem) && StartFrame(ctx, fn, f)
    ensures Ready(FunctionEnv(ctx, fn, order), p, EntryGen(f), ParamSet(fn.params), Identity(|mem|),
                  EnterCall(ctx, fn, args, mem), Entry(ctx, fn, args, mem).core)
    ensures ResultOk(FunctionEnv(ctx, fn, order), fn.ret) && !EntryGen(f).Terminated()
    ensures Here(EntryGen(f), Entry(ctx, fn, args, mem).core) == Entry(ctx, fn, args, mem)
  {
    assert Declarable(ctx.target, ctx.functions[fn.name]);
    ResultFits(ctx.target, fn.ret);
    EntryValuesAt(fn.params);
    EntryRel(ctx, fn, order, args, mem, f);
  }

  // ----- preservation -----

  /** What the machine has done by step n, compared with a run of the source: the same answer, the same calls and the
      same contents of the caller's objects; or, if the source is still running, at least as many steps and the same
      calls. Nothing is asked once the source has done what C leaves undefined. */
  ghost predicate SameBehaviour(ctx: Context, mem: seq<Cell>, o: Outcome, fuel: nat, end: Machine, n: nat)
    requires ctx.target.Valid()
  {
    match o
    case Returned(v, s) =>
      && end.Halted? && AnswerRel(ctx.target, v, end.value)
      && end.store.trace == s.store.trace
      && |mem| <= |s.store.mem| && |mem| <= |end.store.mem|
      && end.store.mem[..|mem|] == s.store.mem[..|mem|]
    case OutOfFuel(s) => end.Running? && n >= fuel && end.core.store.trace == s.store.trace
    case Stuck => true
    case _ => false
  }

  /** The call never does what C leaves undefined. */
  ghost predicate Defined(w: World, ctx: Context, fn: Function, args: seq<Val>, mem: seq<Cell>)
    requires ctx.target.Valid() && |fn.params| == |args|
  {
    forall fuel: nat :: !Run(w, ctx, fn, args, mem, fuel).Stuck?
  }

  lemma {:induction false} SameObjects(m: Renaming, n: nat, s: Store, t: Store)
    requires Related(m, s, t) && Extends(Identity(n), m)
    ensures n <= |s.mem| && n <= |t.mem| && t.mem[..n] == s.mem[..n]
  {
    forall a: nat | a < n
      ensures a < |s.mem| && a < |t.mem| && t.mem[a] == s.mem[a]
    {
      assert a in Identity(n);
    }
    if n > 0 { assert (n - 1) in Identity(n); }
  }

  /** Running the code appended after a body that falls through. */
  lemma {:induction false} FallsOff(w: World, ctx: Context, p: seq<Block>, g: Gen, fn: Function, c: Core)
    requires ctx.target.Valid() && g.cur < |g.blocks| && !g.Terminated() && (fn.ret == Void || fn.ret == Integer(Int))
    requires CloseBody(ctx, fn, g).Some? && p == CloseBody(ctx, fn, g).value.blocks
    ensures Steps(w, ctx.target.intBits, p, Here(g, c), if fn.ret == Void then 1 else 2)
         == Halted(if fn.ret == Void then None else Some(0), c.store)
  {
    var n := ctx.target.intBits;
    if fn.ret == Void {
      assert p[g.cur].ops[|g.Ops()|] == ReturnOp(None);
      StepFrom(w, n, p, Here(g, c), 0, Here(g, c));
    } else {
      UniqueRemainder(0, 0, 0, Pow2(n));
      var v := g.frame.Next();
      assert p[g.cur].ops[|g.Ops()|] == ConstantInt(v, n, 0);
      assert p[g.cur].ops[|g.Ops()| + 1] == ReturnOp(Some(v));
      var mid := Running(g.cur, |g.Ops()| + 1, c.Set(v, IntReg(0)));
      StepFrom(w, n, p, Here(g, c), 0, Here(g, c));
      StepFrom(w, n, p, Here(g, c), 1, mid);
    }
  }

  /** From the outcome of the body to the outcome of the call. */
  lemma {:induction false} Finish(w: World, ctx: Context, fn: Function, env: Env, g0: Gen, g: Gen, p: seq<Block>,
                                  start: Machine, mem: seq<Cell>, scope: set<Decl>, fuel: nat, o: Outcome, wit: Witness)
    returns (n: nat)
    requires ctx.target.Valid() && env.ctx == ctx && g.cur < |g.blocks| && (fn.ret == Void || fn.ret == Integer(Int))
    requires CloseBody(ctx, fn, g).Some? && p == CloseBody(ctx, fn, g).value.blocks
    requires g0.loops == [] && Agrees(env, w, p, start, Identity(|mem|), g0, scope, g, scope, fuel, o, wit)
    ensures SameBehaviour(ctx, mem, FinishCall(fn, o), fuel, Steps(w, ctx.target.intBits, p, start, n), n)
  {
    n := wit.n;
    match o
    case Normal(s1) =>
      FallsOff(w, ctx, p, g, fn, wit.c);
      n := wit.n + if fn.ret == Void then 1 else 2;
      StepsAdd(w, ctx.target.intBits, p, start, wit.n, n - wit.n);
      ZeroReads(ctx.target);
      SameObjects(wit.m, |mem|, s1.store, wit.c.store);
    case Returned(v, s1) =>
      SameObjects(wit.m, |mem|, s1.store, Steps(w, ctx.target.intBits, p, start, n).store);
    case _ =>
  }

  /** Semantic preservation. For every function that generation accepts, every call of it, every environment and every
      amount of fuel: the generated blocks reach the outcome of the source. */
  lemma {:induction false} Preserves(w: World, ctx: Context, fn: Function, order: seq<Decl>, args: seq<Val>,
                                     mem: seq<Cell>, fuel: nat)
    returns (n: nat)
    requires UnitOk(ctx, fn, order) && CallOk(ctx, fn, args, mem) && EmitFunction(ctx, fn, order).Some?
    ensures SameBehaviour(ctx, mem, Run(w, ctx, fn, args, mem, fuel), fuel,
                          Steps(w, ctx.target.intBits, EmitFunction(ctx, fn, order).value, Entry(ctx, fn, args, mem),
                                n), n)
  {
    var p, env := EmitFunction(ctx, fn, order).value, FunctionEnv(ctx, fn, order);
    var f := EntryFrame(ctx.target, ctx.functions[fn.name].params).value;
    assert Declarable(ctx.target, ctx.functions[fn.name]);
    EntryReady(ctx, fn, order, args, mem, p, f);
    n := PreservesFrom(w, ctx, fn, env, f, EmitBody(ctx, fn, order).value, p, EnterCall(ctx, fn, args, mem),
                       Entry(ctx, fn, args, mem), mem, fuel);
  }

  lemma {:induction false} PreservesFrom(w: World, ctx: Context, fn: Function, env: Env, f: Frame, g: Gen,
                                         p: seq<Block>, s: State, start: Machine, mem: seq<Cell>, fuel: nat)
    returns (n: nat)
    requires ctx.target.Valid() && env.ctx == ctx && start.Running? && start == Here(EntryGen(f), start.core)
    requires Ready(env, p, EntryGen(f), ParamSet(fn.params), Identity(|mem|), s, start.core) && ResultOk(env, fn.ret)
    requires CheckedItems(ctx, fn.ret, ParamSet(fn.params), 0, fn.body) && !EntryGen(f).Terminated()
    requires EmitItems(env, EntryGen(f), fn.body) == Some(g)
    requires CloseBody(ctx, fn, g).Some? && p == CloseBody(ctx, fn, g).value.blocks
    ensures SameBehaviour(ctx, mem, FinishCall(fn, ExecItems(w, ctx, fn.body, s, fuel)), fuel,
                          Steps(w, ctx.target.intBits, p, start, n), n)
  {
    var scope := ParamSet(fn.params);
    ItemsShape(env, EntryGen(f), fn.body, fn.ret, scope, 0);
    ClosedWithin(ctx, fn, g, p);
    var wit := SimItems(env, w, p, EntryGen(f), fn.body, fn.ret, scope, 0, Identity(|mem|), s, start.core, fuel);
    var o := ExecItems(w, ctx, fn.body, s, fuel);
    n := Finish(w, ctx, fn, env, EntryGen(f), g, p, start, mem, scope, fuel, o, wit);
  }

  lemma {:induction false} ClosedWithin(ctx: Context, fn: Function, g: Gen, p: seq<Block>)
    requires ctx.target.Valid() && CloseBody(ctx, fn, g).Some? && p == CloseBody(ctx, fn, g).value.blocks
    ensures Within(p, g.blocks)
  {
  }

  lemma {:induction false} ZeroReads(t: Target)
    requires t.Valid()
    ensures Reading(true, t.intBits, 0) == 0
  {
    assert Pow2(t.intBits - 1) > 0;
  }

  /** Generated code never faults while the source is defined. */
  lemma {:induction false} NeverFaults(w: World, ctx: Context, fn: Function, order: seq<Decl>, args: seq<Val>,
                                       mem: seq<Cell>, n: nat)
    requires UnitOk(ctx, fn, order) && CallOk(ctx, fn, args, mem) && EmitFunction(ctx, fn, order).Some?
    requires !Run(w, ctx, fn, args, mem, n).Stuck?
    ensures !Steps(w, ctx.target.intBits, EmitFunction(ctx, fn, order).value, Entry(ctx, fn, args, mem), n).Fault?
  {
    var p, start, bits := EmitFunction(ctx, fn, order).value, Entry(ctx, fn, args, mem), ctx.target.intBits;
    var k := Preserves(w, ctx, fn, order, args, mem, n);
    if n <= k {
      StepsAdd(w, bits, p, start, n, k - n);
      if Steps(w, bits, p, start, n).Fault? { StepsStay(w, bits, p, Fault, k - n); }
    } else {
      StepsAdd(w, bits, p, start, k, n - k);
      StepsStay(w, bits, p, Steps(w, bits, p, start, k), n - k);
    }
  }

  /** Termination and divergence are both preserved: the code halts exactly when the source returns. */
  lemma {:induction false} HaltsExactlyWhenSourceReturns(w: World, ctx: Context, fn: Function, order: seq<Decl>,
                                                         args: seq<Val>, mem: seq<Cell>)
    requires UnitOk(ctx, fn, order) && CallOk(ctx, fn, args, mem) && EmitFunction(ctx, fn, order).Some?
    requires Defined(w, ctx, fn, args, mem)
    ensures (exists n: nat ::
               Steps(w, ctx.target.intBits, EmitFunction(ctx, fn, order).value, Entry(ctx, fn, args, mem), n).Halted?)
       <==> (exists fuel: nat :: Run(w, ctx, fn, args, mem, fuel).Returned?)
  {
    var p, start, bits := EmitFunction(ctx, fn, order).value, Entry(ctx, fn, args, mem), ctx.target.intBits;
    if exists n: nat :: Steps(w, bits, p, start, n).Halted? {
      var n: nat :| Steps(w, bits, p, start, n).Halted?;
      var k := Preserves(w, ctx, fn, order, args, mem, n);
      if Run(w, ctx, fn, args, mem, n).OutOfFuel? {
        StepsAdd(w, bits, p, start, n, k - n);
        StepsStay(w, bits, p, Steps(w, bits, p, start, n), k - n);
        assert false;
      }
    }
    if exists fuel: nat :: Run(w, ctx, fn, args, mem, fuel).Returned? {
      var fuel: nat :| Run(w, ctx, fn, args, mem, fuel).Returned?;
      var k := Preserves(w, ctx, fn, order, args, mem, fuel);
      assert Steps(w, bits, p, start, k).Halted?;
    }
  }

  /** The answer of halted code is the source's answer, however the source's fuel was chosen. */
  lemma {:induction false} HaltedAnswer(w: World, ctx: Context, fn: Function, order: seq<Decl>, args: seq<Val>,
                                        mem: seq<Cell>, n: nat, fuel: nat)
    requires UnitOk(ctx, fn, order) && CallOk(ctx, fn, args, mem) && EmitFunction(ctx, fn, order).Some?
    requires Steps(w, ctx.target.intBits, EmitFunction(ctx, fn, order).value, Entry(ctx, fn, args, mem), n).Halted?
    requires Run(w, ctx, fn, args, mem, fuel).Returned?
    ensures SameBehaviour(ctx, mem, Run(w, ctx, fn, args, mem, fuel), fuel,
                          Steps(w, ctx.target.intBits, EmitFunction(ctx, fn, order).value, Entry(ctx, fn, args, mem),
                                n), n)
  {
    var p, start, bits := EmitFunction(ctx, fn, order).value, Entry(ctx, fn, args, mem), ctx.target.intBits;
    var k := Preserves(w, ctx, fn, order, args, mem, fuel);
    if n <= k {
      StepsAdd(w, bits, p, start, n, k - n);
      StepsStay(w, bits, p, Steps(w, bits, p, start, n), k - n);
    } else {
      StepsAdd(w, bits, p, start, k, n - k);
      StepsStay(w, bits, p, Steps(w, bits, p, start, k), n - k);
    }
  }
}
