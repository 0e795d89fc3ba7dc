/** Emitted statements behave as the source does. Whatever a statement does in the source, falling through, breaking,
    continuing, returning, or running on, the blocks do the same from the point where its code starts, in the same
    objects and with the same calls. */
module StmtSimulation {
  import opened CAst
  import opened Wrappers
  import opened Integers
  import opened Storage
  import opened StorageRelation
  import opened CSemantics
  import opened Contract
  import opened Ir
  import opened Lowering
  import opened ExprSimulation
  import opened Shape
  import opened Unit

  /** How the machine gets there: the number of steps, the final renaming, and the final registers and storage. */
  datatype Witness = Witness(n: nat, m: Renaming, c: Core)

  /** The final program p contains the blocks emitted so far. */
  ghost predicate Within(p: seq<Block>, blocks: seq<Block>) {
    && |blocks| <= |p|
    && forall b :: 0 <= b < |blocks| ==> blocks[b].ops <= p[b].ops
  }

  lemma {:induction false} WithinEarlier(env: Env, scope: set<Decl>, g: Gen, g': Gen, p: seq<Block>)
    requires Later(env, scope, g, g') && Within(p, g'.blocks)
    ensures Within(p, g.blocks)
  {
    forall b | 0 <= b < |g.blocks|
      ensures g.blocks[b].ops <= p[b].ops
    {
      assert g'.blocks[b].ops <= p[b].ops;
      if b == g.cur { assert g.Ops() <= g'.blocks[b].ops; }
    }
  }

  /** What a statement's simulation starts from. */
  ghost predicate Ready(env: Env, p: seq<Block>, g: Gen, scope: set<Decl>, m: Renaming, s: State, c: Core) {
    && GenOk(env, g)
    && Rel(env, g.frame, scope, m, s, c)
    && Prepared(env, scope, g)
  }

  /** Inside a loop every parameter already has its slot. */
  ghost predicate Prepared(env: Env, scope: set<Decl>, g: Gen) {
    && env.values.Keys <= scope
    && (forall d :: d in env.values ==> d in env.order)
    && (g.loops == [] || Settled(scope, g.frame))
  }

  /** The machine at the end of the code emitted so far. */
  function Here(g: Gen, c: Core): Machine {
    Running(g.cur, |g.Ops()|, c)
  }

  ghost predicate Arrives(env: Env, w: World, p: seq<Block>, start: Machine, m: Renaming, block: nat, pc: nat, f: Frame,
                          scope: set<Decl>, s: State, wit: Witness)
    requires env.ctx.target.Valid()
  {
    && Steps(w, env.ctx.target.intBits, p, start, wit.n) == Running(block, pc, wit.c)
    && Rel(env, f, scope, wit.m, s, wit.c)
    && Extends(m, wit.m)
  }

  ghost predicate AnswerRel(target: Target, v: Option<int>, r: Option<nat>)
    requires target.Valid()
  {
    match v
    case None => r == None
    case Some(x) => r.Some? && r.value < Pow2(target.intBits) && x == Reading(true, target.intBits, r.value)
  }

  ghost predicate Answers(env: Env, w: World, p: seq<Block>, start: Machine, m: Renaming, v: Option<int>, s: State,
                          wit: Witness)
    requires env.ctx.target.Valid()
  {
    var end := Steps(w, env.ctx.target.intBits, p, start, wit.n);
    && end.Halted? && AnswerRel(env.ctx.target, v, end.value)
    && Related(wit.m, s.store, end.store)
    && Extends(m, wit.m)
  }

  /** Still running after at least fuel steps, having made the same calls. */
  ghost predicate RunsOn(env: Env, w: World, p: seq<Block>, start: Machine, s: State, fuel: nat, wit: Witness)
    requires env.ctx.target.Valid()
  {
    var end := Steps(w, env.ctx.target.intBits, p, start, wit.n);
    end.Running? && wit.n >= fuel && end.core.store.trace == s.store.trace
  }

  /** The machine, started at start, does what outcome o says, which is anything when the source does what C leaves
      undefined; g and g' are the generator's states before and after emitting the statement, in whose scope it runs and
      scope' what follows it. */
  ghost predicate Agrees(env: Env, w: World, p: seq<Block>, start: Machine, m: Renaming, g: Gen, scope: set<Decl>,
                         g': Gen, scope': set<Decl>, fuel: nat, o: Outcome, wit: Witness)
    requires env.ctx.target.Valid()
  {
    match o
    case Normal(s) =>
      !g'.Terminated() && Arrives(env, w, p, start, m, g'.cur, |g'.Ops()|, g'.frame, scope', s, wit)
    case Broke(s) =>
      g.loops != [] &&
      Arrives(env, w, p, start, m, g.loops[|g.loops| - 1].breakTarget, 0, g.frame, scope, s, wit)
    case Continued(s) =>
      g.loops != [] &&
      Arrives(env, w, p, start, m, g.loops[|g.loops| - 1].continueTarget, 0, g.frame, scope, s, wit)
    case Returned(v, s) => Answers(env, w, p, start, m, v, s, wit)
    case OutOfFuel(s) => RunsOn(env, w, p, start, s, fuel, wit)
    case Stuck => true
  }

  // ----- composing runs -----

  lemma {:induction false} ArrivesThen(env: Env, w: World, p: seq<Block>, start: Machine, n: nat, mid: Machine,
                                       m: Renaming, m1: Renaming, g: Gen, scope: set<Decl>, g': Gen, scope': set<Decl>,
                                       fuel: nat, o: Outcome, wit: Witness)
    returns (wit': Witness)
    requires env.ctx.target.Valid()
    requires Steps(w, env.ctx.target.intBits, p, start, n) == mid && Extends(m, m1)
    requires Agrees(env, w, p, mid, m1, g, scope, g', scope', fuel, o, wit)
    ensures Agrees(env, w, p, start, m, g, scope, g', scope', fuel, o, wit')
    ensures wit' == wit.(n := n + wit.n)
  {
    StepsAdd(w, env.ctx.target.intBits, p, start, n, wit.n);
    wit' := wit.(n := n + wit.n);
  }

  /** Code appended at the insertion point runs from there. */
  lemma {:induction false} RunAppended(env: Env, w: World, p: seq<Block>, scope: set<Decl>, g: Gen, ops: seq<Op>,
                                       f: Frame, m: Renaming, s: State, c: Core, m1: Renaming, s1: State, c1: Core,
                                       rest: seq<Op>)
    requires GenOk(env, g) && Reached(env, w, scope, ops, g.frame, m, s, c, f, m1, s1, c1)
    requires g.cur < |p| && g.Ops() + (ops + rest) <= p[g.cur].ops
    ensures Steps(w, env.ctx.target.intBits, p, Here(g, c), |ops|) == Running(g.cur, |g.Ops()| + |ops|, c1)
  {
    var all := p[g.cur].ops;
    assert all[|g.Ops()|..|g.Ops()| + |ops|] == ops by {
      assert all[..|g.Ops()| + |ops| + |rest|] == g.Ops() + (ops + rest);
    }
    RunStraight(w, env.ctx.target.intBits, p, g.cur, |g.Ops()|, ops, c);
  }

  /** One step from (b, pc). */
  lemma {:induction false} StepFrom(w: World, n: nat, p: seq<Block>, start: Machine, i: nat, m: Machine)
    requires Steps(w, n, p, start, i) == m
    ensures Steps(w, n, p, start, i + 1) == Step(w, n, p, m)
  {
    StepsAdd(w, n, p, start, i, 1);
    assert Steps(w, n, p, m, 1) == Steps(w, n, p, Step(w, n, p, m), 0);
  }

  // ----- frames -----

  /** The relation only depends on the slots of the variables in scope. */
  lemma {:induction false} Reframe(env: Env, f: Frame, scope: set<Decl>, f': Frame, scope': set<Decl>, m: Renaming,
                                   s: State, c: Core)
    requires Rel(env, f, scope, m, s, c) && scope' <= scope && FrameOk(env, f')
    requires Settled(scope', f) && Settled(scope', f')
    requires forall d :: d in scope' && d in f.storage && d in f'.storage ==> f.storage[d] == f'.storage[d]
    ensures Rel(env, f', scope', m, s, c)
  {
    forall d | d in scope'
      ensures VarRel(env, f', m, d, s, c) && !Private(f', d, s)
    {
      assert VarRel(env, f, m, d, s, c);
      assert d in f.storage ==> SlotOk(env, f, d);
      assert d in f'.storage ==> SlotOk(env, f', d);
    }
  }

  /** Leaving a statement for its loop restores the view the statement started with. */
  lemma {:induction false} ReframeBack(env: Env, scope: set<Decl>, g: Gen, g': Gen, scope': set<Decl>, m: Renaming,
                                       s: State, c: Core)
    requires Rel(env, g'.frame, scope', m, s, c) && Later(env, scope, g, g') && scope <= scope'
    requires FrameOk(env, g.frame) && Settled(scope, g.frame)
    ensures Rel(env, g.frame, scope, m, s, c)
  {
    Reframe(env, g'.frame, scope', g.frame, scope, m, s, c);
  }

  /** Fewer variables in scope. */
  lemma {:induction false} Narrow(env: Env, f: Frame, scope: set<Decl>, scope': set<Decl>, m: Renaming, s: State,
                                  c: Core)
    requires Rel(env, f, scope, m, s, c) && scope' <= scope
    ensures Rel(env, f, scope', m, s, c)
  {
  }

  lemma {:induction false} LaterPrepared(env: Env, scope: set<Decl>, g: Gen, g': Gen, scope': set<Decl>)
    requires Prepared(env, scope, g) && Later(env, scope, g, g') && scope <= scope'
    requires forall d :: d in scope' && d !in scope ==> d in g'.frame.storage
    ensures Prepared(env, scope', g')
  {
  }

  /** An outcome of a later part of a statement, seen from the whole statement. */
  lemma {:induction false} AgreesOuter(env: Env, w: World, p: seq<Block>, start: Machine, m: Renaming, g: Gen,
                                       scope: set<Decl>, g1: Gen, scope1: set<Decl>, g': Gen, scope': set<Decl>,
                                       scope2: set<Decl>, fuel: nat, o: Outcome, wit: Witness)
    requires env.ctx.target.Valid() && scope <= scope1 && scope' <= scope2
    requires FrameOk(env, g.frame) && Prepared(env, scope, g) && Later(env, scope, g, g1)
    requires Agrees(env, w, p, start, m, g1, scope1, g', scope2, fuel, o, wit)
    ensures Agrees(env, w, p, start, m, g, scope, g', scope', fuel, o, wit)
  {
    match o
    case Normal(s) => Narrow(env, g'.frame, scope2, scope', wit.m, s, wit.c);
    case Broke(s) => ReframeBack(env, scope, g, g1, scope1, wit.m, s, wit.c);
    case Continued(s) => ReframeBack(env, scope, g, g1, scope1, wit.m, s, wit.c);
    case _ =>
  }

  // ----- straight-line statements -----

  lemma {:induction false} MaterializeAllSim(env: Env, w: World, f: Frame, decls: seq<Decl>, scope: set<Decl>,
                                             m: Renaming, s: State, c: Core)
    returns (m': Renaming, c': Core)
    requires Rel(env, f, scope, m, s, c)
    requires forall d :: d in decls ==> d in env.values && d in scope
    ensures var (f', ops) := MaterializeAll(env, f, decls);
            Reached(env, w, scope, ops, f, m, s, c, f', m', s, c')
    decreases decls
  {
    if decls == [] {
      m', c' := m, c;
    } else if decls[0].ty.Pointer? || decls[0] in f.storage {
      m', c' := MaterializeAllSim(env, w, f, decls[1..], scope, m, s, c);
    } else {
      var (f1, ops) := Materialize(env, f, decls[0]);
      assert decls[0].ty.Integer?;
      var m1, c1 := MaterializeSim(env, w, f, decls[0], scope, m, s, c);
      m', c' := MaterializeAllSim(env, w, f1, decls[1..], scope, m1, s, c1);
      var (f2, more) := MaterializeAll(env, f1, decls[1..]);
      ReachedTrans(env, w, scope, ops, more, f, m, s, c, f1, m1, s, c1, f2, m', s, c');
    }
  }

  /** Every parameter gets its slot before a block is opened; from then on the scope is settled. */
  lemma {:induction false} ParametersSim(env: Env, w: World, p: seq<Block>, g: Gen, scope: set<Decl>, m: Renaming,
                                         s: State, c: Core)
    returns (m': Renaming, c': Core)
    requires Ready(env, p, g, scope, m, s, c)
    ensures var (f, ops) := MaterializeAll(env, g.frame, env.order);
            && Reached(env, w, scope, ops, g.frame, m, s, c, f, m', s, c')
            && Settled(scope, f)
  {
    m', c' := MaterializeAllSim(env, w, g.frame, env.order, scope, m, s, c);
    MaterializeAllShape(env, g.frame, env.order);
    var (f, ops) := MaterializeAll(env, g.frame, env.order);
    forall d | d in scope
      ensures d in f.storage || d.ty.Pointer?
    {
      assert VarRel(env, g.frame, m, d, s, c);
    }
  }

  /** A value is zero exactly when its bits are. */
  lemma {:induction false} ZeroBits(signed: bool, width: nat, bits: nat)
    requires width > 0 && bits < Pow2(width)
    ensures Reading(signed, width, bits) != 0 <==> bits != 0
  {
    BitsOfReading(signed, width, bits);
    UniqueRemainder(0, 0, 0, Pow2(width));
    SmallPow2(1);
  }

  /** A condition leaves a one-bit value that is set when the source value is not zero. */
  lemma {:induction false} ConditionSim(env: Env, w: World, f: Frame, e: Expr, scope: set<Decl>, m: Renaming, s: State,
                                        c: Core)
    returns (m': Renaming, c': Core)
    requires Rel(env, f, scope, m, s, c) && Checked(env.ctx, scope, e) && EmitCondition(env, f, e).Code?
    requires Eval(w, env.ctx, e, s).Got?
    ensures var code, r := EmitCondition(env, f, e), Eval(w, env.ctx, e, s);
            && r.Got? && r.val.IntVal?
            && Reached(env, w, scope, code.ops, f, m, s, c, code.frame, m', r.s, c')
            && c'.HasInt(code.value, 1)
            && (c'.regs[code.value].bits != 0 <==> r.val.v != 0)
  {
    hide EmitExpr, Related, Checked, Eval, Moved;
    var code, r := EmitExpr(env, f, e), Eval(w, env.ctx, e, s);
    m', c' := SimExpr(env, w, f, e, scope, m, s, c);
    var kind := TypeOf(e).kind;
    var width := env.ctx.target.Width(kind);
    ZeroBits(IsSigned(kind), width, c'.regs[code.value].bits);
    if width != 1 {
      c' := SimNonZero(env, w, scope, code, width, f, m, s, c, m', r.s, c');
    }
  }

  /** A local begins with a fresh object on both sides. */
  lemma {:induction false} DeclareSim(env: Env, w: World, f: Frame, d: Decl, scope: set<Decl>, m: Renaming, s: State,
                                      c: Core)
    returns (m': Renaming, c': Core)
    requires Rel(env, f, scope, m, s, c) && d !in scope && d.ty.Integer?
    ensures var t := I(env.ctx.target.Width(d.ty.kind));
            && ExecOps(w, env.ctx.target.intBits, [Alloca(f.Next(), t)], c) == Some(c')
            && Rel(env, LocalFrame(f, d, t), scope + {d}, m', Declare(w, env.ctx, d, s), c')
            && Extends(m, m')
  {
    var width := env.ctx.target.Width(d.ty.kind);
    var n, a, b := f.Next(), |s.store.mem|, |c.store.mem|;
    m' := m[a := b];
    c' := Core(c.regs[n := PtrReg(b)], c.store.Allocate(w, width));
    assert ExecOp(w, env.ctx.target.intBits, Alloca(n, I(width)), c) == Some(c');
    assert [Alloca(n, I(width))][1..] == [];
    DeclareRel(env, w, f, d, scope, m, s, c);
  }

  lemma {:induction false} DeclareRel(env: Env, w: World, f: Frame, d: Decl, scope: set<Decl>, m: Renaming, s: State,
                                      c: Core)
    requires Rel(env, f, scope, m, s, c) && d !in scope && d.ty.Integer?
    ensures var width, m' := env.ctx.target.Width(d.ty.kind), m[|s.store.mem| := |c.store.mem|];
            && Extends(m, m')
            && Rel(env, LocalFrame(f, d, I(width)), scope + {d}, m', Declare(w, env.ctx, d, s),
                   Core(c.regs[f.Next() := PtrReg(|c.store.mem|)], c.store.Allocate(w, width)))
  {
    var width, m' := env.ctx.target.Width(d.ty.kind), m[|s.store.mem| := |c.store.mem|];
    var c' := Core(c.regs[f.Next() := PtrReg(|c.store.mem|)], c.store.Allocate(w, width));
    AllocateKeeps(m, w, s.store, c.store, width);
    var f', s' := LocalFrame(f, d, I(width)), Declare(w, env.ctx, d, s);
    LocalFrameOk(env, f, d, I(width));
    forall d' | d' in scope + {d}
      ensures VarRel(env, f', m', d', s', c')
    {
      if d' != d { assert VarRel(env, f, m, d', s, c); }
    }
    assert forall d' :: d' in scope && Private(f', d', s') ==> Private(f, d', s);
  }

  lemma {:induction false} VarSim(env: Env, w: World, p: seq<Block>, g: Gen, d: Decl, init: Option<Expr>,
                                  scope: set<Decl>, m: Renaming, s: State, c: Core, fuel: nat)
    returns (wit: Witness)
    requires Ready(env, p, g, scope, m, s, c) && !g.Terminated() && d !in scope
    requires init.Some? ==> Checked(env.ctx, scope + {d}, init.value) && TypeOf(init.value) == d.ty
    requires EmitVar(env, g, d, init).Some? && Within(p, EmitVar(env, g, d, init).value.blocks)
    ensures Agrees(env, w, p, Here(g, c), m, g, scope, EmitVar(env, g, d, init).value, scope + {d}, fuel,
                   Exec(w, env.ctx, VarDecl(d, init), s, fuel), wit)
  {
    if init.None? {
      var t := I(env.ctx.target.Width(d.ty.kind));
      var g' := EmitVar(env, g, d, init).value;
      assert g'.blocks[g.cur].ops <= p[g.cur].ops;
      var m1, c1 := DeclareSim(env, w, g.frame, d, scope, m, s, c);
      RunStraightHere(w, env.ctx.target.intBits, p, g, [Alloca(g.frame.Next(), t)], c);
      wit := Witness(1, m1, c1);
    } else if Eval(w, env.ctx, init.value, Declare(w, env.ctx, d, s)).Wrong? {
      wit := Witness(0, m, c);
    } else {
      var s2;
      wit, s2 := VarInitSim(env, w, p, g, d, init.value, scope, m, s, c, fuel);
    }
  }

  lemma {:induction false} VarCode(env: Env, p: seq<Block>, g: Gen, d: Decl, init: Expr)
    requires GenOk(env, g) && d.ty.Integer? && EmitVar(env, g, d, Some(init)).Some?
    requires Within(p, EmitVar(env, g, d, Some(init)).value.blocks)
    ensures var t, v := I(env.ctx.target.Width(d.ty.kind)), g.frame.Next();
            var code := EmitExpr(env, LocalFrame(g.frame, d, t), init);
            && code.Code?
            && var rest := code.ops + [StoreOp(code.value, v)];
            && NoTerminators([Alloca(v, t)] + rest)
            && EmitVar(env, g, d, Some(init)).value == g.With([Alloca(v, t)] + rest, code.frame)
            && g.cur < |p| && g.Ops() + ([Alloca(v, t)] + rest) <= p[g.cur].ops
  {
    var t, v := I(env.ctx.target.Width(d.ty.kind)), g.frame.Next();
    LocalFrameOk(env, g.frame, d, t);
    ExprShape(env, LocalFrame(g.frame, d, t), init);
    var code := EmitExpr(env, LocalFrame(g.frame, d, t), init);
    assert [Alloca(v, t)] + code.ops + [StoreOp(code.value, v)]
      == [Alloca(v, t)] + (code.ops + [StoreOp(code.value, v)]);
    var g' := EmitVar(env, g, d, Some(init)).value;
    assert g'.blocks[g.cur].ops <= p[g.cur].ops;
  }

  lemma {:induction false} VarInitSim(env: Env, w: World, p: seq<Block>, g: Gen, d: Decl, init: Expr, scope: set<Decl>,
                                      m: Renaming, s: State, c: Core, fuel: nat)
    returns (wit: Witness, s2: State)
    requires Ready(env, p, g, scope, m, s, c) && !g.Terminated() && d !in scope
    requires Checked(env.ctx, scope + {d}, init) && TypeOf(init) == d.ty
    requires EmitVar(env, g, d, Some(init)).Some? && Within(p, EmitVar(env, g, d, Some(init)).value.blocks)
    requires Eval(w, env.ctx, init, Declare(w, env.ctx, d, s)).Got?
    ensures Exec(w, env.ctx, VarDecl(d, Some(init)), s, fuel) == Normal(s2)
    ensures var g' := EmitVar(env, g, d, Some(init)).value;
            && !g'.Terminated()
            && Arrives(env, w, p, Here(g, c), m, g'.cur, |g'.Ops()|, g'.frame, scope + {d}, s2, wit)
  {
    var t, v := I(env.ctx.target.Width(d.ty.kind)), g.frame.Next();
    VarCode(env, p, g, d, init);
    var m1, c1 := DeclareSim(env, w, g.frame, d, scope, m, s, c);
    var f := LocalFrame(g.frame, d, t);
    var code, s1 := EmitExpr(env, f, init), Declare(w, env.ctx, d, s);
    var r := Eval(w, env.ctx, init, s1);
    var m2, c2 := InitSim(env, w, f, d, init, scope + {d}, m1, s1, c1, |s.store.mem|);
    s2 := r.s.(store := r.s.store.Write(|s.store.mem|, Bits(env.ctx.target.Width(d.ty.kind), r.val.v)));
    var rest := code.ops + [StoreOp(code.value, v)];
    wit := StraightArrives(env, w, p, scope + {d}, g, [Alloca(v, t)], c, c1, rest, f, m, m1, s1, code.frame, m2, s2,
                           c2);
  }

  /** Code in two pieces, the second of which keeps the relation, leaves the machine at its end. */
  lemma {:induction false} StraightArrives(env: Env, w: World, p: seq<Block>, scope: set<Decl>, g: Gen, first: seq<Op>,
                                           c: Core, c1: Core, rest: seq<Op>, f: Frame, m: Renaming, m1: Renaming,
                                           s1: State, f2: Frame, m2: Renaming, s2: State, c2: Core)
    returns (wit: Witness)
    requires GenOk(env, g) && !g.Terminated() && Extends(m, m1) && NoTerminators(first + rest)
    requires ExecOps(w, env.ctx.target.intBits, first, c) == Some(c1)
    requires Reached(env, w, scope, rest, f, m1, s1, c1, f2, m2, s2, c2)
    requires g.cur < |p| && g.Ops() + (first + rest) <= p[g.cur].ops
    ensures var g' := g.With(first + rest, f2);
            !g'.Terminated() && Arrives(env, w, p, Here(g, c), m, g'.cur, |g'.Ops()|, g'.frame, scope, s2, wit)
  {
    ExecOpsConcat(w, env.ctx.target.intBits, first, rest, c);
    RunStraightHere(w, env.ctx.target.intBits, p, g, first + rest, c);
    NotTerminated(g, first + rest, f2);
    wit := Witness(|first + rest|, m2, c2);
  }

  /** A local's initializer is evaluated with the local in scope, then stored. */
  lemma {:induction false} InitSim(env: Env, w: World, f: Frame, d: Decl, init: Expr, scope: set<Decl>, m: Renaming,
                                   s: State, c: Core, a: nat)
    returns (m': Renaming, c': Core)
    requires Rel(env, f, scope, m, s, c) && d in scope && d in f.storage && s.env[d] == Object(a)
    requires Checked(env.ctx, scope, init) && TypeOf(init) == d.ty && EmitExpr(env, f, init).Code?
    requires Eval(w, env.ctx, init, s).Got?
    ensures var code, r := EmitExpr(env, f, init), Eval(w, env.ctx, init, s);
            && r.Got? && r.val.IntVal? && a < |s.store.mem| && a < |r.s.store.mem|
            && SlotOk(env, f, d)
            && var s' := r.s.(store := r.s.store.Write(a, Bits(env.ctx.target.Width(d.ty.kind), r.val.v)));
            Reached(env, w, scope, code.ops + [StoreOp(code.value, f.storage[d].base)], f, m, s, c, code.frame, m', s',
                    c')
  {
    var code, r := EmitExpr(env, f, init), Eval(w, env.ctx, init, s);
    assert VarRel(env, f, m, d, s, c) && SlotOk(env, f, d);
    var base := f.storage[d].base;
    var c1;
    m', c1 := SimExpr(env, w, f, init, scope, m, s, c);
    ValueStays(env.ctx.target, f, m, s, c, code.frame, m', r.s, c1, Pointer(d.ty), PtrVal(a), base);
    c' := SimStore(env, w, f, code.ops, code, f.storage[d], d.ty, PtrVal(a), r, scope, m, s, c, m', c1);
  }

  lemma {:induction false} RunStraightHere(w: World, n: nat, p: seq<Block>, g: Gen, ops: seq<Op>, c: Core)
    requires g.cur < |g.blocks| && g.cur < |p| && g.Ops() + ops <= p[g.cur].ops
    requires ExecOps(w, n, ops, c).Some?
    ensures Steps(w, n, p, Here(g, c), |ops|) == Running(g.cur, |g.Ops() + ops|, ExecOps(w, n, ops, c).value)
  {
    assert p[g.cur].ops[|g.Ops()|..|g.Ops()| + |ops|] == ops by {
      assert p[g.cur].ops[..|g.Ops() + ops|] == g.Ops() + ops;
    }
    RunStraight(w, n, p, g.cur, |g.Ops()|, ops, c);
  }

  lemma {:induction false} NotTerminated(g: Gen, ops: seq<Op>, f: Frame)
    requires g.cur < |g.blocks| && !g.Terminated() && NoTerminators(ops)
    ensures !g.With(ops, f).Terminated()
  {
  }

  lemma {:induction false} ExprStmtSim(env: Env, w: World, p: seq<Block>, g: Gen, e: Expr, scope: set<Decl>,
                                       m: Renaming, s: State, c: Core)
    returns (wit: Witness)
    requires Ready(env, p, g, scope, m, s, c) && !g.Terminated() && Checked(env.ctx, scope, e)
    requires EmitExprStmt(env, g, e).Some? && Within(p, EmitExprStmt(env, g, e).value.blocks)
    requires EvalDiscarding(w, env.ctx, e, s).Got?
    ensures var g', r := EmitExprStmt(env, g, e).value, EvalDiscarding(w, env.ctx, e, s);
            && r.Got? && !g'.Terminated() && g'.cur == g.cur
            && Arrives(env, w, p, Here(g, c), m, g'.cur, |g'.Ops()|, g'.frame, scope, r.s, wit)
  {
    hide EmitExpr, EmitCall, Eval, EvalCall, FrameOk;
    var g' := EmitExprStmt(env, g, e).value;
    assert g'.blocks[g.cur].ops <= p[g.cur].ops;
    if e.Call? {
      var m1, c1 := SimCall(env, w, g.frame, e, scope, m, s, c);
      CallShape(env, g.frame, e);
      var code := EmitCall(env, g.frame, e);
      RunStraightHere(w, env.ctx.target.intBits, p, g, code.ops, c);
      NotTerminated(g, code.ops, code.frame);
      wit := Witness(|code.ops|, m1, c1);
    } else {
      var m1, c1 := SimExpr(env, w, g.frame, e, scope, m, s, c);
      ExprShape(env, g.frame, e);
      var code := EmitExpr(env, g.frame, e);
      RunStraightHere(w, env.ctx.target.intBits, p, g, code.ops, c);
      NotTerminated(g, code.ops, code.frame);
      wit := Witness(|code.ops|, m1, c1);
    }
  }

  lemma {:induction false} ReturnSim(env: Env, w: World, p: seq<Block>, g: Gen, value: Option<Expr>, ret: CType,
                                     scope: set<Decl>, m: Renaming, s: State, c: Core, fuel: nat)
    returns (wit: Witness)
    requires Ready(env, p, g, scope, m, s, c) && ResultOk(env, ret)
    requires CheckedStmt(env.ctx, ret, scope, 0, Return(value))
    requires EmitReturn(env, g, value).Some? && Within(p, EmitReturn(env, g, value).value.blocks)
    ensures Agrees(env, w, p, Here(g, c), m, g, scope, EmitReturn(env, g, value).value, scope, fuel,
                   Exec(w, env.ctx, Return(value), s, fuel), wit)
  {
    hide EmitExpr, Related, FrameOk, Checked, Eval;
    var n := env.ctx.target.intBits;
    var g' := EmitReturn(env, g, value).value;
    assert g'.blocks[g.cur].ops <= p[g.cur].ops;
    if value.None? {
      assert p[g.cur].ops[|g.Ops()|] == g'.blocks[g.cur].ops[|g.Ops()|] == ReturnOp(None);
      StepFrom(w, n, p, Here(g, c), 0, Here(g, c));
      wit := Witness(1, m, c);
    } else if Eval(w, env.ctx, value.value, s).Wrong? {
      wit := Witness(0, m, c);
    } else {
      var code := EmitExpr(env, g.frame, value.value);
      assert g'.blocks[g.cur].ops == g.Ops() + (code.ops + [ReturnOp(Some(code.value))]);
      wit := ReturnValueSim(env, w, p, g, value.value, scope, m, s, c);
    }
  }

  lemma {:induction false} ReturnValueSim(env: Env, w: World, p: seq<Block>, g: Gen, value: Expr, scope: set<Decl>,
                                          m: Renaming, s: State, c: Core)
    returns (wit: Witness)
    requires Ready(env, p, g, scope, m, s, c) && Checked(env.ctx, scope, value) && TypeOf(value) == Integer(Int)
    requires Eval(w, env.ctx, value, s).Got? && EmitExpr(env, g.frame, value).Code?
    requires var code := EmitExpr(env, g.frame, value);
             g.cur < |p| && g.Ops() + (code.ops + [ReturnOp(Some(code.value))]) <= p[g.cur].ops
    ensures var r := Eval(w, env.ctx, value, s);
            r.val.IntVal? && Answers(env, w, p, Here(g, c), m, Some(r.val.v), r.s, wit)
  {
    hide EmitExpr, Related, FrameOk, Checked, Eval;
    var n, code := env.ctx.target.intBits, EmitExpr(env, g.frame, value);
    var m1, c1 := SimExpr(env, w, g.frame, value, scope, m, s, c);
    var op := ReturnOp(Some(code.value));
    RunAppended(env, w, p, scope, g, code.ops, code.frame, m, s, c, m1, Eval(w, env.ctx, value, s).s, c1, [op]);
    var mid := Running(g.cur, |g.Ops()| + |code.ops|, c1);
    assert p[g.cur].ops[mid.pc] == (g.Ops() + (code.ops + [op]))[mid.pc] == op;
    StepFrom(w, n, p, Here(g, c), |code.ops|, mid);
    wit := Witness(|code.ops| + 1, m1, c1);
  }

  lemma {:induction false} JumpSim(env: Env, w: World, p: seq<Block>, g: Gen, target: nat, f: Frame, scope: set<Decl>,
                                   m: Renaming, s: State, c: Core)
    returns (wit: Witness)
    requires GenOk(env, g) && Rel(env, f, scope, m, s, c)
    requires Within(p, g.Append([Branch(target)]).blocks)
    ensures Arrives(env, w, p, Here(g, c), m, target, 0, f, scope, s, wit)
    ensures wit == Witness(1, m, c)
  {
    var g' := g.Append([Branch(target)]);
    assert g'.blocks[g.cur].ops <= p[g.cur].ops;
    assert p[g.cur].ops[|g.Ops()|] == g'.blocks[g.cur].ops[|g.Ops()|] == Branch(target);
    StepFrom(w, env.ctx.target.intBits, p, Here(g, c), 0, Here(g, c));
    wit := Witness(1, m, c);
  }
}
