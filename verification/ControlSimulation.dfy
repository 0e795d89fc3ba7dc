/** The inductive part of the simulation: blocks, conditionals and loops. */
module ControlSimulation {
  import opened CAst
  import opened Wrappers
  import opened Storage
  import opened StorageRelation
  import opened CSemantics
  import opened Contract
  import opened Ir
  import opened Lowering
  import opened ExprSimulation
  import opened Shape
  import opened Unit
  import opened StmtSimulation

  // ----- sequences -----

  lemma {:induction false} SimItems(env: Env, w: World, p: seq<Block>, g: Gen, items: seq<Stmt>, ret: CType,
                                    scope: set<Decl>, depth: nat, m: Renaming, s: State, c: Core, fuel: nat)
    returns (wit: Witness)
    requires Ready(env, p, g, scope, m, s, c) && !g.Terminated() && ResultOk(env, ret)
    requires CheckedItems(env.ctx, ret, scope, depth, items)
    requires EmitItems(env, g, items).Some? && Within(p, EmitItems(env, g, items).value.blocks)
    ensures Agrees(env, w, p, Here(g, c), m, g, scope, EmitItems(env, g, items).value, scope, fuel,
                   ExecItems(w, env.ctx, items, s, fuel), wit)
    decreases items, fuel, 0
  {
    hide Rel, FrameOk, Related, Within;
    if items == [] {
      wit := Witness(0, m, c);
    } else {
      var g1, g2 := EmitItem(env, g, items[0]).value, EmitItems(env, g, items).value;
      var scope1 := ScopeAfter(scope, items[0]);
      ItemShape(env, g, items[0], ret, scope, depth);
      ItemsShape(env, g1, items[1..], ret, scope1, depth);
      WithinEarlier(env, scope1, g1, g2, p);
      wit := SimItem(env, w, p, g, items[0], ret, scope, depth, m, s, c, fuel);
      var o := Exec(w, env.ctx, items[0], s, fuel);
      if o.Normal? {
        wit := SimRest(env, w, p, g, g1, items, ret, scope, depth, m, s, c, o.s, wit, fuel);
      }
    }
  }

  /** After a first item that falls through, the rest runs from its end. */
  lemma {:induction false} SimRest(env: Env, w: World, p: seq<Block>, g: Gen, g1: Gen, items: seq<Stmt>, ret: CType,
                                   scope: set<Decl>, depth: nat, m: Renaming, s: State, c: Core, s1: State,
                                   wit1: Witness, fuel: nat)
    returns (wit: Witness)
    requires Ready(env, p, g, scope, m, s, c) && ResultOk(env, ret) && items != []
    requires CheckedItems(env.ctx, ret, ScopeAfter(scope, items[0]), depth, items[1..])
    requires Later(env, scope, g, g1) && !g1.Terminated()
    requires items[0].VarDecl? ==> items[0].decl in g1.frame.storage
    requires Arrives(env, w, p, Here(g, c), m, g1.cur, |g1.Ops()|, g1.frame, ScopeAfter(scope, items[0]), s1, wit1)
    requires EmitItems(env, g1, items[1..]).Some? && Within(p, EmitItems(env, g1, items[1..]).value.blocks)
    ensures Agrees(env, w, p, Here(g, c), m, g, scope, EmitItems(env, g1, items[1..]).value, scope, fuel,
                   ExecItems(w, env.ctx, items[1..], s1, fuel), wit)
    decreases items[1..], fuel, 1
  {
    hide Rel, FrameOk, Related, Within;
    var scope1 := ScopeAfter(scope, items[0]);
    LaterPrepared(env, scope, g, g1, scope1);
    var g2, o := EmitItems(env, g1, items[1..]).value, ExecItems(w, env.ctx, items[1..], s1, fuel);
    wit := SimItems(env, w, p, g1, items[1..], ret, scope1, depth, wit1.m, s1, wit1.c, fuel);
    wit := ArrivesThen(env, w, p, Here(g, c), wit1.n, Here(g1, wit1.c), m, wit1.m, g1, scope1, g2, scope1, fuel, o,
                       wit);
    AgreesOuter(env, w, p, Here(g, c), m, g, scope, g1, scope1, g2, scope, scope1, fuel, o, wit);
  }

  lemma {:induction false} SimItem(env: Env, w: World, p: seq<Block>, g: Gen, stmt: Stmt, ret: CType, scope: set<Decl>,
                                   depth: nat, m: Renaming, s: State, c: Core, fuel: nat)
    returns (wit: Witness)
    requires Ready(env, p, g, scope, m, s, c) && !g.Terminated() && ResultOk(env, ret)
    requires CheckedStmt(env.ctx, ret, scope, depth, stmt)
    requires EmitItem(env, g, stmt).Some? && Within(p, EmitItem(env, g, stmt).value.blocks)
    ensures Agrees(env, w, p, Here(g, c), m, g, scope, EmitItem(env, g, stmt).value, ScopeAfter(scope, stmt), fuel,
                   Exec(w, env.ctx, stmt, s, fuel), wit)
    ensures stmt.VarDecl? ==> stmt.decl in EmitItem(env, g, stmt).value.frame.storage
    decreases stmt, fuel, 1
  {
    hide Rel, FrameOk, Related, Within;
    match stmt
    case VarDecl(d, init) =>
      wit := VarSim(env, w, p, g, d, init, scope, m, s, c, fuel);
      VarHasSlot(env, g, d, init);
    case TypedefDecl => wit := Witness(0, m, c);
    case Compound(items) => wit := SimItems(env, w, p, g, items, ret, scope, depth, m, s, c, fuel);
    case ExprStmt(e) =>
      if e.None? || EvalDiscarding(w, env.ctx, e.value, s).Wrong? {
        wit := Witness(0, m, c);
      } else {
        wit := ExprStmtSim(env, w, p, g, e.value, scope, m, s, c);
      }
    case If(_, _, _) => wit := SimIf(env, w, p, g, stmt, ret, scope, depth, m, s, c, fuel);
    case While(_, _) => wit := SimWhile(env, w, p, g, stmt, ret, scope, depth, m, s, c, fuel);
    case For(_, _, _, _) => wit := SimFor(env, w, p, g, stmt, ret, scope, depth, m, s, c, fuel);
    case Break => wit := JumpSim(env, w, p, g, g.loops[|g.loops| - 1].breakTarget, g.frame, scope, m, s, c);
    case Continue => wit := JumpSim(env, w, p, g, g.loops[|g.loops| - 1].continueTarget, g.frame, scope, m, s, c);
    case Return(value) => wit := ReturnSim(env, w, p, g, value, ret, scope, m, s, c, fuel);
  }

  lemma {:induction false} VarHasSlot(env: Env, g: Gen, d: Decl, init: Option<Expr>)
    requires GenOk(env, g) && EmitVar(env, g, d, init).Some?
    ensures d in EmitVar(env, g, d, init).value.frame.storage
  {
    hide Rel, FrameOk, Related, Within;
    var t := LowerType(env.ctx.target, d.ty).value;
    LocalFrameOk(env, g.frame, d, t);
    if init.Some? { ExprShape(env, LocalFrame(g.frame, d, t), init.value); }
  }

  // ----- conditionals -----

  /** Reaching the first or second block after a conditional branch, with a settled scope. */
  ghost predicate Branched(env: Env, w: World, p: seq<Block>, g: Gen, g1: Gen, scope: set<Decl>, m: Renaming, c: Core,
                           r: Evaluated, yes: nat, no: nat, wit: Witness)
    requires env.ctx.target.Valid()
  {
    && r.Got? && r.val.IntVal?
    && Arrives(env, w, p, Here(g, c), m, if r.val.v != 0 then yes else no, 0, g1.frame, scope, r.s, wit)
    && wit.n > 0
  }

  /** Code ending in a conditional branch on a value that holds the source condition. */
  lemma {:induction false} CondBranchRuns(env: Env, w: World, p: seq<Block>, scope: set<Decl>, g: Gen, ops: seq<Op>,
                                          v: nat, yes: nat, no: nat, f: Frame, m: Renaming, s: State, c: Core,
                                          m1: Renaming, s1: State, c1: Core)
    returns (wit: Witness)
    requires GenOk(env, g) && Reached(env, w, scope, ops, g.frame, m, s, c, f, m1, s1, c1)
    requires g.cur < |p| && g.Ops() + (ops + [CondBranch(v, yes, no)]) <= p[g.cur].ops && c1.HasInt(v, 1)
    ensures Arrives(env, w, p, Here(g, c), m, if c1.regs[v].bits != 0 then yes else no, 0, f, scope, s1, wit)
    ensures wit == Witness(|ops| + 1, m1, c1)
  {
    hide Rel, FrameOk, Related, Within;
    var op := CondBranch(v, yes, no);
    RunAppended(env, w, p, scope, g, ops, f, m, s, c, m1, s1, c1, [op]);
    var mid := Running(g.cur, |g.Ops()| + |ops|, c1);
    assert p[g.cur].ops[mid.pc] == (g.Ops() + (ops + [op]))[mid.pc] == op;
    StepFrom(w, env.ctx.target.intBits, p, Here(g, c), |ops|, mid);
    wit := Witness(|ops| + 1, m1, c1);
  }

  lemma {:induction false} IfHeadSim(env: Env, w: World, p: seq<Block>, g: Gen, cond: Expr, hasElse: bool,
                                     scope: set<Decl>, m: Renaming, s: State, c: Core)
    returns (wit: Witness)
    requires Ready(env, p, g, scope, m, s, c) && Checked(env.ctx, scope, cond)
    requires EmitIfHead(env, g, cond, hasElse).Some? && Within(p, EmitIfHead(env, g, cond, hasElse).value.blocks)
    requires Eval(w, env.ctx, cond, s).Got?
    ensures var g1, b := EmitIfHead(env, g, cond, hasElse).value, |g.blocks|;
            && Settled(scope, g1.frame)
            && Branched(env, w, p, g, g1, scope, m, c, Eval(w, env.ctx, cond, s), b, b + 1, wit)
  {
    hide Rel, FrameOk, Related, EmitExpr, EmitCondition, Eval, Checked;
    var g1, b := EmitIfHead(env, g, cond, hasElse).value, |g.blocks|;
    var (f0, first) := MaterializeAll(env, g.frame, env.order);
    var m0, c0 := ParametersSim(env, w, p, g, scope, m, s, c);
    var code, r := EmitCondition(env, f0, cond), Eval(w, env.ctx, cond, s);
    var m1, c1 := ConditionSim(env, w, f0, cond, scope, m0, s, c0);
    ReachedTrans(env, w, scope, first, code.ops, g.frame, m, s, c, f0, m0, s, c0, code.frame, m1, r.s, c1);
    assert g1.blocks[g.cur].ops == g.Ops() + (first + code.ops + [CondBranch(code.value, b, b + 1)]);
    assert g1.blocks[g.cur].ops <= p[g.cur].ops;
    wit := CondBranchRuns(env, w, p, scope, g, first + code.ops, code.value, b, b + 1, code.frame, m, s, c, m1, r.s,
                          c1);
  }

  /** An arm that falls through has a branch to the merge block. */
  lemma {:induction false} ArmSim(env: Env, w: World, p: seq<Block>, g: Gen, b: nat, stmt: Stmt, mergeBlock: nat,
                                  ret: CType, scope: set<Decl>, depth: nat, m: Renaming, s: State, c: Core, fuel: nat)
    returns (wit: Witness)
    requires Ready(env, p, g.At(b), scope, m, s, c) && g.At(b).Ops() == [] && ResultOk(env, ret)
    requires CheckedStmt(env.ctx, ret, scope, depth, stmt)
    requires EmitArm(env, g, b, stmt, mergeBlock).Some?
    requires Within(p, EmitArm(env, g, b, stmt, mergeBlock).value.gen.blocks)
    ensures var arm, o := EmitArm(env, g, b, stmt, mergeBlock).value, Exec(w, env.ctx, stmt, s, fuel);
            if o.Normal? then
              arm.continues && Arrives(env, w, p, Running(b, 0, c), m, mergeBlock, 0, arm.gen.frame, scope, o.s, wit)
            else Agrees(env, w, p, Running(b, 0, c), m, g.At(b), scope, arm.gen, scope, fuel, o, wit)
    decreases stmt, fuel, 2
  {
    hide Rel, FrameOk, Related, Within, ResultOk;
    var g1, o := EmitItem(env, g.At(b), stmt).value, Exec(w, env.ctx, stmt, s, fuel);
    ItemShape(env, g.At(b), stmt, ret, scope, depth);
    BranchIfOpenLater(env, scope, g1, mergeBlock);
    WithinEarlier(env, scope, g1, BranchIfOpen(g1, mergeBlock), p);
    wit := SimItem(env, w, p, g.At(b), stmt, ret, scope, depth, m, s, c, fuel);
    if o.Normal? {
      Narrow(env, g1.frame, ScopeAfter(scope, stmt), scope, wit.m, o.s, wit.c);
      var jump := JumpSim(env, w, p, g1, mergeBlock, g1.frame, scope, wit.m, o.s, wit.c);
      wit := ArrivesArrives(env, w, p, Running(b, 0, c), wit.n, Here(g1, wit.c), m, wit.m, mergeBlock, 0, g1.frame,
                            scope, o.s, jump);
    }
  }

  lemma {:induction false} ArrivesArrives(env: Env, w: World, p: seq<Block>, start: Machine, n: nat, mid: Machine,
                                          m: Renaming, m1: Renaming, block: nat, pc: nat, f: Frame, scope: set<Decl>,
                                          s: State, wit: Witness)
    returns (wit': Witness)
    requires env.ctx.target.Valid()
    requires Steps(w, env.ctx.target.intBits, p, start, n) == mid && Extends(m, m1)
    requires Arrives(env, w, p, mid, m1, block, pc, f, scope, s, wit)
    ensures Arrives(env, w, p, start, m, block, pc, f, scope, s, wit')
    ensures wit' == wit.(n := n + wit.n)
  {
    hide Rel, FrameOk, Related, Within;
    StepsAdd(w, env.ctx.target.intBits, p, start, n, wit.n);
    wit' := wit.(n := n + wit.n);
  }

  /** An if statement as seen from its head: the head's run followed by an outcome from the chosen block. */
  lemma {:induction false} AfterHead(env: Env, w: World, p: seq<Block>, g: Gen, g1: Gen, b: nat, scope: set<Decl>,
                                     m: Renaming, c: Core, g': Gen, fuel: nat, o: Outcome, head: Witness, tail: Witness)
    returns (wit: Witness)
    requires GenOk(env, g) && Prepared(env, scope, g) && Later(env, scope, g, g1.At(b))
    requires Steps(w, env.ctx.target.intBits, p, Here(g, c), head.n) == Running(b, 0, head.c) && Extends(m, head.m)
    requires Agrees(env, w, p, Running(b, 0, head.c), head.m, g1.At(b), scope, g', scope, fuel, o, tail)
    ensures Agrees(env, w, p, Here(g, c), m, g, scope, g', scope, fuel, o, wit)
  {
    hide Rel, FrameOk, Related, Within;
    wit := ArrivesThen(env, w, p, Here(g, c), head.n, Running(b, 0, head.c), m, head.m, g1.At(b), scope, g', scope,
                       fuel, o, tail);
    AgreesOuter(env, w, p, Here(g, c), m, g, scope, g1.At(b), scope, g', scope, scope, fuel, o, wit);
  }

  /** Arriving at the empty merge block under the frame the whole statement ends with. */
  lemma {:induction false} AtMerge(env: Env, w: World, p: seq<Block>, start: Machine, m: Renaming, g: Gen,
                                   scope: set<Decl>, g1: Gen, g': Gen, fuel: nat, s: State, wit: Witness)
    requires GenOk(env, g') && g'.Ops() == [] && FrameOk(env, g1.frame)
    requires Arrives(env, w, p, start, m, g'.cur, 0, g1.frame, scope, s, wit)
    requires Settled(scope, g1.frame) && SlotsKeptOn(scope, g1.frame, g'.frame)
    ensures Agrees(env, w, p, start, m, g, scope, g', scope, fuel, Normal(s), wit)
  {
    hide Rel, FrameOk, Related, Within;
    Reframe(env, g1.frame, scope, g'.frame, scope, wit.m, s, wit.c);
  }

  lemma {:induction false} SimIf(env: Env, w: World, p: seq<Block>, g: Gen, stmt: Stmt, ret: CType, scope: set<Decl>,
                                 depth: nat, m: Renaming, s: State, c: Core, fuel: nat)
    returns (wit: Witness)
    requires Ready(env, p, g, scope, m, s, c) && !g.Terminated() && ResultOk(env, ret) && stmt.If?
    requires CheckedStmt(env.ctx, ret, scope, depth, stmt)
    requires EmitIf(env, g, stmt).Some? && Within(p, EmitIf(env, g, stmt).value.blocks)
    ensures Agrees(env, w, p, Here(g, c), m, g, scope, EmitIf(env, g, stmt).value, scope, fuel,
                   Exec(w, env.ctx, stmt, s, fuel), wit)
    decreases stmt, fuel, 0
  {
    hide Rel, FrameOk, Related, Within;
    var g1 := EmitIfHead(env, g, stmt.cond, stmt.els.Some?).value;
    IfHeadShape(env, g, stmt.cond, stmt.els.Some?, scope);
    if Eval(w, env.ctx, stmt.cond, s).Wrong? {
      wit := Witness(0, m, c);
    } else if stmt.els.None? {
      wit := SimThen(env, w, p, g, g1, stmt, ret, scope, depth, m, s, c, fuel);
    } else {
      wit := SimThenElse(env, w, p, g, g1, stmt, ret, scope, depth, m, s, c, fuel);
    }
  }

  /** The state of the generator after an if's head, with its blocks still empty. */
  ghost predicate HeadEmitted(env: Env, g: Gen, g1: Gen, stmt: Stmt, scope: set<Decl>)
  {
    && stmt.If? && EnvOk(env)
    && EmitIfHead(env, g, stmt.cond, stmt.els.Some?) == Some(g1)
    && Later(env, scope, g, g1) && |g1.blocks| == |g.blocks| + (if stmt.els.Some? then 3 else 2)
    && (forall b :: |g.blocks| <= b < |g1.blocks| ==> Fresh(g1, b))
  }

  lemma {:induction false} SimThen(env: Env, w: World, p: seq<Block>, g: Gen, g1: Gen, stmt: Stmt, ret: CType,
                                   scope: set<Decl>, depth: nat, m: Renaming, s: State, c: Core, fuel: nat)
    returns (wit: Witness)
    requires Ready(env, p, g, scope, m, s, c) && ResultOk(env, ret) && HeadEmitted(env, g, g1, stmt, scope)
    requires CheckedStmt(env.ctx, ret, scope, depth, stmt) && stmt.els.None?
    requires EmitThen(env, g1, |g.blocks|, stmt.thn).Some?
    requires Within(p, EmitThen(env, g1, |g.blocks|, stmt.thn).value.blocks)
    requires Eval(w, env.ctx, stmt.cond, s).Got?
    ensures Agrees(env, w, p, Here(g, c), m, g, scope, EmitThen(env, g1, |g.blocks|, stmt.thn).value, scope, fuel,
                   Exec(w, env.ctx, stmt, s, fuel), wit)
    decreases stmt.thn, fuel, 4
  {
    hide Rel, FrameOk, Related, Within, EmitItem, ResultOk, Eval, EmitIfHead;
    var b := |g.blocks|;
    var arm := EmitArm(env, g1, b, stmt.thn, b + 1).value;
    ArmShape(env, g, g1, b, stmt.thn, b + 1, ret, scope, depth);
    assert Fresh(g1, b) && Fresh(g1, b + 1);
    assert Fresh(arm.gen, b + 1);
    var g' := arm.gen.At(b + 1);
    WithinEarlier(env, scope, g1.At(b), arm.gen, p);
    var r := Eval(w, env.ctx, stmt.cond, s);
    var head := IfHeadSim(env, w, p, g, stmt.cond, false, scope, m, s, c);
    if r.val.v != 0 {
      wit := TakeThen(env, w, p, g, g1, arm, arm.gen, g', b, b + 1, stmt, ret, scope, depth, m, c, r.s, head, fuel);
    } else {
      wit := head;
      SkipThen(env, w, p, Here(g, c), m, g, scope, g1, arm.gen, b, r.s, fuel, wit);
    }
  }

  lemma {:induction false} SkipThen(env: Env, w: World, p: seq<Block>, start: Machine, m: Renaming, g: Gen,
                                    scope: set<Decl>, g1: Gen, g2: Gen, b: nat, s: State, fuel: nat, wit: Witness)
    requires GenOk(env, g1) && Later(env, scope, g1.At(b), g2) && Settled(scope, g1.frame)
    requires b + 1 < |g2.blocks| && Fresh(g2, b + 1)
    requires Arrives(env, w, p, start, m, b + 1, 0, g1.frame, scope, s, wit)
    ensures Agrees(env, w, p, start, m, g, scope, g2.At(b + 1), scope, fuel, Normal(s), wit)
  {
    hide Rel, FrameOk, Related, Within;
    AtMerge(env, w, p, start, m, g, scope, g1, g2.At(b + 1), fuel, s, wit);
  }

  lemma {:induction false} SimThenElse(env: Env, w: World, p: seq<Block>, g: Gen, g1: Gen, stmt: Stmt, ret: CType,
                                       scope: set<Decl>, depth: nat, m: Renaming, s: State, c: Core, fuel: nat)
    returns (wit: Witness)
    requires Ready(env, p, g, scope, m, s, c) && ResultOk(env, ret) && HeadEmitted(env, g, g1, stmt, scope)
    requires CheckedStmt(env.ctx, ret, scope, depth, stmt) && stmt.els.Some?
    requires EmitThenElse(env, g1, |g.blocks|, stmt).Some?
    requires Within(p, EmitThenElse(env, g1, |g.blocks|, stmt).value.blocks)
    requires Eval(w, env.ctx, stmt.cond, s).Got?
    ensures Agrees(env, w, p, Here(g, c), m, g, scope, EmitThenElse(env, g1, |g.blocks|, stmt).value, scope, fuel,
                   Exec(w, env.ctx, stmt, s, fuel), wit)
    decreases stmt, fuel, 0, 0
  {
    hide Rel, FrameOk, Related, Within, EmitItem, ResultOk, Eval, EmitIfHead;
    var b, els := |g.blocks|, stmt.els.value;
    var arm1 := EmitArm(env, g1, b, stmt.thn, b + 2).value;
    var arm2 := EmitArm(env, arm1.gen, b + 1, els, b + 2).value;
    var g' := EmitThenElse(env, g1, b, stmt).value;
    ArmBlocks(env, p, g, g1, arm1, arm2, g', stmt, ret, scope, depth);
    var r := Eval(w, env.ctx, stmt.cond, s);
    var head := IfHeadSim(env, w, p, g, stmt.cond, true, scope, m, s, c);
    if r.val.v != 0 {
      wit := TakeThen(env, w, p, g, g1, arm1, arm2.gen, g', b, b + 2, stmt, ret, scope, depth, m, c, r.s, head, fuel);
    } else {
      wit := TakeElse(env, w, p, g, g1, arm1, arm2, g', b, els, ret, scope, depth, m, c, r.s, head, fuel);
    }
  }

  /** The blocks of an if statement after each arm has been emitted. */
  lemma {:induction false} ArmBlocks(env: Env, p: seq<Block>, g: Gen, g1: Gen, arm1: Arm, arm2: Arm, g': Gen,
                                     stmt: Stmt, ret: CType, scope: set<Decl>, depth: nat)
    requires HeadEmitted(env, g, g1, stmt, scope) && stmt.els.Some? && Within(p, g'.blocks)
    requires CheckedStmt(env.ctx, ret, scope, depth, stmt.thn)
    requires CheckedStmt(env.ctx, ret, scope, depth, stmt.els.value)
    requires var b := |g.blocks|;
             && EmitArm(env, g1, b, stmt.thn, b + 2) == Some(arm1)
             && EmitArm(env, arm1.gen, b + 1, stmt.els.value, b + 2) == Some(arm2)
             && (g' == arm2.gen.Erase(b + 2) || g' == arm2.gen.At(b + 2))
    ensures var b := |g.blocks|;
            && Fresh(g1, b) && Later(env, scope, g1.At(b), arm1.gen) && Later(env, scope, g, arm1.gen)
            && Fresh(arm1.gen, b + 1) && Within(p, g1.blocks) && Within(p, arm1.gen.blocks)
            && Later(env, scope, arm1.gen.At(b + 1), arm2.gen) && Fresh(arm2.gen, b + 2) && Within(p, arm2.gen.blocks)
  {
    hide Rel, FrameOk, Related, Within, EmitItem, EmitArm, CheckedStmt, SlotsKeptOn, EmitIfHead;
    var b := |g.blocks|;
    assert Fresh(g1, b) && Fresh(g1, b + 1) && Fresh(g1, b + 2);
    ArmFresh(env, g, g1, b, stmt.thn, b + 2, ret, scope, depth);
    ArmFresh(env, g, arm1.gen, b + 1, stmt.els.value, b + 2, ret, scope, depth);
    ErasedWithin(arm2.gen, b + 2, p, g');
    WithinEarlier(env, scope, arm1.gen.At(b + 1), arm2.gen, p);
    WithinEarlier(env, scope, g1.At(b), arm1.gen, p);
  }

  lemma {:induction false} ArmFresh(env: Env, g: Gen, g1: Gen, b: nat, stmt: Stmt, mergeBlock: nat, ret: CType,
                                    scope: set<Decl>, depth: nat)
    requires Later(env, scope, g, g1) && |g.blocks| <= b < |g1.blocks| && CheckedStmt(env.ctx, ret, scope, depth, stmt)
    requires EmitArm(env, g1, b, stmt, mergeBlock).Some?
    ensures var g2 := EmitArm(env, g1, b, stmt, mergeBlock).value.gen;
            && Later(env, scope, g1.At(b), g2) && Later(env, scope, g, g2)
            && (forall b' :: b' != b && Fresh(g1, b') ==> Fresh(g2, b'))
  {
    hide Rel, FrameOk, Related, Within, EmitItem, CheckedStmt, SlotsKeptOn;
    ArmShape(env, g, g1, b, stmt, mergeBlock, ret, scope, depth);
  }

  lemma {:induction false} ErasedWithin(g: Gen, b: nat, p: seq<Block>, g': Gen)
    requires Fresh(g, b) && (g' == g.Erase(b) || g' == g.At(b)) && Within(p, g'.blocks)
    ensures Within(p, g.blocks)
  {
    hide Rel, FrameOk, Related;
    forall b' | 0 <= b' < |g.blocks|
      ensures g.blocks[b'].ops <= p[b'].ops
    {
      assert g'.blocks[b'].ops <= p[b'].ops;
    }
  }

  lemma {:induction false} TakeThen(env: Env, w: World, p: seq<Block>, g: Gen, g1: Gen, arm1: Arm, g2: Gen, g': Gen,
                                    b: nat, merge: nat, stmt: Stmt, ret: CType, scope: set<Decl>, depth: nat,
                                    m: Renaming, c: Core, s: State, head: Witness, fuel: nat)
    returns (wit: Witness)
    requires GenOk(env, g) && Prepared(env, scope, g) && ResultOk(env, ret) && stmt.If?
    requires CheckedStmt(env.ctx, ret, scope, depth, stmt.thn)
    requires Later(env, scope, g, g1) && |g.blocks| <= b < |g1.blocks| && Fresh(g1, b)
    requires EmitArm(env, g1, b, stmt.thn, merge) == Some(arm1) && Within(p, arm1.gen.blocks)
    requires Settled(scope, g1.frame) && Later(env, scope, g1.At(b), arm1.gen)
    requires SlotsKeptOn(scope, arm1.gen.frame, g2.frame) && FrameOk(env, g2.frame)
    requires Arrives(env, w, p, Here(g, c), m, b, 0, g1.frame, scope, s, head)
    requires merge < |g2.blocks| && Fresh(g2, merge) && (arm1.continues ==> g' == g2.At(merge))
    ensures Agrees(env, w, p, Here(g, c), m, g, scope, g', scope, fuel, Exec(w, env.ctx, stmt.thn, s, fuel), wit)
    decreases stmt.thn, fuel, 3
  {
    hide Rel, FrameOk, Related, Within, Exec, EmitItem, CheckedStmt, ResultOk;
    JoinLater(env, scope, g, g1, b);
    LaterPrepared(env, scope, g, g1.At(b), scope);
    var o := Exec(w, env.ctx, stmt.thn, s, fuel);
    var tail := ArmSim(env, w, p, g1, b, stmt.thn, merge, ret, scope, depth, head.m, s, head.c, fuel);
    if o.Normal? {
      AtMerge(env, w, p, Running(b, 0, head.c), head.m, g1.At(b), scope, arm1.gen, g', fuel, o.s, tail);
    }
    wit := AfterHead(env, w, p, g, g1, b, scope, m, c, g', fuel, o, head, tail);
  }

  lemma {:induction false} TakeElse(env: Env, w: World, p: seq<Block>, g: Gen, g1: Gen, arm1: Arm, arm2: Arm, g': Gen,
                                    b: nat, els: Stmt, ret: CType, scope: set<Decl>, depth: nat, m: Renaming, c: Core,
                                    s: State, head: Witness, fuel: nat)
    returns (wit: Witness)
    requires GenOk(env, g) && Prepared(env, scope, g) && ResultOk(env, ret)
    requires CheckedStmt(env.ctx, ret, scope, depth, els)
    requires Later(env, scope, g, arm1.gen) && |g.blocks| <= b && b + 1 < |arm1.gen.blocks| && Fresh(arm1.gen, b + 1)
    requires EmitArm(env, arm1.gen, b + 1, els, b + 2) == Some(arm2) && Within(p, arm2.gen.blocks)
    requires Later(env, scope, arm1.gen.At(b + 1), arm2.gen)
    requires Settled(scope, g1.frame) && SlotsKeptOn(scope, g1.frame, arm1.gen.frame)
    requires Arrives(env, w, p, Here(g, c), m, b + 1, 0, g1.frame, scope, s, head)
    requires b + 2 < |arm2.gen.blocks| && Fresh(arm2.gen, b + 2) && (arm2.continues ==> g' == arm2.gen.At(b + 2))
    ensures Agrees(env, w, p, Here(g, c), m, g, scope, g', scope, fuel, Exec(w, env.ctx, els, s, fuel), wit)
    decreases els, fuel, 3
  {
    hide Rel, FrameOk, Related, Within, Exec, EmitItem, CheckedStmt, ResultOk;
    var g2 := arm1.gen;
    JoinLater(env, scope, g, g2, b + 1);
    LaterPrepared(env, scope, g, g2.At(b + 1), scope);
    Reframe(env, g1.frame, scope, g2.frame, scope, head.m, s, head.c);
    var o := Exec(w, env.ctx, els, s, fuel);
    var tail := ArmSim(env, w, p, g2, b + 1, els, b + 2, ret, scope, depth, head.m, s, head.c, fuel);
    if o.Normal? {
      AtMerge(env, w, p, Running(b + 1, 0, head.c), head.m, g2.At(b + 1), scope, arm2.gen, g', fuel, o.s, tail);
    }
    wit := AfterHead(env, w, p, g, g2, b + 1, scope, m, c, g', fuel, o, head, tail);
  }

  // ----- loops -----

  /** A loop as emitted: g1 is the generator at the empty condition block. */
  datatype Loop = Loop(g1: Gen, test: Option<Expr>, incr: Option<Expr>, body: Stmt, bodyBlock: nat, t: LoopTargets,
                       step: Option<Gen>)

  ghost predicate LoopOk(env: Env, p: seq<Block>, ret: CType, scope: set<Decl>, depth: nat, l: Loop) {
    && GenOk(env, l.g1) && ResultOk(env, ret) && l.g1.Ops() == []
    && Prepared(env, scope, l.g1) && Settled(scope, l.g1.frame)
    && CheckedOption(env.ctx, scope, l.test) && CheckedOption(env.ctx, scope, l.incr)
    && CheckedStmt(env.ctx, ret, scope, depth + 1, l.body)
    && l.bodyBlock != l.g1.cur && Fresh(l.g1, l.bodyBlock)
    && EmitLoop(env, l.g1, l.test, l.body, l.bodyBlock, l.t).Some?
    && Within(p, EmitLoop(env, l.g1, l.test, l.body, l.bodyBlock, l.t).value.blocks)
    && StepOk(env, p, scope, l)
  }

  /** Where the next iteration starts: the condition block itself, or a block with the increment that ends in a branch
      to it. */
  ghost predicate StepOk(env: Env, p: seq<Block>, scope: set<Decl>, l: Loop)
    requires EnvOk(env)
  {
    match l.step
    case None => l.incr == None && l.t.continueTarget == l.g1.cur
    case Some(gs) =>
      && GenOk(env, gs) && gs.cur == l.t.continueTarget && gs.Ops() == []
      && SlotsKeptOn(scope, l.g1.frame, gs.frame)
      && EmitStep(env, gs, l.incr).Some?
      && Within(p, EmitStep(env, gs, l.incr).value.Append([Branch(l.g1.cur)]).blocks)
      && Later(env, scope, gs, EmitStep(env, gs, l.incr).value)
  }

  /** What running the loop from its condition block must do. Leaving it normally means reaching its exit block. */
  ghost predicate LoopAgrees(env: Env, w: World, p: seq<Block>, start: Machine, m: Renaming, scope: set<Decl>, l: Loop,
                             fuel: nat, o: Outcome, wit: Witness)
    requires env.ctx.target.Valid()
  {
    match o
    case Normal(s) => Arrives(env, w, p, start, m, l.t.breakTarget, 0, l.g1.frame, scope, s, wit)
    case Returned(v, s) => Answers(env, w, p, start, m, v, s, wit)
    case OutOfFuel(s) => RunsOn(env, w, p, start, s, fuel, wit)
    case Stuck => true
    case _ => false
  }

  lemma {:induction false} LoopThen(env: Env, w: World, p: seq<Block>, start: Machine, n: nat, mid: Machine,
                                    m: Renaming, m1: Renaming, scope: set<Decl>, l: Loop, fuel: nat, fuel': nat,
                                    o: Outcome, wit: Witness)
    returns (wit': Witness)
    requires env.ctx.target.Valid()
    requires Steps(w, env.ctx.target.intBits, p, start, n) == mid && Extends(m, m1)
    requires LoopAgrees(env, w, p, mid, m1, scope, l, fuel, o, wit) && fuel' <= fuel + n
    ensures LoopAgrees(env, w, p, start, m, scope, l, fuel', o, wit')
  {
    hide Rel, FrameOk, Related, Within;
    StepsAdd(w, env.ctx.target.intBits, p, start, n, wit.n);
    wit' := wit.(n := n + wit.n);
  }

  /** The condition block runs the test and branches to the body or the exit. */
  lemma {:induction false} TestSim(env: Env, w: World, p: seq<Block>, scope: set<Decl>, g: Gen, test: Option<Expr>,
                                   bodyBlock: nat, exitBlock: nat, m: Renaming, s: State, c: Core)
    returns (wit: Witness)
    requires GenOk(env, g) && Rel(env, g.frame, scope, m, s, c) && CheckedOption(env.ctx, scope, test)
    requires EmitTest(env, g, test, bodyBlock, exitBlock).Some?
    requires Within(p, EmitTest(env, g, test, bodyBlock, exitBlock).value.blocks)
    requires EvalTest(w, env.ctx, test, s).Got?
    ensures Branched(env, w, p, g, EmitTest(env, g, test, bodyBlock, exitBlock).value, scope, m, c,
                     EvalTest(w, env.ctx, test, s), bodyBlock, exitBlock, wit)
  {
    hide Rel, FrameOk, Related;
    var g1 := EmitTest(env, g, test, bodyBlock, exitBlock).value;
    assert g1.blocks[g.cur].ops <= p[g.cur].ops;
    if test.None? {
      wit := JumpSim(env, w, p, g, bodyBlock, g.frame, scope, m, s, c);
    } else {
      var code, r := EmitCondition(env, g.frame, test.value), Eval(w, env.ctx, test.value, s);
      var m1, c1 := ConditionSim(env, w, g.frame, test.value, scope, m, s, c);
      wit := CondBranchRuns(env, w, p, scope, g, code.ops, code.value, bodyBlock, exitBlock, code.frame, m, s, c, m1,
                            r.s, c1);
    }
  }

  /** From the place the next iteration starts back to the condition block. */
  lemma {:induction false} StepSim(env: Env, w: World, p: seq<Block>, ret: CType, scope: set<Decl>, depth: nat, l: Loop,
                                   m: Renaming, s: State, c: Core)
    returns (wit: Witness)
    requires LoopOk(env, p, ret, scope, depth, l) && Rel(env, l.g1.frame, scope, m, s, c)
    requires EvalStep(w, env.ctx, l.incr, s).Got?
    ensures Arrives(env, w, p, Running(l.t.continueTarget, 0, c), m, l.g1.cur, 0, l.g1.frame, scope,
                    EvalStep(w, env.ctx, l.incr, s).s, wit)
  {
    hide Rel, FrameOk, Related, Within;
    if l.step.None? {
      wit := Witness(0, m, c);
    } else {
      var gs := l.step.value;
      var g2 := EmitStep(env, gs, l.incr).value;
      Reframe(env, l.g1.frame, scope, gs.frame, scope, m, s, c);
      AppendWithin(p, g2, [Branch(l.g1.cur)]);
      var first := Witness(0, m, c);
      if l.incr.Some? {
        first := ExprStmtSim(env, w, p, gs, l.incr.value, scope, m, s, c);
      }
      var s2 := EvalStep(w, env.ctx, l.incr, s).s;
      Reframe(env, g2.frame, scope, l.g1.frame, scope, first.m, s2, first.c);
      wit := JumpSim(env, w, p, g2, l.g1.cur, l.g1.frame, scope, first.m, s2, first.c);
      wit := ArrivesArrives(env, w, p, Here(gs, c), first.n, Here(g2, first.c), m, first.m, l.g1.cur, 0, l.g1.frame,
                            scope, s2, wit);
    }
  }

  lemma {:induction false} AppendWithin(p: seq<Block>, g: Gen, ops: seq<Op>)
    requires g.cur < |g.blocks| && Within(p, g.Append(ops).blocks)
    ensures Within(p, g.blocks)
  {
    hide Rel, FrameOk, Related;
    forall b | 0 <= b < |g.blocks|
      ensures g.blocks[b].ops <= p[b].ops
    {
      assert g.Append(ops).blocks[b].ops <= p[b].ops;
    }
  }

  lemma {:induction false} SameTrace(env: Env, f: Frame, scope: set<Decl>, m: Renaming, s: State, c: Core)
    requires Rel(env, f, scope, m, s, c)
    ensures s.store.trace == c.store.trace
  {
  }

  lemma {:induction false} SimLoop(env: Env, w: World, p: seq<Block>, ret: CType, scope: set<Decl>, depth: nat, l: Loop,
                                   m: Renaming, s: State, c: Core, fuel: nat)
    returns (wit: Witness)
    requires LoopOk(env, p, ret, scope, depth, l) && Rel(env, l.g1.frame, scope, m, s, c)
    ensures LoopAgrees(env, w, p, Running(l.g1.cur, 0, c), m, scope, l, fuel,
                       ExecLoop(w, env.ctx, l.test, l.incr, l.body, s, fuel), wit)
    decreases l.body, fuel, 2
  {
    hide Rel, FrameOk, Within, Exec, EmitItem, CheckedStmt, ResultOk, Checked, Eval;
    if fuel == 0 || EvalTest(w, env.ctx, l.test, s).Wrong? {
      wit := Witness(0, m, c);
      SameTrace(env, l.g1.frame, scope, m, s, c);
    } else {
      LoopParts(env, p, ret, scope, depth, l);
      var g2 := EmitTest(env, l.g1, l.test, l.bodyBlock, l.t.breakTarget).value;
      var r := EvalTest(w, env.ctx, l.test, s);
      var head := TestSim(env, w, p, scope, l.g1, l.test, l.bodyBlock, l.t.breakTarget, m, s, c);
      Reframe(env, g2.frame, scope, l.g1.frame, scope, head.m, r.s, head.c);
      if r.val.v == 0 {
        wit := head;
      } else {
        wit := SimBody(env, w, p, ret, scope, depth, l, head.m, r.s, head.c, fuel - 1);
        var o := ExecLoop(w, env.ctx, l.test, l.incr, l.body, s, fuel);
        wit := LoopThen(env, w, p, Running(l.g1.cur, 0, c), head.n, Running(l.bodyBlock, 0, head.c), m, head.m,
                        scope, l, fuel - 1, fuel, o, wit);
      }
    }
  }

  /** The generator's states inside a loop. */
  lemma {:induction false} LoopParts(env: Env, p: seq<Block>, ret: CType, scope: set<Decl>, depth: nat, l: Loop)
    requires LoopOk(env, p, ret, scope, depth, l)
    ensures EmitTest(env, l.g1, l.test, l.bodyBlock, l.t.breakTarget).Some?
    ensures var g2 := EmitTest(env, l.g1, l.test, l.bodyBlock, l.t.breakTarget).value;
            var gB := g2.At(l.bodyBlock).Enter(l.t);
            && GenOk(env, gB) && gB.Ops() == [] && Settled(scope, gB.frame) && Prepared(env, scope, gB)
            && SlotsKeptOn(scope, l.g1.frame, g2.frame) && Within(p, g2.blocks)
            && EmitItem(env, gB, l.body).Some?
            && var g3 := EmitItem(env, gB, l.body).value;
            && Within(p, BranchIfOpen(g3.Leave(), l.t.continueTarget).blocks)
            && Within(p, g3.blocks)
            && Later(env, scope, gB, g3)
  {
    hide Rel, FrameOk, Related, Within;
    var g2 := EmitTest(env, l.g1, l.test, l.bodyBlock, l.t.breakTarget).value;
    TestShape(env, l.g1, l.test, l.bodyBlock, l.t.breakTarget, scope);
    var gB := g2.At(l.bodyBlock).Enter(l.t);
    var g3 := EmitItem(env, gB, l.body).value;
    ItemShape(env, gB, l.body, ret, scope, depth + 1);
    BranchIfOpenLater(env, scope, g3.Leave(), l.t.continueTarget);
    WithinEarlier(env, scope, g3.Leave(), BranchIfOpen(g3.Leave(), l.t.continueTarget), p);
    WithinEarlier(env, scope, gB, g3, p);
  }

  /** One pass through the body, then the rest of the iteration. */
  lemma {:induction false} SimBody(env: Env, w: World, p: seq<Block>, ret: CType, scope: set<Decl>, depth: nat, l: Loop,
                                   m: Renaming, s: State, c: Core, fuel: nat)
    returns (wit: Witness)
    requires LoopOk(env, p, ret, scope, depth, l) && Rel(env, l.g1.frame, scope, m, s, c)
    ensures var o := match Exec(w, env.ctx, l.body, s, fuel)
                     case Broke(s2) => Normal(s2)
                     case Normal(s2) => AfterBody(w, env.ctx, l.test, l.incr, l.body, s2, fuel)
                     case Continued(s2) => AfterBody(w, env.ctx, l.test, l.incr, l.body, s2, fuel)
                     case o => o;
            LoopAgrees(env, w, p, Running(l.bodyBlock, 0, c), m, scope, l, fuel, o, wit)
    decreases l.body, fuel, 4
  {
    hide Rel, FrameOk, Related, Within;
    LoopParts(env, p, ret, scope, depth, l);
    var g2 := EmitTest(env, l.g1, l.test, l.bodyBlock, l.t.breakTarget).value;
    var gB := g2.At(l.bodyBlock).Enter(l.t);
    Reframe(env, l.g1.frame, scope, gB.frame, scope, m, s, c);
    var g3, o := EmitItem(env, gB, l.body).value, Exec(w, env.ctx, l.body, s, fuel);
    wit := SimItem(env, w, p, gB, l.body, ret, scope, depth + 1, m, s, c, fuel);
    var start := Running(l.bodyBlock, 0, c);
    if o.Broke? {
      Reframe(env, gB.frame, scope, l.g1.frame, scope, wit.m, o.s, wit.c);
    } else if o.Continued? {
      Reframe(env, gB.frame, scope, l.g1.frame, scope, wit.m, o.s, wit.c);
      wit := SimAgain(env, w, p, ret, scope, depth, l, start, m, o.s, wit, fuel);
    } else if o.Normal? {
      wit := BodyEnds(env, w, p, ret, scope, depth, l, gB, g3, m, c, o.s, wit);
      wit := SimAgain(env, w, p, ret, scope, depth, l, start, m, o.s, wit, fuel);
    }
  }

  /** A body that falls through branches to the next iteration. */
  lemma {:induction false} BodyEnds(env: Env, w: World, p: seq<Block>, ret: CType, scope: set<Decl>, depth: nat,
                                    l: Loop, gB: Gen, g3: Gen, m: Renaming, c: Core, s: State, body: Witness)
    returns (wit: Witness)
    requires LoopOk(env, p, ret, scope, depth, l) && Later(env, scope, gB, g3) && Settled(scope, gB.frame)
    requires SlotsKeptOn(scope, l.g1.frame, gB.frame)
    requires Within(p, BranchIfOpen(g3.Leave(), l.t.continueTarget).blocks) && !g3.Terminated()
    requires Arrives(env, w, p, Running(l.bodyBlock, 0, c), m, g3.cur, |g3.Ops()|, g3.frame, ScopeAfter(scope, l.body),
                     s, body)
    ensures Arrives(env, w, p, Running(l.bodyBlock, 0, c), m, l.t.continueTarget, 0, l.g1.frame, scope, s, wit)
  {
    hide Rel, FrameOk, Related, Within;
    Reframe(env, g3.frame, ScopeAfter(scope, l.body), l.g1.frame, scope, body.m, s, body.c);
    wit := JumpSim(env, w, p, g3.Leave(), l.t.continueTarget, l.g1.frame, scope, body.m, s, body.c);
    wit := ArrivesArrives(env, w, p, Running(l.bodyBlock, 0, c), body.n, Here(g3, body.c), m, body.m,
                          l.t.continueTarget, 0, l.g1.frame, scope, s, wit);
  }

  /** The increment and the following iterations. */
  lemma {:induction false} SimAgain(env: Env, w: World, p: seq<Block>, ret: CType, scope: set<Decl>, depth: nat,
                                    l: Loop, start: Machine, m: Renaming, s: State, at: Witness, fuel: nat)
    returns (wit: Witness)
    requires LoopOk(env, p, ret, scope, depth, l)
    requires Arrives(env, w, p, start, m, l.t.continueTarget, 0, l.g1.frame, scope, s, at)
    ensures LoopAgrees(env, w, p, start, m, scope, l, fuel, AfterBody(w, env.ctx, l.test, l.incr, l.body, s, fuel), wit)
    decreases l.body, fuel, 3
  {
    hide Rel, FrameOk, Related, Within;
    if EvalStep(w, env.ctx, l.incr, s).Wrong? { return at; }
    var step := StepSim(env, w, p, ret, scope, depth, l, at.m, s, at.c);
    var s1 := EvalStep(w, env.ctx, l.incr, s).s;
    var o := ExecLoop(w, env.ctx, l.test, l.incr, l.body, s1, fuel);
    wit := SimLoop(env, w, p, ret, scope, depth, l, step.m, s1, step.c, fuel);
    wit := LoopThen(env, w, p, Running(l.t.continueTarget, 0, at.c), step.n, Running(l.g1.cur, 0, step.c), at.m, step.m,
                    scope, l, fuel, fuel, o, wit);
    wit := LoopThen(env, w, p, start, at.n, Running(l.t.continueTarget, 0, at.c), m, at.m, scope, l, fuel, fuel, o,
                    wit);
  }

  // ----- while and for -----

  /** The branch into a loop's condition block. */
  lemma {:induction false} EntrySim(env: Env, w: World, p: seq<Block>, g: Gen, n: nat, scope: set<Decl>, m: Renaming,
                                    s: State, c: Core)
    returns (wit: Witness)
    requires GenOk(env, g) && Rel(env, g.frame, scope, m, s, c) && Within(p, LoopEntry(g, n).blocks)
    ensures Arrives(env, w, p, Here(g, c), m, |g.blocks|, 0, g.frame, scope, s, wit) && wit == Witness(1, m, c)
  {
    hide Rel, FrameOk, Related;
    assert LoopEntry(g, n).blocks[g.cur].ops == g.Ops() + [Branch(|g.blocks|)];
    assert LoopEntry(g, n).blocks[g.cur].ops <= p[g.cur].ops;
    assert p[g.cur].ops[|g.Ops()|] == Branch(|g.blocks|);
    StepFrom(w, env.ctx.target.intBits, p, Here(g, c), 0, Here(g, c));
    wit := Witness(1, m, c);
  }

  /** Running the code that gives parameters their slots. */
  lemma {:induction false} ParametersRun(env: Env, w: World, p: seq<Block>, g: Gen, scope: set<Decl>, m: Renaming,
                                         s: State, c: Core)
    returns (wit: Witness)
    requires Ready(env, p, g, scope, m, s, c) && !g.Terminated() && Within(p, MaterializeParameters(env, g).blocks)
    ensures var g0 := MaterializeParameters(env, g);
            && Steps(w, env.ctx.target.intBits, p, Here(g, c), wit.n) == Here(g0, wit.c)
            && Ready(env, p, g0, scope, wit.m, s, wit.c) && !g0.Terminated()
            && Settled(scope, g0.frame) && Extends(m, wit.m)
  {
    hide Rel, FrameOk, Related;
    var g0 := MaterializeParameters(env, g);
    var (f, ops) := MaterializeAll(env, g.frame, env.order);
    MaterializeAllShape(env, g.frame, env.order);
    assert g0.blocks[g.cur].ops <= p[g.cur].ops;
    var m1, c1 := ParametersSim(env, w, p, g, scope, m, s, c);
    RunStraightHere(w, env.ctx.target.intBits, p, g, ops, c);
    NotTerminated(g, ops, f);
    wit := Witness(|ops|, m1, c1);
  }

  /** A loop's outcome, seen from the statement: leaving the loop puts the machine at the exit block. */
  lemma {:induction false} LeaveLoop(env: Env, w: World, p: seq<Block>, start: Machine, m: Renaming, scope: set<Decl>,
                                     l: Loop, g: Gen, g': Gen, fuel: nat, o: Outcome, wit: Witness)
    requires GenOk(env, l.g1) && Settled(scope, l.g1.frame) && LoopAgrees(env, w, p, start, m, scope, l, fuel, o, wit)
    requires GenOk(env, g') && g'.cur == l.t.breakTarget && g'.Ops() == [] && SlotsKeptOn(scope, l.g1.frame, g'.frame)
    ensures Agrees(env, w, p, start, m, g, scope, g', scope, fuel, o, wit)
  {
    hide Rel, FrameOk, Related, Within;
    if o.Normal? { AtMerge(env, w, p, start, m, g, scope, l.g1, g', fuel, o.s, wit); }
  }

  lemma {:induction false} SimWhile(env: Env, w: World, p: seq<Block>, g: Gen, stmt: Stmt, ret: CType, scope: set<Decl>,
                                    depth: nat, m: Renaming, s: State, c: Core, fuel: nat)
    returns (wit: Witness)
    requires Ready(env, p, g, scope, m, s, c) && !g.Terminated() && ResultOk(env, ret) && stmt.While?
    requires CheckedStmt(env.ctx, ret, scope, depth, stmt)
    requires EmitWhile(env, g, stmt).Some? && Within(p, EmitWhile(env, g, stmt).value.blocks)
    ensures Agrees(env, w, p, Here(g, c), m, g, scope, EmitWhile(env, g, stmt).value, scope, fuel,
                   Exec(w, env.ctx, stmt, s, fuel), wit)
    decreases stmt, fuel, 0
  {
    hide Rel, FrameOk, Related, Within, EmitItem, ResultOk, Checked, Settled, Prepared, SlotsKeptOn, Answers, RunsOn,
      EmitLoop;
    var g0 := MaterializeParameters(env, g);
    ParametersLater(env, scope, g);
    var b := |g0.blocks|;
    var l := Loop(LoopEntry(g0, 3), Some(stmt.cond), None, stmt.body, b + 1, LoopTargets(b + 2, b), None);
    var g2 := EmitLoop(env, l.g1, l.test, l.body, l.bodyBlock, l.t).value;
    WhileLoopOk(env, p, ret, scope, depth, g0, l);
    var first := ParametersRun(env, w, p, g, scope, m, s, c);
    LaterPrepared(env, scope, g, g0, scope);
    WhileOk(env, p, ret, scope, depth, g0, l);
    var entry := EntrySim(env, w, p, g0, 3, scope, first.m, s, first.c);
    var o := Exec(w, env.ctx, stmt, s, fuel);
    wit := SimLoop(env, w, p, ret, scope, depth, l, entry.m, s, entry.c, fuel);
    wit := LoopThen(env, w, p, Here(g0, first.c), entry.n, Running(b, 0, entry.c), first.m, entry.m, scope, l, fuel,
                    fuel, o, wit);
    wit := LoopThen(env, w, p, Here(g, c), first.n, Here(g0, first.c), m, first.m, scope, l, fuel, fuel, o, wit);
    LeaveLoop(env, w, p, Here(g, c), m, scope, l, g, g2.At(b + 2), fuel, o, wit);
  }

  /** What emission of a while loop leaves behind. */
  lemma {:induction false} WhileLoopOk(env: Env, p: seq<Block>, ret: CType, scope: set<Decl>, depth: nat, g0: Gen,
                                       l: Loop)
    requires GenOk(env, g0) && CheckedOption(env.ctx, scope, l.test)
    requires CheckedStmt(env.ctx, ret, scope, depth + 1, l.body)
    requires var b := |g0.blocks|;
             l.g1 == LoopEntry(g0, 3) && l.bodyBlock == b + 1 && l.t == LoopTargets(b + 2, b)
    requires EmitLoop(env, l.g1, l.test, l.body, l.bodyBlock, l.t).Some?
    requires Within(p, EmitLoop(env, l.g1, l.test, l.body, l.bodyBlock, l.t).value.blocks)
    ensures var g2 := EmitLoop(env, l.g1, l.test, l.body, l.bodyBlock, l.t).value;
            && GenOk(env, g2.At(l.t.breakTarget)) && g2.At(l.t.breakTarget).Ops() == []
            && SlotsKeptOn(scope, l.g1.frame, g2.frame)
            && Within(p, l.g1.blocks) && Within(p, g0.blocks)
  {
    hide Rel, FrameOk, Related, Within;
    var g2 := EmitLoop(env, l.g1, l.test, l.body, l.bodyBlock, l.t).value;
    LoopEntryLater(env, scope, g0, 3);
    LoopShape(env, g0, l.g1, l.test, l.body, l.bodyBlock, l.t, ret, scope, scope, depth);
    assert Fresh(l.g1, l.t.breakTarget);
    WithinEarlier(env, scope, g0, g2, p);
    LoopWithin(env, p, ret, scope, depth, l);
  }

  /** The final program contains the state a loop's emission started from. */
  lemma {:induction false} LoopWithin(env: Env, p: seq<Block>, ret: CType, scope: set<Decl>, depth: nat, l: Loop)
    requires GenOk(env, l.g1) && CheckedOption(env.ctx, scope, l.test)
    requires CheckedStmt(env.ctx, ret, scope, depth + 1, l.body)
    requires l.bodyBlock != l.g1.cur && Fresh(l.g1, l.bodyBlock)
    requires EmitLoop(env, l.g1, l.test, l.body, l.bodyBlock, l.t).Some?
    requires Within(p, EmitLoop(env, l.g1, l.test, l.body, l.bodyBlock, l.t).value.blocks)
    ensures Within(p, l.g1.blocks)
  {
    hide Rel, FrameOk, Related, Within;
    TestShape(env, l.g1, l.test, l.bodyBlock, l.t.breakTarget, scope);
    var g2 := EmitTest(env, l.g1, l.test, l.bodyBlock, l.t.breakTarget).value;
    var gB := g2.At(l.bodyBlock).Enter(l.t);
    ItemShape(env, gB, l.body, ret, scope, depth + 1);
    var g3 := EmitItem(env, gB, l.body).value;
    BranchIfOpenLater(env, scope, g3.Leave(), l.t.continueTarget);
    WithinEarlier(env, scope, g3.Leave(), BranchIfOpen(g3.Leave(), l.t.continueTarget), p);
    WithinEarlier(env, scope, gB, g3, p);
    WithinEarlier(env, scope, l.g1, g2, p);
  }

  lemma {:induction false} WhileOk(env: Env, p: seq<Block>, ret: CType, scope: set<Decl>, depth: nat, g0: Gen, l: Loop)
    requires GenOk(env, g0) && Prepared(env, scope, g0) && Settled(scope, g0.frame) && ResultOk(env, ret)
    requires CheckedOption(env.ctx, scope, l.test) && CheckedStmt(env.ctx, ret, scope, depth + 1, l.body)
    requires var b := |g0.blocks|;
             l.g1 == LoopEntry(g0, 3) && l.bodyBlock == b + 1 && l.t == LoopTargets(b + 2, b)
    requires l.step == None && l.incr == None
    requires EmitLoop(env, l.g1, l.test, l.body, l.bodyBlock, l.t).Some?
    requires Within(p, EmitLoop(env, l.g1, l.test, l.body, l.bodyBlock, l.t).value.blocks)
    ensures LoopOk(env, p, ret, scope, depth, l)
  {
    hide Rel, FrameOk, Related, Within;
    LoopEntryLater(env, scope, g0, 3);
    assert Fresh(l.g1, l.bodyBlock) && Fresh(l.g1, l.g1.cur);
  }

  lemma {:induction false} SimFor(env: Env, w: World, p: seq<Block>, g: Gen, stmt: Stmt, ret: CType, scope: set<Decl>,
                                  depth: nat, m: Renaming, s: State, c: Core, fuel: nat)
    returns (wit: Witness)
    requires Ready(env, p, g, scope, m, s, c) && !g.Terminated() && ResultOk(env, ret) && stmt.For?
    requires CheckedStmt(env.ctx, ret, scope, depth, stmt)
    requires EmitFor(env, g, stmt).Some? && Within(p, EmitFor(env, g, stmt).value.blocks)
    ensures Agrees(env, w, p, Here(g, c), m, g, scope, EmitFor(env, g, stmt).value, scope, fuel,
                   Exec(w, env.ctx, stmt, s, fuel), wit)
    decreases stmt, fuel, 0
  {
    hide Rel, FrameOk, Related, Within;
    var gM := MaterializeParameters(env, g);
    ParametersLater(env, scope, g);
    var g', o := EmitFor(env, g, stmt).value, Exec(w, env.ctx, stmt, s, fuel);
    if stmt.start.None? {
      ForLoopShape(env, gM, gM, stmt.test, stmt.incr, stmt.body, ret, scope, scope, depth);
      WithinEarlier(env, scope, gM, g', p);
      var first := ParametersRun(env, w, p, g, scope, m, s, c);
      wit := SimForLoop(env, w, p, gM, stmt.test, stmt.incr, stmt.body, ret, scope, depth, first.m, s, first.c, fuel);
      wit := ArrivesThen(env, w, p, Here(g, c), first.n, Here(gM, first.c), m, first.m, gM, scope, g', scope, fuel, o,
                         wit);
      AgreesOuter(env, w, p, Here(g, c), m, g, scope, gM, scope, g', scope, scope, fuel, o, wit);
    } else {
      wit := SimForFrom(env, w, p, g, stmt, ret, scope, depth, m, s, c, fuel);
    }
  }

  /** A for statement with an initializer, which always falls through. */
  lemma {:induction false} SimForFrom(env: Env, w: World, p: seq<Block>, g: Gen, stmt: Stmt, ret: CType,
                                      scope: set<Decl>, depth: nat, m: Renaming, s: State, c: Core, fuel: nat)
    returns (wit: Witness)
    requires Ready(env, p, g, scope, m, s, c) && !g.Terminated() && ResultOk(env, ret) && stmt.For? && stmt.start.Some?
    requires CheckedStmt(env.ctx, ret, scope, depth, stmt)
    requires EmitFor(env, g, stmt).Some? && Within(p, EmitFor(env, g, stmt).value.blocks)
    ensures Agrees(env, w, p, Here(g, c), m, g, scope, EmitFor(env, g, stmt).value, scope, fuel,
                   Exec(w, env.ctx, stmt, s, fuel), wit)
    decreases stmt, fuel, 0, 0
  {
    hide Rel, FrameOk, Related, Within;
    var inner := ScopeAfter(scope, stmt.start.value);
    var gM := MaterializeParameters(env, g);
    var g0 := EmitItem(env, gM, stmt.start.value).value;
    ForWithin(env, p, g, stmt, ret, scope, depth);
    var second := SimStart(env, w, p, g, gM, g0, stmt.start.value, ret, scope, depth, m, s, c, fuel);
    if Exec(w, env.ctx, stmt.start.value, s, fuel).Stuck? { return second; }
    var s1 := Exec(w, env.ctx, stmt.start.value, s, fuel).s;
    wit := ForTail(env, w, p, g, g0, stmt.test, stmt.incr, stmt.body, ret, scope, inner, depth, m, c, s1, second, fuel);
  }

  /** Parameters and initializer of a for statement. */
  lemma {:induction false} SimStart(env: Env, w: World, p: seq<Block>, g: Gen, gM: Gen, g0: Gen, start: Stmt,
                                    ret: CType, scope: set<Decl>, depth: nat, m: Renaming, s: State, c: Core, fuel: nat)
    returns (wit: Witness)
    requires Ready(env, p, g, scope, m, s, c) && !g.Terminated() && ResultOk(env, ret)
    requires CheckedStmt(env.ctx, ret, scope, depth, start) && (start.VarDecl? || start.ExprStmt?)
    requires gM == MaterializeParameters(env, g) && EmitItem(env, gM, start) == Some(g0)
    requires Within(p, gM.blocks) && Within(p, g0.blocks) && Later(env, scope, g, gM) && Later(env, scope, gM, g0)
    ensures var inner, o := ScopeAfter(scope, start), Exec(w, env.ctx, start, s, fuel);
            o.Stuck? ||
            (&& o.Normal? && Settled(inner, g0.frame) && Prepared(env, inner, g0)
             && Arrives(env, w, p, Here(g, c), m, g0.cur, |g0.Ops()|, g0.frame, inner, o.s, wit))
    decreases start, fuel, 2
  {
    hide Rel, FrameOk, Related, Within;
    var first := ParametersRun(env, w, p, g, scope, m, s, c);
    var second := SimItem(env, w, p, gM, start, ret, scope, depth, first.m, s, first.c, fuel);
    var o := Exec(w, env.ctx, start, s, fuel);
    if o.Stuck? { return second; }
    StartSettled(env, scope, gM, g0, start, second.m, o.s, second.c);
    wit := Joined(env, w, p, Here(g, c), first, gM, second, m, g0, ScopeAfter(scope, start), o.s);
  }

  /** The loop of a for statement, entered from the end of the initializer. */
  lemma {:induction false} ForTail(env: Env, w: World, p: seq<Block>, g: Gen, g0: Gen, test: Option<Expr>,
                                   incr: Option<Expr>, body: Stmt, ret: CType, scope: set<Decl>, inner: set<Decl>,
                                   depth: nat, m: Renaming, c: Core, s: State, at: Witness, fuel: nat)
    returns (wit: Witness)
    requires GenOk(env, g) && Prepared(env, scope, g) && Later(env, scope, g, g0) && scope <= inner
    requires ResultOk(env, ret)
    requires Prepared(env, inner, g0) && Settled(inner, g0.frame)
    requires Arrives(env, w, p, Here(g, c), m, g0.cur, |g0.Ops()|, g0.frame, inner, s, at)
    requires CheckedOption(env.ctx, inner, test) && CheckedOption(env.ctx, inner, incr)
    requires CheckedStmt(env.ctx, ret, inner, depth + 1, body)
    requires EmitForLoop(env, g0, test, incr, body).Some?
    requires Within(p, EmitForLoop(env, g0, test, incr, body).value.blocks)
    ensures Agrees(env, w, p, Here(g, c), m, g, scope, EmitForLoop(env, g0, test, incr, body).value, scope, fuel,
                   ExecLoop(w, env.ctx, test, incr, body, s, fuel), wit)
    decreases body, fuel, 6
  {
    hide Rel, FrameOk, Related, Within;
    var g', o := EmitForLoop(env, g0, test, incr, body).value, ExecLoop(w, env.ctx, test, incr, body, s, fuel);
    wit := SimForLoop(env, w, p, g0, test, incr, body, ret, inner, depth, at.m, s, at.c, fuel);
    wit := ArrivesThen(env, w, p, Here(g, c), at.n, Here(g0, at.c), m, at.m, g0, inner, g', inner, fuel, o, wit);
    AgreesOuter(env, w, p, Here(g, c), m, g, scope, g0, inner, g', scope, inner, fuel, o, wit);
  }

  lemma {:induction false} Joined(env: Env, w: World, p: seq<Block>, start: Machine, first: Witness, gM: Gen,
                                  second: Witness, m: Renaming, g0: Gen, inner: set<Decl>, s: State)
    returns (wit: Witness)
    requires env.ctx.target.Valid() && Steps(w, env.ctx.target.intBits, p, start, first.n) == Here(gM, first.c)
    requires Extends(m, first.m)
    requires Arrives(env, w, p, Here(gM, first.c), first.m, g0.cur, |g0.Ops()|, g0.frame, inner, s, second)
    ensures Arrives(env, w, p, start, m, g0.cur, |g0.Ops()|, g0.frame, inner, s, wit)
    ensures wit == second.(n := first.n + second.n)
  {
    hide Rel, FrameOk, Related, Within;
    wit := ArrivesArrives(env, w, p, start, first.n, Here(gM, first.c), m, first.m, g0.cur, |g0.Ops()|, g0.frame,
                          inner, s, second);
  }

  /** Every state met while emitting a for statement with an initializer is part of the final program. */
  lemma {:induction false} ForWithin(env: Env, p: seq<Block>, g: Gen, stmt: Stmt, ret: CType, scope: set<Decl>,
                                     depth: nat)
    requires GenOk(env, g) && stmt.For? && stmt.start.Some? && CheckedStmt(env.ctx, ret, scope, depth, stmt)
    requires EmitFor(env, g, stmt).Some? && Within(p, EmitFor(env, g, stmt).value.blocks)
    ensures var gM := MaterializeParameters(env, g);
            && Within(p, gM.blocks) && Later(env, scope, g, gM)
            && EmitItem(env, gM, stmt.start.value).Some?
            && var g0 := EmitItem(env, gM, stmt.start.value).value;
            && Within(p, g0.blocks) && Later(env, scope, gM, g0) && Later(env, scope, g, g0)
            && EmitForLoop(env, g0, stmt.test, stmt.incr, stmt.body) == EmitFor(env, g, stmt)
  {
    hide Rel, FrameOk, Related, Within;
    var inner := ScopeAfter(scope, stmt.start.value);
    var gM := MaterializeParameters(env, g);
    var g0 := EmitItem(env, gM, stmt.start.value).value;
    ParametersLater(env, scope, g);
    ItemShape(env, gM, stmt.start.value, ret, scope, depth);
    ForLoopShape(env, g0, g0, stmt.test, stmt.incr, stmt.body, ret, inner, inner, depth);
    WithinEarlier(env, inner, g0, EmitFor(env, g, stmt).value, p);
    WithinEarlier(env, scope, gM, g0, p);
    LaterTrans(env, scope, g, gM, scope, g0);
  }

  lemma {:induction false} StartSettled(env: Env, scope: set<Decl>, gM: Gen, g0: Gen, start: Stmt, m: Renaming,
                                        s: State, c: Core)
    requires Prepared(env, scope, gM) && Settled(scope, gM.frame) && Later(env, scope, gM, g0)
    requires start.VarDecl? ==> start.decl in g0.frame.storage
    ensures Settled(ScopeAfter(scope, start), g0.frame) && Prepared(env, ScopeAfter(scope, start), g0)
  {
  }

  lemma {:induction false} SimForLoop(env: Env, w: World, p: seq<Block>, g: Gen, test: Option<Expr>, incr: Option<Expr>,
                                      body: Stmt, ret: CType, scope: set<Decl>, depth: nat, m: Renaming, s: State,
                                      c: Core, fuel: nat)
    returns (wit: Witness)
    requires Ready(env, p, g, scope, m, s, c) && ResultOk(env, ret) && Settled(scope, g.frame)
    requires CheckedOption(env.ctx, scope, test) && CheckedOption(env.ctx, scope, incr)
    requires CheckedStmt(env.ctx, ret, scope, depth + 1, body)
    requires EmitForLoop(env, g, test, incr, body).Some?
    requires Within(p, EmitForLoop(env, g, test, incr, body).value.blocks)
    ensures Agrees(env, w, p, Here(g, c), m, g, scope, EmitForLoop(env, g, test, incr, body).value, scope, fuel,
                   ExecLoop(w, env.ctx, test, incr, body, s, fuel), wit)
    decreases body, fuel, 5
  {
    hide Rel, FrameOk, Related, Within, EmitItem, ResultOk, Checked, CheckedStmt, Exec, EmitLoop, EmitTest, Settled,
      Prepared, SlotsKeptOn, EmitExprStmt;
    var b := |g.blocks|;
    var t := LoopTargets(b + 3, b + 2);
    ForLoopParts(env, g, test, incr, body);
    var g4 := EmitLoop(env, LoopEntry(g, 4), test, body, b + 1, t).value;
    var l := Loop(LoopEntry(g, 4), test, incr, body, b + 1, t, Some(g4.At(b + 2)));
    ForOk(env, p, ret, scope, depth, g, l);
    var entry := EntrySim(env, w, p, g, 4, scope, m, s, c);
    var o := ExecLoop(w, env.ctx, test, incr, body, s, fuel);
    wit := SimLoop(env, w, p, ret, scope, depth, l, entry.m, s, entry.c, fuel);
    wit := LoopThen(env, w, p, Here(g, c), entry.n, Running(b, 0, entry.c), m, entry.m, scope, l, fuel, fuel, o, wit);
    LeaveLoop(env, w, p, Here(g, c), m, scope, l, g, EmitForLoop(env, g, test, incr, body).value, fuel, o, wit);
  }

  ghost predicate IsForLoop(env: Env, g: Gen, l: Loop)
    requires EnvOk(env)
  {
    var b := |g.blocks|;
    && l.g1 == LoopEntry(g, 4) && l.bodyBlock == b + 1 && l.t == LoopTargets(b + 3, b + 2)
    && EmitLoop(env, l.g1, l.test, l.body, l.bodyBlock, l.t).Some?
    && l.step == Some(EmitLoop(env, l.g1, l.test, l.body, l.bodyBlock, l.t).value.At(b + 2))
    && EmitStep(env, l.step.value, l.incr).Some?
  }

  /** The blocks of a for loop after its body has been emitted, and after its increment. */
  lemma {:induction false} ForBlocks(env: Env, ret: CType, scope: set<Decl>, depth: nat, g: Gen, l: Loop)
    requires GenOk(env, g) && IsForLoop(env, g, l)
    requires CheckedOption(env.ctx, scope, l.test) && CheckedStmt(env.ctx, ret, scope, depth + 1, l.body)
    ensures var b, gs := |g.blocks|, l.step.value;
            var g5 := EmitStep(env, gs, l.incr).value;
            && Fresh(l.g1, b) && Fresh(l.g1, b + 1) && GenOk(env, l.g1) && l.g1.loops == g.loops
            && GenOk(env, gs) && gs.Ops() == [] && SlotsKeptOn(scope, l.g1.frame, gs.frame)
            && Later(env, scope, gs, g5) && Fresh(g5, b + 3) && gs.cur == b + 2
  {
    hide Rel, FrameOk, Related, Within, EmitItem, EmitTest, EmitExprStmt, CheckedStmt, Checked, EmitLoop, EmitStep;
    var b := |g.blocks|;
    LoopEntryLater(env, scope, g, 4);
    LoopShape(env, g, l.g1, l.test, l.body, l.bodyBlock, l.t, ret, scope, scope, depth);
    assert Fresh(l.g1, b) && Fresh(l.g1, b + 1) && Fresh(l.g1, b + 2) && Fresh(l.g1, b + 3);
    StepShape(env, g, l.step.value.At(g.cur), b + 2, l.incr, b, b + 3, scope, scope);
  }

  /** What emission of a for loop leaves behind. */
  lemma {:induction false} ForOk(env: Env, p: seq<Block>, ret: CType, scope: set<Decl>, depth: nat, g: Gen, l: Loop)
    requires GenOk(env, g) && Prepared(env, scope, g) && Settled(scope, g.frame) && ResultOk(env, ret)
    requires CheckedOption(env.ctx, scope, l.test) && CheckedOption(env.ctx, scope, l.incr)
    requires CheckedStmt(env.ctx, ret, scope, depth + 1, l.body) && IsForLoop(env, g, l)
    requires Within(p, EmitStep(env, l.step.value, l.incr).value.Append([Branch(|g.blocks|)]).blocks)
    ensures LoopOk(env, p, ret, scope, depth, l) && Within(p, l.g1.blocks)
    ensures var g' := EmitStep(env, l.step.value, l.incr).value.Append([Branch(|g.blocks|)]).At(|g.blocks| + 3);
            GenOk(env, g') && g'.Ops() == [] && SlotsKeptOn(scope, l.g1.frame, g'.frame)
  {
    hide Rel, FrameOk, Related, Within, EmitItem, EmitTest, CheckedStmt, Checked, Settled;
    ForBlocks(env, ret, scope, depth, g, l);
    var g5 := EmitStep(env, l.step.value, l.incr).value;
    AppendWithin(p, g5, [Branch(|g.blocks|)]);
    WithinEarlier(env, scope, l.step.value, g5, p);
    LoopWithin(env, p, ret, scope, depth, l);
  }
}
