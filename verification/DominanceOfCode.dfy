/** Every statement keeps the dominators of the blocks, so in the code of a whole function each definition dominates all
    its uses. */
module DominanceOfCode {
  import opened CAst
  import opened Wrappers
  import opened Contract
  import opened Ir
  import opened Lowering
  import opened ExprSimulation
  import opened Shape
  import opened Unit
  import opened Cfg
  import opened SsaForm
  import opened Dominance

  /** The parameters are in scope, and all of them are visited when they are materialized. */
  ghost predicate ParamsIn(env: Env, scope: set<Decl>) {
    (forall d :: d in env.order ==> d in scope) && (forall d :: d in env.values ==> d in env.order)
  }

  /** From g to g': the dominators of earlier blocks stay, and what could be used before can still be used. */
  ghost predicate Carried(env: Env, g: Gen, doms: seq<set<nat>>, g': Gen, doms': seq<set<nat>>, args: nat,
                          scope: set<Decl>) {
    && Dominated(env, g', doms', args, scope)
    && doms <= doms' && g.cur < |doms| && doms[g.cur] <= doms'[g'.cur]
  }

  lemma {:induction false} PositionWithin(env: Env, blocks: seq<Block>, doms: seq<set<nat>>, args: nat, b: nat,
                                          f: Frame, loops: seq<LoopTargets>, scope: set<Decl>, loops': seq<LoopTargets>,
                                          scope': set<Decl>)
    requires Position(env, blocks, doms, args, b, f, loops, scope) && scope' <= scope && loops' <= loops
    ensures Position(env, blocks, doms, args, b, f, loops', scope')
  {
    hide MayBranch;
    forall x | x in Known(env, f, scope')
      ensures x in Known(env, f, scope)
    {
      if d :| d in scope' && d in f.storage && f.storage[d].base == x {
        assert d in scope;
      } else {
        var d :| d in scope' && d in env.values && env.values[d] == x;
        assert d in scope;
      }
    }
  }

  lemma {:induction false} CarriedThen(env: Env, g: Gen, doms: seq<set<nat>>, g1: Gen, doms1: seq<set<nat>>, g2: Gen,
                                       doms2: seq<set<nat>>, args: nat, scope1: set<Decl>, scope: set<Decl>,
                                       scope2: set<Decl>)
    requires Carried(env, g, doms, g1, doms1, args, scope1) && Carried(env, g1, doms1, g2, doms2, args, scope2)
    requires scope <= scope2
    ensures Carried(env, g, doms, g2, doms2, args, scope)
  {
    hide Ordered, Numbered, Position, FrameOk;
    PositionWithin(env, g2.blocks, doms2, args, g2.cur, g2.frame, g2.loops, scope2, g2.loops, scope);
  }

  // ----- simple statements -----

  lemma {:induction false} ParametersDominated(env: Env, g: Gen, doms: seq<set<nat>>, args: nat, scope: set<Decl>)
    requires Dominated(env, g, doms, args, scope) && ParamsIn(env, scope)
    ensures Dominated(env, MaterializeParameters(env, g), doms, args, scope)
    ensures Settled(scope, MaterializeParameters(env, g).frame)
  {
    hide Ordered, Numbered, FrameOk, Sourced;
    var (f, ops) := MaterializeAll(env, g.frame, env.order);
    MaterializeAllSourced(env, scope, g.frame, env.order);
    MaterializeAllShape(env, g.frame, env.order);
    AppendDominated(env, g, doms, args, scope, ops, f);
    assert forall d :: d in scope && d !in f.storage ==> d in env.values && d in env.order;
  }

  lemma {:induction false} ExprDominated(env: Env, g: Gen, doms: seq<set<nat>>, args: nat, scope: set<Decl>, e: Expr)
    requires Dominated(env, g, doms, args, scope) && Checked(env.ctx, scope, e) && EmitExpr(env, g.frame, e).Code?
    ensures var code := EmitExpr(env, g.frame, e);
            && Dominated(env, g.With(code.ops, code.frame), doms, args, scope)
            && (code.value < args || DefinedAmong(g.With(code.ops, code.frame).blocks, doms[g.cur], code.value))
  {
    hide Ordered, Numbered, Position, FrameOk, Sourced;
    var code := EmitExpr(env, g.frame, e);
    ExprSourced(env, scope, g.frame, e);
    ExprShape(env, g.frame, e);
    AppendDominated(env, g, doms, args, scope, code.ops, code.frame);
    ValueAtEnd(env, g, doms, args, scope, code.ops, code.frame, code.value);
  }

  lemma {:induction false} ConditionDominated(env: Env, g: Gen, doms: seq<set<nat>>, args: nat, scope: set<Decl>,
                                              e: Expr)
    requires Dominated(env, g, doms, args, scope) && Checked(env.ctx, scope, e) && EmitCondition(env, g.frame, e).Code?
    ensures var code := EmitCondition(env, g.frame, e);
            && Dominated(env, g.With(code.ops, code.frame), doms, args, scope)
            && (code.value < args || DefinedAmong(g.With(code.ops, code.frame).blocks, doms[g.cur], code.value))
  {
    hide Ordered, Numbered, Position, FrameOk, Sourced;
    var code := EmitCondition(env, g.frame, e);
    ConditionSourced(env, scope, g.frame, e);
    ConditionShape(env, g.frame, e);
    AppendDominated(env, g, doms, args, scope, code.ops, code.frame);
    ValueAtEnd(env, g, doms, args, scope, code.ops, code.frame, code.value);
  }

  lemma {:induction false} ExprStmtDominated(env: Env, g: Gen, doms: seq<set<nat>>, args: nat, scope: set<Decl>,
                                             e: Expr)
    requires Dominated(env, g, doms, args, scope) && Checked(env.ctx, scope, e) && EmitExprStmt(env, g, e).Some?
    ensures Dominated(env, EmitExprStmt(env, g, e).value, doms, args, scope)
  {
    hide Ordered, Numbered, Position, FrameOk, Sourced;
    if e.Call? {
      var code := EmitCall(env, g.frame, e);
      CallSourced(env, scope, g.frame, e);
      CallShape(env, g.frame, e);
      AppendDominated(env, g, doms, args, scope, code.ops, code.frame);
    } else {
      ExprDominated(env, g, doms, args, scope, e);
    }
  }

  lemma {:induction false} ReturnDominated(env: Env, g: Gen, doms: seq<set<nat>>, args: nat, scope: set<Decl>,
                                           value: Option<Expr>)
    requires Dominated(env, g, doms, args, scope) && CheckedOption(env.ctx, scope, value)
    requires EmitReturn(env, g, value).Some?
    ensures Dominated(env, EmitReturn(env, g, value).value, doms, args, scope)
  {
    hide Ordered, Numbered, Position, FrameOk;
    if value.None? {
      TerminatorDominated(env, g, doms, args, scope, ReturnOp(None));
    } else {
      var code := EmitExpr(env, g.frame, value.value);
      ExprDominated(env, g, doms, args, scope, value.value);
      TerminatorDominated(env, g.With(code.ops, code.frame), doms, args, scope, ReturnOp(Some(code.value)));
      WithWith(g, code.ops, code.frame, [ReturnOp(Some(code.value))], code.frame);
    }
  }

  /** A local's slot can be used from its allocation on. */
  lemma {:induction false} LocalDominated(env: Env, g: Gen, doms: seq<set<nat>>, args: nat, scope: set<Decl>, d: Decl,
                                          t: MType)
    requires Dominated(env, g, doms, args, scope) && d !in scope && d !in env.values && d.ty.Integer?
    requires LowerType(env.ctx.target, d.ty) == Some(t)
    ensures Dominated(env, g.With([Alloca(g.frame.Next(), t)], LocalFrame(g.frame, d, t)), doms, args, scope + {d})
  {
    hide Ordered, Numbered, FrameOk, Sourced, MayBranch;
    var f, ops := LocalFrame(g.frame, d, t), [Alloca(g.frame.Next(), t)];
    LocalFrameOk(env, g.frame, d, t);
    SlotSourced(env, scope, g.frame, d, t);
    AppendDominated(env, g, doms, args, scope, ops, f);
    var g' := g.With(ops, f);
    assert g'.blocks[g.cur].ops[|g.Ops()|] == ops[0];
    assert DefinedIn(g'.blocks[g.cur].ops, g.frame.Next());
    InOwnDoms(g', doms, args);
    assert DefinedAmong(g'.blocks, doms[g.cur], g.frame.Next());
    assert Known(env, f, scope + {d}) == Known(env, f, scope) + {g.frame.Next()};
    assert Position(env, g'.blocks, doms, args, g.cur, f, g.loops, scope + {d});
    MoveDominated(env, g', doms, args, scope, g.cur, g.loops, scope + {d});
  }

  lemma {:induction false} InOwnDoms(g: Gen, doms: seq<set<nat>>, args: nat)
    requires Ordered(g.blocks, doms, args) && g.cur < |g.blocks|
    ensures |doms| == |g.blocks| && g.cur in doms[g.cur]
  {
  }

  lemma {:induction false} VarDominated(env: Env, g: Gen, doms: seq<set<nat>>, args: nat, scope: set<Decl>, d: Decl,
                                        init: Option<Expr>)
    requires Dominated(env, g, doms, args, scope) && d !in scope && d !in env.values
    requires CheckedOption(env.ctx, scope + {d}, init)
    requires EmitVar(env, g, d, init).Some?
    ensures Dominated(env, EmitVar(env, g, d, init).value, doms, args, scope + {d})
  {
    hide Ordered, Numbered, Position, FrameOk, Sourced, Known;
    var t, n := LowerType(env.ctx.target, d.ty).value, g.frame.Next();
    LocalDominated(env, g, doms, args, scope, d, t);
    if init.Some? {
      var f := LocalFrame(g.frame, d, t);
      var g1 := g.With([Alloca(n, t)], f);
      var code := EmitExpr(env, f, init.value);
      ExprSourced(env, scope + {d}, f, init.value);
      ExprShape(env, f, init.value);
      SlotKnown(env, scope + {d}, f, d, code.frame);
      SourcedUse(env, scope + {d}, f, code.ops, code.frame, StoreOp(code.value, n));
      var ops := code.ops + [StoreOp(code.value, n)];
      AppendDominated(env, g1, doms, args, scope + {d}, ops, code.frame);
      WithWith(g, [Alloca(n, t)], f, ops, code.frame);
      assert [Alloca(n, t)] + ops == [Alloca(n, t)] + code.ops + [StoreOp(code.value, n)];
    }
  }

  lemma {:induction false} SlotKnown(env: Env, scope: set<Decl>, f: Frame, d: Decl, f': Frame)
    requires d in scope && d in f.storage
    ensures ValueFrom(env, scope, f, f', f.storage[d].base)
  {
    assert f.storage[d].base in Known(env, f, scope);
  }

  // ----- statements -----

  lemma {:induction false} ItemsDominated(env: Env, g: Gen, items: seq<Stmt>, ret: CType, scope: set<Decl>, depth: nat,
                                          doms: seq<set<nat>>, args: nat)
    returns (doms': seq<set<nat>>)
    requires Dominated(env, g, doms, args, scope) && ParamsIn(env, scope)
    requires CheckedItems(env.ctx, ret, scope, depth, items) && EmitItems(env, g, items).Some?
    ensures Carried(env, g, doms, EmitItems(env, g, items).value, doms', args, scope)
    decreases items
  {
    hide Ordered, Numbered, Position, FrameOk;
    if items == [] || g.Terminated() {
      doms' := doms;
      CarriedSelf(env, g, doms, args, scope);
    } else {
      var g1, scope1 := EmitItem(env, g, items[0]).value, ScopeAfter(scope, items[0]);
      var doms1 := ItemDominated(env, g, items[0], ret, scope, depth, doms, args);
      doms' := ItemsDominated(env, g1, items[1..], ret, scope1, depth, doms1, args);
      CarriedThen(env, g, doms, g1, doms1, EmitItems(env, g, items).value, doms', args, scope1, scope, scope1);
    }
  }

  lemma {:induction false} CarriedSelf(env: Env, g: Gen, doms: seq<set<nat>>, args: nat, scope: set<Decl>)
    requires Dominated(env, g, doms, args, scope)
    ensures Carried(env, g, doms, g, doms, args, scope)
  {
  }

  /** Code that stays in the current block. */
  lemma {:induction false} CarriedHere(env: Env, g: Gen, doms: seq<set<nat>>, args: nat, scope: set<Decl>, g': Gen,
                                       scope': set<Decl>)
    requires Dominated(env, g, doms, args, scope) && Dominated(env, g', doms, args, scope') && g'.cur == g.cur
    ensures Carried(env, g, doms, g', doms, args, scope')
  {
  }

  lemma {:induction false} ItemDominated(env: Env, g: Gen, stmt: Stmt, ret: CType, scope: set<Decl>, depth: nat,
                                         doms: seq<set<nat>>, args: nat)
    returns (doms': seq<set<nat>>)
    requires Dominated(env, g, doms, args, scope) && ParamsIn(env, scope)
    requires CheckedStmt(env.ctx, ret, scope, depth, stmt) && EmitItem(env, g, stmt).Some?
    ensures Carried(env, g, doms, EmitItem(env, g, stmt).value, doms', args, ScopeAfter(scope, stmt))
    decreases stmt, 2
  {
    hide Ordered, Numbered, Position, FrameOk;
    doms' := doms;
    match stmt
    case VarDecl(d, init) => {
      VarDominated(env, g, doms, args, scope, d, init);
      CarriedHere(env, g, doms, args, scope, EmitVar(env, g, d, init).value, scope + {d});
    }
    case TypedefDecl => CarriedSelf(env, g, doms, args, scope);
    case Compound(items) => doms' := ItemsDominated(env, g, items, ret, scope, depth, doms, args);
    case ExprStmt(e) => {
      if e.Some? { ExprStmtDominated(env, g, doms, args, scope, e.value); }
      CarriedHere(env, g, doms, args, scope, EmitItem(env, g, stmt).value, scope);
    }
    case If(_, _, _) => doms' := IfDominated(env, g, stmt, ret, scope, depth, doms, args);
    case While(_, _) => doms' := WhileDominated(env, g, stmt, ret, scope, depth, doms, args);
    case For(_, _, _, _) => doms' := ForDominated(env, g, stmt, ret, scope, depth, doms, args);
    case Break => {
      JumpDominated(env, g, doms, args, scope, g.loops[|g.loops| - 1].breakTarget);
      CarriedHere(env, g, doms, args, scope, EmitItem(env, g, stmt).value, scope);
    }
    case Continue => {
      JumpDominated(env, g, doms, args, scope, g.loops[|g.loops| - 1].continueTarget);
      CarriedHere(env, g, doms, args, scope, EmitItem(env, g, stmt).value, scope);
    }
    case Return(value) => {
      ReturnDominated(env, g, doms, args, scope, value);
      CarriedHere(env, g, doms, args, scope, EmitItem(env, g, stmt).value, scope);
    }
  }

  lemma {:induction false} JumpDominated(env: Env, g: Gen, doms: seq<set<nat>>, args: nat, scope: set<Decl>, t: nat)
    requires Dominated(env, g, doms, args, scope) && g.loops != []
    requires t == g.loops[|g.loops| - 1].breakTarget || t == g.loops[|g.loops| - 1].continueTarget
    ensures Dominated(env, g.Append([Branch(t)]), doms, args, scope)
  {
    hide Ordered, Numbered, FrameOk, MayBranch, Known, Reachable;
    TerminatorDominated(env, g, doms, args, scope, Branch(t));
  }

  /** The head of an if leaves the variables settled and the new blocks dominated by what dominated the current one. */
  lemma {:induction false} IfHeadDominated(env: Env, g: Gen, cond: Expr, hasElse: bool, scope: set<Decl>,
                                           doms: seq<set<nat>>, args: nat)
    returns (doms1: seq<set<nat>>)
    requires Dominated(env, g, doms, args, scope) && ParamsIn(env, scope) && Checked(env.ctx, scope, cond)
    requires EmitIfHead(env, g, cond, hasElse).Some?
    ensures var g1, n := EmitIfHead(env, g, cond, hasElse).value, if hasElse then 3 else 2;
            && Carried(env, g, doms, g1, doms1, args, scope) && Settled(scope, g1.frame)
            && |doms1| == |doms| + n && g1.cur == g.cur && |doms| == |g.blocks|
            && forall b :: |doms| <= b < |doms| + n ==> doms1[b] == doms[g.cur] + {b}
  {
    hide Ordered, Numbered, Position, FrameOk, MayBranch;
    var g0 := MaterializeParameters(env, g);
    ParametersDominated(env, g, doms, args, scope);
    var code := EmitCondition(env, g0.frame, cond);
    ConditionDominated(env, g0, doms, args, scope, cond);
    ConditionShape(env, g0.frame, cond);
    SizesAgree(g, doms, args);
    var gC, n := g0.With(code.ops, code.frame), if hasElse then 3 else 2;
    doms1 := NewDoms(gC, doms, n);
    HeadBranch(env, gC, doms, args, scope, n, code.value);
  }

  lemma {:induction false} HeadBranch(env: Env, g: Gen, doms: seq<set<nat>>, args: nat, scope: set<Decl>, n: nat,
                                      v: nat)
    requires Dominated(env, g, doms, args, scope) && n >= 2 && g.cur < |doms|
    requires v < args || DefinedAmong(g.blocks, doms[g.cur], v)
    ensures |doms| == |g.blocks|
    ensures Dominated(env, g.NewBlocks(n).Append([CondBranch(v, |g.blocks|, |g.blocks| + 1)]), NewDoms(g, doms, n),
                      args, scope)
  {
    hide Ordered, Numbered, Position, FrameOk, MayBranch;
    SizesAgree(g, doms, args);
    NewBlocksDominated(env, g, doms, args, scope, n);
    var doms1, b := NewDoms(g, doms, n), |doms|;
    assert MayBranch(doms1, g.cur, b) && MayBranch(doms1, g.cur, b + 1);
    SameBlocks(g, n, doms, v, args);
    TerminatorDominated(env, g.NewBlocks(n), doms1, args, scope, CondBranch(v, b, b + 1));
  }

  lemma {:induction false} SizesAgree(g: Gen, doms: seq<set<nat>>, args: nat)
    requires Ordered(g.blocks, doms, args)
    ensures |doms| == |g.blocks|
  {
  }

  lemma {:induction false} SameBlocks(g: Gen, n: nat, doms: seq<set<nat>>, v: nat, args: nat)
    requires g.cur < |g.blocks| == |doms|
    requires v < args || DefinedAmong(g.blocks, doms[g.cur], v)
    ensures v < args || DefinedAmong(g.NewBlocks(n).blocks, NewDoms(g, doms, n)[g.cur], v)
  {
    if v >= args { AmongLonger(g.blocks, g.NewBlocks(n).blocks, doms[g.cur], NewDoms(g, doms, n)[g.cur], v); }
  }

  /** A statement in a block of its own, then a branch to where both ways meet. */
  lemma {:induction false} ArmDominated(env: Env, g: Gen, b: nat, stmt: Stmt, merge: nat, ret: CType, scope: set<Decl>,
                                        depth: nat, doms: seq<set<nat>>, args: nat)
    returns (doms': seq<set<nat>>)
    requires Dominated(env, g.At(b), doms, args, scope) && ParamsIn(env, scope) && MayBranch(doms, b, merge)
    requires CheckedStmt(env.ctx, ret, scope, depth, stmt) && EmitArm(env, g, b, stmt, merge).Some?
    ensures Carried(env, g.At(b), doms, EmitArm(env, g, b, stmt, merge).value.gen, doms', args, scope)
    decreases stmt, 3
  {
    hide Ordered, Numbered, Position, FrameOk;
    var g1, scope1 := EmitItem(env, g.At(b), stmt).value, ScopeAfter(scope, stmt);
    doms' := ItemDominated(env, g.At(b), stmt, ret, scope, depth, doms, args);
    BranchIfOpenDominated(env, g.At(b), doms, args, scope1, g1, doms', merge);
    CarriedThen(env, g.At(b), doms, g1, doms', BranchIfOpen(g1, merge), doms', args, scope1, scope, scope1);
  }

  lemma {:induction false} BranchIfOpenDominated(env: Env, g: Gen, doms: seq<set<nat>>, args: nat, scope: set<Decl>,
                                                 g1: Gen, doms1: seq<set<nat>>, t: nat)
    requires Carried(env, g, doms, g1, doms1, args, scope) && MayBranch(doms, g.cur, t)
    ensures Carried(env, g1, doms1, BranchIfOpen(g1, t), doms1, args, scope)
  {
    hide Ordered, Numbered, Position, FrameOk;
    SizesAgree(g1, doms1, args);
    if !g1.Terminated() { TerminatorDominated(env, g1, doms1, args, scope, Branch(t)); }
  }

  lemma {:induction false} IfDominated(env: Env, g: Gen, stmt: Stmt, ret: CType, scope: set<Decl>, depth: nat,
                                       doms: seq<set<nat>>, args: nat)
    returns (doms': seq<set<nat>>)
    requires Dominated(env, g, doms, args, scope) && ParamsIn(env, scope) && stmt.If?
    requires CheckedStmt(env.ctx, ret, scope, depth, stmt) && EmitIf(env, g, stmt).Some?
    ensures Carried(env, g, doms, EmitIf(env, g, stmt).value, doms', args, scope)
    decreases stmt, 1
  {
    hide Ordered, Numbered, Position, FrameOk, EmitItem;
    var g1, b := EmitIfHead(env, g, stmt.cond, stmt.els.Some?).value, |g.blocks|;
    var doms1 := IfHeadDominated(env, g, stmt.cond, stmt.els.Some?, scope, doms, args);
    IfHeadShape(env, g, stmt.cond, stmt.els.Some?, scope);
    if stmt.els.None? {
      ArmStarts(env, scope, g1, doms1, args, scope, g1, doms1, b);
      var doms2 := ArmDominated(env, g1, b, stmt.thn, b + 1, ret, scope, depth, doms1, args);
      var g2 := EmitArm(env, g1, b, stmt.thn, b + 1).value.gen;
      ArmShape(env, g, g1, b, stmt.thn, b + 1, ret, scope, depth);
      ArmKeepsHead(env, scope, g1, b, g2);
      doms' := doms2;
      Meet(env, scope, g, doms, g1, doms1, args, g2, doms2, scope, b + 1);
    } else {
      doms' := ThenElseDominated(env, g, g1, stmt, ret, scope, depth, doms, doms1, args);
    }
  }

  /** An arm starts where its head ends, however much has been emitted in between. */
  lemma {:induction false} ArmStarts(env: Env, scope: set<Decl>, g1: Gen, doms1: seq<set<nat>>, args: nat,
                                     scope2: set<Decl>, g2: Gen, doms2: seq<set<nat>>, b: nat)
    requires Dominated(env, g1, doms1, args, scope) && Settled(scope, g1.frame)
    requires Dominated(env, g2, doms2, args, scope2) && g2.loops == g1.loops
    requires SlotsKeptOn(scope, g1.frame, g2.frame) && Longer(g1.blocks, g2.blocks) && doms1 <= doms2
    requires g1.cur < |doms1| && b < |doms2| && doms1[g1.cur] <= doms2[b]
    ensures Dominated(env, g2.At(b), doms2, args, scope)
  {
    hide Ordered, Numbered, Settled, SlotsKeptOn;
    SizesAgree(g2, doms2, args);
    SizesAgree(g1, doms1, args);
    ReturnTo(env, scope, g1, doms1, args, g1.cur, g2, doms2, b);
    MoveDominated(env, g2, doms2, args, scope2, b, g2.loops, scope);
  }

  /** What an arm leaves of the state before it. */
  lemma {:induction false} ArmKeepsHead(env: Env, scope: set<Decl>, g1: Gen, b: nat, g2: Gen)
    requires Later(env, scope, g1.At(b), g2)
    ensures SlotsKeptOn(scope, g1.frame, g2.frame) && Longer(g1.blocks, g2.blocks) && g2.loops == g1.loops
    ensures forall c :: c != b && Fresh(g1, c) ==> Fresh(g2, c)
  {
    LaterIsLonger(env, scope, g1.At(b), g2);
  }

  /** Going on in a block created by the head. */
  lemma {:induction false} Meet(env: Env, scope: set<Decl>, g: Gen, doms: seq<set<nat>>, g1: Gen, doms1: seq<set<nat>>,
                                args: nat, g2: Gen, doms2: seq<set<nat>>, scope2: set<Decl>, b: nat)
    requires Carried(env, g, doms, g1, doms1, args, scope) && Settled(scope, g1.frame) && g1.cur == g.cur
    requires Dominated(env, g2, doms2, args, scope2)
    requires g2.loops == g1.loops && SlotsKeptOn(scope, g1.frame, g2.frame) && Longer(g1.blocks, g2.blocks)
    requires doms1 <= doms2
    requires |doms| <= b < |doms1| && doms1[b] == doms[g.cur] + {b}
    ensures Carried(env, g, doms, g2.At(b), doms2, args, scope)
  {
    hide Ordered, Numbered, Settled, SlotsKeptOn, Position, FrameOk;
    ArmStarts(env, scope, g1, doms1, args, scope2, g2, doms2, b);
  }

  lemma {:induction false} ThenElseDominated(env: Env, g: Gen, g1: Gen, stmt: Stmt, ret: CType, scope: set<Decl>,
                                             depth: nat, doms: seq<set<nat>>, doms1: seq<set<nat>>, args: nat)
    returns (doms': seq<set<nat>>)
    requires Carried(env, g, doms, g1, doms1, args, scope) && ParamsIn(env, scope) && stmt.If? && stmt.els.Some?
    requires Settled(scope, g1.frame) && g1.cur == g.cur && |doms| == |g.blocks| && |doms1| == |doms| + 3
    requires forall b :: |doms| <= b < |doms| + 3 ==> doms1[b] == doms[g.cur] + {b} && Fresh(g1, b)
    requires Later(env, scope, g, g1) && CheckedStmt(env.ctx, ret, scope, depth, stmt.thn)
    requires CheckedStmt(env.ctx, ret, scope, depth, stmt.els.value)
    requires EmitThenElse(env, g1, |g.blocks|, stmt).Some?
    ensures Carried(env, g, doms, EmitThenElse(env, g1, |g.blocks|, stmt).value, doms', args, scope)
    decreases stmt, 0
  {
    hide Ordered, Numbered, Position, FrameOk, EmitItem, EmitArm, SlotsKeptOn, Settled;
    var b := |g.blocks|;
    SameSlots(scope, g1.frame);
    ArmStarts(env, scope, g1, doms1, args, scope, g1, doms1, b);
    var doms2 := ArmDominated(env, g1, b, stmt.thn, b + 2, ret, scope, depth, doms1, args);
    var g2 := EmitArm(env, g1, b, stmt.thn, b + 2).value.gen;
    ArmShape(env, g, g1, b, stmt.thn, b + 2, ret, scope, depth);
    ArmKeepsHead(env, scope, g1, b, g2);
    ArmStarts(env, scope, g1, doms1, args, scope, g2, doms2, b + 1);
    doms' := ArmDominated(env, g2, b + 1, stmt.els.value, b + 2, ret, scope, depth, doms2, args);
    var g3 := EmitArm(env, g2, b + 1, stmt.els.value, b + 2).value.gen;
    ArmShape(env, g, g2, b + 1, stmt.els.value, b + 2, ret, scope, depth);
    ArmKeepsHead(env, scope, g2, b + 1, g3);
    HeadKept(scope, g1, g2, g3);
    Meet(env, scope, g, doms, g1, doms1, args, g3, doms', scope, b + 2);
    ErasedMeet(env, g, doms, g2.At(b + 1), doms2, g3, doms', args, scope, b + 2);
  }

  lemma {:induction false} HeadKept(scope: set<Decl>, g1: Gen, g2: Gen, g3: Gen)
    requires SlotsKeptOn(scope, g1.frame, g2.frame) && Longer(g1.blocks, g2.blocks)
    requires SlotsKeptOn(scope, g2.frame, g3.frame) && Longer(g2.blocks, g3.blocks)
    ensures SlotsKeptOn(scope, g1.frame, g3.frame) && Longer(g1.blocks, g3.blocks)
  {
  }

  lemma {:induction false} ErasedMeet(env: Env, g: Gen, doms: seq<set<nat>>, g2: Gen, doms2: seq<set<nat>>, g3: Gen,
                                      doms3: seq<set<nat>>, args: nat, scope: set<Decl>, b: nat)
    requires Carried(env, g2, doms2, g3, doms3, args, scope) && doms <= doms2 && g.cur < |doms|
    requires doms[g.cur] <= doms2[g2.cur]
    requires Fresh(g3, b)
    ensures Carried(env, g, doms, g3.Erase(b), doms3, args, scope)
  {
    hide Ordered, Numbered, Position, FrameOk;
    EraseDominated(env, g3, doms3, args, scope, b);
  }

  // ----- loops -----

  lemma {:induction false} TestDominated(env: Env, g: Gen, doms: seq<set<nat>>, args: nat, scope: set<Decl>,
                                         test: Option<Expr>, body: nat, exit: nat)
    requires Dominated(env, g, doms, args, scope) && CheckedOption(env.ctx, scope, test)
    requires EmitTest(env, g, test, body, exit).Some?
    requires g.cur < |doms| && MayBranch(doms, g.cur, body) && MayBranch(doms, g.cur, exit)
    ensures Dominated(env, EmitTest(env, g, test, body, exit).value, doms, args, scope)
  {
    hide Ordered, Numbered, Position, FrameOk, MayBranch;
    if test.None? {
      SizesAgree(g, doms, args);
      TerminatorDominated(env, g, doms, args, scope, Branch(body));
    } else {
      var code := EmitCondition(env, g.frame, test.value);
      ConditionDominated(env, g, doms, args, scope, test.value);
      var g1, op := g.With(code.ops, code.frame), CondBranch(code.value, body, exit);
      SizesAgree(g1, doms, args);
      TerminatorDominated(env, g1, doms, args, scope, op);
      WithWith(g, code.ops, code.frame, [op], code.frame);
    }
  }

  /** The state in a loop's condition block. */
  lemma {:induction false} LoopEntryDominated(env: Env, g: Gen, n: nat, scope: set<Decl>, doms: seq<set<nat>>,
                                              args: nat)
    requires Dominated(env, g, doms, args, scope) && Settled(scope, g.frame) && n > 0
    ensures g.cur < |doms| == |g.blocks| && Dominated(env, LoopEntry(g, n), NewDoms(g, doms, n), args, scope)
    ensures Longer(g.blocks, LoopEntry(g, n).blocks)
  {
    hide Ordered, Numbered, FrameOk, Known, Reachable, Settled, MayBranch;
    SizesAgree(g, doms, args);
    NewBlocksDominated(env, g, doms, args, scope, n);
    var doms1, b := NewDoms(g, doms, n), |doms|;
    assert MayBranch(doms1, g.cur, b);
    var g1 := g.NewBlocks(n).Append([Branch(b)]);
    TerminatorDominated(env, g.NewBlocks(n), doms1, args, scope, Branch(b));
    assert Longer(g.blocks, g1.blocks);
    SameSlots(scope, g.frame);
    ArmStarts(env, scope, g, doms, args, scope, g1, doms1, b);
  }

  lemma {:induction false} SameSlots(scope: set<Decl>, f: Frame)
    ensures SlotsKeptOn(scope, f, f)
  {
  }

  lemma {:induction false} InsideLoop(env: Env, g: Gen, doms: seq<set<nat>>, args: nat, scope: set<Decl>,
                                      t: LoopTargets)
    requires Dominated(env, g, doms, args, scope) && g.cur < |doms|
    requires MayBranch(doms, g.cur, t.breakTarget) && MayBranch(doms, g.cur, t.continueTarget)
    ensures Dominated(env, g.Enter(t), doms, args, scope)
  {
    hide Ordered, Numbered, FrameOk, Known, Reachable, MayBranch;
  }

  lemma {:induction false} OutOfLoop(env: Env, g: Gen, doms: seq<set<nat>>, args: nat, scope: set<Decl>)
    requires Dominated(env, g, doms, args, scope)
    ensures Dominated(env, g.Leave(), doms, args, scope)
  {
    hide Ordered, Numbered, FrameOk, Known, Reachable, MayBranch;
  }

  lemma {:induction false} NewDomsAt(g: Gen, doms: seq<set<nat>>, n: nat, doms': seq<set<nat>>, b: nat)
    requires g.cur < |doms| && NewDoms(g, doms, n) <= doms' && |doms| <= b < |doms| + n
    ensures b < |doms'| && doms'[b] == doms[g.cur] + {b} && doms <= doms'
    ensures forall t :: |doms| <= t < |doms| + n ==> MayBranch(doms', b, t)
  {
    forall t | |doms| <= t < |doms| + n
      ensures MayBranch(doms', b, t)
    {
      assert doms'[t] == doms[g.cur] + {t};
    }
  }

  lemma {:induction false} BranchFurther(doms: seq<set<nat>>, b: nat, c: nat, t: nat)
    requires b < |doms| && c < |doms| && doms[b] <= doms[c] && MayBranch(doms, b, t)
    ensures MayBranch(doms, c, t)
  {
  }

  /** A loop up to the branch that ends its body. */
  lemma {:induction false} LoopDominated(env: Env, g: Gen, n: nat, test: Option<Expr>, body: Stmt, t: LoopTargets,
                                         ret: CType, scope: set<Decl>, depth: nat, doms: seq<set<nat>>, args: nat)
    returns (doms4: seq<set<nat>>)
    requires Dominated(env, g, doms, args, scope) && Settled(scope, g.frame) && ParamsIn(env, scope) && n >= 3
    requires |g.blocks| <= t.breakTarget < |g.blocks| + n && |g.blocks| <= t.continueTarget < |g.blocks| + n
    requires CheckedOption(env.ctx, scope, test) && CheckedStmt(env.ctx, ret, scope, depth + 1, body)
    requires EmitLoop(env, LoopEntry(g, n), test, body, |g.blocks| + 1, t).Some?
    ensures var g4 := EmitLoop(env, LoopEntry(g, n), test, body, |g.blocks| + 1, t).value;
            && g.cur < |doms| == |g.blocks| && NewDoms(g, doms, n) <= doms4 && Dominated(env, g4, doms4, args, scope)
            && g4.loops == g.loops && SlotsKeptOn(scope, g.frame, g4.frame) && Longer(g.blocks, g4.blocks)
    decreases body, 3
  {
    hide Ordered, Numbered, Position, FrameOk, EmitItem, SlotsKeptOn, Settled, MayBranch, NewDoms, CheckedStmt;
    var b, g1 := |g.blocks|, LoopEntry(g, n);
    LoopEntryDominated(env, g, n, scope, doms, args);
    var doms1 := NewDoms(g, doms, n);
    NewDomsAt(g, doms, n, doms1, b);
    NewDomsAt(g, doms, n, doms1, b + 1);
    TestDominated(env, g1, doms1, args, scope, test, b + 1, t.breakTarget);
    var g2 := EmitTest(env, g1, test, b + 1, t.breakTarget).value;
    LoopParts(env, g, n, test, body, t, ret, scope, depth, g2);
    ArmStarts(env, scope, g, doms, args, scope, g2, doms1, b + 1);
    InsideLoop(env, g2.At(b + 1), doms1, args, scope, t);
    var gB := g2.At(b + 1).Enter(t);
    doms4 := ItemDominated(env, gB, body, ret, scope, depth + 1, doms1, args);
    var g3, scope3 := EmitItem(env, gB, body).value, ScopeAfter(scope, body);
    NewDomsAt(g, doms, n, doms4, b + 1);
    SizesAgree(g3, doms4, args);
    BranchFurther(doms4, b + 1, g3.cur, t.continueTarget);
    LoopBack(env, gB, doms1, g3, doms4, args, scope3, scope, t.continueTarget);
  }

  lemma {:induction false} LoopBack(env: Env, gB: Gen, doms1: seq<set<nat>>, g3: Gen, doms3: seq<set<nat>>, args: nat,
                                    scope3: set<Decl>, scope: set<Decl>, target: nat)
    requires Carried(env, gB, doms1, g3, doms3, args, scope3) && scope <= scope3
    requires g3.cur < |doms3| && MayBranch(doms3, g3.cur, target)
    ensures Dominated(env, BranchIfOpen(g3.Leave(), target), doms3, args, scope)
  {
    hide Ordered, Numbered, FrameOk, Position, MayBranch;
    OutOfLoop(env, g3, doms3, args, scope3);
    var g4 := g3.Leave();
    PositionWithin(env, g4.blocks, doms3, args, g4.cur, g4.frame, g4.loops, scope3, g4.loops, scope);
    if !g4.Terminated() { TerminatorDominated(env, g4, doms3, args, scope, Branch(target)); }
  }

  /** What a loop leaves of the state before it. */
  lemma {:induction false} LoopParts(env: Env, g: Gen, n: nat, test: Option<Expr>, body: Stmt, t: LoopTargets,
                                     ret: CType, scope: set<Decl>, depth: nat, g2: Gen)
    requires GenOk(env, g) && n >= 3 && CheckedOption(env.ctx, scope, test)
    requires CheckedStmt(env.ctx, ret, scope, depth + 1, body)
    requires EmitLoop(env, LoopEntry(g, n), test, body, |g.blocks| + 1, t).Some?
    requires g2 == EmitTest(env, LoopEntry(g, n), test, |g.blocks| + 1, t.breakTarget).value
    ensures SlotsKeptOn(scope, g.frame, g2.frame) && Longer(g.blocks, g2.blocks) && g2.loops == g.loops
    ensures var g4 := EmitLoop(env, LoopEntry(g, n), test, body, |g.blocks| + 1, t).value;
            g4.loops == g.loops && SlotsKeptOn(scope, g.frame, g4.frame) && Longer(g.blocks, g4.blocks)
  {
    hide FrameOk, EmitItem, CheckedStmt;
    LoopEntryLater(env, scope, g, n);
    LoopShape(env, g, LoopEntry(g, n), test, body, |g.blocks| + 1, t, ret, scope, scope, depth);
    LaterIsLonger(env, scope, g, EmitLoop(env, LoopEntry(g, n), test, body, |g.blocks| + 1, t).value);
    LaterIsLonger(env, scope, LoopEntry(g, n), g2);
    LaterIsLonger(env, scope, g, LoopEntry(g, n).At(g.cur));
  }

  lemma {:induction false} WhileDominated(env: Env, g: Gen, stmt: Stmt, ret: CType, scope: set<Decl>, depth: nat,
                                          doms: seq<set<nat>>, args: nat)
    returns (doms': seq<set<nat>>)
    requires Dominated(env, g, doms, args, scope) && ParamsIn(env, scope) && stmt.While?
    requires CheckedStmt(env.ctx, ret, scope, depth, stmt) && EmitWhile(env, g, stmt).Some?
    ensures Carried(env, g, doms, EmitWhile(env, g, stmt).value, doms', args, scope)
    decreases stmt, 1
  {
    hide Ordered, Numbered, Position, FrameOk, EmitItem, EmitLoop, LoopEntry, NewDoms, SlotsKeptOn, Settled;
    var g0, b := MaterializeParameters(env, g), |g.blocks|;
    ParametersDominated(env, g, doms, args, scope);
    doms' := LoopDominated(env, g0, 3, Some(stmt.cond), stmt.body, LoopTargets(b + 2, b), ret, scope, depth, doms,
                           args);
    var g2 := EmitLoop(env, LoopEntry(g0, 3), Some(stmt.cond), stmt.body, b + 1, LoopTargets(b + 2, b)).value;
    NewDomsAt(g0, doms, 3, doms', b + 2);
    ArmStarts(env, scope, g0, doms, args, scope, g2, doms', b + 2);
  }

  lemma {:induction false} ForDominated(env: Env, g: Gen, stmt: Stmt, ret: CType, scope: set<Decl>, depth: nat,
                                        doms: seq<set<nat>>, args: nat)
    returns (doms': seq<set<nat>>)
    requires Dominated(env, g, doms, args, scope) && ParamsIn(env, scope) && stmt.For?
    requires CheckedStmt(env.ctx, ret, scope, depth, stmt) && EmitFor(env, g, stmt).Some?
    ensures Carried(env, g, doms, EmitFor(env, g, stmt).value, doms', args, scope)
    decreases stmt, 1
  {
    hide Ordered, Numbered, Position, FrameOk, EmitItem, EmitForLoop;
    var gM := MaterializeParameters(env, g);
    ParametersDominated(env, g, doms, args, scope);
    CarriedHere(env, g, doms, args, scope, gM, scope);
    if stmt.start.Some? {
      var inner := ScopeAfter(scope, stmt.start.value);
      var g1 := EmitItem(env, gM, stmt.start.value).value;
      var doms1 := ItemDominated(env, gM, stmt.start.value, ret, scope, depth, doms, args);
      CarriedThen(env, g, doms, gM, doms, g1, doms1, args, scope, inner, inner);
      StartSettled(env, gM, stmt.start.value, scope);
      doms' := ForLoopDominated(env, g1, stmt.test, stmt.incr, stmt.body, ret, inner, depth, doms1, args);
      CarriedThen(env, g, doms, g1, doms1, EmitFor(env, g, stmt).value, doms', args, inner, scope, inner);
    } else {
      doms' := ForLoopDominated(env, gM, stmt.test, stmt.incr, stmt.body, ret, scope, depth, doms, args);
      CarriedThen(env, g, doms, gM, doms, EmitFor(env, g, stmt).value, doms', args, scope, scope, scope);
    }
  }

  /** An initializer leaves the variables settled, its own included. */
  lemma {:induction false} StartSettled(env: Env, g: Gen, start: Stmt, scope: set<Decl>)
    requires GenOk(env, g) && Settled(scope, g.frame) && (start.VarDecl? || start.ExprStmt?) &&
             EmitItem(env, g, start).Some?
    requires start.VarDecl? ==> start.decl !in scope
    ensures Settled(ScopeAfter(scope, start), EmitItem(env, g, start).value.frame)
  {
    if start.VarDecl? {
      VarShape(env, g, start.decl, start.init, scope);
      var d, t := start.decl, LowerType(env.ctx.target, start.decl.ty).value;
      LocalFrameOk(env, g.frame, d, t);
      if start.init.Some? { ExprShape(env, LocalFrame(g.frame, d, t), start.init.value); }
    } else if start.expr.Some? {
      ExprStmtShape(env, g, start.expr.value, scope);
    }
  }

  lemma {:induction false} ForLoopDominated(env: Env, g: Gen, test: Option<Expr>, incr: Option<Expr>, body: Stmt,
                                            ret: CType, scope: set<Decl>, depth: nat, doms: seq<set<nat>>, args: nat)
    returns (doms': seq<set<nat>>)
    requires Dominated(env, g, doms, args, scope) && Settled(scope, g.frame) && ParamsIn(env, scope)
    requires EmitForLoop(env, g, test, incr, body).Some?
    requires CheckedOption(env.ctx, scope, test) && CheckedOption(env.ctx, scope, incr)
    requires CheckedStmt(env.ctx, ret, scope, depth + 1, body)
    ensures Carried(env, g, doms, EmitForLoop(env, g, test, incr, body).value, doms', args, scope)
    decreases body, 4
  {
    hide Ordered, Numbered, Position, FrameOk, EmitItem, EmitLoop, LoopEntry, NewDoms, Settled, CheckedStmt,
      EmitExprStmt;
    var b := |g.blocks|;
    ForLoopParts(env, g, test, incr, body);
    doms' := LoopDominated(env, g, 4, test, body, LoopTargets(b + 3, b + 2), ret, scope, depth, doms, args);
    var g2 := EmitLoop(env, LoopEntry(g, 4), test, body, b + 1, LoopTargets(b + 3, b + 2)).value;
    NewDomsAt(g, doms, 4, doms', b + 2);
    ArmStarts(env, scope, g, doms, args, scope, g2, doms', b + 2);
    var g3 := EmitStep(env, g2.At(b + 2), incr).value;
    StepDominated(env, g2.At(b + 2), doms', args, scope, incr);
    StepLater(env, g2.At(b + 2), scope, incr, b);
    BranchBack(env, g3, doms', args, scope, b);
    NewDomsAt(g, doms, 4, doms', b + 3);
    var g4 := g3.Append([Branch(b)]);
    HeadKept(scope, g, g2, g4);
    ArmStarts(env, scope, g, doms, args, scope, g4, doms', b + 3);
  }

  lemma {:induction false} StepDominated(env: Env, g: Gen, doms: seq<set<nat>>, args: nat, scope: set<Decl>,
                                         incr: Option<Expr>)
    requires Dominated(env, g, doms, args, scope) && CheckedOption(env.ctx, scope, incr) && EmitStep(env, g, incr).Some?
    ensures Dominated(env, EmitStep(env, g, incr).value, doms, args, scope)
  {
    if incr.Some? { ExprStmtDominated(env, g, doms, args, scope, incr.value); }
  }

  lemma {:induction false} BranchBack(env: Env, g: Gen, doms: seq<set<nat>>, args: nat, scope: set<Decl>, t: nat)
    requires Dominated(env, g, doms, args, scope) && g.cur < |doms| && MayBranch(doms, g.cur, t)
    ensures Dominated(env, g.Append([Branch(t)]), doms, args, scope)
  {
    hide Ordered, Numbered, FrameOk, Position, MayBranch;
    SizesAgree(g, doms, args);
    TerminatorDominated(env, g, doms, args, scope, Branch(t));
  }

  lemma {:induction false} StepLater(env: Env, g: Gen, scope: set<Decl>, incr: Option<Expr>, t: nat)
    requires GenOk(env, g) && EmitStep(env, g, incr).Some?
    ensures var g' := EmitStep(env, g, incr).value;
            && g'.cur == g.cur && g'.loops == g.loops && SlotsKeptOn(scope, g.frame, g'.frame)
            && Longer(g.blocks, g'.Append([Branch(t)]).blocks)
  {
    hide FrameOk, EmitExprStmt;
    var g' := EmitStep(env, g, incr).value;
    if incr.Some? {
      ExprStmtShape(env, g, incr.value, scope);
      ExprStmtStays(env, g, incr.value);
      LaterIsLonger(env, scope, g, g');
    }
    var blocks := g'.Append([Branch(t)]).blocks;
    forall b | 0 <= b < |g.blocks|
      ensures g.blocks[b].ops <= blocks[b].ops
    {
      assert g.blocks[b].ops <= g'.blocks[b].ops <= blocks[b].ops;
    }
  }

  lemma {:induction false} ExprStmtStays(env: Env, g: Gen, e: Expr)
    requires EnvOk(env) && EmitExprStmt(env, g, e).Some?
    ensures EmitExprStmt(env, g, e).value.cur == g.cur
  {
  }

  // ----- whole functions -----

  /** A path of branches from the entry block to b. */
  ghost predicate Path(p: seq<Block>, path: seq<nat>, b: nat) {
    && path != [] && path[0] == 0 && path[|path| - 1] == b
    && forall k :: 0 <= k < |path| - 1 ==> Goes(p, path[k], path[k + 1])
  }

  ghost predicate Goes(p: seq<Block>, b: nat, t: nat) {
    b < |p| && exists i :: 0 <= i < |p[b].ops| && t in Targets(p[b].ops[i])
  }

  /** Every path to b goes through c. */
  ghost predicate Dominates(p: seq<Block>, c: nat, b: nat) {
    forall path: seq<nat> :: Path(p, path, b) ==> c in path
  }

  lemma {:induction false} OnEveryPath(p: seq<Block>, doms: seq<set<nat>>, args: nat, path: seq<nat>, b: nat, c: nat)
    requires Ordered(p, doms, args) && |p| > 0 && doms[0] == {0} && Path(p, path, b) && b < |doms| && c in doms[b]
    ensures c in path
    decreases |path|
  {
    if |path| == 1 {
      assert path[0] == 0;
    } else if c != b {
      var front := path[..|path| - 1];
      var a := path[|path| - 2];
      assert Goes(p, a, path[|path| - 1]);
      var i :| 0 <= i < |p[a].ops| && b in Targets(p[a].ops[i]);
      assert OpOrdered(p, doms, args, a, i) && MayBranch(doms, a, b);
      assert forall k :: 0 <= k < |front| - 1 ==> Goes(p, path[k], path[k + 1]);
      assert Path(p, front, a);
      OnEveryPath(p, doms, args, front, a, c);
    }
  }

  /** Operation i of block b uses x after its definition: an entry argument, or defined earlier in the block, or in
      another block that dominates this one. */
  ghost predicate DefinedBefore(p: seq<Block>, args: nat, b: nat, i: nat, x: nat)
    requires b < |p| && i <= |p[b].ops|
  {
    || x < args
    || DefinedIn(p[b].ops[..i], x)
    || exists c :: 0 <= c < |p| && c != b && DefinedIn(p[c].ops, x) && Dominates(p, c, b)
  }

  lemma {:induction false} EntryDominated(ctx: Context, fn: Function, order: seq<Decl>, f: Frame)
    requires UnitOk(ctx, fn, order) && StartFrame(ctx, fn, f)
    ensures Dominated(FunctionEnv(ctx, fn, order), EntryGen(f), [{0}], |fn.params|, ParamSet(fn.params))
    ensures ParamsIn(FunctionEnv(ctx, fn, order), ParamSet(fn.params))
  {
    hide CheckedItems, FrameOk;
    EntryFrameOk(ctx, fn, order, f);
    EntryValuesAt(fn.params);
    EntryPosition(FunctionEnv(ctx, fn, order), f, fn.params);
  }

  lemma {:induction false} EntryPosition(env: Env, f: Frame, params: seq<Decl>)
    requires env.values.Keys == ParamSet(params) && f.storage == map[]
    requires forall i :: 0 <= i < |params| ==> env.values[params[i]] == i
    ensures Position(env, [Block([], false)], [{0}], |params|, 0, f, [], ParamSet(params))
    ensures Ordered([Block([], false)], [{0}], |params|) && Numbered([Block([], false)], |params|, |f.types|)
  {
    forall d | d in env.values
      ensures env.values[d] < |params|
    {
      var i :| 0 <= i < |params| && params[i] == d;
    }
  }

  lemma {:induction false} CloseDominated(ctx: Context, fn: Function, env: Env, g: Gen, doms: seq<set<nat>>, args: nat,
                                          scope: set<Decl>)
    requires ctx.target.Valid() && Dominated(env, g, doms, args, scope) && CloseBody(ctx, fn, g).Some?
    ensures Ordered(CloseBody(ctx, fn, g).value.blocks, doms, args)
    ensures exists n :: Numbered(CloseBody(ctx, fn, g).value.blocks, args, n)
  {
    hide Ordered, Numbered, Position, FrameOk;
    if g.Terminated() {
      assert Numbered(g.blocks, args, |g.frame.types|);
    } else if fn.ret == Void {
      TerminatorDominated(env, g, doms, args, scope, ReturnOp(None));
      assert Numbered(g.Append([ReturnOp(None)]).blocks, args, |g.frame.types|);
    } else {
      var n, w := g.frame.Next(), Lowered(ctx.target, fn.ret).WidthOr(0);
      var op, f := ConstantInt(n, w, 0), g.frame.Define(I(w));
      SourcedNothing(env, scope, g.frame);
      SourcedDefine(env, scope, g.frame, [], g.frame, op, I(w));
      assert [] + [op] == [op];
      DefineFrameOk(env, g.frame, I(w));
      AppendDominated(env, g, doms, args, scope, [op], f);
      ValueAtEnd(env, g, doms, args, scope, [op], f, n);
      TerminatorDominated(env, g.With([op], f), doms, args, scope, ReturnOp(Some(n)));
      WithWith(g, [op], f, [ReturnOp(Some(n))], f);
      assert [op] + [ReturnOp(Some(n))] == [op, ReturnOp(Some(n))];
      assert Numbered(g.With([op, ReturnOp(Some(n))], f).blocks, args, |f.types|);
    }
  }

  lemma {:induction false} DefineFrameOk(env: Env, f: Frame, t: MType)
    requires FrameOk(env, f)
    ensures FrameOk(env, f.Define(t))
  {
    forall d | d in f.storage
      ensures SlotOk(env, f.Define(t), d)
    {
      assert SlotOk(env, f, d);
    }
  }

  /** Generated code is in SSA form: each value is defined at most once and no entry argument is, and every use comes
      after the definition, on every path from the entry. */
  lemma {:induction false} DefinitionsDominateUses(ctx: Context, fn: Function, order: seq<Decl>)
    requires UnitOk(ctx, fn, order) && EmitFunction(ctx, fn, order).Some?
    ensures var p := EmitFunction(ctx, fn, order).value;
            && (forall b, i, x :: 0 <= b < |p| && 0 <= i < |p[b].ops| && x in Uses(p[b].ops[i]) ==>
                DefinedBefore(p, |fn.params|, b, i, x))
            && exists n :: Numbered(p, |fn.params|, n)
  {
    var env, args := FunctionEnv(ctx, fn, order), |fn.params|;
    var f := EntryFrame(ctx.target, ctx.functions[fn.name].params).value;
    assert Declarable(ctx.target, ctx.functions[fn.name]);
    EntryDominated(ctx, fn, order, f);
    var g := EmitBody(ctx, fn, order).value;
    var doms := ItemsDominated(env, EntryGen(f), fn.body, fn.ret, ParamSet(fn.params), 0, [{0}], args);
    CloseDominated(ctx, fn, env, g, doms, args, ParamSet(fn.params));
    var p := EmitFunction(ctx, fn, order).value;
    forall b, i, x | 0 <= b < |p| && 0 <= i < |p[b].ops| && x in Uses(p[b].ops[i])
      ensures DefinedBefore(p, args, b, i, x)
    {
      assert doms[0] == [{0}][0];
      UseIsAfter(p, doms, args, b, i, x);
    }
  }

  lemma {:induction false} UseIsAfter(p: seq<Block>, doms: seq<set<nat>>, args: nat, b: nat, i: nat, x: nat)
    requires Ordered(p, doms, args) && |p| > 0 && doms[0] == {0}
    requires b < |p| && i < |p[b].ops| && x in Uses(p[b].ops[i])
    ensures DefinedBefore(p, args, b, i, x)
  {
    assert OpOrdered(p, doms, args, b, i) && MayUse(p, doms, args, b, i, x);
    if x >= args && !DefinedIn(p[b].ops[..i], x) {
      var c :| c in doms[b] - {b} && c < |p| && DefinedIn(p[c].ops, x);
      forall path: seq<nat> | Path(p, path, b)
        ensures c in path
      {
        OnEveryPath(p, doms, args, path, b, c);
      }
      assert Dominates(p, c, b);
    }
  }
}
