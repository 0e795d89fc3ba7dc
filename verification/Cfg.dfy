/** The control-flow graph of generated code is well formed: every block ends in its only terminator, every branch goes
    to a block that exists, and nothing branches to the entry block or to an erased merge block. */
module Cfg {
  import opened CAst
  import opened Wrappers
  import opened Contract
  import opened Ir
  import opened Lowering
  import opened ExprSimulation
  import opened Shape
  import opened Unit

  function Targets(op: Op): set<nat> {
    match op
    case Branch(t) => {t}
    case CondBranch(_, t, f) => {t, f}
    case _ => {}
  }

  predicate Ended(ops: seq<Op>) {
    ops != [] && IsTerminator(ops[|ops| - 1])
  }

  /** A block whose terminator, if it has one, comes last, and which branches only to ts. A block that is not open has a
      terminator or has been erased. */
  ghost predicate BlockOk(k: Block, open: bool, ts: set<nat>) {
    && (k.erased ==> k.ops == [] && !open)
    && (forall i :: 0 <= i < |k.ops| - 1 ==> !IsTerminator(k.ops[i]))
    && (open || k.erased || Ended(k.ops))
    && (forall i :: 0 <= i < |k.ops| ==> Targets(k.ops[i]) <= ts)
  }

  /** From g to g': the current block of g and the blocks created since are well formed, those in open may still be
      unfinished, and branches go to ts. */
  ghost predicate Grown(g: Gen, g': Gen, open: set<nat>, ts: set<nat>) {
    && g.cur < |g.blocks| <= |g'.blocks|
    && (forall b :: 0 <= b < |g.blocks| && b != g.cur ==> g'.blocks[b] == g.blocks[b])
    && !g'.blocks[g.cur].erased
    && (forall b :: b in open ==> (b == g.cur || |g.blocks| <= b) && b < |g'.blocks|)
    && (forall b :: 0 <= b < |g'.blocks| && (b == g.cur || |g.blocks| <= b) ==> BlockOk(g'.blocks[b], b in open, ts))
  }

  /** Where a jump out of a statement may go. */
  function Exits(loops: seq<LoopTargets>): set<nat> {
    if loops == [] then {} else {loops[|loops| - 1].breakTarget, loops[|loops| - 1].continueTarget}
  }

  /** The blocks created since g that have not been erased. */
  function Live(g: Gen, g': Gen): set<nat> {
    set t | |g.blocks| <= t < |g'.blocks| && !g'.blocks[t].erased
  }

  /** Emission can start here: the current block exists and is still open. */
  ghost predicate Open(g: Gen) {
    g.cur < |g.blocks| && !g.blocks[g.cur].erased && NoTerminators(g.Ops())
  }

  /** Emission that continues in one of the open blocks. */
  lemma {:induction false} Chain(g: Gen, g1: Gen, open: set<nat>, ts: set<nat>, b: nat, loops: seq<LoopTargets>,
                                 g2: Gen, open2: set<nat>, ts2: set<nat>)
    requires Grown(g, g1, open, ts) && b in open && Grown(g1.(cur := b, loops := loops), g2, open2, ts2)
    ensures Grown(g, g2, open - {b} + open2, ts + ts2)
    ensures Live(g, g1) <= Live(g, g2) && Live(g1, g2) <= Live(g, g2)
  {
    forall b' | 0 <= b' < |g2.blocks| && (b' == g.cur || |g.blocks| <= b')
      ensures BlockOk(g2.blocks[b'], b' in open - {b} + open2, ts + ts2)
    {
      if b' < |g1.blocks| && b' != b {
        assert BlockOk(g1.blocks[b'], b' in open, ts);
      } else {
        assert BlockOk(g2.blocks[b'], b' in open2, ts2);
      }
    }
  }

  lemma {:induction false} Widen(g: Gen, g': Gen, open: set<nat>, ts: set<nat>, ts2: set<nat>)
    requires Grown(g, g', open, ts) && ts <= ts2
    ensures Grown(g, g', open, ts2)
  {
    forall b | 0 <= b < |g'.blocks| && (b == g.cur || |g.blocks| <= b)
      ensures BlockOk(g'.blocks[b], b in open, ts2)
    {
      assert BlockOk(g'.blocks[b], b in open, ts);
    }
  }

  /** Straight-line code, possibly followed by one terminator, appended to an open block. */
  lemma {:induction false} Appended(g: Gen, ops: seq<Op>, f: Frame)
    requires Open(g) && NoTerminators(ops)
    ensures Grown(g, g.With(ops, f), {g.cur}, {}) && Open(g.With(ops, f))
    ensures g.With(ops, f).cur == g.cur && Live(g, g.With(ops, f)) == {}
  {
    var k := g.With(ops, f).blocks[g.cur];
    forall i | 0 <= i < |k.ops| ensures !IsTerminator(k.ops[i]) && Targets(k.ops[i]) == {} {
      if i >= |g.Ops()| { assert k.ops[i] == ops[i - |g.Ops()|]; }
    }
  }

  lemma {:induction false} Closed(g: Gen, ops: seq<Op>, op: Op, f: Frame)
    requires Open(g) && NoTerminators(ops) && IsTerminator(op)
    ensures Grown(g, g.With(ops + [op], f), {}, Targets(op)) && Grown(g, g.With(ops + [op], f), {g.cur}, Targets(op))
    ensures g.With(ops + [op], f).Terminated()
    ensures g.With(ops + [op], f).cur == g.cur && Live(g, g.With(ops + [op], f)) == {}
  {
    var k := g.With(ops + [op], f).blocks[g.cur];
    forall i | 0 <= i < |k.ops|
      ensures i < |k.ops| - 1 ==> !IsTerminator(k.ops[i])
      ensures Targets(k.ops[i]) <= Targets(op)
    {
      if i >= |g.Ops()| { assert k.ops[i] == (ops + [op])[i - |g.Ops()|]; }
    }
  }

  /** What emitting a statement must achieve: only the block it ends in may be unfinished, and jumps go to blocks of its
      own or to the targets of the enclosing loop. */
  ghost predicate Emitted(g: Gen, g': Gen) {
    && Grown(g, g', {g'.cur}, Exits(g.loops) + Live(g, g'))
    && (Open(g') || g'.Terminated())
    && g'.loops == g.loops
  }

  lemma {:induction false} EmittedThen(g: Gen, g1: Gen, g2: Gen)
    requires Emitted(g, g1) && Open(g1) && Emitted(g1, g2)
    ensures Emitted(g, g2)
  {
    Chain(g, g1, {g1.cur}, Exits(g.loops) + Live(g, g1), g1.cur, g1.loops, g2, {g2.cur}, Exits(g.loops) + Live(g1, g2));
    Widen(g, g2, {g1.cur} - {g1.cur} + {g2.cur}, Exits(g.loops) + Live(g, g1) + (Exits(g.loops) + Live(g1, g2)),
          Exits(g.loops) + Live(g, g2));
    assert {g1.cur} - {g1.cur} + {g2.cur} == {g2.cur};
  }

  /** A branch out of the current block together with the blocks it makes room for. */
  lemma {:induction false} BranchOut(g: Gen, n: nat, op: Op)
    requires Open(g) && IsTerminator(op)
    ensures var g' := g.NewBlocks(n).Append([op]);
            && Grown(g, g', New(g, n), Targets(op)) && Live(g, g') == New(g, n)
            && forall b :: b in New(g, n) ==> Fresh(g', b)
  {
    var g1 := g.NewBlocks(n);
    assert Open(g1) by { assert g1.Ops() == g.Ops(); }
    Closed(g1, [], op, g1.frame);
    assert [] + [op] == [op] && g1.With([op], g1.frame) == g1.Append([op]);
    var g' := g1.Append([op]);
    assert forall b :: |g.blocks| <= b < |g'.blocks| ==> g'.blocks[b] == Block([], false);
    assert BlockOk(g'.blocks[g.cur], false, Targets(op));
  }

  /** The n blocks that come after g's. */
  function New(g: Gen, n: nat): (s: set<nat>)
    ensures forall b :: b in s <==> |g.blocks| <= b < |g.blocks| + n
  {
    if n == 0 then {} else New(g, n - 1) + {|g.blocks| + n - 1}
  }

  /** Ending a block that control may fall out of with a branch to target. */
  lemma {:induction false} BranchIfOpenCfg(g: Gen, g': Gen, target: nat)
    requires Emitted(g, g')
    ensures var g2, ts := BranchIfOpen(g', target), Exits(g.loops) + Live(g, g');
            && Grown(g, g2, {}, if g'.Terminated() then ts else ts + {target})
            && Live(g, g2) == Live(g, g') && g2.cur == g'.cur && !g2.blocks[g2.cur].erased && g2.Terminated()
  {
    var ts := Exits(g.loops) + Live(g, g');
    assert BlockOk(g'.blocks[g'.cur], true, ts);
    if g'.Terminated() {
      assert BlockOk(g'.blocks[g'.cur], false, ts);
    } else {
      Closed(g', [], Branch(target), g'.frame);
      assert [] + [Branch(target)] == [Branch(target)] &&
             g'.With([Branch(target)], g'.frame) == g'.Append([Branch(target)]);
      Chain(g, g', {g'.cur}, ts, g'.cur, g'.loops, g'.Append([Branch(target)]), {}, {target});
      assert {g'.cur} - {g'.cur} + {} == {};
    }
  }

  /** Removing a merge block that nothing branches to. */
  lemma {:induction false} EraseCfg(g: Gen, g': Gen, open: set<nat>, ts: set<nat>, m: nat)
    requires Grown(g, g', open, ts) && |g.blocks| <= m < |g'.blocks| && m !in ts
    ensures Grown(g, g'.Erase(m), open - {m}, ts) && Live(g, g'.Erase(m)) == Live(g, g') - {m}
  {
    var g2 := g'.Erase(m);
    forall b | 0 <= b < |g2.blocks| && (b == g.cur || |g.blocks| <= b)
      ensures BlockOk(g2.blocks[b], b in open - {m}, ts)
    {
      assert BlockOk(g'.blocks[b], b in open, ts);
    }
  }

  // ----- statements -----

  /** Emission can start at g inside a function whose loop targets exist. */
  ghost predicate Startable(env: Env, g: Gen) {
    && GenOk(env, g) && Open(g)
    && forall t :: t in Exits(g.loops) ==> t < |g.blocks|
  }

  lemma {:induction false} AppendedEmitted(g: Gen, ops: seq<Op>, f: Frame)
    requires Open(g) && NoTerminators(ops)
    ensures Emitted(g, g.With(ops, f)) && Open(g.With(ops, f))
  {
    Appended(g, ops, f);
    Widen(g, g.With(ops, f), {g.cur}, {}, Exits(g.loops) + Live(g, g.With(ops, f)));
  }

  lemma {:induction false} ClosedEmitted(g: Gen, ops: seq<Op>, op: Op, f: Frame)
    requires Open(g) && NoTerminators(ops) && IsTerminator(op) && Targets(op) <= Exits(g.loops)
    ensures Emitted(g, g.With(ops + [op], f))
  {
    Closed(g, ops, op, f);
    Widen(g, g.With(ops + [op], f), {g.cur}, Targets(op), Exits(g.loops) + Live(g, g.With(ops + [op], f)));
  }

  lemma {:induction false} AppendedOne(g: Gen, op: Op)
    ensures g.Append([op]) == g.With([] + [op], g.frame)
  {
    assert [] + [op] == [op];
  }

  lemma {:induction false} VarCfg(env: Env, g: Gen, d: Decl, init: Option<Expr>)
    requires GenOk(env, g) && Open(g) && EmitVar(env, g, d, init).Some?
    ensures Emitted(g, EmitVar(env, g, d, init).value) && Open(EmitVar(env, g, d, init).value)
  {
    var t := LowerType(env.ctx.target, d.ty).value;
    var f := LocalFrame(g.frame, d, t);
    LocalFrameOk(env, g.frame, d, t);
    var n := g.frame.Next();
    if init.None? {
      AppendedEmitted(g, [Alloca(n, t)], f);
    } else {
      ExprShape(env, f, init.value);
      var code := EmitExpr(env, f, init.value);
      AppendedEmitted(g, [Alloca(n, t)] + code.ops + [StoreOp(code.value, n)], code.frame);
    }
  }

  lemma {:induction false} ExprStmtCfg(env: Env, g: Gen, e: Expr)
    requires GenOk(env, g) && Open(g) && EmitExprStmt(env, g, e).Some?
    ensures Emitted(g, EmitExprStmt(env, g, e).value) && Open(EmitExprStmt(env, g, e).value)
  {
    hide FrameOk;
    if e.Call? {
      CallShape(env, g.frame, e);
      var code := EmitCall(env, g.frame, e);
      AppendedEmitted(g, code.ops, code.frame);
    } else {
      ExprShape(env, g.frame, e);
      var code := EmitExpr(env, g.frame, e);
      AppendedEmitted(g, code.ops, code.frame);
    }
  }

  lemma {:induction false} ReturnCfg(env: Env, g: Gen, value: Option<Expr>)
    requires GenOk(env, g) && Open(g) && EmitReturn(env, g, value).Some?
    ensures Emitted(g, EmitReturn(env, g, value).value)
  {
    hide FrameOk;
    if value.None? {
      AppendedOne(g, ReturnOp(None));
      ClosedEmitted(g, [], ReturnOp(None), g.frame);
    } else {
      ExprShape(env, g.frame, value.value);
      var code := EmitExpr(env, g.frame, value.value);
      ClosedEmitted(g, code.ops, ReturnOp(Some(code.value)), code.frame);
    }
  }

  lemma {:induction false} ParametersCfg(env: Env, g: Gen)
    requires GenOk(env, g) && Open(g)
    ensures Emitted(g, MaterializeParameters(env, g)) && Open(MaterializeParameters(env, g))
    ensures |MaterializeParameters(env, g).blocks| == |g.blocks| && MaterializeParameters(env, g).cur == g.cur
  {
    hide FrameOk;
    MaterializeAllShape(env, g.frame, env.order);
    var (f, ops) := MaterializeAll(env, g.frame, env.order);
    AppendedEmitted(g, ops, f);
  }

  lemma {:induction false} ItemsCfg(env: Env, g: Gen, items: seq<Stmt>, ret: CType, scope: set<Decl>, depth: nat)
    requires Startable(env, g) && CheckedItems(env.ctx, ret, scope, depth, items) && EmitItems(env, g, items).Some?
    ensures Emitted(g, EmitItems(env, g, items).value)
    decreases items
  {
    hide FrameOk, Grown, BlockOk, SlotsKeptOn;
    if items == [] {
      AppendedEmitted(g, [], g.frame);
      WithNothing(g);
    } else {
      ItemCfg(env, g, items[0], ret, scope, depth);
      ItemShape(env, g, items[0], ret, scope, depth);
      var g1 := EmitItem(env, g, items[0]).value;
      if Open(g1) {
        assert !g1.Terminated();
        ItemsCfg(env, g1, items[1..], ret, ScopeAfter(scope, items[0]), depth);
        EmittedThen(g, g1, EmitItems(env, g1, items[1..]).value);
      }
    }
  }

  lemma {:induction false} ItemCfg(env: Env, g: Gen, stmt: Stmt, ret: CType, scope: set<Decl>, depth: nat)
    requires Startable(env, g) && CheckedStmt(env.ctx, ret, scope, depth, stmt) && EmitItem(env, g, stmt).Some?
    ensures Emitted(g, EmitItem(env, g, stmt).value)
    decreases stmt, 2
  {
    hide FrameOk, Grown, BlockOk, SlotsKeptOn;
    match stmt
    case VarDecl(d, init) => VarCfg(env, g, d, init);
    case TypedefDecl => AppendedEmitted(g, [], g.frame); WithNothing(g);
    case Compound(items) => ItemsCfg(env, g, items, ret, scope, depth);
    case ExprStmt(e) =>
      if e.Some? {
        ExprStmtCfg(env, g, e.value);
      } else {
        AppendedEmitted(g, [], g.frame);
        WithNothing(g);
      }
    case If(_, _, _) => IfCfg(env, g, stmt, ret, scope, depth);
    case While(_, _) => WhileCfg(env, g, stmt, ret, scope, depth);
    case For(_, _, _, _) => ForCfg(env, g, stmt, ret, scope, depth);
    case Break => JumpCfg(g, g.loops[|g.loops| - 1].breakTarget);
    case Continue => JumpCfg(g, g.loops[|g.loops| - 1].continueTarget);
    case Return(value) => ReturnCfg(env, g, value);
  }

  lemma {:induction false} JumpCfg(g: Gen, target: nat)
    requires Open(g) && target in Exits(g.loops)
    ensures Emitted(g, g.Append([Branch(target)]))
  {
    AppendedOne(g, Branch(target));
    ClosedEmitted(g, [], Branch(target), g.frame);
  }

  /** After the head of an if: its blocks are there, empty, and only the first two have been branched to. */
  lemma {:induction false} IfHeadCfg(env: Env, g: Gen, cond: Expr, n: nat)
    requires Startable(env, g) && (n == 2 || n == 3) && EmitIfHead(env, g, cond, n == 3).Some?
    ensures var g1, b := EmitIfHead(env, g, cond, n == 3).value, |g.blocks|;
            && Grown(g, g1, New(g, n), {b, b + 1}) && Live(g, g1) == New(g, n) && |g1.blocks| == b + n
            && g1.loops == g.loops && forall k :: k in New(g, n) ==> Fresh(g1, k)
  {
    hide FrameOk, Grown;
    var (f0, ops0) := MaterializeAll(env, g.frame, env.order);
    MaterializeAllShape(env, g.frame, env.order);
    var code := EmitCondition(env, f0, cond);
    ConditionShape(env, f0, cond);
    WithWith(g, ops0, f0, code.ops, code.frame);
    BranchFrom(g, ops0 + code.ops, code.frame, n, CondBranch(code.value, |g.blocks|, |g.blocks| + 1));
  }

  lemma {:induction false} BranchFrom(g: Gen, ops: seq<Op>, f: Frame, n: nat, op: Op)
    requires Open(g) && NoTerminators(ops) && IsTerminator(op)
    ensures var g2 := g.With(ops, f).NewBlocks(n).Append([op]);
            && Grown(g, g2, New(g, n), Targets(op)) && Live(g, g2) == New(g, n) && |g2.blocks| == |g.blocks| + n
            && g2.loops == g.loops && forall k :: k in New(g, n) ==> Fresh(g2, k)
  {
    hide Grown;
    var g1 := g.With(ops, f);
    var g2 := g1.NewBlocks(n).Append([op]);
    Appended(g, ops, f);
    BranchOut(g1, n, op);
    assert New(g1, n) == New(g, n) && Live(g, g2) == Live(g1, g2);
    Chain(g, g1, {g.cur}, {}, g.cur, g1.loops, g2, New(g, n), Targets(op));
    assert {g.cur} - {g.cur} + New(g, n) == New(g, n) && {} + Targets(op) == Targets(op);
  }

  /** One arm: its block is finished, and the merge block is branched to only if the arm continues. */
  lemma {:induction false} ArmCfg(env: Env, g: Gen, g1: Gen, b: nat, stmt: Stmt, merge: nat, ret: CType,
                                  scope: set<Decl>, depth: nat)
    requires Startable(env, g) && Later(env, scope, g, g1) && |g.blocks| <= b && Fresh(g1, b)
    requires CheckedStmt(env.ctx, ret, scope, depth, stmt) && EmitArm(env, g1, b, stmt, merge).Some?
    ensures var arm := EmitArm(env, g1, b, stmt, merge).value;
            && Grown(g1.At(b), arm.gen, {}, Exits(g.loops) + Live(g1, arm.gen) + if arm.continues then {merge} else {})
            && arm.gen.cur < |arm.gen.blocks| && arm.gen.Terminated() && !arm.gen.blocks[arm.gen.cur].erased
            && (arm.gen.cur == b || |g1.blocks| <= arm.gen.cur)
    decreases stmt, 3
  {
    hide FrameOk, Grown, SlotsKeptOn;
    ItemCfg(env, g1.At(b), stmt, ret, scope, depth);
    ItemShape(env, g1.At(b), stmt, ret, scope, depth);
    var g2 := EmitItem(env, g1.At(b), stmt).value;
    BranchIfOpenCfg(g1.At(b), g2, merge);
    var g3 := BranchIfOpen(g2, merge);
    assert Live(g1.At(b), g3) == Live(g1, g3) && Live(g1.At(b), g2) == Live(g1, g2);
    assert !g2.Terminated() || Exits(g.loops) + Live(g1, g3) + {} == Exits(g.loops) + Live(g1, g3);
  }

  lemma {:induction false} IfCfg(env: Env, g: Gen, stmt: Stmt, ret: CType, scope: set<Decl>, depth: nat)
    requires Startable(env, g) && stmt.If? && CheckedStmt(env.ctx, ret, scope, depth, stmt)
    requires EmitIf(env, g, stmt).Some?
    ensures Emitted(g, EmitIf(env, g, stmt).value)
    decreases stmt, 1
  {
    hide FrameOk, Grown, SlotsKeptOn;
    IfHeadShape(env, g, stmt.cond, stmt.els.Some?, scope);
    IfHeadCfg(env, g, stmt.cond, if stmt.els.Some? then 3 else 2);
    var g1 := EmitIfHead(env, g, stmt.cond, stmt.els.Some?).value;
    if stmt.els.None? {
      ThenCfg(env, g, g1, stmt.thn, ret, scope, depth);
    } else {
      ThenElseCfg(env, g, g1, stmt, ret, scope, depth);
    }
  }

  lemma {:induction false} ThenCfg(env: Env, g: Gen, g1: Gen, thn: Stmt, ret: CType, scope: set<Decl>, depth: nat)
    requires Startable(env, g) && Later(env, scope, g, g1) && |g1.blocks| == |g.blocks| + 2
    requires Grown(g, g1, New(g, 2), {|g.blocks|, |g.blocks| + 1}) && Live(g, g1) == New(g, 2)
    requires forall k :: k in New(g, 2) ==> Fresh(g1, k)
    requires CheckedStmt(env.ctx, ret, scope, depth, thn) && EmitThen(env, g1, |g.blocks|, thn).Some?
    ensures Emitted(g, EmitThen(env, g1, |g.blocks|, thn).value)
    decreases thn, 4
  {
    hide FrameOk, Grown, SlotsKeptOn, EmitArm, EmitItem, EmitExpr, CheckedStmt;
    var b := |g.blocks|;
    var arm := EmitArm(env, g1, b, thn, b + 1).value;
    ArmShape(env, g, g1, b, thn, b + 1, ret, scope, depth);
    ArmCfg(env, g, g1, b, thn, b + 1, ret, scope, depth);
    var ts := Exits(g.loops) + Live(g1, arm.gen) + if arm.continues then {b + 1} else {};
    Chain(g, g1, New(g, 2), {b, b + 1}, b, g1.loops, arm.gen, {}, ts);
    Rejoin(g, g1, arm.gen, b, {b, b + 1} + ts);
  }

  /** Moving on to the merge block. */
  lemma {:induction false} Rejoin(g: Gen, g1: Gen, g2: Gen, b: nat, ts: set<nat>)
    requires b == |g.blocks| && Grown(g, g2, New(g, 2) - {b} + {}, ts) && Live(g, g1) == New(g, 2)
    requires Live(g, g1) <= Live(g, g2) && Live(g1, g2) <= Live(g, g2)
    requires ts <= Exits(g.loops) + Live(g1, g2) + {b, b + 1}
    requires g2.loops == g.loops && Fresh(g2, b + 1)
    ensures Emitted(g, g2.At(b + 1))
  {
    Widen(g, g2, New(g, 2) - {b} + {}, ts, Exits(g.loops) + Live(g, g2));
    assert New(g, 2) - {b} + {} == {b + 1};
    assert Live(g, g2.At(b + 1)) == Live(g, g2);
  }


  lemma {:induction false} ThenElseCfg(env: Env, g: Gen, g1: Gen, stmt: Stmt, ret: CType, scope: set<Decl>, depth: nat)
    requires Startable(env, g) && Later(env, scope, g, g1) && |g1.blocks| == |g.blocks| + 3
    requires Grown(g, g1, New(g, 3), {|g.blocks|, |g.blocks| + 1}) && Live(g, g1) == New(g, 3)
    requires forall k :: k in New(g, 3) ==> Fresh(g1, k)
    requires stmt.If? && stmt.els.Some? && EmitThenElse(env, g1, |g.blocks|, stmt).Some?
    requires CheckedStmt(env.ctx, ret, scope, depth, stmt.thn)
    requires CheckedStmt(env.ctx, ret, scope, depth, stmt.els.value)
    ensures Emitted(g, EmitThenElse(env, g1, |g.blocks|, stmt).value)
    decreases stmt, 0
  {
    hide FrameOk, Grown, SlotsKeptOn, EmitArm, EmitItem, EmitExpr, CheckedStmt;
    var b := |g.blocks|;
    var arm := EmitArm(env, g1, b, stmt.thn, b + 2).value;
    ArmShape(env, g, g1, b, stmt.thn, b + 2, ret, scope, depth);
    ArmCfg(env, g, g1, b, stmt.thn, b + 2, ret, scope, depth);
    var ts := Exits(g.loops) + Live(g1, arm.gen) + if arm.continues then {b + 2} else {};
    Chain(g, g1, New(g, 3), {b, b + 1}, b, g1.loops, arm.gen, {}, ts);
    ElseCfg(env, g, g1, arm, stmt, {b, b + 1} + ts, ret, scope, depth);
  }

  lemma {:induction false} ElseCfg(env: Env, g: Gen, g1: Gen, arm: Arm, stmt: Stmt, ts: set<nat>, ret: CType,
                                   scope: set<Decl>, depth: nat)
    requires Startable(env, g) && stmt.If? && stmt.els.Some?
    requires EmitArm(env, g1, |g.blocks|, stmt.thn, |g.blocks| + 2) == Some(arm)
    requires EmitThenElse(env, g1, |g.blocks|, stmt).Some? && CheckedStmt(env.ctx, ret, scope, depth, stmt.els.value)
    requires Later(env, scope, g, arm.gen) && |g.blocks| + 3 == |g1.blocks| <= |arm.gen.blocks|
    requires Grown(g, arm.gen, New(g, 3) - {|g.blocks|} + {}, ts)
    requires Live(g, g1) == New(g, 3) && Live(g, g1) <= Live(g, arm.gen) && Live(g1, arm.gen) <= Live(g, arm.gen)
    requires ts == {|g.blocks|, |g.blocks| + 1}
                 + (Exits(g.loops) + Live(g1, arm.gen) + if arm.continues then {|g.blocks| + 2} else {})
    requires Fresh(arm.gen, |g.blocks| + 1) && Fresh(arm.gen, |g.blocks| + 2)
    ensures Emitted(g, EmitThenElse(env, g1, |g.blocks|, stmt).value)
    decreases stmt.els.value, 4
  {
    hide FrameOk, Grown, SlotsKeptOn, EmitArm, EmitItem, EmitExpr, CheckedStmt;
    var b := |g.blocks|;
    var g2 := arm.gen;
    var other := EmitArm(env, g2, b + 1, stmt.els.value, b + 2).value;
    ArmShape(env, g, g2, b + 1, stmt.els.value, b + 2, ret, scope, depth);
    ArmCfg(env, g, g2, b + 1, stmt.els.value, b + 2, ret, scope, depth);
    var ts2 := Exits(g.loops) + Live(g2, other.gen) + if other.continues then {b + 2} else {};
    Chain(g, g2, New(g, 3) - {b} + {}, ts, b + 1, g2.loops, other.gen, {}, ts2);
    assert New(g, 3) - {b} + {} - {b + 1} + {} == {b + 2};
    Merge(g, other.gen, b, ts + ts2, arm.continues || other.continues);
  }

  /** Both arms are done: the merge block is the one still open, or goes away. */
  lemma {:induction false} Merge(g: Gen, g2: Gen, b: nat, ts: set<nat>, reached: bool)
    requires b == |g.blocks| && Grown(g, g2, {b + 2}, ts) && Fresh(g2, b + 2) && g2.loops == g.loops
    requires forall t :: t in Exits(g.loops) ==> t < b
    requires {b, b + 1, b + 2} <= Live(g, g2) && ts <= Exits(g.loops) + Live(g, g2)
    requires reached || b + 2 !in ts
    requires g2.cur != b + 2 && b <= g2.cur < |g2.blocks| && g2.Terminated() && !g2.blocks[g2.cur].erased
    ensures Emitted(g, if reached then g2.At(b + 2) else g2.Erase(b + 2))
  {
    hide BlockOk;
    if reached {
      Widen(g, g2, {b + 2}, ts, Exits(g.loops) + Live(g, g2));
      assert Live(g, g2.At(b + 2)) == Live(g, g2);
    } else {
      var g3 := g2.Erase(b + 2);
      EraseCfg(g, g2, {b + 2}, ts, b + 2);
      Widen(g, g3, {b + 2} - {b + 2}, ts, Exits(g.loops) + Live(g, g3));
      Reopen(g, g3, Exits(g.loops) + Live(g, g3));
    }
  }

  /** A finished block may also be counted as open. */
  lemma {:induction false} Reopen(g: Gen, g': Gen, ts: set<nat>)
    requires Grown(g, g', {}, ts) && (g'.cur == g.cur || |g.blocks| <= g'.cur) && g'.cur < |g'.blocks|
    requires !g'.blocks[g'.cur].erased
    ensures Grown(g, g', {g'.cur}, ts)
  {
    forall b | 0 <= b < |g'.blocks| && (b == g.cur || |g.blocks| <= b)
      ensures BlockOk(g'.blocks[b], b == g'.cur, ts)
    {
      assert BlockOk(g'.blocks[b], false, ts);
    }
  }

  // ----- loops -----

  lemma {:induction false} TestCfg(env: Env, g: Gen, test: Option<Expr>, bodyBlock: nat, exitBlock: nat)
    requires GenOk(env, g) && Open(g) && EmitTest(env, g, test, bodyBlock, exitBlock).Some?
    ensures Grown(g, EmitTest(env, g, test, bodyBlock, exitBlock).value, {}, {bodyBlock, exitBlock})
  {
    hide FrameOk, Grown;
    if test.None? {
      AppendedOne(g, Branch(bodyBlock));
      Closed(g, [], Branch(bodyBlock), g.frame);
      Widen(g, g.Append([Branch(bodyBlock)]), {}, {bodyBlock}, {bodyBlock, exitBlock});
    } else {
      ConditionShape(env, g.frame, test.value);
      var code := EmitCondition(env, g.frame, test.value);
      Closed(g, code.ops, CondBranch(code.value, bodyBlock, exitBlock), code.frame);
    }
  }

  /** A loop's body, which may jump to the loop's targets and falls through to the next iteration. */
  lemma {:induction false} BodyCfg(env: Env, g: Gen, body: Stmt, t: LoopTargets, ret: CType, inner: set<Decl>,
                                   depth: nat)
    requires Startable(env, g) && Exits(g.loops) == {t.breakTarget, t.continueTarget}
    requires CheckedStmt(env.ctx, ret, inner, depth, body) && EmitItem(env, g, body).Some?
    ensures var g4 := BranchIfOpen(EmitItem(env, g, body).value.Leave(), t.continueTarget);
            Grown(g, g4, {}, {t.breakTarget, t.continueTarget} + Live(g, g4))
    decreases body, 3
  {
    hide FrameOk, Grown, SlotsKeptOn, EmitItem, EmitExpr, CheckedStmt;
    ItemCfg(env, g, body, ret, inner, depth);
    var g3 := EmitItem(env, g, body).value;
    BranchIfOpenCfg(g, g3, t.continueTarget);
    var g4, g5 := BranchIfOpen(g3.Leave(), t.continueTarget), BranchIfOpen(g3, t.continueTarget);
    assert g4.blocks == g5.blocks && Live(g, g4) == Live(g, g5);
    var ts := {t.breakTarget, t.continueTarget} + Live(g, g3);
    assert ts + {t.continueTarget} == ts;
    SameBlocks(g, g5, g4, {}, ts);
  }

  lemma {:induction false} SameBlocks(g: Gen, g1: Gen, g2: Gen, open: set<nat>, ts: set<nat>)
    requires Grown(g, g1, open, ts) && g2.blocks == g1.blocks
    ensures Grown(g, g2, open, ts)
  {
  }

  /** The condition and body blocks of a loop are finished; its other blocks wait. */
  lemma {:induction false} LoopCfg(env: Env, g: Gen, g1: Gen, open: set<nat>, ts: set<nat>, test: Option<Expr>,
                                   body: Stmt, bodyBlock: nat, t: LoopTargets, ret: CType, inner: set<Decl>, depth: nat)
    requires GenOk(env, g1) && Grown(g, g1, open, ts) && {g1.cur, bodyBlock} <= open && g1.cur != bodyBlock
    requires Fresh(g1, g1.cur) && Fresh(g1, bodyBlock) && t.breakTarget < |g1.blocks| && t.continueTarget < |g1.blocks|
    requires CheckedOption(env.ctx, inner, test) && CheckedStmt(env.ctx, ret, inner, depth + 1, body)
    requires EmitLoop(env, g1, test, body, bodyBlock, t).Some?
    ensures var g4 := EmitLoop(env, g1, test, body, bodyBlock, t).value;
            && Grown(g, g4, open - {g1.cur} - {bodyBlock},
                     ts + {bodyBlock, t.breakTarget} + ({t.breakTarget, t.continueTarget} + Live(g1, g4)))
            && Live(g, g1) <= Live(g, g4) && Live(g1, g4) <= Live(g, g4)
    decreases body, 4
  {
    hide FrameOk, Grown, SlotsKeptOn, EmitItem, EmitExpr, CheckedStmt;
    TestCfg(env, g1, test, bodyBlock, t.breakTarget);
    TestShape(env, g1, test, bodyBlock, t.breakTarget, inner);
    var g2 := EmitTest(env, g1, test, bodyBlock, t.breakTarget).value;
    Chain(g, g1, open, ts, g1.cur, g1.loops, g2, {}, {bodyBlock, t.breakTarget});
    var gB := g2.At(bodyBlock).Enter(t);
    BodyCfg(env, gB, body, t, ret, inner, depth + 1);
    var g4 := EmitLoop(env, g1, test, body, bodyBlock, t).value;
    Chain(g, g2, open - {g1.cur} + {}, ts + {bodyBlock, t.breakTarget}, bodyBlock, gB.loops, g4, {},
          {t.breakTarget, t.continueTarget} + Live(gB, g4));
    assert Live(gB, g4) == Live(g1, g4);
    assert open - {g1.cur} + {} - {bodyBlock} + {} == open - {g1.cur} - {bodyBlock};
  }

  lemma {:induction false} LoopEntryCfg(g: Gen, n: nat)
    requires Open(g) && n > 0
    ensures var g1 := LoopEntry(g, n);
            && Grown(g, g1, New(g, n), {|g.blocks|}) && Live(g, g1) == New(g, n)
            && forall b :: b in New(g, n) ==> Fresh(g1, b)
  {
    BranchOut(g, n, Branch(|g.blocks|));
    SameBlocks(g, g.NewBlocks(n).Append([Branch(|g.blocks|)]), LoopEntry(g, n), New(g, n), {|g.blocks|});
  }

  lemma {:induction false} WhileCfg(env: Env, g: Gen, stmt: Stmt, ret: CType, scope: set<Decl>, depth: nat)
    requires Startable(env, g) && stmt.While? && CheckedStmt(env.ctx, ret, scope, depth, stmt)
    requires EmitWhile(env, g, stmt).Some?
    ensures Emitted(g, EmitWhile(env, g, stmt).value)
    decreases stmt, 1
  {
    hide FrameOk, Grown, SlotsKeptOn, EmitItem, EmitExpr, EmitLoop, LoopEntry;
    var g0 := MaterializeParameters(env, g);
    ParametersCfg(env, g);
    ParametersLater(env, {}, g);
    var b := |g0.blocks|;
    var g2 := EmitLoop(env, LoopEntry(g0, 3), Some(stmt.cond), stmt.body, b + 1, LoopTargets(b + 2, b)).value;
    WhileLoopCfg(env, g0, g2, stmt.cond, stmt.body, ret, scope, depth);
    EmittedThen(g, g0, EmitWhile(env, g, stmt).value);
  }

  lemma {:induction false} WhileLoopCfg(env: Env, g: Gen, g2: Gen, cond: Expr, body: Stmt, ret: CType, scope: set<Decl>,
                                        depth: nat)
    requires Startable(env, g) && Checked(env.ctx, scope, cond) && CheckedStmt(env.ctx, ret, scope, depth + 1, body)
    requires EmitLoop(env, LoopEntry(g, 3), Some(cond), body, |g.blocks| + 1, LoopTargets(|g.blocks| + 2, |g.blocks|))
        == Some(g2)
    ensures Emitted(g, g2.At(|g.blocks| + 2))
    decreases body, 6
  {
    hide FrameOk, Grown, BlockOk, SlotsKeptOn, EmitItem, EmitExpr, CheckedStmt, EmitLoop, LoopEntry;
    var b, t := |g.blocks|, LoopTargets(|g.blocks| + 2, |g.blocks|);
    LoopBlocks(env, g, 3, Some(cond), body, t, ret, scope, depth);
    assert New(g, 3) - {b} - {b + 1} == {b + 2} && Live(g, g2.At(b + 2)) == Live(g, g2) && Fresh(g2, b + 2);
    SameBlocks(g, g2, g2.At(b + 2), {b + 2}, Exits(g.loops) + Live(g, g2));
  }

  /** A loop from its entry to the end of its body: only the blocks after the body block are left to fill. */
  lemma {:induction false} LoopBlocks(env: Env, g: Gen, n: nat, test: Option<Expr>, body: Stmt, t: LoopTargets,
                                      ret: CType, inner: set<Decl>, depth: nat)
    requires Startable(env, g) && n >= 3 && {t.breakTarget, t.continueTarget} <= New(g, n)
    requires CheckedOption(env.ctx, inner, test) && CheckedStmt(env.ctx, ret, inner, depth + 1, body)
    requires EmitLoop(env, LoopEntry(g, n), test, body, |g.blocks| + 1, t).Some?
    ensures var b, g4 := |g.blocks|, EmitLoop(env, LoopEntry(g, n), test, body, |g.blocks| + 1, t).value;
            && Grown(g, g4, New(g, n) - {b} - {b + 1}, Exits(g.loops) + Live(g, g4)) && New(g, n) <= Live(g, g4)
            && g4.loops == g.loops && GenOk(env, g4) && b + n <= |g4.blocks|
            && forall k :: b + 2 <= k < b + n ==> Fresh(g4, k)
    decreases body, 5
  {
    hide FrameOk, Grown, SlotsKeptOn, EmitItem, EmitExpr, CheckedStmt, EmitTest, EmitLoop, LoopEntry, BlockOk;
    var b, g1 := |g.blocks|, LoopEntry(g, n);
    LoopEntryCfg(g, n);
    LoopEntryLater(env, inner, g, n);
    assert Fresh(g1, b) && Fresh(g1, b + 1);
    LoopCfg(env, g, g1, New(g, n), {b}, test, body, b + 1, t, ret, inner, depth);
    LoopShape(env, g, g1, test, body, b + 1, t, ret, inner, inner, depth);
    var g4 := EmitLoop(env, g1, test, body, b + 1, t).value;
    Widen(g, g4, New(g, n) - {b} - {b + 1},
          {b} + {b + 1, t.breakTarget} + ({t.breakTarget, t.continueTarget} + Live(g1, g4)),
          Exits(g.loops) + Live(g, g4));
    forall k | b + 2 <= k < b + n ensures Fresh(g4, k) { assert Fresh(g1, k); }
  }

  lemma {:induction false} ForCfg(env: Env, g: Gen, stmt: Stmt, ret: CType, scope: set<Decl>, depth: nat)
    requires Startable(env, g) && stmt.For? && CheckedStmt(env.ctx, ret, scope, depth, stmt)
    requires EmitFor(env, g, stmt).Some?
    ensures Emitted(g, EmitFor(env, g, stmt).value)
    decreases stmt, 1
  {
    hide FrameOk, Grown, SlotsKeptOn, EmitExpr;
    var gM := MaterializeParameters(env, g);
    ParametersCfg(env, g);
    ParametersLater(env, {}, g);
    if stmt.start.Some? {
      ItemCfg(env, gM, stmt.start.value, ret, scope, depth);
      ItemShape(env, gM, stmt.start.value, ret, scope, depth);
      var g0 := EmitItem(env, gM, stmt.start.value).value;
      StartOpen(env, gM, stmt.start.value);
      EmittedThen(g, gM, g0);
      ForLoopCfg(env, g0, stmt.test, stmt.incr, stmt.body, ret, ScopeAfter(scope, stmt.start.value), depth);
      EmittedThen(g, g0, EmitFor(env, g, stmt).value);
    } else {
      ForLoopCfg(env, gM, stmt.test, stmt.incr, stmt.body, ret, scope, depth);
      EmittedThen(g, gM, EmitFor(env, g, stmt).value);
    }
  }

  /** An initializer cannot end the block. */
  lemma {:induction false} StartOpen(env: Env, g: Gen, start: Stmt)
    requires GenOk(env, g) && Open(g) && (start.VarDecl? || start.ExprStmt?) && EmitItem(env, g, start).Some?
    ensures Open(EmitItem(env, g, start).value)
  {
    match start
    case VarDecl(d, init) => VarCfg(env, g, d, init);
    case ExprStmt(e) => if e.Some? { ExprStmtCfg(env, g, e.value); }
  }

  lemma {:induction false} ForLoopCfg(env: Env, g: Gen, test: Option<Expr>, incr: Option<Expr>, body: Stmt, ret: CType,
                                      inner: set<Decl>, depth: nat)
    requires Startable(env, g) && CheckedOption(env.ctx, inner, test)
    requires CheckedStmt(env.ctx, ret, inner, depth + 1, body)
    requires EmitForLoop(env, g, test, incr, body).Some?
    ensures Emitted(g, EmitForLoop(env, g, test, incr, body).value)
    decreases body, 6
  {
    hide FrameOk, Grown, SlotsKeptOn, EmitItem, EmitExpr, CheckedStmt, EmitTest, EmitLoop, LoopEntry, BlockOk, EmitStep;
    var b, t := |g.blocks|, LoopTargets(|g.blocks| + 3, |g.blocks| + 2);
    ForLoopParts(env, g, test, incr, body);
    LoopBlocks(env, g, 4, test, body, t, ret, inner, depth);
    var g2 := EmitLoop(env, LoopEntry(g, 4), test, body, b + 1, t).value;
    assert Fresh(g2, b + 2) && Fresh(g2, b + 3);
    StepCfg(env, g2.At(b + 2), incr, b);
    var g4 := EmitStep(env, g2.At(b + 2), incr).value.Append([Branch(b)]);
    Chain(g, g2, New(g, 4) - {b} - {b + 1}, Exits(g.loops) + Live(g, g2), b + 2, g2.loops, g4, {}, {b});
    Widen(g, g4, New(g, 4) - {b} - {b + 1} - {b + 2} + {}, Exits(g.loops) + Live(g, g2) + {b},
          Exits(g.loops) + Live(g, g4));
    assert New(g, 4) - {b} - {b + 1} - {b + 2} + {} == {b + 3} && Live(g, g4.At(b + 3)) == Live(g, g4);
    SameBlocks(g, g4, g4.At(b + 3), {b + 3}, Exits(g.loops) + Live(g, g4));
  }

  lemma {:induction false} StepCfg(env: Env, g: Gen, incr: Option<Expr>, target: nat)
    requires GenOk(env, g) && Open(g) && EmitStep(env, g, incr).Some?
    ensures var g2 := EmitStep(env, g, incr).value.Append([Branch(target)]);
            && Grown(g, g2, {}, {target}) && g2.loops == g.loops && |g2.blocks| == |g.blocks|
            && forall k :: 0 <= k < |g.blocks| && k != g.cur ==> g2.blocks[k] == g.blocks[k]
  {
    hide FrameOk, Grown;
    if incr.None? {
      AppendedOne(g, Branch(target));
      Closed(g, [], Branch(target), g.frame);
    } else if incr.value.Call? {
      CallShape(env, g.frame, incr.value);
      var code := EmitCall(env, g.frame, incr.value);
      WithWith(g, code.ops, code.frame, [Branch(target)], code.frame);
      Closed(g, code.ops, Branch(target), code.frame);
    } else {
      ExprShape(env, g.frame, incr.value);
      var code := EmitExpr(env, g.frame, incr.value);
      WithWith(g, code.ops, code.frame, [Branch(target)], code.frame);
      Closed(g, code.ops, Branch(target), code.frame);
    }
  }

  // ----- functions -----

  /** A complete control-flow graph. The entry block has no predecessors, as MLIR requires. */
  ghost predicate WellFormed(p: seq<Block>) {
    && p != [] && !p[0].erased
    && (forall b :: 0 <= b < |p| ==> if p[b].erased then p[b].ops == [] else Ended(p[b].ops))
    && (forall b, i :: 0 <= b < |p| && 0 <= i < |p[b].ops| - 1 ==> !IsTerminator(p[b].ops[i]))
    && (forall b, i, t :: 0 <= b < |p| && 0 <= i < |p[b].ops| && t in Targets(p[b].ops[i]) ==>
          0 < t < |p| && !p[t].erased)
  }

  /** Whatever a unit contains, the code generated for a definition in it is a complete control-flow graph. */
  lemma {:induction false} GeneratedWellFormed(ctx: Context, fn: Function, order: seq<Decl>)
    requires UnitOk(ctx, fn, order) && EmitFunction(ctx, fn, order).Some?
    ensures WellFormed(EmitFunction(ctx, fn, order).value)
  {
    hide FrameOk, Grown, EmitItems;
    var env, f := FunctionEnv(ctx, fn, order), EntryFrame(ctx.target, ctx.functions[fn.name].params).value;
    assert Declarable(ctx.target, ctx.functions[fn.name]);
    EntryFrameOk(ctx, fn, order, f);
    EntryValuesAt(fn.params);
    var g0, g1 := EntryGen(f), EmitBody(ctx, fn, order).value;
    ItemsCfg(env, g0, fn.body, fn.ret, ParamSet(fn.params), 0);
    var g2 := CloseBody(ctx, fn, g1).value;
    CloseCfg(ctx, fn, g0, g1);
    Complete(g0, g2);
  }

  lemma {:induction false} CloseCfg(ctx: Context, fn: Function, g: Gen, g1: Gen)
    requires ctx.target.Valid() && Emitted(g, g1) && g.loops == [] && CloseBody(ctx, fn, g1).Some?
    ensures var g2 := CloseBody(ctx, fn, g1).value; Grown(g, g2, {}, Live(g, g2))
  {
    hide Grown;
    OneClosed(g1.cur, {} + Live(g, g1), Live(g, g1));
    if g1.Terminated() {
      BranchIfOpenCfg(g, g1, 0);
    } else if fn.ret == Void {
      AppendedOne(g1, ReturnOp(None));
      AppendReturn(g, g1, [], ReturnOp(None), g1.frame);
    } else {
      var n := g1.frame.Next();
      var ops, op := [ConstantInt(n, Lowered(ctx.target, fn.ret).WidthOr(0), 0)], ReturnOp(Some(n));
      assert ops + [op] == [ops[0], op];
      AppendReturn(g, g1, ops, op, g1.frame);
    }
  }

  lemma {:induction false} AppendReturn(g: Gen, g1: Gen, ops: seq<Op>, op: Op, frame: Frame)
    requires Emitted(g, g1) && g.loops == [] && !g1.Terminated() && op.ReturnOp? && NoTerminators(ops)
    ensures Grown(g, g1.With(ops + [op], frame), {}, Live(g, g1.With(ops + [op], frame)))
  {
    hide Grown;
    var g2, ts := g1.With(ops + [op], frame), {} + Live(g, g1);
    Closed(g1, ops, op, frame);
    Chain(g, g1, {g1.cur}, ts, g1.cur, g1.loops, g2, {}, {});
    SameLive(g, g1, g2);
    OneClosed(g1.cur, ts, Live(g, g1));
  }

  lemma {:induction false} SameLive(g: Gen, g1: Gen, g2: Gen)
    requires |g1.blocks| == |g2.blocks|
    requires forall t :: |g.blocks| <= t < |g1.blocks| ==> g1.blocks[t].erased == g2.blocks[t].erased
    ensures Live(g, g1) == Live(g, g2)
  {
    forall t
      ensures t in Live(g, g1) <==> t in Live(g, g2)
    {
    }
  }

  lemma {:induction false} OneClosed(b: nat, ts: set<nat>, live: set<nat>)
    requires ts == {} + live
    ensures {b} - {b} + {} == {} && ts + {} == live && ts == live
  {}

  lemma {:induction false} Complete(g: Gen, g': Gen)
    requires Grown(g, g', {}, Live(g, g')) && |g.blocks| == 1 && g.cur == 0
    ensures WellFormed(g'.blocks)
  {
    forall b | 0 <= b < |g'.blocks|
      ensures BlockOk(g'.blocks[b], false, Live(g, g'))
    {
      assert b == g.cur || |g.blocks| <= b;
    }
  }
}
