/** Every value that generated code uses is defined before: earlier in the same block, or in a block that every path
    from the entry goes through. While code is emitted, each block carries a set of blocks that dominate it: those of
    the block that was current when it was created, and itself. */
module Dominance {
  import opened CAst
  import opened Wrappers
  import opened Ir
  import opened Lowering
  import opened ExprSimulation
  import opened Shape
  import opened Cfg
  import opened SsaForm

  // ----- straight-line code -----

  ghost predicate DefinedIn(ops: seq<Op>, x: nat) {
    exists j :: 0 <= j < |ops| && Defines(ops[j]) == Some(x)
  }

  lemma {:induction false} DefinedInLonger(a: seq<Op>, b: seq<Op>, x: nat)
    requires DefinedIn(a, x) || DefinedIn(b, x)
    ensures DefinedIn(a + b, x)
  {
    if DefinedIn(a, x) {
      var j :| 0 <= j < |a| && Defines(a[j]) == Some(x);
      assert (a + b)[j] == a[j];
    } else {
      var j :| 0 <= j < |b| && Defines(b[j]) == Some(x);
      assert (a + b)[|a| + j] == b[j];
    }
  }

  lemma {:induction false} ChunkUses(ops: seq<Op>, known: set<nat>, lo: nat, n: nat, m: nat, k: nat, x: nat)
    requires Chunk(ops, known, lo, n, m) && k < |ops| && x in Uses(ops[k])
    ensures From(known, lo, n, x) || DefinedIn(ops[..k], x)
    decreases k
  {
    if k > 0 {
      ChunkUses(ops[1..], known, lo, if Defines(ops[0]).None? then n else n + 1, m, k - 1, x);
      assert ops[..k] == [ops[0]] + ops[1..][..k - 1];
      if DefinedIn(ops[1..][..k - 1], x) {
        DefinedInLonger([ops[0]], ops[1..][..k - 1], x);
      } else if !From(known, lo, n, x) {
        assert ops[..k][0] == ops[0] && Defines(ops[0]) == Some(x);
      }
    }
  }

  lemma {:induction false} ChunkDefines(ops: seq<Op>, known: set<nat>, lo: nat, n: nat, m: nat, k: nat)
    requires Chunk(ops, known, lo, n, m) && k < |ops| && Defines(ops[k]).Some?
    ensures n <= Defines(ops[k]).value < m
    ensures forall j :: 0 <= j < k && Defines(ops[j]).Some? ==> Defines(ops[j]).value < Defines(ops[k]).value
    decreases k
  {
    var next := if Defines(ops[0]).None? then n else n + 1;
    if k == 0 {
      ChunkGrows(ops[1..], known, lo, next, m);
    } else {
      ChunkDefines(ops[1..], known, lo, next, m, k - 1);
      forall j | 0 <= j < k && Defines(ops[j]).Some?
        ensures Defines(ops[j]).value < Defines(ops[k]).value
      {
        if j > 0 { assert ops[1..][j - 1] == ops[j]; }
      }
    }
  }

  lemma {:induction false} ChunkIsComplete(ops: seq<Op>, known: set<nat>, lo: nat, n: nat, m: nat, x: nat)
    requires Chunk(ops, known, lo, n, m) && n <= x < m
    ensures DefinedIn(ops, x)
    decreases |ops|
  {
    if Defines(ops[0]) != Some(x) {
      ChunkIsComplete(ops[1..], known, lo, if Defines(ops[0]).None? then n else n + 1, m, x);
      DefinedInLonger([ops[0]], ops[1..], x);
      assert ops == [ops[0]] + ops[1..];
    }
  }

  // ----- blocks and their dominators -----

  /** x is defined in a block of d. */
  ghost predicate DefinedAmong(blocks: seq<Block>, d: set<nat>, x: nat) {
    exists c :: c in d && c < |blocks| && DefinedIn(blocks[c].ops, x)
  }

  /** Operation i of block b may use x. */
  ghost predicate MayUse(blocks: seq<Block>, doms: seq<set<nat>>, args: nat, b: nat, i: nat, x: nat)
    requires b < |blocks| == |doms| && i <= |blocks[b].ops|
  {
    x < args || DefinedIn(blocks[b].ops[..i], x) || DefinedAmong(blocks, doms[b] - {b}, x)
  }

  /** A branch from b to t is compatible with the dominators of both. */
  ghost predicate MayBranch(doms: seq<set<nat>>, b: nat, t: nat)
    requires b < |doms|
  {
    t < |doms| && doms[t] <= doms[b] + {t}
  }

  ghost predicate OpOrdered(blocks: seq<Block>, doms: seq<set<nat>>, args: nat, b: nat, i: nat)
    requires b < |blocks| == |doms| && i < |blocks[b].ops|
  {
    && (forall x :: x in Uses(blocks[b].ops[i]) ==> MayUse(blocks, doms, args, b, i, x))
    && (forall t :: t in Targets(blocks[b].ops[i]) ==> MayBranch(doms, b, t))
  }

  ghost predicate Ordered(blocks: seq<Block>, doms: seq<set<nat>>, args: nat) {
    && |doms| == |blocks|
    && (forall b :: 0 <= b < |doms| ==> b in doms[b])
    && (forall b, i :: 0 <= b < |blocks| && 0 <= i < |blocks[b].ops| ==> OpOrdered(blocks, doms, args, b, i))
  }

  /** Each number from args to n is defined at most once, and no other. */
  ghost predicate Numbered(blocks: seq<Block>, args: nat, n: nat) {
    && (forall b, i :: 0 <= b < |blocks| && 0 <= i < |blocks[b].ops| && Defines(blocks[b].ops[i]).Some? ==>
          args <= Defines(blocks[b].ops[i]).value < n)
    && (forall b, i, c, j ::
          (0 <= b < |blocks| && 0 <= i < |blocks[b].ops| && 0 <= c < |blocks| && 0 <= j < |blocks[c].ops|
           && Defines(blocks[b].ops[i]).Some? && Defines(blocks[b].ops[i]) == Defines(blocks[c].ops[j])) ==>
             b == c && i == j)
  }

  /** The variables in scope can be used at the end of block b, and the enclosing loops can be left from there. */
  ghost predicate Position(env: Env, blocks: seq<Block>, doms: seq<set<nat>>, args: nat, b: nat, f: Frame,
                           loops: seq<LoopTargets>, scope: set<Decl>) {
    && b < |blocks| == |doms| && Reachable(env, f, scope)
    && (forall x :: x in Known(env, f, scope) ==> x < args || DefinedAmong(blocks, doms[b], x))
    && (forall k :: 0 <= k < |loops| ==>
        MayBranch(doms, b, loops[k].breakTarget) && MayBranch(doms, b, loops[k].continueTarget))
  }

  ghost predicate Dominated(env: Env, g: Gen, doms: seq<set<nat>>, args: nat, scope: set<Decl>) {
    && GenOk(env, g) && args <= |g.frame.types|
    && Ordered(g.blocks, doms, args) && Numbered(g.blocks, args, |g.frame.types|)
    && Position(env, g.blocks, doms, args, g.cur, g.frame, g.loops, scope)
  }

  // ----- appending to the current block -----

  ghost predicate Longer(blocks: seq<Block>, blocks': seq<Block>) {
    |blocks| <= |blocks'| && forall b :: 0 <= b < |blocks| ==> blocks[b].ops <= blocks'[b].ops
  }

  lemma {:induction false} AmongLonger(blocks: seq<Block>, blocks': seq<Block>, d: set<nat>, d': set<nat>, x: nat)
    requires Longer(blocks, blocks') && d <= d' && DefinedAmong(blocks, d, x)
    ensures DefinedAmong(blocks', d', x)
  {
    var c :| c in d && c < |blocks| && DefinedIn(blocks[c].ops, x);
    DefinedInLonger(blocks[c].ops, blocks'[c].ops[|blocks[c].ops|..], x);
    assert blocks'[c].ops == blocks[c].ops + blocks'[c].ops[|blocks[c].ops|..];
  }

  lemma {:induction false} OldOpOrdered(blocks: seq<Block>, blocks': seq<Block>, doms: seq<set<nat>>,
                                        doms': seq<set<nat>>, args: nat, b: nat, i: nat)
    requires b < |blocks| == |doms| && i < |blocks[b].ops| && OpOrdered(blocks, doms, args, b, i)
    requires Longer(blocks, blocks') && |doms'| == |blocks'| && doms <= doms'
    ensures OpOrdered(blocks', doms', args, b, i)
  {
    assert blocks'[b].ops[i] == blocks[b].ops[i] && blocks'[b].ops[..i] == blocks[b].ops[..i];
    forall x | x in Uses(blocks[b].ops[i])
      ensures MayUse(blocks', doms', args, b, i, x)
    {
      assert MayUse(blocks, doms, args, b, i, x);
      if DefinedAmong(blocks, doms[b] - {b}, x) { AmongLonger(blocks, blocks', doms[b] - {b}, doms'[b] - {b}, x); }
    }
    forall t | t in Targets(blocks[b].ops[i])
      ensures MayBranch(doms', b, t)
    {
      assert MayBranch(doms, b, t);
    }
  }

  lemma {:induction false} PositionLonger(env: Env, blocks: seq<Block>, blocks': seq<Block>, doms: seq<set<nat>>,
                                          doms': seq<set<nat>>, args: nat, b: nat, b': nat, f: Frame,
                                          loops: seq<LoopTargets>, scope: set<Decl>)
    requires Position(env, blocks, doms, args, b, f, loops, scope)
    requires Longer(blocks, blocks') && |doms'| == |blocks'| && doms <= doms' && b' < |doms'| && doms[b] <= doms'[b']
    ensures Position(env, blocks', doms', args, b', f, loops, scope)
  {
    forall x | x in Known(env, f, scope)
      ensures x < args || DefinedAmong(blocks', doms'[b'], x)
    {
      if x >= args { AmongLonger(blocks, blocks', doms[b], doms'[b'], x); }
    }
    forall k | 0 <= k < |loops|
      ensures MayBranch(doms', b', loops[k].breakTarget) && MayBranch(doms', b', loops[k].continueTarget)
    {
      assert MayBranch(doms, b, loops[k].breakTarget) && MayBranch(doms, b, loops[k].continueTarget);
    }
  }

  /** Straight-line code at the end of the current block. */
  lemma {:induction false} AppendDominated(env: Env, g: Gen, doms: seq<set<nat>>, args: nat, scope: set<Decl>,
                                           ops: seq<Op>, f: Frame)
    requires Dominated(env, g, doms, args, scope) && Sourced(env, scope, g.frame, ops, f) && FrameOk(env, f)
    requires NoTerminators(ops)
    ensures Dominated(env, g.With(ops, f), doms, args, scope)
  {
    hide Known, Sourced, FrameOk, MayBranch;
    SourcedParts(env, scope, g.frame, ops, f);
    AppendOrdered(env, g, doms, args, scope, ops, f);
    AppendNumbered(g, args, Known(env, g.frame, scope), ops, |f.types|);
    AppendPosition(env, g, doms, args, scope, ops, f);
  }

  lemma {:induction false} SourcedParts(env: Env, scope: set<Decl>, f: Frame, ops: seq<Op>, f': Frame)
    requires Sourced(env, scope, f, ops, f')
    ensures |f.types| <= |f'.types| && Chunk(ops, Known(env, f, scope), |f.types|, |f.types|, |f'.types|)
    ensures forall x :: x in Known(env, f', scope) ==> From(Known(env, f, scope), |f.types|, |f'.types|, x)
    ensures Reachable(env, f, scope) ==> Reachable(env, f', scope)
  {
  }

  lemma {:induction false} AppendOrdered(env: Env, g: Gen, doms: seq<set<nat>>, args: nat, scope: set<Decl>,
                                         ops: seq<Op>, f: Frame)
    requires Dominated(env, g, doms, args, scope) && NoTerminators(ops)
    requires Chunk(ops, Known(env, g.frame, scope), |g.frame.types|, |g.frame.types|, |f.types|)
    ensures Ordered(g.With(ops, f).blocks, doms, args)
  {
    hide Known, FrameOk, Numbered;
    var prev, next := g.blocks, g.With(ops, f).blocks;
    forall b, i | 0 <= b < |next| && 0 <= i < |next[b].ops|
      ensures OpOrdered(next, doms, args, b, i)
    {
      if i < |prev[b].ops| {
        OldOpOrdered(prev, next, doms, doms, args, b, i);
      } else {
        NewOpOrdered(env, g, doms, args, scope, ops, f, i - |g.Ops()|);
      }
    }
  }

  lemma {:induction false} NewOpOrdered(env: Env, g: Gen, doms: seq<set<nat>>, args: nat, scope: set<Decl>,
                                        ops: seq<Op>, f: Frame, k: nat)
    requires Dominated(env, g, doms, args, scope) && NoTerminators(ops) && k < |ops|
    requires Chunk(ops, Known(env, g.frame, scope), |g.frame.types|, |g.frame.types|, |f.types|)
    ensures OpOrdered(g.With(ops, f).blocks, doms, args, g.cur, |g.Ops()| + k)
  {
    hide Known, FrameOk, Numbered, Ordered;
    var next, i := g.With(ops, f).blocks, |g.Ops()| + k;
    assert next[g.cur].ops == g.Ops() + ops && next[g.cur].ops[i] == ops[k] &&
           next[g.cur].ops[..i] == g.Ops() + ops[..k];
    forall x | x in Uses(ops[k])
      ensures MayUse(next, doms, args, g.cur, i, x)
    {
      ChunkUses(ops, Known(env, g.frame, scope), |g.frame.types|, |g.frame.types|, |f.types|, k, x);
      if DefinedIn(ops[..k], x) {
        DefinedInLonger(g.Ops(), ops[..k], x);
      } else if x >= args {
        KnownAtEnd(g.blocks, next, doms, g.cur, i, x);
      }
    }
  }

  /** What a block's dominators define can be used after everything it had. */
  lemma {:induction false} KnownAtEnd(prev: seq<Block>, next: seq<Block>, doms: seq<set<nat>>, b: nat, i: nat, x: nat)
    requires b < |prev| == |doms| == |next| && Longer(prev, next) && |prev[b].ops| <= i <= |next[b].ops|
    requires DefinedAmong(prev, doms[b], x)
    ensures DefinedIn(next[b].ops[..i], x) || DefinedAmong(next, doms[b] - {b}, x)
  {
    if DefinedIn(prev[b].ops, x) {
      var ops := prev[b].ops;
      DefinedInLonger(ops, next[b].ops[|ops|..i], x);
      assert next[b].ops[..i] == ops + next[b].ops[|ops|..i];
    } else {
      var c :| c in doms[b] && c < |prev| && DefinedIn(prev[c].ops, x);
      assert DefinedAmong(prev, doms[b] - {b}, x);
      AmongLonger(prev, next, doms[b] - {b}, doms[b] - {b}, x);
    }
  }

  lemma {:induction false} AppendNumbered(g: Gen, args: nat, known: set<nat>, ops: seq<Op>, m: nat)
    requires g.cur < |g.blocks| && Numbered(g.blocks, args, |g.frame.types|) && args <= |g.frame.types| <= m
    requires Chunk(ops, known, |g.frame.types|, |g.frame.types|, m)
    ensures Numbered(g.Append(ops).blocks, args, m)
  {
    var prev, next, n := g.blocks, g.Append(ops).blocks, |g.frame.types|;
    forall b, i | 0 <= b < |next| && 0 <= i < |next[b].ops| && Defines(next[b].ops[i]).Some?
      ensures if i < |prev[b].ops| then next[b].ops[i] == prev[b].ops[i] && args <= Defines(next[b].ops[i]).value < n
              else b == g.cur && next[b].ops[i] == ops[i - |g.Ops()|] && n <= Defines(next[b].ops[i]).value < m
    {
      if i >= |prev[b].ops| { ChunkDefines(ops, known, n, n, m, i - |g.Ops()|); }
    }
    forall b, i, c, j | 0 <= b < |next| && 0 <= i < |next[b].ops| && 0 <= c < |next| && 0 <= j < |next[c].ops|
                        && Defines(next[b].ops[i]).Some? && Defines(next[b].ops[i]) == Defines(next[c].ops[j])
      ensures b == c && i == j
    {
      if i >= |prev[b].ops| && j >= |prev[c].ops| {
        if i < j { ChunkDefines(ops, known, n, n, m, j - |g.Ops()|); }
        if j < i { ChunkDefines(ops, known, n, n, m, i - |g.Ops()|); }
      }
    }
  }

  lemma {:induction false} AppendPosition(env: Env, g: Gen, doms: seq<set<nat>>, args: nat, scope: set<Decl>,
                                          ops: seq<Op>, f: Frame)
    requires Position(env, g.blocks, doms, args, g.cur, g.frame, g.loops, scope) && g.cur in doms[g.cur]
    requires Chunk(ops, Known(env, g.frame, scope), |g.frame.types|, |g.frame.types|, |f.types|)
    requires forall x :: x in Known(env, f, scope) ==> From(Known(env, g.frame, scope), |g.frame.types|, |f.types|, x)
    requires Reachable(env, f, scope)
    ensures Position(env, g.With(ops, f).blocks, doms, args, g.cur, f, g.loops, scope)
  {
    hide Known, Reachable, MayBranch;
    var next := g.With(ops, f).blocks;
    assert next[g.cur].ops == g.Ops() + ops;
    forall x | x in Known(env, f, scope)
      ensures x < args || DefinedAmong(next, doms[g.cur], x)
    {
      if x in Known(env, g.frame, scope) {
        if x >= args { AmongLonger(g.blocks, next, doms[g.cur], doms[g.cur], x); }
      } else {
        ChunkIsComplete(ops, Known(env, g.frame, scope), |g.frame.types|, |g.frame.types|, |f.types|, x);
        DefinedInLonger(g.Ops(), ops, x);
      }
    }
  }

  /** A value of straight-line code can be used at the end of it. */
  lemma {:induction false} ValueAtEnd(env: Env, g: Gen, doms: seq<set<nat>>, args: nat, scope: set<Decl>, ops: seq<Op>,
                                      f: Frame, v: nat)
    requires Dominated(env, g, doms, args, scope) && Sourced(env, scope, g.frame, ops, f)
    requires ValueFrom(env, scope, g.frame, f, v)
    ensures v < args || DefinedAmong(g.With(ops, f).blocks, doms[g.cur], v)
  {
    hide Known, Sourced, FrameOk, MayBranch, Numbered;
    SourcedParts(env, scope, g.frame, ops, f);
    var next := g.With(ops, f).blocks;
    assert next[g.cur].ops == g.Ops() + ops;
    if v in Known(env, g.frame, scope) {
      if v >= args { AmongLonger(g.blocks, next, doms[g.cur], doms[g.cur], v); }
    } else {
      ChunkIsComplete(ops, Known(env, g.frame, scope), |g.frame.types|, |g.frame.types|, |f.types|, v);
      DefinedInLonger(g.Ops(), ops, v);
    }
  }

  /** One operation that defines nothing, at the end of the current block. */
  lemma {:induction false} TerminatorDominated(env: Env, g: Gen, doms: seq<set<nat>>, args: nat, scope: set<Decl>,
                                               op: Op)
    requires Dominated(env, g, doms, args, scope) && Defines(op).None?
    requires forall x :: x in Uses(op) ==> x < args || DefinedAmong(g.blocks, doms[g.cur], x)
    requires forall t :: t in Targets(op) ==> MayBranch(doms, g.cur, t)
    ensures Dominated(env, g.Append([op]), doms, args, scope)
  {
    hide Known, FrameOk, MayBranch;
    var prev, next := g.blocks, g.Append([op]).blocks;
    forall b, i | 0 <= b < |next| && 0 <= i < |next[b].ops|
      ensures OpOrdered(next, doms, args, b, i)
    {
      if i < |prev[b].ops| {
        OldOpOrdered(prev, next, doms, doms, args, b, i);
      } else {
        LastOpOrdered(g, doms, args, op);
      }
    }
    AppendNumbered(g, args, Uses(op), [op], |g.frame.types|);
    PositionLonger(env, prev, next, doms, doms, args, g.cur, g.cur, g.frame, g.loops, scope);
  }

  lemma {:induction false} LastOpOrdered(g: Gen, doms: seq<set<nat>>, args: nat, op: Op)
    requires g.cur < |g.blocks| == |doms|
    requires forall x :: x in Uses(op) ==> x < args || DefinedAmong(g.blocks, doms[g.cur], x)
    requires forall t :: t in Targets(op) ==> MayBranch(doms, g.cur, t)
    ensures OpOrdered(g.Append([op]).blocks, doms, args, g.cur, |g.Ops()|)
  {
    hide MayBranch;
    var next, i := g.Append([op]).blocks, |g.Ops()|;
    assert next[g.cur].ops[i] == op;
    forall x | x in Uses(op)
      ensures MayUse(next, doms, args, g.cur, i, x)
    {
      if x >= args { KnownAtEnd(g.blocks, next, doms, g.cur, i, x); }
    }
  }

  // ----- blocks -----

  /** New blocks are dominated by what dominates the current one. */
  function NewDoms(g: Gen, doms: seq<set<nat>>, n: nat): seq<set<nat>>
    requires g.cur < |doms|
  {
    doms + seq(n, k => doms[g.cur] + {|doms| + k})
  }

  lemma {:induction false} NewBlocksDominated(env: Env, g: Gen, doms: seq<set<nat>>, args: nat, scope: set<Decl>,
                                              n: nat)
    requires Dominated(env, g, doms, args, scope)
    ensures var doms' := NewDoms(g, doms, n);
            && doms <= doms' && Dominated(env, g.NewBlocks(n), doms', args, scope)
            && forall b :: |doms| <= b < |doms| + n ==>
              doms[g.cur] <= doms'[b] && doms'[b] == doms[g.cur] + {b} && MayBranch(doms', g.cur, b)
  {
    hide Known, FrameOk;
    var prev, next, doms' := g.blocks, g.NewBlocks(n).blocks, NewDoms(g, doms, n);
    forall b, i | 0 <= b < |next| && 0 <= i < |next[b].ops|
      ensures OpOrdered(next, doms', args, b, i)
    {
      OldOpOrdered(prev, next, doms, doms', args, b, i);
    }
    PositionLonger(env, prev, next, doms, doms', args, g.cur, g.cur, g.frame, g.loops, scope);
  }

  /** Going on in another block. */
  lemma {:induction false} MoveDominated(env: Env, g: Gen, doms: seq<set<nat>>, args: nat, scope: set<Decl>, b: nat,
                                         loops: seq<LoopTargets>, scope': set<Decl>)
    requires Dominated(env, g, doms, args, scope) && Position(env, g.blocks, doms, args, b, g.frame, loops, scope')
    ensures Dominated(env, g.(cur := b, loops := loops), doms, args, scope')
  {
  }

  lemma {:induction false} EraseDominated(env: Env, g: Gen, doms: seq<set<nat>>, args: nat, scope: set<Decl>, b: nat)
    requires Dominated(env, g, doms, args, scope) && Fresh(g, b)
    ensures Dominated(env, g.Erase(b), doms, args, scope)
  {
    hide Known, FrameOk;
    var prev, next := g.blocks, g.Erase(b).blocks;
    assert Longer(prev, next);
    forall c, i | 0 <= c < |next| && 0 <= i < |next[c].ops|
      ensures OpOrdered(next, doms, args, c, i)
    {
      OldOpOrdered(prev, next, doms, doms, args, c, i);
    }
    PositionLonger(env, prev, next, doms, doms, args, g.cur, g.cur, g.frame, g.loops, scope);
  }

  /** Once the variables in scope have settled, later code changes nothing about where they are. */
  lemma {:induction false} KnownStays(env: Env, scope: set<Decl>, f: Frame, f': Frame)
    requires Settled(scope, f) && SlotsKeptOn(scope, f, f') && FrameOk(env, f') && FrameOk(env, f)
    requires Reachable(env, f, scope)
    ensures Known(env, f', scope) == Known(env, f, scope) && Reachable(env, f', scope)
  {
    forall d | d in scope
      ensures d in f'.storage <==> d in f.storage
    {
      if d in f'.storage { assert SlotOk(env, f', d); }
    }
  }

  /** Back to a block created at an earlier point: the same variables can be used there. */
  lemma {:induction false} ReturnTo(env: Env, scope: set<Decl>, g: Gen, doms: seq<set<nat>>, args: nat, b: nat, g': Gen,
                                    doms': seq<set<nat>>, b': nat)
    requires Position(env, g.blocks, doms, args, b, g.frame, g.loops, scope)
    requires Settled(scope, g.frame) && SlotsKeptOn(scope, g.frame, g'.frame) && FrameOk(env, g.frame)
    requires FrameOk(env, g'.frame)
    requires Longer(g.blocks, g'.blocks) && |doms'| == |g'.blocks| && doms <= doms' && b' < |doms'|
    requires doms[b] <= doms'[b']
    ensures Position(env, g'.blocks, doms', args, b', g'.frame, g.loops, scope)
  {
    hide Known, Reachable, FrameOk, MayBranch, Settled, SlotsKeptOn;
    KnownStays(env, scope, g.frame, g'.frame);
    PositionLonger(env, g.blocks, g'.blocks, doms, doms', args, b, b', g.frame, g.loops, scope);
  }

  lemma {:induction false} LaterIsLonger(env: Env, scope: set<Decl>, g: Gen, g': Gen)
    requires Later(env, scope, g, g')
    ensures Longer(g.blocks, g'.blocks)
  {
  }
}
