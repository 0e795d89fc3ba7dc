/** Collecting the arguments of a macro invocation. The tokens between the parentheses are split at the commas that no
    inner parentheses enclose; nothing is lost or reordered. */
module MacroArguments {
  import opened Wrappers
  import opened PPTokens

  const OPEN := "("
  const CLOSE := ")"
  const COMMA := ","

  datatype Invocation =
    | Invocation(args: seq<seq<PPToken>>, commas: seq<PPToken>, closer: PPToken, rest: seq<PPToken>)
    | Unterminated

  /** Reads on after an opening parenthesis; the last of args is still growing. */
  function Collect(pending: seq<PPToken>, nesting: nat, args: seq<seq<PPToken>>, commas: seq<PPToken>): Invocation
    requires args != []
    decreases pending
  {
    if pending == [] then Unterminated
    else
      var t, rest := pending[0], pending[1..];
      if t.text == CLOSE && nesting == 0 then Invocation(args, commas, t, rest)
      else if t.text == COMMA && nesting == 0 then Collect(rest, nesting, args + [[]], commas + [t])
      else
        var inner := if t.text == OPEN then nesting + 1 else if t.text == CLOSE then nesting - 1 else nesting;
        Collect(rest, inner, Grow(args, t), commas)
  }

  function Grow(args: seq<seq<PPToken>>, t: PPToken): (r: seq<seq<PPToken>>)
    requires args != []
    ensures r != []
  {
    args[|args| - 1 := args[|args| - 1] + [t]]
  }

  /** The argument list that substitution uses: one for each parameter, the variadic one taking all that is left. */
  function Match(m: Macro, inv: Invocation): Option<seq<seq<PPToken>>>
    requires inv.Invocation? && |inv.commas| + 1 == |inv.args| && (m.variadic ==> m.parameters != [])
  {
    var args := if m.parameters == [] && inv.args == [[]] then [] else inv.args;
    var required := |m.parameters|;
    if if m.variadic then |args| < required else |args| != required then None
    else if m.variadic then Some(args[..required - 1] + [Rejoin(args[required - 1..], inv.commas[required - 1..])])
    else Some(args)
  }

  /** Arguments with the commas between them put back. */
  function Rejoin(args: seq<seq<PPToken>>, commas: seq<PPToken>): seq<PPToken>
    requires |commas| + 1 == |args|
  {
    if |args| == 1 then args[0] else args[0] + [commas[0]] + Rejoin(args[1..], commas[1..])
  }

  // ----- what an argument is -----

  /** The nesting after ts, started at nesting n, or None where a parenthesis or comma would end the argument. */
  function Walk(ts: seq<PPToken>, n: nat): Option<nat> {
    if ts == [] then Some(n)
    else
      var t := ts[0];
      if n == 0 && (t.text == CLOSE || t.text == COMMA) then None
      else Walk(ts[1..], if t.text == OPEN then n + 1 else if t.text == CLOSE then n - 1 else n)
  }

  /** Parentheses match inside, and every comma is inside a pair of them. */
  predicate IsArgument(ts: seq<PPToken>) {
    Walk(ts, 0) == Some(0)
  }

  /** Arguments whose last one has been read up to the given nesting. */
  predicate Reading(args: seq<seq<PPToken>>, commas: seq<PPToken>, nesting: nat) {
    && |commas| + 1 == |args|
    && (forall i :: 0 <= i < |args| - 1 ==> IsArgument(args[i]))
    && Walk(args[|args| - 1], 0) == Some(nesting)
    && (forall i :: 0 <= i < |commas| ==> commas[i].text == COMMA)
  }

  /** How the tokens after an opening parenthesis split into an invocation and the rest. */
  predicate Splits(pending: seq<PPToken>, inv: Invocation) {
    && inv.Invocation? && Reading(inv.args, inv.commas, 0) && inv.closer.text == CLOSE
    && pending == Rejoin(inv.args, inv.commas) + [inv.closer] + inv.rest
  }

  // ----- collecting is splitting -----

  lemma {:induction false} WalkOn(ts: seq<PPToken>, t: PPToken, n: nat)
    requires Walk(ts, n).Some?
    ensures Walk(ts + [t], n) == Walk([t], Walk(ts, n).value)
    decreases ts
  {
    if ts == [] {
      assert ts + [t] == [t];
    } else {
      assert (ts + [t])[1..] == ts[1..] + [t];
      WalkOn(ts[1..], t, if ts[0].text == OPEN then n + 1 else if ts[0].text == CLOSE then n - 1 else n);
    }
  }

  lemma {:induction false} RejoinGrow(args: seq<seq<PPToken>>, commas: seq<PPToken>, t: PPToken)
    requires |commas| + 1 == |args|
    ensures Rejoin(Grow(args, t), commas) == Rejoin(args, commas) + [t]
    decreases args
  {
    if |args| > 1 {
      assert Grow(args, t)[1..] == Grow(args[1..], t);
      RejoinGrow(args[1..], commas[1..], t);
    }
  }

  lemma {:induction false} RejoinComma(args: seq<seq<PPToken>>, commas: seq<PPToken>, t: PPToken)
    requires |commas| + 1 == |args|
    ensures Rejoin(args + [[]], commas + [t]) == Rejoin(args, commas) + [t]
    decreases args
  {
    if |args| == 1 {
      assert (args + [[]])[1..] == [[]];
      assert args[0] + [t] + [] == args[0] + [t];
    } else {
      assert (args + [[]])[1..] == args[1..] + [[]] && (commas + [t])[1..] == commas[1..] + [t];
      RejoinComma(args[1..], commas[1..], t);
      assert args[0] + [commas[0]] + (Rejoin(args[1..], commas[1..]) + [t]) == Rejoin(args, commas) + [t];
    }
  }

  lemma {:induction false} ReadingGrow(args: seq<seq<PPToken>>, commas: seq<PPToken>, nesting: nat, t: PPToken)
    requires Reading(args, commas, nesting) && !(nesting == 0 && (t.text == CLOSE || t.text == COMMA))
    ensures Reading(Grow(args, t), commas, if t.text == OPEN then nesting + 1 else if t.text
                    == CLOSE then nesting - 1 else nesting)
  {
    WalkOn(args[|args| - 1], t, 0);
  }

  /** Whatever is collected splits the input, in order and with nothing lost. */
  lemma {:induction false} CollectSplits(pending: seq<PPToken>, nesting: nat, args: seq<seq<PPToken>>,
                                         commas: seq<PPToken>)
    requires Reading(args, commas, nesting)
    ensures var inv := Collect(pending, nesting, args, commas);
            inv.Invocation? ==> Splits(Rejoin(args, commas) + pending, inv)
    decreases pending
  {
    if pending != [] {
      var t, rest := pending[0], pending[1..];
      assert Rejoin(args, commas) + pending == Rejoin(args, commas) + [t] + rest;
      if t.text == CLOSE && nesting == 0 {
      } else if t.text == COMMA && nesting == 0 {
        RejoinComma(args, commas, t);
        CollectSplits(rest, nesting, args + [[]], commas + [t]);
      } else {
        RejoinGrow(args, commas, t);
        ReadingGrow(args, commas, nesting, t);
        CollectSplits(rest, if t.text == OPEN then nesting + 1 else if t.text == CLOSE then nesting - 1 else nesting,
                      Grow(args, t), commas);
      }
    }
  }

  /** Reading one more argument's tokens. */
  lemma {:induction false} CollectArgument(ts: seq<PPToken>, pending: seq<PPToken>, nesting: nat,
                                           args: seq<seq<PPToken>>, commas: seq<PPToken>)
    requires args != [] && Walk(ts, nesting).Some?
    ensures Collect(ts + pending, nesting, args, commas)
         == Collect(pending, Walk(ts, nesting).value, args[|args| - 1 := args[|args| - 1] + ts], commas)
    decreases ts
  {
    var last := |args| - 1;
    if ts == [] {
      assert ts + pending == pending && args[last] + ts == args[last] && args[last := args[last]] == args;
    } else {
      assert (ts + pending)[0] == ts[0] && (ts + pending)[1..] == ts[1..] + pending;
      var inner := if ts[0].text == OPEN then nesting + 1 else if ts[0].text == CLOSE then nesting - 1 else nesting;
      CollectArgument(ts[1..], pending, inner, Grow(args, ts[0]), commas);
      assert args[last] + [ts[0]] + ts[1..] == args[last] + ts;
      assert Grow(args, ts[0])[last := args[last] + ts] == args[last := args[last] + ts];
    }
  }

  /** The tokens that end an argument. */
  lemma {:induction false} CollectEnd(t: PPToken, pending: seq<PPToken>, args: seq<seq<PPToken>>, commas: seq<PPToken>)
    requires args != []
    ensures t.text == CLOSE ==> Collect([t] + pending, 0, args, commas) == Invocation(args, commas, t, pending)
    ensures t.text == COMMA ==>
        Collect([t] + pending, 0, args, commas) == Collect(pending, 0, args + [[]], commas + [t])
  {
    assert ([t] + pending)[0] == t && ([t] + pending)[1..] == pending;
  }

  lemma {:induction false} Regroup<T>(a: seq<T>, b: seq<T>, c: seq<T>, d: seq<T>, e: seq<T>)
    ensures a + b + c + d + e == a + (b + (c + d + e))
  {
  }

  lemma {:induction false} HeadAndTail<T>(done: seq<T>, more: seq<T>)
    requires more != []
    ensures done + [more[0]] + more[1..] == done + more
  {
  }

  lemma {:induction false} LastArgument(done: seq<seq<PPToken>>, a: seq<PPToken>)
    ensures var args := done + [[]]; args[|args| - 1 := args[|args| - 1] + a] == done + [a]
  {
    var args := done + [[]];
    assert args[|done|] == [] && [] + a == a;
  }

  /** Arguments, commas and a closing parenthesis are collected as written. */
  lemma {:induction false} SplitIsCollected(args: seq<seq<PPToken>>, commas: seq<PPToken>, closer: PPToken,
                                            rest: seq<PPToken>, done: seq<seq<PPToken>>, seen: seq<PPToken>)
    requires Reading(args, commas, 0) && closer.text == CLOSE
    ensures Collect(Rejoin(args, commas) + [closer] + rest, 0, done + [[]], seen)
         == Invocation(done + args, seen + commas, closer, rest)
    decreases args
  {
    hide Collect, Walk;
    assert IsArgument(args[0]);
    if |args| == 1 {
      var tail := [closer] + rest;
      assert args[0] + [closer] + rest == args[0] + tail;
      CollectArgument(args[0], tail, 0, done + [[]], seen);
      LastArgument(done, args[0]);
      CollectEnd(closer, rest, done + [args[0]], seen);
      assert done + [args[0]] == done + args;
      assert seen + commas == seen;
    } else {
      var tail := Rejoin(args[1..], commas[1..]) + [closer] + rest;
      Regroup(args[0], [commas[0]], Rejoin(args[1..], commas[1..]), [closer], rest);
      CollectArgument(args[0], [commas[0]] + tail, 0, done + [[]], seen);
      LastArgument(done, args[0]);
      CollectEnd(commas[0], tail, done + [args[0]], seen);
      SplitIsCollected(args[1..], commas[1..], closer, rest, done + [args[0]], seen + [commas[0]]);
      HeadAndTail(done, args);
      HeadAndTail(seen, commas);
    }
  }

  /** Collection conserves tokens and finds the one way to split: it answers with an invocation exactly when that is how
      the input splits. */
  lemma {:induction false} CollectsExactly(pending: seq<PPToken>, inv: Invocation)
    requires inv.Invocation?
    ensures Collect(pending, 0, [[]], []) == inv <==> Splits(pending, inv)
  {
    if Collect(pending, 0, [[]], []) == inv {
      CollectSplits(pending, 0, [[]], []);
      assert [] + pending == pending;
    }
    if Splits(pending, inv) {
      SplitIsCollected(inv.args, inv.commas, inv.closer, inv.rest, [], []);
      var none: seq<seq<PPToken>> := [];
      assert none + [[]] == [[]] && none + inv.args == inv.args && [] + inv.commas == inv.commas;
    }
  }

  // ----- matching arguments to parameters -----

  lemma {:induction false} RejoinTail(args: seq<seq<PPToken>>, commas: seq<PPToken>, k: nat)
    requires |commas| + 1 == |args| && k < |args|
    ensures Rejoin(args[..k] + [Rejoin(args[k..], commas[k..])], commas[..k]) == Rejoin(args, commas)
    decreases k
  {
    if k == 0 {
      assert args[0..] == args && commas[0..] == commas && args[..0] + [Rejoin(args, commas)] == [Rejoin(args, commas)];
    } else {
      RejoinTail(args[1..], commas[1..], k - 1);
      var merged := args[..k] + [Rejoin(args[k..], commas[k..])];
      assert args[1..][k - 1..] == args[k..] && commas[1..][k - 1..] == commas[k..];
      assert merged[1..] == args[1..][..k - 1] + [Rejoin(args[k..], commas[k..])] &&
             commas[..k][1..] == commas[1..][..k - 1];
    }
  }

  /** One argument for each parameter, and still every token between the parentheses. */
  lemma {:induction false} MatchConserves(m: Macro, inv: Invocation)
    requires inv.Invocation? && |inv.commas| + 1 == |inv.args| && (m.variadic ==> m.parameters != [])
    ensures var matched := Match(m, inv);
            matched.Some? ==>
              && |matched.value| == |m.parameters|
              && |matched.value| <= |inv.args|
              && (if matched.value == [] then Rejoin(inv.args, inv.commas) == []
                  else Rejoin(matched.value, inv.commas[..|matched.value| - 1]) == Rejoin(inv.args, inv.commas))
  {
    var matched := Match(m, inv);
    if matched.Some? && matched.value != [] {
      if m.variadic {
        RejoinTail(inv.args, inv.commas, |m.parameters| - 1);
      } else {
        assert inv.commas[..|inv.args| - 1] == inv.commas;
      }
    }
  }
}
