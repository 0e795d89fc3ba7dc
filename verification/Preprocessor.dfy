/** The preprocessor as it is written: an object with a macro table, a count of expansions and an output, whose methods
    run the loops. Each method is proved to do what the functions of the other modules say. */
module Preprocessor {
  import opened Wrappers
  import opened PPTokens
  import opened MacroDefinition
  import opened MacroArguments
  import opened MacroExactness
  import opened MacroExpansion
  import opened Directives
  import PPExpression

  /** The lines of a token list, empty ones left out. */
  function Lines(tokens: seq<PPToken>): seq<seq<PPToken>>
    decreases |tokens|
  {
    if tokens == [] then []
    else if tokens[0].kind == NewlineKind then Lines(tokens[1..])
    else
      var n := LineLength(tokens);
      [tokens[..n]] + Lines(tokens[n..])
  }

  function LineLength(tokens: seq<PPToken>): (n: nat)
    ensures n <= |tokens|
    ensures tokens != [] && tokens[0].kind != NewlineKind ==> n > 0
    ensures forall i :: 0 <= i < n ==> tokens[i].kind != NewlineKind
    ensures n < |tokens| ==> tokens[n].kind == NewlineKind
  {
    if tokens == [] || tokens[0].kind == NewlineKind then 0 else 1 + LineLength(tokens[1..])
  }

  class Preprocessor {
    const world: World
    var macros: map<string, Macro>
    var expansions: nat
    var output: seq<PPToken>

    constructor (world: World)
      ensures this.world == world && macros == map[] && expansions == 0 && output == []
    {
      this.world := world;
      macros, expansions, output := map[], 0, [];
    }

    ghost predicate Valid()
      reads this
    {
      TableOk(macros) && expansions <= EXPANSION_LIMIT && WorldOk(world)
    }

    ghost function Now(pending: seq<PPToken>): Pre
      reads this
    {
      Pre(macros, expansions, output, pending)
    }

    // ----- expansion -----

    /** Reads the arguments of an invocation after its opening parenthesis. */
    method CollectArguments(input: seq<PPToken>) returns (inv: Invocation)
      ensures inv == Collect(input, 0, [[]], [])
    {
      var pending, nesting: nat, args, commas := input, 0, [[]], [];
      while pending != []
        invariant args != []
        invariant Collect(pending, nesting, args, commas) == Collect(input, 0, [[]], [])
        decreases |pending|
      {
        var t := pending[0];
        pending := pending[1..];
        if t.text == CLOSE && nesting == 0 { return Invocation(args, commas, t, pending); }
        if t.text == COMMA && nesting == 0 {
          commas := commas + [t];
          args := args + [[]];
        } else {
          if t.text == OPEN { nesting := nesting + 1; } else if t.text == CLOSE { nesting := nesting - 1; }
          args := Grow(args, t);
        }
      }
      inv := Unterminated;
    }

    /** Expands the argument that replacement token i needs, unless that has been done. */
    method PrepareArgument(m: Macro, args: seq<seq<PPToken>>, i: nat, prepared: seq<Option<seq<PPToken>>>, depth: nat)
      returns (r: Prepared)
      requires Valid() && MacroOk(m) && i < |m.replacement| && |args| == |prepared| == |m.parameters|
      requires depth < DEPTH_LIMIT
      modifies `expansions
      ensures r == MacroExpansion.Prepare(world.host, macros, m, args, i, prepared, depth, old(expansions))
      ensures Valid() && (r.Prepared? ==> expansions == r.expansions)
      decreases DEPTH_LIMIT - depth, 0, 0
    {
      var index := ParameterIndex(m, m.replacement[i]);
      if !IsParameter(m, i) || IsPasted(m, i) || prepared[index].Some? { return Prepared(prepared, expansions); }
      var expanded := Expand(args[index], depth + 1);
      if expanded.Failed? { return Unprepared(expanded.problem); }
      r := Prepared(prepared[index := Some(expanded.tokens)], expanded.expansions);
    }

    /** Puts the arguments into a replacement list, expanding each one when it is first needed. */
    method SubstituteArguments(m: Macro, args: seq<seq<PPToken>>, depth: nat) returns (r: Substituted)
      requires Valid() && MacroOk(m) && |args| == |m.parameters| && depth < DEPTH_LIMIT
      modifies `expansions
      ensures r == Substitute(world.host, macros, m, args, 0, Unexpanded(|args|), depth, old(expansions))
      ensures Valid() && (r.Substituted? ==> expansions == r.expansions)
      decreases DEPTH_LIMIT - depth, 0
    {
      hide PartsAt, MacroExpansion.Prepare, PartOk;
      ghost var h, start := world.host, Substitute(world.host, macros, m, args, 0, Unexpanded(|args|), depth,
                                                   expansions);
      var parts: seq<Part>, prepared, i := [], Unexpanded(|args|), 0;
      while i < |m.replacement|
        invariant i <= |m.replacement| && |prepared| == |args| && Valid()
        invariant start == Prefixed(parts, Substitute(h, macros, m, args, i, prepared, depth, expansions))
        decreases |m.replacement| - i
      {
        var step := PrepareArgument(m, args, i, prepared, depth);
        if step.Unprepared? { return Unsubstituted(step.problem); }
        prepared := step.values;
        ghost var rest := Substitute(h, macros, m, args, i + Width(m, i), prepared, depth, expansions);
        PrefixedTwice(parts, PartsAt(m, args, prepared, i), rest);
        parts := parts + PartsAt(m, args, prepared, i);
        i := i + Width(m, i);
      }
      assert parts + [] == parts;
      r := Substituted(parts, expansions);
    }

    /** Carries out the pastes, from left to right. */
    method PasteParts(parts: seq<Part>) returns (r: Option<seq<Part>>)
      requires Pasteable([], parts)
      ensures r == PasteAll(world.host, parts, [])
    {
      var done: seq<Part>, i := [], 0;
      while i < |parts|
        invariant i <= |parts| && Pasteable(done, parts[i..])
        invariant PasteAll(world.host, parts[i..], done) == PasteAll(world.host, parts, [])
        decreases |parts| - i
      {
        assert parts[i..][0] == parts[i];
        if !parts[i].paste {
          done := done + [parts[i]];
          assert parts[i..][1..] == parts[i + 1..];
          i := i + 1;
        } else {
          assert parts[i..][1] == parts[i + 1];
          var joined := PasteTwo(world.host, done[|done| - 1], parts[i + 1]);
          if joined.None? { return None; }
          done := done[..|done| - 1] + [joined.value];
          assert parts[i..][2..] == parts[i + 2..];
          i := i + 2;
        }
      }
      r := Some(done);
    }

    /** One turn of the scan. */
    method Turn(pending: seq<PPToken>, depth: nat) returns (move: Move)
      requires Valid() && pending != [] && depth < DEPTH_LIMIT
      modifies `expansions
      ensures move == Step(world.host, macros, pending, depth, old(expansions))
      ensures Valid() && (move.Emitted? || move.Replaced? ==> expansions == move.expansions)
      decreases DEPTH_LIMIT - depth, 1
    {
      var t, rest := pending[0], pending[1..];
      if t.kind != IdentifierKind || t.text in t.hidden { return Emitted(t, expansions); }
      if world.host.isPredefined(t.text) {
        if expansions + 1 > EXPANSION_LIMIT { return Stopped(ExpansionLimit); }
        expansions := expansions + 1;
        return Emitted(BuiltinToken(world.host, t), expansions);
      }
      if t.text !in macros { return Emitted(t, expansions); }
      var m := macros[t.text];
      if m.functionLike && (rest == [] || rest[0].text != OPEN) { return Emitted(t, expansions); }
      if |t.hidden| >= HIDE_LIMIT || expansions + 1 > EXPANSION_LIMIT { return Stopped(ExpansionLimit); }
      expansions := expansions + 1;
      var args, hidden := [], t.hidden;
      if m.functionLike {
        assert rest[1..] == pending[2..];
        var inv := CollectArguments(rest[1..]);
        if inv.Unterminated? { return Stopped(UnterminatedInvocation); }
        CollectSplits(rest[1..], 0, [[]], []);
        var matched := Match(m, inv);
        if matched.None? { return Stopped(WrongArgumentCount); }
        MatchConserves(m, inv);
        args, hidden, rest := matched.value, hidden * inv.closer.hidden, inv.rest;
      }
      move := ReplaceInvocation(t, m, args, hidden, rest, depth);
    }

    method ReplaceInvocation(t: PPToken, m: Macro, args: seq<seq<PPToken>>, hidden: set<string>, rest: seq<PPToken>,
                             depth: nat)
      returns (move: Move)
      requires Valid() && depth < DEPTH_LIMIT && MacroOk(m) && |args| == |m.parameters|
      modifies `expansions
      ensures move == Replace(world.host, macros, t, m, args, hidden, rest, depth, old(expansions))
      ensures Valid() && (move.Replaced? ==> expansions == move.expansions)
      decreases DEPTH_LIMIT - depth, 1, 0
    {
      var substituted := SubstituteArguments(m, args, depth);
      if substituted.Unsubstituted? { return Stopped(substituted.problem); }
      ShapedIsPasteable(m, substituted.parts);
      var pasted := PasteParts(substituted.parts);
      if pasted.None? { return Stopped(BadPaste); }
      move := Replaced(PushBack(Finish(pasted.value, hidden + {t.text}), t.space, rest), expansions);
    }

    method Expand(input: seq<PPToken>, depth: nat) returns (r: Outcome)
      requires Valid()
      modifies `expansions
      ensures r == MacroExpansion.Expand(world.host, macros, input, depth, old(expansions))
      ensures IsMeaning(world.host, macros, input, r)
      ensures Valid() && (r.Expanded? ==> expansions == r.expansions)
      decreases if depth < DEPTH_LIMIT then DEPTH_LIMIT - depth else 0, 2
    {
      hide IsMeaning, Step;
      ExpansionIsMeaning(world.host, macros, input, depth, expansions);
      if depth >= DEPTH_LIMIT { return Failed(ExpansionLimit); }
      ghost var start := Scan(world.host, macros, input, [], depth, expansions);
      var pending: seq<PPToken>, tokens: seq<PPToken> := input, [];
      while pending != []
        invariant Valid() && Scan(world.host, macros, pending, tokens, depth, expansions) == start
        decreases EXPANSION_LIMIT - expansions, |pending|
      {
        var move := Turn(pending, depth);
        match move {
          case Stopped(p) => return Failed(p);
          case Emitted(t, _) => tokens, pending := tokens + [t], pending[1..];
          case Replaced(next, _) => pending := next;
        }
      }
      r := Expanded(tokens, expansions);
    }

    // ----- #define -----

    /** Reads the parameters of a function-like macro. */
    method ParseParameters(args: seq<PPToken>) returns (r: Parameters)
      requires |args| > 2
      ensures r == ReadParameters(args, 2, [], world.c89)
    {
      var cursor: nat, names: seq<string> := 2, [];
      while cursor < |args|
        invariant cursor <= |args|
        invariant ReadParameters(args, cursor, names, world.c89) == ReadParameters(args, 2, [], world.c89)
        decreases |args| - cursor
      {
        var part := args[cursor];
        if part.text == "..." {
          if world.c89 { return BadParameters(VariadicInC89); }
          return Parameters(names + [VA_ARGS], true, cursor + 1);
        }
        if part.kind != IdentifierKind || part.text == VA_ARGS { return BadParameters(ExpectedParameter); }
        if part.text in names { return BadParameters(DuplicateParameter); }
        if cursor + 1 == |args| || args[cursor + 1].text != "," {
          return Parameters(names + [part.text], false, cursor + 1);
        }
        if cursor + 2 < |args| && args[cursor + 2].text == ")" { return BadParameters(ExpectedParameter); }
        names, cursor := names + [part.text], cursor + 2;
      }
      r := Parameters(names, false, cursor);
    }

    /** Checks a replacement list from left to right. */
    method CheckParts(m: Macro) returns (problem: Option<DefineProblem>)
      ensures problem == FirstProblem(m, 0)
    {
      var r, i := m.replacement, 0;
      while i < |r|
        invariant i <= |r| && FirstProblem(m, i) == FirstProblem(m, 0)
      {
        if r[i].text == "##" && (i == 0 || i + 1 == |r| || r[i - 1].text == "##") { return Some(PasteNeedsOperands); }
        if m.functionLike && r[i].text == "#" && (i + 1 == |r| || r[i + 1].text !in m.parameters) {
          return Some(StringizeNeedsParameter);
        }
        if r[i].text == VA_ARGS && !m.variadic { return Some(MisplacedVaArgs); }
        i := i + 1;
      }
      problem := None;
    }

    method ParseDefinition(args: seq<PPToken>) returns (d: Definition)
      requires args != []
      ensures d == ReadDefinition(args, world.c89)
    {
      var m := Macro(false, false, [], args[1..]);
      if IsFunctionLike(args) {
        var parameters := Parameters([], false, 2);
        if |args| > 2 && args[2].text != ")" { parameters := ParseParameters(args); }
        if parameters.BadParameters? { return BadDefinition(parameters.problem); }
        var cursor := parameters.cursor;
        if cursor == |args| || args[cursor].text != ")" { return BadDefinition(ExpectedClose); }
        m := Macro(true, parameters.variadic, parameters.names, args[cursor + 1..]);
      }
      var problem := CheckParts(m);
      d := if problem.Some? then BadDefinition(problem.value) else Definition(m);
    }

    method DefineMacro(args: seq<PPToken>) returns (problem: Option<DefineProblem>)
      requires Valid() && AllLexical(args) && forall i :: 0 <= i < |args| ==> args[i].hidden == {}
      modifies `macros
      ensures match Define(old(macros), args, world.c89, world.host.isPredefined)
              case Table(table) => problem == None && macros == table
              case BadTable(p) => problem == Some(p) && macros == old(macros)
      ensures Valid()
    {
      DefineKeepsTable(macros, args, world.c89, world.host.isPredefined);
      if args == [] || args[0].kind != IdentifierKind || args[0].text == "defined" || args[0].text == VA_ARGS {
        return Some(ExpectedMacroName);
      }
      var name := args[0].text;
      if world.host.isPredefined(name) { return Some(PredefinedMacro); }
      var d := ParseDefinition(args);
      if d.BadDefinition? { return Some(d.problem); }
      if name in macros && !SameDefinition(macros[name], d.macro) { return Some(IncompatibleRedefinition); }
      macros := macros[name := d.macro];
      problem := None;
    }

    // ----- conditions -----

    /** Answers the defined operator in a condition. */
    method Prepare(input: seq<PPToken>) returns (r: Resolved)
      ensures r == ResolveDefined(world, macros, input)
    {
      var prepared: seq<PPToken>, rest := [], input;
      while rest != []
        invariant ResolvedAfter(prepared, ResolveDefined(world, macros, rest)) == ResolveDefined(world, macros, input)
        decreases |rest|
      {
        var t := rest[0];
        if t.kind != IdentifierKind || t.text != "defined" {
          ResolvedOnce(prepared, t, ResolveDefined(world, macros, rest[1..]));
          prepared, rest := prepared + [t], rest[1..];
        } else {
          var parenthesized := |rest| > 1 && rest[1].text == OPEN;
          var at := if parenthesized then 2 else 1;
          if at >= |rest| || rest[at].kind != IdentifierKind { return Unresolved(ExpectedDefinedName); }
          if parenthesized && (at + 1 == |rest| || rest[at + 1].text != CLOSE) {
            return Unresolved(ExpectedDefinedClose);
          }
          var answer := NumberToken(IsDefined(world, macros, rest[at].text));
          var next := rest[if parenthesized then at + 2 else at + 1..];
          ResolvedOnce(prepared, answer, ResolveDefined(world, macros, next));
          prepared, rest := prepared + [answer], next;
        }
      }
      assert prepared + [] == prepared;
      r := Resolved(prepared);
    }

    method EvaluateCondition(args: seq<PPToken>,
                             ghost pending: seq<PPToken>) returns (selected: bool, problem: Option<PreProblem>)
      requires Valid()
      modifies `expansions
      ensures match Condition(world, args, old(Now(pending)))
              case Chosen(b, s) => selected == b && problem == None && Now(pending) == s
              case Undecided(p) => problem == Some(p)
      ensures Valid()
    {
      selected := false;
      var resolved := Prepare(args);
      if resolved.Unresolved? { return false, Some(resolved.problem); }
      var expanded := Expand(resolved.tokens, 0);
      if expanded.Failed? { return false, Some(FromExpansion(expanded.problem)); }
      var evaluator := new PPExpression.Expression(Decoded(world, expanded.tokens), None);
      var verdict := evaluator.EvaluateAll();
      match verdict {
        case Rejected(p) => problem := Some(FromCondition(p));
        case Holds(b) => selected, problem := b, None;
      }
    }

    // ----- files -----

    /** Expands the waiting text into the output. */
    method FlushText(pending: seq<PPToken>) returns (problem: Option<PreProblem>)
      requires Valid()
      modifies `expansions, `output
      ensures match Flush(world, old(Now(pending)))
              case Ok(s) => problem == None && Now([]) == s
              case Fails(p) => problem == Some(p)
      ensures Valid()
    {
      var expanded := Expand(pending, 0);
      if expanded.Failed? { return Some(FromExpansion(expanded.problem)); }
      output := output + expanded.tokens;
      problem := None;
    }

    method RunSimple(directive: string, args: seq<PPToken>) returns (problem: Option<PreProblem>)
      requires Valid() && AllLexical(args) && forall i :: 0 <= i < |args| ==> args[i].hidden == {}
      modifies this
      ensures match Simple(world, directive, args, old(Now([])))
              case Ok(s) => problem == None && Now([]) == s
              case Fails(p) => problem == Some(p)
      ensures Valid()
    {
      problem := None;
      if directive == "define" {
        var p := DefineMacro(args);
        if p.Some? { problem := Some(FromDefinition(p.value)); }
      } else if directive == "undef" {
        if !IsOneName(args) { return Some(ExpectedOneName); }
        if world.host.isPredefined(args[0].text) { return Some(UndefinesPredefined); }
        macros := macros - {args[0].text};
      } else if directive == "include" {
        var included := world.includeFile(args, Pre(macros, expansions, output, []));
        if included.None? { return Some(IncludeFailed); }
        macros, expansions, output := included.value.macros, included.value.expansions, included.value.output;
      } else if directive == "pragma" && |args| == 1 && args[0].text == "once" {
      } else if directive == "error" {
        return Some(ErrorDirective);
      } else {
        return Some(UnsupportedDirective);
      }
    }

    /** The opening directives: the group is selected, or not, and a frame goes on the stack. */
    method OpenConditional(directive: string, args: seq<PPToken>, stack: seq<Frame>) returns (t: Turn)
      requires Valid() && Opens(directive) && AllLexical(args) && forall i :: 0 <= i < |args| ==> args[i].hidden == {}
      modifies `expansions
      ensures t == Directive(world, directive, args, stack, old(Now([]))) && Valid()
      ensures t.Turned? ==> t.state == Now([])
    {
      var active, selected := Active(stack), false;
      if directive != "if" {
        if !IsOneName(args) { return Halts(ExpectedOneName); }
        selected := IsDefined(world, macros, args[0].text);
        if directive == "ifndef" { selected := !selected; }
      } else if active {
        var problem;
        selected, problem := EvaluateCondition(args, []);
        if problem.Some? { return Halts(problem.value); }
      }
      t := Turned(stack + [Frame(active, active && selected, active && selected, false)],
                  Pre(macros, expansions, output, []));
    }

    /** #elif, #else and #endif work on the frame on top. */
    method ContinueConditional(directive: string, args: seq<PPToken>, stack: seq<Frame>) returns (t: Turn)
      requires Valid() && (directive == "elif" || directive == "else" || directive == "endif")
      requires AllLexical(args) && forall i :: 0 <= i < |args| ==> args[i].hidden == {}
      modifies `expansions
      ensures t == Directive(world, directive, args, stack, old(Now([]))) && Valid()
      ensures t.Turned? ==> t.state == Now([])
    {
      if stack == [] { return Halts(WithoutIf); }
      var frame := stack[|stack| - 1];
      if directive == "elif" {
        if frame.seenElse { return Halts(ElifAfterElse); }
        var selected, problem := false, None;
        if frame.parentActive && !frame.taken { selected, problem := EvaluateCondition(args, []); }
        if problem.Some? { return Halts(problem.value); }
        var active := frame.parentActive && !frame.taken && selected;
        return Turned(Top(stack, Frame(frame.parentActive, active, frame.taken || active, frame.seenElse)),
                      Pre(macros, expansions, output, []));
      }
      if args != [] { return Halts(UnexpectedTokens); }
      if directive == "endif" { return Turned(stack[..|stack| - 1], Pre(macros, expansions, output, [])); }
      if frame.seenElse { return Halts(DuplicateElse); }
      t := Turned(Top(stack, Frame(frame.parentActive, frame.parentActive && !frame.taken, true, true)),
                  Pre(macros, expansions, output, []));
    }

    /** One directive line after the # and its name have been taken apart. */
    method RunDirective(directive: string, args: seq<PPToken>, stack: seq<Frame>) returns (t: Turn)
      requires Valid() && AllLexical(args) && forall i :: 0 <= i < |args| ==> args[i].hidden == {}
      modifies this
      ensures t == Directive(world, directive, args, stack, old(Now([]))) && Valid()
      ensures t.Turned? ==> t.state == Now([])
    {
      if Opens(directive) {
        t := OpenConditional(directive, args, stack);
      } else if directive == "elif" || directive == "else" || directive == "endif" {
        t := ContinueConditional(directive, args, stack);
      } else if !Active(stack) {
        t := Turned(stack, Pre(macros, expansions, output, []));
      } else {
        var problem := RunSimple(directive, args);
        if problem.Some? { return Halts(problem.value); }
        t := Turned(stack, Pre(macros, expansions, output, []));
      }
    }

    /** Where the line that begins at begin ends. */
    method LineEnd(tokens: seq<PPToken>, begin: nat) returns (end: nat)
      requires begin <= |tokens|
      ensures begin <= end <= |tokens| && end - begin == LineLength(tokens[begin..])
    {
      end := begin;
      while end < |tokens| && tokens[end].kind != NewlineKind
        invariant begin <= end <= |tokens|
        invariant end - begin + LineLength(tokens[end..]) == LineLength(tokens[begin..])
      {
        assert tokens[end..][1..] == tokens[end + 1..];
        end := end + 1;
      }
    }

    /** One line: text waits, and a directive first has the waiting text expanded. */
    method ProcessLine(line: seq<PPToken>, stack: seq<Frame>, pending: seq<PPToken>)
      returns (problem: Option<PreProblem>, stack': seq<Frame>, pending': seq<PPToken>)
      requires Valid() && LineOk(line)
      modifies this
      ensures match Line(world, line, stack, old(Now(pending)))
              case Turned(frames, s) => problem == None && stack' == frames && Now(pending') == s
              case Halts(p) => problem == Some(p)
      ensures Valid()
    {
      hide Flush, Directive;
      problem, stack', pending' := None, stack, pending;
      if IsText(line) {
        if Active(stack) { pending' := pending + [line[0].(space := true)] + line[1..]; }
      } else {
        problem := FlushText(pending);
        if problem.Some? { return; }
        pending' := [];
        if |line| > 1 {
          ArgsOk(line);
          var t := RunDirective(DirectiveOf(line), ArgsOf(line), stack);
          if t.Halts? { return Some(t.problem), stack, []; }
          stack' := t.stack;
        }
      }
    }

    /** One file's tokens, line by line. */
    method ProcessTokens(tokens: seq<PPToken>) returns (problem: Option<PreProblem>)
      requires Valid() && LinesOk(Lines(tokens))
      modifies this
      ensures match Process(world, Lines(tokens), [], old(Now([])))
              case Ok(s) => problem == None && Now([]) == s
              case Fails(p) => problem == Some(p)
      ensures Valid()
    {
      hide Flush, Directives.Line, LineOk, Lines;
      ghost var whole := Process(world, Lines(tokens), [], Now([]));
      var stack: seq<Frame>, pending: seq<PPToken>, cursor := [], [], 0;
      assert tokens[0..] == tokens;
      while cursor < |tokens|
        invariant cursor <= |tokens| && Valid() && LinesOk(Lines(tokens[cursor..]))
        invariant Process(world, Lines(tokens[cursor..]), stack, Now(pending)) == whole
        decreases |tokens| - cursor
      {
        var end := LineEnd(tokens, cursor);
        var line := tokens[cursor..end];
        LinesStep(tokens, cursor, end);
        ghost var rest := Lines(tokens[if end < |tokens| then end + 1 else end..]);
        if line != [] {
          assert ([line] + rest)[0] == line && ([line] + rest)[1..] == rest;
          problem, stack, pending := ProcessLine(line, stack, pending);
          if problem.Some? { return; }
        }
        LineMoves(tokens, cursor, end);
        cursor := if end < |tokens| then end + 1 else end;
      }
      NoLines(tokens[cursor..]);
      problem := FlushText(pending);
      if problem == None && stack != [] { problem := Some(UnterminatedConditional); }
    }
  }

  lemma {:induction false} NoLines(tokens: seq<PPToken>)
    ensures tokens == [] ==> Lines(tokens) == []
  {
  }

  lemma {:induction false} LineMoves(tokens: seq<PPToken>, begin: nat, end: nat)
    requires begin < |tokens| && begin <= end <= |tokens| && end - begin == LineLength(tokens[begin..])
    ensures begin == end ==> end < |tokens|
  {
  }

  /** What splitting off one line leaves. */
  lemma {:induction false} LinesStep(tokens: seq<PPToken>, begin: nat, end: nat)
    requires begin < |tokens| && begin <= end <= |tokens| && end - begin == LineLength(tokens[begin..])
    ensures end < |tokens| ==> tokens[end].kind == NewlineKind
    ensures var line, rest := tokens[begin..end], Lines(tokens[if end < |tokens| then end + 1 else end..]);
            Lines(tokens[begin..]) == if line == [] then rest else [line] + rest
  {
    var here := tokens[begin..];
    assert end == begin || here[..end - begin] == tokens[begin..end];
    assert here[end - begin..] == tokens[end..];
    if end < |tokens| {
      assert here[end - begin] == tokens[end] == tokens[end..][0];
      assert tokens[end..][1..] == tokens[end + 1..];
    }
  }

  ghost function ResolvedAfter(prepared: seq<PPToken>, rest: Resolved): Resolved {
    match rest
    case Unresolved(p) => Unresolved(p)
    case Resolved(more) => Resolved(prepared + more)
  }

  lemma {:induction false} ResolvedOnce(prepared: seq<PPToken>, t: PPToken, rest: Resolved)
    ensures ResolvedAfter(prepared, ResolvedAfter([t], rest)) == ResolvedAfter(prepared + [t], rest)
  {
    if rest.Resolved? { assert prepared + ([t] + rest.tokens) == prepared + [t] + rest.tokens; }
  }

  /** Parts already substituted, followed by the rest. */
  ghost function Prefixed(parts: seq<Part>, rest: Substituted): Substituted {
    match rest
    case Unsubstituted(p) => Unsubstituted(p)
    case Substituted(more, n) => Substituted(parts + more, n)
  }

  lemma {:induction false} PrefixedTwice(a: seq<Part>, b: seq<Part>, rest: Substituted)
    ensures Prefixed(a, Prefixed(b, rest)) == Prefixed(a + b, rest)
  {
    if rest.Substituted? { assert a + (b + rest.parts) == a + b + rest.parts; }
  }
}
