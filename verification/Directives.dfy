/** One file through the preprocessor: lines of text, directives, and the stack of open conditionals. */
module Directives {
  import opened Wrappers
  import opened PPTokens
  import opened MacroDefinition
  import opened MacroArguments
  import opened MacroExpansion
  import PPExpression
  import PPValues

  /** The macro table, the expansions made so far, the tokens put out, and the text not yet expanded. */
  datatype Pre = Pre(macros: map<string, Macro>, expansions: nat, output: seq<PPToken>, pending: seq<PPToken>) {
    predicate Valid() {
      TableOk(macros) && expansions <= EXPANSION_LIMIT
    }
  }

  datatype PreProblem =
    | FromExpansion(expansion: ExpandProblem)
    | FromDefinition(definition: DefineProblem)
    | FromCondition(condition: PPValues.Problem)
    | ExpectedDefinedName | ExpectedDefinedClose
    | ExpectedOneName | WithoutIf | ElifAfterElse | DuplicateElse | UnexpectedTokens | UndefinesPredefined
    | ErrorDirective | UnsupportedDirective | IncludeFailed | UnterminatedConditional

  datatype Result = Ok(state: Pre) | Fails(problem: PreProblem)

  /** What a file is preprocessed in: the host of macro expansion, the language, how a token reads in an #if expression,
      and what including a file does. */
  datatype World = World(host: Host, c89: bool, decode: PPToken -> PPExpression.Token,
                         includeFile: (seq<PPToken>, Pre) -> Option<Pre>)

  ghost predicate WorldOk(w: World) {
    forall args, s: Pre :: s.Valid() && w.includeFile(args, s).Some? ==>
      w.includeFile(args, s).value.Valid() && w.includeFile(args, s).value.pending == s.pending
  }

  /** A line as the tokenizer leaves it: not empty, nothing hidden. */
  predicate LineOk(line: seq<PPToken>) {
    line != [] && AllLexical(line) && forall i :: 0 <= i < |line| ==> line[i].hidden == {}
  }

  predicate LinesOk(lines: seq<seq<PPToken>>) {
    forall i :: 0 <= i < |lines| ==> LineOk(lines[i])
  }

  // ----- conditions -----

  predicate IsDefined(w: World, macros: map<string, Macro>, name: string) {
    w.host.isPredefined(name) || name in macros
  }

  function NumberToken(b: bool): PPToken {
    PPToken(NumberKind, if b then "1" else "0", false, {}, "")
  }

  datatype Resolved = Resolved(tokens: seq<PPToken>) | Unresolved(problem: PreProblem)

  /** A condition with every use of the defined operator replaced by its answer. */
  function ResolveDefined(w: World, macros: map<string, Macro>, input: seq<PPToken>): Resolved
    decreases input
  {
    if input == [] then Resolved([])
    else if input[0].kind != IdentifierKind || input[0].text != "defined" then
      match ResolveDefined(w, macros, input[1..])
      case Unresolved(p) => Unresolved(p)
      case Resolved(rest) => Resolved([input[0]] + rest)
    else
      var parenthesized := |input| > 1 && input[1].text == OPEN;
      var at := if parenthesized then 2 else 1;
      if at >= |input| || input[at].kind != IdentifierKind then Unresolved(ExpectedDefinedName)
      else if parenthesized && (at + 1 == |input| || input[at + 1].text != CLOSE) then Unresolved(ExpectedDefinedClose)
      else
        match ResolveDefined(w, macros, input[if parenthesized then at + 2 else at + 1..])
        case Unresolved(p) => Unresolved(p)
        case Resolved(rest) => Resolved([NumberToken(IsDefined(w, macros, input[at].text))] + rest)
  }

  function Decoded(w: World, ts: seq<PPToken>): seq<PPExpression.Token> {
    if ts == [] then [] else [w.decode(ts[0])] + Decoded(w, ts[1..])
  }

  datatype Choice = Chosen(selected: bool, state: Pre) | Undecided(problem: PreProblem)

  /** Evaluates an #if or #elif condition. */
  function Condition(w: World, args: seq<PPToken>, s: Pre): (c: Choice)
    requires s.Valid()
    ensures c.Chosen? ==>
        c.state.Valid() && c.state.macros == s.macros && c.state.output == s.output && c.state.pending == s.pending
  {
    match ResolveDefined(w, s.macros, args)
    case Unresolved(p) => Undecided(p)
    case Resolved(prepared) =>
      match Expand(w.host, s.macros, prepared, 0, s.expansions)
      case Failed(p) => Undecided(FromExpansion(p))
      case Expanded(tokens, n) =>
        match PPExpression.Evaluate(Decoded(w, tokens), None)
        case Rejected(p) => Undecided(FromCondition(p))
        case Holds(b) => Chosen(b, s.(expansions := n))
  }

  predicate IsOneName(args: seq<PPToken>) {
    |args| == 1 && args[0].kind == IdentifierKind
  }

  predicate Opens(directive: string) {
    directive == "if" || directive == "ifdef" || directive == "ifndef"
  }

  /** Whether an opening directive selects its group. An #if condition in a skipped group is not looked at. */
  function OpenerChoice(w: World, directive: string, args: seq<PPToken>, active: bool, s: Pre): (c: Choice)
    requires s.Valid()
    ensures c.Chosen? ==>
        c.state.Valid() && c.state.macros == s.macros && c.state.output == s.output && c.state.pending == s.pending
  {
    if directive != "if" then
      if !IsOneName(args) then Undecided(ExpectedOneName)
      else Chosen(IsDefined(w, s.macros, args[0].text) == (directive == "ifdef"), s)
    else if active then Condition(w, args, s)
    else Chosen(false, s)
  }

  // ----- directives that are not conditionals -----

  /** #define, #undef, #include, #pragma once and #error, in a group that is not skipped. */
  function Simple(w: World, directive: string, args: seq<PPToken>, s: Pre): (r: Result)
    requires s.Valid() && WorldOk(w) && AllLexical(args) && forall i :: 0 <= i < |args| ==> args[i].hidden == {}
    ensures r.Ok? ==> r.state.Valid()
  {
    if directive == "define" then
      DefineKeepsTable(s.macros, args, w.c89, w.host.isPredefined);
      match Define(s.macros, args, w.c89, w.host.isPredefined)
      case BadTable(p) => Fails(FromDefinition(p))
      case Table(macros) => Ok(s.(macros := macros))
    else if directive == "undef" then
      if !IsOneName(args) then Fails(ExpectedOneName)
      else if w.host.isPredefined(args[0].text) then Fails(UndefinesPredefined)
      else Ok(s.(macros := s.macros - {args[0].text}))
    else if directive == "include" then
      match w.includeFile(args, s)
      case None => Fails(IncludeFailed)
      case Some(s1) => Ok(s1)
    else if directive == "pragma" && |args| == 1 && args[0].text == "once" then Ok(s)
    else if directive == "error" then Fails(ErrorDirective)
    else Fails(UnsupportedDirective)
  }

  // ----- the stack of conditionals -----

  datatype Frame = Frame(parentActive: bool, active: bool, taken: bool, seenElse: bool)

  predicate Active(stack: seq<Frame>) {
    stack == [] || stack[|stack| - 1].active
  }

  datatype Turn = Turned(stack: seq<Frame>, state: Pre) | Halts(problem: PreProblem)

  function Top(stack: seq<Frame>, f: Frame): seq<Frame>
    requires stack != []
  {
    stack[|stack| - 1 := f]
  }

  /** One directive. */
  function Directive(w: World, directive: string, args: seq<PPToken>, stack: seq<Frame>, s: Pre): (t: Turn)
    requires s.Valid() && WorldOk(w) && AllLexical(args) && forall i :: 0 <= i < |args| ==> args[i].hidden == {}
    ensures t.Turned? ==> t.state.Valid()
  {
    var active := Active(stack);
    if Opens(directive) then
      match OpenerChoice(w, directive, args, active, s)
      case Undecided(p) => Halts(p)
      case Chosen(selected, s1) => Turned(stack + [Frame(active, active && selected, active && selected, false)], s1)
    else if directive == "elif" then
      if stack == [] then Halts(WithoutIf) else Elif(w, args, stack, s)
    else if directive == "else" then
      if stack == [] then Halts(WithoutIf)
      else
        var f := stack[|stack| - 1];
        if args != [] then Halts(UnexpectedTokens)
        else if f.seenElse then Halts(DuplicateElse)
        else Turned(Top(stack, Frame(f.parentActive, f.parentActive && !f.taken, true, true)), s)
    else if directive == "endif" then
      if stack == [] then Halts(WithoutIf)
      else if args != [] then Halts(UnexpectedTokens)
      else Turned(stack[..|stack| - 1], s)
    else if !active then Turned(stack, s)
    else
      match Simple(w, directive, args, s)
      case Fails(p) => Halts(p)
      case Ok(s1) => Turned(stack, s1)
  }

  function Elif(w: World, args: seq<PPToken>, stack: seq<Frame>, s: Pre): (t: Turn)
    requires s.Valid() && stack != []
    ensures t.Turned? ==> t.state.Valid()
  {
    var f := stack[|stack| - 1];
    if f.seenElse then Halts(ElifAfterElse)
    else
      match if f.parentActive && !f.taken then Condition(w, args, s) else Chosen(false, s)
      case Undecided(p) => Halts(p)
      case Chosen(selected, s1) =>
        var active := f.parentActive && !f.taken && selected;
        Turned(Top(stack, Frame(f.parentActive, active, f.taken || active, f.seenElse)), s1)
  }

  // ----- lines -----

  predicate IsText(line: seq<PPToken>)
    requires line != []
  {
    line[0].text != "#"
  }

  /** The directive a line holds; empty for a # alone. */
  function DirectiveOf(line: seq<PPToken>): string {
    if |line| < 2 then "" else line[1].text
  }

  function ArgsOf(line: seq<PPToken>): seq<PPToken> {
    if |line| < 2 then [] else line[2..]
  }

  /** A line of text waits until the next directive, so that an invocation can go on over several lines. */
  function AddText(line: seq<PPToken>, active: bool, s: Pre): (s': Pre)
    requires line != []
  {
    if active then s.(pending := s.pending + [line[0].(space := true)] + line[1..]) else s
  }

  /** Expands the waiting text with the macros as they are now. */
  function Flush(w: World, s: Pre): (r: Result)
    requires s.Valid()
    ensures r.Ok? ==> r.state.Valid() && r.state.macros == s.macros && r.state.pending == []
  {
    match Expand(w.host, s.macros, s.pending, 0, s.expansions)
    case Failed(p) => Fails(FromExpansion(p))
    case Expanded(tokens, n) => Ok(Pre(s.macros, n, s.output + tokens, []))
  }

  lemma {:induction false} ArgsOk(line: seq<PPToken>)
    requires LineOk(line)
    ensures AllLexical(ArgsOf(line)) && forall i :: 0 <= i < |ArgsOf(line)| ==> ArgsOf(line)[i].hidden == {}
  {
  }

  function Line(w: World, line: seq<PPToken>, stack: seq<Frame>, s: Pre): (t: Turn)
    requires s.Valid() && WorldOk(w) && LineOk(line)
    ensures t.Turned? ==> t.state.Valid()
  {
    if IsText(line) then Turned(stack, AddText(line, Active(stack), s))
    else
      match Flush(w, s)
      case Fails(p) => Halts(p)
      case Ok(s1) =>
        if |line| == 1 then Turned(stack, s1)
        else
          ArgsOk(line);
          Directive(w, DirectiveOf(line), ArgsOf(line), stack, s1)
  }

  /** The machine: line after line, with a stack of open conditionals. */
  function Process(w: World, lines: seq<seq<PPToken>>, stack: seq<Frame>, s: Pre): (r: Result)
    requires s.Valid() && WorldOk(w) && LinesOk(lines)
    ensures r.Ok? ==> r.state.Valid()
    decreases lines
  {
    if lines == [] then
      match Flush(w, s)
      case Fails(p) => Fails(p)
      case Ok(s1) => if stack == [] then Ok(s1) else Fails(UnterminatedConditional)
    else
      match Line(w, lines[0], stack, s)
      case Halts(p) => Fails(p)
      case Turned(stack1, s1) => Process(w, lines[1..], stack1, s1)
  }

  // ----- what every step keeps -----

  /** Each conditional sits in a group of the one below it. */
  predicate StackOk(stack: seq<Frame>) {
    && (forall i :: 0 <= i < |stack| ==> stack[i].parentActive == Active(stack[..i]))
    && (forall i :: 0 <= i < |stack| && stack[i].active ==> stack[i].parentActive && stack[i].taken)
    && (forall i :: 0 <= i < |stack| && stack[i].seenElse ==> stack[i].taken)
  }

  lemma {:induction false} PushKeeps(stack: seq<Frame>, f: Frame)
    requires StackOk(stack) && f.parentActive == Active(stack) && (f.active ==> f.parentActive && f.taken)
    requires f.seenElse ==> f.taken
    ensures StackOk(stack + [f])
  {
    var next := stack + [f];
    assert next[..|stack|] == stack;
    assert forall i :: 0 <= i < |stack| ==> next[..i] == stack[..i];
  }

  lemma {:induction false} TopKeeps(stack: seq<Frame>, f: Frame)
    requires StackOk(stack) && stack != [] && f.parentActive == stack[|stack| - 1].parentActive
    requires (f.active ==> f.parentActive && f.taken) && (f.seenElse ==> f.taken)
    ensures StackOk(Top(stack, f))
  {
    PopKeeps(stack);
    assert Top(stack, f) == stack[..|stack| - 1] + [f];
    PushKeeps(stack[..|stack| - 1], f);
  }

  lemma {:induction false} PopKeeps(stack: seq<Frame>)
    requires StackOk(stack) && stack != []
    ensures StackOk(stack[..|stack| - 1])
  {
    var next := stack[..|stack| - 1];
    assert forall i :: 0 <= i < |next| ==> next[..i] == stack[..i];
  }

  lemma {:induction false} LineKeepsStack(w: World, line: seq<PPToken>, stack: seq<Frame>, s: Pre)
    requires s.Valid() && WorldOk(w) && LineOk(line) && StackOk(stack)
    ensures Line(w, line, stack, s).Turned? ==> StackOk(Line(w, line, stack, s).stack)
  {
    hide Flush, Simple, OpenerChoice, Condition, StackOk;
    var t := Line(w, line, stack, s);
    if t.Turned? && !IsText(line) && |line| > 1 {
      DirectiveKeepsStack(w, DirectiveOf(line), ArgsOf(line), stack, Flush(w, s).state);
    }
  }

  lemma {:induction false} DirectiveKeepsStack(w: World, directive: string, args: seq<PPToken>, stack: seq<Frame>,
                                               s: Pre)
    requires s.Valid() && WorldOk(w) && StackOk(stack)
    requires AllLexical(args) && forall i :: 0 <= i < |args| ==> args[i].hidden == {}
    ensures var t := Directive(w, directive, args, stack, s); t.Turned? ==> StackOk(t.stack)
  {
    hide Simple, OpenerChoice, Condition;
    var t := Directive(w, directive, args, stack, s);
    if t.Turned? && t.stack != stack {
      if |t.stack| > |stack| {
        PushKeeps(stack, t.stack[|stack|]);
      } else if |t.stack| < |stack| {
        PopKeeps(stack);
      } else {
        TopKeeps(stack, t.stack[|stack| - 1]);
      }
    }
  }
}
