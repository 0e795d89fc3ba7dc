/** Macro expansion: substitution of arguments, # and ##, hidden sets and rescanning. */
module MacroExpansion {
  import opened Wrappers
  import opened PPTokens
  import opened MacroArguments

  const DEPTH_LIMIT: nat := 128
  const HIDE_LIMIT: nat := 128
  const EXPANSION_LIMIT: nat := 100000

  datatype Builtin = Builtin(isString: bool, text: string)

  /** What expansion asks of its surroundings: the tokenizer, and the predefined macros. */
  datatype Host = Host(tokenize: string -> Option<seq<PPToken>>, isPredefined: string -> bool,
                       predefined: string -> Builtin)

  ghost predicate HostOk(h: Host) {
    forall s :: h.tokenize(s).Some? ==>
      AllLexical(h.tokenize(s).value) && forall i :: 0 <= i < |h.tokenize(s).value| ==>
        h.tokenize(s).value[i].hidden == {}
  }

  datatype ExpandProblem = ExpansionLimit | UnterminatedInvocation | WrongArgumentCount | BadPaste

  // ----- # and ## -----

  /** An argument's spelling as a string literal. */
  function Stringify(arg: seq<PPToken>): string {
    "\"" + Spellings(arg, true) + "\""
  }

  function Spellings(arg: seq<PPToken>, first: bool): string {
    if arg == [] then ""
    else
      var literal := arg[0].kind == StringKind || arg[0].kind == CharacterKind;
      (if !first && arg[0].space then " " else "") + Escaped(arg[0].Spelling(), literal) + Spellings(arg[1..], false)
  }

  function Escaped(s: string, literal: bool): string {
    if s == "" then ""
    else (if literal && (s[0] == '\\' || s[0] == '"') then ['\\', s[0]] else [s[0]]) + Escaped(s[1..], literal)
  }

  /** A token of a substituted replacement list. A placemarker is empty. */
  datatype Part = Part(token: PPToken, paste: bool, empty: bool)

  function Plain(t: PPToken): Part { Part(t, false, false) }

  function Plains(ts: seq<PPToken>): (ps: seq<Part>)
    ensures |ps| == |ts| && forall i :: 0 <= i < |ts| ==> ps[i] == Plain(ts[i])
  {
    if ts == [] then [] else [Plain(ts[0])] + Plains(ts[1..])
  }

  /** Which parameter a token names; |m.parameters| if none. */
  function ParameterIndex(m: Macro, t: PPToken): (i: nat)
    ensures i <= |m.parameters|
  {
    if t.kind != IdentifierKind then |m.parameters| else IndexOf(m.parameters, t.text)
  }

  predicate IsStringize(m: Macro, i: nat)
    requires i < |m.replacement|
  {
    m.functionLike && m.replacement[i].text == "#"
  }

  predicate IsPaste(m: Macro, i: nat)
    requires i < |m.replacement|
  {
    m.replacement[i].text == "##"
  }

  /** A parameter whose argument is expanded before it is substituted, unless it stands next to ##. */
  predicate IsParameter(m: Macro, i: nat)
    requires i < |m.replacement|
  {
    !IsStringize(m, i) && !IsPaste(m, i) && m.functionLike && ParameterIndex(m, m.replacement[i]) < |m.parameters|
  }

  predicate IsPasted(m: Macro, i: nat)
    requires i < |m.replacement|
  {
    (i > 0 && IsPaste(m, i - 1)) || (i + 1 < |m.replacement| && IsPaste(m, i + 1))
  }

  /** # takes the parameter after it along. */
  function Width(m: Macro, i: nat): (w: nat)
    requires i < |m.replacement| && MacroOk(m)
    ensures 1 <= w && i + w <= |m.replacement|
  {
    assert PartOk(m, i);
    if IsStringize(m, i) then 2 else 1
  }

  /** In an accepted definition # is followed by a parameter. */
  lemma {:induction false} StringizeNamesParameter(m: Macro, i: nat)
    requires MacroOk(m) && i < |m.replacement| && IsStringize(m, i)
    ensures i + 1 < |m.replacement| && ParameterIndex(m, m.replacement[i + 1]) < |m.parameters|
  {
    assert PartOk(m, i);
    var next := m.replacement[i + 1];
    var k :| 0 <= k < |m.parameters| && m.parameters[k] == next.text;
    assert Lexical(next);
  }

  /** What replacement token i becomes, given the arguments and those of them that have been expanded. */
  function PartsAt(m: Macro, args: seq<seq<PPToken>>, prepared: seq<Option<seq<PPToken>>>, i: nat): seq<Part>
    requires MacroOk(m) && i < |m.replacement| && |args| == |prepared| == |m.parameters|
  {
    var part := m.replacement[i];
    if IsStringize(m, i) then
      StringizeNamesParameter(m, i);
      [Plain(part.(kind := StringKind, text := Stringify(args[ParameterIndex(m, m.replacement[i + 1])]), original :=
                   ""))]
    else if IsPaste(m, i) then [Part(part, true, false)]
    else if !IsParameter(m, i) then [Plain(part)]
    else
      var index := ParameterIndex(m, part);
      var value := if IsPasted(m, i) then args[index] else prepared[index].UnwrapOr([]);
      if value == [] then (if IsPasted(m, i) then [Part(part, false, true)] else [])
      else Plains([value[0].(space := part.space)] + value[1..])
  }

  // ----- every ## has its operands -----

  /** Each paste in parts is followed by an operand, and preceded by one unless it comes first, when done holds one. */
  predicate Pasteable(done: seq<Part>, parts: seq<Part>) {
    forall k :: 0 <= k < |parts| && parts[k].paste ==>
      k + 1 < |parts| && !parts[k + 1].paste && (k == 0 ==> done != [])
  }

  /** Parts that came from replacement token i on: they begin with a paste only if that token is one, and they are not
      empty after a paste. */
  predicate Shaped(m: Macro, i: nat, parts: seq<Part>)
    requires i <= |m.replacement|
  {
    && (forall k :: 0 <= k < |parts| && parts[k].paste ==> k + 1 < |parts| && !parts[k + 1].paste)
    && (parts != [] && parts[0].paste ==> i < |m.replacement| && IsPaste(m, i))
    && (0 < i < |m.replacement| && IsPaste(m, i - 1) ==> parts != [])
  }

  lemma {:induction false} PartsAtShape(m: Macro, args: seq<seq<PPToken>>, prepared: seq<Option<seq<PPToken>>>, i: nat)
    requires MacroOk(m) && i < |m.replacement| && |args| == |prepared| == |m.parameters|
    ensures var parts := PartsAt(m, args, prepared, i);
            && (IsPaste(m, i) ==> |parts| == 1 && parts[0].paste)
            && (!IsPaste(m, i) ==> forall k :: 0 <= k < |parts| ==> !parts[k].paste)
            && (IsPasted(m, i) || IsStringize(m, i) ==> parts != [])
  {
    if IsStringize(m, i) { assert m.replacement[i].text != "##"; }
  }

  lemma {:induction false} SubstituteShape(m: Macro, args: seq<seq<PPToken>>, prepared: seq<Option<seq<PPToken>>>,
                                           i: nat, rest: seq<Part>)
    requires MacroOk(m) && i < |m.replacement| && |args| == |prepared| == |m.parameters|
    requires Shaped(m, i + Width(m, i), rest)
    ensures Shaped(m, i, PartsAt(m, args, prepared, i) + rest)
  {
    hide PartsAt;
    PartsAtShape(m, args, prepared, i);
    var parts, n := PartsAt(m, args, prepared, i), i + Width(m, i);
    assert PartOk(m, i);
    if n < |m.replacement| { assert PartOk(m, n); }
    if IsStringize(m, i) {
      NotPaste(m, i);
    }
  }

  /** # and the parameter after it are not ##. */
  lemma {:induction false} NotPaste(m: Macro, i: nat)
    requires MacroOk(m) && i < |m.replacement| && IsStringize(m, i)
    ensures i + 1 < |m.replacement| && !IsPaste(m, i) && !IsPaste(m, i + 1)
  {
    StringizeNamesParameter(m, i);
    assert !IsIdentifier("##") by { assert !IsAlpha("##"[0]); }
  }

  lemma {:induction false} ShapedIsPasteable(m: Macro, parts: seq<Part>)
    requires MacroOk(m) && Shaped(m, 0, parts)
    ensures Pasteable([], parts)
  {
    if m.replacement != [] { assert PartOk(m, 0); }
  }

  // ----- pasting -----

  predicate StartsComment(s: string) {
    s == "/*" || s == "//"
  }

  /** The one token that two spellings form together. */
  function Joined(h: Host, left: PPToken, right: PPToken): Option<PPToken> {
    var spelling := left.Spelling() + right.Spelling();
    if StartsComment(spelling) then None
    else
      match h.tokenize(spelling)
      case None => None
      case Some(ts) =>
        if |ts| != 1 || ts[0].kind == OtherKind || ts[0].kind == NewlineKind then None
        else Some(ts[0].(space := left.space, hidden := ts[0].hidden + left.hidden * right.hidden))
  }

  /** left ## right. A placemarker gives way to the other operand. */
  function PasteTwo(h: Host, left: Part, right: Part): Option<Part> {
    if left.empty then Some(right.(token := right.token.(space := left.token.space)))
    else if right.empty then Some(left)
    else
      match Joined(h, left.token, right.token)
      case None => None
      case Some(t) => Some(Plain(t))
  }

  /** All pastes, from left to right. */
  function PasteAll(h: Host, parts: seq<Part>, done: seq<Part>): Option<seq<Part>>
    requires Pasteable(done, parts)
    decreases |parts|
  {
    if parts == [] then Some(done)
    else if !parts[0].paste then PasteAll(h, parts[1..], done + [parts[0]])
    else
      match PasteTwo(h, done[|done| - 1], parts[1])
      case None => None
      case Some(p) => PasteAll(h, parts[2..], done[..|done| - 1] + [p])
  }

  /** The tokens to rescan: no placemarkers, and the macro hidden in each. */
  function Finish(parts: seq<Part>, hidden: set<string>): seq<PPToken> {
    if parts == [] then []
    else
      (if parts[0].empty then [] else [parts[0].token.(hidden := parts[0].token.hidden + hidden)]) + Finish(parts[1..],
          hidden)
  }

  /** Pushes the replacement back in front of the input that is still to be scanned. */
  function PushBack(replacement: seq<PPToken>, space: bool, rest: seq<PPToken>): seq<PPToken> {
    if replacement != [] then [replacement[0].(space := space)] + replacement[1..] + rest
    else if rest != [] then [rest[0].(space := rest[0].space || space)] + rest[1..]
    else []
  }

  // ----- the scan -----

  datatype Outcome = Expanded(tokens: seq<PPToken>, expansions: nat) | Failed(problem: ExpandProblem)
  datatype Substituted = Substituted(parts: seq<Part>, expansions: nat) | Unsubstituted(problem: ExpandProblem)
  datatype Prepared = Prepared(values: seq<Option<seq<PPToken>>>, expansions: nat) | Unprepared(problem: ExpandProblem)

  /** One turn of the scan: its first token is done, or is replaced in the pending input. */
  datatype Move =
    | Emitted(token: PPToken, expansions: nat)
    | Replaced(pending: seq<PPToken>, expansions: nat)
    | Stopped(problem: ExpandProblem)

  function BuiltinToken(h: Host, t: PPToken): PPToken {
    var b := h.predefined(t.text);
    t.(kind := if b.isString then StringKind else NumberKind, text := b.text, original := "")
  }

  function Expand(h: Host, macros: map<string, Macro>, input: seq<PPToken>, depth: nat, n: nat): (r: Outcome)
    requires TableOk(macros) && n <= EXPANSION_LIMIT
    ensures r.Expanded? ==> n <= r.expansions <= EXPANSION_LIMIT
    decreases if depth < DEPTH_LIMIT then DEPTH_LIMIT - depth else 0, EXPANSION_LIMIT - n, |input|, 2
  {
    if depth >= DEPTH_LIMIT then Failed(ExpansionLimit) else Scan(h, macros, input, [], depth, n)
  }

  function Scan(h: Host, macros: map<string, Macro>, pending: seq<PPToken>, output: seq<PPToken>, depth: nat,
                n: nat): (r: Outcome)
    requires TableOk(macros) && n <= EXPANSION_LIMIT && depth < DEPTH_LIMIT
    ensures r.Expanded? ==> n <= r.expansions <= EXPANSION_LIMIT
    decreases DEPTH_LIMIT - depth, EXPANSION_LIMIT - n, |pending|, 1
  {
    if pending == [] then Expanded(output, n)
    else
      match Step(h, macros, pending, depth, n)
      case Stopped(p) => Failed(p)
      case Emitted(t, k) => Scan(h, macros, pending[1..], output + [t], depth, k)
      case Replaced(next, k) => Scan(h, macros, next, output, depth, k)
  }

  /** An identifier that is a macro's name, not hidden, and followed by an argument list if it needs one. */
  predicate IsInvocation(macros: map<string, Macro>, pending: seq<PPToken>)
    requires pending != []
  {
    var t := pending[0];
    && t.text in macros
    && (macros[t.text].functionLike ==> |pending| > 1 && pending[1].text == OPEN)
  }

  function Step(h: Host, macros: map<string, Macro>, pending: seq<PPToken>, depth: nat, n: nat): (r: Move)
    requires TableOk(macros) && n <= EXPANSION_LIMIT && depth < DEPTH_LIMIT && pending != []
    ensures r.Emitted? ==> n <= r.expansions <= EXPANSION_LIMIT
    ensures r.Replaced? ==> n < r.expansions <= EXPANSION_LIMIT
    decreases DEPTH_LIMIT - depth, EXPANSION_LIMIT - n, |pending|, 0
  {
    var t := pending[0];
    if t.kind != IdentifierKind || t.text in t.hidden then Emitted(t, n)
    else if h.isPredefined(t.text) then
      if n + 1 > EXPANSION_LIMIT then Stopped(ExpansionLimit) else Emitted(BuiltinToken(h, t), n + 1)
    else if !IsInvocation(macros, pending) then Emitted(t, n)
    else if |t.hidden| >= HIDE_LIMIT || n + 1 > EXPANSION_LIMIT then Stopped(ExpansionLimit)
    else Invoke(h, macros, pending, depth, n + 1)
  }

  /** The invocation that the pending input starts with. */
  function Invoke(h: Host, macros: map<string, Macro>, pending: seq<PPToken>, depth: nat, n: nat): (r: Move)
    requires TableOk(macros) && n <= EXPANSION_LIMIT && depth < DEPTH_LIMIT && pending != []
    requires IsInvocation(macros, pending)
    ensures !r.Emitted? && (r.Replaced? ==> n <= r.expansions <= EXPANSION_LIMIT)
    decreases DEPTH_LIMIT - depth, EXPANSION_LIMIT - n, |macros[pending[0].text].replacement| + 2, 0
  {
    var t, m := pending[0], macros[pending[0].text];
    if !m.functionLike then Replace(h, macros, t, m, [], t.hidden, pending[1..], depth, n)
    else
      var inv := Collect(pending[2..], 0, [[]], []);
      if inv.Unterminated? then Stopped(UnterminatedInvocation)
      else
        CollectSplits(pending[2..], 0, [[]], []);
        match Match(m, inv)
        case None => Stopped(WrongArgumentCount)
        case Some(args) =>
          MatchConserves(m, inv);
          Replace(h, macros, t, m, args, t.hidden * inv.closer.hidden, inv.rest, depth, n)
  }

  /** Substitution, pasting and pushing back. */
  function Replace(h: Host, macros: map<string, Macro>, t: PPToken, m: Macro, args: seq<seq<PPToken>>,
                   hidden: set<string>, rest: seq<PPToken>, depth: nat, n: nat): (r: Move)
    requires TableOk(macros) && n <= EXPANSION_LIMIT && depth < DEPTH_LIMIT && MacroOk(m) && |args| == |m.parameters|
    ensures !r.Emitted? && (r.Replaced? ==> n <= r.expansions <= EXPANSION_LIMIT)
    decreases DEPTH_LIMIT - depth, EXPANSION_LIMIT - n, |m.replacement| + 1, 0
  {
    match Substitute(h, macros, m, args, 0, Unexpanded(|args|), depth, n)
    case Unsubstituted(p) => Stopped(p)
    case Substituted(parts, k) =>
      ShapedIsPasteable(m, parts);
      match PasteAll(h, parts, [])
      case None => Stopped(BadPaste)
      case Some(done) => Replaced(PushBack(Finish(done, hidden + {t.text}), t.space, rest), k)
  }

  function Unexpanded(n: nat): (r: seq<Option<seq<PPToken>>>)
    ensures |r| == n
  {
    if n == 0 then [] else Unexpanded(n - 1) + [None]
  }

  /** The replacement list from token i on with the arguments in place. An argument is expanded when it is first needed,
      before the macro itself is hidden. */
  function Substitute(h: Host, macros: map<string, Macro>, m: Macro, args: seq<seq<PPToken>>, i: nat,
                      prepared: seq<Option<seq<PPToken>>>, depth: nat, n: nat): (r: Substituted)
    requires TableOk(macros) && n <= EXPANSION_LIMIT && depth < DEPTH_LIMIT && MacroOk(m)
    requires i <= |m.replacement| && |args| == |prepared| == |m.parameters|
    ensures r.Substituted? ==> n <= r.expansions <= EXPANSION_LIMIT && Shaped(m, i, r.parts)
    decreases DEPTH_LIMIT - depth, EXPANSION_LIMIT - n, |m.replacement| - i, 1
  {
    if i == |m.replacement| then Substituted([], n)
    else
      match Prepare(h, macros, m, args, i, prepared, depth, n)
      case Unprepared(p) => Unsubstituted(p)
      case Prepared(values, k) =>
        match Substitute(h, macros, m, args, i + Width(m, i), values, depth, k)
        case Unsubstituted(p) => Unsubstituted(p)
        case Substituted(parts, k') =>
          SubstituteShape(m, args, values, i, parts);
          Substituted(PartsAt(m, args, values, i) + parts, k')
  }

  /** Expands the argument that token i needs, if it has not been expanded yet. */
  function Prepare(h: Host, macros: map<string, Macro>, m: Macro, args: seq<seq<PPToken>>, i: nat,
                   prepared: seq<Option<seq<PPToken>>>, depth: nat, n: nat): (r: Prepared)
    requires TableOk(macros) && n <= EXPANSION_LIMIT && depth < DEPTH_LIMIT && MacroOk(m)
    requires i < |m.replacement| && |args| == |prepared| == |m.parameters|
    ensures r.Prepared? ==> n <= r.expansions <= EXPANSION_LIMIT && |r.values| == |prepared|
    decreases DEPTH_LIMIT - depth, EXPANSION_LIMIT - n, |m.replacement| - i, 0
  {
    var index := ParameterIndex(m, m.replacement[i]);
    if !IsParameter(m, i) || IsPasted(m, i) || prepared[index].Some? then Prepared(prepared, n)
    else
      match Expand(h, macros, args[index], depth + 1, n)
      case Failed(p) => Unprepared(p)
      case Expanded(tokens, k) => Prepared(prepared[index := Some(tokens)], k)
  }
}
