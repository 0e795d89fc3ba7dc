/** What macro replacement means (C99 section 6.10.3), said without the scan: a relation between token lists, in which
    arguments go to parameters by name. Expansion answers with the one list that is related to its input. */
module MacroMeaning {
  import opened Wrappers
  import opened PPTokens
  import opened MacroArguments
  import opened MacroExpansion

  // ----- arguments by name -----

  /** t is spelled like parameter k. */
  predicate Names(m: Macro, t: PPToken, k: nat) {
    k < |m.parameters| && m.parameters[k] == t.text
  }

  /** Replacement token i is the operand of a # before it. */
  predicate IsQuoted(m: Macro, i: nat)
    requires i < |m.replacement|
  {
    m.functionLike && i > 0 && m.replacement[i - 1].text == "#"
  }

  predicate IsBesidePaste(m: Macro, i: nat)
    requires i < |m.replacement|
  {
    || (i > 0 && m.replacement[i - 1].text == "##")
    || (i + 1 < |m.replacement| && m.replacement[i + 1].text == "##")
  }

  /** Tokens of an argument where a parameter stood: the first one is spaced as the parameter was. */
  function Spaced(value: seq<PPToken>, space: bool): (ts: seq<PPToken>)
    ensures |ts| == |value|
  {
    if value == [] then [] else [value[0].(space := space)] + value[1..]
  }

  /** ps are these tokens, none of them a paste or a placemarker. */
  predicate AreTokens(ps: seq<Part>, ts: seq<PPToken>) {
    |ps| == |ts| && forall j :: 0 <= j < |ts| ==> ps[j] == Part(ts[j], false, false)
  }

  /** What a parameter contributes: beside ## its argument as it was written, or a placemarker if that is empty, and
      elsewhere its argument completely expanded. */
  predicate Occurs(m: Macro, i: nat, written: seq<PPToken>, expanded: seq<PPToken>, ps: seq<Part>)
    requires i < |m.replacement|
  {
    var t := m.replacement[i];
    if !IsBesidePaste(m, i) then AreTokens(ps, Spaced(expanded, t.space))
    else if written == [] then ps == [Part(t, false, true)]
    else AreTokens(ps, Spaced(written, t.space))
  }

  /** # makes a string literal of the argument's spelling. */
  function Quotation(t: PPToken, arg: seq<PPToken>): Part {
    Part(PPToken(StringKind, Stringify(arg), t.space, t.hidden, ""), false, false)
  }

  /** What replacement token i contributes when args are the arguments as written and expanded the same completely
      expanded: for every k, a token spelled as parameter k contributes argument k. */
  ghost predicate Contributes(m: Macro, args: seq<seq<PPToken>>, expanded: seq<seq<PPToken>>, i: nat, ps: seq<Part>)
    requires i < |m.replacement| && |args| == |expanded| == |m.parameters|
  {
    var t := m.replacement[i];
    if IsQuoted(m, i) then ps == []
    else if m.functionLike && t.text == "#" then
      i + 1 < |m.replacement| &&
      forall k: nat :: Names(m, m.replacement[i + 1], k) ==> ps == [Quotation(t, args[k])]
    else if t.text == "##" then ps == [Part(t, true, false)]
    else
      && (forall k: nat :: Names(m, t, k) ==> Occurs(m, i, args[k], expanded[k], ps))
      && ((forall k: nat :: !Names(m, t, k)) ==> ps == [Part(t, false, false)])
  }

  function Flat(cs: seq<seq<Part>>): seq<Part> {
    if cs == [] then [] else cs[0] + Flat(cs[1..])
  }

  /** parts are the contributions of all replacement tokens, in order. */
  ghost predicate Substitutes(m: Macro, args: seq<seq<PPToken>>, expanded: seq<seq<PPToken>>, parts: seq<Part>)
    requires |args| == |expanded| == |m.parameters|
  {
    exists cs :: AllContribute(m, args, expanded, cs) && parts == Flat(cs)
  }

  ghost predicate AllContribute(m: Macro, args: seq<seq<PPToken>>, expanded: seq<seq<PPToken>>, cs: seq<seq<Part>>)
    requires |args| == |expanded| == |m.parameters|
  {
    |cs| == |m.replacement| && forall i :: 0 <= i < |cs| ==> Contributes(m, args, expanded, i, cs[i])
  }

  /** Parameter k stands somewhere in the replacement list where its argument is expanded. */
  ghost predicate IsNeeded(m: Macro, k: nat) {
    exists i :: 0 <= i < |m.replacement| && NeedsAt(m, i, k)
  }

  predicate NeedsAt(m: Macro, i: nat, k: nat)
    requires i < |m.replacement|
  {
    Names(m, m.replacement[i], k) && !IsQuoted(m, i) && !IsBesidePaste(m, i)
  }

  // ----- pasting -----

  /** l ## r is q: a placemarker gives way to the other operand, and two spellings together are one token, hidden from
      what both were hidden from. */
  ghost predicate Combines(h: Host, l: Part, r: Part, q: Part) {
    if l.empty then q == Part(r.token.(space := l.token.space), r.paste, r.empty)
    else if r.empty then q == l
    else
      var spelling := l.token.Spelling() + r.token.Spelling();
      && spelling != "//" && spelling != "/*" && !q.paste && !q.empty
      && exists t: PPToken :: h.tokenize(spelling) == Some([t]) && t.kind != OtherKind && t.kind != NewlineKind
                 && q.token == PPToken(t.kind, t.text, l.token.space,
                                       t.hidden + l.token.hidden * r.token.hidden, t.original)
  }

  /** done are the tokens left when every ## has joined what stands before it and what stands after it, the first ##
      first. */
  ghost predicate Pastes(h: Host, parts: seq<Part>, done: seq<Part>)
    decreases |parts|
  {
    if |parts| >= 3 && parts[1].paste then
      exists q :: Combines(h, parts[0], parts[2], q) && Pastes(h, [q] + parts[3..], done)
    else if parts == [] then done == []
    else done != [] && done[0] == parts[0] && Pastes(h, parts[1..], done[1..])
  }

  // ----- the replaced invocation -----

  /** body is what is left of done without placemarkers, hidden from everything in hiding as well. */
  predicate Leaves(done: seq<Part>, hiding: set<string>, body: seq<PPToken>)
    decreases done
  {
    if done == [] then body == []
    else if done[0].empty then Leaves(done[1..], hiding, body)
    else
      && body != [] && body[0] == done[0].token.(hidden := done[0].token.hidden + hiding)
      && Leaves(done[1..], hiding, body[1..])
  }

  /** next is body before rest. The space before the macro's name goes to the first token there is. */
  predicate PutBefore(body: seq<PPToken>, space: bool, rest: seq<PPToken>, next: seq<PPToken>) {
    if body != [] then next == Spaced(body, space) + rest
    else if rest == [] then next == []
    else next == Spaced(rest, rest[0].space || space)
  }

  /** One argument for each parameter; the variadic one takes all the remaining arguments and the commas between them,
      and no parameters take empty parentheses. */
  predicate Fits(m: Macro, inv: Invocation, args: seq<seq<PPToken>>)
    requires inv.Invocation? && |inv.commas| + 1 == |inv.args|
  {
    && |args| == |m.parameters|
    && if m.parameters == [] then inv.args == [[]]
       else if !m.variadic then args == inv.args
       else
         var last := |args| - 1;
         && |inv.args| >= |args| && (forall k :: 0 <= k < last ==> args[k] == inv.args[k])
         && args[last] == Rejoin(inv.args[last..], inv.commas[last..])
  }

  /** The name of a macro where it is invoked: a function-like one before a parenthesis. */
  predicate Invokes(macros: map<string, Macro>, t: PPToken, rest: seq<PPToken>) {
    t.text in macros && (macros[t.text].functionLike ==> rest != [] && rest[0].text == "(")
  }

  /** The predefined macro's value as a token. */
  function Predefined(h: Host, t: PPToken): PPToken {
    var kind := if h.predefined(t.text).isString then StringKind else NumberKind;
    PPToken(kind, h.predefined(t.text).text, t.space, t.hidden, "")
  }

  /** output is the complete expansion of input, found in at most d nested steps. */
  ghost predicate Expands(h: Host, macros: map<string, Macro>, input: seq<PPToken>, output: seq<PPToken>, d: nat)
    requires TableOk(macros)
    decreases d, 0, 0
  {
    if input == [] then output == []
    else if d == 0 then false
    else
      var t, rest := input[0], input[1..];
      if t.kind != IdentifierKind || t.text in t.hidden then
        output != [] && output[0] == t && Expands(h, macros, rest, output[1..], d - 1)
      else if h.isPredefined(t.text) then
        output != [] && output[0] == Predefined(h, t) && Expands(h, macros, rest, output[1..], d - 1)
      else if !Invokes(macros, t, rest) then
        output != [] && output[0] == t && Expands(h, macros, rest, output[1..], d - 1)
      else ExpandsReplaced(h, macros, t, rest, output, d - 1)
  }

  ghost predicate ExpandsReplaced(h: Host, macros: map<string, Macro>, t: PPToken, rest: seq<PPToken>,
                                  output: seq<PPToken>, d: nat)
    requires TableOk(macros) && Invokes(macros, t, rest)
    decreases d, 3
  {
    exists next :: Replaces(h, macros, t, rest, next, d) && Expands(h, macros, next, output, d)
  }

  /** next is the input after t and rest once the invocation they begin with has been replaced. */
  ghost predicate Replaces(h: Host, macros: map<string, Macro>, t: PPToken, rest: seq<PPToken>, next: seq<PPToken>,
                           d: nat)
    requires TableOk(macros) && Invokes(macros, t, rest)
    decreases d, 2, 1
  {
    var m := macros[t.text];
    if !m.functionLike then
      exists body :: IsBody(h, macros, m, [], t.hidden + {t.text}, body, d) && PutBefore(body, t.space, rest, next)
    else
      exists inv :: Splits(rest[1..], inv) && ReplacesCall(h, macros, t, inv, next, d)
  }

  /** A function-like invocation. The macro's name becomes hidden, and what hid both its name and its closing
      parenthesis stays hidden. */
  ghost predicate ReplacesCall(h: Host, macros: map<string, Macro>, t: PPToken, inv: Invocation, next: seq<PPToken>,
                               d: nat)
    requires TableOk(macros) && t.text in macros && inv.Invocation? && |inv.commas| + 1 == |inv.args|
    decreases d, 2, 0
  {
    var m, hiding := macros[t.text], t.hidden * inv.closer.hidden + {t.text};
    exists args, body ::
      Fits(m, inv, args) && IsBody(h, macros, m, args, hiding, body, d) && PutBefore(body, t.space, inv.rest, next)
  }

  /** The tokens that replace an invocation with these arguments. */
  ghost predicate IsBody(h: Host, macros: map<string, Macro>, m: Macro, args: seq<seq<PPToken>>, hiding: set<string>,
                         body: seq<PPToken>, d: nat)
    requires TableOk(macros) && |args| == |m.parameters|
    decreases d, 1
  {
    exists expanded, parts, done ::
      && AreExpanded(h, macros, m, args, expanded, d) && Substitutes(m, args, expanded, parts)
      && Pastes(h, parts, done) && Leaves(done, hiding, body)
  }

  ghost predicate AreExpanded(h: Host, macros: map<string, Macro>, m: Macro, args: seq<seq<PPToken>>,
                              expanded: seq<seq<PPToken>>, d: nat)
    requires TableOk(macros) && |args| == |m.parameters|
    decreases d, 0, 1
  {
    |expanded| == |args| &&
    forall k :: 0 <= k < |args| && IsNeeded(m, k) ==> Expands(h, macros, args[k], expanded[k], d)
  }
}
