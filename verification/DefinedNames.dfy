/** Which names count as defined: by the directives that were met, whatever asks. */
module DefinedNames {
  import opened Wrappers
  import opened PPTokens
  import opened MacroDefinition
  import opened MacroExactness
  import opened MacroExpansion
  import opened Directives
  import opened ConditionalGroups
  import PPExpression
  import PPGrammar
  import PPValues

  // ----- #define, #undef and #ifdef -----

  /** What a directive line says about a name: defined, not defined, or nothing. */
  function Says(line: TokenLine, name: string): Option<bool> {
    if |line| < 3 || line[0].text != "#" || line[2].text != name then None
    else if line[1].text == "define" then Some(true)
    else if line[1].text == "undef" then Some(false)
    else None
  }

  /** Whether a name is defined after the lines, if it was or was not before them: the last line that says anything
      counts. */
  function DefinedAfter(items: seq<Item>, name: string, before: bool): bool {
    if items == [] then before
    else
      var now := if items[0].Control? then Says(items[0].line, name).UnwrapOr(before) else before;
      DefinedAfter(items[1..], name, now)
  }

  /** Lines of text and directives that are no conditionals and include no files. */
  predicate Straight(items: seq<Item>) {
    forall i :: i in items ==> i.Text? || (i.Control? && (|i.line| > 1 ==> i.line[1].text != "include"))
  }

  lemma {:induction false} ControlDefines(w: World, item: Item, s: Pre, name: string)
    requires s.Valid() && WorldOk(w) && ItemOk(item) && item.Control?
    requires |item.line| > 1 ==> item.line[1].text != "include"
    requires EvalItem(w, item, true, s).Ok?
    ensures name in EvalItem(w, item, true, s).state.macros
       <==> Says(item.line, name).UnwrapOr(name in s.macros)
  {
    hide Flush, ReadDefinition, IsIdentifier, SameDefinition, TableOk;
    var line := item.line;
    if |line| > 2 { assert ArgsOf(line)[0] == line[2]; }
  }

  lemma {:induction false} NamesAfter(w: World, items: seq<Item>, s: Pre, name: string)
    requires s.Valid() && WorldOk(w) && GroupOk(items) && Straight(items) && EvalGroup(w, items, true, s).Ok?
    ensures name in EvalGroup(w, items, true, s).state.macros <==> DefinedAfter(items, name, name in s.macros)
    decreases |items|
  {
    hide Flush, Simple, AddText, ItemOk, EvalItem;
    if items == [] { return; }
    assert items[0] in items;
    if items[0].Control? { ControlDefines(w, items[0], s, name); } else { TextDefines(w, items[0], s); }
    NamesAfter(w, items[1..], EvalItem(w, items[0], true, s).state, name);
  }

  lemma {:induction false} TextDefines(w: World, item: Item, s: Pre)
    requires s.Valid() && WorldOk(w) && ItemOk(item) && item.Text?
    ensures EvalItem(w, item, true, s).Ok? && EvalItem(w, item, true, s).state.macros == s.macros
  {
  }

  /** After any lines of text and directives, #ifdef selects its group, and #ifndef does not, exactly when the name is
      predefined, or the last line that defined or undefined it defined it, or, if there is none, it was defined
      before. */
  lemma {:induction false} IfdefAsksTheLast(w: World, items: seq<Item>, s: Pre, t: PPToken, active: bool)
    requires s.Valid() && WorldOk(w) && GroupOk(items) && Straight(items) && EvalGroup(w, items, true, s).Ok?
    requires t.kind == IdentifierKind
    ensures var after := EvalGroup(w, items, true, s).state;
            var defined := w.host.isPredefined(t.text) || DefinedAfter(items, t.text, t.text in s.macros);
            && OpenerChoice(w, "ifdef", [t], active, after) == Chosen(defined, after)
            && OpenerChoice(w, "ifndef", [t], active, after) == Chosen(!defined, after)
  {
    hide EvalGroup, DefinedAfter;
    NamesAfter(w, items, s, t.text);
  }

  // ----- the defined operator -----

  /** Numbers written by the preprocessor decode to themselves. */
  predicate DecodesFlags(w: World) {
    forall b :: w.decode(NumberToken(b)) == PPExpression.Number(Some(PPValues.Flag(b)))
  }

  lemma {:induction false} NumberStays(w: World, s: Pre, b: bool)
    requires s.Valid()
    ensures Expand(w.host, s.macros, [NumberToken(b)], 0, s.expansions) == Expanded([NumberToken(b)], s.expansions)
  {
    var t := NumberToken(b);
    assert [t][1..] == [];
    assert Step(w.host, s.macros, [t], 0, s.expansions) == Emitted(t, s.expansions);
    assert Scan(w.host, s.macros, [], [] + [t], 0, s.expansions) == Expanded([t], s.expansions);
  }

  lemma {:induction false} FlagHolds(b: bool)
    ensures PPExpression.Evaluate([PPExpression.Number(Some(PPValues.Flag(b)))], None) == PPExpression.Holds(b)
  {
    var token := PPExpression.Number(Some(PPValues.Flag(b)));
    var e := PPGrammar.Leaf(token);
    assert PPGrammar.PrimaryExpression(e) && PPGrammar.UnaryExpression(e);
    PPGrammar.LevelsAreNonterminals(e);
    assert PPGrammar.Derives(e, [token]);
    PPGrammar.EvaluatesToMeaning([token], e);
    PPValues.OneAndZero(false);
  }

  lemma {:induction false} ResolvesName(w: World, macros: map<string, Macro>, d: PPToken, t: PPToken)
    requires d.kind == IdentifierKind && d.text == "defined" && t.kind == IdentifierKind && t.text != "("
    ensures ResolveDefined(w, macros, [d, t])
         == Resolved([NumberToken(w.host.isPredefined(t.text) || t.text in macros)])
  {
    assert [d, t][2..] == [];
    assert ResolveDefined(w, macros, []) == Resolved([]);
  }

  lemma {:induction false} ResolvesInParentheses(w: World, macros: map<string, Macro>, d: PPToken, open: PPToken,
                                                 t: PPToken, close: PPToken)
    requires d.kind == IdentifierKind && d.text == "defined" && t.kind == IdentifierKind
    requires open.text == "(" && close.text == ")"
    ensures ResolveDefined(w, macros, [d, open, t, close])
         == Resolved([NumberToken(w.host.isPredefined(t.text) || t.text in macros)])
  {
    assert [d, open, t, close][4..] == [];
    assert ResolveDefined(w, macros, []) == Resolved([]);
  }

  /** #if defined X and #if defined ( X ) select their group exactly when #ifdef X does. */
  lemma {:induction false} DefinedIsIfdef(w: World, s: Pre, d: PPToken, open: PPToken, t: PPToken, close: PPToken)
    requires s.Valid() && DecodesFlags(w) && d.kind == IdentifierKind && d.text == "defined"
    requires t.kind == IdentifierKind && Lexical(t) && open.text == "(" && close.text == ")"
    ensures Condition(w, [d, t], s) == OpenerChoice(w, "ifdef", [t], true, s)
    ensures Condition(w, [d, open, t, close], s) == OpenerChoice(w, "ifdef", [t], true, s)
  {
    hide Expand, PPExpression.Evaluate, ResolveDefined;
    var b := w.host.isPredefined(t.text) || t.text in s.macros;
    assert !IsIdentifier("(") by { assert !IsAlpha("("[0]); }
    ResolvesName(w, s.macros, d, t);
    ResolvesInParentheses(w, s.macros, d, open, t, close);
    NumberStays(w, s, b);
    FlagHolds(b);
    assert Decoded(w, [NumberToken(b)]) == [w.decode(NumberToken(b))];
  }

  // ----- conditions -----

  lemma {:induction false} WithoutDefined(w: World, macros: map<string, Macro>, args: seq<PPToken>)
    requires forall i :: 0 <= i < |args| ==> args[i].kind != IdentifierKind || args[i].text != "defined"
    ensures ResolveDefined(w, macros, args) == Resolved(args)
    decreases args
  {
    if args != [] { WithoutDefined(w, macros, args[1..]); }
  }

  /** The truth of tokens that have been expanded: they derive from C's grammar, and their meaning is or is not zero. */
  ghost predicate IsTruth(w: World, tokens: seq<PPToken>, holds: bool) {
    exists e ::
      PPGrammar.Derives(e, Decoded(w, tokens)) && PPGrammar.Answer(PPGrammar.Denote(e)) == PPExpression.Holds(holds)
  }

  /** A condition without the defined operator selects its group exactly when the complete expansion of its tokens means
      something other than zero; and if it is decided, its expansion means something. */
  lemma {:induction false} ConditionIsMeaning(w: World, args: seq<PPToken>, s: Pre)
    requires s.Valid() && Condition(w, args, s).Chosen?
    requires forall i :: 0 <= i < |args| ==> args[i].kind != IdentifierKind || args[i].text != "defined"
    ensures exists tokens ::
              Means(w.host, s.macros, args, tokens) && IsTruth(w, tokens, Condition(w, args, s).selected)
  {
    hide Expand, PPExpression.Evaluate, PPGrammar.Derives, PPGrammar.Denote, Means, ResolveDefined;
    WithoutDefined(w, s.macros, args);
    ExpansionIsMeaning(w.host, s.macros, args, 0, s.expansions);
    var tokens := Expand(w.host, s.macros, args, 0, s.expansions).tokens;
    PPGrammar.EvaluatesExactly(Decoded(w, tokens), Condition(w, args, s).selected);
    assert Means(w.host, s.macros, args, tokens) && IsTruth(w, tokens, Condition(w, args, s).selected);
  }
}
