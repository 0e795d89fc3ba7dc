/** Preprocessing tokens and macro definitions. */
module PPTokens {

  datatype Kind =
    | IdentifierKind | NumberKind | StringKind | CharacterKind | HeaderKind | PunctKind | OtherKind | NewlineKind

  /** original is empty unless the token was written differently, as digraphs are. */
  datatype PPToken = PPToken(kind: Kind, text: string, space: bool, hidden: set<string>, original: string) {
    function Spelling(): string {
      if original == "" then text else original
    }
  }

  datatype Macro = Macro(functionLike: bool, variadic: bool, parameters: seq<string>, replacement: seq<PPToken>)

  const VA_ARGS := "__VA_ARGS__"

  predicate IsAlpha(c: char) { 'a' <= c <= 'z' || 'A' <= c <= 'Z' || c == '_' }
  predicate IsDigit(c: char) { '0' <= c <= '9' }

  predicate IsIdentifier(s: string) {
    s != "" && IsAlpha(s[0]) && forall i :: 0 <= i < |s| ==> IsAlpha(s[i]) || IsDigit(s[i])
  }

  /** What the tokenizer guarantees: identifiers are the tokens spelled like identifiers. */
  predicate Lexical(t: PPToken) {
    t.kind == IdentifierKind <==> IsIdentifier(t.text)
  }

  predicate AllLexical(ts: seq<PPToken>) {
    forall i :: 0 <= i < |ts| ==> Lexical(ts[i])
  }

  function IndexOf(names: seq<string>, name: string): (i: nat)
    ensures i <= |names|
    ensures i < |names| ==> names[i] == name && name in names
    ensures i == |names| ==> name !in names
  {
    if names == [] || names[0] == name then 0 else 1 + IndexOf(names[1..], name)
  }

  // ----- well-formed definitions -----

  /** What the replacement list of a definition must satisfy. */
  predicate ReplacementOk(m: Macro) {
    forall i :: 0 <= i < |m.replacement| ==> PartOk(m, i)
  }

  predicate PartOk(m: Macro, i: nat)
    requires i < |m.replacement|
  {
    var r := m.replacement;
    && (r[i].text == "##" ==> 0 < i && i + 1 < |r| && r[i - 1].text != "##")
    && (m.functionLike && r[i].text == "#" ==> i + 1 < |r| && r[i + 1].text in m.parameters)
    && (r[i].text == VA_ARGS ==> m.variadic)
  }

  /** A definition that substitution can rely on. */
  predicate MacroOk(m: Macro) {
    && ReplacementOk(m) && AllLexical(m.replacement)
    && (forall i :: 0 <= i < |m.parameters| ==> IsIdentifier(m.parameters[i]))
    && (forall i, j :: 0 <= i < j < |m.parameters| ==> m.parameters[i] != m.parameters[j])
    && (m.variadic ==> m.functionLike && m.parameters != [])
    && (!m.functionLike ==> m.parameters == [])
    && (forall i :: 0 <= i < |m.replacement| ==> m.replacement[i].hidden == {})
  }

  predicate TableOk(macros: map<string, Macro>) {
    forall name :: name in macros ==> MacroOk(macros[name])
  }
}

/** Reading a #define directive. */
module MacroDefinition {
  import opened Wrappers
  import opened PPTokens

  datatype DefineProblem =
    | ExpectedMacroName | PredefinedMacro | VariadicInC89 | ExpectedParameter | DuplicateParameter | ExpectedClose
    | PasteNeedsOperands | StringizeNeedsParameter | MisplacedVaArgs | IncompatibleRedefinition

  datatype Parameters =
    | Parameters(names: seq<string>, variadic: bool, cursor: nat)
    | BadParameters(problem: DefineProblem)

  /** The parameter list from cursor on, after some parameters have been read and a name is due. */
  function ReadParameters(args: seq<PPToken>, cursor: nat, names: seq<string>, c89: bool): (r: Parameters)
    requires cursor <= |args|
    ensures r.Parameters? ==> cursor <= r.cursor <= |args|
    decreases |args| - cursor
  {
    if cursor == |args| then Parameters(names, false, cursor)
    else
      var part := args[cursor];
      if part.text == "..." then
        if c89 then BadParameters(VariadicInC89) else Parameters(names + [VA_ARGS], true, cursor + 1)
      else if part.kind != IdentifierKind || part.text == VA_ARGS then BadParameters(ExpectedParameter)
      else if part.text in names then BadParameters(DuplicateParameter)
      else if cursor + 1 == |args| || args[cursor + 1].text != "," then Parameters(names + [part.text], false,
          cursor + 1)
      else if cursor + 2 < |args| && args[cursor + 2].text == ")" then BadParameters(ExpectedParameter)
      else ReadParameters(args, cursor + 2, names + [part.text], c89)
  }

  datatype Definition = Definition(macro: Macro) | BadDefinition(problem: DefineProblem)

  predicate IsFunctionLike(args: seq<PPToken>) {
    |args| > 1 && args[1].text == "(" && !args[1].space
  }

  /** The first thing wrong with a replacement list from part i on. */
  function FirstProblem(m: Macro, i: nat): Option<DefineProblem>
    requires i <= |m.replacement|
    decreases |m.replacement| - i
  {
    if i == |m.replacement| then None
    else
      var r := m.replacement;
      if r[i].text == "##" && (i == 0 || i + 1 == |r| || r[i - 1].text == "##") then Some(PasteNeedsOperands)
      else if m.functionLike && r[i].text == "#" && (i + 1 == |r| || r[i + 1].text !in m.parameters) then
        Some(StringizeNeedsParameter)
      else if r[i].text == VA_ARGS && !m.variadic then Some(MisplacedVaArgs)
      else FirstProblem(m, i + 1)
  }

  function CheckReplacement(m: Macro): Definition {
    match FirstProblem(m, 0)
    case None => Definition(m)
    case Some(p) => BadDefinition(p)
  }

  /** The definition that the tokens after #define give. */
  function ReadDefinition(args: seq<PPToken>, c89: bool): Definition
    requires args != []
  {
    if !IsFunctionLike(args) then CheckReplacement(Macro(false, false, [], args[1..]))
    else
      match if |args| > 2 && args[2].text != ")" then ReadParameters(args, 2, [], c89) else Parameters([], false, 2)
      case BadParameters(p) => BadDefinition(p)
      case Parameters(names, variadic, cursor) =>
        if cursor == |args| || args[cursor].text != ")" then BadDefinition(ExpectedClose)
        else CheckReplacement(Macro(true, variadic, names, args[cursor + 1..]))
  }

  /** Two definitions that C takes to be the same (section 6.10.3). */
  predicate SameDefinition(a: Macro, b: Macro) {
    && a.functionLike == b.functionLike && a.variadic == b.variadic && a.parameters == b.parameters
    && |a.replacement| == |b.replacement|
    && forall i :: 0 <= i < |b.replacement| ==>
         && a.replacement[i].text == b.replacement[i].text
         && (i == 0 || a.replacement[i].space == b.replacement[i].space)
  }

  datatype Table = Table(macros: map<string, Macro>) | BadTable(problem: DefineProblem)

  /** The macro table after a #define directive. */
  function Define(macros: map<string, Macro>, args: seq<PPToken>, c89: bool, isPredefined: string -> bool): Table {
    if args == [] || args[0].kind != IdentifierKind || args[0].text == "defined" || args[0].text == VA_ARGS then
      BadTable(ExpectedMacroName)
    else if isPredefined(args[0].text) then BadTable(PredefinedMacro)
    else
      match ReadDefinition(args, c89)
      case BadDefinition(p) => BadTable(p)
      case Definition(m) =>
        var name := args[0].text;
        if name in macros && !SameDefinition(macros[name], m) then BadTable(IncompatibleRedefinition)
        else Table(macros[name := m])
  }

  // ----- what is accepted -----

  lemma {:induction false} NoProblem(m: Macro, i: nat)
    requires i <= |m.replacement|
    ensures FirstProblem(m, i) == None <==> forall k :: i <= k < |m.replacement| ==> PartOk(m, k)
    decreases |m.replacement| - i
  {
    if i < |m.replacement| {
      NoProblem(m, i + 1);
      assert PartOk(m, i) || !PartOk(m, i);
    }
  }

  /** Parameters read so far: identifiers, distinct, and none of them the variadic one. */
  predicate PlainNames(names: seq<string>) {
    && (forall i :: 0 <= i < |names| ==> IsIdentifier(names[i]) && names[i] != VA_ARGS)
    && (forall i, j :: 0 <= i < j < |names| ==> names[i] != names[j])
  }

  lemma {:induction false} ReadNames(args: seq<PPToken>, cursor: nat, names: seq<string>, c89: bool)
    requires cursor <= |args| && AllLexical(args) && PlainNames(names)
    ensures var r := ReadParameters(args, cursor, names, c89);
            r.Parameters? ==>
              && (if r.variadic then !c89 && r.names != [] && r.names[|r.names| - 1] == VA_ARGS &&
                  PlainNames(r.names[..|r.names| - 1])
                  else PlainNames(r.names))
    decreases |args| - cursor
  {
    if cursor < |args| {
      var part := args[cursor];
      assert Lexical(part);
      if part.text == "..." {
        assert (names + [VA_ARGS])[..|names|] == names;
      } else if part.kind == IdentifierKind && part.text != VA_ARGS && part.text !in names {
        assert PlainNames(names + [part.text]);
        if cursor + 2 <= |args| { ReadNames(args, cursor + 2, names + [part.text], c89); }
      }
    }
  }

  lemma {:induction false} ParametersOk(args: seq<PPToken>, c89: bool)
    requires |args| > 2 && AllLexical(args) && ReadParameters(args, 2, [], c89).Parameters?
    ensures var r := ReadParameters(args, 2, [], c89);
            && (forall i :: 0 <= i < |r.names| ==> IsIdentifier(r.names[i]))
            && (forall i, j :: 0 <= i < j < |r.names| ==> r.names[i] != r.names[j])
            && (r.variadic ==> r.names != [])
  {
    ReadNames(args, 2, [], c89);
    var r := ReadParameters(args, 2, [], c89);
    if r.variadic {
      var n := |r.names| - 1;
      assert forall i :: 0 <= i < n ==> r.names[i] == r.names[..n][i];
      assert IsIdentifier(VA_ARGS);
    }
  }

  lemma {:induction false} DefinitionOk(args: seq<PPToken>, c89: bool)
    requires args != [] && AllLexical(args) && ReadDefinition(args, c89).Definition?
    requires forall i :: 0 <= i < |args| ==> args[i].hidden == {}
    ensures MacroOk(ReadDefinition(args, c89).macro)
  {
    hide PartOk, IsIdentifier, FirstProblem, ReadParameters;
    var m := ReadDefinition(args, c89).macro;
    NoProblem(m, 0);
    if |args| > 2 && ReadParameters(args, 2, [], c89).Parameters? { ParametersOk(args, c89); }
  }

  /** Every definition that #define accepts is one that substitution can rely on, and the table stays so. */
  lemma {:induction false} DefineKeepsTable(macros: map<string, Macro>, args: seq<PPToken>, c89: bool,
                                            isPredefined: string -> bool)
    requires TableOk(macros) && AllLexical(args) && forall i :: 0 <= i < |args| ==> args[i].hidden == {}
    ensures Define(macros, args, c89, isPredefined).Table? ==> TableOk(Define(macros, args, c89, isPredefined).macros)
  {
    hide MacroOk, ReadDefinition;
    if args != [] && ReadDefinition(args, c89).Definition? { DefinitionOk(args, c89); }
  }

  // ----- parameter lists are read back as written -----

  /** How a parameter list is written: names with commas between them, the variadic one as an ellipsis. */
  function Listed(names: seq<string>, variadic: bool): seq<string> {
    if names == [] then []
    else if |names| == 1 then [if variadic then "..." else names[0]]
    else [names[0], ","] + Listed(names[1..], variadic)
  }

  predicate Spelled(args: seq<PPToken>, cursor: nat, texts: seq<string>) {
    cursor + |texts| <= |args| && forall i :: 0 <= i < |texts| ==> args[cursor + i].text == texts[i]
  }

  /** The names already read, followed by a list's plain ones. */
  function Plain(done: seq<string>, names: seq<string>, variadic: bool): seq<string>
    requires names != []
  {
    if variadic then done + names[..|names| - 1] else done + names
  }

  lemma {:induction false} NextName(done: seq<string>, names: seq<string>, variadic: bool)
    requires names != [] && PlainNames(Plain(done, names, variadic)) && (variadic ==> |names| > 1)
    ensures names[0] !in done && IsIdentifier(names[0]) && names[0] != VA_ARGS && names[0] != "..."
    ensures |names| > 1 ==> Plain(done + [names[0]], names[1..], variadic) == Plain(done, names, variadic)
  {
    var plain := Plain(done, names, variadic);
    assert plain[|done|] == names[0] && forall i :: 0 <= i < |done| ==> plain[i] == done[i];
    assert !IsIdentifier("...");
    if |names| > 1 {
      assert names[1..][..|names| - 2] == names[1..|names| - 1];
      assert done + [names[0]] + names[1..] == done + names;
      assert done + [names[0]] + names[1..|names| - 1] == done + names[..|names| - 1];
    }
  }

  lemma {:induction false} NotIdentifier()
    ensures !IsIdentifier("...") && !IsIdentifier(")")
  {
    assert !IsAlpha("..."[0]) && !IsAlpha(")"[0]);
  }

  lemma {:induction false} ListedSpelled(args: seq<PPToken>, cursor: nat, names: seq<string>, variadic: bool)
    requires |names| > 1 && Spelled(args, cursor, Listed(names, variadic))
    ensures cursor + 2 < |args| && args[cursor].text == names[0] && args[cursor + 1].text == ","
    ensures Spelled(args, cursor + 2, Listed(names[1..], variadic))
    ensures |Listed(names, variadic)| == 2 + |Listed(names[1..], variadic)|
    ensures |names| == 2 && variadic ==> args[cursor + 2].text == "..."
    ensures !(|names| == 2 && variadic) ==> args[cursor + 2].text == names[1]
  {
    var texts, rest := Listed(names, variadic), Listed(names[1..], variadic);
    assert texts[0] == names[0] && texts[1] == "," && args[cursor + 1].text == texts[1];
    forall i | 0 <= i < |rest| ensures args[cursor + 2 + i].text == rest[i] {
      assert texts[2 + i] == rest[i] && args[cursor + (2 + i)].text == texts[2 + i];
    }
    assert args[cursor + 2 + 0].text == rest[0];
  }

  /** A list of names, possibly ended by the variadic parameter, is read as that list. */
  lemma {:induction false} WrittenParametersAreRead(args: seq<PPToken>, cursor: nat, done: seq<string>,
                                                    names: seq<string>, variadic: bool, c89: bool)
    requires names != [] && AllLexical(args) && Spelled(args, cursor, Listed(names, variadic)) && (variadic ==> !c89)
    requires cursor + |Listed(names, variadic)| < |args| && args[cursor + |Listed(names, variadic)|].text == ")"
    requires PlainNames(Plain(done, names, variadic)) && (variadic ==> names[|names| - 1] == VA_ARGS)
    ensures ReadParameters(args, cursor, done, c89)
         == Parameters(done + names, variadic, cursor + |Listed(names, variadic)|)
    decreases names
  {
    hide IsIdentifier, PlainNames, Plain;
    assert Lexical(args[cursor]);
    if |names| == 1 {
      assert names == [names[0]] && args[cursor + 0].text == Listed(names, variadic)[0];
      if !variadic { NextName(done, names, variadic); }
    } else {
      NextName(done, names, variadic);
      ListedSpelled(args, cursor, names, variadic);
      hide Spelled, Listed;
      if !(|names| == 2 && variadic) { NextName(done + [names[0]], names[1..], variadic); }
      NotIdentifier();
      WrittenParametersAreRead(args, cursor + 2, done + [names[0]], names[1..], variadic, c89);
      assert done + names == done + [names[0]] + names[1..];
    }
  }

  /** Whatever is read as a parameter list was written as one. */
  lemma {:induction false} ReadParametersAreWritten(args: seq<PPToken>, cursor: nat, done: seq<string>, c89: bool)
    requires cursor < |args| && ReadParameters(args, cursor, done, c89).Parameters?
    requires ReadParameters(args, cursor, done, c89).cursor < |args|
    requires args[ReadParameters(args, cursor, done, c89).cursor].text == ")"
    ensures var r := ReadParameters(args, cursor, done, c89);
            && done < r.names && Spelled(args, cursor, Listed(r.names[|done|..], r.variadic))
            && r.cursor == cursor + |Listed(r.names[|done|..], r.variadic)|
    decreases |args| - cursor
  {
    var r := ReadParameters(args, cursor, done, c89);
    var part := args[cursor];
    if part.text == "..." || cursor + 1 == |args| || args[cursor + 1].text != "," {
      assert r.names[|done|..] == [r.names[|done|]];
    } else {
      ReadParametersAreWritten(args, cursor + 2, done + [part.text], c89);
      var rest := r.names[|done| + 1..];
      assert r.names[|done|..] == [part.text] + rest;
      assert r.names[|done|..][1..] == rest;
      var texts := Listed(r.names[|done|..], r.variadic);
      assert texts == [part.text, ","] + Listed(rest, r.variadic);
      forall i | 0 <= i < |texts| ensures args[cursor + i].text == texts[i] {
        if i >= 2 { assert args[cursor + 2 + (i - 2)].text == Listed(rest, r.variadic)[i - 2]; }
      }
    }
  }

  // ----- a definition records what is written -----

  /** args are how a definition of m is written: a name, then its parameters in parentheses if the parenthesis follows
      the name without a space, then its replacement list. */
  predicate Writes(args: seq<PPToken>, m: Macro, c89: bool)
    requires args != []
  {
    if !m.functionLike then
      && m.parameters == [] && !m.variadic && args[1..] == m.replacement
      && !(|args| > 1 && args[1].text == "(" && !args[1].space)
    else
      var close := 2 + |Listed(m.parameters, m.variadic)|;
      && close < |args| && args[1].text == "(" && !args[1].space && Spelled(args, 2, Listed(m.parameters, m.variadic))
      && args[close].text == ")" && args[close + 1..] == m.replacement && ParametersAllowed(m, c89)
  }

  /** Different names, the variadic one last and only after C89. */
  predicate ParametersAllowed(m: Macro, c89: bool) {
    if m.variadic then
      !c89 && m.parameters != [] && m.parameters[|m.parameters| - 1] == VA_ARGS &&
      PlainNames(m.parameters[..|m.parameters| - 1])
    else PlainNames(m.parameters)
  }

  lemma {:induction false} ListedNames(names: seq<string>, variadic: bool)
    requires names != []
    ensures Listed(names, variadic) != []
    ensures Listed(names, variadic)[0] == if variadic && |names| == 1 then "..." else names[0]
  {
  }

  lemma {:induction false} AllowedNames(m: Macro, c89: bool)
    requires ParametersAllowed(m, c89) && m.parameters != []
    ensures PlainNames(Plain([], m.parameters, m.variadic))
    ensures m.variadic ==> !c89 && m.parameters[|m.parameters| - 1] == VA_ARGS
  {
    assert [] + m.parameters == m.parameters;
    assert [] + m.parameters[..|m.parameters| - 1] == m.parameters[..|m.parameters| - 1];
  }

  lemma {:induction false} FirstListed(args: seq<PPToken>, m: Macro, c89: bool)
    requires ParametersAllowed(m, c89) && m.parameters != [] && Spelled(args, 2, Listed(m.parameters, m.variadic))
    ensures |args| > 2 && args[2].text != ")"
  {
    hide PlainNames, IsIdentifier;
    NotIdentifier();
    ListedNames(m.parameters, m.variadic);
    assert args[2 + 0].text == Listed(m.parameters, m.variadic)[0];
    if !(m.variadic && |m.parameters| == 1) { FirstIsPlain(m, c89); }
  }

  lemma {:induction false} WrittenParameters(args: seq<PPToken>, m: Macro, c89: bool)
    requires AllLexical(args) && args != [] && m.functionLike && Writes(args, m, c89) && m.parameters != []
    ensures |args| > 2 && args[2].text != ")"
    ensures ReadParameters(args, 2, [], c89)
         == Parameters(m.parameters, m.variadic, 2 + |Listed(m.parameters, m.variadic)|)
  {
    hide Listed, Spelled, PlainNames, ReadParameters, IsIdentifier, ParametersAllowed;
    FirstListed(args, m, c89);
    AllowedNames(m, c89);
    WrittenParametersAreRead(args, 2, [], m.parameters, m.variadic, c89);
    assert [] + m.parameters == m.parameters;
  }

  lemma {:induction false} FirstIsPlain(m: Macro, c89: bool)
    requires ParametersAllowed(m, c89) && m.parameters != [] && !(m.variadic && |m.parameters| == 1)
    ensures IsIdentifier(m.parameters[0])
  {
    if m.variadic { assert m.parameters[..|m.parameters| - 1][0] == m.parameters[0]; }
  }

  /** Reading a definition gives the macro that is written, if its replacement list is in order. */
  lemma {:induction false} ReadAsWritten(args: seq<PPToken>, m: Macro, c89: bool)
    requires AllLexical(args) && args != [] && Writes(args, m, c89)
    ensures ReadDefinition(args, c89) == Definition(m) <==> ReplacementOk(m)
    ensures ReadDefinition(args, c89).Definition? ==> ReadDefinition(args, c89).macro == m
  {
    hide PartOk, ReadParameters, PlainNames;
    NoProblem(m, 0);
    if m.functionLike {
      if m.parameters != [] { WrittenParameters(args, m, c89); } else { NothingListed(args, m.variadic); }
    }
  }

  /** Whatever is read as a definition is written as it. */
  lemma {:induction false} ReadIsWritten(args: seq<PPToken>, c89: bool)
    requires AllLexical(args) && args != [] && ReadDefinition(args, c89).Definition?
    ensures Writes(args, ReadDefinition(args, c89).macro, c89) && ReplacementOk(ReadDefinition(args, c89).macro)
  {
    hide PartOk, ReadParameters, PlainNames, Listed, Spelled, IsIdentifier;
    var m := ReadDefinition(args, c89).macro;
    NoProblem(m, 0);
    if IsFunctionLike(args) {
      if |args| > 2 && args[2].text != ")" {
        NoNames();
        ReadNames(args, 2, [], c89);
        ReadParametersAreWritten(args, 2, [], c89);
        assert m.parameters[0..] == m.parameters;
      } else {
        NoNames();
        NothingListed(args, m.variadic);
      }
    }
  }

  lemma {:induction false} NoNames()
    ensures PlainNames([])
  {
  }

  lemma {:induction false} NothingListed(args: seq<PPToken>, variadic: bool)
    ensures Listed([], variadic) == [] && (|args| >= 2 ==> Spelled(args, 2, Listed([], variadic)))
  {
  }

  /** The name may be defined here: it is no reserved or predefined one, and an earlier definition of it is the same but
      for the space before its replacement list. */
  predicate MayDefine(macros: map<string, Macro>, name: PPToken, m: Macro, isPredefined: string -> bool) {
    && name.kind == IdentifierKind && name.text != "defined" && name.text != "__VA_ARGS__" && !isPredefined(name.text)
    && (name.text in macros ==>
          var was := macros[name.text];
          && was.functionLike == m.functionLike && was.variadic == m.variadic && was.parameters == m.parameters
          && |was.replacement| == |m.replacement|
          && (forall i :: 0 <= i < |m.replacement| ==> was.replacement[i].text == m.replacement[i].text)
          && forall i :: 0 < i < |m.replacement| ==> was.replacement[i].space == m.replacement[i].space)
  }

  /** #define changes the table exactly to what is written: the name stands for the macro that is written after it, and
      every other name for what it stood for before. */
  lemma {:induction false} DefinesExactly(macros: map<string, Macro>, args: seq<PPToken>, m: Macro, c89: bool,
                                          isPredefined: string -> bool)
    requires AllLexical(args) && args != [] && Writes(args, m, c89)
    ensures Define(macros, args, c89, isPredefined).Table?
       <==> MayDefine(macros, args[0], m, isPredefined) && ReplacementOk(m)
    ensures Define(macros, args, c89, isPredefined).Table? ==>
        Define(macros, args, c89, isPredefined).macros == macros[args[0].text := m]
  {
    hide Writes, ReplacementOk, ReadDefinition;
    ReadAsWritten(args, m, c89);
  }

  /** What #define accepts is written as some macro. */
  lemma {:induction false} DefinedIsWritten(macros: map<string, Macro>, args: seq<PPToken>, c89: bool,
                                            isPredefined: string -> bool)
    requires AllLexical(args) && Define(macros, args, c89, isPredefined).Table?
    ensures args != [] && exists m :: Writes(args, m, c89)
  {
    hide Writes, ReplacementOk, ReadDefinition;
    ReadIsWritten(args, c89);
    assert Writes(args, ReadDefinition(args, c89).macro, c89);
  }
}
