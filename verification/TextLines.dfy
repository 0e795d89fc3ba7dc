/** Text without directives: it comes out completely expanded, as one list, so that an invocation may begin on one line
    and end on another. */
module TextLines {
  import opened Directives
  import opened MacroExactness
  import opened MacroExpansion
  import opened PPTokens

  /** The tokens of some lines in order. The first one of a line has white space before it. */
  function Joined(lines: seq<seq<PPToken>>): seq<PPToken>
    requires forall i :: 0 <= i < |lines| ==> lines[i] != []
  {
    if lines == [] then []
    else
      var first := lines[0][0];
      [PPToken(first.kind, first.text, true, first.hidden, first.original)] + lines[0][1..] + Joined(lines[1..])
  }

  predicate AreText(lines: seq<seq<PPToken>>) {
    forall i :: 0 <= i < |lines| ==> lines[i] != [] && lines[i][0].text != "#"
  }

  /** A line of text only changes what is waiting, if it is not skipped. */
  lemma {:induction false} TextLine(w: World, lines: seq<seq<PPToken>>, stack: seq<Frame>, s: Pre)
    requires s.Valid() && WorldOk(w) && LinesOk(lines) && lines != [] && AreText(lines)
    ensures LinesOk(lines[1..])
    ensures Process(w, lines, stack, s) == Process(w, lines[1..], stack, AddText(lines[0], Active(stack), s))
  {
    hide Flush, Directive;
  }

  lemma {:induction false} TextWaits(w: World, lines: seq<seq<PPToken>>, stack: seq<Frame>, s: Pre)
    requires s.Valid() && WorldOk(w) && LinesOk(lines) && AreText(lines) && Active(stack)
    ensures Process(w, lines, stack, s) == Process(w, [], stack, s.(pending := s.pending + Joined(lines)))
    decreases lines
  {
    hide Process, LinesOk, WorldOk;
    if lines == [] {
      assert s.pending + Joined(lines) == s.pending;
    } else {
      var s1 := AddText(lines[0], true, s);
      TextLine(w, lines, stack, s);
      TextWaits(w, lines[1..], stack, s1);
      assert s1.pending + Joined(lines[1..]) == s.pending + Joined(lines);
    }
  }

  /** What is put out for lines of text is the complete expansion of what was waiting and of all the lines together, and
      nothing is left waiting. */
  lemma {:induction false} TextIsExpanded(w: World, lines: seq<seq<PPToken>>, s: Pre)
    requires s.Valid() && WorldOk(w) && LinesOk(lines) && AreText(lines) && Process(w, lines, [], s).Ok?
    ensures var after := Process(w, lines, [], s).state;
            && after.macros == s.macros && after.pending == []
            && exists tokens ::
                 Means(w.host, s.macros, s.pending + Joined(lines), tokens) && after.output == s.output + tokens
  {
    hide Expand, Means;
    TextWaits(w, lines, [], s);
    var all := s.pending + Joined(lines);
    ExpansionIsMeaning(w.host, s.macros, all, 0, s.expansions);
    var tokens := Expand(w.host, s.macros, all, 0, s.expansions).tokens;
    assert Means(w.host, s.macros, all, tokens);
  }

  /** Skipped text is not put out and not looked at. */
  lemma {:induction false} SkippedTextIsDropped(w: World, lines: seq<seq<PPToken>>, stack: seq<Frame>, s: Pre)
    requires s.Valid() && WorldOk(w) && LinesOk(lines) && AreText(lines) && !Active(stack)
    ensures Process(w, lines, stack, s) == Process(w, [], stack, s)
    decreases lines
  {
    hide Process, LinesOk, WorldOk;
    if lines != [] {
      TextLine(w, lines, stack, s);
      SkippedTextIsDropped(w, lines[1..], stack, s);
    }
  }
}
