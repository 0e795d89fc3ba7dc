/** Macro expansion computes the meaning of macro replacement: what it answers is the one token list that the meaning
    relates to the input, and apart from its limits it refuses only what has no meaning. */
module MacroExactness {
  import Integers
  import opened Wrappers
  import opened PPTokens
  import opened MacroArguments
  import opened MacroExpansion
  import opened MacroMeaning

  // ----- substitution goes by names -----

  lemma {:induction false} IndexNames(m: Macro, t: PPToken, k: nat)
    requires MacroOk(m) && Lexical(t)
    ensures Names(m, t, k) ==> ParameterIndex(m, t) == k
    ensures ParameterIndex(m, t) < |m.parameters| ==> Names(m, t, ParameterIndex(m, t))
  {
  }

  /** Arguments already expanded, as far as replacement token i needs them. */
  ghost predicate Supplies(m: Macro, values: seq<Option<seq<PPToken>>>, expanded: seq<seq<PPToken>>, i: nat)
    requires i < |m.replacement| && |values| == |expanded| == |m.parameters|
  {
    forall k: nat :: NeedsAt(m, i, k) ==> values[k] == Some(expanded[k])
  }

  lemma {:induction false} QuotationContributes(m: Macro, args: seq<seq<PPToken>>,
                                                values: seq<Option<seq<PPToken>>>, expanded: seq<seq<PPToken>>, i: nat,
                                                ps: seq<Part>)
    requires MacroOk(m) && i < |m.replacement| && !IsQuoted(m, i) && IsStringize(m, i)
    requires |args| == |values| == |expanded| == |m.parameters|
    ensures Contributes(m, args, expanded, i, ps) <==> ps == PartsAt(m, args, values, i)
  {
    StringizeNamesParameter(m, i);
    var next := m.replacement[i + 1];
    assert Lexical(next);
    var index := ParameterIndex(m, next);
    IndexNames(m, next, index);
    assert [Quotation(m.replacement[i], args[index])] == PartsAt(m, args, values, i);
    forall k: nat | Names(m, next, k)
      ensures k == index
    {
      IndexNames(m, next, k);
    }
  }

  lemma {:induction false} PlainsAreTokens(ts: seq<PPToken>, ps: seq<Part>)
    ensures AreTokens(ps, ts) <==> ps == Plains(ts)
  {
  }

  lemma {:induction false} OccurrenceContributes(m: Macro, args: seq<seq<PPToken>>,
                                                 values: seq<Option<seq<PPToken>>>, expanded: seq<seq<PPToken>>,
                                                 i: nat, ps: seq<Part>)
    requires MacroOk(m) && i < |m.replacement| && !IsQuoted(m, i) && IsParameter(m, i)
    requires |args| == |values| == |expanded| == |m.parameters| && Supplies(m, values, expanded, i)
    ensures Contributes(m, args, expanded, i, ps) <==> ps == PartsAt(m, args, values, i)
  {
    var t := m.replacement[i];
    assert Lexical(t);
    var index := ParameterIndex(m, t);
    IndexNames(m, t, index);
    forall k: nat | Names(m, t, k)
      ensures k == index
    {
      IndexNames(m, t, k);
    }
    if !IsBesidePaste(m, i) { assert NeedsAt(m, i, index); }
    var value := if IsBesidePaste(m, i) then args[index] else expanded[index];
    PlainsAreTokens(Spaced(value, t.space), ps);
  }

  lemma {:induction false} OtherContributes(m: Macro, args: seq<seq<PPToken>>,
                                            values: seq<Option<seq<PPToken>>>, expanded: seq<seq<PPToken>>, i: nat,
                                            ps: seq<Part>)
    requires MacroOk(m) && i < |m.replacement| && !IsQuoted(m, i) && !IsParameter(m, i) && !IsStringize(m, i)
    requires |args| == |values| == |expanded| == |m.parameters|
    ensures Contributes(m, args, expanded, i, ps) <==> ps == PartsAt(m, args, values, i)
  {
    var t := m.replacement[i];
    assert Lexical(t);
    if !IsPaste(m, i) {
      forall k: nat
        ensures !Names(m, t, k)
      {
        IndexNames(m, t, k);
      }
    }
  }

  /** What a replacement token contributes by name is what substitution puts in its place. */
  lemma {:induction false} ContributesExactly(m: Macro, args: seq<seq<PPToken>>,
                                              values: seq<Option<seq<PPToken>>>, expanded: seq<seq<PPToken>>, i: nat,
                                              ps: seq<Part>)
    requires MacroOk(m) && i < |m.replacement| && !IsQuoted(m, i)
    requires |args| == |values| == |expanded| == |m.parameters| && Supplies(m, values, expanded, i)
    ensures Contributes(m, args, expanded, i, ps) <==> ps == PartsAt(m, args, values, i)
  {
    hide Contributes, PartsAt, MacroOk, Supplies;
    if IsStringize(m, i) {
      QuotationContributes(m, args, values, expanded, i, ps);
    } else if IsParameter(m, i) {
      OccurrenceContributes(m, args, values, expanded, i, ps);
    } else {
      OtherContributes(m, args, values, expanded, i, ps);
    }
  }

  /** The substituted list from replacement token i on. */
  function PartsFrom(m: Macro, args: seq<seq<PPToken>>, values: seq<Option<seq<PPToken>>>, i: nat): seq<Part>
    requires MacroOk(m) && i <= |m.replacement| && |args| == |values| == |m.parameters|
    decreases |m.replacement| - i
  {
    if i == |m.replacement| then []
    else PartsAt(m, args, values, i) + PartsFrom(m, args, values, i + Width(m, i))
  }

  lemma {:induction false} NextUnquoted(m: Macro, i: nat)
    requires MacroOk(m) && i < |m.replacement|
    ensures i + Width(m, i) < |m.replacement| ==> !IsQuoted(m, i + Width(m, i))
    ensures IsStringize(m, i) ==> IsQuoted(m, i + 1)
  {
    if IsStringize(m, i) {
      StringizeNamesParameter(m, i);
      assert Lexical(m.replacement[i + 1]);
      assert !IsIdentifier("#") by { assert !IsAlpha("#"[0]); }
    }
  }

  ghost predicate SuppliesAll(m: Macro, values: seq<Option<seq<PPToken>>>, expanded: seq<seq<PPToken>>)
    requires |values| == |expanded| == |m.parameters|
  {
    forall i :: 0 <= i < |m.replacement| ==> Supplies(m, values, expanded, i)
  }

  lemma {:induction false} ContributionsAreParts(m: Macro, args: seq<seq<PPToken>>,
                                                 values: seq<Option<seq<PPToken>>>, expanded: seq<seq<PPToken>>,
                                                 cs: seq<seq<Part>>, i: nat)
    requires MacroOk(m) && |args| == |values| == |expanded| == |m.parameters| && SuppliesAll(m, values, expanded)
    requires AllContribute(m, args, expanded, cs) && i <= |cs| && (i < |cs| ==> !IsQuoted(m, i))
    ensures PartsFrom(m, args, values, i) == Flat(cs[i..])
    decreases |cs| - i
  {
    hide Contributes, PartsAt, MacroOk, Supplies;
    if i == |cs| { return; }
    assert Contributes(m, args, expanded, i, cs[i]) && Supplies(m, values, expanded, i);
    ContributesExactly(m, args, values, expanded, i, cs[i]);
    NextUnquoted(m, i);
    var next := i + Width(m, i);
    ContributionsAreParts(m, args, values, expanded, cs, next);
    assert cs[i..][1..] == cs[i + 1..];
    if IsStringize(m, i) {
      assert Contributes(m, args, expanded, i + 1, cs[i + 1]);
      QuotedIsEmpty(m, args, expanded, i + 1, cs[i + 1]);
      assert cs[i + 1..][1..] == cs[i + 2..];
    }
  }

  lemma {:induction false} QuotedIsEmpty(m: Macro, args: seq<seq<PPToken>>, expanded: seq<seq<PPToken>>, i: nat,
                                         ps: seq<Part>)
    requires i < |m.replacement| && |args| == |expanded| == |m.parameters| && IsQuoted(m, i)
    ensures Contributes(m, args, expanded, i, ps) <==> ps == []
  {
  }

  lemma {:induction false} PartsAreContributions(m: Macro, args: seq<seq<PPToken>>,
                                                 values: seq<Option<seq<PPToken>>>, expanded: seq<seq<PPToken>>)
    returns (cs: seq<seq<Part>>)
    requires MacroOk(m) && |args| == |values| == |expanded| == |m.parameters| && SuppliesAll(m, values, expanded)
    ensures AllContribute(m, args, expanded, cs)
  {
    hide Contributes, PartsAt, MacroOk, Supplies;
    cs := seq(|m.replacement|,
              i requires 0 <= i < |m.replacement| => if IsQuoted(m, i) then [] else PartsAt(m, args, values, i));
    forall i | 0 <= i < |cs|
      ensures Contributes(m, args, expanded, i, cs[i])
    {
      if IsQuoted(m, i) {
        QuotedIsEmpty(m, args, expanded, i, cs[i]);
      } else {
        ContributesExactly(m, args, values, expanded, i, cs[i]);
      }
    }
  }

  /** Substitution puts every argument where the parameter of its name stands. */
  lemma {:induction false} SubstitutesExactly(m: Macro, args: seq<seq<PPToken>>, values: seq<Option<seq<PPToken>>>,
                                              expanded: seq<seq<PPToken>>, parts: seq<Part>)
    requires MacroOk(m) && |args| == |values| == |expanded| == |m.parameters| && SuppliesAll(m, values, expanded)
    ensures Substitutes(m, args, expanded, parts) <==> parts == PartsFrom(m, args, values, 0)
  {
    hide AllContribute, PartsFrom, MacroOk, SuppliesAll, Flat;
    var cs := PartsAreContributions(m, args, values, expanded);
    ContributionsOfAll(m, args, values, expanded, cs);
    if Substitutes(m, args, expanded, parts) {
      var cs' :| AllContribute(m, args, expanded, cs') && parts == Flat(cs');
      ContributionsOfAll(m, args, values, expanded, cs');
    }
  }

  lemma {:induction false} ContributionsOfAll(m: Macro, args: seq<seq<PPToken>>, values: seq<Option<seq<PPToken>>>,
                                              expanded: seq<seq<PPToken>>, cs: seq<seq<Part>>)
    requires MacroOk(m) && |args| == |values| == |expanded| == |m.parameters| && SuppliesAll(m, values, expanded)
    requires AllContribute(m, args, expanded, cs)
    ensures PartsFrom(m, args, values, 0) == Flat(cs)
  {
    ContributionsAreParts(m, args, values, expanded, cs, 0);
    assert cs[0..] == cs;
  }

  // ----- pasting -----

  lemma {:induction false} CombinesExactly(h: Host, l: Part, r: Part, q: Part)
    ensures Combines(h, l, r, q) <==> PasteTwo(h, l, r) == Some(q)
  {
    if l.empty || r.empty { return; }
    var joined := h.tokenize(l.token.Spelling() + r.token.Spelling());
    if Combines(h, l, r, q) {
      var t: PPToken :| joined == Some([t]) && q.token == PPToken(t.kind, t.text, l.token.space,
                                                                  t.hidden + l.token.hidden * r.token.hidden,
                                                                  t.original);
      assert joined.value[0] == t;
    }
    if PasteTwo(h, l, r) == Some(q) { assert joined.value == [joined.value[0]]; }
  }

  lemma {:induction false} PasteFirst(h: Host, x: Part, parts: seq<Part>, done: seq<Part>)
    requires |parts| >= 2 && parts[0].paste
    ensures Pastes(h, [x] + parts, done)
       <==> PasteTwo(h, x, parts[1]).Some? && Pastes(h, [PasteTwo(h, x, parts[1]).value] + parts[2..], done)
  {
    var all := [x] + parts;
    assert all[1] == parts[0] && all[2] == parts[1] && all[3..] == parts[2..];
    if Pastes(h, all, done) {
      var q :| Combines(h, all[0], all[2], q) && Pastes(h, [q] + all[3..], done);
      CombinesExactly(h, x, parts[1], q);
    }
    if PasteTwo(h, x, parts[1]).Some? { CombinesExactly(h, x, parts[1], PasteTwo(h, x, parts[1]).value); }
  }

  lemma {:induction false} PasteNone(h: Host, x: Part, parts: seq<Part>, done: seq<Part>)
    requires parts != [] ==> !parts[0].paste
    ensures Pastes(h, [x] + parts, done) <==> done != [] && done[0] == x && Pastes(h, parts, done[1..])
  {
    var all := [x] + parts;
    assert all[1..] == parts;
    if parts != [] { assert all[1] == parts[0]; }
  }

  /** The pastes from the operand x on, the ones before it being done. */
  lemma {:induction false} PasteAllPastes(h: Host, parts: seq<Part>, done: seq<Part>, x: Part, tail: seq<Part>)
    requires Pasteable(done + [x], parts)
    ensures Pastes(h, [x] + parts, tail) <==> PasteAll(h, parts, done + [x]) == Some(done + tail)
    decreases |parts|
  {
    hide PasteTwo, Pastes;
    if parts == [] || !parts[0].paste {
      PasteNone(h, x, parts, tail);
      if parts == [] {
        NothingToPaste(h, if tail == [] then [] else tail[1..]);
        SameTail(done, [x], tail);
      } else {
        PasteableRest(done + [x], parts);
        PasteNoneStep(h, parts, done, x, tail);
      }
    } else {
      PasteFirst(h, x, parts, tail);
      if PasteTwo(h, x, parts[1]).Some? {
        var q := PasteTwo(h, x, parts[1]).value;
        PasteableAfter(done, x, q, parts);
        PasteAllPastes(h, parts[2..], done, q, tail);
        assert (done + [x])[..|done|] == done;
      }
    }
  }

  lemma {:induction false} NothingToPaste(h: Host, done: seq<Part>)
    ensures Pastes(h, [], done) <==> done == []
  {
  }

  lemma {:induction false} SameTail<T>(a: seq<T>, b: seq<T>, c: seq<T>)
    ensures a + b == a + c <==> b == c
  {
    if a + b == a + c { assert (a + b)[|a|..] == b && (a + c)[|a|..] == c; }
  }

  lemma {:induction false} PasteableRest(done: seq<Part>, parts: seq<Part>)
    requires Pasteable(done, parts) && parts != [] && !parts[0].paste
    ensures Pasteable(done + [parts[0]], parts[1..])
  {
  }

  lemma {:induction false} PasteableAfter(done: seq<Part>, x: Part, q: Part, parts: seq<Part>)
    requires Pasteable(done + [x], parts) && parts != [] && parts[0].paste
    ensures |parts| >= 2 && Pasteable(done + [q], parts[2..])
  {
  }

  lemma {:induction false} PasteNoneStep(h: Host, parts: seq<Part>, done: seq<Part>, x: Part, tail: seq<Part>)
    requires Pasteable(done + [x], parts) && parts != [] && !parts[0].paste
    requires Pasteable(done + [x] + [parts[0]], parts[1..])
    ensures tail != [] && tail[0] == x && Pastes(h, parts, tail[1..])
       <==> PasteAll(h, parts, done + [x]) == Some(done + tail)
    decreases |parts|, 0
  {
    hide PasteTwo, Pastes;
    var rest := if tail == [] then [] else tail[1..];
    assert [parts[0]] + parts[1..] == parts;
    PasteAllPastes(h, parts[1..], done + [x], parts[0], rest);
    if tail != [] && tail[0] == x { assert done + [x] + rest == done + tail; }
    var r := PasteAll(h, parts, done + [x]);
    if r == Some(done + tail) {
      PastesKeepsDone(h, parts, done + [x]);
      assert (done + tail)[|done|] == x;
    }
  }

  /** What is done first stays, but for its last operand when a paste comes next. */
  lemma {:induction false} PastesKeepsDone(h: Host, parts: seq<Part>, done: seq<Part>)
    requires Pasteable(done, parts)
    ensures var r := PasteAll(h, parts, done);
            r.Some? ==>
              if parts != [] && parts[0].paste then
                |r.value| >= |done| > 0 && r.value[..|done| - 1] == done[..|done| - 1]
              else |r.value| >= |done| && r.value[..|done|] == done
    decreases |parts|
  {
    hide PasteTwo;
    if parts != [] {
      if !parts[0].paste {
        PasteableRest(done, parts);
        PastesKeepsDone(h, parts[1..], done + [parts[0]]);
        var r := PasteAll(h, parts, done);
        if r.Some? {
          assert r.value[..|done|] == r.value[..|done| + 1][..|done|];
        }
      } else {
        var p := PasteTwo(h, done[|done| - 1], parts[1]);
        if p.Some? {
          var next := done[..|done| - 1] + [p.value];
          PastesKeepsDone(h, parts[2..], next);
          var r := PasteAll(h, parts, done);
          if r.Some? { assert r.value[..|done| - 1] == r.value[..|done|][..|done| - 1]; }
        }
      }
    }
  }

  /** Pasting joins the operands of each ##, the first one first. */
  lemma {:induction false} PastesExactly(h: Host, parts: seq<Part>, done: seq<Part>)
    requires Pasteable([], parts)
    ensures Pastes(h, parts, done) <==> PasteAll(h, parts, []) == Some(done)
  {
    hide Pastes, PasteTwo;
    if parts == [] {
      NothingToPaste(h, done);
    } else {
      assert [parts[0]] + parts[1..] == parts && [] + [parts[0]] == [parts[0]];
      PasteableRest([], parts);
      PasteAllPastes(h, parts[1..], [], parts[0], done);
      assert [] + done == done;
    }
  }

  // ----- what is pushed back -----

  lemma {:induction false} LeavesExactly(done: seq<Part>, hiding: set<string>, body: seq<PPToken>)
    ensures Leaves(done, hiding, body) <==> body == Finish(done, hiding)
    decreases done
  {
    if done == [] { return; }
    if done[0].empty {
      LeavesExactly(done[1..], hiding, body);
      assert [] + Finish(done[1..], hiding) == Finish(done[1..], hiding);
    } else if body != [] {
      LeavesExactly(done[1..], hiding, body[1..]);
      var t := done[0].token.(hidden := done[0].token.hidden + hiding);
      SameFirst(t, Finish(done[1..], hiding), body);
    }
  }

  lemma {:induction false} SameFirst<T>(t: T, rest: seq<T>, all: seq<T>)
    requires all != []
    ensures all == [t] + rest <==> all[0] == t && all[1..] == rest
  {
    assert all == [all[0]] + all[1..];
    if all == [t] + rest { assert all[1..] == rest; }
  }

  lemma {:induction false} PutBeforeExactly(body: seq<PPToken>, space: bool, rest: seq<PPToken>, next: seq<PPToken>)
    ensures PutBefore(body, space, rest, next) <==> next == PushBack(body, space, rest)
  {
  }

  /** The arguments that fit are those that are matched. */
  lemma {:induction false} FitsExactly(m: Macro, inv: Invocation, args: seq<seq<PPToken>>)
    requires MacroOk(m) && inv.Invocation? && |inv.commas| + 1 == |inv.args|
    ensures Fits(m, inv, args) <==> Match(m, inv) == Some(args)
  {
    if m.parameters != [] && m.variadic && |inv.args| >= |m.parameters| {
      var last := |m.parameters| - 1;
      var matched := inv.args[..last] + [Rejoin(inv.args[last..], inv.commas[last..])];
      if Fits(m, inv, args) { assert args == matched; }
    }
  }

  // ----- more steps -----

  lemma {:induction false} ExpandsMore(h: Host, macros: map<string, Macro>, input: seq<PPToken>, output: seq<PPToken>,
                                       d: nat, d': nat)
    requires TableOk(macros) && Expands(h, macros, input, output, d) && d <= d'
    ensures Expands(h, macros, input, output, d')
    decreases d, 0
  {
    hide Replaces;
    if input == [] { return; }
    var t, rest := input[0], input[1..];
    if t.kind != IdentifierKind || t.text in t.hidden || h.isPredefined(t.text) || !Invokes(macros, t, rest) {
      ExpandsMore(h, macros, rest, output[1..], d - 1, d' - 1);
    } else {
      var next :| Replaces(h, macros, t, rest, next, d - 1) && Expands(h, macros, next, output, d - 1);
      ReplacesMore(h, macros, t, rest, next, d - 1, d' - 1);
      ExpandsMore(h, macros, next, output, d - 1, d' - 1);
    }
  }

  lemma {:induction false} ReplacesMore(h: Host, macros: map<string, Macro>, t: PPToken, rest: seq<PPToken>,
                                        next: seq<PPToken>, d: nat, d': nat)
    requires TableOk(macros) && Invokes(macros, t, rest) && Replaces(h, macros, t, rest, next, d) && d <= d'
    ensures Replaces(h, macros, t, rest, next, d')
    decreases d, 2
  {
    hide IsBody, PutBefore, Fits;
    var m := macros[t.text];
    if !m.functionLike {
      var body :| IsBody(h, macros, m, [], t.hidden + {t.text}, body, d) && PutBefore(body, t.space, rest, next);
      IsBodyMore(h, macros, m, [], t.hidden + {t.text}, body, d, d');
    } else {
      var inv :| Splits(rest[1..], inv) && ReplacesCall(h, macros, t, inv, next, d);
      SplitsCount(rest[1..], inv);
      CallMore(h, macros, t, inv, next, d, d');
    }
  }

  lemma {:induction false} CallMore(h: Host, macros: map<string, Macro>, t: PPToken, inv: Invocation,
                                    next: seq<PPToken>, d: nat, d': nat)
    requires TableOk(macros) && t.text in macros && inv.Invocation? && |inv.commas| + 1 == |inv.args|
    requires ReplacesCall(h, macros, t, inv, next, d) && d <= d'
    ensures ReplacesCall(h, macros, t, inv, next, d')
    decreases d, 1, 1
  {
    hide IsBody, PutBefore;
    var m, hiding := macros[t.text], t.hidden * inv.closer.hidden + {t.text};
    var args, body :| Fits(m, inv, args) && IsBody(h, macros, m, args, hiding, body, d) &&
      PutBefore(body, t.space, inv.rest, next);
    IsBodyMore(h, macros, m, args, hiding, body, d, d');
  }

  lemma {:induction false} IsBodyMore(h: Host, macros: map<string, Macro>, m: Macro, args: seq<seq<PPToken>>,
                                      hiding: set<string>, body: seq<PPToken>, d: nat, d': nat)
    requires TableOk(macros) && |args| == |m.parameters| && IsBody(h, macros, m, args, hiding, body, d) && d <= d'
    ensures IsBody(h, macros, m, args, hiding, body, d')
    decreases d, 1, 0
  {
    hide Expands, Pastes, Substitutes, Leaves, IsNeeded;
    var expanded, parts, done :|
      && AreExpanded(h, macros, m, args, expanded, d) && Substitutes(m, args, expanded, parts)
      && Pastes(h, parts, done) && Leaves(done, hiding, body);
    forall k | 0 <= k < |args| && IsNeeded(m, k)
      ensures Expands(h, macros, args[k], expanded[k], d')
    {
      ExpandsMore(h, macros, args[k], expanded[k], d, d');
    }
    assert AreExpanded(h, macros, m, args, expanded, d');
  }

  // ----- what expansion answers is meant -----

  lemma {:induction false} EmittedExpands(h: Host, macros: map<string, Macro>, pending: seq<PPToken>, depth: nat,
                                          n: nat, o: seq<PPToken>, d: nat)
    requires TableOk(macros) && n <= EXPANSION_LIMIT && depth < DEPTH_LIMIT && pending != []
    requires Step(h, macros, pending, depth, n).Emitted? && Expands(h, macros, pending[1..], o, d)
    ensures Expands(h, macros, pending, [Step(h, macros, pending, depth, n).token] + o, d + 1)
  {
    hide Invoke, ExpandsReplaced;
    var t := Step(h, macros, pending, depth, n).token;
    assert ([t] + o)[1..] == o;
  }

  lemma {:induction false} ReplacedExpands(h: Host, macros: map<string, Macro>, pending: seq<PPToken>,
                                           next: seq<PPToken>, o: seq<PPToken>, d: nat)
    requires TableOk(macros) && pending != [] && CanReplace(h, macros, pending)
    requires Replaces(h, macros, pending[0], pending[1..], next, d) && Expands(h, macros, next, o, d)
    ensures Expands(h, macros, pending, o, d + 1)
  {
    hide Replaces;
  }

  /** The pending input begins with an invocation that is to be replaced. */
  predicate CanReplace(h: Host, macros: map<string, Macro>, pending: seq<PPToken>)
    requires pending != []
  {
    var t := pending[0];
    && t.kind == IdentifierKind && t.text !in t.hidden && !h.isPredefined(t.text)
    && Invokes(macros, t, pending[1..])
  }

  lemma {:induction false} ScanExpands(h: Host, macros: map<string, Macro>, pending: seq<PPToken>,
                                       output: seq<PPToken>, depth: nat, n: nat)
    returns (o: seq<PPToken>, d: nat)
    requires TableOk(macros) && n <= EXPANSION_LIMIT && depth < DEPTH_LIMIT
    requires Scan(h, macros, pending, output, depth, n).Expanded?
    ensures Scan(h, macros, pending, output, depth, n).tokens == output + o && Expands(h, macros, pending, o, d)
    decreases DEPTH_LIMIT - depth, EXPANSION_LIMIT - n, |pending|, 1
  {
    hide Step, Expands, Replaces;
    if pending == [] {
      o, d := [], 0;
      NothingExpands(h, macros);
      return;
    }
    match Step(h, macros, pending, depth, n) {
      case Emitted(t, k) =>
        o, d := ScanExpands(h, macros, pending[1..], output + [t], depth, k);
        EmittedExpands(h, macros, pending, depth, n, o, d);
        assert output + [t] + o == output + ([t] + o);
        o, d := [t] + o, d + 1;
      case Replaced(next, k) =>
        var d1 := StepReplaces(h, macros, pending, depth, n);
        var d2;
        o, d2 := ScanExpands(h, macros, next, output, depth, k);
        d := Integers.Max(d1, d2);
        ReplacesMore(h, macros, pending[0], pending[1..], next, d1, d);
        ExpandsMore(h, macros, next, o, d2, d);
        ReplacedExpands(h, macros, pending, next, o, d);
        d := d + 1;
    }
  }

  lemma {:induction false} NothingExpands(h: Host, macros: map<string, Macro>)
    requires TableOk(macros)
    ensures Expands(h, macros, [], [], 0)
  {
  }

  lemma {:induction false} StepReplaces(h: Host, macros: map<string, Macro>, pending: seq<PPToken>, depth: nat, n: nat)
    returns (d: nat)
    requires TableOk(macros) && n <= EXPANSION_LIMIT && depth < DEPTH_LIMIT && pending != []
    requires Step(h, macros, pending, depth, n).Replaced?
    ensures CanReplace(h, macros, pending)
    ensures Replaces(h, macros, pending[0], pending[1..], Step(h, macros, pending, depth, n).pending, d)
    decreases DEPTH_LIMIT - depth, EXPANSION_LIMIT - n, |pending|, 0
  {
    hide Invoke, Replaces;
    d := InvokeReplaces(h, macros, pending, depth, n + 1);
  }

  lemma {:induction false} InvokeReplaces(h: Host, macros: map<string, Macro>, pending: seq<PPToken>, depth: nat,
                                          n: nat)
    returns (d: nat)
    requires TableOk(macros) && n <= EXPANSION_LIMIT && depth < DEPTH_LIMIT && pending != []
    requires IsInvocation(macros, pending) && Invoke(h, macros, pending, depth, n).Replaced?
    ensures Invokes(macros, pending[0], pending[1..])
    ensures Replaces(h, macros, pending[0], pending[1..], Invoke(h, macros, pending, depth, n).pending, d)
    decreases DEPTH_LIMIT - depth, EXPANSION_LIMIT - n, |macros[pending[0].text].replacement| + 2, 0
  {
    hide Replace, IsBody, PutBefore, Fits, Match, Collect, Splits;
    var t, m, rest := pending[0], macros[pending[0].text], pending[1..];
    var body;
    if !m.functionLike {
      body, d := BodyFound(h, macros, t, m, [], t.hidden, rest, depth, n);
    } else {
      assert rest[1..] == pending[2..];
      var inv := Collect(pending[2..], 0, [[]], []);
      CollectsExactly(pending[2..], inv);
      SplitsCount(pending[2..], inv);
      var args := Match(m, inv).value;
      FitsExactly(m, inv, args);
      MatchConserves(m, inv);
      body, d := BodyFound(h, macros, t, m, args, t.hidden * inv.closer.hidden, inv.rest, depth, n);
      assert ReplacesCall(h, macros, t, inv, Invoke(h, macros, pending, depth, n).pending, d);
    }
  }

  lemma {:induction false} SplitsCount(pending: seq<PPToken>, inv: Invocation)
    requires Splits(pending, inv)
    ensures inv.Invocation? && |inv.commas| + 1 == |inv.args|
  {
  }

  lemma {:induction false} BodyFound(h: Host, macros: map<string, Macro>, t: PPToken, m: Macro,
                                     args: seq<seq<PPToken>>, hidden: set<string>, rest: seq<PPToken>, depth: nat,
                                     n: nat)
    returns (body: seq<PPToken>, d: nat)
    requires TableOk(macros) && n <= EXPANSION_LIMIT && depth < DEPTH_LIMIT && MacroOk(m) && |args| == |m.parameters|
    requires Replace(h, macros, t, m, args, hidden, rest, depth, n).Replaced?
    ensures IsBody(h, macros, m, args, hidden + {t.text}, body, d)
    ensures PutBefore(body, t.space, rest, Replace(h, macros, t, m, args, hidden, rest, depth, n).pending)
    decreases DEPTH_LIMIT - depth, EXPANSION_LIMIT - n, |m.replacement| + 1, 0
  {
    hide Substitute, PasteAll, Finish, PushBack, Substitutes, Pastes, Leaves, PutBefore, MacroOk, PartsFrom, Expands;
    var values;
    values, d := SubstituteMeans(h, macros, m, args, 0, Unexpanded(|args|), depth, n);
    NoneYet(|args|);
    var parts := Substitute(h, macros, m, args, 0, Unexpanded(|args|), depth, n).parts;
    var expanded := seq(|args|, k requires 0 <= k < |args| => values[k].UnwrapOr([]));
    AllSupplied(m, values, expanded);
    SubstitutesExactly(m, args, values, expanded, parts);
    ShapedIsPasteable(m, parts);
    var done := PasteAll(h, parts, []).value;
    PastesExactly(h, parts, done);
    body := Finish(done, hidden + {t.text});
    LeavesExactly(done, hidden + {t.text}, body);
    PutBeforeExactly(body, t.space, rest, PushBack(body, t.space, rest));
    assert AreExpanded(h, macros, m, args, expanded, d);
  }

  lemma {:induction false} NoneYet(n: nat)
    ensures forall k :: 0 <= k < n ==> Unexpanded(n)[k] == None
  {
    if n > 0 { NoneYet(n - 1); }
  }

  /** Whatever argument is needed has been expanded. */
  ghost predicate HasNeeded(m: Macro, values: seq<Option<seq<PPToken>>>, i: nat)
    requires |values| == |m.parameters|
  {
    forall j, k: nat :: i <= j < |m.replacement| && NeedsAt(m, j, k) ==> values[k].Some?
  }

  lemma {:induction false} AllSupplied(m: Macro, values: seq<Option<seq<PPToken>>>, expanded: seq<seq<PPToken>>)
    requires |values| == |expanded| == |m.parameters| && HasNeeded(m, values, 0)
    requires forall k :: 0 <= k < |values| ==> expanded[k] == values[k].UnwrapOr([])
    ensures SuppliesAll(m, values, expanded)
    ensures forall k :: 0 <= k < |values| && IsNeeded(m, k) ==> values[k] == Some(expanded[k])
  {
    hide IsQuoted, IsBesidePaste;
  }

  lemma {:induction false} NeededIsParameter(m: Macro, i: nat, k: nat)
    requires MacroOk(m) && i < |m.replacement| && NeedsAt(m, i, k)
    ensures IsParameter(m, i) && !IsPasted(m, i) && ParameterIndex(m, m.replacement[i]) == k
  {
    var t := m.replacement[i];
    assert Lexical(t);
    IndexNames(m, t, k);
    assert !IsIdentifier("#") && !IsIdentifier("##") by { assert !IsAlpha("#"[0]) && !IsAlpha("##"[0]); }
  }

  lemma {:induction false} SamePartsAt(m: Macro, args: seq<seq<PPToken>>, before: seq<Option<seq<PPToken>>>,
                                       after: seq<Option<seq<PPToken>>>, i: nat)
    requires MacroOk(m) && i < |m.replacement| && |args| == |before| == |after| == |m.parameters|
    requires IsParameter(m, i) && !IsPasted(m, i) ==>
               var k := ParameterIndex(m, m.replacement[i]); before[k] == after[k]
    ensures PartsAt(m, args, before, i) == PartsAt(m, args, after, i)
  {
  }

  /** The parts are those of the replacement list with some values for the arguments that are needed, each of them the
      meaning of its argument. */
  lemma {:induction false} SubstituteMeans(h: Host, macros: map<string, Macro>, m: Macro, args: seq<seq<PPToken>>,
                                           i: nat, prepared: seq<Option<seq<PPToken>>>, depth: nat, n: nat)
    returns (values: seq<Option<seq<PPToken>>>, d: nat)
    requires TableOk(macros) && n <= EXPANSION_LIMIT && depth < DEPTH_LIMIT && MacroOk(m)
    requires i <= |m.replacement| && |args| == |prepared| == |m.parameters|
    requires Substitute(h, macros, m, args, i, prepared, depth, n).Substituted?
    ensures |values| == |prepared| && HasNeeded(m, values, i)
    ensures forall k :: 0 <= k < |values| && prepared[k].Some? ==> values[k] == prepared[k]
    ensures forall k :: 0 <= k < |values| && prepared[k].None? && values[k].Some? ==>
              Expands(h, macros, args[k], values[k].value, d)
    ensures Substitute(h, macros, m, args, i, prepared, depth, n).parts == PartsFrom(m, args, values, i)
    decreases DEPTH_LIMIT - depth, EXPANSION_LIMIT - n, |m.replacement| - i, 1
  {
    hide PartsAt, PartsFrom, MacroOk, Prepare, Expands, HasNeeded, IsParameter, IsPasted, IsStringize, Width,
         ParameterIndex, Shaped;
    if i == |m.replacement| {
      values, d := prepared, 0;
      NothingNeeded(m, args, values);
      return;
    }
    var d0 := PrepareMeans(h, macros, m, args, i, prepared, depth, n);
    var p := Prepare(h, macros, m, args, i, prepared, depth, n);
    var d1;
    values, d1 := SubstituteMeans(h, macros, m, args, i + Width(m, i), p.values, depth, p.expansions);
    d := Integers.Max(d0, d1);
    NeededBefore(m, args, p.values, values, i);
    forall k | 0 <= k < |values| && prepared[k].None? && values[k].Some?
      ensures Expands(h, macros, args[k], values[k].value, d)
    {
      ExpandsMore(h, macros, args[k], values[k].value, if p.values[k].Some? then d0 else d1, d);
    }
  }

  lemma {:induction false} NothingNeeded(m: Macro, args: seq<seq<PPToken>>, values: seq<Option<seq<PPToken>>>)
    requires MacroOk(m) && |args| == |values| == |m.parameters|
    ensures HasNeeded(m, values, |m.replacement|) && PartsFrom(m, args, values, |m.replacement|) == []
  {
  }

  lemma {:induction false} NeededBefore(m: Macro, args: seq<seq<PPToken>>, before: seq<Option<seq<PPToken>>>,
                                        values: seq<Option<seq<PPToken>>>, i: nat)
    requires MacroOk(m) && i < |m.replacement| && |args| == |before| == |values| == |m.parameters|
    requires HasNeeded(m, values, i + Width(m, i))
    requires forall k :: 0 <= k < |values| && before[k].Some? ==> values[k] == before[k]
    requires IsParameter(m, i) && !IsPasted(m, i) ==> before[ParameterIndex(m, m.replacement[i])].Some?
    ensures HasNeeded(m, values, i)
    ensures PartsFrom(m, args, values, i)
         == PartsAt(m, args, before, i) + PartsFrom(m, args, values, i + Width(m, i))
  {
    hide PartsAt, MacroOk, IsQuoted, IsBesidePaste, IsPasted, ParameterIndex, IsStringize, Width;
    SamePartsAt(m, args, before, values, i);
    forall j, k: nat | i <= j < |m.replacement| && NeedsAt(m, j, k)
      ensures values[k].Some?
    {
      if j == i {
        NeededIsParameter(m, i, k);
      } else if j < i + Width(m, i) {
        WidthAtMost(m, i);
        SkippedIsQuoted(m, i, k);
      }
    }
  }

  lemma {:induction false} WidthAtMost(m: Macro, i: nat)
    requires MacroOk(m) && i < |m.replacement|
    ensures Width(m, i) <= 2
  {
  }

  lemma {:induction false} SkippedIsQuoted(m: Macro, i: nat, k: nat)
    requires MacroOk(m) && i + 1 < |m.replacement| && Width(m, i) == 2
    ensures !NeedsAt(m, i + 1, k)
  {
    NextUnquoted(m, i);
  }

  /** After preparing for token i the argument it needs is there, and what is new is the meaning of its argument. */
  lemma {:induction false} PrepareMeans(h: Host, macros: map<string, Macro>, m: Macro, args: seq<seq<PPToken>>, i: nat,
                                        prepared: seq<Option<seq<PPToken>>>, depth: nat, n: nat)
    returns (d: nat)
    requires TableOk(macros) && n <= EXPANSION_LIMIT && depth < DEPTH_LIMIT && MacroOk(m)
    requires i < |m.replacement| && |args| == |prepared| == |m.parameters|
    requires Prepare(h, macros, m, args, i, prepared, depth, n).Prepared?
    ensures var values := Prepare(h, macros, m, args, i, prepared, depth, n).values;
            && |values| == |prepared|
            && (IsParameter(m, i) && !IsPasted(m, i) ==> values[ParameterIndex(m, m.replacement[i])].Some?)
            && forall k :: 0 <= k < |values| ==>
                 if prepared[k].Some? then values[k] == prepared[k]
                 else values[k].Some? ==> Expands(h, macros, args[k], values[k].value, d)
    decreases DEPTH_LIMIT - depth, EXPANSION_LIMIT - n, |m.replacement| - i, 0
  {
    hide Scan, Expands, MacroOk, IsPasted, IsStringize, IsPaste;
    d := 0;
    var index := ParameterIndex(m, m.replacement[i]);
    if IsParameter(m, i) && !IsPasted(m, i) && prepared[index].None? {
      var o;
      o, d := ScanExpands(h, macros, args[index], [], depth + 1, n);
      assert [] + o == o;
    }
  }

  // ----- what is meant is answered, within the limits -----

  function AllOf(expanded: seq<seq<PPToken>>): (values: seq<Option<seq<PPToken>>>)
    ensures |values| == |expanded| && forall k :: 0 <= k < |expanded| ==> values[k] == Some(expanded[k])
  {
    seq(|expanded|, k requires 0 <= k < |expanded| => Some(expanded[k]))
  }

  /** The outcome of expansion is what is meant, or a limit was met. */
  predicate Meets(r: Outcome, tokens: seq<PPToken>) {
    match r
    case Expanded(ts, _) => ts == tokens
    case Failed(p) => p == ExpansionLimit
  }

  lemma {:induction false} EmitsFirst(h: Host, macros: map<string, Macro>, pending: seq<PPToken>, o: seq<PPToken>,
                                      d: nat, depth: nat, n: nat)
    requires TableOk(macros) && n <= EXPANSION_LIMIT && depth < DEPTH_LIMIT && pending != []
    requires Expands(h, macros, pending, o, d) && !CanReplace(h, macros, pending)
    ensures d > 0 && o != [] && Expands(h, macros, pending[1..], o[1..], d - 1)
    ensures var r := Step(h, macros, pending, depth, n); r == Stopped(ExpansionLimit) || (r.Emitted? && r.token == o[0])
  {
    hide ExpandsReplaced, Invoke;
  }

  lemma {:induction false} ReplacesFirst(h: Host, macros: map<string, Macro>, pending: seq<PPToken>, o: seq<PPToken>,
                                         d: nat)
    returns (next: seq<PPToken>)
    requires TableOk(macros) && pending != [] && Expands(h, macros, pending, o, d) && CanReplace(h, macros, pending)
    ensures d > 0 && Replaces(h, macros, pending[0], pending[1..], next, d - 1) && Expands(h, macros, next, o, d - 1)
  {
    hide Replaces;
    next :| Replaces(h, macros, pending[0], pending[1..], next, d - 1) && Expands(h, macros, next, o, d - 1);
  }

  lemma {:induction false} ExpandsScanned(h: Host, macros: map<string, Macro>, pending: seq<PPToken>,
                                          o: seq<PPToken>, d: nat, output: seq<PPToken>, depth: nat, n: nat)
    requires TableOk(macros) && n <= EXPANSION_LIMIT && depth < DEPTH_LIMIT && Expands(h, macros, pending, o, d)
    ensures Meets(Scan(h, macros, pending, output, depth, n), output + o)
    decreases d, 0
  {
    hide Step, Expands, Replaces, CanReplace;
    if pending == [] {
      OnlyNothing(h, macros, o, d);
      assert output + o == output;
    } else if !CanReplace(h, macros, pending) {
      EmitsFirst(h, macros, pending, o, d, depth, n);
      var r := Step(h, macros, pending, depth, n);
      if r.Emitted? {
        ExpandsScanned(h, macros, pending[1..], o[1..], d - 1, output + [o[0]], depth, r.expansions);
        assert output + [o[0]] + o[1..] == output + o;
      }
    } else {
      var next := ReplacesFirst(h, macros, pending, o, d);
      ReplacesStepped(h, macros, pending, next, d - 1, depth, n);
      var r := Step(h, macros, pending, depth, n);
      if r.Replaced? { ExpandsScanned(h, macros, next, o, d - 1, output, depth, r.expansions); }
    }
  }

  lemma {:induction false} OnlyNothing(h: Host, macros: map<string, Macro>, o: seq<PPToken>, d: nat)
    requires TableOk(macros) && Expands(h, macros, [], o, d)
    ensures o == []
  {
  }

  /** A turn of the scan either meets a limit or leaves next. */
  predicate Moves(r: Move, next: seq<PPToken>) {
    match r
    case Stopped(p) => p == ExpansionLimit
    case Replaced(pending, _) => pending == next
    case Emitted(_, _) => false
  }

  lemma {:induction false} ReplacesStepped(h: Host, macros: map<string, Macro>, pending: seq<PPToken>,
                                           next: seq<PPToken>, d: nat, depth: nat, n: nat)
    requires TableOk(macros) && n <= EXPANSION_LIMIT && depth < DEPTH_LIMIT && pending != []
    requires CanReplace(h, macros, pending) && Replaces(h, macros, pending[0], pending[1..], next, d)
    ensures Moves(Step(h, macros, pending, depth, n), next)
    decreases d, 4
  {
    hide Invoke, Replaces;
    if |pending[0].hidden| < HIDE_LIMIT && n + 1 <= EXPANSION_LIMIT {
      ReplacesInvoked(h, macros, pending, next, d, depth, n + 1);
    }
  }

  lemma {:induction false} ReplacesInvoked(h: Host, macros: map<string, Macro>, pending: seq<PPToken>,
                                           next: seq<PPToken>, d: nat, depth: nat, n: nat)
    requires TableOk(macros) && n <= EXPANSION_LIMIT && depth < DEPTH_LIMIT && pending != []
    requires Invokes(macros, pending[0], pending[1..]) && Replaces(h, macros, pending[0], pending[1..], next, d)
    ensures IsInvocation(macros, pending) && Moves(Invoke(h, macros, pending, depth, n), next)
    decreases d, 3
  {
    hide Replace, IsBody, PutBefore, Match, Collect, Reading;
    var t, m, rest := pending[0], macros[pending[0].text], pending[1..];
    if !m.functionLike {
      var body :| IsBody(h, macros, m, [], t.hidden + {t.text}, body, d) && PutBefore(body, t.space, rest, next);
      BodyReplaced(h, macros, t, m, [], t.hidden, rest, body, next, d, depth, n);
    } else {
      assert rest[1..] == pending[2..];
      var inv := CallSplits(h, macros, t, rest, next, d);
      CollectsExactly(pending[2..], inv);
      var hidden := t.hidden * inv.closer.hidden;
      var args, body :| Fits(m, inv, args) && IsBody(h, macros, m, args, hidden + {t.text}, body, d) &&
        PutBefore(body, t.space, inv.rest, next);
      FitsExactly(m, inv, args);
      BodyReplaced(h, macros, t, m, args, hidden, inv.rest, body, next, d, depth, n);
    }
  }

  lemma {:induction false} CallSplits(h: Host, macros: map<string, Macro>, t: PPToken, rest: seq<PPToken>,
                                      next: seq<PPToken>, d: nat)
    returns (inv: Invocation)
    requires TableOk(macros) && Invokes(macros, t, rest) && macros[t.text].functionLike
    requires Replaces(h, macros, t, rest, next, d)
    ensures Splits(rest[1..], inv) && inv.Invocation? && |inv.commas| + 1 == |inv.args|
    ensures ReplacesCall(h, macros, t, inv, next, d)
  {
    hide ReplacesCall;
    inv :| Splits(rest[1..], inv) && ReplacesCall(h, macros, t, inv, next, d);
  }

  lemma {:induction false} BodyReplaced(h: Host, macros: map<string, Macro>, t: PPToken, m: Macro,
                                        args: seq<seq<PPToken>>, hidden: set<string>, rest: seq<PPToken>,
                                        body: seq<PPToken>, next: seq<PPToken>, d: nat, depth: nat, n: nat)
    requires TableOk(macros) && n <= EXPANSION_LIMIT && depth < DEPTH_LIMIT && MacroOk(m) && |args| == |m.parameters|
    requires IsBody(h, macros, m, args, hidden + {t.text}, body, d) && PutBefore(body, t.space, rest, next)
    ensures Moves(Replace(h, macros, t, m, args, hidden, rest, depth, n), next)
    decreases d, 2
  {
    hide Substitute, PasteAll, Finish, PushBack, Substitutes, Pastes, Leaves, PutBefore, MacroOk, PartsFrom, Expands,
         IsNeeded;
    var expanded, parts, done :|
      && AreExpanded(h, macros, m, args, expanded, d) && Substitutes(m, args, expanded, parts)
      && Pastes(h, parts, done) && Leaves(done, hidden + {t.text}, body);
    NoneYet(|args|);
    SubstitutedSame(h, macros, m, args, expanded, d, 0, Unexpanded(|args|), depth, n);
    AllSupply(m, expanded);
    SubstitutesExactly(m, args, AllOf(expanded), expanded, parts);
    var r := Substitute(h, macros, m, args, 0, Unexpanded(|args|), depth, n);
    if r.Substituted? {
      ShapedIsPasteable(m, parts);
      PastesExactly(h, parts, done);
      LeavesExactly(done, hidden + {t.text}, body);
      PutBeforeExactly(body, t.space, rest, next);
    }
  }

  lemma {:induction false} AllSupply(m: Macro, expanded: seq<seq<PPToken>>)
    requires |expanded| == |m.parameters|
    ensures SuppliesAll(m, AllOf(expanded), expanded)
  {
  }

  /** Substitution either meets a limit or gives the parts that the expanded arguments give. */
  predicate Gives(r: Substituted, parts: seq<Part>) {
    match r
    case Substituted(ps, _) => ps == parts
    case Unsubstituted(p) => p == ExpansionLimit
  }

  lemma {:induction false} SubstitutedSame(h: Host, macros: map<string, Macro>, m: Macro, args: seq<seq<PPToken>>,
                                           expanded: seq<seq<PPToken>>, d: nat, i: nat,
                                           prepared: seq<Option<seq<PPToken>>>, depth: nat, n: nat)
    requires TableOk(macros) && n <= EXPANSION_LIMIT && depth < DEPTH_LIMIT && MacroOk(m)
    requires i <= |m.replacement| && |args| == |prepared| == |m.parameters|
    requires (i < |m.replacement| ==> !IsQuoted(m, i)) && AreExpanded(h, macros, m, args, expanded, d)
    requires forall k :: 0 <= k < |prepared| && prepared[k].Some? ==> prepared[k].value == expanded[k]
    ensures Gives(Substitute(h, macros, m, args, i, prepared, depth, n), PartsFrom(m, args, AllOf(expanded), i))
    decreases d, 1, |m.replacement| - i
  {
    hide PartsAt, MacroOk, Prepare, AreExpanded, IsParameter, IsPasted, IsQuoted, IsStringize, Width, ParameterIndex,
         Shaped, AllOf;
    ExpandedCount(h, macros, m, args, expanded, d);
    if i == |m.replacement| { return; }
    PreparedSame(h, macros, m, args, expanded, d, i, prepared, depth, n);
    var p := Prepare(h, macros, m, args, i, prepared, depth, n);
    if p.Prepared? {
      NextUnquoted(m, i);
      SubstitutedSame(h, macros, m, args, expanded, d, i + Width(m, i), p.values, depth, p.expansions);
      SameAsAll(m, args, p.values, expanded, i);
    }
  }

  lemma {:induction false} ExpandedCount(h: Host, macros: map<string, Macro>, m: Macro, args: seq<seq<PPToken>>,
                                         expanded: seq<seq<PPToken>>, d: nat)
    requires TableOk(macros) && |args| == |m.parameters| && AreExpanded(h, macros, m, args, expanded, d)
    ensures |expanded| == |args|
  {
  }

  lemma {:induction false} SameAsAll(m: Macro, args: seq<seq<PPToken>>, values: seq<Option<seq<PPToken>>>,
                                     expanded: seq<seq<PPToken>>, i: nat)
    requires MacroOk(m) && i < |m.replacement| && |args| == |values| == |expanded| == |m.parameters|
    requires forall k :: 0 <= k < |values| && values[k].Some? ==> values[k].value == expanded[k]
    requires IsParameter(m, i) && !IsPasted(m, i) ==> values[ParameterIndex(m, m.replacement[i])].Some?
    ensures PartsAt(m, args, values, i) == PartsAt(m, args, AllOf(expanded), i)
  {
    hide PartsAt, MacroOk, IsPasted, IsStringize, ParameterIndex, IsPaste;
    SamePartsAt(m, args, values, AllOf(expanded), i);
  }

  /** Preparing for token i either meets a limit or provides its argument as expanded has it. */
  lemma {:induction false} PreparedSame(h: Host, macros: map<string, Macro>, m: Macro, args: seq<seq<PPToken>>,
                                        expanded: seq<seq<PPToken>>, d: nat, i: nat,
                                        prepared: seq<Option<seq<PPToken>>>, depth: nat, n: nat)
    requires TableOk(macros) && n <= EXPANSION_LIMIT && depth < DEPTH_LIMIT && MacroOk(m)
    requires i < |m.replacement| && |args| == |prepared| == |m.parameters| && !IsQuoted(m, i)
    requires AreExpanded(h, macros, m, args, expanded, d)
    requires forall k :: 0 <= k < |prepared| && prepared[k].Some? ==> prepared[k].value == expanded[k]
    ensures match Prepare(h, macros, m, args, i, prepared, depth, n)
            case Unprepared(p) => p == ExpansionLimit
            case Prepared(values, _) =>
              && |values| == |prepared|
              && (IsParameter(m, i) && !IsPasted(m, i) ==> values[ParameterIndex(m, m.replacement[i])].Some?)
              && forall k :: 0 <= k < |values| && values[k].Some? ==> values[k].value == expanded[k]
    decreases d, 1, 0, 0
  {
    hide Scan, Expands, MacroOk, IsPasted, IsStringize, IsPaste;
    var index := ParameterIndex(m, m.replacement[i]);
    if IsParameter(m, i) && !IsPasted(m, i) && prepared[index].None? {
      ParameterIsNeeded(m, i);
      if depth + 1 < DEPTH_LIMIT {
        ExpandsScanned(h, macros, args[index], expanded[index], d, [], depth + 1, n);
        assert [] + expanded[index] == expanded[index];
      }
    }
  }

  lemma {:induction false} ParameterIsNeeded(m: Macro, i: nat)
    requires MacroOk(m) && i < |m.replacement| && IsParameter(m, i) && !IsPasted(m, i) && !IsQuoted(m, i)
    ensures IsNeeded(m, ParameterIndex(m, m.replacement[i]))
  {
    var t := m.replacement[i];
    assert Lexical(t);
    IndexNames(m, t, ParameterIndex(m, t));
    assert NeedsAt(m, i, ParameterIndex(m, t));
  }

  // ----- expansion is the meaning of its input -----

  /** output is the complete expansion of input. */
  ghost predicate Means(h: Host, macros: map<string, Macro>, input: seq<PPToken>, output: seq<PPToken>)
    requires TableOk(macros)
  {
    exists d: nat :: Expands(h, macros, input, output, d)
  }

  /** An answer is the meaning of the input, and there is no other; and where the answer is a failure to do anything but
      keep within the limits, the input has no meaning. */
  ghost predicate IsMeaning(h: Host, macros: map<string, Macro>, input: seq<PPToken>, r: Outcome)
    requires TableOk(macros)
  {
    match r
    case Expanded(tokens, _) => forall output :: Means(h, macros, input, output) <==> output == tokens
    case Failed(p) => p != ExpansionLimit ==> forall output :: !Means(h, macros, input, output)
  }

  lemma {:induction false} ExpansionIsMeaning(h: Host, macros: map<string, Macro>, input: seq<PPToken>, depth: nat,
                                              n: nat)
    requires TableOk(macros) && n <= EXPANSION_LIMIT
    ensures IsMeaning(h, macros, input, Expand(h, macros, input, depth, n))
  {
    hide Scan, Expands;
    if depth >= DEPTH_LIMIT { return; }
    forall output | Means(h, macros, input, output)
      ensures Meets(Expand(h, macros, input, depth, n), output)
    {
      var d: nat :| Expands(h, macros, input, output, d);
      ExpandsScanned(h, macros, input, output, d, [], depth, n);
      assert [] + output == output;
    }
    if Expand(h, macros, input, depth, n).Expanded? {
      var o, d := ScanExpands(h, macros, input, [], depth, n);
      assert [] + o == o;
      assert Means(h, macros, input, o);
    }
  }
}
