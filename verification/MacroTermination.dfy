/** Two facts about whole expansions. What comes out is in normal form. And expanding object-like macros ends by itself:
    a weight on the pending tokens goes down with every turn of the scan, so the numeric limits are not what stops it.
    */
module MacroTermination {
  import opened Wrappers
  import opened PPTokens
  import opened MacroArguments
  import opened MacroExpansion

  // ----- normal form -----

  /** Nothing to expand at t: no identifier, hidden from itself, or no object-like macro. */
  predicate Settled(h: Host, macros: map<string, Macro>, t: PPToken) {
    || t.kind != IdentifierKind
    || t.text in t.hidden
    || (!h.isPredefined(t.text) && (t.text in macros ==> macros[t.text].functionLike))
  }

  predicate AllSettled(h: Host, macros: map<string, Macro>, ts: seq<PPToken>) {
    forall i :: 0 <= i < |ts| ==> Settled(h, macros, ts[i])
  }

  /** A token is emitted as an identifier only if it is settled; a function-like macro's name then stood without an
      argument list. */
  lemma {:induction false} EmittedIsSettled(h: Host, macros: map<string, Macro>, pending: seq<PPToken>, depth: nat,
                                            n: nat)
    requires TableOk(macros) && n <= EXPANSION_LIMIT && depth < DEPTH_LIMIT && pending != []
    requires Step(h, macros, pending, depth, n).Emitted?
    ensures var t := Step(h, macros, pending, depth, n).token;
            && Settled(h, macros, t)
            && (t.kind == IdentifierKind && t.text !in t.hidden && t.text in macros ==>
                  macros[t.text].functionLike && (|pending| == 1 || pending[1].text != OPEN))
  {
  }

  lemma {:induction false} ScanSettles(h: Host, macros: map<string, Macro>, pending: seq<PPToken>, output: seq<PPToken>,
                                       depth: nat, n: nat)
    requires TableOk(macros) && n <= EXPANSION_LIMIT && depth < DEPTH_LIMIT && AllSettled(h, macros, output)
    requires Scan(h, macros, pending, output, depth, n).Expanded?
    ensures AllSettled(h, macros, Scan(h, macros, pending, output, depth, n).tokens)
    decreases EXPANSION_LIMIT - n, |pending|
  {
    if pending != [] {
      match Step(h, macros, pending, depth, n)
      case Emitted(t, k) =>
        EmittedIsSettled(h, macros, pending, depth, n);
        ScanSettles(h, macros, pending[1..], output + [t], depth, k);
      case Replaced(next, k) => ScanSettles(h, macros, next, output, depth, k);
    }
  }

  /** Everything that expansion leaves is settled. */
  lemma {:induction false} ExpansionSettles(h: Host, macros: map<string, Macro>, input: seq<PPToken>, depth: nat,
                                            n: nat)
    requires TableOk(macros) && n <= EXPANSION_LIMIT && Expand(h, macros, input, depth, n).Expanded?
    ensures AllSettled(h, macros, Expand(h, macros, input, depth, n).tokens)
  {
    ScanSettles(h, macros, input, [], depth, n);
  }

  predicate ObjectLike(macros: map<string, Macro>) {
    forall name :: name in macros ==> !macros[name].functionLike
  }

  lemma {:induction false} SettledStays(h: Host, macros: map<string, Macro>, ts: seq<PPToken>, output: seq<PPToken>,
                                        depth: nat, n: nat)
    requires TableOk(macros) && n <= EXPANSION_LIMIT && depth < DEPTH_LIMIT && ObjectLike(macros)
    requires AllSettled(h, macros, ts)
    ensures Scan(h, macros, ts, output, depth, n) == Expanded(output + ts, n)
    decreases ts
  {
    if ts == [] {
      assert output + ts == output;
    } else {
      assert Settled(h, macros, ts[0]);
      SettledStays(h, macros, ts[1..], output + [ts[0]], depth, n);
      assert output + [ts[0]] + ts[1..] == output + ts;
    }
  }

  /** With object-like macros only, expanding a second time changes nothing. */
  lemma {:induction false} ExpansionIsIdempotent(h: Host, macros: map<string, Macro>, input: seq<PPToken>, depth: nat,
                                                 n: nat)
    requires TableOk(macros) && n <= EXPANSION_LIMIT && ObjectLike(macros)
    requires Expand(h, macros, input, depth, n).Expanded?
    ensures var r := Expand(h, macros, input, depth, n);
            Expand(h, macros, r.tokens, depth, r.expansions) == r
  {
    var r := Expand(h, macros, input, depth, n);
    ExpansionSettles(h, macros, input, depth, n);
    SettledStays(h, macros, r.tokens, [], depth, r.expansions);
    assert [] + r.tokens == r.tokens;
  }

  // ----- what an object-like macro pushes back -----

  function ObjectPart(m: Macro, i: nat): Part
    requires i < |m.replacement|
  {
    if IsPaste(m, i) then Part(m.replacement[i], true, false) else Plain(m.replacement[i])
  }

  function ObjectParts(m: Macro, i: nat): (parts: seq<Part>)
    requires i <= |m.replacement|
    ensures |parts| == |m.replacement| - i
    ensures forall k :: 0 <= k < |parts| ==> parts[k] == ObjectPart(m, i + k)
    decreases |m.replacement| - i
  {
    if i == |m.replacement| then [] else [ObjectPart(m, i)] + ObjectParts(m, i + 1)
  }

  /** Substitution has no arguments to put in, and asks for no expansions. */
  lemma {:induction false} ObjectSubstitute(h: Host, macros: map<string, Macro>, m: Macro, i: nat, depth: nat, n: nat)
    requires TableOk(macros) && n <= EXPANSION_LIMIT && depth < DEPTH_LIMIT && MacroOk(m) && !m.functionLike
    requires i <= |m.replacement|
    ensures Substitute(h, macros, m, [], i, [], depth, n) == Substituted(ObjectParts(m, i), n)
    decreases |m.replacement| - i
  {
    if i < |m.replacement| { ObjectSubstitute(h, macros, m, i + 1, depth, n); }
  }

  lemma {:induction false} ObjectPasteable(m: Macro)
    requires MacroOk(m)
    ensures Pasteable([], ObjectParts(m, 0))
  {
    forall k | 0 <= k < |m.replacement| && IsPaste(m, k)
      ensures k > 0 && k + 1 < |m.replacement| && !IsPaste(m, k + 1)
    {
      assert PartOk(m, k);
      assert PartOk(m, k + 1);
    }
  }

  /** The tokens that replace t, or None when a paste fails. */
  function Body(h: Host, macros: map<string, Macro>, t: PPToken): Option<seq<PPToken>>
    requires TableOk(macros) && t.text in macros
  {
    ObjectPasteable(macros[t.text]);
    match PasteAll(h, ObjectParts(macros[t.text], 0), [])
    case None => None
    case Some(done) => Some(Finish(done, t.hidden + {t.text}))
  }

  /** No token of parts is hidden from anything yet. */
  ghost predicate Bare(parts: seq<Part>) {
    forall i :: 0 <= i < |parts| ==> parts[i].token.hidden == {}
  }

  lemma {:induction false} PasteBare(h: Host, parts: seq<Part>, done: seq<Part>)
    requires HostOk(h) && Pasteable(done, parts) && Bare(parts) && Bare(done)
    ensures var r := PasteAll(h, parts, done);
            r.Some? ==> Bare(r.value) && |r.value| <= |done| + |parts|
    decreases |parts|
  {
    if parts != [] {
      if !parts[0].paste {
        PasteBare(h, parts[1..], done + [parts[0]]);
      } else {
        var p := PasteTwo(h, done[|done| - 1], parts[1]);
        if p.Some? { PasteBare(h, parts[2..], done[..|done| - 1] + [p.value]); }
      }
    }
  }

  lemma {:induction false} FinishHides(parts: seq<Part>, hidden: set<string>)
    requires Bare(parts)
    ensures |Finish(parts, hidden)| <= |parts|
    ensures forall i :: 0 <= i < |Finish(parts, hidden)| ==> Finish(parts, hidden)[i].hidden == hidden
    decreases parts
  {
    if parts != [] { FinishHides(parts[1..], hidden); }
  }

  /** Every token pushed back carries the macro's name and what hid the name itself, and nothing else. */
  lemma {:induction false} BodyHides(h: Host, macros: map<string, Macro>, t: PPToken)
    requires HostOk(h) && TableOk(macros) && t.text in macros && Body(h, macros, t).Some?
    ensures var b := Body(h, macros, t).value;
            && |b| <= |macros[t.text].replacement|
            && forall i :: 0 <= i < |b| ==> b[i].hidden == t.hidden + {t.text}
  {
    var m := macros[t.text];
    ObjectPasteable(m);
    PasteBare(h, ObjectParts(m, 0), []);
    FinishHides(PasteAll(h, ObjectParts(m, 0), []).value, t.hidden + {t.text});
  }

  // ----- the weight -----

  /** How many turns a token with k names left to expand can cause, when replacement lists have at most l tokens. */
  function Reach(l: nat, k: nat): (w: nat)
    ensures w >= 1
  {
    if k == 0 then 1 else 1 + l * Reach(l, k - 1)
  }

  predicate Expandable(macros: map<string, Macro>, t: PPToken) {
    t.kind == IdentifierKind && t.text !in t.hidden && t.text in macros
  }

  function TokenWeight(macros: map<string, Macro>, l: nat, t: PPToken): (w: nat)
    ensures w >= 1
  {
    if Expandable(macros, t) then Reach(l, |macros.Keys - t.hidden|) else 1
  }

  function Weight(macros: map<string, Macro>, l: nat, ts: seq<PPToken>): nat {
    if ts == [] then 0 else TokenWeight(macros, l, ts[0]) + Weight(macros, l, ts[1..])
  }

  /** No replacement list is longer than l. */
  predicate LengthsWithin(macros: map<string, Macro>, l: nat) {
    forall name :: name in macros ==> |macros[name].replacement| <= l
  }

  lemma {:induction false} WeightConcat(macros: map<string, Macro>, l: nat, a: seq<PPToken>, b: seq<PPToken>)
    ensures Weight(macros, l, a + b) == Weight(macros, l, a) + Weight(macros, l, b)
    decreases a
  {
    if a == [] {
      assert a + b == b;
    } else {
      assert (a + b)[1..] == a[1..] + b;
      WeightConcat(macros, l, a[1..], b);
    }
  }

  /** Spaces weigh nothing. */
  lemma {:induction false} WeightPushBack(macros: map<string, Macro>, l: nat, replacement: seq<PPToken>, space: bool,
                                          rest: seq<PPToken>)
    ensures Weight(macros, l, PushBack(replacement, space, rest))
        == Weight(macros, l, replacement) + Weight(macros, l, rest)
  {
    if replacement != [] {
      var front := [replacement[0].(space := space)] + replacement[1..];
      assert front[1..] == replacement[1..];
      assert TokenWeight(macros, l, front[0]) == TokenWeight(macros, l, replacement[0]);
      WeightConcat(macros, l, front, rest);
    } else if rest != [] {
      var front := [rest[0].(space := rest[0].space || space)] + rest[1..];
      assert front[1..] == rest[1..];
      assert TokenWeight(macros, l, front[0]) == TokenWeight(macros, l, rest[0]);
    }
  }

  lemma {:induction false} WeightBounded(macros: map<string, Macro>, l: nat, ts: seq<PPToken>, bound: nat)
    requires forall i :: 0 <= i < |ts| ==> TokenWeight(macros, l, ts[i]) <= bound
    ensures Weight(macros, l, ts) <= |ts| * bound
    decreases ts
  {
    if ts != [] {
      WeightBounded(macros, l, ts[1..], bound);
      assert |ts| * bound == bound + (|ts| - 1) * bound;
    }
  }

  lemma {:induction false} ReplacedWeight(macros: map<string, Macro>, l: nat, t: PPToken, u: PPToken)
    requires Expandable(macros, t) && u.hidden == t.hidden + {t.text}
    ensures |macros.Keys - t.hidden| > 0 && TokenWeight(macros, l, u) <= Reach(l, |macros.Keys - t.hidden| - 1)
  {
    var left := macros.Keys - t.hidden;
    assert t.text in left;
    assert macros.Keys - u.hidden == left - {t.text};
  }

  lemma {:induction false} Scaled(a: nat, b: nat, w: nat)
    requires a <= b
    ensures a * w <= b * w
  {
    assert (b - a) * w >= 0;
  }

  /** Expanding a token makes the pending tokens lighter. */
  lemma {:induction false} BodyIsLighter(h: Host, macros: map<string, Macro>, l: nat, t: PPToken)
    requires HostOk(h) && TableOk(macros) && LengthsWithin(macros, l) && Expandable(macros, t)
    requires Body(h, macros, t).Some?
    ensures Weight(macros, l, Body(h, macros, t).value) < TokenWeight(macros, l, t)
  {
    hide Body, HostOk, MacroOk, TokenWeight;
    var b, k := Body(h, macros, t).value, |macros.Keys - t.hidden|;
    BodyHides(h, macros, t);
    ReplacedWeight(macros, l, t, t.(hidden := t.hidden + {t.text}));
    forall i | 0 <= i < |b| ensures TokenWeight(macros, l, b[i]) <= Reach(l,
        k - 1) { ReplacedWeight(macros, l, t, b[i]); }
    WeightBounded(macros, l, b, Reach(l, k - 1));
    Scaled(|b|, l, Reach(l, k - 1));
    ExpandableWeight(macros, l, t);
  }

  lemma {:induction false} ExpandableWeight(macros: map<string, Macro>, l: nat, t: PPToken)
    requires Expandable(macros, t) && |macros.Keys - t.hidden| > 0
    ensures TokenWeight(macros, l, t) == 1 + l * Reach(l, |macros.Keys - t.hidden| - 1)
  {
  }

  // ----- expansion without limits -----

  /** The scan with all three numeric limits removed, for object-like macros. That this is a function is the termination
      theorem: the weight of what is pending goes down each turn. */
  ghost function FreeScan(h: Host, macros: map<string, Macro>, l: nat, pending: seq<PPToken>,
                          output: seq<PPToken>): Option<seq<PPToken>>
    requires HostOk(h) && TableOk(macros) && ObjectLike(macros) && LengthsWithin(macros, l)
    decreases Weight(macros, l, pending)
  {
    if pending == [] then Some(output)
    else
      var t, rest := pending[0], pending[1..];
      if t.kind == IdentifierKind && t.text !in t.hidden && h.isPredefined(t.text) then
        FreeScan(h, macros, l, rest, output + [BuiltinToken(h, t)])
      else if !Expandable(macros, t) then FreeScan(h, macros, l, rest, output + [t])
      else
        match Body(h, macros, t)
        case None => None
        case Some(b) =>
          BodyIsLighter(h, macros, l, t);
          WeightPushBack(macros, l, b, t.space, rest);
          FreeScan(h, macros, l, PushBack(b, t.space, rest), output)
  }

  /** Hide sets name only macros that exist. */
  predicate HidesWithin(macros: map<string, Macro>, ts: seq<PPToken>) {
    forall i :: 0 <= i < |ts| ==> ts[i].hidden <= macros.Keys
  }

  lemma {:induction false} HiddenAreFewer(macros: map<string, Macro>, t: PPToken)
    requires Expandable(macros, t) && t.hidden <= macros.Keys
    ensures |t.hidden| < |macros.Keys|
  {
    Fewer(t.hidden, macros.Keys, t.text);
  }

  lemma {:induction false} Fewer(a: set<string>, b: set<string>, x: string)
    requires a <= b && x in b && x !in a
    ensures |a| < |b|
    decreases |a|
  {
    if a != {} {
      var y :| y in a;
      Fewer(a - {y}, b - {y}, x);
    }
  }

  lemma {:induction false} ObjectStep(h: Host, macros: map<string, Macro>, pending: seq<PPToken>, depth: nat, n: nat)
    requires HostOk(h) && TableOk(macros) && ObjectLike(macros) && n < EXPANSION_LIMIT && depth < DEPTH_LIMIT
    requires pending != [] && Expandable(macros, pending[0]) && !h.isPredefined(pending[0].text)
    requires |pending[0].hidden| < HIDE_LIMIT
    ensures Step(h, macros, pending, depth, n)
         == match Body(h, macros, pending[0])
            case None => Stopped(BadPaste)
            case Some(b) => Replaced(PushBack(b, pending[0].space, pending[1..]), n + 1)
  {
    hide Finish, PushBack, PasteAll, Substitute;
    var t, m := pending[0], macros[pending[0].text];
    ObjectSubstitute(h, macros, m, 0, depth, n + 1);
    ObjectPasteable(m);
    assert Unexpanded(0) == [];
    assert Step(h, macros, pending, depth, n) == Replace(h, macros, t, m, [], t.hidden, pending[1..], depth, n + 1);
  }

  ghost predicate SameAsFree(free: Option<seq<PPToken>>, r: Outcome) {
    match free
    case None => r == Failed(BadPaste)
    case Some(tokens) => r.Expanded? && r.tokens == tokens
  }

  lemma {:induction false} HidesPushBack(macros: map<string, Macro>, b: seq<PPToken>, space: bool, rest: seq<PPToken>)
    requires HidesWithin(macros, b) && HidesWithin(macros, rest)
    ensures HidesWithin(macros, PushBack(b, space, rest))
  {
    var next := PushBack(b, space, rest);
    forall i | 0 <= i < |next| ensures next[i].hidden <= macros.Keys {
      if i < |b| {
        assert next[i].hidden == b[i].hidden;
      } else {
        assert next[i].hidden == rest[i - |b|].hidden;
      }
    }
  }

  /** How the limited scan compares with the unlimited one. */
  ghost predicate Compared(free: Option<seq<PPToken>>, r: Outcome, n: nat, weight: nat) {
    && (SameAsFree(free, r) || (r == Failed(ExpansionLimit) && n + weight > EXPANSION_LIMIT))
    && (r.Expanded? ==> r.expansions <= n + weight)
  }

  /** With at most 128 macros the limit on hide sets cannot be what stops a scan, and the limit on expansions stops one
      only if the weight of its input exceeds what was left of it. Otherwise the scan is the one without limits. */
  lemma {:induction false} ScanIsFree(h: Host, macros: map<string, Macro>, l: nat, pending: seq<PPToken>,
                                      output: seq<PPToken>, depth: nat, n: nat)
    requires HostOk(h) && TableOk(macros) && ObjectLike(macros) && LengthsWithin(macros, l)
    requires |macros.Keys| <= HIDE_LIMIT
    requires n <= EXPANSION_LIMIT && depth < DEPTH_LIMIT && HidesWithin(macros, pending)
    ensures Compared(FreeScan(h, macros, l, pending, output), Scan(h, macros, pending, output, depth, n), n,
                     Weight(macros, l, pending))
    decreases Weight(macros, l, pending), 1
  {
    hide Body, TokenWeight, HostOk, MacroOk, PushBack, Replace;
    if pending != [] {
      var t, rest := pending[0], pending[1..];
      if !Expandable(macros, t) || h.isPredefined(t.text) {
        var r := Step(h, macros, pending, depth, n);
        if r.Emitted? { ScanIsFree(h, macros, l, rest, output + [r.token], depth, r.expansions); }
      } else {
        ExpandedIsFree(h, macros, l, pending, output, depth, n);
      }
    }
  }

  lemma {:induction false} ExpandedIsFree(h: Host, macros: map<string, Macro>, l: nat, pending: seq<PPToken>,
                                          output: seq<PPToken>, depth: nat, n: nat)
    requires HostOk(h) && TableOk(macros) && ObjectLike(macros) && LengthsWithin(macros, l)
    requires |macros.Keys| <= HIDE_LIMIT
    requires n <= EXPANSION_LIMIT && depth < DEPTH_LIMIT && HidesWithin(macros, pending)
    requires pending != [] && Expandable(macros, pending[0]) && !h.isPredefined(pending[0].text)
    ensures Compared(FreeScan(h, macros, l, pending, output), Scan(h, macros, pending, output, depth, n), n,
                     Weight(macros, l, pending))
    decreases Weight(macros, l, pending), 0
  {
    hide Body, TokenWeight, HostOk, MacroOk, PushBack, Replace, Step;
    var t, rest := pending[0], pending[1..];
    HiddenAreFewer(macros, t);
    if n == EXPANSION_LIMIT {
      AtLimit(h, macros, pending, depth, n);
    } else {
      ObjectStep(h, macros, pending, depth, n);
      if Body(h, macros, t).Some? {
        var b := Body(h, macros, t).value;
        BodyHides(h, macros, t);
        BodyIsLighter(h, macros, l, t);
        WeightPushBack(macros, l, b, t.space, rest);
        HidesPushBack(macros, b, t.space, rest);
        ScanIsFree(h, macros, l, PushBack(b, t.space, rest), output, depth, n + 1);
      }
    }
  }

  lemma {:induction false} AtLimit(h: Host, macros: map<string, Macro>, pending: seq<PPToken>, depth: nat, n: nat)
    requires TableOk(macros) && n == EXPANSION_LIMIT && depth < DEPTH_LIMIT && ObjectLike(macros)
    requires pending != [] && Expandable(macros, pending[0]) && !h.isPredefined(pending[0].text)
    ensures Step(h, macros, pending, depth, n) == Stopped(ExpansionLimit)
  {
  }

  /** Object-like expansion needs no limits: within the budget of expansions it is the unlimited expansion. */
  lemma {:induction false} ExpansionIsFree(h: Host, macros: map<string, Macro>, l: nat, input: seq<PPToken>, n: nat)
    requires HostOk(h) && TableOk(macros) && ObjectLike(macros) && LengthsWithin(macros, l)
    requires |macros.Keys| <= HIDE_LIMIT
    requires HidesWithin(macros, input) && n + Weight(macros, l, input) <= EXPANSION_LIMIT
    ensures SameAsFree(FreeScan(h, macros, l, input, []), Expand(h, macros, input, 0, n))
  {
    ScanIsFree(h, macros, l, input, [], 0, n);
  }
}
