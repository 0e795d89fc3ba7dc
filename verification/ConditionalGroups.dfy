/** Conditional inclusion as C defines it, by recursion on the nesting of groups, and the proof that the preprocessor's
    stack of conditionals computes the same. */
module ConditionalGroups {
  import opened PPTokens
  import opened Directives

  type TokenLine = seq<PPToken>

  /** Lines grouped by the conditionals they belong to. */
  datatype Item =
    | Text(line: TokenLine)
    | Control(line: TokenLine)
    | Section(opener: TokenLine, body: seq<Item>, branches: seq<Branch>, ender: TokenLine)
  datatype Branch = Branch(opener: TokenLine, body: seq<Item>)

  function Flatten(items: seq<Item>): seq<TokenLine>
    decreases items
  {
    if items == [] then [] else FlattenItem(items[0]) + Flatten(items[1..])
  }

  function FlattenItem(item: Item): seq<TokenLine>
    decreases item
  {
    match item
    case Text(line) => [line]
    case Control(line) => [line]
    case Section(opener, body, branches, ender) => [opener] + Flatten(body) + FlattenBranches(branches) + [ender]
  }

  function FlattenBranches(branches: seq<Branch>): seq<TokenLine>
    decreases branches
  {
    if branches == [] then []
    else [branches[0].opener] + Flatten(branches[0].body) + FlattenBranches(branches[1..])
  }

  predicate IsDirective(line: TokenLine, name: string) {
    LineOk(line) && !IsText(line) && |line| > 1 && DirectiveOf(line) == name
  }

  predicate IsOpener(line: TokenLine) {
    LineOk(line) && !IsText(line) && |line| > 1 && Opens(DirectiveOf(line))
  }

  predicate IsControl(line: TokenLine) {
    && LineOk(line) && !IsText(line)
    && (|line| > 1 ==>
          && !Opens(DirectiveOf(line))
          && DirectiveOf(line) != "elif" && DirectiveOf(line) != "else" && DirectiveOf(line) != "endif")
  }

  /** A group: properly nested, with any number of #elif branches and at most one #else, which comes last. */
  predicate GroupOk(items: seq<Item>)
    decreases items
  {
    items == [] || (ItemOk(items[0]) && GroupOk(items[1..]))
  }

  predicate ItemOk(item: Item)
    decreases item
  {
    match item
    case Text(line) => LineOk(line) && IsText(line)
    case Control(line) => IsControl(line)
    case Section(opener, body, branches, ender) =>
      && IsOpener(opener) && GroupOk(body) && BranchesOk(branches)
      && IsDirective(ender, "endif") && ArgsOf(ender) == []
  }

  predicate BranchesOk(branches: seq<Branch>)
    decreases branches
  {
    branches == [] ||
    (&& (if IsDirective(branches[0].opener, "else") then ArgsOf(branches[0].opener) == [] && |branches| == 1
         else IsDirective(branches[0].opener, "elif"))
     && GroupOk(branches[0].body)
     && BranchesOk(branches[1..]))
  }

  // ----- what groups mean -----

  /** A group that is processed, or one that is skipped. */
  function EvalGroup(w: World, items: seq<Item>, active: bool, s: Pre): (r: Result)
    requires s.Valid() && WorldOk(w) && GroupOk(items)
    ensures r.Ok? ==> r.state.Valid()
    decreases items
  {
    if items == [] then Ok(s)
    else
      match EvalItem(w, items[0], active, s)
      case Fails(p) => Fails(p)
      case Ok(s1) => EvalGroup(w, items[1..], active, s1)
  }

  function EvalItem(w: World, item: Item, active: bool, s: Pre): (r: Result)
    requires s.Valid() && WorldOk(w) && ItemOk(item)
    ensures r.Ok? ==> r.state.Valid()
    decreases item
  {
    match item
    case Text(line) => Ok(AddText(line, active, s))
    case Control(line) =>
      (match Flush(w, s)
       case Fails(p) => Fails(p)
       case Ok(s1) =>
         if |line| == 1 || !active then Ok(s1)
         else
           ArgsOk(line);
           Simple(w, DirectiveOf(line), ArgsOf(line), s1))
    case Section(opener, body, branches, _) =>
      (match Flush(w, s)
       case Fails(p) => Fails(p)
       case Ok(s1) =>
         match OpenerChoice(w, DirectiveOf(opener), ArgsOf(opener), active, s1)
         case Undecided(p) => Fails(p)
         case Chosen(selected, s2) =>
           match EvalGroup(w, body, active && selected, s2)
           case Fails(p) => Fails(p)
           case Ok(s3) => EvalBranches(w, branches, active, active && selected, s3))
  }

  /** Whether a branch's group is the one to process: that of #else always, that of #elif if its condition holds. The
      condition is looked at only when it is wanted. */
  function BranchChoice(w: World, opener: TokenLine, wanted: bool, s: Pre): (c: Choice)
    requires s.Valid()
    ensures c.Chosen? ==> c.state.Valid()
  {
    if IsDirective(opener, "else") then Chosen(true, s)
    else if wanted then Condition(w, ArgsOf(opener), s)
    else Chosen(false, s)
  }

  /** The rest of a section. taken says whether one of its groups has been processed already: no other will be, and no
      other condition is looked at. */
  function EvalBranches(w: World, branches: seq<Branch>, active: bool, taken: bool, s: Pre): (r: Result)
    requires s.Valid() && WorldOk(w) && BranchesOk(branches)
    ensures r.Ok? ==> r.state.Valid()
    decreases branches
  {
    match Flush(w, s)
    case Fails(p) => Fails(p)
    case Ok(s1) =>
      if branches == [] then Ok(s1)
      else
        match BranchChoice(w, branches[0].opener, active && !taken, s1)
        case Undecided(p) => Fails(p)
        case Chosen(selected, s2) =>
          var chosen := active && !taken && selected;
          match EvalGroup(w, branches[0].body, chosen, s2)
          case Fails(p) => Fails(p)
          case Ok(s3) => EvalBranches(w, branches[1..], active, taken || chosen, s3)
  }

  // ----- the machine computes it -----

  /** What remains once a group has been dealt with. */
  ghost function Then(w: World, r: Result, rest: seq<TokenLine>, stack: seq<Frame>): Result
    requires WorldOk(w) && LinesOk(rest) && (r.Ok? ==> r.state.Valid())
  {
    match r
    case Fails(p) => Fails(p)
    case Ok(s) => Process(w, rest, stack, s)
  }

  ghost function GoOn(w: World, t: Turn, rest: seq<TokenLine>): Result
    requires WorldOk(w) && LinesOk(rest) && (t.Turned? ==> t.state.Valid())
  {
    match t
    case Halts(p) => Fails(p)
    case Turned(stack, s) => Process(w, rest, stack, s)
  }

  lemma {:induction false} FlattenOk(items: seq<Item>)
    requires GroupOk(items)
    ensures LinesOk(Flatten(items))
    decreases items
  {
    if items != [] {
      FlattenItemOk(items[0]);
      FlattenOk(items[1..]);
    }
  }

  lemma {:induction false} FlattenItemOk(item: Item)
    requires ItemOk(item)
    ensures LinesOk(FlattenItem(item))
    decreases item
  {
    if item.Section? {
      FlattenOk(item.body);
      FlattenBranchesOk(item.branches);
    }
  }

  lemma {:induction false} FlattenBranchesOk(branches: seq<Branch>)
    requires BranchesOk(branches)
    ensures LinesOk(FlattenBranches(branches))
    decreases branches
  {
    if branches != [] {
      FlattenOk(branches[0].body);
      FlattenBranchesOk(branches[1..]);
    }
  }

  lemma {:induction false} ProcessLine(w: World, line: TokenLine, rest: seq<TokenLine>, stack: seq<Frame>, s: Pre)
    requires s.Valid() && WorldOk(w) && LineOk(line) && LinesOk(rest)
    ensures LinesOk([line] + rest)
    ensures Process(w, [line] + rest, stack, s) == GoOn(w, Line(w, line, stack, s), rest)
  {
    hide Line;
    assert ([line] + rest)[0] == line && ([line] + rest)[1..] == rest;
  }

  lemma {:induction false} GroupRuns(w: World, items: seq<Item>, rest: seq<TokenLine>, stack: seq<Frame>, s: Pre)
    requires s.Valid() && WorldOk(w) && GroupOk(items) && LinesOk(rest) && StackOk(stack)
    requires LinesOk(Flatten(items) + rest)
    ensures Process(w, Flatten(items) + rest, stack, s) == Then(w, EvalGroup(w, items, Active(stack), s), rest, stack)
    decreases items
  {
    if items == [] {
      assert Flatten(items) + rest == rest;
    } else {
      FlattenOk(items[1..]);
      var after := Flatten(items[1..]) + rest;
      assert Flatten(items) + rest == FlattenItem(items[0]) + after;
      ItemRuns(w, items[0], after, stack, s);
      var r := EvalItem(w, items[0], Active(stack), s);
      if r.Ok? { GroupRuns(w, items[1..], rest, stack, r.state); }
    }
  }

  lemma {:induction false} ItemRuns(w: World, item: Item, rest: seq<TokenLine>, stack: seq<Frame>, s: Pre)
    requires s.Valid() && WorldOk(w) && ItemOk(item) && LinesOk(rest) && StackOk(stack)
    requires LinesOk(FlattenItem(item) + rest)
    ensures Process(w, FlattenItem(item) + rest, stack, s) == Then(w, EvalItem(w, item, Active(stack), s), rest, stack)
    decreases item
  {
    match item
    case Text(line) => ProcessLine(w, line, rest, stack, s);
    case Control(line) => ProcessLine(w, line, rest, stack, s);
    case Section(opener, body, branches, ender) => SectionRuns(w, item, rest, stack, s);
  }

  /** What an opening line does to the machine. */
  function Opened(w: World, opener: TokenLine, stack: seq<Frame>, s: Pre): Turn
    requires s.Valid() && IsOpener(opener)
  {
    match Flush(w, s)
    case Fails(p) => Halts(p)
    case Ok(s1) =>
      match OpenerChoice(w, DirectiveOf(opener), ArgsOf(opener), Active(stack), s1)
      case Undecided(p) => Halts(p)
      case Chosen(selected, s2) =>
        var active := Active(stack) && selected;
        Turned(stack + [Frame(Active(stack), active, active, false)], s2)
  }

  lemma {:induction false} OpenerLine(w: World, opener: TokenLine, stack: seq<Frame>, s: Pre)
    requires s.Valid() && WorldOk(w) && IsOpener(opener)
    ensures Line(w, opener, stack, s) == Opened(w, opener, stack, s)
  {
    hide Flush, OpenerChoice;
  }

  lemma {:induction false} SectionRuns(w: World, item: Item, rest: seq<TokenLine>, stack: seq<Frame>, s: Pre)
    requires s.Valid() && WorldOk(w) && ItemOk(item) && item.Section? && LinesOk(rest) && StackOk(stack)
    requires LinesOk(FlattenItem(item) + rest)
    ensures Process(w, FlattenItem(item) + rest, stack, s) == Then(w, EvalItem(w, item, Active(stack), s), rest, stack)
    decreases item, 0
  {
    hide Flush, OpenerChoice, Line, Process, LineOk, StackOk, EvalGroup, EvalBranches, Flatten, FlattenBranches;
    FlattenOk(item.body);
    FlattenBranchesOk(item.branches);
    var tail := FlattenBranches(item.branches) + ([item.ender] + rest);
    var lines := Flatten(item.body) + tail;
    assert FlattenItem(item) + rest == [item.opener] + lines;
    ProcessLine(w, item.opener, lines, stack, s);
    OpenerLine(w, item.opener, stack, s);
    var t := Opened(w, item.opener, stack, s);
    if t.Turned? {
      LineKeepsStack(w, item.opener, stack, s);
      var f := t.stack[|stack|];
      GroupRuns(w, item.body, tail, t.stack, t.state);
      var r := EvalGroup(w, item.body, f.active, t.state);
      if r.Ok? { BranchesRun(w, item.branches, item.ender, rest, stack, f, r.state); }
    }
  }

  /** What the line that opens a branch does, to the frame on top and to the rest of the machine. */
  function Branched(w: World, opener: TokenLine, stack: seq<Frame>, f: Frame, s: Pre): Turn
    requires s.Valid()
  {
    match Flush(w, s)
    case Fails(p) => Halts(p)
    case Ok(s1) =>
      var last := IsDirective(opener, "else");
      match BranchChoice(w, opener, f.parentActive && !f.taken, s1)
      case Undecided(p) => Halts(p)
      case Chosen(selected, s2) =>
        var chosen := f.parentActive && !f.taken && selected;
        Turned(stack + [Frame(f.parentActive, chosen, if last then true else f.taken || chosen, last)], s2)
  }

  lemma {:induction false} BranchLine(w: World, opener: TokenLine, stack: seq<Frame>, f: Frame, s: Pre)
    requires s.Valid() && WorldOk(w) && !f.seenElse
    requires IsDirective(opener, "elif") || (IsDirective(opener, "else") && ArgsOf(opener) == [])
    ensures Line(w, opener, stack + [f], s) == Branched(w, opener, stack, f, s)
  {
    hide Flush, Condition, LineOk;
    forall g: Frame ensures Top(stack + [f], g) == stack + [g] { }
  }

  lemma {:induction false} EnderLine(w: World, ender: TokenLine, rest: seq<TokenLine>, stack: seq<Frame>, f: Frame,
                                     s: Pre)
    requires s.Valid() && WorldOk(w) && IsDirective(ender, "endif") && ArgsOf(ender) == [] && LinesOk(rest)
    ensures LinesOk([ender] + rest)
    ensures Process(w, [ender] + rest, stack + [f], s) == Then(w, Flush(w, s), rest, stack)
  {
    hide Flush;
    ProcessLine(w, ender, rest, stack + [f], s);
    assert (stack + [f])[..|stack|] == stack;
  }

  lemma {:induction false} BranchesRun(w: World, branches: seq<Branch>, ender: TokenLine, rest: seq<TokenLine>,
                                       stack: seq<Frame>, f: Frame, s: Pre)
    requires s.Valid() && WorldOk(w) && BranchesOk(branches) && LinesOk(rest) && StackOk(stack + [f])
    requires IsDirective(ender, "endif") && ArgsOf(ender) == [] && f.parentActive == Active(stack)
    requires f.seenElse ==> branches == []
    requires LinesOk(FlattenBranches(branches) + ([ender] + rest))
    ensures Process(w, FlattenBranches(branches) + ([ender] + rest), stack + [f], s)
         == Then(w, EvalBranches(w, branches, Active(stack), f.taken, s), rest, stack)
    decreases branches, 1
  {
    hide Flush, Condition, Line, Process, LineOk, StackOk, EvalGroup, Flatten;
    if branches == [] {
      assert FlattenBranches(branches) + ([ender] + rest) == [ender] + rest;
      EnderLine(w, ender, rest, stack, f, s);
    } else {
      BranchRuns(w, branches, ender, rest, stack, f, s);
    }
  }

  lemma {:induction false} BranchParts(branches: seq<Branch>)
    requires branches != [] && BranchesOk(branches)
    ensures var b := branches[0];
            && LineOk(b.opener) && GroupOk(b.body) && BranchesOk(branches[1..])
            && (IsDirective(b.opener, "elif") || (IsDirective(b.opener, "else") && ArgsOf(b.opener) == []))
            && (IsDirective(b.opener, "else") ==> branches[1..] == [])
  {
  }

  lemma {:induction false} BranchLines(branches: seq<Branch>, rest: seq<TokenLine>)
    requires branches != [] && LinesOk(FlattenBranches(branches) + rest)
    ensures var tail := FlattenBranches(branches[1..]) + rest;
            && FlattenBranches(branches) + rest == [branches[0].opener] + (Flatten(branches[0].body) + tail)
            && LinesOk(tail) && LinesOk(Flatten(branches[0].body) + tail)
  {
    hide LineOk, Flatten;
    var tail := FlattenBranches(branches[1..]) + rest;
    var lines := Flatten(branches[0].body) + tail;
    var all := FlattenBranches(branches) + rest;
    assert all == [branches[0].opener] + lines;
    assert lines == all[1..] && tail == lines[|Flatten(branches[0].body)|..];
  }

  /** A branch whose opening line has been read. */
  function AfterBranch(w: World, branches: seq<Branch>, t: Turn): Result
    requires WorldOk(w) && branches != [] && BranchesOk(branches)
    requires t.Turned? ==> t.state.Valid() && t.stack != []
  {
    match t
    case Halts(p) => Fails(p)
    case Turned(stack, s) =>
      var f := stack[|stack| - 1];
      match EvalGroup(w, branches[0].body, f.active, s)
      case Fails(p) => Fails(p)
      case Ok(s1) => EvalBranches(w, branches[1..], f.parentActive, f.taken, s1)
  }

  lemma {:induction false} EvalBranch(w: World, branches: seq<Branch>, stack: seq<Frame>, f: Frame, s: Pre)
    requires s.Valid() && WorldOk(w) && branches != [] && BranchesOk(branches)
    ensures EvalBranches(w, branches, f.parentActive, f.taken, s)
         == AfterBranch(w, branches, Branched(w, branches[0].opener, stack, f, s))
  {
    hide Flush, BranchChoice, EvalGroup;
    BranchParts(branches);
  }

  lemma {:induction false} BranchOpens(w: World, branches: seq<Branch>, rest: seq<TokenLine>, stack: seq<Frame>,
                                       f: Frame, s: Pre)
    requires s.Valid() && WorldOk(w) && branches != [] && BranchesOk(branches) && !f.seenElse
    requires LinesOk(FlattenBranches(branches) + rest)
    ensures LinesOk(FlattenBranches(branches[1..]) + rest)
    ensures LinesOk(Flatten(branches[0].body) + (FlattenBranches(branches[1..]) + rest))
    ensures Process(w, FlattenBranches(branches) + rest, stack + [f], s)
         == GoOn(w, Branched(w, branches[0].opener, stack, f, s),
                 Flatten(branches[0].body) + (FlattenBranches(branches[1..]) + rest))
  {
    BranchParts(branches);
    hide Flush, BranchChoice, Line, Process, LineOk, LinesOk, Flatten, FlattenBranches;
    BranchLines(branches, rest);
    ProcessLine(w, branches[0].opener, Flatten(branches[0].body) + (FlattenBranches(branches[1..]) + rest),
                stack + [f], s);
    BranchLine(w, branches[0].opener, stack, f, s);
  }

  lemma {:induction false} BranchRuns(w: World, branches: seq<Branch>, ender: TokenLine, rest: seq<TokenLine>,
                                      stack: seq<Frame>, f: Frame, s: Pre)
    requires s.Valid() && WorldOk(w) && branches != [] && BranchesOk(branches) && LinesOk(rest) && StackOk(stack + [f])
    requires IsDirective(ender, "endif") && ArgsOf(ender) == [] && f.parentActive == Active(stack) && !f.seenElse
    requires LinesOk(FlattenBranches(branches) + ([ender] + rest))
    ensures Process(w, FlattenBranches(branches) + ([ender] + rest), stack + [f], s)
         == Then(w, EvalBranches(w, branches, Active(stack), f.taken, s), rest, stack)
    decreases branches, 0
  {
    BranchParts(branches);
    hide Flush, BranchChoice, Line, Process, LineOk, LinesOk, StackOk, EvalGroup, GroupOk, BranchesOk, Flatten,
      FlattenBranches;
    hide IsDirective, ArgsOf, EvalBranches;
    var b := branches[0];
    BranchOpens(w, branches, [ender] + rest, stack, f, s);
    EvalBranch(w, branches, stack, f, s);
    BranchLine(w, b.opener, stack, f, s);
    var tail := FlattenBranches(branches[1..]) + ([ender] + rest);
    var t := Branched(w, b.opener, stack, f, s);
    if t.Turned? {
      LineKeepsStack(w, b.opener, stack + [f], s);
      var f' := t.stack[|stack|];
      GroupRuns(w, b.body, tail, t.stack, t.state);
      var r := EvalGroup(w, b.body, f'.active, t.state);
      if r.Ok? { BranchesRun(w, branches[1..], ender, rest, stack, f', r.state); }
    }
  }

  // ----- accepted input has group structure -----

  predicate ClosesOrContinues(line: TokenLine) {
    LineOk(line) && !IsText(line) && |line| > 1 && DirectiveOf(line) in {"elif", "else", "endif"}
  }

  /** Lines that split into a group and whatever ends it: nothing at the outermost level, and otherwise the next branch
      or the end of the section. */
  ghost predicate Grouped(lines: seq<TokenLine>, items: seq<Item>, rest: seq<TokenLine>, depth: nat) {
    && GroupOk(items) && lines == Flatten(items) + rest && LinesOk(rest)
    && if depth == 0 then rest == [] else rest != [] && ClosesOrContinues(rest[0])
  }

  lemma {:induction false} Consed(item: Item, items: seq<Item>, lines: seq<TokenLine>, tail: seq<TokenLine>,
                                  rest: seq<TokenLine>, depth: nat)
    requires ItemOk(item) && lines == FlattenItem(item) + tail && Grouped(tail, items, rest, depth)
    ensures Grouped(lines, [item] + items, rest, depth)
  {
    hide ItemOk, LinesOk, FlattenItem, ClosesOrContinues;
    assert ([item] + items)[1..] == items;
    assert Flatten([item] + items) + rest == FlattenItem(item) + (Flatten(items) + rest);
  }

  /** Whatever the machine accepts is properly nested. */
  lemma {:induction false} AcceptedIsGrouped(w: World, lines: seq<TokenLine>, stack: seq<Frame>, s: Pre)
    returns (items: seq<Item>, rest: seq<TokenLine>, stack': seq<Frame>, s': Pre)
    requires s.Valid() && WorldOk(w) && LinesOk(lines) && StackOk(stack) && Process(w, lines, stack, s).Ok?
    ensures Grouped(lines, items, rest, |stack|)
    ensures s'.Valid() && stack' == stack && Process(w, rest, stack', s').Ok?
    decreases |lines|, 2
  {
    hide Flush, Line, Process, StackOk, LineOk;
    if lines == [] {
      EmptyAccepted(w, stack, s);
      items, rest, stack', s' := [], [], stack, s;
    } else {
      var line, tail := lines[0], lines[1..];
      assert lines == [line] + tail;
      if ClosesOrContinues(line) && stack != [] {
        items, rest, stack', s' := [], lines, stack, s;
        assert Flatten([]) + lines == lines;
      } else {
        items, rest, stack', s' := AcceptedLine(w, line, tail, stack, s);
      }
    }
  }

  lemma {:induction false} EmptyAccepted(w: World, stack: seq<Frame>, s: Pre)
    requires s.Valid() && WorldOk(w) && Process(w, [], stack, s).Ok?
    ensures stack == []
  {
    hide Flush;
  }

  /** How a line that does not end its group leaves the machine's stack. */
  lemma {:induction false} LineStack(w: World, line: TokenLine, stack: seq<Frame>, s: Pre)
    requires s.Valid() && WorldOk(w) && LineOk(line) && Line(w, line, stack, s).Turned?
    ensures IsText(line) || IsControl(line) ==> Line(w, line, stack, s).stack == stack
    ensures IsOpener(line) ==> exists f :: Line(w, line, stack, s).stack == stack + [f] && !f.seenElse
    ensures ClosesOrContinues(line) ==> stack != []
    ensures IsDirective(line, "endif") ==> ArgsOf(line) == [] && Line(w, line, stack, s).stack == stack[..|stack| - 1]
    ensures ClosesOrContinues(line) && !IsDirective(line, "endif") ==>
              && !stack[|stack| - 1].seenElse && (IsDirective(line, "else") ==> ArgsOf(line) == [])
              && exists f ::
                   && Line(w, line, stack, s).stack == stack[..|stack| - 1] + [f]
                   && f.seenElse == IsDirective(line, "else")
  {
    hide Flush, OpenerChoice, Condition, Simple;
    if IsOpener(line) {
      var t := Line(w, line, stack, s);
      assert t.stack == stack + [t.stack[|stack|]];
    }
    if ClosesOrContinues(line) && !IsDirective(line, "endif") {
      var t := Line(w, line, stack, s);
      assert t.stack == stack[..|stack| - 1] + [t.stack[|stack| - 1]];
    }
  }

  function LineItem(line: TokenLine): Item
    requires LineOk(line)
  {
    if IsText(line) then Text(line) else Control(line)
  }

  lemma {:induction false} AcceptedLine(w: World, line: TokenLine, tail: seq<TokenLine>, stack: seq<Frame>, s: Pre)
    returns (items: seq<Item>, rest: seq<TokenLine>, stack': seq<Frame>, s': Pre)
    requires s.Valid() && WorldOk(w) && LineOk(line) && LinesOk(tail) && StackOk(stack)
    requires LinesOk([line] + tail) && Process(w, [line] + tail, stack, s).Ok?
    requires !(ClosesOrContinues(line) && stack != [])
    ensures Grouped([line] + tail, items, rest, |stack|)
    ensures s'.Valid() && stack' == stack && Process(w, rest, stack', s').Ok?
    decreases |tail|, 4
  {
    hide Flush, Line, Process, StackOk, LineOk, LinesOk, Flatten;
    ProcessLine(w, line, tail, stack, s);
    LineStack(w, line, stack, s);
    LineKeepsStack(w, line, stack, s);
    var t := Line(w, line, stack, s);
    if IsOpener(line) {
      var f :| t.stack == stack + [f] && !f.seenElse;
      var item, after, s1 := AcceptedSection(w, line, tail, stack, f, t.state);
      var more;
      more, rest, stack', s' := AcceptedIsGrouped(w, after, stack, s1);
      items := [item] + more;
      Consed(item, more, [line] + tail, after, rest, |stack|);
    } else {
      var more;
      more, rest, stack', s' := AcceptedIsGrouped(w, tail, stack, t.state);
      var item := LineItem(line);
      items := [item] + more;
      Consed(item, more, [line] + tail, tail, rest, |stack|);
    }
  }

  /** The section that an opening line begins. */
  lemma {:induction false} AcceptedSection(w: World, opener: TokenLine, tail: seq<TokenLine>, stack: seq<Frame>,
                                           f: Frame, s: Pre)
    returns (item: Item, after: seq<TokenLine>, s': Pre)
    requires s.Valid() && WorldOk(w) && IsOpener(opener) && LinesOk(tail) && StackOk(stack + [f]) && !f.seenElse
    requires Process(w, tail, stack + [f], s).Ok?
    ensures ItemOk(item) && [opener] + tail == FlattenItem(item) + after && LinesOk(after) && |after| < |tail|
    ensures s'.Valid() && StackOk(stack) && Process(w, after, stack, s').Ok?
    decreases |tail|, 3
  {
    hide Flush, Line, Process, StackOk, LineOk, LinesOk, Flatten;
    var body, rest, stack1, s1 := AcceptedIsGrouped(w, tail, stack + [f], s);
    var branches, ender;
    branches, ender, after, s' := AcceptedBranches(w, rest, stack, f, s1);
    item := Section(opener, body, branches, ender);
    SectionLines(opener, body, branches, ender, tail, rest, after);
  }

  lemma {:induction false} SectionLines(opener: TokenLine, body: seq<Item>, branches: seq<Branch>, ender: TokenLine,
                                        tail: seq<TokenLine>, rest: seq<TokenLine>, after: seq<TokenLine>)
    requires tail == Flatten(body) + rest && rest == FlattenBranches(branches) + [ender] + after
    ensures [opener] + tail == FlattenItem(Section(opener, body, branches, ender)) + after
  {
    hide Flatten, FlattenBranches;
  }

  /** The branches of a section, up to its #endif. */
  lemma {:induction false} AcceptedBranches(w: World, lines: seq<TokenLine>, stack: seq<Frame>, f: Frame, s: Pre)
    returns (branches: seq<Branch>, ender: TokenLine, after: seq<TokenLine>, s': Pre)
    requires s.Valid() && WorldOk(w) && LinesOk(lines) && StackOk(stack + [f]) && Process(w, lines, stack + [f], s).Ok?
    requires lines != [] && ClosesOrContinues(lines[0])
    ensures BranchesOk(branches) && (f.seenElse ==> branches == []) && IsDirective(ender, "endif") &&
            ArgsOf(ender) == []
    ensures lines == FlattenBranches(branches) + [ender] + after && LinesOk(after) && |after| < |lines|
    ensures s'.Valid() && StackOk(stack) && Process(w, after, stack, s').Ok?
    decreases |lines|, 1
  {
    hide Flush, Line, Process, StackOk, LineOk, LinesOk, Flatten, FlattenBranches, BranchesOk, GroupOk,
      ClosesOrContinues, IsDirective, ArgsOf;
    var line, tail := lines[0], lines[1..];
    assert lines == [line] + tail && LineOk(line) && LinesOk(tail) by { TailOk(lines); }
    ProcessLine(w, line, tail, stack + [f], s);
    LineStack(w, line, stack + [f], s);
    LineKeepsStack(w, line, stack + [f], s);
    assert (stack + [f])[..|stack|] == stack && (stack + [f])[|stack|] == f;
    var t := Line(w, line, stack + [f], s);
    if IsDirective(line, "endif") {
      branches, ender, after, s' := [], line, tail, t.state;
      NoBranches(line, tail);
    } else {
      var f' :| t.stack == stack + [f'] && f'.seenElse == IsDirective(line, "else");
      var body, rest, stack1, s1 := AcceptedIsGrouped(w, tail, stack + [f'], t.state);
      var more;
      more, ender, after, s' := AcceptedBranches(w, rest, stack, f', s1);
      branches := [Branch(line, body)] + more;
      FirstBranchLines(line, body, more, ender, tail, rest, after);
      BranchJoins(line, body, more);
    }
  }

  lemma {:induction false} NoBranches(line: TokenLine, tail: seq<TokenLine>)
    ensures BranchesOk([]) && [line] + tail == FlattenBranches([]) + [line] + tail
  {
  }

  lemma {:induction false} FirstBranchLines(line: TokenLine, body: seq<Item>, more: seq<Branch>, ender: TokenLine,
                                            tail: seq<TokenLine>, rest: seq<TokenLine>, after: seq<TokenLine>)
    requires tail == Flatten(body) + rest && rest == FlattenBranches(more) + [ender] + after
    ensures [line] + tail == FlattenBranches([Branch(line, body)] + more) + [ender] + after
  {
    hide Flatten;
    assert ([Branch(line, body)] + more)[1..] == more;
  }

  lemma {:induction false} BranchJoins(line: TokenLine, body: seq<Item>, more: seq<Branch>)
    requires GroupOk(body) && BranchesOk(more) && ClosesOrContinues(line) && !IsDirective(line, "endif")
    requires IsDirective(line, "else") ==> ArgsOf(line) == [] && more == []
    ensures BranchesOk([Branch(line, body)] + more)
  {
    assert ([Branch(line, body)] + more)[1..] == more;
  }

  lemma {:induction false} TailOk(lines: seq<TokenLine>)
    requires lines != [] && LinesOk(lines)
    ensures LineOk(lines[0]) && LinesOk(lines[1..])
  {
  }

  /** The stack machine and the recursive definition agree: it accepts exactly the properly nested inputs whose groups
      evaluate, and leaves the same tokens, macros and problems. */
  lemma {:induction false} ProcessIsGroupEvaluation(w: World, items: seq<Item>, s: Pre)
    requires s.Valid() && WorldOk(w) && GroupOk(items)
    ensures LinesOk(Flatten(items))
    ensures Process(w, Flatten(items), [], s) == Then(w, EvalGroup(w, items, true, s), [], [])
  {
    FlattenOk(items);
    assert Flatten(items) + [] == Flatten(items);
    GroupRuns(w, items, [], [], s);
  }

  lemma {:induction false} OnlyGroupsAreAccepted(w: World, lines: seq<TokenLine>, s: Pre) returns (items: seq<Item>)
    requires s.Valid() && WorldOk(w) && LinesOk(lines) && Process(w, lines, [], s).Ok?
    ensures GroupOk(items) && Flatten(items) == lines
  {
    var rest, stack', s';
    items, rest, stack', s' := AcceptedIsGrouped(w, lines, [], s);
    assert Flatten(items) + [] == Flatten(items);
  }

  // ----- skipped groups do nothing -----

  lemma {:induction false} FlushNothing(w: World, s: Pre)
    requires s.Valid() && s.pending == []
    ensures Flush(w, s) == Ok(s)
  {
    assert MacroExpansion.Expand(w.host, s.macros, [], 0, s.expansions) == MacroExpansion.Expanded([], s.expansions);
    assert s.output + [] == s.output;
  }

  /** A skipped group changes nothing: no output, no definition, no expansion. It fails only where a nested directive is
      malformed. */
  lemma {:induction false} SkippedGroupIsInert(w: World, items: seq<Item>, s: Pre)
    requires s.Valid() && WorldOk(w) && GroupOk(items) && s.pending == []
    ensures EvalGroup(w, items, false, s) in {Ok(s), Fails(ExpectedOneName)}
    decreases items
  {
    if items != [] {
      SkippedItemIsInert(w, items[0], s);
      if EvalItem(w, items[0], false, s).Ok? { SkippedGroupIsInert(w, items[1..], s); }
    }
  }

  lemma {:induction false} SkippedItemIsInert(w: World, item: Item, s: Pre)
    requires s.Valid() && WorldOk(w) && ItemOk(item) && s.pending == []
    ensures EvalItem(w, item, false, s) in {Ok(s), Fails(ExpectedOneName)}
    decreases item
  {
    hide Flush, Condition, Simple;
    FlushNothing(w, s);
    if item.Section? {
      SkippedGroupIsInert(w, item.body, s);
      SkippedBranchesAreInert(w, item.branches, false, false, s);
    }
  }

  /** Nor do the branches after the one that was processed. */
  lemma {:induction false} SkippedBranchesAreInert(w: World, branches: seq<Branch>, active: bool, taken: bool, s: Pre)
    requires s.Valid() && WorldOk(w) && BranchesOk(branches) && s.pending == [] && !(active && !taken)
    ensures EvalBranches(w, branches, active, taken, s) in {Ok(s), Fails(ExpectedOneName)}
    decreases branches
  {
    hide Flush, Condition;
    FlushNothing(w, s);
    if branches != [] {
      SkippedGroupIsInert(w, branches[0].body, s);
      if EvalGroup(w, branches[0].body, false, s).Ok? { SkippedBranchesAreInert(w, branches[1..], active, taken, s); }
    }
  }
}
