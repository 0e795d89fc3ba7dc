/** Source locations: the two places where lines are counted, when a file is normalized and when a diagnostic is shown,
    agree on every byte. */
module Locations {

  predicate IsNewline(c: char) { c == '\n' || c == '\r' }

  /** A line starts at p because one ended just before: at LF, at CR, and once at CR LF. */
  predicate StartsLine(source: string, p: nat)
    requires p <= |source|
  {
    p > 0 && (source[p - 1] == '\n' || (source[p - 1] == '\r' && !(p < |source| && source[p] == '\n')))
  }

  /** The number of the line that p is on, counting from one. */
  function LineOf(source: string, p: nat): (n: nat)
    requires p <= |source|
    ensures n > 0
  {
    if p == 0 then 1 else LineOf(source, p - 1) + if StartsLine(source, p) then 1 else 0
  }

  /** Where the line that p is on starts. */
  function StartOf(source: string, p: nat): (s: nat)
    requires p <= |source|
    ensures s <= p
  {
    if p == 0 then 0 else if StartsLine(source, p) then p else StartOf(source, p - 1)
  }

  datatype Location = Location(line: nat, col: nat)

  function LocationOf(source: string, p: nat): Location
    requires p <= |source|
  {
    Location(LineOf(source, p), p - StartOf(source, p) + 1)
  }

  /** The position a location designates, by a table of line starts. */
  function Resolve(lineStarts: seq<nat>, at: Location): int
    requires 0 < at.line <= |lineStarts|
  {
    lineStarts[at.line - 1] + at.col - 1
  }

  /** The table answers for every position up to n. */
  ghost predicate Tabulates(source: string, lineStarts: seq<nat>, n: nat)
    requires n <= |source|
  {
    && |lineStarts| == LineOf(source, n)
    && forall p :: 0 <= p <= n ==>
      LineOf(source, p) <= |lineStarts| && lineStarts[LineOf(source, p) - 1] == StartOf(source, p)
  }

  lemma {:induction false} NextTabulated(source: string, lineStarts: seq<nat>, n: nat)
    requires n < |source| && Tabulates(source, lineStarts, n)
    ensures Tabulates(source, if StartsLine(source, n + 1) then lineStarts + [n + 1] else lineStarts, n + 1)
  {
  }

  /** Records where the lines of a source start. */
  method AddSource(source: string) returns (lineStarts: seq<nat>)
    ensures Tabulates(source, lineStarts, |source|)
  {
    lineStarts := [0];
    var i := 0;
    while i < |source|
      invariant 0 <= i <= |source|
      invariant Tabulates(source, lineStarts, i)
      invariant 0 < i < |source| && source[i - 1] == '\r' ==> source[i] != '\n'
    {
      if source[i] == '\r' {
        if i + 1 < |source| && source[i + 1] == '\n' {
          NextTabulated(source, lineStarts, i);
          i := i + 1;
        }
        NextTabulated(source, lineStarts, i);
        lineStarts := lineStarts + [i + 1];
      } else {
        NextTabulated(source, lineStarts, i);
        if source[i] == '\n' { lineStarts := lineStarts + [i + 1]; }
      }
      i := i + 1;
    }
  }

  /** A backslash directly before a line end. */
  predicate IsSplice(source: string, p: nat) {
    p + 1 < |source| && source[p] == '\\' && IsNewline(source[p + 1])
  }

  /** Removes splices and turns every line end into LF; each byte that is kept comes with its location in the source.
      origins says which byte that is. */
  method Normalize(source: string)
    returns (text: string, locations: seq<Location>, end: Location, ghost origins: seq<nat>)
    ensures |text| == |locations| == |origins| && end == LocationOf(source, |source|)
    ensures forall k :: 0 <= k < |origins| ==>
              && origins[k] < |source| && locations[k] == LocationOf(source, origins[k])
              && text[k] == if IsNewline(source[origins[k]]) then '\n' else source[origins[k]]
    ensures forall j, k :: 0 <= j < k < |origins| ==> origins[j] < origins[k]
    ensures forall p :: 0 <= p < |source| ==> (p in origins <==> !Dropped(source, p))
  {
    hide Traced, LineOf, StartOf;
    text, locations, origins := "", [], [];
    var loc := Location(1, 1);
    var i := 0;
    AtTheStart(source);
    while i < |source|
      invariant 0 <= i <= |source| && loc == LocationOf(source, i)
      invariant Traced(source, text, locations, origins, i)
      invariant 0 < i < |source| && source[i - 1] == '\r' ==> source[i] != '\n'
      invariant 0 < i ==> !IsSplice(source, i - 1)
    {
      ghost var was := i;
      if IsSplice(source, i) {
        i := i + 2;
        if source[i - 1] == '\r' && i < |source| && source[i] == '\n' { i := i + 1; }
        loc := Location(loc.line + 1, 1);
        SameLine(source, was);
        LineAfter(source, was + 1, i);
        Skipped(source, text, locations, origins, was, i);
      } else {
        locations, origins := locations + [loc], origins + [i];
        ghost var before := text;
        if IsNewline(source[i]) {
          if source[i] == '\r' && i + 1 < |source| && source[i + 1] == '\n' { i := i + 1; }
          text := text + "\n";
          loc := Location(loc.line + 1, 1);
          LineAfter(source, was, i + 1);
        } else {
          text := text + [source[i]];
          loc := loc.(col := loc.col + 1);
          SameLine(source, was);
        }
        i := i + 1;
        Kept(source, before, locations[..|locations| - 1], origins[..|origins| - 1], was, i);
      }
    }
    end := loc;
    AllTraced(source, text, locations, origins);
  }

  /** The bytes before n, with those that are kept. */
  ghost predicate Traced(source: string, text: string, locations: seq<Location>, origins: seq<nat>, n: nat)
    requires n <= |source|
  {
    && |text| == |locations| == |origins|
    && (forall k :: 0 <= k < |origins| ==>
          && origins[k] < n && locations[k] == LocationOf(source, origins[k])
          && text[k] == if IsNewline(source[origins[k]]) then '\n' else source[origins[k]])
    && (forall j, k :: 0 <= j < k < |origins| ==> origins[j] < origins[k])
    && forall p :: 0 <= p < n ==> (p in origins <==> !Dropped(source, p))
  }

  lemma {:induction false} AtTheStart(source: string)
    ensures Traced(source, "", [], [], 0) && LocationOf(source, 0) == Location(1, 1)
  {
  }

  lemma {:induction false} AllTraced(source: string, text: string, locations: seq<Location>, origins: seq<nat>)
    requires Traced(source, text, locations, origins, |source|)
    ensures |text| == |locations| == |origins|
    ensures forall k :: 0 <= k < |origins| ==>
              && origins[k] < |source| && locations[k] == LocationOf(source, origins[k])
              && text[k] == if IsNewline(source[origins[k]]) then '\n' else source[origins[k]]
    ensures forall j, k :: 0 <= j < k < |origins| ==> origins[j] < origins[k]
    ensures forall p :: 0 <= p < |source| ==> (p in origins <==> !Dropped(source, p))
  {
    hide LocationOf, Dropped;
  }

  lemma {:induction false} SameLine(source: string, p: nat)
    requires p < |source| && !IsNewline(source[p])
    ensures LineOf(source, p + 1) == LineOf(source, p) && StartOf(source, p + 1) == StartOf(source, p)
  {
  }

  /** From n to m every byte is left out. */
  lemma {:induction false} Skipped(source: string, text: string, locations: seq<Location>, origins: seq<nat>, n: nat,
                                   m: nat)
    requires n <= m <= |source| && Traced(source, text, locations, origins, n)
    requires forall p :: n <= p < m ==> Dropped(source, p)
    ensures Traced(source, text, locations, origins, m)
  {
    hide LocationOf, Dropped;
    assert forall p :: p in origins ==> p < n;
  }

  /** The byte at n is kept, and the ones from there to m are left out. */
  lemma {:induction false} Kept(source: string, text: string, locations: seq<Location>, origins: seq<nat>, n: nat,
                                m: nat)
    requires n < m <= |source| && Traced(source, text, locations, origins, n)
    requires !Dropped(source, n) && forall p :: n < p < m ==> Dropped(source, p)
    ensures Traced(source, text + [if IsNewline(source[n]) then '\n' else source[n]],
                   locations + [LocationOf(source, n)], origins + [n], m)
  {
    hide LocationOf, Dropped;
    var all := origins + [n];
    assert forall p :: p in origins ==> p < n;
    assert forall p :: p in all <==> p in origins || p == n;
  }

  /** The byte belongs to a splice, or is the LF of a CR LF. */
  predicate Dropped(source: string, p: nat) {
    || IsSplice(source, p)
    || (p > 0 && IsSplice(source, p - 1))
    || (0 < p < |source| && source[p - 1] == '\r' && source[p] == '\n')
  }

  /** A line end of one or two bytes from p to q: the next line starts at q. */
  lemma {:induction false} LineAfter(source: string, p: nat, q: nat)
    requires p < q <= |source| && IsNewline(source[p])
    requires q == p + 1 || (q == p + 2 && source[p] == '\r' && source[p + 1] == '\n')
    requires q == p + 1 && source[p] == '\r' ==> !(q < |source| && source[q] == '\n')
    ensures LineOf(source, q) == LineOf(source, p) + 1 && StartOf(source, q) == q
  {
    if q == p + 2 { assert !StartsLine(source, p + 1); }
  }

  /** Every location that normalization gives out designates, in the table that diagnostics use, the byte it was given
      for. */
  lemma {:induction false} LocationsResolve(source: string, lineStarts: seq<nat>, p: nat)
    requires p <= |source| && Tabulates(source, lineStarts, |source|)
    ensures var at := LocationOf(source, p); at.line <= |lineStarts| && Resolve(lineStarts, at) == p
  {
    assert lineStarts[LineOf(source, p) - 1] == StartOf(source, p);
  }
}
