/** Writing a type as a C declarator and reading it back. */
module DeclaratorRoundTrip {
  import opened Declarators
  import opened Qualifiers

  predicate WrittenAt(ts: seq<Token>, pos: nat, w: seq<Token>) {
    pos + |w| <= |ts| && ts[pos..pos + |w|] == w
  }

  lemma {:induction false} Join(ts: seq<Token>, pos: nat, a: seq<Token>, b: seq<Token>)
    ensures WrittenAt(ts, pos, a + b) <==> WrittenAt(ts, pos, a) && WrittenAt(ts, pos + |a|, b)
  {
    if WrittenAt(ts, pos, a + b) {
      var w := ts[pos..pos + |a + b|];
      assert a == w[..|a|] && b == w[|a|..];
      assert ts[pos..pos + |a|] == w[..|a|] && ts[pos + |a|..pos + |a| + |b|] == w[|a|..];
    }
    if WrittenAt(ts, pos, a) && WrittenAt(ts, pos + |a|, b) {
      assert ts[pos..pos + |a| + |b|] == ts[pos..pos + |a|] + ts[pos + |a|..pos + |a| + |b|];
    }
  }

  lemma {:induction false} One(ts: seq<Token>, pos: nat, t: Token)
    ensures WrittenAt(ts, pos, [t]) <==> pos < |ts| && ts[pos] == t
  {
    if pos < |ts| { assert ts[pos..pos + 1] == [ts[pos]]; }
  }

  lemma {:induction false} Join3(ts: seq<Token>, pos: nat, a: seq<Token>, b: seq<Token>, c: seq<Token>)
    requires WrittenAt(ts, pos, a + b + c)
    ensures WrittenAt(ts, pos, a) && WrittenAt(ts, pos + |a|, b) && WrittenAt(ts, pos + |a| + |b|, c)
  {
    Join(ts, pos, a + b, c);
    Join(ts, pos, a, b);
  }

  /** The first tokens of what is written. */
  lemma {:induction false} First(ts: seq<Token>, pos: nat, w: seq<Token>)
    requires WrittenAt(ts, pos, w)
    ensures |w| > 0 ==> At(ts, pos) == w[0]
    ensures |w| > 1 ==> At(ts, pos + 1) == w[1]
    ensures |w| > 2 ==> At(ts, pos + 2) == w[2]
  {
    var slice := ts[pos..pos + |w|];
    if |w| > 0 { assert slice[0] == ts[pos]; }
    if |w| > 1 { assert slice[1] == ts[pos + 1]; }
    if |w| > 2 { assert slice[2] == ts[pos + 2]; }
  }

  /** What may stand after a declarator. */
  predicate Ends(t: Token) {
    !t.Star? && !t.KwConst? && !t.KwVolatile? && !t.LParen? && !t.LBracket? && !t.Ident?
  }

  predicate IsQualifier(t: Token) { t.KwConst? || t.KwVolatile? }

  // ----- pointers -----

  lemma {:induction false} ReadQualifiers(ts: seq<Token>, pos: nat, q: Quals)
    requires WrittenAt(ts, pos, QualTokens(q)) && !IsQualifier(At(ts, pos + |QualTokens(q)|))
    ensures ParseQualifiers(ts, pos, NO_QUALS) == Quals1(q, pos + |QualTokens(q)|)
  {
    var a, b := if q.isConst then [KwConst] else [], if q.isVolatile then [KwVolatile] else [];
    Join(ts, pos, a, b);
    if q.isConst { One(ts, pos, KwConst); }
    var mid := pos + |a|;
    var q1 := Quals(q.isConst, false);
    assert ParseQualifiers(ts, pos, NO_QUALS) == ParseQualifiers(ts, mid, q1);
    if q.isVolatile {
      One(ts, mid, KwVolatile);
      assert ParseQualifiers(ts, mid, q1) == ParseQualifiers(ts, mid + 1, q);
    }
  }

  lemma {:induction false} ReadStars(ts: seq<Token>, pos: nat, p: seq<Layer>, layers: seq<Layer>)
    requires forall i :: 0 <= i < |p| ==> p[i].PointerTo?
    requires WrittenAt(ts, pos, Stars(p)) && !IsQualifier(At(ts, pos + |Stars(p)|))
    ensures ParsePointers(ts, pos, layers) == ParsePointers(ts, pos + |Stars(p)|, p + layers)
    decreases p
  {
    hide Stars, QualTokens, ParsePointers, WrittenAt, ParseQualifiers;
    StarsWritten(p);
    if p == [] {
      assert p + layers == layers;
    } else {
      var a, q := Stars(p[1..]), QualTokens(p[0].quals);
      Join3(ts, pos, a, [Star], q);
      First(ts, pos + |a|, [Star]);
      ReadStars(ts, pos, p[1..], layers);
      ReadQualifiers(ts, pos + |a| + 1, p[0].quals);
      PointerStep(ts, pos + |a|, p[1..] + layers);
      PointerFirst(p, layers);
    }
  }

  lemma {:induction false} PointerFirst(p: seq<Layer>, layers: seq<Layer>)
    requires p != []
    ensures [p[0]] + (p[1..] + layers) == p + layers
  {
    assert p == [p[0]] + p[1..];
  }

  lemma {:induction false} StarsWritten(p: seq<Layer>)
    requires forall i :: 0 <= i < |p| ==> p[i].PointerTo?
    ensures Stars(p) == if p == [] then [] else Stars(p[1..]) + [Star] + QualTokens(p[0].quals)
  {
  }

  lemma {:induction false} PointerStep(ts: seq<Token>, pos: nat, layers: seq<Layer>)
    requires pos < |ts| && ts[pos] == Star
    ensures var q := ParseQualifiers(ts, pos + 1, NO_QUALS);
            ParsePointers(ts, pos, layers) == ParsePointers(ts, q.pos, [PointerTo(q.quals)] + layers)
  {
    hide ParseQualifiers;
  }

  lemma {:induction false} StarsFirst(p: seq<Layer>)
    requires p != [] && forall i :: 0 <= i < |p| ==> p[i].PointerTo?
    ensures Stars(p) != [] && Stars(p)[0] == Star
    decreases p
  {
    if |p| > 1 { StarsFirst(p[1..]); }
  }

  // ----- the parts of a declarator -----

  lemma {:induction false} PartsJoin(d: seq<Layer>)
    ensures d == Nested(d) + Suffixes(d) + Pointers(d)
    ensures forall i :: 0 <= i < |Suffixes(d)| ==> !Suffixes(d)[i].PointerTo?
    ensures forall i :: 0 <= i < |Pointers(d)| ==> Pointers(d)[i].PointerTo?
    ensures Nested(d) != [] ==> Suffixes(d) != [] && Pointers(Nested(d)) != []
  {
    var o := Others(d);
    assert o == Nested(d) + Suffixes(d);
    if Nested(d) != [] {
      var n := Nested(d);
      assert n[|n| - 1] == o[|n| - 1];
    }
  }

  lemma {:induction false} LayersOkSplit(d: seq<Layer>, k: nat)
    requires k <= |d|
    ensures LayersOk(d) <==> LayersOk(d[..k]) && LayersOk(d[k..])
    decreases k
  {
    if k == 0 {
      assert d[0..] == d && d[..0] == [];
    } else {
      LayersOkSplit(d[1..], k - 1);
      assert d[..k][1..] == d[1..][..k - 1] && d[1..][k - 1..] == d[k..];
    }
  }

  lemma {:induction false} PartsOk(d: seq<Layer>)
    requires LayersOk(d)
    ensures LayersOk(Nested(d)) && LayersOk(Suffixes(d))
  {
    LayersOkSplit(d, |d| - PointerCount(d));
    LayersOkSplit(Others(d), |Others(d)| - SuffixCount(Others(d)));
  }

  /** The first token of a suffix, and of a parameter list. */
  lemma {:induction false} SuffixFirst(s: Layer)
    requires LayerOk(s) && !s.PointerTo?
    ensures WriteSuffix(s) != []
    ensures s.ArrayOf? ==> WriteSuffix(s)[0] == LBracket
    ensures s.FunctionOf? ==> WriteSuffix(s)[0] == LParen
    ensures s.FunctionOf? ==> |WriteSuffix(s)| > 1 && (IsTypeName(WriteSuffix(s)[1]) || WriteSuffix(s)[1] == RParen)
  {
    if s.FunctionOf? && s.params != [] { ParamsFirst(s.params); }
  }

  lemma {:induction false} ParamsFirst(params: seq<Param>)
    requires params != []
    ensures WriteParams(params) != [] && IsTypeName(WriteParams(params)[0])
  {
    var p := params[0];
    var q := QualTokens(p.quals);
    assert WriteParam(p) != [] && WriteParam(p)[0] == (q + [Spec(p.spec)])[0];
  }

  /** What follows the name, or stands in its place. */
  lemma {:induction false} SuffixesFirst(s: seq<Layer>)
    requires LayersOk(s) && s != [] && !s[0].PointerTo?
    ensures WriteSuffixes(s) != []
    ensures WriteSuffixes(s)[0] == if s[0].ArrayOf? then LBracket else LParen
    ensures s[0].FunctionOf? ==>
        |WriteSuffixes(s)| > 1 && (IsTypeName(WriteSuffixes(s)[1]) || WriteSuffixes(s)[1] == RParen)
  {
    SuffixFirst(s[0]);
  }

  // ----- reading back -----

  lemma {:induction false} ReadSuffixes(ts: seq<Token>, pos: nat, s: seq<Layer>)
    requires LayersOk(s) && (forall i :: 0 <= i < |s| ==> !s[i].PointerTo?) && WrittenAt(ts, pos, WriteSuffixes(s))
    requires var t := At(ts, pos + |WriteSuffixes(s)|); !t.LParen? && !t.LBracket?
    ensures ParseSuffix(ts, pos) == Layers1(s, pos + |WriteSuffixes(s)|)
    decreases Size(s), 2
  {
    hide WriteSuffix, WrittenAt, ParseParameterList;
    if s != [] {
      var a := WriteSuffix(s[0]);
      Join(ts, pos, a, WriteSuffixes(s[1..]));
      ReadSuffixes(ts, pos + |a|, s[1..]);
      assert [s[0]] + s[1..] == s;
      if s[0].ArrayOf? {
        ReadArray(ts, pos, s[0]);
      } else {
        ReadFunction(ts, pos, s[0]);
      }
    }
  }

  /** One array bound. */
  lemma {:induction false} ReadArray(ts: seq<Token>, pos: nat, s: Layer)
    requires s.ArrayOf? && LayerOk(s) && WrittenAt(ts, pos, WriteSuffix(s))
    ensures At(ts, pos) == LBracket
    ensures if s.size < 0 then At(ts, pos + 1) == RBracket && |WriteSuffix(s)| == 2 && s.size == -1
            else At(ts, pos + 1) == IntLit(s.size) && At(ts, pos + 2) == RBracket && |WriteSuffix(s)| == 3
  {
    First(ts, pos, WriteSuffix(s));
  }

  lemma {:induction false} ReadFunction(ts: seq<Token>, pos: nat, s: Layer)
    requires s.FunctionOf? && LayerOk(s) && WrittenAt(ts, pos, WriteSuffix(s))
    ensures At(ts, pos) == LParen
    ensures ParseParameterList(ts, pos) == Params1(s.params, s.variadic, pos + |WriteSuffix(s)|)
    ensures At(ts, pos + 1) == RParen <==> !s.hasPrototype
    decreases LayerSize(s), 1
  {
    if s.params == [] {
      First(ts, pos, WriteSuffix(s));
    } else {
      ReadPrototype(ts, pos, s);
    }
  }

  /** Where a parameter list's parts stand. */
  lemma {:induction false} PrototypeAt(ts: seq<Token>, pos: nat, s: Layer)
    requires s.FunctionOf? && s.params != [] && WrittenAt(ts, pos, WriteSuffix(s))
    ensures At(ts, pos) == LParen && WrittenAt(ts, pos + 1, WriteParams(s.params))
    ensures var e := pos + 1 + |WriteParams(s.params)|;
            if s.variadic then At(ts, e) == Comma && At(ts, e + 1) == Ellipsis && At(ts, e + 2) == RParen &&
              |WriteSuffix(s)| == e + 3 - pos
            else At(ts, e) == RParen && |WriteSuffix(s)| == e + 1 - pos
    ensures IsTypeName(At(ts, pos + 1))
  {
    hide WriteSuffix, WriteParams, WrittenAt;
    var ps, tail := WriteParams(s.params), if s.variadic then [Comma, Ellipsis] else [];
    ParamsFirst(s.params);
    PrototypeWritten(s);
    var e := pos + 1 + |ps|;
    Join3(ts, pos, [LParen] + ps, tail, [RParen]);
    Join(ts, pos, [LParen], ps);
    First(ts, pos, [LParen]);
    First(ts, pos + 1, ps);
    First(ts, e + |tail|, [RParen]);
    if s.variadic {
      Join(ts, e, [Comma], [Ellipsis]);
      assert [Comma] + [Ellipsis] == tail;
      First(ts, e, [Comma]);
      First(ts, e + 1, [Ellipsis]);
    }
  }

  lemma {:induction false} PrototypeWritten(s: Layer)
    requires s.FunctionOf? && s.params != []
    ensures var tail := if s.variadic then [Comma, Ellipsis] else [];
            WriteSuffix(s) == [LParen] + WriteParams(s.params) + tail + [RParen]
  {
    hide WriteParams;
  }

  lemma {:induction false} ReadPrototype(ts: seq<Token>, pos: nat, s: Layer)
    requires s.FunctionOf? && LayerOk(s) && s.params != [] && WrittenAt(ts, pos, WriteSuffix(s))
    ensures At(ts, pos) == LParen && IsTypeName(At(ts, pos + 1))
    ensures ParseParameterList(ts, pos) == Params1(s.params, s.variadic, pos + |WriteSuffix(s)|)
    decreases LayerSize(s), 0
  {
    hide WriteSuffix, WriteParams, WrittenAt;
    PrototypeAt(ts, pos, s);
    assert [] + s.params == s.params;
    ReadParams(ts, pos + 1, s.params, [], s.variadic);
    NotJustVoid(ts, pos + 1, s);
  }

  /** A first parameter that starts with void and ends right there is the unnamed void that means no parameters. */
  lemma {:induction false} NotJustVoid(ts: seq<Token>, pos: nat, s: Layer)
    requires s.FunctionOf? && LayerOk(s) && s.params != [] && WrittenAt(ts, pos, WriteParams(s.params))
    ensures !(At(ts, pos) == Spec(VOID) && At(ts, pos + 1) == RParen)
  {
    hide WrittenAt, WriteParams, Write, LayersOk, LayerOk;
    ParamsBegin(ts, pos, s.params);
    FirstParam(s);
    if s.params[0].layers != [] { WriteFirst(s.params[0].layers); }
  }

  lemma {:induction false} FirstParam(s: Layer)
    requires s.FunctionOf? && LayerOk(s) && s.params != []
    ensures LayersOk(s.params[0].layers)
    ensures |s.params| == 1 ==> s.params[0] != Param(VOID, NO_QUALS, [])
    ensures s.params[0].layers == [] ==> Write(s.params[0].layers, "") == []
  {
    hide LayersOk;
    if |s.params| == 1 { assert s.params == [s.params[0]]; }
    NothingWritten();
  }

  lemma {:induction false} NothingWritten()
    ensures Write([], "") == []
  {
  }

  /** How a parameter list begins. */
  lemma {:induction false} ParamsBegin(ts: seq<Token>, pos: nat, params: seq<Param>)
    requires params != [] && WrittenAt(ts, pos, WriteParams(params))
    ensures var p := params[0];
            && (p.quals != NO_QUALS ==> IsQualifier(At(ts, pos)))
            && (p.quals == NO_QUALS ==> At(ts, pos) == Spec(p.spec))
            && (p.quals == NO_QUALS && Write(p.layers, "") != [] ==> At(ts, pos + 1) == Write(p.layers, "")[0])
            && (p.quals == NO_QUALS && Write(p.layers, "") == [] && |params| > 1 ==> At(ts, pos + 1) == Comma)
  {
    var p := params[0];
    hide Write;
    First(ts, pos, WriteParams(params));
  }

  /** No abstract declarator begins with a closing parenthesis. */
  lemma {:induction false} WriteFirst(d: seq<Layer>)
    requires d != [] && LayersOk(d)
    ensures Write(d, "") != [] && Write(d, "")[0] in {Star, LParen, LBracket}
  {
    PartsJoin(d);
    PartsOk(d);
    hide Pointers, Nested, Suffixes, LayersOk;
    if Pointers(d) != [] {
      StarsFirst(Pointers(d));
    } else if Nested(d) == [] {
      SuffixesFirst(Suffixes(d));
    }
  }

  lemma {:induction false} ReadParams(ts: seq<Token>, pos: nat, params: seq<Param>, done: seq<Param>, variadic: bool)
    requires params != [] && (forall p :: p in params ==> LayersOk(p.layers)) && WrittenAt(ts, pos, WriteParams(params))
    requires var e := pos + |WriteParams(params)|;
             if variadic then At(ts, e) == Comma && At(ts, e + 1) == Ellipsis else At(ts, e) == RParen
    ensures ParseParameters(ts, pos, done)
         == Params1(done + params, variadic, pos + |WriteParams(params)| + if variadic then 2 else 0)
    decreases ParamsSize(params), 5
  {
    hide WriteParam, WriteParams, ParseParameter, WrittenAt, LayersOk, ParseParameters;
    var p := params[0];
    if |params| == 1 {
      ReadLastParam(ts, pos, params, done, variadic);
    } else {
      ParamsAt(ts, pos, params);
      ReadParam(ts, pos, p);
      ParametersStep(ts, pos, done);
      ReadParams(ts, pos + |WriteParam(p)| + 1, params[1..], done + [p], variadic);
      assert done + [p] + params[1..] == done + params;
    }
  }

  lemma {:induction false} ParamsAt(ts: seq<Token>, pos: nat, params: seq<Param>)
    requires |params| > 1 && WrittenAt(ts, pos, WriteParams(params))
    ensures WrittenAt(ts, pos, WriteParam(params[0])) && At(ts, pos) != Ellipsis
    ensures var i := pos + |WriteParam(params[0])|;
            && At(ts, i) == Comma && WrittenAt(ts, i + 1, WriteParams(params[1..]))
            && |WriteParams(params)| == |WriteParam(params[0])| + 1 + |WriteParams(params[1..])|
  {
    ParamsFirst(params);
    First(ts, pos, WriteParams(params));
    hide WriteParam, WrittenAt;
    Join3(ts, pos, WriteParam(params[0]), [Comma], WriteParams(params[1..]));
    First(ts, pos + |WriteParam(params[0])|, [Comma]);
  }

  lemma {:induction false} ReadLastParam(ts: seq<Token>, pos: nat, params: seq<Param>, done: seq<Param>, variadic: bool)
    requires |params| == 1 && LayersOk(params[0].layers) && WrittenAt(ts, pos, WriteParams(params))
    requires var e := pos + |WriteParams(params)|;
             if variadic then At(ts, e) == Comma && At(ts, e + 1) == Ellipsis else At(ts, e) == RParen
    ensures ParseParameters(ts, pos, done)
         == Params1(done + params, variadic, pos + |WriteParams(params)| + if variadic then 2 else 0)
    decreases ParamsSize(params), 4, 1
  {
    hide WriteParams, WriteParam, ParseParameter, WrittenAt, LayersOk, ParseParameters;
    var p := params[0];
    LastParamAt(ts, pos, params);
    ReadParam(ts, pos, p);
    ParametersStep(ts, pos, done);
    if variadic { EllipsisStep(ts, pos + |WriteParam(p)| + 1, done + [p]); }
    assert done + [p] == done + params;
  }

  lemma {:induction false} LastParamAt(ts: seq<Token>, pos: nat, params: seq<Param>)
    requires |params| == 1 && WrittenAt(ts, pos, WriteParams(params))
    ensures WriteParams(params) == WriteParam(params[0]) && At(ts, pos) != Ellipsis
  {
    ParamsFirst(params);
    First(ts, pos, WriteParams(params));
  }

  lemma {:induction false} ParametersStep(ts: seq<Token>, pos: nat, done: seq<Param>)
    requires pos <= |ts| && At(ts, pos) != Ellipsis && ParseParameter(ts, pos).Param1?
    ensures var r := ParseParameter(ts, pos);
            && (At(ts, r.next) == Comma ==>
                r.next < |ts| && ParseParameters(ts, pos, done) == ParseParameters(ts, r.next + 1, done + [r.param]))
            && (At(ts, r.next) != Comma ==> ParseParameters(ts, pos, done) == Params1(done + [r.param], false, r.next))
  {
    hide ParseParameter;
  }

  lemma {:induction false} EllipsisStep(ts: seq<Token>, pos: nat, done: seq<Param>)
    requires pos < |ts| && ts[pos] == Ellipsis
    ensures ParseParameters(ts, pos, done) == Params1(done, true, pos + 1)
  {
    hide ParseParameter;
  }

  lemma {:induction false} ReadParam(ts: seq<Token>, pos: nat, p: Param)
    requires LayersOk(p.layers) && WrittenAt(ts, pos, WriteParam(p)) && Ends(At(ts, pos + |WriteParam(p)|))
    ensures ParseParameter(ts, pos) == Param1(p, pos + |WriteParam(p)|)
    decreases ParamSize(p), 4, 0
  {
    hide Write, ParseDeclarator;
    var q, w := QualTokens(p.quals), Write(p.layers, "");
    Join3(ts, pos, q, [Spec(p.spec)], w);
    First(ts, pos + |q|, [Spec(p.spec)]);
    hide WrittenAt;
    ReadQualifiers(ts, pos, p.quals);
    ReadDeclarator(ts, pos + |q| + 1, p.layers, "");
    NoQualifierFirst(ts, pos + |q| + 1, p.layers);
  }

  /** No abstract declarator begins with a qualifier. */
  lemma {:induction false} NoQualifierFirst(ts: seq<Token>, pos: nat, d: seq<Layer>)
    requires LayersOk(d) && WrittenAt(ts, pos, Write(d, "")) && Ends(At(ts, pos + |Write(d, "")|))
    ensures !IsQualifier(At(ts, pos))
  {
    if d != [] { WriteFirst(d); }
    First(ts, pos, Write(d, ""));
  }

  /** A declarator is read back as the layers it was written for. */
  lemma {:induction false} ReadDeclarator(ts: seq<Token>, pos: nat, d: seq<Layer>, name: string)
    requires LayersOk(d) && WrittenAt(ts, pos, Write(d, name)) && Ends(At(ts, pos + |Write(d, name)|))
    ensures ParseDeclarator(ts, pos) == Declarator(d, name, pos + |Write(d, name)|)
    decreases Size(d), 4
  {
    PartsJoin(d);
    PartsOk(d);
    PartsSmaller(d);
    if Nested(d) == [] { ReadPlain(ts, pos, d, name); } else { ReadNested(ts, pos, d, name); }
  }

  lemma {:induction false} ReadPointers(ts: seq<Token>, pos: nat, d: seq<Layer>)
    requires WrittenAt(ts, pos, Stars(Pointers(d)))
    requires var t := At(ts, pos + |Stars(Pointers(d))|); !IsQualifier(t) && t != Star
    ensures ParsePointers(ts, pos, []) == Layers1(Pointers(d), pos + |Stars(Pointers(d))|)
  {
    ReadStars(ts, pos, Pointers(d), []);
    assert Pointers(d) + [] == Pointers(d);
  }

  lemma {:induction false} PlainStep(ts: seq<Token>, pos: nat)
    requires pos <= |ts| && !OpensNested(ts, ParsePointers(ts, pos, []).pos)
    ensures var p := ParsePointers(ts, pos, []);
            var named := At(ts, p.pos).Ident?;
            var s := ParseSuffix(ts, if named then p.pos + 1 else p.pos);
            s.Layers1? ==>
              ParseDeclarator(ts, pos) == Declarator(s.layers + p.layers, if named then At(ts, p.pos).name else "",
                                                     s.pos)
  {
    hide ParsePointers, ParseSuffix;
  }

  lemma {:induction false} NestedStep(ts: seq<Token>, pos: nat)
    requires pos <= |ts| && OpensNested(ts, ParsePointers(ts, pos, []).pos)
    ensures var p := ParsePointers(ts, pos, []);
            var d := ParseDeclarator(ts, p.pos + 1);
            d.Declarator? && At(ts, d.end) == RParen ==>
              var s := ParseSuffix(ts, d.end + 1);
              s.Layers1? ==> ParseDeclarator(ts, pos) == Declarator(d.layers + s.layers + p.layers, d.name, s.pos)
  {
    hide ParsePointers, ParseSuffix, OpensNested;
  }

  lemma {:induction false} ReadPlain(ts: seq<Token>, pos: nat, d: seq<Layer>, name: string)
    requires LayersOk(d) && WrittenAt(ts, pos, Write(d, name)) && Ends(At(ts, pos + |Write(d, name)|))
    requires Nested(d) == []
    requires LayersOk(Suffixes(d)) && Size(Suffixes(d)) <= Size(d) && d == Nested(d) + Suffixes(d) + Pointers(d)
    requires forall i :: 0 <= i < |Suffixes(d)| ==> !Suffixes(d)[i].PointerTo?
    requires forall i :: 0 <= i < |Pointers(d)| ==> Pointers(d)[i].PointerTo?
    ensures ParseDeclarator(ts, pos) == Declarator(d, name, pos + |Write(d, name)|)
    decreases Size(d), 3
  {
    hide Write, WriteSuffixes, Stars, LayersOk, Pointers, Nested, Suffixes, ParseSuffix, ParseDeclarator,
      ParsePointers, WrittenAt;
    var id := if name == "" then [] else [Ident(name)];
    var p := pos + |Stars(Pointers(d))|;
    PlainAt(ts, pos, d, name);
    ReadSuffixes(ts, p + |id|, Suffixes(d));
    AfterPointers(ts, p, name, id, Suffixes(d));
    ReadPointers(ts, pos, d);
    PlainStep(ts, pos);
    assert Suffixes(d) + Pointers(d) == d;
  }

  lemma {:induction false} PlainAt(ts: seq<Token>, pos: nat, d: seq<Layer>, name: string)
    requires WrittenAt(ts, pos, Write(d, name)) && Nested(d) == []
    ensures var stars, id, rest := Stars(Pointers(d)), if name == "" then [] else [Ident(name)],
      WriteSuffixes(Suffixes(d));
            && WrittenAt(ts, pos, stars) && WrittenAt(ts, pos + |stars|, id)
            && WrittenAt(ts, pos + |stars| + |id|, rest)
            && |Write(d, name)| == |stars| + |id| + |rest|
  {
    hide Write, WriteSuffixes, Stars, WrittenAt, Suffixes, Nested;
    PlainWritten(d, name);
    Join3(ts, pos, Stars(Pointers(d)), if name == "" then [] else [Ident(name)], WriteSuffixes(Suffixes(d)));
  }

  lemma {:induction false} PlainWritten(d: seq<Layer>, name: string)
    requires Nested(d) == []
    ensures Write(d, name) == Stars(Pointers(d)) + (if name
                                                    == "" then [] else [Ident(name)]) + WriteSuffixes(Suffixes(d))
  {
    hide Stars, WriteSuffixes;
  }

  /** After the pointers of a declarator that is not nested, the parser sees no more pointers and no parenthesis to
      descend into. */
  lemma {:induction false} AfterPointers(ts: seq<Token>, pos: nat, name: string, id: seq<Token>, s: seq<Layer>)
    requires LayersOk(s) && forall i :: 0 <= i < |s| ==> !s[i].PointerTo?
    requires id == (if name == "" then [] else [Ident(name)]) && WrittenAt(ts, pos, id)
    requires WrittenAt(ts, pos + |id|, WriteSuffixes(s)) && Ends(At(ts, pos + |id| + |WriteSuffixes(s)|))
    ensures !IsQualifier(At(ts, pos)) && At(ts, pos) != Star && !OpensNested(ts, pos)
    ensures if name == "" then !At(ts, pos).Ident? else At(ts, pos) == Ident(name)
  {
    First(ts, pos, id);
    First(ts, pos + |id|, WriteSuffixes(s));
    if s == [] { assert WriteSuffixes(s) == []; } else { SuffixesFirst(s); }
  }

  lemma {:induction false} ReadNested(ts: seq<Token>, pos: nat, d: seq<Layer>, name: string)
    requires LayersOk(d) && WrittenAt(ts, pos, Write(d, name)) && Ends(At(ts, pos + |Write(d, name)|))
    requires Nested(d) != []
    requires LayersOk(Nested(d)) && LayersOk(Suffixes(d)) && d == Nested(d) + Suffixes(d) + Pointers(d)
    requires Size(Nested(d)) < Size(d) && Size(Suffixes(d)) <= Size(d) && Pointers(Nested(d)) != []
    requires forall i :: 0 <= i < |Suffixes(d)| ==> !Suffixes(d)[i].PointerTo?
    requires forall i :: 0 <= i < |Pointers(d)| ==> Pointers(d)[i].PointerTo?
    ensures ParseDeclarator(ts, pos) == Declarator(d, name, pos + |Write(d, name)|)
    decreases Size(d), 3
  {
    hide Write, WriteSuffixes, Stars, LayersOk, Pointers, Nested, Suffixes, ParseSuffix, ParseDeclarator,
      ParsePointers, WrittenAt;
    var p := pos + |Stars(Pointers(d))|;
    NestedAt(ts, pos, d, name);
    ReadDeclarator(ts, p + 1, Nested(d), name);
    ReadSuffixes(ts, p + 1 + |Write(Nested(d), name)| + 1, Suffixes(d));
    ReadPointers(ts, pos, d);
    NestedStep(ts, pos);
  }

  lemma {:induction false} NestedAt(ts: seq<Token>, pos: nat, d: seq<Layer>, name: string)
    requires WrittenAt(ts, pos, Write(d, name)) && Nested(d) != [] && Pointers(Nested(d)) != []
    ensures var stars, inner, rest := Stars(Pointers(d)), Write(Nested(d), name), WriteSuffixes(Suffixes(d));
            && WrittenAt(ts, pos, stars)
            && var p := pos + |stars|;
               && At(ts, p) == LParen && At(ts, p + 1) == Star && WrittenAt(ts, p + 1, inner)
               && var close := p + 1 + |inner|;
                  At(ts, close) == RParen && WrittenAt(ts, close + 1, rest) &&
                    pos + |Write(d, name)| == close + 1 + |rest|
  {
    hide Write, WriteSuffixes, Stars, WrittenAt, Suffixes, Nested;
    NestedWritten(d, name);
    NestedFirst(Nested(d), name);
    var stars, inner := Stars(Pointers(d)), Write(Nested(d), name);
    Join3(ts, pos, stars + [LParen] + inner, [RParen], WriteSuffixes(Suffixes(d)));
    Join3(ts, pos, stars, [LParen], inner);
    var p := pos + |stars|;
    First(ts, p, [LParen]);
    First(ts, p + 1, inner);
    First(ts, p + 1 + |inner|, [RParen]);
  }

  lemma {:induction false} NestedWritten(d: seq<Layer>, name: string)
    requires Nested(d) != []
    ensures Write(d, name)
         == Stars(Pointers(d)) + [LParen] + Write(Nested(d), name) + [RParen] + WriteSuffixes(Suffixes(d))
  {
    hide Stars, WriteSuffixes;
  }

  lemma {:induction false} NestedFirst(d: seq<Layer>, name: string)
    requires Pointers(d) != []
    ensures Write(d, name) != [] && Write(d, name)[0] == Star
  {
    StarsFirst(Pointers(d));
  }

  /** Every type written as a declarator, named or abstract, is read back as that type, and reading stops right after
      it. */
  lemma {:induction false} RoundTrip(d: seq<Layer>, name: string, rest: seq<Token>)
    requires LayersOk(d) && Ends(At(rest, 0))
    ensures ParseDeclarator(Write(d, name) + rest, 0) == Declarator(d, name, |Write(d, name)|)
  {
    var w := Write(d, name);
    var ts := w + rest;
    assert ts[0..|w|] == w && At(ts, |w|) == At(rest, 0);
    ReadDeclarator(ts, 0, d, name);
  }
}
