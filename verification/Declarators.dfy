/** Declarators: the types that pointers, arrays and functions build around a base type, how they are written, and how
    they are read. A type is the list of its layers from the outside in, over a base. */
module Declarators {
  import opened Qualifiers

  datatype Layer =
    | PointerTo(quals: Quals)
    | ArrayOf(size: int)  // -1 when no bound is given
    | FunctionOf(params: seq<Param>, variadic: bool, hasPrototype: bool)

  /** A parameter's type: layers over a qualified type specifier. */
  datatype Param = Param(spec: nat, quals: Quals, layers: seq<Layer>)

  /** The number of the void specifier. */
  const VOID: nat := 0
  const INT_MAX: int := 0x7FFF_FFFF

  datatype Token =
    | Star | KwConst | KwVolatile | LParen | RParen | LBracket | RBracket | Comma | Ellipsis
    | IntLit(value: nat) | Ident(name: string) | Spec(spec: nat)
    | Other

  function At(ts: seq<Token>, pos: nat): Token {
    if pos < |ts| then ts[pos] else Other
  }

  predicate IsTypeName(t: Token) {
    t.Spec? || t.KwConst? || t.KwVolatile?
  }

  // ----- reading, as functions -----

  datatype Quals1 = Quals1(quals: Quals, pos: nat)
  datatype Layers1 = Layers1(layers: seq<Layer>, pos: nat) | NoLayers
  datatype Param1 = Param1(param: Param, next: nat) | NoParam
  datatype Params1 = Params1(params: seq<Param>, variadic: bool, after: nat) | NoParams
  datatype Declarator = Declarator(layers: seq<Layer>, name: string, end: nat) | NoDeclarator

  function ParseQualifiers(ts: seq<Token>, pos: nat, q: Quals): (r: Quals1)
    requires pos <= |ts|
    ensures pos <= r.pos <= |ts|
    decreases |ts| - pos
  {
    if At(ts, pos) == KwConst then ParseQualifiers(ts, pos + 1, q.(isConst := true))
    else if At(ts, pos) == KwVolatile then ParseQualifiers(ts, pos + 1, q.(isVolatile := true))
    else Quals1(q, pos)
  }

  /** Each star puts a pointer around what has been read. */
  function ParsePointers(ts: seq<Token>, pos: nat, layers: seq<Layer>): (r: Layers1)
    requires pos <= |ts|
    ensures r.Layers1? && pos <= r.pos <= |ts| && |layers| <= |r.layers|
    decreases |ts| - pos
  {
    if At(ts, pos) != Star then Layers1(layers, pos)
    else
      var q := ParseQualifiers(ts, pos + 1, NO_QUALS);
      ParsePointers(ts, q.pos, [PointerTo(q.quals)] + layers)
  }

  /** Whether a parenthesis opens a nested declarator and not a parameter list. */
  predicate OpensNested(ts: seq<Token>, pos: nat) {
    At(ts, pos) == LParen && !IsTypeName(At(ts, pos + 1)) && At(ts, pos + 1) != RParen
  }

  function ParseDeclarator(ts: seq<Token>, pos: nat): (r: Declarator)
    requires pos <= |ts|
    ensures r.Declarator? ==> pos <= r.end <= |ts|
    decreases |ts| - pos, 2
  {
    var p := ParsePointers(ts, pos, []);
    if OpensNested(ts, p.pos) then
      match ParseDeclarator(ts, p.pos + 1)
      case NoDeclarator => NoDeclarator
      case Declarator(inner, name, close) =>
        if At(ts, close) != RParen then NoDeclarator
        else
          match ParseSuffix(ts, close + 1)
          case NoLayers => NoDeclarator
          case Layers1(suffix, end) => Declarator(inner + suffix + p.layers, name, end)
    else
      var named := At(ts, p.pos).Ident?;
      match ParseSuffix(ts, if named then p.pos + 1 else p.pos)
      case NoLayers => NoDeclarator
      case Layers1(suffix, end) => Declarator(suffix + p.layers, if named then At(ts, p.pos).name else "", end)
  }

  /** Array bounds and parameter lists; the first one is the outermost layer. */
  function ParseSuffix(ts: seq<Token>, pos: nat): (r: Layers1)
    requires pos <= |ts|
    ensures r.Layers1? ==> pos <= r.pos <= |ts|
    decreases |ts| - pos, 1
  {
    if At(ts, pos) == LBracket then
      var at := if At(ts, pos + 1) == RBracket then pos + 1 else pos + 2;
      var size := if At(ts, pos + 1) == RBracket then -1 else if At(ts, pos + 1).IntLit? then At(ts,
          pos + 1).value else INT_MAX + 1;
      if size > INT_MAX || At(ts, at) != RBracket then NoLayers
      else
        match ParseSuffix(ts, at + 1)
        case NoLayers => NoLayers
        case Layers1(more, end) => Layers1([ArrayOf(size)] + more, end)
    else if At(ts, pos) == LParen then
      match ParseParameterList(ts, pos)
      case NoParams => NoLayers
      case Params1(params, variadic, after) =>
        match ParseSuffix(ts, after)
        case NoLayers => NoLayers
        case Layers1(more, end) => Layers1([FunctionOf(params, variadic, At(ts, pos + 1) != RParen)] + more, end)
    else Layers1([], pos)
  }

  /** A parameter list with its parentheses. */
  function ParseParameterList(ts: seq<Token>, pos: nat): (r: Params1)
    requires pos < |ts| && ts[pos] == LParen
    ensures r.Params1? ==> pos < r.after <= |ts|
    decreases |ts| - pos, 0
  {
    if At(ts, pos + 1) == RParen then Params1([], false, pos + 2)
    else if At(ts, pos + 1) == Spec(VOID) && At(ts, pos + 2) == RParen then Params1([], false, pos + 3)
    else
      match ParseParameters(ts, pos + 1, [])
      case NoParams => NoParams
      case Params1(params, variadic, after) =>
        if At(ts, after) != RParen then NoParams else Params1(params, variadic, after + 1)
  }

  function ParseParameters(ts: seq<Token>, pos: nat, done: seq<Param>): (r: Params1)
    requires pos <= |ts|
    ensures r.Params1? ==> pos < r.after <= |ts|
    decreases |ts| - pos, 4
  {
    if At(ts, pos) == Ellipsis then Params1(done, true, pos + 1)
    else
      match ParseParameter(ts, pos)
      case NoParam => NoParams
      case Param1(p, next) =>
        if At(ts, next) == Comma then ParseParameters(ts, next + 1, done + [p]) else Params1(done + [p], false, next)
  }

  function ParseParameter(ts: seq<Token>, pos: nat): (r: Param1)
    requires pos <= |ts|
    ensures r.Param1? ==> pos < r.next <= |ts|
    decreases |ts| - pos, 3
  {
    var q := ParseQualifiers(ts, pos, NO_QUALS);
    if !At(ts, q.pos).Spec? then NoParam
    else
      var trailing := ParseQualifiers(ts, q.pos + 1, q.quals);
      match ParseDeclarator(ts, trailing.pos)
      case NoDeclarator => NoParam
      case Declarator(layers, _, end) => Param1(Param(At(ts, q.pos).spec, trailing.quals, layers), end)
  }

  // ----- writing -----

  function QualTokens(q: Quals): seq<Token> {
    (if q.isConst then [KwConst] else []) + (if q.isVolatile then [KwVolatile] else [])
  }

  /** How many layers at the inner end are pointers. */
  function PointerCount(d: seq<Layer>): (n: nat)
    ensures n <= |d| && forall i :: |d| - n <= i < |d| ==> d[i].PointerTo?
    ensures n < |d| ==> !d[|d| - n - 1].PointerTo?
  {
    if d == [] || !d[|d| - 1].PointerTo? then 0 else 1 + PointerCount(d[..|d| - 1])
  }

  /** How many layers at the inner end are arrays or functions. */
  function SuffixCount(d: seq<Layer>): (n: nat)
    ensures n <= |d| && forall i :: |d| - n <= i < |d| ==> !d[i].PointerTo?
    ensures n < |d| ==> d[|d| - n - 1].PointerTo?
  {
    if d == [] || d[|d| - 1].PointerTo? then 0 else 1 + SuffixCount(d[..|d| - 1])
  }

  function Pointers(d: seq<Layer>): seq<Layer> { d[|d| - PointerCount(d)..] }
  function Others(d: seq<Layer>): seq<Layer> { d[..|d| - PointerCount(d)] }
  function Suffixes(d: seq<Layer>): seq<Layer> { Others(d)[|Others(d)| - SuffixCount(Others(d))..] }
  function Nested(d: seq<Layer>): seq<Layer> { Others(d)[..|Others(d)| - SuffixCount(Others(d))] }

  // How much there is to write.

  function Size(d: seq<Layer>): nat
    decreases d
  {
    if d == [] then 0 else LayerSize(d[0]) + Size(d[1..])
  }

  function LayerSize(l: Layer): (n: nat)
    ensures n > 0
    decreases l
  {
    if l.FunctionOf? then 1 + ParamsSize(l.params) else 1
  }

  function ParamsSize(params: seq<Param>): nat
    decreases params
  {
    if params == [] then 0 else ParamSize(params[0]) + ParamsSize(params[1..])
  }

  function ParamSize(p: Param): nat
    decreases p
  {
    1 + Size(p.layers)
  }

  lemma {:induction false} SizeSplit(d: seq<Layer>, k: nat)
    requires k <= |d|
    ensures Size(d) == Size(d[..k]) + Size(d[k..])
    decreases k
  {
    if k == 0 {
      assert d[0..] == d && d[..0] == [];
    } else {
      SizeSplit(d[1..], k - 1);
      assert d[..k][1..] == d[1..][..k - 1] && d[1..][k - 1..] == d[k..];
    }
  }

  lemma {:induction false} SizePositive(d: seq<Layer>)
    ensures d != [] ==> Size(d) > 0
  {
  }

  lemma {:induction false} PartsSmaller(d: seq<Layer>)
    ensures Size(Suffixes(d)) <= Size(d)
    ensures Nested(d) != [] ==> Size(Nested(d)) < Size(d) && Suffixes(d) != []
  {
    var o := Others(d);
    SizeSplit(d, |d| - PointerCount(d));
    SizeSplit(o, |o| - SuffixCount(o));
    SizePositive(Suffixes(d));
  }

  /** Pointers are written from the inside out. */
  function Stars(pointers: seq<Layer>): seq<Token>
    requires forall i :: 0 <= i < |pointers| ==> pointers[i].PointerTo?
  {
    if pointers == [] then [] else Stars(pointers[1..]) + [Star] + QualTokens(pointers[0].quals)
  }

  /** A declarator for d around a name; no name gives an abstract declarator. Parentheses are written only where a
      pointer has to be taken before an array or function. */
  function Write(d: seq<Layer>, name: string): seq<Token>
    decreases Size(d), 2
  {
    PartsSmaller(d);
    var stars := Stars(Pointers(d));
    if Nested(d) == [] then stars + (if name == "" then [] else [Ident(name)]) + WriteSuffixes(Suffixes(d))
    else stars + [LParen] + Write(Nested(d), name) + [RParen] + WriteSuffixes(Suffixes(d))
  }

  function WriteSuffixes(s: seq<Layer>): seq<Token>
    decreases Size(s), 1
  {
    if s == [] then [] else WriteSuffix(s[0]) + WriteSuffixes(s[1..])
  }

  function WriteSuffix(s: Layer): seq<Token>
    decreases LayerSize(s), 0
  {
    match s
    case PointerTo(_) => []
    case ArrayOf(size) => [LBracket] + (if size < 0 then [] else [IntLit(size)]) + [RBracket]
    case FunctionOf(params, variadic, hasPrototype) =>
      if params == [] then
        [LParen] + (if variadic then [Ellipsis] else if hasPrototype then [Spec(VOID)] else []) + [RParen]
      else [LParen] + WriteParams(params) + (if variadic then [Comma, Ellipsis] else []) + [RParen]
  }

  function WriteParams(params: seq<Param>): seq<Token>
    decreases ParamsSize(params), 1
  {
    if params == [] then []
    else if |params| == 1 then WriteParam(params[0])
    else WriteParam(params[0]) + [Comma] + WriteParams(params[1..])
  }

  function WriteParam(p: Param): seq<Token>
    decreases ParamSize(p), 0
  {
    QualTokens(p.quals) + [Spec(p.spec)] + Write(p.layers, "")
  }

  // ----- types that can be written -----

  /** Bounds fit an int. A list without a prototype is empty, an ellipsis comes after a parameter, and a single unnamed
      void means no parameters. */
  predicate LayersOk(d: seq<Layer>)
    decreases d
  {
    d == [] || (LayerOk(d[0]) && LayersOk(d[1..]))
  }

  predicate LayerOk(l: Layer)
    decreases l
  {
    match l
    case PointerTo(_) => true
    case ArrayOf(size) => -1 <= size <= INT_MAX
    case FunctionOf(params, variadic, hasPrototype) =>
      && (variadic ==> params != [])
      && (!hasPrototype ==> params == [])
      && params != [Param(VOID, NO_QUALS, [])]
      && forall p :: p in params ==> LayersOk(p.layers)
  }
}
