/** The declarator parser as it is written: type nodes on the heap, and a placeholder node that stands for what is not
    known yet inside parentheses and is patched out afterwards. */
module ParseDecl {
  import opened Qualifiers
  import opened Declarators
  import DeclaratorRoundTrip

  /** The number of the int specifier; a placeholder has this kind. */
  const INT: nat := 1

  datatype Kind = Basic(spec: nat) | PointerKind | ArrayKind | FunctionKind

  class Type {
    var kind: Kind
    var quals: Quals
    var pointee: Type?
    var elemType: Type?
    var arraySize: int
    var retType: Type?
    var params: seq<Type>
    var variadic: bool
    var hasPrototype: bool

    constructor (kind: Kind)
      ensures this.kind == kind && quals == NO_QUALS && pointee == null && elemType == null && retType == null
      ensures arraySize == -1 && params == [] && !variadic && hasPrototype
    {
      this.kind := kind;
      quals, pointee, elemType, retType := NO_QUALS, null, null, null;
      arraySize, params, variadic, hasPrototype := -1, [], false, true;
    }

    /** The node this one is built around; at most one of the three links is set. */
    ghost function Inner(): Type?
      reads this
    {
      if pointee != null then pointee else if elemType != null then elemType else retType
    }
  }

  // ----- what nodes on the heap stand for -----

  /** The nodes of a type from the outside in, each with the nodes of its parameters. */
  datatype Node = Node(at: Type, params: seq<Parameter>)
  datatype Parameter = Parameter(spec: Type, nodes: seq<Node>)

  function All(nodes: seq<Node>): set<Type>
    decreases nodes
  {
    if nodes == [] then {} else Own(nodes[0]) + All(nodes[1..])
  }

  function Own(n: Node): set<Type>
    decreases n
  {
    {n.at} + Parts(n.params)
  }

  function Parts(params: seq<Parameter>): set<Type>
    decreases params
  {
    if params == [] then {} else {params[0].spec} + All(params[0].nodes) + Parts(params[1..])
  }

  function Root(nodes: seq<Node>, base: Type): Type {
    if nodes == [] then base else nodes[0].at
  }

  /** The nodes show the layers one inside the other, down to base, and no node is used twice on the way. */
  ghost predicate Chain(nodes: seq<Node>, layers: seq<Layer>, base: Type)
    reads All(nodes)
    decreases nodes
  {
    if nodes == [] || layers == [] then nodes == [] && layers == []
    else
      && nodes[0].at !in Parts(nodes[0].params) && Own(nodes[0]) !! All(nodes[1..])
      && Shows(nodes[0], layers[0], Root(nodes[1..], base))
      && Chain(nodes[1..], layers[1..], base)
  }

  /** The node is layer l around next. */
  ghost predicate Shows(n: Node, l: Layer, next: Type)
    reads Own(n)
    decreases n
  {
    && Linked(n.at, l, next)
    && (l.FunctionOf? ==> ShowParams(n.params, l.params, n.at.params))
  }

  /** Layer l around next, apart from parameters. */
  ghost predicate Linked(t: Type, l: Layer, next: Type)
    reads t
  {
    match l
    case PointerTo(q) => t.kind == PointerKind && t.quals == q && t.pointee == next && t.elemType == null &&
      t.retType == null
    case ArrayOf(size) =>
      && t.kind == ArrayKind && t.quals == NO_QUALS && t.arraySize == size
      && t.elemType == next && t.pointee == null && t.retType == null
    case FunctionOf(_, v, h) =>
      && t.kind == FunctionKind && t.quals == NO_QUALS && t.variadic == v && t.hasPrototype == h
      && t.retType == next && t.pointee == null && t.elemType == null
  }

  ghost predicate ShowParams(nodes: seq<Parameter>, params: seq<Param>, types: seq<Type>)
    reads Parts(nodes)
    decreases nodes
  {
    && |nodes| == |params| == |types|
    && (nodes != [] ==> ShowsParam(nodes[0], params[0], types[0]) && ShowParams(nodes[1..], params[1..], types[1..]))
  }

  ghost predicate ShowsParam(n: Parameter, p: Param, t: Type)
    reads n.spec, All(n.nodes)
    decreases n
  {
    n.spec.kind == Basic(p.spec) && n.spec.quals == p.quals && t == Root(n.nodes, n.spec) &&
      Chain(n.nodes, p.layers, n.spec)
  }

  lemma {:induction false} AllJoin(a: seq<Node>, b: seq<Node>)
    ensures All(a + b) == All(a) + All(b)
    decreases |a|
  {
    if a == [] {
      assert a + b == b;
    } else {
      AllJoin(a[1..], b);
      assert (a + b)[1..] == a[1..] + b;
    }
  }

  lemma {:induction false} ChainJoin(a: seq<Node>, la: seq<Layer>, b: seq<Node>, lb: seq<Layer>, base: Type)
    requires Chain(b, lb, base) && Chain(a, la, Root(b, base)) && All(a) !! All(b)
    ensures Chain(a + b, la + lb, base) && Root(a + b, base) == Root(a, Root(b, base))
    decreases |a|
  {
    if a == [] {
      assert a + b == b && la + lb == lb;
    } else {
      ChainJoin(a[1..], la[1..], b, lb, base);
      AllJoin(a[1..], b);
      assert (a + b)[1..] == a[1..] + b && (la + lb)[1..] == la[1..] + lb;
    }
  }

  lemma {:induction false} RootWithin(nodes: seq<Node>)
    ensures if nodes == [] then All(nodes) == {} else nodes[0].at in All(nodes)
  {
  }

  lemma {:induction false} ChainCons(n: Node, l: Layer, nodes: seq<Node>, layers: seq<Layer>, base: Type)
    requires Chain(nodes, layers, base) && Shows(n, l, Root(nodes, base))
    requires n.at !in Parts(n.params) && Own(n) !! All(nodes)
    ensures Chain([n] + nodes, [l] + layers, base) && All([n] + nodes) == Own(n) + All(nodes)
  {
    assert ([n] + nodes)[1..] == nodes && ([l] + layers)[1..] == layers;
  }

  /** A node that is not in the chain is reached from its innermost node only; so a placeholder occurs once before it is
      patched and, by the contract of ReplacePlaceholder, nowhere afterwards. */
  lemma {:induction false} ReachedOnce(nodes: seq<Node>, layers: seq<Layer>, base: Type, t: Type, i: nat)
    requires Chain(nodes, layers, base) && t !in All(nodes) && i < |nodes|
    ensures nodes[i].at.Inner() == t <==> i == |nodes| - 1 && t == base
    decreases i
  {
    if |nodes| > 1 { assert nodes[1..][0] == nodes[1] && nodes[1].at in All(nodes[1..]); }
    if i > 0 { ReachedOnce(nodes[1..], layers[1..], base, t, i - 1); }
  }

  // ----- the parser -----

  function Rest<T>(s: seq<T>, present: bool): seq<T> {
    if present && s != [] then s[1..] else []
  }

  /** Puts replacement where the placeholder stands at the end of the chain that starts at node. */
  method ReplacePlaceholder(node: Type?, placeholder: Type, replacement: Type, ghost nodes: seq<Node>,
                            ghost layers: seq<Layer>, ghost repr: set<Type>)
    requires if node == null then nodes == [] else if nodes == [] then node.Inner() == null else node == nodes[0].at
    requires Chain(nodes, layers, placeholder) && placeholder !in repr && repr == All(nodes)
    modifies repr
    ensures Chain(nodes, layers, replacement)
    decreases |nodes|, if node == null then 0 else 1
  {
    if node == null { return; }
    if nodes != [] {
      ReachedOnce(nodes, layers, placeholder, placeholder, 0);
      if |nodes| == 1 { assert nodes[1..] == []; }
    }
    if node.pointee == placeholder {
      node.pointee := replacement;
      return;
    }
    if node.elemType == placeholder {
      node.elemType := replacement;
      return;
    }
    if node.retType == placeholder {
      node.retType := replacement;
      return;
    }
    ghost var elem, ret := node.elemType, node.retType;
    ReplacePlaceholder(node.pointee, placeholder, replacement, Rest(nodes, node.pointee != null),
                       Rest(layers, node.pointee != null), All(Rest(nodes, node.pointee != null)));
    assert node.elemType == elem && node.retType == ret;
    ReplacePlaceholder(node.elemType, placeholder, replacement, Rest(nodes, elem != null), Rest(layers, elem != null),
                       All(Rest(nodes, elem != null)));
    assert node.retType == ret;
    ReplacePlaceholder(node.retType, placeholder, replacement, Rest(nodes, ret != null), Rest(layers, ret != null),
                       All(Rest(nodes, ret != null)));
  }

  class DeclaratorParser {
    const tokens: seq<Token>
    var pos: nat

    constructor (tokens: seq<Token>)
      ensures this.tokens == tokens && pos == 0
    {
      this.tokens := tokens;
      pos := 0;
    }

    function Current(): Token
      reads this
    {
      At(tokens, pos)
    }

    method ParseQualifiers(q: Quals) returns (r: Quals)
      requires pos <= |tokens|
      modifies `pos
      ensures Declarators.ParseQualifiers(tokens, old(pos), q) == Quals1(r, pos) && pos <= |tokens|
    {
      r := q;
      while Current() == KwConst || Current() == KwVolatile
        invariant pos <= |tokens|
        invariant Declarators.ParseQualifiers(tokens, old(pos), q) == Declarators.ParseQualifiers(tokens, pos, r)
        decreases |tokens| - pos
      {
        r := if Current() == KwConst then r.(isConst := true) else r.(isVolatile := true);
        pos := pos + 1;
      }
    }

    method ParsePointer(base: Type)
      returns (r: Type, ghost nodes: seq<Node>, ghost layers: seq<Layer>, ghost repr: set<Type>)
      requires pos <= |tokens|
      modifies `pos
      ensures Declarators.ParsePointers(tokens, old(pos), []) == Layers1(layers, pos) && pos <= |tokens|
      ensures All(nodes) == repr && fresh(repr) && Chain(nodes, layers, base) && r == Root(nodes, base)
    {
      r, nodes, layers, repr := base, [], [], {};
      while Current() == Star
        invariant pos <= |tokens|
        invariant Declarators.ParsePointers(tokens, old(pos), []) == Declarators.ParsePointers(tokens, pos, layers)
        invariant All(nodes) == repr && fresh(repr) && Chain(nodes, layers, base) && r == Root(nodes, base)
        decreases |tokens| - pos
      {
        pos := pos + 1;
        var q := ParseQualifiers(NO_QUALS);
        assert Chain(nodes, layers, base);
        var pointer := new Type(PointerKind);
        assert pointer !in repr;
        assert Chain(nodes, layers, base);
        pointer.pointee := r;
        pointer.quals := q;
        assert Chain(nodes, layers, base);
        ChainCons(Node(pointer, []), PointerTo(q), nodes, layers, base);
        r, nodes, layers, repr := pointer, [Node(pointer, [])] + nodes, [PointerTo(q)] + layers, {pointer} + repr;
      }
    }

    method ParseDeclarator(base: Type) returns (r: Type?, name: string, ghost nodes: seq<Node>, ghost repr: set<Type>)
      requires pos <= |tokens|
      modifies `pos
      ensures ReadsDeclarator(Declarators.ParseDeclarator(tokens, old(pos)), r, name, nodes, base)
      ensures All(nodes) == repr && fresh(repr)
      decreases |tokens| - pos, 3
    {
      hide Declarators.ParseSuffix, Declarators.ParsePointers, Chain, All;
      var pointers, inside, insideLayers, insideRepr := ParsePointer(base);
      if Current() == LParen && !IsTypeName(At(tokens, pos + 1)) && At(tokens, pos + 1) != RParen {
        pos := pos + 1;
        r, name, nodes, repr := ParseNested(pointers, inside, insideLayers, insideRepr, base);
        return;
      }
      name := "";
      if Current().Ident? {
        name := Current().name;
        pos := pos + 1;
      }
      ghost var s := Declarators.ParseSuffix(tokens, pos);
      r, nodes, repr := ParseSuffix(pointers);
      if r == null { return; }
      Around(nodes, s.layers, inside, insideLayers, base);
      nodes, repr := nodes + inside, repr + insideRepr;
    }

    /** After the opening parenthesis: a declarator around a placeholder, then what the placeholder stands for. */
    method ParseNested(pointers: Type, ghost inside: seq<Node>, ghost insideLayers: seq<Layer>,
                       ghost insideRepr: set<Type>, ghost base: Type)
      returns (r: Type?, name: string, ghost nodes: seq<Node>, ghost repr: set<Type>)
      requires 0 < pos <= |tokens|
      requires Chain(inside, insideLayers, base) && pointers == Root(inside, base) && insideRepr == All(inside)
      modifies `pos
      ensures ReadsDeclarator(AfterNested(tokens, old(pos), insideLayers), r, name, nodes, base)
      ensures All(nodes) == repr && fresh(repr - insideRepr)
      decreases |tokens| - pos, 4
    {
      hide Declarators.ParseDeclarator, Declarators.ParseSuffix, Chain, All;
      nodes, repr := [], {};
      RootWithin(nodes);
      var placeholder := new Type(Basic(INT));
      ghost var d := Declarators.ParseDeclarator(tokens, pos);
      var inner;
      ghost var innerNodes, innerRepr;
      inner, name, innerNodes, innerRepr := ParseDeclarator(placeholder);
      if inner == null || Current() != RParen { return null, "", [], {}; }
      pos := pos + 1;
      ghost var s := Declarators.ParseSuffix(tokens, pos);
      var outer;
      ghost var outerNodes, outerRepr;
      outer, outerNodes, outerRepr := ParseSuffix(pointers);
      if outer == null { return null, "", [], {}; }
      Around(outerNodes, s.layers, inside, insideLayers, base);
      outerNodes, outerRepr := outerNodes + inside, outerRepr + insideRepr;
      ReplacePlaceholder(inner, placeholder, outer, innerNodes, d.layers, innerRepr);
      Around(innerNodes, d.layers, outerNodes, s.layers + insideLayers, base);
      nodes, repr := innerNodes + outerNodes, innerRepr + outerRepr;
      RootWithin(innerNodes);
      r := if inner == placeholder then outer else inner;
      assert d.layers + (s.layers + insideLayers) == d.layers + s.layers + insideLayers;
    }

    /** What is left when a declarator has been read: the chain of its layers around base. */
    ghost predicate ReadsDeclarator(d: Declarator, r: Type?, name: string, nodes: seq<Node>, base: Type)
      reads this, All(nodes)
    {
      if d.NoDeclarator? then r == null && nodes == []
      else r == Root(nodes, base) && name == d.name && pos == d.end <= |tokens| && Chain(nodes, d.layers, base)
    }

    method ParseSuffix(base: Type) returns (r: Type?, ghost nodes: seq<Node>, ghost repr: set<Type>)
      requires pos <= |tokens|
      modifies `pos
      ensures ReadsSuffix(Declarators.ParseSuffix(tokens, old(pos)), r, nodes, base)
      ensures All(nodes) == repr && fresh(repr)
      decreases |tokens| - pos, 2
    {
      if Current() == LBracket {
        r, nodes, repr := ParseArrayType(base);
      } else if Current() == LParen {
        ghost var list, h := Declarators.ParseParameterList(tokens, pos), At(tokens, pos + 1) != RParen;
        ghost var n, own;
        r, n, own := ParseFuncType(base);
        if r == null { return null, [], {}; }
        ghost var s := Declarators.ParseSuffix(tokens, pos);
        var inner;
        inner, nodes, repr := ParseSuffix(base);
        if inner == null { return null, [], {}; }
        r.retType := inner;
        ChainCons(n, FunctionOf(list.params, list.variadic, h), nodes, s.layers, base);
        nodes, repr := [n] + nodes, own + repr;
      } else {
        r, nodes, repr := base, [], {};
      }
    }

    ghost predicate ReadsSuffix(s: Layers1, r: Type?, nodes: seq<Node>, base: Type)
      reads this, All(nodes)
    {
      if s.NoLayers? then r == null && nodes == []
      else r == Root(nodes, base) && pos == s.pos <= |tokens| && Chain(nodes, s.layers, base)
    }

    method ParseArrayType(elemType: Type) returns (r: Type?, ghost nodes: seq<Node>, ghost repr: set<Type>)
      requires pos <= |tokens| && Current() == LBracket
      modifies `pos
      ensures ReadsSuffix(Declarators.ParseSuffix(tokens, old(pos)), r, nodes, elemType)
      ensures All(nodes) == repr && fresh(repr)
      decreases |tokens| - pos, 0
    {
      hide Chain;
      pos := pos + 1;
      var size: int := -1;
      if Current() != RBracket {
        if !Current().IntLit? || Current().value > INT_MAX { return null, [], {}; }
        size := Current().value;
        pos := pos + 1;
      }
      if Current() != RBracket { return null, [], {}; }
      pos := pos + 1;
      ghost var s := Declarators.ParseSuffix(tokens, pos);
      var inner;
      inner, nodes, repr := ParseSuffix(elemType);
      if inner == null { return null, [], {}; }
      r, nodes, repr := ArrayAround(inner, size, nodes, s.layers, elemType, repr);
    }

    method ArrayAround(inner: Type, size: int, ghost nodes: seq<Node>, ghost layers: seq<Layer>, ghost base: Type,
                       ghost repr: set<Type>)
      returns (r: Type, ghost nodes': seq<Node>, ghost repr': set<Type>)
      requires Chain(nodes, layers, base) && inner == Root(nodes, base) && repr == All(nodes)
      ensures Chain(nodes', [ArrayOf(size)] + layers, base) && r == Root(nodes', base)
      ensures All(nodes') == repr' && fresh(repr' - repr)
    {
      r := new Type(ArrayKind);
      r.elemType := inner;
      r.arraySize := size;
      ChainCons(Node(r, []), ArrayOf(size), nodes, layers, base);
      nodes', repr' := [Node(r, [])] + nodes, {r} + repr;
    }

    /** The function node around retType, and nothing of what follows the parameter list. */
    method ParseFuncType(retType: Type) returns (r: Type?, ghost n: Node, ghost own: set<Type>)
      requires pos <= |tokens| && Current() == LParen
      modifies `pos
      ensures ReadsFunction(Declarators.ParseParameterList(tokens, old(pos)), At(tokens, old(pos) + 1) != RParen, r, n,
                            retType)
      ensures r != null ==> Own(n) == own && fresh(own)
      decreases |tokens| - pos, 1
    {
      hide Declarators.ParseParameterList, ShowParams;
      own := {};
      var hasPrototype := At(tokens, pos + 1) != RParen;
      var ok, params, variadic;
      ghost var nodes, parts;
      ok, params, variadic, nodes, parts := ParseParameterList();
      if !ok { return null, Node(retType, []), {}; }
      r := new Type(FunctionKind);
      r.retType := retType;
      r.params, r.variadic, r.hasPrototype := params, variadic, hasPrototype;
      n, own := Node(r, nodes), {r} + parts;
    }

    method ParseParameterList()
      returns (ok: bool, params: seq<Type>, variadic: bool, ghost nodes: seq<Parameter>, ghost parts: set<Type>)
      requires pos <= |tokens| && Current() == LParen
      modifies `pos
      ensures ReadsParameters(Declarators.ParseParameterList(tokens, old(pos)), ok, params, variadic, nodes)
      ensures Parts(nodes) == parts && fresh(parts)
      decreases |tokens| - pos, 0
    {
      hide Declarators.ParseParameters, Chain, All, ShowsParam;
      params, variadic, nodes, parts := [], false, [], {};
      pos := pos + 1;
      if Current() != RParen {
        if Current() == Spec(VOID) && At(tokens, pos + 1) == RParen {
          pos := pos + 1;
        } else {
          ok, params, variadic, nodes, parts := ParseParameters();
          if !ok { return; }
        }
      }
      if Current() != RParen { return false, [], false, [], {}; }
      pos := pos + 1;
      ok := true;
    }

    ghost predicate ReadsFunction(list: Params1, hasPrototype: bool, r: Type?, n: Node, next: Type)
      reads this, Own(n)
    {
      if list.NoParams? then r == null
      else
        && r == n.at && n.at !in Parts(n.params) && pos == list.after <= |tokens|
        && Shows(n, FunctionOf(list.params, list.variadic, hasPrototype), next)
    }

    method ParseParameters()
      returns (ok: bool, params: seq<Type>, variadic: bool, ghost nodes: seq<Parameter>, ghost parts: set<Type>)
      requires pos <= |tokens|
      modifies `pos
      ensures ReadsParameters(Declarators.ParseParameters(tokens, old(pos), []), ok, params, variadic, nodes)
      ensures Parts(nodes) == parts && fresh(parts)
      decreases |tokens| - pos, 4
    {
      hide Declarators.ParseParameter, Chain, All, ShowsParam;
      params, variadic, nodes, parts := [], false, [], {};
      ghost var done: seq<Param> := [];
      ghost var all := Declarators.ParseParameters(tokens, pos, []);
      while true
        invariant old(pos) <= pos <= |tokens|
        invariant Declarators.ParseParameters(tokens, pos, done) == all
        invariant ShowParams(nodes, done, params) && Parts(nodes) == parts && fresh(parts)
        decreases |tokens| - pos
      {
        if Current() == Ellipsis {
          pos := pos + 1;
          return true, params, true, nodes, parts;
        }
        ghost var one := Declarators.ParseParameter(tokens, pos);
        var param;
        ghost var n, own;
        param, n, own := ParseParameter();
        if param == null { return false, [], false, [], {}; }
        ShowParamsAdd(nodes, done, params, n, one.param, param);
        params, nodes, done, parts := params + [param], nodes + [n], done + [one.param], parts + own;
        if Current() != Comma { return true, params, false, nodes, parts; }
        pos := pos + 1;
      }
    }

    ghost predicate ReadsParameters(list: Params1, ok: bool, params: seq<Type>, variadic: bool, nodes: seq<Parameter>)
      reads this, Parts(nodes)
    {
      && ok == list.Params1?
      && (ok ==> variadic == list.variadic && pos == list.after <= |tokens| && ShowParams(nodes, list.params, params))
    }

    method ParseParameter() returns (r: Type?, ghost n: Parameter, ghost own: set<Type>)
      requires pos <= |tokens|
      modifies `pos
      ensures ReadsParameter(Declarators.ParseParameter(tokens, old(pos)), r, n)
      ensures own == {n.spec} + All(n.nodes) && fresh(own)
      decreases |tokens| - pos, 3
    {
      hide Declarators.ParseDeclarator, Declarators.ParseQualifiers, Chain;
      var q := ParseQualifiers(NO_QUALS);
      var spec := new Type(Basic(if Current().Spec? then Current().spec else VOID));
      own, n := {spec}, Parameter(spec, []);
      if !Current().Spec? { return null, n, own; }
      pos := pos + 1;
      var trailing := ParseQualifiers(q);
      spec.quals := trailing;
      var name;
      ghost var nodes, repr;
      r, name, nodes, repr := ParseDeclarator(spec);
      n, own := Parameter(spec, nodes), {spec} + repr;
    }

    ghost predicate ReadsParameter(p: Param1, r: Type?, n: Parameter)
      reads this, n.spec, All(n.nodes)
    {
      if p.NoParam? then r == null
      else r != null && pos == p.next <= |tokens| && ShowsParam(n, p.param, r)
    }
  }

  /** Writing a type as a declarator and parsing that rebuilds the type on the heap, in new nodes around the same base,
      whatever follows the declarator. */
  method WriteThenParse(d: seq<Layer>, name: string, rest: seq<Token>, base: Type)
    returns (r: Type?, parsed: string, ghost nodes: seq<Node>)
    requires LayersOk(d) && DeclaratorRoundTrip.Ends(At(rest, 0))
    ensures parsed == name && r == Root(nodes, base) && Chain(nodes, d, base) && fresh(All(nodes))
  {
    hide Declarators.ParseDeclarator, Chain, All;
    DeclaratorRoundTrip.RoundTrip(d, name, rest);
    var parser := new DeclaratorParser(Write(d, name) + rest);
    ghost var repr;
    r, parsed, nodes, repr := parser.ParseDeclarator(base);
  }

  /** The declarator that follows an opening parenthesis at pos - 1, when inside are the pointers before it. */
  function AfterNested(tokens: seq<Token>, pos: nat, inside: seq<Layer>): Declarator
    requires pos <= |tokens|
  {
    match Declarators.ParseDeclarator(tokens, pos)
    case NoDeclarator => NoDeclarator
    case Declarator(inner, name, close) =>
      if At(tokens, close) != RParen then NoDeclarator
      else
        match Declarators.ParseSuffix(tokens, close + 1)
        case NoLayers => NoDeclarator
        case Layers1(suffix, end) => Declarator(inner + suffix + inside, name, end)
  }

  lemma {:induction false} Around(a: seq<Node>, la: seq<Layer>, b: seq<Node>, lb: seq<Layer>, base: Type)
    requires Chain(b, lb, base) && Chain(a, la, Root(b, base)) && All(a) !! All(b)
    ensures Chain(a + b, la + lb, base) && Root(a + b, base) == Root(a, Root(b, base)) && All(a + b) == All(a) + All(b)
  {
    ChainJoin(a, la, b, lb, base);
    AllJoin(a, b);
  }

  lemma {:induction false} PartsJoin(a: seq<Parameter>, b: seq<Parameter>)
    ensures Parts(a + b) == Parts(a) + Parts(b)
    decreases |a|
  {
    if a == [] {
      assert a + b == b;
    } else {
      PartsJoin(a[1..], b);
      assert (a + b)[1..] == a[1..] + b;
    }
  }

  lemma {:induction false} ShowParamsAdd(nodes: seq<Parameter>, params: seq<Param>, types: seq<Type>, n: Parameter,
                                         p: Param, t: Type)
    requires ShowParams(nodes, params, types) && ShowsParam(n, p, t)
    ensures ShowParams(nodes + [n], params + [p], types + [t])
    ensures Parts(nodes + [n]) == Parts(nodes) + {n.spec} + All(n.nodes)
    decreases |nodes|
  {
    PartsJoin(nodes, [n]);
    if nodes != [] {
      ShowParamsAdd(nodes[1..], params[1..], types[1..], n, p, t);
      assert (nodes + [n])[1..] == nodes[1..] + [n] && (params + [p])[1..] == params[1..] + [p] &&
             (types + [t])[1..] == types[1..] + [t];
    }
  }
}
