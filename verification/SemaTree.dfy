/** The tree semantic analysis builds: the parsed expression with a type on every node, a declaration on every name, and
    the implicit conversions as nodes of their own. */
module SemaTree {
  import P = ParseExpr
  import opened SemaTypes
  import opened Wrappers

  datatype Suffix = NoSuffix | U | L | UL | LL | ULL | BadSuffix

  /** What the spelling of a literal says. nondecimal: octal or hexadecimal. */
  datatype Literal =
    | IntegerLiteral(value: nat, nondecimal: bool, suffix: Suffix)
    | CharacterLiteral
    | FloatingLiteral(size: Option<FloatKind>)  // None: the suffix is invalid
    | StringLiteral(length: nat)

  datatype StorageClass = Unspecified | Auto | Register | Static | Extern

  /** A declaration. id tells declarations apart; it stands for the identity of the syntax node. */
  datatype Symbol =
    | Variable(id: nat, ty: DeclaredType, storage: StorageClass, isGlobal: bool, isParameter: bool)
    | Routine(ty: DeclaredType, storage: StorageClass)
    | TypeName(ty: DeclaredType)

  type VariableSymbol = d: Symbol | d.Variable? witness Variable(0, INT, Unspecified, false, false)

  type Scope = map<string, Symbol>

  datatype Conversion =
    | LValueToRValue | ArrayToPointer | FunctionToPointer | NullToPointer | PointerConversion | Arithmetic
    | DefaultPromotion

  datatype Node =
    | Constant(text: string, literal: Literal)
    | Name(name: string, symbol: Symbol)
    | Unary(op: P.UnaryOp, operand: Typed)
    | Binary(bop: P.BinaryOp, lhs: Typed, rhs: Typed, computation: Option<Type>)  // the type an assignment computes in
    | Ternary(cond: Typed, thn: Typed, els: Typed)
    | Call(callee: Typed, args: seq<Typed>)
    | Index(base: Typed, index: Typed)
    | Sizeof(sized: Typed)
    | Implicit(kind: Conversion, converted: Typed)

  datatype Typed = Typed(node: Node, ty: Type, lval: bool)

  /** The expression without what analysis added. */
  function Plain(t: Typed): P.Expr
    decreases t
  {
    match t.node
    case Constant(text, _) => P.Leaf(P.Literal(text))
    case Name(name, _) => P.Leaf(P.Ident(name))
    case Unary(op, e) => P.Unary(op, Plain(e))
    case Binary(op, a, b, _) => P.Binary(op, Plain(a), Plain(b))
    case Ternary(c, a, b) => P.Ternary(Plain(c), Plain(a), Plain(b))
    case Call(f, args) => P.Call(Plain(f), PlainAll(args))
    case Index(a, b) => P.Index(Plain(a), Plain(b))
    case Sizeof(e) => P.Sizeof(Plain(e))
    case Implicit(_, e) => Plain(e)
  }

  function PlainAll(ts: seq<Typed>): (es: seq<P.Expr>)
    ensures |es| == |ts|
    decreases ts
  {
    if ts == [] then [] else [Plain(ts[0])] + PlainAll(ts[1..])
  }

  /** The declaration a name refers to: that of the innermost scope that has one. */
  function Lookup(scopes: seq<Scope>, name: string): (d: Option<Symbol>)
    ensures d.Some? ==> exists i :: 0 <= i < |scopes| && name in scopes[i] && d.value == scopes[i][name]
                               && forall j :: i < j < |scopes| ==> name !in scopes[j]
    ensures d.None? ==> forall i :: 0 <= i < |scopes| ==> name !in scopes[i]
  {
    if scopes == [] then None
    else
      var inner := scopes[|scopes| - 1];
      if name in inner then Some(inner[name]) else Lookup(scopes[..|scopes| - 1], name)
  }

  // ----- statements -----

  /** A variable as it is declared. */
  datatype VarSpec = VarSpec(name: string, ty: DeclaredType, storage: StorageClass)

  /** A declared variable together with the declaration it became. */
  datatype DeclaredVar = DeclaredVar(spec: VarSpec, symbol: Symbol)

  datatype Stmt<V, E> =
    | Declaration(v: V, init: Option<E>)
    | Typedef(name: string, ty: DeclaredType)
    | Block(items: seq<Stmt<V, E>>)
    | Expression(e: Option<E>)
    | If(cond: E, thn: Stmt<V, E>, els: Option<Stmt<V, E>>)
    | While(cond: E, body: Stmt<V, E>)
    | For(start: Option<Stmt<V, E>>, test: Option<E>, incr: Option<E>, body: Stmt<V, E>)
    | Break
    | Continue
    | Return(value: Option<E>)
    | Tag(sort: TagKind, tag: string)
    | OtherStmt

  type ParsedStmt = Stmt<VarSpec, P.Expr>
  type TypedStmt = Stmt<DeclaredVar, Typed>

  predicate IsDeclaration(s: ParsedStmt) {
    s.Declaration? || s.Typedef? || s.Tag?
  }

  /** Declarations stand only in blocks and at the start of a for statement. */
  predicate Grammatical(s: ParsedStmt)
    decreases s
  {
    match s
    case Block(items) => forall i :: i in items ==> Grammatical(i)
    case If(_, thn, els) =>
      && !IsDeclaration(thn) && Grammatical(thn)
      && (els.Some? ==> !IsDeclaration(els.value) && Grammatical(els.value))
    case While(_, body) => !IsDeclaration(body) && Grammatical(body)
    case For(start, _, _, body) =>
      && (start.Some? ==> IsDeclaration(start.value) || start.value.Expression?)
      && !IsDeclaration(body) && Grammatical(body)
    case _ => true
  }

  function PlainOption(e: Option<Typed>): Option<P.Expr> {
    if e.None? then None else Some(Plain(e.value))
  }

  /** The statement without what analysis added. */
  function PlainStmt(s: TypedStmt): ParsedStmt
    decreases s
  {
    match s
    case Declaration(v, init) => Declaration(v.spec, PlainOption(init))
    case Typedef(name, ty) => Typedef(name, ty)
    case Block(items) => Block(PlainItems(items))
    case Expression(e) => Expression(PlainOption(e))
    case If(cond, thn, els) => If(Plain(cond), PlainStmt(thn), if els.None? then None else Some(PlainStmt(els.value)))
    case While(cond, body) => While(Plain(cond), PlainStmt(body))
    case For(start, test, incr, body) =>
      For(if start.None? then None else Some(PlainStmt(start.value)), PlainOption(test), PlainOption(incr),
          PlainStmt(body))
    case Break => Break
    case Continue => Continue
    case Return(value) => Return(PlainOption(value))
    case Tag(sort, tag) => Tag(sort, tag)
    case OtherStmt => OtherStmt
  }

  function PlainItems(items: seq<TypedStmt>): (r: seq<ParsedStmt>)
    ensures |r| == |items|
    decreases items
  {
    if items == [] then [] else [PlainStmt(items[0])] + PlainItems(items[1..])
  }

  // ----- translation units -----

  datatype FunctionSpec = FunctionSpec(name: string, ty: FunctionType, storage: StorageClass, paramNames: seq<string>,
                                       body: Option<seq<ParsedStmt>>)

  datatype External =
    | FunctionItem(f: FunctionSpec)
    | VariableItem(v: VarSpec, init: Option<P.Expr>)
    | TypedefItem(name: string, ty: DeclaredType)
    | TagItem(sort: TagKind, tag: string)

  /** An analyzed definition. */
  datatype TypedFunction = TypedFunction(name: string, ty: FunctionType, params: seq<VariableSymbol>,
                                         body: seq<TypedStmt>)

  /** A function has no more names than parameters. */
  predicate GrammaticalFunction(f: FunctionSpec) {
    && |f.paramNames| <= |f.ty.params|
    && (f.body.Some? ==> forall i :: i in f.body.value ==> Grammatical(i))
  }

  /** The definitions of a unit, in order. */
  function Definitions(decls: seq<External>): seq<FunctionSpec>
    decreases |decls|
  {
    if decls == [] then []
    else
      var last := decls[|decls| - 1];
      Definitions(decls[..|decls| - 1]) + if last.FunctionItem? && last.f.body.Some? then [last.f] else []
  }

  predicate GrammaticalUnit(decls: seq<External>) {
    forall d :: d in decls && d.FunctionItem? ==> GrammaticalFunction(d.f)
  }
}
