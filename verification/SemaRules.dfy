/** What semantic analysis accepts, said without an error flag: how each statement and declaration that is accepted
    leaves the scopes and the count of variables, and None for what is not. The analyzer goes on after an error; that it
    reports one exactly where these functions give None is part of its contract. */
module SemaRules {
  import P = ParseExpr
  import opened SemaConversions
  import opened SemaExpr
  import opened SemaStmt
  import opened SemaTags
  import opened SemaTree
  import opened SemaTypes
  import opened SemaUnit
  import opened SymbolTables
  import opened Wrappers

  /** The scopes, the number of the next variable, and the known tags. */
  datatype Place = Place(scopes: seq<Scope>, next: nat, tags: Tags) {
    function Inner(): Place { this.(scopes := scopes + [map[]]) }
  }

  /** Where a statement stands: in a function that returns ret, inside depth loops. */
  datatype Rules = Rules(platform: Platform, decode: string -> Literal, ret: DeclaredType, depth: nat) {
    function In(scopes: seq<Scope>): Setting { Setting(platform, decode, scopes) }
    function Deeper(): Rules { this.(depth := depth + 1) }
  }

  // ----- expressions -----

  predicate AcceptedOption(s: Setting, e: Option<P.Expr>)
    requires s.Valid()
  {
    e.Some? ==> Analyze(s, e.value).Some?
  }

  predicate AcceptedTest(s: Setting, e: Option<P.Expr>)
    requires s.Valid()
  {
    e.Some? ==> Analyze(s, e.value).Some? && Value(Analyze(s, e.value).value).ty.IsScalar()
  }

  predicate AcceptedAs(s: Setting, e: Option<P.Expr>, to: Type)
    requires s.Valid()
  {
    e.Some? ==> Analyze(s, e.value).Some? && Convert(Analyze(s, e.value).value, to).Some?
  }

  // ----- variables and type names -----

  /** A variable can have this type and storage class. */
  predicate ObjectType(ty: Type, storage: StorageClass, global: bool) {
    && !ty.Void? && !ty.Function?
    && (storage == Extern || ty.IsComplete() || (global && ty.Array? && ty.bound < 0))
    && !(global && (storage == Auto || storage == Register))
  }

  /** A variable can be declared again after previous. */
  predicate MayRedeclare(previous: Symbol, storage: StorageClass, ty: Type, global: bool, parameter: bool) {
    && !parameter && previous.Variable? && !previous.isParameter && global
    && !LinkageConflict(previous.storage, storage) && Compatible(previous.ty, ty, false)
  }

  predicate LinkageConflict(previous: StorageClass, next: StorageClass) {
    (next == Static && previous != Static) || (previous == Static && next == Unspecified)
  }

  /** An array without a bound takes the bound of a previous declaration. */
  function Completed(ty: DeclaredType, previous: Type): DeclaredType {
    if ty.Array? && ty.bound < 0 && previous.Array? then ty.(bound := previous.bound) else ty
  }

  function AdjustedType(ty: DeclaredType): DeclaredType {
    NormalizedWellFormed(ty);
    Normalized(ty)
  }

  /** The type that a variable gets, if it can be declared in the scope. */
  function VariableType(v: VarSpec, global: bool, parameter: bool, scope: Scope): Option<DeclaredType> {
    var ty := AdjustedType(v.ty);
    if !ArrayParamsValid(v.ty) || !Valid(ty) || !(parameter || ObjectType(ty, v.storage, global)) then None
    else if v.name !in scope then Some(ty)
    else if !MayRedeclare(scope[v.name], v.storage, ty, global, parameter) then None
    else Some(Completed(ty, scope[v.name].ty))
  }

  function VariableAfter(v: VarSpec, global: bool, parameter: bool, at: Place): (p: Option<Place>)
    requires at.scopes != []
    ensures p.Some? ==> |p.value.scopes| == |at.scopes| && v.name in Top(p.value.scopes)
  {
    var ty, tags := VariableType(v, global, parameter, Top(at.scopes)), TagsAfter(v.ty, at.tags);
    if ty.None? || tags.None? then None
    else
      var d := Variable(at.next, ty.value, v.storage, global, parameter);
      Some(Place(Bound(at.scopes, v.name, d), at.next + 1, tags.value))
  }

  /** The type that a type name gets, if it can be declared in the scope. */
  function TypeNameType(name: string, declared: DeclaredType, scope: Scope): Option<DeclaredType> {
    var ty := AdjustedType(declared);
    if !ArrayParamsValid(declared) || !Valid(ty) then None
    else if name !in scope then Some(ty)
    else if !(scope[name].TypeName? && Compatible(scope[name].ty, ty, false)) then None
    else Some(Completed(ty, scope[name].ty))
  }

  function TypedefAfter(name: string, declared: DeclaredType, at: Place): (p: Option<Place>)
    requires at.scopes != []
    ensures p.Some? ==> |p.value.scopes| == |at.scopes|
  {
    var ty, tags := TypeNameType(name, declared, Top(at.scopes)), TagsAfter(declared, at.tags);
    if ty.None? || tags.None? then None
    else Some(Place(Bound(at.scopes, name, TypeName(ty.value)), at.next, tags.value))
  }

  /** A variable with its initializer, which sees the variable. */
  function InitializedAfter(s: Setting, v: VarSpec, init: Option<P.Expr>, global: bool, at: Place): (p: Option<Place>)
    requires s.Valid() && at.scopes != []
    ensures p.Some? ==> |p.value.scopes| == |at.scopes|
  {
    match VariableAfter(v, global, false, at)
    case None => None
    case Some(p) =>
      if AcceptedAs(s.(scopes := p.scopes), init, Top(p.scopes)[v.name].ty) then Some(p) else None
  }

  /** The declaration of a tag alone. */
  function DeclaredTag(sort: TagKind, tag: string, at: Place): (p: Option<Place>)
    ensures p.Some? ==> p.value.scopes == at.scopes
  {
    match TagAfter(sort, tag, at.tags)
    case None => None
    case Some(tags) => Some(at.(tags := tags))
  }

  // ----- statements -----

  function StmtAfter(r: Rules, stmt: ParsedStmt, at: Place): (p: Option<Place>)
    requires r.platform.target.Valid() && at.scopes != []
    ensures p.Some? ==> |p.value.scopes| == |at.scopes|
    decreases stmt, 2
  {
    var here := r.In(at.scopes);
    match stmt
    case Declaration(v, init) => InitializedAfter(here, v, init, false, at)
    case Typedef(name, ty) => TypedefAfter(name, ty, at)
    case Block(items) =>
      (match ItemsAfter(r, items, at.Inner())
       case None => None
       case Some(p) => Some(p.(scopes := at.scopes)))
    case Expression(e) => if AcceptedOption(here, e) then Some(at) else None
    case If(cond, thn, els) =>
      if !AcceptedTest(here, Some(cond)) then None
      else
        (match StmtAfter(r, thn, at)
         case None => None
         case Some(p) => if els.None? then Some(p) else StmtAfter(r, els.value, p))
    case While(cond, body) =>
      if !AcceptedTest(here, Some(cond)) then None else StmtAfter(r.Deeper(), body, at)
    case For(_, _, _, _) => ForAfter(r, stmt, at)
    case Break => if r.depth > 0 then Some(at) else None
    case Continue => if r.depth > 0 then Some(at) else None
    case Return(value) =>
      if value.Some? != r.ret.Void? && AcceptedAs(here, value, r.ret) then Some(at) else None
    case Tag(sort, tag) => DeclaredTag(sort, tag, at)
    case OtherStmt => None
  }

  /** The variable of a for statement is in scope in its test, increment and body, and gone afterwards. */
  function ForAfter(r: Rules, stmt: ParsedStmt, at: Place): (p: Option<Place>)
    requires r.platform.target.Valid() && at.scopes != [] && stmt.For?
    ensures p.Some? ==> p.value.scopes == at.scopes
    decreases stmt, 1
  {
    match StartAfter(r, stmt, at.Inner())
    case None => None
    case Some(p) =>
      match LoopAfter(r, stmt, p)
      case None => None
      case Some(q) => Some(q.(scopes := at.scopes))
  }

  function LoopAfter(r: Rules, stmt: ParsedStmt, at: Place): (p: Option<Place>)
    requires r.platform.target.Valid() && at.scopes != [] && stmt.For?
    ensures p.Some? ==> |p.value.scopes| == |at.scopes|
    decreases stmt, 0
  {
    if !AcceptedTest(r.In(at.scopes), stmt.test) || !AcceptedOption(r.In(at.scopes), stmt.incr) then None
    else StmtAfter(r.Deeper(), stmt.body, at)
  }

  function StartAfter(r: Rules, stmt: ParsedStmt, at: Place): (p: Option<Place>)
    requires r.platform.target.Valid() && at.scopes != [] && stmt.For?
    ensures p.Some? ==> |p.value.scopes| == |at.scopes|
    decreases stmt, 0
  {
    if stmt.start.None? then Some(at)
    else if !MayStart(stmt.start.value) then None
    else StmtAfter(r, stmt.start.value, at)
  }

  /** The first part of a for statement declares automatic variables only. */
  predicate MayStart(start: ParsedStmt) {
    !start.Typedef? && !start.Tag? && (start.Declaration? ==> start.v.storage in {Unspecified, Auto, Register})
  }

  function ItemsAfter(r: Rules, items: seq<ParsedStmt>, at: Place): (p: Option<Place>)
    requires r.platform.target.Valid() && at.scopes != []
    ensures p.Some? ==> |p.value.scopes| == |at.scopes|
    decreases items
  {
    if items == [] then Some(at)
    else
      match StmtAfter(r, items[0], at)
      case None => None
      case Some(p) => ItemsAfter(r, items[1..], p)
  }

  lemma {:induction false} ItemsThen(r: Rules, items: seq<ParsedStmt>, i: nat, at: Place)
    requires r.platform.target.Valid() && at.scopes != [] && i < |items|
    ensures ItemsAfter(r, items[i..], at)
         == match StmtAfter(r, items[i], at) case None => None case Some(p) => ItemsAfter(r, items[i + 1..], p)
  {
    assert items[i..][0] == items[i] && items[i..][1..] == items[i + 1..];
  }

  // ----- translation units -----

  predicate DifferentNames(names: seq<string>) {
    forall i, j :: 0 <= i < j < |names| && names[i] != "" ==> names[i] != names[j]
  }

  /** What a function declaration must satisfy by itself. */
  predicate FunctionOk(f: FunctionSpec) {
    ArrayParamsValid(f.ty) && Valid(Shape(f)) && DifferentNames(f.paramNames) && f.storage !in {Auto, Register}
  }

  /** The parameters from number i on, declared one after another. */
  function ParamsAfter(f: FunctionSpec, i: nat, at: Place): (p: Option<Place>)
    requires i <= |f.paramNames| <= |f.ty.params| && at.scopes != []
    ensures p.Some? ==> |p.value.scopes| == |at.scopes|
    decreases |f.paramNames| - i
  {
    if i == |f.paramNames| then Some(at)
    else
      var name, ty := f.paramNames[i], Shape(f).params[i];
      if name == "" || !ty.IsComplete() then None
      else
        match VariableAfter(VarSpec(name, ty, Unspecified), false, true, at)
        case None => None
        case Some(p) => ParamsAfter(f, i + 1, p)
  }

  /** A definition's body, in the scope of its parameters. */
  function BodyAfter(platform: Platform, decode: string -> Literal, f: FunctionSpec, at: Place): (p: Option<Place>)
    requires platform.target.Valid() && GrammaticalFunction(f) && f.body.Some? && at.scopes != []
    ensures p.Some? ==> p.value.scopes == at.scopes
  {
    var ret := Shape(f).ret;
    if |f.paramNames| != |Shape(f).params| || !(ret.Void? || ret.IsComplete()) then None
    else
      match InnerAfter(Rules(platform, decode, ret, 0), f, at.Inner())
      case None => None
      case Some(q) => Some(q.(scopes := at.scopes))
  }

  /** Parameters and body, in the scope they share. */
  function InnerAfter(r: Rules, f: FunctionSpec, at: Place): (p: Option<Place>)
    requires r.platform.target.Valid() && GrammaticalFunction(f) && f.body.Some? && at.scopes != []
    ensures p.Some? ==> |p.value.scopes| == |at.scopes|
  {
    match ParamsAfter(f, 0, at)
    case None => None
    case Some(p) => ItemsAfter(r, f.body.value, p)
  }

  datatype FileScope = FileScope(scope: Scope, definitions: map<string, FunctionSpec>, next: nat, tags: Tags) {
    function AsPlace(): Place { Place([scope], next, tags) }
    function With(p: Place): FileScope
      requires |p.scopes| == 1
    {
      FileScope(p.scopes[0], definitions, p.next, p.tags)
    }
  }

  function ExternalAfter(platform: Platform, decode: string -> Literal, d: External, at: FileScope): Option<FileScope>
    requires platform.target.Valid() && (d.FunctionItem? ==> GrammaticalFunction(d.f))
  {
    var place := at.AsPlace();
    match d
    case FunctionItem(f) => FunctionAfter(platform, decode, f, at)
    case VariableItem(v, init) =>
      (match InitializedAfter(Setting(platform, decode, place.scopes), v, init, true, place)
       case None => None
       case Some(p) => Some(at.With(p)))
    case TypedefItem(name, ty) =>
      (match TypedefAfter(name, ty, place)
       case None => None
       case Some(p) => Some(at.With(p)))
    case TagItem(sort, tag) =>
      (match DeclaredTag(sort, tag, place)
       case None => None
       case Some(p) => Some(at.With(p)))
  }

  function FunctionAfter(platform: Platform, decode: string -> Literal, f: FunctionSpec,
                         at: FileScope): Option<FileScope>
    requires platform.target.Valid() && GrammaticalFunction(f)
  {
    var tags := TagsAfter(f.ty, at.tags);
    if tags.None? || !FunctionOk(f) || !MayDeclare(at.scope, at.definitions, f) then None
    else
      var declared := FileScope(BindFunction(at.scope, f), Define(at.definitions, f), at.next, tags.value);
      if f.body.None? then Some(declared)
      else
        match BodyAfter(platform, decode, f, declared.AsPlace())
        case None => None
        case Some(p) => Some(declared.With(p))
  }

  function UnitAfter(platform: Platform, decode: string -> Literal, decls: seq<External>): Option<FileScope>
    requires platform.target.Valid() && GrammaticalUnit(decls)
    decreases |decls|
  {
    if decls == [] then Some(FileScope(map[], map[], 0, map[]))
    else
      var n := |decls| - 1;
      assert decls[n] in decls;
      match UnitAfter(platform, decode, decls[..n])
      case None => None
      case Some(at) => ExternalAfter(platform, decode, decls[n], at)
  }
}
