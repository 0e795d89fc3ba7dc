/** The typed C syntax tree that semantic analysis hands to code generation. Every expression carries its type, every
    identifier its declaration, and every conversion is an explicit node (docs/sema.md). */
module CAst {
  import opened Integers
  import opened Wrappers

  datatype IntKind =
    | Bool | Char | SChar | UChar | Short | UShort
    | Int | UInt | Long | ULong | LongLong | ULongLong

  /** Floating is float or double. Other stands for every type that no object can be generated for: the ones that have
      no lowering, and any type that is volatile. */
  datatype CType = Integer(kind: IntKind) | Pointer(pointee: CType) | Void | Floating | Other

  /** Widths in bits; _Bool is one bit and the character types are eight. */
  datatype Target = Target(shortBits: nat, intBits: nat, longBits: nat, longLongBits: nat) {
    predicate Valid() {
      shortBits >= 8 && intBits >= 8 && longBits >= 8 && longLongBits >= 8
    }

    function Width(kind: IntKind): (w: nat)
      requires Valid()
      ensures w > 0
    {
      match kind
      case Bool => 1
      case Char | SChar | UChar => 8
      case Short | UShort => shortBits
      case Int | UInt => intBits
      case Long | ULong => longBits
      case LongLong | ULongLong => longLongBits
    }

    /** The value of type kind congruent to v: what storing v into such an object leaves. */
    function Wrap(kind: IntKind, v: int): int
      requires Valid()
    {
      Reading(IsSigned(kind), Width(kind), Bits(Width(kind), v))
    }

    /** Conversion between integer types (C99 sections 6.3.1.2 and 6.3.1.3). */
    function Convert(to: IntKind, v: int): int
      requires Valid()
    {
      if to == Bool then (if v != 0 then 1 else 0) else Wrap(to, v)
    }
  }

  predicate IsSigned(kind: IntKind) {
    kind in {Char, SChar, Short, Int, Long, LongLong}
  }

  /** A variable or parameter. automatic is false for what code generation refuses as a local: globals, arrays, volatile
      objects and static or extern declarations. */
  datatype Decl = Decl(id: nat, ty: CType, automatic: bool)

  datatype CastKind = LValueToRValue | PointerCast | Arithmetic | OtherCast

  datatype BinOp =
    | Eq | Neq | Lt | Gt | Leq | Geq
    | Add | Sub | Mul
    | Assign
    | OtherOp

  predicate IsComparison(op: BinOp) {
    op in {Eq, Neq, Lt, Gt, Leq, Geq}
  }

  datatype Expr =
    | IntLit(val: int, ty: CType)
    | Ident(decl: Decl)
    | AddrOf(operand: Expr, ty: CType)
    | Deref(operand: Expr, ty: CType)
    | Cast(kind: CastKind, operand: Expr, ty: CType)
    | Call(callee: Option<string>, args: seq<Expr>, ty: CType)  // None: not a direct call
    | Binary(op: BinOp, lhs: Expr, rhs: Expr, ty: CType)
    | Unsupported(ty: CType)

  function TypeOf(e: Expr): CType {
    if e.Ident? then e.decl.ty else e.ty
  }

  datatype Stmt =
    | VarDecl(decl: Decl, init: Option<Expr>)
    | TypedefDecl
    | Compound(items: seq<Stmt>)
    | ExprStmt(expr: Option<Expr>)
    | If(cond: Expr, thn: Stmt, els: Option<Stmt>)
    | While(cond: Expr, body: Stmt)
    | For(start: Option<Stmt>, test: Option<Expr>, incr: Option<Expr>, body: Stmt)
    | Break
    | Continue
    | Return(value: Option<Expr>)
    | OtherItem

  /** prototyped: every declaration of the function lists its parameters. */
  datatype Signature = Signature(params: seq<CType>, ret: CType, variadic: bool, prototyped: bool)

  datatype Function = Function(name: string, params: seq<Decl>, ret: CType, body: seq<Stmt>)

  /** What an expression or statement is compiled against: the target and the declared functions. */
  datatype Context = Context(target: Target, functions: map<string, Signature>)
}

/** Storage shared by the source semantics and the generated code: cells addressed by allocation order, the addresses
    that have been passed to callees, and the calls made so far. */
module Storage {
  import opened Integers

  /** A cell of width zero stands for no object: its address is that of a null or a dangling pointer. */
  datatype Cell = Cell(width: nat, bits: nat) {
    predicate Valid() { bits < Pow2(width) }
  }

  datatype Arg = IntArg(bits: nat) | PtrArg(addr: nat)

  /** What an observer sees of a call. Addresses are not observable as numbers: a pointer shows as its position among
      the exposed objects, which also reveals which pointers are equal. */
  datatype ArgView = IntView(bits: nat) | PtrView(position: nat)
  datatype Event = Event(callee: string, args: seq<ArgView>, visible: seq<Cell>)

  /** A callee's answer: a result and new contents for the objects it can reach. */
  datatype Reply = Reply(result: int, writes: seq<int>)

  /** The environment: how callees answer, as a function of all calls so far, and what an object of a given width holds
      before its first store. */
  datatype World = World(reply: seq<Event> -> Reply, indeterminate: nat -> int)

  datatype Store = Store(mem: seq<Cell>, exposed: seq<nat>, trace: seq<Event>) {
    ghost predicate Valid() {
      && (forall a :: 0 <= a < |mem| ==> mem[a].Valid())
      && (forall i :: 0 <= i < |exposed| ==> exposed[i] < |mem|)
      && (forall i, j :: 0 <= i < j < |exposed| ==> exposed[i] != exposed[j])
    }

    /** A new object of the given width; its address is |mem|. */
    function Allocate(w: World, width: nat): Store {
      this.(mem := mem + [Cell(width, Bits(width, w.indeterminate(width)))])
    }

    function Write(addr: nat, bits: nat): Store
      requires addr < |mem|
    {
      this.(mem := mem[addr := Cell(mem[addr].width, bits)])
    }
  }

  /** The caller's objects, every one of them known to callees, before any call. */
  function AllExposed(mem: seq<Cell>): Store {
    Store(mem, seq(|mem|, i => i), [])
  }

  function IndexOf(s: seq<nat>, x: nat): (i: nat)
    requires x in s
    ensures i < |s| && s[i] == x
  {
    if s[0] == x then 0 else 1 + IndexOf(s[1..], x)
  }

  /** The exposed objects once the pointers among args have been passed. */
  function Expose(exposed: seq<nat>, args: seq<Arg>): (r: seq<nat>)
    ensures exposed <= r
    decreases args
  {
    if args == [] then exposed
    else Expose(ExposeOne(exposed, args[0]), args[1..])
  }

  function ExposeOne(exposed: seq<nat>, arg: Arg): (r: seq<nat>)
    ensures exposed <= r
  {
    if arg.PtrArg? && arg.addr !in exposed then exposed + [arg.addr] else exposed
  }

  function View(exposed: seq<nat>, arg: Arg): ArgView {
    match arg
    case IntArg(b) => IntView(b)
    case PtrArg(a) => PtrView(if a in exposed then IndexOf(exposed, a) else |exposed|)
  }

  function CellAt(mem: seq<Cell>, a: nat): Cell {
    if a < |mem| then mem[a] else Cell(1, 0)
  }

  /** The cell at address a after a callee has rewritten the exposed objects. */
  function Rewritten(mem: seq<Cell>, exposed: seq<nat>, writes: seq<int>, a: nat): Cell
    requires a < |mem|
  {
    if a in exposed && IndexOf(exposed, a) < |writes|
    then Cell(mem[a].width, Bits(mem[a].width, writes[IndexOf(exposed, a)]))
    else mem[a]
  }

  function CallEvent(callee: string, args: seq<Arg>, st: Store): Event {
    var exposed := Expose(st.exposed, args);
    Event(callee,
          seq(|args|, i requires 0 <= i < |args| => View(exposed, args[i])),
          seq(|exposed|, i requires 0 <= i < |exposed| => CellAt(st.mem, exposed[i])))
  }

  /** The effect of a call on storage. */
  function AfterCall(w: World, callee: string, args: seq<Arg>, st: Store): Store {
    var exposed := Expose(st.exposed, args);
    var trace := st.trace + [CallEvent(callee, args, st)];
    var writes := w.reply(trace).writes;
    Store(seq(|st.mem|, a requires 0 <= a < |st.mem| => Rewritten(st.mem, exposed, writes, a)),
          exposed, trace)
  }

  /** The bits a call returns, given the storage after it. */
  function ReplyBits(w: World, width: nat, after: Store): (b: nat)
    ensures b < Pow2(width)
  {
    Bits(width, w.reply(after.trace).result)
  }
}
