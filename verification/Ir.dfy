/** The generated program: blocks of operations over SSA values, and the machine that runs it. This stands in for the
    arith, cf, func and tensorium operations the code generator creates. */
module Ir {
  import opened Wrappers
  import opened Integers
  import opened Storage

  datatype MType = I(width: nat) | Ptr(pointee: MType) {
    function WidthOr(default: nat): nat {
      if I? then width else default
    }
  }

  datatype Predicate = EQ | NE | SLT | SLE | SGT | SGE | ULT | ULE | UGT | UGE

  datatype ArithKind = AddI | SubI | MulI

  /** Values are numbered; the entry block's arguments come first. */
  datatype Op =
    | ConstantInt(result: nat, width: nat, constant: int)
    | CmpI(result: nat, pred: Predicate, width: nat, lhs: nat, rhs: nat)
    | ArithI(result: nat, kind: ArithKind, width: nat, lhs: nat, rhs: nat)
    | TruncI(result: nat, to: nat, operand: nat)
    | ExtSI(result: nat, from: nat, to: nat, operand: nat)
    | ExtUI(result: nat, to: nat, operand: nat)
    | Alloca(result: nat, elem: MType)
    | LoadOp(result: nat, elem: MType, addr: nat)
    | StoreOp(stored: nat, addr: nat)
    | CallOp(returned: Option<nat>, callee: string, args: seq<nat>)
    | Branch(target: nat)
    | CondBranch(condition: nat, ifTrue: nat, ifFalse: nat)
    | ReturnOp(answer: Option<nat>)

  predicate IsTerminator(op: Op) {
    op.Branch? || op.CondBranch? || op.ReturnOp?
  }

  /** The values an operation uses. */
  function Uses(op: Op): set<nat> {
    match op
    case CmpI(_, _, _, x, y) => {x, y}
    case ArithI(_, _, _, x, y) => {x, y}
    case TruncI(_, _, x) => {x}
    case ExtSI(_, _, _, x) => {x}
    case ExtUI(_, _, x) => {x}
    case LoadOp(_, _, p) => {p}
    case StoreOp(x, p) => {x, p}
    case CallOp(_, _, args) => set x | x in args
    case CondBranch(x, _, _) => {x}
    case ReturnOp(Some(x)) => {x}
    case _ => {}
  }

  /** The value an operation defines. */
  function Defines(op: Op): Option<nat> {
    match op
    case ConstantInt(r, _, _) => Some(r)
    case CmpI(r, _, _, _, _) => Some(r)
    case ArithI(r, _, _, _, _) => Some(r)
    case TruncI(r, _, _) => Some(r)
    case ExtSI(r, _, _, _) => Some(r)
    case ExtUI(r, _, _) => Some(r)
    case Alloca(r, _) => Some(r)
    case LoadOp(r, _, _) => Some(r)
    case CallOp(r, _, _) => r
    case _ => None
  }

  /** An erased block keeps its number and nothing else. */
  datatype Block = Block(ops: seq<Op>, erased: bool)

  // ----- the machine -----

  datatype Reg = IntReg(bits: nat) | PtrReg(addr: nat)

  datatype Core = Core(regs: map<nat, Reg>, store: Store) {
    predicate HasInt(id: nat, width: nat) {
      id in regs && regs[id].IntReg? && regs[id].bits < Pow2(width)
    }
    predicate HasPtr(id: nat) {
      id in regs && regs[id].PtrReg? && regs[id].addr < |store.mem|
    }
    function Set(id: nat, r: Reg): Core {
      this.(regs := regs[id := r])
    }
  }

  function Holds(p: Predicate, width: nat, a: nat, b: nat): bool
    requires width > 0 && a < Pow2(width) && b < Pow2(width)
  {
    match p
    case EQ => a == b
    case NE => a != b
    case SLT => Signed(width, a) < Signed(width, b)
    case SLE => Signed(width, a) <= Signed(width, b)
    case SGT => Signed(width, a) > Signed(width, b)
    case SGE => Signed(width, a) >= Signed(width, b)
    case ULT => a < b
    case ULE => a <= b
    case UGT => a > b
    case UGE => a >= b
  }

  function ArithBits(kind: ArithKind, width: nat, a: nat, b: nat): nat {
    match kind
    case AddI => Bits(width, a + b)
    case SubI => Bits(width, a - b)
    case MulI => Bits(width, a * b)
  }

  function AsArg(r: Reg): Arg {
    match r
    case IntReg(b) => IntArg(b)
    case PtrReg(a) => PtrArg(a)
  }

  /** Runs one operation that is not a terminator; None is a machine fault. */
  function ExecOp(w: World, intBits: nat, op: Op, c: Core): Option<Core>
  {
    match op
    case ConstantInt(r, width, v) => Some(c.Set(r, IntReg(Bits(width, v))))
    case CmpI(r, p, width, x, y) =>
      if width > 0 && c.HasInt(x, width) && c.HasInt(y, width) then
        Some(c.Set(r, IntReg(if Holds(p, width, c.regs[x].bits, c.regs[y].bits) then 1 else 0)))
      else None
    case ArithI(r, kind, width, x, y) =>
      if c.HasInt(x, width) && c.HasInt(y, width) then
        Some(c.Set(r, IntReg(ArithBits(kind, width, c.regs[x].bits, c.regs[y].bits))))
      else None
    case TruncI(r, to, x) =>
      if x in c.regs && c.regs[x].IntReg? then Some(c.Set(r, IntReg(Bits(to, c.regs[x].bits)))) else None
    case ExtSI(r, from, to, x) =>
      if from > 0 && c.HasInt(x, from) then
        Some(c.Set(r, IntReg(Bits(to, Signed(from, c.regs[x].bits)))))
      else None
    case ExtUI(r, to, x) =>
      if x in c.regs && c.regs[x].IntReg? then Some(c.Set(r, IntReg(Bits(to, c.regs[x].bits)))) else None
    case Alloca(r, elem) =>
      if elem.I? then
        Some(Core(c.regs[r := PtrReg(|c.store.mem|)], c.store.Allocate(w, elem.width)))
      else None
    case LoadOp(r, elem, p) =>
      if elem.I? && c.HasPtr(p) && c.store.mem[c.regs[p].addr].width == elem.width then
        Some(c.Set(r, IntReg(c.store.mem[c.regs[p].addr].bits)))
      else None
    case StoreOp(x, p) =>
      if c.HasPtr(p) && c.HasInt(x, c.store.mem[c.regs[p].addr].width) then
        Some(c.(store := c.store.Write(c.regs[p].addr, c.regs[x].bits)))
      else None
    case CallOp(r, callee, args) =>
      if forall i :: 0 <= i < |args| ==> args[i] in c.regs then
        var after := AfterCall(w, callee, Actuals(args, c.regs), c.store);
        var c1 := c.(store := after);
        Some(if r.Some? then c1.Set(r.value, IntReg(ReplyBits(w, intBits, after))) else c1)
      else None
    case Branch(_) => None
    case CondBranch(_, _, _) => None
    case ReturnOp(_) => None
  }

  function Actuals(args: seq<nat>, regs: map<nat, Reg>): (r: seq<Arg>)
    requires forall i :: 0 <= i < |args| ==> args[i] in regs
    ensures |r| == |args|
    ensures forall i :: 0 <= i < |args| ==> r[i] == AsArg(regs[args[i]])
  {
    seq(|args|, i requires 0 <= i < |args| => AsArg(regs[args[i]]))
  }

  function ExecOps(w: World, intBits: nat, ops: seq<Op>, c: Core): Option<Core>
    decreases ops
  {
    if ops == [] then Some(c)
    else
      match ExecOp(w, intBits, ops[0], c)
      case None => None
      case Some(c1) => ExecOps(w, intBits, ops[1..], c1)
  }

  datatype Machine =
    | Running(block: nat, pc: nat, core: Core)
    | Halted(value: Option<nat>, store: Store)
    | Fault

  function Step(w: World, intBits: nat, p: seq<Block>, m: Machine): Machine {
    if !m.Running? then m
    else if m.block >= |p| || m.pc >= |p[m.block].ops| then Fault
    else
      var c := m.core;
      match p[m.block].ops[m.pc]
      case Branch(b) => Running(b, 0, c)
      case CondBranch(x, t, f) =>
        if c.HasInt(x, 1) then Running(if c.regs[x].bits != 0 then t else f, 0, c) else Fault
      case ReturnOp(None) => Halted(None, c.store)
      case ReturnOp(Some(x)) =>
        if x in c.regs && c.regs[x].IntReg? then Halted(Some(c.regs[x].bits), c.store) else Fault
      case op =>
        match ExecOp(w, intBits, op, c)
        case Some(c1) => Running(m.block, m.pc + 1, c1)
        case None => Fault
  }

  function Steps(w: World, intBits: nat, p: seq<Block>, m: Machine, n: nat): Machine
    decreases n
  {
    if n == 0 then m else Steps(w, intBits, p, Step(w, intBits, p, m), n - 1)
  }

  lemma {:induction false} StepsAdd(w: World, intBits: nat, p: seq<Block>, m: Machine, i: nat, j: nat)
    ensures Steps(w, intBits, p, m, i + j) == Steps(w, intBits, p, Steps(w, intBits, p, m, i), j)
    decreases i
  {
    if i > 0 { StepsAdd(w, intBits, p, Step(w, intBits, p, m), i - 1, j); }
  }

  lemma {:induction false} StepsStay(w: World, intBits: nat, p: seq<Block>, m: Machine, n: nat)
    requires !m.Running?
    ensures Steps(w, intBits, p, m, n) == m
    decreases n
  {
    if n > 0 { StepsStay(w, intBits, p, m, n - 1); }
  }

  lemma {:induction false} ExecOpsConcat(w: World, intBits: nat, a: seq<Op>, b: seq<Op>, c: Core)
    ensures ExecOps(w, intBits, a + b, c) ==
            match ExecOps(w, intBits, a, c) case Some(c1) => ExecOps(w, intBits, b, c1) case None => None
    decreases a
  {
    if a == [] {
      assert a + b == b;
    } else {
      assert (a + b)[1..] == a[1..] + b;
      match ExecOp(w, intBits, a[0], c)
      case None =>
      case Some(c1) => ExecOpsConcat(w, intBits, a[1..], b, c1);
    }
  }

  /** A straight-line piece of a block runs as ExecOps says. */
  lemma {:induction false} RunStraight(w: World, intBits: nat, p: seq<Block>, b: nat, pc: nat, ops: seq<Op>, c: Core)
    requires b < |p| && pc + |ops| <= |p[b].ops| && p[b].ops[pc..pc + |ops|] == ops
    requires ExecOps(w, intBits, ops, c).Some?
    ensures Steps(w, intBits, p, Running(b, pc, c), |ops|) ==
            Running(b, pc + |ops|, ExecOps(w, intBits, ops, c).value)
    decreases ops
  {
    if ops != [] {
      assert p[b].ops[pc] == ops[0];
      assert p[b].ops[pc + 1..pc + 1 + |ops[1..]|] == ops[1..];
      RunStraight(w, intBits, p, b, pc + 1, ops[1..], ExecOp(w, intBits, ops[0], c).value);
    }
  }
}
