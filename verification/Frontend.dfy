/** From an analyzed unit to generated code: which declarations the generator works from, and what the theorems about
    code generation say of every definition that analysis lets through. */
module Frontend {
  import C = CAst
  import T = TypedSemantics
  import opened Acceptance
  import opened CSemantics
  import opened Handover
  import opened Integers
  import opened Ir
  import opened Lowering
  import opened Preservation
  import opened SemaTree
  import opened SemaUnit
  import opened Semantics
  import opened Storage
  import opened TypedAgreement
  import opened Unit
  import opened Wrappers

  // ----- one declaration for each function -----

  /** Collects one declaration for each function of the unit, in the order of their first declarations. Any other
      declaration but a typedef is refused. */
  method SelectFunctions(decls: seq<External>)
    returns (ok: bool, selected: map<string, FunctionSpec>, order: seq<string>)
    ensures ok <==> forall d :: d in decls ==> d.FunctionItem? || d.TypedefItem?
    ensures ok ==> forall name :: name in selected <==> Selected(decls, name).Some?
    ensures ok ==> forall name :: name in selected ==> Selected(decls, name) == Some(selected[name])
    ensures ok ==> (forall name :: name in selected <==> name in order) && forall i, j :: 0 <= i < j < |order| ==>
        order[i] != order[j]
  {
    selected, order := map[], [];
    var i := 0;
    while i < |decls|
      invariant 0 <= i <= |decls|
      invariant forall d :: d in decls[..i] ==> d.FunctionItem? || d.TypedefItem?
      invariant forall name :: name in selected <==> Selected(decls[..i], name).Some?
      invariant forall name :: name in selected ==> Selected(decls[..i], name) == Some(selected[name])
      invariant forall name :: name in selected <==> name in order
      invariant forall i, j :: 0 <= i < j < |order| ==> order[i] != order[j]
    {
      assert decls[..i + 1][..i] == decls[..i];
      assert decls[i] in decls && decls[..i + 1] == decls[..i] + [decls[i]];
      match decls[i] {
        case TypedefItem(_, _) =>
        case FunctionItem(f) =>
          if f.name !in selected {
            order := order + [f.name];
            selected := selected[f.name := f];
          } else if f.body.Some? || (selected[f.name].body.None? && f.ty.hasPrototype) {
            selected := selected[f.name := f];
          }
        case _ => return false, selected, order;
      }
      i := i + 1;
    }
    assert decls[..i] == decls;
    ok := true;
  }

  // ----- definitions -----

  /** The generator accepts the unit's declarations, and visits the parameters of the definition in some order. */
  ghost predicate Generable(target: C.Target, decls: seq<External>, t: TypedFunction, order: seq<C.Decl>) {
    && target.Valid()
    && (forall name :: name in UnitContext(target, decls).functions ==>
        Declarable(target, UnitContext(target, decls).functions[name]))
    && (forall d :: d in order <==> d in EraseParams(t.params))
  }

  lemma {:induction false} DefinitionIsUnit(target: C.Target, decls: seq<External>, f: FunctionSpec, t: TypedFunction,
                                            order: seq<C.Decl>)
    requires AnalyzedDefinition(target, decls, f, t) && Generable(target, decls, t, order)
    ensures UnitOk(UnitContext(target, decls), EraseFunction(t), order)
  {
    var fn := EraseFunction(t);
    EntryValuesAt(fn.params);
  }

  /** Every function is declared with its parameters wherever it is declared. */
  predicate AllPrototyped(decls: seq<External>) {
    forall d :: d in decls && d.FunctionItem? ==> d.f.ty.hasPrototype
  }

  /** A definition that analysis accepts is accepted by the generator exactly when it has only supported constructs
      where control can reach them and does not run off the end of a function that returns something. When all functions
      have prototypes, no call is refused for its arguments' types or number. */
  lemma {:induction false} AnalyzedIsAccepted(target: C.Target, decls: seq<External>, f: FunctionSpec, t: TypedFunction,
                                              order: seq<C.Decl>)
    requires AnalyzedDefinition(target, decls, f, t) && Generable(target, decls, t, order)
    requires NoFloats(UnitContext(target, decls), EraseFunction(t))
    ensures var ctx, fn := UnitContext(target, decls), EraseFunction(t);
            && (forall d :: d in order ==> d in EntryValues(fn.params))
            && (EmitFunction(ctx, fn, order).Some? <==>
                  SupportedItems(ctx, fn.body) && (FallsItems(fn.body) ==> fn.ret == C.Void || fn.name == "main"))
    ensures AllPrototyped(decls) ==>
              forall name :: name in UnitContext(target, decls).functions ==>
                UnitContext(target, decls).functions[name].prototyped
  {
    DefinitionIsUnit(target, decls, f, t, order);
    AcceptedExactlyWhenSupported(UnitContext(target, decls), EraseFunction(t), order);
  }

  /** What the machine has done by step n, compared with what the analyzed definition means: the same answer after the
      same calls with the same contents of the caller's objects, or, if the definition is still running, at least as
      many steps and the same calls. Nothing is asked once the definition has done what has no meaning. */
  ghost predicate BehavesAs(target: C.Target, mem: seq<Cell>, o: T.Outcome, fuel: nat, end: Machine, n: nat)
    requires target.Valid()
  {
    match o
    case Returned(v, s) =>
      && end.Halted? && end.store.trace == s.store.trace
      && end.value == (if v.None? then None else Some(T.Stored(target, C.Int, v.value)))
      && |mem| <= |s.store.mem| && |mem| <= |end.store.mem| && end.store.mem[..|mem|] == s.store.mem[..|mem|]
    case OutOfFuel(s) => end.Running? && n >= fuel && end.core.store.trace == s.store.trace
    case Stuck => true
    case _ => false
  }

  lemma {:induction false} SameIsBehaving(ctx: C.Context, mem: seq<Cell>, o: T.Outcome, u: Outcome, fuel: nat,
                                          end: Machine, n: nat)
    requires ctx.target.Valid() && SameOutcome({}, {}, o, u) && SameBehaviour(ctx, mem, u, fuel, end, n)
    ensures BehavesAs(ctx.target, mem, o, fuel, end, n)
  {
    hide Pow2;
    if o.Returned? && o.value.Some? { BitsOfReading(true, ctx.target.intBits, end.value.value); }
  }

  /** From the source text's definition to the running code: what analysis accepts and the generator supports is
      generated, and the code behaves as the analyzed definition does, by its own meaning. */
  lemma {:induction false} AnalyzedRunsAsWritten(w: World, target: C.Target, decls: seq<External>, f: FunctionSpec,
                                                 t: TypedFunction, order: seq<C.Decl>, args: seq<Val>, mem: seq<Cell>,
                                                 fuel: nat)
    returns (n: nat)
    requires AnalyzedDefinition(target, decls, f, t) && Generable(target, decls, t, order)
    requires NoFloats(UnitContext(target, decls), EraseFunction(t))
    requires SupportedItems(UnitContext(target, decls), EraseFunction(t).body)
    requires FallsItems(EraseFunction(t).body) ==> EraseFunction(t).ret == C.Void || t.name == "main"
    requires CallOk(UnitContext(target, decls), EraseFunction(t), args, mem)
    ensures (forall d :: d in order ==> d in EntryValues(EraseFunction(t).params))
    ensures var ctx, fn := UnitContext(target, decls), EraseFunction(t);
            && EmitFunction(ctx, fn, order).Some?
            && BehavesAs(target, mem, T.Run(w, target, t, args, mem, fuel), fuel,
                         Steps(w, target.intBits, EmitFunction(ctx, fn, order).value, Entry(ctx, fn, args, mem), n), n)
  {
    hide T.Run, Run, SameOutcome, SameBehaviour, BehavesAs, SupportedItems, NoFloats, Steps, EmitFunction;
    var ctx, fn := UnitContext(target, decls), EraseFunction(t);
    AnalyzedIsAccepted(target, decls, f, t, order);
    DefinitionIsUnit(target, decls, f, t, order);
    n := Preserves(w, ctx, fn, order, args, mem, fuel);
    RunAgrees(w, ctx, t, args, mem, fuel);
    SameIsBehaving(ctx, mem, T.Run(w, target, t, args, mem, fuel), Run(w, ctx, fn, args, mem, fuel), fuel,
                   Steps(w, target.intBits, EmitFunction(ctx, fn, order).value, Entry(ctx, fn, args, mem), n), n);
  }
}
