/** A translation unit as code generation meets it: what must hold of the declared functions, and the frame that a
    definition starts with. */
module Unit {
  import opened CAst
  import opened Wrappers
  import opened Contract
  import opened Ir
  import opened Lowering
  import opened ExprSimulation

  /** What must hold of the unit for code to be generated: the target is sensible, every known function is one that can
      be declared, and order visits exactly the parameters. */
  ghost predicate UnitOk(ctx: Context, fn: Function, order: seq<Decl>) {
    && ctx.target.Valid()
    && (forall name :: name in ctx.functions ==> Declarable(ctx.target, ctx.functions[name]))
    && CheckedFunction(ctx, fn)
    && (forall d :: d in order <==> d in fn.params)
    && (forall d :: d in order ==> d in EntryValues(fn.params))
  }

  /** The frame a function starts with, before any storage. */
  ghost predicate StartFrame(ctx: Context, fn: Function, f: Frame)
    requires ctx.target.Valid()
  {
    fn.name in ctx.functions && EntryFrame(ctx.target, ctx.functions[fn.name].params) == Some(f)
  }

  lemma {:induction false} EntryValuesAt(params: seq<Decl>)
    requires forall i, j :: 0 <= i < j < |params| ==> params[i] != params[j]
    ensures EntryValues(params).Keys == ParamSet(params)
    ensures forall i :: 0 <= i < |params| ==> EntryValues(params)[params[i]] == i
  {
    if params != [] {
      var n := |params| - 1;
      EntryValuesAt(params[..n]);
      assert ParamSet(params) == ParamSet(params[..n]) + {params[n]};
      assert forall i :: 0 <= i < n ==> params[..n][i] == params[i];
    }
  }

  lemma {:induction false} EntryFrameOk(ctx: Context, fn: Function, order: seq<Decl>, f: Frame)
    requires UnitOk(ctx, fn, order) && StartFrame(ctx, fn, f)
    ensures FrameOk(FunctionEnv(ctx, fn, order), f) && f.storage == map[]
  {
    var env := FunctionEnv(ctx, fn, order);
    EntryValuesAt(fn.params);
    forall d | d in env.values
      ensures env.values[d] < |f.types| && LowerType(ctx.target, d.ty) == Some(f.types[env.values[d]])
    {
      var i :| 0 <= i < |fn.params| && fn.params[i] == d;
    }
  }

  /** The result the function's code must return is the one its type asks for. */
  ghost predicate ResultOk(env: Env, ret: CType)
    requires env.ctx.target.Valid()
  {
    && (ret == Void || ret == Integer(Int))
    && env.result == if ret == Void then None else Some(I(env.ctx.target.intBits))
  }
}
