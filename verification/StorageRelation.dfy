/** When two storages hold the same objects at different addresses. The map takes an address of the first to the address
    of the same object in the second; objects outside it are private to the first. Writes, allocations and calls keep
    the relation. */
module StorageRelation {
  import opened Integers
  import opened Storage

  type Renaming = map<nat, nat>

  ghost predicate SameCells(m: Renaming, s: Store, t: Store) {
    forall a :: a in m ==> a < |s.mem| && m[a] < |t.mem| && s.mem[a] == t.mem[m[a]]
  }

  ghost predicate Injective(m: Renaming) {
    forall a, b :: a in m && b in m && a != b ==> m[a] != m[b]
  }

  ghost predicate SameExposed(m: Renaming, s: seq<nat>, t: seq<nat>) {
    && |s| == |t|
    && forall i :: 0 <= i < |s| ==> s[i] in m && m[s[i]] == t[i]
  }

  ghost predicate Related(m: Renaming, s: Store, t: Store) {
    && s.Valid() && t.Valid()
    && SameCells(m, s, t) && Injective(m)
    && SameExposed(m, s.exposed, t.exposed)
    && s.trace == t.trace
  }

  ghost predicate Extends(m: Renaming, m': Renaming) {
    forall a :: a in m ==> a in m' && m'[a] == m[a]
  }

  /** Objects never disappear or change width. */
  ghost predicate Kept(mem: seq<Cell>, mem': seq<Cell>) {
    |mem| <= |mem'| && forall a :: 0 <= a < |mem| ==> mem'[a].width == mem[a].width
  }

  ghost predicate RelatedArg(m: Renaming, a: Arg, b: Arg) {
    match a
    case IntArg(n) => b == IntArg(n)
    case PtrArg(p) => p in m && b == PtrArg(m[p])
  }

  ghost predicate RelatedArgs(m: Renaming, s: seq<Arg>, t: seq<Arg>) {
    |s| == |t| && forall i :: 0 <= i < |s| ==> RelatedArg(m, s[i], t[i])
  }

  lemma {:induction false} WriteKeeps(m: Renaming, s: Store, t: Store, a: nat, bits: nat)
    requires Related(m, s, t) && a in m && bits < Pow2(s.mem[a].width)
    ensures Related(m, s.Write(a, bits), t.Write(m[a], bits))
  {
  }

  /** A new object on both sides, known to be the same one. */
  lemma {:induction false} AllocateKeeps(m: Renaming, w: World, s: Store, t: Store, width: nat)
    requires Related(m, s, t) && width > 0
    ensures Related(m[|s.mem| := |t.mem|], s.Allocate(w, width), t.Allocate(w, width))
    ensures Extends(m, m[|s.mem| := |t.mem|])
  {
  }

  /** An object private to the first side gets a copy on the second. */
  lemma {:induction false} ShareKeeps(m: Renaming, s: Store, t: Store, a: nat)
    requires Related(m, s, t) && a < |s.mem| && a !in m
    ensures Related(m[a := |t.mem|], s, t.(mem := t.mem + [s.mem[a]]))
    ensures Extends(m, m[a := |t.mem|])
  {
  }

  lemma {:induction false} IndexUnique(s: seq<nat>, i: nat)
    requires i < |s| && forall j, k :: 0 <= j < k < |s| ==> s[j] != s[k]
    ensures IndexOf(s, s[i]) == i
  {
  }

  lemma {:induction false} ExposedSame(m: Renaming, s: seq<nat>, t: seq<nat>, a: nat)
    requires SameExposed(m, s, t) && Injective(m) && a in m
    requires forall j, k :: 0 <= j < k < |s| ==> s[j] != s[k]
    requires forall j, k :: 0 <= j < k < |t| ==> t[j] != t[k]
    ensures a in s <==> m[a] in t
    ensures a in s ==> IndexOf(s, a) == IndexOf(t, m[a])
  {
    if a in s {
      var i := IndexOf(s, a);
      assert t[i] == m[a];
      IndexUnique(t, i);
    }
    if m[a] in t {
      var i := IndexOf(t, m[a]);
      assert m[s[i]] == m[a];
      assert s[i] == a;
    }
  }

  ghost predicate ExposedOk(mem: seq<Cell>, exposed: seq<nat>) {
    && (forall i :: 0 <= i < |exposed| ==> exposed[i] < |mem|)
    && (forall i, j :: 0 <= i < j < |exposed| ==> exposed[i] != exposed[j])
  }

  lemma {:induction false} ExposeKeeps(m: Renaming, s: Store, t: Store, es: seq<nat>, et: seq<nat>, xs: seq<Arg>,
                                       ys: seq<Arg>)
    requires SameCells(m, s, t) && Injective(m) && RelatedArgs(m, xs, ys)
    requires SameExposed(m, es, et) && ExposedOk(s.mem, es) && ExposedOk(t.mem, et)
    ensures SameExposed(m, Expose(es, xs), Expose(et, ys))
    ensures ExposedOk(s.mem, Expose(es, xs)) && ExposedOk(t.mem, Expose(et, ys))
    decreases xs
  {
    if xs != [] {
      assert RelatedArg(m, xs[0], ys[0]);
      if xs[0].PtrArg? { ExposedSame(m, es, et, xs[0].addr); }
      ExposeKeeps(m, s, t, ExposeOne(es, xs[0]), ExposeOne(et, ys[0]), xs[1..], ys[1..]);
    }
  }

  lemma {:induction false} RewrittenKeeps(m: Renaming, s: Store, t: Store, es: seq<nat>, et: seq<nat>, writes: seq<int>,
                                          a: nat)
    requires SameCells(m, s, t) && Injective(m) && SameExposed(m, es, et) && a < |s.mem|
    requires ExposedOk(s.mem, es) && ExposedOk(t.mem, et)
    ensures a in m ==> Rewritten(s.mem, es, writes, a) == Rewritten(t.mem, et, writes, m[a])
    ensures a !in m ==> Rewritten(s.mem, es, writes, a) == s.mem[a]
  {
    if a in m {
      ExposedSame(m, es, et, a);
    } else {
      forall i | 0 <= i < |es| ensures es[i] != a {}
    }
  }

  lemma {:induction false} AfterCallValid(w: World, callee: string, s: Store, args: seq<Arg>)
    requires s.Valid() && ExposedOk(s.mem, Expose(s.exposed, args))
    ensures AfterCall(w, callee, args, s).Valid()
    ensures |AfterCall(w, callee, args, s).mem| == |s.mem|
    ensures Kept(s.mem, AfterCall(w, callee, args, s).mem)
  {
    var s' := AfterCall(w, callee, args, s);
    forall a | 0 <= a < |s'.mem|
      ensures s'.mem[a].Valid() && s'.mem[a].width == s.mem[a].width
    {
      assert s.mem[a].Valid();
    }
  }

  /** Related callers observe, and are observed to make, the same call; the callee's writes land on the same objects and
      private objects do not change. */
  lemma {:induction false} CallKeeps(m: Renaming, w: World, callee: string, s: Store, t: Store, xs: seq<Arg>,
                                     ys: seq<Arg>)
    requires Related(m, s, t) && RelatedArgs(m, xs, ys)
    ensures Related(m, AfterCall(w, callee, xs, s), AfterCall(w, callee, ys, t))
    ensures Kept(s.mem, AfterCall(w, callee, xs, s).mem)
    ensures |AfterCall(w, callee, xs, s).mem| == |s.mem|
    ensures forall a :: 0 <= a < |s.mem| && a !in m ==> AfterCall(w, callee, xs, s).mem[a] == s.mem[a]
  {
    ExposeKeeps(m, s, t, s.exposed, t.exposed, xs, ys);
    SameEvent(m, callee, s, t, xs, ys);
    AfterCallValid(w, callee, s, xs);
    AfterCallValid(w, callee, t, ys);
    forall a | 0 <= a < |s.mem|
      ensures a in m ==> AfterCall(w, callee, xs, s).mem[a] == AfterCall(w, callee, ys, t).mem[m[a]]
      ensures a !in m ==> AfterCall(w, callee, xs, s).mem[a] == s.mem[a]
    {
      AfterCallCell(m, w, callee, s, t, xs, ys, a);
    }
  }

  lemma {:induction false} AfterCallCell(m: Renaming, w: World, callee: string, s: Store, t: Store, xs: seq<Arg>,
                                         ys: seq<Arg>, a: nat)
    requires SameCells(m, s, t) && Injective(m) && a < |s.mem|
    requires SameExposed(m, Expose(s.exposed, xs), Expose(t.exposed, ys))
    requires ExposedOk(s.mem, Expose(s.exposed, xs)) && ExposedOk(t.mem, Expose(t.exposed, ys))
    requires s.trace == t.trace && CallEvent(callee, xs, s) == CallEvent(callee, ys, t)
    ensures a in m ==> AfterCall(w, callee, xs, s).mem[a] == AfterCall(w, callee, ys, t).mem[m[a]]
    ensures a !in m ==> AfterCall(w, callee, xs, s).mem[a] == s.mem[a]
  {
    var writes := w.reply(s.trace + [CallEvent(callee, xs, s)]).writes;
    RewrittenKeeps(m, s, t, Expose(s.exposed, xs), Expose(t.exposed, ys), writes, a);
  }

  lemma {:induction false} SameEvent(m: Renaming, callee: string, s: Store, t: Store, xs: seq<Arg>, ys: seq<Arg>)
    requires Related(m, s, t) && RelatedArgs(m, xs, ys)
    ensures CallEvent(callee, xs, s) == CallEvent(callee, ys, t)
  {
    var es, et := Expose(s.exposed, xs), Expose(t.exposed, ys);
    ExposeKeeps(m, s, t, s.exposed, t.exposed, xs, ys);
    var vs, vt := CallEvent(callee, xs, s), CallEvent(callee, ys, t);
    forall i | 0 <= i < |xs|
      ensures vs.args[i] == vt.args[i]
    {
      assert RelatedArg(m, xs[i], ys[i]);
      if xs[i].PtrArg? { ExposedSame(m, es, et, xs[i].addr); }
    }
    assert vs.args == vt.args;
    assert vs.visible == vt.visible;
  }
}
