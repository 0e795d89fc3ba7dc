/** Linkage of several declarations of one name at file scope: what C99 section 6.2.2 says, what analysis accepts, and
    exactly where the two differ. */
module Linkage {
  import opened Qualifiers
  import opened SemaConversions
  import opened SemaRules
  import opened SemaStmt
  import opened SemaTags
  import opened SemaTree
  import opened SemaTypes
  import opened SemaUnit
  import opened Wrappers

  // ----- what C says -----

  /** A declaration with static is internal; one with extern, and a function's with no storage class, has the linkage of
      the declaration before it, if there is one; any other is external. */
  predicate IsInternal(classes: seq<StorageClass>, i: nat, ofFunction: bool)
    requires i < |classes|
  {
    if classes[i] == Static then true
    else if classes[i] == Extern || (ofFunction && classes[i] == Unspecified) then
      i > 0 && IsInternal(classes, i - 1, ofFunction)
    else false
  }

  /** The declarations give the name one linkage. */
  predicate OneLinkage(classes: seq<StorageClass>, ofFunction: bool) {
    forall i :: 0 < i < |classes| ==> IsInternal(classes, i, ofFunction) == IsInternal(classes, i - 1, ofFunction)
  }

  /** The storage classes that stand at file scope. */
  predicate AtFileScope(classes: seq<StorageClass>) {
    forall i :: 0 <= i < |classes| ==> classes[i] in {Unspecified, Static, Extern}
  }

  // ----- what analysis accepts -----

  /** An int declared with each of the storage classes in turn. */
  function DeclaredInTurn(name: string, classes: seq<StorageClass>, at: Place): Option<Place>
    requires at.scopes != []
  {
    if classes == [] then Some(at)
    else
      match VariableAfter(VarSpec(name, INT, classes[0]), true, false, at)
      case None => None
      case Some(p) => DeclaredInTurn(name, classes[1..], p)
  }

  /** Each declaration is compared with the one before it alone. */
  predicate EachFollows(classes: seq<StorageClass>) {
    forall i :: 0 < i < |classes| ==> !LinkageConflict(classes[i - 1], classes[i])
  }

  predicate IsBoundTo(name: string, previous: StorageClass, at: Place)
    requires at.scopes != []
  {
    name in Top(at.scopes) && Top(at.scopes)[name].Variable? &&
    Top(at.scopes)[name] == Variable(Top(at.scopes)[name].id, INT, previous, true, false)
  }

  lemma {:induction false} DeclareOnce(name: string, storage: StorageClass, at: Place)
    requires at.scopes != [] && storage in {Unspecified, Static, Extern}
    ensures var p := VariableAfter(VarSpec(name, INT, storage), true, false, at);
            && (name !in Top(at.scopes) ==> p.Some?)
            && (forall previous :: IsBoundTo(name, previous, at) ==> (p.Some? <==> !LinkageConflict(previous, storage)))
            && (p.Some? ==> IsBoundTo(name, storage, p.value))
  {
    hide LinkageConflict;
    IntIsDeclarable();
    CompatibleReflexive(INT, false);
  }

  lemma {:induction false} IntIsDeclarable()
    ensures AdjustedType(INT) == INT && ArrayParamsValid(INT) && Valid(INT)
    ensures forall tags :: TagsAfter(INT, tags) == Some(tags)
  {
  }

  lemma {:induction false} TurnsFollow(name: string, previous: StorageClass, classes: seq<StorageClass>, at: Place)
    requires at.scopes != [] && AtFileScope(classes) && IsBoundTo(name, previous, at)
    ensures DeclaredInTurn(name, classes, at).Some? <==> EachFollows([previous] + classes)
    decreases classes
  {
    hide LinkageConflict, VariableAfter, IsBoundTo;
    if classes == [] { return; }
    DeclareOnce(name, classes[0], at);
    var p := VariableAfter(VarSpec(name, INT, classes[0]), true, false, at);
    FirstFollows(previous, classes);
    if p.Some? {
      TurnsFollow(name, classes[0], classes[1..], p.value);
      assert [classes[0]] + classes[1..] == classes;
    }
  }

  lemma {:induction false} FirstFollows(previous: StorageClass, classes: seq<StorageClass>)
    requires classes != []
    ensures EachFollows([previous] + classes) <==> !LinkageConflict(previous, classes[0]) && EachFollows(classes)
  {
    hide LinkageConflict;
    var all := [previous] + classes;
    assert forall i :: 0 < i < |all| ==> all[i] == classes[i - 1];
    assert forall i :: 0 < i < |classes| ==> all[i + 1] == classes[i] && all[i] == classes[i - 1];
    if EachFollows(all) {
      assert !LinkageConflict(all[0], all[1]);
      forall i | 0 < i < |classes|
        ensures !LinkageConflict(classes[i - 1], classes[i])
      {
        assert !LinkageConflict(all[i + 1 - 1], all[i + 1]);
      }
    }
  }

  /** Declarations of a new name are accepted exactly when each may follow the one before it. */
  lemma {:induction false} AcceptedInTurn(name: string, classes: seq<StorageClass>, at: Place)
    requires at.scopes != [] && AtFileScope(classes) && name !in Top(at.scopes)
    ensures DeclaredInTurn(name, classes, at).Some? <==> EachFollows(classes)
  {
    hide VariableAfter, EachFollows, IsBoundTo;
    if classes == [] {
      NothingFollows(classes);
    } else {
      DeclareOnce(name, classes[0], at);
      var p := VariableAfter(VarSpec(name, INT, classes[0]), true, false, at).value;
      TurnsFollow(name, classes[0], classes[1..], p);
      assert [classes[0]] + classes[1..] == classes;
    }
  }

  lemma {:induction false} NothingFollows(classes: seq<StorageClass>)
    ensures classes == [] ==> EachFollows(classes)
  {
  }

  // ----- where they differ -----

  /** How many declarations with static come first. */
  function Leading(classes: seq<StorageClass>): (k: nat)
    ensures k <= |classes| && (forall i :: 0 <= i < k ==> classes[i] == Static)
    ensures k < |classes| ==> classes[k] != Static
  {
    if classes == [] || classes[0] != Static then 0 else 1 + Leading(classes[1..])
  }

  /** An extern declaration after static ones is taken for external, and what comes later shows it: declarations with
      static, which C allows there, or with no storage class, which it does not, but not both. */
  predicate Forgets(classes: seq<StorageClass>) {
    var k := Leading(classes);
    && 0 < k < |classes| && classes[k] == Extern
    && (Static in classes[k + 1..]) != (Unspecified in classes[k + 1..])
  }

  lemma {:induction false} ExternalOn(classes: seq<StorageClass>, k: nat)
    requires AtFileScope(classes) && k < |classes| && classes[k] != Static
    requires k > 0 ==> !LinkageConflict(classes[k - 1], classes[k])
    requires forall i :: 0 < i < k ==> !LinkageConflict(classes[i - 1], classes[i])
    ensures EachFollows(classes) <==> Static !in classes[k + 1..]
  {
    if Static !in classes[k + 1..] {
      forall i | k < i < |classes|
        ensures !LinkageConflict(classes[i - 1], classes[i])
      {
        assert classes[k + 1..][i - k - 1] == classes[i];
        if i - 1 > k { assert classes[k + 1..][i - k - 2] == classes[i - 1]; }
      }
    } else if EachFollows(classes) {
      var j :| 0 <= j < |classes[k + 1..]| && classes[k + 1..][j] == Static;
      NoStaticLater(classes, k, k + 1 + j);
    }
  }

  lemma {:induction false} NoStaticLater(classes: seq<StorageClass>, k: nat, i: nat)
    requires EachFollows(classes) && k <= i < |classes| && classes[k] != Static
    ensures classes[i] != Static
    decreases i
  {
    if k < i {
      NoStaticLater(classes, k, i - 1);
      assert !LinkageConflict(classes[i - 1], classes[i]);
    }
  }

  lemma {:induction false} InternalWhile(classes: seq<StorageClass>, i: nat)
    requires i < |classes| && (classes[0] == Static) && forall j :: 0 <= j <= i ==> classes[j] in {Static, Extern}
    ensures IsInternal(classes, i, false)
  {
    if i > 0 { InternalWhile(classes, i - 1); }
  }

  lemma {:induction false} SameAsFirst(classes: seq<StorageClass>, i: nat, ofFunction: bool)
    requires OneLinkage(classes, ofFunction) && i < |classes|
    ensures IsInternal(classes, i, ofFunction) == IsInternal(classes, 0, ofFunction)
  {
    if i > 0 { SameAsFirst(classes, i - 1, ofFunction); }
  }

  /** A name first declared with static has one linkage exactly while nothing but static and extern is used. */
  lemma {:induction false} StaticFirst(classes: seq<StorageClass>)
    requires AtFileScope(classes) && classes != [] && classes[0] == Static
    ensures OneLinkage(classes, false) <==> Unspecified !in classes
  {
    if Unspecified in classes {
      var i :| 0 <= i < |classes| && classes[i] == Unspecified;
      if OneLinkage(classes, false) { SameAsFirst(classes, i, false); }
    } else {
      forall i | 0 <= i < |classes|
        ensures IsInternal(classes, i, false)
      {
        InternalWhile(classes, i);
      }
    }
  }

  lemma {:induction false} ExternalWhile(classes: seq<StorageClass>, i: nat, ofFunction: bool)
    requires i < |classes| && forall j :: 0 <= j <= i ==> classes[j] != Static
    ensures !IsInternal(classes, i, ofFunction)
  {
    if i > 0 { ExternalWhile(classes, i - 1, ofFunction); }
  }

  /** Any other name has one linkage exactly while static is not used. */
  lemma {:induction false} StaticLater(classes: seq<StorageClass>, ofFunction: bool)
    requires classes != [] && classes[0] != Static
    ensures OneLinkage(classes, ofFunction) <==> Static !in classes
  {
    if Static in classes {
      var i :| 0 <= i < |classes| && classes[i] == Static;
      ExternalWhile(classes, 0, ofFunction);
      if OneLinkage(classes, ofFunction) { SameAsFirst(classes, i, ofFunction); }
    } else {
      forall i | 0 <= i < |classes|
        ensures !IsInternal(classes, i, ofFunction)
      {
        ExternalWhile(classes, i, ofFunction);
      }
    }
  }

  lemma {:induction false} SplitMembers(classes: seq<StorageClass>, k: nat, c: StorageClass)
    requires k < |classes|
    ensures c in classes <==> c in classes[..k] || c == classes[k] || c in classes[k + 1..]
  {
    assert classes == classes[..k] + [classes[k]] + classes[k + 1..];
  }

  /** Analysis accepts a list of declarations of a variable exactly when C gives them one linkage, except where it
      forgets that a name was declared with static. */
  lemma {:induction false} LinkageJudgedExactly(name: string, classes: seq<StorageClass>, at: Place)
    requires at.scopes != [] && AtFileScope(classes) && name !in Top(at.scopes)
    ensures (DeclaredInTurn(name, classes, at).Some? == OneLinkage(classes, false)) <==> !Forgets(classes)
  {
    AcceptedInTurn(name, classes, at);
    if classes == [] { return; }
    hide DeclaredInTurn;
    var k := Leading(classes);
    if k == |classes| {
      StaticFirst(classes);
    } else if k == 0 {
      StaticLater(classes, false);
      ExternalOn(classes, 0);
      SplitMembers(classes, 0, Static);
    } else {
      StaticFirst(classes);
      SplitMembers(classes, k, Unspecified);
      if classes[k] == Extern {
        ExternalOn(classes, k);
      } else {
        assert LinkageConflict(classes[k - 1], classes[k]);
      }
    }
  }

  /** static int x; extern int x; static int x; is one linkage in C, and is refused. */
  lemma {:induction false} StaticIsForgotten(name: string, at: Place)
    requires at.scopes != [] && name !in Top(at.scopes)
    ensures OneLinkage([Static, Extern, Static], false)
    ensures DeclaredInTurn(name, [Static, Extern, Static], at) == None
  {
    var classes := [Static, Extern, Static];
    AcceptedInTurn(name, classes, at);
    assert LinkageConflict(classes[1], classes[2]);
    StaticFirst(classes);
  }

  // ----- functions -----

  /** int name(void) declared with a storage class. */
  function Prototype(name: string, storage: StorageClass): FunctionSpec {
    FunctionSpec(name, Function(INT, [], false, true, NO_QUALS), storage, [], None)
  }

  function PrototypedInTurn(platform: Platform, decode: string -> Literal, name: string, classes: seq<StorageClass>,
                            at: FileScope): Option<FileScope>
    requires platform.target.Valid()
  {
    if classes == [] then Some(at)
    else
      match FunctionAfter(platform, decode, Prototype(name, classes[0]), at)
      case None => None
      case Some(next) => PrototypedInTurn(platform, decode, name, classes[1..], next)
  }

  predicate IsPrototyped(name: string, previous: StorageClass, at: FileScope) {
    name in at.scope && at.scope[name] == Routine(Prototype(name, previous).ty, previous) && name !in at.definitions
  }

  /** A static declaration follows static ones alone. */
  predicate StaticsFirst(classes: seq<StorageClass>) {
    forall i :: 0 < i < |classes| && classes[i] == Static ==> classes[i - 1] == Static
  }

  lemma {:induction false} PrototypeOk(name: string, storage: StorageClass)
    requires storage in {Unspecified, Static, Extern}
    ensures var f := Prototype(name, storage);
            Shape(f) == f.ty && FunctionOk(f) && forall tags :: TagsAfter(f.ty, tags) == Some(tags)
  {
    IntIsDeclarable();
  }

  lemma {:induction false} PrototypeOnce(platform: Platform, decode: string -> Literal, name: string,
                                         storage: StorageClass, at: FileScope)
    requires platform.target.Valid() && storage in {Unspecified, Static, Extern} && name !in at.definitions
    ensures var next := FunctionAfter(platform, decode, Prototype(name, storage), at);
            && (name !in at.scope ==> next.Some?)
            && (forall previous :: IsPrototyped(name, previous, at) ==>
                  (next.Some? <==> (storage == Static ==> previous == Static)))
            && (next.Some? ==> IsPrototyped(name, storage, next.value))
  {
    PrototypeOk(name, storage);
    CompatibleReflexive(Prototype(name, storage).ty, false);
  }

  lemma {:induction false} PrototypesFollow(platform: Platform, decode: string -> Literal, name: string,
                                            previous: StorageClass, classes: seq<StorageClass>, at: FileScope)
    requires platform.target.Valid() && AtFileScope(classes) && IsPrototyped(name, previous, at)
    ensures PrototypedInTurn(platform, decode, name, classes, at).Some? <==> StaticsFirst([previous] + classes)
    decreases classes
  {
    hide FunctionAfter;
    if classes == [] { return; }
    PrototypeOnce(platform, decode, name, classes[0], at);
    var next := FunctionAfter(platform, decode, Prototype(name, classes[0]), at);
    FirstStatic(previous, classes);
    if next.Some? {
      PrototypesFollow(platform, decode, name, classes[0], classes[1..], next.value);
      assert [classes[0]] + classes[1..] == classes;
    }
  }

  lemma {:induction false} FirstStatic(previous: StorageClass, classes: seq<StorageClass>)
    requires classes != []
    ensures StaticsFirst([previous] + classes)
       <==> (classes[0] == Static ==> previous == Static) && StaticsFirst(classes)
  {
    var all := [previous] + classes;
    assert forall i :: 0 < i < |all| ==> all[i] == classes[i - 1];
    if StaticsFirst(all) {
      forall i | 0 < i < |classes| && classes[i] == Static
        ensures classes[i - 1] == Static
      {
        assert all[i + 1] == Static && all[i + 1 - 1] == classes[i - 1];
      }
      assert classes[0] == all[1] && all[1 - 1] == previous;
    }
  }

  /** A function declared with static, then without, and then with static again: C allows it. */
  predicate ForgetsFunction(classes: seq<StorageClass>) {
    var k := Leading(classes);
    k > 0 && Static in classes[k..]
  }

  lemma {:induction false} AllInternal(classes: seq<StorageClass>, i: nat)
    requires AtFileScope(classes) && i < |classes| && classes[0] == Static
    ensures IsInternal(classes, i, true)
  {
    if i > 0 { AllInternal(classes, i - 1); }
  }

  lemma {:induction false} NoStaticAfter(classes: seq<StorageClass>, k: nat, i: nat)
    requires StaticsFirst(classes) && k <= i < |classes| && classes[k] != Static
    ensures classes[i] != Static
    decreases i
  {
    if k < i { NoStaticAfter(classes, k, i - 1); }
  }

  lemma {:induction false} StaticsLead(classes: seq<StorageClass>)
    ensures StaticsFirst(classes) <==> Static !in classes[Leading(classes)..]
  {
    var k := Leading(classes);
    if Static in classes[k..] {
      var j :| 0 <= j < |classes[k..]| && classes[k..][j] == Static;
      if StaticsFirst(classes) { NoStaticAfter(classes, k, k + j); }
    } else {
      forall i | k <= i < |classes|
        ensures classes[i] != Static
      {
        assert classes[k..][i - k] == classes[i];
      }
    }
  }

  /** The same for the prototypes of a function: they are accepted exactly when C gives them one linkage, except where a
      static one comes after others that follow static ones. */
  lemma {:induction false} FunctionLinkageJudgedExactly(platform: Platform, decode: string -> Literal, name: string,
                                                        classes: seq<StorageClass>, at: FileScope)
    requires platform.target.Valid() && AtFileScope(classes) && name !in at.scope && name !in at.definitions
    ensures (PrototypedInTurn(platform, decode, name, classes, at).Some? == OneLinkage(classes, true))
       <==> !ForgetsFunction(classes)
  {
    if classes == [] { return; }
    hide FunctionAfter, IsInternal;
    PrototypeOnce(platform, decode, name, classes[0], at);
    var next := FunctionAfter(platform, decode, Prototype(name, classes[0]), at).value;
    PrototypesFollow(platform, decode, name, classes[0], classes[1..], next);
    assert [classes[0]] + classes[1..] == classes;
    StaticsLead(classes);
    if classes[0] == Static {
      forall i | 0 <= i < |classes|
        ensures IsInternal(classes, i, true)
      {
        AllInternal(classes, i);
      }
    } else {
      StaticLater(classes, true);
      assert classes[0..] == classes;
    }
  }
}
