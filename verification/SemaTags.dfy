/** Tags of structs, unions and enums. They have one name space for a whole unit, in which a tag keeps the kind it was
    first used with. */
module SemaTags {
  import opened SemaTypes
  import opened Wrappers

  type Tags = map<string, TagKind>

  /** The known tags after a use of one; None where it is known as another kind. */
  function TagAfter(sort: TagKind, tag: string, tags: Tags): Option<Tags> {
    if tag == "" then Some(tags)
    else if tag !in tags then Some(tags[tag := sort])
    else if tags[tag] == sort then Some(tags)
    else None
  }

  /** The known tags after a type has been written, from the outside to the inside and from left to right. */
  function TagsAfter(t: Type, tags: Tags): Option<Tags>
    decreases t
  {
    match t
    case Pointer(p, _) => TagsAfter(p, tags)
    case Array(e, _, _) => TagsAfter(e, tags)
    case Function(r, ps, _, _, _) =>
      (match TagsAfter(r, tags)
       case None => None
       case Some(known) => AllTagsAfter(ps, known))
    case Tagged(sort, tag, _) => TagAfter(sort, tag, tags)
    case _ => Some(tags)
  }

  function AllTagsAfter(ts: seq<Type>, tags: Tags): Option<Tags>
    decreases ts
  {
    if ts == [] then Some(tags)
    else
      match TagsAfter(ts[0], tags)
      case None => None
      case Some(known) => AllTagsAfter(ts[1..], known)
  }

  lemma {:induction false} AllTagsThen(ts: seq<Type>, i: nat, tags: Tags)
    requires i < |ts|
    ensures AllTagsAfter(ts[i..], tags)
         == match TagsAfter(ts[i], tags) case None => None case Some(known) => AllTagsAfter(ts[i + 1..], known)
  {
    assert ts[i..][0] == ts[i] && ts[i..][1..] == ts[i + 1..];
  }

  // ----- the order of uses does not matter -----

  /** Every named tag in the type is used as the kind that kinds gives it. */
  predicate UsedAs(t: Type, kinds: Tags)
    decreases t
  {
    match t
    case Pointer(p, _) => UsedAs(p, kinds)
    case Array(e, _, _) => UsedAs(e, kinds)
    case Function(r, ps, _, _, _) => UsedAs(r, kinds) && AllUsedAs(ps, kinds)
    case Tagged(sort, tag, _) => tag != "" ==> tag in kinds && kinds[tag] == sort
    case _ => true
  }

  predicate AllUsedAs(ts: seq<Type>, kinds: Tags)
    decreases ts
  {
    ts == [] || (UsedAs(ts[0], kinds) && AllUsedAs(ts[1..], kinds))
  }

  predicate Extended(tags: Tags, kinds: Tags) {
    forall tag :: tag in tags ==> tag in kinds && kinds[tag] == tags[tag]
  }

  /** Writing a type is fine exactly when one assignment of kinds to tags serves the known tags and the type; the tags
      known afterwards are the least such assignment. */
  lemma {:induction false} TagsAreConsistent(t: Type, tags: Tags, kinds: Tags)
    ensures Extended(tags, kinds) && UsedAs(t, kinds) ==> TagsAfter(t, tags).Some?
    ensures TagsAfter(t, tags).Some? ==>
              && Extended(tags, TagsAfter(t, tags).value) && UsedAs(t, TagsAfter(t, tags).value)
              && (Extended(TagsAfter(t, tags).value, kinds) <==> Extended(tags, kinds) && UsedAs(t, kinds))
    decreases t
  {
    match t
    case Pointer(p, _) => TagsAreConsistent(p, tags, kinds);
    case Array(e, _, _) => TagsAreConsistent(e, tags, kinds);
    case Function(r, ps, _, _, _) => {
      TagsAreConsistent(r, tags, kinds);
      if TagsAfter(r, tags).Some? {
        var known := TagsAfter(r, tags).value;
        AllTagsAreConsistent(ps, known, kinds);
        if TagsAfter(t, tags).Some? {
          UsedWithin(r, known, TagsAfter(t, tags).value);
        }
      }
    }
    case _ =>
  }

  lemma {:induction false} AllTagsAreConsistent(ts: seq<Type>, tags: Tags, kinds: Tags)
    ensures Extended(tags, kinds) && AllUsedAs(ts, kinds) ==> AllTagsAfter(ts, tags).Some?
    ensures AllTagsAfter(ts, tags).Some? ==>
              && Extended(tags, AllTagsAfter(ts, tags).value) && AllUsedAs(ts, AllTagsAfter(ts, tags).value)
              && (Extended(AllTagsAfter(ts, tags).value, kinds) <==> Extended(tags, kinds) && AllUsedAs(ts, kinds))
    decreases ts
  {
    if ts != [] {
      TagsAreConsistent(ts[0], tags, kinds);
      if TagsAfter(ts[0], tags).Some? {
        var known := TagsAfter(ts[0], tags).value;
        AllTagsAreConsistent(ts[1..], known, kinds);
        if AllTagsAfter(ts, tags).Some? { UsedWithin(ts[0], known, AllTagsAfter(ts, tags).value); }
      }
    }
  }

  lemma {:induction false} UsedWithin(t: Type, tags: Tags, kinds: Tags)
    requires UsedAs(t, tags) && Extended(tags, kinds)
    ensures UsedAs(t, kinds)
    decreases t
  {
    match t
    case Pointer(p, _) => UsedWithin(p, tags, kinds);
    case Array(e, _, _) => UsedWithin(e, tags, kinds);
    case Function(r, ps, _, _, _) => {
      UsedWithin(r, tags, kinds);
      AllUsedWithin(ps, tags, kinds);
    }
    case _ =>
  }

  lemma {:induction false} AllUsedWithin(ts: seq<Type>, tags: Tags, kinds: Tags)
    requires AllUsedAs(ts, tags) && Extended(tags, kinds)
    ensures AllUsedAs(ts, kinds)
    decreases ts
  {
    if ts != [] {
      UsedWithin(ts[0], tags, kinds);
      AllUsedWithin(ts[1..], tags, kinds);
    }
  }
}
