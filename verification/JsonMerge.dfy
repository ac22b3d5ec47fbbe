/** Merging a candidate patch into a rendered deployment spec, against the merge patch of RFC 7396. */
module JsonMerge {
  import opened Wrappers
  import opened JsonValues

  /** merge_json_value: members are merged one by one only where both sides are objects. */
  function Merge(base: Json, patch: Json): Json
    decreases patch
  {
    if base.Object? && patch.Object? then
      Object(map k | k in base.members.Keys + patch.members.Keys && !(k in patch.members && patch.members[k].Null?) ::
               if k in patch.members then Merge(Get(base, k), patch.members[k]) else base.members[k])
    else patch
  }

  /** MergePatch of section 2 of RFC 7396: a target that is no object becomes an empty one first. */
  function MergePatch(target: Json, patch: Json): Json
    decreases patch
  {
    if patch.Object? then
      var start := if target.Object? then target.members else map[];
      Object(map k | k in start.Keys + patch.members.Keys && !(k in patch.members && patch.members[k].Null?) ::
               if k in patch.members then MergePatch(if k in start then start[k] else Null, patch.members[k]) else start[k])
    else patch
  }

  /** The in-place loop over the members of the patch. */
  method MergeJsonValue(base: Json, patch: Json) returns (r: Json)
    ensures r == Merge(base, patch)
    decreases patch
  {
    if !base.Object? || !patch.Object? {
      return patch;
    }
    var members := base.members;
    var rest := patch.members.Keys;
    while rest != {}
      invariant rest <= patch.members.Keys
      invariant forall k | k in rest || k !in patch.members :: (k in members <==> k in base.members)
      invariant forall k | k in members && (k in rest || k !in patch.members) :: members[k] == base.members[k]
      invariant forall k | k in patch.members && k !in rest ::
        if patch.members[k].Null? then k !in members else k in members && members[k] == Merge(Get(base, k), patch.members[k])
      decreases |rest|
    {
      var k :| k in rest;
      if patch.members[k].Null? {
        members := members - {k};
      } else {
        var merged := MergeJsonValue(if k in members then members[k] else Null, patch.members[k]);
        members := members[k := merged];
      }
      rest := rest - {k};
    }
    r := Object(members);
    assert r.members.Keys == Merge(base, patch).members.Keys;
  }

  // ---------------------------------------------------------------- agreement with the standard

  /** No member, at any depth below objects only, is null. */
  predicate NoNullMembers(v: Json) {
    v.Object? ==> forall k | k in v.members :: !v.members[k].Null? && NoNullMembers(v.members[k])
  }

  /** Wherever an object of the patch meets something that is no object, the patch's object has no
      null member. */
  predicate Fits(base: Json, patch: Json)
    decreases patch
  {
    patch.Object? ==>
      if base.Object? then forall k | k in patch.members :: Fits(Get(base, k), patch.members[k])
      else NoNullMembers(patch)
  }

  /** Over something that is no object, the standard's result is the patch itself exactly without
      null members; it is always free of them. */
  lemma {:induction false} PatchOverNoObject(target: Json, patch: Json)
    requires !target.Object?
    ensures MergePatch(target, patch) == patch <==> NoNullMembers(patch)
    ensures NoNullMembers(MergePatch(target, patch))
    decreases patch
  {
    if patch.Object? {
      var merged := MergePatch(target, patch);
      forall k | k in patch.members
        ensures MergePatch(Null, patch.members[k]) == patch.members[k] <==> NoNullMembers(patch.members[k])
        ensures NoNullMembers(MergePatch(Null, patch.members[k]))
      {
        PatchOverNoObject(Null, patch.members[k]);
      }
      if NoNullMembers(patch) {
        assert merged.members == patch.members;
      }
    }
  }

  lemma MergeAt(base: Json, patch: Json, k: string)
    requires base.Object? && patch.Object? && k in patch.members && !patch.members[k].Null?
    ensures Merge(base, patch).Object? && k in Merge(base, patch).members
    ensures Merge(base, patch).members[k] == Merge(Get(base, k), patch.members[k])
    ensures k in MergePatch(base, patch).members && MergePatch(base, patch).members[k] == MergePatch(Get(base, k), patch.members[k])
  {
  }

  /** The merge is the standard's exactly when the patch fits; a patch without nulls always does. */
  lemma {:induction false} MergesByStandardIff(base: Json, patch: Json)
    ensures Merge(base, patch) == MergePatch(base, patch) <==> Fits(base, patch)
    decreases patch
  {
    if patch.Object? && base.Object? {
      forall k | k in patch.members
        ensures Merge(Get(base, k), patch.members[k]) == MergePatch(Get(base, k), patch.members[k]) <==> Fits(Get(base, k), patch.members[k])
      {
        MergesByStandardIff(Get(base, k), patch.members[k]);
      }
      if Fits(base, patch) {
        assert Merge(base, patch).members == MergePatch(base, patch).members;
      } else {
        var k :| k in patch.members && !Fits(Get(base, k), patch.members[k]);
        MergeAt(base, patch, k);
      }
    } else if patch.Object? {
      PatchOverNoObject(base, patch);
    }
  }

  lemma {:induction false} NoNullsFit(base: Json, patch: Json)
    requires NoNullMembers(patch)
    ensures Fits(base, patch)
    decreases patch
  {
    if patch.Object? && base.Object? {
      forall k | k in patch.members
        ensures Fits(Get(base, k), patch.members[k])
      {
        NoNullsFit(Get(base, k), patch.members[k]);
      }
    }
  }

  // ---------------------------------------------------------------- merging twice

  /** Merging something without null members into itself changes nothing. */
  lemma {:induction false} SelfMerge(v: Json)
    ensures Merge(v, v) == v <==> NoNullMembers(v)
  {
    if v.Object? {
      forall k | k in v.members
        ensures Merge(v.members[k], v.members[k]) == v.members[k] <==> NoNullMembers(v.members[k])
      {
        SelfMerge(v.members[k]);
      }
      var merged := Merge(v, v);
      if NoNullMembers(v) {
        assert merged.members == v.members;
      } else {
        var k :| k in v.members && (v.members[k].Null? || !NoNullMembers(v.members[k]));
        if !v.members[k].Null? {
          MergeAt(v, v, k);
        }
      }
    }
  }

  /** The merge is idempotent exactly when the patch fits. */
  lemma {:induction false} IdempotentIff(base: Json, patch: Json)
    ensures Merge(Merge(base, patch), patch) == Merge(base, patch) <==> Fits(base, patch)
    decreases patch
  {
    var once := Merge(base, patch);
    if patch.Object? && base.Object? {
      var twice := Merge(once, patch);
      forall k | k in patch.members
        ensures Merge(Merge(Get(base, k), patch.members[k]), patch.members[k]) == Merge(Get(base, k), patch.members[k])
                <==> Fits(Get(base, k), patch.members[k])
      {
        IdempotentIff(Get(base, k), patch.members[k]);
      }
      forall k | k in patch.members && !patch.members[k].Null?
        ensures k in once.members && Get(once, k) == Merge(Get(base, k), patch.members[k])
        ensures k in twice.members && Get(twice, k) == Merge(Get(once, k), patch.members[k])
      {
        MergeAt(base, patch, k);
        MergeAt(once, patch, k);
      }
      if Fits(base, patch) {
        assert twice.members == once.members;
      } else {
        var k :| k in patch.members && !Fits(Get(base, k), patch.members[k]);
        assert Get(twice, k) != Get(once, k);
      }
    } else if patch.Object? {
      SelfMerge(patch);
    }
  }

  // ---------------------------------------------------------------- paths

  /** The value at a path of member names. */
  function At(v: Json, path: seq<string>): Option<Json>
    decreases |path|
  {
    if path == [] then Some(v)
    else if v.Object? && path[0] in v.members then At(v.members[path[0]], path[1..])
    else None
  }

  /** The path leaves the patch's objects before the patch says anything about it. */
  predicate Unmentioned(patch: Json, path: seq<string>)
    decreases |path|
  {
    patch.Object? && path != [] && (path[0] in patch.members ==> Unmentioned(patch.members[path[0]], path[1..]))
  }

  lemma {:induction false} UnmentionedIsAbsent(patch: Json, path: seq<string>)
    requires Unmentioned(patch, path)
    ensures At(patch, path) == None
    decreases |path|
  {
    if path[0] in patch.members {
      UnmentionedIsAbsent(patch.members[path[0]], path[1..]);
    }
  }

  /** What the patch does not mention stays. */
  lemma {:induction false} UnmentionedStays(base: Json, patch: Json, path: seq<string>)
    requires Unmentioned(patch, path)
    ensures At(Merge(base, patch), path) == At(base, path)
    decreases |path|
  {
    if !base.Object? {
      UnmentionedIsAbsent(patch, path);
    } else if path[0] in patch.members {
      MergeAt(base, patch, path[0]);
      UnmentionedStays(Get(base, path[0]), patch.members[path[0]], path[1..]);
    }
  }

  /** What the patch sets, other than an object or null, is set. */
  lemma {:induction false} LeafIsSet(base: Json, patch: Json, path: seq<string>)
    requires At(patch, path).Some? && !At(patch, path).value.Object? && !At(patch, path).value.Null?
    ensures At(Merge(base, patch), path) == At(patch, path)
    decreases |path|
  {
    if path != [] && base.Object? {
      if !patch.members[path[0]].Null? {
        MergeAt(base, patch, path[0]);
        LeafIsSet(Get(base, path[0]), patch.members[path[0]], path[1..]);
      }
    }
  }
}
