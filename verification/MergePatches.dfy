// JSON merge patches (section 2 of RFC 7396), which is how an existing NodeGroup is
// updated.
module MergePatches {
  import opened Wrappers

  datatype Json =
    | Null | Bool(flag: bool) | Num(number: int) | Str(text: string)
    | Arr(items: seq<Json>) | Obj(members: map<string, Json>)

  function Members(j: Json): map<string, Json> {
    if j.Obj? then j.members else map[]
  }

  function MergePatch(target: Json, patch: Json): Json
    decreases patch
  {
    if !patch.Obj? then patch else
    var was := Members(target);
    Obj(map k | k in was.Keys + patch.members.Keys && (k in patch.members ==> !patch.members[k].Null?) ::
      if k in patch.members then MergePatch(if k in was then was[k] else Null, patch.members[k]) else was[k])
  }

  // The target already is as the patch asks: named members agree, removed ones are absent.
  ghost predicate Covers(target: Json, patch: Json)
    decreases patch
  {
    if !patch.Obj? then target == patch else
    && target.Obj?
    && (forall k :: k in patch.members ==>
      if patch.members[k].Null? then k !in target.members
      else k in target.members && Covers(target.members[k], patch.members[k]))
  }

  // A patched object is as the patch asks.
  lemma {:induction false} PatchApplies(target: Json, patch: Json)
    ensures Covers(MergePatch(target, patch), patch)
    decreases patch
  {
    if patch.Obj? {
      var was := Members(target);
      forall k | k in patch.members && !patch.members[k].Null?
        ensures Covers(MergePatch(target, patch).members[k], patch.members[k])
      {
        PatchApplies(if k in was then was[k] else Null, patch.members[k]);
      }
    }
  }

  // A patch changes nothing exactly when the object already is as it asks.
  lemma {:induction false} PatchIsNoop(target: Json, patch: Json)
    ensures MergePatch(target, patch) == target <==> Covers(target, patch)
    decreases patch
  {
    PatchApplies(target, patch);
    if patch.Obj? && Covers(target, patch) {
      var result := MergePatch(target, patch).members;
      forall k | k in patch.members && !patch.members[k].Null?
        ensures result[k] == target.members[k]
      {
        PatchIsNoop(target.members[k], patch.members[k]);
      }
      assert result == target.members;
    }
  }

  lemma {:induction false} PatchTwice(target: Json, patch: Json)
    ensures MergePatch(MergePatch(target, patch), patch) == MergePatch(target, patch)
  {
    PatchApplies(target, patch);
    PatchIsNoop(MergePatch(target, patch), patch);
  }

  // Members the patch does not name are left alone.
  lemma {:induction false} PatchFrame(target: Json, patch: Json, k: string)
    requires target.Obj? && patch.Obj? && k !in patch.members
    ensures MergePatch(target, patch).Obj?
    ensures k in MergePatch(target, patch).members <==> k in target.members
    ensures k in target.members ==> MergePatch(target, patch).members[k] == target.members[k]
  {
  }

  // ---- The document along a path of keys ----

  function At(j: Json, path: seq<string>): Option<Json>
    decreases |path|
  {
    if path == [] then Some(j)
    else if j.Obj? && path[0] in j.members then At(j.members[path[0]], path[1..])
    else None
  }

  // The patch names every key of the path but one, down to objects before that one.
  ghost predicate Unnamed(patch: Json, path: seq<string>)
    decreases |path|
  {
    path != [] && patch.Obj? && (path[0] in patch.members ==> Unnamed(patch.members[path[0]], path[1..]))
  }

  lemma MemberOfPatched(target: Json, patch: Json, k: string)
    requires patch.Obj? && k in patch.members
    ensures
      var was := if target.Obj? && k in target.members then target.members[k] else Null;
      var now := MergePatch(target, patch).members;
      if patch.members[k].Null? then k !in now
      else k in now && now[k] == MergePatch(was, patch.members[k])
  {
  }

  // Whatever a path leads to that the patch does not name, at any depth, is as before.
  lemma {:induction false} PathFrame(target: Json, patch: Json, path: seq<string>)
    requires Unnamed(patch, path)
    ensures At(MergePatch(target, patch), path) == At(target, path)
    decreases |path|
  {
    var k := path[0];
    if k in patch.members {
      MemberOfPatched(target, patch, k);
      PathFrame(if target.Obj? && k in target.members then target.members[k] else Null, patch.members[k], path[1..]);
    } else if target.Obj? {
      PatchFrame(target, patch, k);
    }
  }

  // Where the patch holds null there is nothing afterwards; where it holds another value
  // that is no object there is that value; where it holds an object there is an object.
  lemma {:induction false} PathSet(target: Json, patch: Json, path: seq<string>)
    requires At(patch, path).Some? && path != []
    ensures
      var asked, now := At(patch, path).value, At(MergePatch(target, patch), path);
      if asked.Null? then now == None
      else if asked.Obj? then now.Some? && now.value.Obj?
      else now == Some(asked)
    decreases |path|
  {
    var k := path[0];
    MemberOfPatched(target, patch, k);
    if |path| > 1 {
      PathSet(if target.Obj? && k in target.members then target.members[k] else Null, patch.members[k], path[1..]);
    } else {
      assert path[1..] == [];
    }
  }
}
