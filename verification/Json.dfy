/** JSON values and JSON Merge Patch (crates/api/src/objects.rs, merge_patch). */
module Json {
  import opened Prelude

  /** An object is a map from member names, so its member order is not part of the value. Numbers keep
      only what the field kinds look at: whether they are integers. */
  datatype Value =
    | Null
    | Bool(b: bool)
    | Int(n: int)
    | Float(f: real)
    | Str(s: string)
    | Arr(items: seq<Value>)
    | Obj(m: map<string, Value>)

  type Record = map<string, Value>

  /** `v.get(key)`: a member of an object, nothing on any other value. */
  function Get(v: Value, key: string): Option<Value> {
    if v.Obj? && key in v.m then Some(v.m[key]) else None
  }

  /** `v.get(key).and_then(as_str)` on a data record. */
  function StrAt(data: Record, key: string): Option<string> {
    if key in data && data[key].Str? then Some(data[key].s) else None
  }

  function MembersOf(v: Value): Record {
    if v.Obj? then v.m else map[]
  }

  /** The recursive definition of section 2 of RFC 7386, member by member. */
  function MergePatch(target: Value, patch: Value): (r: Value)
    decreases patch
  {
    match patch
    case Obj(pm) =>
      var t := MembersOf(target);
      Obj(map k | k in t.Keys + pm.Keys && (k in pm ==> !pm[k].Null?) ::
            if k in pm then MergePatch(if k in t then t[k] else Null, pm[k]) else t[k])
    case _ => patch
  }

  function Lookup(m: Record, k: string): Option<Value> {
    if k in m then Some(m[k]) else None
  }

  /** What one patch member leaves of the target's. */
  function MergedMember(original: Record, pm: Record, k: string): Option<Value>
    requires k in pm
  {
    if pm[k].Null? then None
    else Some(MergePatch(if k in original then original[k] else Null, pm[k]))
  }

  ghost predicate MemberMerged(original: Record, pm: Record, merged: Record, k: string) {
    Lookup(merged, k) == if k in pm then MergedMember(original, pm, k) else Lookup(original, k)
  }

  lemma MergeMemberwise(target: Value, pm: Record, merged: Record)
    requires forall k :: MemberMerged(MembersOf(target), pm, merged, k)
    ensures Obj(merged) == MergePatch(target, Obj(pm))
  {
    var t := MembersOf(target);
    var r := MergePatch(target, Obj(pm)).m;
    forall k ensures k in merged <==> k in r
      ensures k in r ==> merged[k] == r[k]
    {
      assert MemberMerged(t, pm, merged, k);
    }
    assert merged == r;
  }

  /** The handler's loop: for each patch member remove the target's, then put back the merged value. */
  method MergePatchInPlace(target: Value, patch: Value) returns (r: Value)
    ensures r == MergePatch(target, patch)
    decreases patch
  {
    if !patch.Obj? {
      return patch;
    }
    var pm := patch.m;
    var t := MembersOf(target);
    ghost var original := t;
    var todo := pm.Keys;
    while todo != {}
      invariant todo <= pm.Keys
      invariant forall k | k in pm && k !in todo :: MemberMerged(original, pm, t, k)
      invariant forall k | k !in pm || k in todo :: Lookup(t, k) == Lookup(original, k)
      decreases |todo|
    {
      var k :| k in todo;
      ghost var before := t;
      assert Lookup(before, k) == Lookup(original, k);
      var v := pm[k];
      if v.Null? {
        t := t - {k};
      } else {
        var cur := if k in t then t[k] else Null;
        t := t - {k};
        assert v < patch;
        var merged := MergePatchInPlace(cur, v);
        t := t[k := merged];
      }
      todo := todo - {k};
      assert MemberMerged(original, pm, t, k);
      assert forall j | j != k :: Lookup(t, j) == Lookup(before, j);
    }
    MergeMemberwise(target, pm, t);
    r := Obj(t);
  }

  /** The value at a path of member names. */
  function At(v: Value, path: seq<string>): Option<Value> {
    if path == [] then Some(v)
    else match Get(v, path[0])
      case None => None
      case Some(child) => At(child, path[1..])
  }

  /** What a patch says about a path: nothing, to delete it, or (below its objects) a value for it. */
  datatype Verdict = Silent | Cleared | Written(value: Value) | Opened

  function Says(patch: Value, path: seq<string>): Verdict {
    if !patch.Obj? then
      match At(patch, path)
      case None => Cleared
      case Some(v) => Written(v)
    else if path == [] then Opened
    else if path[0] !in patch.m then Silent
    else if patch.m[path[0]].Null? then Cleared
    else Says(patch.m[path[0]], path[1..])
  }

  /** A merge leaves every path the patch is silent on as it was, at any depth; it clears what the patch
      nulls, writes what the patch gives, and makes an object where the patch descends. */
  lemma {:induction false} MergeFollowsThePatch(target: Value, patch: Value, path: seq<string>)
    ensures var after := At(MergePatch(target, patch), path);
      match Says(patch, path)
      case Silent => after == At(target, path)
      case Cleared => after.None?
      case Written(v) => after == Some(v)
      case Opened => after.Some? && after.value.Obj?
    decreases path
  {
    if patch.Obj? && path != [] && path[0] in patch.m && !patch.m[path[0]].Null? {
      var t := MembersOf(target);
      var cur := if path[0] in t then t[path[0]] else Null;
      MergeFollowsThePatch(cur, patch.m[path[0]], path[1..]);
      if cur.Null? && Says(patch, path).Silent? {
        SilentIsNotTheRoot(patch.m[path[0]], path[1..]);
      }
    }
  }

  lemma SilentIsNotTheRoot(patch: Value, path: seq<string>)
    requires Says(patch, path).Silent?
    ensures path != []
  {}

  /** Merging a patch twice is merging it once. */
  lemma {:induction false} MergeIsIdempotent(target: Value, patch: Value)
    ensures MergePatch(MergePatch(target, patch), patch) == MergePatch(target, patch)
    decreases patch
  {
    if patch.Obj? {
      var once := MergePatch(target, patch);
      var twice := MergePatch(once, patch);
      var t := MembersOf(target);
      forall k | k in once.m && k in patch.m ensures twice.m[k] == once.m[k] {
        MergeIsIdempotent(if k in t then t[k] else Null, patch.m[k]);
      }
      assert once.m.Keys == twice.m.Keys;
      assert once.m == twice.m;
    }
  }
}
