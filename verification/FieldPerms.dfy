/** Per-field permissions (crates/api/src/field_perms.rs): a field's class gives rank floors, override rows
    replace them, and every written or shown field is held against its floor. */
module FieldPerms {
  import opened Prelude
  import opened Json
  import opened Registry
  import opened Objects
  import opened Rbac

  /** A `field_permissions` row; the table is keyed by (type_id, field, role). */
  datatype Perm = Perm(canRead: bool, canWrite: bool)
  type Overrides = map<(string, string, string), Perm>

  datatype Floors = Floors(read: int, write: int)

  function ClassRanks(permClass: string): Floors {
    match permClass
    case "owner_grade" => Floors(3, 4)
    case "readonly" => Floors(1, MAX_I32)
    case "system" => Floors(1, MAX_I32)
    case _ => Floors(1, 2)
  }

  /** SQL `min` over a set of ranks. */
  function Lowest(s: set<int>): (r: Option<int>)
    ensures r.None? <==> s == {}
    ensures r.Some? ==> r.value in s && forall y | y in s :: r.value <= y
  {
    var negated := set x | x in s :: -x;
    var r := Highest(negated);
    assert forall x | x in s :: -x in negated;
    if r.None? then None else Some(-r.value)
  }

  function Or(o: Option<int>, default: int): int {
    if o.Some? then o.value else default
  }

  /** The class floors, each replaced by the lowest rank an override row permits, if there is one. */
  function FieldFloors(roles: map<string, int>, perms: Overrides, typeId: string, f: FieldDef): Floors {
    var class_ := ClassRanks(f.permClass);
    var readers := set k | k in perms && k.0 == typeId && k.1 == f.field && k.2 in roles && perms[k].canRead :: roles[k.2];
    var writers := set k | k in perms && k.0 == typeId && k.1 == f.field && k.2 in roles && perms[k].canWrite :: roles[k.2];
    Floors(Or(Lowest(readers), class_.read), Or(Lowest(writers), class_.write))
  }

  /** The caller's rank for the field gates: admins hold the maximum, no reach is rank 0. */
  function RankOn(a: Access, caller: Caller, obj: Id): int {
    if caller.admin then MAX_I32 else Or(EffectiveRank(a, caller.actor, obj), 0)
  }

  predicate MayWrite(roles: map<string, int>, perms: Overrides, td: TypeDef, rank: int, name: string) {
    td.Field(name).Some? ==> rank >= FieldFloors(roles, perms, td.typeId, td.Field(name).value).write
  }

  predicate MayRead(roles: map<string, int>, perms: Overrides, typeId: string, rank: int, f: FieldDef) {
    rank >= FieldFloors(roles, perms, typeId, f).read
  }

  /** The write gate on a set of written keys. */
  predicate WritesAllowed(roles: map<string, int>, perms: Overrides, td: TypeDef, rank: int, written: set<string>) {
    rank == MAX_I32 || forall name | name in written :: MayWrite(roles, perms, td, rank, name)
  }

  ghost predicate FirstBarred(roles: map<string, int>, perms: Overrides, td: TypeDef, rank: int, written: seq<string>, i: int) {
    && 0 <= i < |written| && !MayWrite(roles, perms, td, rank, written[i])
    && forall j | 0 <= j < i :: MayWrite(roles, perms, td, rank, written[j])
  }

  /** Stops at the first written field below its floor and names it. */
  method RequireWrite(roles: map<string, int>, perms: Overrides, td: TypeDef, rank: int, written: seq<string>)
    returns (barred: Option<string>)
    ensures barred.None? <==> WritesAllowed(roles, perms, td, rank, set name | name in written)
    ensures barred.Some? ==> exists i :: FirstBarred(roles, perms, td, rank, written, i) && barred == Some(written[i])
  {
    if rank == MAX_I32 { return None; }
    for i := 0 to |written|
      invariant forall j | 0 <= j < i :: MayWrite(roles, perms, td, rank, written[j])
    {
      var f := td.Field(written[i]);
      if f.None? { continue; }
      var floors := FieldFloors(roles, perms, td.typeId, f.value);
      if rank < floors.write {
        ghost var names := set name | name in written;
        assert written[i] in names && !MayWrite(roles, perms, td, rank, written[i]);
        assert FirstBarred(roles, perms, td, rank, written, i);
        return Some(written[i]);
      }
    }
    return None;
  }

  /** What a reader of this rank keeps of a row: known fields below their floor are dropped. */
  ghost predicate Kept(roles: map<string, int>, perms: Overrides, td: TypeDef, rank: int, k: string) {
    rank == MAX_I32 || forall f | f in td.fields && f.field == k :: MayRead(roles, perms, td.typeId, rank, f)
  }

  ghost function Readable(roles: map<string, int>, perms: Overrides, td: TypeDef, rank: int, data: Record): Record {
    map k | k in data && Kept(roles, perms, td, rank, k) :: data[k]
  }

  ghost predicate KeptBelow(roles: map<string, int>, perms: Overrides, td: TypeDef, rank: int, bound: nat, k: string) {
    forall j | 0 <= j < bound && j < |td.fields| && td.fields[j].field == k ::
      MayRead(roles, perms, td.typeId, rank, td.fields[j])
  }

  method FilterReadable(roles: map<string, int>, perms: Overrides, td: TypeDef, rank: int, data: Record)
    returns (out: Record)
    ensures out == Readable(roles, perms, td, rank, data)
  {
    if rank == MAX_I32 { return data; }
    out := data;
    for i := 0 to |td.fields|
      invariant forall k :: Lookup(out, k) == (if KeptBelow(roles, perms, td, rank, i, k) then Lookup(data, k) else None)
    {
      var f := td.fields[i];
      ghost var before := out;
      if rank < FieldFloors(roles, perms, td.typeId, f).read {
        out := out - {f.field};
      }
      forall k
        ensures Lookup(out, k) == (if KeptBelow(roles, perms, td, rank, i + 1, k) then Lookup(data, k) else None)
      {
        assert Lookup(before, k) == if KeptBelow(roles, perms, td, rank, i, k) then Lookup(data, k) else None;
        assert KeptBelow(roles, perms, td, rank, i + 1, k) <==>
          KeptBelow(roles, perms, td, rank, i, k) && (f.field == k ==> MayRead(roles, perms, td.typeId, rank, f));
      }
    }
    forall k ensures Lookup(out, k) == Lookup(Readable(roles, perms, td, rank, data), k) {
      assert KeptBelow(roles, perms, td, rank, |td.fields|, k) <==> Kept(roles, perms, td, rank, k);
    }
    SameLookups(out, Readable(roles, perms, td, rank, data));
  }

  ghost function ReadableNames(roles: map<string, int>, perms: Overrides, td: TypeDef, rank: int): set<string> {
    set f | f in td.fields && MayRead(roles, perms, td.typeId, rank, f) :: f.field
  }

  method ReadableSet(roles: map<string, int>, perms: Overrides, td: TypeDef, rank: int) returns (out: set<string>)
    ensures out == ReadableNames(roles, perms, td, rank)
  {
    out := {};
    for i := 0 to |td.fields|
      invariant out == set j | 0 <= j < i && MayRead(roles, perms, td.typeId, rank, td.fields[j]) :: td.fields[j].field
    {
      if rank >= FieldFloors(roles, perms, td.typeId, td.fields[i]).read {
        out := out + {td.fields[i].field};
      }
    }
    forall k ensures k in out <==> k in ReadableNames(roles, perms, td, rank) {
      if k in ReadableNames(roles, perms, td, rank) {
        var f :| f in td.fields && MayRead(roles, perms, td.typeId, rank, f) && f.field == k;
        var j :| 0 <= j < |td.fields| && td.fields[j] == f;
      }
    }
  }

  /** Roles rank within 32 bits, as their column does. */
  ghost predicate RanksFit(roles: map<string, int>) {
    forall role | role in roles :: roles[role] <= MAX_I32
  }

  lemma ReadFloorFits(roles: map<string, int>, perms: Overrides, typeId: string, f: FieldDef)
    requires RanksFit(roles)
    ensures FieldFloors(roles, perms, typeId, f).read <= MAX_I32
  {}

  /** The rows shown and the advertised `can_read` flags agree on every registered field. */
  lemma ShownIffAdvertised(roles: map<string, int>, perms: Overrides, td: TypeDef, rank: int, data: Record, k: string)
    requires DistinctFields(td.fields) && RanksFit(roles)
    requires k in data && td.Field(k).Some?
    ensures k in Readable(roles, perms, td, rank, data) <==> k in ReadableNames(roles, perms, td, rank)
  {
    var f := td.Field(k).value;
    ReadFloorFits(roles, perms, td.typeId, f);
    forall g | g in td.fields && g.field == k ensures g == f {
      var i :| 0 <= i < |td.fields| && td.fields[i] == g;
      FindAt(td.fields, i);
    }
  }

  /** A higher rank never sees less. */
  lemma ReadingGrowsWithRank(roles: map<string, int>, perms: Overrides, td: TypeDef, low: int, high: int, data: Record)
    requires low <= high <= MAX_I32
    ensures Readable(roles, perms, td, low, data).Items <= Readable(roles, perms, td, high, data).Items
    ensures low < MAX_I32 ==> ReadableNames(roles, perms, td, low) <= ReadableNames(roles, perms, td, high)
  {
    forall k | k in data && Kept(roles, perms, td, low, k) ensures Kept(roles, perms, td, high, k) {
      if low == MAX_I32 {}
    }
  }

  // ---- who may change what -------------------------------------------------------

  /** An accepted PATCH changes only fields the caller's rank may write. */
  lemma PatchRespectsFloors(roles: map<string, int>, perms: Overrides, td: TypeDef, rank: int,
                            existing: Record, payload: Record, k: string)
    requires InputOk(td, payload, false) && WritesAllowed(roles, perms, td, rank, payload.Keys) && rank != MAX_I32
    requires Lookup(PatchData(existing, payload), k) != Lookup(existing, k)
    ensures IsWritable(td, k) && rank >= FieldFloors(roles, perms, td.typeId, td.Field(k).value).write
  {
    if k !in payload { PatchKeepsOmittedKeys(existing, payload, k); }
  }

  /** PUT checks the same floors on the keys it is given, but also resets the editable fields it is not
      given. It stays within the caller's floors exactly when those resets change nothing above them. */
  lemma PutRespectsFloorsIff(roles: map<string, int>, perms: Overrides, td: TypeDef, rank: int,
                             existing: Record, payload: Record)
    requires DistinctFields(td.fields)
    requires InputOk(td, payload, false) && WritesAllowed(roles, perms, td, rank, payload.Keys) && rank != MAX_I32
    ensures (forall k | Lookup(PutData(td, existing, payload), k) != Lookup(existing, k) ::
               MayWrite(roles, perms, td, rank, k))
      <==> (forall f | f in td.fields && f.Writable() && f.field !in payload ::
              MayWrite(roles, perms, td, rank, f.field) || Lookup(existing, f.field) == f.Default())
  {
    var after := PutData(td, existing, payload);
    forall f | f in td.fields && f.Writable() && f.field !in payload
      ensures Lookup(after, f.field) == f.Default()
    {
      PutLookup(td, existing, payload, f.field);
      var i :| 0 <= i < |td.fields| && td.fields[i] == f;
      FindAt(td.fields, i);
    }
    forall k | Lookup(after, k) != Lookup(existing, k)
      ensures k in payload || (IsWritable(td, k) && td.Field(k).value in td.fields)
    {
      PutLookup(td, existing, payload, k);
    }
  }

  /** It can: a member's empty PUT clears an owner-grade field it may not write. */
  lemma PutClearsWhatItMayNotWrite()
    ensures var f := FieldDef("email", "text", false, true, "owner_grade", Obj(map[]));
      var td := TypeDef("card", "CRD", [], Obj(map[]), [f]);
      var existing := map["email" := Str("a@b")];
      && WritesAllowed(map["member" := 2], map[], td, 2, {}) && InputOk(td, map[], false)
      && Lookup(PutData(td, existing, map[]), "email") != Lookup(existing, "email")
      && !MayWrite(map["member" := 2], map[], td, 2, "email")
  {
    var f := FieldDef("email", "text", false, true, "owner_grade", Obj(map[]));
    var td := TypeDef("card", "CRD", [], Obj(map[]), [f]);
    assert td.Field("email") == Some(f);
    PutLookup(td, map["email" := Str("a@b")], map[], "email");
  }
}
