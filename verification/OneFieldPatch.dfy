/** What a one-field PATCH by a caller who may send it comes to, on any table: the step the concrete runs are
    made of. */
module OneFieldPatch {
  import opened Prelude
  import opened Json
  import opened Registry
  import opened Objects
  import opened Validity
  import opened Cases
  import opened Server
  import opened Runs
  import opened Rbac
  import FieldPerms
  import M = Members

  /** A value that a merge stores as it is, over whatever was there. */
  predicate Plain(v: Value) {
    !v.Null? && !v.Obj?
  }

  lemma PlainPatchSetsTheKey(existing: Record, k: string, v: Value)
    requires Plain(v)
    ensures PatchData(existing, map[k := v]) == existing[k := v]
  {
    var merged := MergePatch(Obj(existing), Obj(map[k := v]));
    MergeFollowsThePatch(Obj(existing), Obj(map[k := v]), [k]);
    assert Says(Obj(map[k := v]), [k]) == Written(v) by { assert At(v, []) == Some(v); }
    assert At(merged, [k]) == Lookup(merged.m, k);
    forall other ensures Lookup(merged.m, other) == Lookup(existing[k := v], other) {
      if other != k { PatchKeepsOmittedKeys(existing, map[k := v], other); }
    }
    SameLookups(merged.m, existing[k := v]);
  }

  lemma OneWritableKey(td: TypeDef, i: nat, v: Value)
    requires DistinctFields(td.fields) && i < |td.fields| && td.fields[i].Writable()
    ensures InputOk(td, map[td.fields[i].field := v], false)
  {
    FindAt(td.fields, i);
  }

  lemma StaysFinal(td: TypeDef, existing: Record, i: nat, v: Value)
    requires DistinctFields(td.fields) && FinalOk(td, existing) && i < |td.fields|
    requires Plain(v) && KindFits(td.fields[i], v)
    ensures FinalOk(td, existing[td.fields[i].field := v])
  {
    CoercedIffFits(td.fields[i], v);
    hide KindFits, CoerceOk;
    forall f | f in td.fields ensures FieldFinalOk(f, existing[td.fields[i].field := v]) {
      assert FieldFinalOk(f, existing);
      var j :| 0 <= j < |td.fields| && td.fields[j] == f;
      if f.field == td.fields[i].field {
        FindAt(td.fields, i);
        FindAt(td.fields, j);
      }
    }
  }

  /** The pending write of setting field `i` of the object to `v`. */
  function Setting(db: Db, typeId: string, id: Id, i: nat, v: Value, tag: int): Pending
    requires typeId in db.registry && id in db.rows && i < |db.registry[typeId].fields|
  {
    var td, row := db.registry[typeId], db.rows[id];
    var k := td.fields[i].field;
    Pending(id, typeId, Patch, map[k := v], tag, row.data, row.version, row.data[k := v], ScopeParent(td, row.data[k := v]))
  }

  /** The field takes the value, and if it is a case the case gate lets the change through. */
  ghost predicate Settable(db: Db, typeId: string, id: Id, i: nat, v: Value) {
    && typeId in db.registry && RowExists(db, id, typeId) && i < |db.registry[typeId].fields|
    && var f := db.registry[typeId].fields[i];
    && f.Writable() && Plain(v) && KindFits(f, v)
    && (typeId == CASE ==>
          ValidateCaseChange(db.workflows, db.checks, id, db.rows[id].data[f.field := v], StrAt(db.rows[id].data, "status")).Ok?)
  }

  /** Admins may set any field; others need rank two on the object and the field's floor. */
  ghost predicate MaySet(db: Db, caller: Caller, typeId: string, id: Id, i: nat)
    requires typeId in db.registry && i < |db.registry[typeId].fields|
  {
    caller.admin ||
    (var rank := EffectiveRank(db.access, caller.actor, id);
     && rank.Some? && rank.value >= 2
     && rank.value >= FieldPerms.FieldFloors(db.access.roles, db.perms, db.registry[typeId].typeId, db.registry[typeId].fields[i]).write)
  }

  lemma GoodRow(db: Db, typeId: string, id: Id)
    requires Good(db) && typeId in db.registry && RowExists(db, id, typeId)
    ensures DistinctFields(db.registry[typeId].fields) && FinalOk(db.registry[typeId], db.rows[id].data)
  {
    GoodKeys(db);
    hide M.Sound, FinalOk;
    assert RowGood(db, id);
  }

  lemma MaySetIsAllowed(db: Db, caller: Caller, typeId: string, id: Id, i: nat, v: Value)
    requires typeId in db.registry && i < |db.registry[typeId].fields| && DistinctFields(db.registry[typeId].fields)
    requires MaySet(db, caller, typeId, id, i)
    ensures FieldPerms.WritesAllowed(db.access.roles, db.perms, db.registry[typeId], FieldPerms.RankOn(db.access, caller, id),
                                     map[db.registry[typeId].fields[i].field := v].Keys)
  {
    FindAt(db.registry[typeId].fields, i);
    hide EffectiveRank, FieldPerms.FieldFloors;
  }

  lemma SettingAssembles(db: Db, caller: Caller, typeId: string, id: Id, i: nat, v: Value)
    requires Good(db) && Settable(db, typeId, id, i, v) && MaySet(db, caller, typeId, id, i)
    ensures var k := db.registry[typeId].fields[i].field;
      Assemble(db, caller, Patch, typeId, id, map[k := v]) == Ok(db.rows[id].data[k := v])
  {
    hide Good, InputOk, FinalOk, PatchData, ValidateCaseChange, KindFits, MaySet, FieldPerms.WritesAllowed, FieldPerms.RankOn;
    var td := db.registry[typeId];
    GoodRow(db, typeId, id);
    OneWritableKey(td, i, v);
    PlainPatchSetsTheKey(db.rows[id].data, td.fields[i].field, v);
    StaysFinal(td, db.rows[id].data, i, v);
    MaySetIsAllowed(db, caller, typeId, id, i, v);
  }

  /** Whoever may set the field may set it to any value it takes. */
  lemma SettingIsPrepared(db: Db, caller: Caller, typeId: string, id: Id, i: nat, v: Value, tag: int)
    requires Good(db) && Settable(db, typeId, id, i, v) && MaySet(db, caller, typeId, id, i)
    ensures Prepare(db, caller, Patch, typeId, id, Tag(tag), map[db.registry[typeId].fields[i].field := v])
      == Ok(Setting(db, typeId, id, i, v, tag))
  {
    hide Good, Assemble, ScopeParent, ValidateCaseChange, KindFits, EffectiveRank, FieldPerms.FieldFloors;
    SettingAssembles(db, caller, typeId, id, i, v);
    assert Admit(db, caller, typeId, id, Tag(tag)) == Ok(tag);
  }
}
