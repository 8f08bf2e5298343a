/** The type registry (crates/api/src/registry.rs): a type is data, so the handlers read its shape here. */
module Registry {
  import opened Prelude
  import opened Json

  datatype FieldDef = FieldDef(
    field: string, kind: string, required: bool, editable: bool, permClass: string, options: Value)
  {
    /** Settable at create: not engine-owned. */
    predicate Settable() {
      permClass != "system" && permClass != "readonly"
    }

    /** Writable by PUT and PATCH: settable and still editable after creation. */
    predicate Writable() {
      editable && Settable()
    }

    function Default(): Option<Value> {
      Get(options, "default")
    }
  }

  function Find(fields: seq<FieldDef>, name: string): (r: Option<FieldDef>)
    ensures r.Some? ==> r.value in fields && r.value.field == name
    ensures r.None? ==> forall f | f in fields :: f.field != name
  {
    if fields == [] then None
    else if fields[0].field == name then Some(fields[0])
    else Find(fields[1..], name)
  }

  datatype TypeDef = TypeDef(
    typeId: string, idPrefix: string, scopeParents: seq<string>, methodPolicy: Value, fields: seq<FieldDef>)
  {
    function Field(name: string): Option<FieldDef> {
      Find(fields, name)
    }

    function DeleteMinRole(): string {
      match Get(methodPolicy, "delete_min_role")
      case Some(Str(role)) => role
      case _ => "admin"
    }

    /** Whether the primary scope parent field must be given on create. */
    predicate ScopeParentRequired() {
      scopeParents != [] && Field(scopeParents[0]).Some? && Field(scopeParents[0]).value.required
    }

    function FieldNames(): set<string> {
      set f | f in fields :: f.field
    }
  }

  /** The registry snapshot the handlers share, by type id. */
  type TypeCache = map<string, TypeDef>

  /** The primary key (type_id, field) of `type_fields`. */
  predicate DistinctFields(fields: seq<FieldDef>) {
    forall i, j | 0 <= i < j < |fields| :: fields[i].field != fields[j].field
  }

  lemma {:induction false} FindAt(fields: seq<FieldDef>, i: nat)
    requires DistinctFields(fields) && i < |fields|
    ensures Find(fields, fields[i].field) == Some(fields[i])
  {
    if i > 0 {
      assert fields[0].field != fields[i].field;
      FindAt(fields[1..], i - 1);
    }
  }

  /** What the handlers rely on: distinct field names, and a primary scope parent that no update may
      write. `Types.AcceptedTypesAreWellFormed` shows that registration gives this. */
  ghost predicate WellFormed(td: TypeDef) {
    && DistinctFields(td.fields)
    && (td.scopeParents != [] ==>
          td.Field(td.scopeParents[0]).Some? && !td.Field(td.scopeParents[0]).value.Writable())
  }
}
