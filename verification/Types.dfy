/** Type registration (crates/api/src/types.rs): the gate a type spec passes before it becomes a row. */
module Types {
  import opened Prelude
  import opened Json
  import opened Registry
  import opened Objects

  datatype TypeSpec = TypeSpec(
    typeId: string, idPrefix: string, displayName: string, scopeParents: seq<string>, fields: seq<FieldDef>)

  const RESERVED_TYPES: set<string> := {
    "entities", "entity_data", "type_definitions", "type_fields", "sessions", "events", "memberships",
    "roles", "field_permissions", "workflows", "cases", "case_close_checks", "auth_identities" }
  const RESERVED_FIELDS: set<string> := { "id", "type", "version", "created_at", "updated_at", "scope_parent_id" }
  const KINDS: set<string> := { "text", "int", "bool", "date", "json", "ref", "enum" }
  const PERM_CLASSES: set<string> := { "system", "readonly", "standard", "owner_grade" }

  predicate Lower(c: char) { 'a' <= c <= 'z' }
  predicate Upper(c: char) { 'A' <= c <= 'Z' }
  predicate Digit(c: char) { '0' <= c <= '9' }

  predicate IdentOk(s: string, max: nat) {
    0 < |s| <= max && Lower(s[0]) && forall c | c in s :: Lower(c) || Digit(c) || c == '_'
  }

  predicate PrefixOk(s: string) {
    2 <= |s| <= 6 && Upper(s[0]) && forall c | c in s :: Upper(c) || Digit(c)
  }

  /** The White_Space characters of Unicode, which `trim` strips. */
  predicate White(c: char) {
    || c == ' ' || '\t' <= c <= '\r' || c == '\U{85}' || c == '\U{A0}' || c == '\U{1680}'
    || '\U{2000}' <= c <= '\U{200A}' || c == '\U{2028}' || c == '\U{2029}' || c == '\U{202F}'
    || c == '\U{205F}' || c == '\U{3000}'
  }

  predicate Blank(s: string) {
    forall c | c in s :: White(c)
  }

  predicate PrefixTaken(current: TypeCache, prefix: string) {
    exists t | t in current :: current[t].idPrefix == prefix
  }

  predicate EnumOk(f: FieldDef) {
    match Get(f.options, "enum")
    case Some(Arr(items)) =>
      && items != []
      && (forall v | v in items :: v.Str?)
      && (f.Default().Some? ==> f.Default().value in items)
    case _ => false
  }

  predicate RefOk(f: FieldDef, spec: TypeSpec, current: TypeCache) {
    match Get(f.options, "ref")
    case Some(Str(r)) => r == spec.idPrefix || PrefixTaken(current, r)
    case _ => true
  }

  /** The checks on one field, apart from its name being new in the spec. */
  predicate FieldOk(f: FieldDef, spec: TypeSpec, current: TypeCache) {
    && IdentOk(f.field, 63)
    && f.field !in RESERVED_FIELDS
    && f.kind in KINDS
    && f.permClass in PERM_CLASSES
    && (f.kind == "enum" ==> EnumOk(f))
    && (f.kind == "ref" ==> RefOk(f, spec, current))
    && (f.required && !f.Settable() ==> f.Default().Some?)
  }

  predicate ScopeParentOk(spec: TypeSpec, name: string) {
    match Find(spec.fields, name)
    case None => false
    case Some(f) => f.kind == "ref" && !f.editable
  }

  /** The verdict as a whole: the header checks in order, then every field and every scope parent. */
  function SpecVerdict(spec: TypeSpec, current: TypeCache): Result<()> {
    if !IdentOk(spec.typeId, 31) then Err(Unprocessable)
    else if spec.typeId in RESERVED_TYPES then Err(Unprocessable)
    else if spec.typeId in current then Err(Conflict)
    else if !PrefixOk(spec.idPrefix) then Err(Unprocessable)
    else if PrefixTaken(current, spec.idPrefix) then Err(Conflict)
    else if Blank(spec.displayName) then Err(Unprocessable)
    else if spec.fields == [] then Err(Unprocessable)
    else if !DistinctFields(spec.fields) then Err(Unprocessable)
    else if exists f | f in spec.fields :: !FieldOk(f, spec, current) then Err(Unprocessable)
    else if exists sp | sp in spec.scopeParents :: !ScopeParentOk(spec, sp) then Err(Unprocessable)
    else Ok(())
  }

  method ValidateSpec(spec: TypeSpec, current: TypeCache) returns (r: Result<()>)
    ensures r == SpecVerdict(spec, current)
  {
    hide IdentOk, PrefixOk, PrefixTaken, Blank, FieldOk, ScopeParentOk;
    if !IdentOk(spec.typeId, 31) { return Err(Unprocessable); }
    if spec.typeId in RESERVED_TYPES { return Err(Unprocessable); }
    if spec.typeId in current { return Err(Conflict); }
    if !PrefixOk(spec.idPrefix) { return Err(Unprocessable); }
    if PrefixTaken(current, spec.idPrefix) { return Err(Conflict); }
    if Blank(spec.displayName) { return Err(Unprocessable); }
    if spec.fields == [] { return Err(Unprocessable); }

    var seen: set<string> := {};
    for i := 0 to |spec.fields|
      invariant forall j | 0 <= j < i :: spec.fields[j].field in seen
      invariant forall name | name in seen :: exists j :: 0 <= j < i && spec.fields[j].field == name
      invariant forall j, k | 0 <= j < k < i :: spec.fields[j].field != spec.fields[k].field
      invariant forall j | 0 <= j < i :: FieldOk(spec.fields[j], spec, current)
    {
      var f := spec.fields[i];
      if f.field in seen {
        assert !DistinctFields(spec.fields);
        return Err(Unprocessable);
      }
      seen := seen + {f.field};
      if !FieldOk(f, spec, current) {
        assert f in spec.fields;
        return Err(Unprocessable);
      }
    }
    for i := 0 to |spec.scopeParents|
      invariant forall j | 0 <= j < i :: ScopeParentOk(spec, spec.scopeParents[j])
    {
      if !ScopeParentOk(spec, spec.scopeParents[i]) {
        assert spec.scopeParents[i] in spec.scopeParents;
        return Err(Unprocessable);
      }
    }
    return Ok(());
  }

  /** The stored field: a null `options` becomes the empty object. */
  function Stored(f: FieldDef): FieldDef {
    if f.options.Null? then f.(options := Obj(map[])) else f
  }

  function StoredFields(fields: seq<FieldDef>): seq<FieldDef> {
    seq(|fields|, i requires 0 <= i < |fields| => Stored(fields[i]))
  }

  /** The registry entry a reload builds from the inserted rows. */
  function TypeOf(spec: TypeSpec): TypeDef {
    TypeDef(spec.typeId, spec.idPrefix, spec.scopeParents, Obj(map[]), StoredFields(spec.fields))
  }

  lemma {:induction false} FindStored(fields: seq<FieldDef>, name: string)
    ensures Find(StoredFields(fields), name) ==
      match Find(fields, name) { case None => None case Some(f) => Some(Stored(f)) }
  {
    if fields != [] {
      assert StoredFields(fields)[1..] == StoredFields(fields[1..]);
      FindStored(fields[1..], name);
    }
  }

  lemma AcceptedTypesAreWellFormed(spec: TypeSpec, current: TypeCache)
    requires SpecVerdict(spec, current).Ok?
    ensures WellFormed(TypeOf(spec))
  {
    var td := TypeOf(spec);
    if spec.scopeParents != [] {
      assert ScopeParentOk(spec, spec.scopeParents[0]);
      FindStored(spec.fields, spec.scopeParents[0]);
    }
  }

  // ---- can anything of the new type be created? ---------------------------------

  /** Some payload passes the create check and yields data that passes final validation. */
  ghost predicate Creatable(td: TypeDef) {
    exists payload :: InputOk(td, payload, true) && FinalOk(td, CreateData(td, payload))
  }

  /** Each engine-owned field's default is of the field's kind, and not null if the field is required. */
  predicate EngineDefaultsUsable(fields: seq<FieldDef>) {
    forall f | f in fields && !f.Settable() && f.Default().Some? ::
      CoerceOk(f, f.Default().value) && (f.required ==> !f.Default().value.Null?)
  }

  /** A non-null value of the field's kind. */
  function Sample(f: FieldDef): Value {
    match f.kind
    case "int" => Int(0)
    case "bool" => Bool(false)
    case "enum" =>
      (match Get(f.options, "enum")
       case Some(Arr(items)) => if items != [] then items[0] else Str("")
       case _ => Str(""))
    case _ => Str("")
  }

  lemma SampleFits(f: FieldDef, spec: TypeSpec, current: TypeCache)
    requires FieldOk(f, spec, current)
    ensures !Sample(f).Null? && CoerceOk(f, Sample(f))
  {
    if f.kind == "enum" {
      var items := Get(f.options, "enum").value.items;
      assert items[0] in items;
    }
  }

  lemma StoredFieldOk(f: FieldDef, spec: TypeSpec, current: TypeCache)
    requires FieldOk(f, spec, current)
    ensures FieldOk(Stored(f), spec, current)
    ensures Stored(f).Default() == f.Default() && Stored(f).Settable() == f.Settable()
  {}

  /** An accepted spec yields a type with creatable objects exactly when its engine-owned defaults are
      usable: registration only asks that such a default is present. */
  lemma AcceptedIsCreatableIff(spec: TypeSpec, current: TypeCache)
    requires SpecVerdict(spec, current).Ok?
    ensures Creatable(TypeOf(spec)) <==> EngineDefaultsUsable(TypeOf(spec).fields)
  {
    var td := TypeOf(spec);
    AcceptedTypesAreWellFormed(spec, current);
    forall f | f in td.fields
      ensures FieldOk(f, spec, current) && td.Field(f.field) == Some(f)
    {
      var i :| 0 <= i < |td.fields| && td.fields[i] == f;
      assert spec.fields[i] in spec.fields;
      StoredFieldOk(spec.fields[i], spec, current);
      FindAt(td.fields, i);
    }
    if EngineDefaultsUsable(td.fields) {
      SamplePayloadCreates(td, spec, current);
    }
    if Creatable(td) {
      var payload :| InputOk(td, payload, true) && FinalOk(td, CreateData(td, payload));
      forall f | f in td.fields && !f.Settable() && f.Default().Some?
        ensures CoerceOk(f, f.Default().value) && (f.required ==> !f.Default().value.Null?)
      {
        assert f.field in td.FieldNames();
        assert FieldFinalOk(f, CreateData(td, payload));
      }
    }
  }

  lemma SamplePayloadCreates(td: TypeDef, spec: TypeSpec, current: TypeCache)
    requires forall f | f in td.fields :: FieldOk(f, spec, current) && td.Field(f.field) == Some(f)
    requires EngineDefaultsUsable(td.fields)
    ensures Creatable(td)
  {
    var payload := map k | k in td.FieldNames() && td.Field(k).Some? && td.Field(k).value.Settable() ::
      Sample(td.Field(k).value);
    var data := CreateData(td, payload);
    forall f | f in td.fields ensures FieldFinalOk(f, data) {
      SampleFits(f, spec, current);
      assert f.field in td.FieldNames();
    }
    assert InputOk(td, payload, true);
  }

  /** The case registration misses: a required engine-owned field whose default is null. */
  lemma NullDefaultIsAcceptedButUncreatable()
    ensures var f := FieldDef("seal", "text", true, true, "readonly", Obj(map["default" := Null]));
      var spec := TypeSpec("vault", "VLT", "Vault", [], [f]);
      SpecVerdict(spec, map[]).Ok? && !Creatable(TypeOf(spec))
  {
    var f := FieldDef("seal", "text", true, true, "readonly", Obj(map["default" := Null]));
    var spec := TypeSpec("vault", "VLT", "Vault", [], [f]);
    assert IdentOk("seal", 63) && "seal" !in RESERVED_FIELDS && FieldOk(f, spec, map[]);
    assert IdentOk("vault", 31) && "vault" !in RESERVED_TYPES && PrefixOk("VLT");
    assert !Blank("Vault") by { assert "Vault"[0] in "Vault"; }
    assert forall g | g in spec.fields :: g == f;
    assert SpecVerdict(spec, map[]).Ok?;
    AcceptedIsCreatableIff(spec, map[]);
    assert TypeOf(spec).fields[0] == f;
    assert f in TypeOf(spec).fields && !f.Settable();
  }
}
