/** The pure part of the generic write path (crates/api/src/objects.rs): what a create, PUT or PATCH makes
    of a payload. `data` is always a JSON object, so it is kept as its member map. */
module Objects {
  import opened Prelude
  import opened Json
  import opened Registry

  /** Every key is a known field, settable on create or writable on update. */
  predicate InputOk(td: TypeDef, payload: Record, onCreate: bool) {
    forall k | k in payload ::
      td.Field(k).Some? && (if onCreate then td.Field(k).value.Settable() else td.Field(k).value.Writable())
  }

  const MIN_I64: int := -0x8000_0000_0000_0000
  const MAX_U64: int := 0xffff_ffff_ffff_ffff

  predicate CoerceOk(f: FieldDef, v: Value) {
    v.Null? ||
    match f.kind
    case "text" => v.Str?
    case "date" => v.Str?
    case "ref" => v.Str?
    case "int" => v.Int? && MIN_I64 <= v.n <= MAX_U64
    case "bool" => v.Bool?
    case "enum" =>
      v.Str? && (match Get(f.options, "enum")
                 case Some(Arr(items)) => v in items
                 case _ => false)
    case _ => true
  }

  predicate FieldFinalOk(f: FieldDef, data: Record) {
    && (f.required ==> f.field in data && !data[f.field].Null?)
    && (f.field in data ==> CoerceOk(f, data[f.field]))
  }

  /** Required fields present and every present field of its kind. */
  predicate FinalOk(td: TypeDef, data: Record) {
    forall f | f in td.fields :: FieldFinalOk(f, data)
  }

  /** The payload's value unless absent or null, else the field's default. */
  function GivenOrDefault(f: FieldDef, payload: Record): Option<Value> {
    if f.field in payload && !payload[f.field].Null? then Some(payload[f.field]) else f.Default()
  }

  function CreateValue(f: FieldDef, payload: Record): Option<Value> {
    if f.Settable() then GivenOrDefault(f, payload) else f.Default()
  }

  function CreateData(td: TypeDef, payload: Record): Record {
    map k | k in td.FieldNames() && td.Field(k).Some? && CreateValue(td.Field(k).value, payload).Some? ::
      CreateValue(td.Field(k).value, payload).value
  }

  method BuildCreateData(td: TypeDef, payload: Record) returns (out: Record)
    requires DistinctFields(td.fields)
    ensures out == CreateData(td, payload)
  {
    out := map[];
    for i := 0 to |td.fields|
      invariant forall k | k in out :: exists j :: 0 <= j < i && td.fields[j].field == k
      invariant forall j | 0 <= j < i :: Lookup(out, td.fields[j].field) == CreateValue(td.fields[j], payload)
    {
      var f := td.fields[i];
      ghost var before := out;
      if f.Settable() {
        if f.field in payload && !payload[f.field].Null? {
          out := out[f.field := payload[f.field]];
        } else if f.Default().Some? {
          out := out[f.field := f.Default().value];
        }
      } else if f.Default().Some? {
        out := out[f.field := f.Default().value];
      }
      assert f.field !in before;
      forall j | 0 <= j < i ensures Lookup(out, td.fields[j].field) == CreateValue(td.fields[j], payload) {
        assert Lookup(before, td.fields[j].field) == CreateValue(td.fields[j], payload);
      }
    }
    FieldwiseEqual(td, out, CreateData(td, payload), payload);
  }

  lemma FieldwiseEqual(td: TypeDef, out: Record, spec: Record, payload: Record)
    requires DistinctFields(td.fields) && spec == CreateData(td, payload)
    requires forall k | k in out :: exists j :: 0 <= j < |td.fields| && td.fields[j].field == k
    requires forall j | 0 <= j < |td.fields| :: Lookup(out, td.fields[j].field) == CreateValue(td.fields[j], payload)
    ensures out == spec
  {
    forall k ensures Lookup(out, k) == Lookup(spec, k) {
      if j :| 0 <= j < |td.fields| && td.fields[j].field == k {
        FindAt(td.fields, j);
        assert td.fields[j] in td.fields;
        assert Lookup(out, td.fields[j].field) == CreateValue(td.fields[j], payload);
      }
    }
    SameLookups(out, spec);
  }

  lemma SameLookups(a: Record, b: Record)
    requires forall k :: Lookup(a, k) == Lookup(b, k)
    ensures a == b
  {
    forall k ensures k in a <==> k in b
      ensures k in a ==> a[k] == b[k]
    {
      assert Lookup(a, k) == Lookup(b, k);
    }
  }

  predicate IsWritable(td: TypeDef, k: string) {
    td.Field(k).Some? && td.Field(k).value.Writable()
  }

  /** PUT: an editable field takes the payload's value, else its default, else is cleared; every other
      key keeps what it had. */
  function PutValue(td: TypeDef, existing: Record, payload: Record, k: string): Option<Value> {
    if IsWritable(td, k) then GivenOrDefault(td.Field(k).value, payload) else Lookup(existing, k)
  }

  function PutData(td: TypeDef, existing: Record, payload: Record): Record {
    map k | k in existing.Keys + td.FieldNames() && PutValue(td, existing, payload, k).Some? ::
      PutValue(td, existing, payload, k).value
  }

  lemma PutLookup(td: TypeDef, existing: Record, payload: Record, k: string)
    ensures Lookup(PutData(td, existing, payload), k) == PutValue(td, existing, payload, k)
  {
    if IsWritable(td, k) {
      assert td.Field(k).value in td.fields;
      assert k in td.FieldNames();
    }
  }

  method BuildPutData(td: TypeDef, existing: Record, payload: Record) returns (out: Record)
    requires DistinctFields(td.fields)
    ensures out == PutData(td, existing, payload)
  {
    out := existing;
    for i := 0 to |td.fields|
      invariant forall j | 0 <= j < i ::
        Lookup(out, td.fields[j].field) == PutValue(td, existing, payload, td.fields[j].field)
      invariant forall k | (forall j | 0 <= j < i :: td.fields[j].field != k) :: Lookup(out, k) == Lookup(existing, k)
    {
      var f := td.fields[i];
      ghost var before := out;
      FindAt(td.fields, i);
      if f.Writable() {
        if f.field in payload && !payload[f.field].Null? {
          out := out[f.field := payload[f.field]];
        } else if f.Default().Some? {
          out := out[f.field := f.Default().value];
        } else {
          out := out - {f.field};
        }
      } else {
        assert Lookup(before, f.field) == Lookup(existing, f.field);
      }
      assert forall k | k != f.field :: Lookup(out, k) == Lookup(before, k);
      assert Lookup(out, f.field) == PutValue(td, existing, payload, f.field);
    }
    forall k ensures Lookup(out, k) == Lookup(PutData(td, existing, payload), k) {
      PutLookup(td, existing, payload, k);
      if forall j | 0 <= j < |td.fields| :: td.fields[j].field != k {
        assert Lookup(out, k) == Lookup(existing, k);
        assert td.Field(k).None?;
      }
    }
    SameLookups(out, PutData(td, existing, payload));
  }

  function PatchData(existing: Record, payload: Record): Record {
    MembersOf(MergePatch(Obj(existing), Obj(payload)))
  }

  function ScopeParent(td: TypeDef, data: Record): Option<Id> {
    if td.scopeParents == [] then None else StrAt(data, td.scopeParents[0])
  }

  // ---- PUT is a replacement --------------------------------------------------

  /** Two rows that differ only in writable fields become equal under the same PUT. */
  lemma PutForgetsWritableFields(td: TypeDef, one: Record, two: Record, payload: Record)
    requires forall k | !IsWritable(td, k) :: Lookup(one, k) == Lookup(two, k)
    ensures PutData(td, one, payload) == PutData(td, two, payload)
  {
    forall k ensures Lookup(PutData(td, one, payload), k) == Lookup(PutData(td, two, payload), k) {
      PutLookup(td, one, payload, k);
      PutLookup(td, two, payload, k);
    }
    SameLookups(PutData(td, one, payload), PutData(td, two, payload));
  }

  lemma PutIsIdempotent(td: TypeDef, existing: Record, payload: Record)
    ensures PutData(td, PutData(td, existing, payload), payload) == PutData(td, existing, payload)
  {
    forall k | !IsWritable(td, k) ensures Lookup(PutData(td, existing, payload), k) == Lookup(existing, k) {
      PutLookup(td, existing, payload, k);
    }
    PutForgetsWritableFields(td, PutData(td, existing, payload), existing, payload);
  }

  /** Neither PUT nor an accepted PATCH touches a key that is not a writable field. */
  lemma UpdatesKeepOtherKeys(td: TypeDef, existing: Record, payload: Record, k: string)
    requires InputOk(td, payload, false) && !IsWritable(td, k)
    ensures Lookup(PutData(td, existing, payload), k) == Lookup(existing, k)
    ensures Lookup(PatchData(existing, payload), k) == Lookup(existing, k)
  {
    PutLookup(td, existing, payload, k);
    PatchKeepsOmittedKeys(existing, payload, k);
  }

  lemma PatchKeepsOmittedKeys(existing: Record, payload: Record, k: string)
    requires k !in payload
    ensures Lookup(PatchData(existing, payload), k) == Lookup(existing, k)
  {
    var r := MergePatch(Obj(existing), Obj(payload));
    assert r.m.Keys == set j | j in existing.Keys + payload.Keys && (j in payload ==> !payload[j].Null?);
  }

  /** Updates never move an object in the scope tree. */
  lemma UpdatesKeepScopeParent(td: TypeDef, existing: Record, payload: Record)
    requires WellFormed(td) && InputOk(td, payload, false)
    ensures ScopeParent(td, PutData(td, existing, payload)) == ScopeParent(td, existing)
    ensures ScopeParent(td, PatchData(existing, payload)) == ScopeParent(td, existing)
  {
    if td.scopeParents != [] {
      UpdatesKeepOtherKeys(td, existing, payload, td.scopeParents[0]);
    }
  }
}
