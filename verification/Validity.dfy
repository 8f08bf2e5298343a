/** What a stored record may hold, kind by kind, and that every run keeps every record within it. */
module Validity {
  import opened Prelude
  import opened Json
  import opened Registry
  import opened Objects
  import opened Server
  import opened Runs

  /** The values a field of each kind takes; any value for `json`. */
  predicate KindFits(f: FieldDef, v: Value) {
    && (f.kind == "text" || f.kind == "date" || f.kind == "ref" ==> v.Str?)
    && (f.kind == "int" ==> v.Int? && -0x8000_0000_0000_0000 <= v.n <= 0xffff_ffff_ffff_ffff)
    && (f.kind == "bool" ==> v.Bool?)
    && (f.kind == "enum" ==> v.Str? && Listed(f.options, v))
  }

  /** The value is in the array that `options` holds under "enum". */
  predicate Listed(options: Value, v: Value) {
    options.Obj? && "enum" in options.m && options.m["enum"].Arr? && v in options.m["enum"].items
  }

  predicate Given(data: Record, k: string) {
    k in data && !data[k].Null?
  }

  /** Required fields are given, and what is given is of its field's kind. */
  ghost predicate Valid(td: TypeDef, data: Record) {
    forall f | f in td.fields ::
      (f.required ==> Given(data, f.field)) && (Given(data, f.field) ==> KindFits(f, data[f.field]))
  }

  /** The text at a key, or a default where there is none. */
  function TextOr(data: Record, k: string, default: string): string {
    if k in data && data[k].Str? then data[k].s else default
  }

  function TextAt(data: Record, k: string): Option<string> {
    if k in data && data[k].Str? then Some(data[k].s) else None
  }

  function DefaultOf(f: FieldDef): Option<Value> {
    if f.options.Obj? && "default" in f.options.m then Some(f.options.m["default"]) else None
  }

  /** The engine, not a caller, owns the field. */
  predicate EngineOwned(f: FieldDef) {
    f.permClass == "system" || f.permClass == "readonly"
  }

  /** The first of the type's scope parent fields, where the record has text there. */
  function NamedParent(td: TypeDef, data: Record): Option<Id> {
    if td.scopeParents == [] then None else TextAt(data, td.scopeParents[0])
  }

  lemma CoercedIffFits(f: FieldDef, v: Value)
    ensures CoerceOk(f, v) <==> v.Null? || KindFits(f, v)
  {}

  /** Final validation is that, no more and no less. */
  lemma FinalIffValid(td: TypeDef, data: Record)
    ensures FinalOk(td, data) <==> Valid(td, data)
  {
    hide CoerceOk, KindFits;
    forall f | f in td.fields && f.field in data ensures CoerceOk(f, data[f.field]) <==> data[f.field].Null? || KindFits(f, data[f.field]) {
      CoercedIffFits(f, data[f.field]);
    }
    if FinalOk(td, data) {
      forall f | f in td.fields
        ensures (f.required ==> Given(data, f.field)) && (Given(data, f.field) ==> KindFits(f, data[f.field]))
      {
        assert FieldFinalOk(f, data);
      }
    }
    if Valid(td, data) {
      forall f | f in td.fields ensures FieldFinalOk(f, data) {}
    }
  }

  /** After any run every record is valid for the type it is of. */
  lemma RecordsStayValid(db: Db, steps: seq<Step>, id: Id)
    requires Good(db) && id in Run(db, steps).rows
    ensures var after := Run(db, steps);
      && id in after.access.types && after.access.types[id] in after.registry
      && Valid(after.registry[after.access.types[id]], after.rows[id].data)
  {
    RunKeepsGood(db, steps);
    hide Run, FinalOk, Valid;
    var after := Run(db, steps);
    assert RowGood(after, id);
    FinalIffValid(after.registry[after.access.types[id]], after.rows[id].data);
  }
}
