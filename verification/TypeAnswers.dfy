/** Who may register which types: the answer to a registration in full, and prefixes that stay distinct. */
module TypeAnswers {
  import opened Prelude
  import opened Json
  import opened Registry
  import opened Types
  import opened Server
  import opened Validity
  import Cases
  import Gate
  import M = Members

  predicate Small(c: char) { c in "abcdefghijklmnopqrstuvwxyz" }
  predicate Capital(c: char) { c in "ABCDEFGHIJKLMNOPQRSTUVWXYZ" }
  predicate Figure(c: char) { c in "0123456789" }

  /** A small letter, then small letters, figures and underscores. */
  predicate NameFits(s: string, max: nat) {
    1 <= |s| <= max && Small(s[0]) && forall i | 0 <= i < |s| :: Small(s[i]) || Figure(s[i]) || s[i] == '_'
  }

  /** Two to six capitals and figures, a capital first. */
  predicate PrefixFits(s: string) {
    2 <= |s| <= 6 && Capital(s[0]) && forall i | 0 <= i < |s| :: Capital(s[i]) || Figure(s[i])
  }

  /** Some character is not white space. */
  predicate Shown(s: string) {
    exists c | c in s :: c !in {
      ' ', '\t', '\n', '\U{0B}', '\U{0C}', '\r', '\U{85}', '\U{A0}', '\U{1680}', '\U{2000}', '\U{2001}', '\U{2002}',
      '\U{2003}', '\U{2004}', '\U{2005}', '\U{2006}', '\U{2007}', '\U{2008}', '\U{2009}', '\U{200A}', '\U{2028}',
      '\U{2029}', '\U{202F}', '\U{205F}', '\U{3000}' }
  }

  lemma LettersAndFigures(c: char)
    ensures Small(c) <==> 'a' <= c <= 'z'
    ensures Capital(c) <==> 'A' <= c <= 'Z'
    ensures Figure(c) <==> '0' <= c <= '9'
  {}

  lemma NamesAndPrefixes(s: string, max: nat)
    ensures IdentOk(s, max) <==> NameFits(s, max)
    ensures PrefixOk(s) <==> PrefixFits(s)
  {
    forall c ensures (Small(c) <==> Lower(c)) && (Capital(c) <==> Upper(c)) && (Figure(c) <==> Digit(c)) { LettersAndFigures(c); }
    hide Small, Capital, Figure, Lower, Upper, Digit;
    assert forall i | 0 <= i < |s| :: s[i] in s;
  }

  lemma ShownIffNotBlank(s: string)
    ensures Blank(s) <==> !Shown(s)
  {
    forall c ensures White(c) <==> !Shown([c]) {
      assert c in [c];
      assert forall d | d in [c] :: d == c;
    }
    if c :| c in s && !White(c) { assert c in s; }
  }

  predicate PrefixHeld(current: TypeCache, prefix: string) {
    exists t :: t in current && current[t].idPrefix == prefix
  }

  /** An enum lists texts, at least one, and its default if it has one. */
  predicate EnumFits(f: FieldDef) {
    && f.options.Obj? && "enum" in f.options.m && f.options.m["enum"].Arr?
    && f.options.m["enum"].items != []
    && (forall v | v in f.options.m["enum"].items :: v.Str?)
    && (DefaultOf(f).Some? ==> Listed(f.options, DefaultOf(f).value))
  }

  /** A ref that names a prefix names the type's own or a registered one. */
  predicate RefFits(f: FieldDef, own: string, current: TypeCache) {
    f.options.Obj? && "ref" in f.options.m && f.options.m["ref"].Str? ==>
      f.options.m["ref"].s == own || PrefixHeld(current, f.options.m["ref"].s)
  }

  predicate FieldFits(f: FieldDef, own: string, current: TypeCache) {
    && NameFits(f.field, 63)
    && f.field !in ["id", "type", "version", "created_at", "updated_at", "scope_parent_id"]
    && f.kind in ["text", "int", "bool", "date", "json", "ref", "enum"]
    && f.permClass in ["system", "readonly", "standard", "owner_grade"]
    && (f.kind == "enum" ==> EnumFits(f))
    && (f.kind == "ref" ==> RefFits(f, own, current))
    && (f.required && EngineOwned(f) ==> DefaultOf(f).Some?)
  }

  lemma FieldOkIffFits(f: FieldDef, spec: TypeSpec, current: TypeCache)
    ensures FieldOk(f, spec, current) <==> FieldFits(f, spec.idPrefix, current)
  {
    NamesAndPrefixes(f.field, 63);
    hide IdentOk, NameFits;
  }

  /** A scope parent is a field of the type, a ref, and not editable. */
  ghost predicate ParentFits(spec: TypeSpec, name: string) {
    exists i :: 0 <= i < |spec.fields| && spec.fields[i].field == name && spec.fields[i].kind == "ref" && !spec.fields[i].editable
  }

  lemma ParentOkIffFits(spec: TypeSpec, name: string)
    requires DistinctFields(spec.fields)
    ensures ScopeParentOk(spec, name) <==> ParentFits(spec, name)
  {
    if i :| 0 <= i < |spec.fields| && spec.fields[i].field == name { FindAt(spec.fields, i); }
  }

  predicate NameTaken(spec: TypeSpec) {
    spec.typeId in [
      "entities", "entity_data", "type_definitions", "type_fields", "sessions", "events", "memberships", "roles",
      "field_permissions", "workflows", "cases", "case_close_checks", "auth_identities" ]
  }

  /** The name or the prefix belongs to a type already. */
  predicate Clashes(spec: TypeSpec, current: TypeCache) {
    && NameFits(spec.typeId, 31) && !NameTaken(spec)
    && (spec.typeId in current || (PrefixFits(spec.idPrefix) && PrefixHeld(current, spec.idPrefix)))
  }

  ghost predicate SpecFits(spec: TypeSpec, current: TypeCache) {
    && NameFits(spec.typeId, 31) && !NameTaken(spec) && spec.typeId !in current
    && PrefixFits(spec.idPrefix) && !PrefixHeld(current, spec.idPrefix)
    && Shown(spec.displayName)
    && spec.fields != []
    && (forall i, j | 0 <= i < j < |spec.fields| :: spec.fields[i].field != spec.fields[j].field)
    && (forall f | f in spec.fields :: FieldFits(f, spec.idPrefix, current))
    && (forall name | name in spec.scopeParents :: ParentFits(spec, name))
  }

  lemma VerdictInFull(spec: TypeSpec, current: TypeCache)
    ensures SpecVerdict(spec, current) ==
      if Clashes(spec, current) then Err(Conflict) else if SpecFits(spec, current) then Ok(()) else Err(Unprocessable)
  {
    hide IdentOk, PrefixOk, NameFits, PrefixFits, Blank, Shown, FieldOk, FieldFits, ScopeParentOk, ParentFits;
    NamesAndPrefixes(spec.typeId, 31);
    NamesAndPrefixes(spec.idPrefix, 31);
    ShownIffNotBlank(spec.displayName);
    forall f | f in spec.fields ensures FieldOk(f, spec, current) <==> FieldFits(f, spec.idPrefix, current) {
      FieldOkIffFits(f, spec, current);
    }
    if DistinctFields(spec.fields) {
      forall name | name in spec.scopeParents ensures ScopeParentOk(spec, name) <==> ParentFits(spec, name) {
        ParentOkIffFits(spec, name);
      }
    }
  }

  /** The type as it is stored: what the spec says, with an empty object for null options. */
  ghost predicate Describes(td: TypeDef, spec: TypeSpec) {
    && td.typeId == spec.typeId && td.idPrefix == spec.idPrefix && td.scopeParents == spec.scopeParents
    && td.methodPolicy == Obj(map[])
    && |td.fields| == |spec.fields|
    && forall i | 0 <= i < |td.fields| ::
         td.fields[i] == if spec.fields[i].options.Null? then spec.fields[i].(options := Obj(map[])) else spec.fields[i]
  }

  /** Only admins register types, and only such types; a refusal changes nothing. */
  lemma RegisterAnswer(db: Db, caller: Caller, spec: TypeSpec)
    ensures var reply := Handle(db, caller, RegisterType(spec));
      && (reply.result == Err(Forbidden) <==> !caller.admin)
      && (reply.result == Err(Conflict) <==> caller.admin && Clashes(spec, db.registry))
      && (reply.result.Ok? <==> caller.admin && SpecFits(spec, db.registry))
      && (reply.result == Err(Unprocessable) <==> caller.admin && !Clashes(spec, db.registry) && !SpecFits(spec, db.registry))
      && (if reply.result.Ok? then
            && spec.typeId in reply.db.registry && Describes(reply.db.registry[spec.typeId], spec)
            && reply.db == db.(registry := db.registry[spec.typeId := reply.db.registry[spec.typeId]])
          else reply.db == db)
  {
    hide SpecVerdict, NameFits, PrefixFits, Shown, FieldFits, ParentFits;
    VerdictInFull(spec, db.registry);
  }

  /** No two registered types share an id prefix. */
  ghost predicate PrefixesDiffer(registry: TypeCache) {
    forall s, t | s in registry && t in registry && s != t :: registry[s].idPrefix != registry[t].idPrefix
  }

  lemma FinishKeepsTypes(db: Db, p: Pending)
    ensures Finish(db, p).db.registry == db.registry
  {
    hide MirrorKeysExist, Cases.GuardRaises, RowExists, Cases.MirrorOf;
  }

  lemma InsertKeepsTypes(db: Db, creator: Id, typeId: string, row: NewRow, id: Id)
    ensures InsertAll(db, creator, typeId, row, id).db.registry == db.registry
  {
    hide MirrorKeysExist, Cases.GuardRaises, Cases.MirrorOf;
  }

  lemma OtherStepsKeepTypes(db: Db, caller: Caller, req: Request)
    requires !req.RegisterType?
    ensures Handle(db, caller, req).db.registry == db.registry
  {
    hide Prepare, Finish, PrepareCreate, InsertAll, RowExists, Gate.RequireAction, RemoveRow, M.AddMember, M.SetMember, M.RemoveMember;
    hide M.RequireRank, M.ObjectExists;
    match req {
      case Write(verb, typeId, id, ifMatch, payload) =>
        var p := Prepare(db, caller, verb, typeId, id, ifMatch, payload);
        if p.Ok? { FinishKeepsTypes(db, p.value); }
      case CreateObject(typeId, payload, id) =>
        var r := PrepareCreate(db, caller, typeId, payload);
        if r.Ok? { InsertKeepsTypes(db, caller.actor, typeId, r.value, id); }
      case DeleteObject(_, id, _) => RemoveKeepsTypes(db, id);
      case _ =>
    }
  }

  lemma RemoveKeepsTypes(db: Db, id: Id)
    ensures RemoveRow(db, id).registry == db.registry
  {}

  lemma StepKeepsPrefixes(db: Db, caller: Caller, req: Request)
    requires PrefixesDiffer(db.registry)
    ensures PrefixesDiffer(Handle(db, caller, req).db.registry)
  {
    hide Handle;
    if req.RegisterType? {
      RegisterAnswer(db, caller, req.spec);
    } else {
      hide PrefixesDiffer;
      OtherStepsKeepTypes(db, caller, req);
    }
  }

  /** So it is after any run from tables where it is so. */
  lemma {:induction false} PrefixesStayDistinct(db: Db, steps: seq<Step>)
    requires PrefixesDiffer(db.registry)
    ensures PrefixesDiffer(Run(db, steps).registry)
  {
    hide PrefixesDiffer, Handle;
    if steps != [] {
      var last := steps[|steps| - 1];
      PrefixesStayDistinct(db, steps[..|steps| - 1]);
      StepKeepsPrefixes(Run(db, steps[..|steps| - 1]), last.caller, last.request);
    }
  }
}
