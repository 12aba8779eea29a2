/** What every write path does to the rows of one organization-scoped model and to the instances in
    memory (`mixins.py`, the write methods of `querysets.py`, the descriptor in `fields.py`).

    The model is a comment: an `organization`, a nullable organization-safe relation `article`
    (concrete half `article_fk`) and one ordinary column `text`. */
module Ownership {
  import opened Outcomes
  import opened SafeFields

  type Pk = nat
  type OrgId = nat

  const RELATION := "article"
  const RELATIONS := [RELATION]
  const KEY := "article_fk"
  const KEY_ID := "article_fk_id"
  const TEXT := "text"
  const CONCRETE := {ORGANIZATION, ORGANIZATION_ID, KEY, KEY_ID, TEXT}

  datatype Row = Row(org: OrgId, key: Option<Pk>, text: int)

  datatype Db = Db(rows: map<Pk, Row>, nextPk: Pk)

  /** `_persisted_organization_id`: an `organization_id`, or "not known". */
  datatype Snapshot = Unknown | Known(org: OrgId)

  datatype Inst = Inst(pk: Option<Pk>, org: Option<OrgId>, key: Option<Pk>, text: int, snapshot: Snapshot)

  /** What a write reads from its surroundings: the bound organization, the default one, and whether
      an enclosing call has already opted into relocation. */
  datatype Env = Env(bound: Option<OrgId>, fallback: Option<OrgId>, allowed: bool)

  predicate NamesOrganization(names: seq<string>) { ORGANIZATION in names || ORGANIZATION_ID in names }
  predicate NamesKey(names: seq<string>) { KEY in names || KEY_ID in names }
  predicate AllConcrete(names: seq<string>) { forall i :: 0 <= i < |names| ==> names[i] in CONCRETE }

  predicate WritesOrganization(fields: Option<seq<string>>) { fields.None? || NamesOrganization(fields.value) }
  predicate WritesKey(fields: Option<seq<string>>) { fields.None? || NamesKey(fields.value) }
  predicate WritesText(fields: Option<seq<string>>) { fields.None? || TEXT in fields.value }

  /** The row after an UPDATE of the named columns from the instance. */
  function Overwritten(row: Row, i: Inst, fields: Option<seq<string>>): Row {
    Row(if WritesOrganization(fields) && i.org.Some? then i.org.value else row.org,
        if WritesKey(fields) then i.key else row.key,
        if WritesText(fields) then i.text else row.text)
  }

  // ------------------------------------------------------- loading and refreshing

  function FromDb(p: Pk, row: Row): Inst {
    Inst(Some(p), Some(row.org), row.key, row.text, Known(row.org))
  }

  datatype Refreshed = Refreshed(inst: Inst, error: Option<Error>)

  /** `refresh_from_db`: copy the named columns from the row, and retake the snapshot with them. */
  function Refresh(db: Db, i: Inst, fields: Option<seq<string>>): Refreshed {
    if fields == Some([]) then Refreshed(i, None)
    else if fields.Some? && !AllConcrete(fields.value) then Refreshed(i, Some(ValueError))
    else if i.pk.None? || i.pk.value !in db.rows then Refreshed(i, Some(DoesNotExist))
    else
      var row := db.rows[i.pk.value];
      var org := if WritesOrganization(fields) then Some(row.org) else i.org;
      Refreshed(Inst(i.pk, org,
                     if WritesKey(fields) then row.key else i.key,
                     if WritesText(fields) then row.text else i.text,
                     if WritesOrganization(fields) then Known(row.org) else i.snapshot),
                None)
  }

  // ----------------------------------------------------------- assignment in memory

  /** The columns a related instance carries over when it is assigned through the safe relation. */
  datatype Target = Target(pk: Option<Pk>, org: Option<OrgId>)

  datatype Assignment =
    | AssignOrganization(org: Option<OrgId>)
    | AssignKey(key: Option<Pk>)
    | AssignRelated(target: Option<Target>)
    | AssignText(text: int)
    | AssignPk(pk: Option<Pk>)

  /** `setattr(instance, ...)`. Clearing the safe relation keeps the organization. */
  function Assigned(i: Inst, a: Assignment): Inst {
    match a
    case AssignOrganization(o) => i.(org := o)
    case AssignKey(k) => i.(key := k)
    case AssignRelated(Some(t)) => i.(key := t.pk, org := t.org)
    case AssignRelated(None) => i.(key := None)
    case AssignText(v) => i.(text := v)
    case AssignPk(p) => i.(pk := p)
  }

  function AssignedAll(i: Inst, values: seq<Assignment>): Inst
    decreases |values|
  {
    if values == [] then i else AssignedAll(Assigned(i, values[0]), values[1..])
  }

  function FieldOf(a: Assignment): string {
    match a
    case AssignOrganization(_) => ORGANIZATION
    case AssignKey(_) => KEY
    case AssignRelated(_) => RELATION
    case AssignText(_) => TEXT
    case AssignPk(_) => "id"
  }

  // --------------------------------------------------------------------------- save

  datatype SaveArgs = SaveArgs(fields: Option<seq<string>>, forceInsert: bool, unsafe: bool)

  datatype Saved = Saved(db: Db, inst: Inst, error: Option<Error>)

  /** An INSERT at `p`; the instance learns its key only when the statement succeeds. */
  function Inserted(db: Db, i: Inst, p: Pk): Saved {
    if i.org.None? || p in db.rows then Saved(db, i, Some(IntegrityError))
    else Saved(db.(rows := db.rows[p := Row(i.org.value, i.key, i.text)]), i.(pk := Some(p)), None)
  }

  /** Django's own `save`: update the row if it exists, otherwise insert it. */
  function BaseSave(db: Db, i: Inst, fields: Option<seq<string>>, forceInsert: bool): Saved {
    if fields == Some([]) then Saved(db, i, None)
    else if fields.Some? && (forceInsert || !AllConcrete(fields.value) || i.pk.None?) then Saved(db, i, Some(ValueError))
    else if i.pk.None? then Inserted(db.(nextPk := db.nextPk + 1), i, db.nextPk)
    else if forceInsert then Inserted(db, i, i.pk.value)
    else if i.pk.value in db.rows then
      if WritesOrganization(fields) && i.org.None? then Saved(db, i, Some(IntegrityError))
      else Saved(db.(rows := db.rows[i.pk.value := Overwritten(db.rows[i.pk.value], i, fields)]), i, None)
    else if fields.Some? then Saved(db, i, Some(DatabaseError))
    else Inserted(db, i, i.pk.value)
  }

  function ExpandedFields(args: SaveArgs): Option<seq<string>> {
    if args.fields.None? then None else Some(Expanded(RELATIONS, args.fields.value))
  }

  /** The organization a row without one is given: the bound one, or else the default. */
  function ResolvedOrganization(i: Inst, env: Env): Option<OrgId> {
    if i.org.Some? then i.org else if env.bound.Some? then env.bound else env.fallback
  }

  /** The check runs only for a write of the organization of what may be an existing row, and only
      when nobody opted in. */
  predicate Guarded(i: Inst, env: Env, args: SaveArgs) {
    && WritesOrganization(ExpandedFields(args))
    && i.pk.Some?
    && !args.forceInsert
    && !args.unsafe
    && !env.allowed
  }

  /** Does the instance disagree with what the database is known, or read, to hold? */
  predicate Relocates(db: Db, i: Inst)
    requires i.pk.Some? && i.org.Some?
  {
    match i.snapshot
    case Known(o) => o != i.org.value
    case Unknown => i.pk.value in db.rows && db.rows[i.pk.value].org != i.org.value
  }

  /** `SingleOrganizationModelMixin.save`. */
  function Save(db: Db, i: Inst, env: Env, args: SaveArgs): Saved {
    var org := ResolvedOrganization(i, env);
    if org.None? then Saved(db, i, Some(OrganizationNotFound))
    else
      var j := i.(org := org);
      if Guarded(j, env, args) && Relocates(db, j) then Saved(db, j, Some(OrganizationCannotBeUpdated))
      else
        Recorded(BaseSave(db, j, ExpandedFields(args), args.forceInsert), WritesOrganization(ExpandedFields(args)), org.value)
  }

  /** A save that wrote the organization records it as the persisted one. */
  function Recorded(base: Saved, writesOrganization: bool, org: OrgId): Saved {
    if base.error.None? && writesOrganization then base.(inst := base.inst.(snapshot := Known(org))) else base
  }

  // -------------------------------------------------------------- queryset writes

  datatype Value = Null | Id(id: nat) | Text(text: int)

  datatype Wrote = Wrote(db: Db, error: Option<Error>)

  predicate Named(kwargs: map<string, Value>, name: string, attname: string) {
    name in kwargs || attname in kwargs
  }

  function ValueOf(kwargs: map<string, Value>, name: string, attname: string): Value
    requires Named(kwargs, name, attname)
  {
    if name in kwargs then kwargs[name] else kwargs[attname]
  }

  /** Why Django would refuse the assignments before looking at a row. */
  function MalformedUpdate(kwargs: map<string, Value>): Option<Error> {
    if !(kwargs.Keys <= CONCRETE) then Some(ValueError)
    else if (ORGANIZATION in kwargs && ORGANIZATION_ID in kwargs) || (KEY in kwargs && KEY_ID in kwargs)
      then Some(DatabaseError)
    else if (Named(kwargs, ORGANIZATION, ORGANIZATION_ID) && ValueOf(kwargs, ORGANIZATION, ORGANIZATION_ID).Text?)
            || (Named(kwargs, KEY, KEY_ID) && ValueOf(kwargs, KEY, KEY_ID).Text?)
            || (TEXT in kwargs && !kwargs[TEXT].Text?)
      then Some(ValueError)
    else None
  }

  function KeyOf(v: Value): Option<Pk> { if v.Id? then Some(v.id) else None }

  function UpdatedRow(row: Row, kwargs: map<string, Value>): Row {
    Row(if Named(kwargs, ORGANIZATION, ORGANIZATION_ID) && ValueOf(kwargs, ORGANIZATION, ORGANIZATION_ID).Id?
        then ValueOf(kwargs, ORGANIZATION, ORGANIZATION_ID).id else row.org,
        if Named(kwargs, KEY, KEY_ID) then KeyOf(ValueOf(kwargs, KEY, KEY_ID)) else row.key,
        if TEXT in kwargs && kwargs[TEXT].Text? then kwargs[TEXT].text else row.text)
  }

  /** Django's own `update` over the rows a queryset matched. */
  function BaseUpdate(db: Db, matched: set<Pk>, kwargs: map<string, Value>): Wrote {
    if MalformedUpdate(kwargs).Some? then Wrote(db, MalformedUpdate(kwargs))
    else if Named(kwargs, ORGANIZATION, ORGANIZATION_ID) && ValueOf(kwargs, ORGANIZATION, ORGANIZATION_ID).Null?
            && matched * db.rows.Keys != {} then Wrote(db, Some(IntegrityError))
    else
      Wrote(db.(rows := map p | p in db.rows :: if p in matched then UpdatedRow(db.rows[p], kwargs) else db.rows[p]), None)
  }

  /** `SingleOrganizationQuerySet.update`. */
  function Update(db: Db, matched: set<Pk>, kwargs: map<string, Value>, unsafe: bool, allowed: bool): Wrote {
    var rewritten := Rewritten(RELATIONS, kwargs, true);
    if Named(rewritten, ORGANIZATION, ORGANIZATION_ID) && !unsafe && !allowed
    then Wrote(db, Some(OrganizationCannotBeUpdated))
    else BaseUpdate(db, matched, rewritten)
  }

  /** The first of the objects that is about row `p`: the first WHEN of the CASE that matches. */
  function FirstFor(objs: seq<Inst>, p: Pk): Option<Inst> {
    if objs == [] then None
    else if objs[0].pk == Some(p) then Some(objs[0])
    else FirstFor(objs[1..], p)
  }

  /** One nested `update()` of `bulk_update`. It passes through the same check as any other update,
      which is why the caller has to open the opt-in around it. */
  function NestedUpdate(db: Db, within: set<Pk>, batch: seq<Inst>, fields: seq<string>, allowed: bool): Wrote {
    if NamesOrganization(fields) && !allowed then Wrote(db, Some(OrganizationCannotBeUpdated))
    else if NamesOrganization(fields) && exists p :: p in db.rows && p in within && FirstFor(batch, p).Some?
                                                    && FirstFor(batch, p).value.org.None?
    then Wrote(db, Some(IntegrityError))
    else
      Wrote(db.(rows := map p | p in db.rows ::
                  if p in within && FirstFor(batch, p).Some?
                  then Overwritten(db.rows[p], FirstFor(batch, p).value, Some(fields)) else db.rows[p]), None)
  }

  function NestedUpdates(db: Db, within: set<Pk>, batches: seq<seq<Inst>>, fields: seq<string>, allowed: bool): Wrote
    decreases |batches|
  {
    if batches == [] then Wrote(db, None)
    else
      var first := NestedUpdate(db, within, batches[0], fields, allowed);
      if first.error.Some? then first else NestedUpdates(first.db, within, batches[1..], fields, allowed)
  }

  function Flat(batches: seq<seq<Inst>>): seq<Inst>
    decreases |batches|
  {
    if batches == [] then [] else batches[0] + Flat(batches[1..])
  }

  /** Django's own `bulk_update`: all batches, or none of them. */
  function BaseBulkUpdate(db: Db, within: set<Pk>, batches: seq<seq<Inst>>, fields: seq<string>, allowed: bool): Wrote {
    if fields == [] || !AllConcrete(fields) || (exists i :: 0 <= i < |Flat(batches)| && Flat(batches)[i].pk.None?)
    then Wrote(db, Some(ValueError))
    else
      var r := NestedUpdates(db, within, batches, fields, allowed);
      if r.error.Some? then Wrote(db, r.error) else r
  }

  predicate SomeRelocates(db: Db, objs: seq<Inst>) {
    exists i :: 0 <= i < |objs| && objs[i].pk.Some? && objs[i].pk.value in db.rows
                && objs[i].org != Some(db.rows[objs[i].pk.value].org)
  }

  /** `SingleOrganizationQuerySet.bulk_update`; `within` is what the queryset itself matches. */
  function BulkUpdate(db: Db, within: set<Pk>, batches: seq<seq<Inst>>, names: seq<string>, unsafe: bool,
        allowed: bool): Wrote {
    var fields := Expanded(RELATIONS, names);
    if NamesOrganization(fields) && !unsafe && !allowed then
      if SomeRelocates(db, Flat(batches)) then Wrote(db, Some(OrganizationCannotBeUpdated))
      else BaseBulkUpdate(db, within, batches, fields, true)
    else BaseBulkUpdate(db, within, batches, fields, unsafe || allowed)
  }

  // -------------------------------------------------------------------- bulk_create

  datatype CreateArgs = CreateArgs(ignoreConflicts: bool, updateConflicts: bool, fields: Option<seq<string>>, unsafe: bool)

  function ConflictFields(args: CreateArgs): seq<string> { if args.fields.Some? then args.fields.value else [] }

  datatype Created = Created(db: Db, objs: seq<Inst>, error: Option<Error>)

  /** One row of the INSERT ... ON CONFLICT. Nothing here takes a snapshot. */
  function CreatedOne(db: Db, i: Inst, args: CreateArgs): Saved {
    if i.org.None? then Saved(db, i, Some(IntegrityError))
    else if i.pk.None? then
      var r := Inserted(db.(nextPk := db.nextPk + 1), i, db.nextPk);
      if args.ignoreConflicts then r.(inst := i) else r
    else if i.pk.value !in db.rows then Inserted(db, i, i.pk.value)
    else if args.ignoreConflicts then Saved(db, i, None)
    else if args.updateConflicts then
      Saved(db.(rows := db.rows[i.pk.value := Overwritten(db.rows[i.pk.value], i, Some(ConflictFields(args)))]), i, None)
    else Saved(db, i, Some(IntegrityError))
  }

  /** The objects that have a key already, or those that do not: Django inserts the former first. */
  function CreatedPass(db: Db, objs: seq<Inst>, args: CreateArgs, keyed: bool): Created
    decreases |objs|
  {
    if objs == [] then Created(db, [], None)
    else
      var first := if objs[0].pk.Some? == keyed then CreatedOne(db, objs[0], args) else Saved(db, objs[0], None);
      if first.error.Some? then Created(first.db, objs, first.error)
      else
        var rest := CreatedPass(first.db, objs[1..], args, keyed);
        Created(rest.db, [first.inst] + rest.objs, rest.error)
  }

  /** Django's own `bulk_create`: all rows or none. */
  function BaseBulkCreate(db: Db, objs: seq<Inst>, args: CreateArgs): Created {
    if (args.ignoreConflicts && args.updateConflicts)
       || (args.updateConflicts && (ConflictFields(args) == [] || !AllConcrete(ConflictFields(args))))
    then Created(db, objs, Some(ValueError))
    else
      var keyed := CreatedPass(db, objs, args, true);
      if keyed.error.Some? then Created(db, objs, keyed.error)
      else
        var all := CreatedPass(keyed.db, keyed.objs, args, false);
        if all.error.Some? then Created(db, objs, all.error) else all
  }

  /** `SingleOrganizationQuerySet.bulk_create`. */
  function BulkCreate(db: Db, objs: seq<Inst>, args: CreateArgs, allowed: bool): Created {
    if args.updateConflicts && NamesOrganization(ConflictFields(args)) && !args.unsafe && !allowed
    then Created(db, objs, Some(OrganizationCannotBeUpdated))
    else BaseBulkCreate(db, objs, args)
  }

  // --------------------------------------------------------------- update_or_create

  /** `save` gets `update_fields` only when every default names a concrete field. */
  function DefaultFields(defaults: seq<Assignment>): Option<seq<string>> {
    var names := seq(|defaults|, k requires 0 <= k < |defaults| => FieldOf(defaults[k]));
    if AllConcrete(names) then Some(names) else None
  }

  /** `update_or_create`, given the row its lookup found, if any. */
  function UpdateOrCreate(db: Db, found: Option<Pk>, created: Inst, defaults: seq<Assignment>, env: Env,
        unsafe: bool): Saved
    requires found.Some? ==> found.value in db.rows
  {
    var inner := env.(allowed := unsafe || env.allowed);
    if found.Some? then
      var i := AssignedAll(FromDb(found.value, db.rows[found.value]), defaults);
      Save(db, i, inner, SaveArgs(DefaultFields(defaults), false, false))
    else Save(db, created, inner, SaveArgs(None, true, false))
  }
}
