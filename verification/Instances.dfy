/** The write paths as the source has them: objects whose attributes, snapshot and table are updated
    step by step. Each is proved to do what the functions of `Ownership` say; the methods named
    `Super...` stand for Django's own and are those functions. */
module Instances {
  import opened Outcomes
  import opened SafeFields
  import opened Ownership
  import opened ContextVars
  import OwnershipRuns

  class Table {
    var rows: map<Pk, Row>
    var nextPk: Pk

    constructor ()
      ensures View() == Db(map[], 1)
    {
      rows, nextPk := map[], 1;
    }

    function View(): Db reads this { Db(rows, nextPk) }

    method Put(db: Db)
      modifies this
      ensures View() == db
    {
      rows, nextPk := db.rows, db.nextPk;
    }
  }

  type Flag = ContextVar<bool>

  class Instance {
    var pk: Option<Pk>
    var organizationId: Option<OrgId>
    var articleFkId: Option<Pk>
    var text: int
    var persistedOrganizationId: Snapshot

    function View(): Inst reads this { Inst(pk, organizationId, articleFkId, text, persistedOrganizationId) }

    /** Built in memory: nothing is known about the database. */
    constructor (pk: Option<Pk>, organizationId: Option<OrgId>, articleFkId: Option<Pk>, text: int)
      ensures View() == Inst(pk, organizationId, articleFkId, text, Unknown)
    {
      this.pk, this.organizationId, this.articleFkId, this.text := pk, organizationId, articleFkId, text;
      persistedOrganizationId := Unknown;
    }

    /** `from_db` of a row loaded with its organization. */
    constructor FromDb(p: Pk, row: Row)
      ensures View() == Ownership.FromDb(p, row)
    {
      pk, organizationId, articleFkId, text := Some(p), Some(row.org), row.key, row.text;
      persistedOrganizationId := Unknown;
      new;
      persistedOrganizationId := Known(organizationId.value);
    }

    method Put(i: Inst)
      modifies this
      ensures View() == i
    {
      pk, organizationId, articleFkId, text, persistedOrganizationId := i.pk, i.org, i.key, i.text, i.snapshot;
    }

    /** `instance.article = value`. Clearing walks the join columns and leaves the organization. */
    method SetRelated(value: Option<Target>)
      modifies this
      ensures View() == Assigned(old(View()), AssignRelated(value))
      ensures articleFkId == (if value.Some? then value.value.pk else None)
      ensures organizationId == (if value.Some? then value.value.org else old(organizationId))
      ensures pk == old(pk) && text == old(text) && persistedOrganizationId == old(persistedOrganizationId)
    {
      if value.Some? {
        articleFkId, organizationId := value.value.pk, value.value.org;
        return;
      }
      var related := LocalFields(RELATION);
      assert related[0] == KEY && related[1] == ORGANIZATION && |KEY| != |ORGANIZATION| by {
        assert RELATION + "_fk" == KEY;
      }
      for k := 0 to |related|
        invariant organizationId == old(organizationId) && pk == old(pk) && text == old(text)
        invariant persistedOrganizationId == old(persistedOrganizationId)
        invariant articleFkId == if k == 0 then old(articleFkId) else None
      {
        if related[k] != ORGANIZATION {
          articleFkId := None;
        }
      }
    }

    /** Django's `refresh_from_db`: it copies field values and nothing else. */
    method SuperRefresh(table: Table, fields: Option<seq<string>>) returns (error: Option<Error>)
      modifies this
      ensures var r := Refresh(table.View(), old(View()), fields);
              View() == r.inst.(snapshot := old(persistedOrganizationId)) && error == r.error
    {
      var r := Refresh(table.View(), View(), fields);
      Put(r.inst.(snapshot := persistedOrganizationId));
      error := r.error;
    }

    method RefreshFromDb(table: Table, fields: Option<seq<string>>) returns (error: Option<Error>)
      modifies this
      ensures Refreshed(View(), error) == Refresh(table.View(), old(View()), fields)
    {
      error := SuperRefresh(table, fields);
      if error.Some? {
        return;
      }
      if fields.None? || ORGANIZATION in fields.value || ORGANIZATION_ID in fields.value {
        persistedOrganizationId := Known(organizationId.value);
      }
    }

    /** Django's `save`. */
    method SuperSave(table: Table, fields: Option<seq<string>>, forceInsert: bool) returns (error: Option<Error>)
      modifies this, table
      ensures Saved(table.View(), View(), error) == BaseSave(old(table.View()), old(View()), fields, forceInsert)
    {
      var r := BaseSave(table.View(), View(), fields, forceInsert);
      table.Put(r.db);
      Put(r.inst);
      error := r.error;
    }

    /** `SingleOrganizationModelMixin.save`. */
    method Save(table: Table, flag: Flag, bound: Option<OrgId>, fallback: Option<OrgId>, args: SaveArgs)
      returns (error: Option<Error>)
      modifies this, table
      ensures Saved(table.View(), View(), error) ==
              Ownership.Save(old(table.View()), old(View()), Env(bound, fallback, flag.value), args)
    {
      var updateFields := args.fields;
      if updateFields.Some? {
        var expanded := ExpandSafeRelationFieldNames(RELATIONS, updateFields.value);
        updateFields := Some(expanded);
      }

      if organizationId.None? {
        var organization := if bound.Some? then bound else fallback;
        if organization.None? {
          return Some(OrganizationNotFound);
        }
        organizationId := organization;
      }
      ghost var j := View();
      assert j == old(View()).(org := ResolvedOrganization(old(View()), Env(bound, fallback, flag.value)));

      var writesOrganization := updateFields.None?
                                || ORGANIZATION in updateFields.value || ORGANIZATION_ID in updateFields.value;

      if writesOrganization && pk.Some? && !args.forceInsert && !args.unsafe && !flag.value {
        var refused := RefusesRelocation(table);
        if refused {
          return Some(OrganizationCannotBeUpdated);
        }
      }
      error := SaveAndRecord(table, updateFields, args.forceInsert, writesOrganization);
    }

    /** The comparison that stands in for a read: with the snapshot, or with the locked row when the
        snapshot is unknown. */
    method RefusesRelocation(table: Table) returns (refused: bool)
      requires pk.Some? && organizationId.Some?
      ensures refused == Relocates(table.View(), View())
    {
      var snapshot := persistedOrganizationId;
      if snapshot.Known? {
        return snapshot.org != organizationId.value;
      }
      var persisted := if pk.value in table.rows then Some(table.rows[pk.value].org) else None;
      return persisted.Some? && persisted.value != organizationId.value;
    }

    /** `super().save`, and the snapshot after it. */
    method SaveAndRecord(table: Table, fields: Option<seq<string>>, forceInsert: bool, writesOrganization: bool)
      returns (error: Option<Error>)
      requires organizationId.Some?
      modifies this, table
      ensures Saved(table.View(), View(), error)
           == Recorded(BaseSave(old(table.View()), old(View()), fields, forceInsert), writesOrganization, old(organizationId.value))
    {
      error := SuperSave(table, fields, forceInsert);
      if error.None? && writesOrganization {
        persistedOrganizationId := Known(organizationId.value);
      }
    }
  }

  function Views(objs: seq<Instance>): (views: seq<Inst>)
    reads objs
    ensures |views| == |objs| && forall k :: 0 <= k < |objs| ==> views[k] == objs[k].View()
  {
    seq(|objs|, k requires 0 <= k < |objs| reads objs => objs[k].View())
  }

  /** The batches Django cuts the objects into. */
  function Chunks(objs: seq<Inst>, size: nat): seq<seq<Inst>>
    requires size > 0
    decreases |objs|
  {
    if objs == [] then []
    else if |objs| <= size then [objs]
    else [objs[..size]] + Chunks(objs[size..], size)
  }

  lemma {:induction false} FlatOfChunks(objs: seq<Inst>, size: nat)
    requires size > 0
    ensures Flat(Chunks(objs, size)) == objs
    decreases |objs|
  {
    if 0 < |objs| <= size {
      assert [objs][1..] == [] && objs + [] == objs;
    } else if objs != [] {
      FlatOfChunks(objs[size..], size);
      assert Chunks(objs, size)[1..] == Chunks(objs[size..], size);
    }
  }

  /** Every batch but the last is full, and none is empty. */
  lemma {:induction false} BatchesAreFull(objs: seq<Inst>, size: nat, k: nat)
    requires size > 0 && k < |Chunks(objs, size)|
    ensures 0 < |Chunks(objs, size)[k]| <= size
    ensures k < |Chunks(objs, size)| - 1 ==> |Chunks(objs, size)[k]| == size
    decreases |objs|
  {
    if |objs| > size && k > 0 {
      assert Chunks(objs, size)[1..] == Chunks(objs[size..], size);
      BatchesAreFull(objs[size..], size, k - 1);
    }
  }

  ghost predicate LastAt(objs: seq<Instance>, k: nat)
    requires k < |objs|
  {
    forall l :: k < l < |objs| ==> objs[l] != objs[k]
  }

  /** A queryset over the table; `within` is what its filters match. */
  class QuerySet {
    const table: Table
    const flag: Flag
    const within: set<Pk>

    constructor (table: Table, flag: Flag, within: set<Pk>)
      ensures this.table == table && this.flag == flag && this.within == within
    {
      this.table, this.flag, this.within := table, flag, within;
    }

    method SuperUpdate(kwargs: map<string, Value>) returns (error: Option<Error>)
      modifies table
      ensures Wrote(table.View(), error) == BaseUpdate(old(table.View()), within, kwargs)
    {
      var r := BaseUpdate(table.View(), within, kwargs);
      table.Put(r.db);
      error := r.error;
    }

    /** `update`. The opt-in it opens around an unsafe call is closed again on every path. */
    method Update(kwargs: map<string, Value>, unsafe: bool) returns (error: Option<Error>)
      modifies table, flag
      ensures Wrote(table.View(), error) == Ownership.Update(old(table.View()), within, kwargs, unsafe, old(flag.value))
      ensures flag.value == old(flag.value)
    {
      var rewritten := RewriteSafeRelationKwargs(RELATIONS, kwargs, true);
      if (ORGANIZATION in rewritten || ORGANIZATION_ID in rewritten) && !unsafe && !flag.value {
        return Some(OrganizationCannotBeUpdated);
      }
      if unsafe {
        var token := flag.Set(true);
        error := SuperUpdate(rewritten);
        var _ := flag.Reset(token);
        return;
      }
      error := SuperUpdate(rewritten);
    }

    /** One nested `update()`, which meets the flag like any other. */
    method NestedUpdate(batch: seq<Inst>, fields: seq<string>) returns (error: Option<Error>)
      modifies table
      ensures Wrote(table.View(), error) == Ownership.NestedUpdate(old(table.View()), within, batch, fields, flag.value)
    {
      if NamesOrganization(fields) && !flag.value {
        return Some(OrganizationCannotBeUpdated);
      }
      var r := Ownership.NestedUpdate(table.View(), within, batch, fields, flag.value);
      table.Put(r.db);
      error := r.error;
    }

    /** Django's `bulk_update`: nested updates batch by batch, inside one transaction. */
    method SuperBulkUpdate(objs: seq<Inst>, fields: seq<string>, size: nat) returns (error: Option<Error>)
      requires size > 0
      modifies table
      ensures Wrote(table.View(), error) == BaseBulkUpdate(old(table.View()), within, Chunks(objs, size), fields, flag.value)
    {
      var start := table.View();
      FlatOfChunks(objs, size);
      if fields == [] || !AllConcrete(fields) || (exists i :: 0 <= i < |objs| && objs[i].pk.None?) {
        return Some(ValueError);
      }
      error := None;
      var rest := objs;
      while rest != []
        invariant error.None?
        invariant NestedUpdates(start, within, Chunks(objs, size), fields, flag.value) ==
                  NestedUpdates(table.View(), within, Chunks(rest, size), fields, flag.value)
        decreases |rest|
      {
        var cut := if |rest| <= size then |rest| else size;
        assert Chunks(rest, size)[0] == rest[..cut] && Chunks(rest, size)[1..] == Chunks(rest[cut..], size) by {
          assert rest[..|rest|] == rest && rest[|rest|..] == [];
        }
        error := NestedUpdate(rest[..cut], fields);
        if error.Some? {
          table.Put(start);
          return;
        }
        rest := rest[cut..];
      }
    }

    /** `any(obj.pk in persisted and persisted[obj.pk] != obj.organization_id ...)`. */
    method AnyRelocates(objects: seq<Inst>) returns (some: bool)
      ensures some <==> SomeRelocates(table.View(), objects)
    {
      for k := 0 to |objects|
        invariant forall j :: 0 <= j < k ==> !(objects[j].pk.Some? && objects[j].pk.value in table.rows
                                               && objects[j].org != Some(table.rows[objects[j].pk.value].org))
      {
        if objects[k].pk.Some? && objects[k].pk.value in table.rows
           && objects[k].org != Some(table.rows[objects[k].pk.value].org) {
          return true;
        }
      }
      return false;
    }

    /** `bulk_update`. */
    method BulkUpdate(objs: seq<Instance>, names: seq<string>, size: nat, unsafe: bool) returns (error: Option<Error>)
      requires size > 0
      modifies table, flag
      ensures Wrote(table.View(), error) ==
              Ownership.BulkUpdate(old(table.View()), within, Chunks(old(Views(objs)), size), names, unsafe, old(flag.value))
      ensures flag.value == old(flag.value)
    {
      var expanded := ExpandSafeRelationFieldNames(RELATIONS, names);
      var writesOrganization := ORGANIZATION in expanded || ORGANIZATION_ID in expanded;
      var objects := Views(objs);
      FlatOfChunks(objects, size);

      if writesOrganization && !unsafe && !flag.value {
        var relocates := AnyRelocates(objects);
        if relocates {
          return Some(OrganizationCannotBeUpdated);
        }
        var token := flag.Set(true);
        error := SuperBulkUpdate(objects, expanded, size);
        var _ := flag.Reset(token);
        return;
      }

      if unsafe {
        var token := flag.Set(true);
        error := SuperBulkUpdate(objects, expanded, size);
        var _ := flag.Reset(token);
        return;
      }
      error := SuperBulkUpdate(objects, expanded, size);
    }

    /** Handing out the new keys; an object listed twice ends up with the key of its last row. */
    static method HandOutKeys(objs: seq<Instance>, keys: seq<Option<Pk>>)
      requires |keys| == |objs|
      modifies objs`pk
      ensures forall k :: 0 <= k < |objs| && LastAt(objs, k) ==> objs[k].pk == keys[k]
    {
      for k := 0 to |objs|
        invariant forall j :: 0 <= j < k && (forall l :: j < l < k ==> objs[l] != objs[j]) ==> objs[j].pk == keys[j]
      {
        objs[k].pk := keys[k];
      }
    }

    /** Django's `bulk_create`: rows are written from the objects as they are, then keys handed out. */
    method SuperBulkCreate(objs: seq<Instance>, args: CreateArgs) returns (error: Option<Error>)
      modifies table, objs`pk
      ensures var r := BaseBulkCreate(old(table.View()), old(Views(objs)), args);
              && table.View() == r.db && error == r.error && |r.objs| == |objs|
              && forall k :: 0 <= k < |objs| && LastAt(objs, k) ==> objs[k].View() == r.objs[k]
    {
      var views := Views(objs);
      var r := BaseBulkCreate(table.View(), views, args);
      KeysAreAllThatChanges(table.View(), views, args);
      table.Put(r.db);
      HandOutKeys(objs, seq(|objs|, k requires 0 <= k < |objs| => r.objs[k].pk));
      error := r.error;
      forall k | 0 <= k < |objs| && LastAt(objs, k)
        ensures objs[k].View() == r.objs[k]
      {
        assert views[k] == old(objs[k].View());
      }
    }

    /** `bulk_create`. */
    method BulkCreate(objs: seq<Instance>, args: CreateArgs) returns (error: Option<Error>)
      modifies table, flag, objs`pk
      ensures var r := Ownership.BulkCreate(old(table.View()), old(Views(objs)), args, old(flag.value));
              && table.View() == r.db && error == r.error && |r.objs| == |objs|
              && forall k :: 0 <= k < |objs| && LastAt(objs, k) ==> objs[k].View() == r.objs[k]
      ensures flag.value == old(flag.value)
    {
      var updateFields := if args.fields.Some? then args.fields.value else [];
      if args.updateConflicts && (ORGANIZATION in updateFields || ORGANIZATION_ID in updateFields)
         && !args.unsafe && !flag.value {
        return Some(OrganizationCannotBeUpdated);
      }
      if args.unsafe {
        var token := flag.Set(true);
        error := SuperBulkCreate(objs, args);
        var _ := flag.Reset(token);
        return;
      }
      error := SuperBulkCreate(objs, args);
    }

    /** Django's `update_or_create`, down to the `save` the mixin overrides. */
    method SuperUpdateOrCreate(found: Option<Pk>, values: Inst, defaults: seq<Assignment>, bound: Option<OrgId>,
          fallback: Option<OrgId>)
      returns (obj: Instance, error: Option<Error>)
      requires found.Some? ==> found.value in table.rows
      modifies table
      ensures fresh(obj)
      ensures Saved(table.View(), obj.View(), error) ==
              Ownership.UpdateOrCreate(old(table.View()), found, values.(snapshot := Unknown), defaults, Env(bound, fallback, flag.value), false)
    {
      ghost var env := Env(bound, fallback, flag.value);
      assert env.(allowed := false || env.allowed) == env;
      if found.None? {
        obj := new Instance(values.pk, values.org, values.key, values.text);
        error := obj.Save(table, flag, bound, fallback, SaveArgs(None, true, false));
        return;
      }
      obj := new Instance.FromDb(found.value, table.rows[found.value]);
      ghost var start := obj.View();
      for k := 0 to |defaults|
        invariant AssignedAll(start, defaults) == AssignedAll(obj.View(), defaults[k..])
        invariant fresh(obj) && table.View() == old(table.View())
      {
        assert defaults[k..][0] == defaults[k] && defaults[k..][1..] == defaults[k + 1..];
        obj.Put(Assigned(obj.View(), defaults[k]));
      }
      assert defaults[|defaults|..] == [];
      error := obj.Save(table, flag, bound, fallback, SaveArgs(DefaultFields(defaults), false, false));
    }

    /** `update_or_create`. */
    method UpdateOrCreate(found: Option<Pk>, values: Inst, defaults: seq<Assignment>, unsafe: bool,
          bound: Option<OrgId>, fallback: Option<OrgId>)
      returns (obj: Instance, error: Option<Error>)
      requires found.Some? ==> found.value in table.rows
      modifies table, flag
      ensures fresh(obj)
      ensures Saved(table.View(), obj.View(), error) ==
              Ownership.UpdateOrCreate(old(table.View()), found, values.(snapshot := Unknown), defaults,
                                       Env(bound, fallback, old(flag.value)), unsafe)
      ensures flag.value == old(flag.value)
    {
      if unsafe {
        var token := flag.Set(true);
        obj, error := SuperUpdateOrCreate(found, values, defaults, bound, fallback);
        var _ := flag.Reset(token);
        return;
      }
      obj, error := SuperUpdateOrCreate(found, values, defaults, bound, fallback);
    }
  }

  lemma KeysAreAllThatChanges(db: Db, objs: seq<Inst>, args: CreateArgs)
    ensures var r := BaseBulkCreate(db, objs, args);
            |r.objs| == |objs| && forall k :: 0 <= k < |objs| ==> r.objs[k] == objs[k].(pk := r.objs[k].pk)
  {
    OwnershipRuns.KeyedPassKeepsRows(db, objs, args);
    OwnershipRuns.UnkeyedPassOnlyAdds(CreatedPass(db, objs, args, true).db, objs, args);
  }
}
