/** The other half of safety: a write that raises nothing has written what it was asked to write, all of
    it and nothing else, and a relocation that was opted into takes place. */
module WritesLand {
  import opened Outcomes
  import opened SafeFields
  import opened Ownership
  import OR = OwnershipRuns

  /** Rows other than `p` are the same in both. */
  ghost predicate OthersSame(a: Db, b: Db, p: Pk) {
    && a.rows.Keys - {p} == b.rows.Keys - {p}
    && forall q :: q in a.rows && q != p ==> q in b.rows && b.rows[q] == a.rows[q]
  }

  /** A write of `fields` writes the column: by its name, by its attname, or with all the others. */
  predicate Writes(fields: Option<seq<string>>, name: string, attname: string) {
    fields.None? || name in fields.value || attname in fields.value
  }

  /** The columns a write names come from the instance, the others from the row it found. */
  ghost predicate Carries(after: Row, before: Row, i: Inst, fields: Option<seq<string>>) {
    && (if Writes(fields, ORGANIZATION, ORGANIZATION_ID) then Some(after.org) == i.org else after.org == before.org)
    && after.key == (if Writes(fields, KEY, KEY_ID) then i.key else before.key)
    && after.text == (if Writes(fields, TEXT, TEXT) then i.text else before.text)
  }

  // ---------------------------------------------------------------------------- save

  lemma SaveLands(db: Db, i: Inst, env: Env, args: SaveArgs)
    requires Save(db, i, env, args).error.None? && ExpandedFields(args) != Some([])
    ensures
      var r := Save(db, i, env, args);
      && r.inst.pk.Some? && r.inst.pk.value in r.db.rows && OthersSame(db, r.db, r.inst.pk.value)
      && (if r.inst.pk.value in db.rows
          then i.pk.Some? && Carries(r.db.rows[r.inst.pk.value], db.rows[r.inst.pk.value], r.inst, ExpandedFields(args))
          else r.inst.org == Some(r.db.rows[r.inst.pk.value].org) && r.db.rows[r.inst.pk.value] == Row(r.inst.org.value, i.key, i.text))
      && r.inst == i.(pk := r.inst.pk, org := r.inst.org, snapshot := r.inst.snapshot)
      && r.inst.org == (if i.org.Some? then i.org else if env.bound.Some? then env.bound else env.fallback)
      && (i.pk.Some? ==> r.inst.pk == i.pk)
  {
  }

  /** A missing organization is the bound one, or else the default one, in memory and in the row; there
      is no telling which row it is exactly when there is neither. */
  lemma MissingOrganizationIsFilledIn(db: Db, i: Inst, env: Env, args: SaveArgs)
    requires i.org.None?
    ensures
      var r := Save(db, i, env, args);
      && (r.error == Some(OrganizationNotFound) <==> env.bound.None? && env.fallback.None?)
      && (env.bound.None? && env.fallback.None? ==> r.db == db && r.inst == i)
      && (env.bound.Some? ==> r.inst.org == env.bound)
      && (env.bound.None? && env.fallback.Some? ==> r.inst.org == env.fallback)
      && (r.error.None? && Writes(ExpandedFields(args), ORGANIZATION, ORGANIZATION_ID) ==>
            r.inst.pk.Some? && r.inst.pk.value in r.db.rows && Some(r.db.rows[r.inst.pk.value].org) == r.inst.org)
  {
  }

  /** Exactly the relocations are refused: somebody who did not opt in would write another organization
      than the instance last saw, or, where nothing is known, than its row holds. */
  lemma SaveRefusedIff(db: Db, i: Inst, env: Env, args: SaveArgs)
    ensures
      var org := if i.org.Some? then i.org else if env.bound.Some? then env.bound else env.fallback;
      Save(db, i, env, args).error == Some(OrganizationCannotBeUpdated) <==>
        && org.Some? && i.pk.Some? && !args.unsafe && !env.allowed && !args.forceInsert
        && Writes(ExpandedFields(args), ORGANIZATION, ORGANIZATION_ID)
        && match i.snapshot
           case Known(seen) => seen != org.value
           case Unknown => i.pk.value in db.rows && db.rows[i.pk.value].org != org.value
  {
  }

  /** And what is not refused goes through, but for columns that are not there, and rows that are missing
      or in the way; which exception it is says which. */
  lemma SaveSucceedsIff(db: Db, i: Inst, env: Env, args: SaveArgs)
    requires i.org.Some? || env.bound.Some? || env.fallback.Some?
    ensures
      var error, fields := Save(db, i, env, args).error, ExpandedFields(args);
      error.None? || error == Some(OrganizationCannotBeUpdated) ||
      if fields.Some? then
        && fields != Some([])
        && error == (if args.forceInsert || i.pk.None? || (exists n :: n in fields.value && n !in CONCRETE)
                     then Some(ValueError) else Some(DatabaseError))
        && (error == Some(DatabaseError) ==> i.pk.value !in db.rows)
      else
        && error == Some(IntegrityError)
        && (if i.pk.Some? then args.forceInsert && i.pk.value in db.rows else db.nextPk in db.rows)
    ensures
      var error, fields := Save(db, i, env, args).error, ExpandedFields(args);
      error.None? && fields != Some([]) ==>
        if fields.Some? then !args.forceInsert && i.pk.Some? && i.pk.value in db.rows && forall n :: n in fields.value ==> n in CONCRETE
        else if i.pk.Some? then args.forceInsert ==> i.pk.value !in db.rows else db.nextPk !in db.rows
    ensures ExpandedFields(args) == Some([]) ==> Save(db, i, env, args).error.None? && Save(db, i, env, args).db == db
  {
  }

  /** A full save reads back: what is stored is the instance, and refreshing it changes nothing. */
  lemma SaveReadsBack(db: Db, i: Inst, env: Env, args: SaveArgs)
    requires args.fields.None? && Save(db, i, env, args).error.None?
    ensures
      var r := Save(db, i, env, args);
      && r.inst.pk.Some? && r.inst.pk.value in r.db.rows
      && FromDb(r.inst.pk.value, r.db.rows[r.inst.pk.value]) == r.inst
      && Refresh(r.db, r.inst, None) == Refreshed(r.inst, None)
  {
  }

  /** Exactly when a save moves an existing row: somebody opted in, or the instance is stale and writes
      back the organization it last saw. */
  lemma SaveMovesIff(db: Db, i: Inst, env: Env, args: SaveArgs, p: Pk)
    requires i.pk == Some(p) && p in db.rows && !args.forceInsert
    requires WritesOrganization(ExpandedFields(args))
    requires ExpandedFields(args).Some? ==> AllConcrete(ExpandedFields(args).value)
    ensures
      var r := Save(db, i, env, args);
      var org := if i.org.Some? then i.org else if env.bound.Some? then env.bound else env.fallback;
      && p in r.db.rows
      && (r.db.rows[p].org != db.rows[p].org <==>
            && org.Some? && org.value != db.rows[p].org
            && (args.unsafe || env.allowed || i.snapshot == Known(org.value)))
      && (r.db.rows[p].org != db.rows[p].org ==> r.error.None? && Some(r.db.rows[p].org) == org)
  {
  }

  // ------------------------------------------------------------------------- refresh

  /** A refresh brings the columns it names from the row and leaves the others; a snapshot is as old as
      the organization beside it. */
  lemma RefreshLands(db: Db, i: Inst, fields: Option<seq<string>>)
    ensures
      var r := Refresh(db, i, fields);
      && (r.error == Some(ValueError) <==> fields.Some? && exists n :: n in fields.value && n !in CONCRETE)
      && (r.error == Some(DoesNotExist) <==>
            && fields != Some([]) && (fields.Some? ==> forall n :: n in fields.value ==> n in CONCRETE)
            && (i.pk.None? || i.pk.value !in db.rows))
      && (r.error.Some? || fields == Some([]) ==> r.inst == i)
      && (r.error.None? && fields != Some([]) ==>
            var row := db.rows[i.pk.value];
            && r.inst.pk == i.pk
            && r.inst.org == (if Writes(fields, ORGANIZATION, ORGANIZATION_ID) then Some(row.org) else i.org)
            && r.inst.snapshot == (if Writes(fields, ORGANIZATION, ORGANIZATION_ID) then Known(row.org) else i.snapshot)
            && r.inst.key == (if Writes(fields, KEY, KEY_ID) then row.key else i.key)
            && r.inst.text == (if Writes(fields, TEXT, TEXT) then row.text else i.text))
      && (r.error.Some? ==> r.error == Some(ValueError) || r.error == Some(DoesNotExist))
  {
  }

  // -------------------------------------------------------------------------- update

  /** The value an update gives a column, by its name or its attname. */
  function Given(kwargs: map<string, Value>, name: string, attname: string): Option<Value> {
    if name in kwargs then Some(kwargs[name]) else if attname in kwargs then Some(kwargs[attname]) else None
  }

  /** An update that raises nothing has written each column it names to each matched row, and nothing
      else. Keywords are those after rewriting, which `RewritingMovesEveryKeyword` describes. */
  lemma UpdateLands(db: Db, matched: set<Pk>, kwargs: map<string, Value>, unsafe: bool, allowed: bool)
    requires Update(db, matched, kwargs, unsafe, allowed).error.None?
    ensures
      var r, named := Update(db, matched, kwargs, unsafe, allowed), Rewritten(RELATIONS, kwargs, true);
      && r.db.rows.Keys == db.rows.Keys && r.db.nextPk == db.nextPk
      && forall p :: p in db.rows ==>
           if p !in matched then r.db.rows[p] == db.rows[p]
           else
             && (match Given(named, ORGANIZATION, ORGANIZATION_ID)
                 case Some(v) => v == Id(r.db.rows[p].org)
                 case None => r.db.rows[p].org == db.rows[p].org)
             && (match Given(named, KEY, KEY_ID)
                 case Some(v) => v == (if r.db.rows[p].key.Some? then Id(r.db.rows[p].key.value) else Null)
                 case None => r.db.rows[p].key == db.rows[p].key)
             && (match Given(named, TEXT, TEXT)
                 case Some(v) => v == Text(r.db.rows[p].text)
                 case None => r.db.rows[p].text == db.rows[p].text)
  {
    assert forall p :: p in db.rows && p in matched ==> p in matched * db.rows.Keys;
  }

  /** Short of a refusal, an update raises what the database or the framework has against its values, and
      then writes nothing. */
  lemma UpdateSucceedsIff(db: Db, matched: set<Pk>, kwargs: map<string, Value>, unsafe: bool, allowed: bool)
    requires Update(db, matched, kwargs, unsafe, allowed).error != Some(OrganizationCannotBeUpdated)
    ensures
      var r, named := Update(db, matched, kwargs, unsafe, allowed), Rewritten(RELATIONS, kwargs, true);
      && (r.error.Some? ==> r.db == db)
      && (r.error.None? <==>
            && (forall n :: n in named ==> n in CONCRETE)
            && !(ORGANIZATION in named && ORGANIZATION_ID in named) && !(KEY in named && KEY_ID in named)
            && (forall n :: n in named ==> (n == TEXT <==> named[n].Text?))
            && (Given(named, ORGANIZATION, ORGANIZATION_ID) == Some(Null) ==> forall p :: p in matched ==> p !in db.rows))
  {
    assert (exists p :: p in matched && p in db.rows) <==> matched * db.rows.Keys != {} by {
      if p :| p in matched && p in db.rows { assert p in matched * db.rows.Keys; }
    }
  }

  /** An update that names an organization is let through exactly for those who opted in, and then moves
      every matched row; any other update moves none. */
  lemma UpdateMovesIff(db: Db, matched: set<Pk>, kwargs: map<string, Value>, unsafe: bool, allowed: bool)
    requires MalformedUpdate(Rewritten(RELATIONS, kwargs, true)).None?
    ensures
      var r := Update(db, matched, kwargs, unsafe, allowed);
      var names := Named(kwargs, ORGANIZATION, ORGANIZATION_ID);
      && r.db.rows.Keys == db.rows.Keys
      && (r.error == Some(OrganizationCannotBeUpdated) <==> names && !unsafe && !allowed)
      && (forall p :: p in db.rows ==>
            if p in matched && names && r.error.None? && ValueOf(kwargs, ORGANIZATION, ORGANIZATION_ID).Id?
            then r.db.rows[p].org == ValueOf(kwargs, ORGANIZATION, ORGANIZATION_ID).id
            else r.db.rows[p].org == db.rows[p].org)
      && (forall p :: p in db.rows && p !in matched ==> r.db.rows[p] == db.rows[p])
  {
    RewritingKeepsOrganizationNames(RELATIONS, kwargs, true);
  }

  // ---------------------------------------------------------------- update_or_create

  /** What assignments, made one after the other, leave a column with: the last that speaks of it. */
  function LastText(values: seq<Assignment>, before: int): int
    decreases |values|
  {
    if values == [] then before
    else match values[|values| - 1]
      case AssignText(text) => text
      case _ => LastText(values[..|values| - 1], before)
  }

  function LastKey(values: seq<Assignment>, before: Option<Pk>): Option<Pk>
    decreases |values|
  {
    if values == [] then before
    else match values[|values| - 1]
      case AssignKey(key) => key
      case AssignRelated(None) => None
      case AssignRelated(Some(target)) => target.pk
      case _ => LastKey(values[..|values| - 1], before)
  }

  /** Clearing the relation says nothing about the organization. */
  function LastOrganization(values: seq<Assignment>, before: Option<OrgId>): Option<OrgId>
    decreases |values|
  {
    if values == [] then before
    else match values[|values| - 1]
      case AssignOrganization(org) => org
      case AssignRelated(Some(target)) => target.org
      case _ => LastOrganization(values[..|values| - 1], before)
  }

  ghost predicate LeaveTheKey(values: seq<Assignment>) { forall k :: 0 <= k < |values| ==> !values[k].AssignPk? }

  lemma {:induction false} AssignedOneMore(i: Inst, values: seq<Assignment>)
    requires values != []
    ensures AssignedAll(i, values) == Assigned(AssignedAll(i, values[..|values| - 1]), values[|values| - 1])
    decreases |values|
  {
    if |values| == 1 {
      assert values[..0] == [] && values[1..] == [];
    } else {
      assert values[..|values| - 1][1..] == values[1..][..|values| - 2];
      AssignedOneMore(Assigned(i, values[0]), values[1..]);
    }
  }

  lemma {:induction false} LastAssignmentDecides(i: Inst, values: seq<Assignment>)
    requires LeaveTheKey(values)
    ensures AssignedAll(i, values) == Inst(i.pk, LastOrganization(values, i.org), LastKey(values, i.key),
                                           LastText(values, i.text), i.snapshot)
    decreases |values|
  {
    if values != [] {
      AssignedOneMore(i, values);
      LastAssignmentDecides(i, values[..|values| - 1]);
    }
  }

  /** A column that is not saved is one that no default speaks of. */
  lemma {:induction false} UnsavedIsUnassigned(values: seq<Assignment>, row: Row)
    requires LeaveTheKey(values) && DefaultFields(values).Some?
    ensures var names := DefaultFields(values);
            && AllConcrete(names.value) && (names == Some([]) ==> values == [])
            && (!Writes(names, ORGANIZATION, ORGANIZATION_ID) ==> forall o :: LastOrganization(values, o) == o)
            && (!Writes(names, KEY, KEY_ID) ==> forall k :: LastKey(values, k) == k)
            && (!Writes(names, TEXT, TEXT) ==> forall t :: LastText(values, t) == t)
    decreases |values|
  {
    if values != [] {
      var front, names := values[..|values| - 1], DefaultFields(values).value;
      assert names == seq(|values|, k requires 0 <= k < |values| => FieldOf(values[k]));
      var before := seq(|front|, k requires 0 <= k < |front| => FieldOf(front[k]));
      assert names == before + [FieldOf(values[|values| - 1])];
      assert AllConcrete(before) by {
        forall k | 0 <= k < |before| ensures before[k] in CONCRETE { assert before[k] == names[k]; }
      }
      assert DefaultFields(front) == Some(before);
      UnsavedIsUnassigned(front, row);
      assert names[|values| - 1] in names;
    }
  }

  /** A save of defaults is confined to the columns they assign, so that what others write meanwhile to
      the rest survives, exactly when none of them assigns a key or goes through the relation. */
  lemma OnlyAssignedColumnsAreSaved(values: seq<Assignment>)
    ensures
      var fields := DefaultFields(values);
      && (fields.Some? <==> forall k :: 0 <= k < |values| ==> !values[k].AssignPk? && !values[k].AssignRelated?)
      && (fields.Some? ==>
            && (Writes(fields, ORGANIZATION, ORGANIZATION_ID) <==> exists k :: 0 <= k < |values| && values[k].AssignOrganization?)
            && (Writes(fields, KEY, KEY_ID) <==> exists k :: 0 <= k < |values| && values[k].AssignKey?)
            && (Writes(fields, TEXT, TEXT) <==> exists k :: 0 <= k < |values| && values[k].AssignText?))
  {
    var names := seq(|values|, k requires 0 <= k < |values| => FieldOf(values[k]));
    assert RELATION !in CONCRETE && "id" !in CONCRETE;
    assert forall k :: 0 <= k < |values| ==> names[k] == FieldOf(values[k]);
    forall n ensures n in names <==> exists k :: 0 <= k < |values| && FieldOf(values[k]) == n {
      if k :| 0 <= k < |values| && FieldOf(values[k]) == n { assert names[k] == n; }
    }
  }

  /** Expanding names that are concrete already names the same columns. */
  lemma ConcreteNamesStay(names: seq<string>)
    requires AllConcrete(names)
    ensures forall n :: n in Expanded(RELATIONS, names) <==> n in names
    ensures Expanded(RELATIONS, names) == [] <==> names == []
  {
    assert RELATION !in CONCRETE && forall n :: n in names ==> n in CONCRETE;
    ExpandedFromMembers(RELATIONS, [], names);
    forall n ensures n in Expanded(RELATIONS, names) <==> n in names {
      if n in names { assert n in Expansion(RELATIONS, n); }
    }
    if names != [] { assert names[0] in Expanded(RELATIONS, names); }
  }

  /** The row that was found, and the instance handed out, have what the defaults assign, the last
      assignment of each column deciding, and the rest as it was; no other row is touched. */
  lemma UpdateOrCreateUpdates(db: Db, p: Pk, created: Inst, defaults: seq<Assignment>, env: Env, unsafe: bool)
    requires p in db.rows && LeaveTheKey(defaults)
    requires UpdateOrCreate(db, Some(p), created, defaults, env, unsafe).error.None?
    ensures
      var r, was := UpdateOrCreate(db, Some(p), created, defaults, env, unsafe), db.rows[p];
      && p in r.db.rows && OthersSame(db, r.db, p) && r.db.nextPk == db.nextPk
      && r.db.rows[p].text == LastText(defaults, was.text)
      && r.db.rows[p].key == LastKey(defaults, was.key)
      && Some(r.db.rows[p].org) == (match LastOrganization(defaults, Some(was.org))
                                    case Some(org) => Some(org)
                                    case None => if env.bound.Some? then env.bound else env.fallback)
      && r.inst == FromDb(p, r.db.rows[p])
  {
    var i := AssignedAll(FromDb(p, db.rows[p]), defaults);
    LastAssignmentDecides(FromDb(p, db.rows[p]), defaults);
    var names := DefaultFields(defaults);
    if names.Some? {
      UnsavedIsUnassigned(defaults, db.rows[p]);
      ConcreteNamesStay(names.value);
    }
    var inner, args := env.(allowed := unsafe || env.allowed), SaveArgs(names, false, false);
    if ExpandedFields(args) != Some([]) { SaveLands(db, i, inner, args); }
  }

  /** It is refused exactly when, without an opt-in, the defaults would take the row out of its
      organization, and goes through whenever there is an organization and it is not refused. */
  lemma UpdateOrCreateRefusedIff(db: Db, p: Pk, created: Inst, defaults: seq<Assignment>, env: Env, unsafe: bool)
    requires p in db.rows && LeaveTheKey(defaults)
    ensures
      var org := match LastOrganization(defaults, Some(db.rows[p].org))
                 case Some(org) => Some(org)
                 case None => if env.bound.Some? then env.bound else env.fallback;
      var error := UpdateOrCreate(db, Some(p), created, defaults, env, unsafe).error;
      && (error == Some(OrganizationCannotBeUpdated) <==> org.Some? && org.value != db.rows[p].org && !unsafe && !env.allowed)
      && (error == Some(OrganizationNotFound) <==> org.None?)
      && (error.None? || error == Some(OrganizationCannotBeUpdated) || error == Some(OrganizationNotFound))
  {
    LastAssignmentDecides(FromDb(p, db.rows[p]), defaults);
    var names := DefaultFields(defaults);
    if names.Some? {
      UnsavedIsUnassigned(defaults, db.rows[p]);
      ConcreteNamesStay(names.value);
    }
    var i, inner, args := AssignedAll(FromDb(p, db.rows[p]), defaults), env.(allowed := unsafe || env.allowed), SaveArgs(names, false, false);
    SaveRefusedIff(db, i, inner, args);
    if i.org.Some? || env.bound.Some? || env.fallback.Some? { SaveSucceedsIff(db, i, inner, args); }
  }

  /** When nothing is found, the created instance is inserted as it is, under its key or a new one; the
      opt-in and the defaults play no part. */
  lemma UpdateOrCreateInserts(db: Db, created: Inst, defaults: seq<Assignment>, env: Env, unsafe: bool)
    ensures
      var r := UpdateOrCreate(db, None, created, defaults, env, unsafe);
      var org := if created.org.Some? then created.org else if env.bound.Some? then env.bound else env.fallback;
      var p := if created.pk.Some? then created.pk.value else db.nextPk;
      && (r.error.None? <==> org.Some? && p !in db.rows)
      && (r.error.None? ==> r.db.rows == db.rows[p := Row(org.value, created.key, created.text)]
                            && r.inst == FromDb(p, r.db.rows[p]))
      && (r.error.Some? ==> r.db.rows == db.rows)
  {
  }

  // --------------------------------------------------------------------- bulk_update

  ghost predicate DistinctKeys(objs: seq<Inst>) {
    forall i, j :: 0 <= i < j < |objs| ==> objs[i].pk != objs[j].pk
  }

  /** Row by row, what the objects leave behind: each row the queryset matches carries the named columns
      of the object about it. */
  ghost predicate Landed(before: Db, after: Db, within: set<Pk>, objs: seq<Inst>, fields: seq<string>) {
    && after.rows.Keys == before.rows.Keys && after.nextPk == before.nextPk
    && forall p :: p in before.rows ==>
         if p in within && FirstFor(objs, p).Some?
         then Carries(after.rows[p], before.rows[p], FirstFor(objs, p).value, Some(fields))
         else after.rows[p] == before.rows[p]
  }

  lemma {:induction false} FirstForSplits(a: seq<Inst>, b: seq<Inst>, p: Pk)
    ensures FirstFor(a + b, p) == if FirstFor(a, p).Some? then FirstFor(a, p) else FirstFor(b, p)
  {
    if a == [] {
      assert a + b == b;
    } else {
      assert (a + b)[0] == a[0] && (a + b)[1..] == a[1..] + b;
      FirstForSplits(a[1..], b, p);
    }
  }

  lemma {:induction false} FirstForIsOne(objs: seq<Inst>, p: Pk)
    ensures FirstFor(objs, p).Some? ==> exists k :: 0 <= k < |objs| && objs[k] == FirstFor(objs, p).value && objs[k].pk == Some(p)
    ensures FirstFor(objs, p).None? ==> forall k :: 0 <= k < |objs| ==> objs[k].pk != Some(p)
  {
    if objs != [] {
      FirstForIsOne(objs[1..], p);
      if FirstFor(objs, p).Some? && objs[0].pk != Some(p) {
        var k :| 0 <= k < |objs[1..]| && objs[1..][k] == FirstFor(objs[1..], p).value && objs[1..][k].pk == Some(p);
        assert objs[k + 1] == objs[1..][k];
      } else if FirstFor(objs, p).Some? {
        assert objs[0] == FirstFor(objs, p).value;
      } else {
        assert forall k :: 0 < k < |objs| ==> objs[k] == objs[1..][k - 1];
      }
    }
  }

  /** With keys that are not repeated, batches never write the same row twice. */
  lemma {:induction false} BatchesLand(db: Db, within: set<Pk>, batches: seq<seq<Inst>>, fields: seq<string>,
        allowed: bool)
    requires DistinctKeys(Flat(batches)) && NestedUpdates(db, within, batches, fields, allowed).error.None?
    requires forall k :: 0 <= k < |Flat(batches)| ==> Flat(batches)[k].pk.Some?
    ensures Landed(db, NestedUpdates(db, within, batches, fields, allowed).db, within, Flat(batches), fields)
    decreases |batches|
  {
    if batches != [] {
      var first, rest := NestedUpdate(db, within, batches[0], fields, allowed), Flat(batches[1..]);
      var whole := batches[0] + rest;
      assert forall k :: 0 <= k < |rest| ==> rest[k] == whole[|batches[0]| + k];
      BatchesLand(first.db, within, batches[1..], fields, allowed);
      forall p | p in db.rows && FirstFor(batches[0], p).Some?
        ensures FirstFor(rest, p).None?
      {
        FirstForIsOne(batches[0], p);
        FirstForIsOne(rest, p);
        NoKeyTwice(batches[0], rest, p);
      }
      forall p ensures FirstFor(whole, p) == if FirstFor(batches[0], p).Some? then FirstFor(batches[0], p) else FirstFor(rest, p) {
        FirstForSplits(batches[0], rest, p);
      }
    }
  }

  lemma NoKeyTwice(a: seq<Inst>, b: seq<Inst>, p: Pk)
    requires DistinctKeys(a + b)
    requires exists k :: 0 <= k < |a| && a[k].pk == Some(p)
    ensures forall k :: 0 <= k < |b| ==> b[k].pk != Some(p)
  {
    var k :| 0 <= k < |a| && a[k].pk == Some(p);
    forall l | 0 <= l < |b| ensures b[l].pk != Some(p) {
      assert (a + b)[k] == a[k] && (a + b)[|a| + l] == b[l];
    }
  }

  lemma {:induction false} OpenedBatchesAreNotRefused(db: Db, within: set<Pk>, batches: seq<seq<Inst>>,
        fields: seq<string>, allowed: bool)
    requires allowed || !NamesOrganization(fields)
    ensures NestedUpdates(db, within, batches, fields, allowed).error != Some(OrganizationCannotBeUpdated)
    decreases |batches|
  {
    if batches != [] {
      OpenedBatchesAreNotRefused(NestedUpdate(db, within, batches[0], fields, allowed).db, within, batches[1..], fields, allowed);
    }
  }

  /** A nested update that names the organization is refused like any other: that is why the opt-in has to
      be open around it. */
  lemma NestedUpdateRefusedIff(db: Db, within: set<Pk>, batch: seq<Inst>, fields: seq<string>, allowed: bool)
    ensures NestedUpdate(db, within, batch, fields, allowed).error == Some(OrganizationCannotBeUpdated) <==>
              Writes(Some(fields), ORGANIZATION, ORGANIZATION_ID) && !allowed
  {
  }

  /** A `bulk_update` is refused exactly when it writes the organization, nobody opted in, and some
      object disagrees with its row; the nested updates never refuse what the check let through. */
  lemma BulkUpdateRefusedIff(db: Db, within: set<Pk>, batches: seq<seq<Inst>>, names: seq<string>, unsafe: bool,
        allowed: bool)
    ensures BulkUpdate(db, within, batches, names, unsafe, allowed).error == Some(OrganizationCannotBeUpdated) <==>
              NamesOrganization(Expanded(RELATIONS, names)) && !unsafe && !allowed && SomeRelocates(db, Flat(batches))
  {
    var fields := Expanded(RELATIONS, names);
    if NamesOrganization(fields) && !unsafe && !allowed {
      OpenedBatchesAreNotRefused(db, within, batches, fields, true);
    } else {
      OpenedBatchesAreNotRefused(db, within, batches, fields, unsafe || allowed);
    }
  }

  /** An object without an organization is about a row it would write. */
  ghost predicate SomeUnowned(db: Db, within: set<Pk>, batches: seq<seq<Inst>>) {
    exists k, p :: 0 <= k < |batches| && UnownedAt(db, within, batches[k], p)
  }

  ghost predicate UnownedAt(db: Db, within: set<Pk>, batch: seq<Inst>, p: Pk) {
    p in db.rows && p in within && FirstFor(batch, p).Some? && FirstFor(batch, p).value.org.None?
  }

  lemma {:induction false} BatchesSucceedIff(db: Db, within: set<Pk>, batches: seq<seq<Inst>>, fields: seq<string>,
        allowed: bool)
    requires allowed || !NamesOrganization(fields)
    ensures var error := NestedUpdates(db, within, batches, fields, allowed).error;
            && (error.None? <==> !(NamesOrganization(fields) && SomeUnowned(db, within, batches)))
            && (error.Some? ==> error == Some(IntegrityError))
    decreases |batches|
  {
    if batches != [] {
      var first := NestedUpdate(db, within, batches[0], fields, allowed);
      BatchesSucceedIff(first.db, within, batches[1..], fields, allowed);
      assert first.error.None? <==> !(NamesOrganization(fields) && exists p :: UnownedAt(db, within, batches[0], p)) by {
        if first.error.Some? {
          var p :| p in db.rows && p in within && FirstFor(batches[0], p).Some? && FirstFor(batches[0], p).value.org.None?;
          assert UnownedAt(db, within, batches[0], p);
        }
      }
      assert first.error.None? ==> first.db.rows.Keys == db.rows.Keys;
      forall k, p ensures 0 < k < |batches| && UnownedAt(db, within, batches[k], p) <==>
                          1 <= k < |batches| && UnownedAt(db, within, batches[1..][k - 1], p) {
      }
      if first.error.None? {
        if SomeUnowned(db, within, batches) && NamesOrganization(fields) {
          var k, p :| 0 <= k < |batches| && UnownedAt(db, within, batches[k], p);
          assert k > 0 && UnownedAt(first.db, within, batches[1..][k - 1], p);
        }
        if SomeUnowned(first.db, within, batches[1..]) {
          var k, p :| 0 <= k < |batches[1..]| && UnownedAt(first.db, within, batches[1..][k], p);
          assert UnownedAt(db, within, batches[k + 1], p);
        }
      } else {
        var p :| UnownedAt(db, within, batches[0], p);
        assert SomeUnowned(db, within, batches);
      }
    }
  }

  /** What is not refused goes through, but for what the framework and the database object to: nothing to
      write or no such column, an object without a key, a row left without an organization. */
  lemma BulkUpdateSucceedsIff(db: Db, within: set<Pk>, batches: seq<seq<Inst>>, names: seq<string>, unsafe: bool,
        allowed: bool)
    ensures
      var error, fields := BulkUpdate(db, within, batches, names, unsafe, allowed).error, Expanded(RELATIONS, names);
      var malformed := fields == [] || (exists n :: n in fields && n !in CONCRETE) || exists i :: i in Flat(batches) && i.pk.None?;
      error == Some(OrganizationCannotBeUpdated) ||
      error == (if malformed then Some(ValueError)
                else if Writes(Some(fields), ORGANIZATION, ORGANIZATION_ID) && SomeUnowned(db, within, batches) then Some(IntegrityError)
                else None)
  {
    var fields := Expanded(RELATIONS, names);
    if NamesOrganization(fields) && !unsafe && !allowed {
      BatchesSucceedIff(db, within, batches, fields, true);
    } else {
      BatchesSucceedIff(db, within, batches, fields, unsafe || allowed);
    }
    assert (exists i :: i in Flat(batches) && i.pk.None?) <==> exists k :: 0 <= k < |Flat(batches)| && Flat(batches)[k].pk.None?;
  }

  /** A `bulk_update` that raises nothing has written every object, whichever batch it was in. */
  lemma BulkUpdateLands(db: Db, within: set<Pk>, batches: seq<seq<Inst>>, names: seq<string>, unsafe: bool,
        allowed: bool)
    requires DistinctKeys(Flat(batches)) && BulkUpdate(db, within, batches, names, unsafe, allowed).error.None?
    ensures Landed(db, BulkUpdate(db, within, batches, names, unsafe, allowed).db, within, Flat(batches), Expanded(RELATIONS, names))
  {
    var fields := Expanded(RELATIONS, names);
    if NamesOrganization(fields) && !unsafe && !allowed {
      BatchesLand(db, within, batches, fields, true);
    } else {
      BatchesLand(db, within, batches, fields, unsafe || allowed);
    }
  }

  // --------------------------------------------------------------------- bulk_create

  ghost predicate IsRowOf(db: Db, i: Inst) {
    i.pk.Some? && i.org.Some? && i.pk.value in db.rows && db.rows[i.pk.value] == Row(i.org.value, i.key, i.text)
  }

  ghost predicate Kept(before: Db, after: Db) {
    forall p :: p in before.rows ==> p in after.rows && after.rows[p] == before.rows[p]
  }

  /** Object `k` of a pass: written under a key that was free, or left for the other pass. */
  ghost predicate PassedAt(db: Db, objs: seq<Inst>, r: Created, keyed: bool, k: nat)
    requires k < |objs| == |r.objs|
  {
    if objs[k].pk.Some? == keyed
    then IsRowOf(r.db, r.objs[k]) && r.objs[k].pk.value !in db.rows && r.objs[k] == objs[k].(pk := r.objs[k].pk)
         && (keyed ==> r.objs[k] == objs[k])
    else r.objs[k] == objs[k]
  }

  ghost predicate IsPass(db: Db, objs: seq<Inst>, r: Created, keyed: bool) {
    && |r.objs| == |objs| && Kept(db, r.db)
    && forall k :: 0 <= k < |objs| ==> PassedAt(db, objs, r, keyed, k)
  }

  lemma {:induction false} PassLands(db: Db, objs: seq<Inst>, args: CreateArgs, keyed: bool)
    requires !args.ignoreConflicts && !args.updateConflicts && CreatedPass(db, objs, args, keyed).error.None?
    ensures IsPass(db, objs, CreatedPass(db, objs, args, keyed), keyed)
    decreases |objs|
  {
    if objs != [] {
      var first := FirstOfPass(db, objs, args, keyed);
      var rest, r := CreatedPass(first.db, objs[1..], args, keyed), CreatedPass(db, objs, args, keyed);
      PassLands(first.db, objs[1..], args, keyed);
      assert r.objs == [first.inst] + rest.objs;
      forall k | 0 <= k < |objs| ensures PassedAt(db, objs, r, keyed, k) {
        if k > 0 {
          assert PassedAt(first.db, objs[1..], rest, keyed, k - 1);
          assert r.objs[k] == rest.objs[k - 1] && objs[k] == objs[1..][k - 1];
        }
      }
    }
  }

  function FirstOfPass(db: Db, objs: seq<Inst>, args: CreateArgs, keyed: bool): Saved
    requires objs != []
  {
    if objs[0].pk.Some? == keyed then CreatedOne(db, objs[0], args) else Saved(db, objs[0], None)
  }

  lemma {:induction false} PassKeysDiffer(db: Db, objs: seq<Inst>, args: CreateArgs, keyed: bool)
    requires !args.ignoreConflicts && !args.updateConflicts && CreatedPass(db, objs, args, keyed).error.None?
    ensures
      var r := CreatedPass(db, objs, args, keyed);
      |r.objs| == |objs| &&
      forall i, j :: 0 <= i < j < |objs| && objs[i].pk.Some? == keyed && objs[j].pk.Some? == keyed ==> r.objs[i].pk != r.objs[j].pk
    decreases |objs|
  {
    if objs != [] {
      var first := FirstOfPass(db, objs, args, keyed);
      var rest, r := CreatedPass(first.db, objs[1..], args, keyed), CreatedPass(db, objs, args, keyed);
      PassKeysDiffer(first.db, objs[1..], args, keyed);
      PassLands(first.db, objs[1..], args, keyed);
      assert r.objs == [first.inst] + rest.objs;
      forall i, j | 0 <= i < j < |objs| && objs[i].pk.Some? == keyed && objs[j].pk.Some? == keyed
        ensures r.objs[i].pk != r.objs[j].pk
      {
        assert PassedAt(first.db, objs[1..], rest, keyed, j - 1);
        assert r.objs[j] == rest.objs[j - 1] && objs[j] == objs[1..][j - 1];
        if i > 0 { assert r.objs[i] == rest.objs[i - 1] && objs[i] == objs[1..][i - 1]; }
      }
    }
  }

  lemma {:induction false} PassAddsNothingElse(db: Db, objs: seq<Inst>, args: CreateArgs, keyed: bool, p: Pk)
    requires !args.ignoreConflicts && !args.updateConflicts && CreatedPass(db, objs, args, keyed).error.None?
    requires p !in db.rows && p in CreatedPass(db, objs, args, keyed).db.rows
    ensures
      var r := CreatedPass(db, objs, args, keyed);
      |r.objs| == |objs| && exists k :: 0 <= k < |objs| && objs[k].pk.Some? == keyed && r.objs[k].pk == Some(p)
    decreases |objs|
  {
    PassLands(db, objs, args, keyed);
    if objs != [] {
      var first := FirstOfPass(db, objs, args, keyed);
      var rest, r := CreatedPass(first.db, objs[1..], args, keyed), CreatedPass(db, objs, args, keyed);
      assert r.objs == [first.inst] + rest.objs;
      if p in first.db.rows {
        assert r.objs[0].pk == Some(p);
      } else {
        PassAddsNothingElse(first.db, objs[1..], args, keyed, p);
        var k :| 0 <= k < |objs[1..]| && objs[1..][k].pk.Some? == keyed && rest.objs[k].pk == Some(p);
        assert r.objs[k + 1] == rest.objs[k] && objs[k + 1] == objs[1..][k];
      }
    }
  }

  lemma KeyedPassHandsBack(db: Db, objs: seq<Inst>, first: Created)
    requires IsPass(db, objs, first, true)
    ensures first.objs == objs
  {
    forall k | 0 <= k < |objs| ensures first.objs[k] == objs[k] {
      assert PassedAt(db, objs, first, true, k);
    }
  }

  /** Object `k` of a `bulk_create`: stored as it was given, under a key that was free. */
  ghost predicate CreatedAt(db: Db, objs: seq<Inst>, r: Created, k: nat)
    requires k < |objs| == |r.objs|
  {
    && IsRowOf(r.db, r.objs[k]) && r.objs[k].pk.value !in db.rows
    && r.objs[k] == objs[k].(pk := r.objs[k].pk) && (objs[k].pk.Some? ==> r.objs[k].pk == objs[k].pk)
  }

  lemma BothPassesLand(db: Db, objs: seq<Inst>, first: Created, r: Created)
    requires IsPass(db, objs, first, true) && IsPass(first.db, objs, r, false)
    ensures Kept(db, r.db) && forall k :: 0 <= k < |objs| ==> CreatedAt(db, objs, r, k)
  {
    forall k | 0 <= k < |objs| ensures CreatedAt(db, objs, r, k) {
      assert PassedAt(db, objs, first, true, k) && PassedAt(first.db, objs, r, false, k);
    }
  }

  lemma BothPassesDiffer(db: Db, objs: seq<Inst>, first: Created, r: Created)
    requires IsPass(db, objs, first, true) && IsPass(first.db, objs, r, false)
    requires forall i, j :: 0 <= i < j < |objs| && objs[i].pk.Some? && objs[j].pk.Some? ==> objs[i].pk != objs[j].pk
    requires forall i, j :: 0 <= i < j < |objs| && objs[i].pk.None? && objs[j].pk.None? ==> r.objs[i].pk != r.objs[j].pk
    ensures DistinctKeys(r.objs)
  {
    forall i, j | 0 <= i < j < |objs| ensures r.objs[i].pk != r.objs[j].pk {
      assert PassedAt(db, objs, first, true, i) && PassedAt(first.db, objs, r, false, i);
      assert PassedAt(db, objs, first, true, j) && PassedAt(first.db, objs, r, false, j);
    }
  }

  /** A plain `bulk_create` that raises nothing has inserted every object as it was given, each under a
      key of its own that was free before, touched no row that was there, and added nothing else. */
  lemma BulkCreateLands(db: Db, objs: seq<Inst>, args: CreateArgs, allowed: bool)
    requires !args.ignoreConflicts && !args.updateConflicts && BulkCreate(db, objs, args, allowed).error.None?
    ensures
      var r := BulkCreate(db, objs, args, allowed);
      && |r.objs| == |objs| && Kept(db, r.db)
      && (forall k :: 0 <= k < |objs| ==> CreatedAt(db, objs, r, k))
      && DistinctKeys(r.objs)
      && (forall p :: p in r.db.rows && p !in db.rows ==> exists k :: 0 <= k < |objs| && r.objs[k].pk == Some(p))
  {
    var first, r := CreatedPass(db, objs, args, true), BulkCreate(db, objs, args, allowed);
    PassLands(db, objs, args, true);
    KeyedPassHandsBack(db, objs, first);
    PassLands(first.db, objs, args, false);
    assert r == CreatedPass(first.db, objs, args, false);
    PassKeysDiffer(db, objs, args, true);
    PassKeysDiffer(first.db, objs, args, false);
    BothPassesLand(db, objs, first, r);
    BothPassesDiffer(db, objs, first, r);
    forall p | p in r.db.rows && p !in db.rows
      ensures exists k :: 0 <= k < |objs| && r.objs[k].pk == Some(p)
    {
      if p in first.db.rows {
        PassAddsNothingElse(db, objs, args, true, p);
        var k :| 0 <= k < |objs| && objs[k].pk.Some? && objs[k].pk == Some(p);
        assert CreatedAt(db, objs, r, k);
      } else {
        PassAddsNothingElse(first.db, objs, args, false, p);
      }
    }
  }

  ghost predicate DistinctGiven(objs: seq<Inst>) {
    forall i, j :: 0 <= i < j < |objs| && objs[i].pk.Some? ==> objs[i].pk != objs[j].pk
  }

  /** A row that was there, met by the object with its key: overwritten in the conflict columns, or left. */
  ghost predicate ConflictSettled(before: Db, after: Db, objs: seq<Inst>, args: CreateArgs, p: Pk)
    requires p in before.rows
  {
    p in after.rows &&
    match FirstFor(objs, p)
    case Some(i) =>
      if args.updateConflicts && !args.ignoreConflicts
      then Carries(after.rows[p], before.rows[p], i, Some(ConflictFields(args))) else after.rows[p] == before.rows[p]
    case None => after.rows[p] == before.rows[p]
  }

  ghost predicate ConflictsSettled(before: Db, after: Db, objs: seq<Inst>, args: CreateArgs) {
    && (forall p :: p in before.rows ==> ConflictSettled(before, after, objs, args, p))
    && forall k :: 0 <= k < |objs| && objs[k].pk.Some? && objs[k].pk.value !in before.rows ==> IsRowOf(after, objs[k])
  }

  lemma {:induction false} KeyedPassSettles(db: Db, objs: seq<Inst>, args: CreateArgs)
    requires DistinctGiven(objs) && CreatedPass(db, objs, args, true).error.None?
    ensures ConflictsSettled(db, CreatedPass(db, objs, args, true).db, objs, args)
    decreases |objs|
  {
    if objs != [] {
      var first, rest := FirstOfPass(db, objs, args, true), objs[1..];
      assert DistinctGiven(rest) by {
        forall i, j | 0 <= i < j < |rest| && rest[i].pk.Some? ensures rest[i].pk != rest[j].pk {
          assert objs[i + 1] == rest[i] && objs[j + 1] == rest[j];
        }
      }
      KeyedPassSettles(first.db, rest, args);
      var after := CreatedPass(db, objs, args, true).db;
      assert after == CreatedPass(first.db, rest, args, true).db;
      if objs[0].pk.Some? { FirstIsMetOnce(objs); }
      forall p | p in db.rows ensures ConflictSettled(db, after, objs, args, p) {
        assert ConflictSettled(first.db, after, rest, args, p);
      }
      forall k | 0 <= k < |objs| && objs[k].pk.Some? && objs[k].pk.value !in db.rows ensures IsRowOf(after, objs[k]) {
        if k == 0 {
          assert ConflictSettled(first.db, after, rest, args, objs[0].pk.value);
        } else {
          assert rest[k - 1] == objs[k] && objs[k].pk.value !in first.db.rows;
        }
      }
    }
  }

  lemma FirstIsMetOnce(objs: seq<Inst>)
    requires objs != [] && objs[0].pk.Some? && DistinctGiven(objs)
    ensures FirstFor(objs[1..], objs[0].pk.value).None?
  {
    FirstForIsOne(objs[1..], objs[0].pk.value);
    forall k | 0 <= k < |objs[1..]| ensures objs[1..][k].pk != objs[0].pk {
      assert objs[1..][k] == objs[k + 1];
    }
  }

  /** A `bulk_create` that ignores or updates conflicts, and raises nothing: objects whose keys were free
      are inserted, a row that was met is left or overwritten in the conflict columns, and no other row
      that was there changes. */
  lemma BulkCreateSettlesConflicts(db: Db, objs: seq<Inst>, args: CreateArgs, allowed: bool)
    requires DistinctGiven(objs) && (args.ignoreConflicts || args.updateConflicts)
    requires BulkCreate(db, objs, args, allowed).error.None?
    ensures ConflictsSettled(db, BulkCreate(db, objs, args, allowed).db, objs, args)
  {
    var keyed := CreatedPass(db, objs, args, true);
    KeyedPassSettles(db, objs, args);
    OR.KeyedPassKeepsRows(db, objs, args);
    OR.UnkeyedPassOnlyAdds(keyed.db, objs, args);
    assert BulkCreate(db, objs, args, allowed) == CreatedPass(keyed.db, objs, args, false);
    forall p | p in db.rows ensures ConflictSettled(db, BulkCreate(db, objs, args, allowed).db, objs, args, p) {
      assert ConflictSettled(db, keyed.db, objs, args, p);
    }
  }

  /** A `bulk_create` is refused exactly when it would update conflicts, in the organization's column,
      without an opt-in. */
  lemma BulkCreateRefusedIff(db: Db, objs: seq<Inst>, args: CreateArgs, allowed: bool)
    ensures BulkCreate(db, objs, args, allowed).error == Some(OrganizationCannotBeUpdated) <==>
              args.updateConflicts && args.fields.Some? && Writes(args.fields, ORGANIZATION, ORGANIZATION_ID) && !args.unsafe && !allowed
  {
    PassRefusesNothing(db, objs, args, true);
    PassRefusesNothing(CreatedPass(db, objs, args, true).db, CreatedPass(db, objs, args, true).objs, args, false);
  }

  lemma {:induction false} PassRefusesNothing(db: Db, objs: seq<Inst>, args: CreateArgs, keyed: bool)
    ensures CreatedPass(db, objs, args, keyed).error != Some(OrganizationCannotBeUpdated)
    decreases |objs|
  {
    if objs != [] {
      PassRefusesNothing(FirstOfPass(db, objs, args, keyed).db, objs[1..], args, keyed);
    }
  }

  /** Keys in use and keys that objects bring are below the supply, as those of a sequence are. */
  ghost predicate KeysAreBelow(db: Db, objs: seq<Inst>) {
    && (forall p :: p in db.rows ==> p < db.nextPk)
    && forall k :: 0 <= k < |objs| && objs[k].pk.Some? ==> objs[k].pk.value < db.nextPk
  }

  ghost predicate KeysAreFree(db: Db, objs: seq<Inst>) {
    && (forall k :: 0 <= k < |objs| && objs[k].pk.Some? ==> objs[k].pk.value !in db.rows)
    && DistinctGiven(objs)
  }

  ghost predicate AllOwned(objs: seq<Inst>, keyed: bool) {
    forall k :: 0 <= k < |objs| && objs[k].pk.Some? == keyed ==> objs[k].org.Some?
  }

  lemma {:induction false} PassSucceedsIff(db: Db, objs: seq<Inst>, args: CreateArgs, keyed: bool)
    requires KeysAreBelow(db, objs)
    ensures var r := CreatedPass(db, objs, args, keyed);
            && (r.error.None? <==>
                  AllOwned(objs, keyed) && (keyed && !args.ignoreConflicts && !args.updateConflicts ==> KeysAreFree(db, objs)))
            && (r.error.Some? ==> r.error == Some(IntegrityError))
            && db.nextPk <= r.db.nextPk
            && (r.error.None? ==> KeysAreBelow(r.db, objs) && (keyed ==> r.objs == objs && r.db.nextPk == db.nextPk))
    decreases |objs|
  {
    if objs != [] {
      var first, rest := FirstOfPass(db, objs, args, keyed), objs[1..];
      assert forall k :: 0 <= k < |rest| ==> rest[k] == objs[k + 1];
      assert AllOwned(objs, keyed) <==> (objs[0].pk.Some? == keyed ==> objs[0].org.Some?) && AllOwned(rest, keyed) by {
        if AllOwned(rest, keyed) && (objs[0].pk.Some? == keyed ==> objs[0].org.Some?) {
          forall k | 0 <= k < |objs| && objs[k].pk.Some? == keyed ensures objs[k].org.Some? {
            if k > 0 { assert rest[k - 1] == objs[k]; }
          }
        }
      }
      if first.error.None? {
        assert KeysAreBelow(first.db, rest);
        PassSucceedsIff(first.db, rest, args, keyed);
        if keyed && !args.ignoreConflicts && !args.updateConflicts { FirstOfFree(db, first.db, objs); }
        var r := CreatedPass(db, objs, args, keyed);
        if r.error.None? {
          forall k | 0 <= k < |objs| && objs[k].pk.Some? ensures objs[k].pk.value < r.db.nextPk {
          }
        }
      }
    }
  }

  lemma FirstOfFree(db: Db, after: Db, objs: seq<Inst>)
    requires objs != []
    requires if objs[0].pk.Some? then objs[0].pk.value !in db.rows && after.rows.Keys == db.rows.Keys + {objs[0].pk.value}
             else after.rows == db.rows
    ensures KeysAreFree(db, objs) <==> KeysAreFree(after, objs[1..])
  {
    var rest := objs[1..];
    assert forall k :: 0 <= k < |rest| ==> rest[k] == objs[k + 1];
    if KeysAreFree(after, rest) {
      forall i, j | 0 <= i < j < |objs| && objs[i].pk.Some? ensures objs[i].pk != objs[j].pk {
        assert rest[j - 1] == objs[j];
        if i > 0 { assert rest[i - 1] == objs[i]; }
      }
      forall k | 0 <= k < |objs| && objs[k].pk.Some? ensures objs[k].pk.value !in db.rows {
        if k > 0 { assert rest[k - 1] == objs[k]; }
      }
    }
    if KeysAreFree(db, objs) {
      forall i, j | 0 <= i < j < |rest| && rest[i].pk.Some? ensures rest[i].pk != rest[j].pk {
        assert objs[i + 1] == rest[i] && objs[j + 1] == rest[j];
      }
    }
  }

  /** What is not refused goes through, but for contradictory arguments, objects without an organization,
      and, unless conflicts are provided for, keys that are taken or brought twice. */
  lemma BulkCreateSucceedsIff(db: Db, objs: seq<Inst>, args: CreateArgs, allowed: bool)
    requires KeysAreBelow(db, objs)
    ensures
      var error, fields := BulkCreate(db, objs, args, allowed).error, if args.fields.Some? then args.fields.value else [];
      var malformed := args.updateConflicts && (args.ignoreConflicts || fields == [] || exists n :: n in fields && n !in CONCRETE);
      error == Some(OrganizationCannotBeUpdated) ||
      error == (if malformed then Some(ValueError)
                else if (exists i :: i in objs && i.org.None?)
                        || (!args.ignoreConflicts && !args.updateConflicts && !KeysAreFree(db, objs)) then Some(IntegrityError)
                else None)
  {
    var keyed := CreatedPass(db, objs, args, true);
    PassSucceedsIff(db, objs, args, true);
    if keyed.error.None? { PassSucceedsIff(keyed.db, objs, args, false); }
    AllOwnedIff(objs);
  }

  lemma AllOwnedIff(objs: seq<Inst>)
    ensures AllOwned(objs, true) && AllOwned(objs, false) <==> !exists i :: i in objs && i.org.None?
  {
    if AllOwned(objs, true) && AllOwned(objs, false) {
      forall i | i in objs ensures i.org.Some? {
        var k :| 0 <= k < |objs| && objs[k] == i;
        assert objs[k].pk.Some? == true || objs[k].pk.Some? == false;
      }
    }
  }

  /** Whatever it was, a write that raises has changed no row. */
  lemma FailuresChangeNothing(db: Db, i: Inst, env: Env, save: SaveArgs, within: set<Pk>, batches: seq<seq<Inst>>,
        names: seq<string>, objs: seq<Inst>, create: CreateArgs, unsafe: bool, allowed: bool)
    ensures Save(db, i, env, save).error.Some? ==> Save(db, i, env, save).db.rows == db.rows
    ensures BulkUpdate(db, within, batches, names, unsafe, allowed).error.Some? ==>
              BulkUpdate(db, within, batches, names, unsafe, allowed).db == db
    ensures BulkCreate(db, objs, create, allowed).error.Some? ==>
              BulkCreate(db, objs, create, allowed).db == db && BulkCreate(db, objs, create, allowed).objs == objs
  {
  }
}
