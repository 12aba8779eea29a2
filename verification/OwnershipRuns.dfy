/** Whole runs of loads, refreshes, assignments and writes by any number of live instances: which
    organizations a row can ever have belonged to, and which saves can be refused. */
module OwnershipRuns {
  import opened Outcomes
  import opened SafeFields
  import opened Ownership

  type InstId = nat

  datatype State = State(db: Db, live: map<InstId, Inst>)

  datatype Event =
    | Load(id: InstId, row: Pk)
    | Construct(id: InstId, pk: Option<Pk>, org: Option<OrgId>, key: Option<Pk>, text: int)
    | RefreshInst(id: InstId, fields: Option<seq<string>>)
    | Assign(id: InstId, value: Assignment)
    | SaveInst(id: InstId, args: SaveArgs)
    | DeleteInst(id: InstId)
    | UpdateRows(matched: set<Pk>, kwargs: map<string, Value>, unsafe: bool)
    | BulkUpdateRows(within: set<Pk>, batches: seq<seq<InstId>>, names: seq<string>, unsafe: bool)
    | BulkCreateRows(ids: seq<InstId>, create: CreateArgs)
    | UpdateOrCreateRow(id: InstId, found: Option<Pk>, values: Inst, defaults: seq<Assignment>, unsafe: bool)
    | DeleteRows(pks: set<Pk>)

  /** An event and the surroundings it happens in. */
  datatype Call = Call(env: Env, event: Event)

  /** Somebody opted into relocation, on the call itself or around it. */
  predicate OptIn(c: Call) {
    || c.env.allowed
    || (c.event.SaveInst? && c.event.args.unsafe)
    || (c.event.UpdateRows? && c.event.unsafe)
    || (c.event.BulkUpdateRows? && c.event.unsafe)
    || (c.event.BulkCreateRows? && c.event.create.unsafe)
    || (c.event.UpdateOrCreateRow? && c.event.unsafe)
  }

  /** Nobody opts in who neither said so on the call nor was asked to around it. */
  lemma OptInIff(c: Call)
    ensures OptIn(c) <==>
              c.env.allowed ||
              match c.event
              case SaveInst(_, args) => args.unsafe
              case UpdateRows(_, _, unsafe) => unsafe
              case BulkUpdateRows(_, _, _, unsafe) => unsafe
              case BulkCreateRows(_, create) => create.unsafe
              case UpdateOrCreateRow(_, _, _, _, unsafe) => unsafe
              case _ => false
  {
  }

  function Alive(live: map<InstId, Inst>, ids: seq<InstId>): seq<InstId> {
    if ids == [] then [] else (if ids[0] in live then [ids[0]] else []) + Alive(live, ids[1..])
  }

  function Objects(live: map<InstId, Inst>, ids: seq<InstId>): seq<Inst> {
    if ids == [] then [] else (if ids[0] in live then [live[ids[0]]] else []) + Objects(live, ids[1..])
  }

  function Replaced(live: map<InstId, Inst>, ids: seq<InstId>, objs: seq<Inst>): map<InstId, Inst>
    decreases |ids|
  {
    if ids == [] || objs == [] then live else Replaced(live[ids[0] := objs[0]], ids[1..], objs[1..])
  }

  function ObjectBatches(live: map<InstId, Inst>, batches: seq<seq<InstId>>): seq<seq<Inst>>
    decreases |batches|
  {
    if batches == [] then [] else [Objects(live, batches[0])] + ObjectBatches(live, batches[1..])
  }

  function SavedState(s: State, id: InstId, r: Saved): State { State(r.db, s.live[id := r.inst]) }

  function Step(s: State, c: Call): State {
    match c.event
    case Load(id, p) =>
      if p in s.db.rows then s.(live := s.live[id := FromDb(p, s.db.rows[p])]) else s
    case Construct(id, pk, org, key, text) => s.(live := s.live[id := Inst(pk, org, key, text, Unknown)])
    case RefreshInst(id, fields) =>
      if id in s.live then s.(live := s.live[id := Refresh(s.db, s.live[id], fields).inst]) else s
    case Assign(id, value) =>
      if id in s.live then s.(live := s.live[id := Assigned(s.live[id], value)]) else s
    case SaveInst(id, args) =>
      if id in s.live then SavedState(s, id, Save(s.db, s.live[id], c.env, args)) else s
    case DeleteInst(id) =>
      if id in s.live && s.live[id].pk.Some?
      then State(s.db.(rows := s.db.rows - {s.live[id].pk.value}), s.live[id := s.live[id].(pk := None)]) else s
    case UpdateRows(matched, kwargs, unsafe) => s.(db := Update(s.db, matched, kwargs, unsafe, c.env.allowed).db)
    case BulkUpdateRows(within, batches, names, unsafe) =>
      s.(db := BulkUpdate(s.db, within, ObjectBatches(s.live, batches), names, unsafe, c.env.allowed).db)
    case BulkCreateRows(ids, create) =>
      var known := Alive(s.live, ids);
      var r := BulkCreate(s.db, Objects(s.live, known), create, c.env.allowed);
      State(r.db, Replaced(s.live, known, r.objs))
    case UpdateOrCreateRow(id, found, values, defaults, unsafe) =>
      if found.Some? && found.value !in s.db.rows then s
      else
        var r := UpdateOrCreate(s.db, found, values.(snapshot := Unknown), defaults, c.env, unsafe);
        if r.error.Some? then s.(db := r.db) else SavedState(s, id, r)
    case DeleteRows(pks) => s.(db := s.db.(rows := s.db.rows - pks))
  }

  /** One instance is another than before, or new; the rest of memory is as it was. */
  ghost predicate Remembers(before: State, after: State, id: InstId, i: Inst) {
    && after.live.Keys == before.live.Keys + {id} && after.live[id] == i
    && forall j :: j in before.live && j != id ==> after.live[j] == before.live[j]
  }

  ghost predicate Without(before: Db, after: Db, pks: set<Pk>) {
    && after.nextPk == before.nextPk && after.rows.Keys == before.rows.Keys - pks
    && forall p :: p in after.rows ==> after.rows[p] == before.rows[p]
  }

  /** What each event does: to memory what loading, refreshing, assigning and saving make of one instance,
      to the table what the write makes of it, and nothing where there is nothing to do it to. */
  lemma EventsDo(s: State, c: Call)
    ensures
      var after := Step(s, c);
      match c.event
      case Load(id, p) =>
        after.db == s.db && if p in s.db.rows then Remembers(s, after, id, FromDb(p, s.db.rows[p])) else after == s
      case Construct(id, pk, org, key, text) => after.db == s.db && Remembers(s, after, id, Inst(pk, org, key, text, Unknown))
      case RefreshInst(id, fields) =>
        if id in s.live then after.db == s.db && Remembers(s, after, id, Refresh(s.db, s.live[id], fields).inst) else after == s
      case Assign(id, value) =>
        if id in s.live then after.db == s.db && Remembers(s, after, id, Assigned(s.live[id], value)) else after == s
      case SaveInst(id, args) =>
        if id in s.live then
          after.db == Save(s.db, s.live[id], c.env, args).db && Remembers(s, after, id, Save(s.db, s.live[id], c.env, args).inst)
        else after == s
      case DeleteInst(id) =>
        if id in s.live && s.live[id].pk.Some? then
          Without(s.db, after.db, {s.live[id].pk.value}) && Remembers(s, after, id, s.live[id].(pk := None))
        else after == s
      case UpdateRows(matched, kwargs, unsafe) =>
        after.live == s.live && after.db == Update(s.db, matched, kwargs, unsafe, c.env.allowed).db
      case BulkUpdateRows(within, batches, names, unsafe) =>
        after.live == s.live && after.db == BulkUpdate(s.db, within, ObjectBatches(s.live, batches), names, unsafe, c.env.allowed).db
      case BulkCreateRows(ids, create) => after.db == BulkCreate(s.db, Objects(s.live, Alive(s.live, ids)), create, c.env.allowed).db
      case UpdateOrCreateRow(id, found, values, defaults, unsafe) =>
        if found.Some? && found.value !in s.db.rows then after == s
        else
          var r := UpdateOrCreate(s.db, found, values.(snapshot := Unknown), defaults, c.env, unsafe);
          after.db == r.db && if r.error.Some? then after.live == s.live else Remembers(s, after, id, r.inst)
      case DeleteRows(pks) => after.live == s.live && Without(s.db, after.db, pks)
  {
  }

  /** And the objects that bulk calls take: the ones that are there, in their order. */
  lemma {:induction false} ObjectsAreTheLiveOnes(live: map<InstId, Inst>, ids: seq<InstId>, i: Inst)
    ensures i in Objects(live, ids) <==> exists id :: id in ids && id in live && live[id] == i
    ensures (forall id :: id in ids ==> id in live) ==>
              |Objects(live, ids)| == |ids| && forall k :: 0 <= k < |ids| ==> Objects(live, ids)[k] == live[ids[k]]
  {
    if ids != [] {
      ObjectsAreTheLiveOnes(live, ids[1..], i);
      assert ids == [ids[0]] + ids[1..];
    }
  }

  function After(s: State, run: seq<Call>): State
    decreases |run|
  {
    if run == [] then s else Step(After(s, run[..|run| - 1]), run[|run| - 1])
  }

  // ------------------------------------------------------------------ history

  function OrgsNow(db: Db, p: Pk): set<OrgId> { if p in db.rows then {db.rows[p].org} else {} }

  /** Every organization row `p` has belonged to at some point of the run. */
  function OrgsEver(s: State, run: seq<Call>, p: Pk): set<OrgId>
    decreases |run|
  {
    if run == [] then OrgsNow(s.db, p)
    else OrgsEver(s, run[..|run| - 1], p) + OrgsNow(After(s, run).db, p)
  }

  type History = Pk -> set<OrgId>

  function HistoryOf(s: State, run: seq<Call>): History { (p: Pk) => OrgsEver(s, run, p) }

  /** The snapshot carries no key. Where the instance's key has a row, the snapshot has to be one of
      that row's organizations; over a free key it says nothing about any row yet. */
  ghost predicate SnapshotIn(i: Inst, db: Db, past: History) {
    i.snapshot.Known? && i.pk.Some? && i.pk.value in db.rows ==> i.snapshot.org in past(i.pk.value)
  }

  ghost predicate SnapshotsIn(s: State, past: History) {
    forall id :: id in s.live ==> SnapshotIn(s.live[id], s.db, past)
  }

  ghost predicate RowsIn(db: Db, past: History) {
    forall p :: p in db.rows ==> db.rows[p].org in past(p)
  }

  /** The event brings instance `id` and row `p` together: either the row was not there before, or the
      instance did not carry its key. */
  ghost predicate Meets(s: State, after: State, id: InstId, p: Pk) {
    && id in after.live && after.live[id].pk == Some(p) && p in after.db.rows
    && (p !in s.db.rows || id !in s.live || s.live[id].pk != Some(p))
  }

  /** What `update_or_create` is about to save, when defaults are set on a row it found: an instance
      with that row's snapshot, and whatever key the defaults give it. */
  function Defaulted(db: Db, found: Pk, defaults: seq<Assignment>): Inst
    requires found in db.rows
  {
    AssignedAll(FromDb(found, db.rows[found]), defaults)
  }

  /** Saved under another row's key, it has seen one of that row's organizations. A caller who opted in
      may do as they like, and where the organization changes too, `save` refuses. */
  ghost predicate DefaultsInHistory(db: Db, found: Pk, defaults: seq<Assignment>, env: Env, unsafe: bool, past: History)
    requires found in db.rows
  {
    var i := Defaulted(db, found, defaults);
    !unsafe && !env.allowed && ResolvedOrganization(i, env) == Some(db.rows[found].org) ==> SnapshotIn(i, db, past)
  }

  /** A known instance and a row can meet within one event only in `update_or_create`. */
  ghost predicate MeetsInside(s: State, c: Call, past: History) {
    c.event.UpdateOrCreateRow? && c.event.found.Some? && c.event.found.value in s.db.rows ==>
      DefaultsInHistory(s.db, c.event.found.value, c.event.defaults, c.env, c.event.unsafe, past)
  }

  /** An instance that meets a row with a snapshot, within the event or by its outcome, has seen one of
      that row's organizations, the present one included. */
  ghost predicate MeetsInHistory(s: State, c: Call, past: History) {
    var after := Step(s, c);
    && MeetsInside(s, c, past)
    && forall id, p :: Meets(s, after, id, p) && after.live[id].snapshot.Known? ==>
                         after.live[id].snapshot.org in past(p) + {after.db.rows[p].org}
  }

  /** The discipline of the theorem: no event brings together a known instance and a row it has never
      seen. Giving an instance a free key is no such event, whatever it knows. */
  ghost predicate Disciplined(s: State, run: seq<Call>)
    decreases |run|
  {
    run != [] ==>
      var before := run[..|run| - 1];
      && Disciplined(s, before)
      && MeetsInHistory(After(s, before), run[|run| - 1], HistoryOf(s, before))
  }

  /** Nothing is alive yet, or what is alive describes the rows as they are. */
  ghost predicate Fresh(s: State) {
    SnapshotsIn(s, p => OrgsNow(s.db, p))
  }

  /** A run may start with nothing alive, or with instances as they were just loaded or built. */
  lemma StartsFresh(s: State)
    requires forall id :: id in s.live ==> s.live[id].snapshot.Unknown? || exists p :: p in s.db.rows && s.live[id] == FromDb(p, s.db.rows[p])
    ensures Fresh(s) && Disciplined(s, [])
  {
  }

  // ------------------------------------------------- one write, whatever the path

  /** Rows of `db` keep to `past`, and only keys without a row gain one. */
  ghost predicate WroteWithin(before: Db, after: Db, past: History) {
    forall p :: p in after.rows && p in before.rows ==> after.rows[p].org in past(p)
  }

  lemma SaveKeepsToHistory(db: Db, i: Inst, env: Env, args: SaveArgs, past: History)
    requires SnapshotIn(i, db, past) && RowsIn(db, past)
    ensures var r := Save(db, i, env, args);
            && (WroteWithin(db, r.db, past) || args.unsafe || env.allowed)
            && SnapshotIn(r.inst, r.db, p => past(p) + OrgsNow(r.db, p))
  {
  }

  lemma UpdateKeepsToHistory(db: Db, matched: set<Pk>, kwargs: map<string, Value>, past: History)
    requires RowsIn(db, past)
    ensures WroteWithin(db, Update(db, matched, kwargs, false, false).db, past)
  {
  }

  lemma {:induction false} FirstForIsInBatch(objs: seq<Inst>, p: Pk)
    ensures FirstFor(objs, p).Some? ==> FirstFor(objs, p).value in objs && FirstFor(objs, p).value.pk == Some(p)
  {
    if objs != [] && objs[0].pk != Some(p) {
      FirstForIsInBatch(objs[1..], p);
    }
  }

  ghost predicate AgreeWith(db: Db, objs: seq<Inst>) {
    forall i :: i in objs && i.pk.Some? && i.pk.value in db.rows ==> i.org == Some(db.rows[i.pk.value].org)
  }

  ghost predicate SameOrganizations(a: Db, b: Db) {
    a.rows.Keys == b.rows.Keys && forall p :: p in a.rows ==> a.rows[p].org == b.rows[p].org
  }

  /** What the opt-in inside `bulk_update` is good for: values that were checked change no organization. */
  lemma {:induction false} CheckedBatchesMoveNothing(db: Db, within: set<Pk>, batches: seq<seq<Inst>>,
        fields: seq<string>, allowed: bool)
    requires NamesOrganization(fields) ==> AgreeWith(db, Flat(batches))
    ensures SameOrganizations(db, NestedUpdates(db, within, batches, fields, allowed).db)
    decreases |batches|
  {
    if batches != [] {
      var first := NestedUpdate(db, within, batches[0], fields, allowed);
      forall p | p in db.rows
        ensures first.db.rows.Keys == db.rows.Keys && first.db.rows[p].org == db.rows[p].org
      {
        FirstForIsInBatch(batches[0], p);
        assert forall o :: o in batches[0] ==> o in Flat(batches);
      }
      assert forall o :: o in Flat(batches[1..]) ==> o in Flat(batches);
      CheckedBatchesMoveNothing(first.db, within, batches[1..], fields, allowed);
    }
  }

  lemma BulkUpdateMovesNothing(db: Db, within: set<Pk>, batches: seq<seq<Inst>>, names: seq<string>)
    ensures SameOrganizations(db, BulkUpdate(db, within, batches, names, false, false).db)
  {
    var fields := Expanded(RELATIONS, names);
    if !NamesOrganization(fields) || !SomeRelocates(db, Flat(batches)) {
      forall i | i in Flat(batches) && i.pk.Some? && i.pk.value in db.rows && NamesOrganization(fields)
        ensures i.org == Some(db.rows[i.pk.value].org)
      {
        var k :| 0 <= k < |Flat(batches)| && Flat(batches)[k] == i;
      }
      CheckedBatchesMoveNothing(db, within, batches, fields, NamesOrganization(fields));
      CheckedBatchesMoveNothing(db, within, batches, fields, false);
    }
  }

  /** Objects that come with a key keep it and their snapshot; without the organization among the
      conflict fields no row they meet changes its organization. */
  lemma {:induction false} KeyedPassKeepsRows(db: Db, objs: seq<Inst>, args: CreateArgs)
    ensures var r := CreatedPass(db, objs, args, true);
            && r.objs == objs
            && (!NamesOrganization(ConflictFields(args)) ==>
                  forall p :: p in db.rows ==> p in r.db.rows && r.db.rows[p].org == db.rows[p].org)
            && db.rows.Keys <= r.db.rows.Keys
    decreases |objs|
  {
    if objs != [] {
      var first := if objs[0].pk.Some? then CreatedOne(db, objs[0], args) else Saved(db, objs[0], None);
      KeyedPassKeepsRows(first.db, objs[1..], args);
    }
  }

  /** Objects without a key only ever add rows, and each is handed the key of the row it became. */
  lemma {:induction false} UnkeyedPassOnlyAdds(db: Db, objs: seq<Inst>, args: CreateArgs)
    ensures var r := CreatedPass(db, objs, args, false);
            && |r.objs| == |objs|
            && (forall p :: p in db.rows ==> p in r.db.rows && r.db.rows[p] == db.rows[p])
            && (r.error.None? ==> forall k :: 0 <= k < |objs| ==>
                  || r.objs[k] == objs[k]
                  || (&& !args.ignoreConflicts && objs[k].pk.None?
                      && r.objs[k].pk.Some? && r.objs[k] == objs[k].(pk := r.objs[k].pk)
                      && r.objs[k].pk.value in r.db.rows && r.objs[k].pk.value !in db.rows
                      && objs[k].org == Some(r.db.rows[r.objs[k].pk.value].org)))
    decreases |objs|
  {
    if objs != [] {
      var first := if objs[0].pk.None? then CreatedOne(db, objs[0], args) else Saved(db, objs[0], None);
      UnkeyedPassOnlyAdds(first.db, objs[1..], args);
    }
  }

  /** The instance lacked a key and was handed that of the row it became. */
  ghost predicate Keyed(before: Db, after: Db, i: Inst, j: Inst) {
    && i.pk.None? && j.pk.Some? && j == i.(pk := j.pk)
    && j.pk.value !in before.rows && j.pk.value in after.rows && i.org == Some(after.rows[j.pk.value].org)
  }

  /** Objects come out of `bulk_create` as they went in, but for a key that was missing: no snapshot is
      taken, and no existing row changes its organization without an opt-in. */
  lemma BulkCreateKeepsToHistory(db: Db, objs: seq<Inst>, args: CreateArgs, allowed: bool, past: History)
    requires RowsIn(db, past)
    ensures var r := BulkCreate(db, objs, args, allowed);
            && |r.objs| == |objs|
            && (WroteWithin(db, r.db, past) || args.unsafe || allowed)
            && (forall k :: 0 <= k < |objs| ==> r.objs[k] == objs[k] || (!args.ignoreConflicts && Keyed(db, r.db, objs[k], r.objs[k])))
  {
    var keyed := CreatedPass(db, objs, args, true);
    KeyedPassKeepsRows(db, objs, args);
    UnkeyedPassOnlyAdds(keyed.db, objs, args);
    if !args.updateConflicts {
      WithoutConflictUpdates(db, objs, args);
    }
    var r := BulkCreate(db, objs, args, allowed);
    if r.error.None? {
      assert keyed.error.None? && r == CreatedPass(keyed.db, objs, args, false);
    }
  }

  lemma {:induction false} WithoutConflictUpdates(db: Db, objs: seq<Inst>, args: CreateArgs)
    requires !args.updateConflicts
    ensures forall p :: p in db.rows ==>
              p in CreatedPass(db, objs, args, true).db.rows && CreatedPass(db, objs, args, true).db.rows[p] == db.rows[p]
    decreases |objs|
  {
    if objs != [] {
      var first := if objs[0].pk.Some? then CreatedOne(db, objs[0], args) else Saved(db, objs[0], None);
      WithoutConflictUpdates(first.db, objs[1..], args);
    }
  }

  lemma {:induction false} AliveObjects(live: map<InstId, Inst>, ids: seq<InstId>)
    ensures var known := Alive(live, ids);
            |Objects(live, known)| == |known| &&
            forall k :: 0 <= k < |known| ==> known[k] in live && known[k] in ids && Objects(live, known)[k] == live[known[k]]
  {
    if ids != [] {
      AliveObjects(live, ids[1..]);
      assert forall j :: j in ids[1..] ==> j in ids;
      var rest := Alive(live, ids[1..]);
      if ids[0] in live {
        assert ([ids[0]] + rest)[1..] == rest;
      } else {
        assert Alive(live, ids) == rest;
      }
    }
  }

  lemma {:induction false} ReplacedAt(live: map<InstId, Inst>, ids: seq<InstId>, objs: seq<Inst>, id: InstId)
    requires |ids| == |objs|
    ensures id in Replaced(live, ids, objs) <==> id in live || id in ids
    ensures id in Replaced(live, ids, objs) ==>
              || (id in live && Replaced(live, ids, objs)[id] == live[id])
              || exists k :: 0 <= k < |ids| && ids[k] == id && Replaced(live, ids, objs)[id] == objs[k]
    decreases |ids|
  {
    if ids != [] {
      ReplacedAt(live[ids[0] := objs[0]], ids[1..], objs[1..], id);
      var after := Replaced(live, ids, objs);
      if k :| 0 <= k < |ids[1..]| && ids[1..][k] == id && after[id] == objs[1..][k] {
        assert ids[k + 1] == id && objs[k + 1] == after[id];
      } else if id == ids[0] {
        assert objs[0] == live[ids[0] := objs[0]][id];
      }
    }
  }

  /** What `bulk_create` makes of a live instance: nothing, or the same with a key it lacked. */
  lemma BulkCreateOnLive(s: State, c: Call, id: InstId)
    requires c.event.BulkCreateRows? && id in Step(s, c).live
    ensures id in s.live
    ensures || Step(s, c).live[id] == s.live[id]
            || (&& id in c.event.ids && !c.event.create.ignoreConflicts
                && Keyed(s.db, Step(s, c).db, s.live[id], Step(s, c).live[id]))
  {
    var known := Alive(s.live, c.event.ids);
    var objs := Objects(s.live, known);
    AliveObjects(s.live, c.event.ids);
    BulkCreateKeepsToHistory(s.db, objs, c.event.create, c.env.allowed, p => OrgsNow(s.db, p));
    var r := BulkCreate(s.db, objs, c.event.create, c.env.allowed);
    ReplacedAt(s.live, known, r.objs, id);
    if id !in s.live || Step(s, c).live[id] != s.live[id] {
      var k :| 0 <= k < |known| && known[k] == id && Step(s, c).live[id] == r.objs[k];
      assert objs[k] == s.live[id];
    }
  }

  lemma {:induction false} AssigningKeepsSnapshot(i: Inst, values: seq<Assignment>)
    ensures AssignedAll(i, values).snapshot == i.snapshot
    ensures AssignedAll(i, values).pk == i.pk || exists k :: 0 <= k < |values| && values[k].AssignPk?
    decreases |values|
  {
    if values != [] {
      AssigningKeepsSnapshot(Assigned(i, values[0]), values[1..]);
      if k :| 0 <= k < |values[1..]| && values[1..][k].AssignPk? {
        assert values[k + 1].AssignPk?;
      }
    }
  }

  /** No `update_fields` can name a key, so defaults that change it are saved in full. */
  lemma ChangedKeysAreSavedInFull(db: Db, found: Pk, defaults: seq<Assignment>)
    requires found in db.rows
    ensures Defaulted(db, found, defaults).snapshot == Known(db.rows[found].org)
    ensures Defaulted(db, found, defaults).pk == Some(found) || DefaultFields(defaults).None?
  {
    AssigningKeepsSnapshot(FromDb(found, db.rows[found]), defaults);
    var names := seq(|defaults|, k requires 0 <= k < |defaults| => FieldOf(defaults[k]));
    if k :| 0 <= k < |defaults| && defaults[k].AssignPk? {
      assert names[k] == "id" && "id" !in CONCRETE;
    }
  }

  lemma UpdateOrCreateKeepsToHistory(db: Db, found: Option<Pk>, values: Inst, defaults: seq<Assignment>, env: Env,
        unsafe: bool, past: History)
    requires found.Some? ==> found.value in db.rows
    requires values.snapshot.Unknown? && RowsIn(db, past)
    requires found.Some? ==> DefaultsInHistory(db, found.value, defaults, env, unsafe, past)
    ensures var r := UpdateOrCreate(db, found, values, defaults, env, unsafe);
            && (WroteWithin(db, r.db, past) || unsafe || env.allowed)
            && (r.error.None? ==> SnapshotIn(r.inst, r.db, p => past(p) + OrgsNow(r.db, p)))
  {
    var inner := env.(allowed := unsafe || env.allowed);
    if found.Some? {
      var i, args := Defaulted(db, found.value, defaults), SaveArgs(DefaultFields(defaults), false, false);
      ChangedKeysAreSavedInFull(db, found.value, defaults);
      if SnapshotIn(i, db, past) { SaveKeepsToHistory(db, i, inner, args, past); }
    } else {
      SaveKeepsToHistory(db, values, inner, SaveArgs(None, true, false), past);
    }
  }

  /** One event of any kind: without an opt-in it gives no existing row an organization outside its
      history. Only `update_or_create` is asked for any discipline of its own. */
  lemma StepKeepsToHistory(s: State, c: Call, past: History)
    requires SnapshotsIn(s, past) && RowsIn(s.db, past) && MeetsInside(s, c, past)
    ensures WroteWithin(s.db, Step(s, c).db, past) || OptIn(c)
  {
    match c.event
    case SaveInst(id, args) =>
      if id in s.live { SaveKeepsToHistory(s.db, s.live[id], c.env, args, past); }
    case UpdateRows(matched, kwargs, unsafe) =>
      if !OptIn(c) { UpdateKeepsToHistory(s.db, matched, kwargs, past); }
    case BulkUpdateRows(within, batches, names, unsafe) =>
      if !OptIn(c) { BulkUpdateMovesNothing(s.db, within, ObjectBatches(s.live, batches), names); }
    case BulkCreateRows(ids, create) =>
      BulkCreateKeepsToHistory(s.db, Objects(s.live, Alive(s.live, ids)), create, c.env.allowed, past);
    case UpdateOrCreateRow(id, found, values, defaults, unsafe) =>
      if found.None? || found.value in s.db.rows {
        UpdateOrCreateKeepsToHistory(s.db, found, values.(snapshot := Unknown), defaults, c.env, unsafe, past);
      }
    case _ =>
  }

  /** And every snapshot over a row still lies in that row's history afterwards. */
  lemma StepKeepsSnapshots(s: State, c: Call, past: History)
    requires SnapshotsIn(s, past) && RowsIn(s.db, past) && MeetsInHistory(s, c, past)
    ensures SnapshotsIn(Step(s, c), p => past(p) + OrgsNow(Step(s, c).db, p))
  {
    var after := Step(s, c);
    var later: History := p => past(p) + OrgsNow(after.db, p);
    forall id | id in after.live
      ensures SnapshotIn(after.live[id], after.db, later)
    {
      var i := after.live[id];
      if i.snapshot.Known? && i.pk.Some? && i.pk.value in after.db.rows && !Meets(s, after, id, i.pk.value) {
        match c.event
        case SaveInst(j, args) =>
          if j == id { SaveKeepsToHistory(s.db, s.live[id], c.env, args, past); }
        case UpdateOrCreateRow(j, found, values, defaults, unsafe) =>
          if j == id && (found.None? || found.value in s.db.rows) {
            UpdateOrCreateKeepsToHistory(s.db, found, values.(snapshot := Unknown), defaults, c.env, unsafe, past);
          }
        case BulkCreateRows(_, _) => BulkCreateOnLive(s, c, id);
        case _ =>
      }
    }
  }

  /** The invariant behind everything: each known snapshot over a row lies in the history of that row. */
  lemma {:induction false} SnapshotsStayInHistory(s: State, run: seq<Call>)
    requires Fresh(s) && Disciplined(s, run)
    ensures SnapshotsIn(After(s, run), HistoryOf(s, run)) && RowsIn(After(s, run).db, HistoryOf(s, run))
    decreases |run|
  {
    if run != [] {
      var before, c := run[..|run| - 1], run[|run| - 1];
      SnapshotsStayInHistory(s, before);
      StepKeepsSnapshots(After(s, before), c, HistoryOf(s, before));
    }
  }

  ghost predicate InsertedAt(s: State, run: seq<Call>, c: Call, p: Pk) {
    p !in After(s, run).db.rows && p in After(s, run + [c]).db.rows
  }

  /** The main theorem. In every run, the set of organizations a row has ever belonged to grows only when
      that row is inserted or when somebody opted in. */
  lemma HistoryGrowsOnlyByInsertOrOptIn(s: State, run: seq<Call>, c: Call, p: Pk)
    requires Fresh(s) && Disciplined(s, run) && MeetsInside(After(s, run), c, HistoryOf(s, run))
    ensures || OrgsEver(s, run + [c], p) == OrgsEver(s, run, p)
            || InsertedAt(s, run, c, p)
            || OptIn(c)
  {
    var whole := run + [c];
    assert whole[..|whole| - 1] == run && whole[|whole| - 1] == c;
    SnapshotsStayInHistory(s, run);
    StepKeepsToHistory(After(s, run), c, HistoryOf(s, run));
  }

  /** No opt-in in `more`, and `p` is not inserted (again) by any of it. */
  ghost predicate Quiet(s: State, run: seq<Call>, more: seq<Call>, p: Pk)
    decreases |more|
  {
    more != [] ==>
      var front := more[..|more| - 1];
      && Quiet(s, run, front, p)
      && !OptIn(more[|more| - 1])
      && !InsertedAt(s, run + front, more[|more| - 1], p)
  }

  /** A row that has known one organization keeps it for as long as nobody opts in and the key is
      not inserted again. */
  lemma {:induction false} OrganizationIsConstant(s: State, run: seq<Call>, more: seq<Call>, p: Pk, org: OrgId)
    requires Fresh(s) && Disciplined(s, run + more)
    requires OrgsEver(s, run, p) == {org} && Quiet(s, run, more, p)
    ensures OrgsEver(s, run + more, p) == {org}
    ensures p in After(s, run + more).db.rows ==> After(s, run + more).db.rows[p].org == org
    decreases |more|
  {
    var whole := run + more;
    if more == [] {
      assert whole == run;
      if run != [] { assert OrgsNow(After(s, run).db, p) <= OrgsEver(s, run, p); }
    } else {
      var front, c := more[..|more| - 1], more[|more| - 1];
      assert whole == (run + front) + [c] && whole[..|whole| - 1] == run + front;
      OrganizationIsConstant(s, run, front, p, org);
      assert Disciplined(s, run + front);
      HistoryGrowsOnlyByInsertOrOptIn(s, run + front, c, p);
    }
    assert OrgsNow(After(s, whole).db, p) <= OrgsEver(s, whole, p);
  }
}
