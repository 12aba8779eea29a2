/** Rows never come to point across organizations: two tables, a source whose `article` is an
    organization-safe relation and its target, written by any number of instances of each. */
module RelationIntegrity {
  import opened Outcomes
  import opened SafeFields
  import opened Ownership
  import opened OwnershipRuns

  datatype World = World(source: State, target: State)

  datatype WorldEvent = OnSource(call: Call) | OnTarget(call: Call)

  type Targets = map<Pk, Row>

  /** The two-column ON clause: key and organization. */
  predicate Joins(targets: Targets, row: Row) {
    row.key.Some? && row.key.value in targets && targets[row.key.value].org == row.org
  }

  /** Every row with a key joins to a target of its own organization. */
  ghost predicate Integral(rows: map<Pk, Row>, targets: Targets) {
    forall p :: p in rows && rows[p].key.Some? ==> Joins(targets, rows[p])
  }

  /** The same of an instance in memory. */
  ghost predicate InStep(targets: Targets, i: Inst) {
    i.key.Some? ==> i.key.value in targets && i.org == Some(targets[i.key.value].org)
  }

  ghost predicate AllInStep(targets: Targets, live: map<InstId, Inst>) {
    forall id :: id in live ==> InStep(targets, live[id])
  }

  /** A related instance in step with its row, or one without a key. */
  ghost predicate TargetInStep(targets: Targets, t: Target) {
    t.pk.Some? ==> t.pk.value in targets && t.org == Some(targets[t.pk.value].org)
  }

  ghost predicate RelationAssignment(targets: Targets, a: Assignment) {
    match a
    case AssignRelated(Some(t)) => TargetInStep(targets, t)
    case AssignRelated(None) => true
    case AssignText(_) => true
    case AssignPk(_) => true
    case _ => false
  }

  predicate Declared(names: seq<string>) { !NamesOrganization(names) && !NamesKey(names) }

  /** The source is written the way the field's documentation asks: through the relation, by its
      declared name, never by one of the two columns alone. Opting in is fine: a relocation through
      the relation moves both columns. */
  ghost predicate WritesThroughRelation(w: World, c: Call) {
    var targets := w.target.db.rows;
    match c.event
    case Construct(_, _, org, key, _) => key.Some? ==> key.value in targets && org == Some(targets[key.value].org)
    case RefreshInst(_, fields) => fields.Some? ==> Declared(fields.value)
    case Assign(_, a) => RelationAssignment(targets, a)
    case SaveInst(_, args) => args.fields.Some? ==> Declared(args.fields.value)
    case UpdateRows(matched, kwargs, _) => UpdateInStep(w.source.db, targets, matched, Rewritten(RELATIONS, kwargs, true))
    case BulkUpdateRows(_, _, names, _) => Declared(names)
    case BulkCreateRows(_, create) => Declared(ConflictFields(create))
    case UpdateOrCreateRow(_, _, values, defaults, _) =>
      InStep(targets, values) && forall k :: 0 <= k < |defaults| ==> RelationAssignment(targets, defaults[k])
    case _ => true
  }

  /** Every matched row already belongs to the organization of the target `update` points it at. */
  ghost predicate UpdateInStep(db: Db, targets: Targets, matched: set<Pk>, kwargs: map<string, Value>) {
    && !Named(kwargs, ORGANIZATION, ORGANIZATION_ID)
    && (Named(kwargs, KEY, KEY_ID) && ValueOf(kwargs, KEY, KEY_ID).Id? ==>
          forall p :: p in matched && p in db.rows ==>
            Joins(targets, Row(db.rows[p].org, Some(ValueOf(kwargs, KEY, KEY_ID).id), 0)))
  }

  /** Targets are written in any way at all, short of opting into relocation and deleting. */
  ghost predicate TargetsStay(w: World, c: Call) {
    && !OptIn(c)
    && !c.event.DeleteInst? && !c.event.DeleteRows?
    && MeetsInHistory(w.target, c, p => OrgsNow(w.target.db, p))
  }

  ghost predicate Permitted(w: World, e: WorldEvent) {
    match e
    case OnSource(c) => WritesThroughRelation(w, c)
    case OnTarget(c) => TargetsStay(w, c)
  }

  function WorldStep(w: World, e: WorldEvent): World {
    match e
    case OnSource(c) => w.(source := Step(w.source, c))
    case OnTarget(c) => w.(target := Step(w.target, c))
  }

  function WorldAfter(w: World, run: seq<WorldEvent>): World
    decreases |run|
  {
    if run == [] then w else WorldStep(WorldAfter(w, run[..|run| - 1]), run[|run| - 1])
  }

  /** A run goes on with what its last event does to its own table; the other stays. */
  lemma EventsHappen(w: World, run: seq<WorldEvent>, c: Call)
    ensures
      var now, source, target := WorldAfter(w, run), WorldAfter(w, run + [OnSource(c)]), WorldAfter(w, run + [OnTarget(c)]);
      && source.source == Step(now.source, c) && source.target == now.target
      && target.target == Step(now.target, c) && target.source == now.source
  {
    assert (run + [OnSource(c)])[..|run|] == run && (run + [OnTarget(c)])[..|run|] == run;
  }

  ghost predicate PermittedRun(w: World, run: seq<WorldEvent>)
    decreases |run|
  {
    run != [] ==> PermittedRun(w, run[..|run| - 1]) && Permitted(WorldAfter(w, run[..|run| - 1]), run[|run| - 1])
  }

  ghost predicate Sound(w: World) {
    && Fresh(w.target)
    && Integral(w.source.db.rows, w.target.db.rows)
    && AllInStep(w.target.db.rows, w.source.live)
  }

  /** A run may start with any target rows, while there are no source rows and nothing is in memory. */
  lemma StartsSound(w: World)
    requires w.source.db.rows == map[] && w.source.live == map[] && w.target.live == map[]
    ensures Sound(w) && PermittedRun(w, [])
  {
  }

  // ---------------------------------------------------------------- target events

  /** Keys of `a` are still there in `b`, in the same organization. */
  ghost predicate Outlives(a: Targets, b: Targets) {
    forall p :: p in a ==> p in b && b[p].org == a[p].org
  }

  lemma RowsSurvive(s: State, c: Call)
    requires !c.event.DeleteInst? && !c.event.DeleteRows?
    ensures forall p :: p in s.db.rows ==> p in Step(s, c).db.rows
  {
    match c.event
    case BulkUpdateRows(within, batches, names, unsafe) =>
      var fields := Expanded(RELATIONS, names);
      NestedUpdatesKeepKeys(s.db, within, ObjectBatches(s.live, batches), fields, true);
      NestedUpdatesKeepKeys(s.db, within, ObjectBatches(s.live, batches), fields, unsafe || c.env.allowed);
    case BulkCreateRows(ids, create) => BulkCreateKeepsRows(s.db, Objects(s.live, Alive(s.live, ids)), create, c.env.allowed);
    case _ =>
  }

  lemma BulkCreateKeepsRows(db: Db, objs: seq<Inst>, create: CreateArgs, allowed: bool)
    ensures db.rows.Keys <= BulkCreate(db, objs, create, allowed).db.rows.Keys
  {
    KeyedPassKeepsRows(db, objs, create);
    UnkeyedPassOnlyAdds(CreatedPass(db, objs, create, true).db, objs, create);
  }

  lemma {:induction false} NestedUpdatesKeepKeys(db: Db, within: set<Pk>, batches: seq<seq<Inst>>,
        fields: seq<string>, allowed: bool)
    ensures NestedUpdates(db, within, batches, fields, allowed).db.rows.Keys == db.rows.Keys
    decreases |batches|
  {
    if batches != [] {
      var first := NestedUpdate(db, within, batches[0], fields, allowed);
      assert first.db.rows.Keys == db.rows.Keys;
      NestedUpdatesKeepKeys(first.db, within, batches[1..], fields, allowed);
    }
  }

  /** Immutability of the target's organization is the history theorem's step, with what the rows hold
      now as the history. */
  lemma TargetStep(w: World, c: Call)
    requires Fresh(w.target) && TargetsStay(w, c)
    ensures Outlives(w.target.db.rows, Step(w.target, c).db.rows) && Fresh(Step(w.target, c))
  {
    StepKeepsToHistory(w.target, c, p => OrgsNow(w.target.db, p));
    StepKeepsSnapshots(w.target, c, p => OrgsNow(w.target.db, p));
    RowsSurvive(w.target, c);
  }

  // ---------------------------------------------------------------- source events

  /** Naming the relation writes both columns, and nothing else declared writes either. */
  lemma DeclaredNamesWriteBothOrNeither(names: seq<string>)
    requires Declared(names)
    ensures NamesOrganization(Expanded(RELATIONS, names)) <==> NamesKey(Expanded(RELATIONS, names))
  {
    assert RELATION + "_fk" == KEY;
    assert RELATIONS[0] == RELATION;
    SuffixesDiffer(RELATION);
    assert (RELATION + "_id")[|RELATION|] == '_';
    ExpansionWritesBothHalves(RELATIONS, names);
  }

  lemma SaveKeepsInStep(db: Db, targets: Targets, i: Inst, env: Env, args: SaveArgs)
    requires Integral(db.rows, targets) && InStep(targets, i)
    requires args.fields.Some? ==> Declared(args.fields.value)
    ensures var r := Save(db, i, env, args); Integral(r.db.rows, targets) && InStep(targets, r.inst)
  {
    if args.fields.Some? {
      DeclaredNamesWriteBothOrNeither(args.fields.value);
    }
  }

  lemma {:induction false} BatchesKeepIntegrity(db: Db, targets: Targets, within: set<Pk>, batches: seq<seq<Inst>>,
        fields: seq<string>, allowed: bool)
    requires Integral(db.rows, targets) && (forall i :: i in Flat(batches) ==> InStep(targets, i))
    requires NamesOrganization(fields) <==> NamesKey(fields)
    ensures Integral(NestedUpdates(db, within, batches, fields, allowed).db.rows, targets)
    decreases |batches|
  {
    if batches != [] {
      var first := NestedUpdate(db, within, batches[0], fields, allowed);
      forall p | p in first.db.rows && first.db.rows[p].key.Some?
        ensures Joins(targets, first.db.rows[p])
      {
        FirstForIsInBatch(batches[0], p);
        assert forall o :: o in batches[0] ==> o in Flat(batches);
      }
      assert forall o :: o in Flat(batches[1..]) ==> o in Flat(batches);
      BatchesKeepIntegrity(first.db, targets, within, batches[1..], fields, allowed);
    }
  }

  lemma {:induction false} LiveObjectsInStep(targets: Targets, live: map<InstId, Inst>, ids: seq<InstId>)
    requires AllInStep(targets, live)
    ensures forall i :: i in Objects(live, ids) ==> InStep(targets, i)
  {
    if ids != [] { LiveObjectsInStep(targets, live, ids[1..]); }
  }

  lemma {:induction false} LiveBatchesInStep(targets: Targets, live: map<InstId, Inst>, batches: seq<seq<InstId>>)
    requires AllInStep(targets, live)
    ensures forall i :: i in Flat(ObjectBatches(live, batches)) ==> InStep(targets, i)
    decreases |batches|
  {
    if batches != [] {
      LiveObjectsInStep(targets, live, batches[0]);
      LiveBatchesInStep(targets, live, batches[1..]);
      var all := ObjectBatches(live, batches);
      assert all[0] == Objects(live, batches[0]) && all[1..] == ObjectBatches(live, batches[1..]);
    }
  }

  lemma {:induction false} CreatedPassKeepsIntegrity(db: Db, targets: Targets, objs: seq<Inst>, args: CreateArgs,
        keyed: bool)
    requires Integral(db.rows, targets) && (forall i :: i in objs ==> InStep(targets, i)) && Declared(ConflictFields(args))
    ensures var r := CreatedPass(db, objs, args, keyed);
            Integral(r.db.rows, targets) && |r.objs| == |objs| && forall i :: i in r.objs ==> InStep(targets, i)
    decreases |objs|
  {
    if objs != [] {
      var first := if objs[0].pk.Some? == keyed then CreatedOne(db, objs[0], args) else Saved(db, objs[0], None);
      assert InStep(targets, objs[0]);
      assert Integral(first.db.rows, targets) && InStep(targets, first.inst);
      CreatedPassKeepsIntegrity(first.db, targets, objs[1..], args, keyed);
    }
  }

  lemma {:induction false} DefaultsKeepInStep(targets: Targets, i: Inst, defaults: seq<Assignment>)
    requires InStep(targets, i) && forall k :: 0 <= k < |defaults| ==> RelationAssignment(targets, defaults[k])
    ensures InStep(targets, AssignedAll(i, defaults))
    decreases |defaults|
  {
    if defaults != [] { DefaultsKeepInStep(targets, Assigned(i, defaults[0]), defaults[1..]); }
  }

  lemma UpdateOrCreateKeepsInStep(w: World, c: Call)
    requires Sound(w) && WritesThroughRelation(w, c) && c.event.UpdateOrCreateRow?
    ensures Sound(w.(source := Step(w.source, c)))
  {
    var e, targets, db := c.event, w.target.db.rows, w.source.db;
    if e.found.None? || e.found.value in db.rows {
      var inner := c.env.(allowed := e.unsafe || c.env.allowed);
      if e.found.Some? {
        var i := FromDb(e.found.value, db.rows[e.found.value]);
        DefaultsKeepInStep(targets, i, e.defaults);
        var fields := DefaultFields(e.defaults);
        if fields.Some? {
          forall k | 0 <= k < |fields.value|
            ensures fields.value[k] == TEXT
          {
            assert fields.value[k] == FieldOf(e.defaults[k]) && RelationAssignment(targets, e.defaults[k]);
          }
        }
        SaveKeepsInStep(db, targets, AssignedAll(i, e.defaults), inner, SaveArgs(fields, false, false));
      } else {
        SaveKeepsInStep(db, targets, e.values.(snapshot := Unknown), inner, SaveArgs(None, true, false));
      }
    }
  }

  lemma BulkWritesKeepInStep(w: World, c: Call)
    requires Sound(w) && WritesThroughRelation(w, c) && (c.event.BulkUpdateRows? || c.event.BulkCreateRows?)
    ensures Sound(w.(source := Step(w.source, c)))
  {
    var targets, s := w.target.db.rows, w.source;
    match c.event
    case BulkUpdateRows(within, batches, names, unsafe) =>
      DeclaredNamesWriteBothOrNeither(names);
      LiveBatchesInStep(targets, s.live, batches);
      BatchesKeepIntegrity(s.db, targets, within, ObjectBatches(s.live, batches), Expanded(RELATIONS, names), true);
      BatchesKeepIntegrity(s.db, targets, within, ObjectBatches(s.live, batches), Expanded(RELATIONS, names), unsafe || c.env.allowed);
    case BulkCreateRows(ids, create) =>
      var known := Alive(s.live, ids);
      var objs := Objects(s.live, known);
      LiveObjectsInStep(targets, s.live, known);
      CreatedPassKeepsIntegrity(s.db, targets, objs, create, true);
      var keyed := CreatedPass(s.db, objs, create, true);
      CreatedPassKeepsIntegrity(keyed.db, targets, keyed.objs, create, false);
      forall id | id in Step(s, c).live ensures InStep(targets, Step(s, c).live[id]) {
        BulkCreateOnLive(s, c, id);
      }
  }

  lemma SourceStep(w: World, c: Call)
    requires Sound(w) && WritesThroughRelation(w, c)
    ensures Sound(w.(source := Step(w.source, c)))
  {
    match c.event
    case SaveInst(id, args) =>
      if id in w.source.live { SaveKeepsInStep(w.source.db, w.target.db.rows, w.source.live[id], c.env, args); }
    case BulkUpdateRows(_, _, _, _) => BulkWritesKeepInStep(w, c);
    case BulkCreateRows(_, _) => BulkWritesKeepInStep(w, c);
    case UpdateOrCreateRow(_, _, _, _, _) => UpdateOrCreateKeepsInStep(w, c);
    case _ =>
  }

  /** Relation integrity over whole runs: however instances of both models are loaded, assigned and
      written, every source row with a key keeps joining to a target of its own organization. */
  lemma {:induction false} RelationsStayIntegral(w: World, run: seq<WorldEvent>)
    requires Sound(w) && PermittedRun(w, run)
    ensures Sound(WorldAfter(w, run))
    decreases |run|
  {
    if run != [] {
      var before, e := run[..|run| - 1], run[|run| - 1];
      RelationsStayIntegral(w, before);
      match e
      case OnSource(c) => SourceStep(WorldAfter(w, before), c);
      case OnTarget(c) => TargetStep(WorldAfter(w, before), c);
    }
  }

  // -------------------------------------------------- where the conditions come from

  /** `update(article=...)` writes the key alone. It keeps integrity exactly when every row it matches
      belongs to the target's organization already. */
  lemma BareUpdateKeepsIntegrityIff(db: Db, targets: Targets, matched: set<Pk>, k: Pk)
    requires Integral(db.rows, targets)
    ensures var after := Update(db, matched, map[RELATION := Id(k)], false, false);
            && after.error.None?
            && (Integral(after.db.rows, targets) <==>
                  forall p :: p in matched && p in db.rows ==> k in targets && targets[k].org == db.rows[p].org)
  {
    var kwargs := map[RELATION := Id(k)];
    var rewritten := Rewritten(RELATIONS, kwargs, true);
    assert rewritten == map[KEY := Id(k)] by {
      assert RELATIONS[..0] == [] && Rewritten(RELATIONS[..0], kwargs, true) == kwargs;
      assert KEY == RELATION + "_fk" && KEY[|RELATION| + 1] != (RELATION + "_id")[|RELATION| + 1];
    }
    var after := Update(db, matched, kwargs, false, false);
    forall p | p in db.rows
      ensures p in matched ==> after.db.rows[p] == Row(db.rows[p].org, Some(k), db.rows[p].text)
      ensures p !in matched ==> after.db.rows[p] == db.rows[p]
    {
    }
    if Integral(after.db.rows, targets) {
      forall p | p in matched && p in db.rows
        ensures k in targets && targets[k].org == db.rows[p].org
      {
        assert Joins(targets, after.db.rows[p]);
      }
    }
  }

  /** Why both columns: saving the concrete key alone after a permitted assignment across
      organizations leaves the row pointing across, for every row and every target elsewhere. */
  lemma WritingTheKeyAloneBreaks(db: Db, targets: Targets, p: Pk, k: Pk, env: Env)
    requires p in db.rows && k in targets && targets[k].org != db.rows[p].org
    ensures var i := Assigned(FromDb(p, db.rows[p]), AssignRelated(Some(Target(Some(k), Some(targets[k].org)))));
            var r := Save(db, i, env, SaveArgs(Some([KEY]), false, false));
            r.error.None? && !Integral(r.db.rows, targets)
  {
    assert RELATION != KEY by { assert |RELATION| != |KEY|; }
    assert Expanded(RELATIONS, [KEY]) == [KEY] by {
      assert [KEY][1..] == [] && Expansion(RELATIONS, KEY) == [KEY] && [] + [KEY] == [KEY];
      assert ExtendedWith([], [KEY]) == ExtendedWith([KEY], [KEY][1..]) == [KEY];
      assert ExpandedFrom(RELATIONS, [], [KEY]) == ExpandedFrom(RELATIONS, [KEY], [KEY][1..]) == [KEY];
    }
    assert [KEY][0] in CONCRETE;
    var i := Assigned(FromDb(p, db.rows[p]), AssignRelated(Some(Target(Some(k), Some(targets[k].org)))));
    var r := Save(db, i, env, SaveArgs(Some([KEY]), false, false));
    assert [KEY][0] == KEY && KEY in [KEY] && ORGANIZATION !in [KEY] && ORGANIZATION_ID !in [KEY];
    assert r.db.rows[p] == Row(db.rows[p].org, Some(k), db.rows[p].text);
    assert !Joins(targets, r.db.rows[p]);
  }

  /** Why the target's organization has to be immutable: moving a target breaks every row that points at it. */
  lemma RelocatedTargetBreaks(rows: map<Pk, Row>, targets: Targets, p: Pk, moved: Targets)
    requires Integral(rows, targets) && p in rows && rows[p].key.Some?
    requires rows[p].key.value in moved && moved[rows[p].key.value].org != targets[rows[p].key.value].org
    ensures !Integral(rows, moved)
  {
    assert Joins(targets, rows[p]) && !Joins(moved, rows[p]);
  }
}
