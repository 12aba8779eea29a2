/** Around the history theorem: why its discipline on keys is needed, and which saves are never refused. */
module OwnershipLimits {
  import opened Outcomes
  import opened Ownership
  import opened OwnershipRuns

  const FULL_SAVE := SaveArgs(None, false, false)
  const PLAIN := Env(None, None, false)

  function Plain(e: Event): Call { Call(PLAIN, e) }

  /** Row `p` exists before and after the last event, nobody opted in, and yet its history grew. */
  ghost predicate Relocated(s: State, run: seq<Call>, c: Call, p: Pk) {
    && p in After(s, run).db.rows
    && p in After(s, run + [c]).db.rows
    && OrgsEver(s, run + [c], p) != OrgsEver(s, run, p)
    && !OptIn(c)
  }

  lemma AfterOneMore(s: State, run: seq<Call>, c: Call)
    ensures After(s, run + [c]) == Step(After(s, run), c)
    ensures forall p :: OrgsEver(s, run + [c], p) == OrgsEver(s, run, p) + OrgsNow(Step(After(s, run), c).db, p)
  {
    var whole := run + [c];
    assert whole[..|whole| - 1] == run && whole[|whole| - 1] == c;
  }

  lemma PresentIsPast(s: State, run: seq<Call>, p: Pk)
    ensures OrgsNow(After(s, run).db, p) <= OrgsEver(s, run, p)
  {
    if run != [] {
      assert run[..|run| - 1] + [run[|run| - 1]] == run;
      AfterOneMore(s, run[..|run| - 1], run[|run| - 1]);
    }
  }

  /** Give an instance back the organization its snapshot speaks of, and save it. */
  function BackToSnapshot(s: State, run: seq<Call>, id: InstId): seq<Call>
    requires id in After(s, run).live && After(s, run).live[id].snapshot.Known?
  {
    [Plain(Assign(id, AssignOrganization(Some(After(s, run).live[id].snapshot.org))))]
  }

  /** An instance whose snapshot was never an organization of the row its key names can relocate that
      row: assign the snapshot's organization, and save. */
  lemma AlienSnapshotRelocates(s: State, run: seq<Call>, id: InstId, p: Pk)
    requires var now := After(s, run);
             && id in now.live && now.live[id].pk == Some(p) && p in now.db.rows
             && now.live[id].snapshot.Known? && now.live[id].snapshot.org !in OrgsEver(s, run, p)
    ensures Relocated(s, run + BackToSnapshot(s, run, id), Plain(SaveInst(id, FULL_SAVE)), p)
  {
    var assign := Plain(Assign(id, AssignOrganization(Some(After(s, run).live[id].snapshot.org))));
    AfterOneMore(s, run, assign);
    PresentIsPast(s, run, p);
    AfterOneMore(s, run + [assign], Plain(SaveInst(id, FULL_SAVE)));
  }

  lemma DefaultsOverwrite(s: State, c: Call, past: History)
    requires RowsIn(s.db, past) && !MeetsInside(s, c, past)
    ensures !OptIn(c) && Defaulted(s.db, c.event.found.value, c.event.defaults).pk.Some?
    ensures var q := Defaulted(s.db, c.event.found.value, c.event.defaults).pk.value;
            && q in s.db.rows && q in Step(s, c).db.rows
            && Step(s, c).db.rows[q].org == s.db.rows[c.event.found.value].org && Step(s, c).db.rows[q].org !in past(q)
  {
    ChangedKeysAreSavedInFull(s.db, c.event.found.value, c.event.defaults);
  }

  /** `update_or_create` whose defaults carry the key of a row that the found one's organization never
      held: the row is overwritten, organization included, and nobody opted in. */
  lemma DefaultsWithAKeyRelocate(s: State, run: seq<Call>, c: Call)
    requires !MeetsInside(After(s, run), c, HistoryOf(s, run))
    ensures Defaulted(After(s, run).db, c.event.found.value, c.event.defaults).pk.Some?
    ensures Relocated(s, run, c, Defaulted(After(s, run).db, c.event.found.value, c.event.defaults).pk.value)
  {
    hide Step, MeetsInside;
    AfterOneMore(s, run, c);
    forall p ensures OrgsNow(After(s, run).db, p) <= OrgsEver(s, run, p) { PresentIsPast(s, run, p); }
    DefaultsOverwrite(After(s, run), c, HistoryOf(s, run));
  }

  /** Any two rows of different organizations, and no history at all: that is enough. */
  lemma DefaultedKeyRelocates(s: State, found: Pk, q: Pk, id: InstId, values: Inst)
    requires found in s.db.rows && q in s.db.rows && s.db.rows[found].org != s.db.rows[q].org
    ensures Relocated(s, [], Plain(UpdateOrCreateRow(id, Some(found), values, [AssignPk(Some(q))], false)), q)
  {
    var defaults := [AssignPk(Some(q))];
    var i := FromDb(found, s.db.rows[found]);
    assert defaults[1..] == [] && AssignedAll(Assigned(i, defaults[0]), []) == i.(pk := Some(q));
    assert Defaulted(s.db, found, defaults) == i.(pk := Some(q));
    DefaultsWithAKeyRelocate(s, [], Plain(UpdateOrCreateRow(id, Some(found), values, defaults, false)));
  }

  /** Any break of the discipline, by any event, relocates without an opt-in: either the event does so
      itself, or the instance that met a row it never saw can do so next. */
  lemma BrokenDisciplineRelocates(s: State, run: seq<Call>, c: Call)
    requires !MeetsInHistory(After(s, run), c, HistoryOf(s, run))
    ensures || (exists p :: Relocated(s, run, c, p))
            || exists id, p, more: seq<Call> :: Relocated(s, run + [c] + more, Plain(SaveInst(id, FULL_SAVE)), p)
  {
    if !MeetsInside(After(s, run), c, HistoryOf(s, run)) {
      DefaultsWithAKeyRelocate(s, run, c);
    } else {
      AfterOneMore(s, run, c);
      var after := After(s, run + [c]);
      var id, p :| Meets(After(s, run), after, id, p) && after.live[id].snapshot.Known?
                   && after.live[id].snapshot.org !in OrgsEver(s, run, p) + {after.db.rows[p].org};
      AlienSnapshotRelocates(s, run + [c], id, p);
      assert Relocated(s, run + [c] + BackToSnapshot(s, run + [c], id), Plain(SaveInst(id, FULL_SAVE)), p);
    }
  }

  /** No known instance could relocate a row by going back to its snapshot and being saved. */
  ghost predicate NobodyRelocates(s: State, run: seq<Call>) {
    forall id, p | id in After(s, run).live && After(s, run).live[id].snapshot.Known? ::
      !Relocated(s, run + BackToSnapshot(s, run, id), Plain(SaveInst(id, FULL_SAVE)), p)
  }

  lemma AssigningMeetsNothing(s: State, id: InstId, org: OrgId, past: History)
    ensures MeetsInHistory(s, Plain(Assign(id, AssignOrganization(Some(org)))), past)
  {
  }

  lemma DisciplineProtects(s: State, run: seq<Call>)
    requires Fresh(s) && Disciplined(s, run)
    ensures NobodyRelocates(s, run)
  {
    hide Step, HistoryOf, MeetsInHistory;
    forall id, p | id in After(s, run).live && After(s, run).live[id].snapshot.Known?
      ensures !Relocated(s, run + BackToSnapshot(s, run, id), Plain(SaveInst(id, FULL_SAVE)), p)
    {
      var assign := BackToSnapshot(s, run, id)[0];
      var longer := run + [assign];
      assert longer[..|longer| - 1] == run && longer[|longer| - 1] == assign;
      AssigningMeetsNothing(After(s, run), id, After(s, run).live[id].snapshot.org, HistoryOf(s, run));
      HistoryGrowsOnlyByInsertOrOptIn(s, longer, Plain(SaveInst(id, FULL_SAVE)), p);
    }
  }

  /** The discipline is exact. After a run that kept it, one more event keeps it if and only if the event
      relocates no row without an opt-in, and leaves no known instance that could do so by going back to
      its snapshot. */
  lemma DisciplineIsExact(s: State, run: seq<Call>, c: Call)
    requires Fresh(s) && Disciplined(s, run)
    ensures MeetsInHistory(After(s, run), c, HistoryOf(s, run)) <==>
            (forall p :: !Relocated(s, run, c, p)) && NobodyRelocates(s, run + [c])
  {
    var whole := run + [c];
    assert whole[..|whole| - 1] == run && whole[|whole| - 1] == c;
    if MeetsInHistory(After(s, run), c, HistoryOf(s, run)) {
      assert Disciplined(s, whole);
      DisciplineProtects(s, whole);
      forall p ensures !Relocated(s, run, c, p) {
        HistoryGrowsOnlyByInsertOrOptIn(s, run, c, p);
      }
    } else if !MeetsInside(After(s, run), c, HistoryOf(s, run)) {
      DefaultsWithAKeyRelocate(s, run, c);
    } else {
      AfterOneMore(s, run, c);
      var after := After(s, whole);
      var id, p :| Meets(After(s, run), after, id, p) && after.live[id].snapshot.Known?
                   && after.live[id].snapshot.org !in OrgsEver(s, run, p) + {after.db.rows[p].org};
      AlienSnapshotRelocates(s, whole, id, p);
      assert Relocated(s, whole + BackToSnapshot(s, whole, id), Plain(SaveInst(id, FULL_SAVE)), p);
    }
  }

  // --------------------------------------------------- what a caller can check beforehand

  ghost predicate CopySpeaksForItself(i: Inst) {
    i.snapshot.Known? && i.pk.None? ==> i.org == Some(i.snapshot.org)
  }

  /** Over a key the event inserts, no known instance that it leaves alone has seen other organizations
      only: nobody else inserts a key while an instance waits to save itself there. */
  ghost predicate SeatsAreKept(s: State, c: Call, past: History) {
    var after := Step(s, c);
    forall id, p :: p !in s.db.rows && p in after.db.rows && id in s.live && id in after.live
                    && after.live[id] == s.live[id] && s.live[id].pk == Some(p) && s.live[id].snapshot.Known? ==>
                      s.live[id].snapshot.org in past(p) + {after.db.rows[p].org}
  }

  /** Pointing a known instance at an existing row takes a row it has seen; at a free key it takes nothing.
      Copies that `bulk_create` is to give keys are of their own organization, and defaults of
      `update_or_create` carry no key of a row that the found one has not seen. */
  ghost predicate KeepsKeyAndSnapshotTogether(s: State, c: Call, past: History) {
    && SeatsAreKept(s, c, past)
    && MeetsInside(s, c, past)
    && match c.event
       case Assign(id, AssignPk(Some(p))) =>
         id in s.live && s.live[id].snapshot.Known? && p in s.db.rows ==> s.live[id].snapshot.org in past(p)
       case BulkCreateRows(ids, create) =>
         !create.ignoreConflicts ==> forall id :: id in ids && id in s.live ==> CopySpeaksForItself(s.live[id])
       case _ => true
  }

  lemma ChecksSuffice(s: State, c: Call, past: History)
    requires SnapshotsIn(s, past) && RowsIn(s.db, past) && KeepsKeyAndSnapshotTogether(s, c, past)
    ensures MeetsInHistory(s, c, past)
  {
    var after := Step(s, c);
    forall id, p | Meets(s, after, id, p) && after.live[id].snapshot.Known?
      ensures after.live[id].snapshot.org in past(p) + {after.db.rows[p].org}
    {
      match c.event
      case UpdateOrCreateRow(j, found, values, defaults, unsafe) =>
        if j == id && (found.None? || found.value in s.db.rows) {
          UpdateOrCreateKeepsToHistory(s.db, found, values.(snapshot := Unknown), defaults, c.env, unsafe, past);
        }
      case BulkCreateRows(ids, create) => BulkCreateOnLive(s, c, id);
      case SaveInst(j, args) =>
        if j == id { SaveKeepsToHistory(s.db, s.live[id], c.env, args, past); }
      case _ =>
    }
  }

  /** The copy idiom with a key of the caller's choosing: giving a known instance a free key, and saving
      it there, is within the discipline whenever no other instance holds that key. */
  lemma CopyUnderAFreeKey(s: State, id: InstId, p: Pk, past: History, args: SaveArgs, env: Env)
    requires SnapshotsIn(s, past) && RowsIn(s.db, past)
    requires id in s.live && p !in s.db.rows && forall j :: j in s.live && j != id ==> s.live[j].pk != Some(p)
    ensures var copy := Plain(Assign(id, AssignPk(Some(p))));
            && MeetsInHistory(s, copy, past)
            && MeetsInHistory(Step(s, copy), Call(env, SaveInst(id, args)), past)
  {
    var copy := Plain(Assign(id, AssignPk(Some(p))));
    var save := Call(env, SaveInst(id, args));
    assert SnapshotsIn(Step(s, copy), past);
    ChecksSuffice(s, copy, past);
    SaveKeepsToHistory(Step(s, copy).db, Step(s, copy).live[id], env, args, past);
  }

  /** And where it is not: while the copy waits on its free key, somebody else inserts that key in
      another organization. Every known instance, free key and other organization give such a race. */
  lemma FreeKeyRaceRelocates(s: State, run: seq<Call>, id: InstId, p: Pk, other: InstId, org: OrgId)
    requires var now := After(s, run);
             && id in now.live && now.live[id].snapshot.Known? && other != id
             && p !in now.db.rows && now.live[id].snapshot.org !in OrgsEver(s, run, p) + {org}
    ensures var race := [Plain(Assign(id, AssignPk(Some(p)))), Plain(Construct(other, Some(p), Some(org), None, 0)),
                         Plain(SaveInst(other, FULL_SAVE))];
            exists more: seq<Call> :: Relocated(s, run + race + more, Plain(SaveInst(id, FULL_SAVE)), p)
  {
    var copy, build, insert := Plain(Assign(id, AssignPk(Some(p)))), Plain(Construct(other, Some(p), Some(org), None, 0)),
                               Plain(SaveInst(other, FULL_SAVE));
    AfterOneMore(s, run, copy);
    AfterOneMore(s, run + [copy], build);
    AfterOneMore(s, run + [copy] + [build], insert);
    assert run + [copy] + [build] + [insert] == run + [copy, build, insert];
    AlienSnapshotRelocates(s, run + [copy, build, insert], id, p);
    var more := BackToSnapshot(s, run + [copy, build, insert], id);
    assert Relocated(s, run + [copy, build, insert] + more, Plain(SaveInst(id, FULL_SAVE)), p);
  }

  lemma PointingAtARow(s: State, id: InstId, p: Pk)
    requires id in s.live
    ensures Step(s, Plain(Assign(id, AssignPk(Some(p))))) == s.(live := s.live[id := s.live[id].(pk := Some(p))])
  {
  }

  /** Pointing a known instance at an existing row it has not seen is harmful, always. */
  lemma ReassignedKeyRelocates(s: State, run: seq<Call>, id: InstId, p: Pk)
    requires var now := After(s, run);
             && id in now.live && now.live[id].pk != Some(p) && p in now.db.rows
             && now.live[id].snapshot.Known? && now.live[id].snapshot.org !in OrgsEver(s, run, p)
    ensures exists more: seq<Call> ::
              Relocated(s, run + [Plain(Assign(id, AssignPk(Some(p))))] + more, Plain(SaveInst(id, FULL_SAVE)), p)
  {
    hide Relocated;
    var point := Plain(Assign(id, AssignPk(Some(p))));
    AfterOneMore(s, run, point);
    PointingAtARow(After(s, run), id, p);
    PresentIsPast(s, run, p);
    AlienSnapshotRelocates(s, run + [point], id, p);
    assert Relocated(s, run + [point] + BackToSnapshot(s, run + [point], id), Plain(SaveInst(id, FULL_SAVE)), p);
  }

  /** The copy idiom through `bulk_create`: the copy is handed a new key and keeps its original's
      snapshot, so a copy made in another organization can be saved back into the original's one. */
  lemma BulkCreatedCopyRelocates(s: State, run: seq<Call>, id: InstId)
    requires var now := After(s, run);
             && id in now.live && now.live[id].org.Some? && !CopySpeaksForItself(now.live[id])
             && now.db.nextPk !in now.db.rows && OrgsEver(s, run, now.db.nextPk) == {}
    ensures var p := After(s, run).db.nextPk;
            exists more: seq<Call> ::
              Relocated(s, run + [Plain(BulkCreateRows([id], CreateArgs(false, false, None, false)))] + more,
                        Plain(SaveInst(id, FULL_SAVE)), p)
  {
    var now := After(s, run);
    var create := Plain(BulkCreateRows([id], CreateArgs(false, false, None, false)));
    AfterOneMore(s, run, create);
    var i, args := now.live[id], CreateArgs(false, false, None, false);
    assert Alive(now.live, [id]) == [id] && Objects(now.live, [id]) == [i] by { assert [id][1..] == []; }
    var keyed := CreatedPass(now.db, [i], args, true);
    assert keyed == Created(now.db, [i], None) by {
      assert [i][1..] == [] && CreatedPass(now.db, [i][1..], args, true) == Created(now.db, [], None);
    }
    var r := CreatedPass(now.db, [i], args, false);
    var first := CreatedOne(now.db, i, args);
    assert r == Created(first.db, [first.inst], None) by {
      assert [i][1..] == [] && CreatedPass(first.db, [i][1..], args, false) == Created(first.db, [], None);
    }
    assert Replaced(now.live, [id], r.objs) == now.live[id := first.inst] by { assert [id][1..] == []; }
    AlienSnapshotRelocates(s, run + [create], id, now.db.nextPk);
    var more := [Plain(Assign(id, AssignOrganization(Some(i.snapshot.org))))];
    assert Relocated(s, run + [create] + more, Plain(SaveInst(id, FULL_SAVE)), now.db.nextPk);
  }

  // ------------------------------------------------------------- no false refusals

  /** The instance knows what its row holds, and still holds it itself. */
  ghost predicate Faithful(i: Inst) {
    i.snapshot.Known? && i.org == Some(i.snapshot.org)
  }

  /** The event assigns the organization of `id` in memory, directly or through the relation, or puts
      another object in its place. */
  ghost predicate Reassigns(c: Call, id: InstId) {
    match c.event
    case Assign(j, AssignOrganization(_)) => j == id
    case Assign(j, AssignRelated(Some(_))) => j == id
    case Construct(j, _, _, _, _) => j == id
    case UpdateOrCreateRow(j, _, _, _, _) => j == id
    case _ => false
  }

  lemma LoadingAndSavingMakeFaithful(db: Db, i: Inst, env: Env, args: SaveArgs, p: Pk, fields: Option<seq<string>>)
    ensures p in db.rows ==> Faithful(FromDb(p, db.rows[p]))
    ensures Save(db, i, env, args).error.None? && WritesOrganization(ExpandedFields(args)) ==> Faithful(Save(db, i, env, args).inst)
    ensures Refresh(db, i, fields).error.None? && WritesOrganization(fields) ==> Faithful(Refresh(db, i, fields).inst)
  {
  }

  lemma StepKeepsFaithful(s: State, c: Call, id: InstId)
    requires id in s.live && Faithful(s.live[id]) && !Reassigns(c, id)
    ensures id in Step(s, c).live && Faithful(Step(s, c).live[id])
  {
    if c.event.BulkCreateRows? {
      StaysAlive(s, c, id);
      BulkCreateOnLive(s, c, id);
    }
  }

  lemma StaysAlive(s: State, c: Call, id: InstId)
    requires id in s.live && c.event.BulkCreateRows?
    ensures id in Step(s, c).live
  {
    var known := Alive(s.live, c.event.ids);
    var objs := Objects(s.live, known);
    AliveObjects(s.live, c.event.ids);
    BulkCreateKeepsToHistory(s.db, objs, c.event.create, c.env.allowed, p => OrgsNow(s.db, p));
    ReplacedAt(s.live, known, BulkCreate(s.db, objs, c.event.create, c.env.allowed).objs, id);
  }

  /** An instance that was loaded or saved, and whose organization nobody assigned in memory since, is
      never refused, whatever anybody else relocates in the meantime. */
  lemma {:induction false} NeverFalselyRefused(s: State, run: seq<Call>, id: InstId, env: Env, args: SaveArgs)
    requires id in s.live && Faithful(s.live[id])
    requires forall k :: 0 <= k < |run| ==> !Reassigns(run[k], id)
    ensures id in After(s, run).live && Faithful(After(s, run).live[id])
    ensures Save(After(s, run).db, After(s, run).live[id], env, args).error != Some(OrganizationCannotBeUpdated)
    decreases |run|
  {
    if run != [] {
      NeverFalselyRefused(s, run[..|run| - 1], id, env, args);
      StepKeepsFaithful(After(s, run[..|run| - 1]), run[|run| - 1], id);
    }
  }

  /** A refusal leaves the tables and the snapshot as they were; in memory it can at most have filled
      in an organization that was missing. */
  lemma RefusalChangesNothing(db: Db, i: Inst, env: Env, args: SaveArgs)
    requires Save(db, i, env, args).error == Some(OrganizationCannotBeUpdated)
    ensures var r := Save(db, i, env, args);
            r.db == db && r.inst == i.(org := ResolvedOrganization(i, env)) && (i.org.Some? ==> r.inst == i)
  {
  }

  /** A partial save does not bless an organization it did not write: the next full save is refused
      exactly when the instance has left the organization its snapshot speaks of. */
  lemma PartialSaveBlessesNothing(db: Db, i: Inst, env: Env, partial: SaveArgs)
    requires i.pk.Some? && i.snapshot.Known? && i.org.Some? && !env.allowed
    requires !WritesOrganization(ExpandedFields(partial)) && Save(db, i, env, partial).error.None?
    ensures var once := Save(db, i, env, partial);
            Save(once.db, once.inst, env, FULL_SAVE).error == Some(OrganizationCannotBeUpdated) <==> i.org != Some(i.snapshot.org)
  {
  }

  /** The one shape that stays without a snapshot: built with a key, saved in part. It is refused
      later exactly when somebody else's authorized move has left its row in another organization. */
  lemma PartlySavedStrangerReadsTheRow(db: Db, i: Inst, env: Env, partial: SaveArgs, later: Db)
    requires i.pk.Some? && i.snapshot.Unknown? && i.org.Some? && !env.allowed
    requires !WritesOrganization(ExpandedFields(partial)) && Save(db, i, env, partial).error.None?
    ensures var once := Save(db, i, env, partial);
            Save(later, once.inst, env, FULL_SAVE).error == Some(OrganizationCannotBeUpdated) <==>
              i.pk.value in later.rows && later.rows[i.pk.value].org != i.org.value
  {
  }
}
