# A verified model of vinta_orgs

`vinta_orgs` keeps the rows of many organizations in shared tables. What it promises is about whole runs: a
row stays in its organization whatever mixture of saves and bulk writes touches it, relations never cross
organizations, a rewritten query means what the query meant, permission answers do not depend on which
caches are warm or which organization happens to be bound, and a binding is put back on every path. This
project models the code behind those promises and proves them.

`dafny verify dfyconfig.toml` checks everything.

## What is where

| File | Models |
|---|---|
| `Outcomes`, `Rows`, `Names`, `ContextVars` | results and exceptions; `first()` and `distinct()`; `str.partition` and what makes joining and splitting inverse; context variables with one-use tokens |
| `SafeFields` | `fields.py`: the two halves of a safe relation, and the two rewrites of names |
| `Ownership` | what each write path does to a table and to instances: `save`, `update`, `bulk_update`, `bulk_create`, `update_or_create` |
| `Instances` | the same as the code does it, on instances, a table and a flag that are changed step by step; every method equals its function in `Ownership` |
| `OwnershipRuns`, `OwnershipLimits` | runs of loads, refreshes, assignments and writes by any number of live instances: the history of a row's organizations, and which saves are refused |
| `WritesLand` | what a write that raises nothing has written, column by column, when exactly a row moves, and when exactly a write raises |
| `LockedWrites` | the two writes that lock before they check, among other sessions |
| `RelationIntegrity` | a source table and a target table with a safe relation between them |
| `NonInterference` | what code with one organization bound can see and change |
| `Paging`, `PrefetchPaths` | `_fetch_all` and the three ways it can read a page |
| `RelatedFilter` | `filter_related_without_join` against the two-column join |
| `Permissions`, `PermissionCache`, `NamedOrganization` | four readings of one permission question; the caches on a user object; asking about a named organization |
| `SiteCache`, `SiteStaleness` | the site-to-organization cache under signals, and under writes that send none |
| `ContextBinding`, `RequestBinding` | re-entrant context managers; the view mixin inside the middleware |
| `Retrievers` | which organization a request belongs to |
| `Isolation` | the layers together: what a caller's memberships do not reach, a request neither changes nor sees |

Classes stand where the library updates something in place: instances and tables, a queryset's result
cache, the sets on a user object, the site cache, context variables with their tokens, views, requests.
Everything else is a function on values, and each method of a class is tied to one.

## What the framework is taken to do

`save` with a key updates the row if it exists and inserts it otherwise, and `update_fields` restricts it to
an update of those columns; assigning a related instance copies both join columns; `bulk_update` is nested
`update` calls, one for each batch, and cannot write a row its queryset does not match; `bulk_create` writes
keyed objects first and hands out keys to the others afterwards; a cascade deletes the dependent rows at
once, then sends one signal for each, then deletes the parent; `dispatch` of the REST framework answers its
own exceptions, refusals among them, with responses, lets the others escape, and lets whatever a project
raises while it handles an exception or finalizes a response escape too; the middleware's
`process_exception` runs as soon as an exception escapes the view, unless a middleware further in has
answered it, and its `__call__` still sees the outcome afterwards; one `filter()` call joins each to-many
relation once, so its lookups across the same relation speak of the same row there.

## Where the obvious claim is false

* **A snapshot is not keyed by primary key.** The history theorem needs that no event brings a known
  instance together with a row it has seen only in other organizations, be it inside the event. That is
  exact: after a run that kept it, one more event keeps it if and only if the event relocates no row without
  an opt-in and leaves no known instance that could do so by going back to its snapshot (`DisciplineIsExact`).
  Assigning the key of an existing row is one way to break it (`ReassignedKeyRelocates`); `update_or_create`
  with another row's key among its defaults is a way that needs no second call (`DefaultsWithAKeyRelocate`).
  The copy idiom with a chosen, free key is not (`CopyUnderAFreeKey`), unless somebody else inserts that key
  in another organization before the copy is saved (`FreeKeyRaceRelocates`). The copy idiom through
  `bulk_create` is: a copy with `pk = None` keeps the snapshot of its original, so after `bulk_create` in
  another organization it can be saved back into the original's (`BulkCreatedCopyRelocates`).
* **A lock holds only rows that exist.** The fallback `save` that found no row moves one that is inserted
  before it writes (`AbsentRowIsRaced`); `OnlyUnseenRowsMove` says that this is the only way.
* **Calls that look up or create are not confined to what is bound.** `get_or_create` and `update_or_create`
  start from every row when a keyword names an organization; their lookups stay inside, in every database,
  exactly when the keywords do not all name one other organization (`LookupsStayInsideIff`, with
  `NamingAnotherOrganizationReads` for what they hand out otherwise). Nor does creating need a keyword to
  leave: `create(article=...)` puts the row where the target is, and defaults of a `get_or_create` that finds
  nothing where they say (`CreatingThroughARelationLeaves`). The new row stays inside exactly when everything
  it is built from, taken together, ends in the bound organization or in none (`CreatingStaysInsideIff`). The
  two conditions together are exact for either call (`GetOrCreateStaysInsideIff`,
  `UpdateOrCreateStaysInsideIff`). A key of the caller's choosing changes nothing, but the answer tells
  whether somebody else holds it (`AssignedKeysTellIff`).
* **`update(article=...)` writes the key alone.** It keeps integrity exactly when every matched row is
  already in the target's organization (`BareUpdateKeepsIntegrityIff`).
* **Page-then-join and page-then-prefetch are not join-then-page** when an inner join drops rows.
  `PagingAgreesIff` and `PrefetchAgreesIff` give the exact conditions, by which candidates are dropped before,
  on and after the page; `DroppedCandidateMovesThePage` gives the pages where all three differ.
* **`filter_related_without_join` is not `filter` across a to-many relation.** The join repeats a row once for
  every child that passes (`JoinRepeatsPerChild`); what the method keeps is the join with each row once
  (`WithoutJoinIsTheDistinctJoin`), and the join itself, in every database, exactly when no lookup crosses a
  to-many relation (`WithoutJoinIsTheJoinIff`). Nor is its one EXISTS for a relation one EXISTS for each
  lookup: they agree in every database exactly when no two lookups set out across the same to-many relation
  (`GroupedIsEachIff`).
  And a lookup on the target's `pk` or `organization` passes both guards, then collides with a keyword of the
  subquery's own correlation: a `TypeError` where `filter` has an answer (`FilterRelatedWithoutJoin`).
* **A stale binding shows.** Asking by key about an organization that no longer exists, while an instance of
  it is still bound, skips the existence query; the answer then differs exactly when a widening grants
  something without a membership (`StaleBindingShowsIff`).
* **Re-pointing a mapping at another site** drops the new site's entry only, and keeps the cache exact
  exactly when the old site had nothing to serve (`RepointingKeepsExactIff`).
* **A bare `set` is put back only while a token is held.** A view hands back the binding it found exactly when
  no `set` was made while it held none, or the last such `set` selected that binding anyway
  (`DispatchRestoresIff`). Setting after an unbind leaks, and so does setting while the caller is being
  authenticated, before the view binds, or while a refusal is turned into a response, when it never did
  (`SettingAfterUnbindingLeaks`, `SettingWhileAuthenticatingLeaks`, `SettingWhileHandlingLeaks`). The
  middleware puts all of them back.
* **After `process_exception`, the middleware has nothing left to put back.** A bare `set` by a middleware
  further in, on the way out of a request whose view let an exception escape, survives the request, unless
  that exception was answered further in (`OrganizationMiddleware.Call` states the binding exactly). Refused
  selections are responses, so requests they end are put back, unless the project's own code raises while the
  response is made (`RefusalsDoNotEscape`).

## Model

| member | source | states |
|---|---|---|
| Isolation.RequestsStayWithinMemberships | vinta_orgs/organization_retrievers.py:59-167 | An account behind header, session and membership retrievers, in any order, running any scoped code: rows beyond its memberships never change, and databases that differ only there answer alike |
| Isolation.ViewsStayWithinMemberships | vinta_orgs/drf.py:111-142 | The same for a view that resolves for itself, whatever the caller names |
| OwnershipRuns.HistoryGrowsOnlyByInsertOrOptIn | vinta_orgs/mixins.py:187-265 | In every run, the set of organizations a row has ever belonged to grows only when that key is inserted or under the opt-in |
| OwnershipRuns.OrganizationIsConstant | vinta_orgs/mixins.py:187-265 | Without opt-in and without a second insert, a row keeps the one organization it has known |
| OwnershipRuns.OptInIff | vinta_orgs/querysets.py:386-542 | Who has opted in: by the call's own argument, or around it, and nobody else |
| OwnershipRuns.EventsDo | vinta_orgs/mixins.py:142-265 | The runs it is about: what each event does to the table and to instances in memory, and to nothing else |
| OwnershipRuns.ObjectsAreTheLiveOnes | vinta_orgs/querysets.py:413-542 | The objects a bulk call takes are the ones in memory, in their order |
| OwnershipRuns.SnapshotsStayInHistory | vinta_orgs/mixins.py:142-185 | The invariant behind both: every known snapshot of a live instance whose key names a row lies in the history of that row |
| OwnershipRuns.StartsFresh | vinta_orgs/mixins.py:142-162 | Where runs start: nothing alive, or instances just loaded or built |
| OwnershipRuns.StepKeepsToHistory | vinta_orgs/querysets.py:386-542 | One step through any write path, whoever holds which key, gives no existing row an organization outside a history that covers the snapshots over rows; `update_or_create` alone must not carry a found row to a key it has not seen |
| OwnershipRuns.StepKeepsSnapshots | vinta_orgs/mixins.py:157-265 | And the snapshots stay covered, when the step brings no known instance together with a row it never saw |
| OwnershipRuns.SaveKeepsToHistory | vinta_orgs/mixins.py:211-265 | `save` moves no row out of its history and records a snapshot inside it |
| OwnershipRuns.BulkUpdateMovesNothing | vinta_orgs/querysets.py:413-453 | A checked `bulk_update` that runs changes the organization of no row |
| OwnershipRuns.CheckedBatchesMoveNothing | vinta_orgs/querysets.py:430-447 | It does so although the nested updates run with the opt-in set, because the objects agree with their rows, batch after batch |
| OwnershipRuns.BulkCreateKeepsToHistory | vinta_orgs/querysets.py:501-542 | `bulk_create` without opt-in keeps existing rows in their history; conflict updates cannot name the organization |
| OwnershipRuns.UpdateOrCreateKeepsToHistory | vinta_orgs/querysets.py:472-484 | `update_or_create` is as safe as the `save` it ends in, whatever its defaults assign, when what they make of the found row is refused or names no row unseen |
| OwnershipLimits.AlienSnapshotRelocates | vinta_orgs/mixins.py:224-232 | Why snapshots have to lie in the history: one that does not relocates the row without any opt-in |
| OwnershipLimits.BrokenDisciplineRelocates | vinta_orgs/mixins.py:211-265 | Any event of any kind that breaks the discipline, after any run, relocates a row without opt-in, by itself or in what can follow |
| OwnershipLimits.DefaultsWithAKeyRelocate | vinta_orgs/querysets.py:472-484 | An `update_or_create` that breaks it from within overwrites the row whose key its defaults assign, organization included |
| OwnershipLimits.DefaultedKeyRelocates | vinta_orgs/querysets.py:472-484 | Any two rows of different organizations suffice: one found, the other's key among the defaults |
| OwnershipLimits.DisciplineIsExact | vinta_orgs/mixins.py:211-265 | After a disciplined run, one more event is disciplined exactly when it relocates nothing without opt-in and no known instance could then do so by going back to its snapshot |
| OwnershipLimits.ChecksSuffice | vinta_orgs/mixins.py:142-162 | What a caller can check before an event: existing rows are assigned, by hand or by defaults, only where they were seen, nobody inserts a key that somebody else waits on, copies speak for themselves |
| OwnershipLimits.CopyUnderAFreeKey | vinta_orgs/mixins.py:211-232 | Giving a known instance a free key nobody else holds, and saving it there in any organization, is within the discipline |
| OwnershipLimits.FreeKeyRaceRelocates | vinta_orgs/mixins.py:211-232 | If somebody inserts that key in another organization first, the copy can relocate the row: for every known instance, free key and organization |
| OwnershipLimits.ReassignedKeyRelocates | vinta_orgs/mixins.py:224-232 | Pointing a known instance at an existing row whose history lacks its snapshot always has a harmful continuation |
| OwnershipLimits.BulkCreatedCopyRelocates | vinta_orgs/querysets.py:526-542 | A copy that keeps its original's snapshot through `bulk_create` can be saved back into the original's organization |
| OwnershipLimits.NeverFalselyRefused | vinta_orgs/mixins.py:157-185 | An instance loaded or saved (which `LoadingAndSavingMakeFaithful` starts from) and never reassigned in memory is never refused, whatever others relocate |
| OwnershipLimits.StepKeepsFaithful | vinta_orgs/mixins.py:164-185 | Its step: a refresh of any subset of fields, a save, or anybody else's write keeps snapshot and organization equal |
| OwnershipLimits.RefusalChangesNothing | vinta_orgs/mixins.py:223-250 | A refused save leaves tables and snapshot as they were |
| OwnershipLimits.PartialSaveBlessesNothing | vinta_orgs/mixins.py:259-265 | After a partial save, the next full save is refused exactly when the organization left the snapshot |
| OwnershipLimits.PartlySavedStrangerReadsTheRow | vinta_orgs/mixins.py:233-250 | Without a snapshot the next full save is refused exactly when the row is in another organization by then |
| WritesLand.SaveMovesIff | vinta_orgs/mixins.py:211-265 | A save moves an existing row exactly when somebody opted in, or the instance is stale and writes back the organization it last saw |
| WritesLand.SaveLands | vinta_orgs/mixins.py:187-265 | A save that raises nothing has written the columns it names, kept the others, touched no other row, and filled in a missing organization |
| WritesLand.MissingOrganizationIsFilledIn | vinta_orgs/mixins.py:200-210 | A missing organization becomes the bound one, or else the default one, in the instance and in the row; it is an error exactly when there is neither |
| WritesLand.SaveRefusedIff | vinta_orgs/mixins.py:211-250 | A save is refused exactly when it would, without opt-in or `force_insert`, write another organization than the snapshot, or than the row where there is no snapshot |
| WritesLand.SaveSucceedsIff | vinta_orgs/mixins.py:187-265 | What is not refused goes through, but for columns that are not there and rows that are missing or in the way; which exception says which |
| WritesLand.RefreshLands | vinta_orgs/mixins.py:164-185 | Exactly the named columns come from the row, the snapshot with the organization, and which error comes when |
| WritesLand.SaveReadsBack | vinta_orgs/mixins.py:142-185 | A full save reads back as the instance, and refreshing it changes nothing |
| WritesLand.UpdateMovesIff | vinta_orgs/querysets.py:386-411 | An update that names an organization is refused exactly without opt-in, and moves every matched row with it; no other update moves any |
| WritesLand.UpdateLands | vinta_orgs/querysets.py:386-411 | Every matched row gets every column the rewritten keywords name, by name or attname, and keeps the others; no other row changes |
| WritesLand.UpdateSucceedsIff | vinta_orgs/querysets.py:386-411 | Short of a refusal, exactly when an update raises nothing; and then nothing is written |
| WritesLand.UpdateOrCreateUpdates | vinta_orgs/querysets.py:472-484 | The row found and the instance handed out have, column by column, what the last default speaking of it assigns, and the rest as it was; other rows stay |
| WritesLand.OnlyAssignedColumnsAreSaved | vinta_orgs/mixins.py:187-193 | A save of defaults names exactly the columns they assign, unless one of them assigns a key or goes through the relation |
| WritesLand.UpdateOrCreateRefusedIff | vinta_orgs/querysets.py:472-484 | Refused exactly when the defaults would take the row out of its organization without opt-in; otherwise it goes through whenever there is an organization |
| WritesLand.UpdateOrCreateInserts | vinta_orgs/querysets.py:472-484 | When nothing is found, exactly the created instance is inserted, or nothing, and when which |
| WritesLand.BulkUpdateRefusedIff | vinta_orgs/querysets.py:427-453 | Refused exactly when it writes the organization, without opt-in, and some object disagrees with its row; the nested updates refuse nothing more |
| WritesLand.NestedUpdateRefusedIff | vinta_orgs/querysets.py:386-411 | A nested update that names the organization is refused unless the opt-in is open around it |
| WritesLand.BulkUpdateSucceedsIff | vinta_orgs/querysets.py:413-453 | What is not refused goes through, but for columns that are not there, objects without a key, and rows left without an organization; which exception says which |
| WritesLand.BulkUpdateLands | vinta_orgs/querysets.py:413-453 | Every object is written, whichever batch it was in, and no other row |
| WritesLand.BulkCreateLands | vinta_orgs/querysets.py:501-542 | Every object is inserted as given under a key of its own that was free; existing rows stay, nothing else is added |
| WritesLand.BulkCreateSettlesConflicts | vinta_orgs/querysets.py:501-542 | Ignoring or updating conflicts: a row that was met is left, or overwritten in the conflict columns; free keys are inserted; the rest stays |
| WritesLand.BulkCreateRefusedIff | vinta_orgs/querysets.py:501-542 | Refused exactly when it would update the organization on conflict without opt-in |
| WritesLand.BulkCreateSucceedsIff | vinta_orgs/querysets.py:501-542 | What is not refused goes through, but for contradictory arguments, objects without an organization, and keys taken or brought twice where conflicts are not provided for |
| WritesLand.FailuresChangeNothing | vinta_orgs/querysets.py:413-542 | A save, `bulk_update` or `bulk_create` that raises has changed no row |
| Instances.Instance.RefreshFromDb | vinta_orgs/mixins.py:164-185 | Fields copied, then the snapshot re-taken only when the organization was among them |
| Instances.Instance.Save | vinta_orgs/mixins.py:187-265 | The method as written computes the specified table, instance and error, on every path |
| Instances.Instance.RefusesRelocation | vinta_orgs/mixins.py:223-250 | Comparison with the snapshot, or with the locked row when there is none |
| Instances.Instance.SetRelated | vinta_orgs/fields.py:68-90 | Assigning copies both columns; clearing clears the key and keeps the organization |
| Instances.QuerySet.Update | vinta_orgs/querysets.py:386-411 | Rewriting, refusal, and the opt-in around the call closed again |
| Instances.QuerySet.BulkUpdate | vinta_orgs/querysets.py:413-453 | Expansion, check of every object against its row, nested updates in batches, flag restored |
| Instances.QuerySet.BulkCreate | vinta_orgs/querysets.py:501-542 | Refusal of conflict updates that name the organization, rows written, keys handed out |
| Instances.QuerySet.UpdateOrCreate | vinta_orgs/querysets.py:472-484 | The opt-in covers the `save` underneath and nothing after it |
| Instances.FlatOfChunks | vinta_orgs/querysets.py:446-453 | Cutting objects into batches loses and reorders nothing |
| Instances.BatchesAreFull | vinta_orgs/querysets.py:446-453 | No batch is empty, and every batch but the last is full |
| LockedWrites.LockedRowsKeepTheirOrganization | vinta_orgs/mixins.py:240-252 | Under any schedule of other sessions, the write after a check changes the organization of no row its read found |
| LockedWrites.OnlyUnseenRowsMove | vinta_orgs/querysets.py:430-447 | It moves an existing row exactly when that row appeared after the read and the batches that still match it leave it elsewhere, the queryset's own filter and later batches included |
| LockedWrites.OneObjectSettles | vinta_orgs/querysets.py:430-447 | With keys that are not repeated, that is where the one object about the row says, if the filter matches it |
| LockedWrites.AbsentRowIsRaced | vinta_orgs/mixins.py:240-252 | And a schedule that does so exists for every row and any two organizations |
| LockedWrites.RunStaysConsistent | vinta_orgs/mixins.py:240-252 | What a session has read under its locks stays true until it commits |
| LockedWrites.IdleIsConsistent | vinta_orgs/mixins.py:240-252 | Where runs start: any table, no session under way |
| LockedWrites.LoneSession | vinta_orgs/querysets.py:427-447 | A session nobody disturbs, for any plan and any order of locking: no row moves, nothing is written on any disagreement, missing rows are inserted as the first object says where a save may, and no lock is left |
| LockedWrites.LoneSaveInserts | vinta_orgs/mixins.py:240-252 | An undisturbed save of an absent row inserts it |
| LockedWrites.StepsInTurn | vinta_orgs/mixins.py:240-252 | What locking, checking and committing read, write and let go of |
| LockedWrites.OutOfTurnChangesNothing | vinta_orgs/mixins.py:240-252 | No step is taken before its turn, or past somebody's lock |
| SafeFields.ExpandSafeRelationFieldNames | vinta_orgs/fields.py:244-279 | The loop computes the specified expansion |
| SafeFields.ExpansionWritesBothHalves | vinta_orgs/fields.py:244-279 | A declared relation is named exactly when both its halves come out, no name is repeated or lost |
| SafeFields.NothingToExpand | vinta_orgs/fields.py:258-265 | A model without safe relations has its names back as they are |
| SafeFields.RewriteSafeRelationKwargs | vinta_orgs/fields.py:282-315 | The popping loop computes the specified renaming |
| SafeFields.RewritingMovesEveryKeyword | vinta_orgs/fields.py:282-315 | For all relations at once: every keyword ends up under its column with its value, a renamed one is gone from where it was, and nothing else appears |
| SafeFields.RewritingKeepsOrganizationNames | vinta_orgs/fields.py:282-315 | No rewrite can hide an organization keyword from the refusal, or forge one |
| RelationIntegrity.RelationsStayIntegral | vinta_orgs/fields.py:68-90 | In every permitted run over both tables, each source row with a key keeps joining to a target of its own organization |
| RelationIntegrity.EventsHappen | vinta_orgs/mixins.py:187-265 | The runs it is about: each event is a step of its own table, and the other stays |
| RelationIntegrity.StartsSound | vinta_orgs/fields.py:68-90 | Where runs start: any targets, no source rows yet |
| RelationIntegrity.SaveKeepsInStep | vinta_orgs/mixins.py:190-232 | A save of an instance in step with its target writes both columns or neither |
| RelationIntegrity.DeclaredNamesWriteBothOrNeither | vinta_orgs/fields.py:244-279 | Naming the relation in `update_fields` writes both columns, and nothing else declared writes either |
| RelationIntegrity.TargetStep | vinta_orgs/mixins.py:211-232 | Targets stay where they are, by the history theorem's step |
| RelationIntegrity.BareUpdateKeepsIntegrityIff | vinta_orgs/querysets.py:386-411 | `update(article=...)` keeps integrity exactly when every matched row is in the target's organization |
| RelationIntegrity.WritingTheKeyAloneBreaks | vinta_orgs/fields.py:251-256 | Saving the key alone after an assignment across organizations breaks it, for every such row and target |
| RelationIntegrity.RelocatedTargetBreaks | vinta_orgs/mixins.py:211-232 | So does moving any target that is pointed at |
| NonInterference.OrganizationsDoNotInterfere | vinta_orgs/managers.py:82-180 | Over whole runs of scoped calls, the bulk ones included, that neither pin a lookup to another organization nor create in one, rows of other organizations never change, and two databases that agree on this organization's rows answer every call alike |
| NonInterference.OwnOpIff | vinta_orgs/managers.py:82-190 | Which calls those are: every read, scoped write, save and assignment, and creating calls by what they would create |
| NonInterference.RunOneMore | vinta_orgs/managers.py:82-190 | The runs it is about: calls in order, each answered from the state it finds |
| NonInterference.StepsAlike | vinta_orgs/querysets.py:104-129 | One call, starting from the queryset its manager builds, gives the same answer and leaves the two databases in agreement |
| NonInterference.StepStaysInside | vinta_orgs/mixins.py:200-232 | One call, `get_or_create`, `update_or_create`, `bulk_create` and `bulk_update` included, touches no row of another organization |
| NonInterference.LookupsAreMine | vinta_orgs/managers.py:82-180 | The manager's scope, and the widening of a lookup that names the bound organization, select within the bound organization's rows |
| NonInterference.LookupsStayInsideIff | vinta_orgs/managers.py:140-168 | Over every database and lookup, the rows found are the bound organization's exactly when the keywords do not all name one other organization |
| NonInterference.CreatingStaysInsideIff | vinta_orgs/managers.py:100-122 | Creating leaves every other organization as it was exactly when the values, relations included, end in the bound organization or in none |
| NonInterference.CreatingThroughARelationLeaves | vinta_orgs/fields.py:282-315 | `create(article=...)` inserts where the target is, and so do defaults of a `get_or_create` that finds nothing, for every target and organization |
| NonInterference.GetOrCreateStaysInsideIff | vinta_orgs/managers.py:140-149 | Both conditions together: exactly when a `get_or_create` neither hands out nor changes a row of another organization, in every database |
| NonInterference.UpdateOrCreateStaysInsideIff | vinta_orgs/managers.py:156-169 | The same of `update_or_create`, over all defaults that leave the key alone |
| NonInterference.AssignedKeysTellIff | vinta_orgs/managers.py:100-122 | Creating under a chosen key overwrites nothing, and two databases answer it alike exactly when both or neither have the key |
| NonInterference.NamingAnotherOrganizationReads | vinta_orgs/managers.py:140-150 | Whatever is bound, a `get_or_create` whose keywords pin another organization hands out the row of it that its lookup matches |
| NonInterference.WhichRowsAManagerStartsFrom | vinta_orgs/managers.py:82-98 | The rows of a queryset for every way of asking: related, unscoped, a named organization, the bound one, none |
| NonInterference.ScopeHoldsOnlyTheBoundOrganization | vinta_orgs/managers.py:140-154 | Unless the lookup names an organization, a scoped queryset holds the bound organization's rows, and with none bound raises or is empty |
| NonInterference.ReadsMean | vinta_orgs/querysets.py:104-129 | What `filter` and `get` answer: the bound organization's rows that the lookup takes, with the target key and organization lead to; and the three exceptions |
| NonInterference.UpdatesMean | vinta_orgs/querysets.py:104-129 | A scoped `update` is the update of exactly the rows found |
| NonInterference.DeletesMean | vinta_orgs/querysets.py:104-129 | A scoped delete removes exactly the rows found |
| NonInterference.InstanceWritesMean | vinta_orgs/managers.py:100-149 | `save`, `create` and a `get_or_create` that finds nothing are the save of the instance in hand, or built, with its outcome |
| NonInterference.GetOrCreateMeans | vinta_orgs/managers.py:140-149 | On what its lookup finds: one row is handed out, several are too many |
| NonInterference.UpdateOrCreateMeans | vinta_orgs/managers.py:156-169 | On what its lookup finds: one row is updated from the defaults, none is created, with the outcome of that write |
| NonInterference.UpsertLookupsMean | vinta_orgs/managers.py:140-169 | Which rows either lookup finds, and exactly when it may not look: a keyword that names an organization, `None` not being one, widens it and has to match |
| NonInterference.BulkCallsMean | vinta_orgs/managers.py:124-187 | `bulk_create` and `bulk_update` through the manager, from the whole table, and assignments in memory |
| NonInterference.KeywordsName | vinta_orgs/mixins.py:135-140 | Which organization the keywords of a new row give it |
| Paging.DeferralPreservesMeaning | vinta_orgs/querysets.py:335-384 | When the join drops no candidate, page-then-join and page-then-prefetch return what join-then-page returns, rows and related values |
| Paging.IntegrityMakesDeferralSafe | vinta_orgs/querysets.py:352-384 | Relation integrity is what makes that so for an inner join |
| Paging.PagingAgreesIff | vinta_orgs/querysets.py:335-350 | Page-then-join agrees exactly when nothing before the page is dropped and either nothing on it is or nothing after it survives; with nothing kept on the page, exactly when the page was empty on purpose or the join ends before it |
| Paging.PrefetchAgreesIff | vinta_orgs/querysets.py:368-384 | Exactly when page-then-prefetch agrees: the page is empty or nothing up to its end is dropped |
| Paging.KeptIff | vinta_orgs/querysets.py:335-384 | Which rows the join drops: exactly, in an inner join, those without a target of their own organization |
| Paging.DroppedCandidateMovesThePage | vinta_orgs/querysets.py:335-384 | Every page of one whose first candidate is dropped and second kept: three readings, three results |
| Paging.PrefetchAttachesTheJoin | vinta_orgs/querysets.py:368-384 | The prefetched target of a row is the one its two columns join to |
| Paging.FirstPageIsAPrefix | vinta_orgs/querysets.py:335-350 | With no assumption at all, a page from the start is a prefix of the join's page |
| Paging.SubqueryIsThePage | vinta_orgs/querysets.py:335-350 | Selecting by membership in the page, in the query's order, is the page |
| Paging.QuerySet.FetchAll | vinta_orgs/querysets.py:352-384 | Which reading fills the result cache, once, and that it cannot be told from join-then-page when nothing is dropped; a query that does not select the relation gets exactly its candidates between the limits, whatever the join would drop |
| Paging.QuerySet.SafeRelationsToDefer | vinta_orgs/querysets.py:305-333 | Only a page, with named relations, defers, and exactly the safe ones |
| Paging.DefersIff | vinta_orgs/querysets.py:305-333 | A page is deferred exactly with the setting on and the safe relation named at the top of `select_related`; which queries select the relation at all |
| PrefetchPaths.PrefetchPaths | vinta_orgs/querysets.py:163-178 | The recursive method computes the specified paths |
| PrefetchPaths.PathsRebuildTheTree | vinta_orgs/querysets.py:163-178 | Splitting the paths at the separator and merging them gives the `select_related` tree back |
| PrefetchPaths.ListsCoverTheNodes | vinta_orgs/querysets.py:163-178 | The prefixes of the paths are exactly the nodes of the tree |
| PrefetchPaths.AllPathsJoin | vinta_orgs/querysets.py:374-374 | The lookups are the component lists joined by the separator |
| RelatedFilter.FilterRelatedWithoutJoin | vinta_orgs/querysets.py:221-303 | The two loops refuse exactly the lookups that do not cross a safe relation, and those that repeat a keyword of the correlation; what they build, evaluated on any database, keeps the rows that pass every grouped EXISTS, one for each relation |
| RelatedFilter.WithoutJoinIsTheDistinctJoin | vinta_orgs/querysets.py:238-303 | For all lookups, across to-many relations of the target too, what it keeps is the two-column join filter with each row once, in order, in every database |
| RelatedFilter.WithoutJoinIsTheJoinIff | vinta_orgs/querysets.py:238-303 | Over any schema, it is the join itself in every database exactly when no lookup crosses a to-many relation |
| RelatedFilter.WithoutJoinIsTheJoin | vinta_orgs/querysets.py:238-303 | For lookups that cross no to-many relation it selects exactly the rows of the two-column join filter, each once, in every database |
| RelatedFilter.GroupedExistsIsEachExists | vinta_orgs/querysets.py:273-303 | One EXISTS for a relation passes the rows that one EXISTS for each lookup passes, when no two lookups share a to-many relation; it rests on unique target keys |
| RelatedFilter.GroupedIsEachIff | vinta_orgs/querysets.py:273-303 | Over any schema, the two agree in every database and for every row exactly when no two lookups set out across the same to-many relation |
| RelatedFilter.JoinRepeatsPerChild | vinta_orgs/querysets.py:221-236 | Across one to-many relation the join lists the row once for each passing child |
| RelatedFilter.GroupingKeepsEveryLookup | vinta_orgs/querysets.py:276-295 | The grouping holds every lookup and nothing else |
| RelatedFilter.HalvesDetermineTheLookup | vinta_orgs/querysets.py:277-277 | Splitting at the first separator is injective |
| RelatedFilter.CrossingLookups | vinta_orgs/querysets.py:276-293 | Which lookups cross a relation: its name, the separator and something after it; the relation on its own does not |
| RelatedFilter.OtherOrganizationsNeverMatch | vinta_orgs/querysets.py:221-236 | A target of another organization, or a null key, never satisfies an EXISTS |
| Permissions.FourReadingsAgree | vinta_orgs/authorization.py:195-278 | For an active user and membership and a well-formed label, the backend, the distinct filter, the row check and the batch walk agree |
| Permissions.FilterKeepsTheHoldersOnce | vinta_orgs/querysets.py:80-101 | The distinct filter is the list of memberships that grant the label, however many paths lead there |
| Permissions.JoinKeepsTheHolders | vinta_orgs/querysets.py:80-101 | One membership survives the OR over two outer joins exactly when it grants the label |
| Permissions.SplittingALabel | vinta_orgs/querysets.py:63-77 | Splitting and labelling are inverse for dot-free app labels |
| Permissions.SplitsIff | vinta_orgs/querysets.py:63-77 | A label is taken apart exactly when something stands on both sides of its first dot, and into those two |
| Permissions.MalformedLabelsAreInNoSet | vinta_orgs/querysets.py:63-77 | A label the filter refuses is in no permission set |
| Permissions.InactiveGrantsNothing | vinta_orgs/auth_backends.py:111-137 | A deactivated membership resolves to nothing |
| Permissions.BackendGrantsIff | vinta_orgs/auth_backends.py:111-192 | A label is resolved for a user in an organization exactly when an active membership of theirs there grants it, directly or through a group |
| Permissions.BatchGrantsIff | vinta_orgs/authorization.py:224-273 | A label is in a row's batch result exactly when the membership is active, its user is active, and the membership grants it |
| Permissions.ResolveMembershipPermissions | vinta_orgs/authorization.py:224-273 | The batch walk resolves each row to its own grants, and to none for an inactive membership or a deactivated user, label by label |
| PermissionCache.AnswerAll | vinta_orgs/auth_backends.py:95-343 | In any interleaving of calls, the per-object and combined entry points included, every answer is the uncached one; each organization is looked up once at most, each source of each family queried once at most |
| PermissionCache.UserObject.Answer | vinta_orgs/auth_backends.py:147-278 | One call, from any cache state: the uncached answer, no cached set changed, entries only added |
| PermissionCache.UserObject.Source | vinta_orgs/auth_backends.py:147-192 | A hit, empty or not, costs nothing and returns the stored set |
| PermissionCache.UserObject.AllOf | vinta_orgs/auth_backends.py:211-249 | The union is a set of its own and leaves the two it is made of alone |
| PermissionCache.UserObject.GetMembership | vinta_orgs/auth_backends.py:111-137 | The active membership, looked up once for each organization |
| PermissionCache.UserObject.GetNamed | vinta_orgs/auth_backends.py:280-343 | The named organization's grants, plus the widenings asked for |
| PermissionCache.NamedAgainstAmbient | vinta_orgs/auth_backends.py:280-343 | Without widenings the named answer is the ambient one, exactly unless the caller is a superuser whose membership does not grant everything |
| PermissionCache.AnswersAreDeserved | vinta_orgs/auth_backends.py:95-343 | Who has a label by which call, in terms of flags, memberships, groups and permissions: for every entry point, source and widening |
| PermissionCache.BatchIsTheNamedAnswer | vinta_orgs/authorization.py:224-273 | The batch walk gives the row of an active membership what its user is answered by name, active user or not |
| PermissionCache.ReachIff | vinta_orgs/auth_backends.py:147-278 | Which cache entries a call may fill, which organization it may look up, and how many queries an entry may cost, case by case |
| NamedOrganization.AskUnderTwoBindings | vinta_orgs/authorization.py:75-137 | The same question under two bindings of existing organizations or none, with any calls before and between, has one answer |
| NamedOrganization.GetOrganizationPermissions | vinta_orgs/authorization.py:100-137 | The function as it runs; the binding afterwards is the one before |
| NamedOrganization.AnswerIsTheNamedOne | vinta_orgs/authorization.py:100-137 | What comes out for each argument: the backend's answer about the instance's or the key's organization, the labels an active membership there grants, and nothing for nothing, an unsaved instance, an empty lazy object and an unknown key |
| NamedOrganization.StaleBindingShowsIff | vinta_orgs/authorization.py:122-134 | When an instance that outlived its row is bound, the answer shows it exactly when a widening grants something |
| SiteCache.CachedIsUncached | vinta_orgs/organization_retrievers.py:24-56 | Every run that re-points no mapping gives, with caching on, the answers it gives with caching off, and leaves the cache exact |
| SiteCache.WriteKeepsExact | vinta_orgs/cache.py:102-132 | Retrievals, saves, deletes and cascades keep every servable entry equal to the direct lookup |
| SiteCache.NothingServableIsExact | vinta_orgs/cache.py:63-78 | Where exactness starts: a cache that is empty, off, or left by another model |
| SiteCache.RepointingKeepsExactIff | vinta_orgs/cache.py:109-112 | Re-pointing a mapping keeps the cache exact exactly when the old site had nothing to serve |
| SiteCache.ServedFitsTheModel | vinta_orgs/cache.py:63-78 | From any cache an earlier deploy left, what is served has the model's columns; other entries are looked up again and replaced |
| SiteCache.RetrievalIsRemembered | vinta_orgs/organization_retrievers.py:36-56 | What a retrieval looked up, "no organization" included, answers the next one until the timeout is over |
| SiteCache.StepsAgree | vinta_orgs/organization_retrievers.py:36-56 | One event answers alike with an exact cache and with none |
| SiteCache.EventsShow | vinta_orgs/cache.py:102-132 | What the next retrieval of any site answers after each kind of event: saved columns and new mappings at once, nothing after deletions, and elsewhere what it answered before |
| SiteCache.AnswersAreTheMapping | vinta_orgs/organization_retrievers.py:24-56 | With an exact cache a site answers with the organization it is mapped to, or with nothing |
| SiteCache.EventsLeave | vinta_orgs/models.py:78-85 | What each event leaves in the tables, row by row: a site goes with its mapping, a mapping with its organization or its site, and nothing else goes |
| SiteCache.RefusedIff | vinta_orgs/cache.py:102-132 | A mapping is refused exactly when it refers to what is not there or to a site that has another one |
| SiteCache.RunOneMore | vinta_orgs/organization_retrievers.py:24-56 | A run goes through its events in order, and answers exactly the retrievals among them, each from the state it finds |
| SiteCache.ServedUntilExpiry | vinta_orgs/cache.py:81-99 | An entry is served up to its expiry and never from it on; what the expiry is |
| SiteCache.OffTouchesNoEntry | vinta_orgs/cache.py:81-132 | With caching off nothing is stored, served or forgotten |
| SiteCache.NoSiteNoEntry | vinta_orgs/organization_retrievers.py:24-56 | A request for a site that does not exist looks nothing up and stores nothing |
| SiteCache.Deployment.PerformAll | vinta_orgs/cache.py:81-132 | The code, event by event, goes through the states and answers of the run |
| SiteCache.Deployment.DeleteMappingRows | vinta_orgs/models.py:78-85 | The cascade in whatever order its signals come: rows gone, each site deleted and forgotten |
| SiteCache.Deployment.GetCachedOrganizationForSite | vinta_orgs/cache.py:81-91 | Off, absent, expired, negative, or dumped under other columns: which of the three results |
| SiteStaleness.BoundedStaleness | vinta_orgs/cache.py:94-99 | Over all schedules, what is served at T was true later than T minus timeout and gap, or within the gap for a request that ran the query |
| SiteStaleness.BoundIsReached | vinta_orgs/organization_retrievers.py:38-56 | The bound is exact: a schedule serves an answer that has been wrong ever since the instant after it |
| SiteStaleness.ScheduleIsTraceable | vinta_orgs/cache.py:94-99 | The invariant: every entry and every pending read goes back to a moment at which it was true |
| SiteStaleness.ActionsMean | vinta_orgs/cache.py:81-132 | What each action does to tables, entries and pending reads, and that a fill stores what was read however the tables stand by then |
| SiteStaleness.RequestsAreServed | vinta_orgs/organization_retrievers.py:36-56 | What a request is served by a hit, a miss and a fill |
| ContextBinding.ExitUndoesItsEnter | vinta_orgs/state.py:132-143 | In every well-nested run each exit pops its own enter's unused token and leaves the binding and all stacks as before that enter |
| ContextBinding.RunsAreConsistent | vinta_orgs/state.py:110-143 | At every moment each object's stack is the projection of the open enters, and no token has been used twice |
| ContextBinding.OpeningAndSettingNest | vinta_orgs/state.py:132-143 | Which runs are well-nested: every set and enter goes on with one, and an exit of the object entered last |
| ContextBinding.Execute | vinta_orgs/state.py:110-143 | Blocks over shared objects, entered recursively, with bare binds and exceptions: a block does nothing to the binding, and every stack comes back |
| ContextBinding.MeaningOfOne | vinta_orgs/state.py:110-143 | What one statement does: a bare bind binds, an exception stops, a block passes on only whether its body raised under its own organization |
| ContextBinding.MeaningInSequence | vinta_orgs/state.py:110-143 | What programs do one after the other: the second runs from what the first left bound, unless that raised |
| ContextBinding.EventsMean | vinta_orgs/state.py:90-143 | One event: which token is issued, pushed, popped and reset, what is bound then, and exactly when an exit fails |
| ContextBinding.UnmatchedExitFails | vinta_orgs/state.py:136-143 | An exit without an open enter of the same object fails and unbinds nothing |
| ContextBinding.OrganizationContext.Exit | vinta_orgs/state.py:136-143 | Pops the newest token and restores what it remembers |
| ContextBinding.SelectedIsRead | vinta_orgs/state.py:51-100 | An organization is read exactly when it was selected, directly, through a lazy object, or by a slug that it has |
| RequestBinding.View.Dispatch | vinta_orgs/drf.py:214-235 | On every path, exception handling and response finalizing included, all tokens are spent, the binding is what lay underneath, exactly the exceptions without an answer escape, and calm checks saw the organization the handler starts under |
| RequestBinding.DispatchRestoresIff | vinta_orgs/drf.py:144-235 | A view hands back the binding it found exactly when no set was made while it held no token, in any of the five stretches of code that ran, or the last such set selected that binding |
| RequestBinding.FirstExceptionDecides | vinta_orgs/drf.py:214-235 | Whether a stretch of code ends in a response or lets an exception escape is decided by its first exception |
| RequestBinding.DispatchRestores | vinta_orgs/drf.py:144-235 | Any sequence of binds and unbinds through the view is put back |
| RequestBinding.SettingAfterUnbindingLeaks | vinta_orgs/drf.py:160-175 | A bare set after an unbind is what the view leaves behind |
| RequestBinding.SettingWhileAuthenticatingLeaks | vinta_orgs/drf.py:214-235 | So is a bare set during authentication, whatever the view binds and unbinds afterwards |
| RequestBinding.SettingWhileHandlingLeaks | vinta_orgs/drf.py:214-235 | And one by the project's exception handler, when the selection was refused |
| RequestBinding.RefusalsDoNotEscape | vinta_orgs/drf.py:111-142 | A dispatch whose selection is refused lets an exception escape only if authentication did before, or the project's own code raises while the response is made |
| RequestBinding.View.BindOrganization | vinta_orgs/drf.py:144-158 | Binding again releases the previous binding first and keeps what lies underneath |
| RequestBinding.View.UnbindOrganization | vinta_orgs/drf.py:160-175 | A no-op when nothing is held; the token is spent once |
| RequestBinding.OrganizationMiddleware.Call | vinta_orgs/middleware.py:96-130 | The view starts with what the request resolves to, unless something further in set otherwise; and around any view and any sets inside it, the binding after the request, exactly: it is the one before if and only if nothing escaped to this middleware, nothing was set on the way out, or the last set selected that binding |
| RequestBinding.OrganizationMiddleware.UnbindOrganization | vinta_orgs/middleware.py:112-119 | Both hooks may run; the token is used once |
| Retrievers.ResolutionTable | vinta_orgs/services.py:248-304 | Exactly when each organization, each refusal, or nothing comes out |
| Retrievers.MatchIsVerified | vinta_orgs/organization_retrievers.py:59-167 | For any list of retrievers in any order, an account gets an organization it belongs to or the one the host names |
| Retrievers.ReadThroughout | vinta_orgs/middleware.py:53-89 | However the database changes during a request, the first answer stands, and it is a membership, the host's, or the earlier binding |
| Retrievers.SessionBringsBack | vinta_orgs/middleware.py:67-79 | What one request stores in the session, the session retriever of the next reads back |
| Retrievers.FirstMatchDecides | vinta_orgs/middleware.py:63-89 | The outcome is that of the first retriever that does not pass, and nothing exactly when all pass |
| Retrievers.NamingTable | vinta_orgs/organization_retrievers.py:102-141 | What a slug selects: exactly when an organization, a refusal, or an error comes out of a header, and how the session differs |
| Retrievers.UnnamedTable | vinta_orgs/organization_retrievers.py:144-167 | The host's answer is taken as it is; the membership retriever answers exactly the caller's only organization and is at a loss exactly between several |
| Retrievers.NobodyMeansBefore | vinta_orgs/middleware.py:63-89 | A request nobody recognizes has the organization bound before it and leaves the session alone; otherwise the first retriever that does not pass decides |
| Retrievers.SessionChangesIff | vinta_orgs/middleware.py:67-79 | The session is written exactly when asked for and the slug differs, and with which slug |
| Retrievers.Request.RetrieveOrganization | vinta_orgs/middleware.py:63-89 | First match, one session write on a change only, and the fallback |
| Retrievers.Request.GetOrganization | vinta_orgs/middleware.py:53-60 | An answer is kept for the request; a refusal is not |

## Left out

- Rows: one safe relation and one other column stand for a model's columns; deferred columns, several databases, multi-table inheritance, constraints other than the primary key, and rollback after a recorded snapshot are not modelled. A `pk` among `update` keywords is not modelled either.
- OwnershipRuns.HistoryGrowsOnlyByInsertOrOptIn: holds for runs that keep the discipline on meetings of known instances and rows, which `OwnershipLimits` shows to be exact.
- RelationIntegrity.RelationsStayIntegral: assumes relation writes by instances in step with their rows or by `None`, full refreshes, declared names, no opt-in and no deletion of targets; the lemmas after it show what each of the first and last protects from.
- NonInterference.OrganizationsDoNotInterfere: runs of filter, get, `get_or_create`, `update_or_create`, `create`, `bulk_create`, `bulk_update`, assignment, `save`, `update` and delete without cascades, keys taken from one supply. Calls whose lookup or new row is another organization's are excluded, exactly where they have to be (`GetOrCreateStaysInsideIff`, `UpdateOrCreateStaysInsideIff`, `CreatingStaysInsideIff`); keys of the caller's choosing are excluded because of `AssignedKeysTellIff` and `DefaultedKeyRelocates`; objects that come back from `bulk_create`, which carry no snapshot, are not used further; `force_insert` and unscoped managers are not among its calls.
- WritesLand.BulkUpdateLands: objects with a key each, no key twice; with repeated keys the first object of a batch and the last batch win.
- LockedWrites.LockedRowsKeepTheirOrganization: row locks block other writers of the same row; isolation levels are not modelled.
- Paging.QuerySet.FetchAll: the second query of a prefetch reads the database the first one read; there is one safe relation, and a bare `select_related()` follows it unless its key may be null.
- RelatedFilter.WithoutJoinIsTheDistinctJoin: positive lookups that end at a row of the target or of its to-many relations; `isnull` across a to-many relation, which joins outwards, is not modelled. Steps along foreign keys are part of the hop or the test that follows them.
- PermissionCache.AnswerAll: the database and the user's flags are fixed; the superuser bypass of `get_organization_permissions`, which is never cached, is outside the query logs.
- NamedOrganization.GetOrganizationPermissions: a `None` user, answered like an anonymous one, and spellings of a key other than the key itself are not modelled.
- Permissions.ResolveMembershipPermissions: the sorting of each list.
- SiteCache.CachedIsUncached: sequential, with settings and columns fixed for the run; `RequestSite` without a row, and Django's own cache of `Site` objects, are not part of this model.
- ContextBinding.ExitUndoesItsEnter: one thread; one context object interleaved across async tasks, and a lazy organization that raises while it is resolved inside `__enter__`, are not modelled. Bare tokens are not reset by the body.
- RequestBinding.OrganizationMiddleware.Call: exits other than `Exception`, responses that stream after the middleware has returned, and a project's own `EXCEPTION_HANDLER` that lets refusals escape; which other exceptions are answered is part of the plan.
- Retrievers.ReadThroughout: `MultipleObjectsReturned` for shared slugs, and callers without an account, which verification lets through by design.
- The order of a user's memberships, oldest first, decides nothing in `resolve_for_user`: a slug matches one at most, and two candidates are refused or dropped.
- Moving a mapping to another organization takes the opt-in of `Ownership`; the site cache lets it happen freely.
- `unscoped_default_manager`, `none`, `exclude_by_organization` and the default organization's lookup: plain choices, the last one a parameter here.
- SQL text and plans (`FencedExists`), indexes, system checks, admin, serializers, URLs, migrations, settings lookup, model swapping, async wrappers, seeding, `create` and `update` of the services.
- `MultipleOrganizationsModelMixin` and `vinta_orgs_custom_data`, which would add members without adding anything hard.
