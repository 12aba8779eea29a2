/** `cache.py` and `retrieve_by_domain`: a cache kept right by signals, and the plain lookup it stands for. */
module SiteCache {
  import opened Outcomes
  import opened Rows

  type SiteId = nat
  type OrgId = nat

  /** An organization as its columns, the key among them. */
  type Columns = map<string, string>

  datatype Mapping = Mapping(site: SiteId, org: OrgId)

  datatype Stored = NoOrganization | Dumped(values: Columns)

  datatype Entry = Entry(value: Stored, expiry: Option<nat>)

  /** `timeout` of `None` never expires; `fields` are the columns of the deployed model. */
  datatype Settings = Settings(enabled: bool, timeout: Option<nat>, fields: set<string>)

  datatype State = State(
    orgs: map<OrgId, Columns>,
    mappings: map<Pk, Mapping>,
    sites: set<SiteId>,
    cache: map<SiteId, Entry>,
    now: nat)

  /** Foreign keys resolve, a site has one mapping, and rows have the model's columns. Nothing is said
      about the cache: it may hold what an earlier deploy left there. */
  ghost predicate Valid(settings: Settings, st: State) {
    && (forall m :: m in st.mappings ==> st.mappings[m].org in st.orgs && st.mappings[m].site in st.sites)
    && (forall m, n | m in st.mappings && n in st.mappings :: st.mappings[m].site == st.mappings[n].site ==> m == n)
    && (forall o :: o in st.orgs ==> st.orgs[o].Keys == settings.fields)
  }

  // ---------------------------------------------------------------------- the lookup

  function MappingsAt(st: State, site: SiteId): set<Pk> { set m | m in st.mappings && st.mappings[m].site == site }

  /** The query `retrieve_by_domain` runs when there is no cache. */
  function Direct(st: State, site: SiteId): Option<Columns> {
    if MappingsAt(st, site) == {} then None
    else
      var org := st.mappings[Least(MappingsAt(st, site))].org;
      if org in st.orgs then Some(st.orgs[org]) else None
  }

  // ----------------------------------------------------------------------- the cache

  function Dump(answer: Option<Columns>): Stored { if answer.None? then NoOrganization else Dumped(answer.value) }

  /** `_load`: a column list that is not the model's is a miss. */
  function Load(settings: Settings, values: Columns): Option<Columns> {
    if values.Keys == settings.fields then Some(values) else None
  }

  datatype Hit = Miss | Nothing | Found(values: Columns)

  function GetCached(settings: Settings, st: State, site: SiteId): Hit {
    if !settings.enabled || site !in st.cache then Miss
    else
      var entry := st.cache[site];
      if entry.expiry.Some? && entry.expiry.value <= st.now then Miss
      else if entry.value.NoOrganization? then Nothing
      else if Load(settings, entry.value.values).None? then Miss
      else Found(entry.value.values)
  }

  function SetCached(settings: Settings, st: State, site: SiteId, answer: Option<Columns>): State {
    if !settings.enabled then st
    else
      var expiry := if settings.timeout.None? then None else Some(st.now + settings.timeout.value);
      st.(cache := st.cache[site := Entry(Dump(answer), expiry)])
  }

  function Forget(settings: Settings, st: State, sites: set<SiteId>): State {
    if settings.enabled then st.(cache := st.cache - sites) else st
  }

  /** `retrieve_by_domain` for the current site; `None` is `Site.DoesNotExist`. */
  function Retrieve(settings: Settings, st: State, site: SiteId): (State, Option<Columns>) {
    if site !in st.sites then (st, None)
    else
      var hit := GetCached(settings, st, site);
      if hit.Nothing? then (st, None)
      else if hit.Found? then (st, Some(hit.values))
      else (SetCached(settings, st, site, Direct(st, site)), Direct(st, site))
  }

  // ------------------------------------------------------------------------- writes

  datatype Event =
    | RetrieveByDomain(site: SiteId)
    | SaveOrganization(org: OrgId, values: Columns)
    | DeleteOrganization(org: OrgId)
    | CreateSite(site: SiteId)
    | SaveMapping(pk: Pk, to: Mapping)
    | DeleteMapping(pk: Pk)
    | DeleteSite(site: SiteId)
    | Tick(elapsed: nat)

  function PksOf(st: State, org: OrgId): set<Pk> { set m | m in st.mappings && st.mappings[m].org == org }

  function SitesOf(st: State, pks: set<Pk>): set<SiteId> { set m | m in pks && m in st.mappings :: st.mappings[m].site }

  /** The mapping rows go, then each one's signals: its site is deleted, its entry forgotten. */
  function DeleteMappings(settings: Settings, st: State, pks: set<Pk>): State {
    var sites := SitesOf(st, pks);
    Forget(settings, st.(mappings := st.mappings - pks, sites := st.sites - sites), sites)
  }

  /** The database's refusals: unknown references, and a site that is already mapped. */
  predicate Refused(st: State, pk: Pk, to: Mapping) {
    to.org !in st.orgs || to.site !in st.sites || MappingsAt(st, to.site) - {pk} != {}
  }

  function Write(settings: Settings, st: State, event: Event): State {
    match event
    case RetrieveByDomain(site) => Retrieve(settings, st, site).0
    case SaveOrganization(org, values) =>
      Forget(settings, st.(orgs := st.orgs[org := values]), SitesOf(st, PksOf(st, org)))
    case DeleteOrganization(org) =>
      var cascaded := DeleteMappings(settings, st, PksOf(st, org));
      cascaded.(orgs := cascaded.orgs - {org})
    case CreateSite(site) => st.(sites := st.sites + {site})
    case SaveMapping(pk, to) =>
      if Refused(st, pk, to) then st else Forget(settings, st.(mappings := st.mappings[pk := to]), {to.site})
    case DeleteMapping(pk) => DeleteMappings(settings, st, {pk})
    case DeleteSite(site) =>
      var cascaded := DeleteMappings(settings, st, MappingsAt(st, site));
      cascaded.(sites := cascaded.sites - {site})
    case Tick(elapsed) => st.(now := st.now + elapsed)
  }

  function Answer(settings: Settings, st: State, event: Event): seq<Option<Columns>> {
    if event.RetrieveByDomain? then [Retrieve(settings, st, event.site).1] else []
  }

  /** What a sequential run answers, and where it ends. */
  function Run(settings: Settings, st: State, events: seq<Event>): (State, seq<Option<Columns>>)
    decreases |events|
  {
    if events == [] then (st, [])
    else
      var rest := Run(settings, Write(settings, st, events[0]), events[1..]);
      (rest.0, Answer(settings, st, events[0]) + rest.1)
  }

  /** Saving an existing mapping with another site. Only the new site's entry is dropped. */
  predicate Repoints(st: State, event: Event) {
    event.SaveMapping? && !Refused(st, event.pk, event.to) && event.pk in st.mappings && st.mappings[event.pk].site != event.to.site
  }

  /** Organizations are saved as instances of the model, with its columns. */
  predicate IsInstance(settings: Settings, event: Event) {
    event.SaveOrganization? ==> event.values.Keys == settings.fields
  }

  ghost predicate Orderly(settings: Settings, st: State, events: seq<Event>)
    decreases |events|
  {
    events == [] || (IsInstance(settings, events[0]) && !Repoints(st, events[0])
                     && Orderly(settings, Write(settings, st, events[0]), events[1..]))
  }

  // ---------------------------------------------------------------------- exactness

  predicate ExactAt(settings: Settings, st: State, site: SiteId) {
    var hit := GetCached(settings, st, site);
    hit.Miss? || hit == (if Direct(st, site).None? then Nothing else Found(Direct(st, site).value))
  }

  /** Every entry that can be served is the dump of what the lookup would return. */
  ghost predicate Exact(settings: Settings, st: State) {
    forall s :: ExactAt(settings, st, s)
  }

  /** A cache that is empty, or off, or holds only what another model left, is exact. */
  lemma NothingServableIsExact(settings: Settings, st: State)
    requires !settings.enabled || forall s :: s in st.cache ==> st.cache[s].value.Dumped? && st.cache[s].value.values.Keys != settings.fields
    ensures Exact(settings, st)
  {
  }

  lemma LookupIsTheMapping(settings: Settings, st: State, m: Pk)
    requires Valid(settings, st) && m in st.mappings
    ensures MappingsAt(st, st.mappings[m].site) == {m}
    ensures Direct(st, st.mappings[m].site) == Some(st.orgs[st.mappings[m].org])
  {
    assert m in MappingsAt(st, st.mappings[m].site);
    assert forall n :: n in MappingsAt(st, st.mappings[m].site) ==> n == m;
    assert MappingsAt(st, st.mappings[m].site) == {m};
  }

  /** The lookup of a site reads its mapping and that mapping's organization, nothing else. */
  lemma LookupDependsOn(st: State, after: State, site: SiteId)
    requires forall m :: m in st.mappings && st.mappings[m].site == site <==> m in after.mappings && after.mappings[m].site == site
    requires forall m :: m in st.mappings && st.mappings[m].site == site ==>
      after.mappings[m] == st.mappings[m] && (st.mappings[m].org in st.orgs <==> st.mappings[m].org in after.orgs)
      && (st.mappings[m].org in st.orgs ==> after.orgs[st.mappings[m].org] == st.orgs[st.mappings[m].org])
    ensures Direct(after, site) == Direct(st, site)
  {
    assert MappingsAt(after, site) == MappingsAt(st, site);
  }

  lemma WriteKeepsValid(settings: Settings, st: State, event: Event)
    requires Valid(settings, st) && IsInstance(settings, event)
    ensures Valid(settings, Write(settings, st, event))
  {
    if event.SaveMapping? && !Refused(st, event.pk, event.to) {
      assert forall m :: m in st.mappings && st.mappings[m].site == event.to.site ==> m in MappingsAt(st, event.to.site);
      assert forall m :: m in st.mappings && st.mappings[m].site == event.to.site ==> m == event.pk by {
        forall m | m in st.mappings && st.mappings[m].site == event.to.site ensures m == event.pk {
          assert m in MappingsAt(st, event.to.site) - {event.pk} || m == event.pk;
        }
      }
    } else if event.DeleteOrganization? {
      DeletingKeepsSites(settings, st, PksOf(st, event.org));
    } else if event.DeleteMapping? {
      DeletingKeepsSites(settings, st, {event.pk});
    } else if event.DeleteSite? {
      DeletingKeepsSites(settings, st, MappingsAt(st, event.site));
    }
  }

  /** The sites deleted with their mappings are nobody else's. */
  lemma DeletingKeepsSites(settings: Settings, st: State, pks: set<Pk>)
    requires Valid(settings, st)
    ensures Valid(settings, DeleteMappings(settings, st, pks))
  {
    var after := DeleteMappings(settings, st, pks);
    assert forall m, n :: m in after.mappings && n in pks && n in st.mappings ==> st.mappings[n].site != st.mappings[m].site;
  }

  /** Each write keeps the cache exact: whatever changes the lookup of a site forgets that site. */
  lemma WriteKeepsExact(settings: Settings, st: State, event: Event)
    requires Valid(settings, st) && Exact(settings, st) && !Repoints(st, event)
    ensures Exact(settings, Write(settings, st, event))
  {
    forall s ensures ExactAt(settings, Write(settings, st, event), s) {
      assert ExactAt(settings, st, s);
      WriteKeepsExactAt(settings, st, event, s);
    }
  }

  lemma WriteKeepsExactAt(settings: Settings, st: State, event: Event, s: SiteId)
    requires Valid(settings, st) && ExactAt(settings, st, s) && !Repoints(st, event)
    ensures ExactAt(settings, Write(settings, st, event), s)
  {
    match event {
      case RetrieveByDomain(site) => RetrievingKeepsExact(settings, st, site, s);
      case SaveOrganization(org, values) => SavingOrganizationKeepsExact(settings, st, org, values, s);
      case DeleteOrganization(org) => DeletingKeepsExact(settings, st, PksOf(st, org), Write(settings, st, event), s);
      case CreateSite(site) => LookupDependsOn(st, Write(settings, st, event), s);
      case SaveMapping(pk, to) => SavingMappingKeepsExact(settings, st, pk, to, s);
      case DeleteMapping(pk) => DeletingKeepsExact(settings, st, {pk}, Write(settings, st, event), s);
      case DeleteSite(site) => DeletingKeepsExact(settings, st, MappingsAt(st, site), Write(settings, st, event), s);
      case Tick(_) => LookupDependsOn(st, Write(settings, st, event), s);
    }
  }

  lemma RetrievingKeepsExact(settings: Settings, st: State, site: SiteId, s: SiteId)
    requires Valid(settings, st) && ExactAt(settings, st, s)
    ensures ExactAt(settings, Retrieve(settings, st, site).0, s)
  {
    LookupDependsOn(st, Retrieve(settings, st, site).0, s);
    if MappingsAt(st, site) != {} {
      LookupIsTheMapping(settings, st, Least(MappingsAt(st, site)));
    }
  }

  lemma SavingOrganizationKeepsExact(settings: Settings, st: State, org: OrgId, values: Columns, s: SiteId)
    requires Valid(settings, st) && ExactAt(settings, st, s)
    ensures ExactAt(settings, Write(settings, st, SaveOrganization(org, values)), s)
  {
    if settings.enabled && s !in SitesOf(st, PksOf(st, org)) {
      assert forall m :: m in st.mappings && st.mappings[m].org == org ==> m in PksOf(st, org);
      LookupDependsOn(st, Write(settings, st, SaveOrganization(org, values)), s);
    }
  }

  lemma SavingMappingKeepsExact(settings: Settings, st: State, pk: Pk, to: Mapping, s: SiteId)
    requires Valid(settings, st) && ExactAt(settings, st, s) && !Repoints(st, SaveMapping(pk, to))
    ensures ExactAt(settings, Write(settings, st, SaveMapping(pk, to)), s)
  {
    if settings.enabled && s != to.site {
      LookupDependsOn(st, Write(settings, st, SaveMapping(pk, to)), s);
    }
  }

  lemma DeletingKeepsExact(settings: Settings, st: State, pks: set<Pk>, after: State, s: SiteId)
    requires Valid(settings, st) && ExactAt(settings, st, s)
    requires after.mappings == st.mappings - pks && after.now == st.now
    requires after.cache == DeleteMappings(settings, st, pks).cache
    requires forall m :: m in after.mappings ==>
      st.mappings[m].org in after.orgs && st.orgs[st.mappings[m].org] == after.orgs[st.mappings[m].org]
    ensures ExactAt(settings, after, s)
  {
    if settings.enabled && s !in SitesOf(st, pks) {
      assert forall m :: m in st.mappings && m in pks ==> st.mappings[m].site in SitesOf(st, pks);
      LookupDependsOn(st, after, s);
    }
  }

  /** Whatever an earlier deploy left in the cache, exact or not, what is served has the columns of the
      model; an entry with other columns is looked up again and replaced. */
  lemma ServedFitsTheModel(settings: Settings, st: State, site: SiteId)
    requires Valid(settings, st)
    ensures var (after, answer) := Retrieve(settings, st, site);
            && (answer.Some? ==> answer.value.Keys == settings.fields)
            && (site in st.sites && site in st.cache && st.cache[site].value.Dumped?
                && st.cache[site].value.values.Keys != settings.fields ==>
                  answer == Direct(st, site) && (settings.enabled ==> after.cache[site].value == Dump(answer)))
  {
    if MappingsAt(st, site) != {} {
      LookupIsTheMapping(settings, st, Least(MappingsAt(st, site)));
    }
  }

  /** What a retrieval had to look up it stores, "no organization" included: until the timeout is over
      the next one is a hit, with the same answer and nothing to store. */
  lemma RetrievalIsRemembered(settings: Settings, st: State, site: SiteId, elapsed: nat)
    requires Valid(settings, st) && settings.enabled && site in st.sites && GetCached(settings, st, site).Miss?
    requires settings.timeout.Some? ==> elapsed < settings.timeout.value
    ensures
      var later := Write(settings, Retrieve(settings, st, site).0, Tick(elapsed));
      && GetCached(settings, later, site) == (if Direct(st, site).None? then Nothing else Found(Direct(st, site).value))
      && Retrieve(settings, later, site) == (later, Direct(st, site))
  {
    if MappingsAt(st, site) != {} {
      LookupIsTheMapping(settings, st, Least(MappingsAt(st, site)));
    }
  }

  /** And from then on it is looked up again: whatever is stored, an entry is served before its expiry and
      not from it on, and one without expiry always. */
  lemma ServedUntilExpiry(settings: Settings, st: State, site: SiteId)
    requires settings.enabled && site in st.cache
    requires st.cache[site].value.Dumped? ==> st.cache[site].value.values.Keys == settings.fields
    ensures GetCached(settings, st, site).Miss? <==> st.cache[site].expiry.Some? && st.cache[site].expiry.value <= st.now
    ensures settings.timeout.Some? ==>
              var stored := SetCached(settings, st, site, None);
              stored.cache[site].expiry == Some(st.now + settings.timeout.value)
    ensures settings.timeout.None? ==> SetCached(settings, st, site, None).cache[site].expiry == None
  {
  }

  /** With caching off nothing is stored, served or forgotten. */
  lemma OffTouchesNoEntry(settings: Settings, st: State, event: Event, site: SiteId)
    requires !settings.enabled
    ensures Write(settings, st, event).cache == st.cache
    ensures Retrieve(settings, st, site) == (st, if site in st.sites then Direct(st, site) else None)
  {
  }

  /** A request for a site that is not there looks nothing up and stores nothing. */
  lemma NoSiteNoEntry(settings: Settings, st: State, site: SiteId)
    requires site !in st.sites
    ensures Retrieve(settings, st, site) == (st, None)
  {
  }

  ghost predicate SameTables(a: State, b: State) { a.orgs == b.orgs && a.mappings == b.mappings && a.sites == b.sites }

  /** The uncached deployment goes through the same tables and gives the same answer. */
  lemma StepsAgree(settings: Settings, cached: State, plain: State, event: Event)
    requires Valid(settings, cached) && Exact(settings, cached) && SameTables(cached, plain)
    ensures Answer(settings, cached, event) == Answer(settings.(enabled := false), plain, event)
    ensures SameTables(Write(settings, cached, event), Write(settings.(enabled := false), plain, event))
    ensures Repoints(cached, event) <==> Repoints(plain, event)
  {
    assert forall s :: MappingsAt(cached, s) == MappingsAt(plain, s) && Direct(cached, s) == Direct(plain, s);
    assert forall o :: PksOf(cached, o) == PksOf(plain, o);
    assert forall pks :: SitesOf(cached, pks) == SitesOf(plain, pks);
    if event.RetrieveByDomain? {
      assert ExactAt(settings, cached, event.site);
    }
  }

  /** With caching on, every orderly run answers what it answers with caching off, and leaves an exact
      cache behind, whatever unreadable entries it started with. */
  lemma {:induction false} CachedIsUncached(settings: Settings, cached: State, plain: State, events: seq<Event>)
    requires Valid(settings, cached) && Exact(settings, cached) && SameTables(cached, plain)
    requires Orderly(settings, cached, events)
    ensures Run(settings, cached, events).1 == Run(settings.(enabled := false), plain, events).1
    ensures SameTables(Run(settings, cached, events).0, Run(settings.(enabled := false), plain, events).0)
    ensures Exact(settings, Run(settings, cached, events).0)
    decreases |events|
  {
    if events != [] {
      StepsAgree(settings, cached, plain, events[0]);
      WriteKeepsValid(settings, cached, events[0]);
      WriteKeepsExact(settings, cached, events[0]);
      CachedIsUncached(settings, Write(settings, cached, events[0]),
        Write(settings.(enabled := false), plain, events[0]), events[1..]);
    }
  }

  /** Re-pointing a mapping keeps the cache exact exactly when the old site had nothing to serve. */
  lemma RepointingKeepsExactIff(settings: Settings, st: State, pk: Pk, to: Mapping)
    requires Valid(settings, st) && Exact(settings, st) && Repoints(st, SaveMapping(pk, to))
    ensures Exact(settings, Write(settings, st, SaveMapping(pk, to))) <==> GetCached(settings, st, st.mappings[pk].site).Miss?
  {
    var before := st.mappings[pk].site;
    var after := Write(settings, st, SaveMapping(pk, to));
    LookupIsTheMapping(settings, st, pk);
    assert ExactAt(settings, st, before);
    assert MappingsAt(after, before) == {} by {
      assert forall m :: m in MappingsAt(after, before) ==> m in MappingsAt(st, before);
    }
    assert GetCached(settings, after, before) == GetCached(settings, st, before);
    if GetCached(settings, st, before).Miss? {
      forall s ensures ExactAt(settings, after, s) {
        assert ExactAt(settings, st, s);
        if s != before && s != to.site {
          LookupDependsOn(st, after, s);
        }
      }
    } else {
      assert !ExactAt(settings, after, before);
    }
  }

  // ------------------------------------------------------- what each event does to the answers

  /** What a retrieval answers at the moment. */
  function Answered(settings: Settings, st: State, site: SiteId): Option<Columns> { Retrieve(settings, st, site).1 }

  /** With an exact cache, or with none, a site answers with the organization it is mapped to, and with
      nothing when it is gone or has no mapping. */
  lemma AnswersAreTheMapping(settings: Settings, st: State, site: SiteId)
    requires Valid(settings, st) && ExactAt(settings, st, site)
    ensures Answered(settings, st, site) == Direct(st, site)
    ensures forall m :: m in st.mappings && st.mappings[m].site == site ==>
              Answered(settings, st, site) == Some(st.orgs[st.mappings[m].org])
    ensures (forall m :: m in st.mappings ==> st.mappings[m].site != site) ==> Answered(settings, st, site) == None
  {
    forall m | m in st.mappings && st.mappings[m].site == site
      ensures Direct(st, site) == Some(st.orgs[st.mappings[m].org])
    {
      LookupIsTheMapping(settings, st, m);
    }
    if MappingsAt(st, site) != {} {
      var m := Least(MappingsAt(st, site));
      assert m in st.mappings && st.mappings[m].site == site;
    }
  }

  ghost predicate MapsTo(st: State, site: SiteId, org: OrgId) {
    exists m :: m in st.mappings && st.mappings[m].site == site && st.mappings[m].org == org
  }

  /** What the next retrieval of a site answers, by what happened: the saved columns, the organization it
      was just mapped to, nothing where organization, mapping or site are gone, and elsewhere what it
      answered before. */
  function AnswerAfter(settings: Settings, st: State, event: Event, site: SiteId, mapped: bool): Option<Columns> {
    var was := Answered(settings, st, site);
    match event
    case SaveOrganization(_, values) => if mapped then Some(values) else was
    case DeleteOrganization(_) => if mapped then None else was
    case SaveMapping(pk, to) =>
      if !Refused(st, pk, to) && site == to.site && to.org in st.orgs then Some(st.orgs[to.org]) else was
    case DeleteMapping(pk) => if pk in st.mappings && st.mappings[pk].site == site then None else was
    case DeleteSite(gone) => if site == gone then None else was
    case _ => was
  }

  /** Every event shows at once, cache or no cache, wherever it should and nowhere else. */
  lemma EventsShow(settings: Settings, st: State, event: Event, site: SiteId)
    requires Valid(settings, st) && Exact(settings, st) && IsInstance(settings, event) && !Repoints(st, event)
    ensures
      var mapped := if event.SaveOrganization? || event.DeleteOrganization? then MapsTo(st, site, event.org) else false;
      Answered(settings, Write(settings, st, event), site) == AnswerAfter(settings, st, event, site, mapped)
  {
    hide Exact, ExactAt, Valid, Answered, Direct, Write, Refused, MapsTo;
    ExactEverywhere(settings, st, site);
    WriteKeepsValid(settings, st, event);
    WriteKeepsExactAt(settings, st, event, site);
    AnswersAreTheMapping(settings, st, site);
    AnswersAreTheMapping(settings, Write(settings, st, event), site);
    match event
    case SaveOrganization(org, values) => SavedColumnsAreFound(settings, st, org, values, site);
    case SaveMapping(pk, to) => SavedMappingIsFound(settings, st, pk, to, site);
    case DeleteOrganization(org) => DeletedIsNotFound(settings, st, event, PksOf(st, org), site);
    case DeleteMapping(pk) => DeletedIsNotFound(settings, st, event, {pk}, site);
    case DeleteSite(gone) => DeletedIsNotFound(settings, st, event, MappingsAt(st, gone), site);
    case _ => NothingElseChanges(settings, st, event, site);
  }

  lemma SavedColumnsAreFound(settings: Settings, st: State, org: OrgId, values: Columns, site: SiteId)
    requires Valid(settings, st) && IsInstance(settings, SaveOrganization(org, values))
    ensures Direct(Write(settings, st, SaveOrganization(org, values)), site) ==
            if MapsTo(st, site, org) then Some(values) else Direct(st, site)
  {
    var after := Write(settings, st, SaveOrganization(org, values));
    if m :| m in st.mappings && st.mappings[m].site == site && st.mappings[m].org == org {
      WriteKeepsValid(settings, st, SaveOrganization(org, values));
      LookupIsTheMapping(settings, after, m);
    } else {
      LookupDependsOn(st, after, site);
    }
  }

  lemma SavedMappingIsFound(settings: Settings, st: State, pk: Pk, to: Mapping, site: SiteId)
    requires Valid(settings, st) && !Repoints(st, SaveMapping(pk, to))
    ensures Direct(Write(settings, st, SaveMapping(pk, to)), site) ==
            if !Refused(st, pk, to) && site == to.site && to.org in st.orgs then Some(st.orgs[to.org]) else Direct(st, site)
  {
    var after := Write(settings, st, SaveMapping(pk, to));
    if !Refused(st, pk, to) && site == to.site {
      WriteKeepsValid(settings, st, SaveMapping(pk, to));
      LookupIsTheMapping(settings, after, pk);
    } else {
      LookupDependsOn(st, after, site);
    }
  }

  /** Three events delete mappings; a site loses its answer exactly when its mapping is among them. */
  lemma DeletedIsNotFound(settings: Settings, st: State, event: Event, pks: set<Pk>, site: SiteId)
    requires Valid(settings, st)
    requires match event
             case DeleteOrganization(org) => pks == PksOf(st, org)
             case DeleteMapping(pk) => pks == {pk}
             case DeleteSite(gone) => pks == MappingsAt(st, gone)
             case _ => false
    ensures Direct(Write(settings, st, event), site) == if site in SitesOf(st, pks) then None else Direct(st, site)
    ensures event.DeleteOrganization? ==> (site in SitesOf(st, pks) <==> MapsTo(st, site, event.org))
    ensures event.DeleteMapping? ==> (site in SitesOf(st, pks) <==> event.pk in st.mappings && st.mappings[event.pk].site == site)
    ensures event.DeleteSite? ==> (site in SitesOf(st, pks) <==> site == event.site && MappingsAt(st, site) != {})
    ensures MappingsAt(st, site) == {} ==> Direct(st, site) == None
  {
    var after := Write(settings, st, event);
    assert after.mappings == st.mappings - pks;
    if site in SitesOf(st, pks) {
      var m :| m in pks && m in st.mappings && st.mappings[m].site == site;
      LookupIsTheMapping(settings, st, m);
      assert forall n :: n in MappingsAt(after, site) ==> n in MappingsAt(st, site) && n !in pks;
      assert MappingsAt(after, site) == {};
    } else {
      assert forall m :: m in st.mappings && m in pks ==> st.mappings[m].site in SitesOf(st, pks);
      LookupDependsOn(st, after, site);
    }
    if event.DeleteSite? && site == event.site && MappingsAt(st, site) != {} {
      var m := Least(MappingsAt(st, site));
      assert st.mappings[m].site == site;
    }
  }

  lemma NothingElseChanges(settings: Settings, st: State, event: Event, site: SiteId)
    requires event.RetrieveByDomain? || event.CreateSite? || event.Tick?
    ensures Direct(Write(settings, st, event), site) == Direct(st, site)
  {
    LookupDependsOn(st, Write(settings, st, event), site);
  }

  /** What each event leaves in the tables: a site goes with its mapping, a mapping with its organization
      or its site, and nothing else goes; and the clock only ticks. */
  lemma EventsLeave(settings: Settings, st: State, event: Event)
    ensures
      var after := Write(settings, st, event);
      && (forall o :: o in after.orgs <==>
            (o in st.orgs || event == SaveOrganization(o, if event.SaveOrganization? then event.values else map[]))
            && event != DeleteOrganization(o))
      && (forall o :: o in after.orgs ==>
            after.orgs[o] == if event.SaveOrganization? && event.org == o then event.values else st.orgs[o])
      && (forall m :: m in after.mappings <==>
            || (m in st.mappings && !Unmaps(st, event, m))
            || (event.SaveMapping? && event.pk == m && !Refused(st, m, event.to)))
      && (forall m :: m in after.mappings ==>
            after.mappings[m] == if event.SaveMapping? && event.pk == m && !Refused(st, m, event.to) then event.to else st.mappings[m])
      && (forall s :: s in after.sites <==>
            || event == CreateSite(s)
            || (s in st.sites && event != DeleteSite(s) && !exists m :: m in st.mappings && Unmaps(st, event, m) && st.mappings[m].site == s))
      && after.now == st.now + (if event.Tick? then event.elapsed else 0)
  {
    match event
    case DeleteOrganization(org) => UnmappedSites(st, event, PksOf(st, org));
    case DeleteMapping(pk) => UnmappedSites(st, event, {pk});
    case DeleteSite(site) => UnmappedSites(st, event, MappingsAt(st, site));
    case _ => assert forall m :: m in st.mappings ==> !Unmaps(st, event, m);
  }

  ghost predicate Unmaps(st: State, event: Event, m: Pk)
    requires m in st.mappings
  {
    match event
    case DeleteOrganization(org) => st.mappings[m].org == org
    case DeleteMapping(pk) => pk == m
    case DeleteSite(site) => st.mappings[m].site == site
    case _ => false
  }

  lemma UnmappedSites(st: State, event: Event, pks: set<Pk>)
    requires forall m :: m in st.mappings ==> (m in pks <==> Unmaps(st, event, m))
    ensures forall s :: s in SitesOf(st, pks) <==> exists m :: m in st.mappings && Unmaps(st, event, m) && st.mappings[m].site == s
  {
  }

  /** A run goes through its events in order: one more event adds what it does at the end, and its answer,
      if it asks for one. */
  lemma {:induction false} RunOneMore(settings: Settings, st: State, events: seq<Event>, last: Event)
    ensures
      var before := Run(settings, st, events).0;
      Run(settings, st, events + [last]) ==
        (Write(settings, before, last),
         Run(settings, st, events).1 + if last.RetrieveByDomain? then [Answered(settings, before, last.site)] else [])
    decreases |events|
  {
    var whole := events + [last];
    if events == [] {
      var answer := Answer(settings, st, last);
      assert whole[0] == last && whole[1..] == [] && answer + [] == answer == [] + answer;
      assert Run(settings, Write(settings, st, last), whole[1..]) == (Write(settings, st, last), []);
    } else {
      assert whole[0] == events[0] && whole[1..] == events[1..] + [last];
      RunOneMore(settings, Write(settings, st, events[0]), events[1..], last);
      AnswersAssociate(Answer(settings, st, events[0]), Run(settings, Write(settings, st, events[0]), events[1..]).1,
        Answer(settings, Run(settings, st, events).0, last));
    }
  }

  lemma AnswersAssociate(a: seq<Option<Columns>>, b: seq<Option<Columns>>, c: seq<Option<Columns>>)
    ensures a + (b + c) == (a + b) + c
  {
  }

  lemma ExactEverywhere(settings: Settings, st: State, site: SiteId)
    requires Exact(settings, st)
    ensures ExactAt(settings, st, site)
  {
  }

  /** The database refuses a mapping to what is not there, or of a site that has another one. */
  lemma RefusedIff(st: State, pk: Pk, to: Mapping)
    ensures Refused(st, pk, to) <==>
              || to.org !in st.orgs || to.site !in st.sites
              || exists m :: m in st.mappings && m != pk && st.mappings[m].site == to.site
  {
    if m :| m in st.mappings && m != pk && st.mappings[m].site == to.site {
      assert m in MappingsAt(st, to.site) - {pk};
    }
    if MappingsAt(st, to.site) - {pk} != {} {
      var m :| m in MappingsAt(st, to.site) - {pk};
      assert m in st.mappings && m != pk && st.mappings[m].site == to.site;
    }
  }

  // ------------------------------------------------------------ the code that does it

  class Deployment {
    const settings: Settings
    var orgs: map<OrgId, Columns>
    var mappings: map<Pk, Mapping>
    var sites: set<SiteId>
    var cache: map<SiteId, Entry>
    var now: nat

    constructor (settings: Settings, st: State)
      ensures this.settings == settings && View() == st
    {
      this.settings := settings;
      orgs, mappings, sites, cache, now := st.orgs, st.mappings, st.sites, st.cache, st.now;
    }

    ghost function View(): State
      reads this
    {
      State(orgs, mappings, sites, cache, now)
    }

    /** `get_cached_organization_for_site`. */
    method GetCachedOrganizationForSite(site: SiteId) returns (hit: Hit)
      ensures hit == GetCached(settings, View(), site)
    {
      if !settings.enabled || site !in cache {
        return Miss;
      }
      var entry := cache[site];
      if entry.expiry.Some? && entry.expiry.value <= now {
        return Miss;
      }
      if entry.value.NoOrganization? {
        return Nothing;
      }
      var loaded := Load(settings, entry.value.values);
      hit := if loaded.None? then Miss else Found(loaded.value);
    }

    /** `set_cached_organization_for_site`. */
    method SetCachedOrganizationForSite(site: SiteId, answer: Option<Columns>)
      modifies this`cache
      ensures View() == SetCached(settings, old(View()), site, answer)
    {
      if !settings.enabled {
        return;
      }
      var expiry := None;
      if settings.timeout.Some? {
        expiry := Some(now + settings.timeout.value);
      }
      cache := cache[site := Entry(Dump(answer), expiry)];
    }

    /** `forget_site`, and `_forget_organization_site` which calls it. */
    method ForgetSite(site: SiteId)
      modifies this`cache
      ensures View() == Forget(settings, old(View()), {site})
    {
      if settings.enabled {
        cache := cache - {site};
      }
    }

    /** `_forget_organization`: the sites mapped at the time the signal fires. */
    method ForgetOrganization(org: OrgId)
      modifies this`cache
      ensures View() == Forget(settings, old(View()), SitesOf(old(View()), PksOf(old(View()), org)))
    {
      if settings.enabled {
        cache := cache - (set m | m in mappings && mappings[m].org == org :: mappings[m].site);
        assert (set m | m in mappings && mappings[m].org == org :: mappings[m].site) == SitesOf(old(View()), PksOf(old(View()), org));
      }
    }

    /** The cascade: the rows go at once, then `post_delete` is sent for one instance after another,
        whose receivers delete the site and forget it. */
    method DeleteMappingRows(pks: set<Pk>)
      modifies this`mappings, this`sites, this`cache
      ensures View() == DeleteMappings(settings, old(View()), pks)
    {
      var instances := map m | m in pks && m in mappings :: mappings[m];
      mappings := mappings - pks;
      var todo := instances.Keys;
      ghost var before, done := old(View()), {};
      while todo != {}
        invariant todo <= instances.Keys && done == SitesOf(before, instances.Keys - todo)
        invariant View() == Forget(settings, before.(mappings := before.mappings - pks, sites := before.sites - done), done)
      {
        var m :| m in todo;
        assert instances.Keys - (todo - {m}) == (instances.Keys - todo) + {m};
        assert SitesOf(before, (instances.Keys - todo) + {m}) == done + {instances[m].site};
        todo := todo - {m};
        sites := sites - {instances[m].site};
        ForgetSite(instances[m].site);
        done := done + {instances[m].site};
      }
      assert instances.Keys - todo == instances.Keys;
      assert SitesOf(before, instances.Keys) == SitesOf(before, pks);
    }

    method RetrieveByDomain(site: SiteId) returns (answer: Option<Columns>)
      modifies this`cache
      ensures View() == Retrieve(settings, old(View()), site).0 && answer == Retrieve(settings, old(View()), site).1
    {
      if site !in sites {
        return None;
      }
      var cached := GetCachedOrganizationForSite(site);
      if cached.Nothing? {
        return None;
      }
      if cached.Found? {
        return Some(cached.values);
      }
      answer := QueryOrganization(site);
      SetCachedOrganizationForSite(site, answer);
    }

    /** `original_manager.select_related('organization').filter(site=site).first()`. */
    method QueryOrganization(site: SiteId) returns (answer: Option<Columns>)
      ensures answer == Direct(View(), site)
    {
      var rows := set m | m in mappings && mappings[m].site == site;
      assert rows == MappingsAt(View(), site);
      if rows == {} {
        return None;
      }
      var org := mappings[Least(rows)].org;
      answer := if org in orgs then Some(orgs[org]) else None;
    }

    method Perform(event: Event) returns (answers: seq<Option<Columns>>)
      modifies this
      ensures View() == Write(settings, old(View()), event) && answers == Answer(settings, old(View()), event)
    {
      answers := [];
      match event
      case RetrieveByDomain(site) =>
        var answer := RetrieveByDomain(site);
        answers := [answer];
      case SaveOrganization(org, values) =>
        orgs := orgs[org := values];
        assert SitesOf(View(), PksOf(View(), org)) == SitesOf(old(View()), PksOf(old(View()), org));
        ForgetOrganization(org);
      case DeleteOrganization(org) =>
        DeleteMappingRows(set m | m in mappings && mappings[m].org == org);
        orgs := orgs - {org};
        assert SitesOf(View(), PksOf(View(), org)) == {};
        ForgetOrganization(org);
        assert cache - {} == cache;
      case CreateSite(site) => sites := sites + {site};
      case SaveMapping(pk, to) =>
        if to.org in orgs && to.site in sites && (set m | m in mappings && mappings[m].site == to.site) <= {pk} {
          mappings := mappings[pk := to];
          ForgetSite(to.site);
        }
      case DeleteMapping(pk) => DeleteMappingRows({pk});
      case DeleteSite(site) =>
        DeleteMappingRows(set m | m in mappings && mappings[m].site == site);
        sites := sites - {site};
      case Tick(elapsed) => now := now + elapsed;
    }

    /** The running program, event by event; `CachedIsUncached` is about what this returns. */
    method PerformAll(events: seq<Event>) returns (answers: seq<Option<Columns>>)
      modifies this
      ensures View() == Run(settings, old(View()), events).0 && answers == Run(settings, old(View()), events).1
      decreases |events|
    {
      if events == [] {
        return [];
      }
      answers := Perform(events[0]);
      var rest := PerformAll(events[1..]);
      answers := answers + rest;
    }
  }
}
