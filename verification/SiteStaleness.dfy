/** The site cache under interleaving readers and writers, some of which send no signals: what it serves
    is never older than the timeout and the longest delay between a read and the fill it leads to. */
module SiteStaleness {
  import opened Outcomes
  import opened Rows
  import opened SiteCache

  type Reader = nat

  /** A reader that missed, has run its query, and has not stored the answer yet. */
  datatype Pending = Pending(site: SiteId, answer: Option<Columns>, since: nat)

  datatype Shared = Shared(st: State, pending: map<Reader, Pending>)

  datatype Action =
    | Elapse(duration: nat)
    | Mutate(orgs: map<OrgId, Columns>, mappings: map<Pk, Mapping>, sites: set<SiteId>)
    | Signal(forgotten: set<SiteId>)
    | Query(reader: Reader, site: SiteId)
    | Fill(reader: Reader)
    | Hit(site: SiteId)

  function Act(settings: Settings, now: Shared, action: Action): Shared {
    match action
    case Elapse(duration) => now.(st := now.st.(now := now.st.now + duration))
    case Mutate(orgs, mappings, sites) => now.(st := now.st.(orgs := orgs, mappings := mappings, sites := sites))
    case Signal(forgotten) => now.(st := Forget(settings, now.st, forgotten))
    case Query(reader, site) => now.(pending := now.pending[reader := Pending(site, Direct(now.st, site), now.st.now)])
    case Fill(reader) =>
      if reader !in now.pending then now
      else
        var read := now.pending[reader];
        Shared(SetCached(settings, now.st, read.site, read.answer), now.pending - {reader})
    case Hit(_) => now
  }

  function After(settings: Settings, start: Shared, schedule: seq<Action>): Shared
    decreases |schedule|
  {
    if schedule == [] then start
    else Act(settings, After(settings, start, schedule[..|schedule| - 1]), schedule[|schedule| - 1])
  }

  /** The actions, one by one: time passes, the tables change under the cache, a signal drops entries, a
      query reads, and its fill stores what it read, however the tables stand by then. */
  lemma ActionsMean(settings: Settings, now: Shared, action: Action)
    ensures
      var after := Act(settings, now, action);
      match action
      case Elapse(duration) => after == now.(st := now.st.(now := now.st.now + duration))
      case Mutate(orgs, mappings, sites) =>
        after.st == State(orgs, mappings, sites, now.st.cache, now.st.now) && after.pending == now.pending
      case Signal(forgotten) =>
        && (forall s :: s in after.st.cache <==> s in now.st.cache && !(settings.enabled && s in forgotten))
        && (forall s :: s in after.st.cache ==> after.st.cache[s] == now.st.cache[s])
        && SameTables(after.st, now.st) && after.st.now == now.st.now && after.pending == now.pending
      case Query(reader, site) =>
        && after.st == now.st && reader in after.pending
        && after.pending[reader] == Pending(site, Direct(now.st, site), now.st.now)
        && forall r :: r != reader ==> (r in after.pending <==> r in now.pending) && (r in now.pending ==> after.pending[r] == now.pending[r])
      case Fill(reader) =>
        if reader !in now.pending then after == now
        else
          && SameTables(after.st, now.st) && after.st.now == now.st.now && after.pending.Keys == now.pending.Keys - {reader}
          && forall s :: s != now.pending[reader].site || !settings.enabled ==>
               (s in after.st.cache <==> s in now.st.cache) && (s in now.st.cache ==> after.st.cache[s] == now.st.cache[s])
      case Hit(_) => after == now
  {
  }

  /** What a request is served: by a hit what the cache has, if it may serve it, and by a fill what its own
      query read. */
  lemma RequestsAreServed(settings: Settings, now: Shared, reader: Reader, site: SiteId)
    ensures Served(settings, now, Fill(reader)) ==
            if reader in now.pending then Some((now.pending[reader].site, now.pending[reader].answer)) else None
    ensures Served(settings, now, Hit(site)) == (match GetCached(settings, now.st, site)
                                                 case Miss => None
                                                 case Nothing => Some((site, None))
                                                 case Found(values) => Some((site, Some(values))))
  {
  }

  /** Every fill of the schedule comes within `gap` of its read. */
  ghost predicate FillsWithin(settings: Settings, start: Shared, schedule: seq<Action>, gap: nat) {
    forall k :: 0 <= k < |schedule| ==> InTime(After(settings, start, schedule[..k]), schedule[k], gap)
  }

  predicate InTime(now: Shared, action: Action, gap: nat) {
    action.Fill? && action.reader in now.pending ==> now.st.now - now.pending[action.reader].since <= gap
  }

  /** What the action hands to a request, and for which site. */
  function Served(settings: Settings, now: Shared, action: Action): Option<(SiteId, Option<Columns>)> {
    if action.Hit? then
      var hit := GetCached(settings, now.st, action.site);
      if hit.Miss? then None else Some((action.site, if hit.Found? then Some(hit.values) else None))
    else if action.Fill? && action.reader in now.pending then
      Some((now.pending[action.reader].site, now.pending[action.reader].answer))
    else None
  }

  /** The lookup of `site` gave `answer` at some moment of the schedule, at `since` or later. */
  ghost predicate WasTrue(settings: Settings, start: Shared, schedule: seq<Action>, site: SiteId,
        answer: Option<Columns>, since: int) {
    exists k :: 0 <= k <= |schedule| && TrueAt(After(settings, start, schedule[..k]), site, answer, since)
  }

  predicate TrueAt(now: Shared, site: SiteId, answer: Option<Columns>, since: int) {
    Direct(now.st, site) == answer && now.st.now >= since
  }

  lemma WasTrueLater(settings: Settings, start: Shared, schedule: seq<Action>, action: Action, site: SiteId,
        answer: Option<Columns>, since: int)
    requires WasTrue(settings, start, schedule, site, answer, since)
    ensures WasTrue(settings, start, schedule + [action], site, answer, since)
  {
    var k :| 0 <= k <= |schedule| && TrueAt(After(settings, start, schedule[..k]), site, answer, since);
    assert (schedule + [action])[..k] == schedule[..k];
  }

  /** What a stored value says, and when it was stored at the latest. */
  ghost predicate EntryWasTrue(settings: Settings, start: Shared, schedule: seq<Action>, site: SiteId, entry: Entry,
        gap: nat)
    requires settings.timeout.Some?
  {
    && entry.expiry.Some?
    && WasTrue(settings, start, schedule, site, if entry.value.NoOrganization? then None else Some(entry.value.values),
         entry.expiry.value - settings.timeout.value - gap)
  }

  ghost predicate Traceable(settings: Settings, start: Shared, schedule: seq<Action>, gap: nat)
    requires settings.timeout.Some?
  {
    var now := After(settings, start, schedule);
    && (forall s :: s in now.st.cache ==> EntryWasTrue(settings, start, schedule, s, now.st.cache[s], gap))
    && (forall r :: r in now.pending ==>
          WasTrue(settings, start, schedule, now.pending[r].site, now.pending[r].answer, now.pending[r].since))
  }

  lemma {:induction false} ScheduleIsTraceable(settings: Settings, start: Shared, schedule: seq<Action>, gap: nat)
    requires settings.timeout.Some? && start.st.cache == map[] && start.pending == map[]
    requires FillsWithin(settings, start, schedule, gap)
    ensures Traceable(settings, start, schedule, gap)
    decreases |schedule|
  {
    if schedule != [] {
      var earlier, action := schedule[..|schedule| - 1], schedule[|schedule| - 1];
      assert forall k :: 0 <= k < |earlier| ==> earlier[..k] == schedule[..k];
      ScheduleIsTraceable(settings, start, earlier, gap);
      assert earlier + [action] == schedule;
      ActionKeepsTraceable(settings, start, earlier, action, gap);
    }
  }

  lemma ActionKeepsTraceable(settings: Settings, start: Shared, earlier: seq<Action>, action: Action, gap: nat)
    requires settings.timeout.Some? && Traceable(settings, start, earlier, gap)
    requires InTime(After(settings, start, earlier), action, gap)
    ensures Traceable(settings, start, earlier + [action], gap)
  {
    var before, schedule := After(settings, start, earlier), earlier + [action];
    assert schedule[..|schedule| - 1] == earlier;
    var now := Act(settings, before, action);
    assert After(settings, start, schedule) == now;
    forall s | s in now.st.cache ensures EntryWasTrue(settings, start, schedule, s, now.st.cache[s], gap) {
      if action.Fill? && action.reader in before.pending && s == before.pending[action.reader].site && settings.enabled {
        var read := before.pending[action.reader];
        WasTrueSince(settings, start, earlier, s, read.answer, read.since, before.st.now - gap);
        WasTrueLater(settings, start, earlier, action, s, read.answer, before.st.now - gap);
      } else {
        var entry := before.st.cache[s];
        WasTrueLater(settings, start, earlier, action, s, if entry.value.NoOrganization? then None else Some(entry.value.values),
          entry.expiry.value - settings.timeout.value - gap);
      }
    }
    forall r | r in now.pending
      ensures WasTrue(settings, start, schedule, now.pending[r].site, now.pending[r].answer, now.pending[r].since)
    {
      if action.Query? && r == action.reader {
        assert schedule[..|earlier|] == earlier;
        assert TrueAt(before, action.site, Direct(before.st, action.site), before.st.now);
      } else {
        WasTrueLater(settings, start, earlier, action, before.pending[r].site, before.pending[r].answer, before.pending[r].since);
      }
    }
  }

  lemma WasTrueSince(settings: Settings, start: Shared, schedule: seq<Action>, site: SiteId, answer: Option<Columns>,
        since: int, earlier: int)
    requires WasTrue(settings, start, schedule, site, answer, since) && earlier <= since
    ensures WasTrue(settings, start, schedule, site, answer, earlier)
  {
    var k :| 0 <= k <= |schedule| && TrueAt(After(settings, start, schedule[..k]), site, answer, since);
    assert TrueAt(After(settings, start, schedule[..k]), site, answer, earlier);
  }

  /** Whatever is served at time T was true: later than T minus the timeout and the gap when it comes
      from the cache, and no earlier than T minus the gap when the request ran the query itself. Over
      every schedule, with any writes, signalled or not. */
  lemma BoundedStaleness(settings: Settings, start: Shared, schedule: seq<Action>, action: Action, gap: nat)
    requires settings.timeout.Some? && start.st.cache == map[] && start.pending == map[]
    requires FillsWithin(settings, start, schedule + [action], gap)
    requires Served(settings, After(settings, start, schedule), action).Some?
    ensures
      var now := After(settings, start, schedule);
      var (site, answer) := Served(settings, now, action).value;
      var since := if action.Hit? then now.st.now - (settings.timeout.value + gap) + 1 else now.st.now - gap;
      exists k :: 0 <= k <= |schedule| &&
        Direct(After(settings, start, schedule[..k]).st, site) == answer && After(settings, start, schedule[..k]).st.now >= since
  {
    var now := After(settings, start, schedule);
    assert (schedule + [action])[..|schedule|] == schedule && (schedule + [action])[|schedule|] == action;
    assert InTime(now, action, gap);
    assert forall k :: 0 <= k < |schedule| ==> (schedule + [action])[..k] == schedule[..k] && (schedule + [action])[k] == schedule[k];
    ScheduleIsTraceable(settings, start, schedule, gap);
    var served := Served(settings, now, action).value;
    if action.Hit? {
      var entry := now.st.cache[action.site];
      assert EntryWasTrue(settings, start, schedule, action.site, entry, gap);
      WasTrueSince(settings, start, schedule, action.site, served.1, entry.expiry.value - settings.timeout.value - gap,
        now.st.now - (settings.timeout.value + gap) + 1);
      assert WasTrue(settings, start, schedule, served.0, served.1, now.st.now - (settings.timeout.value + gap) + 1);
    } else {
      WasTrueSince(settings, start, schedule, served.0, served.1, now.pending[action.reader].since, now.st.now - gap);
      assert WasTrue(settings, start, schedule, served.0, served.1, now.st.now - gap);
    }
  }

  /** A read, a write no signal reports, and the fill, as late as the gap allows; then the last instant
      before the entry expires. */
  function LateFill(settings: Settings, start: Shared, site: SiteId, gap: nat): seq<Action>
    requires settings.timeout.Some? && settings.timeout.value > 0
  {
    [Query(0, site), Mutate(map[], map[], start.st.sites), Elapse(gap), Fill(0), Elapse(settings.timeout.value - 1)]
  }

  lemma StatesOfLateFill(settings: Settings, start: Shared, site: SiteId, gap: nat, k: nat)
    requires settings.enabled && settings.timeout.Some? && settings.timeout.value > 0
    requires start.st.cache == map[] && start.pending == map[] && k <= 5
    ensures
      var now := After(settings, start, LateFill(settings, start, site, gap)[..k]);
      && now.st.now == start.st.now + (if k < 3 then 0 else if k < 5 then gap else gap + settings.timeout.value - 1)
      && (k < 2 ==> now.st == start.st)
      && (2 <= k ==> now.st.mappings == map[])
      && now.pending == (if 1 <= k <= 3 then map[0 := Pending(site, Direct(start.st, site), start.st.now)] else map[])
      && now.st.cache == (if k <= 3 then map[] else
           map[site := Entry(Dump(Direct(start.st, site)), Some(start.st.now + gap + settings.timeout.value))])
  {
    if k > 0 {
      StatesOfLateFill(settings, start, site, gap, k - 1);
      Unfold(settings, start, LateFill(settings, start, site, gap), k - 1);
    }
  }

  /** The bound is reached: that last instant serves an answer that was only true at the first one. */
  lemma BoundIsReached(settings: Settings, start: Shared, site: SiteId, gap: nat)
    requires settings.enabled && settings.timeout.Some? && settings.timeout.value > 0
    requires start.st.cache == map[] && start.pending == map[]
    requires Direct(start.st, site).Some? && Direct(start.st, site).value.Keys == settings.fields
    ensures
      var schedule := LateFill(settings, start, site, gap);
      var now := After(settings, start, schedule);
      && FillsWithin(settings, start, schedule, gap)
      && Served(settings, now, Hit(site)) == Some((site, Direct(start.st, site)))
      && (forall k :: 2 <= k <= |schedule| ==> Direct(After(settings, start, schedule[..k]).st, site) == None)
      && now.st.now - (settings.timeout.value + gap) + 1 == start.st.now
  {
    var schedule := LateFill(settings, start, site, gap);
    forall k | 0 <= k < |schedule| ensures InTime(After(settings, start, schedule[..k]), schedule[k], gap) {
      StatesOfLateFill(settings, start, site, gap, k);
    }
    forall k | 2 <= k <= |schedule| ensures Direct(After(settings, start, schedule[..k]).st, site) == None {
      StatesOfLateFill(settings, start, site, gap, k);
      assert MappingsAt(After(settings, start, schedule[..k]).st, site) == {};
    }
    StatesOfLateFill(settings, start, site, gap, 5);
    assert schedule[..5] == schedule;
  }

  lemma Unfold(settings: Settings, start: Shared, schedule: seq<Action>, k: nat)
    requires k < |schedule|
    ensures After(settings, start, schedule[..k + 1]) == Act(settings, After(settings, start, schedule[..k]), schedule[k])
    ensures k == 0 ==> After(settings, start, schedule[..k]) == start
  {
    assert schedule[..k + 1][..k] == schedule[..k];
  }
}
