/** `services.py`, `organization_retrievers.py` and the resolving half of `middleware.py`: which
    organization a request belongs to, and who may say so. */
module Retrievers {
  import opened Outcomes
  import opened Rows

  type OrgId = nat
  type UserId = nat

  datatype Membership = Membership(user: UserId, org: OrgId, active: bool)

  datatype Db = Db(slugs: map<OrgId, string>, memberships: map<Pk, Membership>)

  /** Slugs are unique and not empty, foreign keys resolve, and a user has one membership per organization. */
  ghost predicate Valid(db: Db) {
    && (forall o, p | o in db.slugs && p in db.slugs :: db.slugs[o] == db.slugs[p] ==> o == p)
    && (forall o :: o in db.slugs ==> db.slugs[o] != "")
    && (forall m :: m in db.memberships ==> db.memberships[m].org in db.slugs)
    && (forall m, n | m in db.memberships && n in db.memberships ::
          db.memberships[m].user == db.memberships[n].user && db.memberships[m].org == db.memberships[n].org ==> m == n)
  }

  /** No `user` attribute, an anonymous one, or an account. */
  datatype Caller = NoUser | Anonymous | Account(id: UserId, active: bool)

  /** What the caller named: nothing, something that matched no organization, or a slug. */
  datatype Selection = NoSelection | Unresolved | Named(slug: string)

  // -------------------------------------------------------------- MembershipService

  predicate HoldsActive(db: Db, user: UserId, org: OrgId, m: Pk) {
    m in db.memberships && db.memberships[m].user == user && db.memberships[m].org == org && db.memberships[m].active
  }

  /** The caller holds an active membership in the organization. */
  predicate Belongs(db: Db, user: UserId, org: OrgId) {
    exists m :: m in db.memberships && HoldsActive(db, user, org, m)
  }

  /** `get_active`. */
  function ActiveOf(db: Db, user: UserId): set<Pk> {
    set m | m in db.memberships && db.memberships[m].user == user && db.memberships[m].active
  }

  function ActiveNamed(db: Db, user: UserId, slug: string): set<Pk> {
    set m | m in ActiveOf(db, user) && m in db.memberships && db.memberships[m].org in db.slugs && db.slugs[db.memberships[m].org] == slug
  }

  /** `resolve_for_user`. */
  function ResolveForUser(db: Db, caller: Caller, selection: Selection, strict: bool): Result<Option<Pk>> {
    if !caller.Account? || !caller.active then Success(None)
    else if selection.Unresolved? then (if strict then Failure(OrganizationAccessDenied) else Success(None))
    else if selection.Named? && selection.slug != "" then
      var named := ActiveNamed(db, caller.id, selection.slug);
      if named != {} then Success(Some(Least(named)))
      else if strict then Failure(OrganizationAccessDenied) else Success(None)
    else
      var active := ActiveOf(db, caller.id);
      if |active| == 1 then Success(Some(Least(active)))
      else if |active| > 1 && strict then Failure(AmbiguousOrganization) else Success(None)
  }

  /** `resolve_organization_for_user`. */
  function ResolveOrganizationForUser(db: Db, caller: Caller, selection: Selection,
        strict: bool): Result<Option<OrgId>> {
    var r := ResolveForUser(db, caller, selection, strict);
    if r.Failure? then Failure(r.error)
    else Success(if r.value.Some? && r.value.value in db.memberships then Some(db.memberships[r.value.value].org) else None)
  }

  /** The caller may act: an account that is not deactivated. */
  predicate Acts(caller: Caller) { caller.Account? && caller.active }

  predicate Names(selection: Selection) { selection.Named? && selection.slug != "" }

  /** The whole table. An organization comes out exactly when the caller belongs to it and either named
      it or belongs to no other; the refusals are about a caller who acts, and only when strict. */
  lemma ResolutionTable(db: Db, caller: Caller, selection: Selection, strict: bool, org: OrgId)
    requires Valid(db)
    ensures
      var r := ResolveOrganizationForUser(db, caller, selection, strict);
      && (r == Success(Some(org)) <==>
            && Acts(caller) && Belongs(db, caller.id, org)
            && (Names(selection) ==> db.slugs[org] == selection.slug)
            && (!Names(selection) ==> !selection.Unresolved? && OnlyOrganization(db, caller.id, org)))
      && (r == Failure(AmbiguousOrganization) <==>
            && strict && Acts(caller) && !Names(selection) && !selection.Unresolved?
            && exists a, b | a in db.slugs && b in db.slugs && a != b :: Belongs(db, caller.id, a) && Belongs(db, caller.id, b))
      && (r == Failure(OrganizationAccessDenied) <==>
            && strict && Acts(caller)
            && (selection.Unresolved? || (Names(selection) && NoneNamed(db, caller.id, selection.slug))))
      && (r.Failure? ==> r.error == AmbiguousOrganization || r.error == OrganizationAccessDenied)
  {
    if Acts(caller) {
      if Names(selection) {
        NamedIsTheOne(db, caller.id, selection.slug, org);
      } else if !selection.Unresolved? {
        UnnamedIsTheOnly(db, caller.id, org);
      }
    }
  }

  ghost predicate OnlyOrganization(db: Db, user: UserId, org: OrgId) {
    forall o :: o in db.slugs && Belongs(db, user, o) ==> o == org
  }

  ghost predicate NoneNamed(db: Db, user: UserId, slug: string) {
    forall o :: o in db.slugs && Belongs(db, user, o) ==> db.slugs[o] != slug
  }

  lemma NamedIsTheOne(db: Db, user: UserId, slug: string, org: OrgId)
    requires Valid(db)
    ensures var named := ActiveNamed(db, user, slug);
            && (named == {} <==> NoneNamed(db, user, slug))
            && (named != {} ==> (db.memberships[Least(named)].org == org
                                 <==> Belongs(db, user, org) && db.slugs[org] == slug))
  {
    var named := ActiveNamed(db, user, slug);
    forall m | m in named ensures Belongs(db, user, db.memberships[m].org) {
      assert HoldsActive(db, user, db.memberships[m].org, m);
    }
    forall o | o in db.slugs && Belongs(db, user, o) && db.slugs[o] == slug
      ensures exists m :: m in named && db.memberships[m].org == o
    {
      var m :| m in db.memberships && HoldsActive(db, user, o, m);
      assert m in ActiveOf(db, user) && m in named;
    }
  }

  lemma UnnamedIsTheOnly(db: Db, user: UserId, org: OrgId)
    requires Valid(db)
    ensures var active := ActiveOf(db, user);
            && (|active| == 1 ==> (db.memberships[Least(active)].org == org
                                   <==> Belongs(db, user, org) && OnlyOrganization(db, user, org)))
            && (|active| != 1 ==> !(Belongs(db, user, org) && OnlyOrganization(db, user, org)))
            && (|active| > 1 <==> exists a, b | a in db.slugs && b in db.slugs && a != b :: Belongs(db, user, a) && Belongs(db, user, b))
  {
    var active := ActiveOf(db, user);
    forall m | m in active ensures Belongs(db, user, db.memberships[m].org) {
      assert HoldsActive(db, user, db.memberships[m].org, m);
    }
    if |active| == 1 {
      var one := Least(active);
      OneMember(active, one);
      forall o | o in db.slugs && Belongs(db, user, o) ensures o == db.memberships[one].org {
        var m :| m in db.memberships && HoldsActive(db, user, o, m);
        assert m in active;
      }
    } else if |active| > 1 {
      var one := Least(active);
      var rest := active - {one};
      assert |rest| > 0;
      var two :| two in rest;
      assert db.memberships[one].org != db.memberships[two].org;
    } else {
      assert forall o, m :: HoldsActive(db, user, o, m) ==> m in active;
    }
  }

  lemma OneMember(pks: set<Pk>, one: Pk)
    requires |pks| == 1 && one in pks
    ensures pks == {one}
  {
    assert |pks - {one}| == 0;
    forall p | p in pks ensures p == one {
      assert p == one || p in pks - {one};
    }
  }

  // -------------------------------------------------------------------- the retrievers

  /** `session` is `None` when the request has no session at all. */
  datatype Said = Said(caller: Caller, header: Option<string>, session: Option<Session>)

  datatype Session = Session(slug: Option<string>)

  datatype Settings = Settings(verify: bool, addToSession: bool, retrievers: seq<Retriever>)

  /** `ByDomain` carries what the site lookup answers; the host is not the caller's to choose. */
  datatype Retriever = ByDomain(answer: Option<OrgId>) | ByHeader | BySession | ByMembership

  function WithSlug(db: Db, slug: string): set<OrgId> { set o | o in db.slugs && db.slugs[o] == slug }

  /** The least key, were slugs ever shared: `get` would raise then. */
  function BySlug(db: Db, slug: string): Option<OrgId> {
    if WithSlug(db, slug) == {} then None else Some(Least(WithSlug(db, slug)))
  }

  /** `_verify_membership`: an anonymous caller is let through, an account must belong. */
  predicate Verified(db: Db, settings: Settings, caller: Caller, org: OrgId) {
    !settings.verify || !caller.Account? || Belongs(db, caller.id, org)
  }

  function Retrieve(db: Db, settings: Settings, said: Said, retriever: Retriever): Result<Option<OrgId>> {
    match retriever
    case ByDomain(answer) => Success(answer)
    case ByHeader =>
      if said.header.None? then Success(None)
      else
        var org := BySlug(db, said.header.value);
        if org.None? then Failure(OrganizationNotFound)
        else if Verified(db, settings, said.caller, org.value) then Success(org) else Failure(OrganizationAccessDenied)
    case BySession =>
      if said.session.None? || said.session.value.slug.None? then Success(None)
      else
        var org := BySlug(db, said.session.value.slug.value);
        if org.None? then Success(None)
        else if Verified(db, settings, said.caller, org.value) then Success(org) else Failure(OrganizationAccessDenied)
    case ByMembership => ResolveOrganizationForUser(db, said.caller, NoSelection, true)
  }

  /** The first retriever that answers, or raises, decides. */
  function FirstMatch(db: Db, settings: Settings, said: Said, retrievers: seq<Retriever>): Result<Option<OrgId>> {
    if retrievers == [] then Success(None)
    else
      var r := Retrieve(db, settings, said, retrievers[0]);
      if r.Failure? || r.value.Some? then r else FirstMatch(db, settings, said, retrievers[1..])
  }

  /** The first retriever that does not pass decides, and it decides alone. */
  lemma {:induction false} FirstMatchDecides(db: Db, settings: Settings, said: Said, retrievers: seq<Retriever>,
        r: Result<Option<OrgId>>)
    requires r != Success(None)
    ensures FirstMatch(db, settings, said, retrievers) == r <==>
      exists k :: 0 <= k < |retrievers| && Retrieve(db, settings, said, retrievers[k]) == r && AllPass(db, settings, said, retrievers[..k])
    ensures FirstMatch(db, settings, said, retrievers) == Success(None) <==> AllPass(db, settings, said, retrievers)
  {
    if retrievers != [] {
      var rest := retrievers[1..];
      FirstMatchDecides(db, settings, said, rest, r);
      assert forall k :: 0 < k <= |retrievers| ==> retrievers[..k] == [retrievers[0]] + rest[..k - 1];
      assert forall k :: 0 < k < |retrievers| ==> retrievers[k] == rest[k - 1];
      if Retrieve(db, settings, said, retrievers[0]) == Success(None) {
        if k :| 0 <= k < |rest| && Retrieve(db, settings, said, rest[k]) == r && AllPass(db, settings, said, rest[..k]) {
          assert retrievers[k + 1] == rest[k] && AllPass(db, settings, said, retrievers[..k + 1]);
        }
      } else {
        assert AllPass(db, settings, said, retrievers[..0]);
      }
    }
  }

  ghost predicate AllPass(db: Db, settings: Settings, said: Said, retrievers: seq<Retriever>) {
    forall p :: p in retrievers ==> Retrieve(db, settings, said, p) == Success(None)
  }

  /** What a slug in a header or a session selects: the organization of that slug, refused exactly when
      verification is on and an account does not belong to it. An unknown slug is an error in a header
      and nothing in a session. */
  lemma NamingTable(db: Db, settings: Settings, said: Said, slug: string, org: OrgId)
    requires Valid(db)
    ensures
      var header := Retrieve(db, settings, said.(header := Some(slug)), ByHeader);
      var session := Retrieve(db, settings, said.(session := Some(Session(Some(slug)))), BySession);
      && (header == Success(Some(org)) <==>
            && org in db.slugs && db.slugs[org] == slug
            && (settings.verify && said.caller.Account? ==> Belongs(db, said.caller.id, org)))
      && (header == Failure(OrganizationNotFound) <==> forall o :: o in db.slugs ==> db.slugs[o] != slug)
      && (header == Failure(OrganizationAccessDenied) <==>
            && settings.verify && said.caller.Account?
            && exists o :: o in db.slugs && db.slugs[o] == slug && !Belongs(db, said.caller.id, o))
      && header != Success(None)
      && session == (if header == Failure(OrganizationNotFound) then Success(None) else header)
  {
    assert WithSlug(db, slug) == {} <==> forall o :: o in db.slugs ==> db.slugs[o] != slug by {
      assert forall o :: o in WithSlug(db, slug) <==> o in db.slugs && db.slugs[o] == slug;
    }
    forall o | o in db.slugs && db.slugs[o] == slug ensures WithSlug(db, slug) == {o} {
    }
  }

  /** The other two retrievers: the host's answer as it is, and the caller's only organization. The latter
      never denies; it is at a loss only between several. */
  lemma UnnamedTable(db: Db, settings: Settings, said: Said, answer: Option<OrgId>, org: OrgId)
    requires Valid(db)
    ensures
      var r := Retrieve(db, settings, said, ByMembership);
      && Retrieve(db, settings, said, ByDomain(answer)) == Success(answer)
      && (r == Success(Some(org)) <==>
            Acts(said.caller) && Belongs(db, said.caller.id, org) && OnlyOrganization(db, said.caller.id, org))
      && (r == Failure(AmbiguousOrganization) <==>
            Acts(said.caller) &&
            exists a, b | a in db.slugs && b in db.slugs && a != b :: Belongs(db, said.caller.id, a) && Belongs(db, said.caller.id, b))
      && (r.Failure? ==> r.error == AmbiguousOrganization)
  {
    ResolutionTable(db, said.caller, NoSelection, true, org);
  }

  /** One retriever, for an account and with verification on: nothing, a refusal, or an organization the
      caller belongs to. */
  lemma RetrieverIsVerified(db: Db, settings: Settings, said: Said, retriever: Retriever)
    requires Valid(db) && settings.verify && said.caller.Account?
    ensures
      var r := Retrieve(db, settings, said, retriever);
      r.Success? && r.value.Some? ==> (retriever.ByDomain? && r == Success(retriever.answer)) || Belongs(db, said.caller.id, r.value.value)
  {
    if retriever.ByMembership? {
      var r := Retrieve(db, settings, said, retriever);
      if r.Success? && r.value.Some? {
        ResolutionTable(db, said.caller, NoSelection, true, r.value.value);
      }
    }
  }

  /** Any list of retrievers, in any order: the answer is a refusal, nothing, an organization the
      account belongs to, or the one the host names. */
  lemma {:induction false} MatchIsVerified(db: Db, settings: Settings, said: Said, retrievers: seq<Retriever>)
    requires Valid(db) && settings.verify && said.caller.Account?
    ensures
      var r := FirstMatch(db, settings, said, retrievers);
      r.Success? && r.value.Some? ==> Belongs(db, said.caller.id, r.value.value) || ByDomain(r.value) in retrievers
  {
    if retrievers != [] {
      RetrieverIsVerified(db, settings, said, retrievers[0]);
      MatchIsVerified(db, settings, said, retrievers[1..]);
    }
  }

  // ------------------------------------------------------------------------ a request

  /** `_retrieve_organization`: nothing recognized falls back to what was bound before the request. */
  function OrganizationOf(db: Db, settings: Settings, said: Said, before: Option<OrgId>): Result<Option<OrgId>> {
    var r := FirstMatch(db, settings, said, settings.retrievers);
    if r.Success? && r.value.None? then Success(before) else r
  }

  /** A request that nobody recognizes has the organization that was bound before it; one that somebody
      recognizes, or refuses, does not. */
  lemma NobodyMeansBefore(db: Db, settings: Settings, said: Said, before: Option<OrgId>)
    ensures AllPass(db, settings, said, settings.retrievers) ==>
              OrganizationOf(db, settings, said, before) == Success(before) && SessionAfter(db, settings, said) == said.session
    ensures !AllPass(db, settings, said, settings.retrievers) ==>
              var r := OrganizationOf(db, settings, said, before);
              r != Success(None) && exists k :: 0 <= k < |settings.retrievers| && Retrieve(db, settings, said, settings.retrievers[k]) == r
                                               && AllPass(db, settings, said, settings.retrievers[..k])
  {
    var r := FirstMatch(db, settings, said, settings.retrievers);
    FirstMatchDecides(db, settings, said, settings.retrievers, if r == Success(None) then Failure(OrganizationNotFound) else r);
  }

  /** What the session holds after the retrievers have run. */
  function SessionAfter(db: Db, settings: Settings, said: Said): Option<Session> {
    var r := FirstMatch(db, settings, said, settings.retrievers);
    if r.Success? && r.value.Some? && settings.addToSession && said.session.Some? && r.value.value in db.slugs
    then Some(Session(Some(db.slugs[r.value.value])))
    else said.session
  }

  /** The session is written exactly when it is asked for and has another slug, or none, than the
      organization that was recognized; and then with that slug. */
  lemma SessionChangesIff(db: Db, settings: Settings, said: Said)
    ensures
      var r, after := FirstMatch(db, settings, said, settings.retrievers), SessionAfter(db, settings, said);
      && (after != said.session <==>
            && settings.addToSession && said.session.Some? && r.Success? && r.value.Some? && r.value.value in db.slugs
            && said.session.value.slug != Some(db.slugs[r.value.value]))
      && (after != said.session ==> after == Some(Session(Some(db.slugs[r.value.value]))))
  {
  }

  class Request {
    const caller: Caller
    const header: Option<string>
    const before: Option<OrgId>
    var session: Option<Session>
    var cached: Option<Option<OrgId>>
    ghost var sessionWrites: nat

    constructor (said: Said, before: Option<OrgId>)
      ensures View() == said && this.before == before && cached == None && sessionWrites == 0
    {
      caller, header, session, this.before, cached := said.caller, said.header, said.session, before, None;
      sessionWrites := 0;
    }

    function View(): Said
      reads this
    {
      Said(caller, header, session)
    }

    /** `_retrieve_organization`: the loop, the session write, and the fallback. The session is written
        on a change only. */
    method RetrieveOrganization(db: Db, settings: Settings) returns (r: Result<Option<OrgId>>)
      modifies this`session, this`sessionWrites
      ensures r == OrganizationOf(db, settings, old(View()), before)
      ensures AllPass(db, settings, old(View()), settings.retrievers) ==> r == Success(before)
      ensures session == SessionAfter(db, settings, old(View()))
      ensures sessionWrites == old(sessionWrites) + (if session != old(session) then 1 else 0)
    {
      NobodyMeansBefore(db, settings, View(), before);
      for k := 0 to |settings.retrievers|
        invariant session == old(session) && sessionWrites == old(sessionWrites)
        invariant FirstMatch(db, settings, View(), settings.retrievers) == FirstMatch(db, settings, View(), settings.retrievers[k..])
      {
        assert settings.retrievers[k..][0] == settings.retrievers[k];
        assert settings.retrievers[k..][1..] == settings.retrievers[k + 1..];
        r := Retrieve(db, settings, View(), settings.retrievers[k]);
        if r.Failure? {
          return;
        }
        if r.value.Some? {
          if settings.addToSession && session.Some? && r.value.value in db.slugs {
            if session.value.slug != Some(db.slugs[r.value.value]) {
              session := Some(Session(Some(db.slugs[r.value.value])));
              sessionWrites := sessionWrites + 1;
            }
          }
          return;
        }
      }
      r := Success(before);
    }

    /** `get_organization`: an answer is kept for the rest of the request; a refusal is not. */
    method GetOrganization(db: Db, settings: Settings) returns (r: Result<Option<OrgId>>)
      modifies this`session, this`cached, this`sessionWrites
      ensures r == if old(cached).Some? then Success(old(cached).value)
                   else OrganizationOf(db, settings, old(View()), before)
      ensures cached == if r.Success? then Some(r.value) else None
      ensures old(cached).Some? ==> session == old(session)
    {
      if cached.None? {
        r := RetrieveOrganization(db, settings);
        if r.Failure? {
          return;
        }
        cached := Some(r.value);
      }
      r := Success(cached.value);
    }
  }

  /** A request that asks as often as it likes, while the database changes under it: every read before
      the first answer is a refusal, every read from it on is that answer; and with verification on, an
      account gets an organization it belonged to when it was answered, the one the host names, or what
      was bound before the request. */
  method ReadThroughout(request: Request, settings: Settings,
        databases: seq<Db>) returns (answers: seq<Result<Option<OrgId>>>)
    requires request.cached.None? && settings.verify && request.caller.Account?
    requires forall k :: 0 <= k < |databases| ==> Valid(databases[k])
    modifies request
    ensures |answers| == |databases|
    ensures forall j, k :: 0 <= j < k < |answers| && answers[j].Success? ==> answers[k] == answers[j]
    ensures forall k :: 0 <= k < |answers| && answers[k].Success? && answers[k].value.Some? ==>
      || answers[k].value == request.before || ByDomain(answers[k].value) in settings.retrievers
      || exists j :: 0 <= j <= k && Belongs(databases[j], request.caller.id, answers[k].value.value)
  {
    answers := [];
    for k := 0 to |databases|
      invariant |answers| == k
      invariant request.cached == if k > 0 && answers[k - 1].Success? then Some(answers[k - 1].value) else None
      invariant forall i, j :: 0 <= i < j < k && answers[i].Success? ==> answers[j] == answers[i]
      invariant forall i :: 0 <= i < k && answers[i].Success? && answers[i].value.Some? ==>
        || answers[i].value == request.before || ByDomain(answers[i].value) in settings.retrievers
        || exists j :: 0 <= j <= i && Belongs(databases[j], request.caller.id, answers[i].value.value)
    {
      MatchIsVerified(databases[k], settings, request.View(), settings.retrievers);
      var r := request.GetOrganization(databases[k], settings);
      answers := answers + [r];
    }
  }

  /** What one request writes to the session, the session retriever of the next one reads back. */
  lemma SessionBringsBack(db: Db, settings: Settings, said: Said, next: Settings, header: Option<string>)
    requires Valid(db) && settings.verify && settings.addToSession && said.session.Some? && said.caller.Account?
    requires FirstMatch(db, settings, said, settings.retrievers).Success?
    requires FirstMatch(db, settings, said, settings.retrievers).value.Some?
    requires FirstMatch(db, settings, said, settings.retrievers).value.value in db.slugs
    requires forall r :: r in settings.retrievers ==> !r.ByDomain?
    ensures Retrieve(db, next, Said(said.caller, header, SessionAfter(db, settings, said)), BySession)
         == FirstMatch(db, settings, said, settings.retrievers)
  {
    var org := FirstMatch(db, settings, said, settings.retrievers).value.value;
    MatchIsVerified(db, settings, said, settings.retrievers);
    assert ByDomain(Some(org)) !in settings.retrievers;
    assert Belongs(db, said.caller.id, org);
    assert WithSlug(db, db.slugs[org]) == {org};
  }
}
