/** `OrganizationModelBackend` and the caches it hangs off a user object: every answer is the uncached
    one, no cached set is ever changed, and each organization is looked up once. */
module PermissionCache {
  import opened Outcomes
  import opened Permissions
  import opened Rows

  /** The `%s` of the cache attributes' names, and the two unions built on them. */
  datatype Family = UserGrants | GroupsGrants | AllGrants | MembershipGrants

  // ------------------------------------------------------------- the uncached answers

  function AllLabels(db: Db): set<string> { set p | p in db.permissions :: Label(db.permissions[p]) }

  /** One source of one organization. */
  function SourceLabels(db: Db, user: UserId, family: Family, org: OrgId): set<string>
    requires user in db.users
  {
    if db.users[user].superuser then AllLabels(db)
    else
      var m := MembershipOf(db, user, org);
      if m.None? then {}
      else if family == UserGrants then DirectLabels(db, db.memberships[m.value])
      else GroupLabels(db, db.memberships[m.value])
  }

  function OrganizationLabels(db: Db, user: UserId, family: Family, org: OrgId): set<string>
    requires user in db.users
  {
    if family == AllGrants then SourceLabels(db, user, UserGrants, org) + SourceLabels(db, user, GroupsGrants, org)
    else if family == MembershipGrants then BackendLabels(db, user, org)
    else SourceLabels(db, user, family, org)
  }

  function GlobalLabels(db: Db, user: UserId, family: Family): set<string>
    requires user in db.users
  {
    if db.users[user].superuser then AllLabels(db)
    else match family
      case UserGrants => LabelsOf(db, db.users[user].direct)
      case GroupsGrants => LabelsOf(db, GroupGrants(db, db.users[user].groups))
      case _ => LabelsOf(db, db.users[user].direct) + LabelsOf(db, GroupGrants(db, db.users[user].groups))
  }

  /** The gate every entry point starts with. */
  predicate Gated(db: Db, user: UserId, forObject: bool)
    requires user in db.users
  {
    !db.users[user].active || db.users[user].anonymous || forObject
  }

  /** `get_organization_permissions`, which names its organization. */
  function NamedLabels(db: Db, user: UserId, org: Option<OrgId>, includeGlobal: bool, allowSuperuser: bool): set<string>
    requires user in db.users
  {
    if org.None? || Gated(db, user, false) then {}
    else if allowSuperuser && db.users[user].superuser then AllLabels(db)
    else BackendLabels(db, user, org.value) + (if includeGlobal then GlobalLabels(db, user, AllGrants) else {})
  }

  datatype Call =
    | Organization(family: Family, forObject: bool, bound: Option<OrgId>)
    | Global(family: Family, forObject: bool)
    | Both(family: Family, forObject: bool, bound: Option<OrgId>)
    | Named(org: Option<OrgId>, includeGlobal: bool, allowSuperuser: bool)

  /** `MembershipGrants` is reached through `Named` only. */
  predicate IsEntryPoint(call: Call) {
    (call.Organization? || call.Global? || call.Both?) ==> call.family != MembershipGrants
  }

  /** What the call answers without any cache. */
  function Uncached(db: Db, user: UserId, call: Call): set<string>
    requires user in db.users
  {
    match call
    case Organization(family, forObject, bound) =>
      if Gated(db, user, forObject) || bound.None? then {} else OrganizationLabels(db, user, family, bound.value)
    case Global(family, forObject) => if Gated(db, user, forObject) then {} else GlobalLabels(db, user, family)
    case Both(family, forObject, bound) =>
      if Gated(db, user, forObject) then {}
      else GlobalLabels(db, user, family) + (if bound.None? then {} else OrganizationLabels(db, user, family, bound.value))
    case Named(org, includeGlobal, allowSuperuser) => NamedLabels(db, user, org, includeGlobal, allowSuperuser)
  }

  // -------------------------------------------------------- what the answers mean

  /** Granted to the user or the membership itself, to a group of theirs, or either way. */
  ghost predicate Through(db: Db, family: Family, direct: seq<PermissionId>, groups: seq<GroupId>, spelled: string) {
    || (!family.GroupsGrants? && HeldDirectly(db, direct, spelled))
    || (!family.UserGrants? && HeldByGroup(db, groups, spelled))
  }

  ghost predicate MemberThrough(db: Db, user: UserId, family: Family, org: OrgId, spelled: string) {
    exists m :: m in db.memberships && db.memberships[m].user == user && db.memberships[m].org == org
                && db.memberships[m].active && Through(db, family, db.memberships[m].direct, db.memberships[m].groups, spelled)
  }

  ghost predicate IsALabel(db: Db, spelled: string) {
    exists p :: p in db.permissions && Label(db.permissions[p]) == spelled
  }

  /** Who has a label by which call, in terms of rows: superusers have every label there is, but not by
      being named without asking for it; the bound organization answers by the active membership; and a
      named organization widens to the user's own grants only when asked to. */
  ghost predicate Deserves(db: Db, user: UserId, call: Call, spelled: string)
    requires user in db.users
  {
    var u := db.users[user];
    u.active && !u.anonymous &&
    match call
    case Organization(family, forObject, bound) =>
      !forObject && bound.Some? && if u.superuser then IsALabel(db, spelled) else MemberThrough(db, user, family, bound.value, spelled)
    case Global(family, forObject) =>
      !forObject && if u.superuser then IsALabel(db, spelled) else Through(db, family, u.direct, u.groups, spelled)
    case Both(family, forObject, bound) =>
      !forObject && if u.superuser then IsALabel(db, spelled)
                    else Through(db, family, u.direct, u.groups, spelled)
                         || (bound.Some? && MemberThrough(db, user, family, bound.value, spelled))
    case Named(org, includeGlobal, allowSuperuser) =>
      && org.Some?
      && (|| MemberThrough(db, user, MembershipGrants, org.value, spelled)
          || (u.superuser && (allowSuperuser || includeGlobal) && IsALabel(db, spelled))
          || (!u.superuser && includeGlobal && Through(db, AllGrants, u.direct, u.groups, spelled)))
  }

  /** A label is never granted that is not the label of a permission. */
  lemma GrantsAreLabelsOfSomething(db: Db, direct: seq<PermissionId>, groups: seq<GroupId>, spelled: string)
    ensures HeldDirectly(db, direct, spelled) || HeldByGroup(db, groups, spelled) ==> IsALabel(db, spelled)
  {
  }

  lemma SourceGrantsIff(db: Db, user: UserId, family: Family, org: OrgId, spelled: string)
    requires Permissions.Valid(db) && user in db.users && !db.users[user].superuser
    requires family.UserGrants? || family.GroupsGrants?
    ensures spelled in SourceLabels(db, user, family, org) <==> MemberThrough(db, user, family, org, spelled)
  {
    forall m | m in db.memberships && IsActiveMembership(db, user, org, m)
      ensures MembershipOf(db, user, org) == Some(m)
    {
      MembershipIsFound(db, m);
    }
    var m := MembershipOf(db, user, org);
    if m.Some? {
      assert IsActiveMembership(db, user, org, m.value);
      MembershipLabelsAreHeld(db, db.memberships[m.value], spelled);
    }
  }

  lemma OrganizationGrantsIff(db: Db, user: UserId, family: Family, org: OrgId, spelled: string)
    requires Permissions.Valid(db) && user in db.users && !db.users[user].superuser && family != MembershipGrants
    ensures spelled in OrganizationLabels(db, user, family, org) <==> MemberThrough(db, user, family, org, spelled)
  {
    if family == AllGrants {
      SourceGrantsIff(db, user, UserGrants, org, spelled);
      SourceGrantsIff(db, user, GroupsGrants, org, spelled);
    } else {
      SourceGrantsIff(db, user, family, org, spelled);
    }
  }

  lemma GlobalGrantsIff(db: Db, user: UserId, family: Family, spelled: string)
    requires user in db.users
    ensures spelled in GlobalLabels(db, user, family) <==>
            if db.users[user].superuser then IsALabel(db, spelled)
            else Through(db, family, db.users[user].direct, db.users[user].groups, spelled)
  {
    LabelsAreHeld(db, db.users[user].direct, db.users[user].groups, spelled);
  }

  /** What any call answers, warm or cold, is what it deserves. */
  lemma AnswersAreDeserved(db: Db, user: UserId, call: Call, spelled: string)
    requires Permissions.Valid(db) && user in db.users && IsEntryPoint(call)
    ensures spelled in Uncached(db, user, call) <==> Deserves(db, user, call, spelled)
  {
    hide GlobalLabels, BackendLabels, Through, MemberThrough;
    match call
    case Organization(family, _, bound) =>
      if bound.Some? && !db.users[user].superuser { OrganizationGrantsIff(db, user, family, bound.value, spelled); }
    case Global(family, _) => GlobalGrantsIff(db, user, family, spelled);
    case Both(family, _, bound) =>
      GlobalGrantsIff(db, user, family, spelled);
      if bound.Some? && !db.users[user].superuser { OrganizationGrantsIff(db, user, family, bound.value, spelled); }
    case Named(org, _, _) =>
      GlobalGrantsIff(db, user, AllGrants, spelled);
      if org.Some? {
        BackendGrantsIff(db, user, org.value, spelled);
        NamedIsThrough(db, user, org.value, spelled);
      }
  }

  lemma NamedIsThrough(db: Db, user: UserId, org: OrgId, spelled: string)
    ensures MemberHasLabel(db, user, org, spelled) <==> MemberThrough(db, user, MembershipGrants, org, spelled)
    ensures MemberThrough(db, user, MembershipGrants, org, spelled) ==> IsALabel(db, spelled)
  {
    if MemberHasLabel(db, user, org, spelled) {
      var m :| m in db.memberships && IsActiveMembership(db, user, org, m) && MembershipHasLabel(db, db.memberships[m], spelled);
      assert Through(db, MembershipGrants, db.memberships[m].direct, db.memberships[m].groups, spelled);
    }
    if MemberThrough(db, user, MembershipGrants, org, spelled) {
      var m :| m in db.memberships && db.memberships[m].user == user && db.memberships[m].org == org
               && db.memberships[m].active && Through(db, MembershipGrants, db.memberships[m].direct, db.memberships[m].groups, spelled);
      assert IsActiveMembership(db, user, org, m) && MembershipHasLabel(db, db.memberships[m], spelled);
      GrantsAreLabelsOfSomething(db, db.memberships[m].direct, db.memberships[m].groups, spelled);
    }
  }

  /** The batch walk resolves the row of an active membership to what its user is answered by name,
      whether the user is active or not. */
  lemma BatchIsTheNamedAnswer(db: Db, pk: Pk)
    requires Permissions.Valid(db) && pk in db.memberships && db.memberships[pk].active
    requires !db.users[db.memberships[pk].user].anonymous
    ensures var m := db.memberships[pk]; BatchLabels(db, pk) == NamedLabels(db, m.user, Some(m.org), false, false)
  {
    MembershipIsFound(db, pk);
  }

  // ------------------------------------------------------------------------------ the slots

  /** The organizations a call can make the backend look up. */
  function Asked(call: Call): set<OrgId> {
    match call
    case Organization(_, _, bound) => if bound.Some? then {bound.value} else {}
    case Global(_, _) => {}
    case Both(_, _, bound) => if bound.Some? then {bound.value} else {}
    case Named(org, _, _) => if org.Some? then {org.value} else {}
  }

  // --------------------------------------------------------------------- the caches

  /** A Python set: an object that can be shared, and could be changed. */
  class LabelSet {
    var labels: set<string>

    constructor (labels: set<string>)
      ensures this.labels == labels
    {
      this.labels := labels;
    }

    /** `union` builds a new set; `update` would have changed this one. */
    method Union(other: LabelSet) returns (both: LabelSet)
      ensures fresh(both) && both.labels == labels + other.labels
    {
      both := new LabelSet(labels + other.labels);
    }
  }

  /** Where an answer is stored: an attribute of the user, or an entry of the dictionary it holds. */
  datatype Slot = OfOrganization(family: Family, org: OrgId) | OfUser(family: Family)

  function SlotLabels(db: Db, user: UserId, slot: Slot): set<string>
    requires user in db.users
  {
    match slot
    case OfOrganization(family, org) => OrganizationLabels(db, user, family, org)
    case OfUser(family) => GlobalLabels(db, user, family)
  }

  /** Permission queries a slot may ever cost: one for each source it reads itself. */
  function QueriesAllowed(slot: Slot): nat {
    if slot.family == AllGrants then 0 else if slot.OfOrganization? && slot.family == MembershipGrants then 2 else 1
  }

  function SlotOrganization(slot: Slot): set<OrgId> { if slot.OfOrganization? then {slot.org} else {} }

  /** The slots that answering may fill. */
  function Sources(slot: Slot): set<Slot> {
    if slot.family == AllGrants then {slot, slot.(family := UserGrants), slot.(family := GroupsGrants)} else {slot}
  }

  function Reach(call: Call): set<Slot> {
    match call
    case Organization(family, _, bound) => if bound.Some? then Sources(OfOrganization(family, bound.value)) else {}
    case Global(family, _) => Sources(OfUser(family))
    case Both(family, _, bound) =>
      Sources(OfUser(family)) + (if bound.Some? then Sources(OfOrganization(family, bound.value)) else {})
    case Named(org, includeGlobal, _) =>
      (if org.Some? then {OfOrganization(MembershipGrants, org.value)} else {})
      + (if includeGlobal then Sources(OfUser(AllGrants)) else {})
  }

  /** The slots a call may fill, one by one: the user's, when it reads what is granted everywhere, those of
      the organization it is about, and of other families only the two sources of a union. */
  lemma ReachIff(call: Call, slot: Slot)
    ensures slot in Reach(call) <==>
      match call
      case Organization(family, _, bound) => slot.OfOrganization? && bound == Some(slot.org) && Fills(family, slot.family)
      case Global(family, _) => slot.OfUser? && Fills(family, slot.family)
      case Both(family, _, bound) => (slot.OfOrganization? ==> bound == Some(slot.org)) && Fills(family, slot.family)
      case Named(org, includeGlobal, _) =>
        if slot.OfOrganization? then org == Some(slot.org) && slot.family.MembershipGrants?
        else includeGlobal && Fills(AllGrants, slot.family)
    ensures Asked(call) == (match call
                            case Organization(_, _, Some(org)) => {org}
                            case Both(_, _, Some(org)) => {org}
                            case Named(Some(org), _, _) => {org}
                            case _ => {})
    ensures QueriesAllowed(slot) <= 2 && (QueriesAllowed(slot) == 2 <==> slot.OfOrganization? && slot.family.MembershipGrants?)
    ensures slot.family.AllGrants? <==> QueriesAllowed(slot) == 0
  {
  }

  predicate Fills(asked: Family, family: Family) {
    family == asked || (asked.AllGrants? && (family.UserGrants? || family.GroupsGrants?))
  }

  /** No entry is dropped or replaced, and entries are added at `slots` only. */
  ghost predicate Extends(before: map<Slot, LabelSet>, after: map<Slot, LabelSet>, slots: set<Slot>) {
    && before.Keys <= after.Keys <= before.Keys + slots
    && forall k :: k in before ==> after[k] == before[k]
  }

  /** A user object and what the backend stores on it. The logs are the queries it caused. */
  class UserObject {
    const db: Db
    const id: UserId
    var memberships: map<OrgId, Option<Pk>>
    var entries: map<Slot, LabelSet>
    ghost var cached: set<LabelSet>
    var membershipQueries: multiset<OrgId>
    var permissionQueries: multiset<Slot>

    constructor (db: Db, id: UserId)
      requires id in db.users
      ensures this.db == db && this.id == id && Valid() && memberships == map[] && entries == map[]
    {
      this.db, this.id := db, id;
      memberships, entries := map[], map[];
      cached, membershipQueries, permissionQueries := {}, multiset{}, multiset{};
    }

    /** Every entry is the uncached answer, the empty ones included; the logs show each organization
        looked up once at most and each slot computed once at most. */
    ghost predicate Valid()
      reads this, cached
    {
      id in db.users && EntriesAreExact() && LogsAreWithinBounds()
    }

    ghost predicate EntriesAreExact()
      requires id in db.users
      reads this, cached
    {
      && (forall o :: o in memberships ==> memberships[o] == MembershipOf(db, id, o))
      && (forall k :: k in entries ==> entries[k] in cached && entries[k].labels == SlotLabels(db, id, k))
    }

    ghost predicate LogsAreWithinBounds()
      reads this
    {
      && (forall o :: membershipQueries[o] <= if o in memberships then 1 else 0)
      && (forall k :: permissionQueries[k] <= if k in entries then QueriesAllowed(k) else 0)
    }

    /** `_get_membership`. */
    method GetMembership(org: OrgId) returns (m: Option<Pk>)
      requires Valid()
      modifies this`memberships, this`membershipQueries
      ensures Valid() && m == MembershipOf(db, id, org)
      ensures memberships.Keys == old(memberships).Keys + {org}
    {
      if org !in memberships {
        memberships := memberships[org := MembershipOf(db, id, org)];
        membershipQueries := membershipQueries + multiset{org};
      }
      m := memberships[org];
    }

    /** `cache[organization.pk] = ...`, and `setattr` for the global half. */
    method Store(slot: Slot, answer: LabelSet, queries: nat)
      requires Valid() && slot !in entries && answer !in cached
      requires answer.labels == SlotLabels(db, id, slot) && queries <= QueriesAllowed(slot)
      modifies this`entries, this`cached, this`permissionQueries
      ensures Valid() && entries == old(entries)[slot := answer]
    {
      entries := entries[slot := answer];
      cached := cached + {answer};
      permissionQueries := permissionQueries[slot := queries];
    }

    /** The query behind one source of one organization, or of the user. */
    method Query(slot: Slot) returns (found: LabelSet, queries: nat)
      requires Valid() && slot.family != AllGrants && (slot.OfUser? ==> slot.family != MembershipGrants)
      modifies this`memberships, this`membershipQueries
      ensures Valid() && fresh(found) && found.labels == SlotLabels(db, id, slot) && queries <= QueriesAllowed(slot)
      ensures memberships.Keys <= old(memberships).Keys + SlotOrganization(slot)
    {
      var labels: set<string>;
      queries := 1;
      if slot.OfUser? {
        labels := GlobalLabels(db, id, slot.family);
      } else if db.users[id].superuser && slot.family != MembershipGrants {
        labels := AllLabels(db);
      } else {
        var m := GetMembership(slot.org);
        if m.None? {
          labels, queries := {}, 0;
        } else if slot.family == UserGrants {
          labels := DirectLabels(db, db.memberships[m.value]);
        } else if slot.family == GroupsGrants {
          labels := GroupLabels(db, db.memberships[m.value]);
        } else {
          labels, queries := DirectLabels(db, db.memberships[m.value]) + GroupLabels(db, db.memberships[m.value]), 2;
        }
      }
      found := new LabelSet(labels);
    }

    /** The cached part of `_get_organization_permissions`, `_get_global_permissions` and
        `_get_membership_permissions`: `not in`, so that an empty answer is a hit. */
    method Source(slot: Slot) returns (answer: LabelSet)
      requires Valid() && slot.family != AllGrants && (slot.OfUser? ==> slot.family != MembershipGrants)
      modifies this
      ensures Valid() && answer.labels == SlotLabels(db, id, slot)
      ensures Extends(old(entries), entries, {slot}) && memberships.Keys <= old(memberships).Keys + SlotOrganization(slot)
    {
      if slot !in entries {
        var found, queries := Query(slot);
        Store(slot, found, queries);
      }
      answer := entries[slot];
    }

    /** The cached part of the two `get_all_*`: the union of the two sources, as a set of its own. */
    method AllOf(slot: Slot) returns (answer: LabelSet)
      requires Valid() && slot.family == AllGrants
      modifies this
      ensures Valid() && answer.labels == SlotLabels(db, id, slot)
      ensures Extends(old(entries), entries, Sources(slot)) && memberships.Keys <= old(memberships).Keys + SlotOrganization(slot)
    {
      if slot !in entries {
        var both := UnionOfSources(slot);
        Store(slot, both, 0);
      }
      answer := entries[slot];
    }

    method UnionOfSources(slot: Slot) returns (both: LabelSet)
      requires Valid() && slot.family == AllGrants
      modifies this
      ensures Valid() && fresh(both) && both !in cached && both.labels == SlotLabels(db, id, slot)
      ensures Extends(old(entries), entries, Sources(slot) - {slot})
      ensures memberships.Keys <= old(memberships).Keys + SlotOrganization(slot)
    {
      hide SlotLabels, EntriesAreExact, LogsAreWithinBounds;
      var direct := Source(slot.(family := UserGrants));
      var byGroup := Source(slot.(family := GroupsGrants));
      AllIsTheUnion(db, id, slot);
      both := direct.Union(byGroup);
    }

    /** Any entry point of the backend: the gate, the caches behind it, and the widenings. */
    method Answer(call: Call) returns (answer: LabelSet)
      requires Valid() && IsEntryPoint(call)
      modifies this
      ensures Valid() && answer.labels == Uncached(db, id, call)
      ensures Extends(old(entries), entries, Reach(call)) && memberships.Keys <= old(memberships).Keys + Asked(call)
      ensures forall s :: s in old(cached) ==> s.labels == old(s.labels)
    {
      match call
      case Organization(family, forObject, bound) => answer := OfTheBound(family, forObject, bound);
      case Global(family, forObject) => answer := OfTheUser(family, forObject);
      case Both(family, forObject, bound) => answer := GetBoth(family, forObject, bound);
      case Named(org, includeGlobal, allowSuperuser) => answer := GetNamed(org, includeGlobal, allowSuperuser);
    }

    /** `_get_organization_permissions` and `get_all_organization_permissions`. */
    method OfTheBound(family: Family, forObject: bool, bound: Option<OrgId>) returns (answer: LabelSet)
      requires Valid() && family != MembershipGrants
      modifies this
      ensures Valid() && answer.labels == Uncached(db, id, Organization(family, forObject, bound))
      ensures Extends(old(entries), entries, Reach(Organization(family, forObject, bound)))
      ensures memberships.Keys <= old(memberships).Keys + Asked(Organization(family, forObject, bound))
    {
      if !db.users[id].active || db.users[id].anonymous || forObject || bound.None? {
        answer := new LabelSet({});
      } else if family == AllGrants {
        answer := AllOf(OfOrganization(family, bound.value));
      } else {
        answer := Source(OfOrganization(family, bound.value));
      }
    }

    /** `_get_global_permissions` and `get_all_global_permissions`. */
    method OfTheUser(family: Family, forObject: bool) returns (answer: LabelSet)
      requires Valid() && family != MembershipGrants
      modifies this
      ensures Valid() && answer.labels == Uncached(db, id, Global(family, forObject))
      ensures Extends(old(entries), entries, Reach(Global(family, forObject))) && memberships.Keys <= old(memberships).Keys
    {
      if !db.users[id].active || db.users[id].anonymous || forObject {
        answer := new LabelSet({});
      } else if family == AllGrants {
        answer := AllOf(OfUser(family));
      } else {
        answer := Source(OfUser(family));
      }
    }

    /** `_get_permissions`, for one source, and `get_all_permissions`: both halves, in a set of no cache. */
    method GetBoth(family: Family, forObject: bool, bound: Option<OrgId>) returns (answer: LabelSet)
      requires Valid() && family != MembershipGrants
      modifies this
      ensures Valid() && answer.labels == Uncached(db, id, Both(family, forObject, bound))
      ensures Extends(old(entries), entries, Reach(Both(family, forObject, bound)))
      ensures memberships.Keys <= old(memberships).Keys + Asked(Both(family, forObject, bound))
    {
      var everywhere := OfTheUser(family, forObject);
      var here := OfTheBound(family, forObject, bound);
      answer := everywhere.Union(here);
    }

    /** `get_organization_permissions`: the organization is named, the two widenings are asked for. */
    method GetNamed(org: Option<OrgId>, includeGlobal: bool, allowSuperuser: bool) returns (answer: LabelSet)
      requires Valid()
      modifies this
      ensures Valid() && answer.labels == Uncached(db, id, Named(org, includeGlobal, allowSuperuser))
      ensures Extends(old(entries), entries, Reach(Named(org, includeGlobal, allowSuperuser)))
      ensures memberships.Keys <= old(memberships).Keys + Asked(Named(org, includeGlobal, allowSuperuser))
    {
      if org.None? || db.users[id].anonymous || !db.users[id].active {
        answer := new LabelSet({});
      } else if allowSuperuser && db.users[id].superuser {
        answer := new LabelSet(AllLabels(db));
      } else {
        answer := Source(OfOrganization(MembershipGrants, org.value));
        if includeGlobal {
          var everywhere := OfTheUser(AllGrants, false);
          answer := answer.Union(everywhere);
        }
      }
    }
  }

  lemma AllIsTheUnion(db: Db, id: UserId, slot: Slot)
    requires id in db.users && slot.family == AllGrants
    ensures SlotLabels(db, id, slot)
         == SlotLabels(db, id, slot.(family := UserGrants)) + SlotLabels(db, id, slot.(family := GroupsGrants))
  {
  }

  function AllAsked(calls: seq<Call>): set<OrgId>
    decreases |calls|
  {
    if calls == [] then {} else AllAsked(calls[..|calls| - 1]) + Asked(calls[|calls| - 1])
  }

  function AllReached(calls: seq<Call>): set<Slot>
    decreases |calls|
  {
    if calls == [] then {} else AllReached(calls[..|calls| - 1]) + Reach(calls[|calls| - 1])
  }

  lemma {:induction false} AllAskedMembers(calls: seq<Call>)
    ensures forall o :: o in AllAsked(calls) <==> exists k :: 0 <= k < |calls| && o in Asked(calls[k])
    ensures forall slot :: slot in AllReached(calls) <==> exists k :: 0 <= k < |calls| && slot in Reach(calls[k])
    decreases |calls|
  {
    if calls != [] {
      var front := calls[..|calls| - 1];
      AllAskedMembers(front);
      forall o ensures o in AllAsked(calls) <==> exists k :: 0 <= k < |calls| && o in Asked(calls[k]) {
        if o in AllAsked(front) {
          var k :| 0 <= k < |front| && o in Asked(front[k]);
          assert o in Asked(calls[k]);
        }
        if k :| 0 <= k < |calls| && o in Asked(calls[k]) { assert k < |front| ==> o in Asked(front[k]); }
      }
      forall slot ensures slot in AllReached(calls) <==> exists k :: 0 <= k < |calls| && slot in Reach(calls[k]) {
        if slot in AllReached(front) {
          var k :| 0 <= k < |front| && slot in Reach(front[k]);
          assert slot in Reach(calls[k]);
        }
        if k :| 0 <= k < |calls| && slot in Reach(calls[k]) { assert k < |front| ==> slot in Reach(front[k]); }
      }
    }
  }

  method AnswerInTurn(user: UserObject, calls: seq<Call>) returns (answers: seq<set<string>>)
    requires user.Valid() && user.memberships == map[] && user.entries == map[]
    requires forall k :: 0 <= k < |calls| ==> IsEntryPoint(calls[k])
    modifies user
    ensures user.Valid() && |answers| == |calls|
    ensures forall k :: 0 <= k < |calls| ==> answers[k] == Uncached(user.db, user.id, calls[k])
    ensures user.memberships.Keys <= AllAsked(calls) && user.entries.Keys <= AllReached(calls)
  {
    hide Uncached, Reach, Asked, SlotLabels, UserObject.EntriesAreExact, UserObject.LogsAreWithinBounds;
    answers := [];
    for k := 0 to |calls|
      invariant user.Valid()
      invariant user.memberships.Keys <= AllAsked(calls[..k]) && user.entries.Keys <= AllReached(calls[..k])
      invariant |answers| == k && forall j :: 0 <= j < k ==> answers[j] == Uncached(user.db, user.id, calls[j])
    {
      assert calls[..k + 1][..k] == calls[..k];
      var answer := user.Answer(calls[k]);
      answers := answers + [answer.labels];
    }
    assert calls[..|calls|] == calls;
  }

  /** Any interleaving of calls, over any organizations and options, on a fixed database: every answer
      is the uncached one. Whatever the calls, an organization they name is looked up once at most and
      any other never; a source of an organization, or of the user, is queried once at most in each
      family that reads it, and the unions cost nothing. The superuser's bypass of `Named` keeps nothing
      and is not counted here. */
  method AnswerAll(db: Db, id: UserId, calls: seq<Call>)
    returns (answers: seq<set<string>>, lookups: multiset<OrgId>, queries: multiset<Slot>)
    requires id in db.users && forall k :: 0 <= k < |calls| ==> IsEntryPoint(calls[k])
    ensures |answers| == |calls|
    ensures forall k :: 0 <= k < |calls| ==> answers[k] == Uncached(db, id, calls[k])
    ensures forall o :: lookups[o] <= if o in AllAsked(calls) then 1 else 0
    ensures forall slot :: queries[slot] <= if slot in AllReached(calls) then QueriesAllowed(slot) else 0
  {
    var user := new UserObject(db, id);
    answers := AnswerInTurn(user, calls);
    lookups, queries := user.membershipQueries, user.permissionQueries;
    assert user.LogsAreWithinBounds();
  }

  /** Without widenings the named answer is the ambient one for everybody but a superuser, who is
      answered by their membership like anybody else. With the global half it is `get_all_permissions`. */
  lemma NamedAgainstAmbient(db: Db, id: UserId, org: OrgId)
    requires id in db.users
    ensures Uncached(db, id, Named(Some(org), false, false)) == Uncached(db, id, Organization(AllGrants, false, Some(org)))
       <==> Gated(db, id, false) || !db.users[id].superuser || BackendLabels(db, id, org) == AllLabels(db)
    ensures !db.users[id].superuser ==>
      Uncached(db, id, Named(Some(org), true, false)) == Uncached(db, id, Both(AllGrants, false, Some(org)))
  {
    if !db.users[id].superuser {
      assert BackendLabels(db, id, org) == OrganizationLabels(db, id, AllGrants, org);
    } else {
      assert OrganizationLabels(db, id, AllGrants, org) == AllLabels(db);
    }
  }
}
