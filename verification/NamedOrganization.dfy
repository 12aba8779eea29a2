/** `authorization.get_organization_permissions`: the organization is named by the caller, and whatever
    happens to be bound must not change the answer. */
module NamedOrganization {
  import opened Outcomes
  import opened Permissions
  import opened PermissionCache
  import opened ContextBinding

  /** What may be passed: nothing, an instance (saved or not), a lazy object that stands for nothing, or
      a primary key. */
  datatype Argument = NoArgument | OfInstance(pk: Option<Permissions.OrgId>) | OfLazyNothing | OfKey(key: Permissions.OrgId)

  datatype Widening = Widening(includeGlobal: bool, allowSuperuser: bool)

  function Resolve(db: Db, user: UserId, org: Permissions.OrgId, widening: Widening): set<string>
    requires user in db.users
  {
    NamedLabels(db, user, Some(org), widening.includeGlobal, widening.allowSuperuser)
  }

  /** The answer, when `current` is what is bound. Only a key that names what is bound skips the query
      that would find out whether there is such an organization. */
  function AnswerUnder(db: Db, user: UserId, argument: Argument, widening: Widening,
        current: Option<Permissions.OrgId>): set<string>
    requires user in db.users
  {
    if Gated(db, user, false) then {}
    else match argument
      case NoArgument => {}
      case OfLazyNothing => {}
      case OfInstance(pk) => if pk.None? then {} else Resolve(db, user, pk.value, widening)
      case OfKey(key) => if current == Some(key) || key in db.orgs then Resolve(db, user, key, widening) else {}
  }

  /** The organization an argument stands for: an instance for its own key, a key for the organization it
      finds or the one that is bound, and anything else for none. */
  function Target(db: Db, argument: Argument, current: Option<Permissions.OrgId>): Option<Permissions.OrgId> {
    if argument.OfInstance? then argument.pk
    else if argument.OfKey? && (argument.key in db.orgs || current == Some(argument.key)) then Some(argument.key)
    else None
  }

  /** What comes out, for every argument: what the backend answers about that organization by name; so,
      without widenings, exactly the labels an active membership in it grants. */
  lemma AnswerIsTheNamedOne(db: Db, user: UserId, argument: Argument, widening: Widening,
        current: Option<Permissions.OrgId>, spelled: string)
    requires Permissions.Valid(db) && user in db.users
    ensures var org, answer := Target(db, argument, current), AnswerUnder(db, user, argument, widening, current);
            && answer == Uncached(db, user, Call.Named(org, widening.includeGlobal, widening.allowSuperuser))
            && (org.None? || !db.users[user].active || db.users[user].anonymous ==> answer == {})
            && (org.Some? && db.users[user].active && !db.users[user].anonymous && !widening.includeGlobal && !widening.allowSuperuser ==>
                  (spelled in answer <==> MemberHasLabel(db, user, org.value, spelled)))
  {
    var org := Target(db, argument, current);
    if org.Some? { BackendGrantsIff(db, user, org.value, spelled); }
  }

  /** `_resolve` under `organization_state.context(target)`. */
  method ResolveBound(user: UserObject, target: Permissions.OrgId, widening: Widening,
        state: OrganizationState) returns (answer: LabelSet)
    requires user.Valid()
    modifies user, state.current
    ensures user.Valid() && state.current.value == old(state.current.value)
    ensures answer.labels == Resolve(user.db, user.id, target, widening)
  {
    hide NamedLabels, UserObject.EntriesAreExact, UserObject.LogsAreWithinBounds;
    var context := new OrganizationContext(state, Instance(target));
    context.Enter();
    answer := user.GetNamed(Some(target), widening.includeGlobal, widening.allowSuperuser);
    var _ := context.Exit();
  }

  /** The function as it runs, on the caches of the user object. The binding afterwards is the one before. */
  method GetOrganizationPermissions(user: UserObject, argument: Argument, widening: Widening,
      state: OrganizationState, slugs: map<string, ContextBinding.OrgId>)
    returns (answer: LabelSet)
    requires user.Valid()
    modifies user, state.current
    ensures user.Valid() && state.current.value == old(state.current.value)
    ensures answer.labels == AnswerUnder(user.db, user.id, argument, widening, Read(slugs, old(state.current.value)))
  {
    hide NamedLabels, UserObject.EntriesAreExact, UserObject.LogsAreWithinBounds;
    var pk: Option<Permissions.OrgId> := match argument
      case OfInstance(pk) => pk
      case OfKey(key) => Some(key)
      case _ => None;
    if user.db.users[user.id].anonymous || !user.db.users[user.id].active || pk.None? {
      answer := new LabelSet({});
    } else if Read(slugs, state.current.value) == pk {
      answer := user.GetNamed(pk, widening.includeGlobal, widening.allowSuperuser);
    } else if argument.OfKey? && pk.value !in user.db.orgs {
      answer := new LabelSet({});
    } else {
      answer := ResolveBound(user, pk.value, widening, state);
    }
  }

  /** Any calls to the backend, for what they leave on the user object. */
  method Warm(user: UserObject, calls: seq<Call>)
    requires user.Valid() && forall c :: c in calls ==> IsEntryPoint(c)
    modifies user
    ensures user.Valid()
  {
    for k := 0 to |calls|
      invariant user.Valid()
    {
      var _ := user.Answer(calls[k]);
    }
  }

  /** The same question under two bindings, with any calls to the backend before and in between. */
  method AskUnderTwoBindings(user: UserObject, argument: Argument, widening: Widening, state: OrganizationState,
      slugs: map<string, ContextBinding.OrgId>, one: Selection, other: Selection, before: seq<Call>, between: seq<Call>)
    returns (first: set<string>, second: set<string>)
    requires user.Valid()
    requires forall c :: c in before || c in between ==> IsEntryPoint(c)
    requires Exists(user.db, Read(slugs, Coerce(one))) && Exists(user.db, Read(slugs, Coerce(other)))
    modifies user, state.current
    ensures first == second && state.current.value == Coerce(other)
  {
    Warm(user, before);
    var _ := state.Set(one);
    var answer := GetOrganizationPermissions(user, argument, widening, state, slugs);
    first := answer.labels;
    Warm(user, between);
    var _ := state.Set(other);
    answer := GetOrganizationPermissions(user, argument, widening, state, slugs);
    second := answer.labels;
  }

  predicate Exists(db: Db, current: Option<Permissions.OrgId>) { current.Some? ==> current.value in db.orgs }

  /** An instance that outlived its row is let through by its own key. Then, and only then, the binding
      can show: when the caller asked for a widening that grants something without any membership. */
  lemma StaleBindingShowsIff(db: Db, user: UserId, key: Permissions.OrgId, widening: Widening,
        other: Option<Permissions.OrgId>)
    requires Permissions.Valid(db) && user in db.users && !Gated(db, user, false)
    requires key !in db.orgs && other != Some(key)
    ensures AnswerUnder(db, user, OfKey(key), widening, Some(key)) == AnswerUnder(db, user, OfKey(key), widening, other)
       <==> if widening.allowSuperuser && db.users[user].superuser then AllLabels(db) == {}
            else widening.includeGlobal ==> GlobalLabels(db, user, AllGrants) == {}
  {
    assert MembershipOf(db, user, key) == None by {
      assert forall m :: m in db.memberships ==> db.memberships[m].org in db.orgs;
      assert (set m | m in db.memberships && IsActiveMembership(db, user, key, m)) == {};
    }
    assert BackendLabels(db, user, key) == {};
  }
}
