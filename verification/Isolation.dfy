/** The layers together: who the caller is decides what can be bound, and what is bound decides what code
    can see and change. */
module Isolation {
  import opened Outcomes
  import opened NonInterference
  import R = Retrievers

  /** A request starts with no instance in hand, on a table whose key supply is above every row. */
  ghost predicate Starts(c: Client) { c.live == map[] && Supplied(c.db) }

  /** The two clients agree on every row the caller's memberships reach. */
  ghost predicate AlikeWithinReach(tenancy: R.Db, user: R.UserId, a: Client, b: Client, s: RI.Targets, t: RI.Targets) {
    && a.live == b.live && a.db.nextPk == b.db.nextPk
    && forall o :: R.Belongs(tenancy, user, o) ==> RowsOf(a.db, o) == RowsOf(b.db, o) && TargetsAlike(s, t, o)
  }

  /** Rows of organizations the caller does not belong to are the ones they were; none came, none went. */
  ghost predicate UntouchedBeyondReach(tenancy: R.Db, user: R.UserId, before: O.Db, after: O.Db) {
    && (forall p :: p in before.rows && !R.Belongs(tenancy, user, before.rows[p].org) ==>
          p in after.rows && after.rows[p] == before.rows[p])
    && (forall p :: p in after.rows && !R.Belongs(tenancy, user, after.rows[p].org) ==>
          p in before.rows && before.rows[p] == after.rows[p])
  }

  /** Scoped code, run under an organization the caller belongs to, neither changes nor tells apart
      anything the caller's memberships do not reach. */
  lemma ReachIsRespected(tenancy: R.Db, user: R.UserId, org: R.OrgId, a: Client, b: Client, s: RI.Targets,
        t: RI.Targets, env: O.Env, strictFilter: bool, ops: seq<Op>)
    requires R.Belongs(tenancy, user, org) && env.bound == Some(org) && !env.allowed
    requires forall op :: op in ops ==> OwnOp(op, org)
    requires Starts(a) && Starts(b) && AlikeWithinReach(tenancy, user, a, b, s, t)
    ensures var x, y := ClientRun(a, s, env, strictFilter, ops), ClientRun(b, t, env, strictFilter, ops);
            && x.1 == y.1 && AlikeWithinReach(tenancy, user, x.0, y.0, s, t)
            && UntouchedBeyondReach(tenancy, user, a.db, x.0.db)
  {
    OrganizationsDoNotInterfere(a, b, s, t, env, strictFilter, org, ops);
    var x, y := ClientRun(a, s, env, strictFilter, ops).0, ClientRun(b, t, env, strictFilter, ops).0;
    forall o | R.Belongs(tenancy, user, o) && o != org
      ensures RowsOf(x.db, o) == RowsOf(y.db, o)
    {
      assert RowsOf(x.db, o) == RowsOf(a.db, o) == RowsOf(b.db, o) == RowsOf(y.db, o);
    }
  }

  /** Behind the middleware: an account whose request resolves through any list of header, session and
      membership retrievers, in any order. */
  lemma RequestsStayWithinMemberships(tenancy: R.Db, settings: R.Settings, said: R.Said, a: Client, b: Client,
        s: RI.Targets, t: RI.Targets, env: O.Env, org: R.OrgId, strictFilter: bool, ops: seq<Op>)
    requires R.Valid(tenancy) && settings.verify && said.caller.Account?
    requires forall r :: r in settings.retrievers ==> !r.ByDomain?
    requires R.OrganizationOf(tenancy, settings, said, None) == Success(Some(org)) && env.bound == Some(org) && !env.allowed
    requires forall op :: op in ops ==> OwnOp(op, org)
    requires Starts(a) && Starts(b) && AlikeWithinReach(tenancy, said.caller.id, a, b, s, t)
    ensures var x, y := ClientRun(a, s, env, strictFilter, ops), ClientRun(b, t, env, strictFilter, ops);
            && x.1 == y.1 && AlikeWithinReach(tenancy, said.caller.id, x.0, y.0, s, t)
            && UntouchedBeyondReach(tenancy, said.caller.id, a.db, x.0.db)
  {
    R.MatchIsVerified(tenancy, settings, said, settings.retrievers);
    assert R.ByDomain(Some(org)) !in settings.retrievers;
    ReachIsRespected(tenancy, said.caller.id, org, a, b, s, t, env, strictFilter, ops);
  }

  /** In a view that resolves for itself, whatever the caller names and however strict it is. */
  lemma ViewsStayWithinMemberships(tenancy: R.Db, caller: R.Caller, selection: R.Selection, strict: bool, a: Client,
        b: Client, s: RI.Targets, t: RI.Targets, env: O.Env, org: R.OrgId, strictFilter: bool, ops: seq<Op>)
    requires R.Valid(tenancy)
    requires R.ResolveOrganizationForUser(tenancy, caller, selection, strict) == Success(Some(org)) && env.bound == Some(org) && !env.allowed
    requires forall op :: op in ops ==> OwnOp(op, org)
    requires caller.Account? ==> Starts(a) && Starts(b) && AlikeWithinReach(tenancy, caller.id, a, b, s, t)
    ensures caller.Account?
    ensures var x, y := ClientRun(a, s, env, strictFilter, ops), ClientRun(b, t, env, strictFilter, ops);
            && x.1 == y.1 && AlikeWithinReach(tenancy, caller.id, x.0, y.0, s, t)
            && UntouchedBeyondReach(tenancy, caller.id, a.db, x.0.db)
  {
    R.ResolutionTable(tenancy, caller, selection, strict, org);
    ReachIsRespected(tenancy, caller.id, org, a, b, s, t, env, strictFilter, ops);
  }
}
