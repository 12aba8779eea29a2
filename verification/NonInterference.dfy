/** One organization cannot see or touch another's rows through the scoped manager (`managers.py`,
    the scoping functions of `querysets.py`): a relational property of whole client runs. */
module NonInterference {
  import opened Outcomes
  import opened Ownership
  import opened SafeFields
  import O = Ownership
  import OR = OwnershipRuns
  import RI = RelationIntegrity

  type Handle = nat
  type Targets = map<Pk, Row>

  /** Any predicate over a row and the target its safe relation joins to. */
  type Lookup = (Pk, Row, Option<Row>) -> bool

  // --------------------------------------------------- which rows a call starts from

  function RowsOf(db: Db, org: OrgId): map<Pk, Row> { map p | p in db.rows && db.rows[p].org == org :: db.rows[p] }

  /** `scope_queryset_to_current_organization`. */
  function ScopedToCurrent(db: Db, bound: Option<OrgId>, strict: bool): Result<map<Pk, Row>> {
    if bound.Some? then Success(RowsOf(db, bound.value))
    else if strict then Failure(OrganizationNotFound)
    else Success(map[])
  }

  /** `OrganizationScopedManagerMixin.get_queryset`: a related manager, or a block that asked for the
      unscoped default manager, starts from every row. */
  function ManagerQueryset(db: Db, related: bool, unscoped: bool, named: Option<OrgId>, bound: Option<OrgId>,
        strict: bool)
    : Result<map<Pk, Row>>
  {
    if related || unscoped then Success(db.rows)
    else if named.None? then ScopedToCurrent(db, bound, strict)
    else Success(RowsOf(db, named.value))
  }

  /** `_names_an_organization`: only a keyword of the lookup itself widens it, and `None` does not count. */
  predicate NamesAnOrganization(kwargs: map<string, Value>) {
    || (ORGANIZATION in kwargs && !kwargs[ORGANIZATION].Null?)
    || (ORGANIZATION_ID in kwargs && !kwargs[ORGANIZATION_ID].Null?)
  }

  /** Where `get_or_create` and `update_or_create` look. */
  function CreateQueryset(db: Db, kwargs: map<string, Value>, bound: Option<OrgId>, strict: bool)
    : Result<map<Pk, Row>>
  {
    if NamesAnOrganization(kwargs) then Success(db.rows)
    else ManagerQueryset(db, false, false, None, bound, strict)
  }

  /** The rows a queryset holds, for every way of asking for one; it raises only when it would have to
      scope, strictly, to nothing. */
  lemma WhichRowsAManagerStartsFrom(db: Db, related: bool, unscoped: bool, named: Option<OrgId>, bound: Option<OrgId>,
        strict: bool)
    ensures var q, widened := ManagerQueryset(db, related, unscoped, named, bound, strict), related || unscoped;
            var org := if named.Some? then named else bound;
            && (q.Failure? <==> !widened && org.None? && strict)
            && (q.Success? ==> forall p :: p in q.value <==> p in db.rows && (widened || org == Some(db.rows[p].org)))
            && (q.Success? ==> forall p :: p in q.value ==> q.value[p] == db.rows[p])
  {
  }

  /** Unless the call says otherwise, a scoped queryset holds rows of the bound organization only, and
      with nothing bound it holds none: it raises, or is empty. */
  lemma ScopeHoldsOnlyTheBoundOrganization(db: Db, kwargs: map<string, Value>, bound: Option<OrgId>, strict: bool)
    requires !NamesAnOrganization(kwargs)
    ensures var q := CreateQueryset(db, kwargs, bound, strict);
            && (q.Failure? <==> bound.None? && strict)
            && (q.Success? ==> forall p :: p in q.value <==> bound.Some? && p in db.rows && db.rows[p].org == bound.value)
  {
  }

  // ------------------------------------------------------------------ client programs

  /** `kwargs` holds the keywords of a lookup that name an organization, if any do; the meaning of the
      others is `where`. `values` is what a row is created with. */
  datatype Op =
    | Filter(where: Lookup)
    | Get(handle: Handle, where: Lookup)
    | GetOrCreate(handle: Handle, kwargs: map<string, Value>, where: Lookup, values: seq<Assignment>)
    | UpdateOrCreate(handle: Handle, kwargs: map<string, Value>, where: Lookup, defaults: seq<Assignment>,
        values: seq<Assignment>)
    | Create(handle: Handle, values: seq<Assignment>)
    | BulkCreateOf(each: seq<seq<Assignment>>, create: CreateArgs)
    | BulkUpdateOn(batches: seq<seq<Handle>>, names: seq<string>)
    | AssignOn(handle: Handle, value: Assignment)
    | SaveOn(handle: Handle, fields: Option<seq<string>>)
    | UpdateWhere(where: Lookup, kwargs: map<string, Value>)
    | DeleteWhere(where: Lookup)

  datatype Answer =
    | Rows(rows: map<Pk, Row>)
    | Instance(inst: Inst, created: bool)
    | Objects(objs: seq<Inst>)
    | Count(count: nat)
    | Done
    | Raised(error: Error)

  datatype Client = Client(db: Db, live: map<Handle, Inst>)

  /** The related row, when key and organization both match. */
  function Related(targets: Targets, row: Row): Option<Row> {
    if RI.Joins(targets, row) then Some(targets[row.key.value]) else None
  }

  function Matching(rows: map<Pk, Row>, targets: Targets, where: Lookup): map<Pk, Row> {
    map p | p in rows && where(p, rows[p], Related(targets, rows[p])) :: rows[p]
  }

  /** `objects.filter(...)` with what is bound. */
  function Scoped(db: Db, targets: Targets, where: Lookup, env: Env, strict: bool): Result<map<Pk, Row>> {
    var q := ManagerQueryset(db, false, false, None, env.bound, strict);
    if q.Failure? then q else Success(Matching(q.value, targets, where))
  }

  /** A keyword that names an organization is a condition of the lookup like any other. */
  predicate OrgMatches(kwargs: map<string, Value>, row: Row) {
    forall n :: n in kwargs && (n == ORGANIZATION || n == ORGANIZATION_ID) ==> kwargs[n] == Id(row.org)
  }

  function Narrowed(rows: map<Pk, Row>, kwargs: map<string, Value>): map<Pk, Row> {
    map p | p in rows && OrgMatches(kwargs, rows[p]) :: rows[p]
  }

  /** The lookup of `get_or_create` and `update_or_create`. */
  function LookedUp(db: Db, targets: Targets, kwargs: map<string, Value>, where: Lookup, env: Env, strict: bool)
    : Result<map<Pk, Row>>
  {
    var q := CreateQueryset(db, kwargs, env.bound, strict);
    if q.Failure? then q
    else Success(Matching(Narrowed(q.value, kwargs), targets, where))
  }

  ghost function TheOnly(pks: set<Pk>): Pk
    requires |pks| == 1
  {
    var p :| p in pks; p
  }

  /** What keywords make of a new row: the attname is set last, and decides. */
  function OrgOf(kwargs: map<string, Value>): Option<OrgId> {
    if ORGANIZATION_ID in kwargs then KeyOf(kwargs[ORGANIZATION_ID])
    else if ORGANIZATION in kwargs then KeyOf(kwargs[ORGANIZATION])
    else None
  }

  /** `Model(**kwargs, **values)`, unsaved. */
  function Built(kwargs: map<string, Value>, values: seq<Assignment>): Inst {
    AssignedAll(Inst(None, OrgOf(kwargs), None, 0, Unknown), values)
  }

  function BuiltAll(values: seq<seq<Assignment>>): seq<Inst> {
    seq(|values|, k requires 0 <= k < |values| => Built(map[], values[k]))
  }

  function Kept(c: Client, handle: Handle, r: Saved, created: bool): (Client, Answer) {
    if r.error.Some? then (c.(db := r.db), Raised(r.error.value))
    else (Client(r.db, c.live[handle := r.inst]), Instance(r.inst, created))
  }

  function CreateStep(c: Client, handle: Handle, built: Inst, env: Env): (Client, Answer) {
    Kept(c, handle, Save(c.db, built, env, SaveArgs(None, true, false)), true)
  }

  /** One call through `objects`, whatever is bound. */
  ghost function ClientStep(c: Client, targets: Targets, env: Env, strict: bool, op: Op): (Client, Answer) {
    match op
    case Filter(where) =>
      var found := Scoped(c.db, targets, where, env, strict);
      if found.Failure? then (c, Raised(found.error)) else (c, Rows(found.value))
    case Get(handle, where) =>
      var found := Scoped(c.db, targets, where, env, strict);
      if found.Failure? then (c, Raised(found.error))
      else if |found.value.Keys| == 0 then (c, Raised(DoesNotExist))
      else Fetched(c, handle, found.value)
    case GetOrCreate(handle, kwargs, where, values) =>
      var found := LookedUp(c.db, targets, kwargs, where, env, strict);
      if found.Failure? then (c, Raised(found.error))
      else if |found.value.Keys| == 0 then CreateStep(c, handle, Built(kwargs, values), env)
      else Fetched(c, handle, found.value)
    case UpdateOrCreate(handle, kwargs, where, defaults, values) =>
      var found := LookedUp(c.db, targets, kwargs, where, env, strict);
      if found.Failure? then (c, Raised(found.error))
      else if |found.value.Keys| > 1 then (c, Raised(MultipleObjectsReturned))
      else
        var pk := if |found.value.Keys| == 0 then None else Some(TheOnly(found.value.Keys));
        if pk.Some? && pk.value !in c.db.rows then (c, Raised(DoesNotExist))
        else
          var r := O.UpdateOrCreate(c.db, pk, Built(kwargs, values), defaults, env, false);
          Kept(c, handle, r, pk.None?)
    case Create(handle, values) => CreateStep(c, handle, Built(map[], values), env)
    case BulkCreateOf(each, create) =>
      var r := O.BulkCreate(c.db, BuiltAll(each), create, env.allowed);
      (c.(db := r.db), if r.error.Some? then Raised(r.error.value) else Objects(r.objs))
    case BulkUpdateOn(batches, names) =>
      var r := O.BulkUpdate(c.db, c.db.rows.Keys, OR.ObjectBatches(c.live, batches), names, false, env.allowed);
      (c.(db := r.db), if r.error.Some? then Raised(r.error.value) else Done)
    case AssignOn(handle, value) =>
      if handle in c.live then (c.(live := c.live[handle := Assigned(c.live[handle], value)]), Done) else (c, Done)
    case SaveOn(handle, fields) =>
      if handle !in c.live then (c, Done)
      else
        var r := Save(c.db, c.live[handle], env, SaveArgs(fields, false, false));
        (Client(r.db, c.live[handle := r.inst]), if r.error.Some? then Raised(r.error.value) else Done)
    case UpdateWhere(where, kwargs) =>
      var found := Scoped(c.db, targets, where, env, strict);
      if found.Failure? then (c, Raised(found.error))
      else
        var r := Update(c.db, found.value.Keys, kwargs, false, env.allowed);
        (c.(db := r.db), if r.error.Some? then Raised(r.error.value) else Count(|found.value.Keys|))
    case DeleteWhere(where) =>
      var found := Scoped(c.db, targets, where, env, strict);
      if found.Failure? then (c, Raised(found.error))
      else (c.(db := c.db.(rows := c.db.rows - found.value.Keys)), Count(|found.value.Keys|))
  }

  /** `get` on what was found, when something was. */
  ghost function Fetched(c: Client, handle: Handle, found: map<Pk, Row>): (Client, Answer)
    requires |found.Keys| > 0
  {
    if |found.Keys| > 1 then (c, Raised(MultipleObjectsReturned))
    else
      var i := FromDb(TheOnly(found.Keys), found[TheOnly(found.Keys)]);
      (c.(live := c.live[handle := i]), Instance(i, false))
  }

  ghost function ClientRun(c: Client, targets: Targets, env: Env, strict: bool, ops: seq<Op>): (Client, seq<Answer>)
    decreases |ops|
  {
    if ops == [] then (c, [])
    else
      var (next, answer) := ClientStep(c, targets, env, strict, ops[0]);
      var (last, answers) := ClientRun(next, targets, env, strict, ops[1..]);
      (last, [answer] + answers)
  }

  /** A run makes its calls in order: one more comes last, and so does its answer. */
  lemma {:induction false} RunOneMore(c: Client, targets: Targets, env: Env, strict: bool, ops: seq<Op>, last: Op)
    ensures
      var (before, answers) := ClientRun(c, targets, env, strict, ops);
      var (after, answer) := ClientStep(before, targets, env, strict, last);
      ClientRun(c, targets, env, strict, ops + [last]) == (after, answers + [answer])
    decreases |ops|
  {
    hide ClientStep;
    var whole := ops + [last];
    if ops == [] {
      var (next, answer) := ClientStep(c, targets, env, strict, last);
      var none: seq<Answer> := [];
      assert whole[0] == last && whole[1..] == [] && ops == [];
      assert ClientRun(next, targets, env, strict, whole[1..]) == (next, none);
      assert [answer] + none == none + [answer];
    } else {
      assert whole[0] == ops[0] && whole[1..] == ops[1..] + [last];
      var (next, first) := ClientStep(c, targets, env, strict, ops[0]);
      RunOneMore(next, targets, env, strict, ops[1..], last);
      var (before, rest) := ClientRun(next, targets, env, strict, ops[1..]);
      var answer := ClientStep(before, targets, env, strict, last).1;
      assert [first] + (rest + [answer]) == ([first] + rest) + [answer];
    }
  }

  // ------------------------------------------------------------------ what the calls do

  /** The rows a scoped lookup finds: the bound organization's, with a look at the target that key and
      organization both lead to. With nothing bound it finds none. */
  ghost predicate AreFound(found: map<Pk, Row>, db: Db, targets: Targets, env: Env, where: Lookup) {
    && (forall p :: p in found ==> p in db.rows && found[p] == db.rows[p])
    && forall p :: p in db.rows ==>
         var row := db.rows[p];
         var target := if row.key.Some? && row.key.value in targets && targets[row.key.value].org == row.org
                       then Some(targets[row.key.value]) else None;
         p in found <==> env.bound == Some(row.org) && where(p, row, target)
  }

  ghost predicate Refuses(env: Env, strict: bool) { env.bound.None? && strict }

  /** Reading with `filter`: the found rows, and nothing changes. Reading with `get`: the found row, or an
      exception where there is none, or more than one. */
  lemma ReadsMean(c: Client, targets: Targets, env: Env, strict: bool, handle: Handle, where: Lookup)
    ensures
      var (next, answer) := ClientStep(c, targets, env, strict, Filter(where));
      next == c && (if Refuses(env, strict) then answer == Raised(OrganizationNotFound)
                    else answer.Rows? && AreFound(answer.rows, c.db, targets, env, where))
    ensures
      var (next, answer) := ClientStep(c, targets, env, strict, Get(handle, where));
      if Refuses(env, strict) then next == c && answer == Raised(OrganizationNotFound)
      else exists found: map<Pk, Row> :: AreFound(found, c.db, targets, env, where)
             && if found.Keys == {} then next == c && answer == Raised(DoesNotExist)
                else if |found.Keys| > 1 then next == c && answer == Raised(MultipleObjectsReturned)
                else answer.Instance? && !answer.created && answer.inst.pk.Some? && answer.inst.pk.value in found
                     && answer.inst == FromDb(answer.inst.pk.value, found[answer.inst.pk.value])
                     && next == c.(live := c.live[handle := answer.inst])
  {
    if !Refuses(env, strict) {
      var found := Scoped(c.db, targets, where, env, strict).value;
      assert AreFound(found, c.db, targets, env, where);
      if found.Keys == {} { assert |found.Keys| == 0; } else { assert |found.Keys| != 0; }
    }
  }

  /** Writing through a scoped queryset: `update` is `Update` of the found rows, and a queryset that may
      not be asked changes nothing. */
  lemma UpdatesMean(c: Client, targets: Targets, env: Env, strict: bool, where: Lookup, kwargs: map<string, Value>)
    ensures
      var (next, answer) := ClientStep(c, targets, env, strict, UpdateWhere(where, kwargs));
      if Refuses(env, strict) then next == c && answer == Raised(OrganizationNotFound)
      else exists found: map<Pk, Row> :: AreFound(found, c.db, targets, env, where)
             && next == c.(db := Update(c.db, found.Keys, kwargs, false, env.allowed).db)
             && answer == (match Update(c.db, found.Keys, kwargs, false, env.allowed).error
                           case Some(error) => Raised(error)
                           case None => Count(|found|))
  {
    hide Update, Scoped, AreFound;
    ScopedIsFound(c.db, targets, env, strict, where);
    if !Refuses(env, strict) {
      var found := Scoped(c.db, targets, where, env, strict).value;
      assert |found.Keys| == |found|;
    }
  }

  /** And `delete` removes exactly the found rows. */
  lemma DeletesMean(c: Client, targets: Targets, env: Env, strict: bool, where: Lookup)
    ensures
      var (next, answer) := ClientStep(c, targets, env, strict, DeleteWhere(where));
      if Refuses(env, strict) then next == c && answer == Raised(OrganizationNotFound)
      else exists found: map<Pk, Row> :: AreFound(found, c.db, targets, env, where)
             && answer == Count(|found|) && next.live == c.live && next.db.nextPk == c.db.nextPk
             && (forall p :: p in next.db.rows <==> p in c.db.rows && p !in found)
             && (forall p :: p in next.db.rows ==> next.db.rows[p] == c.db.rows[p])
  {
    hide Scoped, AreFound;
    ScopedIsFound(c.db, targets, env, strict, where);
    if !Refuses(env, strict) {
      var found := Scoped(c.db, targets, where, env, strict).value;
      assert |found.Keys| == |found|;
    }
  }

  lemma ScopedIsFound(db: Db, targets: Targets, env: Env, strict: bool, where: Lookup)
    ensures Scoped(db, targets, where, env, strict).Failure? <==> Refuses(env, strict)
    ensures Scoped(db, targets, where, env, strict).Failure? ==>
              Scoped(db, targets, where, env, strict).error == OrganizationNotFound
    ensures !Refuses(env, strict) ==> AreFound(Scoped(db, targets, where, env, strict).value, db, targets, env, where)
  {
  }

  /** Writing instances: what is in hand is saved as it is, `create` saves what it builds, and what
      `get_or_create` does not find it creates; the answer is the outcome of that save. */
  lemma InstanceWritesMean(c: Client, targets: Targets, env: Env, strict: bool, handle: Handle,
        kwargs: map<string, Value>, where: Lookup, values: seq<Assignment>, fields: Option<seq<string>>)
    ensures
      var (next, answer) := ClientStep(c, targets, env, strict, SaveOn(handle, fields));
      if handle !in c.live then next == c
      else
        var r := Save(c.db, c.live[handle], env, SaveArgs(fields, false, false));
        next == Client(r.db, c.live[handle := r.inst]) && answer == (if r.error.Some? then Raised(r.error.value) else Done)
    ensures
      var r := Save(c.db, Built(map[], values), env, SaveArgs(None, true, false));
      ClientStep(c, targets, env, strict, Create(handle, values)) ==
        if r.error.Some? then (c.(db := r.db), Raised(r.error.value))
        else (Client(r.db, c.live[handle := r.inst]), Instance(r.inst, true))
    ensures
      var r := Save(c.db, Built(kwargs, values), env, SaveArgs(None, true, false));
      var nothing: Lookup := (p, row, target) => false;
      (Refuses(env, strict) && !NamesAnOrganization(kwargs)) ||
      ClientStep(c, targets, env, strict, GetOrCreate(handle, kwargs, nothing, values)) ==
        if r.error.Some? then (c.(db := r.db), Raised(r.error.value))
        else (Client(r.db, c.live[handle := r.inst]), Instance(r.inst, true))
  {
    var nothing: Lookup := (p, row, target) => false;
    if !(Refuses(env, strict) && !NamesAnOrganization(kwargs)) {
      assert LookedUp(c.db, targets, kwargs, nothing, env, strict).value.Keys == {};
    }
  }

  /** The calls that take several instances, or assign: `bulk_create` builds each from its own values,
      `bulk_update` takes what is in hand, both from the whole table, and an assignment is one. */
  lemma BulkCallsMean(c: Client, targets: Targets, env: Env, strict: bool, each: seq<seq<Assignment>>,
        create: CreateArgs,
        batches: seq<seq<Handle>>, names: seq<string>, handle: Handle, value: Assignment, objs: seq<Inst>)
    requires |objs| == |each| && forall k :: 0 <= k < |each| ==> objs[k] == AssignedAll(Inst(None, None, None, 0, Unknown), each[k])
    ensures
      var (next, answer) := ClientStep(c, targets, env, strict, BulkCreateOf(each, create));
      var r := O.BulkCreate(c.db, objs, create, env.allowed);
      next == c.(db := r.db) && answer == (match r.error case Some(error) => Raised(error) case None => Objects(r.objs))
    ensures
      var (next, answer) := ClientStep(c, targets, env, strict, BulkUpdateOn(batches, names));
      var r := O.BulkUpdate(c.db, c.db.rows.Keys, OR.ObjectBatches(c.live, batches), names, false, env.allowed);
      next == c.(db := r.db) && answer == (match r.error case Some(error) => Raised(error) case None => Done)
    ensures
      var (next, _) := ClientStep(c, targets, env, strict, AssignOn(handle, value));
      && next.db == c.db && next.live.Keys == c.live.Keys
      && (forall h :: h in c.live ==> next.live[h] == if h == handle then Assigned(c.live[h], value) else c.live[h])
  {
    assert BuiltAll(each) == objs;
  }

  lemma OneOfOne(pks: set<Pk>)
    requires |pks| == 1
    ensures pks == {TheOnly(pks)}
  {
    var p := TheOnly(pks);
    assert |pks - {p}| == 0;
    forall q | q in pks ensures q == p { assert q == p || q in pks - {p}; }
  }

  /** `update_or_create` on what its lookup finds: nothing, and it creates; one row, and it is updated from
      the defaults; several are too many. */
  lemma UpdateOrCreateMeans(c: Client, targets: Targets, env: Env, strict: bool, handle: Handle,
        kwargs: map<string, Value>, where: Lookup, defaults: seq<Assignment>, values: seq<Assignment>, pk: Option<Pk>)
    requires LookedUp(c.db, targets, kwargs, where, env, strict).Success?
    requires var found := LookedUp(c.db, targets, kwargs, where, env, strict).value;
             found.Keys == (if pk.Some? then {pk.value} else {})
    ensures pk.Some? ==> pk.value in c.db.rows
    ensures
      var r := O.UpdateOrCreate(c.db, pk, Built(kwargs, values), defaults, env, false);
      ClientStep(c, targets, env, strict, UpdateOrCreate(handle, kwargs, where, defaults, values)) ==
        if r.error.Some? then (c.(db := r.db), Raised(r.error.value))
        else (Client(r.db, c.live[handle := r.inst]), Instance(r.inst, pk.None?))
  {
    hide O.UpdateOrCreate, Built, LookedUp;
    UpsertLookupsMean(c.db, targets, kwargs, where, env, strict);
    var found := LookedUp(c.db, targets, kwargs, where, env, strict).value;
    if pk.Some? {
      assert pk.value in found.Keys;
      OneOfOne(found.Keys);
      assert TheOnly(found.Keys) in found.Keys;
    } else {
      assert |found.Keys| == 0;
    }
  }

  /** `get_or_create` on what its lookup finds: one row, and it is handed out; several are too many, for
      either call. */
  lemma GetOrCreateMeans(c: Client, targets: Targets, env: Env, strict: bool, handle: Handle,
        kwargs: map<string, Value>, where: Lookup, defaults: seq<Assignment>, values: seq<Assignment>)
    requires LookedUp(c.db, targets, kwargs, where, env, strict).Success?
    ensures
      var found := LookedUp(c.db, targets, kwargs, where, env, strict).value;
      && (forall p :: found.Keys == {p} ==>
            ClientStep(c, targets, env, strict, GetOrCreate(handle, kwargs, where, values)) ==
              (c.(live := c.live[handle := FromDb(p, found[p])]), Instance(FromDb(p, found[p]), false)))
      && (|found.Keys| > 1 ==>
            && ClientStep(c, targets, env, strict, GetOrCreate(handle, kwargs, where, values)) == (c, Raised(MultipleObjectsReturned))
            && ClientStep(c, targets, env, strict, UpdateOrCreate(handle, kwargs, where, defaults, values)) == (c, Raised(MultipleObjectsReturned)))
  {
    hide O.UpdateOrCreate, Built, LookedUp;
    var found := LookedUp(c.db, targets, kwargs, where, env, strict).value;
    forall p | found.Keys == {p} ensures |found.Keys| == 1 && TheOnly(found.Keys) == p {
      assert |{p}| == 1;
      OneOfOne(found.Keys);
      assert TheOnly(found.Keys) in {p};
    }
  }

  /** The rows such a lookup finds, and when it may not look: keywords that name an organization, `None`
      not being one, widen it to every row and then have to match; without them it keeps to the scope. */
  lemma UpsertLookupsMean(db: Db, targets: Targets, kwargs: map<string, Value>, where: Lookup, env: Env, strict: bool)
    ensures
      var found := LookedUp(db, targets, kwargs, where, env, strict);
      var named := exists n :: n in kwargs && (n == ORGANIZATION || n == ORGANIZATION_ID) && kwargs[n] != Null;
      && (found == Failure(OrganizationNotFound) <==> found.Failure?)
      && (found.Failure? <==> !named && env.bound.None? && strict)
      && (found.Success? ==>
            && (forall p :: p in found.value ==> p in db.rows && found.value[p] == db.rows[p])
            && forall p :: p in db.rows ==>
                 var row := db.rows[p];
                 var target := if row.key.Some? && row.key.value in targets && targets[row.key.value].org == row.org
                               then Some(targets[row.key.value]) else None;
                 p in found.value <==>
                   && (named || env.bound == Some(row.org)) && where(p, row, target)
                   && forall n :: n in kwargs && (n == ORGANIZATION || n == ORGANIZATION_ID) ==> kwargs[n] == Id(row.org))
  {
  }

  /** A new row's organization, by keyword: `organization_id` before `organization`, and nothing for
      `None`. */
  lemma KeywordsName(kwargs: map<string, Value>, org: OrgId)
    ensures Built(kwargs, []).org == Some(org) <==>
            if ORGANIZATION_ID in kwargs then kwargs[ORGANIZATION_ID] == Id(org)
            else ORGANIZATION in kwargs && kwargs[ORGANIZATION] == Id(org)
    ensures Built(kwargs, []) == Inst(None, Built(kwargs, []).org, None, 0, Unknown)
  {
  }

  // ------------------------------------------------- which calls keep to one organization

  /** The organization that all keywords naming one agree on. */
  function Pinned(kwargs: map<string, Value>): Option<OrgId> {
    if ORGANIZATION in kwargs then
      if ORGANIZATION_ID in kwargs && kwargs[ORGANIZATION_ID] != kwargs[ORGANIZATION] then None else KeyOf(kwargs[ORGANIZATION])
    else if ORGANIZATION_ID in kwargs then KeyOf(kwargs[ORGANIZATION_ID])
    else None
  }

  /** The keywords pin the lookup to no other organization. */
  predicate OwnKeywords(kwargs: map<string, Value>, org: OrgId) { Pinned(kwargs).None? || Pinned(kwargs) == Some(org) }

  /** An unsaved instance that, with `org` bound, can only become a row of `org`. */
  predicate Becoming(built: Inst, org: OrgId) { built.pk == None && (built.org == None || built.org == Some(org)) }

  /** Calls that look up or create name no other organization, and the keys of rows are left to the
      database. Everything else may say what it likes: values assigned to what was fetched, and defaults
      for a row that was found, are up to `save`. */
  predicate OwnOp(op: Op, org: OrgId) {
    match op
    case GetOrCreate(_, kwargs, _, values) => OwnKeywords(kwargs, org) && Becoming(Built(kwargs, values), org)
    case UpdateOrCreate(_, kwargs, _, defaults, values) =>
      && OwnKeywords(kwargs, org) && Becoming(Built(kwargs, values), org)
      && forall v :: v in defaults ==> !v.AssignPk?
    case Create(_, values) => Becoming(Built(map[], values), org)
    case BulkCreateOf(each, _) => forall i :: i in BuiltAll(each) ==> Becoming(i, org)
    case AssignOn(_, value) => !value.AssignPk?
    case _ => true
  }

  /** All reads, all writes through a scoped queryset, saves, and assignments but of keys are among them,
      whatever they say; a creating call is, if what it would create is. */
  lemma OwnOpIff(op: Op, org: OrgId)
    ensures op.Filter? || op.Get? || op.SaveOn? || op.UpdateWhere? || op.DeleteWhere? || op.BulkUpdateOn? ==> OwnOp(op, org)
    ensures op.AssignOn? && !op.value.AssignPk? ==> OwnOp(op, org)
    ensures op.Create? ==> (OwnOp(op, org) <==> Becoming(Built(map[], op.values), org))
    ensures op.BulkCreateOf? ==> (OwnOp(op, org) <==> forall k :: 0 <= k < |op.each| ==> Becoming(Built(map[], op.each[k]), org))
    ensures op.GetOrCreate? ==> (OwnOp(op, org) <==> OwnKeywords(op.kwargs, org) && Becoming(Built(op.kwargs, op.values), org))
    ensures op.UpdateOrCreate? && (forall k :: 0 <= k < |op.defaults| ==> !op.defaults[k].AssignPk?) ==>
              (OwnOp(op, org) <==> OwnKeywords(op.kwargs, org) && Becoming(Built(op.kwargs, op.values), org))
  {
    if op.BulkCreateOf? {
      var built := BuiltAll(op.each);
      assert forall k :: 0 <= k < |op.each| ==> built[k] == Built(map[], op.each[k]) && built[k] in built;
    }
  }

  // ------------------------------------------------------------------- the invariant

  /** Keys are handed out from a supply above every row. */
  ghost predicate Supplied(db: Db) { forall p :: p in db.rows ==> p < db.nextPk }

  /** What the client holds came from its own organization and still cannot name another's row. */
  ghost predicate Holds(db: Db, org: OrgId, i: Inst) {
    && i.snapshot == Known(org)
    && i.pk.Some? && i.pk.value < db.nextPk
    && (i.pk.value in db.rows ==> db.rows[i.pk.value].org == org)
  }

  ghost predicate Confined(c: Client, org: OrgId) {
    Supplied(c.db) && forall h :: h in c.live ==> Holds(c.db, org, c.live[h])
  }

  /** Nothing of any other organization differs. */
  ghost predicate OthersUntouched(before: Db, after: Db, org: OrgId) {
    && (forall p :: p in before.rows && before.rows[p].org != org ==> p in after.rows && after.rows[p] == before.rows[p])
    && (forall p :: p in after.rows && after.rows[p].org != org ==> p in before.rows && before.rows[p] == after.rows[p])
  }

  /** Two clients that cannot be told apart from inside `org`. */
  ghost predicate Alike(a: Client, b: Client, org: OrgId) {
    RowsOf(a.db, org) == RowsOf(b.db, org) && a.db.nextPk == b.db.nextPk && a.live == b.live
  }

  ghost predicate TargetsAlike(s: Targets, t: Targets, org: OrgId) {
    forall k :: (k in s && s[k].org == org <==> k in t && t[k].org == org)
                && (k in s && k in t && s[k].org == org ==> s[k] == t[k])
  }

  lemma SaveStaysInside(db: Db, i: Inst, env: Env, args: SaveArgs, org: OrgId)
    requires Supplied(db) && Holds(db, org, i) && !args.forceInsert && !args.unsafe && !env.allowed
    ensures var r := Save(db, i, env, args);
            && OthersUntouched(db, r.db, org) && Supplied(r.db) && r.db.nextPk == db.nextPk
            && Holds(r.db, org, r.inst)
            && forall j :: Holds(db, org, j) ==> Holds(r.db, org, j)
  {
  }

  lemma CreateStaysInside(c: Client, handle: Handle, built: Inst, env: Env, org: OrgId)
    requires Confined(c, org) && env.bound == Some(org) && Becoming(built, org)
    ensures var (next, _) := CreateStep(c, handle, built, env);
            Confined(next, org) && OthersUntouched(c.db, next.db, org)
  {
  }

  lemma PinnedRows(kwargs: map<string, Value>)
    ensures forall row :: (ORGANIZATION in kwargs || ORGANIZATION_ID in kwargs) && OrgMatches(kwargs, row) <==>
                          Pinned(kwargs) == Some(row.org)
  {
  }

  /** Scoping to what is bound starts every lookup from this organization's rows; a keyword that names
      it widens the queryset and narrows the lookup to the same rows. */
  lemma LookupsAreMine(db: Db, targets: Targets, kwargs: map<string, Value>, where: Lookup, env: Env, strict: bool,
        org: OrgId)
    requires env.bound == Some(org) && OwnKeywords(kwargs, org)
    ensures Scoped(db, targets, where, env, strict) == Success(Matching(RowsOf(db, org), targets, where))
    ensures LookedUp(db, targets, kwargs, where, env, strict) ==
            Success(Matching(Narrowed(RowsOf(db, org), kwargs), targets, where))
  {
    WhichRowsAManagerStartsFrom(db, false, false, None, env.bound, strict);
    var q := CreateQueryset(db, kwargs, env.bound, strict);
    PinnedRows(kwargs);
    if !NamesAnOrganization(kwargs) {
      ScopeHoldsOnlyTheBoundOrganization(db, kwargs, env.bound, strict);
    }
    forall p ensures p in Narrowed(q.value, kwargs) <==> p in Narrowed(RowsOf(db, org), kwargs) {
      if p in db.rows && NamesAnOrganization(kwargs) && OrgMatches(kwargs, db.rows[p]) {
        assert db.rows[p].org == org;
      }
    }
    assert Narrowed(q.value, kwargs) == Narrowed(RowsOf(db, org), kwargs);
  }

  lemma {:induction false} DefaultsKeepHold(db: Db, org: OrgId, i: Inst, defaults: seq<Assignment>)
    requires Holds(db, org, i) && forall v :: v in defaults ==> !v.AssignPk?
    ensures Holds(db, org, AssignedAll(i, defaults))
    decreases |defaults|
  {
    if defaults != [] {
      assert defaults[0] in defaults && forall v :: v in defaults[1..] ==> v in defaults;
      DefaultsKeepHold(db, org, Assigned(i, defaults[0]), defaults[1..]);
    }
  }

  lemma UpdateOrCreateStaysInside(c: Client, handle: Handle, pk: Option<Pk>, built: Inst, defaults: seq<Assignment>,
        env: Env, org: OrgId)
    requires Confined(c, org) && env.bound == Some(org) && !env.allowed && Becoming(built, org)
    requires pk.Some? ==> pk.value in c.db.rows && c.db.rows[pk.value].org == org
    requires forall v :: v in defaults ==> !v.AssignPk?
    ensures var (next, _) := Kept(c, handle, O.UpdateOrCreate(c.db, pk, built, defaults, env, false), pk.None?);
            Confined(next, org) && OthersUntouched(c.db, next.db, org)
  {
    assert env.(allowed := false || env.allowed) == env;
    if pk.Some? {
      var i := FromDb(pk.value, c.db.rows[pk.value]);
      DefaultsKeepHold(c.db, org, i, defaults);
      SaveStaysInside(c.db, AssignedAll(i, defaults), env, SaveArgs(DefaultFields(defaults), false, false), org);
    } else {
      CreateStaysInside(c, handle, built, env, org);
    }
  }

  lemma UpdateStaysInside(db: Db, matched: set<Pk>, kwargs: map<string, Value>, org: OrgId)
    requires forall p :: p in matched ==> p in db.rows && db.rows[p].org == org
    ensures var r := Update(db, matched, kwargs, false, false);
            && r.db.rows.Keys == db.rows.Keys && r.db.nextPk == db.nextPk
            && forall p :: p in db.rows ==> r.db.rows[p].org == db.rows[p].org && (p !in matched ==> r.db.rows[p] == db.rows[p])
  {
  }

  lemma UpsertStaysInside(c: Client, targets: Targets, env: Env, strict: bool, org: OrgId, op: Op)
    requires Confined(c, org) && env.bound == Some(org) && !env.allowed && OwnOp(op, org) && op.UpdateOrCreate?
    ensures var (next, _) := ClientStep(c, targets, env, strict, op);
            Confined(next, org) && OthersUntouched(c.db, next.db, org)
  {
    hide LookedUp, O.UpdateOrCreate, Kept, Built;
    LookupsAreMine(c.db, targets, op.kwargs, op.where, env, strict, org);
    var found := LookedUp(c.db, targets, op.kwargs, op.where, env, strict).value;
    if |found.Keys| <= 1 {
      var pk := if |found.Keys| == 0 then None else Some(TheOnly(found.Keys));
      UpdateOrCreateStaysInside(c, op.handle, pk, Built(op.kwargs, op.values), op.defaults, env, org);
    }
  }

  lemma BulkStaysInside(c: Client, targets: Targets, env: Env, strict: bool, org: OrgId, op: Op)
    requires Confined(c, org) && env.bound == Some(org) && !env.allowed && (op.UpdateWhere? || op.DeleteWhere?)
    ensures var (next, _) := ClientStep(c, targets, env, strict, op);
            Confined(next, org) && OthersUntouched(c.db, next.db, org)
  {
    hide Scoped, Update;
    LookupsAreMine(c.db, targets, map[], op.where, env, strict, org);
    if op.UpdateWhere? {
      UpdateStaysInside(c.db, Matching(RowsOf(c.db, org), targets, op.where).Keys, op.kwargs, org);
    }
  }

  // ---------------------------------------------------------------- the bulk calls

  lemma {:induction false} KeylessFirstPass(db: Db, objs: seq<Inst>, create: CreateArgs)
    requires forall i :: i in objs ==> i.pk.None?
    ensures CreatedPass(db, objs, create, true) == Created(db, objs, None)
    decreases |objs|
  {
    if objs != [] {
      assert objs[0] in objs && forall i :: i in objs[1..] ==> i in objs;
      KeylessFirstPass(db, objs[1..], create);
    }
  }

  /** New rows only, of this organization, under keys from the supply. */
  ghost predicate OnlyAdds(before: Db, after: Db, org: OrgId) {
    && before.nextPk <= after.nextPk
    && (forall p :: p in before.rows ==> p in after.rows && after.rows[p] == before.rows[p])
    && (forall p :: p in after.rows && p !in before.rows ==> before.nextPk <= p < after.nextPk && after.rows[p].org == org)
  }

  lemma {:induction false} KeylessPassAdds(db: Db, objs: seq<Inst>, create: CreateArgs, org: OrgId)
    requires Supplied(db) && forall i :: i in objs ==> Becoming(i, org)
    ensures OnlyAdds(db, CreatedPass(db, objs, create, false).db, org)
    decreases |objs|
  {
    if objs != [] {
      assert objs[0] in objs && forall i :: i in objs[1..] ==> i in objs;
      var first := CreatedOne(db, objs[0], create);
      assert OnlyAdds(db, first.db, org);
      if first.error.None? { KeylessPassAdds(first.db, objs[1..], create, org); }
    }
  }

  lemma {:induction false} KeylessPassesAlike(a: Db, b: Db, objs: seq<Inst>, create: CreateArgs, org: OrgId)
    requires Supplied(a) && Supplied(b) && MineAlike(a, b, org) && forall i :: i in objs ==> Becoming(i, org)
    ensures var r, q := CreatedPass(a, objs, create, false), CreatedPass(b, objs, create, false);
            r.objs == q.objs && r.error == q.error && MineAlike(r.db, q.db, org)
    decreases |objs|
  {
    if objs != [] {
      assert objs[0] in objs && forall i :: i in objs[1..] ==> i in objs;
      var first, other := CreatedOne(a, objs[0], create), CreatedOne(b, objs[0], create);
      assert first.inst == other.inst && first.error == other.error && MineAlike(first.db, other.db, org);
      if first.error.None? {
        assert Supplied(first.db) && Supplied(other.db);
        KeylessPassesAlike(first.db, other.db, objs[1..], create, org);
      }
    }
  }

  lemma BulkCreateAdds(db: Db, objs: seq<Inst>, create: CreateArgs, allowed: bool, org: OrgId)
    requires Supplied(db) && forall i :: i in objs ==> Becoming(i, org)
    ensures OnlyAdds(db, O.BulkCreate(db, objs, create, allowed).db, org)
  {
    KeylessFirstPass(db, objs, create);
    KeylessPassAdds(db, objs, create, org);
  }

  lemma BulkCreatesAlike(a: Db, b: Db, objs: seq<Inst>, create: CreateArgs, allowed: bool, org: OrgId)
    requires Supplied(a) && Supplied(b) && MineAlike(a, b, org) && forall i :: i in objs ==> Becoming(i, org)
    ensures var r, q := O.BulkCreate(a, objs, create, allowed), O.BulkCreate(b, objs, create, allowed);
            r.objs == q.objs && r.error == q.error && MineAlike(r.db, q.db, org)
  {
    KeylessFirstPass(a, objs, create);
    KeylessFirstPass(b, objs, create);
    KeylessPassesAlike(a, b, objs, create, org);
  }

  lemma AddingStaysInside(c: Client, db: Db, org: OrgId)
    requires Confined(c, org) && OnlyAdds(c.db, db, org)
    ensures Confined(c.(db := db), org) && OthersUntouched(c.db, db, org)
  {
  }

  /** The objects are about rows of this organization. */
  ghost predicate AboutMine(db: Db, objs: seq<Inst>, org: OrgId) {
    forall i :: i in objs && i.pk.Some? && i.pk.value in db.rows ==> db.rows[i.pk.value].org == org
  }

  /** Rows keep their keys and organizations, and only this organization's rows change. */
  ghost predicate OnlyEdits(before: Db, after: Db, org: OrgId) {
    && after.rows.Keys == before.rows.Keys && after.nextPk == before.nextPk
    && forall p :: p in before.rows ==>
         after.rows[p].org == before.rows[p].org && (before.rows[p].org != org ==> after.rows[p] == before.rows[p])
  }

  lemma NestedUpdateEdits(db: Db, within: set<Pk>, batch: seq<Inst>, fields: seq<string>, allowed: bool, org: OrgId)
    requires AboutMine(db, batch, org) && (NamesOrganization(fields) ==> OR.AgreeWith(db, batch))
    ensures OnlyEdits(db, NestedUpdate(db, within, batch, fields, allowed).db, org)
  {
    forall p | p in db.rows && FirstFor(batch, p).Some? ensures db.rows[p].org == org {
      OR.FirstForIsInBatch(batch, p);
    }
    forall p | p in db.rows && FirstFor(batch, p).Some? && NamesOrganization(fields)
      ensures FirstFor(batch, p).value.org == Some(db.rows[p].org)
    {
      OR.FirstForIsInBatch(batch, p);
    }
  }

  lemma NestedUpdateAlike(a: Db, b: Db, batch: seq<Inst>, fields: seq<string>, allowed: bool, org: OrgId)
    requires MineAlike(a, b, org) && AboutMine(a, batch, org) && AboutMine(b, batch, org)
    requires NamesOrganization(fields) ==> OR.AgreeWith(a, batch) && OR.AgreeWith(b, batch)
    ensures var r, q := NestedUpdate(a, a.rows.Keys, batch, fields, allowed), NestedUpdate(b, b.rows.Keys, batch, fields, allowed);
            r.error == q.error && MineAlike(r.db, q.db, org)
  {
    forall p | FirstFor(batch, p).Some?
      ensures p in a.rows ==> a.rows[p].org == org && (NamesOrganization(fields) ==> FirstFor(batch, p).value.org == Some(org))
      ensures p in b.rows ==> b.rows[p].org == org && (NamesOrganization(fields) ==> FirstFor(batch, p).value.org == Some(org))
    {
      OR.FirstForIsInBatch(batch, p);
    }
  }

  lemma {:induction false} NestedUpdatesEdit(db: Db, within: set<Pk>, batches: seq<seq<Inst>>, fields: seq<string>,
        allowed: bool, org: OrgId)
    requires AboutMine(db, Flat(batches), org) && (NamesOrganization(fields) ==> OR.AgreeWith(db, Flat(batches)))
    ensures OnlyEdits(db, NestedUpdates(db, within, batches, fields, allowed).db, org)
    decreases |batches|
  {
    if batches != [] {
      assert forall i :: i in batches[0] || i in Flat(batches[1..]) ==> i in Flat(batches);
      NestedUpdateEdits(db, within, batches[0], fields, allowed, org);
      NestedUpdatesEdit(NestedUpdate(db, within, batches[0], fields, allowed).db, within, batches[1..], fields, allowed, org);
    }
  }

  lemma {:induction false} NestedUpdatesAlike(a: Db, b: Db, batches: seq<seq<Inst>>, fields: seq<string>, allowed: bool,
        org: OrgId)
    requires MineAlike(a, b, org) && AboutMine(a, Flat(batches), org) && AboutMine(b, Flat(batches), org)
    requires NamesOrganization(fields) ==> OR.AgreeWith(a, Flat(batches)) && OR.AgreeWith(b, Flat(batches))
    ensures var r, q := NestedUpdates(a, a.rows.Keys, batches, fields, allowed), NestedUpdates(b, b.rows.Keys, batches, fields, allowed);
            r.error == q.error && MineAlike(r.db, q.db, org)
    decreases |batches|
  {
    if batches != [] {
      hide NestedUpdate, MineAlike;
      assert forall i :: i in batches[0] || i in Flat(batches[1..]) ==> i in Flat(batches);
      NestedUpdateEdits(a, a.rows.Keys, batches[0], fields, allowed, org);
      NestedUpdateEdits(b, b.rows.Keys, batches[0], fields, allowed, org);
      NestedUpdateAlike(a, b, batches[0], fields, allowed, org);
      NestedUpdatesAlike(NestedUpdate(a, a.rows.Keys, batches[0], fields, allowed).db,
                         NestedUpdate(b, b.rows.Keys, batches[0], fields, allowed).db, batches[1..], fields, allowed, org);
    }
  }

  lemma SomeRelocatesMeans(db: Db, objs: seq<Inst>)
    ensures SomeRelocates(db, objs) <==> !OR.AgreeWith(db, objs)
  {
    if !OR.AgreeWith(db, objs) {
      var i :| i in objs && i.pk.Some? && i.pk.value in db.rows && i.org != Some(db.rows[i.pk.value].org);
      var k :| 0 <= k < |objs| && objs[k] == i;
    }
  }

  lemma BulkUpdateEdits(db: Db, within: set<Pk>, batches: seq<seq<Inst>>, names: seq<string>, org: OrgId)
    requires AboutMine(db, Flat(batches), org)
    ensures OnlyEdits(db, O.BulkUpdate(db, within, batches, names, false, false).db, org)
  {
    hide NestedUpdates;
    var fields := Expanded(RELATIONS, names);
    SomeRelocatesMeans(db, Flat(batches));
    if !NamesOrganization(fields) || OR.AgreeWith(db, Flat(batches)) {
      NestedUpdatesEdit(db, within, batches, fields, NamesOrganization(fields), org);
    }
  }

  lemma BulkUpdatesAlike(a: Db, b: Db, batches: seq<seq<Inst>>, names: seq<string>, org: OrgId)
    requires MineAlike(a, b, org) && AboutMine(a, Flat(batches), org) && AboutMine(b, Flat(batches), org)
    ensures var r, q := O.BulkUpdate(a, a.rows.Keys, batches, names, false, false), O.BulkUpdate(b, b.rows.Keys, batches, names, false, false);
            r.error == q.error && MineAlike(r.db, q.db, org)
  {
    hide NestedUpdates;
    var fields := Expanded(RELATIONS, names);
    SomeRelocatesMeans(a, Flat(batches));
    SomeRelocatesMeans(b, Flat(batches));
    if !NamesOrganization(fields) || (OR.AgreeWith(a, Flat(batches)) && OR.AgreeWith(b, Flat(batches))) {
      NestedUpdatesAlike(a, b, batches, fields, NamesOrganization(fields), org);
    }
  }

  lemma EditingStaysInside(c: Client, db: Db, org: OrgId)
    requires Confined(c, org) && OnlyEdits(c.db, db, org)
    ensures Confined(c.(db := db), org) && OthersUntouched(c.db, db, org)
  {
  }

  lemma {:induction false} ObjectsAreHeld(live: map<Handle, Inst>, handles: seq<Handle>)
    ensures forall i :: i in OR.Objects(live, handles) ==> exists h :: h in live && live[h] == i
  {
    if handles != [] { ObjectsAreHeld(live, handles[1..]); }
  }

  lemma {:induction false} HeldAreMine(c: Client, batches: seq<seq<Handle>>, org: OrgId)
    requires Confined(c, org)
    ensures AboutMine(c.db, Flat(OR.ObjectBatches(c.live, batches)), org)
    decreases |batches|
  {
    if batches != [] {
      ObjectsAreHeld(c.live, batches[0]);
      HeldAreMine(c, batches[1..], org);
      var first, rest := OR.Objects(c.live, batches[0]), OR.ObjectBatches(c.live, batches[1..]);
      assert ([first] + rest)[0] == first && ([first] + rest)[1..] == rest;
      assert forall i :: i in Flat([first] + rest) ==> i in first || i in Flat(rest);
    }
  }

  lemma BulkObjectsStayInside(c: Client, targets: Targets, env: Env, strict: bool, org: OrgId, op: Op)
    requires Confined(c, org) && !env.allowed && OwnOp(op, org) && (op.BulkCreateOf? || op.BulkUpdateOn?)
    ensures var (next, _) := ClientStep(c, targets, env, strict, op);
            Confined(next, org) && OthersUntouched(c.db, next.db, org)
  {
    hide O.BulkCreate, O.BulkUpdate, Confined, OthersUntouched, OnlyAdds, OnlyEdits;
    match op
    case BulkCreateOf(each, create) =>
      assert Supplied(c.db) by { ConfinedIsSupplied(c, org); }
      BulkCreateAdds(c.db, BuiltAll(each), create, env.allowed, org);
      AddingStaysInside(c, O.BulkCreate(c.db, BuiltAll(each), create, env.allowed).db, org);
    case BulkUpdateOn(batches, names) =>
      HeldAreMine(c, batches, org);
      BulkUpdateEdits(c.db, c.db.rows.Keys, OR.ObjectBatches(c.live, batches), names, org);
      EditingStaysInside(c, O.BulkUpdate(c.db, c.db.rows.Keys, OR.ObjectBatches(c.live, batches), names, false, env.allowed).db, org);
  }

  lemma ConfinedIsSupplied(c: Client, org: OrgId)
    requires Confined(c, org)
    ensures Supplied(c.db)
  {
  }

  /** One call changes no row of another organization. */
  lemma StepStaysInside(c: Client, targets: Targets, env: Env, strict: bool, org: OrgId, op: Op)
    requires Confined(c, org) && env.bound == Some(org) && !env.allowed && OwnOp(op, org)
    ensures var (next, _) := ClientStep(c, targets, env, strict, op);
            Confined(next, org) && OthersUntouched(c.db, next.db, org)
  {
    if op.UpdateOrCreate? {
      UpsertStaysInside(c, targets, env, strict, org, op);
    } else if op.UpdateWhere? || op.DeleteWhere? {
      BulkStaysInside(c, targets, env, strict, org, op);
    } else if op.BulkCreateOf? || op.BulkUpdateOn? {
      BulkObjectsStayInside(c, targets, env, strict, org, op);
    } else {
      hide Scoped, LookedUp, CreateStep, Save, Built, Fetched;
      match op
      case Get(handle, where) =>
        LookupsAreMine(c.db, targets, map[], where, env, strict, org);
        FetchingStaysInside(c, handle, Matching(RowsOf(c.db, org), targets, where), org);
      case SaveOn(handle, fields) =>
        if handle in c.live { SaveStaysInside(c.db, c.live[handle], env, SaveArgs(fields, false, false), org); }
      case GetOrCreate(handle, kwargs, where, values) =>
        LookupsAreMine(c.db, targets, kwargs, where, env, strict, org);
        CreateStaysInside(c, handle, Built(kwargs, values), env, org);
        FetchingStaysInside(c, handle, Matching(Narrowed(RowsOf(c.db, org), kwargs), targets, where), org);
      case Create(handle, values) =>
        CreateStaysInside(c, handle, Built(map[], values), env, org);
      case _ =>
    }
  }

  lemma FetchingStaysInside(c: Client, handle: Handle, found: map<Pk, Row>, org: OrgId)
    requires Confined(c, org) && forall p :: p in found ==> p in c.db.rows && found[p] == c.db.rows[p] && found[p].org == org
    ensures |found.Keys| > 0 ==> var (next, _) := Fetched(c, handle, found);
                                 Confined(next, org) && OthersUntouched(c.db, next.db, org)
  {
  }

  lemma SameMatches(mine: map<Pk, Row>, s: Targets, t: Targets, where: Lookup, org: OrgId)
    requires TargetsAlike(s, t, org) && forall p :: p in mine ==> mine[p].org == org
    ensures Matching(mine, s, where) == Matching(mine, t, where)
  {
    forall p | p in mine
      ensures Related(s, mine[p]) == Related(t, mine[p])
    {
    }
  }

  /** Every lookup finds the same in two databases that agree on the organization. */
  lemma LookupsAlike(a: Db, b: Db, s: Targets, t: Targets, kwargs: map<string, Value>, where: Lookup, env: Env,
        strict: bool, org: OrgId)
    requires RowsOf(a, org) == RowsOf(b, org) && TargetsAlike(s, t, org)
    requires env.bound == Some(org) && OwnKeywords(kwargs, org)
    ensures Scoped(a, s, where, env, strict) == Scoped(b, t, where, env, strict)
    ensures LookedUp(a, s, kwargs, where, env, strict) == LookedUp(b, t, kwargs, where, env, strict)
    ensures forall p :: p in Scoped(a, s, where, env, strict).value || p in LookedUp(a, s, kwargs, where, env, strict).value ==>
              p in a.rows && p in b.rows && a.rows[p].org == b.rows[p].org == org
  {
    LookupsAreMine(a, s, kwargs, where, env, strict, org);
    LookupsAreMine(b, t, kwargs, where, env, strict, org);
    var mine := RowsOf(a, org);
    SameMatches(mine, s, t, where, org);
    SameMatches(Narrowed(mine, kwargs), s, t, where, org);
    assert forall p :: p in mine ==> p in RowsOf(b, org);
  }

  ghost predicate MineAlike(a: Db, b: Db, org: OrgId) {
    && a.nextPk == b.nextPk
    && forall p :: (p in a.rows && a.rows[p].org == org <==> p in b.rows && b.rows[p].org == org)
                   && (p in a.rows && p in b.rows && a.rows[p].org == org ==> a.rows[p] == b.rows[p])
  }

  lemma MineAlikeIsSameRows(a: Db, b: Db, org: OrgId)
    ensures MineAlike(a, b, org) <==> RowsOf(a, org) == RowsOf(b, org) && a.nextPk == b.nextPk
  {
    if RowsOf(a, org) == RowsOf(b, org) {
      forall p ensures (p in a.rows && a.rows[p].org == org <==> p in b.rows && b.rows[p].org == org)
                       && (p in a.rows && p in b.rows && a.rows[p].org == org ==> a.rows[p] == b.rows[p])
      {
        assert p in RowsOf(a, org) <==> p in RowsOf(b, org);
        if p in RowsOf(a, org) { assert RowsOf(a, org)[p] == RowsOf(b, org)[p]; }
      }
    }
  }

  lemma SavesAlike(a: Db, b: Db, i: Inst, env: Env, args: SaveArgs, org: OrgId)
    requires MineAlike(a, b, org) && Holds(a, org, i) && Holds(b, org, i)
    requires !args.forceInsert && !args.unsafe && !env.allowed
    ensures var r, q := Save(a, i, env, args), Save(b, i, env, args);
            r.inst == q.inst && r.error == q.error && MineAlike(r.db, q.db, org)
  {
  }

  lemma CreatesAlike(a: Client, b: Client, handle: Handle, built: Inst, env: Env, org: OrgId)
    requires MineAlike(a.db, b.db, org) && a.live == b.live && Supplied(a.db) && Supplied(b.db)
    requires env.bound == Some(org) && Becoming(built, org)
    ensures var ((x, r), (y, q)) := (CreateStep(a, handle, built, env), CreateStep(b, handle, built, env));
            r == q && MineAlike(x.db, y.db, org) && x.live == y.live
  {
  }

  lemma UpdateOrCreatesAlike(a: Client, b: Client, handle: Handle, pk: Option<Pk>, built: Inst,
        defaults: seq<Assignment>, env: Env, org: OrgId)
    requires Confined(a, org) && Confined(b, org) && MineAlike(a.db, b.db, org) && a.live == b.live
    requires env.bound == Some(org) && !env.allowed && Becoming(built, org)
    requires pk.Some? ==> pk.value in a.db.rows && pk.value in b.db.rows && a.db.rows[pk.value].org == b.db.rows[pk.value].org == org
    requires forall v :: v in defaults ==> !v.AssignPk?
    ensures var ((x, r), (y, q)) := (Kept(a, handle, O.UpdateOrCreate(a.db, pk, built, defaults, env, false), pk.None?),
                                     Kept(b, handle, O.UpdateOrCreate(b.db, pk, built, defaults, env, false), pk.None?));
            r == q && MineAlike(x.db, y.db, org) && x.live == y.live
  {
    assert env.(allowed := false || env.allowed) == env;
    if pk.Some? {
      assert a.db.rows[pk.value] == b.db.rows[pk.value];
      var i := FromDb(pk.value, a.db.rows[pk.value]);
      DefaultsKeepHold(a.db, org, i, defaults);
      DefaultsKeepHold(b.db, org, i, defaults);
      SavesAlike(a.db, b.db, AssignedAll(i, defaults), env, SaveArgs(DefaultFields(defaults), false, false), org);
    } else {
      CreatesAlike(a, b, handle, built, env, org);
    }
  }

  lemma UpdatesAlike(a: Db, b: Db, matched: set<Pk>, kwargs: map<string, Value>, org: OrgId)
    requires MineAlike(a, b, org)
    requires forall p :: p in matched ==> p in a.rows && p in b.rows && a.rows[p].org == org && b.rows[p].org == org
    ensures var r, q := Update(a, matched, kwargs, false, false), Update(b, matched, kwargs, false, false);
            r.error == q.error && MineAlike(r.db, q.db, org)
  {
  }

  ghost predicate SameOutcome(x: (Client, Answer), y: (Client, Answer), org: OrgId) {
    x.1 == y.1 && x.0.live == y.0.live && MineAlike(x.0.db, y.0.db, org)
  }

  lemma ReadsAlike(a: Client, b: Client, s: Targets, t: Targets, env: Env, strict: bool, org: OrgId, op: Op)
    requires Confined(a, org) && Confined(b, org) && Alike(a, b, org) && MineAlike(a.db, b.db, org)
    requires TargetsAlike(s, t, org) && env.bound == Some(org) && OwnOp(op, org)
    requires op.Filter? || op.Get? || op.GetOrCreate?
    ensures SameOutcome(ClientStep(a, s, env, strict, op), ClientStep(b, t, env, strict, op), org)
  {
    hide Scoped, LookedUp, CreateStep, Built;
    LookupsAlike(a.db, b.db, s, t, if op.GetOrCreate? then op.kwargs else map[], op.where, env, strict, org);
    if op.GetOrCreate? {
      CreatesAlike(a, b, op.handle, Built(op.kwargs, op.values), env, org);
    }
  }

  lemma UpsertsAlike(a: Client, b: Client, s: Targets, t: Targets, env: Env, strict: bool, org: OrgId, op: Op)
    requires Confined(a, org) && Confined(b, org) && Alike(a, b, org) && MineAlike(a.db, b.db, org)
    requires TargetsAlike(s, t, org) && env.bound == Some(org) && !env.allowed && OwnOp(op, org) && op.UpdateOrCreate?
    ensures SameOutcome(ClientStep(a, s, env, strict, op), ClientStep(b, t, env, strict, op), org)
  {
    hide LookedUp, O.UpdateOrCreate, Kept, Built;
    LookupsAlike(a.db, b.db, s, t, op.kwargs, op.where, env, strict, org);
    var found := LookedUp(a.db, s, op.kwargs, op.where, env, strict);
    if found.Success? && |found.value.Keys| <= 1 {
      var pk := if |found.value.Keys| == 0 then None else Some(TheOnly(found.value.Keys));
      UpdateOrCreatesAlike(a, b, op.handle, pk, Built(op.kwargs, op.values), op.defaults, env, org);
    }
  }

  lemma BulkAlike(a: Client, b: Client, s: Targets, t: Targets, env: Env, strict: bool, org: OrgId, op: Op)
    requires Alike(a, b, org) && MineAlike(a.db, b.db, org)
    requires TargetsAlike(s, t, org) && env.bound == Some(org) && !env.allowed && (op.UpdateWhere? || op.DeleteWhere?)
    ensures SameOutcome(ClientStep(a, s, env, strict, op), ClientStep(b, t, env, strict, op), org)
  {
    hide Scoped, Update, LookedUp, MineAlike;
    LookupsAlike(a.db, b.db, s, t, map[], op.where, env, strict, org);
    var found := Scoped(a.db, s, op.where, env, strict);
    if found.Success? {
      UpdatesAlike(a.db, b.db, found.value.Keys, if op.UpdateWhere? then op.kwargs else map[], org);
      DeletesAlike(a.db, b.db, found.value.Keys, org);
    }
  }

  lemma BulkObjectsAlike(a: Client, b: Client, s: Targets, t: Targets, env: Env, strict: bool, org: OrgId, op: Op)
    requires Confined(a, org) && Confined(b, org) && Alike(a, b, org) && MineAlike(a.db, b.db, org)
    requires !env.allowed && OwnOp(op, org) && (op.BulkCreateOf? || op.BulkUpdateOn?)
    ensures SameOutcome(ClientStep(a, s, env, strict, op), ClientStep(b, t, env, strict, op), org)
  {
    hide O.BulkCreate, O.BulkUpdate, MineAlike;
    match op
    case BulkCreateOf(each, create) => BulkCreatesAlike(a.db, b.db, BuiltAll(each), create, env.allowed, org);
    case BulkUpdateOn(batches, names) =>
      HeldAreMine(a, batches, org);
      HeldAreMine(b, batches, org);
      BulkUpdatesAlike(a.db, b.db, OR.ObjectBatches(a.live, batches), names, org);
  }

  lemma DeletesAlike(a: Db, b: Db, matched: set<Pk>, org: OrgId)
    requires MineAlike(a, b, org)
    ensures MineAlike(a.(rows := a.rows - matched), b.(rows := b.rows - matched), org)
  {
  }

  /** One call answers the same in two databases that agree on the caller's organization. */
  lemma StepsAlike(a: Client, b: Client, s: Targets, t: Targets, env: Env, strict: bool, org: OrgId, op: Op)
    requires Confined(a, org) && Confined(b, org) && Alike(a, b, org) && TargetsAlike(s, t, org)
    requires env.bound == Some(org) && !env.allowed && OwnOp(op, org)
    ensures var ((x, r), (y, q)) := (ClientStep(a, s, env, strict, op), ClientStep(b, t, env, strict, op));
            r == q && Alike(x, y, org)
  {
    MineAlikeIsSameRows(a.db, b.db, org);
    MineAlikeIsSameRows(ClientStep(a, s, env, strict, op).0.db, ClientStep(b, t, env, strict, op).0.db, org);
    if op.UpdateOrCreate? {
      UpsertsAlike(a, b, s, t, env, strict, org, op);
    } else if op.UpdateWhere? || op.DeleteWhere? {
      BulkAlike(a, b, s, t, env, strict, org, op);
    } else if op.BulkCreateOf? || op.BulkUpdateOn? {
      BulkObjectsAlike(a, b, s, t, env, strict, org, op);
    } else if op.Filter? || op.Get? || op.GetOrCreate? {
      ReadsAlike(a, b, s, t, env, strict, org, op);
    } else if op.Create? {
      CreatesAlike(a, b, op.handle, Built(map[], op.values), env, org);
    } else if op.SaveOn? && op.handle in a.live {
      SavesAlike(a.db, b.db, a.live[op.handle], env, SaveArgs(op.fields, false, false), org);
    }
  }

  /** Whole runs: rows of other organizations never change, and two databases that agree on this
      organization's rows answer every call alike and agree on its rows afterwards. */
  lemma {:induction false} OrganizationsDoNotInterfere(a: Client, b: Client, s: Targets, t: Targets, env: Env,
        strict: bool, org: OrgId, ops: seq<Op>)
    requires Confined(a, org) && Confined(b, org) && Alike(a, b, org) && TargetsAlike(s, t, org)
    requires env.bound == Some(org) && !env.allowed && forall op :: op in ops ==> OwnOp(op, org)
    ensures var x, y := ClientRun(a, s, env, strict, ops), ClientRun(b, t, env, strict, ops);
            && x.1 == y.1 && Alike(x.0, y.0, org)
            && OthersUntouched(a.db, x.0.db, org) && OthersUntouched(b.db, y.0.db, org)
    decreases |ops|
  {
    if ops != [] {
      assert ops[0] in ops && forall op :: op in ops[1..] ==> op in ops;
      StepStaysInside(a, s, env, strict, org, ops[0]);
      StepStaysInside(b, t, env, strict, org, ops[0]);
      StepsAlike(a, b, s, t, env, strict, org, ops[0]);
      var next, other := ClientStep(a, s, env, strict, ops[0]).0, ClientStep(b, t, env, strict, ops[0]).0;
      OrganizationsDoNotInterfere(next, other, s, t, env, strict, org, ops[1..]);
      UntouchedTwice(a.db, next.db, ClientRun(next, s, env, strict, ops[1..]).0.db, org);
      UntouchedTwice(b.db, other.db, ClientRun(other, t, env, strict, ops[1..]).0.db, org);
    }
  }

  // --------------------------------------- what the calls have to keep to, and why

  ghost predicate FindsOnly(found: Result<map<Pk, Row>>, org: OrgId) {
    found.Success? ==> forall p :: p in found.value ==> found.value[p].org == org
  }

  /** One row of one organization, and a lookup that takes whatever there is. */
  function OneRow(p: Pk, org: OrgId): Db { Db(map[p := Row(org, None, 0)], p + 1) }

  function Anything(): Lookup { (p, row, target) => true }

  lemma OneRowIsFound(kwargs: map<string, Value>, other: OrgId, targets: Targets, env: Env, strict: bool)
    requires Pinned(kwargs) == Some(other)
    ensures LookedUp(OneRow(0, other), targets, kwargs, Anything(), env, strict) == Success(OneRow(0, other).rows)
  {
    PinnedRows(kwargs);
    var rows := OneRow(0, other).rows;
    assert OrgMatches(kwargs, Row(other, None, 0));
    assert Narrowed(rows, kwargs) == rows && Matching(rows, targets, Anything()) == rows;
  }

  /** Exactly when the lookup of `get_or_create` and `update_or_create` is confined, in every database:
      its keywords do not all name one other organization. */
  lemma LookupsStayInsideIff(kwargs: map<string, Value>, org: OrgId)
    ensures OwnKeywords(kwargs, org) <==>
            forall db, targets, where, env: Env, strict :: env.bound == Some(org) ==>
              FindsOnly(LookedUp(db, targets, kwargs, where, env, strict), org)
  {
    if OwnKeywords(kwargs, org) {
      forall db, targets, where, env: Env, strict | env.bound == Some(org)
        ensures FindsOnly(LookedUp(db, targets, kwargs, where, env, strict), org)
      {
        LookupsAreMine(db, targets, kwargs, where, env, strict, org);
      }
    } else {
      var other, env := Pinned(kwargs).value, Env(Some(org), None, false);
      OneRowIsFound(kwargs, other, map[], env, true);
      var found := LookedUp(OneRow(0, other), map[], kwargs, Anything(), env, true);
      assert 0 in found.value && !FindsOnly(found, org);
    }
  }

  /** The widening is real: whatever is bound, a `get_or_create` whose keywords pin another organization
      hands out the row of it that the lookup matches. */
  lemma NamingAnotherOrganizationReads(c: Client, targets: Targets, env: Env, strict: bool, handle: Handle,
        kwargs: map<string, Value>, where: Lookup, values: seq<Assignment>, p: Pk)
    requires p in c.db.rows && Pinned(kwargs) == Some(c.db.rows[p].org)
    requires forall q :: q in c.db.rows && c.db.rows[q].org == c.db.rows[p].org ==>
               (where(q, c.db.rows[q], Related(targets, c.db.rows[q])) <==> q == p)
    ensures ClientStep(c, targets, env, strict, GetOrCreate(handle, kwargs, where, values)).1 == Instance(FromDb(p, c.db.rows[p]), false)
  {
    PinnedRows(kwargs);
    var found := LookedUp(c.db, targets, kwargs, where, env, strict).value;
    assert OrgMatches(kwargs, c.db.rows[p]);
    assert found.Keys == {p};
  }

  /** Exactly when creating stays inside: what the values make of the new row's organization, the
      relation's included, is the bound organization or nothing. */
  lemma CreatingStaysInsideIff(c: Client, handle: Handle, built: Inst, env: Env, org: OrgId)
    requires Supplied(c.db) && built.pk == None && env.bound == Some(org)
    ensures OthersUntouched(c.db, CreateStep(c, handle, built, env).0.db, org) <==> Becoming(built, org)
  {
    var after := CreateStep(c, handle, built, env).0.db;
    if !Becoming(built, org) {
      assert c.db.nextPk in after.rows && after.rows[c.db.nextPk].org != org;
    }
  }

  /** So `create(article=...)` with a target of another organization, whatever is bound, puts the row
      there; and so do defaults of a `get_or_create` that finds nothing. No keyword names anything. */
  lemma CreatingThroughARelationLeaves(c: Client, targets: Targets, env: Env, strict: bool, org: OrgId, handle: Handle,
        target: Pk, other: OrgId)
    requires Supplied(c.db) && env.bound == Some(org) && other != org
    ensures var through := [AssignRelated(Some(Target(Some(target), Some(other))))];
            var called := ClientStep(c, targets, env, strict, Create(handle, through)).0;
            !OthersUntouched(c.db, called.db, org) && c.db.nextPk in called.db.rows && called.db.rows[c.db.nextPk].org == other
    ensures var nothing: Lookup := (p, row, joined) => false;
            var called := ClientStep(c, targets, env, strict, GetOrCreate(handle, map[], nothing, [AssignOrganization(Some(other))])).0;
            !OthersUntouched(c.db, called.db, org) && c.db.nextPk in called.db.rows && called.db.rows[c.db.nextPk].org == other
  {
    var related, defaults := AssignRelated(Some(Target(Some(target), Some(other)))), AssignOrganization(Some(other));
    BuiltFromOne(related);
    BuiltFromOne(defaults);
    CreatingStaysInsideIff(c, handle, Built(map[], [related]), env, org);
    CreatingStaysInsideIff(c, handle, Built(map[], [defaults]), env, org);
    var nothing: Lookup := (p, row, joined) => false;
    assert LookedUp(c.db, targets, map[], nothing, env, strict).value.Keys == {};
  }

  lemma BuiltFromOne(value: Assignment)
    ensures Built(map[], [value]) == Assigned(Inst(None, None, None, 0, Unknown), value)
  {
    var values, blank := [value], Inst(None, None, None, 0, Unknown);
    assert values[1..] == [] && AssignedAll(Assigned(blank, values[0]), []) == Assigned(blank, value);
  }

  ghost predicate StaysInside(c: Client, targets: Targets, env: Env, strict: bool, org: OrgId, op: Op) {
    var (next, _) := ClientStep(c, targets, env, strict, op);
    Confined(next, org) && OthersUntouched(c.db, next.db, org)
  }

  /** The two together. In every database and for every lookup, a `get_or_create` reads and changes
      nothing of another organization exactly when its keywords pin none and the row it would create is
      none's. */
  lemma GetOrCreateStaysInsideIff(kwargs: map<string, Value>, values: seq<Assignment>, org: OrgId)
    requires Built(kwargs, values).pk == None
    ensures OwnKeywords(kwargs, org) && Becoming(Built(kwargs, values), org) <==>
            forall c, targets, env: Env, strict, handle, where :: Confined(c, org) && env.bound == Some(org) && !env.allowed ==>
              StaysInside(c, targets, env, strict, org, GetOrCreate(handle, kwargs, where, values))
  {
    var env := Env(Some(org), None, false);
    if OwnKeywords(kwargs, org) && Becoming(Built(kwargs, values), org) {
      forall c, targets, env: Env, strict, handle, where | Confined(c, org) && env.bound == Some(org) && !env.allowed
        ensures StaysInside(c, targets, env, strict, org, GetOrCreate(handle, kwargs, where, values))
      {
        StepStaysInside(c, targets, env, strict, org, GetOrCreate(handle, kwargs, where, values));
      }
    } else if !OwnKeywords(kwargs, org) {
      var other := Pinned(kwargs).value;
      var c := Client(OneRow(0, other), map[]);
      OneRowIsFound(kwargs, other, map[], env, true);
      OnlyKey(c.db.rows, 0);
      assert !StaysInside(c, map[], env, true, org, GetOrCreate(0, kwargs, Anything(), values));
    } else {
      var c := Client(Db(map[], 0), map[]);
      CreatingStaysInsideIff(c, 0, Built(kwargs, values), env, org);
      assert LookedUp(c.db, map[], kwargs, Anything(), env, true).value.Keys == {};
      assert !StaysInside(c, map[], env, true, org, GetOrCreate(0, kwargs, Anything(), values));
    }
  }

  /** The same of `update_or_create`, over all defaults that leave the key alone. */
  lemma UpdateOrCreateStaysInsideIff(kwargs: map<string, Value>, values: seq<Assignment>, org: OrgId)
    requires Built(kwargs, values).pk == None
    ensures OwnKeywords(kwargs, org) && Becoming(Built(kwargs, values), org) <==>
            forall c, targets, env: Env, strict, handle, where, defaults: seq<Assignment> ::
              Confined(c, org) && env.bound == Some(org) && !env.allowed && (forall v :: v in defaults ==> !v.AssignPk?) ==>
                StaysInside(c, targets, env, strict, org, UpdateOrCreate(handle, kwargs, where, defaults, values))
  {
    var env := Env(Some(org), None, false);
    if OwnKeywords(kwargs, org) && Becoming(Built(kwargs, values), org) {
      forall c, targets, env: Env, strict, handle, where, defaults: seq<Assignment>
        | Confined(c, org) && env.bound == Some(org) && !env.allowed && (forall v :: v in defaults ==> !v.AssignPk?)
        ensures StaysInside(c, targets, env, strict, org, UpdateOrCreate(handle, kwargs, where, defaults, values))
      {
        StepStaysInside(c, targets, env, strict, org, UpdateOrCreate(handle, kwargs, where, defaults, values));
      }
    } else if !OwnKeywords(kwargs, org) {
      var other := Pinned(kwargs).value;
      var c := Client(OneRow(0, other), map[]);
      OneRowIsFound(kwargs, other, map[], env, true);
      OnlyKey(c.db.rows, 0);
      assert !StaysInside(c, map[], env, true, org, UpdateOrCreate(0, kwargs, Anything(), [], values));
    } else {
      var c := Client(Db(map[], 0), map[]);
      CreatingStaysInsideIff(c, 0, Built(kwargs, values), env, org);
      assert LookedUp(c.db, map[], kwargs, Anything(), env, true).value.Keys == {};
      assert !StaysInside(c, map[], env, true, org, UpdateOrCreate(0, kwargs, Anything(), [], values));
    }
  }

  lemma OnlyKey(rows: map<Pk, Row>, p: Pk)
    requires rows.Keys == {p}
    ensures |rows.Keys| == 1 && TheOnly(rows.Keys) == p
  {
    assert TheOnly(rows.Keys) in rows.Keys;
  }

  /** Why keys are left to the database: creating under a key of the caller's choosing overwrites nothing,
      but the two answers are alike exactly when the key is taken in both databases or in neither. It
      tells whether somebody else has it. */
  lemma AssignedKeysTellIff(a: Client, b: Client, handle: Handle, built: Inst, env: Env)
    requires env.bound.Some? && built.pk.Some?
    ensures CreateStep(a, handle, built, env).1 == CreateStep(b, handle, built, env).1 <==>
            (built.pk.value in a.db.rows <==> built.pk.value in b.db.rows)
    ensures forall p :: p in a.db.rows ==>
              p in CreateStep(a, handle, built, env).0.db.rows && CreateStep(a, handle, built, env).0.db.rows[p] == a.db.rows[p]
  {
  }

  lemma UntouchedTwice(first: Db, second: Db, third: Db, org: OrgId)
    requires OthersUntouched(first, second, org) && OthersUntouched(second, third, org)
    ensures OthersUntouched(first, third, org)
  {
  }
}
