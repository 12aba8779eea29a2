/** Four ways of asking whether a membership grants a permission: the backend's set, the distinct
    filter over two outer joins, the single-row check, and the batch walk. */
module Permissions {
  import opened Outcomes
  import opened Names
  import opened Rows

  type OrgId = nat
  type UserId = nat
  type GroupId = nat
  type PermissionId = nat

  datatype Permission = Permission(app: string, codename: string)

  /** Grants are rows of through tables, so a permission can be reached along many paths. */
  datatype Membership = Membership(user: UserId, org: OrgId, active: bool, direct: seq<PermissionId>, groups: seq<GroupId>)

  datatype User = User(active: bool, anonymous: bool, superuser: bool, direct: seq<PermissionId>, groups: seq<GroupId>)

  datatype Db = Db(
    permissions: map<PermissionId, Permission>,
    groups: map<GroupId, seq<PermissionId>>,
    memberships: map<Pk, Membership>,
    users: map<UserId, User>,
    orgs: set<OrgId>)

  /** Foreign keys resolve, a user has one membership per organization, and app labels are the
      dot-free identifiers Django demands. */
  ghost predicate Valid(db: Db) {
    && (forall m :: m in db.memberships ==>
          && db.memberships[m].user in db.users && db.memberships[m].org in db.orgs
          && (forall p :: p in db.memberships[m].direct ==> p in db.permissions)
          && (forall g :: g in db.memberships[m].groups ==> g in db.groups))
    && (forall g, p :: g in db.groups && p in db.groups[g] ==> p in db.permissions)
    && (forall m, n | m in db.memberships && n in db.memberships ::
          db.memberships[m].user == db.memberships[n].user && db.memberships[m].org == db.memberships[n].org ==> m == n)
    && (forall p :: p in db.permissions ==> '.' !in db.permissions[p].app && db.permissions[p].app != "" && db.permissions[p].codename != "")
  }

  // --------------------------------------------------------------------------- labels

  function Label(p: Permission): string { p.app + "." + p.codename }

  function LabelsOf(db: Db, ids: seq<PermissionId>): set<string> {
    set p | p in ids && p in db.permissions :: Label(db.permissions[p])
  }

  /** `split_permission_label`. */
  function SplitLabel(permission: string): Result<Permission> {
    var (app, separator, codename) := Partition(permission, ".");
    if !separator || app == "" || codename == "" then Failure(ValueError) else Success(Permission(app, codename))
  }

  /** Splitting and labelling are inverse, so comparing labels is comparing the two halves. */
  lemma SplittingALabel(p: Permission, spelled: string)
    requires '.' !in p.app && p.app != "" && p.codename != ""
    ensures SplitLabel(Label(p)) == Success(p)
    ensures SplitLabel(spelled).Success? ==> Label(SplitLabel(spelled).value) == spelled
    ensures SplitLabel(spelled) == Success(p) <==> Label(p) == spelled
  {
    DotFreeIsSeparable(p.app);
    PartitionOfJoin(p.app, ".", p.codename);
    JoinOfPartition(spelled, ".");
  }

  lemma {:induction false} BeforeTheDot(s: string)
    ensures var (head, found, tail) := Partition(s, "."); '.' !in head && (found <==> '.' in s)
  {
    if s != "" && s[..1] != "." {
      BeforeTheDot(s[1..]);
      assert s == [s[0]] + s[1..] && s[..1] == [s[0]];
    } else if s != "" {
      assert s[0] == s[..1][0] == '.';
    }
  }

  /** A label is well-formed exactly when something stands on both sides of its first dot. */
  lemma SplitsIff(spelled: string, p: Permission)
    ensures SplitLabel(spelled) == Success(p) <==>
            spelled == p.app + "." + p.codename && '.' !in p.app && p.app != "" && p.codename != ""
    ensures SplitLabel(spelled).Failure? <==>
            var (app, dotted, codename) := Partition(spelled, "."); '.' !in spelled || app == "" || codename == ""
    ensures SplitLabel(spelled).Failure? ==> SplitLabel(spelled).error == ValueError
  {
    BeforeTheDot(spelled);
    if '.' !in p.app && p.app != "" && p.codename != "" { SplittingALabel(p, spelled); }
    JoinOfPartition(spelled, ".");
  }

  // ------------------------------------------------------------------- the backend

  function GroupGrants(db: Db, groups: seq<GroupId>): seq<PermissionId> {
    if groups == [] then []
    else (if groups[0] in db.groups then db.groups[groups[0]] else []) + GroupGrants(db, groups[1..])
  }

  function DirectLabels(db: Db, m: Membership): set<string> { LabelsOf(db, m.direct) }

  function GroupLabels(db: Db, m: Membership): set<string> { LabelsOf(db, GroupGrants(db, m.groups)) }

  /** What a membership grants: its own permissions and those of its groups. */
  function MembershipLabels(db: Db, m: Membership): set<string> { DirectLabels(db, m) + GroupLabels(db, m) }

  predicate IsActiveMembership(db: Db, user: UserId, org: OrgId, m: Pk) {
    m in db.memberships && db.memberships[m].user == user && db.memberships[m].org == org && db.memberships[m].active
  }

  /** `_get_membership`: the active membership, if there is one; `first()` is the one of least key. */
  function MembershipOf(db: Db, user: UserId, org: OrgId): Option<Pk> {
    var active := set m | m in db.memberships && IsActiveMembership(db, user, org, m);
    if active == {} then None else Some(Least(active))
  }

  /** `_get_membership_permissions`. */
  function BackendLabels(db: Db, user: UserId, org: OrgId): set<string> {
    var m := MembershipOf(db, user, org);
    if m.None? then {} else MembershipLabels(db, db.memberships[m.value])
  }

  // ------------------------------------------------------------- the distinct filter

  /** LEFT OUTER JOIN: no match still leaves one row, padded. */
  function Padded(rows: seq<Option<Permission>>): seq<Option<Permission>> { if rows == [] then [None] else rows }

  function Fetched(db: Db, ids: seq<PermissionId>): seq<Option<Permission>> {
    seq(|ids|, k requires 0 <= k < |ids| => if ids[k] in db.permissions then Some(db.permissions[ids[k]]) else None)
  }

  function DirectJoin(db: Db, m: Membership): seq<Option<Permission>> { Padded(Fetched(db, m.direct)) }

  function GroupJoinRows(db: Db, groups: seq<GroupId>): seq<Option<Permission>> {
    if groups == [] then []
    else Padded(Fetched(db, if groups[0] in db.groups then db.groups[groups[0]] else [])) + GroupJoinRows(db, groups[1..])
  }

  function GroupJoin(db: Db, m: Membership): seq<Option<Permission>> { Padded(GroupJoinRows(db, m.groups)) }

  /** One conjunct of the WHERE: both halves, on the same permission row. */
  predicate Is(row: Option<Permission>, wanted: Permission) {
    row.Some? && row.value.codename == wanted.codename && row.value.app == wanted.app
  }

  function Paired(pk: Pk, d: Option<Permission>, gs: seq<Option<Permission>>, wanted: Permission): seq<Pk> {
    if gs == [] then [] else (if Is(d, wanted) || Is(gs[0], wanted) then [pk] else []) + Paired(pk, d, gs[1..], wanted)
  }

  /** The joined rows of one membership that satisfy the OR, as its key repeated. */
  function Surviving(pk: Pk, ds: seq<Option<Permission>>, gs: seq<Option<Permission>>, wanted: Permission): seq<Pk> {
    if ds == [] then [] else Paired(pk, ds[0], gs, wanted) + Surviving(pk, ds[1..], gs, wanted)
  }

  function AllSurviving(db: Db, pks: seq<Pk>, wanted: Permission): seq<Pk> {
    if pks == [] then []
    else
      (if pks[0] in db.memberships
       then Surviving(pks[0], DirectJoin(db, db.memberships[pks[0]]), GroupJoin(db, db.memberships[pks[0]]), wanted)
       else []) + AllSurviving(db, pks[1..], wanted)
  }

  /** `filter_memberships_holding_permission` on a queryset listing `pks`. */
  function HoldingPermission(db: Db, pks: seq<Pk>, permission: string): Result<seq<Pk>> {
    var wanted := SplitLabel(permission);
    if wanted.Failure? then Failure(wanted.error) else Success(Deduplicated(AllSurviving(db, pks, wanted.value)))
  }

  // -------------------------------------------------------- what it is to hold a label

  /** Some permission of that spelling is granted directly. */
  ghost predicate HeldDirectly(db: Db, direct: seq<PermissionId>, spelled: string) {
    exists p :: p in direct && p in db.permissions && Label(db.permissions[p]) == spelled
  }

  /** Or to some group. */
  ghost predicate HeldByGroup(db: Db, groups: seq<GroupId>, spelled: string) {
    exists g :: g in groups && g in db.groups && HeldDirectly(db, db.groups[g], spelled)
  }

  ghost predicate MembershipHasLabel(db: Db, m: Membership, spelled: string) {
    HeldDirectly(db, m.direct, spelled) || HeldByGroup(db, m.groups, spelled)
  }

  lemma {:induction false} GroupGrantsMembers(db: Db, groups: seq<GroupId>)
    ensures forall p :: p in GroupGrants(db, groups) <==> exists g :: g in groups && g in db.groups && p in db.groups[g]
  {
    if groups != [] {
      GroupGrantsMembers(db, groups[1..]);
      assert groups == [groups[0]] + groups[1..];
    }
  }

  lemma LabelsAreHeld(db: Db, direct: seq<PermissionId>, groups: seq<GroupId>, spelled: string)
    ensures spelled in LabelsOf(db, direct) <==> HeldDirectly(db, direct, spelled)
    ensures spelled in LabelsOf(db, GroupGrants(db, groups)) <==> HeldByGroup(db, groups, spelled)
  {
    GroupGrantsMembers(db, groups);
    if HeldByGroup(db, groups, spelled) {
      var g :| g in groups && g in db.groups && HeldDirectly(db, db.groups[g], spelled);
      var p :| p in db.groups[g] && p in db.permissions && Label(db.permissions[p]) == spelled;
      assert p in GroupGrants(db, groups);
    }
    if spelled in LabelsOf(db, GroupGrants(db, groups)) {
      var p :| p in GroupGrants(db, groups) && p in db.permissions && Label(db.permissions[p]) == spelled;
      var g :| g in groups && g in db.groups && p in db.groups[g];
      assert HeldDirectly(db, db.groups[g], spelled);
    }
  }

  lemma MembershipLabelsAreHeld(db: Db, m: Membership, spelled: string)
    ensures spelled in DirectLabels(db, m) <==> HeldDirectly(db, m.direct, spelled)
    ensures spelled in GroupLabels(db, m) <==> HeldByGroup(db, m.groups, spelled)
    ensures spelled in MembershipLabels(db, m) <==> MembershipHasLabel(db, m, spelled)
  {
    LabelsAreHeld(db, m.direct, m.groups, spelled);
  }

  /** The user has an active membership in the organization that grants the label. */
  ghost predicate MemberHasLabel(db: Db, user: UserId, org: OrgId, spelled: string) {
    exists m :: m in db.memberships && IsActiveMembership(db, user, org, m) && MembershipHasLabel(db, db.memberships[m], spelled)
  }

  /** What the backend resolves for a user in an organization, label by label. */
  lemma BackendGrantsIff(db: Db, user: UserId, org: OrgId, spelled: string)
    requires Valid(db)
    ensures spelled in BackendLabels(db, user, org) <==> MemberHasLabel(db, user, org, spelled)
  {
    forall m | m in db.memberships && IsActiveMembership(db, user, org, m)
      ensures MembershipOf(db, user, org) == Some(m)
      ensures spelled in MembershipLabels(db, db.memberships[m]) <==> MembershipHasLabel(db, db.memberships[m], spelled)
    {
      MembershipIsFound(db, m);
      MembershipLabelsAreHeld(db, db.memberships[m], spelled);
    }
    if MembershipOf(db, user, org).Some? {
      var m := MembershipOf(db, user, org).value;
      assert IsActiveMembership(db, user, org, m);
    }
  }

  // ---------------------------------------------------- the row check and the batch walk

  /** `membership_holds_permission`. */
  function MembershipHolds(db: Db, pk: Pk, permission: string): Result<bool> {
    var row := if pk in db.memberships && db.memberships[pk].active then [pk] else [];
    var r := HoldingPermission(db, row, permission);
    if r.Failure? then Failure(r.error) else Success(r.value != [])
  }

  function BatchLabels(db: Db, pk: Pk): set<string> {
    if pk !in db.memberships then {}
    else
      var m := db.memberships[pk];
      if !m.active || m.user !in db.users || !db.users[m.user].active then {} else MembershipLabels(db, m)
  }

  /** `resolve_membership_permissions`, up to sorting each list. */
  method ResolveMembershipPermissions(db: Db, rows: seq<Pk>) returns (resolved: map<Pk, set<string>>)
    requires forall k :: 0 <= k < |rows| ==> rows[k] in db.memberships && db.memberships[rows[k]].user in db.users
    ensures resolved.Keys == (set pk | pk in rows)
    ensures forall pk :: pk in rows ==> resolved[pk] == BatchLabels(db, pk)
    ensures forall pk, spelled :: pk in rows ==>
              var m := db.memberships[pk];
              (spelled in resolved[pk] <==> m.active && db.users[m.user].active && MembershipHasLabel(db, m, spelled))
  {
    resolved := map[];
    for k := 0 to |rows|
      invariant resolved.Keys == set pk | pk in rows[..k]
      invariant forall pk :: pk in resolved ==> resolved[pk] == BatchLabels(db, pk)
    {
      var membership := db.memberships[rows[k]];
      assert rows[..k + 1] == rows[..k] + [rows[k]];
      if !membership.active || !db.users[membership.user].active {
        resolved := resolved[rows[k] := {}];
      } else {
        var labels := LabelsOf(db, membership.direct);
        var groups := membership.groups;
        GroupLabelsFrom(db, groups, 0);
        for g := 0 to |groups|
          invariant labels + LabelsOf(db, GroupGrants(db, groups[g..])) == MembershipLabels(db, membership)
        {
          GroupLabelsFrom(db, groups, g);
          labels := labels + LabelsOf(db, if groups[g] in db.groups then db.groups[groups[g]] else []);
        }
        resolved := resolved[rows[k] := labels];
      }
    }
    assert rows[..|rows|] == rows;
    forall pk, spelled | pk in rows
      ensures var m := db.memberships[pk];
              spelled in resolved[pk] <==> m.active && db.users[m.user].active && MembershipHasLabel(db, m, spelled)
    {
      BatchGrantsIff(db, pk, spelled);
    }
  }

  /** The batch walk, label by label: an active membership of an active user, and a grant. */
  lemma BatchGrantsIff(db: Db, pk: Pk, spelled: string)
    requires pk in db.memberships && db.memberships[pk].user in db.users
    ensures spelled in BatchLabels(db, pk) <==>
            var m := db.memberships[pk];
            m.active && db.users[m.user].active && MembershipHasLabel(db, m, spelled)
  {
    MembershipLabelsAreHeld(db, db.memberships[pk], spelled);
  }

  lemma GroupLabelsFrom(db: Db, groups: seq<GroupId>, g: nat)
    requires g <= |groups|
    ensures groups[0..] == groups
    ensures g < |groups| ==>
              LabelsOf(db, GroupGrants(db, groups[g..])) ==
              LabelsOf(db, if groups[g] in db.groups then db.groups[groups[g]] else []) + LabelsOf(db, GroupGrants(db, groups[g + 1..]))
  {
    if g < |groups| {
      assert groups[g..][0] == groups[g] && groups[g..][1..] == groups[g + 1..];
      LabelsOfBoth(db, if groups[g] in db.groups then db.groups[groups[g]] else [], GroupGrants(db, groups[g + 1..]));
    }
  }

  lemma LabelsOfBoth(db: Db, a: seq<PermissionId>, b: seq<PermissionId>)
    ensures LabelsOf(db, a + b) == LabelsOf(db, a) + LabelsOf(db, b)
  {
    forall s ensures s in LabelsOf(db, a + b) <==> s in LabelsOf(db, a) + LabelsOf(db, b) {
    }
  }

  // ----------------------------------------------------------------------- agreement

  ghost predicate Grants(db: Db, ids: seq<PermissionId>, wanted: Permission) {
    exists p :: p in ids && p in db.permissions && db.permissions[p] == wanted
  }

  ghost predicate Somewhere(rows: seq<Option<Permission>>, wanted: Permission) {
    exists k :: 0 <= k < |rows| && Is(rows[k], wanted)
  }

  lemma {:induction false} PairedMembers(pk: Pk, d: Option<Permission>, gs: seq<Option<Permission>>, wanted: Permission)
    ensures forall q :: q in Paired(pk, d, gs, wanted) ==> q == pk
    ensures gs != [] ==> (Paired(pk, d, gs, wanted) != [] <==> Is(d, wanted) || Somewhere(gs, wanted))
  {
    if gs != [] {
      PairedMembers(pk, d, gs[1..], wanted);
      assert forall k :: 0 <= k < |gs[1..]| ==> gs[1..][k] == gs[k + 1];
      if Somewhere(gs, wanted) && !Is(gs[0], wanted) {
        var k :| 0 <= k < |gs| && Is(gs[k], wanted);
        assert gs[1..][k - 1] == gs[k];
      }
      if Somewhere(gs[1..], wanted) {
        var k :| 0 <= k < |gs[1..]| && Is(gs[1..][k], wanted);
        assert Is(gs[k + 1], wanted);
      }
    }
  }

  /** A membership survives the WHERE when either side holds the permission. It takes the padding: a
      side without any row would otherwise erase the other's matches. */
  lemma {:induction false} SurvivingMembers(pk: Pk, ds: seq<Option<Permission>>, gs: seq<Option<Permission>>,
        wanted: Permission)
    requires gs != []
    ensures forall q :: q in Surviving(pk, ds, gs, wanted) ==> q == pk
    ensures ds != [] ==> (Surviving(pk, ds, gs, wanted) != [] <==> Somewhere(ds, wanted) || Somewhere(gs, wanted))
  {
    if ds != [] {
      PairedMembers(pk, ds[0], gs, wanted);
      SurvivingMembers(pk, ds[1..], gs, wanted);
      if Somewhere(ds, wanted) && !Is(ds[0], wanted) {
        var k :| 0 <= k < |ds| && Is(ds[k], wanted);
        assert ds[1..][k - 1] == ds[k];
      }
      if Somewhere(ds[1..], wanted) {
        var k :| 0 <= k < |ds[1..]| && Is(ds[1..][k], wanted);
        assert Is(ds[k + 1], wanted);
      }
    }
  }

  lemma PaddedJoinGrants(db: Db, ids: seq<PermissionId>, wanted: Permission)
    ensures Somewhere(Padded(Fetched(db, ids)), wanted) <==> Grants(db, ids, wanted)
  {
    var rows := Fetched(db, ids);
    if Grants(db, ids, wanted) {
      var p :| p in ids && p in db.permissions && db.permissions[p] == wanted;
      var k :| 0 <= k < |ids| && ids[k] == p;
      assert Is(rows[k], wanted);
    }
    if Somewhere(Padded(rows), wanted) {
      var k :| 0 <= k < |Padded(rows)| && Is(Padded(rows)[k], wanted);
      assert ids[k] in ids && rows[k] == Some(wanted);
    }
  }

  lemma {:induction false} GroupJoinGrants(db: Db, groups: seq<GroupId>, wanted: Permission)
    ensures Somewhere(GroupJoinRows(db, groups), wanted) <==> Grants(db, GroupGrants(db, groups), wanted)
  {
    if groups != [] {
      var ids := if groups[0] in db.groups then db.groups[groups[0]] else [];
      var first, rest := Padded(Fetched(db, ids)), GroupJoinRows(db, groups[1..]);
      PaddedJoinGrants(db, ids, wanted);
      GroupJoinGrants(db, groups[1..], wanted);
      SomewhereInEither(first, rest, wanted);
      assert forall p :: p in ids + GroupGrants(db, groups[1..]) <==> p in ids || p in GroupGrants(db, groups[1..]);
    }
  }

  lemma SomewhereInEither(a: seq<Option<Permission>>, b: seq<Option<Permission>>, wanted: Permission)
    ensures Somewhere(a + b, wanted) <==> Somewhere(a, wanted) || Somewhere(b, wanted)
  {
    if Somewhere(a + b, wanted) {
      var k :| 0 <= k < |a + b| && Is((a + b)[k], wanted);
      if k < |a| { assert Is(a[k], wanted); } else { assert Is(b[k - |a|], wanted); }
    }
    if Somewhere(a, wanted) {
      var k :| 0 <= k < |a| && Is(a[k], wanted);
      assert Is((a + b)[k], wanted);
    }
    if Somewhere(b, wanted) {
      var k :| 0 <= k < |b| && Is(b[k], wanted);
      assert Is((a + b)[|a| + k], wanted);
    }
  }

  lemma GrantsAreLabels(db: Db, ids: seq<PermissionId>, wanted: Permission, permission: string)
    requires Valid(db) && SplitLabel(permission) == Success(wanted)
    ensures Grants(db, ids, wanted) <==> permission in LabelsOf(db, ids)
  {
    forall p | p in db.permissions
      ensures db.permissions[p] == wanted <==> Label(db.permissions[p]) == permission
    {
      SplittingALabel(db.permissions[p], permission);
    }
  }

  /** One membership: what the two outer joins keep is what the set of labels contains. */
  lemma JoinKeepsTheHolders(db: Db, pk: Pk, wanted: Permission, permission: string)
    requires Valid(db) && SplitLabel(permission) == Success(wanted) && pk in db.memberships
    ensures var m := db.memberships[pk];
            var rows := Surviving(pk, DirectJoin(db, m), GroupJoin(db, m), wanted);
            (forall q :: q in rows ==> q == pk) && (rows != [] <==> permission in MembershipLabels(db, m))
  {
    var m := db.memberships[pk];
    SurvivingMembers(pk, DirectJoin(db, m), GroupJoin(db, m), wanted);
    PaddedJoinGrants(db, m.direct, wanted);
    GroupJoinGrants(db, m.groups, wanted);
    if GroupJoinRows(db, m.groups) == [] { assert !Is(GroupJoin(db, m)[0], wanted); }
    assert Somewhere(GroupJoin(db, m), wanted) <==> Somewhere(GroupJoinRows(db, m.groups), wanted);
    GrantsAreLabels(db, m.direct, wanted, permission);
    GrantsAreLabels(db, GroupGrants(db, m.groups), wanted, permission);
  }

  /** The memberships among `pks` that grant the permission, in order. */
  function Holders(db: Db, pks: seq<Pk>, permission: string): seq<Pk> {
    if pks == [] then []
    else (if pks[0] in db.memberships && permission in MembershipLabels(db, db.memberships[pks[0]]) then [pks[0]] else [])
         + Holders(db, pks[1..], permission)
  }

  lemma {:induction false} AllSurvivingMembers(db: Db, pks: seq<Pk>, wanted: Permission)
    ensures forall q :: q in AllSurviving(db, pks, wanted) ==> q in pks
  {
    if pks != [] {
      AllSurvivingMembers(db, pks[1..], wanted);
      if pks[0] in db.memberships {
        SurvivingMembers(pks[0], DirectJoin(db, db.memberships[pks[0]]), GroupJoin(db, db.memberships[pks[0]]), wanted);
      }
      assert pks == [pks[0]] + pks[1..];
    }
  }

  /** The filter keeps exactly the memberships that grant the permission, each once however many paths
      lead to it; so its count is their number. */
  lemma {:induction false} FilterKeepsTheHoldersOnce(db: Db, pks: seq<Pk>, permission: string)
    requires Valid(db) && Distinct(pks) && SplitLabel(permission).Success?
    ensures HoldingPermission(db, pks, permission) == Success(Holders(db, pks, permission))
    decreases |pks|
  {
    var wanted := SplitLabel(permission).value;
    if pks != [] {
      var first, rest := if pks[0] in db.memberships
                         then Surviving(pks[0], DirectJoin(db, db.memberships[pks[0]]), GroupJoin(db, db.memberships[pks[0]]), wanted)
                         else [], AllSurviving(db, pks[1..], wanted);
      assert Distinct(pks[1..]) by {
        forall i, j | 0 <= i < j < |pks[1..]| ensures pks[1..][i] != pks[1..][j] { assert pks[i + 1] != pks[j + 1]; }
      }
      FilterKeepsTheHoldersOnce(db, pks[1..], permission);
      if pks[0] in db.memberships { JoinKeepsTheHolders(db, pks[0], wanted, permission); }
      AllSurvivingMembers(db, pks[1..], wanted);
      assert pks[0] !in pks[1..];
      DeduplicatedBlocks(first, rest);
      DeduplicatedRepeats(pks[0], first);
    }
  }

  lemma MembershipIsFound(db: Db, pk: Pk)
    requires Valid(db) && pk in db.memberships && db.memberships[pk].active
    ensures MembershipOf(db, db.memberships[pk].user, db.memberships[pk].org) == Some(pk)
  {
    var active := set m | m in db.memberships && IsActiveMembership(db, db.memberships[pk].user, db.memberships[pk].org, m);
    assert pk in active && active == {pk};
  }

  lemma {:induction false} HoldersMembers(db: Db, pks: seq<Pk>, permission: string)
    ensures forall q :: q in Holders(db, pks, permission) <==>
              q in pks && q in db.memberships && permission in MembershipLabels(db, db.memberships[q])
  {
    if pks != [] {
      HoldersMembers(db, pks[1..], permission);
      assert pks == [pks[0]] + pks[1..];
    }
  }

  /** For an active membership of an active user and a well-formed label, the four readings agree. */
  lemma FourReadingsAgree(db: Db, pk: Pk, pks: seq<Pk>, permission: string)
    requires Valid(db) && pk in db.memberships && db.memberships[pk].active && db.users[db.memberships[pk].user].active
    requires Distinct(pks) && pk in pks && SplitLabel(permission).Success?
    ensures var m := db.memberships[pk];
            var granted := permission in BackendLabels(db, m.user, m.org);
            && HoldingPermission(db, pks, permission).Success?
            && (pk in HoldingPermission(db, pks, permission).value <==> granted)
            && MembershipHolds(db, pk, permission) == Success(granted)
            && (permission in BatchLabels(db, pk) <==> granted)
  {
    MembershipIsFound(db, pk);
    FilterKeepsTheHoldersOnce(db, pks, permission);
    HoldersMembers(db, pks, permission);
    RowCheckIsTheGrant(db, pk, permission);
  }

  lemma RowCheckIsTheGrant(db: Db, pk: Pk, permission: string)
    requires Valid(db) && pk in db.memberships && db.memberships[pk].active && SplitLabel(permission).Success?
    ensures MembershipHolds(db, pk, permission) == Success(permission in MembershipLabels(db, db.memberships[pk]))
  {
    FilterKeepsTheHoldersOnce(db, [pk], permission);
    HoldersMembers(db, [pk], permission);
    if permission in MembershipLabels(db, db.memberships[pk]) { assert pk in Holders(db, [pk], permission); }
    else { assert forall q :: q in Holders(db, [pk], permission) ==> false; }
  }

  /** A deactivated membership grants nothing through any of them that reads its flag. */
  lemma InactiveGrantsNothing(db: Db, pk: Pk, permission: string)
    requires Valid(db) && pk in db.memberships && !db.memberships[pk].active && SplitLabel(permission).Success?
    ensures BackendLabels(db, db.memberships[pk].user, db.memberships[pk].org) == {}
    ensures MembershipHolds(db, pk, permission) == Success(false) && BatchLabels(db, pk) == {}
  {
  }

  /** A malformed label is refused by the queryset forms, and no set ever contains one. */
  lemma MalformedLabelsAreInNoSet(db: Db, pks: seq<Pk>, user: UserId, org: OrgId, permission: string)
    requires Valid(db) && SplitLabel(permission).Failure?
    ensures HoldingPermission(db, pks, permission) == Failure(ValueError)
    ensures permission !in BackendLabels(db, user, org)
  {
    forall p | p in db.permissions
      ensures Label(db.permissions[p]) != permission
    {
      SplittingALabel(db.permissions[p], permission);
    }
  }
}
