/** The two writes that read and lock before they write, `save` without a snapshot and a checked
    `bulk_update`, among other sessions writing the same table at the same time. */
module LockedWrites {
  import opened Outcomes

  type Pk = nat
  type OrgId = nat
  type Sid = nat

  datatype Write = Write(pk: Pk, org: OrgId)

  /** What the call is about to write, batch by batch, and the rows its queryset matches: a filter is
      applied anew by each nested update. `save` is one write under no filter, and inserts the row it
      does not find; `bulk_update` does not. */
  datatype Plan = Plan(batches: seq<seq<Write>>, matches: (Pk, OrgId) -> bool, insertsMissing: bool)

  function SavePlan(pk: Pk, org: OrgId): Plan { Plan([[Write(pk, org)]], (p, o) => true, true) }

  /** Where a session is inside its transaction. `seen` is what it has read, row by locked row. */
  datatype Phase =
    | Idle
    | Locking(plan: Plan, remaining: set<Pk>, seen: map<Pk, OrgId>)
    | Checked(plan: Plan, seen: map<Pk, OrgId>)
    | Written

  datatype State = State(rows: map<Pk, OrgId>, locks: map<Pk, Sid>, phase: map<Sid, Phase>)

  datatype Action =
    | Begin(sid: Sid, plan: Plan)
    | LockRow(sid: Sid, pk: Pk)
    | Check(sid: Sid)
    | WriteRows(sid: Sid)
    | Commit(sid: Sid)
    | Other(sid: Sid, pk: Pk, org: Option<OrgId>)

  function PhaseOf(s: State, sid: Sid): Phase { if sid in s.phase then s.phase[sid] else Idle }

  function FirstOrg(writes: seq<Write>, p: Pk): Option<OrgId> {
    if writes == [] then None else if writes[0].pk == p then Some(writes[0].org) else FirstOrg(writes[1..], p)
  }

  function Pks(writes: seq<Write>): set<Pk> { set w | w in writes :: w.pk }

  function Flat(batches: seq<seq<Write>>): seq<Write> {
    if batches == [] then [] else batches[0] + Flat(batches[1..])
  }

  /** What the batches, one after the other, make of row `p`: the first object of a batch about it
      counts, and a later batch overrules an earlier one. */
  function Settled(plan: Plan, batches: seq<seq<Write>>, p: Pk, org: OrgId): OrgId
    decreases |batches|
  {
    if batches == [] then org
    else
      var first := FirstOrg(batches[0], p);
      Settled(plan, batches[1..], p, if plan.matches(p, org) && first.Some? then first.value else org)
  }

  predicate FreeFor(s: State, sid: Sid, p: Pk) { p in s.locks ==> s.locks[p] == sid }

  /** The refusal: some object disagrees with the row it names. */
  predicate Agrees(plan: Plan, seen: map<Pk, OrgId>) {
    forall w :: w in Flat(plan.batches) && w.pk in seen ==> seen[w.pk] == w.org
  }

  function Released(s: State, sid: Sid): State {
    State(s.rows, map p | p in s.locks && s.locks[p] != sid :: s.locks[p], s.phase[sid := Idle])
  }

  function RowsWritten(rows: map<Pk, OrgId>, plan: Plan): map<Pk, OrgId> {
    map p | p in rows.Keys + (if plan.insertsMissing then Pks(Flat(plan.batches)) else {}) ::
      if p in rows then Settled(plan, plan.batches, p, rows[p])
      else if FirstOrg(Flat(plan.batches), p).Some? then FirstOrg(Flat(plan.batches), p).value else 0
  }

  /** A step a session cannot take now, because it waits for a lock or is elsewhere, changes nothing. */
  function Step(s: State, a: Action): State {
    match a
    case Begin(sid, plan) =>
      if PhaseOf(s, sid).Idle? then s.(phase := s.phase[sid := Locking(plan, Pks(Flat(plan.batches)) * s.rows.Keys, map[])]) else s
    case LockRow(sid, p) =>
      (match PhaseOf(s, sid)
       case Locking(plan, remaining, seen) =>
         if p !in remaining || !FreeFor(s, sid, p) then s
         else if p !in s.rows then s.(phase := s.phase[sid := Locking(plan, remaining - {p}, seen)])
         else State(s.rows, s.locks[p := sid], s.phase[sid := Locking(plan, remaining - {p}, seen[p := s.rows[p]])])
       case _ => s)
    case Check(sid) =>
      (match PhaseOf(s, sid)
       case Locking(plan, remaining, seen) =>
         if remaining != {} then s
         else if Agrees(plan, seen) then s.(phase := s.phase[sid := Checked(plan, seen)])
         else Released(s, sid)
       case _ => s)
    case WriteRows(sid) =>
      if Writes(s, sid) then State(RowsWritten(s.rows, s.phase[sid].plan), s.locks, s.phase[sid := Written]) else s
    case Commit(sid) => if PhaseOf(s, sid).Written? then Released(s, sid) else s
    case Other(sid, p, org) =>
      if !PhaseOf(s, sid).Idle? || !FreeFor(s, sid, p) then s
      else s.(rows := if org.Some? then s.rows[p := org.value] else s.rows - {p})
  }

  /** The session has checked its rows and no row it is about to write is locked by another. */
  predicate Writes(s: State, sid: Sid) {
    PhaseOf(s, sid).Checked? && forall w :: w in Flat(PhaseOf(s, sid).plan.batches) ==> FreeFor(s, sid, w.pk)
  }

  function After(s: State, run: seq<Action>): State
    decreases |run|
  {
    if run == [] then s else Step(After(s, run[..|run| - 1]), run[|run| - 1])
  }

  ghost predicate Held(s: State, sid: Sid, seen: map<Pk, OrgId>) {
    forall p :: p in seen ==> p in s.locks && s.locks[p] == sid && p in s.rows && s.rows[p] == seen[p]
  }

  ghost predicate SessionConsistent(s: State, sid: Sid, phase: Phase) {
    match phase
    case Locking(_, _, seen) => Held(s, sid, seen)
    case Checked(plan, seen) => Held(s, sid, seen) && Agrees(plan, seen)
    case _ => true
  }

  /** What a session has read is still locked by it and still true. */
  ghost predicate Consistent(s: State) {
    forall sid :: sid in s.phase ==> SessionConsistent(s, sid, s.phase[sid])
  }

  lemma {:induction false} FirstOrgIsAWrite(writes: seq<Write>, p: Pk)
    ensures FirstOrg(writes, p).Some? <==> p in Pks(writes)
    ensures FirstOrg(writes, p).Some? ==> Write(p, FirstOrg(writes, p).value) in writes
  {
    if writes != [] {
      assert writes == [writes[0]] + writes[1..];
      FirstOrgIsAWrite(writes[1..], p);
      if writes[0].pk != p && p in Pks(writes) {
        var w :| w in writes && w.pk == p;
        assert w in writes[1..];
      }
    }
  }

  /** A row that every object about it agrees with keeps its organization, whatever the filter. */
  lemma {:induction false} AgreeingRowsSettle(plan: Plan, batches: seq<seq<Write>>, p: Pk, org: OrgId)
    requires forall w :: w in Flat(batches) && w.pk == p ==> w.org == org
    ensures Settled(plan, batches, p, org) == org
    decreases |batches|
  {
    if batches != [] {
      FirstOrgIsAWrite(batches[0], p);
      assert forall w :: w in batches[0] || w in Flat(batches[1..]) ==> w in Flat(batches);
      AgreeingRowsSettle(plan, batches[1..], p, org);
    }
  }

  lemma UnwrittenRowsSettle(plan: Plan, batches: seq<seq<Write>>, p: Pk, org: OrgId)
    requires forall w :: w in Flat(batches) ==> w.pk != p
    ensures Settled(plan, batches, p, org) == org
  {
    AgreeingRowsSettle(plan, batches, p, org);
  }

  /** Any table is a start, while no session is under way. */
  lemma IdleIsConsistent(s: State)
    requires forall sid :: sid in s.phase ==> s.phase[sid].Idle?
    ensures Consistent(s)
  {
  }

  lemma StepStaysConsistent(s: State, a: Action)
    requires Consistent(s)
    ensures Consistent(Step(s, a))
  {
    if a.WriteRows? && Writes(s, a.sid) {
      var plan, next := s.phase[a.sid].plan, Step(s, a);
      forall p | p in s.rows
        ensures p in next.rows && (p in s.locks && s.locks[p] != a.sid ==> next.rows[p] == s.rows[p])
      {
        if p in s.locks && s.locks[p] != a.sid {
          assert forall w :: w in Flat(plan.batches) ==> w.pk != p;
          UnwrittenRowsSettle(plan, plan.batches, p, s.rows[p]);
        } else if p in s.locks && SessionConsistent(s, a.sid, s.phase[a.sid]) && p in s.phase[a.sid].seen {
          AgreeingRowsSettle(plan, plan.batches, p, s.rows[p]);
        }
      }
    }
  }

  lemma {:induction false} RunStaysConsistent(s: State, run: seq<Action>)
    requires Consistent(s)
    ensures Consistent(After(s, run))
    decreases |run|
  {
    if run != [] {
      RunStaysConsistent(s, run[..|run| - 1]);
      StepStaysConsistent(After(s, run[..|run| - 1]), run[|run| - 1]);
    }
  }

  /** After any schedule of any sessions, the write that follows a check changes the organization of
      none of the rows its read found; they are all still there, as they were read. */
  lemma LockedRowsKeepTheirOrganization(s: State, run: seq<Action>, sid: Sid)
    requires Consistent(s) && Writes(After(s, run), sid)
    ensures var before, after := After(s, run), Step(After(s, run), WriteRows(sid));
            forall p :: p in PhaseOf(before, sid).seen ==>
              && p in before.rows && p in after.rows
              && after.rows[p] == before.rows[p] == PhaseOf(before, sid).seen[p]
  {
    RunStaysConsistent(s, run);
    var before := After(s, run);
    forall p | p in PhaseOf(before, sid).seen
      ensures var after := Step(before, WriteRows(sid)); p in after.rows && after.rows[p] == before.rows[p]
    {
      AgreeingRowsSettle(before.phase[sid].plan, before.phase[sid].plan.batches, p, before.rows[p]);
    }
  }

  /** A write moves an existing row exactly when that row was not there to be locked: it appeared
      between the read and the write, and what the batches settle on is not where it is. */
  lemma OnlyUnseenRowsMove(s: State, run: seq<Action>, sid: Sid, p: Pk)
    requires Consistent(s) && Writes(After(s, run), sid) && p in After(s, run).rows
    ensures var before, after := After(s, run), Step(After(s, run), WriteRows(sid));
            p in after.rows &&
            (after.rows[p] != before.rows[p] <==>
               var plan := PhaseOf(before, sid).plan;
               p !in PhaseOf(before, sid).seen && Settled(plan, plan.batches, p, before.rows[p]) != before.rows[p])
  {
    LockedRowsKeepTheirOrganization(s, run, sid);
  }

  /** For keys that are not repeated: it moves to where the one object about it says, if the queryset
      matches it, and nowhere otherwise. */
  lemma {:induction false} OneObjectSettles(plan: Plan, batches: seq<seq<Write>>, p: Pk, org: OrgId)
    requires forall i, j :: 0 <= i < j < |Flat(batches)| ==> Flat(batches)[i].pk != Flat(batches)[j].pk
    ensures Settled(plan, batches, p, org) ==
            if plan.matches(p, org) && FirstOrg(Flat(batches), p).Some? then FirstOrg(Flat(batches), p).value else org
    decreases |batches|
  {
    if batches != [] {
      var first, rest := batches[0], Flat(batches[1..]);
      assert Flat(batches) == first + rest;
      assert forall k :: 0 <= k < |rest| ==> rest[k] == Flat(batches)[|first| + k];
      FirstOrgOfBoth(first, rest, p);
      FirstOrgIsAWrite(first, p);
      if FirstOrg(first, p).Some? {
        forall w | w in rest ensures w.pk != p {
          var i :| 0 <= i < |first| && first[i] == Write(p, FirstOrg(first, p).value);
          var j :| 0 <= j < |rest| && rest[j] == w;
          assert Flat(batches)[i] == first[i] && Flat(batches)[|first| + j] == w;
        }
        UnwrittenRowsSettle(plan, batches[1..], p, if plan.matches(p, org) then FirstOrg(first, p).value else org);
      } else {
        OneObjectSettles(plan, batches[1..], p, org);
      }
    }
  }

  lemma {:induction false} FirstOrgOfBoth(a: seq<Write>, b: seq<Write>, p: Pk)
    ensures FirstOrg(a + b, p) == if FirstOrg(a, p).Some? then FirstOrg(a, p) else FirstOrg(b, p)
  {
    if a == [] {
      assert a + b == b;
    } else {
      assert (a + b)[0] == a[0] && (a + b)[1..] == a[1..] + b;
      FirstOrgOfBoth(a[1..], b, p);
    }
  }

  /** And such a schedule exists for every row and every two organizations: a `save` that found no row
      to lock, and a concurrent insert of it before the save writes. */
  lemma AbsentRowIsRaced(p: Pk, a: OrgId, b: OrgId)
    requires a != b
    ensures var s := State(map[], map[], map[]);
            var run := [Begin(1, SavePlan(p, a)), Check(1), Other(2, p, Some(b))];
            && Writes(After(s, run), 1)
            && After(s, run).rows == map[p := b]
            && Step(After(s, run), WriteRows(1)).rows == map[p := a]
  {
    var s := State(map[], map[], map[]);
    var plan := SavePlan(p, a);
    var run := [Begin(1, plan), Check(1), Other(2, p, Some(b))];
    assert run[..2][..1] == run[..1] && run[..1][..0] == [] && run[..2][1] == Check(1) && run[..1][0] == Begin(1, plan);
    assert After(s, run[..1]) == Step(s, Begin(1, plan));
    assert After(s, run[..2]) == Step(After(s, run[..1]), Check(1));
    assert run[..3 - 1] == run[..2];
    assert Flat(plan.batches) == [Write(p, a)] by { assert plan.batches[1..] == []; }
    assert Pks([Write(p, a)]) == {p} by { assert [Write(p, a)][0] in [Write(p, a)]; }
    assert FirstOrg([Write(p, a)], p) == Some(a);
    assert Settled(plan, plan.batches, p, b) == a by { assert plan.batches[1..] == [] && FirstOrg(plan.batches[0], p) == Some(a); }
  }

  // ------------------------------------------------------------------- the protocol, step by step

  /** A step out of turn changes nothing: beginning twice, locking what is not planned or is another's,
      checking before every planned row was read, writing before the check or past somebody's lock,
      committing before the write, and any other write into a locked row. */
  lemma OutOfTurnChangesNothing(s: State, a: Action)
    requires
      match a
      case Begin(sid, _) => !PhaseOf(s, sid).Idle?
      case LockRow(sid, p) =>
        !PhaseOf(s, sid).Locking? || p !in PhaseOf(s, sid).remaining || (p in s.locks && s.locks[p] != sid)
      case Check(sid) => !PhaseOf(s, sid).Locking? || PhaseOf(s, sid).remaining != {}
      case WriteRows(sid) =>
        !PhaseOf(s, sid).Checked? || exists w :: w in Flat(PhaseOf(s, sid).plan.batches) && w.pk in s.locks && s.locks[w.pk] != sid
      case Commit(sid) => !PhaseOf(s, sid).Written?
      case Other(sid, p, _) => !PhaseOf(s, sid).Idle? || (p in s.locks && s.locks[p] != sid)
    ensures Step(s, a) == s
  {
  }

  /** What the steps in turn do: a lock reads the row, or finds it gone; a check goes on or gives up with
      nothing written; a commit lets go of this session's locks and no others. */
  lemma StepsInTurn(s: State, sid: Sid, p: Pk, org: Option<OrgId>)
    ensures PhaseOf(s, sid).Locking? && p in PhaseOf(s, sid).remaining && (p in s.locks ==> s.locks[p] == sid) ==>
              var before, after := PhaseOf(s, sid), Step(s, LockRow(sid, p));
              && after.rows == s.rows
              && PhaseOf(after, sid) == Locking(before.plan, before.remaining - {p}, if p in s.rows then before.seen[p := s.rows[p]] else before.seen)
              && after.locks == (if p in s.rows then s.locks[p := sid] else s.locks)
    ensures PhaseOf(s, sid).Locking? && PhaseOf(s, sid).remaining == {} ==>
              var before, after := PhaseOf(s, sid), Step(s, Check(sid));
              && after.rows == s.rows
              && if forall w :: w in Flat(before.plan.batches) && w.pk in before.seen ==> before.seen[w.pk] == w.org
                 then PhaseOf(after, sid) == Checked(before.plan, before.seen) && after.locks == s.locks
                 else PhaseOf(after, sid).Idle? && LetGo(s, after, sid)
    ensures PhaseOf(s, sid).Written? ==>
              var after := Step(s, Commit(sid)); after.rows == s.rows && PhaseOf(after, sid).Idle? && LetGo(s, after, sid)
    ensures PhaseOf(s, sid).Idle? && (p in s.locks ==> s.locks[p] == sid) ==>
              var after := Step(s, Other(sid, p, org));
              && after.locks == s.locks && after.phase == s.phase
              && after.rows == (if org.Some? then s.rows[p := org.value] else map q | q in s.rows && q != p :: s.rows[q])
  {
  }

  ghost predicate LetGo(before: State, after: State, sid: Sid) {
    && (forall p :: p in after.locks <==> p in before.locks && before.locks[p] != sid)
    && forall p :: p in after.locks ==> after.locks[p] == before.locks[p]
  }

  function Locks(sid: Sid, order: seq<Pk>): seq<Action> { seq(|order|, k requires 0 <= k < |order| => LockRow(sid,
        order[k])) }

  lemma OneMore(s: State, run: seq<Action>, a: Action)
    ensures After(s, run + [a]) == Step(After(s, run), a)
  {
    assert (run + [a])[..|run|] == run;
  }

  function Seen(s: State, order: seq<Pk>): map<Pk, OrgId> { map p | p in order && p in s.rows :: s.rows[p] }

  function Named(order: seq<Pk>): set<Pk> { set p | p in order }

  /** The rows of `order`, read and locked, and nothing else done. */
  ghost predicate AllLocked(s: State, after: State, sid: Sid, plan: Plan, remaining: set<Pk>, order: seq<Pk>) {
    && after.rows == s.rows
    && PhaseOf(after, sid) == Locking(plan, remaining - Named(order), Seen(s, order))
    && (forall p :: p in after.locks <==> p in s.locks || p in order)
    && (forall p :: p in after.locks ==> after.locks[p] == if p in order then sid else s.locks[p])
  }

  lemma NamedOneMore(s: State, front: seq<Pk>, last: Pk)
    requires last in s.rows
    ensures Named(front + [last]) == Named(front) + {last}
    ensures Seen(s, front + [last]) == Seen(s, front)[last := s.rows[last]]
    ensures last in front ==> Seen(s, front + [last]) == Seen(s, front)
  {
  }

  lemma LockingOne(s: State, mid: State, sid: Sid, plan: Plan, remaining: set<Pk>, front: seq<Pk>, last: Pk)
    requires AllLocked(s, mid, sid, plan, remaining, front) && last in remaining && last in s.rows && FreeFor(s, sid, last)
    ensures AllLocked(s, Step(mid, LockRow(sid, last)), sid, plan, remaining, front + [last])
  {
    NamedOneMore(s, front, last);
    hide Named, Seen;
    assert forall p :: p in front + [last] <==> p in front || p == last;
    assert last in Named(front) <==> last in front by { NamedMembers(front); }
    if last in front {
      OutOfTurnChangesNothing(mid, LockRow(sid, last));
      assert remaining - Named(front) == remaining - Named(front + [last]);
    } else {
      StepsInTurn(mid, sid, last, None);
      assert remaining - Named(front) - {last} == remaining - Named(front + [last]);
    }
  }

  lemma NamedMembers(order: seq<Pk>)
    ensures forall p :: p in Named(order) <==> p in order
  {
  }

  /** All planned rows read and locked, in any order. */
  lemma {:induction false} LockingAll(s: State, sid: Sid, plan: Plan, remaining: set<Pk>, order: seq<Pk>)
    requires PhaseOf(s, sid) == Locking(plan, remaining, map[])
    requires forall p :: p in order ==> p in remaining && p in s.rows && FreeFor(s, sid, p)
    ensures AllLocked(s, After(s, Locks(sid, order)), sid, plan, remaining, order)
    decreases |order|
  {
    if order == [] {
      assert Locks(sid, order) == [] && Seen(s, order) == map[] && Named(order) == {};
    } else {
      var front, last := order[..|order| - 1], order[|order| - 1];
      assert order == front + [last];
      assert Locks(sid, order) == Locks(sid, front) + [LockRow(sid, last)];
      hide AllLocked, Step, FreeFor;
      LockingAll(s, sid, plan, remaining, front);
      OneMore(s, Locks(sid, front), LockRow(sid, last));
      LockingOne(s, After(s, Locks(sid, front)), sid, plan, remaining, front, last);
    }
  }

  lemma {:induction false} InTwoParts(s: State, a: seq<Action>, b: seq<Action>)
    ensures After(s, a + b) == After(After(s, a), b)
    decreases |b|
  {
    if b == [] {
      assert a + b == a;
    } else {
      var front, last := b[..|b| - 1], b[|b| - 1];
      assert a + b == (a + front) + [last] && b == front + [last];
      InTwoParts(s, a, front);
      OneMore(s, a + front, last);
      OneMore(After(s, a), front, last);
    }
  }

  function Alone(sid: Sid, plan: Plan, order: seq<Pk>): seq<Action> {
    [Begin(sid, plan)] + Locks(sid, order) + [Check(sid), WriteRows(sid), Commit(sid)]
  }

  /** A session that nobody disturbs: it moves no row; it writes nothing where some object disagrees with
      the row it names, and otherwise inserts what it may insert, where the first object about it says;
      and it ends with no lock held and nobody else's gone. */
  lemma LoneSession(s: State, sid: Sid, plan: Plan, order: seq<Pk>)
    requires PhaseOf(s, sid).Idle? && forall w :: w in Flat(plan.batches) ==> FreeFor(s, sid, w.pk)
    requires forall p :: p in order <==> p in s.rows && p in Pks(Flat(plan.batches))
    ensures LeftAlone(s, After(s, Alone(sid, plan, order)), sid, plan)
  {
    var begin, locks, rest: seq<Action> := [Begin(sid, plan)], Locks(sid, order), [Check(sid), WriteRows(sid), Commit(sid)];
    var planned := Pks(Flat(plan.batches)) * s.rows.Keys;
    assert begin == [] + begin;
    OneMore(s, [], Begin(sid, plan));
    var begun := After(s, begin);
    InTwoParts(s, begin, locks);
    InTwoParts(s, begin + locks, rest);
    assert forall p :: p in order ==> exists w :: w in Flat(plan.batches) && w.pk == p;
    LockingAll(begun, sid, plan, planned, order);
    assert planned - Named(order) == {} && Seen(begun, order) == Seen(s, order);
    LoneFinish(s, After(s, begin + locks), sid, plan, order);
  }

  /** What an undisturbed session leaves. */
  ghost predicate LeftAlone(s: State, after: State, sid: Sid, plan: Plan) {
    var agree := AllAgree(s, plan);
    && PhaseOf(after, sid).Idle? && LetGo(s, after, sid)
    && (forall p :: p in s.rows ==> p in after.rows && after.rows[p] == s.rows[p])
    && (forall p :: p in after.rows <==> p in s.rows || (agree && plan.insertsMissing && exists w :: w in Flat(plan.batches) && w.pk == p))
    && (forall p :: p in after.rows && p !in s.rows ==> Some(after.rows[p]) == FirstOrg(Flat(plan.batches), p))
  }

  ghost predicate AllAgree(s: State, plan: Plan) {
    forall w :: w in Flat(plan.batches) && w.pk in s.rows ==> s.rows[w.pk] == w.org
  }

  lemma ThreeSteps(s: State, a: Action, b: Action, c: Action)
    ensures After(s, [a, b, c]) == Step(Step(Step(s, a), b), c)
  {
    assert [a, b, c] == ([] + [a]) + [b] + [c];
    OneMore(s, [], a);
    OneMore(s, [a], b);
    OneMore(s, [a] + [b], c);
  }

  lemma AgreementIsSeen(s: State, plan: Plan, order: seq<Pk>)
    requires forall p :: p in order <==> p in s.rows && p in Pks(Flat(plan.batches))
    ensures (forall w :: w in Flat(plan.batches) && w.pk in Seen(s, order) ==> Seen(s, order)[w.pk] == w.org) <==> AllAgree(s, plan)
  {
    assert forall w :: w in Flat(plan.batches) ==> w.pk in Pks(Flat(plan.batches));
  }

  lemma LoneFinish(s: State, locked: State, sid: Sid, plan: Plan, order: seq<Pk>)
    requires forall w :: w in Flat(plan.batches) ==> FreeFor(locked, sid, w.pk)
    requires forall p :: p in order <==> p in s.rows && p in Pks(Flat(plan.batches))
    requires locked.rows == s.rows && PhaseOf(locked, sid) == Locking(plan, {}, Seen(s, order))
    requires forall p :: p in locked.locks <==> p in s.locks || p in order
    requires forall p :: p in locked.locks ==> locked.locks[p] == if p in order then sid else s.locks[p]
    requires forall p :: p in order && p in s.locks ==> s.locks[p] == sid
    ensures LeftAlone(s, After(locked, [Check(sid), WriteRows(sid), Commit(sid)]), sid, plan)
  {
    hide After, Step, Seen, LeftAlone, AllAgree, Flat, PhaseOf, LetGo;
    ThreeSteps(locked, Check(sid), WriteRows(sid), Commit(sid));
    AgreementIsSeen(s, plan, order);
    LetGoOfOrder(s, locked, sid, order);
    StepsInTurn(locked, sid, 0, None);
    var checked := Step(locked, Check(sid));
    if AllAgree(s, plan) {
      LoneWrite(s, checked, sid, plan, Seen(s, order));
      StepsInTurn(Step(checked, WriteRows(sid)), sid, 0, None);
      CommittedIsLeft(s, locked, Step(checked, WriteRows(sid)), Step(Step(checked, WriteRows(sid)), Commit(sid)), sid, plan);
    } else {
      OutOfTurnChangesNothing(checked, WriteRows(sid));
      OutOfTurnChangesNothing(checked, Commit(sid));
      GivenUpIsLeft(s, locked, checked, sid, plan);
    }
  }

  /** Letting go of what was locked on top is letting go of what was locked to begin with. */
  lemma LetGoOfOrder(s: State, locked: State, sid: Sid, order: seq<Pk>)
    requires forall p :: p in locked.locks <==> p in s.locks || p in order
    requires forall p :: p in locked.locks ==> locked.locks[p] == if p in order then sid else s.locks[p]
    requires forall p :: p in order && p in s.locks ==> s.locks[p] == sid
    ensures forall after :: LetGo(locked, after, sid) ==> LetGo(s, after, sid)
  {
  }

  lemma CommittedIsLeft(s: State, locked: State, written: State, after: State, sid: Sid, plan: Plan)
    requires forall end :: LetGo(locked, end, sid) ==> LetGo(s, end, sid)
    requires AllAgree(s, plan) && written.locks == locked.locks
    requires after.rows == written.rows && PhaseOf(after, sid).Idle? && LetGo(written, after, sid)
    requires forall p :: p in s.rows ==> p in written.rows && written.rows[p] == s.rows[p]
    requires forall p :: p in written.rows <==> p in s.rows || (plan.insertsMissing && exists w :: w in Flat(plan.batches) && w.pk == p)
    requires forall p :: p in written.rows && p !in s.rows ==> Some(written.rows[p]) == FirstOrg(Flat(plan.batches), p)
    ensures LeftAlone(s, after, sid, plan)
  {
    assert LetGo(locked, after, sid);
  }

  lemma GivenUpIsLeft(s: State, locked: State, after: State, sid: Sid, plan: Plan)
    requires forall end :: LetGo(locked, end, sid) ==> LetGo(s, end, sid)
    requires !AllAgree(s, plan) && after.rows == s.rows && PhaseOf(after, sid).Idle? && LetGo(locked, after, sid)
    ensures LeftAlone(s, after, sid, plan)
  {
  }

  lemma LoneWrite(s: State, checked: State, sid: Sid, plan: Plan, seen: map<Pk, OrgId>)
    requires PhaseOf(checked, sid) == Checked(plan, seen) && checked.rows == s.rows && AllAgree(s, plan)
    requires forall w :: w in Flat(plan.batches) ==> FreeFor(checked, sid, w.pk)
    ensures var after := Step(checked, WriteRows(sid));
            && PhaseOf(after, sid).Written? && after.locks == checked.locks
            && (forall p :: p in s.rows ==> p in after.rows && after.rows[p] == s.rows[p])
            && (forall p :: p in after.rows <==> p in s.rows || (plan.insertsMissing && exists w :: w in Flat(plan.batches) && w.pk == p))
            && (forall p :: p in after.rows && p !in s.rows ==> Some(after.rows[p]) == FirstOrg(Flat(plan.batches), p))
  {
    forall p | p in s.rows ensures Settled(plan, plan.batches, p, s.rows[p]) == s.rows[p] {
      AgreeingRowsSettle(plan, plan.batches, p, s.rows[p]);
    }
    forall p ensures FirstOrg(Flat(plan.batches), p).Some? <==> p in Pks(Flat(plan.batches)) {
      FirstOrgIsAWrite(Flat(plan.batches), p);
    }
  }

  /** So an undisturbed `save` of an absent row inserts it, in the organization it names. */
  lemma LoneSaveInserts(s: State, sid: Sid, p: Pk, org: OrgId)
    requires PhaseOf(s, sid).Idle? && FreeFor(s, sid, p) && p !in s.rows
    ensures After(s, Alone(sid, SavePlan(p, org), [])).rows == s.rows[p := org]
  {
    var plan := SavePlan(p, org);
    assert Flat(plan.batches) == [Write(p, org)] by { assert plan.batches[1..] == []; }
    assert FirstOrg([Write(p, org)], p) == Some(org);
    assert [Write(p, org)][0] in [Write(p, org)];
    LoneSession(s, sid, plan, []);
  }
}
