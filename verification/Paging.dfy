/** `_fetch_all`: a page of rows that select a safe relation is fetched page first and joined, or
    prefetched, afterwards; compared with joining first and cutting the page out of the result. */
module Paging {
  import opened Outcomes
  import opened Ownership
  import RI = RelationIntegrity
  import opened PrefetchPaths
  import Rows

  /** Everything a query depends on. `order` lists the table under the query's total order, so any
      order of any table is some duplicate-free sequence; `where` is the set of rows its filters match. */
  datatype Query = Query(
    rows: map<Pk, Row>,
    targets: map<Pk, Row>,
    order: seq<Pk>,
    where: set<Pk>,
    nullable: bool,
    low: nat,
    high: Option<nat>)

  ghost predicate WellFormedQuery(q: Query) {
    && Rows.Distinct(q.order)
    && (forall p :: p in q.order ==> p in q.rows)
    && (q.high.Some? ==> q.low <= q.high.value)
  }

  datatype Fetched = Fetched(pk: Pk, article: Option<Row>)

  function Where(s: seq<Pk>, keep: set<Pk>): seq<Pk> {
    if s == [] then [] else (if s[0] in keep then [s[0]] else []) + Where(s[1..], keep)
  }

  function Candidates(q: Query): seq<Pk> { Where(q.order, q.where) }

  /** `LIMIT`/`OFFSET`, clipped at the end of what there is. */
  function Slice(s: seq<Pk>, low: nat, high: Option<nat>): seq<Pk>
    requires high.Some? ==> low <= high.value
  {
    var to := if high.Some? && high.value < |s| then high.value else |s|;
    if low <= to then s[low..to] else []
  }

  /** The row the two-column join finds. */
  function Related(q: Query, p: Pk): Option<Row> {
    if p in q.rows && RI.Joins(q.targets, q.rows[p]) then Some(q.targets[q.rows[p].key.value]) else None
  }

  /** The rows the join keeps: all of them when it is an outer join. */
  function Kept(q: Query): set<Pk> { set p | p in q.rows && (q.nullable || Related(q, p).Some?) }

  /** An inner join drops exactly the rows without a target of their own organization, an outer join none. */
  lemma KeptIff(q: Query, p: Pk)
    ensures p in Kept(q) <==>
            p in q.rows &&
            (q.nullable || exists k :: q.rows[p].key == Some(k) && k in q.targets && q.targets[k].org == q.rows[p].org)
    ensures p in q.rows && q.rows[p].key.Some? && q.rows[p].key.value in q.targets && q.targets[q.rows[p].key.value].org == q.rows[p].org ==>
              Related(q, p) == Some(q.targets[q.rows[p].key.value])
  {
  }

  function Joined(q: Query, s: seq<Pk>): seq<Pk> { Where(s, Kept(q)) }

  function WithRelated(q: Query, s: seq<Pk>): seq<Fetched> {
    seq(|s|, k requires 0 <= k < |s| => Fetched(s[k], Related(q, s[k])))
  }

  /** What Django does by itself: join every candidate, then cut the page. */
  function JoinThenPage(q: Query): seq<Fetched>
    requires q.high.Some? ==> q.low <= q.high.value
  {
    WithRelated(q, Slice(Joined(q, Candidates(q)), q.low, q.high))
  }

  function Members(s: seq<Pk>): set<Pk> { set p | p in s }

  function Page(q: Query): seq<Pk>
    requires q.high.Some? ==> q.low <= q.high.value
  {
    Slice(Candidates(q), q.low, q.high)
  }

  /** `_paged_by_subquery`: `WHERE pk IN (the page)` in place of the limits, with the join kept. */
  function PageThenJoin(q: Query): seq<Fetched>
    requires q.high.Some? ==> q.low <= q.high.value
  {
    WithRelated(q, Joined(q, Where(q.order, q.where * Members(Page(q)))))
  }

  /** What the second query of a prefetch asks for: both columns of each row of the page. */
  function Wanted(q: Query, page: seq<Pk>): set<(Pk, OrgId)> {
    set p | p in page && p in q.rows && q.rows[p].key.Some? :: (q.rows[p].key.value, q.rows[p].org)
  }

  /** And what it returns, filed under both. */
  function PrefetchedTargets(q: Query, page: seq<Pk>): map<(Pk, OrgId), Row> {
    map w | w in Wanted(q, page) && w.0 in q.targets && q.targets[w.0].org == w.1 :: q.targets[w.0]
  }

  function Attached(q: Query, fetched: map<(Pk, OrgId), Row>, p: Pk): Fetched {
    if p in q.rows && q.rows[p].key.Some? && (q.rows[p].key.value, q.rows[p].org) in fetched
    then Fetched(p, Some(fetched[(q.rows[p].key.value, q.rows[p].org)]))
    else Fetched(p, None)
  }

  /** The page without the join, each row then given the target its own two columns name. */
  function PageThenPrefetch(q: Query): seq<Fetched>
    requires q.high.Some? ==> q.low <= q.high.value
  {
    var fetched := PrefetchedTargets(q, Page(q));
    seq(|Page(q)|, k requires 0 <= k < |Page(q)| => Attached(q, fetched, Page(q)[k]))
  }

  // ----------------------------------------------------------------- filtering a page

  lemma {:induction false} WhereMembers(s: seq<Pk>, keep: set<Pk>)
    ensures forall p :: p in Where(s, keep) <==> p in s && p in keep
  {
    if s != [] {
      WhereMembers(s[1..], keep);
      assert s == [s[0]] + s[1..];
    }
  }

  lemma {:induction false} WhereConcat(a: seq<Pk>, b: seq<Pk>, keep: set<Pk>)
    ensures Where(a + b, keep) == Where(a, keep) + Where(b, keep)
  {
    if a == [] {
      assert a + b == b;
    } else {
      assert (a + b)[0] == a[0] && (a + b)[1..] == a[1..] + b;
      WhereConcat(a[1..], b, keep);
      Associates(if a[0] in keep then [a[0]] else [], Where(a[1..], keep), Where(b, keep));
    }
  }

  lemma Associates(a: seq<Pk>, b: seq<Pk>, c: seq<Pk>)
    ensures a + (b + c) == (a + b) + c
  {
  }

  lemma {:induction false} WhereNothing(s: seq<Pk>, keep: set<Pk>)
    requires forall p :: p in s ==> p !in keep
    ensures Where(s, keep) == []
  {
    if s != [] {
      assert forall p :: p in s[1..] ==> p in s;
      WhereNothing(s[1..], keep);
    }
  }

  lemma {:induction false} WhereEverything(s: seq<Pk>, keep: set<Pk>)
    requires forall p :: p in s ==> p in keep
    ensures Where(s, keep) == s
  {
    if s != [] {
      assert forall p :: p in s[1..] ==> p in s;
      WhereEverything(s[1..], keep);
    }
  }

  lemma {:induction false} WhereTwice(s: seq<Pk>, keep: set<Pk>, also: set<Pk>)
    ensures Where(Where(s, keep), also) == Where(s, keep * also)
  {
    if s != [] {
      WhereTwice(s[1..], keep, also);
      WhereConcat(if s[0] in keep then [s[0]] else [], Where(s[1..], keep), also);
    }
  }

  lemma {:induction false} WhereStaysDistinct(s: seq<Pk>, keep: set<Pk>)
    requires Rows.Distinct(s)
    ensures Rows.Distinct(Where(s, keep))
  {
    if s != [] {
      assert Rows.Distinct(s[1..]) by {
        forall i, j | 0 <= i < j < |s[1..]| ensures s[1..][i] != s[1..][j] {
          assert s[i + 1] != s[j + 1];
        }
      }
      WhereStaysDistinct(s[1..], keep);
      WhereMembers(s[1..], keep);
      var rest := Where(s[1..], keep);
      assert s[0] !in rest;
      assert Rows.Distinct([s[0]] + rest);
    }
  }

  /** Where a slice of `s` starts and ends. */
  function From(s: seq<Pk>, low: nat, high: Option<nat>): nat
    requires high.Some? ==> low <= high.value
    ensures From(s, low, high) <= To(s, high)
  {
    if low <= To(s, high) then low else To(s, high)
  }

  function To(s: seq<Pk>, high: Option<nat>): nat
    ensures To(s, high) <= |s|
  {
    if high.Some? && high.value < |s| then high.value else |s|
  }

  lemma SliceIsARange(s: seq<Pk>, low: nat, high: Option<nat>)
    requires high.Some? ==> low <= high.value
    ensures Slice(s, low, high) == s[From(s, low, high)..To(s, high)]
  {
  }

  lemma OutsideARange(s: seq<Pk>, a: nat, b: nat)
    requires a <= b <= |s| && Rows.Distinct(s)
    ensures forall p :: p in s[..a] || p in s[b..] ==> p !in s[a..b]
  {
    forall i | 0 <= i < |s| && !(a <= i < b) ensures s[i] !in s[a..b] {
      assert forall j :: a <= j < b ==> s[j] != s[i];
    }
  }

  /** Selecting a range of a duplicate-free sequence by membership gives the range back. */
  lemma RangeByMembership(s: seq<Pk>, a: nat, b: nat)
    requires a <= b <= |s| && Rows.Distinct(s)
    ensures Where(s, Members(s[a..b])) == s[a..b]
  {
    hide Where, Rows.Distinct;
    var keep, before, range, after := Members(s[a..b]), s[..a], s[a..b], s[b..];
    assert s == before + range + after;
    OutsideARange(s, a, b);
    WhereConcat(before + range, after, keep);
    WhereConcat(before, range, keep);
    WhereNothing(before, keep);
    WhereEverything(range, keep);
    WhereNothing(after, keep);
  }

  /** The outer query of `_paged_by_subquery` is exactly the page, before its join. */
  lemma SubqueryIsThePage(q: Query)
    requires WellFormedQuery(q)
    ensures Where(q.order, q.where * Members(Page(q))) == Page(q)
  {
    var c := Candidates(q);
    WhereStaysDistinct(q.order, q.where);
    SliceIsARange(c, q.low, q.high);
    RangeByMembership(c, From(c, q.low, q.high), To(c, q.high));
    WhereTwice(q.order, q.where, Members(Page(q)));
  }

  // ------------------------------------------------------------------ the comparison

  /** How many of the first `k` candidates survive the join. */
  function Survivors(q: Query, k: nat): nat
    requires k <= |Candidates(q)|
  {
    |Joined(q, Candidates(q)[..k])|
  }

  /** Joining a range of the candidates gives a range of the joined candidates. */
  lemma JoinedRange(q: Query, a: nat, b: nat)
    requires a <= b <= |Candidates(q)|
    ensures Survivors(q, a) <= Survivors(q, b) <= |Joined(q, Candidates(q))|
    ensures Joined(q, Candidates(q)[a..b]) == Joined(q, Candidates(q))[Survivors(q, a)..Survivors(q, b)]
  {
    var c, keep := Candidates(q), Kept(q);
    assert c == c[..b] + c[b..] && c[..b] == c[..a] + c[a..b];
    WhereConcat(c[..b], c[b..], keep);
    WhereConcat(c[..a], c[a..b], keep);
  }

  /** Both readings are ranges of the same joined sequence: page-then-join counts survivors at the
      page's two ends, join-then-page counts the ends themselves. */
  lemma BothAreRangesOfTheJoin(q: Query)
    requires WellFormedQuery(q)
    ensures var c, j := Candidates(q), Joined(q, Candidates(q));
            var (a, b) := (From(c, q.low, q.high), To(c, q.high));
            && Survivors(q, a) <= Survivors(q, b) <= |j|
            && PageThenJoin(q) == WithRelated(q, j[Survivors(q, a)..Survivors(q, b)])
            && JoinThenPage(q) == WithRelated(q, j[From(j, q.low, q.high)..To(j, q.high)])
  {
    var c, j := Candidates(q), Joined(q, Candidates(q));
    SliceIsARange(c, q.low, q.high);
    SliceIsARange(j, q.low, q.high);
    SubqueryIsThePage(q);
    JoinedRange(q, From(c, q.low, q.high), To(c, q.high));
  }

  /** The two ranges give the same rows when they are the same range, or both are empty. */
  lemma RangesAgreeIff(q: Query)
    requires WellFormedQuery(q)
    ensures var c, j := Candidates(q), Joined(q, Candidates(q));
            var (a, b) := (Survivors(q, From(c, q.low, q.high)), Survivors(q, To(c, q.high)));
            var (m, n) := (From(j, q.low, q.high), To(j, q.high));
            PageThenJoin(q) == JoinThenPage(q) <==> (a, b) == (m, n) || (a == b && m == n)
  {
    BothAreRangesOfTheJoin(q);
    var c, j := Candidates(q), Joined(q, Candidates(q));
    var (a, b) := (Survivors(q, From(c, q.low, q.high)), Survivors(q, To(c, q.high)));
    var (m, n) := (From(j, q.low, q.high), To(j, q.high));
    WhereStaysDistinct(q.order, q.where);
    WhereStaysDistinct(c, Kept(q));
    if PageThenJoin(q) == JoinThenPage(q) && a < b {
      assert |PageThenJoin(q)| == b - a == n - m == |JoinThenPage(q)|;
      assert PageThenJoin(q)[0].pk == j[a..b][0] && JoinThenPage(q)[0].pk == j[m..n][0];
      assert j[a] == j[m];
    }
  }

  ghost predicate AllKept(q: Query, s: seq<Pk>) { forall p :: p in s ==> p in Kept(q) }

  ghost predicate NoneKept(q: Query, s: seq<Pk>) { forall p :: p in s ==> p !in Kept(q) }

  lemma {:induction false} KeptByCount(q: Query, s: seq<Pk>)
    ensures |Joined(q, s)| <= |s|
    ensures |Joined(q, s)| == |s| <==> AllKept(q, s)
    ensures |Joined(q, s)| == 0 <==> NoneKept(q, s)
  {
    if s != [] {
      KeptByCount(q, s[1..]);
      assert s == [s[0]] + s[1..];
      assert forall p :: p in s <==> p == s[0] || p in s[1..];
    }
  }

  /** Counting survivors is asking which candidates the join drops. */
  lemma SurvivorsByDrops(q: Query, a: nat, b: nat)
    requires a <= b <= |Candidates(q)|
    ensures Survivors(q, a) == a <==> AllKept(q, Candidates(q)[..a])
    ensures Survivors(q, a) == Survivors(q, b) <==> NoneKept(q, Candidates(q)[a..b])
    ensures Survivors(q, b) == |Joined(q, Candidates(q))| <==> NoneKept(q, Candidates(q)[b..])
    ensures Survivors(q, a) <= a && Survivors(q, a) <= Survivors(q, b) <= |Joined(q, Candidates(q))| <= |Candidates(q)|
  {
    var c := Candidates(q);
    JoinedRange(q, a, b);
    JoinedRange(q, b, |c|);
    assert c[b..|c|] == c[b..] && c[..|c|] == c;
    KeptByCount(q, c[..a]);
    KeptByCount(q, c[a..b]);
    KeptByCount(q, c[b..]);
    KeptByCount(q, c);
  }

  /** Exactly when page-then-join returns what join-then-page returns, for every table, order, filter
      and slice. With a kept candidate on the page: no candidate before the page is dropped, and either
      none up to its end is, or none after it is kept. With none: the page was empty on purpose, or no
      more candidates are kept in all than the page skips. */
  lemma PagingAgreesIff(q: Query)
    requires WellFormedQuery(q)
    ensures var c := Candidates(q);
            var (a, b) := (From(c, q.low, q.high), To(c, q.high));
            PageThenJoin(q) == JoinThenPage(q) <==>
              if NoneKept(q, c[a..b]) then q.high == Some(q.low) || |Joined(q, c)| <= q.low
              else AllKept(q, c[..a]) && (AllKept(q, c[..b]) || NoneKept(q, c[b..]))
  {
    var c := Candidates(q);
    var a, b := From(c, q.low, q.high), To(c, q.high);
    RangesAgreeIff(q);
    SurvivorsByDrops(q, a, b);
    SurvivorsByDrops(q, b, b);
  }

  /** Pages where both deferrals go wrong: the first candidate is dropped by the join and the second is
      not, and the page is the first one. */
  lemma DroppedCandidateMovesThePage(q: Query)
    requires WellFormedQuery(q) && q.low == 0 && q.high == Some(1)
    requires |Candidates(q)| > 1 && Candidates(q)[0] !in Kept(q) && Candidates(q)[1] in Kept(q)
    ensures PageThenJoin(q) == []
    ensures PageThenPrefetch(q) == [Fetched(Candidates(q)[0], None)]
    ensures JoinThenPage(q) == [Fetched(Candidates(q)[1], Related(q, Candidates(q)[1]))]
  {
    var c, j := Candidates(q), Joined(q, Candidates(q));
    BothAreRangesOfTheJoin(q);
    PrefetchAttachesTheJoin(q);
    SurvivorsByDrops(q, 0, 1);
    assert c[0..1] == [c[0]] && c[..0] == [] && Page(q) == [c[0]];
    assert Joined(q, c) == [] + Joined(q, c[1..]);
    assert Joined(q, c[1..]) == [c[1]] + Joined(q, c[1..][1..]);
    assert c[0] in q.order by { WhereMembers(q.order, q.where); assert c[0] in c; }
    assert Related(q, c[0]) == None;
  }

  /** Every candidate joins: the relation is nullable, or each candidate row has a target of its own
      organization. */
  ghost predicate NothingIsDropped(q: Query) { AllKept(q, Candidates(q)) }

  /** Then all three readings are the same rows with the same related values. */
  lemma DeferralPreservesMeaning(q: Query)
    requires WellFormedQuery(q) && NothingIsDropped(q)
    ensures PageThenJoin(q) == JoinThenPage(q) && PageThenPrefetch(q) == JoinThenPage(q)
  {
    PageIsKept(q);
    PrefetchAttachesTheJoin(q);
    SubqueryIsThePage(q);
  }

  lemma PageIsKept(q: Query)
    requires WellFormedQuery(q) && NothingIsDropped(q)
    ensures Joined(q, Candidates(q)) == Candidates(q) && Joined(q, Page(q)) == Page(q)
  {
    var c := Candidates(q);
    WhereEverything(c, Kept(q));
    SliceIsARange(c, q.low, q.high);
    assert forall p :: p in Page(q) ==> p in c;
    WhereEverything(Page(q), Kept(q));
  }

  /** Prefetching attaches to each row of the page what the join would have. */
  lemma PrefetchAttachesTheJoin(q: Query)
    requires WellFormedQuery(q)
    ensures PageThenPrefetch(q) == WithRelated(q, Page(q))
  {
    var page, fetched := Page(q), PrefetchedTargets(q, Page(q));
    forall k | 0 <= k < |page|
      ensures Attached(q, fetched, page[k]) == Fetched(page[k], Related(q, page[k]))
    {
      var p := page[k];
      assert p in page;
      if p in q.rows && q.rows[p].key.Some? {
        assert (q.rows[p].key.value, q.rows[p].org) in Wanted(q, page);
      }
    }
  }

  lemma {:induction false} FullWhere(s: seq<Pk>, keep: set<Pk>)
    ensures |Where(s, keep)| <= |s|
    ensures |Where(s, keep)| == |s| ==> forall p :: p in s ==> p in keep
  {
    if s != [] {
      FullWhere(s[1..], keep);
      assert s == [s[0]] + s[1..];
    }
  }

  /** An element that a filter left in its place has nothing dropped before it. */
  lemma InPlaceMeansNothingDropped(s: seq<Pk>, keep: set<Pk>, k: nat)
    requires Rows.Distinct(s) && k < |s| && k < |Where(s, keep)| && Where(s, keep)[k] == s[k]
    ensures forall p :: p in s[..k + 1] ==> p in keep
  {
    assert s == s[..k + 1] + s[k + 1..];
    WhereConcat(s[..k + 1], s[k + 1..], keep);
    FullWhere(s[..k + 1], keep);
    var early, late := |Where(s[..k + 1], keep)|, Where(s[k + 1..], keep);
    WhereMembers(s[k + 1..], keep);
    assert s[k] !in s[k + 1..];
    assert forall i :: 0 <= i < |late| ==> late[i] in late && late[i] != s[k];
    assert early > k;
  }

  /** Exactly when page-then-prefetch, which never drops a row, returns what join-then-page does: the
      page is empty, or no candidate up to its end is dropped by the join. */
  lemma PrefetchAgreesIff(q: Query)
    requires WellFormedQuery(q)
    ensures var c := Candidates(q);
            PageThenPrefetch(q) == JoinThenPage(q) <==>
              Page(q) == [] || forall p :: p in c[..To(c, q.high)] ==> p in Kept(q)
  {
    PrefetchAttachesTheJoin(q);
    if Page(q) == [] {
      SliceIsARange(Candidates(q), q.low, q.high);
      SliceIsARange(Joined(q, Candidates(q)), q.low, q.high);
      FullWhere(Candidates(q), Kept(q));
    } else {
      if PageThenPrefetch(q) == JoinThenPage(q) {
        AgreeingDropsNothing(q);
      }
      if forall p :: p in Candidates(q)[..To(Candidates(q), q.high)] ==> p in Kept(q) {
        DroppingNothingAgrees(q);
      }
    }
  }

  lemma AgreeingDropsNothing(q: Query)
    requires WellFormedQuery(q) && Page(q) != []
    requires WithRelated(q, Page(q)) == JoinThenPage(q)
    ensures var c := Candidates(q); forall p :: p in c[..To(c, q.high)] ==> p in Kept(q)
  {
    var c, j := Candidates(q), Joined(q, Candidates(q));
    var a, b := From(c, q.low, q.high), To(c, q.high);
    SliceIsARange(c, q.low, q.high);
    SliceIsARange(j, q.low, q.high);
    FullWhere(c, Kept(q));
    WhereStaysDistinct(q.order, q.where);
    var last := b - 1 - a;
    assert |Page(q)| == |Slice(j, q.low, q.high)| by {
      assert |WithRelated(q, Page(q))| == |Page(q)| && |JoinThenPage(q)| == |Slice(j, q.low, q.high)|;
    }
    assert WithRelated(q, Page(q))[last].pk == c[b - 1] && JoinThenPage(q)[last].pk == j[b - 1];
    InPlaceMeansNothingDropped(c, Kept(q), b - 1);
  }

  lemma DroppingNothingAgrees(q: Query)
    requires WellFormedQuery(q) && Page(q) != []
    requires var c := Candidates(q); forall p :: p in c[..To(c, q.high)] ==> p in Kept(q)
    ensures WithRelated(q, Page(q)) == JoinThenPage(q)
  {
    var c, j := Candidates(q), Joined(q, Candidates(q));
    var a, b := From(c, q.low, q.high), To(c, q.high);
    SliceIsARange(c, q.low, q.high);
    SliceIsARange(j, q.low, q.high);
    assert c == c[..b] + c[b..];
    WhereConcat(c[..b], c[b..], Kept(q));
    WhereEverything(c[..b], Kept(q));
    if b < |c| { assert Some(b) == q.high; } else { assert c[..b] == c; }
    assert Slice(j, q.low, q.high) == j[a..b] == Page(q);
  }

  /** Keys of candidates are set, as a relation that is not nullable demands, and relations are
      integral: what `RelationIntegrity` keeps true is what deferral needs. */
  lemma IntegrityMakesDeferralSafe(q: Query)
    requires WellFormedQuery(q) && RI.Integral(q.rows, q.targets)
    requires q.nullable || forall p :: p in q.rows ==> q.rows[p].key.Some?
    ensures PageThenJoin(q) == JoinThenPage(q) && PageThenPrefetch(q) == JoinThenPage(q)
  {
    WhereMembers(q.order, q.where);
    forall p | p in Candidates(q)
      ensures p in Kept(q)
    {
      assert p in q.rows;
      if q.rows[p].key.Some? { assert RI.Joins(q.targets, q.rows[p]); }
    }
    DeferralPreservesMeaning(q);
  }

  /** With no assumption at all, a page from the start is still a prefix of the join's page. */
  lemma FirstPageIsAPrefix(q: Query)
    requires WellFormedQuery(q) && q.low == 0
    ensures PageThenJoin(q) <= JoinThenPage(q)
  {
    BothAreRangesOfTheJoin(q);
    var c, j := Candidates(q), Joined(q, Candidates(q));
    var b := To(c, q.high);
    assert c[..0] == [];
    FullWhere(c[..b], Kept(q));
    assert WithRelated(q, j[0..Survivors(q, b)]) <= WithRelated(q, j[0..To(j, q.high)]);
  }

  // ---------------------------------------------------------------------- _fetch_all

  datatype SelectRelated = Nothing | Everything | Named(items: Entries)

  /** `_safe_relations_to_defer`. */
  function ToDefer(paged: bool, select: SelectRelated, auto: bool, safe: seq<string>): seq<string> {
    if !paged || !select.Named? || !auto then [] else NamesIn(select.items, safe)
  }

  /** Whether the query joins the safe relation at all. A bare `select_related()` follows the relations
      that are not nullable. */
  predicate Selects(select: SelectRelated, nullable: bool) {
    match select
    case Nothing => false
    case Everything => !nullable
    case Named(items) => NamesIn(items, [RELATION]) != []
  }

  /** The candidates from `low` up to `high`, or to the end if that comes first, with nothing attached:
      a query that does not select the relation joins nothing and drops nothing. */
  ghost predicate IsPlainPage(q: Query, page: seq<Fetched>) {
    var c := Candidates(q);
    && |page| == (if q.high.Some? && q.high.value < |c| then q.high.value - q.low else if q.low <= |c| then |c| - q.low else 0)
    && forall k :: 0 <= k < |page| ==> q.low + k < |c| && page[k] == Fetched(c[q.low + k], None)
  }

  lemma {:induction false} NamesInMembers(items: Entries, safe: seq<string>)
    ensures forall n :: n in NamesIn(items, safe) <==> n in safe && exists k :: 0 <= k < |items| && items[k].name == n
  {
    if items != [] {
      NamesInMembers(items[1..], safe);
      forall n ensures n in NamesIn(items, safe) <==> n in safe && exists k :: 0 <= k < |items| && items[k].name == n {
        if k :| 0 <= k < |items[1..]| && items[1..][k].name == n { assert items[k + 1].name == n; }
        if k :| 0 <= k < |items| && items[k].name == n { assert k > 0 ==> items[1..][k - 1].name == n; }
      }
    }
  }

  ghost predicate Lists(items: Entries, name: string) { exists k :: 0 <= k < |items| && items[k].name == name }

  /** Deferring takes a page, `select_related` by name, and the setting; and then the safe relation is
      deferred exactly when it is named at the top. */
  lemma DefersIff(paged: bool, select: SelectRelated, auto: bool)
    ensures ToDefer(paged, select, auto, [RELATION]) != [] <==> paged && auto && select.Named? && Lists(select.items, RELATION)
    ensures Selects(select, true) <==> select.Named? && Lists(select.items, RELATION)
    ensures Selects(select, false) <==> select.Everything? || (select.Named? && Lists(select.items, RELATION))
  {
    if select.Named? {
      NamesInMembers(select.items, [RELATION]);
      var names := NamesIn(select.items, [RELATION]);
      assert names != [] <==> RELATION in names by {
        if names != [] { assert names[0] in names; }
      }
    }
  }

  function NamesIn(items: Entries, safe: seq<string>): seq<string> {
    if items == [] then [] else (if items[0].name in safe then [items[0].name] else []) + NamesIn(items[1..], safe)
  }

  class QuerySet {
    const query: Query
    const select: SelectRelated
    const autoDefer: bool
    const slicedSubqueries: bool
    var resultCache: Option<seq<Fetched>>
    var prefetchDone: bool

    constructor (query: Query, select: SelectRelated, autoDefer: bool, slicedSubqueries: bool)
      ensures this.query == query && this.select == select && this.autoDefer == autoDefer
      ensures this.slicedSubqueries == slicedSubqueries && resultCache.None? && !prefetchDone
    {
      this.query, this.select, this.autoDefer, this.slicedSubqueries := query, select, autoDefer, slicedSubqueries;
      resultCache, prefetchDone := None, false;
    }

    method SafeRelationsToDefer() returns (names: seq<string>)
      ensures names == ToDefer(query.high.Some?, select, autoDefer, [RELATION])
    {
      if query.high.None? || !select.Named? || !autoDefer {
        return [];
      }
      names := [];
      for k := 0 to |select.items|
        invariant names + NamesIn(select.items[k..], [RELATION]) == NamesIn(select.items, [RELATION])
      {
        assert select.items[k..][1..] == select.items[k + 1..];
        if select.items[k].name in [RELATION] {
          names := names + [select.items[k].name];
        }
      }
    }

    /** `_fetch_all`: which reading fills the cache, and that the three of a query that selects the safe
        relation cannot be told apart when the join drops no candidate. */
    method FetchAll()
      requires WellFormedQuery(query)
      modifies this
      ensures var deferred := ToDefer(query.high.Some?, select, autoDefer, [RELATION]) != [];
              && resultCache == (if old(resultCache).Some? then old(resultCache)
                                 else if !Selects(select, query.nullable) then resultCache
                                 else if !deferred then Some(JoinThenPage(query))
                                 else if slicedSubqueries then Some(PageThenJoin(query))
                                 else Some(PageThenPrefetch(query)))
              && prefetchDone == (old(prefetchDone) || (old(resultCache).None? && deferred))
      ensures old(resultCache).None? && Selects(select, query.nullable) && NothingIsDropped(query) ==>
                resultCache == Some(JoinThenPage(query))
      ensures old(resultCache).None? && !Selects(select, query.nullable) ==>
                resultCache.Some? && IsPlainPage(query, resultCache.value)
    {
      if resultCache.None? {
        var deferred := SafeRelationsToDefer();
        if NothingIsDropped(query) { DeferralPreservesMeaning(query); }
        if deferred != [] {
          if slicedSubqueries {
            resultCache := Some(PageThenJoin(query));
            prefetchDone := true;
            return;
          }
          resultCache := Some(PageThenPrefetch(query));
          prefetchDone := true;
          return;
        }
        SuperFetchAll();
      }
    }

    /** Django's `_fetch_all`, with the join when the query selects the relation. */
    method SuperFetchAll()
      requires WellFormedQuery(query)
      modifies this`resultCache
      ensures resultCache.Some?
      ensures if Selects(select, query.nullable) then resultCache.value == JoinThenPage(query)
              else IsPlainPage(query, resultCache.value)
    {
      if Selects(select, query.nullable) {
        resultCache := Some(JoinThenPage(query));
      } else {
        var page := Page(query);
        SliceIsARange(Candidates(query), query.low, query.high);
        resultCache := Some(seq(|page|, k requires 0 <= k < |page| => Fetched(page[k], None)));
      }
    }
  }
}
