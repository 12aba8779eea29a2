/** `filter_related_without_join`: testing each row with one EXISTS per safe relation, against the
    two-column join filter it stands in for. */
module RelatedFilter {
  import opened Outcomes
  import opened Names
  import opened Rows

  type OrgId = nat

  /** A row of some table: its columns, and the rows that each of its to-many relations leads to. */
  datatype Node = Node(columns: map<string, int>, children: map<string, seq<Node>>)

  datatype Target = Target(pk: Pk, org: OrgId, node: Node)

  datatype Row = Row(pk: Pk, org: OrgId, keys: map<string, Option<Pk>>)

  /** The target tables by relation, and what lookups mean. `hops` is the schema: the to-many relations
      that the remainder of a lookup on a relation crosses, one after the other (`article__tags__name`
      crosses the tags); steps along foreign keys belong to the hop, or the test, that follows them.
      `test` is what is asked of the row a lookup ends at. */
  datatype Db = Db(
    tables: map<string, seq<Target>>,
    hops: (string, string) -> seq<string>,
    test: Test)

  type Test = (Node, string, int) -> bool

  /** Keyword arguments, in order. */
  type Lookups = seq<(string, int)>

  type Groups = map<string, map<string, int>>

  /** Primary keys are unique. Nothing else is asked of the tables: keys may be null, dangle, or name
      another organization's row. */
  ghost predicate UniqueKeys(db: Db) {
    forall r :: r in db.tables ==> forall i, j :: 0 <= i < j < |db.tables[r]| ==> db.tables[r][i].pk != db.tables[r][j].pk
  }

  function Relation(lookup: string): string { Partition(lookup, LOOKUP_SEP).0 }
  function Remainder(lookup: string): string { Partition(lookup, LOOKUP_SEP).2 }

  predicate Crosses(safe: set<string>, lookup: string) { Relation(lookup) in safe && Remainder(lookup) != "" }

  predicate AllCross(safe: set<string>, lookups: Lookups) {
    forall k :: 0 <= k < |lookups| ==> Crosses(safe, lookups[k].0)
  }

  /** Which lookups cross: a relation's name, the separator, and something after it. The relation on its
      own does not. */
  lemma CrossingLookups(safe: set<string>, r: string, rest: string)
    requires FieldName(r)
    ensures Relation(r + LOOKUP_SEP + rest) == r && Remainder(r + LOOKUP_SEP + rest) == rest
    ensures Crosses(safe, r + LOOKUP_SEP + rest) <==> r in safe && rest != ""
    ensures Relation(r) == r && !Crosses(safe, r)
  {
    FieldNamesAreSeparable(r);
    PartitionOfJoin(r, LOOKUP_SEP, rest);
    JoinOfPartition(r, LOOKUP_SEP);
    var (head, found, tail) := Partition(r, LOOKUP_SEP);
    SeparatorShows(head, tail);
  }

  lemma SeparatorShows(head: string, tail: string)
    ensures var s := head + LOOKUP_SEP + tail; |s| >= |head| + 2 && s[|head|] == '_' && s[|head| + 1] == '_'
  {
  }

  /** The keywords that the subquery's own correlation takes: Python lets no condition repeat them. */
  predicate Correlates(rest: string) { rest == "pk" || rest == "organization" }

  predicate NoneCorrelates(lookups: Lookups) {
    forall k :: 0 <= k < |lookups| ==> !Correlates(Remainder(lookups[k].0))
  }

  predicate Callable(conditions: map<string, int>) { "pk" !in conditions && "organization" !in conditions }

  // ---------------------------------------------------------------------- grouping

  /** `grouped.setdefault(relation, {})[remainder] = value`. */
  function Added(groups: Groups, lookup: (string, int)): Groups {
    var (r, rest) := (Relation(lookup.0), Remainder(lookup.0));
    groups[r := (if r in groups then groups[r] else map[])[rest := lookup.1]]
  }

  function Grouped(lookups: Lookups): Groups
    decreases |lookups|
  {
    if lookups == [] then map[] else Added(Grouped(lookups[..|lookups| - 1]), lookups[|lookups| - 1])
  }

  ghost predicate DistinctNames(lookups: Lookups) {
    forall i, j :: 0 <= i < j < |lookups| ==> lookups[i].0 != lookups[j].0
  }

  /** A lookup that crosses a relation is determined by its two halves. */
  lemma HalvesDetermineTheLookup(safe: set<string>, a: string, b: string)
    requires Crosses(safe, a) && Crosses(safe, b)
    requires Relation(a) == Relation(b) && Remainder(a) == Remainder(b)
    ensures a == b
  {
    JoinOfPartition(a, LOOKUP_SEP);
    JoinOfPartition(b, LOOKUP_SEP);
  }

  ghost predicate Has(groups: Groups, r: string, rest: string) { r in groups && rest in groups[r] }

  ghost predicate Holds(groups: Groups, lookup: (string, int)) {
    Has(groups, Relation(lookup.0), Remainder(lookup.0)) && groups[Relation(lookup.0)][Remainder(lookup.0)] == lookup.1
  }

  lemma AddingTouchesOneEntry(groups: Groups, lookup: (string, int))
    ensures Holds(Added(groups, lookup), lookup)
    ensures forall r, rest :: Has(Added(groups, lookup), r, rest) <==>
              Has(groups, r, rest) || (r == Relation(lookup.0) && rest == Remainder(lookup.0))
    ensures forall other :: Holds(groups, other) && (Relation(other.0) != Relation(lookup.0) || Remainder(other.0) != Remainder(lookup.0))
              ==> Holds(Added(groups, lookup), other)
    ensures forall r :: r in Added(groups, lookup) <==> r in groups || r == Relation(lookup.0)
  {
  }

  /** Grouping loses no lookup and overwrites none, */
  lemma {:induction false} EveryLookupIsGrouped(safe: set<string>, lookups: Lookups, k: nat)
    requires AllCross(safe, lookups) && DistinctNames(lookups) && k < |lookups|
    ensures Holds(Grouped(lookups), lookups[k])
    decreases |lookups|
  {
    var last := |lookups| - 1;
    var front, added := lookups[..last], lookups[last];
    AddingTouchesOneEntry(Grouped(front), added);
    if k < last {
      EveryLookupIsGrouped(safe, front, k);
      if Relation(lookups[k].0) == Relation(added.0) && Remainder(lookups[k].0) == Remainder(added.0) {
        HalvesDetermineTheLookup(safe, lookups[k].0, added.0);
      }
    }
  }

  /** and invents none. */
  lemma {:induction false} EveryConditionWasALookup(lookups: Lookups, r: string, rest: string) returns (k: nat)
    requires Has(Grouped(lookups), r, rest)
    ensures k < |lookups| && Relation(lookups[k].0) == r && Remainder(lookups[k].0) == rest
    decreases |lookups|
  {
    var last := |lookups| - 1;
    var front, added := lookups[..last], lookups[last];
    AddingTouchesOneEntry(Grouped(front), added);
    if Has(Grouped(front), r, rest) {
      k := EveryConditionWasALookup(front, r, rest);
    } else {
      k := last;
    }
  }

  lemma {:induction false} EveryLookupHasAnEntry(lookups: Lookups, k: nat)
    requires k < |lookups|
    ensures Has(Grouped(lookups), Relation(lookups[k].0), Remainder(lookups[k].0))
    decreases |lookups|
  {
    var last := |lookups| - 1;
    AddingTouchesOneEntry(Grouped(lookups[..last]), lookups[last]);
    if k < last { EveryLookupHasAnEntry(lookups[..last], k); }
  }

  lemma {:induction false} WhatCanBeCalled(lookups: Lookups)
    ensures NoneCorrelates(lookups) <==> forall r :: r in Grouped(lookups) ==> Callable(Grouped(lookups)[r])
  {
    forall k | 0 <= k < |lookups|
      ensures Has(Grouped(lookups), Relation(lookups[k].0), Remainder(lookups[k].0))
    {
      EveryLookupHasAnEntry(lookups, k);
    }
    forall r, rest | Has(Grouped(lookups), r, rest)
      ensures exists k :: 0 <= k < |lookups| && Relation(lookups[k].0) == r && Remainder(lookups[k].0) == rest
    {
      var k := EveryConditionWasALookup(lookups, r, rest);
    }
    hide Grouped, Relation, Remainder;
    if NoneCorrelates(lookups) {
      forall r | r in Grouped(lookups) ensures Callable(Grouped(lookups)[r]) {
        assert "pk" in Grouped(lookups)[r] ==> Has(Grouped(lookups), r, "pk");
        assert "organization" in Grouped(lookups)[r] ==> Has(Grouped(lookups), r, "organization");
      }
    }
  }

  lemma {:induction false} NoGroupIsEmpty(lookups: Lookups, r: string)
    requires r in Grouped(lookups)
    ensures exists rest :: Has(Grouped(lookups), r, rest)
    decreases |lookups|
  {
    var last := |lookups| - 1;
    var front, added := lookups[..last], lookups[last];
    AddingTouchesOneEntry(Grouped(front), added);
    if r in Grouped(front) {
      NoGroupIsEmpty(front, r);
      var rest :| Has(Grouped(front), r, rest);
      assert Has(Grouped(lookups), r, rest);
    } else {
      assert Has(Grouped(lookups), r, Remainder(added.0));
    }
  }

  /** So the dictionary holds the lookups, exactly. */
  lemma {:induction false} GroupingKeepsEveryLookup(safe: set<string>, lookups: Lookups)
    requires AllCross(safe, lookups) && DistinctNames(lookups)
    ensures forall k :: 0 <= k < |lookups| ==> Holds(Grouped(lookups), lookups[k])
    ensures forall r, rest :: Has(Grouped(lookups), r, rest) ==>
              exists k :: 0 <= k < |lookups| && Relation(lookups[k].0) == r && Remainder(lookups[k].0) == rest
    ensures forall r :: r in Grouped(lookups) ==> exists rest :: Has(Grouped(lookups), r, rest)
  {
    hide Grouped, Holds, Has;
    forall k | 0 <= k < |lookups| ensures Holds(Grouped(lookups), lookups[k]) {
      EveryLookupIsGrouped(safe, lookups, k);
    }
    forall r, rest | Has(Grouped(lookups), r, rest)
      ensures exists k :: 0 <= k < |lookups| && Relation(lookups[k].0) == r && Remainder(lookups[k].0) == rest
    {
      var k := EveryConditionWasALookup(lookups, r, rest);
    }
    forall r | r in Grouped(lookups) ensures exists rest :: Has(Grouped(lookups), r, rest) {
      NoGroupIsEmpty(lookups, r);
    }
  }

  // ------------------------------------------------------------------------ aliases

  /** A joined table, named by the way to it: the relation, then the to-many relations crossed. One
      `filter()` call joins each of them once. */
  type Alias = seq<string>

  function AliasOf(db: Db, r: string, rest: string): Alias { [r] + db.hops(r, rest) }

  function EndOf(db: Db, lookup: string): Alias { AliasOf(db, Relation(lookup), Remainder(lookup)) }

  /** Everything joined on the way. */
  predicate OnTheWay(q: Alias, p: Alias) { q != [] && q <= p }

  function Opened(aliases: seq<Alias>, p: Alias): seq<Alias>
    decreases |p|
  {
    if p == [] then aliases
    else
      var before := Opened(aliases, p[..|p| - 1]);
      if p in before then before else before + [p]
  }

  /** The FROM clause of `filter(**lookups)`, in the order it is built. */
  function AliasesOf(db: Db, lookups: Lookups): seq<Alias>
    decreases |lookups|
  {
    if lookups == [] then []
    else Opened(AliasesOf(db, lookups[..|lookups| - 1]), EndOf(db, lookups[|lookups| - 1].0))
  }

  /** No table is joined twice, and each is joined to one that is there already. */
  ghost predicate InOrder(aliases: seq<Alias>) {
    && Distinct(aliases)
    && forall i :: 0 <= i < |aliases| ==> JoinedAfterParent(aliases, i)
  }

  ghost predicate JoinedAfterParent(aliases: seq<Alias>, i: nat)
    requires i < |aliases|
  {
    aliases[i] != [] && (|aliases[i]| > 1 ==> aliases[i][..|aliases[i]| - 1] in aliases[..i])
  }

  lemma {:induction false} OpenedInOrder(aliases: seq<Alias>, p: Alias)
    requires InOrder(aliases)
    ensures InOrder(Opened(aliases, p))
    ensures forall q :: q in Opened(aliases, p) <==> q in aliases || OnTheWay(q, p)
    decreases |p|
  {
    if p != [] {
      var parent := p[..|p| - 1];
      OpenedInOrder(aliases, parent);
      var before, after := Opened(aliases, parent), Opened(aliases, p);
      assert forall q :: OnTheWay(q, p) <==> OnTheWay(q, parent) || q == p by {
        forall q ensures OnTheWay(q, p) <==> OnTheWay(q, parent) || q == p {
          if OnTheWay(q, p) && |q| < |p| { assert q == p[..|q|] == parent[..|q|]; }
          if OnTheWay(q, parent) { assert q == parent[..|q|] == p[..|q|]; }
        }
      }
      if p !in before {
        assert after == before + [p];
        forall i | 0 <= i < |after| ensures JoinedAfterParent(after, i) {
          if i < |before| {
            assert JoinedAfterParent(before, i) && after[..i] == before[..i];
          } else {
            assert after[..i] == before;
            assert |p| > 1 ==> OnTheWay(parent, parent);
          }
        }
      }
    }
  }

  lemma {:induction false} AliasesInOrder(db: Db, lookups: Lookups)
    ensures InOrder(AliasesOf(db, lookups))
    ensures forall q :: q in AliasesOf(db, lookups) <==>
              exists k :: 0 <= k < |lookups| && OnTheWay(q, EndOf(db, lookups[k].0))
    decreases |lookups|
  {
    if lookups != [] {
      var last := |lookups| - 1;
      AliasesInOrder(db, lookups[..last]);
      OpenedInOrder(AliasesOf(db, lookups[..last]), EndOf(db, lookups[last].0));
      forall q ensures q in AliasesOf(db, lookups) <==> exists k :: 0 <= k < |lookups| && OnTheWay(q, EndOf(db, lookups[k].0)) {
        if q in AliasesOf(db, lookups[..last]) {
          var k :| 0 <= k < last && OnTheWay(q, EndOf(db, lookups[..last][k].0));
          assert lookups[k] == lookups[..last][k];
        }
        if k :| 0 <= k < |lookups| && OnTheWay(q, EndOf(db, lookups[k].0)) {
          if k < last { assert lookups[..last][k] == lookups[k]; }
        }
      }
    }
  }

  // --------------------------------------------------------------------- the join

  function Table(db: Db, r: string): seq<Target> { if r in db.tables then db.tables[r] else [] }

  /** The ON clause of the safe relation, which is also the correlation of the EXISTS. */
  predicate On(row: Row, r: string, t: Target) {
    r in row.keys && row.keys[r] == Some(t.pk) && t.org == row.org
  }

  function OnNodes(row: Row, r: string, table: seq<Target>): seq<Node> {
    if table == [] then [] else (if On(row, r, table[0]) then [table[0].node] else []) + OnNodes(row, r, table[1..])
  }

  /** One row of the join: a node for each table joined. */
  type Tuple = map<Alias, Node>

  /** What can be joined under alias `p`, given what its parent was joined to. */
  function Matches(db: Db, row: Row, t: Tuple, p: Alias): seq<Node> {
    if p == [] then []
    else if |p| == 1 then OnNodes(row, p[0], Table(db, p[0]))
    else
      var parent, hop := p[..|p| - 1], p[|p| - 1];
      if parent in t && hop in t[parent].children then t[parent].children[hop] else []
  }

  function Each(t: Tuple, p: Alias, nodes: seq<Node>): seq<Tuple> {
    seq(|nodes|, k requires 0 <= k < |nodes| => t[p := nodes[k]])
  }

  function Extended(db: Db, row: Row, tuples: seq<Tuple>, p: Alias): seq<Tuple> {
    if tuples == [] then [] else Each(tuples[0], p, Matches(db, row, tuples[0], p)) + Extended(db, row, tuples[1..], p)
  }

  /** FROM row JOIN ... ON ... JOIN ... ON ... */
  function JoinedTuples(db: Db, row: Row, aliases: seq<Alias>): seq<Tuple>
    decreases |aliases|
  {
    if aliases == [] then [map[]]
    else Extended(db, row, JoinedTuples(db, row, aliases[..|aliases| - 1]), aliases[|aliases| - 1])
  }

  /** WHERE: each lookup tests the node its alias was joined to. */
  predicate Satisfies(db: Db, t: Tuple, lookups: Lookups) {
    forall k :: 0 <= k < |lookups| ==>
      EndOf(db, lookups[k].0) in t && db.test(t[EndOf(db, lookups[k].0)], Remainder(lookups[k].0), lookups[k].1)
  }

  /** The row once for every tuple that satisfies the WHERE. */
  function Repeated(db: Db, row: Row, tuples: seq<Tuple>, lookups: Lookups): seq<Row> {
    if tuples == [] then []
    else (if Satisfies(db, tuples[0], lookups) then [row] else []) + Repeated(db, row, tuples[1..], lookups)
  }

  function Survivals(db: Db, row: Row, lookups: Lookups): seq<Row> {
    Repeated(db, row, JoinedTuples(db, row, AliasesOf(db, lookups)), lookups)
  }

  /** The ordinary `filter(relation__lookup=value, ...)`. */
  function JoinFilter(db: Db, rows: seq<Row>, lookups: Lookups): seq<Row> {
    if rows == [] then [] else Survivals(db, rows[0], lookups) + JoinFilter(db, rows[1..], lookups)
  }

  // ---------------------------------------------------------------------- the EXISTS

  ghost predicate Linked(db: Db, row: Row, t: Tuple) { forall p :: p in t ==> t[p] in Matches(db, row, t, p) }

  ghost function GroupAliases(db: Db, r: string, conditions: map<string, int>): set<Alias> {
    {[r]} + set rest, n | rest in conditions && 1 <= n <= |AliasOf(db, r, rest)| :: AliasOf(db, r, rest)[..n]
  }

  /** The conditions are evaluated together: two of them that cross the same to-many relation speak of
      the same row there. */
  ghost predicate GroupHolds(db: Db, t: Tuple, r: string, conditions: map<string, int>) {
    forall rest :: rest in conditions ==> AliasOf(db, r, rest) in t && db.test(t[AliasOf(db, r, rest)], rest, conditions[rest])
  }

  ghost predicate IsWitness(db: Db, row: Row, r: string, conditions: map<string, int>, t: Tuple) {
    t.Keys == GroupAliases(db, r, conditions) && Linked(db, row, t) && GroupHolds(db, t, r, conditions)
  }

  /** `_related_exists_subquery` finds a row: its own join has a tuple. */
  ghost predicate RelatedExists(db: Db, row: Row, r: string, conditions: map<string, int>) {
    exists t :: IsWitness(db, row, r, conditions, t)
  }

  ghost predicate PassesAll(db: Db, row: Row, groups: Groups) {
    forall r :: r in groups ==> RelatedExists(db, row, r, groups[r])
  }

  ghost function WherePasses(db: Db, rows: seq<Row>, groups: Groups): seq<Row> {
    if rows == [] then []
    else (if PassesAll(db, rows[0], groups) then [rows[0]] else []) + WherePasses(db, rows[1..], groups)
  }

  /** One EXISTS for each single lookup. */
  ghost predicate PassesEach(db: Db, row: Row, lookups: Lookups) {
    forall k :: 0 <= k < |lookups| ==>
      RelatedExists(db, row, Relation(lookups[k].0), map[Remainder(lookups[k].0) := lookups[k].1])
  }

  // ------------------------------------------------------------ the method, which builds a query

  /** A queryset is a description: the EXISTS conditions added to it so far. */
  datatype Exists = Exists(relation: string, conditions: map<string, int>)

  ghost function WhereExists(db: Db, rows: seq<Row>, e: Exists): seq<Row> {
    if rows == [] then []
    else (if RelatedExists(db, rows[0], e.relation, e.conditions) then [rows[0]] else []) + WhereExists(db, rows[1..], e)
  }

  ghost function Evaluated(db: Db, rows: seq<Row>, query: seq<Exists>): seq<Row>
    decreases |query|
  {
    if query == [] then rows else WhereExists(db, Evaluated(db, rows, query[..|query| - 1]), query[|query| - 1])
  }

  /** `filter_related_without_join`. Evaluated on any database, what it builds keeps the rows that pass
      the grouped EXISTS. Its own refusals come first; a lookup on the target's `pk` or `organization`
      gets past them and then repeats a keyword of the correlation. */
  method FilterRelatedWithoutJoin(ghost db: Db, ghost rows: seq<Row>, safe: set<string>, lookups: Lookups)
    returns (result: Result<seq<Exists>>)
    ensures result.Success? <==> AllCross(safe, lookups) && NoneCorrelates(lookups)
    ensures result.Failure? ==> result.error == if AllCross(safe, lookups) then TypeError else ValueError
    ensures result.Success? ==> Evaluated(db, rows, result.value) == WherePasses(db, rows, Grouped(lookups))
    ensures result.Success? ==> Lists(result.value, Grouped(lookups))
  {
    var grouped: Groups := map[];
    for k := 0 to |lookups|
      invariant forall j :: 0 <= j < k ==> Crosses(safe, lookups[j].0)
      invariant grouped == Grouped(lookups[..k])
    {
      var (relation, _, remainder) := Partition(lookups[k].0, LOOKUP_SEP);
      if relation !in safe || remainder == "" {
        return Failure(ValueError);
      }
      assert lookups[..k + 1][..k] == lookups[..k];
      var conditions := if relation in grouped then grouped[relation] else map[];
      grouped := grouped[relation := conditions[remainder := lookups[k].1]];
    }
    assert lookups[..|lookups|] == lookups;
    WhatCanBeCalled(lookups);
    result := OneExistsPerRelation(db, rows, grouped);
  }

  /** One EXISTS for each entry, and no others. */
  ghost predicate Lists(query: seq<Exists>, groups: Groups) {
    && (forall e :: e in query <==> e.relation in groups && e.conditions == groups[e.relation])
    && Distinct(query)
  }

  lemma ListsOneMore(query: seq<Exists>, groups: Groups, r: string, conditions: map<string, int>)
    requires Lists(query, groups) && r !in groups
    ensures Lists(query + [Exists(r, conditions)], groups[r := conditions])
  {
    var more, after := query + [Exists(r, conditions)], groups[r := conditions];
    forall e ensures e in more <==> e.relation in after && e.conditions == after[e.relation] {
      assert e in more <==> e in query || e == Exists(r, conditions);
    }
  }

  /** The second loop: one condition for each entry of the dictionary, in whatever order it comes. */
  method OneExistsPerRelation(ghost db: Db, ghost rows: seq<Row>, grouped: Groups)
    returns (result: Result<seq<Exists>>)
    ensures result.Success? <==> forall r :: r in grouped ==> Callable(grouped[r])
    ensures result.Failure? ==> result.error == TypeError
    ensures result.Success? ==> Evaluated(db, rows, result.value) == WherePasses(db, rows, grouped)
    ensures result.Success? ==> Lists(result.value, grouped)
  {
    hide Evaluated, WherePasses, WhereExists, Lists, Callable;
    var query: seq<Exists> := [];
    ghost var done: Groups := map[];
    NothingBuilt(db, rows);
    var todo := grouped.Keys;
    while todo != {}
      invariant todo <= grouped.Keys
      invariant done == map r | r in grouped && r !in todo :: grouped[r]
      invariant Evaluated(db, rows, query) == WherePasses(db, rows, done)
      invariant Lists(query, done)
      invariant forall r :: r in grouped && r !in todo ==> Callable(grouped[r])
      decreases todo
    {
      var relation :| relation in todo;
      if !Callable(grouped[relation]) {
        return Failure(TypeError);
      }
      OneMoreBuilt(db, rows, query, done, relation, grouped[relation]);
      query := query + [Exists(relation, grouped[relation])];
      todo := todo - {relation};
      done := done[relation := grouped[relation]];
    }
    assert done == grouped;
    return Success(query);
  }

  lemma NothingBuilt(db: Db, rows: seq<Row>)
    ensures Evaluated(db, rows, []) == WherePasses(db, rows, map[]) && Lists([], map[])
  {
    WhereNothingAsked(db, rows);
  }

  lemma OneMoreBuilt(db: Db, rows: seq<Row>, query: seq<Exists>, done: Groups, r: string, conditions: map<string, int>)
    requires r !in done && Evaluated(db, rows, query) == WherePasses(db, rows, done) && Lists(query, done)
    ensures Evaluated(db, rows, query + [Exists(r, conditions)]) == WherePasses(db, rows, done[r := conditions])
    ensures Lists(query + [Exists(r, conditions)], done[r := conditions])
  {
    hide Lists, WherePasses, WhereExists;
    var more := query + [Exists(r, conditions)];
    assert more[..|more| - 1] == query;
    OneMoreRelation(db, rows, done, r, conditions);
    ListsOneMore(query, done, r, conditions);
  }

  lemma {:induction false} WhereNothingAsked(db: Db, rows: seq<Row>)
    ensures WherePasses(db, rows, map[]) == rows
  {
    if rows != [] { WhereNothingAsked(db, rows[1..]); }
  }

  lemma {:induction false} OneMoreRelation(db: Db, rows: seq<Row>, done: Groups, r: string,
        conditions: map<string, int>)
    requires r !in done
    ensures WhereExists(db, WherePasses(db, rows, done), Exists(r, conditions)) == WherePasses(db, rows, done[r := conditions])
  {
    if rows != [] {
      OneMoreRelation(db, rows[1..], done, r, conditions);
      OneMoreAsked(db, rows[0], done, r, conditions);
      hide PassesAll, RelatedExists;
      var rest := WherePasses(db, rows[1..], done);
      if PassesAll(db, rows[0], done) {
        assert ([rows[0]] + rest)[1..] == rest;
      } else {
        assert [] + rest == rest;
      }
    }
  }

  lemma OneMoreAsked(db: Db, row: Row, done: Groups, r: string, conditions: map<string, int>)
    requires r !in done
    ensures PassesAll(db, row, done[r := conditions]) <==> PassesAll(db, row, done) && RelatedExists(db, row, r, conditions)
  {
    hide RelatedExists;
    var more := done[r := conditions];
    assert forall q :: q in done ==> more[q] == done[q];
    assert r in more && more[r] == conditions;
  }

  // ------------------------------------------------- the tuples of a join are its linked choices

  ghost function AliasSet(aliases: seq<Alias>): set<Alias> { set q | q in aliases }

  lemma MatchesDependOnTheParent(db: Db, row: Row, t: Tuple, u: Tuple, p: Alias)
    requires |p| > 1 ==> (p[..|p| - 1] in t <==> p[..|p| - 1] in u)
    requires |p| > 1 && p[..|p| - 1] in t ==> t[p[..|p| - 1]] == u[p[..|p| - 1]]
    ensures Matches(db, row, t, p) == Matches(db, row, u, p)
  {
  }

  lemma {:induction false} ExtendedFrom(db: Db, row: Row, tuples: seq<Tuple>, p: Alias, t: Tuple)
    returns (u: Tuple, m: Node)
    requires t in Extended(db, row, tuples, p)
    ensures u in tuples && m in Matches(db, row, u, p) && t == u[p := m]
  {
    var first, rest := Each(tuples[0], p, Matches(db, row, tuples[0], p)), Extended(db, row, tuples[1..], p);
    if t in first {
      var k :| 0 <= k < |first| && first[k] == t;
      u, m := tuples[0], Matches(db, row, tuples[0], p)[k];
    } else {
      assert t in rest;
      u, m := ExtendedFrom(db, row, tuples[1..], p, t);
    }
  }

  lemma {:induction false} ExtendedHas(db: Db, row: Row, tuples: seq<Tuple>, p: Alias, u: Tuple, m: Node)
    requires u in tuples && m in Matches(db, row, u, p)
    ensures u[p := m] in Extended(db, row, tuples, p)
  {
    var first := Each(tuples[0], p, Matches(db, row, tuples[0], p));
    if u == tuples[0] {
      var k :| 0 <= k < |first| && Matches(db, row, u, p)[k] == m;
      assert first[k] == u[p := m] && first[k] in first;
    } else {
      assert u in tuples[1..];
      ExtendedHas(db, row, tuples[1..], p, u, m);
    }
  }

  ghost predicate IsTuple(db: Db, row: Row, aliases: seq<Alias>, t: Tuple) {
    t.Keys == AliasSet(aliases) && Linked(db, row, t)
  }

  lemma FrontInOrder(aliases: seq<Alias>)
    requires InOrder(aliases) && aliases != []
    ensures var front, p := aliases[..|aliases| - 1], aliases[|aliases| - 1];
            && InOrder(front) && p !in front && p != [] && (|p| > 1 ==> p[..|p| - 1] in front)
            && (forall q :: q in front && |q| > 1 ==> q[..|q| - 1] in front)
            && AliasSet(aliases) == AliasSet(front) + {p}
  {
    var front, p := aliases[..|aliases| - 1], aliases[|aliases| - 1];
    assert aliases == front + [p];
    assert JoinedAfterParent(aliases, |aliases| - 1);
    forall i | 0 <= i < |front|
      ensures JoinedAfterParent(front, i) && (|front[i]| > 1 ==> front[i][..|front[i]| - 1] in front)
    {
      assert JoinedAfterParent(aliases, i) && aliases[..i] == front[..i];
    }
  }

  lemma {:induction false} JoinedIsLinked(db: Db, row: Row, aliases: seq<Alias>, t: Tuple)
    requires InOrder(aliases) && t in JoinedTuples(db, row, aliases)
    ensures IsTuple(db, row, aliases, t)
    decreases |aliases|
  {
    if aliases != [] {
      hide IsTuple, InOrder, Matches, Extended;
      var front, p := aliases[..|aliases| - 1], aliases[|aliases| - 1];
      FrontInOrder(aliases);
      var u, m := ExtendedFrom(db, row, JoinedTuples(db, row, front), p, t);
      JoinedIsLinked(db, row, front, u);
      LongerTuple(db, row, aliases, u, m);
    }
  }

  lemma {:induction false} LinkedIsJoined(db: Db, row: Row, aliases: seq<Alias>, t: Tuple)
    requires InOrder(aliases) && IsTuple(db, row, aliases, t)
    ensures t in JoinedTuples(db, row, aliases)
    decreases |aliases|
  {
    hide IsTuple, InOrder, Matches, Extended, JoinedTuples;
    if aliases == [] {
      NothingJoined(db, row, t);
    } else {
      var p := aliases[|aliases| - 1];
      FrontInOrder(aliases);
      ShorterTuple(db, row, aliases, t);
      LinkedIsJoined(db, row, aliases[..|aliases| - 1], t - {p});
      OneMoreJoined(db, row, aliases, t);
    }
  }

  lemma NothingJoined(db: Db, row: Row, t: Tuple)
    requires IsTuple(db, row, [], t)
    ensures JoinedTuples(db, row, []) == [t]
  {
    assert t == map[];
  }

  lemma OneMoreJoined(db: Db, row: Row, aliases: seq<Alias>, t: Tuple)
    requires aliases != [] && aliases[|aliases| - 1] in t
    requires var p := aliases[|aliases| - 1];
             t - {p} in JoinedTuples(db, row, aliases[..|aliases| - 1]) && t[p] in Matches(db, row, t - {p}, p)
    ensures t in JoinedTuples(db, row, aliases)
  {
    var p := aliases[|aliases| - 1];
    ExtendedHas(db, row, JoinedTuples(db, row, aliases[..|aliases| - 1]), p, t - {p}, t[p]);
    assert t == (t - {p})[p := t[p]];
  }

  lemma LongerTuple(db: Db, row: Row, aliases: seq<Alias>, u: Tuple, m: Node)
    requires InOrder(aliases) && aliases != [] && IsTuple(db, row, aliases[..|aliases| - 1], u)
    requires m in Matches(db, row, u, aliases[|aliases| - 1])
    ensures IsTuple(db, row, aliases, u[aliases[|aliases| - 1] := m])
  {
    FrontInOrder(aliases);
    var p := aliases[|aliases| - 1];
    var t := u[p := m];
    forall q | q in t ensures t[q] in Matches(db, row, t, q) {
      MatchesDependOnTheParent(db, row, t, u, q);
    }
  }

  lemma ShorterTuple(db: Db, row: Row, aliases: seq<Alias>, t: Tuple)
    requires InOrder(aliases) && aliases != [] && IsTuple(db, row, aliases, t)
    ensures var p := aliases[|aliases| - 1];
            p in t && IsTuple(db, row, aliases[..|aliases| - 1], t - {p}) && t[p] in Matches(db, row, t - {p}, p)
  {
    FrontInOrder(aliases);
    var p := aliases[|aliases| - 1];
    forall q | q in t ensures Matches(db, row, t, q) == Matches(db, row, t - {p}, q) {
      MatchesDependOnTheParent(db, row, t, t - {p}, q);
    }
  }

  /** Dropping joined tables that nothing else was joined to. */
  lemma RestrictedIsLinked(db: Db, row: Row, t: Tuple, keys: set<Alias>)
    requires Linked(db, row, t) && keys <= t.Keys && forall p :: p in keys && |p| > 1 ==> p[..|p| - 1] in keys
    ensures Linked(db, row, map p | p in keys && p in t :: t[p])
  {
    var u := map p | p in keys && p in t :: t[p];
    forall p | p in u ensures u[p] in Matches(db, row, u, p) {
      MatchesDependOnTheParent(db, row, t, u, p);
    }
  }

  // ------------------------------------------------------------ the grouped EXISTS is the join

  lemma GroupAliasesMembers(db: Db, r: string, conditions: map<string, int>)
    ensures forall p :: p in GroupAliases(db, r, conditions) <==>
              p == [r] || exists rest :: rest in conditions && OnTheWay(p, AliasOf(db, r, rest))
    ensures forall p :: p in GroupAliases(db, r, conditions) ==>
              p != [] && p[0] == r && (|p| > 1 ==> p[..|p| - 1] in GroupAliases(db, r, conditions))
  {
    forall p ensures p in GroupAliases(db, r, conditions) <==>
                       p == [r] || exists rest :: rest in conditions && OnTheWay(p, AliasOf(db, r, rest))
    {
      if rest :| rest in conditions && OnTheWay(p, AliasOf(db, r, rest)) {
        assert p == AliasOf(db, r, rest)[..|p|];
      }
    }
    forall p | p in GroupAliases(db, r, conditions)
      ensures p != [] && p[0] == r && (|p| > 1 ==> p[..|p| - 1] in GroupAliases(db, r, conditions))
    {
      if p != [r] {
        var rest :| rest in conditions && OnTheWay(p, AliasOf(db, r, rest));
        assert |p| > 1 ==> p[..|p| - 1] == AliasOf(db, r, rest)[..|p| - 1];
        assert |p| > 1 ==> OnTheWay(p[..|p| - 1], AliasOf(db, r, rest));
      }
    }
  }

  /** A row the join keeps has a tuple that satisfies the WHERE. */
  ghost predicate JoinHas(db: Db, row: Row, lookups: Lookups) {
    exists t :: IsTuple(db, row, AliasesOf(db, lookups), t) && Satisfies(db, t, lookups)
  }

  lemma {:induction false} RepeatedMembers(db: Db, row: Row, tuples: seq<Tuple>, lookups: Lookups)
    ensures forall q :: q in Repeated(db, row, tuples, lookups) ==> q == row
    ensures Repeated(db, row, tuples, lookups) != [] <==> exists t :: t in tuples && Satisfies(db, t, lookups)
  {
    if tuples != [] {
      RepeatedMembers(db, row, tuples[1..], lookups);
      assert forall t :: t in tuples <==> t == tuples[0] || t in tuples[1..];
    }
  }

  lemma {:induction false} SurvivesIff(db: Db, row: Row, lookups: Lookups)
    ensures forall q :: q in Survivals(db, row, lookups) ==> q == row
    ensures Survivals(db, row, lookups) != [] <==> JoinHas(db, row, lookups)
  {
    AliasesInOrder(db, lookups);
    forall t ensures t in JoinedTuples(db, row, AliasesOf(db, lookups)) <==> IsTuple(db, row, AliasesOf(db, lookups), t) {
      if t in JoinedTuples(db, row, AliasesOf(db, lookups)) { JoinedIsLinked(db, row, AliasesOf(db, lookups), t); }
      if IsTuple(db, row, AliasesOf(db, lookups), t) { LinkedIsJoined(db, row, AliasesOf(db, lookups), t); }
    }
    RepeatedMembers(db, row, JoinedTuples(db, row, AliasesOf(db, lookups)), lookups);
  }

  /** A condition of a group is one of the lookups. */
  lemma {:induction false} ConditionIsALookup(db: Db, safe: set<string>, lookups: Lookups, r: string,
        rest: string) returns (k: nat)
    requires AllCross(safe, lookups) && DistinctNames(lookups)
    requires r in Grouped(lookups) && rest in Grouped(lookups)[r]
    ensures k < |lookups| && Relation(lookups[k].0) == r && Remainder(lookups[k].0) == rest
    ensures EndOf(db, lookups[k].0) == AliasOf(db, r, rest) && lookups[k].1 == Grouped(lookups)[r][rest]
  {
    GroupingKeepsEveryLookup(safe, lookups);
    assert Has(Grouped(lookups), r, rest);
    k :| 0 <= k < |lookups| && Relation(lookups[k].0) == r && Remainder(lookups[k].0) == rest;
    assert Holds(Grouped(lookups), lookups[k]);
  }

  lemma {:induction false} OnTheWayIsJoined(db: Db, lookups: Lookups, k: nat, p: Alias)
    requires k < |lookups| && OnTheWay(p, EndOf(db, lookups[k].0))
    ensures p in AliasesOf(db, lookups)
  {
    AliasesInOrder(db, lookups);
  }

  /** What a group joins, the whole join joins. */
  lemma {:induction false} GroupAliasIsJoined(db: Db, safe: set<string>, lookups: Lookups, r: string, p: Alias)
    requires AllCross(safe, lookups) && DistinctNames(lookups)
    requires r in Grouped(lookups) && p in GroupAliases(db, r, Grouped(lookups)[r])
    ensures p in AliasesOf(db, lookups)
  {
    GroupAliasesMembers(db, r, Grouped(lookups)[r]);
    GroupingKeepsEveryLookup(safe, lookups);
    var rest :| Has(Grouped(lookups), r, rest) && (p == [r] || OnTheWay(p, AliasOf(db, r, rest)));
    var k := ConditionIsALookup(db, safe, lookups, r, rest);
    OnTheWayIsJoined(db, lookups, k, p);
  }

  /** A tuple of the whole join holds a tuple of each relation's EXISTS. */
  lemma {:induction false} JoinGivesEachGroup(db: Db, safe: set<string>, row: Row, lookups: Lookups, t: Tuple,
        r: string)
    requires AllCross(safe, lookups) && DistinctNames(lookups) && r in Grouped(lookups)
    requires IsTuple(db, row, AliasesOf(db, lookups), t) && Satisfies(db, t, lookups)
    ensures RelatedExists(db, row, r, Grouped(lookups)[r])
  {
    hide Matches, Grouped, AliasesOf, Linked, GroupAliases, OnTheWay;
    var conditions := Grouped(lookups)[r];
    var keys := GroupAliases(db, r, conditions);
    forall p | p in keys ensures p in t {
      GroupAliasIsJoined(db, safe, lookups, r, p);
    }
    var u := map p | p in keys && p in t :: t[p];
    forall p | p in keys && |p| > 1 ensures p[..|p| - 1] in keys {
      GroupAliasesMembers(db, r, conditions);
    }
    RestrictedIsLinked(db, row, t, keys);
    forall rest | rest in conditions
      ensures AliasOf(db, r, rest) in u && db.test(u[AliasOf(db, r, rest)], rest, conditions[rest])
    {
      var k := ConditionIsALookup(db, safe, lookups, r, rest);
      EndIsInItsGroup(db, r, conditions, rest);
    }
    assert IsWitness(db, row, r, conditions, u);
  }

  lemma EndIsInItsGroup(db: Db, r: string, conditions: map<string, int>, rest: string)
    requires rest in conditions
    ensures AliasOf(db, r, rest) in GroupAliases(db, r, conditions)
  {
    GroupAliasesMembers(db, r, conditions);
    assert OnTheWay(AliasOf(db, r, rest), AliasOf(db, r, rest));
  }

  ghost function Witness(db: Db, row: Row, r: string, conditions: map<string, int>): Tuple
    requires RelatedExists(db, row, r, conditions)
  {
    var t :| IsWitness(db, row, r, conditions, t);
    t
  }

  lemma {:induction false} ParentIsJoined(db: Db, lookups: Lookups, p: Alias)
    requires p in AliasesOf(db, lookups) && |p| > 1
    ensures p[..|p| - 1] in AliasesOf(db, lookups)
  {
    AliasesInOrder(db, lookups);
    var k :| 0 <= k < |lookups| && OnTheWay(p, EndOf(db, lookups[k].0));
    assert p[..|p| - 1] == EndOf(db, lookups[k].0)[..|p| - 1];
    assert OnTheWay(p[..|p| - 1], EndOf(db, lookups[k].0));
  }

  /** One tuple for each relation, side by side. */
  ghost function SideBySide(db: Db, row: Row, lookups: Lookups): Tuple
    requires PassesAll(db, row, Grouped(lookups))
  {
    var groups := Grouped(lookups);
    map p | p in AliasesOf(db, lookups) && p != [] && p[0] in groups && p in Witness(db, row, p[0], groups[p[0]])
      :: Witness(db, row, p[0], groups[p[0]])[p]
  }

  lemma {:induction false} SideBySideAt(db: Db, safe: set<string>, row: Row, lookups: Lookups, p: Alias)
    requires AllCross(safe, lookups) && DistinctNames(lookups) && PassesAll(db, row, Grouped(lookups))
    requires p in AliasesOf(db, lookups)
    ensures p in SideBySide(db, row, lookups) && p != [] && p[0] in Grouped(lookups)
    ensures var u := Witness(db, row, p[0], Grouped(lookups)[p[0]]);
            p in u && SideBySide(db, row, lookups)[p] == u[p] && u[p] in Matches(db, row, u, p)
            && u.Keys == GroupAliases(db, p[0], Grouped(lookups)[p[0]])
  {
    AliasOfAGroup(db, safe, lookups, p);
    assert IsWitness(db, row, p[0], Grouped(lookups)[p[0]], Witness(db, row, p[0], Grouped(lookups)[p[0]]));
  }

  /** They are a tuple of the whole join: no table of one relation hangs on another's. */
  lemma {:induction false} GroupsGiveTheJoin(db: Db, safe: set<string>, row: Row, lookups: Lookups)
    requires AllCross(safe, lookups) && DistinctNames(lookups) && PassesAll(db, row, Grouped(lookups))
    ensures JoinHas(db, row, lookups)
  {
    hide Matches, Grouped, AliasesOf, GroupAliases, OnTheWay, SideBySide;
    var groups, aliases := Grouped(lookups), AliasesOf(db, lookups);
    var t := SideBySide(db, row, lookups);
    SideBySideKeys(db, safe, row, lookups);
    forall p | p in t ensures t[p] in Matches(db, row, t, p) {
      SideBySideAt(db, safe, row, lookups, p);
      if |p| > 1 {
        ParentIsJoined(db, lookups, p);
        SideBySideAt(db, safe, row, lookups, p[..|p| - 1]);
      }
      MatchesDependOnTheParent(db, row, t, Witness(db, row, p[0], groups[p[0]]), p);
    }
    forall k | 0 <= k < |lookups|
      ensures EndOf(db, lookups[k].0) in t
      ensures db.test(t[EndOf(db, lookups[k].0)], Remainder(lookups[k].0), lookups[k].1)
    {
      LookupPassesInItsGroup(db, safe, row, lookups, k);
    }
    assert IsTuple(db, row, aliases, t) && Satisfies(db, t, lookups);
  }

  lemma {:induction false} SideBySideKeys(db: Db, safe: set<string>, row: Row, lookups: Lookups)
    requires AllCross(safe, lookups) && DistinctNames(lookups) && PassesAll(db, row, Grouped(lookups))
    ensures SideBySide(db, row, lookups).Keys == AliasSet(AliasesOf(db, lookups))
  {
    forall p | p in AliasesOf(db, lookups) ensures p in SideBySide(db, row, lookups) {
      SideBySideAt(db, safe, row, lookups, p);
    }
  }

  lemma {:induction false} LookupPassesInItsGroup(db: Db, safe: set<string>, row: Row, lookups: Lookups, k: nat)
    requires AllCross(safe, lookups) && DistinctNames(lookups) && PassesAll(db, row, Grouped(lookups)) && k < |lookups|
    ensures var (t, end) := (SideBySide(db, row, lookups), EndOf(db, lookups[k].0));
            end in t && db.test(t[end], Remainder(lookups[k].0), lookups[k].1)
  {
    var r, rest := Relation(lookups[k].0), Remainder(lookups[k].0);
    GroupingKeepsEveryLookup(safe, lookups);
    assert Holds(Grouped(lookups), lookups[k]);
    assert OnTheWay(EndOf(db, lookups[k].0), EndOf(db, lookups[k].0));
    OnTheWayIsJoined(db, lookups, k, EndOf(db, lookups[k].0));
    SideBySideAt(db, safe, row, lookups, EndOf(db, lookups[k].0));
    assert IsWitness(db, row, r, Grouped(lookups)[r], Witness(db, row, r, Grouped(lookups)[r]));
  }

  lemma {:induction false} AliasOfAGroup(db: Db, safe: set<string>, lookups: Lookups, p: Alias)
    requires AllCross(safe, lookups) && DistinctNames(lookups) && p in AliasesOf(db, lookups)
    ensures p != [] && p[0] in Grouped(lookups) && p in GroupAliases(db, p[0], Grouped(lookups)[p[0]])
  {
    GroupingKeepsEveryLookup(safe, lookups);
    AliasesInOrder(db, lookups);
    var k :| 0 <= k < |lookups| && OnTheWay(p, EndOf(db, lookups[k].0));
    var r, rest := Relation(lookups[k].0), Remainder(lookups[k].0);
    assert Holds(Grouped(lookups), lookups[k]);
    assert p[0] == EndOf(db, lookups[k].0)[0] == r;
    GroupAliasesMembers(db, r, Grouped(lookups)[r]);
  }

  lemma {:induction false} JoinHasIffGroupsPass(db: Db, safe: set<string>, row: Row, lookups: Lookups)
    requires AllCross(safe, lookups) && DistinctNames(lookups)
    ensures JoinHas(db, row, lookups) <==> PassesAll(db, row, Grouped(lookups))
  {
    if JoinHas(db, row, lookups) {
      var t :| IsTuple(db, row, AliasesOf(db, lookups), t) && Satisfies(db, t, lookups);
      forall r | r in Grouped(lookups) ensures RelatedExists(db, row, r, Grouped(lookups)[r]) {
        JoinGivesEachGroup(db, safe, row, lookups, t, r);
      }
    }
    if PassesAll(db, row, Grouped(lookups)) {
      GroupsGiveTheJoin(db, safe, row, lookups);
    }
  }

  lemma {:induction false} JoinFilterMembers(db: Db, rows: seq<Row>, lookups: Lookups)
    ensures forall q :: q in JoinFilter(db, rows, lookups) ==> q in rows
  {
    if rows != [] {
      SurvivesIff(db, rows[0], lookups);
      JoinFilterMembers(db, rows[1..], lookups);
    }
  }

  /** The equivalence, for every database and every lookups: null keys, dangling keys, keys of other
      organizations' rows, and lookups across to-many relations included. What the method keeps is the
      two-column join filter with each row once, in the same order. */
  lemma {:induction false} WithoutJoinIsTheDistinctJoin(db: Db, safe: set<string>, rows: seq<Row>, lookups: Lookups)
    requires AllCross(safe, lookups) && DistinctNames(lookups) && Distinct(rows)
    ensures WherePasses(db, rows, Grouped(lookups)) == Deduplicated(JoinFilter(db, rows, lookups))
    decreases |rows|
  {
    if rows != [] {
      var rest := rows[1..];
      assert Distinct(rest) by {
        forall i, j | 0 <= i < j < |rest| ensures rest[i] != rest[j] { assert rows[i + 1] != rows[j + 1]; }
      }
      SurvivesIff(db, rows[0], lookups);
      JoinHasIffGroupsPass(db, safe, rows[0], lookups);
      WithoutJoinIsTheDistinctJoin(db, safe, rest, lookups);
      JoinFilterMembers(db, rest, lookups);
      assert rows[0] !in rest;
      DeduplicatedBlocks(Survivals(db, rows[0], lookups), JoinFilter(db, rest, lookups));
      DeduplicatedRepeats(rows[0], Survivals(db, rows[0], lookups));
    }
  }

  /** And without DISTINCT: the join is the same exactly when no row survives in two tuples. */
  lemma {:induction false} SameUnlessRepeated(db: Db, safe: set<string>, rows: seq<Row>, lookups: Lookups)
    requires AllCross(safe, lookups) && DistinctNames(lookups)
    ensures WherePasses(db, rows, Grouped(lookups)) == JoinFilter(db, rows, lookups) <==>
              forall row :: row in rows ==> |Survivals(db, row, lookups)| <= 1
    ensures |WherePasses(db, rows, Grouped(lookups))| <= |JoinFilter(db, rows, lookups)|
    decreases |rows|
  {
    if rows != [] {
      var first, here := Survivals(db, rows[0], lookups), if PassesAll(db, rows[0], Grouped(lookups)) then [rows[0]] else [];
      SurvivesIff(db, rows[0], lookups);
      JoinHasIffGroupsPass(db, safe, rows[0], lookups);
      SameUnlessRepeated(db, safe, rows[1..], lookups);
      var kept, joined := WherePasses(db, rows[1..], Grouped(lookups)), JoinFilter(db, rows[1..], lookups);
      assert forall row :: row in rows <==> row == rows[0] || row in rows[1..];
      if |first| <= 1 {
        assert first == here by { if first != [] { assert first[0] in first; } }
        if here + kept == first + joined { assert kept == (here + kept)[|here|..] == (first + joined)[|here|..] == joined; }
      }
    }
  }

  // ------------------------------------------------------------------- without to-many hops

  lemma {:induction false} AtMostOneNode(row: Row, r: string, table: seq<Target>)
    requires forall i, j :: 0 <= i < j < |table| ==> table[i].pk != table[j].pk
    ensures |OnNodes(row, r, table)| <= 1
    ensures (forall k :: 0 <= k < |table| ==> !On(row, r, table[k])) ==> OnNodes(row, r, table) == []
  {
    if table != [] {
      var rest := table[1..];
      forall i, j | 0 <= i < j < |rest| ensures rest[i].pk != rest[j].pk {
        assert rest[i] == table[i + 1] && rest[j] == table[j + 1];
      }
      AtMostOneNode(row, r, rest);
      if On(row, r, table[0]) {
        forall k | 0 <= k < |rest| ensures !On(row, r, rest[k]) { assert rest[k] == table[k + 1]; }
      } else if forall k :: 0 <= k < |table| ==> !On(row, r, table[k]) {
        forall k | 0 <= k < |rest| ensures !On(row, r, rest[k]) { assert rest[k] == table[k + 1]; }
      }
    }
  }

  lemma OneNode(db: Db, row: Row, r: string)
    requires UniqueKeys(db)
    ensures |OnNodes(row, r, Table(db, r))| <= 1
  {
    AtMostOneNode(row, r, Table(db, r));
  }

  lemma {:induction false} ToOneJoinsOnce(db: Db, row: Row, aliases: seq<Alias>)
    requires UniqueKeys(db) && forall i :: 0 <= i < |aliases| ==> |aliases[i]| <= 1
    ensures |JoinedTuples(db, row, aliases)| <= 1
    decreases |aliases|
  {
    if aliases != [] {
      var front, p := aliases[..|aliases| - 1], aliases[|aliases| - 1];
      ToOneJoinsOnce(db, row, front);
      var tuples := JoinedTuples(db, row, front);
      if p != [] { OneNode(db, row, p[0]); }
      if tuples != [] { assert Extended(db, row, tuples[1..], p) == []; }
    }
  }

  /** Lookups that cross no to-many relation keep each row once in the join already. */
  lemma {:induction false} WithoutJoinIsTheJoin(db: Db, safe: set<string>, rows: seq<Row>, lookups: Lookups)
    requires UniqueKeys(db) && AllCross(safe, lookups) && DistinctNames(lookups)
    requires forall k :: 0 <= k < |lookups| ==> db.hops(Relation(lookups[k].0), Remainder(lookups[k].0)) == []
    ensures WherePasses(db, rows, Grouped(lookups)) == JoinFilter(db, rows, lookups)
  {
    var aliases := AliasesOf(db, lookups);
    AliasesInOrder(db, lookups);
    forall i | 0 <= i < |aliases| ensures |aliases[i]| <= 1 {
      assert aliases[i] in aliases;
    }
    forall row | row in rows ensures |Survivals(db, row, lookups)| <= 1 {
      ToOneJoinsOnce(db, row, aliases);
      var tuples := JoinedTuples(db, row, aliases);
      if tuples != [] { assert Repeated(db, row, tuples[1..], lookups) == []; }
    }
    SameUnlessRepeated(db, safe, rows, lookups);
  }

  /** A target of another organization never makes a row match, whatever its columns say. */
  lemma OtherOrganizationsNeverMatch(db: Db, row: Row, r: string, conditions: map<string, int>)
    requires UniqueKeys(db)
    requires forall t :: t in Table(db, r) && r in row.keys && row.keys[r] == Some(t.pk) ==> t.org != row.org
    ensures !RelatedExists(db, row, r, conditions)
  {
    AtMostOneNode(row, r, Table(db, r));
    forall k | 0 <= k < |Table(db, r)| ensures !On(row, r, Table(db, r)[k]) {
      assert Table(db, r)[k] in Table(db, r);
    }
    GroupAliasesMembers(db, r, conditions);
    forall t ensures !IsWitness(db, row, r, conditions, t) {
      assert Matches(db, row, t, [r]) == [];
      assert [r] in GroupAliases(db, r, conditions);
    }
  }

  // ------------------------------------------- one EXISTS for a relation, one for each lookup

  /** Two lookups on one relation set out across the same to-many relation of its target. */
  predicate SharePath(hops: (string, string) -> seq<string>, a: string, b: string) {
    && Relation(a) == Relation(b)
    && var p, q := hops(Relation(a), Remainder(a)), hops(Relation(b), Remainder(b));
    p != [] && q != [] && p[0] == q[0]
  }

  predicate NoneShare(hops: (string, string) -> seq<string>, lookups: Lookups) {
    forall i, j :: 0 <= i < j < |lookups| ==> !SharePath(hops, lookups[i].0, lookups[j].0)
  }

  function Only(rest: string, value: int): map<string, int> { map[rest := value] }

  /** What a group's EXISTS finds, the EXISTS of each of its lookups finds. */
  lemma {:induction false} GroupGivesEach(db: Db, safe: set<string>, row: Row, lookups: Lookups, k: nat)
    requires AllCross(safe, lookups) && DistinctNames(lookups) && PassesAll(db, row, Grouped(lookups)) && k < |lookups|
    ensures RelatedExists(db, row, Relation(lookups[k].0), Only(Remainder(lookups[k].0), lookups[k].1))
  {
    hide RelatedExists;
    var r, rest := Relation(lookups[k].0), Remainder(lookups[k].0);
    GroupingKeepsEveryLookup(safe, lookups);
    assert Holds(Grouped(lookups), lookups[k]);
    assert RelatedExists(db, row, r, Grouped(lookups)[r]);
    FewerConditions(db, row, r, Grouped(lookups)[r], rest);
  }

  lemma {:induction false} FewerAliases(db: Db, r: string, conditions: map<string, int>, rest: string)
    requires rest in conditions
    ensures GroupAliases(db, r, Only(rest, conditions[rest])) <= GroupAliases(db, r, conditions)
    ensures forall p :: p in GroupAliases(db, r, Only(rest, conditions[rest])) && |p| > 1 ==>
              p[..|p| - 1] in GroupAliases(db, r, Only(rest, conditions[rest]))
  {
    GroupAliasesMembers(db, r, conditions);
    GroupAliasesMembers(db, r, Only(rest, conditions[rest]));
  }

  lemma {:induction false} FewerConditions(db: Db, row: Row, r: string, conditions: map<string, int>, rest: string)
    requires rest in conditions && RelatedExists(db, row, r, conditions)
    ensures RelatedExists(db, row, r, Only(rest, conditions[rest]))
  {
    hide Linked, GroupAliases, AliasOf;
    var one := Only(rest, conditions[rest]);
    var t :| IsWitness(db, row, r, conditions, t);
    var keys := GroupAliases(db, r, one);
    FewerAliases(db, r, conditions, rest);
    RestrictedIsLinked(db, row, t, keys);
    EndIsInItsGroup(db, r, one, rest);
    assert IsWitness(db, row, r, one, map p | p in keys && p in t :: t[p]);
  }

  /** The tuple of one condition alone. */
  ghost function Alone(db: Db, row: Row, r: string, conditions: map<string, int>, rest: string): Tuple
    requires rest in conditions && RelatedExists(db, row, r, Only(rest, conditions[rest]))
  {
    Witness(db, row, r, Only(rest, conditions[rest]))
  }

  ghost predicate EachAlone(db: Db, row: Row, r: string, conditions: map<string, int>) {
    forall rest :: rest in conditions ==> RelatedExists(db, row, r, Only(rest, conditions[rest]))
  }

  /** No two conditions set out across the same to-many relation. */
  ghost predicate PathsApart(db: Db, r: string, conditions: map<string, int>) {
    forall a, b :: a in conditions && b in conditions && a != b && db.hops(r, a) != [] && db.hops(r, b) != [] ==>
                     db.hops(r, a)[0] != db.hops(r, b)[0]
  }

  /** The condition on whose way `p` lies. */
  ghost function Owner(db: Db, r: string, conditions: map<string, int>, p: Alias): string
    requires p in GroupAliases(db, r, conditions) && conditions != map[]
    ensures Owner(db, r, conditions, p) in conditions
    ensures p == [r] || OnTheWay(p, AliasOf(db, r, Owner(db, r, conditions, p)))
  {
    GroupAliasesMembers(db, r, conditions);
    assert conditions.Keys != {};
    var rest :| rest in conditions && (p == [r] || OnTheWay(p, AliasOf(db, r, rest)));
    rest
  }

  lemma {:induction false} OneOwner(db: Db, r: string, conditions: map<string, int>, p: Alias, rest: string)
    requires p in GroupAliases(db, r, conditions) && PathsApart(db, r, conditions) && |p| > 1
    requires rest in conditions && OnTheWay(p, AliasOf(db, r, rest))
    ensures rest == Owner(db, r, conditions, p)
  {
    var owner := Owner(db, r, conditions, p);
    assert p[1] == AliasOf(db, r, rest)[1] == db.hops(r, rest)[0];
    assert p[1] == AliasOf(db, r, owner)[1] == db.hops(r, owner)[0];
  }

  lemma {:induction false} AloneAt(db: Db, row: Row, r: string, conditions: map<string, int>, rest: string, p: Alias)
    requires rest in conditions && EachAlone(db, row, r, conditions)
    requires p == [r] || OnTheWay(p, AliasOf(db, r, rest))
    ensures var u := Alone(db, row, r, conditions, rest);
            && p in u && u[p] in Matches(db, row, u, p)
            && AliasOf(db, r, rest) in u && db.test(u[AliasOf(db, r, rest)], rest, conditions[rest])
  {
    var one := Only(rest, conditions[rest]);
    var u := Alone(db, row, r, conditions, rest);
    assert IsWitness(db, row, r, one, u);
    GroupAliasesMembers(db, r, one);
    assert rest in one && one[rest] == conditions[rest];
  }

  /** All of them start from the one target that joins. */
  lemma {:induction false} SameTarget(db: Db, row: Row, r: string, conditions: map<string, int>, a: string, b: string)
    requires UniqueKeys(db) && a in conditions && b in conditions && EachAlone(db, row, r, conditions)
    ensures [r] in Alone(db, row, r, conditions, a) && [r] in Alone(db, row, r, conditions, b)
    ensures Alone(db, row, r, conditions, a)[[r]] == Alone(db, row, r, conditions, b)[[r]]
  {
    hide UniqueKeys, RelatedExists, OnTheWay, AliasOf, Alone, OnNodes, Table;
    var first: Alias := [r];
    AloneAt(db, row, r, conditions, a, first);
    AloneAt(db, row, r, conditions, b, first);
    OneNode(db, row, r);
  }

  /** Each table of the group as the condition that goes there has it. */
  ghost function Pieced(db: Db, row: Row, r: string, conditions: map<string, int>): Tuple
    requires conditions != map[] && EachAlone(db, row, r, conditions)
  {
    map p | p in GroupAliases(db, r, conditions) && p in Alone(db, row, r, conditions, Owner(db, r, conditions, p))
      :: Alone(db, row, r, conditions, Owner(db, r, conditions, p))[p]
  }

  lemma {:induction false} PiecedAt(db: Db, row: Row, r: string, conditions: map<string, int>, p: Alias, rest: string)
    requires UniqueKeys(db) && EachAlone(db, row, r, conditions) && PathsApart(db, r, conditions)
    requires p in GroupAliases(db, r, conditions) && rest in conditions
    requires p == [r] || OnTheWay(p, AliasOf(db, r, rest))
    ensures p in Pieced(db, row, r, conditions) && p in Alone(db, row, r, conditions, rest)
    ensures Pieced(db, row, r, conditions)[p] == Alone(db, row, r, conditions, rest)[p]
  {
    var owner := Owner(db, r, conditions, p);
    AloneAt(db, row, r, conditions, owner, p);
    AloneAt(db, row, r, conditions, rest, p);
    GroupAliasesMembers(db, r, conditions);
    if |p| > 1 {
      OneOwner(db, r, conditions, p, rest);
    } else {
      SameTarget(db, row, r, conditions, owner, rest);
    }
  }

  /** With paths apart, the tuples of the single conditions fit together. */
  lemma {:induction false} EachGivesTheGroup(db: Db, row: Row, r: string, conditions: map<string, int>)
    requires UniqueKeys(db) && conditions != map[] && EachAlone(db, row, r, conditions) && PathsApart(db, r, conditions)
    ensures RelatedExists(db, row, r, conditions)
  {
    hide Matches, GroupAliases, Pieced, Alone, Owner, OnTheWay, AliasOf;
    var t := Pieced(db, row, r, conditions);
    PiecedKeys(db, row, r, conditions);
    forall p | p in t ensures t[p] in Matches(db, row, t, p) {
      PiecedIsLinkedAt(db, row, r, conditions, p);
    }
    forall rest | rest in conditions
      ensures AliasOf(db, r, rest) in t && db.test(t[AliasOf(db, r, rest)], rest, conditions[rest])
    {
      PiecedHoldsAt(db, row, r, conditions, rest);
    }
    assert IsWitness(db, row, r, conditions, t);
  }

  lemma {:induction false} PiecedKeys(db: Db, row: Row, r: string, conditions: map<string, int>)
    requires conditions != map[] && EachAlone(db, row, r, conditions)
    ensures Pieced(db, row, r, conditions).Keys == GroupAliases(db, r, conditions)
  {
    forall p | p in GroupAliases(db, r, conditions) ensures p in Pieced(db, row, r, conditions) {
      AloneAt(db, row, r, conditions, Owner(db, r, conditions, p), p);
    }
  }

  lemma {:induction false} PiecedIsLinkedAt(db: Db, row: Row, r: string, conditions: map<string, int>, p: Alias)
    requires UniqueKeys(db) && conditions != map[] && EachAlone(db, row, r, conditions) && PathsApart(db, r, conditions)
    requires p in Pieced(db, row, r, conditions)
    ensures Pieced(db, row, r, conditions)[p] in Matches(db, row, Pieced(db, row, r, conditions), p)
  {
    hide Matches, GroupAliases, Pieced, Alone, Owner, AliasOf, UniqueKeys, RelatedExists, PathsApart;
    PiecedKeys(db, row, r, conditions);
    assert p in GroupAliases(db, r, conditions) by { hide *; assert p in Pieced(db, row, r, conditions).Keys; }
    var t, rest := Pieced(db, row, r, conditions), Owner(db, r, conditions, p);
    var u := Alone(db, row, r, conditions, rest);
    AloneAt(db, row, r, conditions, rest, p);
    PiecedAt(db, row, r, conditions, p, rest);
    if |p| > 1 {
      ParentOnTheWay(p, AliasOf(db, r, rest));
      GroupAliasesMembers(db, r, conditions);
      PiecedAt(db, row, r, conditions, p[..|p| - 1], rest);
    }
    MatchesDependOnTheParent(db, row, t, u, p);
  }

  lemma {:induction false} ParentOnTheWay(p: Alias, end: Alias)
    requires OnTheWay(p, end) && |p| > 1
    ensures OnTheWay(p[..|p| - 1], end)
  {
    assert p[..|p| - 1] == end[..|p| - 1];
  }

  lemma {:induction false} PiecedHoldsAt(db: Db, row: Row, r: string, conditions: map<string, int>, rest: string)
    requires UniqueKeys(db) && rest in conditions && EachAlone(db, row, r, conditions) && PathsApart(db, r, conditions)
    ensures var end := AliasOf(db, r, rest);
            end in Pieced(db, row, r, conditions) && db.test(Pieced(db, row, r, conditions)[end], rest, conditions[rest])
  {
    var end := AliasOf(db, r, rest);
    EndIsInItsGroup(db, r, conditions, rest);
    assert OnTheWay(end, end);
    AloneAt(db, row, r, conditions, rest, end);
    PiecedAt(db, row, r, conditions, end, rest);
  }

  /** One EXISTS per relation is one EXISTS per lookup when no two lookups share a to-many relation. */
  lemma {:induction false} GroupedExistsIsEachExists(db: Db, safe: set<string>, row: Row, lookups: Lookups)
    requires UniqueKeys(db) && AllCross(safe, lookups) && DistinctNames(lookups) && NoneShare(db.hops, lookups)
    ensures PassesAll(db, row, Grouped(lookups)) <==> PassesEach(db, row, lookups)
  {
    if PassesAll(db, row, Grouped(lookups)) {
      forall k | 0 <= k < |lookups|
        ensures RelatedExists(db, row, Relation(lookups[k].0), Only(Remainder(lookups[k].0), lookups[k].1))
      {
        GroupGivesEach(db, safe, row, lookups, k);
      }
    }
    if PassesEach(db, row, lookups) {
      forall r | r in Grouped(lookups)
        ensures RelatedExists(db, row, r, Grouped(lookups)[r])
      {
        GroupIsApart(db, safe, row, lookups, r);
        EachGivesTheGroup(db, row, r, Grouped(lookups)[r]);
      }
    }
  }

  lemma {:induction false} GroupIsApart(db: Db, safe: set<string>, row: Row, lookups: Lookups, r: string)
    requires AllCross(safe, lookups) && DistinctNames(lookups) && NoneShare(db.hops, lookups)
    requires PassesEach(db, row, lookups) && r in Grouped(lookups)
    ensures var conditions := Grouped(lookups)[r];
            conditions != map[] && EachAlone(db, row, r, conditions) && PathsApart(db, r, conditions)
  {
    hide Grouped, RelatedExists, Crosses, AliasOf;
    var conditions := Grouped(lookups)[r];
    GroupingKeepsEveryLookup(safe, lookups);
    var some :| Has(Grouped(lookups), r, some);
    forall rest | rest in conditions ensures RelatedExists(db, row, r, Only(rest, conditions[rest])) {
      var k := ConditionIsALookup(db, safe, lookups, r, rest);
    }
    forall a, b | a in conditions && b in conditions && a != b && db.hops(r, a) != [] && db.hops(r, b) != []
      ensures db.hops(r, a)[0] != db.hops(r, b)[0]
    {
      var i := ConditionIsALookup(db, safe, lookups, r, a);
      var j := ConditionIsALookup(db, safe, lookups, r, b);
      assert !SharePath(db.hops, lookups[i].0, lookups[j].0) && !SharePath(db.hops, lookups[j].0, lookups[i].0) by {
        if i < j { assert !SharePath(db.hops, lookups[i].0, lookups[j].0); }
        else { assert !SharePath(db.hops, lookups[j].0, lookups[i].0); }
      }
    }
  }

  // ------------------------------------------------- and where they differ: a forked target

  function Mark(n: Node): int { if "mark" in n.columns then n.columns["mark"] else 0 }

  /** A row below which every row carries the same mark, as far down as `depth`. */
  function Uniform(mark: int, names: set<string>, depth: nat): Node {
    Node(map["mark" := mark], if depth == 0 then map[] else map h | h in names :: [Uniform(mark, names, depth - 1)])
  }

  /** A target with two rows behind each of its to-many relations, one of either mark. */
  function Forked(names: set<string>, depth: nat): Node {
    Node(map["mark" := 0], map h | h in names :: [Uniform(1, names, depth), Uniform(2, names, depth)])
  }

  ghost function HopNames(hops: (string, string) -> seq<string>, lookups: Lookups): set<string> {
    if lookups == [] then {}
    else (set h | h in hops(Relation(lookups[0].0), Remainder(lookups[0].0))) + HopNames(hops, lookups[1..])
  }

  function Deepest(hops: (string, string) -> seq<string>, lookups: Lookups): nat {
    if lookups == [] then 0
    else
      var here, rest := |hops(Relation(lookups[0].0), Remainder(lookups[0].0))|, Deepest(hops, lookups[1..]);
      if here > rest then here else rest
  }

  lemma {:induction false} HopsAreCovered(hops: (string, string) -> seq<string>, lookups: Lookups, k: nat)
    requires k < |lookups|
    ensures var p := hops(Relation(lookups[k].0), Remainder(lookups[k].0));
            |p| <= Deepest(hops, lookups) && forall h :: h in p ==> h in HopNames(hops, lookups)
  {
    if k > 0 {
      assert lookups[1..][k - 1] == lookups[k];
      HopsAreCovered(hops, lookups[1..], k - 1);
    }
  }

  ghost function RelationNames(lookups: Lookups): set<string> { set k | 0 <= k < |lookups| :: Relation(lookups[k].0) }

  /** Every relation of the lookups has one target, and it forks. */
  ghost function ForkedDb(hops: (string, string) -> seq<string>, lookups: Lookups, test: Test): Db {
    Db(map r | r in RelationNames(lookups) :: [Target(0, 0, Forked(HopNames(hops, lookups), Deepest(hops, lookups)))], hops, test)
  }

  /** Rows of mark 1 fail lookup `b`, rows of mark 2 fail lookup `a`, and nothing else fails anything. */
  function FailsApart(a: string, b: string): Test {
    (n: Node, rest: string, value: int) => !(Mark(n) == 1 && rest == Remainder(b)) && !(Mark(n) == 2 && rest == Remainder(a))
  }

  function Always(): Test { (n: Node, rest: string, value: int) => true }

  ghost function ForkedRow(lookups: Lookups): Row { Row(0, 0, map r | r in RelationNames(lookups) :: Some(0)) }

  lemma {:induction false} ForkedTarget(hops: (string, string) -> seq<string>, lookups: Lookups, test: Test, k: nat)
    requires k < |lookups|
    ensures var (db, r) := (ForkedDb(hops, lookups, test), Relation(lookups[k].0));
            OnNodes(ForkedRow(lookups), r, Table(db, r)) == [Forked(HopNames(hops, lookups), Deepest(hops, lookups))]
  {
    var db, r := ForkedDb(hops, lookups, test), Relation(lookups[k].0);
    assert r in RelationNames(lookups);
    assert Table(db, r)[1..] == [];
  }

  /** The `n`-th row on a way behind the fork, on the side of `mark`. */
  function Level(names: set<string>, depth: nat, mark: int, n: nat): Node {
    if n <= 1 || n > depth + 1 then Forked(names, depth) else Uniform(mark, names, depth + 2 - n)
  }

  lemma {:induction false} LevelsAreChildren(names: set<string>, depth: nat, mark: int, n: nat, hop: string)
    requires 1 <= n <= depth && hop in names && (mark == 1 || mark == 2)
    ensures hop in Level(names, depth, mark, n).children
    ensures Level(names, depth, mark, n + 1) in Level(names, depth, mark, n).children[hop]
  {
    assert n > 1 ==> Level(names, depth, mark, n).children[hop] == [Level(names, depth, mark, n + 1)];
    assert n == 1 ==> Level(names, depth, mark, 1).children[hop] == [Uniform(1, names, depth), Uniform(2, names, depth)];
    assert n == 1 ==> Level(names, depth, mark, 2) == Uniform(mark, names, depth);
  }

  lemma {:induction false} FirstLevel(names: set<string>, depth: nat, mark: int)
    ensures Level(names, depth, mark, 1) == Forked(names, depth)
  {
  }

  lemma {:induction false} LevelMark(names: set<string>, depth: nat, mark: int, n: nat)
    ensures Mark(Level(names, depth, mark, n)) == 0 || Mark(Level(names, depth, mark, n)) == mark
  {
  }

  /** What is joined there, under all the aliases. */
  function Side(names: set<string>, depth: nat, mark: int, aliases: set<Alias>): Tuple {
    map p | p in aliases :: Level(names, depth, mark, |p|)
  }

  lemma {:induction false} SideIsLinkedAt(hops: (string, string) -> seq<string>, lookups: Lookups, test: Test, k: nat,
        mark: int, aliases: set<Alias>, p: Alias)
    requires k < |lookups| && (mark == 1 || mark == 2)
    requires p in aliases && OnTheWay(p, EndOf(ForkedDb(hops, lookups, test), lookups[k].0))
    requires |p| > 1 ==> p[..|p| - 1] in aliases
    ensures var (db, row) := (ForkedDb(hops, lookups, test), ForkedRow(lookups));
            var t := Side(HopNames(hops, lookups), Deepest(hops, lookups), mark, aliases);
            t[p] in Matches(db, row, t, p)
  {
    hide Level, Forked, Uniform, HopNames, Deepest, Relation, Remainder, ForkedRow, RelationNames, OnNodes, Table;
    var names, depth, end := HopNames(hops, lookups), Deepest(hops, lookups), EndOf(ForkedDb(hops, lookups, test), lookups[k].0);
    var n := |p|;
    assert p == end[..n];
    if n == 1 {
      ForkedTarget(hops, lookups, test, k);
      FirstLevel(names, depth, mark);
    } else {
      HopsAreCovered(hops, lookups, k);
      var hop := hops(Relation(lookups[k].0), Remainder(lookups[k].0))[n - 2];
      assert p[n - 1] == end[n - 1] == hop;
      LevelsAreChildren(names, depth, mark, n - 1, hop);
    }
  }

  lemma {:induction false} AliasesOfOne(db: Db, r: string, rest: string, value: int)
    ensures forall p :: p in GroupAliases(db, r, Only(rest, value)) ==>
              OnTheWay(p, AliasOf(db, r, rest)) && (|p| > 1 ==> p[..|p| - 1] in GroupAliases(db, r, Only(rest, value)))
  {
    GroupAliasesMembers(db, r, Only(rest, value));
    assert OnTheWay([r], AliasOf(db, r, rest));
  }

  /** Each lookup alone finds a row: behind the fork, on the side it does not fail at. */
  lemma {:induction false} ForkPassesEach(hops: (string, string) -> seq<string>, lookups: Lookups, a: string,
        b: string, k: nat)
    requires k < |lookups| && Remainder(a) != Remainder(b)
    ensures RelatedExists(ForkedDb(hops, lookups, FailsApart(a, b)), ForkedRow(lookups), Relation(lookups[k].0),
              Only(Remainder(lookups[k].0), lookups[k].1))
  {
    hide Matches, GroupAliases, Level, HopNames, Deepest, ForkedRow, Remainder, Relation, Mark, OnTheWay;
    var db, row := ForkedDb(hops, lookups, FailsApart(a, b)), ForkedRow(lookups);
    var r, rest := Relation(lookups[k].0), Remainder(lookups[k].0);
    var one, end := Only(rest, lookups[k].1), EndOf(db, lookups[k].0);
    var mark := if rest == Remainder(b) then 2 else 1;
    var aliases := GroupAliases(db, r, one);
    var t := Side(HopNames(hops, lookups), Deepest(hops, lookups), mark, aliases);
    AliasesOfOne(db, r, rest, lookups[k].1);
    forall p | p in aliases ensures t[p] in Matches(db, row, t, p) {
      SideIsLinkedAt(hops, lookups, FailsApart(a, b), k, mark, aliases, p);
    }
    EndIsInItsGroup(db, r, one, rest);
    LevelMark(HopNames(hops, lookups), Deepest(hops, lookups), mark, |end|);
    assert IsWitness(db, row, r, one, t);
  }

  /** What is joined behind one side of the fork stays on that side. */
  lemma {:induction false} ForkDecides(hops: (string, string) -> seq<string>, lookups: Lookups, test: Test, k: nat,
        t: Tuple, fork: Alias, p: Alias)
    requires k < |lookups| && Linked(ForkedDb(hops, lookups, test), ForkedRow(lookups), t)
    requires |fork| == 2 && fork[0] == Relation(lookups[k].0) && fork <= p
    requires forall n :: 1 <= n <= |p| ==> p[..n] in t
    ensures fork in t && p in t && Mark(t[fork]) == Mark(t[p]) && (Mark(t[p]) == 1 || Mark(t[p]) == 2)
    ensures exists depth: nat :: t[p] == Uniform(Mark(t[p]), HopNames(hops, lookups), depth)
    decreases |p|
  {
    var db, row := ForkedDb(hops, lookups, test), ForkedRow(lookups);
    assert p[..|p|] == p && p[..2] == fork && fork in t;
    var parent := p[..|p| - 1];
    assert p in t && t[p] in Matches(db, row, t, p) && parent in t;
    if |p| == 2 {
      assert parent == [Relation(lookups[k].0)] && t[parent] in Matches(db, row, t, parent);
      ForkedTarget(hops, lookups, test, k);
      var depth := Deepest(hops, lookups);
      assert t[p] == Uniform(1, HopNames(hops, lookups), depth) || t[p] == Uniform(2, HopNames(hops, lookups), depth);
    } else {
      assert fork <= parent && forall n :: 1 <= n <= |parent| ==> parent[..n] == p[..n];
      ForkDecides(hops, lookups, test, k, t, fork, parent);
      var depth: nat :| t[parent] == Uniform(Mark(t[parent]), HopNames(hops, lookups), depth);
      assert t[p] == Uniform(Mark(t[parent]), HopNames(hops, lookups), depth - 1);
    }
  }

  /** But two lookups that share the way ask for one row on both sides. */
  lemma {:induction false} ForkFailsAt(hops: (string, string) -> seq<string>, lookups: Lookups, i: nat, j: nat,
        conditions: map<string, int>, t: Tuple)
    requires i < |lookups| && j < |lookups| && SharePath(hops, lookups[i].0, lookups[j].0)
    requires Remainder(lookups[i].0) in conditions && Remainder(lookups[j].0) in conditions
    ensures !IsWitness(ForkedDb(hops, lookups, FailsApart(lookups[i].0, lookups[j].0)), ForkedRow(lookups), Relation(lookups[i].0),
              conditions, t)
  {
    hide Matches, GroupAliases, ForkedRow, Remainder, Relation, Uniform, Linked;
    var a, b := lookups[i].0, lookups[j].0;
    var db, row, r := ForkedDb(hops, lookups, FailsApart(a, b)), ForkedRow(lookups), Relation(a);
    var p, q := AliasOf(db, r, Remainder(a)), AliasOf(db, r, Remainder(b));
    var fork := p[..2];
    assert fork == [r, hops(r, Remainder(a))[0]] == q[..2];
    if IsWitness(db, row, r, conditions, t) {
      WayIsInItsGroup(db, r, conditions, Remainder(a));
      WayIsInItsGroup(db, r, conditions, Remainder(b));
      ForkDecides(hops, lookups, FailsApart(a, b), i, t, fork, p);
      ForkDecides(hops, lookups, FailsApart(a, b), i, t, fork, q);
    }
  }

  lemma {:induction false} WayIsInItsGroup(db: Db, r: string, conditions: map<string, int>, rest: string)
    requires rest in conditions
    ensures var p := AliasOf(db, r, rest); forall n :: 1 <= n <= |p| ==> p[..n] in GroupAliases(db, r, conditions)
  {
    GroupAliasesMembers(db, r, conditions);
    var p := AliasOf(db, r, rest);
    forall n | 1 <= n <= |p| ensures p[..n] in GroupAliases(db, r, conditions) { assert OnTheWay(p[..n], p); }
  }

  lemma {:induction false} ForkFailsTheGroup(hops: (string, string) -> seq<string>, safe: set<string>,
        lookups: Lookups, i: nat, j: nat)
    requires AllCross(safe, lookups) && DistinctNames(lookups) && i < |lookups| && j < |lookups|
    requires SharePath(hops, lookups[i].0, lookups[j].0)
    ensures !PassesAll(ForkedDb(hops, lookups, FailsApart(lookups[i].0, lookups[j].0)), ForkedRow(lookups), Grouped(lookups))
  {
    hide IsWitness, Grouped, ForkedDb, ForkedRow;
    GroupingKeepsEveryLookup(safe, lookups);
    assert Holds(Grouped(lookups), lookups[i]) && Holds(Grouped(lookups), lookups[j]);
    var db, row, r := ForkedDb(hops, lookups, FailsApart(lookups[i].0, lookups[j].0)), ForkedRow(lookups), Relation(lookups[i].0);
    forall t ensures !IsWitness(db, row, r, Grouped(lookups)[r], t) {
      ForkFailsAt(hops, lookups, i, j, Grouped(lookups)[r], t);
    }
    assert r in Grouped(lookups) && !RelatedExists(db, row, r, Grouped(lookups)[r]);
  }

  /** Over a schema, grouping lookups into one EXISTS per relation means the same as one EXISTS per lookup,
      in every database and for every row, exactly when no two of them set out across the same to-many
      relation. */
  lemma {:induction false} GroupedIsEachIff(hops: (string, string) -> seq<string>, safe: set<string>, lookups: Lookups)
    requires AllCross(safe, lookups) && DistinctNames(lookups)
    ensures NoneShare(hops, lookups) <==>
              forall db: Db, row: Row :: db.hops == hops && UniqueKeys(db) ==>
                (PassesAll(db, row, Grouped(lookups)) <==> PassesEach(db, row, lookups))
  {
    if NoneShare(hops, lookups) {
      forall db: Db, row: Row | db.hops == hops && UniqueKeys(db)
        ensures PassesAll(db, row, Grouped(lookups)) <==> PassesEach(db, row, lookups)
      {
        GroupedExistsIsEachExists(db, safe, row, lookups);
      }
    } else {
      var i, j :| 0 <= i < j < |lookups| && SharePath(hops, lookups[i].0, lookups[j].0);
      var a, b := lookups[i].0, lookups[j].0;
      var db, row := ForkedDb(hops, lookups, FailsApart(a, b)), ForkedRow(lookups);
      if Remainder(a) == Remainder(b) { HalvesDetermineTheLookup(safe, a, b); }
      forall k | 0 <= k < |lookups|
        ensures RelatedExists(db, row, Relation(lookups[k].0), Only(Remainder(lookups[k].0), lookups[k].1))
      {
        ForkPassesEach(hops, lookups, a, b, k);
      }
      assert PassesEach(db, row, lookups);
      ForkFailsTheGroup(hops, safe, lookups, i, j);
      assert db.hops == hops && UniqueKeys(db);
    }
  }

  // -------------------------------------------------------- how often the join repeats a row

  lemma {:induction false} NothingFiltered(db: Db, row: Row, tuples: seq<Tuple>, lookups: Lookups)
    requires forall t :: t in tuples ==> Satisfies(db, t, lookups)
    ensures |Repeated(db, row, tuples, lookups)| == |tuples|
  {
    if tuples != [] {
      assert tuples[0] in tuples && forall t :: t in tuples[1..] ==> t in tuples;
      NothingFiltered(db, row, tuples[1..], lookups);
    }
  }

  lemma {:induction false} SideIsJoined(hops: (string, string) -> seq<string>, lookups: Lookups, test: Test, mark: int)
    requires mark == 1 || mark == 2
    ensures var (db, row) := (ForkedDb(hops, lookups, test), ForkedRow(lookups));
            var aliases := AliasesOf(db, lookups);
            Side(HopNames(hops, lookups), Deepest(hops, lookups), mark, AliasSet(aliases)) in JoinedTuples(db, row, aliases)
  {
    hide Matches, AliasesOf, JoinedTuples, Level, HopNames, Deepest, ForkedRow, ForkedDb, OnTheWay;
    var db, row := ForkedDb(hops, lookups, test), ForkedRow(lookups);
    var aliases := AliasesOf(db, lookups);
    var t := Side(HopNames(hops, lookups), Deepest(hops, lookups), mark, AliasSet(aliases));
    AliasesInOrder(db, lookups);
    forall p | p in t ensures t[p] in Matches(db, row, t, p) {
      var k :| 0 <= k < |lookups| && OnTheWay(p, EndOf(db, lookups[k].0));
      if |p| > 1 { ParentIsJoined(db, lookups, p); }
      SideIsLinkedAt(hops, lookups, test, k, mark, AliasSet(aliases), p);
    }
    LinkedIsJoined(db, row, aliases, t);
  }

  /** Either side of the fork is a tuple of its own. */
  lemma {:induction false} SidesDiffer(hops: (string, string) -> seq<string>, lookups: Lookups, db: Db, k: nat)
    requires k < |lookups| && db.hops == hops && hops(Relation(lookups[k].0), Remainder(lookups[k].0)) != []
    ensures var (names, depth, aliases) := (HopNames(hops, lookups), Deepest(hops, lookups), AliasSet(AliasesOf(db, lookups)));
            Side(names, depth, 1, aliases) != Side(names, depth, 2, aliases)
  {
    var end := EndOf(db, lookups[k].0);
    var fork := end[..2];
    assert OnTheWay(fork, end);
    OnTheWayIsJoined(db, lookups, k, fork);
    HopsAreCovered(hops, lookups, k);
    hide HopNames, Deepest, AliasesOf;
    var names, depth, aliases := HopNames(hops, lookups), Deepest(hops, lookups), AliasSet(AliasesOf(db, lookups));
    assert Side(names, depth, 1, aliases)[fork].columns["mark"] == 1;
    assert Side(names, depth, 2, aliases)[fork].columns["mark"] == 2;
  }

  lemma {:induction false} ForkIsJoinedTwice(hops: (string, string) -> seq<string>, lookups: Lookups, k: nat)
    requires k < |lookups| && hops(Relation(lookups[k].0), Remainder(lookups[k].0)) != []
    ensures |Survivals(ForkedDb(hops, lookups, Always()), ForkedRow(lookups), lookups)| > 1
  {
    hide AliasesOf, JoinedTuples, Side, HopNames, Deepest, ForkedRow, Relation, Remainder;
    var db, row := ForkedDb(hops, lookups, Always()), ForkedRow(lookups);
    var aliases := AliasesOf(db, lookups);
    var tuples := JoinedTuples(db, row, aliases);
    SideIsJoined(hops, lookups, Always(), 1);
    SideIsJoined(hops, lookups, Always(), 2);
    SidesDiffer(hops, lookups, db, k);
    assert |tuples| > 1;
    forall t | t in tuples ensures Satisfies(db, t, lookups) {
      AliasesInOrder(db, lookups);
      JoinedIsLinked(db, row, aliases, t);
      forall i | 0 <= i < |lookups| ensures EndOf(db, lookups[i].0) in t {
        OnTheWayIsJoined(db, lookups, i, EndOf(db, lookups[i].0));
      }
    }
    NothingFiltered(db, row, tuples, lookups);
  }

  /** Over a schema, the method keeps what the ordinary join filter keeps, in every database and however
      often, exactly when no lookup crosses a to-many relation. */
  lemma {:induction false} WithoutJoinIsTheJoinIff(hops: (string, string) -> seq<string>, safe: set<string>,
        lookups: Lookups)
    requires AllCross(safe, lookups) && DistinctNames(lookups)
    ensures (forall k :: 0 <= k < |lookups| ==> hops(Relation(lookups[k].0), Remainder(lookups[k].0)) == []) <==>
            forall db: Db, rows: seq<Row> :: db.hops == hops && UniqueKeys(db) ==>
              WherePasses(db, rows, Grouped(lookups)) == JoinFilter(db, rows, lookups)
  {
    if forall k :: 0 <= k < |lookups| ==> hops(Relation(lookups[k].0), Remainder(lookups[k].0)) == [] {
      forall db: Db, rows: seq<Row> | db.hops == hops && UniqueKeys(db)
        ensures WherePasses(db, rows, Grouped(lookups)) == JoinFilter(db, rows, lookups)
      {
        WithoutJoinIsTheJoin(db, safe, rows, lookups);
      }
    } else {
      var k :| 0 <= k < |lookups| && hops(Relation(lookups[k].0), Remainder(lookups[k].0)) != [];
      var db, rows := ForkedDb(hops, lookups, Always()), [ForkedRow(lookups)];
      ForkIsJoinedTwice(hops, lookups, k);
      assert ForkedRow(lookups) in rows;
      SameUnlessRepeated(db, safe, rows, lookups);
      assert db.hops == hops && UniqueKeys(db);
    }
  }

  function PassingCount(db: Db, nodes: seq<Node>, rest: string, value: int): nat {
    if nodes == [] then 0 else (if db.test(nodes[0], rest, value) then 1 else 0) + PassingCount(db, nodes[1..], rest, value)
  }

  lemma {:induction false} RepeatedOverEach(db: Db, row: Row, t: Tuple, nodes: seq<Node>, lookup: (string, int))
    ensures |Repeated(db, row, Each(t, EndOf(db, lookup.0), nodes), [lookup])|
         == PassingCount(db, nodes, Remainder(lookup.0), lookup.1)
  {
    if nodes != [] {
      var end := EndOf(db, lookup.0);
      var tuples := Each(t, end, nodes);
      assert tuples[1..] == Each(t, end, nodes[1..]);
      RepeatedOverEach(db, row, t, nodes[1..], lookup);
      assert tuples[0] == t[end := nodes[0]];
      assert Satisfies(db, tuples[0], [lookup]) <==> db.test(nodes[0], Remainder(lookup.0), lookup.1) by {
        assert [lookup][0] == lookup;
      }
    }
  }

  lemma {:induction false} TwoAliases(db: Db, lookup: (string, int), hop: string)
    requires db.hops(Relation(lookup.0), Remainder(lookup.0)) == [hop]
    ensures AliasesOf(db, [lookup]) == [[Relation(lookup.0)], [Relation(lookup.0), hop]]
  {
    hide Relation, Remainder;
    var first: Alias, end: Alias := [Relation(lookup.0)], [Relation(lookup.0), hop];
    assert EndOf(db, lookup.0) == end && end[..1] == first && first[..0] == [];
    assert Opened([], first) == [first];
    assert Opened([], end) == [first, end];
    assert [lookup][..0] == [];
  }

  lemma {:induction false} OneExtension(db: Db, row: Row, t: Tuple, aliases: seq<Alias>, p: Alias)
    requires JoinedTuples(db, row, aliases) == [t]
    ensures JoinedTuples(db, row, aliases + [p]) == Each(t, p, Matches(db, row, t, p))
  {
    hide Matches, Each;
    var all := aliases + [p];
    assert all[..|all| - 1] == aliases && all[|all| - 1] == p;
    var ts: seq<Tuple> := [t];
    assert ts[1..] == [] && Extended(db, row, ts[1..], p) == [];
  }

  /** A lookup across one to-many relation of the target: the join lists the row once for every row
      there that passes, the method once if any does. */
  lemma {:induction false} JoinRepeatsPerChild(db: Db, row: Row, lookup: (string, int), n: Node, hop: string)
    requires db.hops(Relation(lookup.0), Remainder(lookup.0)) == [hop] && hop in n.children
    requires OnNodes(row, Relation(lookup.0), Table(db, Relation(lookup.0))) == [n]
    ensures |Survivals(db, row, [lookup])| == PassingCount(db, n.children[hop], Remainder(lookup.0), lookup.1)
  {
    hide AliasesOf, JoinedTuples, Relation, Remainder, Repeated;
    var first: Alias, end: Alias := [Relation(lookup.0)], [Relation(lookup.0), hop];
    var none: seq<Alias>, start: Tuple := [], map[first := n];
    TwoAliases(db, lookup, hop);
    NothingJoined(db, row, map[]);
    OneExtension(db, row, map[], none, first);
    assert none + [first] == [first] && Each(map[], first, [n]) == [start];
    assert end[..1] == first;
    OneExtension(db, row, start, [first], end);
    assert [first] + [end] == [first, end] && EndOf(db, lookup.0) == end;
    RepeatedOverEach(db, row, start, n.children[hop], lookup);
  }
}
