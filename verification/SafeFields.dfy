/** The two fields behind an organization-safe relation (`fields.py`): expanding the declared name
    for `save`/`bulk_update`, and rewriting keyword arguments for `update`/`Model(...)`. */
module SafeFields {
  import opened Rows

  const ORGANIZATION := "organization"
  const ORGANIZATION_ID := "organization_id"

  /** `safe_field.local_related_fields` of a relation declared under `relation`. */
  function LocalFields(relation: string): seq<string> {
    [relation + "_fk", ORGANIZATION]
  }

  /** Field names Django accepts side by side: no two of the names a declaration contributes clash. */
  ghost predicate Declarable(relations: seq<string>) {
    && ORGANIZATION !in relations
    && (forall i, j :: 0 <= i < j < |relations| ==> relations[i] != relations[j])
    && (forall r, s :: r in relations && s in relations ==> r != s + "_fk" && r != s + "_id")
  }

  // ---------------------------------------------------------------- expansion

  function Expansion(relations: seq<string>, name: string): seq<string> {
    if name in relations then LocalFields(name) else [name]
  }

  /** `names` after `list.extend(name for name in more if name not in names)`. */
  function ExtendedWith(names: seq<string>, more: seq<string>): seq<string>
    decreases |more|
  {
    if more == [] then names
    else ExtendedWith(if more[0] in names then names else names + [more[0]], more[1..])
  }

  function ExpandedFrom(relations: seq<string>, expanded: seq<string>, names: seq<string>): seq<string>
    decreases |names|
  {
    if names == [] then expanded
    else ExpandedFrom(relations, ExtendedWith(expanded, Expansion(relations, names[0])), names[1..])
  }

  /** `expand_safe_relation_field_names`. */
  function Expanded(relations: seq<string>, names: seq<string>): seq<string> {
    if names == [] || relations == [] then names else ExpandedFrom(relations, [], names)
  }

  method ExpandSafeRelationFieldNames(relations: seq<string>, names: seq<string>) returns (expanded: seq<string>)
    ensures expanded == Expanded(relations, names)
  {
    if names == [] || relations == [] {
      return names;
    }
    expanded := [];
    for i := 0 to |names|
      invariant Expanded(relations, names) == ExpandedFrom(relations, expanded, names[i..])
    {
      var fields := if names[i] in relations then LocalFields(names[i]) else [names[i]];
      ghost var before := expanded;
      for j := 0 to |fields|
        invariant ExtendedWith(before, fields) == ExtendedWith(expanded, fields[j..])
      {
        assert fields[j..][1..] == fields[j + 1..];
        if fields[j] !in expanded {
          expanded := expanded + [fields[j]];
        }
      }
      assert names[i..][1..] == names[i + 1..];
    }
  }

  lemma {:induction false} ExtendedWithMembers(names: seq<string>, more: seq<string>)
    ensures forall n :: n in ExtendedWith(names, more) <==> n in names || n in more
    ensures Distinct(names) ==> Distinct(ExtendedWith(names, more))
    decreases |more|
  {
    if more != [] {
      ExtendedWithMembers(if more[0] in names then names else names + [more[0]], more[1..]);
      assert more == [more[0]] + more[1..];
    }
  }

  lemma {:induction false} ExpandedFromMembers(relations: seq<string>, expanded: seq<string>, names: seq<string>)
    ensures forall n :: n in ExpandedFrom(relations, expanded, names) <==>
              n in expanded || exists m :: m in names && n in Expansion(relations, m)
    ensures Distinct(expanded) ==> Distinct(ExpandedFrom(relations, expanded, names))
    decreases |names|
  {
    if names != [] {
      var next := ExtendedWith(expanded, Expansion(relations, names[0]));
      ExtendedWithMembers(expanded, Expansion(relations, names[0]));
      ExpandedFromMembers(relations, next, names[1..]);
      assert names == [names[0]] + names[1..];
    }
  }

  /** Exactly the columns behind the names are written, none twice, and a relation's key is named
      together with the organization or not at all. */
  lemma ExpansionWritesBothHalves(relations: seq<string>, names: seq<string>)
    requires Declarable(relations) && relations != []
    ensures forall n :: n in Expanded(relations, names) <==> exists m :: m in names && n in Expansion(relations, m)
    ensures Distinct(Expanded(relations, names))
    ensures forall r :: r in relations ==>
              r !in Expanded(relations, names) && (r in names ==> r + "_fk" in Expanded(relations, names))
    ensures ORGANIZATION in Expanded(relations, names) <==>
              ORGANIZATION in names || exists r :: r in relations && r in names
  {
    ExpandedFromMembers(relations, [], names);
    forall r | r in relations && r in names
      ensures r + "_fk" in Expanded(relations, names) && ORGANIZATION in Expanded(relations, names)
    {
      assert r + "_fk" in Expansion(relations, r) && ORGANIZATION in Expansion(relations, r);
    }
    if ORGANIZATION in names {
      assert ORGANIZATION in Expansion(relations, ORGANIZATION);
    }
    forall r, m | r in relations
      ensures r !in Expansion(relations, m)
    {
    }
  }

  /** A model without such relations has its names back as they are. */
  lemma NothingToExpand(names: seq<string>)
    ensures Expanded([], names) == names
  {
  }

  // ----------------------------------------------------------------- rewriting

  /** `rewritten[new] = rewritten.pop(old)` when `old` is there. */
  function Renamed<V>(kwargs: map<string, V>, name: string, column: string): map<string, V> {
    if name in kwargs then (kwargs - {name})[column := kwargs[name]] else kwargs
  }

  function RewrittenOne<V>(relation: string, kwargs: map<string, V>, instances: bool): map<string, V> {
    Renamed(if instances then Renamed(kwargs, relation, relation + "_fk") else kwargs,
            relation + "_id", relation + "_fk_id")
  }

  /** `rewrite_safe_relation_kwargs`. */
  function Rewritten<V>(relations: seq<string>, kwargs: map<string, V>, instances: bool): map<string, V>
    decreases |relations|
  {
    if relations == [] then kwargs
    else RewrittenOne(relations[|relations| - 1], Rewritten(relations[..|relations| - 1], kwargs, instances), instances)
  }

  method RewriteSafeRelationKwargs<V>(relations: seq<string>, kwargs: map<string, V>, instances: bool)
    returns (rewritten: map<string, V>)
    ensures rewritten == Rewritten(relations, kwargs, instances)
  {
    rewritten := kwargs;
    for i := 0 to |relations|
      invariant rewritten == Rewritten(relations[..i], kwargs, instances)
    {
      var name := relations[i];
      if instances && name in rewritten {
        rewritten := (rewritten - {name})[name + "_fk" := rewritten[name]];
      }
      if name + "_id" in rewritten {
        rewritten := (rewritten - {name + "_id"})[name + "_fk_id" := rewritten[name + "_id"]];
      }
      assert relations[..i + 1][..i] == relations[..i];
    }
    assert relations[..|relations|] == relations;
  }

  lemma SuffixesDiffer(relation: string)
    ensures relation + "_fk" != ORGANIZATION && relation + "_fk_id" != ORGANIZATION
    ensures relation + "_fk" != ORGANIZATION_ID && relation + "_fk_id" != ORGANIZATION_ID
    ensures relation != ORGANIZATION ==> relation + "_id" != ORGANIZATION && relation + "_id" != ORGANIZATION_ID
  {
    var fk, fkId, id := relation + "_fk", relation + "_fk_id", relation + "_id";
    assert fk[|fk| - 1] == 'k';
    assert fkId[|fkId| - 1] == 'd' && fkId[|fkId| - 4] == 'k';
    assert id[|id| - 1] == 'd' && id[..|id| - 3] == relation;
    assert ORGANIZATION_ID[..12] == ORGANIZATION;
  }

  /** Rewriting can neither hide an organization write from the check in `update` nor invent one. */
  lemma {:induction false} RewritingKeepsOrganizationNames<V>(relations: seq<string>, kwargs: map<string, V>,
        instances: bool)
    requires Declarable(relations) && ORGANIZATION_ID !in relations
    ensures forall n :: n == ORGANIZATION || n == ORGANIZATION_ID ==>
              var after := Rewritten(relations, kwargs, instances);
              (n in after <==> n in kwargs) && (n in after ==> after[n] == kwargs[n])
    decreases |relations|
  {
    if relations != [] {
      var last, shorter := relations[|relations| - 1], relations[..|relations| - 1];
      assert forall r :: r in shorter ==> r in relations;
      RewritingKeepsOrganizationNames(shorter, kwargs, instances);
      SuffixesDiffer(last);
    }
  }

  /** The keyword a caller's keyword becomes. */
  function Column(relations: seq<string>, name: string, instances: bool): string {
    if instances && name in relations then name + "_fk"
    else if |name| >= 3 && name[|name| - 3..] == "_id" && name[..|name| - 3] in relations
      then name[..|name| - 3] + "_fk_id"
    else name
  }

  /** Nothing a declaration contributes is itself the name, or the attribute name, of another one. */
  ghost predicate NamesApart(relations: seq<string>) {
    forall r, s :: r in relations && s in relations ==> r != s + "_fk" && r != s + "_id" && r != s + "_fk_id"
  }

  /** A keyword of the caller's is there under its column; renamed, it is gone from where it was, and
      its value wins over one given under the column's own name. */
  ghost predicate Arrives<V>(relations: seq<string>, kwargs: map<string, V>, after: map<string, V>, instances: bool,
        n: string)
    requires n in kwargs
  {
    var column := Column(relations, n, instances);
    column in after && (column != n ==> n !in after && after[column] == kwargs[n])
  }

  ghost predicate ComesFrom<V>(relations: seq<string>, kwargs: map<string, V>, after: map<string, V>, instances: bool,
        m: string)
    requires m in after
  {
    exists n :: n in kwargs && Column(relations, n, instances) == m && after[m] == kwargs[n]
  }

  ghost predicate Moved<V>(relations: seq<string>, kwargs: map<string, V>, after: map<string, V>, instances: bool) {
    && (forall n :: n in kwargs ==> Arrives(relations, kwargs, after, instances, n))
    && (forall m :: m in after ==> ComesFrom(relations, kwargs, after, instances, m))
  }

  lemma ColumnOfOneMore(relations: seq<string>, name: string, instances: bool)
    requires relations != [] && NamesApart(relations)
    requires relations[|relations| - 1] !in relations[..|relations| - 1]
    ensures
      var last, shorter := relations[|relations| - 1], relations[..|relations| - 1];
      && Column(relations, name, instances) ==
           (if instances && name == last then last + "_fk"
            else if name == last + "_id" then last + "_fk_id"
            else Column(shorter, name, instances))
      && Column(shorter, last, instances) == last && Column(shorter, last + "_id", instances) == last + "_id"
  {
    var last, shorter := relations[|relations| - 1], relations[..|relations| - 1];
    assert forall r :: r in relations <==> r == last || r in shorter by {
      assert relations == shorter + [last];
    }
    var id := last + "_id";
    assert id[|id| - 3..] == "_id" && id[..|id| - 3] == last;
    assert id !in relations;
    if |name| >= 3 && name[|name| - 3..] == "_id" {
      assert name == name[..|name| - 3] + "_id";
    }
    if |last| >= 3 && last[|last| - 3..] == "_id" {
      assert last == last[..|last| - 3] + "_id";
    }
  }

  lemma EndingsDiffer(r: string, s: string)
    ensures r + "_fk" != s + "_id" && r + "_fk" != s + "_fk_id"
    ensures r + "_fk" == s + "_fk" ==> r == s
    ensures r + "_id" == s + "_id" ==> r == s
    ensures r + "_id" == s + "_fk_id" ==> r == s + "_fk"
  {
    var a, b, c, d := r + "_fk", s + "_id", s + "_fk_id", r + "_id";
    assert a[|a| - 1] == 'k' && b[|b| - 1] == 'd' && c[|c| - 1] == 'd';
    assert a[..|a| - 3] == r && (s + "_fk")[..|s + "_fk"| - 3] == s;
    assert d[..|d| - 3] == r && b[..|b| - 3] == s;
    assert c == (s + "_fk") + "_id" && c[..|c| - 3] == s + "_fk";
  }

  /** What the last declaration renames, and what it renames it to, no shorter rewrite produces from
      anything else. */
  lemma ColumnsApart(relations: seq<string>, name: string, instances: bool)
    requires relations != [] && Declarable(relations) && NamesApart(relations)
    ensures
      var last := relations[|relations| - 1];
      var column := Column(relations[..|relations| - 1], name, instances);
      && (column == last <==> name == last) && (column == last + "_id" <==> name == last + "_id")
      && (column == last + "_fk" <==> name == last + "_fk") && (column == last + "_fk_id" <==> name == last + "_fk_id")
  {
    var last, shorter := relations[|relations| - 1], relations[..|relations| - 1];
    assert relations == shorter + [last] && last in relations;
    assert last !in shorter;
    assert forall r :: r in shorter ==> r in relations;
    if instances && name in shorter {
      EndingsDiffer(name, last);
    } else if |name| >= 3 && name[|name| - 3..] == "_id" && name[..|name| - 3] in shorter {
      var r := name[..|name| - 3];
      assert name == r + "_id";
      EndingsDiffer(last, r);
      EndingsDiffer(r, last);
      assert r + "_fk_id" == (r + "_fk") + "_id" && last + "_fk_id" == (last + "_fk") + "_id";
      EndingsDiffer(r + "_fk", last + "_fk");
      EndingsDiffer(r + "_fk", last);
      assert r in relations;
    } else {
      SuffixedIsPlain(shorter, last, instances);
    }
  }

  lemma SuffixedIsPlain(shorter: seq<string>, last: string, instances: bool)
    requires NamesApart(shorter + [last]) && last !in shorter
    ensures Column(shorter, last, instances) == last && Column(shorter, last + "_id", instances) == last + "_id"
    ensures Column(shorter, last + "_fk", instances) == last + "_fk"
    ensures Column(shorter, last + "_fk_id", instances) == last + "_fk_id"
  {
    assert last in shorter + [last] && forall r :: r in shorter ==> r in shorter + [last];
    var id, fkId, fk := last + "_id", last + "_fk_id", last + "_fk";
    assert id[..|id| - 3] == last;
    assert fkId == fk + "_id" && fkId[..|fkId| - 3] == fk;
    assert fk[|fk| - 1] == 'k';
    if |last| >= 3 && last[|last| - 3..] == "_id" {
      assert last == last[..|last| - 3] + "_id";
    }
  }

  /** Two renamings in a row, of keys that are all different. */
  lemma RenamedTwice<V>(mid: map<string, V>, first: bool, a: string, b: string, c: string, d: string)
    requires a != b && a != c && a != d && b != c && b != d && c != d
    ensures
      var after := Renamed(if first then Renamed(mid, a, b) else mid, c, d);
      && (first && a in mid ==> a !in after && b in after && after[b] == mid[a])
      && (c in mid ==> c !in after && d in after && after[d] == mid[c])
      && (forall k :: k in mid && k != c && !(first && k == a) ==> k in after)
      && (forall k :: k in after && !(first && k == b && a in mid) && !(k == d && c in mid) ==>
            k in mid && after[k] == mid[k] && k != c && !(first && k == a))
  {
  }

  lemma KeywordMoved<V>(relations: seq<string>, kwargs: map<string, V>, mid: map<string, V>, instances: bool, n: string)
    requires relations != [] && Declarable(relations) && NamesApart(relations) && n in kwargs
    requires Moved(relations[..|relations| - 1], kwargs, mid, instances)
    ensures Arrives(relations, kwargs, RewrittenOne(relations[|relations| - 1], mid, instances), instances, n)
  {
    var last, shorter := relations[|relations| - 1], relations[..|relations| - 1];
    var fk, id, fkId := last + "_fk", last + "_id", last + "_fk_id";
    ColumnOfOneMore(relations, n, instances);
    ColumnsApart(relations, n, instances);
    SuffixesApart(last);
    RenamedTwice(mid, instances, last, fk, id, fkId);
    var after := RewrittenOne(last, mid, instances);
    assert after == Renamed(if instances then Renamed(mid, last, fk) else mid, id, fkId);
    var c := Column(shorter, n, instances);
    assert Arrives(shorter, kwargs, mid, instances, n) && ComesFrom(shorter, kwargs, mid, instances, c);
    var source :| source in kwargs && Column(shorter, source, instances) == c && mid[c] == kwargs[source];
    ColumnsApart(relations, source, instances);
    hide Column, Renamed, RewrittenOne, Declarable, NamesApart;
    if instances && n == last {
      assert after[fk] == kwargs[n];
    } else if n == id {
      assert after[fkId] == kwargs[n];
    } else if c != n {
      assert n !in mid && c in after && n !in after;
      assert after[c] == mid[c] == kwargs[n];
    }
  }

  lemma ColumnComesFrom<V>(relations: seq<string>, kwargs: map<string, V>, mid: map<string, V>, instances: bool,
        m: string)
    requires relations != [] && Declarable(relations) && NamesApart(relations)
    requires Moved(relations[..|relations| - 1], kwargs, mid, instances)
    requires m in RewrittenOne(relations[|relations| - 1], mid, instances)
    ensures ComesFrom(relations, kwargs, RewrittenOne(relations[|relations| - 1], mid, instances), instances, m)
  {
    var last, shorter := relations[|relations| - 1], relations[..|relations| - 1];
    var fk, id, fkId := last + "_fk", last + "_id", last + "_fk_id";
    SuffixesApart(last);
    RenamedTwice(mid, instances, last, fk, id, fkId);
    var after := RewrittenOne(last, mid, instances);
    assert after == Renamed(if instances then Renamed(mid, last, fk) else mid, id, fkId);
    var source := if instances && last in mid && m == fk then last else if id in mid && m == fkId then id else m;
    assert ComesFrom(shorter, kwargs, mid, instances, source);
    var n :| n in kwargs && Column(shorter, n, instances) == source && mid[source] == kwargs[n];
    ColumnsApart(relations, n, instances);
    ColumnOfOneMore(relations, n, instances);
    hide Column, Renamed, RewrittenOne, Declarable, NamesApart;
    assert Column(relations, n, instances) == m && after[m] == kwargs[n];
  }

  lemma SuffixesApart(last: string)
    ensures last + "_fk" != last + "_id" && last + "_fk_id" != last + "_fk" && last + "_fk_id" != last + "_id"
    ensures last != last + "_fk" && last != last + "_id" && last != last + "_fk_id"
  {
    EndingsDiffer(last, last);
    assert |last + "_fk_id"| == |last| + 6;
  }

  lemma OneMoreMoved<V>(relations: seq<string>, kwargs: map<string, V>, mid: map<string, V>, instances: bool)
    requires relations != [] && Declarable(relations) && NamesApart(relations)
    requires Moved(relations[..|relations| - 1], kwargs, mid, instances)
    ensures Moved(relations, kwargs, RewrittenOne(relations[|relations| - 1], mid, instances), instances)
  {
    hide Arrives, ComesFrom, RewrittenOne, Declarable, NamesApart;
    var after := RewrittenOne(relations[|relations| - 1], mid, instances);
    forall n | n in kwargs ensures Arrives(relations, kwargs, after, instances, n) {
      KeywordMoved(relations, kwargs, mid, instances, n);
    }
    forall m | m in after ensures ComesFrom(relations, kwargs, after, instances, m) {
      ColumnComesFrom(relations, kwargs, mid, instances, m);
    }
  }

  /** Every keyword ends up under its column with its value, and nothing else is there. */
  lemma {:induction false} RewritingMovesEveryKeyword<V>(relations: seq<string>, kwargs: map<string, V>,
        instances: bool)
    requires Declarable(relations) && NamesApart(relations)
    ensures Moved(relations, kwargs, Rewritten(relations, kwargs, instances), instances)
    decreases |relations|
  {
    if relations != [] {
      var last, shorter := relations[|relations| - 1], relations[..|relations| - 1];
      assert forall r :: r in shorter ==> r in relations;
      RewritingMovesEveryKeyword(shorter, kwargs, instances);
      OneMoreMoved(relations, kwargs, Rewritten(shorter, kwargs, instances), instances);
    }
  }
}
