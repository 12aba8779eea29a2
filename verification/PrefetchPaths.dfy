/** `_prefetch_paths`: a `select_related` tree as the list of `prefetch_related` lookups for its
    leaves, and back. */
module PrefetchPaths {
  import opened Names

  /** A nested `select_related` dictionary, in its insertion order. */
  datatype Tree = Tree(children: seq<Entry>)

  datatype Entry = Entry(name: string, nested: Tree)

  type Entries = seq<Entry>

  function TreeSize(t: Tree): nat
    decreases t, 1
  {
    1 + Size(t.children)
  }

  function Size(items: Entries): nat
    decreases items, 0
  {
    if items == [] then 0 else TreeSize(items[0].nested) + Size(items[1..])
  }

  lemma SizeSplits(items: Entries)
    requires items != []
    ensures Size(items) == 1 + Size(items[0].nested.children) + Size(items[1..])
  {
    assert TreeSize(items[0].nested) == 1 + Size(items[0].nested.children);
  }

  // ------------------------------------------------------------------ the source

  function Prefixed(name: string, paths: seq<string>): seq<string> {
    seq(|paths|, k requires 0 <= k < |paths| => name + LOOKUP_SEP + paths[k])
  }

  function Paths(name: string, nested: Tree): seq<string>
    decreases nested, 1
  {
    if nested.children == [] then [name] else ChildPaths(name, nested.children)
  }

  function ChildPaths(name: string, items: Entries): seq<string>
    decreases items, 0
  {
    if items == [] then [] else Prefixed(name, Paths(items[0].name, items[0].nested)) + ChildPaths(name, items[1..])
  }

  /** All lookups of one `select_related`: the comprehension over its top-level entries. */
  function AllPaths(items: Entries): seq<string> {
    if items == [] then [] else Paths(items[0].name, items[0].nested) + AllPaths(items[1..])
  }

  method PrefetchPaths(name: string, nested: Tree) returns (paths: seq<string>)
    ensures paths == Paths(name, nested)
    decreases nested
  {
    if nested.children == [] {
      return [name];
    }
    paths := [];
    var items := nested.children;
    for k := 0 to |items|
      invariant paths + ChildPaths(name, items[k..]) == ChildPaths(name, items)
    {
      assert items[k..][1..] == items[k + 1..];
      var nestedPaths := PrefetchPaths(items[k].name, items[k].nested);
      paths := paths + Prefixed(name, nestedPaths);
    }
  }

  // ------------------------------------------------------- the same as component lists

  function Under(name: string, lists: seq<seq<string>>): seq<seq<string>> {
    seq(|lists|, k requires 0 <= k < |lists| => [name] + lists[k])
  }

  function NodeLists(name: string, nested: Tree): seq<seq<string>>
    decreases nested, 1
  {
    if nested.children == [] then [[name]] else Under(name, Lists(nested.children))
  }

  function Lists(items: Entries): seq<seq<string>>
    decreases items, 0
  {
    if items == [] then [] else NodeLists(items[0].name, items[0].nested) + Lists(items[1..])
  }

  function Joined(parts: seq<string>): string {
    if parts == [] then "" else if |parts| == 1 then parts[0] else parts[0] + LOOKUP_SEP + Joined(parts[1..])
  }

  function AllJoined(lists: seq<seq<string>>): seq<string> {
    seq(|lists|, k requires 0 <= k < |lists| => Joined(lists[k]))
  }

  function Split(path: string): seq<string>
    decreases |path|
  {
    var (head, found, tail) := Partition(path, LOOKUP_SEP);
    if found && |tail| < |path| then [head] + Split(tail) else [path]
  }

  lemma {:induction false} ListsAreNotEmpty(items: Entries)
    ensures forall k :: 0 <= k < |Lists(items)| ==> Lists(items)[k] != []
    decreases items
  {
    if items != [] {
      ListsAreNotEmpty(items[1..]);
    }
  }

  lemma {:induction false} ChildPathsJoin(name: string, items: Entries)
    ensures ChildPaths(name, items) == AllJoined(Under(name, Lists(items)))
    decreases items, 0
  {
    if items != [] {
      PathsJoin(items[0].name, items[0].nested);
      ChildPathsJoin(name, items[1..]);
      ListsAreNotEmpty(items);
      var first, rest := NodeLists(items[0].name, items[0].nested), Lists(items[1..]);
      assert Lists(items) == first + rest;
      assert forall k :: 0 <= k < |first| ==> first[k] == Lists(items)[k];
      JoinedUnder(name, first);
      JoiningConcat(name, first, rest);
    }
  }

  lemma JoinedUnder(name: string, lists: seq<seq<string>>)
    requires forall k :: 0 <= k < |lists| ==> lists[k] != []
    ensures AllJoined(Under(name, lists)) == Prefixed(name, AllJoined(lists))
  {
    forall k | 0 <= k < |lists|
      ensures Joined([name] + lists[k]) == name + LOOKUP_SEP + Joined(lists[k])
    {
      assert ([name] + lists[k])[1..] == lists[k];
    }
  }

  lemma JoiningConcat(name: string, a: seq<seq<string>>, b: seq<seq<string>>)
    ensures AllJoined(Under(name, a + b)) == AllJoined(Under(name, a)) + AllJoined(Under(name, b))
  {
    assert Under(name, a + b) == Under(name, a) + Under(name, b);
  }

  lemma {:induction false} PathsJoin(name: string, nested: Tree)
    ensures Paths(name, nested) == AllJoined(NodeLists(name, nested))
    decreases nested, 1
  {
    if nested.children != [] {
      ChildPathsJoin(name, nested.children);
    }
  }

  lemma {:induction false} AllPathsJoin(items: Entries)
    ensures AllPaths(items) == AllJoined(Lists(items))
  {
    if items != [] {
      PathsJoin(items[0].name, items[0].nested);
      AllPathsJoin(items[1..]);
    }
  }

  // ----------------------------------------------------------------- splitting a path

  ghost predicate FieldNames(parts: seq<string>) {
    parts != [] && forall k :: 0 <= k < |parts| ==> FieldName(parts[k])
  }

  lemma NoDoubleUnderscore(head: string, tail: string)
    ensures !FieldName(head + LOOKUP_SEP + tail)
  {
    var name := head + LOOKUP_SEP + tail;
    assert name[|head|] == '_' && name[|head| + 1] == '_';
  }

  lemma {:induction false} JoinedHasNoSeparator(name: string)
    requires FieldName(name)
    ensures Partition(name, LOOKUP_SEP) == (name, false, "")
  {
    var (head, found, tail) := Partition(name, LOOKUP_SEP);
    JoinOfPartition(name, LOOKUP_SEP);
    if found {
      assert name == head + LOOKUP_SEP + tail;
      NoDoubleUnderscore(head, tail);
    }
  }

  lemma {:induction false} SplitOfJoined(parts: seq<string>)
    requires FieldNames(parts)
    ensures Split(Joined(parts)) == parts
  {
    FieldNamesAreSeparable(parts[0]);
    if |parts| == 1 {
      JoinedHasNoSeparator(parts[0]);
    } else {
      PartitionOfJoin(parts[0], LOOKUP_SEP, Joined(parts[1..]));
      SplitOfJoined(parts[1..]);
    }
  }

  // --------------------------------------------------------------- merging them again

  function Position(items: Entries, name: string): nat
    ensures Position(items, name) <= |items|
    ensures Position(items, name) < |items| ==> items[Position(items, name)].name == name
  {
    if items == [] then 0 else if items[0].name == name then 0 else 1 + Position(items[1..], name)
  }

  /** `nested.setdefault(part, {})` along one path. */
  function Merged(items: Entries, parts: seq<string>): Entries
    decreases |parts|
  {
    if parts == [] then items
    else
      var k := Position(items, parts[0]);
      if k < |items| then items[k := Entry(parts[0], Tree(Merged(items[k].nested.children, parts[1..])))]
      else items + [Entry(parts[0], Tree(Merged([], parts[1..])))]
  }

  function MergedAll(items: Entries, lists: seq<seq<string>>): Entries
    decreases |lists|
  {
    if lists == [] then items else MergedAll(Merged(items, lists[0]), lists[1..])
  }

  ghost predicate Lacks(items: Entries, name: string) { forall k :: 0 <= k < |items| ==> items[k].name != name }

  lemma {:induction false} PositionOfLast(items: Entries, name: string, rest: Entries)
    requires Lacks(items, name)
    ensures Position(items, name) == |items|
    ensures rest != [] && rest[0].name == name ==> Position(items + rest, name) == |items|
  {
    if items == [] {
      assert items + rest == rest;
    } else {
      assert forall k :: 0 <= k < |items| - 1 ==> items[1..][k] == items[k + 1];
      PositionOfLast(items[1..], name, rest);
      assert (items + rest)[1..] == items[1..] + rest;
    }
  }

  lemma {:induction false} MergedAllSplits(items: Entries, a: seq<seq<string>>, b: seq<seq<string>>)
    ensures MergedAll(items, a + b) == MergedAll(MergedAll(items, a), b)
    decreases |a|
  {
    if a == [] {
      assert a + b == b;
    } else {
      assert (a + b)[0] == a[0] && (a + b)[1..] == a[1..] + b;
      MergedAllSplits(Merged(items, a[0]), a[1..], b);
    }
  }

  /** Paths below one entry only ever change what hangs under it. */
  lemma {:induction false} MergingUnder(items: Entries, name: string, below: Entries, lists: seq<seq<string>>)
    requires Lacks(items, name)
    ensures MergedAll(items + [Entry(name, Tree(below))], Under(name, lists)) == items + [Entry(name, Tree(MergedAll(below, lists)))]
    decreases |lists|
  {
    if lists != [] {
      var here := items + [Entry(name, Tree(below))];
      var path := [name] + lists[0];
      PositionOfLast(items, name, [Entry(name, Tree(below))]);
      assert path[1..] == lists[0];
      assert Merged(here, path) == items + [Entry(name, Tree(Merged(below, lists[0])))];
      assert Under(name, lists)[0] == path && Under(name, lists)[1..] == Under(name, lists[1..]);
      MergingUnder(items, name, Merged(below, lists[0]), lists[1..]);
    }
  }

  /** Names are field names, and no dictionary has a key twice. */
  ghost predicate WellFormed(items: Entries)
    decreases Size(items)
  {
    if items == [] then true
    else
      SizeSplits(items);
      && FieldName(items[0].name) && Lacks(items[1..], items[0].name)
      && WellFormed(items[0].nested.children) && WellFormed(items[1..])
  }

  lemma MovingOne(done: Entries, items: Entries)
    requires items != []
    ensures (done + [items[0]]) + items[1..] == done + items
  {
  }

  lemma LacksLater(items: Entries, done: Entries)
    requires items != [] && WellFormed(items) && forall k :: 0 <= k < |items| ==> Lacks(done, items[k].name)
    ensures forall k :: 0 <= k < |items[1..]| ==> Lacks(done + [items[0]], items[1..][k].name)
  {
    forall k | 0 <= k < |items[1..]| ensures Lacks(done + [items[0]], items[1..][k].name) {
      assert items[1..][k] == items[k + 1];
    }
  }

  lemma {:induction false} MergingRebuilds(items: Entries, done: Entries)
    requires WellFormed(items) && forall k :: 0 <= k < |items| ==> Lacks(done, items[k].name)
    ensures MergedAll(done, Lists(items)) == done + items
    decreases Size(items)
  {
    if items != [] {
      var name, sub, rest := items[0].name, items[0].nested, items[1..];
      var with := done + [items[0]];
      SizeSplits(items);
      LacksLater(items, done);
      MovingOne(done, items);
      assert WellFormed(sub.children) && WellFormed(rest) && Lacks(done, name);
      assert forall k :: 0 <= k < |sub.children| ==> Lacks([], sub.children[k].name);
      assert Lists(items) == NodeLists(name, sub) + Lists(rest);
      assert sub.children == [] ==> MergedAll([], Lists(sub.children)) == [];
      assert [] + sub.children == sub.children;
      hide *;
      if sub.children != [] {
        MergingRebuilds(sub.children, []);
      }
      MergingOne(done, name, sub);
      assert items[0] == Entry(name, sub);
      MergedAllSplits(done, NodeLists(name, sub), Lists(rest));
      MergingRebuilds(rest, with);
    }
  }

  /** The lists of one entry rebuild it, once the lists below it are known to rebuild what is below. */
  lemma MergingOne(done: Entries, name: string, sub: Tree)
    requires Lacks(done, name) && MergedAll([], Lists(sub.children)) == sub.children
    ensures MergedAll(done, NodeLists(name, sub)) == done + [Entry(name, sub)]
  {
    PositionOfLast(done, name, []);
    if sub.children == [] {
      assert [[name]][1..] == [] && [name][1..] == [];
      assert MergedAll(done, [[name]]) == MergedAll(Merged(done, [name]), []) == done + [Entry(name, Tree([]))];
    } else {
      MergingUnder(done, name, [], Lists(sub.children));
      ListsAreNotEmpty(sub.children);
      var lists := Under(name, Lists(sub.children));
      assert |lists| > 0 by { SomeListUnder(sub.children); }
      PositionOfLast(done, name, [Entry(name, Tree([]))]);
      assert Merged(done, lists[0]) == Merged(done + [Entry(name, Tree([]))], lists[0]);
      assert MergedAll(done, lists) == MergedAll(done + [Entry(name, Tree([]))], lists);
    }
  }

  lemma {:induction false} SomeListUnder(items: Entries)
    requires items != []
    ensures |Lists(items)| > 0
    decreases Size(items)
  {
    if items[0].nested.children != [] { SizeSplits(items); SomeListUnder(items[0].nested.children); }
  }

  lemma {:induction false} ListsAreFieldNames(items: Entries)
    requires WellFormed(items)
    ensures forall k :: 0 <= k < |Lists(items)| ==> FieldNames(Lists(items)[k])
    decreases Size(items)
  {
    if items != [] {
      var name, sub := items[0].name, items[0].nested;
      SizeSplits(items);
      ListsAreFieldNames(items[1..]);
      ListsAreFieldNames(sub.children);
      var first, rest := NodeLists(name, sub), Lists(items[1..]);
      assert Lists(items) == first + rest;
      forall k | 0 <= k < |Lists(items)|
        ensures FieldNames(Lists(items)[k])
      {
        if k < |first| {
          assert Lists(items)[k] == first[k];
          if sub.children != [] { assert first[k] == [name] + Lists(sub.children)[k]; }
        } else {
          assert Lists(items)[k] == rest[k - |first|];
        }
      }
    }
  }

  function AllSplit(paths: seq<string>): seq<seq<string>> {
    seq(|paths|, k requires 0 <= k < |paths| => Split(paths[k]))
  }

  /** The round trip: splitting the produced lookups and merging them rebuilds the tree, in order. */
  lemma PathsRebuildTheTree(items: Entries)
    requires WellFormed(items)
    ensures MergedAll([], AllSplit(AllPaths(items))) == items
  {
    AllPathsJoin(items);
    ListsAreFieldNames(items);
    forall k | 0 <= k < |Lists(items)|
      ensures AllSplit(AllPaths(items))[k] == Lists(items)[k]
    {
      SplitOfJoined(Lists(items)[k]);
    }
    assert AllSplit(AllPaths(items)) == Lists(items);
    MergingRebuilds(items, []);
    assert [] + items == items;
  }

  /** `parts` leads from the root to a node of the tree. */
  ghost predicate IsNode(items: Entries, parts: seq<string>)
    decreases |parts|
  {
    parts != [] && exists k :: 0 <= k < |items| && items[k].name == parts[0] && (|parts| == 1 || IsNode(items[k].nested.children, parts[1..]))
  }

  ghost predicate LeadsOn(lists: seq<seq<string>>, parts: seq<string>) {
    exists k :: 0 <= k < |lists| && parts <= lists[k]
  }

  lemma {:induction false} NodeListsCover(name: string, nested: Tree, parts: seq<string>)
    requires parts != []
    ensures LeadsOn(NodeLists(name, nested), parts) <==>
              parts[0] == name && (|parts| == 1 || IsNode(nested.children, parts[1..]))
    decreases TreeSize(nested), 1
  {
    var lists := NodeLists(name, nested);
    if nested.children == [] {
      if |parts| == 1 && parts[0] == name { assert parts <= lists[0]; }
    } else {
      SomeListUnder(nested.children);
      var inner := Lists(nested.children);
      if |parts| > 1 { ListsCoverTheNodes(nested.children, parts[1..]); }
      forall k | 0 <= k < |lists|
        ensures parts <= lists[k] <==> parts[0] == name && parts[1..] <= inner[k]
      {
        assert lists[k] == [name] + inner[k] && parts == [parts[0]] + parts[1..];
        if parts <= lists[k] { assert lists[k][1..] == inner[k]; }
      }
      if |parts| == 1 { assert parts[1..] <= inner[0]; }
    }
  }

  /** Naming the leaves is enough: the prefixes of the lookups are exactly the nodes of the tree. */
  lemma {:induction false} ListsCoverTheNodes(items: Entries, parts: seq<string>)
    requires parts != []
    ensures LeadsOn(Lists(items), parts) <==> IsNode(items, parts)
    decreases Size(items), 2
  {
    if items != [] {
      var first, rest := NodeLists(items[0].name, items[0].nested), Lists(items[1..]);
      NodeListsCover(items[0].name, items[0].nested, parts);
      ListsCoverTheNodes(items[1..], parts);
      assert Lists(items) == first + rest;
      if LeadsOn(first, parts) {
        var k :| 0 <= k < |first| && parts <= first[k];
        assert Lists(items)[k] == first[k];
      }
      if LeadsOn(rest, parts) {
        var k :| 0 <= k < |rest| && parts <= rest[k];
        assert Lists(items)[|first| + k] == rest[k];
      }
      if IsNode(items[1..], parts) {
        var k :| 0 <= k < |items[1..]| && items[1..][k].name == parts[0] && (|parts| == 1 || IsNode(items[1..][k].nested.children, parts[1..]));
        assert items[k + 1] == items[1..][k];
      }
      if IsNode(items, parts) {
        var k :| 0 <= k < |items| && items[k].name == parts[0] && (|parts| == 1 || IsNode(items[k].nested.children, parts[1..]));
        if k > 0 { assert items[1..][k - 1] == items[k]; }
      }
    }
  }
}
