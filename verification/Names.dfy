/** `str.partition`, and the fact every dotted or double-underscored name in the library rests on:
    joining a head that cannot swallow part of the separator, and splitting again, is the identity. */
module Names {

  /** `s.partition(sep)`: what precedes the first `sep`, whether there is one, and what follows it. */
  function Partition(s: string, sep: string): (string, bool, string)
    requires sep != ""
  {
    if |s| < |sep| then (s, false, "")
    else if s[..|sep|] == sep then ("", true, s[|sep|..])
    else
      var (head, found, tail) := Partition(s[1..], sep);
      ([s[0]] + head, found, tail)
  }

  ghost predicate OccursAt(sep: string, s: string, i: nat) {
    i + |sep| <= |s| && s[i..i + |sep|] == sep
  }

  /** `sep` does not begin anywhere inside `head`, not even by running over into the separator. */
  ghost predicate Separable(head: string, sep: string)
  {
    forall i :: 0 <= i < |head| ==> !OccursAt(sep, head + sep, i)
  }

  /** Splitting undoes joining, whatever follows the separator. */
  lemma {:induction false} PartitionOfJoin(head: string, sep: string, tail: string)
    requires sep != "" && Separable(head, sep)
    ensures Partition(head + sep + tail, sep) == (head, true, tail)
  {
    var s := head + sep + tail;
    if head == "" {
      assert s[..|sep|] == sep && s[|sep|..] == tail;
    } else {
      assert !OccursAt(sep, head + sep, 0) && s[..|sep|] == (head + sep)[0..0 + |sep|];
      assert s[1..] == head[1..] + sep + tail;
      SeparableTail(head, sep);
      PartitionOfJoin(head[1..], sep, tail);
      assert [s[0]] + head[1..] == head;
    }
  }

  lemma SeparableTail(head: string, sep: string)
    requires head != "" && Separable(head, sep)
    ensures Separable(head[1..], sep)
  {
    forall i | 0 <= i < |head| - 1
      ensures !OccursAt(sep, head[1..] + sep, i)
    {
      assert !OccursAt(sep, head + sep, i + 1);
      assert (head[1..] + sep)[i..i + |sep|] == (head + sep)[i + 1..i + 1 + |sep|];
    }
  }

  /** Joining undoes splitting: nothing of the string is lost. */
  lemma {:induction false} JoinOfPartition(s: string, sep: string)
    requires sep != ""
    ensures var (head, found, tail) := Partition(s, sep);
            if found then s == head + sep + tail else head == s && tail == ""
  {
    if |s| >= |sep| && s[..|sep|] != sep {
      var c, rest := [s[0]], s[1..];
      assert s == c + rest;
      JoinOfPartition(rest, sep);
      var (head, found, tail) := Partition(rest, sep);
      if found { Regroup(c, head, sep, tail); }
    }
  }

  lemma Regroup(a: string, b: string, c: string, d: string)
    ensures a + (b + c + d) == (a + b) + c + d
  {
  }

  const LOOKUP_SEP := "__"

  /** What Django's field checks ask of a name: not empty, no double underscore, no trailing one. */
  ghost predicate FieldName(name: string)
  {
    && name != ""
    && name[|name| - 1] != '_'
    && forall i :: 0 <= i < |name| - 1 ==> !(name[i] == '_' && name[i + 1] == '_')
  }

  lemma FieldNamesAreSeparable(name: string)
    requires FieldName(name)
    ensures Separable(name, LOOKUP_SEP)
  {
    forall i | 0 <= i < |name|
      ensures !OccursAt(LOOKUP_SEP, name + LOOKUP_SEP, i)
    {
      var piece := (name + LOOKUP_SEP)[i..i + 2];
      assert piece[0] == name[i];
      if i < |name| - 1 {
        assert piece[1] == name[i + 1];
      }
    }
  }

  lemma DotFreeIsSeparable(app: string)
    requires '.' !in app
    ensures Separable(app, ".")
  {
    forall i | 0 <= i < |app|
      ensures !OccursAt(".", app + ".", i)
    {
      assert (app + ".")[i..i + 1][0] == app[i];
    }
  }
}
