/** What querysets do to rows of any kind: `first()` and `distinct()`. */
module Rows {
  type Pk = nat

  /** `first()` on a queryset without an order of its own: the row of least primary key. */
  function Least(pks: set<Pk>): (least: Pk)
    requires pks != {}
    ensures least in pks && forall p :: p in pks ==> least <= p
  {
    var some :| some in pks;
    LeastExists(pks, some);
    var least :| least in pks && forall p :: p in pks ==> least <= p;
    least
  }

  lemma {:induction false} LeastExists(pks: set<Pk>, some: Pk)
    requires some in pks
    ensures exists least :: least in pks && forall p :: p in pks ==> least <= p
    decreases some
  {
    if p :| p in pks && p < some {
      LeastExists(pks, p);
    } else {
      assert some in pks && forall p :: p in pks ==> some <= p;
    }
  }

  ghost predicate Distinct<T>(rows: seq<T>) { forall i, j :: 0 <= i < j < |rows| ==> rows[i] != rows[j] }

  /** SELECT DISTINCT. */
  function Deduplicated<T(==)>(rows: seq<T>): seq<T>
    decreases |rows|
  {
    if rows == [] then []
    else
      var front, last := Deduplicated(rows[..|rows| - 1]), rows[|rows| - 1];
      if last in front then front else front + [last]
  }

  lemma {:induction false} DeduplicatedMembers<T>(rows: seq<T>)
    ensures forall q :: q in Deduplicated(rows) <==> q in rows
    decreases |rows|
  {
    if rows != [] {
      DeduplicatedMembers(rows[..|rows| - 1]);
      assert rows == rows[..|rows| - 1] + [rows[|rows| - 1]];
    }
  }

  /** Deduplicating block by block, when no row of a later block occurs in an earlier one. */
  lemma {:induction false} DeduplicatedBlocks<T>(a: seq<T>, b: seq<T>)
    requires forall q :: q in b ==> q !in a
    ensures Deduplicated(a + b) == Deduplicated(a) + Deduplicated(b)
    decreases |b|
  {
    if b == [] {
      assert a + b == a;
    } else {
      var front := b[..|b| - 1];
      assert (a + b)[..|a + b| - 1] == a + front && forall q :: q in front ==> q in b;
      DeduplicatedBlocks(a, front);
      DeduplicatedMembers(a);
    }
  }

  lemma {:induction false} DeduplicatedRepeats<T>(row: T, rows: seq<T>)
    requires forall q :: q in rows ==> q == row
    ensures Deduplicated(rows) == if rows == [] then [] else [row]
    decreases |rows|
  {
    if rows != [] {
      var front := rows[..|rows| - 1];
      assert rows == front + [rows[|rows| - 1]];
      assert forall q :: q in front ==> q in rows;
      DeduplicatedRepeats(row, front);
      assert rows[|rows| - 1] in rows;
    }
  }
}
