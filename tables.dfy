/** A table as the repositories see it: rows in primary-key order, keys
    handed out by auto-increment, and `UPDATE .. WHERE` over sequences. */
module Tables {
  import opened Common
  import opened Collections

  /** Keys strictly increase along the table, so no key repeats. */
  ghost predicate Ascending<T>(rows: seq<T>, key: T -> nat)
  {
    forall i, j :: 0 <= i < j < |rows| ==> key(rows[i]) < key(rows[j])
  }

  /** Rows are in key order, and every key is positive and below `next`,
      the key auto-increment hands out next. */
  ghost predicate KeyOrdered<T>(rows: seq<T>, key: T -> nat, next: nat)
  {
    && Ascending(rows, key)
    && forall i :: 0 <= i < |rows| ==> 1 <= key(rows[i]) < next
  }

  /** An auto-increment insert keeps the table in key order. */
  lemma AppendKeyOrdered<T>(rows: seq<T>, key: T -> nat, next: nat, row: T)
    requires KeyOrdered(rows, key, next) && next >= 1 && key(row) == next
    ensures KeyOrdered(rows + [row], key, next + 1)
  {
    var r := rows + [row];
    forall i, j | 0 <= i < j < |r| ensures key(r[i]) < key(r[j]) {
      if j < |rows| {
        assert r[i] == rows[i] && r[j] == rows[j];
      } else {
        assert r[i] == rows[i];
      }
    }
  }

  /** Deleting rows keeps the rest in key order. */
  lemma {:induction false} FilterAscending<T(!new)>(rows: seq<T>, key: T -> nat, p: T -> bool)
    requires Ascending(rows, key)
    ensures Ascending(Filter(rows, p), key)
  {
    if rows != [] {
      var tail := Filter(rows[1..], p);
      FilterAscending(rows[1..], key, p);
      FirstBelowRest(rows, key, tail);
      PrependAscending(rows[0], tail, key);
    }
  }

  lemma FirstBelowRest<T>(rows: seq<T>, key: T -> nat, tail: seq<T>)
    requires Ascending(rows, key) && |rows| >= 1
    requires forall x :: x in tail ==> x in rows[1..]
    ensures forall k :: 0 <= k < |tail| ==> key(rows[0]) < key(tail[k])
  {
    forall k | 0 <= k < |tail| ensures key(rows[0]) < key(tail[k]) {
      assert tail[k] in rows[1..];
      var m :| 0 <= m < |rows[1..]| && rows[1..][m] == tail[k];
      assert rows[m + 1] == tail[k];
    }
  }

  lemma PrependAscending<T>(x: T, tail: seq<T>, key: T -> nat)
    requires Ascending(tail, key)
    requires forall k :: 0 <= k < |tail| ==> key(x) < key(tail[k])
    ensures Ascending([x] + tail, key)
  {
    var r := [x] + tail;
    forall i, j | 0 <= i < j < |r| ensures key(r[i]) < key(r[j]) {
      assert r[j] == tail[j - 1];
      if i > 0 {
        assert r[i] == tail[i - 1];
      }
    }
  }

  lemma FilterKeyOrdered<T(!new)>(rows: seq<T>, key: T -> nat, next: nat, p: T -> bool)
    requires KeyOrdered(rows, key, next)
    ensures KeyOrdered(Filter(rows, p), key, next)
  {
    FilterAscending(rows, key, p);
    var r := Filter(rows, p);
    forall i | 0 <= i < |r| ensures 1 <= key(r[i]) < next {
      assert r[i] in rows;
    }
  }

  const DuplicateHead: string := "Error 1062 (23000): Duplicate entry '"
  const DuplicateMid: string := "' for key '"

  /** The text of MySQL error 1062, a unique index refusing a second row:
      the refused value, quoted, then the index's name, quoted. */
  function DuplicateEntry(value: string, key: string): (r: string)
    ensures |r| == |DuplicateHead| + |value| + |DuplicateMid| + |key| + 1
    ensures r[..|DuplicateHead|] == DuplicateHead
    ensures r[|DuplicateHead|..|DuplicateHead| + |value|] == value
    ensures r[|DuplicateHead| + |value|..|DuplicateHead| + |value| + |DuplicateMid|] == DuplicateMid
    ensures r[|r| - |key| - 1..|r| - 1] == key
  {
    DuplicateHead + value + DuplicateMid + key + "'"
  }

  /** For one index, the error text names the refused value: two values
      give the same text only when they are the same. */
  lemma DuplicateEntryNamesValue(v1: string, v2: string, key: string)
    requires DuplicateEntry(v1, key) == DuplicateEntry(v2, key)
    ensures v1 == v2
  {
    var t := DuplicateEntry(v1, key);
    assert |v1| == |v2|;
    assert v1 == t[|DuplicateHead|..|DuplicateHead| + |v1|] == v2;
  }

  /** UPDATE .. SET .. WHERE p: `f` applied to the matching rows, the others
      kept, the order unchanged. */
  function UpdateWhere<T>(rows: seq<T>, p: T -> bool, f: T -> T): (r: seq<T>)
    ensures |r| == |rows|
    ensures forall i :: 0 <= i < |rows| ==> r[i] == if p(rows[i]) then f(rows[i]) else rows[i]
  {
    seq(|rows|, i requires 0 <= i < |rows| => if p(rows[i]) then f(rows[i]) else rows[i])
  }

  /** An update that leaves keys alone keeps the table in key order. */
  lemma UpdateKeyOrdered<T>(rows: seq<T>, key: T -> nat, next: nat, p: T -> bool, f: T -> T)
    requires KeyOrdered(rows, key, next)
    requires forall x :: key(f(x)) == key(x)
    ensures KeyOrdered(UpdateWhere(rows, p, f), key, next)
  {
  }

  /** Two rows of a key-ordered table with the same key are the same row. */
  lemma KeyDetermines<T>(rows: seq<T>, key: T -> nat, i: int, j: int)
    requires Ascending(rows, key)
    requires 0 <= i < |rows| && 0 <= j < |rows| && key(rows[i]) == key(rows[j])
    ensures i == j
  {
  }

  /** An update that matches no row changes nothing. */
  lemma UpdateWhereNoMatch<T>(rows: seq<T>, p: T -> bool, f: T -> T)
    requires forall i :: 0 <= i < |rows| ==> !p(rows[i])
    ensures UpdateWhere(rows, p, f) == rows
  {
  }

  /** Reading back by the updated condition finds the updated row. */
  lemma {:induction false} FirstAfterUpdate<T(!new)>(rows: seq<T>, p: T -> bool, f: T -> T)
    requires forall x :: p(f(x)) == p(x)
    ensures First(rows, p).Err? ==> First(UpdateWhere(rows, p, f), p) == First(rows, p)
    ensures First(rows, p).Ok? ==> First(UpdateWhere(rows, p, f), p) == Ok(f(First(rows, p).value))
  {
    if rows != [] {
      var u := UpdateWhere(rows, p, f);
      assert u[1..] == UpdateWhere(rows[1..], p, f);
      FirstAfterUpdate(rows[1..], p, f);
    }
  }

  /** Deleting by the key just handed out undoes the insert. */
  lemma DeleteNewest<T(!new)>(rows: seq<T>, key: T -> nat, next: nat, row: T, p: T -> bool)
    requires KeyOrdered(rows, key, next) && key(row) == next
    requires forall x :: p(x) <==> key(x) != next
    ensures Filter(rows + [row], p) == rows
  {
    FilterAppend(rows, [row], p);
    FilterKeepsAll(rows, p);
    assert Filter([row], p) == [];
  }
}
