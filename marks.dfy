/** Tables of marks a user sets once and clears entirely: a bookmark of a commodity, a like
    or a bookmark of an article. The handlers refuse to add a mark whose key is already
    present and to clear one that is absent; clearing deletes every row with the key. */
module Marks {
  import opened Seqs

  /** Whether some row has key `k` (`filter(...).exists()`). */
  predicate Marked<T, K(==)>(rows: seq<T>, key: T -> K, k: K) {
    Any(rows, (x: T) => key(x) == k)
  }

  /** The rows left after `filter(...).delete()` for key `k`. */
  function Unmark<T, K(==)>(rows: seq<T>, key: T -> K, k: K): seq<T> {
    Where(rows, (x: T) => key(x) != k)
  }

  /** The rows with key `k`. */
  function WithKey<T, K(==)>(rows: seq<T>, key: T -> K, k: K): seq<T> {
    Where(rows, (x: T) => key(x) == k)
  }

  /** No two rows share a key. */
  predicate UniqueKeys<T, K(==)>(rows: seq<T>, key: T -> K) {
    forall i, j :: 0 <= i < j < |rows| ==> key(rows[i]) != key(rows[j])
  }

  /** Adding a row makes its key marked. */
  lemma MarkSets<T, K>(rows: seq<T>, key: T -> K, row: T)
    ensures Marked(rows + [row], key, key(row))
  {
    assert (rows + [row])[|rows|] == row;
  }

  /** Clearing a key leaves no row with it and keeps every row with another key, in order. */
  lemma {:induction false} UnmarkClears<T, K>(rows: seq<T>, key: T -> K, k: K)
    ensures !Marked(Unmark(rows, key, k), key, k)
    ensures forall k' :: k' != k ==> (Marked(Unmark(rows, key, k), key, k') <==> Marked(rows, key, k'))
  {
    var u := Unmark(rows, key, k);
    forall k' | k' != k
      ensures Marked(u, key, k') <==> Marked(rows, key, k')
    {
      if Marked(rows, key, k') {
        var i :| 0 <= i < |rows| && key(rows[i]) == k';
        assert rows[i] in u;
      }
    }
  }

  /** Adding an unmarked key and clearing it again restores the table exactly. */
  lemma MarkThenUnmark<T, K>(rows: seq<T>, key: T -> K, row: T)
    requires !Marked(rows, key, key(row))
    ensures Unmark(rows + [row], key, key(row)) == rows
  {
    var p := (x: T) => key(x) != key(row);
    WhereAppend(rows, [row], p);
    WhereAll(rows, p);
  }

  /** Adding only unmarked keys keeps keys unique. */
  lemma MarkKeepsUnique<T, K>(rows: seq<T>, key: T -> K, row: T)
    requires UniqueKeys(rows, key) && !Marked(rows, key, key(row))
    ensures UniqueKeys(rows + [row], key)
  {
    assert forall i :: 0 <= i < |rows| ==> (rows + [row])[i] == rows[i];
  }

  /** Clearing keeps keys unique: what is left is a subsequence. */
  lemma {:induction false} UnmarkKeepsUnique<T, K>(rows: seq<T>, key: T -> K, k: K)
    requires UniqueKeys(rows, key)
    ensures UniqueKeys(Unmark(rows, key, k), key)
  {
    if |rows| > 0 {
      var tail := rows[1..];
      assert UniqueKeys(tail, key) by {
        assert forall i :: 0 <= i < |tail| ==> tail[i] == rows[i + 1];
      }
      UnmarkKeepsUnique(tail, key, k);
      var ut := Unmark(tail, key, k);
      if key(rows[0]) != k {
        assert forall i :: 0 <= i < |ut| ==> ut[i] in tail;
        forall i | 0 <= i < |ut|
          ensures key(ut[i]) != key(rows[0])
        {
          var j :| 0 <= j < |tail| && tail[j] == ut[i];
          assert rows[j + 1] == ut[i];
        }
        assert Unmark(rows, key, k) == [rows[0]] + ut;
      }
    }
  }

  /** With unique keys a key is held by at most one row, and by one exactly when it is marked. */
  lemma {:induction false} UniqueKeyCount<T, K>(rows: seq<T>, key: T -> K, k: K)
    requires UniqueKeys(rows, key)
    ensures |WithKey(rows, key, k)| <= 1
    ensures |WithKey(rows, key, k)| == 1 <==> Marked(rows, key, k)
  {
    WhereEmptyIffNone(rows, (x: T) => key(x) == k);
    if |rows| > 0 {
      var tail := rows[1..];
      assert UniqueKeys(tail, key) by {
        assert forall i :: 0 <= i < |tail| ==> tail[i] == rows[i + 1];
      }
      UniqueKeyCount(tail, key, k);
      WhereEmptyIffNone(tail, (x: T) => key(x) == k);
      if key(rows[0]) == k {
        assert forall i :: 0 <= i < |tail| ==> key(tail[i]) != k by {
          assert forall i :: 0 <= i < |tail| ==> tail[i] == rows[i + 1];
        }
      }
    }
  }

  /** Adding a row adds one to every count that includes it and leaves the others. */
  lemma MarkCount<T>(rows: seq<T>, row: T, p: T -> bool)
    ensures |Where(rows + [row], p)| == |Where(rows, p)| + (if p(row) then 1 else 0)
  {
    WhereAppend(rows, [row], p);
  }

  /** With unique keys, clearing a marked key removes exactly one row from every count that
      includes the rows with that key. */
  lemma {:induction false} UnmarkCount<T, K>(rows: seq<T>, key: T -> K, k: K, p: T -> bool)
    requires UniqueKeys(rows, key) && Marked(rows, key, k)
    requires forall x :: key(x) == k ==> p(x)
    ensures |Where(Unmark(rows, key, k), p)| == |Where(rows, p)| - 1
  {
    var x := rows[0];
    var tail := rows[1..];
    if key(x) == k {
      UnmarkFirst(rows, key, k);
      assert Where(rows, p) == [x] + Where(tail, p);
    } else {
      var i :| 0 <= i < |rows| && key(rows[i]) == k;
      assert tail[i - 1] == rows[i];
      assert UniqueKeys(tail, key) by {
        assert forall i :: 0 <= i < |tail| ==> tail[i] == rows[i + 1];
      }
      UnmarkCount(tail, key, k, p);
      var u := Unmark(tail, key, k);
      assert Unmark(rows, key, k) == [x] + u;
      assert ([x] + u)[1..] == u;
    }
  }

  /** With unique keys, clearing the key of the first row removes just that row. */
  lemma UnmarkFirst<T, K>(rows: seq<T>, key: T -> K, k: K)
    requires UniqueKeys(rows, key) && |rows| > 0 && key(rows[0]) == k
    ensures Unmark(rows, key, k) == rows[1..]
  {
    var tail := rows[1..];
    assert forall i :: 0 <= i < |tail| ==> tail[i] == rows[i + 1];
    assert forall y :: y in tail ==> key(y) != k;
    WhereAll(tail, (y: T) => key(y) != k);
    assert Unmark(rows, key, k) == Where(tail, (y: T) => key(y) != k);
  }

  /** Clearing a key leaves every count that excludes the rows with that key unchanged. */
  lemma {:induction false} UnmarkCountOthers<T, K>(rows: seq<T>, key: T -> K, k: K, p: T -> bool)
    requires forall x :: key(x) == k ==> !p(x)
    ensures Where(Unmark(rows, key, k), p) == Where(rows, p)
  {
    WhereWhere(rows, (x: T) => key(x) != k, p, p);
  }
}
