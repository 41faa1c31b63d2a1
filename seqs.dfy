/** Filtering and counting over sequences: the `QuerySet.filter(...)`, `.exists()` and `.count()`
    of the ORM, applied to a table held as a sequence of rows. */
module Seqs {

  /** The elements of `s` that satisfy `p`, in their original order. */
  function Where<T>(s: seq<T>, p: T -> bool): (r: seq<T>)
    ensures |r| <= |s|
    ensures forall i :: 0 <= i < |r| ==> r[i] in s && p(r[i])
    ensures forall i :: 0 <= i < |s| && p(s[i]) ==> s[i] in r
  {
    if |s| == 0 then [] else (if p(s[0]) then [s[0]] else []) + Where(s[1..], p)
  }

  /** Whether some element of `s` satisfies `p` (`.exists()`). */
  predicate Any<T>(s: seq<T>, p: T -> bool) {
    exists i :: 0 <= i < |s| && p(s[i])
  }

  /** Filtering keeps an element exactly when it satisfies the predicate, so a filter that keeps
      nothing means no element satisfied it. */
  lemma {:induction false} WhereEmptyIffNone<T>(s: seq<T>, p: T -> bool)
    ensures Where(s, p) == [] <==> !Any(s, p)
  {
    if |s| > 0 {
      WhereEmptyIffNone(s[1..], p);
      if !p(s[0]) {
        assert forall i :: 0 < i < |s| ==> s[i] == s[1..][i - 1];
        assert Any(s, p) ==> Any(s[1..], p);
      }
    }
  }

  /** Filtering distributes over concatenation. */
  lemma {:induction false} WhereAppend<T>(a: seq<T>, b: seq<T>, p: T -> bool)
    ensures Where(a + b, p) == Where(a, p) + Where(b, p)
  {
    if |a| == 0 {
      assert a + b == b;
    } else {
      assert (a + b)[0] == a[0];
      assert (a + b)[1..] == a[1..] + b;
      WhereAppend(a[1..], b, p);
    }
  }

  /** Filtering twice is filtering once by the conjunction: a chain of `.filter(...)` calls
      keeps exactly the rows that pass every filter. */
  lemma {:induction false} WhereWhere<T>(s: seq<T>, p: T -> bool, q: T -> bool, pq: T -> bool)
    requires forall x :: pq(x) == (p(x) && q(x))
    ensures Where(Where(s, p), q) == Where(s, pq)
  {
    if |s| > 0 {
      WhereWhere(s[1..], p, q, pq);
      var head := if p(s[0]) then [s[0]] else [];
      WhereAppend(head, Where(s[1..], p), q);
    }
  }

  /** A filter whose predicate holds everywhere keeps the sequence as it is. */
  lemma {:induction false} WhereAll<T>(s: seq<T>, p: T -> bool)
    requires forall x :: x in s ==> p(x)
    ensures Where(s, p) == s
  {
    if |s| > 0 {
      assert s[0] in s;
      assert forall i :: 0 <= i < |s[1..]| ==> s[1..][i] == s[i + 1];
      WhereAll(s[1..], p);
      assert s == [s[0]] + s[1..];
    }
  }

  /** Applies `f` to every element, preserving order (`list(map(f, s))`). */
  function MapSeq<T, U>(f: T -> U, s: seq<T>): (r: seq<U>)
    ensures |r| == |s|
    ensures forall i :: 0 <= i < |s| ==> r[i] == f(s[i])
  {
    if |s| == 0 then [] else [f(s[0])] + MapSeq(f, s[1..])
  }

  /** Filters with pointwise-equal predicates keep the same elements. */
  lemma {:induction false} WhereSame<T>(s: seq<T>, p: T -> bool, q: T -> bool)
    requires forall x :: p(x) == q(x)
    ensures Where(s, p) == Where(s, q)
  {
    if |s| > 0 {
      WhereSame(s[1..], p, q);
    }
  }

  /** Replacing the tail of a prefix by a prefix of that tail keeps it a prefix. */
  lemma PrefixAppend<T>(a: seq<T>, b: seq<T>, c: seq<T>, e: seq<T>, d: seq<T>)
    requires b <= c && e == a + c && e <= d
    ensures a + b <= d
  {
    assert (a + c)[..|a + b|] == a + b;
  }
}
