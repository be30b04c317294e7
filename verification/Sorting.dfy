/** `sorted(items, key=...)`: a stable sort, and why it undoes any permutation when keys differ. */
module Sorting {
  // `x` goes behind every item whose key is not larger, as a stable sort of a prefix needs.
  function Insert<T>(key: T -> nat, x: T, s: seq<T>): seq<T> {
    if s == [] || key(s[|s| - 1]) <= key(x) then s + [x]
    else Insert(key, x, s[..|s| - 1]) + [s[|s| - 1]]
  }

  function SortBy<T>(key: T -> nat, s: seq<T>): seq<T> {
    if s == [] then [] else Insert(key, s[|s| - 1], SortBy(key, s[..|s| - 1]))
  }

  ghost predicate Ascending<T>(key: T -> nat, s: seq<T>) {
    forall i, j :: 0 <= i < j < |s| ==> key(s[i]) <= key(s[j])
  }

  ghost predicate StrictlyAscending<T>(key: T -> nat, s: seq<T>) {
    forall i, j :: 0 <= i < j < |s| ==> key(s[i]) < key(s[j])
  }

  lemma {:induction false} InsertSorts<T>(key: T -> nat, x: T, s: seq<T>)
    requires Ascending(key, s)
    ensures Ascending(key, Insert(key, x, s))
    ensures multiset(Insert(key, x, s)) == multiset(s) + multiset{x}
  {
    if s != [] {
      var front, last := s[..|s| - 1], s[|s| - 1];
      assert s == front + [last];
      if key(last) > key(x) {
        FrontAscends(key, front, last);
        InsertSorts(key, x, front);
        AppendLargest(key, Insert(key, x, front), multiset(front) + multiset{x}, last);
      }
    }
  }

  lemma FrontAscends<T>(key: T -> nat, front: seq<T>, last: T)
    requires Ascending(key, front + [last])
    ensures Ascending(key, front)
    ensures forall x :: x in multiset(front) ==> key(x) <= key(last)
  {
    var s := front + [last];
    assert s[|front|] == last && forall i :: 0 <= i < |front| ==> s[i] == front[i];
  }

  lemma AppendLargest<T>(key: T -> nat, t: seq<T>, items: multiset<T>, last: T)
    requires Ascending(key, t) && multiset(t) == items && forall x :: x in items ==> key(x) <= key(last)
    ensures Ascending(key, t + [last])
  {
    forall i | 0 <= i < |t|
      ensures key(t[i]) <= key(last)
    {
      assert t[i] in multiset(t);
    }
  }

  /** The sort returns its items, in ascending key order. */
  lemma {:induction false} SortBySorts<T>(key: T -> nat, s: seq<T>)
    ensures Ascending(key, SortBy(key, s))
    ensures multiset(SortBy(key, s)) == multiset(s)
    ensures |SortBy(key, s)| == |s|
  {
    if s != [] {
      var front, last := s[..|s| - 1], s[|s| - 1];
      assert s == front + [last];
      SortBySorts(key, front);
      InsertSorts(key, last, SortBy(key, front));
    }
    assert |multiset(SortBy(key, s))| == |multiset(s)|;
  }

  lemma {:induction false} AscendingUnique<T>(key: T -> nat, s: seq<T>, t: seq<T>)
    requires Ascending(key, s) && StrictlyAscending(key, t) && multiset(s) == multiset(t)
    ensures s == t
  {
    SameSize(s, t);
    if s != [] {
      var n := |s| - 1;
      SameLast(key, s, t);
      DropLast(s);
      FrontAscends(key, s[..n], s[n]);
      FrontStrict(key, t);
      DropLast(t);
      hide Ascending, StrictlyAscending;
      AscendingUnique(key, s[..n], t[..n]);
    }
  }

  lemma SameSize<T>(s: seq<T>, t: seq<T>)
    requires multiset(s) == multiset(t)
    ensures |s| == |t|
  {
    assert |multiset(s)| == |multiset(t)|;
  }

  lemma DropLast<T>(s: seq<T>)
    requires s != []
    ensures s == s[..|s| - 1] + [s[|s| - 1]]
    ensures multiset(s[..|s| - 1]) == multiset(s) - multiset{s[|s| - 1]}
  {
    assert s == s[..|s| - 1] + [s[|s| - 1]];
  }

  lemma FrontStrict<T>(key: T -> nat, t: seq<T>)
    requires StrictlyAscending(key, t) && t != []
    ensures StrictlyAscending(key, t[..|t| - 1])
  {
  }

  // Both end in the one item with the largest key.
  lemma SameLast<T>(key: T -> nat, s: seq<T>, t: seq<T>)
    requires Ascending(key, s) && StrictlyAscending(key, t) && multiset(s) == multiset(t) && |s| == |t| > 0
    ensures s[|s| - 1] == t[|t| - 1]
  {
    var n := |s| - 1;
    assert s[n] in multiset(t) && t[n] in multiset(s);
    var i :| 0 <= i <= n && t[i] == s[n];
    var j :| 0 <= j <= n && s[j] == t[n];
    assert key(s[j]) <= key(s[n]);
  }

  /** Sorting any permutation of a strictly ascending sequence gives that sequence back. */
  lemma SortUndoesPermutation<T>(key: T -> nat, s: seq<T>, t: seq<T>)
    requires StrictlyAscending(key, t) && multiset(s) == multiset(t)
    ensures SortBy(key, s) == t
  {
    SortBySorts(key, s);
    AscendingUnique(key, SortBy(key, s), t);
  }
}
