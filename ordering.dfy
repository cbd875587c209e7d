/** Ordering rows by a date key, newest first, and keeping the first few:
    `order_by(Appointment.appointment_date.desc())` on the server and
    `[...xs].sort((a, b) => date(b) - date(a)).slice(0, n)` on the client. */
module Ordering {

  predicate SortedDesc<T>(s: seq<T>, key: T -> int)
  {
    forall i, j :: 0 <= i < j < |s| ==> key(s[i]) >= key(s[j])
  }

  /** Puts `x` after every element whose key is at least `key(x)`, so that
      among equal keys the earlier input stays first (a stable insertion). */
  function Insert<T>(s: seq<T>, x: T, key: T -> int): (r: seq<T>)
    requires SortedDesc(s, key)
    ensures multiset(r) == multiset(s) + multiset{x}
    ensures SortedDesc(r, key)
  {
    if s == [] then [x]
    else if key(s[|s| - 1]) >= key(x) then
      SnocSorted(s, x, key);
      s + [x]
    else
      var init, last := s[..|s| - 1], s[|s| - 1];
      InitSorted(s, key);
      var r := Insert(init, x, key);
      InsertStep(init, last, x, r, key);
      r + [last]
  }

  /** Appending an element no larger than the last one keeps the order. */
  lemma SnocSorted<T>(s: seq<T>, x: T, key: T -> int)
    requires SortedDesc(s, key) && s != [] && key(s[|s| - 1]) >= key(x)
    ensures SortedDesc(s + [x], key)
  {
    forall i, j | 0 <= i < j < |s + [x]| ensures key((s + [x])[i]) >= key((s + [x])[j]) {
      if j == |s| {
        assert key(s[i]) >= key(s[|s| - 1]);
      }
    }
  }

  lemma InitSorted<T>(s: seq<T>, key: T -> int)
    requires SortedDesc(s, key) && s != []
    ensures SortedDesc(s[..|s| - 1], key)
    ensures forall y :: y in s[..|s| - 1] ==> key(y) >= key(s[|s| - 1])
    ensures s == s[..|s| - 1] + [s[|s| - 1]]
  {
  }

  /** The recursive case of `Insert`: `x` went into the prefix, `last` stays last. */
  lemma InsertStep<T>(init: seq<T>, last: T, x: T, r: seq<T>, key: T -> int)
    requires SortedDesc(r, key) && multiset(r) == multiset(init) + multiset{x}
    requires forall y :: y in init ==> key(y) >= key(last)
    requires key(last) < key(x)
    ensures multiset(r + [last]) == multiset(init + [last]) + multiset{x}
    ensures SortedDesc(r + [last], key)
  {
    assert forall y :: y in multiset(r) ==> key(y) >= key(last) by {
      forall y | y in multiset(r) ensures key(y) >= key(last) {
        assert y in multiset(init) || y == x;
      }
    }
    forall i, j | 0 <= i < j < |r + [last]| ensures key((r + [last])[i]) >= key((r + [last])[j]) {
      if j == |r| {
        assert r[i] in multiset(r);
      }
    }
  }

  /** A stable sort on `key`, largest key first. */
  function SortDesc<T>(s: seq<T>, key: T -> int): (r: seq<T>)
    ensures multiset(r) == multiset(s)
    ensures SortedDesc(r, key)
  {
    if s == [] then []
    else
      assert s == s[..|s| - 1] + [s[|s| - 1]];
      Insert(SortDesc(s[..|s| - 1], key), s[|s| - 1], key)
  }

  /** `xs.slice(0, n)`. */
  function Take<T>(s: seq<T>, n: nat): (r: seq<T>)
    ensures |r| == if |s| <= n then |s| else n
    ensures r == s[..|r|]
  {
    if |s| <= n then s else s[..n]
  }

  /** The `n` newest elements of `s` (date descending), as in a dashboard's
      "last appointments": at most `n` of them, newest first, all taken from `s`,
      and none of those left out is newer than any of those kept. */
  function Newest<T>(s: seq<T>, n: nat, key: T -> int): (r: seq<T>)
    ensures |r| == if |s| <= n then |s| else n
    ensures SortedDesc(r, key)
    ensures multiset(r) <= multiset(s)
    ensures forall x, y :: x in multiset(s) - multiset(r) && y in r ==> key(x) <= key(y)
  {
    var sorted := SortDesc(s, key);
    var r := Take(sorted, n);
    NewestSplit(sorted, |r|, key);
    r
  }

  lemma NewestSplit<T>(sorted: seq<T>, k: nat, key: T -> int)
    requires SortedDesc(sorted, key) && k <= |sorted|
    ensures multiset(sorted[..k]) <= multiset(sorted)
    ensures forall x, y :: x in multiset(sorted) - multiset(sorted[..k]) && y in sorted[..k] ==> key(x) <= key(y)
  {
    assert sorted == sorted[..k] + sorted[k..];
    assert multiset(sorted) == multiset(sorted[..k]) + multiset(sorted[k..]);
    forall x, y | x in multiset(sorted) - multiset(sorted[..k]) && y in sorted[..k]
      ensures key(x) <= key(y)
    {
      assert x in multiset(sorted[k..]);
      var i :| 0 <= i < |sorted[k..]| && sorted[k..][i] == x;
      var j :| 0 <= j < k && sorted[..k][j] == y;
      assert sorted[k + i] == x && sorted[j] == y;
    }
  }
}
