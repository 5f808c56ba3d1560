/** A stable sort by a comparator, as JavaScript's `Array.prototype.sort` and
    the repositories' `ORDER BY` clauses use it. `le(a, b)` holds when the
    comparator puts `a` no later than `b` (`compare(a, b) <= 0`). */
module Ordering {
  import opened Seqs

  ghost predicate TotalPreorder<T(!new)>(le: (T, T) -> bool)
  {
    (forall a, b :: le(a, b) || le(b, a)) &&
    (forall a, b, c :: le(a, b) && le(b, c) ==> le(a, c))
  }

  predicate SortedBy<T>(s: seq<T>, le: (T, T) -> bool)
  {
    forall i, j | 0 <= i < j < |s| :: le(s[i], s[j])
  }

  /** Inserts `x` before the first element it may precede. */
  function Insert<T>(x: T, s: seq<T>, le: (T, T) -> bool): (r: seq<T>)
    ensures |r| == |s| + 1
    ensures multiset(r) == multiset(s) + multiset{x}
  {
    if s == [] then [x]
    else if le(x, s[0]) then [x] + s
    else
      assert s == [s[0]] + s[1..];
      [s[0]] + Insert(x, s[1..], le)
  }

  /** Insertion sort: each element goes in front of the equal elements that
      follow it in the input, so equal elements keep their input order. */
  function SortBy<T>(s: seq<T>, le: (T, T) -> bool): (r: seq<T>)
    ensures |r| == |s|
    ensures multiset(r) == multiset(s)
  {
    if s == [] then []
    else
      assert s == [s[0]] + s[1..];
      Insert(s[0], SortBy(s[1..], le), le)
  }

  /** Sorting neither adds nor drops an element. */
  lemma SortByMembers<T>(s: seq<T>, le: (T, T) -> bool)
    ensures forall x :: x in SortBy(s, le) <==> x in s
  {
    forall x ensures x in SortBy(s, le) <==> x in s {
      assert x in multiset(SortBy(s, le)) <==> x in multiset(s);
    }
  }

  /** Inserting keeps every element and adds `x`. */
  lemma InsertMembers<T>(x: T, s: seq<T>, le: (T, T) -> bool)
    ensures forall y :: y in Insert(x, s, le) <==> y == x || y in s
  {
    forall y ensures y in Insert(x, s, le) <==> y == x || y in s {
      assert y in multiset(Insert(x, s, le)) <==> y in multiset(s) + multiset{x};
    }
  }

  lemma {:induction false} InsertKeepsSorted<T(!new)>(x: T, s: seq<T>, le: (T, T) -> bool)
    requires TotalPreorder(le) && SortedBy(s, le)
    ensures SortedBy(Insert(x, s, le), le)
  {
    if s != [] && !le(x, s[0]) {
      var t := Insert(x, s[1..], le);
      InsertKeepsSorted(x, s[1..], le);
      InsertBelowHead(x, s, le);
      assert Insert(x, s, le) == [s[0]] + t;
    }
  }

  /** When `x` goes after the head, the head still precedes everything. */
  lemma InsertBelowHead<T(!new)>(x: T, s: seq<T>, le: (T, T) -> bool)
    requires TotalPreorder(le) && SortedBy(s, le) && s != [] && !le(x, s[0])
    ensures forall j :: 0 <= j < |Insert(x, s[1..], le)| ==> le(s[0], Insert(x, s[1..], le)[j])
  {
    var t := Insert(x, s[1..], le);
    InsertMembers(x, s[1..], le);
    forall j | 0 <= j < |t| ensures le(s[0], t[j]) {
      assert t[j] in t;
      if t[j] != x {
        var k :| 0 <= k < |s[1..]| && s[1..][k] == t[j];
        assert s[k + 1] == t[j];
      }
    }
  }

  /** The output of SortBy is ordered by `le`. */
  lemma {:induction false} SortBySorted<T(!new)>(s: seq<T>, le: (T, T) -> bool)
    requires TotalPreorder(le)
    ensures SortedBy(SortBy(s, le), le)
  {
    if s != [] {
      SortBySorted(s[1..], le);
      InsertKeepsSorted(s[0], SortBy(s[1..], le), le);
    }
  }

  /** Sorting a sequence that is already in order leaves it as it is. */
  lemma {:induction false} SortByFixesSorted<T>(s: seq<T>, le: (T, T) -> bool)
    requires SortedBy(s, le)
    ensures SortBy(s, le) == s
  {
    if s != [] {
      assert SortedBy(s[1..], le) by {
        forall i, j | 0 <= i < j < |s[1..]| ensures le(s[1..][i], s[1..][j]) {
          assert s[1..][i] == s[i + 1] && s[1..][j] == s[j + 1];
        }
      }
      SortByFixesSorted(s[1..], le);
      assert s == [s[0]] + s[1..];
    }
  }

  /** Sorting twice by the same comparator gives the order of sorting once. */
  lemma SortByIdempotent<T(!new)>(s: seq<T>, le: (T, T) -> bool)
    requires TotalPreorder(le)
    ensures SortBy(SortBy(s, le), le) == SortBy(s, le)
  {
    SortBySorted(s, le);
    SortByFixesSorted(SortBy(s, le), le);
  }

  /** The elements that compare equal to `k` under `le`. */
  function Tie<T>(le: (T, T) -> bool, k: T): T -> bool
  {
    y => le(y, k) && le(k, y)
  }

  /** Insertion keeps `x` in front of the elements it ties with: among the
      elements equal to any `k`, `x` (when it is one) comes first. */
  lemma {:induction false} InsertFilterTie<T(!new)>(x: T, t: seq<T>, le: (T, T) -> bool, k: T)
    requires TotalPreorder(le)
    ensures Filter(Insert(x, t, le), Tie(le, k))
            == (if Tie(le, k)(x) then [x] else []) + Filter(t, Tie(le, k))
  {
    if t == [] {
    } else if le(x, t[0]) {
      assert ([x] + t)[1..] == t;
    } else {
      InsertFilterTie(x, t[1..], le, k);
      var u := Insert(x, t[1..], le);
      assert ([t[0]] + u)[1..] == u;
      assert Tie(le, k)(x) ==> !Tie(le, k)(t[0]);
      assert t == [t[0]] + t[1..];
    }
  }

  /** The sort is stable: the elements equal to any `k` appear in the
      output in the order they had in the input. */
  lemma {:induction false} SortByStable<T(!new)>(s: seq<T>, le: (T, T) -> bool, k: T)
    requires TotalPreorder(le)
    ensures Filter(SortBy(s, le), Tie(le, k)) == Filter(s, Tie(le, k))
  {
    if s != [] {
      SortByStable(s[1..], le, k);
      InsertFilterTie(s[0], SortBy(s[1..], le), le, k);
      assert s == [s[0]] + s[1..];
    }
  }
}
