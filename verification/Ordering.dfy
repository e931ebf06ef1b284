/** Sorting as the callers see it: stable sort, sorted permutations, and byte-wise string order. */
module Ordering {

  ghost predicate TotalPreorder<T(!new)>(le: (T, T) -> bool) {
    && (forall x, y :: le(x, y) || le(y, x))
    && (forall x, y, z :: le(x, y) && le(y, z) ==> le(x, z))
  }

  ghost predicate Sorted<T>(le: (T, T) -> bool, s: seq<T>) {
    forall i, j :: 0 <= i < j < |s| ==> le(s[i], s[j])
  }

  /** out is some result of an unstable sort of s. */
  ghost predicate SortedPermutation<T>(le: (T, T) -> bool, s: seq<T>, out: seq<T>) {
    Sorted(le, out) && multiset(out) == multiset(s)
  }

  // ---- The stable sort ----------------------------------------------------

  function Insert<T>(le: (T, T) -> bool, x: T, s: seq<T>): seq<T> {
    if s == [] then [x]
    else if le(x, s[0]) then [x] + s
    else [s[0]] + Insert(le, x, s[1..])
  }

  /** Equal elements keep their order: the one result a stable sort can give. */
  function StableSort<T>(le: (T, T) -> bool, s: seq<T>): seq<T> {
    if s == [] then [] else Insert(le, s[0], StableSort(le, s[1..]))
  }

  lemma {:induction false} InsertMembers<T>(le: (T, T) -> bool, x: T, s: seq<T>)
    ensures multiset(Insert(le, x, s)) == multiset{x} + multiset(s)
  {
    if s != [] {
      assert s == [s[0]] + s[1..];
      InsertMembers(le, x, s[1..]);
    }
  }

  lemma {:induction false} SortMembers<T>(le: (T, T) -> bool, s: seq<T>)
    ensures multiset(StableSort(le, s)) == multiset(s)
  {
    if s != [] {
      assert s == [s[0]] + s[1..];
      SortMembers(le, s[1..]);
      InsertMembers(le, s[0], StableSort(le, s[1..]));
    }
  }

  lemma SortedTail<T>(le: (T, T) -> bool, s: seq<T>)
    requires Sorted(le, s) && s != []
    ensures Sorted(le, s[1..]) && forall y :: y in s[1..] ==> le(s[0], y)
  {
  }

  lemma SortedCons<T>(le: (T, T) -> bool, x: T, s: seq<T>)
    requires Sorted(le, s) && forall y :: y in s ==> le(x, y)
    ensures Sorted(le, [x] + s)
  {
  }

  lemma {:induction false} InsertSorted<T(!new)>(le: (T, T) -> bool, x: T, s: seq<T>)
    requires TotalPreorder(le) && Sorted(le, s)
    ensures Sorted(le, Insert(le, x, s))
  {
    if s == [] {
    } else if le(x, s[0]) {
      SortedTail(le, s);
      SortedCons(le, x, s);
    } else {
      var t := Insert(le, x, s[1..]);
      SortedTail(le, s);
      InsertSorted(le, x, s[1..]);
      InsertMembers(le, x, s[1..]);
      forall y | y in t
        ensures le(s[0], y)
      {
        assert y in multiset(t);
      }
      SortedCons(le, s[0], t);
    }
  }

  lemma {:induction false} SortSorted<T(!new)>(le: (T, T) -> bool, s: seq<T>)
    requires TotalPreorder(le)
    ensures Sorted(le, StableSort(le, s))
  {
    if s != [] {
      SortSorted(le, s[1..]);
      InsertSorted(le, s[0], StableSort(le, s[1..]));
    }
  }

  lemma SortIsPermutation<T(!new)>(le: (T, T) -> bool, s: seq<T>)
    requires TotalPreorder(le)
    ensures SortedPermutation(le, s, StableSort(le, s))
  {
    SortSorted(le, s);
    SortMembers(le, s);
  }

  lemma {:induction false} SortOfSorted<T>(le: (T, T) -> bool, s: seq<T>)
    requires Sorted(le, s)
    ensures StableSort(le, s) == s
  {
    if s != [] {
      SortedTail(le, s);
      SortOfSorted(le, s[1..]);
      assert s == [s[0]] + s[1..];
      if |s| > 1 {
        assert le(s[0], s[1]);
      }
    }
  }

  // ---- Filters ------------------------------------------------------------

  function Filter<T>(keep: T -> bool, s: seq<T>): seq<T> {
    if s == [] then []
    else if keep(s[0]) then [s[0]] + Filter(keep, s[1..])
    else Filter(keep, s[1..])
  }

  lemma {:induction false} FilterMember<T>(keep: T -> bool, s: seq<T>, x: T)
    ensures x in Filter(keep, s) <==> x in s && keep(x)
  {
    if s != [] {
      assert s == [s[0]] + s[1..];
      FilterMember(keep, s[1..], x);
    }
  }

  lemma {:induction false} FilterSum<T>(keep: T -> bool, s: seq<T>, t: seq<T>)
    ensures Filter(keep, s + t) == Filter(keep, s) + Filter(keep, t)
  {
    if s == [] {
      assert s + t == t;
    } else {
      assert (s + t)[0] == s[0] && (s + t)[1..] == s[1..] + t;
      FilterSum(keep, s[1..], t);
      assert [s[0]] + (Filter(keep, s[1..]) + Filter(keep, t)) == ([s[0]] + Filter(keep, s[1..])) + Filter(keep, t);
    }
  }

  lemma {:induction false} FilterSorted<T>(le: (T, T) -> bool, keep: T -> bool, s: seq<T>)
    requires Sorted(le, s)
    ensures Sorted(le, Filter(keep, s))
  {
    if s != [] {
      SortedTail(le, s);
      FilterSorted(le, keep, s[1..]);
      if keep(s[0]) {
        forall y | y in Filter(keep, s[1..])
          ensures le(s[0], y)
        {
          FilterMember(keep, s[1..], y);
        }
        SortedCons(le, s[0], Filter(keep, s[1..]));
      }
    }
  }

  lemma {:induction false} FilterInsert<T(!new)>(le: (T, T) -> bool, keep: T -> bool, x: T, s: seq<T>)
    requires TotalPreorder(le) && Sorted(le, s)
    ensures Filter(keep, Insert(le, x, s))
         == if keep(x) then Insert(le, x, Filter(keep, s)) else Filter(keep, s)
  {
    if s == [] {
      assert [x][1..] == [];
    } else if le(x, s[0]) {
      SortedTail(le, s);
      assert ([x] + s)[1..] == s;
      var f := Filter(keep, s);
      if f != [] {
        FilterMember(keep, s, f[0]);
        assert f[0] in s;
        assert le(x, f[0]);
      }
    } else {
      var t := Insert(le, x, s[1..]);
      SortedTail(le, s);
      FilterInsert(le, keep, x, s[1..]);
      assert ([s[0]] + t)[1..] == t;
      if keep(s[0]) {
        assert ([s[0]] + Filter(keep, s[1..]))[1..] == Filter(keep, s[1..]);
      }
    }
  }

  /** Selecting from a stably sorted list is stably sorting the selection. */
  lemma {:induction false} FilterStableSort<T(!new)>(le: (T, T) -> bool, keep: T -> bool, s: seq<T>)
    requires TotalPreorder(le)
    ensures Filter(keep, StableSort(le, s)) == StableSort(le, Filter(keep, s))
  {
    if s != [] {
      FilterStableSort(le, keep, s[1..]);
      SortSorted(le, s[1..]);
      FilterInsert(le, keep, s[0], StableSort(le, s[1..]));
      if keep(s[0]) {
        assert ([s[0]] + Filter(keep, s[1..]))[1..] == Filter(keep, s[1..]);
      }
    }
  }

  /** le holds both ways: the sort does not tell y from x. */
  function Tied<T(!new)>(le: (T, T) -> bool, x: T): T -> bool {
    (y: T) => le(x, y) && le(y, x)
  }

  /** A stable sort keeps the order of elements that it does not tell apart. */
  lemma StableKeepsTies<T(!new)>(le: (T, T) -> bool, s: seq<T>, x: T)
    requires TotalPreorder(le)
    ensures Filter(Tied(le, x), StableSort(le, s)) == Filter(Tied(le, x), s)
  {
    var ties := Filter(Tied(le, x), s);
    FilterStableSort(le, Tied(le, x), s);
    forall i, j | 0 <= i < j < |ties|
      ensures le(ties[i], ties[j])
    {
      FilterMember(Tied(le, x), s, ties[i]);
      FilterMember(Tied(le, x), s, ties[j]);
      assert le(ties[i], x) && le(x, ties[j]);
    }
    SortOfSorted(le, ties);
  }

  lemma {:induction false} FilterCount<T>(keep: T -> bool, s: seq<T>, x: T)
    ensures multiset(Filter(keep, s))[x] == if keep(x) then multiset(s)[x] else 0
  {
    if s != [] {
      assert s == [s[0]] + s[1..];
      FilterCount(keep, s[1..], x);
    }
  }

  lemma FilterPermutation<T(!new)>(keep: T -> bool, s: seq<T>, t: seq<T>)
    requires multiset(s) == multiset(t)
    ensures multiset(Filter(keep, s)) == multiset(Filter(keep, t))
    ensures |Filter(keep, s)| == |Filter(keep, t)|
  {
    forall x
      ensures multiset(Filter(keep, s))[x] == multiset(Filter(keep, t))[x]
    {
      FilterCount(keep, s, x);
      FilterCount(keep, t, x);
    }
    var f, g := Filter(keep, s), Filter(keep, t);
    assert multiset(f) == multiset(g);
    assert |f| == |multiset(f)| && |g| == |multiset(g)|;
  }

  // ---- The first n --------------------------------------------------------

  function First<T>(s: seq<T>, n: nat): seq<T> {
    if n < |s| then s[..n] else s
  }

  /** x comes strictly before a. */
  function Before<T(!new)>(le: (T, T) -> bool, a: T): T -> bool {
    (x: T) => !le(a, x)
  }

  ghost predicate StrictlySorted<T>(le: (T, T) -> bool, s: seq<T>) {
    forall i, j :: 0 <= i < j < |s| ==> le(s[i], s[j]) && !le(s[j], s[i])
  }

  lemma {:induction false} FilterNone<T>(keep: T -> bool, s: seq<T>)
    requires forall i :: 0 <= i < |s| ==> !keep(s[i])
    ensures Filter(keep, s) == []
  {
    if s != [] {
      FilterNone(keep, s[1..]);
    }
  }

  /** In a strictly sorted list an element's position is the number of elements before it. */
  lemma {:induction false} PositionIsCount<T(!new)>(le: (T, T) -> bool, s: seq<T>, k: nat)
    requires TotalPreorder(le) && StrictlySorted(le, s) && k < |s|
    ensures |Filter(Before(le, s[k]), s)| == k
  {
    if k == 0 {
      assert forall i :: 0 <= i < |s| ==> le(s[0], s[i]);
      FilterNone(Before(le, s[0]), s);
    } else {
      assert s[1..][k - 1] == s[k];
      PositionIsCount(le, s[1..], k - 1);
    }
  }

  /** The first n are exactly the elements with fewer than n before them. */
  lemma FirstIff<T(!new)>(le: (T, T) -> bool, s: seq<T>, n: nat, a: T)
    requires TotalPreorder(le) && StrictlySorted(le, s) && a in s
    ensures a in First(s, n) <==> |Filter(Before(le, a), s)| < n
  {
    var k :| 0 <= k < |s| && s[k] == a;
    PositionIsCount(le, s, k);
    if a in First(s, n) && n < |s| {
      var j :| 0 <= j < n && s[..n][j] == a;
      assert s[j] == s[k];
    }
  }

  // ---- Uniqueness ---------------------------------------------------------

  /** Elements that compare equal both ways are equal, among the elements of s. */
  ghost predicate AntisymmetricOn<T>(le: (T, T) -> bool, s: seq<T>) {
    forall x, y :: x in s && y in s && le(x, y) && le(y, x) ==> x == y
  }

  /** With distinct keys every sort, stable or not, gives the same list. */
  lemma {:induction false} SortedUnique<T>(le: (T, T) -> bool, s: seq<T>, t: seq<T>)
    requires Sorted(le, s) && Sorted(le, t) && multiset(s) == multiset(t)
    requires AntisymmetricOn(le, s)
    ensures s == t
  {
    assert |multiset(s)| == |s| && |multiset(t)| == |t|;
    if s != [] {
      SameHead(le, s, t);
      assert s == [s[0]] + s[1..] && t == [t[0]] + t[1..];
      assert multiset(s[1..]) == multiset(s) - multiset{s[0]};
      assert multiset(t[1..]) == multiset(t) - multiset{t[0]};
      SortedTail(le, s);
      SortedTail(le, t);
      SortedUnique(le, s[1..], t[1..]);
    }
  }

  lemma SameHead<T>(le: (T, T) -> bool, s: seq<T>, t: seq<T>)
    requires Sorted(le, s) && Sorted(le, t) && multiset(s) == multiset(t)
    requires AntisymmetricOn(le, s) && s != [] && t != []
    ensures s[0] == t[0]
  {
    assert s[0] in multiset(t) && t[0] in multiset(s);
    assert s[0] in t && t[0] in s;
  }

  // ---- Strings ------------------------------------------------------------

  /** Go's string order, code point by code point. */
  predicate LexLe(a: string, b: string) {
    a == "" || (b != "" && (a[0] < b[0] || (a[0] == b[0] && LexLe(a[1..], b[1..]))))
  }

  /** a and b agree before k, where a has the smaller character. */
  ghost predicate DiffersAt(a: string, b: string, k: nat) {
    k < |a| && k < |b| && a[..k] == b[..k] && a[k] < b[k]
  }

  /** The order of dictionaries: a prefix comes first, otherwise the first difference decides. */
  lemma {:induction false} LexLeIff(a: string, b: string)
    ensures LexLe(a, b) <==> a <= b || exists k: nat :: DiffersAt(a, b, k)
  {
    if a != "" && b != "" {
      LexLeIff(a[1..], b[1..]);
      if a[0] < b[0] {
        assert DiffersAt(a, b, 0);
      } else if a[0] == b[0] {
        if k: nat :| DiffersAt(a[1..], b[1..], k) {
          DiffersLater(a, b, k);
        }
        if k: nat :| DiffersAt(a, b, k) {
          DiffersEarlier(a, b, k);
        }
        assert a <= b <==> a[1..] <= b[1..] by {
          assert a == [a[0]] + a[1..] && b == [b[0]] + b[1..];
        }
      } else {
        forall k: nat
          ensures !DiffersAt(a, b, k)
        {
          if DiffersAt(a, b, k) && k > 0 {
            SamePrefix(a, b, k);
          }
        }
      }
    }
  }

  lemma SamePrefix(a: string, b: string, k: nat)
    requires 0 < k <= |a| && k <= |b| && a[..k] == b[..k]
    ensures a[0] == b[0]
  {
    assert a[..k][0] == b[..k][0];
  }

  lemma DiffersLater(a: string, b: string, k: nat)
    requires a != "" && b != "" && a[0] == b[0] && DiffersAt(a[1..], b[1..], k)
    ensures DiffersAt(a, b, k + 1)
  {
    assert a[..k + 1] == [a[0]] + a[1..][..k] && b[..k + 1] == [b[0]] + b[1..][..k];
  }

  lemma DiffersEarlier(a: string, b: string, k: nat)
    requires a != "" && b != "" && a[0] == b[0] && DiffersAt(a, b, k)
    ensures k > 0 && DiffersAt(a[1..], b[1..], k - 1)
  {
    assert a[1..][..k - 1] == a[..k][1..] && b[1..][..k - 1] == b[..k][1..];
  }

  lemma {:induction false} LexTotal(a: string, b: string)
    ensures LexLe(a, b) || LexLe(b, a)
    ensures LexLe(a, b) && LexLe(b, a) ==> a == b
  {
    if a != "" && b != "" {
      LexTotal(a[1..], b[1..]);
      assert a == [a[0]] + a[1..] && b == [b[0]] + b[1..];
    }
  }

  lemma {:induction false} LexTransitive(a: string, b: string, c: string)
    requires LexLe(a, b) && LexLe(b, c)
    ensures LexLe(a, c)
  {
    if a != "" && a[0] == b[0] == c[0] {
      LexTransitive(a[1..], b[1..], c[1..]);
    }
  }
}
