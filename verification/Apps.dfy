/** Installed apps: ordering by disk usage, limiting, and the offload-candidate pipeline. */
module Apps {
  import opened Common
  import opened Ordering
  import opened Strings

  datatype App = App(
    bundleID: string, name: string, version: string, container: string,
    dynamicBytes: U64, staticBytes: U64, fileSharingEnabled: bool, applicationType: string)

  /** The uint64 sum of the two sizes. */
  function Usage(a: App): U64 {
    WrapU64(a.dynamicBytes + a.staticBytes)
  }

  /** That sum converted to int64. */
  function SignedUsage(a: App): I64 {
    WrapI64(Usage(a))
  }

  type Bytes = App -> int

  function Unsigned(): Bytes {
    (a: App) => Usage(a)
  }

  function Signed(): Bytes {
    (a: App) => SignedUsage(a)
  }

  /** More bytes first; on equal bytes, the smaller bundle ID first. */
  function ByBytes(bytes: Bytes): (App, App) -> bool {
    (a: App, b: App) => bytes(a) > bytes(b) || (bytes(a) == bytes(b) && LexLe(a.bundleID, b.bundleID))
  }

  lemma ByBytesIsPreorder(bytes: Bytes)
    ensures TotalPreorder(ByBytes(bytes))
  {
    var le := ByBytes(bytes);
    forall x: App, y: App
      ensures le(x, y) || le(y, x)
    {
      LexTotal(x.bundleID, y.bundleID);
    }
    forall x, y, z | le(x, y) && le(y, z)
      ensures le(x, z)
    {
      if bytes(x) == bytes(y) == bytes(z) {
        LexTransitive(x.bundleID, y.bundleID, z.bundleID);
      }
    }
  }

  /** No bundle ID occurs twice. */
  ghost predicate DistinctIDs(s: seq<App>) {
    && (forall x :: x in s ==> multiset(s)[x] == 1)
    && (forall x, y :: x in s && y in s && x.bundleID == y.bundleID ==> x == y)
  }

  lemma SameMembers<T>(s: seq<T>, t: seq<T>)
    requires multiset(s) == multiset(t)
    ensures forall x :: x in s <==> x in t
  {
    assert forall x :: x in s <==> x in multiset(s);
    assert forall x :: x in t <==> x in multiset(t);
  }

  lemma DistinctPermutation(s: seq<App>, t: seq<App>)
    requires multiset(s) == multiset(t) && DistinctIDs(s)
    ensures DistinctIDs(t)
  {
    SameMembers(s, t);
  }

  lemma DistinctFilter(keep: App -> bool, s: seq<App>)
    requires DistinctIDs(s)
    ensures DistinctIDs(Filter(keep, s))
  {
    var f := Filter(keep, s);
    forall x | x in f
      ensures x in s && multiset(f)[x] == 1
    {
      FilterMember(keep, s, x);
      FilterCount(keep, s, x);
    }
  }

  lemma OccursOnce<T>(s: seq<T>, i: nat, j: nat)
    requires i < j < |s| && s[i] == s[j]
    ensures multiset(s)[s[i]] >= 2
  {
    assert s == s[..j] + s[j..];
    assert s[..j][i] in multiset(s[..j]) && s[j..][0] in multiset(s[j..]);
  }

  lemma Antisymmetric(bytes: Bytes, x: App, y: App)
    requires ByBytes(bytes)(x, y) && ByBytes(bytes)(y, x)
    ensures x.bundleID == y.bundleID
  {
    LexTotal(x.bundleID, y.bundleID);
  }

  lemma StrictWhenDistinct(bytes: Bytes, s: seq<App>)
    requires Sorted(ByBytes(bytes), s) && DistinctIDs(s)
    ensures StrictlySorted(ByBytes(bytes), s)
  {
    forall i, j | 0 <= i < j < |s|
      ensures !ByBytes(bytes)(s[j], s[i])
    {
      if ByBytes(bytes)(s[j], s[i]) {
        Antisymmetric(bytes, s[i], s[j]);
        OccursOnce(s, i, j);
        assert false;
      }
    }
  }

  /** With distinct bundle IDs every sort by bytes of every permutation gives the same list. */
  lemma SortIsDeterminate(bytes: Bytes, s: seq<App>, t: seq<App>, out: seq<App>)
    requires DistinctIDs(s) && multiset(s) == multiset(t)
    requires SortedPermutation(ByBytes(bytes), t, out)
    ensures out == StableSort(ByBytes(bytes), s)
  {
    ByBytesIsPreorder(bytes);
    SortIsPermutation(ByBytes(bytes), s);
    DistinctPermutation(s, out);
    forall x, y | x in out && y in out && ByBytes(bytes)(x, y) && ByBytes(bytes)(y, x)
      ensures x == y
    {
      Antisymmetric(bytes, x, y);
    }
    SortedUnique(ByBytes(bytes), out, StableSort(ByBytes(bytes), s));
  }

  /**
   * The first n of the kept apps, sorted: an app is among them exactly when it is kept and
   * fewer than n kept apps come before it.
   */
  lemma TopIff(bytes: Bytes, keep: App -> bool, s: seq<App>, n: nat, a: App)
    requires DistinctIDs(s)
    ensures a in First(Filter(keep, StableSort(ByBytes(bytes), s)), n)
       <==> a in s && keep(a) && |Filter(Before(ByBytes(bytes), a), Filter(keep, s))| < n
  {
    var le := ByBytes(bytes);
    ByBytesIsPreorder(bytes);
    SortIsPermutation(le, s);
    var sorted := Filter(keep, StableSort(le, s));
    DistinctPermutation(s, StableSort(le, s));
    DistinctFilter(keep, StableSort(le, s));
    FilterSorted(le, keep, StableSort(le, s));
    StrictWhenDistinct(bytes, sorted);
    FilterMember(keep, s, a);
    FilterMember(keep, StableSort(le, s), a);
    SameMembers(s, StableSort(le, s));
    FilterPermutation(keep, s, StableSort(le, s));
    FilterPermutation(Before(le, a), Filter(keep, s), sorted);
    if a in sorted {
      FirstIff(le, sorted, n, a);
    }
  }

  /** The usage is the sum less 2^64 when it reaches that, and the signed usage that number read as an int64. */
  lemma UsageIs(a: App)
    ensures var sum := a.dynamicBytes + a.staticBytes;
      Usage(a) == if sum < 0x1_0000_0000_0000_0000 then sum else sum - 0x1_0000_0000_0000_0000
    ensures SignedUsage(a) == if Usage(a) < 0x8000_0000_0000_0000 then Usage(a) else Usage(a) - 0x1_0000_0000_0000_0000
  {
    var sum := a.dynamicBytes + a.staticBytes;
    if sum >= TWO_64 {
      assert WrapU64(sum) == WrapU64(sum - TWO_64);
    }
    if Usage(a) >= TWO_63 {
      assert WrapI64(Usage(a)) == WrapI64(Usage(a) - TWO_64);
    }
  }

  /** Sorted by bytes: never fewer before more, and equal ones by bundle ID. */
  lemma SortedByBytesIff(bytes: Bytes, s: seq<App>)
    ensures Sorted(ByBytes(bytes), s) <==>
      forall j, k :: 0 <= j < k < |s| ==>
        bytes(s[j]) >= bytes(s[k]) && (bytes(s[j]) == bytes(s[k]) ==> LexLe(s[j].bundleID, s[k].bundleID))
  {
    assert forall j, k :: 0 <= j < k < |s| ==>
      (ByBytes(bytes)(s[j], s[k]) <==>
         bytes(s[j]) >= bytes(s[k]) && (bytes(s[j]) == bytes(s[k]) ==> LexLe(s[j].bundleID, s[k].bundleID)));
  }

  // ---- Sort and Limit -----------------------------------------------------

  lemma SortsByBytes(s: seq<App>)
    ensures var sorted := StableSort(ByBytes(Unsigned()), s);
      SortedPermutation(ByBytes(Unsigned()), s, sorted) && |sorted| == |s|
  {
    var sorted := StableSort(ByBytes(Unsigned()), s);
    ByBytesIsPreorder(Unsigned());
    SortIsPermutation(ByBytes(Unsigned()), s);
    assert |sorted| == |multiset(sorted)| == |multiset(s)| == |s|;
  }

  /** slices.SortFunc in place, by usage as uint64: some sorted permutation. */
  method Sort(apps: array<App>)
    modifies apps
    ensures SortedPermutation(ByBytes(Unsigned()), old(apps[..]), apps[..])
    ensures forall j, k :: 0 <= j < k < apps.Length ==>
      Usage(apps[j]) >= Usage(apps[k])
      && (Usage(apps[j]) == Usage(apps[k]) ==> LexLe(apps[j].bundleID, apps[k].bundleID))
  {
    ghost var was := apps[..];
    var sorted := StableSort(ByBytes(Unsigned()), apps[..]);
    SortsByBytes(was);
    var i := 0;
    while i < apps.Length
      invariant 0 <= i <= apps.Length
      invariant apps[..i] == sorted[..i]
    {
      apps[i] := sorted[i];
      i := i + 1;
    }
    TakeAll(apps[..], i);
    TakeAll(sorted, i);
    ByUsage(sorted);
  }

  lemma ByUsage(s: seq<App>)
    requires Sorted(ByBytes(Unsigned()), s)
    ensures forall j, k :: 0 <= j < k < |s| ==>
      Usage(s[j]) >= Usage(s[k]) && (Usage(s[j]) == Usage(s[k]) ==> LexLe(s[j].bundleID, s[k].bundleID))
  {
    SortedByBytesIff(Unsigned(), s);
    forall j, k | 0 <= j < k < |s|
      ensures Usage(s[j]) >= Usage(s[k]) && (Usage(s[j]) == Usage(s[k]) ==> LexLe(s[j].bundleID, s[k].bundleID))
    {
      assert Unsigned()(s[j]) >= Unsigned()(s[k]);
    }
  }

  /** No limit when n is not positive. */
  function Limit(apps: seq<App>, n: int): seq<App> {
    if n <= 0 || n >= |apps| then apps else apps[..n]
  }

  // ---- apps_offload_candidates --------------------------------------------

  function ThirdParty(): App -> bool {
    (a: App) => !AppleSystem(a.bundleID)
  }

  function AtLeast(minBytes: int): App -> bool {
    (a: App) => SignedUsage(a) >= minBytes
  }

  function Candidate(minBytes: int): App -> bool {
    (a: App) => !AppleSystem(a.bundleID) && SignedUsage(a) >= minBytes
  }

  method SelectThirdParty(list: seq<App>) returns (candidates: seq<App>)
    ensures candidates == Filter(ThirdParty(), list)
  {
    candidates := [];
    var i := 0;
    while i < |list|
      invariant 0 <= i <= |list|
      invariant candidates == Filter(ThirdParty(), list[..i])
    {
      TakeStep(list, i);
      FilterSum(ThirdParty(), list[..i], [list[i]]);
      if !AppleSystem(list[i].bundleID) {
        candidates := candidates + [list[i]];
      }
      i := i + 1;
    }
    TakeAll(list, i);
  }

  method SelectAtLeast(list: seq<App>, minBytes: int) returns (filtered: seq<App>)
    ensures filtered == Filter(AtLeast(minBytes), list)
  {
    filtered := [];
    var i := 0;
    while i < |list|
      invariant 0 <= i <= |list|
      invariant filtered == Filter(AtLeast(minBytes), list[..i])
    {
      TakeStep(list, i);
      FilterSum(AtLeast(minBytes), list[..i], [list[i]]);
      if SignedUsage(list[i]) >= minBytes {
        filtered := filtered + [list[i]];
      }
      i := i + 1;
    }
    TakeAll(list, i);
  }

  /** What the pipeline may answer: third-party apps, sorted, then those large enough, then the limit. */
  ghost predicate Answers(list: seq<App>, minBytes: int, limit: int, rows: seq<App>) {
    exists sorted ::
      && SortedPermutation(ByBytes(Unsigned()), Filter(ThirdParty(), list), sorted)
      && rows == Limit(Filter(AtLeast(minBytes), sorted), limit)
  }

  method OffloadCandidates(list: seq<App>, minBytes: int, limit: int) returns (rows: seq<App>)
    ensures Answers(list, minBytes, limit, rows)
  {
    var candidates := SelectThirdParty(list);
    var a := new App[|candidates|](i requires 0 <= i < |candidates| => candidates[i]);
    assert a[..] == candidates;
    Sort(a);
    ghost var sorted := a[..];
    var filtered := SelectAtLeast(a[..], minBytes);
    rows := Limit(filtered, limit);
    assert SortedPermutation(ByBytes(Unsigned()), Filter(ThirdParty(), list), sorted);
  }

  lemma {:induction false} FilterTwice(minBytes: int, s: seq<App>)
    ensures Filter(AtLeast(minBytes), Filter(ThirdParty(), s)) == Filter(Candidate(minBytes), s)
  {
    if s != [] {
      FilterTwice(minBytes, s[1..]);
      if ThirdParty()(s[0]) {
        assert ([s[0]] + Filter(ThirdParty(), s[1..]))[1..] == Filter(ThirdParty(), s[1..]);
      }
    }
  }

  /**
   * With distinct bundle IDs the answer does not depend on the order of the list or on how the
   * sort treats ties, and filtering after sorting is filtering first.
   */
  lemma CandidatesDeterminate(list: seq<App>, list': seq<App>, minBytes: int, limit: int, rows: seq<App>)
    requires DistinctIDs(list) && multiset(list') == multiset(list)
    requires Answers(list', minBytes, limit, rows)
    ensures rows == Limit(Filter(Candidate(minBytes), StableSort(ByBytes(Unsigned()), list)), limit)
  {
    var le := ByBytes(Unsigned());
    ByBytesIsPreorder(Unsigned());
    var third := Filter(ThirdParty(), list);
    var sorted :| SortedPermutation(le, Filter(ThirdParty(), list'), sorted)
      && rows == Limit(Filter(AtLeast(minBytes), sorted), limit);
    FilterPermutation(ThirdParty(), list', list);
    DistinctFilter(ThirdParty(), list);
    SortIsDeterminate(Unsigned(), third, Filter(ThirdParty(), list'), sorted);
    FilterStableSort(le, ThirdParty(), list);
    FilterTwice(minBytes, StableSort(le, list));
  }

  /** A row is listed exactly when it is a candidate with fewer than `limit` candidates before it. */
  lemma CandidateListedIff(list: seq<App>, minBytes: int, limit: int, rows: seq<App>, a: App)
    requires DistinctIDs(list) && Answers(list, minBytes, limit, rows)
    ensures a in rows <==>
      && a in list && !AppleSystem(a.bundleID) && SignedUsage(a) >= minBytes
      && (limit <= 0 || |Filter(Before(ByBytes(Unsigned()), a), Filter(Candidate(minBytes), list))| < limit)
  {
    CandidatesDeterminate(list, list, minBytes, limit, rows);
    if limit > 0 {
      TopIff(Unsigned(), Candidate(minBytes), list, limit, a);
    } else {
      var sorted := StableSort(ByBytes(Unsigned()), list);
      FilterMember(Candidate(minBytes), sorted, a);
      SortMembers(ByBytes(Unsigned()), list);
      SameMembers(list, sorted);
    }
  }

  lemma LimitOfSorted(le: (App, App) -> bool, s: seq<App>, n: int)
    requires Sorted(le, s)
    ensures Sorted(le, Limit(s, n))
    ensures |Limit(s, n)| == if n <= 0 || |s| < n then |s| else n
  {
  }

  /** The rows stand in descending usage, equal ones by bundle ID, and are at most `limit` when that is positive. */
  lemma CandidatesInOrder(list: seq<App>, minBytes: int, limit: int, rows: seq<App>)
    requires Answers(list, minBytes, limit, rows)
    ensures limit > 0 ==> |rows| <= limit
    ensures forall j, k :: 0 <= j < k < |rows| ==>
      Usage(rows[j]) >= Usage(rows[k])
      && (Usage(rows[j]) == Usage(rows[k]) ==> LexLe(rows[j].bundleID, rows[k].bundleID))
  {
    var le := ByBytes(Unsigned());
    var sorted :| SortedPermutation(le, Filter(ThirdParty(), list), sorted)
      && rows == Limit(Filter(AtLeast(minBytes), sorted), limit);
    FilterSorted(le, AtLeast(minBytes), sorted);
    LimitOfSorted(le, Filter(AtLeast(minBytes), sorted), limit);
    ByUsage(rows);
  }
}
