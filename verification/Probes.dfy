/**
 * Probe results and the three freshness scans: the MCP gate's, the CLI gate's and the
 * recommendation planner's. Instants are nanoseconds since the Unix epoch.
 */
module Probes {
  import opened Common
  import opened Ordering

  datatype ProbeOutcome = Unknown | Vended | Refused | ProbeError

  datatype ProbeResult = ProbeResult(bundleID: string, outcome: ProbeOutcome, detail: string, at: int)

  const SECOND: int := 1_000_000_000
  const TTL_CLI: I64 := 24 * 60 * 60 * SECOND
  const TTL_MCP: I64 := 5 * 60 * SECOND

  /** time.Time.Sub saturates at the ends of an int64 Duration. */
  function Sub(t: int, u: int): I64 {
    if t - u >= TWO_63 then TWO_63 - 1 else if t - u < -TWO_63 then -TWO_63 else t - u
  }

  type Stamp = int -> int

  function Exact(): Stamp {
    (t: int) => t
  }

  /** time.Time.UnixNano, which overflows outside the years 1678 to 2262. */
  function UnixNano(): Stamp {
    (t: int) => WrapI64(t)
  }

  /** The entry for a bundle with the largest stamp, the first one on ties. */
  function Newest(stamp: Stamp, results: seq<ProbeResult>, bundleID: string): Option<ProbeResult> {
    if results == [] then None
    else
      var r := results[|results| - 1];
      var best := Newest(stamp, results[..|results| - 1], bundleID);
      if r.bundleID == bundleID && (best.None? || stamp(r.at) > stamp(best.value.at)) then Some(r) else best
  }

  predicate IsVended(n: Option<ProbeResult>) {
    n.Some? && n.value.outcome.Vended?
  }

  predicate McpFresh(results: seq<ProbeResult>, bundleID: string, now: int) {
    var n := Newest(Exact(), results, bundleID);
    IsVended(n) && now - n.value.at < TTL_MCP
  }

  predicate CliFresh(results: seq<ProbeResult>, bundleID: string, now: int, ttl: I64) {
    var n := Newest(Exact(), results, bundleID);
    IsVended(n) && Sub(now, n.value.at) <= ttl
  }

  // ---- The three loops ----------------------------------------------------

  lemma NewestStep(stamp: Stamp, results: seq<ProbeResult>, i: nat, bundleID: string)
    requires i < |results|
    ensures var best, r := Newest(stamp, results[..i], bundleID), results[i];
      Newest(stamp, results[..i + 1], bundleID)
      == if r.bundleID == bundleID && (best.None? || stamp(r.at) > stamp(best.value.at)) then Some(r) else best
  {
    TakeBack(results, i);
  }

  method ProbeVendedAndFresh(results: seq<ProbeResult>, bundleID: string, now: int)
      returns (isFresh: bool, age: I64, found: bool)
    ensures found <==> Newest(Exact(), results, bundleID).Some?
    ensures isFresh <==> McpFresh(results, bundleID, now)
    ensures found ==> age == Sub(now, Newest(Exact(), results, bundleID).value.at)
  {
    var newest := ProbeResult("", Unknown, "", 0);
    found := false;
    var i := 0;
    while i < |results|
      invariant 0 <= i <= |results|
      invariant Newest(Exact(), results[..i], bundleID) == if found then Some(newest) else None
    {
      var r := results[i];
      NewestStep(Exact(), results, i, bundleID);
      i := i + 1;
      if r.bundleID != bundleID {
        continue;
      }
      if !found || r.at > newest.at {
        newest := r;
        found := true;
      }
    }
    TakeAll(results, i);
    if !found {
      return false, 0, false;
    }
    if !newest.outcome.Vended? {
      return false, Sub(now, newest.at), true;
    }
    age := Sub(now, newest.at);
    isFresh := age < TTL_MCP;
  }

  method ProbeVendedFresh(results: seq<ProbeResult>, bundleID: string, now: int, ttl: I64) returns (isFresh: bool)
    ensures isFresh <==> CliFresh(results, bundleID, now, ttl)
  {
    var newest := ProbeResult("", Unknown, "", 0);
    var found := false;
    var i := 0;
    while i < |results|
      invariant 0 <= i <= |results|
      invariant Newest(Exact(), results[..i], bundleID) == if found then Some(newest) else None
    {
      var r := results[i];
      NewestStep(Exact(), results, i, bundleID);
      i := i + 1;
      if r.bundleID != bundleID {
        continue;
      }
      if !found || r.at > newest.at {
        newest := r;
        found := true;
      }
    }
    TakeAll(results, i);
    if !found {
      return false;
    }
    if !newest.outcome.Vended? {
      return false;
    }
    isFresh := Sub(now, newest.at) <= ttl;
  }

  method IsVendedInResults(results: seq<ProbeResult>, bundleID: string) returns (vended: bool)
    ensures vended <==> IsVended(Newest(UnixNano(), results, bundleID))
  {
    var found := false;
    vended := false;
    var bestAt: I64 := -1;
    var i := 0;
    while i < |results|
      invariant 0 <= i <= |results|
      invariant found <==> Newest(UnixNano(), results[..i], bundleID).Some?
      invariant vended <==> IsVended(Newest(UnixNano(), results[..i], bundleID))
      invariant found ==> bestAt == WrapI64(Newest(UnixNano(), results[..i], bundleID).value.at)
    {
      var r := results[i];
      NewestStep(UnixNano(), results, i, bundleID);
      i := i + 1;
      if r.bundleID != bundleID {
        continue;
      }
      var ts := WrapI64(r.at);
      if !found || ts > bestAt {
        found := true;
        vended := r.outcome.Vended?;
        bestAt := ts;
      }
    }
    TakeAll(results, i);
  }

  // ---- What the newest entry is -------------------------------------------

  /** r is an entry for the bundle and no other entry for it has a larger stamp. */
  ghost predicate LatestBy(stamp: Stamp, results: seq<ProbeResult>, bundleID: string, r: ProbeResult) {
    && r in results && r.bundleID == bundleID
    && forall q :: q in results && q.bundleID == bundleID ==> stamp(q.at) <= stamp(r.at)
  }

  /** r is an entry for the bundle and no other entry for it is later. */
  ghost predicate Latest(results: seq<ProbeResult>, bundleID: string, r: ProbeResult) {
    LatestBy(Exact(), results, bundleID, r)
  }

  /** The scan returns the latest entry, and of several latest ones the first. */
  lemma {:induction false} NewestIsFirstLatest(results: seq<ProbeResult>, bundleID: string, i: nat)
    requires i < |results| && results[i].bundleID == bundleID
    requires forall k :: 0 <= k < |results| && results[k].bundleID == bundleID ==>
      results[k].at <= results[i].at && (k < i ==> results[k].at < results[i].at)
    ensures Newest(Exact(), results, bundleID) == Some(results[i])
  {
    var n := |results| - 1;
    if i < n {
      NewestIsFirstLatest(results[..n], bundleID, i);
    } else {
      NewestIsEntry(results[..n], bundleID);
    }
  }

  lemma {:induction false} NewestIsEntry(results: seq<ProbeResult>, bundleID: string)
    ensures var b := Newest(Exact(), results, bundleID);
      if b.Some? then exists k :: 0 <= k < |results| && results[k] == b.value && b.value.bundleID == bundleID
      else forall k :: 0 <= k < |results| ==> results[k].bundleID != bundleID
  {
    if results != [] {
      var n := |results| - 1;
      NewestIsEntry(results[..n], bundleID);
      var best := Newest(Exact(), results[..n], bundleID);
      if best.Some? {
        var k :| 0 <= k < n && results[..n][k] == best.value;
        assert results[k] == best.value;
      }
      assert forall k :: 0 <= k < n ==> results[..n][k] == results[k];
    }
  }

  /** The scan returns a latest entry, and none only when there is none. */
  lemma {:induction false} NewestIsLatestBy(stamp: Stamp, results: seq<ProbeResult>, bundleID: string)
    ensures var b := Newest(stamp, results, bundleID);
      if b.Some? then LatestBy(stamp, results, bundleID, b.value)
      else forall q :: q in results ==> q.bundleID != bundleID
  {
    if results != [] {
      var n := |results| - 1;
      NewestIsLatestBy(stamp, results[..n], bundleID);
      assert results == results[..n] + [results[n]];
    }
  }

  /** The latest entries of the bundle are all vended or all not. */
  ghost predicate StampTiesAgree(stamp: Stamp, s: seq<ProbeResult>, bundleID: string) {
    forall q, r :: LatestBy(stamp, s, bundleID, q) && LatestBy(stamp, s, bundleID, r) ==>
      (q.outcome.Vended? <==> r.outcome.Vended?)
  }

  predicate SameVended(stamp: Stamp, s: seq<ProbeResult>, t: seq<ProbeResult>, bundleID: string) {
    IsVended(Newest(stamp, s, bundleID)) <==> IsVended(Newest(stamp, t, bundleID))
  }

  /** In another order the scan still returns one of the latest entries. */
  lemma PermutedNewest(stamp: Stamp, s: seq<ProbeResult>, t: seq<ProbeResult>, bundleID: string)
    requires multiset(s) == multiset(t)
    ensures var m, n := Newest(stamp, s, bundleID), Newest(stamp, t, bundleID);
      && (m.Some? <==> n.Some?)
      && (m.Some? ==>
            LatestBy(stamp, s, bundleID, m.value) && LatestBy(stamp, s, bundleID, n.value)
            && stamp(m.value.at) == stamp(n.value.at))
  {
    NewestIsLatestBy(stamp, s, bundleID);
    NewestIsLatestBy(stamp, t, bundleID);
    assert forall r :: r in s <==> r in t by {
      assert forall r :: r in s <==> r in multiset(s);
      assert forall r :: r in t <==> r in multiset(t);
    }
    var m := Newest(stamp, s, bundleID);
    if m.Some? {
      assert m.value in t;
    }
  }

  lemma VendedIsOrderFree(stamp: Stamp, s: seq<ProbeResult>, t: seq<ProbeResult>, bundleID: string)
    requires multiset(s) == multiset(t) && StampTiesAgree(stamp, s, bundleID)
    ensures SameVended(stamp, s, t, bundleID)
  {
    PermutedNewest(stamp, s, t, bundleID);
  }

  /** A latest entry at the front is the newest. */
  lemma {:induction false} FrontWins(stamp: Stamp, t: seq<ProbeResult>, bundleID: string)
    requires t != [] && t[0].bundleID == bundleID
    requires forall k :: 0 <= k < |t| && t[k].bundleID == bundleID ==> stamp(t[k].at) <= stamp(t[0].at)
    ensures Newest(stamp, t, bundleID) == Some(t[0])
  {
    var n := |t| - 1;
    if n > 0 {
      FrontWins(stamp, t[..n], bundleID);
    } else {
      assert t[..n] == [];
    }
  }

  /** Some permutation of s makes a given latest entry the newest. */
  lemma AnyLatestCanWin(stamp: Stamp, s: seq<ProbeResult>, bundleID: string, q: ProbeResult) returns (t: seq<ProbeResult>)
    requires LatestBy(stamp, s, bundleID, q)
    ensures multiset(t) == multiset(s) && Newest(stamp, t, bundleID) == Some(q)
  {
    var i :| 0 <= i < |s| && s[i] == q;
    t := [q] + (s[..i] + s[i + 1..]);
    assert s == s[..i] + [q] + s[i + 1..];
    forall k | 0 <= k < |t|
      ensures t[k] in s
    {
      assert t[k] in multiset(t);
      assert t[k] in multiset(s);
    }
    FrontWins(stamp, t, bundleID);
  }

  /**
   * The vended classification of a bundle is the same for every order of the list exactly when
   * the bundle's latest entries agree.
   */
  lemma OrderFreeIff(stamp: Stamp, s: seq<ProbeResult>, bundleID: string)
    ensures (forall t :: multiset(t) == multiset(s) ==> SameVended(stamp, s, t, bundleID))
       <==> StampTiesAgree(stamp, s, bundleID)
  {
    if StampTiesAgree(stamp, s, bundleID) {
      forall t | multiset(t) == multiset(s)
        ensures SameVended(stamp, s, t, bundleID)
      {
        VendedIsOrderFree(stamp, s, t, bundleID);
      }
    } else {
      var q, r :| LatestBy(stamp, s, bundleID, q) && LatestBy(stamp, s, bundleID, r) && q.outcome.Vended? != r.outcome.Vended?;
      var t := AnyLatestCanWin(stamp, s, bundleID, q);
      var u := AnyLatestCanWin(stamp, s, bundleID, r);
      assert !SameVended(stamp, s, t, bundleID) || !SameVended(stamp, s, u, bundleID);
    }
  }

  /** Two entries at one time, one vended and one refused: the first of the list decides. */
  lemma OrderMatters(stamp: Stamp, bundleID: string, at: int)
    ensures var v, r := ProbeResult(bundleID, Vended, "", at), ProbeResult(bundleID, Refused, "", at);
      multiset([v, r]) == multiset([r, v]) && !SameVended(stamp, [v, r], [r, v], bundleID)
  {
    var v, r := ProbeResult(bundleID, Vended, "", at), ProbeResult(bundleID, Refused, "", at);
    FrontWins(stamp, [v, r], bundleID);
    FrontWins(stamp, [r, v], bundleID);
  }

  // ---- Three scanners, one meaning ----------------------------------------

  ghost predicate Monotone(stamp: Stamp, times: set<int>) {
    forall x, y :: x in times && y in times ==> (x < y <==> stamp(x) < stamp(y))
  }

  ghost predicate StampsIn(results: seq<ProbeResult>, times: set<int>) {
    forall i :: 0 <= i < |results| ==> results[i].at in times
  }

  lemma {:induction false} SameNewest(stamp: Stamp, results: seq<ProbeResult>, bundleID: string, times: set<int>)
    requires StampsIn(results, times) && Monotone(stamp, times)
    ensures Newest(stamp, results, bundleID) == Newest(Exact(), results, bundleID)
    ensures Newest(stamp, results, bundleID).Some? ==> Newest(stamp, results, bundleID).value.at in times
  {
    if results != [] {
      var n := |results| - 1;
      SameNewest(stamp, results[..n], bundleID, times);
      assert results[n].at in times;
    }
  }

  lemma UnixNanoMonotone(times: set<int>)
    requires forall t :: t in times ==> -TWO_63 <= t < TWO_63
    ensures Monotone(UnixNano(), times)
  {
    forall x, y | x in times && y in times
      ensures x < y <==> UnixNano()(x) < UnixNano()(y)
    {
      assert WrapI64(x) == x && WrapI64(y) == y;
    }
  }

  /** A pair of probes of one bundle, the refused one after the vended one. */
  function TwoProbes(bundleID: string, x: int, y: int): seq<ProbeResult> {
    [ProbeResult(bundleID, Vended, "", x), ProbeResult(bundleID, Refused, "", y)]
  }

  lemma TwoProbesNewest(stamp: Stamp, bundleID: string, x: int, y: int)
    ensures Newest(stamp, TwoProbes(bundleID, x, y), bundleID)
         == Some(TwoProbes(bundleID, x, y)[if stamp(y) > stamp(x) then 1 else 0])
  {
    var s := TwoProbes(bundleID, x, y);
    assert s[..1] == [s[0]] && [s[0]][..0] == [];
    assert Newest(stamp, [s[0]], bundleID) == Some(s[0]);
  }

  /**
   * The planner's scan and the gates' scans agree on every result list over a set of probe
   * times exactly when UnixNano orders those times correctly.
   */
  lemma ScannersAgreeIff(times: set<int>)
    ensures (forall results, bundleID :: StampsIn(results, times) ==>
               Newest(UnixNano(), results, bundleID) == Newest(Exact(), results, bundleID))
       <==> Monotone(UnixNano(), times)
  {
    if Monotone(UnixNano(), times) {
      forall results, bundleID | StampsIn(results, times)
        ensures Newest(UnixNano(), results, bundleID) == Newest(Exact(), results, bundleID)
      {
        SameNewest(UnixNano(), results, bundleID, times);
      }
    } else {
      var x, y :| x in times && y in times && (x < y) != (UnixNano()(x) < UnixNano()(y));
      var s := TwoProbes("b", x, y);
      TwoProbesNewest(UnixNano(), "b", x, y);
      TwoProbesNewest(Exact(), "b", x, y);
      assert s[0] != s[1];
      assert StampsIn(s, times);
      assert Newest(UnixNano(), s, "b") != Newest(Exact(), s, "b");
    }
  }

  /** Past the range of UnixNano the planner calls an app vended whose newest entry is a refusal. */
  lemma ScannersDisagree(bundleID: string, now: int, ttl: I64)
    ensures var results := [ProbeResult(bundleID, Refused, "", TWO_63), ProbeResult(bundleID, Vended, "", 0)];
      IsVended(Newest(UnixNano(), results, bundleID)) && !CliFresh(results, bundleID, now, ttl) && !McpFresh(results, bundleID, now)
  {
    var results := [ProbeResult(bundleID, Refused, "", TWO_63), ProbeResult(bundleID, Vended, "", 0)];
    assert results[..1] == [results[0]] && [results[0]][..0] == [];
    assert Newest(UnixNano(), [results[0]], bundleID) == Some(results[0]);
    assert Newest(Exact(), [results[0]], bundleID) == Some(results[0]);
    assert WrapI64(TWO_63) == -TWO_63;
  }

  /** MCP acceptance implies CLI acceptance and, for representable times, a vended classification. */
  lemma McpImpliesCli(results: seq<ProbeResult>, bundleID: string, now: int)
    requires McpFresh(results, bundleID, now)
    ensures CliFresh(results, bundleID, now, TTL_CLI)
    ensures (forall i :: 0 <= i < |results| ==> -TWO_63 <= results[i].at < TWO_63) ==>
      IsVended(Newest(UnixNano(), results, bundleID))
  {
    if forall i :: 0 <= i < |results| ==> -TWO_63 <= results[i].at < TWO_63 {
      var times := set i | 0 <= i < |results| :: results[i].at;
      UnixNanoMonotone(times);
      SameNewest(UnixNano(), results, bundleID, times);
    }
  }

  // ---- How old an entry may be ---------------------------------------------

  /**
   * A vended entry of age now - at passes the MCP gate while it is younger than five minutes and the
   * CLI gate up to a day; any other outcome passes neither.
   */
  lemma FreshnessWindow(bundleID: string, outcome: ProbeOutcome, now: int, at: int)
    ensures var results := [ProbeResult(bundleID, outcome, "", at)];
      && (McpFresh(results, bundleID, now) <==> outcome == Vended && now - at < 300_000_000_000)
      && (CliFresh(results, bundleID, now, TTL_CLI) <==> outcome == Vended && now - at <= 86_400_000_000_000)
  {
    var results := [ProbeResult(bundleID, outcome, "", at)];
    assert results[..0] == [];
    assert Newest(Exact(), results, bundleID) == Some(results[0]);
  }

  // ---- Entries dated in the future ----------------------------------------

  /** The entry's time and the clock are at most ttl apart, whichever is earlier. */
  predicate WithinTtl(now: int, at: int, ttl: int) {
    -ttl <= now - at <= ttl
  }

  /**
   * The gates bound the age from above only: a vended entry from the future is accepted by both
   * however far ahead it is dated, and is within the TTL exactly up to the TTL ahead.
   */
  lemma FutureIsAccepted(bundleID: string, now: int, at: int)
    requires at >= now
    ensures var results := [ProbeResult(bundleID, Vended, "", at)];
      && McpFresh(results, bundleID, now) && CliFresh(results, bundleID, now, TTL_CLI)
      && (WithinTtl(now, at, TTL_CLI) <==> at <= now + TTL_CLI)
  {
    var results := [ProbeResult(bundleID, Vended, "", at)];
    assert results[..0] == [];
    assert Newest(Exact(), results, bundleID) == Some(results[0]);
  }

  // ---- Surviving a sort by bundle ID --------------------------------------

  function ByBundle(): (ProbeResult, ProbeResult) -> bool {
    (a: ProbeResult, b: ProbeResult) => LexLe(a.bundleID, b.bundleID)
  }

  lemma ByBundleIsPreorder()
    ensures TotalPreorder(ByBundle())
  {
    forall x: ProbeResult, y: ProbeResult
      ensures ByBundle()(x, y) || ByBundle()(y, x)
    {
      LexTotal(x.bundleID, y.bundleID);
    }
    forall x, y, z | ByBundle()(x, y) && ByBundle()(y, z)
      ensures ByBundle()(x, z)
    {
      LexTransitive(x.bundleID, y.bundleID, z.bundleID);
    }
  }

  predicate SameDecision(s: seq<ProbeResult>, t: seq<ProbeResult>, bundleID: string, now: int, ttl: I64) {
    && (CliFresh(s, bundleID, now, ttl) <==> CliFresh(t, bundleID, now, ttl))
    && (McpFresh(s, bundleID, now) <==> McpFresh(t, bundleID, now))
  }

  /** Every freshness question about the bundle has the same answer on both lists. */
  ghost predicate SameDecisions(s: seq<ProbeResult>, t: seq<ProbeResult>, bundleID: string) {
    forall now: int, ttl: I64 :: SameDecision(s, t, bundleID, now, ttl)
  }

  lemma PermutationKeepsDecisions(s: seq<ProbeResult>, t: seq<ProbeResult>, bundleID: string)
    requires multiset(s) == multiset(t) && StampTiesAgree(Exact(), s, bundleID)
    ensures SameDecisions(s, t, bundleID)
  {
    VendedIsOrderFree(Exact(), s, t, bundleID);
    PermutedNewest(Exact(), s, t, bundleID);
    var m, n := Newest(Exact(), s, bundleID), Newest(Exact(), t, bundleID);
    assert m.Some? ==> m.value.at == n.value.at;
    forall now: int, ttl: I64
      ensures SameDecision(s, t, bundleID, now, ttl)
    {
    }
  }

  /** Swapping two entries of one bundle in a list sorted by bundle leaves it sorted. */
  lemma SwapStaysSorted(s: seq<ProbeResult>, i: nat, j: nat)
    requires i < j < |s| && s[i].bundleID == s[j].bundleID && Sorted(ByBundle(), s)
    ensures SortedPermutation(ByBundle(), s, s[i := s[j]][j := s[i]])
  {
    var q := s[i := s[j]][j := s[i]];
    assert forall k :: 0 <= k < |s| ==> q[k].bundleID == s[k].bundleID;
    forall a, b | 0 <= a < b < |q|
      ensures ByBundle()(q[a], q[b])
    {
      assert ByBundle()(s[a], s[b]);
    }
  }

  /** When latest entries disagree, two results of the same unstable sort decide differently. */
  lemma TieFlips(results: seq<ProbeResult>, bundleID: string) returns (p: seq<ProbeResult>, q: seq<ProbeResult>)
    requires !StampTiesAgree(Exact(), results, bundleID)
    ensures SortedPermutation(ByBundle(), results, p) && SortedPermutation(ByBundle(), results, q)
    ensures !SameDecisions(p, q, bundleID)
  {
    ByBundleIsPreorder();
    p := StableSort(ByBundle(), results);
    SortIsPermutation(ByBundle(), results);
    var i, j := FirstTwo(p, results, bundleID);
    q := p[i := p[j]][j := p[i]];
    SwapStaysSorted(p, i, j);
    NewestIsFirstLatest(p, bundleID, i);
    NewestIsFirstLatest(q, bundleID, i);
    assert !SameDecision(p, q, bundleID, p[i].at, 0);
  }

  lemma FirstTwo(p: seq<ProbeResult>, results: seq<ProbeResult>, bundleID: string) returns (i: nat, j: nat)
    requires multiset(p) == multiset(results) && !StampTiesAgree(Exact(), results, bundleID)
    ensures i < j < |p| && p[i].bundleID == p[j].bundleID == bundleID && p[i].at == p[j].at
    ensures p[i].outcome.Vended? != p[j].outcome.Vended?
    ensures forall k :: 0 <= k < |p| && p[k].bundleID == bundleID ==>
      p[k].at <= p[i].at && (k < i ==> p[k].at < p[i].at)
  {
    assert forall r :: r in p <==> r in results by {
      assert forall r :: r in p <==> r in multiset(p);
      assert forall r :: r in results <==> r in multiset(results);
    }
    var a, b :| LatestBy(Exact(), results, bundleID, a) && LatestBy(Exact(), results, bundleID, b)
      && a.outcome.Vended? != b.outcome.Vended?;
    var top := a.at;
    i := FirstAt(p, bundleID, top, a);
    var other := if p[i].outcome.Vended? == a.outcome.Vended? then b else a;
    j :| 0 <= j < |p| && p[j] == other;
  }

  lemma FirstAt(p: seq<ProbeResult>, bundleID: string, top: int, a: ProbeResult) returns (i: nat)
    requires a in p && a.bundleID == bundleID && a.at == top
    ensures i < |p| && p[i].bundleID == bundleID && p[i].at == top
    ensures forall k :: 0 <= k < i ==> p[k].bundleID != bundleID || p[k].at != top
  {
    i := 0;
    while p[i].bundleID != bundleID || p[i].at != top
      invariant i < |p|
      invariant a in p[i..]
      invariant forall k :: 0 <= k < i ==> p[k].bundleID != bundleID || p[k].at != top
      decreases |p| - i
    {
      assert p[i..] == [p[i]] + p[i + 1..];
      i := i + 1;
    }
  }

  /**
   * Sorting by bundle ID, which is not stable, keeps every freshness decision about a bundle
   * whatever it does with equal keys, exactly when the bundle's latest entries agree.
   */
  lemma DecisionsSurviveSortIff(results: seq<ProbeResult>, bundleID: string)
    ensures (forall out :: SortedPermutation(ByBundle(), results, out) ==> SameDecisions(results, out, bundleID))
       <==> StampTiesAgree(Exact(), results, bundleID)
  {
    if StampTiesAgree(Exact(), results, bundleID) {
      forall out | SortedPermutation(ByBundle(), results, out)
        ensures SameDecisions(results, out, bundleID)
      {
        PermutationKeepsDecisions(results, out, bundleID);
      }
    } else {
      var p, q := TieFlips(results, bundleID);
      if SameDecisions(results, p, bundleID) && SameDecisions(results, q, bundleID) {
        forall now: int, ttl: I64
          ensures SameDecision(p, q, bundleID, now, ttl)
        {
          assert SameDecision(results, p, bundleID, now, ttl) && SameDecision(results, q, bundleID, now, ttl);
        }
      }
    }
  }
}
