/** The string helpers the programs use. */
module Strings {
  import opened Common

  /** Bundle IDs that every command and tool leaves alone. */
  predicate AppleSystem(bundleID: string) {
    "com.apple." <= bundleID
  }

  /** strings.Cut at the first c. */
  function CutAt(s: string, c: char): (r: (string, Option<string>))
    ensures r.1.None? <==> c !in s
    ensures r.1.None? ==> r.0 == s
    ensures r.1.Some? ==> s == r.0 + [c] + r.1.value && c !in r.0
  {
    if s == "" then (s, None)
    else if s[0] == c then
      assert s == "" + [c] + s[1..];
      ("", Some(s[1..]))
    else
      var r := CutAt(s[1..], c);
      assert r.1.Some? ==> s == ([s[0]] + r.0) + [c] + r.1.value;
      ([s[0]] + r.0, r.1)
  }

  /** unicode.IsSpace. */
  predicate IsSpace(c: char) {
    || '\t' <= c <= '\r' || c == ' ' || c == '\U{85}' || c == '\U{A0}' || c == '\U{1680}'
    || '\U{2000}' <= c <= '\U{200A}' || c == '\U{2028}' || c == '\U{2029}' || c == '\U{202F}'
    || c == '\U{205F}' || c == '\U{3000}'
  }

  function TrimLeft(s: string): string {
    if s != "" && IsSpace(s[0]) then TrimLeft(s[1..]) else s
  }

  function TrimRight(s: string): string {
    if s != "" && IsSpace(s[|s| - 1]) then TrimRight(s[..|s| - 1]) else s
  }

  function TrimSpace(s: string): string {
    TrimRight(TrimLeft(s))
  }

  predicate AllSpace(s: string) {
    forall i :: 0 <= i < |s| ==> IsSpace(s[i])
  }

  lemma {:induction false} TrimLeftIs(s: string) returns (before: string)
    ensures s == before + TrimLeft(s) && AllSpace(before)
    ensures TrimLeft(s) != "" ==> !IsSpace(TrimLeft(s)[0])
  {
    before := "";
    if s != "" && IsSpace(s[0]) {
      before := TrimLeftIs(s[1..]);
      before := [s[0]] + before;
      assert s == [s[0]] + s[1..];
    }
  }

  lemma {:induction false} TrimRightIs(s: string) returns (after: string)
    ensures s == TrimRight(s) + after && AllSpace(after)
    ensures TrimRight(s) != "" ==> !IsSpace(TrimRight(s)[|TrimRight(s)| - 1])
  {
    after := "";
    if s != "" && IsSpace(s[|s| - 1]) {
      after := TrimRightIs(s[..|s| - 1]);
      after := after + [s[|s| - 1]];
      assert s == s[..|s| - 1] + [s[|s| - 1]];
    }
  }

  /** Trimming takes away just the white space at both ends. */
  lemma TrimSpaceIs(s: string) returns (before: string, after: string)
    ensures s == before + TrimSpace(s) + after && AllSpace(before) && AllSpace(after)
    ensures var t := TrimSpace(s); t != "" ==> !IsSpace(t[0]) && !IsSpace(t[|t| - 1])
  {
    before := TrimLeftIs(s);
    after := TrimRightIs(TrimLeft(s));
    Assoc(before, TrimSpace(s), after);
    var t := TrimSpace(s);
    assert t != "" ==> TrimLeft(s)[0] == t[0];
  }

  predicate PrintableASCII(s: string) {
    forall i :: 0 <= i < |s| ==> ' ' <= s[i] <= '~'
  }

  /** The prefix counts with its last dot: "com.apple" itself is nobody's. */
  lemma AppleSystemIff(bundleID: string)
    ensures AppleSystem(bundleID) <==> exists rest :: bundleID == "com.apple." + rest
    ensures !AppleSystem("com.apple")
  {
    if AppleSystem(bundleID) {
      assert bundleID == "com.apple." + bundleID[10..];
    }
  }

  /** From U+0020 to U+007E. */
  lemma PrintableIff(s: string)
    ensures PrintableASCII(s) <==> forall i :: 0 <= i < |s| ==> 0x20 <= s[i] as int <= 0x7E
  {
  }

  /** The code points of white space. */
  lemma IsSpaceIff(c: char)
    ensures IsSpace(c) <==>
      || c as int in {9, 10, 11, 12, 13, 0x20, 0x85, 0xA0, 0x1680, 0x2028, 0x2029, 0x202F, 0x205F, 0x3000}
      || 0x2000 <= c as int <= 0x200A
  {
  }
}
