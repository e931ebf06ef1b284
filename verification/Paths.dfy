/** POSIX paths inside one app container, as strings, and the cleaner's top-level-child scan. */
module Paths {

  /** p lies strictly below directory d. */
  predicate Below(d: string, p: string) {
    d + "/" <= p
  }

  predicate Within(d: string, p: string) {
    p == d || Below(d, p)
  }

  /** The name of an entry: one segment that is neither "." nor "..". */
  predicate Plain(name: string) {
    name != "" && '/' !in name && name != "." && name != ".."
  }

  /** c is an immediate child of root. */
  predicate ChildOf(root: string, c: string) {
    Below(root, c) && Plain(c[|root| + 1..])
  }

  /** p[i..j] lies between two slashes or the ends of p. */
  predicate Segment(p: string, i: nat, j: nat) {
    && i <= j <= |p| && '/' !in p[i..j]
    && (i > 0 ==> p[i - 1] == '/') && (j < |p| ==> p[j] == '/')
  }

  /** No empty segment and no dots. */
  ghost predicate Normal(p: string) {
    forall i: nat, j: nat :: Segment(p, i, j) ==> Plain(p[i..j])
  }

  /** The directory above d; the container itself is ".". */
  function Parent(d: string): string {
    if d == "" then "."
    else if d[|d| - 1] == '/' then d[..|d| - 1]
    else Parent(d[..|d| - 1])
  }

  /** path.Join of a clean directory and one name. */
  function Join(d: string, name: string): string {
    if name == "" || name == "." then d
    else if name == ".." then Parent(d)
    else d + "/" + name
  }

  lemma {:induction false} ParentIsShort(d: string)
    ensures Parent(d) == "." || |Parent(d)| < |d|
  {
    if d != "" && d[|d| - 1] != '/' {
      ParentIsShort(d[..|d| - 1]);
    }
  }

  /** Joining a listed name gives a child exactly when the name is neither empty nor dots. */
  lemma JoinIsChildIff(d: string, name: string)
    requires '/' !in name
    ensures ChildOf(d, Join(d, name)) <==> Plain(name)
  {
    if Plain(name) {
      FirstSegment(d, name);
    } else if name == ".." {
      ParentIsShort(d);
      assert (d + "/")[0] == if d == "" then '/' else d[0];
    }
  }

  lemma {:induction false} ParentOf(d: string, name: string)
    requires '/' !in name
    ensures Parent(d + "/" + name) == d
  {
    var p := d + "/" + name;
    if name == "" {
      assert p[..|p| - 1] == d;
    } else {
      var init := name[..|name| - 1];
      ParentOf(d, init);
      assert p[..|p| - 1] == d + "/" + init;
    }
  }

  /** Without the skip of "..", removing a listed child could leave the target. */
  lemma DotDotLeavesTarget()
    ensures Within(Join("Library/Caches", ".."), "Library/Preferences") && !Within("Library/Caches", "Library/Preferences")
    ensures Within(Join("Library/Caches", ".."), "Library/Caches")
  {
    ParentOf("Library", "Caches");
    assert "Library" + "/" + "Caches" == "Library/Caches";
    assert "Library/Caches"[8] == 'C' && "Library/Preferences"[8] == 'P';
  }

  function IndexOf(s: string, b: char): (i: int)
    ensures -1 <= i < |s|
    ensures i == -1 <==> b !in s
    ensures i >= 0 ==> s[i] == b && b !in s[..i]
  {
    if s == "" then -1
    else if s[0] == b then 0
    else
      var j := IndexOf(s[1..], b);
      assert j >= 0 ==> s[..j + 1] == [s[0]] + s[1..][..j];
      if j < 0 then -1 else j + 1
  }

  method IndexByte(s: string, b: char) returns (i: int)
    ensures i == IndexOf(s, b)
  {
    i := 0;
    while i < |s|
      invariant 0 <= i <= |s|
      invariant b !in s[..i]
    {
      if s[i] == b {
        FirstIndexUnique(s, b, i);
        return;
      }
      i := i + 1;
    }
    assert s[..i] == s;
    i := -1;
  }

  lemma FirstIndexUnique(s: string, b: char, i: nat)
    requires i < |s| && s[i] == b && b !in s[..i]
    ensures IndexOf(s, b) == i
  {
  }

  function TopLevelChild(root: string, entry: string): string {
    if !(root + "/" <= entry) then ""
    else
      var rest := entry[|root| + 1..];
      var i := IndexOf(rest, '/');
      if i >= 0 then root + "/" + rest[..i] else root + "/" + rest
  }

  /** The string scan agrees with the tree: an entry is bucketed under c exactly when c contains it. */
  lemma TopLevelChildIsContainer(root: string, c: string, p: string)
    requires ChildOf(root, c)
    ensures TopLevelChild(root, p) == c <==> Within(c, p)
  {
    var name := c[|root| + 1..];
    assert c == root + "/" + name;
    if Within(c, p) {
      assert Below(root, p);
      var rest := p[|root| + 1..];
      assert rest == name || rest[..|name| + 1] == name + "/" by {
        if p != c {
          assert p[..|c| + 1] == c + "/";
          assert rest[..|name| + 1] == p[|root| + 1..|c| + 1];
        }
      }
      if rest == name {
        assert IndexOf(rest, '/') == -1;
      } else {
        assert rest[|name|] == rest[..|name| + 1][|name|] == '/';
        assert rest[..|name|] == rest[..|name| + 1][..|name|] == name;
        FirstIndexUnique(rest, '/', |name|);
      }
    }
  }

  /** Below a normal path's ancestor there is always an immediate child that contains the path. */
  lemma TopLevelChildExists(root: string, p: string)
    requires Normal(p) && Below(root, p)
    ensures ChildOf(root, TopLevelChild(root, p))
    ensures Within(TopLevelChild(root, p), p)
  {
    var rest := p[|root| + 1..];
    assert p == (root + "/") + rest;
    FirstSegmentPlain(root, p);
    FirstSegmentContains(root, rest);
  }

  /** The first segment of a path. */
  function Head(rest: string): string {
    var i := IndexOf(rest, '/');
    if i >= 0 then rest[..i] else rest
  }

  lemma FirstSegmentPlain(root: string, p: string)
    requires Normal(p) && Below(root, p)
    ensures Plain(Head(p[|root| + 1..]))
  {
    var start, rest := |root| + 1, p[|root| + 1..];
    var end := start + |Head(rest)|;
    assert p[|root|] == (root + "/")[|root|] == '/';
    assert p[start..end] == Head(rest);
    assert end < |p| ==> p[end] == rest[|Head(rest)|];
    assert Segment(p, start, end);
  }

  lemma FirstSegmentContains(root: string, rest: string)
    requires Plain(Head(rest))
    ensures var p := (root + "/") + rest;
            ChildOf(root, TopLevelChild(root, p)) && Within(TopLevelChild(root, p), p)
  {
    var p := (root + "/") + rest;
    var i := IndexOf(rest, '/');
    assert p[|root| + 1..] == rest;
    FirstSegment(root, Head(rest));
    if i >= 0 {
      SegmentPrefix(root, rest, i);
    }
  }

  lemma SegmentPrefix(root: string, rest: string, i: nat)
    requires i < |rest| && rest[i] == '/'
    ensures Below(root + "/" + rest[..i], (root + "/") + rest)
  {
    var c := root + "/" + rest[..i];
    assert rest == rest[..i] + ("/" + rest[i + 1..]);
    assert (root + "/") + rest == (c + "/") + rest[i + 1..];
    PrefixOfSum(c + "/", rest[i + 1..]);
  }

  lemma PrefixOfSum(a: string, b: string)
    ensures a <= a + b
  {
  }

  lemma FirstSegment(root: string, name: string)
    requires Plain(name)
    ensures ChildOf(root, root + "/" + name)
  {
    var c := root + "/" + name;
    assert c[..|root| + 1] == root + "/";
    assert c[|root| + 1..] == name;
  }

  /** Directories that share a descendant are nested. */
  lemma SharedDescendant(a: string, b: string, p: string)
    requires Within(a, p) && Within(b, p)
    ensures Within(a, b) || Within(b, a)
  {
    assert a == p[..|a|] && b == p[..|b|];
    if |a| < |b| {
      assert a + "/" == p[..|a| + 1] == b[..|a| + 1];
    } else if |b| < |a| {
      assert b + "/" == p[..|b| + 1] == a[..|b| + 1];
    }
  }

  lemma WithinTransitive(a: string, b: string, c: string)
    requires Within(a, b) && Within(b, c)
    ensures Within(a, c)
    ensures Below(a, b) || Below(b, c) ==> Below(a, c)
  {
  }
}
