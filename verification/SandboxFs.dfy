/**
 * One app's sandbox as a mutable tree of nodes, with the operations the cleaner calls.
 * Every operation may fail at any call; a failed removal may already have deleted any part
 * of what it was asked to delete.
 */
module SandboxFs {
  import opened Common
  import opened Paths

  /** File sizes are what an AFC stat reports: a non-negative int64. */
  type Size = x: int | 0 <= x < 0x8000_0000_0000_0000

  datatype Node = Dir | File(size: Size)

  type Tree = map<string, Node>

  datatype FileInfo = FileInfo(name: string, path: string, size: Size, isDir: bool)

  /** What one removal did. `gone` is what a failing removal deleted before it gave up. */
  datatype Reply = Removed | Failed(err: Error, gone: set<string>)

  /** One removal request: `deep` is RemoveAll, otherwise Remove. */
  datatype Attempt = Attempt(path: string, deep: bool, reply: Reply)

  predicate Covers(a: Attempt, p: string) {
    if a.deep then Within(a.path, p) else p == a.path
  }

  /** A removal reaches nothing outside the path it was given. */
  ghost predicate Possible(a: Attempt) {
    a.reply.Failed? ==> forall p :: p in a.reply.gone ==> Covers(a, p)
  }

  function Apply(t: Tree, a: Attempt): Tree {
    match a.reply
    case Removed => map p | p in t && !Covers(a, p) :: t[p]
    case Failed(_, gone) => map p | p in t && p !in gone :: t[p]
  }

  /** Every ancestor of a node is a directory, and paths have no empty segments. */
  ghost predicate WellFormed(t: Tree) {
    && (forall p :: p in t ==> Normal(p))
    && (forall d, p :: p in t && Below(d, p) && d != "" ==> d in t && t[d].Dir?)
  }

  function Info(t: Tree, p: string): FileInfo
    requires p in t
  {
    FileInfo(p, p, if t[p].File? then t[p].size else 0, t[p].Dir?)
  }

  predicate Describes(t: Tree, fi: FileInfo) {
    && fi.path in t
    && fi.isDir == t[fi.path].Dir?
    && (t[fi.path].File? ==> fi.size == t[fi.path].size)
  }

  /** The path the cleaner acts on for a listed child; a listing may leave Path blank. */
  function ChildPath(root: string, c: FileInfo): string {
    if c.path == "" then root + "/" + c.name else c.path
  }

  /** Distinct immediate children, each present in the tree. Entries may be missing. */
  ghost predicate GoodListing(t: Tree, root: string, entries: seq<FileInfo>) {
    && !(root in t && t[root].File?)
    && (forall i :: 0 <= i < |entries| ==>
          ChildOf(root, ChildPath(root, entries[i])) && ChildPath(root, entries[i]) in t)
    && (forall i, j :: 0 <= i < j < |entries| ==>
          ChildPath(root, entries[i]) != ChildPath(root, entries[j]))
  }

  /** What a directory's entries are called: distinct, never empty, never with a slash. */
  predicate EntryNames(names: seq<string>) {
    && (forall i :: 0 <= i < |names| ==> names[i] != "" && '/' !in names[i])
    && (forall i, j :: 0 <= i < j < |names| ==> names[i] != names[j])
  }

  lemma ChildIsNamed(dir: string, c: string)
    requires ChildOf(dir, c)
    ensures c == dir + "/" + c[|dir| + 1..]
  {
  }

  lemma SameEntry(dir: string, x: string, y: string)
    ensures dir + "/" + x == dir + "/" + y ==> x == y
  {
    assert (dir + "/" + x)[|dir| + 1..] == x && (dir + "/" + y)[|dir| + 1..] == y;
  }

  ghost predicate HasEntry(root: string, entries: seq<FileInfo>, c: string) {
    exists i :: 0 <= i < |entries| && ChildPath(root, entries[i]) == c
  }

  lemma EntryAdded(root: string, entries: seq<FileInfo>, e: FileInfo)
    ensures HasEntry(root, entries + [e], ChildPath(root, e))
    ensures forall c :: HasEntry(root, entries, c) ==> HasEntry(root, entries + [e], c)
  {
    var more := entries + [e];
    assert more[|entries|] == e;
    forall c | HasEntry(root, entries, c)
      ensures HasEntry(root, more, c)
    {
      var i :| 0 <= i < |entries| && ChildPath(root, entries[i]) == c;
      assert more[i] == entries[i];
    }
  }

  /** Every plain name among `names` has its entry, or its Stat failed. */
  ghost predicate Covered(dir: string, names: seq<string>, entries: seq<FileInfo>, lost: set<string>) {
    forall n :: n in names && Plain(n) ==> dir + "/" + n in lost || HasEntry(dir, entries, dir + "/" + n)
  }

  lemma CoveredStep(dir: string, names: seq<string>, entries: seq<FileInfo>, lost: set<string>, name: string)
    requires Covered(dir, names, entries, lost)
    ensures !Plain(name) ==> Covered(dir, names + [name], entries, lost)
    ensures Covered(dir, names + [name], entries, lost + {dir + "/" + name})
    ensures forall e :: ChildPath(dir, e) == dir + "/" + name ==> Covered(dir, names + [name], entries + [e], lost)
  {
    forall e | ChildPath(dir, e) == dir + "/" + name
      ensures Covered(dir, names + [name], entries + [e], lost)
    {
      EntryAdded(dir, entries, e);
    }
  }

  lemma CoversChild(dir: string, names: seq<string>, entries: seq<FileInfo>, lost: set<string>, c: string)
    requires Covered(dir, names, entries, lost) && ChildOf(dir, c) && c[|dir| + 1..] in names && c !in lost
    ensures HasEntry(dir, entries, c)
  {
    ChildIsNamed(dir, c);
  }

  ghost predicate CompleteListing(t: Tree, root: string, entries: seq<FileInfo>) {
    forall c :: c in t && ChildOf(root, c) ==> HasEntry(root, entries, c)
  }

  /** One callback of a walk: an entry, or the error met at that entry. */
  datatype Visit = Visit(info: FileInfo, err: Option<Error>)

  predicate Clean(visits: seq<Visit>) {
    forall i :: 0 <= i < |visits| ==> visits[i].err.None?
  }

  /** A walk that reports no error visits every node at or below root exactly once. */
  ghost predicate WalkOf(t: Tree, root: string, visits: seq<Visit>) {
    && (forall i :: 0 <= i < |visits| ==> Within(root, visits[i].info.path) && Describes(t, visits[i].info))
    && (forall i, j :: 0 <= i < j < |visits| ==> visits[i].info.path != visits[j].info.path)
    && (forall p :: p in t && Within(root, p) ==> exists i :: 0 <= i < |visits| && visits[i].info.path == p)
  }

  /** One call on the sandbox with its answer. */
  datatype Call =
    | Listed(dir: string, listing: Result<seq<FileInfo>, Error>)
    | Walked(root: string, visits: seq<Visit>, err: Option<Error>)
    | Tried(attempt: Attempt)

  /** `log` records the calls; only the operations themselves extend it. */
  class FS {
    var tree: Tree
    ghost var log: seq<Call>

    constructor (t: Tree)
      ensures tree == t && log == []
    {
      tree := t;
      log := [];
    }

    /** The device's names of a directory's entries, in any order; it may list "." and ".." too. */
    method RawList(dir: string) returns (r: Result<seq<string>, Error>)
      ensures r.Ok? ==> !(dir in tree && tree[dir].File?) && EntryNames(r.value)
      ensures r.Ok? ==> forall c :: c in tree && ChildOf(dir, c) ==> c[|dir| + 1..] in r.value
    {
      var fails: bool := *;
      if fails || (dir in tree && tree[dir].File?) {
        var e: Error := *;
        return Err(e);
      }
      var dot, dotDot: bool := *, *;
      var names := (if dot then ["."] else []) + (if dotDot then [".."] else []);
      var todo := set c | c in tree && ChildOf(dir, c);
      while todo != {}
        invariant forall c :: c in todo ==> c in tree && ChildOf(dir, c)
        invariant EntryNames(names)
        invariant forall c :: c in todo ==> c[|dir| + 1..] !in names
        invariant forall c :: c in tree && ChildOf(dir, c) && c !in todo ==> c[|dir| + 1..] in names
      {
        var c :| c in todo;
        ChildIsNamed(dir, c);
        forall d | d in todo && d != c
          ensures d[|dir| + 1..] != c[|dir| + 1..]
        {
          ChildIsNamed(dir, d);
        }
        todo := todo - {c};
        names := names + [c[|dir| + 1..]];
      }
      r := Ok(names);
    }

    /** A Stat may fail at any time, and fails on a path without a node. */
    method Stat(p: string) returns (r: Result<FileInfo, Error>)
      ensures r.Ok? ==> p in tree && r.value == Info(tree, p)
    {
      var fails: bool := *;
      if fails || p !in tree {
        var e: Error := *;
        return Err(e);
      }
      r := Ok(Info(tree, p));
    }

    /**
     * One entry per listed name, skipping dots and the names in `lost`, whose Stat failed; a
     * cancellation ends it.
     */
    method List(dir: string) returns (r: Result<seq<FileInfo>, Error>, ghost lost: set<string>)
      modifies this`log
      ensures log == old(log) + [Listed(dir, r)]
      ensures r.Ok? ==> GoodListing(tree, dir, r.value)
      ensures r.Ok? ==> forall c :: c in tree && ChildOf(dir, c) && c !in lost ==> HasEntry(dir, r.value, c)
    {
      r, lost := Entries(dir);
      log := log + [Listed(dir, r)];
    }

    method Entries(dir: string) returns (r: Result<seq<FileInfo>, Error>, ghost lost: set<string>)
      ensures r.Ok? ==> GoodListing(tree, dir, r.value)
      ensures r.Ok? ==> forall c :: c in tree && ChildOf(dir, c) && c !in lost ==> HasEntry(dir, r.value, c)
    {
      lost := {};
      var raw := RawList(dir);
      if raw.Err? {
        return Err(raw.error), lost;
      }
      var names := raw.value;
      var out: seq<FileInfo> := [];
      ghost var from: seq<string> := [];
      var i := 0;
      while i < |names|
        invariant 0 <= i <= |names|
        invariant GoodListing(tree, dir, out)
        invariant |from| == |out|
        invariant forall j :: 0 <= j < |out| ==> from[j] in names[..i] && ChildPath(dir, out[j]) == dir + "/" + from[j]
        invariant Covered(dir, names[..i], out, lost)
      {
        var name := names[i];
        i := i + 1;
        TakeStep(names, i - 1);
        CoveredStep(dir, names[..i - 1], out, lost, name);
        if name == "." || name == ".." {
          continue;
        }
        var cancelled: bool := *;
        if cancelled {
          var e: Error := *;
          return Err(e), lost;
        }
        var child := Join(dir, name);
        var info := Stat(child);
        if info.Err? {
          lost := lost + {child};
          continue;
        }
        assert ChildPath(dir, info.value) == child;
        JoinIsChildIff(dir, name);
        forall j | 0 <= j < |out|
          ensures ChildPath(dir, out[j]) != child
        {
          SameEntry(dir, from[j], name);
        }
        out, from := out + [info.value], from + [name];
      }
      TakeAll(names, i);
      forall c | c in tree && ChildOf(dir, c) && c !in lost
        ensures HasEntry(dir, out, c)
      {
        CoversChild(dir, names, out, lost, c);
      }
      r := Ok(out);
    }

    method Walk(root: string) returns (visits: seq<Visit>, err: Option<Error>)
      modifies this`log
      ensures log == old(log) + [Walked(root, visits, err)]
      ensures err.None? ==> WalkOf(tree, root, visits)
    {
      visits, err := Visits(root);
      log := log + [Walked(root, visits, err)];
    }

    method Visits(root: string) returns (visits: seq<Visit>, err: Option<Error>)
      ensures err.None? ==> WalkOf(tree, root, visits)
    {
      var todo := set p | p in tree && Within(root, p);
      visits := [];
      err := None;
      while todo != {}
        invariant err.None? ==> todo <= set p | p in tree && Within(root, p)
        invariant err.None? ==> WalkOf(map p | p in tree && p !in todo :: tree[p], root, visits)
      {
        var p :| p in todo;
        var broken: bool := *;
        var e: Error := *;
        ghost var before := visits;
        visits := visits + [Visit(Info(tree, p), if broken then Some(e) else None)];
        if err.None? {
          WalkExtends(map q | q in tree && q !in todo :: tree[q], root, before, p, tree[p], visits[|before|]);
          assert (map q | q in tree && q !in todo :: tree[q])[p := tree[p]]
              == map q | q in tree && q !in todo - {p} :: tree[q];
        }
        todo := todo - {p};
        var gaveUp: bool := *;
        if gaveUp {
          var why: Error := *;
          err := Some(why);
        }
      }
      assert (map p | p in tree && p !in todo :: tree[p]) == tree;
    }

    method RemoveAll(p: string) returns (err: Option<Error>, ghost done: Attempt)
      modifies this
      ensures done.path == p && done.deep && Possible(done)
      ensures err.None? <==> done.reply.Removed?
      ensures err.Some? ==> err.value == done.reply.err
      ensures tree == Apply(old(tree), done) && log == old(log) + [Tried(done)]
    {
      var a := ChooseReply(p, true);
      tree, log := Apply(tree, a), log + [Tried(a)];
      err, done := if a.reply.Removed? then None else Some(a.reply.err), a;
    }

    method Remove(p: string) returns (err: Option<Error>, ghost done: Attempt)
      modifies this
      ensures done.path == p && !done.deep && Possible(done)
      ensures err.None? <==> done.reply.Removed?
      ensures err.Some? ==> err.value == done.reply.err
      ensures tree == Apply(old(tree), done) && log == old(log) + [Tried(done)]
    {
      var a := ChooseReply(p, false);
      tree, log := Apply(tree, a), log + [Tried(a)];
      err, done := if a.reply.Removed? then None else Some(a.reply.err), a;
    }

    /** The device's answer: success, or a failure after any part of the scope was deleted. */
    method ChooseReply(p: string, deep: bool) returns (a: Attempt)
      ensures a.path == p && a.deep == deep && Possible(a)
    {
      a := Attempt(p, deep, Removed);
      var fails: bool := *;
      if fails {
        var scope := set q | q in tree && Covers(a, q);
        var e: Error := *;
        var gone: set<string> :| gone <= scope;
        a := Attempt(p, deep, Failed(e, gone));
      }
    }
  }

  lemma WalkExtends(t: Tree, root: string, visits: seq<Visit>, p: string, n: Node, v: Visit)
    requires WalkOf(t, root, visits) && p !in t && Within(root, p)
    requires v.info == Info(t[p := n], p)
    ensures WalkOf(t[p := n], root, visits + [v])
  {
    var t', visits' := t[p := n], visits + [v];
    forall q | q in t' && Within(root, q)
      ensures exists i :: 0 <= i < |visits'| && visits'[i].info.path == q
    {
      if q == p {
        assert visits'[|visits|].info.path == p;
      } else {
        var i :| 0 <= i < |visits| && visits[i].info.path == q;
        assert visits'[i].info.path == q;
      }
    }
  }
}
