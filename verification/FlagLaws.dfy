/** The splitter followed by Parse refines the permuting reference parser. */
module FlagLaws {
  import opened Common
  import opened Flags
  import opened Strings

  // ---- The two scanners read the same name --------------------------------

  lemma {:induction false} TrimDashesOf(s: string)
    ensures s != "" && s[0] != '-' ==> TrimDashes(s) == s
    ensures s != "" && s[0] == '-' ==> TrimDashes(s) == TrimDashes(s[1..])
  {
  }

  /** Unless Parse rejects the token's syntax, the splitter's name and its test for "=" agree with Parse. */
  lemma SameName(s: string)
    requires !NonFlag(s)
    requires var body := AfterDashes(s); body != "" && body[0] != '-' && body[0] != '='
    ensures SplitName(s) == CutAt(AfterDashes(s), '=').0
    ensures '=' in s <==> CutAt(AfterDashes(s), '=').1.Some?
  {
    var body := AfterDashes(s);
    if s[1] == '-' {
      assert s[1..][1..] == body;
      assert s == ['-', '-'] + body;
    } else {
      assert s == ['-'] + body;
    }
    TrimDashesOf(s);
    TrimDashesOf(s[1..]);
    TrimDashesOf(body);
  }

  // ---- What one flag token means ------------------------------------------

  /** A token's dashes: one or two. */
  predicate Dashes(d: string) {
    d == "-" || d == "--"
  }

  /** A name as it may stand in a token. */
  predicate Named(name: string) {
    name != "" && name[0] != '-' && '=' !in name
  }

  lemma {:induction false} CutNamed(name: string, value: string)
    requires '=' !in name
    ensures CutAt(name, '=') == (name, None)
    ensures CutAt(name + "=" + value, '=') == (name, Some(value))
  {
    var s := name + "=" + value;
    if name == "" {
      assert s[0] == '=' && s[1..] == value;
    } else {
      CutNamed(name[1..], value);
      assert s[0] == name[0] && s[1..] == name[1..] + "=" + value;
      assert [name[0]] + name[1..] == name;
    }
  }

  lemma BodyOf(d: string, body: string)
    requires Dashes(d) && body != "" && (d == "-" ==> body[0] != '-')
    ensures !NonFlag(d + body) && AfterDashes(d + body) == body
  {
    var s := d + body;
    assert s[0] == '-' && (d == "-" ==> s[1] == body[0]) && (d == "--" ==> s[1] == '-');
    assert s[|d|..] == body;
  }

  /**
   * `--name=value` assigns exactly that value, also to a boolean flag and also when it is empty, and is
   * refused when the flag does not accept it. It never takes the next token.
   */
  lemma FlagWithEquals(fs: FlagSet, d: string, name: string, value: string, rest: seq<string>)
    requires Dashes(d) && Named(name)
    ensures var s := d + (name + "=" + value);
      && !NonFlag(s)
      && ParseFlag(fs, s, rest)
         == if !fs.Known(name) then Bad(if name == "help" || name == "h" then Help else NotDefined, s)
            else if fs.accepts(name, value) then Set(Assign(name, value), rest)
            else Bad(InvalidValue, s)
  {
    var body := name + "=" + value;
    assert body[0] == name[0];
    BodyOf(d, body);
    CutNamed(name, value);
  }

  /** A token whose name would be empty or start with a third dash is malformed. */
  lemma MalformedFlag(fs: FlagSet, d: string, body: string, rest: seq<string>)
    requires Dashes(d) && body != "" && (body[0] == '=' || (d == "--" && body[0] == '-'))
    ensures !NonFlag(d + body) && ParseFlag(fs, d + body, rest) == Bad(BadSyntax, d + body)
  {
    BodyOf(d, body);
  }

  /**
   * A bare `--name` sets a boolean flag to true and leaves the next token alone; another flag takes the
   * next token as its value, whatever it is, and needs one.
   */
  lemma BareFlag(fs: FlagSet, d: string, name: string, rest: seq<string>)
    requires Dashes(d) && Named(name)
    ensures var s := d + name;
      && !NonFlag(s)
      && (name in fs.bools ==>
            ParseFlag(fs, s, rest) == if fs.accepts(name, "true") then Set(Assign(name, "true"), rest) else Bad(InvalidValue, s))
      && (fs.Known(name) && name !in fs.bools && rest == [] ==> ParseFlag(fs, s, rest) == Bad(NeedsArgument, s))
      && (fs.Known(name) && name !in fs.bools && rest != [] ==>
            ParseFlag(fs, s, rest)
            == if fs.accepts(name, rest[0]) then Set(Assign(name, rest[0]), rest[1..]) else Bad(InvalidValue, s))
      && (!fs.Known(name) ==>
            ParseFlag(fs, s, rest) == Bad(if name == "help" || name == "h" then Help else NotDefined, s))
  {
    BodyOf(d, name);
    CutNamed(name, "");
  }

  // ---- Refinement ---------------------------------------------------------

  /** The scan meets a "--" that is not a flag's value. */
  predicate UserSentinel(fs: FlagSet, args: seq<string>)
    decreases |args|
  {
    args != [] &&
    (args[0] == "--" ||
     UserSentinel(fs, args[if !IsPositional(args[0]) && TakesNext(fs, args[0]) && |args| > 1 then 2 else 1..]))
  }

  /** What Parse makes of the splitter's output, in terms of what the reference makes of the input. */
  ghost predicate Refines(fs: FlagSet, args: seq<string>, split: (seq<string>, seq<string>), p: Outcome, r: Outcome) {
    match r.stop
    case Done(positionals) =>
      && split.1 == positionals
      && p == Outcome(r.sets, Done(if UserSentinel(fs, args) then ["--"] else []))
    case Failed(NeedsArgument, token) =>
      // The appended sentinel is read as the missing value.
      if fs.accepts(SplitName(token), "--")
      then p == Outcome(r.sets + [Assign(SplitName(token), "--")], Done([]))
      else p == Outcome(r.sets, Failed(InvalidValue, token))
    case Failed(_, _) => p == r
  }

  /** For every argument list: exactly what the two-step parser does compared with the reference. */
  lemma {:induction false} SplitThenParse(fs: FlagSet, args: seq<string>)
    requires fs.Valid()
    ensures Refines(fs, args, Split(fs, args), Parse(fs, Split(fs, args).0 + ["--"]), ParsePermuted(fs, args))
    decreases |args|, 2
  {
    var flags := Split(fs, args).0;
    if args == [] || args[0] == "--" {
    } else if IsPositional(args[0]) {
      SplitThenParse(fs, args[1..]);
    } else {
      FlagToken(fs, args);
    }
  }

  lemma {:induction false} FlagToken(fs: FlagSet, args: seq<string>)
    requires fs.Valid()
    requires args != [] && args[0] != "--" && !IsPositional(args[0])
    ensures Refines(fs, args, Split(fs, args), Parse(fs, Split(fs, args).0 + ["--"]), ParsePermuted(fs, args))
    decreases |args|, 1
  {
    var a := args[0];
    var body := AfterDashes(a);
    if body == "" || body[0] == '-' || body[0] == '=' {
      FirstFlag(fs, args);
    } else {
      SameName(a);
      if !TakesNext(fs, a) {
        LoneFlag(fs, args);
      } else if |args| > 1 {
        FlagWithValue(fs, args);
      } else {
        FirstFlag(fs, args);
        assert (Split(fs, args).0 + ["--"])[1..] == ["--"];
      }
    }
  }

  lemma FirstFlag(fs: FlagSet, args: seq<string>)
    requires args != [] && args[0] != "--" && !IsPositional(args[0])
    ensures var all := Split(fs, args).0 + ["--"]; all[0] == args[0] && !NonFlag(all[0])
  {
  }

  /** One assignment made by both parsers carries refinement from the rest to the whole. */
  lemma RefinesAfterSet(fs: FlagSet, args: seq<string>, n: nat, assign: Assign)
    requires n <= |args|
    requires Split(fs, args).1 == Split(fs, args[n..]).1
    requires UserSentinel(fs, args) == UserSentinel(fs, args[n..])
    requires var p := Parse(fs, Split(fs, args[n..]).0 + ["--"]);
      Parse(fs, Split(fs, args).0 + ["--"]) == Outcome([assign] + p.sets, p.stop)
    requires var r := ParsePermuted(fs, args[n..]);
      ParsePermuted(fs, args) == Outcome([assign] + r.sets, r.stop)
    requires Refines(fs, args[n..], Split(fs, args[n..]), Parse(fs, Split(fs, args[n..]).0 + ["--"]), ParsePermuted(fs, args[n..]))
    ensures Refines(fs, args, Split(fs, args), Parse(fs, Split(fs, args).0 + ["--"]), ParsePermuted(fs, args))
  {
    var r := ParsePermuted(fs, args[n..]);
    if r.stop.Failed? {
      var last := [Assign(SplitName(r.stop.token), "--")];
      assert [assign] + (r.sets + last) == ([assign] + r.sets) + last;
    }
  }

  lemma IgnoresNext(fs: FlagSet, s: string, rest: seq<string>, rest': seq<string>)
    requires fs.Valid() && !NonFlag(s) && !TakesNext(fs, s)
    requires var body := AfterDashes(s); body != "" && body[0] != '-' && body[0] != '='
    ensures var p := ParseFlag(fs, s, rest);
      if p.Set? then p.rest == rest && ParseFlag(fs, s, rest') == Set(p.assign, rest')
      else p.reason != NeedsArgument && ParseFlag(fs, s, rest') == p
  {
    SameName(s);
  }

  lemma {:induction false} LoneFlag(fs: FlagSet, args: seq<string>)
    requires fs.Valid()
    requires args != [] && args[0] != "--" && !IsPositional(args[0]) && !TakesNext(fs, args[0])
    requires var body := AfterDashes(args[0]); body != "" && body[0] != '-' && body[0] != '='
    ensures Refines(fs, args, Split(fs, args), Parse(fs, Split(fs, args).0 + ["--"]), ParsePermuted(fs, args))
    decreases |args|, 0
  {
    var all := Split(fs, args).0 + ["--"];
    SameName(args[0]);
    assert all == [args[0]] + (Split(fs, args[1..]).0 + ["--"]);
    assert all[1..] == Split(fs, args[1..]).0 + ["--"];
    IgnoresNext(fs, args[0], args[1..], all[1..]);
    SplitThenParse(fs, args[1..]);
    var p := ParseFlag(fs, args[0], args[1..]);
    if p.Set? {
      RefinesAfterSet(fs, args, 1, p.assign);
    }
  }

  lemma TakesOne(fs: FlagSet, s: string, rest: seq<string>, rest': seq<string>)
    requires fs.Valid() && !NonFlag(s) && TakesNext(fs, s)
    requires var body := AfterDashes(s); body != "" && body[0] != '-' && body[0] != '='
    requires rest != [] && rest' != [] && rest[0] == rest'[0]
    ensures var p := ParseFlag(fs, s, rest);
      if p.Set? then p.rest == rest[1..] && ParseFlag(fs, s, rest') == Set(p.assign, rest'[1..])
      else p.reason == InvalidValue && ParseFlag(fs, s, rest') == p
  {
    SameName(s);
  }

  /** How both parsers go on after one flag token. */
  lemma AfterFlag(fs: FlagSet, args: seq<string>)
    requires args != [] && args[0] != "--" && !NonFlag(args[0])
    ensures var p := ParseFlag(fs, args[0], args[1..]);
      p.Bad? ==>
        && Parse(fs, args) == Outcome([], Failed(p.reason, p.token))
        && ParsePermuted(fs, args) == Outcome([], Failed(p.reason, p.token))
    ensures var p := ParseFlag(fs, args[0], args[1..]);
      p.Set? ==>
        && Parse(fs, args) == Outcome([p.assign] + Parse(fs, p.rest).sets, Parse(fs, p.rest).stop)
        && ParsePermuted(fs, args)
           == Outcome([p.assign] + ParsePermuted(fs, p.rest).sets, ParsePermuted(fs, p.rest).stop)
  {
  }

  lemma SplitOfPair(fs: FlagSet, args: seq<string>)
    requires |args| > 1 && args[0] != "--" && !IsPositional(args[0]) && TakesNext(fs, args[0])
    ensures Split(fs, args) == (args[..2] + Split(fs, args[2..]).0, Split(fs, args[2..]).1)
    ensures var all := Split(fs, args).0 + ["--"];
      && all[0] == args[0] && all[1..] != [] && all[1..][0] == args[1] && args[1..][1..] == args[2..]
      && all[1..][1..] == Split(fs, args[2..]).0 + ["--"]
  {
    var all := Split(fs, args).0 + ["--"];
    assert all == args[..2] + (Split(fs, args[2..]).0 + ["--"]);
  }

  lemma {:induction false} FlagWithValue(fs: FlagSet, args: seq<string>)
    requires fs.Valid()
    requires |args| > 1 && args[0] != "--" && !IsPositional(args[0]) && TakesNext(fs, args[0])
    requires var body := AfterDashes(args[0]); body != "" && body[0] != '-' && body[0] != '='
    ensures Refines(fs, args, Split(fs, args), Parse(fs, Split(fs, args).0 + ["--"]), ParsePermuted(fs, args))
    decreases |args|, 0
  {
    var all := Split(fs, args).0 + ["--"];
    SplitOfPair(fs, args);
    TakesOne(fs, args[0], args[1..], all[1..]);
    AfterFlag(fs, args);
    AfterFlag(fs, all);
    var p := ParseFlag(fs, args[0], args[1..]);
    if p.Set? {
      SplitThenParse(fs, args[2..]);
      RefinesAfterSet(fs, args, 2, p.assign);
    }
  }

  /** The last token is a value flag without its value, reached without an earlier failure, and takes "--". */
  predicate SwallowsSentinel(fs: FlagSet, args: seq<string>)
    decreases |args|
  {
    if args == [] || args[0] == "--" then false
    else if NonFlag(args[0]) then SwallowsSentinel(fs, args[1..])
    else
      match ParseFlag(fs, args[0], args[1..])
      case Set(_, rest) => SwallowsSentinel(fs, rest)
      case Bad(NeedsArgument, token) => fs.accepts(SplitName(token), "--")
      case Bad(_, _) => false
  }

  lemma {:induction false} SwallowsSentinelIff(fs: FlagSet, args: seq<string>)
    ensures SwallowsSentinel(fs, args) <==>
      var stop := ParsePermuted(fs, args).stop;
      stop.Failed? && stop.reason == NeedsArgument && fs.accepts(SplitName(stop.token), "--")
    decreases |args|
  {
    if args == [] || args[0] == "--" {
    } else if NonFlag(args[0]) {
      SwallowsSentinelIff(fs, args[1..]);
    } else {
      var p := ParseFlag(fs, args[0], args[1..]);
      if p.Set? {
        SwallowsSentinelIff(fs, p.rest);
      }
    }
  }

  /**
   * Splitting first is faithful (same success, same assignments in order, same positionals,
   * nothing left over but the user's own sentinel) exactly when the input does not end in a
   * value flag that swallows the appended "--".
   */
  lemma SplitIsFaithfulIff(fs: FlagSet, args: seq<string>)
    requires fs.Valid()
    ensures var r, p := ParsePermuted(fs, args), Parse(fs, Split(fs, args).0 + ["--"]);
      (&& (p.stop.Failed? <==> r.stop.Failed?)
       && p.sets == r.sets
       && (r.stop.Done? ==>
             Split(fs, args).1 == r.stop.rest
             && p.stop == Done(if UserSentinel(fs, args) then ["--"] else [])))
      <==> !SwallowsSentinel(fs, args)
  {
    SplitThenParse(fs, args);
    SwallowsSentinelIff(fs, args);
  }

  lemma DeviceToken(fs: FlagSet)
    requires fs.Valid() && "device" in fs.values
    ensures ParseFlag(fs, "--device", []) == Bad(NeedsArgument, "--device") && SplitName("--device") == "device"
  {
    var s := "--device";
    assert AfterDashes(s) == "device";
    SameName(s);
  }

  lemma LoneDangling(fs: FlagSet, s: string)
    requires fs.Valid() && !NonFlag(s) && s != "--" && ParseFlag(fs, s, []) == Bad(NeedsArgument, s)
    requires fs.accepts(SplitName(s), "--")
    ensures ParsePermuted(fs, [s]) == Outcome([], Failed(NeedsArgument, s))
    ensures SwallowsSentinel(fs, [s])
    ensures Parse(fs, Split(fs, [s]).0 + ["--"]) == Outcome([Assign(SplitName(s), "--")], Done([]))
  {
    DropStep([s], 0);
    AfterFlag(fs, [s]);
    SwallowsSentinelIff(fs, [s]);
    SplitThenParse(fs, [s]);
  }

  /** A trailing `--device` is read as `--device=--` where the reference reports a missing argument. */
  lemma DanglingFlagExample(fs: FlagSet)
    requires fs.Valid() && "device" in fs.values && fs.accepts("device", "--")
    ensures SwallowsSentinel(fs, ["--device"])
    ensures ParsePermuted(fs, ["--device"]) == Outcome([], Failed(NeedsArgument, "--device"))
    ensures Parse(fs, Split(fs, ["--device"]).0 + ["--"]) == Outcome([Assign("device", "--")], Done([]))
  {
    DeviceToken(fs);
    LoneDangling(fs, "--device");
  }

  // ---- Position independence ----------------------------------------------

  /** c interleaves a and b. */
  ghost predicate Interleaves(a: seq<string>, b: seq<string>, c: seq<string>) {
    if c == [] then a == [] && b == []
    else
      || (a != [] && a[0] == c[0] && Interleaves(a[1..], b, c[1..]))
      || (b != [] && b[0] == c[0] && Interleaves(a, b[1..], c[1..]))
  }

  lemma {:induction false} AllRight(b: seq<string>)
    ensures Interleaves([], b, b)
  {
    if b != [] {
      AllRight(b[1..]);
    }
  }

  /** The splitter loses, adds and reorders nothing. */
  lemma {:induction false} SplitPartitions(fs: FlagSet, args: seq<string>)
    ensures Interleaves(Split(fs, args).0, Split(fs, args).1, args)
    decreases |args|
  {
    var (f, p) := Split(fs, args);
    if args == [] {
    } else if args[0] == "--" {
      AllRight(args[1..]);
      assert f[1..] == [];
    } else if IsPositional(args[0]) {
      SplitPartitions(fs, args[1..]);
      assert p[1..] == Split(fs, args[1..]).1;
    } else if TakesNext(fs, args[0]) && |args| > 1 {
      SplitPartitions(fs, args[2..]);
      assert f[1..][1..] == Split(fs, args[2..]).0 && args[1..][1..] == args[2..];
      assert Interleaves(f[1..], p, args[1..]);
    } else {
      SplitPartitions(fs, args[1..]);
      assert f[1..] == Split(fs, args[1..]).0;
    }
  }

  ghost predicate AllComplete(fs: FlagSet, items: seq<Item>) {
    forall i :: 0 <= i < |items| ==> Complete(fs, items[i])
  }

  function Render(items: seq<Item>): seq<string> {
    if items == [] then []
    else (match items[0] case Flag(ts) => ts case Pos(t) => [t]) + Render(items[1..])
  }

  function FlagTokens(items: seq<Item>): seq<string> {
    if items == [] then []
    else (match items[0] case Flag(ts) => ts case Pos(_) => []) + FlagTokens(items[1..])
  }

  function PosTokens(items: seq<Item>): seq<string> {
    if items == [] then []
    else (match items[0] case Flag(_) => [] case Pos(t) => [t]) + PosTokens(items[1..])
  }

  /** What follows the items: nothing, or the user's sentinel and everything after it. */
  predicate Tail(tail: seq<string>) {
    tail == [] || tail[0] == "--"
  }

  /** Complete items are routed token by token, whatever follows them. */
  lemma {:induction false} SplitAfterItems(fs: FlagSet, items: seq<Item>, rest: seq<string>)
    requires AllComplete(fs, items)
    ensures Split(fs, Render(items) + rest)
         == (FlagTokens(items) + Split(fs, rest).0, PosTokens(items) + Split(fs, rest).1)
  {
    var (f, p) := Split(fs, rest);
    if items == [] {
      assert Render(items) + rest == rest && [] + f == f && [] + p == p;
    } else {
      assert Complete(fs, items[0]);
      SplitAfterItems(fs, items[1..], rest);
      match items[0] {
        case Pos(t) =>
          SplitPos(fs, t, Render(items[1..]) + rest);
          Assoc([t], Render(items[1..]), rest);
          Assoc([t], PosTokens(items[1..]), p);
          assert [] + FlagTokens(items[1..]) == FlagTokens(items[1..]);
        case Flag(ts) =>
          SplitFlag(fs, ts, Render(items[1..]) + rest);
          Assoc(ts, Render(items[1..]), rest);
          Assoc(ts, FlagTokens(items[1..]), f);
          assert [] + PosTokens(items[1..]) == PosTokens(items[1..]);
      }
    }
  }

  lemma SplitOfItems(fs: FlagSet, items: seq<Item>, tail: seq<string>)
    requires AllComplete(fs, items) && Tail(tail)
    ensures Split(fs, Render(items) + tail)
         == (FlagTokens(items) + tail[..if tail == [] then 0 else 1],
             PosTokens(items) + tail[if tail == [] then 0 else 1..])
  {
    SplitAfterItems(fs, items, tail);
    assert tail != [] ==> tail[..1] == ["--"];
  }

  /** A value flag at the end without its value. */
  predicate Dangling(fs: FlagSet, token: string) {
    token != "--" && !IsPositional(token) && TakesNext(fs, token)
  }

  /** It becomes complete with the appended sentinel as its value. */
  lemma SplitOfDangling(fs: FlagSet, items: seq<Item>, token: string)
    requires AllComplete(fs, items) && Dangling(fs, token)
    ensures Split(fs, Render(items) + [token]).0 + ["--"] == FlagTokens(items) + [token, "--"]
    ensures Complete(fs, Flag([token, "--"]))
  {
    SplitAfterItems(fs, items, [token]);
    assert Split(fs, [token]) == ([token], []) by {
      assert [token][1..] == [] && [token] + [] == [token];
    }
    Assoc(FlagTokens(items), [token], ["--"]);
    assert [token] + ["--"] == [token, "--"];
  }

  /** Any interleaving of the same complete flags with the same positionals parses the same way. */
  lemma PositionIndependence(fs: FlagSet, items: seq<Item>, items': seq<Item>, tail: seq<string>)
    requires AllComplete(fs, items) && AllComplete(fs, items') && Tail(tail)
    requires FlagTokens(items) == FlagTokens(items') && PosTokens(items) == PosTokens(items')
    ensures Split(fs, Render(items) + tail) == Split(fs, Render(items') + tail)
  {
    SplitOfItems(fs, items, tail);
    SplitOfItems(fs, items', tail);
  }

  function FlagsOnly(items: seq<Item>): seq<Item> {
    if items == [] then []
    else if items[0].Flag? then [items[0]] + FlagsOnly(items[1..])
    else FlagsOnly(items[1..])
  }

  lemma {:induction false} FlagsOnlyTokens(items: seq<Item>)
    ensures FlagTokens(items) == Render(FlagsOnly(items))
  {
    if items != [] {
      FlagsOnlyTokens(items[1..]);
      if items[0].Flag? {
        assert ([items[0]] + FlagsOnly(items[1..]))[1..] == FlagsOnly(items[1..]);
      }
    }
  }

  lemma {:induction false} FlagsOnlyHas(fs: FlagSet, items: seq<Item>)
    requires AllComplete(fs, items)
    ensures AllComplete(fs, FlagsOnly(items))
    ensures forall i :: 0 <= i < |FlagsOnly(items)| ==> FlagsOnly(items)[i].Flag? && FlagsOnly(items)[i] in items
    ensures forall x :: x in items && x.Flag? ==> x in FlagsOnly(items)
  {
    if items != [] {
      assert items == [items[0]] + items[1..];
      assert Complete(fs, items[0]);
      FlagsOnlyHas(fs, items[1..]);
    }
  }

  /** The assignment a flag token makes: named as the splitter reads it, and "true" for a bare boolean. */
  ghost predicate SetBy(fs: FlagSet, token: string, assign: Assign) {
    && assign.name == SplitName(token)
    && (assign.name in fs.bools && '=' !in token ==> assign.value == "true")
  }

  lemma SetByFlag(fs: FlagSet, token: string, rest: seq<string>)
    requires fs.Valid() && !NonFlag(token) && ParseFlag(fs, token, rest).Set?
    ensures var p := ParseFlag(fs, token, rest);
      SetBy(fs, token, p.assign) && p.rest == if TakesNext(fs, token) then rest[1..] else rest
    ensures TakesNext(fs, token) ==> rest != []
  {
    SameName(token);
  }

  lemma ParseFirstFlag(fs: FlagSet, ts: seq<string>, rest: seq<string>) returns (a: Assign)
    requires fs.Valid() && Complete(fs, Flag(ts)) && Parse(fs, ts + rest).stop.Done?
    ensures SetBy(fs, ts[0], a)
    ensures Parse(fs, ts + rest) == Outcome([a] + Parse(fs, rest).sets, Parse(fs, rest).stop)
  {
    var args := ts + rest;
    assert args[0] == ts[0];
    SetByFlag(fs, args[0], args[1..]);
    a := ParseFlag(fs, args[0], args[1..]).assign;
    if |ts| == 2 {
      assert args[1..][1..] == rest;
    } else {
      assert args[1..] == rest;
    }
  }

  ghost predicate CompleteFlags(fs: FlagSet, items: seq<Item>) {
    forall i :: 0 <= i < |items| ==> items[i].Flag? && Complete(fs, items[i])
  }

  lemma RenderFlag(fs: FlagSet, flags: seq<Item>, tail: seq<string>)
    requires flags != [] && CompleteFlags(fs, flags)
    ensures flags[0].Flag? && Complete(fs, flags[0]) && CompleteFlags(fs, flags[1..])
    ensures Render(flags) + tail == flags[0].tokens + (Render(flags[1..]) + tail)
  {
    Assoc(flags[0].tokens, Render(flags[1..]), tail);
  }

  lemma SetFirst(fs: FlagSet, flags: seq<Item>, a: Assign, sets: seq<Assign>, k: nat)
    requires CompleteFlags(fs, flags) && |flags| == |sets| + 1 && SetBy(fs, flags[0].tokens[0], a)
    requires 0 < k < |flags| ==> SetBy(fs, flags[1..][k - 1].tokens[0], sets[k - 1])
    ensures k < |flags| ==> SetBy(fs, flags[k].tokens[0], ([a] + sets)[k])
  {
  }

  /** A successful parse makes one assignment per flag, in order. */
  lemma {:induction false} ParseOfFlags(fs: FlagSet, flags: seq<Item>, tail: seq<string>, k: nat)
    requires fs.Valid() && CompleteFlags(fs, flags) && Tail(tail)
    requires Parse(fs, Render(flags) + tail).stop.Done?
    ensures var sets := Parse(fs, Render(flags) + tail).sets;
      |sets| == |flags| && (k < |flags| ==> SetBy(fs, flags[k].tokens[0], sets[k]))
  {
    if flags == [] {
      assert Render(flags) + tail == tail;
    } else {
      RenderFlag(fs, flags, tail);
      var rest := Render(flags[1..]) + tail;
      var a := ParseFirstFlag(fs, flags[0].tokens, rest);
      ParseOfFlags(fs, flags[1..], tail, if k == 0 then 0 else k - 1);
      SetFirst(fs, flags, a, Parse(fs, rest).sets, k);
    }
  }

  /** What may follow complete items: a user's sentinel and the rest, or a value flag without its value. */
  predicate Ending(fs: FlagSet, tail: seq<string>, dangling: seq<string>) {
    Tail(tail) && (dangling != [] ==> tail == [] && |dangling| == 1 && Dangling(fs, dangling[0]))
  }

  /** Every argument list is complete items and a tail, unless it ends in a value flag without a value. */
  lemma {:induction false} ItemsOf(fs: FlagSet, args: seq<string>) returns (items: seq<Item>, tail: seq<string>, dangling: seq<string>)
    ensures AllComplete(fs, items) && Ending(fs, tail, dangling)
    ensures args == Render(items) + tail + dangling
    decreases |args|
  {
    if args == [] || args[0] == "--" {
      items, tail, dangling := [], args, [];
    } else if !IsPositional(args[0]) && TakesNext(fs, args[0]) && |args| == 1 {
      items, tail, dangling := [], [], args;
    } else {
      var n := if !IsPositional(args[0]) && TakesNext(fs, args[0]) then 2 else 1;
      var rest;
      rest, tail, dangling := ItemsOf(fs, args[n..]);
      var first := if IsPositional(args[0]) then Pos(args[0]) else Flag(args[..n]);
      assert Complete(fs, first);
      items := [first] + rest;
      assert items[0] == first && items[1..] == rest;
      assert Render(items) == args[..n] + Render(rest);
      Regroup(args, n, Render(rest), tail, dangling);
    }
  }

  lemma Regroup(args: seq<string>, n: nat, a: seq<string>, b: seq<string>, c: seq<string>)
    requires n <= |args| && args[n..] == a + b + c
    ensures args == (args[..n] + a) + b + c
  {
    assert args == args[..n] + args[n..];
  }
}
