/**
 * The argument splitter of the CLI, composed with flag.FlagSet.Parse.
 *
 * Parse follows the "Command line flag syntax" section of Go's flag package documentation:
 * it stops at the first non-flag token or after the terminator "--". ParsePermuted is the
 * reference: the same flag grammar, but positionals may appear anywhere before "--".
 */
module Flags {
  import opened Common
  import opened Strings

  /** A declared flag set. `accepts` is each flag's Value.Set. */
  datatype FlagSet = FlagSet(bools: set<string>, values: set<string>, accepts: (string, string) -> bool) {
    predicate Known(name: string) {
      name in bools || name in values
    }

    /** FlagSet.Var panics on other names; a flag is boolean or takes a value. */
    ghost predicate Valid() {
      && bools !! values
      && forall name :: Known(name) && name != "" ==> name[0] != '-' && '=' !in name
    }
  }

  datatype Reason = BadSyntax | NotDefined | Help | InvalidValue | NeedsArgument

  datatype Stop = Done(rest: seq<string>) | Failed(reason: Reason, token: string)

  datatype Assign = Assign(name: string, value: string)

  /** The assignments made, in order, and how parsing ended. */
  datatype Outcome = Outcome(sets: seq<Assign>, stop: Stop)

  // ---- Tokens -------------------------------------------------------------

  /** A token at which flag parsing stops: too short or not starting with a dash. */
  predicate NonFlag(s: string) {
    |s| < 2 || s[0] != '-'
  }

  function TrimDashes(s: string): string {
    if s != "" && s[0] == '-' then TrimDashes(s[1..]) else s
  }

  // ---- flag.FlagSet.Parse -------------------------------------------------

  /** The part of a flag token after one or two dashes. */
  function AfterDashes(s: string): string
    requires !NonFlag(s)
  {
    if s[1] == '-' then s[2..] else s[1..]
  }

  /** One flag token with the tokens that follow it: an assignment and the tokens left, or a failure. */
  datatype Parsed = Set(assign: Assign, rest: seq<string>) | Bad(reason: Reason, token: string)

  function ParseFlag(fs: FlagSet, s: string, rest: seq<string>): (p: Parsed)
    requires !NonFlag(s)
    ensures p.Set? ==> p.rest == rest || (rest != [] && p.rest == rest[1..])
  {
    var body := AfterDashes(s);
    if body == "" || body[0] == '-' || body[0] == '=' then Bad(BadSyntax, s)
    else
      var (name, value) := CutAt(body, '=');
      if !fs.Known(name) then Bad(if name == "help" || name == "h" then Help else NotDefined, s)
      else if name in fs.bools then
        var v := if value.Some? then value.value else "true";
        if fs.accepts(name, v) then Set(Assign(name, v), rest) else Bad(InvalidValue, s)
      else if value.Some? then
        if fs.accepts(name, value.value) then Set(Assign(name, value.value), rest) else Bad(InvalidValue, s)
      else if rest == [] then Bad(NeedsArgument, s)
      else if fs.accepts(name, rest[0]) then Set(Assign(name, rest[0]), rest[1..])
      else Bad(InvalidValue, s)
  }

  function Parse(fs: FlagSet, args: seq<string>): Outcome
    decreases |args|
  {
    if args == [] then Outcome([], Done([]))
    else if args[0] == "--" then Outcome([], Done(args[1..]))
    else if NonFlag(args[0]) then Outcome([], Done(args))
    else
      match ParseFlag(fs, args[0], args[1..])
      case Bad(reason, token) => Outcome([], Failed(reason, token))
      case Set(assign, rest) =>
        var o := Parse(fs, rest);
        Outcome([assign] + o.sets, o.stop)
  }

  /** The reference: Done carries the positionals in order. */
  function ParsePermuted(fs: FlagSet, args: seq<string>): Outcome
    decreases |args|
  {
    if args == [] then Outcome([], Done([]))
    else if args[0] == "--" then Outcome([], Done(args[1..]))
    else if NonFlag(args[0]) then
      var o := ParsePermuted(fs, args[1..]);
      if o.stop.Done? then o.(stop := Done([args[0]] + o.stop.rest)) else o
    else
      match ParseFlag(fs, args[0], args[1..])
      case Bad(reason, token) => Outcome([], Failed(reason, token))
      case Set(assign, rest) =>
        var o := ParsePermuted(fs, rest);
        Outcome([assign] + o.sets, o.stop)
  }

  // ---- splitFlagsAndPositionals -------------------------------------------

  /** The splitter's own reading of a flag name. */
  function SplitName(a: string): string {
    CutAt(TrimDashes(a), '=').0
  }

  /** A known value flag written without "=", which takes the next argument with it. */
  predicate TakesNext(fs: FlagSet, a: string) {
    fs.Known(SplitName(a)) && SplitName(a) !in fs.bools && '=' !in a
  }

  predicate IsPositional(a: string) {
    a == "" || a[0] != '-' || a == "-"
  }

  /** Flag tokens (without the sentinel appended at the end) and positionals. */
  function Split(fs: FlagSet, args: seq<string>): (r: (seq<string>, seq<string>))
    decreases |args|
  {
    if args == [] then ([], [])
    else if args[0] == "--" then (["--"], args[1..])
    else if IsPositional(args[0]) then
      var r := Split(fs, args[1..]);
      (r.0, [args[0]] + r.1)
    else if TakesNext(fs, args[0]) && |args| > 1 then
      var r := Split(fs, args[2..]);
      (args[..2] + r.0, r.1)
    else
      var r := Split(fs, args[1..]);
      ([args[0]] + r.0, r.1)
  }

  /** A flag with everything it consumes, or one positional. */
  datatype Item = Flag(tokens: seq<string>) | Pos(token: string)

  predicate Complete(fs: FlagSet, item: Item) {
    match item
    case Pos(t) => IsPositional(t)
    case Flag(ts) =>
      && ts != [] && ts[0] != "--" && !IsPositional(ts[0])
      && |ts| == if TakesNext(fs, ts[0]) then 2 else 1
  }

  lemma SplitPos(fs: FlagSet, t: string, rest: seq<string>)
    requires IsPositional(t)
    ensures Split(fs, [t] + rest) == (Split(fs, rest).0, [t] + Split(fs, rest).1)
  {
    assert ([t] + rest)[1..] == rest;
  }

  lemma SplitFlag(fs: FlagSet, ts: seq<string>, rest: seq<string>)
    requires Complete(fs, Flag(ts))
    ensures Split(fs, ts + rest) == (ts + Split(fs, rest).0, Split(fs, rest).1)
  {
    var args := ts + rest;
    assert args[|ts|..] == rest && args[..|ts|] == ts && args[0] == ts[0];
    assert |ts| == 1 ==> ts == [ts[0]];
  }

  /** What the scan has put out so far, completed by what Split makes of the rest, is Split's answer. */
  ghost predicate Progress(fs: FlagSet, args: seq<string>, rest: seq<string>, afterDoubleDash: bool,
                           flagArgs: seq<string>, positionals: seq<string>) {
    var (f, p) := if afterDoubleDash then ([], rest) else Split(fs, rest);
    flagArgs + f == Split(fs, args).0 && positionals + p == Split(fs, args).1
  }

  lemma ScanPositional(fs: FlagSet, args: seq<string>, rest: seq<string>, after: bool, flagArgs: seq<string>, positionals: seq<string>)
    requires rest != [] && (after || IsPositional(rest[0]))
    requires Progress(fs, args, rest, after, flagArgs, positionals)
    ensures Progress(fs, args, rest[1..], after, flagArgs, positionals + [rest[0]])
  {
    assert rest == [rest[0]] + rest[1..];
    if after {
      Assoc(positionals, [rest[0]], rest[1..]);
    } else {
      SplitPos(fs, rest[0], rest[1..]);
      Assoc(positionals, [rest[0]], Split(fs, rest[1..]).1);
    }
  }

  lemma ScanSentinel(fs: FlagSet, args: seq<string>, rest: seq<string>, flagArgs: seq<string>, positionals: seq<string>)
    requires rest != [] && rest[0] == "--"
    requires Progress(fs, args, rest, false, flagArgs, positionals)
    ensures Progress(fs, args, rest[1..], true, flagArgs + ["--"], positionals)
  {
    assert (flagArgs + ["--"]) + [] == flagArgs + ["--"];
  }

  /** A flag with the argument it takes, or with none: the last token may lack its value. */
  lemma ScanFlag(fs: FlagSet, args: seq<string>, rest: seq<string>, n: nat, flagArgs: seq<string>, positionals: seq<string>)
    requires rest != [] && rest[0] != "--" && !IsPositional(rest[0])
    requires n == if TakesNext(fs, rest[0]) && |rest| > 1 then 2 else 1
    requires Progress(fs, args, rest, false, flagArgs, positionals)
    ensures Progress(fs, args, rest[n..], false, flagArgs + rest[..n], positionals)
  {
    Assoc(flagArgs, rest[..n], Split(fs, rest[n..]).0);
    assert n == 1 ==> rest[..n] == [rest[0]];
  }

  lemma ScanPair(fs: FlagSet, args: seq<string>, i: nat, flagArgs: seq<string>, positionals: seq<string>)
    requires i + 1 < |args| && args[i] != "--" && !IsPositional(args[i]) && TakesNext(fs, args[i])
    requires Progress(fs, args, args[i..], false, flagArgs, positionals)
    ensures Progress(fs, args, args[i + 2..], false, flagArgs + [args[i]] + [args[i + 1]], positionals)
  {
    var rest := args[i..];
    DropStep(args, i);
    ScanFlag(fs, args, rest, 2, flagArgs, positionals);
    Assoc(flagArgs, [args[i]], [args[i + 1]]);
    assert rest[..2] == [args[i]] + [args[i + 1]];
  }

  method SplitFlagsAndPositionals(fs: FlagSet, args: seq<string>) returns (flagArgs: seq<string>, positionals: seq<string>)
    ensures flagArgs == Split(fs, args).0 + ["--"]
    ensures positionals == Split(fs, args).1
  {
    flagArgs, positionals := [], [];
    var afterDoubleDash := false;
    var i := 0;
    assert args[0..] == args;
    while i < |args|
      invariant 0 <= i <= |args|
      invariant Progress(fs, args, args[i..], afterDoubleDash, flagArgs, positionals)
    {
      var a := args[i];
      ghost var rest := args[i..];
      DropStep(args, i);
      if afterDoubleDash {
        ScanPositional(fs, args, rest, true, flagArgs, positionals);
        positionals := positionals + [a];
        i := i + 1;
        continue;
      }
      if a == "--" {
        ScanSentinel(fs, args, rest, flagArgs, positionals);
        flagArgs := flagArgs + [a];
        afterDoubleDash := true;
        i := i + 1;
        continue;
      }
      if !(a != "" && a[0] == '-') || a == "-" {
        ScanPositional(fs, args, rest, false, flagArgs, positionals);
        positionals := positionals + [a];
        i := i + 1;
        continue;
      }
      var name := CutAt(TrimDashes(a), '=').0;
      if !fs.Known(name) {
        ScanFlag(fs, args, rest, 1, flagArgs, positionals);
        flagArgs := flagArgs + [a];
        i := i + 1;
        continue;
      }
      ghost var before := flagArgs;
      flagArgs := flagArgs + [a];
      if name !in fs.bools && '=' !in a && i + 1 < |args| {
        ScanPair(fs, args, i, before, positionals);
        flagArgs := flagArgs + [args[i + 1]];
        i := i + 1;
      } else {
        ScanFlag(fs, args, rest, 1, before, positionals);
      }
      i := i + 1;
    }
    flagArgs := flagArgs + ["--"];
  }
}
