/** `--dry-run` is honoured wherever it stands on the command line of `apps clean`. */
module DryRunFlag {
  import opened Common
  import opened Flags
  import opened FlagLaws
  import opened CleanGate

  lemma {:induction false} LastSettingWins(sets: seq<Assign>, name: string, k: nat)
    requires k < |sets| && sets[k].name == name
    requires forall i :: 0 <= i < |sets| && sets[i].name == name ==> IsTrue(sets[i].value)
    ensures Setting(sets, name)
  {
    var n := |sets| - 1;
    if sets[n].name != name {
      LastSettingWins(sets[..n], name, k);
    }
  }

  /** In `items`, every setting of the boolean flag `name` is bare. */
  ghost predicate OnlyBare(items: seq<Item>, name: string) {
    forall x :: x in items && x.Flag? && x.tokens != [] && SplitName(x.tokens[0]) == name ==> '=' !in x.tokens[0]
  }

  /** A bare boolean among complete flags is set once parsing succeeds. */
  lemma BareBooleanIsSet(fs: FlagSet, flags: seq<Item>, rest: seq<string>, token: string)
    requires fs.Valid() && AllComplete(fs, flags) && Tail(rest) && forall i :: 0 <= i < |flags| ==> flags[i].Flag?
    requires Item.Flag([token]) in flags && SplitName(token) in fs.bools && OnlyBare(flags, SplitName(token))
    requires Parse(fs, Render(flags) + rest).stop.Done?
    ensures Setting(Parse(fs, Render(flags) + rest).sets, SplitName(token))
  {
    var sets := Parse(fs, Render(flags) + rest).sets;
    ParseOfFlags(fs, flags, rest, 0);
    forall i | 0 <= i < |sets|
      ensures SetBy(fs, flags[i].tokens[0], sets[i])
      ensures sets[i].name == SplitName(token) ==> IsTrue(sets[i].value)
    {
      ParseOfFlags(fs, flags, rest, i);
      assert Complete(fs, flags[i]) && flags[i] in flags;
    }
    var k :| 0 <= k < |flags| && flags[k] == Item.Flag([token]);
    assert SetBy(fs, flags[k].tokens[0], sets[k]);
    LastSettingWins(sets, SplitName(token), k);
  }

  lemma {:induction false} RenderSnoc(items: seq<Item>, ts: seq<string>)
    ensures Render(items + [Item.Flag(ts)]) == Render(items) + ts
  {
    var all := items + [Item.Flag(ts)];
    if items == [] {
      assert all[1..] == [];
    } else {
      assert all[1..] == items[1..] + [Item.Flag(ts)];
      RenderSnoc(items[1..], ts);
    }
  }

  /** The flags that Parse is handed, complete: a dangling one has the appended sentinel as its value. */
  function HandedFlags(items: seq<Item>, dangling: seq<string>): seq<Item> {
    FlagsOnly(items) + if dangling == [] then [] else [Item.Flag([dangling[0], "--"])]
  }

  lemma HandedFlagsComplete(fs: FlagSet, items: seq<Item>, tail: seq<string>, dangling: seq<string>)
    requires AllComplete(fs, items) && Ending(fs, tail, dangling)
    ensures var flags := HandedFlags(items, dangling);
      && AllComplete(fs, flags) && (forall i :: 0 <= i < |flags| ==> flags[i].Flag?)
      && (forall x :: x in items && x.Flag? ==> x in flags)
      && (forall x :: x in flags && x !in items ==> x.Flag? && x.tokens != [] && SplitName(x.tokens[0]) !in fs.bools)
  {
    FlagsOnlyHas(fs, items);
    if dangling != [] {
      SplitOfDangling(fs, items, dangling[0]);
    }
  }

  lemma HandedTokens(fs: FlagSet, items: seq<Item>, tail: seq<string>, dangling: seq<string>) returns (rest: seq<string>)
    requires AllComplete(fs, items) && Ending(fs, tail, dangling)
    ensures Tail(rest)
    ensures Split(fs, Render(items) + tail + dangling).0 + ["--"] == Render(HandedFlags(items, dangling)) + rest
  {
    var flags := FlagsOnly(items);
    FlagsOnlyTokens(items);
    if dangling == [] {
      SplitOfItems(fs, items, tail);
      assert Render(items) + tail + dangling == Render(items) + tail && flags + [] == flags;
      rest := if tail == [] then ["--"] else ["--", "--"];
      if tail != [] {
        assert tail[..1] == ["--"];
        Assoc(Render(flags), ["--"], ["--"]);
        assert ["--"] + ["--"] == rest;
      }
    } else {
      SplitOfDangling(fs, items, dangling[0]);
      assert Render(items) + tail + dangling == Render(items) + [dangling[0]];
      RenderSnoc(flags, [dangling[0], "--"]);
      rest := [];
    }
  }

  lemma GateReadsDryRun(args: seq<string>, env: CliEnv)
    requires CliGate(args, env).Ok?
    ensures ParsedLine(args).stop.Done?
    ensures CliGate(args, env).value.dryRun <==> Setting(ParsedLine(args).sets, "dry-run")
  {
  }

  lemma DryRunIsSet(items: seq<Item>, tail: seq<string>, dangling: seq<string>)
    requires AllComplete(CleanFlags(), items) && Ending(CleanFlags(), tail, dangling)
    requires Item.Flag(["--dry-run"]) in items && OnlyBare(items, "dry-run")
    requires ParsedLine(Render(items) + tail + dangling).stop.Done?
    ensures Setting(ParsedLine(Render(items) + tail + dangling).sets, "dry-run")
  {
    CleanFlagsValid();
    DryRunName();
    HandedFlagsComplete(CleanFlags(), items, tail, dangling);
    var rest := HandedTokens(CleanFlags(), items, tail, dangling);
    BareBooleanIsSet(CleanFlags(), HandedFlags(items, dangling), rest, "--dry-run");
  }

  /**
   * On every command line, written as the complete flags, positionals and ending that ItemsOf finds:
   * when `--dry-run` stands anywhere among them, and no setting of it carries an explicit value,
   * nothing is deleted.
   */
  lemma DryRunHonouredAnywhere(items: seq<Item>, tail: seq<string>, dangling: seq<string>, env: CliEnv)
    requires AllComplete(CleanFlags(), items) && Ending(CleanFlags(), tail, dangling)
    requires Item.Flag(["--dry-run"]) in items && OnlyBare(items, "dry-run")
    ensures var g := CliGate(Render(items) + tail + dangling, env);
      g.Ok? ==> g.value.dryRun && CliConfirm(g.value, env) == Some(0)
  {
    var args := Render(items) + tail + dangling;
    if CliGate(args, env).Ok? {
      GateReadsDryRun(args, env);
      DryRunIsSet(items, tail, dangling);
    }
  }

  /** The words for true and false are the values of a boolean flag of `apps clean`, and nothing else is. */
  lemma BooleanValue(d: string, name: string, value: string, rest: seq<string>)
    requires Dashes(d) && name in {"dry-run", "yes", "include-documents", "include-tmp", "include-caches"}
    ensures ParseFlag(CleanFlags(), d + (name + "=" + value), rest)
         == if value in ["1", "t", "T", "TRUE", "true", "True", "0", "f", "F", "FALSE", "false", "False"]
            then Set(Assign(name, value), rest) else Bad(InvalidValue, d + (name + "=" + value))
  {
    CleanFlagsValid();
    assert name != "" && CleanFlags().Known(name);
    FlagWithEquals(CleanFlags(), d, name, value, rest);
  }

  lemma CleanFlagsValid()
    ensures CleanFlags().Valid()
  {
  }

  lemma DryRunName()
    ensures SplitName("--dry-run") == "dry-run"
  {
    var s := "--dry-run";
    assert TrimDashes(s[1..]) == TrimDashes(s[2..]) && s[2..] == "dry-run";
    assert TrimDashes(s[2..]) == s[2..] && '=' !in s[2..];
  }
}
