/** Running a command (flarc.go): the run options, the help pre-pass, the
    exit status, and `FindParam`. With help enabled, a parser with the one
    bool flag `--help` (alias `-h`) first takes its flag out of the
    arguments; then the command is prepared and either its help is shown or
    it is run, and the outcome decides the exit status: 0 for success or
    help, 2 for a usage error (with help), 1 for any other error. */
module Flarc {
  import opened Errors
  import opened Text
  import opened Translators
  import opened Flags
  import opened Parser
  import opened Dispatch
  import Kebab

  // ---------------------------------------------------------------------
  // The help flag.

  /** The `helper` struct's one field: `Help bool` with the alias `h`. */
  function HelperField(): Field
  {
    Field("Help", map["alias" := "h", "help" := "show help message"], Typed([], EBool), Plain(Bool(false)))
  }

  /** The flag the help parser declares from it. */
  function HelpSchema(): FlagSchema
  {
    FlagSchema("help", ["h"], "show help message", "false", KBool, [])
  }

  /** The help parser always builds: its flag is `--help`, alias `-h`, a
      bool flag whose metavar is its default, `false`. */
  lemma HelperDeclares()
    ensures DeclareAll([HelperField()]) == Success([HelpSchema()])
  {
    HelperName("Help");
    SplitNoSep("h", ',');
    assert Declare(HelperField()) == Success(HelpSchema());
    DeclareAllEach([HelperField()], [HelpSchema()]);
  }

  /** The kebab-case name of the field `Help`. */
  lemma HelperName(w: string)
    requires w == "Help"
    ensures Kebab.ToKebab(w) == "help"
  {
    assert NoUpper(w[1..]) by {
      assert w[1..] == "elp";
    }
    Kebab.ReplaceRunsLastWord(w);
    assert LowerAll(w) == "help" by {
      assert Lower('H') == 'h';
    }
  }

  /** Both forms of the help flag name it, and neither has a value. */
  lemma HelpTokens(token: string)
    requires token == "-h" || token == "--help"
    ensures '=' !in token
    ensures MatchToken([HelpSchema()], token) == Some(0)
  {
    var F := [HelpSchema()];
    if token == "-h" {
      assert ByteLen(token) == 2;
      assert SeemsFlag(token) == Some("h");
      assert Match(F[0], "h");
    } else {
      assert token[..2] == ['-', '-'] && token[..3] == ['-', '-', 'h'];
      assert SeemsFlag(token) == Some("help");
    }
  }

  /** Whether the help flag is set after the pre-pass over `argv`: its
      field, false by default, holds true. */
  function HelpShown(F: seq<FlagSchema>, argv: seq<string>): bool
    requires F != []
  {
    DestAfter(HelperField().default, F[0].layers, Project(ScanSpec(F, argv).events, 0)) == Plain(Bool(true))
  }

  // ---------------------------------------------------------------------
  // Run options.

  /** The run options modelled: `WithArgs`, `WithHelp`, `WithName` and
      `WithParams`. */
  datatype RunOption =
    | WithArgs(argv: seq<string>)
    | WithHelp(need: bool)
    | WithName(name: string)
    | WithParams(params: seq<Param>)

  /** The settings of a run. */
  datatype Config = Config(name: string, useHelp: bool, argv: seq<string>, params: seq<Param>)

  /** The settings before any option: the program's base name, the
      command-line arguments after it, help enabled, no params. */
  function Defaults(programName: string, commandLine: seq<string>): Config
  {
    Config(programName, true, commandLine, [])
  }

  /** One option applied to the settings. */
  function Applied(c: Config, o: RunOption): Config
  {
    match o
    case WithArgs(argv) => c.(argv := argv)
    case WithHelp(need) => c.(useHelp := need)
    case WithName(name) => c.(name := name)
    case WithParams(ps) => c.(params := c.params + ps)
  }

  /** The options applied in order. */
  function Configure(c: Config, options: seq<RunOption>): (r: Config)
    decreases |options|
  {
    if options == [] then c else Applied(Configure(c, options[..|options| - 1]), options[|options| - 1])
  }

  /** `runOption`: the settings, changed in place by each option. */
  class RunConfig {
    var name: string
    var useHelp: bool
    var argv: seq<string>
    var params: seq<Param>

    function Snapshot(): Config
      reads this
    {
      Config(name, useHelp, argv, params)
    }

    constructor (c: Config)
      ensures Snapshot() == c
    {
      name, useHelp, argv, params := c.name, c.useHelp, c.argv, c.params;
    }

    /** One option: `WithParams` appends to the params given so far; every
        other option replaces its setting. */
    method Apply(o: RunOption)
      modifies this
      ensures Snapshot() == Applied(old(Snapshot()), o)
    {
      match o
      case WithArgs(a) => argv := a;
      case WithHelp(need) => useHelp := need;
      case WithName(n) => name := n;
      case WithParams(ps) => params := params + ps;
    }
  }

  /** Every params list the options pass, in order. */
  function GivenParams(options: seq<RunOption>): seq<Param>
    decreases |options|
  {
    if options == [] then []
    else (if options[0].WithParams? then options[0].params else []) + GivenParams(options[1..])
  }

  lemma {:induction false} GivenParamsAppend(options: seq<RunOption>, o: RunOption)
    ensures GivenParams(options + [o]) == GivenParams(options) + (if o.WithParams? then o.params else [])
    decreases |options|
  {
    if options == [] {
      assert [] + [o] == [o];
      assert [o][1..] == [];
    } else {
      assert (options + [o])[1..] == options[1..] + [o];
      GivenParamsAppend(options[1..], o);
      var h: seq<Param> := if options[0].WithParams? then options[0].params else [];
      assert h + (GivenParams(options[1..]) + (if o.WithParams? then o.params else [])) ==
        (h + GivenParams(options[1..])) + (if o.WithParams? then o.params else []);
    }
  }

  /** `WithParams` accumulates: the params of a run are those of the
      settings followed by every list the options pass, in order. */
  lemma {:induction false} ConfigureParams(c: Config, options: seq<RunOption>)
    ensures Configure(c, options).params == c.params + GivenParams(options)
    decreases |options|
  {
    if options == [] {
      assert c.params + [] == c.params;
    } else {
      var init := options[..|options| - 1];
      var o := options[|options| - 1];
      ConfigureParams(c, init);
      assert init + [o] == options;
      GivenParamsAppend(init, o);
      var more: seq<Param> := if o.WithParams? then o.params else [];
      assert (c.params + GivenParams(init)) + more == c.params + (GivenParams(init) + more);
    }
  }

  /** No `WithArgs` follows position `i`. */
  predicate LastArgs(options: seq<RunOption>, i: int)
    requires 0 <= i
  {
    forall j :: i < j < |options| ==> !options[j].WithArgs?
  }

  /** The arguments of a run are those of the last `WithArgs`, or the
      command line when there is none. */
  lemma {:induction false} ConfigureArgs(c: Config, options: seq<RunOption>)
    ensures (forall i :: 0 <= i < |options| ==> !options[i].WithArgs?) ==> Configure(c, options).argv == c.argv
    ensures forall i :: 0 <= i < |options| && options[i].WithArgs? && LastArgs(options, i) ==>
      Configure(c, options).argv == options[i].argv
    decreases |options|
  {
    if options != [] {
      var init := options[..|options| - 1];
      ConfigureArgs(c, init);
      ConfigureArgsStep(c, options);
    }
  }

  /** One more option: what holds for all options but the last carries over. */
  lemma ConfigureArgsStep(c: Config, options: seq<RunOption>)
    requires options != []
    ensures var init := options[..|options| - 1];
      && ((forall i :: 0 <= i < |init| ==> !init[i].WithArgs?) ==> Configure(c, init).argv == c.argv)
      && (forall i :: 0 <= i < |init| && init[i].WithArgs? && LastArgs(init, i) ==>
            Configure(c, init).argv == init[i].argv)
      ==>
      && ((forall i :: 0 <= i < |options| ==> !options[i].WithArgs?) ==> Configure(c, options).argv == c.argv)
      && (forall i :: 0 <= i < |options| && options[i].WithArgs? && LastArgs(options, i) ==>
            Configure(c, options).argv == options[i].argv)
  {
    var init := options[..|options| - 1];
    forall i | 0 <= i < |init|
      ensures init[i] == options[i]
    {
    }
  }

  // ---------------------------------------------------------------------
  // The run.

  /** What a run did: the exit status, the error line written to standard
      error, the help written there, and the call the task received if it
      ran. */
  datatype Exit = Exit(status: int, message: Option<Error>, help: Option<Help>, invoked: Option<Invocation>)

  /** The end of `Run` once the command is prepared: help when asked for
      (the task does not run); otherwise the task's outcome decides the
      status. `extra` are the help parser's flags, added to any help shown. */
  function Finish(r: Runner, showHelp: bool, extra: seq<FlagSchema>): (e: Exit)
  {
    var h := r.help.(flags := r.help.flags + extra);
    if showHelp then Exit(0, None, Some(h), None)
    else
      var invoked := if r.run.Invoke? then Some(r.run.call) else None;
      var err := Execute(r.run);
      if err.None? then Exit(0, None, None, invoked)
      else if Is(err.value, ErrUsage) then Exit(2, err, Some(h), invoked)
      else Exit(1, err, None, invoked)
  }

  /** The reference definition of `Run` for the settings `c`. */
  function RunSpec(cmd: Command, c: Config): (e: Exit)
  {
    if !c.useHelp then Finish(Dispatch.Prepare(cmd, c.name, c.argv, c.params), false, [])
    else
      var hp := DeclareAll([HelperField()]);
      if hp.Failure? then Exit(1, Some(hp.error), None, None)
      else
        var pre := ParseOutcome(hp.value, [], c.argv);
        if pre.Failure? then Exit(1, Some(pre.error), None, None)
        else Finish(Dispatch.Prepare(cmd, c.name, pre.value.rem, c.params), HelpShown(hp.value, c.argv), hp.value)
  }

  /** Every run exits with 0, 1 or 2, and a task that runs receives the
      params of the settings (followed by any a group appends) under a full
      name that starts with the program name. */
  lemma RunOutcome(cmd: Command, c: Config)
    ensures RunSpec(cmd, c).status in {0, 1, 2}
    ensures RunSpec(cmd, c).invoked.Some? ==>
      c.params <= RunSpec(cmd, c).invoked.value.params && c.name <= RunSpec(cmd, c).invoked.value.fullname
  {
    if !c.useHelp {
      FinishStatus(Dispatch.Prepare(cmd, c.name, c.argv, c.params), false, []);
    } else {
      var hp := DeclareAll([HelperField()]);
      if hp.Success? {
        var pre := ParseOutcome(hp.value, [], c.argv);
        if pre.Success? {
          FinishStatus(Dispatch.Prepare(cmd, c.name, pre.value.rem, c.params), HelpShown(hp.value, c.argv), hp.value);
        }
      }
    }
  }

  /** `Run`: apply the options; with help enabled, build the help parser and
      let it take the help flag out of the arguments; prepare the command
      with what is left; then show help or run it. */
  method Run(cmd: Command, programName: string, commandLine: seq<string>, options: seq<RunOption>) returns (e: Exit)
    ensures e == RunSpec(cmd, Configure(Defaults(programName, commandLine), options))
  {
    var c0 := Defaults(programName, commandLine);
    var cfg := new RunConfig(c0);
    for k := 0 to |options|
      invariant cfg.Snapshot() == Configure(c0, options[..k])
    {
      assert options[..k + 1][..k] == options[..k];
      cfg.Apply(options[k]);
    }
    assert options[..|options|] == options;
    var c := cfg.Snapshot();
    if !cfg.useHelp {
      return Finish(Dispatch.Prepare(cmd, cfg.name, cfg.argv, cfg.params), false, []);
    }
    var hp := New([HelperField()], []);
    if hp.Failure? {
      return Exit(1, Some(hp.error), None, None);
    }
    var p := hp.value;
    var pre := p.Parse(cfg.argv);
    if pre.Failure? {
      return Exit(1, Some(pre.error), None, None);
    }
    var showHelp := HelpFlag(p, c.argv);
    var extra := p.Schemas();
    return Finish(Dispatch.Prepare(cmd, cfg.name, pre.value.rem, cfg.params), showHelp, extra);
  }

  /** `hf.Help`: the help parser's field after its parse. */
  method HelpFlag(p: Parser, argv: seq<string>) returns (b: bool)
    requires p.Valid() && |p.flags| == 1
    requires p.flags[0].initial == HelperField().default
    requires p.Histories() == Extend([[]], ScanSpec(p.Schemas(), argv).events)
    ensures b == HelpShown(p.Schemas(), argv)
  {
    assert p.flags[0].history == p.Histories()[0];
    b := p.flags[0].dest == Plain(Bool(true));
  }

  // ---------------------------------------------------------------------
  // Properties of a run.

  /** The exit status is 0, 1 or 2. It is 0 exactly when help is shown or
      the task succeeds; 2 exactly for a usage error, shown with help; 1 for
      any other error, shown without help. Help shown on request means the
      task did not run. */
  lemma FinishStatus(r: Runner, showHelp: bool, extra: seq<FlagSchema>)
    ensures var e := Finish(r, showHelp, extra);
      && e.status in {0, 1, 2}
      && (e.status == 0 <==> showHelp || Execute(r.run).None?)
      && (e.status == 2 <==> !showHelp && Execute(r.run).Some? && Is(Execute(r.run).value, ErrUsage))
      && (e.status == 2 ==> e.help.Some? && e.message == Execute(r.run))
      && (e.status == 1 ==> e.help.None? && e.message == Execute(r.run))
      && (showHelp ==> e.invoked.None? && e.help.Some?)
      && (e.help.Some? ==> e.help.value.flags == r.help.flags + extra)
  {
  }

  /** With help enabled, the help parser builds, and a run whose pre-pass
      fails exits with 1, although that error is a usage error: the pre-pass
      error skips the status decision. */
  lemma PrePassFailureIsOne(cmd: Command, c: Config)
    requires c.useHelp && ParseOutcome([HelpSchema()], [], c.argv).Failure?
    ensures RunSpec(cmd, c).status == 1
    ensures RunSpec(cmd, c).message == Some(ParseOutcome([HelpSchema()], [], c.argv).error)
    ensures Is(ParseOutcome([HelpSchema()], [], c.argv).error, ErrUsage)
    ensures RunSpec(cmd, c).invoked.None?
  {
    HelperDeclares();
    ScanErrorsAreUsage([HelpSchema()], c.argv);
  }

  /** The pre-pass is a parse: it drops the first `--` of the arguments, so
      the command never sees it (when no help flag comes before it). */
  lemma PrePassDropsEndMarker(cmd: Command, c: Config, pre: seq<string>, post: seq<string>)
    requires c.useHelp && c.argv == pre + ["--"] + post
    requires forall k :: 0 <= k < |pre| ==> Unmatched([HelpSchema()], pre[k])
    ensures RunSpec(cmd, c) == Finish(Dispatch.Prepare(cmd, c.name, pre + post, c.params), false, [HelpSchema()])
  {
    HelperDeclares();
    ScanEndMarker([HelpSchema()], pre, post);
  }

  /** A help flag that is the last token or is followed by a token that is
      not a bool word: the help flag is removed, help is shown, the task
      does not run, and the status is 0. */
  lemma HelpShortCircuit(cmd: Command, c: Config, pre: seq<string>, token: string, post: seq<string>)
    requires token == "-h" || token == "--help"
    requires c.useHelp && c.argv == pre + [token] + post
    requires forall k :: 0 <= k < |pre| ==> Unmatched([HelpSchema()], pre[k])
    requires forall k :: 0 <= k < |post| ==> Unmatched([HelpSchema()], post[k])
    requires post == [] || ReadBool(post[0]).Failure?
    ensures RunSpec(cmd, c) == Finish(Dispatch.Prepare(cmd, c.name, pre + post, c.params), true, [HelpSchema()])
    ensures RunSpec(cmd, c).status == 0 && RunSpec(cmd, c).invoked.None?
  {
    HelperDeclares();
    HelpTokens(token);
    HelpPrePass([HelpSchema()], pre, token, post);
  }

  /** The pre-pass over arguments holding one help flag: it is removed, the
      other tokens are left over and the help field holds true. */
  lemma HelpPrePass(F: seq<FlagSchema>, pre: seq<string>, token: string, post: seq<string>)
    requires |F| == 1 && F[0].kind == KBool && F[0].layers == []
    requires '=' !in token && MatchToken(F, token) == Some(0)
    requires forall k :: 0 <= k < |pre| ==> Unmatched(F, pre[k])
    requires forall k :: 0 <= k < |post| ==> Unmatched(F, post[k])
    requires post == [] || ReadBool(post[0]).Failure?
    ensures ParseOutcome(F, [], pre + [token] + post) == Success(Parsed(map[], pre + post))
    ensures HelpShown(F, pre + [token] + post)
  {
    var ev := Event(0, Bool(true));
    var args := pre + [token] + post;
    HelpFlagScan(F, token, post);
    ScanKeepsUnmatched(F, pre, [token] + post);
    assert args == pre + ([token] + post);
    assert ScanSpec(F, args) == Scan([ev], Success(pre + post));
    assert ParseOutcome(F, [], args) == Settle([], pre + post);
    assert Project([ev], 0) == [Bool(true)] by {
      assert [ev][1..] == [];
    }
    assert DestAfter(HelperField().default, [], [Bool(true)]) == Plain(Bool(true));
  }

  /** The pre-pass from a bool flag followed by tokens that name no flag:
      the flag stores true and the tokens are kept. */
  lemma HelpFlagScan(F: seq<FlagSchema>, token: string, post: seq<string>)
    requires |F| >= 1 && F[0].kind == KBool
    requires '=' !in token && MatchToken(F, token) == Some(0)
    requires forall k :: 0 <= k < |post| ==> Unmatched(F, post[k])
    requires post == [] || ReadBool(post[0]).Failure?
    ensures ScanSpec(F, [token] + post) == Scan([Event(0, Bool(true))], Success(post))
  {
    if post == [] {
      ScanLastFlag(F, 0, token);
      assert [token] + post == [token];
    } else {
      HelpFlagThenKept(F, token, post);
    }
  }

  /** The same, when a token follows the flag: it is given back and kept. */
  lemma HelpFlagThenKept(F: seq<FlagSchema>, token: string, post: seq<string>)
    requires |F| >= 1 && F[0].kind == KBool
    requires '=' !in token && MatchToken(F, token) == Some(0)
    requires forall k :: 0 <= k < |post| ==> Unmatched(F, post[k])
    requires post != [] && ReadBool(post[0]).Failure?
    ensures ScanSpec(F, [token] + post) == Scan([Event(0, Bool(true))], Success(post))
  {
    var a := [token] + post;
    assert a[0] == token && a[1] == post[0] && a[1..] == post;
    CutNoSep(token, '=');
    ScanTokenStep(F, a);
    AllKept(F, post);
    assert [Event(0, Bool(true))] + [] == [Event(0, Bool(true))];
  }

  /** Tokens that name no flag are all kept. */
  lemma AllKept(F: seq<FlagSchema>, toks: seq<string>)
    requires forall k :: 0 <= k < |toks| ==> Unmatched(F, toks[k])
    ensures ScanSpec(F, toks) == Scan([], Success(toks))
  {
    ScanKeepsUnmatched(F, toks, []);
    assert toks + [] == toks;
    assert ScanSpec(F, []) == Scan([], Success([]));
  }

  /** Without help shown, a command tree without custom setters that fails
      to resolve its tokens always exits with 2 and shows help: status 1
      comes only from the task. */
  lemma ResolutionFailureIsTwo(cmd: Command, c: Config)
    requires NoCustom(cmd) && !c.useHelp
    requires Dispatch.Prepare(cmd, c.name, c.argv, c.params).run.Fail?
    ensures RunSpec(cmd, c).status == 2 && RunSpec(cmd, c).help.Some?
  {
    PrepareErrorsAreUsage(cmd, c.name, c.argv, c.params);
  }

  /** When the task runs, the exit status is 0 for no error, 2 for an
      error that is a usage error, and 1 otherwise. */
  lemma TaskStatus(cmd: Command, c: Config)
    requires !c.useHelp && Dispatch.Prepare(cmd, c.name, c.argv, c.params).run.Invoke?
    ensures var r := Dispatch.Prepare(cmd, c.name, c.argv, c.params).run;
      var e := RunSpec(cmd, c);
      && e.invoked == Some(r.call)
      && (r.task(r.call).None? ==> e.status == 0)
      && (r.task(r.call).Some? && Is(r.task(r.call).value, ErrUsage) ==> e.status == 2)
      && (r.task(r.call).Some? && !Is(r.task(r.call).value, ErrUsage) ==> e.status == 1 && e.help.None?)
  {
  }

  // ---------------------------------------------------------------------
  // Looking up params.

  /** Position `i` holds the first param of the given type. */
  predicate FirstOfType(params: seq<Param>, typeName: string, i: int)
    requires 0 <= i < |params|
  {
    params[i].typeName == typeName && forall j :: 0 <= j < i ==> params[j].typeName != typeName
  }

  /** `FindParam`: the first param of the given dynamic type, or none (Go's
      zero value and `false`). */
  method FindParam(params: seq<Param>, typeName: string) returns (found: Option<Param>)
    ensures found.None? <==> forall i :: 0 <= i < |params| ==> params[i].typeName != typeName
    ensures found.Some? ==>
      exists i :: 0 <= i < |params| && params[i] == found.value && FirstOfType(params, typeName, i)
  {
    for i := 0 to |params|
      invariant forall j :: 0 <= j < i ==> params[j].typeName != typeName
    {
      if params[i].typeName == typeName {
        return Some(params[i]);
      }
    }
    return None;
  }
}
