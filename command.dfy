/** Commands and command groups (comamnd.go, comamnd_group.go). A command
    parses its tokens, refuses tokens that no slot takes, and hands the
    parsed flags, the positional arguments and the params list to its task.
    A group parses its own flags with no slots, routes on the first token
    left over to one of its subcommands, and appends its parsed flags to the
    params list the subcommand receives. Preparing a command builds a
    runner: what running it does (fail with an error, or call the task with
    an invocation) and the help it shows. */
module Dispatch {
  import opened Errors
  import opened Translators
  import opened Flags
  import opened Parser
  import Args

  // ---------------------------------------------------------------------
  // Values passed around.

  /** What a params entry holds: a parsed flag struct (what a group appends)
      or a value supplied from outside the engine. */
  datatype Payload = FlagStruct(fields: seq<Dest>) | External(text: string)

  /** One entry of the `[]any` params list, with its dynamic type. */
  datatype Param = Param(typeName: string, payload: Payload)

  /** What a task receives: the full command name, the parsed flags (one
      field per declared flag), the positional arguments by slot name, and
      the params list. */
  datatype Invocation = Invocation(fullname: string, flags: seq<Dest>, args: map<string, seq<string>>,
                                   params: seq<Param>)

  /** A task is code outside the engine: it gets an invocation and returns
      an error or none. */
  type Task = Invocation -> Option<Error>

  /** The help descriptor: the full name, the short description, the
      description text, the flags and slots shown, and the subcommand
      names. */
  datatype Help = Help(fullname: string, short: string, description: Option<string>,
                       flags: seq<FlagSchema>, slots: seq<Args.Arg>, subcommands: set<string>)

  /** What running a prepared command does. */
  datatype Action = Fail(error: Error) | Invoke(task: Task, call: Invocation)

  /** `runner`: the action of `Run` and the help of `Help`. */
  datatype Runner = Runner(run: Action, help: Help)

  /** The error running an action returns: its own, or the task's. */
  function Execute(a: Action): Option<Error>
  {
    match a
    case Fail(e) => Some(e)
    case Invoke(task, call) => task(call)
  }

  // ---------------------------------------------------------------------
  // Commands.

  /** A declared flag together with the value its field holds before any
      parse. */
  datatype FlagDecl = FlagDecl(schema: FlagSchema, initial: Dest)

  /** A command (`command[T]`) or a command group (`commandGroup[T]`);
      `flagType` is the dynamic type of a group's flag struct. */
  datatype Command =
    | Leaf(short: string, description: Option<string>, decls: seq<FlagDecl>, slots: seq<Args.Arg>, task: Task)
    | Group(short: string, description: Option<string>, flagType: string, decls: seq<FlagDecl>,
            subs: map<string, Command>)

  function Schemas(decls: seq<FlagDecl>): (F: seq<FlagSchema>)
    ensures |F| == |decls|
    ensures forall k :: 0 <= k < |decls| ==> F[k] == decls[k].schema
  {
    seq(|decls|, k requires 0 <= k < |decls| => decls[k].schema)
  }

  /** The flag struct after a parse whose flag pass stored `evs`: each
      field keeps its initial value when its flag received nothing, and
      otherwise holds what the stores made of it. */
  function FlagsAfter(decls: seq<FlagDecl>, evs: seq<Event>): (r: seq<Dest>)
    ensures |r| == |decls|
  {
    seq(|decls|, k requires 0 <= k < |decls| =>
      DestAfter(decls[k].initial, decls[k].schema.layers, Project(evs, k)))
  }

  /** `command.newHelp`: the slots and the command's flags. */
  function LeafHelp(cmd: Command, fullname: string): Help
    requires cmd.Leaf?
  {
    Help(fullname, cmd.short, cmd.description, Schemas(cmd.decls), cmd.slots, {})
  }

  /** `commandGroup.newHelp`: the group's flags and subcommand names. */
  function GroupHelp(cmd: Command, fullname: string): Help
    requires cmd.Group?
  {
    Help(fullname, cmd.short, cmd.description, Schemas(cmd.decls), [], cmd.subs.Keys)
  }

  /** `prepare`. A command fails with the parse error, or with "too much
      args" when some token is left over, and otherwise calls its task. A
      group fails with its parse error, with "no subcommands" when no token
      is left, or with "unknown subcommand" when the first token names no
      subcommand; otherwise the subcommand is prepared under the longer
      name, with the tokens after its name and the params list extended
      by the group's flags, and its help also shows the group's flags. */
  function Prepare(cmd: Command, fullname: string, args: seq<string>, params: seq<Param>): (r: Runner)
    ensures fullname <= r.help.fullname
    ensures cmd.Leaf? ==> r.help.fullname == fullname
    ensures |cmd.decls| <= |r.help.flags|
    ensures r.help.flags[|r.help.flags| - |cmd.decls|..] == Schemas(cmd.decls)
    ensures r.run.Invoke? ==> params <= r.run.call.params && r.run.call.fullname == r.help.fullname
  {
    match cmd
    case Leaf(_, _, decls, slots, task) =>
      var r := ParseOutcome(Schemas(decls), slots, args);
      if r.Failure? then Runner(Fail(r.error), LeafHelp(cmd, fullname))
      else if 0 < |r.value.rem| then Runner(Fail(TooMuchArgs), LeafHelp(cmd, fullname))
      else
        var call := Invocation(fullname, FlagsAfter(decls, ScanSpec(Schemas(decls), args).events), r.value.args, params);
        Runner(Invoke(task, call), LeafHelp(cmd, fullname))
    case Group(_, _, flagType, decls, subs) =>
      var r := ParseOutcome(Schemas(decls), [], args);
      if r.Failure? then Runner(Fail(r.error), GroupHelp(cmd, fullname))
      else if r.value.rem == [] then Runner(Fail(NoSubcommands), GroupHelp(cmd, fullname))
      else
        var name := r.value.rem[0];
        if name !in subs then Runner(Fail(UnknownSubcommand(name)), GroupHelp(cmd, fullname))
        else
          var own := Param(flagType, FlagStruct(FlagsAfter(decls, ScanSpec(Schemas(decls), args).events)));
          var sub := Prepare(subs[name], fullname + " " + name, r.value.rem[1..], params + [own]);
          Runner(sub.run, sub.help.(flags := sub.help.flags + Schemas(decls)))
  }

  // ---------------------------------------------------------------------
  // Properties of a command.

  /** The task of a command runs exactly when the parse succeeds and every
      kept token went to a slot. */
  lemma LeafInvokesIff(cmd: Command, fullname: string, args: seq<string>, params: seq<Param>)
    requires cmd.Leaf?
    ensures Prepare(cmd, fullname, args, params).run.Invoke? <==>
      && ParseOutcome(Schemas(cmd.decls), cmd.slots, args).Success?
      && ParseOutcome(Schemas(cmd.decls), cmd.slots, args).value.rem == []
  {
  }

  /** A command that does not run its task fails with the parse error, or
      with "too much args" when the parse succeeded; with flags that have no
      custom setter, that error is always a usage error. The help is the
      command's own in every case. */
  lemma LeafRejects(cmd: Command, fullname: string, args: seq<string>, params: seq<Param>)
    requires cmd.Leaf?
    ensures var p := Prepare(cmd, fullname, args, params);
      var r := ParseOutcome(Schemas(cmd.decls), cmd.slots, args);
      && p.help == LeafHelp(cmd, fullname)
      && (r.Failure? ==> p.run == Fail(r.error))
      && (r.Success? && r.value.rem != [] ==> p.run == Fail(TooMuchArgs) && Is(TooMuchArgs, ErrUsage))
      && ((forall k :: 0 <= k < |cmd.decls| ==> !IsCustom(cmd.decls[k].schema.kind)) && p.run.Fail? ==>
            Is(p.run.error, ErrUsage))
  {
    var F := Schemas(cmd.decls);
    var r := ParseOutcome(F, cmd.slots, args);
    if forall k :: 0 <= k < |cmd.decls| ==> !IsCustom(cmd.decls[k].schema.kind) {
      ScanErrorsAreUsage(F, args);
      if r.Failure? && r.error == TooFewArgs {
        assert Is(TooFewArgs, ErrUsage);
      }
    }
  }

  /** When the task runs, it gets the full name, the params list as given,
      every slot name as a key of the positional arguments (when there are
      slots), the kept tokens dealt to the slots without loss, and each flag
      field as the stores of the flag pass left it. */
  lemma LeafCall(cmd: Command, fullname: string, args: seq<string>, params: seq<Param>)
    requires cmd.Leaf? && Prepare(cmd, fullname, args, params).run.Invoke?
    ensures var call := Prepare(cmd, fullname, args, params).run.call;
      var F := Schemas(cmd.decls);
      var kept := ScanSpec(F, args).outcome.value;
      && ScanSpec(F, args).outcome.Success?
      && call.fullname == fullname && call.params == params
      && (cmd.slots != [] ==> call.args.Keys == Names(cmd.slots) && Flatten(Alloc(cmd.slots, kept).0) == kept)
      && (cmd.slots == [] ==> call.args == map[] && kept == [])
      && |call.flags| == |cmd.decls|
      && (forall k :: 0 <= k < |cmd.decls| && Project(ScanSpec(F, args).events, k) == [] ==>
            call.flags[k] == cmd.decls[k].initial)
  {
    var F := Schemas(cmd.decls);
    var kept := ScanSpec(F, args).outcome.value;
    ParseSuccessShape(F, cmd.slots, args);
    if cmd.slots != [] {
      assert Flatten(Alloc(cmd.slots, kept).0) + [] == kept;
    }
  }

  // ---------------------------------------------------------------------
  // Properties of a group.

  /** A group routes to a subcommand exactly when its flag pass succeeds
      and the first token it keeps names a subcommand. The subcommand is
      prepared under `fullname name`, with the kept tokens after the name,
      and with a params list one longer: the given params, unchanged, then
      the group's flag struct. Its help gains the group's flags. */
  lemma GroupRoutes(cmd: Command, fullname: string, args: seq<string>, params: seq<Param>)
    requires cmd.Group?
    requires ScanSpec(Schemas(cmd.decls), args).outcome.Success?
    requires var kept := ScanSpec(Schemas(cmd.decls), args).outcome.value;
      kept != [] && kept[0] in cmd.subs
    ensures var F := Schemas(cmd.decls);
      var kept := ScanSpec(F, args).outcome.value;
      var name := kept[0];
      var p := Prepare(cmd, fullname, args, params);
      var own := Param(cmd.flagType, FlagStruct(FlagsAfter(cmd.decls, ScanSpec(F, args).events)));
      var sub := Prepare(cmd.subs[name], fullname + " " + name, kept[1..], params + [own]);
      && p.run == sub.run
        && p.help.flags == sub.help.flags + F
        && |params + [own]| == |params| + 1
        && (params + [own])[..|params|] == params
  {
    var F := Schemas(cmd.decls);
    var own := Param(cmd.flagType, FlagStruct(FlagsAfter(cmd.decls, ScanSpec(F, args).events)));
    assert (params + [own])[..|params|] == params;
  }

  /** A group that does not route fails: with its parse error, with "no
      subcommands" when it keeps no token, or with "unknown subcommand"
      naming the first kept token. It shows its own help. */
  lemma GroupRejects(cmd: Command, fullname: string, args: seq<string>, params: seq<Param>)
    requires cmd.Group?
    ensures var F := Schemas(cmd.decls);
      var sc := ScanSpec(F, args);
      var p := Prepare(cmd, fullname, args, params);
      && (sc.outcome.Failure? ==> p.run == Fail(sc.outcome.error) && p.help == GroupHelp(cmd, fullname))
      && (sc.outcome == Success([]) ==> p.run == Fail(NoSubcommands) && p.help == GroupHelp(cmd, fullname))
      && (sc.outcome.Success? && sc.outcome.value != [] && sc.outcome.value[0] !in cmd.subs ==>
            && p.run == Fail(UnknownSubcommand(sc.outcome.value[0]))
            && p.help == GroupHelp(cmd, fullname))
  {
  }

  /** A group's flags are recognised after the subcommand name too: with
      `name flag value` the group stores the value and the subcommand gets
      no token. */
  lemma GroupFlagAfterName(cmd: Command, fullname: string, name: string, flagTok: string, v: string,
                           k: nat, params: seq<Param>)
    requires cmd.Group? && k < |cmd.decls| && !IsCustom(cmd.decls[k].schema.kind)
    requires name in cmd.subs && Unmatched(Schemas(cmd.decls), name)
    requires '=' !in flagTok && MatchToken(Schemas(cmd.decls), flagTok) == Some(k)
    requires Translate(cmd.decls[k].schema.kind, v).Success?
    ensures var ev := Event(k, Translate(cmd.decls[k].schema.kind, v).value);
      var own := Param(cmd.flagType, FlagStruct(FlagsAfter(cmd.decls, [ev])));
      Prepare(cmd, fullname, [name, flagTok, v], params).run ==
        Prepare(cmd.subs[name], fullname + " " + name, [], params + [own]).run
  {
    var F := Schemas(cmd.decls);
    var ev := Event(k, Translate(cmd.decls[k].schema.kind, v).value);
    FlagThenValue(F, k, flagTok, v, ev);
    ScanKeepsUnmatched(F, [name], [flagTok, v]);
    assert [name] + [flagTok, v] == [name, flagTok, v];
    assert [] + [ev] == [ev] && [name] + [] == [name];
    assert [name][1..] == [];
  }

  /** The flag pass over a flag token and an accepted value alone. */
  lemma FlagThenValue(F: seq<FlagSchema>, k: nat, flagTok: string, v: string, ev: Event)
    requires k < |F| && !IsCustom(F[k].kind)
    requires '=' !in flagTok && MatchToken(F, flagTok) == Some(k)
    requires Translate(F[k].kind, v).Success? && ev == Event(k, Translate(F[k].kind, v).value)
    ensures ScanSpec(F, [flagTok, v]) == Scan([ev], Success([]))
  {
    ScanTakesNext(F, k, flagTok, v, []);
    assert [flagTok, v] + [] == [flagTok, v];
    assert ScanSpec(F, []) == Scan([], Success([]));
    assert [ev] + [] == [ev];
  }

  /** Every command in the tree declares only flags without custom setters. */
  predicate NoCustom(cmd: Command)
  {
    && (forall k :: 0 <= k < |cmd.decls| ==> !IsCustom(cmd.decls[k].schema.kind))
    && (cmd.Group? ==> forall name :: name in cmd.subs ==> NoCustom(cmd.subs[name]))
  }

  /** Whatever the tokens, a prepared command tree without custom setters
      fails only with usage errors. */
  lemma {:induction false} PrepareErrorsAreUsage(cmd: Command, fullname: string, args: seq<string>, params: seq<Param>)
    requires NoCustom(cmd)
    ensures Prepare(cmd, fullname, args, params).run.Fail? ==> Is(Prepare(cmd, fullname, args, params).run.error, ErrUsage)
    decreases cmd
  {
    if cmd.Leaf? {
      LeafRejects(cmd, fullname, args, params);
    } else {
      var F := Schemas(cmd.decls);
      ScanErrorsAreUsage(F, args);
      var r := ParseOutcome(F, [], args);
      if r.Success? && r.value.rem != [] && r.value.rem[0] in cmd.subs {
        var name := r.value.rem[0];
        var own := Param(cmd.flagType, FlagStruct(FlagsAfter(cmd.decls, ScanSpec(F, args).events)));
        PrepareErrorsAreUsage(cmd.subs[name], fullname + " " + name, r.value.rem[1..], params + [own]);
      }
    }
  }

  // ---------------------------------------------------------------------
  // Building commands.

  /** `WithDescription` and `WithGroupDescription`: the description is a
      template, parsed by `compile` (Go's template parser, outside the
      engine), which can refuse it. */
  datatype CommandOption = Describe(text: string)

  /** The options of `NewCommand`, applied in order: the first refusal
      stops the fold; otherwise the last description given wins. */
  function CommandOptions(options: seq<CommandOption>, compile: string -> Option<Error>, desc: Option<string>)
    : (r: Result<Option<string>>)
    decreases |options|
  {
    if options == [] then Success(desc)
    else if compile(options[0].text).Some? then Failure(compile(options[0].text).value)
    else CommandOptions(options[1..], compile, Some(options[0].text))
  }

  /** The options fail exactly when some description is refused, with the
      first refusal; otherwise the description is the last one given. */
  lemma {:induction false} CommandOptionsOutcome(options: seq<CommandOption>, compile: string -> Option<Error>,
                                                 desc: Option<string>)
    ensures CommandOptions(options, compile, desc).Failure? <==>
      exists i :: 0 <= i < |options| && compile(options[i].text).Some?
    ensures CommandOptions(options, compile, desc).Failure? ==>
      exists i :: 0 <= i < |options| && compile(options[i].text) == Some(CommandOptions(options, compile, desc).error)
        && forall j :: 0 <= j < i ==> compile(options[j].text).None?
    ensures CommandOptions(options, compile, desc).Success? ==>
      CommandOptions(options, compile, desc).value == if options == [] then desc else Some(options[|options| - 1].text)
    decreases |options|
  {
    if options != [] && compile(options[0].text).None? {
      var rest := options[1..];
      CommandOptionsOutcome(rest, compile, Some(options[0].text));
      if exists i :: 0 <= i < |rest| && compile(rest[i].text).Some? {
        var i :| 0 <= i < |rest| && compile(rest[i].text).Some?;
        assert options[i + 1] == rest[i];
      }
      if exists i :: 0 <= i < |options| && compile(options[i].text).Some? {
        var i :| 0 <= i < |options| && compile(options[i].text).Some?;
        assert rest[i - 1] == options[i];
      }
      if CommandOptions(options, compile, desc).Failure? {
        var e := CommandOptions(options, compile, desc).error;
        var i :| 0 <= i < |rest| && compile(rest[i].text) == Some(e) && forall j :: 0 <= j < i ==> compile(rest[j].text).None?;
        assert options[i + 1] == rest[i];
        assert forall j :: 0 <= j < i + 1 ==> compile(options[j].text).None? by {
          forall j | 0 <= j < i + 1
            ensures compile(options[j].text).None?
          {
            if j > 0 {
              assert options[j] == rest[j - 1];
            }
          }
        }
      }
    }
  }

  /** The declarations of a parser just built: each flag's schema and the
      default of its field. */
  function DeclsOf(fields: seq<Field>, schemas: seq<FlagSchema>): (r: seq<FlagDecl>)
    requires |schemas| == |fields|
    ensures |r| == |fields|
  {
    seq(|fields|, k requires 0 <= k < |fields| => FlagDecl(schemas[k], fields[k].default))
  }

  /** The reference definition of `NewCommand`. */
  function CommandSpec(short: string, fields: seq<Field>, defs: seq<Args.ArgDef>, task: Task,
                       options: seq<CommandOption>, compile: string -> Option<Error>): (r: Result<Command>)
    requires forall k :: 0 <= k < |fields| ==> fields[k].name != []
    ensures r.Success? <==> CommandOptions(options, compile, None).Success? && DeclareAll(fields).Success?
    ensures r.Success? ==> r.value.Leaf? && r.value.short == short && r.value.task == task
    ensures r.Success? ==> r.value.slots == Args.FreezeAll(defs) && |r.value.decls| == |fields|
  {
    var o := CommandOptions(options, compile, None);
    if o.Failure? then Failure(o.error)
    else
      var d := DeclareAll(fields);
      if d.Failure? then Failure(d.error)
      else Success(Leaf(short, o.value, DeclsOf(fields, d.value), Args.FreezeAll(defs), task))
  }

  /** `NewCommand`: apply the options in order, stopping at the first that
      fails, then build the parser. */
  method NewCommand(short: string, fields: seq<Field>, defs: seq<Args.ArgDef>, task: Task,
                    options: seq<CommandOption>, compile: string -> Option<Error>) returns (r: Result<Command>)
    requires forall k :: 0 <= k < |fields| ==> fields[k].name != []
    ensures r == CommandSpec(short, fields, defs, task, options, compile)
  {
    var desc: Option<string> := None;
    for k := 0 to |options|
      invariant CommandOptions(options, compile, None) == CommandOptions(options[k..], compile, desc)
    {
      assert options[k..][1..] == options[k + 1..];
      var e := compile(options[k].text);
      if e.Some? {
        return Failure(e.value);
      }
      desc := Some(options[k].text);
    }
    assert options[|options|..] == [];
    var p := New(fields, defs);
    if p.Failure? {
      return Failure(p.error);
    }
    var decls := DeclsFrom(p.value, fields, defs);
    return Success(Leaf(short, desc, decls, p.value.slots, task));
  }

  /** Reads the declarations back from a parser just built. This models no
      loop of its own: the Go command keeps the parser and asks it for its
      flags, and this copies the same fields into the `Command` record. */
  method DeclsFrom(p: Parser, fields: seq<Field>, defs: seq<Args.ArgDef>) returns (decls: seq<FlagDecl>)
    requires forall k :: 0 <= k < |fields| ==> fields[k].name != []
    requires Built(p, fields, defs)
    ensures DeclareAll(fields).Success? && |DeclareAll(fields).value| == |fields|
    ensures decls == DeclsOf(fields, DeclareAll(fields).value)
  {
    decls := [];
    for k := 0 to |p.flags|
      invariant decls == DeclsOf(fields, DeclareAll(fields).value)[..k]
    {
      decls := decls + [FlagDecl(p.flags[k].schema, p.flags[k].initial)];
    }
  }

  /** The options of a group. */
  datatype GroupOption = GroupDescribe(text: string) | WithSubcommand(name: string, cmd: Command)

  /** `commandGroupOption`: what the options of `NewCommandGroup` build,
      changed in place by each option. */
  class GroupOptions {
    var description: Option<string>
    var subcommands: map<string, Command>

    constructor ()
      ensures description == None && subcommands == map[]
    {
      description := None;
      subcommands := map[];
    }

    /** `WithGroupDescription`. */
    method Describe(text: string, compile: string -> Option<Error>) returns (err: Option<Error>)
      modifies this
      ensures err == compile(text)
      ensures err.None? ==> description == Some(text)
      ensures subcommands == old(subcommands)
    {
      err := compile(text);
      if err.None? {
        description := Some(text);
      }
    }

    /** `WithSubcommand`: a name already registered is refused and nothing
        changes; otherwise the subcommand is added under its name. */
    method Register(name: string, cmd: Command) returns (err: Option<Error>)
      modifies this
      ensures name in old(subcommands) ==> err == Some(SubcommandConflict(name)) && subcommands == old(subcommands)
      ensures name !in old(subcommands) ==> err == None && subcommands == old(subcommands)[name := cmd]
      ensures description == old(description)
    {
      if name in subcommands {
        return Some(SubcommandConflict(name));
      }
      subcommands := subcommands[name := cmd];
      return None;
    }
  }

  /** The reference fold of a group's options: the first failure stops it. */
  function GroupOptionsFold(options: seq<GroupOption>, compile: string -> Option<Error>, desc: Option<string>,
                            subs: map<string, Command>): Result<(Option<string>, map<string, Command>)>
    decreases |options|
  {
    if options == [] then Success((desc, subs))
    else match options[0]
      case GroupDescribe(text) =>
        if compile(text).Some? then Failure(compile(text).value)
        else GroupOptionsFold(options[1..], compile, Some(text), subs)
      case WithSubcommand(name, cmd) =>
        if name in subs then Failure(SubcommandConflict(name))
        else GroupOptionsFold(options[1..], compile, desc, subs[name := cmd])
  }

  /** The subcommand names the options register. */
  function Registered(options: seq<GroupOption>): set<string>
  {
    set i | 0 <= i < |options| && options[i].WithSubcommand? :: options[i].name
  }

  /** No name is registered twice. */
  predicate DistinctNames(options: seq<GroupOption>)
  {
    forall i, j :: 0 <= i < j < |options| && options[i].WithSubcommand? && options[j].WithSubcommand? ==>
      options[i].name != options[j].name
  }

  predicate Compiles(options: seq<GroupOption>, compile: string -> Option<Error>)
  {
    forall i :: 0 <= i < |options| && options[i].GroupDescribe? ==> compile(options[i].text).None?
  }

  /** A group's options succeed exactly when every description compiles and
      no name is registered twice (starting with no subcommand); the group
      then has exactly the registered names, each mapped to its command. */
  lemma {:induction false} GroupOptionsOutcome(options: seq<GroupOption>, compile: string -> Option<Error>,
                                               desc: Option<string>, subs: map<string, Command>)
    ensures GroupOptionsFold(options, compile, desc, subs).Success? <==>
      Compiles(options, compile) && DistinctNames(options) && subs.Keys !! Registered(options)
    ensures GroupOptionsFold(options, compile, desc, subs).Success? ==>
      && GroupOptionsFold(options, compile, desc, subs).value.1.Keys == subs.Keys + Registered(options)
      && forall i :: 0 <= i < |options| && options[i].WithSubcommand? ==>
           GroupOptionsFold(options, compile, desc, subs).value.1[options[i].name] == options[i].cmd
    ensures GroupOptionsFold(options, compile, desc, subs).Success? ==>
      forall x :: x in subs ==> GroupOptionsFold(options, compile, desc, subs).value.1[x] == subs[x]
    decreases |options|
  {
    if options != [] {
      var rest := options[1..];
      var o := options[0];
      var subs' := if o.WithSubcommand? then subs[o.name := o.cmd] else subs;
      var desc' := if o.GroupDescribe? then Some(o.text) else desc;
      GroupOptionsOutcome(rest, compile, desc', subs');
      GroupOptionsSplit(options, compile, subs);
    }
  }

  /** The conditions of `GroupOptionsOutcome` for `options`, in terms of
      its first option and the rest. */
  lemma GroupOptionsSplit(options: seq<GroupOption>, compile: string -> Option<Error>, subs: map<string, Command>)
    requires options != []
    ensures var o := options[0];
      var rest := options[1..];
      var subs' := if o.WithSubcommand? then subs[o.name := o.cmd] else subs;
      && Registered(options) == Registered(rest) + (if o.WithSubcommand? then {o.name} else {})
      && (Compiles(options, compile) <==> Compiles(rest, compile) && (o.GroupDescribe? ==> compile(o.text).None?))
      && (DistinctNames(options) && subs.Keys !! Registered(options) <==>
            && DistinctNames(rest) && subs'.Keys !! Registered(rest)
            && (o.WithSubcommand? ==> o.name !in subs))
  {
    var o := options[0];
    var rest := options[1..];
    forall i | 0 <= i < |rest|
      ensures rest[i] == options[i + 1]
    {
    }
    assert Registered(options) == Registered(rest) + (if o.WithSubcommand? then {o.name} else {}) by {
      forall x | x in Registered(options)
        ensures x in Registered(rest) + (if o.WithSubcommand? then {o.name} else {})
      {
        var i :| 0 <= i < |options| && options[i].WithSubcommand? && options[i].name == x;
        if i > 0 {
          assert rest[i - 1] == options[i];
        }
      }
    }
  }

  /** The reference definition of `NewCommandGroup`. */
  function GroupSpec(short: string, flagType: string, fields: seq<Field>, options: seq<GroupOption>,
                     compile: string -> Option<Error>): (r: Result<Command>)
    requires forall k :: 0 <= k < |fields| ==> fields[k].name != []
    ensures r.Success? <==> GroupOptionsFold(options, compile, None, map[]).Success? && DeclareAll(fields).Success?
    ensures r.Success? ==> r.value.Group? && r.value.short == short && r.value.flagType == flagType
    ensures r.Success? ==> |r.value.decls| == |fields|
  {
    var o := GroupOptionsFold(options, compile, None, map[]);
    if o.Failure? then Failure(o.error)
    else
      var d := DeclareAll(fields);
      if d.Failure? then Failure(d.error)
      else Success(Group(short, o.value.0, flagType, DeclsOf(fields, d.value), o.value.1))
  }

  /** `NewCommandGroup`: apply the options to a fresh option record, in
      order, stopping at the first that fails; then build the parser with
      no slots. */
  method NewCommandGroup(short: string, flagType: string, fields: seq<Field>, options: seq<GroupOption>,
                         compile: string -> Option<Error>) returns (r: Result<Command>)
    requires forall k :: 0 <= k < |fields| ==> fields[k].name != []
    ensures r == GroupSpec(short, flagType, fields, options, compile)
  {
    var opt := new GroupOptions();
    for k := 0 to |options|
      invariant GroupOptionsFold(options, compile, None, map[]) ==
        GroupOptionsFold(options[k..], compile, opt.description, opt.subcommands)
    {
      assert options[k..][1..] == options[k + 1..];
      var err: Option<Error>;
      if options[k].GroupDescribe? {
        err := opt.Describe(options[k].text, compile);
      } else {
        err := opt.Register(options[k].name, options[k].cmd);
      }
      if err.Some? {
        return Failure(err.value);
      }
    }
    assert options[|options|..] == [];
    var p := New(fields, []);
    if p.Failure? {
      return Failure(p.error);
    }
    var decls := DeclsFrom(p.value, fields, []);
    return Success(Group(short, opt.description, flagType, decls, opt.subcommands));
  }
}
