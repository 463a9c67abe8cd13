/** The command-line parser (parser/parser.go). A parse runs in two passes:
    the flag pass walks the tokens, hands each flag its value and keeps the
    other tokens in order; the allocation pass then deals the kept tokens to
    the positional slots, required slots first, a repeatable slot taking all
    that the slots after it can spare. */
module Parser {
  import opened Text
  import opened Errors
  import opened Translators
  import opened Flags
  import Args

  // ---------------------------------------------------------------------
  // Recognising a flag token.

  /** `seemsFlag` as written. It slices the first two bytes of its argument
      after ruling out only `""` and `"--"`, so the one-byte text `"-"` is
      outside its domain (Go panics on it). Its length tests count bytes
      (`ByteLen`); its dash tests may count characters, since a dash is one
      byte and no byte of a multi-byte character is a dash. */
  function SeemsFlagAsWritten(arg: string): (r: Option<string>)
    requires arg != "-"
    ensures r.Some? ==> r.value != [] && r.value[0] != '-' && arg == Hyphen(r.value)
  {
    if arg == "--" || arg == "" || arg[0] != '-' then None
    else if arg[..2] == "--" && arg[..3] != "---" && 4 <= ByteLen(arg) then
      ByteLenAppend(arg[..2], arg[2..]);
      assert arg == arg[..2] + arg[2..];
      Some(arg[2..])
    else if arg[0] == '-' && ByteLen(arg) == 2 then
      assert arg == [arg[0]] + arg[1..];
      ByteLenAppend([arg[0]], arg[1..]);
      Some(arg[1..])
    else None
  }

  /** `seemsFlag` with the single dash read as an ordinary token, the usual
      Unix reading of `-` (standard input). */
  function SeemsFlag(arg: string): (r: Option<string>)
    ensures r.Some? ==> r.value != [] && r.value[0] != '-' && arg == Hyphen(r.value)
    ensures |arg| < 2 ==> r.None?
  {
    if arg == "-" then None else SeemsFlagAsWritten(arg)
  }

  /** Apart from `"-"`, the corrected recogniser agrees with the original. */
  lemma SeemsFlagAgrees(arg: string)
    requires arg != "-"
    ensures SeemsFlag(arg) == SeemsFlagAsWritten(arg)
  {
  }

  /** The original is reached with `"-"` by a lone dash token and by any
      token that starts with `-=`: the text before the first `=` is `"-"`. */
  lemma SeemsFlagOutsideDomain(token: string)
    requires |token| >= 1 && token[0] == '-' && (|token| == 1 || token[1] == '=')
    ensures Cut(token, '=').before == "-"
  {
    var rest := token[1..];
    if rest != [] {
      assert rest[0] == '=';
    }
    assert Cut(rest, '=').before == [];
    assert Cut(token, '=').before == [token[0]];
  }

  /** A token is flag-shaped exactly when it is the dashed form (`hypen`) of
      a non-empty name that does not itself start with a dash. */
  lemma SeemsFlagIff(arg: string, n: string)
    ensures SeemsFlag(arg) == Some(n) <==> n != [] && n[0] != '-' && arg == Hyphen(n)
  {
    if n != [] && n[0] != '-' && arg == Hyphen(n) {
      if ByteLen(n) == 1 {
        assert arg == "-" + n && arg[1..] == n;
        ByteLenAppend("-", n);
      } else {
        assert arg == "--" + n && arg[..2] == "--" && arg[2] == n[0] && arg[2..] == n;
        ByteLenAppend("--", n);
      }
    }
  }

  /** Lengths are bytes: `-é` (three bytes) is an ordinary token, `--é` is
      the flag `é`, and the name `é` is shown as `--é`. */
  lemma SeemsFlagCountsBytes()
    ensures SeemsFlag("-\U{E9}") == None
    ensures SeemsFlag("--\U{E9}") == Some("\U{E9}")
    ensures Hyphen("\U{E9}") == "--\U{E9}"
  {
    assert ByteLen("\U{E9}") == 2;
    assert ByteLen("-\U{E9}") == 3;
    assert ByteLen("--\U{E9}") == 4;
  }

  /** The first flag, from index `j` on, that answers to the bare name. */
  function FirstMatchFrom(F: seq<FlagSchema>, given: string, j: nat): (r: Option<nat>)
    requires j <= |F|
    ensures r.Some? ==> j <= r.value < |F| && Match(F[r.value], given)
    ensures r.Some? ==> forall m :: j <= m < r.value ==> !Match(F[m], given)
    ensures r.None? ==> forall m :: j <= m < |F| ==> !Match(F[m], given)
    decreases |F| - j
  {
    if j == |F| then None
    else if Match(F[j], given) then Some(j)
    else FirstMatchFrom(F, given, j + 1)
  }

  function FirstMatch(F: seq<FlagSchema>, given: string): Option<nat>
  {
    FirstMatchFrom(F, given, 0)
  }

  // ---------------------------------------------------------------------
  // The flag pass, as a reference definition.

  /** One value stored into the flag at index `flag`. */
  datatype Event = Event(flag: nat, value: Value)

  /** The stores made by the flag pass, in order, and either the tokens it
      kept or the error it stopped with. Stores made before an error stay
      made. */
  datatype Scan = Scan(events: seq<Event>, outcome: Result<seq<string>>)

  function Keep(token: string, sc: Scan): Scan
  {
    Scan(sc.events, if sc.outcome.Success? then Success([token] + sc.outcome.value) else sc.outcome)
  }

  function Prepend(evs: seq<Event>, sc: Scan): Scan
  {
    Scan(evs + sc.events, sc.outcome)
  }

  /** The error of a flag, reported with the token text before any `=`. */
  function Halt(err: Error, token: string): Scan
  {
    Scan([], Failure(AtToken(err, token)))
  }

  /** A successful `Set` stores a value, except through a custom setter,
      which has its own effects. */
  function Stored(k: nat, f: FlagSchema, v: Value): seq<Event>
  {
    if IsCustom(f.kind) then [] else [Event(k, v)]
  }

  /** The flag pass over `args`, one token at a time:
      - `--` ends the pass and the tokens after it are kept as they are;
      - a token that is not flag-shaped, or names no flag, is kept;
      - `name=value` gives the value to the flag, and any error stops the pass;
      - a last token without `=` runs the flag's `Found` action;
      - otherwise the next token is the value; if the flag refuses it asking
        for a push-back, the flag's `Found` action runs instead and the next
        token is read again. If `Found` fails too, the error reported is the
        one the flag gave for the value. */
  function ScanSpec(F: seq<FlagSchema>, args: seq<string>): (r: Scan)
    decreases |args|, 1
  {
    if args == [] then Scan([], Success([]))
    else if args[0] == "--" then Scan([], Success(args[1..]))
    else
      var c := Cut(args[0], '=');
      var m := MatchToken(F, c.before);
      if m.None? then Keep(args[0], ScanSpec(F, args[1..]))
      else ScanFlag(F, args, c, m.value)
  }

  /** The flag a token (its text before any `=`) names, if it is
      flag-shaped and some flag answers to it. */
  function MatchToken(F: seq<FlagSchema>, before: string): (r: Option<nat>)
    ensures r.Some? ==> r.value < |F|
  {
    var given := SeemsFlag(before);
    if given.Some? then FirstMatch(F, given.value) else None
  }

  /** The pass from a token `c` that names flag `k`. */
  function ScanFlag(F: seq<FlagSchema>, args: seq<string>, c: CutResult, k: nat): (r: Scan)
    requires args != [] && k < |F|
    decreases |args|, 0
  {
    var f := F[k];
    if c.found then
      var t := Translate(f.kind, c.after);
      if t.Failure? then Halt(t.error, c.before)
      else Prepend(Stored(k, f, t.value), ScanSpec(F, args[1..]))
    else if |args| == 1 then
      var a := FoundAction(f);
      if a.Failure? then Halt(a.error, c.before)
      else Scan([Event(k, a.value)], Success([]))
    else
      var t := Translate(f.kind, args[1]);
      if t.Success? then Prepend(Stored(k, f, t.value), ScanSpec(F, args[2..]))
      else if !Is(t.error, ErrPushBack) then Halt(t.error, c.before)
      else if FoundAction(f).Failure? then Halt(t.error, c.before)
      else Prepend([Event(k, FoundAction(f).value)], ScanSpec(F, args[1..]))
  }

  /** The pass so far (its stores and kept tokens) followed by the pass over
      the remaining tokens. */
  function Glue(evs: seq<Event>, kept: seq<string>, sc: Scan): Scan
  {
    Scan(evs + sc.events, if sc.outcome.Success? then Success(kept + sc.outcome.value) else sc.outcome)
  }

  lemma GlueKeep(evs: seq<Event>, kept: seq<string>, token: string, sc: Scan)
    ensures Glue(evs, kept, Keep(token, sc)) == Glue(evs, kept + [token], sc)
  {
    if sc.outcome.Success? {
      assert kept + ([token] + sc.outcome.value) == (kept + [token]) + sc.outcome.value;
    }
  }

  lemma GluePrepend(evs: seq<Event>, kept: seq<string>, more: seq<Event>, sc: Scan)
    ensures Glue(evs, kept, Prepend(more, sc)) == Glue(evs + more, kept, sc)
  {
    assert evs + (more + sc.events) == (evs + more) + sc.events;
  }

  lemma GlueGlue(evs: seq<Event>, kept: seq<string>, more: seq<Event>, kept': seq<string>, sc: Scan)
    ensures Glue(evs, kept, Glue(more, kept', sc)) == Glue(evs + more, kept + kept', sc)
  {
    assert evs + (more + sc.events) == (evs + more) + sc.events;
    if sc.outcome.Success? {
      assert kept + (kept' + sc.outcome.value) == (kept + kept') + sc.outcome.value;
    }
  }

  lemma GlueStart(F: seq<FlagSchema>, args: seq<string>)
    ensures ScanSpec(F, args) == Glue([], [], ScanSpec(F, args[0..]))
  {
    var sc := ScanSpec(F, args);
    assert args[0..] == args;
    assert [] + sc.events == sc.events;
    if sc.outcome.Success? {
      assert [] + sc.outcome.value == sc.outcome.value;
    }
  }

  lemma GlueEnd(F: seq<FlagSchema>, args: seq<string>, evs: seq<Event>, kept: seq<string>)
    requires ScanSpec(F, args) == Glue(evs, kept, ScanSpec(F, args[|args|..]))
    ensures ScanSpec(F, args) == Scan(evs, Success(kept))
  {
    assert args[|args|..] == [];
    assert evs + [] == evs && kept + [] == kept;
  }

  lemma GlueStop(evs: seq<Event>, kept: seq<string>, sc: Scan)
    requires sc.events == []
    ensures Glue(evs, kept, sc).events == evs
  {
    assert evs + [] == evs;
  }

  // ---------------------------------------------------------------------
  // Properties of the flag pass.

  /** A token the flag pass keeps as it is: not `--`, and naming no flag. */
  predicate Unmatched(F: seq<FlagSchema>, token: string)
  {
    token != "--" && MatchToken(F, Cut(token, '=').before).None?
  }

  lemma KeepGlue(evs: seq<Event>, kept: seq<string>, token: string, sc: Scan)
    ensures Keep(token, Glue(evs, kept, sc)) == Glue(evs, [token] + kept, sc)
  {
    if sc.outcome.Success? {
      assert [token] + (kept + sc.outcome.value) == ([token] + kept) + sc.outcome.value;
    }
  }

  /** The pass at a token that names no flag. */
  lemma ScanUnmatchedStep(F: seq<FlagSchema>, args: seq<string>)
    requires args != [] && Unmatched(F, args[0])
    ensures ScanSpec(F, args) == Keep(args[0], ScanSpec(F, args[1..]))
  {
  }

  /** Tokens that name no flag are kept with their full text, in their
      order, and store nothing. */
  lemma {:induction false} ScanKeepsUnmatched(F: seq<FlagSchema>, pre: seq<string>, rest: seq<string>)
    requires forall k :: 0 <= k < |pre| ==> Unmatched(F, pre[k])
    ensures ScanSpec(F, pre + rest) == Glue([], pre, ScanSpec(F, rest))
    decreases |pre|
  {
    if pre == [] {
      GlueNothing(ScanSpec(F, rest));
      assert pre + rest == rest;
    } else {
      ScanKeepsUnmatched(F, pre[1..], rest);
      KeepOne(F, pre, rest);
    }
  }

  lemma GlueNothing(sc: Scan)
    ensures Glue([], [], sc) == sc
  {
    assert [] + sc.events == sc.events;
    if sc.outcome.Success? {
      assert [] + sc.outcome.value == sc.outcome.value;
    }
  }

  lemma KeepOne(F: seq<FlagSchema>, pre: seq<string>, rest: seq<string>)
    requires pre != [] && Unmatched(F, pre[0])
    requires ScanSpec(F, pre[1..] + rest) == Glue([], pre[1..], ScanSpec(F, rest))
    ensures ScanSpec(F, pre + rest) == Glue([], pre, ScanSpec(F, rest))
  {
    var a := pre + rest;
    assert a[0] == pre[0] && a[1..] == pre[1..] + rest;
    ScanUnmatchedStep(F, a);
    KeepGlueStep(pre, ScanSpec(F, a), ScanSpec(F, a[1..]), ScanSpec(F, rest));
  }

  /** The step of `KeepOne`, apart from the pass: keeping the first token in
      front of the rest kept. */
  lemma KeepGlueStep(pre: seq<string>, x: Scan, y: Scan, sc: Scan)
    requires pre != [] && x == Keep(pre[0], y) && y == Glue([], pre[1..], sc)
    ensures x == Glue([], pre, sc)
  {
    KeepGlue([], pre[1..], pre[0], sc);
    assert [pre[0]] + pre[1..] == pre;
  }

  /** `--` ends the flag pass: it is dropped, the tokens after it are kept
      verbatim even when they look like flags, and nothing after it is
      stored. */
  lemma ScanEndMarker(F: seq<FlagSchema>, pre: seq<string>, post: seq<string>)
    requires forall k :: 0 <= k < |pre| ==> Unmatched(F, pre[k])
    ensures ScanSpec(F, pre + ["--"] + post) == Scan([], Success(pre + post))
  {
    ScanKeepsUnmatched(F, pre, ["--"] + post);
    assert pre + ["--"] + post == pre + (["--"] + post);
    assert (["--"] + post)[1..] == post;
  }

  /** A parser without flags stores nothing and keeps every token but the
      first `--`. */
  lemma ScanWithoutFlags(pre: seq<string>, post: seq<string>)
    requires "--" !in pre
    ensures ScanSpec([], pre) == Scan([], Success(pre))
    ensures ScanSpec([], pre + ["--"] + post) == Scan([], Success(pre + post))
  {
    forall k | 0 <= k < |pre|
      ensures Unmatched([], pre[k])
    {
      assert pre[k] != "--";
    }
    ScanKeepsUnmatched([], pre, []);
    assert pre + [] == pre;
    ScanEndMarker([], pre, post);
  }

  /** The outcome of the pass at a token that names a flag is a failure,
      nothing, or the outcome of the pass from the next or the one after. */
  lemma ScanFlagOutcome(F: seq<FlagSchema>, args: seq<string>, c: CutResult, k: nat)
    requires args != [] && k < |F|
    ensures var o := ScanFlag(F, args, c, k).outcome;
      || o.Failure? || o == Success([]) || o == ScanSpec(F, args[1..]).outcome
      || (|args| >= 2 && o == ScanSpec(F, args[2..]).outcome)
  {
  }

  /** The pass at a token other than `--`: kept, or handed to its flag. */
  lemma ScanTokenStep(F: seq<FlagSchema>, args: seq<string>)
    requires args != [] && args[0] != "--"
    ensures var c := Cut(args[0], '=');
      var m := MatchToken(F, c.before);
      ScanSpec(F, args) == if m.None? then Keep(args[0], ScanSpec(F, args[1..])) else ScanFlag(F, args, c, m.value)
  {
  }

  /** The pass makes at most one store per token and keeps no more tokens
      than it was given. */
  lemma {:induction false} ScanBounds(F: seq<FlagSchema>, args: seq<string>)
    ensures |ScanSpec(F, args).events| <= |args|
    ensures ScanSpec(F, args).outcome.Success? ==> |ScanSpec(F, args).outcome.value| <= |args|
    decreases |args|, 1
  {
    if args != [] && args[0] != "--" {
      var c := Cut(args[0], '=');
      var m := MatchToken(F, c.before);
      if m.None? {
        ScanBounds(F, args[1..]);
      } else {
        ScanFlagBounds(F, args, c, m.value);
      }
    }
  }

  /** From a flag token the pass keeps fewer tokens than it was given: the
      flag token itself is never kept. */
  lemma {:induction false} ScanFlagBounds(F: seq<FlagSchema>, args: seq<string>, c: CutResult, k: nat)
    requires args != [] && k < |F|
    ensures |ScanFlag(F, args, c, k).events| <= |args|
    ensures ScanFlag(F, args, c, k).outcome.Success? ==> |ScanFlag(F, args, c, k).outcome.value| < |args|
    decreases |args|, 0
  {
    var f := F[k];
    if c.found {
      var t := Translate(f.kind, c.after);
      if t.Success? {
        ScanBounds(F, args[1..]);
        assert |Stored(k, f, t.value)| <= 1;
      }
    } else if |args| >= 2 {
      var t := Translate(f.kind, args[1]);
      if t.Success? {
        ScanBounds(F, args[2..]);
        assert |Stored(k, f, t.value)| <= 1;
      } else if Is(t.error, ErrPushBack) && FoundAction(f).Success? {
        ScanBounds(F, args[1..]);
      }
    }
  }

  /** The outcome of the pass at any first token, in terms of the pass over
      the tokens after it. */
  lemma ScanOutcomeCases(F: seq<FlagSchema>, args: seq<string>)
    requires args != []
    ensures var o := ScanSpec(F, args).outcome;
      var o1 := ScanSpec(F, args[1..]).outcome;
      || o.Failure? || o == Success([]) || o == Success(args[1..]) || o == o1
      || (o1.Success? && o == Success([args[0]] + o1.value))
      || (|args| >= 2 && o == ScanSpec(F, args[2..]).outcome)
  {
    if args[0] != "--" {
      ScanTokenStep(F, args);
      var c := Cut(args[0], '=');
      var m := MatchToken(F, c.before);
      if m.Some? {
        ScanFlagOutcome(F, args, c, m.value);
      }
    }
  }

  /** The kept tokens are taken from the arguments: no token is invented or
      kept twice. */
  lemma {:induction false} ScanKeptFromArgs(F: seq<FlagSchema>, args: seq<string>)
    ensures ScanSpec(F, args).outcome.Success? ==> multiset(ScanSpec(F, args).outcome.value) <= multiset(args)
    decreases |args|
  {
    if args == [] {
      return;
    }
    ScanOutcomeCases(F, args);
    ScanKeptFromArgs(F, args[1..]);
    if |args| >= 2 {
      ScanKeptFromArgs(F, args[2..]);
    }
    var o2 := if |args| >= 2 then ScanSpec(F, args[2..]).outcome else Success([]);
    KeptBound(args, ScanSpec(F, args).outcome, ScanSpec(F, args[1..]).outcome, o2);
  }

  /** The multiset step of `ScanKeptFromArgs`: an outcome built from the
      outcomes after one or two tokens keeps only tokens of the arguments. */
  lemma KeptBound(args: seq<string>, o: Result<seq<string>>, o1: Result<seq<string>>, o2: Result<seq<string>>)
    requires args != []
    requires o1.Success? ==> multiset(o1.value) <= multiset(args[1..])
    requires |args| >= 2 && o2.Success? ==> multiset(o2.value) <= multiset(args[2..])
    requires || o.Failure? || o == Success([]) || o == Success(args[1..]) || o == o1
      || (o1.Success? && o == Success([args[0]] + o1.value))
      || (|args| >= 2 && o == o2)
    ensures o.Success? ==> multiset(o.value) <= multiset(args)
  {
    assert args == [args[0]] + args[1..];
    if |args| >= 2 {
      assert args[1..] == [args[1]] + args[2..];
    }
  }

  /** A flag pass over flags without custom setters fails only with usage
      errors: parse errors, push-backs and missing values, tagged with the
      flag's token. */
  lemma {:induction false} ScanErrorsAreUsage(F: seq<FlagSchema>, args: seq<string>)
    requires forall k :: 0 <= k < |F| ==> !IsCustom(F[k].kind)
    ensures ScanSpec(F, args).outcome.Failure? ==> FromResolution(ScanSpec(F, args).outcome.error)
    ensures ScanSpec(F, args).outcome.Failure? ==> Is(ScanSpec(F, args).outcome.error, ErrUsage)
    decreases |args|
  {
    if args == [] || args[0] == "--" {
      return;
    }
    ScanErrorsResolution(F, args);
    var sc := ScanSpec(F, args);
    if sc.outcome.Failure? {
      ResolutionErrorsAreUsage(sc.outcome.error);
    }
  }

  lemma {:induction false} ScanErrorsResolution(F: seq<FlagSchema>, args: seq<string>)
    requires forall k :: 0 <= k < |F| ==> !IsCustom(F[k].kind)
    ensures ScanSpec(F, args).outcome.Failure? ==> FromResolution(ScanSpec(F, args).outcome.error)
    decreases |args|
  {
    if args == [] || args[0] == "--" {
      return;
    }
    ScanTokenStep(F, args);
    ScanErrorsResolution(F, args[1..]);
    var c := Cut(args[0], '=');
    var m := MatchToken(F, c.before);
    if m.Some? {
      ScanFlagResolution(F, args, c, m.value);
      if |args| >= 2 {
        ScanErrorsResolution(F, args[2..]);
      }
    }
  }

  /** A failure of the pass at a flag token without a custom setter is a
      resolution error of its own, or one from further on. */
  lemma ScanFlagResolution(F: seq<FlagSchema>, args: seq<string>, c: CutResult, k: nat)
    requires args != [] && k < |F| && !IsCustom(F[k].kind)
    ensures var o := ScanFlag(F, args, c, k).outcome;
      o.Failure? ==>
        || FromResolution(o.error)
        || o == ScanSpec(F, args[1..]).outcome
        || (|args| >= 2 && o == ScanSpec(F, args[2..]).outcome)
  {
    TranslateResolution(F[k].kind, c.after);
    if |args| >= 2 {
      TranslateResolution(F[k].kind, args[1]);
    }
  }

  /** The translators and `Found` actions of the built-in kinds fail only
      with resolution errors. */
  lemma TranslateResolution(k: Kind, s: string)
    requires !IsCustom(k)
    ensures Translate(k, s).Failure? ==> FromResolution(Translate(k, s).error)
    ensures forall f: FlagSchema {:trigger FoundAction(f)} :: f.kind == k && FoundAction(f).Failure? ==> FromResolution(FoundAction(f).error)
  {
  }

  /** Every error of the flag pass is tagged with the text of the token
      before any `=`. */
  lemma {:induction false} ScanErrorsTagged(F: seq<FlagSchema>, args: seq<string>)
    ensures ScanSpec(F, args).outcome.Failure? ==> ScanSpec(F, args).outcome.error.AtToken?
    decreases |args|
  {
    if args == [] || args[0] == "--" {
      return;
    }
    ScanTokenStep(F, args);
    ScanErrorsTagged(F, args[1..]);
    var c := Cut(args[0], '=');
    var m := MatchToken(F, c.before);
    if m.Some? {
      ScanFlagOutcome(F, args, c, m.value);
      ScanFlagErrors(F, args, c, m.value);
      if |args| >= 2 {
        ScanErrorsTagged(F, args[2..]);
      }
    }
  }

  /** A failure of the pass at a flag token is either its own, tagged with
      the token, or one from further on. */
  lemma ScanFlagErrors(F: seq<FlagSchema>, args: seq<string>, c: CutResult, k: nat)
    requires args != [] && k < |F|
    ensures var o := ScanFlag(F, args, c, k).outcome;
      o.Failure? ==>
        || (o.error.AtToken? && o.error.token == c.before)
        || o == ScanSpec(F, args[1..]).outcome
        || (|args| >= 2 && o == ScanSpec(F, args[2..]).outcome)
  {
  }

  // The lookahead cases, for a flag token `flagTok` without `=` that
  // names flag `k`, followed by the token `v`.

  /** A bool flag followed by a word that is not a bool word: the word is
      given back, the flag stores true, and the word is read again as an
      ordinary token (`-b unknown`). */
  lemma ScanBoolPushBack(F: seq<FlagSchema>, k: nat, flagTok: string, v: string, rest: seq<string>)
    requires k < |F| && F[k].kind == KBool
    requires '=' !in flagTok && MatchToken(F, flagTok) == Some(k)
    requires ReadBool(v).Failure?
    ensures ScanSpec(F, [flagTok, v] + rest) == Prepend([Event(k, Bool(true))], ScanSpec(F, [v] + rest))
  {
    var a := [flagTok, v] + rest;
    assert a[0] == flagTok && a[1] == v && a[1..] == [v] + rest;
    CutNoSep(flagTok, '=');
    ScanTokenStep(F, a);
  }

  /** With `=`, the same word is an error, not a push-back (`-b=unknown`). */
  lemma ScanBoolInline(F: seq<FlagSchema>, k: nat, before: string, v: string, rest: seq<string>)
    requires k < |F| && F[k].kind == KBool
    requires '=' !in before && MatchToken(F, before) == Some(k)
    requires ReadBool(v).Failure?
    ensures ScanSpec(F, [before + "=" + v] + rest) == Halt(NotBool(v), before)
  {
    var token := before + "=" + v;
    assert token == before + (['='] + v);
    CutAfter(before, v, '=');
    var c := Cut(token, '=');
    assert c == CutResult(before, v, true);
    var a := [token] + rest;
    assert a[0] == token && token != "--" by { assert token[|before|] == '='; }
    ScanTokenStep(F, a);
    assert ScanSpec(F, a) == ScanFlag(F, a, c, k);
  }

  /** A token the flag's translator accepts is its value, even one that
      looks like a flag (`-3` after an int flag). */
  lemma ScanTakesNext(F: seq<FlagSchema>, k: nat, flagTok: string, v: string, rest: seq<string>)
    requires k < |F| && !IsCustom(F[k].kind)
    requires '=' !in flagTok && MatchToken(F, flagTok) == Some(k)
    requires Translate(F[k].kind, v).Success?
    ensures ScanSpec(F, [flagTok, v] + rest) ==
      Prepend([Event(k, Translate(F[k].kind, v).value)], ScanSpec(F, rest))
  {
    var a := [flagTok, v] + rest;
    assert a[0] == flagTok && a[1] == v && a[2..] == rest;
    CutNoSep(flagTok, '=');
    ScanTokenStep(F, a);
  }

  /** A refusal that does not ask for a push-back stops the pass (`-3`
      after an unsigned flag). */
  lemma ScanRefusesNext(F: seq<FlagSchema>, k: nat, flagTok: string, v: string, rest: seq<string>)
    requires k < |F|
    requires '=' !in flagTok && MatchToken(F, flagTok) == Some(k)
    requires Translate(F[k].kind, v).Failure? && !Is(Translate(F[k].kind, v).error, ErrPushBack)
    ensures ScanSpec(F, [flagTok, v] + rest) == Halt(Translate(F[k].kind, v).error, flagTok)
  {
    var a := [flagTok, v] + rest;
    assert a[0] == flagTok && a[1] == v;
    CutNoSep(flagTok, '=');
    ScanTokenStep(F, a);
  }

  /** A flag token without `=` as the last token: a bool flag stores true;
      every other flag fails with ErrValueRequired. */
  lemma ScanLastFlag(F: seq<FlagSchema>, k: nat, flagTok: string)
    requires k < |F|
    requires '=' !in flagTok && MatchToken(F, flagTok) == Some(k)
    ensures F[k].kind.KBool? ==> ScanSpec(F, [flagTok]) == Scan([Event(k, Bool(true))], Success([]))
    ensures !F[k].kind.KBool? ==>
      && ScanSpec(F, [flagTok]).outcome.Failure?
      && ScanSpec(F, [flagTok]).outcome.error == AtToken(FoundAction(F[k]).error, flagTok)
      && Is(ScanSpec(F, [flagTok]).outcome.error, ErrValueRequired)
  {
    CutNoSep(flagTok, '=');
    ScanTokenStep(F, [flagTok]);
    FoundOutcomes(F[k]);
  }

  /** After a push-back whose `Found` action fails too, the error reported
      is the translator's refusal, not the `Found` error. Only a custom
      setter can get here: a bool flag's `Found` never fails, and no other
      translator asks for a push-back. */
  lemma ScanPushBackFoundFails(F: seq<FlagSchema>, k: nat, flagTok: string, v: string, rest: seq<string>)
    requires k < |F|
    requires '=' !in flagTok && MatchToken(F, flagTok) == Some(k)
    requires Translate(F[k].kind, v).Failure? && Is(Translate(F[k].kind, v).error, ErrPushBack)
    requires FoundAction(F[k]).Failure?
    ensures IsCustom(F[k].kind)
    ensures ScanSpec(F, [flagTok, v] + rest) == Halt(Translate(F[k].kind, v).error, flagTok)
  {
    var a := [flagTok, v] + rest;
    assert a[0] == flagTok && a[1] == v;
    CutNoSep(flagTok, '=');
    ScanTokenStep(F, a);
  }

  // ---------------------------------------------------------------------
  // Properties of a whole parse.

  /** A parse fails with ErrNotEnoughArgs exactly when the flag pass
      succeeds, there are slots, and fewer tokens are kept than there are
      required slots. */
  lemma ParseTooFewIff(F: seq<FlagSchema>, slots: seq<Args.Arg>, args: seq<string>)
    ensures ParseOutcome(F, slots, args) == Failure(TooFewArgs) <==>
      && ScanSpec(F, args).outcome.Success? && slots != []
      && |ScanSpec(F, args).outcome.value| < CountRequired(slots)
  {
    var sc := ScanSpec(F, args);
    ScanErrorsTagged(F, args);
    if sc.outcome.Success? && slots != [] {
      AllocSatisfiedIff(slots, sc.outcome.value);
    }
  }

  /** A parse never leaves over more tokens than it was given. */
  lemma ParseBounds(F: seq<FlagSchema>, slots: seq<Args.Arg>, args: seq<string>)
    ensures ParseOutcome(F, slots, args).Success? ==> |ParseOutcome(F, slots, args).value.rem| <= |args|
  {
    ScanBounds(F, args);
  }

  /** A successful parse: without slots, an empty map and every kept token
      left over; with slots, every slot name is a key, no token is lost,
      and each slot's list is what the allocation gave it. */
  lemma ParseSuccessShape(F: seq<FlagSchema>, slots: seq<Args.Arg>, args: seq<string>)
    requires ParseOutcome(F, slots, args).Success?
    ensures var p := ParseOutcome(F, slots, args).value;
      var kept := ScanSpec(F, args).outcome.value;
      && ScanSpec(F, args).outcome.Success?
      && (slots == [] ==> p.args == map[] && p.rem == kept)
      && (slots != [] ==> p.args.Keys == Names(slots) && p.rem == Alloc(slots, kept).1)
      && (slots != [] ==> Flatten(Alloc(slots, kept).0) + p.rem == kept)
  {
    var kept := ScanSpec(F, args).outcome.value;
    if slots != [] {
      ToMapSlots(slots, Alloc(slots, kept).0);
      AllocConserves(slots, kept);
    }
  }

  /** The values stored into flag `k`, in order. */
  function Project(evs: seq<Event>, k: nat): seq<Value>
  {
    if evs == [] then []
    else (if evs[0].flag == k then [evs[0].value] else []) + Project(evs[1..], k)
  }

  lemma {:induction false} ProjectAppend(a: seq<Event>, b: seq<Event>, k: nat)
    ensures Project(a + b, k) == Project(a, k) + Project(b, k)
    decreases |a|
  {
    if a == [] {
      assert a + b == b;
    } else {
      var h := if a[0].flag == k then [a[0].value] else [];
      assert (a + b)[0] == a[0];
      assert (a + b)[1..] == a[1..] + b;
      assert Project(a + b, k) == h + Project(a[1..] + b, k);
      ProjectAppend(a[1..], b, k);
      assert Project(a, k) == h + Project(a[1..], k);
      assert h + (Project(a[1..], k) + Project(b, k)) == (h + Project(a[1..], k)) + Project(b, k);
    }
  }

  /** Every flag's history `H[k]` extended by its share of `evs`. */
  function Extend(H: seq<seq<Value>>, evs: seq<Event>): (r: seq<seq<Value>>)
    ensures |r| == |H|
    ensures forall k :: 0 <= k < |H| ==> r[k] == H[k] + Project(evs, k)
  {
    seq(|H|, k requires 0 <= k < |H| => H[k] + Project(evs, k))
  }

  /** Stores are only appended: two stretches of events extend the
      histories as the two together do. */
  lemma ExtendTwice(H: seq<seq<Value>>, a: seq<Event>, b: seq<Event>)
    ensures Extend(Extend(H, a), b) == Extend(H, a + b)
  {
    forall k | 0 <= k < |H|
      ensures Extend(Extend(H, a), b)[k] == Extend(H, a + b)[k]
    {
      ProjectAppend(a, b, k);
    }
  }

  /** No events, no change to any history. */
  lemma ExtendNone(H: seq<seq<Value>>)
    ensures Extend(H, []) == H
  {
    forall k | 0 <= k < |H|
      ensures Extend(H, [])[k] == H[k]
    {
      assert H[k] + [] == H[k];
    }
  }

  lemma {:induction false} ProjectOther(evs: seq<Event>, j: nat, k: nat)
    requires j != k && forall e :: e in evs ==> e.flag == j
    ensures Project(evs, k) == []
    decreases |evs|
  {
    if evs != [] {
      assert evs[0] in evs;
      assert forall e :: e in evs[1..] ==> e in evs;
      ProjectOther(evs[1..], j, k);
    }
  }

  // ---------------------------------------------------------------------
  // The allocation pass, as a reference definition.

  function CountRequired(slots: seq<Args.Arg>): (n: nat)
    ensures n <= |slots|
  {
    if slots == [] then 0 else (if slots[0].required then 1 else 0) + CountRequired(slots[1..])
  }

  /** How many of the kept tokens the first slot takes. While there are no
      more tokens than required slots, a required slot takes one token and
      an optional slot none; otherwise a repeatable slot takes every token
      the required slots after it do not need, any other slot one. */
  function Take(slots: seq<Args.Arg>, toks: seq<string>): (n: nat)
    requires slots != []
    ensures n <= |toks|
  {
    if |toks| <= CountRequired(slots) then (if slots[0].required && toks != [] then 1 else 0)
    else if slots[0].repeatable then |toks| - CountRequired(slots[1..])
    else 1
  }

  function Front(x: seq<string>, r: (seq<seq<string>>, seq<string>)): (seq<seq<string>>, seq<string>)
  {
    ([x] + r.0, r.1)
  }

  /** The tokens each slot receives, and the tokens no slot takes. */
  function Alloc(slots: seq<Args.Arg>, toks: seq<string>): (r: (seq<seq<string>>, seq<string>))
    ensures |r.0| == |slots|
    decreases |slots|
  {
    if slots == [] then ([], toks)
    else
      var n := Take(slots, toks);
      Front(toks[..n], Alloc(slots[1..], toks[n..]))
  }

  /** Every required slot received a token. */
  predicate Satisfied(slots: seq<Args.Arg>, lists: seq<seq<string>>)
    requires |lists| == |slots|
  {
    forall k :: 0 <= k < |slots| && slots[k].required ==> lists[k] != []
  }

  function Flatten(lists: seq<seq<string>>): seq<string>
  {
    if lists == [] then [] else lists[0] + Flatten(lists[1..])
  }

  /** One more token for slot `idx`. */
  function Push(lists: seq<seq<string>>, idx: nat, t: string): seq<seq<string>>
    requires idx < |lists|
  {
    lists[idx := lists[idx] + [t]]
  }

  /** A map lookup that reads a missing key as empty, as Go's map index does. */
  function Lookup(m: map<string, seq<string>>, key: string): seq<string>
  {
    if key in m then m[key] else []
  }

  /** Every slot name, bound to nothing yet. */
  function Init(slots: seq<Args.Arg>): map<string, seq<string>>
  {
    if slots == [] then map[]
    else Init(slots[..|slots| - 1])[slots[|slots| - 1].name := []]
  }

  /** The map of the first `n` slots' tokens; slots sharing a name share an
      entry, their tokens in slot order. */
  function Fill(slots: seq<Args.Arg>, lists: seq<seq<string>>, n: nat): map<string, seq<string>>
    requires |lists| == |slots| && n <= |slots|
  {
    if n == 0 then Init(slots)
    else
      var m := Fill(slots, lists, n - 1);
      m[slots[n - 1].name := Lookup(m, slots[n - 1].name) + lists[n - 1]]
  }

  function ToMap(slots: seq<Args.Arg>, lists: seq<seq<string>>): map<string, seq<string>>
    requires |lists| == |slots|
  {
    Fill(slots, lists, |slots|)
  }

  /** What `Parse` returns besides the flags: the positional arguments by
      slot name and the tokens left over. */
  datatype Parsed = Parsed(args: map<string, seq<string>>, rem: seq<string>)

  /** The reference definition of a whole parse. A parser without slots
      returns every kept token as left over. */
  function ParseOutcome(F: seq<FlagSchema>, slots: seq<Args.Arg>, args: seq<string>): (r: Result<Parsed>)
    ensures r.Success? ==> ScanSpec(F, args).outcome.Success?
  {
    var sc := ScanSpec(F, args);
    if sc.outcome.Failure? then Failure(sc.outcome.error) else Settle(slots, sc.outcome.value)
  }

  /** The allocation pass over the kept tokens. */
  function Settle(slots: seq<Args.Arg>, toks: seq<string>): (r: Result<Parsed>)
    ensures r.Failure? <==> slots != [] && |toks| < CountRequired(slots)
    ensures r.Failure? ==> r.error == TooFewArgs
    ensures r.Success? ==> |r.value.rem| <= |toks|
  {
    if slots == [] then Success(Parsed(map[], toks))
    else
      AllocSatisfiedIff(slots, toks);
      AllocConserves(slots, toks);
      var a := Alloc(slots, toks);
      if !Satisfied(slots, a.0) then Failure(TooFewArgs)
      else Success(Parsed(ToMap(slots, a.0), a.1))
  }

  // ---------------------------------------------------------------------
  // Properties of the allocation.

  lemma SatisfiedCons(slots: seq<Args.Arg>, x: seq<string>, lists: seq<seq<string>>)
    requires slots != [] && |lists| + 1 == |slots|
    ensures Satisfied(slots, [x] + lists) <==>
      (slots[0].required ==> x != []) && Satisfied(slots[1..], lists)
  {
    var all := [x] + lists;
    if (slots[0].required ==> x != []) && Satisfied(slots[1..], lists) {
      forall k | 0 <= k < |slots| && slots[k].required
        ensures all[k] != []
      {
        if k > 0 {
          assert slots[1..][k - 1] == slots[k] && all[k] == lists[k - 1];
        }
      }
    }
    if Satisfied(slots, all) {
      forall k | 0 <= k < |slots| - 1 && slots[1..][k].required
        ensures lists[k] != []
      {
        assert all[k + 1] == lists[k];
      }
    }
  }

  /** No token is lost, duplicated or reordered: the slots' tokens, in slot
      order, followed by the left-over tokens, are the kept tokens. */
  lemma {:induction false} AllocConserves(slots: seq<Args.Arg>, toks: seq<string>)
    ensures Flatten(Alloc(slots, toks).0) + Alloc(slots, toks).1 == toks
    decreases |slots|
  {
    if slots != [] {
      var n := Take(slots, toks);
      AllocConserves(slots[1..], toks[n..]);
      var r := Alloc(slots[1..], toks[n..]);
      assert Alloc(slots, toks).0 == [toks[..n]] + r.0;
      assert Flatten([toks[..n]] + r.0) == toks[..n] + Flatten(r.0);
      assert toks == toks[..n] + toks[n..];
    }
  }

  /** Every required slot gets a token exactly when there are at least as
      many kept tokens as required slots. */
  lemma {:induction false} AllocSatisfiedIff(slots: seq<Args.Arg>, toks: seq<string>)
    ensures Satisfied(slots, Alloc(slots, toks).0) <==> |toks| >= CountRequired(slots)
    decreases |slots|
  {
    if slots != [] {
      var n := Take(slots, toks);
      AllocSatisfiedIff(slots[1..], toks[n..]);
      SatisfiedCons(slots, toks[..n], Alloc(slots[1..], toks[n..]).0);
    }
  }

  /** A slot that is not repeatable gets at most one token. */
  lemma {:induction false} AllocSingle(slots: seq<Args.Arg>, toks: seq<string>)
    ensures forall k :: 0 <= k < |slots| && !slots[k].repeatable ==> |Alloc(slots, toks).0[k]| <= 1
    decreases |slots|
  {
    if slots != [] {
      var n := Take(slots, toks);
      AllocSingle(slots[1..], toks[n..]);
      var lists := Alloc(slots, toks).0;
      forall k | 0 <= k < |slots| && !slots[k].repeatable
        ensures |lists[k]| <= 1
      {
        if k > 0 {
          assert lists[k] == Alloc(slots[1..], toks[n..]).0[k - 1];
          assert slots[1..][k - 1] == slots[k];
        }
      }
    }
  }

  /** While there are no more tokens than required slots, optional slots
      get nothing, no slot gets more than one token and nothing is left
      over. */
  lemma {:induction false} AllocScarce(slots: seq<Args.Arg>, toks: seq<string>)
    requires |toks| <= CountRequired(slots)
    ensures forall k :: 0 <= k < |slots| && !slots[k].required ==> Alloc(slots, toks).0[k] == []
    ensures forall k :: 0 <= k < |slots| ==> |Alloc(slots, toks).0[k]| <= 1
    ensures Alloc(slots, toks).1 == []
    decreases |slots|
  {
    if slots != [] {
      var n := Take(slots, toks);
      AllocScarce(slots[1..], toks[n..]);
      var lists := Alloc(slots, toks).0;
      forall k | 0 <= k < |slots|
        ensures !slots[k].required ==> lists[k] == []
        ensures |lists[k]| <= 1
      {
        if k > 0 {
          assert lists[k] == Alloc(slots[1..], toks[n..]).0[k - 1];
          assert slots[1..][k - 1] == slots[k];
        }
      }
    }
  }

  predicate HasRepeatable(slots: seq<Args.Arg>)
  {
    exists k :: 0 <= k < |slots| && slots[k].repeatable
  }

  /** Tokens are left over only when there is no repeatable slot, and then
      exactly those beyond one per slot. */
  lemma {:induction false} AllocRemainder(slots: seq<Args.Arg>, toks: seq<string>)
    ensures HasRepeatable(slots) ==> Alloc(slots, toks).1 == []
    ensures !HasRepeatable(slots) ==>
      |Alloc(slots, toks).1| == if |toks| > |slots| then |toks| - |slots| else 0
    decreases |slots|
  {
    if slots != [] {
      var n := Take(slots, toks);
      var rest := slots[1..];
      if |toks| <= CountRequired(slots) {
        AllocScarce(slots, toks);
      } else {
        AllocRemainder(rest, toks[n..]);
        if slots[0].repeatable {
          AllocScarce(rest, toks[n..]);
        } else {
          assert HasRepeatable(slots) ==> HasRepeatable(rest) by {
            if HasRepeatable(slots) {
              var k :| 0 <= k < |slots| && slots[k].repeatable;
              assert rest[k - 1] == slots[k];
            }
          }
          assert HasRepeatable(rest) ==> HasRepeatable(slots) by {
            if HasRepeatable(rest) {
              var k :| 0 <= k < |rest| && rest[k].repeatable;
              assert slots[k + 1] == rest[k];
            }
          }
        }
      }
    }
  }

  // The six allocations of the source's own examples, over the tokens
  // "a" to "e": R is a required slot, O an optional one, * repeatable.

  function Slot(required: bool, repeatable: bool): Args.Arg
  {
    Args.Arg("p", required, repeatable, "")
  }

  /** `Alloc` deals `lists` and leaves `rem`. */
  predicate Deals(slots: seq<Args.Arg>, toks: seq<string>, lists: seq<seq<string>>, rem: seq<string>)
  {
    Alloc(slots, toks).0 == lists && Alloc(slots, toks).1 == rem
  }

  function R(): Args.Arg { Slot(true, false) }
  function O(): Args.Arg { Slot(false, false) }

  lemma DealsSmall(a: string, b: string)
    ensures Deals([O()], [], [[]], [])
    ensures Deals([R()], [b], [[b]], [])
    ensures Deals([O(), R()], [b], [[], [b]], [])
    ensures Deals([R(), O()], [b], [[b], []], [])
    ensures Deals([R(), R()], [a, b], [[a], [b]], [])
  {
    assert [O()][1..] == [] && [R()][1..] == [];
    assert [b][1..] == [] && [b][..1] == [b];
    assert CountRequired([R()]) == 1 && CountRequired([O()]) == 0;
    assert Deals([R()], [b], [[b]], []);
    assert [O(), R()][1..] == [R()] && [R(), O()][1..] == [O()] && [R(), R()][1..] == [R()];
    assert [a, b][1..] == [b] && [a, b][..1] == [a];
  }

  /** Two tokens and the required slots around or before an optional one. */
  lemma AllocExamplesScarce(a: string, b: string)
    ensures Deals([R(), O(), R()], [a, b], [[a], [], [b]], [])
    ensures Deals([O(), R(), R()], [a, b], [[], [a], [b]], [])
    ensures Deals([R(), R(), O()], [a, b], [[a], [b], []], [])
  {
    DealsSmall(a, b);
    assert [R(), O(), R()][1..] == [O(), R()] && [a, b][1..] == [b] && [a, b][..1] == [a];
    assert CountRequired([O(), R()]) == 1;
    assert [O(), R(), R()][1..] == [R(), R()];
    assert [R(), R(), O()][1..] == [R(), O()];
    assert CountRequired([R(), O()]) == 1;
  }

  /** A repeatable required slot before a required and an optional slot. */
  lemma AllocExampleRepeatFirst(a: string, b: string, c: string, d: string, e: string)
    ensures Deals([Slot(true, true), R(), O()], [a, b, c, d, e], [[a, b, c, d], [e], []], [])
  {
    DealsSmall(a, e);
    var t := [a, b, c, d, e];
    assert [Slot(true, true), R(), O()][1..] == [R(), O()] && t[..4] == [a, b, c, d] && t[4..] == [e];
    assert CountRequired([R(), O()]) == 1;
  }

  /** A repeatable required slot between a required and an optional slot. */
  lemma AllocExampleRepeatMiddle(a: string, b: string, c: string, d: string, e: string)
    ensures Deals([R(), Slot(true, true), O()], [a, b, c, d, e], [[a], [b, c, d, e], []], [])
  {
    DealsSmall(a, b);
    var t := [a, b, c, d, e];
    var u := [b, c, d, e];
    assert Deals([Slot(true, true), O()], u, [u, []], []) by {
      assert [Slot(true, true), O()][1..] == [O()] && u[..4] == u && u[4..] == [];
    }
    assert [R(), Slot(true, true), O()][1..] == [Slot(true, true), O()] && t[..1] == [a] && t[1..] == u;
  }

  /** A repeatable optional slot after two required slots. */
  lemma AllocExampleRepeatLast(a: string, b: string, c: string, d: string, e: string)
    ensures Deals([R(), R(), Slot(false, true)], [a, b, c, d, e], [[a], [b], [c, d, e]], [])
  {
    var t := [a, b, c, d, e];
    var v := [c, d, e];
    assert Deals([Slot(false, true)], v, [v], []) by {
      assert [Slot(false, true)][1..] == [] && v[..3] == v && v[3..] == [];
    }
    assert Deals([R(), Slot(false, true)], [b] + v, [[b], v], []) by {
      assert [R(), Slot(false, true)][1..] == [Slot(false, true)] && ([b] + v)[..1] == [b] && ([b] + v)[1..] == v;
    }
    assert [R(), R(), Slot(false, true)][1..] == [R(), Slot(false, true)] && t[..1] == [a] && t[1..] == [b] + v;
  }

  /** Two non-repeatable slots and more tokens: the extra tokens are left
      over, in order. */
  lemma AllocLeftover(a: string, b: string, c: string, d: string)
    ensures Deals([R(), O()], [a, b, c, d], [[a], [b]], [c, d])
  {
    var t := [a, b, c, d];
    assert Deals([O()], [b, c, d], [[b]], [c, d]) by {
      assert [O()][1..] == [] && [b, c, d][..1] == [b] && [b, c, d][1..] == [c, d];
    }
    assert [R(), O()][1..] == [O()] && t[..1] == [a] && t[1..] == [b, c, d];
  }

  /** The first of two repeatable optional slots takes everything. */
  lemma AllocGreedy(a: string, b: string, c: string)
    ensures Deals([Slot(false, true), Slot(false, true)], [a, b, c], [[a, b, c], []], [])
  {
    var X := Slot(false, true);
    var t := [a, b, c];
    assert Deals([X], [], [[]], []) by {
      assert [X][1..] == [];
    }
    assert Take([X, X], t) == 3 by {
      assert [X, X][1..] == [X] && CountRequired([X]) == 0;
    }
    assert t[..3] == t && t[3..] == [];
  }

  // ---------------------------------------------------------------------
  // The slot map.

  function Names(slots: seq<Args.Arg>): set<string>
  {
    set k | 0 <= k < |slots| :: slots[k].name
  }

  lemma {:induction false} InitKeys(slots: seq<Args.Arg>)
    ensures Init(slots).Keys == Names(slots)
    ensures forall x :: x in Init(slots) ==> Init(slots)[x] == []
    decreases |slots|
  {
    if slots != [] {
      var p := slots[..|slots| - 1];
      InitKeys(p);
      forall x | x in Names(slots)
        ensures x in Names(p) + {slots[|slots| - 1].name}
      {
        var k :| 0 <= k < |slots| && slots[k].name == x;
        if k < |p| {
          assert p[k] == slots[k];
        }
      }
      forall x | x in Names(p)
        ensures x in Names(slots)
      {
        var k :| 0 <= k < |p| && p[k].name == x;
        assert slots[k] == p[k];
      }
    }
  }

  lemma {:induction false} FillKeys(slots: seq<Args.Arg>, lists: seq<seq<string>>, n: nat)
    requires |lists| == |slots| && n <= |slots|
    ensures Fill(slots, lists, n).Keys == Names(slots)
    decreases n
  {
    if n == 0 {
      InitKeys(slots);
    } else {
      FillKeys(slots, lists, n - 1);
    }
  }

  /** An empty list adds nothing to the map. */
  lemma FillStable(slots: seq<Args.Arg>, lists: seq<seq<string>>, n: nat)
    requires |lists| == |slots| && 0 < n <= |slots| && lists[n - 1] == []
    ensures Fill(slots, lists, n) == Fill(slots, lists, n - 1)
  {
    var m := Fill(slots, lists, n - 1);
    var x := slots[n - 1].name;
    FillKeys(slots, lists, n - 1);
    assert Lookup(m, x) + [] == m[x];
    assert m[x := m[x]] == m;
  }

  lemma {:induction false} FillEmpty(slots: seq<Args.Arg>, lists: seq<seq<string>>, n: nat)
    requires |lists| == |slots| && n <= |slots|
    requires forall k :: 0 <= k < |slots| ==> |lists[k]| == 0
    ensures Fill(slots, lists, n) == Init(slots)
    decreases n
  {
    if n > 0 {
      FillEmpty(slots, lists, n - 1);
      FillEmptyStep(slots, lists, n);
    }
  }

  lemma FillEmptyStep(slots: seq<Args.Arg>, lists: seq<seq<string>>, n: nat)
    requires |lists| == |slots| && 0 < n <= |slots| && |lists[n - 1]| == 0
    requires Fill(slots, lists, n - 1) == Init(slots)
    ensures Fill(slots, lists, n) == Init(slots)
  {
    FillStable(slots, lists, n);
  }

  lemma {:induction false} FillAgree(slots: seq<Args.Arg>, a: seq<seq<string>>, b: seq<seq<string>>, n: nat)
    requires |a| == |slots| && |b| == |slots| && n <= |slots|
    requires forall k :: 0 <= k < n ==> a[k] == b[k]
    ensures Fill(slots, a, n) == Fill(slots, b, n)
    decreases n
  {
    if n > 0 {
      FillAgree(slots, a, b, n - 1);
    }
  }

  /** Appending a token to the last slot that has any tokens appends it to
      that slot's entry in the map. */
  lemma {:induction false} FillPush(slots: seq<Args.Arg>, lists: seq<seq<string>>, idx: nat, t: string, n: nat)
    requires |lists| == |slots| && idx < n <= |slots|
    requires forall k :: idx < k < |slots| ==> lists[k] == []
    ensures Fill(slots, Push(lists, idx, t), n) ==
      Fill(slots, lists, n)[slots[idx].name := Lookup(Fill(slots, lists, n), slots[idx].name) + [t]]
    decreases n
  {
    if n == idx + 1 {
      FillPushHere(slots, lists, idx, t);
    } else {
      FillPush(slots, lists, idx, t, n - 1);
      FillPushLater(slots, lists, idx, t, n);
    }
  }

  lemma FillPushLater(slots: seq<Args.Arg>, lists: seq<seq<string>>, idx: nat, t: string, n: nat)
    requires |lists| == |slots| && idx + 1 < n <= |slots|
    requires forall k :: idx < k < |slots| ==> lists[k] == []
    requires Fill(slots, Push(lists, idx, t), n - 1) ==
      Fill(slots, lists, n - 1)[slots[idx].name := Lookup(Fill(slots, lists, n - 1), slots[idx].name) + [t]]
    ensures Fill(slots, Push(lists, idx, t), n) ==
      Fill(slots, lists, n)[slots[idx].name := Lookup(Fill(slots, lists, n), slots[idx].name) + [t]]
  {
    FillStable(slots, lists, n);
    FillStable(slots, Push(lists, idx, t), n);
  }

  lemma FillPushHere(slots: seq<Args.Arg>, lists: seq<seq<string>>, idx: nat, t: string)
    requires |lists| == |slots| && idx < |slots|
    ensures Fill(slots, Push(lists, idx, t), idx + 1) ==
      Fill(slots, lists, idx + 1)[slots[idx].name := Lookup(Fill(slots, lists, idx + 1), slots[idx].name) + [t]]
  {
    var lists' := Push(lists, idx, t);
    var x := slots[idx].name;
    FillAgree(slots, lists', lists, idx);
    var g := Fill(slots, lists, idx);
    var h := Fill(slots, lists, idx + 1);
    assert h == g[x := Lookup(g, x) + lists[idx]];
    assert Lookup(h, x) == Lookup(g, x) + lists[idx];
    assert Lookup(g, x) + lists'[idx] == Lookup(h, x) + [t];
  }

  lemma ToMapPush(slots: seq<Args.Arg>, lists: seq<seq<string>>, idx: nat, t: string)
    requires |lists| == |slots| && idx < |slots|
    requires forall k :: idx < k < |slots| ==> lists[k] == []
    ensures ToMap(slots, Push(lists, idx, t)) ==
      ToMap(slots, lists)[slots[idx].name := Lookup(ToMap(slots, lists), slots[idx].name) + [t]]
  {
    FillPush(slots, lists, idx, t, |slots|);
  }

  lemma {:induction false} FillDistinct(slots: seq<Args.Arg>, lists: seq<seq<string>>, n: nat, k: nat)
    requires |lists| == |slots| && n <= |slots| && k < |slots|
    requires forall i, j :: 0 <= i < j < |slots| ==> slots[i].name != slots[j].name
    ensures Lookup(Fill(slots, lists, n), slots[k].name) == if k < n then lists[k] else []
    decreases n
  {
    if n == 0 {
      InitKeys(slots);
    } else {
      FillDistinct(slots, lists, n - 1, k);
      if k != n - 1 {
        assert slots[k].name != slots[n - 1].name;
      } else {
        FillDistinct(slots, lists, n - 1, n - 1);
      }
    }
  }

  /** Every slot name is a key; when the names are distinct each maps to
      exactly the tokens of its slot. */
  lemma ToMapSlots(slots: seq<Args.Arg>, lists: seq<seq<string>>)
    requires |lists| == |slots|
    ensures ToMap(slots, lists).Keys == Names(slots)
    ensures (forall i, j :: 0 <= i < j < |slots| ==> slots[i].name != slots[j].name) ==>
      forall k :: 0 <= k < |slots| ==> ToMap(slots, lists)[slots[k].name] == lists[k]
  {
    FillKeys(slots, lists, |slots|);
    if forall i, j :: 0 <= i < j < |slots| ==> slots[i].name != slots[j].name {
      forall k | 0 <= k < |slots|
        ensures ToMap(slots, lists)[slots[k].name] == lists[k]
      {
        FillDistinct(slots, lists, |slots|, k);
      }
    }
  }

  lemma {:induction false} CountRequiredAppend(s: seq<Args.Arg>, a: Args.Arg)
    ensures CountRequired(s + [a]) == CountRequired(s) + (if a.required then 1 else 0)
    decreases |s|
  {
    if s == [] {
      assert [] + [a] == [a];
      assert [a][1..] == [];
    } else {
      assert (s + [a])[1..] == s[1..] + [a];
      CountRequiredAppend(s[1..], a);
    }
  }

  lemma {:induction false} CountRequiredZero(s: seq<Args.Arg>)
    ensures CountRequired(s) == 0 <==> forall k :: 0 <= k < |s| ==> !s[k].required
    decreases |s|
  {
    if s != [] {
      CountRequiredZero(s[1..]);
      if CountRequired(s) == 0 {
        forall k | 0 <= k < |s|
          ensures !s[k].required
        {
          if k > 0 {
            assert s[1..][k - 1] == s[k];
          }
        }
      }
      if forall k :: 0 <= k < |s| ==> !s[k].required {
        assert !s[0].required;
        assert forall k :: 0 <= k < |s| - 1 ==> s[1..][k] == s[k + 1];
      }
    }
  }

  // ---------------------------------------------------------------------
  // Construction and the usage line.

  /** Each field's declaration, in field order. */
  function Declared(fields: seq<Field>): (r: seq<Result<FlagSchema>>)
    requires forall k :: 0 <= k < |fields| ==> fields[k].name != []
    ensures |r| == |fields|
    ensures forall k :: 0 <= k < |fields| ==> r[k] == Declare(fields[k])
  {
    seq(|fields|, k requires 0 <= k < |fields| => Declare(fields[k]))
  }

  /** The values of a sequence of results, or the first error among them. */
  function Collect<T>(rs: seq<Result<T>>): (r: Result<seq<T>>)
    ensures r.Success? ==> |r.value| == |rs|
    decreases |rs|
  {
    if rs == [] then Success([])
    else
      match Collect(rs[..|rs| - 1])
      case Failure(e) => Failure(e)
      case Success(vs) =>
        match rs[|rs| - 1]
        case Failure(e) => Failure(e)
        case Success(v) => Success(vs + [v])
  }

  /** The flags declared from the fields, in field order, or the first
      declaration error. */
  function DeclareAll(fields: seq<Field>): (r: Result<seq<FlagSchema>>)
    requires forall k :: 0 <= k < |fields| ==> fields[k].name != []
    ensures r.Success? ==> |r.value| == |fields|
  {
    Collect(Declared(fields))
  }

  /** Collecting succeeds exactly when every result does. */
  lemma {:induction false} CollectSucceeds<T>(rs: seq<Result<T>>)
    ensures Collect(rs).Success? <==> forall k :: 0 <= k < |rs| ==> rs[k].Success?
    decreases |rs|
  {
    if rs != [] {
      var init := rs[..|rs| - 1];
      CollectSucceeds(init);
      assert forall k :: 0 <= k < |init| ==> init[k] == rs[k];
    }
  }

  /** Collecting keeps every value, in order. */
  lemma {:induction false} CollectValues<T>(rs: seq<Result<T>>)
    requires Collect(rs).Success?
    ensures forall k :: 0 <= k < |rs| ==> rs[k].Success? && Collect(rs).value[k] == rs[k].value
    decreases |rs|
  {
    if rs != [] {
      var init := rs[..|rs| - 1];
      CollectValues(init);
      assert forall k :: 0 <= k < |init| ==> init[k] == rs[k];
    }
  }

  /** Collecting fails only with an error one of the results has. */
  lemma {:induction false} CollectError<T>(rs: seq<Result<T>>, es: set<Error>)
    requires forall k :: 0 <= k < |rs| && rs[k].Failure? ==> rs[k].error in es
    ensures Collect(rs).Failure? ==> Collect(rs).error in es
    decreases |rs|
  {
    if rs != [] {
      var init := rs[..|rs| - 1];
      assert forall k :: 0 <= k < |init| ==> init[k] == rs[k];
      CollectError(init, es);
    }
  }

  /** The first failing result decides: results after it are not looked at. */
  lemma {:induction false} CollectFirst<T>(rs: seq<Result<T>>, n: nat)
    requires n < |rs| && rs[n].Failure?
    requires forall k :: 0 <= k < n ==> rs[k].Success?
    ensures Collect(rs) == Failure(rs[n].error)
    decreases |rs|
  {
    var init := rs[..|rs| - 1];
    assert forall k :: 0 <= k < |init| ==> init[k] == rs[k];
    if n < |rs| - 1 {
      CollectFirst(init, n);
    } else {
      CollectSucceeds(init);
    }
  }

  /** Collecting results that all succeed gives their values. */
  lemma CollectEach<T>(rs: seq<Result<T>>, vs: seq<T>)
    requires |vs| == |rs| && forall k :: 0 <= k < |rs| ==> rs[k] == Success(vs[k])
    ensures Collect(rs) == Success(vs)
  {
    CollectSucceeds(rs);
    CollectValues(rs);
    assert Collect(rs).value == vs;
  }

  /** Declaring all fields succeeds exactly when each field can be declared,
      and then gives each field's flag in order. */
  lemma DeclareAllIff(fields: seq<Field>)
    requires forall k :: 0 <= k < |fields| ==> fields[k].name != []
    ensures DeclareAll(fields).Success? <==> forall k :: 0 <= k < |fields| ==> Declare(fields[k]).Success?
    ensures DeclareAll(fields).Success? ==> (|DeclareAll(fields).value| == |fields| &&
      forall k :: 0 <= k < |fields| ==> DeclareAll(fields).value[k] == Declare(fields[k]).value)
  {
    CollectSucceeds(Declared(fields));
    if DeclareAll(fields).Success? {
      CollectValues(Declared(fields));
    }
  }

  /** The only way declaring all fields fails is an unsupported field type. */
  lemma DeclareAllFailure(fields: seq<Field>)
    requires forall k :: 0 <= k < |fields| ==> fields[k].name != []
    ensures DeclareAll(fields).Failure? ==> DeclareAll(fields).error == UnsupportedType
  {
    forall k | 0 <= k < |fields|
      ensures Declare(fields[k]).Failure? ==> Declare(fields[k]).error == UnsupportedType
    {
      DeclareFailsIff(fields[k]);
    }
    CollectError(Declared(fields), {UnsupportedType});
  }

  /** Declaring every field one by one is declaring them all. */
  lemma DeclareAllEach(fields: seq<Field>, schemas: seq<FlagSchema>)
    requires forall k :: 0 <= k < |fields| ==> fields[k].name != []
    requires |schemas| == |fields| && forall i :: 0 <= i < |fields| ==> Declare(fields[i]) == Success(schemas[i])
    ensures DeclareAll(fields) == Success(schemas)
  {
    CollectEach(Declared(fields), schemas);
  }

  /** The first field that cannot be declared gives the error of the whole. */
  lemma DeclareAllFirst(fields: seq<Field>, k: nat, schemas: seq<FlagSchema>)
    requires forall k :: 0 <= k < |fields| ==> fields[k].name != []
    requires k < |fields| && |schemas| == k
    requires forall i :: 0 <= i < k ==> Declare(fields[i]) == Success(schemas[i])
    requires Declare(fields[k]).Failure?
    ensures DeclareAll(fields) == Failure(Declare(fields[k]).error)
  {
    CollectFirst(Declared(fields), k);
  }

  // ---------------------------------------------------------------------
  // The duplicate-name check of `New`. As written it looks each name up in
  // a set that nothing ever adds to, so `DeclareAll` above is what the
  // source computes and what `New` builds; `DeclareUnique` adds each
  // declared name to the set, as the check evidently intends.

  /** Whether a field before `k` declares a flag whose dashed name is `n`. */
  predicate TakenBefore(fields: seq<Field>, k: nat, n: string)
    requires k <= |fields| && forall i :: 0 <= i < |fields| ==> fields[i].name != []
  {
    exists j :: 0 <= j < k && Declare(fields[j]).Success? && Name(Declare(fields[j]).value) == n
  }

  /** Field `k`'s declaration, refused when an earlier field took its name. */
  function CheckedAt(fields: seq<Field>, k: nat): Result<FlagSchema>
    requires k < |fields| && forall i :: 0 <= i < |fields| ==> fields[i].name != []
  {
    match Declare(fields[k])
    case Failure(e) => Failure(e)
    case Success(v) => if TakenBefore(fields, k, Name(v)) then Failure(DuplicateName) else Success(v)
  }

  function Checked(fields: seq<Field>): (r: seq<Result<FlagSchema>>)
    requires forall k :: 0 <= k < |fields| ==> fields[k].name != []
    ensures |r| == |fields|
    ensures forall k :: 0 <= k < |fields| ==> r[k] == CheckedAt(fields, k)
  {
    seq(|fields|, k requires 0 <= k < |fields| => CheckedAt(fields, k))
  }

  /** No two flags share a dashed name. */
  predicate DistinctNames(F: seq<FlagSchema>) {
    forall i, j :: 0 <= i < j < |F| ==> Name(F[i]) != Name(F[j])
  }

  /** `New`'s flag loop with the duplicate-name check working: one flag per
      field, in order, or the first error, a declaration error or a name
      taken by an earlier field. */
  function DeclareUnique(fields: seq<Field>): (r: Result<seq<FlagSchema>>)
    requires forall k :: 0 <= k < |fields| ==> fields[k].name != []
    ensures r.Success? ==> |r.value| == |fields|
  {
    Collect(Checked(fields))
  }

  /** The checked loop succeeds exactly when every field declares and no
      two declared flags share a name; it then gives what `DeclareAll`
      gives. */
  lemma DeclareUniqueIff(fields: seq<Field>)
    requires forall k :: 0 <= k < |fields| ==> fields[k].name != []
    ensures DeclareUnique(fields).Success? <==> DeclareAll(fields).Success? && DistinctNames(DeclareAll(fields).value)
    ensures DeclareUnique(fields).Success? ==> DeclareUnique(fields) == DeclareAll(fields)
  {
    var C := Checked(fields);
    CollectSucceeds(C);
    DeclareAllIff(fields);
    if DeclareUnique(fields).Success? {
      CollectValues(C);
      var F := DeclareUnique(fields).value;
      forall k | 0 <= k < |fields|
        ensures Declare(fields[k]) == Success(F[k])
      {
        assert C[k] == CheckedAt(fields, k);
      }
      DeclareAllEach(fields, F);
      forall i, j | 0 <= i < j < |F|
        ensures Name(F[i]) != Name(F[j])
      {
        assert C[j] == CheckedAt(fields, j);
        assert !TakenBefore(fields, j, Name(F[j]));
      }
    }
  }

  /** The checked loop fails with a declaration error or a duplicate name. */
  lemma DeclareUniqueFailure(fields: seq<Field>)
    requires forall k :: 0 <= k < |fields| ==> fields[k].name != []
    ensures DeclareUnique(fields).Failure? ==>
      DeclareUnique(fields).error == UnsupportedType || DeclareUnique(fields).error == DuplicateName
  {
    var C := Checked(fields);
    forall k | 0 <= k < |fields|
      ensures C[k].Failure? ==> C[k].error in {UnsupportedType, DuplicateName}
    {
      DeclareFailsIff(fields[k]);
    }
    CollectError(C, {UnsupportedType, DuplicateName});
  }

  /** Fields declared one by one under distinct names pass the check. */
  lemma DeclareUniqueEach(fields: seq<Field>, schemas: seq<FlagSchema>)
    requires forall k :: 0 <= k < |fields| ==> fields[k].name != []
    requires |schemas| == |fields| && forall i :: 0 <= i < |fields| ==> Declare(fields[i]) == Success(schemas[i])
    requires DistinctNames(schemas)
    ensures DeclareUnique(fields) == Success(schemas)
  {
    DeclareAllEach(fields, schemas);
    DeclareUniqueIff(fields);
  }

  /** The first field that fails the check gives the error of the whole. */
  lemma DeclareUniqueFirst(fields: seq<Field>, k: nat, schemas: seq<FlagSchema>)
    requires forall k :: 0 <= k < |fields| ==> fields[k].name != []
    requires k < |fields| && |schemas| == k && DistinctNames(schemas)
    requires forall i :: 0 <= i < k ==> Declare(fields[i]) == Success(schemas[i])
    requires CheckedAt(fields, k).Failure?
    ensures DeclareUnique(fields) == Failure(CheckedAt(fields, k).error)
  {
    var C := Checked(fields);
    forall i | 0 <= i < k
      ensures C[i].Success?
    {
      assert C[i] == CheckedAt(fields, i);
    }
    CollectFirst(C, k);
  }

  /** As written, fields that all declare are accepted even when two of
      them declare the same dashed name; the working check refuses them
      with the duplicate-name error. */
  lemma DuplicateNamesAccepted(fields: seq<Field>, i: nat, j: nat)
    requires forall k :: 0 <= k < |fields| ==> fields[k].name != []
    requires forall k :: 0 <= k < |fields| ==> Declare(fields[k]).Success?
    requires i < j < |fields| && Name(Declare(fields[i]).value) == Name(Declare(fields[j]).value)
    ensures DeclareAll(fields).Success? && |DeclareAll(fields).value| == |fields|
    ensures DeclareUnique(fields) == Failure(DuplicateName)
  {
    DeclareAllIff(fields);
    DeclareUniqueIff(fields);
    var C := Checked(fields);
    forall k | 0 <= k < |fields|
      ensures C[k].Failure? ==> C[k].error in {DuplicateName}
    {
      assert C[k] == CheckedAt(fields, k);
    }
    CollectError(C, {DuplicateName});
  }


  function FlagUsages(F: seq<FlagSchema>): (r: seq<string>)
    ensures |r| == |F|
  {
    seq(|F|, k requires 0 <= k < |F| => Usage(F[k]))
  }

  function SlotUsages(slots: seq<Args.Arg>): (r: seq<string>)
    ensures |r| == |slots|
  {
    seq(|slots|, k requires 0 <= k < |slots| => Args.Usage(slots[k]))
  }

  /** `strings.Join(items, " ")`. */
  function Spaced(items: seq<string>): (r: string)
    ensures items == [] ==> r == ""
    ensures items != [] ==> items[0] <= r
  {
    if items == [] then "" else Join(items, ' ')
  }

  /** The parser's usage line: every flag's usage, then every slot's. */
  function Synopsis(F: seq<FlagSchema>, slots: seq<Args.Arg>): (r: string)
  {
    Spaced(FlagUsages(F) + SlotUsages(slots))
  }

  /** When no usage contains a space, splitting the usage line at spaces
      gives back each flag's usage and then each slot's. */
  lemma SynopsisSplits(F: seq<FlagSchema>, slots: seq<Args.Arg>)
    requires |F| + |slots| > 0
    requires forall k :: 0 <= k < |F| ==> ' ' !in Usage(F[k])
    requires forall k :: 0 <= k < |slots| ==> ' ' !in Args.Usage(slots[k])
    ensures Split(Synopsis(F, slots), ' ') == FlagUsages(F) + SlotUsages(slots)
  {
    var items := FlagUsages(F) + SlotUsages(slots);
    forall k | 0 <= k < |items|
      ensures ' ' !in items[k]
    {
      if k >= |F| {
        assert items[k] == Args.Usage(slots[k - |F|]);
      }
    }
    JoinSplit(items, ' ');
  }

  // ---------------------------------------------------------------------
  // The parser.

  class Parser {
    const flags: seq<FlagBinding>
    const slots: seq<Args.Arg>
    ghost const Repr: set<object>

    ghost predicate Valid()
      reads this, Repr
    {
      && Repr == (set k | 0 <= k < |flags| :: flags[k] as object)
      && (forall i, j :: 0 <= i < j < |flags| ==> flags[i] != flags[j])
      && (forall k :: 0 <= k < |flags| ==> flags[k].Valid())
    }

    /** The values stored into each flag so far. */
    ghost function Histories(): (H: seq<seq<Value>>)
      requires Valid()
      reads this, Repr
      ensures |H| == |flags|
      ensures forall k :: 0 <= k < |flags| ==> H[k] == flags[k].history
    {
      seq(|flags|, k requires 0 <= k < |flags| reads Repr => flags[k].history)
    }

    /** The declared flags. */
    function Schemas(): (F: seq<FlagSchema>)
      ensures |F| == |flags|
      ensures forall k :: 0 <= k < |flags| ==> F[k] == flags[k].schema
    {
      seq(|flags|, k requires 0 <= k < |flags| => flags[k].schema)
    }

    constructor (flags: seq<FlagBinding>, slots: seq<Args.Arg>)
      requires forall i, j :: 0 <= i < j < |flags| ==> flags[i] != flags[j]
      requires forall k :: 0 <= k < |flags| ==> flags[k].Valid()
      ensures Valid()
      ensures this.flags == flags && this.slots == slots
    {
      this.flags := flags;
      this.slots := slots;
      Repr := set k | 0 <= k < |flags| :: flags[k] as object;
    }

    /** `String`: the usage line. */
    method String() returns (s: string)
      ensures s == Synopsis(Schemas(), slots)
    {
      var items: seq<string> := [];
      for k := 0 to |flags|
        invariant items == FlagUsages(Schemas())[..k]
      {
        items := items + [Usage(flags[k].schema)];
      }
      assert items == FlagUsages(Schemas()) + SlotUsages(slots)[..0];
      for k := 0 to |slots|
        invariant items == FlagUsages(Schemas()) + SlotUsages(slots)[..k]
      {
        items := items + [Args.Usage(slots[k])];
      }
      assert SlotUsages(slots)[..|slots|] == SlotUsages(slots);
      s := Spaced(items);
    }

    /** `Parse`: the flag pass, then the allocation pass. Each flag's field
        receives the stores of the flag pass, even when the parse then fails. */
    method Parse(args: seq<string>) returns (r: Result<Parsed>)
      requires Valid()
      modifies Repr
      ensures Valid()
      ensures r == ParseOutcome(Schemas(), slots, args)
      ensures Histories() == Extend(old(Histories()), ScanSpec(Schemas(), args).events)
    {
      ghost var F := Schemas();
      ghost var H := Histories();
      ExtendNone(H);
      var argv: seq<string> := [];
      ghost var events: seq<Event> := [];
      var i := 0;
      GlueStart(F, args);
      while i < |args|
        invariant 0 <= i <= |args|
        invariant Valid()
        invariant ScanSpec(F, args) == Glue(events, argv, ScanSpec(F, args[i..]))
        invariant Histories() == Extend(H, events)
        decreases |args| - i
      {
        var stop, err, kept, next, evs := Step(args, i);
        if err.Some? {
          GlueStop(events, argv, ScanSpec(F, args[i..]));
          assert events + evs == events;
          ExtendTwice(H, events, evs);
          return Failure(err.value);
        }
        GlueGlue(events, argv, evs, kept, ScanSpec(F, args[next..]));
        ExtendTwice(H, events, evs);
        events, argv := events + evs, argv + kept;
        if stop {
          break;
        }
        i := next;
      }
      GlueEnd(F, args, events, argv);
      r := Allocate(slots, argv);
    }

    /** One round of the flag pass at token `args[i]`: `--` ends the pass
        keeping everything after it (`stop`); a token that names no flag is
        kept; a token that names a flag goes to `Give`. The pass then goes
        on at `next`, after storing `evs` and keeping `kept`. */
    method Step(args: seq<string>, i: nat) returns (stop: bool, err: Option<Error>, kept: seq<string>, next: nat, ghost evs: seq<Event>)
      requires Valid() && i < |args|
      modifies Repr
      ensures Valid()
      ensures err.Some? ==> ScanSpec(Schemas(), args[i..]) == Scan([], Failure(err.value)) && evs == []
      ensures err.None? ==> i < next <= |args| && (stop ==> next == |args|)
      ensures err.None? ==>
        ScanSpec(Schemas(), args[i..]) == Glue(evs, kept, ScanSpec(Schemas(), args[next..]))
      ensures Histories() == Extend(old(Histories()), evs)
    {
      ghost var F := Schemas();
      var token := args[i];
      ghost var tail := args[i..];
      assert tail[0] == token && tail[1..] == args[i + 1..];
      ExtendNone(Histories());
      if token == "--" {
        assert ScanSpec(F, tail) == Scan([], Success(args[i + 1..]));
        assert args[|args|..] == [] && args[i + 1..] + [] == args[i + 1..];
        return true, None, args[i + 1..], |args|, [];
      }
      var c := Cut(token, '=');
      var given := SeemsFlag(c.before);
      var j := |flags|;
      if given.Some? {
        j := Find(given.value);
      }
      if j == |flags| {
        assert ScanSpec(F, tail) == Keep(token, ScanSpec(F, args[i + 1..]));
        return false, None, [token], i + 1, [];
      }
      assert MatchToken(F, c.before) == Some(j);
      assert ScanSpec(F, tail) == ScanFlag(F, tail, c, j);
      var e, n, es := Flagged(args, i, c, j);
      if e.Some? {
        return false, Some(AtToken(e.value, c.before)), [], i, [];
      }
      return false, None, [], n, es;
    }

    /** A token that names flag `j`, as `Give` handles it, with the effect
        on every flag's history. */
    method Flagged(args: seq<string>, i: nat, c: CutResult, j: nat) returns (err: Option<Error>, next: nat, ghost evs: seq<Event>)
      requires Valid() && i < |args| && j < |flags|
      modifies Repr
      ensures Valid()
      ensures err.Some? ==> ScanFlag(Schemas(), args[i..], c, j) == Halt(err.value, c.before) && evs == []
      ensures err.None? ==> i < next <= |args|
      ensures err.None? ==>
        ScanFlag(Schemas(), args[i..], c, j) == Glue(evs, [], ScanSpec(Schemas(), args[next..]))
      ensures Histories() == Extend(old(Histories()), evs)
    {
      ghost var F := Schemas();
      err, next, evs := Give(args, i, c, j);
      forall k | 0 <= k < |flags|
        ensures Histories()[k] == Extend(old(Histories()), evs)[k]
      {
        if k != j {
          ProjectOther(evs, j, k);
        }
      }
      if err.None? {
        var sc := ScanSpec(F, args[next..]);
        if sc.outcome.Success? {
          assert [] + sc.outcome.value == sc.outcome.value;
        }
      }
    }

    /** The first flag, in declaration order, that answers to `name`;
        `|flags|` when none does. */
    method Find(name: string) returns (j: nat)
      requires Valid()
      ensures j <= |flags|
      ensures FirstMatch(Schemas(), name) == if j < |flags| then Some(j) else None
    {
      ghost var F := Schemas();
      j := 0;
      while j < |flags| && !Match(flags[j].schema, name)
        invariant 0 <= j <= |flags|
        invariant FirstMatch(F, name) == FirstMatchFrom(F, name, j)
      {
        j := j + 1;
      }
    }

    /** One flag-shaped token `args[i]` (cut at `=` into `c`) that names
        flag `j`: give the flag its value, or run its `Found` action, and
        say where the pass goes on. Only that flag changes. */
    method Give(args: seq<string>, i: nat, c: CutResult, j: nat) returns (err: Option<Error>, next: nat, ghost evs: seq<Event>)
      requires Valid() && i < |args| && j < |flags|
      modifies flags[j]
      ensures Valid()
      ensures err.Some? ==> ScanFlag(Schemas(), args[i..], c, j) == Halt(err.value, c.before)
      ensures err.Some? ==> evs == [] && flags[j].history == old(flags[j].history)
      ensures err.None? ==> i < next <= |args|
      ensures err.None? ==>
        ScanFlag(Schemas(), args[i..], c, j) == Prepend(evs, ScanSpec(Schemas(), args[next..]))
      ensures flags[j].history == old(flags[j].history) + Project(evs, j)
      ensures forall e :: e in evs ==> e.flag == j
    {
      ghost var tail := args[i..];
      assert tail[1..] == args[i + 1..];
      if c.found {
        err, evs := SetValue(j, c.after);
        if err.Some? {
          return err, i, [];
        }
        return None, i + 1, evs;
      } else if |args| <= i + 1 {
        err, evs := MarkFound(j);
        assert args[|args|..] == [];
        return err, |args|, evs;
      }
      err, next, evs := GiveNext(args, i, c, j);
    }

    /** A flag token without `=` followed by another token: that token is
        the value, unless the flag refuses it asking for it to be pushed
        back, in which case the flag's `Found` action runs instead. */
    method GiveNext(args: seq<string>, i: nat, c: CutResult, j: nat) returns (err: Option<Error>, next: nat, ghost evs: seq<Event>)
      requires Valid() && i + 1 < |args| && j < |flags| && !c.found
      modifies flags[j]
      ensures Valid()
      ensures err.Some? ==> ScanFlag(Schemas(), args[i..], c, j) == Halt(err.value, c.before)
      ensures err.Some? ==> evs == [] && flags[j].history == old(flags[j].history)
      ensures err.None? ==> i < next <= |args|
      ensures err.None? ==>
        ScanFlag(Schemas(), args[i..], c, j) == Prepend(evs, ScanSpec(Schemas(), args[next..]))
      ensures flags[j].history == old(flags[j].history) + Project(evs, j)
      ensures forall e :: e in evs ==> e.flag == j
    {
      ghost var tail := args[i..];
      assert tail[1] == args[i + 1] && tail[1..] == args[i + 1..] && tail[2..] == args[i + 2..];
      err, evs := SetValue(j, args[i + 1]);
      if err.None? {
        return None, i + 2, evs;
      } else if !Is(err.value, ErrPushBack) {
        return err, i, [];
      }
      var err2;
      err2, evs := MarkFound(j);
      if err2.Some? {
        return err, i, [];
      }
      return None, i + 1, evs;
    }

    /** `Set` on flag `j`: the translator's verdict on `val`, and the value
        recorded unless the flag is a custom setter. */
    method SetValue(j: nat, val: string) returns (err: Option<Error>, ghost evs: seq<Event>)
      requires Valid() && j < |flags|
      modifies flags[j]
      ensures Valid()
      ensures err == ErrorOf(Translate(flags[j].schema.kind, val))
      ensures evs == if err.None? then Stored(j, flags[j].schema, Translate(flags[j].schema.kind, val).value) else []
      ensures flags[j].history == old(flags[j].history) + Project(evs, j)
      ensures forall e :: e in evs ==> e.flag == j
    {
      var f := flags[j];
      err := f.Set(val);
      evs := if err.None? then Stored(j, f.schema, Translate(f.schema.kind, val).value) else [];
      assert Project(evs, j) == if evs == [] then [] else [evs[0].value];
      assert f.history == old(f.history) + Project(evs, j);
    }

    /** `Found` on flag `j`: the flag's verdict, and the value it records. */
    method MarkFound(j: nat) returns (err: Option<Error>, ghost evs: seq<Event>)
      requires Valid() && j < |flags|
      modifies flags[j]
      ensures Valid()
      ensures err == ErrorOf(FoundAction(flags[j].schema))
      ensures evs == if err.None? then [Event(j, FoundAction(flags[j].schema).value)] else []
      ensures flags[j].history == old(flags[j].history) + Project(evs, j)
      ensures forall e :: e in evs ==> e.flag == j
    {
      var f := flags[j];
      err := f.Found();
      evs := if err.None? then [Event(j, FoundAction(f.schema).value)] else [];
      assert Project(evs, j) == if evs == [] then [] else [evs[0].value];
      assert f.history == old(f.history) + Project(evs, j);
    }
  }

  /** A parser just made from `fields` and `defs`: one flag per field,
      declared as `DeclareAll` says, each at its default with nothing
      stored, and the frozen slots. */
  ghost predicate Built(p: Parser, fields: seq<Field>, defs: seq<Args.ArgDef>)
    requires forall k :: 0 <= k < |fields| ==> fields[k].name != []
    reads p, p.Repr
  {
    && p.Valid()
    && DeclareAll(fields).Success?
    && p.Schemas() == DeclareAll(fields).value
    && p.slots == Args.FreezeAll(defs)
    && |p.flags| == |fields|
    && forall k :: 0 <= k < |fields| ==> p.flags[k].history == [] && p.flags[k].initial == fields[k].default
  }

  /** `New`: freeze the slots, then declare one flag per field, in order,
      stopping at the first field that cannot be declared. The names set of
      the duplicate check is never added to, so the check never refuses. */
  method New(fields: seq<Field>, defs: seq<Args.ArgDef>) returns (r: Result<Parser>)
    requires forall k :: 0 <= k < |fields| ==> fields[k].name != []
    ensures r.Failure? <==> DeclareAll(fields).Failure?
    ensures r.Failure? ==> r.error == DeclareAll(fields).error
    ensures r.Success? ==> fresh(r.value.Repr) && Built(r.value, fields, defs)
  {
    var slots := Args.FreezeAll(defs);
    var b, schemas := Bindings(fields);
    if b.Failure? {
      DeclareAllFirst(fields, |schemas|, schemas);
      return Failure(b.error);
    }
    DeclareAllEach(fields, schemas);
    var p := new Parser(b.value, slots);
    assert p.Schemas() == schemas;
    return Success(p);
  }

  /** One turn of the flag loop of `New`: declare the field, refuse a name
      already in `names`, and bind a fresh flag at the field's default. */
  method Bind(field: Field, names: set<string>) returns (r: Result<FlagBinding>)
    requires field.name != []
    ensures r.Failure? ==>
      (Declare(field) == Failure(r.error) ||
       (Declare(field).Success? && Name(Declare(field).value) in names && r.error == DuplicateName))
    ensures r.Success? ==> Declare(field) == Success(r.value.schema) && Name(r.value.schema) !in names
    ensures r.Success? ==> fresh(r.value) && r.value.Unused(r.value.schema, field.default)
  {
    var d := Declare(field);
    if d.Failure? {
      return Failure(d.error);
    }
    if Name(d.value) in names {
      return Failure(DuplicateName);
    }
    var b := new FlagBinding(d.value, field.default);
    return Success(b);
  }

  /** The flag loop of `New`: bind each field in turn and stop at the
      first refusal. The set of names seen is created once and never added
      to, so only a field that cannot be declared is refused. The flags
      bound are the fields' declarations, each fresh and at its field's
      default. */
  method Bindings(fields: seq<Field>) returns (r: Result<seq<FlagBinding>>, ghost schemas: seq<FlagSchema>)
    requires forall k :: 0 <= k < |fields| ==> fields[k].name != []
    ensures |schemas| <= |fields|
    ensures forall i :: 0 <= i < |schemas| ==> Declare(fields[i]) == Success(schemas[i])
    ensures r.Failure? ==> |schemas| < |fields| && Declare(fields[|schemas|]) == Failure(r.error)
    ensures r.Success? ==> |schemas| == |fields| && |r.value| == |fields|
    ensures r.Success? ==> forall i :: 0 <= i < |fields| ==>
      fresh(r.value[i]) && r.value[i].Unused(schemas[i], fields[i].default)
    ensures r.Success? ==> forall i, j :: 0 <= i < j < |fields| ==> r.value[i] != r.value[j]
  {
    var names: set<string> := {};
    var bindings: seq<FlagBinding> := [];
    schemas := [];
    for k := 0 to |fields|
      invariant |bindings| == k && |schemas| == k
      invariant forall i :: 0 <= i < k ==>
        Declare(fields[i]) == Success(schemas[i]) && fresh(bindings[i]) && bindings[i].Unused(schemas[i], fields[i].default)
      invariant forall i, j :: 0 <= i < j < k ==> bindings[i] != bindings[j]
      invariant names == {}
    {
      var b := Bind(fields[k], names);
      if b.Failure? {
        return Failure(b.error), schemas;
      }
      bindings := bindings + [b.value];
      schemas := schemas + [b.value.schema];
    }
    return Success(bindings), schemas;
  }

  /** The allocation of `kept` is the tokens dealt to the first `idx` slots
      followed by the allocation of `toks` to the other slots. */
  ghost predicate AllocFrom(slots: seq<Args.Arg>, kept: seq<string>, lists: seq<seq<string>>, idx: nat, toks: seq<string>)
    requires idx <= |slots| && |lists| == |slots|
  {
    && Alloc(slots, kept).0 == lists[..idx] + Alloc(slots[idx..], toks).0
    && Alloc(slots, kept).1 == Alloc(slots[idx..], toks).1
  }

  /** Dealing slot `idx` its share moves the split point one slot on. */
  lemma AllocAdvance(slots: seq<Args.Arg>, kept: seq<string>, lists: seq<seq<string>>,
                     lists': seq<seq<string>>, idx: nat, toks: seq<string>)
    requires idx < |slots| && |lists| == |slots| && |lists'| == |slots|
    requires AllocFrom(slots, kept, lists, idx, toks)
    requires lists'[..idx] == lists[..idx]
    requires lists'[idx] == toks[..Take(slots[idx..], toks)]
    ensures AllocFrom(slots, kept, lists', idx + 1, toks[Take(slots[idx..], toks)..])
  {
    var s := slots[idx..];
    var n := Take(s, toks);
    assert s[1..] == slots[idx + 1..];
    assert lists'[..idx + 1] == lists[..idx] + [toks[..n]];
  }

  /** No tokens: every slot receives none. */
  lemma {:induction false} AllocNothing(s: seq<Args.Arg>)
    ensures Alloc(s, []).1 == []
    ensures forall m :: 0 <= m < |s| ==> Alloc(s, []).0[m] == []
    decreases |s|
  {
    if s != [] {
      AllocNothing(s[1..]);
      var r := Alloc(s[1..], []);
      assert Alloc(s, []) == Front([], r);
      forall m | 0 <= m < |s|
        ensures Alloc(s, []).0[m] == []
      {
        if m > 0 {
          assert Alloc(s, []).0[m] == r.0[m - 1];
        }
      }
    }
  }

  /** The state of the allocation loop: slots before `idx` are dealt;
      while `filling`, slot `idx` is a repeatable slot holding `pending`;
      `required` counts the required slots still waiting for a token; and
      the reference allocation of `kept` is the part dealt so far followed
      by the allocation of the tokens not yet final. */
  ghost predicate Dealing(slots: seq<Args.Arg>, kept: seq<string>, idx: nat, filling: bool,
                          pending: seq<string>, argv: seq<string>, lists: seq<seq<string>>, required: int,
                          found: map<string, seq<string>>)
  {
    && DealingShape(slots, idx, filling, pending, argv, lists, required)
    && AllocFrom(slots, kept, lists, idx, pending + argv)
    && found == ToMap(slots, lists)
  }

  /** The part of `Dealing` about the slots and the counts. */
  ghost predicate DealingShape(slots: seq<Args.Arg>, idx: nat, filling: bool, pending: seq<string>,
                               argv: seq<string>, lists: seq<seq<string>>, required: int)
  {
    && idx <= |slots| && |lists| == |slots|
    && (filling ==>
          && idx < |slots| && slots[idx].repeatable && pending != []
          && |pending| + |argv| > CountRequired(slots[idx..])
          && |argv| >= CountRequired(slots[idx + 1..]))
    && (!filling ==> pending == [])
    && (idx < |slots| ==> lists[idx] == pending)
    && (forall m :: idx < m < |slots| ==> lists[m] == [])
    && (forall m :: 0 <= m < idx && slots[m].required ==> lists[m] != [])
    && required == (if filling then CountRequired(slots[idx + 1..]) else CountRequired(slots[idx..]))
  }

  /** The map after slot `idx` receives token `t`. */
  function Add(found: map<string, seq<string>>, name: string, t: string): map<string, seq<string>>
  {
    found[name := Lookup(found, name) + [t]]
  }

  lemma DealingStart(slots: seq<Args.Arg>, kept: seq<string>, lists: seq<seq<string>>)
    requires |lists| == |slots| && forall m :: 0 <= m < |slots| ==> lists[m] == []
    ensures Dealing(slots, kept, 0, false, [], kept, lists, CountRequired(slots), Init(slots))
  {
    FillEmpty(slots, lists, |slots|);
    assert lists[..0] == [] && slots[0..] == slots && [] + kept == kept;
    assert AllocFrom(slots, kept, lists, 0, [] + kept);
  }

  /** Few tokens left, a repeatable slot was filling: it keeps what it
      holds and the next slot is considered. */
  lemma DealingHandover(slots: seq<Args.Arg>, kept: seq<string>, idx: nat, pending: seq<string>,
                        argv: seq<string>, lists: seq<seq<string>>, required: int, found: map<string, seq<string>>)
    requires Dealing(slots, kept, idx, true, pending, argv, lists, required, found)
    requires 0 < |argv| <= required
    ensures idx + 1 < |slots|
    ensures Dealing(slots, kept, idx + 1, false, [], argv, lists, required, found)
  {
    var s := slots[idx..];
    var toks := pending + argv;
    assert s[1..] == slots[idx + 1..];
    assert Take(s, toks) == |pending|;
    assert toks[..|pending|] == pending && toks[|pending|..] == argv;
    AllocAdvance(slots, kept, lists, lists, idx, toks);
    assert [] + argv == argv;
  }

  /** Few tokens left: a required slot takes one. */
  lemma DealingScarceRequired(slots: seq<Args.Arg>, kept: seq<string>, idx: nat,
                              argv: seq<string>, lists: seq<seq<string>>, required: int, found: map<string, seq<string>>)
    requires Dealing(slots, kept, idx, false, [], argv, lists, required, found)
    requires idx < |slots| && slots[idx].required && 0 < |argv| <= required
    ensures Dealing(slots, kept, idx + 1, false, [], argv[1..], Push(lists, idx, argv[0]), required - 1,
                    Add(found, slots[idx].name, argv[0]))
  {
    ToMapPush(slots, lists, idx, argv[0]);
    var s := slots[idx..];
    assert s[1..] == slots[idx + 1..];
    assert [] + argv == argv && [] + argv[1..] == argv[1..];
    var lists' := Push(lists, idx, argv[0]);
    assert lists'[idx] == argv[..1];
    AllocAdvance(slots, kept, lists, lists', idx, argv);
  }

  /** Few tokens left: an optional slot takes none. */
  lemma DealingScarceOptional(slots: seq<Args.Arg>, kept: seq<string>, idx: nat,
                              argv: seq<string>, lists: seq<seq<string>>, required: int, found: map<string, seq<string>>)
    requires Dealing(slots, kept, idx, false, [], argv, lists, required, found)
    requires idx < |slots| && !slots[idx].required && 0 < |argv| <= required
    ensures Dealing(slots, kept, idx + 1, false, [], argv, lists, required, found)
  {
    var s := slots[idx..];
    assert s[1..] == slots[idx + 1..];
    assert [] + argv == argv && argv[0..] == argv;
    AllocAdvance(slots, kept, lists, lists, idx, argv);
  }

  /** Tokens to spare: a repeatable slot takes one more and goes on. */
  lemma DealingRepeat(slots: seq<Args.Arg>, kept: seq<string>, idx: nat, filling: bool, pending: seq<string>,
                      argv: seq<string>, lists: seq<seq<string>>, required: int, found: map<string, seq<string>>)
    requires Dealing(slots, kept, idx, filling, pending, argv, lists, required, found)
    requires idx < |slots| && slots[idx].repeatable && |argv| > required && argv != []
    ensures Dealing(slots, kept, idx, true, pending + [argv[0]], argv[1..], Push(lists, idx, argv[0]),
                    if !filling && slots[idx].required then required - 1 else required,
                    Add(found, slots[idx].name, argv[0]))
  {
    RepeatShape(slots, idx, filling, pending, argv, lists, required);
    ToMapPush(slots, lists, idx, argv[0]);
    assert (pending + [argv[0]]) + argv[1..] == pending + argv;
    assert Push(lists, idx, argv[0])[..idx] == lists[..idx];
  }

  lemma RepeatShape(slots: seq<Args.Arg>, idx: nat, filling: bool, pending: seq<string>,
                    argv: seq<string>, lists: seq<seq<string>>, required: int)
    requires DealingShape(slots, idx, filling, pending, argv, lists, required)
    requires idx < |slots| && slots[idx].repeatable && |argv| > required && argv != []
    ensures DealingShape(slots, idx, true, pending + [argv[0]], argv[1..], Push(lists, idx, argv[0]),
                         if !filling && slots[idx].required then required - 1 else required)
  {
    var s := slots[idx..];
    assert s[1..] == slots[idx + 1..];
  }

  /** Tokens to spare: any other slot takes exactly one. */
  lemma DealingSingle(slots: seq<Args.Arg>, kept: seq<string>, idx: nat,
                      argv: seq<string>, lists: seq<seq<string>>, required: int, found: map<string, seq<string>>)
    requires Dealing(slots, kept, idx, false, [], argv, lists, required, found)
    requires idx < |slots| && !slots[idx].repeatable && |argv| > required && argv != []
    ensures Dealing(slots, kept, idx + 1, false, [], argv[1..], Push(lists, idx, argv[0]),
                    if slots[idx].required then required - 1 else required,
                    Add(found, slots[idx].name, argv[0]))
  {
    ToMapPush(slots, lists, idx, argv[0]);
    var s := slots[idx..];
    assert s[1..] == slots[idx + 1..];
    assert [] + argv == argv && [] + argv[1..] == argv[1..];
    var lists' := Push(lists, idx, argv[0]);
    assert lists'[idx] == argv[..1];
    AllocAdvance(slots, kept, lists, lists', idx, argv);
  }

  /** When the loop stops (no slot or no token left), the reference
      allocation is the one dealt, and it leaves a required slot empty
      exactly when `required` is positive. */
  lemma DealingEnd(slots: seq<Args.Arg>, kept: seq<string>, idx: nat, filling: bool, pending: seq<string>,
                   argv: seq<string>, lists: seq<seq<string>>, required: int, found: map<string, seq<string>>)
    requires Dealing(slots, kept, idx, filling, pending, argv, lists, required, found)
    requires idx == |slots| || argv == []
    ensures Alloc(slots, kept).0 == lists && Alloc(slots, kept).1 == argv
    ensures Satisfied(slots, lists) <==> required <= 0
    ensures slots != [] ==>
      Settle(slots, kept) == if 0 < required then Failure(TooFewArgs) else Success(Parsed(found, argv))
  {
    if idx == |slots| {
      assert lists[..idx] == lists && slots[idx..] == [] && pending + argv == argv;
      assert lists + [] == lists;
    } else {
      if filling {
        DealingEndFilling(slots, kept, idx, pending, argv, lists, required, found);
      } else {
        DealingEndIdle(slots, kept, idx, pending, argv, lists, required, found);
      }
      assert lists == lists[..idx] + lists[idx..];
    }
  }

  /** The repeatable slot `idx` was filling when the tokens ran out: it
      keeps them all, and every later slot is optional and empty. */
  lemma DealingEndFilling(slots: seq<Args.Arg>, kept: seq<string>, idx: nat, pending: seq<string>,
                          argv: seq<string>, lists: seq<seq<string>>, required: int, found: map<string, seq<string>>)
    requires Dealing(slots, kept, idx, true, pending, argv, lists, required, found)
    requires argv == []
    ensures Alloc(slots[idx..], pending + argv).0 == lists[idx..] && Alloc(slots[idx..], pending + argv).1 == argv
    ensures Satisfied(slots, lists) && required <= 0
  {
    var s := slots[idx..];
    var toks := pending + argv;
    assert s[1..] == slots[idx + 1..];
    assert toks == pending;
    CountRequiredZero(slots[idx + 1..]);
    assert Take(s, toks) == |pending|;
    assert toks[..|pending|] == pending && toks[|pending|..] == [];
    AllocNothing(slots[idx + 1..]);
    var r := Alloc(s, toks);
    assert r == Front(pending, Alloc(slots[idx + 1..], []));
    forall m | idx <= m < |slots|
      ensures r.0[m - idx] == lists[m]
    {
      if m > idx {
        assert r.0[m - idx] == Alloc(slots[idx + 1..], []).0[m - idx - 1];
      }
    }
    forall m | idx < m < |slots|
      ensures !slots[m].required
    {
      assert slots[idx + 1..][m - idx - 1] == slots[m];
    }
  }

  /** No slot was filling when the tokens ran out: slot `idx` and the later
      slots stay empty, which satisfies them exactly when none of them is
      required. */
  lemma DealingEndIdle(slots: seq<Args.Arg>, kept: seq<string>, idx: nat, pending: seq<string>,
                       argv: seq<string>, lists: seq<seq<string>>, required: int, found: map<string, seq<string>>)
    requires Dealing(slots, kept, idx, false, pending, argv, lists, required, found)
    requires idx < |slots| && argv == []
    ensures Alloc(slots[idx..], pending + argv).0 == lists[idx..] && Alloc(slots[idx..], pending + argv).1 == argv
    ensures Satisfied(slots, lists) <==> required <= 0
  {
    var s := slots[idx..];
    assert pending + argv == [];
    AllocNothing(s);
    CountRequiredZero(s);
    forall m | idx <= m < |slots|
      ensures !slots[m].required <== required <= 0
    {
      assert s[m - idx] == slots[m];
    }
    if required > 0 {
      var m :| 0 <= m < |s| && s[m].required;
      assert slots[idx + m] == s[m] && lists[idx + m] == [];
    }
    assert Alloc(s, []).0 == lists[idx..];
  }

  /** One turn of the allocation loop: the next token goes to slot `idx`,
      or, when no more tokens than required slots are left, slot `idx` gets
      at most one token (only if it is required) and the next slot is
      considered. */
  method Deal(slots: seq<Args.Arg>, ghost kept: seq<string>, idx: nat, filling: bool, ghost pending: seq<string>,
              argv: seq<string>, ghost lists: seq<seq<string>>, required: int, found: map<string, seq<string>>)
    returns (idx': nat, filling': bool, ghost pending': seq<string>, argv': seq<string>,
             ghost lists': seq<seq<string>>, required': int, found': map<string, seq<string>>)
    requires Dealing(slots, kept, idx, filling, pending, argv, lists, required, found)
    requires idx < |slots| && argv != []
    ensures Dealing(slots, kept, idx', filling', pending', argv', lists', required', found')
    ensures idx < idx' || (idx' == idx && |argv'| < |argv|)
  {
    if |argv| <= required {
      idx', argv', lists', required', found' := DealScarce(slots, kept, idx, filling, pending, argv, lists, required, found);
      filling', pending' := false, [];
    } else {
      idx', filling', pending', argv', lists', required', found' :=
        DealPlenty(slots, kept, idx, filling, pending, argv, lists, required, found);
    }
  }

  /** The turn when no more tokens than required slots are left: a repeatable
      slot that has taken tokens is closed, and the slot after it takes one
      token only if it is required. */
  method DealScarce(slots: seq<Args.Arg>, ghost kept: seq<string>, idx: nat, filling: bool, ghost pending: seq<string>,
                    argv: seq<string>, ghost lists: seq<seq<string>>, required: int, found: map<string, seq<string>>)
    returns (idx': nat, argv': seq<string>, ghost lists': seq<seq<string>>, required': int,
             found': map<string, seq<string>>)
    requires Dealing(slots, kept, idx, filling, pending, argv, lists, required, found)
    requires idx < |slots| && argv != [] && |argv| <= required
    ensures Dealing(slots, kept, idx', false, [], argv', lists', required', found')
    ensures idx < idx'
  {
    idx', argv', lists', required', found' := idx, argv, lists, required, found;
    if filling {
      DealingHandover(slots, kept, idx', pending, argv', lists', required', found');
      idx' := idx' + 1;
    }
    var p := slots[idx'];
    if p.required {
      DealingScarceRequired(slots, kept, idx', argv', lists', required', found');
      found' := Add(found', p.name, argv'[0]);
      lists' := Push(lists', idx', argv'[0]);
      argv' := argv'[1..];
      required' := required' - 1;
    } else {
      DealingScarceOptional(slots, kept, idx', argv', lists', required', found');
    }
    idx' := idx' + 1;
  }

  /** The turn when more tokens than required slots are left: slot `idx`
      takes the next token, and moves on unless it is repeatable. */
  method DealPlenty(slots: seq<Args.Arg>, ghost kept: seq<string>, idx: nat, filling: bool, ghost pending: seq<string>,
                    argv: seq<string>, ghost lists: seq<seq<string>>, required: int, found: map<string, seq<string>>)
    returns (idx': nat, filling': bool, ghost pending': seq<string>, argv': seq<string>,
             ghost lists': seq<seq<string>>, required': int, found': map<string, seq<string>>)
    requires Dealing(slots, kept, idx, filling, pending, argv, lists, required, found)
    requires idx < |slots| && argv != [] && |argv| > required
    ensures Dealing(slots, kept, idx', filling', pending', argv', lists', required', found')
    ensures idx < idx' || (idx' == idx && |argv'| < |argv|)
  {
    var p := slots[idx];
    if p.repeatable {
      DealingRepeat(slots, kept, idx, filling, pending, argv, lists, required, found);
      idx', filling', pending' := idx, true, pending + [argv[0]];
    } else {
      DealingSingle(slots, kept, idx, argv, lists, required, found);
      idx', filling', pending' := idx + 1, false, [];
    }
    found' := Add(found, p.name, argv[0]);
    lists' := Push(lists, idx, argv[0]);
    argv' := argv[1..];
    required' := if !filling && p.required then required - 1 else required;
  }

  /** The start of the allocation pass: an empty entry per slot name, and
      the number of required slots. */
  method Prepare(slots: seq<Args.Arg>) returns (found: map<string, seq<string>>, required: nat)
    ensures found == Init(slots) && required == CountRequired(slots)
  {
    required := 0;
    found := map[];
    for k := 0 to |slots|
      invariant found == Init(slots[..k])
      invariant required == CountRequired(slots[..k])
    {
      assert slots[..k + 1][..k] == slots[..k];
      CountRequiredAppend(slots[..k], slots[k]);
      assert slots[..k + 1] == slots[..k] + [slots[k]];
      found := found[slots[k].name := []];
      if slots[k].required {
        required := required + 1;
      }
    }
    assert slots[..|slots|] == slots;
  }

  /** The allocation pass of `Parse`. `idx` stands for the slots still to
      fill (`posargs` is `slots[idx..]`); while `filling` (the source's
      `set`) holds, the first of them is a repeatable slot that has
      started taking tokens. */
  method Allocate(slots: seq<Args.Arg>, kept: seq<string>) returns (r: Result<Parsed>)
    ensures r == Settle(slots, kept)
  {
    var argv := kept;
    if |slots| == 0 {
      return Success(Parsed(map[], argv));
    }
    var found, required := Prepare(slots);
    ghost var lists: seq<seq<string>> := seq(|slots|, _ => []);
    ghost var pending: seq<string> := [];
    DealingStart(slots, kept, lists);
    var filling := false;
    var idx := 0;
    while idx < |slots|
      invariant Dealing(slots, kept, idx, filling, pending, argv, lists, required, found)
      decreases |slots| - idx, |argv|
    {
      if |argv| <= 0 {
        break;
      }
      idx, filling, pending, argv, lists, required, found :=
        Deal(slots, kept, idx, filling, pending, argv, lists, required, found);
    }
    DealingEnd(slots, kept, idx, filling, pending, argv, lists, required, found);
    if 0 < required {
      return Failure(TooFewArgs);
    }
    return Success(Parsed(found, argv));
  }
}
