/** Positional argument definitions (params/internal/args/args.go): a slot
    has a name, may be required, may be repeatable, and renders itself in
    the usage line. */
module Args {

  /** `ArgDef`, the definition a command author writes. */
  datatype ArgDef = ArgDef(name: string, required: bool, repeatable: bool, help: string)

  /** `Arg`, the frozen slot the parser works with. */
  datatype Arg = Arg(name: string, required: bool, repeatable: bool, help: string)

  /** `Freeze`: the slot reports exactly what its definition says. */
  function Freeze(d: ArgDef): (a: Arg)
    ensures a.name == d.name && a.required == d.required
    ensures a.repeatable == d.repeatable && a.help == d.help
  {
    Arg(d.name, d.required, d.repeatable, d.help)
  }

  function FreezeAll(defs: seq<ArgDef>): (r: seq<Arg>)
    ensures |r| == |defs|
    ensures forall k :: 0 <= k < |defs| ==> r[k] == Freeze(defs[k])
  {
    seq(|defs|, k requires 0 <= k < |defs| => Freeze(defs[k]))
  }

  const RepeatMark: string := "[, ...]"

  /** `Usage`: a repeatable slot is followed by `[, ...]`; an optional slot
      is put in brackets. */
  function Usage(a: Arg): (r: string)
    ensures a.required ==> a.name <= r
    ensures !a.required ==> |r| >= 2 && r[0] == '[' && r[|r| - 1] == ']' && a.name <= r[1..]
    ensures a.repeatable && a.required ==> RepeatMark <= r[|a.name|..]
    ensures a.repeatable && !a.required ==> RepeatMark <= r[|a.name| + 1..]
  {
    var s := a.name + (if a.repeatable then RepeatMark else "");
    if a.required then s else "[" + s + "]"
  }

  /** The reading of a usage text back into name, requiredness and
      repeatability. */
  datatype UsageParts = UsageParts(name: string, required: bool, repeatable: bool)

  function ReadUsage(u: string): UsageParts
  {
    var optional := |u| >= 2 && u[0] == '[' && u[|u| - 1] == ']';
    var inner := if optional then u[1..|u| - 1] else u;
    var repeatable := |inner| >= |RepeatMark| && inner[|inner| - |RepeatMark|..] == RepeatMark;
    var name := if repeatable then inner[..|inner| - |RepeatMark|] else inner;
    UsageParts(name, !optional, repeatable)
  }

  predicate NoBrackets(s: string)
  {
    forall i :: 0 <= i < |s| ==> s[i] != '[' && s[i] != ']'
  }

  /** A slot whose name is non-empty and has no brackets can be read back
      from its usage text: the usage shows all three properties. */
  lemma UsageRoundTrip(a: Arg)
    requires a.name != [] && NoBrackets(a.name)
    ensures ReadUsage(Usage(a)) == UsageParts(a.name, a.required, a.repeatable)
  {
    var s := a.name + (if a.repeatable then RepeatMark else "");
    assert s[0] == a.name[0];
    var u := Usage(a);
    if a.required {
      assert u == s && u[0] != '[';
    } else {
      assert u[1..|u| - 1] == s;
    }
    if !a.repeatable {
      var n := |a.name|;
      if n >= |RepeatMark| {
        assert a.name[n - 1] != ']';
        assert a.name[n - |RepeatMark|..][|RepeatMark| - 1] == a.name[n - 1];
        assert RepeatMark[|RepeatMark| - 1] == ']';
        assert a.name[n - |RepeatMark|..] != RepeatMark;
      }
    } else {
      assert s[|s| - |RepeatMark|..] == RepeatMark;
      assert s[..|s| - |RepeatMark|] == a.name;
    }
  }

  /** The usage of a required, single slot is its bare name. */
  lemma UsageOfPlainSlot(a: Arg)
    requires a.required && !a.repeatable
    ensures Usage(a) == a.name
  {
  }
}
