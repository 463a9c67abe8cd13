/** Flags (params/internal/flags/flag.go): the declaration of one flag from
    one configuration field, its textual forms (name, aliases, usage), the
    translation of a value, and the store that writes translated values
    through the field's pointer and slice layers. Go's reflection is replaced
    by an explicit description of the field: its tags, its type (layers
    around an element type, or one of the two custom setter kinds) and its
    default value. */
module Flags {
  import opened Text
  import opened Errors
  import opened Translators
  import Kebab

  /** One pointer or slice layer between the field and its element type. */
  datatype Layer = Ptr | Slice

  /** The element type under the layers. `EOpaque` carries the Go runtime's
      parser of floating point, duration and timestamp texts. */
  datatype Elem =
    | EString
    | EBool
    | EInt(w: Width)
    | EUint(w: Width)
    | EOpaque(k: OpaqueKind, accepts: string -> bool)
    | EOther

  /** The type of a field, as seen through its value: a field holding a
      `func(string) error`, or a value implementing `flag.Value` (with the
      text its `String` method shows), is a custom setter whatever its
      layers. */
  datatype FieldType =
    | Typed(layers: seq<Layer>, elem: Elem)
    | SetterFunc(call: string -> Option<Error>)
    | ValueSetter(call: string -> Option<Error>, shown: string)

  /** The contents of a destination: a plain value, a nil pointer or slice,
      a pointer to a destination, or a slice of destinations. */
  datatype Dest = Plain(v: Value) | Nil | Ref(target: Dest) | List(items: seq<Dest>)

  /** A configuration field: its Go name, its struct tags, its type and its
      value before parsing. */
  datatype Field = Field(name: string, tags: map<string, string>, typ: FieldType, default: Dest)

  /** The translator a flag uses. */
  datatype Kind =
    | KString
    | KBool
    | KInt(w: Width)
    | KUint(w: Width)
    | KOpaque(k: OpaqueKind, accepts: string -> bool)
    | KFunc(call: string -> Option<Error>)
    | KValue(call: string -> Option<Error>)

  /** A declared flag: bare name and aliases (no leading dashes), help text,
      metavar, translator and the layers its store writes through. */
  datatype FlagSchema = FlagSchema(
    name: string,
    alias: seq<string>,
    help: string,
    metavar: string,
    kind: Kind,
    layers: seq<Layer>)

  predicate IsCustom(k: Kind) { k.KFunc? || k.KValue? }

  /** `reflect.StructTag.Get`: a missing key reads as the empty string. */
  function Tag(tags: map<string, string>, key: string): string
  {
    if key in tags then tags[key] else ""
  }

  /** The text Go's formatting gives a default value in the usage line. */
  function Render(v: Value): string
  {
    match v
    case Str(s) => s
    case Bool(b) => FormatBool(b)
    case Int(i) => IntToString(i)
    case Uint(u) => NatToString(u)
    case Opaque(_, text) => text
    case Unit => ""
  }

  /** The metavar taken from the default: only a plain element or a
      non-nil pointer to one is shown; slices and nil pointers show nothing. */
  function DefaultMetavar(d: Dest): string
  {
    match d
    case Plain(v) => Render(v)
    case Ref(Plain(v)) => Render(v)
    case _ => ""
  }

  function KindOf(e: Elem): Kind
    requires !e.EOther?
  {
    match e
    case EString => KString
    case EBool => KBool
    case EInt(w) => KInt(w)
    case EUint(w) => KUint(w)
    case EOpaque(k, accepts) => KOpaque(k, accepts)
  }

  /** `New`: the `flag` tag (or the kebab-case field name), the `alias` tag
      split at commas, the `help` and `metavar` tags; an empty metavar is
      replaced by the default's text. Custom setters are recognised before
      the element type is looked at; an element type without a translator
      is refused. Go field names are never empty. */
  function Declare(f: Field): (r: Result<FlagSchema>)
    requires f.name != []
    ensures r.Failure? ==> r.error == UnsupportedType
    ensures r.Success? ==> r.value.help == Tag(f.tags, "help")
    ensures r.Success? ==> (IsCustom(r.value.kind) <==> !f.typ.Typed?)
    ensures r.Success? && f.typ.Typed? ==> r.value.layers == f.typ.layers
    ensures r.Success? && Tag(f.tags, "metavar") != "" ==> r.value.metavar == Tag(f.tags, "metavar")
  {
    var name := if Tag(f.tags, "flag") != "" then Tag(f.tags, "flag") else Kebab.ToKebab(f.name);
    var alias := if "alias" in f.tags then Split(f.tags["alias"], ',') else [];
    var help := Tag(f.tags, "help");
    var mv := Tag(f.tags, "metavar");
    match f.typ
    case SetterFunc(call) => Success(FlagSchema(name, alias, help, mv, KFunc(call), []))
    case ValueSetter(call, shown) =>
      Success(FlagSchema(name, alias, help, if mv == "" then shown else mv, KValue(call), []))
    case Typed(layers, elem) =>
      if elem.EOther? then Failure(UnsupportedType)
      else Success(FlagSchema(name, alias, help, if mv == "" then DefaultMetavar(f.default) else mv, KindOf(elem), layers))
  }

  /** `hypen`: one dash before a one-byte name, two before any other; the
      length is Go's `len`, so a single non-ASCII letter takes two dashes. */
  function Hyphen(n: string): (r: string)
    ensures |r| > |n| && r[0] == '-' && r[|r| - |n|..] == n
  {
    if ByteLen(n) == 1 then "-" + n else "--" + n
  }

  /** `Name`: the flag's dashed name, ending with the bare name. */
  function Name(f: FlagSchema): (r: string)
    ensures |r| > |f.name| && r[0] == '-' && r[|r| - |f.name|..] == f.name
  {
    Hyphen(f.name)
  }

  function Aliases(f: FlagSchema): (r: seq<string>)
    ensures |r| == |f.alias|
    ensures forall i :: 0 <= i < |r| ==> r[i] == Hyphen(f.alias[i])
  {
    seq(|f.alias|, i requires 0 <= i < |f.alias| => Hyphen(f.alias[i]))
  }

  /** `Usage`: the dashed name, then `=metavar` when there is a metavar. */
  function Usage(f: FlagSchema): (r: string)
    ensures Name(f) <= r
    ensures r == Name(f) <==> f.metavar == ""
    ensures f.metavar != "" ==> r[|Name(f)|] == '=' && r[|Name(f)| + 1..] == f.metavar
  {
    Hyphen(f.name) + (if f.metavar == "" then "" else "=" + f.metavar)
  }

  /** `Match`: the bare name given on the command line is the flag's name or
      one of its aliases. */
  predicate Match(f: FlagSchema, given: string)
  {
    given == f.name || given in f.alias
  }

  /** The translator of a kind; a custom setter is called with the text and
      its error, if any, is passed on unchanged, and a nil error is success. */
  function Translate(k: Kind, s: string): (r: Result<Value>)
    ensures IsCustom(k) ==> (r.Success? <==> k.call(s).None?)
    ensures IsCustom(k) && r.Success? ==> r.value == Unit
    ensures IsCustom(k) && r.Failure? ==> r.error == k.call(s).value
    ensures k.KString? ==> r == Success(Str(s))
    ensures k.KBool? && r.Failure? ==> Is(r.error, ErrPushBack)
    ensures !k.KBool? && !IsCustom(k) && r.Failure? ==> !Is(r.error, ErrPushBack)
  {
    match k
    case KString => ReadString(s)
    case KBool => ReadBool(s)
    case KInt(w) => ReadInt(w, s)
    case KUint(w) => ReadUint(w, s)
    case KOpaque(o, accepts) => ReadOpaque(o, accepts, s)
    case KFunc(call) => if call(s).Some? then Failure(call(s).value) else Success(Unit)
    case KValue(call) => if call(s).Some? then Failure(call(s).value) else Success(Unit)
  }

  /** The translator `New` builds for a `func(string) error` field, as
      written: it asserts the setter's result to `error` before comparing it
      with nil, and Go's type assertion panics on a nil interface, so only a
      setter call that fails is inside its domain. `Translate` is the
      evidently intended reading. */
  function FuncTranslateAsWritten(call: string -> Option<Error>, s: string): (r: Result<Value>)
    requires call(s).Some?
    ensures r.Failure? && r.error == call(s).value
  {
    Failure(call(s).value)
  }

  /** A setter that accepts its text returns nil: the translator as written
      is outside its domain there, and `Translate` succeeds with `Unit`;
      where the setter fails the two agree. */
  lemma FuncSetterNilError(call: string -> Option<Error>, s: string)
    ensures call(s).None? ==> Translate(KFunc(call), s) == Success(Unit)
    ensures call(s).Some? ==> Translate(KFunc(call), s) == FuncTranslateAsWritten(call, s)
  {
  }

  /** What `Found` does when the flag is given without a value: a bool flag
      stores true; a custom setter has no action and fails with
      ErrValueRequired wrapped with its name; every other flag's action
      returns ErrValueRequired itself. */
  function FoundAction(f: FlagSchema): (r: Result<Value>)
    ensures r.Success? <==> f.kind.KBool?
    ensures r.Success? ==> r.value == Bool(true)
    ensures r.Failure? ==> Is(r.error, ErrValueRequired) && !Is(r.error, ErrParse)
  {
    if IsCustom(f.kind) then Failure(ValueMissing(Some(f.name)))
    else if f.kind.KBool? then Success(Bool(true))
    else Failure(ValueMissing(None))
  }

  function ErrorOf(r: Result<Value>): Option<Error>
  {
    if r.Failure? then Some(r.error) else None
  }

  // ---------------------------------------------------------------------
  // The store (`setfn`): each slice layer owns a slice, created empty when
  // the flag is declared, that every stored value is appended to; each
  // pointer layer allocates a new pointer per stored value. The field's
  // default is overwritten by the first store.

  function CountSlices(layers: seq<Layer>): nat
  {
    if layers == [] then 0 else (if layers[0] == Slice then 1 else 0) + CountSlices(layers[1..])
  }

  /** One store of `inner` through the layers, given the slices the slice
      layers hold (outermost first): the slices after the append and the
      value written to the field. */
  function Wrap(layers: seq<Layer>, slices: seq<seq<Dest>>, inner: Dest): (r: (seq<seq<Dest>>, Dest))
    requires |slices| == CountSlices(layers)
    ensures |r.0| == |slices|
  {
    if layers == [] then ([], inner)
    else if layers[0] == Ptr then
      var (sl, d) := Wrap(layers[1..], slices, inner);
      (sl, Ref(d))
    else
      var (sl, d) := Wrap(layers[1..], slices[1..], inner);
      var s := slices[0] + [d];
      ([s] + sl, List(s))
  }

  /** The reference definition of what the field holds after the values `h`
      (at least one) have been stored. */
  function Shape(layers: seq<Layer>, h: seq<Value>): (r: Dest)
    requires h != []
    ensures layers != [] && layers[0] == Slice ==> r.List? && |r.items| == |h|
    ensures layers != [] && layers[0] == Ptr ==> r.Ref?
    ensures layers == [] ==> r.Plain?
    decreases |layers|, 0
  {
    if layers == [] then Plain(h[|h| - 1])
    else if layers[0] == Ptr then Ref(Shape(layers[1..], h))
    else List(Prefixes(layers[1..], h, |h|))
  }

  /** The shapes after each of the first `n` stores. */
  function Prefixes(layers: seq<Layer>, h: seq<Value>, n: nat): (r: seq<Dest>)
    requires n <= |h|
    ensures |r| == n
    decreases |layers|, 1, n
  {
    if n == 0 then [] else Prefixes(layers, h, n - 1) + [Shape(layers, h[..n])]
  }

  /** The slices the slice layers hold after the values `h` were stored. */
  function Snapshots(layers: seq<Layer>, h: seq<Value>): (r: seq<seq<Dest>>)
    ensures |r| == CountSlices(layers)
  {
    if layers == [] then []
    else if layers[0] == Ptr then Snapshots(layers[1..], h)
    else [Prefixes(layers[1..], h, |h|)] + Snapshots(layers[1..], h)
  }

  /** The field after the values `h` were stored over the default `initial`. */
  function DestAfter(initial: Dest, layers: seq<Layer>, h: seq<Value>): (r: Dest)
    ensures h == [] ==> r == initial
    ensures h != [] && layers == [] ==> r == Plain(h[|h| - 1])
    ensures h != [] && layers != [] && layers[0] == Slice ==> r.List? && |r.items| == |h|
  {
    if h == [] then initial else Shape(layers, h)
  }

  lemma {:induction false} PrefixesExtend(layers: seq<Layer>, h: seq<Value>, v: Value, n: nat)
    requires n <= |h|
    ensures Prefixes(layers, h + [v], n) == Prefixes(layers, h, n)
    decreases n
  {
    if n > 0 {
      PrefixesExtend(layers, h, v, n - 1);
      assert (h + [v])[..n] == h[..n];
    }
  }

  lemma PrefixesAppend(layers: seq<Layer>, h: seq<Value>, v: Value)
    ensures Prefixes(layers, h + [v], |h| + 1) == Prefixes(layers, h, |h|) + [Shape(layers, h + [v])]
  {
    PrefixesExtend(layers, h, v, |h|);
    assert (h + [v])[..|h| + 1] == h + [v];
  }

  /** One store, applied to the slices left by the values `h`, leaves the
      slices and the field that the values `h + [v]` describe. */
  lemma {:induction false} WrapShape(layers: seq<Layer>, h: seq<Value>, v: Value)
    ensures Wrap(layers, Snapshots(layers, h), Plain(v)) == (Snapshots(layers, h + [v]), Shape(layers, h + [v]))
    decreases |layers|
  {
    if layers != [] {
      WrapShape(layers[1..], h, v);
      if layers[0] == Slice {
        PrefixesAppend(layers[1..], h, v);
      }
    }
  }

  /** A flag whose field is a slice collects every stored value, in order,
      and drops the default. */
  lemma SliceCollects(h: seq<Value>)
    requires h != []
    ensures Shape([Slice], h) == List(seq(|h|, j requires 0 <= j < |h| => Plain(h[j])))
  {
    PrefixesPlain(h, |h|);
  }

  lemma {:induction false} PrefixesPlain(h: seq<Value>, n: nat)
    requires n <= |h|
    ensures Prefixes([], h, n) == seq(n, j requires 0 <= j < n => Plain(h[j]))
    decreases n
  {
    if n > 0 {
      PrefixesPlain(h, n - 1);
    }
  }

  /** A plain field, or a pointer to one, holds the last stored value. */
  lemma LastWins(h: seq<Value>)
    requires h != []
    ensures Shape([], h) == Plain(h[|h| - 1])
    ensures Shape([Ptr], h) == Ref(Plain(h[|h| - 1]))
  {
  }

  // ---------------------------------------------------------------------
  // One declared flag and the field it writes.

  class FlagBinding {
    const schema: FlagSchema
    /** The field's value before any store. */
    const initial: Dest
    /** The slices held by the slice layers, outermost first. */
    var slices: seq<seq<Dest>>
    /** The field. */
    var dest: Dest
    /** The values stored since the flag was declared. */
    ghost var history: seq<Value>

    ghost predicate Valid()
      reads this
    {
      && slices == Snapshots(schema.layers, history)
      && dest == DestAfter(initial, schema.layers, history)
      && (IsCustom(schema.kind) ==> history == [])
    }

    /** Declared as `s` on a field holding `init`, and nothing stored yet. */
    ghost predicate Unused(s: FlagSchema, init: Dest)
      reads this
    {
      Valid() && schema == s && initial == init && history == []
    }

    constructor (schema: FlagSchema, initial: Dest)
      ensures Valid() && Unused(schema, initial)
      ensures this.schema == schema && this.initial == initial
      ensures history == [] && dest == initial
    {
      this.schema := schema;
      this.initial := initial;
      slices := Snapshots(schema.layers, []);
      dest := initial;
      history := [];
    }

    /** `Set`: translate the text and store the value, or return the
      translator's error and leave the field alone. */
    method Set(s: string) returns (err: Option<Error>)
      requires Valid()
      modifies this
      ensures Valid()
      ensures err == ErrorOf(Translate(schema.kind, s))
      ensures err.None? && !IsCustom(schema.kind) ==> history == old(history) + [Translate(schema.kind, s).value]
      ensures err.Some? || IsCustom(schema.kind) ==> history == old(history) && dest == old(dest)
    {
      var t := Translate(schema.kind, s);
      if t.Failure? {
        return Some(t.error);
      }
      if !IsCustom(schema.kind) {
        Store(t.value);
      }
      return None;
    }

    /** `Found`: run the flag's action for a flag given without a value. */
    method Found() returns (err: Option<Error>)
      requires Valid()
      modifies this
      ensures Valid()
      ensures err == ErrorOf(FoundAction(schema))
      ensures err.None? ==> history == old(history) + [FoundAction(schema).value]
      ensures err.Some? ==> history == old(history) && dest == old(dest)
    {
      var a := FoundAction(schema);
      if a.Failure? {
        return Some(a.error);
      }
      Store(a.value);
      return None;
    }

    /** The function `setfn` builds: wrap the value through the layers and
        assign the field. */
    method Store(v: Value)
      requires Valid() && !IsCustom(schema.kind)
      modifies this
      ensures Valid()
      ensures history == old(history) + [v]
    {
      WrapShape(schema.layers, history, v);
      var r := Wrap(schema.layers, slices, Plain(v));
      slices, dest := r.0, r.1;
      history := history + [v];
    }
  }

  // ---------------------------------------------------------------------
  // Properties of the declaration and of the textual forms.

  /** Declaration fails exactly for a typed field whose element type has no
      translator; custom setters are always accepted. */
  lemma DeclareFailsIff(f: Field)
    requires f.name != []
    ensures Declare(f).Failure? <==> f.typ.Typed? && f.typ.elem.EOther?
    ensures Declare(f).Failure? ==> Declare(f).error == UnsupportedType && !Is(Declare(f).error, ErrUsage)
  {
  }

  /** Without a `flag` tag the name is the kebab-case field name, which has
      no upper-case letter; the aliases joined back with commas give the
      `alias` tag. */
  lemma DeclareNames(f: Field)
    requires f.name != [] && Declare(f).Success?
    ensures Tag(f.tags, "flag") == "" ==> Declare(f).value.name == Kebab.ToKebab(f.name) && NoUpper(Declare(f).value.name)
    ensures "alias" in f.tags ==> Join(Declare(f).value.alias, ',') == f.tags["alias"]
    ensures "alias" !in f.tags ==> Declare(f).value.alias == []
  {
    if Tag(f.tags, "flag") == "" {
      Kebab.KebabHasNoUpper(f.name);
    }
    if "alias" in f.tags {
      SplitJoin(f.tags["alias"], ',');
    }
  }

  /** A value of the element's own type, as a default. */
  predicate FitsElem(v: Value, e: Elem)
  {
    match e
    case EString => v.Str?
    case EBool => v.Bool?
    case EInt(w) => v.Int? && -Pow2(Bits(w) - 1) <= v.i < Pow2(Bits(w) - 1)
    case EUint(w) => v.Uint? && v.u < Pow2(Bits(w))
    case EOpaque(_, _) => false
    case EOther => false
  }

  /** The usage line shows the default so that giving the shown text back
      to the flag stores the default again. */
  lemma DefaultMetavarReadsBack(f: Field, v: Value)
    requires f.name != [] && f.typ.Typed? && Tag(f.tags, "metavar") == ""
    requires f.default == Plain(v) || f.default == Ref(Plain(v))
    requires FitsElem(v, f.typ.elem)
    ensures Declare(f).Success?
    ensures Translate(Declare(f).value.kind, Declare(f).value.metavar) == Success(v)
  {
    DeclareTypedDefault(f, v);
    RenderReadsBack(f.typ.elem, v);
  }

  /** A typed field without a `metavar` tag shows its default's text. */
  lemma DeclareTypedDefault(f: Field, v: Value)
    requires f.name != [] && f.typ.Typed? && Tag(f.tags, "metavar") == ""
    requires f.default == Plain(v) || f.default == Ref(Plain(v))
    requires !f.typ.elem.EOther?
    ensures Declare(f).Success?
    ensures Declare(f).value.kind == KindOf(f.typ.elem) && Declare(f).value.metavar == Render(v)
  {
  }

  /** Rendering a value that fits its element type and translating the text
      gives the value back. */
  lemma RenderReadsBack(e: Elem, v: Value)
    requires FitsElem(v, e)
    ensures !e.EOther? && Translate(KindOf(e), Render(v)) == Success(v)
  {
    match e
    case EString =>
    case EBool => ReadBoolFormatBool(v.b);
    case EInt(w) =>
      Pow2SignedBound(w);
      ReadIntOfFormat(w, v.i);
    case EUint(w) => ReadUintOfFormat(w, v.u);
  }

  /** A name of one ASCII letter (one byte) is shown with one dash, every
      other name, a single non-ASCII letter included, with two. */
  lemma HyphenForms(n: string)
    ensures |n| == 1 && n[0] as int < 0x80 ==> Hyphen(n) == ['-', n[0]]
    ensures !(|n| == 1 && n[0] as int < 0x80) ==>
      |Hyphen(n)| == |n| + 2 && Hyphen(n)[..2] == "--" && Hyphen(n)[2..] == n
  {
    ByteLenOne(n);
  }

  /** Distinct non-empty names have distinct dashed forms. */
  lemma HyphenInjective(a: string, b: string)
    requires a != [] && b != [] && Hyphen(a) == Hyphen(b)
    ensures a == b
  {
    ByteLenOne(a);
    ByteLenOne(b);
    if ByteLen(a) == 1 && ByteLen(b) == 1 {
      assert a == Hyphen(a)[1..];
    } else if ByteLen(a) != 1 && ByteLen(b) != 1 {
      assert a == Hyphen(a)[2..];
    }
  }

  /** A flag matches a bare name exactly when the dashed name is the flag's
      `Name()` or one of its `Alias()`es. */
  lemma MatchIffDashed(f: FlagSchema, given: string)
    requires given != [] && f.name != [] && "" !in f.alias
    ensures Match(f, given) <==> Hyphen(given) == Name(f) || Hyphen(given) in Aliases(f)
  {
    if Hyphen(given) == Name(f) {
      HyphenInjective(given, f.name);
    }
    if Hyphen(given) in Aliases(f) {
      var i :| 0 <= i < |f.alias| && Aliases(f)[i] == Hyphen(given);
      HyphenInjective(given, f.alias[i]);
    }
    if given in f.alias {
      var i :| 0 <= i < |f.alias| && f.alias[i] == given;
      assert Aliases(f)[i] == Hyphen(given);
    }
  }

  /** Cutting the usage line at its first `=` gives back the dashed name and
      the metavar. */
  lemma UsageCut(f: FlagSchema)
    requires '=' !in f.name
    ensures Cut(Usage(f), '=') == CutResult(Name(f), f.metavar, f.metavar != "")
  {
    var n := Hyphen(f.name);
    assert '=' !in n;
    CutNoSep(n, '=');
    if f.metavar != "" {
      CutAfter(n, f.metavar, '=');
    } else {
      assert Usage(f) == n;
    }
  }

  /** Giving a flag without a value: only a bool flag succeeds; every
      failure is ErrValueRequired, never a push-back. */
  lemma FoundOutcomes(f: FlagSchema)
    ensures FoundAction(f).Success? <==> f.kind.KBool?
    ensures FoundAction(f).Success? ==> FoundAction(f).value == Bool(true)
    ensures FoundAction(f).Failure? ==>
      Is(FoundAction(f).error, ErrValueRequired) && !Is(FoundAction(f).error, ErrPushBack)
  {
  }

  /** Only a bool flag's translator can ask for its token to be given back
      (a custom setter may, by returning such an error itself). */
  lemma PushBackOnlyFromBool(k: Kind, s: string)
    requires !k.KBool? && !IsCustom(k)
    ensures Translate(k, s).Failure? ==> !Is(Translate(k, s).error, ErrPushBack)
  {
    match k
    case KString =>
    case KInt(w) => TranslatorFailures(w, Float32, _ => true, s);
    case KUint(w) => TranslatorFailures(w, Float32, _ => true, s);
    case KOpaque(o, accepts) => TranslatorFailures(Native, o, accepts, s);
  }
}
