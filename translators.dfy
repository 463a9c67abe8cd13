/** The translators of params/internal/flags/translators.go: they turn the
    text given for a flag into a typed value, or into an error. A boolean
    translator that does not recognise its input asks the scanner to give
    the token back (ErrPushBack); every other failure is a plain parse
    error. */
module Translators {
  import opened Text
  import opened Errors

  /** The Go integer types: `int`/`uint` are 64 bits wide on the platforms
      modelled here. */
  datatype Width = Native | W8 | W16 | W32 | W64

  function Bits(w: Width): nat
  {
    match w
    case Native => 64
    case W8 => 8
    case W16 => 16
    case W32 => 32
    case W64 => 64
  }

  function Pow2(n: nat): (r: int)
    ensures r >= 1
  {
    if n == 0 then 1 else 2 * Pow2(n - 1)
  }

  /** `%T` of the signed type, used in the error message. */
  function IntTypeName(w: Width): string
  {
    match w
    case Native => "int"
    case W8 => "int8"
    case W16 => "int16"
    case W32 => "int32"
    case W64 => "int64"
  }

  function UintTypeName(w: Width): string
  {
    match w
    case Native => "uint"
    case W8 => "uint8"
    case W16 => "uint16"
    case W32 => "uint32"
    case W64 => "uint64"
  }

  /** The types whose text form is parsed by the Go runtime (floating point,
      durations, RFC 3339 timestamps); their grammar is not modelled. */
  datatype OpaqueKind = Float32 | Float64 | Duration | Time

  function OpaqueTypeName(k: OpaqueKind): string
  {
    match k
    case Float32 => "float32"
    case Float64 => "float64"
    case Duration => "duration"
    case Time => "timestamp"
  }

  /** A translated value. `Opaque` keeps the accepted text; `Unit` is what a
      custom setter hands to its (no-op) store. */
  datatype Value =
    | Str(s: string)
    | Bool(b: bool)
    | Int(i: int)
    | Uint(u: nat)
    | Opaque(kind: OpaqueKind, text: string)
    | Unit

  /** `readString`: every text is accepted as it is. */
  function ReadString(s: string): (r: Result<Value>)
    ensures r == Success(Str(s))
  {
    Success(Str(s))
  }

  const TrueWords: seq<string> := ["true", "on", "yes", "1"]
  const FalseWords: seq<string> := ["false", "off", "no", "0"]

  /** `readBool`: the word is compared after ASCII lower-casing. */
  function ReadBool(s: string): (r: Result<Value>)
    ensures r.Success? ==> r.value.Bool?
    ensures r.Failure? ==> r.error == NotBool(s) && Is(r.error, ErrPushBack)
  {
    var w := LowerAll(s);
    if w in TrueWords then Success(Bool(true))
    else if w in FalseWords then Success(Bool(false))
    else Failure(NotBool(s))
  }

  /** `%#v` of a bool, the default metavar of a bool flag. */
  function FormatBool(b: bool): string
  {
    if b then "true" else "false"
  }

  const MinInt64: int := -0x8000_0000_0000_0000
  const MaxInt64: int := 0x7fff_ffff_ffff_ffff
  const MaxUint64: int := 0xffff_ffff_ffff_ffff

  /** `strconv.ParseInt(s, 10, 0)` on a 64-bit platform: an optional sign,
      then one or more decimal digits, and the value must fit in 64 bits. */
  function ParseInt64(s: string): (r: Option<int>)
    ensures r.Some? ==> MinInt64 <= r.value <= MaxInt64
  {
    var neg := s != [] && s[0] == '-';
    var digits := if s != [] && (s[0] == '-' || s[0] == '+') then s[1..] else s;
    if digits == [] || !AllDigits(digits) then None
    else
      var d: int := DecimalValue(digits);
      var v := if neg then -d else d;
      if MinInt64 <= v <= MaxInt64 then Some(v) else None
  }

  /** `strconv.ParseUint(s, 10, 0)`: decimal digits only (no sign), below 2^64. */
  function ParseUint64(s: string): (r: Option<nat>)
    ensures r.Some? ==> r.value <= MaxUint64
  {
    if s == [] || !AllDigits(s) then None
    else if DecimalValue(s) <= MaxUint64 then Some(DecimalValue(s))
    else None
  }

  /** The Go conversion of a 64-bit value to a narrower signed type: keep
      the low `bits` bits and read them in two's complement. */
  function WrapSigned(i: int, bits: nat): (r: int)
    requires bits >= 1
    ensures -Pow2(bits - 1) <= r < Pow2(bits - 1)
    ensures (r - i) % Pow2(bits) == 0
  {
    var m := Pow2(bits);
    var low := i % m;
    var q := i / m;
    if low >= Pow2(bits - 1) then
      ModOfMultiple(low - m - i, m, -q - 1);
      low - m
    else
      ModOfMultiple(low - i, m, -q);
      low
  }

  /** The Go conversion to an unsigned type of `bits` bits: the low bits. */
  function WrapUnsigned(u: nat, bits: nat): (r: nat)
    ensures r < Pow2(bits)
    ensures (r - u) % Pow2(bits) == 0
  {
    var m := Pow2(bits);
    ModOfMultiple(u % m - u, m, -(u / m));
    u % m
  }

  /** A multiple of `m` leaves no remainder. */
  lemma ModOfMultiple(a: int, m: int, q: int)
    requires m > 0 && a == q * m
    ensures a % m == 0
  {
    var d, r := a / m, a % m;
    assert a == d * m + r && 0 <= r < m;
    assert (q - d) * m == r;
    MulUnit(q - d, m);
  }

  /** A non-zero multiple of `m` is at least `m` away from zero. */
  lemma MulUnit(k: int, m: int)
    requires m > 0
    ensures k >= 1 ==> k * m >= m
    ensures k <= -1 ==> k * m <= -m
  {
    if k >= 1 {
      MulSign(k - 1, m);
      assert k * m == (k - 1) * m + m;
    }
    if k <= -1 {
      MulSign(-k - 1, m);
      assert k * m == -m - (-k - 1) * m;
    }
  }

  /** `readInt[I]`. */
  function ReadInt(w: Width, s: string): (r: Result<Value>)
    ensures r.Success? <==> ParseInt64(s).Some?
    ensures r.Success? ==> r.value.Int? && -Pow2(Bits(w) - 1) <= r.value.i < Pow2(Bits(w) - 1)
    ensures r.Success? ==> (r.value.i - ParseInt64(s).value) % Pow2(Bits(w)) == 0
    ensures r.Failure? ==> r.error == NotParsable(s, IntTypeName(w)) && !Is(r.error, ErrPushBack)
  {
    match ParseInt64(s)
    case None => Failure(NotParsable(s, IntTypeName(w)))
    case Some(i) => Success(Int(WrapSigned(i, Bits(w))))
  }

  /** `readUint[U]`. */
  function ReadUint(w: Width, s: string): (r: Result<Value>)
    ensures r.Success? <==> ParseUint64(s).Some?
    ensures r.Success? ==> r.value.Uint? && r.value.u < Pow2(Bits(w))
    ensures r.Success? ==> (r.value.u - ParseUint64(s).value) % Pow2(Bits(w)) == 0
    ensures r.Failure? ==> r.error == NotParsable(s, UintTypeName(w)) && !Is(r.error, ErrPushBack)
  {
    match ParseUint64(s)
    case None => Failure(NotParsable(s, UintTypeName(w)))
    case Some(u) => Success(Uint(WrapUnsigned(u, Bits(w))))
  }

  /** `readFloat`, `readDuration`, `readTime`: `accepts` stands for the
      Go runtime's parser of the kind. */
  function ReadOpaque(k: OpaqueKind, accepts: string -> bool, s: string): (r: Result<Value>)
    ensures r.Success? <==> accepts(s)
    ensures r.Success? ==> r.value.Opaque? && r.value.kind == k && r.value.text == s
    ensures r.Failure? ==> Is(r.error, ErrParse) && !Is(r.error, ErrPushBack)
  {
    if accepts(s) then Success(Opaque(k, s)) else Failure(NotParsable(s, OpaqueTypeName(k)))
  }

  // ---------------------------------------------------------------------
  // Properties

  /** A bool text is accepted exactly when its lower-cased form is one of
      the eight words, and it reads as true exactly for the first four. */
  lemma ReadBoolWords(s: string)
    ensures ReadBool(s).Success? <==> LowerAll(s) in TrueWords + FalseWords
    ensures ReadBool(s) == Success(Bool(true)) <==> LowerAll(s) in TrueWords
    ensures ReadBool(s) == Success(Bool(false)) <==> LowerAll(s) in FalseWords
  {
    assert forall w :: w in TrueWords ==> w !in FalseWords;
  }

  /** Case does not matter: texts that agree after lower-casing read alike. */
  lemma ReadBoolIgnoresCase(s: string, t: string)
    requires LowerAll(s) == LowerAll(t)
    ensures ReadBool(s).Success? == ReadBool(t).Success?
    ensures ReadBool(s).Success? ==> ReadBool(s) == ReadBool(t)
  {
  }

  /** The default metavar of a bool flag reads back as the same value. */
  lemma ReadBoolFormatBool(b: bool)
    ensures ReadBool(FormatBool(b)) == Success(Bool(b))
  {
    if b {
      assert LowerAll("true") == "true";
    } else {
      assert LowerAll("false") == "false";
      assert "false" !in TrueWords;
    }
  }

  /** Only the bool translator asks for its token to be given back. */
  lemma TranslatorFailures(w: Width, k: OpaqueKind, accepts: string -> bool, s: string)
    ensures ReadBool(s).Failure? ==> Is(ReadBool(s).error, ErrPushBack)
    ensures ReadInt(w, s).Failure? ==> Is(ReadInt(w, s).error, ErrParse) && !Is(ReadInt(w, s).error, ErrPushBack)
    ensures ReadUint(w, s).Failure? ==> Is(ReadUint(w, s).error, ErrParse) && !Is(ReadUint(w, s).error, ErrPushBack)
    ensures ReadOpaque(k, accepts, s).Failure? ==>
      Is(ReadOpaque(k, accepts, s).error, ErrParse) && !Is(ReadOpaque(k, accepts, s).error, ErrPushBack)
  {
  }

  /** `WrapSigned` leaves a value that already fits unchanged. */
  lemma WrapSignedFits(i: int, bits: nat)
    requires bits >= 1 && -Pow2(bits - 1) <= i < Pow2(bits - 1)
    ensures WrapSigned(i, bits) == i
  {
    var m := Pow2(bits);
    assert m == 2 * Pow2(bits - 1);
    if i < 0 {
      ModAddBack(i, m);
    } else {
      ModBelow(i, m);
    }
  }

  /** A negative value no smaller than `-m` is `m` below its remainder. */
  lemma ModAddBack(a: int, m: int)
    requires m > 0 && -m <= a < 0
    ensures a % m == a + m
  {
    var q, r := a / m, a % m;
    assert a == q * m + r && 0 <= r < m;
    MulSign(q, m);
    assert q == -1;
  }

  lemma MulSign(q: int, m: int)
    requires m > 0
    ensures q >= 0 ==> q * m >= 0
    ensures q <= -2 ==> q * m <= -2 * m
  {
    if q >= 0 {
      assert q * m >= 0;
    }
    if q <= -2 {
      assert q * m == -2 * m + (q + 2) * m;
      assert (q + 2) * m <= 0;
    }
  }

  lemma WrapUnsignedFits(u: nat, bits: nat)
    requires u < Pow2(bits)
    ensures WrapUnsigned(u, bits) == u
  {
    ModBelow(u, Pow2(bits));
  }

  lemma ModBelow(a: int, m: int)
    requires 0 <= a < m
    ensures a % m == a
  {
  }

  lemma DigitsOfNat(n: nat)
    ensures NatToString(n) != [] && AllDigits(NatToString(n))
    ensures NatToString(n)[0] != '-' && NatToString(n)[0] != '+'
  {
    var s := NatToString(n);
    assert IsDigit(s[0]);
  }

  /** Go's `%d` of a 64-bit value parses back to the value itself. */
  lemma ParseInt64OfFormat(i: int)
    requires MinInt64 <= i <= MaxInt64
    ensures ParseInt64(IntToString(i)) == Some(i)
  {
    var n: nat := if i < 0 then -i else i;
    DigitsOfNat(n);
    NatToStringRoundTrip(n);
    if i < 0 {
      var s := IntToString(i);
      assert s[1..] == NatToString(n);
    }
  }

  /** The text of a value that fits the target type reads back as that
      value; a wider 64-bit value is truncated to the type's width. */
  lemma ReadIntOfFormat(w: Width, i: int)
    requires MinInt64 <= i <= MaxInt64
    ensures ReadInt(w, IntToString(i)) == Success(Int(WrapSigned(i, Bits(w))))
    ensures -Pow2(Bits(w) - 1) <= i < Pow2(Bits(w) - 1) ==> ReadInt(w, IntToString(i)) == Success(Int(i))
  {
    ParseInt64OfFormat(i);
    if -Pow2(Bits(w) - 1) <= i < Pow2(Bits(w) - 1) {
      WrapSignedFits(i, Bits(w));
    }
  }

  lemma ReadUintOfFormat(w: Width, n: nat)
    requires n < Pow2(Bits(w))
    ensures ReadUint(w, NatToString(n)) == Success(Uint(n))
  {
    DigitsOfNat(n);
    NatToStringRoundTrip(n);
    assert Pow2(Bits(w)) <= MaxUint64 + 1 by {
      Pow2Values();
    }
    WrapUnsignedFits(n, Bits(w));
  }

  /** Every signed width fits in 64 bits. */
  lemma Pow2SignedBound(w: Width)
    ensures Pow2(Bits(w) - 1) <= MaxInt64 + 1
  {
    Pow2Values();
    Pow2Add(Bits(w) - 1, 1);
    assert Pow2(1) == 2;
  }

  lemma Pow2Values()
    ensures Pow2(8) == 0x100 && Pow2(16) == 0x1_0000 && Pow2(32) == 0x1_0000_0000
    ensures Pow2(64) == 0x1_0000_0000_0000_0000
  {
    Pow2Small();
    Pow2Add(16, 16);
    Pow2Add(32, 32);
  }

  lemma Pow2Small()
    ensures Pow2(8) == 0x100 && Pow2(16) == 0x1_0000
  {
    assert Pow2(8) == 0x100;
    Pow2Add(8, 8);
  }

  lemma {:induction false} Pow2Add(a: nat, b: nat)
    ensures Pow2(a + b) == Pow2(a) * Pow2(b)
    decreases a
  {
    if a > 0 {
      Pow2Add(a - 1, b);
    }
  }

  /** An unsigned translator refuses any sign, even `+`. */
  lemma ReadUintRejectsSigns(w: Width, t: string)
    ensures ReadUint(w, "-" + t).Failure?
    ensures ReadUint(w, "+" + t).Failure?
  {
    assert !IsDigit(("-" + t)[0]);
    assert !IsDigit(("+" + t)[0]);
  }

  /** An explicit `+` is accepted by the signed translators. */
  lemma ReadIntPlus(w: Width, n: nat)
    requires n <= MaxInt64
    ensures ReadInt(w, "+" + NatToString(n)) == Success(Int(WrapSigned(n, Bits(w))))
  {
    DigitsOfNat(n);
    NatToStringRoundTrip(n);
    assert ("+" + NatToString(n))[1..] == NatToString(n);
  }

  /** The 64-bit bounds are those of the Go types: one past them is refused. */
  lemma ParseInt64Bounds()
    ensures ParseInt64(IntToString(MaxInt64 + 1)) == None
    ensures ParseInt64(IntToString(MinInt64 - 1)) == None
  {
    DigitsOfNat(MaxInt64 + 1);
    NatToStringRoundTrip(MaxInt64 + 1);
    var s := IntToString(MinInt64 - 1);
    DigitsOfNat(-(MinInt64 - 1));
    NatToStringRoundTrip(-(MinInt64 - 1));
    assert s[1..] == NatToString(-(MinInt64 - 1));
  }

  /** A narrow destination keeps only the low bits of what was parsed: the
      64-bit range check does not see the destination's width. */
  lemma NarrowTruncation()
    ensures ReadInt(W8, IntToString(200)) == Success(Int(-56))
    ensures ReadUint(W8, NatToString(300)) == Success(Uint(44))
  {
    Pow2Values();
    ReadIntOfFormat(W8, 200);
    assert WrapSigned(200, 8) == -56 by {
      ModBelow(200, 256);
    }
    DigitsOfNat(300);
    NatToStringRoundTrip(300);
    assert WrapUnsigned(300, 8) == 44;
  }
}
