/** The error values of the resolution engine and the `errors.Is` relation
    between them. Go builds a small hierarchy by wrapping sentinels with `%w`:
    ErrPushBack wraps ErrParse, which wraps ErrUsage; ErrValueRequired and
    ErrNotEnoughArgs wrap ErrUsage. */
module Errors {

  datatype Option<+T> = None | Some(value: T)

  datatype Result<+T> = Success(value: T) | Failure(error: Error)

  /** The sentinel values callers test for with `errors.Is`. */
  datatype Sentinel = ErrUsage | ErrParse | ErrPushBack | ErrValueRequired | ErrNotEnoughArgs

  /** `Below(a, b)`: every error that is `a` is also `b`. */
  predicate Below(a: Sentinel, b: Sentinel) {
    a == b || b == ErrUsage || (a == ErrPushBack && b == ErrParse)
  }

  datatype Error =
    /** readBool: "<input> is not bool", wrapping ErrPushBack. */
    | NotBool(input: string)
    /** readInt, readUint and the opaque translators, wrapping ErrParse. */
    | NotParsable(input: string, typeName: string)
    /** ErrValueRequired itself (None), or wrapped with a flag's name. */
    | ValueMissing(flag: Option<string>)
    /** ErrNotEnoughArgs. */
    | TooFewArgs
    /** A leaf that is left with tokens: "too much args", wrapping ErrUsage. */
    | TooMuchArgs
    /** A group given no token to route on, wrapping ErrUsage. */
    | NoSubcommands
    /** A group whose first leftover names no child, wrapping ErrUsage. */
    | UnknownSubcommand(name: string)
    /** `fmt.Errorf("%w: %s", cause, token)`. */
    | AtToken(cause: Error, token: string)
    /** Construction-time: a field type with no translator. */
    | UnsupportedType
    /** Construction-time: the duplicate-flag-name error of the parser. */
    | DuplicateName
    /** Construction-time: a subcommand name registered twice. */
    | SubcommandConflict(name: string)
    /** An error made outside the engine (a task, a template parser, a custom
        setter), with the sentinels it wraps. */
    | Foreign(message: string, wraps: set<Sentinel>)

  /** `errors.Is(e, s)`. */
  predicate Is(e: Error, s: Sentinel) {
    match e
    case NotBool(_) => Below(ErrPushBack, s)
    case NotParsable(_, _) => Below(ErrParse, s)
    case ValueMissing(_) => Below(ErrValueRequired, s)
    case TooFewArgs => Below(ErrNotEnoughArgs, s)
    case TooMuchArgs => s == ErrUsage
    case NoSubcommands => s == ErrUsage
    case UnknownSubcommand(_) => s == ErrUsage
    case AtToken(cause, _) => Is(cause, s)
    case UnsupportedType => false
    case DuplicateName => false
    case SubcommandConflict(_) => false
    case Foreign(_, wraps) => exists w :: w in wraps && Below(w, s)
  }

  /** `Below` is a partial order. */
  lemma BelowOrder(a: Sentinel, b: Sentinel, c: Sentinel)
    ensures Below(a, a)
    ensures Below(a, b) && Below(b, c) ==> Below(a, c)
    ensures Below(a, b) && Below(b, a) ==> a == b
  {
  }

  /** An error that is one sentinel is every sentinel above it, however
      deeply it has been wrapped with tokens. */
  lemma {:induction false} IsUpward(e: Error, a: Sentinel, b: Sentinel)
    requires Is(e, a) && Below(a, b)
    ensures Is(e, b)
  {
    match e
    case AtToken(cause, _) => IsUpward(cause, a, b);
    case Foreign(_, wraps) =>
      var w :| w in wraps && Below(w, a);
      BelowOrder(w, a, b);
    case _ =>
  }

  /** Wrapping with a token never changes what an error is. */
  lemma {:induction false} AtTokenKeepsIdentity(e: Error, token: string, s: Sentinel)
    ensures Is(AtToken(e, token), s) <==> Is(e, s)
  {
  }

  /** Every error the resolution engine raises during parsing or routing is
      a usage error. */
  predicate FromResolution(e: Error) {
    match e
    case NotBool(_) => true
    case NotParsable(_, _) => true
    case ValueMissing(_) => true
    case TooFewArgs => true
    case TooMuchArgs => true
    case NoSubcommands => true
    case UnknownSubcommand(_) => true
    case AtToken(cause, _) => FromResolution(cause)
    case _ => false
  }

  lemma {:induction false} ResolutionErrorsAreUsage(e: Error)
    requires FromResolution(e)
    ensures Is(e, ErrUsage)
  {
    if e.AtToken? {
      ResolutionErrorsAreUsage(e.cause);
    }
  }
}
