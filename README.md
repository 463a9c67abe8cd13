# flarc token resolution, modelled in Dafny

flarc is a Go library for command-line programs. The program describes its
flags as a struct, its positional arguments as a list of slots, and its
commands as a tree of leaf commands and command groups. This project models
the engine that turns a list of command-line tokens into a result:

- the flag pass of `Parse`, which hands each flag its value, and the
  allocation pass, which deals the remaining tokens to the positional slots;
- the flag binding: declaring a flag from a struct field, matching names and
  aliases, translating texts into values, the bare-flag `Found` action, and
  storing values through pointer and slice layers;
- the slot usage text and the kebab-case derivation of flag names;
- dispatch: a leaf command refuses left-over tokens, a group routes on the
  first left-over token, and `Run` decides the exit status, with a `--help`
  pre-pass.

One module per source file:

| module | file | source |
|---|---|---|
| `Text` | text.dfy | ASCII lower-casing, `strings.Cut`, `strings.Split`, decimal text |
| `Errors` | errors.dfy | the error values and `errors.Is` over the sentinel hierarchy |
| `Kebab` | kebab.dfy | utils/strings.go |
| `Translators` | translators.dfy | params/internal/flags/translators.go |
| `Flags` | flag.dfy | params/internal/flags/flag.go |
| `Args` | args.dfy | params/internal/args/args.go |
| `Parser` | parser.dfy | parser/parser.go |
| `Dispatch` | command.dfy | comamnd.go and comamnd_group.go |
| `Flarc` | flarc.dfy | flarc.go |

The error sentinels form a hierarchy:

- `ErrPushBack` is below `ErrParse`, which is below `ErrUsage`;
- `ErrValueRequired` and `ErrNotEnoughArgs` are below `ErrUsage`.

`Errors.Is` answers `errors.Is` for every error the engine builds, through
any number of `"%w: token"` wrappings. The package that defines `ErrUsage`
is not part of this model. Its one sentinel is the top of the hierarchy.

Several operations have two forms:

- a reference definition, written as a function: `ScanSpec` and `Alloc` for
  the two passes of `Parse`, `Prepare` for a prepared command, `RunSpec` for
  a run, and `Shape` for a flag's destination;
- the operation as the source performs it, step by step, written as a
  method or a class: the `Parser` class with `Parse`, `Step`, `Give`, `Deal`
  and `Allocate`; `FlagBinding` with `Set` and `Found`; `GroupOptions`;
  `RunConfig`; `Run`.

Each method is proved equal to its reference definition. The properties the
source promises are proved about the reference definitions.

Go's reflection is replaced by an explicit description of each struct field
(`Flags.Field`):

- its name;
- its tags;
- its type, as pointer and slice layers around an element type, or one of
  the two custom setter kinds;
- its default value.

Go measures strings in bytes. Where the source tests a length (`seemsFlag`,
`hypen`, `Usage`), the model counts the bytes of the UTF-8 encoding
(`Text.ByteLen`, after section 3 of RFC 3629), so a single non-ASCII letter
is two bytes or more.

## Model

| member | source | states |
|---|---|---|
| Text.Cut | parser/parser.go:102 | the cut is found exactly when the separator occurs; the part before holds no separator; before, separator and after rebuild the token; without a separator the whole token is the part before |
| Text.SplitJoin | params/internal/flags/flag.go:180 | joining the pieces of a split with the separator gives back the text |
| Text.JoinSplit | params/internal/flags/flag.go:180 | pieces without the separator are recovered by splitting their join |
| Text.LowerAll | params/internal/flags/translators.go:22 | `strings.ToLower` on ASCII text: the result has no capital left, text without capitals comes back unchanged, and each character is lowered in its own place |
| Text.NatToStringRoundTrip | params/internal/flags/flag.go:259 | the decimal text of a number reads back as that number |
| Errors.IsUpward | params/internal/flags/translators.go:12-19 | an error that is one sentinel is every sentinel above it, however deeply wrapped |
| Errors.BelowOrder | params/internal/flags/translators.go:12-19 | a sanity check of the wrapping order: reflexive, transitive and antisymmetric |
| Errors.AtTokenKeepsIdentity | parser/parser.go:119-132 | wrapping an error with a token never changes which sentinels it is |
| Errors.ResolutionErrorsAreUsage | parser/parser.go:220 | every error the engine raises while parsing or routing is a usage error |
| Args.UsageRoundTrip | params/internal/args/args.go:58-67 | for a non-empty name without brackets, the name, whether the slot is required and whether it repeats can all be read back from the usage text |
| Args.UsageOfPlainSlot | params/internal/args/args.go:58-67 | a required slot that does not repeat shows its bare name |
| Args.Usage | params/internal/args/args.go:58-67 | a required slot's usage starts with its name, an optional one's is the same text in brackets; a repeatable slot's name is followed by `[, ...]` |
| Kebab.UpperRun | utils/strings.go:8 | the length of the maximal run of capitals at the front |
| Kebab.RenderRun | utils/strings.go:11-17 | a replaced run starts with `-` and is longer than the run |
| Kebab.ReplaceRunsRun | utils/strings.go:11-16 | a maximal run of capitals is replaced as one unit |
| Kebab.ReplaceRunsWord | utils/strings.go:11-16 | a capital followed by lower-case text becomes `-` and the word in lower case |
| Kebab.ReplaceRunsLower | utils/strings.go:11-17 | the replacement leaves no capital and never shortens |
| Kebab.ReplaceRunsIdentity | utils/strings.go:11-17 | text without capitals passes through the replacement unchanged |
| Kebab.KebabHasNoUpper | utils/strings.go:10-21 | a derived name has no upper-case ASCII letter |
| Kebab.ToKebab | utils/strings.go:10-21 | the derived name has no upper-case ASCII letter |
| Kebab.KebabIdentity | utils/strings.go:18-21 | a name without capitals that does not start with `-` is returned unchanged |
| Kebab.KebabUndash | utils/strings.go:10-21 | apart from the dashes, the derived name is the input in lower case |
| Kebab.KebabWords | utils/strings.go:10-21 | capitalised words become their lower-case forms joined by `-` |
| Kebab.KebabExampleCamel | utils/strings_test.go:23-26 | `CamelCaseString` becomes `camel-case-string` |
| Kebab.KebabAcronym | utils/strings.go:13-15 | an acronym before a word is closed off before the word's capital |
| Kebab.KebabExampleAcronym | utils/strings_test.go:33-36 | `receivedHTTPMethod` becomes `received-http-method` |
| Translators.ReadBoolWords | params/internal/flags/translators.go:21-30 | a bool text is accepted exactly when its lower-cased form is one of `true on yes 1 false off no 0`; it reads as true exactly for the first four |
| Translators.ReadBool | params/internal/flags/translators.go:21-30 | an accepted text reads as a bool; a refused one fails with "is not bool" for that text, a push-back |
| Translators.ReadBoolIgnoresCase | params/internal/flags/translators.go:22 | texts equal after lower-casing read alike |
| Translators.ReadBoolFormatBool | params/internal/flags/flag.go:239-248 | the bool metavar text reads back as the same value |
| Translators.TranslatorFailures | params/internal/flags/translators.go:19-72 | a bool refusal is a push-back; int, uint and opaque refusals are parse errors and never push-backs |
| Translators.ParseInt64 | params/internal/flags/translators.go:33 | an accepted value lies in the signed 64-bit range |
| Translators.ParseUint64 | params/internal/flags/translators.go:41 | an accepted value lies in the unsigned 64-bit range |
| Translators.WrapSigned | params/internal/flags/translators.go:35 | the conversion to a signed type of `bits` bits lands in that type's range and differs from the value by a multiple of 2^bits: the low bits are kept, read in two's complement |
| Translators.WrapUnsigned | params/internal/flags/translators.go:43 | the conversion to an unsigned type of `bits` bits lands below 2^bits and differs from the value by a multiple of 2^bits: the low bits are kept |
| Translators.WrapSignedFits | params/internal/flags/translators.go:35 | the conversion keeps a value that already fits |
| Translators.ParseInt64OfFormat | params/internal/flags/translators.go:33 | the decimal text of any 64-bit value parses back to it |
| Translators.ReadIntOfFormat | params/internal/flags/translators.go:32-38 | an int flag reads the text of a 64-bit value as that value cut to its width, and as the value itself when it fits |
| Translators.ReadUintOfFormat | params/internal/flags/translators.go:40-46 | a uint flag reads the text of any value of its width as that value |
| Translators.ReadUintRejectsSigns | params/internal/flags/translators.go:40-46 | an unsigned flag refuses any sign, `-3` and `+3` alike |
| Translators.ReadIntPlus | params/internal/flags/translators.go:32-38 | a signed flag accepts an explicit `+` |
| Translators.ReadInt | params/internal/flags/translators.go:32-38 | succeeds exactly when `strconv.ParseInt` does; the value then fits the width and keeps the parsed value's low bits; a refusal is a parse error, never a push-back |
| Translators.ReadUint | params/internal/flags/translators.go:40-46 | succeeds exactly when `strconv.ParseUint` does; the value then fits the width and keeps the parsed value's low bits; a refusal is a parse error, never a push-back |
| Translators.ReadOpaque | params/internal/flags/translators.go:48-72 | succeeds exactly when the runtime parser accepts the text, keeping the text and its kind; a refusal is a parse error, never a push-back |
| Translators.ParseInt64Bounds | params/internal/flags/translators.go:33 | one past either 64-bit bound is refused |
| Translators.NarrowTruncation | params/internal/flags/translators.go:35 | `200` in an `int8` flag is `-56`; `300` in a `uint8` flag is `44` |
| Flags.DeclareFailsIff | params/internal/flags/flag.go:172-496 | declaring fails exactly for a typed field whose element type has no translator, with "unsupported type", which is no usage error; custom setters are always accepted |
| Flags.DeclareNames | params/internal/flags/flag.go:174-181 | without a `flag` tag the name is the kebab-case field name, which has no capital; the aliases joined with commas give back the `alias` tag; without that tag there are no aliases |
| Flags.DeclareTypedDefault | params/internal/flags/flag.go:220-254 | a typed field without a `metavar` tag gets its element's translator and shows its default's text |
| Flags.Declare | params/internal/flags/flag.go:172-217 | fails only with "unsupported type"; a declared flag keeps the `help` tag and a non-empty `metavar` tag, is a custom setter exactly for the two setter field kinds, and writes through the field's layers |
| Flags.Translate | params/internal/flags/flag.go:190-217 | a custom setter succeeds exactly when its call returns nil, storing nothing of its own, and otherwise fails with the call's error; a string flag accepts every text; only a bool flag's refusal is a push-back |
| Flags.FuncTranslateAsWritten | params/internal/flags/flag.go:197-204 | the `func(string) error` translator as written: defined only where the call fails, and then fails with the call's error |
| Flags.FuncSetterNilError | params/internal/flags/flag.go:197-204 | where the setter accepts its text the as-written translator is outside its domain and `Translate` succeeds; where it fails the two agree |
| Flags.FoundAction | params/internal/flags/flag.go:144-154 | a bare flag succeeds exactly when it is a bool flag, storing true; every failure is ErrValueRequired, never a parse error |
| Flags.DefaultMetavarReadsBack | params/internal/flags/flag.go:184-271 | giving the shown metavar back to the flag stores the default again |
| Flags.RenderReadsBack | params/internal/flags/flag.go:239-271 | the text of a value that fits its element type translates back to the value |
| Flags.Hyphen | params/internal/flags/flag.go:104-109 | the dashed form starts with `-`, is longer than the name and ends with it |
| Flags.Name | params/internal/flags/flag.go:111-113 | the dashed name starts with `-` and ends with the bare name |
| Flags.Usage | params/internal/flags/flag.go:89-102 | the usage starts with the dashed name; it is the dashed name alone exactly when there is no metavar, and otherwise continues with `=` and the metavar |
| Flags.Aliases | params/internal/flags/flag.go:115-121 | one dashed alias per declared alias, in order: the i-th is `hypen` of the i-th alias |
| Flags.HyphenForms | params/internal/flags/flag.go:104-109 | a name one byte long (one ASCII letter, as Go's `len` counts) gets one dash; every other name, a single non-ASCII letter included, gets two |
| Flags.HyphenInjective | params/internal/flags/flag.go:104-121 | distinct names have distinct dashed forms |
| Flags.MatchIffDashed | params/internal/flags/flag.go:123-133 | a flag matches a bare name exactly when the dashed name is its `Name()` or one of its `Alias()`es |
| Flags.UsageCut | params/internal/flags/flag.go:89-102 | cutting the usage at its first `=` gives the dashed name and the metavar, and the `=` is there only when the metavar is not empty |
| Flags.FoundOutcomes | params/internal/flags/flag.go:144-154 | a bare flag succeeds only when it is a bool flag, and then stores true; every other kind fails with ErrValueRequired, never a push-back |
| Flags.PushBackOnlyFromBool | params/internal/flags/flag.go:135-142 | no built-in translator except the bool one asks for a push-back |
| Flags.WrapShape | params/internal/flags/flag.go:41-76 | one store through the layers leaves the slices and the field that the stored values so far describe |
| Flags.SliceCollects | params/internal/flags/flag.go:59-67 | a slice field holds every stored value in order, and the default slice is dropped |
| Flags.LastWins | params/internal/flags/flag.go:50-58 | a plain field, or a pointer to one, holds the last stored value |
| Flags.FlagBinding.constructor | params/internal/flags/flag.go:78-87 | a new binding has its default and no stores |
| Flags.FlagBinding.Set | params/internal/flags/flag.go:135-142 | returns the translator's error and leaves the field alone, or stores the translated value exactly once; a custom setter's effect is not recorded |
| Flags.FlagBinding.Found | params/internal/flags/flag.go:144-154 | returns the action's error and leaves the field alone, or stores the action's value |
| Flags.FlagBinding.Store | params/internal/flags/flag.go:73-75 | the stored value is added to the history, and the field keeps the shape that history describes |
| Flags.Wrap | params/internal/flags/flag.go:41-76 | one store keeps one slice per slice layer (its shape is `Flags.WrapShape`) |
| Flags.Shape | params/internal/flags/flag.go:41-76 | through a slice layer the field is a list of every stored value's shape, one per store; through a pointer it is a pointer; with no layer it is the plain value |
| Flags.DestAfter | params/internal/flags/flag.go:41-76 | the field keeps its default until the first store; a plain field then holds the last value, a slice field one item per store |
| Parser.SeemsFlagAsWritten | parser/parser.go:203-218 | with lengths counted in UTF-8 bytes as Go's `len` does, a recognised name is non-empty, does not start with `-`, and dashed again gives back the token |
| Parser.SeemsFlag | parser/parser.go:203-218 | the same, in bytes, and defined on every text: tokens shorter than two characters, `-` included, are not flags |
| Parser.SeemsFlagAgrees | parser/parser.go:203-218 | on every token but `-`, the corrected check and the check as written give the same answer |
| Parser.SeemsFlagOutsideDomain | parser/parser.go:102-103 | a token `-` or one starting with `-=` hands `-` to `seemsFlag` |
| Parser.SeemsFlagIff | parser/parser.go:203-218 | a token is flag-shaped exactly when it is the dashed form of a non-empty name that does not start with `-` |
| Parser.SeemsFlagCountsBytes | parser/parser.go:203-218 | lengths are bytes: `-é` (three bytes) is an ordinary token, `--é` is the flag `é`, and the name `é` is shown as `--é` |
| Parser.FirstMatchFrom | parser/parser.go:109-113 | the first flag that answers to the name, or none answers |
| Parser.MatchToken | parser/parser.go:102-113 | a match names one of the declared flags |
| Parser.ScanKeepsUnmatched | parser/parser.go:103-139 | tokens that name no flag are kept with their full text, in order, and store nothing |
| Parser.ScanEndMarker | parser/parser.go:95-100 | `--` is dropped and every later token is kept verbatim, even a flag-shaped one |
| Parser.ScanWithoutFlags | parser/parser.go:92-140 | without flags, every token but the first `--` is kept |
| Parser.ScanKeptFromArgs | parser/parser.go:92-140 | the kept tokens come from the arguments: none is invented or kept twice |
| Parser.ScanBounds | parser/parser.go:92-140 | the flag pass makes at most one store per token and keeps no more tokens than it was given |
| Parser.ScanFlagBounds | parser/parser.go:114-136 | from a flag token the pass keeps fewer tokens than it was given: the flag token is never kept |
| Parser.ScanErrorsAreUsage | parser/parser.go:115-133 | without custom setters, every error of the flag pass is a usage error |
| Parser.ScanErrorsTagged | parser/parser.go:119-132 | every error of the flag pass comes wrapped with a token |
| Parser.ScanBoolPushBack | parser/parser.go:129-134 | `-b unknown`: the bool flag stores true and `unknown` is read again as an ordinary token |
| Parser.ScanBoolInline | parser/parser.go:126-130 | `-b=unknown` stops the pass with the bool refusal |
| Parser.ScanTakesNext | parser/parser.go:123-127 | a next token the translator accepts is the value, even a flag-shaped one like `-3` |
| Dispatch.FlagThenValue | parser/parser.go:123-127 | a flag token followed by a value its translator accepts makes one store and keeps nothing |
| Parser.ScanRefusesNext | parser/parser.go:129-130 | a refusal that is not a push-back stops the pass |
| Parser.ScanLastFlag | parser/parser.go:115-121 | a flag as the last token: a bool flag stores true, any other flag fails with ErrValueRequired |
| Parser.ScanPushBackFoundFails | parser/parser.go:131-132 | after a push-back whose `Found` fails, the reported error is the translator's, not the `Found` error; only a custom setter gets there |
| Parser.ParseTooFewIff | parser/parser.go:196-198 | a parse fails with ErrNotEnoughArgs exactly when the flag pass succeeds, there are slots, and fewer tokens are kept than there are required slots |
| Parser.ParseSuccessShape | parser/parser.go:142-200 | without slots: an empty map and every kept token left over; with slots: every slot name is a key, and the slots' tokens followed by the left-over ones are the kept tokens |
| Parser.ParseOutcome | parser/parser.go:89-201 | a parse succeeds only when the flag pass does (its other outcomes are `Parser.ParseTooFewIff` and `Parser.ParseSuccessShape`) |
| Parser.ParseBounds | parser/parser.go:89-201 | a parse never leaves over more tokens than it was given |
| Parser.Settle | parser/parser.go:142-200 | the allocation fails exactly when there are slots and fewer kept tokens than required slots, and then with ErrNotEnoughArgs; otherwise no more tokens are left over than were kept |
| Parser.ExtendTwice | parser/parser.go:93-140 | the histories after two stretches of the flag pass are those after both stretches in one: stores are only ever appended, in order |
| Parser.ExtendNone | parser/parser.go:93-140 | a stretch of the flag pass that stores nothing leaves every history as it was |
| Parser.CountRequired | parser/parser.go:147-154 | the number of required slots, at most the number of slots |
| Parser.Take | parser/parser.go:159-194 | the first slot never takes more tokens than there are |
| Parser.Alloc | parser/parser.go:155-200 | one token list per slot |
| Parser.AllocConserves | parser/parser.go:159-194 | no token is lost, duplicated or reordered: the slots' tokens in slot order, then the left-over tokens, are the kept tokens |
| Parser.AllocSatisfiedIff | parser/parser.go:196-198 | every required slot gets a token exactly when there are at least as many kept tokens as required slots |
| Parser.AllocSingle | parser/parser.go:190-193 | a slot that does not repeat gets at most one token |
| Parser.AllocScarce | parser/parser.go:165-182 | while tokens are scarce, optional slots get nothing, no slot gets more than one token, and nothing is left over |
| Parser.AllocRemainder | parser/parser.go:184-194 | tokens are left over only without a repeatable slot, and then exactly those beyond one per slot |
| Parser.DealsSmall | parser/parser.go:165-194 | the allocation of one or two tokens to one or two slots |
| Parser.AllocExamplesScarce | parser/parser_test.go:365-505 | test cases #1 to #3: required slots are served before an optional one |
| Parser.AllocExampleRepeatFirst | parser/parser_test.go:506-555 | test case #4: a repeatable first slot leaves one token for the required slot after it |
| Parser.AllocExampleRepeatMiddle | parser/parser_test.go:556-605 | test case #5: a repeatable middle slot takes all tokens the other slots do not need |
| Parser.AllocExampleRepeatLast | parser/parser_test.go:606-651 | test case #6: a repeatable optional last slot takes the surplus |
| Parser.AllocLeftover | parser/parser.go:184-194 | with no repeatable slot, the extra tokens are left over in order |
| Parser.AllocGreedy | parser/parser.go:184-194 | the first of two repeatable optional slots takes everything |
| Parser.ToMapSlots | parser/parser.go:148-151 | every slot name is a key; with distinct names each maps to its slot's tokens |
| Parser.DeclareAll | parser/parser.go:44-57 | one flag per field when it succeeds |
| Parser.DeclareAllIff | parser/parser.go:44-57 | building succeeds exactly when each field can be declared, and then gives each field's flag in order |
| Parser.DeclareAllFailure | parser/parser.go:47-54 | as written, the only failure is an unsupported field type: the duplicate-name error is never raised |
| Parser.DeclareAllFirst | parser/parser.go:47-50 | the first field that cannot be declared gives the error |
| Parser.DeclareUnique | parser/parser.go:44-57 | the flag loop with its duplicate-name check working: one flag per field when it succeeds |
| Parser.DeclareUniqueIff | parser/parser.go:44-57 | the working check succeeds exactly when every field can be declared and no two flags share a dashed name, and then gives the same flags as the check as written |
| Parser.DeclareUniqueFailure | parser/parser.go:47-54 | the working check fails only with an unsupported field type or a duplicate name |
| Parser.DeclareUniqueEach | parser/parser.go:44-57 | fields that each declare a flag, under distinct names, give exactly those flags |
| Parser.DeclareUniqueFirst | parser/parser.go:47-54 | after a prefix of fields accepted under distinct names, the first field refused (unsupported, or a name taken before it) gives the error |
| Parser.DuplicateNamesAccepted | parser/parser.go:52-54 | as written, two fields that declare the same dashed name are both accepted; the working check refuses them with the duplicate-name error |
| Parser.SynopsisSplits | parser/parser.go:68-79 | when no usage contains a space, splitting the usage line at spaces gives each flag's usage and then each slot's |
| Parser.Spaced | parser/parser.go:78 | `strings.Join` with a space: empty for no items, otherwise starting with the first item |
| Parser.Parser.constructor | parser/parser.go:38-41 | a parser over the given bindings and slots |
| Parser.Parser.String | parser/parser.go:68-79 | the usage line of the flags and then the slots |
| Parser.Parser.Parse | parser/parser.go:89-201 | the result is the reference parse, and each flag's field receives the stores of the flag pass, even when the parse then fails |
| Parser.Parser.Step | parser/parser.go:93-140 | one round of the flag pass agrees with the reference pass and moves forward |
| Parser.Parser.Find | parser/parser.go:109-113 | the first flag that answers to the name, in declaration order |
| Parser.Parser.Flagged | parser/parser.go:114-134 | a token that names a flag is handled as the reference pass says, and every flag's history grows by exactly what it records |
| Parser.Parser.Give | parser/parser.go:114-136 | a flag token gets its value or its `Found` action as the reference pass says, and only that flag changes |
| Parser.Parser.GiveNext | parser/parser.go:123-134 | the lookahead: the next token is the value, or it is given back and `Found` runs |
| Parser.Parser.SetValue | parser/parser.go:126 | `Set` on one flag, with its verdict and what it records |
| Parser.Parser.MarkFound | parser/parser.go:118 | `Found` on one flag, with its verdict and what it records |
| Parser.New | parser/parser.go:27-60 | fails exactly when the flag loop as written (`Parser.DeclareAll`) fails, with its error: the first field that cannot be declared; otherwise one fresh flag per field, declared as that loop says, at its default, and the frozen slots. Repeated names are accepted, as the dead check lets them through |
| Parser.Bind | parser/parser.go:46-56 | one turn of the flag loop: the field's declaration error, or the duplicate-name error when its name is among those seen, or a fresh flag declared as `Declare` says, at the field's default, under a new name |
| Parser.Bindings | parser/parser.go:44-57 | the flags bound are the fields' declarations in order; the set of names seen stays empty, so the loop stops only at the first field that cannot be declared, with its error; otherwise one fresh, distinct binding per field at its default |
| Parser.DealingHandover | parser/parser.go:165-170 | when a repeatable slot is closed while tokens are scarce, a next slot exists, so `posargs[0]` is in bounds |
| Parser.DealingEnd | parser/parser.go:159-200 | when the loop stops, the slots hold the reference allocation, and a required slot is empty exactly when the required count is positive |
| Parser.Deal | parser/parser.go:159-194 | one turn of the allocation loop keeps the loop invariant and makes progress |
| Parser.DealScarce | parser/parser.go:165-182 | the turn when tokens are scarce |
| Parser.DealPlenty | parser/parser.go:184-193 | the turn when tokens are to spare |
| Parser.Prepare | parser/parser.go:147-154 | an empty entry per slot name, and the number of required slots |
| Parser.Allocate | parser/parser.go:142-200 | the allocation pass gives the reference allocation, or ErrNotEnoughArgs |
| Dispatch.LeafInvokesIff | comamnd.go:103-143 | the task runs exactly when the parse succeeds and no token is left over |
| Dispatch.LeafRejects | comamnd.go:111-125 | otherwise the run fails with the parse error or with "too much args", a usage error; the help is the command's own in every case |
| Dispatch.LeafCall | comamnd.go:127-141 | the task gets the full name, the params unchanged, every slot name as a key and every kept token dealt to a slot; a flag field that received nothing holds its initial value |
| Dispatch.GroupRoutes | comamnd_group.go:141-157 | the subcommand runs under `fullname name`, with the tokens after the name and the params one longer: the given params and then the group's flags; its help shows the group's flags too |
| Dispatch.GroupRejects | comamnd_group.go:124-164 | otherwise the group fails with its parse error, "no subcommands" or "unknown subcommand", with its own help |
| Dispatch.GroupFlagAfterName | comamnd_group.go:124 | a group flag after the subcommand name is still the group's |
| Dispatch.PrepareErrorsAreUsage | comamnd_group.go:115-165 | a command tree without custom setters fails only with usage errors |
| Dispatch.Prepare | comamnd_group.go:115-165 | the help's full name extends the given name, and equals it for a command; the help ends with the command's own flags; a task that runs gets the given params first and the help's full name |
| Dispatch.CommandOptionsOutcome | comamnd.go:41-48 | the options fail exactly when some description is refused, with the first refusal; otherwise the last description given wins |
| Dispatch.NewCommand | comamnd.go:36-64 | the command is built as the options and the parser say, and a failure of either is returned |
| Dispatch.CommandSpec | comamnd.go:36-64 | building succeeds exactly when the options and every field's declaration do, giving a command with the short text, the task, the frozen slots and one flag per field |
| Dispatch.DeclsFrom | comamnd.go:53-63 | the declarations read back from a parser just built are those `Parser.DeclareAll` gives, each with its field's default; no Go loop corresponds to it, the Go command keeps the parser itself |
| Dispatch.GroupOptions.Describe | comamnd_group.go:65-71 | the description is set when it compiles |
| Dispatch.GroupOptions.Register | comamnd_group.go:73-81 | a name already registered is refused and nothing changes; otherwise the subcommand is added |
| Dispatch.GroupOptionsOutcome | comamnd_group.go:31-39 | the options succeed exactly when every description compiles and no name is registered twice; then the group has exactly the registered names, each with its command |
| Dispatch.GroupOptions.constructor | comamnd_group.go:31-33 | a fresh option record has no description and no subcommands |
| Dispatch.NewCommandGroup | comamnd_group.go:26-56 | the group is built as the options and a parser without slots say |
| Dispatch.GroupSpec | comamnd_group.go:26-56 | building succeeds exactly when the options and every field's declaration do, giving a group with the short text, the flag type and one flag per field |
| Flarc.HelperDeclares | flarc.go:19-25 | the help parser always builds: one bool flag `--help` with alias `-h` |
| Flarc.HelperName | flarc.go:20 | the field `Help` gives the flag name `help` |
| Flarc.HelpTokens | flarc.go:20 | `-h` and `--help` both name the help flag |
| Flarc.RunConfig.constructor | flarc.go:123-130 | the configuration starts from the given defaults |
| Flarc.RunConfig.Apply | flarc.go:55-111 | each option changes its own setting; `WithParams` appends |
| Flarc.ConfigureParams | flarc.go:106-111 | the params of a run are all the lists passed to `WithParams`, in order, after earlier ones |
| Flarc.ConfigureArgs | flarc.go:55-60 | the arguments are those of the last `WithArgs`, or the command line |
| Flarc.Run | flarc.go:122-186 | the exit of a run is the reference outcome for the options applied to the defaults |
| Flarc.HelpFlag | flarc.go:151 | the help field after the pre-pass |
| Flarc.FinishStatus | flarc.go:161-185 | the status is 0, 1 or 2: 0 exactly for help or success, 2 exactly for a usage error, with help; 1 otherwise, without help; help on request means the task does not run |
| Flarc.PrePassFailureIsOne | flarc.go:146-150 | a failing pre-pass exits with 1 although its error is a usage error |
| Flarc.PrePassDropsEndMarker | flarc.go:146-152 | the pre-pass drops the first `--`, so the command never sees it |
| Flarc.HelpShortCircuit | flarc.go:146-168 | `-h` or `--help`, last or followed by a token that is not a bool word, is removed from the arguments; help is shown, the task does not run, and the status is 0 |
| Flarc.HelpPrePass | flarc.go:146-152 | the pre-pass over one help flag removes it and sets the help field |
| Flarc.ResolutionFailureIsTwo | flarc.go:172-181 | a command tree without custom setters that fails to resolve its tokens exits with 2 and shows help |
| Flarc.TaskStatus | flarc.go:170-185 | when the task runs, its error decides: none gives 0, a usage error 2, any other 1 |
| Flarc.RunOutcome | flarc.go:122-186 | every run exits with 0, 1 or 2, and a task that runs gets the configured params first, under a full name that starts with the program name |
| Flarc.FindParam | flarc.go:194-203 | the first param of the type, or none exactly when no param has it |

## Left out

- Help rendering (help/help.go) is not part of this model. A prepared command carries a `Help` record with the full name, the short description, the description text, the flags, the slots and the subcommand names.
- Writing to standard error is not modelled. `Exit` records the message and the help that would be written.
- Text templates are not parsed. `WithDescription` and `WithGroupDescription` take a `compile` parameter that accepts the text or returns the template parser's error.
- `context.Context`, standard input and output, `WithInput` and `WithOutput` are left out. A task is a function of its `Invocation` alone.
- `os.Args` becomes two parameters of `Run`: the program's base name and the arguments after it.
- Reflection is replaced by the explicit `Field` description: name, tags, layers, element type and default.
- Floating point, durations and timestamps are opaque: an `accepts` predicate on the text stands for Go's parser, and a refusal is a parse error.
- Custom setters (`flag.Value` and `func(string) error`) call code outside the engine. They are modelled as fallible calls, with no `Found` action, whose effects are not tracked.
- Lower-casing is ASCII-only. Go's `strings.ToLower` also lower-cases non-ASCII letters; none of the bool words contains one.
- The platform `int` is taken to be 64 bits wide.
- `FindParam` compares the params' dynamic type names. Go's assertion to an interface type also matches any type that implements it; that case is left out.
- Dispatch.LeafCall: a command's flag struct is modelled as starting from the declared defaults on every run. In Go the struct lives in the command, so a second run of the same command starts from what the first left; that case is left out.
- Parser.Parser.Parse: the Go parser hands back a pointer to the flag struct. Here the fields are the parser's bindings, and the result carries the map and the left-over tokens.
- Flarc.HelpShortCircuit: the case where a bool word follows the help flag (`-h false`) is covered by `Parser.ScanTakesNext` and not restated for a whole run.
- Flarc.ResolutionFailureIsTwo and Flarc.TaskStatus are stated for runs with help disabled. Runs with help enabled reach the same decision through `Flarc.FinishStatus`, once the pre-pass succeeds and help is not asked for.
- Flags.FlagBinding.Set: a custom setter's own effect (what its function or `Set` method does to program state) is code outside the engine; the model records only its verdict.

## Findings

| source | as written | input that shows it | evidently intended | confidence | as-written member | corrected member |
|---|---|---|---|---|---|---|
| params/internal/flags/flag.go:199 | the translator built for a `func(string) error` field asserts the call's result to `error` before comparing it with nil; on a nil error `Interface()` gives a nil interface and the assertion panics | a field `func(string) error` whose function returns nil, given as `--f=v` | a nil error means the text was accepted and the flag is set | not executed | Flags.FuncTranslateAsWritten | Flags.Translate |
| parser/parser.go:52 | the duplicate-name check of `New` looks each name up in the set `names`, but nothing ever adds to that set, so the check never fires and two flags may share a name | two fields whose kebab-case names are equal, such as `HTTPPort` and `HttpPort` (`Parser.DuplicateNamesAccepted`) | each declared name is added to `names`, and a second flag of the same name is refused | not executed | Parser.DuplicateNamesAccepted | Parser.DeclareUnique |
| parser/parser.go:210 | `seemsFlag` slices `arg[:2]` after ruling out only `""` and `"--"`, so the one-byte text `-` is out of range and Go panics | the token `-` (as in `cat -`), or any token starting with `-=`: its text before `=` is `-` (`Parser.SeemsFlagOutsideDomain`) | `-` is not flag-shaped and is kept as an ordinary token | not executed | Parser.SeemsFlagAsWritten | Parser.SeemsFlag |
