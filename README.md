# Enumerated command-line flags, modelled in Dafny

This project models the `flagenum` package of the `m4gshm/flag` Go
repository. The package adds "enumerated" flags to Go's `flag` package: a
flag whose values must come from a caller-supplied allow-list. The allow-list
may be empty, which means any value is accepted. The package detects
duplicates and validates defaults when the flag is registered.

There are two kinds of flag:

- a **multiple** flag collects one value per occurrence on the command line.
  Repeated values are rejected. The first occurrence replaces the defaults.
- a **single** flag keeps the value of its last valid occurrence.

The model follows the one source file, `flagenum/flagenum.go`, part by part:

| module | file | what it holds |
|---|---|---|
| `FlagErrors` | `errors.dfy` | the three errors the package builds with `fmt.Errorf` and their exact texts |
| `Text` | `text.dfy` | `joinToString` (a loop over a string builder) and `getSuffix`; a reference comma join and its inverse `Split` |
| `Validation` | `validation.dfy` | `populateUniques`, `getUniques` (a loop filling a set), `checkAllowed`, `checkDefault` |
| `Holders` | `holders.dfy` | the holder classes `MultipleValues` and `SingleValue` with `Set`/`Values`/`String`; pure step functions that specify each `Set`; lemmas about runs of `Set` calls |
| `Registration` | `registration.dfy` | `Multiple` and `Single`: validate the static inputs in the source's order, then build the holder and the usage text |
| `Scenarios` | `scenarios.dfy` | the cases of `test/multple_test.go` and `test/single_test.go`, replayed as verified client code |

The value type `V` is a type parameter with equality. The converters
`toVConv`/`toStrConv` are function parameters `toV: string -> V` and
`toStr: V -> string`. Go's `map[V]struct{}` sets are `set<V>`. Go's `error`
results are `Option<FlagError<V>>`.

Each holder is a class whose fields are the Go struct's fields. Its `Set`
method changes them in the same steps as the Go code. Its contract ties the
new fields and the returned error to a pure step function (`MultipleStep`,
`SingleStep`). Lemmas about folds of those step functions (`MultipleRun`,
`SingleRun`) say what a whole command line does to a holder.

Behaviour of the code that a reader might not expect, kept by the model:

- `multipleValues.Set` clears the defaults before it validates anything. A
  rejected first occurrence therefore still leaves the values empty, while
  `Values()`/`String()` fall back to the defaults. A rejected `Set` therefore
  does change the holder.
- `Set` records a value as seen before it checks the allow-list. A rejected
  value therefore blocks every later attempt with a duplicate error
  (`Holders.RejectedValueBlocksRetry`).
- `getSuffix` returns `" "` when the allow-list is empty and the usage is not.
- `joinToString` writes a comma only when the builder is non-empty. An
  element that renders as `""` at the front adds neither text nor a comma
  (`Text.LeadingEmptyRenderingDropped`). One at the end leaves a trailing
  comma. When no rendering is empty, the text is the usual comma join
  (`Text.JoinedIsCommaJoin`), and cutting it at commas gives back the
  renderings (`Text.JoinedRoundTrip`).
- `Single` checks the default only when it differs from `V`'s zero value, so
  a zero default passes even a non-empty allow-list. Go's zero value is the
  explicit parameter `zero` of `Registration.Single`.

## Model

| member | source | states |
|---|---|---|
| `FlagErrors.Message` | flagenum/flagenum.go:149-174 | the three message formats: `duplicated <kind >value "<v>" for flag -<name>`, `must be one of <csv>`, `unexpected default value "<v>" for flag -<name>: <cause>`; the invalid-default text ends with its cause's text |
| `FlagErrors.DuplicatedKindInserted` | flagenum/flagenum.go:170-173 | a duplicate message with a kind word is the plain message with the word and one space inserted after `duplicated `; with an empty kind there is no double space |
| `Text.JoinToString` | flagenum/flagenum.go:138-147 | the builder loop returns the renderings joined in order, with a comma before each one written while the builder is non-empty |
| `Text.JoinedIsCommaJoin` | flagenum/flagenum.go:138-147 | when no rendering is empty, joinToString's text equals the usual comma join and is non-empty for a non-empty input |
| `Text.JoinedRoundTrip` | flagenum/flagenum.go:138-147 | for non-empty, comma-free renderings, splitting the joined text at commas gives back the renderings in order |
| `Text.LeadingEmptyRenderingDropped` | flagenum/flagenum.go:140-144 | a leading rendering `""` contributes neither text nor a separator |
| `Text.GetSuffix` | flagenum/flagenum.go:117-126 | the suffix starts with a space iff the usage is non-empty; it is empty iff both usage and allow-list are; an empty allow-list gives at most one space; otherwise it ends with `)` |
| `Text.SuffixListsAllowed` | flagenum/flagenum.go:117-126 | with a non-empty allow-list the suffix is `[ ](allowed <count> <csv>)` and the csv splits back into the allowed values' renderings, in order |
| `Validation.PopulateUniques` | flagenum/flagenum.go:165-174 | the value is in the returned set afterwards; the call fails iff the value was already there, with the duplicate error carrying kind, value and flag name |
| `Validation.GetUniques` | flagenum/flagenum.go:128-136 | fails iff the input has a repeated element; the error names the first element equal to an earlier one and the set returned with it holds exactly the elements before it; on success the set is exactly the input's elements |
| `Validation.CheckAllowed` | flagenum/flagenum.go:156-163 | succeeds iff the allow-list is empty or the value is in the precomputed set (iff in the list when the set was built from it); the error lists the allow-list joined in its original order |
| `Validation.CheckDefault` | flagenum/flagenum.go:149-154 | succeeds iff checkAllowed does; otherwise the invalid-default error naming value and flag wraps checkAllowed's error |
| `Holders.MultipleStep` | flagenum/flagenum.go:201-215 | one `Set`: defaults are cleared; the value is recorded as seen whatever the outcome; a value seen before gives the duplicate error (empty kind); an unseen value outside a non-empty allow-list gives the allow-list error; otherwise the value is appended to the kept values |
| `Holders.MultipleRunOutcome` | flagenum/flagenum.go:201-215 | a non-empty series of `Set` calls succeeds iff its values are distinct, unseen and permitted; the values are then the kept values followed by the series, and all of them are recorded |
| `Holders.DefaultsReplaced` | flagenum/flagenum.go:201-205 | from a freshly registered holder, a non-empty series succeeds iff distinct and permitted, and then the values equal the series: defaults are replaced, not merged |
| `Holders.MultipleRunStopsAtRepeat` | flagenum/flagenum.go:207-209 | a series that is admissible up to position j stops at j with the duplicate error naming the value at j when that value was seen before |
| `Holders.RepeatedOccurrenceRejected` | flagenum/flagenum.go:207-209 | from a fresh holder, a series of permitted values with a repeat fails with the duplicate error naming the first repeated value |
| `Holders.RejectedValueBlocksRetry` | flagenum/flagenum.go:207-211 | after any `Set` of a value, accepted or rejected, a second `Set` of it fails as a duplicate |
| `Holders.SingleStep` | flagenum/flagenum.go:248-255 | one `Set` succeeds iff the allow-list admits the value; on success the value is stored, on failure the stored value is unchanged and the error lists the allow-list |
| `Holders.SingleLastWins` | flagenum/flagenum.go:248-255 | a non-empty series succeeds iff every value is permitted, repeats included (no duplicate tracking), and leaves the last value stored |
| `Holders.MultipleValues.constructor` | flagenum/flagenum.go:90-93 | the holder starts with values equal to the defaults, nothing seen, defaults not cleared |
| `Holders.MultipleValues.Set` | flagenum/flagenum.go:201-215 | the new fields and the error are exactly `MultipleStep` of the old fields and the converted text; the holder invariant (distinct, permitted values; values recorded once cleared) is kept |
| `Holders.MultipleValues.Values` | flagenum/flagenum.go:221-226 | the current values when there are any, the defaults otherwise, so the defaults before the first `Set` |
| `Holders.MultipleValues.String` | flagenum/flagenum.go:192-199 | the joined rendering of the current values, or of the defaults while the values are empty |
| `Holders.SingleValue.constructor` | flagenum/flagenum.go:112 | the holder stores the default value, which is permitted unless it is the zero value |
| `Holders.SingleValue.Set` | flagenum/flagenum.go:248-255 | the new stored value and the error are exactly `SingleStep` of the old value and the converted text |
| `Holders.SingleValue.Value` | flagenum/flagenum.go:261-263 | the stored value itself, where Go returns its address; on a valid holder it is the zero value or permitted by the allow-list |
| `Holders.SingleValue.String` | flagenum/flagenum.go:239-246 | the stored value rendered by the converter |
| `Registration.Multiple` | flagenum/flagenum.go:74-96 | fails first on a repeated allowed value, then on a repeated default, then on the first default outside a non-empty allow-list, each with its error; succeeds iff none applies, returning a fresh valid holder whose values are the defaults and the usage text `usage + getSuffix(usage, "any of", ...)` |
| `Registration.Single` | flagenum/flagenum.go:101-115 | fails on a repeated allowed value, then on a non-zero default outside a non-empty allow-list; succeeds iff neither applies, so a zero default always passes; the fresh holder stores the default and the usage text uses "one of" |

## Left out

- Binding into the host registry: `flag.FlagSet.Var` (flagenum/flagenum.go:94, 113) and Go's parse loop. The registration methods return the holder and the usage text instead. The host's `invalid value "<in>" for flag -<name>: ...` wrapping and its `(default ...)` rendering are host behaviour.
- The global `CommandLine`, `New`, the `FlagSetExtension` wrappers `MultipleStrings`/`SingleString` that panic on error, and `strAsIs` (flagenum/flagenum.go:12-64). They form a convenience layer over process-wide state. The scenarios use their own identity converter.
- `Get()` on both holders (flagenum/flagenum.go:217-219, 257-259): it only boxes `Values()`/`Value()` as `any`.
- `SingleValue.Value` returns the stored value rather than its address. Aliasing through the returned pointers is not modelled. Neither are the slices the holders share with the caller: the defaults (flagenum/flagenum.go:92) and the allow-list (flagenum/flagenum.go:91, 112). Sequences are values here. In Go, a caller who later changes the allow-list slice changes the text of the allow-list error, because that text joins the live slice. The set `allowedUniques` does not change: it was built once, at registration.
- Nil converters and nil slices: the converters are total functions, so the nil guards in `String()` (flagenum/flagenum.go:195, 242) always pass. A nil slice and an empty slice are the same empty sequence.
- Go's `%v` formatting: `FlagErrors.Message` takes a caller-supplied rendering `show`.
- The `cmp.Ordered` constraint and map hashing: only equality and membership are used.
- Equality on `V` is assumed reflexive. So Go's behaviour for a float NaN is not modelled. NaN is never equal to itself and never found as a map key (flagenum/flagenum.go:158, 166). In Go, a NaN argument is therefore never reported as a duplicate, and a NaN is rejected even by an allow-list that contains NaN. `Holders.RepeatedOccurrenceRejected` and `Holders.MultipleRunOutcome` hold only for types whose equality is reflexive.
- `MultipleVar`, which the tests call but which `flagenum.go` does not define, and the example programs under `internal/example/`.
- Scenarios check the exact message text only for the short messages. For the longer test messages they check the error's fields, whose text follows from `FlagErrors.Message`.
