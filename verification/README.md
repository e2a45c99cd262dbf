# LifeOS utils: text formatting and field validation

A Dafny model of the two pure helpers of the `packages/utils` package:

- `formatText` takes a string and a `FormatOptions` record. It truncates the
  text to `truncate` characters and appends `"..."` when the text is strictly
  longer than the limit. It then lower-cases the text if asked, then
  upper-cases it if asked, in that order.
- `validateRequired` and `validateEmail` check a single field. Each returns a
  `ValidationResult`: an `isValid` flag and an optional list of messages.

Modules follow the source files:

- `Types` (`types.dfy`) holds `FormatOptions`, `ValidationResult` and the
  result-shape predicates, after `packages/utils/types.ts`.
- `CaseMapping` (`case_mapping.dfy`) holds ASCII stand-ins for `toLowerCase` and
  `toUpperCase`.
- `Formatting` (`formatting.dfy`) models `formatText`.
- `Validation` (`validation.dfy`) models `validateRequired` and `validateEmail`.

Modelling choices:

- Strings are `seq<char>`.
- `truncate` is an `Option<nat>`. `None` is an absent option. `Some(0)` is falsy
  in JavaScript and behaves like `None`.
- An absent `lowercase` or `uppercase` flag behaves like `false`, so both are
  `bool`.
- The value given to `validateRequired` is a small JavaScript-value datatype
  with a `Truthy` predicate.
- zod's `z.string().email().safeParse` is a function parameter of
  `ValidateEmail`. It yields success, or failure with a message. Its email
  grammar and message text are not modelled.

## Model

| member | source | states |
|---|---|---|
| CaseMapping.LowerChar | packages/utils/formatting.ts:11 | the result is never an ASCII capital; a character changes exactly when it is an ASCII capital, and then becomes its own small letter (same offset from `a` as from `A`) |
| CaseMapping.UpperChar | packages/utils/formatting.ts:15 | the result is never an ASCII small letter; a character changes exactly when it is an ASCII small letter, and then becomes its own capital (same offset from `A` as from `a`) |
| CaseMapping.CaseRoundTripChar | packages/utils/formatting.ts:10-16 | upper-casing then lower-casing gives back a small letter, and lower-casing then upper-casing gives back a capital |
| CaseMapping.ToLower | packages/utils/formatting.ts:11 | length is kept, each character is lower-cased in place, and no ASCII capital remains |
| CaseMapping.ToUpper | packages/utils/formatting.ts:15 | length is kept, each character is upper-cased in place, and no ASCII small letter remains |
| CaseMapping.UpperAfterLower | packages/utils/formatting.ts:10-16 | upper-casing after lower-casing equals upper-casing alone |
| Formatting.Truncate | packages/utils/formatting.ts:6-8 | when the guard holds, the first `n` characters are kept and `"..."` follows them; otherwise the text is unchanged; the length agrees with the length-only reference `FormattedLength` |
| Formatting.FormatText | packages/utils/formatting.ts:3-19 | the length equals `FormattedLength` of the input length and limit; with `uppercase` no ASCII small letter remains; with only `lowercase` no ASCII capital remains; with neither flag only the truncation applies |
| Formatting.DefaultOptionsIdentity | packages/utils/formatting.ts:3-18 | with the default `{}` options the text is returned unchanged |
| Formatting.TruncationShape | packages/utils/formatting.ts:6-7 | for `0 < n < length`, the truncated text is `text[..n] + "..."`, of length `n + 3` |
| Formatting.NoTruncation | packages/utils/formatting.ts:6 | an absent or zero limit, or one at least the length, removes nothing and adds no ellipsis |
| Formatting.FormatTextPointwise | packages/utils/formatting.ts:4-18 | each output character is the case-mapped character at the same position of the truncated text |
| Formatting.WithoutTruncationPointwise | packages/utils/formatting.ts:4-18 | when no truncation happens, the output matches the input position by position through the applied case map |
| Formatting.LengthIgnoresCase | packages/utils/formatting.ts:6-16 | two option records with the same limit give outputs of the same length, whatever their case flags |
| Formatting.UppercaseWins | packages/utils/formatting.ts:10-16 | with both flags set, the result is the upper-cased truncated text, the same as with `uppercase` alone |
| Formatting.TruncateCommutesWithCase | packages/utils/formatting.ts:6-16 | truncating the original text first and case-mapping later gives the same result as case-mapping first and truncating later |
| Formatting.ExampleTruncate | packages/utils/formatting.ts:6-7 | `"hello world"` with limit 5 formats to `"hello..."` |
| Formatting.ExampleBothFlags | packages/utils/formatting.ts:10-16 | `"HELLO"` with both case flags formats to `"HELLO"` |
| Formatting.ExampleTruncateLowercase | packages/utils/formatting.ts:6-12 | `"Hello World"` with limit 5 and `lowercase` formats to `"hello..."` |
| Formatting.ExampleUppercase | packages/utils/formatting.ts:14-16 | `"Hello"` with `uppercase` formats to `"HELLO"` |
| Validation.ValidateRequired | packages/utils/validation.ts:12-17 | invalid exactly for `undefined`, `null` and `''`; messages absent exactly for truthy values; when present they are the single fixed message |
| Validation.TruthyIsAccepted | packages/utils/validation.ts:14-15 | a truthy value gives `isValid` true and no messages |
| Validation.MissingIsRejected | packages/utils/validation.ts:14-15 | `undefined`, `null` and `''` give `isValid` false and exactly `["This field is required"]` |
| Validation.ValidWithErrorsExactly | packages/utils/validation.ts:14-15 | a valid result that still carries a message arises exactly for `0`, `false` and `NaN` |
| Validation.ValidateRequiredBreaksErrorsOnlyOnFailure | packages/utils/validation.ts:14-15 | on `0` the result is valid with a message, so "messages only on failure" fails |
| Validation.ValidateRequiredConsistent | packages/utils/validation.ts:14-15 | same validity as the source; messages present exactly on failure, then the single fixed message |
| Validation.ConsistentAgreesOffFalsyPresent | packages/utils/validation.ts:14-15 | the consistent variant equals the source's behaviour on every input except `0`, `false` and `NaN` |
| Validation.ValidateEmail | packages/utils/validation.ts:4-10 | valid exactly when the schema accepts; messages present exactly on failure, then exactly the schema's one message |
| Validation.EmailOutcomes | packages/utils/validation.ts:5-9 | an accepted address gives `(true, none)`; a rejected one gives `(false, [message])` |

## Findings

| source | as written | input that shows it | evidently intended | confidence | as-written member | corrected member |
|---|---|---|---|---|---|---|
| packages/utils/validation.ts:14-15 | validity compares with `undefined`, `null` and `''`, but the messages are chosen by truthiness | `0`, `false` or `NaN` give `isValid: true` together with `["This field is required"]` | messages present only on failure, the convention `validateEmail` follows at packages/utils/validation.ts:8; no type declares it | medium, not executed; the other reading, rejecting all falsy values, is also possible | Validation.ValidateRequiredBreaksErrorsOnlyOnFailure | Validation.ValidateRequiredConsistent |

`Validation.ValidateRequired` keeps the behaviour as written. `ValidateRequiredConsistent`
is the variant with messages chosen from the validity flag.

## Left out

- `formatNumber` (packages/utils/formatting.ts:21-23) wraps `Number.prototype.toFixed`, which is floating-point rendering.
- CaseMapping.ToLower: maps only ASCII letters, because full Unicode lower-casing is not length-preserving (`İ`, U+0130, lower-cases to `i̇`, two code units). This also drops non-ASCII mappings that do keep length, such as `É` to `é`.
- CaseMapping.ToUpper: maps only ASCII letters, because full Unicode upper-casing is not length-preserving (`ß` upper-cases to `SS`). This also drops non-ASCII mappings that do keep length, such as `é` to `É`.
- Formatting.FormatText: `truncate` is a `nat`. A negative limit makes `slice` count from the end, and `slice` truncates a fractional limit toward zero; neither is modelled.
- Formatting.FormatText: string length is counted in `char`s. JavaScript counts UTF-16 code units, so `slice` can split a surrogate pair; this is not modelled.
- Validation.ValidateRequired: JavaScript numbers are modelled as integers plus `NaN`, so `-0`, fractions and `BigInt` values are not modelled. Arrays and objects are all `Obj`, which is truthy.
- Validation.ValidateEmail: zod's email grammar and error text are a parameter, because they belong to the zod library.
- `formatDate` and `formatDateTime` (packages/utils/date.ts) call date-fns for ISO parsing and locale-dependent rendering.
- `DateFormatOptions` (packages/utils/types.ts:1-4) is used by none of the modelled helpers.
- The client factories in packages/db/index.ts and packages/ai/index.ts construct network clients from foreign libraries.
- The zod schemas in packages/db/types.ts and packages/ai/types.ts are declarations whose behaviour belongs to zod.
- packages/ui/index.tsx only re-exports components and has no behaviour.
