/** Value shapes shared by the formatting and validation helpers. */
module Types {

  /** An optional value: `None` stands for an absent (`undefined`) property. */
  datatype Option<T> = None | Some(value: T)

  /** Options of `formatText`. An absent `lowercase` or `uppercase` flag behaves
      exactly like `false`, so both are plain booleans here. `truncate` is a
      character count; `Some(0)` is falsy and behaves like `None`. */
  datatype FormatOptions = FormatOptions(truncate: Option<nat>, lowercase: bool, uppercase: bool)

  /** The default argument `{}`: every option absent. */
  const DefaultFormatOptions: FormatOptions := FormatOptions(None, false, false)

  /** Result of a single-field validator: a validity flag and optional messages. */
  datatype ValidationResult = ValidationResult(isValid: bool, errors: Option<seq<string>>)

  /** Messages are present exactly on failure. No type declares this; it is the
      convention `validateEmail` follows when it builds its result. */
  predicate ErrorsOnlyOnFailure(r: ValidationResult) {
    r.errors.None? <==> r.isValid
  }

  /** Failure carries exactly one message. */
  predicate OneErrorOnFailure(r: ValidationResult) {
    !r.isValid ==> r.errors.Some? && |r.errors.value| == 1
  }
}
