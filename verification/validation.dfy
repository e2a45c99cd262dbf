/** `validateRequired` and `validateEmail`: single-field validators that
    report their outcome as a `ValidationResult` and never throw. */
module Validation {
  import opened Types

  /** The JavaScript values `validateRequired` can be handed. Numbers other
      than `NaN` are modelled by their integer value. */
  datatype JsValue = Undefined | Null | Str(s: string) | Num(n: int) | NaN | Bool(b: bool) | Obj

  /** JavaScript truthiness: `undefined`, `null`, `''`, `0`, `NaN` and `false`
      are falsy; every other value, every object included, is truthy. */
  predicate Truthy(v: JsValue) {
    match v
    case Undefined => false
    case Null => false
    case Str(s) => s != ""
    case Num(n) => n != 0
    case NaN => false
    case Bool(b) => b
    case Obj => true
  }

  const RequiredMessage: string := "This field is required"

  /** `validateRequired` as written: validity is decided by strict comparison
      with `undefined`, `null` and `''`, the message list by truthiness. */
  function ValidateRequired(value: JsValue): (r: ValidationResult)
    ensures !r.isValid <==> value.Undefined? || value.Null? || value == Str("")
    ensures r.errors.None? <==> Truthy(value)
    ensures r.errors.Some? ==> r.errors.value == [RequiredMessage]
  {
    ValidationResult(
      value != Undefined && value != Null && value != Str(""),
      if Truthy(value) then None else Some([RequiredMessage]))
  }

  /** A truthy value is valid and carries no messages. */
  lemma TruthyIsAccepted(value: JsValue)
    requires Truthy(value)
    ensures ValidateRequired(value) == ValidationResult(true, None)
  {
  }

  /** `undefined`, `null` and `''` are rejected with the one fixed message. */
  lemma MissingIsRejected(value: JsValue)
    requires value.Undefined? || value.Null? || value == Str("")
    ensures ValidateRequired(value) == ValidationResult(false, Some([RequiredMessage]))
  {
  }

  /** The inputs on which the result is valid yet still carries a message are
      exactly the falsy values that are present: `0`, `false` and `NaN`. */
  lemma ValidWithErrorsExactly(value: JsValue)
    ensures ValidateRequired(value).isValid && ValidateRequired(value).errors.Some?
        <==> value == Num(0) || value == Bool(false) || value == NaN
  {
  }

  /** So `validateRequired` breaks the rule that messages appear only on failure. */
  lemma ValidateRequiredBreaksErrorsOnlyOnFailure()
    ensures !ErrorsOnlyOnFailure(ValidateRequired(Num(0)))
    ensures ValidateRequired(Num(0)) == ValidationResult(true, Some([RequiredMessage]))
  {
  }

  /** `validateRequired` with the message list chosen from the validity flag,
      so that messages appear exactly on failure. */
  function ValidateRequiredConsistent(value: JsValue): (r: ValidationResult)
    ensures ErrorsOnlyOnFailure(r) && OneErrorOnFailure(r)
    ensures r.isValid == ValidateRequired(value).isValid
    ensures r.errors.Some? ==> r.errors.value == [RequiredMessage]
  {
    var isValid := value != Undefined && value != Null && value != Str("");
    ValidationResult(isValid, if isValid then None else Some([RequiredMessage]))
  }

  /** The consistent variant differs from the one as written only on `0`,
      `false` and `NaN`, where it drops the stray message. */
  lemma ConsistentAgreesOffFalsyPresent(value: JsValue)
    ensures ValidateRequiredConsistent(value) == ValidateRequired(value)
        <==> !(value == Num(0) || value == Bool(false) || value == NaN)
  {
  }

  /** The outcome of zod's `safeParse`: success, or a failure with its message. */
  datatype SafeParse = Parsed | Rejected(message: string)

  /** `validateEmail`, over `emailSchema`, the outcome of
      `z.string().email().safeParse` for each string. */
  function ValidateEmail(email: string, emailSchema: string -> SafeParse): (r: ValidationResult)
    ensures r.isValid <==> emailSchema(email).Parsed?
    ensures ErrorsOnlyOnFailure(r) && OneErrorOnFailure(r)
    ensures !r.isValid ==> r.errors.value == [emailSchema(email).message]
  {
    var result := emailSchema(email);
    ValidationResult(
      result.Parsed?,
      if !result.Parsed? then Some([result.message]) else None)
  }

  /** An address the schema accepts is valid with no messages; one it rejects
      is invalid with exactly the schema's message. */
  lemma EmailOutcomes(email: string, emailSchema: string -> SafeParse)
    ensures emailSchema(email).Parsed? ==> ValidateEmail(email, emailSchema) == ValidationResult(true, None)
    ensures emailSchema(email).Rejected? ==>
              ValidateEmail(email, emailSchema) == ValidationResult(false, Some([emailSchema(email).message]))
  {
  }
}
