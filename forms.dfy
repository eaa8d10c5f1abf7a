/**
 * What the three transfer forms have in common: the per-field error map
 * kept in component state, the default description, and the outcome of the
 * network request a submit starts.
 */
module Forms {
  import opened Wrappers

  /** A component's `errors` object: field name to message. */
  type Errors = map<string, string>

  /** `errors[key]`, with `None` for a missing key. */
  function Lookup(errors: Errors, key: string): (r: Option<string>)
    ensures r.Some? <==> key in errors
    ensures r.Some? ==> r.value == errors[key]
  {
    if key in errors then Some(errors[key]) else None
  }

  /** The truthiness test `errors[key]`: present and not the empty string. */
  predicate HasError(errors: Errors, key: string) {
    key in errors && errors[key] != ""
  }

  /**
   * The step `if (errors[name]) setErrors({...prev, [name]: ''})`: a shown
   * error is blanked (the key stays), every other entry is kept.
   */
  function ClearError(errors: Errors, key: string): (r: Errors)
    ensures !HasError(r, key)
    ensures Lookup(r, key) == if HasError(errors, key) then Some("") else Lookup(errors, key)
    ensures forall k | k != key :: Lookup(r, k) == Lookup(errors, k)
  {
    if HasError(errors, key) then errors[key := ""] else errors
  }

  /** The description sent when the user gave none: `Transferencia a <recipient>`. */
  const DEFAULT_DESCRIPTION_PREFIX := "Transferencia a "

  /** The fields of the two e-mail transfer forms, with their input `name`s. */
  datatype Field = RecipientEmail | Amount | Description

  function Key(f: Field): string {
    match f
    case RecipientEmail => "recipientEmail"
    case Amount => "amount"
    case Description => "description"
  }

  /** The `formData` state of the two e-mail transfer forms. */
  datatype FormData = FormData(recipientEmail: string, amount: string, description: string) {

    function Get(f: Field): string {
      match f
      case RecipientEmail => recipientEmail
      case Amount => amount
      case Description => description
    }

    /** `{...prev, [name]: value}`: the named field is replaced, the others are kept. */
    function With(f: Field, value: string): (r: FormData)
      ensures r.Get(f) == value
      ensures forall g | g != f :: r.Get(g) == Get(g)
    {
      match f
      case RecipientEmail => this.(recipientEmail := value)
      case Amount => this.(amount := value)
      case Description => this.(description := value)
    }
  }

  const EMPTY_FORM := FormData("", "", "")

  /**
   * How the request a submit starts ends: success; a failed token step, before
   * anything is sent; a response with a failed HTTP status (its detail text);
   * or a failure with its error message after the request went out (a
   * rejected `fetch`, or a response body that cannot be read).
   */
  datatype Outcome =
    | Succeeded
    | TokenFailed(message: string)
    | RequestFailed(detail: string)
    | SentButFailed(message: string)
}
