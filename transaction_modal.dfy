/**
 * The stand-alone transfer form (src/TransactionModal.js). It keeps its own
 * copy of the e-mail rule and its own amount rule (any amount in (0, 10000]),
 * and never checks the description.
 */
module TransactionModal {
  import opened Wrappers
  import opened Text
  import opened Forms
  import Config

  const REQUIRED_RECIPIENT := "Debe ingresar el email del destinatario"
  const INVALID_FORMAT := "Formato de email inválido"
  const INVALID_DOMAIN := "Solo se permiten emails de UACJ (@uacj.mx, @alumnos.uacj.mx)"
  const INVALID_AMOUNT := "Debe ingresar un monto válido mayor a 0"
  const AMOUNT_TOO_HIGH := "El monto no puede ser mayor a $10,000"
  const MAX_AMOUNT: real := 10000.0
  const GENERAL := "general"
  /** The thrown message when the API answers with a failure status; `detail` is `<status> <body>`. */
  const REQUEST_FAILED_PREFIX := "Error al crear transacción: "
  /** The POST target, written out in full in this file. */
  const TRANSACTIONS_URL := "https://apim-fintech-dev-jagm.azure-api.net/func-fintech-dev-jagm-v1/transactions"

  /** The hard-coded URL is the one the central configuration builds. */
  lemma TransactionsUrlIsConfigured()
    ensures TRANSACTIONS_URL == Config.GetURL(Config.TRANSACTIONS_ENDPOINT)
  {
  }

  /** `validateEmail`: the shape first, then the allow-list; no separate empty check. */
  function ValidateEmail(email: string): (r: Option<string>)
    ensures !Config.IsValidFormat(email) ==> r == Some(INVALID_FORMAT)
    ensures Config.IsValidFormat(email) && !Config.HasAllowedSuffix(email) ==> r == Some(INVALID_DOMAIN)
    ensures r == None <==> Config.IsValidFormat(email) && Config.HasAllowedSuffix(email)
    ensures r == None || r == Some(INVALID_FORMAT) || r == Some(INVALID_DOMAIN)
  {
    if !Config.IsValidFormat(email) then Some(INVALID_FORMAT)
    else if !Config.HasAllowedSuffix(email) then Some(INVALID_DOMAIN)
    else None
  }

  /** This file's e-mail rule accepts exactly what the central validator accepts; only the messages differ. */
  lemma ValidateEmailAgreesWithCentral(email: string)
    ensures ValidateEmail(email) == None <==> Config.ValidateUACJEmail(email) == None
  {
    if Config.IsValidFormat(email) {
      var i, j :| 0 < i < |email| && 0 < j < |email| && Config.SplitsAt(email, i, j);
    }
  }

  /** A string with an allowed ending but the wrong shape is reported as malformed, not as a domain error. */
  lemma FormatCheckedBeforeDomain()
    ensures Config.HasAllowedSuffix("a b@uacj.mx")
    ensures ValidateEmail("a b@uacj.mx") == Some(INVALID_FORMAT)
  {
    var s := "a b@uacj.mx";
    assert Lower(s)[|s| - 8..] == "@uacj.mx";
    assert EndsWith(Lower(s), Config.ALLOWED_DOMAINS[0]);
    Config.ValidFormatIff(s);
    assert IsJsWhitespace(s[1]);
  }

  /** The e-mail part of `validateForm`: its own required message, then `validateEmail`. */
  function RecipientError(email: string): (r: Option<string>)
    ensures email == "" ==> r == Some(REQUIRED_RECIPIENT)
    ensures email != "" ==> r == ValidateEmail(email)
  {
    if email == "" then Some(REQUIRED_RECIPIENT) else ValidateEmail(email)
  }

  /** The amount part of `validateForm`: one message at most; the accepted amounts are (0, 10000]. */
  function AmountError(amount: string, parse: Config.NumberParser): (r: Option<string>)
    ensures r == None <==> amount != "" && parse(amount).Some? && 0.0 < parse(amount).value <= MAX_AMOUNT
    ensures r == Some(AMOUNT_TOO_HIGH) <==> amount != "" && parse(amount).Some? && parse(amount).value > MAX_AMOUNT
    ensures r == None || r == Some(INVALID_AMOUNT) || r == Some(AMOUNT_TOO_HIGH)
  {
    if amount == "" || parse(amount).None? || parse(amount).value <= 0.0 then Some(INVALID_AMOUNT)
    else if parse(amount).value > MAX_AMOUNT then Some(AMOUNT_TOO_HIGH)
    else None
  }

  /** The map `validateForm` builds: an e-mail entry and an amount entry at most, never a description entry. */
  function FormErrors(form: FormData, parse: Config.NumberParser): (r: Errors)
    ensures r.Keys <= {Key(RecipientEmail), Key(Amount)}
    ensures Lookup(r, Key(RecipientEmail)) == RecipientError(form.recipientEmail)
    ensures Lookup(r, Key(Amount)) == AmountError(form.amount, parse)
  {
    var withEmail :=
      if RecipientError(form.recipientEmail).Some?
      then map[Key(RecipientEmail) := RecipientError(form.recipientEmail).value]
      else map[];
    if AmountError(form.amount, parse).Some?
    then withEmail[Key(Amount) := AmountError(form.amount, parse).value]
    else withEmail
  }

  /** The form passes exactly when the address is accepted and the amount lies in (0, 10000]; the description plays no part. */
  lemma FormValidIff(form: FormData, parse: Config.NumberParser)
    ensures FormErrors(form, parse) == map[] <==>
      && form.recipientEmail != "" && ValidateEmail(form.recipientEmail) == None
      && form.amount != "" && parse(form.amount).Some? && 0.0 < parse(form.amount).value <= MAX_AMOUNT
  {
    var r := FormErrors(form, parse);
    if r == map[] {
      assert Lookup(r, Key(RecipientEmail)) == None;
      assert Lookup(r, Key(Amount)) == None;
    } else {
      var k :| k in r;
      assert Lookup(r, k).Some?;
    }
  }

  /** The JSON body of the POST. */
  datatype PostBody = PostBody(recipient: string, amount: real, description: string)

  /**
   * The body built once the form is valid: the address as typed (untrimmed,
   * though a valid address has no whitespace to trim), the parsed amount, and
   * the description or the default one.
   */
  function PostBodyOf(form: FormData, parse: Config.NumberParser): (b: PostBody)
    requires FormErrors(form, parse) == map[]
    ensures b.recipient == form.recipientEmail && Config.ValidateUACJEmail(b.recipient) == None
    ensures parse(form.amount) == Some(b.amount) && 0.0 < b.amount <= MAX_AMOUNT
    ensures form.description != "" ==> b.description == form.description
    ensures form.description == "" ==> b.description == DEFAULT_DESCRIPTION_PREFIX + b.recipient
  {
    FormValidIff(form, parse);
    ValidateEmailAgreesWithCentral(form.recipientEmail);
    PostBody(
      form.recipientEmail,
      parse(form.amount).value,
      if form.description != "" then form.description else DEFAULT_DESCRIPTION_PREFIX + form.recipientEmail)
  }

  /** The address is sent untrimmed, but an accepted address has no whitespace to trim. */
  lemma PostBodyRecipientIsTrimmed(form: FormData, parse: Config.NumberParser)
    requires FormErrors(form, parse) == map[]
    ensures Trim(PostBodyOf(form, parse).recipient) == PostBodyOf(form, parse).recipient
  {
    FormValidIff(form, parse);
    Config.AcceptedEmailIsTrimmed(form.recipientEmail);
  }

  /** The component's state: `formData` and `errors`. */
  class Modal {
    var form: FormData
    var errors: Errors
    const parse: Config.NumberParser

    /** The initial `useState` values. */
    constructor (parse: Config.NumberParser)
      ensures form == EMPTY_FORM && errors == map[] && this.parse == parse
    {
      form := EMPTY_FORM;
      errors := map[];
      this.parse := parse;
    }

    /**
     * `handleInputChange`: stores the value, blanks the field's shown error,
     * and for a non-empty address records `validateEmail`'s complaint.
     */
    method HandleInputChange(field: Field, value: string)
      modifies this
      ensures form == old(form).With(field, value)
      ensures Lookup(errors, Key(field)) ==
        if field == RecipientEmail && value != "" && ValidateEmail(value).Some? then ValidateEmail(value)
        else Lookup(ClearError(old(errors), Key(field)), Key(field))
      ensures forall k | k != Key(field) :: Lookup(errors, k) == Lookup(old(errors), k)
    {
      form := form.With(field, value);
      errors := ClearError(errors, Key(field));
      if field == RecipientEmail && value != "" {
        var emailError := ValidateEmail(value);
        if emailError.Some? {
          errors := errors[Key(RecipientEmail) := emailError.value];
        }
      }
    }

    /** `validateForm`: replaces the error map with a fresh one and reports whether it is empty. */
    method ValidateForm() returns (valid: bool)
      modifies this
      ensures form == old(form)
      ensures errors == FormErrors(form, parse)
      ensures valid <==> errors == map[]
    {
      var newErrors: Errors := map[];
      if form.recipientEmail == "" {
        newErrors := newErrors[Key(RecipientEmail) := REQUIRED_RECIPIENT];
      } else {
        var emailError := ValidateEmail(form.recipientEmail);
        if emailError.Some? {
          newErrors := newErrors[Key(RecipientEmail) := emailError.value];
        }
      }
      var amountError := AmountError(form.amount, parse);
      if amountError.Some? {
        newErrors := newErrors[Key(Amount) := amountError.value];
      }
      errors := newErrors;
      valid := |newErrors| == 0;
      assert valid <==> newErrors == map[] by {
        if !valid {
          assert newErrors.Keys != {};
        }
      }
    }

    /**
     * `handleSubmit`: an invalid form stops at validation; otherwise the body
     * is posted unless the token step fails. Success clears the form and the
     * errors; a failure, also one after the body went out, keeps the form and
     * shows the message under `general`.
     * `created` and `closed` report the calls to `onTransactionCreated` and
     * `onClose`, which happen only on success.
     */
    method HandleSubmit(outcome: Outcome) returns (body: Option<PostBody>, created: bool, closed: bool)
      modifies this
      ensures created <==> FormErrors(old(form), parse) == map[] && outcome.Succeeded?
      ensures closed == created
      ensures FormErrors(old(form), parse) != map[] ==>
        body == None && form == old(form) && errors == FormErrors(old(form), parse)
      ensures FormErrors(old(form), parse) == map[] ==>
        && (body.Some? <==> !outcome.TokenFailed?)
        && (body.Some? ==> body.value == PostBodyOf(old(form), parse))
        && (outcome.Succeeded? ==> form == EMPTY_FORM && errors == map[])
        && (outcome.TokenFailed? ==> form == old(form) && errors == map[GENERAL := outcome.message])
        && (outcome.RequestFailed? ==>
              form == old(form) && errors == map[GENERAL := REQUEST_FAILED_PREFIX + outcome.detail])
        && (outcome.SentButFailed? ==> form == old(form) && errors == map[GENERAL := outcome.message])
    {
      created, closed := false, false;
      var valid := ValidateForm();
      if !valid {
        return None, false, false;
      }
      match outcome
      case TokenFailed(message) =>
        body := None;
        errors := map[GENERAL := message];
      case RequestFailed(detail) =>
        body := Some(PostBodyOf(form, parse));
        errors := map[GENERAL := REQUEST_FAILED_PREFIX + detail];
      case SentButFailed(message) =>
        body := Some(PostBodyOf(form, parse));
        errors := map[GENERAL := message];
      case Succeeded =>
        body := Some(PostBodyOf(form, parse));
        created := true;
        form := EMPTY_FORM;
        errors := map[];
        closed := true;
    }

    /** `handleClose`: empties the form and the errors, then always asks the parent to close. */
    method HandleClose() returns (closed: bool)
      modifies this
      ensures form == EMPTY_FORM && errors == map[]
      ensures closed
    {
      form := EMPTY_FORM;
      errors := map[];
      closed := true;
    }
  }
}
