/**
 * The transfer form built on the central validators
 * (src/components/UACJTransactionModal.js): a per-field error map, a
 * trimmed payload handed to the parent, and closing that is blocked while
 * the parent reports it is busy.
 */
module UACJTransactionModal {
  import opened Wrappers
  import opened Text
  import opened Forms
  import Config

  /** The real-time check `handleInputChange` runs on a non-empty address or amount. */
  function LiveError(field: Field, value: string, parse: Config.NumberParser): (r: Option<string>)
    ensures value == "" || field == Description ==> r == None
    ensures value != "" && field == RecipientEmail ==> r == Config.ValidateUACJEmail(value)
    ensures value != "" && field == Amount ==> r == Config.ValidateAmount(value, parse)
  {
    if value == "" then None
    else match field
      case RecipientEmail => Config.ValidateUACJEmail(value)
      case Amount => Config.ValidateAmount(value, parse)
      case Description => None
  }

  /** The error map after `handleInputChange(field, value)`. */
  function InputErrors(errors: Errors, field: Field, value: string, parse: Config.NumberParser): (r: Errors)
    ensures forall k | k != Key(field) :: Lookup(r, k) == Lookup(errors, k)
    ensures LiveError(field, value, parse).Some? ==> Lookup(r, Key(field)) == LiveError(field, value, parse)
    ensures LiveError(field, value, parse).None? ==> Lookup(r, Key(field)) == Lookup(ClearError(errors, Key(field)), Key(field))
  {
    var cleared := ClearError(errors, Key(field));
    match LiveError(field, value, parse)
    case Some(message) => cleared[Key(field) := message]
    case None => cleared
  }

  /** After typing, no error is shown for the field exactly when the real-time check passes. */
  lemma InputErrorsShown(errors: Errors, field: Field, value: string, parse: Config.NumberParser)
    ensures HasError(InputErrors(errors, field, value, parse), Key(field)) <==> LiveError(field, value, parse).Some?
  {
    var r := InputErrors(errors, field, value, parse);
    assert Lookup(r, Key(field)).Some? ==> r[Key(field)] == Lookup(r, Key(field)).value;
    match LiveError(field, value, parse)
    case Some(message) =>
      assert message == Config.REQUIRED_FIELD || message == Config.INVALID_EMAIL
        || message == Config.INVALID_UACJ_DOMAIN || message == Config.INVALID_AMOUNT
        || message == Config.AMOUNT_TOO_HIGH;
    case None =>
  }

  /** `isEmailValid`: an address is typed, no error is shown for it, and the central check passes. */
  predicate IsEmailValid(form: FormData, errors: Errors) {
    && form.recipientEmail != ""
    && !HasError(errors, Key(RecipientEmail))
    && Config.ValidateUACJEmail(form.recipientEmail) == None
  }

  /** Having just typed an address, the success mark shows exactly when the address is accepted. */
  lemma EmailValidAfterTyping(form: FormData, errors: Errors, value: string, parse: Config.NumberParser)
    ensures IsEmailValid(form.With(RecipientEmail, value), InputErrors(errors, RecipientEmail, value, parse))
      <==> Config.ValidateUACJEmail(value) == None
  {
    InputErrorsShown(errors, RecipientEmail, value, parse);
  }

  /** The success mark only ever shows for an address of an allowed domain. */
  lemma EmailValidMeansAllowedDomain(form: FormData, errors: Errors)
    requires IsEmailValid(form, errors)
    ensures exists k | 0 < k < |form.recipientEmail| ::
      Config.OnlyAtSignAt(form.recipientEmail, k) && Lower(form.recipientEmail[k..]) in Config.ALLOWED_DOMAINS
  {
    Config.AcceptedEmailDomain(form.recipientEmail);
  }

  /** The map `validateForm` builds: one entry per failing central validator. */
  function FormErrors(form: FormData, parse: Config.NumberParser): (r: Errors)
    ensures r.Keys <= {Key(RecipientEmail), Key(Amount), Key(Description)}
    ensures Lookup(r, Key(RecipientEmail)) == Config.ValidateUACJEmail(form.recipientEmail)
    ensures Lookup(r, Key(Amount)) == Config.ValidateAmount(form.amount, parse)
    ensures Lookup(r, Key(Description)) == Config.ValidateDescription(form.description)
  {
    var withEmail :=
      match Config.ValidateUACJEmail(form.recipientEmail)
      case Some(message) => map[Key(RecipientEmail) := message]
      case None => map[];
    var withAmount :=
      match Config.ValidateAmount(form.amount, parse)
      case Some(message) => withEmail[Key(Amount) := message]
      case None => withEmail;
    match Config.ValidateDescription(form.description)
    case Some(message) => withAmount[Key(Description) := message]
    case None => withAmount
  }

  /** The form passes exactly when the address is accepted, the amount is in [0.01, 10000] and the description has at most 100 characters. */
  lemma FormValidIff(form: FormData, parse: Config.NumberParser)
    ensures FormErrors(form, parse) == map[] <==>
      && Config.ValidateUACJEmail(form.recipientEmail) == None
      && form.amount != "" && parse(form.amount).Some?
      && Config.MIN_AMOUNT <= parse(form.amount).value <= Config.MAX_AMOUNT
      && |form.description| <= Config.MAX_DESCRIPTION_LENGTH
  {
    var r := FormErrors(form, parse);
    if r == map[] {
      assert Lookup(r, Key(RecipientEmail)) == None;
      assert Lookup(r, Key(Amount)) == None;
      assert Lookup(r, Key(Description)) == None;
    } else {
      var k :| k in r;
      assert Lookup(r, k).Some?;
    }
  }

  /** What `handleSubmit` hands to `onSubmit`. */
  datatype Payload = Payload(recipient: string, amount: real, description: string)

  /**
   * The payload of a valid form: the trimmed address (which is the address
   * itself), the parsed amount, and the trimmed description or the default one.
   */
  function PayloadOf(form: FormData, parse: Config.NumberParser): (p: Payload)
    requires FormErrors(form, parse) == map[]
    ensures p.recipient == Trim(form.recipientEmail)
    ensures parse(form.amount) == Some(p.amount) && Config.MIN_AMOUNT <= p.amount <= Config.MAX_AMOUNT
    ensures Trim(form.description) != "" ==> p.description == Trim(form.description)
    ensures Trim(form.description) == "" ==> p.description == DEFAULT_DESCRIPTION_PREFIX + p.recipient
  {
    FormValidIff(form, parse);
    var recipient := Trim(form.recipientEmail);
    var description := Trim(form.description);
    Payload(
      recipient,
      parse(form.amount).value,
      if description != "" then description else DEFAULT_DESCRIPTION_PREFIX + recipient)
  }

  /** The payload's recipient is the accepted address unchanged, and a given description stays within 100 characters. */
  lemma PayloadRecipientAccepted(form: FormData, parse: Config.NumberParser)
    requires FormErrors(form, parse) == map[]
    ensures PayloadOf(form, parse).recipient == form.recipientEmail
    ensures Config.ValidateUACJEmail(PayloadOf(form, parse).recipient) == None
    ensures Trim(form.description) != "" ==> |PayloadOf(form, parse).description| <= Config.MAX_DESCRIPTION_LENGTH
  {
    FormValidIff(form, parse);
    Config.AcceptedEmailIsTrimmed(form.recipientEmail);
    TrimShape(form.description);
  }

  /** The component's state: `formData` and `errors`. */
  class Modal {
    var form: FormData
    var errors: Errors
    const parse: Config.NumberParser

    constructor (parse: Config.NumberParser)
      ensures form == EMPTY_FORM && errors == map[] && this.parse == parse
    {
      form := EMPTY_FORM;
      errors := map[];
      this.parse := parse;
    }

    /** The effect that runs when `isOpen` becomes true: empty form, no errors. */
    method Open()
      modifies this
      ensures form == EMPTY_FORM && errors == map[]
    {
      form := EMPTY_FORM;
      errors := map[];
    }

    /** `handleInputChange`: only the named field and its error entry change. */
    method HandleInputChange(field: Field, value: string)
      modifies this
      ensures form == old(form).With(field, value)
      ensures errors == InputErrors(old(errors), field, value, parse)
    {
      form := form.With(field, value);
      errors := ClearError(errors, Key(field));
      if field == RecipientEmail && value != "" {
        var emailError := Config.ValidateUACJEmail(value);
        if emailError.Some? {
          errors := errors[Key(RecipientEmail) := emailError.value];
        }
      }
      if field == Amount && value != "" {
        var amountError := Config.ValidateAmount(value, parse);
        if amountError.Some? {
          errors := errors[Key(Amount) := amountError.value];
        }
      }
    }

    /** `validateForm`: a fresh error map, and whether it is empty. */
    method ValidateForm() returns (valid: bool)
      modifies this
      ensures form == old(form)
      ensures errors == FormErrors(form, parse)
      ensures valid <==> errors == map[]
    {
      var newErrors: Errors := map[];
      var emailError := Config.ValidateUACJEmail(form.recipientEmail);
      if emailError.Some? {
        newErrors := newErrors[Key(RecipientEmail) := emailError.value];
      }
      var amountError := Config.ValidateAmount(form.amount, parse);
      if amountError.Some? {
        newErrors := newErrors[Key(Amount) := amountError.value];
      }
      var descriptionError := Config.ValidateDescription(form.description);
      if descriptionError.Some? {
        newErrors := newErrors[Key(Description) := descriptionError.value];
      }
      errors := newErrors;
      valid := |newErrors| == 0;
      assert valid <==> newErrors == map[] by {
        if !valid {
          assert newErrors.Keys != {};
        }
      }
    }

    /** `handleSubmit`: `onSubmit` receives the payload only when validation passes. */
    method HandleSubmit() returns (payload: Option<Payload>)
      modifies this
      ensures form == old(form) && errors == FormErrors(form, parse)
      ensures payload.Some? <==> errors == map[]
      ensures payload.Some? ==> payload.value == PayloadOf(form, parse)
    {
      var valid := ValidateForm();
      if !valid {
        return None;
      }
      payload := Some(PayloadOf(form, parse));
    }

    /** `handleClose`: nothing happens while the parent is busy; otherwise the form is emptied and `onClose` runs. */
    method HandleClose(isLoading: bool) returns (closed: bool)
      modifies this
      ensures closed == !isLoading
      ensures isLoading ==> form == old(form) && errors == old(errors)
      ensures !isLoading ==> form == EMPTY_FORM && errors == map[]
    {
      if isLoading {
        return false;
      }
      form := EMPTY_FORM;
      errors := map[];
      closed := true;
    }

    /** `handleKeyDown`: Escape closes, unless the parent is busy. */
    method HandleKeyDown(key: string, isLoading: bool) returns (closed: bool)
      modifies this
      ensures closed <==> key == "Escape" && !isLoading
      ensures closed ==> form == EMPTY_FORM && errors == map[]
      ensures !closed ==> form == old(form) && errors == old(errors)
    {
      closed := false;
      if key == "Escape" && !isLoading {
        closed := HandleClose(isLoading);
      }
    }
  }
}
