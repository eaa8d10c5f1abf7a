/**
 * The dashboard page (src/Dashboard.js): its own "new transaction" form with
 * the loosest rules of the three, the record it posts, the guard in front of
 * the request, and the fallbacks of the transaction list.
 */
module Dashboard {
  import opened Wrappers
  import opened Text
  import opened Forms
  import opened Records
  import Config
  import TransactionItem

  /** The base URL this file declares for itself. */
  const API_BASE_URL := "https://apim-fintech-dev-jagm.azure-api.net/func-fintech-dev-jagm-v1"

  lemma ApiBaseUrlIsConfigured()
    ensures API_BASE_URL + Config.TRANSACTIONS_ENDPOINT == Config.GetURL(Config.TRANSACTIONS_ENDPOINT)
  {
  }

  // ---- NewTransactionModal ------------------------------------------------------

  const AMOUNT_REQUIRED := "La cantidad debe ser mayor a 0"
  const RECIPIENT_REQUIRED := "El destinatario es requerido"

  /** The inputs of this form; the recipient is free text, not an address. */
  datatype NewField = AmountField | RecipientField | DescriptionField

  function NewKey(f: NewField): string {
    match f
    case AmountField => "amount"
    case RecipientField => "recipient"
    case DescriptionField => "description"
  }

  datatype NewForm = NewForm(amount: string, recipient: string, description: string) {

    function Get(f: NewField): string {
      match f
      case AmountField => amount
      case RecipientField => recipient
      case DescriptionField => description
    }

    function With(f: NewField, value: string): (r: NewForm)
      ensures r.Get(f) == value
      ensures forall g | g != f :: r.Get(g) == Get(g)
    {
      match f
      case AmountField => this.(amount := value)
      case RecipientField => this.(recipient := value)
      case DescriptionField => this.(description := value)
    }
  }

  const EMPTY_NEW_FORM := NewForm("", "", "")

  /**
   * The amount check `!amount || parseFloat(amount) <= 0`: empty or not
   * positive. There is no upper bound, and text that does not parse
   * (`NaN <= 0` is false) passes.
   */
  function AmountError(amount: string, parse: Config.NumberParser): (r: Option<string>)
    ensures r.Some? <==> amount == "" || (parse(amount).Some? && parse(amount).value <= 0.0)
    ensures r.Some? ==> r.value == AMOUNT_REQUIRED
  {
    if amount == "" || (parse(amount).Some? && parse(amount).value <= 0.0) then Some(AMOUNT_REQUIRED) else None
  }

  /** The recipient check `!recipient.trim()`: refused exactly when it is blank. */
  function RecipientError(recipient: string): (r: Option<string>)
    ensures r.Some? <==> AllWhitespace(recipient)
    ensures r.Some? ==> r.value == RECIPIENT_REQUIRED
  {
    TrimEmptyIff(recipient);
    if Trim(recipient) == "" then Some(RECIPIENT_REQUIRED) else None
  }

  /** The map `validateForm` builds: amount and recipient entries at most. */
  function FormErrors(form: NewForm, parse: Config.NumberParser): (r: Errors)
    ensures r.Keys <= {NewKey(AmountField), NewKey(RecipientField)}
    ensures Lookup(r, NewKey(AmountField)) == AmountError(form.amount, parse)
    ensures Lookup(r, NewKey(RecipientField)) == RecipientError(form.recipient)
  {
    var withAmount :=
      match AmountError(form.amount, parse)
      case Some(message) => map[NewKey(AmountField) := message]
      case None => map[];
    match RecipientError(form.recipient)
    case Some(message) => withAmount[NewKey(RecipientField) := message]
    case None => withAmount
  }

  /** The form passes exactly when the amount is non-empty and not a non-positive number, and the recipient is not blank. */
  lemma FormValidIff(form: NewForm, parse: Config.NumberParser)
    ensures FormErrors(form, parse) == map[] <==>
      && form.amount != ""
      && (parse(form.amount).None? || parse(form.amount).value > 0.0)
      && !AllWhitespace(form.recipient)
  {
    var r := FormErrors(form, parse);
    if r == map[] {
      assert Lookup(r, NewKey(AmountField)) == None;
      assert Lookup(r, NewKey(RecipientField)) == None;
    } else {
      var k :| k in r;
      assert Lookup(r, k).Some?;
    }
  }

  /** What `handleSubmit` hands to `onSubmit`; `amount` is `None` for `NaN`. */
  datatype NewTransactionData = NewTransactionData(amount: Option<real>, recipient: string, description: string)

  /**
   * The data of a valid form: the parsed amount (positive whenever it is a
   * number), the trimmed recipient (never empty), and the trimmed
   * description or the default one.
   */
  function SubmitDataOf(form: NewForm, parse: Config.NumberParser): (d: NewTransactionData)
    requires FormErrors(form, parse) == map[]
    ensures d.amount == parse(form.amount) && (d.amount.Some? ==> d.amount.value > 0.0)
    ensures d.recipient == Trim(form.recipient) && d.recipient != ""
    ensures Trim(form.description) != "" ==> d.description == Trim(form.description)
    ensures Trim(form.description) == "" ==> d.description == DEFAULT_DESCRIPTION_PREFIX + d.recipient
  {
    FormValidIff(form, parse);
    TrimEmptyIff(form.recipient);
    var recipient := Trim(form.recipient);
    var description := Trim(form.description);
    NewTransactionData(
      parse(form.amount),
      recipient,
      if description != "" then description else DEFAULT_DESCRIPTION_PREFIX + recipient)
  }

  /** The state of `NewTransactionModal`: `formData` and `errors`. */
  class NewTransactionModal {
    var form: NewForm
    var errors: Errors
    const parse: Config.NumberParser

    constructor (parse: Config.NumberParser)
      ensures form == EMPTY_NEW_FORM && errors == map[] && this.parse == parse
    {
      form := EMPTY_NEW_FORM;
      errors := map[];
      this.parse := parse;
    }

    /** The effect that runs when `isOpen` becomes true: empty form, no errors. */
    method Open()
      modifies this
      ensures form == EMPTY_NEW_FORM && errors == map[]
    {
      form := EMPTY_NEW_FORM;
      errors := map[];
    }

    /** `handleInputChange`: the named field takes the value and only its shown error is blanked; nothing is checked. */
    method HandleInputChange(field: NewField, value: string)
      modifies this
      ensures form == old(form).With(field, value)
      ensures errors == ClearError(old(errors), NewKey(field))
    {
      form := form.With(field, value);
      if HasError(errors, NewKey(field)) {
        errors := errors[NewKey(field) := ""];
      }
    }

    /** `validateForm`: a fresh error map, and whether it is empty. */
    method ValidateForm() returns (valid: bool)
      modifies this
      ensures form == old(form)
      ensures errors == FormErrors(form, parse)
      ensures valid <==> errors == map[]
    {
      var newErrors: Errors := map[];
      if form.amount == "" || (parse(form.amount).Some? && parse(form.amount).value <= 0.0) {
        newErrors := newErrors[NewKey(AmountField) := AMOUNT_REQUIRED];
      }
      if Trim(form.recipient) == "" {
        newErrors := newErrors[NewKey(RecipientField) := RECIPIENT_REQUIRED];
      }
      TrimEmptyIff(form.recipient);
      errors := newErrors;
      valid := |newErrors| == 0;
      assert valid <==> newErrors == map[] by {
        if !valid {
          assert newErrors.Keys != {};
        }
      }
    }

    /** `handleSubmit`: `onSubmit` receives the data only when validation passes. */
    method HandleSubmit() returns (data: Option<NewTransactionData>)
      modifies this
      ensures form == old(form) && errors == FormErrors(form, parse)
      ensures data.Some? <==> errors == map[]
      ensures data.Some? ==> data.value == SubmitDataOf(form, parse)
    {
      var valid := ValidateForm();
      if !valid {
        return None;
      }
      data := Some(SubmitDataOf(form, parse));
    }
  }

  // ---- Dashboard ------------------------------------------------------------

  /** The signed-in account as the identity library reports it. */
  datatype Account = Account(name: Option<string>, username: string, localAccountId: string)

  /** `userInfo`. */
  datatype UserInfo = UserInfo(name: string, id: string, email: string)

  /** The `userInfo` of an account: its name, or its username when the name is missing or empty. */
  function UserInfoOf(account: Account): (u: UserInfo)
    ensures IsPresent(account.name) ==> u.name == account.name.value
    ensures !IsPresent(account.name) ==> u.name == account.username
    ensures u.id == account.localAccountId && u.email == account.username
    ensures u.name == "" ==> account.username == ""
  {
    UserInfo(
      if IsPresent(account.name) then account.name.value else account.username,
      account.localAccountId,
      account.username)
  }

  const TRANSFER_KIND := "debit"
  const TRANSFER_CATEGORY := "transfer"
  const WEB_APP_SOURCE := "web_app"
  const COMPLETED_STATUS := "completed"

  /**
   * The record `createTransaction` posts: the sender copied from `userInfo`,
   * the submitted data, the creation time, and fixed type, category, source
   * and status. It carries no id.
   */
  function NewTransactionRecord(user: UserInfo, data: NewTransactionData, timestamp: string): (t: Transaction)
    ensures t.id == None
    ensures t.fromAccountId == Some(user.id) && t.fromAccountName == Some(user.name)
    ensures t.fromAccountEmail == Some(user.email)
    ensures t.toAccount == Some(data.recipient) && t.amount == data.amount
    ensures t.description == Some(data.description) && t.timestamp == Some(timestamp)
    ensures t.kind == Some(TRANSFER_KIND) && t.category == Some(TRANSFER_CATEGORY)
    ensures t.source == Some(WEB_APP_SOURCE) && t.status == Some(COMPLETED_STATUS)
  {
    Transaction(
      id := None,
      amount := data.amount,
      kind := Some(TRANSFER_KIND),
      description := Some(data.description),
      timestamp := Some(timestamp),
      status := Some(COMPLETED_STATUS),
      fromAccountId := Some(user.id),
      fromAccountName := Some(user.name),
      fromAccountEmail := Some(user.email),
      toAccount := Some(data.recipient),
      category := Some(TRANSFER_CATEGORY),
      source := Some(WEB_APP_SOURCE))
  }

  const NO_USER_INFO := "No hay información de usuario disponible"
  const CREATE_FAILED_PREFIX := "Error al crear transacción: "
  const LOAD_FAILED_PREFIX := "Error al cargar transacciones: "

  /** The guard of `createTransaction`: at least one signed-in account and a `userInfo`. */
  predicate CanCreate(accountCount: nat, userInfo: Option<UserInfo>) {
    accountCount > 0 && userInfo.Some?
  }

  /** The dashboard's state around creating a transaction, with the records it has posted. */
  class Dashboard {
    var userInfo: Option<UserInfo>
    var error: Option<string>
    var isCreatingTransaction: bool
    var showNewTransactionModal: bool
    var posted: seq<Transaction>

    /** The dashboard's `useState` initial values. */
    constructor ()
      ensures userInfo == None && error == None
      ensures !isCreatingTransaction && !showNewTransactionModal && posted == []
    {
      userInfo := None;
      error := None;
      isCreatingTransaction := false;
      showNewTransactionModal := false;
      posted := [];
    }

    /** The `setUserInfo` step of the initial load, once the token has been acquired. */
    method RecordSignIn(account: Account)
      modifies this
      ensures userInfo == Some(UserInfoOf(account))
      ensures error == old(error) && posted == old(posted)
      ensures isCreatingTransaction == old(isCreatingTransaction)
      ensures showNewTransactionModal == old(showNewTransactionModal)
    {
      userInfo := Some(UserInfoOf(account));
    }

    /** The "Nueva Transacción" button. */
    method OpenNewTransactionModal()
      modifies this
      ensures showNewTransactionModal
      ensures userInfo == old(userInfo) && error == old(error) && posted == old(posted)
      ensures isCreatingTransaction == old(isCreatingTransaction)
    {
      showNewTransactionModal := true;
    }

    /** The `onClose` the dashboard hands to its form: it only hides the form. */
    method CloseNewTransactionModal()
      modifies this
      ensures !showNewTransactionModal
      ensures userInfo == old(userInfo) && error == old(error) && posted == old(posted)
      ensures isCreatingTransaction == old(isCreatingTransaction)
    {
      showNewTransactionModal := false;
    }

    /**
     * `createTransaction`. Without an account or `userInfo` it only sets the
     * error. Otherwise the record is posted unless the token step fails (a
     * rejected `fetch` counts as posted, since the request may have arrived); success
     * closes the form and reloads the list, failure sets the error, and the
     * busy flag ends false. `reloadFailure` is the message of a failed reload
     * (`fetchTransactions` catches it and sets the load error), `None` when the
     * reload succeeds.
     */
    method CreateTransaction(data: NewTransactionData, accountCount: nat, timestamp: string, outcome: Outcome,
                             reloadFailure: Option<string>)
      modifies this
      ensures userInfo == old(userInfo)
      ensures !CanCreate(accountCount, old(userInfo)) ==>
        && error == Some(NO_USER_INFO) && posted == old(posted)
        && isCreatingTransaction == old(isCreatingTransaction)
        && showNewTransactionModal == old(showNewTransactionModal)
      ensures CanCreate(accountCount, old(userInfo)) ==>
        && !isCreatingTransaction
        && (outcome.TokenFailed? ==> posted == old(posted))
        && (!outcome.TokenFailed? ==>
              posted == old(posted) + [NewTransactionRecord(old(userInfo).value, data, timestamp)])
        && (outcome.Succeeded? ==> !showNewTransactionModal)
        && (outcome.Succeeded? && reloadFailure.None? ==> error == old(error))
        && (outcome.Succeeded? && reloadFailure.Some? ==>
              error == Some(LOAD_FAILED_PREFIX + reloadFailure.value))
        && (outcome.TokenFailed? ==>
              showNewTransactionModal == old(showNewTransactionModal)
              && error == Some(CREATE_FAILED_PREFIX + outcome.message))
        && (outcome.RequestFailed? ==>
              showNewTransactionModal == old(showNewTransactionModal)
              && error == Some(CREATE_FAILED_PREFIX + CREATE_FAILED_PREFIX + outcome.detail))
        && (outcome.SentButFailed? ==>
              showNewTransactionModal == old(showNewTransactionModal)
              && error == Some(CREATE_FAILED_PREFIX + outcome.message))
    {
      if accountCount == 0 || userInfo.None? {
        error := Some(NO_USER_INFO);
        return;
      }
      isCreatingTransaction := true;
      match outcome {
        case TokenFailed(message) =>
          error := Some(CREATE_FAILED_PREFIX + message);
        case RequestFailed(statusText) =>
          posted := posted + [NewTransactionRecord(userInfo.value, data, timestamp)];
          error := Some(CREATE_FAILED_PREFIX + CREATE_FAILED_PREFIX + statusText);
        case SentButFailed(message) =>
          posted := posted + [NewTransactionRecord(userInfo.value, data, timestamp)];
          error := Some(CREATE_FAILED_PREFIX + message);
        case Succeeded =>
          posted := posted + [NewTransactionRecord(userInfo.value, data, timestamp)];
          showNewTransactionModal := false;
          if reloadFailure.Some? {
            error := Some(LOAD_FAILED_PREFIX + reloadFailure.value);
          }
      }
      isCreatingTransaction := false;
    }
  }

  // ---- The transaction list ----------------------------------------------------

  /** One rendered list entry; `amount` is the number printed after the sign and `$`. */
  datatype ListRow = ListRow(description: string, date: string, flow: Option<string>, sign: string, amount: real)

  /**
   * A list entry: the description or `Transacción #<n>`, the date or
   * `Fecha no disponible` (`render` is the locale rendering), the
   * from/to line only when both parties are known, `+` only for credits,
   * and 0 for a missing amount.
   */
  function ListEntry(t: Transaction, index: nat, render: string -> string): (row: ListRow)
    ensures row.description == TransactionItem.DisplayDescription(t, index)
    ensures !IsPresent(t.timestamp) ==> row.date == Config.NO_DATE
    ensures IsPresent(t.timestamp) ==> row.date == render(t.timestamp.value)
    ensures row.flow.Some? <==> IsPresent(t.fromAccountName) && IsPresent(t.toAccount)
    ensures row.flow.Some? ==> row.flow == TransactionItem.Flow(t)
    ensures row.sign == "+" <==> t.kind == Some("credit")
    ensures row.sign == "+" || row.sign == "-"
    ensures t.amount.None? ==> row.amount == 0.0
    ensures t.amount.Some? ==> row.amount == t.amount.value
  {
    ListRow(
      description := if IsPresent(t.description) then t.description.value
                     else TransactionItem.ORDINAL_PREFIX + NatToString(index + 1),
      date := if IsPresent(t.timestamp) then render(t.timestamp.value) else Config.NO_DATE,
      flow := if IsPresent(t.fromAccountName) && IsPresent(t.toAccount)
              then Some(TransactionItem.FROM + t.fromAccountName.value + TransactionItem.ARROW_TO + t.toAccount.value)
              else None,
      sign := if t.kind == Some("credit") then "+" else "-",
      amount := if t.amount.Some? then t.amount.value else 0.0)
  }

  /**
   * The list's date column and `formatDate` in `TransactionItem` give the same
   * text for a missing date and differ only in the renderer they are handed
   * (the default locale here, `TIME_CONFIG.LOCALE` there).
   */
  lemma ListDateIsFormatDate(t: Transaction, index: nat, render: string -> string)
    ensures ListEntry(t, index, render).date == Config.FormatDate(t.timestamp, render)
    ensures !IsPresent(t.timestamp) ==> ListEntry(t, index, render).date == Config.FormatDate(None, render)
  {
  }

  /**
   * A record this page creates is a debit, so its own list shows it with `-`,
   * while the shared list item shows a positive amount with `+`: the two
   * views disagree on the sign of every transfer made here.
   */
  lemma CreatedTransferSigns(user: UserInfo, data: NewTransactionData, timestamp: string, index: nat,
                             render: string -> string)
    requires data.amount.Some? && data.amount.value > 0.0
    ensures ListEntry(NewTransactionRecord(user, data, timestamp), index, render).sign == "-"
    ensures TransactionItem.AmountText(NewTransactionRecord(user, data, timestamp))[0] == '+'
  {
  }

  /**
   * A transfer created from a valid form is listed under the description it
   * was sent with (never the ordinal fallback), with its creation time, and,
   * when the sender has a name, with a from/to line naming the trimmed
   * recipient.
   */
  lemma CreatedTransferListed(user: UserInfo, form: NewForm, parse: Config.NumberParser, timestamp: string,
                              index: nat, render: string -> string)
    requires FormErrors(form, parse) == map[]
    ensures ListEntry(NewTransactionRecord(user, SubmitDataOf(form, parse), timestamp), index, render).description
      == SubmitDataOf(form, parse).description
    ensures timestamp != "" ==>
      ListEntry(NewTransactionRecord(user, SubmitDataOf(form, parse), timestamp), index, render).date
        == render(timestamp)
    ensures user.name != "" ==>
      ListEntry(NewTransactionRecord(user, SubmitDataOf(form, parse), timestamp), index, render).flow
        == Some(TransactionItem.FROM + user.name + TransactionItem.ARROW_TO + Trim(form.recipient))
  {
    var data := SubmitDataOf(form, parse);
    SubmittedDescriptionPresent(form, parse);
    var t := NewTransactionRecord(user, data, timestamp);
    assert IsPresent(t.description) && IsPresent(t.toAccount);
  }

  /** The submitted description is never empty: the default one starts with a fixed prefix. */
  lemma SubmittedDescriptionPresent(form: NewForm, parse: Config.NumberParser)
    requires FormErrors(form, parse) == map[]
    ensures SubmitDataOf(form, parse).description != ""
  {
    var data := SubmitDataOf(form, parse);
    if Trim(form.description) == "" {
      assert |data.description| >= |DEFAULT_DESCRIPTION_PREFIX|;
    }
  }
}
