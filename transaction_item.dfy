/**
 * The display of one transaction in a list (src/components/TransactionItem.js):
 * the from/to line, the sign, the status label and the description fallback.
 */
module TransactionItem {
  import opened Wrappers
  import opened Text
  import opened Records
  import Config

  const FROM := "De: "
  const ARROW_TO := " → A: "
  const TO := "Para: "

  /**
   * `getTransactionFlow`: both parties when both are known, otherwise the
   * recipient, otherwise the sender, otherwise nothing.
   */
  function Flow(t: Transaction): (r: Option<string>)
    ensures r == None <==> !IsPresent(t.fromAccountName) && !IsPresent(t.toAccount)
    ensures IsPresent(t.fromAccountName) && IsPresent(t.toAccount)
      ==> r == Some(FROM + t.fromAccountName.value + ARROW_TO + t.toAccount.value)
    ensures !IsPresent(t.fromAccountName) && IsPresent(t.toAccount) ==> r == Some(TO + t.toAccount.value)
    ensures IsPresent(t.fromAccountName) && !IsPresent(t.toAccount) ==> r == Some(FROM + t.fromAccountName.value)
  {
    if IsPresent(t.fromAccountName) && IsPresent(t.toAccount) then
      Some(FROM + t.fromAccountName.value + ARROW_TO + t.toAccount.value)
    else if IsPresent(t.toAccount) then Some(TO + t.toAccount.value)
    else if IsPresent(t.fromAccountName) then Some(FROM + t.fromAccountName.value)
    else None
  }

  /** Whenever a recipient is known the line ends with it, and whenever a sender is known the line names it. */
  lemma FlowNamesParties(t: Transaction)
    ensures IsPresent(t.toAccount) ==> Flow(t).Some? && EndsWith(Flow(t).value, t.toAccount.value)
    ensures IsPresent(t.fromAccountName) ==>
              (&& Flow(t).Some? && |FROM| <= |Flow(t).value|
               && Flow(t).value[..|FROM|] == FROM
               && Flow(t).value[|FROM|..|FROM| + |t.fromAccountName.value|] == t.fromAccountName.value)
  {
    var r := Flow(t);
    if IsPresent(t.fromAccountName) {
      var f := t.fromAccountName.value;
      assert r.value[..|FROM|] == FROM;
      assert r.value[|FROM|..|FROM| + |f|] == f;
    }
  }

  /** `isPositive`: a present amount above zero. */
  predicate IsPositive(t: Transaction) {
    t.amount.Some? && t.amount.value > 0.0
  }

  /** The round icon: `+` for a positive amount, `-` otherwise. */
  function Icon(t: Transaction): (r: string)
    ensures r == "+" <==> IsPositive(t)
    ensures r == "+" || r == "-"
  {
    if IsPositive(t) then "+" else "-"
  }

  /**
   * The amount column: `+` before a positive amount, then `formatMoney`,
   * which never shows a sign; so a minus sign never appears.
   */
  function AmountText(t: Transaction): (r: string)
    ensures |r| >= 5
    ensures r[0] == '+' <==> IsPositive(t)
    ensures forall i | 0 <= i < |r| :: r[i] != '-'
    ensures r[|r| - 3] == '.' && IsDigit(r[|r| - 2]) && IsDigit(r[|r| - 1])
    ensures r[if IsPositive(t) then 1 else 0] == '$'
    ensures forall i | (if IsPositive(t) then 2 else 1) <= i < |r| - 3 :: Config.IsGroupedChar(r[i])
  {
    (if IsPositive(t) then "+" else "") + Config.FormatMoney(t.amount)
  }

  /** Past the optional `+`, the digits shown are the rounded hundredths of |amount|. */
  lemma AmountTextCents(t: Transaction, x: real)
    requires t.amount == Some(x)
    ensures var r := AmountText(t);
      var money := if IsPositive(t) then r[1..] else r;
      DigitsValue(DigitsOnly(money)) == Config.RoundedCents(Config.Abs(x))
  {
    var r := AmountText(t);
    var money := Config.FormatMoney(t.amount);
    if IsPositive(t) {
      assert r[1..] == money;
    } else {
      assert r == "" + money == money;
    }
    Config.FormatMoneyCents(x);
  }

  const COMPLETED_LABEL := "Completada"
  const PENDING_LABEL := "Pendiente"
  const FAILED_LABEL := "Fallida"

  /** The status line: nothing without a status, otherwise one of three labels. */
  function StatusLabel(t: Transaction): (r: Option<string>)
    ensures r == None <==> !IsPresent(t.status)
    ensures r == Some(COMPLETED_LABEL) <==> t.status == Some("completed")
    ensures r == Some(PENDING_LABEL) <==> t.status == Some("pending")
    ensures r == Some(FAILED_LABEL) <==> IsPresent(t.status) && t.status.value != "completed" && t.status.value != "pending"
  {
    if !IsPresent(t.status) then None
    else if t.status.value == "completed" then Some(COMPLETED_LABEL)
    else if t.status.value == "pending" then Some(PENDING_LABEL)
    else Some(FAILED_LABEL)
  }

  const ORDINAL_PREFIX := "Transacción #"

  /** The description line: the description, or `Transacción #` and the one-based position. */
  function DisplayDescription(t: Transaction, index: nat): (r: string)
    ensures IsPresent(t.description) ==> r == t.description.value
    ensures !IsPresent(t.description) ==>
              (|ORDINAL_PREFIX| < |r| && r[..|ORDINAL_PREFIX|] == ORDINAL_PREFIX && AllDigits(r[|ORDINAL_PREFIX|..]))
  {
    if IsPresent(t.description) then t.description.value else ORDINAL_PREFIX + NatToString(index + 1)
  }

  /** The fallback text gives back the one-based position it was made from. */
  lemma DisplayDescriptionOrdinal(t: Transaction, index: nat)
    requires !IsPresent(t.description)
    ensures DigitsValue(DisplayDescription(t, index)[|ORDINAL_PREFIX|..]) == index + 1
  {
    assert DisplayDescription(t, index)[|ORDINAL_PREFIX|..] == NatToString(index + 1);
    NatToStringRoundTrip(index + 1);
  }

  /** The row's `role`: a button when it has a click handler. */
  function Role(hasOnClick: bool): string {
    if hasOnClick then "button" else "presentation"
  }

  /** The row's `tabIndex`: reachable by keyboard only when it has a click handler. */
  function TabIndex(hasOnClick: bool): int {
    if hasOnClick then 0 else -1
  }

  /** The key handler: Enter or Space acts as a click when there is a click handler. */
  predicate KeyActivates(hasOnClick: bool, key: string) {
    hasOnClick && (key == "Enter" || key == " ")
  }

  /**
   * A key press clicks only a row that is a focusable button; on such a row
   * Enter and Space both click, and Escape or any other key never does.
   */
  lemma KeyActivation(hasOnClick: bool, key: string)
    ensures KeyActivates(hasOnClick, key) ==> Role(hasOnClick) == "button" && TabIndex(hasOnClick) >= 0
    ensures TabIndex(hasOnClick) >= 0 ==> KeyActivates(hasOnClick, "Enter") && KeyActivates(hasOnClick, " ")
    ensures !KeyActivates(hasOnClick, "Escape") && !KeyActivates(hasOnClick, "Tab")
    ensures key != "Enter" && key != " " ==> !KeyActivates(hasOnClick, key)
  {
  }

  /** The icon and the amount column agree on the sign they show. */
  lemma IconMatchesAmountSign(t: Transaction)
    ensures Icon(t) == "+" <==> AmountText(t)[0] == '+'
  {
  }
}
