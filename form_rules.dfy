/**
 * How the three transfer forms' rules relate. The central rule (used by the
 * UACJ form) is the strictest: whatever it accepts, the other two accept.
 * The stand-alone form also accepts amounts below one cent, and the
 * dashboard form has no upper bound and lets non-numeric text through.
 */
module FormRules {
  import opened Wrappers
  import Text
  import Config
  import TransactionModal
  import Dashboard

  /** An amount the central validator accepts is accepted by the stand-alone form. */
  lemma CentralAmountAcceptedByTransactionModal(amount: string, parse: Config.NumberParser)
    requires Config.ValidateAmount(amount, parse) == None
    ensures TransactionModal.AmountError(amount, parse) == None
  {
  }

  /** An amount the stand-alone form accepts is accepted by the dashboard form. */
  lemma TransactionModalAmountAcceptedByDashboard(amount: string, parse: Config.NumberParser)
    requires TransactionModal.AmountError(amount, parse) == None
    ensures Dashboard.AmountError(amount, parse) == None
  {
  }

  /** The inclusions are strict: each looser form accepts an amount the stricter one refuses. */
  lemma LooserRulesAreStrictlyLooser(parse: Config.NumberParser, tiny: string, huge: string, text: string)
    requires tiny != "" && parse(tiny) == Some(0.005)
    requires huge != "" && parse(huge) == Some(20000.0)
    requires text != "" && parse(text) == None
    ensures TransactionModal.AmountError(tiny, parse) == None && Config.ValidateAmount(tiny, parse).Some?
    ensures Dashboard.AmountError(huge, parse) == None && TransactionModal.AmountError(huge, parse).Some?
    ensures Dashboard.AmountError(text, parse) == None && TransactionModal.AmountError(text, parse).Some?
  {
  }

  /**
   * A recipient the two e-mail forms accept is accepted by the dashboard
   * form, which asks only for non-blank text.
   */
  lemma AcceptedEmailAcceptedEverywhere(email: string)
    requires Config.ValidateUACJEmail(email) == None
    ensures TransactionModal.RecipientError(email) == None
    ensures Dashboard.RecipientError(email) == None
  {
    TransactionModal.ValidateEmailAgreesWithCentral(email);
    Config.AcceptedEmailIsTrimmed(email);
    assert !Text.IsJsWhitespace(email[0]);
  }

  /** The reverse fails: the dashboard form takes a plain name that is no address at all. */
  lemma DashboardTakesPlainName()
    ensures Dashboard.RecipientError("Ana") == None
    ensures Config.ValidateUACJEmail("Ana") == Some(Config.INVALID_EMAIL)
  {
    var name := "Ana";
    assert !Text.IsJsWhitespace(name[0]);
    forall i | 0 <= i < |name| ensures name[i] != '@' { }
    Config.NoAtSignNoMatch(name);
  }
}
