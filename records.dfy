/** The transaction record shared by the list views, as the API returns it. */
module Records {
  import opened Wrappers

  /**
   * A transaction; the API may leave out any field. `kind` is the JSON field
   * `type` (`credit` or `debit`). `amount` is `None` when missing or `NaN`.
   */
  datatype Transaction = Transaction(
    id: Option<string>,
    amount: Option<real>,
    kind: Option<string>,
    description: Option<string>,
    timestamp: Option<string>,
    status: Option<string>,
    fromAccountId: Option<string>,
    fromAccountName: Option<string>,
    fromAccountEmail: Option<string>,
    toAccount: Option<string>,
    category: Option<string>,
    source: Option<string>)
}
