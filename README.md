# UACJ transfer dashboard — validation, forms and transaction display

This project models the client-side core of a React banking dashboard for UACJ
accounts. Signed-in users list their transactions and send transfers to other
UACJ e-mail addresses through an API gateway. The model covers:

- **Configuration and validators** (`src/config.js`, module `Config`):
  - the API URL builder and the bearer header helper;
  - the e-mail shape rule (the regular expression `^[^\s@]+@[^\s@]+\.[^\s@]+$`) and the UACJ domain allow-list;
  - the amount and description validators;
  - the money and date formatters.
- **Three transfer forms**, each with its own rules:
  - the stand-alone `TransactionModal` (module `TransactionModal`), which repeats the e-mail rule, accepts any amount in (0, 10000], and posts the request itself;
  - `UACJTransactionModal` (module `UACJTransactionModal`), which uses the central validators and hands a trimmed payload to its parent;
  - the dashboard's own `NewTransactionModal` (module `Dashboard`), which asks only for a positive amount and a non-blank recipient.
- **The dashboard's `createTransaction`**: its guard, the record it posts, and how it reports failures.
- **The two list displays** of a transaction: the dashboard's inline list and the shared `TransactionItem` component.

Component state (`formData`, `errors`, the dashboard's flags) becomes fields of Dafny classes. Event handlers become methods whose `ensures` give the new state as a function of the old one. The validators and display rules are functions, and lemmas state what they promise.

How the model stands in for the environment:

- **Number parsing** is a parameter, `Config.NumberParser`, that maps the typed text to a real number or to `None` for `NaN`. It stands for both `Number` and `parseFloat`.
- **Date rendering** is a parameter. In `Config.FormatDate` it stands for `toLocaleString(TIME_CONFIG.LOCALE)`; in `Dashboard.ListEntry` it stands for `toLocaleString()` in the default locale.
- **Network requests and token acquisition** become an `Outcome` parameter: success; a failed token step, before anything is sent (with its message); a failed HTTP status (with its detail text); or a failure after the request went out, such as a rejected `fetch` or a response body that cannot be read (with its message).
- **Callbacks to the parent** become method results: the payload handed to `onSubmit`, and flags for the calls to `onTransactionCreated` and `onClose`. The dashboard's own `onClose` for its form is `Dashboard.Dashboard.CloseNewTransactionModal`.
- **The parent's `isLoading` flag** becomes a method parameter.
- **`Dashboard.Dashboard.posted`** records the bodies the dashboard has sent.

Three rules differ across the forms, and lemmas in `FormRules` relate them:

- Whatever the central validators accept, the other two forms accept.
- The stand-alone form also accepts amounts below 0.01.
- The dashboard form accepts any positive amount, any non-numeric text, and any non-blank recipient.

The dashboard list shows a sign from the record's `type` (`+` only for `credit`). `TransactionItem` shows `+` for a positive amount. A transfer the dashboard creates is a `debit` with a positive amount, so the two views show it with opposite signs (`Dashboard.CreatedTransferSigns`). A failed HTTP status in `createTransaction` is reported with the prefix `Error al crear transacción: ` twice: once in the thrown message and once again when it is caught. `Dashboard.Dashboard.CreateTransaction` states this as written.

## Model

| member | source | states |
|---|---|---|
| Config.GetURL | src/config.js:12-14 | the URL is the base URL followed by the endpoint |
| Config.GetURLInjective | src/config.js:12-14 | different endpoints give different URLs |
| Config.WithAuth | src/config.js:57-62 | exactly the `Authorization` and `Content-Type` headers, with `Bearer <token>` and `application/json` |
| Config.WithAuthRoundTrip | src/config.js:57-62 | the token can be read back from the header it builds |
| Config.ValidFormatIff | src/config.js:32 | the e-mail regular expression matches exactly when the string has no whitespace, exactly one `@` (not first), and after it a `.` that is neither the first nor the last character of that part |
| Config.AcceptedEmailIsTrimmed | src/config.js:32 | an address that matches has no whitespace, so trimming leaves it unchanged |
| Config.ValidateUACJEmail | src/config.js:118-132 | empty gives the required message; a non-match gives the format message; otherwise it accepts exactly when the lower-cased address ends in an allowed domain, and gives the domain message when not |
| Config.AcceptedEmailDomain | src/config.js:109-115 | an accepted address has a single `@`, and the part from it, lower-cased, is one of `@uacj.mx`, `@alumnos.uacj.mx`, `@uacj.edu.mx` |
| Config.ValidateUACJEmailIgnoresCase | src/config.js:109-115 | lower-casing an address does not change its verdict |
| Config.LowerKeepsShape | src/config.js:32 | lower-casing keeps the e-mail shape in both directions |
| Config.AcceptedExample | src/config.js:118-132 | `prof@uacj.mx` is accepted |
| Config.WrongDomainExample | src/config.js:127-129 | `prof@gmail.com` gets the domain message |
| Config.NoAtSignNoMatch | src/config.js:32 | a string without `@` never matches the e-mail expression |
| Config.MalformedAndEmptyExamples | src/config.js:119-125 | `not-an-email` gets the format message; the empty string gets the required message |
| Config.ValidateAmount | src/config.js:137-153 | accepts exactly the numbers in [0.01, 10000]; above 10000 gives the too-high message, every other failure the invalid-amount message |
| Config.AmountBoundaries | src/config.js:144-150 | 0 is refused, 0.01 and 10000 are accepted, 10000.01 is too high |
| Config.ValidateDescription | src/config.js:156-161 | refused exactly when longer than 100 characters, with the length message |
| Config.Abs | src/config.js:218 | a non-negative magnitude equal to the value or its negation |
| Config.Pad2 | src/config.js:218-221 | two digits spelling the number |
| Config.Pad3 | src/config.js:218-221 | three digits spelling the number |
| Config.Grouped | src/config.js:218-221 | the integer part is non-empty and made only of digits and group separators |
| Config.GroupedValue | src/config.js:218-221 | the digits of the grouped integer part spell the number back |
| Config.FormatMoney | src/config.js:216-222 | `$`, then only digits and `,` grouping commas, then `.` and two digits; never shows `-`; `$0.00` for `NaN` |
| Config.FormatMoneyIgnoresSign | src/config.js:218 | an amount and its negation format alike |
| Config.CentsTextValue | src/config.js:218-221 | the digits of the rendered magnitude spell its number of hundredths |
| Config.FormatMoneyCents | src/config.js:216-222 | the digits shown spell the magnitude rounded to hundredths |
| Config.FormatDate | src/config.js:206-213 | a missing or empty date gives `Fecha no disponible`, any other date its rendering |
| Text.LowerChar | src/config.js:111 | each of `A`-`Z` becomes the matching letter of `a`-`z`, every other character is kept, and no capital remains |
| Text.Lower | src/config.js:111 | the same length, lower-cased character by character |
| Text.LowerIdempotent | src/config.js:111 | lower-casing twice is lower-casing once |
| Text.LeadingWhitespaceSpec | src/components/UACJTransactionModal.js:84 | the characters `trim` drops at the start are whitespace, and the first one it keeps is not |
| Text.TrailingWhitespaceSpec | src/components/UACJTransactionModal.js:84 | the characters `trim` drops at the end are whitespace, and the last one it keeps is not |
| Text.TrimIsSlice | src/components/UACJTransactionModal.js:84 | the trim is the slice between the leading and the trailing whitespace |
| Text.TrimEnds | src/components/UACJTransactionModal.js:84 | a non-empty trim neither starts nor ends with whitespace |
| Text.TrimShape | src/components/UACJTransactionModal.js:84-86 | the result is a slice of the input with only whitespace cut off, and neither end of it is whitespace |
| Text.TrimEmptyIff | src/Dashboard.js:280 | trimming gives the empty string exactly when the input is all whitespace |
| Text.TrimNoWhitespace | src/components/UACJTransactionModal.js:84 | a string without whitespace is its own trim |
| Text.TrimIdempotent | src/components/UACJTransactionModal.js:84-86 | trimming twice is trimming once |
| Text.NatToString | src/components/TransactionItem.js:57 | a non-empty run of digits without a leading zero |
| Text.NatToStringRoundTrip | src/components/TransactionItem.js:57 | the digits read back as the number |
| Text.DigitsValueAppend | src/config.js:218-221 | the value of joined digit strings is the first shifted left by the second's length plus the second |
| Text.DigitsOnlyAppend | src/config.js:218-221 | keeping only the digits distributes over concatenation |
| Text.DigitsOnlyOfDigits | src/config.js:218-221 | a digit string keeps all its characters |
| Forms.Lookup | src/TransactionModal.js:169 | present exactly when the key is in the error map, with its message |
| Forms.ClearError | src/TransactionModal.js:169-171 | afterwards no error shows for the key; a shown error becomes `""`; every other key is unchanged |
| Forms.FormData.With | src/TransactionModal.js:166 | the named field takes the value and the other fields keep theirs |
| TransactionModal.TransactionsUrlIsConfigured | src/TransactionModal.js:216-217 | the hard-coded POST URL is the configured base URL plus `/transactions` |
| TransactionModal.ValidateEmail | src/TransactionModal.js:148-162 | a malformed address gets the format message; a well-formed one outside the allowed domains gets the domain message; accepts exactly a matching address with an allowed domain |
| TransactionModal.ValidateEmailAgreesWithCentral | src/TransactionModal.js:148-162 | accepts exactly the addresses the central validator accepts |
| TransactionModal.FormatCheckedBeforeDomain | src/TransactionModal.js:152-158 | `a b@uacj.mx` has an allowed ending but gets the format message |
| TransactionModal.RecipientError | src/TransactionModal.js:186-194 | empty gives the required message, otherwise the e-mail check's verdict |
| TransactionModal.AmountError | src/TransactionModal.js:196-200 | accepts exactly the numbers in (0, 10000]; above 10000 is too high; otherwise invalid |
| TransactionModal.FormErrors | src/TransactionModal.js:182-204 | at most an e-mail and an amount entry, holding those checks' messages; never a description entry |
| TransactionModal.FormValidIff | src/TransactionModal.js:182-204 | the form passes exactly when the address is accepted and the amount lies in (0, 10000] |
| TransactionModal.PostBodyOf | src/TransactionModal.js:224-228 | the address as typed (and centrally accepted), the parsed amount in (0, 10000], the description or the default `Transferencia a <address>` |
| TransactionModal.PostBodyRecipientIsTrimmed | src/TransactionModal.js:225 | the untrimmed address sent is equal to its trim |
| TransactionModal.Modal.constructor | src/TransactionModal.js:140-145 | starts with an empty form and no errors |
| TransactionModal.Modal.HandleInputChange | src/TransactionModal.js:164-180 | stores the value; the field's error is blanked, or set to the e-mail complaint for a non-empty address; other errors unchanged |
| TransactionModal.Modal.ValidateForm | src/TransactionModal.js:182-204 | replaces the errors with the form's error map and reports whether it is empty |
| TransactionModal.Modal.HandleSubmit | src/TransactionModal.js:206-254 | an invalid form only shows its errors; otherwise the body is sent unless the token step fails; success empties form and errors and reports both `onTransactionCreated` and `onClose`, which happen on no other path; a failure keeps the form and shows its message under `general`, including one after the body went out (an unreadable response or a rejected `fetch`), where neither callback runs |
| TransactionModal.Modal.HandleClose | src/TransactionModal.js:256-260 | empties the form and the errors and always calls `onClose` |
| UACJTransactionModal.LiveError | src/components/UACJTransactionModal.js:33-45 | a non-empty address or amount gets the central validator's verdict; an empty value or the description gets none |
| UACJTransactionModal.InputErrors | src/components/UACJTransactionModal.js:23-46 | other fields' errors unchanged; the field shows the live error when there is one, otherwise its blanked entry |
| UACJTransactionModal.InputErrorsShown | src/components/UACJTransactionModal.js:23-46 | after typing, an error shows for the field exactly when the live check fails |
| UACJTransactionModal.EmailValidAfterTyping | src/components/UACJTransactionModal.js:113-115 | right after typing an address, the success mark shows exactly when the address is accepted |
| UACJTransactionModal.EmailValidMeansAllowedDomain | src/components/UACJTransactionModal.js:113-115 | the success mark only shows for a single-`@` address ending in an allowed domain |
| UACJTransactionModal.FormErrors | src/components/UACJTransactionModal.js:49-72 | one entry per failing central validator, holding its message |
| UACJTransactionModal.FormValidIff | src/components/UACJTransactionModal.js:49-72 | passes exactly when the address is accepted, the amount lies in [0.01, 10000] and the description has at most 100 characters |
| UACJTransactionModal.PayloadOf | src/components/UACJTransactionModal.js:83-87 | the trimmed address, the parsed amount in [0.01, 10000], the trimmed description or the default one |
| UACJTransactionModal.PayloadRecipientAccepted | src/components/UACJTransactionModal.js:83-87 | the payload's recipient is the accepted address itself, and a given description stays within 100 characters |
| UACJTransactionModal.Modal.constructor | src/components/UACJTransactionModal.js:7-12 | starts with an empty form and no errors |
| UACJTransactionModal.Modal.Open | src/components/UACJTransactionModal.js:15-20 | opening empties the form and the errors |
| UACJTransactionModal.Modal.HandleInputChange | src/components/UACJTransactionModal.js:23-46 | stores the value and moves the errors to the live-check error map |
| UACJTransactionModal.Modal.ValidateForm | src/components/UACJTransactionModal.js:49-72 | replaces the errors with the form's error map and reports whether it is empty |
| UACJTransactionModal.Modal.HandleSubmit | src/components/UACJTransactionModal.js:75-91 | hands over a payload exactly when the form is valid, and it is the form's payload |
| UACJTransactionModal.Modal.HandleClose | src/components/UACJTransactionModal.js:94-100 | while the parent is busy nothing changes and it stays open; otherwise it empties form and errors and closes |
| UACJTransactionModal.Modal.HandleKeyDown | src/components/UACJTransactionModal.js:103-107 | closes exactly on Escape when the parent is not busy |
| TransactionItem.Flow | src/components/TransactionItem.js:11-22 | both parties when both are known, otherwise `Para: <recipient>`, otherwise `De: <sender>`, otherwise nothing |
| TransactionItem.FlowNamesParties | src/components/TransactionItem.js:11-22 | a known recipient ends the line and a known sender follows `De: ` |
| TransactionItem.Icon | src/components/TransactionItem.js:8 | `+` exactly for a positive amount, `-` otherwise |
| TransactionItem.AmountText | src/components/TransactionItem.js:92 | starts with `+` exactly for a positive amount, then `$`, digits and grouping commas, `.` and two digits; never contains `-` |
| TransactionItem.AmountTextCents | src/components/TransactionItem.js:92 | past the optional `+`, the digits spell the magnitude rounded to hundredths |
| TransactionItem.StatusLabel | src/components/TransactionItem.js:72-82 | no label without a status; `Completada`, `Pendiente`, otherwise `Fallida` |
| TransactionItem.DisplayDescription | src/components/TransactionItem.js:57 | the description, or `Transacción #` followed by digits |
| TransactionItem.DisplayDescriptionOrdinal | src/components/TransactionItem.js:57 | the fallback's digits spell the one-based position |
| TransactionItem.KeyActivation | src/components/TransactionItem.js:36-43 | a key clicks only a row with a click handler, which is then a focusable button; on it Enter and Space click; Escape, Tab and every other key never do |
| TransactionItem.IconMatchesAmountSign | src/components/TransactionItem.js:51-92 | the icon is `+` exactly when the amount column starts with `+` |
| Dashboard.ApiBaseUrlIsConfigured | src/Dashboard.js:11 | the file's own base URL plus `/transactions` is the configured transactions URL |
| Dashboard.NewForm.With | src/Dashboard.js:299-300 | the named field takes the value and the other fields keep theirs |
| Dashboard.AmountError | src/Dashboard.js:276-278 | refused exactly when empty or a number not above 0; non-numeric text and any large amount pass |
| Dashboard.RecipientError | src/Dashboard.js:280-282 | refused exactly when the recipient is all whitespace |
| Dashboard.FormErrors | src/Dashboard.js:273-286 | at most an amount and a recipient entry, holding those checks' messages |
| Dashboard.FormValidIff | src/Dashboard.js:273-286 | passes exactly when the amount is non-empty and not a non-positive number and the recipient is not blank |
| Dashboard.SubmitDataOf | src/Dashboard.js:288-297 | the parsed amount (positive when numeric), the trimmed non-empty recipient, the trimmed description or the default one |
| Dashboard.NewTransactionModal.constructor | src/Dashboard.js:259-264 | starts with an empty form and no errors |
| Dashboard.NewTransactionModal.Open | src/Dashboard.js:266-271 | opening empties the form and the errors |
| Dashboard.NewTransactionModal.HandleInputChange | src/Dashboard.js:299-304 | stores the value and blanks only that field's shown error |
| Dashboard.NewTransactionModal.ValidateForm | src/Dashboard.js:273-286 | replaces the errors with the form's error map and reports whether it is empty |
| Dashboard.NewTransactionModal.HandleSubmit | src/Dashboard.js:288-297 | hands over data exactly when the form is valid, and it is the form's data |
| Dashboard.UserInfoOf | src/Dashboard.js:445-449 | the account name, or the username when the name is missing or empty; the id and e-mail from the account |
| Dashboard.NewTransactionRecord | src/Dashboard.js:475-487 | the sender from the user, the recipient, amount and description from the data, the timestamp, and the fixed `debit`, `transfer`, `web_app`, `completed` |
| Dashboard.Dashboard.constructor | src/Dashboard.js:391-394 | starts with no user, no error, nothing posted and the form closed |
| Dashboard.Dashboard.RecordSignIn | src/Dashboard.js:445-449 | stores the account's user information and changes nothing else |
| Dashboard.Dashboard.OpenNewTransactionModal | src/Dashboard.js:559-565 | opens the form and changes nothing else |
| Dashboard.Dashboard.CloseNewTransactionModal | src/Dashboard.js:611 | hides the form and changes nothing else |
| Dashboard.Dashboard.CreateTransaction | src/Dashboard.js:465-512 | without an account or user only the no-user error is set; otherwise the record is posted unless the token step fails; success closes the form and keeps the error unless the reload fails, which sets the load error; a token failure and a rejected `fetch` show one prefix and an HTTP failure two, and only the token failure posts nothing; the busy flag ends false |
| Dashboard.ListDateIsFormatDate | src/Dashboard.js:584-586 | the list's date column is `formatDate`'s result for the same renderer, so both show `Fecha no disponible` for a missing date |
| Dashboard.ListEntry | src/Dashboard.js:577-601 | the description or ordinal fallback, the date or `Fecha no disponible`, the from/to line only when both parties are known, `+` exactly for `credit`, and 0 for a missing amount |
| Dashboard.CreatedTransferSigns | src/Dashboard.js:598-600 | a created transfer with a positive amount shows `-` in the dashboard list but `+` in `TransactionItem` |
| Dashboard.SubmittedDescriptionPresent | src/Dashboard.js:294 | the submitted description is never empty |
| Dashboard.CreatedTransferListed | src/Dashboard.js:475-487 | a created transfer is listed under its own description, with its time, and with a from/to line naming the trimmed recipient when the sender has a name |
| FormRules.CentralAmountAcceptedByTransactionModal | src/TransactionModal.js:196-200 | an amount the central validator accepts passes the stand-alone form |
| FormRules.TransactionModalAmountAcceptedByDashboard | src/Dashboard.js:276-278 | an amount the stand-alone form accepts passes the dashboard form |
| FormRules.LooserRulesAreStrictlyLooser | src/Dashboard.js:276-278 | 0.005 passes the stand-alone form but not the central rule; 20000 and non-numeric text pass the dashboard form but not the stand-alone one |
| FormRules.AcceptedEmailAcceptedEverywhere | src/Dashboard.js:280-282 | an accepted address passes the stand-alone and dashboard recipient checks |
| FormRules.DashboardTakesPlainName | src/Dashboard.js:280-282 | `Ana` passes the dashboard form but is not an address |

## Left out

- Token acquisition, `fetch`, response parsing and the order of asynchronous updates: each request's result is the `Outcome` parameter.
- The disabled state of controls while a request runs: the `submitting` flag of `TransactionModal`, the `disabled={isCreatingTransaction}` "Nueva Transacción" button of the dashboard, and the inputs and submit button that `isLoading` disables in `UACJTransactionModal` and the dashboard's form. The dashboard's `isCreatingTransaction` is kept as a field but is false again whenever `createTransaction` returns, since the model runs each request to its end in one step.
- The list reload after a dashboard transfer (`fetchTransactions`): the model records the posted body in `posted` and models a failed reload's error message, but does not hold the re-read list.
- The dashboard's initial load and its loading and error screens; only the user-information step is modelled.
- `generateId`, `debugLog`, `ENVIRONMENT`, `APP_CONFIG` and `CHART_CONFIG` play no part in the validation or the display rules. `TIME_CONFIG` enters only through `TIME_CONFIG.LOCALE` in `formatDate`, which the rendering parameter stands for.
- The too-high amount message (`AMOUNT_TOO_HIGH` in `Config`): the source renders the 10000 in this message with `toLocaleString()` in the browser's default locale; the model fixes the es-MX text `$10,000`.
- Config.ValidateAmount: `Number` (inside `isNaN`) and `parseFloat` are one parser. Text like `12abc`, which `parseFloat` reads but `Number` refuses, is not told apart. Blank text such as a single space is not reproduced either: `Number(" ")` is 0, so `isNaN` passes it, and `parseFloat(" ")` is `NaN`, which fails both range comparisons, so the source accepts it; the model reads it once and refuses it.
- TransactionModal.AmountError: the same one-parser reading; the source accepts blank text such as a single space (`isNaN` is false and `NaN <= 0` is false) and would send `NaN` as the amount, which the model refuses.
- Config.FormatMoney: amounts are exact reals rounded half up to hundredths. Binary floating point, its double rounding, and `Infinity` are not modelled.
- Config.FormatDate: the `Fecha inválida` fallback of the `catch` is covered by the rendering parameter, which is total.
- Dashboard.ListEntry: the amount is the number itself; its text from JavaScript number-to-string is not modelled.
- Text.Lower: only ASCII letters are lower-cased; full Unicode case mapping is not modelled.
- String lengths count characters, not UTF-16 code units.
- A missing field and an empty string are treated alike wherever the source tests truthiness. A `null` or `undefined` address is the empty string.
- Hover state, colours, styles and the layout of the rendered markup.
- `GlobalTransactionsModal`, `KPICard`, `MainHub`, `Header`, `App`, `ArchitecturePage`, `authConfig` and `theme` are not part of this model.
