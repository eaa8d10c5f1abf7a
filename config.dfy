/**
 * The centralised configuration of the dashboard (src/config.js): the API
 * URL builder, the authorisation headers, the validation rules with their
 * error messages, and the money and date formatters.
 */
module Config {
  import opened Wrappers
  import opened Text

  // ---- API_CONFIG and HTTP_HEADERS ------------------------------------------

  const BASE_URL := "https://apim-fintech-dev-jagm.azure-api.net/func-fintech-dev-jagm-v1"
  const TRANSACTIONS_ENDPOINT := "/transactions"
  const GLOBAL_TRANSACTIONS_ENDPOINT := "/GetGlobalTransactions"

  /** `API_CONFIG.getURL`: the endpoint appended to the base URL. */
  function GetURL(endpoint: string): (url: string)
    ensures |url| == |BASE_URL| + |endpoint|
    ensures url[..|BASE_URL|] == BASE_URL && url[|BASE_URL|..] == endpoint
  {
    BASE_URL + endpoint
  }

  /** Different endpoints never share a URL. */
  lemma GetURLInjective(e1: string, e2: string)
    requires GetURL(e1) == GetURL(e2)
    ensures e1 == e2
  {
    assert e1 == GetURL(e1)[|BASE_URL|..];
  }

  const AUTHORIZATION := "Authorization"
  const CONTENT_TYPE := "Content-Type"
  const JSON_CONTENT := "application/json"
  const BEARER := "Bearer "

  /** `HTTP_HEADERS.withAuth`: a bearer credential plus the JSON content type, and no other header. */
  function WithAuth(accessToken: string): (headers: map<string, string>)
    ensures headers.Keys == {AUTHORIZATION, CONTENT_TYPE}
    ensures headers[AUTHORIZATION] == BEARER + accessToken
    ensures headers[CONTENT_TYPE] == JSON_CONTENT
  {
    map[AUTHORIZATION := BEARER + accessToken, CONTENT_TYPE := JSON_CONTENT]
  }

  /** The credential a receiver reads out of an Authorization header. */
  function BearerToken(headers: map<string, string>): (token: Option<string>)
    ensures token.Some? ==> AUTHORIZATION in headers && headers[AUTHORIZATION] == BEARER + token.value
  {
    if AUTHORIZATION in headers && |BEARER| <= |headers[AUTHORIZATION]|
       && headers[AUTHORIZATION][..|BEARER|] == BEARER
    then Some(headers[AUTHORIZATION][|BEARER|..])
    else None
  }

  /** The header carries exactly the token it was built from. */
  lemma WithAuthRoundTrip(accessToken: string)
    ensures BearerToken(WithAuth(accessToken)) == Some(accessToken)
  {
    var h := WithAuth(accessToken)[AUTHORIZATION];
    assert h[..|BEARER|] == BEARER;
    assert h[|BEARER|..] == accessToken;
  }

  // ---- VALIDATION_RULES and ERROR_MESSAGES.VALIDATION -------------------------

  const MIN_AMOUNT: real := 0.01
  const MAX_AMOUNT: real := 10000.0
  const MAX_DESCRIPTION_LENGTH: nat := 100
  const ALLOWED_DOMAINS: seq<string> := ["@uacj.mx", "@alumnos.uacj.mx", "@uacj.edu.mx"]

  const REQUIRED_FIELD := "Este campo es requerido"
  const INVALID_EMAIL := "Formato de email inválido"
  const INVALID_AMOUNT := "Debe ingresar un monto válido mayor a 0"
  const AMOUNT_TOO_HIGH := "El monto no puede ser mayor a $10,000"
  const INVALID_UACJ_DOMAIN := "Solo se permiten emails de UACJ (@uacj.mx, @alumnos.uacj.mx, @uacj.edu.mx)"
  const DESCRIPTION_TOO_LONG := "La descripción no puede exceder 100 caracteres"

  /**
   * The conversion of a form's text to a number. `None` stands for `NaN`.
   * The source applies `isNaN` (which converts with `Number`) and then
   * `parseFloat`; the model uses one conversion for both.
   */
  type NumberParser = string -> Option<real>

  // ---- VALIDATORS.email --------------------------------------------------------

  /** The regular expression's class `[^\s@]`. */
  predicate EmailChar(c: char) {
    !IsJsWhitespace(c) && c != '@'
  }

  predicate AllEmailChars(s: string) {
    forall i | 0 <= i < |s| :: EmailChar(s[i])
  }

  /**
   * The regular expression's reading of `email` with its `@` at `i` and the
   * `.` at `j`: three non-empty runs of `[^\s@]` around them.
   */
  predicate SplitsAt(email: string, i: int, j: int) {
    && 0 < i < |email| && i + 1 < j < |email| - 1
    && email[i] == '@' && email[j] == '.'
    && AllEmailChars(email[..i]) && AllEmailChars(email[i + 1..j]) && AllEmailChars(email[j + 1..])
  }

  /** `isValidFormat`: the regular expression `^[^\s@]+@[^\s@]+\.[^\s@]+$` matches. */
  predicate IsValidFormat(email: string) {
    exists i, j | 0 < i < |email| && 0 < j < |email| :: SplitsAt(email, i, j)
  }

  /** `@` occurs in `s` only at position `k`. */
  predicate OnlyAtSignAt(s: string, k: int) {
    forall m | 0 <= m < |s| && s[m] == '@' :: m == k
  }

  /** A `.` that is neither the first nor the last character. */
  predicate HasInnerDot(d: string) {
    exists p | 0 < p < |d| - 1 :: d[p] == '.'
  }

  /** `email` has its only `@` at `k`, text before it, and an inner `.` after it. */
  predicate SoleAtSignAt(email: string, k: int) {
    0 < k < |email| && email[k] == '@' && OnlyAtSignAt(email, k) && HasInnerDot(email[k + 1..])
  }

  /**
   * The shape the regular expression accepts, stated independently: no
   * whitespace, exactly one `@`, with a non-empty part before it and, after
   * it, a domain holding a `.` that is neither its first nor its last character.
   */
  ghost predicate HasEmailShape(email: string) {
    NoWhitespace(email) && exists k | 0 < k < |email| :: SoleAtSignAt(email, k)
  }

  lemma EmailCharsBetween(s: string, lo: int, hi: int)
    requires 0 <= lo <= hi <= |s|
    requires NoWhitespace(s)
    requires forall m | lo <= m < hi :: s[m] != '@'
    ensures AllEmailChars(s[lo..hi])
  {
    forall m | 0 <= m < hi - lo ensures EmailChar(s[lo..hi][m]) {
      assert s[lo..hi][m] == s[lo + m];
    }
  }

  lemma SplitGivesShape(email: string, i: int, j: int)
    requires SplitsAt(email, i, j)
    ensures NoWhitespace(email) && SoleAtSignAt(email, i)
  {
    forall m | 0 <= m < |email| ensures !IsJsWhitespace(email[m]) && (email[m] == '@' ==> m == i) {
      if m < i {
        assert email[..i][m] == email[m];
      } else if i < m < j {
        assert email[i + 1..j][m - i - 1] == email[m];
      } else if j < m {
        assert email[j + 1..][m - j - 1] == email[m];
      }
    }
    assert email[i + 1..][j - i - 1] == '.';
  }

  lemma ShapeGivesSplit(email: string, k: int)
    requires NoWhitespace(email) && SoleAtSignAt(email, k)
    ensures IsValidFormat(email)
  {
    var d := email[k + 1..];
    var p :| 0 < p < |d| - 1 && d[p] == '.';
    var j := k + 1 + p;
    assert email[j] == d[p];
    EmailCharsBetween(email, 0, k);
    EmailCharsBetween(email, k + 1, j);
    EmailCharsBetween(email, j + 1, |email|);
    assert SplitsAt(email, k, j);
  }

  /** The regular expression accepts exactly the strings of the shape above. */
  lemma ValidFormatIff(email: string)
    ensures IsValidFormat(email) <==> HasEmailShape(email)
  {
    if IsValidFormat(email) {
      var i, j :| 0 < i < |email| && 0 < j < |email| && SplitsAt(email, i, j);
      SplitGivesShape(email, i, j);
    }
    if HasEmailShape(email) {
      var k :| 0 < k < |email| && SoleAtSignAt(email, k);
      ShapeGivesSplit(email, k);
    }
  }

  /** The allow-list test: the lower-cased text ends with one of the domains. */
  predicate HasAllowedSuffix(email: string) {
    exists domain | domain in ALLOWED_DOMAINS :: EndsWith(Lower(email), domain)
  }

  /** `isUACJDomain`. */
  predicate IsUACJDomain(email: string) {
    email != "" && HasAllowedSuffix(email)
  }

  /** `validateUACJEmail`: required, then format, then domain. */
  function ValidateUACJEmail(email: string): (r: Option<string>)
    ensures email == "" ==> r == Some(REQUIRED_FIELD)
    ensures email != "" && !IsValidFormat(email) ==> r == Some(INVALID_EMAIL)
    ensures r == None <==> IsValidFormat(email) && IsUACJDomain(email)
    ensures r == Some(INVALID_UACJ_DOMAIN) <==> IsValidFormat(email) && !HasAllowedSuffix(email)
  {
    if email == "" then Some(REQUIRED_FIELD)
    else if !IsValidFormat(email) then Some(INVALID_EMAIL)
    else if !IsUACJDomain(email) then Some(INVALID_UACJ_DOMAIN)
    else None
  }

  /**
   * An accepted address has exactly one `@`, and what follows it, lower-cased,
   * is one of the allowed domains: a suffix such as `@uacj.mx` cannot hide
   * behind a longer domain, because the allow-list entries start with `@`.
   */
  lemma AcceptedEmailDomain(email: string)
    requires ValidateUACJEmail(email) == None
    ensures exists k | 0 < k < |email| :: OnlyAtSignAt(email, k) && Lower(email[k..]) in ALLOWED_DOMAINS
  {
    ValidFormatIff(email);
    var k :| 0 < k < |email| && SoleAtSignAt(email, k);
    var domain :| domain in ALLOWED_DOMAINS && EndsWith(Lower(email), domain);
    var at := |email| - |domain|;
    assert domain[0] == '@';
    assert Lower(email)[at] == '@';
    LowerKeepsAtSign(email, at);
    assert at == k;
    LowerSlice(email, k);
    assert Lower(email[k..]) == domain;
  }

  lemma LowerKeepsAtSign(s: string, i: nat)
    requires i < |s| && Lower(s)[i] == '@'
    ensures s[i] == '@'
  {
  }

  /** An accepted address holds no whitespace, so trimming it changes nothing. */
  lemma AcceptedEmailIsTrimmed(email: string)
    requires IsValidFormat(email)
    ensures NoWhitespace(email) && Trim(email) == email
  {
    ValidFormatIff(email);
    TrimNoWhitespace(email);
  }

  lemma LowerKeepsSoleAtSign(email: string, k: int)
    requires 0 < k < |email|
    ensures SoleAtSignAt(Lower(email), k) <==> SoleAtSignAt(email, k)
  {
    var low := Lower(email);
    LowerSlice(email, k + 1);
    if HasInnerDot(email[k + 1..]) {
      var p :| 0 < p < |email[k + 1..]| - 1 && email[k + 1..][p] == '.';
      assert low[k + 1..][p] == '.';
    }
    if HasInnerDot(low[k + 1..]) {
      var p :| 0 < p < |low[k + 1..]| - 1 && low[k + 1..][p] == '.';
      assert email[k + 1..][p] == '.';
    }
  }

  lemma LowerKeepsShape(email: string)
    ensures HasEmailShape(Lower(email)) <==> HasEmailShape(email)
  {
    var low := Lower(email);
    if HasEmailShape(email) {
      var k :| 0 < k < |email| && SoleAtSignAt(email, k);
      LowerKeepsSoleAtSign(email, k);
    }
    if HasEmailShape(low) {
      var k :| 0 < k < |low| && SoleAtSignAt(low, k);
      LowerKeepsSoleAtSign(email, k);
    }
  }

  /** The whole email check ignores letter case. */
  lemma ValidateUACJEmailIgnoresCase(email: string)
    ensures ValidateUACJEmail(Lower(email)) == ValidateUACJEmail(email)
  {
    ValidFormatIff(email);
    ValidFormatIff(Lower(email));
    LowerKeepsShape(email);
    LowerIdempotent(email);
  }

  /** The four sample inputs: accepted, wrong domain, malformed, empty. */
  lemma AcceptedExample()
    ensures ValidateUACJEmail("prof@uacj.mx") == None
  {
    var good := "prof@uacj.mx";
    assert good[..4] == "prof" && good[5..9] == "uacj" && good[10..] == "mx";
    assert SplitsAt(good, 4, 9);
    assert Lower(good)[|good| - 8..] == "@uacj.mx";
    assert EndsWith(Lower(good), ALLOWED_DOMAINS[0]);
  }

  lemma WrongDomainExample()
    ensures ValidateUACJEmail("prof@gmail.com") == Some(INVALID_UACJ_DOMAIN)
  {
    var other := "prof@gmail.com";
    assert other[..4] == "prof" && other[5..10] == "gmail" && other[11..] == "com";
    assert SplitsAt(other, 4, 10);
    var low := Lower(other);
    assert low[|low| - 1] == 'm' && low[|low| - 2] == 'o';
    forall domain | domain in ALLOWED_DOMAINS ensures !EndsWith(low, domain) {
      assert domain[|domain| - 2] == 'm' && domain[|domain| - 1] == 'x';
    }
  }

  /** Without an `@` there is nothing for the regular expression to match. */
  lemma NoAtSignNoMatch(s: string)
    requires forall i | 0 <= i < |s| :: s[i] != '@'
    ensures !IsValidFormat(s)
  {
  }

  lemma MalformedAndEmptyExamples()
    ensures ValidateUACJEmail("not-an-email") == Some(INVALID_EMAIL)
    ensures ValidateUACJEmail("") == Some(REQUIRED_FIELD)
  {
    var bad := "not-an-email";
    forall i | 0 <= i < |bad| ensures bad[i] != '@' { }
    NoAtSignNoMatch(bad);
  }

  // ---- VALIDATORS.transaction -------------------------------------------------

  /**
   * `validateAmount`: missing or non-numeric, then below the minimum, then
   * above the maximum. The accepted amounts are exactly [0.01, 10000].
   */
  function ValidateAmount(amount: string, parse: NumberParser): (r: Option<string>)
    ensures r == None <==> amount != "" && parse(amount).Some? && MIN_AMOUNT <= parse(amount).value <= MAX_AMOUNT
    ensures r == Some(AMOUNT_TOO_HIGH) <==> amount != "" && parse(amount).Some? && parse(amount).value > MAX_AMOUNT
    ensures r == None || r == Some(INVALID_AMOUNT) || r == Some(AMOUNT_TOO_HIGH)
  {
    if amount == "" || parse(amount).None? then Some(INVALID_AMOUNT)
    else if parse(amount).value < MIN_AMOUNT then Some(INVALID_AMOUNT)
    else if parse(amount).value > MAX_AMOUNT then Some(AMOUNT_TOO_HIGH)
    else None
  }

  /** The four boundary samples: 0 and 10000.01 are refused, 0.01 and 10000 accepted. */
  lemma AmountBoundaries(amount: string, parse: NumberParser)
    requires amount != ""
    ensures parse(amount) == Some(0.0) ==> ValidateAmount(amount, parse) == Some(INVALID_AMOUNT)
    ensures parse(amount) == Some(0.01) ==> ValidateAmount(amount, parse) == None
    ensures parse(amount) == Some(10000.0) ==> ValidateAmount(amount, parse) == None
    ensures parse(amount) == Some(10000.01) ==> ValidateAmount(amount, parse) == Some(AMOUNT_TOO_HIGH)
  {
  }

  /** `validateDescription`: an error only past 100 characters; empty is fine. */
  function ValidateDescription(description: string): (r: Option<string>)
    ensures r == None <==> |description| <= MAX_DESCRIPTION_LENGTH
    ensures r != None ==> r == Some(DESCRIPTION_TOO_LONG)
  {
    if description != "" && |description| > MAX_DESCRIPTION_LENGTH then Some(DESCRIPTION_TOO_LONG) else None
  }

  // ---- HELPERS.formatMoney and HELPERS.formatDate -------------------------------

  function Abs(x: real): (r: real)
    ensures r >= 0.0 && (r == x || r == -x)
  {
    if x < 0.0 then -x else x
  }

  /** Hundredths in a non-negative magnitude, halves rounded up. */
  function RoundedCents(magnitude: real): nat
    requires magnitude >= 0.0
  {
    (magnitude * 100.0 + 0.5).Floor
  }

  function Pad2(n: nat): (r: string)
    requires n < 100
    ensures |r| == 2 && AllDigits(r) && DigitsValue(r) == n
  {
    var a, b := DigitChar(n / 10), DigitChar(n % 10);
    assert [a][..0] == [];
    assert DigitsValue([a]) == n / 10;
    assert [a, b][..1] == [a];
    [a, b]
  }

  function Pad3(n: nat): (r: string)
    requires n < 1000
    ensures |r| == 3 && AllDigits(r) && DigitsValue(r) == n
  {
    var a, b, c := DigitChar(n / 100), DigitChar(n / 10 % 10), DigitChar(n % 10);
    assert [a][..0] == [];
    assert DigitsValue([a]) == n / 100;
    assert [a, b][..1] == [a];
    assert DigitsValue([a, b]) == n / 100 * 10 + n / 10 % 10;
    assert [a, b, c][..2] == [a, b];
    [a, b, c]
  }

  predicate IsGroupedChar(c: char) {
    IsDigit(c) || c == ','
  }

  /** The integer part in the es-MX style: digits with a `,` before every group of three. */
  function Grouped(n: nat): (r: string)
    ensures |r| >= 1 && forall i | 0 <= i < |r| :: IsGroupedChar(r[i])
  {
    if n < 1000 then NatToString(n) else Grouped(n / 1000) + "," + Pad3(n % 1000)
  }

  /** Reading the digits of a grouped numeral back gives the number. */
  lemma {:induction false} GroupedValue(n: nat)
    ensures DigitsValue(DigitsOnly(Grouped(n))) == n
  {
    if n < 1000 {
      DigitsOnlyOfDigits(NatToString(n));
      NatToStringRoundTrip(n);
    } else {
      var high := Grouped(n / 1000);
      var low := Pad3(n % 1000);
      DigitsOnlyAppend(high + ",", low);
      DigitsOnlyAppend(high, ",");
      DigitsOnlyOfDigits(low);
      assert DigitsOnly(",") == [];
      assert DigitsOnly(high + ",") == DigitsOnly(high);
      GroupedValue(n / 1000);
      DigitsValueAppend(DigitsOnly(high), low);
      assert Pow10(3) == 1000;
    }
  }

  const NAN_MONEY := "$0.00"

  /**
   * `formatMoney`: `$0.00` for `NaN`; otherwise `$`, the grouped integer
   * part of |amount|, `.`, and two decimals. The sign is never shown.
   */
  function FormatMoney(amount: Option<real>): (r: string)
    ensures |r| >= 5 && r[0] == '$' && r[|r| - 3] == '.'
    ensures IsDigit(r[|r| - 2]) && IsDigit(r[|r| - 1])
    ensures forall i | 1 <= i < |r| - 3 :: IsGroupedChar(r[i])
    ensures forall i | 0 <= i < |r| :: r[i] != '-'
    ensures amount == None ==> r == NAN_MONEY
  {
    match amount
    case None => NAN_MONEY
    case Some(x) =>
      CentsText(RoundedCents(Abs(x)))
  }

  /** The shown text depends only on the magnitude: an amount and its negation look the same. */
  lemma FormatMoneyIgnoresSign(x: real)
    ensures FormatMoney(Some(x)) == FormatMoney(Some(-x))
  {
    assert Abs(-x) == Abs(x);
    assert FormatMoney(Some(-x)) == CentsText(RoundedCents(Abs(x)));
  }

  /** The money text for a count of hundredths. */
  function CentsText(cents: nat): (r: string)
    ensures |r| >= 5 && r[0] == '$' && r[|r| - 3] == '.'
    ensures IsDigit(r[|r| - 2]) && IsDigit(r[|r| - 1])
    ensures forall i | 1 <= i < |r| - 3 :: IsGroupedChar(r[i])
  {
    "$" + Grouped(cents / 100) + "." + Pad2(cents % 100)
  }

  lemma CentsTextValue(cents: nat)
    ensures DigitsValue(DigitsOnly(CentsText(cents))) == cents
  {
    var high := Grouped(cents / 100);
    var low := Pad2(cents % 100);
    DigitsOnlyAppend("$" + high + ".", low);
    DigitsOnlyAppend("$" + high, ".");
    DigitsOnlyAppend("$", high);
    assert DigitsOnly("$") == [] && DigitsOnly(".") == [];
    DigitsOnlyOfDigits(low);
    assert DigitsOnly(CentsText(cents)) == DigitsOnly(high) + low;
    GroupedValue(cents / 100);
    DigitsValueAppend(DigitsOnly(high), low);
    assert Pow10(2) == 100;
  }

  /** The digits shown are exactly the hundredths of |amount|, rounded. */
  lemma FormatMoneyCents(x: real)
    ensures DigitsValue(DigitsOnly(FormatMoney(Some(x)))) == RoundedCents(Abs(x))
  {
    CentsTextValue(RoundedCents(Abs(x)));
  }

  const NO_DATE := "Fecha no disponible"

  /**
   * `formatDate`: the fixed text for a missing or empty date, otherwise the
   * locale rendering, which is given as `render`.
   */
  function FormatDate(dateString: Option<string>, render: string -> string): (r: string)
    ensures !IsPresent(dateString) ==> r == NO_DATE
    ensures IsPresent(dateString) ==> r == render(dateString.value)
  {
    if IsPresent(dateString) then render(dateString.value) else NO_DATE
  }
}
