/** The banking API client: its error taxonomy, the translation of an HTTP
    outcome into a result or an error, the per-account balance batch and the
    transfer payload. HTTP itself is an input: a `Reply` says what the server
    (or the network) answered. */
module Api {
  import opened Wrappers
  import opened Text
  import opened Decimals
  import opened Accounts

  // ---------------------------------------------------------------------
  // Errors
  // ---------------------------------------------------------------------

  /** One element of an error body's "errors" array: an object seen through
      its "code", "message" and "traceId" keys, or anything else. */
  datatype ErrorEntry = Entry(code: Field, message: Field, traceId: Field) | NotAnObject

  /** `Sparebank1APIError`; `rateLimited` marks its subclass `Sparebank1RateLimitError`. */
  datatype ApiError = ApiError(rateLimited: bool, message: string, errors: seq<ErrorEntry>, httpCode: Option<int>)

  /** What a client call can raise: an API error, or any other exception (its `str()`). */
  datatype Failure = Api(error: ApiError) | Other(text: string)

  /** `str(exc)`. */
  function FailureText(f: Failure): string {
    match f
    case Api(e) => e.message
    case Other(t) => t
  }

  /** The object entries of an error list, in order. */
  function Objects(errors: seq<ErrorEntry>): (objs: seq<ErrorEntry>)
    ensures |objs| <= |errors|
    ensures forall k :: 0 <= k < |objs| ==> objs[k].Entry?
    ensures forall e :: e in objs <==> e in errors && e.Entry?
  {
    if errors == [] then []
    else Objects(errors[..|errors| - 1]) + (if errors[|errors| - 1].Entry? then [errors[|errors| - 1]] else [])
  }

  /** A single entry is kept exactly when it is an object. */
  lemma ObjectsSingleton(e: ErrorEntry)
    ensures Objects([e]) == if e.Entry? then [e] else []
  {
    assert [e][..0] == [];
  }

  /** Object entries keep their order: filtering a concatenation filters each part. */
  lemma {:induction false} ObjectsConcat(a: seq<ErrorEntry>, b: seq<ErrorEntry>)
    ensures Objects(a + b) == Objects(a) + Objects(b)
  {
    if b == [] {
      assert a + b == a;
    } else {
      assert (a + b)[..|a + b| - 1] == a + b[..|b| - 1];
      ObjectsConcat(a, b[..|b| - 1]);
    }
  }

  /** `error.get("code", "")`: `None` stands for a JSON null. */
  function CodeOf(e: ErrorEntry): Option<string>
    requires e.Entry?
  {
    match e.code
    case Missing => Some("")
    case Null => None
    case Text(s) => Some(s)
  }

  /** The `error_codes` property. */
  function ErrorCodes(errors: seq<ErrorEntry>): (codes: seq<Option<string>>)
    ensures |codes| == |Objects(errors)|
    ensures forall k :: 0 <= k < |codes| ==> codes[k] == CodeOf(Objects(errors)[k])
  {
    if errors == [] then []
    else
      var last := errors[|errors| - 1];
      ErrorCodes(errors[..|errors| - 1]) + (if last.Entry? then [CodeOf(last)] else [])
  }

  /** Codes come out in the order of the entries they belong to. */
  lemma {:induction false} ErrorCodesConcat(a: seq<ErrorEntry>, b: seq<ErrorEntry>)
    ensures ErrorCodes(a + b) == ErrorCodes(a) + ErrorCodes(b)
  {
    if b == [] {
      assert a + b == a;
    } else {
      assert (a + b)[..|a + b| - 1] == a + b[..|b| - 1];
      ErrorCodesConcat(a, b[..|b| - 1]);
    }
  }

  /** The `trace_ids` property: the non-empty trace ids of the object entries. */
  function TraceIds(errors: seq<ErrorEntry>): (ids: seq<string>)
    ensures |ids| <= |errors|
    ensures forall t :: t in ids ==> t != "" && exists i :: 0 <= i < |errors| && errors[i].Entry? && errors[i].traceId == Text(t)
    ensures forall i :: 0 <= i < |errors| && errors[i].Entry? && errors[i].traceId.Truthy() ==> errors[i].traceId.s in ids
  {
    if errors == [] then []
    else
      var last := errors[|errors| - 1];
      var rest := TraceIds(errors[..|errors| - 1]);
      assert forall i :: 0 <= i < |errors| - 1 ==> errors[..|errors| - 1][i] == errors[i];
      rest + (if last.Entry? && last.traceId.Truthy() then [last.traceId.s] else [])
  }

  /** A single entry contributes its trace id exactly when it is an object with a non-empty one. */
  lemma TraceIdsSingleton(e: ErrorEntry)
    ensures TraceIds([e]) == if e.Entry? && e.traceId.Truthy() then [e.traceId.s] else []
  {
    assert [e][..0] == [];
  }

  /** Trace ids keep the order of their entries, duplicates included. */
  lemma {:induction false} TraceIdsConcat(a: seq<ErrorEntry>, b: seq<ErrorEntry>)
    ensures TraceIds(a + b) == TraceIds(a) + TraceIds(b)
  {
    if b == [] {
      assert a + b == a;
    } else {
      assert (a + b)[..|a + b| - 1] == a + b[..|b| - 1];
      TraceIdsConcat(a, b[..|b| - 1]);
    }
  }

  /** `f"{code}: {message}"` for one object entry. */
  function RenderEntry(e: ErrorEntry): string
    requires e.Entry?
  {
    e.code.Render("unknown") + ": " + e.message.Render("No message provided")
  }

  /** The parts the error-message loop collects. */
  function RenderedEntries(errors: seq<ErrorEntry>): (parts: seq<string>)
    ensures |parts| == |Objects(errors)|
    ensures forall k :: 0 <= k < |parts| ==> parts[k] == RenderEntry(Objects(errors)[k])
  {
    if errors == [] then []
    else
      var last := errors[|errors| - 1];
      RenderedEntries(errors[..|errors| - 1]) + (if last.Entry? then [RenderEntry(last)] else [])
  }

  /** Where an entry's code is a string, the error code and the rendered part agree on it. */
  lemma CodesMatchRenderedParts(errors: seq<ErrorEntry>, k: nat)
    requires k < |Objects(errors)| && Objects(errors)[k].code.Text?
    ensures ErrorCodes(errors)[k] == Some(Objects(errors)[k].code.s)
    ensures StartsWith(RenderedEntries(errors)[k], Objects(errors)[k].code.s + ": ")
  {
    var part := RenderedEntries(errors)[k];
    var head := Objects(errors)[k].code.s + ": ";
    assert part == head + Objects(errors)[k].message.Render("No message provided");
    assert part[..|head|] == head;
  }

  /** The loop at the heart of the error message: one "code: message" per object entry, joined by "; ". */
  method BuildErrorSummary(errors: seq<ErrorEntry>) returns (summary: string)
    ensures summary == Join(RenderedEntries(errors), "; ")
  {
    var parts: seq<string> := [];
    for i := 0 to |errors|
      invariant parts == RenderedEntries(errors[..i])
    {
      assert errors[..i + 1][..i] == errors[..i];
      if errors[i].Entry? {
        parts := parts + [RenderEntry(errors[i])];
      }
    }
    assert errors[..|errors|] == errors;
    summary := Join(parts, "; ");
  }

  // ---------------------------------------------------------------------
  // Classifying an HTTP outcome
  // ---------------------------------------------------------------------

  /** Why `resp.json()` failed: aiohttp's content-type check (a ClientError) or JSON decoding. */
  datatype ParseFailure = WrongContentType(text: string) | Malformed(text: string)

  /** A reply body: parsed JSON (with the "errors" array of an object body, and the
      text `json.dumps` gives back), or not JSON (with the raw text, if it could be read). */
  datatype Body<T> =
    | JsonBody(value: T, errors: Option<seq<ErrorEntry>>, dumped: string)
    | NotJson(failure: ParseFailure, rawText: Option<string>)

  /** What came back for one request. */
  datatype Reply<T> =
    | Http(status: int, body: Body<T>, retryAfter: Option<string>)
    | ConnectionFailed(text: string)

  function StructuredErrors<T>(body: Body<T>): seq<ErrorEntry> {
    if body.JsonBody? && body.errors.Some? then body.errors.value else []
  }

  /** The error text: the re-serialised JSON, else the raw text, else a fixed note. */
  function ErrorText<T>(body: Body<T>): string {
    match body
    case JsonBody(_, _, dumped) => dumped
    case NotJson(_, Some(text)) => text
    case NotJson(_, None) => "Unable to read error response"
  }

  function RateLimitMessage(retryAfter: string, errorText: string): string {
    "Rate limit exceeded. Retry after " + retryAfter + " seconds: " + errorText
  }

  function StatusMessage(verb: string, url: string, status: int, detail: string): string {
    verb + " " + url + " failed \U{2013} HTTP " + IntToString(status) + ": " + detail
  }

  /** The error branch and the return of `_request`. */
  function Classify<T>(verb: string, url: string, reply: Reply<T>): Result<T, Failure>
  {
    match reply
    case ConnectionFailed(text) => Err(Api(ApiError(false, "Network error: " + text, [], None)))
    case Http(status, body, retryAfter) =>
      if status >= 400 then
        var structured := StructuredErrors(body);
        if status == 429 then
          Err(Api(ApiError(true, RateLimitMessage(retryAfter.GetOr("3600"), ErrorText(body)), structured, Some(status))))
        else
          var detail := if structured != [] then Join(RenderedEntries(structured), "; ") else ErrorText(body);
          Err(Api(ApiError(false, StatusMessage(verb, url, status, detail), structured, Some(status))))
      else
        match body
        case JsonBody(value, _, _) => Ok(value)
        case NotJson(WrongContentType(text), _) => Err(Api(ApiError(false, "Network error: " + text, [], None)))
        case NotJson(Malformed(text), _) => Err(Other(text))
  }

  /** A status of 400 or more always raises, with the status and the structured errors
      attached; 429 raises the rate-limit error naming the Retry-After value; a lower status
      returns the parsed body; a network failure carries no status and no errors. */
  lemma ClassifyOutcomes<T>(verb: string, url: string, reply: Reply<T>)
    ensures var r := Classify(verb, url, reply);
            && (reply.ConnectionFailed? ==> r == Err(Api(ApiError(false, "Network error: " + reply.text, [], None))))
            && (reply.Http? && reply.status >= 400 ==>
                  && r.Err? && r.error.Api?
                  && r.error.error.httpCode == Some(reply.status)
                  && r.error.error.errors == StructuredErrors(reply.body)
                  && (r.error.error.rateLimited <==> reply.status == 429))
            && (reply.Http? && reply.status == 429 ==>
                  r.error.error.message == RateLimitMessage(reply.retryAfter.GetOr("3600"), ErrorText(reply.body)))
            && (reply.Http? && reply.status >= 400 && reply.status != 429 ==>
                  r.error.error.message == StatusMessage(verb, url, reply.status,
                    if StructuredErrors(reply.body) != [] then Join(RenderedEntries(StructuredErrors(reply.body)), "; ")
                    else ErrorText(reply.body)))
            && (r.Ok? <==> reply.Http? && reply.status < 400 && reply.body.JsonBody?)
            && (r.Ok? ==> r.value == reply.body.value)
  {
  }

  // ---------------------------------------------------------------------
  // Accounts and balances
  // ---------------------------------------------------------------------

  const AccountsUrl := "https://api.sparebank1.no/personal/banking/accounts"
  const BalanceUrl := "https://api.sparebank1.no/personal/banking/accounts/balance"

  /** `get_accounts`: the "accounts" key of the reply; its absence is a KeyError. */
  function GetAccounts(reply: Reply<AccountsEnvelope>): Result<seq<Account>, Failure>
  {
    match Classify("GET", AccountsUrl, reply)
    case Err(f) => Err(f)
    case Ok(envelope) =>
      match envelope.accounts
      case None => Err(Other("'accounts'"))
      case Some(accounts) => Ok(accounts)
  }

  /** The accounts list is the "accounts" key of a successful reply; a reply without that key
      fails with the KeyError's text, and a failed request fails as classified. */
  lemma GetAccountsOutcomes(reply: Reply<AccountsEnvelope>)
    ensures GetAccounts(reply).Ok? <==> Classify("GET", AccountsUrl, reply).Ok? && reply.body.value.accounts.Some?
    ensures GetAccounts(reply).Ok? ==> GetAccounts(reply).value == reply.body.value.accounts.value
    ensures Classify("GET", AccountsUrl, reply).Ok? && reply.body.value.accounts.None? ==> GetAccounts(reply) == Err(Other("'accounts'"))
    ensures Classify("GET", AccountsUrl, reply).Err? ==> GetAccounts(reply) == Err(Classify("GET", AccountsUrl, reply).error)
  {
  }

  /** What the balance endpoint answers for each account number: the replies listed in
      `table`, and `otherwise` for any number it does not list. */
  datatype BalanceOracle = BalanceOracle(table: map<string, Reply<BalanceReply>>, otherwise: Reply<BalanceReply>) {
    function Answer(number: string): Reply<BalanceReply> {
      if number in table then table[number] else otherwise
    }
  }

  /** The outcome of the balance request for one account number. */
  function FetchBalance(fetch: BalanceOracle, number: string): Result<BalanceReply, Failure> {
    Classify("POST", BalanceUrl, fetch.Answer(number))
  }

  /** The balance request for `number` raises something other than an API error. */
  predicate Raises(fetch: BalanceOracle, number: string) {
    FetchBalance(fetch, number).Err? && FetchBalance(fetch, number).error.Other?
  }

  /** What `get_account_balances` returns for the first `|numbers|` requests: API errors
      are skipped, any other exception ends the batch. */
  function BalanceBatch(numbers: seq<string>, fetch: BalanceOracle): (r: Result<map<string, BalanceReply>, Failure>)
    ensures r.Ok? ==> forall n :: n in r.value ==> n in numbers && FetchBalance(fetch, n) == Ok(r.value[n])
    ensures r.Ok? ==> forall n :: n in numbers && FetchBalance(fetch, n).Ok? ==> n in r.value
    ensures r.Err? <==> exists n :: n in numbers && Raises(fetch, n)
    ensures r.Err? ==> r.error.Other?
  {
    if numbers == [] then Ok(map[])
    else
      var prefix := numbers[..|numbers| - 1];
      var last := numbers[|numbers| - 1];
      assert forall n :: n in numbers <==> n in prefix || n == last;
      match BalanceBatch(prefix, fetch)
      case Err(f) => Err(f)
      case Ok(m) =>
        match FetchBalance(fetch, last)
        case Ok(v) => Ok(m[last := v])
        case Err(Api(_)) => Ok(m)
        case Err(Other(t)) =>
          assert Raises(fetch, last);
          Err(Other(t))
  }

  lemma {:induction false} BalanceBatchStopsAtError(numbers: seq<string>, fetch: BalanceOracle, k: nat)
    requires k <= |numbers| && BalanceBatch(numbers[..k], fetch).Err?
    ensures BalanceBatch(numbers, fetch) == BalanceBatch(numbers[..k], fetch)
    decreases |numbers| - k
  {
    if k < |numbers| {
      assert numbers[..k + 1][..k] == numbers[..k];
      BalanceBatchStopsAtError(numbers, fetch, k + 1);
    } else {
      assert numbers[..k] == numbers;
    }
  }

  /** The batch fails with the first non-API failure in request order: later numbers are never
      asked for. */
  lemma BalanceBatchFirstFailure(numbers: seq<string>, fetch: BalanceOracle, k: nat)
    requires k < |numbers|
    requires Raises(fetch, numbers[k])
    requires forall j :: 0 <= j < k ==> !Raises(fetch, numbers[j])
    ensures BalanceBatch(numbers, fetch) == Err(FetchBalance(fetch, numbers[k]).error)
  {
    var prefix := numbers[..k];
    var upto := numbers[..k + 1];
    assert upto[..k] == prefix && upto[k] == numbers[k];
    assert forall n :: n in prefix ==> !Raises(fetch, n);
    assert BalanceBatch(prefix, fetch).Ok?;
    assert BalanceBatch(upto, fetch) == Err(FetchBalance(fetch, numbers[k]).error);
    BalanceBatchStopsAtError(numbers, fetch, k + 1);
  }

  /** The first position of a sequence that holds a member of `bad`, when there is one. */
  lemma FirstIn(numbers: seq<string>, bad: set<string>)
    requires exists n :: n in numbers && n in bad
    ensures exists k :: 0 <= k < |numbers| && numbers[k] in bad && forall j :: 0 <= j < k ==> numbers[j] !in bad
  {
    var k := 0;
    while k < |numbers| && numbers[k] !in bad
      invariant k <= |numbers|
      invariant forall j :: 0 <= j < k ==> numbers[j] !in bad
    {
      k := k + 1;
    }
    assert k < |numbers|;
  }

  /** Conversely, a failed batch carries the failure of the first request that raised a non-API
      exception. */
  lemma BalanceBatchFailureIsFirst(numbers: seq<string>, fetch: BalanceOracle)
    requires BalanceBatch(numbers, fetch).Err?
    ensures exists k :: 0 <= k < |numbers|
              && FetchBalance(fetch, numbers[k]) == Err(BalanceBatch(numbers, fetch).error)
              && forall j :: 0 <= j < k ==> !Raises(fetch, numbers[j])
  {
    var bad := set n | n in numbers && Raises(fetch, n);
    FirstIn(numbers, bad);
    var k :| 0 <= k < |numbers| && numbers[k] in bad && forall j :: 0 <= j < k ==> numbers[j] !in bad;
    BalanceBatchFirstFailure(numbers, fetch, k);
  }

  /** `get_account_balances`: one request per account number, in order. */
  method GetAccountBalances(numbers: seq<string>, fetch: BalanceOracle)
    returns (r: Result<map<string, BalanceReply>, Failure>)
    ensures r == BalanceBatch(numbers, fetch)
  {
    var results: map<string, BalanceReply> := map[];
    for i := 0 to |numbers|
      invariant BalanceBatch(numbers[..i], fetch) == Ok(results)
    {
      assert numbers[..i + 1][..i] == numbers[..i];
      var outcome := Classify("POST", BalanceUrl, fetch.Answer(numbers[i]));
      match outcome {
        case Ok(resp) =>
          results := results[numbers[i] := resp];
        case Err(Api(_)) =>
        case Err(Other(t)) =>
          BalanceBatchStopsAtError(numbers, fetch, i + 1);
          return Err(Other(t));
      }
    }
    assert numbers[..|numbers|] == numbers;
    r := Ok(results);
  }

  // ---------------------------------------------------------------------
  // Transfers
  // ---------------------------------------------------------------------

  const TransferUrl := "https://api.sparebank1.no/personal/banking/transfer/debit"

  /** The amount as the transfer endpoint receives it: quantised to hundredths
      with ROUND_HALF_UP and written with `format(d, "f")`. */
  function AmountString(amount: real): string {
    var c := QuantizeHalfUp(amount);
    FixedPoint2(amount < 0.0, if c < 0 then -c else c)
  }

  /** Fixed-point text: an optional minus, digits, a point, exactly two digits, no exponent. */
  predicate PlainTwoDecimals(s: string) {
    && |s| >= 4
    && s[|s| - 3] == '.'
    && IsDigit(s[|s| - 2]) && IsDigit(s[|s| - 1])
    && forall i :: 0 <= i < |s| - 3 ==> IsDigit(s[i]) || (i == 0 && s[i] == '-')
  }

  lemma FixedPoint2Shape(negative: bool, c: nat)
    ensures PlainTwoDecimals(FixedPoint2(negative, c))
  {
    var sign := if negative then "-" else "";
    var whole := NatToString(c / 100);
    var s := FixedPoint2(negative, c);
    var head := sign + whole;
    assert s == head + ['.', DigitChar(c % 100 / 10), DigitChar(c % 10)];
    assert |s| == |head| + 3;
    forall i | 0 <= i < |head|
      ensures IsDigit(s[i]) || (i == 0 && s[i] == '-')
    {
      assert s[i] == head[i];
      if negative && i == 0 {
        assert head[0] == '-';
      } else if negative {
        assert head[i] == whole[i - 1];
      } else {
        assert head[i] == whole[i];
      }
    }
  }

  /** The magnitude and the sign `AmountString` writes make up the half-up rounded amount. */
  lemma HalfUpSign(amount: real, m: nat)
    requires m == if QuantizeHalfUp(amount) < 0 then -QuantizeHalfUp(amount) else QuantizeHalfUp(amount)
    ensures (if amount < 0.0 then -Cents(m) else Cents(m)) == Cents(QuantizeHalfUp(amount))
  {
    var c := QuantizeHalfUp(amount);
    var cr := c as real;
    assert amount - 0.005 <= cr / 100.0 <= amount + 0.005;
    if amount < 0.0 {
      assert cr / 100.0 < 0.005;
      assert cr < 0.5;
    } else {
      assert cr / 100.0 >= -0.005;
      assert cr >= -0.5;
    }
  }

  /** The amount text has the fixed shape and denotes exactly the half-up rounded amount. */
  lemma AmountStringMeaning(amount: real)
    ensures PlainTwoDecimals(AmountString(amount))
    ensures ParseDecimal(AmountString(amount)) == Some(Cents(QuantizeHalfUp(amount)))
  {
    var c := QuantizeHalfUp(amount);
    var m: nat := if c < 0 then -c else c;
    var text := FixedPoint2(amount < 0.0, m);
    assert AmountString(amount) == text;
    FixedPoint2Shape(amount < 0.0, m);
    FixedPoint2RoundTrip(amount < 0.0, m);
    HalfUpSign(amount, m);
  }

  /** `transfer_money`'s payload: four fixed keys, "message" only for a non-empty
      description, "dueDate" only for a non-empty due date. */
  function TransferPayload(from: string, to: string, amount: real, currency: string,
                           description: string, dueDate: Option<string>): map<string, string>
  {
    var fixed := map["amount" := AmountString(amount), "fromAccount" := from, "toAccount" := to, "currencyCode" := currency];
    var withMessage := if description != "" then fixed["message" := description] else fixed;
    if dueDate.Some? && dueDate.value != "" then withMessage["dueDate" := dueDate.value] else withMessage
  }

  /** The payload carries exactly the keys the endpoint expects, the accounts and currency as
      given, and an amount in fixed two-decimal form worth the half-up rounded amount. */
  lemma TransferPayloadMeaning(from: string, to: string, amount: real, currency: string,
                               description: string, dueDate: Option<string>)
    ensures var payload := TransferPayload(from, to, amount, currency, description, dueDate);
            && payload.Keys == {"amount", "fromAccount", "toAccount", "currencyCode"}
                               + (if description != "" then {"message"} else {})
                               + (if dueDate.Some? && dueDate.value != "" then {"dueDate"} else {})
            && PlainTwoDecimals(payload["amount"])
            && ParseDecimal(payload["amount"]) == Some(Cents(QuantizeHalfUp(amount)))
            && payload["fromAccount"] == from && payload["toAccount"] == to && payload["currencyCode"] == currency
            && ("message" in payload ==> payload["message"] == description)
            && ("dueDate" in payload ==> dueDate.Some? && payload["dueDate"] == dueDate.value)
  {
    TransferPayloadFields(from, to, amount, currency, description, dueDate);
    AmountStringMeaning(amount);
  }

  lemma TransferPayloadFields(from: string, to: string, amount: real, currency: string,
                              description: string, dueDate: Option<string>)
    ensures var payload := TransferPayload(from, to, amount, currency, description, dueDate);
            && payload.Keys == {"amount", "fromAccount", "toAccount", "currencyCode"}
                               + (if description != "" then {"message"} else {})
                               + (if dueDate.Some? && dueDate.value != "" then {"dueDate"} else {})
            && payload["amount"] == AmountString(amount)
            && payload["fromAccount"] == from && payload["toAccount"] == to && payload["currencyCode"] == currency
            && ("message" in payload ==> payload["message"] == description)
            && ("dueDate" in payload ==> dueDate.Some? && payload["dueDate"] == dueDate.value)
  {
  }

  /** The payload as `transfer_money` builds it, key by key. */
  method BuildTransferPayload(from: string, to: string, amount: real, currency: string,
                              description: string, dueDate: Option<string>)
    returns (payload: map<string, string>)
    ensures payload == TransferPayload(from, to, amount, currency, description, dueDate)
  {
    var amountText := AmountString(amount);
    payload := map["amount" := amountText, "fromAccount" := from, "toAccount" := to, "currencyCode" := currency];
    if description != "" {
      payload := payload["message" := description];
    }
    if dueDate.Some? && dueDate.value != "" {
      payload := payload["dueDate" := dueDate.value];
    }
  }
}
