# Sparebank1 Pengerobot — a Dafny model of the integration's core

Sparebank1 Pengerobot is a Home Assistant integration for the Sparebank 1
personal-banking API. It shows account balances as sensors and lets
automations move money between accounts. This project models its core in
Dafny and proves properties of that model:

- **Validation helpers** (`utils.dfy`, module `Utils`). This covers:
  - the modulus-11 check of Norwegian account numbers;
  - amount validation with Decimal quantisation to hundredths;
  - fixed-rate currency conversion through NOK;
  - the combined "validate, convert, compare with the cap" check run before a transfer.
- **Python `decimal` arithmetic** (`decimals.dfy`, module `Decimals`). This is what those helpers rely on:
  - reading a finite literal as `Decimal(str)` does;
  - half-even rounding (the default context) and half-up rounding (`ROUND_HALF_UP`);
  - writing a two-decimal value.
- **The API client** (`api.dfy`, module `Api`):
  - the error types and their `error_codes` / `trace_ids` projections;
  - how `_request` turns an HTTP outcome into a value or an error, including the 429 rate-limit error and its "Retry after N seconds" text;
  - `get_accounts`;
  - the per-number balance batch of `get_account_balances`;
  - the `transfer_money` payload.
- **The coordinator** (`coordinator.dfy`, module `Coordinator`), a class whose fields are:
  - the rate-limit backoff deadline;
  - the polling interval;
  - the current snapshot, plus the host's `last_update_success` flag;
  - an effect log of every client call and host request.

  Its methods are:
  - `Poll` (`_async_update_data`). It covers backoff, account selection, skipping credit cards, the rewrite of inline balances, the balance batch and merge, error wrapping, and reading the backoff from the rate-limit message.
  - the targeted balance refresh.
  - the two transfers.

  Each method is proved equal to a transition function on a `State` value. Lemmas about those functions state what the source promises.
- **The sensor platform** (`sensor.dfy`, module `Sensor`):
  - account identifiers and unique ids;
  - the discovery callback, a class keeping the set of added ids;
  - base and per-balance availability;
  - the attributes of the accounts sensor and of a balance sensor.

Shared pieces:
- `wrappers.dfy` holds `Option` and `Result`.
- `text.dfy` holds digits, `str(int)`, `str.join` and `startswith`.
- `accounts.dfy` holds the JSON shapes of accounts and balance replies. A JSON key is `Missing`, `Null` or `Text`.

Some inputs are parameters of the model:
- The banking server is an oracle:
  - the accounts reply is a `Reply` value;
  - the balance endpoint is a `BalanceOracle` (a reply per account number).
- Time is an integer count of seconds (`now`).
- The account selection comes from the config entry's options and data.

Where the written description of the integration and its code disagree, the model follows the code:
- `validate_amount` quantises with the default context, which rounds half to even. It does not round half up. `ValidateRoundsTiesToEven` states this.
- The account-number check does not catch every single-digit error. A remainder of 0 and a remainder of 1 both call for check digit 0. `UndetectedSingleDigitChange` exhibits two valid numbers one digit apart.
- The coordinator restores the default polling interval only inside the branch where a backoff deadline was set. Nothing else in the integration changes the interval, so the restore never changes its value. The model keeps the branch as written.

## Model

| member | source | states |
|---|---|---|
| Text.NatToString | custom_components/sparebank1_pengerobot/coordinator.py:261-262 | `str(n)` of a natural number is a non-empty digit string without a leading zero |
| Text.Join | custom_components/sparebank1_pengerobot/api.py:113 | joining no parts gives "" and joining one part gives that part |
| Text.JoinConcat | custom_components/sparebank1_pengerobot/api.py:113 | joining two non-empty lists of parts is joining each and putting one separator between them |
| Text.JoinParts | custom_components/sparebank1_pengerobot/api.py:113 | the k-th part sits in the joined text right after the joined earlier parts and their separator |
| Text.NatToStringValue | custom_components/sparebank1_pengerobot/coordinator.py:261-262 | reading back the decimal digits written for `n` gives `n` (`int(str(n)) == n`), which the Retry-After round trip rests on |
| Decimals.RoundHalfEven | custom_components/sparebank1_pengerobot/utils.py:55 | the result is within one half of `x`, and a tie goes to the even integer |
| Decimals.RoundHalfUp | custom_components/sparebank1_pengerobot/api.py:190 | the result is within one half of `x`, and a tie goes away from zero |
| Decimals.RoundHalfUpOdd | custom_components/sparebank1_pengerobot/api.py:190 | half-up rounding is symmetric: rounding `-x` gives minus the rounding of `x` |
| Decimals.QuantizeHalfEven | custom_components/sparebank1_pengerobot/utils.py:55 | the quantised value is within half a hundredth of the input, and an input exactly halfway between two hundredths goes to the even one |
| Decimals.QuantizeHalfUp | custom_components/sparebank1_pengerobot/api.py:190 | the quantised value is within half a hundredth of the input, and an input exactly halfway goes away from zero (up for positive, down for negative) |
| Decimals.ParseLiteral | custom_components/sparebank1_pengerobot/utils.py:44 | an accepted literal has at least one digit, and all its mantissa characters are digits |
| Decimals.ParseLiteralPrintBack | custom_components/sparebank1_pengerobot/utils.py:44 | every accepted literal is, once stripped, spelled exactly as an optional sign (minus iff negative), its whole digits, a point if it has one (none when there is no fraction), its fraction digits and an exponent text that reads back as its exponent |
| Decimals.SpanDigitsPrefix | custom_components/sparebank1_pengerobot/coordinator.py:261 | `\d+` consumes exactly a digit string that is followed by a non-digit |
| Decimals.ParseTwoDecimals | custom_components/sparebank1_pengerobot/api.py:191 | `[-]digits.xy` parses as that sign, whole part and two fraction digits, with no exponent |
| Decimals.FixedPoint2RoundTrip | custom_components/sparebank1_pengerobot/api.py:190-191 | parsing the two-decimal text of `c` hundredths gives back exactly `±c/100` |
| Decimals.FixedPoint2Value | custom_components/sparebank1_pengerobot/api.py:190-191 | the literal for whole part c/100 and digits of c%100 is all digits and denotes exactly ±c/100 |
| Decimals.CentsStringRoundTrip | custom_components/sparebank1_pengerobot/utils.py:55-57 | parsing `str()` of a value quantised to hundredths gives that value back |
| Utils.RatesPositive | custom_components/sparebank1_pengerobot/utils.py:87 | every configured rate is positive, so the division in the conversion is defined |
| Utils.Clean | custom_components/sparebank1_pengerobot/utils.py:14 | no whitespace or dot is left after cleaning |
| Utils.ValidateAccountNumber | custom_components/sparebank1_pengerobot/utils.py:8-32 | the checksum loop accepts exactly the numbers that satisfy the modulus-11 predicate |
| Utils.CleanConcat | custom_components/sparebank1_pengerobot/utils.py:14 | removing separators distributes over concatenation |
| Utils.CleanDigits | custom_components/sparebank1_pengerobot/utils.py:14 | a digit string is unchanged by cleaning |
| Utils.CleanChar | custom_components/sparebank1_pengerobot/utils.py:14 | a single separator is removed and any other character is kept |
| Utils.CleanKeeps | custom_components/sparebank1_pengerobot/utils.py:14 | a non-separator character survives cleaning in place, between the cleaned text before it and after it |
| Utils.SeparatorIgnored | custom_components/sparebank1_pengerobot/utils.py:13-14 | inserting a space or dot anywhere does not change validity |
| Utils.ValidMeansElevenDigits | custom_components/sparebank1_pengerobot/utils.py:16-18 | a valid number is exactly eleven digits once cleaned |
| Utils.ValidIffCheckDigit | custom_components/sparebank1_pengerobot/utils.py:20-32 | an 11-digit number is valid iff its last digit equals the check digit derived from the weighted remainder (0 for remainder 0 or 1, else 11 − remainder) |
| Utils.WeightedSumUpdate | custom_components/sparebank1_pengerobot/utils.py:22-26 | changing one of the first ten digits changes the weighted sum by weight times the digit difference |
| Utils.WeightedDifferenceNotMultiple | custom_components/sparebank1_pengerobot/utils.py:22 | a weight in 2..7 times a non-zero digit difference is never a multiple of 11 |
| Utils.CheckDigitChangeDetected | custom_components/sparebank1_pengerobot/utils.py:28-32 | changing the check digit of a valid number always makes it invalid |
| Utils.BodyDigitChange | custom_components/sparebank1_pengerobot/utils.py:22-32 | changing one of the first ten digits always changes the remainder, and the result stays valid only when both remainders are below 2 |
| Utils.WeightedSumZeros | custom_components/sparebank1_pengerobot/utils.py:22-26 | the weighted sum of zeros is 0 |
| Utils.UndetectedSingleDigitChange | custom_components/sparebank1_pengerobot/utils.py:28-32 | 00000000000 and 00000200000 differ in one digit and are both valid |
| Utils.ValidateAmount | custom_components/sparebank1_pengerobot/utils.py:35-60 | valid iff the text parses, is positive and does not exceed a parseable limit; an unparseable text or limit gives "Invalid amount format", a non-positive value "Amount must be positive", a value over the limit "Amount cannot exceed {max}" with the limit text; a valid amount is the half-even quantisation; the amount is present iff valid iff the message is empty |
| Utils.PositivityBeforeRounding | custom_components/sparebank1_pengerobot/utils.py:47-55 | the positivity check sees the unrounded value, so 0 < v < 0.005 is accepted and becomes 0.00 |
| Utils.ValidateRoundsTiesToEven | custom_components/sparebank1_pengerobot/utils.py:55 | an amount exactly halfway between two hundredths goes to the even hundredth |
| Utils.ValidateKeepsHundredths | custom_components/sparebank1_pengerobot/utils.py:44-57 | a positive whole number of hundredths, written out, validates to itself |
| Utils.ConvertCurrency | custom_components/sparebank1_pengerobot/utils.py:63-93 | unknown source, then unknown target, raise with the source's messages; the same currency returns the amount untouched; otherwise the result is exactly the half-even quantisation of amount / rate(from) × rate(to) |
| Utils.HundredDollarsInKroner | custom_components/sparebank1_pengerobot/utils.py:83-93 | 100 USD converts to 1000.00 NOK at the fixed rates |
| Utils.EqualRateConversionExact | custom_components/sparebank1_pengerobot/utils.py:83-93 | between NOK, SEK and DKK a whole number of hundredths converts unchanged |
| Utils.RoundHalfEvenInteger | custom_components/sparebank1_pengerobot/utils.py:93 | an integer is its own half-even rounding |
| Utils.ValidateWithConversion | custom_components/sparebank1_pengerobot/utils.py:96-140 | the check returns an amount exactly when it accepts |
| Utils.ValidateWithConversionMeaning | custom_components/sparebank1_pengerobot/utils.py:96-140 | a basic validation failure is returned as is; a conversion error becomes its message; an unparseable cap gives the format message; otherwise the result is valid iff the converted amount is at most the cap, returns the validated (unconverted) amount, and over the cap carries the limit message |
| Utils.LimitMessageMentionsBoth | custom_components/sparebank1_pengerobot/utils.py:129-133 | the over-the-cap message names the original amount with its currency and the converted amount with the default currency |
| Utils.LimitTextMentionsBoth | custom_components/sparebank1_pengerobot/utils.py:129-133 | the message template contains both amounts it is given |
| Utils.OccursBetween | custom_components/sparebank1_pengerobot/utils.py:129-133 | a middle part occurs where it was concatenated |
| Utils.CapIsInclusive | custom_components/sparebank1_pengerobot/utils.py:127-135 | whenever the converted amount equals the parsed cap, the check accepts and returns the validated amount with no message |
| Utils.FiftyDollarsOverDefaultCap | custom_components/sparebank1_pengerobot/utils.py:96-133 | "50" USD against a 200 NOK cap is rejected with the message naming 50.00 USD and 500.00 NOK |
| Api.FailureText | custom_components/sparebank1_pengerobot/api.py:22-23 | the text of a failure is the error's message |
| Api.Objects | custom_components/sparebank1_pengerobot/api.py:30 | keeps exactly the object entries: no more than the input, all of them objects, an entry listed iff it is an object entry of the input |
| Api.ObjectsSingleton | custom_components/sparebank1_pengerobot/api.py:30 | a single entry is kept iff it is an object |
| Api.ObjectsConcat | custom_components/sparebank1_pengerobot/api.py:30 | filtering commutes with concatenation, so the object entries keep their order |
| Api.ErrorCodes | custom_components/sparebank1_pengerobot/api.py:27-30 | one code per object entry, in order, with "" for an absent code |
| Api.ErrorCodesConcat | custom_components/sparebank1_pengerobot/api.py:27-30 | the codes of a concatenation are the concatenation of the codes |
| Api.TraceIds | custom_components/sparebank1_pengerobot/api.py:32-35 | every listed trace id is a non-empty trace id of an object entry, and every non-empty trace id of an object entry is listed |
| Api.TraceIdsSingleton | custom_components/sparebank1_pengerobot/api.py:32-35 | a single entry contributes its trace id iff it is an object with a non-empty trace id |
| Api.TraceIdsConcat | custom_components/sparebank1_pengerobot/api.py:32-35 | the trace ids of a concatenation are the concatenation of the trace ids, so their order follows the entries |
| Api.RenderedEntries | custom_components/sparebank1_pengerobot/api.py:107-112 | one "code: message" part per object entry, in order, with "unknown" and "No message provided" for absent keys |
| Api.CodesMatchRenderedParts | custom_components/sparebank1_pengerobot/api.py:27-30 | where an entry's code is a string, `error_codes` holds it and the message part starts with it |
| Api.BuildErrorSummary | custom_components/sparebank1_pengerobot/api.py:105-113 | the loop produces the "; "-joined parts of the object entries |
| Api.ClassifyOutcomes | custom_components/sparebank1_pengerobot/api.py:64-125 | a network failure is an API error "Network error: …" with no status; a status of 400 or more is always an API error with that status and the structured errors, rate-limited iff 429; a 429 message names the Retry-After value (default 3600) and the error text; any other status names verb, URL, status and either the joined entries or the error text; the result is a value iff the status is below 400 and the body is JSON |
| Api.GetAccountsOutcomes | custom_components/sparebank1_pengerobot/api.py:130-147 | the result is the reply's "accounts" list; a reply without that key fails with the KeyError text; a failed request fails as classified |
| Api.BalanceOracle.Answer | custom_components/sparebank1_pengerobot/api.py:167-171 | the reply the endpoint gives for one account number |
| Api.FetchBalance | custom_components/sparebank1_pengerobot/api.py:168-170 | one balance request is a classified POST to the balance URL |
| Api.BalanceBatch | custom_components/sparebank1_pengerobot/api.py:149-174 | every returned number was requested and maps to its own successful reply; every successful number is returned; API errors are skipped; the batch fails iff some request raised a non-API exception, and then with a non-API failure (the first one in request order, by `BalanceBatchFirstFailure` and `BalanceBatchFailureIsFirst`) |
| Api.BalanceBatchStopsAtError | custom_components/sparebank1_pengerobot/api.py:167-174 | once a prefix of the requests has failed, the later requests do not change the outcome |
| Api.BalanceBatchFirstFailure | custom_components/sparebank1_pengerobot/api.py:167-174 | when the k-th request is the first to raise a non-API exception, the batch fails with exactly that failure |
| Api.BalanceBatchFailureIsFirst | custom_components/sparebank1_pengerobot/api.py:167-174 | a failed batch fails with the failure of some request, and no earlier request raised a non-API exception |
| Api.GetAccountBalances | custom_components/sparebank1_pengerobot/api.py:149-174 | the request loop computes exactly the batch outcome |
| Api.FixedPoint2Shape | custom_components/sparebank1_pengerobot/api.py:191 | two-decimal text is an optional minus, digits, a point and two digits |
| Api.AmountStringMeaning | custom_components/sparebank1_pengerobot/api.py:188-191 | the amount text has the plain two-decimal shape and denotes exactly the half-up quantised amount |
| Api.TransferPayloadFields | custom_components/sparebank1_pengerobot/api.py:186-203 | the payload keys are the four fixed ones plus "message" iff the description is non-empty and "dueDate" iff the due date is non-empty; its values are the accounts, the currency, the description, the due date and the amount text |
| Api.TransferPayloadMeaning | custom_components/sparebank1_pengerobot/api.py:186-203 | the payload has the four fixed keys, plus "message" iff the description is non-empty and "dueDate" iff the due date is non-empty; its values are the accounts, the currency and the half-up amount text |
| Api.BuildTransferPayload | custom_components/sparebank1_pengerobot/api.py:193-203 | the key-by-key construction yields the payload |
| Coordinator.LeftmostIsFirst | custom_components/sparebank1_pengerobot/coordinator.py:261 | the search finds nothing iff no position matches, and otherwise the first matching position |
| Coordinator.LeftmostAt | custom_components/sparebank1_pengerobot/coordinator.py:261 | when position k matches and no earlier one does, the search returns k's match |
| Coordinator.NoMatchWithout | custom_components/sparebank1_pengerobot/coordinator.py:261 | text that departs from "Retry after " does not match there |
| Coordinator.NoMatchInOpening | custom_components/sparebank1_pengerobot/coordinator.py:261 | no match starts inside "Rate limit exceeded. " |
| Coordinator.MatchOfHeader | custom_components/sparebank1_pengerobot/coordinator.py:261-262 | at "Retry after " the match reads the header's digits |
| Coordinator.RetryAfterFirstMatch | custom_components/sparebank1_pengerobot/coordinator.py:261-262 | the backoff is the number of the leftmost match |
| Coordinator.RetryAfterRoundTrip | custom_components/sparebank1_pengerobot/coordinator.py:255-266 | a numeric Retry-After header put into the rate-limit message by the client is read back exactly by the coordinator |
| Coordinator.RetryAfterDefault | custom_components/sparebank1_pengerobot/coordinator.py:261-262 | a message in which no position matches `Retry after (\d+) seconds` gives the default backoff of 3600 seconds |
| Coordinator.KeepSelected | custom_components/sparebank1_pengerobot/coordinator.py:92-104 | keeps exactly the accounts whose number is selected |
| Coordinator.KeepSelectedConcat | custom_components/sparebank1_pengerobot/coordinator.py:92-104 | filtering commutes with concatenation, so relative order is kept |
| Coordinator.Filtered | custom_components/sparebank1_pengerobot/coordinator.py:89-107 | an empty selection keeps every account; otherwise exactly the selected ones are kept |
| Coordinator.FilterAccounts | custom_components/sparebank1_pengerobot/coordinator.py:92-104 | the filter loop computes `Filtered` |
| Coordinator.FetchCandidates | custom_components/sparebank1_pengerobot/coordinator.py:115-149 | every listed number belongs to an account with a truthy number, not typed CREDITCARD and not starting with "K"; there are no more numbers than accounts |
| Coordinator.FetchCandidatesSingleton | custom_components/sparebank1_pengerobot/coordinator.py:118-149 | one account contributes its number iff it wants a fetch |
| Coordinator.FetchCandidatesConcat | custom_components/sparebank1_pengerobot/coordinator.py:118-149 | the numbers of a concatenation are the concatenation of the numbers, so they follow account order |
| Coordinator.CollectFetchNumbers | custom_components/sparebank1_pengerobot/coordinator.py:118-149 | the loop collects exactly those numbers in order |
| Coordinator.RemoveFirst | custom_components/sparebank1_pengerobot/coordinator.py:183-184 | `list.remove` takes one occurrence off the multiset, and changes nothing for an absent value |
| Coordinator.RemoveFirstAt | custom_components/sparebank1_pengerobot/coordinator.py:183-184 | it is the first occurrence that is removed: the elements before and after it stay, in order |
| Coordinator.RewriteInlineBalances | custom_components/sparebank1_pengerobot/coordinator.py:160-185 | every numeric balance becomes {amount: its text, currency: currencyCode or "NOK"}; one fetch per such account is cancelled |
| Coordinator.FetchCandidatesCount | custom_components/sparebank1_pengerobot/coordinator.py:115-149 | a number is listed once per account that wants it fetched |
| Coordinator.StripInlineCount | custom_components/sparebank1_pengerobot/coordinator.py:182-184 | each inline balance cancels one pending fetch of its number while any is left |
| Coordinator.SomeFetchWithoutInline | custom_components/sparebank1_pengerobot/coordinator.py:160-185 | if more accounts want a number fetched than carry it inline, one wanting account has no inline balance |
| Coordinator.StillListedCounts | custom_components/sparebank1_pengerobot/coordinator.py:182-188 | a number still pending was a candidate, and is wanted more often than it is inline |
| Coordinator.FetchedNumbersNeedFetching | custom_components/sparebank1_pengerobot/coordinator.py:115-190 | a number sent to the balance endpoint belongs to a fetch-wanting account with no inline balance |
| Coordinator.MergeFetched | custom_components/sparebank1_pengerobot/coordinator.py:193-219 | only the balance changes: to {accountBalance, currencyCode or "NOK"} when the number was pending, came back and has that key; otherwise nothing changes |
| Coordinator.MergeFetchedBalances | custom_components/sparebank1_pengerobot/coordinator.py:193-226 | the merge loop applies `MergeFetched` to every account |
| Coordinator.EnrichAccounts | custom_components/sparebank1_pengerobot/coordinator.py:111-232 | the enrichment block computes the enrichment and the pending numbers |
| Coordinator.EnrichProperties | custom_components/sparebank1_pengerobot/coordinator.py:111-232 | enrichment keeps every account but its balance, makes every inline balance an object, records one error iff the batch raised (its text), and otherwise merges the batch |
| Coordinator.Refreshed | custom_components/sparebank1_pengerobot/coordinator.py:366-374 | only touched accounts change, and only their balance: {accountBalance (null when absent), currencyCode, else the old balance's currency, else "NOK"} |
| Coordinator.FirstRaise | custom_components/sparebank1_pengerobot/coordinator.py:366-374 | the first touched account whose balance is not an object, where the currency lookup raises |
| Coordinator.RefreshedUpTo | custom_components/sparebank1_pengerobot/coordinator.py:366-374 | an account that differs was touched and lies before the stopping point |
| Coordinator.MergeRefreshed | custom_components/sparebank1_pengerobot/coordinator.py:364-374 | the in-place loop merges up to the first raising account, reports whether it raised, and otherwise whether it updated any account |
| Coordinator.PollStep | custom_components/sparebank1_pengerobot/coordinator.py:56-278 | inside the backoff window the poll fails with "Rate limited, will retry later" and changes nothing else; it succeeds iff past the window and the accounts arrive |
| Coordinator.PollFetchesAccounts | custom_components/sparebank1_pengerobot/coordinator.py:66-71 | past the backoff deadline the accounts are requested first |
| Coordinator.PollFailure | custom_components/sparebank1_pengerobot/coordinator.py:255-278 | a failed poll keeps the snapshot and the interval and marks the update failed; inside the backoff window it fails with "Rate limited, will retry later" and logs nothing; otherwise it logs the accounts request, fails with the wrapped error message, and moves the deadline exactly for a rate-limit error, to now plus the seconds its message names |
| Coordinator.PollSuccess | custom_components/sparebank1_pengerobot/coordinator.py:234-253 | a successful poll stores the snapshot it returns, stamps it now, clears the backoff, restores the interval if a backoff was set, marks it partial iff it carries an error (at most one); its accounts and errors are the enrichment of the selected accounts, and the log records the accounts request, the balance request of the pending numbers and the publication |
| Coordinator.RateLimitBacksOff | custom_components/sparebank1_pengerobot/coordinator.py:255-272 | a 429 with Retry-After n backs off until exactly now + n, with the message "Rate limited: …" |
| Coordinator.RefreshEmptyIsNoop | custom_components/sparebank1_pengerobot/coordinator.py:347-348 | an empty list of numbers changes nothing |
| Coordinator.RefreshWithoutSnapshot | custom_components/sparebank1_pengerobot/coordinator.py:352-355 | without a snapshot only a full refresh is requested |
| Coordinator.RefreshBatchFailure | custom_components/sparebank1_pengerobot/coordinator.py:357-362 | a failing balance batch is raised and leaves the snapshot alone |
| Coordinator.RefreshTouchesOnlyRequested | custom_components/sparebank1_pengerobot/coordinator.py:364-380 | the refresh changes only accounts whose number was requested and returned; backoff, interval and errors are kept; time and the partial flag change only when it completed after updating some account |
| Coordinator.TransferFailureSkipsRefresh | custom_components/sparebank1_pengerobot/coordinator.py:305-310 | a failed transfer runs no refresh; an API error is re-raised unchanged, anything else becomes "Unexpected error: …" |
| Coordinator.TransferSuccessRefreshes | custom_components/sparebank1_pengerobot/coordinator.py:296-303 | after a successful transfer its result is returned; the given accounts are refreshed; at most one full refresh is requested, and exactly one when there is no snapshot or the balance request raises |
| Coordinator.TransferRequestsFullRefresh | custom_components/sparebank1_pengerobot/coordinator.py:296-303 | after a successful transfer that refreshes some accounts, a full refresh is requested iff there is no snapshot, the balance request raises, or the merge raises on a touched account |
| Coordinator.Coordinator.constructor | custom_components/sparebank1_pengerobot/coordinator.py:20-38 | no backoff, a one-hour interval, no data, and an initial "last update succeeded" |
| Coordinator.Coordinator.Poll | custom_components/sparebank1_pengerobot/coordinator.py:56-278 | the fields after a poll and its outcome are those of `PollStep` |
| Coordinator.Coordinator.RecordPollFailure | custom_components/sparebank1_pengerobot/coordinator.py:255-278 | the fields and message after a failed accounts request are those of `PollFailed`: the backoff deadline moves only for a rate-limit error, and the update is marked failed |
| Coordinator.Coordinator.Publish | custom_components/sparebank1_pengerobot/coordinator.py:111-253 | the fields and snapshot after the accounts arrive are those of `Published`: enrichment, the balance request logged only when some balance is pending, the backoff cleared, and the snapshot stored |
| Coordinator.Coordinator.RefreshAccountBalances | custom_components/sparebank1_pengerobot/coordinator.py:342-380 | the fields after the targeted refresh and the failure it raises are those of `RefreshStep` |
| Coordinator.Coordinator.TransferMoney | custom_components/sparebank1_pengerobot/coordinator.py:280-310 | the posted payload is logged; the classified reply and the refresh of both accounts give the state and result of `TransferStep` |
| Coordinator.Coordinator.TransferMoneyCreditCard | custom_components/sparebank1_pengerobot/coordinator.py:312-340 | the call is logged; its outcome and the refresh of the source account give the state and result of `TransferStep` |
| Coordinator.Coordinator.Settle | custom_components/sparebank1_pengerobot/coordinator.py:296-310 | a failed call changes nothing and is re-raised or wrapped; a successful one returns its result after the refresh, requesting a full refresh when the refresh raised |
| Sensor.AccountKey | custom_components/sparebank1_pengerobot/sensor.py:42 | the key is never empty; it is accountNumber when truthy, else creditCardAccountID when truthy, else accountId, else AccountId, and "account_{idx}" when no id field is truthy |
| Sensor.SensorAccountNumber | custom_components/sparebank1_pengerobot/sensor.py:182-185 | the sensor's two-step resolution gives the same key as discovery |
| Sensor.UniqueIdInjective | custom_components/sparebank1_pengerobot/sensor.py:43 | within one config entry, different keys give different unique ids |
| Sensor.NewSensor | custom_components/sparebank1_pengerobot/sensor.py:174-204 | the sensor's number is the discovery key, its unique id is the one discovery checks, its name is the entry name, a space and the account name ("Account {idx+1}" when absent, "None" when null), and its unit is currencyCode or "NOK" |
| Sensor.IdSetAppend | custom_components/sparebank1_pengerobot/sensor.py:48 | adding a sensor adds its id to the id set |
| Sensor.DiscoverFresh | custom_components/sparebank1_pengerobot/sensor.py:39-58 | a pass creates sensors whose ids are pairwise distinct and not added before, each for one of the accounts; afterwards every account's id has been added |
| Sensor.AllSeenDiscoversNothing | custom_components/sparebank1_pengerobot/sensor.py:44-45 | when every account's id has been added, a pass creates nothing |
| Sensor.DiscoverAgainAddsNothing | custom_components/sparebank1_pengerobot/sensor.py:31-61 | a second pass over the same accounts creates no sensor |
| Sensor.DiscoverPass | custom_components/sparebank1_pengerobot/sensor.py:39-58 | the discovery loop creates exactly `Discover`'s sensors and adds exactly their ids |
| Sensor.Discovery.constructor | custom_components/sparebank1_pengerobot/sensor.py:31-33 | discovery starts with no added ids and no sensors |
| Sensor.Discovery.HandleUpdate | custom_components/sparebank1_pengerobot/sensor.py:35-61 | no snapshot: nothing happens; otherwise the new sensors are added in one call (none when there are none) and their ids join the set; across all updates every sensor's id is distinct and the set is exactly their ids |
| Sensor.FlattenDistinct | custom_components/sparebank1_pengerobot/sensor.py:44-61 | appending a batch of fresh, distinct ids keeps all sensor ids distinct |
| Sensor.BaseAvailableCases | custom_components/sparebank1_pengerobot/sensor.py:88-118 | no data: unavailable; data younger than three hours: available; older data: the last update's success |
| Sensor.FirstMatching | custom_components/sparebank1_pengerobot/sensor.py:226-232 | the position of the first account matching the key on the compared id fields, or none when no account matches |
| Sensor.FindAccount | custom_components/sparebank1_pengerobot/sensor.py:226-232 | the search loop stops at that first match |
| Sensor.BalanceAvailableMeaning | custom_components/sparebank1_pengerobot/sensor.py:216-254 | available iff there is data, the first account matching on any of the four id fields has an object balance with an "amount" key, and base availability holds |
| Sensor.AccountCount | custom_components/sparebank1_pengerobot/sensor.py:130-137 | the number of accounts, none without data |
| Sensor.AccountsSensorAttributes | custom_components/sparebank1_pengerobot/sensor.py:144-168 | empty without data; otherwise the status is "partial_failure" iff the snapshot is partial and "success" otherwise; errors are shown iff partial and non-empty, as the first min(3, n) of them |
| Sensor.BalanceSensorAttributesMeaning | custom_components/sparebank1_pengerobot/sensor.py:314-368 | empty iff there is no data or no account matches on accountNumber, accountId or AccountId; otherwise the first match's number, name and type ("Unknown" when absent) and the entry id, with `credit_card_account_id` present iff the account has that key |
| Sensor.CardOnlyAccountHasNoAttributes | custom_components/sparebank1_pengerobot/sensor.py:226-231 | an account known only by its creditCardAccountID keeps an available balance sensor whose attributes are empty, because the attribute lookup does not compare that field |

## Left out

- Api.BalanceOracle.Answer: the balance endpoint is a function of the account number, so a number requested twice in one batch gets the same reply both times. A server whose answers differ between requests is not modelled; in the source the later reply would win.
- Network, OAuth and HTTP. Token handling, headers, `_ensure_client_initialized` and the aiohttp session are not modelled. Server answers are inputs (`Reply`, `BalanceOracle`). The model does not capture a client that cannot be initialised.
- The client's `transfer_money_creditcard` is not part of api.py. Its outcome is an input of `TransferMoneyCreditCard`.
- Logging, and the fields of the log records.
- Time. Timestamps are integer seconds, with no ISO formatting, no parsing of `last_update` and no `timedelta` overflow. `BaseAvailable` therefore never meets an unparseable timestamp.
- Decimal. Only finite literals are read. Underscores in literals, NaN and Infinity are not modelled, and neither is the 28-digit context precision. Values are exact rationals.
- Text. Whitespace is ASCII whitespace plus the separators U+001C–U+001F, and digits are the ASCII ones. Python's `str.strip()`, `\s` and `\d` also accept other Unicode whitespace (such as U+0085, U+00A0 and U+2028) and other Unicode digits; those are not modelled.
- JSON values. Identifier fields are strings, null or absent. Numbers and other values stored under those keys are not modelled. A numeric balance is carried as the text `str()` gives for it. Dict key order is not kept.
- `str(float)` for the limits. A float limit is supplied as its text.
- Float conversion. The balance sensor's `native_value` float conversion is not modelled.
- Sensor construction exceptions. The branch where constructing a sensor raises during discovery is not modelled: with accounts as JSON objects, construction cannot raise.
- The accounts sensor itself. Adding it at setup, and `device_info`, are not modelled.
- Home Assistant scheduling. The host's scheduling, debouncing and listener calls are not modelled. A requested full refresh is an effect in the log. A returned snapshot is stored and marks the update successful, and a failure marks it failed.
- The AttributeError text. The type name it carries is dropped: the model keeps the fixed "object has no attribute 'get'".
- In-place mutation. The targeted refresh and the poll mutate the account dicts. The model rebuilds the account sequence instead. Aliasing between the snapshot and other holders of those dicts is not modelled.
