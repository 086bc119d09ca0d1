/** The polling coordinator: a rate-limit backoff deadline, the polling
    interval and the current snapshot of accounts, updated by a full poll,
    by a targeted balance refresh after a transfer, and by the transfers
    themselves. The banking client is an oracle (its replies are inputs),
    time is an integer number of seconds, and every client call or host
    request the coordinator makes is appended to an effect log. */
module Coordinator {
  import opened Wrappers
  import opened Text
  import opened Decimals
  import opened Accounts
  import opened Api

  /** One hour, the polling interval and the fallback backoff. */
  const DefaultInterval := 3600
  const DefaultBackoff := 3600

  /** The coordinator's `data`: accounts, `last_update`, `balance_fetch_partial`,
      `balance_fetch_errors` (an empty list stands for the absent key). */
  datatype Snapshot = Snapshot(accounts: seq<Account>, lastUpdate: int, partial: bool, errors: seq<string>)

  /** What the coordinator asked of the client or of the host. */
  datatype Effect =
    | FetchAccounts
    | FetchBalances(numbers: seq<string>)
    | Transfer(payload: map<string, string>)
    | TransferCreditCard(from: string, creditCardAccountId: string, amount: real, dueDate: Option<string>)
    | FullRefreshRequested
    | SnapshotPublished

  // ---------------------------------------------------------------------
  // The Retry-After hint in a rate-limit message
  // ---------------------------------------------------------------------

  const RetryPrefix := "Retry after "
  const RetrySuffix := " seconds"

  /** The number matched by `Retry after (\d+) seconds` at the very start of `t`. */
  function MatchStart(t: string): Option<nat> {
    if !StartsWith(t, RetryPrefix) then None
    else
      var rest := t[|RetryPrefix|..];
      var d := SpanDigits(rest);
      if d == 0 || !StartsWith(rest[d..], RetrySuffix) then None
      else Some(DigitsValue(rest[..d]))
  }

  /** The first match among the candidate positions, in order. */
  function Leftmost(candidates: seq<Option<nat>>): Option<nat> {
    if candidates == [] then None
    else if candidates[0].Some? then candidates[0]
    else Leftmost(candidates[1..])
  }

  /** `Leftmost` finds no match only when there is none, and otherwise the first one. */
  lemma {:induction false} LeftmostIsFirst(candidates: seq<Option<nat>>)
    ensures Leftmost(candidates).None? <==> forall k :: 0 <= k < |candidates| ==> candidates[k].None?
    ensures Leftmost(candidates).Some? ==>
              exists k :: 0 <= k < |candidates| && candidates[k] == Leftmost(candidates)
                          && forall m :: 0 <= m < k ==> candidates[m].None?
  {
    if candidates != [] && candidates[0].None? {
      var rest := candidates[1..];
      LeftmostIsFirst(rest);
      assert forall k :: 0 <= k < |rest| ==> rest[k] == candidates[k + 1];
      if Leftmost(rest).Some? {
        var k :| 0 <= k < |rest| && rest[k] == Leftmost(rest) && forall m :: 0 <= m < k ==> rest[m].None?;
        assert candidates[k + 1] == Leftmost(candidates);
        assert forall m :: 0 <= m < k + 1 ==> candidates[m].None? by {
          forall m | 0 <= m < k + 1 ensures candidates[m].None? {
            if m > 0 { assert candidates[m] == rest[m - 1]; }
          }
        }
      }
    }
  }

  /** The match, if any, at each position of `s` (the end included). */
  function Candidates(s: string): seq<Option<nat>> {
    seq(|s| + 1, k requires 0 <= k <= |s| => MatchStart(s[k..]))
  }

  /** `re.search(r'Retry after (\d+) seconds', message)`, else one hour. */
  function RetryAfterSeconds(message: string): nat {
    Leftmost(Candidates(message)).GetOr(DefaultBackoff)
  }

  /** With no match anywhere in the message, the backoff is the default hour. */
  lemma RetryAfterDefault(s: string)
    requires forall k :: 0 <= k <= |s| ==> MatchStart(s[k..]).None?
    ensures RetryAfterSeconds(s) == DefaultBackoff
  {
    var c := Candidates(s);
    assert forall k :: 0 <= k < |c| ==> c[k] == MatchStart(s[k..]);
    LeftmostIsFirst(c);
  }

  lemma {:induction false} LeftmostAt(c: seq<Option<nat>>, k: nat)
    requires k < |c| && c[k].Some?
    requires forall m :: 0 <= m < k ==> c[m].None?
    ensures Leftmost(c) == c[k]
  {
    if k > 0 {
      LeftmostAt(c[1..], k - 1);
    }
  }

  lemma NoMatchWithout(t: string, k: nat)
    requires k < |RetryPrefix| && k < |t| && t[k] != RetryPrefix[k]
    ensures MatchStart(t).None?
  {
  }

  /** No position inside the fixed opening of the rate-limit message starts a match. */
  lemma NoMatchInOpening(s: string)
    requires StartsWith(s, "Rate limit exceeded. ")
    ensures forall m :: 0 <= m < 21 ==> MatchStart(s[m..]).None?
  {
    var lead := "Rate limit exceeded. ";
    forall m | 0 <= m < 21
      ensures MatchStart(s[m..]).None?
    {
      assert s[m] == lead[m];
      if m == 0 {
        assert s[1] == lead[1];
        NoMatchWithout(s[m..], 1);
      } else {
        assert lead[m] in lead[1..];
        NoMatchWithout(s[m..], 0);
      }
    }
  }

  /** The match right at "Retry after " reads the header's digits. */
  lemma MatchOfHeader(n: nat, errorText: string)
    ensures MatchStart(RetryPrefix + NatToString(n) + " seconds: " + errorText) == Some(n)
  {
    var h := NatToString(n);
    var t := RetryPrefix + NatToString(n) + " seconds: " + errorText;
    var rest := h + (" seconds: " + errorText);
    assert t[..|RetryPrefix|] == RetryPrefix;
    assert t[|RetryPrefix|..] == rest;
    SpanDigitsPrefix(h, " seconds: " + errorText);
    assert rest[..|h|] == h;
    assert rest[|h|..][..|RetrySuffix|] == RetrySuffix;
    NatToStringValue(n);
  }

  /** The backoff is the first match's number. */
  lemma RetryAfterFirstMatch(s: string, k: nat)
    requires k <= |s| && MatchStart(s[k..]).Some?
    requires forall m :: 0 <= m < k ==> MatchStart(s[m..]).None?
    ensures RetryAfterSeconds(s) == MatchStart(s[k..]).value
  {
    var c := Candidates(s);
    assert c[k] == MatchStart(s[k..]);
    assert forall m :: 0 <= m < k ==> c[m] == MatchStart(s[m..]);
    LeftmostAt(c, k);
  }

  /** A Retry-After header of digits is read back from the message the client builds. */
  lemma RetryAfterRoundTrip(n: nat, errorText: string)
    ensures RetryAfterSeconds(RateLimitMessage(NatToString(n), errorText)) == n
  {
    var s := RateLimitMessage(NatToString(n), errorText);
    var lead := "Rate limit exceeded. ";
    var t := RetryPrefix + NatToString(n) + " seconds: " + errorText;
    assert s == lead + t;
    assert s[..21] == lead;
    assert s[21..] == t;
    NoMatchInOpening(s);
    MatchOfHeader(n, errorText);
    RetryAfterFirstMatch(s, 21);
  }

  // ---------------------------------------------------------------------
  // Account selection
  // ---------------------------------------------------------------------

  /** The configured selection: the options value, else the entry data value, else none. */
  function Selection(fromOptions: Option<seq<string>>, fromData: Option<seq<string>>): seq<string> {
    if fromOptions.Some? then fromOptions.value else fromData.GetOr([])
  }

  predicate IsSelected(a: Account, selection: seq<string>) {
    a.accountNumber.Text? && a.accountNumber.s in selection
  }

  /** The accounts whose `accountNumber` is in the selection, in their original order. */
  function KeepSelected(accounts: seq<Account>, selection: seq<string>): (kept: seq<Account>)
    ensures |kept| <= |accounts|
    ensures forall a :: a in kept <==> a in accounts && IsSelected(a, selection)
  {
    if accounts == [] then []
    else
      var last := accounts[|accounts| - 1];
      assert forall a :: a in accounts <==> a in accounts[..|accounts| - 1] || a == last;
      KeepSelected(accounts[..|accounts| - 1], selection) + (if IsSelected(last, selection) then [last] else [])
  }

  /** Filtering commutes with concatenation: the kept accounts keep their relative order. */
  lemma {:induction false} KeepSelectedConcat(a: seq<Account>, b: seq<Account>, selection: seq<string>)
    ensures KeepSelected(a + b, selection) == KeepSelected(a, selection) + KeepSelected(b, selection)
  {
    if b == [] {
      assert a + b == a;
    } else {
      assert (a + b)[..|a + b| - 1] == a + b[..|b| - 1];
      KeepSelectedConcat(a, b[..|b| - 1], selection);
    }
  }

  /** An empty selection keeps every account. */
  function Filtered(accounts: seq<Account>, selection: seq<string>): (kept: seq<Account>)
    ensures selection == [] ==> kept == accounts
    ensures selection != [] ==> forall a :: a in kept <==> a in accounts && IsSelected(a, selection)
  {
    if selection == [] then accounts else KeepSelected(accounts, selection)
  }

  method FilterAccounts(accounts: seq<Account>, selection: seq<string>) returns (kept: seq<Account>)
    ensures kept == Filtered(accounts, selection)
  {
    if selection == [] {
      return accounts;
    }
    kept := [];
    for i := 0 to |accounts|
      invariant kept == KeepSelected(accounts[..i], selection)
    {
      assert accounts[..i + 1][..i] == accounts[..i];
      if IsSelected(accounts[i], selection) {
        kept := kept + [accounts[i]];
      }
    }
    assert accounts[..|accounts|] == accounts;
  }

  // ---------------------------------------------------------------------
  // Which balances to fetch
  // ---------------------------------------------------------------------

  /** A truthy `accountNumber`, not a credit card by type, not a "K" number. */
  predicate WantsFetch(a: Account) {
    && a.accountNumber.Truthy()
    && a.accountType != Text("CREDITCARD")
    && !StartsWith(a.accountNumber.s, "K")
  }

  /** The numbers of the accounts that want a balance fetch, in order. */
  function FetchCandidates(accounts: seq<Account>): (numbers: seq<string>)
    ensures |numbers| <= |accounts|
    ensures forall n :: n in numbers ==> exists i :: 0 <= i < |accounts| && WantsFetch(accounts[i]) && accounts[i].accountNumber.s == n
  {
    if accounts == [] then []
    else
      var last := accounts[|accounts| - 1];
      var rest := FetchCandidates(accounts[..|accounts| - 1]);
      assert forall i :: 0 <= i < |accounts| - 1 ==> accounts[..|accounts| - 1][i] == accounts[i];
      rest + (if WantsFetch(last) then [last.accountNumber.s] else [])
  }

  /** A single account contributes its number exactly when it wants a fetch. */
  lemma FetchCandidatesSingleton(a: Account)
    ensures FetchCandidates([a]) == if WantsFetch(a) then [a.accountNumber.s] else []
  {
    assert [a][..0] == [];
  }

  /** The numbers come out in account order, duplicates included. */
  lemma {:induction false} FetchCandidatesConcat(a: seq<Account>, b: seq<Account>)
    ensures FetchCandidates(a + b) == FetchCandidates(a) + FetchCandidates(b)
  {
    if b == [] {
      assert a + b == a;
    } else {
      assert (a + b)[..|a + b| - 1] == a + b[..|b| - 1];
      FetchCandidatesConcat(a, b[..|b| - 1]);
    }
  }

  method CollectFetchNumbers(accounts: seq<Account>) returns (numbers: seq<string>)
    ensures numbers == FetchCandidates(accounts)
  {
    numbers := [];
    for i := 0 to |accounts|
      invariant numbers == FetchCandidates(accounts[..i])
    {
      assert accounts[..i + 1][..i] == accounts[..i];
      var number := accounts[i].accountNumber;
      if accounts[i].accountType == Text("CREDITCARD") || (number.Truthy() && StartsWith(number.s, "K")) {
        continue;
      }
      if number.Truthy() {
        numbers := numbers + [number.s];
      }
    }
    assert accounts[..|accounts|] == accounts;
  }

  /** `list.remove(x)`: drops the first occurrence. */
  function RemoveFirst(xs: seq<string>, x: string): (r: seq<string>)
    ensures x in xs ==> multiset(r) == multiset(xs) - multiset{x}
    ensures x !in xs ==> r == xs
  {
    if xs == [] then []
    else if xs[0] == x then
      assert xs == [xs[0]] + xs[1..];
      xs[1..]
    else
      assert xs == [xs[0]] + xs[1..];
      [xs[0]] + RemoveFirst(xs[1..], x)
  }

  /** It is the first occurrence that goes: the elements before it and after it stay in order. */
  lemma {:induction false} RemoveFirstAt(xs: seq<string>, x: string, i: nat)
    requires i < |xs| && xs[i] == x && x !in xs[..i]
    ensures RemoveFirst(xs, x) == xs[..i] + xs[i + 1..]
  {
    if i == 0 {
      assert xs[..0] + xs[1..] == xs[1..];
    } else {
      assert xs[0] != x by { assert xs[0] in xs[..i]; }
      var tail := xs[1..];
      assert tail[..i - 1] == xs[1..i];
      assert x !in tail[..i - 1] by { assert xs[..i] == [xs[0]] + xs[1..i]; }
      RemoveFirstAt(tail, x, i - 1);
      assert tail[i..] == xs[i + 1..];
      assert RemoveFirst(xs, x) == [xs[0]] + RemoveFirst(tail, x);
      assert xs[..i] == [xs[0]] + xs[1..i];
    }
  }

  /** An inline numeric balance becomes `{amount: str(number), currency: currencyCode or "NOK"}`. */
  function RewriteInline(a: Account): Account {
    if a.balance.Numeric? then a.(balance := Dict(Text(a.balance.text), a.currencyCode.GetOr("NOK"))) else a
  }

  predicate HasInlineBalance(a: Account) {
    a.balance.Numeric? && a.accountNumber.Text?
  }

  /** The fetch list once each account with an inline balance has taken its number off it. */
  function StripInline(accounts: seq<Account>, numbers: seq<string>): seq<string> {
    if accounts == [] then numbers
    else
      var last := accounts[|accounts| - 1];
      var rest := StripInline(accounts[..|accounts| - 1], numbers);
      if HasInlineBalance(last) && last.accountNumber.s in rest then RemoveFirst(rest, last.accountNumber.s) else rest
  }

  method RewriteInlineBalances(accounts: seq<Account>, numbers: seq<string>)
    returns (rewritten: seq<Account>, remaining: seq<string>)
    ensures |rewritten| == |accounts|
    ensures forall i :: 0 <= i < |accounts| ==> rewritten[i] == RewriteInline(accounts[i])
    ensures remaining == StripInline(accounts, numbers)
  {
    rewritten, remaining := accounts, numbers;
    for i := 0 to |accounts|
      invariant |rewritten| == |accounts|
      invariant forall j :: 0 <= j < i ==> rewritten[j] == RewriteInline(accounts[j])
      invariant forall j :: i <= j < |accounts| ==> rewritten[j] == accounts[j]
      invariant remaining == StripInline(accounts[..i], numbers)
    {
      assert accounts[..i + 1][..i] == accounts[..i];
      var acc := accounts[i];
      if acc.balance.Numeric? {
        rewritten := rewritten[i := RewriteInline(acc)];
        if acc.accountNumber.Text? && acc.accountNumber.s in remaining {
          remaining := RemoveFirst(remaining, acc.accountNumber.s);
        }
      }
    }
    assert accounts[..|accounts|] == accounts;
  }

  /** How many accounts want a fetch under number `n`. */
  function WantCount(accounts: seq<Account>, n: string): nat {
    if accounts == [] then 0
    else
      var last := accounts[|accounts| - 1];
      WantCount(accounts[..|accounts| - 1], n) + (if WantsFetch(last) && last.accountNumber.s == n then 1 else 0)
  }

  /** How many accounts under number `n` carry an inline numeric balance. */
  function InlineCount(accounts: seq<Account>, n: string): nat {
    if accounts == [] then 0
    else
      var last := accounts[|accounts| - 1];
      InlineCount(accounts[..|accounts| - 1], n) + (if HasInlineBalance(last) && last.accountNumber.s == n then 1 else 0)
  }

  lemma {:induction false} FetchCandidatesCount(accounts: seq<Account>, n: string)
    ensures multiset(FetchCandidates(accounts))[n] == WantCount(accounts, n)
  {
    if accounts != [] {
      FetchCandidatesCount(accounts[..|accounts| - 1], n);
    }
  }

  /** Each inline balance under `n` cancels one pending fetch of `n`, as long as one is left. */
  lemma {:induction false} StripInlineCount(accounts: seq<Account>, numbers: seq<string>, n: string)
    ensures var left := multiset(numbers)[n] - InlineCount(accounts, n);
            multiset(StripInline(accounts, numbers))[n] == if left > 0 then left else 0
  {
    if accounts != [] {
      StripInlineCount(accounts[..|accounts| - 1], numbers, n);
    }
  }

  /** More fetching accounts than inline balances under `n` means one fetching account has none. */
  lemma {:induction false} SomeFetchWithoutInline(accounts: seq<Account>, n: string)
    requires WantCount(accounts, n) > InlineCount(accounts, n)
    ensures exists i :: 0 <= i < |accounts| && WantsFetch(accounts[i]) && accounts[i].accountNumber.s == n
                        && !accounts[i].balance.Numeric?
  {
    var last := accounts[|accounts| - 1];
    var prefix := accounts[..|accounts| - 1];
    if WantsFetch(last) && last.accountNumber.s == n && !last.balance.Numeric? {
      assert accounts[|accounts| - 1] == last;
    } else {
      SomeFetchWithoutInline(prefix, n);
      var i :| 0 <= i < |prefix| && WantsFetch(prefix[i]) && prefix[i].accountNumber.s == n && !prefix[i].balance.Numeric?;
      assert accounts[i] == prefix[i];
    }
  }

  lemma StillListedCounts(accounts: seq<Account>, n: string)
    requires n in StripInline(accounts, FetchCandidates(accounts))
    ensures n in FetchCandidates(accounts)
    ensures WantCount(accounts, n) > InlineCount(accounts, n)
  {
    var candidates := FetchCandidates(accounts);
    var left := StripInline(accounts, candidates);
    StripInlineCount(accounts, candidates, n);
    FetchCandidatesCount(accounts, n);
    assert multiset(left)[n] > 0;
  }

  /** A number still on the fetch list belongs to an account that wants a fetch and has no
      inline balance; in particular a number whose accounts all carry inline balances is not fetched. */
  lemma FetchedNumbersNeedFetching(accounts: seq<Account>, n: string)
    requires n in StripInline(accounts, FetchCandidates(accounts))
    ensures n in FetchCandidates(accounts)
    ensures exists i :: 0 <= i < |accounts| && WantsFetch(accounts[i]) && accounts[i].accountNumber.s == n
                        && !accounts[i].balance.Numeric?
  {
    StillListedCounts(accounts, n);
    SomeFetchWithoutInline(accounts, n);
  }

  // ---------------------------------------------------------------------
  // Merging fetched balances
  // ---------------------------------------------------------------------

  /** The poll merges a fetched reply into an account when its truthy number was on the
      fetch list, came back, and the reply has an `accountBalance` key. */
  predicate MergeApplies(a: Account, numbers: seq<string>, balances: map<string, BalanceReply>) {
    && a.accountNumber.Truthy() && a.accountNumber.s in numbers && a.accountNumber.s in balances
    && balances[a.accountNumber.s].accountBalance != Missing
  }

  /** The merge rule of the poll: only the balance of an account it applies to changes,
      to the reply's `accountBalance` in the account's currency (default "NOK"). */
  function MergeFetched(a: Account, numbers: seq<string>, balances: map<string, BalanceReply>): (r: Account)
    ensures r.(balance := a.balance) == a
    ensures !MergeApplies(a, numbers, balances) ==> r == a
    ensures MergeApplies(a, numbers, balances) ==>
              r.balance == Dict(balances[a.accountNumber.s].accountBalance, a.currencyCode.GetOr("NOK"))
  {
    var n := a.accountNumber;
    if n.Truthy() && n.s in numbers && n.s in balances && balances[n.s].accountBalance != Missing then
      a.(balance := Dict(balances[n.s].accountBalance, a.currencyCode.GetOr("NOK")))
    else a
  }

  method MergeFetchedBalances(accounts: seq<Account>, numbers: seq<string>, balances: map<string, BalanceReply>)
    returns (merged: seq<Account>)
    ensures |merged| == |accounts|
    ensures forall i :: 0 <= i < |accounts| ==> merged[i] == MergeFetched(accounts[i], numbers, balances)
  {
    merged := accounts;
    for i := 0 to |accounts|
      invariant |merged| == |accounts|
      invariant forall j :: 0 <= j < i ==> merged[j] == MergeFetched(accounts[j], numbers, balances)
      invariant forall j :: i <= j < |accounts| ==> merged[j] == accounts[j]
    {
      var acc := accounts[i];
      var n := acc.accountNumber;
      if !n.Truthy() || n.s !in numbers {
        continue;
      }
      if n.s !in balances {
        continue;
      }
      if balances[n.s].accountBalance != Missing {
        merged := merged[i := acc.(balance := Dict(balances[n.s].accountBalance, acc.currencyCode.GetOr("NOK")))];
      }
    }
  }

  /** The numbers the poll sends to the balance endpoint. */
  function PendingFetches(accounts: seq<Account>): seq<string> {
    StripInline(accounts, FetchCandidates(accounts))
  }

  /** The balance enrichment of a poll: every inline balance rewritten, the pending numbers
      fetched and merged. A failed batch leaves the inline rewrites in place and yields its error
      text; the poll itself goes on. */
  function Enrich(accounts: seq<Account>, fetch: BalanceOracle): (seq<Account>, seq<string>)
  {
    var inline := seq(|accounts|, i requires 0 <= i < |accounts| => RewriteInline(accounts[i]));
    var pending := PendingFetches(accounts);
    if pending == [] then (inline, [])
    else
      match BalanceBatch(pending, fetch)
      case Err(f) => (inline, [FailureText(f)])
      case Ok(balances) => (seq(|inline|, i requires 0 <= i < |inline| => MergeFetched(inline[i], pending, balances)), [])
  }

  /** The enrichment block of the poll: its three loops and the balance batch. */
  method EnrichAccounts(accounts: seq<Account>, fetch: BalanceOracle)
    returns (enriched: seq<Account>, errors: seq<string>, pending: seq<string>)
    ensures (enriched, errors) == Enrich(accounts, fetch)
    ensures pending == PendingFetches(accounts)
  {
    var candidates := CollectFetchNumbers(accounts);
    var rewritten;
    rewritten, pending := RewriteInlineBalances(accounts, candidates);
    assert rewritten == seq(|accounts|, i requires 0 <= i < |accounts| => RewriteInline(accounts[i]));
    enriched, errors := rewritten, [];
    if pending != [] {
      var batch := GetAccountBalances(pending, fetch);
      match batch {
        case Err(f) =>
          errors := [FailureText(f)];
        case Ok(balances) =>
          enriched := MergeFetchedBalances(rewritten, pending, balances);
          assert enriched == seq(|rewritten|, i requires 0 <= i < |rewritten| => MergeFetched(rewritten[i], pending, balances));
      }
    }
  }

  // ---------------------------------------------------------------------
  // The targeted refresh
  // ---------------------------------------------------------------------

  /** An account the refresh touches: its number is a key of the fetched map. */
  predicate Hit(a: Account, balances: map<string, BalanceReply>) {
    a.accountNumber.Text? && a.accountNumber.s in balances
  }

  /** The refresh evaluates `acc.get("balance", {}).get(...)` for every account it touches,
      which raises unless the balance is absent or an object. */
  predicate Raises(a: Account, balances: map<string, BalanceReply>) {
    Hit(a, balances) && (a.balance.Numeric? || a.balance.NotADict?)
  }

  /** The text of that AttributeError (Python names the value's type there, which this model does not keep). */
  const NoGetAttribute := "object has no attribute 'get'"

  /** `currencyCode`, else the current balance's currency, else "NOK". */
  function RefreshCurrency(a: Account): Field
    requires !a.balance.Numeric? && !a.balance.NotADict?
  {
    var fallback := if a.balance.Dict? then a.balance.currency.GetOr("NOK") else Text("NOK");
    if a.currencyCode.Missing? then fallback else a.currencyCode
  }

  /** The merge rule of the refresh: a touched account gets the reply's `accountBalance`
      (null when the reply lacks it); nothing else about any account changes. */
  function Refreshed(a: Account, balances: map<string, BalanceReply>): (r: Account)
    ensures r.(balance := a.balance) == a
    ensures !Hit(a, balances) || Raises(a, balances) ==> r == a
    ensures Hit(a, balances) && !Raises(a, balances) ==>
              r.balance.Dict? && r.balance.currency == RefreshCurrency(a)
              && r.balance.amount == (var got := balances[a.accountNumber.s].accountBalance; if got.Missing? then Null else got)
  {
    if Hit(a, balances) && !Raises(a, balances) then
      var got := balances[a.accountNumber.s].accountBalance;
      a.(balance := Dict(if got.Missing? then Null else got, RefreshCurrency(a)))
    else a
  }

  /** Where the refresh loop stops: the first account that raises, else the end. */
  function FirstRaise(accounts: seq<Account>, balances: map<string, BalanceReply>): (k: nat)
    ensures k <= |accounts|
    ensures forall j :: 0 <= j < k ==> !Raises(accounts[j], balances)
    ensures k < |accounts| ==> Raises(accounts[k], balances)
  {
    if accounts == [] then 0
    else if Raises(accounts[0], balances) then 0
    else
      var k := 1 + FirstRaise(accounts[1..], balances);
      assert forall j :: 1 <= j < k ==> accounts[j] == accounts[1..][j - 1];
      k
  }

  /** The accounts after the loop has merged the first `k` of them in place. */
  function RefreshedUpTo(accounts: seq<Account>, balances: map<string, BalanceReply>, k: nat): (r: seq<Account>)
    ensures |r| == |accounts|
    ensures forall i :: 0 <= i < |accounts| && r[i] != accounts[i] ==> i < k && Hit(accounts[i], balances)
  {
    seq(|accounts|, i requires 0 <= i < |accounts| => if i < k then Refreshed(accounts[i], balances) else accounts[i])
  }

  predicate AnyHit(accounts: seq<Account>, balances: map<string, BalanceReply>) {
    exists i :: 0 <= i < |accounts| && Hit(accounts[i], balances)
  }

  /** The merge loop of the targeted refresh: each listed account gets its fetched balance, in
      order, until one whose balance is not a mapping makes the currency lookup raise. */
  method MergeRefreshed(accounts: seq<Account>, balances: map<string, BalanceReply>)
    returns (merged: seq<Account>, raised: bool, updatedAny: bool)
    ensures raised <==> FirstRaise(accounts, balances) < |accounts|
    ensures merged == RefreshedUpTo(accounts, balances, FirstRaise(accounts, balances))
    ensures !raised ==> (updatedAny <==> AnyHit(accounts, balances))
  {
    merged := accounts;
    updatedAny := false;
    var i := 0;
    while i < |accounts|
      invariant 0 <= i <= FirstRaise(accounts, balances)
      invariant merged == RefreshedUpTo(accounts, balances, i)
      invariant updatedAny <==> exists j :: 0 <= j < i && Hit(accounts[j], balances)
    {
      var acc := accounts[i];
      if acc.accountNumber.Text? && acc.accountNumber.s in balances {
        if acc.balance.Numeric? || acc.balance.NotADict? {
          return merged, true, updatedAny;
        }
        var got := balances[acc.accountNumber.s].accountBalance;
        merged := merged[i := acc.(balance := Dict(if got.Missing? then Null else got, RefreshCurrency(acc)))];
        updatedAny := true;
      }
      assert RefreshedUpTo(accounts, balances, i + 1) == RefreshedUpTo(accounts, balances, i)[i := Refreshed(acc, balances)];
      i := i + 1;
    }
    raised := false;
  }

  // ---------------------------------------------------------------------
  // The coordinator's transitions
  // ---------------------------------------------------------------------

  /** The coordinator's fields, and what the host keeps for it (`data`, `last_update_success`). */
  datatype State = State(
    backoffUntil: Option<int>,
    updateInterval: int,
    data: Option<Snapshot>,
    lastUpdateSuccess: bool,
    log: seq<Effect>)

  predicate BackedOff(backoffUntil: Option<int>, now: int) {
    backoffUntil.Some? && now < backoffUntil.value
  }

  const BackoffMessage := "Rate limited, will retry later"

  /** The `UpdateFailed` text for a failure of the account fetch. */
  function PollFailureMessage(f: Failure): string {
    match f
    case Api(e) => if e.rateLimited then "Rate limited: " + e.message else "API error: " + e.message
    case Other(t) => "Unexpected error: " + t
  }

  /** The balance request a poll logs: none when no balance needs fetching. */
  function FetchLog(pending: seq<string>): seq<Effect> {
    if pending != [] then [FetchBalances(pending)] else []
  }

  /** The poll once the accounts request has failed: a rate-limit error moves the backoff
      deadline to the time its message names; the host records the failure. */
  function PollFailed(st: State, f: Failure, now: int): (State, Result<Snapshot, string>) {
    var backoff := if f.Api? && f.error.rateLimited then Some(now + RetryAfterSeconds(f.error.message)) else st.backoffUntil;
    (st.(backoffUntil := backoff, lastUpdateSuccess := false), Err(PollFailureMessage(f)))
  }

  /** The poll once the selected accounts have arrived: enrichment, the backoff reset, and the
      host storing the snapshot. */
  function Published(st: State, accounts: seq<Account>, now: int, fetch: BalanceOracle)
    : (State, Result<Snapshot, string>)
  {
    var enriched := Enrich(accounts, fetch);
    var snapshot := Snapshot(enriched.0, now, enriched.1 != [], enriched.1);
    var interval := if st.backoffUntil.Some? then DefaultInterval else st.updateInterval;
    (State(None, interval, Some(snapshot), true, st.log + FetchLog(PendingFetches(accounts)) + [SnapshotPublished]),
     Ok(snapshot))
  }

  /** A scheduled poll, as the coordinator and its host carry it out together: the host stores
      a returned snapshot and records whether the update succeeded. */
  function PollStep(st: State, selection: seq<string>, now: int,
                    accountsReply: Reply<AccountsEnvelope>, fetch: BalanceOracle)
    : (r: (State, Result<Snapshot, string>))
    ensures BackedOff(st.backoffUntil, now) ==> r == (st.(lastUpdateSuccess := false), Err(BackoffMessage))
    ensures r.1.Ok? <==> !BackedOff(st.backoffUntil, now) && GetAccounts(accountsReply).Ok?
  {
    if BackedOff(st.backoffUntil, now) then (st.(lastUpdateSuccess := false), Err(BackoffMessage))
    else
      var requested := st.(log := st.log + [FetchAccounts]);
      match GetAccounts(accountsReply)
      case Err(f) => PollFailed(requested, f, now)
      case Ok(all) => Published(requested, Filtered(all, selection), now, fetch)
  }

  /** `async_refresh_account_balances`: a failure it raises is returned. */
  function RefreshStep(st: State, numbers: seq<string>, now: int, fetch: BalanceOracle)
    : (State, Option<Failure>)
  {
    if numbers == [] then (st, None)
    else if st.data.None? then (st.(log := st.log + [FullRefreshRequested]), None)
    else
      var log := st.log + [FetchBalances(numbers)];
      match BalanceBatch(numbers, fetch)
      case Err(f) => (st.(log := log), Some(f))
      case Ok(balances) =>
        var snapshot := st.data.value;
        var k := FirstRaise(snapshot.accounts, balances);
        var merged := snapshot.(accounts := RefreshedUpTo(snapshot.accounts, balances, k));
        if k < |snapshot.accounts| then
          (st.(data := Some(merged), log := log), Some(Other(NoGetAttribute)))
        else if AnyHit(snapshot.accounts, balances) then
          (st.(data := Some(merged.(lastUpdate := now, partial := true)), lastUpdateSuccess := true,
               log := log + [SnapshotPublished]), None)
        else
          (st.(data := Some(merged), log := log), None)
  }

  /** `async_transfer_money` and `async_transfer_money_creditcard`, given what the client's
      transfer call (`call`) returned: a successful call is followed by a targeted refresh of
      `refresh`, and by a request for a full refresh when that raises. */
  function TransferStep<R>(st: State, call: Effect, refresh: seq<string>, outcome: Result<R, Failure>,
                           now: int, fetch: BalanceOracle)
    : (State, Result<R, ApiError>)
  {
    var called := st.(log := st.log + [call]);
    match outcome
    case Err(Api(e)) => (called, Err(e))
    case Err(Other(t)) => (called, Err(ApiError(false, "Unexpected error: " + t, [], None)))
    case Ok(v) =>
      var (refreshed, failure) := RefreshStep(called, refresh, now, fetch);
      (if failure.Some? then refreshed.(log := refreshed.log + [FullRefreshRequested]) else refreshed, Ok(v))
  }

  /** Past the backoff deadline the poll asks for the accounts first. */
  lemma PollFetchesAccounts(st: State, selection: seq<string>, now: int,
                            accountsReply: Reply<AccountsEnvelope>, fetch: BalanceOracle)
    requires !BackedOff(st.backoffUntil, now)
    ensures var r := PollStep(st, selection, now, accountsReply, fetch);
            |r.0.log| > |st.log| && r.0.log[..|st.log| + 1] == st.log + [FetchAccounts]
  {
  }

  /** A failed poll keeps the snapshot, marks the update failed, and moves the backoff deadline
      only on a rate-limit error, to now plus the seconds its message names. */
  lemma PollFailure(st: State, selection: seq<string>, now: int,
                    accountsReply: Reply<AccountsEnvelope>, fetch: BalanceOracle)
    requires PollStep(st, selection, now, accountsReply, fetch).1.Err?
    ensures var r := PollStep(st, selection, now, accountsReply, fetch);
            && r.0.data == st.data && !r.0.lastUpdateSuccess && r.0.updateInterval == st.updateInterval
            && (r.0.backoffUntil != st.backoffUntil ==>
                  var f := GetAccounts(accountsReply).error;
                  f.Api? && f.error.rateLimited && r.0.backoffUntil == Some(now + RetryAfterSeconds(f.error.message)))
            && (BackedOff(st.backoffUntil, now) ==> r.1 == Err(BackoffMessage) && r.0.log == st.log)
            && (!BackedOff(st.backoffUntil, now) ==>
                  var f := GetAccounts(accountsReply).error;
                  && r.1 == Err(PollFailureMessage(f))
                  && r.0.backoffUntil == (if f.Api? && f.error.rateLimited
                                          then Some(now + RetryAfterSeconds(f.error.message)) else st.backoffUntil)
                  && r.0.log == st.log + [FetchAccounts])
  {
  }

  /** A successful poll stores and returns its snapshot, clears the backoff, restores the
      interval, and marks the snapshot partial exactly when enrichment recorded an error. */
  lemma PollSuccess(st: State, selection: seq<string>, now: int,
                    accountsReply: Reply<AccountsEnvelope>, fetch: BalanceOracle)
    requires PollStep(st, selection, now, accountsReply, fetch).1.Ok?
    ensures var r := PollStep(st, selection, now, accountsReply, fetch);
            && r.0.data == Some(r.1.value) && r.0.lastUpdateSuccess
            && r.0.backoffUntil == None
            && r.0.updateInterval == (if st.backoffUntil.Some? then DefaultInterval else st.updateInterval)
            && r.1.value.lastUpdate == now
            && (r.1.value.partial <==> r.1.value.errors != []) && |r.1.value.errors| <= 1
            && |r.1.value.accounts| == |Filtered(GetAccounts(accountsReply).value, selection)|
            && var selected := Filtered(GetAccounts(accountsReply).value, selection);
               && (r.1.value.accounts, r.1.value.errors) == Enrich(selected, fetch)
               && r.0.log == st.log + [FetchAccounts] + FetchLog(PendingFetches(selected)) + [SnapshotPublished]
  {
  }

  /** A 429 whose Retry-After header is a number of seconds backs the coordinator off for exactly that long. */
  lemma RateLimitBacksOff(st: State, selection: seq<string>, now: int, body: Body<AccountsEnvelope>,
                          n: nat, fetch: BalanceOracle)
    requires !BackedOff(st.backoffUntil, now)
    ensures var r := PollStep(st, selection, now, Http(429, body, Some(NatToString(n))), fetch);
            && r.0.backoffUntil == Some(now + n)
            && r.1 == Err("Rate limited: " + RateLimitMessage(NatToString(n), ErrorText(body)))
            && BackedOff(r.0.backoffUntil, now) == (n > 0)
  {
    RetryAfterRoundTrip(n, ErrorText(body));
  }

  /** The enrichment keeps every account but its balance, turns every inline balance into an
      object, records an error exactly when the batch failed, and otherwise merges the batch. */
  lemma EnrichProperties(accounts: seq<Account>, fetch: BalanceOracle)
    ensures var r := Enrich(accounts, fetch);
            var pending := PendingFetches(accounts);
            && |r.0| == |accounts| && |r.1| <= 1
            && (forall i :: 0 <= i < |accounts| ==> r.0[i].(balance := accounts[i].balance) == accounts[i])
            && (forall i :: 0 <= i < |accounts| && accounts[i].balance.Numeric? ==> r.0[i].balance.Dict?)
            && (r.1 != [] <==> pending != [] && BalanceBatch(pending, fetch).Err?)
            && (r.1 != [] ==> r.1 == [FailureText(BalanceBatch(pending, fetch).error)])
            && (r.1 != [] || pending == [] ==> forall i :: 0 <= i < |accounts| ==> r.0[i] == RewriteInline(accounts[i]))
            && (r.1 == [] && pending != [] ==>
                  forall i :: 0 <= i < |accounts| ==>
                    r.0[i] == MergeFetched(RewriteInline(accounts[i]), pending, BalanceBatch(pending, fetch).value))
  {
  }

  /** An empty list of numbers leaves everything as it was. */
  lemma RefreshEmptyIsNoop(st: State, now: int, fetch: BalanceOracle)
    ensures RefreshStep(st, [], now, fetch) == (st, None)
  {
  }

  /** Without a snapshot the refresh asks the host for a full refresh and does nothing else. */
  lemma RefreshWithoutSnapshot(st: State, numbers: seq<string>, now: int, fetch: BalanceOracle)
    requires numbers != [] && st.data.None?
    ensures RefreshStep(st, numbers, now, fetch) == (st.(log := st.log + [FullRefreshRequested]), None)
  {
  }

  /** A failed balance batch is raised to the caller and the snapshot is left alone. */
  lemma RefreshBatchFailure(st: State, numbers: seq<string>, now: int, fetch: BalanceOracle)
    requires numbers != [] && st.data.Some? && BalanceBatch(numbers, fetch).Err?
    ensures RefreshStep(st, numbers, now, fetch) == (st.(log := st.log + [FetchBalances(numbers)]), Some(BalanceBatch(numbers, fetch).error))
  {
  }

  /** The refresh changes only accounts whose number it was asked for and got back, never the
      backoff, the interval or the recorded errors; it stamps the snapshot (time, partial) only
      when it completed having updated some account. */
  lemma RefreshTouchesOnlyRequested(st: State, numbers: seq<string>, now: int, fetch: BalanceOracle)
    requires st.data.Some?
    ensures var r := RefreshStep(st, numbers, now, fetch);
            var before, after := st.data.value, r.0.data.value;
            && r.0.data.Some?
            && r.0.backoffUntil == st.backoffUntil && r.0.updateInterval == st.updateInterval
            && |after.accounts| == |before.accounts|
            && (forall i :: 0 <= i < |before.accounts| && after.accounts[i] != before.accounts[i] ==>
                  before.accounts[i].accountNumber.Text? && before.accounts[i].accountNumber.s in numbers)
            && after.errors == before.errors
            && (after.lastUpdate != before.lastUpdate || after.partial != before.partial ==>
                  after.lastUpdate == now && after.partial && r.1.None? && r.0.lastUpdateSuccess)
  {
    if numbers != [] && BalanceBatch(numbers, fetch).Ok? {
      var balances := BalanceBatch(numbers, fetch).value;
      var k := FirstRaise(st.data.value.accounts, balances);
      var merged := RefreshedUpTo(st.data.value.accounts, balances, k);
      forall i | 0 <= i < |merged| && merged[i] != st.data.value.accounts[i]
        ensures st.data.value.accounts[i].accountNumber.Text? && st.data.value.accounts[i].accountNumber.s in numbers
      {
        assert Hit(st.data.value.accounts[i], balances);
      }
    }
  }

  /** When the client's transfer raises, no refresh runs: only the call is recorded. An API
      error comes back unchanged, anything else as an "Unexpected error" API error. */
  lemma TransferFailureSkipsRefresh<R>(st: State, call: Effect, refresh: seq<string>, outcome: Result<R, Failure>,
                                       now: int, fetch: BalanceOracle)
    requires outcome.Err?
    ensures var r := TransferStep(st, call, refresh, outcome, now, fetch);
            && r.0 == st.(log := st.log + [call])
            && r.1 == Err(if outcome.error.Api? then outcome.error.error
                          else ApiError(false, "Unexpected error: " + outcome.error.text, [], None))
  {
  }

  /** After a successful transfer the result is returned whatever the refresh does. The refresh
      asks for the given numbers' balances, and at most one full refresh is requested: right away
      when there is no snapshot, after the balance request when that raises. */
  lemma TransferSuccessRefreshes<R>(st: State, call: Effect, refresh: seq<string>, outcome: Result<R, Failure>,
                                    now: int, fetch: BalanceOracle)
    requires outcome.Ok? && refresh != []
    ensures var r := TransferStep(st, call, refresh, outcome, now, fetch);
            && r.1 == Ok(outcome.value)
            && (st.data.None? ==> r.0 == st.(log := st.log + [call, FullRefreshRequested]))
            && (st.data.Some? ==>
                  && |st.log| + 2 <= |r.0.log| <= |st.log| + 3
                  && r.0.log[..|st.log| + 2] == st.log + [call, FetchBalances(refresh)]
                  && (BalanceBatch(refresh, fetch).Err? ==>
                        r.0 == st.(log := st.log + [call, FetchBalances(refresh), FullRefreshRequested])))
  {
    if st.data.Some? {
      var called := st.(log := st.log + [call]);
      assert called.log + [FetchBalances(refresh)] == st.log + [call, FetchBalances(refresh)];
    }
  }

  /** After a successful transfer call a full refresh is requested exactly when there is no
      snapshot, when the balance batch fails, or when an account the batch answered for has a
      balance that is not a mapping; a refresh that completes never asks for one. */
  lemma TransferRequestsFullRefresh<R>(st: State, call: Effect, refresh: seq<string>, outcome: Result<R, Failure>,
                                       now: int, fetch: BalanceOracle)
    requires call.Transfer? || call.TransferCreditCard?
    requires outcome.Ok? && refresh != []
    ensures var r := TransferStep(st, call, refresh, outcome, now, fetch);
            && |st.log| <= |r.0.log| && r.0.log[..|st.log|] == st.log
            && (FullRefreshRequested in r.0.log[|st.log|..] <==>
                  || st.data.None?
                  || BalanceBatch(refresh, fetch).Err?
                  || FirstRaise(st.data.value.accounts, BalanceBatch(refresh, fetch).value) < |st.data.value.accounts|)
  {
    var r := TransferStep(st, call, refresh, outcome, now, fetch);
    var added: seq<Effect>;
    if st.data.None? {
      added := [call, FullRefreshRequested];
    } else if BalanceBatch(refresh, fetch).Err? {
      added := [call, FetchBalances(refresh), FullRefreshRequested];
    } else {
      var balances := BalanceBatch(refresh, fetch).value;
      var k := FirstRaise(st.data.value.accounts, balances);
      if k < |st.data.value.accounts| {
        added := [call, FetchBalances(refresh), FullRefreshRequested];
      } else if AnyHit(st.data.value.accounts, balances) {
        added := [call, FetchBalances(refresh), SnapshotPublished];
      } else {
        added := [call, FetchBalances(refresh)];
      }
    }
    assert r.0.log == st.log + added;
    TailOf(st.log, added);
  }

  lemma TailOf(log: seq<Effect>, added: seq<Effect>)
    ensures (log + added)[..|log|] == log && (log + added)[|log|..] == added
  {
  }

  // ---------------------------------------------------------------------
  // The coordinator object
  // ---------------------------------------------------------------------

  class Coordinator {
    var backoffUntil: Option<int>
    var updateInterval: int
    var data: Option<Snapshot>
    var lastUpdateSuccess: bool
    var log: seq<Effect>
    /** The account selection stored in the entry's options and in its data. */
    const optionsSelection: Option<seq<string>>
    const dataSelection: Option<seq<string>>

    function Fields(): State
      reads this
    {
      State(backoffUntil, updateInterval, data, lastUpdateSuccess, log)
    }

    constructor(optionsSelection: Option<seq<string>>, dataSelection: Option<seq<string>>)
      ensures Fields() == State(None, DefaultInterval, None, true, [])
      ensures this.optionsSelection == optionsSelection && this.dataSelection == dataSelection
    {
      backoffUntil := None;
      updateInterval := DefaultInterval;
      data := None;
      lastUpdateSuccess := true;
      log := [];
      this.optionsSelection := optionsSelection;
      this.dataSelection := dataSelection;
    }

    /** `_async_update_data`, with the host storing its snapshot or recording its failure. */
    method Poll(now: int, accountsReply: Reply<AccountsEnvelope>, fetch: BalanceOracle)
      returns (r: Result<Snapshot, string>)
      modifies this
      ensures (Fields(), r) == PollStep(old(Fields()), Selection(optionsSelection, dataSelection), now, accountsReply, fetch)
    {
      ghost var before := Fields();
      var selection := Selection(optionsSelection, dataSelection);
      if backoffUntil.Some? && now < backoffUntil.value {
        lastUpdateSuccess := false;
        return Err(BackoffMessage);
      }
      log := log + [FetchAccounts];
      var got := GetAccounts(accountsReply);
      if got.Err? {
        r := RecordPollFailure(got.error, now);
      } else {
        var accounts := FilterAccounts(got.value, selection);
        var snapshot := Publish(accounts, now, fetch);
        r := Ok(snapshot);
      }
    }

    /** The poll once the accounts request has failed: a rate-limit error sets the backoff
        deadline from its message; the host records the failure. */
    method RecordPollFailure(f: Failure, now: int) returns (r: Result<Snapshot, string>)
      modifies this
      ensures (Fields(), r) == PollFailed(old(Fields()), f, now)
    {
      if f.Api? && f.error.rateLimited {
        backoffUntil := Some(now + RetryAfterSeconds(f.error.message));
      }
      lastUpdateSuccess := false;
      r := Err(PollFailureMessage(f));
    }

    /** The poll once the accounts have arrived and been filtered: enrichment, the backoff
        reset, and the host storing the snapshot. */
    method Publish(accounts: seq<Account>, now: int, fetch: BalanceOracle) returns (snapshot: Snapshot)
      modifies this
      ensures (Fields(), Ok(snapshot)) == Published(old(Fields()), accounts, now, fetch)
    {
      var enriched, errors, pending := EnrichAccounts(accounts, fetch);
      log := log + FetchLog(pending);
      if backoffUntil.Some? {
        backoffUntil := None;
        if updateInterval != DefaultInterval {
          updateInterval := DefaultInterval;
        }
      }
      snapshot := Snapshot(enriched, now, errors != [], errors);
      data := Some(snapshot);
      lastUpdateSuccess := true;
      log := log + [SnapshotPublished];
    }

    /** `async_refresh_account_balances`: merges into the stored snapshot in place; a failure it
        raises is returned. */
    method RefreshAccountBalances(numbers: seq<string>, now: int, fetch: BalanceOracle)
      returns (failure: Option<Failure>)
      modifies this
      ensures (Fields(), failure) == RefreshStep(old(Fields()), numbers, now, fetch)
    {
      if numbers == [] {
        return None;
      }
      if data.None? {
        log := log + [FullRefreshRequested];
        return None;
      }
      var batch := GetAccountBalances(numbers, fetch);
      log := log + [FetchBalances(numbers)];
      if batch.Err? {
        return Some(batch.error);
      }
      var snapshot := data.value;
      var merged, raised, updatedAny := MergeRefreshed(snapshot.accounts, batch.value);
      data := Some(snapshot.(accounts := merged));
      if raised {
        return Some(Other(NoGetAttribute));
      }
      if updatedAny {
        data := Some(data.value.(lastUpdate := now, partial := true));
        lastUpdateSuccess := true;
        log := log + [SnapshotPublished];
      }
      return None;
    }

    /** `async_transfer_money`: the client posts the payload and its reply is classified as
        `_request` does; on success both accounts are refreshed, with a full refresh requested
        when that raises. */
    method TransferMoney<R>(from: string, to: string, amount: real, currency: string, description: string,
                            dueDate: Option<string>, reply: Reply<R>, now: int, fetch: BalanceOracle)
      returns (r: Result<R, ApiError>)
      modifies this
      ensures (Fields(), r) == TransferStep(old(Fields()), Transfer(TransferPayload(from, to, amount, currency, description, dueDate)),
                                           [from, to], Classify("POST", TransferUrl, reply), now, fetch)
    {
      var payload := BuildTransferPayload(from, to, amount, currency, description, dueDate);
      log := log + [Transfer(payload)];
      var outcome := Classify("POST", TransferUrl, reply);
      r := Settle(outcome, [from, to], now, fetch);
    }

    /** `async_transfer_money_creditcard`: as `TransferMoney`, refreshing the source account only. */
    method TransferMoneyCreditCard<R>(from: string, creditCardAccountId: string, amount: real,
                                      dueDate: Option<string>, outcome: Result<R, Failure>,
                                      now: int, fetch: BalanceOracle)
      returns (r: Result<R, ApiError>)
      modifies this
      ensures (Fields(), r) == TransferStep(old(Fields()), TransferCreditCard(from, creditCardAccountId, amount, dueDate),
                                           [from], outcome, now, fetch)
    {
      log := log + [TransferCreditCard(from, creditCardAccountId, amount, dueDate)];
      r := Settle(outcome, [from], now, fetch);
    }

    /** What both transfers do once the client call has returned or raised. */
    method Settle<R>(outcome: Result<R, Failure>, refresh: seq<string>, now: int, fetch: BalanceOracle)
      returns (r: Result<R, ApiError>)
      modifies this
      ensures outcome.Err? ==> Fields() == old(Fields())
      ensures outcome.Err? && outcome.error.Api? ==> r == Err(outcome.error.error)
      ensures outcome.Err? && outcome.error.Other? ==> r == Err(ApiError(false, "Unexpected error: " + outcome.error.text, [], None))
      ensures outcome.Ok? ==> r == Ok(outcome.value)
      ensures outcome.Ok? ==>
                var (refreshed, failure) := RefreshStep(old(Fields()), refresh, now, fetch);
                Fields() == if failure.Some? then refreshed.(log := refreshed.log + [FullRefreshRequested]) else refreshed
    {
      match outcome {
        case Err(Api(e)) =>
          r := Err(e);
        case Err(Other(t)) =>
          r := Err(ApiError(false, "Unexpected error: " + t, [], None));
        case Ok(v) =>
          var failure := RefreshAccountBalances(refresh, now, fetch);
          if failure.Some? {
            log := log + [FullRefreshRequested];
          }
          r := Ok(v);
      }
    }
  }
}
