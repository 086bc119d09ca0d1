/** The sensor platform: which balance sensors exist, when a sensor is available, and the
    attributes the two kinds of sensor expose, all read off the coordinator's snapshot. */
module Sensor {
  import opened Wrappers
  import opened Text
  import opened Accounts
  import opened Coordinator

  const Domain := "sparebank1_pengerobot"

  // ---------------------------------------------------------------------
  // Identifiers
  // ---------------------------------------------------------------------

  /** The identifier discovery gives the account at position `idx`: the first non-empty of its
      four id fields, else a positional name. */
  function AccountKey(acc: Account, idx: nat): (key: string)
    ensures key != ""
    ensures acc.accountNumber.Truthy() ==> key == acc.accountNumber.s
    ensures !acc.accountNumber.Truthy() && acc.creditCardAccountID.Truthy() ==> key == acc.creditCardAccountID.s
    ensures (!acc.accountNumber.Truthy() && !acc.creditCardAccountID.Truthy() && acc.accountId.Truthy())
            ==> key == acc.accountId.s
    ensures (!acc.accountNumber.Truthy() && !acc.creditCardAccountID.Truthy() && !acc.accountId.Truthy()
             && acc.AccountId.Truthy()) ==> key == acc.AccountId.s
    ensures (!acc.accountNumber.Truthy() && !acc.creditCardAccountID.Truthy() && !acc.accountId.Truthy()
             && !acc.AccountId.Truthy()) ==> key == "account_" + IntToString(idx)
  {
    if acc.accountNumber.Truthy() then acc.accountNumber.s
    else if acc.creditCardAccountID.Truthy() then acc.creditCardAccountID.s
    else if acc.accountId.Truthy() then acc.accountId.s
    else if acc.AccountId.Truthy() then acc.AccountId.s
    else "account_" + IntToString(idx)
  }

  /** The balance sensor's own resolution of its account number, in two steps: the account
      number when present, else the fallback chain. It agrees with discovery's key. */
  function SensorAccountNumber(acc: Account, idx: nat): (key: string)
    ensures key == AccountKey(acc, idx)
  {
    var first := acc.accountNumber;
    if first.Truthy() then first.s
    else
      var fallback :=
        if acc.creditCardAccountID.Truthy() then acc.creditCardAccountID
        else if acc.accountId.Truthy() then acc.accountId
        else if acc.AccountId.Truthy() then acc.AccountId
        else Text("account_" + IntToString(idx));
      fallback.s
  }

  /** The unique id of a balance sensor for account key `key` in config entry `entryId`. */
  function UniqueId(entryId: string, key: string): string {
    Domain + "_" + entryId + "_account_" + key
  }

  /** Distinct keys give distinct unique ids within one config entry. */
  lemma UniqueIdInjective(entryId: string, k1: string, k2: string)
    requires UniqueId(entryId, k1) == UniqueId(entryId, k2)
    ensures k1 == k2
  {
    var p := Domain + "_" + entryId + "_account_";
    assert UniqueId(entryId, k1)[|p|..] == k1;
    assert UniqueId(entryId, k2)[|p|..] == k2;
  }

  /** What a balance sensor keeps from its construction. */
  datatype BalanceSensor = BalanceSensor(
    uniqueId: string,
    accountNumber: string,
    accountIndex: nat,
    name: string,
    currency: Field)

  /** `Sparebank1AccountBalanceSensor.__init__` for the account at position `idx`. */
  function NewSensor(entryId: string, entryName: string, acc: Account, idx: nat): (s: BalanceSensor)
    ensures s.accountNumber == AccountKey(acc, idx) && s.accountIndex == idx
    ensures s.uniqueId == UniqueId(entryId, AccountKey(acc, idx))
    ensures s.currency == (if acc.currencyCode.Missing? then Text("NOK") else acc.currencyCode)
    ensures s.name == entryName + " " + (if acc.name.Missing? then "Account " + IntToString(idx + 1)
                                         else if acc.name.Null? then "None" else acc.name.s)
  {
    var key := SensorAccountNumber(acc, idx);
    var accountName := acc.name.Render("Account " + IntToString(idx + 1));
    BalanceSensor(UniqueId(entryId, key), key, idx, entryName + " " + accountName, acc.currencyCode.GetOr("NOK"))
  }

  // ---------------------------------------------------------------------
  // Discovery
  // ---------------------------------------------------------------------

  function IdSet(sensors: seq<BalanceSensor>): set<string> {
    set i | 0 <= i < |sensors| :: sensors[i].uniqueId
  }

  predicate DistinctIds(sensors: seq<BalanceSensor>) {
    forall i, j :: 0 <= i < j < |sensors| ==> sensors[i].uniqueId != sensors[j].uniqueId
  }

  /** The sensors one discovery pass creates over `accounts`, given the ids already added: an
      account gets a sensor unless its id was added before or earlier in the same pass. */
  function Discover(added: set<string>, accounts: seq<Account>, entryId: string, entryName: string)
    : seq<BalanceSensor>
  {
    if accounts == [] then []
    else
      var idx := |accounts| - 1;
      var prev := Discover(added, accounts[..idx], entryId, entryName);
      var s := NewSensor(entryId, entryName, accounts[idx], idx);
      if s.uniqueId in added || s.uniqueId in IdSet(prev) then prev else prev + [s]
  }

  lemma IdSetAppend(sensors: seq<BalanceSensor>, s: BalanceSensor)
    ensures IdSet(sensors + [s]) == IdSet(sensors) + {s.uniqueId}
  {
    var xs := sensors + [s];
    assert xs[|sensors|] == s;
    forall id | id in IdSet(sensors) ensures id in IdSet(xs) {
      var i :| 0 <= i < |sensors| && sensors[i].uniqueId == id;
      assert xs[i] == sensors[i];
    }
  }

  /** A discovery pass creates sensors with fresh, pairwise distinct ids, each for one of the
      accounts; afterwards every account's id has been added. */
  lemma {:induction false} DiscoverFresh(added: set<string>, accounts: seq<Account>, entryId: string, entryName: string)
    ensures var r := Discover(added, accounts, entryId, entryName);
            DistinctIds(r) && IdSet(r) !! added
            && (forall i :: 0 <= i < |accounts| ==> UniqueId(entryId, AccountKey(accounts[i], i)) in added + IdSet(r))
            && (forall s :: s in r ==> exists i :: 0 <= i < |accounts| && s == NewSensor(entryId, entryName, accounts[i], i))
  {
    if accounts != [] {
      var idx := |accounts| - 1;
      var front := accounts[..idx];
      var prev := Discover(added, front, entryId, entryName);
      DiscoverFresh(added, front, entryId, entryName);
      var s := NewSensor(entryId, entryName, accounts[idx], idx);
      assert forall i :: 0 <= i < idx ==> front[i] == accounts[i];
      if !(s.uniqueId in added || s.uniqueId in IdSet(prev)) {
        var r := prev + [s];
        IdSetAppend(prev, s);
        forall i, j | 0 <= i < j < |r| ensures r[i].uniqueId != r[j].uniqueId {
          if j == |prev| {
            assert r[i].uniqueId in IdSet(prev) by { assert r[i] == prev[i]; }
          } else {
            assert r[i] == prev[i] && r[j] == prev[j];
          }
        }
        forall t | t in r ensures exists i :: 0 <= i < |accounts| && t == NewSensor(entryId, entryName, accounts[i], i) {
          if t != s {
            assert t in prev;
            var i :| 0 <= i < |front| && t == NewSensor(entryId, entryName, front[i], i);
            assert front[i] == accounts[i];
          }
        }
      }
    }
  }

  /** A second pass over the same accounts creates nothing. */
  lemma DiscoverAgainAddsNothing(added: set<string>, accounts: seq<Account>, entryId: string, entryName: string)
    ensures Discover(added + IdSet(Discover(added, accounts, entryId, entryName)), accounts, entryId, entryName) == []
  {
    var seen := added + IdSet(Discover(added, accounts, entryId, entryName));
    DiscoverFresh(added, accounts, entryId, entryName);
    AllSeenDiscoversNothing(seen, accounts, entryId, entryName);
  }

  lemma {:induction false} AllSeenDiscoversNothing(seen: set<string>, accounts: seq<Account>, entryId: string, entryName: string)
    requires forall i :: 0 <= i < |accounts| ==> UniqueId(entryId, AccountKey(accounts[i], i)) in seen
    ensures Discover(seen, accounts, entryId, entryName) == []
  {
    if accounts != [] {
      var idx := |accounts| - 1;
      var front := accounts[..idx];
      assert forall i :: 0 <= i < idx ==> front[i] == accounts[i];
      AllSeenDiscoversNothing(seen, front, entryId, entryName);
    }
  }

  /** One pass of the discovery loop: the sensors it creates and the ids added afterwards. */
  method DiscoverPass(added: set<string>, accounts: seq<Account>, entryId: string, entryName: string)
    returns (created: seq<BalanceSensor>, addedAfter: set<string>)
    ensures created == Discover(added, accounts, entryId, entryName)
    ensures addedAfter == added + IdSet(created)
  {
    created := [];
    addedAfter := added;
    for idx := 0 to |accounts|
      invariant created == Discover(added, accounts[..idx], entryId, entryName)
      invariant addedAfter == added + IdSet(created)
    {
      assert accounts[..idx + 1][..idx] == accounts[..idx];
      var acc := accounts[idx];
      var uniq := UniqueId(entryId, AccountKey(acc, idx));
      if uniq !in addedAfter {
        var sensor := NewSensor(entryId, entryName, acc, idx);
        IdSetAppend(created, sensor);
        created := created + [sensor];
        addedAfter := addedAfter + {uniq};
      }
    }
    assert accounts[..|accounts|] == accounts;
  }

  function Flatten(batches: seq<seq<BalanceSensor>>): seq<BalanceSensor> {
    if batches == [] then [] else Flatten(batches[..|batches| - 1]) + batches[|batches| - 1]
  }

  /** The discovery callback registered in `async_setup_entry`, with the set of unique ids
      already added and every batch of sensors handed to the host. */
  class Discovery {
    const entryId: string
    const entryName: string
    var added: set<string>
    var batches: seq<seq<BalanceSensor>>

    /** Every added id belongs to exactly one sensor created so far, and no call hands the host
        an empty batch. */
    predicate Valid()
      reads this
    {
      added == IdSet(Flatten(batches)) && DistinctIds(Flatten(batches))
      && forall k :: 0 <= k < |batches| ==> batches[k] != []
    }

    constructor(entryId: string, entryName: string)
      ensures Valid()
      ensures this.entryId == entryId && this.entryName == entryName
      ensures added == {} && batches == []
    {
      this.entryId := entryId;
      this.entryName := entryName;
      added := {};
      batches := [];
    }

    /** `_handle_coordinator_update`: creates a sensor for every account whose unique id has
        not been added yet, and hands the new sensors to the host in one call. */
    method HandleUpdate(data: Option<Snapshot>)
      requires Valid()
      modifies this
      ensures Valid()
      ensures data.None? ==> added == old(added) && batches == old(batches)
      ensures data.Some? ==>
                var created := Discover(old(added), data.value.accounts, entryId, entryName);
                added == old(added) + IdSet(created)
                && batches == old(batches) + (if created == [] then [] else [created])
    {
      if data.None? {
        return;
      }
      var created, addedAfter := DiscoverPass(added, data.value.accounts, entryId, entryName);
      added := addedAfter;
      DiscoverFresh(old(added), data.value.accounts, entryId, entryName);
      FlattenDistinct(batches, created);
      if created != [] {
        batches := batches + [created];
      }
    }
  }

  /** Appending a batch of fresh, distinct ids keeps all ids distinct. */
  lemma FlattenDistinct(batches: seq<seq<BalanceSensor>>, created: seq<BalanceSensor>)
    requires DistinctIds(Flatten(batches)) && DistinctIds(created) && IdSet(created) !! IdSet(Flatten(batches))
    ensures Flatten(batches + [created]) == Flatten(batches) + created
    ensures IdSet(Flatten(batches + [created])) == IdSet(Flatten(batches)) + IdSet(created)
    ensures DistinctIds(Flatten(batches + [created]))
  {
    var b := batches + [created];
    assert b[..|b| - 1] == batches;
    IdSetConcat(Flatten(batches), created);
    DistinctConcat(Flatten(batches), created);
  }

  lemma IdSetConcat(xs: seq<BalanceSensor>, ys: seq<BalanceSensor>)
    ensures IdSet(xs + ys) == IdSet(xs) + IdSet(ys)
  {
    var all := xs + ys;
    forall id | id in IdSet(all) ensures id in IdSet(xs) + IdSet(ys) {
      var i :| 0 <= i < |all| && all[i].uniqueId == id;
      if i < |xs| { assert all[i] == xs[i]; } else { assert all[i] == ys[i - |xs|]; }
    }
    forall id | id in IdSet(xs) + IdSet(ys) ensures id in IdSet(all) {
      if id in IdSet(xs) {
        var i :| 0 <= i < |xs| && xs[i].uniqueId == id;
        assert all[i] == xs[i];
      } else {
        var i :| 0 <= i < |ys| && ys[i].uniqueId == id;
        assert all[|xs| + i] == ys[i];
      }
    }
  }

  lemma DistinctConcat(xs: seq<BalanceSensor>, ys: seq<BalanceSensor>)
    requires DistinctIds(xs) && DistinctIds(ys) && IdSet(xs) !! IdSet(ys)
    ensures DistinctIds(xs + ys)
  {
    var all := xs + ys;
    forall i, j | 0 <= i < j < |all| ensures all[i].uniqueId != all[j].uniqueId {
      if j < |xs| {
        assert all[i] == xs[i] && all[j] == xs[j];
      } else if i >= |xs| {
        assert all[i] == ys[i - |xs|] && all[j] == ys[j - |xs|];
      } else {
        assert all[i] == xs[i] && all[j] == ys[j - |xs|];
        assert all[i].uniqueId in IdSet(xs);
        assert all[j].uniqueId in IdSet(ys);
      }
    }
  }

  // ---------------------------------------------------------------------
  // Availability
  // ---------------------------------------------------------------------

  /** Three hours, in seconds. */
  const MaxStaleness := 10800

  /** `BaseSparebank1Sensor.available`: no data is unavailable; data younger than three hours is
      available; older data follows the coordinator's last update result. */
  function BaseAvailable(data: Option<Snapshot>, lastUpdateSuccess: bool, now: int): bool {
    if data.None? then false
    else if now - data.value.lastUpdate < MaxStaleness then true
    else lastUpdateSuccess
  }

  lemma BaseAvailableCases(data: Option<Snapshot>, lastUpdateSuccess: bool, now: int)
    ensures data.None? ==> !BaseAvailable(data, lastUpdateSuccess, now)
    ensures data.Some? && now - data.value.lastUpdate < MaxStaleness ==> BaseAvailable(data, lastUpdateSuccess, now)
    ensures data.Some? && now - data.value.lastUpdate >= MaxStaleness ==>
              BaseAvailable(data, lastUpdateSuccess, now) == lastUpdateSuccess
    ensures BaseAvailable(data, lastUpdateSuccess, now) ==> data.Some?
  {
  }

  /** Whether account `acc` is the one a sensor with account number `key` is looking for;
      `withCard` says whether the creditCardAccountID field is among those compared. */
  predicate Matches(acc: Account, key: string, withCard: bool) {
    acc.accountNumber.Get() == Some(key)
    || (withCard && acc.creditCardAccountID.Get() == Some(key))
    || acc.accountId.Get() == Some(key)
    || acc.AccountId.Get() == Some(key)
  }

  /** The position of the first matching account. */
  function FirstMatching(accounts: seq<Account>, key: string, withCard: bool): (r: Option<nat>)
    ensures r.Some? ==> r.value < |accounts| && Matches(accounts[r.value], key, withCard)
                        && forall j :: 0 <= j < r.value ==> !Matches(accounts[j], key, withCard)
    ensures r.None? ==> forall j :: 0 <= j < |accounts| ==> !Matches(accounts[j], key, withCard)
  {
    if accounts == [] then None
    else if Matches(accounts[0], key, withCard) then Some(0)
    else
      var rest := FirstMatching(accounts[1..], key, withCard);
      assert forall j :: 1 <= j < |accounts| ==> accounts[j] == accounts[1..][j - 1];
      if rest.Some? then Some(rest.value + 1) else None
  }

  /** The lookup loop the balance sensor runs, stopping at the first match. */
  method FindAccount(accounts: seq<Account>, key: string, withCard: bool) returns (found: Option<nat>)
    ensures found == FirstMatching(accounts, key, withCard)
  {
    var i := 0;
    while i < |accounts|
      invariant 0 <= i <= |accounts|
      invariant forall j :: 0 <= j < i ==> !Matches(accounts[j], key, withCard)
    {
      if Matches(accounts[i], key, withCard) {
        return Some(i);
      }
      i := i + 1;
    }
    return None;
  }

  /** Whether a balance can be shown: a mapping holding an "amount" key. */
  predicate HasAmount(b: Balance) {
    b.Dict? && !b.amount.Missing?
  }

  /** `Sparebank1AccountBalanceSensor.available`. */
  function BalanceAvailable(data: Option<Snapshot>, lastUpdateSuccess: bool, now: int, key: string): bool {
    if data.None? then false
    else
      match FirstMatching(data.value.accounts, key, true)
      case None => false
      case Some(i) => HasAmount(data.value.accounts[i].balance) && BaseAvailable(data, lastUpdateSuccess, now)
  }

  /** A balance sensor is available exactly when some account matches it on any of the four id
      fields, the first such account has an amount, and the base rule allows it. */
  lemma BalanceAvailableMeaning(data: Option<Snapshot>, lastUpdateSuccess: bool, now: int, key: string)
    ensures BalanceAvailable(data, lastUpdateSuccess, now, key) <==>
              data.Some?
              && (exists i :: (0 <= i < |data.value.accounts| && Matches(data.value.accounts[i], key, true)
                               && HasAmount(data.value.accounts[i].balance)
                               && forall j :: 0 <= j < i ==> !Matches(data.value.accounts[j], key, true)))
              && BaseAvailable(data, lastUpdateSuccess, now)
  {
    if data.Some? {
      var m := FirstMatching(data.value.accounts, key, true);
      if m.Some? {
        var i := m.value;
        forall i' | 0 <= i' < |data.value.accounts| && Matches(data.value.accounts[i'], key, true)
            && forall j :: 0 <= j < i' ==> !Matches(data.value.accounts[j], key, true)
          ensures i' == i
        {
        }
      }
    }
  }

  // ---------------------------------------------------------------------
  // The accounts sensor
  // ---------------------------------------------------------------------

  /** `Sparebank1AccountSensor.native_value`: the number of accounts, none without data. */
  function AccountCount(data: Option<Snapshot>): (r: Option<nat>)
    ensures r.Some? <==> data.Some?
    ensures data.Some? ==> r.value == |data.value.accounts|
  {
    match data
    case None => None
    case Some(d) => Some(|d.accounts|)
  }

  datatype AccountsAttributes = AccountsAttributes(
    integrationId: string,
    accountCount: nat,
    lastUpdate: int,
    balanceFetchStatus: string,
    balanceFetchErrors: Option<seq<string>>)

  const MaxShownErrors := 3

  /** `Sparebank1AccountSensor.extra_state_attributes`; `None` is the empty mapping. */
  function AccountsSensorAttributes(data: Option<Snapshot>, entryId: string): (r: Option<AccountsAttributes>)
    ensures r.Some? <==> data.Some?
    ensures data.Some? ==>
              var d := data.value;
              var a := r.value;
              a.integrationId == entryId && a.accountCount == |d.accounts| && a.lastUpdate == d.lastUpdate
              && (a.balanceFetchStatus == "partial_failure" <==> d.partial)
              && (a.balanceFetchStatus == "success" <==> !d.partial)
              && (a.balanceFetchErrors.Some? <==> d.partial && d.errors != [])
              && (a.balanceFetchErrors.Some? ==>
                    |a.balanceFetchErrors.value| == if |d.errors| < MaxShownErrors then |d.errors| else MaxShownErrors)
              && (a.balanceFetchErrors.Some? ==> a.balanceFetchErrors.value <= d.errors)
  {
    match data
    case None => None
    case Some(d) =>
      var shown := if |d.errors| < MaxShownErrors then d.errors else d.errors[..MaxShownErrors];
      if d.partial then
        Some(AccountsAttributes(entryId, |d.accounts|, d.lastUpdate, "partial_failure",
                                if d.errors != [] then Some(shown) else None))
      else
        Some(AccountsAttributes(entryId, |d.accounts|, d.lastUpdate, "success", None))
  }

  // ---------------------------------------------------------------------
  // The balance sensor's attributes
  // ---------------------------------------------------------------------

  /** `Sparebank1AccountBalanceSensor.extra_state_attributes`: the account is looked up on three
      of the four id fields (creditCardAccountID is not compared); an empty mapping when there is
      no data or no match. */
  function BalanceSensorAttributes(data: Option<Snapshot>, entryId: string, key: string): (r: map<string, Field>)
  {
    if data.None? then map[]
    else
      match FirstMatching(data.value.accounts, key, false)
      case None => map[]
      case Some(i) =>
        var acc := data.value.accounts[i];
        var base := map["account_number" := acc.accountNumber.GetOr("Unknown"),
                        "account_name" := acc.name.GetOr("Unknown"),
                        "account_type" := acc.description.GetOr("Unknown"),
                        "integration_id" := Text(entryId)];
        if !acc.creditCardAccountID.Missing? then base["credit_card_account_id" := acc.creditCardAccountID] else base
  }

  /** The attributes describe the first account matching on accountNumber, accountId or
      AccountId, with "Unknown" for absent keys, and carry the card id exactly when the account
      has that key. */
  lemma BalanceSensorAttributesMeaning(data: Option<Snapshot>, entryId: string, key: string)
    ensures var r := BalanceSensorAttributes(data, entryId, key);
            (r == map[] <==> data.None? || forall j :: 0 <= j < |data.value.accounts| ==> !Matches(data.value.accounts[j], key, false))
            && (r != map[] ==>
                  exists i :: 0 <= i < |data.value.accounts| && Matches(data.value.accounts[i], key, false)
                    && (forall j :: 0 <= j < i ==> !Matches(data.value.accounts[j], key, false))
                    && var acc := data.value.accounts[i];
                       r["account_number"] == (if acc.accountNumber.Missing? then Text("Unknown") else acc.accountNumber)
                       && r["account_name"] == (if acc.name.Missing? then Text("Unknown") else acc.name)
                       && r["account_type"] == (if acc.description.Missing? then Text("Unknown") else acc.description)
                       && r["integration_id"] == Text(entryId)
                       && ("credit_card_account_id" in r <==> !acc.creditCardAccountID.Missing?)
                       && ("credit_card_account_id" in r ==> r["credit_card_account_id"] == acc.creditCardAccountID))
  {
    var r := BalanceSensorAttributes(data, entryId, key);
    if data.Some? {
      var m := FirstMatching(data.value.accounts, key, false);
      if m.Some? {
        assert "integration_id" in r;
      }
    }
  }

  /** A credit card account identified only by its creditCardAccountID keeps its balance sensor
      available, while the same sensor's attribute lookup finds nothing. */
  lemma CardOnlyAccountHasNoAttributes()
    ensures var card := Account(Missing, Text("K1"), Missing, Missing, Text("Card"), Missing, Missing,
                                Text("NOK"), Dict(Text("100.00"), Text("NOK")));
            var data := Some(Snapshot([card], 0, false, []));
            AccountKey(card, 0) == "K1"
            && BalanceAvailable(data, true, 0, "K1")
            && BalanceSensorAttributes(data, "entry", "K1") == map[]
  {
    var card := Account(Missing, Text("K1"), Missing, Missing, Text("Card"), Missing, Missing,
                        Text("NOK"), Dict(Text("100.00"), Text("NOK")));
    assert Matches(card, "K1", true);
    assert !Matches(card, "K1", false);
  }
}
