/** The JSON shapes the integration reads from the banking API: accounts,
    their balances, and balance-endpoint replies. Every key the core reads is
    a field; a key is absent, JSON null, or a string. */
module Accounts {
  import opened Wrappers

  /** One key of a JSON object. */
  datatype Field = Missing | Null | Text(s: string) {
    /** `d.get(key)`: `None` for an absent key and for null. */
    function Get(): Option<string> {
      if Text? then Some(s) else None
    }

    /** `d.get(key, default)`: the default replaces only an absent key. */
    function GetOr(default: string): Field {
      if Missing? then Text(default) else this
    }

    /** Python truthiness of `d.get(key)`. */
    predicate Truthy() {
      Text? && s != ""
    }

    /** `str(d.get(key, default))` as an f-string renders it. */
    function Render(default: string): string {
      match this
      case Missing => default
      case Null => "None"
      case Text(s) => s
    }
  }

  /** The value under an account's "balance" key. */
  datatype Balance =
    | NoBalance                          // the key is absent
    | Numeric(text: string)              // an int or float, carried as the text str() gives for it
    | Dict(amount: Field, currency: Field)  // a JSON object, seen through its "amount" and "currency" keys
    | NotADict                           // null, a string or a list

  datatype Account = Account(
    accountNumber: Field,
    creditCardAccountID: Field,
    accountId: Field,
    AccountId: Field,
    name: Field,
    description: Field,
    accountType: Field,                  // the "type" key
    currencyCode: Field,
    balance: Balance)

  /** The body of a reply from the balance endpoint. */
  datatype BalanceReply = BalanceReply(accountBalance: Field)

  /** The body of a reply from the accounts endpoint. */
  datatype AccountsEnvelope = AccountsEnvelope(accounts: Option<seq<Account>>)
}
