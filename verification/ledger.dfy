/** The deposit ledger: for each account, the amount of each token it has
    credited to the contract.  The ledger is only ever credited; nothing in
    the contract debits it.
 */
module Ledger {
  import opened Accounts
  import opened Results

  /** account -> (token -> balance); an account's inner map appears on its first credit. */
  type Deposits = map<AccountId, map<AccountId, nat>>

  /** The account's token map, or an empty one when it never deposited (`get_deposits`). */
  function GetDeposits(d: Deposits, account: AccountId): (tokens: map<AccountId, nat>)
    ensures account !in d ==> tokens == map[]
  {
    if account in d then d[account] else map[]
  }

  /** The balance of one token for one account, zero when there is no entry. */
  function BalanceOf(d: Deposits, account: AccountId, token: AccountId): nat {
    var tokens := GetDeposits(d, account);
    if token in tokens then tokens[token] else 0
  }

  /** Credits `amount` of `token` to `account` (`internal_deposit`). */
  function InternalDeposit(d: Deposits, account: AccountId, token: AccountId, amount: nat): (d': Deposits)
    ensures account in d' && token in d'[account]
    ensures BalanceOf(d', account, token) == BalanceOf(d, account, token) + amount
    ensures forall a: AccountId, t: AccountId :: (a != account || t != token) ==>
              BalanceOf(d', a, t) == BalanceOf(d, a, t)
    ensures d'.Keys == d.Keys + {account}
  {
    var tokens := GetDeposits(d, account);
    d[account := tokens[token := BalanceOf(d, account, token) + amount]]
  }

  /** Balances are pointwise no smaller in `d'` than in `d`. */
  ghost predicate NoneDecreased(d: Deposits, d': Deposits) {
    forall a: AccountId, t: AccountId :: BalanceOf(d, a, t) <= BalanceOf(d', a, t)
  }

  /** The listing of an account's deposits; the source `unwrap`s, so an account
      that never deposited aborts the call (`get_user_deposits`). */
  function GetUserDeposits(d: Deposits, account: AccountId): (r: Result<map<AccountId, nat>>)
    ensures r.Failure? <==> account !in d
    ensures r.Failure? ==> r.error == NoDepositsForAccount
    ensures r.Success? ==> r.value.Keys == GetDeposits(d, account).Keys
    ensures r.Success? ==> forall t :: t in r.value ==> r.value[t] == BalanceOf(d, account, t)
  {
    if account in d then Success(d[account]) else Failure(NoDepositsForAccount)
  }

  /** Crediting never lowers any balance. */
  lemma DepositNeverDecreases(d: Deposits, account: AccountId, token: AccountId, amount: nat)
    ensures NoneDecreased(d, InternalDeposit(d, account, token, amount))
  {
  }
}
