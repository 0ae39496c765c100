/** The contract's durable state and the operations of `src/lib.rs` on it:
    the deposit ledger, the pool registry keyed by the canonical pair key, and
    the pool queries.  Every mutating operation returns the new state or the
    reason the call aborts; an aborted call changes nothing.
 */
module Amm {
  import opened Accounts
  import opened Results
  import opened Shares
  import opened Ledger
  import opened Pools

  /** `Contract` minus the unused `agent` string. */
  datatype Contract = Contract(
    agentAccountId: AccountId,
    pools: map<PoolKey, Pool>,
    deposits: Deposits)

  /** The parameters a suspended swap carries to its continuation. */
  datatype SwapRequest = SwapRequest(
    senderId: AccountId,
    tokenIn: AccountId,
    tokenOut: AccountId,
    amountIn: nat,
    minAmountOut: nat)

  /** Every pool sits under the key of its own two tokens and its share supply
      matches its providers' shares. */
  ghost predicate Valid(c: Contract) {
    forall k | k in c.pools ::
      && k == GetPoolKey(c.pools[k].tokenA, c.pools[k].tokenB)
      && SharesBalanced(c.pools[k])
  }

  /** The freshly initialised contract (`new`). */
  function New(agentAccountId: AccountId): (c: Contract)
    ensures Valid(c)
    ensures c.agentAccountId == agentAccountId
    ensures forall a, t :: BalanceOf(c.deposits, a, t) == 0
    ensures forall x, y :: FindPool(c, x, y).None?
  {
    Contract(agentAccountId, map[], map[])
  }

  /** The pool registered for the unordered pair {tokenA, tokenB}, if any. */
  function FindPool(c: Contract, tokenA: AccountId, tokenB: AccountId): Option<Pool> {
    var key := GetPoolKey(tokenA, tokenB);
    if key in c.pools then Some(c.pools[key]) else None
  }

  /** A pool found under the key of (x, y) in a valid state holds exactly x and y. */
  lemma FoundPoolHoldsPair(c: Contract, x: AccountId, y: AccountId)
    requires Valid(c)
    requires FindPool(c, x, y).Some?
    ensures var p := FindPool(c, x, y).value;
            (p.tokenA == x && p.tokenB == y) || (p.tokenA == y && p.tokenB == x)
  {
    var p := FindPool(c, x, y).value;
    PoolKeyInjective(x, y, p.tokenA, p.tokenB);
  }

  /** Pool lookup does not depend on the order in which the pair is named. */
  lemma FindPoolSymmetric(c: Contract, x: AccountId, y: AccountId)
    ensures FindPool(c, x, y) == FindPool(c, y, x)
  {
    PoolKeySymmetric(x, y);
  }

  /** (reserve_a, reserve_b, total_shares) of the pair's pool, in the pool's own
      token order (`get_pool_info`). */
  function GetPoolInfo(c: Contract, tokenA: AccountId, tokenB: AccountId): (r: Option<(nat, nat, nat)>)
    ensures r.None? <==> FindPool(c, tokenA, tokenB).None?
    ensures r.Some? ==>
              var p := FindPool(c, tokenA, tokenB).value;
              r.value == (p.reserveA, p.reserveB, p.totalShares)
  {
    match FindPool(c, tokenA, tokenB)
    case None => None
    case Some(p) => Some((p.reserveA, p.reserveB, p.totalShares))
  }

  /** Pool info is the same whichever order the tokens are named in. */
  lemma GetPoolInfoSymmetric(c: Contract, tokenA: AccountId, tokenB: AccountId)
    ensures GetPoolInfo(c, tokenA, tokenB) == GetPoolInfo(c, tokenB, tokenA)
  {
    FindPoolSymmetric(c, tokenA, tokenB);
  }

  /** An account's shares in the pair's pool, zero if it holds none; a missing
      pool aborts (`get_shares`). */
  function GetShares(c: Contract, tokenA: AccountId, tokenB: AccountId, account: AccountId): (r: Result<nat>)
    ensures r.Failure? <==> FindPool(c, tokenA, tokenB).None?
    ensures r.Failure? ==> r.error == PoolNotFound
    ensures r.Success? ==> r.value == Get(FindPool(c, tokenA, tokenB).value.shares, account)
  {
    match FindPool(c, tokenA, tokenB)
    case None => Failure(PoolNotFound)
    case Some(p) => Success(SharesOf(p, account))
  }

  /** (reserve of tokenIn, reserve of tokenOut); a missing pool aborts (`get_swap_balances`). */
  function GetSwapBalances(c: Contract, tokenIn: AccountId, tokenOut: AccountId): (r: Result<(nat, nat)>)
    ensures r.Failure? <==> FindPool(c, tokenIn, tokenOut).None?
    ensures r.Failure? ==> r.error == PoolNotFound
    ensures r.Success? ==> r.value == Reserves(FindPool(c, tokenIn, tokenOut).value, tokenIn)
  {
    match FindPool(c, tokenIn, tokenOut)
    case None => Failure(PoolNotFound)
    case Some(p) => Success(Reserves(p, tokenIn))
  }

  /** In a valid state the balances of (x, y) are those of (y, x) swapped, and
      each side is the reserve of the token named for it. */
  lemma GetSwapBalancesSwapped(c: Contract, x: AccountId, y: AccountId)
    requires Valid(c)
    requires x != y
    ensures GetSwapBalances(c, x, y).Success? <==> GetSwapBalances(c, y, x).Success?
    ensures GetSwapBalances(c, x, y).Success? ==>
              var (inX, outY) := GetSwapBalances(c, x, y).value;
              var (inY, outX) := GetSwapBalances(c, y, x).value;
              inX == outX && outY == inY
  {
    FindPoolSymmetric(c, x, y);
    if FindPool(c, x, y).Some? {
      FoundPoolHoldsPair(c, x, y);
    }
  }

  /** Credits the ledger (`internal_deposit`); the pools are untouched. */
  function InternalDeposit(c: Contract, account: AccountId, token: AccountId, amount: nat): (c': Contract)
    ensures c'.pools == c.pools && c'.agentAccountId == c.agentAccountId
    ensures BalanceOf(c'.deposits, account, token) == BalanceOf(c.deposits, account, token) + amount
    ensures forall a, t :: (a != account || t != token) ==>
              BalanceOf(c'.deposits, a, t) == BalanceOf(c.deposits, a, t)
  {
    c.(deposits := Ledger.InternalDeposit(c.deposits, account, token, amount))
  }

  /** Registers the pool for {tokenA, tokenB} (`create_pool`).  The creator must
      hold each amount in the ledger, which is read and not debited. */
  function CreatePool(c: Contract, sender: AccountId, tokenA: AccountId, amountA: nat, tokenB: AccountId, amountB: nat)
    : (r: Result<Contract>)
    ensures r.Failure? <==>
              || BalanceOf(c.deposits, sender, tokenA) < amountA
              || BalanceOf(c.deposits, sender, tokenB) < amountB
              || FindPool(c, tokenA, tokenB).Some?
    ensures r.Failure? && BalanceOf(c.deposits, sender, tokenA) < amountA ==> r.error == InsufficientDeposit(tokenA)
    ensures r.Failure? && BalanceOf(c.deposits, sender, tokenA) >= amountA ==>
              r.error == (if BalanceOf(c.deposits, sender, tokenB) < amountB then InsufficientDeposit(tokenB)
                          else PoolAlreadyExists)
    ensures r.Success? ==>
              var c' := r.value;
              && c'.deposits == c.deposits && c'.agentAccountId == c.agentAccountId
              && GetPoolInfo(c', tokenA, tokenB) == Some((amountA, amountB, INIT_SHARES_SUPPLY))
              && GetShares(c', tokenA, tokenB, sender) == Success(INIT_SHARES_SUPPLY)
              && (forall a :: a != sender ==> GetShares(c', tokenA, tokenB, a) == Success(0))
              && FindPool(c', tokenA, tokenB).value.tokenA == tokenA
              && FindPool(c', tokenA, tokenB).value.tokenB == tokenB
              && c'.pools.Keys == c.pools.Keys + {GetPoolKey(tokenA, tokenB)}
              && (forall k :: k in c.pools ==> c'.pools[k] == c.pools[k])
  {
    if BalanceOf(c.deposits, sender, tokenA) < amountA then Failure(InsufficientDeposit(tokenA))
    else if BalanceOf(c.deposits, sender, tokenB) < amountB then Failure(InsufficientDeposit(tokenB))
    else
      var key := GetPoolKey(tokenA, tokenB);
      if key in c.pools then Failure(PoolAlreadyExists)
      else Success(c.(pools := c.pools[key := NewPool(sender, tokenA, amountA, tokenB, amountB)]))
  }

  /** Commits a priced swap to the pair's pool (`internal_swap`) and returns
      `amountOut`.  No pricing is applied here. */
  function InternalSwap(c: Contract, tokenIn: AccountId, tokenOut: AccountId, amountIn: nat, amountOut: nat)
    : (r: Result<(Contract, nat)>)
    ensures r.Failure? <==>
              || FindPool(c, tokenIn, tokenOut).None?
              || amountOut > Reserves(FindPool(c, tokenIn, tokenOut).value, tokenIn).1
    ensures r.Failure? ==> r.error == if FindPool(c, tokenIn, tokenOut).None? then PoolNotFound else ReserveUnderflow
    ensures r.Success? ==>
              && r.value.1 == amountOut
              && r.value.0.deposits == c.deposits && r.value.0.agentAccountId == c.agentAccountId
              && r.value.0.pools.Keys == c.pools.Keys
              && (forall k :: k in c.pools && k != GetPoolKey(tokenIn, tokenOut) ==> r.value.0.pools[k] == c.pools[k])
    ensures r.Success? ==>
              var p, p' := FindPool(c, tokenIn, tokenOut).value, FindPool(r.value.0, tokenIn, tokenOut).value;
              && Success(p') == Swap(p, tokenIn, amountIn, amountOut)
              && Reserves(p', tokenIn).0 == Reserves(p, tokenIn).0 + amountIn
              && Reserves(p', tokenIn).1 + amountOut == Reserves(p, tokenIn).1
  {
    var key := GetPoolKey(tokenIn, tokenOut);
    if key !in c.pools then Failure(PoolNotFound)
    else
      var pool :- Swap(c.pools[key], tokenIn, amountIn, amountOut);
      Success((c.(pools := c.pools[key := pool]), amountOut))
  }

  /** Adds both amounts to the pair's pool and mints shares to `sender`
      (`internal_add_liquidity`).  The ledger is not touched. */
  function InternalAddLiquidity(c: Contract, tokenIn: AccountId, tokenOther: AccountId, amountIn: nat, amountOther: nat,
                                sender: AccountId): (r: Result<Contract>)
    ensures r.Failure? <==>
              || FindPool(c, tokenIn, tokenOther).None?
              || MintedShares(FindPool(c, tokenIn, tokenOther).value, tokenIn, amountIn, amountOther).Failure?
    ensures r.Failure? ==> r.error == if FindPool(c, tokenIn, tokenOther).None? then PoolNotFound else DivisionByZero
    ensures r.Success? ==>
              && r.value.deposits == c.deposits && r.value.agentAccountId == c.agentAccountId
              && r.value.pools.Keys == c.pools.Keys
              && (forall k :: k in c.pools && k != GetPoolKey(tokenIn, tokenOther) ==> r.value.pools[k] == c.pools[k])
    ensures r.Success? ==>
              var p, p' := FindPool(c, tokenIn, tokenOther).value, FindPool(r.value, tokenIn, tokenOther).value;
              AddLiquidity(p, tokenIn, amountIn, amountOther, sender) == Success((p', MintedShares(p, tokenIn, amountIn, amountOther).value))
  {
    var key := GetPoolKey(tokenIn, tokenOther);
    if key !in c.pools then Failure(PoolNotFound)
    else
      var (pool, _) :- AddLiquidity(c.pools[key], tokenIn, amountIn, amountOther, sender);
      Success(c.(pools := c.pools[key := pool]))
  }

  /** Adds liquidity backed by the sender's ledger balances, which are checked
      but not debited, and returns the sender's resulting share count
      (`add_liquidity_from_deposits`). */
  function AddLiquidityFromDeposits(c: Contract, sender: AccountId, tokenA: AccountId, tokenB: AccountId,
                                    amountA: nat, amountB: nat): (r: Result<(Contract, nat)>)
    ensures r.Failure? <==>
              || BalanceOf(c.deposits, sender, tokenA) < amountA
              || BalanceOf(c.deposits, sender, tokenB) < amountB
              || InternalAddLiquidity(c, tokenA, tokenB, amountA, amountB, sender).Failure?
    ensures r.Failure? && BalanceOf(c.deposits, sender, tokenA) < amountA ==> r.error == InsufficientDeposit(tokenA)
    ensures r.Failure? && BalanceOf(c.deposits, sender, tokenA) >= amountA ==>
              r.error == (if BalanceOf(c.deposits, sender, tokenB) < amountB then InsufficientDeposit(tokenB)
                          else InternalAddLiquidity(c, tokenA, tokenB, amountA, amountB, sender).error)
    ensures r.Success? ==>
              var (c', shares) := r.value;
              && Success(c') == InternalAddLiquidity(c, tokenA, tokenB, amountA, amountB, sender)
              && GetShares(c', tokenA, tokenB, sender) == Success(shares)
  {
    if BalanceOf(c.deposits, sender, tokenA) < amountA then Failure(InsufficientDeposit(tokenA))
    else if BalanceOf(c.deposits, sender, tokenB) < amountB then Failure(InsufficientDeposit(tokenB))
    else
      var c' :- InternalAddLiquidity(c, tokenA, tokenB, amountA, amountB, sender);
      var shares := c'.pools[GetPoolKey(tokenA, tokenB)].shares;
      Success((c', Get(shares, sender)))
  }

  /** Crediting the ledger keeps the registry valid. */
  lemma InternalDepositPreservesValid(c: Contract, account: AccountId, token: AccountId, amount: nat)
    requires Valid(c)
    ensures Valid(InternalDeposit(c, account, token, amount))
  {
  }

  /** A newly created pool sits under its own key with balanced shares. */
  lemma CreatePoolPreservesValid(c: Contract, sender: AccountId, tokenA: AccountId, amountA: nat, tokenB: AccountId, amountB: nat)
    requires Valid(c)
    requires CreatePool(c, sender, tokenA, amountA, tokenB, amountB).Success?
    ensures Valid(CreatePool(c, sender, tokenA, amountA, tokenB, amountB).value)
  {
  }

  /** A committed swap keeps every pool under its key with balanced shares. */
  lemma InternalSwapPreservesValid(c: Contract, tokenIn: AccountId, tokenOut: AccountId, amountIn: nat, amountOut: nat)
    requires InternalSwap(c, tokenIn, tokenOut, amountIn, amountOut).Success?
    ensures Valid(c) ==> Valid(InternalSwap(c, tokenIn, tokenOut, amountIn, amountOut).value.0)
  {
  }

  /** Adding liquidity keeps `total_shares` equal to the sum of the shares in every pool. */
  lemma InternalAddLiquidityPreservesValid(c: Contract, tokenIn: AccountId, tokenOther: AccountId, amountIn: nat,
                                           amountOther: nat, sender: AccountId)
    requires Valid(c)
    requires InternalAddLiquidity(c, tokenIn, tokenOther, amountIn, amountOther, sender).Success?
    ensures Valid(InternalAddLiquidity(c, tokenIn, tokenOther, amountIn, amountOther, sender).value)
  {
    var key := GetPoolKey(tokenIn, tokenOther);
    AddLiquidityKeepsSharesBalanced(c.pools[key], tokenIn, amountIn, amountOther, sender);
  }
}
