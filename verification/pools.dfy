/** A single liquidity pool: two reserves, a share supply and the shares of
    each provider.  The registry of pools keyed by token pair is in `Amm`.
 */
module Pools {
  import opened Accounts
  import opened Results
  import opened Shares

  /** Shares minted to a pool's creator, whatever amounts it supplied. */
  const INIT_SHARES_SUPPLY: nat := 1_000_000_000_000_000

  /** `token_a`/`token_b` keep the order the creator gave them. */
  datatype Pool = Pool(
    tokenA: AccountId,
    tokenB: AccountId,
    reserveA: nat,
    reserveB: nat,
    totalShares: nat,
    shares: map<AccountId, nat>)

  /** The pool's share supply is exactly what its providers hold. */
  ghost predicate SharesBalanced(p: Pool) {
    p.totalShares == Sum(p.shares)
  }

  function SharesOf(p: Pool, account: AccountId): nat {
    Get(p.shares, account)
  }

  /** The pool `create_pool` registers: the supplied reserves and all initial shares to the creator. */
  function NewPool(creator: AccountId, tokenA: AccountId, amountA: nat, tokenB: AccountId, amountB: nat): (p: Pool)
    ensures p.tokenA == tokenA && p.tokenB == tokenB && p.reserveA == amountA && p.reserveB == amountB
    ensures SharesBalanced(p)
    ensures p.totalShares == INIT_SHARES_SUPPLY
    ensures SharesOf(p, creator) == INIT_SHARES_SUPPLY
    ensures forall a :: a != creator ==> SharesOf(p, a) == 0
  {
    SumSingleton(creator, INIT_SHARES_SUPPLY);
    Pool(tokenA, tokenB, amountA, amountB, INIT_SHARES_SUPPLY, map[creator := INIT_SHARES_SUPPLY])
  }

  /** Reserves seen from `tokenIn`: (its own side, the other side).  Any token
      other than `token_a` is taken to be `token_b`, as in the source. */
  function Reserves(p: Pool, tokenIn: AccountId): (nat, nat) {
    if tokenIn == p.tokenA then (p.reserveA, p.reserveB) else (p.reserveB, p.reserveA)
  }

  /** Moves `amountIn` into the `tokenIn` side and `amountOut` out of the other;
      u128 subtraction below zero aborts. */
  function Swap(p: Pool, tokenIn: AccountId, amountIn: nat, amountOut: nat): (r: Result<Pool>)
    ensures r.Failure? <==> amountOut > Reserves(p, tokenIn).1
    ensures r.Failure? ==> r.error == ReserveUnderflow
    ensures r.Success? ==>
              && Reserves(r.value, tokenIn).0 == Reserves(p, tokenIn).0 + amountIn
              && Reserves(r.value, tokenIn).1 + amountOut == Reserves(p, tokenIn).1
    ensures r.Success? ==>
              && r.value.reserveA + r.value.reserveB + amountOut == p.reserveA + p.reserveB + amountIn
              && r.value.tokenA == p.tokenA && r.value.tokenB == p.tokenB
              && r.value.totalShares == p.totalShares && r.value.shares == p.shares
  {
    var (balanceIn, balanceOut) := Reserves(p, tokenIn);
    if amountOut > balanceOut then Failure(ReserveUnderflow)
    else
      var newIn, newOut := balanceIn + amountIn, balanceOut - amountOut;
      if tokenIn == p.tokenA then Success(p.(reserveA := newIn, reserveB := newOut))
      else Success(p.(reserveB := newIn, reserveA := newOut))
  }

  /** The two deposited amounts laid on the pool's (a, b) sides. */
  function SideAmounts(p: Pool, tokenIn: AccountId, amountIn: nat, amountOther: nat): (nat, nat) {
    if tokenIn == p.tokenA then (amountIn, amountOther) else (amountOther, amountIn)
  }

  function Min(x: nat, y: nat): nat {
    if x <= y then x else y
  }

  /** `m` shares are backed by `amount` of a side whose reserve is `reserve`. */
  ghost predicate Backed(m: nat, amount: nat, reserve: nat, total: nat) {
    m * reserve <= amount * total
  }

  /** Shares minted for adding (a, b): the largest count backed on both sides,
      i.e. `min(a*T/ra, b*T/rb)` with floor division.  A zero reserve aborts. */
  function MintedShares(p: Pool, tokenIn: AccountId, amountIn: nat, amountOther: nat): (r: Result<nat>)
    ensures r.Failure? <==> p.reserveA == 0 || p.reserveB == 0
    ensures r.Failure? ==> r.error == DivisionByZero
    ensures r.Success? ==>
              var (a, b) := SideAmounts(p, tokenIn, amountIn, amountOther);
              && Backed(r.value, a, p.reserveA, p.totalShares)
              && Backed(r.value, b, p.reserveB, p.totalShares)
              && !(Backed(r.value + 1, a, p.reserveA, p.totalShares)
                   && Backed(r.value + 1, b, p.reserveB, p.totalShares))
  {
    var (a, b) := SideAmounts(p, tokenIn, amountIn, amountOther);
    if p.reserveA == 0 || p.reserveB == 0 then Failure(DivisionByZero)
    else
      var qa, qb := a * p.totalShares / p.reserveA, b * p.totalShares / p.reserveB;
      FloorDiv(a * p.totalShares, p.reserveA);
      FloorDiv(b * p.totalShares, p.reserveB);
      MulMonotone(Min(qa, qb), qa, p.reserveA);
      MulMonotone(Min(qa, qb), qb, p.reserveB);
      Success(Min(qa, qb))
  }

  /** Floor division brackets its dividend. */
  lemma FloorDiv(x: nat, r: nat)
    requires r > 0
    ensures (x / r) * r <= x < (x / r + 1) * r
  {
  }

  lemma MulMonotone(x: nat, y: nat, r: nat)
    requires x <= y
    ensures x * r <= y * r
  {
  }

  /** Adds (a, b) to the reserves in full and mints `MintedShares` to `provider`. */
  function AddLiquidity(p: Pool, tokenIn: AccountId, amountIn: nat, amountOther: nat, provider: AccountId)
    : (r: Result<(Pool, nat)>)
    ensures r.Failure? <==> MintedShares(p, tokenIn, amountIn, amountOther).Failure?
    ensures r.Failure? ==> r.error == DivisionByZero
    ensures r.Success? ==>
              var (q, minted) := r.value;
              var (a, b) := SideAmounts(p, tokenIn, amountIn, amountOther);
              && MintedShares(p, tokenIn, amountIn, amountOther) == Success(minted)
              && q.tokenA == p.tokenA && q.tokenB == p.tokenB
              && q.reserveA == p.reserveA + a && q.reserveB == p.reserveB + b
              && q.totalShares == p.totalShares + minted
              && SharesOf(q, provider) == SharesOf(p, provider) + minted
              && forall x :: x != provider ==> SharesOf(q, x) == SharesOf(p, x)
  {
    var minted :- MintedShares(p, tokenIn, amountIn, amountOther);
    var (a, b) := SideAmounts(p, tokenIn, amountIn, amountOther);
    var q := p.(reserveA := p.reserveA + a,
                reserveB := p.reserveB + b,
                totalShares := p.totalShares + minted,
                shares := p.shares[provider := SharesOf(p, provider) + minted]);
    Success((q, minted))
  }

  /** Adding liquidity keeps `total_shares` equal to the sum of all shares. */
  lemma AddLiquidityKeepsSharesBalanced(p: Pool, tokenIn: AccountId, amountIn: nat, amountOther: nat, provider: AccountId)
    requires SharesBalanced(p)
    requires AddLiquidity(p, tokenIn, amountIn, amountOther, provider).Success?
    ensures SharesBalanced(AddLiquidity(p, tokenIn, amountIn, amountOther, provider).value.0)
  {
    var (q, minted) := AddLiquidity(p, tokenIn, amountIn, amountOther, provider).value;
    SumUpdate(p.shares, provider, SharesOf(p, provider) + minted);
  }
}
