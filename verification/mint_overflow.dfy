/** The share formula of `internal_add_liquidity` as compiled: u128 products
    `amount * total_shares` computed before dividing, an overflow panicking.
    With `INIT_SHARES_SUPPLY` = 10^15 shares, any amount of 2^128 / 10^15
    (about 3.4 * 10^23) base units or more overflows, which for a token with 24
    decimals is under one whole token.  `Pools.MintedShares` is the same
    formula over unbounded integers, which is what the rest of the model uses.
 */
module MintOverflow {
  import opened Accounts
  import opened Results
  import opened Pools

  const U128_MAX: nat := 0xffff_ffff_ffff_ffff_ffff_ffff_ffff_ffff

  /** u128 multiplication with overflow checks: an overflow aborts the call. */
  function CheckedMul(x: nat, y: nat): (r: Result<nat>)
    ensures r.Success? <==> x * y <= U128_MAX
    ensures r.Success? ==> r.value == x * y
    ensures r.Failure? ==> r.error == ArithmeticOverflow
  {
    if x * y <= U128_MAX then Success(x * y) else Failure(ArithmeticOverflow)
  }

  /** `min(a * T / ra, b * T / rb)` evaluated left to right in u128. */
  function MintedSharesAsWritten(p: Pool, tokenIn: AccountId, amountIn: nat, amountOther: nat): (r: Result<nat>)
    ensures r.Success? ==> r == MintedShares(p, tokenIn, amountIn, amountOther)
    ensures var (a, b) := SideAmounts(p, tokenIn, amountIn, amountOther);
            a * p.totalShares > U128_MAX ==> r == Failure(ArithmeticOverflow)
  {
    var (a, b) := SideAmounts(p, tokenIn, amountIn, amountOther);
    var scaledA :- CheckedMul(a, p.totalShares);
    if p.reserveA == 0 then Failure(DivisionByZero)
    else
      var scaledB :- CheckedMul(b, p.totalShares);
      if p.reserveB == 0 then Failure(DivisionByZero)
      else Success(Min(scaledA / p.reserveA, scaledB / p.reserveB))
  }

  /** When both products fit in u128 the compiled formula and the unbounded
      one agree, so the overflow is the only difference. */
  lemma AsWrittenAgreesWhenProductsFit(p: Pool, tokenIn: AccountId, amountIn: nat, amountOther: nat)
    requires var (a, b) := SideAmounts(p, tokenIn, amountIn, amountOther);
             a * p.totalShares <= U128_MAX && b * p.totalShares <= U128_MAX
    ensures MintedSharesAsWritten(p, tokenIn, amountIn, amountOther) == MintedShares(p, tokenIn, amountIn, amountOther)
  {
  }

  /** Adding one whole 24-decimal token to each side of a freshly created
      pool holding one of each: the compiled formula overflows, while the
      intended proportional mint is exactly the initial supply. */
  lemma OneWholeTokenOverflows()
    ensures var p := NewPool("alice.near", "wrap.near", 1_000_000_000_000_000_000_000_000,
                             "usdt.near", 1_000_000_000_000_000_000_000_000);
            && MintedSharesAsWritten(p, "wrap.near", 1_000_000_000_000_000_000_000_000,
                                     1_000_000_000_000_000_000_000_000) == Failure(ArithmeticOverflow)
            && MintedShares(p, "wrap.near", 1_000_000_000_000_000_000_000_000,
                            1_000_000_000_000_000_000_000_000) == Success(INIT_SHARES_SUPPLY)
  {
  }
}
