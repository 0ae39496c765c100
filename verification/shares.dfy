/** Sums of per-account share balances, used to state that a pool's
    `total_shares` equals the shares held by all its providers.
 */
module Shares {
  import opened Accounts

  /** Missing entries read as zero, as `shares.get(..).unwrap_or(0)` does. */
  function Get(m: map<AccountId, nat>, account: AccountId): nat {
    if account in m then m[account] else 0
  }

  /** The sum of all values of `m`. */
  ghost function Sum(m: map<AccountId, nat>): nat
    decreases |m|
  {
    if m == map[] then 0
    else
      var k :| k in m;
      assert |m - {k}| == |m| - 1 by { assert (m - {k}).Keys == m.Keys - {k}; }
      m[k] + Sum(m - {k})
  }

  /** Any entry can be split off the sum, not only the one `Sum` happens to pick. */
  lemma {:induction false} SumRemove(m: map<AccountId, nat>, k: AccountId)
    requires k in m
    ensures Sum(m) == m[k] + Sum(m - {k})
    decreases |m|
  {
    var j :| j in m && Sum(m) == m[j] + Sum(m - {j});
    if j != k {
      var mj := m - {j};
      var mk := m - {k};
      assert |mj| == |m| - 1 by { assert mj.Keys == m.Keys - {j}; }
      assert |mk| == |m| - 1 by { assert mk.Keys == m.Keys - {k}; }
      SumRemove(mj, k);
      SumRemove(mk, j);
      assert mj - {k} == mk - {j};
    }
  }

  /** Overwriting one entry changes the sum by exactly the difference. */
  lemma SumUpdate(m: map<AccountId, nat>, k: AccountId, v: nat)
    ensures Sum(m[k := v]) + Get(m, k) == Sum(m) + v
  {
    var m' := m[k := v];
    SumRemove(m', k);
    if k in m {
      SumRemove(m, k);
      assert m' - {k} == m - {k};
    } else {
      assert m' - {k} == m;
    }
  }

  /** A map with one entry sums to that entry. */
  lemma SumSingleton(k: AccountId, v: nat)
    ensures Sum(map[k := v]) == v
  {
    SumUpdate(map[], k, v);
  }
}
