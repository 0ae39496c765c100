/** Concrete cases from the repository's unit tests (src/lib.rs, the
    `tests` module) and a few agent swaps, stated as lemmas about the model.
    Fixture: bob.near holds 1_000_000 of token_in.near and of token_out.near;
    the agent is agent.near.
 */
module Scenarios {
  import opened Accounts
  import opened Results
  import opened Ledger
  import opened Pools
  import opened Amm
  import opened Yields
  import opened Agent
  import opened Dispatch

  const BOB: AccountId := "bob.near"
  const TOKEN_IN: AccountId := "token_in.near"
  const TOKEN_OUT: AccountId := "token_out.near"
  const AGENT: AccountId := "agent.near"

  function Fixture(): Contract {
    Contract(AGENT, map[], map[BOB := map[TOKEN_IN := 1_000_000, TOKEN_OUT := 1_000_000]])
  }

  /** The fixture with the 1:1 pool created by bob.near. */
  function WithPool(): (c: Contract)
    ensures CreatePool(Fixture(), BOB, TOKEN_IN, 1_000_000, TOKEN_OUT, 1_000_000) == Success(c)
  {
    CreatePool(Fixture(), BOB, TOKEN_IN, 1_000_000, TOKEN_OUT, 1_000_000).value
  }

  /** test_create_pool, test_get_pool_info and test_get_shares. */
  lemma CreatePoolScenario()
    ensures GetPoolInfo(WithPool(), TOKEN_IN, TOKEN_OUT) == Some((1_000_000, 1_000_000, INIT_SHARES_SUPPLY))
    ensures GetPoolInfo(WithPool(), TOKEN_OUT, TOKEN_IN) == GetPoolInfo(WithPool(), TOKEN_IN, TOKEN_OUT)
    ensures GetShares(WithPool(), TOKEN_IN, TOKEN_OUT, BOB) == Success(INIT_SHARES_SUPPLY)
  {
    GetPoolInfoSymmetric(WithPool(), TOKEN_IN, TOKEN_OUT);
  }

  /** test_create_pool_small_deposit: asking for more token A than deposited aborts. */
  lemma CreatePoolSmallDepositScenario()
    ensures CreatePool(Fixture(), BOB, TOKEN_IN, 2_000_000, TOKEN_OUT, 1_000_000) == Failure(InsufficientDeposit(TOKEN_IN))
  {
  }

  /** test_internal_deposit: a second million brings the balance to two million. */
  lemma InternalDepositScenario()
    ensures BalanceOf(Amm.InternalDeposit(Fixture(), BOB, TOKEN_IN, 1_000_000).deposits, BOB, TOKEN_IN) == 2_000_000
  {
  }

  /** test_internal_swap: 500 in, 500 out on the 1:1 pool. */
  lemma InternalSwapScenario()
    ensures InternalSwap(WithPool(), TOKEN_IN, TOKEN_OUT, 500, 500).Success?
    ensures var (c, amountOut) := InternalSwap(WithPool(), TOKEN_IN, TOKEN_OUT, 500, 500).value;
            amountOut == 500 && GetPoolInfo(c, TOKEN_IN, TOKEN_OUT) == Some((1_000_500, 999_500, INIT_SHARES_SUPPLY))
  {
  }

  /** The pool the fixture creates, as the contract stores it. */
  lemma WithPoolHolds()
    ensures WithPool().pools == map[GetPoolKey(TOKEN_IN, TOKEN_OUT) := Pool0()]
    ensures WithPool().deposits == Fixture().deposits && WithPool().agentAccountId == AGENT
  {
  }

  function Pool0(): Pool {
    NewPool(BOB, TOKEN_IN, 1_000_000, TOKEN_OUT, 1_000_000)
  }

  /** Half of each reserve is worth half of the supply. */
  lemma MintScenario()
    ensures MintedShares(Pool0(), TOKEN_IN, 500_000, 500_000) == Success(500_000_000_000_000)
  {
    assert 500_000 * INIT_SHARES_SUPPLY / 1_000_000 == 500_000_000_000_000;
  }

  function Pool1(): Pool {
    Pool(TOKEN_IN, TOKEN_OUT, 1_500_000, 1_500_000, 1_500_000_000_000_000, map[BOB := 1_500_000_000_000_000])
  }

  /** The pool after bob.near adds 500_000 of each side. */
  lemma PoolAddScenario()
    ensures Pools.AddLiquidity(Pool0(), TOKEN_IN, 500_000, 500_000, BOB) == Success((Pool1(), 500_000_000_000_000))
  {
    var p := Pool0();
    assert p == Pool(TOKEN_IN, TOKEN_OUT, 1_000_000, 1_000_000, INIT_SHARES_SUPPLY, map[BOB := INIT_SHARES_SUPPLY]);
    MintScenario();
    assert SideAmounts(p, TOKEN_IN, 500_000, 500_000) == (500_000, 500_000);
    assert SharesOf(p, BOB) == INIT_SHARES_SUPPLY;
    assert p.shares[BOB := INIT_SHARES_SUPPLY + 500_000_000_000_000] == Pool1().shares;
  }

  function SuspendedWorld(): World {
    RunAgentMarketMaker(World(WithPool(), Yields.Empty(), [], []), BOB, TOKEN_IN, TOKEN_OUT, 500, 400)
  }

  /** An agent answer below the floor aborts the continuation: no reserve
      change and no transfer. */
  lemma SlippageScenario()
    ensures SuspendedWorld().events[0].dataId == 0
    ensures var resumed := AgentResponse(SuspendedWorld(), AGENT, 0, 399);
            && resumed.Success?
            && OnAgentMarketMakerResponse(resumed.value, SuspendedWorld().promises.suspended[0], PromiseOk(399))
               == Failure(SlippageViolation)
  {
  }

  /** A caller other than the agent cannot resume the swap. */
  lemma UnauthorizedScenario()
    ensures AgentResponse(SuspendedWorld(), BOB, 0, 500) == Failure(Unauthorized)
  {
  }

  /** An answer at or above the floor settles: reserves move and bob.near is paid once. */
  lemma SettlementScenario()
    ensures var resumed := AgentResponse(SuspendedWorld(), AGENT, 0, 450);
            && resumed.Success?
            && var r := OnAgentMarketMakerResponse(resumed.value, SuspendedWorld().promises.suspended[0], PromiseOk(450));
               && r.Success? && r.value.1 == Some(450)
               && GetPoolInfo(r.value.0.contract, TOKEN_IN, TOKEN_OUT) == Some((1_000_500, 999_550, INIT_SHARES_SUPPLY))
               && r.value.0.transfers == [FtTransfer(TOKEN_OUT, BOB, 450, SWAP_MEMO)]
  {
    WithPoolHolds();
    var w := SuspendedWorld();
    var request := SwapRequest(BOB, TOKEN_IN, TOKEN_OUT, 500, 400);
    assert w.contract == WithPool() && w.transfers == [];
    assert w.promises.suspended == map[0 := request];
    var resumed := AgentResponse(w, AGENT, 0, 450);
    assert resumed.Success? && resumed.value.contract == WithPool() && resumed.value.transfers == [];
    var swapped := InternalSwap(WithPool(), TOKEN_IN, TOKEN_OUT, 500, 450);
    assert swapped.Success?;
    assert GetPoolInfo(swapped.value.0, TOKEN_IN, TOKEN_OUT) == Some((1_000_500, 999_550, INIT_SHARES_SUPPLY));
  }

  /** Two Deposit actions in one message credit the transferred amount twice. */
  lemma RepeatedDepositScenario()
    ensures var r := InternalProcessTokenTransfer(World(Fixture(), Yields.Empty(), [], []), BOB, TOKEN_IN, 100,
                                                  Some([Deposit, Deposit]));
            r.Success? && Balance(r.value, BOB, TOKEN_IN) == 1_000_200
  {
  }
}
