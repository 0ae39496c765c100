# AI-AMM accounting core and agent swap protocol, in Dafny

This project models the on-chain part of a NEAR automated market maker.
In that market maker an off-chain agent, not a pricing formula, decides each swap's output.

- **Deposit ledger.** Users send fungible tokens to the contract with `ft_transfer_call`. The contract credits them to a per-account, per-token ledger.
- **Pool registry.** Pools are stored under an order-independent key built from their two token ids. Each pool holds:
  - two reserves;
  - a `total_shares` counter;
  - a per-provider share map.
- **Action messages.** The message attached to a transfer is a list of actions: `Deposit`, `Swap` and `AddLiquidity`. They are applied in order.
- **Agent swap.** A `Swap` action does not price the swap. It suspends the swap as a *yield*, the host's suspend/resume primitive, and emits an event for the agent.
  - The configured agent account answers with `agent_response(data_id, amount_out)`. That call resumes the yield.
  - The continuation `on_agent_market_maker_response` then runs as its own receipt. It enforces the user's slippage floor, moves the reserves, and pays the output with an `ft_transfer`.

The model is a deterministic state machine over immutable values. Every entry point is a function that returns either the new state or the reason the call aborts. This mirrors NEAR receipts: a receipt that panics is reverted in full, so an aborted call changes nothing.

Modules:

- `Accounts`: account ids as strings without `:`, Rust's lexicographic `String` order, and the pool key `lo:hi`. The key is proved symmetric and injective.
- `Results`: the abort reasons. Each panic of the modelled operations becomes a `Failure`. The balance asserts share `InsufficientDeposit(token)`, naming the short token.
- `Shares`: the sum of a share map, with the lemmas that keep `total_shares` equal to it.
- `Ledger`: the deposit map: `get_deposits`, `internal_deposit` and `get_user_deposits`.
- `Pools`: one pool: creation, the reserve update of a swap, and the share mint of added liquidity.
- `Amm`: the contract state and the operations of `src/lib.rs` on it. `Valid` is the registry invariant: every pool sits under its own key, and `total_shares` equals the sum of the share map.
- `Yields`: the host's yield table. It maps each data id to its suspended payload, or to the payload and response waiting for the callback.
- `Agent`: the three functions of `src/agent.rs`, over a `World` made of:
  - the contract;
  - the yield table;
  - the emitted `run_agent` events;
  - the emitted `ft_transfer` calls.
- `Dispatch`: `internal_process_token_transfer` and its action list.
- `Chain`: a sequence of receipts, including agent answers, host timeouts and callbacks. It proves that across any interleaving:
  - validity is kept;
  - deposits never shrink;
  - a yield is resumed at most once;
  - a consumed callback never runs again, whatever receipts follow (`Chain.CallbackNeverRunsAgain`);
  - the continuation sees the request captured at suspension.
- `Scenarios`: the repository's unit tests and a few agent swaps, as concrete lemmas.
- `MintOverflow`: the u128 share mint as compiled, for the finding below.

Behaviours of the code worth knowing:

- **Deposits are never debited.** `create_pool`, `add_liquidity_from_deposits`, the `AddLiquidity` action and swaps only *read* the ledger. Nothing in the contract lowers a balance (`Chain.RunNeverDecreasesDeposits`).
- **Every `Deposit` and `Swap` action credits `amount_in` again.** One transfer carrying several such actions credits `amount_in` once per action (`Dispatch.ApplyActionsCredits`, `Dispatch.CreditTotalIsMultiple`, `Scenarios.RepeatedDepositScenario`).
- **`AddLiquidity` does not credit `amount_in`, yet adds it to the pool.**
- **`internal_swap` applies no pricing formula.** It moves exactly the amounts it is given. The test comment about a constant product does not describe the code.

## Model

| member | source | states |
|---|---|---|
| Accounts.GetPoolKey | src/lib.rs:387-391 | The key has one character more than the two ids, the `:` separator. |
| Accounts.PoolKeySymmetric | src/lib.rs:387-391 | The pair key does not depend on argument order. |
| Accounts.LexLeTotal | src/lib.rs:389 | The string order used to sort the pair is total. |
| Accounts.LexLeAntisymmetric | src/lib.rs:389 | Two ids sorted both ways are equal, so sorting picks a unique order. |
| Accounts.FirstColonOfJoin | src/lib.rs:390 | In `x:y`, where `x` has no `:`, the first `:` is the separator. |
| Accounts.JoinInjective | src/lib.rs:390 | `x:y` determines `x` and `y`. |
| Accounts.PoolKeyInjective | src/lib.rs:387-391 | Equal keys name the same unordered pair, so distinct pairs never share a pool. |
| Shares.SumRemove | src/lib.rs:92 | The sum of a share map is one entry plus the sum of the rest. |
| Shares.SumUpdate | src/lib.rs:357-358 | Overwriting one provider's shares changes the sum by exactly the difference. |
| Shares.SumSingleton | src/lib.rs:152-155 | A one-entry share map sums to its entry. |
| Ledger.GetDeposits | src/lib.rs:205-215 | An account without an entry has an empty token map. |
| Ledger.InternalDeposit | src/lib.rs:217-222 | The (account, token) balance grows by `amount`, a missing entry counting as 0. Every other balance is unchanged and the account now has an entry. |
| Ledger.GetUserDeposits | src/lib.rs:195-203 | Listing fails exactly for an account with no entry. Otherwise it lists exactly the account's tokens, each with its balance. |
| Ledger.DepositNeverDecreases | src/lib.rs:217-222 | A credit lowers no balance. |
| Pools.NewPool | src/lib.rs:152-164 | A new pool has the given tokens and reserves in argument order, and `INIT_SHARES_SUPPLY` shares, all held by the creator, so its shares are balanced. |
| Pools.Swap | src/lib.rs:310-325 | Fails exactly when `amount_out` exceeds the out-side reserve (u128 underflow). Otherwise the `token_in` side gains `amount_in` and the other side loses `amount_out`; tokens and shares are unchanged. |
| Pools.MintedShares | src/lib.rs:342-351 | Fails exactly on a zero reserve. Otherwise the count minted is the largest backed on both sides, i.e. `min(a*T/ra, b*T/rb)` with floor division and `a`/`b` oriented by `token_in`. |
| Pools.AddLiquidity | src/lib.rs:342-358 | Both reserves grow by the full amounts. `total_shares` and the provider's shares grow by the minted count; all other providers are unchanged. |
| Pools.AddLiquidityKeepsSharesBalanced | src/lib.rs:353-358 | `total_shares` equal to the sum of the share map is preserved by adding liquidity. |
| Amm.New | src/lib.rs:114-122 | A new contract is valid, holds no pool and no balance, and records the agent account. |
| Amm.GetPoolInfo | src/lib.rs:169-182 | Reports the reserves and `total_shares` of the pair's pool. It is absent exactly when no pool exists. |
| Amm.GetPoolInfoSymmetric | src/lib.rs:169-182 | Pool info is the same for (a, b) and (b, a). |
| Amm.FindPoolSymmetric | src/lib.rs:387-391 | Pool lookup does not depend on argument order. |
| Amm.FoundPoolHoldsPair | src/lib.rs:149-166 | In a valid state, the pool found for (x, y) holds exactly the tokens x and y. |
| Amm.GetShares | src/lib.rs:184-193 | Fails with `PoolNotFound` exactly when there is no pool. Otherwise it returns the account's shares, 0 when absent. |
| Amm.GetSwapBalances | src/lib.rs:288-298 | Fails exactly on a missing pool. Otherwise it returns (reserve of `token_in`, the other reserve). |
| Amm.GetSwapBalancesSwapped | src/lib.rs:288-298 | For distinct tokens in a valid state, swapping the arguments swaps the pair. |
| Amm.InternalDeposit | src/lib.rs:217-222 | Credits exactly one ledger entry and leaves the pools alone. |
| Amm.CreatePool | src/lib.rs:129-167 | Aborts exactly when the token A deposit is short, the token B deposit is short, or the pair already has a pool, reporting these in that order. On success it adds one pool with the given reserves in argument order and `INIT_SHARES_SUPPLY` shares held by the creator. Other pools and the ledger are unchanged. |
| Amm.CreatePoolPreservesValid | src/lib.rs:149-166 | Pool creation keeps the registry invariant. |
| Amm.InternalSwap | src/lib.rs:300-329 | Fails on a missing pool or a reserve underflow. Otherwise it returns `amount_out` and applies `Pools.Swap` to that pool only; ledger and other pools are unchanged. |
| Amm.InternalSwapPreservesValid | src/lib.rs:300-329 | A committed swap keeps the registry invariant. |
| Amm.InternalAddLiquidity | src/lib.rs:331-361 | Fails on a missing pool or a zero reserve. Otherwise it replaces only that pool by the `Pools.AddLiquidity` result; the ledger is unchanged. |
| Amm.InternalAddLiquidityPreservesValid | src/lib.rs:331-361 | Adding liquidity keeps the registry invariant, including the share-sum equation. |
| Amm.AddLiquidityFromDeposits | src/lib.rs:363-384 | Aborts on a short token A or B balance, checked in that order, or on an add-liquidity failure. On success it returns the sender's resulting share count. |
| Amm.InternalDepositPreservesValid | src/lib.rs:217-222 | Crediting the ledger keeps the registry invariant. |
| Yields.YieldCreate | src/agent.rs:21-34 | A new yield is suspended under a data id never issued before. It carries the payload, the rest of the table is unchanged, and validity is kept. |
| Yields.YieldResume | src/agent.rs:53-55 | Resume fails exactly when the id is not suspended. Otherwise it moves the entry, with the response, to the callback queue. |
| Yields.TakeResumed | src/agent.rs:60-68 | Running a callback hands over the resumed payload and response. It removes the entry, after which the id is closed. |
| Agent.RunAgentMarketMaker | src/agent.rs:5-41 | Exactly one new yield, under a fresh id, carrying (sender, token_in, token_out, amount_in, min_amount_out), and one event naming that id. No pool, ledger entry or transfer changes. |
| Agent.AgentResponse | src/agent.rs:47-56 | A caller other than the agent account fails with `Unauthorized`. A data id that is not suspended fails with `UnknownOrClosedYieldPoint`. Otherwise only the yield moves to resumed, with the agent's amount. |
| Agent.ResumeAtMostOnce | src/agent.rs:53-55 | A second resume of the same data id fails, whoever calls. |
| Agent.OnAgentMarketMakerResponse | src/agent.rs:60-97 | On `Err`: returns `None`, changing nothing. On an amount below the floor: aborts with `SlippageViolation`. Otherwise: applies `internal_swap` with the captured `amount_in`, emits exactly one transfer of `amount_out` of `token_out` to the sender, and returns the amount. |
| Agent.SettlementLeavesDeposits | src/agent.rs:79-96 | The continuation never touches the ledger, so the credited input stays when the swap is rejected. |
| Dispatch.ApplyAction | src/lib.rs:239-279 | Only `AddLiquidity` can fail, and it fails when the `token_other` balance is short. A successful action credits `amount_in` to (sender, token_in) for `Deposit` and `Swap` and nothing for `AddLiquidity`; every other balance is unchanged. |
| Dispatch.DepositActionOnlyCredits | src/lib.rs:256-259 | `Deposit` always succeeds and changes no pool, yield, event or transfer. |
| Dispatch.SwapActionCreditsThenSuspends | src/lib.rs:240-255 | `Swap` always succeeds. It credits `amount_in` to (sender, token_in), leaves pools and payouts alone, and appends exactly one event. That event's id is fresh and now suspended with the request (sender, token_in, token_out, amount_in, min_amount_out); every other yield is untouched. |
| Dispatch.AddLiquidityActionAdds | src/lib.rs:260-279 | `AddLiquidity` succeeds exactly when the sender holds `amount_other` of `token_other` and the pool exists with both reserves non-zero. On success the pool's reserves grow by `amount_in` and `amount_other`; deposits, yields, events and payouts are unchanged. |
| Dispatch.InternalProcessTokenTransfer | src/lib.rs:224-286 | An unparsable message aborts. A parsed one runs its actions in order, stopping at the first failure. |
| Dispatch.ApplyActions | src/lib.rs:238-281 | Only an `AddLiquidity` action can make a message fail, with a short deposit, a missing pool or an empty reserve; a message without one always succeeds. No action pays anything out. |
| Dispatch.ApplyActionsInOrder | src/lib.rs:238-281 | Running `xs + ys` equals running `xs` and then `ys` on its result. |
| Dispatch.ApplyActionsCredits | src/lib.rs:238-281 | A successful message credits (sender, token_in) by `amount_in` per `Deposit`/`Swap` action and changes no other balance. |
| Dispatch.CreditTotalIsMultiple | src/lib.rs:245-257 | The total credited equals `amount_in` times the number of crediting actions. |
| Dispatch.ApplyActionsSuspends | src/lib.rs:240-255 | A successful message issues one fresh data id and emits one event per `Swap` action. Every new id is suspended. Each new event names a new id whose suspended request has the transfer's sender, token and amount. The k-th new event carries the request of the k-th `Swap` action, with that action's `token_out` and `min_amount_out`. Earlier yields keep their payloads, no callback is queued, and nothing is paid out. |
| Dispatch.ApplyActionsPreservesValid | src/lib.rs:238-281 | A successful message keeps the registry and the yield table valid. |
| Dispatch.CreditedNoneDecreased | src/lib.rs:217-222 | A single-entry credit lowers no balance. |
| Chain.StepPreservesValid | src/lib.rs:129-384 | Any receipt keeps the registry and the yield table valid. |
| Chain.RunPreservesValid | src/lib.rs:129-384 | Any sequence of receipts keeps the registry and the yield table valid. |
| Chain.StepNeverDecreasesDeposits | src/lib.rs:217-222 | No receipt lowers any deposit balance. |
| Chain.RunNeverDecreasesDeposits | src/lib.rs:217-222 | No sequence of receipts lowers any deposit balance. |
| Chain.StepKeepsUnresumable | src/agent.rs:53-55 | A yield that has left the suspended set never returns to it, and the agent account never changes. |
| Chain.RunKeepsUnresumable | src/agent.rs:53-55 | The same holds across any sequence of receipts. |
| Chain.ApplyActionsKeepAgent | src/lib.rs:238-281 | The dispatcher never changes the agent account. |
| Chain.ResumedYieldNeverResumesAgain | src/agent.rs:47-56 | After a successful resume and any further receipts, another `agent_response` for the same id fails and changes nothing. The error is `UnknownOrClosedYieldPoint` for the agent and `Unauthorized` for anyone else. |
| Chain.StepKeepsCarries | src/agent.rs:13-28 | Receipts never change the request stored for an issued id. |
| Chain.ContinuationSeesSuspendedRequest | src/agent.rs:60-80 | Whatever receipts intervene, the callback for an id receives the sender, tokens, `amount_in` and floor recorded at suspension. |
| Chain.SuspensionCarriesRequest | src/agent.rs:13-28 | A just-suspended swap's id carries its own request. |
| Chain.SlippageViolationChangesNothing | src/agent.rs:69-77 | A callback below the floor leaves pools, ledger and transfers untouched, and its entry is consumed. |
| Chain.Step | src/agent.rs:47-97 | Pool receipts touch no yield, event or payout and lower no deposit. A transfer suspends swaps but resumes none and pays nothing. An agent answer or a timeout changes only the yield table and issues no id. A callback removes its id from the resumed set, emits no event, keeps the ledger and appends at most one payout. |
| Chain.CallbackRunsAtMostOnce | src/agent.rs:60-97 | The callback receipt immediately following a consumed callback for the same id is a no-op. |
| Chain.StepKeepsClosed | src/agent.rs:47-97 | An issued id that is neither suspended nor resumed stays so after any receipt: a finished yield cannot come back. |
| Chain.RunKeepsClosed | src/agent.rs:47-97 | The same holds across any sequence of receipts. |
| Chain.CallbackNeverRunsAgain | src/agent.rs:60-97 | Once the callback for a resumed id has run, a later callback receipt for that id changes nothing, whatever receipts came in between. |
| Scenarios.CreatePoolScenario | src/lib.rs:455-509 | With the fixture deposits, pool (token_in, token_out) reports (1_000_000, 1_000_000, `INIT_SHARES_SUPPLY`) in both orders, and bob.near holds all shares. |
| Scenarios.CreatePoolSmallDepositScenario | src/lib.rs:472-477 | Asking for 2_000_000 of token A with 1_000_000 deposited aborts with the token A error. |
| Scenarios.InternalDepositScenario | src/lib.rs:512-520 | A second 1_000_000 credit yields 2_000_000. |
| Scenarios.InternalSwapScenario | src/lib.rs:523-544 | Swapping 500 in and 500 out of the 1:1 pool returns 500 and leaves reserves 1_000_500 and 999_500. |
| Scenarios.MintScenario | src/lib.rs:348-351 | Adding half of each reserve mints half of the initial supply. |
| Scenarios.PoolAddScenario | src/lib.rs:353-358 | After that mint the reserves are 1_500_000 each and bob.near holds all 1.5 * 10^15 shares. |
| Scenarios.SlippageScenario | src/agent.rs:69-77 | An answer of 399 against a floor of 400 aborts the continuation. |
| Scenarios.UnauthorizedScenario | src/agent.rs:50 | bob.near cannot resume the swap. |
| Scenarios.SettlementScenario | src/agent.rs:79-92 | An answer of 450 moves the reserves to (1_000_500, 999_550) and pays bob.near 450 of token_out once. |
| Scenarios.RepeatedDepositScenario | src/lib.rs:256-257 | Two `Deposit` actions on one transfer of 100 credit 200. |
| MintOverflow.CheckedMul | src/lib.rs:349 | A u128 product succeeds exactly when it fits. |
| MintOverflow.MintedSharesAsWritten | src/lib.rs:348-351 | The compiled formula agrees with `Pools.MintedShares` whenever it succeeds. It overflows whenever `a * total_shares` exceeds u128. |
| MintOverflow.AsWrittenAgreesWhenProductsFit | src/lib.rs:348-351 | When both products fit, the compiled and unbounded formulas agree. |
| MintOverflow.OneWholeTokenOverflows | src/lib.rs:348-351 | Adding 10^24 units to a 10^24/10^24 pool overflows as compiled, where the intended mint is `INIT_SHARES_SUPPLY`. |

## Left out

- `agent/agent.py`, the off-chain agent: its network calls and floating-point price are outside the contract. The agent's `amount_out` is an arbitrary natural number.
- JSON parsing of the transfer message (src/lib.rs:231-232): the message is modelled as an already-parsed action list, and `None` stands for text that does not parse.
- `ft_on_transfer` returning `U128(0)` (src/lib.rs:395-406) and `promise_return` (src/agent.rs:40): no tokens are ever refunded, so the return value carries nothing. The token id is passed in as a parameter.
- Storage prefixes, gas constants, attached deposits and the register read of the data id are not modelled.
- Data ids: the host's 32-byte data ids are modelled as a counter that never repeats an id.
- The events module is not part of this model. The `run_agent` event is recorded as the request and its data id.
- `set_agent` and the `agent` string (src/lib.rs:124-127) only name the agent for the event; the access check uses `agent_account_id`.
- `ft_transfer` is recorded as an outgoing call. Its outcome, including a failed transfer, is not observed by the contract and not modelled.
- Yield timeouts: the host's timeout is a receipt that resumes a suspended yield with an error, at any point.
- Overflow of u128 additions is not modelled: balances and reserves are unbounded naturals. This covers the deposit credit (src/lib.rs:220), the swap's in-side (src/lib.rs:316) and the reserve and share additions (src/lib.rs:353-358).
- Overflow of the share mint's multiplication is modelled only in `MintOverflow` (see Findings). The rest of the model uses the intended unbounded formula.
- `get_user_deposits` returns the token map rather than a vector: the iteration order of the storage map is not modelled.
- Scenarios.PoolAddScenario: the add-liquidity scenario stops at the pool level (`Pools.AddLiquidity`). The same step through `add_liquidity_from_deposits` is covered by the general contracts of `Amm.AddLiquidityFromDeposits` and `Amm.InternalAddLiquidity`, not by a concrete lemma.

## Findings

| source | as written | input that shows it | evidently intended | confidence | as-written member | corrected member |
|---|---|---|---|---|---|---|
| src/lib.rs:348-351 | `token_a_amount * pool.total_shares / pool.token_a_balance` in u128, multiplying before dividing. With `total_shares` at least 10^15, any amount of about 3.4 * 10^23 base units or more overflows and the call panics. | A pool created with 10^24 of each token (one whole unit of a 24-decimal token), then 10^24 of each added: 10^24 * 10^15 > 2^128. | The proportional mint `min(a*T/ra, b*T/rb)` computed without overflow, here exactly `INIT_SHARES_SUPPLY`. | not executed; assumes overflow checks panic (release builds would wrap instead) | MintOverflow.MintedSharesAsWritten, MintOverflow.OneWholeTokenOverflows | Pools.MintedShares |
