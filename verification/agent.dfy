/** The agent-mediated swap of `src/agent.rs`: suspending a swap and
    announcing it to the agent, the agent's resume call, and the continuation
    that checks the slippage floor, commits the swap and pays out.

    `World` is the contract together with what the host holds for it: the
    yield table, the announcements emitted for the agent, and the outbound
    `ft_transfer` calls, whose own outcome is never observed.
 */
module Agent {
  import opened Accounts
  import opened Results
  import opened Ledger
  import opened Pools
  import opened Amm
  import opened Yields

  /** The `run_agent` event: the request and the data id the agent must answer. */
  datatype AgentEvent = RunAgent(request: SwapRequest, dataId: DataId)

  /** An `ft_transfer` call on `token` paying `receiverId`. */
  datatype Transfer = FtTransfer(token: AccountId, receiverId: AccountId, amount: nat, memo: string)

  datatype World = World(
    contract: Contract,
    promises: YieldTable<SwapRequest>,
    events: seq<AgentEvent>,
    transfers: seq<Transfer>)

  ghost predicate Valid(w: World) {
    Amm.Valid(w.contract) && Yields.Valid(w.promises)
  }

  const SWAP_MEMO: string := "Swap completed"

  /** Suspends a swap (`run_agent_market_maker`): one new yield under a fresh
      data id carrying the request, and one event naming that id.  Nothing in
      the contract changes. */
  function RunAgentMarketMaker(w: World, senderId: AccountId, tokenIn: AccountId, tokenOut: AccountId,
                               amountIn: nat, minAmountOut: nat): (w': World)
    ensures w'.contract == w.contract && w'.transfers == w.transfers
    ensures |w'.events| == |w.events| + 1 && w'.events[..|w.events|] == w.events
    ensures var e := w'.events[|w.events|];
            && e.request == SwapRequest(senderId, tokenIn, tokenOut, amountIn, minAmountOut)
            && w'.promises.suspended == w.promises.suspended[e.dataId := e.request]
            && w'.promises.resumed == w.promises.resumed
            && w.promises.nextDataId <= e.dataId < w'.promises.nextDataId
            && (Yields.Valid(w.promises) ==> e.dataId !in w.promises.suspended && e.dataId !in w.promises.resumed)
    ensures Valid(w) ==> Valid(w')
  {
    var request := SwapRequest(senderId, tokenIn, tokenOut, amountIn, minAmountOut);
    var (promises, dataId) := YieldCreate(w.promises, request);
    w.(promises := promises, events := w.events + [RunAgent(request, dataId)])
  }

  /** The agent's answer for `dataId` (`agent_response`): only the configured
      agent may call it, and only a suspended yield can be resumed. */
  function AgentResponse(w: World, caller: AccountId, dataId: DataId, amountOut: nat): (r: Result<World>)
    ensures r.Failure? <==> caller != w.contract.agentAccountId || dataId !in w.promises.suspended
    ensures r.Failure? ==> r.error == (if caller != w.contract.agentAccountId then Unauthorized
                                       else UnknownOrClosedYieldPoint)
    ensures r.Success? ==>
              && r.value.contract == w.contract
              && r.value.events == w.events && r.value.transfers == w.transfers
              && r.value.promises.suspended == w.promises.suspended - {dataId}
              && r.value.promises.resumed == w.promises.resumed[dataId := (w.promises.suspended[dataId], PromiseOk(amountOut))]
    ensures r.Success? && Valid(w) ==> Valid(r.value)
  {
    if caller != w.contract.agentAccountId then Failure(Unauthorized)
    else
      var promises :- YieldResume(w.promises, dataId, PromiseOk(amountOut));
      Success(w.(promises := promises))
  }

  /** A second resume of the same data id always fails, whoever calls it. */
  lemma ResumeAtMostOnce(w: World, caller: AccountId, dataId: DataId, amountOut: nat, caller2: AccountId, amountOut2: nat)
    requires AgentResponse(w, caller, dataId, amountOut).Success?
    ensures AgentResponse(AgentResponse(w, caller, dataId, amountOut).value, caller2, dataId, amountOut2).Failure?
  {
  }

  /** The continuation of a suspended swap (`on_agent_market_maker_response`).
      On an error it does nothing and returns None.  On an amount it enforces
      the floor captured at suspend time, commits the swap with the captured
      `amount_in`, emits exactly one transfer of the output to the sender, and
      returns the amount. */
  function OnAgentMarketMakerResponse(w: World, request: SwapRequest, response: PromiseResult)
    : (r: Result<(World, Option<nat>)>)
    ensures response.PromiseErr? ==> r == Success((w, None))
    ensures response.PromiseOk? ==>
              (r.Failure? <==>
                 || response.amountOut < request.minAmountOut
                 || InternalSwap(w.contract, request.tokenIn, request.tokenOut, request.amountIn, response.amountOut).Failure?)
    ensures response.PromiseOk? && response.amountOut < request.minAmountOut ==> r == Failure(SlippageViolation)
    ensures response.PromiseOk? && r.Success? ==>
              var (w', returned) := r.value;
              && returned == Some(response.amountOut)
              && InternalSwap(w.contract, request.tokenIn, request.tokenOut, request.amountIn, response.amountOut)
                 == Success((w'.contract, response.amountOut))
              && w'.promises == w.promises && w'.events == w.events
              && w'.transfers == w.transfers + [FtTransfer(request.tokenOut, request.senderId, response.amountOut, SWAP_MEMO)]
    ensures r.Success? && Valid(w) ==> Valid(r.value.0)
  {
    match response
    case PromiseErr => Success((w, None))
    case PromiseOk(amountOut) =>
      if amountOut < request.minAmountOut then Failure(SlippageViolation)
      else
        var (contract, paid) :- InternalSwap(w.contract, request.tokenIn, request.tokenOut, request.amountIn, amountOut);
        InternalSwapPreservesValid(w.contract, request.tokenIn, request.tokenOut, request.amountIn, amountOut);
        var transfer := FtTransfer(request.tokenOut, request.senderId, paid, SWAP_MEMO);
        Success((w.(contract := contract, transfers := w.transfers + [transfer]), Some(paid)))
  }

  /** Settlement never touches the ledger: a rejected swap leaves the sender's
      credited input where it is, and a settled one does not debit it. */
  lemma SettlementLeavesDeposits(w: World, request: SwapRequest, response: PromiseResult)
    requires OnAgentMarketMakerResponse(w, request, response).Success?
    ensures OnAgentMarketMakerResponse(w, request, response).value.0.contract.deposits == w.contract.deposits
  {
  }
}
