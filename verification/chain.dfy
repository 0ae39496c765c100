/** The contract as the host runs it: a sequence of receipts, each executed
    to completion or reverted.  Between a swap's suspension and its
    continuation any number of other receipts may run against the same pools
    and ledger.  This module states what holds across every such sequence:
    the registry stays valid, deposits never shrink, a yield is resumed at
    most once, and the continuation sees the request captured at suspension.
 */
module Chain {
  import opened Accounts
  import opened Results
  import opened Ledger
  import Amm
  import opened Yields
  import opened Agent
  import opened Dispatch

  /** One receipt.  Transfers, resumes and callbacks arrive as separate receipts. */
  datatype Call =
    | CreatePoolCall(caller: AccountId, tokenA: AccountId, amountA: nat, tokenB: AccountId, amountB: nat)
    | AddLiquidityCall(caller: AccountId, tokenA: AccountId, tokenB: AccountId, amountA: nat, amountB: nat)
    | FtOnTransferCall(token: AccountId, sender: AccountId, amount: nat, msg: Option<seq<Action>>)
    | AgentResponseCall(caller: AccountId, dataId: DataId, amountOut: nat)
    | YieldTimeout(dataId: DataId)    // the host gives up on a yield and resumes it with an error
    | CallbackReceipt(dataId: DataId) // the host runs the continuation of a resumed yield

  /** The world after one receipt.  A panicking receipt leaves the world as it
      was, except that a callback receipt is consumed whether or not it panics.
      Only a callback pays out, at most once per receipt; only a token transfer
      suspends swaps; only the agent's answer or a timeout resumes one. */
  function Step(w: World, call: Call): (w': World)
    ensures call.CreatePoolCall? || call.AddLiquidityCall? ==>
              && w'.promises == w.promises && w'.events == w.events && w'.transfers == w.transfers
              && w'.contract.deposits == w.contract.deposits
    ensures call.FtOnTransferCall? ==>
              w'.promises.resumed == w.promises.resumed && w'.transfers == w.transfers
    ensures call.AgentResponseCall? || call.YieldTimeout? ==>
              && w'.contract == w.contract && w'.events == w.events && w'.transfers == w.transfers
              && w'.promises.nextDataId == w.promises.nextDataId
    ensures call.CallbackReceipt? ==>
              && w'.events == w.events
              && w'.promises.suspended == w.promises.suspended
              && w'.promises.resumed == w.promises.resumed - {call.dataId}
              && w'.contract.deposits == w.contract.deposits
              && |w.transfers| <= |w'.transfers| <= |w.transfers| + 1 && w'.transfers[..|w.transfers|] == w.transfers
  {
    match call
    case CreatePoolCall(caller, tokenA, amountA, tokenB, amountB) =>
      (match Amm.CreatePool(w.contract, caller, tokenA, amountA, tokenB, amountB)
       case Success(c) => w.(contract := c)
       case Failure(_) => w)
    case AddLiquidityCall(caller, tokenA, tokenB, amountA, amountB) =>
      (match Amm.AddLiquidityFromDeposits(w.contract, caller, tokenA, tokenB, amountA, amountB)
       case Success((c, _)) => w.(contract := c)
       case Failure(_) => w)
    case FtOnTransferCall(token, sender, amount, msg) =>
      (match InternalProcessTokenTransfer(w, sender, token, amount, msg)
       case Success(w') => ApplyActionsSuspends(w, sender, token, amount, msg.value); w'
       case Failure(_) => w)
    case AgentResponseCall(caller, dataId, amountOut) =>
      (match AgentResponse(w, caller, dataId, amountOut)
       case Success(w') => w'
       case Failure(_) => w)
    case YieldTimeout(dataId) =>
      (match YieldResume(w.promises, dataId, PromiseErr)
       case Success(t) => w.(promises := t)
       case Failure(_) => w)
    case CallbackReceipt(dataId) =>
      (match TakeResumed(w.promises, dataId)
       case Failure(_) => w
       case Success((t, request, response)) =>
         var consumed := w.(promises := t);
         match OnAgentMarketMakerResponse(consumed, request, response)
         case Success((w', _)) => w'
         case Failure(_) => consumed)
  }

  /** The world after running `calls` in order. */
  function Run(w: World, calls: seq<Call>): World
    decreases |calls|
  {
    if |calls| == 0 then w else Run(Step(w, calls[0]), calls[1..])
  }

  /** Every receipt keeps the registry and the yield table valid. */
  lemma StepPreservesValid(w: World, call: Call)
    requires Agent.Valid(w)
    ensures Agent.Valid(Step(w, call))
  {
    match call {
      case CreatePoolCall(caller, tokenA, amountA, tokenB, amountB) =>
        if Amm.CreatePool(w.contract, caller, tokenA, amountA, tokenB, amountB).Success? {
          Amm.CreatePoolPreservesValid(w.contract, caller, tokenA, amountA, tokenB, amountB);
        }
      case AddLiquidityCall(caller, tokenA, tokenB, amountA, amountB) =>
        if Amm.AddLiquidityFromDeposits(w.contract, caller, tokenA, tokenB, amountA, amountB).Success? {
          Amm.InternalAddLiquidityPreservesValid(w.contract, tokenA, tokenB, amountA, amountB, caller);
        }
      case FtOnTransferCall(token, sender, amount, msg) =>
        if msg.Some? && ApplyActions(w, sender, token, amount, msg.value).Success? {
          ApplyActionsPreservesValid(w, sender, token, amount, msg.value);
        }
      case AgentResponseCall(_, _, _) =>
      case YieldTimeout(_) =>
      case CallbackReceipt(_) =>
    }
  }

  lemma {:induction false} RunPreservesValid(w: World, calls: seq<Call>)
    requires Agent.Valid(w)
    ensures Agent.Valid(Run(w, calls))
    decreases |calls|
  {
    if |calls| != 0 {
      StepPreservesValid(w, calls[0]);
      RunPreservesValid(Step(w, calls[0]), calls[1..]);
    }
  }

  /** No receipt lowers any deposit balance: swaps and liquidity read the
      ledger without debiting it, and a rejected swap leaves its input credited. */
  lemma StepNeverDecreasesDeposits(w: World, call: Call)
    ensures NoneDecreased(w.contract.deposits, Step(w, call).contract.deposits)
  {
    match call {
      case FtOnTransferCall(token, sender, amount, msg) =>
        if msg.Some? && ApplyActions(w, sender, token, amount, msg.value).Success? {
          ApplyActionsCredits(w, sender, token, amount, msg.value);
          var w' := ApplyActions(w, sender, token, amount, msg.value).value;
          CreditedNoneDecreased(w, w', sender, token, CreditTotal(msg.value, amount));
        }
      case CallbackReceipt(dataId) =>
        if TakeResumed(w.promises, dataId).Success? {
          var (t, request, response) := TakeResumed(w.promises, dataId).value;
          if OnAgentMarketMakerResponse(w.(promises := t), request, response).Success? {
            SettlementLeavesDeposits(w.(promises := t), request, response);
          }
        }
      case _ =>
    }
  }

  lemma {:induction false} RunNeverDecreasesDeposits(w: World, calls: seq<Call>)
    ensures NoneDecreased(w.contract.deposits, Run(w, calls).contract.deposits)
    decreases |calls|
  {
    if |calls| != 0 {
      var w1 := Step(w, calls[0]);
      StepNeverDecreasesDeposits(w, calls[0]);
      RunNeverDecreasesDeposits(w1, calls[1..]);
    }
  }

  /** `id` was issued and is no longer suspended: nothing can resume it. */
  ghost predicate Unresumable(t: YieldTable<Amm.SwapRequest>, id: DataId) {
    id < t.nextDataId && id !in t.suspended
  }

  lemma StepKeepsUnresumable(w: World, call: Call, id: DataId)
    requires Unresumable(w.promises, id)
    ensures Unresumable(Step(w, call).promises, id)
    ensures Step(w, call).contract.agentAccountId == w.contract.agentAccountId
  {
    match call {
      case FtOnTransferCall(token, sender, amount, msg) =>
        if msg.Some? && ApplyActions(w, sender, token, amount, msg.value).Success? {
          ApplyActionsSuspends(w, sender, token, amount, msg.value);
          ApplyActionsKeepAgent(w, sender, token, amount, msg.value);
        }
      case _ =>
    }
  }

  /** The dispatcher never changes the configured agent. */
  lemma {:induction false} ApplyActionsKeepAgent(w: World, sender: AccountId, tokenIn: AccountId, amountIn: nat,
                                                 actions: seq<Action>)
    requires ApplyActions(w, sender, tokenIn, amountIn, actions).Success?
    ensures ApplyActions(w, sender, tokenIn, amountIn, actions).value.contract.agentAccountId == w.contract.agentAccountId
    decreases |actions|
  {
    if |actions| != 0 {
      var w1 := ApplyAction(w, sender, tokenIn, amountIn, actions[0]).value;
      ApplyActionsKeepAgent(w1, sender, tokenIn, amountIn, actions[1..]);
    }
  }

  lemma {:induction false} RunKeepsUnresumable(w: World, calls: seq<Call>, id: DataId)
    requires Unresumable(w.promises, id)
    ensures Unresumable(Run(w, calls).promises, id)
    ensures Run(w, calls).contract.agentAccountId == w.contract.agentAccountId
    decreases |calls|
  {
    if |calls| != 0 {
      StepKeepsUnresumable(w, calls[0], id);
      RunKeepsUnresumable(Step(w, calls[0]), calls[1..], id);
    }
  }

  /** Exactly-once resume: once the agent has resumed `id`, every later
      `agent_response` for `id`, after any receipts whatever, fails without
      effect, with `Unauthorized` for a non-agent caller and
      `UnknownOrClosedYieldPoint` for the agent. */
  lemma ResumedYieldNeverResumesAgain(w: World, caller: AccountId, id: DataId, amountOut: nat,
                                      calls: seq<Call>, caller2: AccountId, amountOut2: nat)
    requires Yields.Valid(w.promises)
    requires AgentResponse(w, caller, id, amountOut).Success?
    ensures var later := Run(AgentResponse(w, caller, id, amountOut).value, calls);
            && AgentResponse(later, caller2, id, amountOut2).Failure?
            && AgentResponse(later, caller2, id, amountOut2).error
               == (if caller2 == w.contract.agentAccountId then UnknownOrClosedYieldPoint else Unauthorized)
            && Step(later, AgentResponseCall(caller2, id, amountOut2)) == later
  {
    RunKeepsUnresumable(AgentResponse(w, caller, id, amountOut).value, calls, id);
  }

  /** `id` was issued carrying `request`, and wherever it still is, it still carries it. */
  ghost predicate Carries(t: YieldTable<Amm.SwapRequest>, id: DataId, request: Amm.SwapRequest) {
    && id < t.nextDataId
    && (id in t.suspended ==> t.suspended[id] == request)
    && (id in t.resumed ==> t.resumed[id].0 == request)
  }

  lemma StepKeepsCarries(w: World, call: Call, id: DataId, request: Amm.SwapRequest)
    requires Carries(w.promises, id, request)
    ensures Carries(Step(w, call).promises, id, request)
  {
    match call {
      case FtOnTransferCall(token, sender, amount, msg) =>
        if msg.Some? && ApplyActions(w, sender, token, amount, msg.value).Success? {
          ApplyActionsSuspends(w, sender, token, amount, msg.value);
        }
      case _ =>
    }
  }

  /** The continuation runs with the request captured when the swap suspended,
      not with anything read after: whatever receipts intervene, the resumed
      entry for `id` still holds the suspended sender, tokens, `amount_in` and floor. */
  lemma {:induction false} ContinuationSeesSuspendedRequest(w: World, calls: seq<Call>, id: DataId, request: Amm.SwapRequest)
    requires Carries(w.promises, id, request)
    ensures Carries(Run(w, calls).promises, id, request)
    decreases |calls|
  {
    if |calls| != 0 {
      StepKeepsCarries(w, calls[0], id, request);
      ContinuationSeesSuspendedRequest(Step(w, calls[0]), calls[1..], id, request);
    }
  }

  /** A swap suspended by `run_agent_market_maker` carries its own request. */
  lemma SuspensionCarriesRequest(w: World, senderId: AccountId, tokenIn: AccountId, tokenOut: AccountId,
                                 amountIn: nat, minAmountOut: nat)
    requires Yields.Valid(w.promises)
    ensures var w' := RunAgentMarketMaker(w, senderId, tokenIn, tokenOut, amountIn, minAmountOut);
            var e := w'.events[|w.events|];
            Carries(w'.promises, e.dataId, Amm.SwapRequest(senderId, tokenIn, tokenOut, amountIn, minAmountOut))
  {
  }

  /** A continuation whose amount is below the floor aborts: the callback is
      consumed, and the pools, the ledger and the transfers are untouched. */
  lemma SlippageViolationChangesNothing(w: World, id: DataId)
    requires id in w.promises.resumed
    requires w.promises.resumed[id].1.PromiseOk?
    requires w.promises.resumed[id].1.amountOut < w.promises.resumed[id].0.minAmountOut
    ensures Step(w, CallbackReceipt(id)).contract == w.contract
    ensures Step(w, CallbackReceipt(id)).transfers == w.transfers
    ensures Step(w, CallbackReceipt(id)).promises.resumed == w.promises.resumed - {id}
  {
  }

  /** A callback is consumed by running: a second callback receipt for the same
      id is a no-op. */
  lemma CallbackRunsAtMostOnce(w: World, id: DataId)
    requires Yields.Valid(w.promises)
    ensures Step(Step(w, CallbackReceipt(id)), CallbackReceipt(id)) == Step(w, CallbackReceipt(id))
  {
    if TakeResumed(w.promises, id).Success? {
      var (t, request, response) := TakeResumed(w.promises, id).value;
      var consumed := w.(promises := t);
      assert id !in t.resumed;
    }
  }

  /** A closed yield stays closed: no receipt suspends or resumes its id again. */
  lemma StepKeepsClosed(w: World, call: Call, id: DataId)
    requires Closed(w.promises, id)
    ensures Closed(Step(w, call).promises, id)
  {
    match call {
      case FtOnTransferCall(token, sender, amount, msg) =>
        if msg.Some? && ApplyActions(w, sender, token, amount, msg.value).Success? {
          ApplyActionsSuspends(w, sender, token, amount, msg.value);
        }
      case _ =>
    }
  }

  lemma {:induction false} RunKeepsClosed(w: World, calls: seq<Call>, id: DataId)
    requires Closed(w.promises, id)
    ensures Closed(Run(w, calls).promises, id)
    decreases |calls|
  {
    if |calls| != 0 {
      StepKeepsClosed(w, calls[0], id);
      RunKeepsClosed(Step(w, calls[0]), calls[1..], id);
    }
  }

  /** Once the callback of `id` has run, a later callback receipt for `id`,
      after any receipts whatever, is a no-op. */
  lemma CallbackNeverRunsAgain(w: World, id: DataId, calls: seq<Call>)
    requires Yields.Valid(w.promises)
    requires id in w.promises.resumed
    ensures var later := Run(Step(w, CallbackReceipt(id)), calls);
            Step(later, CallbackReceipt(id)) == later
  {
    var (t, request, response) := TakeResumed(w.promises, id).value;
    assert Closed(Step(w, CallbackReceipt(id)).promises, id);
    RunKeepsClosed(Step(w, CallbackReceipt(id)), calls, id);
  }
}
