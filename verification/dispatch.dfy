/** The action list carried by an incoming token transfer
    (`internal_process_token_transfer`).  The actions run in list order
    against the same (sender, token_in, amount_in); the first one that aborts
    aborts the whole transfer call, reverting the actions before it.
 */
module Dispatch {
  import opened Accounts
  import opened Results
  import opened Ledger
  import Amm
  import opened Yields
  import opened Agent

  /** One parsed action of an `Execute` message. */
  datatype Action =
    | Deposit
    | Swap(tokenOut: AccountId, minAmountOut: nat)
    | AddLiquidity(tokenOther: AccountId, amountOther: nat)

  /** Shorthand for `BalanceOf` on the world's ledger. */
  function Balance(w: World, account: AccountId, token: AccountId): nat {
    BalanceOf(w.contract.deposits, account, token)
  }

  /** `w'` is `w` with `amount` more of `token` credited to `account` and every
      other balance as it was. */
  ghost predicate Credited(w: World, w': World, account: AccountId, token: AccountId, amount: nat) {
    && Balance(w', account, token) == Balance(w, account, token) + amount
    && forall a, t :: (a != account || t != token) ==> Balance(w', a, t) == Balance(w, a, t)
  }

  /** The amount one action credits to the sender's `tokenIn` balance. */
  function ActionCredit(action: Action, amountIn: nat): nat {
    if action.AddLiquidity? then 0 else amountIn
  }

  /** A credit lowers no balance. */
  lemma CreditedNoneDecreased(w: World, w': World, account: AccountId, token: AccountId, amount: nat)
    requires Credited(w, w', account, token, amount)
    ensures NoneDecreased(w.contract.deposits, w'.contract.deposits)
  {
    forall a: AccountId, t: AccountId
      ensures BalanceOf(w.contract.deposits, a, t) <= BalanceOf(w'.contract.deposits, a, t)
    {
      if a != account || t != token {
        assert Balance(w', a, t) == Balance(w, a, t);
      }
    }
  }

  /** Applies one action.  Deposit and Swap credit `amountIn` to the sender and
      cannot fail; Swap then suspends.  AddLiquidity checks the ledger for the
      other token, credits nothing, and adds liquidity. */
  function ApplyAction(w: World, sender: AccountId, tokenIn: AccountId, amountIn: nat, action: Action): (r: Result<World>)
    ensures r.Failure? ==> action.AddLiquidity?
    ensures r.Failure? ==>
              action.AddLiquidity? && r.error in {InsufficientDeposit(action.tokenOther), PoolNotFound, DivisionByZero}
    ensures action.AddLiquidity? && Balance(w, sender, action.tokenOther) < action.amountOther ==>
              r == Failure(InsufficientDeposit(action.tokenOther))
    ensures r.Success? ==> Credited(w, r.value, sender, tokenIn, ActionCredit(action, amountIn))
  {
    match action
    case Deposit =>
      Success(w.(contract := Amm.InternalDeposit(w.contract, sender, tokenIn, amountIn)))
    case Swap(tokenOut, minAmountOut) =>
      var credited := w.(contract := Amm.InternalDeposit(w.contract, sender, tokenIn, amountIn));
      Success(RunAgentMarketMaker(credited, sender, tokenIn, tokenOut, amountIn, minAmountOut))
    case AddLiquidity(tokenOther, amountOther) =>
      if Balance(w, sender, tokenOther) < amountOther then Failure(InsufficientDeposit(tokenOther))
      else
        var contract :- Amm.InternalAddLiquidity(w.contract, tokenIn, tokenOther, amountIn, amountOther, sender);
        Success(w.(contract := contract))
  }

  /** A Deposit action only credits the ledger. */
  lemma DepositActionOnlyCredits(w: World, sender: AccountId, tokenIn: AccountId, amountIn: nat)
    ensures var r := ApplyAction(w, sender, tokenIn, amountIn, Deposit);
            && r.Success?
            && r.value.contract.pools == w.contract.pools
            && r.value.promises == w.promises && r.value.events == w.events && r.value.transfers == w.transfers
  {
  }

  /** A Swap action always succeeds: it credits `amountIn` to (sender,
      tokenIn), then suspends exactly one new yield carrying the request
      (sender, tokenIn, tokenOut, amountIn, minAmountOut) and announces it in
      one event.  Pools and transfers are untouched. */
  lemma SwapActionCreditsThenSuspends(w: World, sender: AccountId, tokenIn: AccountId, amountIn: nat,
                                      tokenOut: AccountId, minAmountOut: nat)
    ensures var r := ApplyAction(w, sender, tokenIn, amountIn, Swap(tokenOut, minAmountOut));
            && r.Success?
            && Credited(w, r.value, sender, tokenIn, amountIn)
            && r.value.contract.pools == w.contract.pools && r.value.transfers == w.transfers
            && |r.value.events| == |w.events| + 1 && r.value.events[..|w.events|] == w.events
            && var e := r.value.events[|w.events|];
               && e.request == Amm.SwapRequest(sender, tokenIn, tokenOut, amountIn, minAmountOut)
               && r.value.promises.suspended == w.promises.suspended[e.dataId := e.request]
               && r.value.promises.resumed == w.promises.resumed
               && (Yields.Valid(w.promises) ==> e.dataId !in w.promises.suspended && e.dataId !in w.promises.resumed)
  {
  }

  /** An AddLiquidity action succeeds exactly when the sender holds
      `amountOther` of the other token, the pair has a pool, and both its
      reserves are non-zero.  It then adds `amountIn` to the `tokenIn` reserve
      and `amountOther` to the other, and changes neither the ledger nor the
      yields, events or transfers. */
  lemma AddLiquidityActionAdds(w: World, sender: AccountId, tokenIn: AccountId, amountIn: nat,
                               tokenOther: AccountId, amountOther: nat)
    ensures var r := ApplyAction(w, sender, tokenIn, amountIn, AddLiquidity(tokenOther, amountOther));
            var before := Amm.GetSwapBalances(w.contract, tokenIn, tokenOther);
            r.Success? <==> Balance(w, sender, tokenOther) >= amountOther && before.Success?
                            && before.value.0 > 0 && before.value.1 > 0
    ensures var r := ApplyAction(w, sender, tokenIn, amountIn, AddLiquidity(tokenOther, amountOther));
            var before := Amm.GetSwapBalances(w.contract, tokenIn, tokenOther);
            r.Success? ==>
              && before.Success?
              && Amm.GetSwapBalances(r.value.contract, tokenIn, tokenOther)
                 == Success((before.value.0 + amountIn, before.value.1 + amountOther))
              && r.value.contract.deposits == w.contract.deposits
              && r.value.promises == w.promises && r.value.events == w.events && r.value.transfers == w.transfers
  {
    var r := ApplyAction(w, sender, tokenIn, amountIn, AddLiquidity(tokenOther, amountOther));
    var added := Amm.InternalAddLiquidity(w.contract, tokenIn, tokenOther, amountIn, amountOther, sender);
    if Amm.FindPool(w.contract, tokenIn, tokenOther).Some? {
      var p := Amm.FindPool(w.contract, tokenIn, tokenOther).value;
      assert Amm.GetSwapBalances(w.contract, tokenIn, tokenOther) == Success(Pools.Reserves(p, tokenIn));
      if r.Success? {
        assert added.Success?;
        var p' := Amm.FindPool(added.value, tokenIn, tokenOther).value;
        assert Pools.AddLiquidity(p, tokenIn, amountIn, amountOther, sender).Success?;
        assert Amm.GetSwapBalances(r.value.contract, tokenIn, tokenOther) == Success(Pools.Reserves(p', tokenIn));
      }
    }
  }

  /** Applies the actions in list order, stopping at the first failure. */
  function ApplyActions(w: World, sender: AccountId, tokenIn: AccountId, amountIn: nat, actions: seq<Action>)
    : (r: Result<World>)
    ensures r.Failure? ==> exists i :: 0 <= i < |actions| && actions[i].AddLiquidity?
    ensures r.Failure? ==> r.error.InsufficientDeposit? || r.error == PoolNotFound || r.error == DivisionByZero
    ensures (forall i :: 0 <= i < |actions| ==> !actions[i].AddLiquidity?) ==> r.Success?
    ensures r.Success? ==> r.value.transfers == w.transfers
    decreases |actions|
  {
    if |actions| == 0 then Success(w)
    else
      match ApplyAction(w, sender, tokenIn, amountIn, actions[0])
      case Failure(e) => Failure(e)
      case Success(w1) => ApplyActions(w1, sender, tokenIn, amountIn, actions[1..])
  }

  /** Handles the message of an incoming transfer of `amountIn` of `tokenIn`
      from `sender`; `None` stands for a message that does not parse. */
  function InternalProcessTokenTransfer(w: World, sender: AccountId, tokenIn: AccountId, amountIn: nat,
                                        msg: Option<seq<Action>>): (r: Result<World>)
    ensures msg.None? ==> r == Failure(MalformedActionMessage)
    ensures msg.Some? ==> r == ApplyActions(w, sender, tokenIn, amountIn, msg.value)
  {
    match msg
    case None => Failure(MalformedActionMessage)
    case Some(actions) => ApplyActions(w, sender, tokenIn, amountIn, actions)
  }

  /** Running `xs + ys` is running `xs`, then `ys` on its result. */
  lemma {:induction false} ApplyActionsInOrder(w: World, sender: AccountId, tokenIn: AccountId, amountIn: nat,
                                               xs: seq<Action>, ys: seq<Action>)
    ensures ApplyActions(w, sender, tokenIn, amountIn, xs + ys) ==
            match ApplyActions(w, sender, tokenIn, amountIn, xs)
            case Failure(e) => Failure(e)
            case Success(w1) => ApplyActions(w1, sender, tokenIn, amountIn, ys)
    decreases |xs|
  {
    if |xs| != 0 {
      assert (xs + ys)[0] == xs[0];
      assert (xs + ys)[1..] == xs[1..] + ys;
      match ApplyAction(w, sender, tokenIn, amountIn, xs[0])
      case Failure(_) =>
      case Success(w1) => ApplyActionsInOrder(w1, sender, tokenIn, amountIn, xs[1..], ys);
    } else {
      assert xs + ys == ys;
    }
  }

  /** What a list of actions credits in all: `amountIn` per Deposit or Swap. */
  function CreditTotal(actions: seq<Action>, amountIn: nat): nat {
    if |actions| == 0 then 0
    else ActionCredit(actions[0], amountIn) + CreditTotal(actions[1..], amountIn)
  }

  /** The number of actions that credit the ledger (Deposit and Swap). */
  function CreditingCount(actions: seq<Action>): nat {
    if |actions| == 0 then 0
    else (if actions[0].AddLiquidity? then 0 else 1) + CreditingCount(actions[1..])
  }

  /** The total credited is `amountIn` times the number of crediting actions. */
  lemma {:induction false} CreditTotalIsMultiple(actions: seq<Action>, amountIn: nat)
    ensures CreditTotal(actions, amountIn) == amountIn * CreditingCount(actions)
    decreases |actions|
  {
    if |actions| != 0 {
      CreditTotalIsMultiple(actions[1..], amountIn);
      var k := if actions[0].AddLiquidity? then 0 else 1;
      assert amountIn * (k + CreditingCount(actions[1..])) == amountIn * k + amountIn * CreditingCount(actions[1..]);
    }
  }

  /** The number of Swap actions. */
  function SwapCount(actions: seq<Action>): nat {
    if |actions| == 0 then 0
    else (if actions[0].Swap? then 1 else 0) + SwapCount(actions[1..])
  }

  /** A successful non-empty list is its first action followed by the rest. */
  lemma ApplyActionsUnfold(w: World, sender: AccountId, tokenIn: AccountId, amountIn: nat, actions: seq<Action>)
    requires |actions| != 0
    requires ApplyActions(w, sender, tokenIn, amountIn, actions).Success?
    ensures ApplyAction(w, sender, tokenIn, amountIn, actions[0]).Success?
    ensures ApplyActions(w, sender, tokenIn, amountIn, actions)
         == ApplyActions(ApplyAction(w, sender, tokenIn, amountIn, actions[0]).value, sender, tokenIn, amountIn, actions[1..])
  {
  }

  /** Credits to the same entry compose by adding. */
  lemma CreditedTrans(w0: World, w1: World, w2: World, account: AccountId, token: AccountId, x: nat, y: nat)
    requires Credited(w0, w1, account, token, x) && Credited(w1, w2, account, token, y)
    ensures Credited(w0, w2, account, token, x + y)
  {
  }

  /** A successful message credits `amountIn` to (sender, tokenIn) once per
      Deposit or Swap action, even though the tokens arrived once, and leaves
      every other balance alone. */
  lemma {:induction false} ApplyActionsCredits(w: World, sender: AccountId, tokenIn: AccountId, amountIn: nat,
                                               actions: seq<Action>)
    requires ApplyActions(w, sender, tokenIn, amountIn, actions).Success?
    ensures Credited(w, ApplyActions(w, sender, tokenIn, amountIn, actions).value, sender, tokenIn,
                     CreditTotal(actions, amountIn))
    decreases |actions|
  {
    if |actions| == 0 {
      assert ApplyActions(w, sender, tokenIn, amountIn, actions).value == w;
    } else {
      var rest := actions[1..];
      ApplyActionsUnfold(w, sender, tokenIn, amountIn, actions);
      var w1 := ApplyAction(w, sender, tokenIn, amountIn, actions[0]).value;
      var w' := ApplyActions(w1, sender, tokenIn, amountIn, rest).value;
      ApplyActionsCredits(w1, sender, tokenIn, amountIn, rest);
      CreditedTrans(w, w1, w', sender, tokenIn, ActionCredit(actions[0], amountIn), CreditTotal(rest, amountIn));
    }
  }

  /** The requests the Swap actions of `actions` suspend, in list order. */
  function SwapRequests(sender: AccountId, tokenIn: AccountId, amountIn: nat, actions: seq<Action>): seq<Amm.SwapRequest> {
    if |actions| == 0 then []
    else
      (match actions[0]
       case Swap(tokenOut, minAmountOut) => [Amm.SwapRequest(sender, tokenIn, tokenOut, amountIn, minAmountOut)]
       case _ => [])
      + SwapRequests(sender, tokenIn, amountIn, actions[1..])
  }

  /** The requests announced by a run of events, in order. */
  function EventRequests(events: seq<AgentEvent>): seq<Amm.SwapRequest> {
    seq(|events|, i requires 0 <= i < |events| => events[i].request)
  }

  /** `e` announces a swap of (sender, tokenIn, amountIn) under an id issued
      from `firstId` on, and that id is suspended in `w` carrying `e`'s request. */
  ghost predicate Announces(w: World, firstId: DataId, sender: AccountId, tokenIn: AccountId, amountIn: nat, e: AgentEvent) {
    && firstId <= e.dataId < w.promises.nextDataId
    && e.dataId in w.promises.suspended
    && w.promises.suspended[e.dataId] == e.request
    && e.request.senderId == sender && e.request.tokenIn == tokenIn && e.request.amountIn == amountIn
  }

  /** A successful message suspends one new swap per Swap action, each under a
      fresh data id with its own announcement; nothing is paid out. */
  lemma {:induction false} ApplyActionsSuspends(w: World, sender: AccountId, tokenIn: AccountId, amountIn: nat,
                                                actions: seq<Action>)
    requires ApplyActions(w, sender, tokenIn, amountIn, actions).Success?
    ensures var w' := ApplyActions(w, sender, tokenIn, amountIn, actions).value;
            && |w'.events| == |w.events| + SwapCount(actions)
            && w'.events[..|w.events|] == w.events
            && w'.promises.nextDataId == w.promises.nextDataId + SwapCount(actions)
            && w'.promises.resumed == w.promises.resumed
            && w.promises.suspended.Keys <= w'.promises.suspended.Keys
            && (forall id :: id in w'.promises.suspended && id !in w.promises.suspended ==> id >= w.promises.nextDataId)
            && (forall id :: id in w.promises.suspended && id < w.promises.nextDataId ==>
                               w'.promises.suspended[id] == w.promises.suspended[id])
            && w'.transfers == w.transfers
    ensures var w' := ApplyActions(w, sender, tokenIn, amountIn, actions).value;
            forall id :: w.promises.nextDataId <= id < w'.promises.nextDataId ==> id in w'.promises.suspended
    ensures var w' := ApplyActions(w, sender, tokenIn, amountIn, actions).value;
            forall i :: |w.events| <= i < |w'.events| ==> Announces(w', w.promises.nextDataId, sender, tokenIn, amountIn, w'.events[i])
    ensures var w' := ApplyActions(w, sender, tokenIn, amountIn, actions).value;
            EventRequests(w'.events[|w.events|..]) == SwapRequests(sender, tokenIn, amountIn, actions)
    decreases |actions|
  {
    if |actions| != 0 {
      var w1 := ApplyAction(w, sender, tokenIn, amountIn, actions[0]).value;
      ApplyActionsSuspends(w1, sender, tokenIn, amountIn, actions[1..]);
      var w' := ApplyActions(w, sender, tokenIn, amountIn, actions).value;
      assert w'.events[..|w.events|] == w1.events[..|w1.events|][..|w.events|];
      forall i | |w.events| <= i < |w'.events|
        ensures Announces(w', w.promises.nextDataId, sender, tokenIn, amountIn, w'.events[i])
      {
        if i >= |w1.events| {
          assert Announces(w', w1.promises.nextDataId, sender, tokenIn, amountIn, w'.events[i]);
        } else {
          assert w'.events[i] == w1.events[i];
          assert Announces(w1, w.promises.nextDataId, sender, tokenIn, amountIn, w1.events[i]);
        }
      }
      FirstActionRequests(w, sender, tokenIn, amountIn, actions);
      EventRequestsSplit(w.events, w1.events, w'.events);
    }
  }

  /** The events appended over two stages announce the first stage's requests, then the second's. */
  lemma EventRequestsSplit(e0: seq<AgentEvent>, e1: seq<AgentEvent>, e2: seq<AgentEvent>)
    requires |e0| <= |e1| <= |e2| && e2[..|e1|] == e1
    ensures EventRequests(e2[|e0|..]) == EventRequests(e1[|e0|..]) + EventRequests(e2[|e1|..])
  {
    assert e2[|e0|..] == e1[|e0|..] + e2[|e1|..];
  }

  /** The first action of a successful list announces its own Swap request, if any. */
  lemma FirstActionRequests(w: World, sender: AccountId, tokenIn: AccountId, amountIn: nat, actions: seq<Action>)
    requires |actions| != 0
    requires ApplyAction(w, sender, tokenIn, amountIn, actions[0]).Success?
    ensures var w1 := ApplyAction(w, sender, tokenIn, amountIn, actions[0]).value;
            && |w.events| <= |w1.events|
            && EventRequests(w1.events[|w.events|..]) + SwapRequests(sender, tokenIn, amountIn, actions[1..])
               == SwapRequests(sender, tokenIn, amountIn, actions)
  {
    var w1 := ApplyAction(w, sender, tokenIn, amountIn, actions[0]).value;
    match actions[0] {
      case Deposit =>
        DepositActionOnlyCredits(w, sender, tokenIn, amountIn);
        assert w1.events[|w.events|..] == [];
      case Swap(tokenOut, minAmountOut) =>
        SwapActionCreditsThenSuspends(w, sender, tokenIn, amountIn, tokenOut, minAmountOut);
        assert w1.events[|w.events|..] == [w1.events[|w.events|]];
      case AddLiquidity(tokenOther, amountOther) =>
        AddLiquidityActionAdds(w, sender, tokenIn, amountIn, tokenOther, amountOther);
        assert w1.events[|w.events|..] == [];
    }
  }

  /** A successful message keeps the registry and the yield table valid. */
  lemma {:induction false} ApplyActionsPreservesValid(w: World, sender: AccountId, tokenIn: AccountId, amountIn: nat,
                                                      actions: seq<Action>)
    requires Agent.Valid(w)
    requires ApplyActions(w, sender, tokenIn, amountIn, actions).Success?
    ensures Agent.Valid(ApplyActions(w, sender, tokenIn, amountIn, actions).value)
    decreases |actions|
  {
    if |actions| != 0 {
      var action := actions[0];
      match action {
        case Deposit =>
          Amm.InternalDepositPreservesValid(w.contract, sender, tokenIn, amountIn);
        case Swap(_, _) =>
          Amm.InternalDepositPreservesValid(w.contract, sender, tokenIn, amountIn);
        case AddLiquidity(tokenOther, amountOther) =>
          if Balance(w, sender, tokenOther) >= amountOther {
            Amm.InternalAddLiquidityPreservesValid(w.contract, tokenIn, tokenOther, amountIn, amountOther, sender);
          }
      }
      var w1 := ApplyAction(w, sender, tokenIn, amountIn, action).value;
      ApplyActionsPreservesValid(w1, sender, tokenIn, amountIn, actions[1..]);
    }
  }
}
