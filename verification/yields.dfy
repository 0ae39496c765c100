/** The host's yield/resume primitive (`promise_yield_create`,
    `promise_yield_resume`) as a table.  A yield is created suspended under a
    fresh data id; resuming moves it, with the response, to the queue of
    callbacks waiting to run; running the callback removes it.  Ids are issued
    from a counter, standing in for the host's unique data ids.
 */
module Yields {
  import opened Results

  type DataId = nat

  /** What the callback receives: the agent's amount, or an error (e.g. the
      host timing the yield out). */
  datatype PromiseResult = PromiseOk(amountOut: nat) | PromiseErr

  datatype YieldTable<P> = YieldTable(
    suspended: map<DataId, P>,
    resumed: map<DataId, (P, PromiseResult)>,
    nextDataId: DataId)

  /** Every live id was issued before, and no id is both suspended and resumed. */
  ghost predicate Valid<P>(t: YieldTable<P>) {
    && (forall id | id in t.suspended :: id < t.nextDataId)
    && (forall id | id in t.resumed :: id < t.nextDataId)
    && t.suspended.Keys !! t.resumed.Keys
  }

  /** An id that was issued and is neither suspended nor resumed: its yield is over. */
  ghost predicate Closed<P>(t: YieldTable<P>, id: DataId) {
    id < t.nextDataId && id !in t.suspended && id !in t.resumed
  }

  function Empty<P>(): (t: YieldTable<P>)
    ensures Valid(t)
  {
    YieldTable(map[], map[], 0)
  }

  /** Suspends `payload` under a data id never issued before. */
  function YieldCreate<P>(t: YieldTable<P>, payload: P): (r: (YieldTable<P>, DataId))
    ensures Valid(t) ==> r.1 !in t.suspended && r.1 !in t.resumed
    ensures Valid(t) ==> Valid(r.0)
    ensures r.0.suspended == t.suspended[r.1 := payload]
    ensures r.0.resumed == t.resumed
    ensures t.nextDataId <= r.1 < r.0.nextDataId
  {
    var id := t.nextDataId;
    (YieldTable(t.suspended[id := payload], t.resumed, id + 1), id)
  }

  /** Hands `response` to the yield `id`; fails unless `id` is still suspended. */
  function YieldResume<P>(t: YieldTable<P>, id: DataId, response: PromiseResult): (r: Result<YieldTable<P>>)
    ensures r.Failure? <==> id !in t.suspended
    ensures r.Failure? ==> r.error == UnknownOrClosedYieldPoint
    ensures r.Success? ==>
              && r.value.suspended == t.suspended - {id}
              && r.value.resumed == t.resumed[id := (t.suspended[id], response)]
              && r.value.nextDataId == t.nextDataId
    ensures r.Success? && Valid(t) ==> Valid(r.value)
  {
    if id !in t.suspended then Failure(UnknownOrClosedYieldPoint)
    else Success(YieldTable(t.suspended - {id}, t.resumed[id := (t.suspended[id], response)], t.nextDataId))
  }

  /** The host runs the callback of a resumed yield: its payload and response,
      and the table without it.  Fails when no such callback is waiting. */
  function TakeResumed<P>(t: YieldTable<P>, id: DataId): (r: Result<(YieldTable<P>, P, PromiseResult)>)
    ensures r.Failure? <==> id !in t.resumed
    ensures r.Success? ==>
              && (r.value.1, r.value.2) == t.resumed[id]
              && r.value.0.suspended == t.suspended
              && r.value.0.resumed == t.resumed - {id}
              && r.value.0.nextDataId == t.nextDataId
    ensures r.Success? && Valid(t) ==> Valid(r.value.0) && Closed(r.value.0, id)
  {
    if id !in t.resumed then Failure(UnknownOrClosedYieldPoint)
    else Success((YieldTable(t.suspended, t.resumed - {id}, t.nextDataId), t.resumed[id].0, t.resumed[id].1))
  }
}
