/**
 The hand-written limiter of concurrent RPC calls (infrastructure/via/src/transactions.ts:21-47): a counter, a
 queue of postponed calls, and a `finally` block that starts the next one.
 */
module RpcLimiter {

  const MAX_CONCURRENT_RPC_CALLS: int := 10

  // Who awaits a call: the task that creates a transaction, or a link of the fund lock.
  datatype Owner = CreateOf(task: nat) | FundOf(link: nat)

  // `Settled`: the call's own promise is settled, but its `finally` block has not run yet.
  datatype Phase = Queued | Running | Settled(ok: bool) | Released(ok: bool) {
    predicate HoldsSlot() { Running? || Settled? }
    function Rank(): nat {
      match this
      case Queued => 3
      case Running => 2
      case Settled(_) => 1
      case Released(_) => 0
    }
  }

  // `waited` tells that the call went through the queue.
  datatype Call = Call(owner: Owner, waited: bool, phase: Phase) {
    // The promise that `runRpcCall` returned is fulfilled. A postponed call resolves its waiter before its
    // `finally` block runs, a call that started at once after it.
    predicate Resolved() {
      phase == Released(true) || (waited && phase == Settled(true))
    }

    // The promise is rejected; a postponed call that throws never settles the promise of its waiter.
    predicate Failed() {
      !waited && phase == Released(false)
    }

    predicate Consumable() {
      Resolved() || Failed()
    }

    // A postponed call that threw: nobody will hear of it.
    predicate Lost() {
      waited && (phase == Settled(false) || phase == Released(false))
    }
  }

  // Calls are numbered in the order of their submission.
  datatype Limiter = Limiter(active: int, queue: seq<nat>, calls: seq<Call>)

  // The queue holds calls that were submitted.
  predicate QueueIsValid(l: Limiter) {
    forall j :: 0 <= j < |l.queue| ==> l.queue[j] < |l.calls|
  }

  // `runRpcCall` with a new call.
  function Submit(l: Limiter, owner: Owner): Limiter {
    var id := |l.calls|;
    if l.active >= MAX_CONCURRENT_RPC_CALLS then
      l.(queue := l.queue + [id], calls := l.calls + [Call(owner, true, Queued)])
    else
      l.(active := l.active + 1, calls := l.calls + [Call(owner, false, Running)])
  }

  // `runRpcCall` with a call that was taken off the queue.
  function Resubmit(l: Limiter, id: nat): Limiter
    requires id < |l.calls|
  {
    if l.active >= MAX_CONCURRENT_RPC_CALLS then
      l.(queue := l.queue + [id])
    else
      l.(active := l.active + 1, calls := l.calls[id := l.calls[id].(phase := Running)])
  }

  function Settle(l: Limiter, id: nat, ok: bool): Limiter
    requires id < |l.calls| && l.calls[id].phase.Running?
  {
    l.(calls := l.calls[id := l.calls[id].(phase := Settled(ok))])
  }

  // The `finally` block.
  function Release(l: Limiter, id: nat): Limiter
    requires id < |l.calls| && l.calls[id].phase.Settled?
    requires QueueIsValid(l)
  {
    var freed := l.(active := l.active - 1,
                    calls := l.calls[id := l.calls[id].(phase := Released(l.calls[id].phase.ok))]);
    if freed.queue == [] then freed
    else Resubmit(freed.(queue := freed.queue[1..]), freed.queue[0])
  }

  // ---------- Invariant ----------

  function Busy(calls: seq<Call>): nat {
    if calls == [] then 0
    else Busy(calls[..|calls| - 1]) + if calls[|calls| - 1].phase.HoldsSlot() then 1 else 0
  }

  lemma {:induction false} BusyAfterUpdate(calls: seq<Call>, i: nat, c: Call)
    requires i < |calls|
    ensures Busy(calls[i := c]) == Busy(calls)
              - (if calls[i].phase.HoldsSlot() then 1 else 0) + (if c.phase.HoldsSlot() then 1 else 0)
  {
    var init := calls[..|calls| - 1];
    if i < |init| {
      BusyAfterUpdate(init, i, c);
      assert calls[i := c][..|calls| - 1] == init[i := c];
    } else {
      assert calls[i := c][..|calls| - 1] == init;
    }
  }

  lemma {:induction false} BusyAfterAppend(calls: seq<Call>, c: Call)
    ensures Busy(calls + [c]) == Busy(calls) + if c.phase.HoldsSlot() then 1 else 0
  {
    assert (calls + [c])[..|calls|] == calls;
  }

  // Calls below this number have started, the others wait.
  function Started(l: Limiter): int {
    |l.calls| - |l.queue|
  }

  ghost predicate LimiterOk(l: Limiter) {
    && 0 <= Started(l)
    && (forall j :: 0 <= j < |l.queue| ==> l.queue[j] == Started(l) + j)
    && (forall i :: 0 <= i < |l.calls| ==> (l.calls[i].phase.Queued? <==> Started(l) <= i))
    && (forall i :: 0 <= i < |l.calls| && l.calls[i].phase.Queued? ==> l.calls[i].waited)
    && l.active == Busy(l.calls) <= MAX_CONCURRENT_RPC_CALLS
    && (l.queue != [] ==> l.active == MAX_CONCURRENT_RPC_CALLS)
  }

  /** A submission keeps the limiter consistent and starts the call exactly if no call waits and a slot is free. */
  lemma SubmitKeepsLimiter(l: Limiter, owner: Owner)
    requires LimiterOk(l)
    ensures LimiterOk(Submit(l, owner))
    ensures Submit(l, owner).calls[|l.calls|].phase.Running? <==> l.queue == [] && l.active < MAX_CONCURRENT_RPC_CALLS
  {
    BusyAfterAppend(l.calls, Submit(l, owner).calls[|l.calls|]);
  }

  lemma SettleKeepsLimiter(l: Limiter, id: nat, ok: bool)
    requires LimiterOk(l) && id < |l.calls| && l.calls[id].phase.Running?
    ensures LimiterOk(Settle(l, id, ok))
  {
    BusyAfterUpdate(l.calls, id, l.calls[id].(phase := Settled(ok)));
  }

  /** The `finally` block frees one slot and hands it to the oldest waiting call, if any; that call is never
      postponed a second time. */
  lemma ReleaseKeepsLimiter(l: Limiter, id: nat)
    requires LimiterOk(l) && id < |l.calls| && l.calls[id].phase.Settled?
    ensures var r := Release(l, id);
            && LimiterOk(r)
            && |r.calls| == |l.calls|
            && (l.queue != [] ==> r.queue == l.queue[1..] && r.calls[Started(l)].phase.Running? && r.active == l.active)
            && (l.queue == [] ==> r.active == l.active - 1)
  {
    var released := l.calls[id].(phase := Released(l.calls[id].phase.ok));
    var calls := l.calls[id := released];
    BusyAfterUpdate(l.calls, id, released);
    if l.queue != [] {
      var next := l.queue[0];
      BusyAfterUpdate(calls, next, calls[next].(phase := Running));
    }
  }

  lemma {:induction false} NobodyBusy(calls: seq<Call>)
    requires forall i :: 0 <= i < |calls| ==> !calls[i].phase.HoldsSlot()
    ensures Busy(calls) == 0
  {
    if calls != [] {
      NobodyBusy(calls[..|calls| - 1]);
    }
  }

  // ---------- Work left ----------

  function CallWork(calls: seq<Call>): nat {
    if calls == [] then 0 else CallWork(calls[..|calls| - 1]) + calls[|calls| - 1].phase.Rank()
  }

  lemma {:induction false} CallWorkAfterUpdate(calls: seq<Call>, i: nat, c: Call)
    requires i < |calls|
    ensures CallWork(calls[i := c]) == CallWork(calls) - calls[i].phase.Rank() + c.phase.Rank()
  {
    var init := calls[..|calls| - 1];
    if i < |init| {
      CallWorkAfterUpdate(init, i, c);
      assert calls[i := c][..|calls| - 1] == init[i := c];
    } else {
      assert calls[i := c][..|calls| - 1] == init;
    }
  }

  lemma {:induction false} CallWorkAfterAppend(calls: seq<Call>, c: Call)
    ensures CallWork(calls + [c]) == CallWork(calls) + c.phase.Rank()
  {
    assert (calls + [c])[..|calls|] == calls;
  }

  lemma SubmitWork(l: Limiter, owner: Owner)
    ensures CallWork(Submit(l, owner).calls) <= CallWork(l.calls) + 3
  {
    CallWorkAfterAppend(l.calls, Submit(l, owner).calls[|l.calls|]);
  }

  lemma ReleaseWork(l: Limiter, id: nat)
    requires LimiterOk(l) && id < |l.calls| && l.calls[id].phase.Settled?
    ensures CallWork(Release(l, id).calls) < CallWork(l.calls)
  {
    var calls := l.calls[id := l.calls[id].(phase := Released(l.calls[id].phase.ok))];
    CallWorkAfterUpdate(l.calls, id, calls[id]);
    if l.queue != [] {
      var next := l.queue[0];
      CallWorkAfterUpdate(calls, next, calls[next].(phase := Running));
    }
  }
}
