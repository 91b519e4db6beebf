/**
 The transaction generator as an object whose methods update the shared variables in place
 (infrastructure/via/src/transactions.ts:14-106). A method is the code that runs without interruption between
 two awaits, and does exactly one step of the state machine.
 */
module TransactionGeneration {
  import opened Wrappers
  import opened RpcLimiter
  import opened TransactionTasks
  import opened TransactionRuns
  import opened TransactionOutcomes

  // What happens next in a state: one of the steps that are possible, or nothing if none is. Calls settle and throw as
  // the scheduler says.
  type Scheduler = State -> Option<Action>

  ghost predicate IsScheduled(scheduler: Scheduler, s: State) {
    match scheduler(s)
    case None => Terminal(s)
    case Some(a) => Enabled(s, a)
  }

  ghost predicate IsScheduler(scheduler: Scheduler) {
    forall s :: IsScheduled(scheduler, s)
  }

  // The scheduler of a given run; any possible step in all other states.
  ghost function SchedulerOf(trace: seq<State>): Scheduler {
    s => NextIn(trace, s)
  }

  ghost function NextIn(trace: seq<State>, s: State): Option<Action> {
    if exists k, a :: Follows(trace, s, k, a) then
      var k, a :| Follows(trace, s, k, a);
      Some(a)
    else if Terminal(s) then None
    else
      var a :| Enabled(s, a);
      Some(a)
  }

  // In the run, step `a` follows state `s` at position `k`.
  ghost predicate Follows(trace: seq<State>, s: State, k: nat, a: Action) {
    k + 1 < |trace| && trace[k] == s && Enabled(s, a) && trace[k + 1] == Next(s, a)
  }

  lemma {:induction false} StatesDiffer(plan: seq<nat>, trace: seq<State>, j: nat, k: nat)
    requires Behavior(plan, trace) && j < k < |trace|
    ensures WorkLeft(trace[k]) < WorkLeft(trace[j])
    decreases k
  {
    if j < k - 1 {
      StatesDiffer(plan, trace, j, k - 1);
    }
    ReachableStatesSatisfyInv(plan, trace, k - 1);
    var a := StepOfBehavior(plan, trace, k - 1);
    StepDecreasesWork(trace[k - 1], a);
  }

  /** Every run that cannot go on is the run under some scheduler: no state comes twice in it. */
  lemma EveryRunHasScheduler(plan: seq<nat>, trace: seq<State>)
    requires IsMaximal(plan, trace)
    ensures IsScheduler(SchedulerOf(trace))
    ensures forall k :: 0 <= k < |trace| - 1 ==>
              && SchedulerOf(trace)(trace[k]).Some? && Enabled(trace[k], SchedulerOf(trace)(trace[k]).value)
              && trace[k + 1] == Next(trace[k], SchedulerOf(trace)(trace[k]).value)
    ensures SchedulerOf(trace)(trace[|trace| - 1]) == None
  {
    forall s ensures IsScheduled(SchedulerOf(trace), s) {
    }
    forall k | 0 <= k < |trace| - 1
      ensures SchedulerOf(trace)(trace[k]).Some? && Enabled(trace[k], SchedulerOf(trace)(trace[k]).value)
      ensures trace[k + 1] == Next(trace[k], SchedulerOf(trace)(trace[k]).value)
    {
      StepIsChosen(plan, trace, k);
    }
  }

  lemma StepIsChosen(plan: seq<nat>, trace: seq<State>, k: nat)
    requires Behavior(plan, trace) && k + 1 < |trace|
    ensures var a := NextIn(trace, trace[k]);
            a.Some? && Enabled(trace[k], a.value) && trace[k + 1] == Next(trace[k], a.value)
  {
    var a := StepOfBehavior(plan, trace, k);
    assert Follows(trace, trace[k], k, a);
    var j: nat, b: Action :| Follows(trace, trace[k], j, b) && NextIn(trace, trace[k]) == Some(b);
    assert Follows(trace, trace[k], j, b);
    if j < k {
      StatesDiffer(plan, trace, j, k);
    } else if k < j {
      StatesDiffer(plan, trace, k, j);
    }
  }

  class TransactionGenerator {
    var activeRpcCalls: int
    var rpcQueue: seq<nat>
    var calls: seq<Call>
    var tasks: seq<Task>
    var links: seq<Link>
    var spawnLeft: nat
    var plan: seq<nat>

    function TheLimiter(): Limiter
      reads this
    {
      Limiter(activeRpcCalls, rpcQueue, calls)
    }

    function Abs(): State
      reads this
    {
      State(TheLimiter(), tasks, links, spawnLeft, plan)
    }

    ghost predicate Valid()
      reads this
    {
      Inv(Abs())
    }

    constructor (plan: seq<nat>)
      ensures Valid() && Abs() == InitialState(plan)
    {
      activeRpcCalls, rpcQueue, calls := 0, [], [];
      tasks, links, spawnLeft := [], [], 0;
      this.plan := plan;
    }

    // `runRpcCall` with a new call: start it, or put it into the queue.
    method RunRpcCall(owner: Owner) returns (id: nat)
      modifies this`activeRpcCalls, this`rpcQueue, this`calls
      ensures TheLimiter() == Submit(old(TheLimiter()), owner)
      ensures id == old(|calls|)
    {
      id := |calls|;
      if activeRpcCalls >= MAX_CONCURRENT_RPC_CALLS {
        rpcQueue := rpcQueue + [id];
        calls := calls + [Call(owner, true, Queued)];
      } else {
        activeRpcCalls := activeRpcCalls + 1;
        calls := calls + [Call(owner, false, Running)];
      }
    }

    // `runRpcCall` with a call from the queue.
    method RunDequeued(id: nat)
      requires id < |calls|
      modifies this`activeRpcCalls, this`rpcQueue, this`calls
      ensures TheLimiter() == Resubmit(old(TheLimiter()), id)
    {
      if activeRpcCalls >= MAX_CONCURRENT_RPC_CALLS {
        rpcQueue := rpcQueue + [id];
      } else {
        activeRpcCalls := activeRpcCalls + 1;
        calls := calls[id := calls[id].(phase := Running)];
      }
    }

    method Settle(id: nat, ok: bool)
      requires Valid() && Enabled(Abs(), SettleCall(id, ok))
      modifies this`calls
      ensures Valid() && Abs() == Next(old(Abs()), SettleCall(id, ok))
    {
      StepKeepsInv(Abs(), SettleCall(id, ok));
      calls := calls[id := calls[id].(phase := Settled(ok))];
    }

    // The `finally` block of `runRpcCall`.
    method Finally(id: nat)
      requires Valid() && Enabled(Abs(), ReleaseCall(id))
      modifies this`activeRpcCalls, this`rpcQueue, this`calls
      ensures Valid() && Abs() == Next(old(Abs()), ReleaseCall(id))
    {
      StepKeepsInv(Abs(), ReleaseCall(id));
      calls := calls[id := calls[id].(phase := Released(calls[id].phase.ok))];
      activeRpcCalls := activeRpcCalls - 1;
      if |rpcQueue| > 0 {
        var nextCall := rpcQueue[0];
        rpcQueue := rpcQueue[1..];
        RunDequeued(nextCall);
      }
    }

    method BeginIteration()
      requires Valid() && Enabled(Abs(), StartIteration)
      modifies this`spawnLeft, this`plan
      ensures Valid() && Abs() == Next(old(Abs()), StartIteration)
    {
      StepKeepsInv(Abs(), StartIteration);
      spawnLeft := plan[0];
      plan := plan[1..];
    }

    // A task runs up to its first await, the creation of a transaction.
    method SpawnTask()
      requires Valid() && Enabled(Abs(), Spawn)
      modifies this
      ensures Valid() && Abs() == Next(old(Abs()), Spawn)
    {
      StepKeepsInv(Abs(), Spawn);
      var id := RunRpcCall(CreateOf(|tasks|));
      tasks := tasks + [Creating(id)];
      spawnLeft := spawnLeft - 1;
    }

    // The transaction is created: chain the funding to the lock, or catch the error.
    method ContinueTask(t: nat)
      requires Valid() && Enabled(Abs(), ResumeTask(t))
      modifies this`tasks, this`links
      ensures Valid() && Abs() == Next(old(Abs()), ResumeTask(t))
    {
      StepKeepsInv(Abs(), ResumeTask(t));
      if calls[tasks[t].call].Resolved() {
        tasks := tasks[t := Chained(|links|)];
        links := links + [Link(t, Pending)];
      } else {
        tasks := tasks[t := Done(false)];
      }
    }

    // The callback of `then` runs, because the promise before it was fulfilled.
    method RunLink(k: nat)
      requires Valid() && Enabled(Abs(), BeginLink(k))
      modifies this
      ensures Valid() && Abs() == Next(old(Abs()), BeginLink(k))
    {
      StepKeepsInv(Abs(), BeginLink(k));
      var id := RunRpcCall(FundOf(k));
      links := links[k := links[k].(status := InCall(id))];
    }

    // A rejection passes through `then` without running the callback.
    method SkipLink(k: nat)
      requires Valid() && Enabled(Abs(), PoisonLink(k))
      modifies this`links
      ensures Valid() && Abs() == Next(old(Abs()), PoisonLink(k))
    {
      StepKeepsInv(Abs(), PoisonLink(k));
      links := links[k := links[k].(status := Rejected)];
    }

    method FinishLink(k: nat)
      requires Valid() && Enabled(Abs(), EndLink(k))
      modifies this`links
      ensures Valid() && Abs() == Next(old(Abs()), EndLink(k))
    {
      StepKeepsInv(Abs(), EndLink(k));
      var ok := calls[links[k].status.call].Resolved();
      links := links[k := links[k].(status := if ok then Fulfilled else Rejected)];
    }

    method FinishTask(t: nat)
      requires Valid() && Enabled(Abs(), EndTask(t))
      modifies this`tasks
      ensures Valid() && Abs() == Next(old(Abs()), EndTask(t))
    {
      StepKeepsInv(Abs(), EndTask(t));
      tasks := tasks[t := Done(links[tasks[t].link].status.Fulfilled?)];
    }

    // The code that runs for one step.
    method Perform(a: Action)
      requires Valid() && Enabled(Abs(), a)
      modifies this
      ensures Valid() && Abs() == Next(old(Abs()), a)
    {
      match a
      case StartIteration => BeginIteration();
      case Spawn => SpawnTask();
      case SettleCall(c, ok) => Settle(c, ok);
      case ReleaseCall(c) => Finally(c);
      case ResumeTask(t) => ContinueTask(t);
      case BeginLink(k) => RunLink(k);
      case PoisonLink(k) => SkipLink(k);
      case EndLink(k) => FinishLink(k);
      case EndTask(t) => FinishTask(t);
    }

    /** The whole program, under any scheduler of its callbacks and with any calls that throw: it stops after at most
        fourteen steps per transaction and one per iteration. Then every call has run, and all iterations are done
        exactly if no postponed call threw; in particular if no iteration is larger than the number of slots. Exactly
        the transactions that were created were chained to the lock, and exactly the links whose funding call succeeded
        are fulfilled. */
    method Generate(scheduler: Scheduler) returns (steps: nat, ghost trace: seq<State>)
      requires IsScheduler(scheduler) && Abs() == InitialState(plan)
      modifies this
      ensures IsMaximal(old(plan), trace) && trace[|trace| - 1] == Abs() && |trace| == steps + 1
      ensures steps <= 14 * Sum(old(plan)) + |old(plan)|
      ensures forall c :: 0 <= c < |calls| ==> calls[c].phase.Released?
      ensures Finished(Abs()) <==> NoneLost(Abs())
      ensures FitsSlots(old(plan)) ==> Finished(Abs())
      ensures Finished(Abs()) ==> |tasks| == Sum(old(plan))
      ensures forall t :: 0 <= t < |tasks| ==> (HasLink(Abs(), t) <==> HasSucceeded(Abs(), CreateOf(t)))
      ensures forall k :: 0 <= k < |links| ==> (links[k].status.Fulfilled? <==> HasSucceeded(Abs(), FundOf(k)))
    {
      ghost var start := plan;
      steps, trace := 0, [Abs()];
      var next := scheduler(Abs());
      while next.Some?
        invariant Valid() && Behavior(start, trace) && trace[|trace| - 1] == Abs() && |trace| == steps + 1
        invariant next == scheduler(Abs())
        decreases WorkLeft(Abs())
      {
        ghost var before := Abs();
        assert IsScheduled(scheduler, before);
        StepDecreasesWork(before, next.value);
        ExtendBehavior(start, trace, next.value);
        Perform(next.value);
        steps, trace := steps + 1, trace + [Abs()];
        next := scheduler(Abs());
      }
      assert IsScheduled(scheduler, Abs());
      RunsAreBounded(start, trace, steps);
      EveryMaximalRunFinishes(start, trace);
      if FitsSlots(start) {
        SmallRunsNeverPostpone(start, trace, steps);
      }
      TransactionsAreConserved(start, trace, steps);
      forall t | 0 <= t < |tasks| ensures HasLink(Abs(), t) <==> HasSucceeded(Abs(), CreateOf(t)) {
        LinksEndAsCalled(start, trace, t, 0);
      }
      forall k | 0 <= k < |links| ensures links[k].status.Fulfilled? <==> HasSucceeded(Abs(), FundOf(k)) {
        assert LinkOk(Abs(), k);
        LinksEndAsCalled(start, trace, links[k].task, k);
      }
    }
  }
}
