/**
 For which numbers of transactions the generator always finishes (infrastructure/via/src/transactions.ts:51-103).
 */
module TransactionRuns {
  import opened FiniteSets
  import opened RpcLimiter
  import opened TransactionTasks

  // Every run that cannot go on has finished all iterations, whatever threw.
  ghost predicate AlwaysFinishes(plan: seq<nat>) {
    forall trace :: IsMaximal(plan, trace) ==> Finished(trace[|trace| - 1])
  }

  ghost predicate IsMaximal(plan: seq<nat>, trace: seq<State>) {
    Behavior(plan, trace) && Terminal(trace[|trace| - 1])
  }

  ghost predicate FitsSlots(plan: seq<nat>) {
    forall i :: 0 <= i < |plan| ==> plan[i] <= MAX_CONCURRENT_RPC_CALLS
  }

  // ---------- Small iterations never postpone a call ----------

  function Unfinished(tasks: seq<Task>): set<nat> {
    set t | 0 <= t < |tasks| && !tasks[t].Done?
  }

  function BusyCalls(calls: seq<Call>): set<nat> {
    set c | 0 <= c < |calls| && calls[c].phase.HoldsSlot()
  }

  lemma {:induction false} BusyIsCount(calls: seq<Call>)
    ensures Busy(calls) == |BusyCalls(calls)|
  {
    if calls != [] {
      var init, last := calls[..|calls| - 1], |calls| - 1;
      BusyIsCount(init);
      assert BusyCalls(calls) == BusyCalls(init) + if calls[last].phase.HoldsSlot() then {last} else {};
    }
  }

  // The task that a call works for.
  function TaskOf(s: State, c: nat): nat
    requires c < |s.lim.calls|
  {
    match s.lim.calls[c].owner
    case CreateOf(t) => t
    case FundOf(k) => if k < |s.links| then s.links[k].task else 0
  }

  // No call was postponed, and the iteration fits into the slots.
  ghost predicate IsSmall(s: State) {
    && (forall c :: 0 <= c < |s.lim.calls| ==> !s.lim.calls[c].waited)
    && |Unfinished(s.tasks)| + s.spawnLeft <= MAX_CONCURRENT_RPC_CALLS
    && FitsSlots(s.plan)
  }

  // A call that holds a slot and was not postponed has its own unfinished task, which awaits just this call.
  lemma BusyCallHasTask(s: State, c: nat)
    requires Inv(s) && c < |s.lim.calls| && s.lim.calls[c].phase.HoldsSlot() && !s.lim.calls[c].waited
    ensures TaskOf(s, c) in Unfinished(s.tasks)
    ensures match s.tasks[TaskOf(s, c)]
            case Creating(d) => d == c
            case Chained(k) => k < |s.links| && s.links[k].status == InCall(c)
            case Done(_) => false
  {
    assert CallOk(s, c);
    if s.lim.calls[c].owner.FundOf? {
      assert LinkOk(s, s.lim.calls[c].owner.link);
    }
  }

  lemma {:induction false} InjectionBounds(s: State, busy: set<nat>, tasks: set<nat>)
    requires forall c :: c in busy ==> c < |s.lim.calls| && TaskOf(s, c) in tasks
    requires forall c, d :: c in busy && d in busy && TaskOf(s, c) == TaskOf(s, d) ==> c == d
    ensures |busy| <= |tasks|
    decreases busy
  {
    if busy != {} {
      var c :| c in busy;
      InjectionBounds(s, busy - {c}, tasks - {TaskOf(s, c)});
    }
  }

  // Without postponed calls there are no more busy slots than unfinished tasks; and fewer, if some task awaits no call.
  lemma SlotsAreFree(s: State, idle: set<nat>)
    requires Inv(s) && IsSmall(s) && idle <= Unfinished(s.tasks)
    requires forall c :: 0 <= c < |s.lim.calls| && s.lim.calls[c].phase.HoldsSlot() ==> TaskOf(s, c) !in idle
    ensures s.lim.active + |idle| <= |Unfinished(s.tasks)|
  {
    var busy, tasks := BusyCalls(s.lim.calls), Unfinished(s.tasks) - idle;
    forall c | c in busy ensures TaskOf(s, c) in tasks { BusyCallHasTask(s, c); }
    forall c, d | c in busy && d in busy && TaskOf(s, c) == TaskOf(s, d) ensures c == d {
      BusyCallHasTask(s, c);
      BusyCallHasTask(s, d);
    }
    BusyIsCount(s.lim.calls);
    InjectionBounds(s, busy, tasks);
    assert Unfinished(s.tasks) == tasks + idle;
  }

  lemma SpawnStaysSmall(s: State)
    requires Inv(s) && IsSmall(s) && Enabled(s, Spawn)
    ensures IsSmall(Next(s, Spawn))
  {
    SlotsAreFree(s, {});
    var u := Next(s, Spawn);
    assert Unfinished(u.tasks) == Unfinished(s.tasks) + {|s.tasks|};
  }

  lemma BeginLinkStaysSmall(s: State, a: Action)
    requires Inv(s) && IsSmall(s) && a.BeginLink? && Enabled(s, a)
    ensures IsSmall(Next(s, a))
  {
    assert LinkOk(s, a.link);
    var t := s.links[a.link].task;
    forall c | 0 <= c < |s.lim.calls| && s.lim.calls[c].phase.HoldsSlot() ensures TaskOf(s, c) != t {
      BusyCallHasTask(s, c);
    }
    SlotsAreFree(s, {t});
    assert Unfinished(Next(s, a).tasks) == Unfinished(s.tasks);
  }

  lemma StartStaysSmall(s: State)
    requires IsSmall(s) && Enabled(s, StartIteration)
    ensures IsSmall(Next(s, StartIteration))
  {
    assert Unfinished(s.tasks) == {};
  }

  lemma FewerUnfinished(before: seq<Task>, after: seq<Task>)
    requires |before| == |after| && forall t :: 0 <= t < |before| && before[t].Done? ==> after[t].Done?
    ensures |Unfinished(after)| <= |Unfinished(before)|
  {
    SubsetCount(Unfinished(after), Unfinished(before));
  }

  lemma StepStaysSmall(s: State, a: Action)
    requires Inv(s) && IsSmall(s) && Enabled(s, a)
    ensures IsSmall(Next(s, a))
  {
    if a.Spawn? {
      SpawnStaysSmall(s);
    } else if a.BeginLink? {
      BeginLinkStaysSmall(s, a);
    } else if a.StartIteration? {
      StartStaysSmall(s);
    } else {
      if a.ReleaseCall? { StepAdvancesPhases(s, a); }
      FewerUnfinished(s.tasks, Next(s, a).tasks);
    }
  }

  /** If every iteration fits into the slots, no call is ever postponed. */
  lemma {:induction false} SmallRunsNeverPostpone(plan: seq<nat>, trace: seq<State>, k: nat)
    requires FitsSlots(plan) && Behavior(plan, trace) && k < |trace|
    ensures IsSmall(trace[k])
  {
    if k > 0 {
      SmallRunsNeverPostpone(plan, trace, k - 1);
      ReachableStatesSatisfyInv(plan, trace, k - 1);
      var a := StepOfBehavior(plan, trace, k - 1);
      StepStaysSmall(trace[k - 1], a);
    }
  }

  // ---------- A larger iteration can hang ----------

  ghost predicate NothingThrew(s: State) {
    forall c :: 0 <= c < |s.lim.calls| ==> s.lim.calls[c].phase !in {Settled(false), Released(false)}
  }

  lemma GoodStep(s: State, a: Action)
    requires Inv(s) && NothingThrew(s) && Enabled(s, a) && (a.SettleCall? ==> a.ok) && !a.StartIteration?
    ensures NothingThrew(Next(s, a)) && Next(s, a).plan == s.plan
  {
    if a.ReleaseCall? { ReleaseKeepsLimiter(s.lim, a.call); }
  }

  // Without failures a run can go on until only the next iteration is left to start.
  lemma {:induction false} RunUntilQuiet(plan: seq<nat>, trace: seq<State>) returns (more: seq<State>)
    requires Behavior(plan, trace) && NothingThrew(trace[|trace| - 1])
    ensures Behavior(plan, more)
    ensures var s := more[|more| - 1];
            Quiet(s) && NothingThrew(s) && s.plan == trace[|trace| - 1].plan
    decreases WorkLeft(trace[|trace| - 1])
  {
    var s := trace[|trace| - 1];
    if Quiet(s) {
      more := trace;
    } else {
      var a: Action :| !a.StartIteration? && Enabled(s, a);
      var b := if a.SettleCall? then SettleCall(a.call, true) else a;
      ReachableStatesSatisfyInv(plan, trace, |trace| - 1);
      StepDecreasesWork(s, b);
      GoodStep(s, b);
      ExtendBehavior(plan, trace, b);
      more := RunUntilQuiet(plan, trace + [Next(s, b)]);
    }
  }

  lemma {:induction false} RunUntilTerminal(plan: seq<nat>, trace: seq<State>) returns (more: seq<State>)
    requires Behavior(plan, trace)
    ensures IsMaximal(plan, more) && |trace| <= |more| && more[..|trace|] == trace
    decreases WorkLeft(trace[|trace| - 1])
  {
    var s := trace[|trace| - 1];
    if Terminal(s) {
      more := trace;
      assert more[..|trace|] == trace;
    } else {
      var a :| Enabled(s, a);
      ReachableStatesSatisfyInv(plan, trace, |trace| - 1);
      StepDecreasesWork(s, a);
      ExtendBehavior(plan, trace, a);
      more := RunUntilTerminal(plan, trace + [Next(s, a)]);
      assert more[..|trace|] == (trace + [Next(s, a)])[..|trace|];
    }
  }

  // Between iterations: all calls are released, and all slots are free.
  ghost predicate IsBetween(s: State) {
    && s.spawnLeft == 0 && AllDone(s) && NothingThrew(s)
    && s.lim.active == 0 && s.lim.queue == []
  }

  lemma QuietIsBetween(s: State)
    requires Inv(s) && Quiet(s) && NothingThrew(s)
    ensures IsBetween(s)
  {
    assert !Enabled(s, Spawn);
    forall c | 0 <= c < |s.lim.calls| ensures s.lim.calls[c].phase.Released? && !s.lim.calls[c].Lost() {
      QuietCallsAreReleased(s, c);
    }
    forall t | 0 <= t < |s.tasks| ensures s.tasks[t].Done? {
      QuietTasksAreDone(s, t);
    }
    NobodyBusy(s.lim.calls);
  }

  // A run can complete the first iterations without a failure.
  lemma {:induction false} ReachIteration(plan: seq<nat>, i: nat) returns (trace: seq<State>)
    requires i <= |plan|
    ensures Behavior(plan, trace)
    ensures IsBetween(trace[|trace| - 1]) && trace[|trace| - 1].plan == plan[i..]
  {
    if i == 0 {
      trace := [InitialState(plan)];
    } else {
      trace := ReachIteration(plan, i - 1);
      ExtendBehavior(plan, trace, StartIteration);
      var next := Next(trace[|trace| - 1], StartIteration);
      assert next.plan == plan[i..];
      trace := RunUntilQuiet(plan, trace + [next]);
      ReachableStatesSatisfyInv(plan, trace, |trace| - 1);
      QuietIsBetween(trace[|trace| - 1]);
    }
  }

  // The first calls of an iteration run, all others wait, in order. `base` calls are from earlier iterations.
  ghost predicate IsSpawned(s: State, base: nat, n: nat) {
    && |s.lim.calls| == base + n
    && s.lim.active == (if n <= MAX_CONCURRENT_RPC_CALLS then n else MAX_CONCURRENT_RPC_CALLS)
    && (forall c :: base <= c < base + n ==> IsSpawnedCall(s.lim.calls[c], c - base))
    && s.lim.queue == seq(if n <= MAX_CONCURRENT_RPC_CALLS then 0 else n - MAX_CONCURRENT_RPC_CALLS,
                          j requires 0 <= j => base + MAX_CONCURRENT_RPC_CALLS + j)
  }

  predicate IsSpawnedCall(c: Call, i: nat) {
    && c.waited == (i >= MAX_CONCURRENT_RPC_CALLS)
    && c.phase == if i >= MAX_CONCURRENT_RPC_CALLS then Queued else Running
  }

  lemma {:induction false} SpawnAll(plan: seq<nat>, trace: seq<State>, base: nat, n: nat) returns (more: seq<State>)
    requires Behavior(plan, trace) && IsSpawned(trace[|trace| - 1], base, n)
    ensures Behavior(plan, more)
    ensures var s := more[|more| - 1];
            s.spawnLeft == 0 && IsSpawned(s, base, n + trace[|trace| - 1].spawnLeft)
    decreases trace[|trace| - 1].spawnLeft
  {
    var s := trace[|trace| - 1];
    if s.spawnLeft == 0 {
      more := trace;
    } else {
      ExtendBehavior(plan, trace, Spawn);
      OneMoreIsSpawned(s, base, n);
      more := SpawnAll(plan, trace + [Next(s, Spawn)], base, n + 1);
    }
  }

  lemma OneMoreIsSpawned(s: State, base: nat, n: nat)
    requires IsSpawned(s, base, n) && Enabled(s, Spawn)
    ensures IsSpawned(Next(s, Spawn), base, n + 1)
  {
    var u := Next(s, Spawn);
    forall c | base <= c < base + n + 1 ensures IsSpawnedCall(u.lim.calls[c], c - base) {
      if c < base + n { assert u.lim.calls[c] == s.lim.calls[c]; }
    }
  }

  // The first waiting call gets the slot of a call that ends, and throws.
  lemma LoseCall(plan: seq<nat>, trace: seq<State>, base: nat, n: nat) returns (more: seq<State>)
    requires Behavior(plan, trace) && IsSpawned(trace[|trace| - 1], base, n) && n > MAX_CONCURRENT_RPC_CALLS
    requires trace[|trace| - 1].spawnLeft == 0
    ensures Behavior(plan, more) && LostAt(more[|more| - 1], base + MAX_CONCURRENT_RPC_CALLS)
  {
    var s, lost := trace[|trace| - 1], base + MAX_CONCURRENT_RPC_CALLS;
    ReachableStatesSatisfyInv(plan, trace, |trace| - 1);
    assert IsSpawnedCall(s.lim.calls[base], 0) && IsSpawnedCall(s.lim.calls[lost], MAX_CONCURRENT_RPC_CALLS);
    ExtendBehavior(plan, trace, SettleCall(base, true));
    var s1 := Next(s, SettleCall(base, true));
    StepKeepsInv(s, SettleCall(base, true));
    more := trace + [s1];
    ExtendBehavior(plan, more, ReleaseCall(base));
    ReleaseKeepsLimiter(s1.lim, base);
    var s2 := Next(s1, ReleaseCall(base));
    more := more + [s2];
    assert s2.lim.calls[lost].phase.Running? && s2.lim.calls[lost].waited;
    ExtendBehavior(plan, more, SettleCall(lost, false));
    more := more + [Next(s2, SettleCall(lost, false))];
  }

  lemma LargeIterationCanHang(plan: seq<nat>, i: nat) returns (trace: seq<State>)
    requires i < |plan| && plan[i] > MAX_CONCURRENT_RPC_CALLS
    ensures IsMaximal(plan, trace) && !Finished(trace[|trace| - 1])
  {
    trace := ReachIteration(plan, i);
    var s := trace[|trace| - 1];
    var base := |s.lim.calls|;
    ExtendBehavior(plan, trace, StartIteration);
    trace := SpawnAll(plan, trace + [Next(s, StartIteration)], base, 0);
    trace := LoseCall(plan, trace, base, plan[i]);
    var more := RunUntilTerminal(plan, trace);
    assert more[|trace| - 1] == trace[|trace| - 1];
    LostCallNeverFinishes(plan, more, |trace| - 1, |more| - 1, base + MAX_CONCURRENT_RPC_CALLS);
    trace := more;
  }

  /** All runs finish, whatever throws, if and only if no iteration has more transactions than there are slots. */
  lemma AlwaysFinishesIff(plan: seq<nat>)
    ensures AlwaysFinishes(plan) <==> FitsSlots(plan)
  {
    if FitsSlots(plan) {
      forall trace | IsMaximal(plan, trace) ensures Finished(trace[|trace| - 1]) {
        SmallRunsNeverPostpone(plan, trace, |trace| - 1);
        EveryMaximalRunFinishes(plan, trace);
      }
    } else {
      var i :| 0 <= i < |plan| && plan[i] > MAX_CONCURRENT_RPC_CALLS;
      var trace := LargeIterationCanHang(plan, i);
      assert IsMaximal(plan, trace);
    }
  }

  /** The program runs two iterations of 50 to 150 transactions, and can therefore hang. */
  lemma ProgramCanHang(first: nat, second: nat)
    requires 50 <= first <= 150 && 50 <= second <= 150
    ensures !AlwaysFinishes([first, second])
  {
    assert [first, second][0] > MAX_CONCURRENT_RPC_CALLS;
    AlwaysFinishesIff([first, second]);
  }
}
