/**
 The transaction generator (infrastructure/via/src/transactions.ts:49-103): tasks that create a transaction
 through the limiter and then fund, sign and send it under a lock made of chained promises, in several
 iterations. A step is the code between two awaits; calls may settle in any order and may throw.
 */
module TransactionTasks {
  import opened RpcLimiter

  datatype Task =
    | Creating(call: nat)   // awaits `createrawtransaction`
    | Chained(link: nat)    // awaits its link of the lock
    | Done(ok: bool)
  {
    function Work(): nat {
      match this
      case Creating(_) => 10
      case Chained(_) => 1
      case Done(_) => 0
    }
  }

  // A promise `fundTxLock.then(...)`.
  datatype LinkStatus = Pending | InCall(call: nat) | Fulfilled | Rejected {
    predicate Final() { Fulfilled? || Rejected? }
    function Work(): nat {
      match this
      case Pending => 6
      case InCall(_) => 1
      case Fulfilled => 0
      case Rejected => 0
    }
  }

  datatype Link = Link(task: nat, status: LinkStatus)

  // `links` in the order in which they were chained; the last one is the value of `fundTxLock`. `spawnLeft` tasks
  // of the current iteration are still to be created, `plan` holds the sizes of the iterations to come.
  datatype State = State(lim: Limiter, tasks: seq<Task>, links: seq<Link>, spawnLeft: nat, plan: seq<nat>)

  datatype Action =
    | StartIteration
    | Spawn
    | SettleCall(call: nat, ok: bool)
    | ReleaseCall(call: nat)
    | ResumeTask(task: nat)
    | BeginLink(link: nat)
    | PoisonLink(link: nat)
    | EndLink(link: nat)
    | EndTask(task: nat)

  // ---------- Steps ----------

  ghost predicate AllDone(s: State) {
    forall t :: 0 <= t < |s.tasks| ==> s.tasks[t].Done?
  }

  // The promise before link `k` in the chain is fulfilled.
  predicate PreviousFulfilled(links: seq<Link>, k: nat)
    requires k < |links|
  {
    k == 0 || links[k - 1].status.Fulfilled?
  }

  predicate CanConsume(l: Limiter, c: nat) {
    c < |l.calls| && l.calls[c].Consumable()
  }

  // The tasks of an iteration are created in one go; everything else waits for that.
  ghost predicate Enabled(s: State, a: Action) {
    if a.Spawn? then s.spawnLeft > 0 else s.spawnLeft == 0 && EnabledOutsideLoop(s, a)
  }

  ghost predicate EnabledOutsideLoop(s: State, a: Action)
    requires !a.Spawn?
  {
    match a
    case StartIteration => s.plan != [] && AllDone(s)
    case SettleCall(c, _) => c < |s.lim.calls| && s.lim.calls[c].phase.Running?
    case ReleaseCall(c) => c < |s.lim.calls| && s.lim.calls[c].phase.Settled? && QueueIsValid(s.lim)
    case ResumeTask(t) =>
      t < |s.tasks| && s.tasks[t].Creating? && CanConsume(s.lim, s.tasks[t].call)
    case BeginLink(k) => k < |s.links| && s.links[k].status.Pending? && PreviousFulfilled(s.links, k)
    case PoisonLink(k) => k < |s.links| && s.links[k].status.Pending? && k > 0 && s.links[k - 1].status.Rejected?
    case EndLink(k) =>
      k < |s.links| && s.links[k].status.InCall? && CanConsume(s.lim, s.links[k].status.call)
    case EndTask(t) =>
      && t < |s.tasks| && s.tasks[t].Chained?
      && s.tasks[t].link < |s.links| && s.links[s.tasks[t].link].status.Final()
  }

  function SetLink(links: seq<Link>, k: nat, status: LinkStatus): seq<Link>
    requires k < |links|
  {
    links[k := links[k].(status := status)]
  }

  ghost function Next(s: State, a: Action): State
    requires Enabled(s, a)
  {
    match a
    case StartIteration => s.(spawnLeft := s.plan[0], plan := s.plan[1..])
    case Spawn =>
      s.(lim := Submit(s.lim, CreateOf(|s.tasks|)),
         tasks := s.tasks + [Creating(|s.lim.calls|)],
         spawnLeft := s.spawnLeft - 1)
    case SettleCall(c, ok) => s.(lim := Settle(s.lim, c, ok))
    case ReleaseCall(c) => s.(lim := Release(s.lim, c))
    case ResumeTask(t) =>
      if s.lim.calls[s.tasks[t].call].Resolved() then
        s.(links := s.links + [Link(t, Pending)], tasks := s.tasks[t := Chained(|s.links|)])
      else
        s.(tasks := s.tasks[t := Done(false)])
    case BeginLink(k) =>
      s.(lim := Submit(s.lim, FundOf(k)), links := SetLink(s.links, k, InCall(|s.lim.calls|)))
    case PoisonLink(k) => s.(links := SetLink(s.links, k, Rejected))
    case EndLink(k) =>
      var ok := s.lim.calls[s.links[k].status.call].Resolved();
      s.(links := SetLink(s.links, k, if ok then Fulfilled else Rejected))
    case EndTask(t) => s.(tasks := s.tasks[t := Done(s.links[s.tasks[t].link].status.Fulfilled?)])
  }

  function InitialState(plan: seq<nat>): State {
    State(Limiter(0, [], []), [], [], 0, plan)
  }

  ghost predicate IsStep(s: State, t: State) {
    exists a :: Enabled(s, a) && t == Next(s, a)
  }

  ghost predicate Behavior(plan: seq<nat>, trace: seq<State>) {
    && |trace| > 0
    && trace[0] == InitialState(plan)
    && forall k :: 0 <= k < |trace| - 1 ==> StepsAt(trace, k)
  }

  ghost predicate StepsAt(trace: seq<State>, k: nat)
    requires k + 1 < |trace|
  {
    IsStep(trace[k], trace[k + 1])
  }

  // ---------- Invariant ----------

  // Somebody still awaits the call, or its outcome can be consumed.
  ghost predicate CallOk(s: State, c: nat)
    requires c < |s.lim.calls|
  {
    match s.lim.calls[c].owner
    case CreateOf(t) => t < |s.tasks| && (s.tasks[t] == Creating(c) || s.lim.calls[c].Consumable())
    case FundOf(k) => k < |s.links| && (s.links[k].status == InCall(c) || s.lim.calls[c].Consumable())
  }

  ghost predicate TaskOk(s: State, t: nat)
    requires t < |s.tasks|
  {
    match s.tasks[t]
    case Creating(c) => c < |s.lim.calls| && s.lim.calls[c].owner == CreateOf(t)
    case Chained(k) => k < |s.links| && s.links[k].task == t
    case Done(_) => true
  }

  ghost predicate LinkOk(s: State, k: nat)
    requires k < |s.links|
  {
    var link := s.links[k];
    && link.task < |s.tasks|
    && (s.tasks[link.task] == Chained(k) || (s.tasks[link.task].Done? && link.status.Final()))
    && (link.status.InCall? ==> link.status.call < |s.lim.calls| && s.lim.calls[link.status.call].owner == FundOf(k))
    && (link.status.InCall? || link.status.Fulfilled? ==> PreviousFulfilled(s.links, k))
  }

  ghost predicate Inv(s: State) {
    && LimiterOk(s.lim)
    && (forall c :: 0 <= c < |s.lim.calls| ==> CallOk(s, c))
    && (forall t :: 0 <= t < |s.tasks| ==> TaskOk(s, t))
    && (forall k :: 0 <= k < |s.links| ==> LinkOk(s, k))
  }

  // Steps of calls keep owners, and an outcome that can be consumed stays so.
  ghost predicate CallsMove(l: Limiter, r: Limiter) {
    && |l.calls| <= |r.calls|
    && forall c :: 0 <= c < |l.calls| ==>
         && r.calls[c].owner == l.calls[c].owner
         && (l.calls[c].Consumable() ==> r.calls[c].Consumable())
  }

  lemma ReleaseMoves(l: Limiter, id: nat)
    requires LimiterOk(l) && id < |l.calls| && l.calls[id].phase.Settled?
    ensures CallsMove(l, Release(l, id)) && |Release(l, id).calls| == |l.calls|
  {
    ReleaseKeepsLimiter(l, id);
  }

  // A step of the limiter alone keeps the rest of the invariant.
  lemma LimiterStepKeepsInv(s: State, r: Limiter)
    requires Inv(s) && LimiterOk(r) && CallsMove(s.lim, r) && |r.calls| == |s.lim.calls|
    ensures Inv(s.(lim := r))
  {
    var u := s.(lim := r);
    forall c | 0 <= c < |u.lim.calls| ensures CallOk(u, c) { assert CallOk(s, c); }
    forall t | 0 <= t < |u.tasks| ensures TaskOk(u, t) { assert TaskOk(s, t); }
    forall k | 0 <= k < |u.links| ensures LinkOk(u, k) { assert LinkOk(s, k); }
  }

  lemma SpawnKeepsInv(s: State)
    requires Inv(s) && Enabled(s, Spawn)
    ensures Inv(Next(s, Spawn))
  {
    var u := Next(s, Spawn);
    SubmitKeepsLimiter(s.lim, CreateOf(|s.tasks|));
    forall c | 0 <= c < |u.lim.calls| ensures CallOk(u, c) {
      if c < |s.lim.calls| { assert CallOk(s, c); }
    }
    forall t | 0 <= t < |u.tasks| ensures TaskOk(u, t) {
      if t < |s.tasks| { assert TaskOk(s, t); }
    }
    forall k | 0 <= k < |u.links| ensures LinkOk(u, k) { assert LinkOk(s, k); }
  }

  lemma ResumeKeepsInv(s: State, a: Action)
    requires Inv(s) && a.ResumeTask? && Enabled(s, a)
    ensures Inv(Next(s, a))
  {
    var u := Next(s, a);
    assert TaskOk(s, a.task);
    forall c | 0 <= c < |u.lim.calls| ensures CallOk(u, c) { assert CallOk(s, c); }
    forall t | 0 <= t < |u.tasks| ensures TaskOk(u, t) { assert TaskOk(s, t); }
    forall k | 0 <= k < |u.links| ensures LinkOk(u, k) {
      if k < |s.links| { assert LinkOk(s, k); }
    }
  }

  lemma BeginLinkKeepsInv(s: State, a: Action)
    requires Inv(s) && a.BeginLink? && Enabled(s, a)
    ensures Inv(Next(s, a))
  {
    var u := Next(s, a);
    SubmitKeepsLimiter(s.lim, FundOf(a.link));
    forall c | 0 <= c < |u.lim.calls| ensures CallOk(u, c) {
      if c < |s.lim.calls| { assert CallOk(s, c); }
    }
    forall t | 0 <= t < |u.tasks| ensures TaskOk(u, t) { assert TaskOk(s, t); }
    forall k | 0 <= k < |u.links| ensures LinkOk(u, k) { assert LinkOk(s, k); }
  }

  lemma EndingKeepsInv(s: State, a: Action)
    requires Inv(s) && (a.PoisonLink? || a.EndLink? || a.EndTask?) && Enabled(s, a)
    ensures Inv(Next(s, a))
  {
    var u := Next(s, a);
    if !a.EndTask? { assert LinkOk(s, a.link); } else { assert TaskOk(s, a.task); }
    forall c | 0 <= c < |u.lim.calls| ensures CallOk(u, c) { assert CallOk(s, c); }
    forall t | 0 <= t < |u.tasks| ensures TaskOk(u, t) { assert TaskOk(s, t); }
    forall k | 0 <= k < |u.links| ensures LinkOk(u, k) { assert LinkOk(s, k); }
  }

  lemma StepKeepsInv(s: State, a: Action)
    requires Inv(s) && Enabled(s, a)
    ensures Inv(Next(s, a))
  {
    match a
    case StartIteration =>
      var u := Next(s, a);
      forall c | 0 <= c < |u.lim.calls| ensures CallOk(u, c) { assert CallOk(s, c); }
      forall t | 0 <= t < |u.tasks| ensures TaskOk(u, t) { assert TaskOk(s, t); }
      forall k | 0 <= k < |u.links| ensures LinkOk(u, k) { assert LinkOk(s, k); }
    case Spawn => SpawnKeepsInv(s);
    case SettleCall(c, ok) =>
      SettleKeepsLimiter(s.lim, c, ok);
      LimiterStepKeepsInv(s, Settle(s.lim, c, ok));
    case ReleaseCall(c) =>
      ReleaseKeepsLimiter(s.lim, c);
      ReleaseMoves(s.lim, c);
      LimiterStepKeepsInv(s, Release(s.lim, c));
    case ResumeTask(_) => ResumeKeepsInv(s, a);
    case BeginLink(_) => BeginLinkKeepsInv(s, a);
    case _ => EndingKeepsInv(s, a);
  }

  lemma StepOfBehavior(plan: seq<nat>, trace: seq<State>, k: nat) returns (a: Action)
    requires Behavior(plan, trace) && k + 1 < |trace|
    ensures Enabled(trace[k], a) && trace[k + 1] == Next(trace[k], a)
  {
    assert StepsAt(trace, k);
    a :| Enabled(trace[k], a) && trace[k + 1] == Next(trace[k], a);
  }

  /** Every state of every run satisfies the invariant, runs in which calls throw included. */
  lemma {:induction false} ReachableStatesSatisfyInv(plan: seq<nat>, trace: seq<State>, k: nat)
    requires Behavior(plan, trace) && k < |trace|
    ensures Inv(trace[k])
  {
    if k > 0 {
      ReachableStatesSatisfyInv(plan, trace, k - 1);
      var a := StepOfBehavior(plan, trace, k - 1);
      StepKeepsInv(trace[k - 1], a);
    }
  }

  // ---------- Safety ----------

  /** The counter equals the number of calls that hold a slot and is at most ten, waiting calls mean that all
      slots are taken, and the calls that have started are a prefix of the calls in submission order. */
  lemma LimiterIsFair(plan: seq<nat>, trace: seq<State>, k: nat, i: nat, j: nat)
    requires Behavior(plan, trace) && k < |trace|
    ensures var l := trace[k].lim;
            && l.active == Busy(l.calls) <= 10
            && (l.queue != [] ==> l.active == 10)
            && (i <= j < |l.calls| && !l.calls[j].phase.Queued? ==> !l.calls[i].phase.Queued?)
  {
    ReachableStatesSatisfyInv(plan, trace, k);
  }

  // A call only moves forward through its phases.
  predicate Advances(c: Call, d: Call) {
    && d.owner == c.owner
    && d.waited == c.waited
    && (d.phase == c.phase || d.phase.Rank() < c.phase.Rank())
  }

  ghost predicate PhasesAdvance(l: Limiter, r: Limiter) {
    |l.calls| <= |r.calls| && forall c :: 0 <= c < |l.calls| ==> Advances(l.calls[c], r.calls[c])
  }

  lemma PhasesTransitive(l: Limiter, m: Limiter, r: Limiter)
    requires PhasesAdvance(l, m) && PhasesAdvance(m, r)
    ensures PhasesAdvance(l, r)
  {
    forall c | 0 <= c < |l.calls| ensures Advances(l.calls[c], r.calls[c]) {
      assert Advances(l.calls[c], m.calls[c]) && Advances(m.calls[c], r.calls[c]);
    }
  }

  lemma StepAdvancesPhases(s: State, a: Action)
    requires Inv(s) && Enabled(s, a)
    ensures PhasesAdvance(s.lim, Next(s, a).lim)
  {
    if a.ReleaseCall? { ReleaseKeepsLimiter(s.lim, a.call); }
  }

  lemma PhasesAdvanceOnce(plan: seq<nat>, trace: seq<State>, k: nat)
    requires Behavior(plan, trace) && k + 1 < |trace|
    ensures PhasesAdvance(trace[k].lim, trace[k + 1].lim)
  {
    ReachableStatesSatisfyInv(plan, trace, k);
    var a := StepOfBehavior(plan, trace, k);
    StepAdvancesPhases(trace[k], a);
  }

  /** A call starts at most once and never returns to an earlier phase. */
  lemma {:induction false} CallsNeverRestart(plan: seq<nat>, trace: seq<State>, j: nat, k: nat)
    requires Behavior(plan, trace) && j <= k < |trace|
    ensures PhasesAdvance(trace[j].lim, trace[k].lim)
    decreases k
  {
    if j < k {
      CallsNeverRestart(plan, trace, j, k - 1);
      PhasesAdvanceOnce(plan, trace, k - 1);
      PhasesTransitive(trace[j].lim, trace[k - 1].lim, trace[k].lim);
    }
  }

  // Before a link that began, all links are fulfilled.
  lemma {:induction false} EarlierLinksFulfilled(s: State, j: nat, k: nat)
    requires Inv(s) && j < k < |s.links|
    requires s.links[k].status.InCall? || s.links[k].status.Fulfilled?
    ensures s.links[j].status.Fulfilled?
    decreases k
  {
    assert LinkOk(s, k);
    if j < k - 1 {
      EarlierLinksFulfilled(s, j, k - 1);
    }
  }

  /** The sequences of fund, sign and send that completed are a prefix of the order in which they were chained,
      and at most one is in progress, right after that prefix; whatever fails. */
  lemma FundingIsSerial(plan: seq<nat>, trace: seq<State>, n: nat, j: nat, k: nat)
    requires Behavior(plan, trace) && n < |trace|
    requires j < k < |trace[n].links|
    ensures var links := trace[n].links;
            && (links[k].status.Fulfilled? ==> links[j].status.Fulfilled?)
            && (links[k].status.InCall? ==> links[j].status.Fulfilled?)
            && !(links[j].status.InCall? && links[k].status.InCall?)
  {
    ReachableStatesSatisfyInv(plan, trace, n);
    if trace[n].links[k].status.InCall? || trace[n].links[k].status.Fulfilled? {
      EarlierLinksFulfilled(trace[n], j, k);
    }
  }

  /** At most one funding call waits or runs at a time. */
  lemma OneFundingCall(plan: seq<nat>, trace: seq<State>, n: nat, c: nat, d: nat)
    requires Behavior(plan, trace) && n < |trace|
    requires c < |trace[n].lim.calls| && d < |trace[n].lim.calls|
    requires trace[n].lim.calls[c].owner.FundOf? && trace[n].lim.calls[d].owner.FundOf?
    requires trace[n].lim.calls[c].phase.Running? || trace[n].lim.calls[c].phase.Queued?
    requires trace[n].lim.calls[d].phase.Running? || trace[n].lim.calls[d].phase.Queued?
    ensures c == d
  {
    ReachableStatesSatisfyInv(plan, trace, n);
    var s := trace[n];
    assert CallOk(s, c) && CallOk(s, d);
    var j, k := s.lim.calls[c].owner.link, s.lim.calls[d].owner.link;
    if j < k {
      EarlierLinksFulfilled(s, j, k);
    } else if k < j {
      EarlierLinksFulfilled(s, k, j);
    }
  }

  // ---------- Progress ----------

  function Sum(plan: seq<nat>): nat {
    if plan == [] then 0 else plan[0] + Sum(plan[1..])
  }

  function TaskWork(tasks: seq<Task>): nat {
    if tasks == [] then 0 else TaskWork(tasks[..|tasks| - 1]) + tasks[|tasks| - 1].Work()
  }

  function LinkWork(links: seq<Link>): nat {
    if links == [] then 0 else LinkWork(links[..|links| - 1]) + links[|links| - 1].status.Work()
  }

  lemma {:induction false} TaskWorkAfterUpdate(tasks: seq<Task>, i: nat, t: Task)
    requires i < |tasks|
    ensures TaskWork(tasks[i := t]) == TaskWork(tasks) - tasks[i].Work() + t.Work()
  {
    var init := tasks[..|tasks| - 1];
    if i < |init| {
      TaskWorkAfterUpdate(init, i, t);
      assert tasks[i := t][..|tasks| - 1] == init[i := t];
    } else {
      assert tasks[i := t][..|tasks| - 1] == init;
    }
  }

  lemma {:induction false} LinkWorkAfterUpdate(links: seq<Link>, i: nat, link: Link)
    requires i < |links|
    ensures LinkWork(links[i := link]) == LinkWork(links) - links[i].status.Work() + link.status.Work()
  {
    var init := links[..|links| - 1];
    if i < |init| {
      LinkWorkAfterUpdate(init, i, link);
      assert links[i := link][..|links| - 1] == init[i := link];
    } else {
      assert links[i := link][..|links| - 1] == init;
    }
  }

  lemma {:induction false} WorkAfterAppend(tasks: seq<Task>, t: Task, links: seq<Link>, link: Link)
    ensures TaskWork(tasks + [t]) == TaskWork(tasks) + t.Work()
    ensures LinkWork(links + [link]) == LinkWork(links) + link.status.Work()
  {
    assert (tasks + [t])[..|tasks|] == tasks;
    assert (links + [link])[..|links|] == links;
  }

  // Queued, running and chained work together.
  function WorkLeft(s: State): nat {
    14 * (s.spawnLeft + Sum(s.plan)) + |s.plan| + TaskWork(s.tasks) + LinkWork(s.links) + CallWork(s.lim.calls)
  }

  lemma TaskStepDecreasesWork(s: State, a: Action)
    requires Enabled(s, a) && (a.ResumeTask? || a.EndTask? || a.Spawn?)
    ensures WorkLeft(Next(s, a)) < WorkLeft(s)
  {
    if a.Spawn? {
      SubmitWork(s.lim, CreateOf(|s.tasks|));
      WorkAfterAppend(s.tasks, Creating(|s.lim.calls|), s.links, Link(0, Pending));
    } else {
      TaskWorkAfterUpdate(s.tasks, a.task, Next(s, a).tasks[a.task]);
      WorkAfterAppend(s.tasks, Done(true), s.links, Link(a.task, Pending));
    }
  }

  lemma LinkStepDecreasesWork(s: State, a: Action)
    requires Enabled(s, a) && (a.BeginLink? || a.PoisonLink? || a.EndLink?)
    ensures WorkLeft(Next(s, a)) < WorkLeft(s)
  {
    LinkWorkAfterUpdate(s.links, a.link, Next(s, a).links[a.link]);
    if a.BeginLink? { SubmitWork(s.lim, FundOf(a.link)); }
  }

  lemma StepDecreasesWork(s: State, a: Action)
    requires Inv(s) && Enabled(s, a)
    ensures WorkLeft(Next(s, a)) < WorkLeft(s)
  {
    if a.SettleCall? {
      CallWorkAfterUpdate(s.lim.calls, a.call, s.lim.calls[a.call].(phase := Settled(a.ok)));
    } else if a.ReleaseCall? {
      ReleaseWork(s.lim, a.call);
    } else if a.BeginLink? || a.PoisonLink? || a.EndLink? {
      LinkStepDecreasesWork(s, a);
    } else if !a.StartIteration? {
      TaskStepDecreasesWork(s, a);
    }
  }

  /** Every run ends: it has at most fourteen steps per transaction and one per iteration. */
  lemma {:induction false} RunsAreBounded(plan: seq<nat>, trace: seq<State>, k: nat)
    requires Behavior(plan, trace) && k < |trace|
    ensures k + WorkLeft(trace[k]) <= 14 * Sum(plan) + |plan|
  {
    if k > 0 {
      RunsAreBounded(plan, trace, k - 1);
      ReachableStatesSatisfyInv(plan, trace, k - 1);
      var a := StepOfBehavior(plan, trace, k - 1);
      StepDecreasesWork(trace[k - 1], a);
    }
  }

  ghost predicate Terminal(s: State) {
    forall a :: !Enabled(s, a)
  }

  // Nothing can be done but to start the next iteration.
  ghost predicate Quiet(s: State) {
    forall a: Action :: !a.StartIteration? ==> !Enabled(s, a)
  }

  // No postponed call has thrown.
  ghost predicate NoneLost(s: State) {
    forall c :: 0 <= c < |s.lim.calls| ==> !s.lim.calls[c].Lost()
  }

  ghost predicate Finished(s: State) {
    AllDone(s) && s.spawnLeft == 0 && s.plan == []
  }

  lemma QuietCallsAreReleased(s: State, c: nat)
    requires Inv(s) && Quiet(s) && c < |s.lim.calls|
    ensures s.lim.calls[c].phase.Released?
  {
    assert !Enabled(s, Spawn);
    forall i | 0 <= i < |s.lim.calls| ensures !s.lim.calls[i].phase.HoldsSlot() {
      assert !Enabled(s, SettleCall(i, true)) && !Enabled(s, ReleaseCall(i));
    }
    NobodyBusy(s.lim.calls);
  }

  // In a state where nothing can move and no outcome was lost, the lock is through with all its links.
  lemma {:induction false} QuietLinksAreFinal(s: State, k: nat)
    requires Inv(s) && Quiet(s) && k < |s.links|
    requires NoneLost(s)
    ensures s.links[k].status.Final()
  {
    assert LinkOk(s, k);
    if k > 0 { QuietLinksAreFinal(s, k - 1); }
    assert !Enabled(s, Spawn) && !Enabled(s, BeginLink(k)) && !Enabled(s, PoisonLink(k)) && !Enabled(s, EndLink(k));
    if s.links[k].status.InCall? {
      QuietCallsAreReleased(s, s.links[k].status.call);
    }
  }

  lemma QuietTasksAreDone(s: State, t: nat)
    requires Inv(s) && Quiet(s) && t < |s.tasks|
    requires NoneLost(s)
    ensures s.tasks[t].Done?
  {
    assert TaskOk(s, t);
    assert !Enabled(s, Spawn) && !Enabled(s, ResumeTask(t)) && !Enabled(s, EndTask(t));
    match s.tasks[t]
    case Creating(c) => QuietCallsAreReleased(s, c);
    case Chained(k) => QuietLinksAreFinal(s, k);
    case Done(_) =>
  }

  lemma LostCallBlocksTask(s: State, c: nat)
    requires Inv(s) && c < |s.lim.calls| && s.lim.calls[c].Lost()
    ensures !AllDone(s)
  {
    assert CallOk(s, c);
    match s.lim.calls[c].owner
    case CreateOf(t) => assert s.tasks[t] == Creating(c);
    case FundOf(k) =>
      assert LinkOk(s, k);
      assert s.tasks[s.links[k].task] == Chained(k);
  }

  /** The limiter and the lock never deadlock: where a run cannot go on, every call has run, and the program
      has finished all its iterations if and only if no call that had been postponed threw. */
  lemma EveryMaximalRunFinishes(plan: seq<nat>, trace: seq<State>)
    requires Behavior(plan, trace) && Terminal(trace[|trace| - 1])
    ensures var s := trace[|trace| - 1];
            && (forall c :: 0 <= c < |s.lim.calls| ==> s.lim.calls[c].phase.Released?)
            && (Finished(s) <==> NoneLost(s))
  {
    var s := trace[|trace| - 1];
    ReachableStatesSatisfyInv(plan, trace, |trace| - 1);
    forall c | 0 <= c < |s.lim.calls| ensures s.lim.calls[c].phase.Released? {
      QuietCallsAreReleased(s, c);
    }
    if c :| 0 <= c < |s.lim.calls| && s.lim.calls[c].Lost() {
      LostCallBlocksTask(s, c);
    } else {
      forall t | 0 <= t < |s.tasks| ensures s.tasks[t].Done? {
        QuietTasksAreDone(s, t);
      }
      assert !Enabled(s, Spawn) && !Enabled(s, StartIteration);
    }
  }

  ghost predicate LostAt(s: State, c: nat) {
    c < |s.lim.calls| && s.lim.calls[c].Lost()
  }

  lemma LostStays(s: State, a: Action, c: nat)
    requires Inv(s) && Enabled(s, a) && LostAt(s, c)
    ensures LostAt(Next(s, a), c)
  {
    if a.ReleaseCall? { ReleaseKeepsLimiter(s.lim, a.call); }
  }

  lemma LostStaysOnce(plan: seq<nat>, trace: seq<State>, k: nat, c: nat)
    requires Behavior(plan, trace) && k + 1 < |trace| && LostAt(trace[k], c)
    ensures LostAt(trace[k + 1], c)
  {
    ReachableStatesSatisfyInv(plan, trace, k);
    var a := StepOfBehavior(plan, trace, k);
    LostStays(trace[k], a, c);
  }

  /** Once a postponed call has thrown, the program never finishes, whatever happens later. */
  lemma {:induction false} LostCallNeverFinishes(plan: seq<nat>, trace: seq<State>, j: nat, k: nat, c: nat)
    requires Behavior(plan, trace) && j <= k < |trace| && LostAt(trace[j], c)
    ensures LostAt(trace[k], c) && !Finished(trace[k])
    decreases k
  {
    if j < k {
      LostCallNeverFinishes(plan, trace, j, k - 1, c);
      LostStaysOnce(plan, trace, k - 1, c);
    }
    ReachableStatesSatisfyInv(plan, trace, k);
    LostCallBlocksTask(trace[k], c);
  }

  lemma ExtendBehavior(plan: seq<nat>, trace: seq<State>, a: Action)
    requires Behavior(plan, trace) && Enabled(trace[|trace| - 1], a)
    ensures Behavior(plan, trace + [Next(trace[|trace| - 1], a)])
  {
    var more := trace + [Next(trace[|trace| - 1], a)];
    forall k | 0 <= k < |more| - 1 ensures StepsAt(more, k) {
      if k < |trace| - 1 { assert StepsAt(trace, k); }
    }
  }
}
