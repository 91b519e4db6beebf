/**
 What becomes of every transaction (infrastructure/via/src/transactions.ts:51-100), told by the calls alone: which one
 is chained to the lock, which one is sent, and which one is given up.
 */
module TransactionOutcomes {
  import opened RpcLimiter
  import opened TransactionTasks
  import opened TransactionLinks

  // ---------- Outcomes ----------

  // The call has run to its end.
  predicate Succeeded(c: Call) {
    (c.phase.Settled? || c.phase.Released?) && c.phase.ok
  }

  predicate Threw(c: Call) {
    (c.phase.Settled? || c.phase.Released?) && !c.phase.ok
  }

  ghost predicate SucceededFor(s: State, c: nat, owner: Owner) {
    c < |s.lim.calls| && s.lim.calls[c].owner == owner && Succeeded(s.lim.calls[c])
  }

  ghost predicate ThrewFor(s: State, c: nat, owner: Owner) {
    c < |s.lim.calls| && s.lim.calls[c].owner == owner && Threw(s.lim.calls[c])
  }

  ghost predicate HasSucceeded(s: State, owner: Owner) {
    exists c :: SucceededFor(s, c, owner)
  }

  ghost predicate HasThrown(s: State, owner: Owner) {
    exists c :: ThrewFor(s, c, owner)
  }

  ghost predicate IsLinkOf(s: State, k: nat, t: nat) {
    k < |s.links| && s.links[k].task == t
  }

  ghost predicate HasLink(s: State, t: nat) {
    exists k :: IsLinkOf(s, k, t)
  }

  // The link of a task in the lock has this status.
  ghost predicate LinkEnds(s: State, t: nat, status: LinkStatus) {
    exists k: nat :: IsLinkOf(s, k, t) && s.links[k].status == status
  }

  // ---------- Outcomes stay ----------

  predicate Remembers(c: Call, d: Call) {
    d.owner == c.owner && (Succeeded(c) ==> Succeeded(d)) && (Threw(c) ==> Threw(d))
  }

  ghost predicate CallsRemember(s: State, u: State) {
    && |s.lim.calls| <= |u.lim.calls|
    && forall c :: 0 <= c < |s.lim.calls| ==> Remembers(s.lim.calls[c], u.lim.calls[c])
  }

  lemma StepRemembers(s: State, a: Action)
    requires Inv(s) && Enabled(s, a)
    ensures CallsRemember(s, Next(s, a))
  {
    if a.ReleaseCall? { ReleaseKeepsLimiter(s.lim, a.call); }
  }

  lemma OutcomesRemain(s: State, u: State, owner: Owner)
    requires CallsRemember(s, u)
    ensures HasSucceeded(s, owner) ==> HasSucceeded(u, owner)
    ensures HasThrown(s, owner) ==> HasThrown(u, owner)
  {
    if c: nat :| SucceededFor(s, c, owner) {
      assert Remembers(s.lim.calls[c], u.lim.calls[c]);
      assert SucceededFor(u, c, owner);
    }
    if c: nat :| ThrewFor(s, c, owner) {
      assert Remembers(s.lim.calls[c], u.lim.calls[c]);
      assert ThrewFor(u, c, owner);
    }
  }

  // ---------- Invariant ----------

  // Nobody submits a second call.
  ghost predicate OwnersDiffer(s: State) {
    forall c, d :: 0 <= c < d < |s.lim.calls| ==> s.lim.calls[c].owner != s.lim.calls[d].owner
  }

  // No task is chained twice.
  ghost predicate TasksDiffer(s: State) {
    forall j, k :: 0 <= j < k < |s.links| ==> s.links[j].task != s.links[k].task
  }

  // A task was chained because its transaction was created, and its link is fulfilled because its funding succeeded.
  ghost predicate LinkHistory(s: State, k: nat)
    requires k < |s.links|
  {
    && HasSucceeded(s, CreateOf(s.links[k].task))
    && (s.links[k].status.Fulfilled? ==> HasSucceeded(s, FundOf(k)))
  }

  // A task is done because its link is through, or because the creation of its transaction threw.
  ghost predicate TaskHistory(s: State, t: nat)
    requires t < |s.tasks|
  {
    s.tasks[t].Done? ==>
      if s.tasks[t].ok then LinkEnds(s, t, Fulfilled)
      else LinkEnds(s, t, Rejected) || (HasThrown(s, CreateOf(t)) && !HasLink(s, t))
  }

  ghost predicate HistoryOk(s: State) {
    && OwnersDiffer(s) && TasksDiffer(s)
    && (forall k :: 0 <= k < |s.links| ==> LinkHistory(s, k))
    && (forall t :: 0 <= t < |s.tasks| ==> TaskHistory(s, t))
  }

  lemma StepKeepsOwners(s: State, a: Action)
    requires Inv(s) && LinkCallsOk(s) && OwnersDiffer(s) && Enabled(s, a)
    ensures OwnersDiffer(Next(s, a))
  {
    var u := Next(s, a);
    StepRemembers(s, a);
    if a.ReleaseCall? { ReleaseKeepsLimiter(s.lim, a.call); }
    forall c, d | 0 <= c < d < |u.lim.calls| ensures u.lim.calls[c].owner != u.lim.calls[d].owner {
      assert Remembers(s.lim.calls[c], u.lim.calls[c]);
      if d < |s.lim.calls| {
        assert Remembers(s.lim.calls[d], u.lim.calls[d]);
      } else {
        assert CallOk(s, c) && FundCallOk(s, c);
      }
    }
  }

  lemma StepKeepsLinkHistory(s: State, a: Action, k: nat)
    requires Inv(s) && Enabled(s, a) && k < |Next(s, a).links|
    requires k < |s.links| ==> LinkHistory(s, k)
    ensures LinkHistory(Next(s, a), k)
  {
    var u := Next(s, a);
    StepRemembers(s, a);
    if k < |s.links| {
      OutcomesRemain(s, u, CreateOf(s.links[k].task));
      OutcomesRemain(s, u, FundOf(k));
      if a == EndLink(k) && u.links[k].status.Fulfilled? {
        assert LinkOk(s, k);
        assert SucceededFor(u, s.links[k].status.call, FundOf(k));
      }
    } else {
      assert TaskOk(s, a.task);
      assert SucceededFor(u, s.tasks[a.task].call, CreateOf(a.task));
    }
  }

  lemma StepKeepsTasks(s: State, a: Action)
    requires Inv(s) && TasksDiffer(s) && Enabled(s, a)
    ensures TasksDiffer(Next(s, a))
  {
    var u := Next(s, a);
    forall j, k | 0 <= j < k < |u.links| ensures u.links[j].task != u.links[k].task {
      assert LinkOk(s, j);
    }
  }

  // Links are never given back, and those that are through stay as they are.
  lemma LinkEndsRemain(s: State, a: Action, t: nat, status: LinkStatus)
    requires Enabled(s, a) && status.Final() && LinkEnds(s, t, status)
    ensures LinkEnds(Next(s, a), t, status)
  {
    var k: nat :| IsLinkOf(s, k, t) && s.links[k].status == status;
    assert IsLinkOf(Next(s, a), k, t);
  }

  lemma StepKeepsTaskHistory(s: State, a: Action, t: nat)
    requires Inv(s) && Enabled(s, a) && t < |Next(s, a).tasks|
    requires t < |s.tasks| ==> TaskHistory(s, t)
    ensures TaskHistory(Next(s, a), t)
  {
    var u := Next(s, a);
    if t < |s.tasks| && u.tasks[t].Done? {
      if s.tasks[t].Done? {
        DoneTaskKeepsHistory(s, a, t);
      } else if a == EndTask(t) {
        assert TaskOk(s, t);
        assert IsLinkOf(u, s.tasks[t].link, t);
      } else {
        GivenUpTaskHasHistory(s, t);
      }
    }
  }

  lemma DoneTaskKeepsHistory(s: State, a: Action, t: nat)
    requires Inv(s) && Enabled(s, a) && t < |s.tasks| && s.tasks[t].Done? && TaskHistory(s, t)
    ensures TaskHistory(Next(s, a), t)
  {
    var u := Next(s, a);
    if s.tasks[t].ok {
      LinkEndsRemain(s, a, t, Fulfilled);
    } else if LinkEnds(s, t, Rejected) {
      LinkEndsRemain(s, a, t, Rejected);
    } else {
      StepRemembers(s, a);
      OutcomesRemain(s, u, CreateOf(t));
      if k: nat :| IsLinkOf(u, k, t) {
        assert IsLinkOf(s, k, t);
      }
    }
  }

  lemma GivenUpTaskHasHistory(s: State, t: nat)
    requires Inv(s) && Enabled(s, ResumeTask(t)) && Next(s, ResumeTask(t)).tasks[t].Done?
    ensures TaskHistory(Next(s, ResumeTask(t)), t)
  {
    var u := Next(s, ResumeTask(t));
    assert TaskOk(s, t);
    assert ThrewFor(u, s.tasks[t].call, CreateOf(t));
    forall k | 0 <= k < |u.links| ensures u.links[k].task != t {
      assert LinkOk(s, k);
    }
  }

  lemma StepKeepsHistory(s: State, a: Action)
    requires Inv(s) && LinkCallsOk(s) && HistoryOk(s) && Enabled(s, a)
    ensures HistoryOk(Next(s, a))
  {
    var u := Next(s, a);
    StepKeepsOwners(s, a);
    StepKeepsTasks(s, a);
    forall k | 0 <= k < |u.links| ensures LinkHistory(u, k) { StepKeepsLinkHistory(s, a, k); }
    forall t | 0 <= t < |u.tasks| ensures TaskHistory(u, t) { StepKeepsTaskHistory(s, a, t); }
  }

  lemma {:induction false} ReachableHistory(plan: seq<nat>, trace: seq<State>, n: nat)
    requires Behavior(plan, trace) && n < |trace|
    ensures HistoryOk(trace[n])
  {
    if n > 0 {
      ReachableHistory(plan, trace, n - 1);
      ReachableStatesSatisfyInv(plan, trace, n - 1);
      ReachableLinkCalls(plan, trace, n - 1);
      var a := StepOfBehavior(plan, trace, n - 1);
      StepKeepsHistory(trace[n - 1], a);
    }
  }

  // ---------- Theorems ----------

  lemma TaskHasCreation(s: State, t: nat)
    requires Inv(s) && HistoryOk(s) && t < |s.tasks|
    ensures exists c :: 0 <= c < |s.lim.calls| && s.lim.calls[c].owner == CreateOf(t)
  {
    assert TaskOk(s, t) && TaskHistory(s, t);
    if s.tasks[t].Creating? {
      assert s.lim.calls[s.tasks[t].call].owner == CreateOf(t);
    } else if HasLink(s, t) {
      LinkedTaskWasCreated(s, t);
    } else if s.tasks[t].Chained? {
      assert IsLinkOf(s, s.tasks[t].link, t);
    }
  }

  lemma LinkedTaskWasCreated(s: State, t: nat)
    requires HistoryOk(s) && HasLink(s, t)
    ensures HasSucceeded(s, CreateOf(t))
  {
    var k: nat :| IsLinkOf(s, k, t);
    assert LinkHistory(s, k);
  }

  /** At any time of any run: every task has submitted one call that creates its transaction, and nobody has submitted
      two. A task is chained to the lock at most once, and only if that call succeeded; it is given up without being
      chained only if the call threw. */
  lemma TasksFollowTheirCalls(plan: seq<nat>, trace: seq<State>, n: nat, t: nat)
    requires Behavior(plan, trace) && n < |trace| && t < |trace[n].tasks|
    ensures var s := trace[n];
            && (exists c :: 0 <= c < |s.lim.calls| && s.lim.calls[c].owner == CreateOf(t))
            && (forall c, d :: 0 <= c < d < |s.lim.calls| ==> s.lim.calls[c].owner != s.lim.calls[d].owner)
            && (forall j, k :: IsLinkOf(s, j, t) && IsLinkOf(s, k, t) ==> j == k)
            && (HasLink(s, t) ==> HasSucceeded(s, CreateOf(t)))
            && (s.tasks[t].Done? && !HasLink(s, t) ==> HasThrown(s, CreateOf(t)))
            && (s.tasks[t] == Done(true) ==> LinkEnds(s, t, Fulfilled))
  {
    ReachableStatesSatisfyInv(plan, trace, n);
    ReachableHistory(plan, trace, n);
    TaskHasCreation(trace[n], t);
    assert TaskHistory(trace[n], t);
    if HasLink(trace[n], t) {
      LinkedTaskWasCreated(trace[n], t);
    }
  }

  lemma SucceededOnly(s: State, owner: Owner)
    requires OwnersDiffer(s) && HasSucceeded(s, owner)
    ensures !HasThrown(s, owner)
  {
    var c: nat :| SucceededFor(s, c, owner);
    forall d: nat | d < |s.lim.calls| ensures !ThrewFor(s, d, owner) {
    }
  }

  // Where nothing can move, a task whose transaction was created has been chained.
  lemma CreatedTaskHasLink(s: State, t: nat, c: nat)
    requires Inv(s) && HistoryOk(s) && Quiet(s) && t < |s.tasks| && SucceededFor(s, c, CreateOf(t))
    ensures HasLink(s, t)
  {
    QuietCallsAreReleased(s, c);
    SucceededOnly(s, CreateOf(t));
    assert CallOk(s, c) && TaskOk(s, t) && TaskHistory(s, t);
    assert !Enabled(s, Spawn) && !Enabled(s, ResumeTask(t));
    if s.tasks[t].Chained? {
      assert IsLinkOf(s, s.tasks[t].link, t);
    }
  }

  // Where nothing can move, a link whose funding succeeded is fulfilled.
  lemma FundedLinkIsFulfilled(s: State, k: nat, c: nat)
    requires Inv(s) && LinkCallsOk(s) && Quiet(s) && k < |s.links| && SucceededFor(s, c, FundOf(k))
    ensures s.links[k].status.Fulfilled?
  {
    QuietCallsAreReleased(s, c);
    assert FundCallOk(s, c);
    assert !Enabled(s, Spawn) && !Enabled(s, EndLink(k));
  }

  /** Where a run cannot go on, whatever threw or was lost: exactly the transactions that were created are chained to
      the lock, and exactly those links are fulfilled whose funding call succeeded. */
  lemma LinksEndAsCalled(plan: seq<nat>, trace: seq<State>, t: nat, k: nat)
    requires Behavior(plan, trace) && Terminal(trace[|trace| - 1])
    requires t < |trace[|trace| - 1].tasks|
    ensures var s := trace[|trace| - 1];
            && (HasLink(s, t) <==> HasSucceeded(s, CreateOf(t)))
            && (k < |s.links| ==> (s.links[k].status.Fulfilled? <==> HasSucceeded(s, FundOf(k))))
  {
    var s := trace[|trace| - 1];
    ReachableStatesSatisfyInv(plan, trace, |trace| - 1);
    ReachableLinkCalls(plan, trace, |trace| - 1);
    ReachableHistory(plan, trace, |trace| - 1);
    if HasLink(s, t) {
      LinkedTaskWasCreated(s, t);
    } else if c: nat :| SucceededFor(s, c, CreateOf(t)) {
      CreatedTaskHasLink(s, t, c);
    }
    if k < |s.links| {
      assert LinkHistory(s, k);
      if c: nat :| SucceededFor(s, c, FundOf(k)) {
        FundedLinkIsFulfilled(s, k, c);
      }
    }
  }

  /** No transaction is forgotten and none is added: those under way and those still to come are always as many as all
      iterations asked for. */
  lemma {:induction false} TransactionsAreConserved(plan: seq<nat>, trace: seq<State>, n: nat)
    requires Behavior(plan, trace) && n < |trace|
    ensures |trace[n].tasks| + trace[n].spawnLeft + Sum(trace[n].plan) == Sum(plan)
  {
    if n > 0 {
      TransactionsAreConserved(plan, trace, n - 1);
      var a := StepOfBehavior(plan, trace, n - 1);
    }
  }

  /** The awaiting task goes on once the call is released and has not thrown; a postponed call lets it go on while still
      holding its slot, and a thrown one only if it was not postponed. */
  lemma WhenTasksGoOn(s: State, t: nat)
    requires s.spawnLeft == 0 && t < |s.tasks| && s.tasks[t].Creating? && s.tasks[t].call < |s.lim.calls|
    ensures var call := s.lim.calls[s.tasks[t].call];
            Enabled(s, ResumeTask(t)) <==>
              match call.phase
              case Released(ok) => ok || !call.waited
              case Settled(ok) => ok && call.waited
              case _ => false
  {
  }
}
