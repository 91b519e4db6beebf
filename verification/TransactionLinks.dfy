/**
 What one failed funding does to the lock (infrastructure/via/src/transactions.ts:49 and 71-91): the links chained
 after it are rejected without ever submitting a call.
 */
module TransactionLinks {
  import opened RpcLimiter
  import opened TransactionTasks

  // ---------- The calls of a link ----------

  // A funding call belongs to a link that began, and the status of the link tells its outcome.
  ghost predicate FundCallOk(s: State, c: nat)
    requires c < |s.lim.calls|
  {
    s.lim.calls[c].owner.FundOf? ==>
      var k := s.lim.calls[c].owner.link;
      && k < |s.links| && PreviousFulfilled(s.links, k)
      && match s.links[k].status
         case Pending => false
         case InCall(d) => d == c
         case Fulfilled => s.lim.calls[c].Resolved()
         case Rejected => s.lim.calls[c].Failed()
  }

  ghost predicate IsFailedCallOf(s: State, c: nat, k: nat) {
    c < |s.lim.calls| && s.lim.calls[c].owner == FundOf(k) && s.lim.calls[c].Failed()
  }

  // A link is rejected because its own call failed, or because the link before it is rejected.
  ghost predicate RejectionOk(s: State, k: nat)
    requires k < |s.links|
  {
    s.links[k].status.Rejected? ==>
      (k > 0 && s.links[k - 1].status.Rejected?) || exists c :: IsFailedCallOf(s, c, k)
  }

  ghost predicate LinkCallsOk(s: State) {
    && (forall c :: 0 <= c < |s.lim.calls| ==> FundCallOk(s, c))
    && (forall k :: 0 <= k < |s.links| ==> RejectionOk(s, k))
  }

  // Calls keep their owners, and outcomes stay.
  ghost predicate OutcomesStay(l: Limiter, r: Limiter) {
    && |l.calls| <= |r.calls|
    && forall c :: 0 <= c < |l.calls| ==> OutcomeStays(l.calls[c], r.calls[c])
  }

  predicate OutcomeStays(c: Call, d: Call) {
    d.owner == c.owner && (c.Resolved() ==> d.Resolved()) && (c.Failed() ==> d.Failed())
  }

  lemma StepKeepsOutcomes(s: State, a: Action)
    requires Inv(s) && Enabled(s, a)
    ensures OutcomesStay(s.lim, Next(s, a).lim)
  {
    StepAdvancesPhases(s, a);
    if a.ReleaseCall? { ReleaseKeepsLimiter(s.lim, a.call); }
  }

  // Steps that change no link and submit no funding call; a new link may be chained.
  lemma OtherStepKeepsLinkCalls(s: State, u: State)
    requires LinkCallsOk(s) && OutcomesStay(s.lim, u.lim) && s.links <= u.links
    requires forall k :: |s.links| <= k < |u.links| ==> u.links[k].status.Pending?
    requires forall c :: |s.lim.calls| <= c < |u.lim.calls| ==> u.lim.calls[c].owner.CreateOf?
    ensures LinkCallsOk(u)
  {
    assert forall k :: 0 <= k < |s.links| ==> u.links[k] == s.links[k];
    forall c | 0 <= c < |u.lim.calls| ensures FundCallOk(u, c) {
      if c < |s.lim.calls| {
        assert FundCallOk(s, c) && OutcomeStays(s.lim.calls[c], u.lim.calls[c]);
      }
    }
    forall k | 0 <= k < |u.links| ensures RejectionOk(u, k) {
      if k < |s.links| {
        assert RejectionOk(s, k);
        if c: nat :| IsFailedCallOf(s, c, k) {
          assert OutcomeStays(s.lim.calls[c], u.lim.calls[c]);
          assert IsFailedCallOf(u, c, k);
        }
      }
    }
  }

  lemma BeginLinkKeepsLinkCalls(s: State, a: Action)
    requires LinkCallsOk(s) && Enabled(s, a) && a.BeginLink?
    ensures LinkCallsOk(Next(s, a))
  {
    var u := Next(s, a);
    forall c | 0 <= c < |u.lim.calls| ensures FundCallOk(u, c) {
      if c < |s.lim.calls| { assert FundCallOk(s, c); }
    }
    forall k | 0 <= k < |u.links| ensures RejectionOk(u, k) {
      assert RejectionOk(s, k);
      if c: nat :| IsFailedCallOf(s, c, k) { assert IsFailedCallOf(u, c, k); }
    }
  }

  lemma PoisonLinkKeepsLinkCalls(s: State, a: Action)
    requires LinkCallsOk(s) && Enabled(s, a) && a.PoisonLink?
    ensures LinkCallsOk(Next(s, a))
  {
    var u := Next(s, a);
    forall c | 0 <= c < |u.lim.calls| ensures FundCallOk(u, c) { assert FundCallOk(s, c); }
    forall k | 0 <= k < |u.links| ensures RejectionOk(u, k) {
      assert RejectionOk(s, k);
      if c: nat :| IsFailedCallOf(s, c, k) { assert IsFailedCallOf(u, c, k); }
    }
  }

  lemma EndLinkKeepsLinkCalls(s: State, a: Action)
    requires Inv(s) && LinkCallsOk(s) && Enabled(s, a) && a.EndLink?
    ensures LinkCallsOk(Next(s, a))
  {
    var u := Next(s, a);
    assert LinkOk(s, a.link);
    forall c | 0 <= c < |u.lim.calls| ensures FundCallOk(u, c) { assert FundCallOk(s, c); }
    forall k | 0 <= k < |u.links| ensures RejectionOk(u, k) {
      assert RejectionOk(s, k);
      if k == a.link {
        assert u.links[k].status.Rejected? ==> IsFailedCallOf(u, s.links[k].status.call, k);
      } else if c: nat :| IsFailedCallOf(s, c, k) {
        assert IsFailedCallOf(u, c, k);
      }
    }
  }

  lemma StepKeepsLinkCalls(s: State, a: Action)
    requires Inv(s) && LinkCallsOk(s) && Enabled(s, a)
    ensures LinkCallsOk(Next(s, a))
  {
    if a.BeginLink? {
      BeginLinkKeepsLinkCalls(s, a);
    } else if a.PoisonLink? {
      PoisonLinkKeepsLinkCalls(s, a);
    } else if a.EndLink? {
      EndLinkKeepsLinkCalls(s, a);
    } else {
      StepKeepsOutcomes(s, a);
      if a.ReleaseCall? { ReleaseKeepsLimiter(s.lim, a.call); }
      OtherStepKeepsLinkCalls(s, Next(s, a));
    }
  }

  /** In every reachable state a link has submitted a call only if all links before it were fulfilled, and a rejected
      link failed on its own or follows a rejected one. */
  lemma {:induction false} ReachableLinkCalls(plan: seq<nat>, trace: seq<State>, k: nat)
    requires Behavior(plan, trace) && k < |trace|
    ensures LinkCallsOk(trace[k])
  {
    if k > 0 {
      ReachableLinkCalls(plan, trace, k - 1);
      ReachableStatesSatisfyInv(plan, trace, k - 1);
      var a := StepOfBehavior(plan, trace, k - 1);
      StepKeepsLinkCalls(trace[k - 1], a);
    }
  }

  // ---------- Links over time ----------

  // Links stay, and a link that is through with its work keeps its outcome.
  ghost predicate LinksAdvance(s: State, u: State) {
    && |s.links| <= |u.links|
    && forall k :: 0 <= k < |s.links| ==> LinkAdvances(s.links[k], u.links[k])
  }

  predicate LinkAdvances(l: Link, m: Link) {
    l.task == m.task && (l.status.Final() ==> m.status == l.status)
  }

  lemma LinksAdvanceOnce(plan: seq<nat>, trace: seq<State>, k: nat)
    requires Behavior(plan, trace) && k + 1 < |trace|
    ensures LinksAdvance(trace[k], trace[k + 1])
  {
    var a := StepOfBehavior(plan, trace, k);
  }

  lemma {:induction false} LinksOnlyAdvance(plan: seq<nat>, trace: seq<State>, n: nat, m: nat)
    requires Behavior(plan, trace) && n <= m < |trace|
    ensures LinksAdvance(trace[n], trace[m])
    decreases m
  {
    if n < m {
      LinksOnlyAdvance(plan, trace, n, m - 1);
      LinksAdvanceOnce(plan, trace, m - 1);
      forall k | 0 <= k < |trace[n].links| ensures LinkAdvances(trace[n].links[k], trace[m].links[k]) {
        assert LinkAdvances(trace[n].links[k], trace[m - 1].links[k]);
        assert LinkAdvances(trace[m - 1].links[k], trace[m].links[k]);
      }
    }
  }

  lemma NoCallAfterRejection(s: State, j: nat, k: nat, c: nat)
    requires Inv(s) && LinkCallsOk(s) && j < k < |s.links| && s.links[j].status.Rejected? && c < |s.lim.calls|
    ensures s.links[k].status.Pending? || s.links[k].status.Rejected?
    ensures s.lim.calls[c].owner != FundOf(k)
  {
    if s.links[k].status.InCall? || s.links[k].status.Fulfilled? {
      EarlierLinksFulfilled(s, j, k);
    }
    assert FundCallOk(s, c);
    if s.lim.calls[c].owner == FundOf(k) && j < k - 1 {
      EarlierLinksFulfilled(s, j, k - 1);
    }
  }

  /** Once a link is rejected it stays so, and at no later time is a link after it fulfilled or has it submitted a
      call. */
  lemma FailurePoisonsLaterLinks(plan: seq<nat>, trace: seq<State>, n: nat, m: nat, j: nat, k: nat, c: nat)
    requires Behavior(plan, trace) && n <= m < |trace|
    requires j < |trace[n].links| && trace[n].links[j].status.Rejected?
    requires j < k < |trace[m].links| && c < |trace[m].lim.calls|
    ensures trace[m].links[j].status.Rejected?
    ensures trace[m].links[k].status.Pending? || trace[m].links[k].status.Rejected?
    ensures trace[m].lim.calls[c].owner != FundOf(k)
  {
    LinksOnlyAdvance(plan, trace, n, m);
    assert LinkAdvances(trace[n].links[j], trace[m].links[j]);
    ReachableStatesSatisfyInv(plan, trace, m);
    ReachableLinkCalls(plan, trace, m);
    NoCallAfterRejection(trace[m], j, k, c);
  }

  // The number of fulfilled links at the start of the chain.
  function FulfilledPrefix(links: seq<Link>): (m: nat)
    ensures m <= |links| && (forall k :: 0 <= k < m ==> links[k].status.Fulfilled?)
    ensures m < |links| ==> !links[m].status.Fulfilled?
  {
    if links == [] || !links[0].status.Fulfilled? then 0 else 1 + FulfilledPrefix(links[1..])
  }

  // The lock is through: the links up to the first failed call are fulfilled, all later ones were never tried.
  ghost predicate EndsAt(s: State, m: nat) {
    && m <= |s.links|
    && (forall k :: 0 <= k < m ==> s.links[k].status.Fulfilled?)
    && (m < |s.links| ==> s.links[m].status.Rejected? && exists c :: IsFailedCallOf(s, c, m))
    && (forall k :: m < k < |s.links| ==> s.links[k].status.Rejected?)
    && (forall k, c :: m < k < |s.links| && 0 <= c < |s.lim.calls| ==> s.lim.calls[c].owner != FundOf(k))
  }

  /** Where a run cannot go on and no call was lost, exactly the links before the first failed funding call are
      fulfilled, and the links after it are rejected without having submitted a call. */
  lemma LockEndsAtFirstFailure(plan: seq<nat>, trace: seq<State>)
    requires Behavior(plan, trace) && Terminal(trace[|trace| - 1])
    requires NoneLost(trace[|trace| - 1])
    ensures EndsAt(trace[|trace| - 1], FulfilledPrefix(trace[|trace| - 1].links))
  {
    var s := trace[|trace| - 1];
    var m := FulfilledPrefix(s.links);
    ReachableStatesSatisfyInv(plan, trace, |trace| - 1);
    ReachableLinkCalls(plan, trace, |trace| - 1);
    if m < |s.links| {
      QuietLinksAreFinal(s, m);
      assert RejectionOk(s, m);
    }
    forall k | m < k < |s.links| ensures s.links[k].status.Rejected? {
      QuietLinksAreFinal(s, k);
      if s.links[k].status.Fulfilled? { EarlierLinksFulfilled(s, m, k); }
    }
    forall k, c | m < k < |s.links| && 0 <= c < |s.lim.calls| ensures s.lim.calls[c].owner != FundOf(k) {
      NoCallAfterRejection(s, m, k, c);
    }
  }

  // ---------- A run in which it happens ----------

  lemma Step(trace: seq<State>, a: Action, next: State) returns (more: seq<State>)
    requires Behavior([2], trace) && Enabled(trace[|trace| - 1], a) && next == Next(trace[|trace| - 1], a)
    ensures Behavior([2], more) && |more| == |trace| + 1 && more[|more| - 1] == next
  {
    ExtendBehavior([2], trace, a);
    more := trace + [next];
  }

  // Two calls that create a transaction, in a phase each.
  function Creations(first: Phase, second: Phase): seq<Call> {
    [Call(CreateOf(0), false, first), Call(CreateOf(1), false, second)]
  }

  lemma TwoAreSpawned() returns (trace: seq<State>)
    ensures Behavior([2], trace)
    ensures trace[|trace| - 1] ==
            State(Limiter(2, [], Creations(Running, Running)), [Creating(0), Creating(1)], [], 0, [])
  {
    var c0, c1 := Call(CreateOf(0), false, Running), Call(CreateOf(1), false, Running);
    trace := [InitialState([2])];
    trace := Step(trace, StartIteration, State(Limiter(0, [], []), [], [], 2, []));
    trace := Step(trace, Spawn, State(Limiter(1, [], [c0]), [Creating(0)], [], 1, []));
    trace := Step(trace, Spawn, State(Limiter(2, [], [c0, c1]), [Creating(0), Creating(1)], [], 0, []));
  }

  lemma FirstIsChained() returns (trace: seq<State>)
    ensures Behavior([2], trace)
    ensures trace[|trace| - 1] ==
            State(Limiter(1, [], Creations(Released(true), Running)), [Chained(0), Creating(1)],
                  [Link(0, Pending)], 0, [])
  {
    trace := TwoAreSpawned();
    var tasks := [Creating(0), Creating(1)];
    trace := Step(trace, SettleCall(0, true),
                  State(Limiter(2, [], Creations(Settled(true), Running)), tasks, [], 0, []));
    var calls := Creations(Released(true), Running);
    trace := Step(trace, ReleaseCall(0), State(Limiter(1, [], calls), tasks, [], 0, []));
    trace := Step(trace, ResumeTask(0),
                  State(Limiter(1, [], calls), [Chained(0), Creating(1)], [Link(0, Pending)], 0, []));
  }

  lemma TwoAreChained() returns (trace: seq<State>)
    ensures Behavior([2], trace)
    ensures trace[|trace| - 1] ==
            State(Limiter(0, [], Creations(Released(true), Released(true))), [Chained(0), Chained(1)],
                  [Link(0, Pending), Link(1, Pending)], 0, [])
  {
    trace := FirstIsChained();
    var tasks, links := [Chained(0), Creating(1)], [Link(0, Pending)];
    trace := Step(trace, SettleCall(1, true),
                  State(Limiter(1, [], Creations(Released(true), Settled(true))), tasks, links, 0, []));
    var calls := Creations(Released(true), Released(true));
    trace := Step(trace, ReleaseCall(1), State(Limiter(0, [], calls), tasks, links, 0, []));
    trace := Step(trace, ResumeTask(1),
                  State(Limiter(0, [], calls), [Chained(0), Chained(1)], [Link(0, Pending), Link(1, Pending)], 0, []));
  }

  /** Two transactions are enough: the funding of the first one fails, and the second one is rejected without having
      been tried. */
  lemma SecondFundingIsNeverTried() returns (trace: seq<State>)
    ensures Behavior([2], trace)
    ensures var s := trace[|trace| - 1];
            && |s.links| == 2 && s.links[0].status.Rejected? && s.links[1].status.Rejected?
            && IsFailedCallOf(s, 2, 0)
            && forall c :: 0 <= c < |s.lim.calls| ==> s.lim.calls[c].owner != FundOf(1)
  {
    trace := TwoAreChained();
    var created := Creations(Released(true), Released(true));
    var fund, tasks := Call(FundOf(0), false, Running), [Chained(0), Chained(1)];
    var waiting := [Link(0, InCall(2)), Link(1, Pending)];
    trace := Step(trace, BeginLink(0), State(Limiter(1, [], created + [fund]), tasks, waiting, 0, []));
    trace := Step(trace, SettleCall(2, false),
                  State(Limiter(1, [], created + [fund.(phase := Settled(false))]), tasks, waiting, 0, []));
    var calls := created + [fund.(phase := Released(false))];
    trace := Step(trace, ReleaseCall(2), State(Limiter(0, [], calls), tasks, waiting, 0, []));
    trace := Step(trace, EndLink(0),
                  State(Limiter(0, [], calls), tasks, [Link(0, Rejected), Link(1, Pending)], 0, []));
    trace := Step(trace, PoisonLink(1),
                  State(Limiter(0, [], calls), tasks, [Link(0, Rejected), Link(1, Rejected)], 0, []));
  }
}
