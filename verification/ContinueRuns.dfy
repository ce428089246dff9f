/** Runs under `continue`: they end or stall within as many rounds as there are tasks, and a stall is for good. */
module ContinueRuns {
  import opened Graphs
  import opened Tasks
  import opened Rounds
  import opened Scheduling
  import opened FinalStatuses

  /** Below the cap, something is pending, and every pending task has a failed transitive dependency. */
  ghost predicate Stalled(p: Plan, s: Sched) {
    |s.failed| < p.cfg.maxTotalFailures && s.With(Pending) != {} && AllBlocked(p, s)
  }

  ghost predicate AllBlocked(p: Plan, s: Sched) {
    forall x :: x in s.With(Pending) ==> HasFailedAncestor(p, s, x)
  }

  lemma StalledStays(p: Plan, outcomes: seq<Id -> Outcome>, outcome: Id -> Outcome)
    requires p.Valid() && p.cfg.strategy == Continue && p.cfg.maxParallelTasks >= 1
    requires Stalled(p, p.After(outcomes))
    ensures p.Round(p.After(outcomes), outcome) == p.After(outcomes) && p.RouteOf(p.After(outcomes)) == ToExecute
  {
    hide Plan.Valid, Plan.After, Plan.Round, Plan.RouteOf, Having, HasFailedAncestor;
    ContinueStallsExactly(p, outcomes, outcome);
  }

  /** From a stalled state every further round, whatever its outcomes, is followed by another and changes nothing. */
  lemma {:induction false} StallIsForGood(p: Plan, outcomes: seq<Id -> Outcome>, more: seq<Id -> Outcome>)
    requires p.Valid() && p.cfg.strategy == Continue && p.cfg.maxParallelTasks >= 1
    requires Stalled(p, p.After(outcomes))
    ensures p.After(outcomes + more) == p.After(outcomes) && p.RouteOf(p.After(outcomes + more)) == ToExecute
  {
    hide *;
    if more == [] {
      assert outcomes + more == outcomes;
      StalledStays(p, outcomes, _ => Ok);
    } else {
      var n := |more| - 1;
      StallIsForGood(p, outcomes, more[..n]);
      assert outcomes + more == outcomes + more[..n] + [more[n]];
      OneMore(p, outcomes + more[..n], more[n]);
      StalledStays(p, outcomes, more[n]);
    }
  }

  lemma OneMore(p: Plan, outcomes: seq<Id -> Outcome>, outcome: Id -> Outcome)
    ensures p.After(outcomes + [outcome]) == p.Round(p.After(outcomes), outcome)
  {
    hide Plan.Round;
    assert (outcomes + [outcome])[..|outcomes|] == outcomes;
  }

  /** A round under `continue` that starts from a state that is not stalled leaves less pending. */
  lemma RoundEndsOrProgresses(p: Plan, s: Sched, outcome: Id -> Outcome)
    requires p.Valid() && Inv(p, s) && p.cfg.strategy == Continue && p.cfg.maxParallelTasks >= 1
    requires s.With(Pending) != {} && !Stalled(p, s)
    ensures p.Round(s, outcome).With(Pending) < s.With(Pending)
  {
    hide Plan.Valid, Plan.Batch, Plan.Round, Having, HasFailedAncestor, Inv;
    RoundInv(p, s, outcome);
    BatchIsPending(p, s, outcome);
    if Elements(p.Batch(s)) == {} {
      IdleMeansBlocked(p, s);
      CapEnds(p, s, outcome);
    }
  }

  lemma BatchIsPending(p: Plan, s: Sched, outcome: Id -> Outcome)
    requires p.Valid() && Inv(p, s)
    ensures Elements(p.Batch(s)) <= s.With(Pending)
  {
    hide Plan.Valid, Plan.Batch, Having;
    InvIsCore(p, s);
    ExecutedCore(p, s, outcome);
  }

  lemma CapEnds(p: Plan, s: Sched, outcome: Id -> Outcome)
    requires p.Valid() && Inv(p, s) && Elements(p.Batch(s)) == {} && |s.failed| >= p.cfg.maxTotalFailures
    ensures p.Round(s, outcome).With(Pending) == {}
  {
    hide Plan.Valid, Plan.Batch, Having, Plan.Checked, Plan.Executed, Inv;
    NoElements(p.Batch(s));
    NoBatchNoFailures(p, s, outcome);
    InvIsCore(p, s);
    CapInv(p, s);
  }

  /** Within as many rounds as there are tasks, routing has left the loop or the run has stalled. */
  lemma {:induction false} EndsOrStalls(p: Plan, outcomes: seq<Id -> Outcome>)
    requires p.Valid() && p.cfg.strategy == Continue && p.cfg.maxParallelTasks >= 1
    ensures var s := p.After(outcomes);
            && (|s.With(Pending)| + |outcomes| <= |p.ids| || s.With(Pending) == {} || Stalled(p, s))
            && (|outcomes| >= |p.ids| ==> p.RouteOf(s) == ToSynthesize || Stalled(p, s))
  {
    hide Plan.Valid, Plan.Round, Having, Inv, Stalled, Plan.RouteOf;
    AfterInv(p, outcomes);
    var s := p.After(outcomes);
    InvIsCore(p, s);
    RoutesToPending(p, s);
    if |outcomes| == 0 {
      AllPendingAtStart(p);
      ElementsFit(p.ids);
    } else {
      var front := outcomes[..|outcomes| - 1];
      var before, last := p.After(front), outcomes[|outcomes| - 1];
      EndsOrStalls(p, front);
      AfterInv(p, front);
      RoundInv(p, before, last);
      if Stalled(p, before) {
        StalledStays(p, front, last);
      } else if before.With(Pending) != {} {
        RoundEndsOrProgresses(p, before, last);
        SmallerSet(s.With(Pending), before.With(Pending));
      }
    }
  }
}
