/** Which tasks end up cancelled, when the loop stalls, and which completed tasks are final. */
module FinalStatuses {
  import opened Graphs
  import opened Tasks
  import opened Rounds
  import opened Scheduling

  ghost predicate HasFailedAncestor(p: Plan, s: Sched, x: Id) {
    exists a :: a in s.With(Failed) && DependsOn(p.deps, x, a)
  }

  /** Nothing is cancelled without a failed transitive dependency. */
  ghost predicate CancelledWithCause(p: Plan, s: Sched) {
    forall x :: x in s.With(Cancelled) ==> HasFailedAncestor(p, s, x)
  }

  /** The failure cap, if it applies after this execution, only hits tasks with a failed transitive dependency. */
  ghost predicate CapIsHarmless(p: Plan, e: Sched) {
    |e.failed| < p.cfg.maxTotalFailures || forall x :: x in e.With(Pending) ==> HasFailedAncestor(p, e, x)
  }

  lemma FailedBelow(p: Plan, s: Sched, x: Id, d: Id)
    requires p.Valid() && Edge(p.deps, x, d)
    requires d in s.With(Failed) || HasFailedAncestor(p, s, d)
    ensures HasFailedAncestor(p, s, x)
  {
    if d in s.With(Failed) {
      assert Chain(p.deps, [x, d]);
      assert ChainBetween(p.deps, [x, d], x, d);
    } else {
      var a :| a in s.With(Failed) && DependsOn(p.deps, d, a);
      var q :| ChainBetween(p.deps, q, d, a) && |q| >= 2;
      ChainPrepend(p.deps, x, q);
      assert ChainBetween(p.deps, [x] + q, x, a);
    }
  }

  /** A task whose direct dependencies are all done has only done tasks below it. */
  lemma {:induction false} AllBelowDone(p: Plan, s: Sched, q: seq<Id>)
    requires p.Valid() && Core(p, s) && Chain(p.deps, q) && |q| >= 2
    requires forall d :: Edge(p.deps, q[0], d) ==> d in s.With(Done)
    ensures q[|q| - 1] in s.With(Done)
  {
    assert Edge(p.deps, q[0], q[1]);
    if |q| > 2 {
      assert Chain(p.deps, q[1..]) by {
        forall i | 0 <= i < |q| - 2 ensures Edge(p.deps, q[1..][i], q[1..][i + 1]) {
          assert Edge(p.deps, q[i + 1], q[i + 2]);
        }
      }
      AllBelowDone(p, s, q[1..]);
    }
  }

  lemma ReadyHasNoFailedAncestor(p: Plan, s: Sched, x: Id)
    requires p.Valid() && Core(p, s)
    requires forall d :: Edge(p.deps, x, d) ==> d in s.With(Done)
    ensures !HasFailedAncestor(p, s, x)
  {
    forall a, q | ChainBetween(p.deps, q, x, a) && |q| >= 2 ensures a in s.With(Done) {
      AllBelowDone(p, s, q);
    }
  }

  lemma CauseSurvivesRound(p: Plan, s: Sched, outcome: Id -> Outcome)
    requires p.Valid() && Inv(p, s) && p.cfg.strategy == StopDependents && CancelledWithCause(p, s)
    ensures var e := p.Executed(s, outcome);
            CancelledWithCause(p, p.Checked(e)) <==> CapIsHarmless(p, e)
  {
    hide Having, Plan.Executed, Plan.Checked, HasFailedAncestor, Plan.Valid, Inv, Core;
    InvIsCore(p, s);
    ExecutedCore(p, s, outcome);
    var e := p.Executed(s, outcome);
    var c := p.Checked(e);
    CheckedInv(p, e);
    forall x | HasFailedAncestor(p, s, x) ensures HasFailedAncestor(p, e, x) {
      CauseIsMonotone(p, s, e, x);
    }
    forall x ensures HasFailedAncestor(p, e, x) <==> HasFailedAncestor(p, c, x) {
      SameCause(p, e, c, x);
    }
    NewlyCancelled(p, e);
  }

  /** What a check cancels: everything pending when the cap is reached, else tasks below a failure. */
  lemma NewlyCancelled(p: Plan, e: Sched)
    requires p.Valid() && Core(p, e) && p.cfg.strategy == StopDependents && CancelledWithCause(p, e)
    ensures |e.failed| >= p.cfg.maxTotalFailures ==> p.Checked(e).With(Cancelled) == e.With(Cancelled) + e.With(Pending)
    ensures |e.failed| < p.cfg.maxTotalFailures ==>
              forall x :: x in p.Checked(e).With(Cancelled) ==> HasFailedAncestor(p, e, x)
  {
    hide Having, Plan.Cancel, HasFailedAncestor, Plan.Valid;
    if |e.failed| >= p.cfg.maxTotalFailures {
      CancelSets(p, e, e.With(Pending));
    } else {
      var dependents := p.Dependents(e, e.failed);
      CancelSets(p, e, dependents);
      forall x | x in dependents ensures HasFailedAncestor(p, e, x) {
        var d :| d in p.deps[x] && d in e.failed;
        assert Edge(p.deps, x, d);
        FailedBelow(p, e, x, d);
      }
    }
  }

  lemma CauseIsMonotone(p: Plan, s: Sched, e: Sched, x: Id)
    requires s.With(Failed) <= e.With(Failed) && HasFailedAncestor(p, s, x)
    ensures HasFailedAncestor(p, e, x)
  {
  }

  lemma SameCause(p: Plan, e: Sched, c: Sched, x: Id)
    requires e.With(Failed) == c.With(Failed)
    ensures HasFailedAncestor(p, e, x) <==> HasFailedAncestor(p, c, x)
  {
  }

  /** The state that the `i`-th check sees. */
  ghost function Seen(p: Plan, outcomes: seq<Id -> Outcome>, i: nat): Sched
    requires i < |outcomes|
  {
    p.Executed(p.After(outcomes[..i]), outcomes[i])
  }

  ghost predicate CapAlwaysHarmless(p: Plan, outcomes: seq<Id -> Outcome>) {
    forall i :: 0 <= i < |outcomes| ==> CapIsHarmless(p, Seen(p, outcomes, i))
  }

  lemma {:induction false} CauseOverRuns(p: Plan, outcomes: seq<Id -> Outcome>)
    requires p.Valid() && p.cfg.strategy == StopDependents
    ensures CancelledWithCause(p, p.After(outcomes)) <==> CapAlwaysHarmless(p, outcomes)
    ensures !CancelledWithCause(p, p.After(outcomes)) ==> p.After(outcomes).With(Pending) == {}
  {
    hide Plan.Valid, Inv, CapAlwaysHarmless, CancelledWithCause, CapIsHarmless, Plan.Executed, Plan.Checked, Having;
    if |outcomes| == 0 {
      NothingCancelledAtStart(p);
    } else {
      var n := |outcomes| - 1;
      var before := outcomes[..n];
      var s := p.After(before);
      CauseOverRuns(p, before);
      AfterInv(p, before);
      HarmlessPrefix(p, outcomes);
      if CancelledWithCause(p, s) {
        CauseSurvivesRound(p, s, outcomes[n]);
        CapLeavesNothing(p, Seen(p, outcomes, n));
      } else {
        NothingLeftToRun(p, s, outcomes[n]);
      }
    }
  }

  lemma NothingCancelledAtStart(p: Plan)
    ensures CancelledWithCause(p, p.Init()) && CapAlwaysHarmless(p, [])
  {
  }

  lemma HarmlessPrefix(p: Plan, outcomes: seq<Id -> Outcome>)
    requires |outcomes| > 0
    ensures var n := |outcomes| - 1;
            CapAlwaysHarmless(p, outcomes) <==>
            CapAlwaysHarmless(p, outcomes[..n]) && CapIsHarmless(p, Seen(p, outcomes, n))
  {
    hide CapIsHarmless, Seen;
    var n := |outcomes| - 1;
    forall i | 0 <= i < n ensures Seen(p, outcomes[..n], i) == Seen(p, outcomes, i) {
      SeenOnPrefix(p, outcomes, n, i);
    }
  }

  lemma SeenOnPrefix(p: Plan, outcomes: seq<Id -> Outcome>, n: nat, i: nat)
    requires i < n <= |outcomes|
    ensures Seen(p, outcomes[..n], i) == Seen(p, outcomes, i)
  {
    hide Plan.Executed, Plan.After;
    assert outcomes[..n][..i] == outcomes[..i];
  }

  lemma CapLeavesNothing(p: Plan, e: Sched)
    ensures !CapIsHarmless(p, e) ==> p.Checked(e).With(Pending) == {}
  {
    CancelSets(p, e, e.With(Pending));
  }

  lemma NothingLeftToRun(p: Plan, s: Sched, outcome: Id -> Outcome)
    requires p.Valid() && Inv(p, s) && s.With(Pending) == {} && !CancelledWithCause(p, s)
    ensures !CancelledWithCause(p, p.Round(s, outcome)) && p.Round(s, outcome).With(Pending) == {}
  {
    hide Having, Plan.Executed, Plan.Checked, HasFailedAncestor;
    var x :| x in s.With(Cancelled) && !HasFailedAncestor(p, s, x);
    RoundInv(p, s, outcome);
    ExecutedCore(p, s, outcome);
    var c := p.Round(s, outcome);
    NoElements(p.Batch(s));
    NoBatchNoFailures(p, s, outcome);
    SameCause(p, s, c, x);
    assert x in c.With(Cancelled);
  }

  lemma NoBatchNoFailures(p: Plan, s: Sched, outcome: Id -> Outcome)
    requires p.Valid() && Inv(p, s) && p.Batch(s) == []
    ensures p.Executed(s, outcome) == s
    ensures p.Round(s, outcome).With(Failed) == s.With(Failed)
  {
    hide Plan.Batch, Plan.Checked, Plan.Finished, Plan.Valid;
    InvIsCore(p, s);
    CheckedInv(p, s);
    FinishNothing(p, s, outcome);
  }

  lemma NoElements(ids: seq<Id>)
    ensures Elements(ids) == {} <==> ids == []
  {
    if ids != [] {
      assert ids[0] in Elements(ids);
    }
  }

  lemma FinishNothing(p: Plan, s: Sched, outcome: Id -> Outcome)
    ensures p.Finished(s, [], outcome) == s
  {
    assert p.Finished(s, [], outcome).status == s.status;
  }

  /**
   * The outcome of a `stop_dependents` run that routing has ended: each task is done, failed or cancelled, and
   * the cancelled ones are exactly those with a failed transitive dependency precisely if the cap never hit a
   * task without one. In particular they are when the cap is never reached.
   */
  lemma StopDependentsIsExact(p: Plan, outcomes: seq<Id -> Outcome>)
    requires p.Valid() && p.cfg.strategy == StopDependents && p.RouteOf(p.After(outcomes)) == ToSynthesize
    ensures var s := p.After(outcomes);
            forall x :: x in p.deps ==> x in s.With(Done) + s.With(Failed) + s.With(Cancelled)
    ensures (forall x :: x in p.deps ==>
               (x in p.After(outcomes).With(Cancelled) <==> HasFailedAncestor(p, p.After(outcomes), x)))
            <==> CapAlwaysHarmless(p, outcomes)
    ensures (forall i :: 0 <= i < |outcomes| ==> |Seen(p, outcomes, i).failed| < p.cfg.maxTotalFailures)
            ==> CapAlwaysHarmless(p, outcomes)
  {
    var s := p.After(outcomes);
    AfterInv(p, outcomes);
    CauseOverRuns(p, outcomes);
    NothingPendingAtSynthesis(p, s);
    forall x | x in p.deps && x !in s.With(Cancelled) ensures !HasFailedAncestor(p, s, x) {
      ReadyHasNoFailedAncestor(p, s, x);
    }
  }

  lemma NothingPendingAtSynthesis(p: Plan, s: Sched)
    requires p.Valid() && Inv(p, s) && p.RouteOf(s) == ToSynthesize
    ensures s.With(Pending) == {}
    ensures forall x :: x in p.deps ==> x in s.With(Done) + s.With(Failed) + s.With(Cancelled)
  {
    forall x | x in s.With(Pending) ensures x in s.pending {
      assert x in Elements(p.ids);
    }
    forall x | x in p.deps ensures x in s.With(Done) + s.With(Failed) + s.With(Cancelled) {
      assert x !in s.With(Running) && x !in s.With(Pending);
    }
  }

  /**
   * Under `continue` a round changes nothing, and is followed by another, exactly when the cap is not reached,
   * something is pending and every pending task has a failed transitive dependency.
   */
  lemma ContinueStallsExactly(p: Plan, outcomes: seq<Id -> Outcome>, outcome: Id -> Outcome)
    requires p.Valid() && p.cfg.strategy == Continue && p.cfg.maxParallelTasks >= 1
    ensures var s := p.After(outcomes);
            (p.Round(s, outcome) == s && p.RouteOf(s) == ToExecute) <==>
            (&& |s.failed| < p.cfg.maxTotalFailures
             && s.With(Pending) != {}
             && forall x :: x in s.With(Pending) ==> HasFailedAncestor(p, s, x))
  {
    var s := p.After(outcomes);
    AfterInv(p, outcomes);
    RoundInv(p, s, outcome);
    RoutesToPending(p, s);
    if Elements(p.Batch(s)) == {} {
      NoElements(p.Batch(s));
      NoBatchNoFailures(p, s, outcome);
      IdleCheck(p, s);
      if s.With(Pending) != {} {
        IdleMeansBlocked(p, s);
      }
    } else {
      var x :| x in Elements(p.Batch(s));
      BatchIsReady(p, s);
      ReadyHasNoFailedAncestor(p, s, x);
    }
  }

  lemma RoutesToPending(p: Plan, s: Sched)
    requires p.Valid() && Inv(p, s)
    ensures p.RouteOf(s) == ToExecute <==> s.With(Pending) != {}
  {
    if x :| x in s.With(Pending) {
      assert x in Elements(p.ids) && x in s.pending;
    }
  }

  lemma IdleCheck(p: Plan, s: Sched)
    requires p.Valid() && Inv(p, s) && p.cfg.strategy == Continue
    ensures s.With(Pending) != {} ==> (p.Checked(s) == s <==> |s.failed| < p.cfg.maxTotalFailures)
  {
    CancelSets(p, s, s.With(Pending));
    RelistsPending(p, s);
  }

  lemma IdleMeansBlocked(p: Plan, s: Sched)
    requires p.Valid() && Inv(p, s) && p.cfg.strategy == Continue && p.cfg.maxParallelTasks >= 1
    requires Elements(p.Batch(s)) == {} && s.With(Pending) != {}
    ensures forall x :: x in s.With(Pending) ==> HasFailedAncestor(p, s, x)
  {
    hide Plan.Batch, HasFailedAncestor, Plan.Valid, Inv, Core;
    InvIsCore(p, s);
    var free := set x | x in s.With(Pending) && !HasFailedAncestor(p, s, x);
    if free != {} {
      var low := LowestFree(p, s, free);
      if forall d :: d in p.deps[low] ==> d in s.status && s.status[d] == Done {
        ReadyMeansBatch(p, s, low);
      } else {
        var d :| d in p.deps[low] && !(d in s.status && s.status[d] == Done);
        BlockedBy(p, s, low, d);
      }
      assert false;
    }
    assert forall x :: x in s.With(Pending) ==> x !in free;
  }

  lemma LowestFree(p: Plan, s: Sched, free: set<Id>) returns (low: Id)
    requires p.Valid() && s.status.Keys == p.deps.Keys && free <= s.With(Pending) && free != {}
    ensures low in free && low in p.deps && forall d :: d in p.deps[low] ==> Edge(p.deps, low, d) && d !in free
  {
    var x :| x in free;
    low := LowestBelow(p.deps, free, x);
    assert forall d :: d in p.deps[low] ==> Edge(p.deps, low, d);
  }

  /** Under `continue` an unfinished dependency has failed, or is pending with a failed dependency of its own. */
  lemma BlockedBy(p: Plan, s: Sched, x: Id, d: Id)
    requires p.Valid() && Inv(p, s) && p.cfg.strategy == Continue && s.With(Pending) != {}
    requires Edge(p.deps, x, d) && !(d in s.status && s.status[d] == Done)
    requires d in s.With(Pending) ==> HasFailedAncestor(p, s, d)
    ensures HasFailedAncestor(p, s, x)
  {
    hide HasFailedAncestor;
    assert d in s.status && d !in s.With(Running) && d !in s.With(Cancelled);
    FailedBelow(p, s, x, d);
  }

  // ---------------------------------------------------------------------------------
  // The tasks whose results are synthesized

  /** Completed tasks on which no completed task depends. */
  ghost function Sinks(p: Plan, completed: set<Id>): set<Id> {
    set x | x in completed && forall y :: y in completed ==> !Edge(p.deps, y, x)
  }

  lemma SinkAbove(p: Plan, completed: set<Id>, x: Id) returns (f: Id)
    requires p.Valid() && completed <= p.deps.Keys && x in completed
    ensures f in Sinks(p, completed) && Reaches(p.deps, f, x)
  {
    f := HighestAbove(p.deps, completed, x);
  }

  /** Every completed task is a final task or a transitive dependency of one, so there is one if any completed. */
  lemma SinksCoverCompleted(p: Plan, outcomes: seq<Id -> Outcome>)
    requires p.Valid()
    ensures var done := p.After(outcomes).completed;
            && (done != {} ==> Sinks(p, done) != {})
            && forall x :: x in done ==> exists f :: f in Sinks(p, done) && Reaches(p.deps, f, x)
  {
    hide Plan.Valid, Sinks, Reaches, Plan.After;
    AfterInv(p, outcomes);
    var done := p.After(outcomes).completed;
    assert done <= p.deps.Keys;
    forall x | x in done ensures exists f :: f in Sinks(p, done) && Reaches(p.deps, f, x) {
      var f := SinkAbove(p, done, x);
    }
  }

  /** The number compared with the failure cap counts cancelled dependents as well as failed tasks. */
  lemma CapCountsCancelledTasks(p: Plan, outcomes: seq<Id -> Outcome>)
    requires p.Valid() && p.cfg.strategy == StopDependents
    ensures var s := p.After(outcomes); |s.failed| == |s.With(Failed)| + |s.With(Cancelled)|
  {
    AfterInv(p, outcomes);
    var s := p.After(outcomes);
    assert s.failed == s.With(Failed) + s.With(Cancelled) && s.With(Failed) !! s.With(Cancelled);
  }
}
