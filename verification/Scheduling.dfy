/** What every run of the coordinator's rounds keeps, and where it ends. */
module Scheduling {
  import opened Graphs
  import opened Tasks
  import opened Rounds

  /** The ids by status, and the keys of the three dictionaries. */
  datatype Parts = Parts(pending: set<Id>, done: set<Id>, failures: set<Id>, cancelled: set<Id>,
                         completed: set<Id>, failed: set<Id>, taskVars: set<Id>)

  function PartsOf(s: Sched): Parts {
    Parts(s.With(Pending), s.With(Done), s.With(Failed), s.With(Cancelled), s.completed, s.failed, s.taskVars)
  }

  /** Whether `failed` holds the cancelled tasks: under `stop_all` only if the cap cancelled them. */
  predicate CancelsRecorded(cfg: Config, failures: set<Id>) {
    cfg.strategy != StopAll || |failures| >= cfg.maxTotalFailures
  }

  /** The dictionaries agree with the statuses. */
  predicate Agree(cfg: Config, x: Parts) {
    && x.completed == x.done == x.taskVars
    && x.failed == x.failures + (if CancelsRecorded(cfg, x.failures) then x.cancelled else {})
    && (cfg.strategy != StopDependents && x.pending != {} ==> x.cancelled == {})
  }

  lemma FinishAgrees(cfg: Config, x: Parts, y: Parts, ok: set<Id>, bad: set<Id>)
    requires Agree(cfg, x) && ok <= x.pending && bad <= x.pending
    requires y == Parts(y.pending, x.done + ok, x.failures + bad, x.cancelled,
                        x.completed + ok, x.failed + bad, x.taskVars + ok)
    requires y.pending == x.pending - (ok + bad)
    ensures Agree(cfg, y)
  {
    if x.pending == {} {
      assert bad == {};
      assert y.failures == x.failures;
    }
  }

  lemma CancelAgrees(cfg: Config, x: Parts, y: Parts, doomed: set<Id>)
    requires Agree(cfg, x) && doomed <= x.pending
    requires cfg.strategy != StopDependents ==> doomed == x.pending
    requires y == x.(pending := y.pending, cancelled := x.cancelled + doomed,
                     failed := x.failed + if CancelsRecorded(cfg, x.failures) then doomed else {})
    requires y.pending == x.pending - doomed
    ensures Agree(cfg, y)
  {
  }

  /** Holds between any two nodes of the graph. */
  ghost predicate Core(p: Plan, s: Sched) {
    && s.status.Keys == p.deps.Keys
    && s.With(Running) == {}
    && Agree(p.cfg, PartsOf(s))
    && RanAfterDependencies(p, s)
  }

  /** A task that has run had all its dependencies done. */
  ghost predicate RanAfterDependencies(p: Plan, s: Sched)
    requires s.status.Keys == p.deps.Keys
  {
    forall x, d :: x in s.With(Done) + s.With(Failed) && Edge(p.deps, x, d) ==> d in s.With(Done)
  }

  /** Holds in the initial state and after every round. */
  ghost predicate Inv(p: Plan, s: Sched) {
    && Core(p, s)
    && s.pending == Select(p.ids, s.With(Pending))
    && (p.cfg.strategy == StopAll && s.With(Pending) != {} ==> s.failed == {})
  }

  lemma InitInv(p: Plan)
    requires p.Valid()
    ensures Inv(p, p.Init())
  {
    AllPendingAtStart(p);
    SelectAll(p.ids, p.Init().With(Pending));
    assert forall x :: x in p.ids ==> x in Elements(p.ids);
    hide Having, Select, Plan.Valid, Elements;
    assert p.Init().failed == {};
  }

  lemma {:induction false} SelectAll(ids: seq<Id>, keep: set<Id>)
    requires forall x :: x in ids ==> x in keep
    ensures Select(ids, keep) == ids
  {
    if ids != [] {
      var front := ids[..|ids| - 1];
      assert ids == front + [ids[|ids| - 1]];
      SelectAll(front, keep);
    }
  }

  lemma FinishedSets(p: Plan, s: Sched, batch: seq<Id>, outcome: Id -> Outcome)
    requires Elements(batch) <= s.With(Pending)
    ensures var f := p.Finished(s, batch, outcome);
            && f.With(Done) == s.With(Done) + (set x | x in batch && outcome(x) == Ok)
            && f.With(Failed) == s.With(Failed) + (set x | x in batch && outcome(x) != Ok)
            && f.With(Pending) == s.With(Pending) - Elements(batch)
            && f.With(Cancelled) == s.With(Cancelled)
            && f.With(Running) == s.With(Running)
  {
    forall x | x in batch ensures x in s.With(Pending) {
      assert x in Elements(batch);
    }
  }

  lemma CancelSets(p: Plan, s: Sched, doomed: set<Id>)
    requires doomed <= s.With(Pending)
    ensures var c := p.Cancel(s, doomed);
            && c.With(Done) == s.With(Done)
            && c.With(Failed) == s.With(Failed)
            && c.With(Pending) == s.With(Pending) - doomed
            && c.With(Cancelled) == s.With(Cancelled) + doomed
            && c.With(Running) == s.With(Running)
            && c.status.Keys == s.status.Keys && c == s.(status := c.status)
  {
  }

  lemma BatchIsReady(p: Plan, s: Sched)
    requires s.status.Keys == p.deps.Keys && s.completed == s.With(Done)
    ensures Elements(p.Batch(s)) <= s.With(Pending)
    ensures forall x, d :: x in p.Batch(s) && Edge(p.deps, x, d) ==> d in s.With(Done)
  {
    forall x | x in p.Batch(s) ensures x in p.Ready(s) {
    }
  }

  lemma ExecutedAgrees(p: Plan, s: Sched, batch: seq<Id>, f: Sched, outcome: Id -> Outcome)
    requires Agree(p.cfg, PartsOf(s)) && Elements(batch) <= s.With(Pending) && f == p.Finished(s, batch, outcome)
    ensures Agree(p.cfg, PartsOf(f)) && f.With(Running) == s.With(Running)
  {
    hide Having, Agree;
    FinishedSets(p, s, batch, outcome);
    var ok := set x | x in batch && outcome(x) == Ok;
    var bad := set x | x in batch && outcome(x) != Ok;
    assert forall x :: x in batch ==> x in Elements(batch);
    assert Elements(batch) == ok + bad;
    FinishAgrees(p.cfg, PartsOf(s), PartsOf(f), ok, bad);
  }

  lemma ExecutedRan(p: Plan, s: Sched, batch: seq<Id>, f: Sched, outcome: Id -> Outcome)
    requires s.status.Keys == p.deps.Keys && RanAfterDependencies(p, s) && Elements(batch) <= s.With(Pending)
    requires forall x, d :: x in batch && Edge(p.deps, x, d) ==> d in s.With(Done)
    requires f == p.Finished(s, batch, outcome)
    ensures f.status.Keys == p.deps.Keys && RanAfterDependencies(p, f)
  {
    FinishedSets(p, s, batch, outcome);
    hide Having;
  }

  lemma ExecutedCore(p: Plan, s: Sched, outcome: Id -> Outcome)
    requires p.Valid() && Core(p, s)
    ensures Core(p, p.Executed(s, outcome))
    ensures p.Executed(s, outcome).With(Pending) == s.With(Pending) - Elements(p.Batch(s))
    ensures Elements(p.Batch(s)) <= s.With(Pending)
    ensures s.With(Done) <= p.Executed(s, outcome).With(Done) && s.With(Failed) <= p.Executed(s, outcome).With(Failed)
    ensures p.Executed(s, outcome).With(Cancelled) == s.With(Cancelled)
  {
    var f := p.Executed(s, outcome);
    assert s.completed == s.With(Done);
    BatchIsReady(p, s);
    hide Having, Plan.Batch, Plan.Valid, Plan.Finished, Agree, RanAfterDependencies;
    FinishedSets(p, s, p.Batch(s), outcome);
    ExecutedAgrees(p, s, p.Batch(s), f, outcome);
    ExecutedRan(p, s, p.Batch(s), f, outcome);
  }

  lemma CancelledCore(p: Plan, e: Sched, doomed: set<Id>, c: Sched)
    requires Core(p, e) && doomed <= e.With(Pending)
    requires c == p.Cancel(e, doomed).(failed := c.failed, pending := c.pending)
    requires c.failed == e.failed + if CancelsRecorded(p.cfg, e.With(Failed)) then doomed else {}
    requires p.cfg.strategy != StopDependents ==> doomed == e.With(Pending)
    ensures Core(p, c)
    ensures c.With(Pending) == e.With(Pending) - doomed && c.With(Cancelled) == e.With(Cancelled) + doomed
    ensures c.With(Done) == e.With(Done) && c.With(Failed) == e.With(Failed)
  {
    hide Having, Plan.Cancel, Agree, CancelsRecorded;
    CancelSets(p, e, doomed);
    CancelAgrees(p.cfg, PartsOf(e), PartsOf(c), doomed);
  }

  lemma RelistsPending(p: Plan, s: Sched)
    requires Core(p, s)
    ensures p.Relist(s).pending == Select(p.ids, s.With(Pending))
    ensures Core(p, p.Relist(s))
  {
    assert s.With(Pending) - s.completed - s.failed == s.With(Pending);
  }

  /** Whether a check that sees `failed` reaches the cap tells whether the cancelled tasks are recorded. */
  lemma CapTellsRecorded(p: Plan, e: Sched)
    requires Core(p, e) && e.With(Pending) != {}
    ensures p.cfg.strategy == StopAll ==>
              (CancelsRecorded(p.cfg, e.With(Failed)) <==> |e.failed| >= p.cfg.maxTotalFailures)
  {
    assert p.cfg.strategy == StopAll ==> e.failed == e.With(Failed);
  }

  /** A check that cancels everything pending. */
  lemma CancelAllInv(p: Plan, e: Sched, c: Sched)
    requires Core(p, e) && c == p.Cancel(e, e.With(Pending)).(failed := c.failed, pending := [])
    requires c.failed == e.failed + if CancelsRecorded(p.cfg, e.With(Failed)) then e.With(Pending) else {}
    ensures Inv(p, c) && c.With(Pending) == {}
    ensures c.With(Done) == e.With(Done) && c.With(Failed) == e.With(Failed)
    ensures c.With(Cancelled) == e.With(Cancelled) + e.With(Pending)
  {
    hide Having, Plan.Cancel, Core;
    SelectNone(p.ids);
    CancelledCore(p, e, e.With(Pending), c);
    assert c.With(Pending) == {};
  }

  lemma CapInv(p: Plan, e: Sched)
    requires Core(p, e) && |e.failed| >= p.cfg.maxTotalFailures
    ensures Inv(p, p.Checked(e)) && p.Checked(e).With(Pending) == {}
    ensures p.Checked(e).With(Done) == e.With(Done) && p.Checked(e).With(Failed) == e.With(Failed)
    ensures p.Checked(e).With(Cancelled) == e.With(Cancelled) + e.With(Pending)
  {
    if e.With(Pending) != {} {
      CapTellsRecorded(p, e);
    }
    hide Having, Plan.Cancel, Core, Inv;
    CancelAllInv(p, e, p.Checked(e));
  }

  lemma StopAllInv(p: Plan, e: Sched)
    requires Core(p, e) && |e.failed| < p.cfg.maxTotalFailures && p.cfg.strategy == StopAll && e.failed != {}
    ensures Inv(p, p.Checked(e)) && p.Checked(e).With(Pending) == {}
    ensures p.Checked(e).With(Done) == e.With(Done) && p.Checked(e).With(Failed) == e.With(Failed)
    ensures p.Checked(e).With(Cancelled) == e.With(Cancelled) + e.With(Pending)
  {
    if e.With(Pending) != {} {
      CapTellsRecorded(p, e);
    }
    hide Having, Plan.Cancel, Core, Inv;
    assert e.failed + {} == e.failed;
    CancelAllInv(p, e, p.Checked(e));
  }

  lemma StopDependentsInv(p: Plan, e: Sched)
    requires Core(p, e) && |e.failed| < p.cfg.maxTotalFailures && p.cfg.strategy == StopDependents && e.failed != {}
    ensures Inv(p, p.Checked(e)) && p.Checked(e).With(Pending) <= e.With(Pending)
    ensures p.Checked(e).With(Done) == e.With(Done) && p.Checked(e).With(Failed) == e.With(Failed)
    ensures e.With(Cancelled) <= p.Checked(e).With(Cancelled)
  {
    hide Having, Plan.Cancel, Plan.Dependents, Core;
    var doomed := p.Dependents(e, e.failed);
    var k := p.Cancel(e, doomed).(failed := e.failed + doomed);
    CancelledCore(p, e, doomed, k);
    RelistsPending(p, k);
    assert p.Checked(e) == p.Relist(k);
  }

  lemma CheckedInv(p: Plan, e: Sched)
    requires p.Valid() && Core(p, e)
    ensures Inv(p, p.Checked(e))
    ensures p.Checked(e).With(Pending) <= e.With(Pending)
    ensures p.Checked(e).With(Done) == e.With(Done) && p.Checked(e).With(Failed) == e.With(Failed)
    ensures e.With(Cancelled) <= p.Checked(e).With(Cancelled)
  {
    hide Having, Plan.Valid, Plan.Dependents, Plan.Cancel, Core;
    if |e.failed| >= p.cfg.maxTotalFailures {
      CapInv(p, e);
    } else if p.cfg.strategy == StopAll && e.failed != {} {
      StopAllInv(p, e);
    } else if p.cfg.strategy == StopDependents && e.failed != {} {
      StopDependentsInv(p, e);
    } else {
      RelistsPending(p, e);
    }
  }

  lemma {:induction false} SelectNone(ids: seq<Id>)
    ensures Select(ids, {}) == []
  {
    if ids != [] {
      SelectNone(ids[..|ids| - 1]);
    }
  }

  lemma RoundInv(p: Plan, s: Sched, outcome: Id -> Outcome)
    requires p.Valid() && Inv(p, s)
    ensures Inv(p, p.Round(s, outcome))
    ensures p.Round(s, outcome).With(Pending) <= s.With(Pending) - Elements(p.Batch(s))
    ensures s.With(Done) <= p.Round(s, outcome).With(Done) && s.With(Failed) <= p.Round(s, outcome).With(Failed)
    ensures s.With(Cancelled) <= p.Round(s, outcome).With(Cancelled)
  {
    ExecutedCore(p, s, outcome);
    CheckedInv(p, p.Executed(s, outcome));
  }

  /** The invariant holds in every reachable state. */
  lemma {:induction false} AfterInv(p: Plan, outcomes: seq<Id -> Outcome>)
    requires p.Valid()
    ensures Inv(p, p.After(outcomes))
  {
    if |outcomes| == 0 {
      InitInv(p);
    } else {
      AfterInv(p, outcomes[..|outcomes| - 1]);
      RoundInv(p, p.After(outcomes[..|outcomes| - 1]), outcomes[|outcomes| - 1]);
    }
  }

  // ---------------------------------------------------------------------------------
  // Safety over whole runs

  lemma {:induction false} LaterPending(p: Plan, outcomes: seq<Id -> Outcome>, i: nat)
    requires p.Valid() && i <= |outcomes|
    ensures p.After(outcomes).With(Pending) <= p.After(outcomes[..i]).With(Pending)
    ensures p.After(outcomes[..i]).With(Done) <= p.After(outcomes).With(Done)
    ensures p.After(outcomes[..i]).With(Failed) <= p.After(outcomes).With(Failed)
    ensures p.After(outcomes[..i]).With(Cancelled) <= p.After(outcomes).With(Cancelled)
  {
    if i == |outcomes| {
      assert outcomes[..i] == outcomes;
    } else {
      var before := outcomes[..|outcomes| - 1];
      LaterPending(p, before, i);
      assert before[..i] == outcomes[..i];
      AfterInv(p, before);
      RoundInv(p, p.After(before), outcomes[|outcomes| - 1]);
    }
  }

  /** The tasks that the `i`-th round starts. */
  ghost function Started(p: Plan, outcomes: seq<Id -> Outcome>, i: nat): seq<Id>
    requires i < |outcomes|
  {
    p.Batch(p.After(outcomes[..i]))
  }

  lemma {:induction false} SelectDistinct(ids: seq<Id>, keep: set<Id>)
    requires Distinct(ids)
    ensures Distinct(Select(ids, keep))
  {
    if ids != [] {
      var front := ids[..|ids| - 1];
      SelectDistinct(front, keep);
      forall x | x in Select(front, keep) ensures x != ids[|ids| - 1] {
        assert x in front;
      }
    }
  }

  lemma NotStartedAgain(p: Plan, outcomes: seq<Id -> Outcome>, i: nat, j: nat)
    requires p.Valid() && i < j < |outcomes|
    ensures Elements(Started(p, outcomes, i)) !! Elements(Started(p, outcomes, j))
  {
    hide Plan.Valid, Plan.Batch, Having, Plan.Round, Inv, Core;
    AfterInv(p, outcomes[..i]);
    assert outcomes[..i + 1][..i] == outcomes[..i];
    RoundInv(p, p.After(outcomes[..i]), outcomes[i]);
    LaterPending(p, outcomes[..j], i + 1);
    assert outcomes[..j][..i + 1] == outcomes[..i + 1];
    StartsPending(p, outcomes[..j]);
  }

  lemma StartsPending(p: Plan, outcomes: seq<Id -> Outcome>)
    requires p.Valid()
    ensures var s := p.After(outcomes);
            && Elements(p.Batch(s)) <= s.With(Pending)
            && s.taskVars == s.With(Done)
            && forall x, d :: x in p.Batch(s) && Edge(p.deps, x, d) ==> d in s.With(Done)
  {
    AfterInv(p, outcomes);
    BatchIsReady(p, p.After(outcomes));
  }

  /**
   * A round starts at most `max_parallel_tasks` tasks, each once and only with all its dependencies done and
   * recorded in `task_vars`; no later round starts any of them again.
   */
  lemma StartsAreSafe(p: Plan, outcomes: seq<Id -> Outcome>, i: nat)
    requires p.Valid() && i < |outcomes|
    ensures Distinct(Started(p, outcomes, i))
    ensures p.cfg.maxParallelTasks >= 0 ==> |Started(p, outcomes, i)| <= p.cfg.maxParallelTasks
    ensures forall x, d :: x in Started(p, outcomes, i) && Edge(p.deps, x, d) ==>
              d in p.After(outcomes[..i]).With(Done) && d in p.After(outcomes[..i]).taskVars
    ensures forall j :: i < j < |outcomes| ==> Elements(Started(p, outcomes, i)) !! Elements(Started(p, outcomes, j))
  {
    hide Having, Plan.Round, Plan.After, Plan.Ready, Edge;
    SelectDistinct(p.ids, p.Ready(p.After(outcomes[..i])));
    StartsPending(p, outcomes[..i]);
    forall j | i < j < |outcomes|
      ensures Elements(Started(p, outcomes, i)) !! Elements(Started(p, outcomes, j))
    {
      NotStartedAgain(p, outcomes, i, j);
    }
  }

  /** Where a selected element stands: what is selected before it also comes before it in the whole list. */
  lemma {:induction false} SelectedAt(ids: seq<Id>, keep: set<Id>, k: nat) returns (m: nat)
    requires k < |ids| && ids[k] in keep
    ensures m < |Select(ids, keep)| && Select(ids, keep)[m] == ids[k]
    ensures Select(ids, keep)[..m] == Select(ids[..k], keep)
  {
    var n := |ids| - 1;
    if k < n {
      m := SelectedAt(ids[..n], keep, k);
      assert ids[..n][..k] == ids[..k];
    } else {
      m := |Select(ids[..n], keep)|;
    }
  }

  /** What precedes the first missing element among the selected ones precedes it in the whole list. */
  lemma BeforeMissing(ids: seq<Id>, keep: set<Id>, k: nat, n: nat)
    requires k < |ids| && ids[k] in keep && n <= |Select(ids, keep)| && ids[k] !in Select(ids, keep)[..n]
    ensures n < |Select(ids, keep)| && forall y :: y in Select(ids, keep)[..n] ==> y in ids[..k]
  {
    var m := SelectedAt(ids, keep, k);
    hide Select;
    var all := Select(ids, keep);
    NotInPrefix(all, n, m);
    forall y | y in all[..n] ensures y in ids[..k] {
      var i :| 0 <= i < n && all[..n][i] == y;
      assert all[..m][i] == y;
    }
  }

  lemma NotInPrefix(xs: seq<Id>, n: nat, m: nat)
    requires n <= |xs| && m < |xs| && xs[m] !in xs[..n]
    ensures n <= m
  {
  }

  /**
   * A round leaves a runnable task waiting only if it starts as many tasks as `max_parallel_tasks` allows, all of them
   * listed before it.
   */
  lemma NoReadyTaskWaits(p: Plan, s: Sched, k: nat)
    requires p.Valid() && Inv(p, s) && p.cfg.maxParallelTasks >= 0 && k < |p.ids|
    requires p.ids[k] in s.With(Pending) && forall d :: Edge(p.deps, p.ids[k], d) ==> d in s.With(Done)
    requires p.ids[k] !in p.Batch(s)
    ensures |p.Batch(s)| == p.cfg.maxParallelTasks && forall x :: x in p.Batch(s) ==> x in p.ids[..k]
  {
    WaitingIsReady(p, s, p.ids[k]);
    BatchIsPrefix(p, s);
    hide *;
    BeforeMissing(p.ids, p.Ready(s), k, |p.Batch(s)|);
  }

  lemma BatchIsPrefix(p: Plan, s: Sched)
    requires p.cfg.maxParallelTasks >= 0
    ensures var all, batch := Select(p.ids, p.Ready(s)), p.Batch(s);
            && |batch| <= |all| && batch == all[..|batch|]
            && (|batch| < |all| ==> |batch| == p.cfg.maxParallelTasks)
  {
  }

  lemma WaitingIsReady(p: Plan, s: Sched, x: Id)
    requires p.Valid() && Inv(p, s)
    requires x in s.With(Pending) && forall d :: Edge(p.deps, x, d) ==> d in s.With(Done)
    ensures x in p.Ready(s)
  {
    hide Plan.Valid, Having;
    InvIsCore(p, s);
    forall d | d in p.deps[x] ensures d in s.completed && d in s.status && s.status[d] == Done {
      assert Edge(p.deps, x, d);
    }
  }

  // ---------------------------------------------------------------------------------
  // Progress

  /** A pending task with a failed or cancelled dependency does not survive the check. */
  lemma DependentIsCancelled(p: Plan, e: Sched, x: Id, d: Id)
    requires p.Valid() && Core(p, e) && p.cfg.strategy != Continue
    requires Edge(p.deps, x, d) && d in e.failed
    ensures x !in p.Checked(e).With(Pending)
  {
    if |e.failed| >= p.cfg.maxTotalFailures {
      hide Having, Plan.Checked, Core, Plan.Valid;
      CapInv(p, e);
    } else if p.cfg.strategy == StopAll {
      hide Having, Plan.Checked, Core, Plan.Valid;
      StopAllInv(p, e);
    } else {
      StopsDependent(p, e, x, d);
    }
  }

  lemma StopsDependent(p: Plan, e: Sched, x: Id, d: Id)
    requires Edge(p.deps, x, d) && d in e.failed
    requires |e.failed| < p.cfg.maxTotalFailures && p.cfg.strategy == StopDependents
    ensures x !in p.Checked(e).With(Pending)
  {
    hide Plan.Cancel;
    var dependents := p.Dependents(e, e.failed);
    CancelSets(p, e, dependents);
    assert x in e.With(Pending) ==> x in dependents;
    hide Plan.Dependents;
    assert p.Checked(e).status == p.Cancel(e, dependents).status;
  }

  lemma LowestPending(p: Plan, s: Sched) returns (low: Id)
    requires p.Valid() && s.status.Keys == p.deps.Keys && s.With(Pending) != {}
    ensures low in s.With(Pending) && low in p.deps
    ensures forall d :: d in p.deps[low] ==> Edge(p.deps, low, d) && d in s.status && s.status[d] != Pending
  {
    var x :| x in s.With(Pending);
    low := LowestBelow(p.deps, s.With(Pending), x);
    assert forall d :: d in p.deps[low] ==> Edge(p.deps, low, d);
  }

  lemma UnfinishedDependencyFailed(p: Plan, s: Sched, d: Id)
    requires Inv(p, s) && s.With(Pending) != {} && p.cfg.strategy != Continue
    requires d in s.status && s.status[d] != Pending && s.status[d] != Done
    ensures d in s.failed
  {
    hide Select;
    assert d !in s.With(Running);
    assert d in s.With(Failed) + s.With(Cancelled);
  }

  /** Under either stopping strategy a round that has something pending leaves less pending. */
  lemma RoundShrinksPending(p: Plan, s: Sched, outcome: Id -> Outcome)
    requires p.Valid() && Inv(p, s) && s.With(Pending) != {}
    requires p.cfg.strategy != Continue && p.cfg.maxParallelTasks >= 1
    ensures p.Round(s, outcome).With(Pending) < s.With(Pending)
  {
    hide Plan.Checked, Plan.Valid, Plan.Batch, Inv, Core;
    InvIsCore(p, s);
    RoundInv(p, s, outcome);
    var low := LowestPending(p, s);
    ExecutedCore(p, s, outcome);
    if forall d :: d in p.deps[low] ==> s.status[d] == Done {
      ReadyMeansBatch(p, s, low);
    } else {
      var d :| d in p.deps[low] && s.status[d] != Done;
      UnfinishedDependencyFailed(p, s, d);
      DependentIsCancelled(p, p.Executed(s, outcome), low, d);
    }
  }

  lemma InvIsCore(p: Plan, s: Sched)
    requires Inv(p, s)
    ensures Core(p, s) && s.status.Keys == p.deps.Keys && s.With(Running) == {}
  {
  }

  lemma ReadyMeansBatch(p: Plan, s: Sched, x: Id)
    requires p.Valid() && Core(p, s) && x in s.With(Pending) && p.cfg.maxParallelTasks >= 1
    requires forall d :: d in p.deps[x] ==> d in s.status && s.status[d] == Done
    ensures Elements(p.Batch(s)) != {}
  {
    assert x in p.Ready(s) && x in p.ids by {
      assert x in Elements(p.ids);
    }
    assert p.Batch(s) != [];
    assert p.Batch(s)[0] in Elements(p.Batch(s));
  }

  /** Routing reaches `synthesize` within as many rounds as there are tasks. */
  lemma {:induction false} ReachesSynthesis(p: Plan, outcomes: seq<Id -> Outcome>)
    requires p.Valid() && p.cfg.strategy != Continue && p.cfg.maxParallelTasks >= 1
    ensures |p.After(outcomes).With(Pending)| + |outcomes| <= |p.ids| || p.After(outcomes).With(Pending) == {}
    ensures |outcomes| >= |p.ids| ==> p.RouteOf(p.After(outcomes)) == ToSynthesize
  {
    hide Plan.Valid, Plan.Round, Having, Inv;
    AfterInv(p, outcomes);
    var s := p.After(outcomes);
    InvIsCore(p, s);
    if |outcomes| == 0 {
      AllPendingAtStart(p);
      ElementsFit(p.ids);
    } else {
      var before := outcomes[..|outcomes| - 1];
      ReachesSynthesis(p, before);
      AfterInv(p, before);
      RoundInv(p, p.After(before), outcomes[|outcomes| - 1]);
      if p.After(before).With(Pending) != {} {
        RoundShrinksPending(p, p.After(before), outcomes[|outcomes| - 1]);
        SmallerSet(s.With(Pending), p.After(before).With(Pending));
      }
    }
  }

  lemma AllPendingAtStart(p: Plan)
    requires p.Valid()
    ensures var s := p.Init();
            && s.With(Pending) == Elements(p.ids) && s.With(Running) == {} && s.With(Done) == {}
            && s.With(Failed) == {} && s.With(Cancelled) == {}
  {
  }

  lemma SmallerSet(a: set<Id>, b: set<Id>)
    requires a < b
    ensures |a| < |b|
  {
    assert !(b <= a);
    var x :| x in b && x !in a;
    SubsetSize(a, b - {x});
  }

  lemma {:induction false} SubsetSize(a: set<Id>, b: set<Id>)
    requires a <= b
    ensures |a| <= |b|
  {
    if x :| x in a {
      SubsetSize(a - {x}, b - {x});
    }
  }

  lemma {:induction false} ElementsFit(ids: seq<Id>)
    ensures |Elements(ids)| <= |ids|
  {
    if ids != [] {
      ElementsFit(ids[1..]);
      assert Elements(ids) == {ids[0]} + Elements(ids[1..]);
    }
  }
}
