/** The coordinator's nodes as they run: loops that change task records and dictionaries in place. */
module Coordinators {
  import opened Graphs
  import opened Tasks
  import opened Rounds
  import opened Scheduling
  import opened FinalStatuses
  import opened ContinueRuns
  import opened Upstream

  lemma InitialState(dag: seq<Task>, cfg: Config)
    requires UniqueIds(dag) && forall t :: t in dag ==> t.status == Pending
    ensures Sched(StatusOf(dag), {}, {}, {}, Ids(dag)) == Plan(GraphOf(dag), Ids(dag), cfg).Init()
  {
    hide StatusOf, GraphOf, Ids;
    GraphAt(dag);
    StatusIs(dag, map x | x in GraphOf(dag) :: Pending);
  }

  lemma SelectStep(ids: seq<Id>, i: nat, keep: set<Id>)
    requires i < |ids|
    ensures Select(ids[..i + 1], keep) == Select(ids[..i], keep) + if ids[i] in keep then [ids[i]] else []
  {
    assert ids[..i + 1][..i] == ids[..i];
  }

  lemma SelectNothing(ids: seq<Id>, keep: set<Id>)
    ensures Select(ids[..0], keep) == []
  {
  }

  ghost function FirstRounds(outcome: nat -> Id -> Outcome, n: nat): (r: seq<Id -> Outcome>)
    ensures |r| == n
  {
    if n == 0 then [] else FirstRounds(outcome, n - 1) + [outcome(n - 1)]
  }

  /** `picked` are the tasks among the first `i` whose ids are in `keep`, in order. */
  ghost predicate Picked(dag: seq<Task>, i: nat, keep: set<Id>, picked: seq<Task>)
    requires i <= |dag|
  {
    (forall t :: t in picked ==> t in dag) && Ids(picked) == Select(Ids(dag)[..i], keep)
  }

  lemma PickNone(dag: seq<Task>, keep: set<Id>)
    ensures Picked(dag, 0, keep, [])
  {
  }

  lemma PickStep(dag: seq<Task>, i: nat, keep: set<Id>, picked: seq<Task>)
    requires i < |dag| && Picked(dag, i, keep, picked)
    ensures Picked(dag, i + 1, keep, if dag[i].id in keep then picked + [dag[i]] else picked)
  {
    var ids := Ids(dag);
    assert ids[..i + 1][..i] == ids[..i];
    assert Ids(picked + [dag[i]]) == Ids(picked) + [dag[i].id];
  }

  /** The ids of the tasks that succeeded, or of those that did not. */
  ghost function With(tasks: seq<Task>, outcome: Id -> Outcome, ok: bool): set<Id> {
    set t | t in tasks && (outcome(t.id) == Ok) == ok :: t.id
  }

  lemma WithNone(outcome: Id -> Outcome)
    ensures With([], outcome, true) == With([], outcome, false) == {}
  {
  }

  lemma WithStep(tasks: seq<Task>, task: Task, outcome: Id -> Outcome)
    ensures forall ok :: With(tasks + [task], outcome, ok) ==
                         With(tasks, outcome, ok) + if (outcome(task.id) == Ok) == ok then {task.id} else {}
  {
  }

  /** The ids in the three dictionaries. */
  datatype Files = Files(completed: set<Id>, failed: set<Id>, taskVars: set<Id>) {
    function Add(x: Id, outcome: Outcome): Files {
      if outcome == Ok then Files(completed + {x}, failed, taskVars + {x}) else Files(completed, failed + {x}, taskVars)
    }

    ghost function AddAll(tasks: seq<Task>, outcome: Id -> Outcome): Files {
      Files(completed + With(tasks, outcome, true), failed + With(tasks, outcome, false),
            taskVars + With(tasks, outcome, true))
    }
  }

  lemma AddNone(f: Files, outcome: Id -> Outcome)
    ensures f.AddAll([], outcome) == f
  {
    WithNone(outcome);
  }

  lemma AddStep(f: Files, tasks: seq<Task>, task: Task, outcome: Id -> Outcome)
    ensures f.AddAll(tasks + [task], outcome) == f.AddAll(tasks, outcome).Add(task.id, outcome(task.id))
  {
    hide With;
    WithStep(tasks, task, outcome);
  }

  lemma SameIds(dag: seq<Task>)
    requires UniqueIds(dag)
    ensures forall a, b :: a in dag && b in dag && a.id == b.id ==> a == b
  {
  }

  ghost predicate Given(tasks: seq<Task>, inputs: map<Id, Input>, vars: map<Id, TaskVarEntry>)
    reads tasks`dependsOn
  {
    forall t :: t in tasks ==> t.id in inputs && Tells(inputs[t.id], t.dependsOn, vars)
  }

  /** Each task of a batch was given what its dependencies left in `vars`. */
  ghost predicate BatchGiven(deps: Graph, batch: seq<Id>, inputs: map<Id, Input>, vars: map<Id, TaskVarEntry>) {
    forall x :: x in batch ==> x in deps && x in inputs && Tells(inputs[x], deps[x], vars)
  }

  lemma GivenToBatch(p: Plan, dag: seq<Task>, ready: seq<Task>, inputs: map<Id, Input>, vars: map<Id, TaskVarEntry>)
    requires UniqueIds(dag) && p.deps == GraphOf(dag)
    requires (forall t :: t in ready ==> t in dag) && Given(ready, inputs, vars)
    ensures BatchGiven(p.deps, Ids(ready), inputs, vars)
  {
    hide UniqueIds, GraphOf, Tells;
    GraphAt(dag);
    forall x | x in Ids(ready) ensures x in p.deps && x in inputs && Tells(inputs[x], p.deps[x], vars) {
      var i :| 0 <= i < |ready| && Ids(ready)[i] == x;
      assert ready[i] in ready;
    }
  }

  lemma RoundIsCheckedExecuted(p: Plan, s: Sched, outcome: Id -> Outcome)
    ensures p.Round(s, outcome) == p.Checked(p.Executed(s, outcome))
  {
  }

  lemma ExecutedIsFinished(p: Plan, s: Sched, outcome: Id -> Outcome)
    ensures p.Executed(s, outcome) == p.Finished(s, p.Batch(s), outcome)
  {
  }

  /** The sliced ready list is the batch of the round. */
  lemma BatchOf(p: Plan, s: Sched, dag: seq<Task>, ready: seq<Task>, k: int)
    requires p.ids == Ids(dag) && k == p.cfg.maxParallelTasks && Picked(dag, |dag|, p.Ready(s), ready)
    ensures Ids(Slice(ready, k)) == p.Batch(s)
    ensures forall t :: t in Slice(ready, k) ==> t in dag
  {
    assert Ids(dag)[..|dag|] == Ids(dag);
  }

  lemma FinishedAgrees(p: Plan, s: Sched, dag: seq<Task>, batch: seq<Task>, outcome: Id -> Outcome, f: Sched)
    requires UniqueIds(dag) && (forall t :: t in batch ==> t in dag)
    requires s.status.Keys == f.status.Keys == IdSet(dag)
    requires forall t :: t in dag ==>
               f.status[t.id] == if t !in batch then s.status[t.id] else if outcome(t.id) == Ok then Done else Failed
    requires f.completed == s.completed + With(batch, outcome, true)
    requires f.failed == s.failed + With(batch, outcome, false)
    requires f.taskVars == s.taskVars + With(batch, outcome, true)
    requires f.pending == s.pending
    ensures f == p.Finished(s, Ids(batch), outcome)
  {
    hide With, UniqueIds, Ids;
    WithIds(batch, outcome);
    var e := p.Finished(s, Ids(batch), outcome);
    forall x | x in f.status ensures f.status[x] == e.status[x] {
      var t :| t in dag && t.id == x;
      SameMembers(dag, batch, t);
    }
    assert f.status == e.status;
  }

  lemma SameMembers(dag: seq<Task>, batch: seq<Task>, t: Task)
    requires UniqueIds(dag) && (forall b :: b in batch ==> b in dag) && t in dag
    ensures t in batch <==> t.id in Ids(batch)
  {
    if t in batch {
      var i :| 0 <= i < |batch| && batch[i] == t;
      assert Ids(batch)[i] == t.id;
    }
    if t.id in Ids(batch) {
      var i :| 0 <= i < |batch| && Ids(batch)[i] == t.id;
      SameIdSameTask(dag, batch[i], t);
    }
  }

  lemma WithIds(batch: seq<Task>, outcome: Id -> Outcome)
    ensures With(batch, outcome, true) == set x | x in Ids(batch) && outcome(x) == Ok
    ensures With(batch, outcome, false) == set x | x in Ids(batch) && outcome(x) != Ok
  {
    var ids := Ids(batch);
    forall x | x in ids ensures exists t :: t in batch && t.id == x {
      var i :| 0 <= i < |ids| && ids[i] == x;
      assert batch[i] in batch;
    }
    forall t | t in batch ensures t.id in ids {
      var i :| 0 <= i < |batch| && batch[i] == t;
      assert ids[i] == t.id;
    }
  }

  lemma SameIdSameTask(dag: seq<Task>, a: Task, b: Task)
    requires UniqueIds(dag) && a in dag && b in dag && a.id == b.id
    ensures a == b
  {
  }

  lemma DistinctTasks(dag: seq<Task>, i: nat)
    requires UniqueIds(dag) && i < |dag|
    ensures forall j :: 0 <= j < |dag| && j != i ==> dag[j] != dag[i] && dag[j].id != dag[i].id
  {
  }

  /** The ids in `doomed` of the first `i` tasks. */
  ghost function Marked(dag: seq<Task>, i: nat, doomed: set<Id>): set<Id>
    requires i <= |dag|
  {
    set j | 0 <= j < i && dag[j].id in doomed :: dag[j].id
  }

  lemma MarkedNone(dag: seq<Task>, doomed: set<Id>)
    ensures Marked(dag, 0, doomed) == {}
  {
  }

  lemma MarkedStep(dag: seq<Task>, i: nat, doomed: set<Id>)
    requires i < |dag|
    ensures Marked(dag, i + 1, doomed) == Marked(dag, i, doomed) + if dag[i].id in doomed then {dag[i].id} else {}
  {
  }

  lemma MarkedAll(dag: seq<Task>, s: Sched, doomed: set<Id>)
    requires s.status.Keys == IdSet(dag) && doomed <= s.status.Keys
    ensures Marked(dag, |dag|, doomed) == doomed
  {
    forall x | x in doomed ensures x in Marked(dag, |dag|, doomed) {
      var t :| t in dag && t.id == x;
      var j :| 0 <= j < |dag| && dag[j] == t;
    }
  }

  lemma CancelledAgrees(p: Plan, s: Sched, dag: seq<Task>, doomed: set<Id>)
    requires UniqueIds(dag) && s.status.Keys == IdSet(dag)
    requires forall j :: 0 <= j < |dag| ==>
               dag[j].id in s.status && dag[j].status == if dag[j].id in doomed then Cancelled else s.status[dag[j].id]
    ensures s.(status := StatusOf(dag)) == p.Cancel(s, doomed)
  {
    hide StatusOf, IdSet;
    StatusIs(dag, p.Cancel(s, doomed).status);
  }

  lemma CancelEffect(p: Plan, s: Sched, dag: seq<Task>, doomed: set<Id>, record: bool, now: Sched)
    requires UniqueIds(dag) && s.status.Keys == IdSet(dag) && doomed <= IdSet(dag)
    requires forall j :: 0 <= j < |dag| ==>
               dag[j].id in s.status && dag[j].status == if dag[j].id in doomed then Cancelled else s.status[dag[j].id]
    requires now == s.(status := StatusOf(dag), failed := s.failed + if record then Marked(dag, |dag|, doomed) else {})
    ensures now == p.Cancel(s, doomed).(failed := s.failed + if record then doomed else {})
  {
    hide Marked, StatusOf, UniqueIds, IdSet;
    MarkedAll(dag, s, doomed);
    CancelledAgrees(p, s, dag, doomed);
  }

  lemma CheckedCases(p: Plan, s: Sched)
    ensures var all := p.Cancel(s, s.With(Pending));
            var some := p.Cancel(s, p.Dependents(s, s.failed));
            p.Checked(s) ==
            if |s.failed| >= p.cfg.maxTotalFailures then all.(failed := s.failed + s.With(Pending)).(pending := [])
            else if p.cfg.strategy == StopAll && s.failed != {} then all.(failed := s.failed + {}).(pending := [])
            else if p.cfg.strategy == StopDependents && s.failed != {} then
              p.Relist(some.(failed := s.failed + p.Dependents(s, s.failed)))
            else p.Relist(s)
  {
    assert s.failed + {} == s.failed;
  }

  lemma NoRounds(p: Plan, outcome: nat -> Id -> Outcome)
    ensures p.After(FirstRounds(outcome, 0)) == p.Init()
  {
  }

  lemma NextRound(p: Plan, outcome: nat -> Id -> Outcome, n: nat)
    ensures p.After(FirstRounds(outcome, n + 1)) == p.Round(p.After(FirstRounds(outcome, n)), outcome(n))
  {
    assert FirstRounds(outcome, n + 1)[..n] == FirstRounds(outcome, n);
  }

  lemma ActiveAgrees(dag: seq<Task>, s: Sched)
    requires UniqueIds(dag) && s.status == StatusOf(dag)
    ensures (exists t :: t in dag && (t.status == Pending || t.status == Running)) <==>
            s.With(Pending) + s.With(Running) != {}
  {
    hide StatusOf, UniqueIds;
    StatusAt(dag);
    if t :| t in dag && (t.status == Pending || t.status == Running) {
      assert t.id in s.With(Pending) + s.With(Running);
    }
    if x :| x in s.With(Pending) + s.With(Running) {
      var t :| t in dag && t.id == x;
    }
  }

  lemma DoomedTask(p: Plan, s: Sched, task: Task, failedIds: set<Id>)
    requires task.id in p.deps && p.deps[task.id] == task.dependsOn && task.id in s.status
    ensures task.id in s.With(Pending) <==> s.status[task.id] == Pending
    ensures task.id in p.Dependents(s, failedIds) <==>
            s.status[task.id] == Pending && exists d :: d in task.dependsOn && d in failedIds
  {
  }

  class Coordinator {
    const dag: seq<Task>
    const cfg: Config
    /** What the skills produce, task by task. */
    const results: Id -> SkillResult
    ghost const plan: Plan
    var completed: map<Id, Task>
    var failed: map<Id, Task>
    var taskVars: map<Id, TaskVarEntry>
    var pending: seq<Id>
    ghost var state: Sched

    /** The state `decompose_tasks_node` hands over. */
    constructor (dag: seq<Task>, cfg: Config, results: Id -> SkillResult)
      requires UniqueIds(dag) && forall t :: t in dag ==> t.status == Pending
      ensures this.dag == dag && this.cfg == cfg && this.results == results
      ensures Linked() && state == plan.Init()
    {
      hide StatusOf, GraphOf, Ids, Plan.Init, UniqueIds, IdSet;
      this.dag, this.cfg, this.results := dag, cfg, results;
      this.plan := Plan(GraphOf(dag), Ids(dag), cfg);
      this.completed, this.failed, this.taskVars := map[], map[], map[];
      this.pending := seq(|dag|, i requires 0 <= i < |dag| => dag[i].id);
      this.state := Plan(GraphOf(dag), Ids(dag), cfg).Init();
      new;
      assert pending == Ids(dag);
      InitialState(dag, cfg);
    }

    /** The entry that a task's own result gives. */
    function EntryOf(task: Task): TaskVarEntry {
      BuildTaskVarsEntry(task.id, task.skill, results(task.id))
    }

    /** The dictionaries map ids to tasks of the list with that id, and `task_vars` holds each task's own entry. */
    ghost predicate Valid()
      reads this`completed, this`taskVars, this`failed
      ensures Valid() ==> UniqueIds(dag)
    {
      && UniqueIds(dag)
      && KnownTasks(completed) && KnownTasks(failed)
      && Owned(taskVars, completed)
    }

    ghost predicate Owned(vars: map<Id, TaskVarEntry>, done: map<Id, Task>) {
      forall x :: x in vars ==> x in done && vars[x] == EntryOf(done[x])
    }

    lemma AddKnown(tasks: map<Id, Task>, task: Task)
      requires KnownTasks(tasks) && task in dag
      ensures KnownTasks(tasks[task.id := task])
    {
    }

    lemma AddOwned(vars: map<Id, TaskVarEntry>, done: map<Id, Task>, task: Task)
      requires Owned(vars, done)
      ensures Owned(vars[task.id := EntryOf(task)], done[task.id := task])
    {
    }

    ghost predicate KnownTasks(tasks: map<Id, Task>) {
      forall x :: x in tasks ==> tasks[x] in dag && tasks[x].id == x
    }

    /** The tasks still are the ones of the plan, with its dependencies. */
    ghost predicate Planned()
      requires UniqueIds(dag)
      reads dag`dependsOn
    {
      plan == Plan(GraphOf(dag), Ids(dag), cfg)
    }

    ghost function Abs(): Sched
      requires UniqueIds(dag)
      reads this, dag`status
    {
      Sched(StatusOf(dag), completed.Keys, failed.Keys, taskVars.Keys, pending)
    }

    /** `state` is the state between rounds. */
    ghost predicate Linked()
      reads this, dag`status, dag`dependsOn
    {
      Valid() && Planned() && state == Abs()
    }

    method IsTaskReady(task: Task) returns (ready: bool)
      requires Valid() && task in dag
      ensures ready <==> DependenciesDone(task)
    {
      hide UniqueIds;
      var deps := task.dependsOn;
      for i := 0 to |deps|
        invariant forall d :: d in deps[..i] ==> d in completed && completed[d].status == Done
      {
        assert deps[..i + 1] == deps[..i] + [deps[i]];
        if deps[i] !in completed || completed[deps[i]].status != Done {
          return false;
        }
      }
      assert deps[..|deps|] == deps;
      return true;
    }

    ghost predicate DependenciesDone(task: Task)
      reads this`completed, completed.Values`status, task`dependsOn
    {
      forall d :: d in task.dependsOn ==> d in completed && completed[d].status == Done
    }

    lemma ReadinessAgrees(task: Task)
      requires Valid() && Planned() && task in dag
      ensures task.id in plan.Ready(Abs()) <==> task.status == Pending && DependenciesDone(task)
    {
      hide StatusOf, GraphOf, UniqueIds, Ids;
      GraphAt(dag);
      StatusAt(dag);
      forall d | d in completed ensures d in Abs().status && completed[d].status == Abs().status[d] {
        assert completed[d] in dag;
      }
    }

    method IsRunnable(task: Task, ghost keep: set<Id>) returns (runnable: bool)
      requires Valid() && Planned() && task in dag && keep == plan.Ready(Abs())
      ensures runnable <==> task.id in keep
    {
      hide Plan.Ready, StatusOf, GraphOf, Ids, UniqueIds, DependenciesDone;
      ReadinessAgrees(task);
      var ready := IsTaskReady(task);
      runnable := task.status == Pending && ready;
    }

    method ReadyTasks(ghost keep: set<Id>) returns (ready: seq<Task>)
      requires Valid() && Planned() && keep == plan.Ready(Abs())
      ensures Picked(dag, |dag|, keep, ready)
    {
      hide Plan.Ready, StatusOf, GraphOf, Ids, UniqueIds, Picked;
      ready := [];
      PickNone(dag, keep);
      for i := 0 to |dag|
        invariant Planned() && keep == plan.Ready(Abs())
        invariant Picked(dag, i, keep, ready)
      {
        var runnable := IsRunnable(dag[i], keep);
        PickStep(dag, i, keep, ready);
        if runnable {
          ready := ready + [dag[i]];
        }
      }
    }

    method MarkRunning(ready: seq<Task>)
      requires forall t :: t in ready ==> t in dag
      modifies dag`status
      ensures forall t :: t in dag ==> t.status == if t in ready then Running else old(t.status)
    {
      for i := 0 to |ready|
        invariant forall t :: t in dag ==> t.status == if t in ready[..i] then Running else old(t.status)
      {
        assert ready[..i + 1] == ready[..i] + [ready[i]];
        assert ready[i] in ready;
        ready[i].status := Running;
      }
      assert ready[..|ready|] == ready;
    }

    /** The ids in the three dictionaries. */
    ghost function Filing(): Files
      reads this`completed, this`failed, this`taskVars
    {
      Files(completed.Keys, failed.Keys, taskVars.Keys)
    }

    method RecordOne(task: Task, outcome: Outcome)
      requires Valid() && task in dag
      modifies this`completed, this`failed, this`taskVars, task`status
      ensures Valid() && Filing() == old(Filing()).Add(task.id, outcome)
      ensures task.status == if outcome == Ok then Done else Failed
    {
      hide KnownTasks, Owned, UniqueIds, EntryOf;
      AddKnown(completed, task);
      AddKnown(failed, task);
      AddOwned(taskVars, completed, task);
      if outcome == Ok {
        task.status := Done;
        completed := completed[task.id := task];
        taskVars := taskVars[task.id := EntryOf(task)];
      } else {
        task.status := Failed;
        failed := failed[task.id := task];
      }
    }

    /** The loop over `task_results`. */
    method RecordResults(ready: seq<Task>, outcome: Id -> Outcome)
      requires Valid() && forall t :: t in ready ==> t in dag
      modifies this`completed, this`failed, this`taskVars, dag`status
      ensures Valid() && Filing() == old(Filing()).AddAll(ready, outcome)
      ensures forall t :: t in dag ==>
                t.status == if t !in ready then old(t.status) else if outcome(t.id) == Ok then Done else Failed
    {
      hide *;
      AddNone(Filing(), outcome);
      for i := 0 to |ready|
        invariant Valid() && Filing() == old(Filing()).AddAll(ready[..i], outcome)
        invariant forall t :: t in dag ==>
                    t.status == if t !in ready[..i] then old(t.status) else if outcome(t.id) == Ok then Done else Failed
      {
        var task := ready[i];
        assert ready[..i + 1] == ready[..i] + [task];
        assert task in ready && task in dag;
        AddStep(old(Filing()), ready[..i], task, outcome);
        RecordOne(task, outcome(task.id));
      }
      assert ready[..|ready|] == ready;
    }

    method RunBatch(ready: seq<Task>, outcome: Id -> Outcome)
      requires Valid() && forall t :: t in ready ==> t in dag
      modifies this`completed, this`failed, this`taskVars, dag`status
      ensures Valid()
      ensures Abs() == plan.Finished(old(Abs()), Ids(ready), outcome)
    {
      ghost var s := Abs();
      hide Plan.Finished, StatusOf, GraphOf, Ids, UniqueIds, With, IdSet;
      StatusAt(dag);
      MarkRunning(ready);
      RecordResults(ready, outcome);
      StatusAt(dag);
      FinishedAgrees(plan, s, dag, ready, outcome, Abs());
    }

    /** What each task of a batch is given before it runs. */
    method Inputs(ready: seq<Task>) returns (inputs: map<Id, Input>)
      requires Valid() && forall t :: t in ready ==> t in dag
      ensures Given(ready, inputs, taskVars)
    {
      inputs := map[];
      SameIds(dag);
      hide UniqueIds, Tells, Owned, KnownTasks;
      for i := 0 to |ready|
        invariant Given(ready[..i], inputs, taskVars)
      {
        assert ready[..i + 1] == ready[..i] + [ready[i]];
        var input := InjectUpstream(ready[i].dependsOn, taskVars);
        inputs := inputs[ready[i].id := input];
      }
      assert ready[..|ready|] == ready;
    }

    /** The tasks that a round starts. */
    method Started(ghost s: Sched) returns (ready: seq<Task>)
      requires Valid() && Planned() && s == Abs()
      ensures Ids(ready) == plan.Batch(s) && forall t :: t in ready ==> t in dag
    {
      PlannedFacts();
      hide *;
      ready := ReadyTasks(plan.Ready(s));
      BatchOf(plan, s, dag, ready, cfg.maxParallelTasks);
      ready := Slice(ready, cfg.maxParallelTasks);
    }

    /** The tasks that a round starts, and what they are given. */
    method Prepare(ghost s: Sched) returns (ready: seq<Task>, inputs: map<Id, Input>)
      requires Valid() && Planned() && s == Abs()
      ensures Ids(ready) == plan.Batch(s) && forall t :: t in ready ==> t in dag
      ensures BatchGiven(plan.deps, plan.Batch(s), inputs, taskVars)
    {
      PlannedFacts();
      hide *;
      ready := Started(s);
      inputs := Inputs(ready);
      GivenToBatch(plan, dag, ready, inputs, taskVars);
    }

    /** `execute_tasks_node` in a run without interrupts. */
    method ExecuteTasks(outcome: Id -> Outcome) returns (inputs: map<Id, Input>)
      requires Valid() && Planned()
      modifies this`completed, this`failed, this`taskVars, dag`status
      ensures Valid() && Planned()
      ensures Abs() == plan.Executed(old(Abs()), outcome)
      ensures BatchGiven(plan.deps, plan.Batch(old(Abs())), inputs, old(taskVars))
    {
      hide *;
      ghost var s := Abs();
      var ready: seq<Task>;
      ready, inputs := Prepare(s);
      RunBatch(ready, outcome);
      ExecutedIsFinished(plan, s, outcome);
    }

    lemma PlannedFacts()
      requires UniqueIds(dag) && Planned()
      ensures plan.ids == Ids(dag) && plan.cfg == cfg && plan.deps == GraphOf(dag)
    {
    }

    method CancelOne(task: Task, record: bool)
      requires task in dag && KnownTasks(failed)
      modifies this`failed, task`status
      ensures KnownTasks(failed) && task.status == Cancelled
      ensures failed.Keys == old(failed.Keys) + if record then {task.id} else {}
    {
      hide KnownTasks;
      AddKnown(failed, task);
      task.status := Cancelled;
      if record {
        failed := failed[task.id := task];
      }
    }

    predicate Hits(task: Task, all: bool, failedIds: set<Id>)
      reads task`status, task`dependsOn
    {
      task.status == Pending && (all || exists d :: d in task.dependsOn && d in failedIds)
    }

    /**
     * The cancelling loops: pending tasks, either all of them or those with a direct dependency in `failedIds`,
     * recorded in `failed_tasks` when `record` says so.
     */
    method CancelLoop(all: bool, failedIds: set<Id>, record: bool, ghost doomed: set<Id>)
      requires UniqueIds(dag) && forall j :: 0 <= j < |dag| ==> (Hits(dag[j], all, failedIds) <==> dag[j].id in doomed)
      requires KnownTasks(failed)
      modifies this`failed, dag`status
      ensures KnownTasks(failed)
      ensures forall j :: 0 <= j < |dag| ==>
                dag[j].status == if dag[j].id in doomed then Cancelled else old(dag[j].status)
      ensures failed.Keys == old(failed.Keys) + if record then Marked(dag, |dag|, doomed) else {}
    {
      hide Hits, UniqueIds, Marked, KnownTasks;
      MarkedNone(dag, doomed);
      for i := 0 to |dag|
        invariant KnownTasks(failed)
        invariant forall j :: 0 <= j < i ==>
                    dag[j].status == if dag[j].id in doomed then Cancelled else old(dag[j].status)
        invariant forall j :: i <= j < |dag| ==> dag[j].status == old(dag[j].status)
        invariant forall j :: i <= j < |dag| ==> (Hits(dag[j], all, failedIds) <==> dag[j].id in doomed)
        invariant failed.Keys == old(failed.Keys) + if record then Marked(dag, i, doomed) else {}
      {
        DistinctTasks(dag, i);
        MarkedStep(dag, i, doomed);
        if Hits(dag[i], all, failedIds) {
          CancelOne(dag[i], record);
        }
      }
    }

    lemma DoomedAgrees(all: bool, failedIds: set<Id>, doomed: set<Id>)
      requires Valid() && Planned()
      requires doomed == if all then Abs().With(Pending) else plan.Dependents(Abs(), failedIds)
      ensures forall j :: 0 <= j < |dag| ==> (Hits(dag[j], all, failedIds) <==> dag[j].id in doomed)
      ensures forall j :: 0 <= j < |dag| ==> dag[j].id in Abs().status && dag[j].status == Abs().status[dag[j].id]
      ensures Abs().status.Keys == IdSet(dag) && doomed <= IdSet(dag)
    {
      hide GraphOf, UniqueIds, StatusOf, IdSet, Plan.Dependents, Having, Ids;
      GraphAt(dag);
      StatusAt(dag);
      forall j | 0 <= j < |dag| ensures Hits(dag[j], all, failedIds) <==> dag[j].id in doomed {
        DoomedTask(plan, Abs(), dag[j], failedIds);
      }
    }

    method CancelPending(all: bool, failedIds: set<Id>, record: bool)
      requires Valid() && Planned()
      modifies this`failed, dag`status
      ensures Valid() && Planned()
      ensures var s := old(Abs());
              var doomed := if all then s.With(Pending) else plan.Dependents(s, failedIds);
              Abs() == plan.Cancel(s, doomed).(failed := s.failed + if record then doomed else {})
    {
      ghost var s := Abs();
      ghost var doomed := if all then s.With(Pending) else plan.Dependents(s, failedIds);
      AbsParts();
      ValidParts();
      hide *;
      DoomedAgrees(all, failedIds, doomed);
      CancelLoop(all, failedIds, record, doomed);
      AbsParts();
      CancelEffect(plan, s, dag, doomed, record, Abs());
      ValidParts();
    }

    lemma AbsParts()
      requires UniqueIds(dag)
      ensures Abs() == Sched(StatusOf(dag), completed.Keys, failed.Keys, taskVars.Keys, pending)
    {
    }

    lemma ValidParts()
      ensures Valid() <==> UniqueIds(dag) && KnownTasks(completed) && KnownTasks(failed) && Owned(taskVars, completed)
    {
    }

    predicate IsListed(task: Task)
      reads this, task`status
    {
      task.status == Pending && task.id !in completed && task.id !in failed
    }

    lemma ListedAgrees(keep: set<Id>)
      requires Valid() && keep == Abs().With(Pending) - Abs().completed - Abs().failed
      ensures forall j :: 0 <= j < |dag| ==> (IsListed(dag[j]) <==> dag[j].id in keep)
    {
      hide StatusOf, UniqueIds;
      StatusAt(dag);
    }

    method PendingIds(ghost keep: set<Id>) returns (listed: seq<Id>)
      requires forall j :: 0 <= j < |dag| ==> (IsListed(dag[j]) <==> dag[j].id in keep)
      ensures listed == Select(Ids(dag), keep)
    {
      ghost var ids := Ids(dag);
      hide IsListed, Select, Ids;
      listed := [];
      SelectNothing(ids, keep);
      for i := 0 to |dag|
        invariant listed == Select(ids[..i], keep)
      {
        SelectStep(ids, i, keep);
        if IsListed(dag[i]) {
          listed := listed + [dag[i].id];
        } else {
          assert listed + [] == listed;
        }
      }
      assert ids[..|dag|] == ids;
    }

    method RelistPending()
      requires Valid() && Planned()
      modifies this`pending
      ensures Valid() && Planned() && Abs() == plan.Relist(old(Abs()))
    {
      hide GraphOf, UniqueIds, StatusOf, Ids, IsListed, Having, Select, KnownTasks, Owned;
      ghost var s := Abs();
      ghost var keep := s.With(Pending) - s.completed - s.failed;
      ListedAgrees(keep);
      var listed := PendingIds(keep);
      pending := listed;
    }

    /** `check_dependencies_node`. */
    method CheckDependencies()
      requires Valid() && Planned()
      modifies this`failed, this`pending, dag`status
      ensures Valid() && Planned()
      ensures Abs() == plan.Checked(old(Abs()))
    {
      CheckedCases(plan, Abs());
      AbsFailed();
      PlannedFacts();
      hide *;
      if |failed.Keys| >= cfg.maxTotalFailures {
        CancelPending(true, {}, true);
        ClearPending();
      } else if cfg.strategy == StopAll && failed.Keys != {} {
        CancelPending(true, {}, false);
        ClearPending();
      } else if cfg.strategy == StopDependents && failed.Keys != {} {
        CancelPending(false, failed.Keys, true);
        RelistPending();
      } else {
        RelistPending();
      }
    }

    lemma AbsFailed()
      requires UniqueIds(dag)
      ensures Abs().failed == failed.Keys
    {
    }

    method ClearPending()
      requires Valid() && Planned()
      modifies this`pending
      ensures Valid() && Planned() && Abs() == old(Abs()).(pending := [])
    {
      hide KnownTasks, Owned, UniqueIds, StatusOf, GraphOf, Ids;
      pending := [];
    }

    /** `route_after_check_dependencies`. */
    function RouteAfterCheck(): (route: Route)
      requires Valid()
      reads this, dag`status
      ensures route == plan.RouteOf(Abs())
    {
      ActiveAgrees(dag, Abs());
      if !exists t :: t in dag && (t.status == Pending || t.status == Running) then ToSynthesize
      else if pending != [] then ToExecute
      else ToSynthesize
    }

    /** The final tasks that `synthesize_node` selects among the completed ones. */
    method FinalTasks() returns (final: set<Id>)
      requires Valid() && Planned()
      ensures final == Sinks(plan, completed.Keys)
      ensures forall x :: x in final <==> x in completed && forall y :: y in completed ==> !Edge(plan.deps, y, x)
    {
      hide UniqueIds, GraphOf, Ids;
      GraphAt(dag);
      var allDeps: set<Id> := {};
      var rest := completed.Keys;
      while rest != {}
        invariant rest <= completed.Keys
        invariant forall x :: x in allDeps <==> exists y :: y in completed.Keys - rest && Edge(plan.deps, y, x)
      {
        var x :| x in rest;
        rest := rest - {x};
        allDeps := allDeps + Elements(completed[x].dependsOn);
        assert forall d :: d in completed[x].dependsOn <==> Edge(plan.deps, x, d);
      }
      final := set x | x in completed && x !in allDeps;
    }

    /** One execute/check round; `inputs` is what it gave to the tasks it started. */
    method RunRound(outcome: Id -> Outcome) returns (inputs: map<Id, Input>)
      requires Linked()
      modifies this`completed, this`failed, this`taskVars, this`pending, this`state, dag`status
      ensures Linked() && state == plan.Round(old(state), outcome)
      ensures BatchGiven(plan.deps, plan.Batch(old(state)), inputs, old(taskVars))
    {
      RoundIsCheckedExecuted(plan, state, outcome);
      hide Plan.Executed, Plan.Checked, Plan.Batch, StatusOf, GraphOf, Ids, UniqueIds, BatchGiven, Valid;
      inputs := ExecuteTasks(outcome);
      CheckDependencies();
      state := Abs();
    }

    /** Between rounds every done task, and no other, has an entry made from its own result. */
    lemma EntriesAreResults(x: Id)
      requires Linked() && plan.Valid() && Inv(plan, state)
      ensures x in taskVars <==> x in state.With(Done)
      ensures x in taskVars ==>
                x in completed && completed[x] in dag && completed[x].id == x && taskVars[x] == EntryOf(completed[x])
    {
      hide Plan.Valid, Plan.Batch, Having, UniqueIds, StatusOf, GraphOf;
      InvIsCore(plan, state);
    }

    /** `entry` passes on the result of the completed task `d` under its own skill, cut to 2000 characters. */
    ghost predicate ResultOf(d: Id, entry: TaskVarEntry)
      reads this`completed
    {
      && d in completed && completed[d] in dag && completed[d].id == d
      && entry.sourceSkill == completed[d].skill
      && entry.artifacts == results(d).artifacts
      && entry.summary == if |results(d).text| <= 2000 then results(d).text else results(d).text[..1997] + "..."
    }

    /** A task that a round starts is told the result of each of its dependencies, in order, and nothing else. */
    lemma StartedTaskIsTold(x: Id, inputs: map<Id, Input>) returns (entries: seq<TaskVarEntry>)
      requires Linked() && plan.Valid() && Inv(plan, state) && x in plan.Batch(state)
      requires BatchGiven(plan.deps, plan.Batch(state), inputs, taskVars)
      ensures x in plan.deps && x in inputs && Conveys(inputs[x], plan.deps[x], entries)
      ensures |entries| == |plan.deps[x]| && forall k :: 0 <= k < |entries| ==> ResultOf(plan.deps[x][k], entries[k])
    {
      LinkedKeys();
      hide Plan.Valid, Plan.Batch, Conveys, Tells, Inv, Linked, Entries;
      NoDependencyIsSkipped(plan, state, x, taskVars, inputs[x]);
      entries := Entries(plan.deps[x], taskVars);
      EntriesInOrder(plan.deps[x], taskVars);
      forall k | 0 <= k < |entries| ensures ResultOf(plan.deps[x][k], entries[k]) {
        EntriesAreResults(plan.deps[x][k]);
        EntryIsResult(completed[plan.deps[x][k]]);
      }
    }

    lemma LinkedKeys()
      requires Linked()
      ensures taskVars.Keys == state.taskVars
    {
    }

    lemma EntryIsResult(task: Task)
      requires task.id in completed && completed[task.id] == task && task in dag
      ensures ResultOf(task.id, EntryOf(task))
    {
      var text := results(task.id).text;
      if |text| > 2000 {
        var summary := EntryOf(task).summary;
        assert summary == summary[..1997] + summary[1997..];
      }
    }

    function NextRoute(): (route: Route)
      requires Linked()
      reads this, dag`status, dag`dependsOn
      ensures route == plan.RouteOf(state)
    {
      RouteAfterCheck()
    }

    /**
     * The loop of the compiled graph from the initial state, for at most `limit` rounds. With a positive parallelism
     * and a limit of at least the number of tasks it has left the loop, or stalled under `continue`.
     */
    method Run(outcome: nat -> Id -> Outcome, limit: nat) returns (rounds: nat)
      requires Linked() && plan.Valid() && state == plan.Init() && limit >= 1
      modifies this`completed, this`failed, this`taskVars, this`pending, this`state, dag`status
      ensures Linked() && Inv(plan, state)
      ensures 1 <= rounds <= limit && state == plan.After(FirstRounds(outcome, rounds))
      ensures plan.RouteOf(state) == ToSynthesize || rounds == limit
      ensures cfg.maxParallelTasks >= 1 && limit >= |dag| ==>
                plan.RouteOf(state) == ToSynthesize || (cfg.strategy == Continue && Stalled(plan, state))
    {
      PlannedFacts();
      hide *;
      NoRounds(plan, outcome);
      NextRound(plan, outcome, 0);
      ghost var inputs := RunRound(outcome(0));
      rounds := 1;
      while rounds < limit && NextRoute() == ToExecute
        invariant Linked() && 1 <= rounds <= limit
        invariant state == plan.After(FirstRounds(outcome, rounds))
      {
        NextRound(plan, outcome, rounds);
        inputs := RunRound(outcome(rounds));
        rounds := rounds + 1;
      }
      AfterInv(plan, FirstRounds(outcome, rounds));
      if cfg.maxParallelTasks >= 1 && limit >= |dag| && rounds == limit {
        if cfg.strategy == Continue {
          EndsOrStalls(plan, FirstRounds(outcome, rounds));
        } else {
          ReachesSynthesis(plan, FirstRounds(outcome, rounds));
        }
      }
    }
  }
}
