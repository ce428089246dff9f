/** One execute/check round of the coordinator as a function on its state. */
module Rounds {
  import opened Graphs
  import opened Tasks

  datatype Strategy = StopAll | StopDependents | Continue

  datatype Config = Config(strategy: Strategy, maxTotalFailures: int, maxParallelTasks: int)

  datatype Outcome = Ok | Error | Timeout

  datatype Route = ToExecute | ToSynthesize

  function Having(status: map<Id, Status>, st: Status): (r: set<Id>)
    ensures forall x :: x in r <==> x in status && status[x] == st
  {
    set x | x in status && status[x] == st
  }

  /** The parts of the coordinator state that scheduling reads and writes; the dictionaries by their keys. */
  datatype Sched = Sched(
    status: map<Id, Status>, completed: set<Id>, failed: set<Id>, taskVars: set<Id>, pending: seq<Id>)
  {
    function With(st: Status): set<Id> {
      Having(status, st)
    }
  }

  /** The elements of `ids` that are in `keep`, in order. */
  function Select(ids: seq<Id>, keep: set<Id>): (r: seq<Id>)
    ensures forall x :: x in r <==> x in ids && x in keep
    ensures |r| <= |ids|
  {
    if ids == [] then []
    else Select(ids[..|ids| - 1], keep) + if ids[|ids| - 1] in keep then [ids[|ids| - 1]] else []
  }

  /** Python's `xs[:k]`, where a negative `k` drops elements from the end. */
  function Slice<T>(xs: seq<T>, k: int): (r: seq<T>)
    ensures |r| <= |xs| && r == xs[..|r|]
    ensures k >= 0 ==> |r| == if k <= |xs| then k else |xs|
    ensures k < 0 ==> |r| == if |xs| + k > 0 then |xs| + k else 0
  {
    if k >= 0 then (if k <= |xs| then xs[..k] else xs)
    else if |xs| + k > 0 then xs[..|xs| + k] else []
  }

  /** A task list in its order, with the configuration it runs under. */
  datatype Plan = Plan(deps: Graph, ids: seq<Id>, cfg: Config) {
    /** What validation and repair establish. */
    ghost predicate Valid() {
      && Closed(deps) && Acyclic(deps)
      && Distinct(ids)
      && Elements(ids) == deps.Keys
    }

    function Init(): Sched {
      Sched(map x | x in deps :: Pending, {}, {}, {}, ids)
    }

    predicate IsReady(s: Sched, x: Id)
      requires x in deps
    {
      forall d :: d in deps[x] ==> d in s.completed && d in s.status && s.status[d] == Done
    }

    function Ready(s: Sched): set<Id> {
      set x | x in s.status && x in deps && s.status[x] == Pending && IsReady(s, x)
    }

    function Batch(s: Sched): seq<Id> {
      Slice(Select(ids, Ready(s)), cfg.maxParallelTasks)
    }

    function Finished(s: Sched, batch: seq<Id>, outcome: Id -> Outcome): Sched {
      s.(status := map x | x in s.status ::
                     if x !in batch then s.status[x] else if outcome(x) == Ok then Done else Failed,
         completed := s.completed + (set x | x in batch && outcome(x) == Ok),
         failed := s.failed + (set x | x in batch && outcome(x) != Ok),
         taskVars := s.taskVars + (set x | x in batch && outcome(x) == Ok))
    }

    /** `execute_tasks_node`. */
    function Executed(s: Sched, outcome: Id -> Outcome): Sched {
      Finished(s, Batch(s), outcome)
    }

    function Cancel(s: Sched, doomed: set<Id>): Sched {
      s.(status := map x | x in s.status :: if x in doomed then Cancelled else s.status[x])
    }

    /** Pending tasks with a direct dependency in `failed`. */
    function Dependents(s: Sched, failed: set<Id>): (r: set<Id>)
      ensures r <= s.With(Pending)
    {
      set x | x in s.status && x in deps && s.status[x] == Pending && exists d :: d in deps[x] && d in failed
    }

    function Relist(s: Sched): Sched {
      s.(pending := Select(ids, s.With(Pending) - s.completed - s.failed))
    }

    /** `check_dependencies_node`. */
    function Checked(s: Sched): Sched {
      if |s.failed| >= cfg.maxTotalFailures then
        Cancel(s, s.With(Pending)).(failed := s.failed + s.With(Pending), pending := [])
      else if cfg.strategy == StopAll && s.failed != {} then
        Cancel(s, s.With(Pending)).(pending := [])
      else if cfg.strategy == StopDependents && s.failed != {} then
        Relist(Cancel(s, Dependents(s, s.failed)).(failed := s.failed + Dependents(s, s.failed)))
      else
        Relist(s)
    }

    /** `route_after_check_dependencies`. */
    function RouteOf(s: Sched): Route {
      if s.With(Pending) + s.With(Running) == {} then ToSynthesize
      else if s.pending != [] then ToExecute
      else ToSynthesize
    }

    function Round(s: Sched, outcome: Id -> Outcome): Sched {
      Checked(Executed(s, outcome))
    }

    /** The state after one round for each element of `outcomes`. */
    function After(outcomes: seq<Id -> Outcome>): Sched {
      if |outcomes| == 0 then Init()
      else Round(After(outcomes[..|outcomes| - 1]), outcomes[|outcomes| - 1])
    }
  }
}
