/** `validate_dag` and the repair that `decompose_tasks_node` applies to a rejected task list. */
module DagValidation {
  import opened Graphs
  import opened Tasks
  import opened CycleSearches
  import opened Depths

  const MAX_DAG_DEPTH := 10

  datatype DagError =
    | Dangling(task: Id, dep: Id)
    | Circular(cycle: seq<Id>)
    | TooDeep(task: Id, depth: nat)

  /** The list of errors, or the `ValueError` that escapes from the cycle search. */
  datatype Validation = Report(errors: seq<DagError>) | Raised

  ghost predicate ValidDag(g: Graph) {
    && Closed(g)
    && Acyclic(g)
    && forall p :: Chain(g, p) ==> |p| <= MAX_DAG_DEPTH + 1
  }

  /** The tasks that searches from the first `i` ids leave gray. */
  ghost function Stale(g: Graph, ids: seq<Id>, i: nat): set<Id>
    requires Closed(g) && i <= |ids| && forall x :: x in ids ==> x in g
  {
    set j, x | 0 <= j < i && x in g && Doomed(g, ids[j]) && x in WalkOf(g, ids[j]) :: x
  }

  /** The `i`-th task is still white, and its walk runs into one that an earlier search left gray. */
  ghost predicate StaleHit(g: Graph, ids: seq<Id>, i: nat)
    requires Closed(g) && i < |ids| && forall x :: x in ids ==> x in g
  {
    ids[i] !in Stale(g, ids, i) && Doomed(g, ids[i]) && WalkOf(g, ids[i]) * Stale(g, ids, i) != {}
  }

  ghost predicate SearchesCollide(g: Graph, ids: seq<Id>)
    requires Closed(g) && forall x :: x in ids ==> x in g
  {
    exists i :: 0 <= i < |ids| && StaleHit(g, ids, i)
  }

  lemma StaleGrows(g: Graph, ids: seq<Id>, i: nat)
    requires Closed(g) && i < |ids| && forall x :: x in ids ==> x in g
    ensures Stale(g, ids, i + 1) == Stale(g, ids, i) + if Doomed(g, ids[i]) then WalkOf(g, ids[i]) else {}
  {
  }

  lemma StaleIsDoomed(g: Graph, ids: seq<Id>, i: nat, x: Id)
    requires Closed(g) && i <= |ids| && (forall y :: y in ids ==> y in g) && x in Stale(g, ids, i)
    ensures Doomed(g, x) && WalkOf(g, x) <= Stale(g, ids, i)
  {
    var j :| 0 <= j < i && Doomed(g, ids[j]) && x in WalkOf(g, ids[j]);
    WalkOfDoomed(g, ids[j], x);
    forall y | y in WalkOf(g, x) ensures y in WalkOf(g, ids[j]) {
      var m: nat :| Walk(g, ids[j], m) == x;
      var n: nat :| Walk(g, x, n) == y;
      WalkAppend(g, ids[j], m, n);
    }
  }

  lemma {:induction false} WalkAppend(g: Graph, x: Id, m: nat, n: nat)
    requires Closed(g) && x in g
    ensures Walk(g, x, m + n) == Walk(g, Walk(g, x, m), n)
    decreases m
  {
    if m > 0 {
      WalkAppend(g, Next(g, x), m - 1, n);
    }
  }

  ghost predicate Dangles(g: Graph, e: DagError) {
    e.Dangling? && Edge(g, e.task, e.dep) && e.dep !in g
  }

  ghost predicate IsTooDeep(g: Graph, e: DagError) {
    e.TooDeep? && e.task in g && LongestBelow(g, e.task, e.depth) && e.depth > MAX_DAG_DEPTH
  }

  ghost predicate IsCircular(g: Graph, e: DagError) {
    e.Circular? && ClosedChain(g, e.cycle)
  }

  /** Some task among the first `i` refers to a task that is not in the list. */
  ghost predicate DanglesBefore(tasks: seq<Task>, i: nat, e: DagError)
    requires i <= |tasks|
    reads tasks
  {
    && e.Dangling?
    && e.dep !in IdSet(tasks)
    && exists j :: 0 <= j < i && tasks[j].id == e.task && e.dep in tasks[j].dependsOn
  }

  method DanglingErrors(tasks: seq<Task>) returns (errors: seq<DagError>)
    ensures forall e :: e in errors <==> DanglesBefore(tasks, |tasks|, e)
  {
    var taskMap := IdSet(tasks);
    errors := [];
    for i := 0 to |tasks|
      invariant forall e :: e in errors <==> DanglesBefore(tasks, i, e)
    {
      var deps := tasks[i].dependsOn;
      ghost var before := errors;
      for k := 0 to |deps|
        invariant forall e :: e in errors <==>
                    e in before || (e.Dangling? && e.dep !in taskMap && e.task == tasks[i].id && e.dep in deps[..k])
      {
        assert deps[..k + 1] == deps[..k] + [deps[k]];
        if deps[k] !in taskMap {
          errors := errors + [Dangling(tasks[i].id, deps[k])];
        }
      }
      assert deps[..|deps|] == deps;
    }
  }

  lemma DanglingInGraph(tasks: seq<Task>, e: DagError)
    requires UniqueIds(tasks)
    ensures DanglesBefore(tasks, |tasks|, e) <==> Dangles(GraphOf(tasks), e)
  {
    hide GraphOf, UniqueIds;
    GraphAt(tasks);
    if e.Dangling? && Edge(GraphOf(tasks), e.task, e.dep) {
      var t :| t in tasks && t.id == e.task;
      var j :| 0 <= j < |tasks| && tasks[j] == t;
      assert tasks[j].id == e.task;
    }
  }

  /** What holds once the tasks `ids[..i]` have been searched without an escaping error. */
  ghost predicate Searched(g: Graph, ids: seq<Id>, i: nat, color: Coloring, errors: seq<DagError>)
    requires Closed(g) && i <= |ids| && forall x :: x in ids ==> x in g
  {
    && Consistent(g, color, [], Stale(g, ids, i))
    && (forall j :: 0 <= j < i ==> !StaleHit(g, ids, j) && ids[j] !in Colored(color, White))
    && (forall e :: e in errors ==> IsCircular(g, e))
    && (errors == [] <==> forall j :: 0 <= j < i ==> !Doomed(g, ids[j]))
  }

  /** A root whose search adds neither a stale task nor an error. */
  lemma SearchedMore(g: Graph, ids: seq<Id>, i: nat, before: Coloring, color: Coloring, errors: seq<DagError>)
    requires Closed(g) && i < |ids| && forall x :: x in ids ==> x in g
    requires Searched(g, ids, i, before, errors) && Consistent(g, color, [], Stale(g, ids, i))
    requires Colored(color, White) <= Colored(before, White) && ids[i] !in Colored(color, White)
    requires Stale(g, ids, i + 1) == Stale(g, ids, i) && !StaleHit(g, ids, i)
    requires Doomed(g, ids[i]) ==> errors != []
    ensures Searched(g, ids, i + 1, color, errors)
  {
    hide Doomed, WalkOf, ClosedChain, Stale, StaleHit, Consistent, Colored, IsCircular;
  }

  lemma SearchedSkip(g: Graph, ids: seq<Id>, i: nat, color: Coloring, errors: seq<DagError>)
    requires Closed(g) && i < |ids| && forall x :: x in ids ==> x in g
    requires Searched(g, ids, i, color, errors) && color[ids[i]] != White
    ensures Searched(g, ids, i + 1, color, errors)
  {
    hide Doomed, WalkOf, ClosedChain, Stale;
    StaleGrows(g, ids, i);
    if Doomed(g, ids[i]) {
      DoomedIsStale(g, ids, i, color, errors);
      StaleIsDoomed(g, ids, i, ids[i]);
      StaleHasRoot(g, ids, i, ids[i]);
    }
    assert Stale(g, ids, i + 1) == Stale(g, ids, i);
    SearchedMore(g, ids, i, color, color, errors);
  }

  lemma StaleHasRoot(g: Graph, ids: seq<Id>, i: nat, x: Id)
    requires Closed(g) && i <= |ids| && (forall y :: y in ids ==> y in g) && x in Stale(g, ids, i)
    ensures exists j :: 0 <= j < i && Doomed(g, ids[j])
  {
    hide Doomed, WalkOf;
  }

  /** A task that runs into a cycle and has been searched was left gray. */
  lemma DoomedIsStale(g: Graph, ids: seq<Id>, i: nat, color: Coloring, errors: seq<DagError>)
    requires Closed(g) && i < |ids| && forall x :: x in ids ==> x in g
    requires Searched(g, ids, i, color, errors) && color[ids[i]] != White && Doomed(g, ids[i])
    ensures ids[i] in Stale(g, ids, i)
  {
    hide Doomed, WalkOf, ClosedChain, Stale, StaleHit;
    assert ids[i] !in Colored(color, Black);
    assert ids[i] in Colored(color, Gray);
  }

  lemma SearchedClean(g: Graph, ids: seq<Id>, i: nat, before: Coloring, color: Coloring, errors: seq<DagError>)
    requires Closed(g) && i < |ids| && forall x :: x in ids ==> x in g
    requires Searched(g, ids, i, before, errors) && Consistent(g, color, [], Stale(g, ids, i))
    requires Colored(color, White) <= Colored(before, White) - {ids[i]} && !Doomed(g, ids[i])
    ensures Searched(g, ids, i + 1, color, errors)
  {
    hide Doomed, WalkOf, ClosedChain, Stale, Consistent, Searched;
    StaleGrows(g, ids, i);
    assert Stale(g, ids, i + 1) == Stale(g, ids, i);
    SearchedMore(g, ids, i, before, color, errors);
  }

  lemma SearchedCycle(g: Graph, ids: seq<Id>, i: nat, before: Coloring, color: Coloring,
                      errors: seq<DagError>, cycle: seq<Id>)
    requires Closed(g) && i < |ids| && forall x :: x in ids ==> x in g
    requires Searched(g, ids, i, before, errors) && Doomed(g, ids[i]) && ClosedChain(g, cycle)
    requires color.Keys == g.Keys && (forall x :: x in Colored(color, Black) ==> !Doomed(g, x))
    requires Colored(color, Gray) == Colored(before, Gray) + WalkOf(g, ids[i])
    requires WalkOf(g, ids[i]) !! Stale(g, ids, i)
    requires Colored(color, White) <= Colored(before, White)
    ensures Searched(g, ids, i + 1, color, errors + [Circular(cycle)])
  {
    hide Doomed, ClosedChain, WalkOf, Stale;
    StaleGrows(g, ids, i);
    assert Elements([]) == {};
    assert Colored(color, Gray) == Stale(g, ids, i + 1);
    assert ids[i] in Colored(color, Gray);
    assert !StaleHit(g, ids, i);
  }

  /** The tasks among the first `i` that run into a cycle and are on the walk of no earlier task that does. */
  ghost function Roots(g: Graph, ids: seq<Id>, i: nat): seq<Id>
    requires Closed(g) && i <= |ids| && forall x :: x in ids ==> x in g
  {
    if i == 0 then []
    else if Doomed(g, ids[i - 1]) && ids[i - 1] !in Stale(g, ids, i - 1) then Roots(g, ids, i - 1) + [ids[i - 1]]
    else Roots(g, ids, i - 1)
  }

  /** One error for each root, in order: the loop that its walk ends in. */
  ghost predicate OneLoopEach(g: Graph, roots: seq<Id>, errors: seq<DagError>)
    requires Closed(g)
  {
    && |errors| == |roots|
    && forall k :: 0 <= k < |roots| ==> errors[k].Circular? && FirstLoop(g, roots[k], errors[k].cycle)
  }

  /** The walk of each task that runs into a cycle goes round one of the reported loops. */
  ghost predicate LoopReported(g: Graph, x: Id, errors: seq<DagError>)
    requires Closed(g) && x in g
  {
    exists e :: e in errors && IsCircular(g, e) && Elements(e.cycle) <= WalkOf(g, x)
  }

  /** Some reported cycle is made of `x` and its transitive dependencies. */
  ghost predicate CycleBelow(g: Graph, x: Id, errors: seq<DagError>) {
    exists e :: e in errors && IsCircular(g, e) && forall y :: y in e.cycle ==> Reaches(g, x, y)
  }

  lemma ReportedIsBelow(g: Graph, x: Id, errors: seq<DagError>)
    requires Closed(g) && x in g && Doomed(g, x) && LoopReported(g, x, errors)
    ensures CycleBelow(g, x, errors)
  {
    hide Doomed, ClosedChain, Reaches;
    var e :| e in errors && IsCircular(g, e) && Elements(e.cycle) <= WalkOf(g, x);
    forall y | y in e.cycle ensures Reaches(g, x, y) {
      assert y in Elements(e.cycle);
      var n := StepsTo(g, x, y);
      WalkReaches(g, x, n);
    }
  }

  lemma {:induction false} StaleComesFromRoot(g: Graph, ids: seq<Id>, i: nat, x: Id) returns (k: nat)
    requires Closed(g) && i <= |ids| && (forall y :: y in ids ==> y in g) && x in Stale(g, ids, i)
    ensures k < |Roots(g, ids, i)| && Roots(g, ids, i)[k] in g && x in WalkOf(g, Roots(g, ids, i)[k])
  {
    hide Doomed, WalkOf;
    StaleGrows(g, ids, i - 1);
    if x in Stale(g, ids, i - 1) {
      k := StaleComesFromRoot(g, ids, i - 1, x);
    } else {
      if ids[i - 1] in Stale(g, ids, i - 1) {
        StaleIsDoomed(g, ids, i - 1, ids[i - 1]);
      }
      k := |Roots(g, ids, i)| - 1;
    }
  }

  lemma EveryLoopIsReported(g: Graph, ids: seq<Id>, errors: seq<DagError>, x: Id)
    requires Closed(g) && (forall y :: y in g <==> y in ids) && x in g && Doomed(g, x)
    requires OneLoopEach(g, Roots(g, ids, |ids|), errors) && forall e :: e in errors ==> IsCircular(g, e)
    ensures LoopReported(g, x, errors)
  {
    hide Doomed, WalkOf, FirstLoop, ClosedChain, Roots;
    var j :| 0 <= j < |ids| && ids[j] == x;
    InWalkOfItself(g, x);
    assert x in Stale(g, ids, |ids|);
    var k := StaleComesFromRoot(g, ids, |ids|, x);
    var e := errors[k];
    assert e in errors && IsCircular(g, e);
    forall y | y in e.cycle ensures y in WalkOf(g, x) {
      var n :| 0 <= n < |e.cycle| && e.cycle[n] == y;
      LoopOnEveryWalk(g, Roots(g, ids, |ids|)[k], e.cycle, x, n);
    }
  }

  lemma AllLoopsAreReported(g: Graph, ids: seq<Id>, errors: seq<DagError>)
    requires Closed(g) && (forall y :: y in g <==> y in ids)
    requires OneLoopEach(g, Roots(g, ids, |ids|), errors) && forall e :: e in errors ==> IsCircular(g, e)
    ensures forall x :: x in g && Doomed(g, x) ==> LoopReported(g, x, errors)
  {
    hide *;
    forall x | x in g && Doomed(g, x) ensures LoopReported(g, x, errors) {
      EveryLoopIsReported(g, ids, errors, x);
    }
  }

  /** A task that has been searched, or that runs into no cycle, is not a root. */
  lemma NoNewRoot(g: Graph, ids: seq<Id>, i: nat, errors: seq<DagError>)
    requires Closed(g) && i < |ids| && (forall x :: x in ids ==> x in g) && OneLoopEach(g, Roots(g, ids, i), errors)
    requires Doomed(g, ids[i]) ==> ids[i] in Stale(g, ids, i)
    ensures OneLoopEach(g, Roots(g, ids, i + 1), errors)
  {
    hide Doomed, Stale, FirstLoop;
  }

  lemma NewRoot(g: Graph, ids: seq<Id>, i: nat, errors: seq<DagError>, cycle: seq<Id>)
    requires Closed(g) && i < |ids| && (forall x :: x in ids ==> x in g) && OneLoopEach(g, Roots(g, ids, i), errors)
    requires Doomed(g, ids[i]) && ids[i] !in Stale(g, ids, i) && FirstLoop(g, ids[i], cycle)
    ensures OneLoopEach(g, Roots(g, ids, i + 1), errors + [Circular(cycle)])
  {
    hide Doomed, Stale, FirstLoop;
  }

  lemma InWalkOfItself(g: Graph, x: Id)
    requires Closed(g) && x in g
    ensures x in WalkOf(g, x)
  {
  }

  /** Searches from every task that is still white. */
  method CycleErrors(order: Graph, ids: seq<Id>) returns (r: Validation)
    requires Closed(order) && forall x :: x in order <==> x in ids
    ensures r.Raised? <==> SearchesCollide(order, ids)
    ensures r.Report? ==> OneLoopEach(order, Roots(order, ids, |ids|), r.errors)
    ensures r.Report? ==> forall e :: e in r.errors ==> IsCircular(order, e)
    ensures r.Report? ==> forall x :: x in order && Doomed(order, x) ==> LoopReported(order, x, r.errors)
    ensures r == Report([]) <==> Acyclic(order)
  {
    hide Doomed, WalkOf, ClosedChain, Acyclic, Stale, FirstLoop, LoopReported, Roots, OneLoopEach;
    var search := new CycleSearch(order);
    var errors: seq<DagError> := [];
    NothingSearched(order, ids, search.color);
    NoRoots(order, ids);
    var i := 0;
    while i < |ids|
      invariant 0 <= i <= |ids| && search.adj == order
      invariant Searched(order, ids, i, search.color, errors)
      invariant OneLoopEach(order, Roots(order, ids, i), errors)
    {
      forall x | x in Stale(order, ids, i) ensures Doomed(order, x) {
        StaleIsDoomed(order, ids, i, x);
      }
      ghost var before := search.color;
      if search.color[ids[i]] == White {
        ghost var stale := Stale(order, ids, i);
        assert search.Descent([] + [ids[i]]);
        var found := search.Dfs(ids[i], [], stale);
        match found {
          case ValueErrorRaised =>
            assert StaleHit(order, ids, i);
            AcyclicMeansNoneDoomed(order);
            return Raised;
          case Cycle(path) =>
            SearchedCycle(order, ids, i, before, search.color, errors, path);
            NewRoot(order, ids, i, errors, path);
            errors := errors + [Circular(path)];
          case NoCycle =>
            SearchedClean(order, ids, i, before, search.color, errors);
            NoNewRoot(order, ids, i, errors);
        }
      } else {
        SearchedSkip(order, ids, i, before, errors);
        if Doomed(order, ids[i]) {
          DoomedIsStale(order, ids, i, before, errors);
        }
        NoNewRoot(order, ids, i, errors);
      }
      i := i + 1;
    }
    AcyclicMeansNoneDoomed(order);
    DoomedAreTasks(order);
    r := Report(errors);
    AllLoopsAreReported(order, ids, errors);
  }

  lemma NoRoots(g: Graph, ids: seq<Id>)
    requires Closed(g) && forall x :: x in ids ==> x in g
    ensures OneLoopEach(g, Roots(g, ids, 0), [])
  {
  }

  lemma NothingSearched(g: Graph, ids: seq<Id>, color: Coloring)
    requires Closed(g) && (forall x :: x in ids ==> x in g) && color == map x | x in g :: White
    ensures Searched(g, ids, 0, color, [])
  {
  }

  lemma DoomedAreTasks(g: Graph)
    ensures forall x :: Doomed(g, x) ==> x in g
  {
  }

  method DepthErrors(g: Graph, ids: seq<Id>) returns (errors: seq<DagError>)
    requires Closed(g) && Acyclic(g) && forall x :: x in g <==> x in ids
    ensures forall e :: e in errors <==> IsTooDeep(g, e)
  {
    var table := new DepthTable(g);
    hide Acyclic, LongestBelow;
    errors := [];
    for i := 0 to |ids|
      invariant table.g == g && table.Valid()
      invariant forall e :: e in errors <==> IsTooDeep(g, e) && e.task in ids[..i]
    {
      assert Chain(g, [] + [ids[i]]);
      assert ids[..i + 1] == ids[..i] + [ids[i]];
      var depth := table.Depth(ids[i], []);
      LongestIsUnique(g, ids[i], depth);
      if depth > MAX_DAG_DEPTH {
        errors := errors + [TooDeep(ids[i], depth)];
      }
    }
  }

  lemma LongestIsUnique(g: Graph, x: Id, depth: nat)
    requires LongestBelow(g, x, depth)
    ensures forall d: nat :: LongestBelow(g, x, d) ==> d == depth
  {
  }

  /** Each task of a closed acyclic graph has a longest chain below it. */
  lemma DeepChainIsReported(g: Graph, p: seq<Id>)
    requires Closed(g) && Acyclic(g) && Chain(g, p)
    ensures exists d: nat :: LongestBelow(g, p[0], d) && d >= |p| - 1
  {
    var q := LongestFrom(g, p);
    assert LongestBelow(g, p[0], |q| - 1);
  }

  /** Chains of an acyclic graph do not repeat a task, so one from `p[0]` is longest. */
  lemma {:induction false} LongestFrom(g: Graph, p: seq<Id>) returns (q: seq<Id>)
    requires Closed(g) && Acyclic(g) && Chain(g, p)
    ensures Chain(g, q) && q[0] == p[0] && |q| >= |p|
    ensures forall r :: Chain(g, r) && r[0] == p[0] ==> |r| <= |q|
    decreases |g| - |p|
  {
    ChainIsShort(g, p);
    if r :| Chain(g, r) && r[0] == p[0] && |r| > |p| {
      ChainIsShort(g, r);
      q := LongestFrom(g, r);
    } else {
      q := p;
    }
  }

  lemma ChainIsShort(g: Graph, p: seq<Id>)
    requires Acyclic(g) && Chain(g, p)
    ensures |p| <= |g|
  {
    forall i, j | 0 <= i < j < |p| ensures p[i] != p[j] {
      if p[i] == p[j] {
        assert ClosedChain(g, p[i..j + 1]);
      }
    }
    DistinctFit(p, g.Keys);
    assert |g.Keys| == |g|;
  }

  lemma {:induction false} DistinctFit(p: seq<Id>, s: set<Id>)
    requires Distinct(p) && forall i :: 0 <= i < |p| ==> p[i] in s
    ensures |p| <= |s|
  {
    if p != [] {
      DistinctFit(p[1..], s - {p[0]});
    }
  }

  /** The errors are all the dangling references if there is one, else cycles if there is one, else all deep tasks. */
  ghost predicate Explains(g: Graph, errors: seq<DagError>) {
    if !Closed(g) then errors != [] && forall e :: e in errors <==> Dangles(g, e)
    else if !Acyclic(g) then
      && errors != []
      && (forall e :: e in errors ==> IsCircular(g, e))
      && (forall x :: Doomed(g, x) ==> CycleBelow(g, x, errors))
    else forall e :: e in errors <==> IsTooDeep(g, e)
  }

  /**
   * `validate_dag`. A dependency set is iterated in an order the program does not control; `order` lists each
   * set in the order in which the call happens to visit it, and the contract holds for every such order.
   */
  method ValidateDag(tasks: seq<Task>, order: Graph) returns (r: Validation)
    requires UniqueIds(tasks) && SameEdges(GraphOf(tasks), order)
    ensures r == Report([]) <==> ValidDag(GraphOf(tasks))
    ensures r.Report? ==> Explains(GraphOf(tasks), r.errors)
    ensures r.Report? && Closed(order) && !Acyclic(order) ==>
              OneLoopEach(order, Roots(order, Ids(tasks), |tasks|), r.errors)
    ensures r.Raised? <==> Closed(order) && SearchesCollide(order, Ids(tasks))
  {
    hide GraphOf, Acyclic, ClosedChain, LongestBelow, SearchesCollide, ValidDag, Chain, Closed;
    hide IsTooDeep, IsCircular, Dangles, DanglesBefore, OneLoopEach, Roots, CycleBelow, LoopReported, Doomed;
    ghost var g := GraphOf(tasks);
    SameVerdicts(g, order);
    var errors := DanglingErrors(tasks);
    forall e ensures e in errors <==> Dangles(g, e) {
      DanglingInGraph(tasks, e);
    }
    DanglingDecide(g, errors);
    if errors != [] {
      return Report(errors);
    }
    var ids := TaskIds(tasks);
    IdsAreKeys(tasks);
    r := CycleErrors(order, ids);
    CyclesAreBelow(order, r);
    if r == Report([]) {
      errors := DepthErrors(order, ids);
      DepthDecides(order, errors);
      r := Report(errors);
    }
  }

  lemma CyclesAreBelow(g: Graph, r: Validation)
    requires Closed(g)
    requires r.Report? ==> forall x :: x in g && Doomed(g, x) ==> LoopReported(g, x, r.errors)
    ensures r.Report? ==> forall x :: Doomed(g, x) ==> CycleBelow(g, x, r.errors)
  {
    hide CycleBelow, LoopReported, Doomed;
    DoomedAreTasks(g);
    if r.Report? {
      forall x | Doomed(g, x) ensures CycleBelow(g, x, r.errors) {
        ReportedIsBelow(g, x, r.errors);
      }
    }
  }

  lemma DanglingDecide(g: Graph, errors: seq<DagError>)
    requires forall e :: e in errors <==> Dangles(g, e)
    ensures errors == [] <==> Closed(g)
  {
    if errors != [] {
      assert errors[0] in errors;
    }
    forall a, b | Edge(g, a, b) && b !in g ensures errors != [] {
      assert Dangles(g, Dangling(a, b));
    }
  }

  lemma SameVerdicts(g: Graph, h: Graph)
    requires SameEdges(g, h)
    ensures g.Keys == h.Keys && (Closed(g) <==> Closed(h)) && (Acyclic(g) <==> Acyclic(h))
    ensures ValidDag(g) <==> ValidDag(h)
    ensures forall errors :: Explains(g, errors) <==> Explains(h, errors)
    ensures ValidDag(g) ==> Closed(g) && Acyclic(g)
  {
    SameChains(g, h);
    SameDepths(g, h);
    assert forall e :: IsTooDeep(g, e) <==> IsTooDeep(h, e);
    assert forall e :: IsCircular(g, e) <==> IsCircular(h, e);
    SameCyclesBelow(g, h);
  }

  lemma SameCyclesBelow(g: Graph, h: Graph)
    requires SameEdges(g, h)
    ensures forall x, errors :: CycleBelow(g, x, errors) <==> CycleBelow(h, x, errors)
  {
    SameChains(g, h);
    assert forall e :: IsCircular(g, e) <==> IsCircular(h, e);
    assert forall p, a, b :: ChainBetween(g, p, a, b) <==> ChainBetween(h, p, a, b);
    assert forall a, b :: Reaches(g, a, b) <==> Reaches(h, a, b);
  }

  lemma SameDepths(g: Graph, h: Graph)
    requires SameEdges(g, h)
    ensures forall x, d: nat :: LongestBelow(g, x, d) <==> LongestBelow(h, x, d)
    ensures ValidDag(g) <==> ValidDag(h)
  {
    SameChains(g, h);
  }

  lemma DepthDecides(g: Graph, errors: seq<DagError>)
    requires Closed(g) && Acyclic(g)
    requires forall e :: e in errors <==> IsTooDeep(g, e)
    ensures errors == [] <==> ValidDag(g)
  {
    if errors != [] {
      assert errors[0] in errors;
    }
    forall p | Chain(g, p) && |p| > MAX_DAG_DEPTH + 1 ensures errors != [] {
      DeepChainIsReported(g, p);
      var d: nat :| LongestBelow(g, p[0], d) && d >= |p| - 1;
      assert TooDeep(p[0], d) in errors;
    }
  }
}
