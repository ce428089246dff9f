/** The repair of a rejected task list in `decompose_tasks_node`, and an input on which validation raises. */
module DagRepair {
  import opened Graphs
  import opened Tasks
  import opened CycleSearches
  import opened DagValidation

  function Known(deps: seq<Id>, ids: set<Id>): (r: seq<Id>)
    ensures forall d :: d in r <==> d in deps && d in ids
  {
    if deps == [] then []
    else Known(deps[..|deps| - 1], ids) + if deps[|deps| - 1] in ids then [deps[|deps| - 1]] else []
  }

  /** One more dependency comes last, once, if it is kept: order and repetitions stay. */
  lemma KnownKeepsOrder(deps: seq<Id>, d: Id, ids: set<Id>)
    ensures Known(deps + [d], ids) == Known(deps, ids) + if d in ids then [d] else []
  {
    assert (deps + [d])[..|deps|] == deps;
  }

  lemma {:induction false} AllKnown(deps: seq<Id>, ids: set<Id>)
    requires forall d :: d in deps ==> d in ids
    ensures Known(deps, ids) == deps
  {
    if deps == [] {
    } else {
      hide Known;
      var front, last := deps[..|deps| - 1], deps[|deps| - 1];
      assert deps == front + [last] && last in deps;
      AllKnown(front, ids);
      KnownKeepsOrder(front, last, ids);
    }
  }

  lemma KnownTwice(deps: seq<Id>, ids: set<Id>)
    ensures Known(Known(deps, ids), ids) == Known(deps, ids)
  {
    AllKnown(Known(deps, ids), ids);
  }

  /** The graph without its dangling references. */
  function Pruned(g: Graph): Graph {
    map x | x in g :: Known(g[x], g.Keys)
  }

  function Cleared(g: Graph): Graph {
    map x | x in g :: []
  }

  lemma PrunedIsClosed(g: Graph)
    ensures Closed(Pruned(g))
    ensures Closed(g) ==> Pruned(g) == g
    ensures forall a, b :: Edge(Pruned(g), a, b) <==> Edge(g, a, b) && b in g
  {
    if Closed(g) {
      forall x | x in g ensures Pruned(g)[x] == g[x] {
        assert forall d :: d in g[x] ==> Edge(g, x, d);
        AllKnown(g[x], g.Keys);
      }
    }
  }

  lemma ClearedIsValid(g: Graph)
    ensures ValidDag(Cleared(g))
  {
    var h := Cleared(g);
    forall p: seq<Id> | |p| > 1 ensures !Chain(h, p) {
      assert !Edge(h, p[0], p[1]);
    }
  }

  lemma GraphIs(tasks: seq<Task>, target: Graph)
    requires UniqueIds(tasks) && GraphOf(tasks).Keys == target.Keys
    requires forall j :: 0 <= j < |tasks| ==> tasks[j].dependsOn == target[tasks[j].id]
    ensures GraphOf(tasks) == target
  {
    hide GraphOf, UniqueIds;
    GraphAt(tasks);
    forall x | x in target ensures GraphOf(tasks)[x] == target[x] {
      var t :| t in tasks && t.id == x;
      var j :| 0 <= j < |tasks| && tasks[j] == t;
    }
  }

  /** Every task keeps exactly the dependencies that exist. */
  method PruneAll(tasks: seq<Task>)
    modifies tasks
    ensures forall t :: t in tasks ==> t.dependsOn == Known(old(t.dependsOn), IdSet(tasks)) && t.status == old(t.status)
  {
    hide Known;
    var taskIds := IdSet(tasks);
    for i := 0 to |tasks|
      invariant forall t :: t in tasks ==> t.status == old(t.status)
      invariant forall t :: t in tasks ==>
                  t.dependsOn == if t in tasks[..i] then Known(old(t.dependsOn), taskIds) else old(t.dependsOn)
    {
      assert tasks[..i + 1] == tasks[..i] + [tasks[i]];
      KnownTwice(old(tasks[i].dependsOn), taskIds);
      tasks[i].dependsOn := Known(tasks[i].dependsOn, taskIds);
    }
    assert tasks[..|tasks|] == tasks;
  }

  method ClearAll(tasks: seq<Task>)
    modifies tasks
    ensures forall t :: t in tasks ==> t.dependsOn == [] && t.status == old(t.status)
  {
    for i := 0 to |tasks|
      invariant forall t :: t in tasks ==> t.status == old(t.status)
      invariant forall t :: t in tasks[..i] ==> t.dependsOn == []
    {
      assert tasks[..i + 1] == tasks[..i] + [tasks[i]];
      tasks[i].dependsOn := [];
    }
    assert tasks[..|tasks|] == tasks;
  }

  /** Pruning the tasks prunes the graph they describe, and likewise clearing them. */
  lemma PrunedGraph(tasks: seq<Task>, g: Graph)
    requires UniqueIds(tasks) && g.Keys == IdSet(tasks)
    ensures (forall t :: t in tasks ==> t.id in g && t.dependsOn == Known(g[t.id], IdSet(tasks))) ==>
              GraphOf(tasks) == Pruned(g)
    ensures (forall t :: t in tasks ==> t.dependsOn == []) ==> GraphOf(tasks) == Cleared(g)
  {
    hide GraphOf, Known, UniqueIds, IdSet;
    GraphAt(tasks);
    if forall t :: t in tasks ==> t.id in g && t.dependsOn == Known(g[t.id], IdSet(tasks)) {
      GraphIs(tasks, Pruned(g));
    }
    if forall t :: t in tasks ==> t.dependsOn == [] {
      GraphIs(tasks, Cleared(g));
    }
  }

  /**
   * Validation and repair. `order` and `pruned` are the orders in which the two validations visit the
   * dependency sets.
   */
  method Repair(tasks: seq<Task>, order: Graph, pruned: Graph) returns (raised: bool)
    requires UniqueIds(tasks)
    requires SameEdges(GraphOf(tasks), order) && SameEdges(Pruned(GraphOf(tasks)), pruned)
    modifies tasks
    ensures raised <==>
              || (Closed(order) && SearchesCollide(order, Ids(tasks)))
              || (!ValidDag(old(GraphOf(tasks))) && Closed(pruned) && SearchesCollide(pruned, Ids(tasks)))
    ensures !raised ==> ValidDag(GraphOf(tasks))
    ensures !raised ==> var g := old(GraphOf(tasks));
              GraphOf(tasks) == if ValidDag(g) then g else if ValidDag(Pruned(g)) then Pruned(g) else Cleared(g)
    ensures raised ==> GraphOf(tasks) == old(GraphOf(tasks)) || GraphOf(tasks) == Pruned(old(GraphOf(tasks)))
    ensures forall t :: t in tasks ==> t.status == old(t.status)
  {
    hide ValidDag, GraphOf, SearchesCollide, Closed, Explains, Pruned, Cleared;
    ghost var g := GraphOf(tasks);
    GraphAt(tasks);
    var verdict := ValidateDag(tasks, order);
    if verdict == Raised {
      return true;
    }
    if verdict != Report([]) {
      PruneAll(tasks);
      PrunedGraph(tasks, g);
      verdict := ValidateDag(tasks, pruned);
      if verdict == Raised {
        return true;
      }
      if verdict != Report([]) {
        ClearAll(tasks);
        PrunedGraph(tasks, g);
        ClearedIsValid(g);
      }
    } else {
      ValidMeansNoCollision(g, order, Ids(tasks));
    }
    raised := false;
  }

  /** A list the validator accepts makes no search raise. */
  lemma ValidMeansNoCollision(g: Graph, order: Graph, ids: seq<Id>)
    requires ValidDag(g) && SameEdges(g, order)
    ensures Closed(order) && ((forall x :: x in ids ==> x in order) ==> !SearchesCollide(order, ids))
  {
    SameChains(g, order);
    AcyclicMeansNoneDoomed(order);
  }

  lemma SelfLoopIsDoomed(g: Graph, a: Id)
    requires Edge(g, a, a)
    ensures Doomed(g, a)
  {
    var p := [a, a];
    assert |p| == 2 && p[0] == a && p[1] == a;
    assert Chain(g, p);
    assert p[..1][0] == a;
    assert Lasso(g, p);
  }

  /**
   * Validation does raise: "a" depends on itself and "b" on "a". The search from "a" leaves "a" gray, and the
   * search from "b" meets it without having it on its path.
   */
  lemma ValidationCanRaise(g: Graph, a: Id, b: Id)
    requires a != b && g.Keys == {a, b} && g[a] == [a] && g[b] == [a]
    ensures Closed(g) && SearchesCollide(g, [a, b])
  {
    var ids := [a, b];
    assert ids[0] == a && ids[1] == b;
    assert Edge(g, a, a) && Edge(g, b, a);
    SelfLoopIsDoomed(g, a);
    assert Leads(g, a, a) by {
      assert g[a][0] == a;
    }
    assert Leads(g, b, a) by {
      assert g[b][0] == a;
    }
    WalkThrough(g, b, a);
    LeadsToNext(g, a, a);
    assert WalkOf(g, a) == {a} by {
      forall y | y in WalkOf(g, a) ensures y == a {
        var n: nat :| Walk(g, a, n) == y;
        WalkInsideLasso(g, [a], 0, 0, n);
      }
    }
    hide Doomed, WalkOf, Leads, Edge;
    StaleGrows(g, ids, 0);
    assert Stale(g, ids, 0) == {};
    assert StaleHit(g, ids, 1);
  }
}
