/** The white/gray/black depth-first search of `validate_dag`. */
module CycleSearches {
  import opened Graphs

  datatype Color = White | Gray | Black

  /** `ValueErrorRaised` is what `path.index(dep)` does when `dep` is gray but not on the current path. */
  datatype SearchResult = NoCycle | Cycle(path: seq<Id>) | ValueErrorRaised

  method IndexOf(path: seq<Id>, x: Id) returns (i: int)
    ensures x in path ==> 0 <= i < |path| && path[i] == x && x !in path[..i]
    ensures x !in path ==> i == -1
  {
    i := 0;
    while i < |path|
      invariant 0 <= i <= |path| && x !in path[..i]
    {
      if path[i] == x {
        return;
      }
      i := i + 1;
    }
    i := -1;
  }

  type Coloring = map<Id, Color>

  ghost function Colored(color: Coloring, c: Color): set<Id> {
    set x | x in color && color[x] == c
  }

  /** Black tasks never run into a cycle, and what is gray is the current path or left over from an earlier cycle. */
  ghost predicate Consistent(adj: Graph, color: Coloring, path: seq<Id>, stale: set<Id>) {
    && color.Keys == adj.Keys
    && (forall x :: x in Colored(color, Black) ==> !Doomed(adj, x))
    && Colored(color, Gray) == Elements(path) + stale
    && Elements(path) !! stale
  }

  lemma EnterNode(adj: Graph, color: Coloring, node: Id, path: seq<Id>, stale: set<Id>)
    requires Consistent(adj, color, path, stale) && node in Colored(color, White)
    ensures Consistent(adj, color[node := Gray], path + [node], stale)
    ensures Colored(color[node := Gray], White) == Colored(color, White) - {node}
    ensures Colored(color[node := Gray], Black) == Colored(color, Black)
    ensures Colored(color[node := Gray], Gray) == Colored(color, Gray) + {node}
  {
    assert Elements(path + [node]) == Elements(path) + {node};
  }

  lemma LeaveNode(adj: Graph, color: Coloring, node: Id, path: seq<Id>, stale: set<Id>)
    requires Consistent(adj, color, path + [node], stale) && node !in path && !Doomed(adj, node)
    ensures Consistent(adj, color[node := Black], path, stale)
    ensures Colored(color[node := Black], White) == Colored(color, White)
    ensures Colored(color[node := Black], Black) == Colored(color, Black) + {node}
  {
    assert Elements(path + [node]) == Elements(path) + {node};
    assert node in Colored(color, Gray);
  }

  class CycleSearch {
    const adj: Graph
    var color: Coloring

    constructor (adj: Graph)
      ensures this.adj == adj
      ensures color == map x | x in adj :: White
    {
      this.adj := adj;
      this.color := map x | x in adj :: White;
    }

    /** Every step of the path was taken past dependencies that do not run into a cycle. */
    ghost predicate Descent(p: seq<Id>) {
      Chain(adj, p) && forall i :: 0 <= i < |p| - 1 ==> Leads(adj, p[i], p[i + 1])
    }

    method Dfs(node: Id, path: seq<Id>, ghost stale: set<Id>) returns (r: SearchResult)
      requires Closed(adj) && Consistent(adj, color, path, stale) && (forall x :: x in stale ==> Doomed(adj, x))
      requires node in Colored(color, White) && Descent(path + [node]) && Distinct(path)
      modifies `color
      ensures r.NoCycle? <==> !Doomed(adj, node)
      ensures r.NoCycle? ==> Consistent(adj, color, path, stale)
      ensures r.NoCycle? ==> Colored(color, White) <= old(Colored(color, White)) - {node}
      ensures r.NoCycle? ==> node in Colored(color, Black) && old(Colored(color, Black)) <= Colored(color, Black)
      ensures r.Cycle? ==> FirstLoop(adj, (path + [node])[0], r.path)
      ensures r.Cycle? ==> ClosedChain(adj, r.path) && color.Keys == adj.Keys
      ensures r.Cycle? ==> Colored(color, Gray) == old(Colored(color, Gray)) + WalkOf(adj, node)
      ensures r.Cycle? ==> WalkOf(adj, node) !! stale && Colored(color, White) <= old(Colored(color, White))
      ensures r.Cycle? ==> forall x :: x in Colored(color, Black) ==> !Doomed(adj, x)
      ensures r.ValueErrorRaised? ==> WalkOf(adj, node) * stale != {}
      decreases Colored(color, White)
    {
      hide Doomed, WalkOf, ClosedChain, FirstLoop;
      EnterNode(adj, color, node, path, stale);
      color := color[node := Gray];
      var path' := path + [node];
      var deps := adj[node];
      var i := 0;
      while i < |deps|
        invariant 0 <= i <= |deps|
        invariant forall j :: 0 <= j < i ==> !Doomed(adj, deps[j])
        invariant Consistent(adj, color, path', stale)
        invariant Colored(color, White) <= old(Colored(color, White)) - {node}
        invariant old(Colored(color, Black)) <= Colored(color, Black)
      {
        var dep := deps[i];
        assert Edge(adj, node, dep) && Leads(adj, node, dep);
        if color[dep] == Gray {
          assert dep in Colored(color, Gray);
          var at := IndexOf(path', dep);
          if at == -1 {
            WalkThrough(adj, node, dep);
            assert dep in WalkOf(adj, node) * stale;
            return ValueErrorRaised;
          }
          ClosingEdge(path', at, dep);
          return Cycle(path'[at..] + [dep]);
        }
        if color[dep] == White {
          DescentAppend(path', dep);
          var found := Dfs(dep, path', stale);
          if found != NoCycle {
            WalkThrough(adj, node, dep);
            return found;
          }
        } else {
          assert dep in Colored(color, Black);
        }
        i := i + 1;
      }
      DoomedThroughDependency(adj, node);
      LeaveNode(adj, color, node, path, stale);
      color := color[node := Black];
      return NoCycle;
    }

    lemma DescentAppend(p: seq<Id>, dep: Id)
      requires Closed(adj) && Descent(p) && Leads(adj, p[|p| - 1], dep) && Edge(adj, p[|p| - 1], dep)
      ensures Descent(p + [dep])
    {
      ChainAppend(adj, p, dep);
    }

    /** An edge back onto the path closes a cycle, and the rest of the path carries the whole walk into it. */
    lemma ClosingEdge(p: seq<Id>, at: nat, dep: Id)
      requires Closed(adj) && Descent(p) && at < |p| && p[at] == dep && Leads(adj, p[|p| - 1], dep)
      requires Distinct(p)
      ensures ClosedChain(adj, p[at..] + [dep])
      ensures Doomed(adj, p[|p| - 1])
      ensures WalkOf(adj, p[|p| - 1]) <= Elements(p)
      ensures FirstLoop(adj, p[0], p[at..] + [dep])
    {
      hide Doomed, WalkOf, Leads, ClosedChain;
      LoopCloses(p, at, dep);
      StepsAround(p, at, dep);
      WalkStaysOnPath(p, at);
      assert WalkRepeats(adj, p[0], p, at);
    }

    lemma LoopCloses(p: seq<Id>, at: nat, dep: Id)
      requires Closed(adj) && Descent(p) && at < |p| && p[at] == dep && Leads(adj, p[|p| - 1], dep)
      ensures ClosedChain(adj, p[at..] + [dep]) && Doomed(adj, dep)
    {
      var loop := p[at..] + [dep];
      assert Chain(adj, p[at..]);
      ChainAppend(adj, p[at..], dep);
      assert loop[..|loop| - 1] == p[at..] && p[at..][0] == dep;
      assert Lasso(adj, loop) && loop[0] == dep;
    }

    /** The path takes the steps of the walk, and the closing edge is the walk's last step. */
    lemma StepsAround(p: seq<Id>, at: nat, dep: Id)
      requires Closed(adj) && Descent(p) && at < |p| && p[at] == dep && Leads(adj, p[|p| - 1], dep) && Doomed(adj, dep)
      ensures Doomed(adj, p[|p| - 1]) && Next(adj, p[|p| - 1]) == dep
      ensures forall k :: 0 <= k < |p| - 1 ==> Next(adj, p[k]) == p[k + 1]
    {
      hide Doomed, Leads;
      LeadsToNext(adj, p[|p| - 1], dep);
      assert Edge(adj, p[|p| - 1], dep) by {
        LeadsIsEdge(p[|p| - 1], dep);
      }
      forall k | 0 <= k < |p| - 1 ensures Next(adj, p[k]) == p[k + 1] {
        DoomedUpwards(p, dep, k + 1);
        assert Leads(adj, p[k], p[k + 1]);
        LeadsToNext(adj, p[k], p[k + 1]);
      }
    }

    lemma LeadsIsEdge(a: Id, b: Id)
      requires Leads(adj, a, b)
      ensures Edge(adj, a, b)
    {
    }

    lemma WalkStaysOnPath(p: seq<Id>, at: nat)
      requires Closed(adj) && Chain(adj, p) && at < |p| && Next(adj, p[|p| - 1]) == p[at]
      requires forall k :: at <= k < |p| - 1 ==> Next(adj, p[k]) == p[k + 1]
      ensures WalkOf(adj, p[|p| - 1]) <= Elements(p)
    {
      forall x | x in WalkOf(adj, p[|p| - 1]) ensures x in p {
        var n: nat :| Walk(adj, p[|p| - 1], n) == x;
        WalkInsideLasso(adj, p, at, |p| - 1, n);
      }
    }

    lemma {:induction false} DoomedUpwards(p: seq<Id>, dep: Id, k: nat)
      requires Closed(adj) && Chain(adj, p) && k < |p| && Edge(adj, p[|p| - 1], dep) && Doomed(adj, dep)
      ensures Doomed(adj, p[k])
      decreases |p| - k
    {
      if k < |p| - 1 {
        DoomedUpwards(p, dep, k + 1);
        assert Edge(adj, p[k], p[k + 1]);
      }
      DoomedThroughDependency(adj, p[k]);
    }
  }
}
