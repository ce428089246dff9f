/** The memoised longest-chain computation of `calculate_task_depth`. */
module Depths {
  import opened Graphs

  /** A dictionary that several depth computations share. */
  class DepthTable {
    const g: Graph
    var memo: map<Id, nat>

    constructor (g: Graph)
      ensures this.g == g && memo == map[]
    {
      this.g := g;
      this.memo := map[];
    }

    /** Whatever calls filled the table, each entry already is the length of a longest chain. */
    ghost predicate Valid()
      reads this
    {
      forall x :: x in memo ==> x in g && LongestBelow(g, x, memo[x])
    }

    method Depth(id: Id, ghost above: seq<Id>) returns (depth: nat)
      requires Closed(g) && Acyclic(g) && Valid() && id in g && Chain(g, above + [id])
      modifies this`memo
      ensures Valid() && LongestBelow(g, id, depth)
      ensures id in memo && old(memo.Keys) <= memo.Keys
      ensures forall x :: x in old(memo) ==> memo[x] == old(memo)[x]
      decreases g.Keys - set x | x in above
    {
      hide LongestBelow, Chain, Acyclic;
      if id in memo {
        return memo[id];
      }
      var deps := g[id];
      if deps == [] {
        NothingBelow(g, id);
        memo := memo[id := 0];
        return 0;
      }
      ghost var lengths: seq<nat> := [];
      var maxDepth := 0;
      for i := 0 to |deps|
        invariant Valid() && |lengths| == i
        invariant old(memo.Keys) <= memo.Keys
        invariant forall x :: x in old(memo) ==> memo[x] == old(memo)[x]
        invariant forall j :: 0 <= j < i ==> LongestBelow(g, deps[j], lengths[j]) && lengths[j] <= maxDepth
        invariant i > 0 ==> exists j :: 0 <= j < i && lengths[j] == maxDepth
      {
        StepDown(above, id, deps[i]);
        var below := Depth(deps[i], above + [id]);
        lengths := lengths + [below];
        if i == 0 || below > maxDepth {
          maxDepth := below;
          assert lengths[i] == maxDepth;
        }
      }
      LongestThrough(g, id, lengths, maxDepth);
      depth := maxDepth + 1;
      memo := memo[id := depth];
    }

    lemma StepDown(above: seq<Id>, id: Id, dep: Id)
      requires Closed(g) && Acyclic(g) && id in g && Chain(g, above + [id]) && dep in g[id]
      ensures dep in g && Chain(g, above + [id] + [dep])
      ensures (g.Keys - set x | x in above + [id]) < (g.Keys - set x | x in above)
    {
      var p := above + [id];
      assert Edge(g, p[|p| - 1], dep);
      ChainAppend(g, p, dep);
      if id in above {
        assert Chain(g, above) by {
          forall i | 0 <= i < |above| - 1 ensures Edge(g, above[i], above[i + 1]) {
            assert Edge(g, p[i], p[i + 1]);
          }
          forall i | 0 <= i < |above| ensures above[i] in g {
            assert p[i] in g;
          }
        }
        assert Edge(g, p[|above| - 1], p[|above|]);
        NextOnAcyclicChainIsNew(g, above, id);
      }
      assert p[|above|] in g;
      assert id in (g.Keys - set x | x in above) && id !in (g.Keys - set x | x in p);
    }
  }

  lemma NothingBelow(g: Graph, id: Id)
    requires id in g && g[id] == []
    ensures LongestBelow(g, id, 0)
  {
    assert Chain(g, [id]);
    forall p | Chain(g, p) && p[0] == id ensures |p| <= 1 {
      if |p| > 1 {
        assert Edge(g, p[0], p[1]);
      }
    }
  }

  lemma LongestThrough(g: Graph, id: Id, lengths: seq<nat>, longest: nat)
    requires Closed(g) && id in g && |lengths| == |g[id]| > 0
    requires forall j :: 0 <= j < |lengths| ==> LongestBelow(g, g[id][j], lengths[j]) && lengths[j] <= longest
    requires exists j :: 0 <= j < |lengths| && lengths[j] == longest
    ensures LongestBelow(g, id, longest + 1)
  {
    var j :| 0 <= j < |lengths| && lengths[j] == longest;
    var q :| Chain(g, q) && q[0] == g[id][j] && |q| == longest + 1;
    ChainPrepend(g, id, q);
    assert |[id] + q| == longest + 2;
    forall p | Chain(g, p) && p[0] == id ensures |p| <= longest + 2 {
      if |p| > 1 {
        assert Edge(g, p[0], p[1]);
        var k :| 0 <= k < |g[id]| && g[id][k] == p[1];
        assert Chain(g, p[1..]) by {
          forall i | 0 <= i < |p[1..]| - 1 ensures Edge(g, p[1..][i], p[1..][i + 1]) {
            assert Edge(g, p[i + 1], p[i + 2]);
          }
        }
        assert LongestBelow(g, g[id][k], lengths[k]);
      }
    }
  }
}
