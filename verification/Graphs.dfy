/** Dependency graphs of coordinator tasks: chains, cycles, and the walk a depth-first search takes into a cycle. */
module Graphs {
  /** Ids are compared and nothing else; the wrapper keeps them apart from other text. */
  datatype Id = Id(name: string)

  /** Maps every task id to the ids it depends on, in the order in which they are visited. */
  type Graph = map<Id, seq<Id>>

  function Elements(xs: seq<Id>): set<Id> {
    set x | x in xs
  }

  ghost predicate Distinct(xs: seq<Id>) {
    forall i, j :: 0 <= i < j < |xs| ==> xs[i] != xs[j]
  }

  ghost predicate Edge(g: Graph, a: Id, b: Id) {
    a in g && b in g[a]
  }

  /** No dependency dangles. */
  ghost predicate Closed(g: Graph) {
    forall a, b :: Edge(g, a, b) ==> b in g
  }

  /** Each element of `p` depends directly on the next one. */
  ghost predicate Chain(g: Graph, p: seq<Id>) {
    && |p| > 0
    && (forall i :: 0 <= i < |p| ==> p[i] in g)
    && (forall i :: 0 <= i < |p| - 1 ==> Edge(g, p[i], p[i + 1]))
  }

  ghost predicate ChainBetween(g: Graph, p: seq<Id>, a: Id, b: Id) {
    Chain(g, p) && p[0] == a && p[|p| - 1] == b
  }

  /** `b` is `a` or one of its transitive dependencies. */
  ghost predicate Reaches(g: Graph, a: Id, b: Id) {
    exists p :: ChainBetween(g, p, a, b)
  }

  /** `b` is a transitive dependency of `a`. */
  ghost predicate DependsOn(g: Graph, a: Id, b: Id) {
    exists p :: ChainBetween(g, p, a, b) && |p| >= 2
  }

  ghost predicate ClosedChain(g: Graph, p: seq<Id>) {
    Chain(g, p) && |p| >= 2 && p[0] == p[|p| - 1]
  }

  ghost predicate Acyclic(g: Graph) {
    forall p :: !ClosedChain(g, p)
  }

  /** A chain whose last element occurs earlier on it. */
  ghost predicate Lasso(g: Graph, p: seq<Id>) {
    Chain(g, p) && p[|p| - 1] in p[..|p| - 1]
  }

  /** Some chain of dependencies of `x` runs into a cycle. */
  ghost predicate Doomed(g: Graph, x: Id) {
    exists p :: Lasso(g, p) && p[0] == x
  }

  /** `d` is the length of the longest chain of dependencies below `x`. */
  ghost predicate LongestBelow(g: Graph, x: Id, d: nat) {
    && (exists p :: Chain(g, p) && p[0] == x && |p| == d + 1)
    && (forall p :: Chain(g, p) && p[0] == x ==> |p| <= d + 1)
  }

  ghost predicate SameEdges(g: Graph, h: Graph) {
    g.Keys == h.Keys && forall a, b :: Edge(g, a, b) <==> Edge(h, a, b)
  }

  lemma SameChains(g: Graph, h: Graph)
    requires SameEdges(g, h)
    ensures forall p :: Chain(g, p) <==> Chain(h, p)
    ensures Closed(g) <==> Closed(h)
    ensures Acyclic(g) <==> Acyclic(h)
    ensures forall x :: Doomed(g, x) <==> Doomed(h, x)
  {
    assert forall p :: Chain(g, p) <==> Chain(h, p);
    assert forall p :: ClosedChain(g, p) <==> ClosedChain(h, p);
    assert forall p :: Lasso(g, p) <==> Lasso(h, p);
  }

  lemma LassoTail(g: Graph, p: seq<Id>)
    requires Lasso(g, p)
    ensures |p| >= 2 && Edge(g, p[0], p[1]) && Doomed(g, p[1])
  {
    var last := p[|p| - 1];
    assert Edge(g, p[0], p[1]);
    if last in p[1..|p| - 1] {
      assert p[1..][..|p[1..]| - 1] == p[1..|p| - 1];
      assert Lasso(g, p[1..]) && p[1..][0] == p[1];
    } else {
      assert p[..|p| - 1] == [p[0]] + p[1..|p| - 1];
      assert last == p[0];
      var q := p[1..] + [p[1]];
      assert q[..|q| - 1] == p[1..];
      assert Lasso(g, q) && q[0] == p[1];
    }
  }

  lemma LassoPrepend(g: Graph, x: Id, p: seq<Id>)
    requires Lasso(g, p) && Edge(g, x, p[0])
    ensures Doomed(g, x)
  {
    var q := [x] + p;
    assert q[..|q| - 1] == [x] + p[..|p| - 1];
    assert Lasso(g, q) && q[0] == x;
  }

  /** Dependencies of a task that runs into a cycle: one of them does too, and conversely. */
  lemma DoomedThroughDependency(g: Graph, x: Id)
    requires Closed(g) && x in g
    ensures Doomed(g, x) <==> exists d :: d in g[x] && Doomed(g, d)
  {
    if Doomed(g, x) {
      var p :| Lasso(g, p) && p[0] == x;
      LassoTail(g, p);
    }
    forall d | d in g[x] && Doomed(g, d) ensures Doomed(g, x) {
      var p :| Lasso(g, p) && p[0] == d;
      assert Edge(g, x, d);
      LassoPrepend(g, x, p);
    }
  }

  lemma AcyclicMeansNoneDoomed(g: Graph)
    ensures Acyclic(g) <==> forall x :: !Doomed(g, x)
  {
    forall x | Doomed(g, x) ensures !Acyclic(g) {
      var p :| Lasso(g, p) && p[0] == x;
      var i :| 0 <= i < |p| - 1 && p[i] == p[|p| - 1];
      assert ClosedChain(g, p[i..]);
    }
    forall p | ClosedChain(g, p) ensures exists x :: Doomed(g, x) {
      assert p[..|p| - 1][0] == p[|p| - 1];
      assert Lasso(g, p);
      assert Doomed(g, p[0]);
    }
  }

  lemma ChainAppend(g: Graph, p: seq<Id>, d: Id)
    requires Chain(g, p) && Edge(g, p[|p| - 1], d) && d in g
    ensures Chain(g, p + [d])
  {
    var q := p + [d];
    forall i | 0 <= i < |q| - 1 ensures Edge(g, q[i], q[i + 1]) {
      if i < |p| - 1 {
        assert Edge(g, p[i], p[i + 1]);
      }
    }
  }

  lemma ChainPrepend(g: Graph, x: Id, p: seq<Id>)
    requires Chain(g, p) && Edge(g, x, p[0])
    ensures Chain(g, [x] + p)
  {
    var q := [x] + p;
    forall i | 0 <= i < |q| - 1 ensures Edge(g, q[i], q[i + 1]) {
      if i > 0 {
        assert Edge(g, p[i - 1], p[i]);
      }
    }
  }

  lemma NextOnAcyclicChainIsNew(g: Graph, p: seq<Id>, d: Id)
    requires Acyclic(g) && Chain(g, p) && Edge(g, p[|p| - 1], d) && d in g
    ensures d !in p
  {
    if d in p {
      var i :| 0 <= i < |p| && p[i] == d;
      ChainAppend(g, p, d);
      assert ClosedChain(g, (p + [d])[i..]);
    }
  }

  /** Every task of a set reaches, inside an acyclic graph, a member of the set with no direct dependency in the set. */
  lemma LowestBelow(g: Graph, s: set<Id>, x: Id) returns (low: Id)
    requires Acyclic(g) && s <= g.Keys && x in s
    ensures low in s && Reaches(g, x, low) && forall d :: d in s ==> !Edge(g, low, d)
  {
    assert Chain(g, [x]);
    low := LowestBelowChain(g, s, [x]);
  }

  lemma {:induction false} LowestBelowChain(g: Graph, s: set<Id>, p: seq<Id>) returns (low: Id)
    requires Acyclic(g) && s <= g.Keys && Chain(g, p)
    requires forall i :: 0 <= i < |p| ==> p[i] in s
    ensures low in s && Reaches(g, p[0], low) && forall d :: d in s ==> !Edge(g, low, d)
    decreases s - set y | y in p
  {
    low := p[|p| - 1];
    assert ChainBetween(g, p, p[0], low);
    if d :| d in s && Edge(g, low, d) {
      NextOnAcyclicChainIsNew(g, p, d);
      ChainAppend(g, p, d);
      assert d in s - (set y | y in p) && d !in s - (set y | y in p + [d]);
      low := LowestBelowChain(g, s, p + [d]);
    }
  }

  /** The mirror image: every member is reached from a member that no member depends on directly. */
  lemma HighestAbove(g: Graph, s: set<Id>, x: Id) returns (high: Id)
    requires Acyclic(g) && s <= g.Keys && x in s
    ensures high in s && Reaches(g, high, x) && forall y :: y in s ==> !Edge(g, y, high)
  {
    assert Chain(g, [x]);
    high := HighestAboveChain(g, s, [x]);
  }

  lemma {:induction false} HighestAboveChain(g: Graph, s: set<Id>, p: seq<Id>) returns (high: Id)
    requires Acyclic(g) && s <= g.Keys && Chain(g, p)
    requires forall i :: 0 <= i < |p| ==> p[i] in s
    ensures high in s && Reaches(g, high, p[|p| - 1]) && forall y :: y in s ==> !Edge(g, y, high)
    decreases s - set y | y in p
  {
    high := p[0];
    assert ChainBetween(g, p, high, p[|p| - 1]);
    if y :| y in s && Edge(g, y, high) {
      ChainPrepend(g, y, p);
      if y in p {
        var i :| 0 <= i < |p| && p[i] == y;
        assert ClosedChain(g, ([y] + p)[..i + 2]);
      }
      assert y in s - (set z | z in p) && y !in s - (set z | z in [y] + p);
      high := HighestAboveChain(g, s, [y] + p);
    }
  }

  // ---------------------------------------------------------------------------------
  // The walk into a cycle: from a doomed task, follow the first doomed dependency.

  ghost function FirstDoomed(g: Graph, ds: seq<Id>, default: Id): (r: Id)
    ensures r == default || (r in ds && Doomed(g, r))
  {
    if ds == [] then default
    else if Doomed(g, ds[0]) then ds[0]
    else FirstDoomed(g, ds[1..], default)
  }

  ghost function Next(g: Graph, x: Id): (r: Id)
    requires Closed(g) && x in g
    ensures r in g
  {
    var r := FirstDoomed(g, g[x], x);
    assert r != x ==> Edge(g, x, r);
    r
  }

  ghost function Walk(g: Graph, x: Id, n: nat): (r: Id)
    requires Closed(g) && x in g
    ensures r in g
    decreases n
  {
    if n == 0 then x else Walk(g, Next(g, x), n - 1)
  }

  /** The tasks met on the walk from `x`, itself included. */
  ghost function WalkOf(g: Graph, x: Id): (w: set<Id>)
    requires Closed(g) && x in g
    ensures x in w
  {
    assert Walk(g, x, 0) == x;
    set y | y in g && OnWalk(g, x, y)
  }

  ghost predicate OnWalk(g: Graph, x: Id, y: Id)
    requires Closed(g) && x in g
  {
    exists n: nat :: Walk(g, x, n) == y
  }

  /** `b` is a dependency of `a`, and none listed before it runs into a cycle. */
  ghost predicate Leads(g: Graph, a: Id, b: Id) {
    a in g && exists k :: 0 <= k < |g[a]| && g[a][k] == b && forall j :: 0 <= j < k ==> !Doomed(g, g[a][j])
  }

  lemma {:induction false} FirstDoomedAt(g: Graph, ds: seq<Id>, default: Id, k: nat)
    requires k < |ds| && Doomed(g, ds[k]) && forall j :: 0 <= j < k ==> !Doomed(g, ds[j])
    ensures FirstDoomed(g, ds, default) == ds[k]
  {
    if k > 0 {
      FirstDoomedAt(g, ds[1..], default, k - 1);
    }
  }

  lemma LeadsToNext(g: Graph, a: Id, b: Id)
    requires Closed(g) && Leads(g, a, b) && Doomed(g, b)
    ensures Next(g, a) == b && Doomed(g, a)
  {
    var k :| 0 <= k < |g[a]| && g[a][k] == b && forall j :: 0 <= j < k ==> !Doomed(g, g[a][j]);
    FirstDoomedAt(g, g[a], a, k);
    DoomedThroughDependency(g, a);
  }

  lemma WalkUnfold(g: Graph, x: Id)
    requires Closed(g) && x in g
    ensures WalkOf(g, x) == {x} + WalkOf(g, Next(g, x))
  {
    forall y | y in WalkOf(g, x) && y != x ensures y in WalkOf(g, Next(g, x)) {
      var n: nat :| Walk(g, x, n) == y;
      assert Walk(g, Next(g, x), n - 1) == y;
    }
    forall y | y in WalkOf(g, Next(g, x)) ensures y in WalkOf(g, x) {
      var n: nat :| Walk(g, Next(g, x), n) == y;
      assert Walk(g, x, n + 1) == y;
    }
  }

  lemma WalkThrough(g: Graph, a: Id, b: Id)
    requires Closed(g) && Leads(g, a, b) && Doomed(g, b)
    ensures Doomed(g, a) && b in g && WalkOf(g, a) == {a} + WalkOf(g, b)
  {
    LeadsToNext(g, a, b);
    WalkUnfold(g, a);
  }

  lemma {:induction false} WalkStep(g: Graph, x: Id, n: nat)
    requires Closed(g) && x in g
    ensures Walk(g, x, n + 1) == Next(g, Walk(g, x, n))
    decreases n
  {
    if n > 0 {
      WalkStep(g, Next(g, x), n - 1);
    }
  }

  /** The walk of a task that runs into a cycle stays among such tasks, and steps never leave it. */
  lemma WalkOfDoomed(g: Graph, x: Id, y: Id)
    requires Closed(g) && x in g && Doomed(g, x) && y in WalkOf(g, x)
    ensures Doomed(g, y) && Next(g, y) in WalkOf(g, x)
  {
    var n: nat :| Walk(g, x, n) == y;
    WalkStep(g, x, n);
    WalkStaysDoomed(g, x, n);
  }

  lemma {:induction false} WalkStaysDoomed(g: Graph, x: Id, n: nat)
    requires Closed(g) && x in g && Doomed(g, x)
    ensures Doomed(g, Walk(g, x, n))
    decreases n
  {
    if n > 0 {
      DoomedThroughDependency(g, x);
      var d :| d in g[x] && Doomed(g, d);
      FirstDoomedFinds(g, g[x], x);
      WalkStaysDoomed(g, Next(g, x), n - 1);
    }
  }

  lemma {:induction false} FirstDoomedFinds(g: Graph, ds: seq<Id>, default: Id)
    requires exists d :: d in ds && Doomed(g, d)
    ensures Doomed(g, FirstDoomed(g, ds, default))
  {
    if !Doomed(g, ds[0]) {
      FirstDoomedFinds(g, ds[1..], default);
    }
  }

  /** A chain that starts at `p[0]` and takes first-doomed steps up to a closing edge carries the whole walk. */
  lemma {:induction false} WalkInsideLasso(g: Graph, p: seq<Id>, i: nat, j: nat, n: nat)
    requires Closed(g) && |p| > 0 && i <= j < |p|
    requires forall k :: 0 <= k < |p| ==> p[k] in g
    requires forall k :: i <= k < |p| - 1 ==> Next(g, p[k]) == p[k + 1]
    requires Next(g, p[|p| - 1]) == p[i]
    ensures Walk(g, p[j], n) in p[i..]
    decreases n
  {
    if n == 0 {
      assert p[i..][j - i] == p[j];
    } else if j < |p| - 1 {
      assert Next(g, p[j]) == p[j + 1];
      WalkInsideLasso(g, p, i, j + 1, n - 1);
    } else {
      WalkInsideLasso(g, p, i, i, n - 1);
    }
  }

  // ---------------------------------------------------------------------------------
  // The loop that the walk of a doomed task ends in.

  ghost predicate FollowsWalk(g: Graph, x: Id, p: seq<Id>)
    requires Closed(g)
  {
    && |p| > 0
    && p[0] == x
    && (forall k :: 0 <= k < |p| ==> p[k] in g)
    && forall k :: 0 <= k < |p| - 1 ==> Next(g, p[k]) == p[k + 1]
  }

  /** `p` is the walk from `x` up to its first repeated task, which is `p[at]`. */
  ghost predicate WalkRepeats(g: Graph, x: Id, p: seq<Id>, at: nat)
    requires Closed(g)
  {
    FollowsWalk(g, x, p) && Distinct(p) && at < |p| && Next(g, p[|p| - 1]) == p[at]
  }

  /** `c` goes once round the loop that the walk from `x` ends in, from the first task of the loop that it meets. */
  ghost predicate FirstLoop(g: Graph, x: Id, c: seq<Id>)
    requires Closed(g)
  {
    exists p, at: nat :: WalkRepeats(g, x, p, at) && c == p[at..] + [p[at]]
  }

  lemma {:induction false} FollowedIsWalk(g: Graph, x: Id, p: seq<Id>, k: nat)
    requires Closed(g) && FollowsWalk(g, x, p) && k < |p|
    ensures Walk(g, x, k) == p[k]
  {
    if k > 0 {
      FollowedIsWalk(g, x, p, k - 1);
      WalkStep(g, x, k - 1);
      assert Next(g, p[k - 1]) == p[k];
    }
  }

  /** Only one chain goes round: the walk has one first repetition. */
  lemma FirstLoopIsUnique(g: Graph, x: Id, c: seq<Id>, d: seq<Id>)
    requires Closed(g) && FirstLoop(g, x, c) && FirstLoop(g, x, d)
    ensures c == d
  {
    hide Next, Walk;
    var p, i: nat :| WalkRepeats(g, x, p, i) && c == p[i..] + [p[i]];
    var q, j: nat :| WalkRepeats(g, x, q, j) && d == q[j..] + [q[j]];
    NotLonger(g, x, p, i, q, j);
    NotLonger(g, x, q, j, p, i);
    forall k | 0 <= k < |p| ensures p[k] == q[k] {
      FollowedIsWalk(g, x, p, k);
      FollowedIsWalk(g, x, q, k);
    }
    assert p == q;
  }

  lemma NotLonger(g: Graph, x: Id, p: seq<Id>, i: nat, q: seq<Id>, j: nat)
    requires Closed(g) && WalkRepeats(g, x, p, i) && WalkRepeats(g, x, q, j)
    ensures |q| <= |p|
  {
    hide Next, Walk;
    if |p| < |q| {
      LongerRepeats(g, x, p, i, q);
    }
  }

  lemma LongerRepeats(g: Graph, x: Id, p: seq<Id>, i: nat, q: seq<Id>)
    requires Closed(g) && WalkRepeats(g, x, p, i) && FollowsWalk(g, x, q) && |p| < |q|
    ensures q[i] == q[|p|]
  {
    hide Next, Walk;
    FollowedIsWalk(g, x, p, |p| - 1);
    FollowedIsWalk(g, x, p, i);
    FollowedIsWalk(g, x, q, i);
    FollowedIsWalk(g, x, q, |p|);
    WalkStep(g, x, |p| - 1);
  }

  lemma FirstLoopInWalk(g: Graph, x: Id, c: seq<Id>)
    requires Closed(g) && x in g && FirstLoop(g, x, c)
    ensures |c| >= 2 && forall k :: 0 <= k < |c| ==> c[k] in WalkOf(g, x)
  {
    var p, at: nat :| WalkRepeats(g, x, p, at) && c == p[at..] + [p[at]];
    forall k | 0 <= k < |p| ensures p[k] in WalkOf(g, x) {
      FollowedIsWalk(g, x, p, k);
    }
  }

  /** Every task on the walk walks into the same loop. */
  lemma LoopOnEveryWalk(g: Graph, x: Id, c: seq<Id>, y: Id, k: nat)
    requires Closed(g) && x in g && FirstLoop(g, x, c) && y in WalkOf(g, x) && k < |c|
    ensures c[k] in WalkOf(g, y)
  {
    hide Next, WalkOf;
    var p, at: nat :| WalkRepeats(g, x, p, at) && c == p[at..] + [p[at]];
    var n: nat := StepsTo(g, x, y);
    WalkStaysInPath(g, p, at, 0, n);
    var j :| 0 <= j < |p| && p[j] == y;
    LoopFrom(g, p, at, j, if k < |p| - at then at + k else at);
  }

  lemma StepsTo(g: Graph, x: Id, y: Id) returns (n: nat)
    requires Closed(g) && x in g && y in WalkOf(g, x)
    ensures Walk(g, x, n) == y
  {
    n :| Walk(g, x, n) == y;
  }

  lemma {:induction false} WalkStaysInPath(g: Graph, p: seq<Id>, at: nat, j: nat, n: nat)
    requires Closed(g) && |p| > 0 && FollowsWalk(g, p[0], p) && at < |p| && j < |p| && Next(g, p[|p| - 1]) == p[at]
    ensures Walk(g, p[j], n) in p
    decreases n
  {
    if n > 0 {
      WalkStaysInPath(g, p, at, if j < |p| - 1 then j + 1 else at, n - 1);
    }
  }

  lemma {:induction false} LoopFrom(g: Graph, p: seq<Id>, at: nat, j: nat, k: nat)
    requires Closed(g) && |p| > 0 && FollowsWalk(g, p[0], p) && at < |p| && Next(g, p[|p| - 1]) == p[at]
    requires j < |p| && at <= k < |p|
    ensures p[k] in WalkOf(g, p[j])
    decreases if j <= k then k - j else 2 * |p| - j
  {
    hide Next, WalkOf;
    WalkUnfold(g, p[j]);
    if j < k || (j > k && j < |p| - 1) {
      LoopFrom(g, p, at, j + 1, k);
    } else if j > k {
      LoopFrom(g, p, at, at, k);
    }
  }

  /** What a task that runs into a cycle walks to is itself or one of its transitive dependencies. */
  lemma {:induction false} WalkReaches(g: Graph, x: Id, n: nat)
    requires Closed(g) && x in g && Doomed(g, x)
    ensures Reaches(g, x, Walk(g, x, n))
  {
    hide Doomed, Next;
    if n == 0 {
      assert ChainBetween(g, [x], x, x);
    } else {
      WalkReaches(g, x, n - 1);
      var p :| ChainBetween(g, p, x, Walk(g, x, n - 1));
      WalkStep(g, x, n - 1);
      WalkStaysDoomed(g, x, n - 1);
      NextIsEdge(g, p[|p| - 1]);
      ChainAppend(g, p, Next(g, p[|p| - 1]));
      assert ChainBetween(g, p + [Next(g, p[|p| - 1])], x, Walk(g, x, n));
    }
  }

  lemma NextIsEdge(g: Graph, x: Id)
    requires Closed(g) && x in g && Doomed(g, x)
    ensures Edge(g, x, Next(g, x))
  {
    DoomedThroughDependency(g, x);
    FirstDoomedFinds(g, g[x], x);
    FirstDoomedIsMember(g, g[x], x);
  }

  lemma {:induction false} FirstDoomedIsMember(g: Graph, ds: seq<Id>, default: Id)
    requires exists d :: d in ds && Doomed(g, d)
    ensures FirstDoomed(g, ds, default) in ds
  {
    if !Doomed(g, ds[0]) {
      FirstDoomedIsMember(g, ds[1..], default);
    }
  }
}
