/** Runs on which the scheduler does not do what its configuration suggests. */
module SchedulingExamples {
  import opened Graphs
  import opened Tasks
  import opened Rounds
  import opened Scheduling
  import opened FinalStatuses

  /** "b" depends on "a"; "c" and "d" depend on nothing. One task at a time, and a cap of two failures. */
  ghost predicate Capped(p: Plan, a: Id, b: Id, c: Id, d: Id) {
    && a != b && a != c && a != d && b != c && b != d && c != d && p.ids == [a, b, c, d]
    && p.deps.Keys == {a, b, c, d} && p.deps[a] == [] && p.deps[b] == [a] && p.deps[c] == [] && p.deps[d] == []
    && p.cfg == Config(StopDependents, 2, 1)
  }

  /** "b" depends on "a"; failures do not stop the run. */
  ghost predicate Stalling(p: Plan, a: Id, b: Id) {
    && a != b && p.ids == [a, b] && p.deps.Keys == {a, b} && p.deps[a] == [] && p.deps[b] == [a]
    && p.cfg == Config(Continue, 3, 1)
  }

  lemma Instances()
    ensures var a, b, c, d := Id("a"), Id("b"), Id("c"), Id("d");
            var deps := map[a := [], b := [a], c := [], d := []];
            && Capped(Plan(deps, [a, b, c, d], Config(StopDependents, 2, 1)), a, b, c, d)
            && Stalling(Plan(map[a := [], b := [a]], [a, b], Config(Continue, 3, 1)), a, b)
  {
    assert "a"[0] == 'a' && "b"[0] == 'b' && "c"[0] == 'c' && "d"[0] == 'd';
  }

  lemma OneEdgeIsAcyclic(g: Graph, a: Id, b: Id)
    requires a != b && a in g && b in g && g[b] == [a] && forall x :: x in g && x != b ==> g[x] == []
    ensures Closed(g) && Acyclic(g)
  {
    assert forall x, y :: Edge(g, x, y) ==> x == b && y == a;
    forall p | Chain(g, p) && |p| >= 2 ensures p[0] != p[|p| - 1] {
      assert Edge(g, p[0], p[1]) && Edge(g, p[|p| - 2], p[|p| - 2 + 1]);
    }
  }

  lemma FinishOne(p: Plan, s: Sched, x: Id, outcome: Id -> Outcome)
    requires x in s.status
    ensures p.Finished(s, [x], outcome) ==
            if outcome(x) == Ok
            then s.(status := s.status[x := Done], completed := s.completed + {x}, taskVars := s.taskVars + {x})
            else s.(status := s.status[x := Failed], failed := s.failed + {x})
  {
    var f := p.Finished(s, [x], outcome);
    var ended := if outcome(x) == Ok then Done else Failed;
    assert f.status == s.status[x := ended];
    assert (set y | y in [x] && outcome(y) == Ok) == if outcome(x) == Ok then {x} else {};
    assert (set y | y in [x] && outcome(y) != Ok) == if outcome(x) == Ok then {} else {x};
  }

  lemma CancelOne(p: Plan, s: Sched, x: Id)
    requires x in s.status
    ensures p.Cancel(s, {x}) == s.(status := s.status[x := Cancelled])
  {
    assert p.Cancel(s, {x}).status == s.status[x := Cancelled];
  }

  lemma SelectTwo(a: Id, b: Id, keep: set<Id>)
    ensures Select([a, b], keep) == (if a in keep then [a] else []) + (if b in keep then [b] else [])
  {
    assert [a, b][..1] == [a] && [a][..0] == [];
  }

  lemma SelectFour(a: Id, b: Id, c: Id, d: Id, keep: set<Id>)
    ensures Select([a, b, c, d], keep) ==
            (if a in keep then [a] else []) + (if b in keep then [b] else []) +
            (if c in keep then [c] else []) + (if d in keep then [d] else [])
  {
    assert [a, b, c, d][..3] == [a, b, c] && [a, b, c][..2] == [a, b];
    SelectTwo(a, b, keep);
  }

  lemma Starts(p: Plan, s: Sched, x: Id, later: seq<Id>)
    requires p.cfg.maxParallelTasks == 1 && Select(p.ids, p.Ready(s)) == [x] + later
    ensures p.Batch(s) == [x]
  {
  }

  lemma FirstRounds(p: Plan, f: Id -> Outcome)
    ensures p.After([f]) == p.Round(p.Init(), f) && p.After([f, f]) == p.Round(p.Round(p.Init(), f), f)
  {
    hide Plan.Round, Plan.Init;
    assert [f][..0] == [];
    assert [f, f][..1] == [f];
    assert p.After([f, f]) == p.Round(p.After([f, f][..1]), [f, f][1]);
  }

  // ---------------------------------------------------------------------------------
  // The cap

  lemma CappedExecutes(p: Plan, a: Id, b: Id, c: Id, d: Id, f: Id -> Outcome)
    requires Capped(p, a, b, c, d) && f(a) != Ok
    ensures var s := p.Init();
            p.Executed(s, f) == s.(status := s.status[a := Failed], failed := {a})
  {
    var s := p.Init();
    assert p.deps[b][0] == a;
    assert p.Ready(s) == {a, c, d};
    SelectFour(a, b, c, d, {a, c, d});
    hide Plan.Ready, Select, Plan.Finished, Plan.Batch;
    Starts(p, s, a, [c, d]);
    FinishOne(p, s, a, f);
  }

  lemma StillPending(p: Plan, a: Id, b: Id, c: Id, d: Id, k: Sched)
    requires Capped(p, a, b, c, d) && k.completed == {} && k.failed == {a, b} && k.status.Keys == p.deps.Keys
    requires k.status[a] == Failed && k.status[b] == Cancelled && k.status[c] == Pending && k.status[d] == Pending
    ensures p.Relist(k) == k.(pending := [c, d])
  {
    assert k.With(Pending) - k.completed - k.failed == {c, d};
    SelectFour(a, b, c, d, {c, d});
  }

  lemma CappedChecks(p: Plan, a: Id, b: Id, c: Id, d: Id, e: Sched)
    requires Capped(p, a, b, c, d) && e == p.Init().(status := p.Init().status[a := Failed], failed := {a})
    ensures p.Checked(e) == e.(status := e.status[b := Cancelled], failed := {a, b}, pending := [c, d])
  {
    assert p.deps[b][0] == a;
    assert p.Dependents(e, e.failed) == {b};
    CancelOne(p, e, b);
    var k := e.(status := e.status[b := Cancelled], failed := {a, b});
    StillPending(p, a, b, c, d, k);
    hide Plan.Dependents, Plan.Cancel, Select, Having, Plan.Init;
    assert e.failed + {b} == {a, b};
    assert |e.failed| == 1;
    assert p.Checked(e) == p.Relist(k);
  }

  lemma ReadyAgain(p: Plan, a: Id, b: Id, c: Id, d: Id, s: Sched)
    requires Capped(p, a, b, c, d) && s.completed == {} && s.status.Keys == p.deps.Keys
    requires s.status[a] == Failed && s.status[b] == Cancelled && s.status[c] == Pending && s.status[d] == Pending
    ensures p.Ready(s) == {c, d}
  {
  }

  lemma CappedExecutesAgain(p: Plan, a: Id, b: Id, c: Id, d: Id, s: Sched, f: Id -> Outcome)
    requires Capped(p, a, b, c, d) && f(c) == Ok && s.completed == {}
    requires s.status.Keys == p.deps.Keys
    requires s.status[a] == Failed && s.status[b] == Cancelled && s.status[c] == Pending && s.status[d] == Pending
    ensures p.Executed(s, f) == s.(status := s.status[c := Done], completed := {c}, taskVars := s.taskVars + {c})
  {
    ReadyAgain(p, a, b, c, d, s);
    SelectFour(a, b, c, d, {c, d});
    hide Plan.Ready, Select, Plan.Finished, Plan.Batch;
    Starts(p, s, c, [d]);
    FinishOne(p, s, c, f);
  }

  /** With "a" and "b" counted as failed, the cap of two cancels "d", which depends on nothing. */
  lemma CapHits(p: Plan, a: Id, b: Id, c: Id, d: Id, e: Sched)
    requires Capped(p, a, b, c, d) && e.failed == {a, b}
    requires e.status.Keys == p.deps.Keys
    requires e.status[a] == Failed && e.status[b] == Cancelled && e.status[c] == Done && e.status[d] == Pending
    ensures p.Checked(e).With(Failed) == {a} && p.Checked(e).With(Cancelled) == {b, d}
  {
    assert |e.failed| == 2 && e.With(Pending) == {d};
    CancelOne(p, e, d);
  }

  lemma NothingBelow(p: Plan, s: Sched, x: Id)
    requires x in p.deps && p.deps[x] == []
    ensures !HasFailedAncestor(p, s, x)
  {
    forall q | Chain(p.deps, q) && q[0] == x ensures |q| < 2 {
      assert |q| >= 2 ==> Edge(p.deps, q[0], q[1]);
    }
  }

  lemma CappedIsValid(p: Plan, a: Id, b: Id, c: Id, d: Id)
    requires Capped(p, a, b, c, d)
    ensures p.Valid()
  {
    OneEdgeIsAcyclic(p.deps, a, b);
  }

  /** After the first round "a" has failed, "b" is cancelled and counted, "c" and "d" are pending. */
  ghost predicate AfterFirst(p: Plan, a: Id, b: Id, c: Id, d: Id, s: Sched) {
    && s.status.Keys == p.deps.Keys && s.completed == {} && s.failed == {a, b}
    && a in p.deps && b in p.deps && c in p.deps && d in p.deps
    && s.status[a] == Failed && s.status[b] == Cancelled && s.status[c] == Pending && s.status[d] == Pending
  }

  lemma CappedFirst(p: Plan, a: Id, b: Id, c: Id, d: Id, f: Id -> Outcome)
    requires Capped(p, a, b, c, d) && f(a) != Ok
    ensures AfterFirst(p, a, b, c, d, p.Round(p.Init(), f))
  {
    hide Plan.Executed, Plan.Checked;
    CappedExecutes(p, a, b, c, d, f);
    CappedChecks(p, a, b, c, d, p.Executed(p.Init(), f));
  }

  lemma CappedSecond(p: Plan, a: Id, b: Id, c: Id, d: Id, s: Sched, f: Id -> Outcome)
    requires Capped(p, a, b, c, d) && AfterFirst(p, a, b, c, d, s) && f(c) == Ok
    ensures p.Round(s, f).With(Failed) == {a} && p.Round(s, f).With(Cancelled) == {b, d}
  {
    hide Plan.Executed, Plan.Checked, Having;
    CappedExecutesAgain(p, a, b, c, d, s, f);
    CapHits(p, a, b, c, d, p.Executed(s, f));
  }

  /**
   * One failure trips a cap of two: when "a" fails its dependent "b" is cancelled and counted, so the next check
   * cancels "d" although nothing below it failed.
   */
  lemma OneFailureTripsACapOfTwo(p: Plan, a: Id, b: Id, c: Id, d: Id, outcome: Id -> Outcome)
    requires Capped(p, a, b, c, d) && outcome(a) == Error && outcome(c) == Ok
    ensures p.Valid()
    ensures var s := p.After([outcome, outcome]);
            s.With(Failed) == {a} && s.With(Cancelled) == {b, d} && !HasFailedAncestor(p, s, d)
  {
    hide Plan.Valid, Plan.Round, Plan.After, HasFailedAncestor, Having, AfterFirst, Plan.Init;
    CappedIsValid(p, a, b, c, d);
    FirstRounds(p, outcome);
    CappedFirst(p, a, b, c, d, outcome);
    CappedSecond(p, a, b, c, d, p.Round(p.Init(), outcome), outcome);
    NothingBelow(p, p.After([outcome, outcome]), d);
  }

  // ---------------------------------------------------------------------------------
  // The stall

  lemma StallingExecutes(p: Plan, a: Id, b: Id, f: Id -> Outcome)
    requires Stalling(p, a, b) && f(a) != Ok
    ensures var s := p.Init();
            p.Executed(s, f) == s.(status := s.status[a := Failed], failed := {a})
  {
    var s := p.Init();
    assert p.deps[b][0] == a;
    assert p.Ready(s) == {a};
    SelectTwo(a, b, {a});
    hide Plan.Ready, Select, Plan.Finished, Plan.Batch;
    Starts(p, s, a, []);
    FinishOne(p, s, a, f);
  }

  lemma StallingRelists(p: Plan, a: Id, b: Id, e: Sched)
    requires Stalling(p, a, b) && e.failed == {a} && e.completed == {}
    requires e.status.Keys == p.deps.Keys && e.status[a] == Failed && e.status[b] == Pending
    ensures p.Checked(e) == e.(pending := [b])
  {
    assert e.With(Pending) - e.completed - e.failed == {b};
    SelectTwo(a, b, {b});
  }

  lemma StallingIdles(p: Plan, a: Id, b: Id, s: Sched, f: Id -> Outcome)
    requires Stalling(p, a, b) && s.completed == {}
    requires s.status.Keys == p.deps.Keys && s.status[a] == Failed && s.status[b] == Pending
    ensures p.Executed(s, f) == s
  {
    assert p.deps[b][0] == a;
    assert p.Ready(s) == {};
    SelectTwo(a, b, {});
    FinishNothing(p, s, f);
  }

  lemma StallingFirst(p: Plan, a: Id, b: Id, f: Id -> Outcome)
    requires Stalling(p, a, b) && f(a) != Ok
    ensures var s := p.Round(p.Init(), f);
            && s.status.Keys == {a, b} && s.status[a] == Failed && s.status[b] == Pending
            && s.completed == {} && s.failed == {a} && s.pending == [b]
  {
    hide Plan.Executed, Plan.Checked;
    StallingExecutes(p, a, b, f);
    StallingRelists(p, a, b, p.Executed(p.Init(), f));
  }

  lemma StallingAgain(p: Plan, a: Id, b: Id, s: Sched, f: Id -> Outcome)
    requires Stalling(p, a, b) && s.completed == {} && s.failed == {a} && s.pending == [b]
    requires s.status.Keys == {a, b} && s.status[a] == Failed && s.status[b] == Pending
    ensures p.Round(s, f) == s && s.With(Pending) == {b} && p.RouteOf(s) == ToExecute
  {
    hide Plan.Executed, Plan.Checked;
    StallingIdles(p, a, b, s, f);
    StallingRelists(p, a, b, s);
    assert b in s.With(Pending);
  }

  /** Under `continue` a failure leaves its dependent pending, and every later round changes nothing. */
  lemma FailureStallsContinue(p: Plan, a: Id, b: Id, first: Id -> Outcome, later: Id -> Outcome)
    requires Stalling(p, a, b) && first(a) == Error
    ensures p.Valid()
    ensures var s := p.After([first]);
            s.With(Pending) == {b} && p.RouteOf(s) == ToExecute && p.Round(s, later) == s
  {
    StallingIsValid(p, a, b);
    hide Plan.Valid, Plan.Round, Plan.After, Having, Plan.Init, Plan.RouteOf;
    FirstRounds(p, first);
    StallingFirst(p, a, b, first);
    StallingAgain(p, a, b, p.Round(p.Init(), first), later);
  }

  lemma StallingIsValid(p: Plan, a: Id, b: Id)
    requires Stalling(p, a, b)
    ensures p.Valid()
  {
    OneEdgeIsAcyclic(p.deps, a, b);
  }
}
