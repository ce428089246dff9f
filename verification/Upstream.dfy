/** What a finished task leaves for the tasks that depend on it, and what they are given. */
module Upstream {
  import opened Graphs
  import opened Rounds
  import opened Scheduling
  import opened Text

  /** What a skill produced. */
  datatype SkillResult = SkillResult(text: string, artifacts: seq<string>)

  datatype TaskVarEntry = TaskVarEntry(summary: string, artifacts: seq<string>, sourceTaskId: Id, sourceSkill: string)

  const SUMMARY_LIMIT := 2000

  /** A text over the limit keeps its first 1997 characters. */
  function BuildTaskVarsEntry(id: Id, skill: string, result: SkillResult): (entry: TaskVarEntry)
    ensures |entry.summary| <= SUMMARY_LIMIT && entry.sourceTaskId == id && entry.sourceSkill == skill
    ensures entry.artifacts == result.artifacts
    ensures |result.text| <= SUMMARY_LIMIT ==> entry.summary == result.text
    ensures |result.text| > SUMMARY_LIMIT ==>
              && |entry.summary| == SUMMARY_LIMIT
              && entry.summary[..1997] == result.text[..1997] && entry.summary[1997..] == "..."
  {
    var text := result.text;
    var summary := if |text| > SUMMARY_LIMIT then text[..SUMMARY_LIMIT - 3] + "..." else text;
    TaskVarEntry(summary, result.artifacts, id, skill)
  }

  /** The context text and the artifacts that a task receives. */
  datatype Input = Input(context: string, artifacts: seq<string>)

  function Labelled(dep: Id, entry: TaskVarEntry): string {
    "[" + entry.sourceSkill + "#" + dep.name + "] " + entry.summary
  }

  /** The dependencies that have an entry; the others are skipped. */
  function Recorded(deps: seq<Id>, vars: map<Id, TaskVarEntry>): (known: seq<Id>)
    ensures forall d :: d in known ==> d in vars
  {
    if deps == [] then []
    else Recorded(deps[..|deps| - 1], vars) + if deps[|deps| - 1] in vars then [deps[|deps| - 1]] else []
  }

  function Summaries(known: seq<Id>, vars: map<Id, TaskVarEntry>): seq<string>
    requires forall d :: d in known ==> d in vars
  {
    seq(|known|, i requires 0 <= i < |known| => assert known[i] in known; Labelled(known[i], vars[known[i]]))
  }

  function Artifacts(known: seq<Id>, vars: map<Id, TaskVarEntry>): seq<string>
    requires forall d :: d in known ==> d in vars
  {
    if known == [] then []
    else
      assert known[|known| - 1] in known;
      Artifacts(known[..|known| - 1], vars) + vars[known[|known| - 1]].artifacts
  }

  function InputOf(deps: seq<Id>, vars: map<Id, TaskVarEntry>): Input {
    var known := Recorded(deps, vars);
    Input(Join(Summaries(known, vars), "\n\n"), Artifacts(known, vars))
  }

  // ---------------------------------------------------------------------------------
  // What an input tells, read off its text and its list.

  /** From `at` on the context reads: skill and id in brackets, a space, the whole summary. */
  ghost predicate LineAt(context: string, at: nat, dep: Id, entry: TaskVarEntry) {
    var n, m := |entry.sourceSkill|, |dep.name|;
    && StandsAt(context, at, "[")
    && StandsAt(context, at + 1, entry.sourceSkill)
    && StandsAt(context, at + 1 + n, "#")
    && StandsAt(context, at + 2 + n, dep.name)
    && StandsAt(context, at + 2 + n + m, "] ")
    && StandsAt(context, at + 4 + n + m, entry.summary)
  }

  function LineLength(dep: Id, entry: TaskVarEntry): nat {
    |entry.sourceSkill| + |dep.name| + |entry.summary| + 4
  }

  /** The `k`-th line stands at its start, followed by a blank line unless it is the last. */
  ghost predicate TellsAt(context: string, deps: seq<Id>, entries: seq<TaskVarEntry>, starts: seq<nat>, k: nat)
    requires k < |deps| == |entries| == |starts| - 1
  {
    && LineAt(context, starts[k], deps[k], entries[k])
    && starts[k + 1] == starts[k] + LineLength(deps[k], entries[k]) + 2
    && (k < |deps| - 1 ==> StandsAt(context, starts[k] + LineLength(deps[k], entries[k]), "\n\n"))
  }

  /** One line for each entry, in order, with a blank line between neighbours and nothing else. */
  ghost predicate ContextTells(context: string, deps: seq<Id>, entries: seq<TaskVarEntry>, starts: seq<nat>) {
    && |entries| == |deps| && |starts| == |deps| + 1
    && starts[0] == 0
    && (forall k :: 0 <= k < |deps| ==> TellsAt(context, deps, entries, starts, k))
    && |context| + (if deps == [] then 0 else 2) == starts[|deps|]
  }

  /** The artifact lists of the entries one after the other, and nothing else. */
  ghost predicate ArtifactsTold(artifacts: seq<string>, entries: seq<TaskVarEntry>, starts: seq<nat>) {
    && |starts| == |entries| + 1
    && starts[0] == 0 && starts[|entries|] == |artifacts|
    && forall k :: 0 <= k < |entries| ==>
         StandsAt(artifacts, starts[k], entries[k].artifacts) && starts[k + 1] == starts[k] + |entries[k].artifacts|
  }

  /** The input passes on these entries of these dependencies. */
  ghost predicate Conveys(input: Input, deps: seq<Id>, entries: seq<TaskVarEntry>) {
    && (exists starts :: ContextTells(input.context, deps, entries, starts))
    && (exists starts :: ArtifactsTold(input.artifacts, entries, starts))
  }

  /** `picks` are the positions of the dependencies that have an entry, in order. */
  ghost predicate Picks(deps: seq<Id>, vars: map<Id, TaskVarEntry>, picks: seq<nat>) {
    && (forall k :: 0 <= k < |picks| ==> picks[k] < |deps| && deps[picks[k]] in vars)
    && (forall j, k :: 0 <= j < k < |picks| ==> picks[j] < picks[k])
    && (forall i :: 0 <= i < |deps| && deps[i] in vars ==> i in picks)
  }

  function At<T>(xs: seq<T>, picks: seq<nat>): seq<T>
    requires forall k :: 0 <= k < |picks| ==> picks[k] < |xs|
  {
    seq(|picks|, k requires 0 <= k < |picks| => xs[picks[k]])
  }

  function Entries(known: seq<Id>, vars: map<Id, TaskVarEntry>): seq<TaskVarEntry>
    requires forall k :: 0 <= k < |known| ==> known[k] in vars
  {
    seq(|known|, k requires 0 <= k < |known| => vars[known[k]])
  }

  lemma EntriesInOrder(known: seq<Id>, vars: map<Id, TaskVarEntry>)
    requires forall k :: 0 <= k < |known| ==> known[k] in vars
    ensures |Entries(known, vars)| == |known|
    ensures forall k :: 0 <= k < |known| ==> Entries(known, vars)[k] == vars[known[k]]
  {
  }

  /** The input passes on the entry of every dependency that has one. */
  ghost predicate Tells(input: Input, deps: seq<Id>, vars: map<Id, TaskVarEntry>) {
    exists picks :: Picks(deps, vars, picks) && Conveys(input, At(deps, picks), Entries(At(deps, picks), vars))
  }

  lemma {:induction false} RecordedIsPicked(deps: seq<Id>, vars: map<Id, TaskVarEntry>) returns (picks: seq<nat>)
    ensures Picks(deps, vars, picks) && Recorded(deps, vars) == At(deps, picks)
  {
    hide Picks, At;
    if deps == [] {
      picks := [];
      NoPicks(deps, vars);
    } else {
      var n := |deps| - 1;
      var before := RecordedIsPicked(deps[..n], vars);
      picks := if deps[n] in vars then before + [n] else before;
      PicksSoFar(deps, vars, before);
      PickMore(deps, vars, before);
    }
  }

  lemma NoPicks(deps: seq<Id>, vars: map<Id, TaskVarEntry>)
    requires deps == []
    ensures Picks(deps, vars, []) && At(deps, []) == []
  {
  }

  lemma PicksSoFar(deps: seq<Id>, vars: map<Id, TaskVarEntry>, before: seq<nat>)
    requires deps != [] && Picks(deps[..|deps| - 1], vars, before)
    ensures forall k :: 0 <= k < |before| ==> before[k] < |deps| - 1
  {
  }

  lemma PickMore(deps: seq<Id>, vars: map<Id, TaskVarEntry>, before: seq<nat>)
    requires deps != [] && Picks(deps[..|deps| - 1], vars, before)
    requires forall k :: 0 <= k < |before| ==> before[k] < |deps| - 1
    ensures var n := |deps| - 1; var picks := if deps[n] in vars then before + [n] else before;
            && Picks(deps, vars, picks)
            && At(deps, picks) == At(deps[..n], before) + if deps[n] in vars then [deps[n]] else []
  {
    var n := |deps| - 1;
    AtFront(deps, before);
    if deps[n] in vars {
      PicksExtended(deps, vars, before);
      hide Picks, At;
      AtMore(deps, before, n);
    } else {
      PicksKept(deps, vars, before);
      hide Picks, At;
      assert At(deps, before) + [] == At(deps, before);
    }
  }

  lemma AtFront(deps: seq<Id>, before: seq<nat>)
    requires deps != [] && forall k :: 0 <= k < |before| ==> before[k] < |deps| - 1
    ensures At(deps, before) == At(deps[..|deps| - 1], before)
  {
  }

  lemma AtMore(deps: seq<Id>, before: seq<nat>, n: nat)
    requires n < |deps| && forall k :: 0 <= k < |before| ==> before[k] < |deps|
    ensures forall k :: 0 <= k < |before + [n]| ==> (before + [n])[k] < |deps|
    ensures At(deps, before + [n]) == At(deps, before) + [deps[n]]
  {
  }

  lemma PicksKept(deps: seq<Id>, vars: map<Id, TaskVarEntry>, before: seq<nat>)
    requires deps != [] && Picks(deps[..|deps| - 1], vars, before)
    requires (forall k :: 0 <= k < |before| ==> before[k] < |deps| - 1) && deps[|deps| - 1] !in vars
    ensures Picks(deps, vars, before)
  {
    PicksCover(deps, vars, before, before);
  }

  lemma PicksExtended(deps: seq<Id>, vars: map<Id, TaskVarEntry>, before: seq<nat>)
    requires deps != [] && Picks(deps[..|deps| - 1], vars, before)
    requires (forall k :: 0 <= k < |before| ==> before[k] < |deps| - 1) && deps[|deps| - 1] in vars
    ensures Picks(deps, vars, before + [|deps| - 1])
  {
    assert (before + [|deps| - 1])[|before|] == |deps| - 1;
    PicksCover(deps, vars, before, before + [|deps| - 1]);
  }

  lemma PicksCover(deps: seq<Id>, vars: map<Id, TaskVarEntry>, before: seq<nat>, picks: seq<nat>)
    requires deps != [] && Picks(deps[..|deps| - 1], vars, before) && before <= picks
    requires deps[|deps| - 1] in vars ==> |deps| - 1 in picks
    ensures forall i :: 0 <= i < |deps| && deps[i] in vars ==> i in picks
  {
    var n := |deps| - 1;
    forall i | 0 <= i < |deps| && deps[i] in vars ensures i in picks {
      if i < n {
        assert deps[..n][i] in vars;
        assert i in before;
      }
    }
  }

  lemma LabelledLine(context: string, at: nat, dep: Id, entry: TaskVarEntry)
    requires StandsAt(context, at, Labelled(dep, entry))
    ensures LineAt(context, at, dep, entry)
  {
    var n, m := |entry.sourceSkill|, |dep.name|;
    var a, b, c := "[" + entry.sourceSkill, "[" + entry.sourceSkill + "#", "[" + entry.sourceSkill + "#" + dep.name;
    hide StandsAt;
    StandsInParts(context, at, c + "] ", entry.summary);
    StandsInParts(context, at, c, "] ");
    StandsInParts(context, at, b, dep.name);
    StandsInParts(context, at, a, "#");
    StandsInParts(context, at, "[", entry.sourceSkill);
  }

  lemma SummariesTell(known: seq<Id>, vars: map<Id, TaskVarEntry>) returns (starts: seq<nat>)
    requires forall d :: d in known ==> d in vars
    ensures ContextTells(Join(Summaries(known, vars), "\n\n"), known, Entries(known, vars), starts)
  {
    starts := JoinIsLaid(Summaries(known, vars), "\n\n");
    LinesTell(known, vars, Join(Summaries(known, vars), "\n\n"), starts);
  }

  lemma LinesTell(known: seq<Id>, vars: map<Id, TaskVarEntry>, context: string, starts: seq<nat>)
    requires (forall d :: d in known ==> d in vars) && Laid(context, Summaries(known, vars), "\n\n", starts)
    ensures ContextTells(context, known, Entries(known, vars), starts)
  {
    SummaryLines(known, vars);
    EntriesInOrder(known, vars);
    hide TellsAt, PartAt, Summaries, Entries;
    forall k | 0 <= k < |known| ensures TellsAt(context, known, Entries(known, vars), starts, k) {
      assert PartAt(context, Summaries(known, vars), "\n\n", starts, k);
      LineTells(known, Summaries(known, vars), Entries(known, vars), context, starts, k);
    }
  }

  lemma LineTells(known: seq<Id>, lines: seq<string>, entries: seq<TaskVarEntry>, context: string, starts: seq<nat>,
                  k: nat)
    requires k < |known| == |lines| == |entries| == |starts| - 1 && PartAt(context, lines, "\n\n", starts, k)
    requires lines[k] == Labelled(known[k], entries[k])
    ensures TellsAt(context, known, entries, starts, k)
  {
    hide LineAt, StandsAt;
    LabelledLine(context, starts[k], known[k], entries[k]);
  }

  lemma SummaryLines(known: seq<Id>, vars: map<Id, TaskVarEntry>)
    requires forall d :: d in known ==> d in vars
    ensures |Summaries(known, vars)| == |known|
    ensures forall k :: 0 <= k < |known| ==>
              Summaries(known, vars)[k] == Labelled(known[k], vars[known[k]])
  {
  }

  lemma {:induction false} ArtifactsTell(known: seq<Id>, vars: map<Id, TaskVarEntry>) returns (starts: seq<nat>)
    requires forall d :: d in known ==> d in vars
    ensures ArtifactsTold(Artifacts(known, vars), Entries(known, vars), starts)
  {
    if known == [] {
      starts := [0];
    } else {
      var n := |known| - 1;
      assert known[n] in known;
      var before := ArtifactsTell(known[..n], vars);
      assert Entries(known, vars) == Entries(known[..n], vars) + [vars[known[n]]];
      starts := ToldMore(Artifacts(known[..n], vars), Entries(known[..n], vars), before, vars[known[n]]);
    }
  }

  lemma ToldMore(artifacts: seq<string>, entries: seq<TaskVarEntry>, before: seq<nat>, entry: TaskVarEntry)
      returns (starts: seq<nat>)
    requires ArtifactsTold(artifacts, entries, before)
    ensures ArtifactsTold(artifacts + entry.artifacts, entries + [entry], starts)
  {
    starts := before + [|artifacts| + |entry.artifacts|];
    forall k | 0 <= k < |entries| + 1
      ensures StandsAt(artifacts + entry.artifacts, starts[k], (entries + [entry])[k].artifacts)
    {
      if k < |entries| {
        StandsBefore(artifacts, entry.artifacts, starts[k], entries[k].artifacts);
      }
    }
  }

  /** The specification tells every entry, and so do all inputs built by `InjectUpstream`. */
  lemma InputTells(deps: seq<Id>, vars: map<Id, TaskVarEntry>)
    ensures Tells(InputOf(deps, vars), deps, vars)
  {
    hide ContextTells, ArtifactsTold, Summaries, Artifacts, Entries, Picks, At;
    var picks := RecordedIsPicked(deps, vars);
    var known := Recorded(deps, vars);
    var lines := SummariesTell(known, vars);
    var pieces := ArtifactsTell(known, vars);
    PickedKnown(deps, vars, picks);
    assert Conveys(InputOf(deps, vars), known, Entries(known, vars));
  }

  lemma PickedKnown(deps: seq<Id>, vars: map<Id, TaskVarEntry>, picks: seq<nat>)
    requires Picks(deps, vars, picks)
    ensures forall k :: 0 <= k < |picks| ==> picks[k] < |deps|
    ensures forall k :: 0 <= k < |At(deps, picks)| ==> At(deps, picks)[k] in vars
  {
  }

  /** When every dependency has an entry, every one is told. */
  lemma AllTold(input: Input, deps: seq<Id>, vars: map<Id, TaskVarEntry>)
    requires Tells(input, deps, vars) && forall d :: d in deps ==> d in vars
    ensures Conveys(input, deps, Entries(deps, vars))
  {
    hide Conveys;
    var picks :| Picks(deps, vars, picks) && Conveys(input, At(deps, picks), Entries(At(deps, picks), vars));
    PicksAreAll(deps, vars, picks, |deps|);
    assert At(deps, picks) == deps;
  }

  /** Increasing positions that include the first `n` start with them. */
  lemma {:induction false} PicksAreAll(deps: seq<Id>, vars: map<Id, TaskVarEntry>, picks: seq<nat>, n: nat)
    requires Picks(deps, vars, picks) && n <= |deps| && forall d :: d in deps ==> d in vars
    ensures n <= |picks| && forall k :: 0 <= k < n ==> picks[k] == k
    ensures n == |deps| ==> |picks| == n
  {
    if n > 0 {
      PicksAreAll(deps, vars, picks, n - 1);
      NextPick(deps, vars, picks, n - 1);
      assert deps[n - 1] in vars;
      var k :| 0 <= k < |picks| && picks[k] == n - 1;
    }
    NextPick(deps, vars, picks, n);
  }

  lemma NextPick(deps: seq<Id>, vars: map<Id, TaskVarEntry>, picks: seq<nat>, n: nat)
    requires Picks(deps, vars, picks) && n <= |picks| && forall k :: 0 <= k < n ==> picks[k] == k
    ensures n < |picks| ==> n <= picks[n] < |deps|
  {
    if 0 < n < |picks| {
      assert picks[n - 1] < picks[n];
    }
  }

  /** `inject_upstream_context` */
  method InjectUpstream(deps: seq<Id>, vars: map<Id, TaskVarEntry>) returns (input: Input)
    ensures Tells(input, deps, vars)
  {
    var summaries: seq<string>, artifacts: seq<string> := [], [];
    ghost var known: seq<Id> := [];
    for i := 0 to |deps|
      invariant known == Recorded(deps[..i], vars)
      invariant summaries == Summaries(known, vars) && artifacts == Artifacts(known, vars)
    {
      assert deps[..i + 1][..i] == deps[..i];
      if deps[i] in vars {
        assert (known + [deps[i]])[..|known|] == known;
        known := known + [deps[i]];
        summaries := summaries + [Labelled(deps[i], vars[deps[i]])];
        artifacts := artifacts + vars[deps[i]].artifacts;
      }
    }
    assert deps[..|deps|] == deps;
    input := Input(Join(summaries, "\n\n"), artifacts);
    InputTells(deps, vars);
  }

  /** A task that a round starts gets something from every dependency; the skip is never taken. */
  lemma NoDependencyIsSkipped(p: Plan, s: Sched, x: Id, vars: map<Id, TaskVarEntry>, input: Input)
    requires p.Valid() && Inv(p, s) && x in p.Batch(s) && vars.Keys == s.taskVars
    requires x in p.deps && Tells(input, p.deps[x], vars)
    ensures forall k :: 0 <= k < |p.deps[x]| ==> p.deps[x][k] in vars
    ensures Conveys(input, p.deps[x], Entries(p.deps[x], vars))
  {
    hide Plan.Valid, Plan.Batch, Having, Conveys, Tells;
    InvIsCore(p, s);
    BatchIsReady(p, s);
    assert x in Elements(p.Batch(s));
    assert forall d :: d in p.deps[x] ==> Edge(p.deps, x, d);
    AllTold(input, p.deps[x], vars);
  }
}
