/** Which findings `trigger_compression` compacts. */
module Compression {
  import opened Options

  const RAW_CONTENT_THRESHOLD := 8000
  const COMPACT_SNIPPET_LENGTH := 200
  const AGGRESSIVE_SNIPPET_LENGTH := 100

  /** The value of a finding. `sources` is the rendered list of its URLs. */
  datatype Entry = Entry(step: int, raw: string, compact: string, sources: string, strong: bool)

  /** What a compaction depends on outside the context: line extraction, and the model's summary or failure. */
  datatype Tools = Tools(extract: string -> string, summarize: string -> Option<string>)

  function Digest(tools: Tools, e: Entry, limit: nat): (r: Entry)
    ensures r.raw == "" && r.compact != "" && r.step == e.step && r.strong == e.strong
  {
    var text := tools.extract(e.raw);
    e.(raw := "", compact := (if |text| > limit then text[..limit] else text) + "\n来源：" + e.sources)
  }

  /** Phase 1 asks the model for strong findings and falls back to the digest. */
  function Squeezed(tools: Tools, e: Entry): (r: Entry)
    ensures r.raw == "" && r.step == e.step && r.strong == e.strong
  {
    if e.strong && tools.summarize(e.raw).Some? then e.(raw := "", compact := tools.summarize(e.raw).value)
    else Digest(tools, e, COMPACT_SNIPPET_LENGTH)
  }

  predicate Compressible(e: Entry) {
    e.raw != "" && e.compact == ""
  }

  predicate Eligible(v: seq<Entry>, step: int, i: nat) {
    i < |v| && step - v[i].step >= 2 && Compressible(v[i])
  }

  /** `j` is compacted before `i`: findings that are not strong first, then later steps, then later positions. */
  predicate Sooner(v: seq<Entry>, i: nat, j: nat)
    requires i < |v| && j < |v|
  {
    if v[i].strong != v[j].strong then v[i].strong
    else if v[i].step != v[j].step then v[i].step < v[j].step
    else i < j
  }

  /** Raw characters of the findings in `s` among the first `n`. */
  function RawOf(v: seq<Entry>, s: set<nat>, n: nat): nat
    requires n <= |v|
  {
    if n == 0 then 0 else RawOf(v, s, n - 1) + if n - 1 in s then |v[n - 1].raw| else 0
  }

  function TotalOf(v: seq<Entry>, n: nat): nat
    requires n <= |v|
  {
    if n == 0 then 0 else TotalOf(v, n - 1) + |v[n - 1].raw|
  }

  function Total(v: seq<Entry>): nat {
    TotalOf(v, |v|)
  }

  /** The eligible findings compacted before `i`. */
  function Ahead(v: seq<Entry>, step: int, i: nat): set<nat>
    requires i < |v|
  {
    set j: nat | j < |v| && Eligible(v, step, j) && Sooner(v, i, j)
  }

  /** Compacting everything ahead of `i` does not meet the budget. */
  predicate Needed(v: seq<Entry>, step: int, budget: int, i: nat)
    requires i < |v|
  {
    Eligible(v, step, i) && Total(v) - RawOf(v, Ahead(v, step, i), |v|) > budget
  }

  function Phase1(tools: Tools, v: seq<Entry>, step: int, budget: int): (r: seq<Entry>)
    ensures |r| == |v|
  {
    seq(|v|, i requires 0 <= i < |v| => if Needed(v, step, budget, i) then Squeezed(tools, v[i]) else v[i])
  }

  function Phase2(tools: Tools, v: seq<Entry>, step: int): (r: seq<Entry>)
    ensures |r| == |v|
  {
    seq(|v|, i requires 0 <= i < |v| =>
      if step - v[i].step >= 1 && Compressible(v[i]) then Digest(tools, v[i], AGGRESSIVE_SNIPPET_LENGTH) else v[i])
  }

  function Compressed(tools: Tools, v: seq<Entry>, step: int, tokenBudget: int): seq<Entry> {
    var budget := if tokenBudget != 0 then tokenBudget else RAW_CONTENT_THRESHOLD;
    if Total(v) <= budget then v
    else
      var r := Phase1(tools, v, step, budget);
      if tokenBudget > 0 && Total(r) > tokenBudget then Phase2(tools, r, step) else r
  }

  // ---------------------------------------------------------------------------------
  // Sums

  lemma {:induction false} RawOfAdd(v: seq<Entry>, s: set<nat>, i: nat, n: nat)
    requires n <= |v| && i !in s
    ensures RawOf(v, s + {i}, n) == RawOf(v, s, n) + if i < n then |v[i].raw| else 0
  {
    if n > 0 {
      RawOfAdd(v, s, i, n - 1);
    }
  }

  lemma {:induction false} RawOfMonotone(v: seq<Entry>, s: set<nat>, t: set<nat>, n: nat)
    requires n <= |v| && s <= t
    ensures RawOf(v, s, n) <= RawOf(v, t, n)
  {
    if n > 0 {
      RawOfMonotone(v, s, t, n - 1);
    }
  }

  lemma {:induction false} RawOfNone(v: seq<Entry>, n: nat)
    requires n <= |v|
    ensures RawOf(v, {}, n) == 0
  {
    if n > 0 {
      RawOfNone(v, n - 1);
    }
  }

  /** Emptying the findings of `s` lowers the total by their raw length. */
  lemma {:induction false} TotalAfter(v: seq<Entry>, w: seq<Entry>, s: set<nat>, n: nat)
    requires n <= |v| == |w|
    requires forall i :: 0 <= i < |v| ==> w[i].raw == if i in s then "" else v[i].raw
    ensures TotalOf(w, n) == TotalOf(v, n) - RawOf(v, s, n)
  {
    if n > 0 {
      TotalAfter(v, w, s, n - 1);
    }
  }

  // ---------------------------------------------------------------------------------
  // What the rule guarantees

  ghost function Chosen(v: seq<Entry>, step: int, budget: int): set<nat> {
    set i: nat | i < |v| && Needed(v, step, budget, i)
  }

  lemma Phase1Total(tools: Tools, v: seq<Entry>, step: int, budget: int)
    ensures Total(Phase1(tools, v, step, budget)) == Total(v) - RawOf(v, Chosen(v, step, budget), |v|)
  {
    TotalAfter(v, Phase1(tools, v, step, budget), Chosen(v, step, budget), |v|);
  }

  /** Whatever is ahead of a needed finding is needed too. */
  lemma NeededUpwards(v: seq<Entry>, step: int, budget: int, i: nat, j: nat)
    requires i < |v| && j < |v| && Needed(v, step, budget, i) && Eligible(v, step, j) && Sooner(v, i, j)
    ensures Needed(v, step, budget, j)
  {
    assert Ahead(v, step, j) <= Ahead(v, step, i);
    RawOfMonotone(v, Ahead(v, step, j), Ahead(v, step, i), |v|);
  }

  /** Some eligible finding that is not needed has every needed one ahead of it. */
  lemma {:induction false} FirstSpared(v: seq<Entry>, step: int, budget: int, i: nat) returns (k: nat)
    requires Eligible(v, step, i) && !Needed(v, step, budget, i)
    ensures Eligible(v, step, k) && !Needed(v, step, budget, k)
    ensures Ahead(v, step, k) <= Chosen(v, step, budget)
    decreases Ahead(v, step, i)
  {
    if j: nat :| j in Ahead(v, step, i) && !Needed(v, step, budget, j) {
      assert Ahead(v, step, j) <= Ahead(v, step, i) && j !in Ahead(v, step, j);
      k := FirstSpared(v, step, budget, j);
    } else {
      k := i;
    }
  }

  /** `j` is as strong as `i` and of a later step, or later in the list in the same step. */
  ghost predicate Later(v: seq<Entry>, i: nat, j: nat)
    requires i < |v| && j < |v|
  {
    v[j].strong == v[i].strong && (v[j].step > v[i].step || (v[j].step == v[i].step && j > i))
  }

  /**
   * Phase 1 ends with the budget met or nothing eligible left; it changes only findings at least two steps old;
   * a strong finding only along with every eligible one that is not strong, and of equal ones the later steps and
   * later positions first; and a finding only if compacting those ahead of it, which are all compacted, would still
   * have left the total over the budget.
   */
  lemma Phase1Guarantees(tools: Tools, v: seq<Entry>, step: int, budget: int)
    ensures var w := Phase1(tools, v, step, budget);
            && (Total(w) <= budget || forall i: nat :: i < |w| ==> !Eligible(w, step, i))
            && (forall i :: 0 <= i < |v| && w[i] != v[i] ==> step - v[i].step >= 2)
            && (forall i: nat, j: nat ::
                  i < |v| && w[i] != v[i] && v[i].strong && Eligible(v, step, j) && !v[j].strong ==> w[j] != v[j])
            && (forall i: nat, j: nat ::
                  i < |v| && w[i] != v[i] && Eligible(v, step, j) && Later(v, i, j) ==> w[j] != v[j])
            && (forall i: nat :: i < |v| && w[i] != v[i] ==>
                  && Ahead(v, step, i) <= Chosen(v, step, budget)
                  && Total(v) - RawOf(v, Ahead(v, step, i), |v|) > budget)
  {
    var w := Phase1(tools, v, step, budget);
    Phase1Total(tools, v, step, budget);
    if i: nat :| i < |w| && Eligible(w, step, i) {
      assert Eligible(v, step, i) && !Needed(v, step, budget, i);
      var k := FirstSpared(v, step, budget, i);
      RawOfMonotone(v, Ahead(v, step, k), Chosen(v, step, budget), |v|);
    }
    forall i: nat | i < |v| && w[i] != v[i] ensures Ahead(v, step, i) <= Chosen(v, step, budget) {
      forall j | j in Ahead(v, step, i) ensures Needed(v, step, budget, j) {
        NeededUpwards(v, step, budget, i, j);
      }
    }
    forall i: nat, j: nat | i < |v| && w[i] != v[i] && Eligible(v, step, j) && Sooner(v, i, j)
      ensures w[j] != v[j]
    {
      NeededUpwards(v, step, budget, i, j);
    }
  }

  /** The whole compression leaves findings of the current step and later alone; a changed one loses its raw text. */
  lemma CurrentStepIsKept(tools: Tools, v: seq<Entry>, step: int, tokenBudget: int)
    ensures var w := Compressed(tools, v, step, tokenBudget);
            && |w| == |v|
            && forall i :: 0 <= i < |v| && w[i] != v[i] ==> v[i].step < step && v[i].raw != "" && w[i].raw == ""
  {
  }

  /** The first `limit` characters of `text`, or all of it, and the sources. */
  ghost predicate IsSnippet(compact: string, text: string, limit: nat, sources: string) {
    var n := if |text| > limit then limit else |text|;
    |compact| >= n && compact[..n] == text[..n] && compact[n..] == "\n来源：" + sources
  }

  /** What a finding at least two steps old becomes: the model's summary if it is strong and there is one. */
  ghost predicate IsCompacted(tools: Tools, before: Entry, after: Entry) {
    && after == before.(raw := "", compact := after.compact)
    && if before.strong && tools.summarize(before.raw).Some? then after.compact == tools.summarize(before.raw).value
       else IsSnippet(after.compact, tools.extract(before.raw), 200, before.sources)
  }

  /** What a finding of the step before becomes under a tight budget. */
  ghost predicate IsCutShort(tools: Tools, before: Entry, after: Entry) {
    && after == before.(raw := "", compact := after.compact)
    && IsSnippet(after.compact, tools.extract(before.raw), 100, before.sources)
  }

  lemma DigestIsSnippet(tools: Tools, e: Entry, limit: nat)
    ensures var r := Digest(tools, e, limit);
            r == e.(raw := "", compact := r.compact) && IsSnippet(r.compact, tools.extract(e.raw), limit, e.sources)
  {
  }

  lemma SqueezedIsCompacted(tools: Tools, e: Entry)
    ensures IsCompacted(tools, e, Squeezed(tools, e))
    ensures IsCutShort(tools, e, Digest(tools, e, AGGRESSIVE_SNIPPET_LENGTH))
  {
    hide Digest, IsSnippet;
    DigestIsSnippet(tools, e, COMPACT_SNIPPET_LENGTH);
    DigestIsSnippet(tools, e, AGGRESSIVE_SNIPPET_LENGTH);
  }

  /** No raw text of an earlier step is left uncompacted. */
  ghost predicate NothingOlderIsRaw(v: seq<Entry>, step: int) {
    forall i :: 0 <= i < |v| && v[i].step < step ==> v[i].raw == "" || v[i].compact != ""
  }

  /** A finding is left alone, or becomes what its age and strength call for; `tight` allows for the step before. */
  ghost predicate RightlyChanged(tools: Tools, before: Entry, after: Entry, step: int, tight: bool) {
    after != before ==>
      && Compressible(before)
      && (step - before.step >= 2 ==> IsCompacted(tools, before, after))
      && (step - before.step < 2 ==> step - before.step == 1 && tight && IsCutShort(tools, before, after))
  }

  /**
   * The whole compression: within the budget nothing happens; otherwise it ends within the budget or has compacted
   * every finding two steps old, and under a token budget that is still exceeded every finding of an earlier step.
   * A changed finding becomes what its age and strength call for, and one of the step before only changes if
   * compacting all older ones was not enough.
   */
  lemma CompressionGuarantees(tools: Tools, v: seq<Entry>, step: int, tokenBudget: int)
    ensures var w := Compressed(tools, v, step, tokenBudget);
            var budget := if tokenBudget != 0 then tokenBudget else 8000;
            var tight := tokenBudget > 0 && Total(Phase1(tools, v, step, budget)) > budget;
            && |w| == |v|
            && (Total(v) <= budget ==> w == v)
            && (Total(w) <= budget || forall i: nat :: i < |w| ==> !Eligible(w, step, i))
            && (tokenBudget > 0 && Total(w) > tokenBudget ==> NothingOlderIsRaw(w, step))
            && (forall i :: 0 <= i < |v| ==> RightlyChanged(tools, v[i], w[i], step, tight))
  {
    hide Total, Needed, Phase1, Phase2, RightlyChanged, NothingOlderIsRaw, Eligible;
    var budget := if tokenBudget != 0 then tokenBudget else RAW_CONTENT_THRESHOLD;
    Unchanged(tools, v, step, tokenBudget);
    if Total(v) > budget {
      var r := Phase1(tools, v, step, budget);
      Phase1Guarantees(tools, v, step, budget);
      FirstPhase(tools, v, step, budget);
      if tokenBudget > 0 && Total(r) > tokenBudget {
        SecondPhase(tools, v, step, budget);
      }
    }
  }

  lemma Unchanged(tools: Tools, v: seq<Entry>, step: int, tokenBudget: int)
    ensures forall i, tight :: 0 <= i < |v| ==> RightlyChanged(tools, v[i], v[i], step, tight)
  {
  }

  lemma FirstPhase(tools: Tools, v: seq<Entry>, step: int, budget: int)
    ensures forall i, tight :: 0 <= i < |v| ==>
              RightlyChanged(tools, v[i], Phase1(tools, v, step, budget)[i], step, tight)
  {
    hide Digest, Squeezed, IsCompacted, IsCutShort, Needed;
    NeededIsCompressible(v, step, budget);
    forall i | 0 <= i < |v| ensures IsCompacted(tools, v[i], Squeezed(tools, v[i])) {
      SqueezedIsCompacted(tools, v[i]);
    }
  }

  /** Phase 2 compacts every finding of an earlier step that is still raw, and nothing else. */
  lemma SecondPhase(tools: Tools, v: seq<Entry>, step: int, budget: int)
    requires forall i: nat :: i < |v| ==> !Eligible(Phase1(tools, v, step, budget), step, i)
    ensures var w := Phase2(tools, Phase1(tools, v, step, budget), step);
            && NothingOlderIsRaw(w, step)
            && (forall i: nat :: i < |v| ==> !Eligible(w, step, i))
            && (forall i :: 0 <= i < |v| ==> RightlyChanged(tools, v[i], w[i], step, true))
  {
    var r := Phase1(tools, v, step, budget);
    var w := Phase2(tools, r, step);
    FirstPhase(tools, v, step, budget);
    Phase1Empties(tools, v, step, budget);
    hide Phase1, IsCompacted, IsCutShort, Digest, RightlyChanged;
    forall i: nat | i < |v|
      ensures RightlyChanged(tools, v[i], w[i], step, true) && !Eligible(w, step, i)
      ensures v[i].step < step ==> w[i].raw == "" || w[i].compact != ""
    {
      assert !Eligible(r, step, i) && r[i].step == v[i].step;
      if w[i] != r[i] {
        LateCut(tools, v[i], step);
      }
    }
  }

  lemma LateCut(tools: Tools, e: Entry, step: int)
    requires step - e.step == 1 && Compressible(e)
    ensures RightlyChanged(tools, e, Digest(tools, e, AGGRESSIVE_SNIPPET_LENGTH), step, true)
  {
    SqueezedIsCompacted(tools, e);
  }

  lemma Phase1Empties(tools: Tools, v: seq<Entry>, step: int, budget: int)
    ensures forall i :: 0 <= i < |v| ==>
              var r := Phase1(tools, v, step, budget)[i]; r.step == v[i].step && (r == v[i] || r.raw == "")
  {
  }

  lemma NeededIsCompressible(v: seq<Entry>, step: int, budget: int)
    ensures forall i :: 0 <= i < |v| && Needed(v, step, budget, i) ==> Compressible(v[i]) && step - v[i].step >= 2
  {
  }

  lemma TotalIsSum(v: seq<Entry>, e: Entry)
    ensures Total([]) == 0 && Total(v + [e]) == Total(v) + |e.raw|
  {
    TotalOfFront(v, e, |v|);
  }

  lemma {:induction false} TotalOfFront(v: seq<Entry>, e: Entry, n: nat)
    requires n <= |v|
    ensures TotalOf(v + [e], n) == TotalOf(v, n)
  {
    if n > 0 {
      TotalOfFront(v, e, n - 1);
    }
  }
}
