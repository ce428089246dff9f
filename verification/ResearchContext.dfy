/** The research context whose findings are compacted in place. */
module ResearchContexts {
  import opened Options
  import opened Compression

  class FindingEntry {
    const step: int
    const sources: string
    const strong: bool
    var raw: string
    var compact: string

    constructor (step: int, raw: string, sources: string, strong: bool)
      ensures View() == Entry(step, raw, "", sources, strong)
    {
      this.step, this.sources, this.strong, this.raw, this.compact := step, sources, strong, raw, "";
    }

    function View(): Entry
      reads this
    {
      Entry(step, raw, compact, sources, strong)
    }

    /** `_compact_entry` */
    method CompactEntry(tools: Tools, limit: nat)
      modifies this
      ensures View() == Digest(tools, old(View()), limit)
    {
      var text := tools.extract(raw);
      var snippet := if |text| > limit then text[..limit] else text;
      compact := snippet + "\n来源：" + sources;
      raw := "";
    }

    /** One iteration of phase 1: `_llm_compact_entry`, or the digest when it raises. */
    method Squeeze(tools: Tools)
      modifies this
      ensures View() == Squeezed(tools, old(View()))
    {
      if strong {
        match tools.summarize(raw) {
          case Some(text) =>
            compact := text;
            raw := "";
          case None =>
            CompactEntry(tools, COMPACT_SNIPPET_LENGTH);
        }
      } else {
        CompactEntry(tools, COMPACT_SNIPPET_LENGTH);
      }
    }
  }

  ghost function ViewsOf(es: seq<FindingEntry>): (v: seq<Entry>)
    reads es
    ensures |v| == |es| && forall i :: 0 <= i < |es| ==> v[i] == es[i].View()
  {
    seq(|es|, i requires 0 <= i < |es| reads es => es[i].View())
  }

  class ResearchContext {
    var entries: seq<FindingEntry>

    /** The list does not hold a finding twice. */
    ghost predicate Valid()
      reads this
    {
      forall i, j :: 0 <= i < j < |entries| ==> entries[i] != entries[j]
    }

    ghost function Views(): seq<Entry>
      reads this, entries
    {
      ViewsOf(entries)
    }

    method TotalRaw() returns (total: nat)
      ensures total == Total(Views())
    {
      total := 0;
      for i := 0 to |entries|
        invariant total == TotalOf(Views(), i)
      {
        total := total + |entries[i].raw|;
      }
    }

    method Candidates(step: int) returns (candidates: seq<nat>)
      ensures forall i: nat :: i in candidates <==> Eligible(Views(), step, i)
      ensures forall a, b :: 0 <= a < b < |candidates| ==> candidates[a] < candidates[b]
      ensures forall a :: 0 <= a < |candidates| ==> candidates[a] < |entries|
    {
      candidates := [];
      for i := 0 to |entries|
        invariant forall j: nat :: j in candidates <==> j < i && Eligible(Views(), step, j)
        invariant forall a, b :: 0 <= a < b < |candidates| ==> candidates[a] < candidates[b]
        invariant forall a :: 0 <= a < |candidates| ==> candidates[a] < i
      {
        var e := entries[i];
        if step - e.step >= 2 && e.raw != "" && e.compact == "" {
          candidates := candidates + [i];
        }
      }
    }

    /** Sorts by (strong first, step); the sort is stable, so earlier positions stay in front of equal ones. */
    method SortCandidates(candidates: seq<nat>, ghost v: seq<Entry>) returns (order: seq<nat>)
      requires v == Views() && forall a :: 0 <= a < |candidates| ==> candidates[a] < |v|
      requires forall a, b :: 0 <= a < b < |candidates| ==> candidates[a] < candidates[b]
      ensures Ordered(v, order) && forall i :: i in order <==> i in candidates
    {
      order := [];
      for n := 0 to |candidates|
        invariant v == Views() && Ordered(v, order)
        invariant forall i :: i in order <==> i in candidates[..n]
      {
        var c := candidates[n];
        assert candidates[..n + 1] == candidates[..n] + [c];
        forall k | 0 <= k < |order| ensures order[k] < c {
          assert order[k] in candidates[..n];
        }
        var at := |order|;
        while at > 0 && SortsAfter(entries[order[at - 1]], entries[c])
          invariant 0 <= at <= |order|
          invariant forall k :: at <= k < |order| ==> Sooner(v, c, order[k])
        {
          at := at - 1;
        }
        InsertOrdered(v, order, at, c);
        order := order[..at] + [c] + order[at..];
      }
      assert candidates[..|candidates|] == candidates;
    }

    /** The sort key of `a` is larger than that of `b`. */
    static predicate SortsAfter(a: FindingEntry, b: FindingEntry) {
      if a.strong != b.strong then b.strong else a.step > b.step
    }

    /** The findings at positions in `done` are squeezed, the others are as in `v`. */
    ghost predicate SqueezedExactly(tools: Tools, v: seq<Entry>, done: set<nat>)
      reads this, entries
    {
      |v| == |entries| && forall i: nat :: i < |entries| ==>
        entries[i].View() == if i in done then Squeezed(tools, v[i]) else v[i]
    }

    method SqueezeAt(tools: Tools, i: nat, ghost v: seq<Entry>, ghost done: set<nat>) returns (oldLen: nat)
      requires Valid() && i < |entries| && i !in done && SqueezedExactly(tools, v, done)
      modifies entries[i]
      ensures SqueezedExactly(tools, v, done + {i}) && oldLen == |v[i].raw|
    {
      hide Squeezed;
      assert entries[i].View() == v[i];
      oldLen := |entries[i].raw|;
      entries[i].Squeeze(tools);
    }

    /** Pops the sorted candidates from the back, squeezing each, until the budget is met. */
    method PopWhileOver(tools: Tools, step: int, budget: int, total: nat, order: seq<nat>, ghost v: seq<Entry>)
      returns (rest: nat)
      requires Valid() && v == Views() && total == Total(v)
      requires Ordered(v, order) && forall i: nat :: i in order <==> Eligible(v, step, i)
      modifies entries
      ensures SqueezedExactly(tools, v, Chosen(v, step, budget))
      ensures rest == Total(v) - RawOf(v, Chosen(v, step, budget), |v|)
    {
      var candidates := order;
      ghost var popped: set<nat> := {};
      rest := total;
      StartPopping(v, order);
      while rest > budget && candidates != []
        invariant |candidates| <= |order| && candidates == order[..|candidates|]
        invariant popped == Tail(order, |candidates|)
        invariant rest == Total(v) - RawOf(v, popped, |v|)
        invariant SqueezedExactly(tools, v, popped)
        invariant AllNeeded(v, step, budget, popped)
        decreases |candidates|
      {
        hide *;
        var n := |candidates| - 1;
        var i := candidates[n];
        PopNext(v, step, order, n);
        NeededNow(v, step, budget, order, n);
        AllNeededAdd(v, step, budget, popped, i);
        RawOfAdd(v, popped, i, |v|);
        RawOfMember(v, popped, i, |v|);
        var oldLen := SqueezeAt(tools, i, v, popped);
        rest := rest - oldLen;
        candidates := candidates[..n];
        popped := popped + {i};
      }
      PoppedIsChosen(v, step, budget, order, |candidates|);
    }

    method Phase1InPlace(tools: Tools, step: int, budget: int, total: nat) returns (rest: nat)
      requires Valid() && total == Total(Views())
      modifies entries
      ensures Views() == Phase1(tools, old(Views()), step, budget)
      ensures rest == Total(Views())
    {
      hide Ordered, RawOf, TotalOf, Needed, Squeezed;
      ghost var v := Views();
      var candidates := Candidates(step);
      candidates := SortCandidates(candidates, v);
      rest := PopWhileOver(tools, step, budget, total, candidates, v);
      assert Views() == Phase1(tools, v, step, budget);
      Phase1Total(tools, v, step, budget);
    }

    method Phase2InPlace(tools: Tools, step: int)
      requires Valid()
      modifies entries
      ensures Views() == Phase2(tools, old(Views()), step)
    {
      ghost var v := Views();
      for n := 0 to |entries|
        invariant forall i :: 0 <= i < n ==> entries[i].View() == Phase2(tools, v, step)[i]
        invariant forall i :: n <= i < |entries| ==> entries[i].View() == v[i]
      {
        var e := entries[n];
        assert e.View() == v[n];
        if step - e.step >= 1 && e.raw != "" && e.compact == "" {
          e.CompactEntry(tools, AGGRESSIVE_SNIPPET_LENGTH);
        }
      }
      assert Views() == Phase2(tools, v, step);
    }

    /** `trigger_compression` */
    method TriggerCompression(tools: Tools, step: int, tokenBudget: int)
      requires Valid()
      modifies entries
      ensures Valid() && Views() == Compressed(tools, old(Views()), step, tokenBudget)
    {
      var budget := if tokenBudget != 0 then tokenBudget else RAW_CONTENT_THRESHOLD;
      var total := TotalRaw();
      if total <= budget {
        return;
      }
      total := Phase1InPlace(tools, step, budget, total);
      if tokenBudget > 0 && total > tokenBudget {
        Phase2InPlace(tools, step);
      }
    }
  }

  /** Later elements are compacted sooner. */
  ghost predicate Ordered(v: seq<Entry>, order: seq<nat>) {
    && (forall a :: 0 <= a < |order| ==> order[a] < |v|)
    && forall a, b :: 0 <= a < b < |order| ==> Sooner(v, order[a], order[b])
  }

  lemma InsertOrdered(v: seq<Entry>, order: seq<nat>, at: nat, c: nat)
    requires Ordered(v, order) && c < |v| && at <= |order|
    requires forall k :: at <= k < |order| ==> Sooner(v, c, order[k])
    requires at > 0 ==> Sooner(v, order[at - 1], c)
    ensures Ordered(v, order[..at] + [c] + order[at..])
  {
    forall k | 0 <= k < at ensures Sooner(v, order[k], c) {
      assert k < at - 1 ==> Sooner(v, order[k], order[at - 1]);
    }
  }

  ghost function Tail(order: seq<nat>, k: nat): set<nat>
    requires k <= |order|
  {
    set l | k <= l < |order| :: order[l]
  }

  /** What was popped before `order[n]` is what is ahead of it. */
  lemma PopNext(v: seq<Entry>, step: int, order: seq<nat>, n: nat)
    requires n < |order| && Ordered(v, order) && forall i: nat :: i in order <==> Eligible(v, step, i)
    ensures Tail(order, n) == Tail(order, n + 1) + {order[n]} && order[n] !in Tail(order, n + 1)
    ensures order[n] < |v| && Ahead(v, step, order[n]) == Tail(order, n + 1)
  {
    var i := order[n];
    assert i in order;
    forall j | j in Ahead(v, step, i) ensures j in Tail(order, n + 1) {
      assert j in order;
      var l :| 0 <= l < |order| && order[l] == j;
      assert l < n ==> Sooner(v, order[l], order[n]);
    }
    forall j | j in Tail(order, n + 1) ensures j in Ahead(v, step, i) {
      var l :| n + 1 <= l < |order| && order[l] == j;
      assert j in order && Sooner(v, order[n], order[l]);
    }
  }

  lemma StartPopping(v: seq<Entry>, order: seq<nat>)
    ensures Tail(order, |order|) == {} && RawOf(v, {}, |v|) == 0 && order[..|order|] == order
  {
    RawOfNone(v, |v|);
  }

  lemma NeededNow(v: seq<Entry>, step: int, budget: int, order: seq<nat>, n: nat)
    requires n < |order| && Ordered(v, order) && forall i: nat :: i in order <==> Eligible(v, step, i)
    requires Total(v) - RawOf(v, Tail(order, n + 1), |v|) > budget
    ensures order[n] < |v| && Needed(v, step, budget, order[n])
  {
    assert order[n] in order;
    PopNext(v, step, order, n);
  }

  lemma {:induction false} RawOfMember(v: seq<Entry>, s: set<nat>, i: nat, n: nat)
    requires n <= |v| && i < n && i !in s
    ensures RawOf(v, s, n) + |v[i].raw| <= TotalOf(v, n)
  {
    RawOfBound(v, s, n - 1);
    if i < n - 1 {
      RawOfMember(v, s, i, n - 1);
    }
  }

  lemma {:induction false} RawOfBound(v: seq<Entry>, s: set<nat>, n: nat)
    requires n <= |v|
    ensures RawOf(v, s, n) <= TotalOf(v, n)
  {
    if n > 0 {
      RawOfBound(v, s, n - 1);
    }
  }

  ghost predicate AllNeeded(v: seq<Entry>, step: int, budget: int, s: set<nat>) {
    forall i :: i in s ==> i < |v| && Needed(v, step, budget, i)
  }

  lemma AllNeededAdd(v: seq<Entry>, step: int, budget: int, s: set<nat>, i: nat)
    requires AllNeeded(v, step, budget, s) && i < |v| && Needed(v, step, budget, i)
    ensures AllNeeded(v, step, budget, s + {i})
  {
  }

  lemma PoppedIsChosen(v: seq<Entry>, step: int, budget: int, order: seq<nat>, k: nat)
    requires k <= |order| && Ordered(v, order) && forall i: nat :: i in order <==> Eligible(v, step, i)
    requires k == 0 || Total(v) - RawOf(v, Tail(order, k), |v|) <= budget
    requires AllNeeded(v, step, budget, Tail(order, k))
    ensures Tail(order, k) == Chosen(v, step, budget)
  {
    hide Tail, Needed, Eligible, Ordered, RawOf;
    NothingElseNeeded(v, step, budget, order, k);
  }

  /** When the loop ends, nothing that is left in the list was needed. */
  lemma NothingElseNeeded(v: seq<Entry>, step: int, budget: int, order: seq<nat>, k: nat)
    requires k <= |order| && Ordered(v, order) && forall i: nat :: i in order <==> Eligible(v, step, i)
    requires k == 0 || Total(v) - RawOf(v, Tail(order, k), |v|) <= budget
    ensures forall i: nat :: i < |v| && i !in Tail(order, k) ==> !Needed(v, step, budget, i)
  {
    forall i: nat | i < |v| && i !in Tail(order, k) && Eligible(v, step, i) ensures !Needed(v, step, budget, i) {
      assert i in order;
      var l :| 0 <= l < |order| && order[l] == i;
      assert l < k;
      PopNext(v, step, order, l);
      assert Tail(order, k) <= Tail(order, l + 1);
      RawOfMonotone(v, Tail(order, k), Ahead(v, step, i), |v|);
    }
  }
}
