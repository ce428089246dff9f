/** The rolling summary of a conversation's older rounds, under interleaved builds. */
module ConversationSummaries {
  import opened Options
  import opened Text

  const RECENT_ROUNDS := 3
  const SUMMARY_MAX_CHARS := 4500

  /** Text cut to `n` characters, the last of which is then an ellipsis. */
  function Cut(text: string, n: nat): (r: string)
    requires n > 0
    ensures |r| <= n && (|text| <= n <==> r == text)
    ensures |text| > n ==> |r| == n && r[..n - 1] == text[..n - 1] && r[n - 1] == '…'
  {
    if |text| <= n then text else text[..n - 1] + "…"
  }

  /** What `_generate_summary` makes of the model's answer. */
  function Generated(answer: string): (r: string)
    ensures |r| <= SUMMARY_MAX_CHARS && (r == "" <==> Strip(answer) == "")
    ensures |Strip(answer)| <= SUMMARY_MAX_CHARS ==> r == Strip(answer)
    ensures |Strip(answer)| > SUMMARY_MAX_CHARS ==>
              |r| == SUMMARY_MAX_CHARS && r[..SUMMARY_MAX_CHARS - 1] == Strip(answer)[..SUMMARY_MAX_CHARS - 1]
  {
    Cut(Strip(answer), SUMMARY_MAX_CHARS)
  }

  /** Rounds `from` up to but excluding `to`, counted from the first one of the conversation. */
  datatype Batch = Batch(from: nat, to: nat)

  /** The stored summary with its watermark; `batches` records which rounds went into its text. */
  datatype Stored = Stored(summary: string, throughSeq: nat, batches: seq<Batch>) {
    /** An empty summary carries nothing over into the next one. */
    function Carried(): seq<Batch> {
      if summary == "" then [] else batches
    }
  }

  /** What is generated from for `older` rounds, or nothing when the stored summary is returned as it is. */
  function ToSummarize(stored: Stored, older: nat): Option<Batch> {
    var summarized := stored.throughSeq / 3;
    var newCount := if older > summarized then older - summarized else 0;
    if older == 0 || (newCount < 3 && stored.summary != "") then None
    else Some(if newCount > 0 then Batch(older - newCount, older) else Batch(0, older))
  }

  /**
   * The stored summary is returned as it is exactly if there is nothing older, or if it is not empty and fewer than
   * three older rounds are new; otherwise the new rounds are summarized, or all of them if none is new.
   */
  lemma ReturnedAsIsExactly(stored: Stored, older: nat)
    requires stored.throughSeq % 3 == 0
    ensures ToSummarize(stored, older).None? <==>
            older == 0 || (stored.summary != "" && 3 * older < stored.throughSeq + 9)
    ensures forall batch :: ToSummarize(stored, older) == Some(batch) ==>
              && batch.to == older
              && (3 * batch.from == if stored.throughSeq < 3 * older then stored.throughSeq else 0)
  {
  }

  function Updated(stored: Stored, older: nat, batch: Batch, answer: string): Stored {
    Stored(Generated(answer), older * 3, stored.Carried() + [batch])
  }

  /** Consecutive, non-empty batches from the first round up to round `n`. */
  predicate Partition(batches: seq<Batch>, n: nat) {
    if batches == [] then n == 0
    else
      var last := batches[|batches| - 1];
      last.from < last.to == n && Partition(batches[..|batches| - 1], last.from)
  }

  lemma {:induction false} InExactlyOneBatch(batches: seq<Batch>, n: nat, k: nat)
    requires Partition(batches, n)
    ensures k < n <==> exists i :: 0 <= i < |batches| && batches[i].from <= k < batches[i].to
    ensures forall i, j :: 0 <= i < j < |batches| ==> batches[i].to <= batches[j].from
    ensures forall i :: 0 <= i < |batches| ==> batches[i].to <= n
  {
    if batches != [] {
      var last := batches[|batches| - 1];
      InExactlyOneBatch(batches[..|batches| - 1], last.from, k);
      if last.from <= k < last.to {
        assert batches[|batches| - 1].from <= k;
      } else if k < last.from {
        var i :| 0 <= i < |batches| - 1 && batches[..|batches| - 1][i].from <= k < batches[..|batches| - 1][i].to;
        assert batches[i].from <= k;
      }
    }
  }

  ghost predicate Sound(s: Stored) {
    && s.throughSeq % 3 == 0 && |s.summary| <= SUMMARY_MAX_CHARS
    && (s.summary != "" ==> s.throughSeq > 0 && Partition(s.batches, s.throughSeq / 3))
  }

  /**
   * A new summary stands for exactly the older rounds unless it starts from an empty text with a watermark between
   * the first and the last of them: then the rounds before the watermark are in no batch.
   */
  lemma WhenUpdateIsComplete(stored: Stored, older: nat, answer: string)
    requires Sound(stored) && ToSummarize(stored, older).Some?
    ensures var next := Updated(stored, older, ToSummarize(stored, older).value, answer);
            Partition(next.batches, next.throughSeq / 3) <==>
            !(stored.summary == "" && 0 < stored.throughSeq / 3 < older)
  {
    var batch := ToSummarize(stored, older).value;
    var next := Updated(stored, older, batch, answer);
    assert next.batches[..|stored.Carried()|] == stored.Carried();
  }

  // ---------------------------------------------------------------------------------
  // The builder

  class SummaryStore {
    var summary: string
    var throughSeq: nat
    ghost var batches: seq<Batch>

    constructor ()
      ensures Now() == Stored("", 0, [])
    {
      summary, throughSeq, batches := "", 0, [];
    }

    ghost function Now(): Stored
      reads this
    {
      Stored(summary, throughSeq, batches)
    }

    /** `update_summary` and its commit, which may fail. */
    method Save(text: string, through: nat, ghost lineage: seq<Batch>, commits: bool)
      modifies this
      ensures Now() == if commits then Stored(text, through, lineage) else old(Now())
    {
      if commits {
        summary, throughSeq, batches := text, through, lineage;
      }
    }
  }

  /** `_get_or_update_summary` with no other build in between; `answer` is the model's, `None` when it raises. */
  method GetOrUpdateSummary(store: SummaryStore, older: nat, answer: Option<string>, commits: bool)
    returns (summary: string)
    modifies store
    ensures var was := old(store.Now());
            match ToSummarize(was, older)
            case None => summary == was.summary && store.Now() == was
            case Some(batch) =>
              if answer.None? then summary == was.summary && store.Now() == was
              else
                && summary == Generated(answer.value)
                && store.Now() == if commits then Updated(was, older, batch, answer.value) else was
  {
    var existing, through := store.summary, store.throughSeq;
    ghost var was := store.Now();
    if older == 0 {
      return existing;
    }
    var summarized := if through > 0 then through / 3 else 0;
    var newCount := if older - summarized > 0 then older - summarized else 0;
    if newCount < 3 && existing != "" {
      return existing;
    }
    if answer.None? {
      return existing;
    }
    summary := Generated(answer.value);
    store.Save(summary, older * 3, Updated(was, older, ToSummarize(was, older).value, answer.value).batches, commits);
  }

  // ---------------------------------------------------------------------------------
  // Interleaved builds

  /** A build has counted its older rounds, and possibly read the stored summary. */
  datatype Build = Build(older: nat, read: Option<Stored>)

  datatype Conversation = Conversation(rounds: nat, stored: Stored, builds: map<nat, Build>)

  datatype Step =
    | Complete
    | Begin(id: nat)
    | Read(id: nat)
    | Finish(id: nat, answer: Option<string>, commits: bool)

  const NEW_CONVERSATION := Conversation(0, Stored("", 0, []), map[])

  /** Summaries are used from the sixth completed round on. */
  predicate Enabled(c: Conversation, step: Step) {
    match step
    case Complete => true
    case Begin(id) => id !in c.builds && c.rounds > 5
    case Read(id) => id in c.builds && c.builds[id].read.None?
    case Finish(id, _, _) => id in c.builds && c.builds[id].read.Some?
  }

  function Next(c: Conversation, step: Step): Conversation
    requires Enabled(c, step)
  {
    match step
    case Complete => c.(rounds := c.rounds + 1)
    case Begin(id) => c.(builds := c.builds[id := Build(c.rounds - RECENT_ROUNDS, None)])
    case Read(id) => c.(builds := c.builds[id := c.builds[id].(read := Some(c.stored))])
    case Finish(id, answer, commits) =>
      var b := c.builds[id];
      var stored := b.read.value;
      var batch := ToSummarize(stored, b.older);
      c.(builds := c.builds - {id},
         stored := if batch.Some? && answer.Some? && commits then Updated(stored, b.older, batch.value, answer.value)
                   else c.stored)
  }

  /** The summary a finishing build returns, with what went into it. */
  function Result(c: Conversation, step: Step): Stored
    requires Enabled(c, step) && step.Finish?
  {
    var b := c.builds[step.id];
    var batch := ToSummarize(b.read.value, b.older);
    if batch.Some? && step.answer.Some? then Updated(b.read.value, b.older, batch.value, step.answer.value)
    else b.read.value
  }

  /** No generated summary is blank. */
  predicate Speaks(step: Step) {
    step.Finish? && step.answer.Some? ==> Strip(step.answer.value) != ""
  }

  ghost predicate Whole(s: Stored) {
    Sound(s) && (s.summary == "" ==> s.throughSeq == 0)
  }

  ghost predicate Inv(c: Conversation) {
    && Whole(c.stored) && c.stored.throughSeq / 3 <= c.rounds
    && forall id :: id in c.builds ==>
         && 3 <= c.builds[id].older <= c.rounds - RECENT_ROUNDS
         && (c.builds[id].read.Some? ==> Whole(c.builds[id].read.value))
  }

  lemma UpdateIsWhole(stored: Stored, older: nat, answer: string)
    requires Whole(stored) && ToSummarize(stored, older).Some? && Strip(answer) != ""
    ensures Whole(Updated(stored, older, ToSummarize(stored, older).value, answer))
  {
    WhenUpdateIsComplete(stored, older, answer);
  }

  lemma NextInv(c: Conversation, step: Step)
    requires Inv(c) && Enabled(c, step) && Speaks(step)
    ensures Inv(Next(c, step))
  {
    if step.Finish? {
      var b := c.builds[step.id];
      if ToSummarize(b.read.value, b.older).Some? && step.answer.Some? {
        UpdateIsWhole(b.read.value, b.older, step.answer.value);
      }
    }
  }

  ghost predicate Runs(steps: seq<Step>)
    decreases |steps|, 0
  {
    steps != [] ==> Runs(steps[..|steps| - 1]) && Enabled(Run(steps[..|steps| - 1]), steps[|steps| - 1])
  }

  ghost function Run(steps: seq<Step>): Conversation
    requires Runs(steps)
    decreases |steps|, 1
  {
    if steps == [] then NEW_CONVERSATION else Next(Run(steps[..|steps| - 1]), steps[|steps| - 1])
  }

  /**
   * However builds overlap, fail to generate or fail to save, as long as no generated summary is blank the stored
   * one is made of consecutive batches, without gap or overlap, of exactly the rounds below its watermark.
   */
  lemma {:induction false} BatchesPartition(steps: seq<Step>)
    requires Runs(steps) && forall s :: s in steps ==> Speaks(s)
    ensures Inv(Run(steps)) && Partition(Run(steps).stored.Carried(), Run(steps).stored.throughSeq / 3)
  {
    if steps != [] {
      var before := steps[..|steps| - 1];
      assert forall s :: s in before ==> s in steps;
      BatchesPartition(before);
      assert steps[|steps| - 1] in steps;
      NextInv(Run(before), steps[|steps| - 1]);
    }
  }

  /**
   * Unless its generation fails, a build returns a summary of all but at most two of its older rounds; and a
   * summary it saves has a watermark above the one it read.
   */
  lemma AtMostTwoLag(steps: seq<Step>, step: Step)
    requires Runs(steps) && (forall s :: s in steps ==> Speaks(s))
    requires Enabled(Run(steps), step) && Speaks(step) && step.Finish? && step.answer.Some?
    ensures var b, r := Run(steps).builds[step.id], Result(Run(steps), step);
            && Partition(r.batches, r.throughSeq / 3)
            && b.older - r.throughSeq / 3 < 3
            && (r != b.read.value ==> r.throughSeq > b.read.value.throughSeq)
  {
    BatchesPartition(steps);
    var b := Run(steps).builds[step.id];
    if ToSummarize(b.read.value, b.older).Some? {
      UpdateIsWhole(b.read.value, b.older, step.answer.value);
    }
  }

  lemma Empty()
    ensures Runs([]) && Run([]) == NEW_CONVERSATION
  {
  }

  lemma Extend(steps: seq<Step>, step: Step) returns (longer: seq<Step>)
    requires Runs(steps) && Enabled(Run(steps), step)
    ensures Runs(longer) && Run(longer) == Next(Run(steps), step)
  {
    longer := steps + [step];
    assert longer[..|steps|] == steps;
  }

  lemma {:induction false} MoreRounds(steps: seq<Step>, n: nat) returns (longer: seq<Step>)
    requires Runs(steps)
    ensures Runs(longer) && Run(longer) == Run(steps).(rounds := Run(steps).rounds + n)
    decreases n
  {
    longer := steps;
    if n > 0 {
      longer := Extend(steps, Complete);
      longer := MoreRounds(longer, n - 1);
    }
  }

  /** A build that nothing overlaps. */
  lemma OneBuild(steps: seq<Step>, answer: string) returns (longer: seq<Step>)
    requires Runs(steps) && Run(steps).rounds > 5 && Run(steps).builds == map[]
    ensures Runs(longer)
    ensures var c := Run(steps);
            var older := c.rounds - RECENT_ROUNDS;
            var batch := ToSummarize(c.stored, older);
            Run(longer) == c.(stored := if batch.Some? then Updated(c.stored, older, batch.value, answer) else c.stored)
  {
    hide Updated, ToSummarize;
    longer := Extend(steps, Begin(0));
    longer := Extend(longer, Read(0));
    longer := Extend(longer, Finish(0, Some(answer), true));
  }

  /** With a blank answer rounds are lost: a build at six rounds gets one, and the next, at nine, takes only three. */
  lemma BlankSummaryLosesRounds()
    ensures exists steps :: Runs(steps) && Run(steps).stored == Stored("x", 18, [Batch(3, 6)])
  {
    assert Generated("") == "" && Strip("x") == "x";
    hide Runs, Run, Generated;
    var steps: seq<Step> := [];
    Empty();
    steps := MoreRounds(steps, 6);
    steps := OneBuild(steps, "");
    steps := MoreRounds(steps, 3);
    steps := OneBuild(steps, "x");
  }
}
