/** Re-asking recorded questions hands out the recorded answers. */
module ReplayRoundTrip {
  import opened Options
  import opened Text
  import opened Wordings
  import opened Replay

  /** What a restarted graph gets for each of its questions, and the queue that remains. */
  function AskAll(queue: seq<Reply>, asks: seq<string>): (r: (seq<Reply>, seq<Option<string>>))
    ensures |r.1| == |asks|
  {
    if |asks| == 0 then (queue, [])
    else
      var n := |asks| - 1;
      var before := AskAll(queue, asks[..n]);
      var now := Popped(before.0, asks[n]);
      (now.0, before.1 + [now.1])
  }

  /** The answers to the questions that say `said`, in order. */
  function AnswersFor(queue: seq<Reply>, said: seq<Mark>): seq<string> {
    if queue == [] then []
    else (if queue[0].Keyed? && Wording(queue[0].question) == said then [queue[0].answer] else []) +
         AnswersFor(queue[1..], said)
  }

  function TimesAsked(asks: seq<string>, said: seq<Mark>): nat {
    if |asks| == 0 then 0
    else TimesAsked(asks[..|asks| - 1], said) + if Wording(asks[|asks| - 1]) == said then 1 else 0
  }

  ghost predicate AllKeyed(queue: seq<Reply>) {
    forall r :: r in queue ==> r.Keyed?
  }

  lemma {:induction false} AnswersForConcat(a: seq<Reply>, b: seq<Reply>, said: seq<Mark>)
    ensures AnswersFor(a + b, said) == AnswersFor(a, said) + AnswersFor(b, said)
  {
    if a == [] {
      assert a + b == b;
    } else {
      assert (a + b)[1..] == a[1..] + b;
      AnswersForConcat(a[1..], b, said);
    }
  }

  lemma {:induction false} NoAnswersFor(queue: seq<Reply>, said: seq<Mark>)
    requires forall r :: r in queue ==> !(r.Keyed? && Wording(r.question) == said)
    ensures AnswersFor(queue, said) == []
  {
    if queue != [] {
      NoAnswersFor(queue[1..], said);
    }
  }

  lemma AnswersForHead(r: Reply, rest: seq<Reply>, said: seq<Mark>)
    requires r.Keyed?
    ensures AnswersFor([r] + rest, said) ==
            (if Wording(r.question) == said then [r.answer] else []) + AnswersFor(rest, said)
  {
    assert ([r] + rest)[1..] == rest;
  }

  lemma SplitAt(queue: seq<Reply>, i: nat, said: seq<Mark>)
    requires i < |queue| && queue[i].Keyed?
    ensures var mine := if Wording(queue[i].question) == said then [queue[i].answer] else [];
            && AnswersFor(queue, said) == AnswersFor(queue[..i], said) + (mine + AnswersFor(queue[i + 1..], said))
            && AnswersFor(queue[..i] + queue[i + 1..], said) ==
               AnswersFor(queue[..i], said) + AnswersFor(queue[i + 1..], said)
  {
    hide Wording, AnswersFor;
    assert queue == queue[..i] + ([queue[i]] + queue[i + 1..]);
    AnswersForHead(queue[i], queue[i + 1..], said);
    AnswersForConcat(queue[..i], [queue[i]] + queue[i + 1..], said);
    AnswersForConcat(queue[..i], queue[i + 1..], said);
  }

  /** A pop takes the oldest answer to its question and leaves the answers to all other questions alone. */
  lemma PopTakesOldest(queue: seq<Reply>, question: string, said: seq<Mark>)
    requires AllKeyed(queue)
    ensures var (rest, reply) := Popped(queue, question);
            var mine := AnswersFor(queue, Wording(question));
            && AllKeyed(rest)
            && reply == (if Wording(question) != [] && mine != [] then Some(mine[0]) else None)
            && AnswersFor(rest, said) ==
               (if said == Wording(question) && said != [] && mine != [] then mine[1..] else AnswersFor(queue, said))
  {
    hide Wording, AnswersFor;
    var asked := Wording(question);
    NoAnswersFor([], asked);
    if queue != [] {
      assert queue[0] in queue;
      var i := FirstMatch(queue, asked);
      if i < |queue| {
        assert queue[i] in queue;
        PopAt(queue, i, asked, said);
      } else if asked != [] {
        NoAnswersFor(queue, asked);
      }
    }
  }

  lemma PopAt(queue: seq<Reply>, i: nat, asked: seq<Mark>, said: seq<Mark>)
    requires AllKeyed(queue) && i < |queue| && FirstMatch(queue, asked) == i && queue[i].Keyed?
    ensures AnswersFor(queue, asked) != [] && AnswersFor(queue, asked)[0] == queue[i].answer
    ensures AnswersFor(queue[..i] + queue[i + 1..], said) ==
            if said == asked then AnswersFor(queue, asked)[1..] else AnswersFor(queue, said)
    ensures AllKeyed(queue[..i] + queue[i + 1..])
  {
    hide Wording, AnswersFor;
    NoAnswersFor(queue[..i], asked);
    SplitAt(queue, i, asked);
    SplitAt(queue, i, said);
    assert [] + AnswersFor(queue[i + 1..], said) == AnswersFor(queue[i + 1..], said);
  }

  /**
   * Whatever is asked, in whatever order: the n-th time a non-blank question is asked it gets the n-th recorded
   * answer to it, and nothing once those are used up; the other answers stay queued.
   */
  lemma EachAskGetsItsAnswer(queue: seq<Reply>, asks: seq<string>)
    requires AllKeyed(queue)
    ensures AllKeyed(AskAll(queue, asks).0)
    ensures forall i :: 0 <= i < |asks| ==>
              AskAll(queue, asks).1[i] == Expected(queue, Wording(asks[i]), TimesAsked(asks[..i], Wording(asks[i])))
    ensures forall said :: AnswersFor(AskAll(queue, asks).0, said) ==
                          Remaining(AnswersFor(queue, said), said, TimesAsked(asks, said))
  {
    hide *;
    forall said ensures AnswersFor(AskAll(queue, asks).0, said) ==
                       Remaining(AnswersFor(queue, said), said, TimesAsked(asks, said))
    {
      QueueAfter(queue, asks, said);
    }
    forall i | 0 <= i < |asks|
      ensures AskAll(queue, asks).1[i] == Expected(queue, Wording(asks[i]), TimesAsked(asks[..i], Wording(asks[i])))
    {
      ReplyTo(queue, asks, i);
    }
    QueueAfter(queue, asks, []);
  }

  /** An answer is only ever handed out for the question it was recorded for, however that was spaced. */
  lemma AnswersMatchQuestions(queue: seq<Reply>, asks: seq<string>, i: nat)
    requires AllKeyed(queue) && i < |asks| && AskAll(queue, asks).1[i].Some?
    ensures exists r :: r in queue && SameQuestion(r.question, asks[i]) && AskAll(queue, asks).1[i] == Some(r.answer)
  {
    hide Wording, AnswersFor, AskAll, TimesAsked;
    ReplyTo(queue, asks, i);
    var n := TimesAsked(asks[..i], Wording(asks[i]));
    var r := RecordedIn(queue, Wording(asks[i]), n);
  }

  lemma {:induction false} RecordedIn(queue: seq<Reply>, said: seq<Mark>, n: nat) returns (r: Reply)
    requires AllKeyed(queue) && n < |AnswersFor(queue, said)|
    ensures r in queue && Wording(r.question) == said && r.answer == AnswersFor(queue, said)[n]
  {
    hide Wording;
    assert queue[0] in queue;
    var here := if Wording(queue[0].question) == said then 1 else 0;
    if n < here {
      r := queue[0];
    } else {
      r := RecordedIn(queue[1..], said, n - here);
    }
  }

  lemma {:induction false} QueueAfter(queue: seq<Reply>, asks: seq<string>, said: seq<Mark>)
    requires AllKeyed(queue)
    ensures AllKeyed(AskAll(queue, asks).0)
    ensures AnswersFor(AskAll(queue, asks).0, said) == Remaining(AnswersFor(queue, said), said, TimesAsked(asks, said))
  {
    hide Wording, AnswersFor, Popped;
    if |asks| > 0 {
      var n := |asks| - 1;
      QueueAfter(queue, asks[..n], said);
      PopTakesOldest(AskAll(queue, asks[..n]).0, asks[n], said);
    }
  }

  lemma {:induction false} ReplyTo(queue: seq<Reply>, asks: seq<string>, i: nat)
    requires AllKeyed(queue) && i < |asks|
    ensures AskAll(queue, asks).1[i] == Expected(queue, Wording(asks[i]), TimesAsked(asks[..i], Wording(asks[i])))
  {
    hide Wording, AnswersFor, Popped;
    var n := |asks| - 1;
    if i < n {
      assert asks[..i] == asks[..n][..i];
      ReplyTo(queue, asks[..n], i);
    } else {
      QueueAfter(queue, asks[..n], Wording(asks[n]));
      PopTakesOldest(AskAll(queue, asks[..n]).0, asks[n], Wording(asks[n]));
    }
  }

  function Expected(queue: seq<Reply>, said: seq<Mark>, earlier: nat): Option<string> {
    var recorded := AnswersFor(queue, said);
    if said != [] && earlier < |recorded| then Some(recorded[earlier]) else None
  }

  function Remaining(recorded: seq<string>, said: seq<Mark>, asked: nat): seq<string> {
    if said == [] then recorded else if asked <= |recorded| then recorded[asked..] else []
  }

  /** The queue is used up exactly when it holds no blank question and each question was asked often enough. */
  lemma UsedUpExactly(queue: seq<Reply>, asks: seq<string>)
    requires AllKeyed(queue)
    ensures AskAll(queue, asks).0 == [] <==>
            && AnswersFor(queue, []) == []
            && forall said :: said != [] ==> |AnswersFor(queue, said)| <= TimesAsked(asks, said)
  {
    hide Wording, AnswersFor, AskAll, TimesAsked;
    EachAskGetsItsAnswer(queue, asks);
    var rest := AskAll(queue, asks).0;
    EmptyWhenNoAnswers(rest);
    if rest == [] {
      assert AnswersFor(rest, []) == [];
      forall said | said != [] ensures |AnswersFor(queue, said)| <= TimesAsked(asks, said) {
        assert AnswersFor(rest, said) == [];
      }
    } else {
      var said :| AnswersFor(rest, said) != [];
      assert AnswersFor(rest, said) == Remaining(AnswersFor(queue, said), said, TimesAsked(asks, said));
    }
  }

  lemma EmptyWhenNoAnswers(queue: seq<Reply>)
    requires AllKeyed(queue)
    ensures queue == [] <==> forall said :: AnswersFor(queue, said) == []
  {
    if queue != [] {
      assert queue[0] in queue;
      assert AnswersFor(queue, Wording(queue[0].question)) != [];
    }
  }

  // ---------------------------------------------------------------------------------
  // From the log to the queue

  /** Recorded exchanges as a log: each question followed by its answer, with anything else in between. */
  ghost predicate Records(events: seq<Event>, xs: seq<Exchange>) {
    if |events| == 0 then xs == []
    else
      var n := |events| - 1;
      var e := events[n];
      match e
      case Other => Records(events[..n], xs)
      case Question(q, g) => |xs| > 0 && xs[|xs| - 1] == Exchange(q, "", g) && Records(events[..n], xs[..|xs| - 1])
      case Answer(a) =>
        |xs| > 0 && xs[|xs| - 1].answer == a && Records(events[..n], xs[..|xs| - 1] + [xs[|xs| - 1].(answer := "")])
  }

  function Stripped3(x: Exchange): Exchange {
    Exchange(Strip(x.question), Strip(x.answer), Strip(x.nestedGraph))
  }

  function StrippedAll(xs: seq<Exchange>): (r: seq<Exchange>)
    ensures |r| == |xs| && forall i :: 0 <= i < |xs| ==> r[i] == Stripped3(xs[i])
  {
    seq(|xs|, i requires 0 <= i < |xs| => Stripped3(xs[i]))
  }

  lemma StrippedAppend(xs: seq<Exchange>, x: Exchange)
    ensures StrippedAll(xs + [x]) == StrippedAll(xs) + [Stripped3(x)]
  {
    hide Stripped3;
  }

  /** Folding the log of some exchanges yields them, stripped. */
  lemma {:induction false} FoldRecovers(events: seq<Event>, xs: seq<Exchange>)
    requires Records(events, xs)
    ensures Fold(events) == StrippedAll(xs)
  {
    hide Strip, StrippedAll;
    StripNothing();
    if |events| == 0 {
      assert StrippedAll(xs) == [];
    } else {
      var n, m := |events| - 1, |xs| - 1;
      match events[n]
      case Other => FoldRecovers(events[..n], xs);
      case Question(q, g) =>
        FoldRecovers(events[..n], xs[..m]);
        assert xs == xs[..m] + [xs[m]];
        StrippedAppend(xs[..m], xs[m]);
      case Answer(a) =>
        FoldRecovers(events[..n], xs[..m] + [xs[m].(answer := "")]);
        AnswerFills(xs[..m], xs[m], a);
        assert xs == xs[..m] + [xs[m]];
    }
  }

  lemma AnswerFills(front: seq<Exchange>, last: Exchange, a: string)
    requires last.answer == a
    ensures FoldStep(StrippedAll(front + [last.(answer := "")]), Answer(a)) == StrippedAll(front + [last])
  {
    hide Strip, StrippedAll;
    StripNothing();
    StrippedAppend(front, last.(answer := ""));
    StrippedAppend(front, last);
  }

  lemma StripNothing()
    ensures Strip("") == ""
  {
  }

  /** The replies of a history whose entries are stripped pass through preloading unchanged. */
  lemma {:induction false} PreloadKeeps(history: seq<Exchange>)
    requires forall x :: x in history ==> Stripped(x.question) && Stripped(x.answer)
    ensures Preload(ReplayReplies(history)) == ReplayReplies(history) && AllKeyed(ReplayReplies(history))
  {
    if |history| > 0 {
      var n := |history| - 1;
      var x := history[n];
      assert x in history;
      PreloadKeeps(history[..n]);
      StripFacts(x.question);
      StripFacts(x.answer);
      if Strip(x.nestedGraph) != "" && Strip(x.answer) != "" {
        var r := Keyed(x.question, x.answer);
        assert ReplayReplies(history) == ReplayReplies(history[..n]) + [r];
        assert (ReplayReplies(history[..n]) + [r])[..|ReplayReplies(history[..n])|] == ReplayReplies(history[..n]);
      } else {
        assert ReplayReplies(history) == ReplayReplies(history[..n]);
      }
    }
  }

  /** The answers recorded for one question of nested graphs, in order. */
  function RecordedFor(xs: seq<Exchange>, said: seq<Mark>): seq<string> {
    if |xs| == 0 then []
    else
      var x := xs[|xs| - 1];
      RecordedFor(xs[..|xs| - 1], said) +
      if Strip(x.nestedGraph) != "" && Strip(x.answer) != "" && Wording(x.question) == said then [Strip(x.answer)]
      else []
  }

  lemma {:induction false} QueueHoldsRecorded(xs: seq<Exchange>, said: seq<Mark>)
    ensures AnswersFor(ReplayReplies(StrippedAll(xs)), said) == RecordedFor(xs, said)
  {
    hide Strip, Wording, StrippedAll;
    if |xs| > 0 {
      var n := |xs| - 1;
      var x := xs[n];
      QueueHoldsRecorded(xs[..n], said);
      assert StrippedAll(xs)[..n] == StrippedAll(xs[..n]);
      StripTwice(x.nestedGraph);
      StripTwice(x.answer);
      WordingOfStripped(x.question);
      var last := if Strip(x.nestedGraph) != "" && Strip(x.answer) != ""
                  then [Keyed(Strip(x.question), Strip(x.answer))] else [];
      AnswersForConcat(ReplayReplies(StrippedAll(xs[..n])), last, said);
    }
  }

  /** Whatever the log, the entries of the fold hold stripped text. */
  lemma {:induction false} FoldIsStripped(events: seq<Event>)
    ensures forall x :: x in Fold(events) ==> Stripped3(x) == x
  {
    hide Strip, Stripped3;
    StrippedNothing();
    if |events| > 0 {
      var front := Fold(events[..|events| - 1]);
      FoldIsStripped(events[..|events| - 1]);
      match events[|events| - 1]
      case Question(q, g) => StrippedEntry(q, "", g);
      case Answer(a) =>
        StrippedEntry("", a, "");
        if front != [] {
          AnsweredEntry(front[|front| - 1], a);
        }
      case Other =>
    }
  }

  lemma StrippedNothing()
    ensures Strip("") == ""
  {
  }

  lemma StrippedEntry(question: string, answer: string, nested: string)
    ensures var x := Exchange(Strip(question), Strip(answer), Strip(nested)); Stripped3(x) == x
  {
    StripTwice(question);
    StripTwice(answer);
    StripTwice(nested);
  }

  lemma AnsweredEntry(x: Exchange, answer: string)
    requires Stripped3(x) == x
    ensures Stripped3(x.(answer := Strip(answer))) == x.(answer := Strip(answer))
  {
    StripTwice(answer);
  }

  /** Each ask got the recorded answer that is its turn. */
  ghost predicate EachInTurn(xs: seq<Exchange>, asks: seq<string>, replies: seq<Option<string>>) {
    |replies| == |asks| && forall i :: 0 <= i < |asks| ==> replies[i] == InTurn(xs, asks, i)
  }

  /** The recorded answer that the `i`-th ask is due: the n-th one for the n-th ask of the same question. */
  function InTurn(xs: seq<Exchange>, asks: seq<string>, i: nat): Option<string>
    requires i < |asks|
  {
    var said := Wording(asks[i]);
    var recorded, earlier := RecordedFor(xs, said), TimesAsked(asks[..i], said);
    if said != [] && earlier < |recorded| then Some(recorded[earlier]) else None
  }

  /** Every recorded answer has been asked for, and none has a blank question. */
  ghost predicate AllAskedFor(xs: seq<Exchange>, asks: seq<string>) {
    RecordedFor(xs, []) == [] && forall said :: said != [] ==> |RecordedFor(xs, said)| <= TimesAsked(asks, said)
  }

  ghost predicate HandsOut(xs: seq<Exchange>, queue: seq<Reply>, asks: seq<string>) {
    && EachInTurn(xs, asks, AskAll(queue, asks).1)
    && (AskAll(queue, asks).0 == [] <==> AllAskedFor(xs, asks))
  }

  lemma SameHandsOut(xs: seq<Exchange>, queue: seq<Reply>, asks: seq<string>)
    requires AllKeyed(queue) && forall said :: AnswersFor(queue, said) == RecordedFor(xs, said)
    ensures HandsOut(xs, queue, asks)
  {
    hide Wording, AnswersFor, RecordedFor, AskAll, TimesAsked;
    EachAskGetsItsAnswer(queue, asks);
    UsedUpExactly(queue, asks);
    assert AnswersFor(queue, []) == RecordedFor(xs, []);
    forall i | 0 <= i < |asks| ensures AskAll(queue, asks).1[i] == InTurn(xs, asks, i) {
      assert AnswersFor(queue, Wording(asks[i])) == RecordedFor(xs, Wording(asks[i]));
    }
    if AskAll(queue, asks).0 == [] {
      forall said | said != [] ensures |RecordedFor(xs, said)| <= TimesAsked(asks, said) {
        assert |AnswersFor(queue, said)| <= TimesAsked(asks, said);
      }
    }
    if AllAskedFor(xs, asks) {
      forall said | said != [] ensures |AnswersFor(queue, said)| <= TimesAsked(asks, said) {
        assert |RecordedFor(xs, said)| <= TimesAsked(asks, said);
      }
    }
  }

  lemma StrippedHandsOut(xs: seq<Exchange>, asks: seq<string>)
    ensures HandsOut(xs, Preload(ReplayReplies(StrippedAll(xs))), asks)
  {
    hide Wording, AnswersFor, RecordedFor, Preload, ReplayReplies, StrippedAll, Strip, Stripped, HandsOut;
    var history := StrippedAll(xs);
    forall x | x in history ensures Stripped(x.question) && Stripped(x.answer) {
      var i :| 0 <= i < |xs| && history[i] == x;
      StripFacts(xs[i].question);
      StripFacts(xs[i].answer);
    }
    PreloadKeeps(history);
    forall said ensures AnswersFor(ReplayReplies(history), said) == RecordedFor(xs, said) {
      QueueHoldsRecorded(xs, said);
    }
    SameHandsOut(xs, ReplayReplies(history), asks);
  }

  /**
   * The round trip from any log to a restarted graph: after folding, filtering and preloading, the n-th time the
   * graph asks a non-blank question it gets the n-th folded answer to that question; and the queue is used up exactly
   * when no kept entry has a blank question and every question is asked as often as it was answered.
   */
  lemma RoundTrip(events: seq<Event>, asks: seq<string>)
    ensures HandsOut(Fold(events), Preload(ReplayReplies(Fold(events))), asks)
  {
    hide Fold, Preload, ReplayReplies, HandsOut, Stripped3;
    FoldIsStripped(events);
    assert StrippedAll(Fold(events)) == Fold(events);
    StrippedHandsOut(Fold(events), asks);
  }

  /** For a log that records exchanges, these are the answers of the exchanges, up to whitespace at the ends. */
  lemma RecordedRoundTrip(events: seq<Event>, xs: seq<Exchange>, asks: seq<string>)
    requires Records(events, xs)
    ensures HandsOut(xs, Preload(ReplayReplies(Fold(events))), asks)
  {
    hide Fold, Preload, ReplayReplies, HandsOut, Stripped3, Records, StrippedAll;
    FoldRecovers(events, xs);
    StrippedHandsOut(xs, asks);
  }
}
