/** Clarification answers: folded from the event log, filtered, preloaded and handed out again by question. */
module Replay {
  import opened Options
  import opened Text
  import opened Wordings

  /** The events the fold looks at; everything else is `Other`. */
  datatype Event =
    | Question(content: string, nestedGraph: string)
    | Answer(content: string)
    | Other

  datatype Exchange = Exchange(question: string, answer: string, nestedGraph: string)

  /** An entry of the reply queue: with the question it answers, or bare text. */
  datatype Reply = Keyed(question: string, answer: string) | Bare(text: string)

  // ---------------------------------------------------------------------------------
  // The fold over the log

  function FoldStep(history: seq<Exchange>, e: Event): seq<Exchange> {
    match e
    case Question(content, nested) => history + [Exchange(Strip(content), "", Strip(nested))]
    case Answer(content) =>
      var n := |history|;
      if n > 0 && history[n - 1].answer == "" then history[n - 1 := history[n - 1].(answer := Strip(content))]
      else history + [Exchange("", Strip(content), "")]
    case Other => history
  }

  function Fold(events: seq<Event>): seq<Exchange> {
    if |events| == 0 then [] else FoldStep(Fold(events[..|events| - 1]), events[|events| - 1])
  }

  /** `get_clarification_history`; `stored` is what the task record holds for an empty fold. */
  method GetClarificationHistory(events: seq<Event>, stored: seq<Exchange>) returns (history: seq<Exchange>)
    ensures history == if Fold(events) == [] then stored else Fold(events)
  {
    history := [];
    for i := 0 to |events|
      invariant history == Fold(events[..i])
    {
      assert events[..i + 1][..i] == events[..i];
      match events[i] {
        case Question(content, nested) =>
          history := history + [Exchange(Strip(content), "", Strip(nested))];
        case Answer(content) =>
          var answer := Strip(content);
          if |history| > 0 && history[|history| - 1].answer == "" {
            history := history[|history| - 1 := history[|history| - 1].(answer := answer)];
          } else {
            history := history + [Exchange("", answer, "")];
          }
        case Other =>
      }
    }
    assert events[..|events|] == events;
    if history == [] {
      history := stored;
    }
  }

  /** The non-blank questions of the log, stripped, in order; and of a history. */
  function Asked(events: seq<Event>): seq<string> {
    if |events| == 0 then []
    else Asked(events[..|events| - 1]) +
         (match events[|events| - 1] case Question(c, _) => NonBlank(Strip(c)) case _ => [])
  }

  function Answered(events: seq<Event>): seq<string> {
    if |events| == 0 then []
    else Answered(events[..|events| - 1]) +
         (match events[|events| - 1] case Answer(c) => NonBlank(Strip(c)) case _ => [])
  }

  function NonBlank(s: string): seq<string> {
    if s == "" then [] else [s]
  }

  function Questions(history: seq<Exchange>): seq<string> {
    if |history| == 0 then []
    else Questions(history[..|history| - 1]) + NonBlank(history[|history| - 1].question)
  }

  function Answers(history: seq<Exchange>): seq<string> {
    if |history| == 0 then []
    else Answers(history[..|history| - 1]) + NonBlank(history[|history| - 1].answer)
  }

  lemma Appended(history: seq<Exchange>, x: Exchange)
    ensures Questions(history + [x]) == Questions(history) + NonBlank(x.question)
    ensures Answers(history + [x]) == Answers(history) + NonBlank(x.answer)
  {
    assert (history + [x])[..|history|] == history;
  }

  /** Folding keeps every non-blank question and every non-blank answer, in order. */
  lemma {:induction false} FoldKeepsOrder(events: seq<Event>)
    ensures Questions(Fold(events)) == Asked(events)
    ensures Answers(Fold(events)) == Answered(events)
  {
    if |events| > 0 {
      var e := events[|events| - 1];
      var history := Fold(events[..|events| - 1]);
      FoldKeepsOrder(events[..|events| - 1]);
      match e
      case Question(c, nested) => Appended(history, Exchange(Strip(c), "", Strip(nested)));
      case Other =>
      case Answer(c) => AnswerStep(history, c);
    }
  }

  lemma AnswerStep(history: seq<Exchange>, content: string)
    ensures var h := FoldStep(history, Answer(content));
            && Questions(h) == Questions(history)
            && Answers(h) == Answers(history) + NonBlank(Strip(content))
  {
    hide Strip, Questions, Answers, NonBlank;
    var n, answer := |history|, Strip(content);
    NonBlankEmpty();
    if n > 0 && history[n - 1].answer == "" {
      var front, last := history[..n - 1], history[n - 1];
      assert history == front + [last];
      assert FoldStep(history, Answer(content)) == front + [last.(answer := answer)];
      Appended(front, last);
      Appended(front, last.(answer := answer));
      assert Answers(front) + [] == Answers(front);
    } else {
      Appended(history, Exchange("", answer, ""));
      assert Questions(history) + [] == Questions(history);
    }
  }

  lemma NonBlankEmpty()
    ensures NonBlank("") == []
  {
  }

  // ---------------------------------------------------------------------------------
  // Filtering and preloading

  /** The replies kept for a restart: answered questions of nested graphs. */
  function ReplayReplies(history: seq<Exchange>): seq<Reply> {
    if |history| == 0 then []
    else
      var x := history[|history| - 1];
      ReplayReplies(history[..|history| - 1]) +
      if Strip(x.nestedGraph) != "" && Strip(x.answer) != "" then [Keyed(x.question, x.answer)] else []
  }

  function Preloaded(r: Reply): seq<Reply> {
    match r
    case Keyed(q, a) => if Strip(a) != "" then [Keyed(Strip(q), Strip(a))] else []
    case Bare(t) => if Strip(t) != "" then [Bare(Strip(t))] else []
  }

  function Preload(replies: seq<Reply>): seq<Reply> {
    if |replies| == 0 then []
    else Preload(replies[..|replies| - 1]) + Preloaded(replies[|replies| - 1])
  }

  /** A reply is kept, stripped, at the end unless its answer or text is blank; a blank question is kept. */
  lemma PreloadInOrder(replies: seq<Reply>, q: string, a: string)
    ensures Preload(replies + [Keyed(q, a)]) ==
            Preload(replies) + if Strip(a) == "" then [] else [Keyed(Strip(q), Strip(a))]
    ensures Preload(replies + [Bare(a)]) == Preload(replies) + if Strip(a) == "" then [] else [Bare(Strip(a))]
    ensures Preload([]) == []
  {
    assert (replies + [Keyed(q, a)])[..|replies|] == (replies + [Bare(a)])[..|replies|] == replies;
  }

  /** `_normalize_question` */
  function Key(question: string): string {
    Join(Words(Strip(question)), " ")
  }

  /** Two questions have the same key exactly when they have the same runs of characters in the same order. */
  lemma KeyIdentifies(q: string, r: string)
    ensures Key(q) == Key(r) <==> SameQuestion(q, r)
    ensures Key(q) == "" <==> Wording(q) == []
  {
    hide Strip, Words, Join, Spelled;
    WordingOfStripped(q);
    WordingOfStripped(r);
    JoinedWords(Strip(q));
    JoinedWords(Strip(r));
    SpelledNothing();
  }

  /** The queue of the running task. */
  class ReplyQueue {
    var queue: seq<Reply>

    /** `set_preloaded_user_replies` */
    constructor (replies: seq<Reply>)
      ensures queue == Preload(replies)
    {
      var normalized: seq<Reply> := [];
      for i := 0 to |replies|
        invariant normalized == Preload(replies[..i])
      {
        assert replies[..i + 1][..i] == replies[..i];
        match replies[i] {
          case Keyed(question, text) =>
            var answer := Strip(text);
            if answer != "" {
              normalized := normalized + [Keyed(Strip(question), answer)];
            }
          case Bare(text) =>
            if Strip(text) != "" {
              normalized := normalized + [Bare(Strip(text))];
            }
        }
      }
      assert replies[..|replies|] == replies;
      queue := normalized;
    }

    /** `_pop_preloaded_reply` */
    method Pop(question: string) returns (reply: Option<string>)
      modifies this
      ensures (queue, reply) == Popped(old(queue), question)
    {
      hide Key, FirstMatch, Wording;
      if queue == [] {
        return None;
      }
      if queue[0].Bare? {
        reply := Some(queue[0].text);
        queue := queue[1..];
        return;
      }
      var key := Key(question);
      for i := 0 to |queue|
        invariant queue == old(queue)
        invariant forall j :: 0 <= j < i ==> !Matches(queue[j], Wording(question))
      {
        if queue[i].Keyed? {
          var stored := Key(queue[i].question);
          KeyIdentifies(queue[i].question, question);
          if stored != "" && stored == key {
            reply := Some(queue[i].answer);
            FirstMatchIs(queue, Wording(question), i);
            RemoveFirst(i);
            return;
          }
        }
      }
      NoMatch(queue, Wording(question));
      return None;
    }

    /** `deque.remove`: drops the first element equal to the given one, which need not be that one. */
    method RemoveFirst(at: nat)
      requires at < |queue| && forall j :: 0 <= j < at ==> queue[j] != queue[at]
      modifies this
      ensures queue == old(queue)[..at] + old(queue)[at + 1..]
    {
      var i := 0;
      while queue[i] != queue[at]
        invariant 0 <= i <= at && queue == old(queue)
        decreases at - i
      {
        i := i + 1;
      }
      queue := queue[..i] + queue[i + 1..];
    }
  }

  predicate Matches(r: Reply, said: seq<Mark>) {
    r.Keyed? && said != [] && Wording(r.question) == said
  }

  /** The index of the first reply for `said`, or the length. */
  function FirstMatch(queue: seq<Reply>, said: seq<Mark>): (i: nat)
    ensures i <= |queue|
    ensures i < |queue| ==> Matches(queue[i], said)
    ensures forall j :: 0 <= j < i ==> !Matches(queue[j], said)
  {
    if queue == [] || Matches(queue[0], said) then 0 else 1 + FirstMatch(queue[1..], said)
  }

  function Popped(queue: seq<Reply>, question: string): (seq<Reply>, Option<string>) {
    if queue == [] then (queue, None)
    else if queue[0].Bare? then (queue[1..], Some(queue[0].text))
    else
      var i := FirstMatch(queue, Wording(question));
      if i < |queue| then (queue[..i] + queue[i + 1..], Some(queue[i].answer)) else (queue, None)
  }

  lemma FirstMatchIs(queue: seq<Reply>, said: seq<Mark>, i: nat)
    requires i < |queue| && Matches(queue[i], said) && forall j :: 0 <= j < i ==> !Matches(queue[j], said)
    ensures FirstMatch(queue, said) == i && forall j :: 0 <= j < i ==> queue[j] != queue[i]
  {
  }

  lemma NoMatch(queue: seq<Reply>, said: seq<Mark>)
    requires forall j :: 0 <= j < |queue| ==> !Matches(queue[j], said)
    ensures FirstMatch(queue, said) == |queue|
  {
  }
}
