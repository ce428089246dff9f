/** The text a conversation context is built from, and its token budget. */
module ConversationContext {
  import opened Text
  import opened ConversationSummaries

  const MAX_CONTEXT_TOKENS := 8000
  const MAX_CONTEXT_CHARS := 12000
  const CONTENT_TRUNCATE_CHARS := 400
  const RETRIEVAL_TOP_K := 3

  datatype Round = Round(query: string, reply: string)

  /** `int(len(text) / 1.5)` */
  function EstimateTokens(text: string): nat {
    |text| * 2 / 3
  }

  /** The longest prefix within the budget, ending in an ellipsis, if the text is over it. */
  function TruncateToBudget(text: string): (r: string)
    ensures EstimateTokens(r) <= MAX_CONTEXT_TOKENS
    ensures EstimateTokens(text) <= MAX_CONTEXT_TOKENS ==> r == text
    ensures r == text <==> |text| <= 12001
    ensures EstimateTokens(text) > MAX_CONTEXT_TOKENS ==> |r| == MAX_CONTEXT_CHARS && r == text[..|r| - 1] + "…"
  {
    if EstimateTokens(text) <= MAX_CONTEXT_TOKENS then text else text[..MAX_CONTEXT_CHARS - 1] + "…"
  }

  function RoundParts(rounds: seq<Round>): seq<string> {
    if rounds == [] then []
    else
      var r := rounds[0];
      (if r.query != "" then ["Q: " + Cut(r.query, CONTENT_TRUNCATE_CHARS)] else []) +
      (if r.reply != "" then ["A: " + Cut(r.reply, CONTENT_TRUNCATE_CHARS)] else []) +
      RoundParts(rounds[1..])
  }

  function FormatRounds(rounds: seq<Round>): string {
    Join(RoundParts(rounds), "\n\n")
  }

  function RetrievalParts(found: seq<Round>): seq<string> {
    if found == [] then []
    else ["Q: " + Cut(found[0].query, 200) + "\nA: " + Cut(found[0].reply, 650)] + RetrievalParts(found[1..])
  }

  /** The context before it is cut to the budget; `found` is what retrieval yields, if it is tried. */
  function RawText(completed: seq<Round>): string {
    "[对话历史]\n" + FormatRounds(completed)
  }

  function SummaryText(summary: string, completed: seq<Round>): string
    requires |completed| >= RECENT_ROUNDS
  {
    "[对话历史摘要]\n" + summary + "\n\n" + "[最近对话]\n" + FormatRounds(completed[|completed| - RECENT_ROUNDS..])
  }

  function RetrievalText(summary: string, completed: seq<Round>, found: seq<Round>): string
    requires |completed| >= RECENT_ROUNDS
  {
    var recent := "[最近对话]\n" + FormatRounds(completed[|completed| - RECENT_ROUNDS..]);
    Join(["[对话历史摘要]\n" + summary] +
         (if found != [] then ["[相关历史片段]\n" + Join(RetrievalParts(found), "\n\n")] else []) + [recent], "\n\n")
  }

  /** `build`: the context and its strategy, by the number of completed rounds. */
  function Build(completed: seq<Round>, summary: string, found: seq<Round>): (context: (string, string))
    ensures EstimateTokens(context.0) <= MAX_CONTEXT_TOKENS
    ensures context.1 == "none" <==> completed == []
    ensures context.1 == "raw" <==> 1 <= |completed| <= 5
    ensures context.1 == "summary" <==> 6 <= |completed| <= 20
  {
    assert |"none"| == 4 && |"raw"| == 3 && |"summary"| == 7 && |"summary+retrieval"| == 17;
    var n := |completed|;
    if n == 0 then ("", "none")
    else if n <= 5 then (TruncateToBudget(RawText(completed)), "raw")
    else if n <= 20 then (TruncateToBudget(SummaryText(summary, completed)), "summary")
    else (TruncateToBudget(RetrievalText(summary, completed, found)), "summary+retrieval")
  }

  ghost predicate EachAtMost(parts: seq<string>, n: nat) {
    forall p :: p in parts ==> |p| <= n
  }

  lemma {:induction false} JoinLength(parts: seq<string>, separator: string, n: nat, k: nat)
    requires EachAtMost(parts, n) && n + |separator| <= k
    ensures |Join(parts, separator)| <= |parts| * k
  {
    if |parts| > 1 {
      assert forall p :: p in parts[1..] ==> p in parts;
      JoinLength(parts[1..], separator, n, k);
      OneMore(|parts| - 1, k);
    } else if |parts| == 1 {
      assert parts[0] in parts;
    }
  }

  lemma OneMore(a: nat, k: nat)
    ensures (a + 1) * k == a * k + k
  {
  }

  lemma {:induction false} RoundPartsLength(rounds: seq<Round>)
    ensures |RoundParts(rounds)| <= 2 * |rounds| && EachAtMost(RoundParts(rounds), CONTENT_TRUNCATE_CHARS + 3)
  {
    if rounds != [] {
      RoundPartsLength(rounds[1..]);
    }
  }

  lemma RoundsLength(rounds: seq<Round>)
    ensures |FormatRounds(rounds)| <= |rounds| * 810
  {
    var parts := RoundParts(rounds);
    RoundPartsLength(rounds);
    JoinLength(parts, "\n\n", CONTENT_TRUNCATE_CHARS + 3, 405);
    assert |parts| * 405 <= 2 * |rounds| * 405;
  }

  lemma {:induction false} RetrievalPartsLength(found: seq<Round>)
    ensures |RetrievalParts(found)| == |found| && EachAtMost(RetrievalParts(found), 857)
  {
    if found != [] {
      RetrievalPartsLength(found[1..]);
    }
  }

  lemma RetrievalLength(found: seq<Round>)
    requires |found| <= RETRIEVAL_TOP_K
    ensures |Join(RetrievalParts(found), "\n\n")| <= 3 * 859
  {
    RetrievalPartsLength(found);
    hide Join, RetrievalParts, EachAtMost;
    JoinLength(RetrievalParts(found), "\n\n", 857, 859);
  }

  // ---------------------------------------------------------------------------------
  // What the text says

  lemma {:induction false} RoundPartsConcat(a: seq<Round>, b: seq<Round>)
    ensures RoundParts(a + b) == RoundParts(a) + RoundParts(b)
  {
    if a == [] {
      assert a + b == b;
    } else {
      assert (a + b)[1..] == a[1..] + b;
      RoundPartsConcat(a[1..], b);
    }
  }

  /** The rounds follow each other in order, a blank line between them; one without any text leaves nothing. */
  lemma RoundsInOrder(a: seq<Round>, b: seq<Round>)
    ensures FormatRounds(a + b) ==
            if RoundParts(a) == [] then FormatRounds(b) else if RoundParts(b) == [] then FormatRounds(a)
            else FormatRounds(a) + "\n\n" + FormatRounds(b)
    ensures RoundParts(a) == [] <==> forall r :: r in a ==> r.query == "" && r.reply == ""
  {
    RoundPartsConcat(a, b);
    JoinConcat(RoundParts(a), RoundParts(b), "\n\n");
    NoParts(a);
  }

  lemma {:induction false} NoParts(rounds: seq<Round>)
    ensures RoundParts(rounds) == [] <==> forall r :: r in rounds ==> r.query == "" && r.reply == ""
  {
    if rounds != [] {
      NoParts(rounds[1..]);
      assert rounds == [rounds[0]] + rounds[1..];
    }
  }

  /** One round: its question and its answer, each cut to 400 characters. */
  lemma OneRound(r: Round)
    ensures r.query != "" && r.reply != "" ==>
              FormatRounds([r]) == ("Q: " + Cut(r.query, 400)) + "\n\n" + ("A: " + Cut(r.reply, 400))
    ensures r.query != "" && r.reply == "" ==> FormatRounds([r]) == "Q: " + Cut(r.query, 400)
    ensures r.query == "" && r.reply != "" ==> FormatRounds([r]) == "A: " + Cut(r.reply, 400)
  {
    hide Cut;
    assert RoundParts([r][1..]) == [];
    var q, a := "Q: " + Cut(r.query, 400), "A: " + Cut(r.reply, 400);
    if r.query != "" && r.reply != "" {
      assert RoundParts([r]) == [q, a];
      JoinOfFew([q, a]);
    } else if r.query != "" {
      assert RoundParts([r]) == [q];
    } else if r.reply != "" {
      assert RoundParts([r]) == [a];
    }
  }

  /** What retrieval found, in its order: a question cut to 200 characters and an answer cut to 650. */
  lemma {:induction false} FoundInOrder(found: seq<Round>, r: Round)
    ensures Join(RetrievalParts(found + [r]), "\n\n") ==
            (if found == [] then "" else Join(RetrievalParts(found), "\n\n") + "\n\n") +
            ("Q: " + Cut(r.query, 200) + "\nA: " + Cut(r.reply, 650))
  {
    RetrievalConcat(found, r);
    hide Cut, Join;
    var part := "Q: " + Cut(r.query, 200) + "\nA: " + Cut(r.reply, 650);
    JoinConcat(RetrievalParts(found), [part], "\n\n");
    JoinSingle(part);
    assert "" + part == part;
  }

  lemma JoinSingle(part: string)
    ensures Join([part], "\n\n") == part
  {
  }

  lemma {:induction false} RetrievalConcat(found: seq<Round>, r: Round)
    ensures RetrievalParts(found + [r]) ==
            RetrievalParts(found) + ["Q: " + Cut(r.query, 200) + "\nA: " + Cut(r.reply, 650)]
    ensures RetrievalParts(found) == [] <==> found == []
  {
    hide Cut;
    if found == [] {
      assert ([] + [r])[1..] == [];
    } else {
      assert (found + [r])[1..] == found[1..] + [r];
      RetrievalConcat(found[1..], r);
    }
  }

  /**
   * The cut at the end is never made: with a summary of the length the generator allows, every strategy stays within
   * the budget by itself. Up to five rounds are passed on as they are; from then on the summary, what was retrieved
   * from the twenty-first round on, and the last three rounds.
   */
  lemma NothingIsCut(completed: seq<Round>, summary: string, found: seq<Round>)
    requires |summary| <= SUMMARY_MAX_CHARS && |found| <= RETRIEVAL_TOP_K
    ensures var n, context := |completed|, Build(completed, summary, found).0;
            && (n == 0 ==> context == "")
            && (1 <= n <= 5 ==> context == "[对话历史]\n" + FormatRounds(completed))
            && (6 <= n <= 20 || (n > 20 && found == []) ==>
                  context == ("[对话历史摘要]\n" + summary) + "\n\n" +
                             ("[最近对话]\n" + FormatRounds(completed[n - 3..])))
            && (n > 20 && found != [] ==>
                  context == ("[对话历史摘要]\n" + summary) + "\n\n" +
                             (("[相关历史片段]\n" + Join(RetrievalParts(found), "\n\n")) + "\n\n" +
                              ("[最近对话]\n" + FormatRounds(completed[n - 3..]))))
  {
    if 1 <= |completed| <= 5 {
      RoundsLength(completed);
    } else if |completed| > 5 {
      var recent := FormatRounds(completed[|completed| - 3..]);
      RoundsLength(completed[|completed| - 3..]);
      RetrievalLength(found);
      TextsFit(summary, recent, Join(RetrievalParts(found), "\n\n"));
      SummaryReads(summary, completed);
      RetrievalReads(summary, completed, found);
      hide FormatRounds, RetrievalParts, Join, EstimateTokens, SummaryText, RetrievalText;
    }
  }

  lemma TextsFit(summary: string, recent: string, found: string)
    requires |summary| <= SUMMARY_MAX_CHARS && |recent| <= 3 * 810 && |found| <= 3 * 859
    ensures var first, middle, last := "[对话历史摘要]\n" + summary, "[相关历史片段]\n" + found, "[最近对话]\n" + recent;
            && EstimateTokens(first + "\n\n" + last) <= MAX_CONTEXT_TOKENS
            && EstimateTokens(first + "\n\n" + (middle + "\n\n" + last)) <= MAX_CONTEXT_TOKENS
  {
  }

  lemma SummaryReads(summary: string, completed: seq<Round>)
    requires |completed| >= RECENT_ROUNDS
    ensures SummaryText(summary, completed) ==
            ("[对话历史摘要]\n" + summary) + "\n\n" + ("[最近对话]\n" + FormatRounds(completed[|completed| - 3..]))
  {
    hide FormatRounds;
    var head, recent := "[对话历史摘要]\n" + summary + "\n\n", FormatRounds(completed[|completed| - 3..]);
    assert head + "[最近对话]\n" + recent == head + ("[最近对话]\n" + recent);
  }

  lemma RetrievalReads(summary: string, completed: seq<Round>, found: seq<Round>)
    requires |completed| >= RECENT_ROUNDS
    ensures var first, last := "[对话历史摘要]\n" + summary, "[最近对话]\n" + FormatRounds(completed[|completed| - 3..]);
            var middle := "[相关历史片段]\n" + Join(RetrievalParts(found), "\n\n");
            RetrievalText(summary, completed, found) ==
            if found == [] then first + "\n\n" + last else first + "\n\n" + (middle + "\n\n" + last)
  {
    hide FormatRounds, RetrievalParts, Join;
    var first, last := "[对话历史摘要]\n" + summary, "[最近对话]\n" + FormatRounds(completed[|completed| - 3..]);
    var middle := "[相关历史片段]\n" + Join(RetrievalParts(found), "\n\n");
    assert [first] + [] + [last] == [first, last] && [first] + [middle] + [last] == [first, middle, last];
    JoinOfFew([first, last]);
    JoinOfFew([first, middle, last]);
  }

  lemma JoinOfFew(parts: seq<string>)
    requires 2 <= |parts| <= 3
    ensures |parts| == 2 ==> Join(parts, "\n\n") == parts[0] + "\n\n" + parts[1]
    ensures |parts| == 3 ==> Join(parts, "\n\n") == parts[0] + "\n\n" + (parts[1] + "\n\n" + parts[2])
  {
    assert |parts| == 3 ==> parts[1..][1..] == [parts[2]];
    assert |parts| == 2 ==> parts[1..] == [parts[1]];
  }
}
