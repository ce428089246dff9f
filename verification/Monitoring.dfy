/** The monitor's events grouped by trace, and the per-model usage in their summary. */
module Monitoring {
  import opened Options
  import opened Rounding

  datatype Tokens = Tokens(input: int, output: int, total: int, calls: nat) {
    function Plus(that: Tokens): Tokens {
      Tokens(input + that.input, output + that.output, total + that.total, calls + that.calls)
    }
  }

  const NO_TOKENS := Tokens(0, 0, 0, 0)

  /** A monitoring event; the model, role and token counts are those of its metadata, empty or 0 where missing. */
  datatype MonitoringEvent = MonitoringEvent(timestamp: real, layer: string, name: string, event: string,
                                             durationMs: Option<real>,
                                             model: string, role: string, input: int, output: int, tokens: int) {
    predicate EndsLlmCall() {
      layer == "llm" && event == "end"
    }

    predicate ReportsDuration() {
      && event == "end" && durationMs.Some? && durationMs.value != 0.0
      && layer == "orchestrator" && name == "run_orchestrator"
    }

    function Used(): Tokens {
      Tokens(input, output, tokens, 1)
    }
  }

  datatype ModelUsage = ModelUsage(model: string, role: string, used: Tokens)

  datatype Summary = Summary(durationMs: real, llmCalls: nat, totalTokens: int, llmUsage: seq<ModelUsage>, errors: nat,
                             events: seq<MonitoringEvent>)

  /** What the finished calls of one model used. */
  function TokensOf(events: seq<MonitoringEvent>, model: string): Tokens {
    if events == [] then NO_TOKENS
    else
      var e := events[|events| - 1];
      var before := TokensOf(events[..|events| - 1], model);
      if e.EndsLlmCall() && e.model == model then before.Plus(e.Used()) else before
  }

  function AllTokens(events: seq<MonitoringEvent>): Tokens {
    if events == [] then NO_TOKENS
    else
      var e := events[|events| - 1];
      var before := AllTokens(events[..|events| - 1]);
      if e.EndsLlmCall() then before.Plus(e.Used()) else before
  }

  function Errors(events: seq<MonitoringEvent>): nat {
    if events == [] then 0
    else Errors(events[..|events| - 1]) + if events[|events| - 1].event == "error" then 1 else 0
  }

  /** The duration that the run itself reported last, or 0. */
  function Reported(events: seq<MonitoringEvent>): real {
    if events == [] then 0.0
    else if events[|events| - 1].ReportsDuration() then events[|events| - 1].durationMs.value
    else Reported(events[..|events| - 1])
  }

  function FirstStart(events: seq<MonitoringEvent>): Option<real> {
    if events == [] then None
    else if events[0].event == "start" then Some(events[0].timestamp)
    else FirstStart(events[1..])
  }

  function LastEnd(events: seq<MonitoringEvent>): Option<real> {
    if events == [] then None
    else
      var e := events[|events| - 1];
      if e.event == "end" || e.event == "error" then Some(e.timestamp) else LastEnd(events[..|events| - 1])
  }

  /** Without a reported duration, the time from the first start to the last end or error. */
  function DurationOf(events: seq<MonitoringEvent>, reported: real): real {
    var first, last := FirstStart(events), LastEnd(events);
    if reported != 0.0 || first.None? || last.None? then reported else (last.value - first.value) * 1000.0
  }

  /** The models with a finished call, in the order of their first one. */
  function Models(events: seq<MonitoringEvent>): seq<string> {
    if events == [] then []
    else
      var e := events[|events| - 1];
      var before := Models(events[..|events| - 1]);
      if e.EndsLlmCall() && e.model !in before then before + [e.model] else before
  }

  /** The role of the first finished call of a model. */
  function RoleOf(events: seq<MonitoringEvent>, model: string): string {
    if events == [] then ""
    else
      var e := events[|events| - 1];
      var before := events[..|events| - 1];
      if model !in Models(before) && e.EndsLlmCall() && e.model == model then e.role else RoleOf(before, model)
  }

  function BucketOf(events: seq<MonitoringEvent>, model: string): ModelUsage {
    ModelUsage(model, RoleOf(events, model), TokensOf(events, model))
  }

  function UsageOf(events: seq<MonitoringEvent>): (usage: seq<ModelUsage>)
    ensures |usage| == |Models(events)| && forall i :: 0 <= i < |usage| ==> usage[i].model == Models(events)[i]
  {
    seq(|Models(events)|, i requires 0 <= i < |Models(events)| => BucketOf(events, Models(events)[i]))
  }

  function SummaryOf(events: seq<MonitoringEvent>): Summary {
    var all := AllTokens(events);
    Summary(Round1(DurationOf(events, Reported(events))), all.calls, all.total, UsageOf(events), Errors(events), events)
  }

  function SumUsed(usage: seq<ModelUsage>): Tokens {
    if usage == [] then NO_TOKENS else SumUsed(usage[..|usage| - 1]).Plus(usage[|usage| - 1].used)
  }

  /** The loop body of `get_summary` for one finished call. */
  function Charged(usage: seq<ModelUsage>, at: nat, e: MonitoringEvent): seq<ModelUsage>
    requires at <= |usage|
  {
    if at == |usage| then usage + [ModelUsage(e.model, e.role, NO_TOKENS.Plus(e.Used()))]
    else usage[at := usage[at].(used := usage[at].used.Plus(e.Used()))]
  }

  lemma {:induction false} ModelsAreDistinct(events: seq<MonitoringEvent>)
    ensures forall i, j :: 0 <= i < j < |Models(events)| ==> Models(events)[i] != Models(events)[j]
  {
    if events != [] {
      ModelsAreDistinct(events[..|events| - 1]);
    }
  }

  lemma {:induction false} UnseenUsedNothing(events: seq<MonitoringEvent>, model: string)
    requires model !in Models(events)
    ensures TokensOf(events, model) == NO_TOKENS
  {
    if events != [] {
      UnseenUsedNothing(events[..|events| - 1], model);
    }
  }

  /** One more finished call goes to the bucket of its model, a new one at the end if there is none. */
  lemma ChargeStep(events: seq<MonitoringEvent>, e: MonitoringEvent, at: nat)
    requires e.EndsLlmCall() && at <= |Models(events)|
    requires if at < |Models(events)| then Models(events)[at] == e.model else e.model !in Models(events)
    ensures UsageOf(events + [e]) == Charged(UsageOf(events), at, e)
  {
    assert (events + [e])[..|events|] == events;
    ModelsAreDistinct(events);
    if at == |Models(events)| {
      UnseenUsedNothing(events, e.model);
    }
  }

  lemma OtherStep(events: seq<MonitoringEvent>, e: MonitoringEvent)
    requires !e.EndsLlmCall()
    ensures UsageOf(events + [e]) == UsageOf(events)
  {
    assert (events + [e])[..|events|] == events;
  }

  lemma {:induction false} SumCharged(usage: seq<ModelUsage>, at: nat, e: MonitoringEvent)
    requires at <= |usage|
    ensures SumUsed(Charged(usage, at, e)) == SumUsed(usage).Plus(e.Used())
  {
    var charged := Charged(usage, at, e);
    if at == |usage| {
      assert charged[..|usage|] == usage;
    } else if at == |usage| - 1 {
      assert charged[..at] == usage[..at];
    } else {
      SumCharged(usage[..|usage| - 1], at, e);
      assert charged[..|usage| - 1] == Charged(usage[..|usage| - 1], at, e);
    }
  }

  /** The buckets conserve tokens and calls: together they hold exactly what every finished call used. */
  lemma {:induction false} BucketsConserve(events: seq<MonitoringEvent>)
    ensures SumUsed(UsageOf(events)) == AllTokens(events)
  {
    if events != [] {
      var before, e := events[..|events| - 1], events[|events| - 1];
      BucketsConserve(before);
      assert events == before + [e];
      if e.EndsLlmCall() {
        var models := Models(before);
        var at := if e.model in models then (var i: nat :| i < |models| && models[i] == e.model; i) else |models|;
        ChargeStep(before, e, at);
        SumCharged(UsageOf(before), at, e);
      } else {
        OtherStep(before, e);
      }
    }
  }

  /** The finished calls of one model, in order. */
  function CallsTo(events: seq<MonitoringEvent>, model: string): seq<MonitoringEvent> {
    if events == [] then []
    else
      var e := events[|events| - 1];
      CallsTo(events[..|events| - 1], model) +
      if e.layer == "llm" && e.event == "end" && e.model == model then [e] else []
  }

  lemma {:induction false} CallsOfModel(events: seq<MonitoringEvent>, model: string)
    ensures forall e :: e in CallsTo(events, model) ==> e.EndsLlmCall() && e.model == model
    ensures model in Models(events) <==> CallsTo(events, model) != []
  {
    if events != [] {
      CallsOfModel(events[..|events| - 1], model);
    }
  }

  lemma AllTokensMore(events: seq<MonitoringEvent>, e: MonitoringEvent)
    requires e.EndsLlmCall()
    ensures AllTokens(events + [e]) == AllTokens(events).Plus(e.Used())
  {
    assert (events + [e])[..|events|] == events;
  }

  lemma {:induction false} TokensOfCalls(events: seq<MonitoringEvent>, model: string)
    ensures TokensOf(events, model) == AllTokens(CallsTo(events, model))
    ensures TokensOf(events, model).calls == |CallsTo(events, model)|
  {
    if events != [] {
      var before, e := events[..|events| - 1], events[|events| - 1];
      TokensOfCalls(before, model);
      if e.EndsLlmCall() && e.model == model {
        AllTokensMore(CallsTo(before, model), e);
      } else {
        assert CallsTo(before, model) + [] == CallsTo(before, model);
      }
    }
  }

  lemma {:induction false} RoleOfFirst(events: seq<MonitoringEvent>, model: string)
    requires CallsTo(events, model) != []
    ensures RoleOf(events, model) == CallsTo(events, model)[0].role
  {
    var before := events[..|events| - 1];
    CallsOfModel(before, model);
    if CallsTo(before, model) != [] {
      RoleOfFirst(before, model);
    }
  }

  /** A bucket holds what the calls of its model used, and their number, under the role of the first of them. */
  lemma BucketIsItsCalls(events: seq<MonitoringEvent>, model: string)
    requires model in Models(events)
    ensures var calls, bucket := CallsTo(events, model), BucketOf(events, model);
            && calls != [] && (forall e :: e in calls ==> e in events && e.model == model)
            && bucket.used == AllTokens(calls) && bucket.used.calls == |calls| && bucket.role == calls[0].role
  {
    hide Models, CallsTo, TokensOf, AllTokens, RoleOf;
    CallsOfModel(events, model);
    CallsAreEvents(events, model);
    TokensOfCalls(events, model);
    RoleOfFirst(events, model);
  }

  lemma {:induction false} CallsAreEvents(events: seq<MonitoringEvent>, model: string)
    ensures forall e :: e in CallsTo(events, model) ==> e in events
  {
    if events != [] {
      CallsAreEvents(events[..|events| - 1], model);
      assert events == events[..|events| - 1] + [events[|events| - 1]];
    }
  }

  /** The buckets come in the order in which their models first finished a call, each once. */
  lemma {:induction false} BucketsInOrder(events: seq<MonitoringEvent>, k: nat) returns (first: nat)
    requires k < |Models(events)|
    ensures first < |events| && events[first].EndsLlmCall() && events[first].model == Models(events)[k]
    ensures Models(events[..first]) == Models(events)[..k]
  {
    var n := |events| - 1;
    if k < |Models(events[..n])| {
      first := BucketsInOrder(events[..n], k);
      assert events[..n][..first] == events[..first];
    } else {
      first := n;
    }
  }

  /** Without a reported duration it is the time from the first start to the last end or error, in milliseconds. */
  lemma DurationIsMeasured(events: seq<MonitoringEvent>, i: nat, j: nat)
    requires i < |events| && events[i].event == "start" && forall k :: 0 <= k < i ==> events[k].event != "start"
    requires j < |events| && (events[j].event == "end" || events[j].event == "error")
    requires forall k :: j < k < |events| ==> events[k].event != "end" && events[k].event != "error"
    requires forall k :: 0 <= k < |events| ==> !events[k].ReportsDuration()
    ensures SummaryOf(events).durationMs == Round1((events[j].timestamp - events[i].timestamp) * 1000.0)
  {
    hide Round1;
    FirstStartAt(events, i);
    LastEndAt(events, j);
    NothingReported(events);
  }

  lemma {:induction false} FirstStartAt(events: seq<MonitoringEvent>, i: nat)
    requires i < |events| && events[i].event == "start" && forall k :: 0 <= k < i ==> events[k].event != "start"
    ensures FirstStart(events) == Some(events[i].timestamp)
  {
    if i > 0 {
      FirstStartAt(events[1..], i - 1);
    }
  }

  lemma {:induction false} LastEndAt(events: seq<MonitoringEvent>, j: nat)
    requires j < |events| && (events[j].event == "end" || events[j].event == "error")
    requires forall k :: j < k < |events| ==> events[k].event != "end" && events[k].event != "error"
    ensures LastEnd(events) == Some(events[j].timestamp)
  {
    if j < |events| - 1 {
      LastEndAt(events[..|events| - 1], j);
    }
  }

  lemma {:induction false} NothingReported(events: seq<MonitoringEvent>)
    requires forall k :: 0 <= k < |events| ==> !events[k].ReportsDuration()
    ensures Reported(events) == 0.0
  {
    if events != [] {
      NothingReported(events[..|events| - 1]);
    }
  }

  /** A duration that the run itself reported wins, the last one if there are several. */
  lemma {:induction false} LastReportWins(events: seq<MonitoringEvent>, j: nat)
    requires j < |events| && events[j].ReportsDuration()
    requires forall k :: j < k < |events| ==> !events[k].ReportsDuration()
    ensures SummaryOf(events).durationMs == Round1(events[j].durationMs.value)
  {
    hide Round1;
    ReportedAt(events, j);
  }

  lemma {:induction false} ReportedAt(events: seq<MonitoringEvent>, j: nat)
    requires j < |events| && events[j].ReportsDuration()
    requires forall k :: j < k < |events| ==> !events[k].ReportsDuration()
    ensures Reported(events) == events[j].durationMs.value
  {
    if j < |events| - 1 {
      ReportedAt(events[..|events| - 1], j);
    }
  }

  function ErrorsAt(events: seq<MonitoringEvent>): set<nat> {
    set k: nat | k < |events| && events[k].event == "error"
  }

  lemma {:induction false} ErrorsAreCounted(events: seq<MonitoringEvent>)
    ensures Errors(events) == |ErrorsAt(events)|
  {
    if events != [] {
      var n := |events| - 1;
      ErrorsAreCounted(events[..n]);
      ErrorsMore(events);
      hide ErrorsAt;
      assert n !in ErrorsAt(events[..n]) ==>
          |ErrorsAt(events[..n]) + {n}| == |ErrorsAt(events[..n])| + 1;
    }
  }

  lemma ErrorsMore(events: seq<MonitoringEvent>)
    requires events != []
    ensures var n := |events| - 1;
            && n !in ErrorsAt(events[..n])
            && ErrorsAt(events) == ErrorsAt(events[..n]) + if events[n].event == "error" then {n} else {}
  {
  }

  /** Adds a finished call to the bucket of its model, creating the bucket when it is missing. */
  method Charge(usage: seq<ModelUsage>, e: MonitoringEvent, ghost events: seq<MonitoringEvent>)
    returns (charged: seq<ModelUsage>)
    requires usage == UsageOf(events) && e.EndsLlmCall()
    ensures charged == UsageOf(events + [e])
  {
    var at := 0;
    while at < |usage| && usage[at].model != e.model
      invariant at <= |usage| && forall i :: 0 <= i < at ==> usage[i].model != e.model
    {
      at := at + 1;
    }
    ChargeStep(events, e, at);
    charged := if at == |usage| then usage + [ModelUsage(e.model, e.role, NO_TOKENS)] else usage;
    var b := charged[at].used;
    var more := Tokens(b.input + e.input, b.output + e.output, b.total + e.tokens, b.calls + 1);
    charged := charged[at := charged[at].(used := more)];
  }

  function DurationReported(e: MonitoringEvent): real
    requires e.ReportsDuration()
  {
    e.durationMs.value
  }

  lemma CountStep(events: seq<MonitoringEvent>, e: MonitoringEvent)
    ensures e.EndsLlmCall() ==> AllTokens(events + [e]) == Tokens(AllTokens(events).input + e.input,
                                                                   AllTokens(events).output + e.output,
                                                                   AllTokens(events).total + e.tokens,
                                                                   AllTokens(events).calls + 1)
    ensures !e.EndsLlmCall() ==> AllTokens(events + [e]) == AllTokens(events)
    ensures Errors(events + [e]) == Errors(events) + if e.event == "error" then 1 else 0
    ensures Reported(events + [e]) == if e.ReportsDuration() then DurationReported(e) else Reported(events)
  {
    assert (events + [e])[..|events|] == events;
  }

  lemma NothingCounted()
    ensures AllTokens([]) == Tokens(0, 0, 0, 0) && Errors([]) == 0 && Reported([]) == 0.0 && UsageOf([]) == []
  {
  }

  lemma SummaryParts(events: seq<MonitoringEvent>)
    ensures SummaryOf(events) == Summary(Round1(DurationOf(events, Reported(events))), AllTokens(events).calls,
                                         AllTokens(events).total, UsageOf(events), Errors(events), events)
  {
  }

  class MonitoringCollector {
    const historyLimit: nat
    var requests: map<string, seq<MonitoringEvent>>
    var history: seq<Summary>

    constructor (historyLimit: nat)
      ensures this.historyLimit == historyLimit && requests == map[] && history == []
    {
      this.historyLimit, requests, history := historyLimit, map[], [];
    }

    function Events(trace: string): seq<MonitoringEvent>
      reads this
    {
      if trace in requests then requests[trace] else []
    }

    method Record(trace: string, e: MonitoringEvent)
      modifies this`requests
      ensures Events(trace) == old(Events(trace)) + [e]
      ensures forall other :: other != trace ==> Events(other) == old(Events(other))
    {
      requests := requests[trace := Events(trace) + [e]];
    }

    method GetSummary(trace: string) returns (summary: Summary)
      ensures summary == SummaryOf(Events(trace))
    {
      hide *;
      var events := Events(trace);
      var llmCalls, totalTokens, errors, usage, reported := 0, 0, 0, [], 0.0;
      NothingCounted();
      assert events[..0] == [];
      for n := 0 to |events|
        invariant usage == UsageOf(events[..n]) && errors == Errors(events[..n]) && reported == Reported(events[..n])
        invariant llmCalls == AllTokens(events[..n]).calls && totalTokens == AllTokens(events[..n]).total
      {
        var e := events[n];
        assert events[..n + 1] == events[..n] + [e];
        CountStep(events[..n], e);
        if e.ReportsDuration() {
          reported := DurationReported(e);
        }
        if e.EndsLlmCall() {
          llmCalls := llmCalls + 1;
          totalTokens := totalTokens + e.tokens;
          usage := Charge(usage, e, events[..n]);
        } else {
          OtherStep(events[..n], e);
        }
        if e.event == "error" {
          errors := errors + 1;
        }
      }
      assert events[..|events|] == events;
      SummaryParts(events);
      summary := Summary(Round1(DurationOf(events, reported)), llmCalls, totalTokens, usage, errors, events);
    }

    /** Moves the summary of a trace to the bounded history and forgets its events. */
    method Finalize(trace: string)
      modifies this
      ensures Events(trace) == []
      ensures forall other :: other != trace ==> Events(other) == old(Events(other))
      ensures var all := old(history) + [SummaryOf(old(Events(trace)))];
              history == if |all| <= historyLimit then all else all[|all| - historyLimit..]
      ensures old(|history|) <= historyLimit ==> |history| <= historyLimit
    {
      var summary := GetSummary(trace);
      history := history + [summary];
      if |history| > historyLimit {
        history := history[|history| - historyLimit..];
      }
      requests := requests - {trace};
    }
  }
}
