/** The cost ledger, the usage estimate, and their agreement. */
module Accounting {
  import opened Monitoring
  import opened Rounding

  // ---------------------------------------------------------------------------------
  // The ledger

  datatype CallNote = ModelNote(role: string, used: Tokens) | ToolNote(toolCallId: string, message: string)

  datatype CallType = Model | Tool | Other(text: string)

  datatype CallRecord = CallRecord(stage: string, callType: CallType, name: string, cost: real, ms: int,
                                   resultKind: string, command: string, note: CallNote)

  datatype StageRecord = StageRecord(stage: string, status: string, ms: int, cost: real,
                                     modelCalls: int, toolCalls: int)

  datatype Ledger = Ledger(total: real, model: real, tool: real, stages: seq<StageRecord>, calls: seq<CallRecord>)

  const NEW_LEDGER := Ledger(0.0, 0.0, 0.0, [], [])

  function AppendStage(l: Ledger, r: StageRecord): Ledger {
    Ledger(Round6(l.total + r.cost), Round6(l.model), Round6(l.tool), l.stages + [r], l.calls)
  }

  function AppendCall(l: Ledger, r: CallRecord): Ledger {
    var billed := l.(total := Round6(l.total + r.cost), calls := l.calls + [r]);
    if r.callType == Model then billed.(model := Round6(l.model + r.cost))
    else if r.callType == Tool then billed.(tool := Round6(l.tool + r.cost))
    else billed
  }

  datatype Posting = StagePosting(s: StageRecord) | CallPosting(c: CallRecord) {
    function Cost(): real {
      match this
      case StagePosting(s) => s.cost
      case CallPosting(c) => c.cost
    }

    function CostOfType(callType: CallType): real {
      if CallPosting? && c.callType == callType then c.cost else 0.0
    }
  }

  function Post(l: Ledger, p: Posting): Ledger {
    match p
    case StagePosting(s) => AppendStage(l, s)
    case CallPosting(c) => AppendCall(l, c)
  }

  function PostAll(l: Ledger, ps: seq<Posting>): Ledger {
    if ps == [] then l else Post(PostAll(l, ps[..|ps| - 1]), ps[|ps| - 1])
  }

  function Cost(ps: seq<Posting>): real {
    if ps == [] then 0.0 else Cost(ps[..|ps| - 1]) + ps[|ps| - 1].Cost()
  }

  function CostOfType(ps: seq<Posting>, callType: CallType): real {
    if ps == [] then 0.0 else CostOfType(ps[..|ps| - 1], callType) + ps[|ps| - 1].CostOfType(callType)
  }

  ghost predicate WholeMicros(ps: seq<Posting>) {
    forall p :: p in ps ==> IsMicro(p.Cost())
  }

  lemma OnePostingDrifts(l: Ledger, p: Posting)
    ensures var r := Post(l, p);
            && Within(r.total, l.total + p.Cost(), 1)
            && Within(r.model, l.model + p.CostOfType(Model), 1)
            && Within(r.tool, l.tool + p.CostOfType(Tool), 1)
  {
    hide Round6;
  }

  lemma OnePostingIsExact(l: Ledger, p: Posting)
    requires IsMicro(p.Cost())
    ensures var r := Post(l, p);
            && IsMicro(r.total)
            && (IsMicro(l.total) ==> r.total == l.total + p.Cost())
            && (IsMicro(l.model) ==> IsMicro(r.model) && r.model == l.model + p.CostOfType(Model))
            && (IsMicro(l.tool) ==> IsMicro(r.tool) && r.tool == l.tool + p.CostOfType(Tool))
  {
    hide Round6, IsMicro;
    SumStaysMicro(l.total, p.Cost());
    SumStaysMicro(l.model, p.Cost());
    SumStaysMicro(l.tool, p.Cost());
  }

  lemma LastPosting(l: Ledger, ps: seq<Posting>)
    requires ps != []
    ensures var init, p := ps[..|ps| - 1], ps[|ps| - 1];
            && PostAll(l, ps) == Post(PostAll(l, init), p)
            && Cost(ps) == Cost(init) + p.Cost()
            && forall t :: CostOfType(ps, t) == CostOfType(init, t) + p.CostOfType(t)
  {
  }

  lemma NothingPosted(l: Ledger)
    ensures PostAll(l, []) == l && Cost([]) == 0.0 && forall t :: CostOfType([], t) == 0.0
    ensures forall x: real :: Within(x, x, 0)
  {
  }

  /** However long the run, each of the three balances is within half a millionth per posting of the exact sum. */
  lemma {:induction false} DriftIsBounded(l: Ledger, ps: seq<Posting>)
    ensures Within(PostAll(l, ps).total, l.total + Cost(ps), |ps|)
    ensures Within(PostAll(l, ps).model, l.model + CostOfType(ps, Model), |ps|)
    ensures Within(PostAll(l, ps).tool, l.tool + CostOfType(ps, Tool), |ps|)
  {
    hide *;
    if ps == [] {
      NothingPosted(l);
    } else {
      var init, p := ps[..|ps| - 1], ps[|ps| - 1];
      var before := PostAll(l, init);
      LastPosting(l, ps);
      DriftIsBounded(l, init);
      OnePostingDrifts(before, p);
      Triangle(Post(before, p).total, before.total, l.total + Cost(init), p.Cost(), |init|);
      Triangle(Post(before, p).model, before.model, l.model + CostOfType(init, Model), p.CostOfType(Model), |init|);
      Triangle(Post(before, p).tool, before.tool, l.tool + CostOfType(init, Tool), p.CostOfType(Tool), |init|);
    }
  }

  function HalfMicroCalls(n: nat): seq<Posting> {
    var call := CallRecord("llm:llm", Model, "llm", Halves(1), 0, "completed", "", ModelNote("llm", NO_TOKENS));
    seq(n, _ => CallPosting(call))
  }

  /** The bound is reached: n charges of half a millionth are all rounded away. */
  lemma {:induction false} DriftIsReached(n: nat)
    ensures Cost(HalfMicroCalls(n)) == Halves(n) && PostAll(NEW_LEDGER, HalfMicroCalls(n)).total == 0.0
  {
    if n > 0 {
      DriftIsReached(n - 1);
      assert HalfMicroCalls(n)[..n - 1] == HalfMicroCalls(n - 1);
      assert Round6(Halves(1)) == 0.0;
    }
  }

  /**
   * Whole-micro postings drift at most once, when the opening balance is not whole itself: then the first
   * posting rounds it, and from there on the ledger is exact.
   */
  lemma {:induction false} WholeMicrosDriftOnce(l: Ledger, ps: seq<Posting>)
    requires WholeMicros(ps)
    ensures var r := PostAll(l, ps);
            && Within(r.total, l.total + Cost(ps), 1)
            && (ps != [] || IsMicro(l.total) ==> IsMicro(r.total))
            && (IsMicro(l.total) ==> r.total == l.total + Cost(ps))
            && (IsMicro(l.model) ==> IsMicro(r.model) && r.model == l.model + CostOfType(ps, Model))
            && (IsMicro(l.tool) ==> IsMicro(r.tool) && r.tool == l.tool + CostOfType(ps, Tool))
  {
    if ps != [] {
      var p := ps[|ps| - 1];
      var before := PostAll(l, ps[..|ps| - 1]);
      WholeMicrosDriftOnce(l, ps[..|ps| - 1]);
      hide Post, IsMicro;
      assert p in ps;
      OnePostingDrifts(before, p);
      OnePostingIsExact(before, p);
    }
  }

  lemma SumStaysMicro(x: real, y: real)
    requires IsMicro(y)
    ensures IsMicro(x) ==> IsMicro(x + y)
  {
    if IsMicro(x) {
      MicroSum(x, y);
    }
  }

  lemma PostOne(l: Ledger, ps: seq<Posting>, p: Posting)
    ensures PostAll(l, ps + [p]) == Post(PostAll(l, ps), p)
  {
    assert (ps + [p])[..|ps|] == ps;
  }

  lemma {:induction false} PostInTwoSteps(l: Ledger, ps: seq<Posting>, qs: seq<Posting>)
    ensures PostAll(l, ps + qs) == PostAll(PostAll(l, ps), qs) && Cost(ps + qs) == Cost(ps) + Cost(qs)
    ensures forall t :: CostOfType(ps + qs, t) == CostOfType(ps, t) + CostOfType(qs, t)
  {
    if qs == [] {
      assert ps + qs == ps;
    } else {
      assert (ps + qs)[..|ps + qs| - 1] == ps + qs[..|qs| - 1];
      PostInTwoSteps(l, ps, qs[..|qs| - 1]);
    }
  }

  // ---------------------------------------------------------------------------------
  // What the usage costs

  type Pricing = map<string, map<string, real>>

  /** The prices of a model; a missing or empty entry falls back to the default one. */
  function PricesFor(pricing: Pricing, model: string): map<string, real> {
    if model in pricing && pricing[model] != map[] then pricing[model]
    else if "default" in pricing then pricing["default"]
    else map[]
  }

  function Rate(prices: map<string, real>, metric: string): real {
    if metric in prices then prices[metric] else 0.0
  }

  /** The exact price: by input and output tokens if either is known, else by all tokens. */
  function Tariff(prices: map<string, real>, used: Tokens): real {
    if used.input != 0 || used.output != 0 then
      (used.input as real * Rate(prices, "input_per_1m") + used.output as real * Rate(prices, "output_per_1m")) / MICRO
    else used.total as real * Rate(prices, "total_per_1m") / MICRO
  }

  lemma PerMillion(tokens: real, rate: real)
    ensures tokens / MICRO * rate == tokens * rate / MICRO
  {
    var t := tokens / MICRO;
    assert tokens == t * MICRO;
    assert tokens * rate == (t * rate) * MICRO;
  }

  /** The price as the code computes it, before rounding. */
  function Price(prices: map<string, real>, used: Tokens): (price: real)
    ensures price == Tariff(prices, used)
  {
    var input, output := Rate(prices, "input_per_1m"), Rate(prices, "output_per_1m");
    PerMillion(used.input as real, input);
    PerMillion(used.output as real, output);
    PerMillion(used.total as real, Rate(prices, "total_per_1m"));
    if used.input != 0 || used.output != 0 then
      used.input as real / MICRO * input + used.output as real / MICRO * output
    else used.total as real / MICRO * Rate(prices, "total_per_1m")
  }

  /** `estimate_cost_usd`; without prices the amount is 0 as well, since every rate is. */
  function EstimateCostUsd(pricing: Pricing, model: string, used: Tokens): (cost: real)
    ensures IsMicro(cost)
    ensures Within(cost, Tariff(PricesFor(pricing, model), used), 1)
    ensures PricesFor(pricing, model) == map[] ==> cost == 0.0
  {
    hide Price, Round6, PricesFor, Rate;
    var prices := PricesFor(pricing, model);
    if prices == map[] then
      FreeOfCharge(used);
      0.0
    else Round6(Price(prices, used))
  }

  lemma FreeOfCharge(used: Tokens)
    ensures Tariff(map[], used) == 0.0
  {
  }

  /** A model's own prices, if it has any, decide alone; otherwise the default ones do. */
  lemma OwnPricesDecide(pricing: Pricing, other: Pricing, model: string, used: Tokens)
    ensures model in pricing && model in other && pricing[model] == other[model] != map[] ==>
              EstimateCostUsd(pricing, model, used) == EstimateCostUsd(other, model, used)
    ensures (model in pricing ==> pricing[model] == map[]) && "default" in pricing ==>
              EstimateCostUsd(pricing, model, used) == EstimateCostUsd(pricing, "default", used)
    ensures (model in pricing ==> pricing[model] == map[]) && "default" !in pricing ==>
              EstimateCostUsd(pricing, model, used) == 0.0
  {
    hide Price, Round6;
  }

  /** In numbers: the prices per million tokens of input and of output, or of all tokens if neither is known. */
  lemma CostInNumbers(pricing: Pricing, model: string, used: Tokens, input: real, output: real, total: real)
    requires model in pricing
    requires "input_per_1m" in pricing[model] && pricing[model]["input_per_1m"] == input
    requires "output_per_1m" in pricing[model] && pricing[model]["output_per_1m"] == output
    requires "total_per_1m" in pricing[model] && pricing[model]["total_per_1m"] == total
    ensures used.input != 0 || used.output != 0 ==>
              Within(EstimateCostUsd(pricing, model, used),
                     (used.input as real * input + used.output as real * output) / 1000000.0, 1)
    ensures used.input == 0 && used.output == 0 ==>
              Within(EstimateCostUsd(pricing, model, used), used.total as real * total / 1000000.0, 1)
  {
    hide EstimateCostUsd;
    assert pricing[model] != map[];
  }

  /** The record `merge_llm_usage_into_ledger` appends for one bucket. */
  function UsageRecord(pricing: Pricing, u: ModelUsage): CallRecord {
    var role := if u.role == "" then "llm" else u.role;
    CallRecord("llm:" + role, Model, if u.model == "" then role else u.model,
               EstimateCostUsd(pricing, u.model, u.used), 0, "completed", "", ModelNote(role, u.used))
  }

  function UsagePostings(pricing: Pricing, usage: seq<ModelUsage>): (ps: seq<Posting>)
    ensures WholeMicros(ps)
  {
    seq(|usage|, i requires 0 <= i < |usage| => CallPosting(UsageRecord(pricing, usage[i])))
  }

  /** One record for each bucket, in order, with its role, its model, its tokens and what they cost. */
  lemma EachBucketIsRecorded(pricing: Pricing, usage: seq<ModelUsage>, i: nat)
    requires i < |usage|
    ensures |UsagePostings(pricing, usage)| == |usage| && UsagePostings(pricing, usage)[i].CallPosting?
    ensures var u, c := usage[i], UsagePostings(pricing, usage)[i].c;
            && c.callType == Model && c.note.ModelNote? && c.note.used == u.used
            && c.cost == EstimateCostUsd(pricing, u.model, u.used)
            && (u.role != "" ==> c.stage == "llm:" + u.role && c.note.role == u.role)
            && (u.role == "" ==> c.stage == "llm:llm" && c.note.role == "llm")
            && (u.model != "" ==> c.name == u.model)
            && (u.model == "" ==> c.name == c.note.role)
  {
    hide EstimateCostUsd;
    assert "llm:" + "llm" == "llm:llm";
  }

  method MergeLlmUsage(ledger: Ledger, usage: seq<ModelUsage>, pricing: Pricing) returns (active: Ledger)
    ensures active == PostAll(ledger, UsagePostings(pricing, usage))
  {
    active := ledger;
    ghost var ps := UsagePostings(pricing, usage);
    for n := 0 to |usage|
      invariant active == PostAll(ledger, ps[..n])
    {
      hide Round6, EstimateCostUsd;
      assert ps[..n + 1][..n] == ps[..n];
      active := AppendCall(active, UsageRecord(pricing, usage[n]));
    }
    assert ps[..|usage|] == ps;
  }

  lemma PostedSoFar(pricing: Pricing, usage: seq<ModelUsage>, n: nat)
    requires n < |usage|
    ensures var ps := UsagePostings(pricing, usage);
            var cost := EstimateCostUsd(pricing, usage[n].model, usage[n].used);
            && |ps| == |usage|
            && Cost(ps[..n + 1]) == Cost(ps[..n]) + cost
            && CostOfType(ps[..n + 1], Model) == CostOfType(ps[..n], Model) + cost
  {
    hide Round6, EstimateCostUsd;
    var ps := UsagePostings(pricing, usage);
    assert ps[..n + 1][..n] == ps[..n];
  }

  /** The estimate for a whole run is what its ledger postings cost, to the last digit. */
  method EstimateCostFromUsage(usage: seq<ModelUsage>, pricing: Pricing) returns (total: real)
    ensures total == Cost(UsagePostings(pricing, usage)) == CostOfType(UsagePostings(pricing, usage), Model)
  {
    total := 0.0;
    ghost var ps := UsagePostings(pricing, usage);
    for n := 0 to |usage|
      invariant total == Cost(ps[..n]) == CostOfType(ps[..n], Model) && IsMicro(total)
    {
      hide *;
      PostedSoFar(pricing, usage, n);
      var cost := EstimateCostUsd(pricing, usage[n].model, usage[n].used);
      MicroSum(total, cost);
      total := total + cost;
    }
    assert ps[..|usage|] == ps;
    total := Round6(total);
  }

  // ---------------------------------------------------------------------------------
  // Tool events

  /** A tool result's text, parsed; without a readable one the kind may be empty. */
  datatype Parsed = Parsed(kind: string, command: string, message: string)

  /** A tool event of the log; what an event of its type does not carry is empty. */
  datatype LogEvent = LogEvent(eventType: string, stage: string, name: string, target: string, ms: int,
                               toolCallId: string, error: string, parsed: Parsed)

  predicate IsTerminal(e: LogEvent) {
    e.eventType == "tool.completed" || e.eventType == "tool.failed"
  }

  function Or(s: string, fallback: string): string {
    if s == "" then fallback else s
  }

  function ToolRecord(e: LogEvent): CallRecord {
    CallRecord(Or(e.stage, "unknown"), Tool, Or(e.name, "tool"), 0.0, e.ms,
               Or(e.parsed.kind, if e.eventType == "tool.completed" then "completed" else "failed"), e.parsed.command,
               ToolNote(e.toolCallId, Or(e.parsed.message, e.error)))
  }

  function ToolPostings(events: seq<LogEvent>): (ps: seq<Posting>)
    ensures WholeMicros(ps) && Cost(ps) == CostOfType(ps, Tool) == CostOfType(ps, Model) == 0.0
  {
    if events == [] then []
    else
      var before := ToolPostings(events[..|events| - 1]);
      var e := events[|events| - 1];
      if IsTerminal(e) then
        var ps := before + [CallPosting(ToolRecord(e))];
        assert ps[..|before|] == before;
        ps
      else before
  }

  method MergeToolEvents(ledger: Ledger, events: seq<LogEvent>) returns (active: Ledger)
    ensures active == PostAll(ledger, ToolPostings(events))
  {
    active := ledger;
    for n := 0 to |events|
      invariant active == PostAll(ledger, ToolPostings(events[..n]))
    {
      hide Round6, ToolRecord, AppendCall, PostAll;
      assert events[..n + 1][..n] == events[..n];
      var e := events[n];
      ghost var before := ToolPostings(events[..n]);
      if e.eventType == "tool.completed" || e.eventType == "tool.failed" {
        PostOne(ledger, before, CallPosting(ToolRecord(e)));
        active := AppendCall(active, ToolRecord(e));
      }
    }
    assert events[..|events|] == events;
  }

  function TerminalEvents(events: seq<LogEvent>): seq<LogEvent> {
    if events == [] then []
    else
      var e := events[|events| - 1];
      TerminalEvents(events[..|events| - 1]) + if IsTerminal(e) then [e] else []
  }

  /** One tool record for each terminal event, in the order of the log. */
  lemma {:induction false} ToolPostingsAreTerminalEvents(events: seq<LogEvent>)
    ensures |ToolPostings(events)| == |TerminalEvents(events)|
    ensures forall i :: 0 <= i < |TerminalEvents(events)| ==>
              ToolPostings(events)[i] == CallPosting(ToolRecord(TerminalEvents(events)[i]))
  {
    if events != [] {
      ToolPostingsAreTerminalEvents(events[..|events| - 1]);
    }
  }

  // ---------------------------------------------------------------------------------
  // The three accountings

  datatype RunBill = RunBill(inputTokens: int, outputTokens: int, cost: real, ledger: Ledger)

  /** What a finished run reports: the tokens and the estimate of its usage, and its ledger with both merges. */
  method Settle(summary: Summary, events: seq<LogEvent>, ledger: Ledger, pricing: Pricing) returns (bill: RunBill)
    ensures bill.inputTokens == SumUsed(summary.llmUsage).input && bill.outputTokens == SumUsed(summary.llmUsage).output
    ensures bill.cost == Cost(UsagePostings(pricing, summary.llmUsage))
    ensures bill.ledger == PostAll(ledger, ToolPostings(events) + UsagePostings(pricing, summary.llmUsage))
    ensures Within(bill.ledger.total, ledger.total + bill.cost, 1)
    ensures IsMicro(ledger.total) ==> bill.ledger.total == ledger.total + bill.cost
    ensures IsMicro(ledger.model) ==> bill.ledger.model == ledger.model + bill.cost
    ensures IsMicro(ledger.tool) ==> bill.ledger.tool == ledger.tool
  {
    hide Round6, IsMicro, Post, PostAll, Cost, CostOfType, ToolPostings, UsagePostings;
    var usage := summary.llmUsage;
    var input, output := SumTokens(usage);
    var cost := EstimateCostFromUsage(usage, pricing);
    var active := MergeToolEvents(ledger, events);
    active := MergeLlmUsage(active, usage, pricing);
    ghost var ts, us := ToolPostings(events), UsagePostings(pricing, usage);
    PostInTwoSteps(ledger, ts, us);
    UsageIsNotTools(pricing, usage);
    WholeMicrosDriftOnce(ledger, ts + us);
    bill := RunBill(input, output, cost, active);
  }

  lemma {:induction false} UsageIsNotTools(pricing: Pricing, usage: seq<ModelUsage>)
    ensures CostOfType(UsagePostings(pricing, usage), Tool) == 0.0
  {
    if usage != [] {
      UsageIsNotTools(pricing, usage[..|usage| - 1]);
      assert UsagePostings(pricing, usage)[..|usage| - 1] == UsagePostings(pricing, usage[..|usage| - 1]);
    }
  }

  method SumTokens(usage: seq<ModelUsage>) returns (input: int, output: int)
    ensures input == SumUsed(usage).input && output == SumUsed(usage).output
  {
    input, output := 0, 0;
    for n := 0 to |usage|
      invariant input == SumUsed(usage[..n]).input && output == SumUsed(usage[..n]).output
    {
      assert usage[..n + 1][..n] == usage[..n];
      input, output := input + usage[n].used.input, output + usage[n].used.output;
    }
    assert usage[..|usage|] == usage;
  }

  /** The bill of a run has exactly the tokens of its finished calls, whatever the models they are grouped by. */
  method SettleTrace(collector: MonitoringCollector, trace: string, events: seq<LogEvent>, ledger: Ledger,
                     pricing: Pricing)
    returns (bill: RunBill, summary: Summary)
    ensures summary == SummaryOf(collector.Events(trace))
    ensures bill.inputTokens == AllTokens(collector.Events(trace)).input
    ensures bill.outputTokens == AllTokens(collector.Events(trace)).output
    ensures bill.ledger.calls == ledger.calls + CallsOf(ToolPostings(events) + UsagePostings(pricing, summary.llmUsage))
  {
    summary := collector.GetSummary(trace);
    BucketsConserve(collector.Events(trace));
    bill := Settle(summary, events, ledger, pricing);
    CallsArePosted(ledger, ToolPostings(events) + UsagePostings(pricing, summary.llmUsage));
  }

  function CallsOf(ps: seq<Posting>): seq<CallRecord> {
    if ps == [] then []
    else CallsOf(ps[..|ps| - 1]) + if ps[|ps| - 1].CallPosting? then [ps[|ps| - 1].c] else []
  }

  lemma {:induction false} CallsArePosted(l: Ledger, ps: seq<Posting>)
    ensures PostAll(l, ps).calls == l.calls + CallsOf(ps)
  {
    if ps != [] {
      CallsArePosted(l, ps[..|ps| - 1]);
    }
  }

  function StagesOf(ps: seq<Posting>): seq<StageRecord> {
    if ps == [] then []
    else StagesOf(ps[..|ps| - 1]) + if ps[|ps| - 1].StagePosting? then [ps[|ps| - 1].s] else []
  }

  lemma {:induction false} StagesArePosted(l: Ledger, ps: seq<Posting>)
    ensures PostAll(l, ps).stages == l.stages + StagesOf(ps)
  {
    if ps != [] {
      StagesArePosted(l, ps[..|ps| - 1]);
    }
  }
}
