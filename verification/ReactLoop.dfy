/** The ReAct graph: its nodes, its routing, and how long it can run. */
module ReactLoop {
  import opened Options
  import opened Text

  datatype Node =
    | PrepareContext | Reason | SelectSkill | LoadGuidance | DecideAction
    | CallTool | AskUser | Observe | Finalize | End

  datatype Role = System | Assistant | Tool

  datatype Message = Message(role: Role, content: string)

  /** What a reply decides; an empty string is a missing value. */
  datatype Decision = Decision(action: string, skill: string, tools: seq<string>)

  /** What text parses to as JSON, what a skill's guidance is, and what a tool answers into a message position. */
  datatype World = World(json: string -> Option<Decision>, guidance: string -> string, run: (nat, string) -> string,
                         hasGateway: bool)

  /** Without the fence of a code block: its first line, and the closing mark if there is one. */
  function Unfenced(text: string): string {
    var t := Strip(text);
    if "```" <= t then
      var body := AfterFirstLine(t);
      if |body| >= 3 && body[|body| - 3..] == "```" then Strip(body[..|body| - 3]) else body
    else t
  }

  function AfterFirstLine(text: string): string {
    if text == "" then "" else if text[0] == '\n' then text[1..] else AfterFirstLine(text[1..])
  }

  lemma {:induction false} FirstLineEnds(line: string, rest: string)
    requires '\n' !in line
    ensures AfterFirstLine(line + "\n" + rest) == rest && AfterFirstLine(line) == ""
  {
    var text := line + "\n" + rest;
    if line == "" {
      assert text[0] == '\n' && text[1..] == rest;
    } else {
      assert text[0] == line[0] && text[1..] == line[1..] + "\n" + rest;
      FirstLineEnds(line[1..], rest);
    }
  }

  /** The decision is read from what is between the fences, or after the first one if there is no second. */
  lemma FenceIsRemoved(text: string, info: string, body: string)
    requires '\n' !in info
    ensures Strip(text) == "```" + info + "\n" + (body + "```") ==> Unfenced(text) == Strip(body)
    ensures Strip(text) == "```" + info + "\n" + body && (|body| < 3 || body[|body| - 3..] != "```") ==>
              Unfenced(text) == body
    ensures !("```" <= Strip(text)) ==> Unfenced(text) == Strip(text)
  {
    hide Strip;
    var first := "```" + info;
    FirstLineEnds(first, body + "```");
    FirstLineEnds(first, body);
    assert (body + "```")[|body + "```"| - 3..] == "```" && (body + "```")[..|body|] == body;
    assert "```" <= first && first <= first + "\n" + body && first <= first + "\n" + (body + "```");
  }

  /** `_extract_llm_decision`: text that is not JSON is a draft, and names no tools. */
  function Decided(world: World, text: string): Decision {
    var parsed := world.json(Unfenced(text));
    if parsed.Some? then parsed.value else Decision("finalize", "", [])
  }

  datatype AgentState = AgentState(iteration: int, maxIterations: int, status: string, action: string, skill: string,
                                   messages: seq<Message>)

  /** The node to run next; `ran` lists the tools that were called, `reasons`, `calls` and `asks` count three nodes. */
  datatype State = State(node: Node, agent: AgentState, ran: seq<string>, reasons: nat, calls: nat, asks: nat)

  function Fresh(maxIterations: int): State {
    State(PrepareContext, AgentState(0, maxIterations, "running", "", "", []), [], 0, 0, 0)
  }

  /** The text `call_tool` and `ask_user` take the decision from. */
  function LastText(a: AgentState): string {
    if a.messages == [] then "" else a.messages[|a.messages| - 1].content
  }

  function RouteAfterDecide(a: AgentState): Node {
    if a.status == "done" || a.status == "failed" then Finalize
    else if a.action == "call_tool" then CallTool
    else if a.action == "ask_user" then AskUser
    else Finalize
  }

  function RouteAfterCall(a: AgentState): Node {
    if a.iteration >= a.maxIterations then Finalize else Reason
  }

  /** The answers of `tools`, for the message positions from `at` on. */
  function ToolMessages(world: World, at: nat, tools: seq<string>): seq<Message> {
    seq(|tools|, i requires 0 <= i < |tools| => Message(Tool, world.run(at + i, tools[i])))
  }

  /** `call_tool` with a gateway: each answer is appended before the next tool runs. */
  method CallTools(world: World, a: AgentState) returns (b: AgentState)
    requires world.hasGateway
    ensures forall s: State, reply: string :: s.node == CallTool && s.agent == a ==> Next(world, s, reply).agent == b
    ensures |b.messages| == |a.messages| + |Decided(world, LastText(a)).tools| && a.messages <= b.messages
    ensures forall i :: |a.messages| <= i < |b.messages| ==>
              b.messages[i] == Message(Tool, world.run(i, Decided(world, LastText(a)).tools[i - |a.messages|]))
  {
    var tools := Decided(world, LastText(a)).tools;
    var messages := a.messages;
    for n := 0 to |tools|
      invariant messages == a.messages + ToolMessages(world, |a.messages|, tools[..n])
    {
      messages := messages + [Message(Tool, world.run(|messages|, tools[n]))];
    }
    assert tools[..|tools|] == tools;
    b := a.(messages := messages, action := "");
  }

  /** Runs one node; `reply` is the model's answer where it is asked. */
  function Next(world: World, s: State, reply: string): State {
    var a := s.agent;
    match s.node
    case PrepareContext => s.(node := Reason, agent := a.(messages := [Message(System, reply)]))
    case Reason =>
      s.(node := SelectSkill, reasons := s.reasons + 1,
         agent := a.(messages := a.messages + [Message(Assistant, reply)], skill := Decided(world, reply).skill,
                     action := Decided(world, reply).action, iteration := a.iteration + 1))
    case SelectSkill => s.(node := LoadGuidance)
    case LoadGuidance =>
      s.(node := DecideAction,
         agent := if a.skill != "" && world.guidance(a.skill) != ""
                  then a.(messages := a.messages + [Message(System, world.guidance(a.skill))]) else a)
    case DecideAction => s.(node := RouteAfterDecide(a))
    case CallTool =>
      if !world.hasGateway then s.(node := Observe, calls := s.calls + 1, agent := a.(action := "finalize"))
      else
        var tools := Decided(world, LastText(a)).tools;
        s.(node := Observe, calls := s.calls + 1, ran := s.ran + tools,
           agent := a.(messages := a.messages + ToolMessages(world, |a.messages|, tools), action := ""))
    case AskUser => s.(node := Reason, asks := s.asks + 1, agent := a.(action := "", status := "waiting_for_user"))
    case Observe =>
      var b := a.(status := if a.iteration >= a.maxIterations then "done" else "running");
      s.(node := RouteAfterCall(b), agent := b)
    case Finalize => s.(node := End, agent := a.(status := "done"))
    case End => s
  }

  function Run(world: World, s: State, replies: seq<string>): State {
    if replies == [] then s else Next(world, Run(world, s, replies[..|replies| - 1]), replies[|replies| - 1])
  }

  function Bound(maxIterations: int): nat {
    if maxIterations < 1 then 1 else maxIterations
  }

  predicate Thinking(node: Node) {
    node.SelectSkill? || node.LoadGuidance? || node.DecideAction?
  }

  /** A tool node was entered this often; the next one may be entered only below the limit. */
  predicate Inv(s: State) {
    var a := s.agent;
    && a.iteration == s.reasons
    && s.calls <= Bound(a.maxIterations)
    && (s.node.PrepareContext? || s.node.Reason? ==> s.reasons == s.calls + s.asks)
    && (Thinking(s.node) || s.node.CallTool? || s.node.AskUser? ==> s.reasons == s.calls + s.asks + 1)
    && (s.node.Observe? ==> s.reasons == s.calls + s.asks)
    && (s.node.Finalize? || s.node.End? ==> s.reasons <= s.calls + s.asks + 1)
    && (!s.node.Observe? && !s.node.Finalize? && !s.node.End? ==> s.calls < Bound(a.maxIterations))
  }

  /** Steps left if nothing is asked; each question adds five. */
  function Rank(s: State): int {
    var left := 6 * (Bound(s.agent.maxIterations) + s.asks - s.reasons);
    match s.node
    case PrepareContext => left + 3
    case Reason => left + 2
    case SelectSkill => left + 7
    case LoadGuidance => left + 6
    case DecideAction => left + 5
    case CallTool => left + 4
    case AskUser => left + 4
    case Observe => left + 3
    case Finalize => 1
    case End => 0
  }

  lemma NextKeeps(world: World, s: State, reply: string)
    requires Inv(s)
    ensures Inv(Next(world, s, reply)) && Next(world, s, reply).agent.maxIterations == s.agent.maxIterations
    ensures Rank(s) >= 0 && (s.node != End ==> Rank(s) >= 1)
    ensures var t := Next(world, s, reply); s.node != End ==> Rank(t) - 5 * t.asks < Rank(s) - 5 * s.asks
  {
    hide Decided, ToolMessages, RouteAfterDecide;
    Decides(s.agent);
  }

  lemma Decides(a: AgentState)
    ensures RouteAfterDecide(a).CallTool? || RouteAfterDecide(a).AskUser? || RouteAfterDecide(a).Finalize?
  {
  }

  lemma {:induction false} RunKeeps(world: World, max: int, replies: seq<string>)
    ensures var t := Run(world, Fresh(max), replies);
            && Inv(t) && t.agent.maxIterations == max
            && Rank(t) >= 0 && (t.node != End ==> Rank(t) >= 1)
            && (t.node != End ==> |replies| + Rank(t) <= 6 * Bound(max) + 3 + 5 * t.asks)
  {
    if replies != [] {
      var before := Run(world, Fresh(max), replies[..|replies| - 1]);
      RunKeeps(world, max, replies[..|replies| - 1]);
      NextKeeps(world, before, replies[|replies| - 1]);
      NextKeeps(world, Run(world, Fresh(max), replies), "");
    } else {
      NextKeeps(world, Fresh(max), "");
    }
  }

  /**
   * However often the user is asked, the tool node runs at most max(1, max_iterations) times; the reasoning node at
   * most once more for each question; and every run that does not keep asking reaches the end.
   */
  lemma LoopIsBounded(world: World, max: int, replies: seq<string>)
    ensures var t := Run(world, Fresh(max), replies);
            && t.calls <= Bound(max)
            && t.reasons <= Bound(max) + t.asks
            && (|replies| >= 6 * Bound(max) + 3 + 5 * t.asks ==> t.node == End)
  {
    RunKeeps(world, max, replies);
  }

  function Calling(n: nat): seq<string> {
    seq(n, _ => "call")
  }

  function Round(world: World, s: State): State {
    var decided := Next(world, Next(world, Next(world, Next(world, s, "call"), "call"), "call"), "call");
    Next(world, Next(world, decided, "call"), "call")
  }

  lemma RoundCalls(world: World, s: State)
    requires s.node == Reason && s.agent.status == "running" && Decided(world, "call").action == "call_tool"
    ensures var t := Round(world, s);
            && t.calls == s.calls + 1 && t.reasons == s.reasons + 1 && t.asks == s.asks
            && t.agent.iteration == s.agent.iteration + 1 && t.agent.maxIterations == s.agent.maxIterations
            && (t.agent.iteration < t.agent.maxIterations ==> t.node == Reason && t.agent.status == "running")
  {
    hide Decided, ToolMessages;
    var thought := Next(world, s, "call");
    assert thought.agent.action == "call_tool" && thought.node == SelectSkill;
    var loaded := Next(world, Next(world, thought, "call"), "call");
    assert loaded.node == DecideAction && loaded.agent.action == "call_tool" && loaded.agent.status == "running";
    StillRunning();
    assert Next(world, loaded, "call").node == CallTool;
  }

  lemma StillRunning()
    ensures "running" != "done" && "running" != "failed"
  {
    assert |"running"| == 7;
  }

  lemma CallingNext(world: World, s: State, n: nat)
    ensures Run(world, s, Calling(n + 1)) == Next(world, Run(world, s, Calling(n)), "call")
  {
    assert Calling(n + 1)[..n] == Calling(n);
  }

  lemma CallingRound(world: World, s: State, n: nat)
    ensures Run(world, s, Calling(n + 6)) == Round(world, Run(world, s, Calling(n)))
  {
    hide Next, Run;
    CallingNext(world, s, n);
    CallingNext(world, s, n + 1);
    CallingNext(world, s, n + 2);
    CallingNext(world, s, n + 3);
    CallingNext(world, s, n + 4);
    CallingNext(world, s, n + 5);
  }

  /** The bound on tool runs is met by a model that always calls tools. */
  lemma {:induction false} AlwaysCallingMeetsTheBound(world: World, max: int, k: nat)
    requires Decided(world, "call").action == "call_tool" && k <= Bound(max)
    ensures var t := Run(world, Fresh(max), Calling(1 + 6 * k));
            && t.calls == k && t.agent.iteration == k && t.agent.maxIterations == max
            && (k < Bound(max) ==> t.node == Reason && t.agent.status == "running")
  {
    hide Next, Run, Round, Fresh;
    if k == 0 {
      FirstStep(world, max);
    } else {
      AlwaysCallingMeetsTheBound(world, max, k - 1);
      var before := Run(world, Fresh(max), Calling(1 + 6 * (k - 1)));
      RoundCalls(world, before);
      CallingRound(world, Fresh(max), 1 + 6 * (k - 1));
    }
  }

  lemma FirstStep(world: World, max: int)
    ensures var t := Run(world, Fresh(max), Calling(1));
            && t.calls == 0 && t.agent.iteration == 0 && t.agent.maxIterations == max
            && t.node == Reason && t.agent.status == "running"
  {
    CallingNext(world, Fresh(max), 0);
  }

  /** From a reasoning step to after the tools, with the text that was loaded as guidance in between. */
  function UpToTools(world: World, s: State, reply: string): State {
    Next(world, Next(world, Next(world, Next(world, Next(world, s, reply), ""), ""), ""), "")
  }

  /** The guidance that follows a decision, if there is any. */
  function Loaded(world: World, reply: string): string {
    if Decided(world, reply).skill == "" then "" else world.guidance(Decided(world, reply).skill)
  }

  /**
   * The tools that a decision names are the ones that run if and only if no guidance is loaded after it or the
   * guidance parses to the same tools: once there is guidance, that is where the tools are read from.
   */
  lemma GuidanceHidesTheDecision(world: World, s: State, reply: string)
    requires s.node == Reason && s.agent.status != "done" && s.agent.status != "failed"
    requires Decided(world, reply).action == "call_tool" && world.hasGateway
    ensures var t, g, named := UpToTools(world, s, reply), Loaded(world, reply), Decided(world, reply).tools;
            && t.node == Observe
            && t.ran == s.ran + (if g == "" then named else Decided(world, g).tools)
            && (t.ran == s.ran + named <==> g == "" || Decided(world, g).tools == named)
  {
    hide Decided;
    var t, g, named := UpToTools(world, s, reply), Loaded(world, reply), Decided(world, reply).tools;
    assert t.ran == s.ran + if g == "" then named else Decided(world, g).tools;
    if t.ran == s.ran + named {
      assert t.ran[|s.ran|..] == named;
    }
  }

  /** What a reply decides is what comes next: tools, a question to the user, or the end. */
  lemma DecisionIsRouted(world: World, s: State, reply: string)
    requires s.node == Reason && s.agent.status != "done" && s.agent.status != "failed"
    ensures var t := Next(world, Next(world, Next(world, Next(world, s, reply), ""), ""), "");
            var action := Decided(world, reply).action;
            && (t.node == CallTool <==> action == "call_tool")
            && (t.node == AskUser <==> action == "ask_user")
            && (t.node == Finalize <==> action != "call_tool" && action != "ask_user")
            && t.ran == s.ran
  {
    hide Decided;
    assert |"call_tool"| == 9 && |"ask_user"| == 8;
  }

  /** Guidance in plain text, which is not JSON: none of the tools that the decision names run. */
  lemma PlainGuidanceRunsNothing(world: World, s: State, reply: string)
    requires s.node == Reason && s.agent.status != "done" && s.agent.status != "failed"
    requires Decided(world, reply).action == "call_tool" && world.hasGateway
    requires Loaded(world, reply) != "" && world.json(Unfenced(Loaded(world, reply))).None?
    ensures UpToTools(world, s, reply).ran == s.ran
    ensures UpToTools(world, s, reply).agent.messages ==
            s.agent.messages + [Message(Assistant, reply), Message(System, Loaded(world, reply))]
  {
    GuidanceHidesTheDecision(world, s, reply);
    hide Unfenced;
    var a := s.agent.messages + [Message(Assistant, reply)] + [Message(System, Loaded(world, reply))];
    assert a[|a| - 1].content == Loaded(world, reply);
  }

  /** "go" decides to search, with a skill whose guidance is a sentence. */
  function GuidedWorld(): World {
    World((text: string) => if text == "go" then Some(Decision("call_tool", "web", ["search"])) else None,
          _ => "Read first.", (_, _) => "found", true)
  }

  /** In that world the search does not run. */
  lemma SearchIsLost()
    ensures var world := GuidedWorld();
            var s := Next(world, Fresh(20), "");
            Decided(world, "go").tools == ["search"] && UpToTools(world, s, "go").ran == []
  {
    PlainText();
    hide Unfenced;
    StillRunning();
    assert "web" != "" && |"Read first."| == 11;
    PlainGuidanceRunsNothing(GuidedWorld(), Next(GuidedWorld(), Fresh(20), ""), "go");
  }

  lemma PlainText()
    ensures Unfenced("go") == "go" && Unfenced("Read first.") == "Read first."
  {
    StripFacts("go");
    StripFacts("Read first.");
    assert "go"[0] == 'g' && "Read first."[0] == 'R' && "Read first."[10] == '.' && "go"[1] == 'o';
    assert "```"[0] == '`';
  }
}
