/** Routing of tool calls, and the events around them. */
module Gateway {
  import opened Options
  import opened Accounting

  // ---------------------------------------------------------------------------------
  // Policy and routing

  datatype Scope = Scope(name: string, writeScope: string, resourcePattern: string) {
    /** `matches_resource` */
    predicate Matches(target: string) {
      var p := resourcePattern;
      if p == "" || p == "*" then true
      else if EndsWith(p, "/**") then p[..|p| - 3] <= target
      else if EndsWith(p, "/*") then
        var prefix := p[..|p| - 2];
        prefix <= target && '/' !in WithoutSlashes(target[|prefix|..])
      else target == p
    }
  }

  predicate EndsWith(s: string, end: string) {
    |s| >= |end| && s[|s| - |end|..] == end
  }

  /** `s.rstrip("/")` */
  function WithoutSlashes(s: string): string {
    if s != "" && s[|s| - 1] == '/' then WithoutSlashes(s[..|s| - 1]) else s
  }

  /** `path` is the call's path or file parameter, `stage` its cost stage; empty if missing. */
  datatype ToolCall = ToolCall(tool: string, path: string, stage: string)

  function ScopesFrom(allowed: seq<Scope>): map<string, Scope> {
    if allowed == [] then map[]
    else
      var last := allowed[|allowed| - 1];
      ScopesFrom(allowed[..|allowed| - 1])[last.name := last]
  }

  predicate IsAllowed(call: ToolCall, allowed: seq<Scope>) {
    var scopes := ScopesFrom(allowed);
    scopes == map[] ||
    (call.tool in scopes &&
     (scopes[call.tool].writeScope != "" && call.path != "" ==> scopes[call.tool].Matches(call.path)))
  }

  /** Without a policy everything is allowed; with one, only what its last scope for the tool covers. */
  lemma {:induction false} AllowedByLastScope(call: ToolCall, allowed: seq<Scope>)
    ensures IsAllowed(call, allowed) <==>
            allowed == [] ||
            exists i :: && 0 <= i < |allowed| && allowed[i].name == call.tool
                        && (forall j :: i < j < |allowed| ==> allowed[j].name != call.tool)
                        && (allowed[i].writeScope != "" && call.path != "" ==> allowed[i].Matches(call.path))
  {
    if allowed != [] {
      assert allowed[|allowed| - 1].name in ScopesFrom(allowed);
      var at := LastScope(allowed, call.tool);
    }
  }

  lemma {:induction false} LastScope(allowed: seq<Scope>, tool: string) returns (at: int)
    ensures at < |allowed| && forall j :: 0 <= j < |allowed| && at < j ==> allowed[j].name != tool
    ensures at < 0 ==> tool !in ScopesFrom(allowed)
    ensures at >= 0 ==>
              allowed[at].name == tool && tool in ScopesFrom(allowed) && ScopesFrom(allowed)[tool] == allowed[at]
  {
    if allowed == [] {
      at := -1;
    } else if allowed[|allowed| - 1].name == tool {
      at := |allowed| - 1;
    } else {
      at := LastScope(allowed[..|allowed| - 1], tool);
    }
  }

  lemma EndsAfter(s: string, end: string)
    ensures EndsWith(s + end, end)
  {
  }

  lemma {:induction false} SlashesRemoved(s: string)
    ensures WithoutSlashes(s) <= s
    ensures '/' !in WithoutSlashes(s) <==> forall i, j :: 0 <= i < j < |s| && s[i] == '/' ==> s[j] == '/'
  {
    if s != "" && s[|s| - 1] == '/' {
      SlashesRemoved(s[..|s| - 1]);
    }
  }

  lemma LastOfEnd(s: string, end: string)
    requires EndsWith(s, end) && end != ""
    ensures s[|s| - 1] == end[|end| - 1] && (|end| > 1 ==> s[|s| - 2] == end[|end| - 2])
  {
    assert s[|s| - |end|..][|end| - 1] == s[|s| - 1];
    assert |end| > 1 ==> s[|s| - |end|..][|end| - 2] == s[|s| - 2];
  }

  // A pattern that ends in a slash and two stars covers what begins like it; one that ends in a slash and one star
  // covers what continues it without a slash, other than at the end; one without a star covers itself only.
  lemma PatternsCover(scope: Scope, d: string, target: string)
    ensures scope.resourcePattern == "" || scope.resourcePattern == "*" ==> scope.Matches(target)
    ensures scope.resourcePattern == d + "/**" ==> (scope.Matches(target) <==> d <= target)
    ensures scope.resourcePattern == d + "/*" ==>
              (scope.Matches(target) <==>
                 d <= target && forall i, j :: |d| <= i < j < |target| && target[i] == '/' ==> target[j] == '/')
    ensures '*' !in scope.resourcePattern && scope.resourcePattern != "" ==>
              (scope.Matches(target) <==> target == scope.resourcePattern)
  {
    var p := scope.resourcePattern;
    EndsAfter(d, "/**");
    EndsAfter(d, "/*");
    if EndsWith(p, "/**") {
      LastOfEnd(p, "/**");
    }
    if EndsWith(p, "/*") {
      LastOfEnd(p, "/*");
    }
    hide EndsWith, WithoutSlashes;
    if p == d + "/*" && d <= target {
      SlashesRemoved(target[|d|..]);
      LaterSlashes(d, target);
    }
  }

  lemma LaterSlashes(d: string, target: string)
    requires d <= target
    ensures var rest := target[|d|..];
            (forall i, j :: 0 <= i < j < |rest| && rest[i] == '/' ==> rest[j] == '/') <==>
            forall i, j :: |d| <= i < j < |target| && target[i] == '/' ==> target[j] == '/'
  {
    var rest := target[|d|..];
    if forall i, j :: 0 <= i < j < |rest| && rest[i] == '/' ==> rest[j] == '/' {
      forall i, j | |d| <= i < j < |target| && target[i] == '/' ensures target[j] == '/' {
        assert rest[i - |d|] == '/' && rest[j - |d|] == target[j];
      }
    }
  }

  // A slash and one star after a directory cover no file in it: the slash before the file's name counts.
  lemma OneStarCoversNoFile(scope: Scope, d: string, file: string)
    requires scope.resourcePattern == d + "/*" && exists c :: c in file && c != '/'
    ensures !scope.Matches(d + "/" + file)
  {
    var target := d + "/" + file;
    PatternsCover(scope, d, target);
    var j :| 0 <= j < |file| && file[j] != '/';
    assert target[|d|] == '/' && target[|d| + 1 + j] == file[j];
  }

  datatype Executor = LocalExecutor | RemoteExecutor | DesktopExecutor {
    function Name(): string {
      match this
      case LocalExecutor => "local"
      case RemoteExecutor => "remote"
      case DesktopExecutor => "desktop"
    }
  }

  /** `desktopTools` are the tools of the user's desktop connection; `None` without a connection or desktop support. */
  datatype Around = Around(hasRemote: bool, desktopTools: Option<set<string>>) {
    predicate Serves(tool: string) {
      desktopTools.Some? && tool in desktopTools.value
    }
  }

  /** No executor means that the tool is unavailable. */
  datatype Route = Route(target: string, executor: Option<Executor>)

  /** A desktop connection with the tool wins, then the configured target; local is the default. */
  function RouteOf(routing: map<string, string>, tool: string, around: Around): Route {
    if around.Serves(tool) then Route("desktop", Some(DesktopExecutor))
    else if tool !in routing then Route("local", Some(LocalExecutor))
    else if routing[tool] == "desktop" then Route("desktop", None)
    else if routing[tool] == "remote" && around.hasRemote then Route("remote", Some(RemoteExecutor))
    else Route(routing[tool], Some(LocalExecutor))
  }

  /**
   * The target written to the events names the executor that runs the call, except for a tool routed to a remote
   * executor that is missing, which runs locally under the name "remote", and for a target that is not known.
   */
  lemma TargetNamesExecutor(routing: map<string, string>, tool: string, around: Around)
    requires RouteOf(routing, tool, around).executor.Some?
    ensures var route := RouteOf(routing, tool, around);
            route.target == route.executor.value.Name() <==>
            || around.Serves(tool) || tool !in routing || routing[tool] == "local"
            || (routing[tool] == "remote" && around.hasRemote)
  {
    Names();
  }

  lemma Names()
    ensures "local" != "remote" && "local" != "desktop" && "remote" != "desktop"
  {
    assert |"local"| == 5 && |"remote"| == 6 && |"desktop"| == 7;
  }

  /** Which calls each executor runs. */
  lemma EachExecutorRunsItsTools(routing: map<string, string>, tool: string, around: Around)
    ensures var runs := RouteOf(routing, tool, around).executor;
            var served := around.desktopTools.Some? && tool in around.desktopTools.value;
            && (runs == Some(DesktopExecutor) <==> served)
            && (runs == None <==> !served && tool in routing && routing[tool] == "desktop")
            && (runs == Some(RemoteExecutor) <==>
                  !served && around.hasRemote && tool in routing && routing[tool] == "remote")
            && (runs == Some(LocalExecutor) <==>
                  && !served
                  && (tool !in routing || routing[tool] != "desktop")
                  && !(around.hasRemote && tool in routing && routing[tool] == "remote"))
  {
    Names();
  }

  /** The failing case: routed to "remote" without a remote executor, a call runs locally as "remote". */
  lemma RemoteRunsLocally(tool: string)
    ensures RouteOf(map[tool := "remote"], tool, Around(false, None)) == Route("remote", Some(LocalExecutor))
  {
    Names();
  }

  /** A tool routed to the desktop runs there or nowhere. */
  lemma DesktopOrNowhere(routing: map<string, string>, tool: string, around: Around)
    requires tool in routing && routing[tool] == "desktop"
    ensures RouteOf(routing, tool, around) ==
            Route("desktop", if around.Serves(tool) then Some(DesktopExecutor) else None)
  {
  }

  class ToolGateway {
    var routing: map<string, string>

    constructor ()
      ensures routing == map[]
    {
      routing := map[];
    }

    method SetRoute(tool: string, target: string)
      modifies this
      ensures routing == old(routing)[tool := target]
    {
      routing := routing[tool := target];
    }

    /** The routing part of `execute`. */
    method Choose(tool: string, around: Around) returns (route: Route)
      ensures route == RouteOf(routing, tool, around)
      ensures route.executor == Some(DesktopExecutor) <==>
              around.desktopTools.Some? && tool in around.desktopTools.value
      ensures route.executor == Some(RemoteExecutor) <==>
              !around.Serves(tool) && around.hasRemote && tool in routing && routing[tool] == "remote"
      ensures route.executor == None <==> !around.Serves(tool) && tool in routing && routing[tool] == "desktop"
    {
      Names();
      var target := if tool in routing then routing[tool] else "local";
      var executor := LocalExecutor;
      var available := true;
      if around.desktopTools.Some? {
        if tool in around.desktopTools.value {
          executor, target := DesktopExecutor, "desktop";
        }
      }
      if tool in routing && routing[tool] == "desktop" {
        target := "desktop";
        if around.desktopTools.None? || tool !in around.desktopTools.value {
          available := false;
        } else {
          executor := DesktopExecutor;
        }
      }
      if target != "desktop" && tool in routing && routing[tool] == "remote" && around.hasRemote {
        executor, target := RemoteExecutor, "remote";
      }
      route := Route(target, if available then Some(executor) else None);
    }
  }

  // ---------------------------------------------------------------------------------
  // Events of interleaved calls

  datatype Result = Result(success: bool, ms: int, error: string, parsed: Parsed)

  /** Writing an event appends it and then publishes it: it may be lost, or appended although the write raises. */
  datatype Emit = Done | AppendedThenRaised | Lost

  /** A call with the scopes of its policy and what surrounds it. */
  datatype Request = Request(call: ToolCall, allowed: seq<Scope>, around: Around) {
    predicate Permitted() {
      IsAllowed(call, allowed)
    }
  }

  datatype Status = Denied | Running | Returned(result: Result) | Raised

  /** A run of `execute`; the route is the one chosen when it started. */
  datatype Run = Run(request: Request, route: Route, status: Status)

  datatype Sys = Sys(routing: map<string, string>, runs: map<string, Run>, log: seq<LogEvent>)

  datatype Step =
    | SetRoute(tool: string, target: string)
    | Deny(id: string, request: Request)
    | Start(id: string, request: Request, emit: Emit)
    | Refuse(id: string, emit: Emit)
    | Report(id: string, result: Result, emit: Emit)
    | Raise(id: string)

  const START := Sys(map[], map[], [])
  const NOTHING_PARSED := Parsed("", "", "")
  const UNAVAILABLE := "Desktop tool unavailable: "

  predicate IsRunning(s: Sys, id: string) {
    id in s.runs && s.runs[id].status.Running?
  }

  /** The policy decides between denying and starting; the route between refusing and running. Ids are fresh. */
  predicate Enabled(s: Sys, step: Step) {
    match step
    case SetRoute(_, _) => true
    case Deny(id, request) => id !in s.runs && !request.Permitted()
    case Start(id, request, _) => id !in s.runs && request.Permitted()
    case Refuse(id, _) => IsRunning(s, id) && s.runs[id].route.executor.None?
    case Report(id, _, _) => IsRunning(s, id) && s.runs[id].route.executor.Some?
    case Raise(id) => IsRunning(s, id) && s.runs[id].route.executor.Some?
  }

  function Stage(call: ToolCall): string {
    Or(call.stage, "unknown")
  }

  function StartedEvent(id: string, call: ToolCall, route: Route): LogEvent {
    LogEvent("tool.started", Stage(call), call.tool, route.target, 0, id, "", NOTHING_PARSED)
  }

  /** What a call to a tool that is not available returns. */
  function Unavailable(call: ToolCall): Result {
    Result(false, 0, UNAVAILABLE + call.tool, NOTHING_PARSED)
  }

  function RefusedEvent(id: string, call: ToolCall): LogEvent {
    LogEvent("tool.failed", Stage(call), call.tool, "", 0, id, UNAVAILABLE + call.tool, NOTHING_PARSED)
  }

  function ResultEvent(id: string, call: ToolCall, r: Result): LogEvent {
    if r.success then LogEvent("tool.completed", Stage(call), call.tool, "", r.ms, id, "", r.parsed)
    else LogEvent("tool.failed", Stage(call), call.tool, "", 0, id, Or(r.error, "tool execution failed"), r.parsed)
  }

  function Emitted(log: seq<LogEvent>, e: LogEvent, emit: Emit): seq<LogEvent> {
    if emit.Lost? then log else log + [e]
  }

  /** The state after a write of `e` for a call: it goes on as `status`, unless the write raises. */
  function Written(s: Sys, id: string, run: Run, status: Status, e: LogEvent, emit: Emit): Sys {
    s.(runs := s.runs[id := run.(status := if emit.Done? then status else Raised)], log := Emitted(s.log, e, emit))
  }

  function Next(s: Sys, step: Step): Sys
    requires Enabled(s, step)
  {
    match step
    case SetRoute(tool, target) => s.(routing := s.routing[tool := target])
    case Deny(id, request) =>
      s.(runs := s.runs[id := Run(request, RouteOf(s.routing, request.call.tool, request.around), Denied)])
    case Start(id, request, emit) =>
      var route := RouteOf(s.routing, request.call.tool, request.around);
      Written(s, id, Run(request, route, Running), Running, StartedEvent(id, request.call, route), emit)
    case Refuse(id, emit) =>
      Written(s, id, s.runs[id], Returned(Unavailable(s.runs[id].request.call)),
              RefusedEvent(id, s.runs[id].request.call), emit)
    case Report(id, r, emit) =>
      Written(s, id, s.runs[id], Returned(r), ResultEvent(id, s.runs[id].request.call, r), emit)
    case Raise(id) => s.(runs := s.runs[id := s.runs[id].(status := Raised)])
  }

  /** The events of one call. */
  function EventsOf(log: seq<LogEvent>, id: string): seq<LogEvent> {
    if log == [] then []
    else EventsOf(log[..|log| - 1], id) + if log[|log| - 1].toolCallId == id then [log[|log| - 1]] else []
  }

  predicate IsStarted(e: LogEvent) {
    e.eventType == "tool.started"
  }

  /** Nothing, a start, or a start and one end. */
  predicate WellBracketed(es: seq<LogEvent>) {
    |es| <= 2 && (|es| > 0 ==> IsStarted(es[0]) && !IsTerminal(es[0])) && (|es| == 2 ==> IsTerminal(es[1]))
  }

  /** The event tells the call it ends and what the call returned; only a success is timed. */
  ghost predicate TellsResult(e: LogEvent, id: string, call: ToolCall, r: Result) {
    && e.toolCallId == id && e.name == call.tool
    && e.stage == (if call.stage == "" then "unknown" else call.stage)
    && e.eventType == (if r.success then "tool.completed" else "tool.failed")
    && e.ms == (if r.success then r.ms else 0)
    && e.error == (if r.success then "" else if r.error == "" then "tool execution failed" else r.error)
    && e.parsed == r.parsed
  }

  /** What the log says about one call, by its policy, its route and how it ended. */
  ghost predicate CallInv(s: Sys, id: string) {
    var es := EventsOf(s.log, id);
    if id !in s.runs then es == []
    else if !s.runs[id].request.Permitted() then es == [] && s.runs[id].status.Denied?
    else
      var run := s.runs[id];
      && WellBracketed(es)
      && (es != [] ==> es[0] == StartedEvent(id, run.request.call, run.route))
      && (|es| == 2 && run.route.executor.None? ==> es[1] == RefusedEvent(id, run.request.call))
      && !run.status.Denied?
      && (run.status.Running? ==> |es| == 1)
      && (run.status.Returned? ==> |es| == 2 && TellsResult(es[1], id, run.request.call, run.status.result))
      && (run.status.Returned? && run.route.executor.None? ==> run.status.result == Unavailable(run.request.call))
  }

  lemma EmittedEvents(log: seq<LogEvent>, e: LogEvent, emit: Emit, id: string)
    ensures EventsOf(Emitted(log, e, emit), id) ==
            EventsOf(log, id) + if !emit.Lost? && e.toolCallId == id then [e] else []
  {
    assert (log + [e])[..|log|] == log;
  }

  lemma EventTypes()
    ensures "tool.started" != "tool.completed" && "tool.started" != "tool.failed" && "tool.completed" != "tool.failed"
  {
    assert |"tool.started"| == 12 && |"tool.completed"| == 14 && |"tool.failed"| == 11;
  }

  lemma StartInv(s: Sys, i: string, request: Request, emit: Emit, id: string)
    requires CallInv(s, id) && Enabled(s, Start(i, request, emit))
    ensures CallInv(Next(s, Start(i, request, emit)), id)
  {
    hide EventsOf, Emitted, IsAllowed, RouteOf;
    EventTypes();
    var route := RouteOf(s.routing, request.call.tool, request.around);
    EmittedEvents(s.log, StartedEvent(i, request.call, route), emit, id);
  }

  /** The end event `e` of a running call that is to end as `status`. */
  lemma EndInv(s: Sys, i: string, status: Status, e: LogEvent, emit: Emit, id: string)
    requires CallInv(s, id) && CallInv(s, i) && IsRunning(s, i)
    requires status.Returned? && IsTerminal(e) && e.toolCallId == i
    requires TellsResult(e, i, s.runs[i].request.call, status.result)
    requires s.runs[i].route.executor.None? ==>
               e == RefusedEvent(i, s.runs[i].request.call) && status.result == Unavailable(s.runs[i].request.call)
    ensures CallInv(Written(s, i, s.runs[i], status, e, emit), id)
  {
    hide EventsOf, Emitted, IsAllowed;
    EventTypes();
    EmittedEvents(s.log, e, emit, id);
  }

  lemma NextInv(s: Sys, step: Step, id: string)
    requires (forall i :: CallInv(s, i)) && Enabled(s, step)
    ensures CallInv(Next(s, step), id)
  {
    hide EventsOf, Emitted, IsAllowed, RouteOf;
    EventTypes();
    assert CallInv(s, id);
    match step
    case SetRoute(_, _) =>
    case Deny(_, _) =>
    case Start(i, request, emit) => StartInv(s, i, request, emit, id);
    case Refuse(i, emit) =>
      var call := s.runs[i].request.call;
      EndInv(s, i, Returned(Unavailable(call)), RefusedEvent(i, call), emit, id);
    case Report(i, r, emit) => EndInv(s, i, Returned(r), ResultEvent(i, s.runs[i].request.call, r), emit, id);
    case Raise(_) =>
  }

  ghost predicate Runs(steps: seq<Step>)
    decreases |steps|, 0
  {
    steps != [] ==> Runs(steps[..|steps| - 1]) && Enabled(After(steps[..|steps| - 1]), steps[|steps| - 1])
  }

  ghost function After(steps: seq<Step>): Sys
    requires Runs(steps)
    decreases |steps|, 1
  {
    if steps == [] then START else Next(After(steps[..|steps| - 1]), steps[|steps| - 1])
  }

  lemma {:induction false} RunInv(steps: seq<Step>)
    requires Runs(steps)
    ensures forall id :: CallInv(After(steps), id)
  {
    hide CallInv, Next, Enabled;
    if steps == [] {
      NothingLogged();
    } else {
      RunInv(steps[..|steps| - 1]);
      forall id ensures CallInv(After(steps), id) {
        NextInv(After(steps[..|steps| - 1]), steps[|steps| - 1], id);
      }
    }
  }

  lemma NothingLogged()
    ensures forall id :: CallInv(START, id)
  {
  }

  /**
   * Over any interleaving of calls and route changes: a call its policy does not allow, or that was not made, has no
   * event; any other has at most a started event with its target and one end event after it; one that returned has
   * both, and the end tells what it returned. If its tool is routed to a desktop that does not have it, the end can
   * only be the failure that says so.
   */
  lemma EventsAreBracketed(steps: seq<Step>, id: string)
    requires Runs(steps)
    ensures var s, es := After(steps), EventsOf(After(steps).log, id);
            && WellBracketed(es)
            && (id !in s.runs || !IsAllowed(s.runs[id].request.call, s.runs[id].request.allowed) ==> es == [])
            && (es != [] ==>
                  && es[0].target == s.runs[id].route.target && es[0].name == s.runs[id].request.call.tool
                  && es[0].stage == Or(s.runs[id].request.call.stage, "unknown"))
            && (id in s.runs && s.runs[id].status.Returned? ==>
                  |es| == 2 && TellsResult(es[1], id, s.runs[id].request.call, s.runs[id].status.result))
            && (|es| == 2 && s.runs[id].route.executor.None? ==>
                  es[1].eventType == "tool.failed" && es[1].error == UNAVAILABLE + s.runs[id].request.call.tool)
  {
    hide Runs, After, EventsOf, IsAllowed;
    EventTypes();
    RunInv(steps);
    assert CallInv(After(steps), id);
  }

  /** A call is routed when it starts, by the configuration of that moment, and keeps its route. */
  lemma RoutedAtStart(steps: seq<Step>, step: Step, id: string)
    requires Runs(steps) && Enabled(After(steps), step)
    ensures Runs(steps + [step])
    ensures step.Start? && step.id == id ==>
              && id in After(steps + [step]).runs
              && After(steps + [step]).runs[id].request == step.request
              && After(steps + [step]).runs[id].route ==
                 RouteOf(After(steps).routing, step.request.call.tool, step.request.around)
    ensures id in After(steps).runs ==>
              && id in After(steps + [step]).runs
              && After(steps + [step]).runs[id].request == After(steps).runs[id].request
              && After(steps + [step]).runs[id].route == After(steps).runs[id].route
  {
    hide RouteOf, IsAllowed, Emitted;
    assert (steps + [step])[..|steps|] == steps;
  }

  /** The ledger records of one call. */
  function RecordsOf(ps: seq<Posting>, id: string): seq<Posting> {
    if ps == [] then []
    else
      var p := ps[|ps| - 1];
      RecordsOf(ps[..|ps| - 1], id) +
      if p.CallPosting? && p.c.note.ToolNote? && p.c.note.toolCallId == id then [p] else []
  }

  lemma RecordsAppend(ps: seq<Posting>, p: Posting, id: string)
    requires p.CallPosting? && p.c.note.ToolNote?
    ensures RecordsOf(ps + [p], id) == RecordsOf(ps, id) + if p.c.note.toolCallId == id then [p] else []
  {
    assert (ps + [p])[..|ps|] == ps;
  }

  lemma {:induction false} RecordsAreEnds(log: seq<LogEvent>, id: string)
    ensures RecordsOf(ToolPostings(log), id) == ToolPostings(EventsOf(log, id))
  {
    if log != [] {
      var init, e := log[..|log| - 1], log[|log| - 1];
      RecordsAreEnds(init, id);
      hide RecordsOf;
      RecordsAppend(ToolPostings(init), CallPosting(ToolRecord(e)), id);
      PostingsAppend(EventsOf(init, id), e);
      assert EventsOf(init, id) + [] == EventsOf(init, id);
    }
  }

  lemma PostingsAppend(es: seq<LogEvent>, e: LogEvent)
    ensures ToolPostings(es + [e]) == ToolPostings(es) + if IsTerminal(e) then [CallPosting(ToolRecord(e))] else []
  {
    assert (es + [e])[..|es|] == es;
  }

  lemma EndsOfBracket(es: seq<LogEvent>)
    requires WellBracketed(es)
    ensures ToolPostings(es) == if |es| == 2 then [CallPosting(ToolRecord(es[1]))] else []
  {
    if |es| == 1 {
      PostingsAppend([], es[0]);
      assert es == [] + [es[0]];
    } else if |es| == 2 {
      PostingsAppend([], es[0]);
      PostingsAppend([es[0]], es[1]);
      assert es == [es[0]] + [es[1]] && [es[0]] == [] + [es[0]];
    }
  }

  /** The record says which call it was and what it returned. */
  ghost predicate RecordsResult(p: Posting, id: string, call: ToolCall, r: Result) {
    && p.CallPosting? && p.c.callType == Tool && p.c.cost == 0.0
    && p.c.name == (if call.tool == "" then "tool" else call.tool)
    && p.c.stage == (if call.stage == "" then "unknown" else call.stage)
    && p.c.ms == (if r.success then r.ms else 0)
    && p.c.command == r.parsed.command
    && p.c.resultKind == (if r.parsed.kind != "" then r.parsed.kind else if r.success then "completed" else "failed")
    && p.c.note.ToolNote? && p.c.note.toolCallId == id
    && (r.parsed.message != "" ==> p.c.note.message == r.parsed.message)
    && (r.parsed.message == "" && r.success ==> p.c.note.message == "")
    && (r.parsed.message == "" && !r.success ==>
          p.c.note.message == if r.error == "" then "tool execution failed" else r.error)
  }

  lemma RecordOfEnd(e: LogEvent, id: string, call: ToolCall, r: Result)
    requires TellsResult(e, id, call, r)
    ensures RecordsResult(CallPosting(ToolRecord(e)), id, call, r)
  {
    EventTypes();
    assert |"unknown"| == 7;
  }

  lemma RecordsOfBracket(s: Sys, id: string)
    requires CallInv(s, id)
    ensures var records := ToolPostings(EventsOf(s.log, id));
            && |records| <= 1
            && (id in s.runs && s.runs[id].status.Returned? ==>
                  |records| == 1 && RecordsResult(records[0], id, s.runs[id].request.call, s.runs[id].status.result))
            && (id !in s.runs || !s.runs[id].request.Permitted() || s.runs[id].status.Running? ==> records == [])
  {
    hide EventsOf, IsAllowed, TellsResult, RecordsResult;
    EndsOfBracket(EventsOf(s.log, id));
    if id in s.runs && s.runs[id].status.Returned? && s.runs[id].request.Permitted() {
      RecordOfEnd(EventsOf(s.log, id)[1], id, s.runs[id].request.call, s.runs[id].status.result);
    }
  }

  /**
   * The ledger of a task has exactly one tool record for each call that returned, which says what it returned, and at
   * most one for any call.
   */
  lemma OneRecordPerCall(steps: seq<Step>, id: string)
    requires Runs(steps)
    ensures var s := After(steps);
            var records := RecordsOf(ToolPostings(s.log), id);
            && |records| <= 1
            && (id in s.runs && s.runs[id].status.Returned? ==>
                  |records| == 1 && RecordsResult(records[0], id, s.runs[id].request.call, s.runs[id].status.result))
            && (id !in s.runs || !s.runs[id].request.Permitted() || s.runs[id].status.Running? ==> records == [])
  {
    hide *;
    var s := After(steps);
    RunInv(steps);
    assert CallInv(After(steps), id);
    RecordsAreEnds(s.log, id);
    RecordsOfBracket(s, id);
  }
}
