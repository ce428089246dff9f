/** Tool calls in flight to a desktop client. */
module DesktopCalls {
  import opened Options

  const COOLDOWN_S := 60.0

  datatype Payload = Payload(success: bool, output: string, error: string)

  /** How a future is settled; a withdrawn one carries a cancellation, an expired one is cancelled by the waiter. */
  datatype Settlement = Answer(payload: Payload) | Withdrawal | Expiry

  datatype Outcome = Reply(payload: Payload) | Timeout | Failed(error: string) | Cancelled

  /** Where a running `execute` is suspended: sending the call, waiting for the future, or sending the cancel. */
  datatype Phase = Sending | Waiting | SendingCancel

  datatype Call = Call(task: string, phase: Phase)

  /** What can be observed from outside, in order. `Received` and `Withdrawn` may be late or name unknown calls. */
  datatype Event =
    | Sent(inv: string, task: string, at: real)
    | Received(inv: string, payload: Payload)
    | Withdrawn(inv: string)
    | Expired(inv: string, task: string, at: real)
    | Finished(inv: string, task: string, outcome: Outcome)

  datatype State = State(pending: Futures, cooldown: map<string, real>,
                         calls: map<string, Call>, clock: real, history: seq<Event>)

  const START := State(map[], map[], map[], 0.0, [])

  /** The atomic segments between two awaits, of `execute` and of the two callbacks. */
  datatype Step =
    | Begin(inv: string, task: string, connected: bool, now: real)
    | SendDone(inv: string)
    | SendFails(inv: string, error: string)
    | Receive(inv: string, payload: Payload)
    | Withdraw(inv: string)
    | Wake(inv: string)
    | Expire(inv: string, now: real)
    | CancelSent(inv: string)
    | Abort(inv: string)

  function CoolingUntil(cooldown: map<string, real>, task: string): real {
    if task in cooldown then cooldown[task] else 0.0
  }

  type Futures = map<string, Option<Settlement>>

  function Settled(pending: Futures, inv: string, s: Settlement): Futures {
    if inv in pending && pending[inv].None? then pending[inv := Some(s)] else pending
  }

  predicate InPhase(s: State, inv: string, phase: Phase) {
    inv in s.calls && s.calls[inv].phase == phase && inv in s.pending
  }

  /** Invocation ids are fresh, the clock does not run backwards, and a coroutine is resumed where it is suspended. */
  predicate Enabled(s: State, step: Step) {
    match step
    case Begin(inv, _, _, now) =>
      && now >= s.clock && inv !in s.calls && inv !in s.pending
      && forall e :: e in s.history && e.Sent? ==> e.inv != inv
    case SendDone(inv) => InPhase(s, inv, Sending)
    case SendFails(inv, _) => InPhase(s, inv, Sending)
    case Receive(_, _) => true
    case Withdraw(_) => true
    case Wake(inv) => InPhase(s, inv, Waiting) && s.pending[inv].Some? && s.pending[inv].value != Expiry
    case Expire(inv, now) => InPhase(s, inv, Waiting) && now >= s.clock
    case CancelSent(inv) => InPhase(s, inv, SendingCancel)
    case Abort(inv) => inv in s.calls && inv in s.pending
  }

  function Finish(s: State, inv: string, outcome: Outcome): State
    requires inv in s.calls
  {
    s.(pending := s.pending - {inv}, calls := s.calls - {inv},
       cooldown := if outcome.Reply? then s.cooldown - {s.calls[inv].task} else s.cooldown,
       history := s.history + [Finished(inv, s.calls[inv].task, outcome)])
  }

  /** How `execute` ends at a step that ends it. */
  function OutcomeOf(s: State, step: Step): Outcome
    requires Enabled(s, step)
  {
    match step
    case SendFails(_, error) => Failed(error)
    case Wake(inv) => if s.pending[inv].value.Answer? then Reply(s.pending[inv].value.payload) else Cancelled
    case CancelSent(_) => Timeout
    case _ => Cancelled
  }

  function Next(s: State, step: Step): State
    requires Enabled(s, step)
  {
    match step
    case Begin(inv, task, connected, now) =>
      if CoolingUntil(s.cooldown, task) > now || !connected then s.(clock := now)
      else s.(pending := s.pending[inv := None], calls := s.calls[inv := Call(task, Sending)], clock := now,
              history := s.history + [Sent(inv, task, now)])
    case SendDone(inv) => s.(calls := s.calls[inv := Call(s.calls[inv].task, Waiting)])
    case Receive(inv, payload) =>
      s.(pending := Settled(s.pending, inv, Answer(payload)), history := s.history + [Received(inv, payload)])
    case Withdraw(inv) => s.(pending := Settled(s.pending, inv, Withdrawal), history := s.history + [Withdrawn(inv)])
    case Expire(inv, now) =>
      var task := s.calls[inv].task;
      s.(pending := Settled(s.pending, inv, Expiry), calls := s.calls[inv := Call(task, SendingCancel)], clock := now,
         cooldown := s.cooldown[task := now + COOLDOWN_S], history := s.history + [Expired(inv, task, now)])
    case _ => Finish(s, step.inv, OutcomeOf(s, step))
  }

  /** The executor; `calls`, `clock` and `history` are ghosts for its suspended coroutines and what was observed. */
  class DesktopToolExecutor {
    var pending: Futures
    var timeoutCooldownUntil: map<string, real>
    ghost var calls: map<string, Call>
    ghost var clock: real
    ghost var history: seq<Event>

    constructor ()
      ensures Now() == START && Valid()
    {
      pending, timeoutCooldownUntil, calls, clock, history := map[], map[], map[], 0.0, [];
    }

    ghost predicate Valid()
      reads this
    {
      Inv(Now())
    }

    ghost function Now(): State
      reads this
    {
      State(pending, timeoutCooldownUntil, calls, clock, history)
    }

    /** `execute` up to the sending of the call. */
    method Begin(inv: string, task: string, connected: bool, now: real) returns (sending: bool)
      requires Valid() && Enabled(Now(), Step.Begin(inv, task, connected, now))
      modifies this
      ensures Valid() && Now() == Next(old(Now()), Step.Begin(inv, task, connected, now))
      ensures sending <==> connected && Rested(old(history), task, now)
      ensures history == old(history) + if sending then [Sent(inv, task, now)] else []
      ensures pending == if sending then old(pending)[inv := None] else old(pending)
    {
      ghost var before := Now();
      NextInv(before, Step.Begin(inv, task, connected, now));
      RestedInState(before, task, now);
      hide Inv, Enabled, Rested;
      clock := now;
      var until := if task in timeoutCooldownUntil then timeoutCooldownUntil[task] else 0.0;
      if until > now || !connected {
        return false;
      }
      pending := pending[inv := None];
      calls := calls[inv := Call(task, Sending)];
      history := history + [Sent(inv, task, now)];
      sending := true;
    }

    /** The `finally` block. */
    method PopPending(inv: string, task: string, ghost outcome: Outcome)
      requires inv in calls && calls[inv].task == task && !outcome.Reply?
      modifies this
      ensures Now() == Finish(old(Now()), inv, outcome)
    {
      pending := pending - {inv};
      calls := calls - {inv};
      history := history + [Finished(inv, task, outcome)];
    }

    /** `execute` after the future was settled. */
    method Wake(inv: string, task: string) returns (outcome: Outcome)
      requires Valid() && Enabled(Now(), Step.Wake(inv)) && calls[inv].task == task
      modifies this
      ensures Valid() && Now() == Next(old(Now()), Step.Wake(inv)) == Finish(old(Now()), inv, outcome)
      ensures Woken(old(history), inv, outcome)
    {
      NextInv(Now(), Step.Wake(inv));
      WakesToFirst(Now(), inv);
      hide Inv, Woken;
      match pending[inv].value {
        case Answer(payload) =>
          timeoutCooldownUntil := timeoutCooldownUntil - {task};
          outcome := Reply(payload);
          pending := pending - {inv};
          calls := calls - {inv};
          history := history + [Finished(inv, task, outcome)];
        case Withdrawal =>
          outcome := Cancelled;
          PopPending(inv, task, outcome);
      }
    }

    /** The `TimeoutError` handler up to the sending of the cancel; the waiter has cancelled the future. */
    method Expire(inv: string, task: string, now: real)
      requires Valid() && Enabled(Now(), Step.Expire(inv, now)) && calls[inv].task == task
      modifies this
      ensures Valid() && Now() == Next(old(Now()), Step.Expire(inv, now))
    {
      NextInv(Now(), Step.Expire(inv, now));
      hide Inv;
      if pending[inv].None? {
        pending := pending[inv := Some(Expiry)];
      }
      timeoutCooldownUntil := timeoutCooldownUntil[task := now + COOLDOWN_S];
      clock := now;
      calls := calls[inv := Call(task, SendingCancel)];
      history := history + [Expired(inv, task, now)];
    }

    method ResolveInvocation(inv: string, payload: Payload)
      requires Valid()
      modifies this
      ensures Valid() && Now() == Next(old(Now()), Receive(inv, payload))
    {
      NextInv(Now(), Receive(inv, payload));
      hide Inv;
      if inv in pending && pending[inv].None? {
        pending := pending[inv := Some(Answer(payload))];
      }
      history := history + [Received(inv, payload)];
    }

    method CancelInvocation(inv: string)
      requires Valid()
      modifies this
      ensures Valid() && Now() == Next(old(Now()), Withdraw(inv))
    {
      NextInv(Now(), Withdraw(inv));
      hide Inv;
      if inv in pending && pending[inv].None? {
        pending := pending[inv := Some(Withdrawal)];
      }
      history := history + [Withdrawn(inv)];
    }
  }

  // ---------------------------------------------------------------------------------
  // What an observer can say

  /** The calls that were sent and have not finished, with their tasks. */
  function InFlight(h: seq<Event>): map<string, string> {
    if h == [] then map[] else InFlightAfter(InFlight(h[..|h| - 1]), h[|h| - 1])
  }

  function InFlightAfter(before: map<string, string>, e: Event): map<string, string> {
    match e
    case Sent(inv, task, _) => before[inv := task]
    case Finished(inv, _, _) => before - {inv}
    case _ => before
  }

  function SettlementOf(e: Event, inv: string): Option<Settlement> {
    if e.inv != inv then None
    else
      match e
      case Received(_, payload) => Some(Answer(payload))
      case Withdrawn(_) => Some(Withdrawal)
      case Expired(_, _, _) => Some(Expiry)
      case _ => None
  }

  /** What first happened to a call since it was sent. */
  function First(h: seq<Event>, inv: string): Option<Settlement> {
    if h == [] then None else FirstAfter(First(h[..|h| - 1], inv), h[|h| - 1], inv)
  }

  function FirstAfter(before: Option<Settlement>, e: Event, inv: string): Option<Settlement> {
    if e.Sent? && e.inv == inv then None
    else if before.Some? then before
    else SettlementOf(e, inv)
  }

  /** When the pause of a task ends that its last timeout started, if no payload has ended it. */
  function Cooling(h: seq<Event>, task: string): real {
    if h == [] then 0.0 else CoolingAfter(Cooling(h[..|h| - 1], task), h[|h| - 1], task)
  }

  function CoolingAfter(before: real, e: Event, task: string): real {
    if e.Expired? && e.task == task then e.at + COOLDOWN_S
    else if e.Finished? && e.task == task && e.outcome.Reply? then 0.0
    else before
  }

  function LastTime(h: seq<Event>): real {
    if h == [] then 0.0
    else
      var e := h[|h| - 1];
      if e.Sent? || e.Expired? then e.at else LastTime(h[..|h| - 1])
  }

  ghost predicate WasSent(h: seq<Event>, inv: string) {
    exists e :: e in h && e.Sent? && e.inv == inv
  }

  ghost predicate HasExpired(h: seq<Event>, inv: string) {
    exists e :: e in h && e.Expired? && e.inv == inv
  }

  /** What the executor may do next, given what was observed. */
  ghost predicate Fits(h: seq<Event>, e: Event) {
    match e
    case Sent(inv, task, at) =>
      at >= LastTime(h) && Cooling(h, task) <= at && !WasSent(h, inv)
    case Expired(inv, task, at) => at >= LastTime(h) && inv in InFlight(h) && InFlight(h)[inv] == task
    case Finished(inv, task, outcome) =>
      && inv in InFlight(h) && InFlight(h)[inv] == task
      && (outcome.Reply? ==> First(h, inv) == Some(Answer(outcome.payload)))
      && (outcome.Timeout? ==> HasExpired(h, inv))
    case _ => true
  }

  ghost predicate Sound(h: seq<Event>) {
    h != [] ==> Sound(h[..|h| - 1]) && Fits(h[..|h| - 1], h[|h| - 1])
  }

  /** The call table, the futures and the history agree about one invocation. */
  ghost predicate Agrees(s: State, inv: string) {
    && (inv in s.pending <==> inv in InFlight(s.history)) && (inv in s.calls <==> inv in s.pending)
    && (inv in s.pending ==>
          && s.calls[inv].task == InFlight(s.history)[inv]
          && s.pending[inv] == First(s.history, inv)
          && (s.calls[inv].phase == SendingCancel ==> HasExpired(s.history, inv)))
  }

  ghost predicate Inv(s: State) {
    && Sound(s.history)
    && s.clock >= LastTime(s.history)
    && (forall inv :: Agrees(s, inv))
    && (forall task :: CoolingUntil(s.cooldown, task) == Cooling(s.history, task))
  }

  lemma Observed(h: seq<Event>, e: Event)
    requires Sound(h) && Fits(h, e)
    ensures Sound(h + [e]) && InFlight(h + [e]) == InFlightAfter(InFlight(h), e)
    ensures LastTime(h + [e]) == if e.Sent? || e.Expired? then e.at else LastTime(h)
    ensures forall inv :: First(h + [e], inv) == FirstAfter(First(h, inv), e, inv)
    ensures forall task :: Cooling(h + [e], task) == CoolingAfter(Cooling(h, task), e, task)
    ensures forall inv :: HasExpired(h, inv) || (e.Expired? && e.inv == inv) ==> HasExpired(h + [e], inv)
  {
    assert (h + [e])[..|h|] == h;
    forall inv | HasExpired(h, inv) || (e.Expired? && e.inv == inv) ensures HasExpired(h + [e], inv) {
      assert e in h + [e];
    }
  }

  /** The table entries of all other invocations are as before. */
  ghost predicate OnlyTouches(s: State, t: State, inv: string) {
    forall i :: i != inv ==>
      && (i in s.pending <==> i in t.pending) && (i in s.calls <==> i in t.calls)
      && (i in t.pending && i in s.pending ==> t.pending[i] == s.pending[i])
      && (i in t.calls && i in s.calls ==> t.calls[i] == s.calls[i])
  }

  lemma StillAgree(s: State, t: State, e: Event)
    requires Inv(s) && Fits(s.history, e) && t.history == s.history + [e]
    requires OnlyTouches(s, t, e.inv) && Agrees(t, e.inv)
    ensures forall i :: Agrees(t, i)
  {
    forall i ensures Agrees(t, i) {
      if i != e.inv {
        assert Agrees(s, i);
        hide Sound, InFlight, First, Cooling, LastTime, HasExpired, Fits;
        Observed(s.history, e);
      }
    }
  }

  /** A step with one visible event keeps the invariant if it keeps the tables of that call and the pauses in step. */
  lemma Keeps(s: State, t: State, e: Event)
    requires Inv(s) && Fits(s.history, e) && t.history == s.history + [e]
    requires OnlyTouches(s, t, e.inv) && Agrees(t, e.inv)
    requires t.clock >= s.clock && (e.Sent? || e.Expired? ==> t.clock == e.at)
    requires forall task :: CoolingUntil(t.cooldown, task) == CoolingAfter(CoolingUntil(s.cooldown, task), e, task)
    ensures Inv(t)
  {
    StillAgree(s, t, e);
    hide Sound, InFlight, First, Cooling, LastTime, HasExpired, Fits, Agrees, OnlyTouches, CoolingAfter, CoolingUntil;
    Observed(s.history, e);
  }

  lemma FinishKeeps(s: State, inv: string, outcome: Outcome)
    requires Inv(s) && inv in s.calls && Fits(s.history, Finished(inv, s.calls[inv].task, outcome))
    ensures Inv(Finish(s, inv, outcome))
  {
    var e := Finished(inv, s.calls[inv].task, outcome);
    var t := Finish(s, inv, outcome);
    assert Agrees(s, inv);
    hide Sound, InFlight, First, Cooling, LastTime, HasExpired, Fits;
    Observed(s.history, e);
    Keeps(s, t, e);
  }

  lemma CallbackKeeps(s: State, e: Event)
    requires Inv(s) && (e.Received? || e.Withdrawn?)
    ensures var first := SettlementOf(e, e.inv).value;
            Inv(s.(pending := Settled(s.pending, e.inv, first), history := s.history + [e]))
  {
    var t := s.(pending := Settled(s.pending, e.inv, SettlementOf(e, e.inv).value), history := s.history + [e]);
    assert Agrees(s, e.inv) && Fits(s.history, e);
    hide Sound, InFlight, First, Cooling, LastTime, HasExpired, Fits;
    Observed(s.history, e);
    Keeps(s, t, e);
  }

  lemma BeginAgrees(s: State, t: State, inv: string, task: string, now: real)
    requires Inv(s) && Enabled(s, Begin(inv, task, true, now)) && CoolingUntil(s.cooldown, task) <= now
    requires t == Next(s, Begin(inv, task, true, now))
    ensures Fits(s.history, Sent(inv, task, now)) && Agrees(t, inv) && OnlyTouches(s, t, inv)
  {
    var e := Sent(inv, task, now);
    assert Agrees(s, inv) && Fits(s.history, e);
    hide Sound, InFlight, First, Cooling, LastTime, HasExpired, Fits, Enabled, Inv;
    Observed(s.history, e);
  }

  lemma BeginKeeps(s: State, inv: string, task: string, now: real)
    requires Inv(s) && Enabled(s, Begin(inv, task, true, now)) && CoolingUntil(s.cooldown, task) <= now
    ensures Inv(Next(s, Begin(inv, task, true, now)))
  {
    hide Inv, Sound, InFlight, First, Cooling, LastTime, HasExpired, Fits, Agrees, OnlyTouches;
    var t := Next(s, Begin(inv, task, true, now));
    BeginAgrees(s, t, inv, task, now);
    Keeps(s, t, Sent(inv, task, now));
  }

  lemma ExpireFits(s: State, inv: string, now: real)
    requires Inv(s) && Enabled(s, Expire(inv, now))
    ensures inv in s.calls && Fits(s.history, Expired(inv, s.calls[inv].task, now))
  {
    assert Agrees(s, inv);
  }

  lemma ExpireAgrees(s: State, t: State, inv: string, now: real)
    requires Inv(s) && Enabled(s, Expire(inv, now)) && t == Next(s, Expire(inv, now))
    ensures Agrees(t, inv) && OnlyTouches(s, t, inv)
  {
    var e := Expired(inv, s.calls[inv].task, now);
    ExpireFits(s, inv, now);
    assert Agrees(s, inv);
    hide Sound, InFlight, First, Cooling, LastTime, HasExpired, Fits, Inv;
    Observed(s.history, e);
  }

  lemma ExpireKeeps(s: State, inv: string, now: real)
    requires Inv(s) && Enabled(s, Expire(inv, now))
    ensures Inv(Next(s, Expire(inv, now)))
  {
    hide Inv, Sound, InFlight, First, Cooling, LastTime, HasExpired, Fits, Agrees, OnlyTouches;
    var t := Next(s, Expire(inv, now));
    ExpireFits(s, inv, now);
    ExpireAgrees(s, t, inv, now);
    Keeps(s, t, Expired(inv, s.calls[inv].task, now));
  }

  lemma QuietKeeps(s: State, step: Step)
    requires Inv(s) && Enabled(s, step) && (step.SendDone? || step.Begin?) && Next(s, step).history == s.history
    ensures Inv(Next(s, step))
  {
    var t := Next(s, step);
    forall i ensures Agrees(t, i) {
      assert Agrees(s, i);
    }
  }

  lemma {:induction false} LastTimeIsNotNegative(h: seq<Event>)
    requires Sound(h)
    ensures LastTime(h) >= 0.0
  {
    if h != [] {
      LastTimeIsNotNegative(h[..|h| - 1]);
    }
  }

  lemma NextInv(s: State, step: Step)
    requires Inv(s) && Enabled(s, step)
    ensures Inv(Next(s, step))
  {
    match step {
      case Begin(inv, task, connected, now) =>
        if CoolingUntil(s.cooldown, task) <= now && connected {
          BeginKeeps(s, inv, task, now);
        } else {
          QuietKeeps(s, step);
        }
      case Receive(inv, payload) =>
        CallbackKeeps(s, Received(inv, payload));
      case Withdraw(inv) =>
        CallbackKeeps(s, Withdrawn(inv));
      case Expire(inv, now) =>
        ExpireKeeps(s, inv, now);
      case SendDone(inv) =>
        QuietKeeps(s, step);
      case _ =>
        assert Agrees(s, step.inv);
        FinishKeeps(s, step.inv, OutcomeOf(s, step));
    }
  }

  // ---------------------------------------------------------------------------------
  // What a step adds, told from what was observed before

  ghost predicate NoReplySince(h: seq<Event>, i: nat, task: string) {
    forall m :: i < m < |h| ==> !(h[m].Finished? && h[m].task == task && h[m].outcome.Reply?)
  }

  /** Every timeout of the task that no payload for the task has followed is a minute ago. */
  ghost predicate Rested(h: seq<Event>, task: string, now: real) {
    forall i :: 0 <= i < |h| && h[i].Expired? && h[i].task == task && NoReplySince(h, i, task) ==>
                  now >= h[i].at + COOLDOWN_S
  }

  lemma {:induction false} CoolingHasCause(h: seq<Event>, task: string) returns (i: nat)
    requires Cooling(h, task) != 0.0
    ensures i < |h| && h[i].Expired? && h[i].task == task && NoReplySince(h, i, task)
    ensures Cooling(h, task) == h[i].at + COOLDOWN_S
  {
    var n := |h| - 1;
    if h[n].Expired? && h[n].task == task {
      i := n;
    } else {
      i := CoolingHasCause(h[..n], task);
      forall m | i < m < |h| ensures !(h[m].Finished? && h[m].task == task && h[m].outcome.Reply?) {
        if m < n {
          assert h[..n][m] == h[m];
        }
      }
    }
  }

  lemma CoolingIsRested(h: seq<Event>, task: string, now: real)
    requires Sound(h) && now >= LastTime(h)
    ensures Cooling(h, task) <= now <==> Rested(h, task, now)
  {
    hide Sound, LastTime, Cooling;
    LastTimeIsNotNegative(h);
    if Cooling(h, task) != 0.0 {
      var i := CoolingHasCause(h, task);
    }
    forall i | 0 <= i < |h| && h[i].Expired? && h[i].task == task && NoReplySince(h, i, task)
      ensures Cooling(h, task) >= h[i].at + COOLDOWN_S
    {
      CoolingSince(h, i);
    }
  }

  lemma RestedInState(s: State, task: string, now: real)
    requires Inv(s) && now >= s.clock
    ensures CoolingUntil(s.cooldown, task) <= now <==> Rested(s.history, task, now)
  {
    hide Sound, LastTime, Cooling, CoolingUntil, Rested, Agrees;
    CoolingIsRested(s.history, task, now);
    assert CoolingUntil(s.cooldown, task) == Cooling(s.history, task);
  }

  /** A call that wakes up returns the payload that came first, or was withdrawn first. */
  ghost predicate Woken(h: seq<Event>, inv: string, outcome: Outcome) {
    match outcome
    case Reply(payload) => First(h, inv) == Some(Answer(payload))
    case Cancelled => First(h, inv) == Some(Withdrawal)
    case _ => false
  }

  lemma WakesToFirst(s: State, inv: string)
    requires Inv(s) && Enabled(s, Step.Wake(inv))
    ensures Woken(s.history, inv, OutcomeOf(s, Step.Wake(inv)))
  {
    assert Agrees(s, inv);
  }

  /** What may be observed of a step after `h`; the executor's own tables play no part in it. */
  ghost predicate Shows(h: seq<Event>, step: Step, shown: seq<Event>) {
    match step
    case Begin(inv, task, connected, now) =>
      shown == if connected && Rested(h, task, now) then [Sent(inv, task, now)] else []
    case SendDone(_) => shown == []
    case Receive(inv, payload) => shown == [Received(inv, payload)]
    case Withdraw(inv) => shown == [Withdrawn(inv)]
    case Expire(inv, now) => inv in InFlight(h) && shown == [Expired(inv, InFlight(h)[inv], now)]
    case SendFails(inv, error) => inv in InFlight(h) && shown == [Finished(inv, InFlight(h)[inv], Failed(error))]
    case Wake(inv) =>
      && inv in InFlight(h)
      && exists outcome :: shown == [Finished(inv, InFlight(h)[inv], outcome)] && Woken(h, inv, outcome)
    case CancelSent(inv) => inv in InFlight(h) && shown == [Finished(inv, InFlight(h)[inv], Timeout)]
    case Abort(inv) => inv in InFlight(h) && shown == [Finished(inv, InFlight(h)[inv], Cancelled)]
  }

  lemma StepShows(s: State, step: Step) returns (shown: seq<Event>)
    requires Inv(s) && Enabled(s, step)
    ensures Next(s, step).history == s.history + shown && Shows(s.history, step, shown)
  {
    assert Agrees(s, step.inv);
    if step.Begin? {
      RestedInState(s, step.task, step.now);
    }
    if step.Wake? {
      WakesToFirst(s, step.inv);
    }
    hide Inv, Sound, InFlight, First, Cooling, LastTime, HasExpired, Rested, Woken, CoolingUntil;
    shown := match step
      case Begin(inv, task, connected, now) =>
        if CoolingUntil(s.cooldown, task) > now || !connected then [] else [Sent(inv, task, now)]
      case SendDone(_) => []
      case Receive(inv, payload) => [Received(inv, payload)]
      case Withdraw(inv) => [Withdrawn(inv)]
      case Expire(inv, now) => [Expired(inv, s.calls[inv].task, now)]
      case _ => [Finished(step.inv, s.calls[step.inv].task, OutcomeOf(s, step))];
  }

  // ---------------------------------------------------------------------------------
  // Runs

  ghost predicate Runs(s: State, steps: seq<Step>)
    decreases |steps|, 0
  {
    steps != [] ==> Runs(s, steps[..|steps| - 1]) && Enabled(Run(s, steps[..|steps| - 1]), steps[|steps| - 1])
  }

  ghost function Run(s: State, steps: seq<Step>): State
    requires Runs(s, steps)
    decreases |steps|, 1
  {
    if steps == [] then s else Next(Run(s, steps[..|steps| - 1]), steps[|steps| - 1])
  }

  lemma {:induction false} RunInv(steps: seq<Step>)
    requires Runs(START, steps)
    ensures Inv(Run(START, steps))
  {
    if steps != [] {
      RunInv(steps[..|steps| - 1]);
      NextInv(Run(START, steps[..|steps| - 1]), steps[|steps| - 1]);
    }
  }

  /** `_pending` is exactly the calls that were sent and have not finished, each future what first happened to it. */
  lemma PendingIsInFlight(steps: seq<Step>)
    requires Runs(START, steps)
    ensures var s := Run(START, steps);
            && s.pending.Keys == InFlight(s.history).Keys
            && forall inv :: inv in s.pending ==> s.pending[inv] == First(s.history, inv)
  {
    hide Runs, Run, Sound, InFlight, First, Cooling, LastTime;
    RunInv(steps);
    var s := Run(START, steps);
    forall inv ensures inv in s.pending <==> inv in InFlight(s.history)
               ensures inv in s.pending ==> s.pending[inv] == First(s.history, inv)
    {
      assert Agrees(s, inv);
    }
  }

  ghost function HistoryOf(steps: seq<Step>): seq<Event>
    requires Runs(START, steps)
  {
    Run(START, steps).history
  }

  /**
   * What is observed of a run follows from what was observed before: in particular a call is sent exactly when there
   * is a connection and every unanswered timeout of its task is a minute ago.
   */
  lemma EachStepShows(steps: seq<Step>, step: Step) returns (shown: seq<Event>)
    requires Runs(START, steps) && Enabled(Run(START, steps), step)
    ensures Runs(START, steps + [step]) && HistoryOf(steps + [step]) == HistoryOf(steps) + shown
    ensures Shows(HistoryOf(steps), step, shown)
  {
    hide Enabled, Next, Shows;
    RunInv(steps);
    shown := StepShows(Run(START, steps), step);
    assert (steps + [step])[..|steps|] == steps;
  }

  lemma {:induction false} FitsAt(h: seq<Event>, k: nat)
    requires Sound(h) && k < |h|
    ensures Sound(h[..k]) && Fits(h[..k], h[k])
  {
    if k < |h| - 1 {
      FitsAt(h[..|h| - 1], k);
      assert h[..|h| - 1][..k] == h[..k];
    }
  }

  lemma {:induction false} FirstIsFirst(h: seq<Event>, inv: string) returns (i: nat, j: nat)
    requires First(h, inv).Some? && inv in InFlight(h)
    ensures i < j < |h| && h[i].Sent? && h[i].inv == inv && SettlementOf(h[j], inv) == First(h, inv)
    ensures forall m :: i < m < j ==> SettlementOf(h[m], inv) == None
  {
    var init := h[..|h| - 1];
    if First(init, inv).Some? && inv in InFlight(init) {
      i, j := FirstIsFirst(init, inv);
    } else {
      i := OpenSince(init, inv);
      j := |h| - 1;
    }
  }

  lemma {:induction false} OpenSince(h: seq<Event>, inv: string) returns (i: nat)
    requires First(h, inv) == None && inv in InFlight(h)
    ensures i < |h| && h[i].Sent? && h[i].inv == inv
    ensures forall m :: i < m < |h| ==> SettlementOf(h[m], inv) == None
  {
    if h[|h| - 1].Sent? && h[|h| - 1].inv == inv {
      i := |h| - 1;
    } else {
      i := OpenSince(h[..|h| - 1], inv);
    }
  }

  lemma PayloadInHistory(h: seq<Event>, k: nat) returns (i: nat, j: nat)
    requires Sound(h) && k < |h| && h[k].Finished? && h[k].outcome.Reply?
    ensures i < j < k && h[i].Sent? && h[i].inv == h[k].inv && h[j] == Received(h[k].inv, h[k].outcome.payload)
    ensures forall m :: i < m < j ==> SettlementOf(h[m], h[k].inv) == None
  {
    FitsAt(h, k);
    hide Sound, InFlight, First;
    i, j := FirstIsFirst(h[..k], h[k].inv);
  }

  /**
   * A call that returns a payload returns the first one received for it after it was sent, and nothing had
   * withdrawn or timed out the call before that.
   */
  lemma PayloadIsTheFirst(steps: seq<Step>, k: nat) returns (i: nat, j: nat)
    requires Runs(START, steps) && k < |HistoryOf(steps)|
    requires HistoryOf(steps)[k].Finished? && HistoryOf(steps)[k].outcome.Reply?
    ensures var h := HistoryOf(steps);
            && i < j < k
            && h[i].Sent? && h[i].inv == h[k].inv && h[j] == Received(h[k].inv, h[k].outcome.payload)
            && forall m :: i < m < j ==> SettlementOf(h[m], h[k].inv) == None
  {
    RunInv(steps);
    i, j := PayloadInHistory(HistoryOf(steps), k);
  }

  lemma {:induction false} CoolingSince(h: seq<Event>, i: nat)
    requires Sound(h) && i < |h| && h[i].Expired?
    requires forall m :: i < m < |h| ==> !(h[m].Finished? && h[m].task == h[i].task && h[m].outcome.Reply?)
    ensures Cooling(h, h[i].task) >= h[i].at + COOLDOWN_S && LastTime(h) >= h[i].at
  {
    if i < |h| - 1 {
      CoolingSince(h[..|h| - 1], i);
    }
  }

  /**
   * After a call of a task has timed out, the next call of that task is sent at least a minute later, unless
   * another call of the task, already in flight, has returned a payload in between.
   */
  lemma NoSendWhileCooling(steps: seq<Step>, i: nat, k: nat)
    requires Runs(START, steps) && i < k < |HistoryOf(steps)|
    requires HistoryOf(steps)[i].Expired? && HistoryOf(steps)[k].Sent?
    requires HistoryOf(steps)[i].task == HistoryOf(steps)[k].task
    requires forall m :: i < m < k ==>
               var e := HistoryOf(steps)[m]; !(e.Finished? && e.task == HistoryOf(steps)[k].task && e.outcome.Reply?)
    ensures HistoryOf(steps)[k].at >= HistoryOf(steps)[i].at + COOLDOWN_S
  {
    RunInv(steps);
    var h := HistoryOf(steps);
    FitsAt(h, k);
    CoolingSince(h[..k], i);
  }

  /** No call finishes twice. */
  lemma FinishesOnce(steps: seq<Step>, j: nat, k: nat)
    requires Runs(START, steps) && j < k < |HistoryOf(steps)|
    requires HistoryOf(steps)[j].Finished? && HistoryOf(steps)[k].Finished?
    ensures HistoryOf(steps)[j].inv != HistoryOf(steps)[k].inv
  {
    RunInv(steps);
    var h := HistoryOf(steps);
    if h[j].inv == h[k].inv {
      FitsAt(h, k);
      FitsAt(h, j);
      FinishedStays(h[..k], j);
    }
  }

  lemma {:induction false} FinishedStays(h: seq<Event>, j: nat)
    requires Sound(h) && j < |h| && h[j].Finished?
    ensures h[j].inv !in InFlight(h) && WasSent(h, h[j].inv)
  {
    var init := h[..|h| - 1];
    if j == |h| - 1 {
      InFlightWasSent(init, h[j].inv);
    } else {
      FinishedStays(init, j);
    }
  }

  lemma {:induction false} InFlightWasSent(h: seq<Event>, inv: string)
    requires inv in InFlight(h)
    ensures WasSent(h, inv)
  {
    if inv in InFlight(h[..|h| - 1]) {
      InFlightWasSent(h[..|h| - 1], inv);
    }
  }

  /** A result for a call that is not pending, or that is settled already, changes no call and no cooldown. */
  lemma LateResultsAreIgnored(steps: seq<Step>, inv: string, payload: Payload)
    requires Runs(START, steps)
    requires inv !in InFlight(HistoryOf(steps)) || First(HistoryOf(steps), inv).Some?
    ensures var s, t := Run(START, steps), Next(Run(START, steps), Receive(inv, payload));
            t.pending == s.pending && t.cooldown == s.cooldown && t.calls == s.calls
  {
    RunInv(steps);
    assert Agrees(Run(START, steps), inv);
  }
}
