/** The durable event stream: append, publish, subscribe, replay, live delivery and resumption. */
module EventStream {
  import opened Options

  /** What arrives on a subscription. `Malformed` is anything that is not an event. */
  datatype Message = Canonical(seqNo: nat) | Transient | Malformed

  /** A server-sent event; only canonical events carry an `id:` line. */
  datatype Frame = WithId(id: nat) | WithoutId

  /** The part of `event_generator` that decides what is sent. */
  datatype Stream = Stream(lastSent: nat, out: seq<Frame>) {
    function Offer(seqNo: nat): Stream {
      if seqNo > lastSent then Stream(seqNo, out + [WithId(seqNo)]) else this
    }

    function OfferAll(rows: seq<nat>): Stream
      decreases |rows|
    {
      if rows == [] then this else Offer(rows[0]).OfferAll(rows[1..])
    }

    function Handle(m: Message): Stream {
      match m
      case Canonical(seqNo) => Offer(seqNo)
      case Transient => Stream(lastSent, out + [WithoutId])
      case Malformed => this
    }
  }

  /** The generator's loops, on its own variables. */
  class EventGenerator {
    var lastSent: nat
    var out: seq<Frame>

    constructor (afterSeq: nat)
      ensures State() == Stream(afterSeq, [])
    {
      lastSent, out := afterSeq, [];
    }

    ghost function State(): Stream
      reads this
    {
      Stream(lastSent, out)
    }

    method Replay(rows: seq<nat>)
      modifies this
      ensures State() == old(State()).OfferAll(rows)
    {
      var i := 0;
      assert rows[0..] == rows;
      while i < |rows|
        invariant 0 <= i <= |rows|
        invariant State().OfferAll(rows[i..]) == old(State()).OfferAll(rows)
      {
        if rows[i] > lastSent {
          lastSent := rows[i];
          out := out + [WithId(rows[i])];
        }
        i := i + 1;
      }
    }

    method Receive(message: Message)
      modifies this
      ensures State() == old(State()).Handle(message)
      ensures message.Transient? ==> out == old(out) + [WithoutId] && lastSent == old(lastSent)
      ensures message.Canonical? && message.seqNo > old(lastSent) ==>
                out == old(out) + [WithId(message.seqNo)] && lastSent == message.seqNo
      ensures message.Malformed? || (message.Canonical? && message.seqNo <= old(lastSent)) ==>
                out == old(out) && lastSent == old(lastSent)
    {
      match message {
        case Malformed =>
          return;
        case Canonical(seqNo) =>
          if seqNo <= lastSent {
            return;
          }
          lastSent := seqNo;
          out := out + [WithId(seqNo)];
        case Transient =>
          out := out + [WithoutId];
      }
    }
  }

  /** `parse_after_seq`: the query wins over the `Last-Event-ID` header; `None` is a missing or unreadable one. */
  function ParseAfterSeq(query: Option<int>, lastEventId: Option<int>): (after: nat)
    ensures query.Some? ==> after == if query.value < 0 then 0 else query.value
    ensures query.None? && lastEventId.Some? ==> after == if lastEventId.value < 0 then 0 else lastEventId.value
    ensures query.None? && lastEventId.None? ==> after == 0
  {
    var chosen := if query.Some? then query.value else if lastEventId.Some? then lastEventId.value else 0;
    if chosen >= 0 then chosen else 0
  }

  // ---------------------------------------------------------------------------------
  // The protocol

  datatype Phase = Idle | Subscribed | Replaying(rest: seq<nat>) | Live

  /**
   * `log` is the append-only table of one task, `inflight` what was appended but not yet published, `channel` the
   * subscription's queue. The client resumes from `lastId` and has received `received` over all its connections.
   */
  datatype Sys = Sys(
    log: seq<nat>, inflight: seq<nat>, phase: Phase, after: nat, stream: Stream, channel: seq<Message>,
    lastId: nat, received: seq<nat>)

  datatype Step =
    | Append(seqNo: nat)
    | Publish(index: nat)
    | Progress
    | Connect
    | ReadLog
    | SendReplayed
    | Deliver
    | Disconnect(frames: nat)

  ghost predicate Increasing(xs: seq<nat>) {
    forall i, j :: 0 <= i < j < |xs| ==> xs[i] < xs[j]
  }

  /** How many entries of an increasing log are at most `a`. */
  function Rank(log: seq<nat>, a: nat): (r: nat)
    ensures r <= |log|
  {
    if log == [] then 0
    else if log[|log| - 1] <= a then |log|
    else Rank(log[..|log| - 1], a)
  }

  /** The log entries after `a` up to and including `b`. */
  function Between(log: seq<nat>, a: nat, b: nat): seq<nat> {
    if Rank(log, a) <= Rank(log, b) then log[Rank(log, a)..Rank(log, b)] else []
  }

  /** The ids on the frames, in order. */
  function SentIds(out: seq<Frame>): seq<nat> {
    if out == [] then []
    else SentIds(out[..|out| - 1]) + (match out[|out| - 1] case WithId(id) => [id] case WithoutId => [])
  }

  function ChannelIds(channel: seq<Message>): seq<nat> {
    if channel == [] then []
    else ChannelIds(channel[..|channel| - 1]) +
         (match channel[|channel| - 1] case Canonical(id) => [id] case _ => [])
  }

  function Start(origin: nat): Sys {
    Sys([], [], Idle, origin, Stream(origin, []), [], origin, [])
  }

  function Enqueue(s: Sys, m: Message): Sys {
    if s.phase.Idle? then s else s.(channel := s.channel + [m])
  }

  /** One atomic step; a step that is not possible changes nothing. `ordered` restricts publishing to log order. */
  function Next(s: Sys, step: Step, ordered: bool): Sys {
    match step
    case Append(seqNo) =>
      if s.log == [] || seqNo > s.log[|s.log| - 1] then s.(log := s.log + [seqNo], inflight := s.inflight + [seqNo])
      else s
    case Publish(i) =>
      if i < |s.inflight| && (ordered ==> i == 0) then
        Enqueue(s.(inflight := s.inflight[..i] + s.inflight[i + 1..]), Canonical(s.inflight[i]))
      else s
    case Progress => Enqueue(s, Transient)
    case Connect =>
      if !s.phase.Idle? then s
      else
        var after := ParseAfterSeq(None, Some(s.lastId));
        s.(phase := Subscribed, after := after, stream := Stream(after, []), channel := [])
    case ReadLog =>
      if s.phase.Subscribed? then s.(phase := Replaying(s.log[Rank(s.log, s.after)..])) else s
    case SendReplayed =>
      if !s.phase.Replaying? then s
      else if s.phase.rest == [] then s.(phase := Live)
      else s.(phase := Replaying(s.phase.rest[1..]), stream := s.stream.Offer(s.phase.rest[0]))
    case Deliver =>
      if s.phase.Live? && s.channel != [] then s.(channel := s.channel[1..], stream := s.stream.Handle(s.channel[0]))
      else s
    case Disconnect(k) =>
      if s.phase.Idle? || k > |s.stream.out| then s
      else
        var ids := SentIds(s.stream.out[..k]);
        s.(phase := Idle, channel := [], received := s.received + ids,
           lastId := if ids == [] then s.lastId else ids[|ids| - 1])
  }

  function Run(origin: nat, steps: seq<Step>, ordered: bool): Sys {
    if |steps| == 0 then Start(origin)
    else Next(Run(origin, steps[..|steps| - 1], ordered), steps[|steps| - 1], ordered)
  }

  // ---------------------------------------------------------------------------------
  // Sequences

  lemma {:induction false} RankSplits(log: seq<nat>, a: nat)
    requires Increasing(log)
    ensures forall i :: 0 <= i < |log| ==> (i < Rank(log, a) <==> log[i] <= a)
  {
    if log != [] && log[|log| - 1] > a {
      RankSplits(log[..|log| - 1], a);
    }
  }

  lemma RankOfEntry(log: seq<nat>, i: nat)
    requires Increasing(log) && i < |log|
    ensures Rank(log, log[i]) == i + 1
  {
    RankSplits(log, log[i]);
    assert i < Rank(log, log[i]);
    assert i + 1 < |log| ==> !(i + 1 < Rank(log, log[i]));
  }

  lemma RankAppend(log: seq<nat>, x: nat, a: nat)
    requires Increasing(log + [x])
    ensures Rank(log + [x], a) == if x <= a then |log| + 1 else Rank(log, a)
  {
    assert (log + [x])[..|log|] == log;
  }

  lemma SentIdsAppend(out: seq<Frame>, f: Frame)
    ensures SentIds(out + [f]) == SentIds(out) + (match f case WithId(id) => [id] case WithoutId => [])
  {
    assert (out + [f])[..|out|] == out;
  }

  lemma {:induction false} SentIdsPrefix(out: seq<Frame>, k: nat)
    requires k <= |out|
    ensures |SentIds(out[..k])| <= |SentIds(out)| && SentIds(out[..k]) == SentIds(out)[..|SentIds(out[..k])|]
  {
    if k == |out| {
      assert out[..k] == out;
    } else {
      var front := out[..|out| - 1];
      SentIdsPrefix(front, k);
      assert front[..k] == out[..k];
    }
  }

  lemma ChannelAppend(channel: seq<Message>, m: Message)
    ensures ChannelIds(channel + [m]) == ChannelIds(channel) + (match m case Canonical(id) => [id] case _ => [])
  {
    assert (channel + [m])[..|channel|] == channel;
  }

  lemma {:induction false} ChannelPop(channel: seq<Message>)
    requires channel != []
    ensures ChannelIds(channel) == (match channel[0] case Canonical(id) => [id] case _ => []) + ChannelIds(channel[1..])
  {
    if |channel| == 1 {
      assert channel[..0] == [];
    } else {
      var front := channel[..|channel| - 1];
      ChannelPop(front);
      assert channel[1..][..|channel| - 2] == front[1..];
    }
  }

  // ---------------------------------------------------------------------------------
  // Any publishing order

  ghost predicate FromLog(s: Sys, xs: seq<nat>) {
    forall x :: x in xs ==> x in s.log
  }

  ghost predicate IncreasingWithin(xs: seq<nat>, after: nat, last: nat) {
    && Increasing(xs) && after <= last
    && (forall i :: 0 <= i < |xs| ==> after < xs[i] <= last)
    && (if xs == [] then last == after else last == xs[|xs| - 1])
  }

  ghost predicate Inv(s: Sys, origin: nat) {
    && Increasing(s.log)
    && FromLog(s, s.inflight) && FromLog(s, ChannelIds(s.channel)) && FromLog(s, SentIds(s.stream.out))
    && (s.phase.Replaying? ==> FromLog(s, s.phase.rest))
    && FromLog(s, s.received)
    && IncreasingWithin(s.received, origin, s.lastId)
    && (!s.phase.Idle? ==> s.after == s.lastId && IncreasingWithin(SentIds(s.stream.out), s.after, s.stream.lastSent))
  }

  lemma OfferKeeps(s: Sys, x: nat)
    requires x in s.log && FromLog(s, SentIds(s.stream.out))
    requires IncreasingWithin(SentIds(s.stream.out), s.after, s.stream.lastSent)
    ensures var t := s.stream.Offer(x);
            FromLog(s, SentIds(t.out)) && IncreasingWithin(SentIds(t.out), s.after, t.lastSent)
  {
    SentIdsAppend(s.stream.out, WithId(x));
  }

  lemma FromLonger(s: Sys, t: Sys, xs: seq<nat>)
    requires s.log <= t.log && FromLog(s, xs)
    ensures FromLog(t, xs)
  {
  }

  lemma AppendKeeps(s: Sys, x: nat, origin: nat)
    requires Inv(s, origin)
    ensures Inv(Next(s, Append(x), true), origin)
  {
    hide IncreasingWithin;
    var t := Next(s, Append(x), true);
    FromLonger(s, t, s.inflight);
    FromLonger(s, t, ChannelIds(s.channel));
    FromLonger(s, t, SentIds(s.stream.out));
    FromLonger(s, t, s.received);
    if s.phase.Replaying? {
      FromLonger(s, t, s.phase.rest);
    }
  }

  lemma PublishKeeps(s: Sys, i: nat, ordered: bool, origin: nat)
    requires Inv(s, origin)
    ensures Inv(Next(s, Publish(i), ordered), origin)
  {
    hide IncreasingWithin;
    if i < |s.inflight| {
      ChannelAppend(s.channel, Canonical(s.inflight[i]));
    }
  }

  lemma DeliverKeeps(s: Sys, ordered: bool, origin: nat)
    requires Inv(s, origin)
    ensures Inv(Next(s, Deliver, ordered), origin)
  {
    if s.phase.Live? && s.channel != [] {
      HandleKeeps(s, origin);
      TakenKeeps(s);
      hide IncreasingWithin, SentIds, ChannelIds, FromLog;
      assert Next(s, Deliver, ordered) == s.(channel := s.channel[1..], stream := s.stream.Handle(s.channel[0]));
    }
  }

  lemma TakenKeeps(s: Sys)
    requires s.channel != [] && FromLog(s, ChannelIds(s.channel))
    ensures FromLog(s, ChannelIds(s.channel[1..]))
  {
    ChannelPop(s.channel);
  }

  lemma HandleKeeps(s: Sys, origin: nat)
    requires Inv(s, origin) && s.phase.Live? && s.channel != []
    ensures var t := s.stream.Handle(s.channel[0]);
            FromLog(s, SentIds(t.out)) && IncreasingWithin(SentIds(t.out), s.after, t.lastSent)
  {
    hide IncreasingWithin;
    ChannelPop(s.channel);
    match s.channel[0]
    case Canonical(x) =>
      assert x in ChannelIds(s.channel);
      OfferKeeps(s, x);
    case Transient =>
      SentIdsAppend(s.stream.out, WithoutId);
      assert SentIds(s.stream.out) + [] == SentIds(s.stream.out);
    case Malformed =>
  }

  lemma DisconnectKeeps(s: Sys, k: nat, ordered: bool, origin: nat)
    requires Inv(s, origin)
    ensures Inv(Next(s, Disconnect(k), ordered), origin)
  {
    if !s.phase.Idle? && k <= |s.stream.out| {
      var all, ids := SentIds(s.stream.out), SentIds(s.stream.out[..k]);
      SentIdsPrefix(s.stream.out, k);
      PrefixWithin(all, |ids|, s.after, s.stream.lastSent);
      JoinWithin(s.received, ids, origin, s.lastId);
    }
  }

  lemma PrefixWithin(xs: seq<nat>, n: nat, after: nat, last: nat)
    requires IncreasingWithin(xs, after, last) && n <= |xs|
    ensures IncreasingWithin(xs[..n], after, if n == 0 then after else xs[n - 1])
  {
  }

  lemma JoinWithin(xs: seq<nat>, ys: seq<nat>, after: nat, mid: nat)
    requires IncreasingWithin(xs, after, mid) && IncreasingWithin(ys, mid, if ys == [] then mid else ys[|ys| - 1])
    ensures IncreasingWithin(xs + ys, after, if ys == [] then mid else ys[|ys| - 1])
  {
  }

  lemma InvStep(s: Sys, step: Step, ordered: bool, origin: nat)
    requires Inv(s, origin)
    ensures Inv(Next(s, step, ordered), origin)
  {
    match step
    case Append(x) => AppendKeeps(s, x, origin);
    case Publish(i) => PublishKeeps(s, i, ordered, origin);
    case Progress => ChannelAppend(s.channel, Transient);
    case Connect =>
    case ReadLog =>
    case SendReplayed =>
      if s.phase.Replaying? && s.phase.rest != [] {
        OfferKeeps(s, s.phase.rest[0]);
      }
    case Deliver => DeliverKeeps(s, ordered, origin);
    case Disconnect(k) => DisconnectKeeps(s, k, ordered, origin);
  }

  /**
   * Whatever the interleaving and the order of publishing, the ids sent on a connection are log entries after its
   * starting point in strictly increasing order, and so are the ids a client receives over all its connections.
   */
  lemma {:induction false} IdsIncrease(origin: nat, steps: seq<Step>, ordered: bool)
    ensures Inv(Run(origin, steps, ordered), origin)
  {
    if |steps| > 0 {
      IdsIncrease(origin, steps[..|steps| - 1], ordered);
      InvStep(Run(origin, steps[..|steps| - 1], ordered), steps[|steps| - 1], ordered, origin);
    }
  }
}
