/** When events are published out of log order, a live connection skips exactly the overtaken ones. */
module StreamSkips {
  import opened EventStream
  import opened StreamOrder

  /** The ids that a connection at `last` sends when `arrivals` arrive. */
  function Accepted(last: nat, arrivals: seq<nat>): seq<nat>
    decreases |arrivals|
  {
    if arrivals == [] then []
    else if arrivals[0] > last then [arrivals[0]] + Accepted(arrivals[0], arrivals[1..])
    else Accepted(last, arrivals[1..])
  }

  /** The ids among `arrivals` that are new to the connection. */
  function Fresh(last: nat, arrivals: seq<nat>): (r: seq<nat>)
    ensures forall x :: x in r <==> x in arrivals && x > last
  {
    if arrivals == [] then []
    else (if arrivals[0] > last then [arrivals[0]] else []) + Fresh(last, arrivals[1..])
  }

  lemma {:induction false} OfferAllSendsAccepted(st: Stream, arrivals: seq<nat>)
    ensures SentIds(st.OfferAll(arrivals).out) == SentIds(st.out) + Accepted(st.lastSent, arrivals)
    decreases |arrivals|
  {
    if arrivals != [] {
      SentIdsAppend(st.out, WithId(arrivals[0]));
      OfferAllSendsAccepted(st.Offer(arrivals[0]), arrivals[1..]);
    }
  }

  lemma {:induction false} AcceptedIncreases(last: nat, arrivals: seq<nat>)
    ensures Increasing(Accepted(last, arrivals)) && forall x :: x in Accepted(last, arrivals) ==> x > last
    decreases |arrivals|
  {
    if arrivals != [] {
      var next := if arrivals[0] > last then arrivals[0] else last;
      AcceptedIncreases(next, arrivals[1..]);
      forall i | 0 <= i < |Accepted(next, arrivals[1..])| ensures Accepted(next, arrivals[1..])[i] > next {
        assert Accepted(next, arrivals[1..])[i] in Accepted(next, arrivals[1..]);
      }
    }
  }

  lemma {:induction false} FreshAbove(a: nat, b: nat, arrivals: seq<nat>)
    requires a <= b && forall x :: x in Fresh(a, arrivals) ==> x > b
    ensures Fresh(a, arrivals) == Fresh(b, arrivals)
  {
    if arrivals != [] {
      assert forall x :: x in Fresh(a, arrivals[1..]) ==> x in Fresh(a, arrivals);
      FreshAbove(a, b, arrivals[1..]);
      assert arrivals[0] > a ==> arrivals[0] in Fresh(a, arrivals);
    }
  }

  /** A live connection sends every new id that arrives exactly when the new ids arrive in increasing order. */
  lemma {:induction false} SkipsNothingExactlyInOrder(last: nat, arrivals: seq<nat>)
    ensures Accepted(last, arrivals) == Fresh(last, arrivals) <==> Increasing(Fresh(last, arrivals))
    decreases |arrivals|
  {
    AcceptedIncreases(last, arrivals);
    if arrivals != [] && Increasing(Fresh(last, arrivals)) {
      var x, rest := arrivals[0], arrivals[1..];
      if x > last {
        assert Fresh(last, arrivals)[1..] == Fresh(last, rest);
        forall y | y in Fresh(last, rest) ensures y > x {
          var i :| 0 <= i < |Fresh(last, rest)| && Fresh(last, rest)[i] == y;
          assert Fresh(last, arrivals)[0] == x && Fresh(last, arrivals)[i + 1] == y;
        }
        FreshAbove(last, x, rest);
        SkipsNothingExactlyInOrder(x, rest);
      } else {
        assert Fresh(last, arrivals) == Fresh(last, rest);
        SkipsNothingExactlyInOrder(last, rest);
      }
    }
  }

  // ---------------------------------------------------------------------------------
  // Entry by entry

  /** The `i`-th arrival is newer than what was sent and than every earlier arrival. */
  predicate IsNewest(last: nat, arrivals: seq<nat>, i: nat)
    requires i < |arrivals|
  {
    arrivals[i] > last && forall j :: 0 <= j < i ==> arrivals[j] < arrivals[i]
  }

  /** The arrivals that are newest when they arrive. */
  function Newest(last: nat, arrivals: seq<nat>): seq<nat> {
    if arrivals == [] then []
    else
      var n := |arrivals| - 1;
      Newest(last, arrivals[..n]) + if IsNewest(last, arrivals, n) then [arrivals[n]] else []
  }

  lemma OfferNewest(st: Stream, arrivals: seq<nat>, x: nat)
    ensures st.OfferAll(arrivals + [x]) == st.OfferAll(arrivals).Offer(x)
    decreases |arrivals|
  {
    if arrivals == [] {
      assert [x][1..] == [];
    } else {
      assert (arrivals + [x])[1..] == arrivals[1..] + [x];
      OfferNewest(st.Offer(arrivals[0]), arrivals[1..], x);
    }
  }

  /** The last id sent after some arrivals is the largest of them and of the last one sent before. */
  lemma {:induction false} LastIsLargest(st: Stream, arrivals: seq<nat>)
    ensures var last := st.OfferAll(arrivals).lastSent;
            last >= st.lastSent && (forall i :: 0 <= i < |arrivals| ==> arrivals[i] <= last) &&
            (last == st.lastSent || last in arrivals)
  {
    if arrivals != [] {
      var n := |arrivals| - 1;
      LastIsLargest(st, arrivals[..n]);
      OfferNewest(st, arrivals[..n], arrivals[n]);
      assert arrivals == arrivals[..n] + [arrivals[n]];
    }
  }

  /** An arrival is sent if and only if it is newer than what was sent before and than every earlier arrival. */
  lemma SentExactlyWhenNewest(st: Stream, arrivals: seq<nat>, i: nat)
    requires i < |arrivals|
    ensures var before, after := st.OfferAll(arrivals[..i]), st.OfferAll(arrivals[..i + 1]);
            after == if IsNewest(st.lastSent, arrivals, i)
                     then Stream(arrivals[i], before.out + [WithId(arrivals[i])]) else before
  {
    LastIsLargest(st, arrivals[..i]);
    OfferNewest(st, arrivals[..i], arrivals[i]);
    assert arrivals[..i + 1] == arrivals[..i] + [arrivals[i]];
  }

  lemma {:induction false} AcceptedAreNewest(last: nat, arrivals: seq<nat>)
    ensures Accepted(last, arrivals) == Newest(last, arrivals)
  {
    OfferAllSendsAccepted(Stream(last, []), arrivals);
    SendsNewest(Stream(last, []), arrivals);
    assert [] + Accepted(last, arrivals) == Accepted(last, arrivals);
    assert [] + Newest(last, arrivals) == Newest(last, arrivals);
  }

  lemma {:induction false} SendsNewest(st: Stream, arrivals: seq<nat>)
    ensures SentIds(st.OfferAll(arrivals).out) == SentIds(st.out) + Newest(st.lastSent, arrivals)
  {
    if arrivals != [] {
      var n := |arrivals| - 1;
      SendsNewest(st, arrivals[..n]);
      SentExactlyWhenNewest(st, arrivals, n);
      assert arrivals[..n + 1] == arrivals;
      SentIdsAppend(st.OfferAll(arrivals[..n]).out, WithId(arrivals[n]));
    }
  }

  // ---------------------------------------------------------------------------------
  // A live connection of the system

  /** The system after more steps. */
  function RunFrom(s: Sys, steps: seq<Step>, ordered: bool): Sys {
    if steps == [] then s else Next(RunFrom(s, steps[..|steps| - 1], ordered), steps[|steps| - 1], ordered)
  }

  lemma {:induction false} RunOn(origin: nat, steps: seq<Step>, more: seq<Step>, ordered: bool)
    ensures Run(origin, steps + more, ordered) == RunFrom(Run(origin, steps, ordered), more, ordered)
  {
    if more == [] {
      assert steps + more == steps;
    } else {
      assert (steps + more)[..|steps + more| - 1] == steps + more[..|more| - 1];
      RunOn(origin, steps, more[..|more| - 1], ordered);
    }
  }

  /**
   * The `j`-th message is passed on: an event without a sequence number always is, a canonical one if it is newer
   * than what was sent and than every earlier one.
   */
  predicate IsSent(last: nat, messages: seq<Message>, j: nat)
    requires j < |messages|
  {
    match messages[j]
    case Canonical(x) => x > last && forall i :: 0 <= i < j && messages[i].Canonical? ==> messages[i].seqNo < x
    case Transient => true
    case Malformed => false
  }

  function FrameOf(m: Message): Frame {
    if m.Canonical? then WithId(m.seqNo) else WithoutId
  }

  /** The frames of the messages that are passed on, in order. */
  function Sends(last: nat, messages: seq<Message>): seq<Frame> {
    if messages == [] then []
    else
      var n := |messages| - 1;
      Sends(last, messages[..n]) + if IsSent(last, messages, n) then [FrameOf(messages[n])] else []
  }

  /** `top` is the largest of `last` and the sequence numbers among the messages. */
  ghost predicate IsTop(last: nat, messages: seq<Message>, top: nat) {
    && top >= last && (top == last || Canonical(top) in messages)
    && forall i :: 0 <= i < |messages| && messages[i].Canonical? ==> messages[i].seqNo <= top
  }

  /** Every transient message is passed on, and nothing else goes out without an id. */
  lemma {:induction false} EveryTransientIsSent(last: nat, messages: seq<Message>)
    ensures multiset(Sends(last, messages))[WithoutId] == multiset(messages)[Transient]
  {
    if messages != [] {
      var n := |messages| - 1;
      EveryTransientIsSent(last, messages[..n]);
      assert messages == messages[..n] + [messages[n]];
      assert IsSent(last, messages, n) ==> (FrameOf(messages[n]) == WithoutId <==> messages[n] == Transient);
    }
  }

  lemma {:induction false} ChannelMembers(messages: seq<Message>, x: nat)
    ensures x in ChannelIds(messages) <==> Canonical(x) in messages
  {
    if messages != [] {
      ChannelMembers(messages[..|messages| - 1], x);
      assert messages == messages[..|messages| - 1] + [messages[|messages| - 1]];
    }
  }

  /** The ids that go out are the newest-so-far among those that came in. */
  lemma {:induction false} SendsIds(last: nat, messages: seq<Message>)
    ensures SentIds(Sends(last, messages)) == Newest(last, ChannelIds(messages))
  {
    if messages != [] {
      SendsIds(last, messages[..|messages| - 1]);
      NewestMore(last, messages);
      SentMore(last, messages);
    }
  }

  lemma SentMore(last: nat, messages: seq<Message>)
    requires messages != []
    ensures var n := |messages| - 1;
            SentIds(Sends(last, messages)) == SentIds(Sends(last, messages[..n])) +
            if messages[n].Canonical? && IsSent(last, messages, n) then [messages[n].seqNo] else []
  {
    var n := |messages| - 1;
    var before := Sends(last, messages[..n]);
    NextSends(last, messages[..n], messages[n]);
    assert messages == messages[..n] + [messages[n]];
    hide Sends, SentIds;
    assert SentIds(before) + [] == SentIds(before) && before + [] == before;
    SentIdsAppend(before, FrameOf(messages[n]));
  }

  lemma NewestMore(last: nat, messages: seq<Message>)
    requires messages != []
    ensures var n := |messages| - 1;
            Newest(last, ChannelIds(messages)) == Newest(last, ChannelIds(messages[..n])) +
            if messages[n].Canonical? && IsSent(last, messages, n) then [messages[n].seqNo] else []
  {
    var n := |messages| - 1;
    var front, m := messages[..n], messages[n];
    var ids := ChannelIds(front);
    assert messages == front + [m];
    ChannelAppend(front, m);
    if m.Canonical? {
      var all := ids + [m.seqNo];
      assert all[..|ids|] == ids;
      NewestIsSent(last, messages, all);
    } else {
      assert ids + [] == ids && Newest(last, ids) + [] == Newest(last, ids);
    }
  }

  lemma NewestIsSent(last: nat, messages: seq<Message>, all: seq<nat>)
    requires messages != [] && messages[|messages| - 1].Canonical?
    requires all == ChannelIds(messages[..|messages| - 1]) + [messages[|messages| - 1].seqNo]
    ensures IsNewest(last, all, |all| - 1) <==> IsSent(last, messages, |messages| - 1)
  {
    hide ChannelIds;
    var n, x := |messages| - 1, messages[|messages| - 1].seqNo;
    var ids := ChannelIds(messages[..n]);
    forall i | 0 <= i < n && messages[i].Canonical? ensures messages[i].seqNo in ids {
      ChannelMembers(messages[..n], messages[i].seqNo);
      assert messages[..n][i] == messages[i];
    }
    forall j | 0 <= j < |ids| ensures exists i :: 0 <= i < n && messages[i] == Canonical(ids[j]) {
      ChannelMembers(messages[..n], ids[j]);
      var i :| 0 <= i < n && messages[..n][i] == Canonical(ids[j]);
    }
    if IsNewest(last, all, |all| - 1) {
      forall i | 0 <= i < n && messages[i].Canonical? ensures messages[i].seqNo < x {
        var j :| 0 <= j < |ids| && ids[j] == messages[i].seqNo;
        assert all[j] < all[|all| - 1];
      }
    }
  }

  lemma {:induction false} SendsMembers(last: nat, messages: seq<Message>, x: nat)
    ensures WithId(x) in Sends(last, messages) <==>
            exists j :: 0 <= j < |messages| && messages[j] == Canonical(x) && IsSent(last, messages, j)
  {
    if messages != [] {
      var n := |messages| - 1;
      SendsMembers(last, messages[..n], x);
      forall j | 0 <= j < n ensures IsSent(last, messages[..n], j) <==> IsSent(last, messages, j) {
      }
      if j :| 0 <= j < n && messages[..n][j] == Canonical(x) && IsSent(last, messages[..n], j) {
        assert messages[j] == Canonical(x) && IsSent(last, messages, j);
      }
    }
  }

  /** The messages that a step publishes to a subscribed connection, and those that it takes off its queue. */
  function Publishes(s: Sys, step: Step, ordered: bool): seq<Message> {
    if step.Progress? then [Transient]
    else if step.Publish? && step.index < |s.inflight| && (ordered ==> step.index == 0)
    then [Canonical(s.inflight[step.index])]
    else []
  }

  function Takes(s: Sys, step: Step): seq<Message> {
    if step.Deliver? && s.channel != [] then [s.channel[0]] else []
  }

  function Published(s: Sys, steps: seq<Step>, ordered: bool): seq<Message> {
    if steps == [] then []
    else
      var n := |steps| - 1;
      Published(s, steps[..n], ordered) + Publishes(RunFrom(s, steps[..n], ordered), steps[n], ordered)
  }

  function Taken(s: Sys, steps: seq<Step>, ordered: bool): seq<Message> {
    if steps == [] then []
    else
      var n := |steps| - 1;
      Taken(s, steps[..n], ordered) + Takes(RunFrom(s, steps[..n], ordered), steps[n])
  }

  ghost predicate StaysConnected(steps: seq<Step>) {
    forall step :: step in steps ==> !step.Disconnect?
  }

  /** From `s` to `t` a live connection took these messages, sent their frames, and queued the published ones. */
  ghost predicate WentLive(s: Sys, t: Sys, taken: seq<Message>, published: seq<Message>) {
    && t.phase.Live?
    && taken + t.channel == s.channel + published
    && IsTop(s.stream.lastSent, taken, t.stream.lastSent)
    && t.stream.out == s.stream.out + Sends(s.stream.lastSent, taken)
  }

  lemma HandleSends(last: nat, messages: seq<Message>, before: seq<Frame>, st: Stream, m: Message)
    requires IsTop(last, messages, st.lastSent) && st.out == before + Sends(last, messages)
    ensures IsTop(last, messages + [m], st.Handle(m).lastSent)
    ensures st.Handle(m).out == before + Sends(last, messages + [m])
  {
    var all := messages + [m];
    assert all[..|messages|] == messages;
    TopDecides(last, messages, st.lastSent, m);
    hide Sends, IsSent;
    NextSends(last, messages, m);
  }

  lemma NextSends(last: nat, messages: seq<Message>, m: Message)
    ensures Sends(last, messages + [m]) ==
            Sends(last, messages) + if IsSent(last, messages + [m], |messages|) then [FrameOf(m)] else []
  {
    assert (messages + [m])[..|messages|] == messages;
  }

  /** The largest sequence number so far decides whether the next message is passed on. */
  lemma TopDecides(last: nat, messages: seq<Message>, top: nat, m: Message)
    requires IsTop(last, messages, top)
    ensures IsSent(last, messages + [m], |messages|) <==> m.Transient? || (m.Canonical? && m.seqNo > top)
    ensures IsTop(last, messages + [m], if m.Canonical? && m.seqNo > top then m.seqNo else top)
  {
    var all := messages + [m];
    assert all[|messages|] == m;
    if top != last {
      var i :| 0 <= i < |messages| && messages[i] == Canonical(top);
      assert all[i] == Canonical(top);
    }
  }

  /** A delivery takes the oldest message. */
  lemma DeliverLive(s: Sys, mid: Sys, taken: seq<Message>, published: seq<Message>, ordered: bool)
    requires WentLive(s, mid, taken, published) && mid.channel != []
    ensures WentLive(s, Next(mid, Deliver, ordered), taken + [mid.channel[0]], published)
  {
    hide IsTop, Sends;
    HandleSends(s.stream.lastSent, taken, s.stream.out, mid.stream, mid.channel[0]);
    assert taken + mid.channel == taken + [mid.channel[0]] + mid.channel[1..];
  }

  /** Every other step leaves the connection alone, apart from what it publishes. */
  lemma QueueLive(s: Sys, mid: Sys, t: Sys, taken: seq<Message>, published: seq<Message>, publishes: seq<Message>)
    requires WentLive(s, mid, taken, published)
    requires t.phase == mid.phase && t.stream == mid.stream && t.channel == mid.channel + publishes
    ensures WentLive(s, t, taken, published + publishes)
  {
    hide IsTop, Sends;
    assert taken + (mid.channel + publishes) == taken + mid.channel + publishes;
  }

  lemma LiveStep(s: Sys, mid: Sys, step: Step, taken: seq<Message>, published: seq<Message>, ordered: bool)
    requires WentLive(s, mid, taken, published) && !step.Disconnect?
    ensures WentLive(s, Next(mid, step, ordered), taken + Takes(mid, step), published + Publishes(mid, step, ordered))
  {
    hide IsTop, Sends;
    assert mid.phase.Live?;
    assert taken + [] == taken && published + [] == published && mid.channel + [] == mid.channel;
    hide WentLive;
    if step.Deliver? && mid.channel != [] {
      DeliverLive(s, mid, taken, published, ordered);
    } else {
      QueueLive(s, mid, Next(mid, step, ordered), taken, published, Publishes(mid, step, ordered));
    }
  }

  /**
   * While a connection stays live, whatever else happens: messages come off its queue in the order in which they were
   * published, and it sends a frame for each transient one and for each canonical one that is newer than everything
   * sent or taken before, in that order, and nothing else.
   */
  lemma {:induction false} LiveConnectionSendsNewest(s: Sys, steps: seq<Step>, ordered: bool)
    requires s.phase.Live? && StaysConnected(steps)
    ensures WentLive(s, RunFrom(s, steps, ordered), Taken(s, steps, ordered), Published(s, steps, ordered))
  {
    hide WentLive, Next, Takes, Publishes;
    if steps == [] {
      NoSteps(s);
    } else {
      var n := |steps| - 1;
      assert forall step :: step in steps[..n] ==> step in steps;
      LiveConnectionSendsNewest(s, steps[..n], ordered);
      assert steps[n] in steps;
      LiveStep(s, RunFrom(s, steps[..n], ordered), steps[n], Taken(s, steps[..n], ordered),
               Published(s, steps[..n], ordered), ordered);
    }
  }

  lemma NoSteps(s: Sys)
    requires s.phase.Live?
    ensures WentLive(s, s, [], [])
  {
    assert [] + s.channel == s.channel + [];
    assert s.stream.out + [] == s.stream.out;
  }

  /**
   * In the system with any publishing order: between two moments at which a live connection has nothing queued, it
   * has passed on every transient event, and an event of the log if and only if, when that was published, it was newer
   * than everything sent or published before it on this connection.
   */
  lemma SkippedExactlyWhenOvertaken(origin: nat, steps: seq<Step>, more: seq<Step>)
    requires Run(origin, steps, false).phase.Live? && StaysConnected(more)
    requires Run(origin, steps, false).channel == [] && Run(origin, steps + more, false).channel == []
    ensures var s, t := Run(origin, steps, false), Run(origin, steps + more, false);
            var last, published := s.stream.lastSent, Published(s, more, false);
            && t.phase.Live?
            && t.stream.out == s.stream.out + Sends(last, published)
            && multiset(Sends(last, published))[WithoutId] == multiset(published)[Transient]
            && forall x ::
                 WithId(x) in Sends(last, published) <==>
                 exists j :: 0 <= j < |published| && published[j] == Canonical(x) && IsSent(last, published, j)
  {
    hide Sends, IsSent, Published, Taken, RunFrom, Run, IsTop;
    var s := Run(origin, steps, false);
    RunOn(origin, steps, more, false);
    LiveConnectionSendsNewest(s, more, false);
    var published := Published(s, more, false);
    assert Taken(s, more, false) + [] == Taken(s, more, false) && [] + published == published;
    EveryTransientIsSent(s.stream.lastSent, published);
    forall x ensures WithId(x) in Sends(s.stream.lastSent, published) <==>
                     exists j :: 0 <= j < |published| && published[j] == Canonical(x) &&
                                 IsSent(s.stream.lastSent, published, j)
    {
      SendsMembers(s.stream.lastSent, published, x);
    }
  }

  // ---------------------------------------------------------------------------------
  // A run that skips an entry

  const SKIPPING := [Connect, ReadLog, SendReplayed, Append(1), Append(2), Publish(1), Publish(0), Deliver, Deliver]

  lemma RunStep(origin: nat, steps: seq<Step>, step: Step, ordered: bool)
    ensures Run(origin, steps + [step], ordered) == Next(Run(origin, steps, ordered), step, ordered)
  {
    assert (steps + [step])[..|steps|] == steps;
  }

  /** Two events published in the wrong order: the connection ends live with nothing queued, the first never sent. */
  lemma OvertakenEventIsSkipped()
    ensures var s := Run(0, SKIPPING, false);
            s.phase.Live? && s.log == [1, 2] && s.inflight == [] && s.channel == [] && SentIds(s.stream.out) == [2]
  {
    var live := Sys([1, 2], [1, 2], Live, 0, Stream(0, []), [], 0, []);
    hide Run;
    BecomesLive(live);
    PublishesBackwards(live);
    assert SKIPPING == SKIPPING[..5] + [Publish(1), Publish(0), Deliver, Deliver];
  }

  lemma BecomesLive(live: Sys)
    requires live == Sys([1, 2], [1, 2], Live, 0, Stream(0, []), [], 0, [])
    ensures Run(0, SKIPPING[..5], false) == live
  {
    assert SKIPPING[..5] == [] + [Connect] + [ReadLog] + [SendReplayed] + [Append(1)] + [Append(2)];
    RunStep(0, [], Connect, false);
    RunStep(0, [] + [Connect], ReadLog, false);
    RunStep(0, [] + [Connect] + [ReadLog], SendReplayed, false);
    RunStep(0, [] + [Connect] + [ReadLog] + [SendReplayed], Append(1), false);
    RunStep(0, [] + [Connect] + [ReadLog] + [SendReplayed] + [Append(1)], Append(2), false);
  }

  lemma PublishesBackwards(live: Sys)
    requires live == Sys([1, 2], [1, 2], Live, 0, Stream(0, []), [], 0, []) && Run(0, SKIPPING[..5], false) == live
    ensures Run(0, SKIPPING[..5] + [Publish(1), Publish(0), Deliver, Deliver], false) ==
            Sys([1, 2], [], Live, 0, Stream(2, [WithId(2)]), [], 0, [])
  {
    hide Run;
    var k := SKIPPING[..5];
    assert k + [Publish(1), Publish(0), Deliver, Deliver] == k + [Publish(1)] + [Publish(0)] + [Deliver] + [Deliver];
    RunStep(0, k, Publish(1), false);
    RunStep(0, k + [Publish(1)], Publish(0), false);
    RunStep(0, k + [Publish(1)] + [Publish(0)], Deliver, false);
    RunStep(0, k + [Publish(1)] + [Publish(0)] + [Deliver], Deliver, false);
  }
}
