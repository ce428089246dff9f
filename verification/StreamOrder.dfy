/** When events are published in log order nothing is skipped. */
module StreamOrder {
  import opened EventStream

  /** What is queued for the connection and what is still to be published. */
  ghost function Ahead(s: Sys): seq<nat> {
    ChannelIds(s.channel) + s.inflight
  }

  /** What is ahead is the tail of the log. */
  ghost predicate AheadIsTail(s: Sys) {
    |Ahead(s)| <= |s.log| && Ahead(s) == s.log[|s.log| - |Ahead(s)|..]
  }

  ghost predicate Anchored(s: Sys, a: nat, base: nat) {
    base <= a && (a == base || a in s.log)
  }

  /** Rows read from the log but not yet sent. */
  function Unsent(s: Sys): seq<nat> {
    if s.phase.Replaying? then s.phase.rest else []
  }

  /** What was sent since `after`, followed by what is left of the replay, is a gapless piece of the log. */
  ghost predicate Gapless(s: Sys) {
    var r := Rank(s.log, s.stream.lastSent);
    && Anchored(s, s.stream.lastSent, s.after)
    && SentIds(s.stream.out) == Between(s.log, s.after, s.stream.lastSent)
    && r + |Unsent(s)| <= |s.log|
    && Unsent(s) == s.log[r..r + |Unsent(s)|]
  }

  /** Log entries that were neither sent nor are part of the replay are still ahead. */
  ghost predicate NothingLost(s: Sys) {
    s.phase.Replaying? || s.phase.Live? ==>
      |s.log| - |Ahead(s)| <= Rank(s.log, s.stream.lastSent) + |Unsent(s)|
  }

  ghost predicate ReceivedGapless(s: Sys, origin: nat) {
    Anchored(s, s.lastId, origin) && s.received == Between(s.log, origin, s.lastId)
  }

  ghost predicate QueueInv(s: Sys) {
    Increasing(s.log) && AheadIsTail(s) && (s.phase.Idle? ==> s.channel == [])
  }

  ghost predicate OrderInv(s: Sys, origin: nat) {
    && QueueInv(s)
    && ReceivedGapless(s, origin)
    && (!s.phase.Idle? ==> s.after == s.lastId && Gapless(s) && NothingLost(s))
    && (s.phase.Subscribed? ==> s.stream == Stream(s.after, []))
  }

  lemma RankMonotone(log: seq<nat>, a: nat, b: nat)
    requires Increasing(log) && a <= b
    ensures Rank(log, a) <= Rank(log, b)
  {
    RankSplits(log, a);
    RankSplits(log, b);
  }

  /** Appending a later entry leaves the piece between two anchored positions as it is. */
  lemma BetweenSurvivesAppend(s: Sys, x: nat, a: nat, b: nat)
    requires Increasing(s.log + [x]) && Increasing(s.log) && Anchored(s, b, a)
    ensures Between(s.log + [x], a, b) == Between(s.log, a, b)
    ensures b in s.log ==> Rank(s.log + [x], b) == Rank(s.log, b)
  {
    RankAppend(s.log, x, a);
    RankAppend(s.log, x, b);
    RankMonotone(s.log, a, b);
    if b in s.log {
      var i :| 0 <= i < |s.log| && s.log[i] == b;
      assert (s.log + [x])[i] == b && (s.log + [x])[|s.log|] == x;
    }
  }

  lemma AppendOrder(s: Sys, x: nat, origin: nat)
    requires OrderInv(s, origin)
    ensures OrderInv(Next(s, Append(x), true), origin)
  {
    hide Rank, Between, SentIds, ChannelIds, Gapless, Ahead, NothingLost, AheadIsTail;
    if s.log == [] || x > s.log[|s.log| - 1] {
      AheadGrows(s, x);
      BetweenSurvivesAppend(s, x, origin, s.lastId);
      if !s.phase.Idle? {
        GaplessAppend(s, x);
      }
    }
  }

  lemma GaplessAppend(s: Sys, x: nat)
    requires QueueInv(s) && Gapless(s) && NothingLost(s) && (s.log == [] || x > s.log[|s.log| - 1])
    ensures Gapless(Next(s, Append(x), true)) && NothingLost(Next(s, Append(x), true))
  {
    hide Rank, Between, SentIds, ChannelIds, Ahead, AheadIsTail;
    var last := s.stream.lastSent;
    AheadGrows(s, x);
    BetweenSurvivesAppend(s, x, s.after, last);
    RankAppend(s.log, x, last);
    if Unsent(s) != [] {
      RankSplits(s.log, last);
      assert s.log[Rank(s.log, last)] > last;
    }
  }

  lemma AheadGrows(s: Sys, x: nat)
    requires QueueInv(s) && (s.log == [] || x > s.log[|s.log| - 1])
    ensures QueueInv(Next(s, Append(x), true))
    ensures |Ahead(Next(s, Append(x), true))| == |Ahead(s)| + 1
  {
    hide ChannelIds, Increasing;
    var t := Next(s, Append(x), true);
    IncreasingAppend(s.log, x);
    assert Ahead(t) == Ahead(s) + [x];
    TailGrows(s.log, Ahead(s), x);
  }

  lemma TailGrows(log: seq<nat>, tail: seq<nat>, x: nat)
    requires |tail| <= |log| && tail == log[|log| - |tail|..]
    ensures tail + [x] == (log + [x])[|log| - |tail|..]
  {
  }

  lemma IncreasingAppend(log: seq<nat>, x: nat)
    requires Increasing(log) && (log == [] || x > log[|log| - 1])
    ensures Increasing(log + [x])
  {
  }

  lemma PublishOrder(s: Sys, origin: nat)
    requires OrderInv(s, origin)
    ensures OrderInv(Next(s, Publish(0), true), origin)
  {
    hide Rank, Between, SentIds, ChannelIds, Gapless, ReceivedGapless, Increasing;
    if s.inflight != [] {
      var t := Next(s, Publish(0), true);
      ChannelAppend(s.channel, Canonical(s.inflight[0]));
      EmptyChannel();
      if s.phase.Idle? {
        AheadShrinks(s, t);
      } else {
        assert Ahead(t) == Ahead(s);
      }
      SameStream(s, t, origin);
    }
  }

  lemma EmptyChannel()
    ensures ChannelIds([]) == []
  {
  }

  /** The claims about the log, what was sent and what was received do not depend on the queues. */
  lemma SameStream(s: Sys, t: Sys, origin: nat)
    requires t == s.(inflight := t.inflight, channel := t.channel)
    ensures Gapless(t) <==> Gapless(s)
    ensures ReceivedGapless(t, origin) <==> ReceivedGapless(s, origin)
  {
  }

  lemma AheadShrinks(s: Sys, t: Sys)
    requires AheadIsTail(s) && s.log == t.log && |Ahead(t)| <= |Ahead(s)|
    requires Ahead(t) == Ahead(s)[|Ahead(s)| - |Ahead(t)|..]
    ensures AheadIsTail(t)
  {
  }

  /** Offering the next log entry extends what was sent by exactly that entry. */
  lemma OfferNext(s: Sys, x: nat)
    requires Increasing(s.log) && Anchored(s, s.stream.lastSent, s.after)
    requires SentIds(s.stream.out) == Between(s.log, s.after, s.stream.lastSent)
    requires Rank(s.log, s.stream.lastSent) < |s.log| && s.log[Rank(s.log, s.stream.lastSent)] == x
    ensures var u := s.stream.Offer(x);
            && u.lastSent == x
            && Rank(s.log, x) == Rank(s.log, s.stream.lastSent) + 1
            && SentIds(u.out) == Between(s.log, s.after, x)
  {
    var r := Rank(s.log, s.stream.lastSent);
    RankSplits(s.log, s.stream.lastSent);
    RankOfEntry(s.log, r);
    RankMonotone(s.log, s.after, s.stream.lastSent);
    SentIdsAppend(s.stream.out, WithId(x));
  }

  lemma SendReplayedOrder(s: Sys, origin: nat)
    requires OrderInv(s, origin)
    ensures OrderInv(Next(s, SendReplayed, true), origin)
  {
    hide Rank, Between, SentIds, ChannelIds;
    if s.phase.Replaying? && s.phase.rest != [] {
      var t := Next(s, SendReplayed, true);
      OfferNext(s, s.phase.rest[0]);
      assert s.phase.rest[0] in s.log;
      assert Ahead(t) == Ahead(s);
    }
  }

  lemma DeliverOrder(s: Sys, origin: nat)
    requires OrderInv(s, origin)
    ensures OrderInv(Next(s, Deliver, true), origin)
  {
    hide Rank, Between, SentIds, ChannelIds;
    if s.phase.Live? && s.channel != [] {
      var t := Next(s, Deliver, true);
      ChannelPop(s.channel);
      match s.channel[0]
      case Malformed =>
        assert Ahead(t) == Ahead(s);
      case Transient =>
        assert Ahead(t) == Ahead(s);
        SentIdsAppend(s.stream.out, WithoutId);
        assert SentIds(s.stream.out) + [] == SentIds(s.stream.out);
      case Canonical(x) =>
        DeliverId(s, x, origin);
    }
  }

  lemma DeliverId(s: Sys, x: nat, origin: nat)
    requires OrderInv(s, origin) && s.phase.Live? && s.channel != [] && s.channel[0] == Canonical(x)
    ensures OrderInv(Next(s, Deliver, true), origin)
  {
    hide Rank, Between, SentIds, ChannelIds, Ahead, AheadIsTail;
    HeadOfChannel(s, x);
    RankSplits(s.log, s.stream.lastSent);
    if |s.log| - |Ahead(s)| == Rank(s.log, s.stream.lastSent) {
      OfferNext(s, x);
    }
  }

  lemma HeadOfChannel(s: Sys, x: nat)
    requires QueueInv(s) && s.phase.Live? && s.channel != [] && s.channel[0] == Canonical(x)
    ensures var t := Next(s, Deliver, true);
            && AheadIsTail(t) && |Ahead(t)| == |Ahead(s)| - 1
            && |Ahead(s)| <= |s.log| && s.log[|s.log| - |Ahead(s)|] == x
  {
    hide ChannelIds, Increasing;
    var t := Next(s, Deliver, true);
    ChannelPop(s.channel);
    assert Ahead(s) == [x] + Ahead(t);
    assert Ahead(s)[0] == x;
    AheadShrinks(s, t);
  }

  lemma DisconnectOrder(s: Sys, k: nat, origin: nat)
    requires OrderInv(s, origin)
    ensures OrderInv(Next(s, Disconnect(k), true), origin)
  {
    hide Rank, SentIds, ChannelIds, Between, Ahead, AheadIsTail, NothingLost;
    if !s.phase.Idle? && k <= |s.stream.out| {
      SentIdsPrefix(s.stream.out, k);
      QueueDropped(s, Next(s, Disconnect(k), true));
      var ids := SentIds(s.stream.out[..k]);
      if ids == [] {
        assert s.received + ids == s.received;
      } else {
        JoinPieces(s, ids, origin);
      }
    }
  }

  lemma QueueDropped(s: Sys, t: Sys)
    requires QueueInv(s) && t.log == s.log && t.inflight == s.inflight && t.channel == [] && t.phase == Idle
    ensures QueueInv(t)
  {
    hide ChannelIds, Increasing;
    EmptyChannel();
    assert Ahead(t) == s.inflight;
    assert Ahead(t) == Ahead(s)[|Ahead(s)| - |Ahead(t)|..];
    AheadShrinks(s, t);
  }

  lemma JoinPieces(s: Sys, ids: seq<nat>, origin: nat)
    requires Increasing(s.log) && ReceivedGapless(s, origin) && s.after == s.lastId && s.after <= s.stream.lastSent
    requires var all := Between(s.log, s.after, s.stream.lastSent); 0 < |ids| <= |all| && ids == all[..|ids|]
    ensures var last := ids[|ids| - 1];
            && Anchored(s, last, origin)
            && s.received + ids == Between(s.log, origin, last)
  {
    hide Rank;
    RankMonotone(s.log, origin, s.lastId);
    RankMonotone(s.log, s.after, s.stream.lastSent);
    var r := Rank(s.log, s.after);
    var i := r + |ids| - 1;
    assert ids == s.log[r..i + 1];
    RankOfEntry(s.log, i);
    RankSplits(s.log, s.after);
    assert s.received + ids == s.log[Rank(s.log, origin)..i + 1];
  }

  lemma ReadLogOrder(s: Sys, origin: nat)
    requires OrderInv(s, origin)
    ensures OrderInv(Next(s, ReadLog, true), origin)
  {
    assert Ahead(Next(s, ReadLog, true)) == Ahead(s) && SentIds([]) == [];
    hide SentIds, ChannelIds, Increasing, Rank, Ahead;
    var r := Rank(s.log, s.after);
    assert s.log[r..] == s.log[r..|s.log|] && s.log[r..r] == [];
  }

  /** Steps that leave the log, the stream and what is ahead as they are. */
  lemma QuietStep(s: Sys, t: Sys, origin: nat)
    requires OrderInv(s, origin) && t == s.(channel := t.channel) && Ahead(t) == Ahead(s) && !s.phase.Idle?
    ensures OrderInv(t, origin)
  {
    hide Rank, Between, SentIds, ChannelIds, Gapless, ReceivedGapless, Ahead;
    SameStream(s, t, origin);
  }

  lemma ConnectOrder(s: Sys, origin: nat)
    requires OrderInv(s, origin)
    ensures OrderInv(Next(s, Connect, true), origin)
  {
    hide ChannelIds, Increasing;
    if s.phase.Idle? {
      var t := Next(s, Connect, true);
      assert Ahead(t) == Ahead(s);
      ConnectGapless(t);
    }
  }

  lemma ConnectGapless(t: Sys)
    requires t.phase == Subscribed && t.stream == Stream(t.after, [])
    ensures Gapless(t) && NothingLost(t)
  {
  }

  lemma OrderStep(s: Sys, step: Step, origin: nat)
    requires OrderInv(s, origin)
    ensures OrderInv(Next(s, step, true), origin)
  {
    hide OrderInv;
    match step
    case Append(x) => AppendOrder(s, x, origin);
    case Publish(i) => if i == 0 { PublishOrder(s, origin); }
    case Progress => ProgressOrder(s, origin);
    case Connect => ConnectOrder(s, origin);
    case ReadLog => ReadLogOrder(s, origin);
    case SendReplayed => SendReplayedOrder(s, origin);
    case Deliver => DeliverOrder(s, origin);
    case Disconnect(k) => DisconnectOrder(s, k, origin);
  }

  lemma ProgressOrder(s: Sys, origin: nat)
    requires OrderInv(s, origin)
    ensures OrderInv(Next(s, Progress, true), origin)
  {
    if !s.phase.Idle? {
      var t := Next(s, Progress, true);
      ChannelAppend(s.channel, Transient);
      assert Ahead(t) == Ahead(s);
      QuietStep(s, t, origin);
    }
  }

  lemma {:induction false} OrderInvHolds(origin: nat, steps: seq<Step>)
    ensures OrderInv(Run(origin, steps, true), origin)
  {
    if |steps| > 0 {
      OrderInvHolds(origin, steps[..|steps| - 1]);
      OrderStep(Run(origin, steps[..|steps| - 1], true), steps[|steps| - 1], origin);
    }
  }

  /**
   * With publishing in log order: a connection has sent exactly the log entries after its starting point up to the
   * last one sent; appended to what the client received before, they still form one gapless piece of the log; and
   * nothing newer is lost, so an idle live connection has sent everything.
   */
  lemma NothingSkipped(origin: nat, steps: seq<Step>)
    ensures var s := Run(origin, steps, true);
            && s.received == Between(s.log, origin, s.lastId)
            && (!s.phase.Idle? ==>
                  && SentIds(s.stream.out) == Between(s.log, s.after, s.stream.lastSent)
                  && s.received + SentIds(s.stream.out) == Between(s.log, origin, s.stream.lastSent))
            && (s.phase.Live? ==> forall x :: x in s.log && x > s.stream.lastSent ==> x in Ahead(s))
            && (s.phase.Live? && Ahead(s) == [] ==> forall x :: x in s.log ==> x <= s.stream.lastSent)
  {
    hide Rank, Between, SentIds, ChannelIds, Run, Ahead;
    OrderInvHolds(origin, steps);
    var s := Run(origin, steps, true);
    if !s.phase.Idle? {
      JoinSent(s, origin);
      if s.phase.Live? {
        StillAhead(s);
      }
    }
  }

  lemma JoinSent(s: Sys, origin: nat)
    requires OrderInv(s, origin) && !s.phase.Idle?
    ensures s.received + SentIds(s.stream.out) == Between(s.log, origin, s.stream.lastSent)
  {
    hide Rank, SentIds;
    RankMonotone(s.log, origin, s.lastId);
    RankMonotone(s.log, s.after, s.stream.lastSent);
  }

  lemma StillAhead(s: Sys)
    requires QueueInv(s) && NothingLost(s) && s.phase.Live?
    ensures forall x :: x in s.log && x > s.stream.lastSent ==> x in Ahead(s)
  {
    hide Rank, Ahead;
    RankSplits(s.log, s.stream.lastSent);
    var q := |s.log| - |Ahead(s)|;
    var r := Rank(s.log, s.stream.lastSent);
    assert q <= r;
    InTail(s.log, q, r, s.stream.lastSent);
  }

  lemma InTail(log: seq<nat>, q: nat, r: nat, last: nat)
    requires q <= r <= |log| && forall i :: 0 <= i < |log| ==> (i < r <==> log[i] <= last)
    ensures forall x :: x in log && x > last ==> x in log[q..]
  {
    forall x | x in log && x > last ensures x in log[q..] {
      var i :| 0 <= i < |log| && log[i] == x;
      assert log[q..][i - q] == x;
    }
  }
}
