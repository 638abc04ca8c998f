/** Runs in which the assumptions on a run are missing: a stale copy that is delivered a turn of
    the ids later, and an old datagram that is acknowledged again a turn of the ids later.  In both
    no ack is late, so nothing depends on how acks themselves are numbered and encrypted. */
module Failures {
  import opened Options
  import opened PacketNumbers
  import opened Receive
  import opened Resend
  import opened Transport
  import opened Reliability
  import opened Rounds
  import opened Words

  // ---------- A copy that is delivered a turn later ----------

  /** The packet that is queued twice. */
  function Twice(c: Config): Packet {
    The(c, c.start + 1)
  }

  lemma OnlyTwiceWaits(c: Config, id: u16)
    ensures Position([Twice(c)], id) == None <==> id != (c.start + 1) % 0x1_0000
    ensures Position([Twice(c)], (c.start + 1) % 0x1_0000) == Some(0)
  {
  }

  /** The second packet overtakes the first and arrives two times before it. */
  function Overtaken(c: Config, queue: seq<Packet>, acks: set<nat>): System {
    var both := {c.start, c.start + 1};
    System(Commands(2), Packets(c, c.start, 2), both, both, acks, State(c.start, queue, None), [], false)
  }

  lemma BothPending(c: Config)
    ensures Pending(c, 0, 2, 0) == {c.start, c.start + 1} && Seen(c, 0, 0) == {}
  {
    IntervalIs(c.start + 1, c.start + 2);
    IntervalIs(c.start, c.start);
    IntervalIs(c.start + 1, c.start + 1);
    forall m: nat
      ensures m in Pending(c, 0, 2, 0) <==> m in {c.start, c.start + 1}
    {
      PendingIs(c, 0, 2, 0, m);
    }
  }

  lemma SpanOfBoth(c: Config)
    requires c.start <= 1
    ensures |Span({c.start, c.start + 1}, c.start)| <= 2 && |Span({c.start, c.start + 1}, c.start + 1)| <= 2
  {
    SubsetIsSmaller(Span({c.start, c.start + 1}, c.start), {c.start, c.start + 1});
    SubsetIsSmaller(Span({c.start, c.start + 1}, c.start + 1), {c.start, c.start + 1});
  }

  lemma BothTransmitted(c: Config)
    requires c.start <= 1 && c.window >= 2
    ensures Shown(c, Overtaken(c, [], {}))
  {
    hide Shown, Pending, Seen, Commands, Packets, Span;
    var s := Stage(c, 0, 2, 0, []);
    ManySent(c, 0, 2);
    BothPending(c);
    SpanOfBoth(c);
    assert Commands(0) == [];
    OneStep(c, s, Transmit(c.start));
    var s2 := s.(network := s.network + {c.start});
    OneStep(c, s2, Transmit(c.start + 1));
    assert {} + {c.start} + {c.start + 1} == {c.start, c.start + 1};
  }

  lemma TwoPackets(c: Config)
    ensures Packets(c, c.start, 2) == [The(c, c.start), Twice(c)]
    ensures Commands(2) == [Content(0), Content(1)]
  {
  }

  /** A packet one ahead is queued, as often as it arrives. */
  lemma OneAheadIsQueued(c: Config, s: System)
    requires c.start <= 1 && s.rcv.next == c.start && s.log == [The(c, c.start), Twice(c)]
    ensures AfterDeliver(c, s, c.start + 1) ==
            s.(rcv := s.rcv.(queue := s.rcv.queue + [Twice(c)]), acks := s.acks + {c.start + 1})
    ensures HandleUdp(c.z, c.dir, s.rcv, Twice(c)).ack
  {
    hide InReceiveWindow, Drain, Content;
    WindowFindsGenerationEarly(c.start + 1, c.start);
    InsideIsHalfTurn(c.start, c.start + 1);
    assert s.delivered + [] == s.delivered;
  }

  lemma QueuedTwice(c: Config)
    requires c.start <= 1 && c.window >= 2
    ensures Shown(c, Overtaken(c, [Twice(c), Twice(c)], {c.start + 1}).(outstanding := {c.start}))
  {
    hide Shown, Commands, Packets, Content, AfterDeliver, Orderly, HandleUdp, AfterAck;
    var s := Overtaken(c, [], {});
    TwoPackets(c);
    BothTransmitted(c);
    OneStep(c, s, Deliver(c.start + 1));
    OneAheadIsQueued(c, s);
    var s2 := Overtaken(c, [Twice(c)], {c.start + 1});
    assert [] + [Twice(c)] == [Twice(c)] && {} + {c.start + 1} == {c.start + 1};
    OneAheadIsQueued(c, s2);
    assert [Twice(c)] + [Twice(c)] == [Twice(c), Twice(c)];
    assert {c.start + 1} + {c.start + 1} == {c.start + 1};
    AcksOfBoth(c);
    OneAcked(c, s2, c.start + 1);
  }

  /** The first packet arrives: it and one copy of the second are consumed. */
  lemma FirstArrives(c: Config, s: System)
    requires c.start <= 1 && s.log == [The(c, c.start), Twice(c)]
    requires s.rcv == State(c.start, [Twice(c), Twice(c)], None)
    ensures AfterDeliver(c, s, c.start) ==
            s.(rcv := State(c.start + 2, [Twice(c)], None),
               delivered := s.delivered + [Content(0), Content(1)], acks := s.acks + {c.start})
    ensures Orderly(s.rcv) && HandleUdp(c.z, c.dir, s.rcv, The(c, c.start)).ack
  {
    hide InReceiveWindow, Content, NoImpostor, Drain;
    FreshHasNoImpostor([Twice(c), Twice(c)], c.start);
    WindowFindsGenerationEarly(c.start, c.start);
    InsideIsHalfTurn(c.start, c.start);
    BothFollow(c);
  }

  lemma BothFollow(c: Config)
    requires c.start <= 1
    ensures Drain(c.z, c.dir, State(c.start, [Twice(c), Twice(c)], None), The(c, c.start), [])
            == Outcome(State(c.start + 2, [Twice(c)], None), [Content(0), Content(1)], None)
  {
    hide Content;
    var q := [Twice(c), Twice(c)];
    assert Position(q, (c.start + 1) % 0x1_0000) == Some(0) && Without(q, 0) == [Twice(c)];
    SecondFollows(c);
    assert Drain(c.z, c.dir, State(c.start, q, None), The(c, c.start), [])
           == Drain(c.z, c.dir, State(c.start + 1, [Twice(c)], None), Twice(c), [Content(0)]);
    assert [Content(0)] + [Content(1)] == [Content(0), Content(1)];
  }

  lemma SecondFollows(c: Config)
    ensures Drain(c.z, c.dir, State(c.start + 1, [Twice(c)], None), Twice(c), [Content(0)])
            == Outcome(State(c.start + 2, [Twice(c)], None), [Content(0)] + [Content(1)], None)
  {
    OnlyTwiceWaits(c, (Twice(c).Id() + 1) % 0x1_0000);
  }

  /** The ack for the second packet removes just it, and then the ack for the first does. */
  lemma AcksOfBoth(c: Config)
    requires c.start <= 1
    ensures AfterAck({c.start, c.start + 1}, c.start + 1) == {c.start}
    ensures AfterAck({c.start}, c.start) == {}
  {
    hide AckedKey;
    var both := {c.start, c.start + 1};
    var labels := Labels(both);
    assert Label(c.start) in labels && Label(c.start + 1) in labels;
    assert forall l :: l in labels ==> c.start <= l;
    assert Least(labels) == c.start;
    AckFindsExactly(labels, c.start + 1);
    assert AfterAck(both, c.start + 1) == set m | m in both && Label(m) != c.start + 1;
    AckOfOnly(c.start, c.start);
  }

  lemma SeenBoth(c: Config)
    ensures Seen(c, 2, 0) == {c.start, c.start + 1} && Pending(c, 2, 2, 0) == {}
  {
    IntervalIs(c.start, c.start + 2);
    assert Interval(c.start + 3, c.start + 3) == {};
    SetOfTwo(Interval(c.start, c.start + 2), c.start);
  }

  lemma SetOfTwo(s: set<nat>, n: nat)
    requires forall m :: m in s <==> n <= m < n + 2
    ensures s == {n, n + 1}
  {
  }

  /** Two commands have gone through, and a copy of the second waits for its id to come round. */
  lemma CopyIsLeft(c: Config)
    requires c.start <= 1 && c.window >= 2
    ensures Shown(c, Stage(c, 2, 2, 0, [Twice(c)]))
  {
    hide Shown, Commands, Packets, Content, AfterDeliver, AfterAck, Orderly, Pending, Seen;
    var s := Overtaken(c, [Twice(c), Twice(c)], {c.start + 1}).(outstanding := {c.start});
    QueuedTwice(c);
    TwoPackets(c);
    FirstArrives(c, s);
    AcksOfBoth(c);
    SeenBoth(c);
    OneAcked(c, s, c.start);
    var s2 := AfterDeliver(c, s, c.start);
    assert s2.delivered == [Content(0), Content(1)] == Commands(2);
    assert {c.start + 1} + {c.start} == {c.start, c.start + 1};
  }

  /** While the id does not come round, commands go through past the copy. */
  lemma {:induction false} RoundsPastCopy(c: Config, done: nat)
    requires c.start <= 1 && c.window >= 2 && 2 <= done <= 0x1_0000
    ensures Shown(c, Stage(c, done, done, 0, [Twice(c)]))
  {
    hide Shown, Stage;
    if done == 2 {
      CopyIsLeft(c);
    } else {
      RoundsPastCopy(c, done - 1);
      OnlyTwiceWaits(c, (c.start + done) % 0x1_0000);
      OneRound(c, done - 1, [Twice(c)]);
    }
  }

  /** Packet `start + 65536` arrives: the copy of packet `start + 1` is consumed after it. */
  lemma CopyIsConsumed(c: Config, s: System)
    requires c.start <= 1 && s.rcv == State(c.start + 0x1_0000, [Twice(c)], None)
    requires End(c, s) == c.start + 0x1_0002 && s.log[0x1_0000] == The(c, c.start + 0x1_0000)
    ensures AfterDeliver(c, s, c.start + 0x1_0000).delivered == s.delivered + [Content(0x1_0000), Content(1)]
    ensures AfterDeliver(c, s, c.start + 0x1_0000).commands == s.commands
  {
    hide InReceiveWindow, Content;
    var n := c.start + 0x1_0000;
    WindowFindsGenerationEarly(n, n);
    InsideIsHalfTurn(n, n);
    OnlyTwiceWaits(c, (Twice(c).Id() + 1) % 0x1_0000);
    assert Position([Twice(c)], (n + 1) % 0x1_0000) == Some(0) && Without([Twice(c)], 0) == [];
    CopyFollows(c);
    assert Drain(c.z, c.dir, s.rcv, The(c, n), [])
           == Drain(c.z, c.dir, State(n + 1, [], None), Twice(c), [Content(0x1_0000)]);
    assert s.delivered + ([Content(0x1_0000)] + [Content(1)]) == s.delivered + [Content(0x1_0000), Content(1)];
  }

  lemma CopyFollows(c: Config)
    ensures Drain(c.z, c.dir, State(c.start + 0x1_0001, [], None), Twice(c), [Content(0x1_0000)])
            == Outcome(State(c.start + 0x1_0002, [], None), [Content(0x1_0000)] + [Content(1)], None)
  {
    assert Position([], (Twice(c).Id() + 1) % 0x1_0000) == None;
  }

  /** With a congestion window of two packets there is a run in which what is handed up is not a
      prefix of what was sent: a datagram that arrives twice out of order is handed up again in
      place of the packet a turn of the ids later. */
  lemma StaleCopyIsDelivered(c: Config)
    requires c.start <= 1 && c.window >= 2
    ensures exists steps :: BreaksOrder(c, steps)
  {
    hide Shown, Commands, Packets, AfterDeliver, Pending, Seen, Span, Content;
    var n := c.start + 0x1_0000;
    RoundsPastCopy(c, 0x1_0000);
    SendNext(c, 0x1_0000, 0x1_0000, [Twice(c)]);
    SendNext(c, 0x1_0000, 0x1_0001, [Twice(c)]);
    var s := Stage(c, 0x1_0000, 0x1_0002, 0, [Twice(c)]);
    SpanOfFirst(c, 0x1_0000, 0x1_0002);
    OneStep(c, s, Transmit(n));
    var s2 := s.(network := s.network + {n});
    LogAt(c, 0x1_0002, 0x1_0000);
    CopyIsConsumed(c, s2);
    var steps := RunTo(c, s2);
    LastStep(c, steps, s2, Deliver(n));
    LastDiffers(s2.delivered, Commands(0x1_0002));
    assert BreaksOrder(c, steps + [Deliver(n)]);
  }

  lemma LastStep(c: Config, steps: seq<Step>, s: System, step: Step)
    requires ShownBy(c, steps, s) && Enabled(c, s, step) && !step.DeliverAck?
    ensures var longer := steps + [step];
            && Legal(c, longer) && TimelyAcks(c, longer) && AcksAtOnce(c, longer)
            && Run(c, longer) == Apply(c, s, step)
  {
    hide Apply, Enabled, LastMakesAck;
    var longer := steps + [step];
    assert longer[..|longer| - 1] == steps;
  }

  ghost predicate BreaksOrder(c: Config, steps: seq<Step>) {
    && Legal(c, steps) && TimelyAcks(c, steps) && AcksAtOnce(c, steps)
    && !(Run(c, steps).delivered <= Run(c, steps).commands)
  }

  lemma SpanOfFirst(c: Config, done: nat, sent: nat)
    requires done < sent && c.start + done < 0x1_ffff
    ensures c.start + done in Pending(c, done, sent, 0)
    ensures |Span(Pending(c, done, sent, 0), c.start + done)| <= 1
  {
    hide Pending;
    var n := c.start + done;
    PendingIs(c, done, sent, 0, n);
    forall m | m in Span(Pending(c, done, sent, 0), n)
      ensures m in {n}
    {
      PendingIs(c, done, sent, 0, m);
    }
    SubsetIsSmaller(Span(Pending(c, done, sent, 0), n), {n});
  }

  lemma LogAt(c: Config, sent: nat, i: nat)
    requires i < sent
    ensures Packets(c, c.start, sent)[i] == The(c, c.start + i)
  {
  }

  lemma LastDiffers(delivered: seq<Bytes>, commands: seq<Bytes>)
    requires delivered == Commands(0x1_0000) && commands == Commands(0x1_0002)
    ensures !(delivered + [Content(0x1_0000), Content(1)] <= commands)
  {
    assert (delivered + [Content(0x1_0000), Content(1)])[0x1_0001] == [1];
    assert commands[0x1_0001] == [];
  }

  // ---------- An ack for a packet a turn older ----------

  /** No ack is late, and all but the last are timely. */
  ghost predicate LosesPacket(c: Config, steps: seq<Step>) {
    && Legal(c, steps) && OrderlyRun(c, steps) && AcksAtOnce(c, steps)
    && steps != [] && TimelyAcks(c, steps[..|steps| - 1])
    && !NothingLost(c, Run(c, steps))
  }

  /** A turn of packets is outstanding, and the datagram of the first packet ever sent comes again:
      it is outside the receive window, so the receiver acknowledges it without looking at it. */
  lemma OldDatagramIsAcked(c: Config, s: System)
    requires c.start <= 1 && s.rcv.next == c.start + 0x1_0001 && s.log != [] && s.log[0].num == c.start
    ensures AfterDeliver(c, s, c.start) == s.(acks := s.acks + {c.start})
    ensures HandleUdp(c.z, c.dir, s.rcv, s.log[0]).ack
  {
    hide InReceiveWindow, Handle;
    InsideIsHalfTurn(s.rcv.next, c.start);
    assert (c.start - s.rcv.next) % 0x1_0000 == 0xffff;
    assert s.delivered + [] == s.delivered;
  }

  /** The ack names the last packet, which has the same id and was never transmitted. */
  lemma AckNamesLast(c: Config)
    requires c.start <= 1
    ensures c.start + 0x2_0000 !in AfterAck(Pending(c, 0x1_0001, 0x2_0001, 0), c.start)
  {
    hide Pending, AckedKey;
    var pending := Pending(c, 0x1_0001, 0x2_0001, 0);
    var first, last := c.start + 0x1_0001, c.start + 0x2_0000;
    forall m: nat
      ensures m in pending <==> first <= m <= last
    {
      PendingIs(c, 0x1_0001, 0x2_0001, 0, m);
    }
    var labels := Labels(pending);
    assert Label(first) in labels && Label(last) in labels;
    assert forall l :: l in labels ==> first <= l;
    assert Least(labels) == first;
    AckFindsExactly(labels, last);
    assert AfterAck(pending, c.start) == set m | m in pending && Label(m) != last;
  }

  lemma LastIsLost(c: Config, s: System, n: nat)
    requires n !in s.outstanding && s.rcv.queue == [] && s.rcv.next <= n < End(c, s) && c.start <= n
    ensures !NothingLost(c, s)
  {
    assert !Accepted(s.rcv, n);
  }

  lemma FirstWasSeen(c: Config)
    ensures c.start in Seen(c, 0x1_0001, 0)
  {
    hide Interval;
    IntervalIs(c.start, c.start + 0x1_0001);
  }

  /** Whatever the congestion window, there is a run in which no ack is late and yet one removes a
      packet that was never transmitted: an old datagram comes again and is acknowledged anew. */
  lemma OldDatagramLoses(c: Config)
    requires c.start <= 1 && c.window >= 1
    ensures exists steps :: LosesPacket(c, steps)
  {
    hide Shown, Commands, Packets, AfterDeliver, AfterAck, HandleUdp, Seen, Pending, NothingLost, TimelyAcks,
      OrderlyRun;
    ManySent(c, 0x1_0001, 0x2_0001);
    var s := Stage(c, 0x1_0001, 0x2_0001, 0, []);
    FirstWasSeen(c);
    LogAt(c, 0x2_0001, 0);
    OldDatagramIsAcked(c, s);
    AckNamesLast(c);
    var steps := RunTo(c, s);
    OneMoreAcked(c, steps, s, c.start);
    var longer := steps + [Deliver(c.start)] + [DeliverAck(c.start)];
    LastIsLost(c, Run(c, longer), c.start + 0x2_0000);
    assert LosesPacket(c, longer);
  }
}
