/** The congestion window up to which no packet is lost, exactly.  With a window of 32 568 there
    is a run in which a packet that was never accepted is acknowledged and forgotten; the
    program's own cap is 32 767. */
module WindowThreshold {
  import opened Options
  import opened PacketNumbers
  import opened Receive
  import opened Resend
  import opened Transport
  import opened Reliability
  import opened Rounds

  // ---------- Packets that arrive ahead of the expected one ----------

  /** A packet fewer than 200 numbers ahead is queued and acknowledged. */
  lemma AheadDelivery(c: Config, s: System, n: nat)
    requires s.rcv.next < n < s.rcv.next + MAX_QUEUE_LEN
    requires c.start <= n < End(c, s) && s.log[n - c.start] == The(c, n) && n + 0x1_0000 < SPACE
    ensures AfterDeliver(c, s, n) ==
            s.(rcv := s.rcv.(queue := s.rcv.queue + [The(c, n)]), acks := s.acks + {n})
    ensures HandleUdp(c.z, c.dir, s.rcv, s.log[n - c.start]).ack
  {
    hide InReceiveWindow, Drain, InQueueWindow;
    WindowFindsGenerationEarly(n, s.rcv.next);
    InsideIsHalfTurn(s.rcv.next, n);
    QueueWindowCounts(s.rcv.next, n);
    assert (n - s.rcv.next) % 0x1_0000 == n - s.rcv.next;
    assert s.delivered + [] == s.delivered;
  }

  /** The ack of a packet less than a turn above the first outstanding one removes just it. */
  lemma AckOfOne(outstanding: set<nat>, first: nat, n: nat)
    requires first in outstanding && n in outstanding && first < n < first + 0x1_0000
    requires first % 0x1_0000 != 0xffff && n % 0x1_0000 != 0xffff && first + 0x1_0000 < SPACE
    requires forall m :: m in outstanding ==> first <= m
    ensures AfterAck(outstanding, n % 0x1_0000) == outstanding - {n}
  {
    hide AckedKey;
    var labels := Labels(outstanding);
    assert Label(first) in labels && Label(n) in labels;
    assert forall l :: l in labels ==> first <= l;
    assert Least(labels) == first;
    AckFindsExactly(labels, n);
    forall m | m in outstanding
      ensures Label(m) == n <==> m == n
    {
      LabelKeepsId(m);
    }
    assert AfterAck(outstanding, n % 0x1_0000) == set m | m in outstanding && Label(m) != n;
  }

  /** The next packet ahead is transmitted, arrives and is acknowledged. */
  lemma OneAhead(c: Config, done: nat, sent: nat, ahead: nat)
    requires Shown(c, Stage(c, done, sent, ahead, Packets(c, c.start + done + 1, ahead)))
    requires c.start + sent < 0x10_0000 && c.window >= 2
    requires ahead + 1 < MAX_QUEUE_LEN && done + MAX_QUEUE_LEN < sent <= done + 0x1_0000
    requires 1 <= (c.start + done) % 0x1_0000 < 0xff00
    ensures Shown(c, Stage(c, done, sent, ahead + 1, Packets(c, c.start + done + 1, ahead + 1)))
  {
    hide Shown, Interval, Seen, Commands, Packets, Pending, AfterAck, AfterDeliver, Span, HandleUdp;
    var s := Stage(c, done, sent, ahead, Packets(c, c.start + done + 1, ahead));
    var n := c.start + done + 1 + ahead;
    SpanAhead(c, done, sent, ahead);
    OneStep(c, s, Transmit(n));
    var s2 := s.(network := s.network + {n});
    PacketAt(c, sent, n);
    AheadDelivery(c, s2, n);
    QueueGrows(c, done, ahead);
    OneAcked(c, s2, n);
    PendingShrinks(c, done, sent, ahead);
    SeenGrowsAhead(c, done, ahead);
  }

  lemma PacketAt(c: Config, sent: nat, n: nat)
    requires c.start <= n < c.start + sent
    ensures Packets(c, c.start, sent)[n - c.start] == The(c, n)
  {
  }

  lemma QueueGrows(c: Config, done: nat, ahead: nat)
    ensures Packets(c, c.start + done + 1, ahead) + [The(c, c.start + done + 1 + ahead)]
            == Packets(c, c.start + done + 1, ahead + 1)
  {
  }

  lemma SeenGrowsAhead(c: Config, done: nat, ahead: nat)
    ensures Seen(c, done, ahead) + {c.start + done + 1 + ahead} == Seen(c, done, ahead + 1)
  {
  }

  lemma PendingShrinks(c: Config, done: nat, sent: nat, ahead: nat)
    requires done + 1 + ahead < sent <= done + 0x1_0000 && c.start + sent < 0x10_0000 && ahead < MAX_QUEUE_LEN
    requires 1 <= (c.start + done) % 0x1_0000 < 0xff00
    ensures AfterAck(Pending(c, done, sent, ahead), (c.start + done + 1 + ahead) % 0x1_0000)
            == Pending(c, done, sent, ahead + 1)
  {
    hide Interval, Pending, AfterAck;
    var n := c.start + done + 1 + ahead;
    forall m: nat
      ensures m in Pending(c, done, sent, ahead)
              <==> m == c.start + done || c.start + done + 1 + ahead <= m < c.start + sent
      ensures m in Pending(c, done, sent, ahead + 1)
              <==> m == c.start + done || c.start + done + 2 + ahead <= m < c.start + sent
    {
      PendingIs(c, done, sent, ahead, m);
      PendingIs(c, done, sent, ahead + 1, m);
    }
    AckOfOne(Pending(c, done, sent, ahead), c.start + done, n);
  }

  /** Only the expected packet and the next ahead are outstanding so far. */
  lemma SpanAhead(c: Config, done: nat, sent: nat, ahead: nat)
    requires done + 1 + ahead < sent && ahead < MAX_QUEUE_LEN
    ensures var n := c.start + done + 1 + ahead;
            n in Pending(c, done, sent, ahead) && |Span(Pending(c, done, sent, ahead), n)| <= 2
  {
    hide Interval, Pending;
    var n := c.start + done + 1 + ahead;
    PendingIs(c, done, sent, ahead, n);
    forall m | m in Span(Pending(c, done, sent, ahead), n)
      ensures m in {c.start + done, n}
    {
      PendingIs(c, done, sent, ahead, m);
    }
    SubsetIsSmaller(Span(Pending(c, done, sent, ahead), n), {c.start + done, n});
  }

  lemma {:induction false} ManyAhead(c: Config, done: nat, sent: nat, ahead: nat)
    requires c.start + sent < 0x10_0000 && c.window >= 2
    requires ahead < MAX_QUEUE_LEN && done + MAX_QUEUE_LEN < sent <= done + 0x1_0000
    requires 1 <= (c.start + done) % 0x1_0000 < 0xff00
    ensures Shown(c, Stage(c, done, sent, ahead, Packets(c, c.start + done + 1, ahead)))
    decreases ahead
  {
    hide Shown, Stage;
    if ahead == 0 {
      ManySent(c, done, sent);
    } else {
      ManyAhead(c, done, sent, ahead - 1);
      OneAhead(c, done, sent, ahead - 1);
    }
  }

  // ---------- The packet that falls out of the window ----------

  /** A packet 32 767 ahead of the expected one is outside the receive window: it is
      acknowledged without being looked at. */
  lemma FarDelivery(c: Config, s: System, n: nat)
    requires n == s.rcv.next + RECEIVE_WINDOW && c.start <= n < End(c, s) && s.log[n - c.start].num == n
    ensures AfterDeliver(c, s, n) == s.(acks := s.acks + {n})
    ensures HandleUdp(c.z, c.dir, s.rcv, s.log[n - c.start]).ack
  {
    hide InReceiveWindow, Handle;
    InsideIsHalfTurn(s.rcv.next, n);
    assert (n - s.rcv.next) % 0x1_0000 == RECEIVE_WINDOW;
    assert s.delivered + [] == s.delivered;
  }

  /** With packet 40 000 missing, the 199 after it accepted and everything up to packet 72 767
      outstanding, the heap needs room for 32 568 packets: packet 65 535 is filed behind. */
  lemma SpanFar(c: Config)
    requires c.start <= 1
    ensures var pending := Pending(c, 40_000 - c.start, 72_768 - c.start, 199);
            72_767 in pending && |Span(pending, 72_767)| <= 32568
  {
    hide Interval, Pending;
    var done, sent := 40_000 - c.start, 72_768 - c.start;
    var pending := Pending(c, done, sent, 199);
    PendingIs(c, done, sent, 199, 72_767);
    IntervalIs(40_200, 72_768);
    var room := {40_000} + (Interval(40_200, 72_768) - {65_535});
    forall m | m in Span(pending, 72_767)
      ensures m in room
    {
      PendingIs(c, done, sent, 199, m);
    }
    SubsetIsSmaller(Span(pending, 72_767), room);
  }

  /** From window 32 568 on there is a run in which a packet is lost. */
  lemma WideWindowLoses(c: Config)
    requires c.start <= 1 && c.window >= 32568
    ensures exists s :: Shown(c, s) && !NothingLost(c, s)
  {
    hide Shown, Interval, Seen, Commands, Packets, Pending, AfterAck, AfterDeliver, Span, Accepted,
      HandleUdp;
    var done, sent, n := 40_000 - c.start, 72_768 - c.start, 72_767;
    var s := Stage(c, done, sent, 199, Packets(c, c.start + done + 1, 199));
    ManyAhead(c, done, sent, 199);
    SpanFar(c);
    OneStep(c, s, Transmit(n));
    var s2 := s.(network := s.network + {n});
    PacketAt(c, sent, n);
    FarDelivery(c, s2, n);
    OneAcked(c, s2, n);
    var s3 := AfterDeliver(c, s2, n);
    var s4 := s3.(outstanding := AfterAck(s3.outstanding, n % 0x1_0000));
    FarIsForgotten(c, s4);
  }

  lemma FarIsForgotten(c: Config, s: System)
    requires c.start <= 1 && End(c, s) == 72_768
    requires s.outstanding == AfterAck(Pending(c, 40_000 - c.start, 72_768 - c.start, 199), 72_767 % 0x1_0000)
    requires s.rcv == State(40_000, Packets(c, 40_001, 199), None)
    ensures !NothingLost(c, s)
  {
    hide Interval, Pending, AfterAck;
    var pending := Pending(c, 40_000 - c.start, 72_768 - c.start, 199);
    forall m: nat
      ensures m in pending <==> m == 40_000 || 40_200 <= m < 72_768
    {
      PendingIs(c, 40_000 - c.start, 72_768 - c.start, 199, m);
    }
    AckOfOne(pending, 40_000, 72_767);
    assert 72_767 !in s.outstanding;
    NotAccepted(c, s.rcv);
    IsLost(c, s, 72_767);
  }

  lemma NotAccepted(c: Config, rcv: State)
    requires c.start <= 1 && rcv == State(40_000, Packets(c, 40_001, 199), None)
    ensures !Accepted(rcv, 72_767)
  {
    forall x | x in rcv.queue
      ensures x.num < 40_200
    {
      var i :| 0 <= i < |rcv.queue| && rcv.queue[i] == x;
      assert rcv.queue[i] == The(c, 40_001 + i);
    }
  }

  lemma IsLost(c: Config, s: System, n: nat)
    requires c.start <= n < End(c, s) && n !in s.outstanding && !Accepted(s.rcv, n)
    ensures !NothingLost(c, s)
  {
  }

  /** The exact condition: over all orderly runs with timely acks nothing is lost if and only if the
      congestion window is at most 32 567. */
  lemma NothingLostExactly(c: Config)
    requires c.start <= 1
    ensures (forall s :: Reachable(c, s) ==> NothingLost(c, s)) <==> c.window <= 32567
  {
    if c.window <= 32567 {
      forall s | Reachable(c, s)
        ensures NothingLost(c, s)
      {
        var steps :| TimelyReached(c, steps, s);
        RunLosesNothing(c, steps);
      }
    } else {
      WideWindowLoses(c);
      var s :| Shown(c, s) && !NothingLost(c, s);
      ShownIsReachable(c, s);
    }
  }
}
