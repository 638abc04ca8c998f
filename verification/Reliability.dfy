/** No packet is lost: every packet sent is kept by the sender until the receiver has accepted
    it.  What the congestion window has to do with it is made exact in `WindowThreshold`. */
module Reliability {
  import opened PacketNumbers
  import opened Fragments
  import opened Receive
  import opened Resend
  import opened Transport
  import opened Words

  /** The receiver consumed the packet or has it in its queue. */
  ghost predicate Accepted(rcv: State, n: nat) {
    n < rcv.next || Waiting(rcv.queue, n)
  }

  ghost predicate NothingLost(c: Config, s: System) {
    forall n :: c.start <= n < End(c, s) ==> n in s.outstanding || Accepted(s.rcv, n)
  }

  ghost predicate InRange(c: Config, s: System, ns: set<nat>) {
    forall n :: n in ns ==> c.start <= n < End(c, s)
  }

  /** Acks exist only for accepted packets, and no datagram is so far ahead of the receiver that
      it would fall out of the receive window. */
  ghost predicate AcksHonest(s: System) {
    forall n :: n in s.acks ==> Accepted(s.rcv, n)
  }

  ghost predicate NetworkInWindow(s: System) {
    forall n :: n in s.network ==> n < s.rcv.next + RECEIVE_WINDOW
  }

  ghost predicate InvLoss(c: Config, s: System) {
    && NothingLost(c, s) && AcksHonest(s) && NetworkInWindow(s)
    && InRange(c, s, s.outstanding) && InRange(c, s, s.acks) && InRange(c, s, s.network)
  }

  // ---------- Sending ----------

  lemma SendLosesNothing(c: Config, s: System, content: Bytes)
    requires InvLoss(c, s)
    ensures InvLoss(c, AfterSend(c, s, content))
  {
    hide Split, Interval, NumberFrom;
    IntervalIs(End(c, s), End(c, s) + |Split(c.z, c.dir, content)|);
  }

  /** A transmitted packet lies in the receive window: at most 199 packets ahead of the expected
      one can have been accepted, and but for one mislabelled packet all others up to it are in
      the heap. */
  lemma TransmitStaysInWindow(c: Config, s: System, n: nat)
    requires InvOrder(c, s) && InvLoss(c, s) && n in s.outstanding
    requires |Span(s.outstanding, n)| <= c.window && c.window <= 32567
    ensures n < s.rcv.next + RECEIVE_WINDOW
  {
    hide InvOrder, InvLoss, Span, Label, LastId, Interval;
    if n >= s.rcv.next + RECEIVE_WINDOW {
      var next := s.rcv.next;
      var far := Interval(next + MAX_QUEUE_LEN, next + RECEIVE_WINDOW + 1);
      IntervalIs(next + MAX_QUEUE_LEN, next + RECEIVE_WINDOW + 1);
      if next % 0x1_0000 == 0xffff {
        LastIdPosition(next);
      }
      var unseen := if next % 0x1_0000 == 0xffff then far else far - {LastId(next + MAX_QUEUE_LEN)} + {next};
      forall m | m in unseen
        ensures m in Span(s.outstanding, n)
      {
        UnseenInSpan(c, s, m, n);
      }
      SubsetIsSmaller(unseen, Span(s.outstanding, n));
    }
  }

  lemma LastIdPosition(next: nat)
    requires next % 0x1_0000 == 0xffff
    ensures LastId(next + MAX_QUEUE_LEN) == next + 0x1_0000
  {
  }

  lemma UnseenInSpan(c: Config, s: System, m: nat, n: nat)
    requires InvOrder(c, s) && InvLoss(c, s) && n in s.outstanding && m <= n
    requires (m == s.rcv.next && m % 0x1_0000 != 0xffff) ||
             (s.rcv.next + MAX_QUEUE_LEN <= m < s.rcv.next + 0x1_0000 && m != LastId(s.rcv.next + MAX_QUEUE_LEN))
    ensures m in Span(s.outstanding, n)
  {
    hide InvOrder, InvLoss;
    UnseenIsOutstanding(c, s, m, n);
    if m != s.rcv.next {
      LastIdIsOnly(s.rcv.next + MAX_QUEUE_LEN, m);
    }
  }

  /** The first number from `n` on whose id is the last of its generation. */
  function LastId(n: nat): nat {
    n + (0xffff - n % 0x1_0000)
  }

  lemma LastIdIsOnly(n: nat, m: nat)
    ensures n <= m < n + 0x1_0000 && m != LastId(n) ==> Label(m) == m
  {
  }

  lemma UnseenIsOutstanding(c: Config, s: System, m: nat, n: nat)
    requires InvOrder(c, s) && InvLoss(c, s) && n in s.outstanding && m <= n
    requires m == s.rcv.next || m >= s.rcv.next + MAX_QUEUE_LEN
    ensures m in s.outstanding
  {
    assert c.start <= m < End(c, s);
    assert forall x :: x in s.rcv.queue ==> Queueable(c, s.log, s.rcv.next, x);
  }

  // ---------- Receiving ----------

  /** Whatever was accepted before a delivery is accepted after it, and so is the packet. */
  lemma DrainAccepts(c: Config, commands: seq<Bytes>, log: seq<Packet>, rcv: State, m: nat)
    requires LogOk(c, commands, log) && ReceiverOk(c, log, rcv) && Orderly(rcv) && rcv.next < c.start + |log|
    requires m == rcv.next || Accepted(rcv, m)
    ensures var o := Drain(c.z, c.dir, rcv, log[rcv.next - c.start], []);
            o.error.None? ==> Accepted(o.state, m)
  {
    hide Drain, Taken, Left, LogOk;
    var k := rcv.next - c.start;
    var o := Drain(c.z, c.dir, rcv, log[k], []);
    DrainCounts(c.z, c.dir, rcv, log[k], []);
    if o.error.None? && m > rcv.next {
      var taken := Taken(rcv.queue, log[k]);
      var x :| x in rcv.queue && x.num == m;
      TakenOrLeft(rcv.queue, log[k], x);
      if x in taken {
        TakenFromLog(c, commands, log, rcv);
        var i :| 0 <= i < |taken| && taken[i] == x;
        LogNumber(c, commands, log, k + i);
      }
    }
  }

  lemma DeliverAccepts(c: Config, s: System, n: nat, m: nat)
    requires InvOrder(c, s) && Enabled(c, s, Deliver(n))
    requires Consumes(c, s, Deliver(n)) ==> Orderly(s.rcv)
    ensures Accepted(s.rcv, m) ==> Accepted(AfterDeliver(c, s, n).rcv, m)
    ensures n !in s.acks && n in AfterDeliver(c, s, n).acks && n < s.rcv.next + RECEIVE_WINDOW ==>
              Accepted(AfterDeliver(c, s, n).rcv, n)
  {
    hide Drain, InReceiveWindow, InQueueWindow, OfNumber, Orderly, LogOk;
    var p := s.log[n - c.start];
    LogNumber(c, s.commands, s.log, n - c.start);
    GenuineWindow(s.rcv.next, p);
    if Consumes(c, s, Deliver(n)) {
      DrainAccepts(c, s.commands, s.log, s.rcv, n);
      if Accepted(s.rcv, m) {
        DrainAccepts(c, s.commands, s.log, s.rcv, m);
      }
    }
    assert p in s.rcv.queue + [p];
  }

  lemma DeliverLosesNothing(c: Config, s: System, n: nat)
    requires InvOrder(c, s) && InvLoss(c, s) && Enabled(c, s, Deliver(n))
    requires Consumes(c, s, Deliver(n)) ==> Orderly(s.rcv)
    ensures InvLoss(c, AfterDeliver(c, s, n))
  {
    hide HandleUdp, InvOrder, Orderly, Consumes;
    var t := AfterDeliver(c, s, n);
    forall m: nat
      ensures Accepted(s.rcv, m) ==> Accepted(t.rcv, m)
      ensures n !in s.acks && n in t.acks ==> Accepted(t.rcv, n)
    {
      DeliverAccepts(c, s, n, m);
    }
    NextGrows(c, s, n);
  }

  lemma NextGrows(c: Config, s: System, n: nat)
    requires InvOrder(c, s) && c.start <= n < End(c, s)
    ensures s.rcv.next <= AfterDeliver(c, s, n).rcv.next
  {
    hide Drain, InReceiveWindow, OfNumber, InQueueWindow;
    DrainCounts(c.z, c.dir, s.rcv, s.log[n - c.start], []);
  }

  // ---------- Acknowledging ----------

  /** The outstanding packet named by the ack for an id, filed under the first number with that
      id, was accepted. */
  ghost predicate Harmless(s: System, pId: u16) {
    Labels(s.outstanding) == {} ||
    forall m :: m in s.outstanding && Label(m) == AckedKey(Labels(s.outstanding), pId) ==> Accepted(s.rcv, m)
  }

  /** That is what the ack removes. */
  lemma RemovedIsNamed(s: System, pId: u16)
    ensures Harmless(s, pId)
            <==> forall m :: m in s.outstanding && m !in AfterAck(s.outstanding, pId) ==> Accepted(s.rcv, m)
  {
    hide AckedKey, Label, Accepted;
    var labels := Labels(s.outstanding);
    forall m | m in s.outstanding
      ensures labels != {} && (m !in AfterAck(s.outstanding, pId) <==> Label(m) == AckedKey(labels, pId))
    {
      assert Label(m) in labels;
    }
  }

  /** The delivery of an ack loses nothing if and only if it names no unaccepted packet. */
  lemma AckLosesNothingExactly(c: Config, s: System, n: nat)
    requires InvLoss(c, s) && n in s.acks
    ensures var t := s.(outstanding := AfterAck(s.outstanding, n % 0x1_0000));
            && (NothingLost(c, t) <==> Harmless(s, n % 0x1_0000))
            && (Harmless(s, n % 0x1_0000) ==> InvLoss(c, t))
  {
    hide AckedKey, Accepted, Harmless;
    RemovedIsNamed(s, n % 0x1_0000);
    assert AfterAck(s.outstanding, n % 0x1_0000) <= s.outstanding;
  }

  /** A timely ack is harmless. */
  lemma TimelyAckIsHarmless(c: Config, s: System, n: nat)
    requires InvOrder(c, s) && InvLoss(c, s) && n in s.acks && TimelyAck(c, s, DeliverAck(n))
    ensures Harmless(s, n % 0x1_0000)
  {
    hide InvOrder, AfterAck, TimelyAck, Accepted, Harmless, NothingLost, AcksHonest, NetworkInWindow;
    RemovedIsNamed(s, n % 0x1_0000);
    forall m | m in s.outstanding && m !in AfterAck(s.outstanding, n % 0x1_0000)
      ensures Accepted(s.rcv, m)
    {
      RemovedIsNotLater(c, s, n, m);
      AckedIsAccepted(c, s, n, m);
    }
  }

  /** What a timely ack removes is its own packet or one at least a turn older. */
  lemma RemovedIsNotLater(c: Config, s: System, n: nat, m: nat)
    requires InvOrder(c, s) && InRange(c, s, s.outstanding) && TimelyAck(c, s, DeliverAck(n))
    requires m in s.outstanding && m !in AfterAck(s.outstanding, n % 0x1_0000)
    ensures m == n || m + 0x1_0000 <= n
  {
    hide AckedKey, OfNumber, ReceiverOk, HandedUp, Bodies, SplitAll;
    var labels := Labels(s.outstanding);
    assert Label(m) in labels;
    var first :| first in s.outstanding && Label(first) == Least(labels);
    AckedKeyIsNext(labels, n % 0x1_0000);
    if n in s.outstanding {
      assert Label(n) in labels;
      assert Label(m) < Label(n) + 0x1_0000;
    }
    SameIdApart(m, n);
  }

  lemma SameIdApart(m: nat, n: nat)
    ensures m % 0x1_0000 == n % 0x1_0000 && Label(m) < Label(n) + 0x1_0000 ==> m == n || m + 0x1_0000 <= n
    ensures m % 0x1_0000 == n % 0x1_0000 && m < n + 0x1_0000 ==> m == n || m + 0x1_0000 <= n
    ensures Label(m) % 0x1_0000 == m % 0x1_0000
  {
  }

  lemma AckedIsAccepted(c: Config, s: System, n: nat, m: nat)
    requires InvOrder(c, s) && InvLoss(c, s) && n in s.acks && (m == n || m + 0x1_0000 <= n)
    ensures Accepted(s.rcv, m)
  {
    assert Accepted(s.rcv, n);
    assert forall x :: x in s.rcv.queue ==> Queueable(c, s.log, s.rcv.next, x);
  }

  // ---------- Whole runs ----------

  lemma {:induction false} RunKeepsLoss(c: Config, steps: seq<Step>)
    requires Legal(c, steps) && OrderlyRun(c, steps) && HarmlessRun(c, steps)
    requires c.start + 2 * 0x1_0000 <= SPACE && c.window <= 32567
    ensures InvLoss(c, Run(c, steps))
    decreases |steps|
  {
    hide InvOrder, InvLoss, AfterAck, AfterDeliver, AfterSend, Orderly, Consumes, Harmless;
    if steps == [] {
      NothingSentYet(c);
    } else {
      var before := steps[..|steps| - 1];
      var s := Run(c, before);
      RunKeepsLoss(c, before);
      RunKeepsOrder(c, before);
      match steps[|steps| - 1]
      case Send(content) => SendLosesNothing(c, s, content);
      case Transmit(n) => TransmitLosesNothing(c, s, n);
      case Deliver(n) => DeliverLosesNothing(c, s, n);
      case DeliverAck(n) => AckLosesNothingExactly(c, s, n);
    }
  }

  ghost predicate HarmlessRun(c: Config, steps: seq<Step>)
    requires Legal(c, steps)
  {
    steps == [] ||
    (var before := steps[..|steps| - 1];
     && HarmlessRun(c, before)
     && (steps[|steps| - 1].DeliverAck? ==> Harmless(Run(c, before), steps[|steps| - 1].num % 0x1_0000)))
  }

  /** No packet was lost at any moment of the run. */
  ghost predicate NeverLost(c: Config, steps: seq<Step>)
    requires Legal(c, steps)
  {
    NothingLost(c, Run(c, steps)) && (steps == [] || NeverLost(c, steps[..|steps| - 1]))
  }

  /** Over every orderly run with a congestion window of at most 32 567: at every moment every
      packet ever sent is still with the sender or was accepted by the receiver, if and only if
      every ack delivered was harmless. */
  lemma {:induction false} RunLosesNothingExactly(c: Config, steps: seq<Step>)
    requires Legal(c, steps) && OrderlyRun(c, steps)
    requires c.start + 2 * 0x1_0000 <= SPACE && c.window <= 32567
    ensures NeverLost(c, steps) <==> HarmlessRun(c, steps)
    decreases |steps|
  {
    hide InvOrder, AfterAck, AfterDeliver, AfterSend, Orderly, Consumes, Harmless, NothingLost;
    if steps == [] {
      NothingSentYet(c);
      LossHasNothingLost(c, Run(c, steps));
    } else {
      var before := steps[..|steps| - 1];
      RunLosesNothingExactly(c, before);
      if HarmlessRun(c, steps) {
        RunKeepsLoss(c, steps);
        LossHasNothingLost(c, Run(c, steps));
      } else if HarmlessRun(c, before) {
        RunKeepsLoss(c, before);
        AckLosesNothingExactly(c, Run(c, before), steps[|steps| - 1].num);
      }
    }
  }

  lemma LossHasNothingLost(c: Config, s: System)
    requires InvLoss(c, s)
    ensures NothingLost(c, s)
  {
  }

  /** Nothing is lost while the acks are timely. */
  lemma {:induction false} RunLosesNothing(c: Config, steps: seq<Step>)
    requires Legal(c, steps) && OrderlyRun(c, steps) && TimelyAcks(c, steps)
    requires c.start + 2 * 0x1_0000 <= SPACE && c.window <= 32567
    ensures HarmlessRun(c, steps) && InvLoss(c, Run(c, steps))
    decreases |steps|
  {
    hide InvOrder, InvLoss, Apply, Orderly, Consumes, Harmless, TimelyAck;
    if steps == [] {
      NothingSentYet(c);
    } else {
      var before := steps[..|steps| - 1];
      RunLosesNothing(c, before);
      RunKeepsOrder(c, before);
      if steps[|steps| - 1].DeliverAck? {
        TimelyAckIsHarmless(c, Run(c, before), steps[|steps| - 1].num);
      }
      RunKeepsLoss(c, steps);
    }
  }

  lemma NothingSentYet(c: Config)
    ensures InvLoss(c, Init(c))
  {
  }

  lemma TransmitLosesNothing(c: Config, s: System, n: nat)
    requires InvOrder(c, s) && InvLoss(c, s) && Enabled(c, s, Transmit(n)) && c.window <= 32567
    ensures InvLoss(c, s.(network := s.network + {n}))
  {
    TransmitStaysInWindow(c, s, n);
  }

  // ---------- Every accepted packet was acknowledged ----------

  ghost predicate AllAcked(c: Config, s: System) {
    forall n :: c.start <= n && Accepted(s.rcv, n) ==> n in s.acks
  }

  /** What is accepted after a delivery was accepted before, or is the packet delivered. */
  lemma DrainAcceptsOnly(c: Config, commands: seq<Bytes>, log: seq<Packet>, rcv: State, m: nat)
    requires LogOk(c, commands, log) && ReceiverOk(c, log, rcv) && Orderly(rcv) && rcv.next < c.start + |log|
    ensures var o := Drain(c.z, c.dir, rcv, log[rcv.next - c.start], []);
            o.error.None? && Accepted(o.state, m) ==> m == rcv.next || Accepted(rcv, m)
  {
    hide Drain, Taken, Left, LogOk;
    var k := rcv.next - c.start;
    var o := Drain(c.z, c.dir, rcv, log[k], []);
    DrainCounts(c.z, c.dir, rcv, log[k], []);
    LogNumber(c, commands, log, k);
    if o.error.None? && Accepted(o.state, m) && m > rcv.next {
      var taken := Taken(rcv.queue, log[k]);
      TakenFromLog(c, commands, log, rcv);
      if m < o.state.next {
        var x := taken[m - rcv.next];
        LogNumber(c, commands, log, m - c.start);
        TakenOrLeft(rcv.queue, log[k], x);
      } else {
        var x :| x in o.state.queue && x.num == m;
        TakenOrLeft(rcv.queue, log[k], x);
      }
    }
  }

  lemma DeliverAcksAll(c: Config, s: System, n: nat)
    requires InvOrder(c, s) && AllAcked(c, s) && Enabled(c, s, Deliver(n))
    requires Consumes(c, s, Deliver(n)) ==> Orderly(s.rcv)
    ensures AllAcked(c, AfterDeliver(c, s, n))
  {
    hide Drain, InReceiveWindow, InQueueWindow, OfNumber, Orderly, LogOk;
    var t := AfterDeliver(c, s, n);
    var p := s.log[n - c.start];
    LogNumber(c, s.commands, s.log, n - c.start);
    GenuineWindow(s.rcv.next, p);
    forall m | c.start <= m && Accepted(t.rcv, m)
      ensures m in t.acks
    {
      if Consumes(c, s, Deliver(n)) {
        DrainAcceptsOnly(c, s.commands, s.log, s.rcv, m);
      }
    }
  }

  /** Over every orderly run the receiver has acknowledged each packet it consumed or queued; so the
      sender may be told of any of them. */
  lemma {:induction false} AcceptedIsAcked(c: Config, steps: seq<Step>)
    requires Legal(c, steps) && OrderlyRun(c, steps) && c.start + 2 * 0x1_0000 <= SPACE
    ensures AllAcked(c, Run(c, steps))
    decreases |steps|
  {
    hide InvOrder, AfterAck, AfterDeliver, Orderly, Consumes;
    if steps != [] {
      var before := steps[..|steps| - 1];
      AcceptedIsAcked(c, before);
      RunKeepsOrder(c, before);
      match steps[|steps| - 1]
      case Send(content) =>
      case Transmit(n) =>
      case Deliver(n) => DeliverAcksAll(c, Run(c, before), n);
      case DeliverAck(n) =>
    }
  }

  // ---------- When runs are fresh ----------

  /** A run of fewer than a turn of packets is fresh: no id comes round again. */
  lemma {:induction false} FewPacketsAreFresh(c: Config, steps: seq<Step>)
    requires Legal(c, steps) && End(c, Run(c, steps)) + MAX_QUEUE_LEN < 0x1_0000
    ensures FreshRun(c, steps) && OrderlyRun(c, steps) && TimelyAcks(c, steps)
    decreases |steps|
  {
    if steps != [] {
      var before := steps[..|steps| - 1];
      var s := Run(c, before);
      LogGrows(c, s, steps[|steps| - 1]);
      FewPacketsAreFresh(c, before);
      RunKeepsOrder(c, before);
      EarlyQueueIsFresh(c, s);
      FreshQueueIsOrderly(c, s.log, s.rcv);
    }
  }

  lemma EarlyQueueIsFresh(c: Config, s: System)
    requires InvOrder(c, s) && End(c, s) + MAX_QUEUE_LEN < 0x1_0000
    ensures FreshQueue(s.rcv) && ReceiverOk(c, s.log, s.rcv)
  {
    assert forall x :: x in s.rcv.queue ==> Queueable(c, s.log, s.rcv.next, x);
  }

  lemma LogGrows(c: Config, s: System, step: Step)
    requires Enabled(c, s, step)
    ensures End(c, s) <= End(c, Apply(c, s, step))
  {
  }

  /** No packet is in the queue twice or has been consumed already. */
  ghost predicate NoStale(rcv: State) {
    forall x :: (x in rcv.queue ==> rcv.next < x.num) && multiset(rcv.queue)[x] <= 1
  }

  /** A datagram is not delivered again while a copy of it waits in the queue. */
  ghost predicate QueuedOnce(c: Config, steps: seq<Step>)
    requires Legal(c, steps)
  {
    steps == [] ||
    (var before := steps[..|steps| - 1];
     var s := Run(c, before);
     QueuedOnce(c, before) && (steps[|steps| - 1].Deliver? ==> !Waiting(s.rcv.queue, steps[|steps| - 1].num)))
  }

  lemma DrainLeavesNoStale(c: Config, commands: seq<Bytes>, log: seq<Packet>, rcv: State)
    requires LogOk(c, commands, log) && ReceiverOk(c, log, rcv) && Orderly(rcv) && NoStale(rcv)
    requires rcv.next < c.start + |log|
    ensures var o := Drain(c.z, c.dir, rcv, log[rcv.next - c.start], []);
            o.error.None? ==> NoStale(o.state)
  {
    hide Drain, Taken, Left, LogOk, Orderly;
    var k := rcv.next - c.start;
    var p := log[k];
    var o := Drain(c.z, c.dir, rcv, p, []);
    var taken, left := Taken(rcv.queue, p), Left(rcv.queue, p);
    DrainCounts(c.z, c.dir, rcv, p, []);
    TakenAndLeft(rcv.queue, p);
    TakenFromLog(c, commands, log, rcv);
    LogNumber(c, commands, log, k);
    if o.error.None? {
      forall x
        ensures (x in left ==> rcv.next + |taken| < x.num) && multiset(left)[x] <= 1
      {
        assert (multiset(taken) + multiset(left))[x] == (multiset{p} + multiset(rcv.queue))[x];
        assert p in taken;
        if x in left {
          LeftIsAhead(c, commands, log, rcv, x);
        }
      }
    }
  }

  lemma TakenHasAll(c: Config, commands: seq<Bytes>, log: seq<Packet>, rcv: State, x: Packet)
    requires LogOk(c, commands, log) && ReceiverOk(c, log, rcv) && Orderly(rcv)
    requires rcv.next < c.start + |log| && IsSent(c, log, x)
    ensures var taken := Taken(rcv.queue, log[rcv.next - c.start]);
            rcv.next <= x.num < rcv.next + |taken| ==> x in taken
  {
    hide Taken, Bodies, SplitAll;
    var taken := Taken(rcv.queue, log[rcv.next - c.start]);
    TakenFromLog(c, commands, log, rcv);
    if rcv.next <= x.num < rcv.next + |taken| {
      assert taken[x.num - rcv.next] == x;
    }
  }

  lemma LeftIsAhead(c: Config, commands: seq<Bytes>, log: seq<Packet>, rcv: State, x: Packet)
    requires LogOk(c, commands, log) && ReceiverOk(c, log, rcv) && Orderly(rcv) && NoStale(rcv)
    requires rcv.next < c.start + |log| && x in Left(rcv.queue, log[rcv.next - c.start])
    ensures rcv.next + |Taken(rcv.queue, log[rcv.next - c.start])| < x.num
  {
    hide Taken, Left, Bodies, SplitAll;
    var k := rcv.next - c.start;
    var p := log[k];
    var taken := Taken(rcv.queue, p);
    TakenFromLog(c, commands, log, rcv);
    TakenAndLeft(rcv.queue, p);
    LeftIsSound(c, commands, log, rcv, x);
    TakenOrLeft(rcv.queue, p, x);
    TakenHasAll(c, commands, log, rcv, x);
    assert x !in taken by {
      assert (multiset(taken) + multiset(Left(rcv.queue, p)))[x] == (multiset{p} + multiset(rcv.queue))[x];
      assert multiset(rcv.queue)[x] <= 1;
    }
  }

  lemma DeliverLeavesNoStale(c: Config, s: System, n: nat)
    requires InvOrder(c, s) && Orderly(s.rcv) && NoStale(s.rcv) && !s.dead && n in s.network
    requires c.start <= n < End(c, s) && !Waiting(s.rcv.queue, n)
    ensures NoStale(AfterDeliver(c, s, n).rcv)
  {
    hide Drain, InReceiveWindow, InQueueWindow, OfNumber, Orderly, LogOk, NoStale, HandedUp, ReceiverOk;
    var p := s.log[n - c.start];
    LogNumber(c, s.commands, s.log, n - c.start);
    NextInRange(c, s);
    GenuineWindow(s.rcv.next, p);
    if n == s.rcv.next {
      DrainLeavesNoStale(c, s.commands, s.log, s.rcv);
    } else if n > s.rcv.next {
      PushLeavesNoStale(s.rcv, p);
    }
  }

  lemma NextInRange(c: Config, s: System)
    requires InvOrder(c, s)
    ensures c.start <= s.rcv.next <= End(c, s)
  {
  }

  lemma PushLeavesNoStale(rcv: State, p: Packet)
    requires NoStale(rcv) && p.num > rcv.next && !Waiting(rcv.queue, p.num)
    ensures NoStale(rcv.(queue := rcv.queue + [p]))
  {
    forall x
      ensures (x in rcv.queue + [p] ==> rcv.next < x.num) && multiset(rcv.queue + [p])[x] <= 1
    {
      assert multiset(rcv.queue + [p]) == multiset(rcv.queue) + multiset{p};
      assert x == p ==> x !in rcv.queue;
    }
  }

  lemma NoStaleIsFresh(c: Config, s: System)
    requires InvOrder(c, s) && NoStale(s.rcv)
    ensures FreshQueue(s.rcv) && Orderly(s.rcv)
  {
    assert FreshQueue(s.rcv);
    FreshQueueIsOrderly(c, s.log, s.rcv);
  }

  /** A run in which no packet is queued twice is fresh and orderly, however long it is. */
  lemma {:induction false} QueuedOnceIsFresh(c: Config, steps: seq<Step>)
    requires Legal(c, steps) && QueuedOnce(c, steps) && c.start + 2 * 0x1_0000 <= SPACE
    ensures FreshRun(c, steps) && OrderlyRun(c, steps) && NoStale(Run(c, steps).rcv)
    decreases |steps|
  {
    hide InvOrder, AfterDeliver, AfterAck, AfterSend, Orderly, FreshQueue, Consumes;
    if steps != [] {
      var before := steps[..|steps| - 1];
      var s := Run(c, before);
      QueuedOnceIsFresh(c, before);
      RunKeepsOrder(c, before);
      NoStaleIsFresh(c, s);
      match steps[|steps| - 1]
      case Send(content) => SendKeepsReceiver(c, s, content);
      case Transmit(n) =>
      case Deliver(n) => DeliverLeavesNoStale(c, s, n);
      case DeliverAck(n) =>
    }
  }

  lemma SendKeepsReceiver(c: Config, s: System, content: Bytes)
    ensures AfterSend(c, s, content).rcv == s.rcv
  {
  }
}
