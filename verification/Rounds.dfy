/** Runs built step by step: commands that go through one after the other.  Command number 1 is a
    byte long, all others are empty. */
module Rounds {
  import opened Options
  import opened PacketNumbers
  import opened Fragments
  import opened Receive
  import opened Resend
  import opened Transport
  import opened Words

  /** Reached by an orderly run with timely acks. */
  ghost predicate Reachable(c: Config, s: System) {
    exists steps: seq<Step> :: TimelyReached(c, steps, s)
  }

  ghost predicate TimelyReached(c: Config, steps: seq<Step>, s: System) {
    Legal(c, steps) && OrderlyRun(c, steps) && TimelyAcks(c, steps) && Run(c, steps) == s
  }

  // ---------- Runs without delayed acks ----------

  /** The delivery of the datagram makes the receiver send an ack. */
  predicate MakesAck(c: Config, s: System, step: Step)
    requires Enabled(c, s, step)
  {
    step.Deliver? && HandleUdp(c.z, c.dir, s.rcv, s.log[step.num - c.start]).ack
  }

  /** Every ack delivered was made by the step before: no ack datagram is late, repeated, or
      overtaken by another one. */
  ghost predicate AcksAtOnce(c: Config, steps: seq<Step>)
    requires Legal(c, steps)
  {
    steps == [] ||
    (var n := |steps| - 1;
     && AcksAtOnce(c, steps[..n])
     && (steps[n].DeliverAck? ==> n > 0 && steps[n - 1] == Deliver(steps[n].num) && LastMakesAck(c, steps[..n])))
  }

  ghost predicate LastMakesAck(c: Config, steps: seq<Step>)
    requires Legal(c, steps) && steps != []
  {
    MakesAck(c, Run(c, steps[..|steps| - 1]), steps[|steps| - 1])
  }

  /** Reached by such a run. */
  ghost predicate Shown(c: Config, s: System) {
    exists steps: seq<Step> :: ShownBy(c, steps, s)
  }

  ghost predicate ShownBy(c: Config, steps: seq<Step>, s: System) {
    TimelyReached(c, steps, s) && AcksAtOnce(c, steps)
  }

  lemma RunTo(c: Config, s: System) returns (steps: seq<Step>)
    requires Shown(c, s)
    ensures ShownBy(c, steps, s)
  {
    steps :| ShownBy(c, steps, s);
  }

  lemma ShownIsReachable(c: Config, s: System)
    requires Shown(c, s)
    ensures Reachable(c, s)
  {
    var steps := RunTo(c, s);
  }

  lemma OneMore(c: Config, steps: seq<Step>, s: System, step: Step)
    requires ShownBy(c, steps, s) && Enabled(c, s, step)
    requires Consumes(c, s, step) ==> Orderly(s.rcv)
    ensures var longer := steps + [step];
            && Legal(c, longer) && OrderlyRun(c, longer) && Run(c, longer) == Apply(c, s, step)
            && (TimelyAcks(c, longer) <==> TimelyAck(c, s, step))
            && (!step.DeliverAck? ==> AcksAtOnce(c, longer))
  {
    hide Apply, Enabled, Orderly, Consumes, TimelyAck, LastMakesAck;
    var longer := steps + [step];
    assert longer[..|longer| - 1] == steps;
  }

  lemma OneStep(c: Config, s: System, step: Step)
    requires Shown(c, s) && Enabled(c, s, step) && !step.DeliverAck?
    requires Consumes(c, s, step) ==> Orderly(s.rcv)
    ensures Shown(c, Apply(c, s, step))
  {
    hide Apply, Enabled, Orderly, Consumes;
    var steps := RunTo(c, s);
    OneMore(c, steps, s, step);
    assert ShownBy(c, steps + [step], Apply(c, s, step));
  }

  lemma AckJoins(c: Config, steps: seq<Step>, s: System, n: nat)
    requires ShownBy(c, steps, s)
    requires Enabled(c, s, DeliverAck(n)) && steps != [] && steps[|steps| - 1] == Deliver(n) && LastMakesAck(c, steps)
    ensures var longer := steps + [DeliverAck(n)];
            && Legal(c, longer) && OrderlyRun(c, longer) && AcksAtOnce(c, longer)
            && Run(c, longer) == Apply(c, s, DeliverAck(n))
            && longer[..|longer| - 1] == steps
            && (TimelyAcks(c, longer) <==> TimelyAck(c, s, DeliverAck(n)))
  {
    hide Apply, Enabled, Orderly, TimelyAck, LastMakesAck;
    var longer := steps + [DeliverAck(n)];
    assert longer[..|longer| - 1] == steps;
  }

  /** A datagram arrives, and so does the ack made for it. */
  lemma OneMoreAcked(c: Config, steps: seq<Step>, s: System, n: nat)
    requires ShownBy(c, steps, s) && Enabled(c, s, Deliver(n)) && MakesAck(c, s, Deliver(n))
    requires Consumes(c, s, Deliver(n)) ==> Orderly(s.rcv)
    ensures var t := AfterDeliver(c, s, n);
            var longer := steps + [Deliver(n)] + [DeliverAck(n)];
            && Legal(c, longer) && OrderlyRun(c, longer) && AcksAtOnce(c, longer)
            && Run(c, longer) == t.(outstanding := AfterAck(t.outstanding, n % 0x1_0000))
            && longer[..|longer| - 1] == steps + [Deliver(n)] && TimelyAcks(c, steps + [Deliver(n)])
            && (TimelyAcks(c, longer) <==> TimelyAck(c, t, DeliverAck(n)))
  {
    hide Orderly, Consumes, AfterAck;
    OneMore(c, steps, s, Deliver(n));
    var t := AfterDeliver(c, s, n);
    var before := steps + [Deliver(n)];
    assert before[..|before| - 1] == steps && before[|before| - 1] == Deliver(n);
    AckJoins(c, before, t, n);
  }

  lemma OneAcked(c: Config, s: System, n: nat)
    requires Shown(c, s) && Enabled(c, s, Deliver(n)) && MakesAck(c, s, Deliver(n))
    requires Consumes(c, s, Deliver(n)) ==> Orderly(s.rcv)
    requires TimelyAck(c, AfterDeliver(c, s, n), DeliverAck(n))
    ensures var t := AfterDeliver(c, s, n);
            Shown(c, t.(outstanding := AfterAck(t.outstanding, n % 0x1_0000)))
  {
    hide AfterDeliver, AfterAck, Orderly, Consumes, TimelyAck, MakesAck, Legal, Run;
    var steps := RunTo(c, s);
    OneMoreAcked(c, steps, s, n);
    var t := AfterDeliver(c, s, n);
    assert ShownBy(c, steps + [Deliver(n)] + [DeliverAck(n)], t.(outstanding := AfterAck(t.outstanding, n % 0x1_0000)));
  }

  /** No datagram is delivered a whole turn of the ids after it was acknowledged. */
  ghost predicate NoOldDatagrams(c: Config, steps: seq<Step>)
    requires Legal(c, steps)
  {
    steps == [] ||
    (var before := steps[..|steps| - 1];
     var s := Run(c, before);
     && NoOldDatagrams(c, before)
     && (steps[|steps| - 1].Deliver? ==> IsYoung(c, s, steps[|steps| - 1].num)))
  }

  predicate IsYoung(c: Config, s: System, n: nat) {
    n in s.outstanding || End(c, s) <= n + 0x1_0000
  }

  /** If no ack is late, only old datagrams make acks that are not timely. */
  lemma {:induction false} AtOnceIsTimely(c: Config, steps: seq<Step>)
    requires Legal(c, steps) && AcksAtOnce(c, steps) && NoOldDatagrams(c, steps)
    ensures TimelyAcks(c, steps)
    decreases |steps|
  {
    hide HandleUdp, AfterAck, AfterSend, LastMakesAck;
    if steps != [] {
      var before := steps[..|steps| - 1];
      AtOnceIsTimely(c, before);
      if steps[|steps| - 1].DeliverAck? {
        assert before != [] && before[|before| - 1] == Deliver(steps[|steps| - 1].num);
        assert IsYoung(c, Run(c, before[..|before| - 1]), steps[|steps| - 1].num);
      }
    }
  }

  // ---------- The states on the way ----------

  function Content(i: nat): Bytes {
    if i == 1 then [1] else []
  }

  function Commands(n: nat): (r: seq<Bytes>)
    ensures |r| == n
  {
    seq(n, i requires 0 <= i < n => Content(i))
  }

  /** The packet of command `n - c.start`. */
  function The(c: Config, n: nat): Packet
    requires c.start <= n
  {
    Packet(n, Fragment(false, false, Content(n - c.start)))
  }

  function Packets(c: Config, first: nat, n: nat): (r: seq<Packet>)
    requires c.start <= first
    ensures |r| == n
  {
    seq(n, i requires 0 <= i < n => The(c, first + i))
  }

  function Seen(c: Config, done: nat, ahead: nat): set<nat> {
    Interval(c.start, c.start + done) + Interval(c.start + done + 1, c.start + done + 1 + ahead)
  }

  function Pending(c: Config, done: nat, sent: nat, ahead: nat): set<nat> {
    if sent <= done then {}
    else {c.start + done} + Interval(c.start + done + 1 + ahead, c.start + sent)
  }

  /** `sent` commands were sent; the first `done` arrived and were acknowledged, the next one did
      not arrive, and the `ahead` packets after it arrived and were acknowledged. */
  function Stage(c: Config, done: nat, sent: nat, ahead: nat, queue: seq<Packet>): System {
    System(Commands(sent), Packets(c, c.start, sent), Pending(c, done, sent, ahead),
           Seen(c, done, ahead), Seen(c, done, ahead),
           State(c.start + done, queue, None), Commands(done), false)
  }

  lemma ShortSplit(c: Config, i: nat)
    ensures Split(c.z, c.dir, Content(i)) == [Fragment(false, false, Content(i))]
  {
  }

  lemma PendingIs(c: Config, done: nat, sent: nat, ahead: nat, m: nat)
    requires done < sent
    ensures m in Pending(c, done, sent, ahead)
            <==> m == c.start + done || c.start + done + 1 + ahead <= m < c.start + sent
  {
    hide Interval;
    IntervalIs(c.start + done + 1 + ahead, c.start + sent);
  }

  lemma PendingGrows(c: Config, done: nat, sent: nat)
    requires done <= sent
    ensures Pending(c, done, sent, 0) + Interval(c.start + sent, c.start + sent + 1) == Pending(c, done, sent + 1, 0)
  {
    hide Interval, Pending;
    IntervalIs(c.start + sent, c.start + sent + 1);
    if sent == done {
      SpanOfOnly(c, done);
      NonePending(c, done);
    } else {
      forall m: nat
        ensures m in Pending(c, done, sent, 0) || m == c.start + sent <==> m in Pending(c, done, sent + 1, 0)
      {
        PendingIs(c, done, sent, 0, m);
        PendingIs(c, done, sent + 1, 0, m);
      }
    }
  }

  lemma NonePending(c: Config, done: nat)
    ensures Pending(c, done, done, 0) == {}
  {
  }

  lemma LogGrowsByOne(c: Config, sent: nat)
    ensures Commands(sent) + [Content(sent)] == Commands(sent + 1)
    ensures Packets(c, c.start, sent) + NumberFrom(c.start + sent, [Fragment(false, false, Content(sent))])
            == Packets(c, c.start, sent + 1)
  {
  }

  lemma SendNext(c: Config, done: nat, sent: nat, queue: seq<Packet>)
    requires Shown(c, Stage(c, done, sent, 0, queue)) && done <= sent && c.start + sent < 0x10_0000
    ensures Shown(c, Stage(c, done, sent + 1, 0, queue))
  {
    hide Shown, Split, Interval, Pending, Seen, Commands, Packets, NumberFrom, Content;
    var s := Stage(c, done, sent, 0, queue);
    ShortSplit(c, sent);
    OneStep(c, s, Send(Content(sent)));
    LogGrowsByOne(c, sent);
    PendingGrows(c, done, sent);
  }

  // ---------- A packet that arrives in order ----------

  lemma AckOfOnly(n: nat, pId: u16)
    requires n % 0x1_0000 == pId && Label(n) + 0x1_0000 < SPACE
    ensures AfterAck({n}, pId) == {}
  {
    var labels := Labels({n});
    assert labels == {Label(n)};
    assert Least(labels) in labels;
    LabelKeepsId(n);
    AckFindsExactly(labels, Label(n));
    assert AckedKey(labels, pId) == Label(n);
    assert AfterAck({n}, pId) == set m | m in {n} && Label(m) != Label(n);
  }

  lemma LabelKeepsId(n: nat)
    ensures Label(n) % 0x1_0000 == n % 0x1_0000
  {
  }

  lemma InOrderDelivery(c: Config, s: System, n: nat)
    requires n == s.rcv.next && s.rcv.partial == None && Position(s.rcv.queue, (n + 1) % 0x1_0000) == None
    requires c.start <= n < End(c, s) && s.log[n - c.start] == The(c, n) && n + 0x1_0000 < SPACE
    ensures AfterDeliver(c, s, n) ==
            s.(rcv := State(n + 1, s.rcv.queue, None), delivered := s.delivered + [Content(n - c.start)],
               acks := s.acks + {n})
    ensures Orderly(s.rcv) && HandleUdp(c.z, c.dir, s.rcv, s.log[n - c.start]).ack
  {
    hide InReceiveWindow, Content, PositionFrom;
    WindowFindsGenerationEarly(n, n);
    InsideIsHalfTurn(n, n);
    SuccessorId(The(c, n));
    NothingFollows(s.rcv.queue, The(c, n), n + MAX_QUEUE_LEN);
    assert Drain(c.z, c.dir, s.rcv, The(c, n), [])
           == Outcome(State(n + 1, s.rcv.queue, None), [Content(n - c.start)], None);
  }

  /** One command goes through completely, past a queue in which its successor does not wait. */
  lemma OneRound(c: Config, done: nat, queue: seq<Packet>)
    requires Shown(c, Stage(c, done, done, 0, queue)) && c.start + done < 0x10_0000 && c.window >= 1
    requires Position(queue, (c.start + done + 1) % 0x1_0000) == None
    ensures Shown(c, Stage(c, done + 1, done + 1, 0, queue))
  {
    hide Shown, Split, Interval, Seen, Commands, Packets, NumberFrom, AfterAck, AfterDeliver, Span, Content, Orderly,
      HandleUdp;
    var n := c.start + done;
    SendNext(c, done, done, queue);
    var s1 := Stage(c, done, done + 1, 0, queue);
    SpanOfOnly(c, done);
    OneStep(c, s1, Transmit(n));
    var s2 := s1.(network := s1.network + {n});
    LastPacket(c, done);
    InOrderDelivery(c, s2, n);
    OneAcked(c, s2, n);
    AckOfOnly(n, n % 0x1_0000);
    LogGrowsByOne(c, done);
    SeenGrows(c, done);
  }

  lemma SpanOfOnly(c: Config, done: nat)
    ensures Pending(c, done, done + 1, 0) == {c.start + done}
    ensures |Span({c.start + done}, c.start + done)| == 1
  {
    IntervalIs(c.start + done + 1, c.start + done + 1);
    assert Span({c.start + done}, c.start + done) == {c.start + done};
  }

  lemma LastPacket(c: Config, done: nat)
    ensures Packets(c, c.start, done + 1)[done] == The(c, c.start + done)
    ensures Packets(c, c.start + done + 1, 0) == []
  {
  }

  lemma SeenGrows(c: Config, done: nat)
    ensures Seen(c, done, 0) + {c.start + done} == Seen(c, done + 1, 0)
  {
    hide Interval;
    IntervalIs(c.start, c.start + done);
    IntervalIs(c.start, c.start + done + 1);
    IntervalIs(c.start + done + 1, c.start + done + 1);
    IntervalIs(c.start + done + 2, c.start + done + 2);
  }

  /** Any number of commands goes through. */
  lemma {:induction false} ManyRounds(c: Config, done: nat)
    requires c.start + done < 0x10_0000 && c.window >= 1
    ensures Shown(c, Stage(c, done, done, 0, []))
  {
    hide Shown, Stage;
    if done == 0 {
      StageZero(c);
    } else {
      ManyRounds(c, done - 1);
      OneRound(c, done - 1, []);
    }
  }

  lemma StageZero(c: Config)
    ensures Shown(c, Stage(c, 0, 0, 0, []))
  {
    IntervalIs(c.start, c.start);
    IntervalIs(c.start + 1, c.start + 1);
    assert Stage(c, 0, 0, 0, []) == Init(c);
    assert ShownBy(c, [], Init(c));
  }

  lemma {:induction false} ManySent(c: Config, done: nat, sent: nat)
    requires done <= sent && c.start + sent < 0x10_0000 && c.window >= 1
    ensures Shown(c, Stage(c, done, sent, 0, []))
    decreases sent
  {
    hide Shown, Stage;
    if sent == done {
      ManyRounds(c, done);
    } else {
      ManySent(c, done, sent - 1);
      SendNext(c, done, sent - 1, []);
    }
  }
}
