/** The order of delivery over whole runs, exactly: the packets consumed are those of the log, one
    after the other, if and only if the run is orderly. */
module Ordering {
  import opened PacketNumbers
  import opened Fragments
  import opened Receive
  import opened Transport
  import opened Words

  /** The packets a step hands to the reassembly. */
  function TakenBy(c: Config, s: System, step: Step): seq<Packet>
    requires Enabled(c, s, step)
  {
    if Consumes(c, s, step) then Taken(s.rcv.queue, s.log[step.num - c.start]) else []
  }

  /** All packets that were consumed, in this order. */
  ghost function ConsumedBy(c: Config, steps: seq<Step>): seq<Packet>
    requires Legal(c, steps)
  {
    if steps == [] then []
    else
      var before := steps[..|steps| - 1];
      ConsumedBy(c, before) + TakenBy(c, Run(c, before), steps[|steps| - 1])
  }

  /** Queued packets were sent, and are not too far ahead. */
  ghost predicate QueueSent(c: Config, log: seq<Packet>, rcv: State) {
    forall x :: x in rcv.queue ==> IsSent(c, log, x) && x.num < rcv.next + MAX_QUEUE_LEN
  }

  ghost predicate AllSent(c: Config, log: seq<Packet>, ps: seq<Packet>) {
    forall i :: 0 <= i < |ps| ==> IsSent(c, log, ps[i])
  }

  /** What holds in every run, orderly or not. */
  ghost predicate Traced(c: Config, s: System, ps: seq<Packet>) {
    && LogOk(c, s.commands, s.log) && QueueSent(c, s.log, s.rcv) && AllSent(c, s.log, ps)
    && s.rcv.next == c.start + |ps|
  }

  lemma SendTraces(c: Config, s: System, content: Bytes, ps: seq<Packet>)
    requires Traced(c, s, ps) && Enabled(c, s, Send(content))
    ensures Traced(c, AfterSend(c, s, content), ps)
  {
    var t := AfterSend(c, s, content);
    assert Bodies(t.log) == Bodies(s.log) + Split(c.z, c.dir, content);
    assert t.commands[..|t.commands| - 1] == s.commands;
    forall x | IsSent(c, s.log, x)
      ensures IsSent(c, t.log, x)
    {
    }
  }

  lemma ConsumingTraces(c: Config, s: System, n: nat, ps: seq<Packet>)
    requires Traced(c, s, ps) && Enabled(c, s, Deliver(n)) && Consumes(c, s, Deliver(n))
    ensures Traced(c, AfterDeliver(c, s, n), ps + TakenBy(c, s, Deliver(n)))
    ensures s.rcv.next <= AfterDeliver(c, s, n).rcv.next
  {
    hide Drain, Taken, Left, InReceiveWindow, LogOk, IsSent;
    var p := s.log[n - c.start];
    var taken := Taken(s.rcv.queue, p);
    var t := AfterDeliver(c, s, n);
    SentAt(c, s, n);
    WindowFindsGeneration(n, n);
    DrainCounts(c.z, c.dir, s.rcv, p, []);
    assert t.rcv.next == s.rcv.next + |taken| && t.rcv.queue == Left(s.rcv.queue, p);
    forall x
      ensures x in taken || x in t.rcv.queue ==> x == p || x in s.rcv.queue
    {
      TakenOrLeft(s.rcv.queue, p, x);
    }
    assert forall i :: 0 <= i < |taken| ==> taken[i] in taken;
  }

  lemma SentAt(c: Config, s: System, n: nat)
    requires LogOk(c, s.commands, s.log) && c.start <= n < End(c, s)
    ensures s.log[n - c.start].num == n && IsSent(c, s.log, s.log[n - c.start])
    ensures n + 2 * 0x1_0000 <= SPACE
  {
  }

  lemma QueueingTraces(c: Config, s: System, n: nat, ps: seq<Packet>)
    requires Traced(c, s, ps) && Enabled(c, s, Deliver(n)) && !Consumes(c, s, Deliver(n))
    requires s.rcv.next + 0x1_0000 < SPACE
    ensures Traced(c, AfterDeliver(c, s, n), ps)
    ensures s.rcv.next == AfterDeliver(c, s, n).rcv.next
  {
    hide Drain, InReceiveWindow, InQueueWindow, OfNumber, LogOk, IsSent;
    SentAt(c, s, n);
    GenuineWindow(s.rcv.next, s.log[n - c.start]);
  }

  /** In every run the receiver expects the number after the packets it consumed. */
  lemma {:induction false} RunTraces(c: Config, steps: seq<Step>)
    requires Legal(c, steps) && c.start + 2 * 0x1_0000 <= SPACE
    requires Run(c, steps).rcv.next + 0x1_0000 < SPACE
    ensures Traced(c, Run(c, steps), ConsumedBy(c, steps))
    decreases |steps|
  {
    hide AfterDeliver, AfterSend, AfterAck, Consumes, Traced;
    if steps == [] {
      NothingTraced(c);
    } else {
      var before := steps[..|steps| - 1];
      var s := Run(c, before);
      NextStays(c, s, steps[|steps| - 1]);
      RunTraces(c, before);
      StepTraces(c, s, steps[|steps| - 1], ConsumedBy(c, before));
    }
  }

  lemma NothingTraced(c: Config)
    requires c.start + 2 * 0x1_0000 <= SPACE
    ensures Traced(c, Init(c), [])
  {
    assert Bodies([]) == [] == SplitAll(c.z, c.dir, []);
  }

  lemma NextStays(c: Config, s: System, step: Step)
    requires Enabled(c, s, step)
    ensures s.rcv.next <= Apply(c, s, step).rcv.next
  {
    hide Taken, InReceiveWindow, InQueueWindow, OfNumber, Split;
    if step.Deliver? {
      DrainAdvances(c.z, c.dir, s.rcv, s.log[step.num - c.start], []);
    }
  }

  lemma DrainAdvances(z: Compressor, dir: Direction, s: State, p: Packet, before: seq<Bytes>)
    ensures var o := Drain(z, dir, s, p, before);
            o.error.None? ==> s.next < o.state.next
  {
    DrainCounts(z, dir, s, p, before);
  }

  lemma StepTraces(c: Config, s: System, step: Step, ps: seq<Packet>)
    requires Traced(c, s, ps) && Enabled(c, s, step) && s.rcv.next + 0x1_0000 < SPACE
    ensures Traced(c, Apply(c, s, step), ps + TakenBy(c, s, step))
  {
    hide AfterDeliver, AfterSend, Consumes, Taken;
    match step
    case Send(content) =>
      SendTraces(c, s, content, ps);
      assert ps + TakenBy(c, s, step) == ps by { NotConsumed(c, s, step); }
    case Transmit(_) =>
      assert ps + TakenBy(c, s, step) == ps by { NotConsumed(c, s, step); }
    case Deliver(n) =>
      if Consumes(c, s, step) {
        ConsumingTraces(c, s, n, ps);
      } else {
        QueueingTraces(c, s, n, ps);
        assert ps + TakenBy(c, s, step) == ps;
      }
    case DeliverAck(_) =>
      assert ps + TakenBy(c, s, step) == ps by { NotConsumed(c, s, step); }
  }

  lemma NotConsumed(c: Config, s: System, step: Step)
    requires Enabled(c, s, step) && !step.Deliver?
    ensures TakenBy(c, s, step) == []
  {
  }

  lemma OrderlyExactly(c: Config, log: seq<Packet>, rcv: State, p: Packet)
    requires QueueSent(c, log, rcv) && p.num == rcv.next
    ensures Consecutive(Taken(rcv.queue, p), rcv.next) <==> Orderly(rcv)
  {
    hide Taken, NoImpostor, IsSent;
    InOrderExactly(rcv.queue, p, rcv.next + MAX_QUEUE_LEN);
  }

  /** One delivery consumes the next packets of the log if and only if no copy of an earlier packet
      stands where it gets to. */
  lemma TakenInOrderExactly(c: Config, s: System, n: nat, ps: seq<Packet>)
    requires Traced(c, s, ps) && Enabled(c, s, Deliver(n)) && Consumes(c, s, Deliver(n))
    requires ps <= s.log
    ensures ps + TakenBy(c, s, Deliver(n)) <= s.log <==> Orderly(s.rcv)
  {
    hide Taken, Orderly, LogOk, HandleUdp, IsSent;
    var p := s.log[n - c.start];
    var taken := Taken(s.rcv.queue, p);
    SentAt(c, s, n);
    OrderlyExactly(c, s.log, s.rcv, p);
    if Consecutive(taken, n) {
      forall x | x in taken
        ensures c.start <= x.num < c.start + |s.log| && s.log[x.num - c.start] == x
      {
        TakenOrLeft(s.rcv.queue, p, x);
        assert x == p || x in s.rcv.queue;
        QueuedIsLogged(c, s.log, s.rcv, p, x);
      }
      PrefixGrows(c, ps, taken, s.log);
    } else if ps + taken <= s.log {
      forall i | 0 <= i < |taken|
        ensures taken[i].num == n + i
      {
        assert taken[i] == (ps + taken)[|ps| + i] == s.log[|ps| + i];
        LogNumber(c, s.commands, s.log, |ps| + i);
      }
    }
  }

  lemma QueuedIsLogged(c: Config, log: seq<Packet>, rcv: State, p: Packet, x: Packet)
    requires QueueSent(c, log, rcv) && IsSent(c, log, p) && (x == p || x in rcv.queue)
    ensures c.start <= x.num < c.start + |log| && log[x.num - c.start] == x
  {
  }

  lemma PrefixGrows(c: Config, ps: seq<Packet>, more: seq<Packet>, log: seq<Packet>)
    requires ps <= log && Consecutive(more, c.start + |ps|)
    requires forall x :: x in more ==> c.start <= x.num < c.start + |log| && log[x.num - c.start] == x
    ensures ps + more <= log
  {
    forall i | 0 <= i < |more|
      ensures |ps| + i < |log| && more[i] == log[|ps| + i]
    {
      assert more[i] in more;
    }
    if more != [] {
      var last := more[|more| - 1];
      assert last in more && last.num == c.start + |ps| + (|more| - 1);
    }
    assert ps + more == log[..|ps| + |more|];
  }

  /** What is a prefix of a longer log and was sent before is a prefix of the log before. */
  lemma SentBefore(c: Config, log: seq<Packet>, longer: seq<Packet>, ps: seq<Packet>)
    requires log <= longer && AllSent(c, log, ps) && forall i :: 0 <= i < |longer| ==> longer[i].num == c.start + i
    ensures ps <= log <==> ps <= longer
  {
    if ps <= longer && ps != [] {
      var last := |ps| - 1;
      assert ps[last] == longer[last] && IsSent(c, log, ps[last]);
      assert ps == longer[..|ps|] == log[..|ps|];
    }
  }

  lemma SendKeepsPrefix(c: Config, s: System, content: Bytes, ps: seq<Packet>)
    requires Traced(c, s, ps) && Enabled(c, s, Send(content))
    ensures ps <= s.log <==> ps <= AfterSend(c, s, content).log
  {
    hide Split;
    SentBefore(c, s.log, AfterSend(c, s, content).log, ps);
  }

  lemma StepKeepsPrefix(c: Config, s: System, step: Step, ps: seq<Packet>)
    requires Traced(c, s, ps) && Enabled(c, s, step)
    ensures ps + TakenBy(c, s, step) <= Apply(c, s, step).log
            <==> ps <= s.log && (Consumes(c, s, step) ==> Orderly(s.rcv))
  {
    hide Traced, Consumes, Orderly, AfterSend, Taken, HandleUdp;
    if step.Deliver? && Consumes(c, s, step) {
      assert ps + TakenBy(c, s, step) <= s.log ==> ps <= s.log;
      if ps <= s.log {
        TakenInOrderExactly(c, s, step.num, ps);
      }
    } else {
      OnlyDeliveriesConsume(c, s, step);
      assert ps + TakenBy(c, s, step) == ps;
      if step.Send? {
        SendKeepsPrefix(c, s, step.content, ps);
      }
    }
  }

  lemma OnlyDeliveriesConsume(c: Config, s: System, step: Step)
    requires Enabled(c, s, step)
    ensures Consumes(c, s, step) ==> step.Deliver?
  {
  }

  /** Over every run: the packets consumed are those of the log, one after the other, if and only
      if the run is orderly. */
  lemma {:induction false} ConsumedInOrderExactly(c: Config, steps: seq<Step>)
    requires Legal(c, steps) && c.start + 2 * 0x1_0000 <= SPACE
    requires Run(c, steps).rcv.next + 0x1_0000 < SPACE
    ensures ConsumedBy(c, steps) <= Run(c, steps).log <==> OrderlyRun(c, steps)
    decreases |steps|
  {
    hide Apply, Traced, Consumes, TakenBy, Orderly;
    if steps != [] {
      var before := steps[..|steps| - 1];
      var s := Run(c, before);
      NextStays(c, s, steps[|steps| - 1]);
      ConsumedInOrderExactly(c, before);
      RunTraces(c, before);
      StepKeepsPrefix(c, s, steps[|steps| - 1], ConsumedBy(c, before));
    }
  }
}
