/** Both ends of a connection for one command type: what codec and resender do, in any order of
    calls, is a run of the `Transport` system, so the theorems about runs are theorems about them. */
module Links {
  import opened Options
  import opened PacketNumbers
  import opened Fragments
  import opened Receive
  import opened Resend
  import opened Sending
  import opened Refinement
  import L = Reliability
  import opened Words

  // ---------- Runs ----------

  lemma LogStays(c: T.Config, s: T.System, step: T.Step)
    requires T.LogOk(c, s.commands, s.log) && T.Enabled(c, s, step)
    ensures T.LogOk(c, T.Apply(c, s, step).commands, T.Apply(c, s, step).log)
  {
    hide HandleUdp, T.AfterAck;
    if step.Send? {
      var t := T.AfterSend(c, s, step.content);
      assert Bodies(t.log) == Bodies(s.log) + Split(c.z, c.dir, step.content);
      assert t.commands[..|t.commands| - 1] == s.commands;
    }
  }

  lemma {:induction false} RunKeepsLog(c: T.Config, steps: seq<T.Step>)
    requires T.Legal(c, steps) && c.start + 2 * 0x1_0000 <= SPACE
    ensures T.LogOk(c, T.Run(c, steps).commands, T.Run(c, steps).log)
    decreases |steps|
  {
    hide T.Apply, T.LogOk, T.Enabled;
    if steps == [] {
      T.InitInvOrder(c);
      InvOrderHasLog(c, T.Init(c));
    } else {
      RunKeepsLog(c, steps[..|steps| - 1]);
      LogStays(c, T.Run(c, steps[..|steps| - 1]), steps[|steps| - 1]);
    }
  }

  lemma InvOrderHasLog(c: T.Config, s: T.System)
    requires T.InvOrder(c, s)
    ensures T.LogOk(c, s.commands, s.log)
  {
  }

  lemma OneMore(c: T.Config, steps: seq<T.Step>, step: T.Step)
    requires T.Legal(c, steps) && T.Enabled(c, T.Run(c, steps), step)
    ensures T.Legal(c, steps + [step]) && T.Run(c, steps + [step]) == T.Apply(c, T.Run(c, steps), step)
  {
    hide T.Apply, T.Enabled;
    assert (steps + [step])[..|steps + [step]| - 1] == steps;
  }

  lemma SendKeepsReceiver(c: T.Config, s: T.System, content: Bytes)
    ensures var t := T.AfterSend(c, s, content);
            t.rcv == s.rcv && t.delivered == s.delivered && t.dead == s.dead
  {
  }

  lemma DeliverKeepsSender(c: T.Config, s: T.System, n: nat, q: Queues, t: Kind, sent: nat)
    requires c.start <= n < T.End(c, s) && Coupled(c, s, q, t, sent)
    ensures Coupled(c, T.AfterDeliver(c, s, n), q, t, sent)
  {
    hide Sound, HandleUdp;
  }

  /** The steps of a poll. */
  function Transmits(sent: seq<Transmission>, t: Kind): seq<T.Step> {
    if sent == [] then []
    else
      var last := sent[|sent| - 1];
      Transmits(sent[..|sent| - 1], t) + if last.kind == t then [T.Transmit(Named(last.part))] else []
  }

  lemma TransmittedMore(network: set<nat>, sent: seq<Transmission>, t: Kind)
    requires sent != []
    ensures var last := sent[|sent| - 1];
            Transmitted(network, sent, t)
            == Transmitted(network, sent[..|sent| - 1], t) + if last.kind == t then {Named(last.part)} else {}
  {
    hide Named;
    var before := sent[..|sent| - 1];
    var last := sent[|sent| - 1];
    forall n
      ensures n in Transmitted(network, sent, t)
              <==> n in Transmitted(network, before, t) || (last.kind == t && n == Named(last.part))
    {
      if i :| 0 <= i < |sent| && sent[i].kind == t && Named(sent[i].part) == n {
        assert i < |before| ==> before[i] == sent[i];
      }
      if i :| 0 <= i < |before| && before[i].kind == t && Named(before[i].part) == n {
        assert sent[i] == before[i];
      }
    }
  }

  lemma {:induction false} TransmitsAreSteps(c: T.Config, steps: seq<T.Step>, sent: seq<Transmission>, t: Kind)
    requires T.Legal(c, steps)
    requires forall i :: 0 <= i < |sent| && sent[i].kind == t ==>
               T.Enabled(c, T.Run(c, steps), T.Transmit(Named(sent[i].part)))
    ensures T.Legal(c, steps + Transmits(sent, t))
    ensures var s := T.Run(c, steps);
            T.Run(c, steps + Transmits(sent, t)) == s.(network := Transmitted(s.network, sent, t))
    decreases |sent|
  {
    hide Transmitted, Named, T.Span;
    var s := T.Run(c, steps);
    if sent == [] {
      assert steps + [] == steps;
      NothingTransmitted(s.network, t);
    } else {
      var before := sent[..|sent| - 1];
      var last := sent[|sent| - 1];
      assert forall i :: 0 <= i < |before| ==> before[i] == sent[i];
      TransmitsAreSteps(c, steps, before, t);
      TransmittedMore(s.network, sent, t);
      var longer := steps + Transmits(before, t);
      if last.kind == t {
        OneMore(c, longer, T.Transmit(Named(last.part)));
        assert steps + Transmits(sent, t) == longer + [T.Transmit(Named(last.part))];
      } else {
        assert steps + Transmits(sent, t) == longer;
      }
    }
  }

  lemma NothingTransmitted(network: set<nat>, t: Kind)
    ensures Transmitted(network, [], t) == network
  {
  }

  // ---------- The objects ----------

  /** The codec and resender of the sending end, the codec of the receiving end, and what that
      handed up.  `steps` is the run of the system so far. */
  class Link {
    const c: T.Config
    const t: Kind
    const sender: PacketCodec
    const resender: Resender
    const receiver: PacketCodec
    var delivered: seq<Bytes>
    var dead: bool
    ghost var steps: seq<T.Step>

    ghost predicate Valid()
      reads this, sender, resender, receiver
    {
      && c.start <= 1 && sender != receiver && sender.Valid() && receiver.Valid()
      && T.Legal(c, steps)
      && Coupled(c, T.Run(c, steps), resender.View(), t, sender.sent)
      && delivered == T.Run(c, steps).delivered && dead == T.Run(c, steps).dead
      && (!dead ==> receiver.Received() == T.Run(c, steps).rcv)
    }

    ghost function System(): T.System
      reads this
      requires T.Legal(c, steps)
    {
      T.Run(c, steps)
    }

    constructor (z: Compressor, isClient: bool, t: Kind, growth: Growth, now: int)
      ensures Valid() && steps == [] && resender.growth == growth
      ensures c.z == z && c.start == if isClient then 1 else 0
    {
      this.t := t;
      c := T.Config(z, if isClient then C2S else S2C, if isClient then 1 else 0, growth.cap);
      sender := new PacketCodec(isClient);
      receiver := new PacketCodec(!isClient);
      resender := new Resender(growth, now);
      delivered, dead, steps := [], false, [];
      new;
      NewIsCoupled(c, resender.View(), t);
    }

    /** A command is encoded and kept until it is acknowledged. */
    method Send(content: Bytes, now: int)
      requires Valid() && T.Enabled(c, System(), T.Send(content))
      modifies this, sender, resender
      ensures Valid() && steps == old(steps) + [T.Send(content)]
    {
      hide Coupled, T.Enabled, T.AfterSend;
      OneMore(c, steps, T.Send(content));
      SendKeepsReceiver(c, System(), content);
      Refinement.Send(sender, resender, t, content, now, c, System(), c.z, c.dir);
      steps := steps + [T.Send(content)];
    }

    /** The resender sends what is due. */
    method Poll(now: int, timeout: nat, socket: nat -> SocketResult)
      returns (result: PollResult, sent: seq<Transmission>)
      requires Valid() && timeout > 0 && resender.Rto() > 0
      modifies this, resender
      ensures Valid() && steps == old(steps) + Transmits(sent, t)
    {
      hide Coupled, T.Enabled;
      result, sent := Refinement.Poll(resender, t, now, timeout, socket, c, System(), sender.sent);
      TransmitsAreSteps(c, steps, sent, t);
      steps := steps + Transmits(sent, t);
    }

    /** A datagram arrives. */
    method Deliver(packet: Packet) returns (ack: bool)
      requires Valid() && T.Enabled(c, System(), T.Deliver(packet.num))
      requires packet == System().log[packet.num - c.start]
      modifies this, receiver
      ensures Valid() && steps == old(steps) + [T.Deliver(packet.num)]
      ensures ack ==> packet.num in System().acks
    {
      hide T.LogOk, HandleUdp, T.AfterDeliver, Coupled;
      RunKeepsLog(c, steps);
      DeliverKeepsSender(c, System(), packet.num, resender.View(), t, sender.sent);
      OneMore(c, steps, T.Deliver(packet.num));
      var contents, acked, fatal := Refinement.Deliver(receiver, c.z, c.dir, packet, c, System());
      steps := steps + [T.Deliver(packet.num)];
      ack := acked && fatal.None?;
      if fatal.Some? {
        dead := true;
      } else {
        delivered := delivered + contents;
      }
    }

    /** An ack arrives. */
    method Ack(n: nat, now: int) returns (reported: Option<nat>)
      requires Valid() && T.Enabled(c, System(), T.DeliverAck(n))
      modifies this, resender
      ensures Valid() && steps == old(steps) + [T.DeliverAck(n)]
    {
      hide Coupled, T.AfterAck;
      RunKeepsLog(c, steps);
      CountedUp();
      OneMore(c, steps, T.DeliverAck(n));
      reported := Refinement.Ack(resender, t, n % 0x1_0000, sender.outgoing.Number(), now, c, System());
      steps := steps + [T.DeliverAck(n)];
    }

    lemma CountedUp()
      requires Valid()
      ensures sender.outgoing.Number() == sender.sent
    {
      RunKeepsLog(c, steps);
      NumberIsBijective(sender.sent, OfNumber(sender.sent));
      AroundSpace(sender.sent);
    }

    /** Whatever calls were made: if the run was orderly, what was handed up is a prefix of what was
        sent; if also the acks were timely and the congestion window never exceeds 32 567, each
        packet sent is still kept by the resender or was accepted by the receiver. */
    lemma Reliable()
      requires Valid() && T.OrderlyRun(c, steps)
      ensures c.z.Lawful() ==> delivered <= System().commands
      ensures T.TimelyAcks(c, steps) && resender.growth.cap <= 32567 && !dead ==>
                forall n :: c.start <= n < sender.sent ==>
                  Label(n) in resender.full[t] || L.Accepted(receiver.Received(), n)
    {
      hide L.Accepted;
      if c.z.Lawful() {
        T.DeliveredIsPrefix(c, steps);
      }
      if T.TimelyAcks(c, steps) && resender.growth.cap <= 32567 && !dead {
        L.RunLosesNothing(c, steps);
        L.LossHasNothingLost(c, System());
        forall n | c.start <= n < sender.sent
          ensures Label(n) in resender.full[t] || L.Accepted(receiver.Received(), n)
        {
          assert n in System().outstanding ==> Label(n) in T.Labels(System().outstanding);
        }
      }
    }
  }
}
