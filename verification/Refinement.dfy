/** The codec and the resender take the steps of the `Transport` system.  One command type `t` of a
    connection is coupled to the system; sending, polling and acknowledging keep the coupling,
    through every turn of the ids. */
module Refinement {
  import opened Options
  import opened PacketNumbers
  import opened Fragments
  import opened Receive
  import opened Resend
  import opened Sending
  import T = Transport
  import R = Rounds
  import W = WindowThreshold
  import opened Words

  /** The records are those of the outstanding packets under their labels, and the codec has
      numbered the packets of the log. */
  ghost predicate Coupled(c: T.Config, s: T.System, q: Queues, t: Kind, sent: nat) {
    && c.window == q.cap && Sound(q)
    && q.full[t].Keys == T.Labels(s.outstanding)
    && q.upTo[t] <= T.End(c, s) == sent
  }

  lemma LabelsOfUnion(a: set<nat>, b: set<nat>)
    ensures T.Labels(a + b) == T.Labels(a) + T.Labels(b)
  {
  }

  lemma LabelsOfOne(n: nat)
    ensures T.Labels({n}) == {Label(n)}
  {
  }

  lemma NoLabels()
    ensures T.Labels({}) == {}
  {
  }

  /** A new connection is coupled to the initial system. */
  lemma NewIsCoupled(c: T.Config, q: Queues, t: Kind)
    requires Sound(q) && c.window == q.cap && q.full[t].Keys == {} && q.upTo[t] == 0
    ensures Coupled(c, T.Init(c), q, t, c.start)
  {
    NoLabels();
  }

  // ---------- Receiving ----------

  /** The codec of the receiver handles a datagram as the system does. */
  method Deliver(codec: PacketCodec, z: Compressor, dir: Direction, packet: Packet,
                 ghost c: T.Config, ghost s: T.System)
    returns (contents: seq<Bytes>, ack: bool, fatal: Option<Error>)
    requires codec.Valid() && codec.Received() == s.rcv && c.z == z && c.dir == dir
    requires T.LogOk(c, s.commands, s.log) && T.Enabled(c, s, T.Deliver(packet.num))
    requires packet == s.log[packet.num - c.start]
    modifies codec
    ensures codec.Valid()
    ensures var after := T.AfterDeliver(c, s, packet.num);
            if fatal.Some? then after == s.(dead := true)
            else
              after == s.(rcv := codec.Received(), delivered := s.delivered + contents,
                          acks := if ack then s.acks + {packet.num} else s.acks)
  {
    hide HandleUdp;
    contents, ack, fatal := codec.HandleUdpPacket(z, dir, packet);
  }

  // ---------- Sending ----------

  lemma IntervalGrows(outstanding: set<nat>, first: nat, n: nat)
    requires first <= n
    ensures outstanding + T.Interval(first, n + 1) == (outstanding + T.Interval(first, n)) + {n}
  {
  }

  lemma LabelsGrow(outstanding: set<nat>, first: nat, i: nat)
    ensures T.Labels(outstanding + T.Interval(first, first + i + 1))
            == T.Labels(outstanding + T.Interval(first, first + i)) + {Label(first + i)}
  {
    hide T.Labels, T.Interval;
    IntervalGrows(outstanding, first, first + i);
    LabelsOfUnion(outstanding + T.Interval(first, first + i), {first + i});
    LabelsOfOne(first + i);
  }

  /** What the program keeps of packet `n`. */
  lemma KeptLabel(p: OutUdpPacket, n: nat)
    requires p.generation == OfNumber(n + 1).generation && p.id == OfNumber(n).id && n + 0x1_0000 < SPACE
    ensures PartialPacketId(p.generation, p.id).Number() == Label(n)
    ensures IsLabel(Label(n)) && Named(Label(n)) == n
  {
    LabelIsKept(n);
    NamedIsInverse(n);
  }

  /** Sending a command: it is encoded, and the resender keeps the packets. */
  method Send(codec: PacketCodec, r: Resender, t: Kind, content: Bytes, now: int,
              ghost c: T.Config, ghost s: T.System, z: Compressor, dir: Direction)
    requires codec.Valid() && Coupled(c, s, r.View(), t, codec.sent)
    requires c.z == z && c.dir == dir && T.Enabled(c, s, T.Send(content))
    modifies codec, r
    ensures codec.Valid() && Coupled(c, T.AfterSend(c, s, content), r.View(), t, codec.sent)
  {
    hide Sound, Split, IsLabel, Named, Label, OfNumber, ComesInOrder, Good;
    ghost var first := codec.sent;
    var packets := codec.EncodePacket(z, dir, content);
    SoundHasShape(r.View());
    assert s.outstanding + T.Interval(first, first) == s.outstanding;
    for i := 0 to |packets|
      invariant codec.Valid() && codec.sent == first + |packets|
      invariant Sound(r.View()) && Shape(r.View())
      invariant r.full[t].Keys == T.Labels(s.outstanding + T.Interval(first, first + i))
      invariant r.upTo[t] <= first + i
    {
      KeptLabel(packets[i], first + i);
      LabelsGrow(s.outstanding, first, i);
      r.SendPacket(t, PartialPacketId(packets[i].generation, packets[i].id).Number(), now);
    }
  }

  // ---------- Polling ----------

  /** The span of the system is the span of the records. */
  lemma SpanIsSpanOf(outstanding: set<nat>, m: Records, n: nat)
    requires m.Keys == T.Labels(outstanding)
    ensures |T.Span(outstanding, n)| == |SpanOf(m, Label(n))|
  {
    var span := T.Span(outstanding, n);
    forall k
      ensures k in SpanOf(m, Label(n)) <==> k in T.Labels(span)
    {
      if k in SpanOf(m, Label(n)) {
        var j :| j in outstanding && Label(j) == k;
        NamedIsInverse(j);
        NamedIsInverse(n);
      }
      if k in T.Labels(span) {
        var j :| j in span && Label(j) == k;
        NamedIsInverse(j);
        NamedIsInverse(n);
        assert k in T.Labels(outstanding);
      }
    }
    assert SpanOf(m, Label(n)) == T.Labels(span);
    LabelsCount(span);
  }

  lemma {:induction false} LabelsCount(ns: set<nat>)
    ensures |T.Labels(ns)| == |ns|
    decreases ns
  {
    if ns != {} {
      var n :| n in ns;
      LabelsCount(ns - {n});
      assert ns == (ns - {n}) + {n};
      LabelsOfUnion(ns - {n}, {n});
      LabelsOfOne(n);
      if Label(n) in T.Labels(ns - {n}) {
        var j :| j in ns - {n} && Label(j) == Label(n);
        NamedIsInverse(j);
        NamedIsInverse(n);
      }
    }
  }

  /** What the resender may send, the system may transmit. */
  lemma PollTransmits(c: T.Config, s: T.System, m: Records, k: nat)
    requires m.Keys == T.Labels(s.outstanding) && MaySend(m, k, c.window)
    ensures IsLabel(k) && T.Enabled(c, s, T.Transmit(Named(k)))
  {
    var n :| n in s.outstanding && Label(n) == k;
    NamedIsInverse(n);
    SpanIsSpanOf(s.outstanding, m, n);
  }

  /** The network after some transmissions. */
  function Transmitted(network: set<nat>, sent: seq<Transmission>, t: Kind): set<nat> {
    network + set i | 0 <= i < |sent| && sent[i].kind == t :: Named(sent[i].part)
  }

  /** A poll is a number of transmissions of the system. */
  method Poll(r: Resender, t: Kind, now: int, timeout: nat, socket: nat -> SocketResult,
              ghost c: T.Config, ghost s: T.System, ghost numbered: nat)
    returns (result: PollResult, sent: seq<Transmission>)
    requires Coupled(c, s, r.View(), t, numbered) && timeout > 0 && r.Rto() > 0
    modifies r
    ensures forall i :: 0 <= i < |sent| && sent[i].kind == t ==>
              IsLabel(sent[i].part) && T.Enabled(c, s, T.Transmit(Named(sent[i].part)))
    ensures Coupled(c, s.(network := Transmitted(s.network, sent, t)), r.View(), t, numbered)
  {
    hide Sound, Exact, Good, MaySend, Resender.Reacted;
    SoundHasShape(r.View());
    ghost var before := r.full;
    var losses;
    result, sent, losses := r.PollResend(now, timeout, socket);
    assert r.full[t].Keys == before[t].Keys;
    forall i | 0 <= i < |sent| && sent[i].kind == t
      ensures IsLabel(sent[i].part) && T.Enabled(c, s, T.Transmit(Named(sent[i].part)))
    {
      PollTransmits(c, s, before[t], sent[i].part);
    }
  }

  // ---------- Acknowledging ----------

  /** What the resender removes for an ack is what the system removes. */
  lemma AckRemoves(outstanding: set<nat>, pId: u16)
    requires T.Labels(outstanding) != {}
    ensures T.Labels(outstanding) - {AckedKey(T.Labels(outstanding), pId)} == T.Labels(T.AfterAck(outstanding, pId))
  {
    hide AckedKey, Label;
    var labels := T.Labels(outstanding);
    var key := AckedKey(labels, pId);
    forall k
      ensures k in labels && k != key <==> k in T.Labels(T.AfterAck(outstanding, pId))
    {
      if k in labels && k != key {
        var n :| n in outstanding && Label(n) == k;
        assert n in T.AfterAck(outstanding, pId);
      }
    }
  }

  /** No packet up to `n` is outstanding. */
  predicate IsCovered(outstanding: set<nat>, n: nat) {
    forall m :: m in outstanding ==> n < m
  }

  /** The first outstanding packet has the last id of its generation. */
  ghost predicate LastIdIsFirst(outstanding: set<nat>) {
    outstanding != {} && Least(outstanding) % 0x1_0000 == 0xffff
  }

  lemma LabelsOfSome(ns: set<nat>)
    ensures ns == {} <==> T.Labels(ns) == {}
  {
    assert forall n :: n in ns ==> Label(n) in T.Labels(ns);
  }

  /** The report of everything below the first record is true exactly if that is the record of the
      first outstanding packet. */
  lemma ReportIsTrueExactly(outstanding: set<nat>, reported: nat)
    requires outstanding != {} ==> T.Labels(outstanding) != {} && reported + 1 == Least(T.Labels(outstanding))
    ensures IsCovered(outstanding, reported) <==> !LastIdIsFirst(outstanding)
  {
    if outstanding != {} {
      var n := Least(outstanding);
      var k := Least(T.Labels(outstanding));
      assert Label(n) in T.Labels(outstanding);
      var m :| m in outstanding && Label(m) == k;
    }
  }

  /** An ack is a step of the system.  What is reported as acknowledged is, exactly if the first
      packet still outstanding does not have the last id of its generation. */
  method Ack(r: Resender, t: Kind, pId: u16, next: nat, now: int, ghost c: T.Config, ghost s: T.System)
    returns (reported: Option<nat>)
    requires Coupled(c, s, r.View(), t, next)
    modifies r
    ensures Coupled(c, s.(outstanding := T.AfterAck(s.outstanding, pId)), r.View(), t, next)
    ensures reported.Some? && t != INIT ==>
              (IsCovered(T.AfterAck(s.outstanding, pId), reported.value)
               <==> !LastIdIsFirst(T.AfterAck(s.outstanding, pId)))
  {
    hide Sound, AckedKey, Label, IsCovered, LastIdIsFirst, Resender.Reported;
    SoundHasShape(r.View());
    ghost var keys := r.full[t].Keys;
    if keys != {} {
      AckRemoves(s.outstanding, pId);
    }
    reported := r.AckPacket(t, pId, next, now);
    LabelsOfSome(T.AfterAck(s.outstanding, pId));
    if reported.Some? && t != INIT {
      Resender.ReportedIsCovered(keys, t, pId, next);
      ReportIsTrueExactly(T.AfterAck(s.outstanding, pId), reported.value);
    }
  }

  // ---------- The loss is real ----------

  /** A heap that was just rebuilt for one type holds exactly the packets that the system may
      transmit with as large a window; the last id of a generation is filed elsewhere. */
  lemma RebuiltHoldsExactly(c: T.Config, s: T.System, q: Queues, t: Kind, n: nat)
    requires Exact(q) && c.window == |q.heap|
    requires q.full[t].Keys == T.Labels(s.outstanding) && n in s.outstanding && Label(n) == n
    requires forall x :: x in q.heap ==> x.kind == t && x.part in q.full[t]
    ensures InHeap(q.heap, t, n) <==> T.Enabled(c, s, T.Transmit(n))
  {
    hide HeapIs, Agree, InHeap;
    assert Label(n) in T.Labels(s.outstanding);
    assert n in q.full[t].Keys;
    HeapHoldsFirstExactly(q, t, n);
    SpanIsSpanOf(s.outstanding, q.full[t], n);
    assert KeysUpTo(q.full[t], n) == SpanOf(q.full[t], n);
  }

  /** So in the run of `WideWindowLoses` the resender does send the packet that falls out of the
      receive window, once its heap was rebuilt with a window of 32 568. */
  lemma FarPacketIsInHeap(c: T.Config, q: Queues, t: Kind)
    requires c.start <= 1 && Exact(q) && |q.heap| >= 32568
    requires q.full[t].Keys == T.Labels(R.Pending(c, 40_000 - c.start, 72_768 - c.start, 199))
    requires forall x :: x in q.heap ==> x.kind == t && x.part in q.full[t]
    ensures InHeap(q.heap, t, 72_767)
  {
    hide HeapIs, Agree, InHeap, R.Pending;
    var pending := R.Pending(c, 40_000 - c.start, 72_768 - c.start, 199);
    W.SpanFar(c);
    assert Label(72_767) in T.Labels(pending);
    SpanIsSpanOf(pending, q.full[t], 72_767);
    assert KeysUpTo(q.full[t], 72_767) == SpanOf(q.full[t], 72_767);
    HeapHoldsFirstExactly(q, t, 72_767);
  }
}
