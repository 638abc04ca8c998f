/** The receive path of one command type: reordering, reassembly, delivery and the decision to
    acknowledge. */
module Receive {
  import opened Options
  import opened PacketNumbers
  import opened Fragments
  import opened Words

  /** A decrypted command packet.  `num` counts the packets of the sender; only its low 16 bits
      are in the header, and only those are looked at by the receiver. */
  datatype Packet = Packet(num: nat, body: Fragment) {
    function Id(): u16 {
      num % 0x1_0000
    }
  }

  const MAX_QUEUE_LEN: nat := 200

  /** The next expected packet, the packets received out of order, the fragment queue. */
  datatype State = State(next: nat, queue: seq<Packet>, partial: Option<Partial>)

  datatype Outcome = Outcome(state: State, contents: seq<Bytes>, error: Option<Error>)

  /** Where the first queued packet with the given id is. */
  function Position(q: seq<Packet>, id: u16): (r: Option<nat>)
    ensures r.Some? ==> r.value < |q| && q[r.value].Id() == id
  {
    PositionFrom(q, id, 0)
  }

  function PositionFrom(q: seq<Packet>, id: u16, from: nat): (r: Option<nat>)
    requires from <= |q|
    ensures r.Some? ==> from <= r.value < |q| && q[r.value].Id() == id
    decreases |q| - from
  {
    if from == |q| then None
    else if q[from].Id() == id then Some(from)
    else PositionFrom(q, id, from + 1)
  }

  lemma {:induction false} PositionIsFirst(q: seq<Packet>, id: u16, from: nat)
    requires from <= |q|
    ensures var r := PositionFrom(q, id, from);
            forall i :: from <= i < (if r.Some? then r.value else |q|) ==> q[i].Id() != id
    decreases |q| - from
  {
    if from < |q| && q[from].Id() != id {
      PositionIsFirst(q, id, from + 1);
    }
  }

  function Without(q: seq<Packet>, i: nat): (r: seq<Packet>)
    requires i < |q|
    ensures |r| == |q| - 1
  {
    q[..i] + q[i + 1..]
  }

  lemma WithoutElements(q: seq<Packet>, i: nat, x: Packet)
    requires i < |q|
    ensures x in q <==> x == q[i] || x in Without(q, i)
  {
    assert q == q[..i] + [q[i]] + q[i + 1..];
  }

  /** Handle the expected packet `p` and everything that was waiting for it, having handed up
      `before`.  An error discards what was to be handed up. */
  function Drain(z: Compressor, dir: Direction, s: State, p: Packet, before: seq<Bytes>): Outcome
    decreases |s.queue|
  {
    var c := Consume(z, dir, s.partial, p.body);
    var following := Position(s.queue, (p.Id() + 1) % 0x1_0000);
    if c.Failed? then
      Outcome(State(s.next + 1, s.queue, c.partial), [], Some(c.error))
    else if following.None? then
      Outcome(State(s.next + 1, s.queue, c.partial), Append(before, c.content), None)
    else
      Drain(z, dir, State(s.next + 1, Without(s.queue, following.value), c.partial),
            s.queue[following.value], Append(before, c.content))
  }

  /** An error discards what was to be handed up, also by packets before it. */
  lemma {:induction false} DrainFailureDiscards(z: Compressor, dir: Direction, s: State, p: Packet, before: seq<Bytes>)
    ensures var o := Drain(z, dir, s, p, before);
            o.error.Some? ==> o.contents == [] && o.error.value in {DecompressPacket, FragmentQueueLength}
    decreases |s.queue|
  {
    var following := Position(s.queue, (p.Id() + 1) % 0x1_0000);
    ConsumeMeans(z, dir, s.partial, p.body);
    if Consume(z, dir, s.partial, p.body).Consumed? && following.Some? {
      DrainFailureDiscards(z, dir, State(s.next + 1, Without(s.queue, following.value),
        Consume(z, dir, s.partial, p.body).partial), s.queue[following.value],
        Append(before, Consume(z, dir, s.partial, p.body).content));
    }
  }

  /** Whether an id lies among the first 200 from the expected one. */
  predicate InQueueWindow(next: u16, id: u16) {
    var nextGen := next + MAX_QUEUE_LEN >= TURN;
    var limit := (next + MAX_QUEUE_LEN) % 0x1_0000;
    (!nextGen && id >= next && id < limit) || (nextGen && (id >= next || id < limit))
  }

  function Handle(z: Compressor, dir: Direction, s: State, p: Packet): Outcome {
    if s.next % 0x1_0000 == p.Id() then Drain(z, dir, s, p, [])
    else if InQueueWindow(s.next % 0x1_0000, p.Id()) then
      Outcome(s.(queue := s.queue + [p]), [], None)
    else
      Outcome(s, [], Some(CommandQueueLength))
  }

  /** What a datagram does to the connection: handed up contents, whether an ack is sent for
      it, and a fatal error. */
  datatype Reaction = Reaction(state: State, contents: seq<Bytes>, ack: bool, fatal: Option<Error>)

  /** A genuine command datagram.  Inside the receive window it has to decrypt under the
      generation the window assigns to its id; outside it is acknowledged unseen. */
  function HandleUdp(z: Compressor, dir: Direction, s: State, p: Packet): Reaction {
    var w := InReceiveWindow(OfNumber(s.next), p.Id());
    if !w.inside then Reaction(s, [], true, None)
    else if w.generation != OfNumber(p.num).generation then Reaction(s, [], false, None)
    else
      var o := Handle(z, dir, s, p);
      Reaction(o.state, o.contents, o.error.None?, o.error)
  }

  // ---------- The codec object ----------

  /** An encoded datagram: its id, the generation it is encrypted under, and the generation the
      resender is told. */
  datatype OutUdpPacket = OutUdpPacket(generation: u32, encryptedUnder: u32, id: u16, body: Fragment)

  /** The packet counters and queues of one command type. */
  class PacketCodec {
    var outgoing: PartialPacketId
    var incoming: PartialPacketId
    var receiveQueue: seq<Packet>
    var fragmentedQueue: Option<Partial>
    ghost var sent: nat
    ghost var next: nat

    ghost predicate Valid()
      reads this
    {
      outgoing == OfNumber(sent) && incoming == OfNumber(next)
    }

    ghost function Received(): State
      reads this
    {
      State(next, receiveQueue, fragmentedQueue)
    }

    /** A fresh connection; a client has sent its first command inside an init packet, so its
        numbers and the ones its server expects start at 1. */
    constructor (isClient: bool)
      ensures Valid() && Received() == State(if isClient then 0 else 1, [], None)
      ensures sent == if isClient then 1 else 0
    {
      outgoing := PartialPacketId(0, if isClient then 1 else 0);
      incoming := PartialPacketId(0, if isClient then 0 else 1);
      receiveQueue, fragmentedQueue := [], None;
      sent := if isClient then 1 else 0;
      next := if isClient then 0 else 1;
    }

    /** The fragments of a command get consecutive numbers.  Each is encrypted under the
        generation of its own number but labelled with the generation of the next one. */
    method EncodePacket(z: Compressor, dir: Direction, content: Bytes) returns (packets: seq<OutUdpPacket>)
      requires Valid()
      modifies this`outgoing, this`sent
      ensures Valid()
      ensures var ps := Split(z, dir, content);
              && sent == old(sent) + |ps| && |packets| == |ps|
              && forall i :: 0 <= i < |ps| ==>
                   packets[i] == OutUdpPacket(OfNumber(old(sent) + i + 1).generation,
                                              OfNumber(old(sent) + i).generation,
                                              OfNumber(old(sent) + i).id, ps[i])
    {
      var fragments := CompressAndSplit(z, dir, content);
      packets := [];
      for i := 0 to |fragments|
        invariant Valid() && sent == old(sent) + i && |packets| == i
        invariant forall k :: 0 <= k < i ==>
                    packets[k] == OutUdpPacket(OfNumber(old(sent) + k + 1).generation,
                                               OfNumber(old(sent) + k).generation,
                                               OfNumber(old(sent) + k).id, fragments[k])
      {
        var id := outgoing;
        AddCounts(sent, 1);
        outgoing := outgoing.Add(1);
        sent := sent + 1;
        packets := packets + [OutUdpPacket(outgoing.generation, id.generation, id.id, fragments[i])];
      }
    }

    method HandleCommandPacket(z: Compressor, dir: Direction, packet: Packet)
      returns (contents: seq<Bytes>, error: Option<Error>)
      requires Valid()
      modifies this`incoming, this`receiveQueue, this`fragmentedQueue, this`next
      ensures Valid()
      ensures Outcome(Received(), contents, error) == Handle(z, dir, old(Received()), packet)
    {
      hide Consume, PositionFrom, Without, InQueueWindow, PartialPacketId.Add;
      var curNext := incoming.id;
      if curNext != packet.Id() {
        if InQueueWindow(curNext, packet.Id()) {
          receiveQueue := receiveQueue + [packet];
          return [], None;
        }
        return [], Some(CommandQueueLength);
      }
      contents := [];
      var p := packet;
      ghost var whole := Drain(z, dir, Received(), packet, []);
      while true
        invariant Valid()
        invariant whole == Drain(z, dir, Received(), p, contents)
        decreases |receiveQueue|
      {
        AddCounts(next, 1);
        incoming := incoming.Add(1);
        next := next + 1;
        match Consume(z, dir, fragmentedQueue, p.body) {
          case Failed(partial, e) =>
            fragmentedQueue := partial;
            return [], Some(e);
          case Consumed(partial, content) =>
            fragmentedQueue := partial;
            if content.Some? {
              contents := contents + [content.value];
            }
        }
        match Position(receiveQueue, (p.Id() + 1) % 0x1_0000) {
          case None =>
            break;
          case Some(pos) =>
            p := receiveQueue[pos];
            receiveQueue := Without(receiveQueue, pos);
        }
      }
      error := None;
    }

    method HandleUdpPacket(z: Compressor, dir: Direction, packet: Packet)
      returns (contents: seq<Bytes>, ack: bool, fatal: Option<Error>)
      requires Valid()
      modifies this`incoming, this`receiveQueue, this`fragmentedQueue, this`next
      ensures Valid()
      ensures Reaction(Received(), contents, ack, fatal) == HandleUdp(z, dir, old(Received()), packet)
    {
      var w := InReceiveWindow(incoming, packet.Id());
      contents, ack, fatal := [], false, None;
      if w.inside {
        if w.generation != OfNumber(packet.num).generation {
          return;
        }
        contents, fatal := HandleCommandPacket(z, dir, packet);
        ack := fatal.None?;
      } else {
        ack := true;
      }
    }
  }

  /** The label tells the resender a wrong number exactly for the last id of a generation. */
  lemma LabelWrongExactlyAtTurn(n: nat)
    ensures PartialPacketId(OfNumber(n + 1).generation, OfNumber(n).id) == OfNumber(n)
            <==> n % 0x1_0000 != TURN - 1
  {
    AddCounts(n, 1);
    AroundGenerations(OfNumber(n).generation + 1);
  }

  // ---------- Order of consumption ----------

  /** The packets one call consumes, and what it leaves in the queue. */
  function Taken(q: seq<Packet>, p: Packet): (r: seq<Packet>)
    ensures |r| > 0 && r[0] == p
    decreases |q|
  {
    match Position(q, (p.Id() + 1) % 0x1_0000)
    case None => [p]
    case Some(i) => [p] + Taken(Without(q, i), q[i])
  }

  function Left(q: seq<Packet>, p: Packet): seq<Packet>
    decreases |q|
  {
    match Position(q, (p.Id() + 1) % 0x1_0000)
    case None => q
    case Some(i) => Left(Without(q, i), q[i])
  }

  /** What is queued is consumed or left over, and nothing else is. */
  lemma {:induction false} TakenOrLeft(q: seq<Packet>, p: Packet, x: Packet)
    ensures x == p || x in q <==> x in Taken(q, p) || x in Left(q, p)
    decreases |q|
  {
    match Position(q, (p.Id() + 1) % 0x1_0000)
    case None =>
    case Some(i) =>
      WithoutElements(q, i, x);
      TakenOrLeft(Without(q, i), q[i], x);
  }

  lemma WithoutCount(q: seq<Packet>, i: nat)
    requires i < |q|
    ensures multiset(Without(q, i)) + multiset{q[i]} == multiset(q)
  {
    assert q == q[..i] + ([q[i]] + q[i + 1..]);
  }

  /** With multiplicities. */
  lemma {:induction false} TakenAndLeft(q: seq<Packet>, p: Packet)
    ensures multiset(Taken(q, p)) + multiset(Left(q, p)) == multiset{p} + multiset(q)
    decreases |q|
  {
    hide Without;
    var next := Position(q, (p.Id() + 1) % 0x1_0000);
    if next.Some? {
      var i := next.value;
      TakenAndLeft(Without(q, i), q[i]);
      WithoutCount(q, i);
      var rest, left := multiset(Taken(Without(q, i), q[i])), multiset(Left(Without(q, i), q[i]));
      assert multiset(Taken(q, p)) == multiset{p} + rest && multiset(Left(q, p)) == left;
      assert multiset{p} + rest + left == multiset{p} + (rest + left);
    }
  }

  /** No packet with the id expected next is left over. */
  lemma {:induction false} NextIsNotLeft(q: seq<Packet>, p: Packet)
    ensures forall x :: x in Left(q, p) ==> x.Id() != (Taken(q, p)[|Taken(q, p)| - 1].Id() + 1) % 0x1_0000
    decreases |q|
  {
    match Position(q, (p.Id() + 1) % 0x1_0000)
    case None =>
      PositionIsFirst(q, (p.Id() + 1) % 0x1_0000, 0);
    case Some(i) =>
      NextIsNotLeft(Without(q, i), q[i]);
  }

  function Bodies(ps: seq<Packet>): (r: seq<Fragment>)
    ensures |r| == |ps|
  {
    seq(|ps|, i requires 0 <= i < |ps| => ps[i].body)
  }

  lemma DrainRound(z: Compressor, dir: Direction, s: State, p: Packet, before: seq<Bytes>)
    ensures var a := Advance(z, dir, Assembly(s.partial, before, false), p.body);
            var o := Drain(z, dir, s, p, before);
            var next := Position(s.queue, (p.Id() + 1) % 0x1_0000);
            && (a.failed ==> o.error.Some?)
            && (!a.failed && next.None? ==> o == Outcome(State(s.next + 1, s.queue, a.partial), a.contents, None))
            && (!a.failed && next.Some? ==>
                  o == Drain(z, dir, State(s.next + 1, Without(s.queue, next.value), a.partial),
                             s.queue[next.value], a.contents))
  {
    hide Without, PositionFrom, Finish;
  }

  lemma AssembleCons(z: Compressor, dir: Direction, a: Assembly, p: Packet, rest: seq<Packet>)
    ensures Assemble(z, dir, a, Bodies([p] + rest)) ==
            Assemble(z, dir, Advance(z, dir, a, p.body), Bodies(rest))
  {
    assert [p.body][..0] == [];
    assert Bodies([p] + rest) == [p.body] + Bodies(rest);
    AssembleConcat(z, dir, a, [p.body], Bodies(rest));
  }

  /** Reassembly of the packets taken, one round at a time. */
  lemma ReassemblyRound(z: Compressor, dir: Direction, s: State, p: Packet, before: seq<Bytes>)
    ensures var a := Advance(z, dir, Assembly(s.partial, before, false), p.body);
            var all := Assemble(z, dir, Assembly(s.partial, before, false), Bodies(Taken(s.queue, p)));
            var next := Position(s.queue, (p.Id() + 1) % 0x1_0000);
            && (a.failed || next.None? ==> all == a)
            && (!a.failed && next.Some? ==>
                  all == Assemble(z, dir, a, Bodies(Taken(Without(s.queue, next.value), s.queue[next.value]))))
  {
    var a := Advance(z, dir, Assembly(s.partial, before, false), p.body);
    var next := Position(s.queue, (p.Id() + 1) % 0x1_0000);
    var rest := if next.None? then [] else Taken(Without(s.queue, next.value), s.queue[next.value]);
    assert Taken(s.queue, p) == [p] + rest;
    AssembleCons(z, dir, Assembly(s.partial, before, false), p, rest);
    if a.failed {
      FailureStays(z, dir, a, Bodies(rest));
    }
  }

  /** The loop over reordered packets is reassembly of the packets it takes. */
  lemma {:induction false} DrainAssembles(z: Compressor, dir: Direction, s: State, p: Packet, before: seq<Bytes>)
    ensures var o := Drain(z, dir, s, p, before);
            var a := Assemble(z, dir, Assembly(s.partial, before, false), Bodies(Taken(s.queue, p)));
            && (o.error.Some? <==> a.failed)
            && (o.error.None? ==> o.state.partial == a.partial && o.contents == a.contents)
    decreases |s.queue|
  {
    var a := Advance(z, dir, Assembly(s.partial, before, false), p.body);
    var next := Position(s.queue, (p.Id() + 1) % 0x1_0000);
    DrainRound(z, dir, s, p, before);
    ReassemblyRound(z, dir, s, p, before);
    if !a.failed && next.Some? {
      DrainAssembles(z, dir, State(s.next + 1, Without(s.queue, next.value), a.partial),
                     s.queue[next.value], a.contents);
    }
  }

  /** The loop counts the packets it takes and leaves the others. */
  lemma {:induction false} DrainCounts(z: Compressor, dir: Direction, s: State, p: Packet, before: seq<Bytes>)
    ensures var o := Drain(z, dir, s, p, before);
            o.error.None? ==> o.state.next == s.next + |Taken(s.queue, p)| && o.state.queue == Left(s.queue, p)
    decreases |s.queue|
  {
    hide Advance, Drain, Without;
    var a := Advance(z, dir, Assembly(s.partial, before, false), p.body);
    var next := Position(s.queue, (p.Id() + 1) % 0x1_0000);
    DrainRound(z, dir, s, p, before);
    if !a.failed && next.Some? {
      DrainCounts(z, dir, State(s.next + 1, Without(s.queue, next.value), a.partial),
                  s.queue[next.value], a.contents);
    }
  }

  ghost predicate Consecutive(ps: seq<Packet>, first: nat) {
    forall i :: 0 <= i < |ps| ==> ps[i].num == first + i
  }

  ghost predicate Waiting(q: seq<Packet>, k: nat) {
    exists x :: x in q && x.num == k
  }

  /** All packets between the expected one and `m` are waiting. */
  ghost predicate Reaches(q: seq<Packet>, next: nat, m: nat) {
    forall k :: next < k < m ==> Waiting(q, k)
  }

  /** The first queued packet with the id of packet `m`, if any, is packet `m`. */
  ghost predicate Genuine(q: seq<Packet>, m: nat) {
    match Position(q, m % 0x1_0000)
    case None => true
    case Some(i) => q[i].num == m
  }

  /** No copy of a packet consumed earlier stands in the queue in the place of a packet the
      loop gets to. */
  ghost predicate NoImpostor(q: seq<Packet>, next: nat, bound: nat) {
    forall m :: next < m <= bound && Reaches(q, next, m) ==> Genuine(q, m)
  }

  lemma SameIdSameNumber(a: nat, b: nat)
    requires a % 0x1_0000 == b % 0x1_0000 && a < b + TURN && b < a + TURN
    ensures a == b
  {
  }

  /** Taking out one packet does not change which packet is first for another id. */
  lemma GenuineRemains(q: seq<Packet>, i: nat, m: nat)
    requires i < |q| && q[i].Id() != m % 0x1_0000
    ensures Genuine(Without(q, i), m) <==> Genuine(q, m)
  {
    var rest := Without(q, i);
    PositionIsFirst(q, m % 0x1_0000, 0);
    PositionIsFirst(rest, m % 0x1_0000, 0);
    assert forall j :: 0 <= j < |rest| ==> rest[j] == q[if j < i then j else j + 1];
    match Position(q, m % 0x1_0000)
    case None =>
    case Some(a) =>
      assert rest[if a < i then a else a - 1] == q[a];
  }

  lemma ReachesRemain(q: seq<Packet>, next: nat, i: nat, m: nat)
    requires i < |q| && q[i].num == next + 1 < m
    ensures Reaches(q, next, m) <==> Reaches(Without(q, i), next + 1, m)
  {
    var rest := Without(q, i);
    if Reaches(q, next, m) {
      forall k | next + 1 < k < m
        ensures Waiting(rest, k)
      {
        assert Waiting(q, k);
        var x :| x in q && x.num == k;
        WithoutElements(q, i, x);
      }
    }
    if Reaches(rest, next + 1, m) {
      forall k | next < k < m
        ensures Waiting(q, k)
      {
        assert k == next + 1 ==> q[i] in q;
        if k > next + 1 {
          assert Waiting(rest, k);
          var x :| x in rest && x.num == k;
          WithoutElements(q, i, x);
        }
      }
    }
  }

  lemma NoImpostorRemains(q: seq<Packet>, next: nat, bound: nat, i: nat)
    requires bound < next + TURN && i < |q| && q[i].num == next + 1
    requires Genuine(q, next + 1)
    ensures NoImpostor(q, next, bound) <==> NoImpostor(Without(q, i), next + 1, bound)
  {
    forall m | next + 1 < m <= bound
      ensures Reaches(q, next, m) <==> Reaches(Without(q, i), next + 1, m)
      ensures Genuine(Without(q, i), m) <==> Genuine(q, m)
    {
      ReachesRemain(q, next, i, m);
      if q[i].Id() == m % 0x1_0000 {
        SameIdSameNumber(m, next + 1);
      }
      GenuineRemains(q, i, m);
    }
  }

  /** The loop consumes consecutive packets exactly when no impostor waits in the queue. */
  lemma {:induction false} InOrderExactly(q: seq<Packet>, p: Packet, bound: nat)
    requires bound < p.num + TURN && p.num < bound
    requires forall x :: x in q ==> x.num < bound
    ensures Consecutive(Taken(q, p), p.num) <==> NoImpostor(q, p.num, bound)
    decreases |q|
  {
    var next := Position(q, (p.num + 1) % 0x1_0000);
    SuccessorId(p);
    if next.None? {
      NothingFollows(q, p, bound);
    } else {
      var x := q[next.value];
      assert x in q;
      assert Taken(q, p) == [p] + Taken(Without(q, next.value), x);
      if x.num == p.num + 1 {
        forall y | y in Without(q, next.value)
          ensures y.num < bound
        {
          WithoutElements(q, next.value, y);
        }
        InOrderExactly(Without(q, next.value), x, bound);
        NoImpostorRemains(q, p.num, bound, next.value);
        ConsecutiveCons(p, Taken(Without(q, next.value), x));
      } else {
        assert Taken(q, p)[1] == x;
        assert Reaches(q, p.num, p.num + 1) && !Genuine(q, p.num + 1);
      }
    }
  }

  lemma SuccessorId(p: Packet)
    ensures (p.Id() + 1) % 0x1_0000 == (p.num + 1) % 0x1_0000
  {
  }

  lemma NothingFollows(q: seq<Packet>, p: Packet, bound: nat)
    requires Position(q, (p.num + 1) % 0x1_0000) == None
    ensures Consecutive(Taken(q, p), p.num) && NoImpostor(q, p.num, bound)
  {
    SuccessorId(p);
    PositionIsFirst(q, (p.num + 1) % 0x1_0000, 0);
    forall m | p.num < m <= bound && Reaches(q, p.num, m)
      ensures Genuine(q, m)
    {
      assert m > p.num + 1 ==> Waiting(q, p.num + 1);
    }
  }

  lemma ConsecutiveCons(p: Packet, rest: seq<Packet>)
    ensures Consecutive([p] + rest, p.num) <==> Consecutive(rest, p.num + 1)
  {
    var ps := [p] + rest;
    assert forall k :: 0 < k < |ps| ==> ps[k] == rest[k - 1];
    assert forall k :: 0 <= k < |rest| ==> rest[k] == ps[k + 1];
  }

  /** No impostor can be waiting while every queued packet is younger than a turn. */
  lemma FreshHasNoImpostor(q: seq<Packet>, next: nat)
    requires forall x :: x in q ==> next + MAX_QUEUE_LEN < x.num + TURN && x.num < next + MAX_QUEUE_LEN
    ensures NoImpostor(q, next, next + MAX_QUEUE_LEN)
  {
    forall m | next < m <= next + MAX_QUEUE_LEN
      ensures Genuine(q, m)
    {
      match Position(q, m % 0x1_0000)
      case None =>
      case Some(i) =>
        assert q[i] in q;
        SameIdSameNumber(m, q[i].num);
    }
  }

  lemma FreshQueueInOrder(q: seq<Packet>, p: Packet)
    requires forall x :: x in q ==> p.num + MAX_QUEUE_LEN < x.num + TURN && x.num < p.num + MAX_QUEUE_LEN
    ensures Consecutive(Taken(q, p), p.num)
  {
    FreshHasNoImpostor(q, p.num);
    InOrderExactly(q, p, p.num + MAX_QUEUE_LEN);
  }

  // ---------- Genuine packets ----------

  /** For a genuine packet that decrypts, the window tests on ids are tests on numbers. */
  lemma GenuineWindow(next: nat, p: Packet)
    requires next + 0x1_0000 < SPACE && p.num + 0x1_0000 < SPACE
    ensures var w := InReceiveWindow(OfNumber(next), p.Id());
            && (!w.inside ==> p.num < next || p.num >= next + RECEIVE_WINDOW)
            && (w.inside && w.generation == OfNumber(p.num).generation ==>
                  && next <= p.num < next + RECEIVE_WINDOW
                  && (next % 0x1_0000 == p.Id() <==> next == p.num)
                  && (InQueueWindow(next % 0x1_0000, p.Id()) <==> p.num < next + MAX_QUEUE_LEN))
  {
    WindowFindsGenerationEarly(p.num, next);
    if next <= p.num < next + RECEIVE_WINDOW {
      QueueWindowCounts(next, p.num);
    }
  }

  lemma QueueWindowCounts(next: nat, n: nat)
    requires next <= n < next + RECEIVE_WINDOW
    ensures next % 0x1_0000 == n % 0x1_0000 <==> next == n
    ensures InQueueWindow(next % 0x1_0000, n % 0x1_0000) <==> n < next + MAX_QUEUE_LEN
  {
    var turn, id := next / 0x1_0000, next % 0x1_0000;
    var ahead := id + (n - next);
    assert n == turn * 0x1_0000 + ahead;
    assert n % 0x1_0000 == if ahead >= 0x1_0000 then ahead - 0x1_0000 else ahead;
  }

  /** Being inside the receive window is a matter of ids alone. */
  lemma InsideIsHalfTurn(next: nat, n: nat)
    ensures InReceiveWindow(OfNumber(next), n % 0x1_0000).inside
            <==> (n - next) % 0x1_0000 < RECEIVE_WINDOW
  {
    var a, b := n % 0x1_0000, next % 0x1_0000;
    assert (n - next) % 0x1_0000 == (a - b) % 0x1_0000;
    assert (a - b) % 0x1_0000 == if a >= b then a - b else a - b + 0x1_0000;
    var limit := b + RECEIVE_WINDOW;
    assert limit % 0x1_0000 == if limit >= 0x1_0000 then limit - 0x1_0000 else limit;
  }

  /** What a receiver that expects packet `s.next` does with any packet: 32 767 or more ahead, modulo
      the ids, it is acknowledged unseen; otherwise one of another turn of the ids is dropped.  The
      expected one is consumed, one less than 200 ahead is queued, and any other ends the
      connection. */
  lemma HandleUdpDecides(z: Compressor, dir: Direction, s: State, p: Packet)
    requires s.next + 0x1_0000 < SPACE && p.num + 0x1_0000 < SPACE
    ensures var r := HandleUdp(z, dir, s, p);
            var ahead := (p.num - s.next) % 0x1_0000;
            if ahead >= 32_767 then r == Reaction(s, [], true, None)
            else if p.num != s.next + ahead then r == Reaction(s, [], false, None)
            else if ahead == 0 then
              var o := Drain(z, dir, s, p, []);
              r == Reaction(o.state, o.contents, o.error.None?, o.error)
            else if ahead < 200 then r == Reaction(s.(queue := s.queue + [p]), [], true, None)
            else r == Reaction(s, [], false, Some(CommandQueueLength))
  {
    hide InReceiveWindow, Drain, InQueueWindow;
    var ahead := (p.num - s.next) % 0x1_0000;
    InsideIsHalfTurn(s.next, p.num);
    WindowFindsGenerationEarly(p.num, s.next);
    if ahead < 32_767 {
      FoundIsAhead(s.next, p.num);
      if p.num == s.next + ahead {
        QueueWindowCounts(s.next, p.num);
      }
    }
  }

  lemma FoundIsAhead(next: nat, n: nat)
    requires (n - next) % 0x1_0000 < 32_767
    ensures -32769 <= n - next < 32_767 <==> n == next + (n - next) % 0x1_0000
  {
  }
}
