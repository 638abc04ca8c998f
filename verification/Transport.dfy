/** One command type end to end: a sender with its unacknowledged packets, a network that loses,
    repeats and reorders datagrams in both directions, and a receiver.  A run is any list of
    enabled steps. */
module Transport {
  import opened Options
  import opened PacketNumbers
  import opened Fragments
  import opened Receive
  import opened Resend
  import opened Words

  /** The number of the first packet, and the largest congestion window of the sender. */
  datatype Config = Config(z: Compressor, dir: Direction, start: nat, window: nat)

  datatype System = System(
    commands: seq<Bytes>,      // handed to the sender
    log: seq<Packet>,          // their fragments; packet number start + i is at i
    outstanding: set<nat>,     // numbers of the unacknowledged packets
    network: set<nat>,         // command datagrams sent at least once
    acks: set<nat>,            // ack datagrams sent at least once
    rcv: State,
    delivered: seq<Bytes>,     // handed up by the receiver
    dead: bool)                // the receiver ended with an error

  datatype Step = Send(content: Bytes) | Transmit(num: nat) | Deliver(num: nat) | DeliverAck(num: nat)

  function Init(c: Config): System {
    System([], [], {}, {}, {}, State(c.start, [], None), [], false)
  }

  function End(c: Config, s: System): nat {
    c.start + |s.log|
  }

  function NumberFrom(first: nat, ps: seq<Fragment>): (r: seq<Packet>)
    ensures |r| == |ps|
  {
    seq(|ps|, i requires 0 <= i < |ps| => Packet(first + i, ps[i]))
  }

  function Labels(outstanding: set<nat>): set<nat> {
    set n | n in outstanding :: Label(n)
  }

  /** The packets left after the ack for a 16 bit id. */
  function AfterAck(outstanding: set<nat>, pId: u16): set<nat> {
    if Labels(outstanding) == {} then outstanding
    else
      var key := AckedKey(Labels(outstanding), pId);
      set n | n in outstanding && Label(n) != key
  }

  /** The outstanding packets that are in the sender's heap whenever packet `n` is. */
  function Span(outstanding: set<nat>, n: nat): set<nat> {
    set m | m in outstanding && m <= n && Label(m) <= Label(n)
  }

  predicate Enabled(c: Config, s: System, step: Step) {
    match step
    case Send(content) => End(c, s) + |Split(c.z, c.dir, content)| + 2 * 0x1_0000 < SPACE
    case Transmit(n) => n in s.outstanding && |Span(s.outstanding, n)| <= c.window
    case Deliver(n) => n in s.network && c.start <= n < End(c, s) && !s.dead
    case DeliverAck(n) => n in s.acks
  }

  function Interval(lo: nat, hi: nat): (r: set<nat>)
    decreases hi
  {
    if hi <= lo then {} else Interval(lo, hi - 1) + {hi - 1}
  }

  lemma {:induction false} IntervalIs(lo: nat, hi: nat)
    ensures forall n :: n in Interval(lo, hi) <==> lo <= n < hi
    ensures |Interval(lo, hi)| == if hi <= lo then 0 else hi - lo
    decreases hi
  {
    if lo < hi {
      IntervalIs(lo, hi - 1);
    }
  }

  function AfterSend(c: Config, s: System, content: Bytes): System {
    var ps := Split(c.z, c.dir, content);
    s.(commands := s.commands + [content],
       log := s.log + NumberFrom(End(c, s), ps),
       outstanding := s.outstanding + Interval(End(c, s), End(c, s) + |ps|))
  }

  function AfterDeliver(c: Config, s: System, n: nat): System
    requires c.start <= n < End(c, s)
  {
    var r := HandleUdp(c.z, c.dir, s.rcv, s.log[n - c.start]);
    if r.fatal.Some? then s.(dead := true)
    else s.(rcv := r.state, delivered := s.delivered + r.contents, acks := if r.ack then s.acks + {n} else s.acks)
  }

  function Apply(c: Config, s: System, step: Step): System
    requires Enabled(c, s, step)
  {
    match step
    case Send(content) => AfterSend(c, s, content)
    case Transmit(n) => s.(network := s.network + {n})
    case Deliver(n) => AfterDeliver(c, s, n)
    case DeliverAck(n) => s.(outstanding := AfterAck(s.outstanding, n % 0x1_0000))
  }

  /** A run: the states reached by a list of steps, if each is enabled in its turn. */
  ghost predicate Legal(c: Config, steps: seq<Step>)
    decreases |steps|, 0
  {
    steps == [] ||
    (Legal(c, steps[..|steps| - 1]) && Enabled(c, Run(c, steps[..|steps| - 1]), steps[|steps| - 1]))
  }

  ghost function Run(c: Config, steps: seq<Step>): System
    requires Legal(c, steps)
    decreases |steps|, 1
  {
    if steps == [] then Init(c)
    else Apply(c, Run(c, steps[..|steps| - 1]), steps[|steps| - 1])
  }

  // ---------- What is assumed of a run ----------

  /** No copy of an earlier packet stands in the receive queue where the next delivery gets to. */
  ghost predicate Orderly(rcv: State) {
    NoImpostor(rcv.queue, rcv.next, rcv.next + MAX_QUEUE_LEN)
  }

  /** The step hands the expected packet, and what waits for it, to the reassembly. */
  predicate Consumes(c: Config, s: System, step: Step)
    requires Enabled(c, s, step)
  {
    step.Deliver? && step.num == s.rcv.next && HandleUdp(c.z, c.dir, s.rcv, s.log[step.num - c.start]).fatal.None?
  }

  /** Whenever packets are consumed, no copy of an earlier one is met. */
  ghost predicate OrderlyRun(c: Config, steps: seq<Step>)
    requires Legal(c, steps)
  {
    steps == [] ||
    (var before := steps[..|steps| - 1];
     && OrderlyRun(c, before)
     && (Consumes(c, Run(c, before), steps[|steps| - 1]) ==> Orderly(Run(c, before).rcv)))
  }

  /** An ack is delivered while its packet is outstanding, or less than a whole turn of the ids
      after it. */
  ghost predicate TimelyAck(c: Config, s: System, step: Step) {
    step.DeliverAck? ==> step.num in s.outstanding || End(c, s) <= step.num + 0x1_0000
  }

  ghost predicate TimelyAcks(c: Config, steps: seq<Step>)
    requires Legal(c, steps)
  {
    steps == [] ||
    (var before := steps[..|steps| - 1];
     TimelyAcks(c, before) && TimelyAck(c, Run(c, before), steps[|steps| - 1]))
  }

  /** No packet has waited in the receive queue for nearly a whole turn of the ids. */
  ghost predicate FreshQueue(rcv: State) {
    forall x :: x in rcv.queue ==> rcv.next + MAX_QUEUE_LEN < x.num + 0x1_0000
  }

  ghost predicate FreshRun(c: Config, steps: seq<Step>)
    requires Legal(c, steps)
  {
    steps == [] ||
    (var before := steps[..|steps| - 1];
     FreshRun(c, before) && FreshQueue(Run(c, before).rcv))
  }

  // ---------- Order ----------

  /** The packets consumed so far, reassembled. */
  ghost function Consumed(c: Config, log: seq<Packet>, upTo: nat): Assembly
    requires upTo <= |log|
  {
    Assemble(c.z, c.dir, EMPTY, Bodies(log)[..upTo])
  }

  ghost predicate LogOk(c: Config, commands: seq<Bytes>, log: seq<Packet>) {
    && (forall i :: 0 <= i < |log| ==> log[i].num == c.start + i)
    && Bodies(log) == SplitAll(c.z, c.dir, commands)
    && c.start + |log| + 2 * 0x1_0000 <= SPACE
  }

  ghost predicate IsSent(c: Config, log: seq<Packet>, x: Packet) {
    c.start <= x.num < c.start + |log| && x == log[x.num - c.start]
  }

  /** A packet that may be in the queue. */
  ghost predicate Queueable(c: Config, log: seq<Packet>, next: nat, x: Packet) {
    IsSent(c, log, x) && x.num < next + MAX_QUEUE_LEN && x.num != next
  }

  /** The receiver expects a packet of the log or the one after it, and has queued packets of
      the log, none of them the expected one. */
  ghost predicate ReceiverOk(c: Config, log: seq<Packet>, rcv: State) {
    && c.start <= rcv.next <= c.start + |log|
    && forall x :: x in rcv.queue ==> Queueable(c, log, rcv.next, x)
  }

  ghost predicate HandedUp(c: Config, log: seq<Packet>, rcv: State, delivered: seq<Bytes>)
    requires c.start <= rcv.next <= c.start + |log|
  {
    Assembly(rcv.partial, delivered, false) == Consumed(c, log, rcv.next - c.start)
  }

  ghost predicate InvOrder(c: Config, s: System) {
    LogOk(c, s.commands, s.log) && ReceiverOk(c, s.log, s.rcv) && HandedUp(c, s.log, s.rcv, s.delivered)
  }

  lemma LogNumber(c: Config, commands: seq<Bytes>, log: seq<Packet>, i: nat)
    requires LogOk(c, commands, log) && i < |log|
    ensures log[i].num == c.start + i && c.start + |log| + 2 * 0x1_0000 <= SPACE
  {
  }

  /** The commands handed up are a prefix of the commands sent, in order and each once. */
  lemma HandedUpIsPrefix(c: Config, s: System)
    requires c.z.Lawful() && InvOrder(c, s)
    ensures s.delivered <= s.commands
    ensures s.rcv.next == End(c, s) ==> s.delivered == s.commands && s.rcv.partial == None
  {
    var k := s.rcv.next - c.start;
    StreamHandsUpPrefix(c.z, c.dir, s.commands, k);
    WholeStream(c.z, c.dir, s.commands);
    if k == |s.log| {
      assert Bodies(s.log)[..k] == Bodies(s.log);
    }
  }

  lemma InitInvOrder(c: Config)
    requires c.start + 2 * 0x1_0000 <= SPACE
    ensures InvOrder(c, Init(c))
  {
    assert Bodies([]) == [] == SplitAll(c.z, c.dir, []);
    assert Bodies([])[..0] == [];
  }

  lemma SendKeepsOrder(c: Config, s: System, content: Bytes)
    requires InvOrder(c, s) && Enabled(c, s, Send(content))
    ensures InvOrder(c, AfterSend(c, s, content))
  {
    var t := AfterSend(c, s, content);
    var ps := Split(c.z, c.dir, content);
    assert Bodies(t.log) == Bodies(s.log) + ps;
    assert t.commands[..|t.commands| - 1] == s.commands;
    assert forall x :: x in s.rcv.queue ==> Queueable(c, t.log, s.rcv.next, x);
    var k := s.rcv.next - c.start;
    assert Bodies(t.log)[..k] == Bodies(s.log)[..k];
  }

  /** The packets one delivery consumes are the next ones of the log. */
  lemma TakenFromLog(c: Config, commands: seq<Bytes>, log: seq<Packet>, rcv: State)
    requires LogOk(c, commands, log) && ReceiverOk(c, log, rcv) && Orderly(rcv) && rcv.next < c.start + |log|
    ensures var k := rcv.next - c.start;
            var taken := Taken(rcv.queue, log[k]);
            k + |taken| <= |log| && taken == log[k..k + |taken|]
  {
    hide Taken, Left, Bodies, SplitAll, NoImpostor;
    var k := rcv.next - c.start;
    var taken := Taken(rcv.queue, log[k]);
    InOrderExactly(rcv.queue, log[k], rcv.next + MAX_QUEUE_LEN);
    forall i | 0 <= i < |taken|
      ensures k + i < |log| && taken[i] == log[k + i]
    {
      assert taken[i] in taken;
      TakenOrLeft(rcv.queue, log[k], taken[i]);
      assert Consecutive(taken, rcv.next);
    }
    var last := taken[|taken| - 1];
    assert k + (|taken| - 1) < |log|;
  }

  /** What stays in the queue after a delivery is still sound. */
  lemma LeftIsSound(c: Config, commands: seq<Bytes>, log: seq<Packet>, rcv: State, x: Packet)
    requires LogOk(c, commands, log) && ReceiverOk(c, log, rcv) && Orderly(rcv) && rcv.next < c.start + |log|
    requires x in Left(rcv.queue, log[rcv.next - c.start])
    ensures Queueable(c, log, rcv.next + |Taken(rcv.queue, log[rcv.next - c.start])|, x)
  {
    hide Taken, Left, Bodies, SplitAll;
    var k := rcv.next - c.start;
    var taken := Taken(rcv.queue, log[k]);
    TakenFromLog(c, commands, log, rcv);
    NextIsNotLeft(rcv.queue, log[k]);
    TakenOrLeft(rcv.queue, log[k], x);
    SuccessorId(taken[|taken| - 1]);
    assert taken[|taken| - 1] == log[k + |taken| - 1];
  }

  lemma LeftIsQueue(c: Config, commands: seq<Bytes>, log: seq<Packet>, rcv: State, partial: Option<Partial>)
    requires LogOk(c, commands, log) && ReceiverOk(c, log, rcv) && Orderly(rcv) && rcv.next < c.start + |log|
    ensures var p := log[rcv.next - c.start];
            ReceiverOk(c, log, State(rcv.next + |Taken(rcv.queue, p)|, Left(rcv.queue, p), partial))
  {
    hide Taken, Left, Queueable;
    TakenFromLog(c, commands, log, rcv);
    var left := Left(rcv.queue, log[rcv.next - c.start]);
    var next := rcv.next + |Taken(rcv.queue, log[rcv.next - c.start])|;
    forall x | x in left
      ensures Queueable(c, log, next, x)
    {
      LeftIsSound(c, commands, log, rcv, x);
    }
  }

  /** Consuming the next packets of the log continues the reassembly. */
  lemma ConsumedContinues(c: Config, log: seq<Packet>, k: nat, n: nat)
    requires k + n <= |log|
    ensures Consumed(c, log, k + n) == Assemble(c.z, c.dir, Consumed(c, log, k), Bodies(log[k..k + n]))
  {
    hide Assemble;
    assert Bodies(log[k..k + n]) == Bodies(log)[k..k + n];
    assert Bodies(log)[..k + n] == Bodies(log)[..k] + Bodies(log[k..k + n]);
    AssembleConcat(c.z, c.dir, EMPTY, Bodies(log)[..k], Bodies(log[k..k + n]));
  }

  lemma {:induction false} ContentsAreAppended(z: Compressor, dir: Direction, a: Assembly, ps: seq<Fragment>)
    ensures var b := Assemble(z, dir, a.(contents := []), ps);
            Assemble(z, dir, a, ps) == b.(contents := a.contents + b.contents)
  {
    if ps != [] {
      ContentsAreAppended(z, dir, a, ps[..|ps| - 1]);
    }
  }

  lemma DrainHandsUp(c: Config, commands: seq<Bytes>, log: seq<Packet>, rcv: State, delivered: seq<Bytes>)
    requires LogOk(c, commands, log) && ReceiverOk(c, log, rcv) && HandedUp(c, log, rcv, delivered)
    requires Orderly(rcv) && rcv.next < c.start + |log|
    ensures var o := Drain(c.z, c.dir, rcv, log[rcv.next - c.start], []);
            o.error.None? ==> ReceiverOk(c, log, o.state) && HandedUp(c, log, o.state, delivered + o.contents)
  {
    hide Drain, Taken, Left, Assemble, LogOk, Orderly, Bodies, Consumed;
    var k := rcv.next - c.start;
    var o := Drain(c.z, c.dir, rcv, log[k], []);
    if o.error.None? {
      var taken := Taken(rcv.queue, log[k]);
      LeftIsQueue(c, commands, log, rcv, o.state.partial);
      DrainCounts(c.z, c.dir, rcv, log[k], []);
      DrainAssembles(c.z, c.dir, rcv, log[k], []);
      TakenFromLog(c, commands, log, rcv);
      ConsumedContinues(c, log, k, |taken|);
      ContentsAreAppended(c.z, c.dir, Assembly(rcv.partial, delivered, false), Bodies(taken));
      assert o.state == State(o.state.next, Left(rcv.queue, log[k]), o.state.partial);
    }
  }

  lemma DeliverKeepsOrder(c: Config, s: System, n: nat)
    requires InvOrder(c, s) && Enabled(c, s, Deliver(n))
    requires Consumes(c, s, Deliver(n)) ==> Orderly(s.rcv)
    ensures InvOrder(c, AfterDeliver(c, s, n))
  {
    hide Drain, Taken, Left, Consumed, InReceiveWindow, InQueueWindow, OfNumber, Orderly;
    var p := s.log[n - c.start];
    assert p.num == n && IsSent(c, s.log, p);
    GenuineWindow(s.rcv.next, p);
    assert s.delivered + [] == s.delivered;
    if Consumes(c, s, Deliver(n)) {
      DrainHandsUp(c, s.commands, s.log, s.rcv, s.delivered);
    }
  }

  lemma {:induction false} RunKeepsOrder(c: Config, steps: seq<Step>)
    requires Legal(c, steps) && OrderlyRun(c, steps) && c.start + 2 * 0x1_0000 <= SPACE
    ensures InvOrder(c, Run(c, steps))
    decreases |steps|
  {
    if steps == [] {
      InitInvOrder(c);
    } else {
      var before := steps[..|steps| - 1];
      var s := Run(c, before);
      RunKeepsOrder(c, before);
      match steps[|steps| - 1]
      case Send(content) => SendKeepsOrder(c, s, content);
      case Transmit(n) =>
      case Deliver(n) => DeliverKeepsOrder(c, s, n);
      case DeliverAck(n) =>
    }
  }

  /** Over every run: what the receiver hands up is a prefix of what was sent. */
  lemma DeliveredIsPrefix(c: Config, steps: seq<Step>)
    requires c.z.Lawful() && Legal(c, steps) && OrderlyRun(c, steps) && c.start + 2 * 0x1_0000 <= SPACE
    ensures var s := Run(c, steps);
            && s.delivered <= s.commands
            && (s.rcv.next == End(c, s) ==> s.delivered == s.commands)
  {
    RunKeepsOrder(c, steps);
    HandedUpIsPrefix(c, Run(c, steps));
  }

  // ---------- When runs are orderly ----------

  lemma FreshQueueIsOrderly(c: Config, log: seq<Packet>, rcv: State)
    requires ReceiverOk(c, log, rcv) && FreshQueue(rcv)
    ensures Orderly(rcv)
  {
    assert forall x :: x in rcv.queue ==> Queueable(c, log, rcv.next, x);
    FreshHasNoImpostor(rcv.queue, rcv.next);
  }

  lemma InvOrderHasReceiver(c: Config, s: System)
    requires InvOrder(c, s)
    ensures ReceiverOk(c, s.log, s.rcv)
  {
  }

  /** A run is orderly while no queued copy gets nearly a turn old. */
  lemma {:induction false} FreshRunIsOrderly(c: Config, steps: seq<Step>)
    requires Legal(c, steps) && FreshRun(c, steps) && c.start + 2 * 0x1_0000 <= SPACE
    ensures OrderlyRun(c, steps)
    decreases |steps|
  {
    hide InvOrder, FreshQueue, Orderly, ReceiverOk, Consumes;
    if steps != [] {
      var before := steps[..|steps| - 1];
      var s := Run(c, before);
      FreshRunIsOrderly(c, before);
      RunKeepsOrder(c, before);
      InvOrderHasReceiver(c, s);
      FreshQueueIsOrderly(c, s.log, s.rcv);
    }
  }
}
