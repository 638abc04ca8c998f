/** The resender object: the methods that change the queues of module `Resend`. */
module Sending {
  import opened Options
  import opened PacketNumbers
  import opened Resend
  import opened Words

  /** What the socket does with a datagram. */
  datatype SocketResult = Accepted | WouldBlock | Broken

  datatype PollResult = Idle | Blocked | NetworkError | Timeout

  /** Due for transmission: never sent, or the retransmission timeout has passed. */
  predicate Due(x: RecordId, threshold: int) {
    x.tries == 0 || x.last <= threshold
  }

  /** In terms of the time since the last transmission. */
  lemma DueMeans(x: RecordId, now: int, rto: nat)
    ensures Due(x, now - rto) <==> x.tries == 0 || now - x.last >= rto
  {
  }

  /** The CUBIC formula of the congestion window, from the time since the last loss and the old
      maximum, and a bound that the window never exceeds. */
  datatype CubicGrowth = CubicGrowth(formula: (int, int) -> int, cap: nat) {
    function Window(time: int, wMax: int): (w: nat)
      ensures 1 <= w <= 32767
      ensures 1 <= formula(time, wMax) <= 32767 ==> w == formula(time, wMax)
      ensures (formula(time, wMax) < 1 ==> w == 1) && (formula(time, wMax) > 32767 ==> w == 32767)
    {
      var res := formula(time, wMax);
      if res > MAX_WINDOW then MAX_WINDOW else if res < 1 then 1 else res
    }

    ghost predicate Bounded() {
      forall time, wMax :: Window(time, wMax) <= cap
    }
  }

  type Growth = g: CubicGrowth | g.Bounded() witness CubicGrowth((time, wMax) => 1, 1)

  /** Whatever the formula, the program's own limit is a bound. */
  lemma LimitIsBound(formula: (int, int) -> int)
    ensures CubicGrowth(formula, MAX_WINDOW).Bounded()
  {
  }

  function Bumped(r: Record, now: int): Record {
    r.(id := SentAgain(r.id, now))
  }

  /** Not yet sent at or after time `now`. */
  predicate Waits(x: RecordId, now: int) {
    x.tries == 0 || x.last < now
  }

  function Waiting(m: Records, now: int): set<nat> {
    set k | k in m && Waits(m[k].id, now)
  }

  function WaitingCount(full: seq<Records>, now: int): nat
    requires |full| == 3
  {
    |Waiting(full[0], now)| + |Waiting(full[1], now)| + |Waiting(full[2], now)|
  }

  /** The entries among `s`, with multiplicity. */
  ghost function Entries(heap: multiset<RecordId>, s: set<RecordId>): (r: multiset<RecordId>)
    ensures forall x :: r[x] == if x in s then heap[x] else 0
  {
    if s == {} then multiset{}
    else
      var x :| x in s;
      Entries(heap, s - {x})[x := heap[x]]
  }

  predicate Live(full: seq<Records>, x: RecordId)
    requires |full| == 3
  {
    x.part in full[x.kind]
  }

  /** Acknowledged packets that are still in the heap. */
  function Dead(heap: multiset<RecordId>, full: seq<Records>): set<RecordId>
    requires |full| == 3
  {
    set x | x in heap && !Live(full, x)
  }

  /** An entry that waits although its record was sent meanwhile, through another entry. */
  predicate IsOutdated(full: seq<Records>, x: RecordId, now: int)
    requires |full| == 3
  {
    Live(full, x) && Waits(x, now) && !Waits(full[x.kind][x.part].id, now)
  }

  function Outdated(heap: multiset<RecordId>, full: seq<Records>, now: int): set<RecordId>
    requires |full| == 3
  {
    set x | x in heap && IsOutdated(full, x, now)
  }

  ghost function DeadCount(heap: multiset<RecordId>, full: seq<Records>): nat
    requires |full| == 3
  {
    |Entries(heap, Dead(heap, full))|
  }

  ghost function OutdatedCount(heap: multiset<RecordId>, full: seq<Records>, now: int): nat
    requires |full| == 3
  {
    |Entries(heap, Outdated(heap, full, now))|
  }

  /** One transmission. */
  datatype Transmission = Transmission(kind: Kind, part: nat)

  /** The records `after` are those `before`, and the ones in `sent` were sent now. */
  ghost predicate Advanced(before: seq<Records>, after: seq<Records>, sent: seq<Transmission>, now: int) {
    && |before| == 3 && |after| == 3
    && (forall t: Kind :: after[t].Keys == before[t].Keys)
    && (forall t: Kind, k :: k in before[t] ==>
          if Transmission(t, k) in sent then SentNow(before[t][k], after[t][k], now)
          else after[t][k] == before[t][k])
  }

  predicate SentNow(before: Record, after: Record, now: int) {
    after.sent == before.sent && after.id.tries > 0 && after.id.last == now
  }

  /** While heap and maps agree and everything is in order: exactly one transmission was noted. */
  ghost predicate Progress(before: seq<Records>, after: seq<Records>, sent: seq<Transmission>, now: int) {
    && |before| == 3 && |after| == 3
    && (forall t: Kind :: after[t].Keys == before[t].Keys)
    && (forall t: Kind, k :: k in before[t] ==>
          after[t][k] == if Transmission(t, k) in sent then Bumped(before[t][k], now) else before[t][k])
  }

  /** Every transmission concerns an outstanding packet with at most a window of earlier
      outstanding packets filed up to it. */
  ghost predicate WithinSpan(full: seq<Records>, sent: seq<Transmission>, cap: nat)
    requires |full| == 3
  {
    forall i :: 0 <= i < |sent| ==> MaySend(full[sent[i].kind], sent[i].part, cap)
  }

  ghost predicate MaySend(m: Records, k: nat, cap: nat) {
    k in m && |SpanOf(m, k)| <= cap
  }

  /** While heap and maps agree: there is at most a window of outstanding packets filed up to it,
      earlier or not, and no transmission happens twice. */
  ghost predicate WithinWindow(full: seq<Records>, sent: seq<Transmission>, cap: nat)
    requires |full| == 3
  {
    && (forall i :: 0 <= i < |sent| ==> InWindow(full[sent[i].kind], sent[i].part, cap))
    && (forall i, j :: 0 <= i < j < |sent| ==> sent[i] != sent[j])
  }

  ghost predicate InWindow(m: Records, k: nat, cap: nat) {
    k in m && |KeysUpTo(m, k)| <= cap
  }

  /** The heap `after` is `before` with current entries of live records added. */
  ghost predicate LiveAdded(before: multiset<RecordId>, after: multiset<RecordId>, full: seq<Records>) {
    && |full| == 3 && before <= after
    && forall x :: x in after - before ==> Live(full, x) && full[x.kind][x.part].id == x
  }

  lemma NothingAdded(heap: multiset<RecordId>, full: seq<Records>)
    requires |full| == 3
    ensures LiveAdded(heap, heap, full)
  {
  }

  lemma PushIsLive(before: multiset<RecordId>, q: Queues, t: Kind, k: nat)
    requires LiveAdded(before, q.heap, q.full) && Shape(q) && k in q.full[t]
    ensures LiveAdded(before, Pushed(q, t, k).heap, q.full)
  {
    assert Filed(t, q.full[t]);
    var x := q.full[t][k].id;
    assert forall y :: y in q.heap + multiset{x} - before ==> y in q.heap - before || y == x;
  }

  /** No record is left outside the heap. */
  ghost predicate AllQueued(full: seq<Records>, indices: seq<nat>) {
    |full| == 3 && |indices| == 3 && forall t: Kind, k :: k in full[t] ==> k < indices[t]
  }

  /** A change of the queues keeps each of their invariants. */
  ghost predicate Keeps(before: Queues, after: Queues) {
    && (Sound(before) ==> Sound(after))
    && (Exact(before) ==> Exact(after))
    && (Good(before) ==> Good(after))
  }

  lemma KeepsOnward(a: Queues, b: Queues, c: Queues)
    requires Keeps(a, b) && Keeps(b, c)
    ensures Keeps(a, c)
  {
  }

  lemma PushKeeps(q: Queues, t: Kind, k: nat)
    requires Shape(q) && Head(q.full[t].Keys, q.indices[t]) == Some(k) && |q.heap| < q.cap
    ensures Keeps(q, Pushed(q, t, k))
  {
    hide Good, Exact, Sound;
    if Sound(q) {
      PushKeepsSound(q, t, k);
    }
    if Exact(q) {
      PushKeepsExact(q, t, k);
    }
    if Good(q) {
      PushKeepsGood(q, t, k);
    }
  }

  lemma PopKeeps(q: Queues, x: RecordId)
    requires Shape(q) && x in q.heap && !Live(q.full, x)
    ensures Keeps(q, Popped(q, x))
  {
    hide Good, Exact, Sound;
    if Sound(q) {
      PopKeepsSound(q, x);
    }
    if Exact(q) {
      PopKeepsExact(q, x);
    }
    if Good(q) {
      PopKeepsGood(q, x);
    }
  }

  lemma RemoveKeeps(q: Queues, t: Kind, k: nat, acked: int)
    requires Shape(q)
    requires Good(q) ==> q.acked[t] <= acked < q.issued[t] && forall j :: j in q.full[t] ==> j == k || acked < j
    ensures Keeps(q, Removed(q, t, k, acked))
  {
    hide Good, Exact, Sound;
    if Sound(q) {
      RemoveKeepsSound(q, t, k, acked);
    }
    if Exact(q) {
      RemoveKeepsExact(q, t, k, acked);
    }
    if Good(q) {
      RemoveKeepsGood(q, t, k, acked);
    }
  }

  // ---------- Why the sending loop ends ----------

  /** Adding current entries changes neither count. */
  lemma FillKeepsCounts(before: multiset<RecordId>, after: multiset<RecordId>, full: seq<Records>, now: int)
    requires LiveAdded(before, after, full)
    ensures DeadCount(after, full) == DeadCount(before, full)
    ensures OutdatedCount(after, full, now) == OutdatedCount(before, full, now)
  {
    hide Waits;
    forall x
      ensures after[x] == before[x] || x in after - before
    {
    }
    assert Entries(after, Dead(after, full)) == Entries(before, Dead(before, full));
    assert Entries(after, Outdated(after, full, now)) == Entries(before, Outdated(before, full, now));
  }

  lemma PopLowersDead(heap: multiset<RecordId>, full: seq<Records>, now: int, x: RecordId)
    requires |full| == 3 && x in heap && !Live(full, x)
    ensures DeadCount(heap - multiset{x}, full) < DeadCount(heap, full)
    ensures OutdatedCount(heap - multiset{x}, full, now) == OutdatedCount(heap, full, now)
  {
    hide Waits, IsOutdated;
    var rest := heap - multiset{x};
    DropEntry(heap, x, Dead(heap, full), Dead(rest, full));
    assert !IsOutdated(full, x, now) by { DeadIsNotOutdated(full, x, now); }
    DropEntry(heap, x, Outdated(heap, full, now), Outdated(rest, full, now));
  }

  lemma DeadIsNotOutdated(full: seq<Records>, x: RecordId, now: int)
    requires |full| == 3 && !Live(full, x)
    ensures !IsOutdated(full, x, now)
  {
  }

  lemma DropEntry(heap: multiset<RecordId>, x: RecordId, s: set<RecordId>, s': set<RecordId>)
    requires x in heap && forall z :: z in s' ==> z in s
    requires forall z :: z in s && z in heap - multiset{x} ==> z in s'
    ensures if x in s then |Entries(heap - multiset{x}, s')| < |Entries(heap, s)|
            else |Entries(heap - multiset{x}, s')| == |Entries(heap, s)|
  {
    var before, after := Entries(heap, s), Entries(heap - multiset{x}, s');
    var taken := if x in s then before - multiset{x} else before;
    assert x in s ==> before[x] == heap[x] > 0;
    forall z
      ensures after[z] == taken[z]
    {
      assert z in heap - multiset{x} || (heap - multiset{x})[z] == 0;
    }
    assert after == taken;
  }

  /** A transmission of a waiting record leaves one less. */
  lemma SendingLeavesFewerWaiting(q: Queues, x: RecordId, now: int)
    requires Shape(q) && Live(q.full, x)
    ensures var after := Resent(q, x, now).full;
            if Waits(q.full[x.kind][x.part].id, now) then WaitingCount(after, now) < WaitingCount(q.full, now)
            else WaitingCount(after, now) == WaitingCount(q.full, now)
  {
    var before, after := Waiting(q.full[x.kind], now), Waiting(Resent(q, x, now).full[x.kind], now);
    assert after == before - {x.part};
    assert x.part in before <==> Waits(q.full[x.kind][x.part].id, now);
    assert x.part !in before ==> after == before;
  }

  /** A transmission through an outdated entry leaves one less of these. */
  lemma SendingLeavesFewerOutdated(q: Queues, x: RecordId, now: int)
    requires Shape(q) && Live(q.full, x) && x in q.heap && Waits(x, now)
    requires !Waits(q.full[x.kind][x.part].id, now)
    ensures OutdatedCount(q.heap, q.full, now) > 0
    ensures var r := Resent(q, x, now);
            OutdatedCount(r.heap, r.full, now) < OutdatedCount(q.heap, q.full, now)
  {
    var r := Resent(q, x, now);
    OutdatedStays(q, x, now);
    TakeOneEntry(q.heap, r.heap, x, SentAgain(x, now), Outdated(q.heap, q.full, now), Outdated(r.heap, r.full, now));
  }

  lemma OutdatedStays(q: Queues, x: RecordId, now: int)
    requires Shape(q) && Live(q.full, x) && x in q.heap && Waits(x, now)
    requires !Waits(q.full[x.kind][x.part].id, now)
    ensures var r := Resent(q, x, now);
            && (forall z :: IsOutdated(r.full, z, now) <==> IsOutdated(q.full, z, now))
            && IsOutdated(q.full, x, now) && !IsOutdated(q.full, SentAgain(x, now), now)
  {
  }

  lemma TakeOneEntry(heap: multiset<RecordId>, heap': multiset<RecordId>, x: RecordId, y: RecordId,
                     s: set<RecordId>, s': set<RecordId>)
    requires x in heap && heap' == heap - multiset{x} + multiset{y} && x in s && y !in s && y !in s'
    requires forall z :: z in s' ==> z in s
    requires forall z :: z in s && z in heap' ==> z in s'
    ensures |Entries(heap', s')| < |Entries(heap, s)|
  {
    var before := Entries(heap, s);
    assert before[x] == heap[x] > 0;
    forall z
      ensures Entries(heap', s')[z] == (before - multiset{x})[z]
    {
      assert z == y ==> z !in s && z !in s';
      assert z in heap' || heap'[z] == 0;
    }
    assert Entries(heap', s') == before - multiset{x};
  }

  lemma RebuiltHasNoOutdated(heap: multiset<RecordId>, full: seq<Records>, now: int)
    requires LiveAdded(multiset{}, heap, full)
    ensures OutdatedCount(heap, full, now) == 0
  {
    hide Waits;
    assert heap - multiset{} == heap;
    assert Entries(heap, Outdated(heap, full, now)) == multiset{};
  }

  /** The measure of the sending loop but for dead entries: waiting records, outdated entries. */
  ghost predicate Fewer(heap: multiset<RecordId>, full: seq<Records>, heap': multiset<RecordId>, full': seq<Records>,
                        now: int)
    requires |full| == 3 && |full'| == 3
  {
    || WaitingCount(full', now) < WaitingCount(full, now)
    || (WaitingCount(full', now) == WaitingCount(full, now)
        && OutdatedCount(heap', full', now) < OutdatedCount(heap, full, now))
  }

  lemma SendingLowers(q: Queues, x: RecordId, now: int)
    requires Shape(q) && Live(q.full, x) && x in q.heap && Waits(x, now)
    ensures var r := Resent(q, x, now);
            && Fewer(q.heap, q.full, r.heap, r.full, now)
            && forall h :: OutdatedCount(h, r.full, now) == 0 ==> Fewer(q.heap, q.full, h, r.full, now)
  {
    hide Waits, WaitingCount, OutdatedCount;
    SendingLeavesFewerWaiting(q, x, now);
    if !Waits(q.full[x.kind][x.part].id, now) {
      SendingLeavesFewerOutdated(q, x, now);
    }
  }

  // ---------- What the sending loop has done ----------

  lemma AdvancedStart(full: seq<Records>, now: int, cap: nat)
    requires |full| == 3
    ensures Advanced(full, full, [], now) && Progress(full, full, [], now)
    ensures WithinSpan(full, [], cap) && WithinWindow(full, [], cap)
  {
  }

  lemma GoodHasShape(q: Queues)
    requires Good(q)
    ensures Shape(q)
  {
  }

  lemma SoundHasShape(q: Queues)
    requires Sound(q)
    ensures Shape(q)
  {
  }

  /** If the most urgent entry is not due, none is. */
  lemma NoneDue(heap: multiset<RecordId>, top: RecordId, threshold: int)
    requires forall x :: x in heap ==> !MoreUrgent(x, top)
    requires !Due(top, threshold)
    ensures forall x :: x in heap ==> !Due(x, threshold)
  {
  }

  lemma AdvancedStep(before: seq<Records>, q: Queues, x: RecordId, sent: seq<Transmission>, now: int)
    requires Sound(q) && x in q.heap && Live(q.full, x)
    requires Advanced(before, q.full, sent, now) && WithinSpan(before, sent, q.cap)
    ensures Advanced(before, Resent(q, x, now).full, sent + [Transmission(x.kind, x.part)], now)
    ensures WithinSpan(before, sent + [Transmission(x.kind, x.part)], q.cap)
  {
    hide Sound;
    SoundHasShape(q);
    SpanIsInHeap(q, x);
    assert q.full[x.kind].Keys == before[x.kind].Keys;
    assert x.part in before[x.kind];
    assert SpanOf(before[x.kind], x.part) == SpanOf(q.full[x.kind], x.part);
  }

  lemma ProgressStep(before: seq<Records>, q: Queues, x: RecordId, sent: seq<Transmission>, now: int)
    requires Good(q) && x in q.heap && Live(q.full, x) && Waits(x, now)
    requires Progress(before, q.full, sent, now) && WithinWindow(before, sent, q.cap)
    ensures Progress(before, Resent(q, x, now).full, sent + [Transmission(x.kind, x.part)], now)
    ensures WithinWindow(before, sent + [Transmission(x.kind, x.part)], q.cap)
  {
    hide Good;
    GoodHasShape(q);
    GoodIsExact(q);
    var t, k := x.kind, x.part;
    LiveInHeapExactlyBelowIndex(q, t, k, x);
    assert k in before[t] by {
      assert q.full[t].Keys == before[t].Keys;
    }
    assert Transmission(t, k) !in sent;
    SpanStays(before, q, t, k);
  }

  lemma SpanStays(before: seq<Records>, q: Queues, t: Kind, k: nat)
    requires Exact(q) && |before| == 3 && before[t].Keys == q.full[t].Keys
    requires k in q.full[t] && q.full[t][k].id in q.heap
    ensures InWindow(before[t], k, q.cap)
  {
    LiveInHeapExactlyBelowIndex(q, t, k, q.full[t][k].id);
    HeapBoundsSpan(q, t, k);
    assert KeysUpTo(before[t], k) == KeysUpTo(q.full[t], k);
  }

  /** First transmissions happen in id order: whatever was sent, all outstanding packets of its
      type below it had been sent before or were sent by the same call. */
  lemma FirstTransmissionsInOrder(before: seq<Records>, q: Queues, sent: seq<Transmission>, now: int,
                                  t: Kind, j: nat, k: nat)
    requires Good(q) && Progress(before, q.full, sent, now)
    requires j in before[t] && k in before[t] && j < k && Transmission(t, k) in sent
    ensures before[t][j].id.tries > 0 || Transmission(t, j) in sent
  {
    assert q.full[t].Keys == before[t].Keys;
    assert KindGood(t, q.full[t], q.slots[t], q.indices[t], q.issued[t], q.acked[t]);
    assert InOrder(q.full[t][j].id, q.full[t][k].id);
  }

  // ---------- Losses ----------

  /** The smoothed round trip time after some losses: doubled by each, up to the timeout. */
  function Doubled(srtt: nat, timeout: nat, losses: nat): nat {
    if losses == 0 then srtt
    else
      var twice := 2 * Doubled(srtt, timeout, losses - 1);
      if twice > timeout then timeout else twice
  }

  function TwoTo(n: nat): (r: nat)
    ensures r > 0
  {
    if n == 0 then 1 else 2 * TwoTo(n - 1)
  }

  /** So it is multiplied by a power of two, and cut off at the timeout. */
  lemma {:induction false} DoubledIsPower(srtt: nat, timeout: nat, losses: nat)
    ensures losses > 0 ==>
              Doubled(srtt, timeout, losses) == if srtt * TwoTo(losses) > timeout then timeout else srtt * TwoTo(losses)
  {
    if losses > 1 {
      DoubledIsPower(srtt, timeout, losses - 1);
    }
    assert losses > 0 ==> srtt * TwoTo(losses) == 2 * (srtt * TwoTo(losses - 1));
  }

  /** The window at the last of some losses at one time, the first of them at the given window. */
  function WindowAtLoss(growth: Growth, first: nat, losses: nat): nat {
    if losses <= 1 then first else growth.Window(0, WindowAtLoss(growth, first, losses - 1))
  }

  /** How many of the records were sent before they are sent now. */
  function Repeated(before: seq<Records>, sent: seq<Transmission>): nat
    requires |before| == 3
  {
    if sent == [] then 0
    else
      var last := sent[|sent| - 1];
      Repeated(before, sent[..|sent| - 1])
      + if last.part in before[last.kind] && before[last.kind][last.part].id.tries > 0 then 1 else 0
  }

  lemma RepeatedStep(before: seq<Records>, q: Queues, x: RecordId, sent: seq<Transmission>, now: int)
    requires Exact(q) && x in q.heap && Live(q.full, x) && Waits(x, now)
    requires Advanced(before, q.full, sent, now)
    ensures Repeated(before, sent + [Transmission(x.kind, x.part)])
            == Repeated(before, sent) + if x.tries > 0 then 1 else 0
  {
    hide Exact;
    LiveInHeapExactlyBelowIndex(q, x.kind, x.part, x);
    assert q.full[x.kind].Keys == before[x.kind].Keys;
    assert x.part in before[x.kind] && Transmission(x.kind, x.part) !in sent;
    assert (sent + [Transmission(x.kind, x.part)])[..|sent|] == sent;
  }

  /** No record sent is older than the timeout. */
  ghost predicate NoneTimedOut(before: seq<Records>, sent: seq<Transmission>, now: int, timeout: nat)
    requires |before| == 3
  {
    forall i :: 0 <= i < |sent| ==> InTime(before[sent[i].kind], sent[i].part, now, timeout)
  }

  ghost predicate InTime(m: Records, k: nat, now: int, timeout: nat) {
    k in m && now - m[k].sent <= timeout
  }

  lemma NoneTimedOutStep(before: seq<Records>, full: seq<Records>, sent: seq<Transmission>, now: int, timeout: nat,
                         x: RecordId)
    requires Advanced(before, full, sent, now) && NoneTimedOut(before, sent, now, timeout)
    requires Live(full, x) && now - full[x.kind][x.part].sent <= timeout
    ensures NoneTimedOut(before, sent + [Transmission(x.kind, x.part)], now, timeout)
  {
    assert full[x.kind].Keys == before[x.kind].Keys;
    assert full[x.kind][x.part].sent == before[x.kind][x.part].sent;
  }

  /** The most urgent entry, due and of a record that is still kept. */
  ghost predicate DueNext(heap: multiset<RecordId>, full: seq<Records>, x: RecordId, threshold: int) {
    && x in heap && (forall y :: y in heap ==> !MoreUrgent(y, x))
    && |full| == 3 && Live(full, x) && Due(x, threshold)
  }

  ghost predicate AllLive(heap: multiset<RecordId>, full: seq<Records>)
    requires |full| == 3
  {
    forall x :: x in heap ==> Live(full, x)
  }

  /** What a poll starts from: the records, the round trip time, the old maximum and the present
      congestion window; whether heap and maps agree, and whether everything is in order. */
  datatype Start = Start(full: seq<Records>, srtt: nat, wMax: int, window: nat, exact: bool, good: bool)

  class Resender {
    var heap: multiset<RecordId>
    var full: seq<Records>
    var indices: seq<nat>
    var srtt: nat
    var srttDev: nat
    var statsRtt: nat
    var statsRttDev: nat
    var wMax: int
    var lastLoss: int
    var noCongestionSince: Option<int>
    const growth: Growth

    ghost var slots: seq<Slots>
    ghost var issued: seq<nat>
    ghost var upTo: seq<nat>
    ghost var acked: seq<int>
    ghost var clock: int

    ghost function View(): Queues
      reads this
    {
      Queues(heap, full, indices, slots, issued, upTo, acked, clock, growth.cap)
    }

    constructor (growth: Growth, now: int)
      ensures Good(View()) && Sound(View()) && heap == multiset{} && full == [map[], map[], map[]]
      ensures acked == [-1, -1, -1] && issued == upTo == [0, 0, 0] && Rto() > 0
      ensures this.growth == growth && srtt == 500_000_000 && srttDev == 0 && statsRtt == statsRttDev == 0
      ensures wMax == 50 && lastLoss == now && noCongestionSince == Some(now) && indices == [0, 0, 0]
    {
      this.growth := growth;
      heap := multiset{};
      full, indices := [map[], map[], map[]], [0, 0, 0];
      srtt, srttDev := 500_000_000, 0;
      statsRtt, statsRttDev := 0, 0;
      wMax, lastLoss, noCongestionSince := 50, now, Some(now);
      slots, issued, upTo := [map[], map[], map[]], [0, 0, 0], [0, 0, 0];
      acked, clock := [-1, -1, -1], now;
    }

    /** The congestion window. */
    function Window(now: int): (w: nat)
      reads this
      ensures 1 <= w <= growth.cap
    {
      var time := (if noCongestionSince.Some? then noCongestionSince.value else now) - lastLoss;
      growth.Window(time, wMax)
    }

    /** The retransmission timeout. */
    function Rto(): (r: nat)
      reads this
      ensures r <= 1_000_000_000 && r <= srtt + 4 * srttDev
      ensures r == 1_000_000_000 || r == srtt + 4 * srttDev
    {
      var rto := srtt + srttDev * 4;
      if rto > MAX_SEND_RTO then MAX_SEND_RTO else rto
    }

    /** Among the first records outside the heap, one per type, the one created last. */
    method PickHead() returns (best: Option<Kind>, part: nat)
      requires Shape(View())
      ensures best.None? ==> AllQueued(full, indices)
      ensures best.Some? ==> Head(full[best.value].Keys, indices[best.value]) == Some(part)
      ensures best.Some? ==> forall t: Kind :: NotLater(full[t], indices[t], full[best.value][part].sent)
    {
      best, part := None, 0;
      var i := 0;
      while i < 3
        invariant 0 <= i <= 3
        invariant best.None? ==> forall t: Kind, k :: t < i && k in full[t] ==> k < indices[t]
        invariant best.Some? ==> Head(full[best.value].Keys, indices[best.value]) == Some(part)
        invariant best.Some? ==> forall t: Kind :: t < i ==> NotLater(full[t], indices[t], full[best.value][part].sent)
      {
        var head := Head(full[i].Keys, indices[i]);
        if head.Some? {
          if best.None? || full[best.value][part].sent < full[i][head.value].sent {
            best, part := Some(i), head.value;
          }
        }
        i := i + 1;
      }
    }

    /** The first record at or above the index was not created after `time`. */
    static predicate NotLater(m: Records, index: nat, time: int) {
      var head := Head(m.Keys, index);
      head.Some? ==> m[head.value].sent <= time
    }

    /** Move a record into the heap. */
    method Push(t: Kind, k: nat)
      requires Lengths(View()) && k in full[t] && full[t][k].id.part == k
      modifies this`heap, this`indices, this`slots
      ensures View() == Pushed(old(View()), t, k)
    {
      var max := full[t][k].id;
      indices := indices[t := max.part + 1];
      heap := heap + multiset{max};
      slots := slots[t := WithSlot(slots[t], k, max)];
    }

    /** The first record outside the heap of one type, with none of another type created later. */
    static ghost predicate LatestHead(full: seq<Records>, indices: seq<nat>, t: Kind, k: nat)
      requires |full| == 3 && |indices| == 3
    {
      Head(full[t].Keys, indices[t]) == Some(k) && forall u: Kind :: NotLater(full[u], indices[u], full[t][k].sent)
    }

    /** Such a record was added. */
    static ghost predicate HeadAdded(full: seq<Records>, indices: seq<nat>, before: multiset<RecordId>,
                                     after: multiset<RecordId>)
      requires |full| == 3 && |indices| == 3
    {
      exists t: Kind, k :: LatestHead(full, indices, t, k) && before + multiset{full[t][k].id} <= after
    }

    static lemma PushAddsHead(first: Queues, q: Queues, t: Kind, k: nat)
      requires Lengths(first) && Lengths(q) && q.full == first.full
      requires Head(q.full[t].Keys, q.indices[t]) == Some(k)
      requires q == first ==> LatestHead(q.full, q.indices, t, k)
      requires q != first ==> HeadAdded(q.full, first.indices, first.heap, q.heap)
      ensures HeadAdded(q.full, first.indices, first.heap, Pushed(q, t, k).heap)
    {
      if q != first {
        var u: Kind, j :| LatestHead(q.full, first.indices, u, j) && first.heap + multiset{q.full[u][j].id} <= q.heap;
        assert first.heap + multiset{q.full[u][j].id} <= Pushed(q, t, k).heap;
      }
    }

    /** Fill the heap up to the congestion window. */
    method FillUp(now: int)
      requires Shape(View())
      modifies this`heap, this`indices, this`slots, this`lastLoss, this`noCongestionSince
      ensures Shape(View()) && Keeps(old(View()), View())
      ensures LiveAdded(old(heap), heap, full)
      ensures |heap| >= old(Window(now)) || AllQueued(full, indices)
      ensures |heap| <= old(|heap|) || |heap| <= old(Window(now))
      ensures Window(now) == old(Window(now)) && wMax == old(wMax)
      ensures old(|heap| < Window(now) && !AllQueued(full, indices)) ==>
                HeadAdded(full, old(indices), old(heap), heap)
      ensures if |heap| < old(Window(now)) then
                && lastLoss == old(lastLoss)
                && noCongestionSince == (if old(noCongestionSince).None? then Some(now) else old(noCongestionSince))
              else
                && noCongestionSince == None
                && lastLoss == (if old(noCongestionSince).None? then old(lastLoss)
                                else now - (old(noCongestionSince).value - old(lastLoss)))
    {
      hide Good, Exact, Sound, Filed, LiveAdded, AllQueued;
      var window := Window(now);
      NothingAdded(heap, full);
      while |heap| < window
        invariant Shape(View()) && Keeps(old(View()), View())
        invariant |heap| == old(|heap|) ==> View() == old(View())
        invariant |heap| != old(|heap|) ==> HeadAdded(full, old(indices), old(heap), heap)
        invariant LiveAdded(old(heap), heap, full)
        invariant lastLoss == old(lastLoss) && noCongestionSince == old(noCongestionSince)
        invariant |heap| == old(|heap|) || |heap| <= window
        decreases window - |heap|
      {
        var best, part := PickHead();
        if best.None? {
          if noCongestionSince.None? {
            noCongestionSince := Some(now);
          }
          return;
        }
        PushKeepsShape(View(), best.value, part);
        PushAddsHead(old(View()), View(), best.value, part);
        PushIsLive(old(heap), View(), best.value, part);
        PushKeeps(View(), best.value, part);
        Push(best.value, part);
      }
      if noCongestionSince.Some? {
        lastLoss := now - (noCongestionSince.value - lastLoss);
        noCongestionSince := None;
      }
    }

    static lemma PushKeepsShape(q: Queues, t: Kind, k: nat)
      requires Shape(q) && k in q.full[t]
      ensures Shape(Pushed(q, t, k)) && q.full[t][k].id.part == k && q.full[t][k].id.kind == t
    {
      assert Filed(t, q.full[t]);
    }

    /** The congestion epoch started with a loss at this time. */
    static predicate JustLost(lastLoss: int, noCongestionSince: Option<int>, now: int) {
      lastLoss == now && (noCongestionSince == None || noCongestionSince == Some(now))
    }

    /** Build the heap anew; whatever it was, it agrees with maps and indices afterwards. */
    method RebuildSendQueue(now: int)
      requires Shape(View())
      modifies this`heap, this`indices, this`slots, this`lastLoss, this`noCongestionSince
      ensures Shape(View()) && Keeps(old(View()), View()) && Exact(View())
      ensures LiveAdded(multiset{}, heap, full)
      ensures |heap| >= old(Window(now)) || AllQueued(full, indices)
      ensures |heap| <= old(Window(now))
      ensures Window(now) == old(Window(now))
      ensures old(JustLost(lastLoss, noCongestionSince, now)) ==> JustLost(lastLoss, noCongestionSince, now)
    {
      hide Good, Exact, Sound, Filed, LiveAdded, AllQueued, HeadAdded;
      ghost var before := View();
      heap := multiset{};
      indices := [0, 0, 0];
      slots := [map[], map[], map[]];
      assert View() == Cleared(before);
      ClearedIsExact(before);
      if Good(before) {
        ClearKeepsGood(before);
      }
      if Sound(before) {
        ClearKeepsSound(before);
      }
      ExactHasShape(View());
      FillUp(now);
    }

    static lemma ExactHasShape(q: Queues)
      requires Exact(q)
      ensures Shape(q)
    {
    }

    static lemma InsertKeepsShape(q: Queues, t: Kind, k: nat, now: int)
      requires Shape(q)
      ensures Shape(Inserted(q, t, k, now))
    {
      assert Filed(t, q.full[t]);
    }

    /** Keep a packet until it is acknowledged.  The queues stay sound for the label of a later
        packet, and good for a label that comes in order. */
    method SendPacket(t: Kind, number: nat, now: int)
      requires Shape(View())
      modifies this`heap, this`indices, this`slots, this`lastLoss, this`noCongestionSince, this`full,
               this`issued, this`upTo, this`clock
      ensures Shape(View()) && clock == now
      ensures Window(now) == old(Window(now)) && LiveAdded(old(heap), heap, full)
      ensures |heap| >= Window(now) || AllQueued(full, indices)
      ensures full == old(full)[t := WithRecord(old(full)[t], number, Record(now, RecordId(t, number, now, 0)))]
      ensures IsLabel(number) && old(upTo)[t] <= Named(number) && old(Sound(View())) ==>
                Sound(View()) && upTo == old(upTo)[t := Named(number) + 1]
      ensures old(Good(View()) && number !in full[t] && clock <= now && ComesInOrder(View(), t, number, now)) ==>
                && Good(View())
                && issued == if old(issued)[t] <= number then old(issued)[t := number + 1] else old(issued)
    {
      hide Good, Exact, Sound, Filed, ComesInOrder, LiveAdded, AllQueued, Label, HeadAdded, IsLabel, Named;
      ghost var before := View();
      InsertKeepsShape(before, t, number, now);
      InsertKeepsEach(before, t, number, now);
      Insert(t, number, now);
      FillUp(now);
    }

    /** File a new record; the index of its type goes back if necessary. */
    method Insert(t: Kind, number: nat, now: int)
      requires Lengths(View())
      modifies this`indices, this`full, this`issued, this`upTo, this`clock
      ensures View() == Inserted(old(View()), t, number, now)
    {
      hide Named;
      if indices[t] > number {
        indices := indices[t := number];
      }
      full := full[t := WithRecord(full[t], number, Record(now, RecordId(t, number, now, 0)))];
      issued := if issued[t] <= number then issued[t := number + 1] else issued;
      upTo := if upTo[t] <= Named(number) then upTo[t := Named(number) + 1] else upTo;
      clock := now;
    }

    static lemma InsertKeepsEach(q: Queues, t: Kind, k: nat, now: int)
      requires Shape(q)
      ensures IsLabel(k) && q.upTo[t] <= Named(k) && Sound(q) ==>
                Sound(Inserted(q, t, k, now)) && Inserted(q, t, k, now).upTo == q.upTo[t := Named(k) + 1]
      ensures Good(q) && k !in q.full[t] && q.clock <= now && ComesInOrder(q, t, k, now) ==>
                Good(Inserted(q, t, k, now))
    {
      hide Good, Sound, ComesInOrder;
      if Good(q) && k !in q.full[t] && q.clock <= now {
        InsertKeepsGoodExactly(q, t, k, now);
      }
      if Sound(q) && IsLabel(k) && q.upTo[t] <= Named(k) {
        InsertKeepsSound(q, t, Named(k), now);
      }
    }

    /** `after` is the average of `before`, with a weight of `part` out of `whole`, and of `value`, but
        for two units lost to rounding. */
    static predicate Averaged(before: nat, value: nat, part: nat, whole: nat, after: nat)
      requires part < whole
    {
      var exact := part * before + (whole - part) * value;
      whole * after <= exact < whole * after + 2 * whole
    }

    static function Apart(a: nat, b: nat): (r: nat)
      ensures r == a - b || r == b - a
    {
      if a > b then a - b else b - a
    }

    /** Add a measured round trip time to the smoothed one, which moves towards it, and to the one of
        the statistics, which goes half of the way. */
    method UpdateSrtt(rtt: nat)
      modifies this`srtt, this`srttDev, this`statsRtt, this`statsRttDev
      ensures if rtt >= old(srtt) then old(srtt) - 1 <= srtt <= rtt else rtt - 1 <= srtt <= old(srtt)
      ensures Averaged(old(srtt), rtt, 7, 8, srtt) && Averaged(old(srttDev), Apart(rtt, old(srtt)), 3, 4, srttDev)
      ensures Averaged(old(statsRtt), rtt, 1, 2, statsRtt)
      ensures Averaged(old(statsRttDev), Apart(rtt, old(statsRtt)), 3, 4, statsRttDev)
    {
      var diff := if rtt > srtt then rtt - srtt else srtt - rtt;
      srttDev := srttDev * 3 / 4 + diff / 4;
      srtt := srtt * 7 / 8 + rtt / 8;
      diff := if rtt > statsRtt then rtt - statsRtt else statsRtt - rtt;
      statsRttDev := statsRttDev * 3 / 4 + diff / 4;
      statsRtt := statsRtt / 2 + rtt / 2;
    }

    /** The packet to report when the first outstanding one, `first`, is acknowledged. */
    static function Reported(keys: set<nat>, t: Kind, first: nat, pId: u16, next: nat): nat {
      var second := Head(keys, first + 1);
      var following := if second.Some? then second.value else if t == INIT then (pId + 1) % 0x1_0000 else next;
      if following == 0 then SPACE - 1 else following - 1
    }

    /** Everything below the first record of those left, or everything sent; of init packets, the one
        that was acknowledged. */
    static function Covered(left: set<nat>, t: Kind, pId: u16, next: nat): nat {
      if left != {} && Least(left) > 0 then Least(left) - 1
      else if t == INIT && pId < 0xffff then pId
      else if t == INIT || next == 0 then SPACE - 1
      else next - 1
    }

    /** The ack is for a record that was sent exactly once. */
    static predicate Measurable(m: Records, pId: u16) {
      m.Keys != {} && AckedKey(m.Keys, pId) in m && m[AckedKey(m.Keys, pId)].id.tries == 1
    }

    /** The time since a moment, none if it lies in the future. */
    static function Elapsed(since: int, now: int): (r: nat)
      ensures r >= now - since && (r == now - since || (r == 0 && now < since))
    {
      if now < since then 0 else now - since
    }

    /** Handle the ack for an id.  `next` is the number of the next packet of this type that will
        be sent.  If everything up to some packet is now acknowledged, that packet is reported. */
    method AckPacket(t: Kind, pId: u16, next: nat, now: int) returns (reported: Option<nat>)
      requires Shape(View())
      modifies this`full, this`srtt, this`srttDev, this`statsRtt, this`statsRttDev, this`acked
      ensures Shape(View()) && Keeps(old(View()), View())
      ensures var keys := old(full)[t].Keys;
              && full == (if keys == {} then old(full)
                          else old(full)[t := old(full)[t] - {AckedKey(keys, pId)}])
              && reported == (if keys != {} && Least(keys) % 0x1_0000 == pId
                              then Some(Covered(full[t].Keys, t, pId, next)) else None)
      ensures old(Measurable(full[t], pId)) ==>
                var rtt := Elapsed(old(full[t][AckedKey(full[t].Keys, pId)].sent), now);
                && Averaged(old(srtt), rtt, 7, 8, srtt) && Averaged(old(srttDev), Apart(rtt, old(srtt)), 3, 4, srttDev)
                && Averaged(old(statsRtt), rtt, 1, 2, statsRtt)
                && Averaged(old(statsRttDev), Apart(rtt, old(statsRtt)), 3, 4, statsRttDev)
      ensures !old(Measurable(full[t], pId)) ==>
                && srtt == old(srtt) && srttDev == old(srttDev)
                && statsRtt == old(statsRtt) && statsRttDev == old(statsRttDev)
      ensures reported.Some? && t != INIT && old(Good(View())) && next == issued[t] ==>
                && acked == old(acked)[t := reported.value]
                && old(acked)[t] < reported.value
                && (forall k :: k in full[t] ==> reported.value < k)
                && (reported.value + 1 in full[t] || reported.value + 1 == next)
    {
      hide Good, Exact, Sound, Filed, Reported, Covered, AckedKey, Keeps, NewlyAcked, Averaged, Apart, Elapsed;
      reported := None;
      ghost var q := View();
      if full[t].Keys == {} {
        NothingChanges(q);
        return;
      }
      var first := Least(full[t].Keys);
      var key := AckedKey(full[t].Keys, pId);
      if first % 0x1_0000 == pId {
        reported := Some(Reported(full[t].Keys, t, first, pId, next));
        ReportedIsCovered(full[t].Keys, t, pId, next);
      }
      if key in full[t] && full[t][key].id.tries == 1 {
        UpdateSrtt(Elapsed(full[t][key].sent, now));
      }
      full := full[t := full[t] - {key}];
      acked := acked[t := NewlyAcked(q, t, pId, next)];
      assert full[t].Keys == q.full[t].Keys - {key};
      assert View() == Removed(q, t, key, NewlyAcked(q, t, pId, next));
      RemoveKeepsShape(q, t, key, NewlyAcked(q, t, pId, next));
      AckKeeps(q, t, pId, next);
    }

    static lemma NothingChanges(q: Queues)
      ensures Keeps(q, q)
    {
    }

    /** Up to where everything was reported, while labels come in order. */
    static ghost function NewlyAcked(q: Queues, t: Kind, pId: u16, next: nat): int
      requires Shape(q)
    {
      var keys := q.full[t].Keys;
      if keys != {} && Least(keys) % 0x1_0000 == pId && t != INIT && Good(q) && next == q.issued[t]
      then Covered(keys - {Least(keys)}, t, pId, next)
      else q.acked[t]
    }

    /** Removing the record named by an ack keeps the queues in order, and what is reported lies above
        the previous report and below everything still outstanding. */
    static lemma AckKeeps(q: Queues, t: Kind, pId: u16, next: nat)
      requires Shape(q) && q.full[t].Keys != {}
      ensures var keys := q.full[t].Keys;
              var r := NewlyAcked(q, t, pId, next);
              && Keeps(q, Removed(q, t, AckedKey(keys, pId), r))
              && (Least(keys) % 0x1_0000 == pId && t != INIT && Good(q) && next == q.issued[t] ==>
                    && r == Covered(keys - {AckedKey(keys, pId)}, t, pId, next) && q.acked[t] < r
                    && (forall k :: k in q.full[t] ==> k == AckedKey(keys, pId) || r < k)
                    && (r + 1 in keys - {AckedKey(keys, pId)} || r + 1 == next))
    {
      hide Good, Filed, Covered, Reported, AckedKey, Keeps;
      var keys := q.full[t].Keys;
      if Good(q) {
        OldReportStands(q, t);
        if Least(keys) % 0x1_0000 == pId && t != INIT && next == q.issued[t] {
          ReportCoversRemoved(q, t, pId, next);
          ReportedIsCovered(keys, t, pId, next);
        }
      }
      RemoveKeeps(q, t, AckedKey(keys, pId), NewlyAcked(q, t, pId, next));
    }

    static lemma RemoveKeepsShape(q: Queues, t: Kind, k: nat, acked: int)
      requires Shape(q)
      ensures Shape(Removed(q, t, k, acked))
    {
      assert Filed(t, q.full[t]);
    }

    static lemma OldReportStands(q: Queues, t: Kind)
      requires Good(q)
      ensures q.acked[t] < q.issued[t] && forall k :: k in q.full[t] ==> q.acked[t] < k < q.issued[t]
    {
      assert KindGood(t, q.full[t], q.slots[t], q.indices[t], q.issued[t], q.acked[t]);
    }

    /** When the first key is removed, the second one is the least. */
    static lemma ReportedIsCovered(keys: set<nat>, t: Kind, pId: u16, next: nat)
      requires keys != {} && Least(keys) % 0x1_0000 == pId
      ensures AckedKey(keys, pId) == Least(keys)
      ensures Reported(keys, t, Least(keys), pId, next) == Covered(keys - {Least(keys)}, t, pId, next)
      ensures 0 !in keys - {Least(keys)}
    {
      var second := Head(keys, Least(keys) + 1);
      var rest := keys - {Least(keys)};
      if second.Some? {
        assert second.value in rest;
      }
      if rest != {} {
        assert Least(rest) in keys;
      }
    }

    /** What is reported lies above the previous report and below everything still outstanding. */
    static lemma ReportCoversRemoved(q: Queues, t: Kind, pId: u16, next: nat)
      requires Good(q) && q.full[t].Keys != {} && next == q.issued[t] && t != INIT
      ensures var left := q.full[t].Keys - {Least(q.full[t].Keys)};
              var r := Covered(left, t, pId, next);
              && q.acked[t] < r < q.issued[t]
              && (forall k :: k in q.full[t] ==> k == Least(q.full[t].Keys) || r < k)
              && (r + 1 in left || r + 1 == next)
    {
      OldReportStands(q, t);
      var first := Least(q.full[t].Keys);
      assert first in q.full[t];
      var left := q.full[t].Keys - {first};
      assert forall k :: k in q.full[t] ==> k == first || k in left;
      if left != {} {
        assert Least(left) in q.full[t];
      }
    }

    /** Double the smoothed round trip time after a loss and start a new congestion epoch. */
    method RegisterLoss(timeout: nat, now: int)
      requires timeout > 0
      modifies this`srtt, this`wMax, this`lastLoss, this`noCongestionSince
      ensures srtt == (if 2 * old(srtt) > timeout then timeout else 2 * old(srtt))
      ensures wMax == old(Window(now)) && lastLoss == now && noCongestionSince == None
    {
      srtt := srtt * 2;
      if srtt > timeout {
        srtt := timeout;
      }
      wMax := Window(now);
      lastLoss := now;
      noCongestionSince := None;
    }

    /** The entry at the top of the heap. */
    method Peek() returns (top: RecordId)
      requires |heap| > 0
      ensures top in heap && forall x :: x in heap ==> !MoreUrgent(x, top)
    {
      SomeIsMostUrgent(heap);
      top :| top in heap && forall x :: x in heap ==> !MoreUrgent(x, top);
    }

    /** Drop an acknowledged entry and use the room. */
    method PopDead(top: RecordId, now: int)
      requires Shape(View()) && top in heap && !Live(full, top)
      modifies this`heap, this`indices, this`slots, this`lastLoss, this`noCongestionSince
      ensures Shape(View()) && Keeps(old(View()), View())
      ensures forall at :: OutdatedCount(heap, full, at) == old(OutdatedCount(heap, full, at))
      ensures DeadCount(heap, full) < old(DeadCount(heap, full))
      ensures Window(now) == old(Window(now)) && LiveAdded(old(heap) - multiset{top}, heap, full)
      ensures |heap| >= Window(now) || AllQueued(full, indices)
    {
      hide Good, Exact, Sound, Filed, LiveAdded, AllQueued, HeadAdded, DeadCount, OutdatedCount, Keeps;
      ghost var q := View();
      PopKeeps(q, top);
      PopKeepsShape(q, top);
      heap := heap - multiset{top};
      slots := slots[top.kind := slots[top.kind] - {top.part}];
      assert View() == Popped(q, top);
      ghost var rest := heap;
      FillUp(now);
      KeepsOnward(q, Popped(q, top), View());
      forall at
        ensures OutdatedCount(heap, full, at) == OutdatedCount(q.heap, full, at)
        ensures DeadCount(heap, full) < DeadCount(q.heap, full)
      {
        PopLowersDead(q.heap, full, at, top);
        FillKeepsCounts(rest, heap, full, at);
      }
      PopLowersDead(q.heap, full, now, top);
      FillKeepsCounts(rest, heap, full, now);
    }

    static lemma PopKeepsShape(q: Queues, x: RecordId)
      requires Shape(q)
      ensures Shape(Popped(q, x))
    {
    }

    /** Note the transmission in the heap and in the map. */
    method UpdateRecord(top: RecordId, now: int)
      requires Lengths(View()) && Live(full, top)
      modifies this`heap, this`full, this`slots, this`clock
      ensures View() == Resent(old(View()), top, now)
    {
      hide SentAgain;
      var sent := SentAgain(top, now);
      heap := heap - multiset{top} + multiset{sent};
      full := full[top.kind := WithRecord(full[top.kind], top.part, full[top.kind][top.part].(id := sent))];
      slots := slots[top.kind := WithSlot(slots[top.kind], top.part, sent)];
      clock := now;
    }

    static lemma ResendKeepsShape(q: Queues, x: RecordId, now: int)
      requires Shape(q) && Live(q.full, x)
      ensures Shape(Resent(q, x, now))
    {
      assert Filed(x.kind, q.full[x.kind]);
    }

    static lemma ResendKeeps(q: Queues, x: RecordId, now: int)
      requires Shape(q) && x in q.heap && Live(q.full, x)
      requires forall y :: y in q.heap ==> !MoreUrgent(y, x)
      ensures Sound(q) ==> Sound(Resent(q, x, now))
      ensures Exact(q) ==> Exact(Resent(q, x, now))
      ensures Good(q) && q.clock <= now ==> Good(Resent(q, x, now))
    {
      hide Good, Exact, Sound, MoreUrgent;
      if Sound(q) {
        ResendKeepsSound(q, x, now);
      }
      if Exact(q) {
        ResendKeepsExact(q, x, now);
      }
      if Good(q) && q.clock <= now {
        ResendKeepsGood(q, x, now);
      }
    }

    /** After a transmission; a retransmission is a loss and rebuilds the heap. */
    method Sent(top: RecordId, timeout: nat, now: int)
      requires Shape(View()) && top in heap && Live(full, top) && timeout > 0 && Waits(top, now)
      requires forall x :: x in heap ==> !MoreUrgent(x, top)
      modifies this`heap, this`full, this`indices, this`slots, this`clock, this`srtt, this`wMax, this`lastLoss,
               this`noCongestionSince
      ensures Shape(View()) && clock == now
      ensures old(Sound(View())) ==> Sound(View())
      ensures old(Exact(View())) ==> Exact(View())
      ensures old(Good(View()) && clock <= now) ==> Good(View())
      ensures full == Resent(old(View()), top, now).full
      ensures top.tries == 0 ==>
                && heap == old(heap) - multiset{top} + multiset{SentAgain(top, now)}
                && srtt == old(srtt) && wMax == old(wMax) && lastLoss == old(lastLoss)
                && noCongestionSince == old(noCongestionSince)
      ensures top.tries > 0 ==>
                && srtt == (if 2 * old(srtt) > timeout then timeout else 2 * old(srtt))
                && wMax == old(Window(now)) && JustLost(lastLoss, noCongestionSince, now)
                && Exact(View()) && LiveAdded(multiset{}, heap, full)
                && Window(now) == growth.Window(0, wMax)
                && (|heap| == Window(now) || (|heap| < Window(now) && AllQueued(full, indices)))
      ensures Fewer(old(heap), old(full), heap, full, now)
    {
      hide Good, Exact, Sound, Filed, MoreUrgent, Fewer, OutdatedCount, Waits, LiveAdded, AllQueued;
      ghost var q := View();
      ResendKeeps(q, top, now);
      ResendKeepsShape(q, top, now);
      SendingLowers(q, top, now);
      UpdateRecord(top, now);
      if top.tries != 0 {
        RegisterLoss(timeout, now);
        Rebuild(now);
      }
    }

    /** The heap is built anew, and no entry is outdated any more. */
    method Rebuild(now: int)
      requires Shape(View())
      modifies this`heap, this`indices, this`slots, this`lastLoss, this`noCongestionSince
      ensures Shape(View()) && OutdatedCount(heap, full, now) == 0
      ensures old(Sound(View())) ==> Sound(View())
      ensures Exact(View())
      ensures old(Good(View())) ==> Good(View())
      ensures Window(now) == old(Window(now)) && LiveAdded(multiset{}, heap, full)
      ensures |heap| == Window(now) || (|heap| < Window(now) && AllQueued(full, indices))
      ensures old(JustLost(lastLoss, noCongestionSince, now)) ==> JustLost(lastLoss, noCongestionSince, now)
    {
      hide Good, Exact, Sound, Filed, LiveAdded, AllQueued;
      RebuildSendQueue(now);
      RebuiltHasNoOutdated(heap, full, now);
    }

    // ---------- The sending loop ----------

    ghost function Beginning(now: int): Start
      requires |full| == 3
      reads this
    {
      Start(full, srtt, wMax, Window(now), Exact(View()), Good(View()) && clock <= now)
    }

    /** How the losses so far changed round trip time, window and epoch: each of them doubled the
        round trip time, up to the timeout, and made the present window the old maximum. */
    ghost predicate Reacted(start: Start, losses: nat, now: int, timeout: nat)
      requires |full| == 3
      reads this
    {
      && srtt == Doubled(start.srtt, timeout, losses)
      && (losses == 0 ==> wMax == start.wMax && Window(now) == start.window)
      && (losses > 0 ==>
            && wMax == WindowAtLoss(growth, start.window, losses) && Window(now) == growth.Window(0, wMax)
            && JustLost(lastLoss, noCongestionSince, now)
            && Exact(View()) && AllLive(heap, full))
    }

    /** What was sent so far: outstanding packets inside the window, none of them too old, and exactly
        these records are marked.  If heap and maps agreed, the losses are the records sent before. */
    ghost predicate Noted(start: Start, sent: seq<Transmission>, losses: nat, now: int, timeout: nat)
      reads this
    {
      && |start.full| == 3 && |full| == 3
      && Advanced(start.full, full, sent, now) && WithinSpan(start.full, sent, growth.cap)
      && NoneTimedOut(start.full, sent, now, timeout)
      && losses <= |sent|
      && (start.exact ==> Exact(View()) && losses == Repeated(start.full, sent))
      && (start.good ==>
            && Good(View()) && clock <= now
            && Progress(start.full, full, sent, now) && WithinWindow(start.full, sent, growth.cap))
    }

    lemma NothingNoted(now: int, timeout: nat)
      requires |full| == 3
      ensures Noted(Beginning(now), [], 0, now, timeout) && Reacted(Beginning(now), 0, now, timeout)
    {
      AdvancedStart(full, now, growth.cap);
    }

    /** Drop an acknowledged entry. */
    method Drop(top: RecordId, timeout: nat, now: int, ghost start: Start, ghost sent: seq<Transmission>,
                ghost losses: nat)
      requires Sound(View()) && |full| == 3 && top in heap && !Live(full, top)
      requires Reacted(start, losses, now, timeout) && Noted(start, sent, losses, now, timeout)
      modifies this`heap, this`indices, this`slots, this`lastLoss, this`noCongestionSince
      ensures Sound(View()) && |full| == 3
      ensures Reacted(start, losses, now, timeout) && Noted(start, sent, losses, now, timeout)
      ensures OutdatedCount(heap, full, now) == old(OutdatedCount(heap, full, now))
      ensures DeadCount(heap, full) < old(DeadCount(heap, full))
    {
      hide Good, Exact, Sound, Filed, Advanced, Progress, WithinSpan, WithinWindow, NoneTimedOut, DeadCount,
        OutdatedCount, Doubled, WindowAtLoss, Repeated, LiveAdded, AllQueued;
      SoundHasShape(View());
      PopDead(top, now);
    }

    /** Note a transmission of the most urgent entry. */
    method Transmitted(top: RecordId, timeout: nat, now: int, ghost start: Start, ghost sent: seq<Transmission>,
                       ghost losses: nat)
      requires Sound(View()) && |full| == 3
      requires timeout > 0 && Rto() > 0 && DueNext(heap, full, top, now - Rto())
      requires now - full[top.kind][top.part].sent <= timeout
      requires Reacted(start, losses, now, timeout) && Noted(start, sent, losses, now, timeout)
      modifies this`heap, this`full, this`indices, this`slots, this`clock, this`srtt, this`wMax, this`lastLoss,
               this`noCongestionSince
      ensures Sound(View()) && |full| == 3 && Rto() > 0
      ensures var l := losses + if top.tries > 0 then 1 else 0;
              && Reacted(start, l, now, timeout)
              && Noted(start, sent + [Transmission(top.kind, top.part)], l, now, timeout)
      ensures Fewer(old(heap), old(full), heap, full, now)
    {
      hide Good, Exact, Sound, Filed, Advanced, Progress, WithinSpan, WithinWindow, NoneTimedOut, MoreUrgent, Fewer,
        OutdatedCount, Repeated, AllQueued, LiveAdded, AllLive;
      SoundHasShape(View());
      AdvancedStep(start.full, View(), top, sent, now);
      NoneTimedOutStep(start.full, full, sent, now, timeout, top);
      if start.exact {
        RepeatedStep(start.full, View(), top, sent, now);
      }
      if start.good {
        ProgressStep(start.full, View(), top, sent, now);
      }
      Sent(top, timeout, now);
      if losses > 0 || top.tries > 0 {
        StaysLive(old(View()), View(), top, now);
      }
    }

    /** Send everything that is due, as long as the socket takes it.  The loop ends for every
        behaviour of the socket: each round sends a record not yet sent at this moment, or drops an
        entry that is outdated or acknowledged.  `losses` counts the datagrams sent again. */
    method PollResend(now: int, timeout: nat, socket: nat -> SocketResult)
      returns (result: PollResult, sent: seq<Transmission>, losses: nat)
      requires Sound(View()) && timeout > 0 && Rto() > 0
      modifies this`heap, this`full, this`indices, this`slots, this`clock, this`srtt, this`wMax, this`lastLoss,
               this`noCongestionSince
      ensures Sound(View()) && Rto() > 0 && |full| == 3
      ensures Noted(old(Beginning(now)), sent, losses, now, timeout)
      ensures Reacted(old(Beginning(now)), losses, now, timeout)
      ensures forall i :: 0 <= i < |sent| ==> socket(i) == Accepted
      ensures match result
              case Idle => forall x :: x in heap ==> !Due(x, now - Rto())
              case Blocked => socket(|sent|) == WouldBlock && SomeIsNext(now, timeout, false)
              case NetworkError => socket(|sent|) == Broken && SomeIsNext(now, timeout, false)
              case Timeout => SomeIsNext(now, timeout, true)
    {
      hide Good, Exact, Sound, Filed, Noted, Reacted, MoreUrgent, WaitingCount, DeadCount, OutdatedCount;
      SoundHasShape(View());
      ghost var start := Beginning(now);
      NothingNoted(now, timeout);
      sent, losses := [], 0;
      result := Idle;
      while |heap| > 0
        invariant Sound(View()) && Rto() > 0 && |full| == 3
        invariant Noted(start, sent, losses, now, timeout) && Reacted(start, losses, now, timeout)
        invariant forall i :: 0 <= i < |sent| ==> socket(i) == Accepted
        decreases WaitingCount(full, now), OutdatedCount(heap, full, now), DeadCount(heap, full)
      {
        var threshold := now - Rto();
        var top := Peek();
        if !Live(full, top) {
          Drop(top, timeout, now, start, sent, losses);
          continue;
        }
        if !Due(top, threshold) {
          NoneDue(heap, top, threshold);
          return;
        }
        assert DueNext(heap, full, top, threshold);
        if now - full[top.kind][top.part].sent > timeout {
          result := Timeout;
          return;
        }
        match socket(|sent|) {
          case WouldBlock =>
            result := Blocked;
            return;
          case Broken =>
            result := NetworkError;
            return;
          case Accepted =>
        }
        Transmitted(top, timeout, now, start, sent, losses);
        sent := sent + [Transmission(top.kind, top.part)];
        if top.tries > 0 {
          losses := losses + 1;
        }
      }
    }

    /** A most urgent entry is due and its record is older than the timeout, or is not. */
    ghost predicate SomeIsNext(now: int, timeout: nat, tooOld: bool)
      requires |full| == 3
      reads this
    {
      exists x :: DueNext(heap, full, x, now - Rto()) && (now - full[x.kind][x.part].sent > timeout <==> tooOld)
    }

    static lemma StaysLive(q: Queues, r: Queues, x: RecordId, now: int)
      requires Lengths(q) && x.part in q.full[x.kind] && r.full == Resent(q, x, now).full
      requires LiveAdded(multiset{}, r.heap, r.full)
               || (AllLive(q.heap, q.full) && r.heap == q.heap - multiset{x} + multiset{SentAgain(x, now)})
      ensures AllLive(r.heap, r.full)
    {
    }
  }
}
