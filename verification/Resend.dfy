/** The send path: unacknowledged packets in ordered maps, the part of them inside the
    congestion window in a priority queue, acknowledgement and retransmission.

    Ids of sent packets are kept as numbers (generation * 65536 + id); by
    `PacketNumbers.OrderIsNumberOrder` and `AddCounts` their order and arithmetic are those of
    `PartialPacketId`. */
module Resend {
  import opened Options
  import opened PacketNumbers
  import opened Words

  /** The index of a packet type: init, command, low priority command. */
  type Kind = k: nat | k < 3
  const INIT: Kind := 0

  const MAX_WINDOW: nat := 32767
  const MAX_SEND_RTO: nat := 1_000_000_000

  datatype RecordId = RecordId(kind: Kind, part: nat, last: int, tries: nat)
  datatype Record = Record(sent: int, id: RecordId)

  /** The order of the priority queue: packets never sent first, then the longest waiting, then
      the lowest id. */
  predicate MoreUrgent(a: RecordId, b: RecordId) {
    if a.tries == 0 && b.tries != 0 then true
    else if a.tries != 0 && b.tries == 0 then false
    else a.last < b.last || (a.last == b.last && a.part < b.part)
  }

  lemma UrgencyIsStrictWeakOrder(a: RecordId, b: RecordId, c: RecordId)
    ensures !MoreUrgent(a, a)
    ensures MoreUrgent(a, b) && MoreUrgent(b, c) ==> MoreUrgent(a, c)
    ensures !MoreUrgent(a, b) && !MoreUrgent(b, c) ==> !MoreUrgent(a, c)
    ensures !MoreUrgent(a, b) && !MoreUrgent(b, a) && a.kind == b.kind ==> a.part == b.part
  {
  }

  lemma {:induction false} SomeIsMostUrgent(heap: multiset<RecordId>)
    requires |heap| > 0
    ensures exists top :: top in heap && forall x :: x in heap ==> !MoreUrgent(x, top)
    decreases |heap|
  {
    hide MoreUrgent;
    var top :| top in heap;
    var rest := heap - multiset{top};
    if |rest| == 0 {
      assert forall x :: x in heap ==> x == top || x in rest;
      UrgencyIsStrictWeakOrder(top, top, top);
    } else {
      SomeIsMostUrgent(rest);
      var other :| other in rest && forall x :: x in rest ==> !MoreUrgent(x, other);
      var best := if MoreUrgent(other, top) then other else top;
      assert best in heap;
      forall x | x in heap
        ensures !MoreUrgent(x, best)
      {
        if x == top {
          UrgencyIsStrictWeakOrder(top, other, top);
        } else {
          assert x in rest;
          UrgencyIsStrictWeakOrder(x, other, top);
        }
      }
    }
  }

  lemma {:induction false} SomeIsLeast(s: set<nat>, from: nat)
    requires from in s
    ensures exists least :: least in s && forall k :: k in s ==> least <= k
    decreases from
  {
    if k :| k in s && k < from {
      SomeIsLeast(s, k);
    } else {
      assert forall k :: k in s ==> from <= k;
    }
  }

  lemma LeastExists(s: set<nat>)
    requires s != {}
    ensures exists least :: least in s && forall k :: k in s ==> least <= k
  {
    var k :| k in s;
    SomeIsLeast(s, k);
  }

  /** The first key of an ordered map. */
  function Least(s: set<nat>): (least: nat)
    requires s != {}
    ensures least in s && forall k :: k in s ==> least <= k
  {
    LeastExists(s);
    var least :| least in s && forall k :: k in s ==> least <= k;
    least
  }

  /** The first key of an ordered map that is not below `from`. */
  function Head(keys: set<nat>, from: nat): (r: Option<nat>)
    ensures r.None? ==> forall k :: k in keys ==> k < from
    ensures r.Some? ==> r.value in keys && r.value >= from && forall k :: k in keys ==> k < from || r.value <= k
  {
    var rest := set k | k in keys && k >= from;
    if rest == {} then
      assert forall k :: k in keys ==> k < from || k in rest;
      None
    else
      assert forall k :: k in keys ==> k < from || k in rest;
      Some(Least(rest))
  }

  // ---------- Acknowledgements ----------

  /** The key under which the record of an acknowledged 16 bit id is looked up: the first number
      with that id that is not below the first outstanding one. */
  function AckedKey(keys: set<nat>, pId: u16): nat
    requires keys != {}
  {
    var first := OfNumber(Least(keys));
    if first.id == pId then Least(keys)
    else if pId < first.id then PartialPacketId((first.generation + 1) % 0x1_0000_0000, pId).Number()
    else PartialPacketId(first.generation, pId).Number()
  }

  lemma AckedKeyIsNext(keys: set<nat>, pId: u16)
    requires keys != {} && Least(keys) + 0x1_0000 < SPACE
    ensures var key := AckedKey(keys, pId);
            key % 0x1_0000 == pId && Least(keys) <= key < Least(keys) + 0x1_0000
  {
    var least := Least(keys);
    NumberIsBijective(least, OfNumber(least));
    AroundSpace(least);
    AroundGenerations(OfNumber(least).generation + 1);
  }

  /** The record of an outstanding packet is found by the ack for it exactly when it is less
      than a turn above the first outstanding one. */
  lemma AckFindsExactly(keys: set<nat>, key: nat)
    requires key in keys && Least(keys) + 0x1_0000 < SPACE
    ensures AckedKey(keys, key % 0x1_0000) == key <==> key < Least(keys) + 0x1_0000
  {
    AckedKeyIsNext(keys, key % 0x1_0000);
    var found := AckedKey(keys, key % 0x1_0000);
    if key < Least(keys) + 0x1_0000 {
      assert found % 0x1_0000 == key % 0x1_0000 && found < key + 0x1_0000 && key < found + 0x1_0000;
    }
  }

  /** The number under which the record of packet `n` is kept: its label names the generation of
      the next packet. */
  function Label(n: nat): nat {
    if n % 0x1_0000 == 0xffff then n + 0x1_0000 else n
  }

  /** The packet that a label stands for. */
  function Named(key: nat): nat {
    if key % 0x1_0000 == 0xffff && key >= 0x1_0000 then key - 0x1_0000 else key
  }

  predicate IsLabel(key: nat) {
    Label(Named(key)) == key
  }

  lemma NamedIsInverse(n: nat)
    ensures Named(Label(n)) == n && IsLabel(Label(n))
  {
  }

  /** The label is what the program keeps of a packet: the generation of the next number and the
      id of its own. */
  lemma LabelIsKept(n: nat)
    requires n + 0x1_0000 < SPACE
    ensures PartialPacketId(OfNumber(n + 1).generation, OfNumber(n).id).Number() == Label(n)
  {
    AddCounts(n, 1);
    AroundGenerations(OfNumber(n).generation + 1);
    NumberIsBijective(n, OfNumber(n));
    AroundSpace(n);
  }

  /** Because of its label, the ack for packet 65 535 is lost on the sender while packet 65 534
      is outstanding. */
  lemma AckOfLastIdIsMissed()
    ensures var keys := {Label(65534), Label(65535)};
            AckedKey(keys, 65535) == 65535 && Label(65535) == 131071 && 65535 !in keys
  {
    var keys := {Label(65534), Label(65535)};
    assert Label(65534) in keys;
    AckedKeyIsNext(keys, 65535);
  }

  // ---------- Agreement of heap and maps ----------

  type Records = map<nat, Record>
  type Slots = map<nat, RecordId>

  /** The queues of the resender at one moment.  `slots` lists the heap entries by type and id,
      `issued` bounds the labels given out so far and `upTo` the packet numbers, `acked` is the
      last id reported as acknowledged, per type; `clock` is the latest time seen. */
  datatype Queues = Queues(heap: multiset<RecordId>, full: seq<Records>, indices: seq<nat>,
                           slots: seq<Slots>, issued: seq<nat>, upTo: seq<nat>, acked: seq<int>, clock: int,
                           cap: nat)

  /** Per type, records sent before precede those never sent, and the latter wait in id order. */
  ghost predicate Ordered(m: Records) {
    forall a, b :: a in m && b in m && a < b ==> InOrder(m[a].id, m[b].id)
  }

  predicate InOrder(a: RecordId, b: RecordId) {
    a.tries == 0 ==> b.tries == 0 && a.last <= b.last
  }

  /** Every record is filed under its own type and id. */
  ghost predicate Filed(t: Kind, m: Records) {
    forall k :: k in m ==> m[k].id.kind == t && m[k].id.part == k
  }

  /** A live record has a heap entry exactly if it is below the index, and the entry is a copy
      of its current id. */
  ghost predicate Agree(t: Kind, m: Records, slots: Slots, index: nat) {
    && (forall k :: k in m && k < index ==> k in slots)
    && (forall k :: k in slots ==> k < index && slots[k].kind == t && slots[k].part == k)
    && (forall k :: k in slots && k in m ==> slots[k] == m[k].id)
  }

  ghost predicate Numbered(m: Records, index: nat, issued: nat, acked: int) {
    && (forall k :: k in m ==> acked < k < issued)
    && index <= issued && acked < issued
  }

  ghost predicate Timed(m: Records, clock: int) {
    forall k :: k in m ==> m[k].id.last <= clock
  }

  ghost predicate HasSlot(slots: seq<Slots>, x: RecordId)
    requires |slots| == 3
  {
    x.part in slots[x.kind] && slots[x.kind][x.part] == x
  }

  /** The heap holds each slot once and nothing else. */
  ghost predicate HeapIs(heap: multiset<RecordId>, slots: seq<Slots>)
    requires |slots| == 3
  {
    forall x :: heap[x] == if HasSlot(slots, x) then 1 else 0
  }

  predicate Lengths(q: Queues) {
    && |q.full| == 3 && |q.indices| == 3 && |q.slots| == 3
    && |q.issued| == 3 && |q.upTo| == 3 && |q.acked| == 3
  }

  ghost predicate Shape(q: Queues) {
    && Lengths(q)
    && forall t: Kind :: Filed(t, q.full[t])
  }

  ghost predicate KindGood(t: Kind, m: Records, slots: Slots, index: nat, issued: nat, acked: int) {
    Filed(t, m) && Agree(t, m, slots, index) && Ordered(m) && Numbered(m, index, issued, acked)
  }

  ghost predicate Good(q: Queues) {
    && Shape(q) && |q.heap| <= q.cap
    && HeapIs(q.heap, q.slots)
    && (forall t: Kind :: KindGood(t, q.full[t], q.slots[t], q.indices[t], q.issued[t], q.acked[t]))
    && (forall t: Kind :: Timed(q.full[t], q.clock))
  }

  /** Only the agreement of the heap with the maps and indices. */
  ghost predicate Exact(q: Queues) {
    && Shape(q) && |q.heap| <= q.cap
    && HeapIs(q.heap, q.slots)
    && forall t: Kind :: Agree(t, q.full[t], q.slots[t], q.indices[t])
  }

  lemma GoodIsExact(q: Queues)
    requires Good(q)
    ensures Exact(q)
  {
    forall t: Kind
      ensures Agree(t, q.full[t], q.slots[t], q.indices[t])
    {
      assert KindGood(t, q.full[t], q.slots[t], q.indices[t], q.issued[t], q.acked[t]);
    }
  }

  /** The agreement in terms of the heap: a live record is in the heap exactly once, with its
      current id, if it is below the index of its type, and otherwise not at all. */
  lemma LiveInHeapExactlyBelowIndex(q: Queues, t: Kind, k: nat, x: RecordId)
    requires Exact(q) && k in q.full[t]
    ensures q.heap[q.full[t][k].id] == (if k < q.indices[t] then 1 else 0)
    ensures x in q.heap && x.kind == t && x.part == k ==> x == q.full[t][k].id
  {
    assert Agree(t, q.full[t], q.slots[t], q.indices[t]) && Filed(t, q.full[t]);
    assert q.heap[q.full[t][k].id] == if HasSlot(q.slots, q.full[t][k].id) then 1 else 0;
    assert q.heap[x] == if HasSlot(q.slots, x) then 1 else 0;
  }

  function KeysUpTo(m: Records, k: nat): set<nat> {
    set j | j in m && j <= k
  }

  /** A record in the heap has at most a window of outstanding records at or below it. */
  lemma HeapBoundsSpan(q: Queues, t: Kind, k: nat)
    requires Exact(q) && k in q.full[t] && k < q.indices[t]
    ensures |KeysUpTo(q.full[t], k)| <= |q.heap| <= q.cap
  {
    forall j | j in KeysUpTo(q.full[t], k)
      ensures InHeap(q.heap, t, j)
    {
      LiveInHeapExactlyBelowIndex(q, t, j, q.full[t][j].id);
      assert Filed(t, q.full[t]) && q.full[t][j].id in q.heap;
    }
    InjectIntoHeap(t, KeysUpTo(q.full[t], k), q.heap);
  }

  ghost predicate InHeap(heap: multiset<RecordId>, t: Kind, k: nat) {
    exists x :: x in heap && x.kind == t && x.part == k
  }

  lemma {:induction false} InjectIntoHeap(t: Kind, keys: set<nat>, heap: multiset<RecordId>)
    requires forall k :: k in keys ==> InHeap(heap, t, k)
    ensures |keys| <= |heap|
    decreases |keys|
  {
    if keys != {} {
      var k :| k in keys;
      var x :| x in heap && x.kind == t && x.part == k;
      forall j | j in keys - {k}
        ensures InHeap(heap - multiset{x}, t, j)
      {
        var y :| y in heap && y.kind == t && y.part == j;
        assert y in heap - multiset{x};
      }
      InjectIntoHeap(t, keys - {k}, heap - multiset{x});
    }
  }

  // ---------- What holds through every turn of the ids ----------

  /** Every live record below the index is in the heap at least once. */
  ghost predicate CoversBelow(t: Kind, m: Records, heap: multiset<RecordId>, index: nat) {
    forall k :: k in m && k < index ==> InHeap(heap, t, k)
  }

  /** The label `k` belongs to an earlier packet than the label `part`, and is filed before it. */
  predicate Before(k: nat, part: nat) {
    k <= part && Named(k) <= Named(part)
  }

  /** With an entry, every live record of an earlier packet filed before it is in the heap. */
  ghost predicate CoversEntries(t: Kind, m: Records, heap: multiset<RecordId>) {
    forall x, k :: x in heap && x.kind == t && k in m && Before(k, x.part) ==> InHeap(heap, t, k)
  }

  /** Only labels of packets that were sent are in use. */
  ghost predicate Labelled(t: Kind, m: Records, heap: multiset<RecordId>, upTo: nat) {
    && (forall k :: k in m ==> IsLabel(k) && Named(k) < upTo)
    && (forall x :: x in heap && x.kind == t ==> Named(x.part) < upTo)
  }

  ghost predicate KindSound(t: Kind, m: Records, heap: multiset<RecordId>, index: nat, upTo: nat) {
    CoversBelow(t, m, heap, index) && CoversEntries(t, m, heap) && Labelled(t, m, heap, upTo)
  }

  /** The invariant that survives labels out of order: entries may be repeated or outdated. */
  ghost predicate Sound(q: Queues) {
    && Shape(q) && |q.heap| <= q.cap
    && forall t: Kind :: KindSound(t, q.full[t], q.heap, q.indices[t], q.upTo[t])
  }

  /** The records of earlier packets filed up to the label `k`. */
  function SpanOf(m: Records, k: nat): set<nat> {
    set j | j in m && Before(j, k)
  }

  /** These are in the heap whenever the record itself is; so there is at most a window of them. */
  lemma SpanIsInHeap(q: Queues, x: RecordId)
    requires Sound(q) && x in q.heap
    ensures forall k :: k in SpanOf(q.full[x.kind], x.part) ==> InHeap(q.heap, x.kind, k)
    ensures |SpanOf(q.full[x.kind], x.part)| <= |q.heap| <= q.cap
  {
    hide InHeap, Before;
    assert KindSound(x.kind, q.full[x.kind], q.heap, q.indices[x.kind], q.upTo[x.kind]);
    InjectIntoHeap(x.kind, SpanOf(q.full[x.kind], x.part), q.heap);
  }

  lemma InHeapOfMore(heap: multiset<RecordId>, more: multiset<RecordId>, t: Kind, k: nat)
    requires heap <= more && InHeap(heap, t, k)
    ensures InHeap(more, t, k)
  {
  }

  // ---------- The steps on the queues ----------

  /** Moving the first record that is not yet queued into the heap. */
  function Pushed(q: Queues, t: Kind, k: nat): Queues
    requires Lengths(q) && k in q.full[t]
  {
    var x := q.full[t][k].id;
    q.(heap := q.heap + multiset{x}, indices := q.indices[t := k + 1],
       slots := q.slots[t := WithSlot(q.slots[t], k, x)])
  }

  function WithSlot(m: Slots, k: nat, x: RecordId): Slots {
    m[k := x]
  }

  function WithRecord(m: Records, k: nat, r: Record): Records {
    m[k := r]
  }

  lemma PushKeepsGood(q: Queues, t: Kind, k: nat)
    requires Good(q) && Head(q.full[t].Keys, q.indices[t]) == Some(k) && |q.heap| < q.cap
    ensures Good(Pushed(q, t, k))
  {
    var r := Pushed(q, t, k);
    var x := q.full[t][k].id;
    var m := q.full[t];
    assert KindGood(t, m, q.slots[t], q.indices[t], q.issued[t], q.acked[t]);
    assert Agree(t, m, r.slots[t], k + 1) by {
      assert forall j :: j in m && j < k + 1 ==> j < q.indices[t] || j == k;
    }
    assert KindGood(t, m, r.slots[t], k + 1, r.issued[t], r.acked[t]);
    AddSlot(q.heap, q.slots, x);
  }

  lemma PushKeepsExact(q: Queues, t: Kind, k: nat)
    requires Exact(q) && Head(q.full[t].Keys, q.indices[t]) == Some(k) && |q.heap| < q.cap
    ensures Exact(Pushed(q, t, k))
  {
    var r := Pushed(q, t, k);
    var m := q.full[t];
    assert Filed(t, m) && Agree(t, m, q.slots[t], q.indices[t]);
    assert Agree(t, m, r.slots[t], k + 1) by {
      assert forall j :: j in m && j < k + 1 ==> j < q.indices[t] || j == k;
    }
    AddSlot(q.heap, q.slots, m[k].id);
  }

  lemma PushKeepsSound(q: Queues, t: Kind, k: nat)
    requires Sound(q) && Head(q.full[t].Keys, q.indices[t]) == Some(k) && |q.heap| < q.cap
    ensures Sound(Pushed(q, t, k))
  {
    hide KindSound, InHeap;
    var r := Pushed(q, t, k);
    assert Filed(t, q.full[t]);
    forall u: Kind
      ensures KindSound(u, r.full[u], r.heap, r.indices[u], r.upTo[u])
    {
      assert KindSound(u, q.full[u], q.heap, q.indices[u], q.upTo[u]);
      if u == t {
        PushKeepsKindSound(t, q.full[t], q.heap, q.indices[t], q.upTo[t], k);
      } else {
        MoreKeepsKindSound(u, q.full[u], q.heap, q.indices[u], q.upTo[u], q.full[t][k].id);
      }
    }
  }

  lemma PushKeepsKindSound(t: Kind, m: Records, heap: multiset<RecordId>, index: nat, upTo: nat, k: nat)
    requires KindSound(t, m, heap, index, upTo) && Filed(t, m) && Head(m.Keys, index) == Some(k)
    ensures KindSound(t, m, heap + multiset{m[k].id}, k + 1, upTo)
  {
    hide IsLabel, Named;
    var more := heap + multiset{m[k].id};
    assert m[k].id in more;
    forall j | j in m && (j <= k || InHeap(heap, t, j))
      ensures InHeap(more, t, j)
    {
      assert j < index || j == k || InHeap(heap, t, j);
      if j != k {
        InHeapOfMore(heap, more, t, j);
      }
    }
  }

  lemma MoreKeepsKindSound(t: Kind, m: Records, heap: multiset<RecordId>, index: nat, upTo: nat, x: RecordId)
    requires KindSound(t, m, heap, index, upTo) && x.kind != t
    ensures KindSound(t, m, heap + multiset{x}, index, upTo)
  {
    hide IsLabel, Named;
    forall k | InHeap(heap, t, k)
      ensures InHeap(heap + multiset{x}, t, k)
    {
      InHeapOfMore(heap, heap + multiset{x}, t, k);
    }
  }

  lemma AddSlot(heap: multiset<RecordId>, slots: seq<Slots>, x: RecordId)
    requires |slots| == 3 && HeapIs(heap, slots) && x.part !in slots[x.kind]
    ensures HeapIs(heap + multiset{x}, slots[x.kind := WithSlot(slots[x.kind], x.part, x)])
  {
    var after := slots[x.kind := WithSlot(slots[x.kind], x.part, x)];
    forall y
      ensures (heap + multiset{x})[y] == if HasSlot(after, y) then 1 else 0
    {
      assert heap[y] == if HasSlot(slots, y) then 1 else 0;
    }
  }

  lemma DropSlot(heap: multiset<RecordId>, slots: seq<Slots>, x: RecordId)
    requires |slots| == 3 && HeapIs(heap, slots) && x in heap
    ensures HasSlot(slots, x)
    ensures HeapIs(heap - multiset{x}, slots[x.kind := slots[x.kind] - {x.part}])
  {
    var after := slots[x.kind := slots[x.kind] - {x.part}];
    assert heap[x] == if HasSlot(slots, x) then 1 else 0;
    forall y
      ensures (heap - multiset{x})[y] == if HasSlot(after, y) then 1 else 0
    {
      assert heap[y] == if HasSlot(slots, y) then 1 else 0;
    }
  }

  /** An acknowledged entry leaves the heap. */
  function Popped(q: Queues, x: RecordId): Queues
    requires Lengths(q)
  {
    q.(heap := q.heap - multiset{x}, slots := q.slots[x.kind := q.slots[x.kind] - {x.part}])
  }

  lemma PopKeepsGood(q: Queues, x: RecordId)
    requires Good(q) && x in q.heap && x.part !in q.full[x.kind]
    ensures Good(Popped(q, x))
  {
    var t := x.kind;
    var r := Popped(q, x);
    hide Ordered, Filed, Timed, HeapIs;
    DropSlot(q.heap, q.slots, x);
    assert KindGood(t, q.full[t], q.slots[t], q.indices[t], q.issued[t], q.acked[t]);
    assert KindGood(t, r.full[t], r.slots[t], r.indices[t], r.issued[t], r.acked[t]);
  }

  lemma PopKeepsExact(q: Queues, x: RecordId)
    requires Exact(q) && x in q.heap && x.part !in q.full[x.kind]
    ensures Exact(Popped(q, x))
  {
    hide HeapIs, Filed;
    DropSlot(q.heap, q.slots, x);
    assert Agree(x.kind, q.full[x.kind], q.slots[x.kind], q.indices[x.kind]);
  }

  lemma PopKeepsSound(q: Queues, x: RecordId)
    requires Sound(q) && x in q.heap && x.part !in q.full[x.kind]
    ensures Sound(Popped(q, x))
  {
    hide KindSound, Filed;
    var r := Popped(q, x);
    forall t: Kind
      ensures KindSound(t, r.full[t], r.heap, r.indices[t], r.upTo[t])
    {
      assert KindSound(t, q.full[t], q.heap, q.indices[t], q.upTo[t]);
      DropKeepsKindSound(t, q.full[t], q.heap, q.indices[t], q.upTo[t], x);
    }
  }

  lemma DropKeepsKindSound(t: Kind, m: Records, heap: multiset<RecordId>, index: nat, upTo: nat, x: RecordId)
    requires KindSound(t, m, heap, index, upTo) && (x.kind == t ==> x.part !in m)
    ensures KindSound(t, m, heap - multiset{x}, index, upTo)
  {
    hide IsLabel, Named;
    forall k | k in m && InHeap(heap, t, k)
      ensures InHeap(heap - multiset{x}, t, k)
    {
      var y :| y in heap && y.kind == t && y.part == k;
      assert y in heap - multiset{x};
    }
  }

  function SentAgain(x: RecordId, now: int): (r: RecordId)
    ensures r.kind == x.kind && r.part == x.part && r.last == now && r.tries - x.tries == 1
  {
    x.(last := now, tries := x.tries + 1)
  }

  /** The record `x` is sent at time `now`. */
  function Resent(q: Queues, x: RecordId, now: int): Queues
    requires Lengths(q) && x.part in q.full[x.kind]
  {
    var y := SentAgain(x, now);
    q.(heap := q.heap - multiset{x} + multiset{y},
       full := q.full[x.kind := WithRecord(q.full[x.kind], x.part, q.full[x.kind][x.part].(id := y))],
       slots := q.slots[x.kind := WithSlot(q.slots[x.kind], x.part, y)],
       clock := now)
  }

  /** The most urgent entry has no unsent record below it. */
  lemma MostUrgentIsNext(q: Queues, x: RecordId, k: nat)
    requires Good(q) && x in q.heap && x.part in q.full[x.kind]
    requires forall y :: y in q.heap ==> !MoreUrgent(y, x)
    requires k in q.full[x.kind] && k < x.part
    ensures q.full[x.kind][k].id.tries > 0
  {
    var t := x.kind;
    assert KindGood(t, q.full[t], q.slots[t], q.indices[t], q.issued[t], q.acked[t]);
    assert q.heap[x] == if HasSlot(q.slots, x) then 1 else 0;
    GoodIsExact(q);
    LiveInHeapExactlyBelowIndex(q, t, k, x);
    assert InOrder(q.full[t][k].id, q.full[t][x.part].id);
  }

  /** Sending the most urgent live record keeps the queues good. */
  lemma ResendKeepsGood(q: Queues, x: RecordId, now: int)
    requires Good(q) && x in q.heap && x.part in q.full[x.kind] && q.clock <= now
    requires forall y :: y in q.heap ==> !MoreUrgent(y, x)
    ensures Good(Resent(q, x, now))
  {
    var t := x.kind;
    var r := Resent(q, x, now);
    var m, m' := q.full[t], r.full[t];
    var y := SentAgain(x, now);
    assert KindGood(t, m, q.slots[t], q.indices[t], q.issued[t], q.acked[t]);
    DropSlot(q.heap, q.slots, x);
    AddSlot(q.heap - multiset{x}, q.slots[t := q.slots[t] - {x.part}], y);
    assert WithSlot(q.slots[t] - {x.part}, x.part, y) == r.slots[t];
    assert q.slots[t := q.slots[t] - {x.part}][t := r.slots[t]] == r.slots;
    assert Ordered(m') by {
      forall a, b | a in m' && b in m' && a < b
        ensures InOrder(m'[a].id, m'[b].id)
      {
        assert InOrder(m[a].id, m[b].id);
        if b == x.part {
          MostUrgentIsNext(q, x, a);
        }
      }
    }
    assert KindGood(t, m', r.slots[t], r.indices[t], r.issued[t], r.acked[t]);
    forall u: Kind
      ensures Timed(r.full[u], now)
    {
      assert Timed(q.full[u], q.clock);
    }
    assert |r.heap| == |q.heap|;
  }

  lemma ResendKeepsExact(q: Queues, x: RecordId, now: int)
    requires Exact(q) && x in q.heap && x.part in q.full[x.kind]
    ensures Exact(Resent(q, x, now))
  {
    hide HeapIs;
    var t := x.kind;
    var r := Resent(q, x, now);
    var y := SentAgain(x, now);
    assert Agree(t, q.full[t], q.slots[t], q.indices[t]) && Filed(t, q.full[t]);
    DropSlot(q.heap, q.slots, x);
    AddSlot(q.heap - multiset{x}, q.slots[t := q.slots[t] - {x.part}], y);
    assert WithSlot(q.slots[t] - {x.part}, x.part, y) == r.slots[t];
    assert q.slots[t := q.slots[t] - {x.part}][t := r.slots[t]] == r.slots;
    assert |r.heap| == |q.heap|;
  }

  lemma ResendKeepsSound(q: Queues, x: RecordId, now: int)
    requires Sound(q) && x in q.heap && x.part in q.full[x.kind]
    ensures Sound(Resent(q, x, now))
  {
    hide KindSound;
    var r := Resent(q, x, now);
    var y := SentAgain(x, now);
    assert Filed(x.kind, q.full[x.kind]);
    forall t: Kind
      ensures KindSound(t, r.full[t], r.heap, r.indices[t], r.upTo[t])
    {
      assert KindSound(t, q.full[t], q.heap, q.indices[t], q.upTo[t]);
      SwapKeepsKindSound(t, q.full[t], r.full[t], q.heap, q.indices[t], q.upTo[t], x, y);
    }
    assert |r.heap| == |q.heap|;
  }

  lemma SwapKeepsKindSound(t: Kind, m: Records, m': Records, heap: multiset<RecordId>, index: nat, upTo: nat,
                           x: RecordId, y: RecordId)
    requires KindSound(t, m, heap, index, upTo) && m'.Keys == m.Keys && x in heap
    requires y.kind == x.kind && y.part == x.part
    ensures KindSound(t, m', heap - multiset{x} + multiset{y}, index, upTo)
  {
    hide IsLabel, Named;
    var swapped := heap - multiset{x} + multiset{y};
    assert forall k :: k in m' <==> k in m.Keys;
    forall k | InHeap(heap, t, k)
      ensures InHeap(swapped, t, k)
    {
      var z :| z in heap && z.kind == t && z.part == k;
      assert (if z == x then y else z) in swapped;
    }
    forall z | z in swapped
      ensures exists w :: w in heap && w.kind == z.kind && w.part == z.part
    {
      assert (if z == y then x else z) in heap;
    }
  }

  /** A new record with an unused id. */
  function Inserted(q: Queues, t: Kind, k: nat, now: int): Queues
    requires Lengths(q)
  {
    q.(full := q.full[t := WithRecord(q.full[t], k, Record(now, RecordId(t, k, now, 0)))],
       indices := if q.indices[t] > k then q.indices[t := k] else q.indices,
       issued := if q.issued[t] <= k then q.issued[t := k + 1] else q.issued,
       upTo := if q.upTo[t] <= Named(k) then q.upTo[t := Named(k) + 1] else q.upTo,
       clock := now)
  }

  ghost predicate AllFiledBelow(heap: multiset<RecordId>, t: Kind, k: nat) {
    forall x :: x in heap && x.kind == t ==> x.part < k
  }

  /** Inserting a record keeps the heap in agreement if and only if no entry of its type is filed at
      or above it. */
  lemma InsertKeepsExactExactly(q: Queues, t: Kind, k: nat, now: int)
    requires Exact(q) && k !in q.full[t]
    ensures Exact(Inserted(q, t, k, now)) <==> AllFiledBelow(q.heap, t, k)
  {
    hide HeapIs, Agree;
    if AllFiledBelow(q.heap, t, k) {
      InsertKeepsExact(q, t, k, now);
    }
    if Exact(Inserted(q, t, k, now)) {
      forall x | x in q.heap && x.kind == t
        ensures x.part < k
      {
        EntryIsBelowIndex(Inserted(q, t, k, now), x);
      }
    }
  }

  lemma EntryIsBelowIndex(q: Queues, x: RecordId)
    requires Exact(q) && x in q.heap
    ensures x.part < q.indices[x.kind]
  {
    assert Agree(x.kind, q.full[x.kind], q.slots[x.kind], q.indices[x.kind]);
    assert q.heap[x] == if HasSlot(q.slots, x) then 1 else 0;
  }

  lemma InsertKeepsExact(q: Queues, t: Kind, k: nat, now: int)
    requires Exact(q) && k !in q.full[t] && AllFiledBelow(q.heap, t, k)
    ensures Exact(Inserted(q, t, k, now))
  {
    hide HeapIs;
    var r := Inserted(q, t, k, now);
    assert Agree(t, q.full[t], q.slots[t], q.indices[t]) && Filed(t, q.full[t]);
    forall j | j in q.slots[t]
      ensures j < k
    {
      SlotIsInHeap(q, t, j);
    }
    assert Agree(t, r.full[t], r.slots[t], r.indices[t]);
  }

  lemma SlotIsInHeap(q: Queues, t: Kind, j: nat)
    requires Exact(q) && j in q.slots[t]
    ensures q.slots[t][j] in q.heap && q.slots[t][j].part == j && q.slots[t][j].kind == t
  {
    assert Agree(t, q.full[t], q.slots[t], q.indices[t]);
    assert q.heap[q.slots[t][j]] == if HasSlot(q.slots, q.slots[t][j]) then 1 else 0;
  }

  lemma InsertKeepsOrderedExactly(m: Records, t: Kind, k: nat, now: int, clock: int)
    requires Ordered(m) && Timed(m, clock) && clock <= now && k !in m
    ensures Ordered(WithRecord(m, k, Record(now, RecordId(t, k, now, 0))))
            <==> forall j :: j in m && j > k ==> m[j].id.tries == 0 && m[j].id.last >= now
  {
    var m' := WithRecord(m, k, Record(now, RecordId(t, k, now, 0)));
    if Ordered(m') {
      forall j | j in m && j > k
        ensures m[j].id.tries == 0 && m[j].id.last >= now
      {
        assert InOrder(m'[k].id, m'[j].id);
      }
    }
  }

  lemma InsertKeepsNumberedExactly(m: Records, r: Record, k: nat, index: nat, issued: nat, acked: int)
    requires Numbered(m, index, issued, acked)
    ensures Numbered(WithRecord(m, k, r), if index > k then k else index, if issued <= k then k + 1 else issued, acked)
            <==> acked < k
  {
    assert k in WithRecord(m, k, r);
  }

  lemma InsertIsGoodExactly(q: Queues, t: Kind, k: nat, now: int)
    requires Good(q) && q.clock <= now
    ensures var r := Inserted(q, t, k, now);
            Good(r) <==> Exact(r) && Ordered(r.full[t]) && Numbered(r.full[t], r.indices[t], r.issued[t], r.acked[t])
  {
    var r := Inserted(q, t, k, now);
    if Good(r) {
      GoodIsExact(r);
      assert KindGood(t, r.full[t], r.slots[t], r.indices[t], r.issued[t], r.acked[t]);
    }
    if Exact(r) && Ordered(r.full[t]) && Numbered(r.full[t], r.indices[t], r.issued[t], r.acked[t]) {
      forall u: Kind
        ensures Timed(r.full[u], now) && KindGood(u, r.full[u], r.slots[u], r.indices[u], r.issued[u], r.acked[u])
      {
        assert Timed(q.full[u], q.clock);
        assert Agree(u, r.full[u], r.slots[u], r.indices[u]) && Filed(u, r.full[u]);
        assert KindGood(u, q.full[u], q.slots[u], q.indices[u], q.issued[u], q.acked[u]);
      }
    }
  }

  /** The label was not reported yet, no entry of its type is filed at or above it, and no record
      above it was sent or is older. */
  ghost predicate ComesInOrder(q: Queues, t: Kind, k: nat, now: int)
    requires Lengths(q)
  {
    && q.acked[t] < k
    && AllFiledBelow(q.heap, t, k)
    && forall j :: j in q.full[t] && j > k ==> q.full[t][j].id.tries == 0 && q.full[t][j].id.last >= now
  }

  /** Inserting a record keeps everything in order if and only if it comes in order. */
  lemma InsertKeepsGoodExactly(q: Queues, t: Kind, k: nat, now: int)
    requires Good(q) && k !in q.full[t] && q.clock <= now
    ensures Good(Inserted(q, t, k, now)) <==> ComesInOrder(q, t, k, now)
  {
    hide Exact, Timed, Numbered, HeapIs, Agree, Ordered, Filed, AllFiledBelow;
    GoodIsExact(q);
    InsertKeepsExactExactly(q, t, k, now);
    InsertIsGoodExactly(q, t, k, now);
    assert KindGood(t, q.full[t], q.slots[t], q.indices[t], q.issued[t], q.acked[t]);
    assert Timed(q.full[t], q.clock);
    InsertKeepsOrderedExactly(q.full[t], t, k, now, q.clock);
    InsertKeepsNumberedExactly(q.full[t], Record(now, RecordId(t, k, now, 0)), k, q.indices[t], q.issued[t],
      q.acked[t]);
  }

  /** Labels above all others come in order. */
  lemma NextLabelComesInOrder(q: Queues, t: Kind, k: nat, now: int)
    requires Good(q) && q.issued[t] <= k
    ensures k !in q.full[t] && ComesInOrder(q, t, k, now)
  {
    GoodIsExact(q);
    assert KindGood(t, q.full[t], q.slots[t], q.indices[t], q.issued[t], q.acked[t]);
    forall x | x in q.heap && x.kind == t
      ensures x.part < k
    {
      EntryIsBelowIndex(q, x);
    }
  }

  lemma InsertKeepsSound(q: Queues, t: Kind, n: nat, now: int)
    requires Sound(q) && q.upTo[t] <= n
    ensures Sound(Inserted(q, t, Label(n), now)) && Inserted(q, t, Label(n), now).upTo == q.upTo[t := n + 1]
  {
    hide KindSound, Filed, Label, Named;
    NamedIsInverse(n);
    var r := Inserted(q, t, Label(n), now);
    forall u: Kind
      ensures Filed(u, r.full[u]) && KindSound(u, r.full[u], r.heap, r.indices[u], r.upTo[u])
    {
      assert Filed(u, q.full[u]) && KindSound(u, q.full[u], q.heap, q.indices[u], q.upTo[u]);
      if u == t {
        NewIsFiled(t, q.full[t], Label(n), now);
        InsertKeepsKindSound(t, q.full[t], q.heap, q.indices[t], q.upTo[t], n, now);
      }
    }
  }

  lemma NewIsFiled(t: Kind, m: Records, k: nat, now: int)
    requires Filed(t, m)
    ensures Filed(t, WithRecord(m, k, Record(now, RecordId(t, k, now, 0))))
  {
  }

  lemma InsertKeepsKindSound(t: Kind, m: Records, heap: multiset<RecordId>, index: nat, upTo: nat, n: nat, now: int)
    requires KindSound(t, m, heap, index, upTo) && upTo <= n
    ensures KindSound(t, WithRecord(m, Label(n), Record(now, RecordId(t, Label(n), now, 0))), heap,
                      if index > Label(n) then Label(n) else index, n + 1)
  {
    hide Label, Named;
    NamedIsInverse(n);
  }

  /** An acknowledged record leaves its map; all ids up to `acked` are reported. */
  function Removed(q: Queues, t: Kind, k: nat, acked: int): Queues
    requires Lengths(q)
  {
    q.(full := q.full[t := q.full[t] - {k}], acked := q.acked[t := acked])
  }

  lemma RemoveKeepsGood(q: Queues, t: Kind, k: nat, acked: int)
    requires Good(q) && q.acked[t] <= acked < q.issued[t]
    requires forall j :: j in q.full[t] ==> j == k || acked < j
    ensures Good(Removed(q, t, k, acked))
  {
    var r := Removed(q, t, k, acked);
    assert KindGood(t, q.full[t], q.slots[t], q.indices[t], q.issued[t], q.acked[t]);
    assert Timed(q.full[t], q.clock);
    assert KindGood(t, r.full[t], r.slots[t], r.indices[t], r.issued[t], r.acked[t]);
  }

  lemma RemoveKeepsExact(q: Queues, t: Kind, k: nat, acked: int)
    requires Exact(q)
    ensures Exact(Removed(q, t, k, acked))
  {
    assert Agree(t, q.full[t], q.slots[t], q.indices[t]) && Filed(t, q.full[t]);
  }

  lemma RemoveKeepsSound(q: Queues, t: Kind, k: nat, acked: int)
    requires Sound(q)
    ensures Sound(Removed(q, t, k, acked))
  {
    hide InHeap, Before, IsLabel, Named;
    assert Filed(t, q.full[t]) && KindSound(t, q.full[t], q.heap, q.indices[t], q.upTo[t]);
  }

  /** Forgetting the heap. */
  function Cleared(q: Queues): Queues {
    q.(heap := multiset{}, indices := [0, 0, 0], slots := [map[], map[], map[]])
  }

  lemma ClearKeepsGood(q: Queues)
    requires Good(q)
    ensures Good(Cleared(q))
  {
    hide KindGood, HeapIs, Filed, Timed;
    NothingInHeap();
    var r := Cleared(q);
    forall t: Kind
      ensures KindGood(t, r.full[t], r.slots[t], r.indices[t], r.issued[t], r.acked[t])
    {
      assert r.slots[t] == map[] && r.indices[t] == 0;
      ClearKeepsKindGood(t, q.full[t], q.slots[t], q.indices[t], q.issued[t], q.acked[t]);
    }
  }

  lemma NothingInHeap()
    ensures HeapIs(multiset{}, [map[], map[], map[]])
  {
  }

  lemma ClearKeepsKindGood(t: Kind, m: Records, slots: Slots, index: nat, issued: nat, acked: int)
    requires KindGood(t, m, slots, index, issued, acked)
    ensures KindGood(t, m, map[], 0, issued, acked)
  {
  }

  /** An empty heap agrees with any records. */
  lemma ClearedIsExact(q: Queues)
    requires Shape(q)
    ensures Exact(Cleared(q))
  {
    NothingInHeap();
    forall t: Kind
      ensures Filed(t, Cleared(q).full[t])
      ensures Agree(t, Cleared(q).full[t], Cleared(q).slots[t], Cleared(q).indices[t])
    {
      assert Filed(t, q.full[t]) && Cleared(q).slots[t] == map[] && Cleared(q).indices[t] == 0;
    }
  }

  lemma ClearKeepsSound(q: Queues)
    requires Sound(q)
    ensures Sound(Cleared(q))
  {
    hide IsLabel, Named;
    forall t: Kind
      ensures Filed(t, q.full[t]) && KindSound(t, q.full[t], multiset{}, Cleared(q).indices[t], q.upTo[t])
    {
      assert KindSound(t, q.full[t], q.heap, q.indices[t], q.upTo[t]) && Cleared(q).indices[t] == 0;
    }
  }

  // ---------- At the turn of the ids ----------

  /** Packet 65 535 is filed at 131071.  When packet 65 536 is sent while it is outstanding, the
      index goes back, and filling up moves it into the heap a second time. */
  lemma LastIdIsPushedTwice(q: Queues, t: Kind, now: int)
    requires Good(q) && q.full[t].Keys == {Label(65535)} && q.indices[t] == Label(65535) + 1
    ensures var r := Inserted(q, t, Label(65536), now);
            && Head(r.full[t].Keys, r.indices[t]) == Some(65536)
            && var s := Pushed(r, t, 65536);
            && Head(s.full[t].Keys, s.indices[t]) == Some(131071)
            && Pushed(s, t, 131071).heap[q.full[t][131071].id] == 2
  {
    var r := Inserted(q, t, 65536, now);
    var s := Pushed(r, t, 65536);
    GoodIsExact(q);
    LiveInHeapExactlyBelowIndex(q, t, 131071, q.full[t][131071].id);
    assert 131071 in q.full[t].Keys && Filed(t, q.full[t]);
    assert r.full[t].Keys == {65536, 131071};
    assert Head(r.full[t].Keys, 65536) == Some(65536);
    assert Head(r.full[t].Keys, 65537) == Some(131071);
  }

  /** Of two packets sent for the first time and kept at the same moment, the later one is more
      urgent exactly if the earlier one has the last id of a generation and is less than a turn
      away. */
  lemma OvertakesExactly(t: Kind, n: nat, m: nat, now: int)
    requires n < m
    ensures MoreUrgent(RecordId(t, Label(m), now, 0), RecordId(t, Label(n), now, 0))
            <==> n % 0x1_0000 == 0xffff && m < n + 0x1_0000
  {
  }

  // ---------- What the heap holds after it was rebuilt ----------

  /** All records below the index of a type. */
  function KeysBelow(m: Records, index: nat): set<nat> {
    set k | k in m && k < index
  }

  /** If heap and maps agree, all entries are live and only one type has records, the heap holds
      exactly the first records of that type. */
  lemma HeapHoldsFirstExactly(q: Queues, t: Kind, k: nat)
    requires Exact(q) && k in q.full[t]
    requires forall x :: x in q.heap ==> x.kind == t && x.part in q.full[t]
    ensures InHeap(q.heap, t, k) <==> |KeysUpTo(q.full[t], k)| <= |q.heap|
  {
    var m := q.full[t];
    HeapIsKeysBelow(q, t);
    LiveInHeapExactlyBelowIndex(q, t, k, m[k].id);
    if k < q.indices[t] {
      assert m[k].id in q.heap && Filed(t, m);
      HeapBoundsSpan(q, t, k);
    } else {
      assert KeysBelow(m, q.indices[t]) + {k} <= KeysUpTo(m, k);
      SubsetIsSmaller(KeysBelow(m, q.indices[t]) + {k}, KeysUpTo(m, k));
      if x :| x in q.heap && x.kind == t && x.part == k {
        LiveInHeapExactlyBelowIndex(q, t, k, x);
      }
    }
  }

  lemma {:induction false} SubsetIsSmaller(a: set<nat>, b: set<nat>)
    requires a <= b
    ensures |a| <= |b|
  {
    if a != {} {
      var x :| x in a;
      SubsetIsSmaller(a - {x}, b - {x});
    }
  }

  lemma HeapIsKeysBelow(q: Queues, t: Kind)
    requires Exact(q) && forall x :: x in q.heap ==> x.kind == t && x.part in q.full[t]
    ensures |q.heap| == |KeysBelow(q.full[t], q.indices[t])|
  {
    var m := q.full[t];
    forall x
      ensures q.heap[x] == if x.kind == t && x.part in KeysBelow(m, q.indices[t]) && m[x.part].id == x then 1 else 0
    {
      assert q.heap[x] == if HasSlot(q.slots, x) then 1 else 0;
      assert Agree(t, m, q.slots[t], q.indices[t]) && Filed(t, m);
      if x.kind == t && x.part in m {
        LiveInHeapExactlyBelowIndex(q, t, x.part, x);
      }
    }
    CountEntries(q.heap, m, t, KeysBelow(m, q.indices[t]));
  }

  lemma {:induction false} CountEntries(heap: multiset<RecordId>, m: Records, t: Kind, keys: set<nat>)
    requires Filed(t, m) && forall k :: k in keys ==> k in m
    requires forall x :: heap[x] == if x.kind == t && x.part in keys && m[x.part].id == x then 1 else 0
    ensures |heap| == |keys|
    decreases keys
  {
    if keys == {} {
      assert heap == multiset{};
    } else {
      var k :| k in keys;
      assert m[k].id in heap;
      CountEntries(heap - multiset{m[k].id}, m, t, keys - {k});
    }
  }
}
