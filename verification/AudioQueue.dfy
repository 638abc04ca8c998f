/** The jitter buffer of one audio stream, on the level of packets: what is buffered, how the
    buffer is measured, and how much decoded data there is.  The decoder is a parameter. */
module Audio {
  import opened Options
  import opened SlidingMinimum
  import opened Words

  const MAX_BUFFER_SIZE: nat := 24000
  const MAX_BUFFER_PACKETS: nat := 50
  const MAX_BUFFER_TIME: nat := 24000
  const USUAL_FRAME_SIZE: nat := 960
  const LAST_BUFFER_SIZE_COUNT: u8 := 255

  datatype QueuePacket = QueuePacket(id: u16, dataLen: nat, samples: nat)

  /** How far an id is ahead of the next one to decode, around the turn. */
  function Offset(id: u16, next: u16): u16 {
    (id - next) % 0x1_0000
  }

  lemma OffsetCases(id: u16, next: u16)
    ensures Offset(id, next) == if id >= next then id - next else id - next + 0x1_0000
  {
  }

  lemma OffsetIsDifference(id: u16, next: u16)
    ensures Offset(id, next) == (id - next) % 0x1_0000
  {
  }

  /** Buffered ids lie at most 50 ahead of the next one, in increasing order. */
  ghost predicate BufferOk(next: u16, buffer: seq<QueuePacket>) {
    && (forall i :: 0 <= i < |buffer| ==> Offset(buffer[i].id, next) <= MAX_BUFFER_PACKETS)
    && (forall i, j :: 0 <= i < j < |buffer| ==> Offset(buffer[i].id, next) < Offset(buffer[j].id, next))
  }

  function Sum(buffer: seq<QueuePacket>): nat {
    if buffer == [] then 0 else Sum(buffer[..|buffer| - 1]) + buffer[|buffer| - 1].samples
  }

  /** The packet that ends a stream carries no samples. */
  ghost predicate EndsAreEmpty(buffer: seq<QueuePacket>) {
    forall i :: 0 <= i < |buffer| && buffer[i].dataLen <= 1 ==> buffer[i].samples == 0
  }

  lemma {:induction false} SumConcat(a: seq<QueuePacket>, b: seq<QueuePacket>)
    ensures Sum(a + b) == Sum(a) + Sum(b)
  {
    if b == [] {
      assert a + b == a;
    } else {
      var n := |b| - 1;
      assert (a + b)[..|a| + n] == a + b[..n];
      SumConcat(a, b[..n]);
    }
  }

  lemma PopKeepsEnds(buffer: seq<QueuePacket>)
    requires EndsAreEmpty(buffer) && buffer != []
    ensures EndsAreEmpty(buffer[1..]) && (buffer[0].dataLen <= 1 ==> buffer[0].samples == 0)
  {
  }

  lemma SumOne(p: QueuePacket)
    ensures Sum([p]) == p.samples
  {
    assert [p][..0] == [];
  }

  lemma SumFront(buffer: seq<QueuePacket>)
    requires buffer != []
    ensures Sum(buffer) == buffer[0].samples + Sum(buffer[1..])
  {
    SumConcat([buffer[0]], buffer[1..]);
    SumOne(buffer[0]);
    assert [buffer[0]] + buffer[1..] == buffer;
  }

  /** Packets up to the last buffered one that are not in the buffer.  This is never negative. */
  function Missing(next: u16, buffer: seq<QueuePacket>): int {
    if buffer == [] then 0 else Offset(buffer[|buffer| - 1].id, next) + 1 - |buffer|
  }

  lemma {:induction false} MissingIsNatural(next: u16, buffer: seq<QueuePacket>)
    requires BufferOk(next, buffer)
    ensures Missing(next, buffer) >= 0
  {
    if |buffer| > 1 {
      var n := |buffer| - 1;
      MissingIsNatural(next, buffer[..n]);
      assert Offset(buffer[n - 1].id, next) < Offset(buffer[n].id, next);
    }
  }

  function Offsets(next: u16, buffer: seq<QueuePacket>): set<nat> {
    set i | 0 <= i < |buffer| :: Offset(buffer[i].id, next)
  }

  lemma {:induction false} OffsetsCount(next: u16, buffer: seq<QueuePacket>)
    requires BufferOk(next, buffer)
    ensures |Offsets(next, buffer)| == |buffer|
  {
    if buffer != [] {
      var n := |buffer| - 1;
      OffsetsCount(next, buffer[..n]);
      forall d
        ensures d in Offsets(next, buffer) <==> d in Offsets(next, buffer[..n]) || d == Offset(buffer[n].id, next)
      {
        assert forall i :: 0 <= i < n ==> buffer[..n][i] == buffer[i];
        if d in Offsets(next, buffer) {
          var i :| 0 <= i < |buffer| && Offset(buffer[i].id, next) == d;
          assert i < n ==> buffer[..n][i] == buffer[i];
        }
      }
      assert Offsets(next, buffer) == Offsets(next, buffer[..n]) + {Offset(buffer[n].id, next)};
    }
  }

  function Below(n: nat): (r: set<nat>)
    ensures |r| == n && forall d: nat :: d in r <==> d < n
  {
    if n == 0 then {} else Below(n - 1) + {n - 1}
  }

  /** The distances up to that of the last buffered packet at which no packet is buffered are as many
      as are said to be missing. */
  lemma MissingCounts(next: u16, buffer: seq<QueuePacket>)
    requires BufferOk(next, buffer) && buffer != []
    ensures var missing := set d: nat | d <= Offset(buffer[|buffer| - 1].id, next) && d !in Offsets(next, buffer);
            |missing| == Missing(next, buffer)
  {
    hide Offset;
    var last := Offset(buffer[|buffer| - 1].id, next);
    var all := Below(last + 1);
    OffsetsCount(next, buffer);
    assert Offsets(next, buffer) <= all by {
      forall d | d in Offsets(next, buffer)
        ensures d <= last
      {
        var i :| 0 <= i < |buffer| && Offset(buffer[i].id, next) == d;
        assert i < |buffer| - 1 ==> Offset(buffer[i].id, next) < last;
      }
    }
    var missing := set d: nat | d <= last && d !in Offsets(next, buffer);
    assert missing == all - Offsets(next, buffer);
  }

  /** When the next id moves on past packets that are not buffered, the order is kept. */
  lemma AdvanceKeepsOrder(next: u16, buffer: seq<QueuePacket>)
    requires BufferOk(next, buffer) && (buffer != [] ==> buffer[0].id != next)
    ensures BufferOk((next + 1) % 0x1_0000, buffer)
  {
    forall i | 0 <= i < |buffer|
      ensures Offset(buffer[i].id, (next + 1) % 0x1_0000) == Offset(buffer[i].id, next) - 1
    {
      assert i > 0 ==> Offset(buffer[0].id, next) < Offset(buffer[i].id, next);
      OffsetCases(buffer[i].id, next);
      OffsetCases(buffer[i].id, (next + 1) % 0x1_0000);
    }
  }

  lemma PopKeepsOrder(next: u16, buffer: seq<QueuePacket>)
    requires BufferOk(next, buffer) && buffer != []
    ensures BufferOk(next, buffer[1..]) && BufferOk((next + 1) % 0x1_0000, buffer[1..])
  {
    assert Offset(next, next) == 0;
    assert |buffer| > 1 ==> Offset(buffer[0].id, next) < Offset(buffer[1].id, next);
    AdvanceKeepsOrder(next, buffer[1..]);
  }

  /** Dropping the front of the buffer and continuing with the id that is now first. */
  lemma TruncateKeepsOrder(next: u16, buffer: seq<QueuePacket>, drop: nat)
    requires BufferOk(next, buffer) && drop < |buffer|
    ensures BufferOk(buffer[drop].id, buffer[drop..])
  {
    forall i | drop <= i < |buffer|
      ensures Offset(buffer[i].id, buffer[drop].id) == Offset(buffer[i].id, next) - Offset(buffer[drop].id, next)
    {
      assert i > drop ==> Offset(buffer[drop].id, next) < Offset(buffer[i].id, next);
      OffsetCases(buffer[i].id, next);
      OffsetCases(buffer[drop].id, next);
      OffsetCases(buffer[i].id, buffer[drop].id);
    }
    var rest := buffer[drop..];
    assert forall i :: 0 <= i < |rest| ==> rest[i] == buffer[drop + i];
  }

  // ---------- Inserting ----------

  /** Everything before `i` comes before the id, nothing from `i` on does. */
  ghost predicate IsPlace(next: u16, buffer: seq<QueuePacket>, id: u16, i: nat) {
    && i <= |buffer|
    && (forall k :: 0 <= k < i ==> Offset(buffer[k].id, next) < Offset(id, next))
    && (forall k :: i <= k < |buffer| ==> Offset(buffer[k].id, next) >= Offset(id, next))
  }

  /** Comparing ids by their wrapped difference is comparing offsets. */
  lemma DifferenceComparesOffsets(next: u16, a: u16, id: u16)
    requires Offset(a, next) <= MAX_BUFFER_PACKETS && Offset(id, next) <= MAX_BUFFER_PACKETS
    ensures (a - id) % 0x1_0000 <= MAX_BUFFER_PACKETS <==> Offset(a, next) >= Offset(id, next)
    ensures a == id <==> Offset(a, next) == Offset(id, next)
  {
    OffsetCases(a, next);
    OffsetCases(id, next);
    OffsetCases(a, id);
  }

  function Inserted(buffer: seq<QueuePacket>, i: nat, p: QueuePacket): seq<QueuePacket>
    requires i <= |buffer|
  {
    buffer[..i] + [p] + buffer[i..]
  }

  lemma InsertKeepsOrder(next: u16, buffer: seq<QueuePacket>, i: nat, p: QueuePacket)
    requires BufferOk(next, buffer) && IsPlace(next, buffer, p.id, i)
    requires Offset(p.id, next) <= MAX_BUFFER_PACKETS
    requires i < |buffer| ==> buffer[i].id != p.id
    ensures BufferOk(next, Inserted(buffer, i, p))
  {
    hide Offset;
    var after := Inserted(buffer, i, p);
    assert forall k :: 0 <= k < |after| ==>
        after[k] == if k < i then buffer[k] else if k == i then p else buffer[k - 1];
    if i < |buffer| {
      DifferenceComparesOffsets(next, buffer[i].id, p.id);
      assert forall k :: i < k < |buffer| ==> Offset(buffer[i].id, next) < Offset(buffer[k].id, next);
    }
  }

  lemma InsertAddsSamples(buffer: seq<QueuePacket>, i: nat, p: QueuePacket)
    requires i <= |buffer| && EndsAreEmpty(buffer) && (p.dataLen <= 1 ==> p.samples == 0)
    ensures Sum(Inserted(buffer, i, p)) == Sum(buffer) + p.samples
    ensures EndsAreEmpty(Inserted(buffer, i, p))
  {
    hide Sum;
    SumConcat(buffer[..i] + [p], buffer[i..]);
    SumConcat(buffer[..i], [p]);
    SumOne(p);
    SumConcat(buffer[..i], buffer[i..]);
    assert buffer[..i] + buffer[i..] == buffer;
  }

  /** At its place, an id is buffered or buffered nowhere. */
  lemma DuplicateIsAtPlace(next: u16, buffer: seq<QueuePacket>, id: u16, i: nat)
    requires BufferOk(next, buffer) && IsPlace(next, buffer, id, i) && Offset(id, next) <= MAX_BUFFER_PACKETS
    ensures (exists p :: p in buffer && p.id == id) <==> i < |buffer| && buffer[i].id == id
  {
    if p :| p in buffer && p.id == id {
      var k :| 0 <= k < |buffer| && buffer[k] == p;
      assert k > i ==> Offset(buffer[i].id, next) < Offset(buffer[k].id, next);
    }
  }

  /** The assertion of debug builds on the front of the buffer will fail when the front is taken:
      it is neither an end of stream nor less than 50 ids ahead. */
  predicate FarFront(next: u16, buffer: seq<QueuePacket>) {
    buffer != [] && buffer[0].dataLen > 1 && Offset(buffer[0].id, next) >= MAX_BUFFER_PACKETS
  }

  lemma NearerAfterAdvance(next: u16, buffer: seq<QueuePacket>)
    requires BufferOk(next, buffer) && buffer != []
    ensures |buffer| > 1 ==> Offset(buffer[1].id, (next + 1) % 0x1_0000) < MAX_BUFFER_PACKETS
    ensures buffer[0].id != next ==> Offset(buffer[0].id, (next + 1) % 0x1_0000) < MAX_BUFFER_PACKETS
  {
    OffsetCases(buffer[0].id, next);
    OffsetCases(buffer[0].id, (next + 1) % 0x1_0000);
    if |buffer| > 1 {
      OffsetCases(buffer[1].id, next);
      OffsetCases(buffer[1].id, (next + 1) % 0x1_0000);
    }
  }

  // ---------- The queue ----------

  /** A received voice packet: its id, the length of its data, and the sample count read from
      the data, if it can be read. */
  datatype Incoming = Incoming(id: u16, dataLen: nat, frame: Option<nat>)

  datatype AddResult = Added | QueueFull | GetPacketSample | TooManySamples | TooLate | Duplicate

  /** What the decoder makes of a packet. */
  datatype Decoding = BadPacket | Failed | Samples(n: nat)

  datatype NextData = Buffering | Ended | DecodeError | Frame | OutOfRange

  function SaturatingSub(a: nat, b: nat): nat {
    if a < b then 0 else a - b
  }

  function Min(a: nat, b: nat): (r: nat)
    ensures r <= a && r <= b && (r == a || r == b)
  {
    if a < b then a else b
  }

  /** The id after the last buffered one, or this one. */
  function AfterLast(buffer: seq<QueuePacket>, id: u16): u16 {
    if buffer == [] then id else (buffer[|buffer| - 1].id + 1) % 0x1_0000
  }

  /** How much is still to be buffered: a packet behind the last one counts, and so do the packets
      lost before it. */
  function StillBuffering(buffer: seq<QueuePacket>, p: QueuePacket, samples: nat, lost: nat): nat {
    var lastId := AfterLast(buffer, p.id);
    if lastId <= p.id then SaturatingSub(samples, p.samples + (p.id - lastId) * lost) else samples
  }

  /** While ids do not turn over between the last packet and the new one: a new packet behind the last
      one lowers what is to be buffered by its samples and those of the packets lost between, and
      any other one does not. */
  lemma StillBufferingMeans(next: u16, buffer: seq<QueuePacket>, p: QueuePacket, samples: nat, lost: nat)
    requires buffer != [] && Offset(p.id, next) <= MAX_BUFFER_PACKETS
    requires Offset(buffer[|buffer| - 1].id, next) <= MAX_BUFFER_PACKETS
    requires p.id >= next && buffer[|buffer| - 1].id >= next && buffer[|buffer| - 1].id < 0xffff
    ensures var between := Offset(p.id, next) - Offset(buffer[|buffer| - 1].id, next) - 1;
            var r := StillBuffering(buffer, p, samples, lost);
            if between < 0 then r == samples
            else if samples >= p.samples + between * lost then r == samples - p.samples - between * lost
            else r == 0
  {
    OffsetCases(p.id, next);
    OffsetCases(buffer[|buffer| - 1].id, next);
  }

  /** The id after 65535 is compared as a number: a packet filed before it counts as if all ids up to
      its own had been lost, and a packet behind the turn of the ids does not count. */
  lemma StillBufferingAtTurn(buffer: seq<QueuePacket>, p: QueuePacket, samples: nat, lost: nat)
    requires buffer != []
    ensures buffer[|buffer| - 1].id == 0xffff && samples >= p.samples + p.id * lost ==>
              StillBuffering(buffer, p, samples, lost) == samples - p.samples - p.id * lost
    ensures buffer[|buffer| - 1].id < 0xffff && p.id <= buffer[|buffer| - 1].id ==>
              StillBuffering(buffer, p, samples, lost) == samples
  {
  }

  ghost function Negated(history: seq<int>): (r: seq<int>)
    ensures |r| == |history|
  {
    seq(|history|, i requires 0 <= i < |history| => -history[i])
  }

  ghost predicate IsMaximum(m: int, values: seq<int>) {
    m in values && forall v :: v in values ==> v <= m
  }

  /** The smallest of the last 255 sizes, and how much larger the largest of them is. */
  ghost predicate Spread(history: seq<int>, low: int, deviation: nat) {
    if history == [] then low == 0 && deviation == 0
    else IsMinimum(low, Last(history, 255)) && IsMaximum(low + deviation, Last(history, 255))
  }

  lemma NegatedMinimum(values: seq<int>, m: int)
    requires IsMinimum(m, Negated(values))
    ensures IsMaximum(-m, values)
  {
    var negated := Negated(values);
    var j :| 0 <= j < |negated| && negated[j] == m;
    assert values[j] == -m;
    forall v | v in values
      ensures v <= -m
    {
      var i :| 0 <= i < |values| && values[i] == v;
      assert negated[i] in negated;
    }
  }

  lemma LastOfNegated(history: seq<int>, size: nat)
    ensures Last(Negated(history), size) == Negated(Last(history, size))
  {
  }

  /** The largest and the smallest of the same values. */
  lemma DeviationIsNatural(history: seq<int>, size: nat, low: int, negatedHigh: int)
    requires if history == [] then low == 0 else IsMinimum(low, Last(history, size))
    requires if history == [] then negatedHigh == 0 else IsMinimum(negatedHigh, Last(Negated(history), size))
    ensures -negatedHigh - low >= 0
    ensures history != [] ==> IsMaximum(-negatedHigh, Last(history, size))
  {
    if history != [] {
      LastOfNegated(history, size);
      NegatedMinimum(Last(history, size), negatedHigh);
      var j :| 0 <= j < |Last(history, size)| && Last(history, size)[j] == low;
      assert Last(Negated(history), size)[j] == -low;
      assert -low in Last(Negated(history), size);
    }
  }

  class AudioQueue {
    var nextId: u16
    var buffer: seq<QueuePacket>
    var bufferSamples: nat
    var decodedLen: nat
    var decodedPos: nat
    var lastPacketSamples: nat
    var packetLossNum: nat
    var bufferingSamples: nat
    var bufferedFor: nat
    const sizeMin: SlidingWindowMinimum
    /** The maximum, as the minimum of the negated values. */
    const sizeMax: SlidingWindowMinimum

    ghost predicate WindowsOk()
      reads sizeMin, sizeMax
    {
      && sizeMin != sizeMax && sizeMin.Valid() && sizeMax.Valid()
      && sizeMin.size == sizeMax.size == LAST_BUFFER_SIZE_COUNT
      && sizeMax.history == Negated(sizeMin.history)
    }

    ghost predicate PacketsOk()
      reads this`nextId, this`buffer, this`bufferSamples
    {
      BufferOk(nextId, buffer) && bufferSamples == Sum(buffer) && EndsAreEmpty(buffer)
    }

    ghost predicate Valid()
      reads this, sizeMin, sizeMax
    {
      WindowsOk() && PacketsOk()
    }

    /** A queue for a stream whose first packet has this id and sample count. */
    constructor (id: u16, samples: nat)
      ensures Valid() && nextId == id && buffer == [] && lastPacketSamples == 2 * samples
      ensures fresh(sizeMin) && fresh(sizeMax)
    {
      nextId, buffer, bufferSamples := id, [], 0;
      decodedLen, decodedPos, lastPacketSamples, packetLossNum := 0, 0, samples * 2, 0;
      bufferingSamples, bufferedFor := 0, 0;
      sizeMin := new SlidingWindowMinimum(LAST_BUFFER_SIZE_COUNT);
      sizeMax := new SlidingWindowMinimum(LAST_BUFFER_SIZE_COUNT);
      new;
      AddBufferSize(0);
    }

    /** Note the amount of buffered samples, in frames, if it fits into a byte. */
    method AddBufferSize(size: nat)
      requires WindowsOk()
      modifies sizeMin, sizeMax
      ensures WindowsOk()
      ensures sizeMin.history == old(sizeMin.history) +
                if size / USUAL_FRAME_SIZE < 256 then [size / USUAL_FRAME_SIZE] else []
    {
      var frames := size / USUAL_FRAME_SIZE;
      if frames < 256 {
        assert Negated(sizeMin.history + [frames]) == Negated(sizeMin.history) + [-frames];
        sizeMin.Push(frames);
        sizeMax.Push(-frames);
      }
    }

    /** The difference of the largest and the smallest buffer size; it is never negative. */
    method GetDeviation() returns (low: int, deviation: nat)
      requires WindowsOk()
      ensures Spread(sizeMin.history, low, deviation)
    {
      hide Last, IsMinimum, IsMaximum, Negated;
      low := sizeMin.GetMin();
      var negatedHigh := sizeMax.GetMin();
      DeviationIsNatural(sizeMin.history, LAST_BUFFER_SIZE_COUNT, low, negatedHigh);
      deviation := -negatedHigh - low;
    }

    method AddPacket(packet: Incoming) returns (result: AddResult)
      requires PacketsOk()
      modifies this`buffer, this`bufferSamples, this`bufferingSamples
      ensures PacketsOk()
      ensures result == Added <==>
                && |old(buffer)| < MAX_BUFFER_PACKETS
                && (packet.dataLen <= 1 || (packet.frame.Some? && packet.frame.value <= MAX_BUFFER_SIZE))
                && Offset(packet.id, nextId) <= MAX_BUFFER_PACKETS
                && !exists p :: p in old(buffer) && p.id == packet.id
      ensures match result
              case QueueFull => |old(buffer)| >= 50
              case GetPacketSample => |old(buffer)| < 50 && packet.dataLen > 1 && packet.frame.None?
              case TooManySamples =>
                |old(buffer)| < 50 && packet.dataLen > 1 && packet.frame.Some? && packet.frame.value > 24_000
              case TooLate =>
                && |old(buffer)| < 50 && (packet.dataLen > 1 ==> packet.frame.Some? && packet.frame.value <= 24_000)
                && (packet.id - nextId) % 0x1_0000 > 50
              case Duplicate =>
                (packet.id - nextId) % 0x1_0000 <= 50 && exists p :: p in old(buffer) && p.id == packet.id
              case Added => true
      ensures if result == Added then
                var p := QueuePacket(packet.id, packet.dataLen, if packet.dataLen <= 1 then 0 else packet.frame.value);
                && (exists i: nat :: IsPlace(nextId, old(buffer), p.id, i) && buffer == Inserted(old(buffer), i, p))
                && bufferingSamples == StillBuffering(old(buffer), p, old(bufferingSamples), lastPacketSamples)
              else
                && buffer == old(buffer) && bufferSamples == old(bufferSamples)
                && bufferingSamples == old(bufferingSamples)
    {
      hide BufferOk, Sum, Inserted, Offset, IsPlace;
      OffsetIsDifference(packet.id, nextId);
      if |buffer| >= MAX_BUFFER_PACKETS {
        return QueueFull;
      }
      var samples := 0;
      if packet.dataLen > 1 {
        if packet.frame.None? {
          return GetPacketSample;
        }
        samples := packet.frame.value;
        if samples > MAX_BUFFER_SIZE {
          return TooManySamples;
        }
      }
      if Offset(packet.id, nextId) > MAX_BUFFER_PACKETS {
        return TooLate;
      }
      var i := FindPlace(packet.id);
      DuplicateIsAtPlace(nextId, buffer, packet.id, i);
      if i < |buffer| && buffer[i].id == packet.id {
        return Duplicate;
      }
      var p := QueuePacket(packet.id, packet.dataLen, samples);
      var lastId := AfterLast(buffer, packet.id);
      if lastId <= packet.id {
        bufferingSamples := SaturatingSub(bufferingSamples, samples);
        bufferingSamples := SaturatingSub(bufferingSamples, (packet.id - lastId) * lastPacketSamples);
      }
      InsertKeepsOrder(nextId, buffer, i, p);
      InsertAddsSamples(buffer, i, p);
      bufferSamples := bufferSamples + samples;
      buffer := Inserted(buffer, i, p);
      assert IsPlace(nextId, old(buffer), p.id, i) && buffer == Inserted(old(buffer), i, p);
      assert p == QueuePacket(packet.id, packet.dataLen, if packet.dataLen <= 1 then 0 else packet.frame.value);
      result := Added;
    }

    /** The first spot from which on no id is smaller, searched from the back. */
    method FindPlace(id: u16) returns (i: nat)
      requires BufferOk(nextId, buffer) && Offset(id, nextId) <= MAX_BUFFER_PACKETS
      ensures IsPlace(nextId, buffer, id, i)
    {
      i := |buffer|;
      while i > 0 && (buffer[i - 1].id - id) % 0x1_0000 <= MAX_BUFFER_PACKETS
        invariant i <= |buffer|
        invariant forall k :: i <= k < |buffer| ==> Offset(buffer[k].id, nextId) >= Offset(id, nextId)
      {
        DifferenceComparesOffsets(nextId, buffer[i - 1].id, id);
        i := i - 1;
      }
      if i > 0 {
        DifferenceComparesOffsets(nextId, buffer[i - 1].id, id);
        assert forall k :: 0 <= k < i - 1 ==> Offset(buffer[k].id, nextId) < Offset(buffer[i - 1].id, nextId);
      }
    }

    /** Decode a packet that was taken out of the buffer, or make up for a lost one.  The decoder
        never returns more samples than it has room for. */
    method DecodePacket(packet: Option<QueuePacket>, fec: bool, decoding: Decoding) returns (ok: bool)
      requires Valid()
      modifies this`decodedLen, this`decodedPos, this`lastPacketSamples, this`packetLossNum, sizeMin, sizeMax
      ensures Valid()
      ensures ok ==> decoding.Samples? && decodedLen == decodedPos == old(decodedPos) + 2 * lastPacketSamples
      ensures ok ==>
                lastPacketSamples ==
                Min(decoding.n, if packet.Some? then packet.value.samples else old(lastPacketSamples))
      ensures ok ==> packetLossNum == if packet.Some? && !fec then 0 else old(packetLossNum) + 1
      ensures ok ==> var frames := (Sum(buffer) + Missing(nextId, buffer) * lastPacketSamples) / USUAL_FRAME_SIZE;
                     sizeMin.history == old(sizeMin.history) + if frames < 256 then [frames] else []
      ensures ok <==> decoding.Samples?
      ensures !ok ==>
                && decodedPos == old(decodedPos) && lastPacketSamples == old(lastPacketSamples)
                && sizeMin.history == old(sizeMin.history)
                && if packet.Some? && decoding.BadPacket? then
                     decodedLen == old(decodedLen) && packetLossNum == old(packetLossNum)
                   else
                     && packetLossNum == old(packetLossNum) + 1
                     && decodedLen == decodedPos
                                      + 2 * if packet.Some? then packet.value.samples else lastPacketSamples
    {
      hide BufferOk, Sum, Offset;
      if packet.Some? && decoding.BadPacket? {
        return false;
      }
      var room := if packet.Some? then packet.value.samples else lastPacketSamples;
      packetLossNum := packetLossNum + 1;
      decodedLen := decodedPos + room * 2;
      if !decoding.Samples? {
        return false;
      }
      lastPacketSamples := Min(decoding.n, room);
      decodedLen := decodedPos + lastPacketSamples * 2;
      decodedPos := decodedPos + lastPacketSamples * 2;
      if packet.Some? && !fec {
        packetLossNum := 0;
      }
      var count := bufferSamples;
      if buffer != [] {
        MissingIsNatural(nextId, buffer);
        var missing: nat := Offset(buffer[|buffer| - 1].id, nextId) + 1 - |buffer|;
        count := count + missing * lastPacketSamples;
      }
      AddBufferSize(count);
      ok := true;
    }

    /** The front is decoded when it is the next packet, or the one after it by error correction. */
    static predicate Usable(id: u16, next: u16) {
      id == next || id == (next + 1) % 0x1_0000
    }

    static lemma OwnOffset(next: u16)
      ensures Offset(next, next) == 0
    {
    }

    /** Take the next packet, or notice that it is missing.  `asserted` tells whether the assertion
        of debug builds holds; the rest is what happens where it is not checked. */
    method DecodeNext(decoding: Decoding) returns (ended: bool, ok: bool, asserted: bool)
      requires Valid()
      modifies this`buffer, this`bufferSamples, this`nextId, this`decodedLen, this`decodedPos,
               this`lastPacketSamples, this`packetLossNum, sizeMin, sizeMax
      ensures Valid()
      ensures ended <==> old(buffer) != [] && old(buffer)[0].dataLen <= 1
      ensures ended || !ok ==> old(buffer) == [] || buffer == old(buffer)[1..]
      ensures !ended && ok ==> decodedLen == decodedPos == old(decodedPos) + 2 * lastPacketSamples
      ensures !ended && ok && old(buffer) == [] ==> buffer == [] && nextId == old(nextId)
      ensures !ended && ok && old(buffer) != [] ==>
                && nextId == (old(nextId) + 1) % 0x1_0000
                && buffer == if old(buffer)[0].id == old(nextId) then old(buffer)[1..] else old(buffer)
      ensures asserted <==> !old(FarFront(nextId, buffer))
      ensures !ended && ok ==> !FarFront(nextId, buffer)
      ensures !ended ==> (ok <==> decoding.Samples?)
      ensures ended ==> nextId == old(nextId) && decodedLen == old(decodedLen) && packetLossNum == old(packetLossNum)
      ensures ended || !ok ==>
                && decodedPos == old(decodedPos) && lastPacketSamples == old(lastPacketSamples)
                && sizeMin.history == old(sizeMin.history)
      ensures !ended && old(buffer) != [] ==> nextId == (old(nextId) + 1) % 0x1_0000
      ensures !ended && old(buffer) == [] ==> nextId == old(nextId)
      ensures !ended && ok ==>
                packetLossNum ==
                if old(buffer) != [] && old(buffer)[0].id == old(nextId) then 0 else old(packetLossNum) + 1
      ensures !ended && ok ==>
                var rest := if old(buffer) == [] then [] else old(buffer)[1..];
                var frames := (Sum(rest) + Missing(nextId, rest) * lastPacketSamples) / USUAL_FRAME_SIZE;
                sizeMin.history == old(sizeMin.history) + if frames < 256 then [frames] else []
      ensures !ended && ok ==>
                lastPacketSamples ==
                Min(decoding.n, if old(buffer) != [] && Usable(old(buffer)[0].id, old(nextId))
                                then old(buffer)[0].samples else old(lastPacketSamples))
    {
      hide BufferOk, Sum, EndsAreEmpty, Negated, Offset, Missing, Min;
      ended, ok, asserted := false, false, true;
      if buffer == [] {
        ok := DecodePacket(None, false, decoding);
        return;
      }
      var packet := buffer[0];
      PopKeepsOrder(nextId, buffer);
      NearerAfterAdvance(nextId, buffer);
      OwnOffset(nextId);
      SumFront(buffer);
      PopKeepsEnds(buffer);
      buffer := buffer[1..];
      if packet.dataLen <= 1 {
        ended := true;
        return;
      }
      bufferSamples := bufferSamples - packet.samples;
      var curId := nextId;
      nextId := (nextId + 1) % 0x1_0000;
      if packet.id != curId {
        asserted := Offset(packet.id, curId) < MAX_BUFFER_PACKETS;
        if packet.id == nextId {
          ok := DecodePacket(Some(packet), true, decoding);
        } else {
          ok := DecodePacket(None, false, decoding);
        }
        if ok {
          AdvanceKeepsOrder(curId, old(buffer));
          assert [packet] + buffer == old(buffer);
          bufferSamples := bufferSamples + packet.samples;
          buffer := [packet] + buffer;
        }
      } else {
        ok := DecodePacket(Some(packet), false, decoding);
      }
    }

    /** Throw out the oldest packets of a buffer that stays too full: the longest tail with
        fewer than `low` + 960 samples is kept. */
    method Truncate(low: nat) returns (drop: nat)
      requires PacketsOk()
      modifies this`buffer, this`bufferSamples, this`nextId
      ensures PacketsOk()
      ensures drop <= |old(buffer)| && IsTruncated(old(buffer), drop, buffer, low + USUAL_FRAME_SIZE)
      ensures nextId == if buffer == [] then old(nextId) else buffer[0].id
    {
      hide BufferOk, Sum, EndsAreEmpty, IsTruncated;
      var keepSamples := 0;
      drop := |buffer|;
      var limit := low + USUAL_FRAME_SIZE;
      NothingKept(buffer, limit);
      while drop > 0 && keepSamples + buffer[drop - 1].samples < limit
        invariant PacketsOk() && nextId == old(nextId)
        invariant buffer == old(buffer) && drop <= |buffer| && keepSamples == Sum(buffer[drop..]) < limit
      {
        OneMoreKept(buffer, drop);
        keepSamples := keepSamples + buffer[drop - 1].samples;
        drop := drop - 1;
      }
      if drop > 0 {
        OneMoreKept(buffer, drop);
      }
      if drop < |buffer| {
        TruncateKeepsOrder(nextId, buffer, drop);
      }
      TailKeepsEnds(buffer, drop);
      EmptyBufferIsOk(nextId);
      buffer := buffer[drop..];
      KeptTail(old(buffer), drop, limit);
      bufferSamples := Sum(buffer);
      if buffer != [] {
        nextId := buffer[0].id;
      }
    }

    static ghost predicate IsTruncated(before: seq<QueuePacket>, drop: nat, after: seq<QueuePacket>, limit: nat)
      requires drop <= |before|
    {
      after == before[drop..] && Sum(after) < limit && (drop > 0 ==> Sum(before[drop - 1..]) >= limit)
    }

    static ghost predicate IsLongestTail(before: seq<QueuePacket>, after: seq<QueuePacket>, limit: nat) {
      exists drop: nat :: drop <= |before| && IsTruncated(before, drop, after, limit)
    }

    static lemma NothingKept(buffer: seq<QueuePacket>, limit: nat)
      requires limit > 0
      ensures Sum(buffer[|buffer|..]) == 0 < limit
    {
    }

    static lemma OneMoreKept(buffer: seq<QueuePacket>, drop: nat)
      requires 0 < drop <= |buffer|
      ensures Sum(buffer[drop - 1..]) == Sum(buffer[drop..]) + buffer[drop - 1].samples
    {
      SumFront(buffer[drop - 1..]);
      assert buffer[drop - 1..][1..] == buffer[drop..];
    }

    static lemma KeptTail(buffer: seq<QueuePacket>, drop: nat, limit: nat)
      requires drop <= |buffer| && Sum(buffer[drop..]) < limit
      requires drop > 0 ==> Sum(buffer[drop - 1..]) >= limit
      ensures IsTruncated(buffer, drop, buffer[drop..], limit)
    {
    }

    static lemma TailKeepsEnds(buffer: seq<QueuePacket>, drop: nat)
      requires EndsAreEmpty(buffer) && drop <= |buffer|
      ensures EndsAreEmpty(buffer[drop..]) && EndsAreEmpty([])
    {
    }

    static lemma EmptyBufferIsOk(next: u16)
      ensures BufferOk(next, [])
    {
    }

    /** Shorten the last decoded packet by one sample in a hundred. */
    method SpeedUp()
      requires decodedLen >= 2 * lastPacketSamples
      modifies this`decodedLen
      ensures decodedLen == old(decodedLen) - 2 * (lastPacketSamples / 100)
    {
      var start := decodedLen - lastPacketSamples * 2;
      for i := 0 to lastPacketSamples / 100
        invariant decodedLen == old(decodedLen) - 2 * i
      {
        var at := start + i * 99 * 2;
        assert at + 2 <= decodedLen;
        decodedLen := decodedLen - 2;
      }
    }

    /** How much decoded data was not handed out yet. */
    function Pending(): nat
      reads this
    {
      if decodedPos < decodedLen then decodedLen - decodedPos else 0
    }

    /** The next packet ends the stream. */
    predicate EndsFirst()
      reads this
    {
      buffer != [] && buffer[0].dataLen <= 1
    }

    /** Whether a call for `len` values has to decode. */
    predicate Refills(len: nat)
      reads this
    {
      && (bufferingSamples == 0 || bufferedFor >= MAX_BUFFER_TIME)
      && Pending() < len
    }

    /** Packets that are decoded carry samples, and so did the last one. */
    ghost predicate CarriesSamples()
      reads this`lastPacketSamples, this`buffer
    {
      lastPacketSamples > 0 && forall p :: p in buffer && p.dataLen > 1 ==> p.samples > 0
    }

    /** The next packet, or what is made up for it, yields no samples: the decoder answers with none,
        or no room is made for any. */
    predicate Silent(decoding: Decoding)
      reads this
    {
      && decoding.Samples?
      && (buffer == [] || buffer[0].dataLen > 1)
      && (decoding.n == 0
          || 0 == if buffer != [] && Usable(buffer[0].id, nextId) then buffer[0].samples else lastPacketSamples)
    }

    static ghost predicate AnswersSamples(decode: nat -> Decoding) {
      forall k :: decode(k).Samples? ==> decode(k).n > 0
    }

    static lemma AnswerIsSamples(decode: nat -> Decoding, k: nat)
      requires AnswersSamples(decode)
      ensures decode(k).Samples? ==> decode(k).n > 0
    {
    }

    static lemma OwnFrontIsNear(next: u16, buffer: seq<QueuePacket>)
      requires buffer == [] || buffer[0].id == next
      ensures !FarFront(next, buffer)
    {
      OwnOffset(next);
    }

    /** What decoding the next packet leaves in the buffer: a packet that is not yet next stays. */
    static function Kept(next: u16, buffer: seq<QueuePacket>): seq<QueuePacket> {
      if buffer != [] && buffer[0].id == next then buffer[1..] else buffer
    }

    static function NextAfter(next: u16, buffer: seq<QueuePacket>): u16 {
      if buffer == [] then next else (next + 1) % 0x1_0000
    }

    /** If there were always more than 25 frames too many, only that many and one more are kept; if there
        was always more than the deviation, one sample in a hundred of the decoded packet is cut. */
    ghost predicate Shortened(rest: seq<QueuePacket>, next: u16, low: int, deviation: nat)
      reads this
    {
      if low > 25 then
        && decodedLen == decodedPos
        && IsLongestTail(rest, buffer, low + 960)
        && nextId == (if buffer == [] then next else buffer[0].id)
      else
        && buffer == rest && nextId == next
        && decodedLen == decodedPos - if low > deviation then 2 * (lastPacketSamples / 100) else 0
    }

    /** One round of the decoding loop: decode, and shorten what is buffered or decoded if there is
        always enough.  Without a result there are more samples. */
    method DecodeRound(decoding: Decoding) returns (result: Option<NextData>, asserted: bool)
      requires Valid()
      modifies this, sizeMin, sizeMax
      ensures Valid() && bufferingSamples == old(bufferingSamples) && bufferedFor == old(bufferedFor)
      ensures asserted <==> !old(FarFront(nextId, buffer))
      ensures result.None? ==>
                && !FarFront(nextId, buffer) && lastPacketSamples > 0
                && old(decodedPos) <= decodedLen <= decodedPos == old(decodedPos) + 2 * lastPacketSamples
      ensures result == Some(OutOfRange) ==>
                lastPacketSamples == 0 && decodedLen == decodedPos == old(decodedPos)
      ensures result != Some(Buffering) && result != Some(Frame)
      ensures result == Some(Ended) <==> old(EndsFirst())
      ensures result == Some(Ended) ==> buffer == old(buffer)[1..] && nextId == old(nextId)
      ensures result == Some(DecodeError) <==> !old(EndsFirst()) && !decoding.Samples?
      ensures result.None? ==>
                exists low: int, deviation: nat ::
                  && Spread(sizeMin.history, low, deviation)
                  && Shortened(old(Kept(nextId, buffer)), old(NextAfter(nextId, buffer)), low, deviation)
      ensures old(CarriesSamples()) && (decoding.Samples? ==> decoding.n > 0) ==>
                result != Some(OutOfRange) && (result.None? ==> CarriesSamples())
      ensures result == Some(OutOfRange) <==> old(Silent(decoding))
    {
      hide PacketsOk, WindowsOk, FarFront, Sum, Spread, Missing;
      var ended, ok, held := DecodeNext(decoding);
      asserted := held;
      if ended {
        return Some(Ended), asserted;
      }
      if !ok {
        return Some(DecodeError), asserted;
      }
      if lastPacketSamples == 0 {
        return Some(OutOfRange), asserted;
      }
      result := None;
      var low, deviation := GetDeviation();
      assert Spread(sizeMin.history, low, deviation);
      if low > MAX_BUFFER_SIZE / USUAL_FRAME_SIZE {
        var drop := Truncate(low);
        OwnFrontIsNear(nextId, buffer);
      } else if low > deviation {
        SpeedUp();
      }
    }

    /** Provide `len` decoded values; `decode(k)` is the decoder's answer to its `k`-th call.  The
        assertion of debug builds fails exactly when a packet has to be decoded and the front is
        50 ids ahead. */
    method GetNextData(len: nat, decode: nat -> Decoding) returns (result: NextData, asserted: bool)
      requires Valid()
      modifies this, sizeMin, sizeMax
      ensures Valid()
      ensures asserted <==> !(old(Refills(len)) && old(FarFront(nextId, buffer)))
      ensures result == Frame ==> decodedPos == len <= decodedLen
      ensures result == OutOfRange ==> lastPacketSamples == 0 && decodedLen < len
      ensures old(CarriesSamples()) && AnswersSamples(decode) ==> result != OutOfRange
      ensures old(Refills(len) && Silent(decode(0))) ==> result == OutOfRange
      ensures result == Buffering <==> old(bufferingSamples > 0 && bufferedFor < 24_000)
      ensures result == Buffering ==> bufferedFor == old(bufferedFor) + len && bufferingSamples == old(bufferingSamples)
      ensures result != Buffering && old(bufferingSamples) > 0 ==> bufferingSamples == 0 && bufferedFor == 0
      ensures result != Buffering && old(bufferingSamples) == 0 ==>
                bufferingSamples == 0 && bufferedFor == old(bufferedFor)
      ensures !old(Refills(len)) ==> buffer == old(buffer) && nextId == old(nextId) && result in {Buffering, Frame}
      ensures result == Frame && !old(Refills(len)) ==> decodedLen == old(Pending())
      ensures old(Refills(len) && EndsFirst()) ==>
                result == Ended && buffer == old(buffer)[1..] && nextId == old(nextId)
      ensures old(Refills(len) && !EndsFirst()) && !decode(0).Samples? ==> result == DecodeError
    {
      hide PacketsOk, WindowsOk, FarFront, Sum, AnswersSamples, Spread, Shortened, Kept, NextAfter, CarriesSamples;
      asserted := true;
      if bufferingSamples > 0 {
        if bufferedFor >= MAX_BUFFER_TIME {
          bufferingSamples, bufferedFor := 0, 0;
        } else {
          bufferedFor := bufferedFor + len;
          return Buffering, true;
        }
      }
      if decodedPos < decodedLen {
        decodedLen, decodedPos := decodedLen - decodedPos, 0;
      } else {
        decodedLen, decodedPos := 0, 0;
      }
      var k := 0;
      while decodedLen < len
        invariant Valid()
        invariant k == 0 ==> buffer == old(buffer) && nextId == old(nextId) && asserted
        invariant k == 0 ==> lastPacketSamples == old(lastPacketSamples) && decodedPos == 0
        invariant k == 0 ==> (decodedLen < len <==> old(Refills(len)))
        invariant k > 0 ==> old(Refills(len)) && !FarFront(nextId, buffer)
        invariant k > 0 ==> (asserted <==> !old(FarFront(nextId, buffer)))
        invariant k > 0 ==> !old(Silent(decode(0))) && !old(EndsFirst()) && decode(0).Samples?
        invariant k == 0 ==> decodedLen == old(Pending())
        invariant bufferingSamples == 0 && (old(bufferingSamples) == 0 ==> bufferedFor == old(bufferedFor))
        invariant old(bufferingSamples) > 0 ==> bufferedFor == 0
        invariant old(CarriesSamples()) && AnswersSamples(decode) ==> CarriesSamples()
        decreases if decodedLen >= len then -1 else if decodedPos >= len then 0 else len - decodedPos
      {
        if AnswersSamples(decode) {
          AnswerIsSamples(decode, k);
        }
        var round, held := DecodeRound(decode(k));
        asserted := asserted && held;
        k := k + 1;
        if round == Some(OutOfRange) {
          break;
        }
        if round.Some? {
          result := round.value;
          return;
        }
      }
      if decodedLen < len {
        result := OutOfRange;
        return;
      }
      decodedPos := len;
      result := Frame;
    }

    /** The assertion of debug builds can fail: a packet 50 ids ahead is accepted, and decoding the
        next time trips over it. */
    method AcceptsAndTrips(packet: Incoming, len: nat, decode: nat -> Decoding) returns (asserted: bool)
      requires Valid() && buffer == [] && bufferingSamples == 0 && Refills(len)
      requires packet.dataLen > 1 && packet.frame.Some? && packet.frame.value <= MAX_BUFFER_SIZE
      requires packet.id == (nextId + MAX_BUFFER_PACKETS) % 0x1_0000
      modifies this, sizeMin, sizeMax
      ensures !asserted
    {
      hide PacketsOk, WindowsOk, Sum, BufferOk;
      OffsetCases(packet.id, nextId);
      var added := AddPacket(packet);
      assert buffer == [QueuePacket(packet.id, packet.dataLen, packet.frame.value)];
      var _, held := GetNextData(len, decode);
      asserted := held;
    }
  }
}
