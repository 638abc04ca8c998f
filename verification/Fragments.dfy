/** Splitting commands into fragments and putting the fragments together again. */
module Fragments {
  import opened Options
  import opened Words

  datatype Direction = S2C | C2S

  const MAX_PACKET_LENGTH: nat := 500
  const MAX_FRAGMENTS_LENGTH: nat := 40960
  const MAX_DECOMPRESSED_SIZE: nat := 2 * 1024 * 1024

  function HeaderLength(dir: Direction): (n: nat) {
    if dir.S2C? then 11 else 13
  }

  function MaxContent(dir: Direction): (n: nat) {
    MAX_PACKET_LENGTH - HeaderLength(dir)
  }

  /** The QuickLZ library: an abstract pair of functions. */
  datatype Compressor = Compressor(compress: Bytes -> Bytes, decompress: (Bytes, nat) -> Option<Bytes>) {
    /** Decompression undoes compression and only refuses contents above the given size. */
    ghost predicate Lawful() {
      forall x: Bytes, limit: nat {:trigger decompress(compress(x), limit)} ::
        decompress(compress(x), limit) == if |x| <= limit then Some(x) else None
    }
  }

  /** A command packet on the wire, without its header bytes: the two flags that steer the
      reassembly and the content. */
  datatype Fragment = Fragment(compressed: bool, fragmented: bool, content: Bytes)

  // ---------- Splitting ----------

  function Chunks(data: Bytes, size: nat): (r: seq<Bytes>)
    requires size > 0
    ensures |r| > 0
  {
    if |data| <= size then [data] else [data[..size]] + Chunks(data[size..], size)
  }

  /** Compressed only if the content is too long and the compressed form is not longer. */
  predicate Compresses(z: Compressor, dir: Direction, content: Bytes) {
    |content| > MaxContent(dir) && |z.compress(content)| <= |content|
  }

  function Payload(z: Compressor, dir: Direction, content: Bytes): Bytes {
    if Compresses(z, dir, content) then z.compress(content) else content
  }

  function Pieces(z: Compressor, dir: Direction, content: Bytes): (r: seq<Bytes>)
    ensures |r| > 0
  {
    Chunks(Payload(z, dir, content), MaxContent(dir))
  }

  /** The flags of piece `i` of `n`. */
  function Flagged(i: nat, n: nat, compressed: bool, piece: Bytes): Fragment {
    Fragment(i == 0 && compressed, n > 1 && (i == 0 || i == n - 1), piece)
  }

  function Split(z: Compressor, dir: Direction, content: Bytes): (r: seq<Fragment>)
    ensures |r| == |Pieces(z, dir, content)| > 0
  {
    var pieces := Pieces(z, dir, content);
    seq(|pieces|, i requires 0 <= i < |pieces| =>
      Flagged(i, |pieces|, Compresses(z, dir, content), pieces[i]))
  }

  method CompressAndSplit(z: Compressor, dir: Direction, content: Bytes) returns (packets: seq<Fragment>)
    ensures packets == Split(z, dir, content)
  {
    var maxSize := MaxContent(dir);
    var datas := [content];
    var compressed := false;
    if |content| > maxSize {
      var data := content;
      var cdata := z.compress(content);
      if |cdata| <= |content| {
        compressed := true;
        data := cdata;
      }
      datas := CutUp(data, maxSize);
    }
    packets := SetFlags(datas, compressed);
  }

  /** The splitting loop of `CompressAndSplit`. */
  method CutUp(whole: Bytes, maxSize: nat) returns (datas: seq<Bytes>)
    requires maxSize > 0
    ensures datas == Chunks(whole, maxSize)
  {
    var data := whole;
    datas := [];
    while |data| > maxSize
      invariant datas + Chunks(data, maxSize) == Chunks(whole, maxSize)
      decreases |data|
    {
      var first, last := data[..maxSize], data[maxSize..];
      assert Chunks(data, maxSize) == [first] + Chunks(last, maxSize);
      datas := datas + [first];
      data := last;
    }
    datas := datas + [data];
  }

  /** The loop of `CompressAndSplit` over the pieces. */
  method SetFlags(datas: seq<Bytes>, compressed: bool) returns (packets: seq<Fragment>)
    ensures |packets| == |datas|
    ensures forall k :: 0 <= k < |datas| ==> packets[k] == Flagged(k, |datas|, compressed, datas[k])
  {
    packets := [];
    for i := 0 to |datas|
      invariant |packets| == i
      invariant forall k :: 0 <= k < i ==> packets[k] == Flagged(k, |datas|, compressed, datas[k])
    {
      packets := packets + [Flagged(i, |datas|, compressed, datas[i])];
    }
  }

  function Join(pieces: seq<Bytes>): Bytes {
    if pieces == [] then [] else Join(pieces[..|pieces| - 1]) + pieces[|pieces| - 1]
  }

  lemma {:induction false} JoinCons(first: Bytes, rest: seq<Bytes>)
    ensures Join([first] + rest) == first + Join(rest)
  {
    if rest == [] {
      assert [first] + rest == [] + [first];
      assert Join([first]) == Join([]) + first;
    } else {
      var n := |rest| - 1;
      assert ([first] + rest)[..n + 1] == [first] + rest[..n];
      JoinCons(first, rest[..n]);
    }
  }

  lemma {:induction false} ChunksJoin(data: Bytes, size: nat)
    requires size > 0
    ensures Join(Chunks(data, size)) == data
    ensures forall i :: 0 <= i < |Chunks(data, size)| ==>
              |Chunks(data, size)[i]| <= size && (i < |Chunks(data, size)| - 1 ==> |Chunks(data, size)[i]| == size)
  {
    if |data| <= size {
      assert [data][..0] == [];
      assert Join([data]) == Join([]) + data;
    } else {
      ChunksJoin(data[size..], size);
      JoinCons(data[..size], Chunks(data[size..], size));
      assert data[..size] + data[size..] == data;
    }
  }

  /** No fragment is longer than a packet may be. */
  lemma FragmentsFit(z: Compressor, dir: Direction, content: Bytes, i: nat)
    requires i < |Split(z, dir, content)|
    ensures HeaderLength(dir) + |Split(z, dir, content)[i].content| <= MAX_PACKET_LENGTH
  {
    ChunksJoin(Payload(z, dir, content), MaxContent(dir));
  }

  /** The contents of fragments. */
  function Contents(ps: seq<Fragment>): (r: seq<Bytes>)
    ensures |r| == |ps|
  {
    seq(|ps|, i requires 0 <= i < |ps| => ps[i].content)
  }

  lemma {:induction false} LastChunkIsFull(data: Bytes, size: nat)
    requires size > 0
    ensures var r := Chunks(data, size);
            && |data| == (|r| - 1) * size + |r[|r| - 1]| && |r[|r| - 1]| <= size
            && (|r| > 1 ==> r[|r| - 1] != [])
  {
    if |data| > size {
      var rest := Chunks(data[size..], size);
      LastChunkIsFull(data[size..], size);
      assert (|rest| + 1 - 1) * size == (|rest| - 1) * size + size;
    }
  }

  /** What is sent for a command: a short one as it is; of a longer one the shorter of its two forms,
      the compressed one if both have the same length, in full packets and a rest. */
  lemma SplitMeans(z: Compressor, dir: Direction, content: Bytes)
    ensures var ps := Split(z, dir, content);
            var room := if dir.S2C? then 489 else 487;
            var joined := Join(Contents(ps));
            && (|content| <= room ==> ps == [Fragment(false, false, content)])
            && (|content| > room ==> joined == content || joined == z.compress(content))
            && (|content| > room ==> |joined| <= |content| && |joined| <= |z.compress(content)|)
            && (ps[0].compressed <==> |content| > room && |z.compress(content)| <= |content|)
            && (ps[0].compressed ==> joined == z.compress(content))
            && (!ps[0].compressed ==> joined == content)
            && (forall i :: 0 < i < |ps| ==> !ps[i].compressed)
            && (forall i :: 0 <= i < |ps| ==> (ps[i].fragmented <==> |ps| > 1 && (i == 0 || i == |ps| - 1)))
            && (forall i :: 0 <= i < |ps| - 1 ==> |ps[i].content| == room)
            && |ps[|ps| - 1].content| <= room && (|ps| > 1 ==> ps[|ps| - 1].content != [])
  {
    hide Chunks;
    var pieces := Pieces(z, dir, content);
    assert Contents(Split(z, dir, content)) == pieces;
    ChunksJoin(Payload(z, dir, content), MaxContent(dir));
    LastChunkIsFull(Payload(z, dir, content), MaxContent(dir));
    ShortIsOneChunk(content, MaxContent(dir));
  }

  lemma ShortIsOneChunk(data: Bytes, size: nat)
    requires size > 0
    ensures |data| <= size ==> Chunks(data, size) == [data]
  {
  }

  // ---------- Reassembly ----------

  datatype Error = DecompressPacket | FragmentQueueLength | CommandQueueLength

  /** The fragment queue: whether its first packet was compressed and the content so far. */
  datatype Partial = Partial(compressed: bool, data: Bytes)

  /** What one packet does: the new fragment queue and a finished content, if any. */
  datatype Consumed = Consumed(partial: Option<Partial>, content: Option<Bytes>)
                    | Failed(partial: Option<Partial>, error: Error)

  function Finish(z: Compressor, compressed: bool, data: Bytes): Consumed {
    if compressed then
      match z.decompress(data, MAX_DECOMPRESSED_SIZE)
      case Some(content) => Consumed(None, Some(content))
      case None => Failed(None, DecompressPacket)
    else
      Consumed(None, Some(data))
  }

  function Consume(z: Compressor, dir: Direction, partial: Option<Partial>, p: Fragment): Consumed {
    match partial
    case Some(q) =>
      if p.fragmented then
        Finish(z, q.compressed, q.data + p.content)
      else if HeaderLength(dir) + |q.data| < MAX_FRAGMENTS_LENGTH then
        Consumed(Some(q.(data := q.data + p.content)), None)
      else
        Failed(partial, FragmentQueueLength)
    case None =>
      if p.fragmented then
        Consumed(Some(Partial(p.compressed, p.content)), None)
      else
        Finish(z, p.compressed, p.content)
  }

  /** A packet completes a content if it is flagged fragmented just when others wait.  Then the flag of
      the first one says whether to decompress; a packet that completes none is kept, unless the
      queue has reached its limit. */
  lemma ConsumeMeans(z: Compressor, dir: Direction, partial: Option<Partial>, p: Fragment)
    ensures var c := Consume(z, dir, partial, p);
            var compressed := if partial.Some? then partial.value.compressed else p.compressed;
            var data := if partial.Some? then partial.value.data + p.content else p.content;
            var header := if dir.S2C? then 11 else 13;
            if partial.Some? == p.fragmented then
              if compressed && z.decompress(data, 2_097_152).None? then c == Failed(None, DecompressPacket)
              else c == Consumed(None, if compressed then z.decompress(data, 2_097_152) else Some(data))
            else if partial.Some? && |partial.value.data| + header >= 40_960 then
              c == Failed(partial, FragmentQueueLength)
            else c == Consumed(Some(Partial(compressed, data)), None)
  {
  }

  function Append(contents: seq<Bytes>, content: Option<Bytes>): seq<Bytes> {
    if content.Some? then contents + [content.value] else contents
  }

  /** What a stream of packets in order amounts to: the contents handed up, and whether an
      error ended the stream. */
  datatype Assembly = Assembly(partial: Option<Partial>, contents: seq<Bytes>, failed: bool)

  const EMPTY: Assembly := Assembly(None, [], false)

  function Advance(z: Compressor, dir: Direction, a: Assembly, p: Fragment): Assembly {
    var c := Consume(z, dir, a.partial, p);
    if a.failed then a
    else if c.Failed? then Assembly(c.partial, a.contents, true)
    else Assembly(c.partial, Append(a.contents, c.content), false)
  }

  function Assemble(z: Compressor, dir: Direction, a: Assembly, ps: seq<Fragment>): Assembly {
    if ps == [] then a
    else Advance(z, dir, Assemble(z, dir, a, ps[..|ps| - 1]), ps[|ps| - 1])
  }

  lemma {:induction false} AssembleConcat(z: Compressor, dir: Direction, a: Assembly,
        ps: seq<Fragment>, qs: seq<Fragment>)
    ensures Assemble(z, dir, a, ps + qs) == Assemble(z, dir, Assemble(z, dir, a, ps), qs)
  {
    if qs == [] {
      assert ps + qs == ps;
    } else {
      var n := |qs| - 1;
      assert (ps + qs)[..|ps| + n] == ps + qs[..n];
      AssembleConcat(z, dir, a, ps, qs[..n]);
    }
  }

  lemma {:induction false} FailureStays(z: Compressor, dir: Direction, a: Assembly, ps: seq<Fragment>)
    requires a.failed
    ensures Assemble(z, dir, a, ps) == a
  {
    if ps != [] {
      FailureStays(z, dir, a, ps[..|ps| - 1]);
    }
  }

  lemma {:induction false} ContentsGrow(z: Compressor, dir: Direction, a: Assembly, ps: seq<Fragment>)
    ensures a.contents <= Assemble(z, dir, a, ps).contents
  {
    if ps != [] {
      ContentsGrow(z, dir, a, ps[..|ps| - 1]);
    }
  }

  // ---------- The round trip ----------

  /** The condition under which a command survives the trip: with three or more fragments the
      header and all but the last two fragments stay below the limit of the fragment queue,
      and a compressed command is not above the decompression limit. */
  predicate Fits(z: Compressor, dir: Direction, content: Bytes) {
    var n := |Pieces(z, dir, content)|;
    && (n >= 3 ==> HeaderLength(dir) + (n - 2) * MaxContent(dir) < MAX_FRAGMENTS_LENGTH)
    && (Compresses(z, dir, content) ==> |content| <= MAX_DECOMPRESSED_SIZE)
  }

  /** In numbers: a content of `length` bytes in packets of `room` survives if all but the last two
      packets stay below 40 960 bytes with the header; decompression stops at two megabytes. */
  lemma FitsExactly(z: Compressor, dir: Direction, content: Bytes)
    ensures var header := if dir.S2C? then 11 else 13;
            var room := 500 - header;
            var compressed := |content| > room && |z.compress(content)| <= |content|;
            var length := if compressed then |z.compress(content)| else |content|;
            Fits(z, dir, content)
            <==> && (length > 2 * room ==> header + ((length - 1) / room - 1) * room < 40_960)
                 && (compressed ==> |content| <= 2_097_152)
  {
    hide Chunks;
    var room := MaxContent(dir);
    var payload := Payload(z, dir, content);
    var n := |Chunks(payload, room)|;
    LastChunkIsFull(payload, room);
    if |payload| > 0 {
      CountOfFull(|payload| - 1, n - 1, room, |Chunks(payload, room)[n - 1]| - 1);
    }
    assert n >= 3 <==> |payload| > 2 * room by {
      if n >= 3 {
        assert (n - 1) * room >= 2 * room;
      } else {
        assert (n - 1) * room <= room;
      }
    }
  }

  lemma CountOfFull(total: int, count: nat, size: nat, rest: int)
    requires size > 0 && total == count * size + rest && 0 <= rest < size
    ensures total / size == count
  {
    var apart := total / size - count;
    assert apart * size == rest - total % size;
    Multiples(apart, size);
  }

  lemma Multiples(n: int, size: nat)
    requires size > 0
    ensures n >= 1 ==> n * size >= size
    ensures n <= -1 ==> n * size + size <= 0
  {
  }

  lemma {:induction false} PiecesLength(z: Compressor, dir: Direction, content: Bytes, k: nat)
    requires k < |Pieces(z, dir, content)|
    ensures |Join(Pieces(z, dir, content)[..k])| == k * MaxContent(dir)
  {
    var pieces := Pieces(z, dir, content);
    if k > 0 {
      PiecesLength(z, dir, content, k - 1);
      ChunksJoin(Payload(z, dir, content), MaxContent(dir));
      assert pieces[..k][..k - 1] == pieces[..k - 1];
    }
  }

  /** Between the first and the last fragment nothing is handed up; the queue holds the pieces
      so far, or the length limit was hit. */
  lemma {:induction false} MiddleOfSplit(z: Compressor, dir: Direction, a: Assembly, content: Bytes, k: nat)
    requires !a.failed && a.partial == None
    requires 0 < k < |Split(z, dir, content)|
    ensures var pieces := Pieces(z, dir, content);
            var b := Assemble(z, dir, a, Split(z, dir, content)[..k]);
            && b.contents == a.contents
            && (b.failed <==> k >= 2 && HeaderLength(dir) + |Join(pieces[..k - 1])| >= MAX_FRAGMENTS_LENGTH)
            && (!b.failed ==> b.partial == Some(Partial(Compresses(z, dir, content), Join(pieces[..k]))))
  {
    hide Chunks, Payload, Compresses;
    var pieces := Pieces(z, dir, content);
    var ps := Split(z, dir, content);
    AssembleStep(z, dir, a, ps, k - 1);
    assert pieces[..k][..k - 1] == pieces[..k - 1];
    if k == 1 {
      assert ps[..0] == [] && pieces[..0] == [];
      assert Join(pieces[..1]) == [] + pieces[0] == pieces[0];
    } else {
      MiddleOfSplit(z, dir, a, content, k - 1);
      assert pieces[..k - 1][..k - 2] == pieces[..k - 2];
    }
  }

  lemma AssembleStep(z: Compressor, dir: Direction, a: Assembly, ps: seq<Fragment>, k: nat)
    requires k < |ps|
    ensures Assemble(z, dir, a, ps[..k + 1]) == Advance(z, dir, Assemble(z, dir, a, ps[..k]), ps[k])
  {
    assert ps[..k + 1][..k] == ps[..k];
  }

  /** Feeding the fragments of a command to the reassembler yields exactly the command, if and
      only if the command fits; otherwise an error ends the stream. */
  lemma SplitRoundTrip(z: Compressor, dir: Direction, a: Assembly, content: Bytes)
    requires z.Lawful() && !a.failed && a.partial == None
    ensures var b := Assemble(z, dir, a, Split(z, dir, content));
            && (Fits(z, dir, content) <==> !b.failed)
            && (Fits(z, dir, content) ==> b == Assembly(None, a.contents + [content], false))
            && (b.failed ==> b.contents == a.contents)
  {
    hide Chunks;
    var ps := Split(z, dir, content);
    var pieces := Pieces(z, dir, content);
    var n := |ps|;
    assert ps[..n] == ps && pieces[..n] == pieces;
    ChunksJoin(Payload(z, dir, content), MaxContent(dir));
    assert z.decompress(z.compress(content), MAX_DECOMPRESSED_SIZE) ==
           if |content| <= MAX_DECOMPRESSED_SIZE then Some(content) else None;
    if n == 1 {
      assert Assemble(z, dir, a, ps[..0]) == a;
      assert pieces[..0] == [] && Join(pieces) == [] + pieces[0] == pieces[0];
    } else {
      MiddleOfSplit(z, dir, a, content, n - 1);
      PiecesLength(z, dir, content, n - 2);
    }
  }

  /** All commands one after the other. */
  function SplitAll(z: Compressor, dir: Direction, commands: seq<Bytes>): seq<Fragment> {
    if commands == [] then []
    else SplitAll(z, dir, commands[..|commands| - 1]) + Split(z, dir, commands[|commands| - 1])
  }

  /** One more whole command: handed up, unless the stream has failed by its end. */
  lemma OneMoreCommand(z: Compressor, dir: Direction, a: Assembly, content: Bytes)
    requires z.Lawful() && (!a.failed ==> a.partial == None)
    ensures var b := Assemble(z, dir, a, Split(z, dir, content));
            && (!b.failed <==> !a.failed && Fits(z, dir, content))
            && (!b.failed ==> b == Assembly(None, a.contents + [content], false))
            && (b.failed ==> b.contents == a.contents)
  {
    if a.failed {
      FailureStays(z, dir, a, Split(z, dir, content));
    } else {
      SplitRoundTrip(z, dir, a, content);
    }
  }

  /** The whole stream hands up a prefix, and everything unless it fails. */
  lemma {:induction false} WholeStream(z: Compressor, dir: Direction, commands: seq<Bytes>)
    requires z.Lawful()
    ensures var a := Assemble(z, dir, EMPTY, SplitAll(z, dir, commands));
            a.contents <= commands && (!a.failed ==> a == Assembly(None, commands, false))
  {
    if commands != [] {
      var before, last := commands[..|commands| - 1], commands[|commands| - 1];
      assert commands == before + [last];
      WholeStream(z, dir, before);
      AssembleConcat(z, dir, EMPTY, SplitAll(z, dir, before), Split(z, dir, last));
      OneMoreCommand(z, dir, Assemble(z, dir, EMPTY, SplitAll(z, dir, before)), last);
    }
  }

  /** Reading any part of the stream of fragments from its start hands up a prefix of the
      commands, each once and in order. */
  lemma StreamHandsUpPrefix(z: Compressor, dir: Direction, commands: seq<Bytes>, k: nat)
    requires z.Lawful() && k <= |SplitAll(z, dir, commands)|
    ensures Assemble(z, dir, EMPTY, SplitAll(z, dir, commands)[..k]).contents <= commands
  {
    var stream := SplitAll(z, dir, commands);
    WholeStream(z, dir, commands);
    assert stream == stream[..k] + stream[k..];
    AssembleConcat(z, dir, EMPTY, stream[..k], stream[k..]);
    ContentsGrow(z, dir, Assemble(z, dir, EMPTY, stream[..k]), stream[k..]);
  }

  /** Every command arrives exactly when every command fits. */
  lemma {:induction false} StreamArrivesExactly(z: Compressor, dir: Direction, commands: seq<Bytes>)
    requires z.Lawful()
    ensures Assemble(z, dir, EMPTY, SplitAll(z, dir, commands)) == Assembly(None, commands, false)
            <==> forall c :: c in commands ==> Fits(z, dir, c)
  {
    if commands != [] {
      var before, last := commands[..|commands| - 1], commands[|commands| - 1];
      assert commands == before + [last];
      StreamArrivesExactly(z, dir, before);
      WholeStream(z, dir, before);
      AssembleConcat(z, dir, EMPTY, SplitAll(z, dir, before), Split(z, dir, last));
      OneMoreCommand(z, dir, Assemble(z, dir, EMPTY, SplitAll(z, dir, before)), last);
    }
  }
}
