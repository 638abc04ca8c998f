/** The content of voice packets: writing it and parsing it. */
module Voice {
  import opened BigEndian
  import opened Options
  import opened Words

  type Codec = x: int | 0 <= x < 6

  datatype AudioData =
    | C2S(id: u16, codec: Codec, data: Bytes)
    | C2SWhisper(id: u16, codec: Codec, channels: seq<u64>, clients: seq<u16>, data: Bytes)
    | C2SWhisperNew(id: u16, codec: Codec, whisperType: u8, target: u8, targetId: u64, data: Bytes)
    | S2C(id: u16, from: u16, codec: Codec, data: Bytes)
    | S2CWhisper(id: u16, from: u16, codec: Codec, data: Bytes)
  {
    predicate FromServer() {
      S2C? || S2CWhisper?
    }

    predicate IsVoice() {
      C2S? || S2C?
    }

    predicate NewProtocol() {
      C2SWhisperNew?
    }
  }

  datatype Error = Incomplete | PacketContentTooShort | InvalidCodec

  // ---------- Writing ----------

  function Numbers(ns: seq<nat>, width: nat): Bytes {
    if ns == [] then [] else Be(ns[0], width) + Numbers(ns[1..], width)
  }

  /** The counts of a whisper list are cut to a byte. */
  function Count(ns: seq<nat>): u8 {
    |ns| % 0x100
  }

  function Written(a: AudioData): Bytes {
    Be(a.id, 2) +
    match a
    case C2S(_, codec, data) => [codec] + data
    case C2SWhisper(_, codec, channels, clients, data) =>
      [codec] + ([Count(channels)] + ([Count(clients)]
      + (Numbers(channels, 8) + (Numbers(clients, 2) + data))))
    case C2SWhisperNew(_, codec, whisperType, target, targetId, data) =>
      [codec] + ([whisperType] + ([target] + (Be(targetId, 8) + data)))
    case S2C(_, from, codec, data) => Be(from, 2) + ([codec] + data)
    case S2CWhisper(_, from, codec, data) => Be(from, 2) + ([codec] + data)
  }

  method WriteNumbers(content: Bytes, ns: seq<nat>, width: nat) returns (r: Bytes)
    ensures r == content + Numbers(ns, width)
  {
    r := content;
    var i := 0;
    assert ns[0..] == ns;
    while i < |ns|
      invariant i <= |ns| && r + Numbers(ns[i..], width) == content + Numbers(ns, width)
    {
      assert ns[i..][0] == ns[i] && ns[i..][1..] == ns[i + 1..];
      Associative(r, Be(ns[i], width), Numbers(ns[i + 1..], width));
      r := r + Be(ns[i], width);
      i := i + 1;
    }
    assert ns[i..] == [];
  }

  lemma Regrouped(a: Bytes, b: Bytes, c: Bytes, d: Bytes)
    ensures a + (b + (c + d)) == ((a + b) + c) + d
  {
    Associative(b, c, d);
    Associative(a, b + c, d);
    Associative(a, b, c);
  }

  method New(a: AudioData) returns (content: Bytes)
    ensures content == Written(a)
  {
    hide Be, Numbers;
    content := Be(a.id, 2);
    match a
    case C2S(_, codec, data) =>
      Associative(content, [codec], data);
      content := content + [codec] + data;
    case C2SWhisper(_, codec, channels, clients, data) =>
      ghost var lists := Numbers(channels, 8) + (Numbers(clients, 2) + data);
      Regrouped(content, [codec], [Count(channels)], [Count(clients)] + lists);
      content := content + [codec] + [Count(channels)];
      Associative(content, [Count(clients)], lists);
      content := content + [Count(clients)];
      Regrouped(content, Numbers(channels, 8), Numbers(clients, 2), data);
      content := WriteNumbers(content, channels, 8);
      content := WriteNumbers(content, clients, 2);
      content := content + data;
    case C2SWhisperNew(_, codec, whisperType, target, targetId, data) =>
      Regrouped(content, [codec], [whisperType], [target] + (Be(targetId, 8) + data));
      content := content + [codec] + [whisperType];
      Regrouped(content, [target], Be(targetId, 8), data);
      content := content + [target] + Be(targetId, 8) + data;
    case S2C(_, from, codec, data) =>
      Regrouped(content, Be(from, 2), [codec], data);
      content := content + Be(from, 2) + [codec] + data;
    case S2CWhisper(_, from, codec, data) =>
      Regrouped(content, Be(from, 2), [codec], data);
      content := content + Be(from, 2) + [codec] + data;
  }

  // ---------- Parsing ----------

  function ReadNumbers(content: Bytes, o: nat, count: nat, width: nat): (r: seq<nat>)
    requires o + count * width <= |content|
    ensures |r| == count
    decreases count
  {
    if count == 0 then []
    else
      assert count * width == (count - 1) * width + width;
      [FromBe(content, o, width)] + ReadNumbers(content, o + width, count - 1, width)
  }

  lemma {:induction false} ReadNumbersFit(content: Bytes, o: nat, count: nat, width: nat)
    requires o + count * width <= |content|
    ensures forall i :: 0 <= i < count ==> ReadNumbers(content, o, count, width)[i] < Size(width)
    decreases count
  {
    if count > 0 {
      assert count * width == (count - 1) * width + width;
      ReadNumbersFit(content, o + width, count - 1, width);
    }
  }

  function U16At(content: Bytes, o: nat): u16
    requires o + 2 <= |content|
  {
    Sizes();
    FromBe(content, o, 2)
  }

  function U64At(content: Bytes, o: nat): u64
    requires o + 8 <= |content|
  {
    Sizes();
    FromBe(content, o, 8)
  }

  function ReadU16s(content: Bytes, o: nat, count: nat): (r: seq<u16>)
    requires o + count * 2 <= |content|
    ensures |r| == count
  {
    ReadNumbersFit(content, o, count, 2);
    Sizes();
    ReadNumbers(content, o, count, 2)
  }

  function ReadU64s(content: Bytes, o: nat, count: nat): (r: seq<u64>)
    requires o + count * 8 <= |content|
    ensures |r| == count
  {
    ReadNumbersFit(content, o, count, 8);
    Sizes();
    ReadNumbers(content, o, count, 8)
  }

  function Parse(voice: bool, newProtocol: bool, fromServer: bool, content: Bytes): Result<AudioData, Error> {
    if |content| < 2 then Err(Incomplete)
    else if fromServer then
      if |content| < 5 then Err(PacketContentTooShort)
      else if content[4] >= 6 then Err(InvalidCodec)
      else if voice then Ok(S2C(U16At(content, 0), U16At(content, 2), content[4], content[5..]))
      else Ok(S2CWhisper(U16At(content, 0), U16At(content, 2), content[4], content[5..]))
    else if |content| < 3 then Err(PacketContentTooShort)
    else if content[2] >= 6 then Err(InvalidCodec)
    else if voice then Ok(C2S(U16At(content, 0), content[2], content[3..]))
    else if newProtocol then
      if |content| < 14 then Err(PacketContentTooShort)
      else Ok(C2SWhisperNew(U16At(content, 0), content[2], content[3], content[4],
                            U64At(content, 5), content[13..]))
    else if |content| < 5 then Err(PacketContentTooShort)
    else
      var (channels: nat, clients: nat) := (content[3], content[4]);
      var clientsAt := 5 + channels * 8;
      var dataAt := clientsAt + clients * 2;
      if |content| < dataAt then Err(PacketContentTooShort)
      else Ok(C2SWhisper(U16At(content, 0), content[2], ReadU64s(content, 5, channels),
                         ReadU16s(content, clientsAt, clients), content[dataAt..]))
  }

  /** What a receiver makes of a packet that was written. */
  function Received(a: AudioData): Result<AudioData, Error> {
    Parse(a.IsVoice(), a.NewProtocol(), a.FromServer(), Written(a))
  }

  // ---------- The round trip ----------

  lemma {:induction false} NumbersAt(content: Bytes, o: nat, ns: seq<nat>, width: nat)
    requires At(content, o, Numbers(ns, width))
    requires forall i :: 0 <= i < |ns| ==> ns[i] < Size(width)
    ensures |Numbers(ns, width)| == |ns| * width
    ensures o + |ns| * width <= |content| && ReadNumbers(content, o, |ns|, width) == ns
    decreases |ns|
  {
    hide Be, FromBe, At;
    AtFits(content, o, Numbers(ns, width));
    if ns != [] {
      AtParts(content, o, Be(ns[0], width), Numbers(ns[1..], width));
      NumberAt(content, o, ns[0], width);
      NumbersAt(content, o + width, ns[1..], width);
      assert |ns| * width == (|ns| - 1) * width + width;
    }
  }

  lemma RestAt(content: Bytes, o: nat, rest: Bytes)
    requires At(content, o, rest) && o + |rest| == |content|
    ensures content[o..] == rest
  {
  }

  lemma AllAt(content: Bytes)
    ensures At(content, 0, content)
  {
  }

  lemma IdIsRead(content: Bytes, id: u16, rest: Bytes)
    requires content == Be(id, 2) + rest
    ensures U16At(content, 0) == id && At(content, 2, rest) && |content| == 2 + |rest|
  {
    hide Be, FromBe;
    AllAt(content);
    AtParts(content, 0, Be(id, 2), rest);
    Sizes();
    NumberAt(content, 0, id, 2);
  }

  lemma ByteIsRead(content: Bytes, o: nat, b: u8, rest: Bytes)
    requires At(content, o, [b] + rest)
    ensures o < |content| && content[o] == b && At(content, o + 1, rest)
  {
    AtParts(content, o, [b], rest);
    ByteAt(content, o, b);
  }

  lemma FromServerIsRead(a: AudioData)
    requires a.FromServer()
    ensures Received(a) == Ok(a)
  {
    hide Be, FromBe, At, U16At;
    var content := Written(a);
    var rest := Be(a.from, 2) + ([a.codec] + a.data);
    IdIsRead(content, a.id, rest);
    AtParts(content, 2, Be(a.from, 2), [a.codec] + a.data);
    FromIsRead(content, 2, a.from);
    ByteIsRead(content, 4, a.codec, a.data);
    AtFits(content, 5, a.data);
    RestAt(content, 5, a.data);
  }

  lemma FromIsRead(content: Bytes, o: nat, from: u16)
    requires At(content, o, Be(from, 2))
    ensures o + 2 <= |content| && U16At(content, o) == from
  {
    hide Be, FromBe;
    Sizes();
    NumberAt(content, o, from, 2);
  }

  lemma TargetIsRead(content: Bytes, o: nat, target: u64)
    requires At(content, o, Be(target, 8))
    ensures o + 8 <= |content| && U64At(content, o) == target
  {
    hide Be, FromBe;
    Sizes();
    NumberAt(content, o, target, 8);
  }

  lemma VoiceIsRead(a: AudioData)
    requires a.C2S?
    ensures Received(a) == Ok(a)
  {
    hide Be, FromBe, At, U16At;
    var content := Written(a);
    IdIsRead(content, a.id, [a.codec] + a.data);
    ByteIsRead(content, 2, a.codec, a.data);
    RestAt(content, 3, a.data);
  }

  lemma WhisperNewIsRead(a: AudioData)
    requires a.C2SWhisperNew?
    ensures Received(a) == Ok(a) <==> a.data != []
  {
    hide Be, FromBe, At, U16At, U64At;
    var content := Written(a);
    var tail := Be(a.targetId, 8) + a.data;
    IdIsRead(content, a.id, [a.codec] + ([a.whisperType] + ([a.target] + tail)));
    ByteIsRead(content, 2, a.codec, [a.whisperType] + ([a.target] + tail));
    ByteIsRead(content, 3, a.whisperType, [a.target] + tail);
    ByteIsRead(content, 4, a.target, tail);
    AtParts(content, 5, Be(a.targetId, 8), a.data);
    TargetIsRead(content, 5, a.targetId);
    RestAt(content, 13, a.data);
  }

  lemma ListsAreRead(content: Bytes, o: nat, channels: seq<u64>, clients: seq<u16>, data: Bytes)
    requires At(content, o, Numbers(channels, 8) + (Numbers(clients, 2) + data))
    requires o + |Numbers(channels, 8)| + |Numbers(clients, 2)| + |data| == |content|
    ensures var clientsAt := o + |channels| * 8;
            var dataAt := clientsAt + |clients| * 2;
            && dataAt <= |content| && ReadU64s(content, o, |channels|) == channels
            && ReadU16s(content, clientsAt, |clients|) == clients && content[dataAt..] == data
  {
    hide Be, FromBe, At, Numbers, ReadNumbers;
    Sizes();
    AtParts(content, o, Numbers(channels, 8), Numbers(clients, 2) + data);
    NumbersAt(content, o, channels, 8);
    var clientsAt := o + |channels| * 8;
    AtParts(content, clientsAt, Numbers(clients, 2), data);
    NumbersAt(content, clientsAt, clients, 2);
    RestAt(content, clientsAt + |clients| * 2, data);
  }

  function Lists(a: AudioData): Bytes
    requires a.C2SWhisper?
  {
    Numbers(a.channels, 8) + (Numbers(a.clients, 2) + a.data)
  }

  lemma WhisperHeadIsRead(a: AudioData)
    requires a.C2SWhisper?
    ensures var content := Written(a);
            && |content| == 5 + |Lists(a)| && At(content, 5, Lists(a))
            && U16At(content, 0) == a.id && content[2] == a.codec
            && content[3] == Count(a.channels) && content[4] == Count(a.clients)
  {
    hide Be, FromBe, At, U16At, Numbers;
    var content := Written(a);
    var lists := Lists(a);
    IdIsRead(content, a.id, [a.codec] + ([Count(a.channels)] + ([Count(a.clients)] + lists)));
    ByteIsRead(content, 2, a.codec, [Count(a.channels)] + ([Count(a.clients)] + lists));
    ByteIsRead(content, 3, Count(a.channels), [Count(a.clients)] + lists);
    ByteIsRead(content, 4, Count(a.clients), lists);
  }

  lemma WhisperIsRead(a: AudioData)
    requires a.C2SWhisper?
    ensures Received(a) == Ok(a) <==> |a.channels| < 0x100 && |a.clients| < 0x100
  {
    hide Be, At, U16At, ReadU16s, ReadU64s, Numbers, Written;
    WhisperHeadIsRead(a);
    if |a.channels| < 0x100 && |a.clients| < 0x100 {
      ListsAreRead(Written(a), 5, a.channels, a.clients, a.data);
    }
  }

  /** A receiver gets what was sent, except that a new whisper without data is refused as too
      short and that whisper lists of 256 or more entries are cut off. */
  lemma VoiceRoundTrip(a: AudioData)
    ensures Received(a) == Ok(a)
            <==> && (a.C2SWhisperNew? ==> a.data != [])
                 && (a.C2SWhisper? ==> |a.channels| < 0x100 && |a.clients| < 0x100)
  {
    hide Received;
    match a
    case C2S(_, _, _) => VoiceIsRead(a);
    case C2SWhisper(_, _, _, _, _) => WhisperIsRead(a);
    case C2SWhisperNew(_, _, _, _, _, _) => WhisperNewIsRead(a);
    case S2C(_, _, _, _) => FromServerIsRead(a);
    case S2CWhisper(_, _, _, _) => FromServerIsRead(a);
  }

  // ---------- From bytes and back ----------

  lemma {:induction false} NumbersAreKept(content: Bytes, o: nat, count: nat, width: nat)
    requires o + count * width <= |content|
    ensures Numbers(ReadNumbers(content, o, count, width), width) == content[o..o + count * width]
    decreases count
  {
    hide Be, FromBe;
    if count > 0 {
      assert count * width == (count - 1) * width + width;
      var rest := ReadNumbers(content, o + width, count - 1, width);
      assert ReadNumbers(content, o, count, width)[1..] == rest;
      NumbersAreKept(content, o + width, count - 1, width);
      BytesAreKept(content, o, width);
      assert content[o..o + width] + content[o + width..o + count * width] == content[o..o + count * width];
    }
  }

  lemma IdIsKept(content: Bytes)
    requires |content| >= 2
    ensures Be(U16At(content, 0), 2) + content[2..] == content
  {
    hide Be, FromBe;
    BytesAreKept(content, 0, 2);
    assert content[..2] + content[2..] == content;
  }

  lemma FromIsKept(content: Bytes)
    requires |content| >= 5
    ensures Be(U16At(content, 2), 2) + ([content[4]] + content[5..]) == content[2..]
  {
    hide Be, FromBe;
    BytesAreKept(content, 2, 2);
    assert content[2..4] + ([content[4]] + content[5..]) == content[2..];
  }

  lemma TargetIsKept(content: Bytes)
    requires |content| >= 13
    ensures [content[2]] + ([content[3]] + ([content[4]] + (Be(U64At(content, 5), 8) + content[13..]))) == content[2..]
  {
    hide Be, FromBe;
    BytesAreKept(content, 5, 8);
    assert [content[2]] + ([content[3]] + ([content[4]] + (content[5..13] + content[13..]))) == content[2..];
  }

  lemma ListsAreKept(content: Bytes, channels: nat, clients: nat)
    requires 5 + channels * 8 + clients * 2 <= |content|
    ensures Numbers(ReadU64s(content, 5, channels), 8)
            + (Numbers(ReadU16s(content, 5 + channels * 8, clients), 2) + content[5 + channels * 8 + clients * 2..])
            == content[5..]
  {
    hide Be, FromBe, Numbers, ReadNumbers;
    NumbersAreKept(content, 5, channels, 8);
    NumbersAreKept(content, 5 + channels * 8, clients, 2);
    var clientsAt := 5 + channels * 8;
    var dataAt := clientsAt + clients * 2;
    assert content[5..clientsAt] + (content[clientsAt..dataAt] + content[dataAt..]) == content[5..];
  }

  lemma ServerIsWritten(voice: bool, newProtocol: bool, content: Bytes)
    ensures var r := Parse(voice, newProtocol, true, content);
            r.Ok? ==> Written(r.value) == content
  {
    hide Be, FromBe, U16At, Numbers;
    if |content| >= 5 {
      IdIsKept(content);
      FromIsKept(content);
    }
  }

  lemma WhisperIsWritten(content: Bytes)
    ensures var r := Parse(false, false, false, content);
            r.Ok? ==> Written(r.value) == content
  {
    hide Be, FromBe, U16At, Numbers, ReadNumbers, ReadU16s, ReadU64s;
    if Parse(false, false, false, content).Ok? {
      IdIsKept(content);
      ListsAreKept(content, content[3], content[4]);
      assert [content[2]] + ([content[3]] + ([content[4]] + content[5..])) == content[2..];
    }
  }

  /** Whatever was parsed is written as the same bytes. */
  lemma ParsedIsWritten(voice: bool, newProtocol: bool, fromServer: bool, content: Bytes)
    ensures var r := Parse(voice, newProtocol, fromServer, content);
            r.Ok? ==> Written(r.value) == content
  {
    hide Be, FromBe, U16At, U64At, Numbers, ReadNumbers, ReadU16s, ReadU64s;
    if fromServer {
      ServerIsWritten(voice, newProtocol, content);
    } else if !voice && !newProtocol {
      WhisperIsWritten(content);
    } else if Parse(voice, newProtocol, fromServer, content).Ok? {
      IdIsKept(content);
      if voice {
        assert [content[2]] + content[3..] == content[2..];
      } else {
        TargetIsKept(content);
      }
    }
  }

  /** Exactly when parsing fails, and how: the codec is looked at before the length of a whisper. */
  lemma ParseFailsExactly(voice: bool, newProtocol: bool, fromServer: bool, content: Bytes)
    ensures var r := Parse(voice, newProtocol, fromServer, content);
            var least := if fromServer then 5 else 3;
            var n := |content|;
            && (r == Err(Incomplete) <==> n < 2)
            && (r == Err(InvalidCodec) <==> n >= least && content[least - 1] >= 6)
            && (r == Err(PacketContentTooShort) <==>
                  || 2 <= n < least
                  || (n >= least && content[least - 1] < 6 && !fromServer && !voice
                      && (newProtocol ==> n < 14)
                      && (!newProtocol && n >= 5 ==> WhisperIsShort(content))))
  {
    hide U16At, U64At, ReadU16s, ReadU64s;
  }

  predicate WhisperIsShort(content: Bytes)
    requires |content| >= 5
  {
    var (channels: nat, clients: nat) := (content[3], content[4]);
    |content| < 5 + 8 * channels + 2 * clients
  }

  /** Where the bytes of a packet are. */
  lemma WrittenMeans(a: AudioData)
    ensures var w := Written(a);
            && |w| >= 3 && U16At(w, 0) == a.id
            && (a.C2S? ==> w[2] == a.codec && w[3..] == a.data)
            && (a.C2SWhisper? ==>
                  && |w| >= 5 && w[2] == a.codec && w[3] == |a.channels| % 0x100 && w[4] == |a.clients| % 0x100
                  && w[5..] == Numbers(a.channels, 8) + (Numbers(a.clients, 2) + a.data))
            && (a.C2SWhisperNew? ==>
                  && |w| >= 13 && w[2] == a.codec && w[3] == a.whisperType && w[4] == a.target
                  && U64At(w, 5) == a.targetId && w[13..] == a.data)
            && (a.FromServer() ==> |w| >= 5 && U16At(w, 2) == a.from && w[4] == a.codec && w[5..] == a.data)
  {
    hide Be, FromBe, At, U16At, U64At, Numbers;
    var w := Written(a);
    match a
    case C2S(id, codec, data) =>
      IdIsRead(w, id, [codec] + data);
      ByteIsRead(w, 2, codec, data);
      RestAt(w, 3, data);
    case C2SWhisper(_, _, _, _, _) =>
      WhisperHeadIsRead(a);
      RestAt(w, 5, Lists(a));
    case C2SWhisperNew(id, codec, whisperType, target, targetId, data) =>
      var tail := Be(targetId, 8) + data;
      IdIsRead(w, id, [codec] + ([whisperType] + ([target] + tail)));
      ByteIsRead(w, 2, codec, [whisperType] + ([target] + tail));
      ByteIsRead(w, 3, whisperType, [target] + tail);
      ByteIsRead(w, 4, target, tail);
      AtParts(w, 5, Be(targetId, 8), data);
      TargetIsRead(w, 5, targetId);
      RestAt(w, 13, data);
    case _ =>
      ServerBytes(a);
  }

  lemma ServerBytes(a: AudioData)
    requires a.FromServer()
    ensures var w := Written(a);
            |w| >= 5 && U16At(w, 0) == a.id && U16At(w, 2) == a.from && w[4] == a.codec && w[5..] == a.data
  {
    hide Be, FromBe, At, U16At;
    var w := Written(a);
    IdIsRead(w, a.id, Be(a.from, 2) + ([a.codec] + a.data));
    AtParts(w, 2, Be(a.from, 2), [a.codec] + a.data);
    FromIsRead(w, 2, a.from);
    ByteIsRead(w, 4, a.codec, a.data);
    AtFits(w, 5, a.data);
    RestAt(w, 5, a.data);
  }
}
