/** Packet numbers of the transport: a 32 bit generation and a 16 bit id that travels on the
    wire.  Numbers that count every packet since the start of a connection are plain naturals;
    `OfNumber` is what the program stores of such a number. */
module PacketNumbers {
  import opened Words

  const TURN: int := 0x1_0000
  const SPACE: int := 0x1_0000_0000_0000
  /** `u16::MAX / 2`, the length of the receive window. */
  const RECEIVE_WINDOW: int := 32767

  datatype PartialPacketId = PartialPacketId(generation: u32, id: u16) {

    function Add(n: u16): PartialPacketId {
      var sum := id + n;
      if sum >= 0x1_0000 then
        PartialPacketId((generation + 1) % 0x1_0000_0000, sum - 0x1_0000)
      else
        PartialPacketId(generation, sum)
    }

    function Sub(n: u16): PartialPacketId {
      if id < n then
        PartialPacketId((generation - 1) % 0x1_0000_0000, id - n + 0x1_0000)
      else
        PartialPacketId(generation, id - n)
    }

    /** The difference of two ids; a generation counts 65535 here, as in the program. */
    function Minus(other: PartialPacketId): int {
      (generation - other.generation) * 65535 + (id - other.id)
    }

    predicate Below(other: PartialPacketId) {
      generation < other.generation || (generation == other.generation && id < other.id)
    }

    function Number(): nat {
      generation * 0x1_0000 + id
    }
  }

  function OfNumber(n: nat): PartialPacketId {
    PartialPacketId((n / 0x1_0000) % 0x1_0000_0000, n % 0x1_0000)
  }

  lemma NumberIsBijective(n: nat, p: PartialPacketId)
    ensures OfNumber(n).Number() == n % 0x1_0000_0000_0000
    ensures OfNumber(p.Number()) == p
    ensures p.Number() < SPACE
  {
    CountedInRounds(n);
    var m := p.Number();
    assert m / 0x1_0000 == p.generation && m % 0x1_0000 == p.id;
  }

  lemma CountedInRounds(n: nat)
    ensures OfNumber(n).Number() == n % 0x1_0000_0000_0000
  {
    var turns := n / 0x1_0000;
    var rounds := turns / 0x1_0000_0000;
    assert n == rounds * 0x1_0000_0000_0000 + (turns % 0x1_0000_0000) * 0x1_0000 + n % 0x1_0000;
  }

  /** Adding counts packets, through every carry into and overflow of the generation. */
  lemma AddCounts(n: nat, k: u16)
    ensures OfNumber(n).Add(k) == OfNumber(n + k)
    ensures OfNumber(n + k).Sub(k) == OfNumber(n)
  {
    var turns, id := n / 0x1_0000, n % 0x1_0000;
    assert n + k == turns * 0x1_0000 + (id + k);
    if id + k >= TURN {
      assert (n + k) / 0x1_0000 == turns + 1 && (n + k) % 0x1_0000 == id + k - TURN;
      NextGeneration(turns);
    } else {
      assert (n + k) / 0x1_0000 == turns && (n + k) % 0x1_0000 == id + k;
    }
  }

  lemma NextGeneration(turns: nat)
    ensures (turns % 0x1_0000_0000 + 1) % 0x1_0000_0000 == (turns + 1) % 0x1_0000_0000
    ensures ((turns + 1) % 0x1_0000_0000 - 1) % 0x1_0000_0000 == turns % 0x1_0000_0000
  {
  }

  lemma OrderIsNumberOrder(p: PartialPacketId, q: PartialPacketId)
    ensures p.Below(q) <==> p.Number() < q.Number()
  {
  }

  /** The program's difference is the number of packets in between exactly when both ids are
      of one generation. */
  lemma MinusExactWithinGeneration(p: PartialPacketId, q: PartialPacketId)
    ensures p.Minus(q) == p.Number() - q.Number() <==> p.generation == q.generation
    ensures p.Minus(q) == p.Number() - q.Number() - (p.generation - q.generation)
  {
  }

  // ---------- The receive window ----------

  datatype Window = Window(inside: bool, generation: u32, next: u16, limit: u16)

  /** Which generation a 16 bit id belongs to, seen from the next expected packet `cur`, and
      whether it lies in the half turn of ids that starts there. */
  function InReceiveWindow(cur: PartialPacketId, id: u16): Window {
    var next := cur.id;
    var nextGen := next + RECEIVE_WINDOW >= TURN;
    var limit := (next + RECEIVE_WINDOW) % 0x1_0000;
    var inside := (!nextGen && id >= next && id < limit) || (nextGen && (id >= next || id < limit));
    var generation :=
      if inside then
        if nextGen && id < limit then (cur.generation + 1) % 0x1_0000_0000 else cur.generation
      else if id < next then cur.generation
      else (cur.generation - 1) % 0x1_0000_0000;
    Window(inside, generation, next, limit)
  }

  /** The id of the genuine packet `s` is expanded to the generation `s` was encrypted under
      exactly when `s` lies at most 32769 packets behind and fewer than 32767 packets ahead of
      the expected packet `e`, counted around the whole space of 2^48 numbers. */
  lemma WindowFindsGeneration(s: nat, e: nat)
    ensures var w := InReceiveWindow(OfNumber(e), OfNumber(s).id);
            && (w.generation == OfNumber(s).generation <==> (s - e + 32769) % 0x1_0000_0000_0000 < TURN)
            && (w.generation == OfNumber(s).generation ==>
                  (w.inside <==> (s - e) % 0x1_0000_0000_0000 < RECEIVE_WINDOW))
  {
    var a, b := s % 0x1_0000_0000_0000, e % 0x1_0000_0000_0000;
    assert (s - e + 32769) % 0x1_0000_0000_0000 == (a - b + 32769) % 0x1_0000_0000_0000;
    assert (s - e) % 0x1_0000_0000_0000 == (a - b) % 0x1_0000_0000_0000;
    NumberIsBijective(s, OfNumber(s));
    NumberIsBijective(e, OfNumber(e));
    WindowWithin(OfNumber(s), OfNumber(e));
  }

  /** One turn around the space, without division. */
  lemma AroundSpace(x: int)
    requires -SPACE <= x < 2 * SPACE
    ensures x % 0x1_0000_0000_0000 == if x < 0 then x + SPACE else if x < SPACE then x else x - SPACE
  {
  }

  lemma AroundGenerations(x: int)
    requires -0x1_0000_0000 <= x < 2 * 0x1_0000_0000
    ensures x % 0x1_0000_0000 ==
            if x < 0 then x + 0x1_0000_0000 else if x < 0x1_0000_0000 then x else x - 0x1_0000_0000
  {
  }

  lemma WindowWithin(p: PartialPacketId, cur: PartialPacketId)
    ensures var w := InReceiveWindow(cur, p.id);
            && (w.generation == p.generation <==> (p.Number() - cur.Number() + 32769) % 0x1_0000_0000_0000 < TURN)
            && (w.generation == p.generation ==>
                  (w.inside <==> (p.Number() - cur.Number()) % 0x1_0000_0000_0000 < RECEIVE_WINDOW))
  {
    AroundSpace(p.Number() - cur.Number() + 32769);
    AroundSpace(p.Number() - cur.Number());
    AroundGenerations(cur.generation + 1);
    AroundGenerations(cur.generation - 1);
    var limit := cur.id + RECEIVE_WINDOW;
    assert limit % 0x1_0000 == if limit >= TURN then limit - TURN else limit;
  }

  /** While the generation has not overflowed, the same without going round the space. */
  lemma WindowFindsGenerationEarly(s: nat, e: nat)
    requires s + TURN < SPACE && e + TURN < SPACE
    ensures var w := InReceiveWindow(OfNumber(e), OfNumber(s).id);
            && (w.generation == OfNumber(s).generation <==> -32769 <= s - e < RECEIVE_WINDOW)
            && (w.generation == OfNumber(s).generation ==> (w.inside <==> e <= s))
            && (!w.inside ==> s < e || s >= e + RECEIVE_WINDOW)
  {
    WindowFindsGeneration(s, e);
    AroundSpace(s - e + 32769);
    AroundSpace(s - e);
  }

  /** Whether finding the generation leaves its 32 bits: release builds wrap around, as
      `InReceiveWindow` does, and debug builds stop. */
  predicate GenerationOverflows(cur: PartialPacketId, id: u16) {
    var w := InReceiveWindow(cur, id);
    if w.inside then cur.id + RECEIVE_WINDOW >= TURN && id < w.limit && cur.generation == 0xffff_ffff
    else id >= cur.id && cur.generation == 0
  }

  /** That happens exactly for ids half a turn ahead in the first generation, and for ids of the
      next generation in the last. */
  lemma GenerationOverflowsExactly(cur: PartialPacketId, id: u16)
    ensures GenerationOverflows(cur, id)
            <==> || (cur.generation == 0 && id >= cur.id + RECEIVE_WINDOW)
                 || (cur.generation == 0xffff_ffff && id + TURN < cur.id + RECEIVE_WINDOW)
  {
    var limit := cur.id + RECEIVE_WINDOW;
    assert limit % 0x1_0000 == if limit >= TURN then limit - TURN else limit;
  }
}
