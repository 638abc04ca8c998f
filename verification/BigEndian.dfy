/** Bytes at positions of a buffer, and numbers written with the most significant byte first. */
module BigEndian {
  import opened Words

  // ---------- Text at a position ----------

  predicate At(data: Bytes, o: nat, text: Bytes) {
    o + |text| <= |data| && data[o..o + |text|] == text
  }

  lemma Associative(a: Bytes, b: Bytes, c: Bytes)
    ensures a + (b + c) == (a + b) + c
  {
  }

  lemma AtFits(data: Bytes, o: nat, text: Bytes)
    requires At(data, o, text)
    ensures o + |text| <= |data|
  {
  }

  lemma AtParts(data: Bytes, o: nat, a: Bytes, b: Bytes)
    requires At(data, o, a + b)
    ensures At(data, o, a) && At(data, o + |a|, b)
  {
    assert data[o..o + |a|] == data[o..o + |a + b|][..|a|] == a;
    assert data[o + |a|..o + |a| + |b|] == data[o..o + |a + b|][|a|..] == b;
  }

  lemma ByteAt(data: Bytes, o: nat, b: u8)
    requires At(data, o, [b])
    ensures data[o] == b
  {
    assert data[o] == data[o..o + 1][0];
  }

  // ---------- Numbers ----------

  /** How many numbers fit into some bytes. */
  function Size(width: nat): nat {
    if width == 0 then 1 else 0x100 * Size(width - 1)
  }

  lemma Sizes()
    ensures Size(2) == 0x1_0000 && Size(4) == 0x1_0000_0000 && Size(8) == 0x1_0000_0000_0000_0000
  {
    assert Size(6) == 0x1_0000 * Size(4);
    assert Size(8) == 0x1_0000 * Size(6);
  }

  function Be(n: nat, width: nat): (r: Bytes)
    ensures |r| == width
  {
    if width == 0 then [] else Be(n / 0x100, width - 1) + [n % 0x100]
  }

  function FromBe(data: Bytes, o: nat, width: nat): (r: nat)
    requires o + width <= |data|
    ensures r < Size(width)
  {
    if width == 0 then 0 else FromBe(data, o, width - 1) * 0x100 + data[o + width - 1]
  }

  /** The first byte counts most. */
  lemma MostSignificantFirst(data: Bytes, o: nat)
    requires o + 4 <= |data|
    ensures var a: int, b: int, c: int, d: int := data[o], data[o + 1], data[o + 2], data[o + 3];
            && FromBe(data, o, 1) == a
            && FromBe(data, o, 2) == a * 0x100 + b
            && FromBe(data, o, 4) == a * 0x100_0000 + b * 0x1_0000 + c * 0x100 + d
  {
    assert FromBe(data, o, 3) == FromBe(data, o, 2) * 0x100 + data[o + 2];
    assert FromBe(data, o, 4) == FromBe(data, o, 3) * 0x100 + data[o + 3];
  }

  /** A number is read back where it was written, if it fits. */
  lemma {:induction false} NumberAt(data: Bytes, o: nat, n: nat, width: nat)
    requires At(data, o, Be(n, width)) && n < Size(width)
    ensures o + width <= |data| && FromBe(data, o, width) == n
  {
    if width > 0 {
      AtParts(data, o, Be(n / 0x100, width - 1), [n % 0x100]);
      ByteAt(data, o + width - 1, n % 0x100);
      NumberAt(data, o, n / 0x100, width - 1);
    }
  }

  lemma {:induction false} FromBeStays(data: Bytes, more: Bytes, o: nat, width: nat)
    requires o + width <= |data|
    ensures FromBe(data + more, o, width) == FromBe(data, o, width)
  {
    if width > 0 {
      FromBeStays(data, more, o, width - 1);
    }
  }

  /** And what was read as a number is written as the same bytes. */
  lemma {:induction false} BytesAreKept(data: Bytes, o: nat, width: nat)
    requires o + width <= |data|
    ensures Be(FromBe(data, o, width), width) == data[o..o + width]
  {
    if width > 0 {
      BytesAreKept(data, o, width - 1);
      var high, low: int := FromBe(data, o, width - 1), data[o + width - 1];
      assert (high * 0x100 + low) / 0x100 == high && (high * 0x100 + low) % 0x100 == low;
      assert data[o..o + width] == data[o..o + width - 1] + [data[o + width - 1]];
    }
  }
}
