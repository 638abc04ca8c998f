/** License data: a version byte followed by blocks, each signing the next.  Byte positions count
    from the start of the whole data; a block is known by the position of its first byte. */
module Licenses {
  import opened BigEndian
  import opened Options
  import opened Words

  const TIMESTAMP_OFFSET: int := 0x50e2_2700
  const BLOCK_MIN_LEN: nat := 42
  const BLOCK_TYPE_OFFSET: nat := 33
  const BLOCK_NOT_VALID_BEFORE_OFFSET: nat := 34
  const BLOCK_NOT_VALID_AFTER_OFFSET: nat := 38
  const MAX_BLOCKS: nat := 8

  datatype BlockType = Intermediate | Website | Server | Code | Ts5Server | Ephemeral

  function TypeOf(b: u8): Option<BlockType> {
    if b == 0 then Some(Intermediate)
    else if b == 1 then Some(Website)
    else if b == 2 then Some(Server)
    else if b == 3 then Some(Code)
    else if b == 8 then Some(Ts5Server)
    else if b == 32 then Some(Ephemeral)
    else None
  }

  function TypeByte(t: BlockType): u8 {
    match t
    case Intermediate => 0
    case Website => 1
    case Server => 2
    case Code => 3
    case Ts5Server => 8
    case Ephemeral => 32
  }

  /** The time a block is valid, in seconds since the epoch. */
  datatype Span = Span(start: int, end: int)

  datatype Error =
    | UnsupportedVersion(version: u8)
    | TooManyBlocks
    | TooShort
    | WrongKeyKind(kind: u8)
    | UnknownBlockType(typ: u8)
    | NonterminatedString
    | Expired(span: Span)
    | Bounds(outer: Span, inner: Span)
    | NoSuchProperty
    | WrongPropertyType
    | WrongPropertyLength

  /** The properties of a block of version 5 are kept as offsets from the first one. */
  datatype License = License(len: nat, properties: seq<nat>)

  // ---------- Parsing one block ----------

  /** The first null byte from `i` on, or the end. */
  function Nul(data: Bytes, i: nat): (r: nat)
    requires i <= |data|
    ensures i <= r <= |data|
    decreases |data| - i
  {
    if i == |data| || data[i] == 0 then i else Nul(data, i + 1)
  }

  /** The offsets of `count` properties from `pos` on, and the end of the last. */
  function Properties(data: Bytes, first: nat, pos: nat, count: nat): (r: Result<(seq<nat>, nat), Error>)
    requires first <= pos <= |data|
    ensures r.Ok? ==> pos <= r.value.1 <= |data|
    decreases count
  {
    if count == 0 then Ok(([], pos))
    else if pos >= |data| || pos + 1 + data[pos] >= |data| then Err(TooShort)
    else
      var rest := Properties(data, first, pos + 1 + data[pos], count - 1);
      if rest.Err? then rest else Ok(([pos - first] + rest.value.0, rest.value.1))
  }

  /** A block ends after the null byte of its issuer, which is looked for from `i` on. */
  function UpToNul(data: Bytes, o: nat, i: nat): (r: Result<License, Error>)
    requires o + BLOCK_MIN_LEN <= i <= |data|
    ensures r.Ok? ==> BLOCK_MIN_LEN <= r.value.len <= |data| - o
  {
    var end := Nul(data, i);
    if end == |data| then Err(NonterminatedString) else Ok(License(end + 1 - o, []))
  }

  function BlockAt(data: Bytes, o: nat): (r: Result<License, Error>)
    requires o <= |data|
    ensures r.Ok? ==> BLOCK_MIN_LEN <= r.value.len <= |data| - o
  {
    var rest := |data| - o - BLOCK_MIN_LEN;
    if rest < 0 then Err(TooShort)
    else if data[o] != 0 then Err(WrongKeyKind(data[o]))
    else
      match TypeOf(data[o + BLOCK_TYPE_OFFSET])
      case Some(Intermediate) =>
        if rest < 5 then Err(TooShort) else UpToNul(data, o, o + BLOCK_MIN_LEN + 4)
      case Some(Server) =>
        if rest < 6 then Err(TooShort) else UpToNul(data, o, o + BLOCK_MIN_LEN + 5)
      case Some(Ts5Server) =>
        if rest < 2 then Err(TooShort)
        else
          var first := o + BLOCK_MIN_LEN + 2;
          var r := Properties(data, first, first, data[o + BLOCK_MIN_LEN + 1]);
          if r.Err? then Err(r.error) else Ok(License(r.value.1 - o, r.value.0))
      case Some(Ephemeral) => Ok(License(BLOCK_MIN_LEN, []))
      case _ => Err(UnknownBlockType(data[o + BLOCK_TYPE_OFFSET]))
  }

  function SpanAt(data: Bytes, o: nat): Span
    requires o + BLOCK_MIN_LEN <= |data|
  {
    Span(FromBe(data, o + BLOCK_NOT_VALID_BEFORE_OFFSET, 4) + TIMESTAMP_OFFSET,
         FromBe(data, o + BLOCK_NOT_VALID_AFTER_OFFSET, 4) + TIMESTAMP_OFFSET)
  }

  predicate ValidAt(span: Span, check: bool, now: int) {
    check ==> span.start <= now <= span.end
  }

  predicate Inside(span: Span, outer: Option<Span>) {
    outer.Some? ==> outer.value.start <= span.start && span.end <= outer.value.end
  }

  function ParseBlock(data: Bytes, o: nat, check: bool, now: int, bounds: Option<Span>)
    : (r: Result<(License, Span), Error>)
    requires o <= |data|
  {
    var block := BlockAt(data, o);
    if block.Err? then Err(block.error)
    else
      var span := SpanAt(data, o);
      if !ValidAt(span, check, now) then Err(Expired(span))
      else if !Inside(span, bounds) then Err(Bounds(bounds.value, span))
      else Ok((block.value, span))
  }

  // ---------- Reading the contents of a block ----------

  datatype Property = Unknown1(n: nat) | IssuerIs(text: Bytes) | MaxClientsIs(n: nat) | Unknown(id: u8, typ: u8)

  predicate IsNumber(data: Bytes, at: nat)
    requires at + 3 <= |data|
  {
    data[at] == 4 && data[at + 2] == 1 && (data[at + 1] == 1 || data[at + 1] == 3)
  }

  /** Reading the property stays inside the block, which ends at `end`. */
  predicate PropertyFits(data: Bytes, at: nat, end: nat) {
    && end <= |data| && at + 3 <= end && 3 <= data[at] && at + data[at] < end
    && (IsNumber(data, at) ==> at + 7 <= end)
  }

  /** A property: its length, id and type, and the content.  The length counts id and type, but a
      number is expected to have the length of its content alone. */
  function PropertyAt(data: Bytes, at: nat, end: nat): Result<Property, Error>
    requires PropertyFits(data, at, end)
  {
    var (len, id, typ) := (data[at], data[at + 1], data[at + 2]);
    if typ == 0 && data[at + len] != 0 then Err(NonterminatedString)
    else if (typ == 1 || typ == 3) && len != 4 then Err(WrongPropertyLength)
    else if (typ == 2 || typ == 4) && len != 8 then Err(WrongPropertyLength)
    else if id == 1 then if typ == 1 then Ok(Unknown1(FromBe(data, at + 3, 4))) else Err(WrongPropertyType)
    else if id == 2 then if typ == 0 then Ok(IssuerIs(data[at + 3..at + len])) else Err(WrongPropertyType)
    else if id == 3 then if typ == 1 then Ok(MaxClientsIs(FromBe(data, at + 3, 4))) else Err(WrongPropertyType)
    else Ok(Unknown(id, typ))
  }

  /** The two properties that matter. */
  lemma PropertyMeans(data: Bytes, at: nat, end: nat)
    requires PropertyFits(data, at, end)
    ensures var r := PropertyAt(data, at, end);
            var len, id, typ := data[at], data[at + 1], data[at + 2];
            && (r.Ok? && r.value.IssuerIs? <==> id == 2 && typ == 0 && data[at + len] == 0)
            && (r.Ok? && r.value.IssuerIs? ==> r.value.text == data[at + 3..at + len])
            && (r.Ok? && r.value.MaxClientsIs? <==> id == 3 && typ == 1 && len == 4)
            && (r.Ok? && r.value.MaxClientsIs? ==> r.value.n == FromBe(data, at + 3, 4))
  {
  }

  predicate AllFit(data: Bytes, first: nat, end: nat, offsets: seq<nat>) {
    forall i :: 0 <= i < |offsets| ==> PropertyFits(data, first + offsets[i], end)
  }

  /** The first property that is an issuer, without looking at errors in others. */
  function IssuerAmong(data: Bytes, first: nat, end: nat, offsets: seq<nat>): Result<Bytes, Error>
    requires AllFit(data, first, end, offsets)
  {
    if offsets == [] then Err(NoSuchProperty)
    else
      match PropertyAt(data, first + offsets[0], end)
      case Ok(IssuerIs(text)) => Ok(text)
      case _ => IssuerAmong(data, first, end, offsets[1..])
  }

  function MaxClientsAmong(data: Bytes, first: nat, end: nat, offsets: seq<nat>): Result<nat, Error>
    requires AllFit(data, first, end, offsets)
  {
    if offsets == [] then Err(NoSuchProperty)
    else
      match PropertyAt(data, first + offsets[0], end)
      case Ok(MaxClientsIs(n)) => Ok(n)
      case _ => MaxClientsAmong(data, first, end, offsets[1..])
  }

  predicate PropertiesFit(data: Bytes, o: nat, license: License) {
    AllFit(data, o + BLOCK_MIN_LEN + 2, o + license.len, license.properties)
  }

  /** The text between the fixed part of a block and its final null byte, or a property. */
  function Issuer(data: Bytes, o: nat, license: License): Result<Bytes, Error>
    requires o <= |data| && BlockAt(data, o) == Ok(license) && PropertiesFit(data, o, license)
  {
    match TypeOf(data[o + BLOCK_TYPE_OFFSET])
    case Some(Intermediate) => Ok(data[o + BLOCK_MIN_LEN + 4..o + license.len - 1])
    case Some(Server) => Ok(data[o + BLOCK_MIN_LEN + 5..o + license.len - 1])
    case Some(Ts5Server) => IssuerAmong(data, o + BLOCK_MIN_LEN + 2, o + license.len, license.properties)
    case _ => Err(NoSuchProperty)
  }

  function MaxClients(data: Bytes, o: nat, license: License): Result<nat, Error>
    requires o <= |data| && BlockAt(data, o) == Ok(license) && PropertiesFit(data, o, license)
  {
    match TypeOf(data[o + BLOCK_TYPE_OFFSET])
    case Some(Intermediate) => Ok(FromBe(data, o + BLOCK_MIN_LEN, 4))
    case Some(Server) => Ok(FromBe(data, o + BLOCK_MIN_LEN + 1, 4))
    case Some(Ts5Server) => MaxClientsAmong(data, o + BLOCK_MIN_LEN + 2, o + license.len, license.properties)
    case _ => Err(NoSuchProperty)
  }

  // ---------- Parsing all blocks ----------

  /** The blocks from `o` on, after those parsed before; `bounds` is the time of the last. */
  function ParseFrom(data: Bytes, o: nat, blocks: seq<License>, bounds: Option<Span>,
        check: bool, now: int): (r: Result<seq<License>, Error>)
    requires o <= |data|
    decreases |data| - o
  {
    if o == |data| then Ok(blocks)
    else if |blocks| >= MAX_BLOCKS then Err(TooManyBlocks)
    else
      var r := ParseBlock(data, o, check, now, bounds);
      if r.Err? then Err(r.error)
      else ParseFrom(data, o + r.value.0.len, blocks + [r.value.0], Some(r.value.1), check, now)
  }

  function Parse(data: Bytes, check: bool, now: int): Result<seq<License>, Error>
    requires data != []
  {
    if data[0] != 0 && data[0] != 1 then Err(UnsupportedVersion(data[0]))
    else ParseFrom(data, 1, [], None, check, now)
  }

  method ParseBlocks(data: Bytes, start: nat, first: seq<License>, outer: Option<Span>,
        check: bool, now: int) returns (r: Result<seq<License>, Error>)
    requires start <= |data|
    ensures r == ParseFrom(data, start, first, outer, check, now)
  {
    var blocks := first;
    var offset := start;
    var bounds := outer;
    while |data| > offset
      invariant offset <= |data|
      invariant ParseFrom(data, offset, blocks, bounds, check, now)
                == ParseFrom(data, start, first, outer, check, now)
      decreases |data| - offset
    {
      if |blocks| >= MAX_BLOCKS {
        return Err(TooManyBlocks);
      }
      var block := ParseBlock(data, offset, check, now, bounds);
      if block.Err? {
        return Err(block.error);
      }
      offset := offset + block.value.0.len;
      bounds := Some(block.value.1);
      blocks := blocks + [block.value.0];
    }
    r := Ok(blocks);
  }

  method ParseInternal(data: Bytes, check: bool, now: int) returns (r: Result<seq<License>, Error>)
    requires data != []
    ensures r == Parse(data, check, now)
  {
    if data[0] != 0 && data[0] != 1 {
      return Err(UnsupportedVersion(data[0]));
    }
    r := ParseBlocks(data, 1, [], None, check, now);
  }

  // ---------- What a successful parse means ----------

  /** Where block `k` starts. */
  function Start(blocks: seq<License>, k: nat): nat
    requires k <= |blocks|
  {
    if k == 0 then 1 else Start(blocks, k - 1) + blocks[k - 1].len
  }

  /** Block `k` is there, valid now and valid no longer than the one before. */
  predicate BlockOk(data: Bytes, blocks: seq<License>, k: nat, check: bool, now: int)
    requires k < |blocks|
  {
    var o := Start(blocks, k);
    && o <= |data| && BlockAt(data, o) == Ok(blocks[k])
    && ValidAt(SpanAt(data, o), check, now)
    && Inside(SpanAt(data, o), BoundsBefore(data, blocks, k))
  }

  /** The time of the block before block `k`. */
  function BoundsBefore(data: Bytes, blocks: seq<License>, k: nat): Option<Span>
    requires k <= |blocks|
  {
    if k > 0 && Start(blocks, k - 1) + BLOCK_MIN_LEN <= |data|
    then Some(SpanAt(data, Start(blocks, k - 1)))
    else None
  }

  lemma {:induction false} ParseFromExtends(data: Bytes, o: nat, blocks: seq<License>,
        bounds: Option<Span>, check: bool, now: int)
    requires o <= |data|
    ensures var r := ParseFrom(data, o, blocks, bounds, check, now);
            r.Ok? ==> blocks <= r.value && (o < |data| ==> |blocks| < |r.value|)
    decreases |data| - o
  {
    hide ParseBlock;
    if o < |data| && |blocks| < MAX_BLOCKS {
      ParseBlockAdvances(data, o, check, now, bounds);
      var r := ParseBlock(data, o, check, now, bounds);
      if r.Ok? {
        ParseFromExtends(data, o + r.value.0.len, blocks + [r.value.0], Some(r.value.1), check, now);
      }
    }
  }

  lemma ParseBlockAdvances(data: Bytes, o: nat, check: bool, now: int, bounds: Option<Span>)
    requires o <= |data|
    ensures var r := ParseBlock(data, o, check, now, bounds);
            r.Ok? ==> 0 < r.value.0.len <= |data| - o
  {
  }

  /** One step of the parser. */
  lemma NextBlockExactly(data: Bytes, blocks: seq<License>, k: nat, check: bool, now: int)
    requires k < |blocks| && Start(blocks, k) <= |data|
    ensures var r := ParseBlock(data, Start(blocks, k), check, now, BoundsBefore(data, blocks, k));
            r.Ok? && r.value.0 == blocks[k] <==> BlockOk(data, blocks, k, check, now)
    ensures BlockOk(data, blocks, k, check, now) ==>
              && Start(blocks, k) + BLOCK_MIN_LEN <= Start(blocks, k + 1) <= |data|
              && ParseBlock(data, Start(blocks, k), check, now, BoundsBefore(data, blocks, k)).value.1
                 == SpanAt(data, Start(blocks, k))
  {
    hide BlockAt, ValidAt, Inside, SpanAt;
  }

  lemma {:induction false} ParseFromExactly(data: Bytes, blocks: seq<License>, k: nat, check: bool, now: int)
    requires k <= |blocks| && k <= MAX_BLOCKS && Start(blocks, k) <= |data|
    requires k > 0 ==> Start(blocks, k - 1) + BLOCK_MIN_LEN <= |data|
    ensures ParseFrom(data, Start(blocks, k), blocks[..k], BoundsBefore(data, blocks, k), check, now) == Ok(blocks)
            <==> |blocks| <= MAX_BLOCKS && Start(blocks, |blocks|) == |data|
                 && forall j :: k <= j < |blocks| ==> BlockOk(data, blocks, j, check, now)
    decreases |blocks| - k
  {
    hide ParseBlock, BlockOk, BlockAt;
    var o := Start(blocks, k);
    var bounds := BoundsBefore(data, blocks, k);
    if k == |blocks| {
      assert blocks[..k] == blocks;
      ParseFromExtends(data, o, blocks, bounds, check, now);
    } else {
      NextBlockExactly(data, blocks, k, check, now);
      if o < |data| && k < MAX_BLOCKS {
        var r := ParseBlock(data, o, check, now, bounds);
        if r.Ok? {
          ParseBlockAdvances(data, o, check, now, bounds);
          ParseFromExtends(data, o + r.value.0.len, blocks[..k] + [r.value.0], Some(r.value.1), check, now);
          if r.value.0 == blocks[k] {
            assert blocks[..k] + [blocks[k]] == blocks[..k + 1];
            ParseFromExactly(data, blocks, k + 1, check, now);
          }
        }
      }
    }
  }

  /** Parsing yields these blocks exactly when there are at most eight, they tile the data, and each
      of them is valid and lies in the time of the one before. */
  lemma ParseExactly(data: Bytes, blocks: seq<License>, check: bool, now: int)
    requires data != []
    ensures Parse(data, check, now) == Ok(blocks)
            <==> data[0] <= 1 && |blocks| <= MAX_BLOCKS && Start(blocks, |blocks|) == |data|
                 && forall j :: 0 <= j < |blocks| ==> BlockOk(data, blocks, j, check, now)
  {
    ParseFromExactly(data, blocks, 0, check, now);
  }

  /** Each block of a parsed license is valid only while every earlier one is. */
  lemma {:induction false} TimesAreNested(data: Bytes, blocks: seq<License>, i: nat, j: nat, check: bool, now: int)
    requires data != [] && Parse(data, check, now) == Ok(blocks) && i <= j < |blocks|
    ensures Start(blocks, i) + BLOCK_MIN_LEN <= |data| && Start(blocks, j) + BLOCK_MIN_LEN <= |data|
    ensures Inside(SpanAt(data, Start(blocks, j)), Some(SpanAt(data, Start(blocks, i))))
    decreases j
  {
    hide Parse, BlockAt, SpanAt;
    ParseExactly(data, blocks, check, now);
    assert BlockOk(data, blocks, i, check, now) && BlockOk(data, blocks, j, check, now);
    if i < j {
      TimesAreNested(data, blocks, i, j - 1, check, now);
    }
  }

  // ---------- By positions ----------

  /** Each block of a parsed license starts no later than now and ends no earlier, if that was checked,
      and starts no earlier and ends no later than every block before it. */
  lemma ParsedIsValid(data: Bytes, blocks: seq<License>, i: nat, k: nat, check: bool, now: int)
    requires data != [] && Parse(data, check, now) == Ok(blocks) && i <= k < |blocks|
    ensures var o := Start(blocks, k);
            var before := Start(blocks, i);
            && o + 42 <= |data| && before + 42 <= |data|
            && (check ==> FromBe(data, o + 34, 4) + 0x50e2_2700 <= now)
            && (check ==> now <= FromBe(data, o + 38, 4) + 0x50e2_2700)
            && FromBe(data, before + 34, 4) <= FromBe(data, o + 34, 4)
            && FromBe(data, o + 38, 4) <= FromBe(data, before + 38, 4)
  {
    hide Parse, SpanAt, Start, FromBe;
    TimesAreNested(data, blocks, i, k, check, now);
    BlockIsValid(data, blocks, k, check, now);
    SpanByPosition(data, Start(blocks, k));
    SpanByPosition(data, Start(blocks, i));
  }

  lemma BlockIsValid(data: Bytes, blocks: seq<License>, k: nat, check: bool, now: int)
    requires data != [] && Parse(data, check, now) == Ok(blocks) && k < |blocks|
    ensures Start(blocks, k) + BLOCK_MIN_LEN <= |data| && ValidAt(SpanAt(data, Start(blocks, k)), check, now)
  {
    hide Parse, BlockAt, SpanAt, ValidAt, Inside, BoundsBefore;
    ParseExactly(data, blocks, check, now);
    assert BlockOk(data, blocks, k, check, now);
  }

  lemma SpanByPosition(data: Bytes, o: nat)
    requires o + 42 <= |data|
    ensures SpanAt(data, o) == Span(FromBe(data, o + 34, 4) + 0x50e2_2700, FromBe(data, o + 38, 4) + 0x50e2_2700)
  {
  }

  /** How the parser stops at a block. */
  lemma ParseStops(data: Bytes, o: nat, blocks: seq<License>, bounds: Option<Span>, check: bool, now: int)
    requires o < |data|
    ensures var r := ParseFrom(data, o, blocks, bounds, check, now);
            && (|blocks| >= 8 ==> r == Err(TooManyBlocks))
            && (|blocks| < 8 && BlockAt(data, o).Err? ==> r == Err(BlockAt(data, o).error))
            && (|blocks| < 8 && BlockAt(data, o).Ok? ==>
                  var start := FromBe(data, o + 34, 4) + 0x50e2_2700;
                  var end := FromBe(data, o + 38, 4) + 0x50e2_2700;
                  && (check && (now < start || end < now) ==> r == Err(Expired(Span(start, end))))
                  && ((check ==> start <= now <= end) && bounds.Some?
                      && (start < bounds.value.start || bounds.value.end < end) ==>
                        r == Err(Bounds(bounds.value, Span(start, end)))))
  {
    hide BlockAt, FromBe;
  }

  /** So an expired license is refused with its first block, and so are other versions. */
  lemma ExpiredIsRefused(data: Bytes, check: bool, now: int)
    requires data != []
    ensures data[0] > 1 ==> Parse(data, check, now) == Err(UnsupportedVersion(data[0]))
    ensures data[0] <= 1 && |data| > 1 && BlockAt(data, 1).Ok? && check ==>
              var start := FromBe(data, 35, 4) + 0x50e2_2700;
              var end := FromBe(data, 39, 4) + 0x50e2_2700;
              now < start || end < now ==> Parse(data, check, now) == Err(Expired(Span(start, end)))
    ensures data[0] <= 1 && |data| == 1 ==> Parse(data, check, now) == Ok([])
  {
    hide BlockAt, FromBe, ParseFrom;
    if |data| > 1 {
      ParseStops(data, 1, [], None, check, now);
    } else {
      NoBlocks(data, check, now);
    }
  }

  lemma NoBlocks(data: Bytes, check: bool, now: int)
    requires |data| == 1
    ensures ParseFrom(data, 1, [], None, check, now) == Ok([])
  {
  }

  /** Without the check the time does not matter. */
  lemma {:induction false} TimeIsIgnored(data: Bytes, o: nat, blocks: seq<License>, bounds: Option<Span>,
        now: int, later: int)
    requires o <= |data|
    ensures ParseFrom(data, o, blocks, bounds, false, now) == ParseFrom(data, o, blocks, bounds, false, later)
    decreases |data| - o
  {
    hide ParseBlock;
    if o < |data| && |blocks| < MAX_BLOCKS {
      SameUnchecked(data, o, now, later, bounds);
      var r := ParseBlock(data, o, false, now, bounds);
      if r.Ok? {
        ParseBlockAdvances(data, o, false, now, bounds);
        TimeIsIgnored(data, o + r.value.0.len, blocks + [r.value.0], Some(r.value.1), now, later);
      }
    }
  }

  lemma SameUnchecked(data: Bytes, o: nat, now: int, later: int, bounds: Option<Span>)
    requires o <= |data|
    ensures ParseBlock(data, o, false, now, bounds) == ParseBlock(data, o, false, later, bounds)
  {
    hide BlockAt, SpanAt;
  }

  lemma {:induction false} NulIsFirst(data: Bytes, i: nat)
    requires i <= |data|
    ensures forall k :: i <= k < Nul(data, i) ==> data[k] != 0
    ensures Nul(data, i) < |data| ==> data[Nul(data, i)] == 0
    decreases |data| - i
  {
    if i < |data| && data[i] != 0 {
      NulIsFirst(data, i + 1);
    }
  }

  /** What a block of at least 42 bytes is, by the bytes at fixed positions: its key kind, its type, and
      the null byte that ends it. */
  lemma BlockAtMeans(data: Bytes, o: nat)
    requires o <= |data|
    ensures var r := BlockAt(data, o);
            var n := |data| - o;
            && (n < 42 ==> r == Err(TooShort))
            && (n >= 42 && data[o] != 0 ==> r == Err(WrongKeyKind(data[o])))
            && (n >= 42 && data[o] == 0 ==>
                  var t := data[o + 33];
                  && (t == 32 ==> r == Ok(License(42, [])))
                  && (t !in {0, 2, 8, 32} ==> r == Err(UnknownBlockType(t)))
                  && (t in {0, 2, 8} && n < (if t == 0 then 47 else if t == 2 then 48 else 44) ==> r == Err(TooShort))
                  && (t == 0 && n >= 47 ==> EndsAtNul(data, o, o + 46, r))
                  && (t == 2 && n >= 48 ==> EndsAtNul(data, o, o + 47, r)))
  {
    hide Properties;
    if o + 46 <= |data| {
      NulIsFirst(data, o + 46);
    }
    if o + 47 <= |data| {
      NulIsFirst(data, o + 47);
    }
  }

  ghost predicate EndsAtNul(data: Bytes, o: nat, from: nat, r: Result<License, Error>) {
    match r
    case Ok(l) =>
      && l.properties == [] && from < o + l.len <= |data| && data[o + l.len - 1] == 0
      && forall k :: from <= k < o + l.len - 1 ==> data[k] != 0
    case Err(e) => e == NonterminatedString && forall k :: from <= k < |data| ==> data[k] != 0
  }

  /** Properties follow each other, each as long as its first byte says; the parser asks for one more byte
      after each of them. */
  lemma {:induction false} PropertiesFollow(data: Bytes, first: nat, pos: nat, count: nat)
    requires first <= pos <= |data|
    ensures match Properties(data, first, pos, count)
            case Ok(r) =>
              && |r.0| == count && (count == 0 ==> r.1 == pos) && (count > 0 ==> r.0[0] == pos - first)
              && (forall i :: 0 <= i < count ==> Follows(data, first, r.0, i, r.1))
            case Err(e) => e == TooShort
    decreases count
  {
    if count > 0 && pos < |data| && pos + 1 + data[pos] < |data| {
      PropertiesFollow(data, first, pos + 1 + data[pos], count - 1);
      var rest := Properties(data, first, pos + 1 + data[pos], count - 1);
      var r := Properties(data, first, pos, count);
      if rest.Ok? {
        forall i | 0 <= i < count
          ensures Follows(data, first, r.value.0, i, r.value.1)
        {
          assert i > 0 ==> Follows(data, first, rest.value.0, i - 1, r.value.1);
        }
      }
    }
  }

  /** The end of property `i` is the start of the next one, or of what follows the last. */
  ghost predicate Follows(data: Bytes, first: nat, offsets: seq<nat>, i: nat, end: nat)
    requires i < |offsets|
  {
    var at := first + offsets[i];
    && at < |data| && at + 1 + data[at] < |data|
    && at + 1 + data[at] == if i + 1 < |offsets| then first + offsets[i + 1] else end
  }

  // ---------- Adding blocks to a parsed license ----------

  lemma {:induction false} NulStays(data: Bytes, more: Bytes, i: nat)
    requires i <= |data| && Nul(data, i) < |data|
    ensures Nul(data + more, i) == Nul(data, i)
    decreases |data| - i
  {
    if data[i] != 0 {
      NulStays(data, more, i + 1);
    }
  }

  lemma {:induction false} PropertiesStay(data: Bytes, more: Bytes, first: nat, pos: nat, count: nat)
    requires first <= pos <= |data| && Properties(data, first, pos, count).Ok?
    ensures Properties(data + more, first, pos, count) == Properties(data, first, pos, count)
    decreases count
  {
    if count > 0 {
      PropertiesStay(data, more, first, pos + 1 + data[pos], count - 1);
    }
  }

  /** A block that was parsed is parsed again when more follows. */
  lemma BlockStays(data: Bytes, more: Bytes, o: nat)
    requires o <= |data| && BlockAt(data, o).Ok?
    ensures BlockAt(data + more, o) == BlockAt(data, o)
    ensures SpanAt(data + more, o) == SpanAt(data, o)
  {
    hide TypeOf, FromBe;
    FromBeStays(data, more, o + BLOCK_NOT_VALID_BEFORE_OFFSET, 4);
    FromBeStays(data, more, o + BLOCK_NOT_VALID_AFTER_OFFSET, 4);
    match TypeOf(data[o + BLOCK_TYPE_OFFSET])
    case Some(Intermediate) => NulStays(data, more, o + BLOCK_MIN_LEN + 4);
    case Some(Server) => NulStays(data, more, o + BLOCK_MIN_LEN + 5);
    case Some(Ts5Server) =>
      var first := o + BLOCK_MIN_LEN + 2;
      PropertiesStay(data, more, first, first, data[o + BLOCK_MIN_LEN + 1]);
    case _ =>
  }

  lemma ParseBlockStays(data: Bytes, more: Bytes, o: nat, check: bool, now: int, bounds: Option<Span>)
    requires o <= |data| && ParseBlock(data, o, check, now, bounds).Ok?
    ensures ParseBlock(data + more, o, check, now, bounds) == ParseBlock(data, o, check, now, bounds)
  {
    hide BlockAt, SpanAt;
    BlockStays(data, more, o);
  }

  /** The time of the last block, from which a builder goes on. */
  function LastBounds(data: Bytes, blocks: seq<License>): Option<Span> {
    BoundsBefore(data, blocks, |blocks|)
  }

  lemma {:induction false} ParseFromGoesOn(data: Bytes, more: Bytes, blocks: seq<License>, k: nat,
        check: bool, now: int)
    requires k <= |blocks| <= MAX_BLOCKS && Start(blocks, |blocks|) == |data|
    requires Start(blocks, k) <= |data| && (k > 0 ==> Start(blocks, k - 1) + BLOCK_MIN_LEN <= |data|)
    requires forall j :: k <= j < |blocks| ==> BlockOk(data, blocks, j, check, now)
    ensures ParseFrom(data + more, Start(blocks, k), blocks[..k], BoundsBefore(data, blocks, k), check, now)
            == ParseFrom(data + more, |data|, blocks, LastBounds(data, blocks), check, now)
    decreases |blocks| - k
  {
    hide ParseBlock, BlockAt, BlockOk, SpanAt;
    if k < |blocks| {
      var o := Start(blocks, k);
      var bounds := BoundsBefore(data, blocks, k);
      NextBlockExactly(data, blocks, k, check, now);
      ParseBlockStays(data, more, o, check, now, bounds);
      assert blocks[..k] + [blocks[k]] == blocks[..k + 1];
      ParseFromGoesOn(data, more, blocks, k + 1, check, now);
    } else {
      assert blocks[..k] == blocks;
    }
  }

  /** Building parses only the new blocks; that is as good as parsing all. */
  lemma BuildingIsParsing(data: Bytes, more: Bytes, blocks: seq<License>, check: bool, now: int)
    requires data != [] && Parse(data, check, now) == Ok(blocks)
    ensures ParseFrom(data + more, |data|, blocks, LastBounds(data, blocks), check, now)
            == Parse(data + more, check, now)
  {
    ParseExactly(data, blocks, check, now);
    ParseFromGoesOn(data, more, blocks, 0, check, now);
  }

  lemma LastBoundsAre(data: Bytes, more: Bytes, blocks: seq<License>, check: bool, now: int)
    requires data != [] && blocks != [] && Parse(data, check, now) == Ok(blocks)
    ensures var last := blocks[|blocks| - 1].len;
            && BLOCK_MIN_LEN <= last <= |data|
            && LastBounds(data, blocks) == Some(SpanAt(data + more, |data| - last))
  {
    hide BlockAt, Parse;
    ParseExactly(data, blocks, check, now);
    assert BlockOk(data, blocks, |blocks| - 1, check, now);
    BlockStays(data, more, |data| - blocks[|blocks| - 1].len);
  }

  lemma ParsedUnchecked(data: Bytes, blocks: seq<License>, check: bool, earlier: int, now: int)
    requires data != [] && Parse(data, check, earlier) == Ok(blocks)
    ensures Parse(data, false, now) == Ok(blocks)
  {
    hide Parse;
    ParseExactly(data, blocks, check, earlier);
    ParseExactly(data, blocks, false, now);
    assert forall j :: 0 <= j < |blocks| && BlockOk(data, blocks, j, check, earlier) ==>
        BlockOk(data, blocks, j, false, now);
  }

  /** Parses what was appended to a license of `len` bytes, parsed into `blocks` before. */
  method Build(data: Bytes, len: nat, blocks: seq<License>, now: int, ghost check: bool, ghost earlier: int)
    returns (r: Result<seq<License>, Error>)
    requires 0 < len <= |data| && Parse(data[..len], check, earlier) == Ok(blocks)
    ensures r == Parse(data, false, now)
  {
    hide Parse, ParseFrom, SpanAt, BoundsBefore;
    assert data == data[..len] + data[len..];
    ParsedUnchecked(data[..len], blocks, check, earlier, now);
    BuildingIsParsing(data[..len], data[len..], blocks, false, now);
    var bounds := None;
    if blocks != [] {
      LastBoundsAre(data[..len], data[len..], blocks, false, now);
      bounds := Some(SpanAt(data, len - blocks[|blocks| - 1].len));
    } else {
      NoBounds(data[..len]);
    }
    r := ParseBlocks(data, len, blocks, bounds, false, now);
  }

  lemma NoBounds(data: Bytes)
    ensures LastBounds(data, []) == None
  {
  }

  // ---------- What a builder lays out ----------

  datatype OutProperty = OutProperty(id: u8, typ: u8, content: Bytes)

  datatype Fields = Fields(
    typ: BlockType,
    key: Bytes,
    before: u32,
    after: u32,
    licenseType: u8,
    maxClients: u32,
    issuer: Bytes,
    properties: seq<OutProperty>)

  predicate NoNul(text: Bytes) {
    forall i :: 0 <= i < |text| ==> text[i] != 0
  }

  /** A property the builder writes: max clients or an issuer. */
  predicate Built(p: OutProperty) {
    || (p.id == 3 && p.typ == 1 && |p.content| == 4)
    || (p.id == 2 && p.typ == 0 && 1 <= |p.content| <= 255
        && p.content[|p.content| - 1] == 0 && NoNul(p.content[..|p.content| - 1]))
  }

  predicate AllBuilt(ps: seq<OutProperty>) {
    forall i :: 0 <= i < |ps| ==> Built(ps[i])
  }

  predicate AllShort(ps: seq<OutProperty>) {
    forall i :: 0 <= i < |ps| ==> Short(ps[i])
  }

  predicate Legal(f: Fields) {
    |f.key| == 32 && NoNul(f.issuer) && AllBuilt(f.properties)
  }

  /** The length of the property fits into its byte, where the program cuts it off. */
  predicate Short(p: OutProperty) {
    |p.content| + 2 < 0x100
  }

  /** Neither the count of the properties nor a length is cut off. */
  predicate Sized(f: Fields) {
    |f.properties| < 0x100 && AllShort(f.properties)
  }

  predicate AllSized(fields: seq<Fields>) {
    forall i :: 0 <= i < |fields| ==> Sized(fields[i])
  }

  function PropertyBytes(p: OutProperty): Bytes {
    [(|p.content| + 2) % 0x100] + ([p.id] + ([p.typ] + p.content))
  }

  function PropertiesBytes(ps: seq<OutProperty>): Bytes {
    if ps == [] then [] else PropertyBytes(ps[0]) + PropertiesBytes(ps[1..])
  }

  function Head(f: Fields): (r: Bytes)
    ensures |f.key| == 32 ==> |r| == BLOCK_MIN_LEN
  {
    [0] + f.key + [TypeByte(f.typ)] + Be(f.before, 4) + Be(f.after, 4)
  }

  /** What comes before the issuer. */
  function Fixed(f: Fields): Bytes {
    if f.typ == Intermediate then Be(f.maxClients, 4) else [f.licenseType] + Be(f.maxClients, 4)
  }

  predicate HasIssuer(t: BlockType) {
    t == Intermediate || t == Server
  }

  function Content(f: Fields): Bytes {
    if HasIssuer(f.typ) then Fixed(f) + f.issuer + [0]
    else if f.typ == Ts5Server then [f.licenseType] + ([|f.properties| % 0x100] + PropertiesBytes(f.properties))
    else if f.typ == Ephemeral then []
    else [0]
  }

  function Layout(f: Fields): Bytes {
    Head(f) + Content(f)
  }

  function SpanOf(f: Fields): Span {
    Span(f.before + TIMESTAMP_OFFSET, f.after + TIMESTAMP_OFFSET)
  }

  /** Where properties start, the first one at `from`. */
  function Offsets(ps: seq<OutProperty>, from: nat): (r: seq<nat>)
    ensures |r| == |ps|
  {
    if ps == [] then [] else [from] + Offsets(ps[1..], from + |PropertyBytes(ps[0])|)
  }

  function BlockOf(f: Fields): License {
    License(|Layout(f)|, if f.typ == Ts5Server then Offsets(f.properties, 0) else [])
  }

  /** The parser knows the type, and a last property is followed by more data. */
  predicate Readable(f: Fields, more: bool) {
    f.typ != Website && f.typ != Code && (f.typ == Ts5Server && f.properties != [] ==> more)
  }

  function IssuerIn(ps: seq<OutProperty>): Result<Bytes, Error> {
    if ps == [] then Err(NoSuchProperty)
    else if ps[0].id == 2 && ps[0].content != [] then Ok(ps[0].content[..|ps[0].content| - 1])
    else IssuerIn(ps[1..])
  }

  function IssuerOf(f: Fields): Result<Bytes, Error> {
    if HasIssuer(f.typ) then Ok(f.issuer)
    else if f.typ == Ts5Server then IssuerIn(f.properties)
    else Err(NoSuchProperty)
  }

  /** Max clients of a block of version 5 are never found. */
  function MaxClientsOf(f: Fields): Result<nat, Error> {
    if HasIssuer(f.typ) then Ok(f.maxClients) else Err(NoSuchProperty)
  }

  // ---------- Properties ----------

  lemma ByteIsRead(data: Bytes, o: nat, b: u8, rest: Bytes)
    requires At(data, o, [b] + rest)
    ensures o < |data| && data[o] == b && At(data, o + 1, rest)
  {
    AtParts(data, o, [b], rest);
    ByteAt(data, o, b);
  }

  lemma PropertyIsRead(data: Bytes, at: nat, end: nat, p: OutProperty)
    requires At(data, at, PropertyBytes(p)) && Built(p) && Short(p) && at + |PropertyBytes(p)| <= end <= |data|
    ensures |PropertyBytes(p)| == |p.content| + 3 && data[at] == |p.content| + 2
    ensures PropertyFits(data, at, end)
    ensures PropertyAt(data, at, end)
            == if p.id == 2 then Ok(IssuerIs(p.content[..|p.content| - 1])) else Err(WrongPropertyLength)
  {
    hide At;
    var len: u8 := (|p.content| + 2) % 0x100;
    ByteIsRead(data, at, len, [p.id] + ([p.typ] + p.content));
    ByteIsRead(data, at + 1, p.id, [p.typ] + p.content);
    ByteIsRead(data, at + 2, p.typ, p.content);
    TextAt(data, at + 3, p.content);
  }

  lemma TextAt(data: Bytes, o: nat, text: Bytes)
    requires At(data, o, text)
    ensures o + |text| <= |data|
    ensures text != [] ==> data[o + |text| - 1] == text[|text| - 1] && data[o..o + |text| - 1] == text[..|text| - 1]
  {
    if text != [] {
      assert data[o + |text| - 1] == data[o..o + |text|][|text| - 1];
      assert data[o..o + |text| - 1] == data[o..o + |text|][..|text| - 1];
    }
  }

  /** The parser finds the properties, if more data follows. */
  lemma {:induction false} PropertiesAreRead(data: Bytes, first: nat, pos: nat, ps: seq<OutProperty>)
    requires first <= pos && At(data, pos, PropertiesBytes(ps)) && AllBuilt(ps) && AllShort(ps)
    ensures pos + |PropertiesBytes(ps)| <= |data|
    ensures Properties(data, first, pos, |ps|)
            == if ps == [] || pos + |PropertiesBytes(ps)| < |data|
               then Ok((Offsets(ps, pos - first), pos + |PropertiesBytes(ps)|)) else Err(TooShort)
    decreases |ps|
  {
    hide At, Built, PropertyBytes;
    AtFits(data, pos, PropertiesBytes(ps));
    if ps != [] {
      AtParts(data, pos, PropertyBytes(ps[0]), PropertiesBytes(ps[1..]));
      AtFits(data, pos, PropertyBytes(ps[0]));
      PropertyIsRead(data, pos, |data|, ps[0]);
      PropertiesAreRead(data, first, pos + |PropertyBytes(ps[0])|, ps[1..]);
      if ps[1..] != [] {
        PropertyIsLong(ps[1]);
      }
    }
  }

  lemma PropertyIsLong(p: OutProperty)
    ensures |PropertyBytes(p)| > 0
  {
  }

  lemma BuiltFirst(ps: seq<OutProperty>)
    requires AllBuilt(ps) && AllShort(ps) && ps != []
    ensures Built(ps[0]) && AllBuilt(ps[1..]) && Short(ps[0]) && AllShort(ps[1..])
    ensures ps[0].id == 2 || ps[0].id == 3
    ensures ps[0].id == 2 ==> ps[0].content != []
  {
  }

  /** The accessors find the first issuer, and never max clients. */
  lemma {:induction false} PropertiesAreFound(data: Bytes, first: nat, end: nat, from: nat, ps: seq<OutProperty>)
    requires At(data, first + from, PropertiesBytes(ps)) && AllBuilt(ps) && AllShort(ps)
    requires first + from + |PropertiesBytes(ps)| <= end <= |data|
    ensures AllFit(data, first, end, Offsets(ps, from))
    ensures IssuerAmong(data, first, end, Offsets(ps, from)) == IssuerIn(ps)
    ensures MaxClientsAmong(data, first, end, Offsets(ps, from)) == Err(NoSuchProperty)
    decreases |ps|
  {
    hide At, PropertyBytes, PropertyFits, PropertyAt, AllFit, Built, AllBuilt;
    if ps == [] {
      NothingToFit(data, first, end);
    } else {
      BuiltFirst(ps);
      AtParts(data, first + from, PropertyBytes(ps[0]), PropertiesBytes(ps[1..]));
      PropertyIsRead(data, first + from, end, ps[0]);
      PropertiesAreFound(data, first, end, from + |PropertyBytes(ps[0])|, ps[1..]);
      var offsets := Offsets(ps, from);
      assert offsets[0] == from && offsets[1..] == Offsets(ps[1..], from + |PropertyBytes(ps[0])|);
      AllFitFirst(data, first, end, offsets);
    }
  }

  lemma AllFitFirst(data: Bytes, first: nat, end: nat, offsets: seq<nat>)
    requires offsets != [] && PropertyFits(data, first + offsets[0], end) && AllFit(data, first, end, offsets[1..])
    ensures AllFit(data, first, end, offsets)
  {
    hide PropertyFits;
    forall i | 0 <= i < |offsets|
      ensures PropertyFits(data, first + offsets[i], end)
    {
      assert i > 0 ==> offsets[i] == offsets[1..][i - 1];
    }
  }

  lemma {:induction false} NulAt(data: Bytes, o: nat, text: Bytes, j: nat)
    requires At(data, o, text) && NoNul(text) && j <= |text|
    requires o + |text| < |data| && data[o + |text|] == 0
    ensures Nul(data, o + j) == o + |text|
    decreases |text| - j
  {
    if j < |text| {
      assert data[o + j] == data[o..o + |text|][j] == text[j];
      NulAt(data, o, text, j + 1);
    }
  }

  lemma EmptyProperties(f: Fields)
    ensures f.properties == [] ==> PropertiesBytes(f.properties) == []
  {
  }

  /** Where the bytes of a block are. */
  lemma LayoutMeans(f: Fields)
    requires Legal(f)
    ensures var d := Layout(f);
            && |d| >= 42 && d[0] == 0 && d[1..33] == f.key
            && d[33] == (match f.typ case Intermediate => 0 case Website => 1 case Server => 2 case Code => 3
                                     case Ts5Server => 8 case Ephemeral => 32)
            && FromBe(d, 34, 4) == f.before && FromBe(d, 38, 4) == f.after
            && (f.typ == Intermediate ==>
                  |d| == 47 + |f.issuer| && FromBe(d, 42, 4) == f.maxClients && d[46..] == f.issuer + [0])
            && (f.typ == Server ==>
                  && |d| == 48 + |f.issuer| && d[42] == f.licenseType && FromBe(d, 43, 4) == f.maxClients
                  && d[47..] == f.issuer + [0])
            && (f.typ == Ts5Server ==> |d| >= 44 && d[42] == f.licenseType && d[43] == |f.properties| % 0x100)
            && (f.typ == Ts5Server && f.properties == [] ==> d[42..] == [f.licenseType, 0])
            && (f.typ == Website || f.typ == Code ==> d[42..] == [0])
            && (f.typ == Ephemeral ==> |d| == 42)
  {
    hide FromBe, PropertiesBytes;
    EmptyProperties(f);
    var d := Layout(f);
    assert At(d, 0, Layout(f));
    AtParts(d, 0, Head(f), Content(f));
    HeadIsRead(d, 0, f);
    assert d == [0] + (f.key + ([TypeByte(f.typ)] + (Be(f.before, 4) + (Be(f.after, 4) + Content(f)))));
    assert d[1..33] == f.key;
    assert d[42..] == Content(f);
    if HasIssuer(f.typ) {
      Associative(Fixed(f), f.issuer, [0]);
      AtParts(d, 42, Fixed(f), f.issuer + [0]);
      FixedIsRead(d, 42, f);
    }
  }

  lemma HeadIsRead(data: Bytes, o: nat, f: Fields)
    requires At(data, o, Head(f)) && |f.key| == 32
    ensures o + BLOCK_MIN_LEN <= |data|
    ensures data[o] == 0 && TypeOf(data[o + BLOCK_TYPE_OFFSET]) == Some(f.typ)
    ensures SpanAt(data, o) == SpanOf(f)
  {
    hide At, Be, FromBe;
    AtParts(data, o, [0] + f.key + [TypeByte(f.typ)] + Be(f.before, 4), Be(f.after, 4));
    NumberAt(data, o + BLOCK_NOT_VALID_AFTER_OFFSET, f.after, 4);
    AtParts(data, o, [0] + f.key + [TypeByte(f.typ)], Be(f.before, 4));
    NumberAt(data, o + BLOCK_NOT_VALID_BEFORE_OFFSET, f.before, 4);
    AtParts(data, o, [0] + f.key, [TypeByte(f.typ)]);
    ByteAt(data, o + BLOCK_TYPE_OFFSET, TypeByte(f.typ));
    AtParts(data, o, [0], f.key);
    ByteAt(data, o, 0);
  }

  /** What the parser makes of a block that was laid out, before more data or at the end. */
  function Parsed(f: Fields, more: bool): Result<License, Error> {
    if f.typ == Website || f.typ == Code then Err(UnknownBlockType(TypeByte(f.typ)))
    else if Readable(f, more) then Ok(BlockOf(f))
    else Err(TooShort)
  }

  lemma ParsedExactly(f: Fields, more: bool)
    ensures Parsed(f, more).Ok? <==> Readable(f, more)
    ensures Readable(f, more) ==> Parsed(f, more) == Ok(BlockOf(f))
  {
  }

  /** What the parser and the accessors find where a block was laid out. */
  predicate Recovered(data: Bytes, o: nat, f: Fields)
    requires o + |Layout(f)| <= |data|
  {
    && o + BLOCK_MIN_LEN <= |data|
    && BlockAt(data, o) == Parsed(f, o + |Layout(f)| < |data|)
    && SpanAt(data, o) == SpanOf(f)
    && TypeOf(data[o + BLOCK_TYPE_OFFSET]) == Some(f.typ)
    && (BlockAt(data, o).Ok? ==>
          && PropertiesFit(data, o, BlockOf(f))
          && Issuer(data, o, BlockOf(f)) == IssuerOf(f)
          && MaxClients(data, o, BlockOf(f)) == MaxClientsOf(f))
  }

  lemma BlockIsRead(data: Bytes, o: nat, f: Fields)
    requires At(data, o, Layout(f)) && Legal(f) && Sized(f)
    ensures o + |Layout(f)| <= |data| && Recovered(data, o, f)
  {
    hide At, SpanAt, SpanOf, Head, Content, TypeOf, Recovered;
    AtFits(data, o, Layout(f));
    AtParts(data, o, Head(f), Content(f));
    HeadIsRead(data, o, f);
    if HasIssuer(f.typ) {
      IssuedIsRead(data, o, f);
    } else if f.typ == Ts5Server {
      Ts5IsRead(data, o, f);
    } else {
      ShortIsRead(data, o, f);
    }
  }

  /** The fixed part of a block was read. */
  predicate HeadRead(data: Bytes, o: nat, f: Fields) {
    && o + BLOCK_MIN_LEN <= |data|
    && data[o] == 0 && TypeOf(data[o + BLOCK_TYPE_OFFSET]) == Some(f.typ) && SpanAt(data, o) == SpanOf(f)
    && |Layout(f)| == BLOCK_MIN_LEN + |Content(f)|
    && At(data, o + BLOCK_MIN_LEN, Content(f))
  }

  lemma IssuedIsRead(data: Bytes, o: nat, f: Fields)
    requires HeadRead(data, o, f) && Legal(f) && HasIssuer(f.typ) && o + |Layout(f)| <= |data|
    ensures Recovered(data, o, f)
  {
    hide At, SpanAt, SpanOf, Nul, TypeOf, Content, Layout, FromBe, AllFit, IssuerAmong, MaxClientsAmong, Properties;
    ContentIsRead(data, o + BLOCK_MIN_LEN, f);
    NothingToFit(data, o + BLOCK_MIN_LEN + 2, o + |Layout(f)|);
  }

  lemma ShortIsRead(data: Bytes, o: nat, f: Fields)
    requires HeadRead(data, o, f) && !HasIssuer(f.typ) && f.typ != Ts5Server && o + |Layout(f)| <= |data|
    ensures Recovered(data, o, f)
  {
    hide At, SpanAt, SpanOf, Layout, AllFit, IssuerAmong, MaxClientsAmong, Properties;
    NothingToFit(data, o + BLOCK_MIN_LEN + 2, o + |Layout(f)|);
  }

  lemma NothingToFit(data: Bytes, first: nat, end: nat)
    ensures AllFit(data, first, end, [])
  {
  }

  lemma CountIsRead(data: Bytes, o: nat, f: Fields)
    requires At(data, o + BLOCK_MIN_LEN, Content(f)) && Sized(f) && f.typ == Ts5Server
    ensures |Content(f)| == 2 + |PropertiesBytes(f.properties)|
    ensures o + BLOCK_MIN_LEN + 1 < |data| && data[o + BLOCK_MIN_LEN + 1] == |f.properties|
    ensures At(data, o + BLOCK_MIN_LEN + 2, PropertiesBytes(f.properties))
  {
    hide At, PropertiesBytes;
    var c := o + BLOCK_MIN_LEN;
    var count: u8 := |f.properties| % 0x100;
    ByteIsRead(data, c, f.licenseType, [count] + PropertiesBytes(f.properties));
    ByteIsRead(data, c + 1, count, PropertiesBytes(f.properties));
  }

  lemma Ts5IsRead(data: Bytes, o: nat, f: Fields)
    requires HeadRead(data, o, f) && Legal(f) && Sized(f) && f.typ == Ts5Server && o + |Layout(f)| <= |data|
    ensures Recovered(data, o, f)
  {
    hide At, SpanAt, SpanOf, TypeOf, Content, Layout, PropertiesBytes, Offsets, Properties, FromBe, PropertyFits,
      AllFit, IssuerAmong, MaxClientsAmong, IssuerIn, AllBuilt, AllShort;
    CountIsRead(data, o, f);
    var first := o + BLOCK_MIN_LEN + 2;
    PropertiesAreRead(data, first, first, f.properties);
    PropertiesAreFound(data, first, first + |PropertiesBytes(f.properties)|, 0, f.properties);
  }

  /** When the count of 256 properties is cut off, the parser finds none of them and goes on in the
      middle of the block. */
  lemma CountIsCutOff(data: Bytes, o: nat, f: Fields)
    requires At(data, o, Layout(f)) && Legal(f) && f.typ == Ts5Server && |f.properties| % 0x100 == 0
    ensures o <= |data| && BlockAt(data, o) == Ok(License(BLOCK_MIN_LEN + 2, []))
    ensures f.properties != [] ==> |Layout(f)| > BLOCK_MIN_LEN + 2
  {
    hide At, Head, TypeOf, PropertiesBytes;
    var rest := PropertiesBytes(f.properties);
    AtFits(data, o, Layout(f));
    AtParts(data, o, Head(f), Content(f));
    HeadIsRead(data, o, f);
    ByteIsRead(data, o + BLOCK_MIN_LEN, f.licenseType, [0] + rest);
    ByteIsRead(data, o + BLOCK_MIN_LEN + 1, 0, rest);
    if f.properties != [] {
      PropertiesAreLong(f.properties);
    }
  }

  lemma PropertiesAreLong(ps: seq<OutProperty>)
    requires ps != []
    ensures |PropertiesBytes(ps)| > 0
  {
  }

  lemma IssuerIsRead(data: Bytes, i: nat, issuer: Bytes)
    requires At(data, i, issuer + [0]) && NoNul(issuer)
    ensures i + |issuer| < |data| && Nul(data, i) == i + |issuer| && data[i..i + |issuer|] == issuer
  {
    hide Nul;
    AtParts(data, i, issuer, [0]);
    ByteAt(data, i + |issuer|, 0);
    NulAt(data, i, issuer, 0);
  }

  lemma FixedIsRead(data: Bytes, c: nat, f: Fields)
    requires At(data, c, Fixed(f)) && HasIssuer(f.typ)
    ensures |Fixed(f)| == if f.typ == Intermediate then 4 else 5
    ensures FromBe(data, c + |Fixed(f)| - 4, 4) == f.maxClients
  {
    hide Be, FromBe, At;
    if f.typ == Intermediate {
      NumberAt(data, c, f.maxClients, 4);
      AtFits(data, c, Fixed(f));
    } else {
      AtParts(data, c, [f.licenseType], Be(f.maxClients, 4));
      NumberAt(data, c + 1, f.maxClients, 4);
      AtFits(data, c, Fixed(f));
    }
  }

  lemma ContentIsRead(data: Bytes, c: nat, f: Fields)
    requires At(data, c, Content(f)) && Legal(f) && HasIssuer(f.typ)
    ensures var i := c + |Fixed(f)|;
            && |Content(f)| == |Fixed(f)| + |f.issuer| + 1
            && c + |Content(f)| <= |data|
            && Nul(data, i) == i + |f.issuer|
            && data[i..i + |f.issuer|] == f.issuer
            && |Fixed(f)| == (if f.typ == Intermediate then 4 else 5)
            && FromBe(data, i - 4, 4) == f.maxClients
  {
    hide Fixed, FromBe, Nul, At;
    Associative(Fixed(f), f.issuer, [0]);
    AtFits(data, c, Content(f));
    AtParts(data, c, Fixed(f), f.issuer + [0]);
    FixedIsRead(data, c, f);
    IssuerIsRead(data, c + |Fixed(f)|, f.issuer);
  }

  function Laid(fields: seq<Fields>): Bytes {
    if fields == [] then [] else Laid(fields[..|fields| - 1]) + Layout(fields[|fields| - 1])
  }

  function BlocksOf(fields: seq<Fields>): (r: seq<License>)
    ensures |r| == |fields|
  {
    if fields == [] then [] else BlocksOf(fields[..|fields| - 1]) + [BlockOf(fields[|fields| - 1])]
  }

  predicate AllLegal(fields: seq<Fields>) {
    forall i :: 0 <= i < |fields| ==> Legal(fields[i])
  }

  /** The time a parser compares block `k` with. */
  function OuterOf(fields: seq<Fields>, k: nat, outer: Option<Span>): Option<Span>
    requires k <= |fields|
  {
    if k == 0 then outer else Some(SpanOf(fields[k - 1]))
  }

  predicate Accepted(fields: seq<Fields>, k: nat, outer: Option<Span>, check: bool, now: int)
    requires k < |fields|
  {
    && Readable(fields[k], k + 1 < |fields|)
    && ValidAt(SpanOf(fields[k]), check, now) && Inside(SpanOf(fields[k]), OuterOf(fields, k, outer))
  }

  lemma {:induction false} LaidAt(begin: Bytes, fields: seq<Fields>, k: nat)
    requires k < |fields|
    ensures At(begin + Laid(fields), |begin + Laid(fields[..k])|, Layout(fields[k]))
    ensures |Laid(fields[..k + 1])| == |Laid(fields[..k])| + |Layout(fields[k])| <= |Laid(fields)|
    decreases |fields|
  {
    hide Layout;
    var n := |fields| - 1;
    if k < n {
      assert fields[..n][..k] == fields[..k] && fields[..n][..k + 1] == fields[..k + 1];
      LaidAt(begin, fields[..n], k);
      assert begin + Laid(fields) == (begin + Laid(fields[..n])) + Layout(fields[n]);
    } else {
      assert fields[..k + 1] == fields;
      assert fields[..k + 1][..k] == fields[..k];
      assert begin + Laid(fields) == (begin + Laid(fields[..n])) + Layout(fields[n]);
    }
  }

  lemma LayoutIsLong(f: Fields)
    requires Legal(f)
    ensures |Layout(f)| >= BLOCK_MIN_LEN
  {
  }

  /** More data follows a block exactly if more blocks do. */
  lemma {:induction false} MoreFollows(fields: seq<Fields>, k: nat)
    requires AllLegal(fields) && k <= |fields|
    ensures |Laid(fields[..k])| <= |Laid(fields)|
    ensures |Laid(fields[..k])| < |Laid(fields)| <==> k < |fields|
    decreases |fields|
  {
    hide Layout, Legal;
    var n := |fields| - 1;
    if k < |fields| {
      assert Legal(fields[n]);
      LayoutIsLong(fields[n]);
      assert fields[..n][..k] == fields[..k];
      MoreFollows(fields[..n], k);
    } else {
      assert fields[..k] == fields;
    }
  }

  lemma ParseLaidBlock(begin: Bytes, fields: seq<Fields>, k: nat, outer: Option<Span>, check: bool, now: int)
    requires AllLegal(fields) && AllSized(fields) && k < |fields|
    ensures var data := begin + Laid(fields);
            var o := |begin + Laid(fields[..k])|;
            && o < |data|
            && ParseBlock(data, o, check, now, OuterOf(fields, k, outer)).Ok?
               == Accepted(fields, k, outer, check, now)
            && (Accepted(fields, k, outer, check, now) ==>
                  ParseBlock(data, o, check, now, OuterOf(fields, k, outer)).value
                  == (BlockOf(fields[k]), SpanOf(fields[k])))
  {
    hide At, Layout, BlockAt, SpanAt, SpanOf, ValidAt, Inside, Issuer, MaxClients, Legal, PropertiesFit, Laid,
      Readable, Parsed, BlockOf;
    LaidAt(begin, fields, k);
    MoreFollows(fields, k + 1);
    assert Legal(fields[k]) && Sized(fields[k]);
    LayoutIsLong(fields[k]);
    BlockIsRead(begin + Laid(fields), |begin + Laid(fields[..k])|, fields[k]);
    ParsedExactly(fields[k], k + 1 < |fields|);
  }

  lemma BlocksOfNext(first: seq<License>, fields: seq<Fields>, k: nat)
    requires k < |fields|
    ensures first + BlocksOf(fields[..k + 1]) == first + BlocksOf(fields[..k]) + [BlockOf(fields[k])]
  {
    hide BlockOf;
    assert fields[..k + 1][..k] == fields[..k];
  }

  lemma {:induction false} ParseLaidFrom(begin: Bytes, first: seq<License>, outer: Option<Span>,
        fields: seq<Fields>, k: nat, check: bool, now: int)
    requires AllLegal(fields) && AllSized(fields) && k <= |fields| && |first| + k <= MAX_BLOCKS
    ensures var data := begin + Laid(fields);
            var o := |begin + Laid(fields[..k])|;
            o <= |data| &&
            var r := ParseFrom(data, o, first + BlocksOf(fields[..k]), OuterOf(fields, k, outer), check, now);
            && (r.Ok? <==> |first| + |fields| <= MAX_BLOCKS
                           && forall j :: k <= j < |fields| ==> Accepted(fields, j, outer, check, now))
            && (r.Ok? ==> r.value == first + BlocksOf(fields))
    decreases |fields| - k
  {
    hide Accepted, ParseBlock, SpanOf, Layout, AllLegal, AllSized, Laid, BlocksOf, Offsets;
    if k == |fields| {
      assert fields[..k] == fields;
    } else {
      ParseLaidBlock(begin, fields, k, outer, check, now);
      if |first| + k < MAX_BLOCKS && Accepted(fields, k, outer, check, now) {
        LaidAt(begin, fields, k);
        BlocksOfNext(first, fields, k);
        ParseLaidFrom(begin, first, outer, fields, k + 1, check, now);
      }
    }
  }

  /** Whatever was built can be parsed exactly when there are no more than eight blocks, each of a
      type the parser knows, valid now and inside the time of the one before, and the last one has
      no properties of version 5; and then all fields are recovered but max clients of that
      version. */
  lemma BuildRoundTrip(begin: Bytes, first: seq<License>, outer: Option<Span>,
        fields: seq<Fields>, check: bool, now: int)
    requires AllLegal(fields) && AllSized(fields) && |first| <= MAX_BLOCKS
    ensures var r := ParseFrom(begin + Laid(fields), |begin|, first, outer, check, now);
            && (r.Ok? <==> |first| + |fields| <= MAX_BLOCKS
                           && forall j :: 0 <= j < |fields| ==> Accepted(fields, j, outer, check, now))
            && (r.Ok? ==> r.value == first + BlocksOf(fields))
    ensures forall k :: 0 <= k < |fields| ==>
              && |begin + Laid(fields[..k])| + |Layout(fields[k])| <= |begin + Laid(fields)|
              && Recovered(begin + Laid(fields), |begin + Laid(fields[..k])|, fields[k])
  {
    hide Accepted, Recovered, Layout;
    assert begin + Laid(fields[..0]) == begin;
    assert first + BlocksOf(fields[..0]) == first;
    ParseLaidFrom(begin, first, outer, fields, 0, check, now);
    forall k | 0 <= k < |fields|
      ensures |begin + Laid(fields[..k])| + |Layout(fields[k])| <= |begin + Laid(fields)|
      ensures Recovered(begin + Laid(fields), |begin + Laid(fields[..k])|, fields[k])
    {
      LaidAt(begin, fields, k);
      BlockIsRead(begin + Laid(fields), |begin + Laid(fields[..k])|, fields[k]);
    }
  }

  // ---------- The builder ----------

  function Zeros(n: nat): (r: Bytes)
    ensures |r| == n && forall i :: 0 <= i < n ==> r[i] == 0
  {
    seq(n, i => 0)
  }

  function MinLen(t: BlockType): nat {
    BLOCK_MIN_LEN +
    match t
    case Intermediate => 5
    case Website | Code => 1
    case Server => 6
    case Ts5Server => 2
    case Ephemeral => 0
  }

  function Blank(t: BlockType): Fields {
    Fields(t, Zeros(32), 0, 0, 0, 0, [], [])
  }

  /** Some bytes written over others. */
  function Overwritten(data: Bytes, o: nat, bytes: Bytes): (r: Bytes)
    requires o + |bytes| <= |data|
  {
    data[..o] + bytes + data[o + |bytes|..]
  }

  lemma OverwriteMiddle(a: Bytes, b: Bytes, c: Bytes, bytes: Bytes)
    requires |b| == |bytes|
    ensures Overwritten(a + b + c, |a|, bytes) == a + bytes + c
  {
    assert (a + b + c)[..|a|] == a;
    assert (a + b + c)[|a| + |b|..] == c;
  }

  /** Writing the time of a block, in seconds since the epoch: what does not fit is cut off. */
  function Stamp(time: int): u32 {
    (time - TIMESTAMP_OFFSET) % 0x1_0000_0000
  }

  /** A time is recovered exactly when it lies in the 136 years from the offset on. */
  lemma TimeIsRecoveredExactly(time: int)
    ensures Stamp(time) + TIMESTAMP_OFFSET == time
            <==> TIMESTAMP_OFFSET <= time < TIMESTAMP_OFFSET + 0x1_0000_0000
  {
  }

  lemma OverwriteLater(p: Bytes, l: Bytes, o: nat, bytes: Bytes)
    requires o + |bytes| <= |l|
    ensures Overwritten(p + l, |p| + o, bytes) == p + Overwritten(l, o, bytes)
  {
    assert (p + l)[..|p| + o] == p + l[..o];
    assert (p + l)[|p| + o + |bytes|..] == l[o + |bytes|..];
  }

  /** The blocks after the last one was changed. */
  function Relaid(built: seq<Fields>, f: Fields): seq<Fields>
    requires built != []
  {
    built[..|built| - 1] + [f]
  }

  lemma LaidWithLast(begin: Bytes, init: seq<Fields>, f: Fields)
    ensures begin + Laid(init + [f]) == (begin + Laid(init)) + Layout(f)
  {
    hide Layout;
    assert (init + [f])[..|init|] == init;
    Associative(begin, Laid(init), Layout(f));
  }

  /** Everything before the last block. */
  function Before(begin: Bytes, built: seq<Fields>): Bytes
    requires built != []
  {
    begin + Laid(built[..|built| - 1])
  }

  lemma LaidIsBeforeAndLast(begin: Bytes, built: seq<Fields>)
    requires built != []
    ensures begin + Laid(built) == Before(begin, built) + Layout(built[|built| - 1])
  {
    hide Layout, Laid;
    assert built == built[..|built| - 1] + [built[|built| - 1]];
    LaidWithLast(begin, built[..|built| - 1], built[|built| - 1]);
  }

  lemma RelaidIsLaid(begin: Bytes, built: seq<Fields>, f: Fields)
    requires built != []
    ensures begin + Laid(Relaid(built, f)) == Before(begin, built) + Layout(f)
    ensures Relaid(built, f)[..|built| - 1] == built[..|built| - 1]
  {
    hide Layout, Laid;
    LaidWithLast(begin, built[..|built| - 1], f);
  }

  lemma KeyWritten(f: Fields, key: Bytes)
    requires Legal(f) && |key| == 32
    ensures Layout(f.(key := key)) == Overwritten(Layout(f), 1, key)
  {
    hide Content, Be;
    var c := [TypeByte(f.typ)] + Be(f.before, 4) + Be(f.after, 4) + Content(f);
    assert Layout(f) == [0] + f.key + c;
    assert Content(f.(key := key)) == Content(f) by { SameContent(f, f.(key := key)); }
    assert Layout(f.(key := key)) == [0] + key + c;
    OverwriteMiddle([0], f.key, c, key);
  }

  lemma SameContent(f: Fields, g: Fields)
    requires f.typ == g.typ && f.licenseType == g.licenseType
    requires f.maxClients == g.maxClients && f.issuer == g.issuer && f.properties == g.properties
    ensures Content(f) == Content(g)
  {
  }

  lemma BeforeWritten(f: Fields, n: u32)
    requires Legal(f)
    ensures Layout(f.(before := n)) == Overwritten(Layout(f), BLOCK_NOT_VALID_BEFORE_OFFSET, Be(n, 4))
  {
    hide Content, Be;
    var a := [0] + f.key + [TypeByte(f.typ)];
    var c := Be(f.after, 4) + Content(f);
    assert Layout(f) == a + Be(f.before, 4) + c;
    SameContent(f, f.(before := n));
    assert Layout(f.(before := n)) == a + Be(n, 4) + c;
    OverwriteMiddle(a, Be(f.before, 4), c, Be(n, 4));
  }

  lemma AfterWritten(f: Fields, n: u32)
    requires Legal(f)
    ensures Layout(f.(after := n)) == Overwritten(Layout(f), BLOCK_NOT_VALID_AFTER_OFFSET, Be(n, 4))
  {
    hide Content, Be;
    var a := [0] + f.key + [TypeByte(f.typ)] + Be(f.before, 4);
    SameContent(f, f.(after := n));
    OverwriteMiddle(a, Be(f.after, 4), Content(f), Be(n, 4));
  }

  lemma Regrouped(h: Bytes, x: Bytes, m: Bytes, i: Bytes, z: Bytes)
    ensures h + (((x + m) + i) + z) == (h + x) + m + (i + z)
    ensures h + (((x + m) + i) + z) == h + x + ((m + i) + z)
  {
    Associative(x + m, i, z);
    Associative(h, x + m, i + z);
    Associative(h, x, m);
    Associative(m, i, z);
    Associative(h + x, m, i + z);
  }

  lemma LicenseTypeWritten(f: Fields, t: u8)
    requires Legal(f) && (f.typ == Server || f.typ == Ts5Server)
    ensures |Layout(f)| > BLOCK_MIN_LEN
    ensures Layout(f.(licenseType := t)) == Overwritten(Layout(f), BLOCK_MIN_LEN, [t])
  {
    hide Head, Be, Overwritten, Legal, PropertiesBytes;
    var g := f.(licenseType := t);
    SameHead(f, g);
    HeadLength(f);
    if f.typ == Server {
      Regrouped(Head(f), [f.licenseType], Be(f.maxClients, 4), f.issuer, [0]);
      Regrouped(Head(f), [t], Be(f.maxClients, 4), f.issuer, [0]);
      OverwriteMiddle(Head(f), [f.licenseType], Be(f.maxClients, 4) + f.issuer + [0], [t]);
    } else {
      var count: u8 := |f.properties| % 0x100;
      var c := [count] + PropertiesBytes(f.properties);
      Associative(Head(f), [f.licenseType], c);
      Associative(Head(f), [t], c);
      OverwriteMiddle(Head(f), [f.licenseType], c, [t]);
    }
  }

  lemma {:induction false} PropertiesAppend(ps: seq<OutProperty>, p: OutProperty)
    ensures PropertiesBytes(ps + [p]) == PropertiesBytes(ps) + PropertyBytes(p)
  {
    hide PropertyBytes;
    if ps == [] {
      assert [] + [p] == [p] && [p][1..] == [];
    } else {
      assert (ps + [p])[1..] == ps[1..] + [p] && (ps + [p])[0] == ps[0];
      PropertiesAppend(ps[1..], p);
      Associative(PropertyBytes(ps[0]), PropertiesBytes(ps[1..]), PropertyBytes(p));
    }
  }

  lemma CountIsThere(f: Fields)
    requires Legal(f) && f.typ == Ts5Server
    ensures BLOCK_MIN_LEN + 1 < |Layout(f)| && Layout(f)[BLOCK_MIN_LEN + 1] == |f.properties| % 0x100
  {
    hide Head, PropertiesBytes, AllBuilt, Built;
    HeadLength(f);
    assert Layout(f)[|Head(f)|..] == Content(f);
    assert Layout(f)[BLOCK_MIN_LEN + 1] == Content(f)[1];
  }

  lemma Ts5Layout(f: Fields)
    requires f.typ == Ts5Server
    ensures Layout(f) == Head(f) + ([f.licenseType] + ([|f.properties| % 0x100] + PropertiesBytes(f.properties)))
  {
  }

  /** A property is counted and appended. */
  lemma PropertyWritten(f: Fields, p: OutProperty)
    requires Legal(f) && f.typ == Ts5Server
    ensures BLOCK_MIN_LEN + 2 <= |Layout(f)|
    ensures Layout(f.(properties := f.properties + [p]))
            == Overwritten(Layout(f), BLOCK_MIN_LEN + 1, [(|f.properties| % 0x100 + 1) % 0x100]) + PropertyBytes(p)
  {
    hide Layout, Content, Head, Overwritten, Legal, PropertiesBytes, PropertyBytes;
    var g := f.(properties := f.properties + [p]);
    SameHead(f, g);
    HeadLength(f);
    Ts5Layout(f);
    Ts5Layout(g);
    PropertiesAppend(f.properties, p);
    CountRewritten(Head(f), f.licenseType, |f.properties| % 0x100, (|f.properties| % 0x100 + 1) % 0x100,
      PropertiesBytes(f.properties), PropertyBytes(p));
  }

  lemma CountRewritten(head: Bytes, t: u8, m: u8, n: u8, rest: Bytes, more: Bytes)
    ensures head + ([t] + ([n] + (rest + more))) == Overwritten(head + ([t] + ([m] + rest)), |head| + 1, [n]) + more
  {
    hide Overwritten;
    Associative(head, [t], [m] + rest);
    Associative(head + [t], [m], rest);
    OverwriteMiddle(head + [t], [m], rest, [n]);
    Associative(head, [t], [n] + (rest + more));
    Associative(head + [t], [n], rest + more);
    Associative(head + [t] + [n], rest, more);
  }

  lemma HeadLength(f: Fields)
    requires Legal(f)
    ensures |Head(f)| == BLOCK_MIN_LEN
  {
  }

  lemma SameHead(f: Fields, g: Fields)
    requires f.typ == g.typ && f.key == g.key && f.before == g.before && f.after == g.after
    ensures Head(f) == Head(g)
  {
  }

  lemma MaxClientsWritten(f: Fields, n: u32)
    requires Legal(f) && HasIssuer(f.typ)
    ensures Layout(f.(maxClients := n)) == Overwritten(Layout(f), BLOCK_MIN_LEN + |Fixed(f)| - 4, Be(n, 4))
  {
    hide Head, Be, Overwritten, Legal;
    var c := f.issuer + [0];
    SameHead(f, f.(maxClients := n));
    var x: Bytes := if f.typ == Intermediate then [] else [f.licenseType];
    assert f.typ == Intermediate ==> x + Be(f.maxClients, 4) == Be(f.maxClients, 4) && x + Be(n, 4) == Be(n, 4);
    Regrouped(Head(f), x, Be(f.maxClients, 4), f.issuer, [0]);
    Regrouped(Head(f), x, Be(n, 4), f.issuer, [0]);
    OverwriteMiddle(Head(f) + x, Be(f.maxClients, 4), c, Be(n, 4));
    HeadLength(f);
  }

  lemma PropertyKeepsLegal(f: Fields, p: OutProperty)
    requires Legal(f) && Built(p)
    ensures Legal(f.(properties := f.properties + [p]))
  {
  }

  lemma MaxClientsFit(f: Fields)
    requires Legal(f) && HasIssuer(f.typ)
    ensures |Fixed(f)| == (if f.typ == Intermediate then 4 else 5)
    ensures BLOCK_MIN_LEN + |Fixed(f)| <= |Layout(f)|
  {
  }

  lemma IssuerKeepsLegal(f: Fields, issuer: Bytes)
    requires Legal(f) && NoNul(issuer)
    ensures Legal(f.(issuer := issuer))
  {
  }

  lemma IssuerWritten(f: Fields, issuer: Bytes)
    requires Legal(f) && HasIssuer(f.typ) && f.issuer == []
    ensures Layout(f.(issuer := issuer))
            == Overwritten(Layout(f) + Zeros(|issuer|), |Layout(f)| - 1, issuer)
  {
    hide Head, Fixed;
    var n := |issuer|;
    var g := f.(issuer := issuer);
    SameHead(f, g);
    SameFixed(f, g);
    var a := Head(f) + Fixed(f);
    assert Layout(f) + Zeros(n) == a + Zeros(n) + [0];
    assert Layout(g) == a + issuer + [0];
    OverwriteMiddle(a, Zeros(n), [0], issuer);
  }

  lemma SameFixed(f: Fields, g: Fields)
    requires f.typ == g.typ && f.licenseType == g.licenseType && f.maxClients == g.maxClients
    ensures Fixed(f) == Fixed(g)
  {
  }

  lemma BlankLayout(t: BlockType)
    ensures Layout(Blank(t)) == Overwritten(Zeros(MinLen(t)), BLOCK_TYPE_OFFSET, [TypeByte(t)])
  {
    hide Zeros, TypeByte, Overwritten;
    NoNumber();
    assert Head(Blank(t)) == Zeros(BLOCK_TYPE_OFFSET) + [TypeByte(t)] + Zeros(8);
    assert Content(Blank(t)) == Zeros(MinLen(t) - BLOCK_MIN_LEN);
    OverwrittenZeros(MinLen(t) - BLOCK_MIN_LEN, TypeByte(t));
  }

  lemma OverwrittenZeros(n: nat, b: u8)
    ensures Overwritten(Zeros(BLOCK_MIN_LEN + n), BLOCK_TYPE_OFFSET, [b])
            == (Zeros(BLOCK_TYPE_OFFSET) + [b] + Zeros(8)) + Zeros(n)
  {
  }

  lemma NoNumber()
    ensures Be(0, 4) == Zeros(4)
  {
  }

  lemma BlankIsLegal(t: BlockType)
    ensures Legal(Blank(t)) && Blank(t).typ == t && BLOCK_MIN_LEN <= MinLen(t)
  {
  }

  lemma BlankLaid(begin: Bytes, built: seq<Fields>, t: BlockType)
    ensures var data := begin + Laid(built);
            Overwritten(data + Zeros(MinLen(t)), |data| + BLOCK_TYPE_OFFSET, [TypeByte(t)])
            == begin + Laid(built + [Blank(t)])
  {
    hide Layout, Laid, Overwritten, Blank, MinLen, TypeByte;
    BlankIsLegal(t);
    OverwriteLater(begin + Laid(built), Zeros(MinLen(t)), BLOCK_TYPE_OFFSET, [TypeByte(t)]);
    BlankLayout(t);
    LaidWithLast(begin, built, Blank(t));
  }

  lemma IssuerLaid(begin: Bytes, built: seq<Fields>, issuer: Bytes)
    requires built != []
    requires var f := built[|built| - 1];
             Legal(f) && HasIssuer(f.typ) && f.issuer == []
    ensures var data := begin + Laid(built);
            |data| > 0 && Overwritten(data + Zeros(|issuer|), |data| - 1, issuer)
            == begin + Laid(Relaid(built, built[|built| - 1].(issuer := issuer)))
  {
    hide Layout, Laid, Overwritten, Before, Relaid;
    var f := built[|built| - 1];
    var p := Before(begin, built);
    LaidIsBeforeAndLast(begin, built);
    RelaidIsLaid(begin, built, f.(issuer := issuer));
    LayoutIsLong(f);
    IssuerWritten(f, issuer);
    Associative(p, Layout(f), Zeros(|issuer|));
    OverwriteLater(p, Layout(f) + Zeros(|issuer|), |Layout(f)| - 1, issuer);
  }

  /** The builder of a license and of its last block; `built` are the blocks so far. */
  class LicenseBuilder {
    var data: Bytes
    var offset: nat
    var typ: BlockType
    ghost const begin: Bytes
    ghost var built: seq<Fields>

    ghost predicate Valid()
      reads this
    {
      && data == begin + Laid(built) && AllLegal(built)
      && (built != [] ==> offset == |Before(begin, built)| && typ == Current().typ)
    }

    ghost function Current(): Fields
      requires built != []
      reads this
    {
      built[|built| - 1]
    }

    constructor (data: Bytes)
      ensures Valid() && begin == data && built == []
    {
      this.data := data;
      begin := data;
      built := [];
      offset := |data|;
      typ := Ephemeral;
      assert data + Laid([]) == data;
    }

    method AddBlock(t: BlockType)
      requires Valid()
      modifies this
      ensures Valid() && built == old(built) + [Blank(t)]
    {
      hide Layout, Laid, Overwritten, Legal, Blank, MinLen, TypeByte;
      BlankIsLegal(t);
      var len := |data|;
      data := data + Zeros(MinLen(t));
      data := Overwritten(data, len + BLOCK_TYPE_OFFSET, [TypeByte(t)]);
      offset := len;
      typ := t;
      BlankLaid(begin, built, t);
      built := built + [Blank(t)];
      assert built[..|built| - 1] == old(built);
    }

    /** The data ends with the last block. */
    lemma LastBlockEnds()
      requires Valid() && built != []
      ensures offset + |Layout(Current())| == |data|
    {
      hide Layout, Laid, AllLegal, Before;
      LaidIsBeforeAndLast(begin, built);
    }

    /** Bytes are written into the last block. */
    method Write(o: nat, bytes: Bytes, ghost f: Fields)
      requires Valid() && built != [] && o + |bytes| <= |Layout(Current())|
      requires Legal(f) && f.typ == Current().typ && Layout(f) == Overwritten(Layout(Current()), o, bytes)
      modifies this
      ensures Valid() && built == Relaid(old(built), f)
    {
      hide Layout, Laid, Legal, Overwritten;
      LastBlockEnds();
      LaidIsBeforeAndLast(begin, built);
      RelaidIsLaid(begin, built, f);
      data := Overwritten(data, offset + o, bytes);
      OverwriteLater(Before(begin, built), Layout(Current()), o, bytes);
      built := Relaid(built, f);
    }

    method PublicKey(key: Bytes)
      requires Valid() && built != [] && |key| == 32
      modifies this
      ensures Valid() && built == Relaid(old(built), old(Current()).(key := key))
    {
      hide Layout, Overwritten;
      KeyWritten(Current(), key);
      LayoutIsLong(Current());
      Write(1, key, Current().(key := key));
    }

    method NotValidBefore(time: int)
      requires Valid() && built != []
      modifies this
      ensures Valid() && built == Relaid(old(built), old(Current()).(before := Stamp(time)))
    {
      hide Layout, Overwritten;
      BeforeWritten(Current(), Stamp(time));
      LayoutIsLong(Current());
      Write(BLOCK_NOT_VALID_BEFORE_OFFSET, Be(Stamp(time), 4), Current().(before := Stamp(time)));
    }

    method NotValidAfter(time: int)
      requires Valid() && built != []
      modifies this
      ensures Valid() && built == Relaid(old(built), old(Current()).(after := Stamp(time)))
    {
      hide Layout, Overwritten;
      AfterWritten(Current(), Stamp(time));
      LayoutIsLong(Current());
      Write(BLOCK_NOT_VALID_AFTER_OFFSET, Be(Stamp(time), 4), Current().(after := Stamp(time)));
    }

    method ServerLicenseType(t: u8)
      requires Valid() && built != [] && (typ == Server || typ == Ts5Server)
      modifies this
      ensures Valid() && built == Relaid(old(built), old(Current()).(licenseType := t))
    {
      hide Overwritten;
      LicenseTypeWritten(Current(), t);
      Write(BLOCK_MIN_LEN, [t], Current().(licenseType := t));
    }

    /** A property is appended to a block of version 5: the count goes up, and length, id, type and
        content follow. */
    method AddProperty(id: u8, propertyType: u8, content: Bytes)
      requires Valid() && built != [] && typ == Ts5Server && Built(OutProperty(id, propertyType, content))
      modifies this
      ensures Valid() && typ == old(typ)
      ensures built == Relaid(old(built), old(Current()).(
                properties := old(Current()).properties + [OutProperty(id, propertyType, content)]))
    {
      hide Layout, Laid, Overwritten, PropertyBytes, Built, Before;
      ghost var p := OutProperty(id, propertyType, content);
      ghost var f := Current().(properties := Current().properties + [p]);
      CurrentIsLegal();
      LastBlockEnds();
      LaidIsBeforeAndLast(begin, built);
      CountIsThere(Current());
      PropertyWritten(Current(), p);
      RelaidIsLaid(begin, built, f);
      assert data[offset + BLOCK_MIN_LEN + 1] == |Current().properties| % 0x100;
      var counted: int := data[offset + BLOCK_MIN_LEN + 1];
      var count: u8 := (counted + 1) % 0x100;
      OverwriteLater(Before(begin, built), Layout(Current()), BLOCK_MIN_LEN + 1, [count]);
      data := Overwritten(data, offset + BLOCK_MIN_LEN + 1, [count]);
      Associative(Before(begin, built), Overwritten(Layout(Current()), BLOCK_MIN_LEN + 1, [count]), PropertyBytes(p));
      data := data + PropertyBytes(OutProperty(id, propertyType, content));
      PropertyKeepsLegal(Current(), p);
      BeforeStays(begin, built, f);
      built := Relaid(built, f);
    }

    static lemma BeforeStays(begin: Bytes, built: seq<Fields>, f: Fields)
      requires built != []
      ensures Before(begin, Relaid(built, f)) == Before(begin, built)
    {
    }

    lemma CurrentIsLegal()
      requires Valid() && built != []
      ensures Legal(Current()) && Current().typ == typ
    {
    }

    method MaxClients(maxClients: u32)
      requires Valid() && built != [] && (HasIssuer(typ) || typ == Ts5Server)
      modifies this
      ensures Valid()
      ensures var f := old(Current());
              built == Relaid(old(built),
                if f.typ == Ts5Server then f.(properties := f.properties + [OutProperty(3, 1, Be(maxClients, 4))])
                else f.(maxClients := maxClients))
    {
      hide Overwritten, Be, Layout;
      if typ == Ts5Server {
        AddProperty(3, 1, Be(maxClients, 4));
        return;
      }
      CurrentIsLegal();
      MaxClientsWritten(Current(), maxClients);
      MaxClientsFit(Current());
      var o := BLOCK_MIN_LEN + if typ == Intermediate then 0 else 1;
      Write(o, Be(maxClients, 4), Current().(maxClients := maxClients));
    }

    lemma NoIssuerYet()
      requires Valid() && built != [] && HasIssuer(typ) && |data| - offset == MinLen(typ)
      ensures Legal(Current()) && Current().typ == typ && Current().issuer == []
    {
      hide Laid, Before;
      LastBlockEnds();
    }

    /** The issuer is written before the null byte that ends the block, once; in a block of version
        5 it is another property. */
    method WriteIssuer(issuer: Bytes)
      requires Valid() && built != [] && NoNul(issuer)
      requires || (HasIssuer(typ) && |data| - offset == MinLen(typ))
               || (typ == Ts5Server && |issuer| <= 254)
      modifies this
      ensures Valid()
      ensures var f := old(Current());
              built == Relaid(old(built),
                if f.typ == Ts5Server then f.(properties := f.properties + [OutProperty(2, 0, issuer + [0])])
                else f.(issuer := issuer))
    {
      hide Layout, Laid, Overwritten, Legal;
      if typ == Ts5Server {
        assert (issuer + [0])[..|issuer + [0]| - 1] == issuer;
        AddProperty(2, 0, issuer + [0]);
        return;
      }
      ghost var f := Current().(issuer := issuer);
      NoIssuerYet();
      IssuerKeepsLegal(Current(), issuer);
      IssuerLaid(begin, built, issuer);
      RelaidIsLaid(begin, built, f);
      var o := |data|;
      data := data + Zeros(|issuer|);
      data := Overwritten(data, o - 1, issuer);
      built := Relaid(built, f);
    }
  }
}
