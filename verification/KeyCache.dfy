/** The cache of encryption keys: one key and nonce per packet type and direction, for the
    generation used last.  The hash function is a parameter. */
module KeyCache {

  const NO_GENERATION: bv32 := 0xffff_ffff
  const TYPES: nat := 8

  type Key = k: seq<bv8> | |k| == 16 witness seq(16, i => 0)

  const ZERO: Key := seq(16, i => 0)

  /** Before the first use the generation is the largest one and the key is zero. */
  datatype CachedKey = CachedKey(generation: bv32, key: Key, nonce: Key)

  const FRESH: CachedKey := CachedKey(NO_GENERATION, ZERO, ZERO)

  /** The key of one packet: its id is mixed into the first two bytes. */
  function Mixed(key: Key, id: bv16): Key {
    var high := (id >> 8) as bv8;
    var low := (id & 0xff) as bv8;
    [key[0] ^ high, key[1] ^ low] + key[2..]
  }

  lemma XorIsInjective(a: bv8, b: bv8, x: bv8)
    ensures a ^ x == b ^ x ==> a == b
  {
  }

  /** Packets of one generation get different keys. */
  lemma KeysDiffer(key: Key, i: bv16, j: bv16)
    ensures Mixed(key, i) == Mixed(key, j) <==> i == j
  {
    if Mixed(key, i) == Mixed(key, j) {
      assert Mixed(key, i)[0] == Mixed(key, j)[0] && Mixed(key, i)[1] == Mixed(key, j)[1];
    }
  }

  lemma MixedParts(key: Key, id: bv16)
    ensures Mixed(key, id)[0] == key[0] ^ ((id >> 8) as bv8)
    ensures Mixed(key, id)[1] == key[1] ^ ((id & 0xff) as bv8)
    ensures Mixed(key, id)[2..] == key[2..]
  {
  }

  lemma SameParts(a: Key, b: Key)
    requires a[0] == b[0] && a[1] == b[1] && a[2..] == b[2..]
    ensures a == b
  {
    assert a == [a[0], a[1]] + a[2..] && b == [b[0], b[1]] + b[2..];
  }

  lemma MixedIsInjective(a: Key, b: Key, id: bv16)
    ensures Mixed(a, id) == Mixed(b, id) <==> a == b
  {
    hide Mixed;
    MixedParts(a, id);
    MixedParts(b, id);
    if Mixed(a, id) == Mixed(b, id) {
      XorIsInjective(a[0], b[0], (id >> 8) as bv8);
      XorIsInjective(a[1], b[1], (id & 0xff) as bv8);
      SameParts(a, b);
    }
  }

  /** The cache of one connection. */
  class KeyCache {
    /** The hash of direction, type and generation with the shared secret of the connection. */
    const digest: (bool, nat, bv32) -> (Key, Key)
    var slots: seq<seq<CachedKey>>
    /** The slots that were filled. */
    ghost var used: set<(nat, bool)>

    ghost predicate Valid()
      reads this
    {
      && |slots| == TYPES
      && (forall t :: 0 <= t < TYPES ==> |slots[t]| == 2)
      && (forall t, toServer :: 0 <= t < TYPES ==> SlotOk(t, toServer, slots[t][Index(toServer)]))
    }

    ghost predicate SlotOk(t: nat, toServer: bool, slot: CachedKey)
      reads this
    {
      if (t, toServer) in used then (slot.key, slot.nonce) == digest(toServer, t, slot.generation)
      else slot == FRESH
    }

    static function Index(toServer: bool): (i: nat)
      ensures i < 2
    {
      if toServer then 1 else 0
    }

    constructor (digest: (bool, nat, bv32) -> (Key, Key))
      ensures Valid() && used == {} && this.digest == digest
    {
      this.digest := digest;
      slots := seq(TYPES, i => [FRESH, FRESH]);
      used := {};
    }

    /** The key and nonce of a packet.  They are the derived ones, through every history of the
        cache, unless the slot is unused and the last generation is asked for: then they are
        zeros, which is right only if the hash is zero. */
    method CreateKeyNonce(t: nat, toServer: bool, id: bv16, generation: bv32) returns (key: Key, nonce: Key)
      requires Valid() && t < TYPES
      modifies this`slots, this`used
      ensures Valid()
      ensures var (k, n) := digest(toServer, t, generation);
              (key, nonce) == (Mixed(k, id), n)
              <==> (t, toServer) in old(used) || generation != NO_GENERATION || (k, n) == (ZERO, ZERO)
      ensures old(used) <= used
    {
      var i := Index(toServer);
      if slots[t][i].generation != generation {
        var (k, n) := digest(toServer, t, generation);
        slots := slots[t := slots[t][i := CachedKey(generation, k, n)]];
        used := used + {(t, toServer)};
      }
      var slot := slots[t][i];
      key, nonce := Mixed(slot.key, id), slot.nonce;
      MixedIsInjective(slot.key, digest(toServer, t, generation).0, id);
    }
  }
}
