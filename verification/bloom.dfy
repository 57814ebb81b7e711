/** The built-in filter policy (util/bloom.cc): a Bloom filter with double hashing.  The hash is
    any function to 32-bit words. */
module BloomFilters {
  import opened Keys
  import opened Coding
  import opened FilterBlocks

  type Hash = Bytes -> U32

  // bits_per_key times the number of keys
  type Bits = nat -> nat

  // h rotated right by 17 bits: the upper 15 bits, and above them the lower 17
  function Delta(h: U32): U32 {
    h / 0x2_0000 + h % 0x2_0000 * 0x8000
  }

  function NextProbe(h: U32, delta: U32): U32 {
    (h + delta) % 0x1_0000_0000
  }

  // The number of bytes for n keys: 64 bits at least, rounded up to whole bytes.
  function SizeFor(n: nat, bits: Bits): (size: nat)
    ensures size >= 8
  {
    var least := if bits(n) < 64 then 64 else bits(n);
    (least + 7) / 8
  }

  // ------------------------------------------------------------------ bits

  // b >> i & 1
  predicate HasBit(b: nat, i: nat) {
    if i == 0 then b % 2 == 1 else HasBit(b / 2, i - 1)
  }

  // 1 << i
  function Bit(i: nat): (r: nat)
    ensures r > 0
  {
    PowerPositive(i);
    Power(2, i)
  }

  /** The bits of an or are those of both sides. */
  lemma {:induction false} OrBits(a: nat, b: nat, i: nat)
    ensures HasBit(Or(a, b), i) == (HasBit(a, i) || HasBit(b, i))
    decreases i
  {
    if a == 0 || b == 0 {
      NoBits(i);
    } else if i > 0 {
      OrBits(a / 2, b / 2, i - 1);
    }
  }

  lemma {:induction false} NoBits(i: nat)
    ensures !HasBit(0, i)
  {
    if i > 0 {
      NoBits(i - 1);
    }
  }

  lemma {:induction false} ItsBit(i: nat)
    ensures HasBit(Bit(i), i)
  {
    if i > 0 {
      ItsBit(i - 1);
      assert Bit(i) / 2 == Bit(i - 1);
    }
  }

  lemma BitFits(i: nat)
    requires i < 8
    ensures Bit(i) < 256 == Power(2, 8)
  {
    PowerMonotone(i, 7);
    assert Power(2, 8) == 2 * Power(2, 7);
    PowerSeven(7);
  }

  predicate TestBit(a: Bytes, pos: nat)
    requires pos < 8 * |a|
  {
    HasBit(a[pos / 8] as nat, pos % 8)
  }

  function SetBit(a: Bytes, pos: nat): (r: Bytes)
    requires pos < 8 * |a|
    ensures |r| == |a|
  {
    BitFits(pos % 8);
    OrBelow(a[pos / 8] as nat, Bit(pos % 8), 8);
    a[pos / 8 := Or(a[pos / 8] as nat, Bit(pos % 8)) as Byte]
  }

  lemma SetBitKeeps(a: Bytes, pos: nat, other: nat)
    requires pos < 8 * |a| && other < 8 * |a|
    ensures TestBit(SetBit(a, pos), pos)
    ensures TestBit(a, other) ==> TestBit(SetBit(a, pos), other)
  {
    OrBits(a[pos / 8] as nat, Bit(pos % 8), pos % 8);
    OrBits(a[pos / 8] as nat, Bit(pos % 8), other % 8);
    ItsBit(pos % 8);
    hide Or, HasBit, Bit;
  }

  lemma {:induction false} OnlyItsBit(i: nat, j: nat)
    requires i != j
    ensures !HasBit(Bit(i), j)
  {
    if i > 0 && j > 0 {
      OnlyItsBit(i - 1, j - 1);
      assert Bit(i) / 2 == Bit(i - 1);
    } else if i == 0 {
      NoBits(j - 1);
    }
  }

  lemma SetBitOnly(a: Bytes, pos: nat, other: nat)
    requires pos < 8 * |a| && other < 8 * |a|
    ensures TestBit(SetBit(a, pos), other) == (TestBit(a, other) || other == pos)
  {
    SetBitKeeps(a, pos, other);
    if other != pos && other / 8 == pos / 8 {
      OrBits(a[pos / 8] as nat, Bit(pos % 8), other % 8);
      OnlyItsBit(pos % 8, other % 8);
    }
    hide Or, HasBit, Bit;
  }

  // ------------------------------------------------------------------ filters

  // The k probes of a key, set.
  function SetProbes(a: Bytes, h: U32, delta: U32, k: nat): (r: Bytes)
    requires |a| > 0
    ensures |r| == |a|
    decreases k
  {
    if k == 0 then a else SetProbes(SetBit(a, h % (8 * |a|)), NextProbe(h, delta), delta, k - 1)
  }

  function SetKeys(hash: Hash, a: Bytes, keys: seq<Bytes>, k: nat): (r: Bytes)
    requires |a| > 0
    ensures |r| == |a|
    decreases |keys|
  {
    if |keys| == 0 then a
    else SetKeys(hash, SetProbes(a, hash(keys[0]), Delta(hash(keys[0])), k), keys[1..], k)
  }

  // CreateFilter: the bits, then the number of probes.
  function Create(hash: Hash, bits: Bits, k: nat, keys: seq<Bytes>): Bytes
    requires k <= 30
  {
    SetKeys(hash, seq(SizeFor(|keys|, bits), i => 0 as Byte), keys, k) + [k as Byte]
  }

  // All probes of a key hit set bits.
  predicate Probes(a: Bytes, h: U32, delta: U32, k: nat)
    requires |a| > 0
    decreases k
  {
    k == 0 || (TestBit(a, h % (8 * |a|)) && Probes(a, NextProbe(h, delta), delta, k - 1))
  }

  // KeyMayMatch
  predicate MayMatch(hash: Hash, key: Bytes, filter: Bytes) {
    var n := |filter| - 1;
    n >= 1 && (filter[n] > 30 || Probes(filter[..n], hash(key), Delta(hash(key)), filter[n] as nat))
  }

  // "leveldb.BuiltinBloomFilter2"
  const NAME: Bytes :=
    [108, 101, 118, 101, 108, 100, 98, 46, 66, 117, 105, 108, 116, 105, 110, 66, 108, 111, 111, 109, 70, 105, 108, 116,
     101, 114, 50]

  function BloomPolicy(hash: Hash, bits: Bits, k: nat): Policy
    requires k <= 30
  {
    Policy(NAME, keys => Create(hash, bits, k, keys), (key, filter) => MayMatch(hash, key, filter))
  }

  // Every bit of a is set in b.
  ghost predicate Within(a: Bytes, b: Bytes) {
    |a| == |b| && forall pos :: 0 <= pos < 8 * |a| && TestBit(a, pos) ==> TestBit(b, pos)
  }

  lemma {:induction false} ProbesGrow(a: Bytes, b: Bytes, h: U32, delta: U32, k: nat)
    requires |a| > 0 && Within(a, b) && Probes(a, h, delta, k)
    ensures Probes(b, h, delta, k)
    decreases k
  {
    hide TestBit;
    if k > 0 {
      ProbesGrow(a, b, NextProbe(h, delta), delta, k - 1);
    }
  }

  lemma {:induction false} ProbesAreSet(a: Bytes, h: U32, delta: U32, k: nat)
    requires |a| > 0
    ensures Within(a, SetProbes(a, h, delta, k)) && Probes(SetProbes(a, h, delta, k), h, delta, k)
    decreases k
  {
    hide TestBit, SetBit;
    if k > 0 {
      var pos := h % (8 * |a|);
      var b := SetBit(a, pos);
      forall other | 0 <= other < 8 * |a| ensures TestBit(b, pos) && (TestBit(a, other) ==> TestBit(b, other)) {
        SetBitKeeps(a, pos, other);
      }
      ProbesAreSet(b, NextProbe(h, delta), delta, k - 1);
    }
  }

  lemma {:induction false} KeysAreSet(hash: Hash, a: Bytes, keys: seq<Bytes>, k: nat, i: nat)
    requires |a| > 0 && i < |keys|
    ensures Within(a, SetKeys(hash, a, keys, k))
    ensures Probes(SetKeys(hash, a, keys, k), hash(keys[i]), Delta(hash(keys[i])), k)
    decreases |keys|
  {
    hide TestBit, Probes, SetProbes, Delta;
    var h := hash(keys[0]);
    var b := SetProbes(a, h, Delta(h), k);
    ProbesAreSet(a, h, Delta(h), k);
    var rest := keys[1..];
    if |rest| > 0 {
      KeysAreSet(hash, b, rest, k, if i > 0 then i - 1 else 0);
      if i == 0 {
        ProbesGrow(b, SetKeys(hash, b, rest, k), h, Delta(h), k);
      }
    }
  }

  lemma MatchIsProbes(hash: Hash, key: Bytes, a: Bytes, k: nat)
    requires |a| > 0 && k <= 30
    ensures MayMatch(hash, key, a + [k as Byte]) == Probes(a, hash(key), Delta(hash(key)), k)
  {
    hide Probes, Delta;
    var filter := a + [k as Byte];
    assert filter[..|filter| - 1] == a;
  }

  /** A Bloom filter accepts every key it was made from, whatever the hash and the parameters:
      the contract that filter blocks rely on. */
  lemma BloomHasNoFalseNegatives(hash: Hash, bits: Bits, k: nat)
    requires k <= 30
    ensures NoFalseNegatives(BloomPolicy(hash, bits, k))
  {
    hide MayMatch, SetKeys, SizeFor, Probes, Delta;
    forall keys: seq<Bytes>, i: nat | i < |keys| ensures MayMatch(hash, keys[i], Create(hash, bits, k, keys)) {
      var zero := seq(SizeFor(|keys|, bits), i => 0 as Byte);
      KeysAreSet(hash, zero, keys, k, i);
      MatchIsProbes(hash, keys[i], SetKeys(hash, zero, keys, k), k);
    }
  }

  // ------------------------------------------------------------------ which keys are accepted

  // The k positions that a key is probed at.
  function Positions(h: U32, delta: U32, k: nat, size: nat): set<nat>
    requires size > 0
    decreases k
  {
    if k == 0 then {} else {h % size} + Positions(NextProbe(h, delta), delta, k - 1, size)
  }

  lemma {:induction false} ProbesSet(a: Bytes, h: U32, delta: U32, k: nat, pos: nat)
    requires |a| > 0 && pos < 8 * |a|
    ensures TestBit(SetProbes(a, h, delta, k), pos) == (TestBit(a, pos) || pos in Positions(h, delta, k, 8 * |a|))
    decreases k
  {
    hide TestBit, SetBit;
    if k > 0 {
      SetBitOnly(a, h % (8 * |a|), pos);
      ProbesSet(SetBit(a, h % (8 * |a|)), NextProbe(h, delta), delta, k - 1, pos);
    }
  }

  lemma {:induction false} KeysSet(hash: Hash, a: Bytes, keys: seq<Bytes>, k: nat, pos: nat)
    requires |a| > 0 && pos < 8 * |a|
    ensures TestBit(SetKeys(hash, a, keys, k), pos)
        == (TestBit(a, pos) || exists x :: x in keys && pos in Positions(hash(x), Delta(hash(x)), k, 8 * |a|))
    decreases |keys|
  {
    hide TestBit, SetProbes, Delta, Positions;
    if |keys| > 0 {
      var h := hash(keys[0]);
      assert forall x :: x in keys <==> x == keys[0] || x in keys[1..];
      ProbesSet(a, h, Delta(h), k, pos);
      KeysSet(hash, SetProbes(a, h, Delta(h), k), keys[1..], k, pos);
    }
  }

  lemma {:induction false} ProbesTested(a: Bytes, h: U32, delta: U32, k: nat)
    requires |a| > 0
    ensures forall pos :: pos in Positions(h, delta, k, 8 * |a|) ==> pos < 8 * |a|
    ensures Probes(a, h, delta, k) <==> forall pos :: pos in Positions(h, delta, k, 8 * |a|) ==> TestBit(a, pos)
    decreases k
  {
    hide TestBit;
    if k > 0 {
      ProbesTested(a, NextProbe(h, delta), delta, k - 1);
    }
  }

  /** A key is accepted exactly if each of its positions is one of a key that the filter was made
      from; so a filter of no keys accepts none. */
  lemma BloomIsExact(hash: Hash, bits: Bits, k: nat, keys: seq<Bytes>, key: Bytes)
    requires k <= 30
    ensures var size := 8 * SizeFor(|keys|, bits);
      BloomPolicy(hash, bits, k).mayMatch(key, BloomPolicy(hash, bits, k).create(keys))
      <==> forall pos :: pos in Positions(hash(key), Delta(hash(key)), k, size) ==>
             exists x :: x in keys && pos in Positions(hash(x), Delta(hash(x)), k, size)
  {
    hide TestBit, MayMatch, SetKeys, SizeFor, Probes, Delta, Positions;
    var zero := seq(SizeFor(|keys|, bits), i => 0 as Byte);
    var a := SetKeys(hash, zero, keys, k);
    MatchIsProbes(hash, key, a, k);
    ProbesTested(a, hash(key), Delta(hash(key)), k);
    forall pos | pos in Positions(hash(key), Delta(hash(key)), k, 8 * |a|)
      ensures TestBit(a, pos) <==> exists x :: x in keys && pos in Positions(hash(x), Delta(hash(x)), k, 8 * |a|) {
      NothingSet(|zero|, pos);
      KeysSet(hash, zero, keys, k, pos);
    }
  }

  lemma NothingSet(size: nat, pos: nat)
    requires pos < 8 * size
    ensures !TestBit(seq(size, i => 0 as Byte), pos)
  {
    NoBits(pos % 8);
  }

  // ------------------------------------------------------------------ the loops

  // One key of the loop of CreateFilter.
  method AddProbes(a: array<Byte>, hash: U32, k: nat)
    requires a.Length > 0
    modifies a
    ensures a[..] == SetProbes(old(a[..]), hash, Delta(hash), k)
  {
    hide SetBit, Delta;
    var h: U32, delta: U32 := hash, Delta(hash);
    for j := 0 to k
      invariant SetProbes(a[..], h, delta, k - j) == SetProbes(old(a[..]), hash, delta, k)
    {
      var bitpos := h % (8 * a.Length);
      SetOne(a, bitpos);
      h := NextProbe(h, delta);
    }
  }

  // array[bitpos / 8] |= 1 << (bitpos % 8)
  method SetOne(a: array<Byte>, bitpos: nat)
    requires bitpos < 8 * a.Length
    modifies a
    ensures a[..] == SetBit(old(a[..]), bitpos)
  {
    BitFits(bitpos % 8);
    OrBelow(a[bitpos / 8] as nat, Bit(bitpos % 8), 8);
    a[bitpos / 8] := Or(a[bitpos / 8] as nat, Bit(bitpos % 8)) as Byte;
  }

  method CreateFilter(hash: Hash, bits: Bits, k: nat, keys: seq<Bytes>) returns (filter: Bytes)
    requires k <= 30
    ensures filter == Create(hash, bits, k, keys)
  {
    hide SetProbes, Delta;
    var bytes := SizeFor(|keys|, bits);
    var a := new Byte[bytes](i => 0);
    ghost var zero := seq(bytes, i => 0 as Byte);
    assert a[..] == zero && keys[0..] == keys;
    for i := 0 to |keys|
      invariant SetKeys(hash, a[..], keys[i..], k) == SetKeys(hash, zero, keys, k)
    {
      assert keys[i..][0] == keys[i] && keys[i..][1..] == keys[i + 1..];
      AddProbes(a, hash(keys[i]), k);
    }
    filter := a[..] + [k as Byte];
  }

  method KeyMayMatch(hash: Hash, key: Bytes, filter: Bytes) returns (match_: bool)
    ensures match_ == MayMatch(hash, key, filter)
  {
    hide TestBit, Delta;
    if |filter| < 2 {
      return false;
    }
    var n := |filter| - 1;
    if filter[n] > 30 {
      return true;
    }
    var a, k := filter[..n], filter[n] as nat;
    var h: U32, delta: U32 := hash(key), Delta(hash(key));
    for j := 0 to k
      invariant Probes(a, h, delta, k - j) == Probes(a, hash(key), delta, k)
    {
      if !TestBit(a, h % (8 * n)) {
        return false;
      }
      h := NextProbe(h, delta);
    }
    match_ := true;
  }
}
