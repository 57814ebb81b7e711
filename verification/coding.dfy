/** Fixed-width and variable-length integers (util/coding.h, util/coding.cc). */
module Coding {
  import opened Keys

  type U32 = x: nat | x < 0x1_0000_0000
  type U64 = x: nat | x < 0x1_0000_0000_0000_0000

  // What a parser makes of the front of its input, and what is left.
  datatype Read<T> = Failed | Got(value: T, rest: Bytes)

  function Power(base: nat, n: nat): nat {
    if n == 0 then 1 else base * Power(base, n - 1)
  }

  // EncodeFixed32 and EncodeFixed64: least significant byte first.
  function Fixed(n: nat, width: nat): (b: Bytes)
    ensures |b| == width
  {
    if width == 0 then [] else [(n % 256) as Byte] + Fixed(n / 256, width - 1)
  }

  // DecodeFixed32 and DecodeFixed64.
  function FromFixed(b: Bytes): nat {
    if |b| == 0 then 0 else b[0] as nat + 256 * FromFixed(b[1..])
  }

  // DecodeFixed32 of four bytes.
  function Decode32(b: Bytes): U32
    requires |b| == 4
  {
    assert FromFixed(b) == b[0] as nat + 256 * FromFixed(b[1..]);
    assert FromFixed(b[1..]) == b[1] as nat + 256 * FromFixed(b[1..][1..]);
    assert FromFixed(b[1..][1..]) == b[2] as nat + 256 * FromFixed(b[1..][1..][1..]);
    assert FromFixed(b[1..][1..][1..]) == b[3] as nat + 256 * FromFixed(b[1..][1..][1..][1..]);
    FromFixed(b)
  }

  lemma {:induction false} FixedRoundTrip(n: nat, width: nat)
    requires n < Power(256, width)
    ensures FromFixed(Fixed(n, width)) == n
  {
    if width > 0 {
      FixedRoundTrip(n / 256, width - 1);
      assert Fixed(n, width)[1..] == Fixed(n / 256, width - 1);
    }
  }

  lemma Fixed32RoundTrip(n: U32)
    ensures Decode32(Fixed(n, 4)) == n
  {
    assert Power(256, 4) == 0x1_0000_0000 by {
      assert Power(256, 2) == 65536;
    }
    FixedRoundTrip(n, 4);
  }

  lemma Fixed64RoundTrip(n: U64)
    ensures FromFixed(Fixed(n, 8)) == n
  {
    assert Power(256, 8) == 0x1_0000_0000_0000_0000 by {
      assert Power(256, 2) == 65536;
      assert Power(256, 4) == 0x1_0000_0000;
      assert Power(256, 6) == 0x1_0000_0000_0000;
    }
    FixedRoundTrip(n, 8);
  }

  // EncodeVarint32 and EncodeVarint64: seven bits a byte, the high bit says that more follow.
  function Varint(v: nat): (b: Bytes)
    ensures |b| >= 1
  {
    if v < 128 then [v as Byte] else [(v % 128 + 128) as Byte] + Varint(v / 128)
  }

  // GetVarint32Ptr (32 bits) and GetVarint64Ptr (64 bits): the value and the bytes it took.
  function ReadVarint(b: Bytes, bits: int): (r: Option<(nat, nat)>)
    ensures r.Some? ==> bits > 0 && r.value.0 < Power(2, bits) && 1 <= r.value.1 <= |b|
  {
    if bits <= 0 || |b| == 0 then None
    else
      PowerPositive(bits);
      if b[0] < 128 then Some((b[0] as nat % Power(2, bits), 1))
      else match ReadVarint(b[1..], bits - 7)
        case None => None
        case Some(r) => Some(((b[0] as nat - 128 + 128 * r.0) % Power(2, bits), r.1 + 1))
  }

  lemma {:induction false} PowerPositive(n: nat)
    ensures Power(2, n) > 0
  {
    if n > 0 {
      PowerPositive(n - 1);
    }
  }

  lemma PowerSeven(n: nat)
    requires n >= 7
    ensures Power(2, n) == 128 * Power(2, n - 7)
  {
    assert Power(2, n) == 2 * Power(2, n - 1);
    assert Power(2, n - 1) == 2 * Power(2, n - 2);
    assert Power(2, n - 2) == 2 * Power(2, n - 3);
    assert Power(2, n - 3) == 2 * Power(2, n - 4);
    assert Power(2, n - 4) == 2 * Power(2, n - 5);
    assert Power(2, n - 5) == 2 * Power(2, n - 6);
    assert Power(2, n - 6) == 2 * Power(2, n - 7);
  }

  lemma {:induction false} PowerMonotone(m: nat, n: nat)
    requires m <= n
    ensures Power(2, m) <= Power(2, n)
  {
    if m < n {
      PowerMonotone(m, n - 1);
    }
  }

  lemma {:induction false} VarintLength(v: nat, n: nat)
    requires v < Power(128, n) && n >= 1
    ensures |Varint(v)| <= n
  {
    if v >= 128 {
      assert n > 1 by {
        assert Power(128, 1) == 128 * Power(128, 0);
      }
      assert v / 128 < Power(128, n - 1) by {
        assert Power(128, n) == 128 * Power(128, n - 1);
      }
      VarintLength(v / 128, n - 1);
    }
  }

  lemma TenBytes(v: U64)
    ensures |Varint(v)| <= 10
  {
    assert Power(128, 2) == 0x4000;
    assert Power(128, 4) == 0x1000_0000;
    assert Power(128, 6) == 0x400_0000_0000;
    assert Power(128, 8) == 0x100_0000_0000_0000;
    assert Power(128, 10) == 0x40_0000_0000_0000_0000;
    VarintLength(v, 10);
  }

  /** Reading back a varint that fits gives the value and takes exactly its bytes. */
  lemma {:induction false} VarintRoundTrip(v: nat, tail: Bytes, bits: nat)
    requires bits > 0 && v < Power(2, bits)
    ensures ReadVarint(Varint(v) + tail, bits) == Some((v, |Varint(v)|))
  {
    if v < 128 {
      VarintLast(v, tail, bits);
    } else {
      Seven(v, bits);
      VarintRoundTrip(v / 128, tail, bits - 7);
      VarintStep(v, tail, bits);
    }
  }

  lemma Seven(v: nat, bits: nat)
    requires 128 <= v < Power(2, bits)
    ensures bits > 7 && Power(2, bits) == 128 * Power(2, bits - 7)
  {
    PowerSeven(7);
    if bits <= 7 {
      PowerMonotone(bits, 7);
    }
    PowerSeven(bits);
  }

  lemma VarintStep(v: nat, tail: Bytes, bits: nat)
    requires 128 <= v < Power(2, bits) && bits > 7
    requires ReadVarint(Varint(v / 128) + tail, bits - 7) == Some((v / 128, |Varint(v / 128)|))
    ensures ReadVarint(Varint(v) + tail, bits) == Some((v, |Varint(v)|))
  {
    var b := Varint(v) + tail;
    assert Varint(v) == [(v % 128 + 128) as Byte] + Varint(v / 128);
    hide Varint, Power;
    assert b[0] as nat == v % 128 + 128;
    assert b[1..] == Varint(v / 128) + tail;
    SmallRemainder(v, Power(2, bits));
  }

  lemma VarintLast(v: nat, tail: Bytes, bits: nat)
    requires v < 128 && bits > 0 && v < Power(2, bits)
    ensures ReadVarint(Varint(v) + tail, bits) == Some((v, |Varint(v)|))
  {
    assert Varint(v) == [v as Byte];
    hide Varint, Power;
    assert (Varint(v) + tail)[0] as nat == v;
    SmallRemainder(v, Power(2, bits));
  }

  lemma SmallRemainder(v: nat, m: nat)
    requires v < m
    ensures v % m == v
  {
  }

  lemma Power32()
    ensures Power(2, 32) == 0x1_0000_0000
  {
    PowerSeven(32);
    PowerSeven(25);
    PowerSeven(18);
    PowerSeven(11);
  }

  lemma Power64()
    ensures Power(2, 64) == 0x1_0000_0000_0000_0000
  {
    Power32();
    PowerSeven(60);
    PowerSeven(53);
    PowerSeven(46);
    PowerSeven(39);
    assert Power(2, 62) == 4 * Power(2, 60) by { assert Power(2, 61) == 2 * Power(2, 60); }
    assert Power(2, 64) == 4 * Power(2, 62) by { assert Power(2, 63) == 2 * Power(2, 62); }
  }

  lemma Varint32RoundTrip(v: U32, tail: Bytes)
    ensures ReadVarint(Varint(v) + tail, 32) == Some((v, |Varint(v)|))
  {
    Power32();
    VarintRoundTrip(v, tail, 32);
  }

  // PutFixed32 of each number, cut to 32 bits.
  function Words(ns: seq<nat>): (b: Bytes)
    ensures |b| == 4 * |ns|
  {
    if |ns| == 0 then [] else Words(ns[..|ns| - 1]) + Fixed(ns[|ns| - 1] % 0x1_0000_0000, 4)
  }

  lemma {:induction false} WordAt(ns: seq<nat>, i: nat)
    requires i < |ns| && ns[i] < 0x1_0000_0000
    ensures Words(ns)[4 * i..4 * i + 4] == Fixed(ns[i], 4) && Decode32(Words(ns)[4 * i..4 * i + 4]) == ns[i]
  {
    hide Decode32, Fixed, Words;
    Fixed32RoundTrip(ns[i]);
    var n := |ns| - 1;
    WordsStep(ns);
    FourOf(Words(ns[..n]), Fixed(ns[n] % 0x1_0000_0000, 4), i);
    if i < n {
      WordAt(ns[..n], i);
    }
  }

  lemma WordsStep(ns: seq<nat>)
    requires |ns| > 0
    ensures Words(ns) == Words(ns[..|ns| - 1]) + Fixed(ns[|ns| - 1] % 0x1_0000_0000, 4)
  {
    hide Fixed;
  }

  // Word i of some words and one more.
  lemma FourOf(a: Bytes, w: Bytes, i: nat)
    requires |w| == 4 && 4 * i <= |a|
    ensures 4 * i == |a| ==> (a + w)[4 * i..4 * i + 4] == w
    ensures 4 * i + 4 <= |a| ==> (a + w)[4 * i..4 * i + 4] == a[4 * i..4 * i + 4]
  {
  }

  lemma MiddleSlice(a: Bytes, b: Bytes, c: Bytes, i: nat, j: nat)
    requires i <= j <= |b|
    ensures (a + b + c)[|a| + i..|a| + j] == b[i..j]
  {
  }

  lemma NextWord(ns: seq<nat>, i: nat)
    requires i < |ns|
    ensures Words(ns[..i + 1]) == Words(ns[..i]) + Fixed(ns[i] % 0x1_0000_0000, 4)
  {
    assert ns[..i + 1][..i] == ns[..i];
  }

  lemma NoWords(ns: seq<nat>)
    ensures Words(ns[..0]) == []
  {
  }

  // Bitwise or.
  function Or(a: nat, b: nat): nat {
    if a == 0 then b else if b == 0 then a
    else (if a % 2 == 1 || b % 2 == 1 then 1 else 0) + 2 * Or(a / 2, b / 2)
  }

  lemma {:induction false} OrBelow(a: nat, b: nat, k: nat)
    requires a < Power(2, k) && b < Power(2, k)
    ensures Or(a, b) < Power(2, k)
    decreases k
  {
    if a > 0 && b > 0 {
      assert Power(2, k) == 2 * Power(2, k - 1);
      OrBelow(a / 2, b / 2, k - 1);
    }
  }

  // Or of numbers without a common bit is their sum.
  lemma {:induction false} OrApart(a: nat, c: nat, k: nat)
    requires a < Power(2, k)
    ensures Or(a, c * Power(2, k)) == a + c * Power(2, k)
  {
    if a > 0 && c * Power(2, k) > 0 {
      assert Power(2, k) == 2 * Power(2, k - 1);
      HalfOf(c, Power(2, k - 1));
      OrApart(a / 2, c, k - 1);
      hide Power;
    }
  }

  lemma HalfOf(c: nat, p: nat)
    ensures c * (2 * p) == 2 * (c * p) && c * (2 * p) / 2 == c * p && c * (2 * p) % 2 == 0
  {
    var x := c * p;
    assert c * (2 * p) == 2 * x;
  }
}
