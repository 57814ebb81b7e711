/** Internal keys as bytes (db/dbformat.h, db/dbformat.cc). */
module DbFormat {
  import opened Keys
  import opened Coding
  import opened Comparators
  import opened FilterBlocks

  // PackSequenceAndType(kMaxSequenceNumber, kValueTypeForSeek)
  const FIRST_TAG: nat := MAX_SEQUENCE * 256 + 1

  // AppendInternalKey to an empty string.
  function Encode(user: Bytes, sequence: nat, kind: Kind): Bytes {
    user + Fixed(IKey(0.0, sequence, kind).Tag(), 8)
  }

  // ExtractUserKey; keys shorter than eight bytes are not internal keys.
  function UserKeyOf(key: Bytes): Bytes {
    if |key| >= 8 then key[..|key| - 8] else []
  }

  function TagOf(key: Bytes): nat {
    if |key| >= 8 then FromFixed(key[|key| - 8..]) else 0
  }

  datatype Parsed = Parsed(user: Bytes, sequence: nat, kind: Kind)

  function ParseInternalKey(key: Bytes): Option<Parsed> {
    if |key| < 8 then None
    else
      var num := TagOf(key);
      if num % 256 > 1 then None
      else Some(Parsed(UserKeyOf(key), num / 256, if num % 256 == 1 then Value else Deletion))
  }

  lemma EncodeParts(user: Bytes, tag: U64)
    ensures var k := user + Fixed(tag, 8); UserKeyOf(k) == user && TagOf(k) == tag
  {
    var k := user + Fixed(tag, 8);
    assert k[|k| - 8..] == Fixed(tag, 8);
    Fixed64RoundTrip(tag);
  }

  /** Parsing an encoded internal key gives its parts back. */
  lemma ParseEncoded(user: Bytes, sequence: nat, kind: Kind)
    requires sequence <= MAX_SEQUENCE
    ensures ParseInternalKey(Encode(user, sequence, kind)) == Some(Parsed(user, sequence, kind))
  {
    EncodeParts(user, IKey(0.0, sequence, kind).Tag());
  }

  // InternalKeyComparator::Compare(a, b) < 0
  predicate InternalLess(c: Comparator, a: Bytes, b: Bytes) {
    || c.less(UserKeyOf(a), UserKeyOf(b))
    || (!c.less(UserKeyOf(b), UserKeyOf(a)) && TagOf(a) > TagOf(b))
  }

  /** On encoded keys the comparator is the order of internal keys, with the user comparator
      as the order of user keys. */
  lemma CompareEncoded(c: Comparator, u: Bytes, p: nat, k: Kind, v: Bytes, q: nat, l: Kind, rank: Bytes -> real)
    requires p <= MAX_SEQUENCE && q <= MAX_SEQUENCE
    requires forall a, b :: c.less(a, b) <==> rank(a) < rank(b)
    ensures InternalLess(c, Encode(u, p, k), Encode(v, q, l)) <==> Before(IKey(rank(u), p, k), IKey(rank(v), q, l))
  {
    EncodeParts(u, IKey(0.0, p, k).Tag());
    EncodeParts(v, IKey(0.0, q, l).Tag());
  }

  lemma InternalOrder(c: Comparator)
    requires ComparatorOk(c)
    ensures StrictOrder((a, b) => InternalLess(c, a, b))
  {
    var less := (a, b) => InternalLess(c, a, b);
    forall x, y, z | less(x, y) && less(y, z) ensures less(x, z) {
      var (a, b, d) := (UserKeyOf(x), UserKeyOf(y), UserKeyOf(z));
      assert a == b || c.less(a, b) || c.less(b, a);
      assert b == d || c.less(b, d) || c.less(d, b);
    }
  }

  // ------------------------------------------------------------------ short keys for the index

  // InternalKeyComparator::FindShortestSeparator
  function InternalSeparator(c: Comparator, start: Bytes, limit: Bytes): Bytes {
    var user := UserKeyOf(start);
    var tmp := c.separator(user, UserKeyOf(limit));
    if |tmp| < |user| && c.less(user, tmp) then tmp + Fixed(FIRST_TAG, 8) else start
  }

  // InternalKeyComparator::FindShortSuccessor
  function InternalSuccessor(c: Comparator, key: Bytes): Bytes {
    var user := UserKeyOf(key);
    var tmp := c.successor(user);
    if |tmp| < |user| && c.less(user, tmp) then tmp + Fixed(FIRST_TAG, 8) else key
  }

  // A key for the end of a block: the block's last key, or one with a user key strictly
  // between that of the last key and that of the next block's first key.
  ghost predicate Separates(c: Comparator, last: Bytes, sep: Bytes, next: Bytes) {
    sep == last || (c.less(UserKeyOf(last), UserKeyOf(sep)) && c.less(UserKeyOf(sep), UserKeyOf(next)))
  }

  /** The separator either is the key or has a user key strictly between the two. */
  lemma SeparatorSeparates(c: Comparator, start: Bytes, limit: Bytes)
    requires ComparatorOk(c)
    ensures Separates(c, start, InternalSeparator(c, start, limit), limit)
    ensures InternalLess(c, start, limit) ==>
      var s := InternalSeparator(c, start, limit); !InternalLess(c, s, start) && InternalLess(c, s, limit)
  {
    var user := UserKeyOf(start);
    var tmp := c.separator(user, UserKeyOf(limit));
    EncodeParts(tmp, FIRST_TAG);
    assert !c.less(user, user) && !InternalLess(c, start, start);
  }

  lemma SuccessorFollows(c: Comparator, key: Bytes)
    requires ComparatorOk(c)
    ensures var s := InternalSuccessor(c, key);
      (s == key || c.less(UserKeyOf(key), UserKeyOf(s))) && !InternalLess(c, s, key)
  {
    var user := UserKeyOf(key);
    EncodeParts(c.successor(user), FIRST_TAG);
    assert !c.less(user, user);
  }

  // ------------------------------------------------------------------ lookups and filters

  // MemTable::Add: the internal key and the value, each with its length in front.
  function MemTableEntry(user: Bytes, sequence: nat, kind: Kind, value: Bytes): Bytes {
    Varint((|user| + 8) % 0x1_0000_0000) + Encode(user, sequence, kind) + Varint(|value| % 0x1_0000_0000) + value
  }

  // What MemTable::Get reads of an entry: the internal key and the value.
  function ReadMemTableEntry(entry: Bytes): Option<(Bytes, Bytes)> {
    match ReadVarint(entry, 32)
    case None => None
    case Some((n, a)) =>
      if |entry| - a < n then None
      else match ReadVarint(entry[a..][n..], 32)
        case None => None
        case Some((m, b)) =>
          if |entry| - a - n - b < m then None else Some((entry[a..][..n], entry[a..][n..][b..][..m]))
  }

  /** A memtable entry is read back as the key and value it was made from. */
  lemma MemTableEntryRoundTrip(user: Bytes, sequence: nat, kind: Kind, value: Bytes)
    requires |user| + 8 < 0x1_0000_0000 && |value| < 0x1_0000_0000
    ensures ReadMemTableEntry(MemTableEntry(user, sequence, kind, value)) == Some((Encode(user, sequence, kind), value))
  {
    hide Varint, ReadVarint;
    var key := Encode(user, sequence, kind);
    assert |key| < 0x1_0000_0000;
    hide Encode;
    var tail := Varint(|value|) + value;
    var entry := MemTableEntry(user, sequence, kind, value);
    assert entry == Varint(|key|) + (key + tail);
    Varint32RoundTrip(|key|, key + tail);
    Varint32RoundTrip(|value|, value);
    assert entry[|Varint(|key|)|..] == key + tail;
    assert (key + tail)[..|key|] == key && (key + tail)[|key|..] == tail;
    assert tail[|Varint(|value|)|..] == value && value[..|value|] == value;
  }

  // InternalFilterPolicy: filters are made of user keys.
  function UserKeys(keys: seq<Bytes>): (r: seq<Bytes>)
    ensures |r| == |keys|
  {
    seq(|keys|, i requires 0 <= i < |keys| => UserKeyOf(keys[i]))
  }

  function InternalPolicy(user: Policy): Policy {
    Policy(user.name, keys => user.create(UserKeys(keys)), (key, filter) => user.mayMatch(UserKeyOf(key), filter))
  }

  // A key with the same user key as one a filter was made from is accepted.
  lemma UserKeyAccepted(user: Policy, keys: seq<Bytes>, i: nat, key: Bytes)
    requires NoFalseNegatives(user) && i < |keys| && UserKeyOf(key) == UserKeyOf(keys[i])
    ensures InternalPolicy(user).mayMatch(key, InternalPolicy(user).create(keys))
  {
    assert user.mayMatch(UserKeys(keys)[i], user.create(UserKeys(keys)));
  }
}
