/** Comparators over byte strings, and the default one (include/leveldb/comparator.h,
    util/comparator.cc). */
module Comparators {
  import opened Keys

  // Compare(a, b) < 0
  type Less = (Bytes, Bytes) -> bool

  ghost predicate StrictOrder(less: Less) {
    && (forall a, b :: less(a, b) ==> !less(b, a))
    && (forall a, b, c :: less(a, b) && less(b, c) ==> less(a, c))
  }

  // Keys that compare equal are equal.
  ghost predicate Total(less: Less) {
    forall a, b :: a == b || less(a, b) || less(b, a)
  }

  // FindShortestSeparator and FindShortSuccessor as functions of the string they change.
  datatype Comparator = Comparator(less: Less, separator: (Bytes, Bytes) -> Bytes, successor: Bytes -> Bytes)

  /** What every comparator promises: a total order, a separator in [start, limit) when
      start < limit and no change otherwise, a successor not before the key. */
  ghost predicate ComparatorOk(c: Comparator) {
    && StrictOrder(c.less) && Total(c.less)
    && (forall a, b :: if c.less(a, b) then !c.less(c.separator(a, b), a) && c.less(c.separator(a, b), b)
      else c.separator(a, b) == a)
    && forall a :: !c.less(c.successor(a), a)
  }

  // ------------------------------------------------------------------ the default comparator

  // Slice::compare(b) < 0: memcmp on the shorter length, then the length.
  predicate BytewiseLess(a: Bytes, b: Bytes) {
    |b| > 0 && (|a| == 0 || a[0] < b[0] || (a[0] == b[0] && BytewiseLess(a[1..], b[1..])))
  }

  lemma {:induction false} BytewiseTotal(a: Bytes, b: Bytes)
    ensures a == b || BytewiseLess(a, b) || BytewiseLess(b, a)
    ensures !(BytewiseLess(a, b) && BytewiseLess(b, a)) && !BytewiseLess(a, a)
  {
    if |a| > 0 {
      if |b| > 0 && a[0] == b[0] {
        BytewiseTotal(a[1..], b[1..]);
        assert a[1..] == b[1..] ==> a == [a[0]] + b[1..] == b;
      }
      BytewiseTotal(a[1..], a[1..]);
    }
  }

  lemma {:induction false} BytewiseTransitive(a: Bytes, b: Bytes, c: Bytes)
    requires BytewiseLess(a, b) && BytewiseLess(b, c)
    ensures BytewiseLess(a, c)
  {
    if |a| > 0 && a[0] == b[0] == c[0] {
      BytewiseTransitive(a[1..], b[1..], c[1..]);
    }
  }

  // A rank for every string: a key stands for a real number.
  function BytewiseRank(a: Bytes): (r: real)
    ensures 0.0 <= r < 1.0
  {
    if |a| == 0 then 0.0 else (a[0] as real + 1.0 + BytewiseRank(a[1..])) / 257.0
  }

  /** The ranks are ordered as the strings are. */
  lemma {:induction false} RankOrders(a: Bytes, b: Bytes)
    ensures BytewiseLess(a, b) <==> BytewiseRank(a) < BytewiseRank(b)
  {
    if |a| > 0 && |b| > 0 && a[0] == b[0] {
      RankOrders(a[1..], b[1..]);
    }
  }

  // The first place where two strings differ decides.
  lemma {:induction false} DecidedAt(a: Bytes, b: Bytes, n: nat)
    requires n <= |a| && n <= |b| && a[..n] == b[..n]
    ensures BytewiseLess(a, b) <==> BytewiseLess(a[n..], b[n..])
  {
    if n == 0 {
      assert a[0..] == a && b[0..] == b;
    } else {
      assert a[0] == a[..n][0] == b[..n][0] == b[0];
      assert a[1..][..n - 1] == a[..n][1..] == b[..n][1..] == b[1..][..n - 1];
      DecidedAt(a[1..], b[1..], n - 1);
      assert a[1..][n - 1..] == a[n..] && b[1..][n - 1..] == b[n..];
    }
  }

  /** A short string in [start, limit). */
  method FindShortestSeparator(start: Bytes, limit: Bytes) returns (r: Bytes)
    ensures r == BytewiseSeparator(start, limit)
  {
    var minLength := if |start| < |limit| then |start| else |limit|;
    var diff := 0;
    while diff < minLength && start[diff] == limit[diff]
      invariant diff <= minLength && diff <= CommonPrefix(start, limit)
      invariant CommonPrefix(start, limit) == diff + CommonPrefix(start[diff..], limit[diff..])
    {
      diff := diff + 1;
    }
    assert CommonPrefix(start[diff..], limit[diff..]) == 0;
    r := start;
    if diff < minLength {
      var diffByte := start[diff];
      if diffByte < 0xff && diffByte + 1 < limit[diff] {
        r := start[..diff] + [start[diff] + 1];
      }
    }
  }

  function CommonPrefix(a: Bytes, b: Bytes): (n: nat)
    ensures n <= |a| && n <= |b|
  {
    if |a| > 0 && |b| > 0 && a[0] == b[0] then 1 + CommonPrefix(a[1..], b[1..]) else 0
  }

  lemma {:induction false} CommonPrefixIs(a: Bytes, b: Bytes)
    ensures var n := CommonPrefix(a, b); a[..n] == b[..n] && (n < |a| && n < |b| ==> a[n] != b[n])
  {
    if |a| > 0 && |b| > 0 && a[0] == b[0] {
      CommonPrefixIs(a[1..], b[1..]);
      var n := CommonPrefix(a, b);
      assert a[..n] == [a[0]] + a[1..][..n - 1] && b[..n] == [b[0]] + b[1..][..n - 1];
    }
  }

  function BytewiseSeparator(start: Bytes, limit: Bytes): Bytes {
    var n := CommonPrefix(start, limit);
    if n < |start| && n < |limit| && start[n] < 0xff && start[n] + 1 < limit[n] then start[..n] + [start[n] + 1]
      else start
  }

  method FindShortSuccessor(key: Bytes) returns (r: Bytes)
    ensures r == BytewiseSuccessor(key)
  {
    var i := 0;
    while i < |key|
      invariant 0 <= i <= |key| && BytewiseSuccessor(key) == key[..i] + BytewiseSuccessor(key[i..])
    {
      var byte := key[i];
      if byte != 0xff {
        assert key[i..][..0] == [];
        return key[..i] + [byte + 1];
      }
      assert key[i..][1..] == key[i + 1..];
      assert key[..i] + ([byte] + BytewiseSuccessor(key[i + 1..])) == key[..i + 1] + BytewiseSuccessor(key[i + 1..]);
      i := i + 1;
    }
    r := key;
  }

  // The first byte that is not 0xff goes up, and the rest is dropped.
  function BytewiseSuccessor(key: Bytes): Bytes {
    if |key| == 0 then []
    else if key[0] != 0xff then [key[0] + 1]
    else [key[0]] + BytewiseSuccessor(key[1..])
  }

  lemma SeparatorBetween(a: Bytes, b: Bytes)
    ensures if BytewiseLess(a, b) then !BytewiseLess(BytewiseSeparator(a, b), a)
      && BytewiseLess(BytewiseSeparator(a, b), b)
            else BytewiseSeparator(a, b) == a
  {
    var n, s := CommonPrefix(a, b), BytewiseSeparator(a, b);
    CommonPrefixIs(a, b);
    BytewiseTotal(a, a);
    DecidedAt(a, b, n);
    if s != a {
      assert s[..n] == a[..n] == b[..n];
      DecidedAt(s, a, n);
      DecidedAt(s, b, n);
    }
  }

  lemma {:induction false} SuccessorNotBefore(a: Bytes)
    ensures !BytewiseLess(BytewiseSuccessor(a), a)
  {
    if |a| > 0 && a[0] == 0xff {
      SuccessorNotBefore(a[1..]);
      assert BytewiseSuccessor(a)[1..] == BytewiseSuccessor(a[1..]);
    }
  }

  const BYTEWISE: Comparator :=
    Comparator((a, b) => BytewiseLess(a, b), (a, b) => BytewiseSeparator(a, b), a => BytewiseSuccessor(a))

  /** The default comparator keeps the promises. */
  lemma BytewiseOk()
    ensures ComparatorOk(BYTEWISE)
  {
    forall a, b
      ensures BYTEWISE.less(a, b) ==> !BYTEWISE.less(b, a)
      ensures a == b || BYTEWISE.less(a, b) || BYTEWISE.less(b, a) {
      BytewiseTotal(a, b);
    }
    forall a, b, c | BYTEWISE.less(a, b) && BYTEWISE.less(b, c) ensures BYTEWISE.less(a, c) {
      BytewiseTransitive(a, b, c);
    }
    forall a, b ensures var s := BYTEWISE.separator(a, b);
      if BYTEWISE.less(a, b) then !BYTEWISE.less(s, a) && BYTEWISE.less(s, b) else s == a {
      SeparatorBetween(a, b);
    }
    forall a ensures !BYTEWISE.less(BYTEWISE.successor(a), a) {
      SuccessorNotBefore(a);
    }
  }
}
