/** The user-facing cursor (db/db_iter.cc). */
module DbIter {
  import opened Keys
  import opened Merger

  // Visible at the sequence number of the cursor.
  predicate Visible(data: seq<Entry>, s: nat, i: int) {
    0 <= i < |data| && data[i].key.sequence <= s
  }

  // Entry i is the newest visible entry of its user key, and a value.
  ghost predicate LiveAt(data: seq<Entry>, s: nat, i: int) {
    && Visible(data, s, i) && data[i].key.kind.Value?
    && forall j :: 0 <= j < i && Visible(data, s, j) ==> data[j].key.user != data[i].key.user
  }

  // The live keys among the first n entries, with their values: what the cursor walks.
  ghost function Live(data: seq<Entry>, s: nat, n: nat): seq<(UserKey, Bytes)>
    requires n <= |data|
  {
    if n == 0 then []
    else Live(data, s, n - 1) + if LiveAt(data, s, n - 1) then [(data[n - 1].key.user, data[n - 1].value)] else []
  }

  lemma {:induction false} LivePrefix(data: seq<Entry>, s: nat, m: nat, n: nat)
    requires m <= n <= |data|
    ensures Live(data, s, m) <= Live(data, s, n)
    ensures (forall k :: m <= k < n ==> !LiveAt(data, s, k)) ==> Live(data, s, m) == Live(data, s, n)
  {
    if m < n {
      LivePrefix(data, s, m, n - 1);
    }
  }

  // A live entry stands in the list at the number of live entries before it.
  lemma LiveRank(data: seq<Entry>, s: nat, p: nat)
    requires p < |data| && LiveAt(data, s, p)
    ensures var all := Live(data, s, |data|); var at := |Live(data, s, p)|;
      at < |all| && all[at] == (data[p].key.user, data[p].value)
    ensures |Live(data, s, p + 1)| == |Live(data, s, p)| + 1
  {
    LivePrefix(data, s, p + 1, |data|);
  }

  lemma {:induction false} LiveFrom(data: seq<Entry>, s: nat, n: nat, i: nat) returns (k: nat)
    requires n <= |data| && i < |Live(data, s, n)|
    ensures k < n && LiveAt(data, s, k) && |Live(data, s, k)| == i
    ensures Live(data, s, n)[i] == (data[k].key.user, data[k].value)
  {
    if i < |Live(data, s, n - 1)| {
      k := LiveFrom(data, s, n - 1, i);
    } else {
      k := n - 1;
    }
  }

  lemma LiveCountGrows(data: seq<Entry>, s: nat, k: nat, m: nat)
    requires k < m < |data| && LiveAt(data, s, k)
    ensures |Live(data, s, k)| < |Live(data, s, m)|
  {
    LiveRank(data, s, k);
    LivePrefix(data, s, k + 1, m);
  }

  /** The list the cursor walks is strictly sorted, and holds a key with a value exactly when
      a read of the key at the sequence number finds that value. */
  lemma LiveSorted(data: seq<Entry>, s: nat, i: nat, j: nat)
    requires Sorted(data) && i < j < |Live(data, s, |data|)|
    ensures Live(data, s, |data|)[i].0 < Live(data, s, |data|)[j].0
  {
    var k := LiveFrom(data, s, |data|, i);
    var m := LiveFrom(data, s, |data|, j);
    if m < k {
      LiveCountGrows(data, s, m, k);
    }
    assert Before(data[k].key, data[m].key) && Visible(data, s, k);
  }

  lemma LiveIsRead(data: seq<Entry>, s: nat, user: UserKey, v: Bytes)
    requires Sorted(data) && Functional(Contents(data))
    ensures (user, v) in Live(data, s, |data|) <==> Read(Contents(data), user, s) == Some(v)
  {
    if (user, v) in Live(data, s, |data|) {
      var i :| 0 <= i < |Live(data, s, |data|)| && Live(data, s, |data|)[i] == (user, v);
      var k := LiveFrom(data, s, |data|, i);
      LiveIsNewest(data, s, k);
      ReadNewest(Contents(data), user, s, data[k]);
    }
    if Read(Contents(data), user, s) == Some(v) {
      var e := ReadSome(Contents(data), user, s);
      var k :| 0 <= k < |data| && data[k] == e;
      forall j | 0 <= j < k && Visible(data, s, j) ensures data[j].key.user != user {
        assert data[j] in Contents(data) && Before(data[j].key, data[k].key);
      }
      LiveRank(data, s, k);
    }
  }

  lemma LiveIsNewest(data: seq<Entry>, s: nat, k: nat)
    requires Sorted(data) && k < |data| && LiveAt(data, s, k)
    ensures Newest(Contents(data), data[k].key.user, s, data[k])
  {
    forall d | d in Contents(data) && d.key.user == data[k].key.user && d.key.sequence <= s
      ensures d.key.sequence <= data[k].key.sequence {
      var j :| 0 <= j < |data| && data[j] == d;
      assert Visible(data, s, j);
      assert j > k ==> Before(data[k].key, data[j].key);
    }
  }

  class DBIter {
    const iter: Cursor
    const sequence: nat
    var forward: bool                // direction_
    var valid: bool
    var savedKey: Option<UserKey>    // saved_key_; None when cleared
    var savedValue: Bytes
    ghost var at: nat                // position in the live list; its length when invalid

    ghost function All(): seq<(UserKey, Bytes)> {
      Live(iter.data, sequence, |iter.data|)
    }

    // The cursor stands on entry p of the internal iterator.
    ghost predicate Standing(p: nat)
      reads this, iter
    {
      && p < |iter.data| && LiveAt(iter.data, sequence, p) && at == |Live(iter.data, sequence, p)|
      && if forward then iter.pos == p
         else savedKey == Some(iter.data[p].key.user) && savedValue == iter.data[p].value && JustBehind(p)
    }

    // In reverse, the internal iterator is before all visible entries of the key.
    ghost predicate JustBehind(p: nat)
      requires p <= |iter.data|
      reads iter
    {
      && iter.pos <= |iter.data|
      && (iter.pos < |iter.data| ==>
            && iter.pos < p && (forall k :: iter.pos < k < p ==> !Visible(iter.data, sequence, k))
            && (p < |iter.data| ==> iter.data[iter.pos].key.user < iter.data[p].key.user))
      && (iter.pos == |iter.data| ==> forall k :: 0 <= k < p ==> !Visible(iter.data, sequence, k))
    }

    ghost predicate Inv()
      reads this, iter
    {
      && Sorted(iter.data) && at <= |All()|
      && (valid <==> at < |All()|)
      && (valid ==> exists p: nat :: Standing(p))
    }

    constructor (iter: Cursor, sequence: nat)
      requires Sorted(iter.data)
      ensures Inv() && !valid && this.iter == iter && this.sequence == sequence
    {
      this.iter, this.sequence := iter, sequence;
      forward, valid, savedKey, savedValue := true, false, None, [];
      at := |Live(iter.data, sequence, |iter.data|)|;
    }

    // key() and value()
    function Key(): (k: UserKey)
      requires Inv() && valid
      reads this, iter
      ensures k == All()[at].0
    {
      ghost var p: nat :| Standing(p);
      LiveRank(iter.data, sequence, p);
      if forward then iter.Current().key.user else savedKey.value
    }

    function Value(): (v: Bytes)
      requires Inv() && valid
      reads this, iter
      ensures v == All()[at].1
    {
      ghost var p: nat :| Standing(p);
      LiveRank(iter.data, sequence, p);
      if forward then iter.Current().value else savedValue
    }

    // What FindNextUserEntry knows when it looks at entry i for the first live entry from `from` on.
    ghost predicate Scanning(i: nat, from: nat, skipping: bool, skip: Option<UserKey>)
    {
      var m := if i < from then from else i;
      && m <= |iter.data|
      && (forall k :: from <= k < i ==> !LiveAt(iter.data, sequence, k))
      && if skipping then
           && skip.Some?
           && (exists j :: 0 <= j < m && Visible(iter.data, sequence, j) && iter.data[j].key.user == skip.value)
           && (forall k :: 0 <= k < m && Visible(iter.data, sequence, k) ==> iter.data[k].key.user <= skip.value)
           && forall k :: i <= k < from && Visible(iter.data, sequence, k) ==>
                 iter.data[k].key.user == skip.value && iter.data[k].key.kind.Value?
         else
           && i >= from
           && forall k, n :: 0 <= k < i <= n < |iter.data| && Visible(iter.data, sequence, k) ==>
                 iter.data[k].key.user < iter.data[n].key.user
    }

    // What the loop learns from entry i when it does not stop there.
    lemma ScanPast(i: nat, from: nat, skipping: bool, skip: Option<UserKey>)
      requires Sorted(iter.data) && i < |iter.data| && from <= |iter.data| && Scanning(i, from, skipping, skip)
      requires var e := iter.data[i]; e.key.sequence <= sequence && e.key.kind.Value? ==>
        skipping && e.key.user <= skip.value
      ensures var e := iter.data[i];
        if e.key.sequence <= sequence && e.key.kind.Deletion? then Scanning(i + 1, from, true, Some(e.key.user))
        else Scanning(i + 1, from, skipping, skip)
    {
    }

    // The entry it stops at is the first live one from `from` on.
    lemma ScanStops(i: nat, from: nat, skipping: bool, skip: Option<UserKey>)
      requires Sorted(iter.data) && i < |iter.data| && from <= |iter.data| && Scanning(i, from, skipping, skip)
      requires Visible(iter.data, sequence, i) && iter.data[i].key.kind.Value?
      requires skipping ==> iter.data[i].key.user > skip.value
      ensures LiveAt(iter.data, sequence, i)
      ensures |Live(iter.data, sequence, i)| == |Live(iter.data, sequence, from)| < |All()|
    {
      assert LiveAt(iter.data, sequence, i);
      LivePrefix(iter.data, sequence, from, i);
      LiveRank(iter.data, sequence, i);
    }

    lemma ScanKey(i: nat, from: nat, skipping: bool, skip: Option<UserKey>)
      requires Scanning(i, from, skipping, skip)
      ensures skipping ==> skip.Some?
    {
    }

    lemma ScanEnds(from: nat, skipping: bool, skip: Option<UserKey>)
      requires from <= |iter.data| && Scanning(|iter.data|, from, skipping, skip)
      ensures |Live(iter.data, sequence, from)| == |All()|
    {
      LivePrefix(iter.data, sequence, from, |iter.data|);
    }

    /** FindNextUserEntry stops at the first live entry from `from` on. */
    method FindNextUserEntry(skipping: bool, skip: Option<UserKey>, ghost from: nat)
      requires Sorted(iter.data) && iter.Valid() && forward && from <= |iter.data|
      requires Scanning(iter.pos, from, skipping, skip)
      modifies this`valid, this`savedKey, this`at, iter
      ensures Inv() && at == |Live(iter.data, sequence, from)|
    {
      hide LiveAt, Live, Scanning;
      var skips, key := skipping, skip;
      ScanKey(iter.pos, from, skips, key);
      while iter.Valid()
        invariant iter.pos <= |iter.data| && (skips ==> key.Some?)
        invariant Scanning(iter.pos, from, skips, key)
        decreases |iter.data| - iter.pos
      {
        var e := iter.Current();
        ghost var i := iter.pos;
        if e.key.sequence <= sequence {
          if e.key.kind.Deletion? {
            ScanPast(i, from, skips, key);
            key := Some(e.key.user);
            skips := true;
          } else if skips && e.key.user <= key.value {
            ScanPast(i, from, skips, key);
          } else {
            ScanStops(i, from, skips, key);
            valid, savedKey := true, None;
            at := |Live(iter.data, sequence, from)|;
            assert Standing(i);
            return;
          }
        } else {
          ScanPast(i, from, skips, key);
        }
        iter.Next();
      }
      valid, savedKey := false, None;
      at := |All()|;
      ScanEnds(from, skips, key);
    }

    // What FindPrevUserEntry knows once it has looked at all entries after b: nothing there
    // is live before `from`, unless entry m is saved, the newest visible one of its key so far.
    ghost predicate Holding(b: int, from: nat, kind: Kind, m: nat, key: Option<UserKey>, value: Bytes) {
      && -1 <= b < |iter.data|
      && if kind.Value? then
           && b < m < from && m < |iter.data| && Visible(iter.data, sequence, m) && iter.data[m].key.kind.Value?
           && key == Some(iter.data[m].key.user) && value == iter.data[m].value
           && (forall k :: b < k < m ==> !Visible(iter.data, sequence, k))
           && forall k :: b < k < from && k != m ==> !LiveAt(iter.data, sequence, k)
         else
           && b < from
           && forall k :: b < k < from ==> !LiveAt(iter.data, sequence, k)
    }

    // What it holds after entry b, when it does not stop there.
    lemma HoldPast(b: nat, from: nat, kind: Kind, m: nat, key: Option<UserKey>, value: Bytes)
      requires Sorted(iter.data) && from <= |iter.data| && b < |iter.data| && Holding(b, from, kind, m, key, value)
      requires Visible(iter.data, sequence, b) && kind.Value? ==> iter.data[b].key.user >= key.value
      ensures var e := iter.data[b];
        if e.key.sequence > sequence then Holding(b - 1, from, kind, m, key, value)
        else if e.key.kind.Deletion? then Holding(b - 1, from, Deletion, m, None, [])
        else Holding(b - 1, from, Kind.Value, b, Some(e.key.user), e.value)
    {
      if Visible(iter.data, sequence, b) && kind.Value? {
        assert iter.data[b].key.user == iter.data[m].key.user;
      }
    }

    /** FindPrevUserEntry stops at the last live entry before `from`. */
    method FindPrevUserEntry(ghost from: nat)
      requires Sorted(iter.data) && !forward && from <= |iter.data| && JustBehind(from)
      modifies this`forward, this`valid, this`savedKey, this`savedValue, this`at, iter
      ensures Inv()
      ensures at == if |Live(iter.data, sequence, from)| == 0 then |All()| else |Live(iter.data, sequence, from)| - 1
    {
      hide LiveAt, Live, Holding;
      var kind := Deletion;
      ghost var m: nat := 0;  // the saved entry, when kind is Value
      HoldsNothing(from, savedKey, savedValue);
      while iter.Valid()
        invariant iter.pos <= |iter.data| && !forward
        invariant Holding(Before0(), from, kind, m, savedKey, savedValue)
        invariant kind.Value? ==> savedKey.Some?
        decreases Before0() + 1
      {
        var e := iter.Current();
        if e.key.sequence <= sequence {
          if kind.Value? && e.key.user < savedKey.value {
            break;
          }
          HoldPast(iter.pos, from, kind, m, savedKey, savedValue);
          kind := e.key.kind;
          if kind.Deletion? {
            savedKey, savedValue := None, [];
          } else {
            savedKey, savedValue := Some(e.key.user), e.value;
            m := iter.pos;
          }
        } else {
          HoldPast(iter.pos, from, kind, m, savedKey, savedValue);
        }
        iter.Prev();
      }
      if kind.Deletion? {
        HoldsNone(from, m, savedKey, savedValue);
        valid, savedKey, savedValue, forward := false, None, [], true;
        at := |All()|;
      } else {
        SavedIsLive(m, from);
        valid := true;
        at := |Live(iter.data, sequence, m)|;
        assert Standing(m);
      }
    }

    lemma HoldsNothing(from: nat, key: Option<UserKey>, value: Bytes)
      requires Sorted(iter.data) && from <= |iter.data| && JustBehind(from)
      ensures Holding(Before0(), from, Deletion, 0, key, value)
    {
    }

    lemma HoldsNone(from: nat, m: nat, key: Option<UserKey>, value: Bytes)
      requires from <= |iter.data| && Holding(-1, from, Deletion, m, key, value)
      ensures |Live(iter.data, sequence, from)| == 0
    {
      LivePrefix(iter.data, sequence, 0, from);
    }

    lemma SavedIsLive(m: nat, from: nat)
      requires Sorted(iter.data) && iter.pos <= |iter.data| && from <= |iter.data|
      requires Holding(Before0(), from, Kind.Value, m, savedKey, savedValue)
      requires iter.Valid() ==>
        savedKey.Some? && Visible(iter.data, sequence, iter.pos) && iter.data[iter.pos].key.user < savedKey.value
      ensures m < from && LiveAt(iter.data, sequence, m) && JustBehind(m)
      ensures savedKey == Some(iter.data[m].key.user) && savedValue == iter.data[m].value
      ensures |Live(iter.data, sequence, from)| == |Live(iter.data, sequence, m)| + 1 <= |All()|
    {
      hide Live;
      LiveRank(iter.data, sequence, m);
      LivePrefix(iter.data, sequence, m + 1, from);
      LivePrefix(iter.data, sequence, from, |iter.data|);
    }

    // The index of the internal iterator, or -1 once it has run off the front.
    ghost function Before0(): int
      reads iter
    {
      if iter.pos < |iter.data| then iter.pos else -1
    }

    // SeekToFirst
    method SeekToFirst()
      requires Inv()
      modifies this, iter
      ensures Inv() && at == 0
    {
      forward, savedValue := true, [];
      iter.SeekToFirst();
      if iter.Valid() {
        FindNextUserEntry(false, savedKey, 0);
      } else {
        valid := false;
        at := 0;
      }
    }

    // SeekToLast
    method SeekToLast()
      requires Inv()
      modifies this, iter
      ensures Inv() && at == if |All()| == 0 then 0 else |All()| - 1
    {
      forward, savedValue := false, [];
      iter.SeekToLast();
      FindPrevUserEntry(|iter.data|);
    }

    /** Seek: the first live key at or after the target. */
    method Seek(target: UserKey)
      requires Inv()
      modifies this, iter
      ensures Inv()
      ensures forall i :: 0 <= i < |All()| ==> (i < at <==> All()[i].0 < target)
    {
      forward, savedKey, savedValue := true, None, [];
      iter.Seek(SeekKey(target, sequence));
      ghost var from := iter.pos;
      if iter.Valid() {
        FindNextUserEntry(false, savedKey, from);
      } else {
        valid := false;
        at := |All()|;
      }
      SeekSplits(target, from);
    }

    // The live entries before the seek position are those with smaller user keys.
    lemma SeekSplits(target: UserKey, from: nat)
      requires Sorted(iter.data) && from <= |iter.data|
      requires forall j :: 0 <= j < from ==> Before(iter.data[j].key, SeekKey(target, sequence))
      requires from < |iter.data| ==> !Before(iter.data[from].key, SeekKey(target, sequence))
      ensures forall i :: 0 <= i < |All()| ==> (i < |Live(iter.data, sequence, from)| <==> All()[i].0 < target)
    {
      forall i | 0 <= i < |All()| ensures i < |Live(iter.data, sequence, from)| <==> All()[i].0 < target {
        var k := LiveFrom(iter.data, sequence, |iter.data|, i);
        if k < from {
          LiveRank(iter.data, sequence, k);
          LivePrefix(iter.data, sequence, k + 1, from);
        } else {
          LivePrefix(iter.data, sequence, from, k);
        }
      }
    }

    /** Next, with a change of direction when the cursor was moving backwards. */
    method Next()
      requires Inv() && valid
      modifies this, iter
      ensures Inv() && at == old(at) + 1
    {
      hide LiveAt, Live, Scanning;
      ghost var p: nat :| Standing(p);
      NextStart(p);
      if !forward {
        forward := true;
        if !iter.Valid() {
          iter.SeekToFirst();
        } else {
          iter.Next();
        }
      } else {
        savedKey := Some(iter.Current().key.user);
        iter.Next();
      }
      if !iter.Valid() {
        valid, savedKey := false, None;
        at := |All()|;
        return;
      }
      FindNextUserEntry(true, savedKey, p + 1);
    }

    // Where the scan of Next starts, in each direction: the current key is skipped.
    lemma NextStart(p: nat)
      requires Inv() && valid && Standing(p)
      ensures LiveAt(iter.data, sequence, p) && |Live(iter.data, sequence, p + 1)| == at + 1 <= |All()|
      ensures var skip := Some(iter.data[p].key.user);
        if forward then Scanning(p + 1, p + 1, true, skip) && (p + 1 == |iter.data| ==> at + 1 == |All()|)
        else if iter.pos < |iter.data| then iter.pos + 1 <= p && Scanning(iter.pos + 1, p + 1, true, skip)
        else Scanning(0, p + 1, true, skip)
    {
      hide Live;
      LiveRank(iter.data, sequence, p);
      LivePrefix(iter.data, sequence, p + 1, |iter.data|);
      if forward {
        SkipsCurrent(p, p + 1);
      } else if iter.pos < |iter.data| {
        SkipsCurrent(p, iter.pos + 1);
      } else {
        SkipsCurrent(p, 0);
      }
    }

    lemma SkipsCurrent(p: nat, i: nat)
      requires Sorted(iter.data) && p < |iter.data| && LiveAt(iter.data, sequence, p) && i <= p + 1
      requires forall k :: i <= k < p ==> !Visible(iter.data, sequence, k)
      ensures Scanning(i, p + 1, true, Some(iter.data[p].key.user))
    {
    }

    /** Prev, with a change of direction when the cursor was moving forwards. */
    method Prev()
      requires Inv() && valid
      modifies this, iter
      ensures Inv() && at == if old(at) == 0 then |All()| else old(at) - 1
    {
      ghost var p: nat :| Standing(p);
      LivePrefix(iter.data, sequence, p, |iter.data|);
      if forward {
        savedKey := Some(iter.Current().key.user);
        while true
          invariant iter.Valid() && iter.pos <= p && savedKey == Some(iter.data[p].key.user)
          invariant forall k :: iter.pos <= k < p ==> !Visible(iter.data, sequence, k)
          invariant forward && at == old(at)
          decreases iter.pos
        {
          iter.Prev();
          if !iter.Valid() {
            valid, savedKey, savedValue := false, None, [];
            LivePrefix(iter.data, sequence, 0, p);
            at := |All()|;
            return;
          }
          if iter.Current().key.user < savedKey.value {
            break;
          }
        }
        forward := false;
      }
      FindPrevUserEntry(p);
    }
  }
}
