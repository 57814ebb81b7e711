/** Internal keys, entries, and what a read at a snapshot means (db/dbformat.h, db/dbformat.cc).

    A user key stands for its rank under the user comparator.  A comparator is any
    total order over byte strings; there are countably many byte strings, and every
    countable total order embeds in the reals, so `real` loses no comparator.
 */
module Keys {

  type UserKey = real
  newtype Byte = x: int | 0 <= x < 256
  type Bytes = seq<Byte>

  datatype Option<+T> = None | Some(value: T)

  // kTypeDeletion and kTypeValue; a seek key always carries kTypeValue.
  datatype Kind = Deletion | Value

  // kMaxSequenceNumber: eight bits are left free for the kind.
  const MAX_SEQUENCE: nat := 0xFF_FFFF_FFFF_FFFF

  datatype IKey = IKey(user: UserKey, sequence: nat, kind: Kind) {
    // PackSequenceAndType
    function Tag(): nat {
      sequence * 256 + if kind.Value? then 1 else 0
    }
  }

  datatype Entry = Entry(key: IKey, value: Bytes)

  // InternalKeyComparator::Compare(a, b) < 0: user key ascending, then tag descending.
  predicate Before(a: IKey, b: IKey) {
    a.user < b.user || (a.user == b.user && a.Tag() > b.Tag())
  }

  // LookupKey / DBIter::Seek: the internal key at which a read of `user` at snapshot `q` starts.
  function SeekKey(user: UserKey, q: nat): IKey {
    IKey(user, q, Value)
  }

  ghost predicate Sorted(s: seq<Entry>) {
    forall i, j :: 0 <= i < j < |s| ==> Before(s[i].key, s[j].key)
  }

  function Contents(s: seq<Entry>): set<Entry> {
    set e | e in s
  }

  // At most one entry carries a given user key and sequence number.
  ghost predicate Functional(es: set<Entry>) {
    forall a, b :: a in es && b in es && a.key.user == b.key.user && a.key.sequence == b.key.sequence ==> a == b
  }

  // e is the newest entry for `user` at or below snapshot q.
  ghost predicate Newest(es: set<Entry>, user: UserKey, q: nat, e: Entry) {
    && e in es && e.key.user == user && e.key.sequence <= q
    && forall d :: d in es && d.key.user == user && d.key.sequence <= q ==> d.key.sequence <= e.key.sequence
  }

  /** The specification every read refines: the value of the newest entry at or below
      the snapshot, or nothing when there is none or it is a deletion marker. */
  ghost function Read(es: set<Entry>, user: UserKey, q: nat): Option<Bytes> {
    if exists e :: Newest(es, user, q, e) && e.key.kind.Value?
    then
      var e :| Newest(es, user, q, e) && e.key.kind.Value?;
      Some(e.value)
    else None
  }

  lemma ReadNewest(es: set<Entry>, user: UserKey, q: nat, e: Entry)
    requires Functional(es) && Newest(es, user, q, e)
    ensures Read(es, user, q) == if e.key.kind.Value? then Some(e.value) else None
  {
    forall d | Newest(es, user, q, d) ensures d == e {
    }
  }

  lemma ReadAbsent(es: set<Entry>, user: UserKey, q: nat)
    requires forall e :: e in es && e.key.user == user ==> e.key.sequence > q
    ensures Read(es, user, q) == None
  {
  }

  lemma {:induction false} NewestExists(es: set<Entry>, user: UserKey, q: nat, e0: Entry) returns (e: Entry)
    requires e0 in es && e0.key.user == user && e0.key.sequence <= q
    ensures Newest(es, user, q, e)
    ensures e.key.sequence >= e0.key.sequence
    decreases q - e0.key.sequence
  {
    if d :| d in es && d.key.user == user && e0.key.sequence < d.key.sequence <= q {
      e := NewestExists(es, user, q, d);
    } else {
      e := e0;
    }
  }

  // A read finds a value exactly when the newest visible entry is one.
  lemma ReadSome(es: set<Entry>, user: UserKey, q: nat) returns (e: Entry)
    requires Read(es, user, q).Some?
    ensures Newest(es, user, q, e) && e.key.kind.Value? && Read(es, user, q) == Some(e.value)
  {
    e :| Newest(es, user, q, e) && e.key.kind.Value? && Read(es, user, q) == Some(e.value);
  }

  // In a sorted sequence the first entry at or after the seek key decides the read.
  lemma ReadSorted(s: seq<Entry>, user: UserKey, q: nat, i: nat)
    requires Sorted(s) && i <= |s|
    requires forall j :: 0 <= j < i ==> Before(s[j].key, SeekKey(user, q))
    requires i < |s| ==> !Before(s[i].key, SeekKey(user, q))
    ensures i < |s| && s[i].key.user == user ==> Newest(Contents(s), user, q, s[i])
    ensures i == |s| || s[i].key.user != user ==> forall e :: e in s && e.key.user == user ==> e.key.sequence > q
  {
  }
}
