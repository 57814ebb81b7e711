/** The write-ahead log: a byte stream cut into blocks (db/log_format.h, db/log_writer.cc,
    db/log_reader.cc, util/crc32c.h). */
module LogFormat {
  import opened Keys
  import opened Coding

  const BLOCK: nat := 32768
  const HEADER: nat := 7

  // Record types, and the two values ReadPhysicalRecord adds to them.
  const ZERO: nat := 0
  const FULL: nat := 1
  const FIRST: nat := 2
  const MIDDLE: nat := 3
  const LAST: nat := 4
  const EOF: nat := 5
  const BAD: nat := 6

  // crc32c::Value, of which the log needs only that it is a function.
  type Crc = Bytes -> U32

  const MASK_DELTA: nat := 0xa282ead8

  // The form in which a header holds a checksum: its two parts change places, and an offset is added.
  function Mask(crc: U32): U32 {
    (crc / 0x8000 + crc % 0x8000 * 0x2_0000 + MASK_DELTA) % 0x1_0000_0000
  }

  function Unmask(masked: U32): U32 {
    var rot := (masked + 0x1_0000_0000 - MASK_DELTA) % 0x1_0000_0000;
    rot / 0x2_0000 + rot % 0x2_0000 * 0x8000
  }

  lemma UnmaskMask(crc: U32)
    ensures Unmask(Mask(crc)) == crc
  {
    var high, low := crc / 0x8000, crc % 0x8000;
    var rot := high + low * 0x2_0000;
    assert (Mask(crc) + 0x1_0000_0000 - MASK_DELTA) % 0x1_0000_0000 == rot;
    assert rot / 0x2_0000 == low && rot % 0x2_0000 == high;
  }

  // ------------------------------------------------------------------ the layout

  // Bytes of trailer to fill when the log ends at `at`.
  function Pad(at: nat): (n: nat) {
    var leftover := BLOCK - at % BLOCK;
    if leftover < HEADER then leftover else 0
  }

  // How many of the `left` bytes the next fragment takes.
  function Cut(at: nat, left: nat): (n: nat)
    ensures n <= left && (at + Pad(at)) % BLOCK + HEADER + n <= BLOCK
  {
    var avail := BLOCK - (at + Pad(at)) % BLOCK - HEADER;
    if left < avail then left else avail
  }

  function TypeOf(begin: bool, end: bool): (kind: nat)
    ensures FULL <= kind <= LAST
  {
    if begin && end then FULL else if begin then FIRST else if end then LAST else MIDDLE
  }

  // What a trailer is filled with.
  function Zeros(n: nat): (b: Bytes)
    ensures |b| == n
  {
    seq(n, _ => 0)
  }

  // EmitPhysicalRecord: masked checksum of type and payload, length, type, payload.
  function Physical(crc: Crc, kind: nat, data: Bytes): (b: Bytes)
    requires kind < 256 && |data| <= 0xffff
    ensures |b| == HEADER + |data|
  {
    Fixed(Mask(crc([kind as Byte] + data)), 4)
    + [(|data| % 256) as Byte, (|data| / 256) as Byte, kind as Byte] + data
  }

  // The next trailer and fragment of a record, of which `rest` is still to be written.
  function Chunk(crc: Crc, at: nat, rest: Bytes, begin: bool): (b: Bytes)
    ensures |b| == Pad(at) + HEADER + Cut(at, |rest|)
  {
    var n := Cut(at, |rest|);
    Zeros(Pad(at)) + Physical(crc, TypeOf(begin, n == |rest|), rest[..n])
  }

  // The block that the next header goes into has no room for more.
  ghost predicate OnlyHeaderFits(at: nat) {
    BLOCK - (at + Pad(at)) % BLOCK == HEADER
  }

  lemma HeaderFillsOnce(at: nat, left: nat)
    ensures Cut(at, left) == 0 < left ==> OnlyHeaderFits(at) && !OnlyHeaderFits(at + Pad(at) + HEADER)
  {
    var p := at + Pad(at);
    if Cut(at, left) == 0 < left {
      assert p % BLOCK == BLOCK - HEADER;
      assert (p + HEADER) % BLOCK == 0;
    }
  }

  // All bytes of a record written when the log ends at `at`.
  function Emit(crc: Crc, at: nat, rest: Bytes, begin: bool): (b: Bytes)
    ensures |b| >= HEADER
    decreases |rest|, OnlyHeaderFits(at)
  {
    HeaderFillsOnce(at, |rest|);
    var c := Chunk(crc, at, rest, begin);
    var n := Cut(at, |rest|);
    if n == |rest| then c else c + Emit(crc, at + |c|, rest[n..], false)
  }

  lemma ChunkParts(crc: Crc, before: Bytes, rest: Bytes, begin: bool)
    ensures var n := Cut(|before|, |rest|);
      before + Chunk(crc, |before|, rest, begin)
      == (before + Zeros(Pad(|before|))) + Physical(crc, TypeOf(begin, n == |rest|), rest[..n])
  {
  }

  lemma EmitStep(crc: Crc, before: Bytes, rest: Bytes, begin: bool)
    ensures var n, c := Cut(|before|, |rest|), Chunk(crc, |before|, rest, begin);
      before + Emit(crc, |before|, rest, begin)
      == if n == |rest| then before + c else before + c + Emit(crc, |before + c|, rest[n..], false)
  {
    hide Chunk, Emit, Cut, Pad;
    var n, c := Cut(|before|, |rest|), Chunk(crc, |before|, rest, begin);
    EmitUnfolds(crc, |before|, rest, begin);
    if n < |rest| {
      Associative(before, c, Emit(crc, |before| + |c|, rest[n..], false));
    }
  }

  // The writer of a record has come to `dest`, and `rest` is still to be written.
  ghost predicate Written(crc: Crc, start: Bytes, slice: Bytes, dest: Bytes, rest: Bytes, begin: bool) {
    start + Emit(crc, |start|, slice, true)
    == if begin || |rest| > 0 then dest + Emit(crc, |dest|, rest, begin) else dest
  }

  lemma WrittenStarts(crc: Crc, start: Bytes, slice: Bytes)
    ensures Written(crc, start, slice, start, slice, true)
  {
    hide Emit;
  }

  lemma WrittenSteps(crc: Crc, start: Bytes, slice: Bytes, dest: Bytes, rest: Bytes, begin: bool)
    requires Written(crc, start, slice, dest, rest, begin) && (begin || |rest| > 0)
    ensures var n := Cut(|dest|, |rest|);
      Written(crc, start, slice, dest + Zeros(Pad(|dest|)) + Physical(crc, TypeOf(begin, n == |rest|), rest[..n]),
              rest[n..], false)
  {
    hide Emit, Chunk, Physical, Cut, Pad, TypeOf;
    ChunkParts(crc, dest, rest, begin);
    EmitStep(crc, dest, rest, begin);
  }

  lemma WrittenEnds(crc: Crc, start: Bytes, slice: Bytes, dest: Bytes)
    requires Written(crc, start, slice, dest, [], false)
    ensures dest == start + Emit(crc, |start|, slice, true)
  {
    hide Emit;
  }

  lemma PadWith(dest: Bytes)
    ensures dest + Zeros(0) == dest
  {
  }

  lemma EmitUnfolds(crc: Crc, at: nat, rest: Bytes, begin: bool)
    ensures var n, c := Cut(at, |rest|), Chunk(crc, at, rest, begin);
      Emit(crc, at, rest, begin) == if n == |rest| then c else c + Emit(crc, at + |c|, rest[n..], false)
  {
    hide Chunk, Cut, Pad;
  }

  lemma Associative(a: Bytes, b: Bytes, c: Bytes)
    ensures a + (b + c) == a + b + c
  {
  }

  /** The log that holds these records from offset `at` on. */
  function Layout(crc: Crc, at: nat, records: seq<Bytes>): Bytes
    decreases |records|
  {
    if |records| == 0 then []
    else var e := Emit(crc, at, records[0], true); e + Layout(crc, at + |e|, records[1..])
  }

  lemma {:induction false} LayoutAppend(crc: Crc, at: nat, records: seq<Bytes>, r: Bytes)
    ensures var l := Layout(crc, at, records);
      Layout(crc, at, records + [r]) == l + Emit(crc, at + |l|, r, true)
    decreases |records|
  {
    hide Emit, Layout;
    LayoutUnfolds(crc, at, records + [r]);
    LayoutUnfolds(crc, at, records);
    if |records| == 0 {
      assert records + [r] == [r];
      var e := Emit(crc, at, r, true);
      LayoutUnfolds(crc, at + |e|, [r][1..]);
    } else {
      var e := Emit(crc, at, records[0], true);
      LayoutAppend(crc, at + |e|, records[1..], r);
      assert (records + [r])[1..] == records[1..] + [r];
      var l := Layout(crc, at + |e|, records[1..]);
      Associative(e, l, Emit(crc, at + |e| + |l|, r, true));
    }
  }

  lemma LayoutUnfolds(crc: Crc, at: nat, records: seq<Bytes>)
    ensures Layout(crc, at, records)
         == if |records| == 0 then []
           else var e := Emit(crc, at, records[0], true); e + Layout(crc, at + |e|, records[1..])
  {
    hide Emit;
  }

  // ------------------------------------------------------------------ the writer

  lemma Remainder(at: nat, n: nat)
    requires at % BLOCK + n <= BLOCK
    ensures (at + n) % BLOCK == if at % BLOCK + n == BLOCK then 0 else at % BLOCK + n
  {
  }

  // The writer's offset in its block, against the length of the file.
  predicate Aligned(offset: nat, at: nat) {
    offset <= BLOCK && offset % BLOCK == at % BLOCK
  }

  class Writer {
    const crc: Crc
    var dest: Bytes            // the file
    var blockOffset: nat       // block_offset_
    ghost var records: seq<Bytes>

    ghost predicate Valid()
      reads this
    {
      && Aligned(blockOffset, |dest|)
      && dest == Layout(crc, 0, records)
    }

    constructor (crc: Crc)
      ensures Valid() && this.crc == crc && records == []
    {
      this.crc, dest, blockOffset, records := crc, [], 0, [];
    }

    // The constructor with dest_length: the file already holds whole records.
    constructor Reopen(crc: Crc, dest: Bytes, ghost records: seq<Bytes>)
      requires dest == Layout(crc, 0, records)
      ensures Valid() && this.crc == crc && this.records == records && this.dest == dest
    {
      this.crc, this.dest, this.records := crc, dest, records;
      blockOffset := |dest| % BLOCK;
    }

    /** Whatever was written before, and however often the log was reopened, the file is the
        layout of all its records. */
    method AddRecord(slice: Bytes)
      requires Valid()
      modifies this
      ensures Valid() && records == old(records) + [slice]
    {
      hide Fixed, Mask, Physical, Chunk, Emit, Layout, Pad, Cut, Aligned, TypeOf, Written;
      LayoutAppend(crc, 0, records, slice);
      var begin, rest := true, slice;
      WrittenStarts(crc, dest, slice);
      while begin || |rest| > 0
        invariant Aligned(blockOffset, |dest|) && records == old(records)
        invariant Written(crc, old(dest), slice, dest, rest, begin)
        decreases |rest|, begin, BLOCK - blockOffset == HEADER
      {
        ghost var before := dest;
        OffsetIsPad(blockOffset, |dest|, |rest|);
        var leftover := BLOCK - blockOffset;
        PadWith(before);
        if leftover < HEADER {
          dest := dest + Zeros(leftover);
          blockOffset := 0;
        }
        var avail := BLOCK - blockOffset - HEADER;
        var n := if |rest| < avail then |rest| else avail;
        var end := |rest| == n;
        var kind := TypeOf(begin, end);
        EmitPhysicalRecord(kind, rest[..n]);
        WrittenSteps(crc, old(dest), slice, before, rest, begin);
        rest := rest[n..];
        begin := false;
      }
      assert rest == [];
      WrittenEnds(crc, old(dest), slice, dest);
      records := records + [slice];
    }

    // The block offset and the file length tell the same trailer.
    static lemma OffsetIsPad(offset: nat, at: nat, left: nat)
      requires Aligned(offset, at)
      ensures offset <= BLOCK && Pad(at) == if BLOCK - offset < HEADER then BLOCK - offset else 0
      ensures var avail := BLOCK - (if BLOCK - offset < HEADER then 0 else offset) - HEADER;
        && Cut(at, left) == (if left < avail then left else avail)
        && var after := BLOCK - avail + Cut(at, left);
           Aligned(after, at + Pad(at) + HEADER + Cut(at, left))
           && (Cut(at, left) == 0 < left ==> offset == BLOCK - HEADER && after == BLOCK)
    {
      Remainder(at, Pad(at));
      Remainder(at + Pad(at), HEADER + Cut(at, left));
    }

    method EmitPhysicalRecord(kind: nat, data: Bytes)
      requires kind <= LAST && |data| <= 0xffff && blockOffset + HEADER + |data| <= BLOCK
      modifies this`dest, this`blockOffset
      ensures dest == old(dest) + Physical(crc, kind, data)
      ensures blockOffset == old(blockOffset) + HEADER + |data|
    {
      var header := [(|data| % 256) as Byte, (|data| / 256) as Byte, kind as Byte];
      dest := dest + (Fixed(Mask(crc([kind as Byte] + data)), 4) + header);
      dest := dest + data;
      blockOffset := blockOffset + HEADER + |data|;
    }
  }

  // ------------------------------------------------------------------ the reader

  // The file agrees with bytes c written at offset `at`, as far as it goes.
  ghost predicate Agrees(file: Bytes, at: nat, c: Bytes) {
    forall i :: 0 <= i < |c| && at + i < |file| ==> file[at + i] == c[i]
  }

  lemma AgreesSplit(file: Bytes, at: nat, a: Bytes, b: Bytes)
    ensures Agrees(file, at, a + b) <==> Agrees(file, at, a) && Agrees(file, at + |a|, b)
  {
    var c := a + b;
    if Agrees(file, at, c) {
      forall i | 0 <= i < |a| && at + i < |file| ensures file[at + i] == a[i] {
        assert c[i] == a[i];
      }
      forall i | 0 <= i < |b| && at + |a| + i < |file| ensures file[at + |a| + i] == b[i] {
        assert c[|a| + i] == b[i] && file[at + (|a| + i)] == c[|a| + i];
      }
    }
    if Agrees(file, at, a) && Agrees(file, at + |a|, b) {
      forall i | 0 <= i < |c| && at + i < |file| ensures file[at + i] == c[i] {
        if i >= |a| {
          assert file[at + |a| + (i - |a|)] == b[i - |a|];
        }
      }
    }
  }

  lemma PastTheEnd(file: Bytes, at: nat, c: Bytes)
    requires |file| <= at
    ensures Agrees(file, at, c)
  {
  }

  // What a parsed header tells when the bytes at p are a physical record.
  lemma HeaderOf(crc: Crc, file: Bytes, p: nat, kind: nat, data: Bytes, e: nat)
    requires kind < 256 && |data| <= 0xffff && p + HEADER <= e <= |file|
    requires Agrees(file, p, Physical(crc, kind, data))
    ensures var b := file[p..e];
      && b[4] as nat + b[5] as nat * 256 == |data| && b[6] as nat == kind
      && (HEADER + |data| <= |b| ==>
            b[HEADER..HEADER + |data|] == data && crc(b[6..HEADER + |data|]) == Unmask(Decode32(b[..4])))
  {
    var b, x := file[p..e], Physical(crc, kind, data);
    var masked := Mask(crc([kind as Byte] + data));
    forall i | 0 <= i < |b| && i < |x| ensures b[i] == x[i] {
      assert file[p + i] == x[i];
    }
    hide Physical, Mask, Unmask, Fixed, Agrees;
    HeaderParts(crc, kind, data);
    assert b[..4] == x[..4];
    if HEADER + |data| <= |b| {
      assert b[..HEADER + |data|] == x;
      assert b[6..HEADER + |data|] == x[6..];
      assert b[HEADER..HEADER + |data|] == x[HEADER..];
      Fixed32RoundTrip(masked);
      UnmaskMask(crc([kind as Byte] + data));
    }
  }

  lemma HeaderParts(crc: Crc, kind: nat, data: Bytes)
    requires kind < 256 && |data| <= 0xffff
    ensures var x := Physical(crc, kind, data);
      && x[..4] == Fixed(Mask(crc([kind as Byte] + data)), 4)
      && x[4] as nat + x[5] as nat * 256 == |data| && x[6] as nat == kind
      && x[6..] == [kind as Byte] + data && x[HEADER..] == data
  {
  }

  // A chunk is its trailer and its physical record.
  lemma ChunkAgrees(crc: Crc, file: Bytes, at: nat, rest: Bytes, begin: bool)
    requires Agrees(file, at, Chunk(crc, at, rest, begin))
    ensures var n := Cut(at, |rest|); Agrees(file, at + Pad(at), Physical(crc, TypeOf(begin, n == |rest|), rest[..n]))
  {
    hide Agrees, Pad, Cut, Physical;
    var n := Cut(at, |rest|);
    AgreesSplit(file, at, Zeros(Pad(at)), Physical(crc, TypeOf(begin, n == |rest|), rest[..n]));
  }

  // A buffer holds the rest of a block; fewer bytes than a header are its trailer.
  lemma BufferFits(at: nat, b: nat, left: nat)
    requires b > 0 ==> at % BLOCK + b <= BLOCK
    ensures b >= HEADER ==> Pad(at) == 0
    ensures (at + b) % BLOCK == 0 && b < HEADER ==> Pad(at) == b
    ensures (at + b) % BLOCK == 0 && b >= HEADER ==> HEADER + Cut(at, left) <= b
  {
  }

  lemma PadOnce(at: nat, left: nat)
    ensures Pad(at + Pad(at)) == 0 && Cut(at + Pad(at), left) == Cut(at, left)
    ensures Pad(at) < HEADER
  {
    Remainder(at, Pad(at));
  }

  /** What reading the next fragment must give: the fragment when the file holds all of it,
      and the end of the file otherwise. */
  ghost predicate ReadsNext(crc: Crc, fileLength: nat, at: nat, rest: Bytes, begin: bool, kind: nat, fragment: Bytes,
                            now: int) {
    var n, c := Cut(at, |rest|), Chunk(crc, at, rest, begin);
    if at + |c| <= fileLength then kind == TypeOf(begin, n == |rest|) && fragment == rest[..n] && now == at + |c|
    else kind == EOF
  }

  lemma EndOfFile(crc: Crc, fileLength: nat, at: nat, rest: Bytes, begin: bool, fragment: Bytes, now: int)
    requires at + Pad(at) + HEADER > fileLength
    ensures ReadsNext(crc, fileLength, at, rest, begin, EOF, fragment, now)
  {
  }

  // What the reader decides on a header, when the file goes on with a chunk at `at`.
  // The length field of a header.
  function LengthOf(b: Bytes): nat
    requires |b| >= HEADER
  {
    b[4] as nat + b[5] as nat * 256
  }

  // The buffer b holds the next fragment, or what the end of the file leaves of it.
  ghost predicate Parsed(crc: Crc, fileLength: nat, at: nat, rest: Bytes, begin: bool, b: Bytes, eof: bool)
    requires |b| >= HEADER
  {
    var n := HEADER + LengthOf(b);
    if n > |b| then eof && forall x, now :: ReadsNext(crc, fileLength, at, rest, begin, EOF, x, now)
    else
      && FULL <= b[6] as nat <= LAST
      && crc(b[6..n]) == Unmask(Decode32(b[..4]))
      && ReadsNext(crc, fileLength, at, rest, begin, b[6] as nat, b[HEADER..n], at + Pad(at) + n)
  }

  lemma ParsedCut(crc: Crc, fileLength: nat, at: nat, rest: Bytes, begin: bool, b: Bytes, eof: bool, now: nat)
    requires |b| >= HEADER && Parsed(crc, fileLength, at, rest, begin, b, eof) && HEADER + LengthOf(b) > |b|
    ensures eof && ReadsNext(crc, fileLength, at, rest, begin, EOF, [], now)
  {
    hide ReadsNext, LengthOf;
  }

  lemma ParsedWhole(crc: Crc, fileLength: nat, at: nat, rest: Bytes, begin: bool, b: Bytes, eof: bool)
    requires |b| >= HEADER && Parsed(crc, fileLength, at, rest, begin, b, eof) && HEADER + LengthOf(b) <= |b|
    ensures FULL <= TypeByte(b[6]) <= LAST
    ensures crc(b[6..HEADER + LengthOf(b)]) == Unmask(Decode32(b[..4]))
    ensures ReadsNext(crc, fileLength, at, rest, begin, TypeByte(b[6]), b[HEADER..HEADER + LengthOf(b)],
                      at + Pad(at) + HEADER + LengthOf(b))
  {
    hide ReadsNext, LengthOf, Unmask, Decode32, Pad;
  }

  // The type byte is read as a char and kept as an unsigned int.
  function TypeByte(b: Byte): (kind: nat)
    ensures b < 128 ==> kind == b as nat
    ensures b >= 128 ==> kind > BAD
  {
    if b < 128 then b as nat else 0xFFFF_FF00 + b as nat
  }

  lemma Parses(crc: Crc, file: Bytes, at: nat, rest: Bytes, begin: bool, e: nat, eof: bool)
    requires at + Pad(at) + HEADER <= e <= |file|
    requires eof ==> e == |file|
    requires !eof ==> at + Pad(at) + HEADER + Cut(at, |rest|) <= e
    requires Agrees(file, at, Chunk(crc, at, rest, begin))
    ensures Parsed(crc, |file|, at, rest, begin, file[at + Pad(at)..e], eof)
  {
    hide Physical, Mask, Unmask, Decode32, Pad, Cut;
    var n := Cut(at, |rest|);
    ChunkAgrees(crc, file, at, rest, begin);
    HeaderOf(crc, file, at + Pad(at), TypeOf(begin, n == |rest|), rest[..n], e);
  }

  // ------------------------------------------------------------------ what may be read

  // A fragment and the offset of its header.
  datatype Fragment = Fragment(at: nat, kind: nat, bytes: Bytes)

  // It is in the file, with a checksum that fits.
  ghost predicate IsStored(crc: Crc, file: Bytes, f: Fragment) {
    var end := f.at + HEADER + |f.bytes|;
    && end <= |file| && file[f.at + HEADER..end] == f.bytes
    && LengthOf(file[f.at..]) == |f.bytes| && TypeByte(file[f.at + 6]) == f.kind
    && crc(file[f.at + 6..end]) == Unmask(Decode32(file[f.at..f.at + 4]))
  }

  function Joined(fs: seq<Fragment>): Bytes {
    if |fs| == 0 then [] else Joined(fs[..|fs| - 1]) + fs[|fs| - 1].bytes
  }

  function EndOf(f: Fragment): nat {
    f.at + HEADER + |f.bytes|
  }

  // Stored fragments, one after the other, before this offset.
  ghost predicate InRow(crc: Crc, file: Bytes, fs: seq<Fragment>, end: nat) {
    && (forall i :: 0 <= i < |fs| ==> IsStored(crc, file, fs[i]))
    && (forall i, j :: 0 <= i < j < |fs| ==> EndOf(fs[i]) <= fs[j].at)
    && (|fs| > 0 ==> EndOf(fs[|fs| - 1]) <= end)
  }

  // The first fragments of a record, and all of them.
  ghost predicate Begins(crc: Crc, file: Bytes, fs: seq<Fragment>, end: nat, scratch: Bytes) {
    && |fs| > 0 && InRow(crc, file, fs, end) && scratch == Joined(fs)
    && fs[0].kind == FIRST && forall i :: 0 < i < |fs| ==> fs[i].kind == MIDDLE
  }

  ghost predicate MakesUp(crc: Crc, file: Bytes, fs: seq<Fragment>, end: nat, record: Bytes) {
    var n := |fs| - 1;
    && n >= 0 && InRow(crc, file, fs, end) && record == Joined(fs)
    && if n == 0 then fs[0].kind == FULL
       else fs[0].kind == FIRST && fs[n].kind == LAST && forall i :: 0 < i < n ==> fs[i].kind == MIDDLE
  }

  lemma OneFragment(crc: Crc, file: Bytes, f: Fragment, end: nat)
    requires IsStored(crc, file, f) && f.at + HEADER + |f.bytes| <= end
    ensures f.kind == FULL ==> MakesUp(crc, file, [f], end, f.bytes)
    ensures f.kind == FIRST ==> Begins(crc, file, [f], end, f.bytes)
  {
    hide IsStored;
    assert [f][..0] == [];
    assert Joined([f]) == [] + f.bytes;
  }

  lemma AnotherFragment(crc: Crc, file: Bytes, fs: seq<Fragment>, before: nat, scratch: Bytes, f: Fragment, end: nat)
    requires Begins(crc, file, fs, before, scratch) && IsStored(crc, file, f) && before <= f.at
    requires f.at + HEADER + |f.bytes| <= end
    ensures f.kind == MIDDLE ==> Begins(crc, file, fs + [f], end, scratch + f.bytes)
    ensures f.kind == LAST ==> MakesUp(crc, file, fs + [f], end, scratch + f.bytes)
  {
    hide IsStored, Joined;
    JoinsOneMore(fs, f);
    RowGrows(crc, file, fs, before, f, end);
    hide InRow;
    assert (fs + [f])[0] == fs[0];
  }

  lemma RowGrows(crc: Crc, file: Bytes, fs: seq<Fragment>, before: nat, f: Fragment, end: nat)
    requires InRow(crc, file, fs, before) && IsStored(crc, file, f) && before <= f.at
    requires f.at + HEADER + |f.bytes| <= end
    ensures InRow(crc, file, fs + [f], end)
  {
    hide IsStored;
    var all := fs + [f];
    forall i, j | 0 <= i < j < |all| ensures EndOf(all[i]) <= all[j].at {
      assert all[i] == fs[i];
      assert i < |fs| - 1 ==> EndOf(fs[i]) <= fs[|fs| - 1].at;
    }
  }

  lemma JoinsOneMore(fs: seq<Fragment>, f: Fragment)
    ensures Joined(fs + [f]) == Joined(fs) + f.bytes
  {
    assert (fs + [f])[..|fs|] == fs;
  }

  lemma StoredHere(crc: Crc, file: Bytes, at: nat, e: nat, b: Bytes)
    requires at <= e <= |file| && b == file[at..e] && |b| >= HEADER && |b| >= HEADER + LengthOf(b)
    requires crc(b[6..HEADER + LengthOf(b)]) == Unmask(Decode32(b[..4]))
    ensures IsStored(crc, file, Fragment(at, TypeByte(b[6]), b[HEADER..HEADER + LengthOf(b)]))
  {
    hide Unmask, Decode32, TypeByte;
    var n := HEADER + LengthOf(b);
    SliceOfSlice(file, at, e, 6, n);
    SliceOfSlice(file, at, e, HEADER, n);
    SliceOfSlice(file, at, e, 0, 4);
    assert file[at..][4] == b[4] && file[at..][5] == b[5] && file[at + 6] == b[6];
  }

  lemma SliceOfSlice(file: Bytes, at: nat, e: nat, i: nat, j: nat)
    requires at <= e <= |file| && i <= j <= e - at
    ensures file[at..e][i..j] == file[at + i..at + j]
  {
    forall k | 0 <= k < j - i ensures file[at..e][i..j][k] == file[at + i..at + j][k] {
    }
  }

  // What is left of a block at an offset does not reach into the next one.
  ghost predicate InBlock(at: nat, left: nat) {
    left > 0 ==> at % BLOCK + left <= BLOCK
  }

  lemma StaysInBlock(at: nat, left: nat, n: nat)
    requires InBlock(at, left) && n <= left
    ensures InBlock(at + n, left - n)
  {
    if n < left {
      assert (at + n) % BLOCK == at % BLOCK + n;
    }
  }

  class Reader {
    const crc: Crc
    const checksum: bool
    const file: Bytes
    var filePos: nat            // how far the SequentialFile has been read
    var buffer: Bytes
    var eof: bool
    var lastRecordOffset: int
    var endOfBufferOffset: int
    var reports: seq<(int, string)>

    // The reader stands at this offset of the file.
    ghost function At(): nat
      requires Valid()
      reads this`filePos, this`buffer, this`eof, this`endOfBufferOffset
    {
      filePos - |buffer|
    }

    ghost predicate Valid()
      reads this`filePos, this`buffer, this`eof, this`endOfBufferOffset
    {
      && |buffer| <= filePos <= |file| && |buffer| <= BLOCK && buffer == file[filePos - |buffer|..filePos]
      && (eof ==> filePos == |file|)
      && (!eof ==> filePos % BLOCK == 0)
      && InBlock(filePos - |buffer|, |buffer|)
      && endOfBufferOffset == filePos
    }

    // A reader with initial_offset 0.
    constructor (crc: Crc, file: Bytes, checksum: bool)
      ensures Valid() && At() == 0 && reports == []
      ensures this.crc == crc && this.file == file && this.checksum == checksum
    {
      this.crc, this.file, this.checksum := crc, file, checksum;
      filePos, buffer, eof, lastRecordOffset, endOfBufferOffset, reports := 0, [], false, 0, 0, [];
    }

    method ReportCorruption(bytes: int, reason: string)
      modifies this`reports
      ensures reports == old(reports) + [(bytes, reason)]
    {
      reports := reports + [(bytes, reason)];
    }

    // SequentialFile::Read
    method ReadBlock()
      requires Valid() && !eof && |buffer| < HEADER
      modifies this`filePos, this`buffer, this`eof, this`endOfBufferOffset
      ensures Valid() && At() == old(filePos) && (eof || (|buffer| == BLOCK && filePos > old(filePos)))
    {
      var n := if |file| - filePos < BLOCK then |file| - filePos else BLOCK;
      buffer := file[filePos..filePos + n];
      filePos := filePos + n;
      endOfBufferOffset := endOfBufferOffset + |buffer|;
      if |buffer| < BLOCK {
        eof := true;
      }
    }

    // buffer_.remove_prefix(n), and buffer_.clear() when n is all of it.
    method RemovePrefix(n: nat)
      requires Valid() && n <= |buffer|
      modifies this`buffer
      ensures Valid() && At() == old(At()) + n && buffer == old(buffer)[n..]
    {
      hide InBlock;
      StaysInBlock(filePos - |buffer|, |buffer|, n);
      buffer := buffer[n..];
    }

    // The first part of ReadPhysicalRecord: skip the trailer and read the next block, until
    // the buffer holds a header or the file ends.
    method FillHeader(ghost left: nat) returns (more: bool)
      requires Valid()
      modifies this`filePos, this`buffer, this`eof, this`endOfBufferOffset
      ensures Valid() && At() >= old(At())
      ensures !more ==> old(At()) + Pad(old(At())) + HEADER > |file|
      ensures more ==> |buffer| >= HEADER && At() == old(At()) + Pad(old(At()))
      ensures more && !eof ==> At() + HEADER + Cut(old(At()), left) <= filePos
    {
      hide Pad, Cut;
      ghost var at := At();
      BufferFits(at, |buffer|, left);
      while |buffer| < HEADER
        invariant Valid() && (At() == at || At() == at + Pad(at))
        invariant |buffer| < HEADER ==> (At() == at && (!eof ==> Pad(at) == |buffer|)) || (eof && At() == at + Pad(at))
        invariant |buffer| >= HEADER ==> At() == at + Pad(at) && (!eof ==> At() + HEADER + Cut(at, left) <= filePos)
        decreases !eof, |file| - filePos
      {
        if eof {
          RemovePrefix(|buffer|);
          return false;
        }
        ReadBlock();
        PadOnce(at, left);
        BufferFits(At(), |buffer|, left);
      }
      more := true;
    }

    /** When the file goes on with the next fragment of a log: the fragment if it is there in
        full, the end of the file otherwise, and no report. */
    method ReadPhysicalRecord(ghost rest: Bytes, ghost begin: bool) returns (kind: nat, fragment: Bytes)
      requires Valid()
      modifies this`filePos, this`buffer, this`eof, this`endOfBufferOffset, this`reports
      ensures Valid() && At() >= old(At())
      ensures kind != EOF ==> At() > old(At())
      ensures Agrees(file, old(At()), Chunk(crc, old(At()), rest, begin)) ==>
          reports == old(reports) && ReadsNext(crc, |file|, old(At()), rest, begin, kind, fragment, At())
      ensures checksum && kind != EOF && kind != BAD ==>
        var at := At() - HEADER - |fragment|;
        old(At()) <= at && IsStored(crc, file, Fragment(at, kind, fragment))
    {
      hide Valid, Chunk, Physical, Agrees, Mask, Unmask, Pad, Cut, Decode32, TypeOf, TypeByte, LengthOf, Parsed,
        ReadsNext, At, IsStored;
      ghost var at, known := At(), Agrees(file, At(), Chunk(crc, At(), rest, begin));
      var more := FillHeader(|rest|);
      if !more {
        EndOfFile(crc, |file|, at, rest, begin, [], At());
        return EOF, [];
      }
      BufferIs();
      if known {
        Parses(crc, file, at, rest, begin, filePos, eof);
      }
      var header := buffer;
      var length := LengthOf(header);
      kind := TypeByte(header[6]);
      if HEADER + length > |buffer| {
        var dropSize := |buffer|;
        RemovePrefix(|buffer|);
        if known {
          ParsedCut(crc, |file|, at, rest, begin, header, eof, At());
        }
        if !eof {
          ReportCorruption(dropSize, "bad record length");
          return BAD, [];
        }
        return EOF, [];
      }
      if known {
        ParsedWhole(crc, |file|, at, rest, begin, header, eof);
      }
      if kind == ZERO && length == 0 {
        RemovePrefix(|buffer|);
        return BAD, [];
      }
      if checksum && crc(header[6..HEADER + length]) != Unmask(Decode32(header[..4])) {
        var dropSize := |buffer|;
        RemovePrefix(|buffer|);
        ReportCorruption(dropSize, "checksum mismatch");
        return BAD, [];
      }
      if checksum {
        StoredHere(crc, file, At(), filePos, header);
      }
      RemovePrefix(HEADER + length);
      return kind, header[HEADER..HEADER + length];
    }

    /** When the file goes on with a record of the log: the record if it is there in full, and
        the end of the log otherwise, without a report in either case.  Whatever the file holds,
        a record that is read is made up of stored fragments with checksums that fit. */
    method ReadRecord(ghost next: Bytes) returns (ok: bool, record: Bytes, ghost fs: seq<Fragment>)
      requires Valid()
      modifies this`filePos, this`buffer, this`eof, this`endOfBufferOffset, this`reports, this`lastRecordOffset
      ensures Valid() && (ok ==> At() > old(At()))
      ensures var at := old(At()); var e := Emit(crc, at, next, true);
        Agrees(file, at, e) ==>
          && reports == old(reports) && (ok <==> at + |e| <= |file|)
          && (ok ==> record == next && At() == at + |e| && lastRecordOffset == at + Pad(at))
      ensures ok && checksum ==> MakesUp(crc, file, fs, At(), record)
    {
      hide Valid, Agrees, Emit, Chunk, Pad, Cut, ReadsNext, InRecord, At, IsStored, Begins, MakesUp;
      AtIsEnd();
      fs := [];
      var scratch: Bytes, inFragmentedRecord := [], false;
      var prospective := 0;
      ghost var from, rest, begin, known := At(), next, true, Agrees(file, At(), Emit(crc, At(), next, true));
      if known {
        RecordStarts(crc, file, from, next);
      }
      while true
        invariant Valid() && At() >= from
        invariant checksum && inFragmentedRecord ==> Begins(crc, file, fs, At(), scratch)
        invariant known ==>
            && reports == old(reports) && inFragmentedRecord == !begin
            && (!begin ==> prospective == from + Pad(from))
            && InRecord(crc, file, from, next, At(), rest, begin, scratch)
        decreases |file| - At()
      {
        ghost var at := At();
        if known {
          RecordAgrees(crc, file, from, next, at, rest, begin, scratch);
        }
        var kind, fragment := ReadPhysicalRecord(rest, begin);
        var physical := endOfBufferOffset - |buffer| - HEADER - |fragment|;
        AtIsEnd();
        ghost var f := Fragment(if At() < HEADER + |fragment| then 0 else At() - HEADER - |fragment|, kind, fragment);
        if checksum && kind != EOF && kind != BAD {
          OneFragment(crc, file, f, At());
          if inFragmentedRecord {
            AnotherFragment(crc, file, fs, at, scratch, f, At());
          }
        }
        if known {
          RecordSteps(crc, file, from, next, at, rest, begin, scratch, kind, fragment, At());
        }
        if kind == FULL {
          if inFragmentedRecord && |scratch| > 0 {
            ReportCorruption(|scratch|, "partial record without end(1)");
          }
          lastRecordOffset := physical;
          return true, fragment, [f];
        } else if kind == FIRST {
          if inFragmentedRecord && |scratch| > 0 {
            ReportCorruption(|scratch|, "partial record without end(2)");
          }
          prospective := physical;
          scratch, inFragmentedRecord, fs := fragment, true, [f];
        } else if kind == MIDDLE {
          if !inFragmentedRecord {
            ReportCorruption(|fragment|, "missing start of fragmented record(1)");
          } else {
            scratch, fs := scratch + fragment, fs + [f];
          }
        } else if kind == LAST {
          if !inFragmentedRecord {
            ReportCorruption(|fragment|, "missing start of fragmented record(2)");
          } else {
            lastRecordOffset := prospective;
            return true, scratch + fragment, fs + [f];
          }
        } else if kind == EOF {
          return false, [], [];
        } else if kind == BAD {
          if inFragmentedRecord {
            ReportCorruption(|scratch|, "error in middle of record");
            inFragmentedRecord, scratch := false, [];
          }
        } else {
          ReportCorruption(|fragment| + if inFragmentedRecord then |scratch| else 0, "unknown record type");
          inFragmentedRecord, scratch := false, [];
        }
        rest, begin := rest[Cut(at, |rest|)..], false;
      }
    }

    lemma BufferIs()
      requires Valid()
      ensures At() + |buffer| == filePos <= |file| && buffer == file[At()..filePos] && (eof ==> filePos == |file|)
    {
    }

    lemma AtIsEnd()
      requires Valid()
      ensures At() == endOfBufferOffset - |buffer| <= |file|
    {
    }
  }

  // Where the reader stands in the record `next` that starts at `from`.
  ghost predicate InRecord(crc: Crc, file: Bytes, from: nat, next: Bytes, at: nat, rest: Bytes, begin: bool,
                           scratch: Bytes) {
    && scratch + rest == next && (begin ==> at == from && scratch == [])
    && Agrees(file, at, Emit(crc, at, rest, begin))
    && at + |Emit(crc, at, rest, begin)| == from + |Emit(crc, from, next, true)|
  }

  lemma RecordStarts(crc: Crc, file: Bytes, from: nat, next: Bytes)
    requires Agrees(file, from, Emit(crc, from, next, true))
    ensures InRecord(crc, file, from, next, from, next, true, [])
  {
    hide Agrees, Emit;
  }

  lemma RecordAgrees(crc: Crc, file: Bytes, from: nat, next: Bytes, at: nat, rest: Bytes, begin: bool, scratch: Bytes)
    requires InRecord(crc, file, from, next, at, rest, begin, scratch)
    ensures Agrees(file, at, Chunk(crc, at, rest, begin))
  {
    hide Agrees, Emit, Chunk;
    Advances(crc, file, at, rest, begin, EOF, [], at);
  }

  // A whole record ends in the fragment, or a longer one goes on behind it.
  lemma RecordSteps(crc: Crc, file: Bytes, from: nat, next: Bytes, at: nat, rest: Bytes, begin: bool, scratch: Bytes,
                    kind: nat, fragment: Bytes, now: int)
    requires InRecord(crc, file, from, next, at, rest, begin, scratch)
    requires ReadsNext(crc, |file|, at, rest, begin, kind, fragment, now)
    ensures kind == EOF ==> from + |Emit(crc, from, next, true)| > |file|
    ensures kind != EOF ==>
      && now == at + Pad(at) + HEADER + |fragment| && (begin ==> at == from && scratch + fragment == fragment)
      && kind == TypeOf(begin, Cut(at, |rest|) == |rest|)
    ensures kind != EOF && Cut(at, |rest|) == |rest| ==>
      now == from + |Emit(crc, from, next, true)| <= |file| && scratch + fragment == next
    ensures kind != EOF && Cut(at, |rest|) < |rest| ==>
      InRecord(crc, file, from, next, now, rest[Cut(at, |rest|)..], false, scratch + fragment)
  {
    hide Agrees, Emit, Chunk, Pad, Cut, ReadsNext, TypeOf;
    Advances(crc, file, at, rest, begin, kind, fragment, now);
    if kind != EOF && Cut(at, |rest|) < |rest| {
      ScratchGrows(next, scratch, rest, Cut(at, |rest|));
    }
  }

  lemma ScratchGrows(next: Bytes, scratch: Bytes, rest: Bytes, n: nat)
    requires scratch + rest == next && n <= |rest|
    ensures (scratch + rest[..n]) + rest[n..] == next
  {
  }

  // What reading a fragment does to the record it is part of.
  lemma Advances(crc: Crc, file: Bytes, at: nat, rest: Bytes, begin: bool, kind: nat, fragment: Bytes, now: int)
    ensures var n, e := Cut(at, |rest|), Emit(crc, at, rest, begin);
      Agrees(file, at, e) ==> Agrees(file, at, Chunk(crc, at, rest, begin))
    ensures var n, e := Cut(at, |rest|), Emit(crc, at, rest, begin);
      Agrees(file, at, e) && ReadsNext(crc, |file|, at, rest, begin, kind, fragment, now) ==>
        if kind == EOF then at + |e| > |file|
        else
          && kind == TypeOf(begin, n == |rest|) && fragment == rest[..n]
          && now == at + Pad(at) + HEADER + n <= |file|
          && if n == |rest| then now == at + |e| && fragment == rest
             else
               && Agrees(file, now, Emit(crc, now, rest[n..], false))
               && now + |Emit(crc, now, rest[n..], false)| == at + |e|
  {
    hide Pad, Cut, Chunk, Emit, Agrees;
    var n, c, e := Cut(at, |rest|), Chunk(crc, at, rest, begin), Emit(crc, at, rest, begin);
    EmitUnfolds(crc, at, rest, begin);
    if n < |rest| {
      AgreesSplit(file, at, c, Emit(crc, at + |c|, rest[n..], false));
    }
  }

  // ------------------------------------------------------------------ the whole log

  // How many of the records from offset `at` on end within the first n bytes.
  ghost function Complete(crc: Crc, at: nat, records: seq<Bytes>, n: nat): (k: nat)
    ensures k <= |records|
    decreases |records|
  {
    if |records| == 0 || at + |Emit(crc, at, records[0], true)| > n then 0
    else 1 + Complete(crc, at + |Emit(crc, at, records[0], true)|, records[1..], n)
  }

  lemma {:induction false} CompleteIsPrefix(crc: Crc, at: nat, records: seq<Bytes>, n: nat, k: nat)
    requires k <= |records| && at <= n
    ensures k <= Complete(crc, at, records, n) <==> at + |Layout(crc, at, records[..k])| <= n
    decreases |records|
  {
    hide Emit;
    if k > 0 {
      var e := Emit(crc, at, records[0], true);
      assert records[..k][0] == records[0] && records[..k][1..] == records[1..][..k - 1];
      if at + |e| <= n {
        CompleteIsPrefix(crc, at + |e|, records[1..], n, k - 1);
      }
    }
  }

  // Where reading stands: `out` has been read, and the file goes on at `at` with `todo`.
  ghost predicate Resumes(crc: Crc, file: Bytes, records: seq<Bytes>, out: seq<Bytes>, at: nat, todo: seq<Bytes>) {
    && Agrees(file, at, Layout(crc, at, todo)) && |file| <= at + |Layout(crc, at, todo)|
    && records[..Complete(crc, 0, records, |file|)] == out + todo[..Complete(crc, at, todo, |file|)]
  }

  lemma ResumeSteps(crc: Crc, file: Bytes, records: seq<Bytes>, out: seq<Bytes>, at: nat, todo: seq<Bytes>)
    requires Resumes(crc, file, records, out, at, todo)
    ensures var next := if |todo| > 0 then todo[0] else []; var e := Emit(crc, at, next, true);
      && Agrees(file, at, e)
      && (at + |e| <= |file| ==> |todo| > 0 && Resumes(crc, file, records, out + [next], at + |e|, todo[1..]))
      && (at + |e| > |file| ==> records[..Complete(crc, 0, records, |file|)] == out)
  {
    hide Emit, Agrees, Complete, Layout;
    LayoutSteps(crc, file, at, todo);
    if |todo| > 0 {
      var e, n := Emit(crc, at, todo[0], true), |file|;
      var more := todo[1..][..Complete(crc, at + |e|, todo[1..], n)];
      assert out + ([todo[0]] + more) == (out + [todo[0]]) + more;
    } else {
      assert todo == [] && out + [] == out;
    }
  }

  // Each record is made up of stored fragments.
  ghost predicate NothingMadeUp(crc: Crc, file: Bytes, out: seq<Bytes>) {
    forall r :: r in out ==> exists fs, end :: MakesUp(crc, file, fs, end, r)
  }

  /** Reading any prefix of a log gives exactly the records whose last byte lies in the
      prefix, in order, and reports no corruption.  Reading any file with checksums gives only
      records that are stored in it. */
  method ReadAll(crc: Crc, file: Bytes, checksum: bool, ghost records: seq<Bytes>)
    returns (out: seq<Bytes>, reports: seq<(int, string)>)
    ensures file <= Layout(crc, 0, records) ==> reports == [] && out == records[..Complete(crc, 0, records, |file|)]
    ensures checksum ==> NothingMadeUp(crc, file, out)
  {
    hide MakesUp;
    hide Emit, Agrees, Layout, Resumes, Complete, Pad, Reader.Valid, Reader.At;
    var reader := new Reader(crc, file, checksum);
    ghost var todo, known := records, file <= Layout(crc, 0, records);
    out := [];
    if known {
      PrefixResumes(crc, file, records);
    }
    while true
      invariant fresh(reader) && reader.Valid() && reader.crc == crc && reader.file == file
      invariant reader.checksum == checksum && (checksum ==> NothingMadeUp(crc, file, out))
      invariant known ==> reader.reports == [] && Resumes(crc, file, records, out, reader.At(), todo)
      decreases |file| - reader.At()
    {
      reader.AtIsEnd();
      ghost var at := reader.At();
      if known {
        ResumeSteps(crc, file, records, out, at, todo);
      }
      var ok, record, fs := reader.ReadRecord(if |todo| > 0 then todo[0] else []);
      if !ok {
        break;
      }
      out := out + [record];
      todo := if |todo| > 0 then todo[1..] else [];
    }
    reports := reader.reports;
  }

  lemma PrefixResumes(crc: Crc, file: Bytes, records: seq<Bytes>)
    requires file <= Layout(crc, 0, records)
    ensures Resumes(crc, file, records, [], 0, records)
  {
  }

  // The log from one record on, and from the next one on.
  lemma LayoutSteps(crc: Crc, file: Bytes, at: nat, todo: seq<Bytes>)
    requires Agrees(file, at, Layout(crc, at, todo)) && |file| <= at + |Layout(crc, at, todo)|
    ensures todo == [] ==>
      |file| <= at && Agrees(file, at, Emit(crc, at, [], true)) && Complete(crc, at, todo, |file|) == 0
    ensures todo != [] ==>
      var e := Emit(crc, at, todo[0], true); var n := |file|;
      && Agrees(file, at, e)
      && Agrees(file, at + |e|, Layout(crc, at + |e|, todo[1..])) && n <= at + |e| + |Layout(crc, at + |e|, todo[1..])|
      && todo[..Complete(crc, at, todo, n)]
        == if at + |e| > n then [] else [todo[0]] + todo[1..][..Complete(crc, at + |e|, todo[1..], n)]
  {
    hide Emit, Agrees;
    if todo == [] {
      PastTheEnd(file, at, Emit(crc, at, [], true));
    } else {
      var e, l := Emit(crc, at, todo[0], true), Layout(crc, at, todo);
      var t := Layout(crc, at + |e|, todo[1..]);
      assert l == e + t;
      AgreesSplit(file, at, e, t);
    }
  }
}
