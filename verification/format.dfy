/** The format of tables: block handles, stored blocks and the footer (table/format.h,
    table/format.cc). */
module TableFormat {
  import opened Keys
  import opened Coding
  import opened LogFormat

  // ------------------------------------------------------------------ handles and stored blocks

  datatype Handle = Handle(offset: nat, size: nat)

  // BlockHandle::EncodeTo
  function EncodeHandle(h: Handle): Bytes {
    Varint(h.offset) + Varint(h.size)
  }

  // BlockHandle::DecodeFrom, and what follows the handle.
  function ReadHandle(b: Bytes): Option<(Handle, Bytes)> {
    match ReadVarint(b, 64)
    case None => None
    case Some((offset, n)) =>
      match ReadVarint(b[n..], 64)
      case None => None
      case Some((size, m)) => Some((Handle(offset, size), b[n + m..]))
  }

  function DecodeHandle(b: Bytes): Option<Handle> {
    match ReadHandle(b)
    case None => None
    case Some((h, _)) => Some(h)
  }

  ghost predicate HandleFits(h: Handle) {
    h.offset < 0x1_0000_0000_0000_0000 && h.size < 0x1_0000_0000_0000_0000
  }

  lemma HandleReadsBack(h: Handle, tail: Bytes)
    requires HandleFits(h)
    ensures ReadHandle(EncodeHandle(h) + tail) == Some((h, tail))
  {
    hide Varint, ReadVarint, Power;
    var b, rest := EncodeHandle(h) + tail, Varint(h.size) + tail;
    assert b == Varint(h.offset) + rest;
    Power64();
    VarintRoundTrip(h.offset, rest, 64);
    VarintRoundTrip(h.size, tail, 64);
    var n, m := |Varint(h.offset)|, |Varint(h.size)|;
    assert b[n..] == rest && b[n + m..] == tail;
  }

  lemma HandleRoundTrip(h: Handle)
    requires HandleFits(h)
    ensures DecodeHandle(EncodeHandle(h)) == Some(h)
  {
    HandleReadsBack(h, []);
    assert EncodeHandle(h) + [] == EncodeHandle(h);
    hide EncodeHandle, ReadHandle;
  }

  // Snappy_Compress and Snappy_Uncompress.
  datatype Codec = Codec(compress: Bytes -> Option<Bytes>, uncompress: Bytes -> Option<Bytes>)

  ghost predicate CodecOk(codec: Codec) {
    forall x, y :: codec.compress(x) == Some(y) ==> codec.uncompress(y) == Some(x)
  }

  // What WriteBlock stores, and its compression type.
  function Stored(codec: Codec, raw: Bytes): (Bytes, Byte) {
    var z := codec.compress(raw);
    if z.Some? && |z.value| < |raw| - |raw| / 8 then (z.value, 1) else (raw, 0)
  }

  const TRAILER: nat := 5

  function Trailer(crc: Crc, contents: Bytes, kind: Byte): (t: Bytes)
    ensures |t| == TRAILER
  {
    [kind] + Fixed(Mask(crc(contents + [kind])), 4)
  }

  // The block is in the file where its handle says.
  ghost predicate StoredAt(crc: Crc, file: Bytes, h: Handle, contents: Bytes, kind: Byte) {
    && h.size == |contents| && h.offset + h.size + TRAILER <= |file|
    && file[h.offset..h.offset + h.size + TRAILER] == contents + Trailer(crc, contents, kind)
  }

  // ReadBlock
  function ReadBlock(crc: Crc, codec: Codec, file: Bytes, h: Handle, verify: bool): Option<Bytes> {
    var n := h.size;
    if h.offset + n + TRAILER > |file| then None
    else
      var contents := file[h.offset..h.offset + n + TRAILER];
      if verify && Unmask(Decode32(contents[n + 1..])) != crc(contents[..n + 1]) then None
      else if contents[n] == 0 then Some(contents[..n])
      else if contents[n] == 1 then codec.uncompress(contents[..n])
      else None
  }

  lemma ReadsRaw(crc: Crc, codec: Codec, file: Bytes, h: Handle, contents: Bytes, kind: Byte, verify: bool)
    requires StoredAt(crc, file, h, contents, kind) && kind <= 1
    ensures ReadBlock(crc, codec, file, h, verify) == if kind == 0 then Some(contents) else codec.uncompress(contents)
  {
    var masked := Mask(crc(contents + [kind]));
    var b, n := file[h.offset..h.offset + h.size + TRAILER], |contents|;
    hide Fixed, Decode32, Mask, Unmask;
    assert b == contents + ([kind] + Fixed(masked, 4));
    assert b[..n] == contents && b[n] == ([kind] + Fixed(masked, 4))[0] == kind;
    assert b[..n + 1] == contents + [kind];
    assert b[n + 1..] == Fixed(masked, 4);
    Fixed32RoundTrip(masked);
    UnmaskMask(crc(contents + [kind]));
  }

  /** With verification on, a block whose checksum does not fit is not read. */
  lemma BadChecksumIsRefused(crc: Crc, codec: Codec, file: Bytes, h: Handle)
    requires h.offset + h.size + TRAILER <= |file|
    requires var b := file[h.offset..h.offset + h.size + TRAILER];
      Unmask(Decode32(b[h.size + 1..])) != crc(b[..h.size + 1])
    ensures ReadBlock(crc, codec, file, h, true) == None
  {
  }

  /** A block of an unknown compression type is not read. */
  lemma UnknownKindIsRefused(crc: Crc, codec: Codec, file: Bytes, h: Handle, verify: bool)
    requires h.offset + h.size + TRAILER <= |file| && file[h.offset + h.size] > 1
    ensures ReadBlock(crc, codec, file, h, verify) == None
  {
  }

  /** Reading a block back, compressed or not. */
  lemma ReadsStored(crc: Crc, codec: Codec, file: Bytes, h: Handle, raw: Bytes, verify: bool)
    requires CodecOk(codec)
    requires var (contents, kind) := Stored(codec, raw); StoredAt(crc, file, h, contents, kind)
    ensures ReadBlock(crc, codec, file, h, verify) == Some(raw)
  {
    var (contents, kind) := Stored(codec, raw);
    ReadsRaw(crc, codec, file, h, contents, kind, verify);
    hide ReadBlock, StoredAt;
  }

  lemma StoredStays(crc: Crc, file: Bytes, more: Bytes, h: Handle, contents: Bytes, kind: Byte)
    requires StoredAt(crc, file, h, contents, kind)
    ensures StoredAt(crc, file + more, h, contents, kind)
  {
    assert (file + more)[h.offset..h.offset + h.size + TRAILER] == file[h.offset..h.offset + h.size + TRAILER];
  }

  // ------------------------------------------------------------------ the footer

  // Where the metaindex block and the index block are.
  datatype Footer = Footer(metaindex: Handle, index: Handle)

  const MAX_HANDLE: nat := 20
  const FOOTER: nat := 48
  const MAGIC_LOW: U32 := 0x8b80_fb57
  const MAGIC_HIGH: U32 := 0xdb47_7524

  // std::string::resize
  function Resized(b: Bytes, n: nat): (r: Bytes)
    ensures |r| == n
  {
    if |b| >= n then b[..n] else b + Zeros(n - |b|)
  }

  // Footer::EncodeTo
  function EncodeFooter(f: Footer): (b: Bytes)
    ensures |b| == FOOTER
  {
    Resized(EncodeHandle(f.metaindex) + EncodeHandle(f.index), 2 * MAX_HANDLE) + Fixed(MAGIC_LOW, 4)
      + Fixed(MAGIC_HIGH, 4)
  }

  // Footer::DecodeFrom
  function DecodeFooter(b: Bytes): Option<Footer>
    requires |b| == FOOTER
  {
    if Decode32(b[FOOTER - 8..FOOTER - 4]) != MAGIC_LOW || Decode32(b[FOOTER - 4..]) != MAGIC_HIGH then None
    else
      match ReadHandle(b)
      case None => None
      case Some((metaindex, rest)) =>
        match ReadHandle(rest)
        case None => None
        case Some((index, _)) => Some(Footer(metaindex, index))
  }

  /** The footer reads back: two handles of ten-byte varints leave nothing to cut off. */
  lemma FooterRoundTrip(f: Footer)
    requires HandleFits(f.metaindex) && HandleFits(f.index)
    ensures DecodeFooter(EncodeFooter(f)) == Some(f)
  {
    hide EncodeHandle, ReadHandle, Fixed, Decode32;
    HandleLength(f.metaindex);
    HandleLength(f.index);
    var handles := EncodeHandle(f.metaindex) + EncodeHandle(f.index);
    var magic := Fixed(MAGIC_LOW, 4) + Fixed(MAGIC_HIGH, 4);
    var tail := Zeros(2 * MAX_HANDLE - |handles|) + magic;
    var b := EncodeFooter(f);
    assert b == EncodeHandle(f.metaindex) + (EncodeHandle(f.index) + tail);
    assert b[FOOTER - 8..FOOTER - 4] == Fixed(MAGIC_LOW, 4) && b[FOOTER - 4..] == Fixed(MAGIC_HIGH, 4);
    Fixed32RoundTrip(MAGIC_LOW);
    Fixed32RoundTrip(MAGIC_HIGH);
    HandleReadsBack(f.metaindex, EncodeHandle(f.index) + tail);
    HandleReadsBack(f.index, tail);
  }

  lemma HandleLength(h: Handle)
    requires HandleFits(h)
    ensures |EncodeHandle(h)| <= MAX_HANDLE
  {
    TenBytes(h.offset);
    TenBytes(h.size);
    hide Varint;
  }
}
