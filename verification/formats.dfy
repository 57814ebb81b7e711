/** The bytes of the formats, at one example each: as doc/log_format.md, doc/table_format.md and
    the head of db/write_batch.cc give them, the files of other builds of the engine look. */
module Formats {
  import opened Keys
  import opened Coding
  import opened DbFormat
  import opened WriteBatches
  import opened LogFormat
  import opened Blocks
  import opened TableFormat
  import opened Comparators
  import opened VersionEdits

  /** An internal key: the user key, then the type and the sequence number, lowest byte first. */
  lemma InternalKeyBytes()
    ensures Encode([97], 5, Value) == [97, 1, 5, 0, 0, 0, 0, 0, 0]
    ensures Encode([97], 5, Deletion) == [97, 0, 5, 0, 0, 0, 0, 0, 0]
  {
    hide Fixed;
    Eight(5 * 256 + 1);
    Eight(5 * 256);
  }

  lemma Eight(n: nat)
    requires n < 65536
    ensures Fixed(n, 8) == [(n % 256) as Byte, (n / 256) as Byte, 0, 0, 0, 0, 0, 0]
  {
    hide Fixed;
    Low(n, 8);
    Low(n / 256, 7);
    Low(0, 6);
    Low(0, 5);
    Low(0, 4);
    Low(0, 3);
    Low(0, 2);
    Low(0, 1);
    Low(0, 0);
  }

  lemma Low(n: nat, width: nat)
    ensures Fixed(n, width) == if width == 0 then [] else [(n % 256) as Byte] + Fixed(n / 256, width - 1)
  {
  }

  lemma Four(n: nat)
    requires n < 65536
    ensures Fixed(n, 4) == [(n % 256) as Byte, (n / 256) as Byte, 0, 0]
  {
    hide Fixed;
    Low(n, 4);
    Low(n / 256, 3);
    Low(0, 2);
    Low(0, 1);
    Low(0, 0);
  }

  /** A varint: seven bits a byte, the lowest first, and the eighth bit while there are more. */
  lemma VarintBytes()
    ensures Varint(1) == [1] && Varint(300) == [0xAC, 2] && Varint(16384) == [0x80, 0x80, 1]
  {
    assert Varint(16384) == [0x80] + Varint(128);
    assert Varint(128) == [0x80] + Varint(1);
    assert Varint(300) == [0xAC] + Varint(2);
  }

  /** A batch that puts b at a and deletes a, from sequence number 5 on. */
  lemma BatchBytes()
    ensures Encoded(5, [Put([97], [98]), Delete([97])])
         == [5, 0, 0, 0, 0, 0, 0, 0] + [2, 0, 0, 0] + ([1, 1, 97, 1, 98] + [0, 1, 97])
  {
    var ops := [Put([97], [98]), Delete([97])];
    hide Fixed;
    Eight(5);
    Four(2);
    assert Varint(1) == [1];
    assert ops[1..] == [Delete([97])];
    hide Records, Record, Varint;
    TwoRecords(ops[0], ops[1]);
    OneRecord();
  }

  lemma TwoRecords(a: Op, b: Op)
    ensures Records([a, b]) == Record(a) + Record(b)
  {
    assert [a, b][1..] == [b] && [b][1..] == [];
    hide Record;
    assert Records([b]) == Record(b) + Records([]);
  }

  lemma OneRecord()
    ensures Record(Put([97], [98])) == [1, 1, 97, 1, 98] && Record(Delete([97])) == [0, 1, 97]
  {
    assert Varint(1) == [1];
    hide Varint;
  }

  /** A record of two bytes at the head of a log: masked checksum, length, type, bytes. */
  lemma RecordBytes(crc: Crc)
    ensures LogFormat.Emit(crc, 0, [97, 98], true) == Fixed(Mask(crc([1, 97, 98])), 4) + [2, 0, 1, 97, 98]
  {
    assert [97, 98][..2] == [97, 98] && [1 as Byte] + [97, 98] == [1, 97, 98];
    hide Fixed, Mask;
  }

  /** A checksum is rotated right by 15 bits, and a constant is added. */
  lemma MaskBytes()
    ensures Mask(0) == 0xa282_ead8 && Mask(1) == 0xa284_ead8 && Mask(0x8000) == 0xa282_ead9
  {
  }

  /** A block of the pair (a, b): no shared bytes, two lengths, key and value, then the restart
      array and its size. */
  lemma BlockBytes()
    ensures EntryBytes(0, [97], [98]) == [0, 1, 1, 97, 98]
  {
    assert Varint(0) == [0] && Varint(1) == [1];
    assert [97][0..] == [97];
    hide Varint;
  }

  /** The last eight bytes of a table. */
  lemma FooterBytes(f: Footer)
    ensures EncodeFooter(f)[40..] == [0x57, 0xfb, 0x80, 0x8b, 0x24, 0x75, 0x47, 0xdb]
  {
    hide Resized, EncodeHandle;
    MagicBytes();
    assert EncodeFooter(f)[40..] == Fixed(MAGIC_LOW, 4) + Fixed(MAGIC_HIGH, 4);
    hide Fixed;
  }

  lemma MagicBytes()
    ensures Fixed(MAGIC_LOW, 4) == [0x57, 0xfb, 0x80, 0x8b] && Fixed(MAGIC_HIGH, 4) == [0x24, 0x75, 0x47, 0xdb]
  {
    hide Fixed;
    Low(0x8b80_fb57, 4);
    Low(0x8b_80fb, 3);
    Low(0x8b80, 2);
    Low(0x8b, 1);
    Low(0, 0);
    Low(0xdb47_7524, 4);
    Low(0xdb_4775, 3);
    Low(0xdb47, 2);
    Low(0xdb, 1);
  }

  /** The items of a version edit begin with their numbers. */
  lemma EditBytes()
    ensures ItemBytes(VersionEdits.Comparator([99])) == [1, 1, 99] && ItemBytes(LogNumber(7)) == [2, 7]
    ensures ItemBytes(NextFileNumber(8)) == [3, 8] && ItemBytes(LastSequence(9)) == [4, 9]
    ensures ItemBytes(PrevLogNumber(5)) == [9, 5]
  {
    assert Varint(1) == [1] && Varint(2) == [2] && Varint(3) == [3] && Varint(4) == [4] && Varint(5) == [5];
    assert Varint(7) == [7] && Varint(8) == [8] && Varint(9) == [9];
    hide Varint;
  }

  lemma FileItemBytes()
    ensures ItemBytes(CompactPointer(1, [97])) == [5, 1, 1, 97] && ItemBytes(DeletedFile(2, 6)) == [6, 2, 6]
    ensures ItemBytes(NewFile(3, FileMeta(6, 100, [97], [98]))) == [7, 3, 6, 100, 1, 97, 1, 98]
  {
    assert Varint(1) == [1] && Varint(2) == [2] && Varint(3) == [3] && Varint(5) == [5] && Varint(6) == [6];
    assert Varint(7) == [7] && Varint(100) == [100];
    hide Varint;
  }

  /** Separators and successors of the default comparator are short. */
  lemma SeparatorBytes()
    ensures BytewiseSeparator([97, 98, 99], [97, 100, 97]) == [97, 99]
    ensures BytewiseSuccessor([97, 98]) == [98] && BytewiseSuccessor([255, 97, 98]) == [255, 98]
  {
    var start: Bytes, limit: Bytes := [97, 98, 99], [97, 100, 97];
    assert start[1..] == [98, 99] && limit[1..] == [100, 97];
    assert CommonPrefix(start[1..], limit[1..]) == 0;
    assert CommonPrefix(start, limit) == 1;
    assert start[..1] == [97];
    assert [255 as Byte, 97, 98][1..] == [97, 98];
  }

  /** A key of an unknown type is not an internal key. */
  lemma UnknownType()
    ensures ParseInternalKey([97, 2, 5, 0, 0, 0, 0, 0, 0]) == None
  {
    var key: Bytes := [97, 2, 5, 0, 0, 0, 0, 0, 0];
    Eight(5 * 256 + 2);
    assert key[1..] == Fixed(5 * 256 + 2, 8);
    Fixed64RoundTrip(5 * 256 + 2);
  }
}
