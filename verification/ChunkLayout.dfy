/**
  Where everything stands in a written chunk file, byte by byte, as the format table of
  engine/chunks/chunks.go documents it.
 */
module ChunkLayout {
  import opened Crc
  import opened CrcResidue
  import opened ChunkFile

  // Two and four bytes of a file read as an unsigned number, lowest byte first.
  function U16(f: seq<Byte>, at: nat): nat
    requires at + 2 <= |f|
  {
    (f[at] as int) + 256 * (f[at + 1] as int)
  }

  function U32(f: seq<Byte>, at: nat): nat
    requires at + 4 <= |f|
  {
    Sum(f[at], f[at + 1], f[at + 2], f[at + 3])
  }

  lemma LeTwo(n: nat, f: seq<Byte>, at: nat)
    requires n < 0x1_0000 && at + 2 <= |f| && f[at..at + 2] == Le(n, 2)
    ensures U16(f, at) == n
  {
    var s := f[at..at + 2];
    assert s[0] == f[at] && s[1] == f[at + 1];
    assert Le(n, 2)[1..] == Le(n / 256, 1);
  }

  lemma LeFour(n: nat, f: seq<Byte>, at: nat)
    requires n < 0x1_0000_0000 && at + 4 <= |f| && f[at..at + 4] == Le(n, 4)
    ensures U32(f, at) == n
  {
    var a, b, c, d := f[at], f[at + 1], f[at + 2], f[at + 3];
    SumIsLe(a, b, c, d);
    assert f[at..at + 4] == [a, b, c, d];
    Widths();
    DeLe(n, 4);
    DeLe(Sum(a, b, c, d), 4);
  }

  lemma HeaderParts(h: Header, rest: seq<Byte>)
    ensures var f := HeaderBytes(h) + rest;
      && f[..4] == [0x46, 0x49, 0x52, 0x43]
      && f[4..6] == Le(h.version, 2) && f[6..8] == Le(h.flags, 2) && f[8..12] == Le(h.recordCount, 4)
      && f[12..16] == Le(0, 4) && f[16..20] == Le(h.checksum, 4)
      && f[20..] == rest
  {
  }

  /**
    The header of a written chunk: FIRC, version 1, the flags, the record count, four zero
    bytes and the checksum of everything after byte 20, each lowest byte first.
   */
  lemma WrittenHeader(records: seq<Record>, flags: nat)
    requires flags < 0x1_0000 && |records| < 0x1_0000_0000
    ensures var f := FileBytes(records, flags);
      && |f| >= 20
      && f[..4] == [0x46, 0x49, 0x52, 0x43]
      && U16(f, 4) == 1 && U16(f, 6) == flags && U32(f, 8) == |records| && U32(f, 12) == 0
      && U32(f, 16) == Checksum(f[20..])
  {
    var f := FileBytes(records, flags);
    var h := HeaderOf(records, flags);
    HeaderParts(h, Payload(records));
    UnsignedFits(Update(0, Payload(records)));
    LeTwo(1, f, 4);
    LeTwo(flags, f, 6);
    LeFour(|records|, f, 8);
    LeFour(0, f, 12);
    LeFour(Checksum(Payload(records)), f, 16);
  }

  /** The payload of a written chunk, with the header's checksum bytes behind it, has the residue of CRC-32. */
  lemma WrittenResidue(records: seq<Record>, flags: nat)
    ensures var f := FileBytes(records, flags);
      |f| >= 20 && Checksum(f[20..] + f[16..20]) == 0x2144_DF1C
  {
    HeaderParts(HeaderOf(records, flags), Payload(records));
    ResidueLaw(Payload(records));
  }

  // Where record i begins: behind the header and the earlier records, each with its length.
  function RecordOffset(records: seq<Record>, i: nat): nat
    requires i <= |records|
  {
    if i == 0 then 20 else RecordOffset(records, i - 1) + 4 + |records[i - 1]|
  }

  lemma {:induction false} PayloadSize(records: seq<Record>, i: nat)
    requires i <= |records|
    ensures 20 + |Payload(records[..i])| == RecordOffset(records, i)
    decreases i
  {
    if i > 0 {
      PayloadSize(records, i - 1);
      assert records[..i][..i - 1] == records[..i - 1];
    }
  }

  lemma FramedAt(head: seq<Byte>, a: seq<Byte>, r: Record, c: seq<Byte>, at: nat)
    requires at == |head| + |a| && |r| < 0x1_0000_0000
    ensures var f := head + (a + (Framed(r) + c));
      |f| == at + 4 + |r| + |c| && U32(f, at) == |r| && f[at + 4..at + 4 + |r|] == r
  {
    var f := head + (a + (Framed(r) + c));
    assert f == ((head + a) + Le(|r|, 4)) + (r + c);
    LeFour(|r|, f, at);
  }

  lemma FileAround(records: seq<Record>, flags: nat, i: nat)
    requires i < |records|
    ensures FileBytes(records, flags) == HeaderBytes(HeaderOf(records, flags))
              + (Payload(records[..i]) + (Framed(records[i]) + Payload(records[i + 1..])))
  {
    PayloadAround(records, i, records[i]);
    assert records[i := records[i]] == records;
  }

  lemma FileSize(records: seq<Record>, flags: nat)
    ensures |FileBytes(records, flags)| == RecordOffset(records, |records|)
  {
    PayloadSize(records, |records|);
    assert records[..|records|] == records;
  }

  /** Every record of a written chunk stands at its offset, its length before it, and the file ends with the last. */
  lemma WrittenRecord(records: seq<Record>, flags: nat, i: nat)
    requires i < |records| && |records[i]| < 0x1_0000_0000
    ensures var f, at := FileBytes(records, flags), RecordOffset(records, i);
      && at + 4 + |records[i]| <= |f| == RecordOffset(records, |records|)
      && U32(f, at) == |records[i]|
      && f[at + 4..at + 4 + |records[i]|] == records[i]
  {
    FileAround(records, flags, i);
    FileSize(records, flags);
    PayloadSize(records, i);
    FramedAt(HeaderBytes(HeaderOf(records, flags)), Payload(records[..i]), records[i], Payload(records[i + 1..]),
             RecordOffset(records, i));
  }
}
