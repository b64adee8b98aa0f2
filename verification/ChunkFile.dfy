/**
  The FIRC chunk format of engine/chunks/chunks.go: header, length-prefixed records and
  payload checksum. Files are byte sequences; directories, temporary files and renames
  are not modelled.
 */
module ChunkFile {
  import opened Prelude
  import opened Crc

  const MAGIC: seq<Byte> := [0x46, 0x49, 0x52, 0x43]   // "FIRC"
  const FORMAT_VERSION := 1
  const HEADER_SIZE := 20
  const MAX_RECORD := 8_388_608
  const TWO16 := 0x1_0000
  const TWO32 := 0x1_0000_0000

  datatype Error = Corrupt | TooLarge | BadHeader | NoRecords

  datatype Header = Header(recordCount: nat, checksum: nat, flags: nat, version: nat) {
    // The widths of the Go fields.
    predicate Fits() {
      recordCount < TWO32 && checksum < TWO32 && flags < TWO16 && version < TWO16
    }
  }

  type Record = seq<Byte>

  // ---- Little-endian integers ----

  // The k low bytes of n: a longer value loses its high bytes, as Go's conversions do.
  function Le(n: nat, k: nat): (r: seq<Byte>)
    ensures |r| == k
  {
    if k == 0 then [] else [(n % 256) as Byte] + Le(n / 256, k - 1)
  }

  function De(s: seq<Byte>): nat {
    if s == [] then 0 else (s[0] as int) + 256 * De(s[1..])
  }

  function Pow256(k: nat): nat { if k == 0 then 1 else 256 * Pow256(k - 1) }

  lemma {:induction false} DeLe(n: nat, k: nat)
    requires n < Pow256(k)
    ensures De(Le(n, k)) == n
  {
    if k > 0 {
      DeLe(n / 256, k - 1);
      assert Le(n, k)[1..] == Le(n / 256, k - 1);
    }
  }

  lemma {:induction false} LeDe(s: seq<Byte>)
    ensures Le(De(s), |s|) == s
  {
    if s != [] {
      LeDe(s[1..]);
      assert De(s) / 256 == De(s[1..]) && De(s) % 256 == s[0] as int;
    }
  }

  lemma Widths()
    ensures Pow256(2) == TWO16 && Pow256(4) == TWO32
  {
    assert Pow256(1) == 256 && Pow256(3) == 16_777_216;
  }

  // Go's conversion to uint32.
  function Truncate(n: nat): (r: nat)
    ensures r < TWO32 && (r == n <==> n < TWO32)
  {
    if n < TWO32 then n else n % TWO32
  }

  // ---- Header ----

  function HeaderBytes(h: Header): (r: seq<Byte>)
    ensures |r| == HEADER_SIZE
  {
    MAGIC + Le(h.version, 2) + Le(h.flags, 2) + Le(h.recordCount, 4) + Le(0, 4) + Le(h.checksum, 4)
  }

  function DecodeHeader(src: seq<Byte>): Result<Header, Error> {
    if |src| < HEADER_SIZE then Err(BadHeader)
    else if src[0..4] != MAGIC then Err(BadHeader)
    else Ok(Header(De(src[8..12]), De(src[16..20]), De(src[6..8]), De(src[4..6])))
  }

  method EncodeHeader(dst: array<Byte>, h: Header) returns (ok: bool)
    modifies dst
    ensures ok <==> dst.Length >= HEADER_SIZE
    ensures ok ==> dst[..HEADER_SIZE] == HeaderBytes(h) && dst[HEADER_SIZE..] == old(dst[HEADER_SIZE..])
    ensures !ok ==> dst[..] == old(dst[..])
  {
    if dst.Length < HEADER_SIZE { return false; }
    var bytes := HeaderBytes(h);
    for i := 0 to HEADER_SIZE
      invariant dst[..i] == bytes[..i]
      invariant dst[HEADER_SIZE..] == old(dst[HEADER_SIZE..])
    {
      dst[i] := bytes[i];
    }
    assert bytes[..HEADER_SIZE] == bytes;
    ok := true;
  }

  /** Any header survives encoding, whatever follows it. */
  lemma HeaderRoundTrip(h: Header, rest: seq<Byte>)
    requires h.Fits()
    ensures DecodeHeader(HeaderBytes(h) + rest) == Ok(h)
  {
    var s := HeaderBytes(h) + rest;
    assert s[0..4] == MAGIC;
    assert s[4..6] == Le(h.version, 2);
    assert s[6..8] == Le(h.flags, 2);
    assert s[8..12] == Le(h.recordCount, 4);
    assert s[16..20] == Le(h.checksum, 4);
    Widths();
    DeLe(h.version, 2);
    DeLe(h.flags, 2);
    DeLe(h.recordCount, 4);
    DeLe(h.checksum, 4);
  }

  /** Encoding a decoded header gives back its bytes, except the four reserved ones. */
  lemma DecodedHeaderBytes(src: seq<Byte>)
    requires DecodeHeader(src).Ok?
    ensures var bytes := HeaderBytes(DecodeHeader(src).value);
      bytes[..12] == src[..12] && bytes[16..] == src[16..20]
  {
    LeDe(src[4..6]);
    LeDe(src[6..8]);
    LeDe(src[8..12]);
    LeDe(src[16..20]);
    assert src[..12] == src[0..4] + src[4..6] + src[6..8] + src[8..12];
  }

  // ---- Payload ----

  function Framed(r: Record): seq<Byte> { Le(|r|, 4) + r }

  function Payload(records: seq<Record>): seq<Byte> {
    if records == [] then [] else Payload(records[..|records| - 1]) + Framed(records[|records| - 1])
  }

  function HeaderOf(records: seq<Record>, flags: nat): Header {
    Header(Truncate(|records|), Checksum(Payload(records)), flags, FORMAT_VERSION)
  }

  function FileBytes(records: seq<Record>, flags: nat): seq<Byte> {
    HeaderBytes(HeaderOf(records, flags)) + Payload(records)
  }

  method WriteChunk(records: seq<Record>, flags: nat) returns (r: Result<seq<Byte>, Error>)
    ensures records == [] ==> r == Err(NoRecords)
    ensures records != [] ==> r == Ok(FileBytes(records, flags))
  {
    if |records| == 0 { return Err(NoRecords); }
    var payload: seq<Byte> := [];
    for i := 0 to |records|
      invariant payload == Payload(records[..i])
    {
      assert records[..i + 1][..i] == records[..i];
      payload := payload + (Le(|records[i]|, 4) + records[i]);
    }
    assert records[..|records|] == records;
    var head := new Byte[HEADER_SIZE];
    var header := Header(Truncate(|records|), Checksum(payload), flags, FORMAT_VERSION);
    var ok := EncodeHeader(head, header);
    assert head[..] == head[..HEADER_SIZE];
    r := Ok(head[..] + payload);
  }

  // ---- Reading ----

  // One record off the front of the unread bytes.
  function ReadRecord(rest: seq<Byte>): (r: Result<(Record, seq<Byte>), Error>)
    ensures r.Ok? ==> |r.value.0| <= MAX_RECORD && |rest| == 4 + |r.value.0| + |r.value.1|
  {
    if |rest| < 4 then Err(Corrupt)
    else
      var length := De(rest[..4]);
      if length > MAX_RECORD then Err(TooLarge)
      else if |rest| < 4 + length then Err(Corrupt)
      else Ok((rest[4..4 + length], rest[4 + length..]))
  }

  // The next n records.
  function ReadRecords(rest: seq<Byte>, n: nat): (r: Result<seq<Record>, Error>)
    ensures r.Ok? ==> |r.value| == n && forall i | 0 <= i < n :: |r.value[i]| <= MAX_RECORD
  {
    if n == 0 then Ok([])
    else match ReadRecord(rest)
      case Err(e) => Err(e)
      case Ok((rec, rest')) =>
        match ReadRecords(rest', n - 1)
        case Err(e) => Err(e)
        case Ok(tail) => Ok([rec] + tail)
  }

  // The error OpenReader reports, or the header.
  function OpenHeader(file: seq<Byte>): Result<Header, Error> {
    if |file| < HEADER_SIZE then Err(Corrupt) else DecodeHeader(file[..HEADER_SIZE])
  }

  function ReadFile(file: seq<Byte>): Result<seq<Record>, Error> {
    match OpenHeader(file)
    case Err(e) => Err(e)
    case Ok(h) => ReadRecords(file[HEADER_SIZE..], h.recordCount)
  }

  // Reads the payload and compares checksums; nil of the source is Ok(()).
  function VerifyBody(h: Header, body: seq<Byte>): Result<(), Error> {
    match ReadRecords(body, h.recordCount)
    case Err(e) => Err(e)
    case Ok(records) => if Checksum(Payload(records)) == h.checksum then Ok(()) else Err(Corrupt)
  }

  function VerifyFile(file: seq<Byte>): Result<(), Error> {
    match OpenHeader(file)
    case Err(e) => Err(e)
    case Ok(h) => VerifyBody(h, file[HEADER_SIZE..])
  }

  // The outcome of reading on after `records` were delivered.
  function Prepend(records: seq<Record>, more: Result<seq<Record>, Error>): Result<seq<Record>, Error> {
    match more case Ok(tail) => Ok(records + tail) case Err(e) => Err(e)
  }

  lemma PrependNothing(more: Result<seq<Record>, Error>)
    ensures Prepend([], more) == more
  {
    if more.Ok? { assert [] + more.value == more.value; }
  }

  lemma PrependOne(records: seq<Record>, rec: Record, more: Result<seq<Record>, Error>)
    ensures Prepend(records, Prepend([rec], more)) == Prepend(records + [rec], more)
  {
    if more.Ok? { assert records + ([rec] + more.value) == records + [rec] + more.value; }
  }

  datatype Next = Rec(value: Record) | Eof | Failed(error: Error)

  class Reader {
    const header: Header
    var rest: seq<Byte>
    var seen: nat

    // The records the reader will still deliver.
    ghost function Remaining(): Result<seq<Record>, Error>
      requires seen <= header.recordCount
      reads this
    {
      ReadRecords(rest, header.recordCount - seen)
    }

    constructor (header: Header, body: seq<Byte>)
      ensures this.header == header && rest == body && seen == 0
    {
      this.header, rest, seen := header, body, 0;
    }

    method Next() returns (r: Next)
      requires seen <= header.recordCount
      modifies this
      ensures seen <= header.recordCount
      ensures r.Eof? ==> old(Remaining()) == Ok([]) && seen == old(seen) == header.recordCount
      ensures r.Failed? ==> old(Remaining()) == Err(r.error)
      ensures r.Rec? ==> seen == old(seen) + 1 && old(Remaining()) == Prepend([r.value], Remaining())
    {
      if seen >= header.recordCount { return Eof; }
      if |rest| < 4 { return Failed(Corrupt); }
      var length := De(rest[..4]);
      if length > MAX_RECORD { return Failed(TooLarge); }
      if |rest| < 4 + length { return Failed(Corrupt); }
      r := Rec(rest[4..4 + length]);
      rest := rest[4 + length..];
      seen := seen + 1;
    }

    method ReadAll() returns (r: Result<seq<Record>, Error>)
      requires seen == 0
      modifies this
      ensures r == old(Remaining())
    {
      var records := [];
      PrependNothing(Remaining());
      while true
        invariant seen <= header.recordCount
        invariant old(Remaining()) == Prepend(records, Remaining())
        decreases header.recordCount - seen
      {
        var n := Next();
        match n {
          case Eof => assert records + [] == records; return Ok(records);
          case Failed(e) => return Err(e);
          case Rec(rec) =>
            PrependOne(records, rec, Remaining());
            records := records + [rec];
        }
      }
    }

    // The incremental checksum over prefixes and bodies.
    method Digest() returns (r: Result<bv32, Error>)
      requires seen == 0
      modifies this
      ensures r == DigestOf(old(Remaining()))
    {
      var crc: bv32 := 0;
      ghost var records := [];
      PrependNothing(Remaining());
      EmptyDigest();
      while true
        invariant seen <= header.recordCount
        invariant crc == Update(0, Payload(records))
        invariant old(Remaining()) == Prepend(records, Remaining())
        decreases header.recordCount - seen
      {
        var n := Next();
        match n {
          case Eof => assert records + [] == records; return Ok(crc);
          case Failed(e) => return Err(e);
          case Rec(rec) =>
            PrependOne(records, rec, Remaining());
            crc := Update(crc, Le(|rec|, 4));
            crc := Update(crc, rec);
            PayloadGrows(records, rec);
            records := records + [rec];
        }
      }
    }

    method Verify() returns (r: Result<(), Error>)
      requires seen == 0
      modifies this
      ensures r == VerifyBody(header, old(rest))
    {
      var crc := Digest();
      if crc.Err? { return Err(crc.error); }
      r := if Unsigned(crc.value) != header.checksum then Err(Corrupt) else Ok(());
    }
  }

  // The checksum register over the records, or the error met while reading them.
  function DigestOf(records: Result<seq<Record>, Error>): Result<bv32, Error> {
    match records
    case Ok(rs) => Ok(Update(0, Payload(rs)))
    case Err(e) => Err(e)
  }

  lemma EmptyDigest()
    ensures Update(0, Payload([])) == 0
  {
    FlipFlip(0);
  }

  lemma PayloadGrows(records: seq<Record>, rec: Record)
    ensures Payload(records + [rec]) == Payload(records) + Framed(rec)
    ensures Update(0, Payload(records + [rec])) == Update(Update(Update(0, Payload(records)), Le(|rec|, 4)), rec)
  {
    PayloadSnoc(records, rec);
    UpdateAppend(0, Payload(records), Framed(rec));
    UpdateAppend(Update(0, Payload(records)), Le(|rec|, 4), rec);
  }

  method OpenReader(file: seq<Byte>) returns (r: Result<Reader, Error>)
    ensures r.Ok? <==> OpenHeader(file).Ok?
    ensures r.Ok? ==> fresh(r.value) && r.value.header == OpenHeader(file).value
    ensures r.Ok? ==> r.value.rest == file[HEADER_SIZE..] && r.value.seen == 0
    ensures r.Err? ==> OpenHeader(file) == Err(r.error)
  {
    if |file| < HEADER_SIZE { return Err(Corrupt); }
    var h := DecodeHeader(file[..HEADER_SIZE]);
    if h.Err? { return Err(h.error); }
    var reader := new Reader(h.value, file[HEADER_SIZE..]);
    r := Ok(reader);
  }

  // The package-level ReadAll.
  method ReadChunk(file: seq<Byte>) returns (r: Result<seq<Record>, Error>)
    ensures r == ReadFile(file)
  {
    var source := OpenReader(file);
    if source.Err? { return Err(source.error); }
    r := source.value.ReadAll();
  }

  method VerifyChunk(file: seq<Byte>) returns (r: Result<(), Error>)
    ensures r == VerifyFile(file)
  {
    var source := OpenReader(file);
    if source.Err? { return Err(source.error); }
    r := source.value.Verify();
  }

  // ---- What a written chunk gives back ----

  predicate AllReadable(records: seq<Record>) {
    forall i | 0 <= i < |records| :: |records[i]| <= MAX_RECORD
  }

  lemma PayloadSnoc(rs: seq<Record>, r: Record)
    ensures Payload(rs + [r]) == Payload(rs) + Framed(r)
  {
    assert (rs + [r])[..|rs|] == rs;
  }

  lemma Regroup(x: seq<Byte>, y: seq<Byte>, z: seq<Byte>)
    ensures (x + y) + z == x + (y + z)
  {
  }

  lemma {:induction false} PayloadAppend(a: seq<Record>, b: seq<Record>)
    ensures Payload(a + b) == Payload(a) + Payload(b)
    decreases |b|
  {
    if b == [] {
      assert a + b == a && Payload(b) == [];
    } else {
      var init, last := b[..|b| - 1], b[|b| - 1];
      PayloadAppend(a, init);
      assert b == init + [last];
      PayloadAppendOne(a, init, last);
    }
  }

  lemma PayloadAppendOne(a: seq<Record>, b: seq<Record>, r: Record)
    requires Payload(a + b) == Payload(a) + Payload(b)
    ensures Payload(a + (b + [r])) == Payload(a) + Payload(b + [r])
  {
    assert a + (b + [r]) == (a + b) + [r];
    PayloadSnoc(a + b, r);
    PayloadSnoc(b, r);
    Regroup(Payload(a), Payload(b), Framed(r));
  }

  lemma PayloadFront(r: Record, rs: seq<Record>)
    ensures Payload([r] + rs) == Framed(r) + Payload(rs)
  {
    PayloadAppend([r], rs);
    assert Payload([r]) == Framed(r);
  }

  lemma ReadFramed(r: Record, rest: seq<Byte>)
    requires |r| <= MAX_RECORD
    ensures ReadRecord(Framed(r) + rest) == Ok((r, rest))
  {
    var bytes := Framed(r) + rest;
    assert bytes[..4] == Le(|r|, 4);
    Widths();
    DeLe(|r|, 4);
    assert bytes[4..4 + |r|] == r && bytes[4 + |r|..] == rest;
  }

  lemma {:induction false} ReadPayload(records: seq<Record>)
    requires AllReadable(records)
    ensures ReadRecords(Payload(records), |records|) == Ok(records)
    decreases |records|
  {
    if records != [] {
      var r, rs := records[0], records[1..];
      assert records == [r] + rs;
      PayloadFront(r, rs);
      ReadFramed(r, Payload(rs));
      ReadPayload(rs);
    }
  }

  // A header with any body behind it.
  lemma OpenWritten(h: Header, body: seq<Byte>)
    requires h.Fits()
    ensures ReadFile(HeaderBytes(h) + body) == ReadRecords(body, h.recordCount)
    ensures VerifyFile(HeaderBytes(h) + body) == VerifyBody(h, body)
  {
    var file := HeaderBytes(h) + body;
    HeaderRoundTrip(h, []);
    assert file[..HEADER_SIZE] == HeaderBytes(h) + [];
    assert file[HEADER_SIZE..] == body;
  }

  lemma WrittenHeaderFits(records: seq<Record>, flags: nat)
    requires flags < TWO16
    ensures HeaderOf(records, flags).Fits()
  {
    UnsignedFits(Update(0, Payload(records)));
  }

  lemma BodyRoundTrip(records: seq<Record>, n: nat)
    ensures ReadRecords(Payload(records), n) == Ok(records) <==> AllReadable(records) && n == |records|
  {
    if AllReadable(records) && n == |records| { ReadPayload(records); }
  }

  // Verify on a readable payload is the comparison of the two checksums.
  lemma VerifyPayload(h: Header, records: seq<Record>)
    requires AllReadable(records) && h.recordCount == |records|
    ensures VerifyBody(h, Payload(records)) ==
      if Checksum(Payload(records)) == h.checksum then Ok(()) else Err(Corrupt)
  {
    ReadPayload(records);
  }

  /**
    A written chunk reads back as exactly its records if and only if no record is above
    the reader's limit and the count fits its field.
   */
  lemma ChunkRoundTrip(records: seq<Record>, flags: nat)
    requires flags < TWO16
    ensures ReadFile(FileBytes(records, flags)) == Ok(records) <==> AllReadable(records) && |records| < TWO32
  {
    WrittenHeaderFits(records, flags);
    OpenWritten(HeaderOf(records, flags), Payload(records));
    BodyRoundTrip(records, Truncate(|records|));
  }

  /** Verify accepts every chunk that reads back. */
  lemma VerifyAcceptsWritten(records: seq<Record>, flags: nat)
    requires flags < TWO16 && AllReadable(records) && |records| < TWO32
    ensures VerifyFile(FileBytes(records, flags)) == Ok(())
  {
    WrittenHeaderFits(records, flags);
    OpenWritten(HeaderOf(records, flags), Payload(records));
    VerifyPayload(HeaderOf(records, flags), records);
  }

  // Where byte j of record i stands in the payload.
  function BodyOffset(records: seq<Record>, i: nat, j: nat): nat
    requires i < |records|
  {
    |Payload(records[..i])| + (4 + j)
  }

  lemma UpdateInside(a: seq<Byte>, b: seq<Byte>, c: seq<Byte>, k: nat, v: Byte)
    requires k < |b|
    ensures (a + (b + c))[|a| + k] == b[k]
    ensures (a + (b + c))[|a| + k := v] == a + (b[k := v] + c)
  {
  }

  lemma UpdateFramed(r: Record, j: nat, b: Byte)
    requires j < |r|
    ensures Framed(r)[4 + j] == r[j] && Framed(r)[4 + j := b] == Framed(r[j := b])
  {
  }

  // The payload around record i.
  lemma PayloadAround(records: seq<Record>, i: nat, r: Record)
    requires i < |records|
    ensures Payload(records[i := r]) == Payload(records[..i]) + (Framed(r) + Payload(records[i + 1..]))
  {
    var front, back := records[..i], records[i + 1..];
    assert records[i := r] == front + ([r] + back);
    PayloadAppend(front, [r] + back);
    PayloadFront(r, back);
  }

  lemma OneByteOfPayload(records: seq<Record>, i: nat, j: nat, b: Byte)
    requires i < |records| && j < |records[i]|
    ensures BodyOffset(records, i, j) < |Payload(records)|
    ensures Payload(records)[BodyOffset(records, i, j)] == records[i][j]
    ensures Payload(records)[BodyOffset(records, i, j) := b] == Payload(records[i := records[i][j := b]])
  {
    assert records[i := records[i]] == records;
    PayloadAround(records, i, records[i]);
    PayloadAround(records, i, records[i][j := b]);
    UpdateFramed(records[i], j, b);
    UpdateInside(Payload(records[..i]), Framed(records[i]), Payload(records[i + 1..]), 4 + j, b);
  }

  lemma OneByteOfFile(h: Header, payload: seq<Byte>, k: nat, b: Byte)
    requires k < |payload|
    ensures (HeaderBytes(h) + payload)[HEADER_SIZE + k := b] == HeaderBytes(h) + payload[k := b]
  {
  }

  lemma DamageIsSeen(h: Header, payload: seq<Byte>, damaged: seq<Record>, k: nat, b: Byte)
    requires h.Fits() && h.checksum == Checksum(payload) && h.recordCount == |damaged|
    requires AllReadable(damaged) && k < |payload| && b != payload[k] && Payload(damaged) == payload[k := b]
    ensures VerifyFile(HeaderBytes(h) + payload[k := b]) == Err(Corrupt)
  {
    OpenWritten(h, Payload(damaged));
    VerifyPayload(h, damaged);
    ChangedByteChangesChecksum(payload, k, b);
  }

  // The file with one byte of a record body replaced.
  function Damaged(records: seq<Record>, flags: nat, i: nat, j: nat, b: Byte): seq<Byte>
    requires i < |records| && j < |records[i]|
  {
    OneByteOfPayload(records, i, j, b);
    FileBytes(records, flags)[HEADER_SIZE + BodyOffset(records, i, j) := b]
  }

  lemma DamagedFile(records: seq<Record>, flags: nat, i: nat, j: nat, b: Byte)
    requires i < |records| && j < |records[i]|
    ensures BodyOffset(records, i, j) < |Payload(records)|
    ensures Damaged(records, flags, i, j, b) ==
            HeaderBytes(HeaderOf(records, flags)) + Payload(records)[BodyOffset(records, i, j) := b]
  {
    OneByteOfPayload(records, i, j, b);
    OneByteOfFile(HeaderOf(records, flags), Payload(records), BodyOffset(records, i, j), b);
  }

  /** Changing exactly one byte of any record body makes Verify fail. */
  lemma VerifyDetectsChangedByte(records: seq<Record>, flags: nat, i: nat, j: nat, b: Byte)
    requires flags < TWO16 && AllReadable(records) && |records| < TWO32
    requires i < |records| && j < |records[i]| && b != records[i][j]
    ensures VerifyFile(Damaged(records, flags, i, j, b)) == Err(Corrupt)
  {
    OneByteOfPayload(records, i, j, b);
    DamagedFile(records, flags, i, j, b);
    WrittenHeaderFits(records, flags);
    DamageIsSeen(HeaderOf(records, flags), Payload(records), records[i := records[i][j := b]],
                 BodyOffset(records, i, j), b);
  }
}
