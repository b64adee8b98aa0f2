/**
  Which checksum Crc computes: the residue and the check value by which CRC-32 of RFC 1952
  is told from every other polynomial, reflection, initial value and final inversion.
 */
module CrcResidue {
  import opened Bits
  import opened Crc
  import opened ChunkFile

  // One byte through the table, with its index, its entry and the shifted register named.
  lemma FeedAt(c: bv32, b: bv8, index: bv32, entry: bv32, rest: bv32)
    requires (c ^ (b as bv32)) & 0xFF == index && Entry(index) == entry && c >> 8 == rest
    ensures Feed(c, b) == entry ^ rest
  {
  }

  // ---- The residue ----

  // A register is fed the bytes of its own complement, one after the other: the table index
  // is the same for every register.
  lemma OwnTableEntries()
    ensures Entry(0xFF) == 0x2D02_EF8D && Entry(0x72) == 0xBE0B_1010 && Entry(0) == 0 && Entry(0xED) == 0xDEBB_9EC5
  {
  }

  // The register after each of them.
  function Own1(c: bv32): bv32 { 0x2D02_EF8D ^ (c >> 8) }
  function Own2(c: bv32): bv32 { 0xBE26_12FF ^ (c >> 16) }
  function Own3(c: bv32): bv32 { 0x00BE_2612 ^ (c >> 24) }

  lemma FirstOwnByte(c: bv32)
    ensures (c ^ (Byte0(Flip(c)) as bv32)) & 0xFF == 0xFF && 0x2D02_EF8D ^ (c >> 8) == Own1(c)
  {
  }

  lemma SecondOwnByte(c: bv32)
    ensures (Own1(c) ^ (Byte1(Flip(c)) as bv32)) & 0xFF == 0x72 && 0xBE0B_1010 ^ (Own1(c) >> 8) == Own2(c)
  {
  }

  lemma ThirdOwnByte(c: bv32)
    ensures (Own2(c) ^ (Byte2(Flip(c)) as bv32)) & 0xFF == 0 && 0 ^ (Own2(c) >> 8) == Own3(c)
  {
  }

  lemma FourthOwnByte(c: bv32)
    ensures (Own3(c) ^ (Byte3(Flip(c)) as bv32)) & 0xFF == 0xED && 0xDEBB_9EC5 ^ (Own3(c) >> 8) == 0xDEBB_20E3
  {
  }

  lemma FeedFirst(c: bv32)
    ensures Feed(c, Byte0(Flip(c))) == Own1(c)
  {
    OwnTableEntries();
    FirstOwnByte(c);
    FeedAt(c, Byte0(Flip(c)), 0xFF, 0x2D02_EF8D, c >> 8);
  }

  lemma FeedSecond(c: bv32)
    ensures Feed(Own1(c), Byte1(Flip(c))) == Own2(c)
  {
    OwnTableEntries();
    SecondOwnByte(c);
    FeedAt(Own1(c), Byte1(Flip(c)), 0x72, 0xBE0B_1010, Own1(c) >> 8);
  }

  lemma FeedThird(c: bv32)
    ensures Feed(Own2(c), Byte2(Flip(c))) == Own3(c)
  {
    OwnTableEntries();
    ThirdOwnByte(c);
    FeedAt(Own2(c), Byte2(Flip(c)), 0, 0, Own2(c) >> 8);
  }

  lemma FeedFourth(c: bv32)
    ensures Feed(Own3(c), Byte3(Flip(c))) == 0xDEBB_20E3
  {
    OwnTableEntries();
    FourthOwnByte(c);
    FeedAt(Own3(c), Byte3(Flip(c)), 0xED, 0xDEBB_9EC5, Own3(c) >> 8);
  }

  // A register's bytes as they stand in a file.
  function Bytes(c: bv32): seq<Byte> {
    [ToByte(Byte0(c)), ToByte(Byte1(c)), ToByte(Byte2(c)), ToByte(Byte3(c))]
  }

  // A fold through the states x.
  lemma {:induction false} FoldPath<S, B>(f: (S, B) -> S, s: seq<B>, x: seq<S>)
    requires |x| == |s| + 1 && forall i | 0 <= i < |s| :: f(x[i], s[i]) == x[i + 1]
    ensures Fold(f, x[0], s) == x[|s|]
    decreases |s|
  {
    if s != [] {
      var n := |s| - 1;
      FoldPath(f, s[..n], x[..n + 1]);
      assert f(x[n], s[n]) == x[n + 1];
    }
  }

  lemma FeedBytesAt(c: bv32, b: bv8)
    ensures FeedByte(c, ToByte(b)) == Feed(c, b)
  {
    ToBitsBack(b);
  }

  lemma FeedOwnBytes(c: bv32)
    ensures Fold(FeedByte, c, Bytes(Flip(c))) == 0xDEBB_20E3
  {
    FeedFirst(c);
    FeedSecond(c);
    FeedThird(c);
    FeedFourth(c);
    FeedBytesAt(c, Byte0(Flip(c)));
    FeedBytesAt(Own1(c), Byte1(Flip(c)));
    FeedBytesAt(Own2(c), Byte2(Flip(c)));
    FeedBytesAt(Own3(c), Byte3(Flip(c)));
    FoldPath(FeedByte, Bytes(Flip(c)), [c, Own1(c), Own2(c), Own3(c), 0xDEBB_20E3]);
  }

  lemma ResidueValue()
    ensures Unsigned(Flip(0xDEBB_20E3)) == 0x2144_DF1C
  {
    var c: bv32 := 0x2144_DF1C;
    assert Flip(0xDEBB_20E3) == c;
    assert Byte0(c) == 0x1C && Byte1(c) == 0xDF && Byte2(c) == 0x44 && Byte3(c) == 0x21;
  }

  lemma LeDigit(a: Byte, n: nat, k: nat)
    ensures Le((a as int) + 256 * n, k + 1) == [a] + Le(n, k)
  {
  }

  lemma SumIsLe(a: Byte, b: Byte, c: Byte, d: Byte)
    ensures Le(Sum(a, b, c, d), 4) == [a, b, c, d]
  {
    LeDigit(a, (b as int) + 256 * ((c as int) + 256 * (d as int)), 3);
    LeDigit(b, (c as int) + 256 * (d as int), 2);
    LeDigit(c, d as int, 1);
    LeDigit(d, 0, 0);
  }

  lemma BytesAreLe(c: bv32)
    ensures Le(Unsigned(c), 4) == Bytes(c)
  {
    SumIsLe(ToByte(Byte0(c)), ToByte(Byte1(c)), ToByte(Byte2(c)), ToByte(Byte3(c)));
  }

  /** Any data followed by its own checksum, lowest byte first, has the checksum 0x2144DF1C. */
  lemma ResidueLaw(s: seq<Byte>)
    ensures Checksum(s + Le(Checksum(s), 4)) == 0x2144_DF1C
  {
    var c := Fold(FeedByte, Flip(0), s);
    BytesAreLe(Flip(c));
    UpdateAppend(0, s, Bytes(Flip(c)));
    FlipFlip(c);
    FeedOwnBytes(c);
    ResidueValue();
  }

  // ---- The check value ----

  lemma DigitSteps()
    ensures Feed(0xFFFF_FFFF, 0x31) == 0x7C23_1048
    ensures Feed(0x7C23_1048, 0x32) == 0xB0AC_BB32
    ensures Feed(0xB0AC_BB32, 0x33) == 0x77B7_9C2D
    ensures Feed(0x77B7_9C2D, 0x34) == 0x641C_1F5C
    ensures Feed(0x641C_1F5C, 0x35) == 0x340A_C5E3
    ensures Feed(0x340A_C5E3, 0x36) == 0xF68D_2C9E
    ensures Feed(0xF68D_2C9E, 0x37) == 0xAFFC_9660
    ensures Feed(0xAFFC_9660, 0x38) == 0x651F_2550
    ensures Feed(0x651F_2550, 0x39) == 0x340B_C6D9
  {
  }

  // The digits of the check text.
  const DIGITS: seq<Byte> := [0x31, 0x32, 0x33, 0x34, 0x35, 0x36, 0x37, 0x38, 0x39]

  lemma CheckBytes()
    ensures Unsigned(Flip(0x340B_C6D9)) == 0xCBF4_3926
  {
    var c: bv32 := 0xCBF4_3926;
    assert Flip(0x340B_C6D9) == c;
    assert Byte0(c) == 0x26 && Byte1(c) == 0x39 && Byte2(c) == 0xF4 && Byte3(c) == 0xCB;
  }

  lemma DigitBits()
    ensures ToBits(0x31) == 0x31 && ToBits(0x32) == 0x32 && ToBits(0x33) == 0x33 && ToBits(0x34) == 0x34
    ensures ToBits(0x35) == 0x35 && ToBits(0x36) == 0x36 && ToBits(0x37) == 0x37 && ToBits(0x38) == 0x38
    ensures ToBits(0x39) == 0x39
  {
  }

  /** The text 123456789 has the check value of CRC-32. */
  lemma CheckValue()
    ensures Checksum(DIGITS) == 0xCBF4_3926
  {
    DigitSteps();
    DigitBits();
    FoldPath(FeedByte, DIGITS,
             [0xFFFF_FFFF, 0x7C23_1048, 0xB0AC_BB32, 0x77B7_9C2D, 0x641C_1F5C, 0x340A_C5E3, 0xF68D_2C9E, 0xAFFC_9660,
              0x651F_2550, 0x340B_C6D9]);
    CheckBytes();
  }
}
