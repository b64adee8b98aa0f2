/** CRC-32 as in section 8 of RFC 1952, and why it notices a changed byte. */
module Crc {
  import opened Bits

  newtype Byte = x: int | 0 <= x < 256

  const POLYNOMIAL: bv32 := 0xEDB88320

  // One bit of the division.
  function Shift(c: bv32): bv32 {
    if c & 1 == 1 then (c >> 1) ^ POLYNOMIAL else c >> 1
  }

  function Shift4(c: bv32): bv32 { Shift(Shift(Shift(Shift(c)))) }

  // A table entry.
  function Entry(n: bv32): bv32 { Shift4(Shift4(n)) }

  // One byte through a table.
  function FeedWith(table: bv32 -> bv32, c: bv32, b: bv8): bv32 {
    table((c ^ (b as bv32)) & 0xFF) ^ (c >> 8)
  }

  function Feed(c: bv32, b: bv8): bv32 { FeedWith(Entry, c, b) }

  function ToBits(b: Byte): bv8 { b as bv8 }

  function FeedByte(c: bv32, b: Byte): bv32 { Feed(c, ToBits(b)) }

  function Flip(c: bv32): bv32 { c ^ 0xFFFF_FFFF }

  // `crc32.Update`.
  function Update(crc: bv32, s: seq<Byte>): bv32 { Flip(Fold(FeedByte, Flip(crc), s)) }

  // `crc32.ChecksumIEEE`, as an unsigned integer.
  function Checksum(s: seq<Byte>): nat { Unsigned(Update(0, s)) }

  // The four bytes of a register, lowest first.
  function Byte0(c: bv32): bv8 { (c & 0xFF) as bv8 }
  function Byte1(c: bv32): bv8 { ((c >> 8) & 0xFF) as bv8 }
  function Byte2(c: bv32): bv8 { ((c >> 16) & 0xFF) as bv8 }
  function Byte3(c: bv32): bv8 { ((c >> 24) & 0xFF) as bv8 }

  function ToByte(b: bv8): Byte { (b as int) as Byte }

  function Sum(a: Byte, b: Byte, c: Byte, d: Byte): nat {
    (a as int) + 256 * ((b as int) + 256 * ((c as int) + 256 * (d as int)))
  }

  function Unsigned(c: bv32): nat {
    Sum(ToByte(Byte0(c)), ToByte(Byte1(c)), ToByte(Byte2(c)), ToByte(Byte3(c)))
  }

  // ---- Folds ----

  function Fold<S, B>(f: (S, B) -> S, c: S, s: seq<B>): S {
    if s == [] then c else f(Fold(f, c, s[..|s| - 1]), s[|s| - 1])
  }

  // Equal results of one step: the states differ exactly when the inputs differ.
  ghost predicate Sharp<S(!new), B(!new)>(f: (S, B) -> S) {
    forall c1, b1, c2, b2 :: f(c1, b1) == f(c2, b2) ==> (c1 == c2 <==> b1 == b2)
  }

  lemma {:induction false} FoldAppend<S, B>(f: (S, B) -> S, c: S, p: seq<B>, q: seq<B>)
    ensures Fold(f, c, p + q) == Fold(f, Fold(f, c, p), q)
    decreases |q|
  {
    if q == [] {
      assert p + q == p;
    } else {
      assert (p + q)[..|p + q| - 1] == p + q[..|q| - 1];
      FoldAppend(f, c, p, q[..|q| - 1]);
    }
  }

  lemma {:induction false} FoldNotices<S(!new), B(!new)>(f: (S, B) -> S, c: S, s: seq<B>, k: nat, b: B)
    requires Sharp(f) && k < |s| && b != s[k]
    ensures Fold(f, c, s[k := b]) != Fold(f, c, s)
    decreases |s|
  {
    var s', n := s[k := b], |s| - 1;
    if k == n {
      assert s'[..n] == s[..n];
    } else {
      assert s'[..n] == s[..n][k := b];
      FoldNotices(f, c, s[..n], k, b);
    }
  }

  // ---- The register ----

  // The register can be shifted back: the polynomial's top bit records what left.
  lemma ShiftInjective(x: bv32, y: bv32)
    requires Shift(x) == Shift(y)
    ensures x == y
  {
  }

  lemma Shift4Injective(x: bv32, y: bv32)
    requires Shift4(x) == Shift4(y)
    ensures x == y
  {
    ShiftInjective(Shift(Shift(Shift(x))), Shift(Shift(Shift(y))));
    ShiftInjective(Shift(Shift(x)), Shift(Shift(y)));
    ShiftInjective(Shift(x), Shift(y));
    ShiftInjective(x, y);
  }

  lemma XorShift(x: bv32, y: bv32)
    ensures (x ^ y) >> 1 == (x >> 1) ^ (y >> 1)
  {
  }

  lemma XorLowBit(x: bv32, y: bv32)
    ensures (x ^ y) & 1 == (x & 1) ^ (y & 1)
    ensures (x & 1 == 0 || x & 1 == 1) && (y & 1 == 0 || y & 1 == 1)
  {
  }

  lemma XorRegroup(x: bv32, y: bv32, p: bv32)
    ensures (x ^ p) ^ y == (x ^ y) ^ p
    ensures x ^ (y ^ p) == (x ^ y) ^ p
    ensures (x ^ p) ^ (y ^ p) == x ^ y
  {
  }

  lemma ShiftLinear(x: bv32, y: bv32)
    ensures Shift(x ^ y) == Shift(x) ^ Shift(y)
  {
    XorShift(x, y);
    XorLowBit(x, y);
    XorRegroup(x >> 1, y >> 1, POLYNOMIAL);
    assert (x ^ y) & 1 == if (x & 1) == (y & 1) then 0 else 1;
  }

  function Xor(x: bv32, y: bv32): bv32 { x ^ y }

  ghost predicate Additive(f: bv32 -> bv32) {
    forall x, y :: f(Xor(x, y)) == Xor(f(x), f(y))
  }

  lemma ShiftAdditive()
    ensures Additive(Shift)
  {
    forall x, y ensures Shift(Xor(x, y)) == Xor(Shift(x), Shift(y)) { ShiftLinear(x, y); }
  }

  lemma FourTimes(f: bv32 -> bv32, x: bv32, y: bv32)
    requires Additive(f)
    ensures f(f(f(f(Xor(x, y))))) == Xor(f(f(f(f(x)))), f(f(f(f(y)))))
  {
  }

  lemma Shift4Additive()
    ensures Additive(Shift4)
  {
    ShiftAdditive();
    forall x, y ensures Shift4(Xor(x, y)) == Xor(Shift4(x), Shift4(y)) { FourTimes(Shift, x, y); }
  }

  lemma Shift4High(x: bv32)
    requires x & 0xF == 0
    ensures Shift4(x) == x >> 4
  {
  }

  lemma SplitBytes(c: bv32, b: bv8)
    ensures Xor(Low(c, b), High(c, b)) == c ^ (b as bv32)
    ensures High(c, b) & 0xF == 0 && (High(c, b) >> 4) & 0xF == 0 && (High(c, b) >> 4) >> 4 == c >> 8
  {
  }

  // Two rounds on a register whose high part is only shifted.
  lemma TwoRounds(f: bv32 -> bv32, low: bv32, high: bv32, mid: bv32, rest: bv32)
    requires Additive(f) && f(high) == mid && f(mid) == rest
    ensures f(f(Xor(low, high))) == Xor(f(f(low)), rest)
  {
  }

  // The table treats the register's low byte and the rest independently.
  ghost predicate Splits(f: bv32 -> bv32) {
    forall low, high | high & 0xF == 0 && (high >> 4) & 0xF == 0 ::
      f(Xor(low, high)) == Xor(f(low), (high >> 4) >> 4)
  }

  lemma EntrySplits()
    ensures Splits(Entry)
  {
    forall low, high | high & 0xF == 0 && (high >> 4) & 0xF == 0
      ensures Entry(Xor(low, high)) == Xor(Entry(low), (high >> 4) >> 4)
    {
      Shift4High(high);
      Shift4High(high >> 4);
      Shift4Additive();
      TwoRounds(Shift4, low, high, high >> 4, (high >> 4) >> 4);
    }
  }

  // A byte through a table, with the parts of the register named.
  lemma Recombine(f: bv32 -> bv32, x: bv32, low: bv32, high: bv32, rest: bv32)
    requires Xor(low, high) == x && f(Xor(low, high)) == Xor(f(low), rest)
    ensures f(low) ^ rest == f(x)
  {
  }

  function Low(c: bv32, b: bv8): bv32 { (c ^ (b as bv32)) & 0xFF }

  function High(c: bv32, b: bv8): bv32 { (c ^ (b as bv32)) & 0xFFFF_FF00 }

  lemma SplitRegister(f: bv32 -> bv32, c: bv32, b: bv8)
    requires Splits(f)
    ensures f(Xor(Low(c, b), High(c, b))) == Xor(f(Low(c, b)), c >> 8)
  {
    SplitBytes(c, b);
  }

  // The register with a byte added to its low end.
  function Mix(c: bv32, b: bv8): bv32 { c ^ (b as bv32) }

  // A step through a table that splits is the table's function on the whole register.
  lemma FeedIsDivision(f: bv32 -> bv32, c: bv32, b: bv8)
    requires Splits(f)
    ensures FeedWith(f, c, b) == f(Mix(c, b))
  {
    SplitRegister(f, c, b);
    SplitBytes(c, b);
    Recombine(f, Mix(c, b), Low(c, b), High(c, b), c >> 8);
  }

  /** One byte through the CRC table is eight division steps of the register mixed with it. */
  lemma FeedIsEntry(c: bv32, b: bv8)
    ensures Feed(c, b) == Entry(Mix(c, b)) == Shift4(Shift4(Mix(c, b)))
  {
    EntrySplits();
    FeedIsDivision(Entry, c, b);
  }

  lemma XorCancels(c1: bv32, b1: bv8, c2: bv32, b2: bv8)
    requires c1 ^ (b1 as bv32) == c2 ^ (b2 as bv32)
    ensures c1 == c2 <==> b1 == b2
  {
  }

  lemma EntryInjective(x: bv32, y: bv32)
    requires Entry(x) == Entry(y)
    ensures x == y
  {
    Shift4Injective(Shift4(x), Shift4(y));
    Shift4Injective(x, y);
  }

  // A sharp step stays sharp before an injective function.
  lemma SharpBefore<S(!new), B(!new)>(h: (S, B) -> S, f: S -> S, g: (S, B) -> S)
    requires Sharp(h) && forall x, y | f(x) == f(y) :: x == y
    requires forall c, b :: g(c, b) == f(h(c, b))
    ensures Sharp(g)
  {
    forall c1, b1, c2, b2 | g(c1, b1) == g(c2, b2) ensures c1 == c2 <==> b1 == b2 {
      assert f(h(c1, b1)) == f(h(c2, b2));
    }
  }

  lemma MixIsSharp()
    ensures Sharp(Mix)
  {
    forall c1, b1, c2, b2 | Mix(c1, b1) == Mix(c2, b2) ensures c1 == c2 <==> b1 == b2 {
      XorCancels(c1, b1, c2, b2);
    }
  }

  lemma FeedIsSharp()
    ensures Sharp(Feed)
  {
    MixIsSharp();
    forall x, y | Entry(x) == Entry(y) ensures x == y { EntryInjective(x, y); }
    forall c, b ensures Feed(c, b) == Entry(Mix(c, b)) { FeedIsEntry(c, b); }
    SharpBefore(Mix, Entry, Feed);
  }

  lemma ToBitsInjective(x: Byte, y: Byte)
    requires ToBits(x) == ToBits(y)
    ensures x == y
  {
    BitsValue(x as int);
    BitsValue(y as int);
  }

  // A sharp step stays sharp behind an injective reading of its input.
  lemma SharpThrough<S(!new), B(!new), R(!new)>(f: (S, R) -> S, read: B -> R, g: (S, B) -> S)
    requires Sharp(f) && forall x, y | read(x) == read(y) :: x == y
    requires forall c, b :: g(c, b) == f(c, read(b))
    ensures Sharp(g)
  {
  }

  lemma FeedByteIsSharp()
    ensures Sharp(FeedByte)
  {
    FeedIsSharp();
    forall x, y | ToBits(x) == ToBits(y) ensures x == y { ToBitsInjective(x, y); }
    SharpThrough(Feed, ToBits, FeedByte);
  }

  lemma FlipFlip(c: bv32)
    ensures Flip(Flip(c)) == c
  {
  }

  lemma ToBitsBack(b: bv8)
    ensures ToBits(ToByte(b)) == b
  {
  }

  lemma BytesDetermine(x: bv32, y: bv32)
    requires Byte0(x) == Byte0(y) && Byte1(x) == Byte1(y) && Byte2(x) == Byte2(y) && Byte3(x) == Byte3(y)
    ensures x == y
  {
  }

  lemma DigitInjective(a: Byte, n: nat, a': Byte, n': nat)
    requires (a as int) + 256 * n == (a' as int) + 256 * n'
    ensures a == a' && n == n'
  {
  }

  lemma SumInjective(a: Byte, b: Byte, c: Byte, d: Byte, a': Byte, b': Byte, c': Byte, d': Byte)
    requires Sum(a, b, c, d) == Sum(a', b', c', d')
    ensures a == a' && b == b' && c == c' && d == d'
  {
    var n, n' := (c as int) + 256 * (d as int), (c' as int) + 256 * (d' as int);
    DigitInjective(a, (b as int) + 256 * n, a', (b' as int) + 256 * n');
    DigitInjective(b, n, b', n');
    DigitInjective(c, d as int, c', d' as int);
  }

  lemma SameByte(x: bv8, y: bv8)
    ensures ToByte(x) == ToByte(y) ==> x == y
  {
    ToBitsBack(x);
    ToBitsBack(y);
  }

  lemma UnsignedInjective(x: bv32, y: bv32)
    requires Unsigned(x) == Unsigned(y)
    ensures x == y
  {
    var a, b, c, d := Byte0(x), Byte1(x), Byte2(x), Byte3(x);
    var a', b', c', d' := Byte0(y), Byte1(y), Byte2(y), Byte3(y);
    SumInjective(ToByte(a), ToByte(b), ToByte(c), ToByte(d), ToByte(a'), ToByte(b'), ToByte(c'), ToByte(d'));
    SameByte(a, a');
    SameByte(b, b');
    SameByte(c, c');
    SameByte(d, d');
    BytesDetermine(x, y);
  }

  lemma UnsignedFits(c: bv32)
    ensures Unsigned(c) < 0x1_0000_0000
  {
  }

  /** Hashing piece by piece is hashing the whole. */
  lemma UpdateAppend(crc: bv32, p: seq<Byte>, q: seq<Byte>)
    ensures Update(crc, p + q) == Update(Update(crc, p), q)
  {
    FoldAppend(FeedByte, Flip(crc), p, q);
    FlipFlip(Fold(FeedByte, Flip(crc), p));
  }

  /** Changing one byte changes the checksum. */
  lemma ChangedByteChangesChecksum(s: seq<Byte>, k: nat, b: Byte)
    requires k < |s| && b != s[k]
    ensures Checksum(s[k := b]) != Checksum(s)
  {
    FeedByteIsSharp();
    FoldNotices(FeedByte, Flip(0), s, k, b);
    FlipFlip(Fold(FeedByte, Flip(0), s[k := b]));
    FlipFlip(Fold(FeedByte, Flip(0), s));
    if Checksum(s[k := b]) == Checksum(s) {
      UnsignedInjective(Update(0, s[k := b]), Update(0, s));
    }
  }
}
