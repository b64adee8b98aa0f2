/** Decimal integers as Go's fmt and strconv write and read them, for 64-bit int. */
module Decimal {
  import opened Prelude

  const MAX_INT := 0x7FFF_FFFF_FFFF_FFFF
  const MIN_INT := -0x8000_0000_0000_0000

  predicate Fits(n: int) { MIN_INT <= n <= MAX_INT }

  // n + 1 in 64 bits.
  function Succ(n: int): int { if n == MAX_INT then MIN_INT else n + 1 }

  function Digit(d: int): char
    requires 0 <= d < 10
  {
    ['0', '1', '2', '3', '4', '5', '6', '7', '8', '9'][d]
  }

  function Digits(n: nat): (s: string)
    ensures s != []
  {
    if n < 10 then [Digit(n)] else Digits(n / 10) + [Digit(n % 10)]
  }

  // fmt's %d.
  function Format(n: int): string { if n < 0 then "-" + Digits(-n) else Digits(n) }

  predicate AllDigits(s: string) { forall k | 0 <= k < |s| :: '0' <= s[k] <= '9' }

  function Value(s: string): int
    requires AllDigits(s)
  {
    if s == [] then 0 else 10 * Value(s[..|s| - 1]) + (s[|s| - 1] as int - '0' as int)
  }

  // strconv.Atoi: an optional sign, at least one digit, and a value that fits.
  function Atoi(s: string): Option<int> {
    var negative := s != [] && s[0] == '-';
    var body := if s != [] && (s[0] == '-' || s[0] == '+') then s[1..] else s;
    if body == [] || !AllDigits(body) then None
    else
      var n: int := if negative then -Value(body) else Value(body);
      if Fits(n) then Some(n) else None
  }

  lemma {:induction false} DigitsAreRead(n: nat)
    ensures AllDigits(Digits(n)) && Value(Digits(n)) == n
  {
    if n < 10 {
      assert Value([]) == 0;
      assert Digits(n)[..0] == [];
    } else {
      DigitsAreRead(n / 10);
      var init := Digits(n / 10);
      assert Digits(n)[..|init|] == init;
    }
  }

  lemma AtoiOfDigits(s: string)
    requires s != [] && AllDigits(s)
    ensures Fits(Value(s)) ==> Atoi(s) == Some(Value(s))
    ensures Fits(-Value(s)) ==> Atoi("-" + s) == Some(-Value(s))
  {
    assert s[0] != '-' && s[0] != '+';
    assert ("-" + s)[1..] == s;
  }

  /** Reading what was written gives the number back. */
  lemma AtoiOfFormat(n: int)
    requires Fits(n)
    ensures Atoi(Format(n)) == Some(n)
  {
    var m: nat := if n < 0 then -n else n;
    DigitsAreRead(m);
    AtoiOfDigits(Digits(m));
  }
}
