/** Joining strings with a separator, and when the parts can be told apart again. */
module Joining {

  function Join(parts: seq<string>, sep: char): string {
    if parts == [] then ""
    else if |parts| == 1 then parts[0]
    else parts[0] + [sep] + Join(parts[1..], sep)
  }

  predicate Free(parts: seq<string>, sep: char) { forall p | p in parts :: sep !in p }

  lemma HeadsAgree(a: string, x: string, b: string, y: string, sep: char)
    requires sep !in a && sep !in b && a + [sep] + x == b + [sep] + y
    ensures a == b && x == y
  {
    var s := a + [sep] + x;
    var t := b + [sep] + y;
    assert s[|a|] == sep && t[|b|] == sep;
    assert forall k | 0 <= k < |a| :: s[k] == a[k] && a[k] in a;
    assert forall k | 0 <= k < |b| :: t[k] == b[k] && b[k] in b;
    assert |a| == |b|;
    assert a == s[..|a|] && b == t[..|b|];
    assert x == s[|a| + 1..] && y == t[|b| + 1..];
  }

  lemma NoSeparator(a: string, b: string, y: string, sep: char)
    requires sep !in a
    ensures a != b + [sep] + y
  {
    assert (b + [sep] + y)[|b|] == sep;
  }

  /** Parts without the separator are determined by what they join to, their number included. */
  lemma {:induction false} JoinIsInjective(a: seq<string>, b: seq<string>, sep: char)
    requires a != [] && b != [] && Free(a, sep) && Free(b, sep) && Join(a, sep) == Join(b, sep)
    ensures a == b
  {
    if |a| == 1 && |b| > 1 {
      NoSeparator(a[0], b[0], Join(b[1..], sep), sep);
    } else if |b| == 1 && |a| > 1 {
      NoSeparator(b[0], a[0], Join(a[1..], sep), sep);
    } else if |a| > 1 {
      HeadsAgree(a[0], Join(a[1..], sep), b[0], Join(b[1..], sep), sep);
      JoinIsInjective(a[1..], b[1..], sep);
      assert a == [a[0]] + a[1..] && b == [b[0]] + b[1..];
    }
  }

  predicate NoneEmpty(parts: seq<string>) { forall p | p in parts :: p != "" }

  lemma JoinNotEmpty(a: seq<string>, sep: char)
    requires a != [] && NoneEmpty(a)
    ensures Join(a, sep) != ""
  {
    assert a[0] in a;
  }

  /** Without empty parts the empty list is told apart as well. */
  lemma ListsAreInjective(a: seq<string>, b: seq<string>, sep: char)
    requires NoneEmpty(a) && NoneEmpty(b) && Free(a, sep) && Free(b, sep) && Join(a, sep) == Join(b, sep)
    ensures a == b
  {
    if a != [] { JoinNotEmpty(a, sep); }
    if b != [] { JoinNotEmpty(b, sep); }
    if a != [] && b != [] { JoinIsInjective(a, b, sep); }
  }

  lemma {:induction false} JoinHas(parts: seq<string>, sep: char, c: char)
    requires c in Join(parts, sep)
    ensures c == sep || exists p :: p in parts && c in p
  {
    if |parts| == 1 {
      assert parts[0] in parts;
    } else if |parts| > 1 {
      assert parts[0] in parts;
      if c in Join(parts[1..], sep) { JoinHas(parts[1..], sep, c); }
    }
  }
}
