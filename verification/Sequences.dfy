/** Sequences of values: filters, positions, insertion and removal, first occurrences. */
module Sequences {

  predicate Distinct<T(==)>(s: seq<T>) { forall i, j | 0 <= i < j < |s| :: s[i] != s[j] }

  // ---- Filters ----

  function Filter<T>(s: seq<T>, p: T -> bool): seq<T> {
    if s == [] then []
    else
      var last := s[|s| - 1];
      Filter(s[..|s| - 1], p) + if p(last) then [last] else []
  }

  lemma {:induction false} FilterMember<T>(s: seq<T>, p: T -> bool, x: T)
    ensures x in Filter(s, p) <==> x in s && p(x)
  {
    if s != [] {
      FilterMember(s[..|s| - 1], p, x);
      assert s == s[..|s| - 1] + [s[|s| - 1]];
    }
  }

  lemma {:induction false} FilterConcat<T>(a: seq<T>, b: seq<T>, p: T -> bool)
    ensures Filter(a + b, p) == Filter(a, p) + Filter(b, p)
  {
    if b == [] {
      assert a + b == a;
    } else {
      assert (a + b)[..|a + b| - 1] == a + b[..|b| - 1];
      FilterConcat(a, b[..|b| - 1], p);
    }
  }

  lemma {:induction false} FilterDistinct<T>(s: seq<T>, p: T -> bool)
    requires Distinct(s)
    ensures Distinct(Filter(s, p))
  {
    if s != [] {
      var init := s[..|s| - 1];
      FilterDistinct(init, p);
      FilterMember(init, p, s[|s| - 1]);
    }
  }

  lemma FilterSnoc<T>(s: seq<T>, p: T -> bool, k: nat)
    requires k < |s|
    ensures Filter(s[..k + 1], p) == Filter(s[..k], p) + if p(s[k]) then [s[k]] else []
  {
    assert s[..k + 1][..k] == s[..k];
  }

  lemma {:induction false} FilterSize<T>(s: seq<T>, p: T -> bool)
    ensures |Filter(s, p)| <= |s|
    ensures |Filter(s, p)| == |s| <==> forall x | x in s :: p(x)
    ensures |Filter(s, p)| == |s| ==> Filter(s, p) == s
  {
    if s != [] {
      var init, last := s[..|s| - 1], s[|s| - 1];
      assert s == init + [last];
      FilterSize(init, p);
    }
  }

  // ---- Positions ----

  // The first index of a value, or the length.
  function IndexOf<T(==)>(s: seq<T>, x: T): (k: nat)
    ensures k <= |s| && (k < |s| <==> x in s) && (k < |s| ==> s[k] == x)
  {
    if s == [] then 0 else if s[0] == x then 0 else 1 + IndexOf(s[1..], x)
  }

  lemma {:induction false} IndexIsFirst<T>(s: seq<T>, x: T, k: nat)
    requires k <= |s| && x !in s[..k] && (k < |s| ==> s[k] == x)
    ensures IndexOf(s, x) == k
  {
    if k > 0 {
      assert s[0] in s[..k] && s[1..][..k - 1] == s[..k][1..];
      IndexIsFirst(s[1..], x, k - 1);
    }
  }

  method Locate<T(==)>(s: seq<T>, x: T) returns (k: nat)
    ensures k == IndexOf(s, x)
  {
    k := 0;
    while k < |s| && s[k] != x
      invariant k <= |s| && x !in s[..k]
    {
      k := k + 1;
    }
    IndexIsFirst(s, x, k);
  }

  function Without<T>(s: seq<T>, k: nat): seq<T>
    requires k < |s|
  {
    s[..k] + s[k + 1..]
  }

  function With<T>(s: seq<T>, k: nat, x: T): seq<T>
    requires k <= |s|
  {
    s[..k] + [x] + s[k..]
  }

  lemma WithPermutes<T>(s: seq<T>, k: nat, x: T)
    requires k <= |s|
    ensures multiset(With(s, k, x)) == multiset(s) + multiset{x}
  {
    assert s == s[..k] + s[k..];
  }

  lemma WithoutPermutes<T>(s: seq<T>, k: nat)
    requires k < |s|
    ensures multiset(Without(s, k)) + multiset{s[k]} == multiset(s)
  {
    assert s == s[..k] + [s[k]] + s[k + 1..];
  }

  lemma {:induction false} CountInDistinct<T>(s: seq<T>, x: T)
    requires Distinct(s)
    ensures multiset(s)[x] <= 1
  {
    if s != [] {
      var init := s[..|s| - 1];
      assert s == init + [s[|s| - 1]];
      CountInDistinct(init, x);
      assert x in multiset(init) <==> x in init;
    }
  }

  lemma PermutedDistinct<T>(a: seq<T>, b: seq<T>)
    requires Distinct(a) && multiset(a) == multiset(b)
    ensures Distinct(b)
  {
    forall i, j | 0 <= i < j < |b| ensures b[i] != b[j] {
      var left, right := b[..j], b[j..];
      assert b == left + right && left[i] == b[i] && right[0] == b[j];
      assert multiset(b) == multiset(left) + multiset(right);
      assert multiset(left)[b[i]] >= 1 && multiset(right)[b[j]] >= 1;
      CountInDistinct(a, b[i]);
    }
  }

  // Distinct members of s are at most as many as s has.
  lemma {:induction false} DistinctFits<T>(r: seq<T>, s: seq<T>)
    requires Distinct(r) && forall x | x in r :: x in s
    ensures |r| <= |s|
    decreases |r|
  {
    if r != [] {
      var init, last := r[..|r| - 1], r[|r| - 1];
      assert last in r;
      var k :| 0 <= k < |s| && s[k] == last;
      forall x | x in init ensures x in Without(s, k) {
        var i :| 0 <= i < |init| && init[i] == x;
        assert x in r && r[i] != last;
        var j :| 0 <= j < |s| && s[j] == x;
        assert Without(s, k)[if j < k then j else j - 1] == x;
      }
      DistinctFits(init, Without(s, k));
    }
  }

  // ---- First occurrences ----

  // First occurrences of the non-empty strings.
  function Deduped(ids: seq<string>): seq<string> {
    if ids == [] then []
    else
      var before, id := Deduped(ids[..|ids| - 1]), ids[|ids| - 1];
      if id == "" || id in before then before else before + [id]
  }

  lemma {:induction false} DedupedIsDistinct(ids: seq<string>)
    ensures Distinct(Deduped(ids)) && "" !in Deduped(ids)
    ensures forall x :: x in Deduped(ids) <==> x in ids && x != ""
  {
    if ids != [] {
      var init, id := ids[..|ids| - 1], ids[|ids| - 1];
      assert ids == init + [id];
      DedupedIsDistinct(init);
    }
  }

  lemma {:induction false} DedupedIsIdentity(ids: seq<string>)
    requires Distinct(ids) && "" !in ids
    ensures Deduped(ids) == ids
  {
    if ids != [] {
      var init := ids[..|ids| - 1];
      assert ids == init + [ids[|ids| - 1]];
      DedupedIsIdentity(init);
    }
  }

  method Dedupe(ids: seq<string>) returns (unique: seq<string>)
    ensures unique == Deduped(ids)
  {
    unique := [];
    var seen: set<string> := {};
    for i := 0 to |ids|
      invariant unique == Deduped(ids[..i]) && seen == set id | id in unique
    {
      assert ids[..i + 1][..i] == ids[..i];
      if ids[i] == "" { continue; }
      if ids[i] in seen { continue; }
      seen := seen + {ids[i]};
      unique := unique + [ids[i]];
    }
    assert ids[..|ids|] == ids;
  }
}
