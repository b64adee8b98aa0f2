/**
  Which spellings of a configuration are the same configuration: the letter case and the
  surrounding white space that engine/config/config.go disregards, and no more.
 */
module ConfigSpelling {
  import opened Prelude
  import opened ConfigIdentity

  predicate Blank(al: Alphabet, s: string) { forall i | 0 <= i < |s| :: al.space(s[i]) }

  // s is `core` with white space around it.
  ghost predicate Around(al: Alphabet, s: string, core: string) {
    exists l, r :: Blank(al, l) && Blank(al, r) && s == l + core + r
  }

  predicate SameLetters(al: Alphabet, s: string, t: string) {
    |s| == |t| && forall i | 0 <= i < |s| :: al.lower(s[i]) == al.lower(t[i])
  }

  // The same text up to white space around it, and up to letter case as well.
  ghost predicate SameTrimmed(al: Alphabet, s: string, t: string) {
    exists core :: Around(al, s, core) && Around(al, t, core)
  }

  ghost predicate SameFolded(al: Alphabet, s: string, t: string) {
    exists x, y :: Around(al, s, x) && Around(al, t, y) && SameLetters(al, x, y)
  }

  // ---- Trimming ----

  lemma {:induction false} TrimLeftTakes(al: Alphabet, s: string) returns (l: string)
    ensures Blank(al, l) && s == l + TrimLeft(al, s)
    decreases |s|
  {
    if s != [] && al.space(s[0]) {
      var m := TrimLeftTakes(al, s[1..]);
      l := [s[0]] + m;
    } else {
      l := [];
    }
  }

  lemma {:induction false} TrimRightTakes(al: Alphabet, s: string) returns (r: string)
    ensures Blank(al, r) && s == TrimRight(al, s) + r
    decreases |s|
  {
    if s != [] && al.space(s[|s| - 1]) {
      var m := TrimRightTakes(al, s[..|s| - 1]);
      r := m + [s[|s| - 1]];
      assert s == s[..|s| - 1] + [s[|s| - 1]];
    } else {
      r := [];
    }
  }

  lemma TrimIsAround(al: Alphabet, s: string)
    ensures Around(al, s, Trim(al, s))
  {
    var l := TrimLeftTakes(al, s);
    var r := TrimRightTakes(al, TrimLeft(al, s));
    assert s == l + Trim(al, s) + r;
  }

  lemma {:induction false} TrimLeftPads(al: Alphabet, l: string, s: string)
    requires Blank(al, l)
    ensures TrimLeft(al, l + s) == TrimLeft(al, s)
    decreases |l|
  {
    if l == [] {
      assert l + s == s;
    } else {
      TrimLeftPads(al, l[1..], s);
      assert (l + s)[1..] == l[1..] + s;
    }
  }

  lemma {:induction false} TrimRightPads(al: Alphabet, s: string, r: string)
    requires Blank(al, r)
    ensures TrimRight(al, s + r) == TrimRight(al, s)
    decreases |r|
  {
    if r == [] {
      assert s + r == s;
    } else {
      TrimRightPads(al, s, r[..|r| - 1]);
      assert (s + r)[..|s + r| - 1] == s + r[..|r| - 1];
    }
  }

  // Either white space all through, or trimming the left leaves the right alone.
  lemma {:induction false} TrimLeftBefore(al: Alphabet, s: string, r: string)
    requires Blank(al, r)
    ensures TrimLeft(al, s + r) == TrimLeft(al, s) + r || (TrimLeft(al, s) == [] && TrimLeft(al, s + r) == [])
    decreases |s|
  {
    if s == [] {
      assert s + r == r + [];
      TrimLeftPads(al, r, []);
    } else if al.space(s[0]) {
      TrimLeftBefore(al, s[1..], r);
      assert (s + r)[1..] == s[1..] + r;
    }
  }

  lemma TrimPads(al: Alphabet, s: string, core: string)
    requires Around(al, s, core)
    ensures Trim(al, s) == Trim(al, core)
  {
    var l, r :| Blank(al, l) && Blank(al, r) && s == l + core + r;
    assert s == l + (core + r);
    TrimLeftPads(al, l, core + r);
    TrimLeftBefore(al, core, r);
    if TrimLeft(al, s) == TrimLeft(al, core) + r { TrimRightPads(al, TrimLeft(al, core), r); }
  }

  /** Trimming answers the same exactly for texts that differ in the white space around them. */
  lemma TrimExactly(al: Alphabet, s: string, t: string)
    ensures Trim(al, s) == Trim(al, t) <==> SameTrimmed(al, s, t)
  {
    TrimIsAround(al, s);
    TrimIsAround(al, t);
    if core :| Around(al, s, core) && Around(al, t, core) {
      TrimPads(al, s, core);
      TrimPads(al, t, core);
    }
  }

  // ---- Folding ----

  lemma {:induction false} LowerTrimsLeft(al: Alphabet, s: string)
    requires Sane(al)
    ensures Lower(al, TrimLeft(al, s)) == TrimLeft(al, Lower(al, s))
    decreases |s|
  {
    if s != [] && al.space(s[0]) {
      LowerTrimsLeft(al, s[1..]);
      assert Lower(al, s)[1..] == Lower(al, s[1..]);
    }
  }

  lemma {:induction false} LowerTrimsRight(al: Alphabet, s: string)
    requires Sane(al)
    ensures Lower(al, TrimRight(al, s)) == TrimRight(al, Lower(al, s))
    decreases |s|
  {
    if s != [] && al.space(s[|s| - 1]) {
      LowerTrimsRight(al, s[..|s| - 1]);
      assert Lower(al, s)[..|s| - 1] == Lower(al, s[..|s| - 1]);
    }
  }

  lemma LowerTrims(al: Alphabet, s: string)
    requires Sane(al)
    ensures Fold(al, s) == Trim(al, Lower(al, s))
  {
    LowerTrimsLeft(al, s);
    LowerTrimsRight(al, TrimLeft(al, s));
  }

  lemma LowerExactly(al: Alphabet, s: string, t: string)
    ensures Lower(al, s) == Lower(al, t) <==> SameLetters(al, s, t)
  {
    if Lower(al, s) == Lower(al, t) {
      forall i | 0 <= i < |s| ensures al.lower(s[i]) == al.lower(t[i]) {
        assert Lower(al, s)[i] == Lower(al, t)[i];
      }
    }
  }

  /** Folding answers the same exactly for texts that differ in letter case and the white space around them. */
  lemma FoldExactly(al: Alphabet, s: string, t: string)
    requires Sane(al)
    ensures Fold(al, s) == Fold(al, t) <==> SameFolded(al, s, t)
  {
    if Fold(al, s) == Fold(al, t) {
      TrimIsAround(al, s);
      TrimIsAround(al, t);
      LowerExactly(al, Trim(al, s), Trim(al, t));
    }
    if x, y :| Around(al, s, x) && Around(al, t, y) && SameLetters(al, x, y) {
      TrimPads(al, s, x);
      TrimPads(al, t, y);
      LowerTrims(al, x);
      LowerTrims(al, y);
      LowerExactly(al, x, y);
    }
  }

  // ---- Configurations ----

  // Lists whose elements differ in the white space around them.
  ghost predicate SameElements(al: Alphabet, a: seq<string>, b: seq<string>) {
    |a| == |b| && forall i | 0 <= i < |a| :: SameTrimmed(al, a[i], b[i])
  }

  lemma ElementsTrimAlike(al: Alphabet, a: seq<string>, b: seq<string>)
    requires SameElements(al, a, b)
    ensures TrimAll(al, a) == TrimAll(al, b)
  {
    forall i | 0 <= i < |a| ensures Trim(al, a[i]) == Trim(al, b[i]) { TrimExactly(al, a[i], b[i]); }
  }

  // Equal where neither case nor white space is disregarded.
  predicate SameVerbatim(a: Identity, b: Identity) {
    && a.port == b.port && a.mtu == b.mtu && a.keepalive == b.keepalive
    && a.uuid == b.uuid && a.username == b.username && a.password == b.password
  }

  // Equal up to white space alone, and up to letter case too.
  ghost predicate SameTexts(al: Alphabet, a: Identity, b: Identity) {
    && SameTrimmed(al, a.serverName, b.serverName) && SameTrimmed(al, a.host, b.host)
    && SameTrimmed(al, a.path, b.path) && SameTrimmed(al, a.service, b.service)
    && SameTrimmed(al, a.publicKey, b.publicKey) && SameTrimmed(al, a.shortId, b.shortId)
  }

  ghost predicate SameNames(al: Alphabet, a: Identity, b: Identity) {
    && SameFolded(al, a.kind, b.kind) && SameFolded(al, a.address, b.address)
    && SameFolded(al, a.network, b.network) && SameFolded(al, a.security, b.security)
    && SameFolded(al, a.cipher, b.cipher) && SameFolded(al, a.profile, b.profile)
  }

  // The lists keep the same distinct, non-empty, trimmed elements in the same order.
  predicate SameLists(al: Alphabet, a: Identity, b: Identity) {
    && Compact(al, TrimAll(al, a.allowedIps)) == Compact(al, TrimAll(al, b.allowedIps))
    && Compact(al, TrimAll(al, a.dns)) == Compact(al, TrimAll(al, b.dns))
  }

  lemma TextsExactly(al: Alphabet, a: Identity, b: Identity)
    ensures var n, m := Normalize(al, a), Normalize(al, b);
      SameTexts(al, a, b) <==> n.serverName == m.serverName && n.host == m.host && n.path == m.path
                               && n.service == m.service && n.publicKey == m.publicKey && n.shortId == m.shortId
  {
    TrimExactly(al, a.serverName, b.serverName);
    TrimExactly(al, a.host, b.host);
    TrimExactly(al, a.path, b.path);
    TrimExactly(al, a.service, b.service);
    TrimExactly(al, a.publicKey, b.publicKey);
    TrimExactly(al, a.shortId, b.shortId);
  }

  lemma NamesExactly(al: Alphabet, a: Identity, b: Identity)
    requires Sane(al)
    ensures var n, m := Normalize(al, a), Normalize(al, b);
      SameNames(al, a, b) <==> n.kind == m.kind && n.address == m.address && n.network == m.network
                               && n.security == m.security && n.cipher == m.cipher && n.profile == m.profile
  {
    FoldExactly(al, a.kind, b.kind);
    FoldExactly(al, a.address, b.address);
    FoldExactly(al, a.network, b.network);
    FoldExactly(al, a.security, b.security);
    FoldExactly(al, a.cipher, b.cipher);
    FoldExactly(al, a.profile, b.profile);
  }

  /**
    Two configurations normalize alike exactly when their verbatim fields are equal, six
    fields differ only in the white space around them, six more in that and in letter case,
    and the lists keep the same elements.
   */
  lemma NormalizeExactly(al: Alphabet, a: Identity, b: Identity)
    requires Sane(al)
    ensures Normalize(al, a) == Normalize(al, b) <==>
            SameVerbatim(a, b) && SameTexts(al, a, b) && SameNames(al, a, b) && SameLists(al, a, b)
  {
    TextsExactly(al, a, b);
    NamesExactly(al, a, b);
  }

  /** Such spellings hash the same text; a list may also differ in the white space around its elements. */
  lemma SpellingsHashAlike(al: Alphabet, a: Config, b: Config)
    requires Sane(al) && SameVerbatim(a.identity, b.identity)
    requires SameTexts(al, a.identity, b.identity) && SameNames(al, a.identity, b.identity)
    requires SameElements(al, a.identity.allowedIps, b.identity.allowedIps)
    requires SameElements(al, a.identity.dns, b.identity.dns)
    ensures Preimage(al, a) == Preimage(al, b)
  {
    ElementsTrimAlike(al, a.identity.allowedIps, b.identity.allowedIps);
    ElementsTrimAlike(al, a.identity.dns, b.identity.dns);
    NormalizeExactly(al, a.identity, b.identity);
  }

  /** And no others do, unless a field holds a separator. */
  lemma OnlySpellingsHashAlike(al: Alphabet, a: Config, b: Config)
    requires Sane(al) && Plain(Normalize(al, a.identity)) && Plain(Normalize(al, b.identity))
    requires Preimage(al, a) == Preimage(al, b)
    ensures SameVerbatim(a.identity, b.identity) && SameTexts(al, a.identity, b.identity)
    ensures SameNames(al, a.identity, b.identity) && SameLists(al, a.identity, b.identity)
  {
    PreimageIsIdentity(al, a, b);
    NormalizeExactly(al, a.identity, b.identity);
  }

  // ---- Lists ----

  // Where a value first appears, |values| if it does not.
  function FirstAt(values: seq<string>, v: string): (n: nat)
    ensures n <= |values| && (n < |values| ==> values[n] == v) && forall i | 0 <= i < n :: values[i] != v
  {
    if values == [] then 0
    else
      var n := FirstAt(values[..|values| - 1], v);
      if n < |values| - 1 || values[|values| - 1] == v then n else |values|
  }

  /** A list keeps each non-empty trimmed element once, in the order of first appearance. */
  lemma {:induction false} ListKeepsFirsts(al: Alphabet, values: seq<string>)
    ensures var trimmed, kept := TrimAll(al, values), Compact(al, TrimAll(al, values));
      && (forall v :: v in kept <==> v != "" && v in trimmed)
      && (forall i, j | 0 <= i < j < |kept| :: FirstAt(trimmed, kept[i]) < FirstAt(trimmed, kept[j]))
    decreases |values|
  {
    if values != [] {
      var init, v := values[..|values| - 1], Trim(al, values[|values| - 1]);
      var trimmed := TrimAll(al, values);
      assert trimmed == TrimAll(al, init) + [v] && trimmed[..|values| - 1] == TrimAll(al, init);
      ListKeepsFirsts(al, init);
      TrimTrims(al, values[|values| - 1]);
      forall w | w in TrimAll(al, init)
        ensures FirstAt(trimmed, w) == FirstAt(TrimAll(al, init), w) < |init|
      {
      }
      var before, kept := Compact(al, TrimAll(al, init)), Compact(al, trimmed);
      assert kept == before || kept == before + [v];
      assert forall i | 0 <= i < |before| :: before[i] in before;
    }
  }
}
