/**
  Configuration identity (engine/config/config.go): normalization, the text a fingerprint
  hashes, and the hops of a composed chain.
 */
module ConfigIdentity {
  import opened Prelude
  import opened Decimal
  import opened Joining

  // Lower-casing and white space of single characters.
  datatype Alphabet = Alphabet(lower: char -> char, space: char -> bool)

  // Lower-casing is idempotent and neither makes nor removes white space.
  ghost predicate Sane(al: Alphabet) {
    forall c :: al.lower(al.lower(c)) == al.lower(c) && al.space(al.lower(c)) == al.space(c)
  }

  // The twenty fields a fingerprint covers.
  datatype Identity = Identity(kind: string, address: string, port: int,
                               uuid: string, username: string, password: string, cipher: string,
                               network: string, path: string, host: string, service: string,
                               security: string, serverName: string, profile: string, publicKey: string,
                               shortId: string,
                               allowedIps: seq<string>, dns: seq<string>, mtu: int, keepalive: int)

  // What testing and ingestion record about a configuration.
  datatype Measured = Measured(working: bool, latency: int, testedAt: int, backend: string, source: string,
                               trust: string, lastSuccessAt: int, failureStreak: int, failureClass: string)

  datatype Config = Config(id: string, name: string, identity: Identity, measured: Measured, chain: seq<Config>)

  const FAILURE_CLASSES := {"dns", "tcp", "tls", "handshake", "listener", "verify", "reset", "timeout", "transport"}

  // An unknown failure class is dropped.
  function Vetted(m: Measured): Measured {
    if m.failureClass in FAILURE_CLASSES then m else m.(failureClass := "")
  }

  // ---- Trimming and folding ----

  function TrimLeft(al: Alphabet, s: string): string {
    if s != [] && al.space(s[0]) then TrimLeft(al, s[1..]) else s
  }

  function TrimRight(al: Alphabet, s: string): string {
    if s != [] && al.space(s[|s| - 1]) then TrimRight(al, s[..|s| - 1]) else s
  }

  function Trim(al: Alphabet, s: string): string { TrimRight(al, TrimLeft(al, s)) }

  function Lower(al: Alphabet, s: string): (r: string)
    ensures |r| == |s|
  {
    seq(|s|, i requires 0 <= i < |s| => al.lower(s[i]))
  }

  function Fold(al: Alphabet, s: string): string { Lower(al, Trim(al, s)) }

  function TrimAll(al: Alphabet, values: seq<string>): (r: seq<string>)
    ensures |r| == |values|
  {
    seq(|values|, i requires 0 <= i < |values| => Trim(al, values[i]))
  }

  // Trimmed, non-empty, first occurrences.
  function Compact(al: Alphabet, values: seq<string>): seq<string> {
    if values == [] then []
    else
      var before, v := Compact(al, values[..|values| - 1]), Trim(al, values[|values| - 1]);
      if v == "" || v in before then before else before + [v]
  }

  function Normalize(al: Alphabet, c: Identity): Identity {
    c.(kind := Fold(al, c.kind), address := Fold(al, c.address), network := Fold(al, c.network),
       security := Fold(al, c.security), cipher := Fold(al, c.cipher), profile := Fold(al, c.profile),
       serverName := Trim(al, c.serverName), host := Trim(al, c.host), path := Trim(al, c.path),
       service := Trim(al, c.service), publicKey := Trim(al, c.publicKey), shortId := Trim(al, c.shortId),
       allowedIps := Compact(al, TrimAll(al, c.allowedIps)), dns := Compact(al, TrimAll(al, c.dns)))
  }

  // ---- Idempotence ----

  predicate Trimmed(al: Alphabet, s: string) {
    s == "" || (!al.space(s[0]) && !al.space(s[|s| - 1]))
  }

  lemma {:induction false} TrimLeftStarts(al: Alphabet, s: string)
    ensures TrimLeft(al, s) != [] ==> !al.space(TrimLeft(al, s)[0])
  {
    if s != [] && al.space(s[0]) { TrimLeftStarts(al, s[1..]); }
  }

  lemma {:induction false} TrimRightEnds(al: Alphabet, s: string)
    ensures TrimRight(al, s) <= s
    ensures TrimRight(al, s) != [] ==> !al.space(TrimRight(al, s)[|TrimRight(al, s)| - 1])
  {
    if s != [] && al.space(s[|s| - 1]) { TrimRightEnds(al, s[..|s| - 1]); }
  }

  lemma TrimTrims(al: Alphabet, s: string)
    ensures Trimmed(al, Trim(al, s)) && Trim(al, Trim(al, s)) == Trim(al, s)
  {
    TrimLeftStarts(al, s);
    TrimRightEnds(al, TrimLeft(al, s));
  }

  lemma FoldFolds(al: Alphabet, s: string)
    requires Sane(al)
    ensures Fold(al, Fold(al, s)) == Fold(al, s)
  {
    TrimTrims(al, s);
    var t := Trim(al, s);
    var f := Lower(al, t);
    assert Trimmed(al, f);
    assert Trim(al, f) == f;
    assert Lower(al, f) == f;
  }

  predicate Compacted(al: Alphabet, values: seq<string>) {
    && (forall i, j | 0 <= i < j < |values| :: values[i] != values[j])
    && (forall v | v in values :: v != "" && Trim(al, v) == v)
  }

  lemma {:induction false} CompactCompacts(al: Alphabet, values: seq<string>)
    ensures Compacted(al, Compact(al, values))
  {
    if values != [] {
      CompactCompacts(al, values[..|values| - 1]);
      TrimTrims(al, values[|values| - 1]);
    }
  }

  lemma {:induction false} CompactIsIdentity(al: Alphabet, values: seq<string>)
    requires Compacted(al, values)
    ensures Compact(al, values) == values
  {
    if values != [] {
      var init, last := values[..|values| - 1], values[|values| - 1];
      assert values == init + [last];
      assert forall v | v in init :: v in values;
      CompactIsIdentity(al, init);
    }
  }

  lemma CompactTwice(al: Alphabet, values: seq<string>)
    ensures var once := Compact(al, TrimAll(al, values)); Compact(al, TrimAll(al, once)) == once
  {
    var once := Compact(al, TrimAll(al, values));
    CompactCompacts(al, TrimAll(al, values));
    forall i | 0 <= i < |once| ensures Trim(al, once[i]) == once[i] { assert once[i] in once; }
    assert TrimAll(al, once) == once;
    CompactIsIdentity(al, once);
  }

  /** Normalizing twice is normalizing once. */
  lemma NormalizeIsIdempotent(al: Alphabet, c: Identity)
    requires Sane(al)
    ensures Normalize(al, Normalize(al, c)) == Normalize(al, c)
  {
    FoldFolds(al, c.kind);
    FoldFolds(al, c.address);
    FoldFolds(al, c.network);
    FoldFolds(al, c.security);
    FoldFolds(al, c.cipher);
    FoldFolds(al, c.profile);
    TrimTrims(al, c.serverName);
    TrimTrims(al, c.host);
    TrimTrims(al, c.path);
    TrimTrims(al, c.service);
    TrimTrims(al, c.publicKey);
    TrimTrims(al, c.shortId);
    CompactTwice(al, c.allowedIps);
    CompactTwice(al, c.dns);
  }

  // ---- The text that is hashed ----

  const NUL := '\0'

  function Fields(c: Identity): seq<string> {
    [c.kind, c.address, Format(c.port), c.uuid, c.username, c.password, c.cipher,
     c.network, c.path, c.host, c.service,
     c.security, c.serverName, c.profile, c.publicKey, c.shortId,
     Join(c.allowedIps, ','), Join(c.dns, ','), Format(c.mtu), Format(c.keepalive)]
  }

  function Preimage(al: Alphabet, c: Config): string { Join(Fields(Normalize(al, c.identity)), NUL) }

  function Endpoint(c: Identity): seq<string> { [c.kind, c.address] }

  function Texts(c: Identity): seq<string> {
    [c.uuid, c.username, c.password, c.cipher, c.network, c.path, c.host, c.service,
     c.security, c.serverName, c.profile, c.publicKey, c.shortId]
  }

  // No NUL in a field or a list element; commas are allowed.
  predicate NulFree(c: Identity) {
    Free(Endpoint(c), NUL) && Free(Texts(c), NUL) && Free(c.allowedIps, NUL) && Free(c.dns, NUL)
  }

  // And no comma in a list element.
  predicate Plain(c: Identity) {
    NulFree(c) && Free(c.allowedIps, ',') && Free(c.dns, ',')
  }

  lemma {:induction false} FormatHasNoNul(n: int)
    ensures NUL !in Format(n)
  {
    var m: nat := if n < 0 then -n else n;
    DigitsAreRead(m);
    assert forall k | 0 <= k < |Digits(m)| :: Digits(m)[k] != NUL;
  }

  lemma FormatIsInjective(m: int, n: int)
    requires Format(m) == Format(n)
    ensures m == n
  {
    var a: nat, b: nat := if m < 0 then -m else m, if n < 0 then -n else n;
    DigitsAreRead(a);
    DigitsAreRead(b);
    assert Digits(a)[0] != '-' && Digits(b)[0] != '-';
    assert m < 0 ==> Format(m)[1..] == Digits(a);
    assert n < 0 ==> Format(n)[1..] == Digits(b);
  }

  lemma JoinedHasNoNul(parts: seq<string>)
    requires Free(parts, NUL)
    ensures NUL !in Join(parts, ',')
  {
    if NUL in Join(parts, ',') { JoinHas(parts, ',', NUL); }
  }

  lemma FieldsByPart(c: Identity)
    ensures Fields(c) == Endpoint(c) + [Format(c.port)] + Texts(c) +
                         [Join(c.allowedIps, ','), Join(c.dns, ','), Format(c.mtu), Format(c.keepalive)]
  {
  }

  lemma FieldsAreFree(c: Identity)
    requires NulFree(c)
    ensures Free(Fields(c), NUL)
  {
    FormatHasNoNul(c.port);
    FormatHasNoNul(c.mtu);
    FormatHasNoNul(c.keepalive);
    JoinedHasNoNul(c.allowedIps);
    JoinedHasNoNul(c.dns);
    FieldsByPart(c);
  }

  lemma FieldsAreInjective(a: Identity, b: Identity)
    requires Plain(a) && Plain(b) && Fields(a) == Fields(b)
    requires NoneEmpty(a.allowedIps) && NoneEmpty(b.allowedIps) && NoneEmpty(a.dns) && NoneEmpty(b.dns)
    ensures a == b
  {
    var f, g := Fields(a), Fields(b);
    assert f[2] == g[2] && f[16] == g[16] && f[17] == g[17] && f[18] == g[18] && f[19] == g[19];
    FormatIsInjective(a.port, b.port);
    FormatIsInjective(a.mtu, b.mtu);
    FormatIsInjective(a.keepalive, b.keepalive);
    ListsAreInjective(a.allowedIps, b.allowedIps, ',');
    ListsAreInjective(a.dns, b.dns, ',');
    SameTexts(a, b);
  }

  lemma SameTexts(a: Identity, b: Identity)
    requires Fields(a) == Fields(b)
    ensures a.(port := 0, allowedIps := [], dns := [], mtu := 0, keepalive := 0) ==
            b.(port := 0, allowedIps := [], dns := [], mtu := 0, keepalive := 0)
  {
    var f, g := Fields(a), Fields(b);
    assert f[0] == g[0] && f[1] == g[1] && f[3] == g[3] && f[4] == g[4] && f[5] == g[5] && f[6] == g[6];
    assert f[7] == g[7] && f[8] == g[8] && f[9] == g[9] && f[10] == g[10] && f[11] == g[11];
    assert f[12] == g[12] && f[13] == g[13] && f[14] == g[14] && f[15] == g[15];
  }

  /**
    Two configurations hash the same text exactly when they normalize to the same twenty
    fields, whatever was measured about them.
   */
  lemma PreimageIsIdentity(al: Alphabet, a: Config, b: Config)
    requires Plain(Normalize(al, a.identity)) && Plain(Normalize(al, b.identity))
    ensures Preimage(al, a) == Preimage(al, b) <==> Normalize(al, a.identity) == Normalize(al, b.identity)
  {
    var na, nb := Normalize(al, a.identity), Normalize(al, b.identity);
    if Preimage(al, a) == Preimage(al, b) {
      FieldsAreFree(na);
      FieldsAreFree(nb);
      JoinIsInjective(Fields(na), Fields(nb), NUL);
      CompactCompacts(al, TrimAll(al, a.identity.allowedIps));
      CompactCompacts(al, TrimAll(al, b.identity.allowedIps));
      CompactCompacts(al, TrimAll(al, a.identity.dns));
      CompactCompacts(al, TrimAll(al, b.identity.dns));
      FieldsAreInjective(na, nb);
    }
  }

  /** With only NUL excluded, the hashed text determines exactly the twenty joined fields. */
  lemma PreimageIsFields(al: Alphabet, a: Config, b: Config)
    requires NulFree(Normalize(al, a.identity)) && NulFree(Normalize(al, b.identity))
    ensures Preimage(al, a) == Preimage(al, b) <==>
            Fields(Normalize(al, a.identity)) == Fields(Normalize(al, b.identity))
  {
    FieldsAreFree(Normalize(al, a.identity));
    FieldsAreFree(Normalize(al, b.identity));
    if Preimage(al, a) == Preimage(al, b) {
      JoinIsInjective(Fields(Normalize(al, a.identity)), Fields(Normalize(al, b.identity)), NUL);
    }
  }

  function WithDns(c: Config, dns: seq<string>): Config { c.(identity := c.identity.(dns := dns)) }

  lemma TrimmedIsTrimmed(al: Alphabet, s: string)
    ensures Trim(al, s) == s <==> Trimmed(al, s)
  {
    TrimTrims(al, s);
  }

  // A trimmed, compact list is its own normal form.
  lemma CompactedStays(al: Alphabet, values: seq<string>)
    requires Compacted(al, values)
    ensures Compact(al, TrimAll(al, values)) == values
  {
    forall i | 0 <= i < |values| ensures Trim(al, values[i]) == values[i] { assert values[i] in values; }
    assert TrimAll(al, values) == values;
    CompactIsIdentity(al, values);
  }

  /**
    A comma inside a list element does collide: two configurations that normalize to
    different fields hash the same text, because the boundary between two elements is lost.
   */
  lemma CommaHidesBoundary(al: Alphabet, c: Config, x: string, y: string)
    requires x != "" && y != "" && x != y && Trim(al, x) == x && Trim(al, y) == y
    ensures var one, two := WithDns(c, [x + "," + y]), WithDns(c, [x, y]);
      && Preimage(al, one) == Preimage(al, two)
      && Normalize(al, one.identity) != Normalize(al, two.identity)
  {
    var joined := x + "," + y;
    TrimmedIsTrimmed(al, x);
    TrimmedIsTrimmed(al, y);
    TrimmedIsTrimmed(al, joined);
    CompactedStays(al, [joined]);
    CompactedStays(al, [x, y]);
    assert Join([x, y], ',') == joined by { assert [x, y][1..] == [y]; }
    assert |[joined]| != |[x, y]|;
    SameExceptDns(al, c, [joined], [x, y]);
  }

  lemma SameExceptDns(al: Alphabet, c: Config, a: seq<string>, b: seq<string>)
    requires Join(Compact(al, TrimAll(al, a)), ',') == Join(Compact(al, TrimAll(al, b)), ',')
    ensures Preimage(al, WithDns(c, a)) == Preimage(al, WithDns(c, b))
  {
    assert Fields(Normalize(al, WithDns(c, a).identity)) == Fields(Normalize(al, WithDns(c, b).identity));
  }

  /** The configuration record, whose Normalize and Fingerprint rewrite its fields. */
  class Record {
    var config: Config

    constructor (c: Config)
      ensures config == c
    {
      config := c;
    }

    method CompactStrings(al: Alphabet, values: seq<string>) returns (result: seq<string>)
      ensures result == Compact(al, values)
    {
      result := [];
      var seen: set<string> := {};
      for i := 0 to |values|
        invariant result == Compact(al, values[..i]) && seen == set v | v in result
      {
        assert values[..i + 1][..i] == values[..i];
        var v := Trim(al, values[i]);
        if v == "" { continue; }
        if v in seen { continue; }
        seen := seen + {v};
        result := result + [v];
      }
      assert values[..|values|] == values;
    }

    /** Normalizes identity and name, and clears a failure class outside the vocabulary. */
    method Canonicalize(al: Alphabet)
      modifies this
      ensures config == old(config).(identity := Normalize(al, old(config).identity),
                                     name := Trim(al, old(config).name),
                                     measured := Vetted(old(config).measured))
    {
      var c := config.identity;
      var ips := CompactStrings(al, TrimAll(al, c.allowedIps));
      var dns := CompactStrings(al, TrimAll(al, c.dns));
      c := c.(kind := Fold(al, c.kind), address := Fold(al, c.address));
      c := c.(network := Fold(al, c.network), security := Fold(al, c.security), cipher := Fold(al, c.cipher));
      c := c.(serverName := Trim(al, c.serverName), host := Trim(al, c.host), path := Trim(al, c.path));
      c := c.(service := Trim(al, c.service), profile := Fold(al, c.profile));
      c := c.(publicKey := Trim(al, c.publicKey), shortId := Trim(al, c.shortId));
      var m := config.measured;
      if m.failureClass !in FAILURE_CLASSES { m := m.(failureClass := ""); }
      config := config.(identity := c.(allowedIps := ips, dns := dns), name := Trim(al, config.name), measured := m);
    }

    /** Normalizes in place and returns the text to hash. */
    method FingerprintText(al: Alphabet) returns (text: string)
      requires Sane(al)
      modifies this
      ensures text == Preimage(al, old(config)) == Preimage(al, config)
      ensures config.measured == Vetted(old(config).measured) && config.chain == old(config).chain
    {
      Canonicalize(al);
      NormalizeIsIdempotent(al, old(config).identity);
      text := Join(Fields(config.identity), NUL);
    }
  }
}
