/**
  Composing a proxy chain into one exit configuration and reading it back
  (engine/app/proxychain.go, engine/config/config.go).
 */
module ChainConfig {
  import opened Prelude
  import opened Joining
  import opened ConfigIdentity
  import Chains

  // The exit carries the earlier hops and takes the chain's id and name.
  function Compose(hops: seq<Config>, id: string, name: string): Config
    requires hops != []
  {
    hops[|hops| - 1].(chain := hops[..|hops| - 1], id := id, name := name)
  }

  function ChainHops(c: Config): seq<Config> { c.chain + [c] }

  // Equal up to id, name and carried hops.
  predicate SameRoute(a: Config, b: Config) { a.identity == b.identity && a.measured == b.measured }

  /**
    The hops of a composed chain are the original hops in order, except that the exit is
    renamed; and the exit still hashes like the last hop.
   */
  lemma HopsOfComposed(al: Alphabet, hops: seq<Config>, id: string, name: string)
    requires hops != []
    ensures var back := ChainHops(Compose(hops, id, name));
      && |back| == |hops|
      && back[..|hops| - 1] == hops[..|hops| - 1]
      && SameRoute(back[|hops| - 1], hops[|hops| - 1])
      && back[|hops| - 1].id == id && back[|hops| - 1].name == name
      && (forall i | 0 <= i < |hops| :: Preimage(al, back[i]) == Preimage(al, hops[i]))
  {
    var back := ChainHops(Compose(hops, id, name));
    forall i | 0 <= i < |hops| ensures Preimage(al, back[i]) == Preimage(al, hops[i]) {
      if i < |hops| - 1 { assert back[i] == hops[i]; }
    }
  }

  // ---- Chain fingerprints ----

  function Hashes(al: Alphabet, hash: string -> string, cs: seq<Config>): (r: seq<string>)
    ensures |r| == |cs|
  {
    seq(|cs|, i requires 0 <= i < |cs| => hash(Preimage(al, cs[i])))
  }

  // The text a chain fingerprint hashes: a tag, the exit, then every earlier hop.
  function ChainText(al: Alphabet, hash: string -> string, c: Config): string {
    Join(["proxy-chain", hash(Preimage(al, c))] + Hashes(al, hash, c.chain), NUL)
  }

  // Hexadecimal digests hold no NUL.
  ghost predicate Digest(hash: string -> string) { forall s :: NUL !in hash(s) }

  lemma ChainPartsAreFree(al: Alphabet, hash: string -> string, c: Config)
    requires Digest(hash)
    ensures Free(["proxy-chain", hash(Preimage(al, c))] + Hashes(al, hash, c.chain), NUL)
  {
    assert NUL !in "proxy-chain";
    var hs := Hashes(al, hash, c.chain);
    forall h | h in hs ensures NUL !in h {
      var i :| 0 <= i < |hs| && hs[i] == h;
      assert h == hash(Preimage(al, c.chain[i]));
    }
  }

  /** Chains hash the same text exactly when exit and hops have the same digests, in order. */
  lemma ChainTextIsInjective(al: Alphabet, hash: string -> string, a: Config, b: Config)
    requires Digest(hash)
    ensures ChainText(al, hash, a) == ChainText(al, hash, b) <==>
            hash(Preimage(al, a)) == hash(Preimage(al, b)) && Hashes(al, hash, a.chain) == Hashes(al, hash, b.chain)
  {
    if ChainText(al, hash, a) == ChainText(al, hash, b) {
      var pa := ["proxy-chain", hash(Preimage(al, a))] + Hashes(al, hash, a.chain);
      var pb := ["proxy-chain", hash(Preimage(al, b))] + Hashes(al, hash, b.chain);
      ChainPartsAreFree(al, hash, a);
      ChainPartsAreFree(al, hash, b);
      JoinIsInjective(pa, pb, NUL);
      assert pa[1] == pb[1] && pa[2..] == Hashes(al, hash, a.chain) && pb[2..] == Hashes(al, hash, b.chain);
    }
  }

  /** A chain of fewer than eighteen earlier hops never hashes the text of a single configuration. */
  lemma ChainTextIsNoPlainText(al: Alphabet, hash: string -> string, chain: Config, c: Config)
    requires Digest(hash) && Plain(Normalize(al, c.identity)) && |chain.chain| < 18
    ensures ChainText(al, hash, chain) != Preimage(al, c)
  {
    var parts := ["proxy-chain", hash(Preimage(al, chain))] + Hashes(al, hash, chain.chain);
    var fields := Fields(Normalize(al, c.identity));
    ChainPartsAreFree(al, hash, chain);
    FieldsAreFree(Normalize(al, c.identity));
    if Join(parts, NUL) == Join(fields, NUL) { JoinIsInjective(parts, fields, NUL); }
  }

  // ---- Building from the collections ----

  // A stored record decoded as a hop: pinned to its store id, carrying no chain.
  function Hop(store: map<string, Config>, id: string): Config
    requires id in store
  {
    store[id].(id := id, chain := [])
  }

  function Hops(store: map<string, Config>, ids: seq<string>): (r: seq<Config>)
    requires forall id | id in ids :: id in store
    ensures |r| == |ids|
  {
    seq(|ids|, i requires 0 <= i < |ids| => Hop(store, ids[i]))
  }

  /**
    Succeeds exactly when the chain exists, has at least two hops and every hop is stored;
    the result is those hops composed under the chain's id and name.
   */
  method BuildChainConfig(groups: seq<Chains.Group>, store: map<string, Config>, chainId: string)
    returns (r: Option<Config>)
    ensures var k := Chains.Find(groups, chainId, Chains.CHAIN);
      && (r.Some? <==> k < |groups| && |groups[k].members| >= Chains.MIN_HOPS
                       && forall id | id in groups[k].members :: id in store)
      && (r.Some? ==> r.value == Compose(Hops(store, groups[k].members), chainId, groups[k].name))
  {
    var k := Chains.Find(groups, chainId, Chains.CHAIN);
    if k == |groups| { return None; }
    var ids := groups[k].members;
    if |ids| < Chains.MIN_HOPS { return None; }
    var hops: seq<Config> := [];
    for i := 0 to |ids|
      invariant forall id | id in ids[..i] :: id in store
      invariant hops == Hops(store, ids[..i])
    {
      if ids[i] !in store { return None; }
      hops := hops + [Hop(store, ids[i])];
    }
    assert ids[..|ids|] == ids;
    var exit := hops[|hops| - 1].(chain := []);
    for i := 0 to |hops| - 1
      invariant exit == hops[|hops| - 1].(chain := hops[..i])
    {
      exit := exit.(chain := exit.chain + [hops[i]]);
    }
    return Some(exit.(id := chainId, name := groups[k].name));
  }
}
