/** Building certificate chains, with a cache of what each intermediate led to. */
module Chains {
  import opened Text
  import opened Certificates
  import opened CertPool
  import opened ChainSearch

  method SeenIn(c: Cert, chain: Chain) returns (seen: bool)
    ensures seen <==> !NotIn(c, chain)
  {
    for i := 0 to |chain|
      invariant forall k :: 0 <= k < i ==> chain[k].raw != c.raw
    {
      if chain[i].raw == c.raw { return true; }
    }
    return false;
  }

  /** Without a pool of intermediates there are none. */
  ghost function WorldOf(leaf: Cert, roots: Pool, intermediates: Pool?, opts: Options): (w: World)
    reads roots, intermediates
  {
    World(leaf, roots.certs, if intermediates == null then [] else intermediates.certs, opts)
  }

  class Builder {
    const leaf: Cert
    const roots: Pool
    const intermediates: Pool?
    const opts: Options
    var cache: Cache

    constructor (leaf: Cert, roots: Pool, intermediates: Pool?, opts: Options)
      ensures this.leaf == leaf && this.roots == roots && this.intermediates == intermediates && this.opts == opts
      ensures cache == map[]
    {
      this.leaf, this.roots, this.intermediates, this.opts := leaf, roots, intermediates, opts;
      cache := map[];
    }

    ghost function Given(): (w: World)
      reads roots, intermediates
    {
      WorldOf(leaf, roots, intermediates, opts)
    }

    ghost predicate PoolsValid()
      reads roots, intermediates
    {
      roots.Valid() && (intermediates != null ==> intermediates.Valid())
    }

    /** The chain closed with every root that completes it. */
    method WithRoots(chain: Chain) returns (chains: seq<Chain>, e: Option<Error>)
      requires PoolsValid() && chain != []
      ensures chains == RootChains(Given(), chain, Parents(roots.certs, Last(chain), opts))
      ensures forall i: nat :: Completes(Given(), i, chain) ==> chain + [roots.certs[i]] in chains
      ensures forall ch :: ch in chains ==> exists i: nat :: Completes(Given(), i, chain) && ch == chain + [roots.certs[i]]
    {
      hide Pool.Valid, ValidNext, Candidate, Parents;
      var parents := roots.FindVerifiedParents(Last(chain), opts);
      chains, e := [], None;
      for k := 0 to |parents|
        invariant chains == RootChains(Given(), chain, parents[..k])
      {
        assert parents[k] in parents;
        assert parents[..k + 1][..k] == parents[..k];
        var root := roots.certs[parents[k]];
        var seen := SeenIn(root, chain);
        if !seen {
          e := IsValid(root, Root, chain, opts);
          if e.None? {
            chains := chains + [chain + [root]];
          }
        }
      }
      assert parents[..|parents|] == parents;
      Listed(Given(), chain);
      RootChainsAre(Given(), chain, parents);
    }

    /** The chains through intermediate i: cached ones, or built and then cached. */
    method Through(i: nat, chain: Chain) returns (chains: seq<Chain>, e: Option<Error>)
      requires PoolsValid() && chain != [] && Continues(Given(), i, chain)
      modifies `cache
      ensures Search(chains, cache) == Visit(Given(), chain, i, old(cache))
      decreases Raws(Given().middle) - Raws(chain), 0
    {
      hide Pool.Valid, ValidNext, Build;
      if i in cache {
        return cache[i], None;
      }
      FewerLeft(Given().middle, chain, intermediates.certs[i]);
      chains, e := BuildChains(chain + [intermediates.certs[i]]);
      cache := cache[i := chains];
    }

    /** The chains through every intermediate that extends this one. */
    method WithIntermediates(chain: Chain, err: Option<Error>) returns (chains: seq<Chain>, e: Option<Error>)
      requires PoolsValid() && chain != []
      modifies `cache
      ensures Search(chains, cache) == Extend(Given(), chain, Parents(Given().middle, Last(chain), opts), old(cache))
      decreases Raws(Given().middle) - Raws(chain), 1
    {
      hide Pool.Valid, ValidNext, Candidate, Parents, Visit;
      chains, e := [], err;
      if intermediates == null { return; }
      var parents := intermediates.FindVerifiedParents(Last(chain), opts);
      for k := 0 to |parents|
        invariant Search(chains, cache) == Extend(Given(), chain, parents[..k], old(cache))
      {
        assert parents[k] in parents;
        assert parents[..k + 1][..k] == parents[..k];
        var c := intermediates.certs[parents[k]];
        var seen := SeenIn(c, chain);
        if !seen {
          e := IsValid(c, Intermediate, chain, opts);
          if e.None? {
            var child;
            child, e := Through(parents[k], chain);
            chains := chains + child;
          }
        }
      }
      assert parents[..|parents|] == parents;
    }

    /** buildChains: exactly what the search finds from a chain that reaches c, and an error
        when that is nothing. It ends because every step uses up a certificate of the pool. */
    method BuildChains(chain: Chain) returns (chains: seq<Chain>, e: Option<Error>)
      requires PoolsValid() && chain != []
      modifies `cache
      ensures Search(chains, cache) == Build(Given(), chain, old(cache))
      ensures e.None? <==> chains != []
      decreases Raws(Given().middle) - Raws(chain), 2
    {
      hide Pool.Valid, RootChains, Extend, Parents;
      var direct, err := WithRoots(chain);
      var indirect;
      indirect, e := WithIntermediates(chain, err);
      chains := direct + indirect;
      if |chains| > 0 {
        e := None;
      } else if e.None? {
        e := Some(UnknownAuthority);
      }
    }

    /** The search from the leaf, as Verify starts it: every chain returned is sound, a root
        that vouches for the leaf is not missed, and in plain pools there is a chain
        whenever there is one to be found. */
    method BuildFromLeaf() returns (chains: seq<Chain>, e: Option<Error>)
      requires PoolsValid() && cache == map[]
      modifies `cache
      ensures e.None? <==> chains != []
      ensures AllSound(Given(), chains)
      ensures forall i: nat :: Completes(Given(), i, [leaf]) ==> [leaf, roots.certs[i]] in chains
      ensures Plain(Given()) ==> (e.None? <==> exists ch :: Sound(Given(), ch))
    {
      hide Pool.Valid, Build, Plain, Sound, ValidNext, Continues, Growing;
      ghost var w := Given();
      LeafGrows(w);
      BuildSound(w, [leaf], map[]);
      BuildCovers(w, [leaf], map[]);
      if Plain(w) {
        SearchFindsIff(w);
      }
      chains, e := BuildChains([leaf]);
      assert forall i: nat :: Completes(w, i, [leaf]) ==> [leaf] + [roots.certs[i]] == [leaf, roots.certs[i]];
    }
  }
}
