/** Which chains are good for a requested extended key usage, and the verdict on a
    certificate. */
module KeyUsage {
  import opened Text
  import opened Sets
  import opened Certificates
  import opened CertPool
  import opened ChainSearch
  import opened Chains

  const ANY := 0
  const SERVER_AUTH := 1
  const MICROSOFT_SGC := 10
  const NETSCAPE_SGC := 11
  const INVALID := -1

  /** One listed usage serves a request; the two server-gated ones serve server auth. */
  predicate Serves(listed: int, request: int) {
    listed == request || (request == SERVER_AUTH && (listed == NETSCAPE_SGC || listed == MICROSOFT_SGC))
  }

  predicate Unrestricted(c: Cert) {
    (c.extKeyUsage == [] && c.unknownExtKeyUsage == 0) || ANY in c.extKeyUsage
  }

  predicate Allows(c: Cert, request: int) {
    Unrestricted(c) || exists i :: 0 <= i < |c.extKeyUsage| && Serves(c.extKeyUsage[i], request)
  }

  predicate AllAllow(chain: Chain, request: int) {
    forall i :: 0 <= i < |chain| ==> Allows(chain[i], request)
  }

  /** A request survives the walk over the chain. */
  predicate Survives(chain: Chain, request: int) { request == INVALID || AllAllow(chain, request) }

  method Supports(c: Cert, request: int) returns (ok: bool)
    requires !Unrestricted(c)
    ensures ok <==> Allows(c, request)
  {
    for i := 0 to |c.extKeyUsage|
      invariant forall k :: 0 <= k < i ==> !Serves(c.extKeyUsage[k], request)
    {
      if c.extKeyUsage[i] == request { return true; }
      if request == SERVER_AUTH && (c.extKeyUsage[i] == NETSCAPE_SGC || c.extKeyUsage[i] == MICROSOFT_SGC) {
        return true;
      }
    }
    return false;
  }

  method GoodForAny(c: Cert) returns (any: bool)
    ensures any <==> Unrestricted(c)
  {
    if |c.extKeyUsage| == 0 && c.unknownExtKeyUsage == 0 { return true; }
    for i := 0 to |c.extKeyUsage|
      invariant ANY !in c.extKeyUsage[..i]
    {
      if c.extKeyUsage[i] == ANY { return true; }
    }
    return false;
  }

  /** The list as crossed out so far: positions in out hold the mark. */
  ghost predicate CrossedOut(usages: seq<int>, requests: seq<int>, out: set<nat>) {
    && |usages| == |requests|
    && (forall j :: j in out ==> j < |requests|)
    && forall j :: 0 <= j < |requests| ==> usages[j] == if j in out then INVALID else requests[j]
  }

  function Range(n: nat): (r: set<nat>)
    ensures forall j: nat :: j in r <==> j < n
    ensures |r| == n
  {
    if n == 0 then {} else Range(n - 1) + {n - 1}
  }

  lemma FullSet(out: set<nat>, n: nat)
    requires forall j :: j in out ==> j < n
    ensures |out| <= n
    ensures |out| == n ==> forall j :: 0 <= j < n ==> j in out
  {
    SubsetSize(out, Range(n));
    if |out| == n {
      SubsetEqual(out, Range(n));
    }
  }

  /** Crosses out what one restricted certificate does not support. */
  method CrossOut(c: Cert, usages: array<int>, requests: seq<int>, left: nat, ghost out: set<nat>)
    returns (remaining: nat, ghost gone: set<nat>)
    requires !Unrestricted(c) && CrossedOut(usages[..], requests, out) && left == |requests| - |out|
    modifies usages
    ensures CrossedOut(usages[..], requests, gone) && remaining == |requests| - |gone|
    ensures forall j :: 0 <= j < |requests| ==>
      (j in gone <==> j in out || (requests[j] != INVALID && !Allows(c, requests[j])))
    ensures out <= gone
  {
    hide Unrestricted, Allows;
    remaining, gone := left, out;
    for j := 0 to usages.Length
      invariant CrossedOut(usages[..], requests, gone) && remaining == |requests| - |gone| && out <= gone
      invariant forall i :: 0 <= i < j ==>
        (i in gone <==> i in out || (requests[i] != INVALID && !Allows(c, requests[i])))
      invariant forall i :: j <= i < |requests| ==> (i in gone <==> i in out)
    {
      if usages[j] != INVALID {
        var ok := Supports(c, usages[j]);
        if !ok {
          usages[j] := INVALID;
          FullSet(gone + {j}, |requests|);
          gone := gone + {j};
          remaining := remaining - 1;
        }
      }
    }
  }

  /** checkChainForKeyUsage: some request is allowed by every certificate of the chain. */
  method CheckChainForKeyUsage(chain: Chain, requests: seq<int>) returns (ok: bool)
    ensures ok <==> chain != [] && (requests == [] || exists j :: 0 <= j < |requests| && Survives(chain, requests[j]))
  {
    hide Unrestricted, Allows;
    var usages := new int[|requests|](i requires 0 <= i < |requests| => requests[i]);
    if |chain| == 0 { return false; }
    var remaining: nat := |requests|;
    ghost var out: set<nat> := {};
    var i := |chain| - 1;
    while i >= 0
      invariant -1 <= i < |chain| && fresh(usages)
      invariant CrossedOut(usages[..], requests, out) && remaining == |requests| - |out|
      invariant forall j :: 0 <= j < |requests| ==>
        (j in out <==> requests[j] != INVALID && !AllAllow(chain[i + 1..], requests[j]))
      invariant requests != [] ==> remaining > 0
    {
      var any := GoodForAny(chain[i]);
      assert chain[i..] == [chain[i]] + chain[i + 1..];
      forall j | 0 <= j < |requests|
        ensures AllAllow(chain[i..], requests[j]) <==> Allows(chain[i], requests[j]) && AllAllow(chain[i + 1..], requests[j])
      {
        AllowedWithFirst(chain[i], chain[i + 1..], requests[j]);
      }
      if !any {
        remaining, out := CrossOut(chain[i], usages, requests, remaining, out);
        if requests != [] && remaining == 0 {
          FullSet(out, |requests|);
          assert chain[i..] == chain[i..|chain|];
          forall j | 0 <= j < |requests|
            ensures !Survives(chain, requests[j])
          {
            assert j in out;
            Suffix(chain, i, requests[j]);
          }
          return false;
        }
      } else {
        AnyAllows(chain[i], requests);
      }
      i := i - 1;
    }
    assert chain[0..] == chain;
    if requests != [] {
      var j := Spared(requests, out);
      assert Survives(chain, requests[j]);
    }
    return true;
  }

  /** What it comes to on the fields: every certificate of the chain lists no usage at
      all, or the one for anything, or the one requested, where either server-gated
      usage also stands for server authentication. */
  lemma SurvivesIff(chain: Chain, request: int)
    ensures Survives(chain, request) <==> request == -1 || forall c :: c in chain ==>
      || (c.extKeyUsage == [] && c.unknownExtKeyUsage == 0)
      || 0 in c.extKeyUsage || request in c.extKeyUsage
      || (request == 1 && (10 in c.extKeyUsage || 11 in c.extKeyUsage))
  {
    forall i | 0 <= i < |chain|
      ensures Allows(chain[i], request) <==>
        || (chain[i].extKeyUsage == [] && chain[i].unknownExtKeyUsage == 0)
        || 0 in chain[i].extKeyUsage || request in chain[i].extKeyUsage
        || (request == 1 && (10 in chain[i].extKeyUsage || 11 in chain[i].extKeyUsage))
    {
      AllowsIff(chain[i], request);
    }
    hide Allows;
    if AllAllow(chain, request) {
      assert forall c :: c in chain ==> exists i :: 0 <= i < |chain| && chain[i] == c;
    }
  }

  lemma AllowsIff(c: Cert, request: int)
    ensures Allows(c, request) <==>
      || (c.extKeyUsage == [] && c.unknownExtKeyUsage == 0)
      || 0 in c.extKeyUsage || request in c.extKeyUsage
      || (request == 1 && (10 in c.extKeyUsage || 11 in c.extKeyUsage))
  {}

  lemma AllowedWithFirst(c: Cert, rest: Chain, request: int)
    ensures AllAllow([c] + rest, request) <==> Allows(c, request) && AllAllow(rest, request)
  {
    hide Allows;
    var all := [c] + rest;
    assert all[0] == c;
    assert forall i :: 0 <= i < |rest| ==> all[i + 1] == rest[i];
  }

  lemma Suffix(chain: Chain, i: nat, request: int)
    requires i <= |chain| && !AllAllow(chain[i..], request)
    ensures !AllAllow(chain, request)
  {}

  lemma AnyAllows(c: Cert, requests: seq<int>)
    requires Unrestricted(c)
    ensures forall j :: 0 <= j < |requests| ==> Allows(c, requests[j])
  {}

  /** A request that was not crossed out. */
  ghost method Spared(requests: seq<int>, out: set<nat>) returns (j: nat)
    requires |out| < |requests| && forall k :: k in out ==> k < |requests|
    ensures j < |requests| && j !in out
  {
    var all := Range(|requests|);
    if all <= out {
      SubsetSize(all, out);
    }
    j :| j in all && j !in out;
  }

  // ---- Verify

  /** What Verify knows of a certificate besides its fields: whether it and the
      intermediates were parsed, its critical extensions handled, and its host name right. */
  datatype Facts = Facts(parsed: bool, poolParsed: bool, criticalHandled: bool, hostOk: bool)

  ghost predicate Trusted(ch: Chain, c: Cert, roots: Pool, middle: seq<Cert>, opts: Options)
    reads roots
  {
    || (ch == [c] && exists i :: 0 <= i < |roots.certs| && SameCert(roots.certs[i], c))
    || SoundChain(ch, c, CertSet(middle), CertSet(roots.certs), opts)
  }

  /** In time, and permitting the host if it permits only some. */
  predicate Current(c: Cert, opts: Options) {
    && c.notBefore <= opts.now <= c.notAfter
    && (c.permitted != [] ==> exists i :: 0 <= i < |c.permitted| && opts.matches(opts.dnsName, c.permitted[i]))
  }

  /** Root i vouches for c directly. */
  ghost predicate DirectRoot(i: nat, c: Cert, roots: Pool, opts: Options)
    reads roots
  {
    && Candidate(roots.certs, i, c) && opts.signs(roots.certs[i], c)
    && roots.certs[i].raw != c.raw && roots.certs[i].subject == c.issuer && Current(roots.certs[i], opts)
  }

  /** Nothing stands in the way before chains are looked for. */
  predicate Acceptable(c: Cert, facts: Facts, opts: Options) {
    facts == Facts(true, true, true, true) && Current(c, opts)
  }

  predicate Usable(ch: Chain, requests: seq<int>) {
    ANY in requests || exists j :: 0 <= j < |requests| && Survives(ch, requests[j])
  }

  method KeepUsable(candidates: seq<Chain>, requests: seq<int>) returns (chains: seq<Chain>)
    requires requests != [] && forall ch :: ch in candidates ==> ch != []
    ensures forall ch :: ch in chains <==> ch in candidates && Usable(ch, requests)
    ensures |chains| <= |candidates| && (ANY in requests ==> chains == candidates)
  {
    hide Survives;
    if ANY in requests { return candidates; }
    chains := [];
    for i := 0 to |candidates|
      invariant |chains| <= i
      invariant forall ch :: ch in chains <==> ch in candidates[..i] && Usable(ch, requests)
    {
      assert candidates[..i + 1] == candidates[..i] + [candidates[i]];
      assert candidates[i] in candidates;
      var ok := CheckChainForKeyUsage(candidates[i], requests);
      if ok {
        chains := chains + [candidates[i]];
      }
    }
    assert candidates[..|candidates|] == candidates;
  }

  ghost predicate IsRoot(c: Cert, roots: Pool)
    reads roots
  {
    exists i :: 0 <= i < |roots.certs| && SameCert(roots.certs[i], c)
  }

  lemma LeafValid(c: Cert, opts: Options)
    ensures ValidNext(c, Leaf, [], opts) <==> Current(c, opts)
  {}

  lemma DirectCompletes(i: nat, c: Cert, roots: Pool, w: World)
    requires DirectRoot(i, c, roots, w.opts) && w.roots == roots.certs
    ensures Completes(w, i, [c])
  {}

  /** The chains before usages are looked at: a root is its own, anything else needs the
      search. */
  method FindChains(c: Cert, roots: Pool, intermediates: Pool?, opts: Options) returns (chains: seq<Chain>, e: Option<Error>)
    requires roots.Valid() && (intermediates != null ==> intermediates.Valid())
    ensures e.None? <==> chains != []
    ensures forall ch, k :: ch in chains && 0 < k < |ch| ==> Current(ch[k], opts)
    ensures forall ch :: ch in chains ==> ch != [] && ch[0] == c && Trusted(ch, c, roots, WorldOf(c, roots, intermediates, opts).middle, opts)
    ensures if IsRoot(c, roots) then chains == [[c]] else
      && (forall i: nat :: DirectRoot(i, c, roots, opts) ==> [c, roots.certs[i]] in chains)
      && (Plain(WorldOf(c, roots, intermediates, opts)) ==>
            (e.None? <==> exists ch :: Sound(WorldOf(c, roots, intermediates, opts), ch)))
  {
    hide Pool.Valid, SoundChain, ValidNext, Plain;
    var known := roots.Contains(c);
    if known { return [[c]], None; }
    var b := new Builder(c, roots, intermediates, opts);
    chains, e := b.BuildFromLeaf();
    forall i: nat | DirectRoot(i, c, roots, opts)
      ensures Completes(b.Given(), i, [c])
    {
      DirectCompletes(i, c, roots, b.Given());
    }
    assert forall ch :: ch in chains ==> Sound(b.Given(), ch);
    TrustedParts(chains, c, roots, WorldOf(c, roots, intermediates, opts).middle, opts);
  }

  /** Verify: success means at least one chain, and every chain returned is to be
      trusted and good for a requested usage. */
  method Verify(c: Cert, facts: Facts, roots: Pool?, intermediates: Pool?, opts: Options, keyUsages: seq<int>)
    returns (chains: seq<Chain>, e: Option<Error>)
    requires roots != null ==> roots.Valid()
    requires intermediates != null ==> intermediates.Valid()
    ensures e.None? <==> chains != []
    ensures e.None? ==> roots != null && Current(c, opts) && facts.parsed && facts.criticalHandled
    ensures e.None? && opts.dnsName != 0 ==> facts.hostOk
    ensures forall ch, k :: ch in chains && 0 <= k < |ch| ==> Current(ch[k], opts)
    ensures forall ch :: ch in chains ==> Usable(ch, if keyUsages == [] then [SERVER_AUTH] else keyUsages)
    ensures roots != null ==> forall ch :: ch in chains ==>
      Trusted(ch, c, roots, WorldOf(c, roots, intermediates, opts).middle, opts)
    ensures roots != null && Acceptable(c, facts, opts) ==>
      var requests := if keyUsages == [] then [SERVER_AUTH] else keyUsages;
      if IsRoot(c, roots) then Usable([c], requests) ==> chains == [[c]]
      else forall i: nat :: DirectRoot(i, c, roots, opts) && Usable([c, roots.certs[i]], requests) ==>
        [c, roots.certs[i]] in chains
    ensures roots != null && Acceptable(c, facts, opts) && ANY in keyUsages && !IsRoot(c, roots) ==>
      var w := WorldOf(c, roots, intermediates, opts);
      Plain(w) ==> (e.None? <==> exists ch :: Sound(w, ch))
  {
    hide Pool.Valid, SoundChain, ValidNext, Usable, Plain, Sound, DirectRoot, Trusted, Current;
    chains := [];
    if !facts.parsed || (intermediates != null && !facts.poolParsed) { return [], Some(NotParsed); }
    if !facts.criticalHandled { return [], Some(UnhandledCriticalExtension); }
    if roots == null { return [], Some(NoRoots); }
    LeafValid(c, opts);
    e := IsValid(c, Leaf, [], opts);
    if e.Some? { return; }
    if opts.dnsName != 0 && !facts.hostOk { return [], Some(BadHostname); }
    var candidates;
    candidates, e := FindChains(c, roots, intermediates, opts);
    if e.Some? { return [], e; }
    var requests := if |keyUsages| == 0 then [SERVER_AUTH] else keyUsages;
    chains := KeepUsable(candidates, requests);
    e := if |chains| == 0 then Some(IncompatibleUsage) else None;
    assert |chains| > 0 ==> chains[0] in chains;
    if IsRoot(c, roots) && Usable([c], requests) {
      assert [c] in candidates;
      assert chains == [[c]];
    }
  }

  lemma TrustedParts(chs: seq<Chain>, c: Cert, roots: Pool, middle: seq<Cert>, opts: Options)
    requires forall ch :: ch in chs ==> Trusted(ch, c, roots, middle, opts)
    ensures forall ch :: ch in chs ==> ch != [] && ch[0] == c
    ensures forall ch, k :: ch in chs && 0 < k < |ch| ==> Current(ch[k], opts)
  {}
}
