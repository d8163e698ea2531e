/** The search for certificate chains as a function of what it is given: what it finds,
    and what its cache makes it miss. */
module ChainSearch {
  import opened Text
  import opened Sets
  import opened Certificates
  import opened CertPool

  function CertSet(certs: seq<Cert>): (s: set<Cert>) { set c | c in certs }

  function Raws(certs: seq<Cert>): (s: set<nat>) { set c | c in certs :: c.raw }

  /** One certificate fewer can still be added. */
  lemma FewerLeft(pool: seq<Cert>, chain: Chain, c: Cert)
    requires c in pool && NotIn(c, chain)
    ensures Raws(pool) - Raws(chain + [c]) < Raws(pool) - Raws(chain)
  {
    RawsAdd(chain, c);
    assert c.raw in Raws(pool) && c.raw !in Raws(chain);
  }

  lemma RawsAdd(chain: Chain, c: Cert)
    ensures Raws(chain + [c]) == Raws(chain) + {c.raw}
  {
    assert c in chain + [c];
    forall r | r in Raws(chain)
      ensures r in Raws(chain + [c])
    {
      var d :| d in chain && d.raw == r;
      assert d in chain + [c];
    }
  }

  lemma NotInRaws(c: Cert, chain: Chain)
    ensures NotIn(c, chain) <==> c.raw !in Raws(chain)
  {
    if !NotIn(c, chain) {
      var i :| 0 <= i < |chain| && chain[i].raw == c.raw;
      assert chain[i] in chain;
    }
  }

  /** The leaf, the two pools and the options of one verification. */
  datatype World = World(leaf: Cert, roots: seq<Cert>, middle: seq<Cert>, opts: Options)

  type Cache = map<nat, seq<Chain>>

  datatype Search = Search(chains: seq<Chain>, cache: Cache)

  function Last(chain: Chain): (c: Cert)
    requires chain != []
  {
    chain[|chain| - 1]
  }

  /** Root i completes the chain. */
  predicate Completes(w: World, i: nat, chain: Chain)
    requires chain != []
  {
    && Candidate(w.roots, i, Last(chain)) && w.opts.signs(w.roots[i], Last(chain))
    && NotIn(w.roots[i], chain) && ValidNext(w.roots[i], Root, chain, w.opts)
  }

  /** Intermediate i extends the chain. */
  predicate Continues(w: World, i: nat, chain: Chain)
    requires chain != []
  {
    && Candidate(w.middle, i, Last(chain)) && w.opts.signs(w.middle[i], Last(chain))
    && NotIn(w.middle[i], chain) && ValidNext(w.middle[i], Intermediate, chain, w.opts)
  }

  /** The chain closed with each root of the list that completes it. */
  function RootChains(w: World, chain: Chain, ps: seq<nat>): (chs: seq<Chain>)
    requires chain != [] && InRange(ps, |w.roots|)
    decreases |ps|
  {
    if ps == [] then [] else
      var init, last := ps[..|ps| - 1], ps[|ps| - 1];
      RootChains(w, chain, init) + if Completes(w, last, chain) then [chain + [w.roots[last]]] else []
  }

  /** All chains the search finds from this one on, and the cache it leaves. */
  ghost function Build(w: World, chain: Chain, cache: Cache): (r: Search)
    requires chain != []
    decreases Raws(w.middle) - Raws(chain), 2, 0
  {
    var rest := Extend(w, chain, Parents(w.middle, Last(chain), w.opts), cache);
    Search(RootChains(w, chain, Parents(w.roots, Last(chain), w.opts)) + rest.chains, rest.cache)
  }

  ghost function Extend(w: World, chain: Chain, ps: seq<nat>, cache: Cache): (r: Search)
    requires chain != [] && InRange(ps, |w.middle|)
    decreases Raws(w.middle) - Raws(chain), 1, |ps|
  {
    if ps == [] then Search([], cache) else
      var init, last := ps[..|ps| - 1], ps[|ps| - 1];
      var before := Extend(w, chain, init, cache);
      if Continues(w, last, chain) then
        var here := Visit(w, chain, last, before.cache);
        Search(before.chains + here.chains, here.cache)
      else before
  }

  /** What the cache knows of intermediate i, or what is found under this chain. */
  ghost function Visit(w: World, chain: Chain, i: nat, cache: Cache): (r: Search)
    requires chain != [] && Continues(w, i, chain)
    decreases Raws(w.middle) - Raws(chain), 0, 0
  {
    if i in cache then Search(cache[i], cache)
    else
      FewerLeft(w.middle, chain, w.middle[i]);
      var r := Build(w, chain + [w.middle[i]], cache);
      Search(r.chains, r.cache[i := r.chains])
  }

  // ---- what is found is sound, and nothing next to the chain is left out

  /** d is in the list where the issuer of c is looked for. */
  ghost predicate Shown(certs: seq<Cert>, c: Cert, d: Cert) {
    exists i: nat :: Candidate(certs, i, c) && certs[i] == d
  }

  ghost predicate AllShown(w: World, chain: Chain) {
    forall k :: 0 <= k < |chain| - 1 ==> Shown(w.middle, chain[k], chain[k + 1])
  }

  ghost predicate Growing(w: World, chain: Chain) {
    Partial(chain, w.leaf, CertSet(w.middle), w.opts) && AllShown(w, chain)
  }

  /** A sound chain each of whose links the pools' indexes show. */
  ghost predicate Sound(w: World, ch: Chain) {
    && SoundChain(ch, w.leaf, CertSet(w.middle), CertSet(w.roots), w.opts)
    && AllShown(w, ch[..|ch| - 1]) && Shown(w.roots, ch[|ch| - 2], ch[|ch| - 1])
  }

  ghost predicate AllSound(w: World, chs: seq<Chain>) { forall ch :: ch in chs ==> Sound(w, ch) }

  /** Every cached chain is sound, whatever prefix it was built under. */
  ghost predicate CacheSound(w: World, cache: Cache) { forall k :: k in cache ==> AllSound(w, cache[k]) }

  ghost predicate Grew(before: Cache, after: Cache) {
    forall k :: k in before ==> k in after && after[k] == before[k]
  }

  lemma {:induction false} RootChainsSound(w: World, chain: Chain, ps: seq<nat>)
    requires chain != [] && InRange(ps, |w.roots|) && Growing(w, chain)
    ensures AllSound(w, RootChains(w, chain, ps))
    decreases |ps|
  {
    hide Partial, SoundChain, Completes;
    if ps != [] {
      var init, last := ps[..|ps| - 1], ps[|ps| - 1];
      RootChainsSound(w, chain, init);
      if Completes(w, last, chain) {
        CompletesSound(w, chain, last);
      }
    }
  }

  lemma CompletesSound(w: World, chain: Chain, i: nat)
    requires chain != [] && Growing(w, chain) && Completes(w, i, chain)
    ensures Sound(w, chain + [w.roots[i]])
  {
    hide Partial, SoundChain, ValidNext, AllShown;
    FinishChain(chain, w.roots[i], w.leaf, CertSet(w.middle), CertSet(w.roots), w.opts);
    assert (chain + [w.roots[i]])[..|chain|] == chain;
    assert Shown(w.roots, Last(chain), w.roots[i]);
  }

  lemma ContinuesGrows(w: World, chain: Chain, i: nat)
    requires chain != [] && Growing(w, chain) && Continues(w, i, chain)
    ensures Growing(w, chain + [w.middle[i]])
    ensures Raws(w.middle) - Raws(chain + [w.middle[i]]) < Raws(w.middle) - Raws(chain)
  {
    hide Partial, ValidNext, Raws;
    ExtendPartial(chain, w.middle[i], w.leaf, CertSet(w.middle), w.opts);
    FewerLeft(w.middle, chain, w.middle[i]);
    assert Shown(w.middle, Last(chain), w.middle[i]);
    ShownFurther(w, chain, w.middle[i]);
  }

  lemma ShownFurther(w: World, chain: Chain, c: Cert)
    requires chain != [] && AllShown(w, chain) && Shown(w.middle, Last(chain), c)
    ensures AllShown(w, chain + [c])
  {
    hide Shown;
  }

  lemma {:induction false} BuildSound(w: World, chain: Chain, cache: Cache)
    requires chain != [] && Growing(w, chain) && CacheSound(w, cache)
    ensures var r := Build(w, chain, cache); AllSound(w, r.chains) && CacheSound(w, r.cache) && Grew(cache, r.cache)
    decreases Raws(w.middle) - Raws(chain), 2, 0
  {
    hide Growing, CacheSound, Sound, RootChains, Extend, Parents;
    RootChainsSound(w, chain, Parents(w.roots, Last(chain), w.opts));
    ExtendSound(w, chain, Parents(w.middle, Last(chain), w.opts), cache);
  }

  lemma {:induction false} ExtendSound(w: World, chain: Chain, ps: seq<nat>, cache: Cache)
    requires chain != [] && InRange(ps, |w.middle|) && Growing(w, chain) && CacheSound(w, cache)
    ensures var r := Extend(w, chain, ps, cache); AllSound(w, r.chains) && CacheSound(w, r.cache) && Grew(cache, r.cache)
    decreases Raws(w.middle) - Raws(chain), 1, |ps|
  {
    hide Growing, CacheSound, Sound, Continues, Visit;
    if ps != [] {
      var init, last := ps[..|ps| - 1], ps[|ps| - 1];
      ExtendSound(w, chain, init, cache);
      if Continues(w, last, chain) {
        VisitSound(w, chain, last, Extend(w, chain, init, cache).cache);
      }
    }
  }

  lemma {:induction false} VisitSound(w: World, chain: Chain, i: nat, cache: Cache)
    requires chain != [] && Continues(w, i, chain) && Growing(w, chain) && CacheSound(w, cache)
    ensures var r := Visit(w, chain, i, cache); AllSound(w, r.chains) && CacheSound(w, r.cache) && Grew(cache, r.cache)
    decreases Raws(w.middle) - Raws(chain), 0, 0
  {
    hide Growing, Sound, Build;
    if i !in cache {
      ContinuesGrows(w, chain, i);
      BuildSound(w, chain + [w.middle[i]], cache);
    }
  }

  lemma {:induction false} RootChainsAre(w: World, chain: Chain, ps: seq<nat>)
    requires chain != [] && InRange(ps, |w.roots|)
    ensures forall i :: i in ps && Completes(w, i, chain) ==> chain + [w.roots[i]] in RootChains(w, chain, ps)
    ensures forall ch :: ch in RootChains(w, chain, ps) ==> exists i: nat :: Completes(w, i, chain) && ch == chain + [w.roots[i]]
    decreases |ps|
  {
    hide Completes;
    if ps != [] {
      var init, last := ps[..|ps| - 1], ps[|ps| - 1];
      RootChainsAre(w, chain, init);
      assert ps == init + [last];
    }
  }

  /** Every extending intermediate of the list is in the cache, its chains among those found. */
  lemma {:induction false} ExtendCovers(w: World, chain: Chain, ps: seq<nat>, cache: Cache)
    requires chain != [] && InRange(ps, |w.middle|) && Growing(w, chain) && CacheSound(w, cache)
    ensures var r := Extend(w, chain, ps, cache);
      forall i :: i in ps && Continues(w, i, chain) ==> i in r.cache && forall ch :: ch in r.cache[i] ==> ch in r.chains
    decreases |ps|
  {
    hide Growing, CacheSound, Sound, Continues, Build;
    if ps != [] {
      var init, last := ps[..|ps| - 1], ps[|ps| - 1];
      ExtendCovers(w, chain, init, cache);
      ExtendSound(w, chain, init, cache);
      assert ps == init + [last];
      if Continues(w, last, chain) {
        VisitSound(w, chain, last, Extend(w, chain, init, cache).cache);
      }
    }
  }

  lemma BuildCovers(w: World, chain: Chain, cache: Cache)
    requires chain != [] && Growing(w, chain) && CacheSound(w, cache)
    ensures var r := Build(w, chain, cache);
      && (forall i: nat :: Completes(w, i, chain) ==> chain + [w.roots[i]] in r.chains)
      && (forall i: nat :: Continues(w, i, chain) ==> i in r.cache && forall ch :: ch in r.cache[i] ==> ch in r.chains)
  {
    hide Growing, CacheSound, Extend, RootChains, ValidNext, Candidate;
    RootChainsAre(w, chain, Parents(w.roots, Last(chain), w.opts));
    ExtendCovers(w, chain, Parents(w.middle, Last(chain), w.opts), cache);
  }

  // ---- when a chain there is means a chain found

  /** No path length limit below the number of intermediates. */
  predicate Loose(c: Cert, n: nat) { c.basicConstraintsValid && c.maxPathLen >= 0 ==> c.maxPathLen >= n }

  /** Limits too loose to bind, equal bytes only of equal certificates, and no
      certificate in both pools. */
  predicate Plain(w: World) {
    && (forall c :: c in w.roots + w.middle ==> Loose(c, |w.middle|))
    && (forall c, d :: c in w.middle && d in w.middle && c.raw == d.raw ==> c == d)
    && (forall c, d :: c in w.middle && d in w.roots ==> c.raw != d.raw)
  }

  predicate RootStep(w: World, c: Cert, i: nat) { Candidate(w.roots, i, c) && w.opts.signs(w.roots[i], c) && ValidNext(w.roots[i], Root, [c], w.opts) }

  predicate MiddleStep(w: World, c: Cert, i: nat) { Candidate(w.middle, i, c) && w.opts.signs(w.middle[i], c) && ValidNext(w.middle[i], Intermediate, [c], w.opts) }

  /** From c through these intermediates to this root, past the certificates named. */
  predicate Way(w: World, c: Cert, mids: seq<nat>, root: nat, past: set<nat>)
    decreases |mids|
  {
    if mids == [] then RootStep(w, c, root) && w.roots[root].raw !in past
    else
      && MiddleStep(w, c, mids[0]) && w.middle[mids[0]].raw !in past
      && Way(w, w.middle[mids[0]], mids[1..], root, past)
  }

  ghost predicate Blocked(w: World, c: Cert, past: set<nat>) {
    forall mids: seq<nat>, root: nat :: !Way(w, c, mids, root, past)
  }

  lemma {:induction false} WayPastFewer(w: World, c: Cert, mids: seq<nat>, root: nat, past: set<nat>, fewer: set<nat>)
    requires Way(w, c, mids, root, past) && fewer <= past
    ensures Way(w, c, mids, root, fewer)
    decreases |mids|
  {
    hide ValidNext;
    if mids != [] {
      WayPastFewer(w, w.middle[mids[0]], mids[1..], root, past, fewer);
    }
  }

  lemma BlockedByMore(w: World, c: Cert, past: set<nat>, more: set<nat>)
    requires Blocked(w, c, past) && past <= more
    ensures Blocked(w, c, more)
  {
    forall mids: seq<nat>, root: nat
      ensures !Way(w, c, mids, root, more)
    {
      if Way(w, c, mids, root, more) {
        WayPastFewer(w, c, mids, root, more, past);
      }
    }
  }

  /** A way passes x by, or its last part is a way from x. */
  lemma {:induction false} WayAround(w: World, c: Cert, mids: seq<nat>, root: nat, past: set<nat>, x: Cert)
    requires Plain(w) && x in w.middle && Way(w, c, mids, root, past)
    ensures Way(w, c, mids, root, past + {x.raw}) || exists k :: 0 <= k <= |mids| && Way(w, x, mids[k..], root, past + {x.raw})
    decreases |mids|
  {
    hide ValidNext;
    var more := past + {x.raw};
    if mids != [] {
      var d, rest := w.middle[mids[0]], mids[1..];
      WayAround(w, d, rest, root, past, x);
      if Way(w, d, rest, root, more) {
        if d.raw == x.raw {
          assert d == x && rest == mids[1..];
        }
      } else {
        var k :| 0 <= k <= |rest| && Way(w, x, rest[k..], root, more);
        assert rest[k..] == mids[k + 1..];
      }
    }
  }

  /** What only x and the rest block, and x cannot lead on, the rest blocks. */
  lemma Unblock(w: World, c: Cert, past: set<nat>, x: Cert)
    requires Plain(w) && x in w.middle && Blocked(w, x, past + {x.raw}) && Blocked(w, c, past + {x.raw})
    ensures Blocked(w, c, past)
  {
    forall mids: seq<nat>, root: nat
      ensures !Way(w, c, mids, root, past)
    {
      if Way(w, c, mids, root, past) {
        WayAround(w, c, mids, root, past, x);
      }
    }
  }

  // ---- limits that do not bind

  lemma {:induction false} RawsSize(certs: seq<Cert>)
    ensures |Raws(certs)| <= |certs|
    ensures Distinct(certs) ==> |Raws(certs)| == |certs|
    decreases |certs|
  {
    if certs != [] {
      var init, last := certs[..|certs| - 1], certs[|certs| - 1];
      assert certs == init + [last];
      RawsSize(init);
      RawsAdd(init, last);
      if Distinct(certs) {
        NotInRaws(last, init);
      }
    }
  }

  lemma ChainFits(w: World, chain: Chain)
    requires Growing(w, chain)
    ensures chain != [] && |chain| - 1 <= |w.middle|
  {
    hide Link;
    var rest := chain[1..];
    RawsSize(rest);
    RawsSize(w.middle);
    forall r | r in Raws(rest)
      ensures r in Raws(w.middle)
    {
      var c :| c in rest && c.raw == r;
      var i :| 0 <= i < |rest| && rest[i] == c;
      assert Link(chain, i, Intermediate, w.opts);
    }
    SubsetSize(Raws(rest), Raws(w.middle));
  }

  lemma ValidAtLast(w: World, c: Cert, role: Role, chain: Chain)
    requires Growing(w, chain) && Loose(c, |w.middle|)
    ensures chain != [] && (ValidNext(c, role, chain, w.opts) <==> ValidNext(c, role, [Last(chain)], w.opts))
  {
    ChainFits(w, chain);
  }

  // ---- the search finds a way if there is one

  ghost predicate Empty(cache: Cache) { forall i :: i in cache ==> cache[i] == [] }

  /** No intermediate in the cache leads to a root past these certificates. */
  ghost predicate DeadEnds(w: World, cache: Cache, past: set<nat>) {
    forall i :: i in cache ==> i < |w.middle| && Blocked(w, w.middle[i], past)
  }

  ghost predicate Exhausted(w: World, chain: Chain, before: Cache, after: Cache) {
    Empty(after) && DeadEnds(w, after, Raws(chain)) && before.Keys <= after.Keys
  }

  lemma {:induction false} BuildBlocked(w: World, chain: Chain, cache: Cache)
    requires Plain(w) && chain != [] && Growing(w, chain) && Empty(cache) && DeadEnds(w, cache, Raws(chain))
    requires Build(w, chain, cache).chains == []
    ensures Exhausted(w, chain, cache, Build(w, chain, cache).cache) && Blocked(w, Last(chain), Raws(chain))
    decreases Raws(w.middle) - Raws(chain), 2, 0
  {
    hide Plain, Growing, Extend, RootChains, DeadEnds, Empty, Completes, Continues, Blocked, Raws, Parents;
    var c := Last(chain);
    ExtendBlocked(w, chain, Parents(w.middle, c, w.opts), cache);
    RootChainsAre(w, chain, Parents(w.roots, c, w.opts));
    Listed(w, chain);
    NoWayOn(w, chain, Build(w, chain, cache).cache);
  }

  lemma Listed(w: World, chain: Chain)
    requires chain != []
    ensures forall i: nat :: Completes(w, i, chain) ==> i in Parents(w.roots, Last(chain), w.opts)
    ensures forall i: nat :: Continues(w, i, chain) ==> i in Parents(w.middle, Last(chain), w.opts)
  {
    hide ValidNext, Candidate, Parents;
  }

  /** A chain that no root completes and whose extensions are dead ends is one itself. */
  lemma NoWayOn(w: World, chain: Chain, after: Cache)
    requires Plain(w) && chain != [] && Growing(w, chain) && DeadEnds(w, after, Raws(chain))
    requires forall i: nat :: !Completes(w, i, chain)
    requires forall i: nat :: Continues(w, i, chain) ==> i in after
    ensures Blocked(w, Last(chain), Raws(chain))
  {
    hide Growing, ValidNext, Raws, Candidate;
    var c := Last(chain);
    forall mids: seq<nat>, root: nat
      ensures !Way(w, c, mids, root, Raws(chain))
    {
      if Way(w, c, mids, root, Raws(chain)) {
        if mids == [] {
          RootStepCompletes(w, chain, root);
        } else {
          MiddleStepContinues(w, chain, mids[0]);
        }
      }
    }
  }

  lemma RootStepCompletes(w: World, chain: Chain, i: nat)
    requires Plain(w) && chain != [] && Growing(w, chain) && RootStep(w, Last(chain), i) && w.roots[i].raw !in Raws(chain)
    ensures Completes(w, i, chain)
  {
    hide Growing, ValidNext, Raws, Loose;
    NotInRaws(w.roots[i], chain);
    ValidAtLast(w, w.roots[i], Root, chain);
  }

  lemma MiddleStepContinues(w: World, chain: Chain, i: nat)
    requires Plain(w) && chain != [] && Growing(w, chain) && MiddleStep(w, Last(chain), i) && w.middle[i].raw !in Raws(chain)
    ensures Continues(w, i, chain)
  {
    hide Growing, ValidNext, Raws, Loose;
    NotInRaws(w.middle[i], chain);
    ValidAtLast(w, w.middle[i], Intermediate, chain);
  }

  lemma {:induction false} ExtendBlocked(w: World, chain: Chain, ps: seq<nat>, cache: Cache)
    requires Plain(w) && chain != [] && InRange(ps, |w.middle|) && Growing(w, chain)
    requires Empty(cache) && DeadEnds(w, cache, Raws(chain))
    requires Extend(w, chain, ps, cache).chains == []
    ensures var after := Extend(w, chain, ps, cache).cache;
      && Exhausted(w, chain, cache, after)
      && forall i :: i in ps && Continues(w, i, chain) ==> i in after
    decreases Raws(w.middle) - Raws(chain), 1, |ps|
  {
    hide Plain, Growing, DeadEnds, Empty, Continues, Raws, Visit;
    if ps != [] {
      var init, last := ps[..|ps| - 1], ps[|ps| - 1];
      assert ps == init + [last];
      ExtendBlocked(w, chain, init, cache);
      if Continues(w, last, chain) {
        VisitBlocked(w, chain, last, Extend(w, chain, init, cache).cache);
      }
    }
  }

  lemma {:induction false} VisitBlocked(w: World, chain: Chain, i: nat, cache: Cache)
    requires Plain(w) && chain != [] && Continues(w, i, chain) && Growing(w, chain)
    requires Empty(cache) && DeadEnds(w, cache, Raws(chain))
    requires Visit(w, chain, i, cache).chains == []
    ensures var after := Visit(w, chain, i, cache).cache; Exhausted(w, chain, cache, after) && i in after
    decreases Raws(w.middle) - Raws(chain), 0, 0
  {
    hide Plain, Growing, Raws, Build, Blocked;
    if i !in cache {
      var x := w.middle[i];
      ContinuesGrows(w, chain, i);
      RawsAdd(chain, x);
      forall j | j in cache
        ensures Blocked(w, w.middle[j], Raws(chain + [x]))
      {
        BlockedByMore(w, w.middle[j], Raws(chain), Raws(chain + [x]));
      }
      BuildBlocked(w, chain + [x], cache);
      var after := Build(w, chain + [x], cache).cache;
      forall j | j in after
        ensures Blocked(w, w.middle[j], Raws(chain))
      {
        Unblock(w, w.middle[j], Raws(chain), x);
      }
      Unblock(w, x, Raws(chain), x);
    }
  }

  lemma SoundFirst(w: World, ch: Chain)
    requires Sound(w, ch)
    ensures |ch| >= 2 && ch[0] == w.leaf && forall k :: 0 < k < |ch| ==> ch[k].raw != w.leaf.raw
  {
    hide Shown;
  }

  lemma SoundLink(w: World, ch: Chain, k: nat)
    requires Sound(w, ch) && 0 < k < |ch|
    ensures w.opts.signs(ch[k], ch[k - 1])
    ensures ValidNext(ch[k], if k == |ch| - 1 then Root else Intermediate, [ch[k - 1]], w.opts)
  {
    hide SoundChain, ValidNext, Shown;
    SoundLinks(ch, k, w.leaf, CertSet(w.middle), CertSet(w.roots), w.opts);
    ValidShorter(ch[k], if k == |ch| - 1 then Root else Intermediate, ch[..k], w.opts);
  }

  lemma LastStep(w: World, ch: Chain) returns (root: nat)
    requires Sound(w, ch)
    ensures |ch| >= 2 && RootStep(w, ch[|ch| - 2], root) && w.roots[root].raw != w.leaf.raw
  {
    SoundFirst(w, ch);
    SoundLink(w, ch, |ch| - 1);
    hide ValidNext, SoundChain;
    root :| Candidate(w.roots, root, ch[|ch| - 2]) && w.roots[root] == ch[|ch| - 1];
  }

  lemma NextStep(w: World, ch: Chain, k: nat) returns (i: nat)
    requires Sound(w, ch) && k < |ch| - 2
    ensures MiddleStep(w, ch[k], i) && w.middle[i] == ch[k + 1] && w.middle[i].raw != w.leaf.raw
  {
    hide ValidNext, SoundChain;
    SoundFirst(w, ch);
    SoundLink(w, ch, k + 1);
    var init := ch[..|ch| - 1];
    assert Shown(w.middle, init[k], init[k + 1]);
    i :| Candidate(w.middle, i, ch[k]) && w.middle[i] == ch[k + 1];
  }

  lemma {:induction false} SoundWay(w: World, ch: Chain, k: nat) returns (mids: seq<nat>, root: nat)
    requires Sound(w, ch) && k <= |ch| - 2
    ensures Way(w, ch[k], mids, root, {w.leaf.raw})
    decreases |ch| - k
  {
    hide RootStep, Sound;
    if k == |ch| - 2 {
      mids := [];
      root := LastStep(w, ch);
    } else {
      var i := NextStep(w, ch, k);
      var rest;
      rest, root := SoundWay(w, ch, k + 1);
      mids := [i] + rest;
      assert mids[1..] == rest;
    }
  }

  lemma ValidShorter(c: Cert, role: Role, chain: Chain, opts: Options)
    requires chain != [] && ValidNext(c, role, chain, opts)
    ensures ValidNext(c, role, [Last(chain)], opts)
  {}

  /** In plain pools the search succeeds exactly when there is a chain to be found. */
  lemma SearchFindsIff(w: World)
    requires Plain(w)
    ensures Build(w, [w.leaf], map[]).chains != [] <==> exists ch :: Sound(w, ch)
  {
    hide Plain, Build, Way, Sound;
    LeafGrows(w);
    BuildSound(w, [w.leaf], map[]);
    var found := Build(w, [w.leaf], map[]).chains;
    if found == [] {
      BuildBlocked(w, [w.leaf], map[]);
      forall ch
        ensures !Sound(w, ch)
      {
        if Sound(w, ch) {
          SoundFirst(w, ch);
          var mids, root := SoundWay(w, ch, 0);
        }
      }
    } else {
      assert found[0] in found;
    }
  }

  lemma LeafGrows(w: World)
    ensures Growing(w, [w.leaf]) && Raws([w.leaf]) == {w.leaf.raw}
  {
    RawsAdd([], w.leaf);
  }

  // ---- a chain the cache makes the search miss

  function Plainly(raw: nat, subject: Name, issuer: Name, limit: int): (c: Cert) {
    Cert(raw, subject, issuer, None, None, 0, 0, [], true, true, limit, [], 0)
  }

  /** The leaf names its issuer 1, as two intermediates are called; the first of them was
      issued by the second, the second by the root, which allows one intermediate. */
  const LEAF := Plainly(0, 0, 1, -1)
  const FIRST := Plainly(1, 1, 1, -1)
  const SECOND := Plainly(2, 1, 2, -1)
  const ROOT := Plainly(3, 2, 2, 1)

  predicate Issued(p: Cert, c: Cert) {
    (c == LEAF && (p == FIRST || p == SECOND)) || (c == FIRST && p == SECOND) || (c == SECOND && p == ROOT)
  }

  predicate AnyName(d: Name, n: Name) { true }

  function Small(): (w: World) { World(LEAF, [ROOT], [FIRST, SECOND], Options(0, 0, Issued, AnyName)) }

  function If(b: bool, i: nat): (ps: seq<nat>) { if b then [i] else [] }

  lemma FewPositions(a: Option<nat>, b: Option<nat>, key: Option<nat>)
    ensures Positions([a], key) == If(a == key, 0) && Positions([a, b], key) == If(a == key, 0) + If(b == key, 1)
  {
    assert [a, b][..1] == [a];
    assert Positions([a][..0], key) == [];
  }

  lemma FewSigners(certs: seq<Cert>, a: bool, b: bool, c: Cert, opts: Options)
    requires |certs| >= if b then 2 else 1
    ensures var p, q := a && opts.signs(certs[0], c), b && opts.signs(certs[1], c);
      Signers(certs, If(a, 0) + If(b, 1), c, opts) == If(p, 0) + If(q, 1)
  {
    var cs := If(a, 0) + If(b, 1);
    assert Signers(certs, [], c, opts) == [];
    assert [0][..0] == [] && [1][..0] == [] && [0, 1][..1] == [0];
    assert Signers(certs, If(a, 0), c, opts) == If(a && opts.signs(certs[0], c), 0);
    if b {
      assert cs[..|cs| - 1] == If(a, 0);
    }
  }

  lemma Nothing(b: bool)
    ensures If(b, 0) + If(false, 1) == If(b, 0)
  {}

  lemma ByName(certs: seq<Cert>, c: Cert)
    requires c.authorityKeyId.None?
    ensures CandidateList(certs, c) == Positions(Subjects(certs), Some(c.issuer))
  {}

  lemma OneParent(a: Cert, c: Cert, opts: Options)
    requires c.authorityKeyId.None?
    ensures Parents([a], c, opts) == If(a.subject == c.issuer && opts.signs(a, c), 0)
  {
    hide CandidateList, Positions, Signers, If;
    ByName([a], c);
    assert Subjects([a]) == [Some(a.subject)];
    FewPositions(Some(a.subject), None, Some(c.issuer));
    FewSigners([a], a.subject == c.issuer, false, c, opts);
    Nothing(a.subject == c.issuer);
    Nothing(a.subject == c.issuer && opts.signs(a, c));
  }

  lemma TwoParents(a: Cert, b: Cert, c: Cert, opts: Options)
    requires c.authorityKeyId.None?
    ensures Parents([a, b], c, opts) == If(a.subject == c.issuer && opts.signs(a, c), 0) + If(b.subject == c.issuer && opts.signs(b, c), 1)
  {
    hide CandidateList, Positions, Signers, If;
    ByName([a, b], c);
    assert Subjects([a, b]) == [Some(a.subject), Some(b.subject)];
    FewPositions(Some(a.subject), Some(b.subject), Some(c.issuer));
    FewSigners([a, b], a.subject == c.issuer, b.subject == c.issuer, c, opts);
  }

  lemma SmallParents()
    ensures var w := Small();
      && Parents(w.middle, LEAF, w.opts) == [0, 1] && Parents(w.roots, LEAF, w.opts) == []
      && Parents(w.middle, FIRST, w.opts) == [1] && Parents(w.roots, FIRST, w.opts) == []
      && Parents(w.middle, SECOND, w.opts) == [] && Parents(w.roots, SECOND, w.opts) == [0]
  {
    hide Parents;
    var opts := Small().opts;
    TwoParents(FIRST, SECOND, LEAF, opts);
    TwoParents(FIRST, SECOND, FIRST, opts);
    TwoParents(FIRST, SECOND, SECOND, opts);
    OneParent(ROOT, LEAF, opts);
    OneParent(ROOT, FIRST, opts);
    OneParent(ROOT, SECOND, opts);
  }

  lemma ExtendOne(w: World, chain: Chain, i: nat, cache: Cache)
    requires chain != [] && i < |w.middle|
    ensures Extend(w, chain, [], cache) == Search([], cache)
    ensures Continues(w, i, chain) ==> Extend(w, chain, [i], cache) == Visit(w, chain, i, cache)
  {
    hide Continues, Visit;
    assert [i][..0] == [];
    assert Extend(w, chain, [i][..0], cache) == Search([], cache);
    if Continues(w, i, chain) {
      assert [] + Visit(w, chain, i, cache).chains == Visit(w, chain, i, cache).chains;
    }
  }

  /** Under the chain through both intermediates the root is refused. */
  lemma UnderBoth()
    ensures Build(Small(), [LEAF, FIRST, SECOND], map[]) == Search([], map[])
  {
    SmallParents();
    hide Parents, Candidate;
    var w, chain := Small(), [LEAF, FIRST, SECOND];
    assert !Completes(w, 0, chain);
    assert RootChains(w, chain, [0][..0]) == [];
    assert Extend(w, chain, [], map[]) == Search([], map[]);
  }

  lemma SmallContinues()
    ensures var w := Small(); Continues(w, 0, [LEAF]) && Continues(w, 1, [LEAF]) && Continues(w, 1, [LEAF, FIRST])
  {
    SmallParents();
    hide Parents, Candidate;
    var w := Small();
    assert 0 in Parents(w.middle, LEAF, w.opts) && 1 in Parents(w.middle, LEAF, w.opts) && 1 in Parents(w.middle, FIRST, w.opts);
  }

  lemma UnderFirst()
    ensures Build(Small(), [LEAF, FIRST], map[]) == Search([], map[1 := []])
  {
    SmallParents();
    SmallContinues();
    hide Parents, Candidate, Continues, Extend;
    var w, chain := Small(), [LEAF, FIRST];
    ExtendOne(w, chain, 1, map[]);
    UnderBoth();
    assert chain + [SECOND] == [LEAF, FIRST, SECOND];
  }

  /** The search fails although a chain is there: the second intermediate is first
      reached through the first, where the root's limit is passed, and that answer is
      kept. */
  lemma CacheLosesChain()
    ensures var w := Small(); Sound(w, [LEAF, SECOND, ROOT]) && Build(w, [w.leaf], map[]).chains == []
  {
    var w := Small();
    SmallSound();
    SmallParents();
    SmallContinues();
    hide Parents, Candidate, Continues, Sound;
    ExtendOne(w, [LEAF], 0, map[]);
    UnderFirst();
    assert [LEAF] + [FIRST] == [LEAF, FIRST];
    var kept: Cache := map[1 := []][0 := []];
    assert Visit(w, [LEAF], 0, map[]) == Search([], kept);
    assert Visit(w, [LEAF], 1, kept) == Search([], kept);
    assert [0, 1][..1] == [0];
    assert Extend(w, [LEAF], [0, 1], map[]) == Search([] + [], kept);
    assert RootChains(w, [LEAF], []) == [];
  }

  lemma SmallSound()
    ensures Sound(Small(), [LEAF, SECOND, ROOT])
  {
    SmallParents();
    hide Parents, Candidate;
    var w := Small();
    assert 1 in Parents(w.middle, LEAF, w.opts) && 0 in Parents(w.roots, SECOND, w.opts);
    LeafGrows(w);
    ContinuesGrows(w, [LEAF], 1);
    assert [LEAF] + [SECOND] == [LEAF, SECOND];
    CompletesSound(w, [LEAF, SECOND], 0);
    assert [LEAF, SECOND] + [ROOT] == [LEAF, SECOND, ROOT];
  }
}
