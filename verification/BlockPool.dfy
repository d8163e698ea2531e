/** The pool of candidate blocks: `possibleValidBlock`, indexed by height and
    then by hash, and `blockbeats`, the time each hash was first seen. */
module BlockPool {
  import opened Text
  import opened Messages

  type Time = nat
  type Table = map<Hash, Block>

  datatype Pool = Pool(blocks: map<uint64, Table>, beats: map<Hash, Time>)

  /** hash is stored at height bn. */
  predicate At(p: Pool, bn: uint64, hash: Hash) { bn in p.blocks && hash in p.blocks[bn] }

  ghost predicate Stored(p: Pool, hash: Hash) { exists bn: uint64 :: At(p, bn, hash) }

  predicate StoredUpTo(p: Pool, top: uint64, hash: Hash) {
    exists bn :: bn in p.blocks && bn <= top && hash in p.blocks[bn]
  }

  /** The two indexes agree: the beats are exactly the stored hashes, every hash
      sits at one height, and no height keeps an empty table. */
  ghost predicate Consistent(p: Pool) {
    && (forall hash :: hash in p.beats <==> Stored(p, hash))
    && (forall bn: uint64, cn: uint64, hash :: At(p, bn, hash) && At(p, cn, hash) ==> bn == cn)
    && (forall bn :: bn in p.blocks ==> p.blocks[bn] != map[])
  }

  /** Blocks are filed under their own height and printed height. */
  predicate Filed(p: Pool) {
    forall bn, hash :: bn in p.blocks && hash in p.blocks[bn] ==> hash == Itoa(AsInt64(bn))
  }

  // ---- what each operation does to the pool

  function TableAt(p: Pool, bn: uint64): (t: Table) {
    if bn in p.blocks then p.blocks[bn] else map[]
  }

  function Lookup(p: Pool, bn: uint64, hash: Hash): (b: Option<Block>) {
    if At(p, bn, hash) then Some(p.blocks[bn][hash]) else None
  }

  function Put(p: Pool, b: Block, now: Time): (r: Pool) {
    var h := BlockHash(b);
    Pool(p.blocks[b.number := TableAt(p, b.number)[h := b]],
         if h in p.beats then p.beats else p.beats[h := now])
  }

  /** DeletePVBAndBeats: drop every height up to bn with its beats, and the beat
      of bhash whatever its height. */
  function DeleteUpTo(p: Pool, bn: uint64, bhash: Hash): (r: Pool) {
    Pool(map n | n in p.blocks && n > bn :: p.blocks[n],
         map h | h in p.beats && h != bhash && !StoredUpTo(p, bn, h) :: p.beats[h])
  }

  function Without(p: Pool, gone: set<Hash>): (r: Pool) {
    Pool(map n | n in p.blocks && p.blocks[n] - gone != map[] :: p.blocks[n] - gone,
         p.beats - gone)
  }

  function Expired(p: Pool, now: Time, lifetime: Time): (gone: set<Hash>) {
    set h | h in p.beats && now - p.beats[h] > lifetime
  }

  // ---- what is found afterwards

  /** A put is found at its height under its hash and changes nothing else; a hash keeps
      the beat it already has. */
  lemma PutFound(p: Pool, b: Block, now: Time, n: uint64, h: Hash)
    ensures Lookup(Put(p, b, now), n, h) == if n == b.number && h == BlockHash(b) then Some(b) else Lookup(p, n, h)
    ensures h in Put(p, b, now).beats <==> h in p.beats || h == BlockHash(b)
    ensures h in Put(p, b, now).beats ==> Put(p, b, now).beats[h] == if h in p.beats then p.beats[h] else now
  {
    hide BlockHash;
  }

  /** A deletion leaves exactly the blocks above the height, and the beats of hashes that
      are neither named nor stored up to it. */
  lemma DeleteFound(p: Pool, bn: uint64, bhash: Hash, n: uint64, h: Hash)
    ensures Lookup(DeleteUpTo(p, bn, bhash), n, h) == if n <= bn then None else Lookup(p, n, h)
    ensures h in DeleteUpTo(p, bn, bhash).beats <==>
      h in p.beats && h != bhash && forall m: uint64 :: m <= bn ==> Lookup(p, m, h).None?
  {
    if m: uint64 :| m in p.blocks && m <= bn && h in p.blocks[m] {
      assert Lookup(p, m, h).Some?;
    }
  }

  /** Eviction takes exactly the hashes whose beat is older than the lifetime. */
  lemma EvictFound(p: Pool, now: Time, lifetime: Time, n: uint64, h: Hash)
    ensures Lookup(Without(p, Expired(p, now, lifetime)), n, h) ==
      if h in p.beats && now - p.beats[h] > lifetime then None else Lookup(p, n, h)
  {
    var gone := Expired(p, now, lifetime);
    if At(p, n, h) && h !in gone {
      assert h in p.blocks[n] - gone;
    }
  }

  // ---- the indexes stay consistent

  lemma PutConsistent(p: Pool, b: Block, now: Time)
    requires Consistent(p) && Filed(p)
    ensures Consistent(Put(p, b, now)) && Filed(Put(p, b, now))
  {
    var r, h := Put(p, b, now), BlockHash(b);
    assert At(r, b.number, h);
    assert forall n: uint64, k :: At(r, n, k) <==> At(p, n, k) || (n == b.number && k == h);
    forall k
      ensures k in r.beats <==> Stored(r, k)
    {
      if n: uint64 :| At(p, n, k) {
        assert At(r, n, k);
      }
    }
    forall n: uint64, m: uint64, k | At(r, n, k) && At(r, m, k)
      ensures n == m
    {
      DigestSame(n, m);
    }
  }

  lemma DigestSame(n: uint64, m: uint64)
    ensures Itoa(AsInt64(n)) == Itoa(AsInt64(m)) ==> n == m
  {
    if Itoa(AsInt64(n)) == Itoa(AsInt64(m)) {
      DigestInjective(n, m);
    }
  }

  lemma DeleteMembers(p: Pool, bn: uint64, bhash: Hash)
    ensures forall n: uint64, k :: At(DeleteUpTo(p, bn, bhash), n, k) <==> At(p, n, k) && n > bn
    ensures forall n: uint64, k :: At(p, n, k) && n <= bn ==> StoredUpTo(p, bn, k)
    ensures forall k :: StoredUpTo(p, bn, k) ==> Stored(p, k)
  {
    forall k | StoredUpTo(p, bn, k)
      ensures Stored(p, k)
    {
      var n :| n in p.blocks && n <= bn && k in p.blocks[n];
      assert At(p, n, k);
    }
  }

  /** A checkpoint deletion keeps the indexes consistent exactly when its hash is
      not that of a block kept above its height. */
  lemma DeleteConsistentIff(p: Pool, bn: uint64, bhash: Hash)
    requires Consistent(p)
    ensures Consistent(DeleteUpTo(p, bn, bhash)) <==> !(exists n: uint64 :: At(p, n, bhash) && n > bn)
    ensures Filed(p) ==> Filed(DeleteUpTo(p, bn, bhash))
  {
    var r := DeleteUpTo(p, bn, bhash);
    DeleteMembers(p, bn, bhash);
    if n: uint64 :| At(p, n, bhash) && n > bn {
      assert At(r, n, bhash) && bhash !in r.beats;
    } else {
      forall k
        ensures k in r.beats <==> Stored(r, k)
      {
        if k in r.beats {
          var n: uint64 :| At(p, n, k);
          assert At(r, n, k);
        }
        if n: uint64 :| At(r, n, k) {
          assert At(p, n, k);
          if StoredUpTo(p, bn, k) {
            var m :| m in p.blocks && m <= bn && k in p.blocks[m];
            assert At(p, m, k);
          }
        }
      }
    }
  }

  /** In particular when the checkpoint's hash is the one of its height. */
  lemma DeleteMatchingConsistent(p: Pool, bn: uint64)
    requires Consistent(p) && Filed(p)
    ensures var r := DeleteUpTo(p, bn, Itoa(AsInt64(bn))); Consistent(r) && Filed(r)
  {
    forall n: uint64 | At(p, n, Itoa(AsInt64(bn)))
      ensures n == bn
    {
      DigestSame(n, bn);
    }
    DeleteConsistentIff(p, bn, Itoa(AsInt64(bn)));
  }

  lemma WithoutMembers(p: Pool, gone: set<Hash>)
    ensures forall n: uint64, k :: At(Without(p, gone), n, k) <==> At(p, n, k) && k !in gone
  {
    forall n: uint64, k | At(p, n, k) && k !in gone
      ensures At(Without(p, gone), n, k)
    {
      assert k in p.blocks[n] - gone;
    }
  }

  lemma WithoutConsistent(p: Pool, gone: set<Hash>)
    requires Consistent(p)
    ensures Consistent(Without(p, gone))
    ensures Filed(p) ==> Filed(Without(p, gone))
  {
    var r := Without(p, gone);
    WithoutMembers(p, gone);
    forall k
      ensures k in r.beats <==> Stored(r, k)
    {
      if k in r.beats {
        var n: uint64 :| At(p, n, k);
        assert At(r, n, k);
      }
      if n: uint64 :| At(r, n, k) {
        assert At(p, n, k);
      }
    }
  }

  lemma MinusTwice(t: Table, a: set<Hash>, b: set<Hash>)
    ensures t - a - b == t - (a + b)
    ensures t - a == map[] ==> t - (a + b) == map[]
  {
    assert (t - a - b).Keys == (t - (a + b)).Keys;
  }

  lemma WithoutTwice(p: Pool, a: set<Hash>, b: set<Hash>)
    ensures Without(Without(p, a), b) == Without(p, a + b)
  {
    var once, both := Without(p, a), Without(p, a + b);
    var twice := Without(once, b);
    forall n
      ensures n in twice.blocks <==> n in both.blocks
      ensures n in both.blocks ==> twice.blocks[n] == both.blocks[n]
    {
      if n in p.blocks {
        MinusTwice(p.blocks[n], a, b);
      }
    }
    assert twice.blocks == both.blocks;
    assert p.beats - a - b == p.beats - (a + b);
  }

  lemma WithoutNothing(p: Pool)
    requires Consistent(p)
    ensures Without(p, {}) == p
  {
    assert forall n :: n in p.blocks ==> p.blocks[n] - {} == p.blocks[n];
    assert Without(p, {}).blocks == p.blocks;
  }

  lemma WithoutOne(p: Pool, n: uint64, hash: Hash)
    requires Consistent(p) && At(p, n, hash)
    ensures Without(p, {hash}).blocks ==
              if p.blocks[n] - {hash} == map[] then p.blocks - {n} else p.blocks[n := p.blocks[n] - {hash}]
  {
    forall m: uint64 | m in p.blocks && m != n
      ensures p.blocks[m] - {hash} == p.blocks[m]
    {
      assert !At(p, m, hash);
    }
  }

  lemma WithoutAbsent(p: Pool, hash: Hash)
    requires forall n :: n in p.blocks ==> hash !in p.blocks[n]
    ensures Consistent(p) ==> Without(p, {hash}).blocks == p.blocks
  {
    assert forall m :: m in p.blocks ==> p.blocks[m] - {hash} == p.blocks[m];
  }

  /** Some hash of the set is stored at the given height. */
  ghost predicate HeightAmong(p: Pool, bn: int, hashes: set<Hash>) {
    exists n: uint64, h :: At(p, n, h) && h in hashes && n == bn
  }

  lemma WithoutStep(p: Pool, bn: int, done: set<Hash>, h: Hash)
    requires Consistent(p) && h !in done
    ensures Consistent(Without(p, done))
    ensures Without(Without(p, done), {h}) == Without(p, done + {h})
    ensures HeightAmong(p, bn, done + {h}) <==> HeightAmong(p, bn, done) || HeightAmong(Without(p, done), bn, {h})
  {
    WithoutConsistent(p, done);
    WithoutTwice(p, done, {h});
    WithoutMembers(p, done);
    if n: uint64, k :| At(p, n, k) && k in done + {h} && n == bn {
      assert k in done || (At(Without(p, done), n, k) && k in {h});
    }
    if n: uint64, k :| At(p, n, k) && k in done && n == bn {
      assert k in done + {h};
    }
    if n: uint64, k :| At(Without(p, done), n, k) && k in {h} && n == bn {
      assert At(p, n, k) && k in done + {h};
    }
  }

  // ---- whole runs

  datatype PoolOp =
    | Add(block: Block, now: Time)
    | Checkpointed(bn: uint64, hash: Hash)
    | Expire(now: Time)

  function PoolStep(p: Pool, op: PoolOp, lifetime: Time): (r: Pool) {
    match op
    case Add(b, now) => Put(p, b, now)
    case Checkpointed(bn, hash) => DeleteUpTo(p, bn, hash)
    case Expire(now) => Without(p, Expired(p, now, lifetime))
  }

  function PoolRun(p: Pool, ops: seq<PoolOp>, lifetime: Time): (r: Pool) {
    if ops == [] then p else PoolStep(PoolRun(p, ops[..|ops| - 1], lifetime), ops[|ops| - 1], lifetime)
  }

  predicate CheckpointHashesMatch(ops: seq<PoolOp>) {
    forall i :: 0 <= i < |ops| && ops[i].Checkpointed? ==> ops[i].hash == Itoa(AsInt64(ops[i].bn))
  }

  /** Through every sequence of puts, expirations and checkpoint deletions whose
      hash is the one of their height, the two indexes stay consistent. */
  lemma {:induction false} RunConsistent(ops: seq<PoolOp>, lifetime: Time)
    requires CheckpointHashesMatch(ops)
    ensures var r := PoolRun(Pool(map[], map[]), ops, lifetime); Consistent(r) && Filed(r)
  {
    if ops != [] {
      var before := ops[..|ops| - 1];
      RunConsistent(before, lifetime);
      var p := PoolRun(Pool(map[], map[]), before, lifetime);
      match ops[|ops| - 1] {
        case Add(b, now) => PutConsistent(p, b, now);
        case Checkpointed(bn, hash) => DeleteMatchingConsistent(p, bn);
        case Expire(now) => WithoutConsistent(p, Expired(p, now, lifetime));
      }
    }
  }

  // ---- the operations as the worker performs them

  class BlockIndex {
    var blocks: map<uint64, Table>
    var beats: map<Hash, Time>

    constructor ()
      ensures State() == Pool(map[], map[])
    {
      blocks, beats := map[], map[];
    }

    function State(): (p: Pool)
      reads this
    {
      Pool(blocks, beats)
    }

    method PutBlock(block: Block)
      modifies this`blocks
      ensures blocks == Put(old(State()), block, 0).blocks
    {
      var a: Table := map[];
      if block.number in blocks {
        a := blocks[block.number];
      }
      a := a[BlockHash(block) := block];
      blocks := blocks[block.number := a];
    }

    method AddBeat(hash: Hash, now: Time)
      modifies this`beats
      ensures beats == if hash in old(beats) then old(beats) else old(beats)[hash := now]
    {
      if hash !in beats {
        beats := beats[hash := now];
      }
    }

    method PutAndBeat(block: Block, now: Time)
      modifies this
      ensures State() == Put(old(State()), block, now)
    {
      PutBlock(block);
      AddBeat(BlockHash(block), now);
    }

    method Get(bn: uint64, hash: Hash) returns (b: Option<Block>)
      ensures b == Lookup(State(), bn, hash)
    {
      if bn !in blocks {
        return None;
      }
      var table := blocks[bn];
      if hash !in table {
        return None;
      }
      return Some(table[hash]);
    }

    /** deleteImpossibleValidBlock followed by deletbeats. */
    method Delete(bn: uint64, bhash: Hash)
      modifies this
      ensures State() == DeleteUpTo(old(State()), bn, bhash)
    {
      var todo := blocks.Keys;
      ghost var done: set<uint64> := {};
      while todo != {}
        invariant todo + done == old(blocks).Keys && todo !! done
        invariant blocks == map n | n in old(blocks) && !(n in done && n <= bn) :: old(blocks)[n]
        invariant forall h :: h in beats <==>
                    h in old(beats) && !(exists n :: n in done && n <= bn && h in old(blocks)[n])
        invariant forall h :: h in beats ==> beats[h] == old(beats)[h]
        decreases todo
      {
        var n :| n in todo;
        if n <= bn {
          ghost var before := beats;
          beats := beats - blocks[n].Keys;
          blocks := blocks - {n};
        }
        todo, done := todo - {n}, done + {n};
      }
      assert done == old(blocks).Keys;
      beats := beats - {bhash};
      assert State().blocks == DeleteUpTo(old(State()), bn, bhash).blocks;
    }

    /** deletePVBAndBeatsByHash: the scan stops at the first height holding the hash. */
    method DeleteByHash(hash: Hash)
      modifies this
      ensures beats == old(beats) - {hash}
      ensures old(Consistent(State())) ==> State() == Without(old(State()), {hash})
    {
      beats := beats - {hash};
      var todo := blocks.Keys;
      ghost var p := old(State());
      while todo != {}
        invariant todo <= blocks.Keys && blocks == old(blocks)
        invariant forall n :: n in blocks && n !in todo ==> hash !in blocks[n]
        decreases todo
      {
        var n :| n in todo;
        if hash in blocks[n] {
          var rest := blocks[n] - {hash};
          if rest == map[] {
            blocks := blocks - {n};
          } else {
            blocks := blocks[n := rest];
          }
          if Consistent(p) {
            WithoutOne(p, n, hash);
          }
          return;
        }
        todo := todo - {n};
      }
      WithoutAbsent(p, hash);
    }

    /** getPossibleBHByHash. */
    method HeightOf(hash: Hash) returns (bn: Option<uint64>)
      ensures bn.Some? ==> At(State(), bn.value, hash)
      ensures bn.None? ==> !Stored(State(), hash)
    {
      var todo := blocks.Keys;
      while todo != {}
        invariant todo <= blocks.Keys
        invariant forall n :: n in blocks && n !in todo ==> hash !in blocks[n]
        decreases todo
      {
        var n :| n in todo;
        if hash in blocks[n] {
          return Some(n);
        }
        todo := todo - {n};
      }
      return None;
    }

    /** One expired entry of expirationLoop. */
    method ExpireOne(hash: Hash, current: uint64) returns (next: bool)
      requires Consistent(State()) && hash in beats
      modifies this
      ensures State() == Without(old(State()), {hash})
      ensures next <==> HeightAmong(old(State()), current + 1, {hash})
    {
      next := false;
      var bn := HeightOf(hash);
      if bn.Some? {
        if bn.value == current + 1 {
          next := true;
        }
      }
      DeleteByHash(hash);
    }

    /** The body of expirationLoop; lateNext says whether the block being agreed
        on at the next height is among the expired ones. */
    method ExpireAll(now: Time, lifetime: Time, current: uint64) returns (lateNext: bool)
      requires Consistent(State())
      modifies this
      ensures State() == Without(old(State()), Expired(old(State()), now, lifetime))
      ensures lateNext <==> HeightAmong(old(State()), current + 1, Expired(old(State()), now, lifetime))
    {
      ghost var p := State();
      ghost var done: set<Hash> := {};
      lateNext := false;
      var todo := beats.Keys;
      WithoutNothing(p);
      while todo != {}
        invariant todo <= p.beats.Keys && done !! todo
        invariant done == Expired(p, now, lifetime) - todo
        invariant State() == Without(p, done)
        invariant lateNext <==> HeightAmong(p, current + 1, done)
        decreases todo
      {
        var h :| h in todo;
        if now - beats[h] > lifetime {
          WithoutStep(p, current + 1, done, h);
          var next := ExpireOne(h, current);
          if next {
            lateNext := true;
          }
          done := done + {h};
        }
        todo := todo - {h};
      }
      assert done == Expired(p, now, lifetime);
    }
  }
}
