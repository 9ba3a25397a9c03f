/** A cache in front of the store that a run of the block processor has built. */
module CachedRuns {
  import opened Primitives
  import opened ChainTypes
  import opened Hashing
  import opened Provider
  import opened ProcessorSpec
  import opened ProcessorRuns
  import Cached

  // ---------- The hash index of a run ----------

  /** The hash index of a reachable store is that of its chain, later blocks overwriting earlier ones. */
  lemma {:induction false} RunIndexes(env: Env, g: Genesis, ds: seq<Delivery>)
    ensures Ran(env, Initial(env, g), ds).store.blocksByHash == HashIndex(env.keccak, Chain(env, g, ds))
  {
    RunKeepsChain(env, g, ds);
  }

  // ---------- When the cache is transparent ----------

  predicate DistinctHashes(keccak: Keccak, chain: seq<Block>) {
    forall i, j :: 0 <= i < j < |chain| ==> HashHeader(keccak, chain[i].header) != HashHeader(keccak, chain[j].header)
  }

  lemma {:induction false} DistinctIndexed(keccak: Keccak, chain: seq<Block>, i: nat)
    requires DistinctHashes(keccak, chain) && i < |chain|
    ensures var hash, index := HashHeader(keccak, chain[i].header), HashIndex(keccak, chain);
            hash in index && index[hash] == chain[i].header.number
  {
    hide HashHeader;
    var n := |chain| - 1;
    if i < n {
      DistinctIndexed(keccak, chain[..n], i);
      assert HashHeader(keccak, chain[i].header) != HashHeader(keccak, chain[n].header);
    }
  }

  lemma {:induction false} CollisionShows(keccak: Keccak, store: Store, chain: seq<Block>, first: nat, capacity: nat)
    requires StoresChain(store, chain, first) && !DistinctHashes(keccak, chain)
    ensures !Cached.Agrees(Cached.Setup(Cached.InMemory(store), keccak, capacity))
  {
    hide HashHeader;
    var i, j :| 0 <= i < j < |chain| && HashHeader(keccak, chain[i].header) == HashHeader(keccak, chain[j].header);
    var s := Cached.Setup(Cached.InMemory(store), keccak, capacity);
    assert s.inner.headerByNumber(chain[i].header.number) == Ok(chain[i].header);
    assert s.inner.headerByNumber(chain[j].header.number) == Ok(chain[j].header);
    assert chain[i].header.number != chain[j].header.number;
    assert !Cached.SameHeader(s, chain[i].header) || !Cached.SameHeader(s, chain[j].header);
  }

  /** In front of any store a run can reach, a cache is transparent exactly when no two headers of the chain hash
      alike. */
  lemma {:induction false} RunTransparentIff(env: Env, g: Genesis, ds: seq<Delivery>, capacity: nat)
    ensures var store := Ran(env, Initial(env, g), ds).store;
            Cached.AlwaysFaithful(Cached.Setup(Cached.InMemory(store), env.keccak, capacity))
            <==> DistinctHashes(env.keccak, Chain(env, g, ds))
  {
    RunKeepsChain(env, g, ds);
    RunIndexes(env, g, ds);
    hide Ran, Chain, HashHeader, HashIndex, Replayed, Linked, HeadNames, Cached.AlwaysFaithful, Cached.Agrees;
    var store, chain := Ran(env, Initial(env, g), ds).store, Chain(env, g, ds);
    Cached.TransparentIff(Cached.Setup(Cached.InMemory(store), env.keccak, capacity));
    if DistinctHashes(env.keccak, chain) {
      ChainWellIndexed(env.keccak, store, chain, g.block.header.number);
      Cached.WellIndexedAgrees(env.keccak, store, capacity);
    } else {
      CollisionShows(env.keccak, store, chain, g.block.header.number, capacity);
    }
  }

  lemma {:induction false} ChainWellIndexed(keccak: Keccak, store: Store, chain: seq<Block>, first: nat)
    requires StoresChain(store, chain, first) && DistinctHashes(keccak, chain)
    requires store.blocksByHash == HashIndex(keccak, chain)
    ensures Cached.WellIndexed(keccak, store)
  {
    hide HashHeader, HashIndex, DistinctHashes;
    forall n | n in store.blocks
      ensures var h := store.blocks[n].header;
              && h.number == n && HashHeader(keccak, h) in store.blocksByHash
              && store.blocksByHash[HashHeader(keccak, h)] == n
    {
      assert store.blocks[n] == chain[n - first];
      DistinctIndexed(keccak, chain, n - first);
    }
  }
}
