/** The read-through cache in front of a provider, with arbitrary eviction. */
module Cached {
  import opened Primitives
  import opened ChainTypes
  import opened Ledger
  import opened Hashing
  import opened Provider

  type Reply<T> = Result<T, ExecutionError>

  /** The wrapped provider; the cache owns it, so it never changes underneath. */
  datatype Inner = Inner(
    blockByHash: B256 -> Reply<Block>, blockByNumber: u64 -> Reply<Block>,
    headerByHash: B256 -> Reply<Header>, headerByNumber: u64 -> Reply<Header>,
    account: Address -> Reply<Account>)

  datatype Caches = Caches(blocks: map<u64, Block>, headers: map<B256, Header>, accounts: map<Address, Account>)

  // ---------- One cache ----------

  /** Adding an entry: a full cache first gives up some entry, any entry. */
  ghost predicate Added<K(!new), V>(cache: map<K, V>, capacity: nat, key: K, value: V, cache': map<K, V>) {
    if |cache| >= capacity && cache != map[] then
      exists evicted :: evicted in cache && cache' == (cache - {evicted})[key := value]
    else
      cache' == cache[key := value]
  }

  /** A read under a key: the cached value if there is one, otherwise the fetched value, which is then cached. */
  ghost predicate ReadThrough<K(!new), V>(
    cache: map<K, V>, capacity: nat, key: K, fetched: Reply<V>, answer: Reply<V>, cache': map<K, V>)
  {
    if key in cache then answer == Ok(cache[key]) && cache' == cache
    else
      && answer == fetched
      && (fetched.Ok? ==> Added(cache, capacity, key, fetched.value, cache'))
      && (fetched.Err? ==> cache' == cache)
  }

  /**
   * What a read does to the cache: what was found is in it, what was in it keeps its value, and at most one entry is
   * gone, none unless the cache was full and something new was fetched.
   */
  lemma {:induction false} ReadThroughKeeps<K(!new), V>(
      cache: map<K, V>, capacity: nat, key: K, fetched: Reply<V>, answer: Reply<V>, cache': map<K, V>, k: K, l: K)
    requires ReadThrough(cache, capacity, key, fetched, answer, cache')
    ensures answer.Ok? ==> key in cache' && cache'[key] == answer.value
    ensures k in cache && k in cache' ==> cache'[k] == cache[k]
    ensures k in cache' ==> k in cache || k == key
    ensures k in cache && k !in cache' ==> key !in cache && fetched.Ok? && |cache| >= capacity
    ensures k in cache && k !in cache' && l in cache && l !in cache' ==> k == l
  {
  }

  method Add<K(!new, ==), V>(cache: map<K, V>, capacity: nat, key: K, value: V) returns (cache': map<K, V>)
    ensures Added(cache, capacity, key, value, cache')
  {
    cache' := cache;
    if |cache| >= capacity && cache != map[] {
      var evicted :| evicted in cache;
      cache' := cache' - {evicted};
    }
    cache' := cache'[key := value];
  }

  lemma {:induction false} AddedBounded<K(!new), V>(cache: map<K, V>, capacity: nat, key: K, value: V, cache': map<K, V>)
    requires Added(cache, capacity, key, value, cache') && key !in cache
    requires |cache| <= Limit(capacity)
    ensures |cache'| <= Limit(capacity)
  {
    if |cache| >= capacity && cache != map[] {
      var evicted :| evicted in cache && cache' == (cache - {evicted})[key := value];
      assert cache'.Keys == (cache.Keys - {evicted}) + {key};
      assert |cache'.Keys| == |cache.Keys|;
    } else {
      assert cache'.Keys == cache.Keys + {key};
      assert |cache'.Keys| == |cache.Keys| + 1;
      if cache == map[] {
        assert |cache.Keys| == 0;
      }
    }
  }

  /** Even a cache of capacity nought holds the entry it read last. */
  function Limit(capacity: nat): nat {
    if capacity == 0 then 1 else capacity
  }

  // ---------- The provider's reads ----------

  datatype Query =
    | BlockHashed(hash: B256)
    | BlockNumbered(number: u64)
    | HeaderHashed(hash: B256)
    | HeaderNumbered(number: u64)
    | AccountAt(address: Address)

  datatype Answer =
    | BlockAnswer(block: Reply<Block>)
    | HeaderAnswer(header: Reply<Header>)
    | AccountAnswer(account: Reply<Account>)

  /** What the wrapped provider would say. */
  function Truth(inner: Inner, q: Query): Answer {
    match q
    case BlockHashed(hash) => BlockAnswer(inner.blockByHash(hash))
    case BlockNumbered(number) => BlockAnswer(inner.blockByNumber(number))
    case HeaderHashed(hash) => HeaderAnswer(inner.headerByHash(hash))
    case HeaderNumbered(number) => HeaderAnswer(inner.headerByNumber(number))
    case AccountAt(address) => AccountAnswer(inner.account(address))
  }

  datatype Setup = Setup(inner: Inner, keccak: Keccak, capacity: nat)

  /** One read against the caches; reads by hash of a block, and by number of a header, ask the wrapped provider first. */
  ghost predicate Reads(s: Setup, c: Caches, q: Query, a: Answer, c': Caches) {
    match q
    case BlockHashed(hash) =>
      var fetched := s.inner.blockByHash(hash);
      && a.BlockAnswer? && c' == c.(blocks := c'.blocks)
      && if fetched.Err? then a.block == fetched && c' == c
         else ReadThrough(c.blocks, s.capacity, fetched.value.header.number, fetched, a.block, c'.blocks)
    case BlockNumbered(number) =>
      && a.BlockAnswer? && c' == c.(blocks := c'.blocks)
      && ReadThrough(c.blocks, s.capacity, number, s.inner.blockByNumber(number), a.block, c'.blocks)
    case HeaderHashed(hash) =>
      && a.HeaderAnswer? && c' == c.(headers := c'.headers)
      && ReadThrough(c.headers, s.capacity, hash, s.inner.headerByHash(hash), a.header, c'.headers)
    case HeaderNumbered(number) =>
      var fetched := s.inner.headerByNumber(number);
      && a.HeaderAnswer? && c' == c.(headers := c'.headers)
      && if fetched.Err? then a.header == fetched && c' == c
         else ReadThrough(c.headers, s.capacity, HashHeader(s.keccak, fetched.value), fetched, a.header, c'.headers)
    case AccountAt(address) =>
      && a.AccountAnswer? && c' == c.(accounts := c'.accounts)
      && ReadThrough(c.accounts, s.capacity, address, s.inner.account(address), a.account, c'.accounts)
  }

  class CachedProvider {
    const setup: Setup
    var blockCache: map<u64, Block>
    var headerCache: map<B256, Header>
    var accountCache: map<Address, Account>

    function View(): Caches
      reads this
    {
      Caches(blockCache, headerCache, accountCache)
    }

    constructor (setup: Setup)
      ensures this.setup == setup && View() == Caches(map[], map[], map[])
    {
      this.setup := setup;
      blockCache, headerCache, accountCache := map[], map[], map[];
    }

    method GetBlockByHash(hash: B256) returns (r: Reply<Block>)
      modifies this
      ensures Reads(setup, old(View()), BlockHashed(hash), BlockAnswer(r), View())
    {
      hide Added;
      var block :- setup.inner.blockByHash(hash);
      if block.header.number in blockCache {
        return Ok(blockCache[block.header.number]);
      }
      blockCache := Add(blockCache, setup.capacity, block.header.number, block);
      return Ok(block);
    }

    method GetBlockByNumber(number: u64) returns (r: Reply<Block>)
      modifies this
      ensures Reads(setup, old(View()), BlockNumbered(number), BlockAnswer(r), View())
    {
      hide Added;
      if number in blockCache {
        return Ok(blockCache[number]);
      }
      var block :- setup.inner.blockByNumber(number);
      blockCache := Add(blockCache, setup.capacity, number, block);
      return Ok(block);
    }

    method GetHeaderByHash(hash: B256) returns (r: Reply<Header>)
      modifies this
      ensures Reads(setup, old(View()), HeaderHashed(hash), HeaderAnswer(r), View())
    {
      hide Added;
      if hash in headerCache {
        return Ok(headerCache[hash]);
      }
      var header :- setup.inner.headerByHash(hash);
      headerCache := Add(headerCache, setup.capacity, hash, header);
      return Ok(header);
    }

    method GetHeaderByNumber(number: u64) returns (r: Reply<Header>)
      modifies this
      ensures Reads(setup, old(View()), HeaderNumbered(number), HeaderAnswer(r), View())
    {
      hide Added, HashHeader;
      var header :- setup.inner.headerByNumber(number);
      var headerHash := HashHeader(setup.keccak, header);
      if headerHash in headerCache {
        return Ok(headerCache[headerHash]);
      }
      headerCache := Add(headerCache, setup.capacity, headerHash, header);
      return Ok(header);
    }

    method GetAccount(address: Address) returns (r: Reply<Account>)
      modifies this
      ensures Reads(setup, old(View()), AccountAt(address), AccountAnswer(r), View())
    {
      hide Added;
      if address in accountCache {
        return Ok(accountCache[address]);
      }
      var info :- setup.inner.account(address);
      accountCache := Add(accountCache, setup.capacity, address, info);
      return Ok(info);
    }
  }

  // ---------- Runs ----------

  ghost predicate Ran(s: Setup, qs: seq<Query>, answers: seq<Answer>, c: Caches)
    requires |qs| == |answers|
  {
    if qs == [] then c == Caches(map[], map[], map[])
    else
      var n := |qs| - 1;
      exists c0 :: Ran(s, qs[..n], answers[..n], c0) && Reads(s, c0, qs[n], answers[n], c)
  }

  ghost predicate Faithful(s: Setup, qs: seq<Query>, answers: seq<Answer>)
    requires |qs| == |answers|
  {
    forall i :: 0 <= i < |qs| ==> answers[i] == Truth(s.inner, qs[i])
  }

  /** By-hash and by-number lookups of the wrapped provider lead to the same block and the same header. */
  ghost predicate Agrees(s: Setup) {
    && (forall hash: B256 :: s.inner.blockByHash(hash).Ok? ==> SameBlock(s, s.inner.blockByHash(hash).value))
    && (forall number: u64 :: s.inner.headerByNumber(number).Ok? ==> SameHeader(s, s.inner.headerByNumber(number).value))
  }

  predicate SameBlock(s: Setup, block: Block) {
    s.inner.blockByNumber(block.header.number) == Ok(block)
  }

  predicate SameHeader(s: Setup, header: Header) {
    s.inner.headerByHash(HashHeader(s.keccak, header)) == Ok(header)
  }

  ghost predicate Mirrors<K(!new), V>(lookup: K -> Reply<V>, cache: map<K, V>) {
    forall k :: k in cache ==> lookup(k) == Ok(cache[k])
  }

  ghost predicate Coherent(s: Setup, c: Caches) {
    && Mirrors(s.inner.blockByNumber, c.blocks)
    && Mirrors(s.inner.headerByHash, c.headers)
    && Mirrors(s.inner.account, c.accounts)
  }

  predicate WithinCapacity(s: Setup, c: Caches) {
    |c.blocks| <= Limit(s.capacity) && |c.headers| <= Limit(s.capacity) && |c.accounts| <= Limit(s.capacity)
  }

  lemma {:induction false} ReadThroughMirrors<K(!new), V>(
      lookup: K -> Reply<V>, cache: map<K, V>, capacity: nat, key: K, answer: Reply<V>, cache': map<K, V>)
    requires ReadThrough(cache, capacity, key, lookup(key), answer, cache') && Mirrors(lookup, cache)
    ensures answer == lookup(key) && Mirrors(lookup, cache')
  {
  }

  lemma {:induction false} ReadCoherent(s: Setup, c: Caches, q: Query, a: Answer, c': Caches)
    requires Agrees(s) && Coherent(s, c) && Reads(s, c, q, a, c')
    ensures a == Truth(s.inner, q) && Coherent(s, c')
  {
    hide HashHeader, ReadThrough, Mirrors;
    match q {
      case BlockHashed(hash) =>
        if s.inner.blockByHash(hash).Ok? {
          var block := s.inner.blockByHash(hash).value;
          assert SameBlock(s, block);
          ReadThroughMirrors(s.inner.blockByNumber, c.blocks, s.capacity, block.header.number, a.block, c'.blocks);
        }
      case BlockNumbered(number) =>
        ReadThroughMirrors(s.inner.blockByNumber, c.blocks, s.capacity, number, a.block, c'.blocks);
      case HeaderHashed(hash) =>
        ReadThroughMirrors(s.inner.headerByHash, c.headers, s.capacity, hash, a.header, c'.headers);
      case HeaderNumbered(number) =>
        if s.inner.headerByNumber(number).Ok? {
          var header := s.inner.headerByNumber(number).value;
          assert SameHeader(s, header);
          var hash := HashHeader(s.keccak, header);
          ReadThroughMirrors(s.inner.headerByHash, c.headers, s.capacity, hash, a.header, c'.headers);
        }
      case AccountAt(address) =>
        ReadThroughMirrors(s.inner.account, c.accounts, s.capacity, address, a.account, c'.accounts);
    }
  }

  lemma {:induction false} ReadThroughBounded<K(!new), V>(
      cache: map<K, V>, capacity: nat, key: K, fetched: Reply<V>, answer: Reply<V>, cache': map<K, V>)
    requires ReadThrough(cache, capacity, key, fetched, answer, cache') && |cache| <= Limit(capacity)
    ensures |cache'| <= Limit(capacity)
  {
    if key !in cache && fetched.Ok? {
      AddedBounded(cache, capacity, key, fetched.value, cache');
    }
  }

  lemma {:induction false} ReadBounded(s: Setup, c: Caches, q: Query, a: Answer, c': Caches)
    requires WithinCapacity(s, c) && Reads(s, c, q, a, c')
    ensures WithinCapacity(s, c')
  {
    hide ReadThrough, HashHeader, Limit;
    match q {
      case BlockHashed(hash) =>
        var fetched := s.inner.blockByHash(hash);
        if fetched.Ok? {
          ReadThroughBounded(c.blocks, s.capacity, fetched.value.header.number, fetched, a.block, c'.blocks);
        }
      case BlockNumbered(number) =>
        ReadThroughBounded(c.blocks, s.capacity, number, s.inner.blockByNumber(number), a.block, c'.blocks);
      case HeaderHashed(hash) =>
        ReadThroughBounded(c.headers, s.capacity, hash, s.inner.headerByHash(hash), a.header, c'.headers);
      case HeaderNumbered(number) =>
        var fetched := s.inner.headerByNumber(number);
        if fetched.Ok? {
          ReadThroughBounded(c.headers, s.capacity, HashHeader(s.keccak, fetched.value), fetched, a.header, c'.headers);
        }
      case AccountAt(address) =>
        ReadThroughBounded(c.accounts, s.capacity, address, s.inner.account(address), a.account, c'.accounts);
    }
  }

  /** Whatever is read and whatever is evicted, no cache outgrows its capacity. */
  lemma {:induction false} RunBounded(s: Setup, qs: seq<Query>, answers: seq<Answer>, c: Caches)
    requires |qs| == |answers| && Ran(s, qs, answers, c)
    ensures WithinCapacity(s, c)
    decreases |qs|
  {
    if qs != [] {
      var n := |qs| - 1;
      var c0 :| Ran(s, qs[..n], answers[..n], c0) && Reads(s, c0, qs[n], answers[n], c);
      RunBounded(s, qs[..n], answers[..n], c0);
      ReadBounded(s, c0, qs[n], answers[n], c);
    }
  }

  lemma {:induction false} RunFaithful(s: Setup, qs: seq<Query>, answers: seq<Answer>, c: Caches)
    requires |qs| == |answers| && Agrees(s) && Ran(s, qs, answers, c)
    ensures Faithful(s, qs, answers) && Coherent(s, c)
    decreases |qs|
  {
    hide Agrees, Coherent, Reads, Truth;
    if qs == [] {
      EmptyCoherent(s);
    } else {
      var n := |qs| - 1;
      var c0 :| Ran(s, qs[..n], answers[..n], c0) && Reads(s, c0, qs[n], answers[n], c);
      RunFaithful(s, qs[..n], answers[..n], c0);
      ReadCoherent(s, c0, qs[n], answers[n], c);
      forall i | 0 <= i < |qs| ensures answers[i] == Truth(s.inner, qs[i]) {
        if i < n {
          assert answers[i] == answers[..n][i] && qs[i] == qs[..n][i];
        }
      }
    }
  }

  lemma {:induction false} EmptyCoherent(s: Setup)
    ensures Coherent(s, Caches(map[], map[], map[]))
  {
  }

  ghost predicate AlwaysFaithful(s: Setup) {
    forall qs, answers, c :: |qs| == |answers| && Ran(s, qs, answers, c) ==> Faithful(s, qs, answers)
  }

  /** Two reads, one after the other, from empty caches. */
  lemma {:induction false} TwoReads(s: Setup, q: Query, a: Answer, c: Caches, q': Query, a': Answer, c': Caches)
    requires Reads(s, Caches(map[], map[], map[]), q, a, c) && Reads(s, c, q', a', c')
    ensures Ran(s, [q, q'], [a, a'], c')
  {
    hide Reads;
    var none := Caches(map[], map[], map[]);
    assert [q, q'][..1] == [q] && [a, a'][..1] == [a];
    assert [q][..0] == [] && [a][..0] == [];
    assert Ran(s, [], [], none);
    assert Ran(s, [q], [a], c);
  }

  /** When the lookups disagree, reading one way and then the other gives the cached, wrong, answer. */
  lemma {:induction false} DisagreementShows(s: Setup)
    requires AlwaysFaithful(s)
    ensures Agrees(s)
  {
    hide HashHeader, Truth;
    forall hash: B256 | s.inner.blockByHash(hash).Ok? ensures SameBlock(s, s.inner.blockByHash(hash).value) {
      BlockDisagreement(s, hash, s.inner.blockByHash(hash).value);
    }
    forall number: u64 | s.inner.headerByNumber(number).Ok? ensures SameHeader(s, s.inner.headerByNumber(number).value) {
      HeaderDisagreement(s, number, s.inner.headerByNumber(number).value);
    }
  }

  lemma {:induction false} BlockDisagreement(s: Setup, hash: B256, block: Block)
    requires AlwaysFaithful(s) && s.inner.blockByHash(hash) == Ok(block)
    ensures SameBlock(s, block)
  {
    var c := Caches(map[block.header.number := block], map[], map[]);
    var q, q', a := BlockHashed(hash), BlockNumbered(block.header.number), BlockAnswer(Ok(block));
    TwoReads(s, q, a, c, q', a, c);
    assert Faithful(s, [q, q'], [a, a]);
    assert [a, a][1] == Truth(s.inner, [q, q'][1]);
  }

  lemma {:induction false} HeaderDisagreement(s: Setup, number: u64, header: Header)
    requires AlwaysFaithful(s) && s.inner.headerByNumber(number) == Ok(header)
    ensures SameHeader(s, header)
  {
    hide HashHeader;
    var hash := HashHeader(s.keccak, header);
    var c := Caches(map[], map[hash := header], map[]);
    var q, q', a := HeaderNumbered(number), HeaderHashed(hash), HeaderAnswer(Ok(header));
    TwoReads(s, q, a, c, q', a, c);
    assert Faithful(s, [q, q'], [a, a]);
    assert [a, a][1] == Truth(s.inner, [q, q'][1]);
  }

  /** The cache is transparent over every run and every choice of victims exactly when the two kinds of lookup agree. */
  lemma {:induction false} TransparentIff(s: Setup)
    ensures AlwaysFaithful(s) <==> Agrees(s)
  {
    hide Agrees, Ran, Faithful;
    if Agrees(s) {
      forall qs, answers, c | |qs| == |answers| && Ran(s, qs, answers, c) ensures Faithful(s, qs, answers) {
        RunFaithful(s, qs, answers, c);
      }
    }
    if AlwaysFaithful(s) {
      DisagreementShows(s);
    }
  }

  // ---------- In front of the in-memory provider ----------

  function InMemory(store: Store): Inner {
    Inner((hash: B256) => BlockByHash(store, hash), (number: u64) => BlockByNumber(store, number),
          (hash: B256) => HeaderOf(BlockByHash(store, hash)), (number: u64) => HeaderOf(BlockByNumber(store, number)),
          (a: Address) => if a in store.accounts then Ok(store.accounts[a]) else Err(AccountNotFound(a)))
  }

  function BlockByNumber(store: Store, number: u64): (r: Reply<Block>) {
    if number in store.blocks then Ok(store.blocks[number]) else Err(BlockNotFound(number))
  }

  function HeaderOf(block: Reply<Block>): Reply<Header> {
    var found :- block;
    Ok(found.header)
  }

  /** Blocks lie under their own number, and the hash index finds each of them. */
  ghost predicate WellIndexed(keccak: Keccak, store: Store) {
    forall n :: n in store.blocks ==>
      var h := store.blocks[n].header;
      h.number == n && HashHeader(keccak, h) in store.blocksByHash && store.blocksByHash[HashHeader(keccak, h)] == n
  }

  lemma {:induction false} WellIndexedAgrees(keccak: Keccak, store: Store, capacity: nat)
    requires WellIndexed(keccak, store)
    ensures Agrees(Setup(InMemory(store), keccak, capacity))
  {
    hide HashHeader;
    var s := Setup(InMemory(store), keccak, capacity);
    forall number: u64 | s.inner.headerByNumber(number).Ok? ensures SameHeader(s, s.inner.headerByNumber(number).value) {
      assert number in store.blocks;
    }
  }

  /** Inserting a block keeps the index whole, whether or not it replaces a block, unless two header hashes collide. */
  lemma {:induction false} InsertKeepsIndex(keccak: Keccak, store: Store, block: Block)
    requires WellIndexed(keccak, store)
    requires forall n :: n in store.blocks ==>
               HashHeader(keccak, store.blocks[n].header) != HashHeader(keccak, block.header) || n == block.header.number
    ensures WellIndexed(keccak, WithBlock(keccak, store, block))
  {
    hide HashHeader, Indexed;
  }

  /** Two blocks of different numbers whose header hashes collide: whichever is inserted last, the lookups disagree. */
  lemma {:induction false} CollisionDisagrees(keccak: Keccak, store: Store, a: Block, b: Block, capacity: nat)
    requires a.header.number != b.header.number && HashHeader(keccak, a.header) == HashHeader(keccak, b.header)
    ensures !Agrees(Setup(InMemory(WithBlock(keccak, WithBlock(keccak, store, a), b)), keccak, capacity))
  {
    hide HashHeader, Indexed;
    var s := Setup(InMemory(WithBlock(keccak, WithBlock(keccak, store, a), b)), keccak, capacity);
    assert s.inner.headerByNumber(a.header.number) == Ok(a.header);
    assert s.inner.headerByHash(HashHeader(keccak, a.header)) == Ok(b.header);
    assert !SameHeader(s, a.header);
  }

  /** The maps are public: a block filed under a number that is not its own makes the lookups disagree, for any hash. */
  lemma {:induction false} MisfiledDisagrees(keccak: Keccak, block: Block, number: u64, capacity: nat)
    requires number != block.header.number
    ensures var store := Store(map[number := block], map[HashHeader(keccak, block.header) := number], map[], map[]);
            !Agrees(Setup(InMemory(store), keccak, capacity))
  {
    hide HashHeader;
    var hash := HashHeader(keccak, block.header);
    var store := Store(map[number := block], map[hash := number], map[], map[]);
    var s := Setup(InMemory(store), keccak, capacity);
    assert s.inner.blockByHash(hash) == Ok(block);
    assert !SameBlock(s, block);
  }
}
