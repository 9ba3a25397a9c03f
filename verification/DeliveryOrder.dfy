/** Delivering the blocks of a valid chain in any order, with repeats and gaps. */
module DeliveryOrder {
  import opened Primitives
  import opened ChainTypes
  import opened Hashing
  import opened Provider
  import opened ProcessorSpec
  import opened ProcessorRuns

  /** In-order processing of the first k blocks. */
  function InOrder(env: Env, g: Genesis, blocks: seq<Block>, k: nat): State
    requires k <= |blocks|
  {
    if k == 0 then Initial(env, g) else Processed(env, InOrder(env, g, blocks, k - 1), blocks[k - 1])
  }

  /** A chain every block of which commits when processed in order. */
  predicate ValidChain(env: Env, g: Genesis, blocks: seq<Block>) {
    forall k :: 0 <= k < |blocks| ==>
      var s := InOrder(env, g, blocks, k); VerdictOn(env, s.store, s.head, blocks[k]).Committed?
  }

  predicate SameCore(s: State, t: State) {
    s.store == t.store && s.head == t.head && s.sharedHead == t.sharedHead && s.halted == t.halted
  }

  lemma {:induction false} ProcessedCore(env: Env, s: State, t: State, block: Block)
    requires SameCore(s, t)
    ensures SameCore(Processed(env, s, block), Processed(env, t, block))
  {
    hide VerdictOn, WithBlock, HeadAfter;
  }

  /** Block k of a valid chain has the k-th number after the genesis block. */
  lemma {:induction false} InOrderHead(env: Env, g: Genesis, blocks: seq<Block>, k: nat)
    requires ValidChain(env, g, blocks) && k <= |blocks|
    ensures InOrder(env, g, blocks, k).head.number == g.block.header.number + k
    ensures k < |blocks| ==> blocks[k].header.number == g.block.header.number + k + 1
    ensures !InOrder(env, g, blocks, k).halted
  {
    hide VerdictOn, Processed, WithBlock, HeadAfter, HashHeader;
    if k > 0 {
      InOrderHead(env, g, blocks, k - 1);
      ProcessedEffect(env, InOrder(env, g, blocks, k - 1), blocks[k - 1]);
    }
    if k < |blocks| {
      CommittedExtendsHead(env, InOrder(env, g, blocks, k), blocks[k]);
    }
  }

  /** The positions in the chain that were delivered. */
  function Positions(blocks: seq<Block>, ds: seq<Delivery>): set<nat> {
    if ds == [] then {}
    else
      var last := ds[|ds| - 1].0;
      Positions(blocks, ds[..|ds| - 1]) + set j: nat | j < |blocks| && blocks[j] == last
  }

  /** The longest fully delivered prefix. */
  function Reach(positions: set<nat>, n: nat, k: nat): (r: nat)
    requires k <= n
    ensures k <= r <= n
    ensures forall j :: k <= j < r ==> j in positions
    ensures r < n ==> r !in positions
    decreases n - k
  {
    if k < n && k in positions then Reach(positions, n, k + 1) else k
  }

  /** The buffer holds exactly the delivered blocks from position k on. */
  ghost predicate Buffers(pending: map<nat, PendingBlock>, blocks: seq<Block>, base: nat, positions: set<nat>, k: nat) {
    && (forall n :: n in pending <==> base + k <= n < base + |blocks| && n - base in positions)
    && (forall n :: n in pending ==> base <= n < base + |blocks| && pending[n].block == blocks[n - base])
  }

  ghost predicate Follows(env: Env, g: Genesis, blocks: seq<Block>, s: State, positions: set<nat>, k: nat) {
    && k <= |blocks|
    && SameCore(s, InOrder(env, g, blocks, k))
    && Buffers(s.pending, blocks, g.block.header.number + 1, positions, k)
  }

  lemma {:induction false} BuffersAt(
      pending: map<nat, PendingBlock>, blocks: seq<Block>, base: nat, positions: set<nat>, k: nat)
    requires Buffers(pending, blocks, base, positions, k)
    ensures base + k in pending <==> k < |blocks| && k in positions
    ensures base + k in pending ==> pending[base + k].block == blocks[k]
  {
  }

  lemma {:induction false} BuffersTake(
      pending: map<nat, PendingBlock>, blocks: seq<Block>, base: nat, positions: set<nat>, k: nat)
    requires Buffers(pending, blocks, base, positions, k)
    ensures Buffers(pending - {base + k}, blocks, base, positions, k + 1)
  {
  }

  lemma {:induction false} BuffersPut(
      pending: map<nat, PendingBlock>, blocks: seq<Block>, base: nat, positions: set<nat>, k: nat, j: nat, peerId: u64)
    requires Buffers(pending, blocks, base, positions, k) && k <= j < |blocks|
    ensures Buffers(pending[base + j := PendingBlock(blocks[j], peerId)], blocks, base, positions + {j}, k)
  {
  }

  /** Draining from position k commits the whole buffered run and stops at its end. */
  lemma {:induction false} DrainFollows(env: Env, g: Genesis, blocks: seq<Block>, s: State, positions: set<nat>, k: nat)
    requires ValidChain(env, g, blocks) && Follows(env, g, blocks, s, positions, k)
    requires forall j :: j in positions ==> j < |blocks|
    ensures var k' := Reach(positions, |blocks|, k);
            Follows(env, g, blocks, Drained(env, s, g.block.header.number + 1 + k), positions, k')
    decreases |s.pending|
  {
    hide VerdictOn, Processed, Buffers, ValidChain, PendingOk, InOrder;
    var base := g.block.header.number + 1;
    InOrderHead(env, g, blocks, k);
    BuffersAt(s.pending, blocks, base, positions, k);
    if base + k in s.pending {
      TakeFollows(env, g, blocks, s, positions, k);
      DrainFollows(env, g, blocks, Processed(env, s.(pending := s.pending - {base + k}), blocks[k]), positions, k + 1);
    }
  }

  lemma {:induction false} TakeFollows(env: Env, g: Genesis, blocks: seq<Block>, s: State, positions: set<nat>, k: nat)
    requires k < |blocks| && Follows(env, g, blocks, s, positions, k)
    ensures var taken := s.(pending := s.pending - {g.block.header.number + 1 + k});
            Follows(env, g, blocks, Processed(env, taken, blocks[k]), positions, k + 1)
  {
    hide VerdictOn, Processed, Buffers;
    var base := g.block.header.number + 1;
    BuffersTake(s.pending, blocks, base, positions, k);
    ProcessedCore(env, s.(pending := s.pending - {base + k}), InOrder(env, g, blocks, k), blocks[k]);
  }

  lemma {:induction false} DeliverFollows(
      env: Env, g: Genesis, blocks: seq<Block>, s: State, positions: set<nat>, k: nat, j: nat, peerId: u64)
    requires ValidChain(env, g, blocks) && Follows(env, g, blocks, s, positions, k)
    requires j < |blocks| && k == Reach(positions, |blocks|, 0) && forall i :: i in positions ==> i < |blocks|
    ensures var positions' := positions + {j};
            Follows(env, g, blocks, Handled(env, s, blocks[j], peerId), positions', Reach(positions', |blocks|, 0))
  {
    hide *;
    InOrderHead(env, g, blocks, k);
    InOrderHead(env, g, blocks, j);
    FollowsHead(env, g, blocks, s, positions, k);
    if j < k {
      StaleFollows(env, g, blocks, s, positions, k, j, peerId);
      assert positions + {j} == positions;
    } else {
      ReachGrows(positions, positions + {j}, |blocks|, 0);
      FreshFollows(env, g, blocks, s, positions, k, j, peerId);
    }
  }

  lemma {:induction false} FollowsHead(env: Env, g: Genesis, blocks: seq<Block>, s: State, positions: set<nat>, k: nat)
    requires Follows(env, g, blocks, s, positions, k)
    ensures k <= |blocks| && s.head == InOrder(env, g, blocks, k).head && s.halted == InOrder(env, g, blocks, k).halted
  {
    hide InOrder, Buffers;
  }

  lemma {:induction false} StaleFollows(
      env: Env, g: Genesis, blocks: seq<Block>, s: State, positions: set<nat>, k: nat, j: nat, peerId: u64)
    requires j < |blocks| && Follows(env, g, blocks, s, positions, k)
    requires blocks[j].header.number <= s.head.number
    ensures Follows(env, g, blocks, Handled(env, s, blocks[j], peerId), positions, k)
  {
    hide InOrder, Drained, Buffers;
  }

  lemma {:induction false} FreshFollows(
      env: Env, g: Genesis, blocks: seq<Block>, s: State, positions: set<nat>, k: nat, j: nat, peerId: u64)
    requires ValidChain(env, g, blocks) && k <= j < |blocks| && Follows(env, g, blocks, s, positions, k) && !s.halted
    requires blocks[j].header.number == g.block.header.number + 1 + j && s.head.number == g.block.header.number + k
    requires forall i :: i in positions ==> i < |blocks|
    ensures var positions' := positions + {j};
            Follows(env, g, blocks, Handled(env, s, blocks[j], peerId), positions', Reach(positions', |blocks|, k))
  {
    hide InOrder, Drained, Buffers, Reach, ValidChain;
    BuffersPut(s.pending, blocks, g.block.header.number + 1, positions, k, j, peerId);
    DrainFollows(env, g, blocks, Buffered(s, blocks[j], peerId), positions + {j}, k);
  }

  lemma {:induction false} ReachGrows(positions: set<nat>, positions': set<nat>, n: nat, k: nat)
    requires k <= n && positions <= positions'
    ensures Reach(positions', n, k) == Reach(positions', n, Reach(positions, n, k))
    decreases n - k
  {
    if k < n && k in positions {
      ReachGrows(positions, positions', n, k + 1);
    }
  }

  predicate FromChain(blocks: seq<Block>, ds: seq<Delivery>) {
    forall i :: 0 <= i < |ds| ==> ds[i].0 in blocks
  }

  /** Whatever the order, repeats and gaps: the processor has committed exactly the longest fully
      delivered prefix, and buffers exactly the delivered blocks beyond it. */
  lemma {:induction false} AnyOrder(env: Env, g: Genesis, blocks: seq<Block>, ds: seq<Delivery>)
    requires ValidChain(env, g, blocks) && FromChain(blocks, ds)
    ensures forall j :: j in Positions(blocks, ds) ==> j < |blocks|
    ensures var positions := Positions(blocks, ds);
            Follows(env, g, blocks, Ran(env, Initial(env, g), ds), positions, Reach(positions, |blocks|, 0))
  {
    hide VerdictOn, Processed, Handled, Reach, Follows, ValidChain, InOrder;
    if ds == [] {
      NothingDelivered(env, g, blocks);
    } else {
      var front, last := ds[..|ds| - 1], ds[|ds| - 1];
      AnyOrder(env, g, blocks, front);
      var positions := Positions(blocks, front);
      var j :| 0 <= j < |blocks| && blocks[j] == last.0;
      PositionsSnoc(env, g, blocks, ds, j);
      var s := Ran(env, Initial(env, g), front);
      DeliverFollows(env, g, blocks, s, positions, Reach(positions, |blocks|, 0), j, last.1);
    }
  }

  lemma {:induction false} NothingDelivered(env: Env, g: Genesis, blocks: seq<Block>)
    requires ValidChain(env, g, blocks)
    ensures Follows(env, g, blocks, Initial(env, g), {}, Reach({}, |blocks|, 0))
  {
    hide VerdictOn;
  }

  lemma {:induction false} PositionsSnoc(env: Env, g: Genesis, blocks: seq<Block>, ds: seq<Delivery>, j: nat)
    requires ValidChain(env, g, blocks) && ds != [] && j < |blocks| && blocks[j] == ds[|ds| - 1].0
    ensures Positions(blocks, ds) == Positions(blocks, ds[..|ds| - 1]) + {j}
  {
    hide VerdictOn, InOrder, ValidChain;
    OnlyPosition(env, g, blocks, j);
  }

  /** Blocks of a valid chain are pairwise different. */
  lemma {:induction false} OnlyPosition(env: Env, g: Genesis, blocks: seq<Block>, j: nat)
    requires ValidChain(env, g, blocks) && j < |blocks|
    ensures forall i :: 0 <= i < |blocks| && blocks[i] == blocks[j] ==> i == j
  {
    hide VerdictOn, InOrder;
    InOrderHead(env, g, blocks, j);
    forall i | 0 <= i < |blocks| && blocks[i] == blocks[j] ensures i == j {
      InOrderHead(env, g, blocks, i);
    }
  }

  /** Two deliveries of the same blocks end in the same store, heads and buffered blocks. */
  lemma {:induction false} OrderDoesNotMatter(
      env: Env, g: Genesis, blocks: seq<Block>, ds: seq<Delivery>, ds': seq<Delivery>)
    requires ValidChain(env, g, blocks) && FromChain(blocks, ds) && FromChain(blocks, ds')
    requires Positions(blocks, ds) == Positions(blocks, ds')
    ensures var s, s' := Ran(env, Initial(env, g), ds), Ran(env, Initial(env, g), ds');
            SameCore(s, s') && s.pending.Keys == s'.pending.Keys
  {
    hide InOrder, Ran;
    AnyOrder(env, g, blocks, ds);
    AnyOrder(env, g, blocks, ds');
    var s, s' := Ran(env, Initial(env, g), ds), Ran(env, Initial(env, g), ds');
    assert forall n :: n in s.pending <==> n in s'.pending;
  }
}
