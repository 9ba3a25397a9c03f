/** What holds between messages in every run of the block processor. */
module ProcessorRuns {
  import opened Primitives
  import opened ChainTypes
  import opened Ledger
  import opened Hashing
  import opened Execution
  import opened Provider
  import opened Pipeline
  import opened ProcessorSpec

  // ---------- What a drain removes and what it commits ----------

  function Taken(pending: map<nat, PendingBlock>, next: nat): seq<Block>
    decreases |pending|
  {
    if next !in pending then [] else [pending[next].block] + Taken(pending - {next}, next + 1)
  }

  function DrainCommits(env: Env, s: State, next: nat): seq<Block>
    decreases |s.pending|
  {
    if s.halted || next !in s.pending then []
    else
      var taken, block := s.(pending := s.pending - {next}), s.pending[next].block;
      CommitOf(env, s, block) + DrainCommits(env, Processed(env, taken, block), next + 1)
  }

  function CommitOf(env: Env, s: State, block: Block): seq<Block> {
    if VerdictOn(env, s.store, s.head, block).Committed? then [block] else []
  }

  function HandleCommits(env: Env, s: State, block: Block, peerId: u64): seq<Block> {
    if s.halted || block.header.number <= s.head.number then []
    else DrainCommits(env, Buffered(s, block, peerId), s.head.number + 1)
  }

  /** The state with a new block counted and buffered, just before the drain. */
  function Buffered(s: State, block: Block, peerId: u64): State {
    s.(metrics := s.metrics.(received := WrapAdd(s.metrics.received, 1)),
       pending := s.pending[block.header.number := PendingBlock(block, peerId)])
  }

  /** The genesis block followed by every block the run committed, in order. */
  function Chain(env: Env, g: Genesis, ds: seq<Delivery>): (chain: seq<Block>)
    ensures chain != [] && chain[0] == g.block
  {
    if ds == [] then [g.block]
    else
      var front, last := ds[..|ds| - 1], ds[|ds| - 1];
      Chain(env, g, front) + HandleCommits(env, Ran(env, Initial(env, g), front), last.0, last.1)
  }

  lemma {:induction false} CommittedExtendsHead(env: Env, s: State, block: Block)
    requires var v := VerdictOn(env, s.store, s.head, block); v.Committed? || v.Halted?
    ensures block.header.number == s.head.number + 1
  {
    hide PipelineResult, Senders;
  }

  /** Processing a block advances the head by one and stores it, or changes nothing but counters, or panics. */
  lemma {:induction false} ProcessedEffect(env: Env, s: State, block: Block)
    ensures var s', v := Processed(env, s, block), VerdictOn(env, s.store, s.head, block);
            if v.Committed? then
              && s'.head.number == block.header.number == s.head.number + 1
              && s'.head == HeadAfter(env, s.head, block)
              && s'.store == WithBlock(env.keccak, s.store.(accounts := v.execution.accounts), block)
              && s'.sharedHead == s'.head && s'.halted == s.halted
            else
              && s'.head == s.head && s'.store == s.store && s'.sharedHead == s.sharedHead
              && (s'.halted <==> s.halted || v.Halted?)
  {
    if VerdictOn(env, s.store, s.head, block).Committed? {
      CommittedExtendsHead(env, s, block);
    }
    hide VerdictOn, WithBlock, HashHeader;
  }

  // ---------- The buffer between messages ----------

  /** The next number is not buffered, and everything buffered is beyond it. */
  predicate Settled(s: State) {
    && PendingOk(s.pending)
    && s.head.number + 1 !in s.pending
    && forall n :: n in s.pending ==> n > s.head.number
  }

  lemma {:induction false} DrainSettles(env: Env, s: State, next: nat)
    requires PendingOk(s.pending) && s.head.number < next
    requires (forall n :: n in s.pending ==> n >= next) && (s.halted ==> s.head.number + 1 !in s.pending)
    ensures Settled(Drained(env, s, next))
    ensures s.head.number <= Drained(env, s, next).head.number
    decreases |s.pending|
  {
    hide VerdictOn, Processed, WithBlock, HeadAfter, HashHeader;
    if !s.halted && next in s.pending {
      var taken, block := s.(pending := s.pending - {next}), s.pending[next].block;
      ProcessedEffect(env, taken, block);
      if Processed(env, taken, block).halted {
        CommittedExtendsHead(env, taken, block);
      }
      DrainSettles(env, Processed(env, taken, block), next + 1);
    }
  }

  lemma {:induction false} HandleSettles(env: Env, s: State, block: Block, peerId: u64)
    requires Settled(s)
    ensures Settled(Handled(env, s, block, peerId))
    ensures s.head.number <= Handled(env, s, block, peerId).head.number
  {
    hide Drained;
    if !s.halted && block.header.number > s.head.number {
      DrainSettles(env, Buffered(s, block, peerId), s.head.number + 1);
    }
  }

  /** After every run: nothing is waiting at the next number, so a further drain does nothing. */
  lemma {:induction false} RunSettles(env: Env, g: Genesis, ds: seq<Delivery>)
    ensures var s := Ran(env, Initial(env, g), ds);
            Settled(s) && Drained(env, s, s.head.number + 1) == s
  {
    hide Handled;
    if ds != [] {
      var front := ds[..|ds| - 1];
      RunSettles(env, g, front);
      HandleSettles(env, Ran(env, Initial(env, g), front), ds[|ds| - 1].0, ds[|ds| - 1].1);
    }
  }

  lemma {:induction false} DrainedWasPending(env: Env, s: State, next: nat, n: nat)
    requires n in Drained(env, s, next).pending
    ensures n in s.pending && s.pending[n] == Drained(env, s, next).pending[n]
    decreases |s.pending|
  {
    hide VerdictOn, Processed;
    if !s.halted && next in s.pending {
      DrainedWasPending(env, Processed(env, s.(pending := s.pending - {next}), s.pending[next].block), next + 1, n);
    }
  }

  /** A block replaces the one pending under its number. */
  lemma {:induction false} HandledPending(env: Env, s: State, block: Block, peerId: u64, n: nat)
    requires Settled(s) && n in Handled(env, s, block, peerId).pending
    ensures n in s.pending || (!s.halted && block.header.number == n)
    ensures Handled(env, s, block, peerId).pending[n]
            == if !s.halted && block.header.number == n then PendingBlock(block, peerId) else s.pending[n]
  {
    hide Drained;
    if !s.halted && block.header.number > s.head.number {
      DrainedWasPending(env, Buffered(s, block, peerId), s.head.number + 1, n);
    }
  }

  /** What is pending under a number was delivered last with that number, unless the processor had halted by then. */
  lemma {:induction false} PendingIsLatest(env: Env, g: Genesis, ds: seq<Delivery>, n: nat) returns (i: nat)
    requires n in Ran(env, Initial(env, g), ds).pending
    ensures i < |ds| && ds[i].0.header.number == n
    ensures Ran(env, Initial(env, g), ds).pending[n] == PendingBlock(ds[i].0, ds[i].1)
    ensures forall j :: i < j < |ds| && ds[j].0.header.number == n ==> Ran(env, Initial(env, g), ds[..j]).halted
  {
    hide Handled, WithBlock, Settled, HashHeader, Drained;
    var front, last := ds[..|ds| - 1], ds[|ds| - 1];
    var s := Ran(env, Initial(env, g), front);
    RunSettles(env, g, front);
    HandledPending(env, s, last.0, last.1, n);
    if !s.halted && last.0.header.number == n {
      i := |ds| - 1;
    } else {
      i := PendingIsLatest(env, g, front, n);
      assert forall j :: 0 <= j < |front| ==> ds[..j] == front[..j];
    }
  }

  /** Once a block was refused, the rest of the removed run cannot be committed. */
  lemma {:induction false} NothingCommitsBeyondGap(env: Env, s: State, next: nat)
    requires PendingOk(s.pending) && s.head.number + 1 < next
    ensures DrainCommits(env, s, next) == []
    decreases |s.pending|
  {
    hide VerdictOn, Processed;
    if !s.halted && next in s.pending {
      var taken, block := s.(pending := s.pending - {next}), s.pending[next].block;
      ProcessedEffect(env, taken, block);
      NothingCommitsBeyondGap(env, Processed(env, taken, block), next + 1);
    }
  }

  /** One drain commits exactly a prefix of the consecutive run it removes. */
  lemma {:induction false} DrainCommitsPrefix(env: Env, s: State, next: nat)
    requires PendingOk(s.pending) && next == s.head.number + 1
    ensures DrainCommits(env, s, next) <= Taken(s.pending, next)
    decreases |s.pending|
  {
    hide VerdictOn, Processed, WithBlock, HeadAfter, HashHeader;
    if !s.halted && next in s.pending {
      var taken, block := s.(pending := s.pending - {next}), s.pending[next].block;
      var after := Processed(env, taken, block);
      ProcessedEffect(env, taken, block);
      if VerdictOn(env, s.store, s.head, block).Committed? {
        DrainCommitsPrefix(env, after, next + 1);
      } else {
        NothingCommitsBeyondGap(env, after, next + 1);
      }
    }
  }

  // ---------- Replay ----------

  predicate AllNameRecipients(blocks: seq<Block>) {
    forall i :: 0 <= i < |blocks| ==> NamesRecipients(blocks[i])
  }

  /** Executing blocks one after the other, with senders recovered from the signatures. */
  function Replayed(env: Env, accounts: Accounts, blocks: seq<Block>): (r: Option<Accounts>) {
    if blocks == [] then Some(accounts)
    else
      var last := blocks[|blocks| - 1];
      var before := Replayed(env, accounts, blocks[..|blocks| - 1]);
      var senders := Senders(env, last.transactions);
      if before.None? || senders.None? then None
      else
        var e := Executed(env.keccak, before.value, BlockWithSenders(last, senders.value));
        if e.Ok? then Some(e.value.accounts) else None
  }

  // ---------- The chain invariant ----------

  predicate Linked(env: Env, chain: seq<Block>) {
    forall i :: 1 <= i < |chain| ==>
      && chain[i].header.parentHash == HashHeader(env.keccak, chain[i - 1].header)
      && chain[i - 1].header.timestamp < chain[i].header.timestamp
  }

  /** The stored blocks are the chain, each under its number, and nothing else. */
  predicate StoresChain(store: Store, chain: seq<Block>, first: nat) {
    && (forall i :: 0 <= i < |chain| ==> chain[i].header.number == first + i)
    && (forall i :: 0 <= i < |chain| ==>
          var n := chain[i].header.number; n in store.blocks && store.blocks[n] == chain[i])
    && (forall n :: n in store.blocks ==> first <= n < first + |chain|)
  }

  predicate HeadNames(env: Env, s: State, block: Block) {
    && s.head.number == block.header.number
    && s.head.hash == HashHeader(env.keccak, block.header)
    && s.head.hash in s.store.blocksByHash
    && s.store.blocksByHash[s.head.hash] == block.header.number
    && s.sharedHead == s.head
  }

  /** Header hashes to numbers, a later block overwriting an earlier one of the same hash. */
  function HashIndex(keccak: Keccak, chain: seq<Block>): map<B256, u64> {
    if chain == [] then map[]
    else
      var last := chain[|chain| - 1];
      HashIndex(keccak, chain[..|chain| - 1])[HashHeader(keccak, last.header) := last.header.number]
  }

  predicate ChainInv(env: Env, g: Genesis, s: State, chain: seq<Block>) {
    && chain != [] && chain[0] == g.block
    && StoresChain(s.store, chain, g.block.header.number)
    && s.store.blocksByHash == HashIndex(env.keccak, chain)
    && Linked(env, chain)
    && HeadNames(env, s, chain[|chain| - 1])
    && AllNameRecipients(chain[1..])
    && Replayed(env, g.accounts, chain[1..]) == Some(s.store.accounts)
  }

  /** A committed block's parent is the last block of the chain, found under its real hash; no
      assumption on the hash function is needed. */
  lemma {:induction false} CommitFacts(env: Env, s: State, block: Block, chain: seq<Block>, first: nat)
    requires VerdictOn(env, s.store, s.head, block).Committed?
    requires chain != [] && StoresChain(s.store, chain, first) && s.head.number == first + |chain| - 1
    ensures var parent := chain[|chain| - 1];
            && block.header.number == first + |chain|
            && block.header.parentHash == HashHeader(env.keccak, parent.header)
            && parent.header.timestamp < block.header.timestamp
    ensures var senders := Senders(env, block.transactions);
            && senders.Some?
            && Executed(env.keccak, s.store.accounts, BlockWithSenders(block, senders.value))
               == Ok(VerdictOn(env, s.store, s.head, block).execution)
    ensures NamesRecipients(block)
  {
    hide HashHeader, Executed, Senders;
    var parent := BlockByHash(s.store, block.header.parentHash).value;
    var number := s.store.blocksByHash[block.header.parentHash];
    assert parent == s.store.blocks[number] == chain[number - first];
    ExecutedNamesAll(env, s.store.accounts, BlockWithSenders(block, Senders(env, block.transactions).value));
  }

  lemma {:induction false} ExecutedNamesAll(env: Env, accounts: Accounts, b: BlockWithSenders)
    requires |b.senders| == |b.block.transactions| && Executed(env.keccak, accounts, b).Ok?
    ensures NamesRecipients(b.block)
  {
    hide Folded;
    ExecutedNames(env.keccak, accounts, b, PairCount(b));
  }

  /** What a block must satisfy to reach execution on top of a chain. */
  predicate Executable(env: Env, s: State, parent: Block, block: Block) {
    && block.header.parentHash == s.head.hash && block.header.number == s.head.number + 1
    && parent.header.timestamp < block.header.timestamp
    && block.header.gasUsed <= block.header.gasLimit && |block.transactions| <= 100
    && Senders(env, block.transactions).Some?
  }

  /** What a block must satisfy to be committed on top of a chain, in terms of the head alone. */
  predicate Acceptable(env: Env, s: State, parent: Block, block: Block) {
    && Executable(env, s, parent, block)
    && Executed(env.keccak, s.store.accounts, BlockWithSenders(block, Senders(env, block.transactions).value)).Ok?
  }

  /** In every reachable state a block commits if and only if it is acceptable on the head. */
  lemma {:induction false} CommitsIff(env: Env, g: Genesis, s: State, chain: seq<Block>, block: Block)
    requires ChainInv(env, g, s, chain)
    ensures VerdictOn(env, s.store, s.head, block).Committed? <==> Acceptable(env, s, chain[|chain| - 1], block)
  {
    hide HashHeader, Executed, Senders, Linked, Replayed;
    assert BlockByHash(s.store, s.head.hash) == Ok(chain[|chain| - 1]);
    if VerdictOn(env, s.store, s.head, block).Committed? {
      CommitFacts(env, s, block, chain, g.block.header.number);
    }
  }

  /**
   * In every reachable state a block halts the processor if and only if it reaches execution there and some
   * transaction without recipient could be paid for after every transaction before it went through.
   */
  lemma {:induction false} HaltsIff(env: Env, g: Genesis, s: State, chain: seq<Block>, block: Block)
    requires ChainInv(env, g, s, chain)
    ensures VerdictOn(env, s.store, s.head, block).Halted? <==>
            && Executable(env, s, chain[|chain| - 1], block)
            && var b := BlockWithSenders(block, Senders(env, block.transactions).value);
               exists i :: 0 <= i < PairCount(b) && BreaksAt(env.keccak, s.store.accounts, b, i, CreationReached)
    ensures VerdictOn(env, s.store, s.head, block).Halted? ==> !NamesRecipients(block)
  {
    hide HashHeader, Folded, Senders, Linked, Replayed, BreaksAt;
    var first := g.block.header.number;
    assert BlockByHash(s.store, s.head.hash) == Ok(chain[|chain| - 1]);
    var parent := BlockByHash(s.store, block.header.parentHash);
    if parent.Ok? {
      var number := s.store.blocksByHash[block.header.parentHash];
      assert parent.value == s.store.blocks[number] == chain[number - first];
    }
    if Senders(env, block.transactions).Some? {
      var b := BlockWithSenders(block, Senders(env, block.transactions).value);
      ExecutionFailsIff(env.keccak, s.store.accounts, b, PairCount(b), CreationReached);
      ExecutedNames(env.keccak, s.store.accounts, b, PairCount(b));
    }
  }

  lemma {:induction false} StoreExtends(
      env: Env, store: Store, accounts: Accounts, block: Block, chain: seq<Block>, first: nat)
    requires StoresChain(store, chain, first) && block.header.number == first + |chain|
    ensures StoresChain(WithBlock(env.keccak, store.(accounts := accounts), block), chain + [block], first)
  {
    hide HashHeader, Indexed;
  }

  lemma {:induction false} IndexExtends(env: Env, store: Store, accounts: Accounts, block: Block, chain: seq<Block>)
    requires store.blocksByHash == HashIndex(env.keccak, chain)
    ensures WithBlock(env.keccak, store.(accounts := accounts), block).blocksByHash
            == HashIndex(env.keccak, chain + [block])
  {
    hide HashHeader, Indexed;
    assert (chain + [block])[..|chain|] == chain;
  }

  lemma {:induction false} ReplayExtends(
      env: Env, accounts: Accounts, blocks: seq<Block>, block: Block, before: Accounts, e: Execution)
    requires Replayed(env, accounts, blocks) == Some(before) && Senders(env, block.transactions).Some?
    requires Executed(env.keccak, before, BlockWithSenders(block, Senders(env, block.transactions).value)) == Ok(e)
    ensures Replayed(env, accounts, blocks + [block]) == Some(e.accounts)
  {
    hide Executed, Senders;
    assert (blocks + [block])[..|blocks|] == blocks;
  }

  lemma {:induction false} NamesExtend(chain: seq<Block>, block: Block)
    requires chain != [] && AllNameRecipients(chain[1..]) && NamesRecipients(block)
    ensures AllNameRecipients((chain + [block])[1..])
  {
    hide NamesRecipients;
    assert (chain + [block])[1..] == chain[1..] + [block];
  }

  lemma {:induction false} LinksExtend(env: Env, chain: seq<Block>, block: Block)
    requires Linked(env, chain) && chain != []
    requires block.header.parentHash == HashHeader(env.keccak, chain[|chain| - 1].header)
    requires chain[|chain| - 1].header.timestamp < block.header.timestamp
    ensures Linked(env, chain + [block])
  {
    hide HashHeader;
  }

  lemma {:induction false} CommitNamesHead(env: Env, s: State, s': State, block: Block, accounts: Accounts)
    requires s'.head == HeadAfter(env, s.head, block) && s'.sharedHead == s'.head
    requires s'.store == WithBlock(env.keccak, s.store.(accounts := accounts), block)
    ensures HeadNames(env, s', block) && s'.store.accounts == accounts
  {
    hide HashHeader, Indexed;
  }

  lemma {:induction false} ProcessKeepsChain(env: Env, g: Genesis, s: State, block: Block, chain: seq<Block>)
    requires ChainInv(env, g, s, chain)
    ensures ChainInv(env, g, Processed(env, s, block), chain + CommitOf(env, s, block))
  {
    var first := g.block.header.number;
    ProcessedEffect(env, s, block);
    var s', v := Processed(env, s, block), VerdictOn(env, s.store, s.head, block);
    if v.Committed? {
      CommitFacts(env, s, block, chain, first);
      hide VerdictOn, Processed, HashHeader, Executed, Senders, WithBlock, Replayed, Linked, StoresChain;
      hide AllNameRecipients, HashIndex;
      StoreExtends(env, s.store, v.execution.accounts, block, chain, first);
      IndexExtends(env, s.store, v.execution.accounts, block, chain);
      CommitNamesHead(env, s, s', block, v.execution.accounts);
      LinksExtend(env, chain, block);
      ReplayExtends(env, g.accounts, chain[1..], block, s.store.accounts, v.execution);
      NamesExtend(chain, block);
      assert (chain + [block])[1..] == chain[1..] + [block];
    } else {
      hide VerdictOn, Processed;
      ChainIgnoresPending(env, g, s, s', chain);
      assert chain + [] == chain;
    }
  }

  lemma {:induction false} DrainKeepsChain(env: Env, g: Genesis, s: State, next: nat, chain: seq<Block>)
    requires ChainInv(env, g, s, chain)
    ensures ChainInv(env, g, Drained(env, s, next), chain + DrainCommits(env, s, next))
    decreases |s.pending|
  {
    hide ChainInv, Processed, CommitOf;
    if !s.halted && next in s.pending {
      var taken, block := s.(pending := s.pending - {next}), s.pending[next].block;
      ChainIgnoresPending(env, g, s, taken, chain);
      ProcessKeepsChain(env, g, taken, block, chain);
      SameCommit(env, s, taken, block);
      var after := Processed(env, taken, block);
      DrainKeepsChain(env, g, after, next + 1, chain + CommitOf(env, s, block));
      assert (chain + CommitOf(env, s, block)) + DrainCommits(env, after, next + 1) == chain + DrainCommits(env, s, next);
    } else {
      assert chain + [] == chain;
    }
  }

  lemma {:induction false} ChainIgnoresPending(env: Env, g: Genesis, s: State, s': State, chain: seq<Block>)
    requires ChainInv(env, g, s, chain)
    requires s'.store == s.store && s'.head == s.head && s'.sharedHead == s.sharedHead
    ensures ChainInv(env, g, s', chain)
  {
    hide StoresChain, Linked, Replayed, HashHeader;
  }

  lemma {:induction false} SameCommit(env: Env, s: State, s': State, block: Block)
    requires s'.store == s.store && s'.head == s.head
    ensures CommitOf(env, s, block) == CommitOf(env, s', block)
  {
    hide VerdictOn;
  }

  lemma {:induction false} HandleKeepsChain(env: Env, g: Genesis, s: State, block: Block, peerId: u64, chain: seq<Block>)
    requires ChainInv(env, g, s, chain)
    ensures ChainInv(env, g, Handled(env, s, block, peerId), chain + HandleCommits(env, s, block, peerId))
  {
    hide ChainInv, Drained, DrainCommits;
    if s.halted || block.header.number <= s.head.number {
      ChainIgnoresPending(env, g, s, Handled(env, s, block, peerId), chain);
      assert chain + [] == chain;
    } else {
      ChainIgnoresPending(env, g, s, Buffered(s, block, peerId), chain);
      DrainKeepsChain(env, g, Buffered(s, block, peerId), s.head.number + 1, chain);
    }
  }

  lemma {:induction false} InitialChain(env: Env, g: Genesis)
    ensures ChainInv(env, g, Initial(env, g), [g.block])
  {
    hide HashHeader, Indexed;
    IndexExtends(env, Store(map[], map[], map[], g.accounts), g.accounts, g.block, []);
    assert [] + [g.block] == [g.block];
  }

  /** In every reachable state the store, the heads and the accounts describe one linked chain:
      the genesis block and the blocks committed so far, replayed over the genesis accounts. */
  lemma {:induction false} RunKeepsChain(env: Env, g: Genesis, ds: seq<Delivery>)
    ensures ChainInv(env, g, Ran(env, Initial(env, g), ds), Chain(env, g, ds))
  {
    hide ChainInv, Handled, HandleCommits;
    if ds == [] {
      InitialChain(env, g);
    } else {
      var front, last := ds[..|ds| - 1], ds[|ds| - 1];
      RunKeepsChain(env, g, front);
      HandleKeepsChain(env, g, Ran(env, Initial(env, g), front), last.0, last.1, Chain(env, g, front));
    }
  }
}
