/** Block accounting, counters and total difficulty over every run. */
module ProcessorAccounting {
  import opened Primitives
  import opened ChainTypes
  import opened Hashing
  import opened Execution
  import opened Provider
  import opened ProcessorSpec
  import opened ProcessorRuns
  import opened Verdicts

  /** Unbounded counts of what happened, including three events the metrics do not record: buffered blocks replaced by a
      later one with the same number, blocks whose senders could not be recovered, and a block that halts the
      processor. */
  datatype Tally = Tally(
    received: nat, committed: nat, validation: nat, execution: nat, unrecovered: nat, replaced: nat, halting: nat,
    transactions: nat, gas: nat)

  const NOTHING := Tally(0, 0, 0, 0, 0, 0, 0, 0, 0)

  function Tallied(t: Tally, j: Judgement, block: Block): Tally {
    match j
    case Accepted =>
      t.(committed := t.committed + 1, transactions := t.transactions + |block.transactions|,
         gas := t.gas + GasLimits(block.transactions))
    case Invalid => t.(validation := t.validation + 1)
    case Failed => t.(execution := t.execution + 1)
    case Unrecovered => t.(unrecovered := t.unrecovered + 1)
    case Creating => t.(halting := t.halting + 1)
  }

  /** Each block taken is judged on the last block committed before it. */
  ghost function DrainTally(env: Env, s: State, next: nat, last: Block, t: Tally): Tally
    decreases |s.pending|
  {
    if s.halted || next !in s.pending then t
    else
      var taken, block := s.(pending := s.pending - {next}), s.pending[next].block;
      var j := Judged(env, s.store.accounts, last, block);
      DrainTally(env, Processed(env, taken, block), next + 1, if j.Accepted? then block else last, Tallied(t, j, block))
  }

  /** Receiving a block that is not stale counts it, and counts the one it displaces. */
  function BufferedTally(s: State, block: Block, t: Tally): Tally {
    t.(received := t.received + 1, replaced := t.replaced + if block.header.number in s.pending then 1 else 0)
  }

  ghost function HandleTally(env: Env, s: State, block: Block, peerId: u64, last: Block, t: Tally): Tally {
    if s.halted then t
    else if block.header.number <= last.header.number then t.(received := t.received + 1, validation := t.validation + 1)
    else DrainTally(env, Buffered(s, block, peerId), last.header.number + 1, last, BufferedTally(s, block, t))
  }

  ghost function RunTally(env: Env, g: Genesis, ds: seq<Delivery>): Tally {
    if ds == [] then NOTHING
    else
      var front, last := ds[..|ds| - 1], ds[|ds| - 1];
      var s, tip := Ran(env, Initial(env, g), front), Last(Chain(env, g, front));
      HandleTally(env, s, last.0, last.1, tip, RunTally(env, g, front))
  }

  function Last(chain: seq<Block>): Block
    requires chain != []
  {
    chain[|chain| - 1]
  }

  function TransactionCount(blocks: seq<Block>): nat {
    if blocks == [] then 0 else TransactionCount(blocks[..|blocks| - 1]) + |blocks[|blocks| - 1].transactions|
  }

  function TotalGas(blocks: seq<Block>): nat {
    if blocks == [] then 0 else TotalGas(blocks[..|blocks| - 1]) + GasLimits(blocks[|blocks| - 1].transactions)
  }

  predicate Balanced(t: Tally, buffered: nat) {
    t.received == t.committed + t.validation + t.execution + t.unrecovered + t.replaced + t.halting + buffered
  }

  /** The atomic counters are the counts modulo 2^64. */
  predicate Metered(m: Metrics, t: Tally) {
    && m.received == t.received % U64_LIMIT
    && m.committed == t.committed % U64_LIMIT
    && m.rejectedValidation == t.validation % U64_LIMIT
    && m.rejectedExecution == t.execution % U64_LIMIT
    && m.transactions == t.transactions % U64_LIMIT
    && m.gas == t.gas % U64_LIMIT
  }

  predicate CountsChain(t: Tally, committed: seq<Block>) {
    t.committed == |committed| && t.transactions == TransactionCount(committed) && t.gas == TotalGas(committed)
  }

  predicate AccountsFor(t: Tally, s: State, committed: seq<Block>) {
    && Balanced(t, |s.pending|) && Metered(s.metrics, t) && CountsChain(t, committed)
    && t.halting == if s.halted then 1 else 0
  }

  lemma {:induction false} WrapAddMod(n: nat, k: nat)
    ensures WrapAdd(n % U64_LIMIT, k) == (n + k) % U64_LIMIT
  {
    var sum := n % U64_LIMIT + k;
    Remainder(n + k, n / U64_LIMIT + sum / U64_LIMIT, sum % U64_LIMIT);
  }

  lemma {:induction false} Remainder(a: nat, q: nat, r: nat)
    requires a == U64_LIMIT * q + r && r < U64_LIMIT
    ensures a % U64_LIMIT == r
  {
  }

  /** A committed block yields one receipt per transaction, and uses the sum of their gas limits. */
  lemma {:induction false} CommittedReceipts(env: Env, s: State, block: Block)
    requires VerdictOn(env, s.store, s.head, block).Committed?
    ensures var e := VerdictOn(env, s.store, s.head, block).execution;
            |e.receipts| == |block.transactions| && e.gasUsed == GasLimits(block.transactions)
  {
    hide Folded, ReceiptFor;
    var b := BlockWithSenders(block, Senders(env, block.transactions).value);
    ReceiptsAccount(env.keccak, s.store.accounts, b, PairCount(b));
    assert block.transactions[..|block.transactions|] == block.transactions;
  }

  lemma {:induction false} ProcessMeters(env: Env, g: Genesis, s: State, block: Block, t: Tally, chain: seq<Block>)
    requires ChainInv(env, g, s, chain) && Metered(s.metrics, t)
    ensures var j := Judged(env, s.store.accounts, Last(chain), block);
            Metered(Processed(env, s, block).metrics, Tallied(t, j, block))
  {
    hide VerdictOn, WithBlock, HeadAfter, WrapAdd, ChainInv, Judged, GasLimits;
    VerdictIsJudgement(env, g, s, chain, block);
    NotEmpty(env, g, s, chain);
    var v := VerdictOn(env, s.store, s.head, block);
    if v.Committed? {
      CommittedReceipts(env, s, block);
      WrapAddMod(t.transactions, |v.execution.receipts|);
      WrapAddMod(t.gas, v.execution.gasUsed);
    }
    WrapAddMod(t.committed, 1);
    WrapAddMod(t.validation, 1);
    WrapAddMod(t.execution, 1);
  }

  lemma {:induction false} TalliedCounts(t: Tally, j: Judgement, block: Block, committed: seq<Block>)
    requires CountsChain(t, committed)
    ensures CountsChain(Tallied(t, j, block), committed + if j.Accepted? then [block] else [])
  {
    if j.Accepted? {
      assert (committed + [block])[..|committed|] == committed;
    } else {
      assert committed + [] == committed;
    }
  }

  /** One block taken from the buffer: judged, counted and, if accepted, at the end of the chain. */
  lemma {:induction false} TakeAccounts(env: Env, g: Genesis, s: State, next: nat, t: Tally, chain: seq<Block>)
    requires ChainInv(env, g, s, chain) && AccountsFor(t, s, chain[1..]) && !s.halted && next in s.pending
    ensures var taken, block := s.(pending := s.pending - {next}), s.pending[next].block;
            var j := Judged(env, s.store.accounts, Last(chain), block);
            var after, chain' := Processed(env, taken, block), chain + CommitOf(env, s, block);
            && ChainInv(env, g, after, chain') && AccountsFor(Tallied(t, j, block), after, chain'[1..])
            && Last(chain') == if j.Accepted? then block else Last(chain)
  {
    hide VerdictOn, Processed, Metered, CountsChain, ChainInv, Judged;
    var taken, block := s.(pending := s.pending - {next}), s.pending[next].block;
    ChainIgnoresPending(env, g, s, taken, chain);
    ProcessKeepsChain(env, g, taken, block, chain);
    ProcessedEffect(env, taken, block);
    ProcessMeters(env, g, taken, block, t, chain);
    VerdictIsJudgement(env, g, s, chain, block);
    NotEmpty(env, g, s, chain);
    var j, commit := Judged(env, s.store.accounts, Last(chain), block), CommitOf(env, s, block);
    TalliedCounts(t, j, block, chain[1..]);
    assert (chain + commit)[1..] == chain[1..] + commit;
    assert |taken.pending| == |s.pending| - 1;
  }

  lemma {:induction false} NotEmpty(env: Env, g: Genesis, s: State, chain: seq<Block>)
    requires ChainInv(env, g, s, chain)
    ensures chain != [] && Last(chain).header.number == s.head.number
  {
    hide StoresChain, Linked, Replayed, HashHeader, HashIndex;
  }

  lemma {:induction false} DrainAccounts(env: Env, g: Genesis, s: State, next: nat, t: Tally, chain: seq<Block>)
    requires ChainInv(env, g, s, chain) && AccountsFor(t, s, chain[1..])
    ensures chain != []
    ensures AccountsFor(DrainTally(env, s, next, Last(chain), t), Drained(env, s, next),
                        (chain + DrainCommits(env, s, next))[1..])
    decreases |s.pending|
  {
    hide VerdictOn, Processed, CommitOf, AccountsFor, ChainInv, Judged, Tallied;
    NotEmpty(env, g, s, chain);
    if !s.halted && next in s.pending {
      var taken, block := s.(pending := s.pending - {next}), s.pending[next].block;
      TakeAccounts(env, g, s, next, t, chain);
      var after, commit := Processed(env, taken, block), CommitOf(env, s, block);
      var t' := Tallied(t, Judged(env, s.store.accounts, Last(chain), block), block);
      DrainAccounts(env, g, after, next + 1, t', chain + commit);
      assert (chain + commit) + DrainCommits(env, after, next + 1) == chain + DrainCommits(env, s, next);
    } else {
      assert chain + [] == chain;
    }
  }

  lemma {:induction false} HandleAccounts(
      env: Env, g: Genesis, s: State, block: Block, peerId: u64, t: Tally, chain: seq<Block>)
    requires ChainInv(env, g, s, chain) && AccountsFor(t, s, chain[1..])
    ensures chain != []
    ensures AccountsFor(HandleTally(env, s, block, peerId, Last(chain), t), Handled(env, s, block, peerId),
                        (chain + HandleCommits(env, s, block, peerId))[1..])
  {
    hide Drained, DrainTally, DrainCommits, TransactionCount, TotalGas, ChainInv;
    NotEmpty(env, g, s, chain);
    WrapAddMod(t.received, 1);
    WrapAddMod(t.validation, 1);
    if s.halted || block.header.number <= s.head.number {
      assert chain + [] == chain;
    } else {
      var buffered := Buffered(s, block, peerId);
      ChainIgnoresPending(env, g, s, buffered, chain);
      DrainAccounts(env, g, buffered, s.head.number + 1, BufferedTally(s, block, t), chain);
    }
  }

  /** On every run each received block is accounted for exactly once, at most one of them by halting the processor, and
      the counters agree with the chain modulo 2^64. A processor that has not halted has received every block. */
  lemma {:induction false} RunAccounts(env: Env, g: Genesis, ds: seq<Delivery>)
    ensures var t, s := RunTally(env, g, ds), Ran(env, Initial(env, g), ds);
            && t.received <= |ds| && (!s.halted ==> t.received == |ds|)
            && t.received
               == t.committed + t.validation + t.execution + t.unrecovered + t.replaced + t.halting + |s.pending|
            && t.halting == (if s.halted then 1 else 0)
            && Metered(s.metrics, t)
            && CountsChain(t, Chain(env, g, ds)[1..])
  {
    RunAccountsFor(env, g, ds);
    RunReceives(env, g, ds);
  }

  lemma {:induction false} RunAccountsFor(env: Env, g: Genesis, ds: seq<Delivery>)
    ensures Chain(env, g, ds) != []
    ensures AccountsFor(RunTally(env, g, ds), Ran(env, Initial(env, g), ds), Chain(env, g, ds)[1..])
  {
    hide Handled, HandleCommits, HandleTally, AccountsFor, ChainInv;
    if ds == [] {
      NothingCounted(Initial(env, g));
      assert [g.block][1..] == [];
    } else {
      var front, last := ds[..|ds| - 1], ds[|ds| - 1];
      RunAccountsFor(env, g, front);
      RunKeepsChain(env, g, front);
      HandleAccounts(
        env, g, Ran(env, Initial(env, g), front), last.0, last.1, RunTally(env, g, front), Chain(env, g, front));
    }
  }

  lemma {:induction false} NothingCounted(s: State)
    requires |s.pending| == 0 && s.metrics == Metrics(0, 0, 0, 0, 0, 0) && !s.halted
    ensures AccountsFor(NOTHING, s, [])
  {
  }

  lemma {:induction false} DrainReceives(env: Env, s: State, next: nat, last: Block, t: Tally)
    ensures DrainTally(env, s, next, last, t).received == t.received
    decreases |s.pending|
  {
    hide VerdictOn, Processed, Judged;
    if !s.halted && next in s.pending {
      var taken, block := s.(pending := s.pending - {next}), s.pending[next].block;
      var j := Judged(env, s.store.accounts, last, block);
      var last' := if j.Accepted? then block else last;
      DrainReceives(env, Processed(env, taken, block), next + 1, last', Tallied(t, j, block));
    }
  }

  lemma {:induction false} RunReceives(env: Env, g: Genesis, ds: seq<Delivery>)
    ensures var t, s := RunTally(env, g, ds), Ran(env, Initial(env, g), ds);
            t.received <= |ds| && (!s.halted ==> t.received == |ds|)
  {
    hide DrainTally, Drained, Chain;
    if ds != [] {
      var front, last := ds[..|ds| - 1], ds[|ds| - 1];
      RunReceives(env, g, front);
      var s, t := Ran(env, Initial(env, g), front), RunTally(env, g, front);
      var tip := Last(Chain(env, g, front));
      DrainReceives(env, Buffered(s, last.0, last.1), tip.header.number + 1, tip, BufferedTally(s, last.0, t));
    }
  }

  lemma {:induction false} TakenBound(pending: map<nat, PendingBlock>, next: nat)
    ensures |Taken(pending, next)| <= |pending|
    decreases |pending|
  {
    if next in pending {
      TakenBound(pending - {next}, next + 1);
    }
  }

  /** Where the drain's counter stops: past the numbers it removes. */
  function DrainEnd(pending: map<nat, PendingBlock>, next: nat): nat {
    next + |Taken(pending, next)|
  }

  /**
   * The next message, whatever it is, finds the head at most one per earlier message above the first number, and the
   * drain it starts, from one past the head through the consecutive run now buffered, counts at most two further than
   * that. So below 2^64 - 1 messages, less the first number, none of the unchecked additions overflows.
   */
  lemma {:induction false} NumbersInRange(env: Env, g: Genesis, ds: seq<Delivery>, block: Block, peerId: u64)
    ensures var s := Ran(env, Initial(env, g), ds);
            var end := DrainEnd(Buffered(s, block, peerId).pending, s.head.number + 1);
            && s.head.number + 1 <= end <= g.block.header.number + |ds| + 2
            && (g.block.header.number + |ds| + 1 < U64_LIMIT - 1 ==> end < U64_LIMIT)
  {
    hide Ran, Taken, HashHeader, PendingOk;
    HeadWithin(env, g, ds);
    var s := Ran(env, Initial(env, g), ds);
    TakenBound(Buffered(s, block, peerId).pending, s.head.number + 1);
    OneMore(s.pending, block.header.number, PendingBlock(block, peerId));
  }

  lemma {:induction false} OneMore(pending: map<nat, PendingBlock>, n: nat, p: PendingBlock)
    ensures |pending[n := p]| <= |pending| + 1
  {
    assert pending[n := p].Keys == pending.Keys + {n};
  }

  lemma {:induction false} HeadWithin(env: Env, g: Genesis, ds: seq<Delivery>)
    ensures var s := Ran(env, Initial(env, g), ds);
            g.block.header.number <= s.head.number && s.head.number + |s.pending| <= g.block.header.number + |ds|
  {
    hide Ran, RunTally, Metered, TransactionCount, TotalGas, Replayed, Linked, Chain, HashHeader;
    RunAccounts(env, g, ds);
    RunKeepsChain(env, g, ds);
  }

  /** The numbers from the next one up to the end are buffered, the end is not. */
  lemma {:induction false} EndOfRun(pending: map<nat, PendingBlock>, next: nat, n: nat)
    requires next <= n
    ensures n < DrainEnd(pending, next) ==> n in pending
    ensures n == DrainEnd(pending, next) ==> n !in pending
    decreases |pending|
  {
    if next in pending {
      assert DrainEnd(pending, next) == DrainEnd(pending - {next}, next + 1);
      if n > next {
        EndOfRun(pending - {next}, next + 1, n);
      }
    }
  }

  /** The drain removes exactly the numbers up to the end, unless it halts among them, so the bound above is on every
      value its counter takes. */
  lemma {:induction false} DrainCountsThrough(env: Env, s: State, next: nat, n: nat)
    requires next <= n
    ensures n < DrainEnd(s.pending, next) ==>
              n in s.pending && (n in Drained(env, s, next).pending ==> Drained(env, s, next).halted)
    ensures n == DrainEnd(s.pending, next) ==> n !in s.pending
    ensures n >= DrainEnd(s.pending, next) ==> (n in Drained(env, s, next).pending <==> n in s.pending)
    decreases |s.pending|
  {
    hide VerdictOn, Processed;
    EndOfRun(s.pending, next, n);
    if !s.halted && next in s.pending {
      var after := Processed(env, s.(pending := s.pending - {next}), s.pending[next].block);
      assert DrainEnd(s.pending, next) == DrainEnd(after.pending, next + 1);
      if n == next {
        DrainedGone(env, after, next + 1, next);
      } else {
        DrainCountsThrough(env, after, next + 1, n);
      }
    }
  }

  lemma {:induction false} DrainedGone(env: Env, s: State, next: nat, n: nat)
    requires n !in s.pending
    ensures n !in Drained(env, s, next).pending
    decreases |s.pending|
  {
    hide VerdictOn, Processed;
    if !s.halted && next in s.pending {
      DrainedGone(env, Processed(env, s.(pending := s.pending - {next}), s.pending[next].block), next + 1, n);
    }
  }

  // ---------- Total difficulty ----------

  function GasUsed(blocks: seq<Block>): nat {
    if blocks == [] then 0 else blocks[0].header.gasUsed + GasUsed(blocks[1..])
  }

  lemma {:induction false} GasUsedConcat(x: seq<Block>, y: seq<Block>)
    ensures GasUsed(x + y) == GasUsed(x) + GasUsed(y)
  {
    if x == [] {
      assert x + y == y;
    } else {
      GasUsedConcat(x[1..], y);
      assert (x + y)[1..] == x[1..] + y;
    }
  }

  lemma {:induction false} GasUsedBound(blocks: seq<Block>)
    ensures GasUsed(blocks) <= |blocks| * (U64_LIMIT - 1)
  {
    if blocks != [] {
      GasUsedBound(blocks[1..]);
    }
  }

  lemma {:induction false} DrainDifficulty(env: Env, s: State, next: nat)
    ensures Drained(env, s, next).head.totalDifficulty == s.head.totalDifficulty + GasUsed(DrainCommits(env, s, next))
    decreases |s.pending|
  {
    hide VerdictOn, Processed, WithBlock, HashHeader;
    if !s.halted && next in s.pending {
      var taken, block := s.(pending := s.pending - {next}), s.pending[next].block;
      ProcessedEffect(env, taken, block);
      SameCommit(env, s, taken, block);
      var after := Processed(env, taken, block);
      DrainDifficulty(env, after, next + 1);
      GasUsedConcat(CommitOf(env, s, block), DrainCommits(env, after, next + 1));
    }
  }

  /** The head's total difficulty is the gas used by the committed blocks, and fits in 128 bits unless 2^64 messages
      came. */
  lemma {:induction false} DifficultyIsGasUsed(env: Env, g: Genesis, ds: seq<Delivery>)
    ensures Ran(env, Initial(env, g), ds).head.totalDifficulty == GasUsed(Chain(env, g, ds)[1..])
    ensures |ds| < U64_LIMIT ==> Ran(env, Initial(env, g), ds).head.totalDifficulty < U128_LIMIT
  {
    DifficultySum(env, g, ds);
    hide Ran, Chain, RunTally, Metered;
    var blocks := Chain(env, g, ds)[1..];
    GasUsedBound(blocks);
    RunAccounts(env, g, ds);
    assert |blocks| <= |ds|;
    if |ds| < U64_LIMIT {
      assert |blocks| * (U64_LIMIT - 1) <= (U64_LIMIT - 1) * (U64_LIMIT - 1);
    }
  }

  lemma {:induction false} DifficultySum(env: Env, g: Genesis, ds: seq<Delivery>)
    ensures Ran(env, Initial(env, g), ds).head.totalDifficulty == GasUsed(Chain(env, g, ds)[1..])
  {
    hide Drained, DrainCommits, HashHeader, WithBlock;
    if ds != [] {
      var front, last := ds[..|ds| - 1], ds[|ds| - 1];
      DifficultySum(env, g, front);
      var s := Ran(env, Initial(env, g), front);
      var commits := HandleCommits(env, s, last.0, last.1);
      if !s.halted && last.0.header.number > s.head.number {
        DrainDifficulty(env, Buffered(s, last.0, last.1), s.head.number + 1);
      }
      var chain := Chain(env, g, front);
      GasUsedConcat(chain[1..], commits);
      assert (chain + commits)[1..] == chain[1..] + commits;
    }
  }
}
