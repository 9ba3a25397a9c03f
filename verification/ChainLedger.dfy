/** Nonces and supply over a whole chain of committed blocks. */
module ChainLedger {
  import opened Primitives
  import opened ChainTypes
  import opened Ledger
  import opened Execution
  import opened ProcessorSpec
  import opened ProcessorRuns

  function SendersOrNone(env: Env, block: Block): seq<Address> {
    var senders := Senders(env, block.transactions);
    if senders.Some? then senders.value else []
  }

  /** The senders of all transactions of a chain, in order. */
  function AllSenders(env: Env, blocks: seq<Block>): seq<Address> {
    if blocks == [] then []
    else AllSenders(env, blocks[..|blocks| - 1]) + SendersOrNone(env, blocks[|blocks| - 1])
  }

  function NoncesIn(txs: seq<SignedTransaction>): seq<u64> {
    seq(|txs|, i requires 0 <= i < |txs| => txs[i].transaction.nonce)
  }

  /** The nonces of all transactions of a chain, in the same order. */
  function AllNonces(blocks: seq<Block>): seq<u64> {
    if blocks == [] then [] else AllNonces(blocks[..|blocks| - 1]) + NoncesIn(blocks[|blocks| - 1].transactions)
  }

  lemma {:induction false} SentByConcat(x: seq<Address>, y: seq<Address>, a: Address)
    ensures SentBy(x + y, a) == SentBy(x, a) + SentBy(y, a)
    decreases |y|
  {
    if y == [] {
      assert x + y == x;
    } else {
      SentByConcat(x, y[..|y| - 1], a);
      assert (x + y)[..|x + y| - 1] == x + y[..|y| - 1];
    }
  }

  /** The last block of a successful replay executed on top of the replay of the others. */
  lemma {:induction false} ReplayLast(env: Env, accounts: Accounts, blocks: seq<Block>)
    requires blocks != [] && Replayed(env, accounts, blocks).Some?
    ensures var last := blocks[|blocks| - 1];
            var before, senders := Replayed(env, accounts, blocks[..|blocks| - 1]), Senders(env, last.transactions);
            && before.Some? && senders.Some?
            && Executed(env.keccak, before.value, BlockWithSenders(last, senders.value)).Ok?
            && Executed(env.keccak, before.value, BlockWithSenders(last, senders.value)).value.accounts
               == Replayed(env, accounts, blocks).value
  {
    hide Executed, Senders;
  }

  lemma {:induction false} SameLength(env: Env, accounts: Accounts, blocks: seq<Block>)
    requires Replayed(env, accounts, blocks).Some?
    ensures |AllSenders(env, blocks)| == |AllNonces(blocks)|
  {
    if blocks != [] {
      ReplayLast(env, accounts, blocks);
      SameLength(env, accounts, blocks[..|blocks| - 1]);
    }
  }

  /** A stored nonce is the initial one plus the number of committed transactions of the address. */
  lemma {:induction false} NonceAdvances(env: Env, accounts: Accounts, blocks: seq<Block>, a: Address)
    requires Replayed(env, accounts, blocks).Some?
    ensures NonceOf(Replayed(env, accounts, blocks).value, a) == NonceOf(accounts, a) + SentBy(AllSenders(env, blocks), a)
  {
    hide Executed, Senders, NonceOf, Replayed;
    if blocks == [] {
      ReplayNothing(env, accounts);
    } else {
      var front, last := blocks[..|blocks| - 1], blocks[|blocks| - 1];
      ReplayLast(env, accounts, blocks);
      NonceAdvances(env, accounts, front, a);
      var b := BlockWithSenders(last, Senders(env, last.transactions).value);
      BlockNonces(env, Replayed(env, accounts, front).value, b, a);
      SentByConcat(AllSenders(env, front), b.senders, a);
    }
  }

  lemma {:induction false} ReplayNothing(env: Env, accounts: Accounts)
    ensures Replayed(env, accounts, []) == Some(accounts)
  {
  }

  lemma {:induction false} BlockNonces(env: Env, before: Accounts, b: BlockWithSenders, a: Address)
    requires Executed(env.keccak, before, b).Ok? && |b.senders| == |b.block.transactions|
    ensures NonceOf(Executed(env.keccak, before, b).value.accounts, a) == NonceOf(before, a) + SentBy(b.senders, a)
  {
    hide Folded, NonceOf, SentBy;
    NonceAfter(env.keccak, before, b, PairCount(b), a);
    assert b.senders[..PairCount(b)] == b.senders;
  }

  /** Each committed transaction carries the sender's next nonce at its place in the chain. */
  lemma {:induction false} NoncesConsecutive(env: Env, accounts: Accounts, blocks: seq<Block>, i: nat)
    requires Replayed(env, accounts, blocks).Some?
    requires i < |AllSenders(env, blocks)|
    ensures i < |AllNonces(blocks)|
    ensures var sender := AllSenders(env, blocks)[i];
            AllNonces(blocks)[i] == NonceOf(accounts, sender) + SentBy(AllSenders(env, blocks)[..i], sender)
    decreases |blocks|
  {
    hide Executed, Senders, NonceOf, Replayed, SentBy;
    SameLength(env, accounts, blocks);
    var front, last := blocks[..|blocks| - 1], blocks[|blocks| - 1];
    ReplayLast(env, accounts, blocks);
    SameLength(env, accounts, front);
    var earlier := AllSenders(env, front);
    if i < |earlier| {
      NoncesConsecutive(env, accounts, front, i);
      assert AllSenders(env, blocks)[..i] == earlier[..i];
    } else {
      var b, k := BlockWithSenders(last, Senders(env, last.transactions).value), i - |earlier|;
      ExecutionNonces(env.keccak, Replayed(env, accounts, front).value, b, k);
      NonceAdvances(env, accounts, front, b.senders[k]);
      SentByConcat(earlier, b.senders[..k], b.senders[k]);
      assert AllSenders(env, blocks)[..i] == earlier + b.senders[..k];
    }
  }

  lemma {:induction false} SentByGrows(x: seq<Address>, i: nat, j: nat, a: Address)
    requires i < j <= |x| && x[i] == a
    ensures SentBy(x[..i], a) < SentBy(x[..j], a)
  {
    hide SentBy;
    SentByConcat(x[..i + 1], x[i + 1..j], a);
    assert x[..j] == x[..i + 1] + x[i + 1..j];
    SentByOne(x[..i], a);
    assert x[..i + 1] == x[..i] + [a];
  }

  lemma {:induction false} SentByOne(x: seq<Address>, a: Address)
    ensures SentBy(x + [a], a) == SentBy(x, a) + 1
  {
    assert (x + [a])[..|x|] == x;
  }

  /** No sender and nonce pair is ever committed twice. */
  lemma {:induction false} NoPairTwice(env: Env, accounts: Accounts, blocks: seq<Block>, i: nat, j: nat)
    requires Replayed(env, accounts, blocks).Some?
    requires i < j < |AllSenders(env, blocks)|
    ensures j < |AllNonces(blocks)|
    ensures AllSenders(env, blocks)[i] != AllSenders(env, blocks)[j] || AllNonces(blocks)[i] != AllNonces(blocks)[j]
  {
    hide Replayed, NonceOf, SentBy, AllSenders, AllNonces;
    NoncesConsecutive(env, accounts, blocks, i);
    NoncesConsecutive(env, accounts, blocks, j);
    if AllSenders(env, blocks)[i] == AllSenders(env, blocks)[j] {
      SentByGrows(AllSenders(env, blocks), i, j, AllSenders(env, blocks)[i]);
    }
  }

  // ---------- Supply ----------

  /** The fees burned by replaying blocks over accounts. */
  function Burned(env: Env, accounts: Accounts, blocks: seq<Block>): nat {
    if blocks == [] then 0
    else
      var front, last := blocks[..|blocks| - 1], blocks[|blocks| - 1];
      var before, senders := Replayed(env, accounts, front), Senders(env, last.transactions);
      Burned(env, accounts, front) +
      if before.None? || senders.None? then 0
      else
        var e := Executed(env.keccak, before.value, BlockWithSenders(last, senders.value));
        if e.Ok? then TotalFees(e.value.receipts) else 0
  }

  /** Over a whole chain, the supply shrinks by exactly the fees. */
  lemma {:induction false} ReplayConserves(env: Env, accounts: Accounts, blocks: seq<Block>)
    requires Replayed(env, accounts, blocks).Some?
    ensures Total(Replayed(env, accounts, blocks).value) + Burned(env, accounts, blocks) == Total(accounts)
  {
    hide Folded, Senders, Total, Replayed, TotalFees;
    if blocks == [] {
      ReplayNothing(env, accounts);
    } else {
      var front, last := blocks[..|blocks| - 1], blocks[|blocks| - 1];
      ReplayLast(env, accounts, blocks);
      ReplayConserves(env, accounts, front);
      var b := BlockWithSenders(last, Senders(env, last.transactions).value);
      ExecutionConserves(env.keccak, Replayed(env, accounts, front).value, b, PairCount(b));
    }
  }

  /** In every run: the stored accounts are the genesis accounts advanced by the committed chain. */
  lemma {:induction false} RunLedger(env: Env, g: Genesis, ds: seq<Delivery>, a: Address)
    ensures var s, blocks := Ran(env, Initial(env, g), ds), Chain(env, g, ds)[1..];
            && AllNameRecipients(blocks)
            && NonceOf(s.store.accounts, a) == NonceOf(g.accounts, a) + SentBy(AllSenders(env, blocks), a)
            && Total(s.store.accounts) + Burned(env, g.accounts, blocks) == Total(g.accounts)
  {
    hide Ran, NonceOf, SentBy, Total, Burned, Replayed, StoresChain, Linked, HeadNames, Chain;
    RunKeepsChain(env, g, ds);
    var blocks := Chain(env, g, ds)[1..];
    NonceAdvances(env, g.accounts, blocks, a);
    ReplayConserves(env, g.accounts, blocks);
  }

  /** In every run no sender and nonce pair commits twice. */
  lemma {:induction false} RunNeverReplays(env: Env, g: Genesis, ds: seq<Delivery>, i: nat, j: nat)
    requires i < j < |AllSenders(env, Chain(env, g, ds)[1..])|
    ensures var blocks := Chain(env, g, ds)[1..];
            && j < |AllNonces(blocks)|
            && (AllSenders(env, blocks)[i] != AllSenders(env, blocks)[j] || AllNonces(blocks)[i] != AllNonces(blocks)[j])
  {
    hide Ran, AllSenders, AllNonces, Replayed, StoresChain, Linked, HeadNames, Chain;
    RunKeepsChain(env, g, ds);
    NoPairTwice(env, g.accounts, Chain(env, g, ds)[1..], i, j);
  }
}
