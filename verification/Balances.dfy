/** Every account from its history: what an address was sent, what it spent, and what else its account holds. */
module Balances {
  import opened Primitives
  import opened ChainTypes
  import opened Pricing
  import opened Ledger
  import opened Execution
  import opened ProcessorSpec
  import opened ProcessorRuns
  import opened ChainLedger

  // ---------- A block ----------

  /** The value sent to an address. */
  function Earned(txs: seq<SignedTransaction>, a: Address): nat {
    if txs == [] then 0
    else
      var front, last := txs[..|txs| - 1], txs[|txs| - 1].transaction;
      Earned(front, a) + if last.to == Some(a) then last.value else 0
  }

  /** The value an address sent, and its fees: the unit price in a block with this gas limit for all of its gas. */
  function Spent(txs: seq<SignedTransaction>, senders: seq<Address>, blockGasLimit: u64, a: Address): nat
    requires |txs| == |senders|
  {
    if txs == [] then 0
    else
      var n := |txs| - 1;
      var last := txs[n].transaction;
      Spent(txs[..n], senders[..n], blockGasLimit, a)
      + if senders[n] == a then UnitPrice(last, blockGasLimit) * last.gasLimit + last.value else 0
  }

  predicate Named(txs: seq<SignedTransaction>, a: Address) {
    exists i :: 0 <= i < |txs| && txs[i].transaction.to == Some(a)
  }

  lemma {:induction false} NamedSnoc(txs: seq<SignedTransaction>, k: nat, a: Address)
    requires k < |txs|
    ensures Named(txs[..k + 1], a) <==> Named(txs[..k], a) || txs[k].transaction.to == Some(a)
  {
    assert txs[..k + 1] == txs[..k] + [txs[k]];
    if Named(txs[..k], a) {
      var i :| 0 <= i < k && txs[..k][i].transaction.to == Some(a);
      assert txs[..k + 1][i].transaction.to == Some(a);
    }
    if txs[k].transaction.to == Some(a) {
      assert txs[..k + 1][k].transaction.to == Some(a);
    }
  }

  /** The code hash of an account that a history creates or keeps. */
  function CodeHashFrom(before: Accounts, a: Address): B256 {
    if a in before then before[a].codeHash else EMPTY_CODE_HASH
  }

  lemma {:induction false} SumsSnoc(b: BlockWithSenders, k: nat, a: Address)
    requires k < PairCount(b)
    ensures var tx, limit := b.block.transactions[k].transaction, b.block.header.gasLimit;
            && Earned(b.block.transactions[..k + 1], a)
               == Earned(b.block.transactions[..k], a) + (if tx.to == Some(a) then tx.value else 0)
            && Spent(b.block.transactions[..k + 1], b.senders[..k + 1], limit, a)
               == Spent(b.block.transactions[..k], b.senders[..k], limit, a)
                  + (if b.senders[k] == a then UnitPrice(tx, limit) * tx.gasLimit + tx.value else 0)
  {
    hide UnitPrice;
    assert b.block.transactions[..k + 1][..k] == b.block.transactions[..k];
    assert b.senders[..k + 1][..k] == b.senders[..k];
  }

  /** After a block: what was held and earned is what is held and was spent, and code hashes stay. */
  lemma {:induction false} BlockBalances(keccak: Keccak, accounts: Accounts, b: BlockWithSenders, k: nat, a: Address)
    requires k <= PairCount(b) && Folded(keccak, accounts, b, k).Ok?
    ensures var after, txs := Folded(keccak, accounts, b, k).value.accounts, b.block.transactions[..k];
            && BalanceOf(after, a) + Spent(txs, b.senders[..k], b.block.header.gasLimit, a)
               == BalanceOf(accounts, a) + Earned(txs, a)
            && (a in after <==> a in accounts || Named(txs, a))
            && (a in after ==> after[a].codeHash == CodeHashFrom(accounts, a))
  {
    hide Step, Transferred, EffectiveGasPrice, BaseFee, BalanceOf, UnitPrice, Earned, Spent, Named, ReceiptFor;
    if k == 0 {
      NothingMoved(a);
    } else {
      BlockBalances(keccak, accounts, b, k - 1, a);
      var before, tx := Folded(keccak, accounts, b, k - 1).value, b.block.transactions[k - 1].transaction;
      StepParts(keccak, before, b, k - 1);
      PricedByGasLimit(tx, b.block.header);
      TransferMoves(before.accounts, tx, b.senders[k - 1], BaseFee(b.block.header), a);
      SumsSnoc(b, k - 1, a);
      NamedSnoc(b.block.transactions, k - 1, a);
    }
  }

  lemma {:induction false} NothingMoved(a: Address)
    ensures Earned([], a) == 0 && forall limit :: Spent([], [], limit, a) == 0
    ensures !Named([], a)
  {
  }

  // ---------- A chain ----------

  function AllEarned(blocks: seq<Block>, a: Address): nat {
    if blocks == [] then 0 else AllEarned(blocks[..|blocks| - 1], a) + Earned(blocks[|blocks| - 1].transactions, a)
  }

  /** Blocks whose senders cannot be recovered never commit; they count for nothing. */
  function AllSpent(env: Env, blocks: seq<Block>, a: Address): nat {
    if blocks == [] then 0
    else
      var last := blocks[|blocks| - 1];
      var senders := Senders(env, last.transactions);
      AllSpent(env, blocks[..|blocks| - 1], a)
      + if senders.Some? then Spent(last.transactions, senders.value, last.header.gasLimit, a) else 0
  }

  predicate EverNamed(blocks: seq<Block>, a: Address) {
    exists i :: 0 <= i < |blocks| && Named(blocks[i].transactions, a)
  }

  lemma {:induction false} EverNamedSnoc(blocks: seq<Block>, a: Address)
    requires blocks != []
    ensures EverNamed(blocks, a)
            <==> EverNamed(blocks[..|blocks| - 1], a) || Named(blocks[|blocks| - 1].transactions, a)
  {
    hide Named;
    var n := |blocks| - 1;
    if EverNamed(blocks[..n], a) {
      var i :| 0 <= i < n && Named(blocks[..n][i].transactions, a);
      assert Named(blocks[i].transactions, a);
    }
    if i :| 0 <= i < n && Named(blocks[i].transactions, a) {
      assert Named(blocks[..n][i].transactions, a);
    }
  }

  lemma {:induction false} WholeBlock(env: Env, before: Accounts, b: BlockWithSenders, a: Address)
    requires Executed(env.keccak, before, b).Ok? && |b.senders| == |b.block.transactions|
    ensures var after, txs := Executed(env.keccak, before, b).value.accounts, b.block.transactions;
            && BalanceOf(after, a) + Spent(txs, b.senders, b.block.header.gasLimit, a)
               == BalanceOf(before, a) + Earned(txs, a)
            && (a in after <==> a in before || Named(txs, a))
            && (a in after ==> after[a].codeHash == CodeHashFrom(before, a))
  {
    hide Folded, BalanceOf, Spent, Earned, Named;
    BlockBalances(env.keccak, before, b, PairCount(b), a);
    assert b.senders[..PairCount(b)] == b.senders;
    assert b.block.transactions[..PairCount(b)] == b.block.transactions;
  }

  lemma {:induction false} ChainBalances(env: Env, accounts: Accounts, blocks: seq<Block>, a: Address)
    requires Replayed(env, accounts, blocks).Some?
    ensures var after := Replayed(env, accounts, blocks).value;
            && BalanceOf(after, a) + AllSpent(env, blocks, a) == BalanceOf(accounts, a) + AllEarned(blocks, a)
            && (a in after <==> a in accounts || EverNamed(blocks, a))
            && (a in after ==> after[a].codeHash == CodeHashFrom(accounts, a))
  {
    hide Executed, Senders, BalanceOf, Replayed, Spent, Earned, EverNamed, Named;
    if blocks == [] {
      ReplayNothing(env, accounts);
      NeverNamed(a);
    } else {
      var front, last := blocks[..|blocks| - 1], blocks[|blocks| - 1];
      ReplayLast(env, accounts, blocks);
      ChainBalances(env, accounts, front, a);
      var b := BlockWithSenders(last, Senders(env, last.transactions).value);
      WholeBlock(env, Replayed(env, accounts, front).value, b, a);
      EverNamedSnoc(blocks, a);
    }
  }

  lemma {:induction false} NeverNamed(a: Address)
    ensures !EverNamed([], a)
  {
  }

  /**
   * In every run the account of every address follows from the genesis accounts and the committed transactions: it is
   * there if it was at genesis or was ever sent something; it holds what it held at genesis and was sent, less what it
   * sent and its fees; and it has the code hash it had at genesis, or that of empty code.
   */
  lemma {:induction false} RunBalances(env: Env, g: Genesis, ds: seq<Delivery>, a: Address)
    ensures var accounts, blocks := Ran(env, Initial(env, g), ds).store.accounts, Chain(env, g, ds)[1..];
            && BalanceOf(accounts, a) + AllSpent(env, blocks, a) == BalanceOf(g.accounts, a) + AllEarned(blocks, a)
            && (a in accounts <==> a in g.accounts || EverNamed(blocks, a))
            && (a in accounts ==>
                  accounts[a].codeHash == if a in g.accounts then g.accounts[a].codeHash else EMPTY_CODE_HASH)
  {
    hide Ran, BalanceOf, AllSpent, AllEarned, EverNamed, Replayed, StoresChain, Linked, HeadNames, Chain, HashIndex;
    RunKeepsChain(env, g, ds);
    ChainBalances(env, g.accounts, Chain(env, g, ds)[1..], a);
  }
}
