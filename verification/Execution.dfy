/** Block execution: the value-transfer executor as a fold over a block's transactions. */
module Execution {
  import opened Primitives
  import opened ChainTypes
  import opened Pricing
  import opened Ledger
  import opened Hashing

  datatype Receipt = Receipt(
    transactionHash: B256, transactionIndex: nat, blockHash: B256, blockNumber: u64, from: Address,
    to: Option<Address>, cumulativeGasUsed: u64, effectiveGasPrice: u128, gasUsed: u64)

  datatype BlockWithSenders = BlockWithSenders(block: Block, senders: seq<Address>)

  /** No transaction asks for contract creation. */
  predicate NamesRecipients(block: Block) {
    forall i :: 0 <= i < |block.transactions| ==> block.transactions[i].transaction.to.Some?
  }

  /** Transactions and senders are paired up; the shorter sequence decides. */
  function PairCount(b: BlockWithSenders): nat {
    if |b.block.transactions| <= |b.senders| then |b.block.transactions| else |b.senders|
  }

  function BaseFee(h: Header): u128 {
    h.gasLimit / 2
  }

  datatype Execution = Execution(accounts: Accounts, gasUsed: u64, receipts: seq<Receipt>)

  function ReceiptFor(keccak: Keccak, b: BlockWithSenders, k: nat, cumulative: u64): Receipt
    requires k < PairCount(b)
  {
    var header, signed := b.block.header, b.block.transactions[k];
    var price := EffectiveGasPrice(signed.transaction, BaseFee(header));
    Receipt(TransactionHash(keccak, signed), k, HashHeader(keccak, header), header.number, b.senders[k],
            signed.transaction.to, cumulative, if price.Ok? then price.value else 0, signed.transaction.gasLimit)
  }

  /** One more transaction on top of an execution. */
  function Step(keccak: Keccak, e: Execution, b: BlockWithSenders, k: nat): (r: Result<Execution, ExecutionError>)
    requires k < PairCount(b)
  {
    var tx := b.block.transactions[k].transaction;
    var accounts :- Transferred(e.accounts, tx, b.senders[k], BaseFee(b.block.header));
    if e.gasUsed + tx.gasLimit >= U64_LIMIT then Err(Overflow)
    else
      var gasUsed: u64 := e.gasUsed + tx.gasLimit;
      Ok(Execution(accounts, gasUsed, e.receipts + [ReceiptFor(keccak, b, k, gasUsed)]))
  }

  /** The functional fold of the first k transactions. */
  function Folded(keccak: Keccak, accounts: Accounts, b: BlockWithSenders, k: nat): (r: Result<Execution, ExecutionError>)
    requires k <= PairCount(b)
  {
    if k == 0 then Ok(Execution(accounts, 0, []))
    else
      var e :- Folded(keccak, accounts, b, k - 1);
      Step(keccak, e, b, k - 1)
  }

  function Executed(keccak: Keccak, accounts: Accounts, b: BlockWithSenders): (r: Result<Execution, ExecutionError>)
  {
    Folded(keccak, accounts, b, PairCount(b))
  }

  lemma {:induction false} FirstErrorWins(keccak: Keccak, accounts: Accounts, b: BlockWithSenders, k: nat, n: nat)
    requires k <= n <= PairCount(b)
    requires Folded(keccak, accounts, b, k).Err?
    ensures Folded(keccak, accounts, b, n) == Folded(keccak, accounts, b, k)
    decreases n
  {
    hide Step;
    if k < n {
      FirstErrorWins(keccak, accounts, b, k, n - 1);
    }
  }

  // ---------- Which transaction fails a block, and how ----------

  /** Transaction i is reached and fails with this error, or goes through and takes the gas past 64 bits. */
  predicate BreaksAt(keccak: Keccak, accounts: Accounts, b: BlockWithSenders, i: nat, e: ExecutionError)
    requires i < PairCount(b)
  {
    var before, tx, fee := Folded(keccak, accounts, b, i), b.block.transactions[i].transaction, BaseFee(b.block.header);
    && before.Ok?
    && (|| FailsWith(before.value.accounts, tx, b.senders[i], fee, e)
        || (&& e == Overflow && GasLimits(b.block.transactions[..i + 1]) >= U64_LIMIT
            && Payable(before.value.accounts, tx, b.senders[i], fee)
            && tx.to.Some? && CreditFits(before.value.accounts, tx, b.senders[i])))
  }

  lemma {:induction false} StepFailsIff(
      keccak: Keccak, accounts: Accounts, b: BlockWithSenders, k: nat, e: ExecutionError)
    requires k < PairCount(b) && Folded(keccak, accounts, b, k).Ok?
    ensures var r := Step(keccak, Folded(keccak, accounts, b, k).value, b, k);
            && (r == Err(e) <==> BreaksAt(keccak, accounts, b, k, e))
            && (r.Ok? ==> b.block.transactions[k].transaction.to.Some?)
  {
    hide Folded, Transferred, ReceiptFor, FailsWith, Payable, CreditFits;
    var before, tx := Folded(keccak, accounts, b, k).value, b.block.transactions[k].transaction;
    TransferFailsIff(before.accounts, tx, b.senders[k], BaseFee(b.block.header), e);
    ReceiptsAccount(keccak, accounts, b, k);
    assert b.block.transactions[..k + 1][..k] == b.block.transactions[..k];
  }

  /** A block fails with an error exactly when some transaction does so after every one before it went through. */
  lemma {:induction false} ExecutionFailsIff(
      keccak: Keccak, accounts: Accounts, b: BlockWithSenders, k: nat, e: ExecutionError)
    requires k <= PairCount(b)
    ensures Folded(keccak, accounts, b, k) == Err(e) <==> exists i :: 0 <= i < k && BreaksAt(keccak, accounts, b, i, e)
  {
    hide Step, BreaksAt;
    if k > 0 {
      ExecutionFailsIff(keccak, accounts, b, k - 1, e);
      var before := Folded(keccak, accounts, b, k - 1);
      if before.Ok? {
        StepFailsIff(keccak, accounts, b, k - 1, e);
      } else {
        NotReached(keccak, accounts, b, k - 1, e);
      }
    }
  }

  lemma {:induction false} NotReached(keccak: Keccak, accounts: Accounts, b: BlockWithSenders, i: nat, e: ExecutionError)
    requires i < PairCount(b) && Folded(keccak, accounts, b, i).Err?
    ensures !BreaksAt(keccak, accounts, b, i, e)
  {
  }

  /** A block that executes names its recipients, and one that names them never reaches the creation branch. */
  lemma {:induction false} ExecutedNames(keccak: Keccak, accounts: Accounts, b: BlockWithSenders, k: nat)
    requires k <= PairCount(b)
    ensures Folded(keccak, accounts, b, k).Ok? ==> forall i :: 0 <= i < k ==> b.block.transactions[i].transaction.to.Some?
    ensures NamesRecipients(b.block) ==> Folded(keccak, accounts, b, k) != Err(CreationReached)
  {
    hide Step;
    if k > 0 {
      ExecutedNames(keccak, accounts, b, k - 1);
      if Folded(keccak, accounts, b, k - 1).Ok? {
        StepFailsIff(keccak, accounts, b, k - 1, CreationReached);
      }
    }
  }

  lemma {:induction false} StepParts(keccak: Keccak, e: Execution, b: BlockWithSenders, k: nat)
    requires k < PairCount(b) && Step(keccak, e, b, k).Ok?
    ensures var tx, r := b.block.transactions[k].transaction, Step(keccak, e, b, k).value;
            var price := EffectiveGasPrice(tx, BaseFee(b.block.header));
            && Transferred(e.accounts, tx, b.senders[k], BaseFee(b.block.header)) == Ok(r.accounts)
            && price.Ok?
            && r.gasUsed == e.gasUsed + tx.gasLimit
            && r.receipts == e.receipts + [ReceiptFor(keccak, b, k, r.gasUsed)]
            && ReceiptFor(keccak, b, k, r.gasUsed).effectiveGasPrice == price.value
            && ReceiptFor(keccak, b, k, r.gasUsed).gasUsed == tx.gasLimit
            && ReceiptFor(keccak, b, k, r.gasUsed).cumulativeGasUsed == r.gasUsed
  {
    hide HashHeader, TransactionHash, EffectiveGasPrice, MaxCost;
  }

  // ---------- Prices ----------

  function Lesser(m: nat, n: nat): nat {
    if m <= n then m else n
  }

  /** A unit of gas costs what is offered, for typed transactions at most the tip over half the block's gas limit. */
  function UnitPrice(tx: Transaction, blockGasLimit: u64): nat {
    if tx.Legacy? then tx.gasPrice else Lesser(tx.maxFeePerGas, blockGasLimit / 2 + tx.maxPriorityFeePerGas)
  }

  lemma {:induction false} PricedByGasLimit(tx: Transaction, h: Header)
    requires EffectiveGasPrice(tx, BaseFee(h)).Ok?
    ensures EffectiveGasPrice(tx, BaseFee(h)).value == UnitPrice(tx, h.gasLimit)
    ensures !tx.Legacy? ==> h.gasLimit - 1 <= 2 * tx.maxFeePerGas
  {
  }

  /**
   * In a block that executes, the cap of every typed transaction covers half the block's gas limit, its price is the cap
   * or the tip over that half, whichever is less, and the sender is debited that price for the gas limit, and the value.
   */
  lemma {:induction false} ExecutedPrices(keccak: Keccak, accounts: Accounts, b: BlockWithSenders, i: nat)
    requires i < PairCount(b) && Executed(keccak, accounts, b).Ok?
    ensures i < |Executed(keccak, accounts, b).value.receipts|
    ensures Folded(keccak, accounts, b, i).Ok? && Folded(keccak, accounts, b, i + 1).Ok?
    ensures var before, after := Folded(keccak, accounts, b, i).value, Folded(keccak, accounts, b, i + 1).value;
            var tx, sender, limit := b.block.transactions[i].transaction, b.senders[i], b.block.header.gasLimit;
            var p := Executed(keccak, accounts, b).value.receipts[i].effectiveGasPrice;
            && (tx.Legacy? ==> p == tx.gasPrice)
            && (!tx.Legacy? ==>
                  && limit - 1 <= 2 * tx.maxFeePerGas
                  && p <= tx.maxFeePerGas && 2 * (p - tx.maxPriorityFeePerGas) <= limit
                  && (p == tx.maxFeePerGas || limit - 1 <= 2 * (p - tx.maxPriorityFeePerGas)))
            && BalanceOf(after.accounts, sender) + p * tx.gasLimit + tx.value
               == BalanceOf(before.accounts, sender) + (if tx.to == Some(sender) then tx.value else 0)
  {
    hide Step, Transferred, EffectiveGasPrice, BaseFee, BalanceOf, HashHeader, TransactionHash;
    if Folded(keccak, accounts, b, i + 1).Err? {
      FirstErrorWins(keccak, accounts, b, i + 1, PairCount(b));
    }
    var before, tx := Folded(keccak, accounts, b, i).value, b.block.transactions[i].transaction;
    ReceiptsAccount(keccak, accounts, b, PairCount(b));
    StepParts(keccak, before, b, i);
    PricedByGasLimit(tx, b.block.header);
    TransferMoves(before.accounts, tx, b.senders[i], BaseFee(b.block.header), b.senders[i]);
  }

  // ---------- Conservation and nonces over a block ----------

  function TotalFees(receipts: seq<Receipt>): nat {
    if receipts == [] then 0
    else
      var last := receipts[|receipts| - 1];
      TotalFees(receipts[..|receipts| - 1]) + last.effectiveGasPrice * last.gasUsed
  }

  /** Executing a block burns exactly the fees on its receipts. */
  lemma {:induction false} ExecutionConserves(keccak: Keccak, accounts: Accounts, b: BlockWithSenders, k: nat)
    requires k <= PairCount(b)
    requires Folded(keccak, accounts, b, k).Ok?
    ensures var e := Folded(keccak, accounts, b, k).value;
            Total(e.accounts) + TotalFees(e.receipts) == Total(accounts)
  {
    hide Step, Transferred, ReceiptFor, Total, EffectiveGasPrice;
    if k > 0 {
      ExecutionConserves(keccak, accounts, b, k - 1);
      var before, e := Folded(keccak, accounts, b, k - 1).value, Folded(keccak, accounts, b, k).value;
      StepParts(keccak, before, b, k - 1);
      var tx := b.block.transactions[k - 1].transaction;
      TransferConserves(before.accounts, tx, b.senders[k - 1], BaseFee(b.block.header));
      assert e.receipts[..|e.receipts| - 1] == before.receipts;
    }
  }

  /** What a receipt says: which transaction at which place of which block, who to whom, and gas and its price. */
  predicate Certifies(keccak: Keccak, b: BlockWithSenders, i: nat, r: Receipt)
    requires i < PairCount(b)
  {
    var header, signed := b.block.header, b.block.transactions[i];
    && r.transactionHash == TransactionHash(keccak, signed) && r.transactionIndex == i
    && r.blockHash == HashHeader(keccak, header) && r.blockNumber == header.number
    && r.from == b.senders[i] && r.to == signed.transaction.to
    && r.cumulativeGasUsed == GasLimits(b.block.transactions[..i + 1]) && r.gasUsed == signed.transaction.gasLimit
    && r.effectiveGasPrice == UnitPrice(signed.transaction, header.gasLimit)
  }

  lemma {:induction false} StepCertifies(keccak: Keccak, e: Execution, b: BlockWithSenders, k: nat)
    requires k < PairCount(b) && Step(keccak, e, b, k).Ok?
    requires e.gasUsed == GasLimits(b.block.transactions[..k])
    ensures var r := Step(keccak, e, b, k).value;
            && r.gasUsed == GasLimits(b.block.transactions[..k + 1])
            && r.receipts == e.receipts + [ReceiptFor(keccak, b, k, r.gasUsed)]
            && Certifies(keccak, b, k, ReceiptFor(keccak, b, k, r.gasUsed))
  {
    hide Step, Transferred, HashHeader, TransactionHash, BaseFee, EffectiveGasPrice, UnitPrice;
    StepParts(keccak, e, b, k);
    PricedByGasLimit(b.block.transactions[k].transaction, b.block.header);
    assert b.block.transactions[..k + 1][..k] == b.block.transactions[..k];
  }

  /** There is one receipt per transaction, in order, and each says what happened. */
  lemma {:induction false} ReceiptsAccount(keccak: Keccak, accounts: Accounts, b: BlockWithSenders, k: nat)
    requires k <= PairCount(b)
    requires Folded(keccak, accounts, b, k).Ok?
    ensures var e := Folded(keccak, accounts, b, k).value;
            && |e.receipts| == k
            && e.gasUsed == GasLimits(b.block.transactions[..k])
            && forall i :: 0 <= i < k ==> Certifies(keccak, b, i, e.receipts[i])
  {
    hide Step, ReceiptFor, Certifies;
    if k > 0 {
      ReceiptsAccount(keccak, accounts, b, k - 1);
      StepCertifies(keccak, Folded(keccak, accounts, b, k - 1).value, b, k - 1);
    }
  }

  function GasLimits(txs: seq<SignedTransaction>): nat {
    if txs == [] then 0 else GasLimits(txs[..|txs| - 1]) + txs[|txs| - 1].transaction.gasLimit
  }

  /** How many of the first k transactions an address sent. */
  function SentBy(senders: seq<Address>, a: Address): nat {
    if senders == [] then 0
    else SentBy(senders[..|senders| - 1], a) + if senders[|senders| - 1] == a then 1 else 0
  }

  lemma {:induction false} NonceAfter(keccak: Keccak, accounts: Accounts, b: BlockWithSenders, k: nat, a: Address)
    requires k <= PairCount(b)
    requires Folded(keccak, accounts, b, k).Ok?
    ensures NonceOf(Folded(keccak, accounts, b, k).value.accounts, a) == NonceOf(accounts, a) + SentBy(b.senders[..k], a)
  {
    hide Step, Transferred, NonceOf, ReceiptFor, EffectiveGasPrice;
    if k > 0 {
      NonceAfter(keccak, accounts, b, k - 1, a);
      var before := Folded(keccak, accounts, b, k - 1).value;
      StepParts(keccak, before, b, k - 1);
      var tx := b.block.transactions[k - 1].transaction;
      TransferNonces(before.accounts, tx, b.senders[k - 1], BaseFee(b.block.header), a);
      assert b.senders[..k][..k - 1] == b.senders[..k - 1];
    }
  }

  /** Within a block an address's transactions carry consecutive nonces from its stored nonce. */
  lemma {:induction false} ExecutionNonces(keccak: Keccak, accounts: Accounts, b: BlockWithSenders, i: nat)
    requires i < PairCount(b) && Executed(keccak, accounts, b).Ok?
    ensures b.block.transactions[i].transaction.nonce
            == NonceOf(accounts, b.senders[i]) + SentBy(b.senders[..i], b.senders[i])
  {
    hide Step, Transferred, NonceOf;
    if Folded(keccak, accounts, b, i + 1).Err? {
      FirstErrorWins(keccak, accounts, b, i + 1, PairCount(b));
    }
    NonceAfter(keccak, accounts, b, i, b.senders[i]);
    var before := Folded(keccak, accounts, b, i).value;
    StepParts(keccak, before, b, i);
    var tx := b.block.transactions[i].transaction;
    TransferNonces(before.accounts, tx, b.senders[i], BaseFee(b.block.header), b.senders[i]);
  }
}
