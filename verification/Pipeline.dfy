/** Validation, execution under the journal, and commit or rollback. */
module Pipeline {
  import opened Primitives
  import opened ChainTypes
  import opened Pricing
  import opened Ledger
  import opened Hashing
  import opened StateRoot
  import opened Execution
  import opened Provider

  const MAX_TXS: nat := 100

  function ValidatedHeader(keccak: Keccak, header: Header, parent: Header): (r: Result<(), ExecutionError>)
    ensures r.Ok? <==> && header.parentHash == HashHeader(keccak, parent) && header.number == parent.number + 1
                       && header.gasUsed <= header.gasLimit
  {
    if header.parentHash != HashHeader(keccak, parent) then
      Err(InvalidParentHash(HashHeader(keccak, parent), header.parentHash))
    else if parent.number + 1 >= U64_LIMIT then Err(Overflow)
    else if header.number != parent.number + 1 then Err(InvalidBlockNumber(parent.number + 1, header.number))
    else if header.gasUsed > header.gasLimit then Err(GasLimitExceeded(header.gasLimit, header.gasUsed))
    else Ok(())
  }

  function ValidatedBody(block: Block): Result<(), ExecutionError> {
    if |block.transactions| > MAX_TXS then Err(TooManyTransactions(MAX_TXS, |block.transactions|)) else Ok(())
  }

  /** What the pipeline checks before it touches anything. */
  function Validated(keccak: Keccak, s: Store, block: Block): (r: Result<(), ExecutionError>) {
    var parent :- BlockByHash(s, block.header.parentHash);
    var header :- ValidatedHeader(keccak, block.header, parent.header);
    ValidatedBody(block)
  }

  /** The pipeline's verdict on a block over a store with no journal open. */
  function PipelineResult(keccak: Keccak, s: Store, b: BlockWithSenders): (r: Result<Execution, ExecutionError>) {
    var valid :- Validated(keccak, s, b.block);
    Executed(keccak, s.accounts, b)
  }

  datatype ExecutionOutput = ExecutionOutput(gasUsed: u64, receipts: seq<Receipt>, stateRoot: B256)

  /** The checks in the order of the code, then the sender's account after the debit, and the price charged. */
  method CheckAndDebit(accounts: Accounts, tx: Transaction, sender: Address, baseFee: u128)
    returns (r: Result<(Account, u128), ExecutionError>)
    ensures var d := Debited(accounts, tx, sender, baseFee);
            if r.Ok? then d == Ok(r.value.0) && EffectiveGasPrice(tx, baseFee) == Ok(r.value.1) else d == Err(r.error)
  {
    hide EffectiveGasPrice, MaxCost, Charged;
    if sender !in accounts {
      return Err(AccountNotFound(sender));
    }
    var account := accounts[sender];
    if tx.nonce != account.nonce {
      return Err(InvalidNonce(sender, account.nonce, tx.nonce));
    }
    var maxCost := MaxCost(tx);
    if maxCost.Err? {
      return Err(InvalidTransaction(maxCost.error));
    }
    if maxCost.value > account.balance {
      return Err(InsufficientBalance(sender, account.balance, maxCost.value));
    }
    var price := EffectiveGasPrice(tx, baseFee);
    if price.Err? {
      return Err(InvalidTransaction(price.error));
    }
    var fee := Times(price.value, tx.gasLimit);
    assert fee == Fee(tx, baseFee);
    var charged := Charge(account, fee, tx.value);
    if charged.Err? {
      return Err(charged.error);
    }
    return Ok((charged.value, price.value));
  }

  function Times(price: u128, gas: u64): nat {
    price * gas
  }

  /** Checked multiplication, addition and subtraction, then the nonce. */
  method Charge(account: Account, fee: nat, value: u128) returns (r: Result<Account, ExecutionError>)
    ensures r == Charged(account, fee, value)
  {
    if fee >= U128_LIMIT {
      return Err(Overflow);
    }
    var debit := fee + value;
    if debit >= U128_LIMIT {
      return Err(Overflow);
    }
    if account.balance < debit {
      return Err(Underflow);
    }
    var left := account.(balance := account.balance - debit);
    if left.nonce + 1 >= U64_LIMIT {
      return Err(Overflow);
    }
    return Ok(left.(nonce := left.nonce + 1));
  }

  /** One transaction against the provider: checks, debit, nonce, then the recipient's credit. */
  method ApplyTransfer(provider: InMemoryProvider, tx: Transaction, sender: Address, baseFee: u128)
    returns (r: Result<u128, ExecutionError>)
    modifies provider`state, provider`journal
    ensures var t := Transferred(old(provider.state), tx, sender, baseFee);
            if r.Ok? then t == Ok(provider.state) && EffectiveGasPrice(tx, baseFee) == Ok(r.value) else t == Err(r.error)
    ensures provider.journal.Some? == old(provider.journal).Some?
    ensures provider.journal.Some?
            ==> Restored(provider.state, provider.journal.value)
                == Restored(old(provider.state), old(provider.journal).value)
  {
    hide Restored, Debited, Credited, EffectiveGasPrice;
    var debit := CheckAndDebit(provider.state, tx, sender, baseFee);
    if debit.Err? {
      return Err(debit.error);
    }
    r := WriteBoth(provider, tx, sender, debit.value.0, debit.value.1);
  }

  /** The two writes of a transfer; the sender's stays if the credit overflows or there is no recipient. */
  method WriteBoth(provider: InMemoryProvider, tx: Transaction, sender: Address, account: Account, price: u128)
    returns (r: Result<u128, ExecutionError>)
    modifies provider`state, provider`journal
    ensures var debited := old(provider.state)[sender := account];
            var c := if tx.to.None? then Err(CreationReached) else Credited(debited, tx.to.value, tx.value);
            if r.Ok? then c == Ok(provider.state) && r.value == price else c == Err(r.error)
    ensures provider.journal.Some? == old(provider.journal).Some?
    ensures provider.journal.Some?
            ==> Restored(provider.state, provider.journal.value)
                == Restored(old(provider.state), old(provider.journal).value)
  {
    hide Restored;
    SetKeepsRestored(provider.state, provider.journal, sender, account);
    provider.SetAccount(sender, account);
    if tx.to.None? {
      return Err(CreationReached);
    }
    var recipient := AccountOr(provider.state, tx.to.value);
    if recipient.balance + tx.value >= U128_LIMIT {
      return Err(Overflow);
    }
    recipient := recipient.(balance := recipient.balance + tx.value);
    SetKeepsRestored(provider.state, provider.journal, tx.to.value, recipient);
    provider.SetAccount(tx.to.value, recipient);
    return Ok(price);
  }

  lemma {:induction false} SetKeepsRestored(accounts: Accounts, journal: Option<Journal>, a: Address, info: Account)
    ensures journal.Some?
            ==> Restored(accounts[a := info], Recorded(journal.value, accounts, a)) == Restored(accounts, journal.value)
  {
    if journal.Some? {
      WriteKeepsRestored(accounts, journal.value, a, info);
    }
  }

  /** The executor's transaction loop. */
  method ExecuteBlock(
      provider: InMemoryProvider, b: BlockWithSenders) returns (r: Result<ExecutionOutput, ExecutionError>)
    modifies provider`state, provider`journal
    ensures var e := Executed(provider.keccak, old(provider.state), b);
            if r.Ok? then e == Ok(Execution(provider.state, r.value.gasUsed, r.value.receipts))
                          && r.value.stateRoot == StateRootOf(provider.keccak, provider.state)
            else e == Err(r.error)
    ensures provider.journal.Some? == old(provider.journal).Some?
    ensures provider.journal.Some?
            ==> Restored(provider.state, provider.journal.value)
                == Restored(old(provider.state), old(provider.journal).value)
  {
    hide Restored, Transferred, StateRootOf, EffectiveGasPrice, HashHeader, TransactionHash;
    var cumulativeGasUsed: u64 := 0;
    var receipts: seq<Receipt> := [];
    var header := b.block.header;
    var n := PairCount(b);
    for i := 0 to n
      invariant Folded(provider.keccak, old(provider.state), b, i)
                == Ok(Execution(provider.state, cumulativeGasUsed, receipts))
      invariant provider.journal.Some? == old(provider.journal).Some?
      invariant provider.journal.Some?
                ==> Restored(provider.state, provider.journal.value)
                    == Restored(old(provider.state), old(provider.journal).value)
    {
      var tx := b.block.transactions[i].transaction;
      var applied := ApplyTransfer(provider, tx, b.senders[i], BaseFee(header));
      if applied.Err? {
        FirstErrorWins(provider.keccak, old(provider.state), b, i + 1, n);
        return Err(applied.error);
      }
      if cumulativeGasUsed + tx.gasLimit >= U64_LIMIT {
        FirstErrorWins(provider.keccak, old(provider.state), b, i + 1, n);
        return Err(Overflow);
      }
      cumulativeGasUsed := cumulativeGasUsed + tx.gasLimit;
      receipts := receipts + [Receipt(TransactionHash(provider.keccak, b.block.transactions[i]), i,
                                      HashHeader(provider.keccak, header), header.number, b.senders[i], tx.to,
                                      cumulativeGasUsed, applied.value, tx.gasLimit)];
    }
    var stateRoot := ComputeStateRoot(provider.keccak, provider.state);
    return Ok(ExecutionOutput(cumulativeGasUsed, receipts, stateRoot));
  }

  /** The pipeline is atomic: on any error the accounts are what they were, and the journal is closed unless it was
      already open, in which case nothing happens at all. A panic in the creation branch leaves the journal open, with
      what the accounts were still to be had by rolling back. */
  method ExecutePipeline(
      provider: InMemoryProvider, b: BlockWithSenders) returns (r: Result<ExecutionOutput, ExecutionError>)
    modifies provider`state, provider`journal
    ensures r.Err? && r.error != CreationReached ==>
              provider.state == old(provider.state) && provider.journal == old(provider.journal)
    ensures r == Err(CreationReached) ==>
              old(provider.journal).None? && provider.journal.Some?
              && Restored(provider.state, provider.journal.value) == old(provider.state)
    ensures r.Ok? ==> provider.journal == old(provider.journal) == None
    ensures old(provider.journal).Some? ==>
              var valid := Validated(provider.keccak, old(provider.View()), b.block);
              r == Err(if valid.Err? then valid.error else JournalAlreadySet)
    ensures old(provider.journal).None? ==>
              var e := PipelineResult(provider.keccak, old(provider.View()), b);
              if r.Ok? then e == Ok(Execution(provider.state, r.value.gasUsed, r.value.receipts))
                            && r.value.stateRoot == StateRootOf(provider.keccak, provider.state)
              else e == Err(r.error)
  {
    hide Restored, Executed, StateRootOf, HashHeader;
    var parent := BlockByHash(provider.View(), b.block.header.parentHash);
    if parent.Err? {
      return Err(parent.error);
    }
    var validHeader := ValidatedHeader(provider.keccak, b.block.header, parent.value.header);
    if validHeader.Err? {
      return Err(validHeader.error);
    }
    var validBody := ValidatedBody(b.block);
    if validBody.Err? {
      return Err(validBody.error);
    }
    var begun := provider.BeginJournal();
    if begun.Err? {
      return Err(begun.error);
    }
    r := ExecuteBlock(provider, b);
    NothingRecorded(old(provider.state));
    if r == Err(CreationReached) {
      return;
    }
    if r.Err? {
      provider.RollbackJournal();
    } else {
      provider.CommitJournal();
    }
  }
}
