/** Value transfers over the account map, and the totals they conserve. */
module Ledger {
  import opened Primitives
  import opened ChainTypes
  import opened Pricing

  /** The last one is not an error of the code: it stands for the panic of its unfinished contract-creation branch. */
  datatype ExecutionError =
    | BlockNotFound(number: nat)
    | HeaderNotFound(hash: B256)
    | AccountNotFound(address: Address)
    | InvalidParentHash(expectedHash: B256, actualHash: B256)
    | GasLimitExceeded(limit: nat, used: nat)
    | InsufficientBalance(account: Address, available: nat, required: nat)
    | InvalidNonce(account: Address, expected: nat, actual: nat)
    | TooManyTransactions(limit: nat, actual: nat)
    | InvalidBlockNumber(expected: nat, actual: nat)
    | Overflow
    | Underflow
    | JournalAlreadySet
    | InvalidTransaction(error: TransactionError)
    | CreationReached

  /** The hash of empty code, given to every account that a transfer creates. */
  const EMPTY_CODE_HASH: B256 := [
    0xc5, 0xd2, 0x46, 0x01, 0x86, 0xf7, 0x23, 0x3c, 0x92, 0x7e, 0x7d, 0xb2, 0xdc, 0xc7, 0x03, 0xc0,
    0xe5, 0x00, 0xb6, 0x53, 0xca, 0x82, 0x27, 0x3b, 0x7b, 0xfa, 0xd8, 0x04, 0x5d, 0x85, 0xa4, 0x70]

  function DefaultAccount(): Account {
    Account(0, 0, EMPTY_CODE_HASH)
  }

  function AccountOr(accounts: Accounts, a: Address): Account {
    if a in accounts then accounts[a] else DefaultAccount()
  }

  /** An address without account holds nothing and has sent nothing. */
  function BalanceOf(accounts: Accounts, a: Address): u128 {
    if a in accounts then accounts[a].balance else 0
  }

  function NonceOf(accounts: Accounts, a: Address): u64 {
    if a in accounts then accounts[a].nonce else 0
  }

  /** What the sender pays besides the value: the effective price for the whole gas limit. */
  function Fee(tx: Transaction, baseFee: u128): nat {
    if EffectiveGasPrice(tx, baseFee).Ok? then EffectiveGasPrice(tx, baseFee).value * tx.gasLimit else 0
  }

  /** The sender's account after the checks and the debit, before anything is written. */
  function Debited(
    accounts: Accounts, tx: Transaction, sender: Address, baseFee: u128): (r: Result<Account, ExecutionError>)
  {
    if sender !in accounts then Err(AccountNotFound(sender))
    else
      var account := accounts[sender];
      if tx.nonce != account.nonce then Err(InvalidNonce(sender, account.nonce, tx.nonce))
      else if MaxCost(tx).Err? then Err(InvalidTransaction(MaxCost(tx).error))
      else if MaxCost(tx).value > account.balance then
        Err(InsufficientBalance(sender, account.balance, MaxCost(tx).value))
      else if EffectiveGasPrice(tx, baseFee).Err? then
        Err(InvalidTransaction(EffectiveGasPrice(tx, baseFee).error))
      else
        Charged(account, Fee(tx, baseFee), tx.value)
  }

  /** Fee and value leave the balance in checked arithmetic, and the nonce advances. */
  function Charged(account: Account, fee: nat, value: u128): (r: Result<Account, ExecutionError>) {
    if fee + value >= U128_LIMIT then Err(Overflow)
    else if account.balance < fee + value then Err(Underflow)
    else if account.nonce + 1 >= U64_LIMIT then Err(Overflow)
    else Ok(account.(balance := account.balance - (fee + value), nonce := account.nonce + 1))
  }

  /** The recipient is read after the sender is written, so self-transfers see the debit. */
  function Credited(accounts: Accounts, to: Address, value: u128): (r: Result<Accounts, ExecutionError>) {
    var recipient := AccountOr(accounts, to);
    if recipient.balance + value >= U128_LIMIT then Err(Overflow)
    else Ok(accounts[to := recipient.(balance := recipient.balance + value)])
  }

  function Transferred(accounts: Accounts, tx: Transaction, sender: Address, baseFee: u128):
    (r: Result<Accounts, ExecutionError>)
  {
    var account :- Debited(accounts, tx, sender, baseFee);
    if tx.to.None? then Err(CreationReached) else Credited(accounts[sender := account], tx.to.value, tx.value)
  }

  // ---------- Who pays whom ----------

  /**
   * A transfer moves the value from the sender to the recipient and takes the price of the whole gas limit from the
   * sender. Code hashes stay, nobody else changes, and a recipient without account gets a blank one.
   */
  lemma {:induction false} TransferMoves(accounts: Accounts, tx: Transaction, sender: Address, baseFee: u128, a: Address)
    requires Transferred(accounts, tx, sender, baseFee).Ok?
    ensures tx.to.Some? && sender in accounts && EffectiveGasPrice(tx, baseFee).Ok?
    ensures var after, price := Transferred(accounts, tx, sender, baseFee).value, EffectiveGasPrice(tx, baseFee).value;
            && BalanceOf(after, a) + (if a == sender then price * tx.gasLimit + tx.value else 0)
               == BalanceOf(accounts, a) + (if tx.to == Some(a) then tx.value else 0)
            && (a in after <==> a in accounts || tx.to == Some(a))
            && (a in accounts ==> after[a].codeHash == accounts[a].codeHash)
            && (a in accounts && a != sender && tx.to != Some(a) ==> after[a] == accounts[a])
            && (a !in accounts && tx.to == Some(a) ==> after[a] == Account(tx.value, 0, EMPTY_CODE_HASH))
  {
    hide MaxCost, EffectiveGasPrice;
  }

  // ---------- When a transfer fails, and how ----------

  /** The transaction is the next one of an account that covers its worst case. */
  predicate Covered(accounts: Accounts, tx: Transaction, sender: Address) {
    && sender in accounts && tx.nonce == accounts[sender].nonce
    && FeeCap(tx) * tx.gasLimit + tx.value <= accounts[sender].balance
  }

  predicate Payable(accounts: Accounts, tx: Transaction, sender: Address, baseFee: u128) {
    Covered(accounts, tx, sender) && Priced(tx, baseFee) && tx.nonce < U64_LIMIT - 1
  }

  /** What is credited fits; a transfer to oneself only gives back what was taken. */
  predicate CreditFits(accounts: Accounts, tx: Transaction, sender: Address)
    requires tx.to.Some?
  {
    tx.to.value == sender || BalanceOf(accounts, tx.to.value) + tx.value < U128_LIMIT
  }

  /** The condition of each error, in terms of the account and the transaction alone. */
  predicate FailsWith(accounts: Accounts, tx: Transaction, sender: Address, baseFee: u128, e: ExecutionError) {
    var cost := FeeCap(tx) * tx.gasLimit + tx.value;
    match e
    case AccountNotFound(a) => a == sender && sender !in accounts
    case InvalidNonce(a, expected, actual) =>
      a == sender && sender in accounts && expected == accounts[sender].nonce != tx.nonce == actual
    case InsufficientBalance(a, available, required) =>
      && a == sender && sender in accounts && accounts[sender].nonce == tx.nonce
      && available == accounts[sender].balance < cost == required < U128_LIMIT
    case InvalidTransaction(InsufficientMaxFee(fee, cap)) =>
      Covered(accounts, tx, sender) && !tx.Legacy? && fee == baseFee > tx.maxFeePerGas == cap
    case InvalidTransaction(TransactionOverflow) =>
      || (sender in accounts && accounts[sender].nonce == tx.nonce && cost >= U128_LIMIT)
      || (Covered(accounts, tx, sender) && !Priced(tx, baseFee) && baseFee <= tx.maxFeePerGas)
    case Overflow =>
      && Covered(accounts, tx, sender) && Priced(tx, baseFee)
      && (tx.nonce == U64_LIMIT - 1 || (tx.to.Some? && !CreditFits(accounts, tx, sender)))
    case CreationReached => Payable(accounts, tx, sender, baseFee) && tx.to.None?
    case _ => false
  }

  lemma {:induction false} DebitedIff(accounts: Accounts, tx: Transaction, sender: Address, baseFee: u128)
    ensures Debited(accounts, tx, sender, baseFee).Ok? <==> Payable(accounts, tx, sender, baseFee)
  {
    DebitNeverOutOfRange(accounts, tx, sender, baseFee);
  }

  /** Exactly when a transfer fails with which error, and when it succeeds. */
  lemma {:induction false} TransferFailsIff(
      accounts: Accounts, tx: Transaction, sender: Address, baseFee: u128, e: ExecutionError)
    ensures Transferred(accounts, tx, sender, baseFee) == Err(e) <==> FailsWith(accounts, tx, sender, baseFee, e)
    ensures Transferred(accounts, tx, sender, baseFee).Ok?
            <==> Payable(accounts, tx, sender, baseFee) && tx.to.Some? && CreditFits(accounts, tx, sender)
  {
    DebitNeverOutOfRange(accounts, tx, sender, baseFee);
    DebitedIff(accounts, tx, sender, baseFee);
    hide MaxCost, EffectiveGasPrice;
  }

  // ---------- Totals ----------

  ghost function Total(accounts: Accounts): (t: nat)
    decreases |accounts|
  {
    if accounts == map[] then 0
    else
      var a :| a in accounts;
      accounts[a].balance + Total(accounts - {a})
  }

  lemma {:induction false} TotalWithout(accounts: Accounts, a: Address)
    requires a in accounts
    ensures Total(accounts) == accounts[a].balance + Total(accounts - {a})
    decreases |accounts|
  {
    var b :| b in accounts && Total(accounts) == accounts[b].balance + Total(accounts - {b});
    if a != b {
      TotalWithout(accounts - {b}, a);
      TotalWithout(accounts - {a}, b);
      assert accounts - {b} - {a} == accounts - {a} - {b};
    }
  }

  lemma {:induction false} TotalUpdate(accounts: Accounts, a: Address, account: Account)
    ensures Total(accounts[a := account]) + (if a in accounts then accounts[a].balance else 0)
            == Total(accounts) + account.balance
  {
    var updated := accounts[a := account];
    TotalWithout(updated, a);
    if a in accounts {
      TotalWithout(accounts, a);
      assert updated - {a} == accounts - {a};
    } else {
      assert updated - {a} == accounts;
    }
  }

  lemma {:induction false} BalanceWithinTotal(accounts: Accounts, a: Address)
    ensures AccountOr(accounts, a).balance <= Total(accounts)
  {
    if a in accounts {
      TotalWithout(accounts, a);
    }
  }

  /** A transfer moves value and burns the fee: nothing else enters or leaves the total. */
  lemma {:induction false} TransferConserves(accounts: Accounts, tx: Transaction, sender: Address, baseFee: u128)
    requires Transferred(accounts, tx, sender, baseFee).Ok?
    ensures Total(Transferred(accounts, tx, sender, baseFee).value) + Fee(tx, baseFee) == Total(accounts)
  {
    DebitTakesValue(accounts, tx, sender, baseFee);
    hide Total, Debited, Fee;
    var account := Debited(accounts, tx, sender, baseFee).value;
    var debited := accounts[sender := account];
    TotalUpdate(accounts, sender, account);
    var recipient := AccountOr(debited, tx.to.value);
    TotalUpdate(debited, tx.to.value, recipient.(balance := recipient.balance + tx.value));
  }

  /** Once the maximum cost is covered, neither the fee nor the debit can leave its range. */
  lemma {:induction false} DebitNeverOutOfRange(accounts: Accounts, tx: Transaction, sender: Address, baseFee: u128)
    ensures Debited(accounts, tx, sender, baseFee) != Err(Underflow)
    ensures Debited(accounts, tx, sender, baseFee) == Err(Overflow) ==>
              sender in accounts && accounts[sender].nonce == U64_LIMIT - 1
  {
    if MaxCost(tx).Ok? && EffectiveGasPrice(tx, baseFee).Ok? {
      DebitWithinMaxCost(tx, baseFee);
    }
  }

  lemma {:induction false} DebitTakesValue(accounts: Accounts, tx: Transaction, sender: Address, baseFee: u128)
    requires Debited(accounts, tx, sender, baseFee).Ok?
    ensures sender in accounts
    ensures Debited(accounts, tx, sender, baseFee).value.balance + Fee(tx, baseFee) + tx.value == accounts[sender].balance
  {
    hide MaxCost, EffectiveGasPrice;
  }

  /** With the supply below 2^128, crediting a recipient cannot overflow. */
  lemma {:induction false} CreditNeverOverflows(accounts: Accounts, tx: Transaction, sender: Address, baseFee: u128)
    requires Total(accounts) < U128_LIMIT && Debited(accounts, tx, sender, baseFee).Ok?
    ensures Transferred(accounts, tx, sender, baseFee).Ok? <==> tx.to.Some?
  {
    DebitTakesValue(accounts, tx, sender, baseFee);
    hide Total, Debited;
    var account := Debited(accounts, tx, sender, baseFee).value;
    TotalUpdate(accounts, sender, account);
    if tx.to.Some? {
      BalanceWithinTotal(accounts[sender := account], tx.to.value);
    }
  }

  /** Exactly when a transfer goes through, given that the supply fits in 128 bits. */
  lemma {:induction false} TransferSucceedsIff(accounts: Accounts, tx: Transaction, sender: Address, baseFee: u128)
    requires Total(accounts) < U128_LIMIT
    ensures Transferred(accounts, tx, sender, baseFee).Ok? <==>
            && tx.to.Some? && sender in accounts
            && tx.nonce == accounts[sender].nonce < U64_LIMIT - 1
            && FeeCap(tx) * tx.gasLimit + tx.value <= accounts[sender].balance
            && EffectiveGasPrice(tx, baseFee).Ok?
  {
    DebitNeverOutOfRange(accounts, tx, sender, baseFee);
    if Debited(accounts, tx, sender, baseFee).Ok? {
      CreditNeverOverflows(accounts, tx, sender, baseFee);
    }
  }

  /** A transfer advances the sender's nonce from the transaction's nonce and touches no other nonce. */
  lemma {:induction false} TransferNonces(accounts: Accounts, tx: Transaction, sender: Address, baseFee: u128, a: Address)
    requires Transferred(accounts, tx, sender, baseFee).Ok?
    ensures tx.nonce == NonceOf(accounts, sender)
    ensures NonceOf(Transferred(accounts, tx, sender, baseFee).value, a)
            == NonceOf(accounts, a) + if a == sender then 1 else 0
  {
  }
}
