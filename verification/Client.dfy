/** The client loop end to end: what the builder generates, the processor commits. */
module Client {
  import opened Primitives
  import opened ChainTypes
  import opened Ledger
  import opened Hashing
  import opened Execution
  import opened Provider
  import opened Pipeline
  import opened ProcessorSpec
  import opened ProcessorRuns
  import opened ChainLedger
  import opened Builder

  /** Recovering a signature gives back the signer's address, and signing keeps the transaction. */
  ghost predicate Sound(c: Crypto, addressOf: Key -> Address) {
    forall tx, key, id :: c.sign(tx, key, id).Some? ==>
      && c.sign(tx, key, id).value.transaction == tx
      && c.recover(c.sign(tx, key, id).value, id) == Some(addressOf(key))
  }

  function EnvOf(c: Crypto, chainId: u64): Env {
    Env(c.keccak, c.recover, chainId)
  }

  // ---------- Blocks of independent, funded transfers execute ----------

  predicate Distinct(senders: seq<Address>) {
    forall i, j :: 0 <= i < j < |senders| ==> senders[i] != senders[j]
  }

  predicate Funded(accounts: Accounts, tx: Transaction, sender: Address) {
    && tx.Legacy? && tx.to.Some?
    && sender in accounts
    && tx.nonce == accounts[sender].nonce < U64_LIMIT - 1
    && tx.gasPrice * tx.gasLimit + tx.value <= accounts[sender].balance
  }

  predicate AllFunded(accounts: Accounts, b: BlockWithSenders) {
    && |b.senders| == |b.block.transactions|
    && forall i :: 0 <= i < |b.senders| ==> Funded(accounts, b.block.transactions[i].transaction, b.senders[i])
  }

  /** Accounts other than those that have sent keep their nonce and can only have gained. */
  ghost predicate Untouched(before: Accounts, after: Accounts, sent: seq<Address>) {
    forall a :: a in before && a !in sent ==>
      a in after && after[a].nonce == before[a].nonce && after[a].balance >= before[a].balance
  }

  lemma {:induction false} TransferTouchesSender(
      accounts: Accounts, tx: Transaction, sender: Address, baseFee: u128, a: Address)
    requires Transferred(accounts, tx, sender, baseFee).Ok? && a in accounts && a != sender
    ensures var after := Transferred(accounts, tx, sender, baseFee).value;
            a in after && after[a].nonce == accounts[a].nonce && after[a].balance >= accounts[a].balance
  {
    hide Debited;
  }

  lemma {:induction false} FundedTransfers(accounts: Accounts, tx: Transaction, sender: Address, baseFee: u128)
    requires Funded(accounts, tx, sender) && Total(accounts) < U128_LIMIT
    ensures Transferred(accounts, tx, sender, baseFee).Ok?
  {
    hide Total, Transferred;
    TransferSucceedsIff(accounts, tx, sender, baseFee);
  }

  lemma {:induction false} GasLimitsGrow(txs: seq<SignedTransaction>, k: nat)
    requires k <= |txs|
    ensures GasLimits(txs[..k]) <= GasLimits(txs)
    decreases |txs|
  {
    if k < |txs| {
      var front := txs[..|txs| - 1];
      GasLimitsGrow(front, k);
      assert front[..k] == txs[..k];
    } else {
      assert txs[..k] == txs;
    }
  }

  lemma {:induction false} UntouchedStep(
      before: Accounts, mid: Accounts, sent: seq<Address>, tx: Transaction, sender: Address, baseFee: u128)
    requires Untouched(before, mid, sent) && Transferred(mid, tx, sender, baseFee).Ok?
    ensures Untouched(before, Transferred(mid, tx, sender, baseFee).value, sent + [sender])
  {
    hide Transferred;
    forall a | a in before && a !in sent + [sender]
      ensures var after := Transferred(mid, tx, sender, baseFee).value;
              a in after && after[a].nonce == before[a].nonce && after[a].balance >= before[a].balance
    {
      assert sender in sent + [sender] && (forall x :: x in sent ==> x in sent + [sender]);
      TransferTouchesSender(mid, tx, sender, baseFee, a);
    }
  }

  lemma {:induction false} StepSucceeds(keccak: Keccak, accounts: Accounts, b: BlockWithSenders, k: nat, e: Execution)
    requires k < PairCount(b) && AllFunded(accounts, b) && Distinct(b.senders)
    requires Untouched(accounts, e.accounts, b.senders[..k]) && Total(e.accounts) < U128_LIMIT
    requires e.gasUsed + b.block.transactions[k].transaction.gasLimit < U64_LIMIT
    ensures Step(keccak, e, b, k).Ok?
    ensures Untouched(accounts, Step(keccak, e, b, k).value.accounts, b.senders[..k + 1])
  {
    var tx, sender := b.block.transactions[k].transaction, b.senders[k];
    assert Funded(accounts, tx, sender);
    FreshSender(b.senders, k);
    hide Total, Transferred, ReceiptFor, Untouched, Funded;
    FundedStays(accounts, e.accounts, b.senders[..k], tx, sender);
    FundedTransfers(e.accounts, tx, sender, BaseFee(b.block.header));
    UntouchedStep(accounts, e.accounts, b.senders[..k], tx, sender, BaseFee(b.block.header));
  }

  lemma {:induction false} FreshSender(senders: seq<Address>, k: nat)
    requires k < |senders| && Distinct(senders)
    ensures senders[k] !in senders[..k] && senders[..k + 1] == senders[..k] + [senders[k]]
  {
  }

  lemma {:induction false} FundedStays(
      accounts: Accounts, mid: Accounts, sent: seq<Address>, tx: Transaction, sender: Address)
    requires Funded(accounts, tx, sender) && Untouched(accounts, mid, sent) && sender !in sent
    ensures Funded(mid, tx, sender)
  {
  }

  /** Transfers from distinct, funded senders all go through, in any amounts and to anyone. */
  lemma {:induction false} FundedBlockExecutes(keccak: Keccak, accounts: Accounts, b: BlockWithSenders, k: nat)
    requires k <= PairCount(b) && AllFunded(accounts, b) && Distinct(b.senders)
    requires Total(accounts) < U128_LIMIT && GasLimits(b.block.transactions) < U64_LIMIT
    ensures Folded(keccak, accounts, b, k).Ok?
    ensures Untouched(accounts, Folded(keccak, accounts, b, k).value.accounts, b.senders[..k])
  {
    hide Total, Step, AllFunded, Distinct, Untouched, GasLimits, TotalFees, ReceiptFor;
    if k == 0 {
      NothingSent(accounts, b.senders);
    } else {
      FundedBlockExecutes(keccak, accounts, b, k - 1);
      var e := Folded(keccak, accounts, b, k - 1).value;
      ExecutionConserves(keccak, accounts, b, k - 1);
      ReceiptsAccount(keccak, accounts, b, k - 1);
      GasUpTo(b.block.transactions, k - 1);
      StepSucceeds(keccak, accounts, b, k - 1, e);
    }
  }

  lemma {:induction false} NothingSent(accounts: Accounts, senders: seq<Address>)
    ensures Untouched(accounts, accounts, senders[..0])
  {
  }

  lemma {:induction false} GasUpTo(txs: seq<SignedTransaction>, k: nat)
    requires k < |txs|
    ensures GasLimits(txs[..k]) + txs[k].transaction.gasLimit <= GasLimits(txs)
  {
    GasLimitsGrow(txs, k + 1);
    assert txs[..k + 1][..k] == txs[..k];
  }

  // ---------- What the builder puts into a block ----------

  function SenderAt(addressOf: Key -> Address, b: BuilderState, specs: seq<TransactionSpec>, i: nat): Address
    requires i < |specs|
  {
    if specs[i].senderIndex < |b.signingKeys| then addressOf(b.signingKeys[specs[i].senderIndex]) else Zeros(20)
  }

  function SendersOf(addressOf: Key -> Address, b: BuilderState, specs: seq<TransactionSpec>): seq<Address> {
    seq(|specs|, i requires 0 <= i < |specs| => SenderAt(addressOf, b, specs, i))
  }

  /** A transfer as the spec asks for it: from the sender's snapshot, at the fixed price of one gigawei, without data. */
  predicate BuiltFrom(
    c: Crypto, b: BuilderState, signed: SignedTransaction, spec: TransactionSpec, sender: Address, snapshots: Snapshots)
  {
    && sender in snapshots
    && signed.transaction
       == Legacy(snapshots[sender].nonce, 1_000_000_000, spec.gasLimit, Some(spec.recipient), spec.value, [])
    && 1_000_000_000 * spec.gasLimit + spec.value <= snapshots[sender].balance
    && c.recover(signed, b.chainId) == Some(sender)
  }

  lemma {:induction false} BuiltTransactionFacts(
    c: Crypto, addressOf: Key -> Address, b: BuilderState, specs: seq<TransactionSpec>, snapshots: Snapshots, i: nat)
    requires Sound(c, addressOf) && i < |specs| && BuiltTransaction(c, b, specs[i], snapshots).Ok?
    ensures var signed, sender := BuiltTransaction(c, b, specs[i], snapshots).value, SenderAt(addressOf, b, specs, i);
            BuiltFrom(c, b, signed, specs[i], sender, snapshots)
  {
  }

  lemma {:induction false} SendersSnoc(
    c: Crypto, addressOf: Key -> Address, b: BuilderState, specs: seq<TransactionSpec>, snapshots: Snapshots,
    front: seq<SignedTransaction>, signed: SignedTransaction, k: nat)
    requires 0 < k <= |specs| && BuiltFrom(c, b, signed, specs[k - 1], SenderAt(addressOf, b, specs, k - 1), snapshots)
    requires Senders(EnvOf(c, b.chainId), front) == Some(SendersOf(addressOf, b, specs)[..k - 1])
    ensures Senders(EnvOf(c, b.chainId), front + [signed]) == Some(SendersOf(addressOf, b, specs)[..k])
    ensures GasLimits(front + [signed]) == GasLimits(front) + specs[k - 1].gasLimit
  {
    hide SenderAt;
    assert (front + [signed])[..|front|] == front;
    var senders := SendersOf(addressOf, b, specs);
    assert senders[..k] == senders[..k - 1] + [senders[k - 1]];
  }

  lemma {:induction false} NothingBuilt(c: Crypto, b: BuilderState, specs: seq<TransactionSpec>, snapshots: Snapshots)
    ensures BuiltTransactions(c, b, specs, snapshots, 0) == Ok(([], 0))
    ensures Senders(EnvOf(c, b.chainId), []) == Some([]) && GasLimits([]) == 0
  {
  }

  lemma {:induction false} BuiltSnoc(
      c: Crypto, b: BuilderState, specs: seq<TransactionSpec>, snapshots: Snapshots, k: nat)
    requires 0 < k <= |specs| && BuiltTransactions(c, b, specs, snapshots, k).Ok?
    ensures var front := BuiltTransactions(c, b, specs, snapshots, k - 1);
            var last := BuiltTransaction(c, b, specs[k - 1], snapshots);
            && front.Ok? && last.Ok?
            && BuiltTransactions(c, b, specs, snapshots, k).value
                == (front.value.0 + [last.value], front.value.1 + specs[k - 1].gasLimit)
  {
    hide BuiltTransaction;
  }

  lemma {:induction false} BuiltTransactionsFacts(
    c: Crypto, addressOf: Key -> Address, b: BuilderState, specs: seq<TransactionSpec>, snapshots: Snapshots, k: nat)
    requires Sound(c, addressOf) && k <= |specs| && BuiltTransactions(c, b, specs, snapshots, k).Ok?
    ensures var (txs, gas) := BuiltTransactions(c, b, specs, snapshots, k).value;
            && |txs| == k
            && gas == GasLimits(txs)
            && (forall i :: 0 <= i < k ==> BuiltFrom(c, b, txs[i], specs[i], SenderAt(addressOf, b, specs, i), snapshots))
            && Senders(EnvOf(c, b.chainId), txs) == Some(SendersOf(addressOf, b, specs)[..k])
  {
    hide BuiltTransaction, Sound, SendersOf, BuiltFrom, BuiltTransactions, SenderAt, Senders, GasLimits;
    if k == 0 {
      NothingBuilt(c, b, specs, snapshots);
      assert SendersOf(addressOf, b, specs)[..0] == [];
    } else {
      BuiltSnoc(c, b, specs, snapshots, k);
      BuiltTransactionsFacts(c, addressOf, b, specs, snapshots, k - 1);
      BuiltTransactionFacts(c, addressOf, b, specs, snapshots, k - 1);
      var (front, _) := BuiltTransactions(c, b, specs, snapshots, k - 1).value;
      var (txs, _) := BuiltTransactions(c, b, specs, snapshots, k).value;
      assert txs == front + [txs[k - 1]];
      SendersSnoc(c, addressOf, b, specs, snapshots, front, txs[k - 1], k);
    }
  }

  /**
   * A generated block stands on the builder's head, twelve seconds per block after genesis, and carries for every spec,
   * at its place, the transfer it asks for, signed by the key it names.
   */
  lemma {:induction false} GeneratedFrom(
    c: Crypto, addressOf: Key -> Address, b: BuilderState, specs: seq<TransactionSpec>, snapshots: Snapshots)
    requires Sound(c, addressOf) && Generated(c, b, specs, snapshots).Ok?
    ensures var Block(header, txs) := Generated(c, b, specs, snapshots).value;
            && header.parentHash == b.hash && header.number == b.number + 1
            && header.timestamp == b.genesisTimestamp + 12 * (b.number + 1)
            && header.gasLimit == b.gasLimit && header.gasUsed == GasLimits(txs)
            && header.beneficiary == Zeros(20) && header.stateRoot == header.transactionsRoot == Zeros(32)
            && |txs| == |specs|
            && Senders(EnvOf(c, b.chainId), txs) == Some(SendersOf(addressOf, b, specs))
            && forall i :: 0 <= i < |specs| ==>
                 && specs[i].senderIndex < |b.signingKeys|
                 && BuiltFrom(c, b, txs[i], specs[i], addressOf(b.signingKeys[specs[i].senderIndex]), snapshots)
  {
    hide BuiltTransactions, Sound, Senders, GasLimits, BuiltFrom;
    BuiltTransactionsFacts(c, addressOf, b, specs, snapshots, |specs|);
    KeysKnown(c, b, specs, snapshots, |specs|);
    assert SendersOf(addressOf, b, specs)[..|specs|] == SendersOf(addressOf, b, specs);
  }

  lemma {:induction false} KeysKnown(
      c: Crypto, b: BuilderState, specs: seq<TransactionSpec>, snapshots: Snapshots, k: nat)
    requires k <= |specs| && BuiltTransactions(c, b, specs, snapshots, k).Ok?
    ensures forall i :: 0 <= i < k ==> specs[i].senderIndex < |b.signingKeys|
  {
    if k > 0 {
      KeysKnown(c, b, specs, snapshots, k - 1);
    }
  }

  // ---------- When a block cannot be generated ----------

  /** The condition of each error on one spec. */
  ghost predicate CannotBuild(
    c: Crypto, addressOf: Key -> Address, b: BuilderState, spec: TransactionSpec, snapshots: Snapshots, e: BuilderError)
  {
    if spec.senderIndex >= |b.signingKeys| then e == UnknownSenderIndex(spec.senderIndex)
    else
      var key := b.signingKeys[spec.senderIndex];
      var sender, cost := addressOf(key), 1_000_000_000 * spec.gasLimit + spec.value;
      var probed := c.sign(Legacy(0, 1_000_000_000, 21_000, None, 0, []), key, b.chainId).Some?;
      match e
      case UnknownSenderIndex(_) => false
      case MissingAccountSnapshot(a) => probed && a == sender && sender !in snapshots
      case BuilderOverflow => probed && sender in snapshots && cost >= U128_LIMIT
      case InsufficientSnapshot(a, available, required) =>
        && probed && a == sender && sender in snapshots
        && available == snapshots[sender].balance < required == cost
      case SigningFailed =>
        || !probed
        || (&& sender in snapshots && cost <= snapshots[sender].balance
            && c.sign(Legacy(snapshots[sender].nonce, 1_000_000_000, spec.gasLimit, Some(spec.recipient), spec.value, []),
                      key, b.chainId).None?)
  }

  /** Exactly which error a spec that cannot be built gives. */
  lemma {:induction false} BuildFailsIff(
    c: Crypto, addressOf: Key -> Address, b: BuilderState, spec: TransactionSpec, snapshots: Snapshots, e: BuilderError)
    requires Sound(c, addressOf)
    ensures BuiltTransaction(c, b, spec, snapshots) == Err(e) <==> CannotBuild(c, addressOf, b, spec, snapshots, e)
  {
  }

  function GasAsked(specs: seq<TransactionSpec>): nat {
    if specs == [] then 0 else GasAsked(specs[..|specs| - 1]) + specs[|specs| - 1].gasLimit
  }

  lemma {:induction false} BuildsIff(
      c: Crypto, b: BuilderState, specs: seq<TransactionSpec>, snapshots: Snapshots, k: nat)
    requires k <= |specs|
    ensures BuiltTransactions(c, b, specs, snapshots, k).Ok?
            <==> && GasAsked(specs[..k]) < U64_LIMIT
                 && forall i :: 0 <= i < k ==> BuiltTransaction(c, b, specs[i], snapshots).Ok?
    ensures BuiltTransactions(c, b, specs, snapshots, k).Ok?
            ==> BuiltTransactions(c, b, specs, snapshots, k).value.1 == GasAsked(specs[..k])
  {
    hide BuiltTransaction;
    if k > 0 {
      BuildsIff(c, b, specs, snapshots, k - 1);
      assert specs[..k][..k - 1] == specs[..k - 1];
    }
  }

  /** A block is generated exactly when every spec can be built and gas, number and time stay within 64 bits. */
  lemma {:induction false} GeneratesIff(c: Crypto, b: BuilderState, specs: seq<TransactionSpec>, snapshots: Snapshots)
    ensures Generated(c, b, specs, snapshots).Ok? <==>
            && (forall i :: 0 <= i < |specs| ==> BuiltTransaction(c, b, specs[i], snapshots).Ok?)
            && GasAsked(specs) < U64_LIMIT && b.number + 1 < U64_LIMIT
            && b.genesisTimestamp + 12 * (b.number + 1) < U64_LIMIT
  {
    hide BuiltTransaction, BuiltTransactions, GasAsked;
    BuildsIff(c, b, specs, snapshots, |specs|);
    assert specs[..|specs|] == specs;
  }

  // ---------- One round and the whole loop ----------

  /** Snapshots as the processor answers them. */
  predicate Honest(snapshots: Snapshots, accounts: Accounts) {
    forall a :: a in snapshots ==>
      a in accounts && snapshots[a].nonce == accounts[a].nonce && snapshots[a].balance == accounts[a].balance
  }

  predicate StampedByBuilder(b: BuilderState, header: Header) {
    header.timestamp == b.genesisTimestamp + header.number * BLOCK_TIME
  }

  /** Builder and processor agree on the head, nothing is buffered, and the head block carries a
      builder or genesis timestamp. */
  ghost predicate Lockstep(c: Crypto, g: Genesis, b: BuilderState, s: State, chain: seq<Block>) {
    && ChainInv(EnvOf(c, b.chainId), g, s, chain)
    && s.pending == map[] && !s.halted
    && b.number == s.head.number && b.hash == s.head.hash
    && StampedByBuilder(b, chain[|chain| - 1].header)
  }

  datatype Round = Round(specs: seq<TransactionSpec>, snapshots: Snapshots, peerId: u64)

  /** What a round needs: honest snapshots, one transaction per sender, gas and count within the
      limits, and senders not out of nonces. */
  ghost predicate RoundOk(c: Crypto, addressOf: Key -> Address, b: BuilderState, accounts: Accounts, r: Round) {
    && Honest(r.snapshots, accounts)
    && Distinct(SendersOf(addressOf, b, r.specs))
    && |r.specs| <= MAX_TXS
    && (forall a :: a in r.snapshots ==> r.snapshots[a].nonce < U64_LIMIT - 1)
    && Generated(c, b, r.specs, r.snapshots).Ok?
    && Generated(c, b, r.specs, r.snapshots).value.header.gasUsed <= b.gasLimit
  }

  lemma {:induction false} GeneratedFunded(
    c: Crypto, addressOf: Key -> Address, b: BuilderState, accounts: Accounts, r: Round)
    requires Sound(c, addressOf) && RoundOk(c, addressOf, b, accounts, r)
    ensures var block := Generated(c, b, r.specs, r.snapshots).value;
            var senders := SendersOf(addressOf, b, r.specs);
            && NamesRecipients(block)
            && Senders(EnvOf(c, b.chainId), block.transactions) == Some(senders)
            && AllFunded(accounts, BlockWithSenders(block, senders)) && Distinct(senders)
            && block.header.gasUsed == GasLimits(block.transactions) && |block.transactions| == |r.specs|
  {
    hide BuiltTransactions, Sound, SenderAt, Total, Senders;
    BuiltTransactionsFacts(c, addressOf, b, r.specs, r.snapshots, |r.specs|);
    var block, senders := Generated(c, b, r.specs, r.snapshots).value, SendersOf(addressOf, b, r.specs);
    assert senders[..|r.specs|] == senders;
    forall i | 0 <= i < |r.specs| ensures Funded(accounts, block.transactions[i].transaction, senders[i]) {
      assert BuiltFrom(c, b, block.transactions[i], r.specs[i], SenderAt(addressOf, b, r.specs, i), r.snapshots);
    }
  }

  /** The generated block passes every check of the processor and is committed. */
  lemma {:induction false} GeneratedCommits(
    c: Crypto, addressOf: Key -> Address, g: Genesis, b: BuilderState, s: State, chain: seq<Block>, r: Round)
    requires Sound(c, addressOf) && Lockstep(c, g, b, s, chain) && RoundOk(c, addressOf, b, s.store.accounts, r)
    requires Total(g.accounts) < U128_LIMIT
    ensures var block := Generated(c, b, r.specs, r.snapshots).value;
            VerdictOn(EnvOf(c, b.chainId), s.store, s.head, block).Committed?
  {
    GeneratedFunded(c, addressOf, b, s.store.accounts, r);
    ReplayConserves(EnvOf(c, b.chainId), g.accounts, chain[1..]);
    hide Sound, Total, Burned, Senders, Folded, BuiltTransactions, SendersOf, HashHeader, AllFunded, Distinct;
    hide GasLimits, Replayed;
    var block := Generated(c, b, r.specs, r.snapshots).value;
    var bws := BlockWithSenders(block, SendersOf(addressOf, b, r.specs));
    FundedBlockExecutes(c.keccak, s.store.accounts, bws, PairCount(bws));
    var parent := chain[|chain| - 1];
    assert BlockByHash(s.store, block.header.parentHash) == Ok(parent);
    assert ValidatedHeader(c.keccak, block.header, parent.header).Ok?;
  }

  /** One round keeps builder and processor in lockstep, one block further. */
  lemma {:induction false} RoundKeepsLockstep(
    c: Crypto, addressOf: Key -> Address, g: Genesis, b: BuilderState, s: State, chain: seq<Block>, r: Round)
    requires Sound(c, addressOf) && Lockstep(c, g, b, s, chain) && RoundOk(c, addressOf, b, s.store.accounts, r)
    requires Total(g.accounts) < U128_LIMIT
    ensures var block := Generated(c, b, r.specs, r.snapshots).value;
            && Lockstep(c, g, After(c, b, block), Handled(EnvOf(c, b.chainId), s, block, r.peerId), chain + [block])
            && After(c, b, block).number == b.number + 1
  {
    var env, block := EnvOf(c, b.chainId), Generated(c, b, r.specs, r.snapshots).value;
    GeneratedCommits(c, addressOf, g, b, s, chain, r);
    HandleKeepsChain(env, g, s, block, r.peerId, chain);
    DeliverNext(env, s, block, r.peerId);
    hide Sound, RoundOk, ChainInv, VerdictOn, Handled, HandleCommits, HashHeader, BuiltTransactions;
  }

  /** With nothing buffered, delivering a block that commits is processing just that block. */
  lemma {:induction false} DeliverNext(env: Env, s: State, block: Block, peerId: u64)
    requires s.pending == map[] && !s.halted && VerdictOn(env, s.store, s.head, block).Committed?
    ensures HandleCommits(env, s, block, peerId) == [block]
    ensures Handled(env, s, block, peerId).pending == map[]
    ensures Handled(env, s, block, peerId).head == HeadAfter(env, s.head, block) && !Handled(env, s, block, peerId).halted
    ensures Handled(env, s, block, peerId).store.accounts == VerdictOn(env, s.store, s.head, block).execution.accounts
  {
    hide VerdictOn, Processed, HeadAfter, Drained, DrainCommits;
    CommittedExtendsHead(env, s, block);
    var buffered := Buffered(s, block, peerId);
    assert buffered.pending - {block.header.number} == map[];
    ProcessedEffect(env, buffered.(pending := map[]), block);
    DrainOne(env, buffered, block.header.number);
  }

  lemma {:induction false} DrainOne(env: Env, s: State, n: nat)
    requires !s.halted && n in s.pending && s.pending - {n} == map[]
    ensures var after := Processed(env, s.(pending := map[]), s.pending[n].block);
            Drained(env, s, n) == after && DrainCommits(env, s, n) == CommitOf(env, s, s.pending[n].block)
  {
    hide Processed, CommitOf;
    var after := Processed(env, s.(pending := map[]), s.pending[n].block);
    assert Drained(env, after, n + 1) == after && DrainCommits(env, after, n + 1) == [];
  }

  /** The rounds of a client, each one judged in the state the previous ones led to. */
  ghost predicate RoundsOk(c: Crypto, addressOf: Key -> Address, b: BuilderState, s: State, rounds: seq<Round>)
    decreases |rounds|
  {
    rounds == [] ||
    (RoundOk(c, addressOf, b, s.store.accounts, rounds[0]) &&
     var block := Generated(c, b, rounds[0].specs, rounds[0].snapshots).value;
     RoundsOk(c, addressOf, After(c, b, block), Handled(EnvOf(c, b.chainId), s, block, rounds[0].peerId), rounds[1..]))
  }

  ghost function ClientRan(
    c: Crypto, addressOf: Key -> Address, b: BuilderState, s: State, rounds: seq<Round>): (BuilderState, State)
    requires RoundsOk(c, addressOf, b, s, rounds)
    decreases |rounds|
  {
    if rounds == [] then (b, s)
    else
      var block := Generated(c, b, rounds[0].specs, rounds[0].snapshots).value;
      ClientRan(c, addressOf, After(c, b, block), Handled(EnvOf(c, b.chainId), s, block, rounds[0].peerId), rounds[1..])
  }

  /** The blocks the builder generates over the rounds, in order. */
  ghost function AllGenerated(
    c: Crypto, addressOf: Key -> Address, b: BuilderState, s: State, rounds: seq<Round>): seq<Block>
    requires RoundsOk(c, addressOf, b, s, rounds)
    decreases |rounds|
  {
    if rounds == [] then []
    else
      var block := Generated(c, b, rounds[0].specs, rounds[0].snapshots).value;
      var b', s' := After(c, b, block), Handled(EnvOf(c, b.chainId), s, block, rounds[0].peerId);
      [block] + AllGenerated(c, addressOf, b', s', rounds[1..])
  }

  /** The client loop never stalls: every round commits the block it generated, and the heads stay equal. */
  lemma {:induction false} LoopNeverStalls(
    c: Crypto, addressOf: Key -> Address, g: Genesis, b: BuilderState, s: State, chain: seq<Block>, rounds: seq<Round>)
    requires Sound(c, addressOf) && Lockstep(c, g, b, s, chain)
    requires Total(g.accounts) < U128_LIMIT && RoundsOk(c, addressOf, b, s, rounds)
    ensures var (b', s') := ClientRan(c, addressOf, b, s, rounds);
            var generated := AllGenerated(c, addressOf, b, s, rounds);
            && |generated| == |rounds|
            && Lockstep(c, g, b', s', chain + generated)
            && s'.head.number == s.head.number + |rounds|
    decreases |rounds|
  {
    hide Sound, Distinct, Honest, SendersOf, Total, ChainInv, Handled, Generated, After, StampedByBuilder;
    if rounds == [] {
      assert chain + [] == chain;
    } else {
      var block := Generated(c, b, rounds[0].specs, rounds[0].snapshots).value;
      RoundKeepsLockstep(c, addressOf, g, b, s, chain, rounds[0]);
      var b', s' := After(c, b, block), Handled(EnvOf(c, b.chainId), s, block, rounds[0].peerId);
      LoopNeverStalls(c, addressOf, g, b', s', chain + [block], rounds[1..]);
      var later := AllGenerated(c, addressOf, b', s', rounds[1..]);
      assert chain + [block] + later == chain + ([block] + later);
    }
  }

  /** A fresh builder and a fresh processor over the same genesis block start in lockstep. */
  lemma {:induction false} StartInLockstep(c: Crypto, g: Genesis, b: BuilderState)
    requires g.block.header.number == 0 && b.number == 0 && b.hash == HashHeader(c.keccak, g.block.header)
    requires b.genesisTimestamp == g.block.header.timestamp
    ensures Lockstep(c, g, b, Initial(EnvOf(c, b.chainId), g), [g.block])
  {
    hide HashHeader, Indexed;
    InitialChain(EnvOf(c, b.chainId), g);
  }

  /** The conditions of a round can be met: a toy signature scheme, one funded account, one transfer to itself. */
  lemma {:induction false} RoundExists() returns (
      c: Crypto, addressOf: Key -> Address, b: BuilderState, accounts: Accounts, r: Round)
    ensures Sound(c, addressOf) && RoundOk(c, addressOf, b, accounts, r) && |r.specs| == 1 && Total(accounts) < U128_LIMIT
  {
    var key: Key := Zeros(32);
    var sender: Address := key[..20];
    c := Crypto((_: ByteString) => Zeros(32),
                (tx: Transaction, k: Key, _: u64) => if |k| == 32 then Some(SignedTransaction(tx, 0, k, k)) else None,
                (signed: SignedTransaction, _: u64) => Some(signed.r[..20]));
    addressOf := (k: Key) => if |k| == 32 then k[..20] else Zeros(20);
    b := BuilderState([key], 0, Zeros(32), 0, 0, 1, 30_000_000);
    var account := Account(100_000_000_000_000, 0, Zeros(32));
    accounts := map[sender := account];
    r := Round([TransactionSpec(0, sender, 5, 21_000)], map[sender := Snapshot(sender, 0, account.balance)], 0);
    TotalWithout(accounts, sender);
    assert accounts - {sender} == map[];
    OneTransferBuilt(c, b, r.specs, r.snapshots);
  }

  lemma {:induction false} OneTransferBuilt(
      c: Crypto, b: BuilderState, specs: seq<TransactionSpec>, snapshots: Snapshots)
    requires |specs| == 1 && BuiltTransaction(c, b, specs[0], snapshots).Ok? && Stamped(b, b.number + 1).Ok?
    requires b.number + 1 < U64_LIMIT && specs[0].gasLimit <= b.gasLimit
    ensures Generated(c, b, specs, snapshots).Ok?
    ensures Generated(c, b, specs, snapshots).value.header.gasUsed <= b.gasLimit
  {
    hide BuiltTransaction;
    assert BuiltTransactions(c, b, specs, snapshots, 0) == Ok(([], 0));
    assert BuiltTransactions(c, b, specs, snapshots, 1).Ok?;
  }
}
