/** The block builder: signed blocks from account snapshots. */
module Builder {
  import opened Primitives
  import opened ChainTypes
  import opened Pricing
  import opened Hashing

  type Key = ByteString

  /** Signing and recovery are arbitrary partial functions; what they owe each other is `Sound`. */
  datatype Crypto = Crypto(
    keccak: Keccak,
    sign: (Transaction, Key, u64) -> Option<SignedTransaction>,
    recover: (SignedTransaction, u64) -> Option<Address>)

  datatype TransactionSpec = TransactionSpec(senderIndex: nat, recipient: Address, value: u128, gasLimit: u64)

  datatype Snapshot = Snapshot(address: Address, nonce: u64, balance: u128)

  type Snapshots = map<Address, Snapshot>

  datatype BuilderError =
    | UnknownSenderIndex(index: nat)
    | MissingAccountSnapshot(address: Address)
    | InsufficientSnapshot(account: Address, available: u128, required: u128)
    | BuilderOverflow
    | SigningFailed

  datatype BuilderState = BuilderState(
    signingKeys: seq<Key>, number: u64, hash: B256, genesisTimestamp: u64, timestamp: u64, chainId: u64, gasLimit: u64)

  const GAS_PRICE: u128 := 1_000_000_000
  const BLOCK_TIME: nat := 12

  /** The address behind a key is found by signing a probe and recovering its sender. */
  function SenderAddress(c: Crypto, chainId: u64, key: Key): (r: Result<Address, BuilderError>) {
    var probe := Legacy(0, GAS_PRICE, 21_000, None, 0, []);
    var signed := c.sign(probe, key, chainId);
    if signed.None? then Err(SigningFailed)
    else
      var address := c.recover(signed.value, chainId);
      if address.None? then Err(SigningFailed) else Ok(address.value)
  }

  function TransferOf(spec: TransactionSpec, nonce: u64): Transaction {
    Legacy(nonce, GAS_PRICE, spec.gasLimit, Some(spec.recipient), spec.value, [])
  }

  function BuiltTransaction(c: Crypto, b: BuilderState, spec: TransactionSpec, snapshots: Snapshots):
    (r: Result<SignedTransaction, BuilderError>)
  {
    if spec.senderIndex >= |b.signingKeys| then Err(UnknownSenderIndex(spec.senderIndex))
    else
      var key := b.signingKeys[spec.senderIndex];
      var sender :- SenderAddress(c, b.chainId, key);
      if sender !in snapshots then Err(MissingAccountSnapshot(sender))
      else
        var tx := TransferOf(spec, snapshots[sender].nonce);
        if MaxCost(tx).Err? then Err(BuilderOverflow)
        else if MaxCost(tx).value > snapshots[sender].balance then
          Err(InsufficientSnapshot(sender, snapshots[sender].balance, MaxCost(tx).value))
        else
          var signed := c.sign(tx, key, b.chainId);
          if signed.None? then Err(SigningFailed) else Ok(signed.value)
  }

  /** The transactions of the first k specs, with their gas limits summed as they are added. */
  function BuiltTransactions(c: Crypto, b: BuilderState, specs: seq<TransactionSpec>, snapshots: Snapshots, k: nat):
    (r: Result<(seq<SignedTransaction>, u64), BuilderError>)
    requires k <= |specs|
  {
    if k == 0 then Ok(([], 0))
    else
      var front :- BuiltTransactions(c, b, specs, snapshots, k - 1);
      if front.1 + specs[k - 1].gasLimit >= U64_LIMIT then Err(BuilderOverflow)
      else
        var signed :- BuiltTransaction(c, b, specs[k - 1], snapshots);
        Ok((front.0 + [signed], front.1 + specs[k - 1].gasLimit))
  }

  function Stamped(b: BuilderState, number: nat): (r: Result<u64, BuilderError>) {
    if number * BLOCK_TIME >= U64_LIMIT then Err(BuilderOverflow)
    else if b.genesisTimestamp + number * BLOCK_TIME >= U64_LIMIT then Err(BuilderOverflow)
    else Ok(b.genesisTimestamp + number * BLOCK_TIME)
  }

  function Generated(c: Crypto, b: BuilderState, specs: seq<TransactionSpec>, snapshots: Snapshots):
    (r: Result<Block, BuilderError>)
  {
    var built :- BuiltTransactions(c, b, specs, snapshots, |specs|);
    if b.number + 1 >= U64_LIMIT then Err(BuilderOverflow)
    else
      var timestamp :- Stamped(b, b.number + 1);
      Ok(Block(Header(b.hash, Zeros(20), Zeros(32), Zeros(32), b.gasLimit, built.1, timestamp, b.number + 1), built.0))
  }

  function After(c: Crypto, b: BuilderState, block: Block): BuilderState {
    b.(number := block.header.number, hash := HashHeader(c.keccak, block.header), timestamp := block.header.timestamp)
  }

  class BlockBuilder {
    var state: BuilderState
    const crypto: Crypto

    constructor (crypto: Crypto, chainId: u64, genesisHash: B256, genesisTimestamp: u64, gasLimit: u64, keys: seq<Key>)
      ensures this.crypto == crypto
      ensures state == BuilderState(keys, 0, genesisHash, genesisTimestamp, genesisTimestamp, chainId, gasLimit)
    {
      this.crypto := crypto;
      state := BuilderState(keys, 0, genesisHash, genesisTimestamp, genesisTimestamp, chainId, gasLimit);
    }

    method SetCurrentHead(number: u64, hash: B256) returns (r: Result<(), BuilderError>)
      modifies this
      ensures var timestamp := old(state).genesisTimestamp + 12 * number;
              && r == (if timestamp < U64_LIMIT then Ok(()) else Err(BuilderOverflow))
              && state == (if timestamp < U64_LIMIT
                           then old(state).(number := number, hash := hash, timestamp := timestamp) else old(state))
    {
      var timestamp :- Stamped(state, number);
      state := state.(number := number, hash := hash, timestamp := timestamp);
      return Ok(());
    }

    method GenerateBlock(specs: seq<TransactionSpec>, snapshots: Snapshots) returns (r: Result<Block, BuilderError>)
      modifies this
      ensures r == Generated(crypto, old(state), specs, snapshots)
      ensures r.Err? ==> state == old(state)
      ensures r.Ok? ==>
                var header := r.value.header;
                state == old(state).(
                  number := header.number, hash := HashHeader(crypto.keccak, header), timestamp := header.timestamp)
    {
      hide HashHeader, BuiltTransaction;
      var transactions: seq<SignedTransaction> := [];
      var gasUsed: u64 := 0;
      for i := 0 to |specs|
        invariant state == old(state)
        invariant BuiltTransactions(crypto, state, specs, snapshots, i) == Ok((transactions, gasUsed))
      {
        if gasUsed + specs[i].gasLimit >= U64_LIMIT {
          FirstBuildErrorWins(crypto, state, specs, snapshots, i + 1, |specs|);
          return Err(BuilderOverflow);
        }
        var built := BuiltTransaction(crypto, state, specs[i], snapshots);
        if built.Err? {
          FirstBuildErrorWins(crypto, state, specs, snapshots, i + 1, |specs|);
          return Err(built.error);
        }
        gasUsed := gasUsed + specs[i].gasLimit;
        transactions := transactions + [built.value];
      }
      if state.number + 1 >= U64_LIMIT {
        return Err(BuilderOverflow);
      }
      var number := state.number + 1;
      var timestamp :- Stamped(state, number);
      var header := Header(state.hash, Zeros(20), Zeros(32), Zeros(32), state.gasLimit, gasUsed, timestamp, number);
      state := state.(number := number, hash := HashHeader(crypto.keccak, header), timestamp := timestamp);
      return Ok(Block(header, transactions));
    }
  }

  lemma {:induction false} FirstBuildErrorWins(
    c: Crypto, b: BuilderState, specs: seq<TransactionSpec>, snapshots: Snapshots, k: nat, n: nat)
    requires k <= n <= |specs| && BuiltTransactions(c, b, specs, snapshots, k).Err?
    ensures BuiltTransactions(c, b, specs, snapshots, n) == BuiltTransactions(c, b, specs, snapshots, k)
    decreases n
  {
    hide BuiltTransaction;
    if k < n {
      FirstBuildErrorWins(c, b, specs, snapshots, k, n - 1);
    }
  }
}
