/** The block processor as a state machine: verdicts, the pending buffer and the drain. */
module ProcessorSpec {
  import opened Primitives
  import opened ChainTypes
  import opened Ledger
  import opened Hashing
  import opened Execution
  import opened Provider
  import opened Pipeline

  /** What the processor is configured with; sender recovery is an arbitrary partial function. */
  datatype Env = Env(keccak: Keccak, recover: (SignedTransaction, u64) -> Option<Address>, chainId: u64)

  datatype PendingBlock = PendingBlock(block: Block, peerId: u64)

  /** Atomic counters; additions wrap around at 2^64. */
  datatype Metrics = Metrics(
    received: u64, committed: u64, rejectedValidation: u64, rejectedExecution: u64, transactions: u64, gas: u64)

  function WrapAdd(a: u64, b: nat): u64 {
    (a + b) % U64_LIMIT
  }

  /** Once halted, the processor's task is gone; the shared head and the counters outlive it. */
  datatype State = State(
    pending: map<nat, PendingBlock>, store: Store, head: ChainHead, sharedHead: ChainHead, metrics: Metrics, halted: bool)

  datatype ProcessorError =
    | ParentNotFound(blockNumber: nat)
    | InvalidNumber(actual: nat, expected: nat)
    | TimestampNotAfterParent(parentTimestamp: nat, blockTimestamp: nat)

  datatype Verdict =
    | Committed(execution: Execution)
    | RejectedInValidation(invalid: ProcessorError)
    | RejectedInExecution(failed: ExecutionError)
    | SendersNotRecovered
    | Halted

  function Senders(env: Env, txs: seq<SignedTransaction>): (r: Option<seq<Address>>)
    ensures r.Some? ==> |r.value| == |txs|
  {
    if txs == [] then Some([])
    else
      var front := Senders(env, txs[..|txs| - 1]);
      var last := env.recover(txs[|txs| - 1], env.chainId);
      if front.None? || last.None? then None else Some(front.value + [last.value])
  }

  /** The checks of block processing in the order the source makes them; reaching contract creation panics. */
  function VerdictOn(env: Env, store: Store, head: ChainHead, block: Block): Verdict {
    var parent := BlockByHash(store, block.header.parentHash);
    if parent.Err? then RejectedInValidation(ParentNotFound(block.header.number))
    else if parent.value.header.number + 1 != block.header.number then
      RejectedInValidation(InvalidNumber(block.header.number, parent.value.header.number + 1))
    else if parent.value.header.timestamp >= block.header.timestamp then
      RejectedInValidation(TimestampNotAfterParent(parent.value.header.timestamp, block.header.timestamp))
    else if head.number + 1 != block.header.number then
      RejectedInValidation(InvalidNumber(block.header.number, head.number + 1))
    else
      var senders := Senders(env, block.transactions);
      if senders.None? then SendersNotRecovered
      else
        var result := PipelineResult(env.keccak, store, BlockWithSenders(block, senders.value));
        PipelineVerdict(result)
  }

  function PipelineVerdict(result: Result<Execution, ExecutionError>): Verdict {
    if result.Ok? then Committed(result.value)
    else if result.error == CreationReached then Halted
    else RejectedInExecution(result.error)
  }

  function HeadAfter(env: Env, head: ChainHead, block: Block): ChainHead {
    ChainHead(block.header.number, HashHeader(env.keccak, block.header), head.totalDifficulty + block.header.gasUsed)
  }

  function CountVerdict(m: Metrics, v: Verdict): Metrics {
    match v
    case Committed(e) =>
      m.(committed := WrapAdd(m.committed, 1),
         transactions := WrapAdd(m.transactions, |e.receipts|),
         gas := WrapAdd(m.gas, e.gasUsed))
    case RejectedInValidation(_) => m.(rejectedValidation := WrapAdd(m.rejectedValidation, 1))
    case RejectedInExecution(_) => m.(rejectedExecution := WrapAdd(m.rejectedExecution, 1))
    case SendersNotRecovered => m
    case Halted => m
  }

  function Processed(env: Env, s: State, block: Block): (s': State)
    ensures s'.pending == s.pending
  {
    ProcessedAs(env, s, block, VerdictOn(env, s.store, s.head, block))
  }

  function ProcessedAs(env: Env, s: State, block: Block, v: Verdict): (s': State)
    ensures s'.pending == s.pending
  {
    var counted := s.(metrics := CountVerdict(s.metrics, v), halted := s.halted || v.Halted?);
    if v.Committed? then
      var head := HeadAfter(env, s.head, block);
      counted.(store := WithBlock(env.keccak, s.store.(accounts := v.execution.accounts), block),
               head := head, sharedHead := head)
    else counted
  }

  /** Buffered blocks sit under their own number. */
  predicate PendingOk(pending: map<nat, PendingBlock>) {
    forall n :: n in pending ==> pending[n].block.header.number == n
  }

  /** The drain loop: take the next number while it is buffered, whatever became of the last one, short of a panic. */
  function Drained(env: Env, s: State, next: nat): (s': State)
    ensures PendingOk(s.pending) ==> PendingOk(s'.pending)
    decreases |s.pending|
  {
    if s.halted || next !in s.pending then s
    else
      var taken := s.(pending := s.pending - {next});
      Drained(env, Processed(env, taken, s.pending[next].block), next + 1)
  }

  function Handled(env: Env, s: State, block: Block, peerId: u64): (s': State)
    ensures PendingOk(s.pending) ==> PendingOk(s'.pending)
  {
    var received := s.(metrics := s.metrics.(received := WrapAdd(s.metrics.received, 1)));
    if s.halted then s
    else if block.header.number <= s.head.number then
      received.(metrics := received.metrics.(rejectedValidation := WrapAdd(received.metrics.rejectedValidation, 1)))
    else
      Drained(env, received.(pending := s.pending[block.header.number := PendingBlock(block, peerId)]), s.head.number + 1)
  }

  /** Deliveries in order of arrival. */
  type Delivery = (Block, u64)

  function Ran(env: Env, s: State, ds: seq<Delivery>): (s': State)
    ensures PendingOk(s.pending) ==> PendingOk(s'.pending)
  {
    if ds == [] then s
    else
      var last := ds[|ds| - 1];
      Handled(env, Ran(env, s, ds[..|ds| - 1]), last.0, last.1)
  }

  datatype Genesis = Genesis(block: Block, accounts: Accounts)

  /** The state after construction, with the shared head naming the genesis block. */
  function Initial(env: Env, g: Genesis): State {
    var head := ChainHead(g.block.header.number, HashHeader(env.keccak, g.block.header), 0);
    State(map[], WithBlock(env.keccak, Store(map[], map[], map[], g.accounts), g.block), head, head,
          Metrics(0, 0, 0, 0, 0, 0), false)
  }
}
