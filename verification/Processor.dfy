/** The block processor object, refining the state machine step by step. */
module Processor {
  import opened Primitives
  import opened ChainTypes
  import opened Ledger
  import opened Hashing
  import opened StateRoot
  import opened Execution
  import opened Provider
  import opened Pipeline
  import opened ProcessorSpec

  /** The chain head published to the other tasks. */
  class SharedHead {
    var head: ChainHead

    constructor (head: ChainHead)
      ensures this.head == head
    {
      this.head := head;
    }
  }

  class MetricsCell {
    var counts: Metrics

    constructor ()
      ensures counts == Metrics(0, 0, 0, 0, 0, 0)
    {
      counts := Metrics(0, 0, 0, 0, 0, 0);
    }
  }

  datatype ProcessResult = Done | Rejected(verdict: Verdict) | Stale(error: ProcessorError)

  datatype ProcessorMessage =
    | NewBlock(block: Block, peerId: u64)
    | GetAccountState(address: Address)
    | Shutdown

  class BlockProcessor {
    var pendingMap: map<nat, PendingBlock>
    var chainHead: ChainHead
    /** A panic has ended the task; the object is of no further use. */
    var halted: bool
    const env: Env
    const provider: InMemoryProvider
    const sharedHead: SharedHead
    const metrics: MetricsCell

    ghost predicate Valid()
      reads this, provider
    {
      provider.keccak == env.keccak && (provider.journal == None <==> !halted) && PendingOk(pendingMap)
    }

    ghost function View(): State
      reads this, provider, sharedHead, metrics
    {
      State(pendingMap, provider.Committed(), chainHead, sharedHead.head, metrics.counts, halted)
    }

    constructor (env: Env, g: Genesis, sharedHead: SharedHead)
      ensures Valid() && this.env == env && this.sharedHead == sharedHead
      ensures fresh(provider) && fresh(metrics)
      ensures View() == Initial(env, g).(head := sharedHead.head, sharedHead := sharedHead.head)
      ensures sharedHead.head == old(sharedHead.head)
    {
      hide HashHeader, Indexed;
      this.env := env;
      this.sharedHead := sharedHead;
      pendingMap := map[];
      chainHead := sharedHead.head;
      halted := false;
      provider := new InMemoryProvider(env.keccak);
      metrics := new MetricsCell();
      new;
      provider.InsertBlock(g.block);
      var todo := g.accounts.Keys;
      ghost var done: Accounts := map[];
      while todo != {}
        invariant provider.journal == None && todo <= g.accounts.Keys
        invariant pendingMap == map[] && !halted && chainHead == sharedHead.head == old(sharedHead.head)
        invariant metrics.counts == Metrics(0, 0, 0, 0, 0, 0)
        invariant done == map a | a in g.accounts && a !in todo :: g.accounts[a]
        invariant provider.View() == WithBlock(env.keccak, Store(map[], map[], map[], done), g.block)
        decreases |todo|
      {
        var address :| address in todo;
        provider.SetAccount(address, g.accounts[address]);
        todo := todo - {address};
        done := done[address := g.accounts[address]];
      }
      assert done == g.accounts;
    }

    method BuildBlockWithSenders(block: Block) returns (r: Option<BlockWithSenders>)
      ensures r == (var senders := Senders(env, block.transactions);
                    if senders.Some? then Some(BlockWithSenders(block, senders.value)) else None)
    {
      var senders: seq<Address> := [];
      for i := 0 to |block.transactions|
        invariant Senders(env, block.transactions[..i]) == Some(senders)
      {
        assert block.transactions[..i + 1][..i] == block.transactions[..i];
        var sender := env.recover(block.transactions[i], env.chainId);
        if sender.None? {
          NoSenders(env, block.transactions, i + 1);
          return None;
        }
        senders := senders + [sender.value];
      }
      assert block.transactions[..|block.transactions|] == block.transactions;
      return Some(BlockWithSenders(block, senders));
    }

    method ProcessBlock(block: Block) returns (r: ProcessResult)
      requires Valid() && !halted
      modifies this`chainHead, this`halted, provider, sharedHead, metrics
      ensures Valid() && View() == Processed(env, old(View()), block)
      ensures var v := VerdictOn(env, old(provider.View()), old(chainHead), block);
              r == if v.Committed? then Done else Rejected(v)
    {
      var number := block.header.number;
      var parent := BlockByHash(provider.View(), block.header.parentHash);
      if parent.Err? {
        r := RejectValidation(ParentNotFound(number));
        return;
      }
      var parentHeader := parent.value.header;
      if parentHeader.number + 1 != number {
        r := RejectValidation(InvalidNumber(number, parentHeader.number + 1));
        return;
      }
      if parentHeader.timestamp >= block.header.timestamp {
        r := RejectValidation(TimestampNotAfterParent(parentHeader.timestamp, block.header.timestamp));
        return;
      }
      if chainHead.number + 1 != number {
        r := RejectValidation(InvalidNumber(number, chainHead.number + 1));
        return;
      }
      r := ExecuteAndCommit(block);
    }

    method RejectValidation(error: ProcessorError) returns (r: ProcessResult)
      modifies metrics
      ensures metrics.counts == CountVerdict(old(metrics.counts), RejectedInValidation(error))
      ensures r == Rejected(RejectedInValidation(error))
    {
      metrics.counts := metrics.counts.(rejectedValidation := WrapAdd(metrics.counts.rejectedValidation, 1));
      return Rejected(RejectedInValidation(error));
    }

    /** The part after the parent and head checks: senders, pipeline, storage, head, counters. */
    method ExecuteAndCommit(block: Block) returns (r: ProcessResult)
      requires Valid() && !halted
      modifies this`chainHead, this`halted, provider, sharedHead, metrics
      ensures Valid()
      ensures var senders := Senders(env, block.transactions);
              var v := if senders.None? then SendersNotRecovered
                       else PipelineVerdict(
                              PipelineResult(env.keccak, old(provider.View()), BlockWithSenders(block, senders.value)));
              && r == (if v.Committed? then Done else Rejected(v))
              && View() == ProcessedAs(env, old(View()), block, v)
    {
      hide PipelineResult, Indexed, HashHeader, StateRootOf;
      var withSenders := BuildBlockWithSenders(block);
      if withSenders.None? {
        return Rejected(SendersNotRecovered);
      }
      var output := ExecutePipeline(provider, withSenders.value);
      if output == Err(CreationReached) {
        halted := true;
        return Rejected(Halted);
      }
      if output.Err? {
        metrics.counts := metrics.counts.(rejectedExecution := WrapAdd(metrics.counts.rejectedExecution, 1));
        return Rejected(RejectedInExecution(output.error));
      }
      var hash := HashHeader(env.keccak, block.header);
      provider.InsertBlock(block);
      chainHead := ChainHead(block.header.number, hash, chainHead.totalDifficulty + block.header.gasUsed);
      sharedHead.head := ChainHead(block.header.number, hash, chainHead.totalDifficulty);
      metrics.counts := metrics.counts.(
        committed := WrapAdd(metrics.counts.committed, 1),
        transactions := WrapAdd(metrics.counts.transactions, |output.value.receipts|),
        gas := WrapAdd(metrics.counts.gas, output.value.gasUsed));
      return Done;
    }

    method TryDrain()
      requires Valid() && !halted
      modifies this`pendingMap, this`chainHead, this`halted, provider, sharedHead, metrics
      ensures Valid() && View() == Drained(env, old(View()), old(chainHead.number) + 1)
    {
      hide Processed;
      var nextBlockNumber: nat := chainHead.number + 1;
      while !halted && nextBlockNumber in pendingMap
        invariant Valid()
        invariant Drained(env, View(), nextBlockNumber) == Drained(env, old(View()), old(chainHead.number) + 1)
        decreases |pendingMap|
      {
        var block := pendingMap[nextBlockNumber].block;
        pendingMap := pendingMap - {nextBlockNumber};
        var r := ProcessBlock(block);
        nextBlockNumber := nextBlockNumber + 1;
      }
    }

    method HandleNewBlock(block: Block, peerId: u64) returns (r: ProcessResult)
      requires Valid() && !halted
      modifies this`pendingMap, this`chainHead, this`halted, provider, sharedHead, metrics
      ensures Valid() && View() == Handled(env, old(View()), block, peerId)
      ensures r == if block.header.number <= old(chainHead.number)
                   then Stale(InvalidNumber(block.header.number, old(chainHead.number) + 1)) else Done
    {
      hide Drained;
      metrics.counts := metrics.counts.(received := WrapAdd(metrics.counts.received, 1));
      if block.header.number <= chainHead.number {
        metrics.counts := metrics.counts.(rejectedValidation := WrapAdd(metrics.counts.rejectedValidation, 1));
        return Stale(InvalidNumber(block.header.number, chainHead.number + 1));
      }
      pendingMap := pendingMap[block.header.number := PendingBlock(block, peerId)];
      TryDrain();
      return Done;
    }

    /** The message loop; on shutdown or a closed channel it drains once more and drops the rest, unless it panicked. */
    method Run(inbox: seq<ProcessorMessage>) returns (answers: seq<Result<Account, ExecutionError>>)
      requires Valid() && !halted
      modifies this`pendingMap, this`chainHead, this`halted, provider, sharedHead, metrics
      ensures var s := Received(env, old(View()), Served(inbox));
              && View() == FinallyDrained(env, s)
              && answers == Answers(env, old(View()), Served(inbox))
    {
      hide Received, Answers, Drained;
      answers := Serve(inbox);
      if halted {
        HaltedDrains(env, View());
        return;
      }
      TryDrain();
      if !halted {
        DropPending();
      }
    }

    method Serve(inbox: seq<ProcessorMessage>) returns (answers: seq<Result<Account, ExecutionError>>)
      requires Valid() && !halted
      modifies this`pendingMap, this`chainHead, this`halted, provider, sharedHead, metrics
      ensures Valid() && View() == Received(env, old(View()), Served(inbox))
      ensures answers == Answers(env, old(View()), Served(inbox))
    {
      hide Handled;
      answers := [];
      var i := 0;
      while !halted && i < |inbox| && inbox[i] != Shutdown
        invariant 0 <= i <= |inbox| && Valid()
        invariant forall j :: 0 <= j < i ==> inbox[j] != Shutdown
        invariant View() == Received(env, old(View()), inbox[..i])
        invariant answers == Answers(env, old(View()), inbox[..i])
      {
        assert inbox[..i + 1][..i] == inbox[..i];
        match inbox[i] {
          case NewBlock(block, peerId) =>
            var r := HandleNewBlock(block, peerId);
          case GetAccountState(address) =>
            answers := answers + [provider.GetAccount(address)];
        }
        i := i + 1;
      }
      ServedUpTo(inbox, i);
      if halted {
        assert Served(inbox)[..i] == inbox[..i];
        NothingAfterHalt(env, old(View()), Served(inbox), i);
      }
    }

    method DropPending()
      modifies this`pendingMap
      ensures pendingMap == map[]
    {
      while pendingMap != map[]
        decreases |pendingMap|
      {
        var number :| number in pendingMap;
        pendingMap := pendingMap - {number};
      }
    }
  }

  lemma {:induction false} NoSenders(env: Env, txs: seq<SignedTransaction>, k: nat)
    requires k <= |txs| && Senders(env, txs[..k]).None?
    ensures Senders(env, txs).None?
    decreases |txs|
  {
    if k == |txs| {
      assert txs[..k] == txs;
    } else {
      var front := txs[..|txs| - 1];
      assert front[..k] == txs[..k];
      NoSenders(env, front, k);
    }
  }

  lemma {:induction false} HaltedDrains(env: Env, s: State)
    requires s.halted
    ensures FinallyDrained(env, s) == s
  {
  }

  /** The last drain empties the buffer, unless the task has panicked or does so now. */
  function FinallyDrained(env: Env, s: State): State {
    var s' := Drained(env, s, s.head.number + 1);
    if s'.halted then s' else s'.(pending := map[])
  }

  /** The messages handled before the first shutdown. */
  function Served(inbox: seq<ProcessorMessage>): (r: seq<ProcessorMessage>)
    ensures r <= inbox
  {
    if inbox == [] || inbox[0] == Shutdown then [] else [inbox[0]] + Served(inbox[1..])
  }

  lemma {:induction false} ServedUpTo(inbox: seq<ProcessorMessage>, i: nat)
    requires i <= |inbox| && forall j :: 0 <= j < i ==> inbox[j] != Shutdown
    ensures inbox[..i] <= Served(inbox)
    ensures i == |inbox| || inbox[i] == Shutdown ==> Served(inbox) == inbox[..i]
    decreases i
  {
    if i > 0 {
      ServedUpTo(inbox[1..], i - 1);
      assert inbox[..i] == [inbox[0]] + inbox[1..][..i - 1];
    }
  }

  /** The state after a sequence of messages; only new blocks change it. */
  function Received(env: Env, s: State, messages: seq<ProcessorMessage>): (s': State)
    ensures PendingOk(s.pending) ==> PendingOk(s'.pending)
  {
    if messages == [] then s
    else
      var before, last := Received(env, s, messages[..|messages| - 1]), messages[|messages| - 1];
      if last.NewBlock? then Handled(env, before, last.block, last.peerId) else before
  }

  /** Each account query that is reached is answered from the state reached by the messages before it. */
  function Answers(env: Env, s: State, messages: seq<ProcessorMessage>): seq<Result<Account, ExecutionError>> {
    if messages == [] then []
    else
      var front, last := messages[..|messages| - 1], messages[|messages| - 1];
      var before := Received(env, s, front);
      var accounts := before.store.accounts;
      Answers(env, s, front) +
      if before.halted || !last.GetAccountState? then []
      else [if last.address in accounts then Ok(accounts[last.address]) else Err(AccountNotFound(last.address))]
  }

  lemma {:induction false} NothingAfterHalt(env: Env, s: State, messages: seq<ProcessorMessage>, k: nat)
    requires k <= |messages| && Received(env, s, messages[..k]).halted
    ensures Received(env, s, messages) == Received(env, s, messages[..k])
    ensures Answers(env, s, messages) == Answers(env, s, messages[..k])
    decreases |messages|
  {
    if k == |messages| {
      assert messages[..k] == messages;
    } else {
      var front := messages[..|messages| - 1];
      assert front[..k] == messages[..k];
      NothingAfterHalt(env, s, front, k);
      assert Answers(env, s, front) + [] == Answers(env, s, front);
    }
  }

  function Deliveries(messages: seq<ProcessorMessage>): seq<Delivery> {
    if messages == [] then []
    else
      var last := messages[|messages| - 1];
      Deliveries(messages[..|messages| - 1]) + if last.NewBlock? then [(last.block, last.peerId)] else []
  }

  /** Queries do not disturb the run: the state is that of the deliveries alone. */
  lemma {:induction false} ReceivedIsRan(env: Env, s: State, messages: seq<ProcessorMessage>)
    ensures Received(env, s, messages) == Ran(env, s, Deliveries(messages))
  {
    hide Handled;
    if messages != [] {
      var front := messages[..|messages| - 1];
      ReceivedIsRan(env, s, front);
      var ds := Deliveries(messages);
      if messages[|messages| - 1].NewBlock? {
        assert ds[..|ds| - 1] == Deliveries(front);
      } else {
        assert ds == Deliveries(front);
      }
    }
  }
}
