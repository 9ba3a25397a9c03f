/** Which verdict the processor gives on which block, in terms of the chain and the accounts alone. */
module Verdicts {
  import opened Primitives
  import opened ChainTypes
  import opened Ledger
  import opened Hashing
  import opened Execution
  import opened Provider
  import opened Pipeline
  import opened ProcessorSpec
  import opened ProcessorRuns

  /** The block is the child of this one: it names its hash, has the next number and is later. */
  predicate Extends(env: Env, last: Block, block: Block) {
    && block.header.parentHash == HashHeader(env.keccak, last.header)
    && block.header.number == last.header.number + 1
    && last.header.timestamp < block.header.timestamp
  }

  // ---------- Validation ----------

  /** Position p of the chain is where the latest block stands whose header has this hash. */
  predicate LatestAt(env: Env, chain: seq<Block>, hash: B256, p: nat) {
    && p < |chain| && HashHeader(env.keccak, chain[p].header) == hash
    && forall q :: p < q < |chain| ==> HashHeader(env.keccak, chain[q].header) != hash
  }

  predicate Unknown(env: Env, chain: seq<Block>, hash: B256) {
    forall p :: 0 <= p < |chain| ==> HashHeader(env.keccak, chain[p].header) != hash
  }

  lemma {:induction false} IndexIsLatest(env: Env, chain: seq<Block>, hash: B256) returns (p: nat)
    ensures if hash in HashIndex(env.keccak, chain)
            then LatestAt(env, chain, hash, p) && HashIndex(env.keccak, chain)[hash] == chain[p].header.number
            else Unknown(env, chain, hash)
  {
    hide HashHeader;
    if chain == [] {
      p := 0;
    } else {
      var n := |chain| - 1;
      p := IndexIsLatest(env, chain[..n], hash);
      assert forall q :: 0 <= q < n ==> chain[..n][q] == chain[q];
      if HashHeader(env.keccak, chain[n].header) == hash {
        p := n;
      }
    }
  }

  /** In every reachable state the block a hash names is the latest of the chain with that hash. */
  lemma {:induction false} ParentFound(env: Env, g: Genesis, s: State, chain: seq<Block>, hash: B256) returns (p: nat)
    requires ChainInv(env, g, s, chain)
    ensures if BlockByHash(s.store, hash).Err? then Unknown(env, chain, hash)
            else LatestAt(env, chain, hash, p) && BlockByHash(s.store, hash) == Ok(chain[p])
  {
    hide HashHeader, Linked, Replayed, HashIndex, LatestAt, Unknown;
    p := IndexIsLatest(env, chain, hash);
    if hash in s.store.blocksByHash {
      assert p < |chain| by {
        LatestIsOne(env, chain, hash, p, p);
      }
      assert s.store.blocks[chain[p].header.number] == chain[p];
    }
  }

  lemma {:induction false} LatestIsOne(env: Env, chain: seq<Block>, hash: B256, p: nat, q: nat)
    requires LatestAt(env, chain, hash, p) && LatestAt(env, chain, hash, q)
    ensures p == q < |chain| && !Unknown(env, chain, hash)
    ensures HashHeader(env.keccak, chain[|chain| - 1].header) == hash <==> p == |chain| - 1
  {
    hide HashHeader;
  }

  /** The error on a block whose parent and whose head are these, when validation refuses it. */
  predicate RefusedFor(parent: Header, head: nat, header: Header, e: ProcessorError) {
    match e
    case ParentNotFound(_) => false
    case InvalidNumber(actual, expected) =>
      && actual == header.number != expected
      && (|| expected == parent.number + 1
          || (header.number == parent.number + 1 && parent.timestamp < header.timestamp && expected == head + 1))
    case TimestampNotAfterParent(before, now) =>
      header.number == parent.number + 1 && before == parent.timestamp >= header.timestamp == now
  }

  lemma {:induction false} RefusedWithParent(env: Env, store: Store, head: ChainHead, block: Block, e: ProcessorError)
    ensures var v, parent := VerdictOn(env, store, head, block), BlockByHash(store, block.header.parentHash);
            if parent.Err? then v == RejectedInValidation(ParentNotFound(block.header.number))
            else v == RejectedInValidation(e) <==> RefusedFor(parent.value.header, head.number, block.header, e)
  {
    hide Senders, PipelineResult, BlockByHash;
  }

  /** In every reachable state validation refuses exactly the blocks that do not extend the last one. */
  lemma {:induction false} InvalidIff(env: Env, g: Genesis, s: State, chain: seq<Block>, block: Block)
    requires ChainInv(env, g, s, chain)
    ensures VerdictOn(env, s.store, s.head, block).RejectedInValidation? <==> !Extends(env, chain[|chain| - 1], block)
  {
    var hash := block.header.parentHash;
    var p := ParentFound(env, g, s, chain, hash);
    NumbersOf(env, g, s, chain);
    hide ChainInv, HashHeader, Senders, PipelineResult, Unknown, LatestAt, BlockByHash;
    if BlockByHash(s.store, hash).Ok? {
      LatestIsOne(env, chain, hash, p, p);
    } else {
      UnknownIsNotLast(env, chain, hash);
    }
  }

  /**
   * The error says that no block of the chain has the hash named; or else that the number does not follow the latest
   * block with that hash, or that the time does not, or that the number does not follow the head.
   */
  lemma {:induction false} InvalidFor(
      env: Env, g: Genesis, s: State, chain: seq<Block>, block: Block, p: nat, e: ProcessorError)
    requires ChainInv(env, g, s, chain)
    ensures var v, hash := VerdictOn(env, s.store, s.head, block), block.header.parentHash;
            && (Unknown(env, chain, hash) ==>
                  (v == RejectedInValidation(e) <==> e == ParentNotFound(block.header.number)))
            && (LatestAt(env, chain, hash, p) ==>
                  p < |chain| &&
                  (v == RejectedInValidation(e) <==> RefusedFor(chain[p].header, s.head.number, block.header, e)))
  {
    var hash := block.header.parentHash;
    var q := ParentFound(env, g, s, chain, hash);
    RefusedWithParent(env, s.store, s.head, block, e);
    hide ChainInv, HashHeader, Unknown, LatestAt, BlockByHash, VerdictOn, RefusedFor;
    if BlockByHash(s.store, hash).Ok? {
      LatestIsOne(env, chain, hash, q, q);
      if LatestAt(env, chain, hash, p) {
        LatestIsOne(env, chain, hash, p, q);
      }
    } else if LatestAt(env, chain, hash, p) {
      LatestIsOne(env, chain, hash, p, p);
    }
  }

  lemma {:induction false} UnknownIsNotLast(env: Env, chain: seq<Block>, hash: B256)
    requires Unknown(env, chain, hash) && chain != []
    ensures HashHeader(env.keccak, chain[|chain| - 1].header) != hash
  {
    hide HashHeader;
  }

  lemma {:induction false} NumbersOf(env: Env, g: Genesis, s: State, chain: seq<Block>)
    requires ChainInv(env, g, s, chain)
    ensures forall p :: 0 <= p < |chain| ==> chain[p].header.number == g.block.header.number + p
    ensures s.head.number == chain[|chain| - 1].header.number
    ensures s.head.hash == HashHeader(env.keccak, chain[|chain| - 1].header)
  {
    hide HashHeader, Linked, Replayed, HashIndex;
  }

  // ---------- Senders ----------

  predicate Recovered(env: Env, block: Block) {
    forall i :: 0 <= i < |block.transactions| ==> env.recover(block.transactions[i], env.chainId).Some?
  }

  /** The senders are the addresses recovered one by one, and fail exactly when one of them does. */
  lemma {:induction false} SendersAre(env: Env, txs: seq<SignedTransaction>)
    ensures Senders(env, txs).Some? <==> forall i :: 0 <= i < |txs| ==> env.recover(txs[i], env.chainId).Some?
    ensures Senders(env, txs).Some? ==>
              forall i :: 0 <= i < |txs| ==> env.recover(txs[i], env.chainId) == Some(Senders(env, txs).value[i])
  {
    if txs != [] {
      SendersAre(env, txs[..|txs| - 1]);
    }
  }

  // ---------- Execution ----------

  /** How execution fails on a block: over its gas limit, with over a hundred transactions, or at one of them. */
  predicate FailsOn(env: Env, accounts: Accounts, block: Block, senders: seq<Address>, e: ExecutionError)
    requires |senders| == |block.transactions|
  {
    var header := block.header;
    if header.gasUsed > header.gasLimit then e == GasLimitExceeded(header.gasLimit, header.gasUsed)
    else if |block.transactions| > 100 then e == TooManyTransactions(100, |block.transactions|)
    else exists i :: 0 <= i < |senders| && BreaksAt(env.keccak, accounts, BlockWithSenders(block, senders), i, e)
  }

  /** How the pipeline's own look at the parent fails, in any store. */
  predicate Misplaced(keccak: Keccak, s: Store, header: Header, e: ExecutionError) {
    if header.parentHash !in s.blocksByHash then e == HeaderNotFound(header.parentHash)
    else if s.blocksByHash[header.parentHash] !in s.blocks then e == BlockNotFound(s.blocksByHash[header.parentHash])
    else
      var parent := s.blocks[s.blocksByHash[header.parentHash]].header;
      var hash := HashHeader(keccak, parent);
      match e
      case InvalidParentHash(expected, actual) => expected == hash != header.parentHash == actual
      case Overflow => hash == header.parentHash && parent.number == U64_LIMIT - 1
      case InvalidBlockNumber(expected, actual) =>
        hash == header.parentHash && expected == parent.number + 1 < U64_LIMIT && expected != header.number == actual
      case _ => false
  }

  /** The header names a stored parent by its true hash and follows it. */
  predicate Placed(keccak: Keccak, s: Store, header: Header) {
    && header.parentHash in s.blocksByHash && s.blocksByHash[header.parentHash] in s.blocks
    && var parent := s.blocks[s.blocksByHash[header.parentHash]].header;
       HashHeader(keccak, parent) == header.parentHash && header.number == parent.number + 1
  }

  /** Exactly which error the pipeline gives, over any store and for any senders. */
  lemma {:induction false} PipelineFailsIff(env: Env, s: Store, block: Block, senders: seq<Address>, e: ExecutionError)
    requires |senders| == |block.transactions|
    ensures PipelineResult(env.keccak, s, BlockWithSenders(block, senders)) == Err(e)
            <==> || Misplaced(env.keccak, s, block.header, e)
                 || (Placed(env.keccak, s, block.header) && FailsOn(env, s.accounts, block, senders, e))
  {
    hide HashHeader, Folded, BreaksAt;
    var b := BlockWithSenders(block, senders);
    ExecutionFailsIff(env.keccak, s.accounts, b, PairCount(b), e);
  }

  lemma {:induction false} ExtendsIsPlaced(
      env: Env, g: Genesis, s: State, chain: seq<Block>, block: Block, e: ExecutionError)
    requires ChainInv(env, g, s, chain) && Extends(env, chain[|chain| - 1], block)
    ensures Placed(env.keccak, s.store, block.header) && !Misplaced(env.keccak, s.store, block.header, e)
  {
    hide HashHeader, Linked, Replayed, HashIndex;
  }

  /**
   * In every reachable state: senders are not recovered exactly when the block extends the last one and some signature
   * gives no address; execution refuses it with an error exactly when it extends the last one, every signature gives an
   * address and execution fails with that error; where the error would be contract creation, the processor halts.
   */
  lemma {:induction false} FailedIff(env: Env, g: Genesis, s: State, chain: seq<Block>, block: Block, e: ExecutionError)
    requires ChainInv(env, g, s, chain)
    ensures var v, senders := VerdictOn(env, s.store, s.head, block), Senders(env, block.transactions);
            var passed := Extends(env, chain[|chain| - 1], block);
            && (v.SendersNotRecovered? <==> passed && !Recovered(env, block))
            && (passed && Recovered(env, block) ==>
                  && senders.Some?
                  && (v == (if e == CreationReached then Halted else RejectedInExecution(e))
                      <==> FailsOn(env, s.store.accounts, block, senders.value, e)))
            && (v == RejectedInExecution(e) ==> passed && Recovered(env, block) && e != CreationReached)
  {
    InvalidIff(env, g, s, chain, block);
    SendersAre(env, block.transactions);
    var senders := Senders(env, block.transactions);
    if Extends(env, chain[|chain| - 1], block) && senders.Some? {
      PipelineFailsIff(env, s.store, block, senders.value, e);
      ExtendsIsPlaced(env, g, s, chain, block, e);
    }
    hide ChainInv, HashHeader, Senders, PipelineResult, BlockByHash, Extends, FailsOn, Misplaced, Placed;
  }

  // ---------- The judgement on a block ----------

  datatype Judgement = Accepted | Invalid | Unrecovered | Failed | Creating

  /** The conditions above, in order, on the last block and the accounts: nothing of the processor's state but these. */
  ghost function Judged(env: Env, accounts: Accounts, last: Block, block: Block): Judgement {
    if !Extends(env, last, block) then Invalid
    else if !Recovered(env, block) then Unrecovered
    else
      SendersAre(env, block.transactions);
      var senders := Senders(env, block.transactions).value;
      if FailsOn(env, accounts, block, senders, CreationReached) then Creating
      else if exists e :: FailsOn(env, accounts, block, senders, e) then Failed
      else Accepted
  }

  /** In every reachable state the verdict is the judgement on the last block of the chain and the accounts. */
  lemma {:induction false} VerdictIsJudgement(env: Env, g: Genesis, s: State, chain: seq<Block>, block: Block)
    requires ChainInv(env, g, s, chain)
    ensures var v, j := VerdictOn(env, s.store, s.head, block), Judged(env, s.store.accounts, chain[|chain| - 1], block);
            && (v.Committed? <==> j.Accepted?) && (v.RejectedInValidation? <==> j.Invalid?)
            && (v.SendersNotRecovered? <==> j.Unrecovered?) && (v.RejectedInExecution? <==> j.Failed?)
            && (v.Halted? <==> j.Creating?)
  {
    InvalidIff(env, g, s, chain, block);
    FailedIff(env, g, s, chain, block, CreationReached);
    var v := VerdictOn(env, s.store, s.head, block);
    if v.RejectedInExecution? {
      FailedIff(env, g, s, chain, block, v.failed);
    }
    forall e ensures var senders := Senders(env, block.transactions);
                     v.Committed? ==> senders.Some? && !FailsOn(env, s.store.accounts, block, senders.value, e)
    {
      FailedIff(env, g, s, chain, block, e);
    }
    hide ChainInv, HashHeader, Senders, VerdictOn, Extends, FailsOn, Recovered;
  }
}
