/** Valid blocks mixed with blocks that the processor refuses. */
module JunkDelivery {
  import opened Primitives
  import opened ChainTypes
  import opened Hashing
  import opened Provider
  import opened ProcessorSpec
  import opened ProcessorRuns
  import opened ProcessorAccounting
  import opened DeliveryOrder

  /** The verdict neither commits the block nor ends the processor. */
  predicate Refused(env: Env, s: State, block: Block) {
    var v := VerdictOn(env, s.store, s.head, block);
    !v.Committed? && !v.Halted?
  }

  lemma {:induction false} RefusedChangesNothing(env: Env, s: State, block: Block)
    requires Refused(env, s, block)
    ensures SameCore(Processed(env, s, block), s)
  {
    hide VerdictOn, Processed, WithBlock;
    ProcessedEffect(env, s, block);
  }

  // ---------- One delivery ----------

  /** The state in which a block at the next number is processed: counted, with its slot emptied. */
  function Taking(s: State): State {
    s.(metrics := s.metrics.(received := WrapAdd(s.metrics.received, 1)), pending := s.pending - {s.head.number + 1})
  }

  lemma {:induction false} HandleNext(env: Env, s: State, block: Block, peerId: u64)
    requires !s.halted && block.header.number == s.head.number + 1
    ensures Handled(env, s, block, peerId) == Drained(env, Processed(env, Taking(s), block), s.head.number + 2)
    ensures HandleCommits(env, s, block, peerId)
            == CommitOf(env, s, block) + DrainCommits(env, Processed(env, Taking(s), block), s.head.number + 2)
  {
    hide VerdictOn, Processed, CommitOf;
    var buffered := Buffered(s, block, peerId);
    assert buffered.pending - {block.header.number} == s.pending - {block.header.number};
    SameCommit(env, s, buffered, block);
  }

  /** A block that would commit on the head is the first to commit when delivered, whatever is pending. */
  lemma {:induction false} FirstCommit(env: Env, s: State, block: Block, peerId: u64)
    requires !s.halted && VerdictOn(env, s.store, s.head, block).Committed?
    ensures HandleCommits(env, s, block, peerId) != [] && HandleCommits(env, s, block, peerId)[0] == block
  {
    CommittedExtendsHead(env, s, block);
    HandleNext(env, s, block, peerId);
    hide VerdictOn, Processed, HandleCommits;
  }

  /** Beyond a gap every block is refused, and nothing but counters and the buffer changes. */
  lemma {:induction false} DrainBeyondGap(env: Env, s: State, next: nat)
    requires PendingOk(s.pending) && s.head.number + 1 < next
    ensures SameCore(Drained(env, s, next), s)
    decreases |s.pending|
  {
    hide VerdictOn, Processed, WithBlock, HashHeader;
    if !s.halted && next in s.pending {
      var taken, block := s.(pending := s.pending - {next}), s.pending[next].block;
      if !Refused(env, taken, block) {
        CommittedExtendsHead(env, taken, block);
      }
      RefusedChangesNothing(env, taken, block);
      DrainBeyondGap(env, Processed(env, taken, block), next + 1);
    }
  }

  /** A refused block at the next number takes the whole consecutive run buffered behind it with it. */
  lemma {:induction false} RefusedTakesTheRun(env: Env, s: State, block: Block, peerId: u64, n: nat)
    requires PendingOk(s.pending) && !s.halted && block.header.number == s.head.number + 1 && Refused(env, s, block)
    requires s.head.number < n
    ensures var s' := Handled(env, s, block, peerId);
            && HandleCommits(env, s, block, peerId) == [] && SameCore(s', s)
            && (n in s'.pending
                <==> n in s.pending && n >= DrainEnd(Buffered(s, block, peerId).pending, s.head.number + 1))
  {
    hide VerdictOn, Processed, WithBlock, Taken, HashHeader;
    var next := s.head.number + 1;
    HandleNext(env, s, block, peerId);
    hide Handled, HandleCommits;
    RefusedSame(env, s, Taking(s), block);
    RefusedChangesNothing(env, Taking(s), block);
    var after := Processed(env, Taking(s), block);
    DrainBeyondGap(env, after, next + 1);
    NothingCommitsBeyondGap(env, after, next + 1);
    RunTaken(env, s, after, block, peerId, n);
  }

  lemma {:induction false} RunTaken(env: Env, s: State, after: State, block: Block, peerId: u64, n: nat)
    requires block.header.number == s.head.number + 1 && s.head.number < n
    requires after.pending == s.pending - {s.head.number + 1} && !Drained(env, after, s.head.number + 2).halted
    ensures n in Drained(env, after, s.head.number + 2).pending
            <==> n in s.pending && n >= DrainEnd(Buffered(s, block, peerId).pending, s.head.number + 1)
  {
    hide Drained, Taken;
    var next, pending := s.head.number + 1, Buffered(s, block, peerId).pending;
    RunHead(pending, next);
    assert pending - {next} == after.pending;
    if n == next {
      DrainedGone(env, after, next + 1, next);
    } else {
      DrainCountsThrough(env, after, next + 1, n);
    }
  }

  lemma {:induction false} RunHead(pending: map<nat, PendingBlock>, next: nat)
    requires next in pending
    ensures DrainEnd(pending, next) == DrainEnd(pending - {next}, next + 1) > next
  {
  }

  /** So a block that came early is lost when junk fills the gap before the block it waits for does. */
  lemma {:induction false} EarlyBlockIsLost(env: Env, g: Genesis, b1: Block, b2: Block, junk: Block, peerId: u64)
    requires ValidChain(env, g, [b1, b2])
    requires junk.header.number == b1.header.number && Refused(env, Initial(env, g), junk)
    ensures var s := Ran(env, Initial(env, g), [(b2, peerId), (junk, peerId), (b1, peerId)]);
            && SameCore(s, InOrder(env, g, [b1, b2], 1)) && b2.header.number !in s.pending
  {
    hide VerdictOn, Processed, WithBlock, Refused, HashHeader, Ran, Handled, ValidChain, InOrder, Initial;
    var s0, first := Initial(env, g), g.block.header.number;
    TwoBlocks(env, g, b1, b2);
    RanThree(env, s0, (b2, peerId), (junk, peerId), (b1, peerId));
    var s1 := Handled(env, s0, b2, peerId);
    EarlyWaits(env, s0, b2, peerId);
    RefusedSame(env, s0, s1, junk);
    RunOfTwo(Buffered(s1, junk, peerId).pending, first + 1);
    RefusedTakesTheRun(env, s1, junk, peerId, first + 2);
    DeliverAlone(env, s0, Handled(env, s1, junk, peerId), b1, peerId);
  }

  lemma {:induction false} TwoBlocks(env: Env, g: Genesis, b1: Block, b2: Block)
    requires ValidChain(env, g, [b1, b2])
    ensures var s0, first := Initial(env, g), g.block.header.number;
            && s0.head.number == first && !s0.halted && s0.pending == map[]
            && b1.header.number == first + 1 && b2.header.number == first + 2
            && VerdictOn(env, s0.store, s0.head, b1).Committed?
            && InOrder(env, g, [b1, b2], 1) == Processed(env, s0, b1)
  {
    var blocks := [b1, b2];
    InOrderHead(env, g, blocks, 0);
    InOrderHead(env, g, blocks, 1);
    hide VerdictOn, Processed, WithBlock, HashHeader;
    assert InOrder(env, g, blocks, 0) == Initial(env, g);
    assert blocks[0] == b1 && blocks[1] == b2;
  }

  lemma {:induction false} EarlyWaits(env: Env, s: State, block: Block, peerId: u64)
    requires !s.halted && s.pending == map[] && block.header.number > s.head.number + 1
    ensures Handled(env, s, block, peerId) == Buffered(s, block, peerId)
  {
  }

  lemma {:induction false} RanThree(env: Env, s: State, d: Delivery, d': Delivery, d'': Delivery)
    ensures Ran(env, s, [d, d', d'']) == Handled(env, Handled(env, Handled(env, s, d.0, d.1), d'.0, d'.1), d''.0, d''.1)
  {
    assert [d, d', d''] == [] + [d] + [d'] + [d''];
    RanSnoc(env, s, [], d);
    RanSnoc(env, s, [] + [d], d');
    RanSnoc(env, s, [] + [d] + [d'], d'');
    assert Ran(env, s, []) == s;
  }

  lemma {:induction false} RanSnoc(env: Env, s: State, ds: seq<Delivery>, d: Delivery)
    ensures Ran(env, s, ds + [d]) == Handled(env, Ran(env, s, ds), d.0, d.1)
  {
    hide Handled;
    assert (ds + [d])[..|ds|] == ds;
  }

  lemma {:induction false} RefusedSame(env: Env, s: State, s': State, block: Block)
    requires Refused(env, s, block) && SameCore(s, s')
    ensures Refused(env, s', block)
  {
    hide VerdictOn;
  }

  lemma {:induction false} RunOfTwo(pending: map<nat, PendingBlock>, next: nat)
    requires next in pending && next + 1 in pending
    ensures DrainEnd(pending, next) >= next + 2
  {
    EndOfRun(pending, next, DrainEnd(pending, next));
  }

  /** Delivering the next valid block when the one after it is not buffered. */
  lemma {:induction false} DeliverAlone(env: Env, s: State, s': State, block: Block, peerId: u64)
    requires SameCore(s', s) && !s.halted && VerdictOn(env, s.store, s.head, block).Committed?
    requires s.head.number + 2 !in s'.pending
    ensures SameCore(Handled(env, s', block, peerId), Processed(env, s, block))
    ensures s.head.number + 2 !in Handled(env, s', block, peerId).pending
  {
    hide VerdictOn, Processed, WithBlock, HashHeader, HeadAfter, Handled, HandleCommits;
    CommittedExtendsHead(env, s, block);
    HandleNext(env, s', block, peerId);
    ProcessedCore(env, Taking(s'), s, block);
    var after := Processed(env, Taking(s'), block);
    assert s.head.number + 2 !in after.pending;
    assert Drained(env, after, s.head.number + 2) == after;
  }

  // ---------- In-order delivery with junk in between ----------

  /** Refused wherever along the valid chain it may arrive. */
  predicate Junk(env: Env, g: Genesis, blocks: seq<Block>, block: Block) {
    forall k :: 0 <= k <= |blocks| ==> Refused(env, InOrder(env, g, blocks, k), block)
  }

  /** The deliveries are the first k blocks of the chain in order, with junk anywhere in between. */
  predicate WithJunk(env: Env, g: Genesis, blocks: seq<Block>, ds: seq<Delivery>, k: nat)
    requires k <= |blocks|
  {
    if ds == [] then k == 0
    else
      var front, last := ds[..|ds| - 1], ds[|ds| - 1].0;
      || (k > 0 && last == blocks[k - 1] && WithJunk(env, g, blocks, front, k - 1))
      || (Junk(env, g, blocks, last) && WithJunk(env, g, blocks, front, k))
  }

  predicate OnlyJunk(env: Env, g: Genesis, blocks: seq<Block>, pending: map<nat, PendingBlock>) {
    forall n :: n in pending ==> Junk(env, g, blocks, pending[n].block)
  }

  lemma {:induction false} DrainJunk(env: Env, g: Genesis, blocks: seq<Block>, s: State, next: nat, k: nat)
    requires k <= |blocks| && SameCore(s, InOrder(env, g, blocks, k)) && OnlyJunk(env, g, blocks, s.pending)
    ensures SameCore(Drained(env, s, next), s) && OnlyJunk(env, g, blocks, Drained(env, s, next).pending)
    decreases |s.pending|
  {
    hide VerdictOn, Processed, WithBlock, InOrder, Refused, Junk;
    if !s.halted && next in s.pending {
      var taken, block := s.(pending := s.pending - {next}), s.pending[next].block;
      JunkRefused(env, g, blocks, block, k);
      RefusedSame(env, InOrder(env, g, blocks, k), taken, block);
      RefusedChangesNothing(env, taken, block);
      DrainJunk(env, g, blocks, Processed(env, taken, block), next + 1, k);
    }
  }

  lemma {:induction false} JunkRefused(env: Env, g: Genesis, blocks: seq<Block>, block: Block, k: nat)
    requires k <= |blocks| && Junk(env, g, blocks, block)
    ensures Refused(env, InOrder(env, g, blocks, k), block)
  {
    hide Refused, InOrder;
  }

  lemma {:induction false} JunkArrives(
      env: Env, g: Genesis, blocks: seq<Block>, s: State, block: Block, peerId: u64, k: nat)
    requires k <= |blocks| && SameCore(s, InOrder(env, g, blocks, k)) && OnlyJunk(env, g, blocks, s.pending)
    requires Junk(env, g, blocks, block)
    ensures var s' := Handled(env, s, block, peerId);
            SameCore(s', InOrder(env, g, blocks, k)) && OnlyJunk(env, g, blocks, s'.pending)
  {
    hide InOrder, Drained, Junk;
    if !s.halted && block.header.number > s.head.number {
      DrainJunk(env, g, blocks, Buffered(s, block, peerId), s.head.number + 1, k);
    }
  }

  lemma {:induction false} NextArrives(env: Env, g: Genesis, blocks: seq<Block>, s: State, peerId: u64, k: nat)
    requires ValidChain(env, g, blocks) && k < |blocks|
    requires SameCore(s, InOrder(env, g, blocks, k)) && OnlyJunk(env, g, blocks, s.pending)
    ensures var s' := Handled(env, s, blocks[k], peerId);
            SameCore(s', InOrder(env, g, blocks, k + 1)) && OnlyJunk(env, g, blocks, s'.pending)
  {
    hide VerdictOn, Processed, WithBlock, Junk, ValidChain, HashHeader, Handled, HandleCommits, Drained, InOrder;
    InOrderHead(env, g, blocks, k);
    HandleNext(env, s, blocks[k], peerId);
    InOrderNext(env, g, blocks, k);
    ProcessedCore(env, Taking(s), InOrder(env, g, blocks, k), blocks[k]);
    DrainJunk(env, g, blocks, Processed(env, Taking(s), blocks[k]), s.head.number + 2, k + 1);
  }

  lemma {:induction false} InOrderNext(env: Env, g: Genesis, blocks: seq<Block>, k: nat)
    requires k < |blocks|
    ensures InOrder(env, g, blocks, k + 1) == Processed(env, InOrder(env, g, blocks, k), blocks[k])
  {
  }

  /** Junk in between does not hinder a chain that is delivered in order: the state is that of the chain alone. */
  lemma {:induction false} JunkDoesNotHinder(env: Env, g: Genesis, blocks: seq<Block>, ds: seq<Delivery>, k: nat)
    requires ValidChain(env, g, blocks) && k <= |blocks| && WithJunk(env, g, blocks, ds, k)
    ensures var s := Ran(env, Initial(env, g), ds);
            SameCore(s, InOrder(env, g, blocks, k)) && OnlyJunk(env, g, blocks, s.pending)
  {
    hide ValidChain, Handled, Junk, Processed;
    if ds != [] {
      var front, last := ds[..|ds| - 1], ds[|ds| - 1];
      var s := Ran(env, Initial(env, g), front);
      if k > 0 && last.0 == blocks[k - 1] && WithJunk(env, g, blocks, front, k - 1) {
        JunkDoesNotHinder(env, g, blocks, front, k - 1);
        NextArrives(env, g, blocks, s, last.1, k - 1);
      } else {
        JunkDoesNotHinder(env, g, blocks, front, k);
        JunkArrives(env, g, blocks, s, last.0, last.1, k);
      }
    }
  }
}
