/** Concrete runs that show where a promise fails. */
module Witnesses {
  import opened Primitives
  import opened ChainTypes
  import opened Ledger
  import opened Hashing
  import opened Execution
  import opened Provider
  import opened ProcessorSpec
  import opened ProcessorRuns
  import opened ChainLedger
  import opened Client

  function SenderOf(): Address {
    Zeros(20)
  }

  /** An environment over the given hash in which everything was signed by one sender, who is funded at genesis. */
  function OneSender(keccak: Keccak): Env {
    Env(keccak, (_: SignedTransaction, _: u64) => Some(SenderOf()), 1)
  }

  function FundedGenesis(): Genesis {
    Genesis(Block(Header(Zeros(32), Zeros(20), Zeros(32), Zeros(32), 30_000_000, 0, 0, 0), []),
            map[SenderOf() := Account(1_000_000, 0, Zeros(32))])
  }

  /** A block on that genesis with the given body; the header does not depend on it. */
  function BlockWith(keccak: Keccak, body: seq<SignedTransaction>): Block {
    var parent := HashHeader(keccak, FundedGenesis().block.header);
    Block(Header(parent, Zeros(20), Zeros(32), Zeros(32), 30_000_000, 0, 12, 1), body)
  }

  function OneTransfer(): seq<SignedTransaction> {
    [SignedTransaction(Legacy(0, 1, 21_000, Some(SenderOf()), 5, []), 0, Zeros(32), Zeros(32))]
  }

  /** A transaction that asks for contract creation and can pay for it. */
  function OneCreation(): seq<SignedTransaction> {
    [SignedTransaction(Legacy(0, 1, 21_000, None, 5, []), 0, Zeros(32), Zeros(32))]
  }

  lemma {:induction false} EitherBodyCommits(keccak: Keccak, body: seq<SignedTransaction>)
    requires body == [] || body == OneTransfer()
    ensures var env, g, block := OneSender(keccak), FundedGenesis(), BlockWith(keccak, body);
            var s := Initial(env, g);
            VerdictOn(env, s.store, s.head, block).Committed?
  {
    hide HashHeader, Folded, Senders, VerdictOn, ChainInv, Total;
    var env, g, block := OneSender(keccak), FundedGenesis(), BlockWith(keccak, body);
    var s := Initial(env, g);
    InitialChain(env, g);
    CommitsIff(env, g, s, [g.block], block);
    BodySenders(keccak, body);
    var b := BlockWithSenders(block, Senders(env, body).value);
    BodyExecutes(keccak, body, b);
  }

  lemma {:induction false} BodySenders(keccak: Keccak, body: seq<SignedTransaction>)
    requires body == [] || body == OneTransfer() || body == OneCreation()
    ensures Senders(OneSender(keccak), body) == Some(if body == [] then [] else [SenderOf()])
  {
    var env := OneSender(keccak);
    assert Senders(env, []) == Some([]);
    if body != [] {
      assert body[..0] == [] && env.recover(body[0], env.chainId) == Some(SenderOf());
      var r := Senders(env, body);
      assert r.Some? && r.value == [] + [SenderOf()] == [SenderOf()];
    }
  }

  lemma {:induction false} BodyExecutes(keccak: Keccak, body: seq<SignedTransaction>, b: BlockWithSenders)
    requires body == [] || body == OneTransfer()
    requires b == BlockWithSenders(BlockWith(keccak, body), if body == [] then [] else [SenderOf()])
    ensures Executed(keccak, FundedGenesis().accounts, b).Ok?
  {
    hide HashHeader, Folded;
    var accounts, sender := FundedGenesis().accounts, SenderOf();
    TotalWithout(accounts, sender);
    assert accounts - {sender} == map[];
    GasOfBody(body);
    FundedBlockExecutes(keccak, accounts, b, PairCount(b));
  }

  lemma {:induction false} GasOfBody(body: seq<SignedTransaction>)
    requires body == [] || body == OneTransfer()
    ensures GasLimits(body) <= 21_000
  {
    if body != [] {
      assert body[..0] == [];
    }
  }

  lemma {:induction false} OneDelivery(env: Env, g: Genesis, block: Block, peerId: u64)
    requires var s := Initial(env, g); VerdictOn(env, s.store, s.head, block).Committed?
    ensures Ran(env, Initial(env, g), [(block, peerId)]).head == HeadAfter(env, Initial(env, g).head, block)
    ensures Chain(env, g, [(block, peerId)]) == [g.block, block]
  {
    hide VerdictOn, Handled, HandleCommits, HashHeader, WithBlock;
    DeliverNext(env, Initial(env, g), block, peerId);
    var ds: seq<Delivery> := [(block, peerId)];
    assert ds[..0] == [];
    assert Ran(env, Initial(env, g), []) == Initial(env, g) && Chain(env, g, []) == [g.block];
  }

  /** The block that ends the processor: on a fresh node, one affordable contract creation. */
  lemma {:induction false} CreationHalts(keccak: Keccak, peerId: u64)
    ensures var env, g, block := OneSender(keccak), FundedGenesis(), BlockWith(keccak, OneCreation());
            Ran(env, Initial(env, g), [(block, peerId)]).halted
  {
    hide HashHeader, Senders, VerdictOn, ChainInv, Folded, Indexed;
    var env, g, block := OneSender(keccak), FundedGenesis(), BlockWith(keccak, OneCreation());
    var s := Initial(env, g);
    InitialChain(env, g);
    BodySenders(keccak, OneCreation());
    HaltsIff(env, g, s, [g.block], block);
    CreatesFirst(keccak);
    hide BreaksAt;
    var b := BlockWithSenders(block, Senders(env, block.transactions).value);
    assert s.store.accounts == g.accounts;
    assert |block.transactions| == 1 && b == BlockWithSenders(block, [SenderOf()]);
    assert PairCount(b) == 1;
    assert BreaksAt(env.keccak, s.store.accounts, b, 0, CreationReached);
    assert Executable(env, s, g.block, block);
    HaltsOnDelivery(env, s, block, peerId);
    var ds: seq<Delivery> := [(block, peerId)];
    assert ds[..0] == [];
    assert Ran(env, s, []) == s;
  }

  lemma {:induction false} CreatesFirst(keccak: Keccak)
    ensures var b := BlockWithSenders(BlockWith(keccak, OneCreation()), [SenderOf()]);
            BreaksAt(keccak, FundedGenesis().accounts, b, 0, CreationReached)
  {
    hide HashHeader;
  }

  lemma {:induction false} HaltsOnDelivery(env: Env, s: State, block: Block, peerId: u64)
    requires !s.halted && s.pending == map[] && VerdictOn(env, s.store, s.head, block).Halted?
    ensures Handled(env, s, block, peerId).halted
  {
    hide VerdictOn, WithBlock, HashHeader, Processed;
    CommittedExtendsHead(env, s, block);
    var buffered := Buffered(s, block, peerId);
    var taken := buffered.(pending := buffered.pending - {block.header.number});
    ProcessedEffect(env, taken, block);
    assert Drained(env, Processed(env, taken, block), block.header.number + 1) == Processed(env, taken, block);
  }

  /**
   * Equal heads do not mean equal accounts, whatever the hash: two nodes from one genesis, each sent one block with the
   * same header, both commit it and publish the same head, and yet hold different accounts.
   */
  lemma {:induction false} BodiesAreNotPinned(keccak: Keccak, peerId: u64)
    ensures var env, g := OneSender(keccak), FundedGenesis();
            var a, b := BlockWith(keccak, []), BlockWith(keccak, OneTransfer());
            var s, s' := Ran(env, Initial(env, g), [(a, peerId)]), Ran(env, Initial(env, g), [(b, peerId)]);
            a.header == b.header && s.head == s'.head && s.store.accounts != s'.store.accounts
  {
    hide HashHeader, VerdictOn, Ran, Initial, Chain, NonceOf, Senders;
    var env, g := OneSender(keccak), FundedGenesis();
    var a, b := BlockWith(keccak, []), BlockWith(keccak, OneTransfer());
    EitherBodyCommits(keccak, []);
    EitherBodyCommits(keccak, OneTransfer());
    OneDelivery(env, g, a, peerId);
    OneDelivery(env, g, b, peerId);
    RunLedger(env, g, [(a, peerId)], SenderOf());
    RunLedger(env, g, [(b, peerId)], SenderOf());
    OneSent(keccak, []);
    OneSent(keccak, OneTransfer());
    assert [g.block, a][1..] == [a] && [g.block, b][1..] == [b];
  }

  lemma {:induction false} OneSent(keccak: Keccak, body: seq<SignedTransaction>)
    requires body == [] || body == OneTransfer()
    ensures SentBy(AllSenders(OneSender(keccak), [BlockWith(keccak, body)]), SenderOf()) == |body|
  {
    hide HashHeader, Senders;
    BodySenders(keccak, body);
    var env, blocks := OneSender(keccak), [BlockWith(keccak, body)];
    assert blocks[..0] == [];
    assert AllSenders(env, blocks) == [] + SendersOrNone(env, blocks[0]);
    if body != [] {
      assert [SenderOf()][..0] == [];
    }
  }
}
