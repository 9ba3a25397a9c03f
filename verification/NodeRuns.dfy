/** From the wire to the chain: network, adapter and block processor together. */
module NodeRuns {
  import opened Primitives
  import opened ChainTypes
  import opened Connection
  import opened Manager
  import opened Hashing
  import opened Provider
  import opened ProcessorSpec
  import opened ProcessorRuns
  import Processor
  import Network
  import NetworkRuns

  /** The adapter passes blocks and account queries on to the processor and answers head queries itself. */
  function Inbox(forwarded: seq<NetworkEvent>): seq<Processor.ProcessorMessage> {
    if forwarded == [] then []
    else
      var front, last := Inbox(forwarded[..|forwarded| - 1]), forwarded[|forwarded| - 1];
      match last
      case BlockFrom(block, peerId) => front + [Processor.NewBlock(block, peerId)]
      case AccountQuery(address, _) => front + [Processor.GetAccountState(address)]
      case HeadQuery(_) => front
  }

  function BlocksAmong(events: seq<NetworkEvent>): seq<Delivery> {
    if events == [] then []
    else
      var last := events[|events| - 1];
      BlocksAmong(events[..|events| - 1]) + if last.BlockFrom? then [(last.block, last.peerId)] else []
  }

  /** The processor gets exactly the blocks forwarded, in order, with the peers they came from. */
  lemma {:induction false} InboxDelivers(forwarded: seq<NetworkEvent>)
    ensures Processor.Deliveries(Inbox(forwarded)) == BlocksAmong(forwarded)
  {
    if forwarded != [] {
      InboxDelivers(forwarded[..|forwarded| - 1]);
      var inbox := Inbox(forwarded);
      if !forwarded[|forwarded| - 1].HeadQuery? {
        assert inbox[..|inbox| - 1] == Inbox(forwarded[..|forwarded| - 1]);
      }
    }
  }

  lemma {:induction false} InboxFrom(forwarded: seq<NetworkEvent>, d: Delivery)
    requires d in Processor.Deliveries(Inbox(forwarded))
    ensures BlockFrom(d.0, d.1) in forwarded
  {
    var front, last := forwarded[..|forwarded| - 1], forwarded[|forwarded| - 1];
    if !last.HeadQuery? {
      var inbox := Inbox(forwarded);
      assert inbox[..|inbox| - 1] == Inbox(front);
    }
    if d in Processor.Deliveries(Inbox(front)) {
      InboxFrom(front, d);
    }
  }

  // ---------- Committed blocks were delivered ----------

  predicate BufferedFrom(pending: map<nat, PendingBlock>, ds: seq<Delivery>) {
    forall n :: n in pending ==> (pending[n].block, pending[n].peerId) in ds
  }

  predicate DeliveredBy(block: Block, ds: seq<Delivery>) {
    exists d :: d in ds && d.0 == block
  }

  lemma {:induction false} DrainedFrom(env: Env, s: State, next: nat, ds: seq<Delivery>)
    requires BufferedFrom(s.pending, ds)
    ensures BufferedFrom(Drained(env, s, next).pending, ds)
    ensures forall b :: b in DrainCommits(env, s, next) ==> DeliveredBy(b, ds)
    decreases |s.pending|
  {
    hide Processed, VerdictOn;
    if !s.halted && next in s.pending {
      var taken, block := s.(pending := s.pending - {next}), s.pending[next].block;
      assert (block, s.pending[next].peerId) in ds;
      assert DeliveredBy(block, ds);
      ProcessedPending(env, taken, block);
      DrainedFrom(env, Processed(env, taken, block), next + 1, ds);
    }
  }

  lemma {:induction false} ProcessedPending(env: Env, s: State, block: Block)
    ensures Processed(env, s, block).pending == s.pending
  {
    hide VerdictOn;
  }

  lemma {:induction false} ChainFrom(env: Env, g: Genesis, ds: seq<Delivery>)
    ensures BufferedFrom(Ran(env, Initial(env, g), ds).pending, ds)
    ensures forall i :: 1 <= i < |Chain(env, g, ds)| ==> DeliveredBy(Chain(env, g, ds)[i], ds)
  {
    hide Drained, DrainCommits, WithBlock, HashHeader;
    if ds != [] {
      var front, last := ds[..|ds| - 1], ds[|ds| - 1];
      ChainFrom(env, g, front);
      var s := Ran(env, Initial(env, g), front);
      forall b: Block | DeliveredBy(b, front) ensures DeliveredBy(b, ds) {
        var d :| d in front && d.0 == b;
        assert d in ds;
      }
      if !s.halted && last.0.header.number > s.head.number {
        DrainedFrom(env, Buffered(s, last.0, last.1), s.head.number + 1, ds);
      }
      var chain, commits := Chain(env, g, front), HandleCommits(env, s, last.0, last.1);
      forall i | 1 <= i < |chain + commits| ensures DeliveredBy((chain + commits)[i], ds) {
        if i >= |chain| {
          assert commits[i - |chain|] in commits;
        }
      }
    }
  }

  lemma {:induction false} DeliveriesPrefix(messages: seq<Processor.ProcessorMessage>, j: nat)
    requires j <= |messages|
    ensures Processor.Deliveries(messages[..j]) <= Processor.Deliveries(messages)
    decreases |messages|
  {
    if j < |messages| {
      var front := messages[..|messages| - 1];
      assert front[..j] == messages[..j];
      DeliveriesPrefix(front, j);
    } else {
      assert messages[..j] == messages;
    }
  }

  /** The chain the processor has built once it has served the first j messages it was sent. */
  function ServedChain(env: Env, g: Genesis, forwarded: seq<NetworkEvent>, j: nat): seq<Block>
    requires j <= |Inbox(forwarded)|
  {
    Chain(env, g, Processor.Deliveries(Inbox(forwarded)[..j]))
  }

  /** However far the processor has got: every block it committed was said, as a new block, by a peer that had completed
      the handshake on our chain. */
  lemma {:induction false} CommittedWasSaid(
      cfg: Network.Config, labels: seq<Network.Label>, env: Env, g: Genesis, j: nat, i: nat)
    requires j <= |Inbox(Network.Ran(cfg, labels).peers.forwarded)|
    requires 1 <= i < |ServedChain(env, g, Network.Ran(cfg, labels).peers.forwarded, j)|
    ensures var n := Network.Ran(cfg, labels);
            var block := ServedChain(env, g, n.peers.forwarded, j)[i];
            exists id, k, m :: NetworkRuns.Said(cfg, n, id, k, m) && m.NewBlock? && m.block == block
  {
    hide Network.Ran, NetworkRuns.Said, Chain, Inbox, Processor.Deliveries;
    var n := Network.Ran(cfg, labels);
    var inbox := Inbox(n.peers.forwarded);
    var ds := Processor.Deliveries(inbox[..j]);
    ChainFrom(env, g, ds);
    var block := ServedChain(env, g, n.peers.forwarded, j)[i];
    assert DeliveredBy(block, ds);
    var d :| d in ds && d.0 == block;
    DeliveriesPrefix(inbox, j);
    InboxFrom(n.peers.forwarded, d);
    var f := BlockFrom(d.0, d.1);
    NetworkRuns.ForwardedWasSaid(cfg, labels, f);
    var m, k :| NetworkRuns.Said(cfg, n, f.peerId, k, m) && Forward(FromPeer(f.peerId, m)) == Some(f);
    assert m.NewBlock? && m.block == block;
  }
}
