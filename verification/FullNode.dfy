/** The whole node: sockets, network machine, the adapter between manager and processor, and the processor. */
module FullNode {
  import opened Primitives
  import opened ChainTypes
  import opened Hashing
  import opened Messages
  import opened Framing
  import opened Connection
  import opened Manager
  import opened ProcessorSpec
  import opened ProcessorRuns
  import opened Sockets
  import Processor
  import ProcessorAccounting
  import Network
  import NetworkRuns
  import NodeRuns

  datatype World = World(cfg: Network.Config, env: Env, g: Genesis, utf8: Utf8)

  /** How many forwarded events the adapter has taken, how many of the messages it sent the processor has served, and
      which of the events taken were answered. */
  datatype Full = Full(host: Host, adapted: nat, served: nat, answered: seq<bool>)

  /**
   * Something outside the adapter; the adapter's next event, which may go unanswered when the processor is gone, and
   * for a head query the position in the chain of the head it reads; or the processor serving a message.
   */
  datatype Move = Outside(signal: Signal) | Adapt(answered: bool, position: nat) | Serve

  const FULL_START := Full(HOST_START, 0, 0, [])

  function Forwarded(f: Full): seq<NetworkEvent> {
    f.host.node.peers.forwarded
  }

  /** The messages the processor has been sent once the adapter has taken k events. */
  function InboxUpTo(fs: seq<NetworkEvent>, k: nat): seq<Processor.ProcessorMessage>
    requires k <= |fs|
  {
    NodeRuns.Inbox(fs[..k])
  }

  /** The processor's state when it has served the messages sent for the first k events. */
  function StateAfter(w: World, fs: seq<NetworkEvent>, k: nat): (s: State)
    requires k <= |fs|
    ensures s == Ran(w.env, Initial(w.env, w.g), Processor.Deliveries(InboxUpTo(fs, k)))
  {
    Processor.ReceivedIsRan(w.env, Initial(w.env, w.g), InboxUpTo(fs, k));
    Processor.Received(w.env, Initial(w.env, w.g), InboxUpTo(fs, k))
  }

  function ChainAfter(w: World, messages: seq<Processor.ProcessorMessage>): seq<Block> {
    Chain(w.env, w.g, Processor.Deliveries(messages))
  }

  /** The answer to an account query: what the processor's accounts say when it comes to the query, if it does. */
  function AccountReply(w: World, fs: seq<NetworkEvent>, k: nat): Option<Message>
    requires k < |fs| && fs[k].AccountQuery?
  {
    var s, a := StateAfter(w, fs, k), fs[k].address;
    if s.halted then None
    else
      var accounts := s.store.accounts;
      if a in accounts then Some(AccountState(a, accounts[a].nonce, accounts[a].balance)) else None
  }

  /** The head as the block at a position of a chain leaves it, if it fits the message. */
  function HeadReply(env: Env, chain: seq<Block>, position: nat): Option<Message>
    requires position < |chain|
  {
    var header, difficulty := chain[position].header, ProcessorAccounting.GasUsed(chain[1..position + 1]);
    if difficulty >= U128_LIMIT then None
    else Some(ChainHeadAt(header.number, HashHeader(env.keccak, header), difficulty))
  }

  /** The messages served while the shared head is read: the processor may be anywhere within its next one. */
  function Within(messages: seq<Processor.ProcessorMessage>, served: nat): seq<Processor.ProcessorMessage>
    requires served <= |messages|
  {
    messages[..if served < |messages| then served + 1 else served]
  }

  /** The head read is that of a block of the chain, no older than the last block of the messages served. */
  predicate Readable(w: World, messages: seq<Processor.ProcessorMessage>, served: nat, position: nat) {
    && served <= |messages|
    && |ChainAfter(w, messages[..served])| <= position + 1
    && position < |ChainAfter(w, Within(messages, served))|
  }

  function ReplyTo(w: World, f: Full, m: Move): Option<Network.Label>
    requires m.Adapt? && f.adapted < |Forwarded(f)|
  {
    var fs := Forwarded(f);
    var e := fs[f.adapted];
    if !m.answered || e.BlockFrom? then None
    else if e.AccountQuery? then
      var reply := AccountReply(w, fs, f.adapted);
      if reply.Some? then Some(Network.Reply(e.peerId, reply.value)) else None
    else
      var messages := InboxUpTo(fs, f.adapted);
      if !Readable(w, messages, f.served, m.position) then None
      else
        var reply := HeadReply(w.env, ChainAfter(w, Within(messages, f.served)), m.position);
        if reply.Some? then Some(Network.Reply(e.peerId, reply.value)) else None
  }

  /** Replies come from the adapter alone. */
  predicate FromOutside(s: Signal) {
    s.Local? ==> !s.move.Reply?
  }

  function SignalOf(w: World, f: Full, m: Move): Option<Signal> {
    match m
    case Outside(s) => if FromOutside(s) then Some(s) else None
    case Adapt(_, _) =>
      if f.adapted >= |Forwarded(f)| || ReplyTo(w, f, m).None? then None else Some(Local(ReplyTo(w, f, m).value))
    case Serve => None
  }

  function FullNext(w: World, f: Full, m: Move): Full {
    var s, fs := SignalOf(w, f, m), Forwarded(f);
    var host := if s.Some? then HostNext(w.cfg, f.host, s.value, w.utf8) else f.host;
    match m
    case Outside(_) => f.(host := host)
    case Adapt(answered, _) =>
      if f.adapted >= |fs| then f
      else
        var served := if fs[f.adapted].AccountQuery? && answered then |InboxUpTo(fs, f.adapted + 1)| else f.served;
        Full(host, f.adapted + 1, served, f.answered + [s.Some?])
    case Serve =>
      if f.adapted <= |fs| && f.served < |InboxUpTo(fs, f.adapted)| then f.(served := f.served + 1) else f
  }

  function FullRan(w: World, moves: seq<Move>): Full {
    if moves == [] then FULL_START else FullNext(w, FullRan(w, moves[..|moves| - 1]), moves[|moves| - 1])
  }

  /** The signals of a run of the node. */
  function Signals(w: World, moves: seq<Move>): seq<Signal> {
    if moves == [] then []
    else
      var front := moves[..|moves| - 1];
      var s := SignalOf(w, FullRan(w, front), moves[|moves| - 1]);
      if s.Some? then Signals(w, front) + [s.value] else Signals(w, front)
  }

  /** Every run of the node is a run of the host, hence of the network machine. */
  lemma {:induction false} FullRefines(w: World, moves: seq<Move>)
    ensures FullRan(w, moves).host == HostRan(w.cfg, Signals(w, moves), w.utf8)
  {
    hide HostNext, SignalOf, HostFrom, FullNext;
    if moves == [] {
      HostNothing(w);
    } else {
      var front := moves[..|moves| - 1];
      FullRefines(w, front);
      HostStep(w, FullRan(w, front), moves[|moves| - 1]);
      var s := SignalOf(w, FullRan(w, front), moves[|moves| - 1]);
      if s.Some? {
        HostSnoc(w.cfg, HOST_START, Signals(w, front), s.value, w.utf8);
      }
    }
  }

  lemma {:induction false} HostStep(w: World, f: Full, m: Move)
    ensures FullNext(w, f, m).host
            == if SignalOf(w, f, m).Some? then HostNext(w.cfg, f.host, SignalOf(w, f, m).value, w.utf8) else f.host
  {
    hide HostNext, ReplyTo, InboxUpTo;
  }

  lemma {:induction false} HostNothing(w: World)
    ensures HostRan(w.cfg, [], w.utf8) == HOST_START
  {
  }

  lemma {:induction false} HostSnoc(cfg: Network.Config, h: Host, signals: seq<Signal>, s: Signal, utf8: Utf8)
    ensures HostFrom(cfg, h, signals + [s], utf8) == HostNext(cfg, HostFrom(cfg, h, signals, utf8), s, utf8)
    decreases |signals|
  {
    hide HostNext;
    if signals == [] {
      assert ([] + [s])[1..] == [];
      assert HostFrom(cfg, h, [] + [s], utf8) == HostFrom(cfg, HostNext(cfg, h, s, utf8), [], utf8);
    } else {
      HostSnoc(cfg, HostNext(cfg, h, signals[0], utf8), signals[1..], s, utf8);
      assert (signals + [s])[1..] == signals[1..] + [s];
    }
  }

  // ---------- Replies are honest ----------

  /** The k-th forwarded event is the peer's query, and the message what the processor's accounts said at that place. */
  predicate AnsweredAt(w: World, fs: seq<NetworkEvent>, k: nat, id: u64, m: Message) {
    && k < |fs| && fs[k].AccountQuery? && fs[k].peerId == id
    && AccountReply(w, fs, k) == Some(m)
  }

  /** Account queries that were answered before event k were served by then. */
  ghost predicate AnsweredServed(fs: seq<NetworkEvent>, answered: seq<bool>, k: nat, served: nat) {
    forall j :: 0 <= j < k && j < |fs| && j < |answered| && fs[j].AccountQuery? && answered[j]
      ==> |InboxUpTo(fs, j + 1)| <= served
  }

  /**
   * The k-th forwarded event is the peer's query, and the message names a block of the chain no older than the messages
   * served by then, among them every account query answered before.
   */
  ghost predicate HeadSeenAt(
    w: World, fs: seq<NetworkEvent>, answered: seq<bool>, k: nat, served: nat, position: nat, id: u64, m: Message)
  {
    && k < |fs| && k <= |answered| && fs[k] == HeadQuery(id)
    && AnsweredServed(fs, answered, k, served)
    && var messages := InboxUpTo(fs, k);
       && Readable(w, messages, served, position)
       && HeadReply(w.env, ChainAfter(w, Within(messages, served)), position) == Some(m)
  }

  ghost predicate Honest(w: World, fs: seq<NetworkEvent>, answered: seq<bool>, id: u64, m: Message) {
    && (m.AccountState? ==> exists k: nat :: AnsweredAt(w, fs, k, id, m))
    && (m.ChainHeadAt? ==>
          exists k: nat, served: nat, position: nat :: HeadSeenAt(w, fs, answered, k, served, position, id, m))
  }

  lemma {:induction false} HonestLater(
      w: World, fs: seq<NetworkEvent>, fs': seq<NetworkEvent>, answered: seq<bool>, answered': seq<bool>,
      id: u64, m: Message)
    requires Honest(w, fs, answered, id, m) && fs <= fs' && answered <= answered'
    ensures Honest(w, fs', answered', id, m)
  {
    hide StateAfter, ChainAfter, HeadReply, AnsweredServed, Readable;
    if m.AccountState? {
      var k: nat :| AnsweredAt(w, fs, k, id, m);
      assert fs[..k] == fs'[..k];
      assert AnsweredAt(w, fs', k, id, m);
    }
    if m.ChainHeadAt? {
      var k: nat, served: nat, position: nat :| HeadSeenAt(w, fs, answered, k, served, position, id, m);
      assert fs[..k] == fs'[..k];
      AnsweredServedLater(fs, fs', answered, answered', k, served);
      assert HeadSeenAt(w, fs', answered', k, served, position, id, m);
    }
  }

  lemma {:induction false} AnsweredServedLater(
      fs: seq<NetworkEvent>, fs': seq<NetworkEvent>, answered: seq<bool>, answered': seq<bool>, k: nat, served: nat)
    requires AnsweredServed(fs, answered, k, served) && fs <= fs' && answered <= answered'
    requires k <= |fs| && k <= |answered|
    ensures AnsweredServed(fs', answered', k, served)
  {
    hide NodeRuns.Inbox;
    forall j | 0 <= j < k && fs'[j].AccountQuery? && answered'[j] ensures |InboxUpTo(fs', j + 1)| <= served {
      assert fs'[j] == fs[j] && answered'[j] == answered[j];
      assert fs'[..j + 1] == fs[..j + 1];
    }
  }

  ghost predicate AllHonest(w: World, n: Network.Node, answered: seq<bool>) {
    && (forall e :: e in n.events && e.SendTo? ==> Honest(w, n.peers.forwarded, answered, e.id, e.message))
    && (forall id: u64, m :: m in MailOf(n.peers.mail, id) ==> Honest(w, n.peers.forwarded, answered, id, m))
  }

  lemma {:induction false} ForwardedGrows(cfg: Network.Config, n: Network.Node, l: Network.Label)
    ensures n.peers.forwarded <= Network.Next(cfg, n, l).peers.forwarded
  {
    hide Stepped;
  }

  lemma {:induction false} EventsGrow(cfg: Network.Config, n: Network.Node, l: Network.Label, e: PeerEvent)
    requires e in Network.Next(cfg, n, l).events && e.SendTo?
    ensures e in n.events || l == Network.Reply(e.id, e.message)
  {
    hide Stepped, Managed, Manager.Sent;
    if l.Act? && l.id in n.conns {
      Network.StepReportsOwn(Context(l.id, cfg.chainId, cfg.reason), n.conns[l.id],
                             Turn(l.input, n.running, Network.WaitingMail(n, l.id)));
    }
  }

  /** New mail is a relay, a ping, a pong, a farewell, or a reply that was waiting in the manager's channel. */
  lemma {:induction false} MailFrom(cfg: Network.Config, n: Network.Node, l: Network.Label, id: u64, m: Message)
    requires n.handled <= |n.events| && m in MailOf(Network.Next(cfg, n, l).peers.mail, id)
    ensures
      || m in MailOf(n.peers.mail, id) || SendTo(id, m) in n.events
      || m.Ping? || m.Pong? || m.Disconnect? || m.Transactions?
  {
    match l {
      case Manage(failed) =>
        if n.running && n.handled < |n.events| {
          Routing(n.peers, n.events[n.handled], failed, n.processorUp, id);
          hide Managed;
        }
      case Tick(failed) =>
        hide Posted;
        PostedTo(n.peers.mail, n.peers.connected - failed, Ping, id);
      case ShutDown(failed) =>
        hide Posted;
        PostedTo(n.peers.mail, n.peers.connected - failed, Farewell(), id);
      case _ =>
        hide Stepped;
    }
  }

  lemma {:induction false} StepHonest(w: World, n: Network.Node, l: Network.Label, answered: seq<bool>)
    requires AllHonest(w, n, answered) && n.handled <= |n.events|
    requires l.Reply? ==> Honest(w, n.peers.forwarded, answered, l.id, l.message)
    ensures AllHonest(w, Network.Next(w.cfg, n, l), answered)
  {
    hide Honest, Network.Next;
    var n' := Network.Next(w.cfg, n, l);
    ForwardedGrows(w.cfg, n, l);
    var fs, fs' := n.peers.forwarded, n'.peers.forwarded;
    forall e | e in n'.events && e.SendTo? ensures Honest(w, fs', answered, e.id, e.message) {
      EventsGrow(w.cfg, n, l, e);
      HonestLater(w, fs, fs', answered, answered, e.id, e.message);
    }
    forall id: u64, m | m in MailOf(n'.peers.mail, id) ensures Honest(w, fs', answered, id, m) {
      MailFrom(w.cfg, n, l, id, m);
      if m in MailOf(n.peers.mail, id) || SendTo(id, m) in n.events {
        HonestLater(w, fs, fs', answered, answered, id, m);
      } else {
        OthersHonest(w, fs', answered, id, m);
      }
    }
  }

  lemma {:induction false} OthersHonest(w: World, fs: seq<NetworkEvent>, answered: seq<bool>, id: u64, m: Message)
    requires !m.AccountState? && !m.ChainHeadAt?
    ensures Honest(w, fs, answered, id, m)
  {
  }

  lemma {:induction false} ReplyHonest(w: World, f: Full, m: Move)
    requires m.Adapt? && f.adapted < |Forwarded(f)| && ReplyTo(w, f, m).Some? && ServedOk(f)
    ensures var l := ReplyTo(w, f, m).value;
            l.Reply? && Honest(w, Forwarded(f), f.answered, l.id, l.message)
  {
    hide StateAfter, ChainAfter, InboxUpTo, HashHeader, Readable, AnsweredServed;
    var l, fs := ReplyTo(w, f, m).value, Forwarded(f);
    if fs[f.adapted].AccountQuery? {
      assert AnsweredAt(w, fs, f.adapted, l.id, l.message);
    } else {
      assert HeadSeenAt(w, fs, f.answered, f.adapted, f.served, m.position, l.id, l.message);
    }
  }

  lemma {:induction false} MoveHonest(w: World, f: Full, m: Move)
    requires AllHonest(w, f.host.node, f.answered) && f.host.node.handled <= |f.host.node.events| && ServedOk(f)
    ensures AllHonest(w, FullNext(w, f, m).host.node, f.answered)
  {
    hide AllHonest, Honest, ReplyTo, SocketsAfter, NextFrame, Network.Next, FullNext, ServedOk;
    HostStep(w, f, m);
    var s := SignalOf(w, f, m);
    if s.Some? && Lower(f.host, s.value, w.utf8).Some? {
      var l := Lower(f.host, s.value, w.utf8).value;
      if m.Adapt? {
        ReplyHonest(w, f, m);
      }
      StepHonest(w, f.host.node, l, f.answered);
    }
  }

  lemma {:induction false} AnsweredGrows(w: World, n: Network.Node, answered: seq<bool>, answered': seq<bool>)
    requires AllHonest(w, n, answered) && answered <= answered'
    ensures AllHonest(w, n, answered')
  {
    hide Honest;
    var fs := n.peers.forwarded;
    forall e | e in n.events && e.SendTo? ensures Honest(w, fs, answered', e.id, e.message) {
      HonestLater(w, fs, fs, answered, answered', e.id, e.message);
    }
    forall id: u64, m | m in MailOf(n.peers.mail, id) ensures Honest(w, fs, answered', id, m) {
      HonestLater(w, fs, fs, answered, answered', id, m);
    }
  }

  lemma {:induction false} MoveAnswers(w: World, f: Full, m: Move)
    ensures f.answered <= FullNext(w, f, m).answered
  {
    hide SignalOf, HostNext, InboxUpTo;
  }

  lemma {:induction false} RunHonest(w: World, moves: seq<Move>)
    ensures AllHonest(w, FullRan(w, moves).host.node, FullRan(w, moves).answered)
  {
    hide FullNext, Honest, ServedOk;
    if moves != [] {
      var front := moves[..|moves| - 1];
      RunHonest(w, front);
      HandledWithin(w, front);
      ServedWithin(w, front);
      hide AllHonest;
      var f, m := FullRan(w, front), moves[|moves| - 1];
      MoveHonest(w, f, m);
      MoveAnswers(w, f, m);
      AnsweredGrows(w, FullNext(w, f, m).host.node, f.answered, FullNext(w, f, m).answered);
    }
  }

  lemma {:induction false} HandledWithin(w: World, moves: seq<Move>)
    ensures FullRan(w, moves).host.node.handled <= |FullRan(w, moves).host.node.events|
  {
    hide FullRan, Signals, HostRan, Lowered, Network.Ran;
    FullRefines(w, moves);
    RunRefines(w.cfg, Signals(w, moves), w.utf8);
    Network.RunKeeps(w.cfg, Lowered(w.cfg, Signals(w, moves), w.utf8));
  }

  lemma {:induction false} WrittenIsMail(w: World, moves: seq<Move>, id: u64, m: Message)
    requires id in FullRan(w, moves).host.node.conns && m in FullRan(w, moves).host.node.conns[id].written
    ensures m.Status? || m.Disconnect? || m in MailOf(FullRan(w, moves).host.node.peers.mail, id)
  {
    hide FullRan, Signals, HostRan, Lowered, Network.Ran;
    FullRefines(w, moves);
    RunRefines(w.cfg, Signals(w, moves), w.utf8);
    NetworkRuns.PeersGetTheirMail(w.cfg, Lowered(w.cfg, Signals(w, moves), w.utf8), id);
    var n := FullRan(w, moves).host.node;
    var c := n.conns[id];
    var i :| 0 <= i < |c.written| && c.written[i] == m;
    if i > 0 {
      assert c.written[1..][i - 1] == m;
    }
  }

  /**
   * The adapter's answers, while manager and processor are there: to an account query the nonce and balance once the
   * blocks forwarded before it are processed, if there is such an account by a processor that has not panicked; to a head
   * query the head of the block read, if its difficulty fits; to a block nothing.
   */
  lemma {:induction false} QueriesAreAnswered(w: World, f: Full, position: nat)
    requires f.adapted < |Forwarded(f)| && f.host.node.running
    ensures var n, n' := f.host.node, FullNext(w, f, Adapt(true, position)).host.node;
            var messages := InboxUpTo(Forwarded(f), f.adapted);
            match Forwarded(f)[f.adapted]
            case BlockFrom(_, _) => n'.events == n.events
            case AccountQuery(a, id) =>
              var s := Ran(w.env, Initial(w.env, w.g), Processor.Deliveries(messages));
              var accounts := s.store.accounts;
              if s.halted || a !in accounts then n'.events == n.events
              else n'.events == n.events + [SendTo(id, AccountState(a, accounts[a].nonce, accounts[a].balance))]
            case HeadQuery(id) =>
              Readable(w, messages, f.served, position) ==>
                var chain := ChainAfter(w, Within(messages, f.served));
                var header, difficulty := chain[position].header, ProcessorAccounting.GasUsed(chain[1..position + 1]);
                difficulty < U128_LIMIT ==>
                  var hash := HashHeader(w.env.keccak, header);
                  n'.events == n.events + [SendTo(id, ChainHeadAt(header.number, hash, difficulty))]
  {
    hide Ran, ChainAfter, InboxUpTo, HashHeader, Processor.Deliveries, ProcessorAccounting.GasUsed, Within;
    var s := StateAfter(w, Forwarded(f), f.adapted);
    hide StateAfter;
  }

  /**
   * An account state written to a peer answers a query of that peer, and carries the nonce and balance of the account
   * once exactly the blocks forwarded before the query have been processed.
   */
  lemma {:induction false} AccountAnswersAreTrue(w: World, moves: seq<Move>, id: u64, m: Message) returns (k: nat)
    requires id in FullRan(w, moves).host.node.conns && m in FullRan(w, moves).host.node.conns[id].written
    requires m.AccountState?
    ensures var fs := Forwarded(FullRan(w, moves));
            && k < |fs| && fs[k] == AccountQuery(m.address, id)
            && var s := Ran(w.env, Initial(w.env, w.g), Processor.Deliveries(InboxUpTo(fs, k)));
               && !s.halted && m.address in s.store.accounts
               && m.nonce == s.store.accounts[m.address].nonce && m.balance == s.store.accounts[m.address].balance
  {
    hide FullRan, InboxUpTo, StateAfter;
    RunHonest(w, moves);
    WrittenIsMail(w, moves, id, m);
    var fs := Forwarded(FullRan(w, moves));
    assert Honest(w, fs, FullRan(w, moves).answered, id, m);
    k :| AnsweredAt(w, fs, k, id, m);
    var s := StateAfter(w, fs, k);
  }

  /** That account is what the processor itself answers when it comes to the query in its inbox; it gives no answer there
      exactly when it has halted before. */
  lemma {:induction false} AccountAnswerIsServed(w: World, fs: seq<NetworkEvent>, k: nat)
    requires k < |fs| && fs[k].AccountQuery?
    ensures var s, query := Initial(w.env, w.g), Processor.GetAccountState(fs[k].address);
            var before := Processor.Answers(w.env, s, InboxUpTo(fs, k));
            var answers := Processor.Answers(w.env, s, InboxUpTo(fs, k + 1));
            && InboxUpTo(fs, k + 1) == InboxUpTo(fs, k) + [query]
            && if StateAfter(w, fs, k).halted then answers == before && AccountReply(w, fs, k) == None
               else
                 && |answers| == |before| + 1 && before <= answers
                 && match answers[|before|]
                    case Ok(a) => AccountReply(w, fs, k) == Some(AccountState(fs[k].address, a.nonce, a.balance))
                    case Err(_) => AccountReply(w, fs, k) == None
  {
    assert fs[..k + 1][..k] == fs[..k];
    var before, after := InboxUpTo(fs, k), InboxUpTo(fs, k + 1);
    assert after[..|after| - 1] == before;
    Processor.ReceivedIsRan(w.env, Initial(w.env, w.g), before);
    hide NodeRuns.Inbox, Processor.Received;
    assert Processor.Answers(w.env, Initial(w.env, w.g), before) + []
        == Processor.Answers(w.env, Initial(w.env, w.g), before);
  }

  lemma {:induction false} ChainGrows(w: World, ds: seq<Delivery>, i: nat)
    requires i <= |ds|
    ensures Chain(w.env, w.g, ds[..i]) <= Chain(w.env, w.g, ds)
    decreases |ds|
  {
    hide HandleCommits, Ran;
    if i < |ds| {
      var front := ds[..|ds| - 1];
      assert front[..i] == ds[..i];
      ChainGrows(w, front, i);
    } else {
      assert ds[..i] == ds;
    }
  }

  lemma {:induction false} ServedChainGrows(w: World, messages: seq<Processor.ProcessorMessage>, i: nat)
    requires i <= |messages|
    ensures ChainAfter(w, messages[..i]) <= ChainAfter(w, messages)
  {
    hide Chain, Processor.Deliveries;
    NodeRuns.DeliveriesPrefix(messages, i);
    var ds := Processor.Deliveries(messages);
    var some := Processor.Deliveries(messages[..i]);
    assert ds[..|some|] == some;
    ChainGrows(w, ds, |some|);
  }

  /**
   * A chain head written to a peer answers a query of that peer and names a block of the chain the processor was
   * building: no older than the messages it had served, and so no older than the blocks forwarded before any account
   * query answered earlier, to whomever.
   */
  lemma {:induction false} HeadAnswersAreTrue(w: World, moves: seq<Move>, id: u64, m: Message)
    returns (k: nat, served: nat, position: nat)
    requires id in FullRan(w, moves).host.node.conns && m in FullRan(w, moves).host.node.conns[id].written
    requires m.ChainHeadAt?
    ensures var f := FullRan(w, moves);
            var fs := Forwarded(f);
            && k < |fs| && fs[k] == HeadQuery(id) && served <= |InboxUpTo(fs, k)|
            && var messages := InboxUpTo(fs, k);
               var chain := ChainAfter(w, Within(messages, served));
               && |ChainAfter(w, messages[..served])| <= position + 1 <= |chain|
               && m.number == chain[position].header.number
               && m.hash == HashHeader(w.env.keccak, chain[position].header)
               && m.totalDifficulty == ProcessorAccounting.GasUsed(chain[1..position + 1])
    ensures var f := FullRan(w, moves);
            forall j :: 0 <= j < k && j < |f.answered| && Forwarded(f)[j].AccountQuery? && f.answered[j]
              ==> |ChainAfter(w, InboxUpTo(Forwarded(f), j))| <= position + 1
  {
    hide FullRan, InboxUpTo, HashHeader, Chain, ChainAfter;
    RunHonest(w, moves);
    WrittenIsMail(w, moves, id, m);
    var f := FullRan(w, moves);
    var fs := Forwarded(f);
    assert Honest(w, fs, f.answered, id, m);
    k, served, position :| HeadSeenAt(w, fs, f.answered, k, served, position, id, m);
    forall j | 0 <= j < k && j < |f.answered| && fs[j].AccountQuery? && f.answered[j]
      ensures |ChainAfter(w, InboxUpTo(fs, j))| <= position + 1
    {
      InboxPrefix(fs, j + 1, k);
      InboxPrefix(fs, j, j + 1);
      var earlier, now := InboxUpTo(fs, j), InboxUpTo(fs, k)[..served];
      assert now[..|earlier|] == earlier;
      ServedChainGrows(w, now, |earlier|);
    }
  }

  lemma {:induction false} InboxPrefix(fs: seq<NetworkEvent>, i: nat, k: nat)
    requires i <= k <= |fs|
    ensures InboxUpTo(fs, i) <= InboxUpTo(fs, k)
    decreases k
  {
    hide InboxUpTo;
    if i < k {
      InboxPrefix(fs, i, k - 1);
      InboxGrows(fs, k - 1);
    }
  }

  // ---------- The adapter and the processor keep behind what was forwarded ----------

  lemma {:induction false} InboxGrows(fs: seq<NetworkEvent>, k: nat)
    requires k < |fs|
    ensures InboxUpTo(fs, k) <= InboxUpTo(fs, k + 1)
  {
    assert fs[..k + 1][..k] == fs[..k];
  }

  lemma {:induction false} ForwardedKept(w: World, f: Full, m: Move)
    ensures Forwarded(f) <= Forwarded(FullNext(w, f, m))
  {
    hide FullNext, SignalOf, Lower, SocketsAfter, Network.Next;
    HostStep(w, f, m);
    var s := SignalOf(w, f, m);
    if s.Some? && Lower(f.host, s.value, w.utf8).Some? {
      ForwardedGrows(w.cfg, f.host.node, Lower(f.host, s.value, w.utf8).value);
    }
  }

  ghost predicate ServedOk(f: Full) {
    && |f.answered| == f.adapted <= |Forwarded(f)|
    && f.served <= |InboxUpTo(Forwarded(f), f.adapted)|
    && AnsweredServed(Forwarded(f), f.answered, f.adapted, f.served)
  }

  /** The adapter takes only what was forwarded, the processor serves only what it was sent, and an account query is
      answered only once served. */
  lemma {:induction false} ServedWithin(w: World, moves: seq<Move>)
    ensures ServedOk(FullRan(w, moves))
  {
    hide ServedOk, FullNext;
    if moves == [] {
      NothingServed();
    } else {
      var front, m := moves[..|moves| - 1], moves[|moves| - 1];
      ServedWithin(w, front);
      MoveServes(w, FullRan(w, front), m);
    }
  }

  lemma {:induction false} NothingServed()
    ensures ServedOk(FULL_START)
  {
  }

  lemma {:induction false} MoveServes(w: World, f: Full, m: Move)
    requires ServedOk(f)
    ensures ServedOk(FullNext(w, f, m))
  {
    hide InboxUpTo, SignalOf, HostNext, AnsweredServed;
    var f', fs := FullNext(w, f, m), Forwarded(f);
    var fs' := Forwarded(f');
    ForwardedKept(w, f, m);
    InboxKept(fs, fs', f'.adapted);
    AnsweredServedLater(fs, fs', f.answered, f.answered, f.adapted, f.served);
    if f.adapted < |fs| {
      InboxGrows(fs, f.adapted);
    }
    if m.Adapt? && !m.answered {
      SilentUnanswered(w, f, m);
    }
    ServedMore(fs', f.answered, f'.answered, f.adapted, f'.adapted, f.served, f'.served);
  }

  lemma {:induction false} SilentUnanswered(w: World, f: Full, m: Move)
    requires m.Adapt? && !m.answered
    ensures SignalOf(w, f, m) == None
  {
    hide AccountReply, HeadReply, Readable;
  }

  lemma {:induction false} ServedMore(
      fs: seq<NetworkEvent>, answered: seq<bool>, answered': seq<bool>, k: nat, k': nat, served: nat, served': nat)
    requires AnsweredServed(fs, answered, k, served) && |answered| == k <= |fs| && served <= served'
    requires k' <= |fs| && answered <= answered' && |answered'| == k' <= k + 1
    requires k' == k + 1 && fs[k].AccountQuery? && answered'[k] ==> |InboxUpTo(fs, k + 1)| <= served'
    ensures AnsweredServed(fs, answered', k', served')
  {
    hide InboxUpTo;
  }

  lemma {:induction false} InboxKept(fs: seq<NetworkEvent>, fs': seq<NetworkEvent>, k: nat)
    requires fs <= fs'
    ensures k <= |fs| ==> InboxUpTo(fs', k) == InboxUpTo(fs, k)
  {
    if k <= |fs| {
      assert fs'[..k] == fs[..k];
    }
  }

  // ---------- From bytes on the wire to the chain ----------

  /** Among the messages a peer's bytes spell out, after a greeting on our chain, stands this block. */
  predicate OnTheWire(w: World, signals: seq<Signal>, id: u64, k: nat, block: Block) {
    var said := Stream(Arrived(signals, id), w.utf8).messages;
    Network.Greets(w.cfg, said) && 0 < k < |said| && said[k].NewBlock? && said[k].block == block
  }

  /**
   * However far the processor has got: every block it committed stands, as a new block, in the bytes that one peer sent,
   * after that peer's greeting on our chain; however those bytes were cut and whatever else happened meanwhile.
   */
  lemma {:induction false} CommittedWasOnTheWire(w: World, moves: seq<Move>, j: nat, i: nat)
    requires j <= |NodeRuns.Inbox(Forwarded(FullRan(w, moves)))|
    requires 1 <= i < |NodeRuns.ServedChain(w.env, w.g, Forwarded(FullRan(w, moves)), j)|
    ensures var block := NodeRuns.ServedChain(w.env, w.g, Forwarded(FullRan(w, moves)), j)[i];
            exists id, k :: OnTheWire(w, Signals(w, moves), id, k, block)
  {
    hide FullRan, Signals, HostRan, Lowered, Network.Ran, NodeRuns.ServedChain, NodeRuns.Inbox, Stream, NextFrame;
    FullRefines(w, moves);
    var signals := Signals(w, moves);
    RunRefines(w.cfg, signals, w.utf8);
    var labels := Lowered(w.cfg, signals, w.utf8);
    NodeRuns.CommittedWasSaid(w.cfg, labels, w.env, w.g, j, i);
    var n := Network.Ran(w.cfg, labels);
    var block := NodeRuns.ServedChain(w.env, w.g, n.peers.forwarded, j)[i];
    var id, k, m :| NetworkRuns.Said(w.cfg, n, id, k, m) && m.NewBlock? && m.block == block;
    HeardIsStreamed(w.cfg, signals, w.utf8, id);
    assert OnTheWire(w, signals, id, k, block);
  }
}
