/** The peer manager: who is connected, what is sent to whom, and what reaches the block processor. */
module Manager {
  import opened Primitives
  import opened ChainTypes
  import opened Messages
  import opened Connection

  datatype NetworkEvent =
    | BlockFrom(block: Block, peerId: u64)
    | AccountQuery(address: Address, peerId: u64)
    | HeadQuery(peerId: u64)

  /** The peer map, the mail put into each peer's channel so far, and the events handed to the processor. */
  datatype Peers = Peers(connected: set<u64>, mail: map<u64, seq<Message>>, forwarded: seq<NetworkEvent>)

  function MailOf(mail: map<u64, seq<Message>>, id: u64): seq<Message> {
    if id in mail then mail[id] else []
  }

  function Posted(mail: map<u64, seq<Message>>, targets: set<u64>, m: Message): map<u64, seq<Message>> {
    map id | id in mail.Keys + targets :: if id in targets then MailOf(mail, id) + [m] else mail[id]
  }

  /** Sending to some peers: those whose channel is closed are dropped from the map. */
  function Sent(p: Peers, targets: set<u64>, m: Message, failed: set<u64>): Peers {
    p.(connected := p.connected - targets * failed, mail := Posted(p.mail, targets - failed, m))
  }

  function Forward(e: PeerEvent): Option<NetworkEvent> {
    if !e.FromPeer? then None
    else if e.message.NewBlock? then Some(BlockFrom(e.message.block, e.id))
    else if e.message.GetAccountState? then Some(AccountQuery(e.message.address, e.id))
    else if e.message.GetChainHead? then Some(HeadQuery(e.id))
    else None
  }

  /** Whom an event makes the manager write to, and what. */
  function Mail(p: Peers, e: PeerEvent): Option<(set<u64>, Message)> {
    match e
    case FromPeer(id, message) =>
      if message.Ping? then Some((p.connected * {id}, Pong))
      else if message.Transactions? then Some((p.connected - {id}, message))
      else None
    case SendTo(id, message) => Some((p.connected * {id}, message))
    case _ => None
  }

  function Managed(p: Peers, e: PeerEvent, failed: set<u64>, processorUp: bool): Peers {
    if e.Connected? then p.(connected := p.connected + {e.id})
    else if e.Disconnected? then p.(connected := p.connected - {e.id})
    else if Mail(p, e).Some? then Sent(p, Mail(p, e).value.0, Mail(p, e).value.1, failed)
    else if Forward(e).Some? && processorUp then p.(forwarded := p.forwarded + [Forward(e).value])
    else p
  }

  function Farewell(): Message {
    Disconnect(seq(|GOODBYE|, i requires 0 <= i < |GOODBYE| => GOODBYE[i] as int))
  }

  const GOODBYE := "node shutting down"

  /** The targets already served, split into those reached and those found stale. */
  ghost predicate Parted(targets: set<u64>, failed: set<u64>, remaining: set<u64>, reached: set<u64>, stale: set<u64>) {
    && remaining <= targets
    && reached == targets - remaining - failed
    && stale == (targets - remaining) * failed
  }

  lemma {:induction false} PartNone(targets: set<u64>, failed: set<u64>)
    ensures Parted(targets, failed, targets, {}, {})
  {
  }

  lemma {:induction false} PartAll(targets: set<u64>, failed: set<u64>, reached: set<u64>, stale: set<u64>)
    requires Parted(targets, failed, {}, reached, stale)
    ensures reached == targets - failed && stale == targets * failed
  {
  }

  lemma {:induction false} PartMore(
      targets: set<u64>, failed: set<u64>, remaining: set<u64>, reached: set<u64>, stale: set<u64>, id: u64)
    requires Parted(targets, failed, remaining, reached, stale) && id in remaining
    ensures id !in reached
    ensures id in failed ==> Parted(targets, failed, remaining - {id}, reached, stale + {id})
    ensures id !in failed ==> Parted(targets, failed, remaining - {id}, reached + {id}, stale)
  {
    assert targets - (remaining - {id}) == (targets - remaining) + {id};
  }

  class PeerManager {
    var peerMap: set<u64>
    var mail: map<u64, seq<Message>>
    var forwarded: seq<NetworkEvent>

    function View(): Peers
      reads this
    {
      Peers(peerMap, mail, forwarded)
    }

    constructor ()
      ensures View() == Peers({}, map[], [])
    {
      peerMap, mail, forwarded := {}, map[], [];
    }

    /** A send on one peer's channel; failed names the channels whose connection is gone. */
    method Send(id: u64, m: Message, failed: set<u64>) returns (ok: bool)
      modifies this`mail
      ensures ok == (id !in failed)
      ensures mail == if ok then Posted(old(mail), {id}, m) else old(mail)
    {
      ok := id !in failed;
      if ok {
        mail := mail[id := MailOf(mail, id) + [m]];
      }
    }

    /** Sends to the targets in any order, noting those whose channel is closed. */
    method PostAll(targets: set<u64>, m: Message, failed: set<u64>) returns (stale: set<u64>)
      modifies this`mail
      ensures stale == targets * failed && mail == Posted(old(mail), targets - failed, m)
    {
      hide Posted, Parted;
      stale := {};
      ghost var reached: set<u64> := {};
      var remaining := targets;
      PostedNone(mail, m);
      PartNone(targets, failed);
      while remaining != {}
        invariant Parted(targets, failed, remaining, reached, stale)
        invariant mail == Posted(old(mail), reached, m)
        decreases |remaining|
      {
        var id :| id in remaining;
        var ok := Send(id, m, failed);
        PartMore(targets, failed, remaining, reached, stale, id);
        if ok {
          PostedMore(old(mail), reached, id, m);
          reached := reached + {id};
        } else {
          stale := stale + {id};
        }
        remaining := remaining - {id};
      }
      PartAll(targets, failed, reached, stale);
    }

    method SendAll(targets: set<u64>, m: Message, failed: set<u64>)
      modifies this
      ensures View() == Sent(old(View()), targets, m, failed)
    {
      hide Posted;
      var stale := PostAll(targets, m, failed);
      peerMap := peerMap - stale;
    }

    method HandleEvent(e: PeerEvent, failed: set<u64>, processorUp: bool)
      modifies this
      ensures View() == Managed(old(View()), e, failed, processorUp)
    {
      hide Posted;
      match e
      case Connected(id) => peerMap := peerMap + {id};
      case Disconnected(id) => peerMap := peerMap - {id};
      case SendTo(id, message) => SendOne(id, message, failed);
      case FromPeer(id, message) =>
        if message.Ping? {
          SendOne(id, Pong, failed);
        } else if message.Transactions? {
          SendAll(peerMap - {id}, message, failed);
        } else if Forward(e).Some? && processorUp {
          forwarded := forwarded + [Forward(e).value];
        }
    }

    method SendOne(id: u64, m: Message, failed: set<u64>)
      modifies this
      ensures View() == Sent(old(View()), old(peerMap) * {id}, m, failed)
    {
      hide Posted;
      assert {} - failed == {};
      PostedNone(mail, m);
      if id in peerMap {
        assert peerMap * {id} == {id};
        var ok := Send(id, m, failed);
        if !ok {
          peerMap := peerMap - {id};
          assert {id} - failed == {};
        } else {
          assert {id} - failed == {id};
        }
      } else {
        assert peerMap * {id} == {};
      }
    }

    method Tick(failed: set<u64>)
      modifies this
      ensures View() == Sent(old(View()), old(peerMap), Ping, failed)
    {
      SendAll(peerMap, Ping, failed);
    }

    method ShutDown(failed: set<u64>)
      modifies this
      ensures View() == Sent(old(View()), old(peerMap), Farewell(), failed).(connected := {})
    {
      SendAll(peerMap, Farewell(), failed);
      peerMap := {};
    }
  }

  lemma {:induction false} PostedNone(mail: map<u64, seq<Message>>, m: Message)
    ensures Posted(mail, {}, m) == mail
  {
  }

  lemma {:induction false} PostedMore(mail: map<u64, seq<Message>>, targets: set<u64>, id: u64, m: Message)
    requires id !in targets
    ensures Posted(Posted(mail, targets, m), {id}, m) == Posted(mail, targets + {id}, m)
  {
  }

  lemma {:induction false} PostedTo(mail: map<u64, seq<Message>>, targets: set<u64>, m: Message, id: u64)
    ensures MailOf(Posted(mail, targets, m), id) == if id in targets then MailOf(mail, id) + [m] else MailOf(mail, id)
  {
  }

  /** A write reaches the targets whose channel is open and takes the others out of the map. */
  lemma {:induction false} SentTo(p: Peers, targets: set<u64>, m: Message, failed: set<u64>, x: u64)
    ensures var p' := Sent(p, targets, m, failed);
            && (x in p'.connected <==> x in p.connected && !(x in targets && x in failed))
            && MailOf(p'.mail, x) == MailOf(p.mail, x) + (if x in targets && x !in failed then [m] else [])
            && p'.forwarded == p.forwarded
  {
    PostedTo(p.mail, targets - failed, m, x);
  }

  /**
   * Who is in the map after an event: whoever it announces, and those who were and whom it neither withdraws nor makes
   * the manager write to in vain. What reaches the processor: blocks and queries of peers, with whom they are from.
   */
  lemma {:induction false} Membership(p: Peers, e: PeerEvent, failed: set<u64>, processorUp: bool, x: u64)
    ensures var p' := Managed(p, e, failed, processorUp);
            var written := || (e.FromPeer? && e.message.Ping? && x == e.id) || (e.SendTo? && x == e.id)
                           || (e.FromPeer? && e.message.Transactions? && x != e.id);
            && (x in p'.connected
                <==> e == Connected(x) || (x in p.connected && e != Disconnected(x) && !(written && x in failed)))
            && p'.forwarded == p.forwarded
               + (if !processorUp || !e.FromPeer? then []
                  else match e.message
                       case NewBlock(block, _) => [BlockFrom(block, e.id)]
                       case GetAccountState(address) => [AccountQuery(address, e.id)]
                       case GetChainHead => [HeadQuery(e.id)]
                       case _ => [])
  {
    hide Posted;
  }

  /**
   * Who is written what: a ping is answered to its sender alone, transactions go to everyone else, a reply to its
   * addressee alone, and never to a peer outside the map or with a closed channel.
   */
  lemma {:induction false} Routing(p: Peers, e: PeerEvent, failed: set<u64>, processorUp: bool, x: u64)
    ensures var before, after := MailOf(p.mail, x), MailOf(Managed(p, e, failed, processorUp).mail, x);
            var reachable := x in p.connected && x !in failed;
            if reachable && e.FromPeer? && e.message.Ping? && x == e.id then after == before + [Pong]
            else if reachable && e.FromPeer? && e.message.Transactions? && x != e.id then after == before + [e.message]
            else if reachable && e.SendTo? && x == e.id then after == before + [e.message]
            else after == before
  {
    hide Posted;
    if Mail(p, e).Some? {
      PostedTo(p.mail, Mail(p, e).value.0 - failed, Mail(p, e).value.1, x);
    }
  }
}
