/** What the network machine guarantees over every run: membership, reports, crashes, requests and mail. */
module NetworkRuns {
  import opened Primitives
  import opened Messages
  import opened Connection
  import opened Manager
  import opened Network

  // ---------- Membership and order ----------

  lemma {:induction false} OwnHas(events: seq<PeerEvent>, e: PeerEvent)
    requires e in events && !e.SendTo?
    ensures e in Own(events, e.id)
  {
    var front := events[..|events| - 1];
    if e in front {
      OwnHas(front, e);
    }
  }

  /** A peer in the map has greeted us on our chain, and its connection has been announced and not yet withdrawn. */
  lemma {:induction false} MembersAreConnected(cfg: Config, labels: seq<Label>, id: u64)
    ensures var n := Ran(cfg, labels);
            id in n.peers.connected ==>
              && n.handled <= |n.events|
              && id in n.conns && Greets(cfg, n.conns[id].heard)
              && Greeted(id, Own(n.events[..n.handled], id))
              && Disconnected(id) !in n.events[..n.handled]
  {
    hide Ran;
    RunKeeps(cfg, labels);
    var n := Ran(cfg, labels);
    if id in n.peers.connected {
      var p := PartOf(n, id);
      assert PartOk(cfg, id, p);
      hide PartOk, Own;
      MemberFacts(cfg, id, p);
      if Disconnected(id) in n.events[..n.handled] {
        OwnHas(n.events[..n.handled], Disconnected(id));
      }
    }
  }

  lemma {:induction false} MemberFacts(cfg: Config, id: u64, p: Part)
    requires PartOk(cfg, id, p) && p.member
    ensures p.conn.Some? && Greets(cfg, p.conn.value.heard) && Greeted(id, p.seen) && Disconnected(id) !in p.seen
  {
    hide Conversation;
    assert p.own[0] == p.seen[0];
    PartOrder(cfg, id, p, 0);
    if Disconnected(id) in p.seen {
      var i :| 0 <= i < |p.seen| && p.seen[i] == Disconnected(id);
      assert p.own[i] == p.seen[i];
      PartOrder(cfg, id, p, i);
    }
  }

  lemma {:induction false} OwnIn(events: seq<PeerEvent>, id: u64, e: PeerEvent)
    requires e in Own(events, id)
    ensures e in events
  {
    var front := events[..|events| - 1];
    if e in Own(front, id) {
      OwnIn(front, id, e);
    }
  }

  /**
   * What a connection reports, in every run: Connected only first, Disconnected only last, and in between, one for
   * one and in order, what the peer said after a status for our chain, never a further status.
   */
  lemma {:induction false} ReportOrder(cfg: Config, labels: seq<Label>, id: u64, i: nat)
    requires i < |Own(Ran(cfg, labels).events, id)|
    ensures var n := Ran(cfg, labels);
            var own := Own(n.events, id);
            && id in n.conns && own[i].id == id
            && (own[i].Connected? ==> i == 0)
            && (own[i].Disconnected? ==> i == |own| - 1)
            && (own[i].FromPeer? ==>
                  0 < i < |n.conns[id].heard| && own[i].message == n.conns[id].heard[i] && !own[i].message.Status?)
            && (!own[i].Disconnected? ==> Greets(cfg, n.conns[id].heard))
            && !own[i].SendTo?
  {
    hide Ran;
    RunKeeps(cfg, labels);
    var n := Ran(cfg, labels);
    assert PartOk(cfg, id, PartOf(n, id));
    hide PartOk, Own;
    PartOrder(cfg, id, PartOf(n, id), i);
  }

  // ---------- Which ends go unreported ----------

  ghost predicate Panics(cfg: Config, labels: seq<Label>, id: u64, k: nat) {
    && k < |labels| && labels[k] == Act(id, Panic)
    && var n := Ran(cfg, labels[..k]);
       id in n.conns && Alive(n.conns[id])
  }

  /** A decoder panic struck the connection while it was alive. */
  ghost predicate PanicStruck(cfg: Config, labels: seq<Label>, id: u64) {
    exists k: nat :: Panics(cfg, labels, id, k)
  }

  lemma {:induction false} PanicsEarlier(cfg: Config, labels: seq<Label>, id: u64)
    requires labels != []
    ensures var n := |labels| - 1;
            PanicStruck(cfg, labels, id) <==> PanicStruck(cfg, labels[..n], id) || Panics(cfg, labels, id, n)
  {
    hide Ran;
    var n := |labels| - 1;
    forall k: nat | k < n ensures Panics(cfg, labels, id, k) <==> Panics(cfg, labels[..n], id, k) {
      assert labels[..n][..k] == labels[..k];
    }
    if PanicStruck(cfg, labels, id) {
      var k: nat :| Panics(cfg, labels, id, k);
      assert k < n ==> Panics(cfg, labels[..n], id, k);
    }
    if PanicStruck(cfg, labels[..n], id) {
      var k: nat :| Panics(cfg, labels[..n], id, k);
      assert Panics(cfg, labels, id, k);
    }
  }

  /** What one step does to the phase of a connection that is already there. */
  lemma {:induction false} PhaseStep(cfg: Config, n: Node, l: Label, id: u64)
    requires id in n.conns && n.counter + 1 !in n.conns
    ensures var n' := Next(cfg, n, l);
            && id in n'.conns
            && (n'.conns[id].phase == Crashed <==>
                  n.conns[id].phase == Crashed || (l == Act(id, Panic) && Alive(n.conns[id])))
  {
    hide Managed, Sent, OnFrame, OnMail;
    if l.Act? && l.id == id {
      TurnHears(Context(id, cfg.chainId, cfg.reason), n.conns[id], Turn(l.input, n.running, WaitingMail(n, id)));
    }
  }

  lemma {:induction false} NewPhase(cfg: Config, n: Node, l: Label, id: u64)
    requires id !in n.conns && id in Next(cfg, n, l).conns
    ensures Next(cfg, n, l).conns[id] == FRESH
  {
    hide Managed, Sent, Stepped;
  }

  lemma {:induction false} NextIdFree(cfg: Config, labels: seq<Label>)
    ensures Ran(cfg, labels).counter + 1 !in Ran(cfg, labels).conns
  {
    hide Ran;
    RunKeeps(cfg, labels);
  }

  lemma {:induction false} CrashedIff(cfg: Config, labels: seq<Label>, id: u64)
    requires id in Ran(cfg, labels).conns
    ensures Ran(cfg, labels).conns[id].phase == Crashed <==> PanicStruck(cfg, labels, id)
  {
    hide Next;
    if labels != [] {
      var k := |labels| - 1;
      var front, l := labels[..k], labels[k];
      var n := Ran(cfg, front);
      PanicsEarlier(cfg, labels, id);
      NextIdFree(cfg, front);
      if id in n.conns {
        CrashedIff(cfg, front, id);
        PhaseStep(cfg, n, l, id);
      } else {
        NewPhase(cfg, n, l, id);
        NotYetStruck(cfg, front, id);
      }
    }
  }

  lemma {:induction false} NotYetStruck(cfg: Config, labels: seq<Label>, id: u64)
    requires id !in Ran(cfg, labels).conns
    ensures !PanicStruck(cfg, labels, id)
  {
    hide Next;
    if labels != [] {
      var front := labels[..|labels| - 1];
      PanicsEarlier(cfg, labels, id);
      NextIdFree(cfg, front);
      if id in Ran(cfg, front).conns {
        PhaseStep(cfg, Ran(cfg, front), labels[|labels| - 1], id);
      } else {
        NotYetStruck(cfg, front, id);
      }
    }
  }

  /**
   * While the manager runs, it has been told of a finished connection exactly when no decoder panic struck that
   * connection while it was alive.
   */
  lemma {:induction false} EndToldIff(cfg: Config, labels: seq<Label>, id: u64)
    ensures var n := Ran(cfg, labels);
            n.running && id in n.conns && !Alive(n.conns[id]) ==>
              (Disconnected(id) in n.events <==> !PanicStruck(cfg, labels, id))
  {
    var n := Ran(cfg, labels);
    if n.running && id in n.conns && !Alive(n.conns[id]) {
      CrashedIff(cfg, labels, id);
      hide Ran, PanicStruck;
      EndedTells(cfg, labels, id);
    }
  }

  lemma {:induction false} EndedTells(cfg: Config, labels: seq<Label>, id: u64)
    requires var n := Ran(cfg, labels); n.running && id in n.conns && !Alive(n.conns[id])
    ensures Disconnected(id) in Ran(cfg, labels).events <==> Ran(cfg, labels).conns[id].phase == Ended
  {
    hide Ran;
    RunKeeps(cfg, labels);
    var n := Ran(cfg, labels);
    var p := PartOf(n, id);
    assert PartOk(cfg, id, p);
    hide Own;
    if n.conns[id].phase == Ended {
      OwnIn(n.events, id, Disconnected(id));
    } else if Disconnected(id) in n.events {
      OwnHas(n.events, Disconnected(id));
    }
  }

  /** The failing run: a peer that has been greeted panics the decoder and stays in the map, with nothing left to
      handle. */
  lemma {:induction false} CrashGoesUnnoticed(cfg: Config, hash: B256)
    ensures var greeting := Frame(Status(cfg.chainId, hash, 0), hash, 0, true);
            var n := Ran(cfg, [Accept, Act(1, greeting), Manage({}), Act(1, Panic)]);
            && n.running && n.handled == |n.events|
            && 1 in n.conns && !Alive(n.conns[1])
            && 1 in n.peers.connected && Disconnected(1) !in n.events
  {
    var greeting := Frame(Status(cfg.chainId, hash, 0), hash, 0, true);
    var labels: seq<Label> := [Accept, Act(1, greeting), Manage({}), Act(1, Panic)];
    assert labels == [] + [Accept] + [Act(1, greeting)] + [Manage({})] + [Act(1, Panic)];
    RanSnoc(cfg, [], Accept);
    RanSnoc(cfg, [] + [Accept], Act(1, greeting));
    RanSnoc(cfg, [] + [Accept] + [Act(1, greeting)], Manage({}));
    RanSnoc(cfg, [] + [Accept] + [Act(1, greeting)] + [Manage({})], Act(1, Panic));
    assert Ran(cfg, []) == START;
    hide Ran;
    GreetedAndListed(cfg, hash);
    var listed := Next(cfg, Next(cfg, Next(cfg, START, Accept), Act(1, greeting)), Manage({}));
    PanicSilent(cfg, listed);
  }

  lemma {:induction false} RanSnoc(cfg: Config, labels: seq<Label>, l: Label)
    ensures Ran(cfg, labels + [l]) == Next(cfg, Ran(cfg, labels), l)
  {
    assert (labels + [l])[..|labels|] == labels;
  }

  lemma {:induction false} GreetedAndListed(cfg: Config, hash: B256)
    ensures var greeting := Frame(Status(cfg.chainId, hash, 0), hash, 0, true);
            var n := Next(cfg, Next(cfg, Next(cfg, START, Accept), Act(1, greeting)), Manage({}));
            && n.running && n.events == [Connected(1)] && n.handled == 1
            && 1 in n.peers.connected && 1 in n.conns && n.conns[1].phase == Established
  {
    var greeting := Frame(Status(cfg.chainId, hash, 0), hash, 0, true);
    var accepted := Next(cfg, START, Accept);
    assert accepted.conns == map[1 := FRESH] && accepted.events == [];
    var greeted := Next(cfg, accepted, Act(1, greeting));
    assert greeted.events == [Connected(1)] && greeted.conns[1].phase == Established;
  }

  lemma {:induction false} PanicSilent(cfg: Config, n: Node)
    requires 1 in n.conns && Alive(n.conns[1])
    ensures var n' := Next(cfg, n, Act(1, Panic));
            n' == n.(conns := n.conns[1 := n.conns[1].(phase := Crashed)])
  {
  }

  lemma {:induction false} ForwardsHave(events: seq<PeerEvent>, f: NetworkEvent)
    requires f in Forwards(events)
    ensures exists e :: e in events && Forward(e) == Some(f)
  {
    var front, last := events[..|events| - 1], events[|events| - 1];
    if f in Forwards(front) {
      ForwardsHave(front, f);
    } else {
      assert last in events && Forward(last) == Some(f);
    }
  }

  /** The message was the i-th thing the peer said, and its first words were a status for our chain. */
  predicate Said(cfg: Config, n: Node, id: u64, i: nat, m: Message) {
    id in n.conns && Greets(cfg, n.conns[id].heard) && 0 < i < |n.conns[id].heard| && n.conns[id].heard[i] == m
  }

  /** Whatever reaches the processor was said by a peer that had completed the handshake. */
  lemma {:induction false} ForwardedWasSaid(cfg: Config, labels: seq<Label>, f: NetworkEvent)
    requires f in Ran(cfg, labels).peers.forwarded
    ensures exists m, i :: Said(cfg, Ran(cfg, labels), f.peerId, i, m) && Forward(FromPeer(f.peerId, m)) == Some(f)
  {
    hide Ran;
    RunKeeps(cfg, labels);
    var n := Ran(cfg, labels);
    var events := n.events[..n.handled];
    ForwardsHave(events, f);
    var e :| e in events && Forward(e) == Some(f);
    var id := f.peerId;
    assert id == e.id && e in n.events;
    OwnHas(n.events, e);
    var p := PartOf(n, id);
    assert PartOk(cfg, id, p);
    hide PartOk, Own;
    var i :| 0 <= i < |p.own| && p.own[i] == e;
    PartOrder(cfg, id, p, i);
    assert Said(cfg, n, id, i, e.message);
  }

  // ---------- What reaches the processor, peer by peer ----------

  function ForwardedBy(fs: seq<NetworkEvent>, id: u64): seq<NetworkEvent> {
    if fs == [] then []
    else
      var front, last := ForwardedBy(fs[..|fs| - 1], id), fs[|fs| - 1];
      if last.peerId == id then front + [last] else front
  }

  /** The requests for the processor among a peer's messages. */
  function Requests(id: u64, ms: seq<Message>): seq<NetworkEvent> {
    if ms == [] then []
    else
      var front, last := Requests(id, ms[..|ms| - 1]), Forward(FromPeer(id, ms[|ms| - 1]));
      if last.Some? then front + [last.value] else front
  }

  /** What the peer said after its first message. */
  function Later(heard: seq<Message>): seq<Message> {
    if heard == [] then [] else heard[1..]
  }

  lemma {:induction false} ForwardedByOwn(events: seq<PeerEvent>, id: u64)
    ensures ForwardedBy(Forwards(events), id) == Forwards(Own(events, id))
  {
    if events != [] {
      var front, last := events[..|events| - 1], events[|events| - 1];
      ForwardedByOwn(front, id);
      if Forward(last).Some? {
        var fs := Forwards(events);
        assert fs[..|fs| - 1] == Forwards(front);
      }
      if Mine(id, last) {
        var own := Own(events, id);
        assert own[..|own| - 1] == Own(front, id);
      }
    }
  }

  lemma {:induction false} ForwardsPrefix(events: seq<PeerEvent>, fs: seq<NetworkEvent>) returns (j: nat)
    requires fs <= Forwards(events)
    ensures j <= |events| && fs == Forwards(events[..j])
  {
    if fs == Forwards(events) {
      j := |events|;
      assert events[..j] == events;
    } else {
      var front := events[..|events| - 1];
      j := ForwardsPrefix(front, fs);
      assert front[..j] == events[..j];
    }
  }

  lemma {:induction false} OwnRequests(cfg: Config, id: u64, p: Part, k: nat) returns (t: nat)
    requires PartOk(cfg, id, p) && p.conn.Some? && k <= |p.own|
    ensures t <= |Later(p.conn.value.heard)|
    ensures Forwards(p.own[..k]) == Requests(id, Later(p.conn.value.heard)[..t])
    ensures k == 0 ==> t == 0
    ensures k > 0 && !p.own[k - 1].Disconnected? ==> t == k - 1
    decreases k
  {
    hide PartOk, Forward;
    var later := Later(p.conn.value.heard);
    if k == 0 {
      t := 0;
    } else {
      var front := p.own[..k - 1];
      assert p.own[..k][..k - 1] == front;
      var t' := OwnRequests(cfg, id, p, k - 1);
      PartOrder(cfg, id, p, k - 1);
      if k >= 2 {
        PartOrder(cfg, id, p, k - 2);
      }
      NoRequest(id, p.own[k - 1]);
      if p.own[k - 1].FromPeer? {
        t := k - 1;
        assert later[..t][..t - 1] == later[..t'];
      } else {
        t := t';
      }
    }
  }

  lemma {:induction false} NoRequest(id: u64, e: PeerEvent)
    ensures !e.FromPeer? ==> Forward(e) == None
  {
  }

  /**
   * Peer by peer the processor gets, in order and once each, the requests among the first t things the peer said after
   * its greeting; and all of them once the manager has caught up with a connection that is still open.
   */
  lemma {:induction false} ForwardedInOrder(cfg: Config, labels: seq<Label>, id: u64) returns (t: nat)
    requires id in Ran(cfg, labels).conns
    ensures var n := Ran(cfg, labels);
            var later := Later(n.conns[id].heard);
            && t <= |later| && ForwardedBy(n.peers.forwarded, id) == Requests(id, later[..t])
            && (n.processorUp && n.handled == |n.events| && n.conns[id].phase == Established ==> t == |later|)
  {
    hide Ran;
    RunKeeps(cfg, labels);
    var n := Ran(cfg, labels);
    var p := PartOf(n, id);
    assert PartOk(cfg, id, p);
    var events := n.events[..n.handled];
    var j := n.handled;
    if n.peers.forwarded == Forwards(events) {
      assert events[..j] == events;
    } else {
      j := ForwardsPrefix(events, n.peers.forwarded);
    }
    assert n.peers.forwarded == Forwards(n.events[..j]) by {
      assert events[..j] == n.events[..j];
    }
    ForwardedByOwn(n.events[..j], id);
    OwnPrefix(n.events, j, id);
    var own := Own(n.events[..j], id);
    assert own == p.own[..|own|];
    t := OwnRequests(cfg, id, p, |own|);
    if n.processorUp && n.handled == |n.events| && n.conns[id].phase == Established {
      assert n.events[..j] == n.events;
      AllReported(cfg, id, p);
    }
  }

  lemma {:induction false} AllReported(cfg: Config, id: u64, p: Part)
    requires PartOk(cfg, id, p) && p.conn.Some? && p.conn.value.phase == Established
    ensures |p.own| == |p.conn.value.heard| && !p.own[|p.own| - 1].Disconnected?
  {
  }

  /** A peer is written nothing before it greets; after our greeting it gets exactly the mail posted to it, in order. */
  lemma {:induction false} PeersGetTheirMail(cfg: Config, labels: seq<Label>, id: u64)
    ensures var n := Ran(cfg, labels);
            var mail := MailOf(n.peers.mail, id);
            id in n.conns ==>
              var c := n.conns[id];
              && (c.phase == AwaitingStatus ==> c.written == [] && mail == [])
              && (c.phase == Established ==>
                    && Greets(cfg, c.heard) && Greets(cfg, c.written)
                    && c.taken <= |mail| && c.written[1..] == mail[..c.taken])
              && (!Alive(c) ==> WroteOut(cfg, c.written, mail))
  {
    hide Ran;
    RunKeeps(cfg, labels);
    var n := Ran(cfg, labels);
    assert PartOk(cfg, id, PartOf(n, id));
    hide Own, Report;
  }
}
