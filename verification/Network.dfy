/** Connections, manager and processor inbox as one machine whose steps interleave in any order. */
module Network {
  import opened Primitives
  import opened Messages
  import opened Connection
  import opened Manager

  datatype Config = Config(chainId: u64, reason: (u64, u64) -> ByteString)

  /** All events ever put into the manager's channel are kept; the first handled of them have been received. */
  datatype Node = Node(
    counter: u64, conns: map<u64, Conn>, events: seq<PeerEvent>, handled: nat, peers: Peers,
    running: bool, processorUp: bool)

  /** Any send to a peer may fail, whichever moment its connection goes away. */
  datatype Label =
    | Accept
    | Act(id: u64, input: Input)
    | Manage(failed: set<u64>)
    | Tick(failed: set<u64>)
    | ShutDown(failed: set<u64>)
    | Reply(id: u64, message: Message)
    | ProcessorExits

  const START := Node(0, map[], [], 0, Peers({}, map[], []), true, true)

  function WaitingMail(n: Node, id: u64): Option<Message>
    requires id in n.conns
  {
    var mail, taken := MailOf(n.peers.mail, id), n.conns[id].taken;
    if taken < |mail| then Some(mail[taken]) else None
  }

  function Acted(cfg: Config, n: Node, id: u64, input: Input): Node {
    if id !in n.conns then n
    else
      var turn := Turn(input, n.running, WaitingMail(n, id));
      var (c, e) := Stepped(Context(id, cfg.chainId, cfg.reason), n.conns[id], turn);
      n.(conns := n.conns[id := c], events := Reported(n.events, e))
  }

  function Next(cfg: Config, n: Node, l: Label): Node {
    match l
    case Accept =>
      if n.counter + 1 == U64_LIMIT then n
      else n.(counter := n.counter + 1, conns := n.conns[n.counter + 1 := FRESH])
    case Act(id, input) => Acted(cfg, n, id, input)
    case Manage(failed) =>
      if !n.running || n.handled >= |n.events| then n
      else n.(peers := Managed(n.peers, n.events[n.handled], failed, n.processorUp), handled := n.handled + 1)
    case Tick(failed) =>
      if !n.running then n else n.(peers := Sent(n.peers, n.peers.connected, Ping, failed))
    case ShutDown(failed) =>
      if !n.running then n
      else n.(peers := Sent(n.peers, n.peers.connected, Farewell(), failed).(connected := {}), running := false)
    case Reply(id, message) => if !n.running then n else n.(events := n.events + [SendTo(id, message)])
    case ProcessorExits => n.(processorUp := false)
  }

  function Ran(cfg: Config, labels: seq<Label>): Node {
    if labels == [] then START else Next(cfg, Ran(cfg, labels[..|labels| - 1]), labels[|labels| - 1])
  }

  /** A tick pings everyone in the map; a shutdown says goodbye to everyone, empties the map and stops the manager. */
  lemma {:induction false} ManagerCalls(cfg: Config, n: Node, failed: set<u64>, x: u64)
    requires n.running
    ensures var ticked, stopped := Next(cfg, n, Tick(failed)), Next(cfg, n, ShutDown(failed));
            var mail, reachable := MailOf(n.peers.mail, x), x in n.peers.connected && x !in failed;
            && MailOf(ticked.peers.mail, x) == mail + (if reachable then [Ping] else [])
            && (x in ticked.peers.connected <==> reachable) && ticked.running
            && MailOf(stopped.peers.mail, x) == mail + (if reachable then [Farewell()] else [])
            && stopped.peers.connected == {} && !stopped.running
            && ticked.conns == stopped.conns == n.conns && ticked.events == stopped.events == n.events
            && ticked.peers.forwarded == stopped.peers.forwarded == n.peers.forwarded
    ensures Farewell().Disconnect? && |Farewell().reason| == 18
    ensures forall i :: 0 <= i < 18 ==> Farewell().reason[i] == "node shutting down"[i] as int
  {
    hide Posted;
    SentTo(n.peers, n.peers.connected, Ping, failed, x);
    SentTo(n.peers, n.peers.connected, Farewell(), failed, x);
  }

  // ---------- One peer's part of the machine ----------

  predicate Mine(id: u64, e: PeerEvent) {
    !e.SendTo? && e.id == id
  }

  /** The events one connection reported, in order. */
  function Own(events: seq<PeerEvent>, id: u64): seq<PeerEvent> {
    if events == [] then []
    else
      var own, last := Own(events[..|events| - 1], id), events[|events| - 1];
      if Mine(id, last) then own + [last] else own
  }

  lemma {:induction false} OwnPrefix(events: seq<PeerEvent>, k: nat, id: u64)
    requires k <= |events|
    ensures Own(events[..k], id) <= Own(events, id)
    decreases |events|
  {
    if k < |events| {
      var front := events[..|events| - 1];
      assert front[..k] == events[..k];
      OwnPrefix(front, k, id);
    } else {
      assert events[..k] == events;
    }
  }

  lemma {:induction false} OwnSnoc(events: seq<PeerEvent>, e: PeerEvent, id: u64)
    ensures Own(events + [e], id) == if Mine(id, e) then Own(events, id) + [e] else Own(events, id)
  {
    assert (events + [e])[..|events|] == events;
  }

  datatype Part = Part(
    conn: Option<Conn>, own: seq<PeerEvent>, seen: seq<PeerEvent>, member: bool, mail: seq<Message>, running: bool)

  function PartOf(n: Node, id: u64): Part
    requires n.handled <= |n.events|
  {
    Part(if id in n.conns then Some(n.conns[id]) else None, Own(n.events, id), Own(n.events[..n.handled], id),
         id in n.peers.connected, MailOf(n.peers.mail, id), n.running)
  }

  // ---------- The conversation ----------

  /** What a peer must have said: nothing yet, or a status for our chain and then no further status. */
  predicate Accepted(cfg: Config, heard: seq<Message>) {
    heard != [] ==>
      && heard[0].Status? && heard[0].chainId == cfg.chainId
      && forall i :: 1 <= i < |heard| ==> !heard[i].Status?
  }

  /** The report of an accepted conversation: one connection, then every later message. */
  function Report(id: u64, heard: seq<Message>): seq<PeerEvent> {
    seq(|heard|, i requires 0 <= i < |heard| => if i == 0 then Connected(id) else FromPeer(id, heard[i]))
  }

  function Body(id: u64, own: seq<PeerEvent>): seq<PeerEvent> {
    if own != [] && own[|own| - 1] == Disconnected(id) then own[..|own| - 1] else own
  }

  predicate Tells(cfg: Config, id: u64, heard: seq<Message>, body: seq<PeerEvent>) {
    Accepted(cfg, heard) && body == Report(id, heard)
  }

  /** After the end: all that was heard was reported, or all but the message that ended it. */
  predicate Told(cfg: Config, id: u64, heard: seq<Message>, body: seq<PeerEvent>) {
    Tells(cfg, id, heard, body) || (heard != [] && Tells(cfg, id, heard[..|heard| - 1], body))
  }

  predicate Greets(cfg: Config, written: seq<Message>) {
    written != [] && written[0].Status? && written[0].chainId == cfg.chainId
  }

  predicate Conversation(cfg: Config, id: u64, c: Conn, p: Part) {
    match c.phase
    case AwaitingStatus => c == FRESH && p.own == []
    case Established =>
      && c.heard != [] && Tells(cfg, id, c.heard, p.own)
      && Greets(cfg, c.written) && c.taken <= |p.mail| && c.written[1..] == p.mail[..c.taken]
    case Ended =>
      && Told(cfg, id, c.heard, Body(id, p.own)) && WroteOut(cfg, c.written, p.mail)
      && (p.running ==> p.own != [] && p.own[|p.own| - 1] == Disconnected(id))
    case Crashed =>
      && Tells(cfg, id, c.heard, p.own) && WroteOut(cfg, c.written, p.mail)
  }

  /** A finished connection wrote nothing, or a refusal, or its greeting and then mail addressed to it, in order. */
  predicate WroteOut(cfg: Config, written: seq<Message>, mail: seq<Message>) {
    || written == []
    || (|written| == 1 && written[0].Disconnect?)
    || (Greets(cfg, written) && written[1..] <= mail)
  }

  predicate Greeted(id: u64, events: seq<PeerEvent>) {
    events != [] && events[0] == Connected(id)
  }

  predicate PartOk(cfg: Config, id: u64, p: Part) {
    && p.seen <= p.own
    && (p.conn.None? ==> p.own == [])
    && (p.conn.Some? ==> Conversation(cfg, id, p.conn.value, p))
    && (p.member ==> Greeted(id, p.seen) && !p.seen[|p.seen| - 1].Disconnected?)
    && (p.mail != [] ==> Greeted(id, p.seen))
  }

  // ---------- Every step keeps it ----------

  lemma {:induction false} ReportSnoc(id: u64, heard: seq<Message>, m: Message)
    requires heard != []
    ensures Report(id, heard + [m]) == Report(id, heard) + [FromPeer(id, m)]
  {
  }

  /** A conversation's report has no disconnection in it, so adding one and taking it off again changes nothing. */
  lemma {:induction false} BodyOfReport(cfg: Config, id: u64, heard: seq<Message>)
    ensures Body(id, Report(id, heard)) == Report(id, heard)
    ensures Body(id, Report(id, heard) + [Disconnected(id)]) == Report(id, heard)
  {
    var r := Report(id, heard);
    assert (r + [Disconnected(id)])[..|r|] == r;
  }

  /** What is heard, written and reported when a connection that was doing well breaks off. */
  lemma {:induction false} BreaksOff(cfg: Config, id: u64, p: Part, c: Conn, heard: seq<Message>)
    requires PartOk(cfg, id, p) && p.conn.Some? && Alive(p.conn.value)
    requires c.phase == Ended && WroteOut(cfg, c.written, p.mail)
    requires heard == p.conn.value.heard && (c.heard == heard || (c.heard != [] && c.heard[..|c.heard| - 1] == heard))
    ensures PartOk(cfg, id, p.(conn := Some(c), own := if p.running then p.own + [Disconnected(id)] else p.own))
  {
    hide Report, WroteOut, Accepted, Told, Body;
    NothingHeard(cfg, id);
    ToldAtTheEnd(cfg, id, heard, c.heard, p.own, p.running);
  }

  lemma {:induction false} ToldAtTheEnd(
      cfg: Config, id: u64, heard: seq<Message>, heard': seq<Message>, own: seq<PeerEvent>, running: bool)
    requires Tells(cfg, id, heard, own)
    requires heard' == heard || (heard' != [] && heard'[..|heard'| - 1] == heard)
    ensures Told(cfg, id, heard', Body(id, if running then own + [Disconnected(id)] else own))
  {
    hide Report, Accepted;
    BodyOfReport(cfg, id, heard);
  }

  lemma {:induction false} NothingHeard(cfg: Config, id: u64)
    ensures Accepted(cfg, []) && Report(id, []) == []
  {
  }

  lemma {:induction false} FrameKeeps(cfg: Config, id: u64, p: Part, input: Input)
    requires PartOk(cfg, id, p) && p.conn.Some? && Alive(p.conn.value) && input.Frame?
    ensures var (c, e) := OnFrame(Context(id, cfg.chainId, cfg.reason), p.conn.value, input, p.running);
            PartOk(cfg, id, p.(conn := Some(c), own := Reported(p.own, e)))
  {
    hide Report;
    var c0 := p.conn.value;
    var (c, e) := OnFrame(Context(id, cfg.chainId, cfg.reason), c0, input, p.running);
    if c.phase == Ended {
      assert c.heard[..|c.heard| - 1] == c0.heard;
      BreaksOff(cfg, id, p, c, c0.heard);
    } else if c0.phase == Established {
      ReportSnoc(id, c0.heard, input.message);
    } else {
      FirstReport(id, input.message);
      assert c.heard == [input.message];
    }
  }

  lemma {:induction false} FirstReport(id: u64, m: Message)
    ensures Report(id, [m]) == [Connected(id)]
  {
  }

  lemma {:induction false} MailKeeps(cfg: Config, id: u64, p: Part, sent: bool)
    requires PartOk(cfg, id, p) && p.conn.Some? && Alive(p.conn.value) && p.conn.value.taken < |p.mail|
    ensures var ctx, c0 := Context(id, cfg.chainId, cfg.reason), p.conn.value;
            var (c, e) := OnMail(ctx, c0, p.mail[c0.taken], sent, p.running);
            PartOk(cfg, id, p.(conn := Some(c), own := Reported(p.own, e)))
  {
    hide Report, Accepted;
    var c0 := p.conn.value;
    assert c0.phase == Established;
    var (c, e) := OnMail(Context(id, cfg.chainId, cfg.reason), c0, p.mail[c0.taken], sent, p.running);
    if c.phase == Ended {
      BreaksOff(cfg, id, p, c, c0.heard);
    } else {
      assert p.mail[..c0.taken] + [p.mail[c0.taken]] == p.mail[..c0.taken + 1];
    }
  }

  lemma {:induction false} ActKeeps(cfg: Config, id: u64, p: Part, turn: Turn)
    requires PartOk(cfg, id, p) && p.conn.Some? && turn.open == p.running
    requires turn.mail == if p.conn.value.taken < |p.mail| then Some(p.mail[p.conn.value.taken]) else None
    ensures var (c, e) := Stepped(Context(id, cfg.chainId, cfg.reason), p.conn.value, turn);
            PartOk(cfg, id, p.(conn := Some(c), own := Reported(p.own, e)))
  {
    hide OnFrame, OnMail, PartOk;
    var c0 := p.conn.value;
    assert p.(conn := Some(c0), own := p.own) == p;
    if Alive(c0) {
      match turn.input {
        case Frame(_, _, _, _) => FrameKeeps(cfg, id, p, turn.input);
        case StreamOver => StreamOverKeeps(cfg, id, p);
        case Panic => PanicKeeps(cfg, id, p);
        case Outbound(sent) =>
          if c0.taken < |p.mail| {
            MailKeeps(cfg, id, p, sent);
          }
      }
    }
  }

  lemma {:induction false} StreamOverKeeps(cfg: Config, id: u64, p: Part)
    requires PartOk(cfg, id, p) && p.conn.Some? && Alive(p.conn.value)
    ensures PartOk(cfg, id, p.(conn := Some(p.conn.value.(phase := Ended)),
                               own := if p.running then p.own + [Disconnected(id)] else p.own))
  {
    hide Report, Accepted;
    BreaksOff(cfg, id, p, p.conn.value.(phase := Ended), p.conn.value.heard);
  }

  lemma {:induction false} PanicKeeps(cfg: Config, id: u64, p: Part)
    requires PartOk(cfg, id, p) && p.conn.Some? && Alive(p.conn.value)
    ensures PartOk(cfg, id, p.(conn := Some(p.conn.value.(phase := Crashed))))
  {
    hide Report, Accepted;
    NothingHeard(cfg, id);
  }

  /** The manager's effect on one peer's part: it receives at most one of its events and may post to it. */
  predicate Attended(id: u64, p: Part, p': Part, e: Option<PeerEvent>) {
    && p'.conn == p.conn && p'.own == p.own && (p'.running ==> p.running)
    && p'.seen == Reported(p.seen, e) && p'.seen <= p.own
    && (p'.member ==> (p.member || e == Some(Connected(id))) && e != Some(Disconnected(id)))
    && (p'.mail == p.mail || (p.member && p.mail <= p'.mail && |p'.mail| == |p.mail| + 1))
  }

  lemma {:induction false} PartOrder(cfg: Config, id: u64, p: Part, i: nat)
    requires PartOk(cfg, id, p) && i < |p.own|
    ensures p.conn.Some? && p.own[i].id == id && !p.own[i].SendTo?
    ensures p.own[i].Connected? ==> i == 0
    ensures p.own[i].Disconnected? ==> i == |p.own| - 1
    ensures p.own[i].FromPeer? ==>
              0 < i < |p.conn.value.heard| && p.own[i].message == p.conn.value.heard[i] && !p.own[i].message.Status?
    ensures !p.own[i].Disconnected? ==> Greets(cfg, p.conn.value.heard)
  {
    hide Report, Accepted, Greets;
    var h := ReportedPart(cfg, id, p);
    hide PartOk;
    if i < |Report(id, h)| {
      ReportAt(cfg, id, h, i);
      assert h[0] == p.conn.value.heard[0];
      GreetsPrefix(cfg, h, p.conn.value.heard);
    }
  }

  lemma {:induction false} GreetsPrefix(cfg: Config, h: seq<Message>, heard: seq<Message>)
    requires Greets(cfg, h) && h <= heard
    ensures Greets(cfg, heard)
  {
    assert h[0] == heard[0];
  }

  /** What was reported is the report of a prefix of what was heard, and perhaps a disconnection. */
  lemma {:induction false} ReportedPart(cfg: Config, id: u64, p: Part) returns (h: seq<Message>)
    requires PartOk(cfg, id, p) && p.own != []
    ensures p.conn.Some? && h <= p.conn.value.heard && Accepted(cfg, h)
    ensures p.own == Report(id, h) || p.own == Report(id, h) + [Disconnected(id)]
  {
    hide Report, Accepted, WroteOut, Greets;
    h := p.conn.value.heard;
    if p.conn.value.phase == Ended {
      var body := Body(id, p.own);
      assert body == p.own || p.own == body + [Disconnected(id)];
      if !Tells(cfg, id, h, body) {
        h := h[..|h| - 1];
      }
    }
  }

  lemma {:induction false} ReportAt(cfg: Config, id: u64, heard: seq<Message>, i: nat)
    requires Accepted(cfg, heard) && i < |Report(id, heard)|
    ensures |heard| == |Report(id, heard)| && Greets(cfg, heard)
    ensures Report(id, heard)[i] == if i == 0 then Connected(id) else FromPeer(id, heard[i])
    ensures i > 0 ==> !heard[i].Status?
  {
    ReportShape(id, heard, i);
    hide Report;
  }

  lemma {:induction false} ReportShape(id: u64, heard: seq<Message>, i: nat)
    requires i < |Report(id, heard)|
    ensures |heard| == |Report(id, heard)|
    ensures Report(id, heard)[i] == if i == 0 then Connected(id) else FromPeer(id, heard[i])
  {
  }

  lemma {:induction false} AttendKeeps(cfg: Config, id: u64, p: Part, p': Part, e: Option<PeerEvent>)
    requires PartOk(cfg, id, p) && Attended(id, p, p', e)
    ensures PartOk(cfg, id, p')
  {
    hide Told, Tells, Body;
    if p'.member && e.Some? {
      var k := |p.seen|;
      assert p.own[k] == e.value == p'.seen[k];
      PartOrder(cfg, id, p, k);
      if p.member {
        assert p'.seen[0] == p.seen[0];
      }
    }
    if p'.mail != [] && e.Some? && p.seen != [] {
      assert p'.seen[0] == p.seen[0];
    }
    if p.conn.Some? {
      MailGrows(cfg, p, p');
    }
  }

  lemma {:induction false} MailGrows(cfg: Config, p: Part, p': Part)
    requires p.conn.Some? && p'.conn == p.conn && p.mail <= p'.mail
    ensures WroteOut(cfg, p.conn.value.written, p.mail) ==> WroteOut(cfg, p.conn.value.written, p'.mail)
    ensures p.conn.value.taken <= |p.mail| ==> p.mail[..p.conn.value.taken] == p'.mail[..p.conn.value.taken]
  {
  }

  // ---------- The whole node ----------

  /** The events of a history that concern the processor, in order. */
  function Forwards(events: seq<PeerEvent>): seq<NetworkEvent> {
    if events == [] then []
    else
      var front, last := Forwards(events[..|events| - 1]), Forward(events[|events| - 1]);
      if last.Some? then front + [last.value] else front
  }

  ghost predicate Inv(cfg: Config, n: Node) {
    && n.handled <= |n.events|
    && (forall id :: id in n.conns ==> id <= n.counter)
    && (forall id: u64 :: PartOk(cfg, id, PartOf(n, id)))
    && n.peers.forwarded <= Forwards(n.events[..n.handled])
    && (n.processorUp ==> n.peers.forwarded == Forwards(n.events[..n.handled]))
    && (!n.running ==> n.peers.connected == {})
  }

  lemma {:induction false} AcceptKeeps(cfg: Config, n: Node)
    requires Inv(cfg, n)
    ensures Inv(cfg, Next(cfg, n, Accept))
  {
    hide PartOk, Own, Forwards;
    var n' := Next(cfg, n, Accept);
    if n' != n {
      forall id: u64 ensures PartOk(cfg, id, PartOf(n', id)) {
        if id == n'.counter {
          assert PartOk(cfg, id, PartOf(n, id));
          FreshOk(cfg, id, PartOf(n, id));
        } else {
          assert PartOf(n', id) == PartOf(n, id);
        }
      }
    }
  }

  lemma {:induction false} FreshOk(cfg: Config, id: u64, p: Part)
    requires PartOk(cfg, id, p) && p.conn.None?
    ensures PartOk(cfg, id, p.(conn := Some(FRESH)))
  {
  }

  lemma {:induction false} ActedKeeps(cfg: Config, n: Node, id: u64, input: Input)
    requires Inv(cfg, n) && id in n.conns
    ensures Inv(cfg, Acted(cfg, n, id, input))
  {
    hide PartOk, Own, Forwards, Stepped;
    var n' := Acted(cfg, n, id, input);
    var turn := Turn(input, n.running, WaitingMail(n, id));
    var ctx := Context(id, cfg.chainId, cfg.reason);
    var (c, e) := Stepped(ctx, n.conns[id], turn);
    assert n'.events[..n.handled] == n.events[..n.handled];
    StepReportsOwn(ctx, n.conns[id], turn);
    forall x: u64 ensures PartOk(cfg, x, PartOf(n', x)) {
      assert PartOk(cfg, x, PartOf(n, x));
      if e.Some? {
        OwnSnoc(n.events, e.value, x);
      }
      if x == id {
        ActKeeps(cfg, id, PartOf(n, id), turn);
        assert PartOf(n', id) == PartOf(n, id).(conn := Some(c), own := Reported(PartOf(n, id).own, e));
      } else {
        assert PartOf(n', x) == PartOf(n, x);
      }
    }
  }

  lemma {:induction false} StepReportsOwn(ctx: Context, c: Conn, turn: Turn)
    ensures Stepped(ctx, c, turn).1.Some? ==> Mine(ctx.id, Stepped(ctx, c, turn).1.value)
  {
  }

  lemma {:induction false} ReplyKeeps(cfg: Config, n: Node, id: u64, m: Message)
    requires Inv(cfg, n)
    ensures Inv(cfg, Next(cfg, n, Reply(id, m)))
  {
    hide PartOk, Own, Forwards;
    var n' := Next(cfg, n, Reply(id, m));
    if n.running {
      assert n'.events[..n.handled] == n.events[..n.handled];
      forall x: u64 ensures PartOk(cfg, x, PartOf(n', x)) {
        OwnSnoc(n.events, SendTo(id, m), x);
        assert PartOf(n', x) == PartOf(n, x);
      }
    }
  }

  /** Posting to connected peers, dropping some of them: what a tick, a farewell or a message does to one peer. */
  lemma {:induction false} SentAttends(n: Node, n': Node, targets: set<u64>, m: Message, failed: set<u64>, id: u64)
    requires n.handled <= |n.events| && targets <= n.peers.connected
    requires n'.events == n.events && n'.conns == n.conns && n'.handled == n.handled && (n'.running ==> n.running)
    requires n'.peers.mail == Sent(n.peers, targets, m, failed).mail && n'.peers.connected <= n.peers.connected
    ensures Attended(id, PartOf(n, id), PartOf(n', id), None)
  {
    hide Posted, Own;
    PostedTo(n.peers.mail, targets - failed, m, id);
    OwnPrefix(n.events, n.handled, id);
  }

  lemma {:induction false} BroadcastKeeps(cfg: Config, n: Node, n': Node, m: Message, failed: set<u64>)
    requires Inv(cfg, n) && n.running
    requires n' == n.(peers := n'.peers, running := n'.running)
    requires n'.peers == Sent(n.peers, n.peers.connected, m, failed).(connected := n'.peers.connected)
    requires n'.peers.connected <= n.peers.connected && (!n'.running ==> n'.peers.connected == {})
    ensures Inv(cfg, n')
  {
    hide PartOk, PartOf, Posted, Forwards, Attended;
    forall id: u64 ensures PartOk(cfg, id, PartOf(n', id)) {
      assert PartOk(cfg, id, PartOf(n, id));
      SentAttends(n, n', n.peers.connected, m, failed, id);
      AttendKeeps(cfg, id, PartOf(n, id), PartOf(n', id), None);
    }
  }

  lemma {:induction false} ManagedAttends(cfg: Config, n: Node, failed: set<u64>, id: u64)
    requires n.handled < |n.events| && n.running
    ensures var e, n' := n.events[n.handled], Next(cfg, n, Manage(failed));
            Attended(id, PartOf(n, id), PartOf(n', id), if Mine(id, e) then Some(e) else None)
  {
    hide Posted, Own;
    var e := n.events[n.handled];
    var n' := Next(cfg, n, Manage(failed));
    assert n.events[..n.handled + 1] == n.events[..n.handled] + [e];
    OwnSnoc(n.events[..n.handled], e, id);
    OwnPrefix(n.events, n.handled + 1, id);
    if Mail(n.peers, e).Some? {
      PostedTo(n.peers.mail, Mail(n.peers, e).value.0 - failed, Mail(n.peers, e).value.1, id);
    }
  }

  lemma {:induction false} ManagedForwards(n: Node, failed: set<u64>)
    requires n.handled < |n.events|
    requires n.peers.forwarded <= Forwards(n.events[..n.handled])
    requires n.processorUp ==> n.peers.forwarded == Forwards(n.events[..n.handled])
    ensures var forwarded := Managed(n.peers, n.events[n.handled], failed, n.processorUp).forwarded;
            && forwarded <= Forwards(n.events[..n.handled + 1])
            && (n.processorUp ==> forwarded == Forwards(n.events[..n.handled + 1]))
  {
    hide Posted;
    assert n.events[..n.handled + 1][..n.handled] == n.events[..n.handled];
  }

  lemma {:induction false} ManageKeeps(cfg: Config, n: Node, failed: set<u64>)
    requires Inv(cfg, n) && n.running && n.handled < |n.events|
    ensures Inv(cfg, Next(cfg, n, Manage(failed)))
  {
    hide PartOk, PartOf, Managed, Forwards, Attended;
    var n' := Next(cfg, n, Manage(failed));
    var e := n.events[n.handled];
    forall id: u64 ensures PartOk(cfg, id, PartOf(n', id)) {
      assert PartOk(cfg, id, PartOf(n, id));
      ManagedAttends(cfg, n, failed, id);
      AttendKeeps(cfg, id, PartOf(n, id), PartOf(n', id), if Mine(id, e) then Some(e) else None);
    }
    ManagedForwards(n, failed);
  }

  lemma {:induction false} NextKeeps(cfg: Config, n: Node, l: Label)
    requires Inv(cfg, n)
    ensures Inv(cfg, Next(cfg, n, l))
  {
    hide Inv, Sent, Managed;
    match l {
      case Accept => AcceptKeeps(cfg, n);
      case Act(id, input) =>
        if id in n.conns {
          ActedKeeps(cfg, n, id, input);
        }
      case Manage(failed) =>
        if n.running && n.handled < |n.events| {
          ManageKeeps(cfg, n, failed);
        }
      case Tick(failed) =>
        if n.running {
          TickKeeps(cfg, n, failed);
        }
      case ShutDown(failed) =>
        if n.running {
          BroadcastKeeps(cfg, n, Next(cfg, n, l), Farewell(), failed);
        }
      case Reply(id, m) => ReplyKeeps(cfg, n, id, m);
      case ProcessorExits => ExitKeeps(cfg, n);
    }
  }

  lemma {:induction false} TickKeeps(cfg: Config, n: Node, failed: set<u64>)
    requires Inv(cfg, n) && n.running
    ensures Inv(cfg, Next(cfg, n, Tick(failed)))
  {
    hide Inv;
    BroadcastKeeps(cfg, n, Next(cfg, n, Tick(failed)), Ping, failed);
  }

  lemma {:induction false} ExitKeeps(cfg: Config, n: Node)
    requires Inv(cfg, n)
    ensures Inv(cfg, Next(cfg, n, ProcessorExits))
  {
    hide PartOk, Own, Forwards;
    var n' := Next(cfg, n, ProcessorExits);
    forall id: u64 ensures PartOk(cfg, id, PartOf(n', id)) {
      assert PartOf(n', id) == PartOf(n, id);
    }
  }

  lemma {:induction false} StartOk(cfg: Config)
    ensures Inv(cfg, START)
  {
  }

  /** Every interleaving of connections, manager, ticks, replies and failures keeps the invariant. */
  lemma {:induction false} RunKeeps(cfg: Config, labels: seq<Label>)
    ensures Inv(cfg, Ran(cfg, labels))
  {
    hide Inv, Next;
    if labels == [] {
      StartOk(cfg);
    } else {
      RunKeeps(cfg, labels[..|labels| - 1]);
      NextKeeps(cfg, Ran(cfg, labels[..|labels| - 1]), labels[|labels| - 1]);
    }
  }
}
