/** Peers' bytes underneath the network machine: chunks arrive, the codec is polled, frames become turns. */
module Sockets {
  import opened Primitives
  import opened Rlp
  import opened TrieCommitment
  import opened StateRoot
  import opened Messages
  import opened Framing
  import opened Connection
  import opened Manager
  import Network
  import NetworkRuns

  /** The bytes of a peer so far: those the codec has consumed and those still in its buffer. */
  datatype Socket = Socket(consumed: ByteString, buffer: ByteString)

  const QUIET := Socket([], [])

  datatype Host = Host(node: Network.Node, sockets: map<u64, Socket>)

  const HOST_START := Host(Network.START, map[])

  /**
   * Bytes arrive in any chunks; the codec is polled, with the head read for an answer and whether a write goes through;
   * the stream ends or fails, which the codec reports only once no complete frame is left; or something local happens.
   */
  datatype Signal =
    | Arrive(id: u64, chunk: ByteString)
    | Poll(id: u64, headHash: B256, headDifficulty: u128, sent: bool)
    | HangUp(id: u64)
    | Local(move: Network.Label)

  function SocketOf(h: Host, id: u64): Socket {
    if id in h.sockets then h.sockets[id] else QUIET
  }

  predicate Live(h: Host, id: u64) {
    id in h.node.conns && Alive(h.node.conns[id])
  }

  /** Frames, ends and panics come from the bytes alone. */
  predicate IsLocal(l: Network.Label) {
    l.Act? ==> l.input.Outbound?
  }

  function InputOf(step: Step, headHash: B256, headDifficulty: u128, sent: bool): Input
    requires !step.NeedMore?
  {
    match step
    case Parsed(m, _) => Input.Frame(m, headHash, headDifficulty, sent)
    case Failed(_, _) => StreamOver
    case Panicked(_) => Panic
  }

  /** The step of the network machine that a signal amounts to, if any. */
  function Lower(h: Host, s: Signal, utf8: Utf8): Option<Network.Label> {
    match s
    case Arrive(_, _) => None
    case Poll(id, headHash, headDifficulty, sent) =>
      var step := NextFrame(SocketOf(h, id).buffer, utf8);
      if !Live(h, id) || step.NeedMore? then None
      else Some(Network.Act(id, InputOf(step, headHash, headDifficulty, sent)))
    case HangUp(id) =>
      if Live(h, id) && NextFrame(SocketOf(h, id).buffer, utf8).NeedMore? then Some(Network.Act(id, StreamOver)) else None
    case Local(l) => if IsLocal(l) then Some(l) else None
  }

  /** A poll moves the bytes of one frame out of the buffer. */
  function Consumed(k: Socket, utf8: Utf8): Socket {
    var step := NextFrame(k.buffer, utf8);
    if step.NeedMore? then k
    else
      RestIsSuffix(k.buffer, utf8);
      Socket(k.consumed + k.buffer[..|k.buffer| - |step.rest|], step.rest)
  }

  function SocketsAfter(h: Host, s: Signal, utf8: Utf8): map<u64, Socket> {
    match s
    case Arrive(id, chunk) =>
      var k := SocketOf(h, id);
      h.sockets[id := k.(buffer := k.buffer + chunk)]
    case Poll(id, _, _, _) => if Live(h, id) then h.sockets[id := Consumed(SocketOf(h, id), utf8)] else h.sockets
    case _ => h.sockets
  }

  function HostNext(cfg: Network.Config, h: Host, s: Signal, utf8: Utf8): Host {
    var l := Lower(h, s, utf8);
    Host(if l.Some? then Network.Next(cfg, h.node, l.value) else h.node, SocketsAfter(h, s, utf8))
  }

  function HostFrom(cfg: Network.Config, h: Host, signals: seq<Signal>, utf8: Utf8): Host
    decreases |signals|
  {
    if signals == [] then h else HostFrom(cfg, HostNext(cfg, h, signals[0], utf8), signals[1..], utf8)
  }

  function HostRan(cfg: Network.Config, signals: seq<Signal>, utf8: Utf8): Host {
    HostFrom(cfg, HOST_START, signals, utf8)
  }

  /** All bytes of a peer, in order of arrival, however they were cut. */
  function Arrived(signals: seq<Signal>, id: u64): ByteString
    decreases |signals|
  {
    if signals == [] then []
    else
      (if signals[0].Arrive? && signals[0].id == id then signals[0].chunk else []) + Arrived(signals[1..], id)
  }

  // ---------- Every run of the host is a run of the network machine ----------

  function LoweredFrom(cfg: Network.Config, h: Host, signals: seq<Signal>, utf8: Utf8): seq<Network.Label>
    decreases |signals|
  {
    if signals == [] then []
    else
      var l, rest := Lower(h, signals[0], utf8), LoweredFrom(cfg, HostNext(cfg, h, signals[0], utf8), signals[1..], utf8);
      if l.Some? then [l.value] + rest else rest
  }

  function Lowered(cfg: Network.Config, signals: seq<Signal>, utf8: Utf8): seq<Network.Label> {
    LoweredFrom(cfg, HOST_START, signals, utf8)
  }

  lemma {:induction false} HostRefines(
      cfg: Network.Config, h: Host, before: seq<Network.Label>, signals: seq<Signal>, utf8: Utf8)
    requires h.node == Network.Ran(cfg, before)
    ensures HostFrom(cfg, h, signals, utf8).node == Network.Ran(cfg, before + LoweredFrom(cfg, h, signals, utf8))
    decreases |signals|
  {
    hide Lower, SocketsAfter, Network.Ran, Network.Next;
    if signals == [] {
      assert before + [] == before;
    } else {
      var l, h' := Lower(h, signals[0], utf8), HostNext(cfg, h, signals[0], utf8);
      var rest := LoweredFrom(cfg, h', signals[1..], utf8);
      if l.Some? {
        NetworkRuns.RanSnoc(cfg, before, l.value);
        HostRefines(cfg, h', before + [l.value], signals[1..], utf8);
        assert before + [l.value] + rest == before + ([l.value] + rest);
      } else {
        HostRefines(cfg, h', before, signals[1..], utf8);
      }
    }
  }

  lemma {:induction false} RunRefines(cfg: Network.Config, signals: seq<Signal>, utf8: Utf8)
    ensures HostRan(cfg, signals, utf8).node == Network.Ran(cfg, Lowered(cfg, signals, utf8))
  {
    assert Network.Ran(cfg, []) == Network.START;
    hide Network.Ran, Network.Next, LoweredFrom;
    HostRefines(cfg, HOST_START, [], signals, utf8);
    assert [] + LoweredFrom(cfg, HOST_START, signals, utf8) == LoweredFrom(cfg, HOST_START, signals, utf8);
  }

  // ---------- What a connection heard is what its bytes say ----------

  lemma {:induction false} RestIsSuffix(buffer: ByteString, utf8: Utf8)
    requires !NextFrame(buffer, utf8).NeedMore?
    ensures var rest := NextFrame(buffer, utf8).rest;
            |rest| < |buffer| && buffer == buffer[..|buffer| - |rest|] + rest
  {
    hide ReadFrame;
  }

  /** The bytes of one frame, taken by themselves, lead to the same decision. */
  lemma {:induction false} FrameAlone(buffer: ByteString, utf8: Utf8)
    requires !NextFrame(buffer, utf8).NeedMore?
    ensures var step := NextFrame(buffer, utf8);
            |step.rest| <= |buffer| && NextFrame(buffer[..|buffer| - |step.rest|], utf8) == step.(rest := [])
  {
    hide ReadFrame;
    var step, end := NextFrame(buffer, utf8), 4 + FrameLength(buffer);
    var frame := buffer[..end];
    assert |buffer| - |step.rest| == end;
    assert FrameLength(frame) == FrameLength(buffer);
    assert frame[4..end] == buffer[4..end] && frame[end..] == [];
  }

  predicate SocketOk(c: Conn, k: Socket, utf8: Utf8) {
    var s := Stream(k.consumed, utf8);
    && s.messages == c.heard
    && (Alive(c) ==> s.ending.Waiting? && s.buffer == [])
    && (s.ending.Crashed? <==> c.phase.Crashed?)
  }

  predicate PeerOk(h: Host, id: u64, utf8: Utf8) {
    if id in h.node.conns then SocketOk(h.node.conns[id], SocketOf(h, id), utf8) else SocketOf(h, id).consumed == []
  }

  /** A poll that finds something consumes one frame and hears exactly what that frame says. */
  lemma {:induction false} PollOk(ctx: Context, c: Conn, k: Socket, utf8: Utf8, turn: Turn)
    requires SocketOk(c, k, utf8) && Alive(c) && !NextFrame(k.buffer, utf8).NeedMore?
    requires exists hash, td, sent :: turn.input == InputOf(NextFrame(k.buffer, utf8), hash, td, sent)
    ensures SocketOk(Stepped(ctx, c, turn).0, Consumed(k, utf8), utf8)
  {
    hide NextFrame, Stepped;
    var step := NextFrame(k.buffer, utf8);
    RestIsSuffix(k.buffer, utf8);
    var frame := k.buffer[..|k.buffer| - |step.rest|];
    FrameAlone(k.buffer, utf8);
    StreamSplits(k.consumed, frame, utf8);
    assert [] + frame == frame;
    NothingYet(utf8);
    TurnHears(ctx, c, turn);
  }

  lemma {:induction false} OtherTurnOk(ctx: Context, c: Conn, k: Socket, utf8: Utf8, turn: Turn)
    requires SocketOk(c, k, utf8) && (turn.input.StreamOver? || turn.input.Outbound?)
    ensures SocketOk(Stepped(ctx, c, turn).0, k, utf8)
  {
    hide Stream, Stepped;
    TurnHears(ctx, c, turn);
  }

  /** Whatever is not a turn of this connection leaves it as it is, or has just created it. */
  lemma {:induction false} OthersUntouched(cfg: Network.Config, n: Network.Node, l: Network.Label, id: u64)
    requires !(l.Act? && l.id == id)
    ensures var n' := Network.Next(cfg, n, l);
            && (id in n.conns && n.counter + 1 !in n.conns ==> id in n'.conns && n'.conns[id] == n.conns[id])
            && (id !in n.conns && id in n'.conns ==> n'.conns[id] == FRESH)
  {
    hide Managed, Sent, Stepped;
  }

  lemma {:induction false} ActIsStepped(cfg: Network.Config, n: Network.Node, id: u64, input: Input)
    requires id in n.conns
    ensures var ctx := Context(id, cfg.chainId, cfg.reason);
            var n' := Network.Next(cfg, n, Network.Act(id, input));
            && id in n'.conns
            && n'.conns[id] == Stepped(ctx, n.conns[id], Turn(input, n.running, Network.WaitingMail(n, id))).0
  {
    hide Stepped;
  }

  lemma {:induction false} NewcomerOk(h: Host, id: u64, utf8: Utf8)
    requires id in h.node.conns && h.node.conns[id] == FRESH && SocketOf(h, id).consumed == []
    ensures PeerOk(h, id, utf8)
  {
    NothingYet(utf8);
  }

  lemma {:induction false} SignalOk(cfg: Network.Config, h: Host, s: Signal, utf8: Utf8, id: u64)
    requires PeerOk(h, id, utf8) && h.node.counter + 1 !in h.node.conns
    ensures PeerOk(HostNext(cfg, h, s, utf8), id, utf8)
  {
    hide Stream, NextFrame, Network.Next, Consumed;
    var h' := HostNext(cfg, h, s, utf8);
    var l := Lower(h, s, utf8);
    var ctx := Context(id, cfg.chainId, cfg.reason);
    if l.Some? && l.value.Act? && l.value.id == id && id in h.node.conns {
      var c, k := h.node.conns[id], SocketOf(h, id);
      var turn := Turn(l.value.input, h.node.running, Network.WaitingMail(h.node, id));
      ActIsStepped(cfg, h.node, id, l.value.input);
      if s.Poll? {
        PollOk(ctx, c, k, utf8, turn);
      } else {
        OtherTurnOk(ctx, c, k, utf8, turn);
      }
    } else {
      ElsewhereOk(cfg, h, s, utf8, id);
    }
  }

  /** A signal that is not a turn of this connection. */
  lemma {:induction false} ElsewhereOk(cfg: Network.Config, h: Host, s: Signal, utf8: Utf8, id: u64)
    requires PeerOk(h, id, utf8) && h.node.counter + 1 !in h.node.conns
    requires var l := Lower(h, s, utf8); !(l.Some? && l.value.Act? && l.value.id == id && id in h.node.conns)
    ensures PeerOk(HostNext(cfg, h, s, utf8), id, utf8)
  {
    IdlePoll(h, s, utf8, id);
    ElsewhereNode(cfg, h, s, utf8, id);
    var h' := HostNext(cfg, h, s, utf8);
    hide Stream, NextFrame, SocketOk, Lower, SocketsAfter, Network.Next;
    assert SocketOf(h', id).consumed == SocketOf(h, id).consumed;
    if id in h.node.conns {
      SameConsumed(h.node.conns[id], SocketOf(h, id), SocketOf(h', id), utf8);
    } else if id in h'.node.conns {
      NewcomerOk(h', id, utf8);
    }
  }

  lemma {:induction false} ElsewhereNode(cfg: Network.Config, h: Host, s: Signal, utf8: Utf8, id: u64)
    requires h.node.counter + 1 !in h.node.conns
    requires var l := Lower(h, s, utf8); !(l.Some? && l.value.Act? && l.value.id == id && id in h.node.conns)
    ensures var n, n' := h.node, HostNext(cfg, h, s, utf8).node;
            && (id in n.conns ==> id in n'.conns && n'.conns[id] == n.conns[id])
            && (id !in n.conns && id in n'.conns ==> n'.conns[id] == FRESH)
  {
    hide NextFrame, SocketsAfter, Network.Next, Lower;
    var l := Lower(h, s, utf8);
    if l.Some? {
      if l.value.Act? && l.value.id == id {
        AbsentActs(cfg, h.node, id, l.value.input);
      } else {
        OthersUntouched(cfg, h.node, l.value, id);
      }
    }
  }

  lemma {:induction false} AbsentActs(cfg: Network.Config, n: Network.Node, id: u64, input: Input)
    requires id !in n.conns
    ensures Network.Next(cfg, n, Network.Act(id, input)) == n
  {
  }

  lemma {:induction false} SameConsumed(c: Conn, k: Socket, k': Socket, utf8: Utf8)
    requires SocketOk(c, k, utf8) && k'.consumed == k.consumed
    ensures SocketOk(c, k', utf8)
  {
  }

  lemma {:induction false} IdlePoll(h: Host, s: Signal, utf8: Utf8, id: u64)
    requires var l := Lower(h, s, utf8); !(l.Some? && l.value.Act? && l.value.id == id && id in h.node.conns)
    ensures var k := if id in SocketsAfter(h, s, utf8) then SocketsAfter(h, s, utf8)[id] else QUIET;
            k.consumed == SocketOf(h, id).consumed
  {
    hide NextFrame;
  }

  lemma {:induction false} HostOk(
      cfg: Network.Config, h: Host, before: seq<Network.Label>, signals: seq<Signal>, utf8: Utf8, id: u64)
    requires h.node == Network.Ran(cfg, before) && PeerOk(h, id, utf8)
    ensures PeerOk(HostFrom(cfg, h, signals, utf8), id, utf8)
    decreases |signals|
  {
    hide PeerOk, Lower, SocketsAfter, Network.Ran, Network.Next;
    if signals != [] {
      NetworkRuns.NextIdFree(cfg, before);
      SignalOk(cfg, h, signals[0], utf8, id);
      var l, h' := Lower(h, signals[0], utf8), HostNext(cfg, h, signals[0], utf8);
      if l.Some? {
        NetworkRuns.RanSnoc(cfg, before, l.value);
        HostOk(cfg, h', before + [l.value], signals[1..], utf8, id);
      } else {
        HostOk(cfg, h', before, signals[1..], utf8, id);
      }
    }
  }

  lemma {:induction false} RunOk(cfg: Network.Config, signals: seq<Signal>, utf8: Utf8, id: u64)
    ensures PeerOk(HostRan(cfg, signals, utf8), id, utf8)
  {
    assert Network.Ran(cfg, []) == Network.START;
    HostOk(cfg, HOST_START, [], signals, utf8, id);
  }

  function AllBytes(k: Socket): ByteString {
    k.consumed + k.buffer
  }

  /** Polls move bytes within the socket; only arrivals add to it. */
  lemma {:induction false} SignalBytes(cfg: Network.Config, h: Host, s: Signal, utf8: Utf8, id: u64)
    ensures AllBytes(SocketOf(HostNext(cfg, h, s, utf8), id))
            == AllBytes(SocketOf(h, id)) + if s.Arrive? && s.id == id then s.chunk else []
  {
    hide NextFrame, Network.Next, Lower;
    var k := SocketOf(h, id);
    if s.Poll? && !NextFrame(k.buffer, utf8).NeedMore? {
      RestIsSuffix(k.buffer, utf8);
    }
  }

  lemma {:induction false} BytesKept(cfg: Network.Config, h: Host, signals: seq<Signal>, utf8: Utf8, id: u64)
    ensures AllBytes(SocketOf(HostFrom(cfg, h, signals, utf8), id)) == AllBytes(SocketOf(h, id)) + Arrived(signals, id)
    decreases |signals|
  {
    hide HostNext, SocketOf, AllBytes;
    if signals != [] {
      SignalBytes(cfg, h, signals[0], utf8, id);
      BytesKept(cfg, HostNext(cfg, h, signals[0], utf8), signals[1..], utf8, id);
    }
  }

  lemma {:induction false} RunBytes(cfg: Network.Config, signals: seq<Signal>, utf8: Utf8, id: u64)
    ensures AllBytes(SocketOf(HostRan(cfg, signals, utf8), id)) == Arrived(signals, id)
  {
    hide HostFrom;
    BytesKept(cfg, HOST_START, signals, utf8, id);
  }

  /**
   * For every interleaving and every cutting of a peer's bytes, what the connection heard is a prefix of what the
   * bytes say; all of it, when the connection is open and no complete frame waits; and all of it up to the empty
   * frame, when it crashed.
   */
  lemma {:induction false} HeardIsStreamed(cfg: Network.Config, signals: seq<Signal>, utf8: Utf8, id: u64)
    requires id in HostRan(cfg, signals, utf8).node.conns
    ensures var h := HostRan(cfg, signals, utf8);
            var c, said := h.node.conns[id], Stream(Arrived(signals, id), utf8);
            && c.heard <= said.messages
            && (Alive(c) && NextFrame(SocketOf(h, id).buffer, utf8).NeedMore? ==> c.heard == said.messages)
            && (c.phase.Crashed? ==> c.heard == said.messages && said.ending.Crashed?)
  {
    hide HostRan, NextFrame;
    RunOk(cfg, signals, utf8, id);
    RunBytes(cfg, signals, utf8, id);
    var h := HostRan(cfg, signals, utf8);
    var k := SocketOf(h, id);
    StreamSplits(k.consumed, k.buffer, utf8);
    assert [] + k.buffer == k.buffer;
  }

  /** A peer that writes frames, however cut and however many have arrived, is heard to say a prefix of its messages. */
  lemma {:induction false} FramesAreHeard(
      cfg: Network.Config, signals: seq<Signal>, utf8: Utf8, id: u64, ms: seq<Message>)
    requires id in HostRan(cfg, signals, utf8).node.conns
    requires AllSendable(ms, utf8) && Arrived(signals, id) <= Wire(ms, utf8)
    ensures HostRan(cfg, signals, utf8).node.conns[id].heard <= ms
  {
    hide HostRan, NextFrame, Stream;
    HeardIsStreamed(cfg, signals, utf8, id);
    PrefixDelivery(ms, |Arrived(signals, id)|, utf8);
    assert Wire(ms, utf8)[..|Arrived(signals, id)|] == Arrived(signals, id);
  }

  // ---------- Which bytes can end a connection behind the manager's back ----------

  /** The bytes lead, through an accepted conversation or none, to a frame that announces no bytes. */
  predicate CrashBytes(cfg: Network.Config, bytes: ByteString, utf8: Utf8) {
    var said := Stream(bytes, utf8);
    said.ending.Crashed? && Network.Accepted(cfg, said.messages)
  }

  /** The manager runs, the connection is finished, and its end was not reported. */
  predicate Untold(n: Network.Node, id: u64) {
    n.running && id in n.conns && !Alive(n.conns[id]) && Disconnected(id) !in n.events
  }

  lemma {:induction false} UntoldCrashed(cfg: Network.Config, signals: seq<Signal>, utf8: Utf8, id: u64)
    requires id in HostRan(cfg, signals, utf8).node.conns && HostRan(cfg, signals, utf8).node.running
    ensures var n := HostRan(cfg, signals, utf8).node;
            && (Untold(n, id) <==> n.conns[id].phase.Crashed?)
            && (n.conns[id].phase.Crashed? ==> Network.Accepted(cfg, n.conns[id].heard))
  {
    RunRefines(cfg, signals, utf8);
    hide HostRan, Lowered, Network.Ran;
    var labels := Lowered(cfg, signals, utf8);
    var n := HostRan(cfg, signals, utf8).node;
    if !Alive(n.conns[id]) {
      NetworkRuns.EndedTells(cfg, labels, id);
    }
    Network.RunKeeps(cfg, labels);
    assert Network.PartOk(cfg, id, Network.PartOf(n, id));
  }

  function Polling(id: u64, polls: nat): seq<Signal> {
    if polls == 0 then [] else [Poll(id, Zeros(32), 0, true)] + Polling(id, polls - 1)
  }

  lemma {:induction false} PollingArrives(id: u64, polls: nat)
    ensures Arrived(Polling(id, polls), id) == []
  {
    if polls > 0 {
      PollingArrives(id, polls - 1);
      assert Polling(id, polls)[1..] == Polling(id, polls - 1);
    }
  }

  /** A frame that continues an accepted conversation keeps the connection open, if writes go through. */
  lemma {:induction false} AcceptedContinues(
      ctx: Context, cfg: Network.Config, c: Conn, m: Message, rest: seq<Message>, mail: Option<Message>)
    requires Alive(c) && (c.heard == [] <==> c.phase.AwaitingStatus?) && ctx.chainId == cfg.chainId
    requires Network.Accepted(cfg, c.heard + ([m] + rest))
    ensures var c' := Stepped(ctx, c, Turn(Input.Frame(m, Zeros(32), 0, true), true, mail)).0;
            Alive(c') && c'.heard == c.heard + [m] && c'.phase.Established?
  {
    var said := c.heard + ([m] + rest);
    assert said[|c.heard|] == m;
    if c.heard == [] {
      assert said[0] == m;
    }
  }

  lemma {:induction false} PollsReachTheCrash(cfg: Network.Config, h: Host, utf8: Utf8, id: u64, polls: nat)
    requires Live(h, id) && h.node.running
    requires var c := h.node.conns[id]; c.heard == [] <==> c.phase.AwaitingStatus?
    requires var said := Stream(SocketOf(h, id).buffer, utf8);
             && said.ending.Crashed? && polls == |said.messages| + 1
             && Network.Accepted(cfg, h.node.conns[id].heard + said.messages)
    ensures var n := HostFrom(cfg, h, Polling(id, polls), utf8).node;
            n.running && id in n.conns && n.conns[id].phase.Crashed?
    decreases polls
  {
    hide NextFrame, Network.Next, Stepped, Network.Accepted;
    var poll := Poll(id, Zeros(32), 0, true);
    var signals := Polling(id, polls);
    assert signals[0] == poll && signals[1..] == Polling(id, polls - 1);
    var h', k := HostNext(cfg, h, poll, utf8), SocketOf(h, id);
    var step := NextFrame(k.buffer, utf8);
    var input := InputOf(step, Zeros(32), 0, true);
    var turn := Turn(input, true, Network.WaitingMail(h.node, id));
    var ctx := Context(id, cfg.chainId, cfg.reason);
    ActIsStepped(cfg, h.node, id, input);
    ActKeepsRunning(cfg, h.node, id, input);
    if step.Parsed? {
      var rest := Stream(step.rest, utf8).messages;
      var heard := h.node.conns[id].heard;
      AcceptedContinues(ctx, cfg, h.node.conns[id], step.message, rest, turn.mail);
      assert heard + ([step.message] + rest) == heard + [step.message] + rest;
      assert SocketOf(h', id).buffer == step.rest;
      PollsReachTheCrash(cfg, h', utf8, id, polls - 1);
    } else {
      TurnHears(ctx, h.node.conns[id], turn);
    }
  }

  lemma {:induction false} ActKeepsRunning(cfg: Network.Config, n: Network.Node, id: u64, input: Input)
    ensures Network.Next(cfg, n, Network.Act(id, input)).running == n.running
  {
    hide Stepped;
  }

  /** One peer, all its bytes at once, and enough polls. */
  function CrashRun(bytes: ByteString, polls: nat): seq<Signal> {
    [Local(Network.Accept), Arrive(1, bytes)] + Polling(1, polls)
  }

  lemma {:induction false} CrashRunArrives(bytes: ByteString, polls: nat)
    ensures Arrived(CrashRun(bytes, polls), 1) == bytes
  {
    var signals := CrashRun(bytes, polls);
    assert signals[1..] == [Arrive(1, bytes)] + Polling(1, polls);
    assert signals[1..][1..] == Polling(1, polls);
    PollingArrives(1, polls);
  }

  lemma {:induction false} CrashRunFrom(cfg: Network.Config, bytes: ByteString, polls: nat, utf8: Utf8, ready: Host)
    requires ready == HostNext(cfg, HostNext(cfg, HOST_START, Local(Network.Accept), utf8), Arrive(1, bytes), utf8)
    ensures HostRan(cfg, CrashRun(bytes, polls), utf8) == HostFrom(cfg, ready, Polling(1, polls), utf8)
  {
    hide HostNext;
    var signals := CrashRun(bytes, polls);
    assert signals[1..] == [Arrive(1, bytes)] + Polling(1, polls);
    assert signals[1..][1..] == Polling(1, polls);
    var accepted := HostNext(cfg, HOST_START, Local(Network.Accept), utf8);
    assert HostFrom(cfg, HOST_START, signals, utf8) == HostFrom(cfg, accepted, signals[1..], utf8);
    assert HostFrom(cfg, accepted, signals[1..], utf8) == HostFrom(cfg, ready, signals[1..][1..], utf8);
  }

  lemma {:induction false} ReadyHost(cfg: Network.Config, bytes: ByteString, utf8: Utf8) returns (ready: Host)
    ensures ready == HostNext(cfg, HostNext(cfg, HOST_START, Local(Network.Accept), utf8), Arrive(1, bytes), utf8)
    ensures ready.node.conns == map[1 := FRESH] && ready.node.running && SocketOf(ready, 1).buffer == bytes
  {
    var accepted := HostNext(cfg, HOST_START, Local(Network.Accept), utf8);
    ready := HostNext(cfg, accepted, Arrive(1, bytes), utf8);
    assert SocketOf(ready, 1).buffer == [] + bytes == bytes;
  }

  lemma {:induction false} CrashRunCrashes(cfg: Network.Config, bytes: ByteString, utf8: Utf8)
    requires CrashBytes(cfg, bytes, utf8)
    ensures var signals := CrashRun(bytes, |Stream(bytes, utf8).messages| + 1);
            var n := HostRan(cfg, signals, utf8).node;
            Arrived(signals, 1) == bytes && n.running && 1 in n.conns && n.conns[1].phase.Crashed?
  {
    hide Stream, HostFrom, HostRan, HostNext, Polling, CrashRun, Arrived;
    var said := Stream(bytes, utf8).messages;
    CrashRunArrives(bytes, |said| + 1);
    var ready := ReadyHost(cfg, bytes, utf8);
    CrashRunFrom(cfg, bytes, |said| + 1, utf8, ready);
    assert [] + said == said;
    PollsReachTheCrash(cfg, ready, utf8, 1, |said| + 1);
  }

  /** The run shows what the bytes can do to some connection. */
  ghost predicate ShowsUntold(cfg: Network.Config, signals: seq<Signal>, utf8: Utf8, id: u64, bytes: ByteString) {
    Arrived(signals, id) == bytes && Untold(HostRan(cfg, signals, utf8).node, id)
  }

  /**
   * Exactly which bytes can end a connection without the running manager being told: those that lead through an
   * accepted conversation to an empty frame. A peer sending anything else is always reported.
   */
  lemma {:induction false} UntoldIff(cfg: Network.Config, bytes: ByteString, utf8: Utf8)
    ensures (exists signals, id :: ShowsUntold(cfg, signals, utf8, id, bytes)) <==> CrashBytes(cfg, bytes, utf8)
  {
    hide HostRan, Stream, Network.Accepted;
    if CrashBytes(cfg, bytes, utf8) {
      var signals := CrashRun(bytes, |Stream(bytes, utf8).messages| + 1);
      CrashRunCrashes(cfg, bytes, utf8);
      UntoldCrashed(cfg, signals, utf8, 1);
      assert ShowsUntold(cfg, signals, utf8, 1, bytes);
    }
    if signals, id :| ShowsUntold(cfg, signals, utf8, id, bytes) {
      UntoldCrashed(cfg, signals, utf8, id);
      HeardIsStreamed(cfg, signals, utf8, id);
    }
  }

  lemma {:induction false} StatusSendable(chainId: u64, hash: B256)
    ensures Sendable(Status(chainId, hash, 0))
  {
    hide Encoding, Payload, UintItem;
    UintShort(chainId);
    UintShort(0);
    BytesLen(hash);
    var items := Fields(Status(chainId, hash, 0));
    ShortItems(items);
    ListLen(items);
  }

  /** The smallest such bytes, and what a peer can send after greeting properly: an empty frame. */
  lemma {:induction false} EmptyFrameIsCrashBytes(cfg: Network.Config, hash: B256, utf8: Utf8)
    ensures CrashBytes(cfg, Be32(0), utf8)
    ensures var greeting := Status(cfg.chainId, hash, 0);
            Sendable(greeting) && CrashBytes(cfg, FrameOf(greeting) + Be32(0), utf8)
  {
    hide NextFrame, FrameOf, ReadFrame, Sendable;
    PanicsExactlyOnEmptyFrame(Be32(0), utf8);
    var greeting := Status(cfg.chainId, hash, 0);
    StatusSendable(cfg.chainId, hash);
    OneFrame(greeting, utf8);
    StreamSplits(FrameOf(greeting), Be32(0), utf8);
    assert [] + Be32(0) == Be32(0);
  }
}
