/** One peer connection: the handshake, what it reports to the manager and what it writes to the peer. */
module Connection {
  import opened Primitives
  import opened Messages

  datatype PeerEvent =
    | Connected(id: u64)
    | Disconnected(id: u64)
    | FromPeer(id: u64, message: Message)
    | SendTo(id: u64, message: Message)

  datatype Phase = AwaitingStatus | Established | Ended | Crashed

  /** Besides the handshake state, what the peer said, what was written to it and how much mail was taken. */
  datatype Conn = Conn(phase: Phase, heard: seq<Message>, written: seq<Message>, taken: nat)

  /** The reason text is composed from the received and the expected chain id. */
  datatype Context = Context(id: u64, chainId: u64, reason: (u64, u64) -> ByteString)

  /**
   * What one turn of the loop selects. A frame comes with the head read for the answer; sent says whether a write
   * to the socket goes through. The decoder panics on an empty frame.
   */
  datatype Input =
    | Frame(message: Message, headHash: B256, headDifficulty: u128, sent: bool)
    | StreamOver
    | Panic
    | Outbound(sent: bool)

  const FRESH := Conn(AwaitingStatus, [], [], 0)

  /** A turn's input, whether the manager still listens, and the mail that is waiting. */
  datatype Turn = Turn(input: Input, open: bool, mail: Option<Message>)

  predicate Alive(c: Conn) {
    c.phase == AwaitingStatus || c.phase == Established
  }

  function Closed(ctx: Context, c: Conn, open: bool): (Conn, Option<PeerEvent>) {
    (c.(phase := Ended), if open then Some(Disconnected(ctx.id)) else None)
  }

  function OnFrame(ctx: Context, c: Conn, input: Input, open: bool): (Conn, Option<PeerEvent>)
    requires input.Frame? && Alive(c)
  {
    var c := c.(heard := c.heard + [input.message]);
    if c.phase == Established then
      if input.message.Status? || !open then Closed(ctx, c, open)
      else (c, Some(FromPeer(ctx.id, input.message)))
    else if !input.message.Status? || !input.sent then Closed(ctx, c, open)
    else if input.message.chainId != ctx.chainId then
      Closed(ctx, c.(written := c.written + [Disconnect(ctx.reason(input.message.chainId, ctx.chainId))]), open)
    else
      var c := c.(written := c.written + [Status(ctx.chainId, input.headHash, input.headDifficulty)]);
      if open then (c.(phase := Established), Some(Connected(ctx.id))) else Closed(ctx, c, open)
  }

  function OnMail(ctx: Context, c: Conn, m: Message, sent: bool, open: bool): (Conn, Option<PeerEvent>) {
    var c := c.(taken := c.taken + 1);
    if c.phase == AwaitingStatus then (c, None)
    else if sent then (c.(written := c.written + [m]), None)
    else Closed(ctx, c, open)
  }

  function Stepped(ctx: Context, c: Conn, turn: Turn): (Conn, Option<PeerEvent>) {
    if !Alive(c) then (c, None)
    else
      match turn.input
      case Frame(_, _, _, _) => OnFrame(ctx, c, turn.input, turn.open)
      case StreamOver => Closed(ctx, c, turn.open)
      case Panic => (c.(phase := Crashed), None)
      case Outbound(sent) => if turn.mail.None? then (c, None) else OnMail(ctx, c, turn.mail.value, sent, turn.open)
  }

  /** What a turn does to what was heard, and how it ends the connection. */
  lemma {:induction false} TurnHears(ctx: Context, c: Conn, turn: Turn)
    ensures var c' := Stepped(ctx, c, turn).0;
            && c'.heard == (if Alive(c) && turn.input.Frame? then c.heard + [turn.input.message] else c.heard)
            && (c'.phase.Crashed? <==> c.phase.Crashed? || (Alive(c) && turn.input.Panic?))
            && (Alive(c') ==> Alive(c))
            && (Alive(c) && (turn.input.StreamOver? || turn.input.Panic?) ==> !Alive(c'))
            && (Alive(c) && turn.input.StreamOver? ==> c'.phase.Ended?)
  {
  }

  /** A status for our chain that can be answered opens the connection. */
  predicate Welcomes(ctx: Context, c: Conn, input: Input) {
    && c.phase == AwaitingStatus && input.Frame? && input.sent
    && input.message.Status? && input.message.chainId == ctx.chainId
  }

  /** What ends a connection short of a panic: the stream, a message out of turn, a failed write, a gone manager. */
  predicate Closes(ctx: Context, c: Conn, turn: Turn) {
    var input := turn.input;
    || input.StreamOver?
    || (input.Frame? && !turn.open)
    || (input.Frame? && if c.phase == Established then input.message.Status? else !Welcomes(ctx, c, input))
    || (input.Outbound? && c.phase == Established && turn.mail.Some? && !input.sent)
  }

  /**
   * What a turn writes to the peer: our status in answer to one for our chain, a disconnection with its reason in answer
   * to one for another chain, and once established the mail. What it reports: Connected on the answered status, each
   * message after that, and Disconnected whenever the connection closes.
   */
  lemma {:induction false} TurnSays(ctx: Context, c: Conn, turn: Turn)
    ensures !Alive(c) ==> Stepped(ctx, c, turn) == (c, None)
    ensures Alive(c) ==>
            var (c', e) := Stepped(ctx, c, turn);
            var input := turn.input;
            && (c'.phase == Ended <==> Closes(ctx, c, turn))
            && (c'.phase == Established
                <==> !Closes(ctx, c, turn) && !input.Panic? && (c.phase == Established || Welcomes(ctx, c, input)))
            && c'.written == c.written
               + (if Welcomes(ctx, c, input) then [Status(ctx.chainId, input.headHash, input.headDifficulty)]
                  else if c.phase == AwaitingStatus && input.Frame? && input.message.Status? && input.sent then
                    [Disconnect(ctx.reason(input.message.chainId, ctx.chainId))]
                  else if c.phase == Established && input.Outbound? && turn.mail.Some? && input.sent then
                    [turn.mail.value]
                  else [])
            && c'.taken == c.taken + (if input.Outbound? && turn.mail.Some? then 1 else 0)
            && e == (if !turn.open then None
                     else if Closes(ctx, c, turn) then Some(Disconnected(ctx.id))
                     else if Welcomes(ctx, c, input) then Some(Connected(ctx.id))
                     else if input.Frame? then Some(FromPeer(ctx.id, input.message))
                     else None)
  {
  }

  function Reported(events: seq<PeerEvent>, e: Option<PeerEvent>): seq<PeerEvent> {
    if e.Some? then events + [e.value] else events
  }

  function Played(ctx: Context, script: seq<Turn>): (Conn, seq<PeerEvent>) {
    if script == [] then (FRESH, [])
    else
      var (c, events) := Played(ctx, script[..|script| - 1]);
      var (c', e) := Stepped(ctx, c, script[|script| - 1]);
      (c', Reported(events, e))
  }

  lemma {:induction false} NothingAfterTheEnd(ctx: Context, script: seq<Turn>, k: nat)
    requires k <= |script| && !Alive(Played(ctx, script[..k]).0)
    ensures Played(ctx, script) == Played(ctx, script[..k])
    decreases |script|
  {
    if k == |script| {
      assert script[..k] == script;
    } else {
      var front := script[..|script| - 1];
      assert front[..k] == script[..k];
      NothingAfterTheEnd(ctx, front, k);
    }
  }

  /** The connection task over its turns: every way out of the loop but a panic ends in one report of disconnection, which
      goes nowhere if the manager has stopped. */
  method HandleConnection(ctx: Context, script: seq<Turn>) returns (c: Conn, events: seq<PeerEvent>)
    ensures (c, events) == Played(ctx, script)
  {
    var state := AwaitingStatus;
    var heard: seq<Message>, written: seq<Message>, taken: nat := [], [], 0;
    events := [];
    var turn := 0;
    while turn < |script|
      invariant turn <= |script| && Alive(Conn(state, heard, written, taken))
      invariant Played(ctx, script[..turn]) == (Conn(state, heard, written, taken), events)
    {
      var now := script[turn];
      turn := turn + 1;
      assert script[..turn][..turn - 1] == script[..turn - 1];
      var done := false;
      match now.input {
        case Frame(m, headHash, headDifficulty, sent) =>
          heard := heard + [m];
          if state == AwaitingStatus {
            if !m.Status? {
              done := true;
            } else if m.chainId != ctx.chainId {
              if sent {
                written := written + [Disconnect(ctx.reason(m.chainId, ctx.chainId))];
              }
              done := true;
            } else if !sent {
              done := true;
            } else {
              written := written + [Status(ctx.chainId, headHash, headDifficulty)];
              if now.open {
                events := events + [Connected(ctx.id)];
                state := Established;
              } else {
                done := true;
              }
            }
          } else if m.Status? || !now.open {
            done := true;
          } else {
            events := events + [FromPeer(ctx.id, m)];
          }
        case StreamOver =>
          done := true;
        case Panic =>
          NothingAfterTheEnd(ctx, script, turn);
          return Conn(Crashed, heard, written, taken), events;
        case Outbound(sent) =>
          if now.mail.Some? {
            taken := taken + 1;
            if state == Established {
              if sent {
                written := written + [now.mail.value];
              } else {
                done := true;
              }
            }
          }
      }
      if done {
        if now.open {
          events := events + [Disconnected(ctx.id)];
        }
        NothingAfterTheEnd(ctx, script, turn);
        return Conn(Ended, heard, written, taken), events;
      }
    }
    assert script[..|script|] == script;
    return Conn(state, heard, written, taken), events;
  }
}
