/** Length-prefixed frames over a byte stream, and why the way the stream is cut up does not matter. */
module Framing {
  import opened Primitives
  import opened BigEndian
  import opened Buffers
  import opened Rlp
  import opened Messages

  const MAX_FRAME_SIZE := 10 * 1024 * 1024

  datatype NetworkError = Decode(error: RlpError) | FrameTooLarge(size: nat)

  function Be32(n: nat): (r: ByteString)
    requires n < 0x1_0000_0000
    ensures |r| == 4
  {
    [n / 0x100_0000, n / 0x1_0000 % 0x100, n / 0x100 % 0x100, n % 0x100]
  }

  function FrameLength(src: ByteString): nat
    requires |src| >= 4
  {
    var (b0: int, b1: int, b2: int, b3: int) := (src[0], src[1], src[2], src[3]);
    b0 * 0x100_0000 + b1 * 0x1_0000 + b2 * 0x100 + b3
  }

  lemma {:induction false} LengthRoundTrip(n: nat, tail: ByteString)
    requires n < 0x1_0000_0000
    ensures FrameLength(Be32(n) + tail) == n
  {
    assert n / 0x100 == n / 0x1_0000 * 0x100 + n / 0x100 % 0x100;
    assert n / 0x1_0000 == n / 0x100_0000 * 0x100 + n / 0x1_0000 % 0x100;
  }

  // ---------- Sending ----------

  function MessagePayload(m: Message): ByteString {
    Encoding(List(Fields(m)))
  }

  predicate Sendable(m: Message) {
    1 + |MessagePayload(m)| <= MAX_FRAME_SIZE
  }

  function FrameOf(m: Message): ByteString
    requires Sendable(m)
  {
    Be32(1 + |MessagePayload(m)|) + ([Tag(m)] + MessagePayload(m))
  }

  /**
   * A frame says, in four big-endian bytes, how many bytes follow: the tag and the encoded list of fields, at most ten
   * megabytes together.
   */
  lemma {:induction false} FrameShape(m: Message)
    requires Sendable(m)
    ensures var f := FrameOf(m);
            && 5 <= |f| <= 4 + 10_485_760 && FromBytes(f[..4]) == |f| - 4 && f[4] == Tag(m)
            && Decoded(f[5..]) == Ok(Decoding(List(Fields(m)), []))
  {
    hide Encoding, Decoded, Fields, Tag;
    var f, payload := FrameOf(m), MessagePayload(m);
    assert f[..4] == Be32(1 + |payload|) && f[5..] == payload;
    BigEndianLength(1 + |payload|);
    RoundTrip(List(Fields(m)), []);
    assert payload + [] == payload;
  }

  lemma {:induction false} BigEndianLength(n: nat)
    requires n < 0x1_0000_0000
    ensures FromBytes(Be32(n)) == n
  {
    var b := Be32(n);
    LengthRoundTrip(n, []);
    assert b + [] == b;
    assert b[..3][..2][..1] == [b[0]] && b[..3][..2] == b[..2] && b[..2][..1] == [b[0]] && [b[0]][..0] == [];
    var first: int := b[0];
    assert FromBytes([b[0]]) == first;
    assert FromBytes(b[..2]) == 256 * first + b[1];
    assert FromBytes(b[..3]) == 256 * FromBytes(b[..2]) + b[2];
  }

  /** An oversized message is refused and leaves the buffer alone. */
  method EncodeFrame(m: Message, dst: BytesMut) returns (r: Result<(), NetworkError>)
    requires Fits(List(Fields(m)))
    modifies dst
    ensures r.Ok? <==> Sendable(m)
    ensures r.Err? ==> r.error == FrameTooLarge(1 + |MessagePayload(m)|)
    ensures dst.data == if Sendable(m) then old(dst.data) + FrameOf(m) else old(dst.data)
  {
    hide Encoding, Be32, Fields, Tag;
    var payload := new BytesMut();
    Encode(List(Fields(m)), payload);
    assert payload.data == MessagePayload(m);
    var frameLength := 1 + |payload.data|;
    if frameLength > MAX_FRAME_SIZE {
      return Err(FrameTooLarge(frameLength));
    }
    dst.PutSlice(Be32(frameLength));
    dst.PutU8(Tag(m));
    dst.PutSlice(payload.data);
    return Ok(());
  }

  // ---------- Receiving ----------

  datatype Step =
    | NeedMore
    | Parsed(message: Message, rest: ByteString)
    | Failed(error: RlpError, rest: ByteString)
    | Panicked(rest: ByteString)

  function ReadFrame(frame: ByteString, utf8: Utf8): (r: Result<Message, RlpError>)
    requires frame != []
  {
    var payload :- Decoded(frame[1..]);
    if payload.item.Bytes? then Err(UnexpectedType(0x80)) else ReadFields(frame[0], payload.item.items, utf8)
  }

  function NextFrame(src: ByteString, utf8: Utf8): Step {
    if |src| < 4 || |src| < 4 + FrameLength(src) then NeedMore
    else
      var end := 4 + FrameLength(src);
      if end == 4 then Panicked(src[4..])
      else
        match ReadFrame(src[4..end], utf8)
        case Ok(m) => Parsed(m, src[end..])
        case Err(e) => Failed(e, src[end..])
  }

  /** Reading a tag from an empty frame is out of bounds; the outcome stands for the panic. */
  method DecodeFrame(src: BytesMut, utf8: Utf8) returns (r: Step)
    modifies src
    ensures r == NextFrame(old(src.data), utf8)
    ensures src.data == if r.NeedMore? then old(src.data) else r.rest
  {
    hide Decoded, ReadFields;
    if |src.data| < 4 {
      return NeedMore;
    }
    var frameLength := FrameLength(src.data);
    if |src.data| < 4 + frameLength {
      return NeedMore;
    }
    ghost var input := src.data;
    src.Advance(4);
    var frame := src.SplitTo(frameLength);
    assert frame == input[4..4 + frameLength] && src.data == input[4 + frameLength..];
    if frame == [] {
      return Panicked(src.data);
    }
    var payload := Rlp.Decode(frame[1..]);
    if payload.Err? {
      return Failed(payload.error, src.data);
    }
    if payload.value.item.Bytes? {
      return Failed(UnexpectedType(0x80), src.data);
    }
    var message := ReadFields(frame[0], payload.value.item.items, utf8);
    if message.Err? {
      return Failed(message.error, src.data);
    }
    return Parsed(message.value, src.data);
  }

  /** A frame announcing no bytes is the one input that panics the decoder. */
  lemma {:induction false} PanicsExactlyOnEmptyFrame(src: ByteString, utf8: Utf8)
    ensures NextFrame(src, utf8).Panicked? <==> Be32(0) <= src
  {
    if Be32(0) <= src {
      assert src == Be32(0) + src[4..];
      LengthRoundTrip(0, src[4..]);
    }
  }

  // ---------- Streams ----------

  datatype Ending = Waiting | Broken(error: RlpError) | Crashed

  /** What a connection has made of the bytes so far; once it has ended it keeps no buffer. */
  datatype Session = Session(messages: seq<Message>, buffer: ByteString, ending: Ending)

  function After(messages: seq<Message>, s: Session): Session {
    s.(messages := messages + s.messages)
  }

  function Stream(src: ByteString, utf8: Utf8): Session
    decreases |src|
  {
    match NextFrame(src, utf8)
    case NeedMore => Session([], src, Waiting)
    case Parsed(m, rest) => After([m], Stream(rest, utf8))
    case Failed(e, _) => Session([], [], Broken(e))
    case Panicked(_) => Session([], [], Crashed)
  }

  /** A chunk arrives: it joins the bytes held back, unless the connection has ended. */
  function Fed(s: Session, chunk: ByteString, utf8: Utf8): Session {
    if s.ending.Waiting? then After(s.messages, Stream(s.buffer + chunk, utf8)) else s
  }

  function FedAll(chunks: seq<ByteString>, utf8: Utf8): Session {
    if chunks == [] then Session([], [], Waiting)
    else Fed(FedAll(chunks[..|chunks| - 1], utf8), chunks[|chunks| - 1], utf8)
  }

  function Joined(chunks: seq<ByteString>): ByteString {
    if chunks == [] then [] else Joined(chunks[..|chunks| - 1]) + chunks[|chunks| - 1]
  }

  /** A decision once made is not changed by bytes that come later. */
  lemma {:induction false} LaterBytesDoNotMatter(x: ByteString, y: ByteString, utf8: Utf8)
    requires !NextFrame(x, utf8).NeedMore?
    ensures NextFrame(x + y, utf8) == NextFrame(x, utf8).(rest := NextFrame(x, utf8).rest + y)
  {
    hide ReadFrame;
    var end := 4 + FrameLength(x);
    assert FrameLength(x + y) == FrameLength(x);
    assert (x + y)[4..end] == x[4..end];
    assert (x + y)[end..] == x[end..] + y;
  }

  lemma {:induction false} StreamSplits(x: ByteString, y: ByteString, utf8: Utf8)
    ensures Stream(x + y, utf8) == Fed(Stream(x, utf8), y, utf8)
    decreases |x|
  {
    hide NextFrame;
    if !NextFrame(x, utf8).NeedMore? {
      LaterBytesDoNotMatter(x, y, utf8);
      if NextFrame(x, utf8).Parsed? {
        RestShorter(x, utf8);
        StreamSplits(NextFrame(x, utf8).rest, y, utf8);
      }
    }
  }

  lemma {:induction false} RestShorter(x: ByteString, utf8: Utf8)
    requires NextFrame(x, utf8).Parsed?
    ensures |NextFrame(x, utf8).rest| < |x|
  {
    hide ReadFrame;
  }

  /** However a byte stream is cut into chunks, and whatever it contains, the session is that of the whole. */
  lemma {:induction false} ChunkingIsIrrelevant(chunks: seq<ByteString>, utf8: Utf8)
    ensures FedAll(chunks, utf8) == Stream(Joined(chunks), utf8)
  {
    hide NextFrame;
    if chunks == [] {
      NothingYet(utf8);
    } else {
      var front := chunks[..|chunks| - 1];
      ChunkingIsIrrelevant(front, utf8);
      StreamSplits(Joined(front), chunks[|chunks| - 1], utf8);
    }
  }

  lemma {:induction false} NothingYet(utf8: Utf8)
    ensures Stream([], utf8) == Session([], [], Waiting)
  {
  }

  // ---------- Delivery ----------

  ghost predicate AllSendable(ms: seq<Message>, utf8: Utf8) {
    forall m :: m in ms ==> Sendable(m) && IsText(m, utf8)
  }

  ghost function Wire(ms: seq<Message>, utf8: Utf8): ByteString
    requires AllSendable(ms, utf8)
  {
    if ms == [] then [] else Wire(ms[..|ms| - 1], utf8) + FrameOf(ms[|ms| - 1])
  }

  lemma {:induction false} FrameReads(m: Message, utf8: Utf8)
    requires Sendable(m) && IsText(m, utf8)
    ensures ReadFrame([Tag(m)] + MessagePayload(m), utf8) == Ok(m)
  {
    hide Encoding, Decoded, ReadFields, Fields, Tag;
    var payload := MessagePayload(m);
    assert ([Tag(m)] + payload)[1..] == payload == payload + [];
    RoundTrip(List(Fields(m)), []);
    FieldsRoundTrip(m, utf8);
  }

  lemma {:induction false} WholeFrame(m: Message, suffix: ByteString, utf8: Utf8)
    requires Sendable(m) && IsText(m, utf8)
    ensures NextFrame(FrameOf(m) + suffix, utf8) == Parsed(m, suffix)
  {
    hide ReadFrame, MessagePayload, Be32, Tag, FrameLength;
    var body := [Tag(m)] + MessagePayload(m);
    var src := FrameOf(m) + suffix;
    assert src == Be32(|body|) + (body + suffix);
    LengthRoundTrip(|body|, body + suffix);
    assert src[4..4 + |body|] == body && src[4 + |body|..] == suffix;
    FrameReads(m, utf8);
  }

  lemma {:induction false} PartialFrame(m: Message, part: ByteString, utf8: Utf8)
    requires Sendable(m) && part < FrameOf(m)
    ensures Stream(part, utf8) == Session([], part, Waiting)
  {
    hide MessagePayload, Be32, Tag, FrameLength, ReadFrame;
    if |part| >= 4 {
      var n := 1 + |MessagePayload(m)|;
      assert part == Be32(n) + part[4..];
      LengthRoundTrip(n, part[4..]);
    }
  }

  lemma {:induction false} OneFrame(m: Message, utf8: Utf8)
    requires Sendable(m) && IsText(m, utf8)
    ensures Stream(FrameOf(m), utf8) == Session([m], [], Waiting)
  {
    hide NextFrame, FrameOf;
    WholeFrame(m, [], utf8);
    assert FrameOf(m) + [] == FrameOf(m);
    NothingYet(utf8);
    WholeFrameShorter(m, utf8);
  }

  lemma {:induction false} WholeFrameShorter(m: Message, utf8: Utf8)
    requires Sendable(m)
    ensures FrameOf(m) != []
  {
  }

  /** Every message of a stream arrives, in order, and the bytes of an unfinished frame are held back. */
  lemma {:induction false} DeliversExactly(ms: seq<Message>, next: Message, part: ByteString, utf8: Utf8)
    requires AllSendable(ms, utf8) && Sendable(next) && part < FrameOf(next)
    ensures Stream(Wire(ms, utf8) + part, utf8) == Session(ms, part, Waiting)
  {
    hide NextFrame, FrameOf;
    WireDelivers(ms, utf8);
    StreamSplits(Wire(ms, utf8), part, utf8);
    PartialFrame(next, part, utf8);
    assert [] + part == part;
  }

  lemma {:induction false} WireDelivers(ms: seq<Message>, utf8: Utf8)
    requires AllSendable(ms, utf8)
    ensures Stream(Wire(ms, utf8), utf8) == Session(ms, [], Waiting)
  {
    hide NextFrame, FrameOf;
    if ms == [] {
      NothingYet(utf8);
    } else {
      var front, last := ms[..|ms| - 1], ms[|ms| - 1];
      WireDelivers(front, utf8);
      StreamSplits(Wire(front, utf8), FrameOf(last), utf8);
      assert [] + FrameOf(last) == FrameOf(last);
      OneFrame(last, utf8);
      assert front + [last] == ms;
    }
  }

  /** Whatever chunks the bytes of a message sequence come in, that sequence is what is received. */
  lemma {:induction false} ChunkedDelivery(ms: seq<Message>, chunks: seq<ByteString>, utf8: Utf8)
    requires AllSendable(ms, utf8) && Joined(chunks) == Wire(ms, utf8)
    ensures FedAll(chunks, utf8) == Session(ms, [], Waiting)
  {
    ChunkingIsIrrelevant(chunks, utf8);
    WireDelivers(ms, utf8);
  }

  /** At every point of the stream a prefix of what was sent has been received, and nothing has failed. */
  lemma {:induction false} PrefixDelivery(ms: seq<Message>, k: nat, utf8: Utf8)
    requires AllSendable(ms, utf8) && k <= |Wire(ms, utf8)|
    ensures Stream(Wire(ms, utf8)[..k], utf8).ending.Waiting?
    ensures Stream(Wire(ms, utf8)[..k], utf8).messages <= ms
  {
    hide NextFrame, FrameOf;
    var wire := Wire(ms, utf8);
    assert wire[..k] + wire[k..] == wire;
    StreamSplits(wire[..k], wire[k..], utf8);
    WireDelivers(ms, utf8);
  }

  lemma {:induction false} WireInjective(ms: seq<Message>, ns: seq<Message>, utf8: Utf8)
    requires AllSendable(ms, utf8) && AllSendable(ns, utf8) && Wire(ms, utf8) == Wire(ns, utf8)
    ensures ms == ns
  {
    WireDelivers(ms, utf8);
    WireDelivers(ns, utf8);
  }
}
