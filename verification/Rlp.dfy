/** Recursive length prefix encoding: printer, length calculation and parser. */
module Rlp {
  import opened Primitives
  import opened BigEndian
  import opened Buffers

  datatype RlpItem = Bytes(data: ByteString) | List(items: seq<RlpItem>)

  datatype RlpError =
    | InputTooShort(expected: nat, actual: nat)
    | InvalidLength(length: nat)
    | UnexpectedType(prefix: byte)
    | InvalidString

  // ---------- Encoding ----------

  predicate SingleByte(data: ByteString) {
    |data| == 1 && data[0] < 0x80
  }

  /** The prefix of a payload of the given length; the first byte is computed in u8 arithmetic. */
  function LengthPrefix(offset: byte, len: nat): (b: ByteString)
    ensures |b| >= 1
  {
    if len <= 55 then [(offset + len) % 256]
    else [(offset + 55 + |ToBytes(len)|) % 256] + ToBytes(len)
  }

  function Encoding(item: RlpItem): (b: ByteString)
    ensures |b| >= 1
    decreases item, 1
  {
    match item
    case Bytes(data) => if SingleByte(data) then data else LengthPrefix(0x80, |data|) + data
    case List(items) => LengthPrefix(0xc0, |Payload(items)|) + Payload(items)
  }

  function Payload(items: seq<RlpItem>): (b: ByteString)
    decreases items, 0
  {
    if items == [] then [] else Encoding(items[0]) + Payload(items[1..])
  }

  /** The encoding is shorter than 2^64 bytes, as every buffer in memory is. */
  predicate Fits(item: RlpItem) {
    |Encoding(item)| < U64_LIMIT
  }

  method EncodeLength(value: u64) returns (bytes: ByteString)
    ensures bytes == if value == 0 then [0] else ToBytes(value)
  {
    hide ToBytes, Reversed;
    var pushed: ByteString := [];
    var val: nat := value;
    NothingReversed();
    assert ToBytes(value) + [] == ToBytes(value);
    while val > 0xff
      invariant ToBytes(value) == ToBytes(val) + Reversed(pushed)
      invariant value > 0 ==> val > 0
      invariant value == 0 ==> val == 0 && pushed == []
      decreases val
    {
      LastByte(val, Reversed(pushed));
      ReversedSnoc(pushed, val % 256);
      pushed := pushed + [val % 256];
      val := val / 256;
    }
    if val > 0 {
      LastByte(val, Reversed(pushed));
    }
    ReversedSnoc(pushed, val % 256);
    pushed := pushed + [val % 256];
    bytes := Reversed(pushed);
  }

  lemma {:induction false} LastByte(n: nat, tail: ByteString)
    requires n > 0
    ensures ToBytes(n) + tail == ToBytes(n / 256) + ([n % 256] + tail)
    ensures n <= 0xff ==> ToBytes(n) + tail == [n % 256] + tail
  {
  }

  function Reversed(s: ByteString): (r: ByteString) {
    if s == [] then [] else [s[|s| - 1]] + Reversed(s[..|s| - 1])
  }

  lemma {:induction false} NothingReversed()
    ensures Reversed([]) == []
  {
  }

  lemma {:induction false} ReversedSnoc(s: ByteString, x: byte)
    ensures Reversed(s + [x]) == [x] + Reversed(s)
  {
    assert (s + [x])[..|s|] == s;
  }

  method AddListPrefix(buffer: BytesMut, payloadLen: u64)
    modifies buffer
    ensures buffer.data == old(buffer.data) + LengthPrefix(0xc0, payloadLen)
  {
    hide ToBytes;
    if payloadLen <= 55 {
      buffer.PutU8(0xc0 + payloadLen);
    } else {
      var lengthBytes := EncodeLength(payloadLen);
      U64Width(payloadLen);
      buffer.PutU8(0xf7 + |lengthBytes|);
      buffer.PutSlice(lengthBytes);
    }
  }

  method EncodeBytes(data: ByteString, buffer: BytesMut)
    requires |data| < U64_LIMIT
    modifies buffer
    ensures buffer.data == old(buffer.data) + Encoding(Bytes(data))
  {
    hide ToBytes;
    if SingleByte(data) {
      buffer.PutSlice(data);
    } else {
      if |data| <= 55 {
        buffer.PutU8(0x80 + |data|);
      } else {
        var lengthBytes := EncodeLength(|data|);
        U64Width(|data|);
        buffer.PutU8(0xb7 + |lengthBytes|);
        buffer.PutSlice(lengthBytes);
      }
      assert buffer.data == old(buffer.data) + LengthPrefix(0x80, |data|);
      buffer.PutSlice(data);
    }
  }

  method Encode(item: RlpItem, buffer: BytesMut)
    requires Fits(item)
    modifies buffer
    ensures buffer.data == old(buffer.data) + Encoding(item)
    decreases item, 1
  {
    hide LengthPrefix, ToBytes;
    match item
    case Bytes(data) =>
      EncodeBytes(data, buffer);
    case List(items) =>
      var encodedItems := EncodeItems(items);
      AddListPrefix(buffer, |encodedItems.data|);
      buffer.PutSlice(encodedItems.data);
  }

  /** The loop that encodes a list's items into a scratch buffer. */
  method EncodeItems(items: seq<RlpItem>) returns (encodedItems: BytesMut)
    requires |Payload(items)| < U64_LIMIT
    ensures fresh(encodedItems) && encodedItems.data == Payload(items)
    decreases items, 0
  {
    encodedItems := new BytesMut();
    var i := 0;
    while i < |items|
      invariant 0 <= i <= |items|
      invariant fresh(encodedItems)
      invariant encodedItems.data == Payload(items[..i])
    {
      PayloadSnoc(items, i);
      Encode(items[i], encodedItems);
      i := i + 1;
    }
    assert items[..|items|] == items;
  }

  lemma {:induction false} PayloadConcat(a: seq<RlpItem>, b: seq<RlpItem>)
    ensures Payload(a + b) == Payload(a) + Payload(b)
    decreases |a|
  {
    hide LengthPrefix;
    if a == [] {
      assert a + b == b;
    } else {
      PayloadConcat(a[1..], b);
      assert (a + b)[1..] == a[1..] + b;
    }
  }

  lemma {:induction false} PayloadSnoc(items: seq<RlpItem>, i: nat)
    requires i < |items|
    ensures Payload(items[..i + 1]) == Payload(items[..i]) + Encoding(items[i])
    ensures |Encoding(items[i])| <= |Payload(items)|
  {
    assert items[..i + 1] == items[..i] + [items[i]];
    PayloadConcat(items[..i], [items[i]]);
    assert [items[i]][1..] == [];
    assert items == items[..i + 1] + items[i + 1..];
    PayloadConcat(items[..i + 1], items[i + 1..]);
  }

  // ---------- Length calculation ----------

  function PrefixLen(payloadLen: nat): (n: nat) {
    if payloadLen <= 55 then 1 else 1 + (BitLength(payloadLen) + 7) / 8
  }

  /** The length calculation never builds the encoding; it works from bit lengths. */
  function EncodedLen(item: RlpItem): (n: nat)
    decreases item, 1
  {
    match item
    case Bytes(data) => if SingleByte(data) then 1 else PrefixLen(|data|) + |data|
    case List(items) => PrefixLen(SumOfLens(items)) + SumOfLens(items)
  }

  function SumOfLens(items: seq<RlpItem>): (n: nat)
    decreases items, 0
  {
    if items == [] then 0 else EncodedLen(items[0]) + SumOfLens(items[1..])
  }

  lemma {:induction false} LengthPrefixLen(offset: byte, len: nat)
    ensures |LengthPrefix(offset, len)| == PrefixLen(len)
  {
    BitLengthCountsBytes(len);
  }

  lemma {:induction false} EncodedLenCorrect(item: RlpItem)
    ensures EncodedLen(item) == |Encoding(item)|
    decreases item, 1
  {
    match item
    case Bytes(data) =>
      LengthPrefixLen(0x80, |data|);
    case List(items) =>
      SumOfLensCorrect(items);
      LengthPrefixLen(0xc0, |Payload(items)|);
  }

  lemma {:induction false} SumOfLensCorrect(items: seq<RlpItem>)
    ensures SumOfLens(items) == |Payload(items)|
    decreases items, 0
  {
    if items != [] {
      EncodedLenCorrect(items[0]);
      SumOfLensCorrect(items[1..]);
    }
  }

  // ---------- Decoding ----------

  datatype Decoding = Decoding(item: RlpItem, rest: ByteString)

  function DecodedLength(slice: ByteString, lenOfLen: nat): (r: Result<nat, RlpError>)
    ensures r.Ok? ==> 0 < lenOfLen <= |slice| && r.value == FromBytes(slice[..lenOfLen])
  {
    if lenOfLen == 0 then Err(InvalidLength(0))
    else if lenOfLen > |slice| then Err(InputTooShort(lenOfLen, |slice|))
    else Ok(FromBytes(slice[..lenOfLen]))
  }

  /** Where an item's payload starts and how long it is, or the decoder's complaint. */
  datatype Frame = Frame(isList: bool, start: nat, len: nat)

  function ParsePrefix(input: ByteString): (r: Result<Frame, RlpError>)
    ensures r.Ok? ==> input != [] && r.value.start + r.value.len <= |input|
    ensures r.Ok? ==> (r.value.start == 0 ==> r.value.len == 1 && !r.value.isList)
  {
    if input == [] then Err(InputTooShort(1, 0))
    else
      var prefix := input[0];
      if prefix < 0x80 then Ok(Frame(false, 0, 1))
      else if prefix < 0xb8 then
        var len := prefix - 0x80;
        if len > |input| - 1 then Err(InputTooShort(len, |input| - 1)) else Ok(Frame(false, 1, len))
      else if prefix < 0xc0 then
        LongFrame(input, false, prefix - 0xb7)
      else if prefix < 0xf8 then
        var len := prefix - 0xc0;
        if len > |input| - 1 then Err(InputTooShort(len, |input| - 1)) else Ok(Frame(true, 1, len))
      else
        LongFrame(input, true, prefix - 0xf7)
  }

  function LongFrame(input: ByteString, isList: bool, lenOfLen: nat): (r: Result<Frame, RlpError>)
    requires input != []
    ensures r.Ok? ==> 0 < r.value.start && r.value.start + r.value.len <= |input|
  {
    var len :- DecodedLength(input[1..], lenOfLen);
    var remaining := input[1 + lenOfLen..];
    if len > |remaining| then Err(InputTooShort(len, |remaining|))
    else Ok(Frame(isList, 1 + lenOfLen, len))
  }

  function Decoded(input: ByteString): (r: Result<Decoding, RlpError>)
    ensures r.Ok? ==> |r.value.rest| < |input| && r.value.rest == input[|input| - |r.value.rest|..]
    decreases |input|, 0
  {
    var f :- ParsePrefix(input);
    var payload := input[f.start..f.start + f.len];
    var rest := input[f.start + f.len..];
    if f.isList then
      var items :- DecodedItems(payload);
      Ok(Decoding(List(items), rest))
    else Ok(Decoding(Bytes(payload), rest))
  }

  function DecodedItems(payload: ByteString): (r: Result<seq<RlpItem>, RlpError>)
    decreases |payload|, 1
  {
    if payload == [] then Ok([])
    else
      var d :- Decoded(payload);
      var tail :- DecodedItems(d.rest);
      Ok([d.item] + tail)
  }

  method DecodeLength(slice: ByteString, lenOfLen: nat) returns (r: Result<nat, RlpError>)
    requires lenOfLen <= 8
    ensures r == DecodedLength(slice, lenOfLen)
  {
    if lenOfLen == 0 {
      return Err(InvalidLength(0));
    }
    if lenOfLen > |slice| {
      return Err(InputTooShort(lenOfLen, |slice|));
    }
    var arr := Zeros(8 - lenOfLen) + slice[..lenOfLen];
    LeadingZerosIgnored(8 - lenOfLen, slice[..lenOfLen]);
    return Ok(FromBytes(arr));
  }

  lemma {:induction false} LeadingZerosIgnored(n: nat, b: ByteString)
    ensures FromBytes(Zeros(n) + b) == FromBytes(b)
  {
    var padded := Zeros(n) + b;
    if b != [] {
      LeadingZerosIgnored(n, b[..|b| - 1]);
      assert padded[..|padded| - 1] == Zeros(n) + b[..|b| - 1];
    } else if n > 0 {
      LeadingZerosIgnored(n - 1, []);
      assert padded[..|padded| - 1] == Zeros(n - 1) + [];
    }
  }

  /** The byte-by-byte decoder, following the five prefix classes. */
  method Decode(input: ByteString) returns (r: Result<Decoding, RlpError>)
    ensures r == Decoded(input)
    decreases |input|, 2
  {
    hide FromBytes;
    if input == [] {
      return Err(InputTooShort(1, 0));
    }
    if input[0] < 0x80 {
      assert ParsePrefix(input) == Ok(Frame(false, 0, 1)) && input[0..1] == [input[0]];
      return Ok(Decoding(Bytes([input[0]]), input[1..]));
    } else if input[0] < 0xb8 {
      var len := input[0] - 0x80;
      if len > |input[1..]| {
        return Err(InputTooShort(len, |input| - 1));
      }
      assert ParsePrefix(input) == Ok(Frame(false, 1, len));
      return Ok(Decoding(Bytes(input[1..1 + len]), input[1 + len..]));
    } else if input[0] < 0xc0 {
      r := DecodeLong(input, false, input[0] - 0xb7);
    } else if input[0] < 0xf8 {
      var payloadLen := input[0] - 0xc0;
      if payloadLen > |input| - 1 {
        return Err(InputTooShort(payloadLen, |input| - 1));
      }
      assert ParsePrefix(input) == Ok(Frame(true, 1, payloadLen));
      var items :- DecodePayload(input[1..payloadLen + 1]);
      return Ok(Decoding(List(items), input[1 + payloadLen..]));
    } else {
      r := DecodeLong(input, true, input[0] - 0xf7);
    }
  }

  /** The two classes whose payload length is itself written out in bytes. */
  method DecodeLong(input: ByteString, isList: bool, lenOfLen: nat) returns (r: Result<Decoding, RlpError>)
    requires input != [] && lenOfLen <= 8
    requires ParsePrefix(input) == LongFrame(input, isList, lenOfLen)
    ensures r == Decoded(input)
    decreases |input|, 1
  {
    hide FromBytes;
    var payloadLen :- DecodeLength(input[1..], lenOfLen);
    var remaining := input[1 + lenOfLen..];
    if payloadLen > |remaining| {
      return Err(InputTooShort(payloadLen, |remaining|));
    }
    assert remaining[..payloadLen] == input[1 + lenOfLen..1 + lenOfLen + payloadLen];
    assert remaining[payloadLen..] == input[1 + lenOfLen + payloadLen..];
    if isList {
      var items :- DecodePayload(remaining[..payloadLen]);
      return Ok(Decoding(List(items), remaining[payloadLen..]));
    } else {
      return Ok(Decoding(Bytes(remaining[..payloadLen]), remaining[payloadLen..]));
    }
  }

  /** The loop that consumes a list payload item by item. */
  method DecodePayload(payload: ByteString) returns (r: Result<seq<RlpItem>, RlpError>)
    ensures r == DecodedItems(payload)
    decreases |payload|, 3
  {
    var slice := payload;
    var decoded: seq<RlpItem> := [];
    assert DecodedItems(payload).Ok? ==> [] + DecodedItems(payload).value == DecodedItems(payload).value;
    while slice != []
      invariant |slice| <= |payload|
      invariant DecodedItems(payload) == Prepend(decoded, DecodedItems(slice))
      decreases |slice|
    {
      var d :- Decode(slice);
      ghost var tail := DecodedItems(d.rest);
      assert tail.Ok? ==> (decoded + [d.item]) + tail.value == decoded + ([d.item] + tail.value);
      decoded := decoded + [d.item];
      slice := d.rest;
    }
    assert decoded + [] == decoded;
    return Ok(decoded);
  }

  function Prepend(front: seq<RlpItem>, r: Result<seq<RlpItem>, RlpError>): Result<seq<RlpItem>, RlpError> {
    if r.Ok? then Ok(front + r.value) else r
  }

  // ---------- Round trips ----------

  /** The prefix written for a payload is read back as that payload's frame. */
  lemma {:induction false} PrefixRoundTrip(offset: byte, payload: ByteString, suffix: ByteString)
    requires offset == 0x80 || offset == 0xc0
    requires |payload| < U64_LIMIT
    ensures var prefix := LengthPrefix(offset, |payload|);
            ParsePrefix(prefix + payload + suffix) == Ok(Frame(offset == 0xc0, |prefix|, |payload|))
  {
    hide FromBytes, ToBytes, LongFrame;
    if |payload| > 55 {
      U64Width(|payload|);
      NoLeadingZero(|payload|);
      FromToBytes(|payload|);
      LongPrefixRoundTrip(offset == 0xc0, offset + 55 + |ToBytes(|payload|)|, ToBytes(|payload|), payload + suffix);
      assert LengthPrefix(offset, |payload|) + payload + suffix == LengthPrefix(offset, |payload|) + (payload + suffix);
    }
  }

  lemma {:induction false} LongPrefixRoundTrip(isList: bool, first: byte, lenBytes: ByteString, body: ByteString)
    requires lenBytes != [] && FromBytes(lenBytes) <= |body|
    ensures LongFrame([first] + lenBytes + body, isList, |lenBytes|)
            == Ok(Frame(isList, 1 + |lenBytes|, FromBytes(lenBytes)))
  {
    hide FromBytes;
    HeaderSlices(first, lenBytes, body);
  }

  lemma {:induction false} HeaderSlices(first: byte, lenBytes: ByteString, body: ByteString)
    ensures var input := [first] + lenBytes + body;
            input[1..][..|lenBytes|] == lenBytes && input[1 + |lenBytes|..] == body
  {
    assert ([first] + lenBytes + body)[1..] == lenBytes + body;
  }

  lemma {:induction false} SingleByteRoundTrip(data: ByteString, suffix: ByteString)
    requires SingleByte(data)
    ensures Decoded(data + suffix) == Ok(Decoding(Bytes(data), suffix))
  {
    var input := data + suffix;
    assert input[0..1] == data && input[1..] == suffix;
  }

  /** Decoding an encoding followed by anything returns the item and leaves the rest. */
  lemma {:induction false} RoundTrip(item: RlpItem, suffix: ByteString)
    requires Fits(item)
    ensures Decoded(Encoding(item) + suffix) == Ok(Decoding(item, suffix))
    decreases item, 1
  {
    hide ParsePrefix, LengthPrefix;
    match item
    case Bytes(data) =>
      if SingleByte(data) {
        SingleByteRoundTrip(data, suffix);
      } else {
        BodyRoundTrip(0x80, data, suffix);
      }
    case List(items) =>
      PayloadRoundTrip(items);
      BodyRoundTrip(0xc0, Payload(items), suffix);
  }

  lemma {:induction false} BodyRoundTrip(offset: byte, payload: ByteString, suffix: ByteString)
    requires offset == 0x80 || offset == 0xc0
    requires |payload| < U64_LIMIT
    ensures var prefix := LengthPrefix(offset, |payload|);
            var input := prefix + payload + suffix;
            && ParsePrefix(input) == Ok(Frame(offset == 0xc0, |prefix|, |payload|))
            && input[|prefix|..|prefix| + |payload|] == payload
            && input[|prefix| + |payload|..] == suffix
  {
    PrefixRoundTrip(offset, payload, suffix);
  }

  lemma {:induction false} PayloadRoundTrip(items: seq<RlpItem>)
    requires |Payload(items)| < U64_LIMIT
    ensures DecodedItems(Payload(items)) == Ok(items)
    decreases items, 0
  {
    hide ParsePrefix, LengthPrefix;
    if items != [] {
      var tail := items[1..];
      RoundTrip(items[0], Payload(tail));
      PayloadRoundTrip(tail);
      assert items == [items[0]] + tail;
    }
  }

  lemma {:induction false} CutPrefix(input: ByteString, k: nat)
    requires ParsePrefix(input).Ok? && ParsePrefix(input).value.start + ParsePrefix(input).value.len == |input|
    requires k < |input|
    ensures var r := ParsePrefix(input[..k]);
            r.Err? && r.error.InputTooShort? && r.error.actual < r.error.expected
  {
    hide FromBytes;
    if k > 0 {
      var cut, prefix: int := input[..k], input[0];
      assert cut[0] == input[0];
      var lenOfLen := if prefix < 0xc0 then prefix - 0xb7 else prefix - 0xf7;
      if 0 < lenOfLen <= k - 1 {
        SameSlice(input, k, lenOfLen);
      }
    }
  }

  lemma {:induction false} SameSlice(input: ByteString, k: nat, n: nat)
    requires 1 + n <= k <= |input|
    ensures input[..k][1..][..n] == input[1..][..n]
  {
  }

  /** An encoding that is cut short is never taken for another item: the decoder says that it is too short. */
  lemma {:induction false} TruncationDetected(item: RlpItem, k: nat)
    requires Fits(item) && k < |Encoding(item)|
    ensures var r := Decoded(Encoding(item)[..k]);
            r.Err? && r.error.InputTooShort? && r.error.actual < r.error.expected
  {
    hide ParsePrefix, Encoding, DecodedItems;
    var input := Encoding(item);
    RoundTrip(item, []);
    assert input + [] == input;
    CutPrefix(input, k);
  }

  /** No encoding is a prefix of another one; in particular encodings are injective. */
  lemma {:induction false} PrefixFree(a: RlpItem, b: RlpItem, suffix: ByteString)
    requires Fits(b)
    requires Encoding(a) + suffix == Encoding(b)
    ensures a == b && suffix == []
  {
    RoundTrip(a, suffix);
    RoundTrip(b, []);
    assert Encoding(b) + [] == Encoding(b);
  }

  lemma {:induction false} EncodingInjective(a: RlpItem, b: RlpItem)
    requires Fits(a)
    requires Encoding(a) == Encoding(b)
    ensures a == b
  {
    assert Encoding(a) + [] == Encoding(b);
    PrefixFree(a, b, []);
  }

  lemma {:induction false} PrefixNotLonger(m: nat, n: nat)
    requires m <= n
    ensures |LengthPrefix(0xc0, m)| <= |LengthPrefix(0xc0, n)|
  {
    ToBytesMonotone(m, n);
  }

  /** A frame's header is at least as long as the canonical prefix for its payload length. */
  lemma {:induction false} FrameHeaderNotShort(input: ByteString, offset: byte)
    requires ParsePrefix(input).Ok? && input[0] >= 0x80
    ensures |LengthPrefix(offset, ParsePrefix(input).value.len)| <= ParsePrefix(input).value.start
  {
    var f := ParsePrefix(input).value;
    if f.len > 55 {
      MinimalBytes(input[1..][..f.start - 1]);
    }
  }

  /** Whatever was decoded re-encodes into no more bytes than were consumed. */
  lemma {:induction false} ReencodingNotLonger(input: ByteString)
    requires Decoded(input).Ok?
    ensures |Encoding(Decoded(input).value.item)| + |Decoded(input).value.rest| <= |input|
    decreases |input|, 0
  {
    var f := ParsePrefix(input).value;
    if input[0] >= 0x80 {
      if f.isList {
        var payload := input[f.start..f.start + f.len];
        var items := DecodedItems(payload).value;
        ReencodedPayloadNotLonger(payload);
        FrameHeaderNotShort(input, 0xc0);
        PrefixNotLonger(|Payload(items)|, f.len);
      } else {
        FrameHeaderNotShort(input, 0x80);
      }
    }
  }

  lemma {:induction false} ReencodedPayloadNotLonger(payload: ByteString)
    requires DecodedItems(payload).Ok?
    ensures |Payload(DecodedItems(payload).value)| <= |payload|
    decreases |payload|, 1
  {
    if payload != [] {
      var d := Decoded(payload).value;
      ReencodingNotLonger(payload);
      ReencodedPayloadNotLonger(d.rest);
      assert DecodedItems(payload).value[1..] == DecodedItems(d.rest).value;
    }
  }

  /** Non-canonical input is normalised: re-encoding what was read decodes to the same item. */
  lemma {:induction false} DecodeNormalises(input: ByteString, suffix: ByteString)
    requires |input| < U64_LIMIT
    requires Decoded(input).Ok?
    ensures var item := Decoded(input).value.item;
            Decoded(Encoding(item) + suffix) == Ok(Decoding(item, suffix))
  {
    ReencodingNotLonger(input);
    RoundTrip(Decoded(input).value.item, suffix);
  }
}
