/** The thirteen peer messages: their tags, their fields, and reading them back. */
module Messages {
  import opened Primitives
  import opened Rlp
  import opened ChainTypes
  import opened StateRoot
  import opened Hashing
  import opened TypedRlp

  datatype BlockAnnouncement = BlockAnnouncement(hash: B256, number: u64)

  /** A disconnect reason is kept as the bytes of its text. */
  datatype Message =
    | Ping
    | Pong
    | Status(chainId: u64, headHash: B256, totalDifficulty: u128)
    | Transactions(txs: seq<Transaction>)
    | GetBlockHeaders(startHash: B256, count: u64)
    | NewBlock(block: Block, td: u128)
    | NewBlockHashes(newBlocks: seq<BlockAnnouncement>)
    | BlockHeaders(headers: seq<Header>)
    | Disconnect(reason: ByteString)
    | GetAccountState(address: Address)
    | AccountState(address: Address, nonce: u64, balance: u128)
    | GetChainHead
    | ChainHeadAt(number: u64, hash: B256, totalDifficulty: u128)

  /** Which byte strings are text; the text type of the source admits no others. */
  type Utf8 = ByteString -> bool

  predicate IsText(m: Message, utf8: Utf8) {
    m.Disconnect? ==> utf8(m.reason)
  }

  function Tag(m: Message): byte {
    match m
    case Ping => 0x00
    case Pong => 0x01
    case Status(_, _, _) => 0x02
    case Transactions(_) => 0x03
    case GetBlockHeaders(_, _) => 0x04
    case NewBlock(_, _) => 0x07
    case NewBlockHashes(_) => 0x08
    case BlockHeaders(_) => 0x09
    case Disconnect(_) => 0x0a
    case GetAccountState(_) => 0x0b
    case AccountState(_, _, _) => 0x0c
    case GetChainHead => 0x0d
    case ChainHeadAt(_, _, _) => 0x0e
  }

  function AnnouncementItem(a: BlockAnnouncement): RlpItem {
    List([Bytes(a.hash), UintItem(a.number)])
  }

  function ReadAnnouncement(item: RlpItem): (r: Read<BlockAnnouncement>) {
    if item.Bytes? then Err(UnexpectedType(0x80))
    else if |item.items| != 2 then Err(InvalidLength(|item.items|))
    else
      var hash :- ReadHash(item.items[0]);
      var number :- ReadU64(item.items[1]);
      Ok(BlockAnnouncement(hash, number))
  }

  function Mapped<T>(values: seq<T>, item: T -> RlpItem): seq<RlpItem> {
    seq(|values|, i requires 0 <= i < |values| => item(values[i]))
  }

  function Fields(m: Message): seq<RlpItem> {
    match m
    case Ping => []
    case Pong => []
    case Status(chainId, headHash, td) => [UintItem(chainId), Bytes(headHash), UintItem(td)]
    case Transactions(txs) => [List(Mapped(txs, TransactionItem))]
    case GetBlockHeaders(startHash, count) => [Bytes(startHash), UintItem(count)]
    case NewBlock(block, td) => [BlockItem(block), UintItem(td)]
    case NewBlockHashes(newBlocks) => [List(Mapped(newBlocks, AnnouncementItem))]
    case BlockHeaders(headers) => [List(Mapped(headers, HeaderItem))]
    case Disconnect(reason) => [Bytes(reason)]
    case GetAccountState(address) => [Bytes(address)]
    case AccountState(address, nonce, balance) => [Bytes(address), UintItem(nonce), UintItem(balance)]
    case GetChainHead => []
    case ChainHeadAt(number, hash, td) => [UintItem(number), Bytes(hash), UintItem(td)]
  }

  /** How many fields a tag calls for, or none when no message bears it. */
  function Arity(tag: byte): Option<nat> {
    if tag in {0x00, 0x01, 0x0d} then Some(0)
    else if tag in {0x03, 0x08, 0x09, 0x0a, 0x0b} then Some(1)
    else if tag in {0x04, 0x07} then Some(2)
    else if tag in {0x02, 0x0c, 0x0e} then Some(3)
    else None
  }

  function ReadFields(tag: byte, fields: seq<RlpItem>, utf8: Utf8): (r: Read<Message>) {
    match Arity(tag)
    case None => Err(UnexpectedType(tag))
    case Some(arity) =>
      if |fields| != arity then Err(InvalidLength(|fields|))
      else if tag == 0x00 then Ok(Ping)
      else if tag == 0x01 then Ok(Pong)
      else if tag == 0x0d then Ok(GetChainHead)
      else if arity == 1 then ReadOne(tag, fields[0], utf8)
      else ReadMany(tag, fields)
  }

  function ReadOne(tag: byte, field: RlpItem, utf8: Utf8): (r: Read<Message>)
    requires Arity(tag) == Some(1)
  {
    if tag == 0x03 then
      var txs :- ReadListOf(field, ReadTransaction);
      Ok(Transactions(txs))
    else if tag == 0x08 then
      var newBlocks :- ReadListOf(field, ReadAnnouncement);
      Ok(NewBlockHashes(newBlocks))
    else if tag == 0x09 then
      var headers :- ReadListOf(field, ReadHeader);
      Ok(BlockHeaders(headers))
    else if tag == 0x0a then
      var reason :- ReadBytes(field);
      if utf8(reason) then Ok(Disconnect(reason)) else Err(InvalidString)
    else
      var address :- ReadAddress(field);
      Ok(GetAccountState(address))
  }

  function ReadMany(tag: byte, fields: seq<RlpItem>): (r: Read<Message>)
    requires Arity(tag) == Some(|fields|) && |fields| >= 2
  {
    if tag == 0x02 then
      var chainId :- ReadU64(fields[0]);
      var headHash :- ReadHash(fields[1]);
      var td :- ReadU128(fields[2]);
      Ok(Status(chainId, headHash, td))
    else if tag == 0x04 then
      var startHash :- ReadHash(fields[0]);
      var count :- ReadU64(fields[1]);
      Ok(GetBlockHeaders(startHash, count))
    else if tag == 0x07 then
      var block :- ReadBlock(fields[0]);
      var td :- ReadU128(fields[1]);
      Ok(NewBlock(block, td))
    else if tag == 0x0c then
      var address :- ReadAddress(fields[0]);
      var nonce :- ReadU64(fields[1]);
      var balance :- ReadU128(fields[2]);
      Ok(AccountState(address, nonce, balance))
    else
      var number :- ReadU64(fields[0]);
      var hash :- ReadHash(fields[1]);
      var td :- ReadU128(fields[2]);
      Ok(ChainHeadAt(number, hash, td))
  }

  // ---------- Round trip ----------

  lemma {:induction false} ListRoundTrip<T>(values: seq<T>, item: T -> RlpItem, read: RlpItem -> Read<T>)
    requires forall i :: 0 <= i < |values| ==> read(item(values[i])) == Ok(values[i])
    ensures ReadListOf(List(Mapped(values, item)), read) == Ok(values)
  {
    ReadAllRoundTrip(Mapped(values, item), read, values);
  }

  lemma {:induction false} OneRoundTrip(m: Message, utf8: Utf8)
    requires Arity(Tag(m)) == Some(1) && IsText(m, utf8)
    ensures |Fields(m)| == 1 && ReadOne(Tag(m), Fields(m)[0], utf8) == Ok(m)
  {
    hide ReadTransaction, TransactionItem, ReadHeader, HeaderItem, ReadU64, UintItem, ReadListOf, Mapped;
    match m {
      case Transactions(txs) =>
        forall i | 0 <= i < |txs| ensures ReadTransaction(TransactionItem(txs[i])) == Ok(txs[i]) {
          TransactionRoundTrip(txs[i]);
        }
        ListRoundTrip(txs, TransactionItem, ReadTransaction);
      case NewBlockHashes(newBlocks) =>
        forall i | 0 <= i < |newBlocks| ensures ReadAnnouncement(AnnouncementItem(newBlocks[i])) == Ok(newBlocks[i]) {
          U64RoundTrip(newBlocks[i].number);
        }
        ListRoundTrip(newBlocks, AnnouncementItem, ReadAnnouncement);
      case BlockHeaders(headers) =>
        forall i | 0 <= i < |headers| ensures ReadHeader(HeaderItem(headers[i])) == Ok(headers[i]) {
          HeaderRoundTrip(headers[i]);
        }
        ListRoundTrip(headers, HeaderItem, ReadHeader);
      case _ =>
    }
  }

  lemma {:induction false} ManyRoundTrip(m: Message)
    requires Arity(Tag(m)).Some? && Arity(Tag(m)).value >= 2
    ensures Arity(Tag(m)) == Some(|Fields(m)|) && ReadMany(Tag(m), Fields(m)) == Ok(m)
  {
    hide ReadU64, ReadU128, UintItem, ReadBlock, BlockItem;
    match m {
      case Status(chainId, _, td) =>
        U64RoundTrip(chainId);
        U128RoundTrip(td);
      case GetBlockHeaders(_, count) =>
        U64RoundTrip(count);
      case NewBlock(block, td) =>
        BlockRoundTrip(block);
        U128RoundTrip(td);
      case AccountState(_, nonce, balance) =>
        U64RoundTrip(nonce);
        U128RoundTrip(balance);
      case ChainHeadAt(number, _, td) =>
        U64RoundTrip(number);
        U128RoundTrip(td);
      case _ =>
    }
  }

  /** Reading a message's tag and fields gives the message; a disconnect reason that is not text is refused. */
  lemma {:induction false} FieldsRoundTrip(m: Message, utf8: Utf8)
    ensures Arity(Tag(m)) == Some(|Fields(m)|)
    ensures ReadFields(Tag(m), Fields(m), utf8) == if IsText(m, utf8) then Ok(m) else Err(InvalidString)
  {
    hide ReadOne, ReadMany;
    if |Fields(m)| == 1 {
      if IsText(m, utf8) {
        OneRoundTrip(m, utf8);
      } else {
        TextRefused(m, utf8);
      }
    } else if |Fields(m)| >= 2 {
      ManyRoundTrip(m);
    }
  }

  lemma {:induction false} TextRefused(m: Message, utf8: Utf8)
    requires !IsText(m, utf8)
    ensures ReadOne(Tag(m), Fields(m)[0], utf8) == Err(InvalidString)
  {
  }
}
