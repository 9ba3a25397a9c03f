/** Reading typed values back from RLP items, and the round trips with their encoders. */
module TypedRlp {
  import opened Primitives
  import opened BigEndian
  import opened Rlp
  import opened ChainTypes
  import opened StateRoot
  import opened Hashing

  type Read<T> = Result<T, RlpError>

  // ---------- Scalars ----------

  function ReadU64(item: RlpItem): (r: Read<u64>) {
    match item
    case Bytes(x) =>
      if |x| > 8 then Err(InvalidLength(|x|))
      else
        Narrow(x, 8);
        Ok(FromBytes(x))
    case List(_) => Err(UnexpectedType(0xc0))
  }

  function ReadU128(item: RlpItem): (r: Read<u128>) {
    match item
    case Bytes(x) =>
      if |x| > 16 then Err(InvalidLength(|x|))
      else
        Narrow(x, 16);
        Ok(FromBytes(x))
    case List(_) => Err(UnexpectedType(0xc0))
  }

  lemma {:induction false} Pow256Grows(m: nat, n: nat)
    requires m <= n
    ensures Pow256(m) <= Pow256(n)
  {
    if m < n {
      Pow256Grows(m, n - 1);
    }
  }

  lemma {:induction false} Narrow(x: ByteString, width: nat)
    requires |x| <= width && (width == 8 || width == 16)
    ensures FromBytes(x) < if width == 8 then U64_LIMIT else U128_LIMIT
  {
    FromBytesBound(x);
    Pow256Grows(|x|, width);
    Pow256Widths();
  }

  function ReadBytes(item: RlpItem): (r: Read<ByteString>) {
    if item.Bytes? then Ok(item.data) else Err(UnexpectedType(0xc0))
  }

  function ReadHash(item: RlpItem): (r: Read<B256>) {
    if item.List? then Err(UnexpectedType(0xc0))
    else if |item.data| != 32 then Err(InvalidLength(|item.data|))
    else Ok(item.data)
  }

  function ReadAddress(item: RlpItem): (r: Read<Address>) {
    if item.List? then Err(UnexpectedType(0xc0))
    else if |item.data| != 20 then Err(InvalidLength(|item.data|))
    else Ok(item.data)
  }

  function ReadTo(item: RlpItem): (r: Read<Option<Address>>) {
    if item.List? then Err(UnexpectedType(0xc0))
    else if item.data == [] then Ok(None)
    else
      var address :- ReadAddress(item);
      Ok(Some(address))
  }

  lemma {:induction false} U64RoundTrip(n: u64)
    ensures ReadU64(UintItem(n)) == Ok(n)
  {
    U64Width(n);
    FromToBytes(n);
  }

  lemma {:induction false} U128RoundTrip(n: u128)
    ensures ReadU128(UintItem(n)) == Ok(n)
  {
    U128Width(n);
    FromToBytes(n);
  }

  lemma {:induction false} ToRoundTrip(to: Option<Address>)
    ensures ReadTo(ToItem(to)) == Ok(to)
  {
  }

  // ---------- Lists ----------

  /** Reading every item of a list; the first failure is the result. */
  function ReadAll<T>(items: seq<RlpItem>, read: RlpItem -> Read<T>): (r: Read<seq<T>>) {
    if items == [] then Ok([])
    else
      var front :- ReadAll(items[..|items| - 1], read);
      var last :- read(items[|items| - 1]);
      Ok(front + [last])
  }

  function ReadListOf<T>(item: RlpItem, read: RlpItem -> Read<T>): (r: Read<seq<T>>) {
    if item.Bytes? then Err(UnexpectedType(0x80)) else ReadAll(item.items, read)
  }

  method ReadItems<T>(items: seq<RlpItem>, read: RlpItem -> Read<T>) returns (r: Read<seq<T>>)
    ensures r == ReadAll(items, read)
  {
    var values: seq<T> := [];
    for i := 0 to |items|
      invariant ReadAll(items[..i], read) == Ok(values)
    {
      assert items[..i + 1][..i] == items[..i];
      var value := read(items[i]);
      if value.Err? {
        FirstReadErrorWins(items, read, i + 1);
        return Err(value.error);
      }
      values := values + [value.value];
    }
    assert items[..|items|] == items;
    return Ok(values);
  }

  lemma {:induction false} FirstReadErrorWins<T>(items: seq<RlpItem>, read: RlpItem -> Read<T>, k: nat)
    requires k <= |items| && ReadAll(items[..k], read).Err?
    ensures ReadAll(items, read) == ReadAll(items[..k], read)
    decreases |items|
  {
    if k < |items| {
      var front := items[..|items| - 1];
      assert front[..k] == items[..k];
      FirstReadErrorWins(front, read, k);
    } else {
      assert items[..k] == items;
    }
  }

  lemma {:induction false} ReadAllRoundTrip<T>(items: seq<RlpItem>, read: RlpItem -> Read<T>, values: seq<T>)
    requires |items| == |values| && forall i :: 0 <= i < |items| ==> read(items[i]) == Ok(values[i])
    ensures ReadAll(items, read) == Ok(values)
    decreases |items|
  {
    if items != [] {
      ReadAllRoundTrip(items[..|items| - 1], read, values[..|values| - 1]);
      assert values == values[..|values| - 1] + [values[|values| - 1]];
    }
  }

  function ReadHashes(item: RlpItem): (r: Read<seq<B256>>) {
    ReadListOf(item, ReadHash)
  }

  function ReadAccess(item: RlpItem): (r: Read<AccessListItem>) {
    if item.Bytes? then Err(UnexpectedType(0x80))
    else if |item.items| != 2 then Err(InvalidLength(|item.items|))
    else
      var address :- ReadAddress(item.items[0]);
      var keys :- ReadHashes(item.items[1]);
      Ok(AccessListItem(address, keys))
  }

  function ReadAccessList(item: RlpItem): (r: Read<seq<AccessListItem>>) {
    ReadListOf(item, ReadAccess)
  }

  lemma {:induction false} HashesRoundTrip(hashes: seq<B256>)
    ensures ReadHashes(List(HashItems(hashes))) == Ok(hashes)
  {
    ReadAllRoundTrip(HashItems(hashes), ReadHash, hashes);
  }

  lemma {:induction false} AccessListRoundTrip(list: seq<AccessListItem>)
    ensures ReadAccessList(List(AccessItems(list))) == Ok(list)
  {
    var items := AccessItems(list);
    forall i | 0 <= i < |items| ensures ReadAccess(items[i]) == Ok(list[i]) {
      HashesRoundTrip(list[i].storageKeys);
    }
    ReadAllRoundTrip(items, ReadAccess, list);
  }

  // ---------- Transactions, headers and blocks ----------

  /** The tagged layout used between peers; it differs from the wire layout that is hashed. */
  function TransactionItem(tx: Transaction): RlpItem {
    match tx
    case Legacy(nonce, gasPrice, gasLimit, to, value, data) =>
      List([UintItem(0), UintItem(nonce), UintItem(gasLimit), ToItem(to), UintItem(value), Bytes(data),
            UintItem(gasPrice)])
    case Eip1559(nonce, maxPriority, maxFee, gasLimit, to, value, data, accessList) =>
      List([UintItem(2), UintItem(nonce), UintItem(gasLimit), ToItem(to), UintItem(value), Bytes(data),
            UintItem(maxFee), UintItem(maxPriority), List(AccessItems(accessList))])
    case Eip4844(nonce, maxPriority, maxFee, maxBlobFee, gasLimit, to, value, data, accessList, blobHashes) =>
      List([UintItem(3), UintItem(nonce), UintItem(gasLimit), ToItem(to), UintItem(value), Bytes(data),
            UintItem(maxFee), UintItem(maxPriority), List(AccessItems(accessList)), UintItem(maxBlobFee),
            List(HashItems(blobHashes))])
  }

  function ReadTransaction(item: RlpItem): (r: Read<Transaction>) {
    if item.Bytes? then Err(UnexpectedType(0x80))
    else
      var x := item.items;
      if x == [] then Err(InvalidLength(0))
      else
        var tag :- ReadU64(x[0]);
        if tag == 0 then ReadLegacy(x)
        else if tag == 2 then ReadEip1559(x)
        else if tag == 3 then ReadEip4844(x)
        else Err(UnexpectedType(0xff))
  }

  function ReadLegacy(x: seq<RlpItem>): (r: Read<Transaction>) {
    if |x| != 7 then Err(InvalidLength(|x|))
    else
      var nonce :- ReadU64(x[1]);
      var gasLimit :- ReadU64(x[2]);
      var to :- ReadTo(x[3]);
      var value :- ReadU128(x[4]);
      var data :- ReadBytes(x[5]);
      var gasPrice :- ReadU128(x[6]);
      Ok(Legacy(nonce, gasPrice, gasLimit, to, value, data))
  }

  function ReadEip1559(x: seq<RlpItem>): (r: Read<Transaction>) {
    if |x| != 9 then Err(InvalidLength(|x|))
    else
      var nonce :- ReadU64(x[1]);
      var gasLimit :- ReadU64(x[2]);
      var to :- ReadTo(x[3]);
      var value :- ReadU128(x[4]);
      var data :- ReadBytes(x[5]);
      var maxFee :- ReadU128(x[6]);
      var maxPriority :- ReadU128(x[7]);
      var accessList :- ReadAccessList(x[8]);
      Ok(Eip1559(nonce, maxPriority, maxFee, gasLimit, to, value, data, accessList))
  }

  function ReadEip4844(x: seq<RlpItem>): (r: Read<Transaction>) {
    if |x| != 11 then Err(InvalidLength(|x|))
    else
      var nonce :- ReadU64(x[1]);
      var gasLimit :- ReadU64(x[2]);
      var to :- ReadTo(x[3]);
      var value :- ReadU128(x[4]);
      var data :- ReadBytes(x[5]);
      var maxFee :- ReadU128(x[6]);
      var maxPriority :- ReadU128(x[7]);
      var accessList :- ReadAccessList(x[8]);
      var maxBlobFee :- ReadU128(x[9]);
      var blobHashes :- ReadHashes(x[10]);
      Ok(Eip4844(nonce, maxPriority, maxFee, maxBlobFee, gasLimit, to, value, data, accessList, blobHashes))
  }

  lemma {:induction false} TransactionRoundTrip(tx: Transaction)
    ensures ReadTransaction(TransactionItem(tx)) == Ok(tx)
  {
    hide ReadU64, ReadU128, ReadTo, ReadAccessList, ReadHashes, UintItem, ToItem;
    U64RoundTrip(tx.nonce);
    U64RoundTrip(tx.gasLimit);
    ToRoundTrip(tx.to);
    U128RoundTrip(tx.value);
    match tx
    case Legacy(_, gasPrice, _, _, _, _) =>
      U64RoundTrip(0);
      U128RoundTrip(gasPrice);
    case Eip1559(_, maxPriority, maxFee, _, _, _, _, accessList) =>
      U64RoundTrip(2);
      U128RoundTrip(maxPriority);
      U128RoundTrip(maxFee);
      AccessListRoundTrip(accessList);
    case Eip4844(_, maxPriority, maxFee, maxBlobFee, _, _, _, _, accessList, blobHashes) =>
      U64RoundTrip(3);
      U128RoundTrip(maxPriority);
      U128RoundTrip(maxFee);
      U128RoundTrip(maxBlobFee);
      AccessListRoundTrip(accessList);
      HashesRoundTrip(blobHashes);
  }

  function ReadHeader(item: RlpItem): (r: Read<Header>) {
    if item.Bytes? then Err(UnexpectedType(0x80))
    else
      var x := item.items;
      if |x| != 8 then Err(InvalidLength(|x|))
      else
        var parentHash :- ReadHash(x[0]);
        var beneficiary :- ReadAddress(x[1]);
        var stateRoot :- ReadHash(x[2]);
        var transactionsRoot :- ReadHash(x[3]);
        var gasLimit :- ReadU64(x[4]);
        var gasUsed :- ReadU64(x[5]);
        var timestamp :- ReadU64(x[6]);
        var number :- ReadU64(x[7]);
        Ok(Header(parentHash, beneficiary, stateRoot, transactionsRoot, gasLimit, gasUsed, timestamp, number))
  }

  lemma {:induction false} HeaderRoundTrip(h: Header)
    ensures ReadHeader(HeaderItem(h)) == Ok(h)
  {
    hide ReadU64, UintItem;
    U64RoundTrip(h.gasLimit);
    U64RoundTrip(h.gasUsed);
    U64RoundTrip(h.timestamp);
    U64RoundTrip(h.number);
  }

  function SignedItem(signed: SignedTransaction): RlpItem {
    List([TransactionItem(signed.transaction), UintItem(signed.v), Bytes(signed.r), Bytes(signed.s)])
  }

  function ReadSigned(item: RlpItem): (r: Read<SignedTransaction>) {
    if item.Bytes? then Err(UnexpectedType(0x80))
    else
      var x := item.items;
      if |x| != 4 then Err(InvalidLength(|x|))
      else
        var transaction :- ReadTransaction(x[0]);
        var v :- ReadU64(x[1]);
        var r :- ReadHash(x[2]);
        var s :- ReadHash(x[3]);
        Ok(SignedTransaction(transaction, v, r, s))
  }

  lemma {:induction false} SignedRoundTrip(signed: SignedTransaction)
    ensures ReadSigned(SignedItem(signed)) == Ok(signed)
  {
    hide ReadTransaction, TransactionItem, ReadU64, UintItem;
    TransactionRoundTrip(signed.transaction);
    U64RoundTrip(signed.v);
  }

  function SignedItems(txs: seq<SignedTransaction>): seq<RlpItem> {
    seq(|txs|, i requires 0 <= i < |txs| => SignedItem(txs[i]))
  }

  function BlockItem(block: Block): RlpItem {
    List([HeaderItem(block.header), List(SignedItems(block.transactions))])
  }

  function ReadBlock(item: RlpItem): (r: Read<Block>) {
    if item.Bytes? then Err(UnexpectedType(0x80))
    else if |item.items| != 2 then Err(InvalidLength(|item.items|))
    else
      var header :- ReadHeader(item.items[0]);
      var transactions :- ReadListOf(item.items[1], ReadSigned);
      Ok(Block(header, transactions))
  }

  lemma {:induction false} BlockRoundTrip(block: Block)
    ensures ReadBlock(BlockItem(block)) == Ok(block)
  {
    hide ReadSigned, SignedItem, ReadHeader, HeaderItem;
    HeaderRoundTrip(block.header);
    var items := SignedItems(block.transactions);
    forall i | 0 <= i < |items| ensures ReadSigned(items[i]) == Ok(block.transactions[i]) {
      SignedRoundTrip(block.transactions[i]);
    }
    ReadAllRoundTrip(items, ReadSigned, block.transactions);
  }

  // ---------- Accounts ----------

  function StoredAccountItem(account: Account): RlpItem {
    List([UintItem(account.balance), UintItem(account.nonce), Bytes(account.codeHash)])
  }

  /** Every field is read from the first item, as the code has it. */
  function ReadAccount(item: RlpItem): (r: Read<Account>) {
    if item.Bytes? then Err(UnexpectedType(0x80))
    else
      var x := item.items;
      if |x| != 3 then Err(InvalidLength(|x|))
      else
        var balance :- ReadU128(x[0]);
        var nonce :- ReadU64(x[0]);
        var codeHash :- ReadHash(x[0]);
        Ok(Account(balance, nonce, codeHash))
  }

  /**
   * The account decoder has no successful input: one item would have to be an integer of at most eight bytes and a
   * hash of thirty-two. So no account survives the trip, and the length reported is always the balance's.
   */
  lemma {:induction false} AccountNeverDecodes(item: RlpItem, account: Account)
    ensures ReadAccount(item).Err?
    ensures ReadAccount(StoredAccountItem(account)) == Err(InvalidLength(|ToBytes(account.balance)|))
  {
    hide ToBytes, FromBytes;
    U128Width(account.balance);
  }
}
