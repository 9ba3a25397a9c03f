/** Reading back the bytes that are hashed for a signed transaction. */
module WireReader {
  import opened Primitives
  import opened BigEndian
  import opened Rlp
  import opened ChainTypes
  import opened StateRoot
  import opened Hashing
  import opened TypedRlp

  /** The fields in the order of the Yellow Paper, EIP-1559 and EIP-4844, without the chain id, which is not written. */
  function ReadLegacyWire(x: seq<RlpItem>): (r: Read<SignedTransaction>) {
    if |x| != 9 then Err(InvalidLength(|x|))
    else
      var nonce :- ReadU64(x[0]);
      var gasPrice :- ReadU128(x[1]);
      var gasLimit :- ReadU64(x[2]);
      var to :- ReadTo(x[3]);
      var value :- ReadU128(x[4]);
      var data :- ReadBytes(x[5]);
      ReadSignature(Legacy(nonce, gasPrice, gasLimit, to, value, data), x[6..])
  }

  function ReadTypedWire(tag: byte, x: seq<RlpItem>): (r: Read<SignedTransaction>) {
    if |x| != (if tag == 0x02 then 11 else 13) then Err(InvalidLength(|x|))
    else
      var nonce :- ReadU64(x[0]);
      var maxPriority :- ReadU128(x[1]);
      var maxFee :- ReadU128(x[2]);
      var gasLimit :- ReadU64(x[3]);
      var to :- ReadTo(x[4]);
      var value :- ReadU128(x[5]);
      var data :- ReadBytes(x[6]);
      var accessList :- ReadAccessList(x[7]);
      if tag == 0x02 then
        ReadSignature(Eip1559(nonce, maxPriority, maxFee, gasLimit, to, value, data, accessList), x[8..])
      else
        var maxBlobFee :- ReadU128(x[8]);
        var blobHashes :- ReadHashes(x[9]);
        var tx := Eip4844(nonce, maxPriority, maxFee, maxBlobFee, gasLimit, to, value, data, accessList, blobHashes);
        ReadSignature(tx, x[10..])
  }

  function ReadSignature(tx: Transaction, x: seq<RlpItem>): (r: Read<SignedTransaction>)
    requires |x| == 3
  {
    var v :- ReadU64(x[0]);
    var r :- ReadHash(x[1]);
    var s :- ReadHash(x[2]);
    Ok(SignedTransaction(tx, v, r, s))
  }

  function ReadList(bytes: ByteString): (r: Read<seq<RlpItem>>) {
    var d :- Decoded(bytes);
    if d.rest != [] then Err(InvalidLength(|d.rest|))
    else if d.item.Bytes? then Err(UnexpectedType(0x80))
    else Ok(d.item.items)
  }

  /** Typed transactions are told by their first byte, after EIP-2718. */
  function ReadWire(bytes: ByteString): (r: Read<SignedTransaction>) {
    if bytes == [] then Err(InputTooShort(1, 0))
    else if bytes[0] >= 0xc0 then
      var x :- ReadList(bytes);
      ReadLegacyWire(x)
    else if bytes[0] == 0x02 || bytes[0] == 0x03 then
      var x :- ReadList(bytes[1..]);
      ReadTypedWire(bytes[0], x)
    else Err(UnexpectedType(bytes[0]))
  }

  lemma {:induction false} SignatureReads(signed: SignedTransaction)
    ensures ReadSignature(signed.transaction, [UintItem(signed.v), Bytes(signed.r), Bytes(signed.s)]) == Ok(signed)
  {
    hide ReadU64, UintItem;
    U64RoundTrip(signed.v);
  }

  lemma {:induction false} LegacyReads(signed: SignedTransaction)
    requires signed.transaction.Legacy?
    ensures ReadLegacyWire(WireFields(signed)) == Ok(signed)
  {
    hide ReadU64, ReadU128, ReadTo, UintItem, ToItem, ReadSignature;
    var tx, x := signed.transaction, WireFields(signed);
    U64RoundTrip(tx.nonce);
    U128RoundTrip(tx.gasPrice);
    U64RoundTrip(tx.gasLimit);
    ToRoundTrip(tx.to);
    U128RoundTrip(tx.value);
    SignatureReads(signed);
    assert x[6..] == [UintItem(signed.v), Bytes(signed.r), Bytes(signed.s)];
  }

  lemma {:induction false} TypedReads(signed: SignedTransaction)
    requires !signed.transaction.Legacy?
    ensures ReadTypedWire(if signed.transaction.Eip1559? then 0x02 else 0x03, WireFields(signed)) == Ok(signed)
  {
    hide ReadU64, ReadU128, ReadTo, ReadAccessList, ReadHashes, UintItem, ToItem, AccessItems, HashItems, ReadSignature;
    var tx, x := signed.transaction, WireFields(signed);
    U64RoundTrip(tx.nonce);
    U128RoundTrip(tx.maxPriorityFeePerGas);
    U128RoundTrip(tx.maxFeePerGas);
    U64RoundTrip(tx.gasLimit);
    ToRoundTrip(tx.to);
    U128RoundTrip(tx.value);
    AccessListRoundTrip(tx.accessList);
    SignatureReads(signed);
    assert x[|x| - 3..] == [UintItem(signed.v), Bytes(signed.r), Bytes(signed.s)];
    if tx.Eip4844? {
      U128RoundTrip(tx.maxFeePerBlobGas);
      HashesRoundTrip(tx.blobVersionedHashes);
    }
  }

  lemma {:induction false} ListReads(items: seq<RlpItem>)
    requires Fits(List(items))
    ensures ReadList(Encoding(List(items))) == Ok(items)
    ensures Encoding(List(items))[0] >= 0xc0
  {
    RoundTrip(List(items), []);
    assert Encoding(List(items)) + [] == Encoding(List(items));
    ListStartsHigh(items);
    hide Encoding, Decoded;
  }

  lemma {:induction false} ListStartsHigh(items: seq<RlpItem>)
    requires Fits(List(items))
    ensures Encoding(List(items))[0] >= 0xc0
  {
    hide ToBytes;
    if |Payload(items)| > 55 {
      U64Width(|Payload(items)|);
    }
  }

  /** The bytes hashed for a signed transaction, of whatever kind, say every field of it. */
  lemma {:induction false} WireReads(signed: SignedTransaction)
    requires Fits(List(WireFields(signed)))
    ensures ReadWire(WireBytes(signed)) == Ok(signed)
  {
    hide Encoding, ReadList, ReadLegacyWire, ReadTypedWire, WireFields;
    ListReads(WireFields(signed));
    var bytes := WireBytes(signed);
    if signed.transaction.Legacy? {
      LegacyReads(signed);
    } else {
      TypedReads(signed);
      assert bytes[1..] == Encoding(List(WireFields(signed)));
    }
  }

  /** So a signed transaction, its kind included, is determined by the bytes that are hashed. */
  lemma {:induction false} WireBytesInjective(a: SignedTransaction, b: SignedTransaction)
    requires Fits(List(WireFields(a))) && Fits(List(WireFields(b)))
    requires WireBytes(a) == WireBytes(b)
    ensures a == b
  {
    hide WireFields, WireBytes, ReadWire;
    WireReads(a);
    WireReads(b);
  }
}
