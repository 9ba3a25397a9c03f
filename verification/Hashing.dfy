/** Header and transaction hashes over their RLP encodings. */
module Hashing {
  import opened Primitives
  import opened Rlp
  import opened ChainTypes
  import opened StateRoot

  function HeaderItem(h: Header): RlpItem {
    List([Bytes(h.parentHash), Bytes(h.beneficiary), Bytes(h.stateRoot), Bytes(h.transactionsRoot),
          UintItem(h.gasLimit), UintItem(h.gasUsed), UintItem(h.timestamp), UintItem(h.number)])
  }

  function HashHeader(keccak: Keccak, h: Header): B256 {
    keccak(Encoding(HeaderItem(h)))
  }

  function ToItem(to: Option<Address>): RlpItem {
    Bytes(if to.Some? then to.value else [])
  }

  function HashItems(hashes: seq<B256>): seq<RlpItem> {
    seq(|hashes|, i requires 0 <= i < |hashes| => Bytes(hashes[i]))
  }

  function AccessItem(a: AccessListItem): RlpItem {
    List([Bytes(a.address), List(HashItems(a.storageKeys))])
  }

  function AccessItems(list: seq<AccessListItem>): seq<RlpItem> {
    seq(|list|, i requires 0 <= i < |list| => AccessItem(list[i]))
  }

  function WireFields(signed: SignedTransaction): seq<RlpItem> {
    var signature := [UintItem(signed.v), Bytes(signed.r), Bytes(signed.s)];
    match signed.transaction
    case Legacy(nonce, gasPrice, gasLimit, to, value, data) =>
      [UintItem(nonce), UintItem(gasPrice), UintItem(gasLimit), ToItem(to), UintItem(value), Bytes(data)] + signature
    case Eip1559(nonce, maxPriority, maxFee, gasLimit, to, value, data, accessList) =>
      [UintItem(nonce), UintItem(maxPriority), UintItem(maxFee), UintItem(gasLimit), ToItem(to), UintItem(value),
       Bytes(data), List(AccessItems(accessList))] + signature
    case Eip4844(nonce, maxPriority, maxFee, maxBlobFee, gasLimit, to, value, data, accessList, blobHashes) =>
      [UintItem(nonce), UintItem(maxPriority), UintItem(maxFee), UintItem(gasLimit), ToItem(to), UintItem(value),
       Bytes(data), List(AccessItems(accessList)), UintItem(maxBlobFee), List(HashItems(blobHashes))] + signature
  }

  /** The signed transaction in its wire layout; typed transactions start with their type byte. */
  function WireBytes(signed: SignedTransaction): ByteString {
    var payload := Encoding(List(WireFields(signed)));
    match signed.transaction
    case Legacy(_, _, _, _, _, _) => payload
    case Eip1559(_, _, _, _, _, _, _, _) => [0x02] + payload
    case Eip4844(_, _, _, _, _, _, _, _, _, _) => [0x03] + payload
  }

  function TransactionHash(keccak: Keccak, signed: SignedTransaction): B256 {
    keccak(WireBytes(signed))
  }
}
