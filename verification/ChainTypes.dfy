/** Accounts, transactions, headers and blocks. */
module ChainTypes {
  import opened Primitives

  datatype Account = Account(balance: u128, nonce: u64, codeHash: B256)

  datatype AccessListItem = AccessListItem(address: Address, storageKeys: seq<B256>)

  datatype Transaction =
    | Legacy(nonce: u64, gasPrice: u128, gasLimit: u64, to: Option<Address>, value: u128, data: ByteString)
    | Eip1559(nonce: u64, maxPriorityFeePerGas: u128, maxFeePerGas: u128, gasLimit: u64,
              to: Option<Address>, value: u128, data: ByteString, accessList: seq<AccessListItem>)
    | Eip4844(nonce: u64, maxPriorityFeePerGas: u128, maxFeePerGas: u128, maxFeePerBlobGas: u128, gasLimit: u64,
              to: Option<Address>, value: u128, data: ByteString, accessList: seq<AccessListItem>,
              blobVersionedHashes: seq<B256>)

  datatype SignedTransaction = SignedTransaction(transaction: Transaction, v: u64, r: B256, s: B256)

  datatype Header = Header(
    parentHash: B256, beneficiary: Address, stateRoot: B256, transactionsRoot: B256,
    gasLimit: u64, gasUsed: u64, timestamp: u64, number: u64)

  datatype Block = Block(header: Header, transactions: seq<SignedTransaction>)

  datatype ChainHead = ChainHead(number: nat, hash: B256, totalDifficulty: nat)

  type Accounts = map<Address, Account>
}
