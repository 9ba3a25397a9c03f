/** Reading accounts back from the state trie, and from nothing but its root and the strings hashed for it. */
module StateReader {
  import opened Primitives
  import opened Rlp
  import opened ChainTypes
  import opened Trie
  import opened TrieContents
  import opened TrieCommitment
  import opened TrieReader
  import opened StateRoot
  import opened TypedRlp

  datatype StateLeaf = StateLeaf(nonce: u64, balance: u128, storageRoot: B256, codeHash: B256)

  /** An account after section 4.1 of the Yellow Paper: nonce, balance, storage root and code hash, in this order. */
  function ReadLeaf(bytes: ByteString): (r: Read<StateLeaf>) {
    var d :- Decoded(bytes);
    if d.rest != [] then Err(InvalidLength(|d.rest|))
    else if d.item.Bytes? then Err(UnexpectedType(0x80))
    else if |d.item.items| != 4 then Err(InvalidLength(|d.item.items|))
    else
      var nonce :- ReadU64(d.item.items[0]);
      var balance :- ReadU128(d.item.items[1]);
      var storageRoot :- ReadHash(d.item.items[2]);
      var codeHash :- ReadHash(d.item.items[3]);
      Ok(StateLeaf(nonce, balance, storageRoot, codeHash))
  }

  /** What is hashed for an account; storage is out of the node's scope, and its root a placeholder. */
  function LeafOf(account: Account): StateLeaf {
    StateLeaf(account.nonce, account.balance, Zeros(32), account.codeHash)
  }

  lemma {:induction false} LeafReads(account: Account)
    ensures ReadLeaf(AccountBytes(account)) == Ok(LeafOf(account))
  {
    hide Encoding, Decoded, ReadU64, ReadU128, UintItem;
    AccountFits(account);
    RoundTrip(AccountItem(account), []);
    assert AccountBytes(account) + [] == AccountBytes(account);
    U64RoundTrip(account.nonce);
    U128RoundTrip(account.balance);
  }

  /** The half bytes of an address, high half first. */
  predicate IsPathOf(path: Path, a: Address) {
    |path| == 40 && forall i :: 0 <= i < 20 ==> path[2 * i] == a[i] / 16 && path[2 * i + 1] == a[i] % 16
  }

  lemma {:induction false} PathIsNibbles(path: Path, a: Address)
    requires IsPathOf(path, a)
    ensures path == Nibbles(a)
  {
    hide Nibbles;
    forall j | 0 <= j < 40 ensures path[j] == Nibbles(a)[j] {
      NibblesAt(a, j / 2);
      assert j == 2 * (j / 2) || j == 2 * (j / 2) + 1;
    }
  }

  /** The state trie holds, at the path of every address, its account, or nothing if it has none. */
  lemma {:induction false} StateTrieReads(accounts: Accounts, a: Address, path: Path)
    requires IsPathOf(path, a)
    ensures SlotShaped(StateTrie(accounts))
    ensures var v := Find(StateTrie(accounts), path);
            if a in accounts then v.Some? && ReadLeaf(v.value) == Ok(LeafOf(accounts[a])) else v.None?
  {
    hide Composed, AccountContents, AccountBytes, ReadLeaf, Nibbles, IsPathOf;
    StateTrieRepresents(accounts);
    PathIsNibbles(path, a);
    PackNibbles(a);
    assert Get(AccountContents(accounts), path) == AccountAt(accounts, path);
    if a in accounts {
      LeafReads(accounts[a]);
    }
  }

  /** The strings hashed on the way to a state root. */
  ghost function HashedStrings(keccak: Keccak, accounts: Accounts): set<ByteString> {
    StateTrieRepresents(accounts);
    HashedFor(keccak, StateTrie(accounts))
  }

  /**
   * The state root is enough to read the state by: with the hashed strings at hand under their hashes, reading at the
   * path of an address gives its nonce, balance and code hash, or that it has no account.
   */
  lemma {:induction false} StateReads(keccak: Keccak, db: Database, accounts: Accounts, a: Address, path: Path)
    requires IsPathOf(path, a) && Serves(keccak, db, HashedStrings(keccak, accounts))
    ensures var r := ReadTrie(db, StateRootOf(keccak, accounts), path);
            if a in accounts then r.Present? && ReadLeaf(r.value) == Ok(LeafOf(accounts[a])) else r == Absent
  {
    hide Composed, ReadLeaf, ReadTrie, Find, HashedFor, IsPathOf, AccountContents;
    StateTrieRepresents(accounts);
    StateTrieReads(accounts, a, path);
    TrieReads(keccak, db, StateTrie(accounts), 40, path);
  }
}
