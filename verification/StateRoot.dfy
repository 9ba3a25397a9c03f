/** The state root of an account map. */
module StateRoot {
  import opened Primitives
  import opened BigEndian
  import opened Buffers
  import opened Rlp
  import opened Trie
  import opened TrieCanonical
  import opened TrieContents
  import opened TrieHash
  import opened TrieCommitment
  import opened MerkleTrie
  import opened ChainTypes

  /** Integers are encoded without leading zeros. */
  function UintItem(n: nat): RlpItem {
    Bytes(ToBytes(n))
  }

  /** The storage root is a constant placeholder. */
  function AccountItem(account: Account): RlpItem {
    List([UintItem(account.nonce), UintItem(account.balance), Bytes(Zeros(32)), Bytes(account.codeHash)])
  }

  function AccountBytes(account: Account): ByteString {
    Encoding(AccountItem(account))
  }

  lemma {:induction false} UintShort(n: u128)
    ensures |Encoding(UintItem(n))| <= 33
  {
    hide ToBytes;
    U128Width(n);
    BytesLen(ToBytes(n));
  }

  lemma {:induction false} AccountFits(account: Account)
    ensures |AccountBytes(account)| <= 150
    ensures Fits(AccountItem(account))
  {
    hide Encoding, Payload;
    UintShort(account.nonce);
    UintShort(account.balance);
    BytesLen(Zeros(32));
    BytesLen(account.codeHash);
    var items := AccountItem(account).items;
    ShortItems(items);
    ListLen(items);
  }

  lemma {:induction false} ListLen(items: seq<RlpItem>)
    requires |Payload(items)| < U64_LIMIT
    ensures |Encoding(List(items))| <= 9 + |Payload(items)|
  {
    PrefixAtMost9(0xc0, |Payload(items)|);
  }

  /** An account is determined by its leaf value. */
  lemma {:induction false} AccountBytesInjective(a: Account, b: Account)
    requires AccountBytes(a) == AccountBytes(b)
    ensures a == b
  {
    hide Encoding, ToBytes;
    AccountFits(a);
    EncodingInjective(AccountItem(a), AccountItem(b));
    var items, items' := AccountItem(a).items, AccountItem(b).items;
    assert items[0] == items'[0] && items[1] == items'[1] && items[3] == items'[3];
    ToBytesInjective(a.nonce, b.nonce);
    ToBytesInjective(a.balance, b.balance);
  }

  // ---------- The account map as trie contents ----------

  lemma {:induction false} PackNibbles(a: ByteString)
    ensures Packed(Nibbles(a)) == a
  {
    UnpackPacked(Nibbles(a));
    NibblesInjective(Packed(Nibbles(a)), a);
  }

  function AccountAt(accounts: Accounts, p: Path): Option<ByteString> {
    if |p| == 40 && Packed(p) in accounts then Some(AccountBytes(accounts[Packed(p)])) else None
  }

  /** Addresses and 40-nibble paths correspond one to one. */
  lemma {:induction false} PathsAreAddresses()
    ensures forall a: Address {:trigger Nibbles(a)} :: |Nibbles(a)| == 40 && Packed(Nibbles(a)) == a
    ensures forall p: Path {:trigger Packed(p)} :: |p| == 40 ==> |Packed(p)| == 20 && Nibbles(Packed(p)) == p
  {
    forall a: Address ensures |Nibbles(a)| == 40 && Packed(Nibbles(a)) == a {
      PackNibbles(a);
    }
    forall p: Path | |p| == 40 ensures |Packed(p)| == 20 && Nibbles(Packed(p)) == p {
      UnpackPacked(p);
    }
  }

  function KeyPaths(accounts: Accounts): (keys: set<Path>)
    ensures forall p :: p in keys <==> |p| == 40 && Packed(p) in accounts
  {
    PathsAreAddresses();
    set a | a in accounts :: Nibbles(a)
  }

  function AccountContents(accounts: Accounts): (m: Contents)
    ensures KeysOfLength(m, 40)
    ensures forall p :: Get(m, p) == AccountAt(accounts, p)
  {
    map p | p in KeyPaths(accounts) :: AccountBytes(accounts[Packed(p)])
  }

  /** The trie of an account map, independent of any insertion order. */
  ghost function StateTrie(accounts: Accounts): Slot {
    Composed(AccountContents(accounts), 40)
  }

  lemma {:induction false} StateTrieRepresents(accounts: Accounts)
    ensures Represents(StateTrie(accounts), AccountContents(accounts), 40)
    ensures SlotBounded(StateTrie(accounts))
  {
    var d := |Zeros(40)|;
    ComposedRepresents(AccountContents(accounts), d);
    hide Composed, AccountContents, AccountBytes, Packed, Bounded;
    forall p | p in AccountContents(accounts) ensures |AccountContents(accounts)[p]| < MAX_LEN {
      assert Get(AccountContents(accounts), p) == AccountAt(accounts, p);
      AccountFits(accounts[Packed(p)]);
    }
    ShortContentsBounded(StateTrie(accounts), AccountContents(accounts), d);
  }

  lemma {:induction false} ShortContentsBounded(slot: Slot, m: Contents, d: nat)
    requires Represents(slot, m, d) && d < MAX_LEN
    requires forall p :: p in m ==> |m[p]| < MAX_LEN
    ensures SlotBounded(slot)
  {
    if slot.Some? {
      forall p | Lookup(slot.value, p).Some? ensures |Lookup(slot.value, p).value| < MAX_LEN {
        assert Find(slot, p) == Get(m, p);
      }
      ShortValuesBounded(slot.value, d);
    }
  }

  lemma {:induction false} ShortValuesBounded(node: TrieNode, d: nat)
    requires Canonical(node, d) && Shaped(node) && d < MAX_LEN
    requires forall p :: Lookup(node, p).Some? ==> |Lookup(node, p).value| < MAX_LEN
    ensures Bounded(node)
    decreases node
  {
    match node
    case Leaf(remaining, v) =>
      assert Lookup(node, remaining) == Some(v);
    case Extension(shared, child) =>
      forall q | Lookup(child, q).Some? ensures |Lookup(child, q).value| < MAX_LEN {
        assert (shared + q)[|shared|..] == q;
        assert Lookup(node, shared + q) == Lookup(child, q);
      }
      ShortValuesBounded(child, d - |shared|);
    case Branch(children, _) =>
      forall i | 0 <= i < 16 && children[i].Some? ensures Bounded(children[i].value) {
        var child := children[i].value;
        forall q | Lookup(child, q).Some? ensures |Lookup(child, q).value| < MAX_LEN {
          var p := [i as nibble] + q;
          assert p[1..] == q;
          assert Lookup(node, p) == Lookup(child, q);
        }
        ShortValuesBounded(child, d - 1);
      }
  }

  ghost function StateRootOf(keccak: Keccak, accounts: Accounts): B256 {
    StateTrieRepresents(accounts);
    RootHash(keccak, StateTrie(accounts))
  }

  // ---------- The computation, in whatever order the map is iterated ----------

  lemma {:induction false} AccountContentsUpdate(accounts: Accounts, a: Address, account: Account)
    ensures AccountContents(accounts[a := account]) == AccountContents(accounts)[Nibbles(a) := AccountBytes(account)]
  {
    var m, m' := AccountContents(accounts)[Nibbles(a) := AccountBytes(account)], AccountContents(accounts[a := account]);
    PackNibbles(a);
    forall p ensures Get(m, p) == Get(m', p) {
      assert Get(AccountContents(accounts), p) == AccountAt(accounts, p);
      assert Get(m', p) == AccountAt(accounts[a := account], p);
      if |p| == 40 && Packed(p) == a {
        UnpackPacked(p);
      }
    }
    SameGets(m, m');
  }

  lemma {:induction false} SameGets(m: Contents, m': Contents)
    requires forall p :: Get(m, p) == Get(m', p)
    ensures m == m'
  {
    forall p ensures (p in m <==> p in m') && (p in m ==> m[p] == m'[p]) {
      assert Get(m, p) == Get(m', p);
    }
  }

  lemma {:induction false} EmptyRepresents()
    ensures Represents(None, AccountContents(map[]), 40)
  {
    SameGets(AccountContents(map[]), map[]);
  }

  method ComputeStateRoot(keccak: Keccak, accounts: Accounts) returns (h: B256)
    ensures h == StateRootOf(keccak, accounts)
  {
    hide Composed, AccountContents, Encoding, Lookup, Packed, Nibbles, Canonical, Bounded, Inserted, RootHash;
    var trie := new MerkleTrie();
    var todo := accounts.Keys;
    ghost var done: Accounts := map[];
    EmptyRepresents();
    while todo != {}
      invariant fresh(trie) && trie.Valid()
      invariant todo <= accounts.Keys
      invariant done == map a | a in accounts && a !in todo :: accounts[a]
      invariant Represents(trie.root, AccountContents(done), 40)
      decreases |todo|
    {
      var address :| address in todo;
      var info := accounts[address];
      var buffer := new BytesMut();
      AccountFits(info);
      Encode(AccountItem(info), buffer);
      assert buffer.data == AccountBytes(info);
      InsertRepresents(trie.root, AccountContents(done), Nibbles(address), buffer.data);
      AccountContentsUpdate(done, address, info);
      var inserted := trie.Insert(address, buffer.data);
      todo := todo - {address};
      done := done[address := info];
    }
    assert done == accounts;
    StateTrieRepresents(accounts);
    RepresentsUnique(trie.root, StateTrie(accounts), AccountContents(accounts), 40);
    h := trie.ComputeRootHash(keccak);
  }

  /** Equal state roots mean equal account maps, unless two distinct strings hashed while
      computing the two roots have the same hash. */
  lemma {:induction false} StateRootCommits(keccak: Keccak, accounts: Accounts, accounts': Accounts)
    requires StateRootOf(keccak, accounts) == StateRootOf(keccak, accounts')
    ensures SlotShaped(StateTrie(accounts)) && SlotShaped(StateTrie(accounts'))
    ensures accounts == accounts'
            || Collision(keccak, HashedFor(keccak, StateTrie(accounts)), HashedFor(keccak, StateTrie(accounts')))
  {
    hide Composed;
    StateTrieRepresents(accounts);
    StateTrieRepresents(accounts');
    var a, b := StateTrie(accounts), StateTrie(accounts');
    RootCommits(keccak, a, b, 40);
    if a == b {
      RepresentedMapUnique(a, AccountContents(accounts), AccountContents(accounts'), 40);
      SameContentsSameAccounts(accounts, accounts');
    }
  }

  lemma {:induction false} SameContentsSameAccounts(accounts: Accounts, accounts': Accounts)
    requires AccountContents(accounts) == AccountContents(accounts')
    ensures accounts == accounts'
  {
    forall a: Address ensures (a in accounts <==> a in accounts') && (a in accounts ==> accounts[a] == accounts'[a]) {
      PackNibbles(a);
      var p := Nibbles(a);
      assert AccountAt(accounts, p) == Get(AccountContents(accounts), p) == AccountAt(accounts', p);
      if a in accounts {
        AccountBytesInjective(accounts[a], accounts'[a]);
      }
    }
  }
}
