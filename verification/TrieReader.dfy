/** Reading a trie with nothing but its root hash and the strings that were hashed. */
module TrieReader {
  import opened Primitives
  import opened Rlp
  import opened Trie
  import opened TrieCanonical
  import opened TrieHash
  import opened TrieCommitment

  /** The hashed strings under their hashes. */
  type Database = map<B256, ByteString>

  datatype Reading = Absent | Present(value: ByteString) | Malformed

  /**
   * The value at a path below a node, read after Appendix D of the Yellow Paper: two items are a hex-prefix path with
   * the value of a leaf or the reference of an extension, seventeen are the references of a branch and its value.
   */
  function ReadNode(db: Database, item: RlpItem, path: Path): (r: Reading)
    decreases |path|, 0
  {
    if item.Bytes? then Malformed
    else if |item.items| == 2 then
      if item.items[0].List? || item.items[0].data == [] then Malformed
      else
        var (nibbles, isLeaf) := HpRead(item.items[0].data);
        if isLeaf then
          if item.items[1].List? then Malformed else if nibbles == path then Present(item.items[1].data) else Absent
        else if nibbles == [] then Malformed
        else if nibbles <= path then ReadReference(db, item.items[1], path[|nibbles|..])
        else Absent
    else if |item.items| == 17 then
      if path != [] then ReadReference(db, item.items[path[0]], path[1..])
      else if item.items[16].List? then Malformed
      else if item.items[16].data == [] then Absent
      else Present(item.items[16].data)
    else Malformed
  }

  /** Nodes shorter than 32 bytes stand in place; the others are to be looked up under their hash. */
  function ReadReference(db: Database, item: RlpItem, path: Path): (r: Reading)
    decreases |path|, 1
  {
    if item.List? then
      if |Encoding(item)| < 32 then ReadNode(db, item, path) else Malformed
    else if item.data == [] then Absent
    else if |item.data| == 32 && item.data in db && |db[item.data]| >= 32 then
      var node := Decoded(db[item.data]);
      if node.Ok? && node.value.rest == [] then ReadNode(db, node.value.item, path) else Malformed
    else Malformed
  }

  /** The value at a path of the trie with this root hash; the empty trie is the hash of the empty string's encoding. */
  function ReadTrie(db: Database, root: B256, path: Path): (r: Reading) {
    if root !in db then Malformed
    else if db[root] == [0x80] then Absent
    else
      var node := Decoded(db[root]);
      if node.Ok? && node.value.rest == [] then ReadNode(db, node.value.item, path) else Malformed
  }

  function AsReading(v: Option<ByteString>): Reading {
    if v.Some? then Present(v.value) else Absent
  }

  /** The database returns every one of these strings for its hash. */
  ghost predicate Serves(keccak: Keccak, db: Database, strings: set<ByteString>) {
    forall x :: x in strings ==> keccak(x) in db && db[keccak(x)] == x
  }

  lemma {:induction false} NodeDecodes(keccak: Keccak, node: TrieNode)
    requires Shaped(node) && Bounded(node)
    ensures Decoded(NodeBytes(keccak, node)) == Ok(Decoding(NodeItem(keccak, node), []))
  {
    hide Encoding, Decoded, NodeItem;
    NodeFits(keccak, node);
    RoundTrip(NodeItem(keccak, node), []);
    assert NodeBytes(keccak, node) + [] == NodeBytes(keccak, node);
  }

  lemma {:induction false} ReferenceReads(keccak: Keccak, db: Database, node: TrieNode, d: nat, path: Path)
    requires Canonical(node, d) && Shaped(node) && Bounded(node) && Serves(keccak, db, HashedRef(keccak, node))
    ensures ReadReference(db, RefItem(keccak, node), path) == AsReading(Lookup(node, path))
    decreases node, 1
  {
    hide Encoding, Decoded, NodeItem, Lookup, Canonical, Bounded, Shaped, ReadNode, HashedBelow;
    if |NodeBytes(keccak, node)| < 32 {
      InlineHasNoHashes(keccak, node);
    } else {
      assert NodeBytes(keccak, node) in HashedRef(keccak, node);
      NodeDecodes(keccak, node);
    }
    NodeReads(keccak, db, node, d, path);
  }

  /** Reading a node finds exactly what the trie below it holds. */
  lemma {:induction false} NodeReads(keccak: Keccak, db: Database, node: TrieNode, d: nat, path: Path)
    requires Canonical(node, d) && Shaped(node) && Bounded(node) && Serves(keccak, db, HashedBelow(keccak, node))
    ensures ReadNode(db, NodeItem(keccak, node), path) == AsReading(Lookup(node, path))
    decreases node, 0
  {
    hide Encoding, Hp, HpRead, ReadReference, RefItem, HashedRef;
    var items := NodeItem(keccak, node).items;
    match node
    case Leaf(remaining, _) =>
      HpRoundTrip(remaining, true);
    case Extension(shared, child) =>
      HpRoundTrip(shared, false);
      if shared <= path {
        ReferenceReads(keccak, db, child, d - |shared|, path[|shared|..]);
      }
    case Branch(children, _) =>
      if path != [] {
        var slot := children[path[0]];
        assert items[path[0]] == SlotItem(keccak, slot);
        if slot.Some? {
          ReferenceReads(keccak, db, slot.value, d - 1, path[1..]);
        } else {
          NothingThere(db, path[1..]);
        }
      }
  }

  lemma {:induction false} NothingThere(db: Database, path: Path)
    ensures ReadReference(db, Bytes([]), path) == Absent
  {
  }

  /**
   * Whoever has the root hash and the hashed strings under their hashes reads, at every path, exactly what the trie
   * holds there: paths, values, node kinds and references all stand where the Yellow Paper puts them.
   */
  lemma {:induction false} TrieReads(keccak: Keccak, db: Database, slot: Slot, d: nat, path: Path)
    requires SlotCanonical(slot, d) && SlotShaped(slot) && SlotBounded(slot)
    requires Serves(keccak, db, HashedFor(keccak, slot))
    ensures ReadTrie(db, RootHash(keccak, slot), path) == AsReading(Find(slot, path))
  {
    hide Encoding, Decoded, NodeItem, Lookup, Canonical, Bounded, Shaped, ReadNode, HashedBelow;
    assert RootBytes(keccak, slot) in HashedFor(keccak, slot);
    NotEmptyRoot(keccak, slot);
    if slot.Some? {
      NodeDecodes(keccak, slot.value);
      NodeReads(keccak, db, slot.value, d, path);
    }
  }

  /** There is such a database unless two of the hashed strings have one hash. */
  lemma {:induction false} DatabaseExists(keccak: Keccak, strings: set<ByteString>) returns (db: Database)
    requires !Collision(keccak, strings, strings)
    ensures Serves(keccak, db, strings)
    decreases |strings|
  {
    if strings == {} {
      db := map[];
    } else {
      var x :| x in strings;
      var fewer := strings - {x};
      if Collision(keccak, fewer, fewer) {
        CollisionGrows(keccak, fewer, fewer, strings, strings);
      }
      db := DatabaseExists(keccak, fewer);
      db := db[keccak(x) := x];
    }
  }
}
