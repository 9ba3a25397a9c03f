/** The trie object: node encoding as the code performs it, insertion and the root hash. */
module MerkleTrie {
  import opened Primitives
  import opened Buffers
  import opened Rlp
  import opened Trie
  import opened TrieHash
  import opened TrieCommitment

  // ---------- Node encoding as the source performs it ----------

  datatype NodeRef = Inline(bytes: ByteString) | Hash(hash: B256)

  function NodeRefOf(keccak: Keccak, node: TrieNode): NodeRef
    requires Shaped(node)
  {
    var bytes := NodeBytes(keccak, node);
    if |bytes| < 32 then Inline(bytes) else Hash(keccak(bytes))
  }

  method EncodeNode(keccak: Keccak, node: TrieNode) returns (r: NodeRef)
    requires Shaped(node) && Bounded(node)
    ensures r == NodeRefOf(keccak, node)
    decreases node, 2
  {
    hide Encoding, NodeItem;
    var buffer := new BytesMut();
    match node {
      case Leaf(remaining, v) => EncodeLeaf(keccak, node, buffer);
      case Branch(children, v) => EncodeBranch(keccak, node, buffer);
      case Extension(shared, child) => EncodeExtension(keccak, node, buffer);
    }
    assert buffer.data == NodeBytes(keccak, node);
    if |buffer.data| < 32 {
      return Inline(buffer.data);
    }
    return Hash(keccak(buffer.data));
  }

  method EncodeLeaf(keccak: Keccak, node: TrieNode, buffer: BytesMut)
    requires node.Leaf? && Shaped(node) && Bounded(node)
    modifies buffer
    ensures buffer.data == old(buffer.data) + NodeBytes(keccak, node)
  {
    hide Encoding, Hp;
    NodeFits(keccak, node);
    var path := HpEncode(node.remaining, true);
    Encode(List([Bytes(path), Bytes(node.leafValue)]), buffer);
  }

  method EncodeExtension(keccak: Keccak, node: TrieNode, buffer: BytesMut)
    requires node.Extension? && Shaped(node) && Bounded(node)
    modifies buffer
    ensures buffer.data == old(buffer.data) + NodeBytes(keccak, node)
    decreases node, 1
  {
    NodeFits(keccak, node);
    ExtensionItem(keccak, node);
    hide Encoding, Hp, LengthPrefix, NodeItem;
    var path := HpEncode(node.shared, false);
    var ref := EncodeNode(keccak, node.child);
    match ref
    case Inline(x) =>
      InlineExtension(keccak, node);
      PutInlineExtension(path, x, buffer);
    case Hash(x) =>
      Encode(List([Bytes(path), Bytes(x)]), buffer);
  }

  method PutInlineExtension(path: ByteString, x: ByteString, buffer: BytesMut)
    requires |Encoding(Bytes(path)) + x| < U64_LIMIT
    modifies buffer
    ensures var payload := Encoding(Bytes(path)) + x;
            buffer.data == old(buffer.data) + (LengthPrefix(0xc0, |payload|) + payload)
  {
    hide Encoding, LengthPrefix;
    var encodedItems := new BytesMut();
    Encode(Bytes(path), encodedItems);
    encodedItems.PutSlice(x);
    AddListPrefix(buffer, |encodedItems.data|);
    buffer.PutSlice(encodedItems.data);
  }

  lemma {:induction false} ExtensionItem(keccak: Keccak, node: TrieNode)
    requires node.Extension? && Shaped(node)
    ensures NodeItem(keccak, node) == List([Bytes(Hp(node.shared, false)), RefItem(keccak, node.child)])
  {
  }

  /** Putting an inlined child's bytes after the path is the encoding of the two-item list. */
  lemma {:induction false} InlineExtension(keccak: Keccak, node: TrieNode)
    requires node.Extension? && Shaped(node) && Bounded(node) && |NodeBytes(keccak, node.child)| < 32
    ensures var payload := Encoding(Bytes(Hp(node.shared, false))) + NodeBytes(keccak, node.child);
            && |payload| < U64_LIMIT
            && NodeBytes(keccak, node) == LengthPrefix(0xc0, |payload|) + payload
  {
    hide LengthPrefix;
    NodeFits(keccak, node);
    var a, b := Bytes(Hp(node.shared, false)), RefItem(keccak, node.child);
    PayloadSnoc([a, b], 0);
    PayloadSnoc([a, b], 1);
    assert [a, b][..2] == [a, b] && [a, b][..1] == [a] && [a, b][..0] == [];
  }

  method PutChild(keccak: Keccak, slot: Slot, encodedItems: BytesMut)
    requires SlotShaped(slot) && SlotBounded(slot)
    modifies encodedItems
    ensures encodedItems.data == old(encodedItems.data) + Encoding(SlotItem(keccak, slot))
    decreases slot, 0
  {
    hide Encoding, NodeItem;
    match slot
    case None =>
      BytesLen([]);
      Encode(Bytes([]), encodedItems);
    case Some(child) =>
      var ref := EncodeNode(keccak, child);
      match ref
      case Inline(x) =>
        encodedItems.PutSlice(x);
      case Hash(x) =>
        BytesLen(x);
        Encode(Bytes(x), encodedItems);
  }

  method EncodeBranch(keccak: Keccak, node: TrieNode, buffer: BytesMut)
    requires node.Branch? && Shaped(node) && Bounded(node)
    modifies buffer
    ensures buffer.data == old(buffer.data) + NodeBytes(keccak, node)
    decreases node, 1
  {
    hide LengthPrefix, RefItem;
    ghost var items := NodeItem(keccak, node).items;
    NodeFits(keccak, node);
    BytesLen(ValueItem(node.value).data);
    var encodedItems := new BytesMut();
    for i := 0 to 16
      invariant fresh(encodedItems) && buffer.data == old(buffer.data)
      invariant encodedItems.data == Payload(items[..i])
    {
      PayloadSnoc(items, i);
      assert items[i] == SlotItem(keccak, node.children[i]);
      PutChild(keccak, node.children[i], encodedItems);
    }
    PayloadSnoc(items, 16);
    assert items[..17] == items;
    Encode(ValueItem(node.value), encodedItems);
    AddListPrefix(buffer, |encodedItems.data|);
    buffer.PutSlice(encodedItems.data);
  }

  datatype TrieError = InvalidKey

  class MerkleTrie {
    var root: Slot

    predicate Valid()
      reads this
    {
      SlotShaped(root)
    }

    constructor ()
      ensures Valid() && root == None
    {
      root := None;
    }

    method Insert(key: ByteString, newValue: ByteString) returns (r: Result<(), TrieError>)
      requires Valid()
      modifies this
      ensures Valid()
      ensures r == if key == [] then Err(InvalidKey) else Ok(())
      ensures root == if key == [] then old(root) else Some(Inserted(old(root), Nibbles(key), newValue))
    {
      if key == [] {
        return Err(InvalidKey);
      }
      var nibbles := BytesToNibbles(key);
      InsertedShaped(root, nibbles, newValue);
      root := Some(Inserted(root, nibbles, newValue));
      return Ok(());
    }

    method ComputeRootHash(keccak: Keccak) returns (h: B256)
      requires Valid() && SlotBounded(root)
      ensures h == RootHash(keccak, root)
    {
      match root
      case None =>
        h := keccak([0x80]);
      case Some(node) =>
        var encoded := EncodeNode(keccak, node);
        match encoded
        case Inline(x) => h := keccak(x);
        case Hash(x) => h := x;
    }
  }
}
